/** The one shared cluster Secret under any number of concurrent writers. Each call is a
    read-modify-write retried on conflict; each step is one API request, so a run is any
    interleaving. The API accepts an update only at the version the writer read, and a
    create only while the object is absent. `log` records the requests that took effect. */
module ClusterSecret {
  import opened Common

  /** How often a call runs its read-modify-write before it reports the conflict. */
  const ATTEMPTS: nat := 5

  type Data = map<string, string>

  datatype Object = Object(version: nat, data: Data)

  datatype Op = Set(name: string, value: string) | Remove(name: string)

  datatype Outcome = Succeeded | Exhausted | Errored

  /** `mark` and `until` are the length of the log at the read and at the answer. */
  datatype Phase =
    | Ready
    | Read(seen: Option<Object>, mark: nat)
    | Done(outcome: Outcome, until: nat)

  datatype Call = Call(op: Op, left: nat, phase: Phase, since: nat)

  datatype Effect = Effect(call: nat, op: Op)

  datatype State = State(secret: Option<Object>, calls: map<nat, Call>, log: seq<Effect>)

  datatype Step =
    | Invoke(id: nat, op: Op)
    | Get(id: nat)
    | Submit(id: nat)      // Create or Update, whichever the read calls for
    | Fail(id: nat)        // an error that is not retried

  predicate Init(s: State) {
    s.calls == map[] && s.log == []
  }

  /** The update a caller makes to the data it read. */
  function Edit(data: Data, op: Op): Data {
    match op
    case Set(name, value) => data[name := value]
    case Remove(name) => data - {name}
  }

  function Contents(secret: Option<Object>): Data {
    if secret.Some? then secret.value.data else map[]
  }

  predicate Enabled(s: State, step: Step) {
    match step
    case Invoke(c, _) => c !in s.calls
    case Get(c) => c in s.calls && s.calls[c].phase == Ready
    case Submit(c) => c in s.calls && s.calls[c].phase.Read?
    case Fail(c) => c in s.calls && !s.calls[c].phase.Done?
  }

  function At(s: State, c: nat, phase: Phase): State
    requires c in s.calls
  {
    s.(calls := s.calls[c := s.calls[c].(phase := phase)])
  }

  /** The API accepts the request this call built from what it read. */
  predicate Accepts(s: State, seen: Option<Object>) {
    match seen
    case None => s.secret.None?
    case Some(o) => s.secret.Some? && s.secret.value.version == o.version
  }

  function Do(s: State, step: Step): State
    requires Enabled(s, step)
  {
    match step
    case Invoke(c, op) => s.(calls := s.calls[c := Call(op, ATTEMPTS, Ready, |s.log|)])
    case Get(c) =>
      if s.calls[c].op.Remove? && s.calls[c].op.name !in Contents(s.secret) then
        At(s, c, Done(Succeeded, |s.log|))   // nothing to remove
      else
        At(s, c, Read(s.secret, |s.log|))
    case Submit(c) =>
      var call := s.calls[c];
      var seen := call.phase.seen;
      if Accepts(s, seen) then
        var version := if seen.Some? then seen.value.version + 1 else 0;
        At(s, c, Done(Succeeded, |s.log| + 1))
          .(secret := Some(Object(version, Edit(Contents(seen), call.op))), log := s.log + [Effect(c, call.op)])
      else if call.left > 1 then
        s.(calls := s.calls[c := call.(left := call.left - 1, phase := Ready)])
      else
        At(s, c, Done(Exhausted, |s.log|))
    case Fail(c) => At(s, c, Done(Errored, |s.log|))
  }

  ghost predicate Next(s: State, s': State) {
    exists step :: Enabled(s, step) && s' == Do(s, step)
  }

  ghost predicate Run(run: seq<State>) {
    && |run| > 0 && Init(run[0])
    && forall i :: 0 < i < |run| ==> Next(run[i - 1], run[i])
  }

  // ---- One atomic map ----------------------------------------------------------------

  /** The map an atomic store reaches by the logged edits, one at a time. */
  function Replay(base: Data, log: seq<Effect>): Data {
    if log == [] then base else Edit(Replay(base, log[..|log| - 1]), log[|log| - 1].op)
  }

  lemma ReplayAppend(base: Data, log: seq<Effect>, e: Effect)
    ensures Replay(base, log + [e]) == Edit(Replay(base, log), e.op)
    ensures forall p :: 0 <= p <= |log| ==> (log + [e])[..p] == log[..p]
  {
    assert (log + [e])[..|log|] == log;
  }

  /** Position `p`, before `until`, is the only place where the log can hold an entry of call `c`. */
  predicate OwnsAtMost(log: seq<Effect>, c: nat, p: nat, until: nat) {
    forall q :: 0 <= q < |log| && log[q].call == c ==> q == p < until
  }

  /** At log position `p` the call's edit is the log entry it owns, or changes nothing; the call
      owns no entry elsewhere. */
  predicate TakesEffectAt(base: Data, log: seq<Effect>, p: nat, c: nat, op: Op, until: nat) {
    && p <= until <= |log| && OwnsAtMost(log, c, p, until)
    && ((p < until && log[p] == Effect(c, op)) || (op.Remove? && op.name !in Replay(base, log[..p])))
  }

  ghost predicate Linearized(base: Data, log: seq<Effect>, c: nat, call: Call) {
    && call.phase.Done?
    && exists p: nat :: call.since <= p && TakesEffectAt(base, log, p, c, call.op, call.phase.until)
  }

  lemma LinearizedGrows(base: Data, log: seq<Effect>, e: Effect, c: nat, call: Call)
    requires Linearized(base, log, c, call) && e.call != c
    ensures Linearized(base, log + [e], c, call)
  {
    var p: nat :| call.since <= p && TakesEffectAt(base, log, p, c, call.op, call.phase.until);
    ReplayAppend(base, log, e);
    assert TakesEffectAt(base, log + [e], p, c, call.op, call.phase.until);
  }

  /** A read is behind the stored object, or it is the stored object. */
  predicate Fresh(s: State, o: Object) {
    && s.secret.Some? && o.version <= s.secret.value.version
    && (o.version == s.secret.value.version ==> o == s.secret.value)
  }

  /** Every attempt that failed so far lost to another effect since the call was made. */
  predicate Rivals(call: Call, now: nat) {
    call.since + (ATTEMPTS - call.left) <= now
  }

  ghost predicate CallOk(s: State, base: Data, c: nat)
    requires c in s.calls
  {
    var call := s.calls[c];
    && call.since <= |s.log| && 1 <= call.left <= ATTEMPTS
    && match call.phase
       case Ready => Rivals(call, |s.log|)
       case Read(seen, mark) =>
         && (seen.Some? ==> Fresh(s, seen.value))
         && mark <= |s.log| && (mark == |s.log| ==> seen == s.secret) && Rivals(call, mark)
       case Done(outcome, until) =>
         && until <= |s.log|
         && (outcome == Succeeded ==> Linearized(base, s.log, c, call))
         && (outcome == Exhausted ==> call.since + ATTEMPTS <= until)
  }

  /** Only calls that reported success are in the log, each at most once. */
  predicate LogOk(s: State) {
    && (forall p :: 0 <= p < |s.log| ==>
          && s.log[p].call in s.calls && s.calls[s.log[p].call].op == s.log[p].op
          && s.calls[s.log[p].call].phase.Done? && s.calls[s.log[p].call].phase.outcome == Succeeded)
    && (forall p, q :: 0 <= p < q < |s.log| ==> s.log[p].call != s.log[q].call)
  }

  ghost predicate Inv(s: State, base: Data) {
    && Contents(s.secret) == Replay(base, s.log)
    && (forall c :: c in s.calls ==> CallOk(s, base, c))
    && LogOk(s)
  }

  lemma QuietInv(s: State, s': State, base: Data, c: nat)
    requires Inv(s, base) && c in s'.calls && s' == s.(calls := s.calls[c := s'.calls[c]])
    requires c in s.calls ==> !s.calls[c].phase.Done?
    requires CallOk(s', base, c)
    ensures Inv(s', base)
  {
    forall d | d in s'.calls ensures CallOk(s', base, d) {
      if d != c {
        assert CallOk(s, base, d);
      }
    }
  }

  lemma GetInv(s: State, base: Data, c: nat)
    requires Inv(s, base) && Enabled(s, Get(c))
    ensures Inv(Do(s, Get(c)), base)
  {
    var s' := Do(s, Get(c));
    assert CallOk(s, base, c);
    if s'.calls[c].phase.Done? {
      assert s.log[..|s.log|] == s.log;
      assert TakesEffectAt(base, s.log, |s.log|, c, s.calls[c].op, |s.log|);
    }
    QuietInv(s, s', base, c);
  }

  /** The call whose request was accepted took effect as the entry just logged. */
  lemma AcceptedOwn(s: State, base: Data, c: nat)
    requires LogOk(s) && Enabled(s, Submit(c)) && Accepts(s, s.calls[c].phase.seen) && CallOk(s, base, c)
    ensures CallOk(Do(s, Submit(c)), base, c)
  {
    var s', e := Do(s, Submit(c)), Effect(c, s.calls[c].op);
    assert s'.log == s.log + [e];
    assert TakesEffectAt(base, s'.log, |s.log|, c, e.op, |s'.log|);
  }

  /** Every other call keeps its part of the invariant when a new entry is logged. */
  lemma AcceptedOther(s: State, s': State, base: Data, e: Effect, d: nat)
    requires d in s.calls && CallOk(s, base, d) && d != e.call
    requires d in s'.calls && s'.calls[d] == s.calls[d] && s'.log == s.log + [e]
    requires s'.secret.Some? && (s.secret.Some? ==> s.secret.value.version < s'.secret.value.version)
    ensures CallOk(s', base, d)
  {
    if s.calls[d].phase.Done? && s.calls[d].phase.outcome == Succeeded {
      LinearizedGrows(base, s.log, e, d, s.calls[d]);
    }
  }

  lemma AcceptedLog(s: State, c: nat)
    requires LogOk(s) && Enabled(s, Submit(c)) && Accepts(s, s.calls[c].phase.seen)
    ensures LogOk(Do(s, Submit(c)))
  {
  }

  /** An accepted request is one atomic edit of the current map, though it was computed from an
      earlier read. */
  lemma AcceptInv(s: State, base: Data, c: nat)
    requires Inv(s, base) && Enabled(s, Submit(c)) && Accepts(s, s.calls[c].phase.seen)
    ensures Inv(Do(s, Submit(c)), base)
    ensures Contents(Do(s, Submit(c)).secret) == Edit(Contents(s.secret), s.calls[c].op)
  {
    var s', e := Do(s, Submit(c)), Effect(c, s.calls[c].op);
    assert CallOk(s, base, c);
    ReplayAppend(base, s.log, e);
    AcceptedLog(s, c);
    forall d | d in s'.calls ensures CallOk(s', base, d) {
      assert CallOk(s, base, d);
      if d == c {
        AcceptedOwn(s, base, c);
      } else {
        AcceptedOther(s, s', base, e, d);
      }
    }
  }

  /** Every API request of every call keeps the invariant. */
  lemma StepInv(s: State, base: Data, step: Step)
    requires Inv(s, base) && Enabled(s, step)
    ensures Inv(Do(s, step), base)
  {
    match step
    case Invoke(c, _) => QuietInv(s, Do(s, step), base, c);
    case Get(c) => GetInv(s, base, c);
    case Submit(c) =>
      assert CallOk(s, base, c);
      if Accepts(s, s.calls[c].phase.seen) {
        AcceptInv(s, base, c);
      } else {
        QuietInv(s, Do(s, step), base, c);
      }
    case Fail(c) =>
      assert CallOk(s, base, c);
      QuietInv(s, Do(s, step), base, c);
  }

  function Last(run: seq<State>): State
    requires |run| > 0
  {
    run[|run| - 1]
  }

  lemma {:induction false} RunInv(run: seq<State>)
    requires Run(run)
    ensures Inv(Last(run), Contents(run[0].secret))
  {
    if |run| > 1 {
      var before := run[..|run| - 1];
      RunInv(before);
      assert Next(run[|run| - 2], run[|run| - 1]);
      var step :| Enabled(Last(before), step) && Last(run) == Do(Last(before), step);
      StepInv(Last(before), Contents(run[0].secret), step);
    }
  }

  /** In every interleaving, the first-create race included: the Secret is what the logged
      edits give one at a time; a successful call took effect at one point between call and
      return, which is its own entry if it has one (a removal may have found nothing to
      remove); a failed call edited nothing. */
  lemma CallsAreAtomic(run: seq<State>, c: nat)
    requires Run(run) && c in Last(run).calls && Last(run).calls[c].phase.Done?
    ensures Contents(Last(run).secret) == Replay(Contents(run[0].secret), Last(run).log)
    ensures Last(run).calls[c].phase.outcome == Succeeded ==>
              Linearized(Contents(run[0].secret), Last(run).log, c, Last(run).calls[c])
    ensures forall p :: 0 <= p < |Last(run).log| && Last(run).log[p].call == c ==> Last(run).log[p].op == Last(run).calls[c].op
    ensures Last(run).calls[c].phase.outcome != Succeeded ==> forall p :: 0 <= p < |Last(run).log| ==> Last(run).log[p].call != c
    ensures forall p, q :: 0 <= p < q < |Last(run).log| ==> Last(run).log[p].call != Last(run).log[q].call
  {
    RunInv(run);
    assert CallOk(Last(run), Contents(run[0].secret), c);
  }

  /** A call gives up with a conflict only if at least as many other effects as it has attempts
      took place while it ran: some writer always gets through. */
  lemma GivesUpOnlyAfterRivals(run: seq<State>, c: nat)
    requires Run(run) && c in Last(run).calls
    requires Last(run).calls[c].phase.Done? && Last(run).calls[c].phase.outcome == Exhausted
    ensures Last(run).calls[c].since + ATTEMPTS <= Last(run).calls[c].phase.until <= |Last(run).log|
    ensures forall p :: 0 <= p < |Last(run).log| ==> Last(run).log[p].call != c
  {
    CallsAreAtomic(run, c);
    RunInv(run);
    assert CallOk(Last(run), Contents(run[0].secret), c);
  }

  /** The last edit of a name decides what the map holds for it; other names play no part. */
  lemma {:induction false} LastEditDecides(base: Data, log: seq<Effect>, p: nat)
    requires p < |log| && forall q :: p < q < |log| ==> log[q].op.name != log[p].op.name
    ensures match log[p].op
            case Set(name, value) => name in Replay(base, log) && Replay(base, log)[name] == value
            case Remove(name) => name !in Replay(base, log)
    decreases |log|
  {
    var n := |log| - 1;
    if p < n {
      assert log[..n][p] == log[p];
      LastEditDecides(base, log[..n], p);
    }
  }

  /** Writes to different names never erase one another: a name set by a successful call holds
      that value unless a later effect edits the same name. */
  lemma OtherNamesNeverErase(run: seq<State>, c: nat) returns (p: nat)
    requires Run(run) && c in Last(run).calls && Last(run).calls[c].phase.Done?
    requires Last(run).calls[c].phase.outcome == Succeeded
    requires Last(run).calls[c].op.Set?
    ensures p < |Last(run).log| && Last(run).log[p] == Effect(c, Last(run).calls[c].op)
    ensures (forall q :: p < q < |Last(run).log| ==> Last(run).log[q].op.name != Last(run).calls[c].op.name) ==>
              var data := Contents(Last(run).secret);
              Last(run).calls[c].op.name in data && data[Last(run).calls[c].op.name] == Last(run).calls[c].op.value
  {
    CallsAreAtomic(run, c);
    var s, base := Last(run), Contents(run[0].secret);
    p :| s.calls[c].since <= p && TakesEffectAt(base, s.log, p, c, s.calls[c].op, s.calls[c].phase.until);
    if forall q :: p < q < |s.log| ==> s.log[q].op.name != s.calls[c].op.name {
      LastEditDecides(base, s.log, p);
    }
  }

  // ---- A call that nobody disturbs -----------------------------------------------------

  /** The map with one name set or removed, and every other name as it was. */
  ghost predicate Edited(before: Data, after: Data, op: Op) {
    && (match op
        case Set(name, value) => name in after && after[name] == value
        case Remove(name) => name !in after)
    && forall n :: n != op.name ==> (n in after <==> n in before) && (n in before ==> after[n] == before[n])
  }

  /** A call gets through: from any point of any run, a new call whose requests follow one another
      undisturbed succeeds, the very first one included, and edits its own name and no other. */
  lemma UndisturbedCall(run: seq<State>, c: nat, op: Op) returns (end: State)
    requires Run(run) && c !in Last(run).calls
    ensures var invoked := Do(Last(run), Invoke(c, op));
      var read := Do(invoked, Get(c));
      if read.calls[c].phase.Done? then end == read else Enabled(read, Submit(c)) && end == Do(read, Submit(c))
    ensures c in end.calls && end.calls[c].phase.Done? && end.calls[c].phase.outcome == Succeeded
    ensures Edited(Contents(Last(run).secret), Contents(end.secret), op)
  {
    var read := Do(Do(Last(run), Invoke(c, op)), Get(c));
    end := if read.calls[c].phase.Done? then read else Do(read, Submit(c));
  }

  /** Every logged edit, in every run: an accepted request changed its own name and no other. */
  lemma AcceptedEdits(run: seq<State>, c: nat)
    requires Run(run) && Enabled(Last(run), Submit(c)) && Accepts(Last(run), Last(run).calls[c].phase.seen)
    ensures Edited(Contents(Last(run).secret), Contents(Do(Last(run), Submit(c)).secret), Last(run).calls[c].op)
  {
    RunInv(run);
    AcceptInv(Last(run), Contents(run[0].secret), c);
  }

  /** Only an error that is not retried makes a call report one. */
  lemma ErrorOnlyByFail(s: State, step: Step, c: nat)
    requires Enabled(s, step) && c in s.calls
    ensures c in Do(s, step).calls
    ensures var was, now := s.calls[c].phase, Do(s, step).calls[c].phase;
      now.Done? && now.outcome == Errored && was != now ==> step == Fail(c)
  {
  }
}
