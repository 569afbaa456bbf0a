/** The Postgres backend as a machine of single statements. Any number of calls are in
    flight; each step is one statement of one call, so a run is an arbitrary interleaving
    of transactions. Postgres itself is committed rows, a holder per key (the row lock, or
    the uncommitted row that owns the unique index entry) and commit.

    `log` is a history variable: the operations that changed the table, in commit order. */
module KvRepo {
  import opened VersionedStore

  datatype Key = Key(deployment: string, namespace: string, key: string)

  type KvOp = Op<Key>
  type Rows = Table<Key>

  datatype Phase =
    | Begun                                // nothing executed yet
    | Looked(found: bool, current: int)  // after SELECT ... FOR UPDATE
    | Staged(next: int)                    // UPDATE or INSERT executed, not committed
    | Rechecking                           // versioned DELETE matched nothing, Get still to run
    | Done(answer: Answer, until: nat)     // answered when the log had `until` entries
    | Errored                              // a database error, rolled back

  /** `since` is the length of the log when the call was made. */
  datatype Call = Call(op: KvOp, phase: Phase, since: nat)

  datatype Commit = Commit(call: nat, op: KvOp)

  datatype State = State(
    rows: Rows,
    holder: map<Key, nat>,
    calls: map<nat, Call>,
    log: seq<Commit>)

  datatype Step =
    | Invoke(id: nat, op: KvOp)
    | SelectForUpdate(id: nat)
    | Refuse(id: nat)
    | Update(id: nat)
    | Insert(id: nat)
    | CommitWrite(id: nat)
    | DeleteRow(id: nat)
    | Recheck(id: nat)
    | Read(id: nat)
    | Abort(id: nat)

  ghost predicate Init(s: State, base: Rows) {
    s == State(base, map[], map[], []) && Positive(base)
  }

  function KeyOf(s: State, c: nat): Key
    requires c in s.calls
  {
    s.calls[c].op.key
  }

  /** The versioned or unconditional DELETE finds a row to remove. */
  predicate Matches(s: State, op: KvOp)
    requires op.Delete?
  {
    op.key in s.rows && (op.expected == 0 || op.expected == s.rows[op.key].version)
  }

  /** A step is enabled when its call is at that statement and no lock makes it wait. */
  predicate Enabled(s: State, step: Step) {
    if step.Invoke? then step.id !in s.calls
    else
      && step.id in s.calls
      && var op := s.calls[step.id].op;
         var phase := s.calls[step.id].phase;
         match step
         case SelectForUpdate(_) =>
           phase.Begun? && op.Write? && (op.key in s.rows ==> op.key !in s.holder)
         case Refuse(_) => phase.Looked? && op.Write? && op.expected != phase.current
         case Update(_) => phase.Looked? && phase.found && op.Write? && op.expected == phase.current
         case Insert(_) =>
           && phase.Looked? && !phase.found && op.Write? && op.expected == phase.current
           && (op.key !in s.rows ==> op.key !in s.holder)
         case CommitWrite(_) => phase.Staged? && op.Write?
         case DeleteRow(_) => phase.Begun? && op.Delete? && (Matches(s, op) ==> op.key !in s.holder)
         case Recheck(_) => phase.Rechecking?
         case Read(_) => phase.Begun? && op.Get?
         case Abort(_) => !phase.Done? && !phase.Errored?
  }

  function Goto(s: State, c: nat, phase: Phase): State
    requires c in s.calls
  {
    s.(calls := s.calls[c := s.calls[c].(phase := phase)])
  }

  /** The call answers, and whatever row it holds is released with its transaction. */
  function Finish(s: State, c: nat, answer: Answer): State
    requires c in s.calls
  {
    Release(Goto(s, c, Done(answer, |s.log|)), c)
  }

  function Release(s: State, c: nat): State {
    s.(holder := map k | k in s.holder && s.holder[k] != c :: s.holder[k])
  }

  function Do(s: State, step: Step): State
    requires Enabled(s, step)
  {
    match step
    case Invoke(c, op) => s.(calls := s.calls[c := Call(op, Begun, |s.log|)])
    case SelectForUpdate(c) =>
      var k := KeyOf(s, c);
      if k in s.rows then
        Goto(s, c, Looked(true, s.rows[k].version)).(holder := s.holder[k := c])
      else
        Goto(s, c, Looked(false, 0))
    case Refuse(c) => Finish(s, c, Conflict)
    case Update(c) => Goto(s, c, Staged(s.calls[c].phase.current + 1))
    case Insert(c) =>
      var k := KeyOf(s, c);
      if k in s.rows then
        Finish(s, c, Conflict)   // unique violation
      else
        Goto(s, c, Staged(s.calls[c].phase.current + 1)).(holder := s.holder[k := c])
    case CommitWrite(c) =>
      var op := s.calls[c].op;
      var next := s.calls[c].phase.next;
      var committed := s.(rows := s.rows[op.key := Entry(op.value, next)], log := s.log + [Commit(c, op)]);
      Finish(committed, c, Written(next))
    case DeleteRow(c) =>
      var op := s.calls[c].op;
      if Matches(s, op) then
        Finish(s.(rows := s.rows - {op.key}, log := s.log + [Commit(c, op)]), c, Deleted)
      else if op.expected == 0 then
        Finish(s, c, Deleted)
      else
        Goto(s, c, Rechecking)
    case Recheck(c) => Finish(s, c, if KeyOf(s, c) in s.rows then Conflict else Deleted)
    case Read(c) =>
      var k := KeyOf(s, c);
      Finish(s, c, if k in s.rows then Found(s.rows[k]) else Missing)
    case Abort(c) => Release(Goto(s, c, Errored), c)
  }

  ghost predicate Next(s: State, s': State) {
    exists step :: Enabled(s, step) && s' == Do(s, step)
  }

  ghost predicate Run(base: Rows, run: seq<State>) {
    && |run| > 0 && Init(run[0], base)
    && forall i :: 0 < i < |run| ==> Next(run[i - 1], run[i])
  }

  // ---- What the log means -------------------------------------------------------------

  /** The table the atomic store reaches by running the logged operations one at a time. */
  function Replay(base: Rows, log: seq<Commit>): Rows {
    if log == [] then base
    else After(Replay(base, log[..|log| - 1]), log[|log| - 1].op)
  }

  lemma ReplayAppend(base: Rows, log: seq<Commit>, e: Commit)
    ensures Replay(base, log + [e]) == After(Replay(base, log), e.op)
    ensures forall p :: 0 <= p <= |log| ==> (log + [e])[..p] == log[..p]
  {
    assert (log + [e])[..|log|] == log;
  }

  /** Position `p`, before `until`, is the only place where the log can hold an entry of call `c`. */
  predicate OwnsAtMost(log: seq<Commit>, c: nat, p: nat, until: nat) {
    forall q :: 0 <= q < |log| && log[q].call == c ==> q == p < until
  }

  /** At log position `p` the atomic store, running `op`, gives `answer`; any change `op` makes
      there is exactly the log entry this call owns, and the call owns no entry elsewhere. */
  predicate TakesEffectAt(base: Rows, log: seq<Commit>, p: nat, c: nat, op: KvOp, answer: Answer, until: nat)
    requires p <= |log|
  {
    var t := Replay(base, log[..p]);
    && Reply(t, op) == answer
    && (After(t, op) != t ==> p < until <= |log| && log[p] == Commit(c, op))
    && OwnsAtMost(log, c, p, until)
  }

  /** The answer is the atomic store's answer at some point between call and return. */
  ghost predicate Linearized(base: Rows, log: seq<Commit>, c: nat, call: Call) {
    && call.phase.Done?
    && exists p: nat ::
         && call.since <= p <= call.phase.until <= |log|
         && TakesEffectAt(base, log, p, c, call.op, call.phase.answer, call.phase.until)
  }

  lemma LinearizedGrows(base: Rows, log: seq<Commit>, e: Commit, c: nat, call: Call)
    requires Linearized(base, log, c, call) && e.call != c
    ensures Linearized(base, log + [e], c, call)
  {
    var p: nat :| && call.since <= p <= call.phase.until <= |log|
                  && TakesEffectAt(base, log, p, c, call.op, call.phase.answer, call.phase.until);
    ReplayAppend(base, log, e);
    assert TakesEffectAt(base, log + [e], p, c, call.op, call.phase.answer, call.phase.until);
  }

  /** The one answer that can be wrong: a versioned delete of version 1 that finds no row,
      then finds a freshly created one. */
  predicate MaybeSpurious(call: Call) {
    call.phase.Done? && call.phase.answer == Conflict && call.op.Delete? && call.op.expected == 1
  }

  /** Some table since the call was made is one the atomic store would refuse it on. */
  ghost predicate SawConflict(base: Rows, log: seq<Commit>, call: Call) {
    exists p: nat :: call.since <= p <= |log| && Reply(Replay(base, log[..p]), call.op) == Conflict
  }

  lemma SawConflictNow(base: Rows, log: seq<Commit>, call: Call)
    requires call.since <= |log| && Reply(Replay(base, log), call.op) == Conflict
    ensures SawConflict(base, log, call)
  {
    assert log[..|log|] == log;
  }

  lemma SawConflictGrows(base: Rows, log: seq<Commit>, e: Commit, call: Call)
    requires SawConflict(base, log, call)
    ensures SawConflict(base, log + [e], call)
  {
    var p: nat :| call.since <= p <= |log| && Reply(Replay(base, log[..p]), call.op) == Conflict;
    ReplayAppend(base, log, e);
    assert Reply(Replay(base, (log + [e])[..p]), call.op) == Conflict;
  }

  /** A refusal the atomic store would have given since the call was made is linearized. */
  lemma RefusedThen(base: Rows, log: seq<Commit>, c: nat, call: Call)
    requires call.since <= |log| && SawConflict(base, log, call)
    requires forall q :: 0 <= q < |log| ==> log[q].call != c
    ensures Linearized(base, log, c, call.(phase := Done(Conflict, |log|)))
  {
    var p: nat :| call.since <= p <= |log| && Reply(Replay(base, log[..p]), call.op) == Conflict;
    RefusedIsNoOp(Replay(base, log[..p]), call.op);
    assert TakesEffectAt(base, log, p, c, call.op, Conflict, |log|);
  }

  // ---- The invariant ------------------------------------------------------------------

  ghost predicate CallOk(s: State, base: Rows, c: nat)
    requires c in s.calls
  {
    var call := s.calls[c];
    var k := call.op.key;
    && call.since <= |s.log|
    && match call.phase
       case Begun => true
       case Looked(there, current) =>
         && call.op.Write?
         && (there ==> k in s.rows && s.rows[k].version == current && k in s.holder && s.holder[k] == c)
         && (!there ==> current == 0 && (call.op.expected != 0 ==> SawConflict(base, s.log, call)))
       case Staged(next) =>
         && call.op.Write? && k in s.holder && s.holder[k] == c
         && call.op.expected == Version(s.rows, k) && next == call.op.expected + 1
       case Rechecking =>
         && call.op.Delete? && call.op.expected != 0
         && (call.op.expected != 1 && Matches(s, call.op) ==> SawConflict(base, s.log, call))
       case Done(_, until) => until <= |s.log| && (Linearized(base, s.log, c, call) || MaybeSpurious(call))
       case Errored => true
  }

  predicate Holds(call: Call, k: Key) {
    call.op.Write? && call.op.key == k && (call.phase.Staged? || (call.phase.Looked? && call.phase.found))
  }

  /** Only calls that reported success are in the log, and each at most once. */
  ghost predicate LogOk(s: State) {
    && (forall p :: 0 <= p < |s.log| ==>
          && s.log[p].call in s.calls
          && s.calls[s.log[p].call].op == s.log[p].op
          && s.calls[s.log[p].call].phase.Done?
          && (s.calls[s.log[p].call].phase.answer.Written? || s.calls[s.log[p].call].phase.answer.Deleted?))
    && (forall p, q :: 0 <= p < q < |s.log| ==> s.log[p].call != s.log[q].call)
  }

  ghost predicate Inv(s: State, base: Rows) {
    && Positive(s.rows)
    && s.rows == Replay(base, s.log)
    && (forall k :: k in s.holder ==> s.holder[k] in s.calls && Holds(s.calls[s.holder[k]], k))
    && (forall c :: c in s.calls ==> CallOk(s, base, c))
    && LogOk(s)
  }

  lemma InitInv(s: State, base: Rows)
    requires Init(s, base)
    ensures Inv(s, base)
  {
  }

  /** An answer that changes nothing and is right for the current table is linearized now. */
  lemma AnswersNow(s: State, base: Rows, c: nat, answer: Answer)
    requires Inv(s, base) && c in s.calls && !s.calls[c].phase.Done?
    requires Reply(s.rows, s.calls[c].op) == answer && After(s.rows, s.calls[c].op) == s.rows
    ensures Linearized(base, s.log, c, s.calls[c].(phase := Done(answer, |s.log|)))
  {
    assert s.log[..|s.log|] == s.log;
    assert TakesEffectAt(base, s.log, |s.log|, c, s.calls[c].op, answer, |s.log|);
  }

  /** A call keeps its part of the invariant while the table and its row lock stay put. */
  lemma BystanderOk(s: State, s': State, base: Rows, d: nat)
    requires d in s.calls && CallOk(s, base, d)
    requires d in s'.calls && s'.calls[d] == s.calls[d] && s'.rows == s.rows && s'.log == s.log
    requires forall k :: k in s.holder && s.holder[k] == d ==> k in s'.holder && s'.holder[k] == d
    ensures CallOk(s', base, d)
  {
  }

  /** Answering without changing the table, or giving up, keeps the invariant. */
  lemma QuietStep(s: State, base: Rows, c: nat, phase: Phase)
    requires Inv(s, base) && c in s.calls && !s.calls[c].phase.Done?
    requires phase.Done? || phase.Errored?
    requires CallOk(Release(Goto(s, c, phase), c), base, c)
    ensures Inv(Release(Goto(s, c, phase), c), base)
  {
    var s' := Release(Goto(s, c, phase), c);
    forall d | d in s'.calls ensures CallOk(s', base, d) {
      if d != c {
        BystanderOk(s, s', base, d);
      }
    }
  }

  /** Moving on to the next statement without taking a lock keeps the invariant. */
  lemma MoveStep(s: State, base: Rows, c: nat, phase: Phase)
    requires Inv(s, base) && c in s.calls && !s.calls[c].phase.Done?
    requires !phase.Done?
    requires forall k :: Holds(s.calls[c], k) ==> Holds(s.calls[c].(phase := phase), k)
    requires CallOk(Goto(s, c, phase), base, c)
    ensures Inv(Goto(s, c, phase), base)
  {
    var s' := Goto(s, c, phase);
    forall d | d in s'.calls ensures CallOk(s', base, d) {
      if d != c {
        BystanderOk(s, s', base, d);
      }
    }
  }

  /** Moving on while taking the free row of the call's own key keeps the invariant. */
  lemma LockStep(s: State, base: Rows, c: nat, phase: Phase)
    requires Inv(s, base) && c in s.calls && !s.calls[c].phase.Done?
    requires !phase.Done? && KeyOf(s, c) !in s.holder && Holds(s.calls[c].(phase := phase), KeyOf(s, c))
    requires forall k :: k in s.holder ==> s.holder[k] != c
    requires CallOk(Goto(s, c, phase).(holder := s.holder[KeyOf(s, c) := c]), base, c)
    ensures Inv(Goto(s, c, phase).(holder := s.holder[KeyOf(s, c) := c]), base)
  {
    var s' := Goto(s, c, phase).(holder := s.holder[KeyOf(s, c) := c]);
    forall d | d in s'.calls ensures CallOk(s', base, d) {
      if d != c {
        BystanderOk(s, s', base, d);
      }
    }
  }

  /** A call `d` rechecking a delete stays covered when another call changes the table: a
      key that reaches version `expected >= 2` was at `expected - 1` just before. */
  lemma RecheckSurvives(s: State, base: Rows, e: Commit, d: nat)
    requires Inv(s, base) && d in s.calls && s.calls[d].phase.Rechecking?
    requires e.op.Write? ==> Reply(s.rows, e.op).Written?
    ensures var rows := After(s.rows, e.op);
            var op := s.calls[d].op;
            op.Delete? && (op.expected != 1 && op.key in rows && op.expected == rows[op.key].version ==>
              SawConflict(base, s.log + [e], s.calls[d]))
  {
    assert CallOk(s, base, d);
    var op := s.calls[d].op;
    var rows := After(s.rows, e.op);
    if op.expected != 1 && op.key in rows && op.expected == rows[op.key].version {
      if !Matches(s, op) {
        SawConflictNow(base, s.log, s.calls[d]);
      }
      SawConflictGrows(base, s.log, e, s.calls[d]);
    }
  }

  /** Any other call keeps its part of the invariant when a call that owns its key's row
      applies and logs its operation. */
  lemma WitnessOk(s: State, s': State, base: Rows, e: Commit, d: nat)
    requires Inv(s, base) && d in s.calls && d != e.call
    requires e.op.key in s.holder ==> s.holder[e.op.key] == e.call
    requires e.op.Write? ==> Reply(s.rows, e.op).Written?
    requires d in s'.calls && s'.calls[d] == s.calls[d]
    requires s'.rows == After(s.rows, e.op) && s'.log == s.log + [e]
    requires forall k :: k in s.holder && s.holder[k] == d ==> k in s'.holder && s'.holder[k] == d
    ensures CallOk(s', base, d)
  {
    assert CallOk(s, base, d);
    var call := s.calls[d];
    match call.phase
    case Done(_, _) =>
      if Linearized(base, s.log, d, call) {
        LinearizedGrows(base, s.log, e, d, call);
      }
    case Rechecking => RecheckSurvives(s, base, e, d);
    case Looked(_, _) =>
      if SawConflict(base, s.log, call) {
        SawConflictGrows(base, s.log, e, call);
      }
    case _ =>
  }

  /** A success answer with its new log entry keeps the log tied to successful calls. */
  lemma LogStep(s: State, s': State, c: nat, answer: Answer)
    requires LogOk(s) && c in s.calls && !s.calls[c].phase.Done?
    requires answer.Written? || answer.Deleted?
    requires s'.log == s.log + [Commit(c, s.calls[c].op)]
    requires s'.calls == s.calls[c := s.calls[c].(phase := Done(answer, |s'.log|))]
    ensures LogOk(s')
  {
  }

  /** A call that applies its operation to the table, logs it and answers keeps the invariant. */
  lemma EffectStep(s: State, s': State, base: Rows, c: nat)
    requires Inv(s, base) && c in s.calls && !s.calls[c].phase.Done?
    requires var op := s.calls[c].op;
             && (Reply(s.rows, op).Written? || Reply(s.rows, op).Deleted?)
             && (op.key in s.holder ==> s.holder[op.key] == c)
             && s' == Finish(s.(rows := After(s.rows, op), log := s.log + [Commit(c, op)]), c, Reply(s.rows, op))
    ensures Inv(s', base)
  {
    var op := s.calls[c].op;
    var e := Commit(c, op);
    ReplayAppend(base, s.log, e);
    AfterPositive(s.rows, op);
    LogStep(s, s', c, Reply(s.rows, op));
    forall d | d in s'.calls ensures CallOk(s', base, d) {
      if d == c {
        assert CallOk(s, base, c);
        assert s'.log[..|s.log|] == s.log;
        assert TakesEffectAt(base, s'.log, |s.log|, c, op, Reply(s.rows, op), |s'.log|);
      } else {
        WitnessOk(s, s', base, e, d);
      }
    }
  }

  lemma InvokeStep(s: State, base: Rows, c: nat, op: KvOp)
    requires Inv(s, base) && Enabled(s, Invoke(c, op))
    ensures Inv(Do(s, Invoke(c, op)), base)
  {
    var s' := Do(s, Invoke(c, op));
    forall d | d in s'.calls ensures CallOk(s', base, d) {
      if d != c {
        BystanderOk(s, s', base, d);
      }
    }
  }

  lemma SelectStep(s: State, base: Rows, c: nat)
    requires Inv(s, base) && Enabled(s, SelectForUpdate(c))
    ensures Inv(Do(s, SelectForUpdate(c)), base)
  {
    var k := KeyOf(s, c);
    assert CallOk(s, base, c);
    if k in s.rows {
      LockStep(s, base, c, Looked(true, s.rows[k].version));
    } else {
      if s.calls[c].op.expected != 0 {
        SawConflictNow(base, s.log, s.calls[c]);
      }
      MoveStep(s, base, c, Looked(false, 0));
    }
  }

  lemma RefuseStep(s: State, base: Rows, c: nat)
    requires Inv(s, base) && Enabled(s, Refuse(c))
    ensures Inv(Do(s, Refuse(c)), base)
  {
    assert CallOk(s, base, c);
    if s.calls[c].phase.found {
      AnswersNow(s, base, c, Conflict);
    } else {
      RefusedThen(base, s.log, c, s.calls[c]);
    }
    QuietStep(s, base, c, Done(Conflict, |s.log|));
  }

  lemma InsertStep(s: State, base: Rows, c: nat)
    requires Inv(s, base) && Enabled(s, Insert(c))
    ensures Inv(Do(s, Insert(c)), base)
  {
    if KeyOf(s, c) in s.rows {
      InsertConflicts(s, base, c);
    } else {
      assert CallOk(s, base, c);
      InsertLocks(s, base, c);
    }
  }

  lemma InsertLocks(s: State, base: Rows, c: nat)
    requires Inv(s, base) && c in s.calls && s.calls[c].phase == Looked(false, 0)
    requires s.calls[c].op.Write? && s.calls[c].op.expected == 0
    requires KeyOf(s, c) !in s.rows && KeyOf(s, c) !in s.holder
    ensures Inv(Goto(s, c, Staged(1)).(holder := s.holder[KeyOf(s, c) := c]), base)
  {
    assert CallOk(s, base, c);
    HoldsNothing(s, c);
    StagedOk(Goto(s, c, Staged(1)).(holder := s.holder[KeyOf(s, c) := c]), base, c);
    LockStep(s, base, c, Staged(1));
  }

  lemma StagedOk(s: State, base: Rows, c: nat)
    requires c in s.calls && s.calls[c].since <= |s.log| && s.calls[c].op.Write? && s.calls[c].op.expected == 0
    requires s.calls[c].phase == Staged(1) && KeyOf(s, c) !in s.rows
    requires KeyOf(s, c) in s.holder && s.holder[KeyOf(s, c)] == c
    ensures CallOk(s, base, c)
  {
  }

  /** A call that found no row to lock holds none. */
  lemma HoldsNothing(s: State, c: nat)
    requires c in s.calls && s.calls[c].phase.Looked? && !s.calls[c].phase.found
    requires forall k :: k in s.holder ==> s.holder[k] in s.calls && Holds(s.calls[s.holder[k]], k)
    ensures forall k :: k in s.holder ==> s.holder[k] != c
  {
  }

  lemma InsertConflicts(s: State, base: Rows, c: nat)
    requires Inv(s, base) && Enabled(s, Insert(c)) && KeyOf(s, c) in s.rows
    ensures Inv(Do(s, Insert(c)), base)
  {
    assert CallOk(s, base, c);
    AnswersNow(s, base, c, Conflict);
    QuietStep(s, base, c, Done(Conflict, |s.log|));
  }

  lemma DeleteStep(s: State, base: Rows, c: nat)
    requires Inv(s, base) && Enabled(s, DeleteRow(c))
    ensures Inv(Do(s, DeleteRow(c)), base)
  {
    assert CallOk(s, base, c);
    if Matches(s, s.calls[c].op) {
      EffectStep(s, Do(s, DeleteRow(c)), base, c);
    } else if s.calls[c].op.expected == 0 {
      AnswersNow(s, base, c, Deleted);
      QuietStep(s, base, c, Done(Deleted, |s.log|));
    } else {
      MoveStep(s, base, c, Rechecking);
    }
  }

  lemma RecheckStep(s: State, base: Rows, c: nat)
    requires Inv(s, base) && Enabled(s, Recheck(c))
    ensures Inv(Do(s, Recheck(c)), base)
  {
    assert CallOk(s, base, c);
    var call := s.calls[c];
    var answer := if call.op.key in s.rows then Conflict else Deleted;
    if Reply(s.rows, call.op) == answer {
      AnswersNow(s, base, c, answer);
    } else if call.op.expected != 1 {
      RefusedThen(base, s.log, c, call);
    }
    QuietStep(s, base, c, Done(answer, |s.log|));
  }

  lemma ReadStep(s: State, base: Rows, c: nat)
    requires Inv(s, base) && Enabled(s, Read(c))
    ensures Inv(Do(s, Read(c)), base)
  {
    assert CallOk(s, base, c);
    AnswersNow(s, base, c, Reply(s.rows, s.calls[c].op));
    QuietStep(s, base, c, Done(Reply(s.rows, s.calls[c].op), |s.log|));
  }

  lemma WriteStep(s: State, base: Rows, step: Step)
    requires step.Update? || step.CommitWrite?
    requires Inv(s, base) && Enabled(s, step)
    ensures Inv(Do(s, step), base)
  {
    assert CallOk(s, base, step.id);
    if step.Update? {
      MoveStep(s, base, step.id, Staged(s.calls[step.id].phase.current + 1));
    } else {
      EffectStep(s, Do(s, step), base, step.id);
    }
  }

  /** Every statement of every call keeps the invariant. */
  lemma StepInv(s: State, base: Rows, step: Step)
    requires Inv(s, base) && Enabled(s, step)
    ensures Inv(Do(s, step), base)
  {
    match step
    case Invoke(c, op) => InvokeStep(s, base, c, op);
    case SelectForUpdate(c) => SelectStep(s, base, c);
    case Refuse(c) => RefuseStep(s, base, c);
    case Update(_) => WriteStep(s, base, step);
    case Insert(c) => InsertStep(s, base, c);
    case CommitWrite(_) => WriteStep(s, base, step);
    case DeleteRow(c) => DeleteStep(s, base, c);
    case Recheck(c) => RecheckStep(s, base, c);
    case Read(c) => ReadStep(s, base, c);
    case Abort(c) =>
      assert CallOk(s, base, c);
      QuietStep(s, base, c, Errored);
  }

  // ---- The theorems ------------------------------------------------------------------

  function Last(run: seq<State>): State
    requires |run| > 0
  {
    run[|run| - 1]
  }

  lemma {:induction false} RunInv(base: Rows, run: seq<State>)
    requires Run(base, run)
    ensures Inv(Last(run), base)
  {
    if |run| == 1 {
      InitInv(run[0], base);
    } else {
      var before := run[..|run| - 1];
      RunInv(base, before);
      assert Next(run[|run| - 2], run[|run| - 1]);
      var step :| Enabled(Last(before), step) && Last(run) == Do(Last(before), step);
      StepInv(Last(before), base, step);
    }
  }

  /** Under every interleaving: the committed rows are what the atomic store reaches by the
      logged operations; every answer is the atomic store's at one point inside its call, and
      that point is where the call's own effect stands in the log, if it has one; the only
      exception is a conflict on deleting version 1; and a call that was refused or hit an
      error owns no log entry, so it changed nothing. */
  lemma AnswersLinearize(base: Rows, run: seq<State>)
    requires Run(base, run)
    ensures Last(run).rows == Replay(base, Last(run).log)
    ensures forall c :: c in Last(run).calls && Last(run).calls[c].phase.Done? && !MaybeSpurious(Last(run).calls[c]) ==>
              Linearized(base, Last(run).log, c, Last(run).calls[c])
    ensures forall p :: 0 <= p < |Last(run).log| ==>
              && Last(run).log[p].call in Last(run).calls
              && Last(run).calls[Last(run).log[p].call].op == Last(run).log[p].op
              && Last(run).calls[Last(run).log[p].call].phase.Done?
              && Last(run).calls[Last(run).log[p].call].phase.answer != Conflict
    ensures forall p, q :: 0 <= p < q < |Last(run).log| ==> Last(run).log[p].call != Last(run).log[q].call
  {
    RunInv(base, run);
    forall c | c in Last(run).calls && Last(run).calls[c].phase.Done? && !MaybeSpurious(Last(run).calls[c])
      ensures Linearized(base, Last(run).log, c, Last(run).calls[c])
    {
      assert CallOk(Last(run), base, c);
    }
  }

  /** Call `c`, deleting key `k` at version `e`, ends this run answered with a conflict. */
  ghost predicate DeleteRefused(base: Rows, run: seq<State>, c: nat, k: Key, e: int) {
    && Run(base, run) && c in Last(run).calls
    && Last(run).calls[c].op == Op.Delete(k, e)
    && Last(run).calls[c].phase.Done? && Last(run).calls[c].phase.answer == Conflict
  }

  ghost predicate DeleteConflictsLinearize(k: Key, e: int) {
    forall base, run, c | DeleteRefused(base, run, c, k, e) ::
      Linearized(base, Last(run).log, c, Last(run).calls[c])
  }

  /** Delete and create race: the delete finds nothing, the create commits version 1, the
      recheck finds it. */
  function SpuriousRun(k: Key): seq<State> {
    var erase, create := Op.Delete(k, 1), Op.Write(k, [], 0);
    var waiting := Call(erase, Rechecking, 0);
    var created := Call(create, Done(Written(1), 1), 0);
    var row, log := map[k := Entry([], 1)], [Commit(1, create)];
    [ State(map[], map[], map[], []),
      State(map[], map[], map[0 := Call(erase, Begun, 0)], []),
      State(map[], map[], map[0 := waiting], []),
      State(map[], map[], map[0 := waiting, 1 := Call(create, Begun, 0)], []),
      State(map[], map[], map[0 := waiting, 1 := Call(create, Looked(false, 0), 0)], []),
      State(map[], map[k := 1], map[0 := waiting, 1 := Call(create, Staged(1), 0)], []),
      State(row, map[], map[0 := waiting, 1 := created], log),
      State(row, map[], map[0 := Call(erase, Done(Conflict, 1), 0), 1 := created], log) ]
  }

  lemma SpuriousNext(k: Key, i: nat)
    requires 0 < i < 8
    ensures Next(SpuriousRun(k)[i - 1], SpuriousRun(k)[i])
  {
    var s, s' := SpuriousRun(k)[i - 1], SpuriousRun(k)[i];
    var step :=
      if i == 1 then Invoke(0, Op.Delete(k, 1))
      else if i == 2 then DeleteRow(0)
      else if i == 3 then Invoke(1, Op.Write(k, [], 0))
      else if i == 4 then SelectForUpdate(1)
      else if i == 5 then Insert(1)
      else if i == 6 then CommitWrite(1)
      else Recheck(0);
    assert Enabled(s, step);
    assert Do(s, step).calls == s'.calls && Do(s, step).holder == s'.holder;
  }

  lemma SpuriousIsRun(k: Key)
    ensures Run(map[], SpuriousRun(k))
  {
    forall i | 0 < i < |SpuriousRun(k)| ensures Next(SpuriousRun(k)[i - 1], SpuriousRun(k)[i]) {
      SpuriousNext(k, i);
    }
  }

  lemma SpuriousConflict(k: Key)
    ensures DeleteRefused(map[], SpuriousRun(k), 0, k, 1)
    ensures !Linearized(map[], Last(SpuriousRun(k)).log, 0, Last(SpuriousRun(k)).calls[0])
  {
    SpuriousIsRun(k);
    var end := Last(SpuriousRun(k));
    assert end.log[..0] == [] && end.log[..1] == end.log;
    assert Replay(map[], end.log) == map[k := Entry([], 1)];
  }

  /** A conflict answer to a versioned delete is always the atomic store's own answer at
      some point of the call, if and only if the expected version is not 1. */
  lemma DeleteConflictExact(k: Key, e: int)
    ensures DeleteConflictsLinearize(k, e) <==> e != 1
  {
    if e == 1 {
      SpuriousConflict(k);
    } else {
      forall base, run, c | DeleteRefused(base, run, c, k, e)
        ensures Linearized(base, Last(run).log, c, Last(run).calls[c])
      {
        AnswersLinearize(base, run);
      }
    }
  }

  /** Without a delete of `k` in between, the stored version of `k` never falls. */
  lemma {:induction false} VersionRises(base: Rows, log: seq<Commit>, i: nat, j: nat, k: Key)
    requires i <= j <= |log|
    requires forall m :: i <= m < j ==> !(log[m].op.Delete? && log[m].op.key == k)
    ensures Version(Replay(base, log[..i]), k) <= Version(Replay(base, log[..j]), k)
    decreases j
  {
    if i < j {
      VersionRises(base, log, i, j - 1, k);
      assert log[..j] == log[..j - 1] + [log[j - 1]];
      ReplayAppend(base, log[..j - 1], log[j - 1]);
    }
  }

  lemma WriteBumps(t: Rows, op: KvOp)
    requires Reply(t, op).Written?
    ensures op.Write? && After(t, op) != t
    ensures Version(t, op.key) + 1 == Reply(t, op).version == Version(After(t, op), op.key)
  {
    assert op.key in After(t, op);
    assert Version(After(t, op), op.key) != Version(t, op.key);
  }

  /** A write that reported a version owns the log entry that stored it. */
  lemma WrittenOwnsEntry(base: Rows, log: seq<Commit>, c: nat, call: Call) returns (p: nat)
    requires Linearized(base, log, c, call) && call.phase.answer.Written?
    ensures p < |log| && log[p] == Commit(c, call.op) && call.op.Write?
    ensures Version(Replay(base, log[..p]), call.op.key) + 1 == call.phase.answer.version
    ensures Version(Replay(base, log[..p + 1]), call.op.key) == call.phase.answer.version
  {
    p :| && call.since <= p <= call.phase.until <= |log|
         && TakesEffectAt(base, log, p, c, call.op, call.phase.answer, call.phase.until);
    WriteBumps(Replay(base, log[..p]), call.op);
    assert log[..p + 1] == log[..p] + [log[p]];
    ReplayAppend(base, log[..p], log[p]);
  }

  ghost predicate DeletedBetween(log: seq<Commit>, p: nat, q: nat, k: Key) {
    exists m :: p < m < q < |log| && log[m].op.Delete? && log[m].op.key == k
  }

  /** If the version of `k` just after entry `p` is above the one just before entry `q`, a
      delete of `k` lies between. */
  lemma FallMeansDelete(base: Rows, log: seq<Commit>, p: nat, q: nat, k: Key)
    requires p < q < |log|
    requires Version(Replay(base, log[..p + 1]), k) > Version(Replay(base, log[..q]), k)
    ensures DeletedBetween(log, p, q, k)
  {
    if forall m :: p + 1 <= m < q ==> !(log[m].op.Delete? && log[m].op.key == k) {
      VersionRises(base, log, p + 1, q, k);
      assert false;
    }
  }

  /** No lost update: if two writers of one key were handed the same version, a delete of
      that key took effect between their two commits. With no deletes each version has
      exactly one writer. */
  lemma NoLostUpdate(base: Rows, run: seq<State>, c: nat, d: nat) returns (p: nat, q: nat)
    requires Run(base, run) && c != d && c in Last(run).calls && d in Last(run).calls
    requires Last(run).calls[c].phase.Done? && Last(run).calls[c].phase.answer.Written?
    requires Last(run).calls[c].op.key == Last(run).calls[d].op.key
    requires Last(run).calls[d].phase.Done? && Last(run).calls[d].phase.answer == Last(run).calls[c].phase.answer
    ensures p < |Last(run).log| && Last(run).log[p] == Commit(c, Last(run).calls[c].op)
    ensures q < |Last(run).log| && Last(run).log[q] == Commit(d, Last(run).calls[d].op)
    ensures DeletedBetween(Last(run).log, p, q, Last(run).calls[c].op.key)
         || DeletedBetween(Last(run).log, q, p, Last(run).calls[c].op.key)
  {
    AnswersLinearize(base, run);
    var log, one, two := Last(run).log, Last(run).calls[c], Last(run).calls[d];
    p := WrittenOwnsEntry(base, log, c, one);
    q := WrittenOwnsEntry(base, log, d, two);
    if p < q {
      FallMeansDelete(base, log, p, q, one.op.key);
    } else {
      FallMeansDelete(base, log, q, p, one.op.key);
    }
  }

  // ---- What stays stored and what stays gone -------------------------------------------

  /** No entry of `log[i..j]` is about `k`. */
  predicate Untouched(log: seq<Commit>, i: nat, j: nat, k: Key)
    requires j <= |log|
  {
    forall m :: i <= m < j ==> log[m].op.key != k
  }

  /** No entry of `log[i..j]` writes `k`. */
  predicate NotWritten(log: seq<Commit>, i: nat, j: nat, k: Key)
    requires j <= |log|
  {
    forall m :: i <= m < j && log[m].op.Write? ==> log[m].op.key != k
  }

  /** The log only grows, one entry a step. */
  lemma LogGrows(s: State, step: Step)
    requires Enabled(s, step)
    ensures s.log <= Do(s, step).log && |Do(s, step).log| <= |s.log| + 1
  {
  }

  /** Every state of a run holds what the atomic store reaches by a prefix of the final log. */
  lemma {:induction false} StateOfPrefix(base: Rows, run: seq<State>, i: nat)
    requires Run(base, run) && i < |run|
    ensures run[i].log <= Last(run).log
    ensures run[i].rows == Replay(base, Last(run).log[..|run[i].log|])
    decreases |run|
  {
    if i == |run| - 1 {
      RunInv(base, run);
      assert run[i].log[..|run[i].log|] == run[i].log;
    } else {
      var before := run[..|run| - 1];
      StateOfPrefix(base, before, i);
      assert Next(run[|run| - 2], run[|run| - 1]);
      var step :| Enabled(Last(before), step) && Last(run) == Do(Last(before), step);
      LogGrows(Last(before), step);
      assert Last(run).log[..|run[i].log|] == Last(before).log[..|run[i].log|];
    }
  }

  /** Every prefix of the final log was the whole log in some state of the run. */
  lemma {:induction false} PrefixHasState(base: Rows, run: seq<State>, n: nat) returns (i: nat)
    requires Run(base, run) && n <= |Last(run).log|
    ensures i < |run| && |run[i].log| == n
  {
    if n == |Last(run).log| {
      i := |run| - 1;
    } else {
      var before := run[..|run| - 1];
      assert |run| > 1 && Last(before) == run[|run| - 2];
      assert Next(run[|run| - 2], run[|run| - 1]);
      var step :| Enabled(Last(before), step) && Last(run) == Do(Last(before), step);
      LogGrows(Last(before), step);
      i := PrefixHasState(base, before, n);
    }
  }

  /** A call that owns a log entry was answered as the atomic store answers it right there. */
  lemma EntryAnswered(base: Rows, run: seq<State>, p: nat)
    requires Run(base, run) && p < |Last(run).log|
    ensures var entry := Last(run).log[p];
            && entry.call in Last(run).calls && Last(run).calls[entry.call].phase.Done?
            && Last(run).calls[entry.call].phase.answer == Reply(Replay(base, Last(run).log[..p]), entry.op)
            && (if entry.op.Write? then Reply(Replay(base, Last(run).log[..p]), entry.op).Written?
                else entry.op.Delete? && Reply(Replay(base, Last(run).log[..p]), entry.op).Deleted?)
  {
    AnswersLinearize(base, run);
    RunInv(base, run);
    var log := Last(run).log;
    var c := log[p].call;
    var call := Last(run).calls[c];
    var at: nat :| && call.since <= at <= call.phase.until <= |log|
                   && TakesEffectAt(base, log, at, c, call.op, call.phase.answer, call.phase.until);
    assert at == p;
  }

  lemma {:induction false} GoneUntilWritten(base: Rows, log: seq<Commit>, i: nat, j: nat, k: Key)
    requires i <= j <= |log| && NotWritten(log, i, j, k)
    requires k !in Replay(base, log[..i])
    ensures k !in Replay(base, log[..j])
    decreases j
  {
    if i < j {
      GoneUntilWritten(base, log, i, j - 1, k);
      assert log[..j] == log[..j - 1] + [log[j - 1]];
      ReplayAppend(base, log[..j - 1], log[j - 1]);
      AnswerTellsTable(Replay(base, log[..j - 1]), log[j - 1].op);
    }
  }

  /** A delete that owns log entry `p` is a real one: in every state of the run after that
      entry its key has no row, until a later write of the key is logged. */
  lemma DeletedStaysOut(base: Rows, run: seq<State>, p: nat, i: nat)
    requires Run(base, run) && i < |run| && p < |run[i].log| && |run[i].log| <= |Last(run).log|
    requires Last(run).log[p].op.Delete?
    requires NotWritten(Last(run).log, p + 1, |run[i].log|, Last(run).log[p].op.key)
    ensures Last(run).log[p].call in Last(run).calls && Last(run).calls[Last(run).log[p].call].phase.Done?
    ensures Last(run).calls[Last(run).log[p].call].phase.answer == Deleted
    ensures Last(run).log[p].op.key !in run[i].rows
  {
    var log := Last(run).log;
    EntryAnswered(base, run, p);
    AnswerTellsTable(Replay(base, log[..p]), log[p].op);
    assert log[..p + 1] == log[..p] + [log[p]];
    ReplayAppend(base, log[..p], log[p]);
    GoneUntilWritten(base, log, p + 1, |run[i].log|, log[p].op.key);
    StateOfPrefix(base, run, i);
  }

  /** Whoever was told `Deleted` can rely on it: at some moment between the call and its answer
      the key had no row, whether this call or another removed it. */
  lemma DeletedWasGone(base: Rows, run: seq<State>, c: nat) returns (i: nat)
    requires Run(base, run) && c in Last(run).calls
    requires Last(run).calls[c].phase.Done? && Last(run).calls[c].phase.answer == Deleted
    ensures i < |run| && Last(run).calls[c].since <= |run[i].log| <= Last(run).calls[c].phase.until
    ensures Last(run).calls[c].op.Delete? && Last(run).calls[c].op.key !in run[i].rows
  {
    AnswersLinearize(base, run);
    var n := GoneAt(base, Last(run).log, c, Last(run).calls[c]);
    i := PrefixHasState(base, run, n);
    StateOfPrefix(base, run, i);
  }

  /** A delete that succeeded found no row, or took the row away, at its place in the log. */
  lemma GoneAt(base: Rows, log: seq<Commit>, c: nat, call: Call) returns (n: nat)
    requires Linearized(base, log, c, call) && call.phase.answer == Deleted
    ensures call.since <= n <= call.phase.until <= |log|
    ensures call.op.Delete? && call.op.key !in Replay(base, log[..n])
  {
    var p: nat :| && call.since <= p <= call.phase.until <= |log|
                  && TakesEffectAt(base, log, p, c, call.op, Deleted, call.phase.until);
    AnswerTellsTable(Replay(base, log[..p]), call.op);
    n := p;
    if call.op.key in Replay(base, log[..p]) {
      n := p + 1;
      assert log[..p + 1] == log[..p] + [log[p]];
      ReplayAppend(base, log[..p], log[p]);
    }
  }

  /** Key `k` held `e` when the log had `p` entries: `e` is the value of the last write of `k`
      at the version that write reported, or the initial row if `k` was never touched. */
  ghost predicate StoredBy(base: Rows, s: State, p: nat, k: Key, e: Entry)
    requires p <= |s.log|
  {
    || (k in base && base[k] == e && Untouched(s.log, 0, p, k))
    || exists m: nat :: m < p && WroteAt(s, m, k, e) && Untouched(s.log, m + 1, p, k)
  }

  ghost predicate WroteAt(s: State, m: nat, k: Key, e: Entry)
    requires m < |s.log|
  {
    && s.log[m].op.Write? && s.log[m].op.key == k && s.log[m].op.value == e.value
    && s.log[m].call in s.calls && s.calls[s.log[m].call].phase.Done?
    && s.calls[s.log[m].call].phase.answer == Written(e.version)
  }

  /** Key `k` had no row when the log had `p` entries: the last entry about `k` deletes it, or
      `k` was never there. */
  ghost predicate ClearedBy(base: Rows, s: State, p: nat, k: Key)
    requires p <= |s.log|
  {
    || (k !in base && Untouched(s.log, 0, p, k))
    || exists m: nat :: m < p && s.log[m].op.Delete? && s.log[m].op.key == k && Untouched(s.log, m + 1, p, k)
  }

  /** The last logged operation on a key decides what the key holds. */
  lemma {:induction false} LastEntryDecides(base: Rows, run: seq<State>, p: nat, k: Key)
    requires Run(base, run) && p <= |Last(run).log|
    ensures var t := Replay(base, Last(run).log[..p]);
            if k in t then StoredBy(base, Last(run), p, k, t[k]) else ClearedBy(base, Last(run), p, k)
    decreases p
  {
    if p > 0 {
      LastEntryDecides(base, run, p - 1, k);
      EntryDecides(base, run, p - 1, k);
    }
  }

  /** One entry's part of that: it decides its own key and leaves the others as they were. */
  lemma EntryDecides(base: Rows, run: seq<State>, p: nat, k: Key)
    requires Run(base, run) && p < |Last(run).log|
    requires var t := Replay(base, Last(run).log[..p]);
             if k in t then StoredBy(base, Last(run), p, k, t[k]) else ClearedBy(base, Last(run), p, k)
    ensures var t := Replay(base, Last(run).log[..p + 1]);
            if k in t then StoredBy(base, Last(run), p + 1, k, t[k]) else ClearedBy(base, Last(run), p + 1, k)
  {
    var s := Last(run);
    assert s.log[..p + 1] == s.log[..p] + [s.log[p]];
    ReplayAppend(base, s.log[..p], s.log[p]);
    EntryAnswered(base, run, p);
    AnswerTellsTable(Replay(base, s.log[..p]), s.log[p].op);
    var t := Replay(base, s.log[..p + 1]);
    if s.log[p].op.key == k {
      if s.log[p].op.Write? {
        assert WroteAt(s, p, k, t[k]);
      }
    } else if k in t {
      StoredStays(base, s, p, k, t[k]);
    } else {
      ClearedStays(base, s, p, k);
    }
  }

  lemma StoredStays(base: Rows, s: State, p: nat, k: Key, e: Entry)
    requires p < |s.log| && StoredBy(base, s, p, k, e) && s.log[p].op.key != k
    ensures StoredBy(base, s, p + 1, k, e)
  {
  }

  lemma ClearedStays(base: Rows, s: State, p: nat, k: Key)
    requires p < |s.log| && ClearedBy(base, s, p, k) && s.log[p].op.key != k
    ensures ClearedBy(base, s, p + 1, k)
  {
  }

  /** Every read, under every interleaving: at some moment `p` between call and return, what it
      reports is the last written value at the version its writer was told, or that the key was
      last deleted or never there. */
  lemma ReadsLastWrite(base: Rows, run: seq<State>, c: nat) returns (p: nat)
    requires Run(base, run) && c in Last(run).calls
    requires Last(run).calls[c].op.Get? && Last(run).calls[c].phase.Done?
    ensures Last(run).calls[c].since <= p <= Last(run).calls[c].phase.until <= |Last(run).log|
    ensures match Last(run).calls[c].phase.answer
            case Found(e) => StoredBy(base, Last(run), p, Last(run).calls[c].op.key, e)
            case Missing => ClearedBy(base, Last(run), p, Last(run).calls[c].op.key)
            case _ => false
  {
    AnswersLinearize(base, run);
    var log, call := Last(run).log, Last(run).calls[c];
    p :| && call.since <= p <= call.phase.until <= |log|
         && TakesEffectAt(base, log, p, c, call.op, call.phase.answer, call.phase.until);
    LastEntryDecides(base, run, p, call.op.key);
  }

  // ---- A call that nobody disturbs -----------------------------------------------------

  /** These steps, all of call `c`, can be taken one after another and lead to `end`. */
  predicate Leads(s: State, c: nat, steps: seq<Step>, end: State)
    decreases |steps|
  {
    if steps == [] then s == end
    else steps[0].id == c && Enabled(s, steps[0]) && Leads(Do(s, steps[0]), c, steps[1..], end)
  }

  lemma LeadsFirst(s: State, c: nat, step: Step, rest: seq<Step>, end: State)
    requires step.id == c && Enabled(s, step) && Leads(Do(s, step), c, rest, end)
    ensures Leads(s, c, [step] + rest, end)
  {
    assert ([step] + rest)[1..] == rest;
  }

  lemma LeadsOne(s: State, c: nat, step: Step)
    requires step.id == c && Enabled(s, step)
    ensures Leads(s, c, [step], Do(s, step))
  {
    assert [step] == [step] + [];
    LeadsFirst(s, c, step, [], Do(s, step));
  }

  /** What a call that is alone with its key comes to. */
  predicate AnsweredAlone(s: State, c: nat, op: KvOp, end: State) {
    && end.rows == After(s.rows, op) && c in end.calls && end.calls[c].op == op
    && end.calls[c].phase.Done? && end.calls[c].phase.answer == Reply(s.rows, op)
  }

  lemma WriteAlone(s: State, c: nat) returns (steps: seq<Step>, end: State)
    requires c in s.calls && s.calls[c].op.Write? && s.calls[c].phase == Begun && KeyOf(s, c) !in s.holder
    ensures Leads(s, c, steps, end) && AnsweredAlone(s, c, s.calls[c].op, end)
  {
    var op := s.calls[c].op;
    var looked := Do(s, SelectForUpdate(c));
    if op.expected != Version(s.rows, op.key) {
      end := Do(looked, Refuse(c));
      LeadsOne(looked, c, Refuse(c));
      steps := [Refuse(c)];
    } else {
      var stage := if op.key in s.rows then Update(c) else Insert(c);
      var staged := Do(looked, stage);
      end := Do(staged, CommitWrite(c));
      LeadsOne(staged, c, CommitWrite(c));
      LeadsFirst(looked, c, stage, [CommitWrite(c)], end);
      steps := [stage] + [CommitWrite(c)];
    }
    LeadsFirst(s, c, SelectForUpdate(c), steps, end);
    steps := [SelectForUpdate(c)] + steps;
  }

  lemma DeleteAlone(s: State, c: nat) returns (steps: seq<Step>, end: State)
    requires c in s.calls && s.calls[c].op.Delete? && s.calls[c].phase == Begun && KeyOf(s, c) !in s.holder
    ensures Leads(s, c, steps, end) && AnsweredAlone(s, c, s.calls[c].op, end)
  {
    end := Do(s, DeleteRow(c));
    if end.calls[c].phase == Rechecking {
      var tried := end;
      end := Do(tried, Recheck(c));
      LeadsOne(tried, c, Recheck(c));
      LeadsFirst(s, c, DeleteRow(c), [Recheck(c)], end);
      steps := [DeleteRow(c)] + [Recheck(c)];
    } else {
      LeadsOne(s, c, DeleteRow(c));
      steps := [DeleteRow(c)];
    }
  }

  /** Every operation gets through: from any point of any run at which no other call holds the row
      of its key, a new call can by its own statements alone be answered as the atomic store
      answers it on the rows as they are, and leave the rows the atomic store leaves. */
  lemma UndisturbedCall(base: Rows, run: seq<State>, c: nat, op: KvOp) returns (steps: seq<Step>, end: State)
    requires Run(base, run) && c !in Last(run).calls && op.key !in Last(run).holder
    ensures Leads(Last(run), c, steps, end) && AnsweredAlone(Last(run), c, op, end)
  {
    var s := Last(run);
    var begun := Do(s, Invoke(c, op));
    match op {
      case Get(_) =>
        end := Do(begun, Read(c));
        LeadsOne(begun, c, Read(c));
        steps := [Read(c)];
      case Write(_, _, _) => steps, end := WriteAlone(begun, c);
      case Delete(_, _) => steps, end := DeleteAlone(begun, c);
    }
    LeadsFirst(s, c, Invoke(c, op), steps, end);
    steps := [Invoke(c, op)] + steps;
  }

  /** Only a database error makes a call report one, and a call is answered by its own statement. */
  lemma ErrorOnlyByAbort(s: State, step: Step, c: nat)
    requires Enabled(s, step) && c in s.calls
    ensures c in Do(s, step).calls && Do(s, step).calls[c].op == s.calls[c].op
    ensures Do(s, step).calls[c].phase.Errored? ==> s.calls[c].phase.Errored? || step == Abort(c)
    ensures Do(s, step).calls[c] != s.calls[c] ==> step.id == c
  {
  }
}
