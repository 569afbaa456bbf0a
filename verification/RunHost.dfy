/** The run host: one session per namespace, each with at most one child process and one port
    from a shared pool. A step is one uninterrupted stretch of the event loop, so awaits of
    different namespaces and process exits interleave freely. One namespace runs at most one
    start, stop or reap at a time. */
module RunHost {
  import opened Common

  const BASE_PORT: nat := 40000
  const MAX_PORT: nat := 40999

  // ---- The port pool -----------------------------------------------------------------

  /** The lowest port of the pool, from `from` up, that is not in use. */
  function LowestFree(used: set<nat>, from: nat): (r: Option<nat>)
    ensures r.Some? ==> from <= r.value <= MAX_PORT && r.value !in used
    ensures r.Some? ==> forall p :: from <= p < r.value ==> p in used
    ensures r.None? <==> forall p :: from <= p <= MAX_PORT ==> p in used
    decreases MAX_PORT + 1 - from
  {
    if from > MAX_PORT then None
    else if from !in used then Some(from)
    else LowestFree(used, from + 1)
  }

  class PortPool {
    var used: set<nat>

    constructor ()
      ensures used == {}
    {
      used := {};
    }

    /** Reserves the lowest free port; none is left exactly when all thousand are in use. */
    method Allocate() returns (port: Option<nat>)
      modifies this
      ensures port == LowestFree(old(used), BASE_PORT)
      ensures port.Some? ==> IsLowestFree(old(used), port.value)
      ensures port.None? <==> forall p :: BASE_PORT <= p <= MAX_PORT ==> p in old(used)
      ensures used == if port.Some? then old(used) + {port.value} else old(used)
    {
      for p := BASE_PORT to MAX_PORT + 1
        invariant used == old(used)
        invariant LowestFree(used, p) == LowestFree(used, BASE_PORT)
      {
        if p !in used {
          used := used + {p};
          return Some(p);
        }
      }
      return None;
    }

    method Release(port: nat)
      modifies this
      ensures used == old(used) - {port}
    {
      used := used - {port};
    }
  }

  // ---- Sessions ----------------------------------------------------------------------

  type Namespace = nat
  type SessionId = nat
  type Generation = nat

  datatype Session = Session(proc: Option<Generation>, port: Option<nat>, exposable: bool, config: bool)

  /** A spawned child: the session and port its exit handler captured, and whether its exit
      promise has resolved. */
  datatype Child = Child(session: SessionId, port: Option<nat>, exited: bool)

  datatype Kind = Start(exposable: bool) | Stop | Reap

  datatype Place =
    | Exiting(generation: Generation)  // stop awaits the child's exit
    | Removing                         // stop awaits the removal of the config file
    | Preparing                        // start awaits its directory and config file
    | Forgetting                       // the reaper is about to drop the session

  datatype Call = Call(session: SessionId, kind: Kind, place: Place)

  datatype State = State(
    used: set<nat>,
    names: map<Namespace, SessionId>,
    sessions: map<SessionId, Session>,
    children: map<Generation, Child>,
    calls: map<Namespace, Call>)

  datatype Step =
    | Touch(ns: Namespace, id: SessionId)                 // any read creates the session
    | Begin(ns: Namespace, kind: Kind)
    | ChildExits(generation: Generation)                  // exit or error event, at any time
    | ResumeStop(ns: Namespace)
    | ConfigRemoved(ns: Namespace)
    | PrepareFails(ns: Namespace)
    | Launch(ns: Namespace, generation: Generation, spawns: bool)
    | DropSession(ns: Namespace)

  predicate Init(s: State) {
    s == State({}, map[], map[], map[], map[])
  }

  predicate Enabled(s: State, step: Step) {
    match step
    case Touch(ns, id) => ns in s.names || id !in s.sessions
    case Begin(ns, _) => ns in s.names && ns !in s.calls && s.names[ns] in s.sessions
    case ChildExits(g) => g in s.children && s.children[g].session in s.sessions
    case ResumeStop(ns) =>
      && ns in s.calls && s.calls[ns].place.Exiting? && s.calls[ns].session in s.sessions
      && s.calls[ns].place.generation in s.children && s.children[s.calls[ns].place.generation].exited
    case ConfigRemoved(ns) => ns in s.calls && s.calls[ns].place == Removing && s.calls[ns].session in s.sessions
    case PrepareFails(ns) => ns in s.calls && s.calls[ns].place == Preparing
    case Launch(ns, g, _) =>
      && ns in s.calls && s.calls[ns].place == Preparing && s.calls[ns].kind.Start?
      && s.calls[ns].session in s.sessions && g !in s.children
    case DropSession(ns) => ns in s.calls && s.calls[ns].place == Forgetting
  }

  function With(s: State, id: SessionId, x: Session): State {
    s.(sessions := s.sessions[id := x])
  }

  /** What stop does once the child is gone: forget it, give the port back, and go on to
      remove the config file. */
  function StopTail(s: State, ns: Namespace, call: Call): State
    requires call.session in s.sessions
  {
    var x := s.sessions[call.session];
    With(s, call.session, x.(proc := None, port := None, exposable := false))
      .(used := if x.port.Some? then s.used - {x.port.value} else s.used,
        calls := s.calls[ns := call.(place := Removing)])
  }

  function End(s: State, ns: Namespace): State {
    s.(calls := s.calls - {ns})
  }

  function Do(s: State, step: Step): State
    requires Enabled(s, step)
  {
    match step
    case Touch(ns, id) =>
      if ns in s.names then s
      else With(s, id, Session(None, None, false, false)).(names := s.names[ns := id])
    case Begin(ns, kind) =>
      var id := s.names[ns];
      if s.sessions[id].proc.Some? then
        s.(calls := s.calls[ns := Call(id, kind, Exiting(s.sessions[id].proc.value))])
      else
        StopTail(s, ns, Call(id, kind, Removing))
    case ChildExits(g) =>
      var child := s.children[g];
      var x := s.sessions[child.session];
      var gone := s.(children := s.children[g := child.(exited := true)]);
      if x.proc != Some(g) then gone
      else if child.port.Some? && x.port == child.port then
        With(gone, child.session, x.(proc := None, port := None)).(used := s.used - {child.port.value})
      else
        With(gone, child.session, x.(proc := None))
    case ResumeStop(ns) => StopTail(s, ns, s.calls[ns])
    case ConfigRemoved(ns) =>
      var call := s.calls[ns];
      var clean := With(s, call.session, s.sessions[call.session].(config := false));
      (match call.kind
       case Stop => End(clean, ns)
       case Reap => clean.(calls := s.calls[ns := call.(place := Forgetting)])
       case Start(_) => clean.(calls := s.calls[ns := call.(place := Preparing)]))
    case PrepareFails(ns) => End(s, ns)
    case Launch(ns, g, spawns) =>
      var call := s.calls[ns];
      var x := s.sessions[call.session].(config := true);
      var free := LowestFree(s.used, BASE_PORT);
      if call.kind.exposable && free.None? then
        End(With(s, call.session, x), ns)      // pool exhausted: start throws
      else
        var port := if call.kind.exposable then free else None;
        var held := if port.Some? then s.used + {port.value} else s.used;
        var y := x.(port := port, exposable := call.kind.exposable);
        if spawns then
          End(With(s, call.session, y.(proc := Some(g))), ns)
            .(used := held, children := s.children[g := Child(call.session, port, false)])
        else
          End(With(s, call.session, y), ns).(used := held)   // spawn threw: the port stays held
    case DropSession(ns) => End(s, ns).(names := s.names - {ns})
  }

  ghost predicate Next(s: State, s': State) {
    exists step :: Enabled(s, step) && s' == Do(s, step)
  }

  ghost predicate Run(run: seq<State>) {
    && |run| > 0 && Init(run[0])
    && forall i :: 0 < i < |run| ==> Next(run[i - 1], run[i])
  }

  function Last(run: seq<State>): State
    requires |run| > 0
  {
    run[|run| - 1]
  }

  // ---- The invariant -----------------------------------------------------------------

  /** A session's port is reserved and in range, and its child is its own, on that port. */
  predicate SessionOk(s: State, id: SessionId)
    requires id in s.sessions
  {
    var x := s.sessions[id];
    && (x.port.Some? ==> x.port.value in s.used && BASE_PORT <= x.port.value <= MAX_PORT)
    && (x.proc.Some? ==>
          && x.proc.value in s.children && s.children[x.proc.value].session == id
          && s.children[x.proc.value].port == x.port && !s.children[x.proc.value].exited)
  }

  /** Ports are held by one session each, and the pool holds no others. */
  ghost predicate PortsOk(s: State) {
    && (forall i, j :: i in s.sessions && j in s.sessions && i != j && s.sessions[i].port.Some? ==>
          s.sessions[i].port != s.sessions[j].port)
    && (forall p :: p in s.used ==> Held(s, p))
  }

  ghost predicate Held(s: State, p: nat) {
    exists id :: id in s.sessions && s.sessions[id].port == Some(p)
  }

  /** A named session belongs to its name alone; a session no name leads to holds nothing. */
  ghost predicate NamesOk(s: State) {
    && (forall ns :: ns in s.names ==> s.names[ns] in s.sessions)
    && (forall m, n :: m in s.names && n in s.names && m != n ==> s.names[m] != s.names[n])
    && (forall id :: id in s.sessions && (s.sessions[id].port.Some? || s.sessions[id].proc.Some?) ==>
          exists ns :: ns in s.names && s.names[ns] == id)
  }

  predicate CallOk(s: State, ns: Namespace)
    requires ns in s.calls
  {
    var call := s.calls[ns];
    && ns in s.names && s.names[ns] == call.session && call.session in s.sessions
    && var x := s.sessions[call.session];
       match call.place
       case Exiting(g) => x.proc.None? || x.proc == Some(g)
       case Preparing => x.proc.None? && x.port.None? && call.kind.Start?
       case _ => x.proc.None? && x.port.None?
  }

  ghost predicate Inv(s: State) {
    && (forall id :: id in s.sessions ==> SessionOk(s, id))
    && (forall ns :: ns in s.calls ==> CallOk(s, ns))
    && (forall g :: g in s.children ==> s.children[g].session in s.sessions)
    && PortsOk(s) && NamesOk(s)
  }

  // ---- Every step keeps the invariant -------------------------------------------------

  /** Only session `id` changes, and only by losing its child, or its child and its port. */
  ghost predicate Loses(s: State, s': State, id: SessionId) {
    && id in s.sessions && id in s'.sessions && s'.sessions == s.sessions[id := s'.sessions[id]]
    && s'.names == s.names
    && var x, x' := s.sessions[id], s'.sessions[id];
       && (x'.proc.None? || x'.proc == x.proc)
       && (if x'.port == x.port then s'.used == s.used
           else x'.port.None? && x'.proc.None? && x.port.Some? && s'.used == s.used - {x.port.value})
  }

  lemma LosesKeepsPorts(s: State, s': State, id: SessionId)
    requires Loses(s, s', id) && PortsOk(s) && NamesOk(s)
    ensures PortsOk(s') && NamesOk(s')
  {
    forall p | p in s'.used ensures Held(s', p) {
      assert Held(s, p);
      var j :| j in s.sessions && s.sessions[j].port == Some(p);
      assert j in s'.sessions && s'.sessions[j].port == Some(p);
    }
  }

  /** Children are only marked exited, and the one marked is no session's child any more. */
  ghost predicate ChildrenMarked(s: State, s': State) {
    && s'.children.Keys == s.children.Keys
    && forall g :: g in s.children ==>
         && s'.children[g].session == s.children[g].session && s'.children[g].port == s.children[g].port
         && (s'.children[g].exited == s.children[g].exited || NoOnesChild(s', g))
  }

  ghost predicate NoOnesChild(s: State, g: Generation) {
    forall id :: id in s.sessions ==> s.sessions[id].proc != Some(g)
  }

  lemma LosesKeepsSession(s: State, s': State, id: SessionId, j: SessionId)
    requires Loses(s, s', id) && ChildrenMarked(s, s') && PortsOk(s)
    requires j in s'.sessions && SessionOk(s, j)
    ensures SessionOk(s', j)
  {
    assert j != id ==> s'.sessions[j] == s.sessions[j];
    assert j != id && s.sessions[id].port.Some? ==> s.sessions[id].port != s.sessions[j].port;
  }

  /** A call that did not move still fits, because its session can only have lost things. */
  lemma LosesKeepsCall(s: State, s': State, id: SessionId, ns: Namespace)
    requires Loses(s, s', id)
    requires ns in s.calls && CallOk(s, ns) && ns in s'.calls && s'.calls[ns] == s.calls[ns]
    ensures CallOk(s', ns)
  {
  }

  /** A call either did not move or fits where it is now. */
  ghost predicate CallsFit(s: State, s': State) {
    forall n :: n in s'.calls ==> (n in s.calls && s'.calls[n] == s.calls[n]) || CallOk(s', n)
  }

  lemma LosesKeepsInv(s: State, s': State, id: SessionId)
    requires Inv(s) && Loses(s, s', id) && ChildrenMarked(s, s') && CallsFit(s, s')
    ensures Inv(s')
  {
    LosesKeepsPorts(s, s', id);
    forall j | j in s'.sessions ensures SessionOk(s', j) {
      assert SessionOk(s, j);
      LosesKeepsSession(s, s', id, j);
    }
    forall n | n in s'.calls ensures CallOk(s', n) {
      if n in s.calls && s'.calls[n] == s.calls[n] {
        assert CallOk(s, n);
        LosesKeepsCall(s, s', id, n);
      }
    }
  }

  lemma StopTailKeepsInv(s: State, ns: Namespace, call: Call)
    requires Inv(s) && ns in s.names && s.names[ns] == call.session && call.session in s.sessions
    ensures Inv(StopTail(s, ns, call))
  {
    assert SessionOk(s, call.session);
    assert CallsFit(s, StopTail(s, ns, call));
    LosesKeepsInv(s, StopTail(s, ns, call), call.session);
  }

  lemma ExitDoes(s: State, g: Generation)
    requires Enabled(s, ChildExits(g)) && SessionOk(s, s.children[g].session)
    requires forall j :: j in s.sessions && s.sessions[j].proc == Some(g) ==> j == s.children[g].session
    ensures var s' := Do(s, ChildExits(g));
      Loses(s, s', s.children[g].session) && ChildrenMarked(s, s') && s'.calls == s.calls
  {
    assert NoOnesChild(Do(s, ChildExits(g)), g);
  }

  lemma ExitKeepsInv(s: State, g: Generation)
    requires Inv(s) && Enabled(s, ChildExits(g))
    ensures Inv(Do(s, ChildExits(g)))
  {
    forall j | j in s.sessions && s.sessions[j].proc == Some(g) ensures j == s.children[g].session {
      assert SessionOk(s, j);
    }
    assert SessionOk(s, s.children[g].session);
    ExitDoes(s, g);
    LosesKeepsInv(s, Do(s, ChildExits(g)), s.children[g].session);
  }

  /** The steps that move one call on and leave every session's child and port alone. */
  predicate Moves(s: State, step: Step)
    requires Enabled(s, step)
  {
    step.ConfigRemoved? || step.PrepareFails? || (step.Begin? && s.sessions[s.names[step.ns]].proc.Some?)
  }

  lemma MoveDoes(s: State, step: Step, id: SessionId)
    requires Enabled(s, step) && Moves(s, step)
    requires if step.Begin? then id == s.names[step.ns] else CallOk(s, step.ns) && id == s.calls[step.ns].session
    ensures var s' := Do(s, step);
      Loses(s, s', id) && s'.children == s.children && CallsFit(s, s')
  {
  }

  lemma MoveKeepsInv(s: State, step: Step)
    requires Inv(s) && Enabled(s, step) && Moves(s, step)
    ensures Inv(Do(s, step))
  {
    var id := if step.Begin? then s.names[step.ns] else s.calls[step.ns].session;
    assert !step.Begin? ==> CallOk(s, step.ns);
    MoveDoes(s, step, id);
    LosesKeepsInv(s, Do(s, step), id);
  }

  lemma TouchKeepsPorts(s: State, ns: Namespace, id: SessionId)
    requires PortsOk(s) && NamesOk(s) && Enabled(s, Touch(ns, id)) && ns !in s.names
    ensures PortsOk(Do(s, Touch(ns, id))) && NamesOk(Do(s, Touch(ns, id)))
  {
    var s' := Do(s, Touch(ns, id));
    forall p | p in s'.used ensures Held(s', p) {
      assert Held(s, p);
      var j :| j in s.sessions && s.sessions[j].port == Some(p);
      assert j in s'.sessions && s'.sessions[j].port == Some(p);
    }
    forall j | j in s'.sessions && (s'.sessions[j].port.Some? || s'.sessions[j].proc.Some?)
      ensures exists n :: n in s'.names && s'.names[n] == j
    {
      var n :| n in s.names && s.names[n] == j;
      assert n in s'.names && s'.names[n] == j;
    }
  }

  lemma TouchKeepsInv(s: State, ns: Namespace, id: SessionId)
    requires Inv(s) && Enabled(s, Touch(ns, id)) && ns !in s.names
    ensures Inv(Do(s, Touch(ns, id)))
  {
    var s' := Do(s, Touch(ns, id));
    TouchKeepsPorts(s, ns, id);
    forall j | j in s'.sessions ensures SessionOk(s', j) {
      assert j != id ==> SessionOk(s, j);
    }
    forall n | n in s'.calls ensures CallOk(s', n) {
      assert CallOk(s, n);
    }
  }

  /** Session `id`, which held nothing, now has `port`, newly reserved, and perhaps a child. */
  ghost predicate Gains(s: State, s': State, id: SessionId, port: Option<nat>) {
    && id in s.sessions && s.sessions[id].port.None? && id in s'.sessions
    && s'.sessions == s.sessions[id := s'.sessions[id]] && s'.sessions[id].port == port
    && s'.names == s.names
    && (port.Some? ==> port.value !in s.used && BASE_PORT <= port.value <= MAX_PORT)
    && s'.used == if port.Some? then s.used + {port.value} else s.used
  }

  lemma GainsKeepsPorts(s: State, s': State, id: SessionId, port: Option<nat>, ns: Namespace)
    requires Inv(s) && Gains(s, s', id, port) && ns in s.names && s.names[ns] == id
    ensures PortsOk(s') && NamesOk(s')
  {
    forall p | p in s'.used ensures Held(s', p) {
      if port == Some(p) {
        assert id in s'.sessions && s'.sessions[id].port == Some(p);
      } else {
        assert Held(s, p);
        var j :| j in s.sessions && s.sessions[j].port == Some(p);
        assert j in s'.sessions && s'.sessions[j].port == Some(p);
      }
    }
    forall i, j | i in s'.sessions && j in s'.sessions && i != j && s'.sessions[i].port.Some?
      ensures s'.sessions[i].port != s'.sessions[j].port
    {
      assert SessionOk(s, i) && SessionOk(s, j);
    }
    assert ns in s'.names && s'.names[ns] == id;
  }

  /** What a launch does: the call ends, and the session has its port and, if `g` was spawned,
      its child. */
  ghost predicate Launched(s: State, s': State, ns: Namespace, id: SessionId, g: Generation) {
    && id in s'.sessions && Gains(s, s', id, s'.sessions[id].port) && s'.calls == s.calls - {ns}
    && (if s'.sessions[id].proc.None? then s'.children == s.children
        else
          && s'.sessions[id].proc == Some(g) && g !in s.children
          && s'.children == s.children[g := Child(id, s'.sessions[id].port, false)])
  }

  lemma LaunchDoes(s: State, ns: Namespace, g: Generation, spawns: bool)
    requires Enabled(s, Launch(ns, g, spawns)) && CallOk(s, ns)
    ensures Launched(s, Do(s, Launch(ns, g, spawns)), ns, s.calls[ns].session, g)
  {
  }

  lemma LaunchedKeepsSession(s: State, s': State, ns: Namespace, id: SessionId, g: Generation, j: SessionId)
    requires Launched(s, s', ns, id, g) && j in s.sessions && SessionOk(s, j)
    ensures SessionOk(s', j)
  {
  }

  lemma LaunchedKeepsCall(s: State, s': State, ns: Namespace, id: SessionId, g: Generation, n: Namespace)
    requires Launched(s, s', ns, id, g) && NamesOk(s) && ns in s.names && s.names[ns] == id
    requires n in s.calls && n != ns && CallOk(s, n)
    ensures CallOk(s', n)
  {
    assert s.names[n] != id;
  }

  lemma LaunchedKeepsInv(s: State, s': State, ns: Namespace, id: SessionId, g: Generation)
    requires Inv(s) && Launched(s, s', ns, id, g) && ns in s.names && s.names[ns] == id
    ensures Inv(s')
  {
    GainsKeepsPorts(s, s', id, s'.sessions[id].port, ns);
    forall j | j in s'.sessions ensures SessionOk(s', j) {
      LaunchedKeepsSession(s, s', ns, id, g, j);
    }
    forall n | n in s'.calls ensures CallOk(s', n) {
      LaunchedKeepsCall(s, s', ns, id, g, n);
    }
  }

  lemma DropKeepsInv(s: State, ns: Namespace)
    requires Inv(s) && Enabled(s, DropSession(ns))
    ensures Inv(Do(s, DropSession(ns)))
  {
    var s' := Do(s, DropSession(ns));
    assert CallOk(s, ns);
    forall p | p in s'.used ensures Held(s', p) {
      assert Held(s, p);
      var j :| j in s.sessions && s.sessions[j].port == Some(p);
      assert j in s'.sessions && s'.sessions[j].port == Some(p);
    }
    forall j | j in s'.sessions ensures SessionOk(s', j) {
      assert SessionOk(s, j);
    }
    forall n | n in s'.calls ensures CallOk(s', n) {
      assert CallOk(s, n);
    }
    forall j | j in s'.sessions && (s'.sessions[j].port.Some? || s'.sessions[j].proc.Some?)
      ensures exists n :: n in s'.names && s'.names[n] == j
    {
      var n :| n in s.names && s.names[n] == j;
      assert n in s'.names && s'.names[n] == j;
    }
  }

  lemma StepInv(s: State, step: Step)
    requires Inv(s) && Enabled(s, step)
    ensures Inv(Do(s, step))
  {
    match step
    case Touch(ns, id) => if ns !in s.names { TouchKeepsInv(s, ns, id); }
    case Begin(ns, kind) =>
      if s.sessions[s.names[ns]].proc.Some? { MoveKeepsInv(s, step); }
      else { StopTailKeepsInv(s, ns, Call(s.names[ns], kind, Removing)); }
    case ChildExits(g) => ExitKeepsInv(s, g);
    case ResumeStop(ns) =>
      assert CallOk(s, ns);
      StopTailKeepsInv(s, ns, s.calls[ns]);
    case ConfigRemoved(ns) => MoveKeepsInv(s, step);
    case PrepareFails(ns) => MoveKeepsInv(s, step);
    case Launch(ns, g, spawns) =>
      assert CallOk(s, ns);
      LaunchDoes(s, ns, g, spawns);
      LaunchedKeepsInv(s, Do(s, step), ns, s.calls[ns].session, g);
    case DropSession(ns) => DropKeepsInv(s, ns);
  }

  lemma NextInv(s: State, s': State)
    requires Inv(s) && Next(s, s')
    ensures Inv(s')
  {
    var step :| Enabled(s, step) && s' == Do(s, step);
    StepInv(s, step);
  }

  lemma {:induction false} RunInv(run: seq<State>)
    requires Run(run)
    ensures Inv(Last(run))
  {
    if |run| > 1 {
      var prefix := run[..|run| - 1];
      forall i | 0 < i < |prefix| ensures Next(prefix[i - 1], prefix[i]) {
        assert Next(run[i - 1], run[i]);
      }
      RunInv(prefix);
      NextInv(Last(prefix), Last(run));
    }
  }

  // ---- What holds in every run -------------------------------------------------------

  /** Namespace `ns` leads to the session that holds `p`. */
  predicate Holds(s: State, ns: Namespace, p: nat) {
    ns in s.names && s.names[ns] in s.sessions && s.sessions[s.names[ns]].port == Some(p)
  }

  /** Some namespace's session holds `p`. */
  ghost predicate HeldByName(s: State, p: nat) {
    exists ns :: Holds(s, ns, p)
  }

  lemma UsedIsNamed(s: State, p: nat)
    requires Inv(s)
    ensures p in s.used <==> HeldByName(s, p)
    ensures p in s.used ==> BASE_PORT <= p <= MAX_PORT
  {
    if p in s.used {
      assert Held(s, p);
      var id :| id in s.sessions && s.sessions[id].port == Some(p);
      assert SessionOk(s, id);
      var ns :| ns in s.names && s.names[ns] == id;
      assert Holds(s, ns, p);
    }
    if ns :| Holds(s, ns, p) {
      assert SessionOk(s, s.names[ns]);
    }
  }

  /** The used ports are the disjoint union of the ports of the named sessions, in range. */
  lemma UsedIsDisjointUnion(run: seq<State>, p: nat)
    requires Run(run)
    ensures p in Last(run).used <==> HeldByName(Last(run), p)
    ensures p in Last(run).used ==> BASE_PORT <= p <= MAX_PORT
    ensures forall m, n :: Holds(Last(run), m, p) && Holds(Last(run), n, p) ==> m == n
  {
    RunInv(run);
    UsedIsNamed(Last(run), p);
  }

  /** A start fails for want of a port exactly when live namespaces hold all thousand. */
  lemma ExhaustedIffAllHeld(run: seq<State>)
    requires Run(run)
    ensures LowestFree(Last(run).used, BASE_PORT).None? <==>
            forall p :: BASE_PORT <= p <= MAX_PORT ==> HeldByName(Last(run), p)
  {
    forall p: nat ensures p in Last(run).used <==> HeldByName(Last(run), p) {
      UsedIsDisjointUnion(run, p);
    }
  }

  /** The session a step works for. */
  function Subject(s: State, step: Step): SessionId
    requires Enabled(s, step)
  {
    match step
    case Touch(ns, id) => if ns in s.names then s.names[ns] else id
    case Begin(ns, _) => s.names[ns]
    case ChildExits(g) => s.children[g].session
    case _ => s.calls[step.ns].session
  }

  lemma OnlySubjectChanges(s: State, step: Step, other: SessionId)
    requires Enabled(s, step) && other in s.sessions && other != Subject(s, step)
    ensures other in Do(s, step).sessions && Do(s, step).sessions[other] == s.sessions[other]
  {
  }

  /** No step, a late exit event least of all, releases a port another session holds. */
  lemma OthersKeepTheirPorts(run: seq<State>, step: Step, other: SessionId)
    requires Run(run) && Enabled(Last(run), step)
    requires other in Last(run).sessions && other != Subject(Last(run), step)
    ensures var s, s' := Last(run), Do(Last(run), step);
      && other in s'.sessions && s'.sessions[other] == s.sessions[other]
      && (s.sessions[other].port.Some? ==> s.sessions[other].port.value in s'.used)
  {
    RunInv(run);
    StepInv(Last(run), step);
    OnlySubjectChanges(Last(run), step, other);
    assert SessionOk(Do(Last(run), step), other);
  }

  /** An exit event releases its own generation's port or nothing: a session that has since
      been given another child keeps everything. */
  lemma LateExitReleasesNothing(run: seq<State>, g: Generation)
    requires Run(run) && Enabled(Last(run), ChildExits(g))
    ensures var s, s' := Last(run), Do(Last(run), ChildExits(g));
      var own := s.sessions[s.children[g].session];
      && (own.proc != Some(g) ==> s'.used == s.used && s'.sessions == s.sessions)
      && (own.proc == Some(g) ==>
            && s'.used == s.used - (if s.children[g].port.Some? then {s.children[g].port.value} else {})
            && s'.sessions[s.children[g].session].port.None?)
  {
    RunInv(run);
    assert SessionOk(Last(run), Last(run).children[g].session);
  }

  /** The session the reaper drops has no child, no port, and nothing of it left in the pool. */
  lemma ReapedLeavesNothing(run: seq<State>, ns: Namespace)
    requires Run(run) && Enabled(Last(run), DropSession(ns))
    ensures var s, s' := Last(run), Do(Last(run), DropSession(ns));
      && ns in s.names && ns !in s'.names && s.names[ns] in s'.sessions
      && s'.sessions[s.names[ns]].port.None? && s'.sessions[s.names[ns]].proc.None?
      && forall p :: p in s'.used ==> HeldByName(s', p)
  {
    RunInv(run);
    var s := Last(run);
    assert CallOk(s, ns);
    StepInv(s, DropSession(ns));
    forall p | p in s.used ensures HeldByName(Do(s, DropSession(ns)), p) {
      UsedIsNamed(Do(s, DropSession(ns)), p);
    }
  }

  /** Running children listen on their own session's port, so no two share one. */
  lemma RunningChildrenApart(run: seq<State>, i: SessionId, j: SessionId)
    requires Run(run)
    requires var s := Last(run);
      && i in s.sessions && j in s.sessions && i != j && s.sessions[i].proc.Some? && s.sessions[j].proc.Some?
    ensures var s := Last(run);
      var a, b := s.sessions[i].proc.value, s.sessions[j].proc.value;
      && a in s.children && b in s.children && a != b
      && s.children[a].port == s.sessions[i].port && s.children[b].port == s.sessions[j].port
      && (s.children[a].port.Some? ==> s.children[a].port != s.children[b].port)
  {
    RunInv(run);
    assert SessionOk(Last(run), i) && SessionOk(Last(run), j);
  }

  // ---- A start that gets through runs its child ----------------------------------------

  /** `p` is the lowest port of the pool that is not in use. */
  predicate IsLowestFree(used: set<nat>, p: nat) {
    BASE_PORT <= p <= MAX_PORT && p !in used && forall q :: BASE_PORT <= q < p ==> q in used
  }

  /** What a launch comes to, in every run. An exposable start takes the lowest free port, and a
      child that spawns is given that very port; with no port free nothing is taken; any other
      start takes none. Either way the start is over. */
  lemma LaunchTakesLowestPort(run: seq<State>, ns: Namespace, g: Generation, spawns: bool) returns (port: Option<nat>)
    requires Run(run) && Enabled(Last(run), Launch(ns, g, spawns))
    ensures port.Some? ==> Last(run).calls[ns].kind.exposable && IsLowestFree(Last(run).used, port.value)
    ensures port.None? && Last(run).calls[ns].kind.exposable ==>
              forall p :: BASE_PORT <= p <= MAX_PORT ==> p in Last(run).used
    ensures Lands(Last(run), Do(Last(run), Launch(ns, g, spawns)), ns, g, spawns, port)
  {
    RunInv(run);
    assert CallOk(Last(run), ns);
    port := if Last(run).calls[ns].kind.exposable then LowestFree(Last(run).used, BASE_PORT) else None;
  }

  /** The session holds `port` and nothing else new is taken; a child `g` with that port runs if it
      spawned and there was a port for it, and the call is over. */
  predicate Lands(s: State, s': State, ns: Namespace, g: Generation, spawns: bool, port: Option<nat>)
    requires Enabled(s, Launch(ns, g, spawns))
  {
    var id, exposable := s.calls[ns].session, s.calls[ns].kind.exposable;
    && s'.calls == s.calls - {ns} && s'.names == s.names && id in s'.sessions
    && s'.sessions[id].port == port && s'.used == (if port.Some? then s.used + {port.value} else s.used)
    && (if spawns && (exposable ==> port.Some?) then
          s'.sessions[id].proc == Some(g) && s'.children == s.children[g := Child(id, port, false)]
        else
          s'.sessions[id].proc.None? && s'.children == s.children)
  }

  /** These steps can be taken one after another and lead to `end`. */
  predicate Leads(s: State, steps: seq<Step>, end: State)
    decreases |steps|
  {
    if steps == [] then s == end
    else Enabled(s, steps[0]) && Leads(Do(s, steps[0]), steps[1..], end)
  }

  lemma LeadsFirst(s: State, step: Step, rest: seq<Step>, end: State)
    requires Enabled(s, step) && Leads(Do(s, step), rest, end)
    ensures Leads(s, [step] + rest, end)
  {
    assert ([step] + rest)[1..] == rest;
  }

  /** The start's last two steps, from where the old child is gone and its config file is too. */
  lemma StartFromTail(s: State, ns: Namespace, g: Generation) returns (steps: seq<Step>, end: State)
    requires ns in s.calls && s.calls[ns].place == Removing && s.calls[ns].kind.Start? && g !in s.children
    requires s.calls[ns].session in s.sessions && s.sessions[s.calls[ns].session].port.None?
    requires s.calls[ns].kind.exposable ==> exists p: nat :: BASE_PORT <= p <= MAX_PORT && p !in s.used
    ensures Leads(s, steps, end) && forall i :: 0 <= i < |steps| ==> !steps[i].ChildExits? && steps[i].ns == ns
    ensures ns !in end.calls && end.names == s.names
    ensures Serving(end, s.calls[ns].session, g, s.calls[ns].kind.exposable)
  {
    var ready := Do(s, ConfigRemoved(ns));
    end := Do(ready, Launch(ns, g, true));
    assert Leads(end, [], end);
    LeadsFirst(ready, Launch(ns, g, true), [], end);
    LeadsFirst(s, ConfigRemoved(ns), [Launch(ns, g, true)], end);
    steps := [ConfigRemoved(ns), Launch(ns, g, true)];
    assert steps == [ConfigRemoved(ns)] + [Launch(ns, g, true)] && [Launch(ns, g, true)] == [Launch(ns, g, true)] + [];
  }

  /** The session runs child `g`, on a port of its own exactly if it is exposable. */
  predicate Serving(s: State, id: SessionId, g: Generation, exposable: bool) {
    && id in s.sessions && s.sessions[id].proc == Some(g) && g in s.children
    && s.sessions[id].exposable == exposable && (s.sessions[id].port.Some? <==> exposable) && s.sessions[id].config
    && s.children[g] == Child(id, s.sessions[id].port, false)
  }

  /** A start can always go through: in every run, from any point where its namespace is not busy,
      the steps of that namespace, with the exit of its own old child if there is one, lead to
      the new child running, on a port if it is exposable and the other namespaces left one. */
  lemma StartGoesThrough(run: seq<State>, ns: Namespace, exposable: bool, g: Generation)
    returns (steps: seq<Step>, end: State)
    requires Run(run) && ns in Last(run).names && ns !in Last(run).calls && g !in Last(run).children
    requires exposable ==> exists p :: BASE_PORT <= p <= MAX_PORT && !HeldByAnother(Last(run), ns, p)
    ensures Leads(Last(run), steps, end)
    ensures forall i :: 0 <= i < |steps| ==>
              if steps[i].ChildExits? then IsChildOf(Last(run), ns, steps[i].generation) else steps[i].ns == ns
    ensures ns !in end.calls && end.names == Last(run).names
    ensures Serving(end, Last(run).names[ns], g, exposable)
  {
    RunInv(run);
    var s, id := Last(run), Last(run).names[ns];
    assert SessionOk(s, id);
    if exposable {
      var p :| BASE_PORT <= p <= MAX_PORT && !HeldByAnother(s, ns, p);
      FreeOrOwn(s, ns, p);
      assert Spare(s, id, p);
    }
    steps, end := StartFromBegin(s, ns, exposable, g);
  }

  lemma StartFromBegin(s: State, ns: Namespace, exposable: bool, g: Generation) returns (steps: seq<Step>, end: State)
    requires ns in s.names && ns !in s.calls && g !in s.children
    requires s.names[ns] in s.sessions && SessionOk(s, s.names[ns])
    requires exposable ==> exists p :: Spare(s, s.names[ns], p)
    ensures Leads(s, steps, end)
    ensures forall i :: 0 <= i < |steps| ==>
              if steps[i].ChildExits? then IsChildOf(s, ns, steps[i].generation) else steps[i].ns == ns
    ensures ns !in end.calls && end.names == s.names
    ensures Serving(end, s.names[ns], g, exposable)
  {
    var begun := Do(s, Begin(ns, Start(exposable)));
    if exposable {
      var p :| Spare(s, s.names[ns], p);
      assert if s.sessions[s.names[ns]].proc.Some? then Spare(begun, s.names[ns], p) else p !in begun.used;
    }
    if s.sessions[s.names[ns]].proc.Some? {
      steps, end := StartFromExit(begun, ns, g);
    } else {
      steps, end := StartFromTail(begun, ns, g);
    }
    LeadsFirst(s, Begin(ns, Start(exposable)), steps, end);
    steps := [Begin(ns, Start(exposable))] + steps;
  }

  /** A port of the pool that is free, or will be once the session gives its own back. */
  predicate Spare(s: State, id: SessionId, p: nat)
    requires id in s.sessions
  {
    BASE_PORT <= p <= MAX_PORT && (p !in s.used || s.sessions[id].port == Some(p))
  }

  /** The start's steps while the old child still runs: it exits, and the stop goes on. */
  lemma StartFromExit(s: State, ns: Namespace, g: Generation) returns (steps: seq<Step>, end: State)
    requires ns in s.calls && s.calls[ns].kind.Start? && s.calls[ns].place.Exiting? && g !in s.children
    requires s.calls[ns].session in s.sessions && SessionOk(s, s.calls[ns].session)
    requires s.sessions[s.calls[ns].session].proc == Some(s.calls[ns].place.generation)
    requires s.calls[ns].kind.exposable ==> exists p :: Spare(s, s.calls[ns].session, p)
    ensures Leads(s, steps, end)
    ensures forall i :: 0 <= i < |steps| ==>
              if steps[i].ChildExits? then steps[i].generation == s.calls[ns].place.generation else steps[i].ns == ns
    ensures ns !in end.calls && end.names == s.names
    ensures Serving(end, s.calls[ns].session, g, s.calls[ns].kind.exposable)
  {
    var last := s.calls[ns].place.generation;
    var exited := Do(s, ChildExits(last));
    var stopped := Do(exited, ResumeStop(ns));
    if s.calls[ns].kind.exposable {
      var p :| Spare(s, s.calls[ns].session, p);
      assert p !in stopped.used;
    }
    steps, end := StartFromTail(stopped, ns, g);
    LeadsFirst(exited, ResumeStop(ns), steps, end);
    steps := [ResumeStop(ns)] + steps;
    LeadsFirst(s, ChildExits(last), steps, end);
    steps := [ChildExits(last)] + steps;
  }

  lemma FreeOrOwn(s: State, ns: Namespace, p: nat)
    requires Inv(s) && ns in s.names && !HeldByAnother(s, ns, p)
    ensures p in s.used ==> s.sessions[s.names[ns]].port == Some(p)
  {
    UsedIsNamed(s, p);
  }

  predicate IsChildOf(s: State, ns: Namespace, g: Generation) {
    ns in s.names && s.names[ns] in s.sessions && s.sessions[s.names[ns]].proc == Some(g)
  }

  /** Another namespace's session holds `p`. */
  ghost predicate HeldByAnother(s: State, ns: Namespace, p: nat) {
    exists other :: other != ns && Holds(s, other, p)
  }

  /** A stop that goes on to remove the config file has given everything back: no child, no port,
      and the port it had is in the pool again. */
  lemma StopGivesBack(run: seq<State>, ns: Namespace)
    requires Run(run) && Enabled(Last(run), ConfigRemoved(ns))
    ensures var s, s' := Last(run), Do(Last(run), ConfigRemoved(ns));
      && ns in s'.names && s'.names[ns] in s'.sessions
      && s'.sessions[s'.names[ns]].proc.None? && s'.sessions[s'.names[ns]].port.None?
      && !s'.sessions[s'.names[ns]].config && (s.calls[ns].kind.Stop? <==> ns !in s'.calls)
      && forall p :: p in s'.used ==> HeldByAnother(s', ns, p)
  {
    RunInv(run);
    var s, s' := Last(run), Do(Last(run), ConfigRemoved(ns));
    assert CallOk(s, ns);
    StepInv(s, ConfigRemoved(ns));
    forall p | p in s'.used ensures HeldByAnother(s', ns, p) {
      UsedIsNamed(s', p);
      var other :| Holds(s', other, p);
      assert other != ns;
    }
  }
}
