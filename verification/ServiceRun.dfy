/** One generation of the runtime service: start the configured connectors, build the flows
    (starting default connectors on demand), start the flows, and tear everything down again
    on every path. Each Start and Stop call is recorded in a trace, and a monitor that knows
    nothing of the service judges the trace. */
module ServiceRun {
  import opened Common

  /** An instance, type or flow name; the empty one stands for none. */
  datatype Name = Name(text: string)

  const UNNAMED := Name("")

  datatype ConnectorConfig = ConnectorConfig(name: Name, kind: Name)
  datatype SourceConfig = SourceConfig(connector: Name, kind: Name)
  datatype FlowConfig = FlowConfig(name: Name, source: Option<SourceConfig>)

  /** A configuration, the registered connector types, and which outside calls fail. */
  datatype Setup = Setup(
    connectors: seq<ConnectorConfig>,
    flows: seq<FlowConfig>,
    registry: set<Name>,
    invokeMode: bool,
    connectorStartFails: nat -> bool,   // by start order
    flowBuildFails: nat -> bool,        // source or block construction, by flow index
    flowStartFails: nat -> bool,        // a real source's Start, by flow index
    flowStopFails: nat -> bool,
    connectorStopFails: nat -> bool)

  datatype Connector = Connector(id: nat, name: Name, kind: Name, isDefault: bool)
  datatype Flow = Flow(index: nat, name: Name, implicit: bool, backing: Option<Connector>)

  predicate Implicit(setup: Setup, i: nat)
    requires i < |setup.flows|
  {
    setup.flows[i].source.None? || setup.invokeMode
  }

  // ---- The monitor -------------------------------------------------------------------

  datatype Event =
    | Up(connector: Connector)
    | Down(connector: Connector)
    | FlowUp(flow: Flow)
    | Ready
    | FlowDown(flow: Flow)

  /** What a trace adds up to: the connectors and flows that are up, in start order; the names
      callable through the registry; the types a default connector was started for; whether
      readiness was announced; and all starts and stops so far, in order. */
  datatype Live = Live(connectors: seq<Connector>, flows: seq<Flow>, callable: set<Name>,
                       defaults: set<Name>, ready: bool,
                       ups: seq<Connector>, downs: seq<Connector>, flowUps: seq<Flow>, flowDowns: seq<Flow>)

  const NOTHING := Live([], [], {}, {}, false, [], [], [], [])

  ghost predicate HasIndex(flows: seq<Flow>, i: nat) {
    exists k :: 0 <= k < |flows| && flows[k].index == i
  }

  ghost predicate ImplicitUp(setup: Setup, flows: seq<Flow>) {
    forall i :: 0 <= i < |setup.flows| && Implicit(setup, i) ==> HasIndex(flows, i)
  }

  ghost predicate AllUp(setup: Setup, flows: seq<Flow>) {
    forall i :: 0 <= i < |setup.flows| ==> HasIndex(flows, i)
  }

  /** What may happen next. A connector starts once, before any flow runs, and a default one
      once per type. A source-backed flow starts only on a connector that is up and with every
      implicit flow running. Readiness needs all flows. Stops undo starts in reverse, flows
      first. */
  ghost predicate Allowed(setup: Setup, m: Live, e: Event) {
    match e
    case Up(c) => m.flows == [] && c.id == |m.ups| && (c.isDefault ==> c.kind !in m.defaults)
    case Down(c) => m.flows == [] && |m.connectors| > 0 && m.connectors[|m.connectors| - 1] == c
    case FlowUp(f) =>
      && f.index < |setup.flows| && f.implicit == Implicit(setup, f.index) && !HasIndex(m.flows, f.index)
      && (f.implicit ==> f.name != UNNAMED && f.name !in m.callable)
      && (!f.implicit ==> f.backing.Some? && f.backing.value in m.connectors && ImplicitUp(setup, m.flows))
    case Ready => !m.ready && AllUp(setup, m.flows)
    case FlowDown(f) =>
      && |m.flows| > 0 && m.flows[|m.flows| - 1] == f
      && (f.implicit ==> forall g :: g in m.flows ==> g.implicit)
  }

  function After(m: Live, e: Event): Live {
    match e
    case Up(c) =>
      m.(connectors := m.connectors + [c], ups := m.ups + [c],
         defaults := if c.isDefault then m.defaults + {c.kind} else m.defaults)
    case Down(c) =>
      m.(connectors := if m.connectors == [] then [] else m.connectors[..|m.connectors| - 1], downs := m.downs + [c])
    case FlowUp(f) =>
      m.(flows := m.flows + [f], flowUps := m.flowUps + [f],
         callable := if f.implicit then m.callable + {f.name} else m.callable)
    case Ready => m.(ready := true)
    case FlowDown(f) =>
      m.(flows := if m.flows == [] then [] else m.flows[..|m.flows| - 1], flowDowns := m.flowDowns + [f],
         callable := if f.implicit then m.callable - {f.name} else m.callable)
  }

  /** Events in the order they happened, the latest outermost. */
  datatype Trace = Nothing | Then(before: Trace, event: Event)

  function Replay(trace: Trace): Live {
    match trace
    case Nothing => NOTHING
    case Then(before, event) => After(Replay(before), event)
  }

  /** Every event of the trace was allowed when it happened. */
  ghost predicate Lawful(setup: Setup, trace: Trace) {
    match trace
    case Nothing => true
    case Then(before, event) => Lawful(setup, before) && Allowed(setup, Replay(before), event)
  }

  /** The elements from index `i` on, last one first. */
  function Backwards<T>(s: seq<T>, i: nat): seq<T>
    decreases |s| - i
  {
    if i >= |s| then [] else Backwards(s, i + 1) + [s[i]]
  }

  function Reversed<T>(s: seq<T>): seq<T> {
    Backwards(s, 0)
  }

  /** The last one comes first, and so on down. */
  lemma {:induction false} BackwardsAt<T>(s: seq<T>, i: nat, k: nat)
    requires i <= |s| && k < |s| - i
    ensures |Backwards(s, i)| == |s| - i && Backwards(s, i)[k] == s[|s| - 1 - k]
    decreases |s| - i
  {
    if i + 1 < |s| {
      BackwardsAt(s, i + 1, if k < |s| - i - 1 then k else 0);
    } else {
      assert Backwards(s, i + 1) == [];
    }
  }

  predicate DefaultsDiffer(a: Connector, b: Connector) {
    a.isDefault && b.isDefault ==> a.kind != b.kind
  }

  /** No connector was started twice, and no type got two default ones. */
  ghost predicate Once(m: Live) {
    && (forall i :: 0 <= i < |m.ups| ==> m.ups[i].id == i)
    && (forall i :: 0 <= i < |m.ups| && m.ups[i].isDefault ==> m.ups[i].kind in m.defaults)
    && (forall i, j :: 0 <= i < j < |m.ups| ==> DefaultsDiffer(m.ups[i], m.ups[j]))
  }

  lemma OnceStep(setup: Setup, m: Live, e: Event)
    requires Once(m) && Allowed(setup, m, e)
    ensures Once(After(m, e))
  {
  }

  /** In a lawful trace no connector is started twice, and no type gets two default ones. */
  lemma {:induction false} StartedOnce(setup: Setup, trace: Trace)
    requires Lawful(setup, trace)
    ensures Once(Replay(trace))
  {
    if trace.Then? {
      StartedOnce(setup, trace.before);
      OnceStep(setup, Replay(trace.before), trace.event);
    }
  }

  ghost predicate SomeSourced(flows: seq<Flow>) {
    exists k :: 0 <= k < |flows| && !flows[k].implicit
  }

  ghost predicate KindsRight(setup: Setup, flows: seq<Flow>) {
    forall k :: 0 <= k < |flows| ==> flows[k].index < |setup.flows| && flows[k].implicit == Implicit(setup, flows[k].index)
  }

  /** At every point of a lawful trace where a source-backed flow runs, all implicit flows do. */
  lemma {:induction false} ImplicitWhileSourced(setup: Setup, trace: Trace)
    requires Lawful(setup, trace)
    ensures KindsRight(setup, Replay(trace).flows)
    ensures SomeSourced(Replay(trace).flows) ==> ImplicitUp(setup, Replay(trace).flows)
  {
    if trace.Then? {
      var front, e := trace.before, trace.event;
      ImplicitWhileSourced(setup, front);
      if e.FlowUp? {
        FlowAdded(setup, Replay(front).flows, e.flow);
      } else if e.FlowDown? {
        FlowRemoved(setup, Replay(front).flows);
      }
    }
  }

  lemma FlowAdded(setup: Setup, flows: seq<Flow>, f: Flow)
    ensures ImplicitUp(setup, flows) ==> ImplicitUp(setup, flows + [f])
    ensures f.implicit && SomeSourced(flows + [f]) ==> SomeSourced(flows)
  {
    if ImplicitUp(setup, flows) {
      forall i | 0 <= i < |setup.flows| && Implicit(setup, i) ensures HasIndex(flows + [f], i) {
        var k :| 0 <= k < |flows| && flows[k].index == i;
        assert (flows + [f])[k].index == i;
      }
    }
    if f.implicit && SomeSourced(flows + [f]) {
      var k :| 0 <= k < |flows + [f]| && !(flows + [f])[k].implicit;
      assert !flows[k].implicit;
    }
  }

  lemma FlowRemoved(setup: Setup, flows: seq<Flow>)
    requires |flows| > 0 && KindsRight(setup, flows)
    requires SomeSourced(flows) ==> ImplicitUp(setup, flows)
    requires flows[|flows| - 1].implicit ==> forall g :: g in flows ==> g.implicit
    ensures SomeSourced(flows[..|flows| - 1]) ==> ImplicitUp(setup, flows[..|flows| - 1])
  {
    var front := flows[..|flows| - 1];
    if SomeSourced(front) {
      var j :| 0 <= j < |front| && !front[j].implicit;
      assert flows[j] in flows && !flows[j].implicit;
      forall i | 0 <= i < |setup.flows| && Implicit(setup, i) ensures HasIndex(front, i) {
        assert HasIndex(flows, i);
        var k :| 0 <= k < |flows| && flows[k].index == i;
        assert front[k].index == i;
      }
    }
  }

  lemma CallableSnoc(flows: seq<Flow>, f: Flow)
    ensures Callable(flows + [f]) == Callable(flows) + if f.implicit then {f.name} else {}
    ensures DistinctNames(flows + [f]) <==> DistinctNames(flows) && (f.implicit ==> f.name !in Callable(flows))
  {
    var longer := flows + [f];
    assert forall g :: g in longer <==> g in flows || g == f;
    if DistinctNames(longer) {
      forall i, j | 0 <= i < j < |flows| && flows[i].implicit && flows[j].implicit ensures flows[i].name != flows[j].name {
        assert longer[i] == flows[i] && longer[j] == flows[j];
      }
      forall g | g in flows && g.implicit && f.implicit ensures g.name != f.name {
        var i :| 0 <= i < |flows| && flows[i] == g;
        assert longer[i] == g && longer[|flows|] == f;
      }
    }
  }

  lemma CallableStep(m: Live, e: Event)
    requires m.callable == Callable(m.flows) && DistinctNames(m.flows)
    requires e.FlowUp? && e.flow.implicit ==> e.flow.name !in m.callable
    requires e.FlowDown? ==> |m.flows| > 0 && m.flows[|m.flows| - 1] == e.flow
    ensures After(m, e).callable == Callable(After(m, e).flows) && DistinctNames(After(m, e).flows)
  {
    match e
    case FlowUp(f) => CallableSnoc(m.flows, f);
    case FlowDown(f) =>
      assert m.flows == m.flows[..|m.flows| - 1] + [f];
      CallableSnoc(m.flows[..|m.flows| - 1], f);
    case _ =>
  }

  /** The names callable in a lawful trace are exactly those of the running implicit flows. */
  lemma {:induction false} CallableExact(setup: Setup, trace: Trace)
    requires Lawful(setup, trace)
    ensures Replay(trace).callable == Callable(Replay(trace).flows)
    ensures DistinctNames(Replay(trace).flows)
  {
    if trace.Then? {
      CallableExact(setup, trace.before);
      CallableStep(Replay(trace.before), trace.event);
    }
  }

  // ---- Which connector a source is bound to -------------------------------------------

  function DesiredKind(registry: set<Name>, source: SourceConfig): Name {
    if source.connector != UNNAMED && source.connector in registry then source.connector
    else if source.kind != UNNAMED && source.kind in registry then source.kind
    else UNNAMED
  }

  /** The names of the connectors of that type among the first `n`, in order. */
  function NamesUpTo(configs: seq<ConnectorConfig>, n: nat, kind: Name): seq<Name>
    requires n <= |configs|
  {
    if n == 0 then []
    else NamesUpTo(configs, n - 1, kind) + (if configs[n - 1].kind == kind then [configs[n - 1].name] else [])
  }

  function NamesOfKind(configs: seq<ConnectorConfig>, kind: Name): seq<Name> {
    NamesUpTo(configs, |configs|, kind)
  }

  /** The type of the last connector of that name among the first `n`. */
  function KindUpTo(configs: seq<ConnectorConfig>, n: nat, name: Name): Option<Name>
    requires n <= |configs|
  {
    if n == 0 then None
    else if configs[n - 1].name == name then Some(configs[n - 1].kind)
    else KindUpTo(configs, n - 1, name)
  }

  /** The type of the last configured connector of that name. */
  function KindNamed(configs: seq<ConnectorConfig>, name: Name): Option<Name> {
    KindUpTo(configs, |configs|, name)
  }

  /** The instance name a source is bound to, read off the configuration alone; None when the
      binding is unknown or ambiguous. */
  function BoundName(setup: Setup, source: SourceConfig): Option<Name> {
    if source.connector != UNNAMED && KindNamed(setup.connectors, source.connector).Some? then Some(source.connector)
    else
      var kind := DesiredKind(setup.registry, source);
      var names := NamesOfKind(setup.connectors, kind);
      if kind == UNNAMED || |names| > 1 then None
      else if |names| == 1 then Some(names[0])
      else Some(kind)
  }

  lemma {:induction false} NamesUpToAreConfigured(configs: seq<ConnectorConfig>, n: nat, kind: Name, i: nat)
    requires n <= |configs| && i < |NamesUpTo(configs, n, kind)|
    ensures KindUpTo(configs, n, NamesUpTo(configs, n, kind)[i]).Some?
  {
    if i < |NamesUpTo(configs, n - 1, kind)| {
      NamesUpToAreConfigured(configs, n - 1, kind, i);
    }
  }

  /** One of the first `n` configured connectors has this name. */
  predicate HasName(configs: seq<ConnectorConfig>, n: nat, name: Name)
    requires n <= |configs|
  {
    exists i :: 0 <= i < n && configs[i].name == name
  }

  lemma {:induction false} KindUpToSome(configs: seq<ConnectorConfig>, n: nat, name: Name)
    requires n <= |configs|
    ensures KindUpTo(configs, n, name).Some? <==> HasName(configs, n, name)
  {
    if n > 0 {
      KindUpToSome(configs, n - 1, name);
    }
  }

  /** The positions of the connectors of that type among the first `n`. */
  function OfKind(configs: seq<ConnectorConfig>, n: nat, kind: Name): set<nat>
    requires n <= |configs|
  {
    set i: nat | i < n && configs[i].kind == kind
  }

  /** One name for each connector of the type, and no others. */
  lemma {:induction false} NamesUpToExact(configs: seq<ConnectorConfig>, n: nat, kind: Name)
    requires n <= |configs|
    ensures |NamesUpTo(configs, n, kind)| == |OfKind(configs, n, kind)|
    ensures forall i :: i in OfKind(configs, n, kind) ==> configs[i].name in NamesUpTo(configs, n, kind)
  {
    if n > 0 {
      NamesUpToExact(configs, n - 1, kind);
      var before, now := OfKind(configs, n - 1, kind), OfKind(configs, n, kind);
      assert now == if configs[n - 1].kind == kind then before + {n - 1} else before;
    }
  }

  /** The source wants a connector of this registered type: the one its connector setting names,
      or its own type when that setting names none. */
  predicate Wants(registry: set<Name>, source: SourceConfig, kind: Name) {
    && kind != UNNAMED && kind in registry
    && (kind == source.connector || (kind == source.kind && source.connector !in registry - {UNNAMED}))
  }

  /** The binding rules, told from the configuration: a configured instance of that name; else the
      only configured connector of the wanted type, none if there are several, and a default one
      under the type's own name if there is none; nothing without a wanted type. */
  lemma BoundByRules(setup: Setup, source: SourceConfig, kind: Name)
    ensures source.connector != UNNAMED && HasName(setup.connectors, |setup.connectors|, source.connector) ==>
              BoundName(setup, source) == Some(source.connector)
    ensures !(source.connector != UNNAMED && HasName(setup.connectors, |setup.connectors|, source.connector)) ==>
              && (Wants(setup.registry, source, kind) ==> BoundForKind(setup, source, kind))
              && ((forall k :: !Wants(setup.registry, source, k)) ==> BoundName(setup, source) == None)
  {
    KindUpToSome(setup.connectors, |setup.connectors|, source.connector);
    if !(source.connector != UNNAMED && HasName(setup.connectors, |setup.connectors|, source.connector)) {
      if Wants(setup.registry, source, kind) {
        assert DesiredKind(setup.registry, source) == kind;
        OneOfKind(setup, source, kind);
      }
      if forall k :: !Wants(setup.registry, source, k) {
        assert !Wants(setup.registry, source, DesiredKind(setup.registry, source));
      }
    }
  }

  ghost predicate BoundForKind(setup: Setup, source: SourceConfig, kind: Name) {
    var c, name := setup.connectors, BoundName(setup, source);
    && (forall i :: 0 <= i < |c| && c[i].kind == kind && (forall j :: 0 <= j < |c| && c[j].kind == kind ==> j == i) ==>
          name == Some(c[i].name))
    && (forall i, j :: 0 <= i < j < |c| && c[i].kind == kind && c[j].kind == kind ==> name == None)
    && ((forall i :: 0 <= i < |c| ==> c[i].kind != kind) ==> name == Some(kind))
  }

  lemma OneOfKind(setup: Setup, source: SourceConfig, kind: Name)
    requires DesiredKind(setup.registry, source) == kind != UNNAMED
    requires source.connector == UNNAMED || KindNamed(setup.connectors, source.connector).None?
    ensures BoundForKind(setup, source, kind)
  {
    var c := setup.connectors;
    forall i | 0 <= i < |c| && c[i].kind == kind && (forall j :: 0 <= j < |c| && c[j].kind == kind ==> j == i)
      ensures NamesOfKind(c, kind) == [c[i].name]
    {
      LoneOfKind(c, kind, i);
    }
    forall i, j | 0 <= i < j < |c| && c[i].kind == kind && c[j].kind == kind
      ensures |NamesOfKind(c, kind)| > 1
    {
      TwoOfKind(c, kind, i, j);
    }
    if forall i :: 0 <= i < |c| ==> c[i].kind != kind {
      NoneOfKind(c, kind);
    }
  }

  lemma LoneOfKind(c: seq<ConnectorConfig>, kind: Name, i: nat)
    requires i < |c| && c[i].kind == kind && forall j :: 0 <= j < |c| && c[j].kind == kind ==> j == i
    ensures NamesOfKind(c, kind) == [c[i].name]
  {
    NamesUpToExact(c, |c|, kind);
    assert OfKind(c, |c|, kind) == {i};
  }

  lemma TwoOfKind(c: seq<ConnectorConfig>, kind: Name, i: nat, j: nat)
    requires i < j < |c| && c[i].kind == kind && c[j].kind == kind
    ensures |NamesOfKind(c, kind)| > 1
  {
    NamesUpToExact(c, |c|, kind);
    var all := OfKind(c, |c|, kind);
    assert all == (all - {i} - {j}) + {i} + {j};
  }

  lemma NoneOfKind(c: seq<ConnectorConfig>, kind: Name)
    requires forall i :: 0 <= i < |c| ==> c[i].kind != kind
    ensures NamesOfKind(c, kind) == []
  {
    NamesUpToExact(c, |c|, kind);
    assert OfKind(c, |c|, kind) == {};
  }

  // ---- Connectors that startConnectors starts ----------------------------------------

  /** In invoke mode a connector some flow names as its source's is skipped. */
  predicate Skipped(setup: Setup, config: ConnectorConfig) {
    setup.invokeMode && exists i :: 0 <= i < |setup.flows| && NamesSource(setup.flows[i], config.name)
  }

  predicate NamesSource(flow: FlowConfig, name: Name) {
    flow.source.Some? && flow.source.value.connector != UNNAMED && flow.source.value.connector == name
  }

  /** The connectors wanted of the first `n` configured ones, in order. */
  ghost function Wanted(setup: Setup, n: nat): seq<Connector>
    requires n <= |setup.connectors|
  {
    if n == 0 then []
    else
      var before := Wanted(setup, n - 1);
      var config := setup.connectors[n - 1];
      if Skipped(setup, config) then before
      else before + [Connector(|before|, config.name, config.kind, false)]
  }

  /** Some flow names this connector as its source's. */
  ghost predicate BacksSomeFlow(setup: Setup, name: Name) {
    exists i :: 0 <= i < |setup.flows| && setup.flows[i].source.Some?
                && setup.flows[i].source.value.connector == name != UNNAMED
  }

  ghost predicate HasConnector(connectors: seq<Connector>, config: ConnectorConfig) {
    exists k :: 0 <= k < |connectors| && connectors[k].name == config.name && connectors[k].kind == config.kind
  }

  /** What is wanted, told from the configuration: all of it, one for one, outside invoke mode; in
      invoke mode every connector that no flow names as its source's, and no other. */
  lemma {:induction false} WantedExact(setup: Setup, n: nat)
    requires n <= |setup.connectors|
    ensures !setup.invokeMode ==>
              && |Wanted(setup, n)| == n
              && forall i :: 0 <= i < n ==>
                   Wanted(setup, n)[i] == Connector(i, setup.connectors[i].name, setup.connectors[i].kind, false)
    ensures setup.invokeMode ==>
              && (forall k :: 0 <= k < |Wanted(setup, n)| ==> !BacksSomeFlow(setup, Wanted(setup, n)[k].name))
              && (forall i :: 0 <= i < n && !BacksSomeFlow(setup, setup.connectors[i].name) ==>
                    HasConnector(Wanted(setup, n), setup.connectors[i]))
  {
    if n > 0 {
      WantedExact(setup, n - 1);
      var before, now := Wanted(setup, n - 1), Wanted(setup, n);
      SkippedExact(setup, setup.connectors[n - 1]);
      forall i | 0 <= i < n && setup.invokeMode && !BacksSomeFlow(setup, setup.connectors[i].name)
        ensures HasConnector(now, setup.connectors[i])
      {
        if i < n - 1 {
          var k :| 0 <= k < |before| && before[k].name == setup.connectors[i].name && before[k].kind == setup.connectors[i].kind;
          assert now[k] == before[k];
        } else {
          assert now[|before|].name == setup.connectors[i].name;
        }
      }
    }
  }

  lemma SkippedExact(setup: Setup, config: ConnectorConfig)
    ensures Skipped(setup, config) <==> setup.invokeMode && BacksSomeFlow(setup, config.name)
  {
    if setup.invokeMode && BacksSomeFlow(setup, config.name) {
      var i :| 0 <= i < |setup.flows| && setup.flows[i].source.Some?
               && setup.flows[i].source.value.connector == config.name != UNNAMED;
      assert NamesSource(setup.flows[i], config.name);
    }
  }

  /** None of the first `n` wanted connectors has an unknown type or fails to start. */
  ghost predicate Startable(setup: Setup, n: nat)
    requires n <= |setup.connectors|
  {
    forall i :: 0 <= i < n ==> ConnectorStarts(setup, i)
  }

  ghost predicate ConnectorStarts(setup: Setup, i: nat)
    requires i < |setup.connectors|
  {
    || Skipped(setup, setup.connectors[i])
    || (setup.connectors[i].kind in setup.registry && !setup.connectorStartFails(|Wanted(setup, i)|))
  }

  // ---- Flows that can be built and started -------------------------------------------

  /** The name of the default connector that flow `i` needs, if it needs one. */
  function NeedsDefault(setup: Setup, i: nat): Option<Name>
    requires i < |setup.flows|
  {
    if Implicit(setup, i) then None
    else
      var name := BoundName(setup, setup.flows[i].source.value);
      if name.Some? && KindNamed(setup.connectors, name.value).None? then name else None
  }

  /** The default connectors the first `n` flows need. */
  function Defaults(setup: Setup, n: nat): set<Name>
    requires n <= |setup.flows|
  {
    if n == 0 then {}
    else
      var name := NeedsDefault(setup, n - 1);
      Defaults(setup, n - 1) + if name.Some? then {name.value} else {}
  }

  /** Flow `i` can be built once those before it are: an implicit one needs a name, any other a
      binding and, if it is the first to need its default connector, that this one starts. */
  ghost predicate FlowBuilds(setup: Setup, i: nat)
    requires i < |setup.flows|
  {
    !setup.flowBuildFails(i) && if Implicit(setup, i) then setup.flows[i].name != UNNAMED else SourceBuilds(setup, i)
  }

  ghost predicate SourceBuilds(setup: Setup, i: nat)
    requires i < |setup.flows| && !Implicit(setup, i)
  {
    var name := NeedsDefault(setup, i);
    && BoundName(setup, setup.flows[i].source.value).Some?
    && (name.Some? && name.value !in Defaults(setup, i) ==>
          !setup.connectorStartFails(|Wanted(setup, |setup.connectors|)| + |Defaults(setup, i)|))
  }

  ghost predicate Buildable(setup: Setup, n: nat)
    requires n <= |setup.flows|
  {
    forall i :: 0 <= i < n ==> FlowBuilds(setup, i)
  }

  lemma BuildableNext(setup: Setup, i: nat)
    requires i < |setup.flows| && Buildable(setup, i)
    ensures Buildable(setup, i + 1) <==> FlowBuilds(setup, i)
    ensures !FlowBuilds(setup, i) ==> !Buildable(setup, |setup.flows|)
  {
  }

  lemma PrefixTrans<T>(a: seq<T>, b: seq<T>, c: seq<T>)
    requires a <= b <= c
    ensures a <= c
  {
  }

  /** Implicit flows have different names and no real source fails to start. */
  ghost predicate FlowsStartable(setup: Setup) {
    && (forall i, j :: 0 <= i < j < |setup.flows| && Implicit(setup, i) && Implicit(setup, j) ==>
          setup.flows[i].name != setup.flows[j].name)
    && (forall i :: 0 <= i < |setup.flows| && !Implicit(setup, i) ==> !setup.flowStartFails(i))
  }

  predicate NoneFails(setup: Setup, flows: seq<Flow>) {
    forall k :: 0 <= k < |flows| && !flows[k].implicit ==> !setup.flowStartFails(flows[k].index)
  }

  // ---- Start order -------------------------------------------------------------------

  predicate StartsBefore(a: Flow, b: Flow) {
    if a.implicit == b.implicit then a.index < b.index else a.implicit
  }

  ghost predicate InStartOrder(flows: seq<Flow>) {
    forall i, j :: 0 <= i < j < |flows| ==> StartsBefore(flows[i], flows[j])
  }

  ghost predicate InConfigOrder(flows: seq<Flow>) {
    forall i :: 0 <= i < |flows| ==> flows[i].index == i
  }

  /** The flows of one group among the first `n`, in their original order. */
  function Group(flows: seq<Flow>, n: nat, implicit: bool): seq<Flow>
    requires n <= |flows|
  {
    if n == 0 then []
    else if flows[n - 1].implicit == implicit then Group(flows, n - 1, implicit) + [flows[n - 1]]
    else Group(flows, n - 1, implicit)
  }

  /** How often a flow occurs in a list. */
  function Count(flows: seq<Flow>, f: Flow): nat {
    multiset(flows)[f]
  }

  lemma CountSnoc(flows: seq<Flow>, last: Flow, f: Flow)
    ensures Count(flows + [last], f) == Count(flows, f) + if last == f then 1 else 0
  {
  }

  lemma {:induction false} CountInGroups(flows: seq<Flow>, n: nat, f: Flow)
    requires n <= |flows|
    ensures Count(Group(flows, n, true), f) + Count(Group(flows, n, false), f) == Count(flows[..n], f)
  {
    if n > 0 {
      var front, last := flows[..n - 1], flows[n - 1];
      CountInGroups(flows, n - 1, f);
      assert Count(flows[..n], f) == Count(front, f) + (if last == f then 1 else 0) by {
        assert flows[..n] == front + [last];
        CountSnoc(front, last, f);
      }
      CountSnoc(Group(flows, n - 1, last.implicit), last, f);
    }
  }

  lemma GroupsPartition(flows: seq<Flow>)
    ensures multiset(Group(flows, |flows|, true)) + multiset(Group(flows, |flows|, false)) == multiset(flows)
  {
    var ins, outs := multiset(Group(flows, |flows|, true)), multiset(Group(flows, |flows|, false));
    forall f: Flow ensures (ins + outs)[f] == multiset(flows)[f] {
      CountInGroups(flows, |flows|, f);
      assert flows[..|flows|] == flows;
    }
  }

  lemma {:induction false} GroupInOrder(flows: seq<Flow>, n: nat, implicit: bool)
    requires n <= |flows| && InConfigOrder(flows)
    ensures forall f :: f in Group(flows, n, implicit) ==> f.implicit == implicit && f.index < n
    ensures InStartOrder(Group(flows, n, implicit))
  {
    if n > 0 {
      GroupInOrder(flows, n - 1, implicit);
    }
  }

  lemma GroupsInStartOrder(flows: seq<Flow>)
    requires InConfigOrder(flows)
    ensures InStartOrder(Group(flows, |flows|, true) + Group(flows, |flows|, false))
    ensures multiset(Group(flows, |flows|, true) + Group(flows, |flows|, false)) == multiset(flows)
  {
    GroupsPartition(flows);
    GroupInOrder(flows, |flows|, true);
    GroupInOrder(flows, |flows|, false);
  }

  /** Implicit flows first, each group in its original order: a permutation of the input in
      which nothing about the order is left free. */
  method OrderForStart(flows: seq<Flow>) returns (ordered: seq<Flow>)
    requires InConfigOrder(flows)
    ensures InStartOrder(ordered)
    ensures multiset(ordered) == multiset(flows)
  {
    ordered := [];
    for i := 0 to |flows|
      invariant ordered == Group(flows, i, true)
    {
      if flows[i].implicit { ordered := ordered + [flows[i]]; }
    }
    for i := 0 to |flows|
      invariant ordered == Group(flows, |flows|, true) + Group(flows, i, false)
    {
      if !flows[i].implicit { ordered := ordered + [flows[i]]; }
    }
    GroupsInStartOrder(flows);
  }

  // ---- The service -------------------------------------------------------------------

  /** Of the connectors started from the `lo`-th on, `failed` is the last started that fails to
      stop, which is the first one a teardown meets; None when they all stop. */
  ghost predicate ConnectorStopReport(failed: Option<nat>, lo: nat, n: nat, fails: nat -> bool) {
    match failed
    case None => forall j :: lo <= j < n ==> !fails(j)
    case Some(i) => lo <= i < n && fails(i) && forall j :: i < j < n ==> !fails(j)
  }

  /** The same for flows, by their place in the start order. */
  ghost predicate FlowStopReport(failed: Option<nat>, flows: seq<Flow>, lo: nat, fails: nat -> bool) {
    match failed
    case None => forall j :: lo <= j < |flows| ==> !fails(flows[j].index)
    case Some(x) =>
      exists k :: lo <= k < |flows| && flows[k].index == x && fails(x)
                  && forall j :: k < j < |flows| ==> !fails(flows[j].index)
  }

  lemma NextConnectorReport(failed: Option<nat>, i: nat, n: nat, fails: nat -> bool)
    requires i < n && ConnectorStopReport(failed, i + 1, n, fails)
    ensures ConnectorStopReport(if fails(i) && failed.None? then Some(i) else failed, i, n, fails)
  {
  }

  lemma NextFlowReport(failed: Option<nat>, flows: seq<Flow>, i: nat, fails: nat -> bool)
    requires i < |flows| && FlowStopReport(failed, flows, i + 1, fails)
    ensures FlowStopReport(if fails(flows[i].index) && failed.None? then Some(flows[i].index) else failed, flows, i, fails)
  {
  }

  /** The names the implicit flows among these are callable by. */
  function Callable(flows: seq<Flow>): set<Name> {
    set f | f in flows && f.implicit :: f.name
  }

  /** A flow cannot start: its name is taken, or its own source fails. */
  predicate Blocked(setup: Setup, f: Flow, started: seq<Flow>) {
    if f.implicit then f.name in Callable(started) else setup.flowStartFails(f.index)
  }

  ghost predicate DistinctNames(flows: seq<Flow>) {
    forall i, j :: 0 <= i < j < |flows| && flows[i].implicit && flows[j].implicit ==> flows[i].name != flows[j].name
  }

  /** Ordered flows up to a source-backed one include every implicit flow. */
  lemma ImplicitFirst(setup: Setup, flows: seq<Flow>, ordered: seq<Flow>, n: nat)
    requires InConfigOrder(flows) && |flows| == |setup.flows|
    requires forall i :: 0 <= i < |flows| ==> flows[i].implicit == Implicit(setup, i)
    requires InStartOrder(ordered) && multiset(ordered) == multiset(flows)
    requires n < |ordered| && !ordered[n].implicit
    ensures ImplicitUp(setup, ordered[..n])
  {
    forall i | 0 <= i < |setup.flows| && Implicit(setup, i) ensures HasIndex(ordered[..n], i) {
      assert flows[i] in multiset(ordered);
      var k :| 0 <= k < |ordered| && ordered[k] == flows[i];
      assert ordered[..n][k].index == i;
    }
  }

  lemma AllStarted(setup: Setup, flows: seq<Flow>, ordered: seq<Flow>)
    requires InConfigOrder(flows) && |flows| == |setup.flows| && multiset(ordered) == multiset(flows)
    ensures AllUp(setup, ordered)
  {
    forall i | 0 <= i < |setup.flows| ensures HasIndex(ordered, i) {
      assert flows[i] in multiset(ordered);
      var k :| 0 <= k < |ordered| && ordered[k] == flows[i];
      assert ordered[k].index == i;
    }
  }

  /** Why Run returned: nothing came up for good, or it ran until told to stop and reports the
      first stop error, flows before connectors. */
  datatype Outcome = ConnectorFailed | BuildFailed | FlowFailed | Finished(error: Option<StopError>)
  datatype StopError = FlowStop(index: nat) | ConnectorStop(id: nat)

  /** Outside invoke mode a configured name is bound to the last connector of that name, and
      any other binding is a default connector of a registered type no configured one has. */
  ghost predicate NameOk(setup: Setup, byName: map<Name, Connector>, n: Name) {
    match KindNamed(setup.connectors, n)
    case Some(kind) => n in byName && byName[n].kind == kind
    case None =>
      n in byName ==>
        byName[n].kind == n && n != UNNAMED && n in setup.registry && NamesOfKind(setup.connectors, n) == []
  }

  ghost predicate Bound(setup: Setup, byName: map<Name, Connector>) {
    forall n :: NameOk(setup, byName, n)
  }

  ghost predicate Backs(setup: Setup, byName: map<Name, Connector>, source: SourceConfig, c: Connector) {
    var name := BoundName(setup, source);
    name.Some? && name.value in byName && byName[name.value] == c
  }

  ghost predicate Grows(before: map<Name, Connector>, after: map<Name, Connector>) {
    forall n :: n in before ==> n in after && after[n] == before[n]
  }

  /** A name that is bound when a source names it is the name the configuration determines,
      even when a default connector put it there. */
  lemma ExplicitIsBound(setup: Setup, byName: map<Name, Connector>, source: SourceConfig)
    requires Bound(setup, byName) && source.connector != UNNAMED
    ensures source.connector in byName ==> BoundName(setup, source) == Some(source.connector)
    ensures source.connector !in byName ==> KindNamed(setup.connectors, source.connector).None?
  {
    assert NameOk(setup, byName, source.connector);
  }

  lemma DefaultKeepsBound(setup: Setup, byName: map<Name, Connector>, kind: Name, c: Connector)
    requires Bound(setup, byName) && kind !in byName && c.kind == kind
    requires kind != UNNAMED && kind in setup.registry && NamesOfKind(setup.connectors, kind) == []
    ensures Bound(setup, byName[kind := c])
  {
    var after := byName[kind := c];
    forall n ensures NameOk(setup, after, n) {
      assert NameOk(setup, byName, n);
    }
  }

  /** The bound connector has the type the source wants exactly when no configured connector
      of another type has the name it is bound under. An explicit binding is not checked. */
  lemma RightTypeIffNameFree(setup: Setup, byName: map<Name, Connector>, source: SourceConfig, c: Connector)
    requires Bound(setup, byName) && Backs(setup, byName, source, c)
    requires source.connector == UNNAMED || KindNamed(setup.connectors, source.connector).None?
    ensures var kind := DesiredKind(setup.registry, source);
            var named := KindNamed(setup.connectors, BoundName(setup, source).value);
            c.kind == kind <==> named.None? || named.value == kind
  {
    assert NameOk(setup, byName, BoundName(setup, source).value);
    if |NamesOfKind(setup.connectors, DesiredKind(setup.registry, source))| == 1 {
      NamesUpToAreConfigured(setup.connectors, |setup.connectors|, DesiredKind(setup.registry, source), 0);
    }
  }

  /** Such a clash does happen: the only connector is a queue called "http", and a source of
      type http is bound to it. */
  lemma WrongTypeBound(setup: Setup, byName: map<Name, Connector>)
    requires setup.connectors == [ConnectorConfig(Name("http"), Name("queue"))] && setup.registry == {Name("http"), Name("queue")}
    requires Bound(setup, byName)
    ensures var source := SourceConfig(UNNAMED, Name("http"));
            DesiredKind(setup.registry, source) == Name("http")
            && exists c :: Backs(setup, byName, source, c) && c.kind == Name("queue")
  {
    var source := SourceConfig(UNNAMED, Name("http"));
    assert NamesUpTo(setup.connectors, 0, Name("http")) == [];
    assert NamesOfKind(setup.connectors, Name("http")) == [];
    assert KindNamed(setup.connectors, Name("http")) == Some(Name("queue"));
    assert NameOk(setup, byName, Name("http"));
    assert Backs(setup, byName, source, byName[Name("http")]);
  }

  /** The connectors running and the names bound. */
  datatype Bindings = Bindings(running: seq<Connector>, byName: map<Name, Connector>)

  /** Resolving a source finds the connector under the name it is bound to, or starts a default one
      and binds it there; it fails exactly when there is no such name or that start fails. */
  ghost predicate Resolves(name: Option<Name>, startFails: nat -> bool, b: Bindings, b': Bindings, c: Option<Connector>) {
    if name.None? || (name.value !in b.byName && startFails(|b.running|)) then c.None? && b' == b
    else if name.value in b.byName then c == Some(b.byName[name.value]) && b' == b
    else c.Some? && b' == Bindings(b.running + [c.value], b.byName[name.value := c.value])
  }

  lemma ResolvesGrows(name: Option<Name>, startFails: nat -> bool, b: Bindings, b': Bindings, c: Option<Connector>)
    requires Resolves(name, startFails, b, b', c)
    ensures b.running <= b'.running && Grows(b.byName, b'.byName)
    ensures c.Some? ==> name.Some? && name.value in b'.byName && b'.byName[name.value] == c.value
    ensures c.Some? ==> b'.byName.Keys == b.byName.Keys + {name.value}
    ensures c.Some? ==> |b'.running| == |b.running| + (if name.value in b.byName then 0 else 1)
  {
  }

  /** A flow as configured, on its own connector. */
  ghost predicate Built(setup: Setup, byName: map<Name, Connector>, f: Flow) {
    && f.index < |setup.flows| && f.name == setup.flows[f.index].name
    && f.implicit == Implicit(setup, f.index)
    && (if f.implicit then f.name != UNNAMED
        else f.backing.Some? && Backs(setup, byName, setup.flows[f.index].source.value, f.backing.value))
  }

  ghost predicate AllBuilt(setup: Setup, byName: map<Name, Connector>, flows: seq<Flow>) {
    InConfigOrder(flows) && forall i :: 0 <= i < |flows| ==> Built(setup, byName, flows[i])
  }

  lemma BuiltGrows(setup: Setup, before: map<Name, Connector>, after: map<Name, Connector>, flows: seq<Flow>)
    requires AllBuilt(setup, before, flows) && Grows(before, after)
    ensures AllBuilt(setup, after, flows)
  {
    forall i | 0 <= i < |flows| ensures Built(setup, after, flows[i]) {
      assert Built(setup, before, flows[i]);
    }
  }

  /** Two flows whose sources are bound under one name share one connector. */
  lemma SharedBacking(setup: Setup, byName: map<Name, Connector>, f: Flow, g: Flow)
    requires Built(setup, byName, f) && Built(setup, byName, g) && !f.implicit && !g.implicit
    requires BoundName(setup, setup.flows[f.index].source.value) == BoundName(setup, setup.flows[g.index].source.value)
    ensures f.backing == g.backing
  {
  }

  /** Built flows and any order of them have the same flows, found by their index. */
  ghost predicate SameFlows(setup: Setup, flows: seq<Flow>, order: seq<Flow>) {
    && |flows| == |setup.flows|
    && (forall i :: 0 <= i < |flows| ==>
          flows[i] in order && flows[i].name == setup.flows[i].name && flows[i].implicit == Implicit(setup, i))
    && (forall k :: 0 <= k < |order| ==> order[k].index < |flows| && flows[order[k].index] == order[k])
  }

  lemma OrderIsSameFlows(setup: Setup, byName: map<Name, Connector>, flows: seq<Flow>, order: seq<Flow>)
    requires |flows| == |setup.flows| && AllBuilt(setup, byName, flows) && multiset(order) == multiset(flows)
    ensures SameFlows(setup, flows, order)
  {
    forall i | 0 <= i < |flows|
      ensures flows[i] in order && flows[i].name == setup.flows[i].name && flows[i].implicit == Implicit(setup, i)
    {
      assert flows[i] in multiset(order);
      assert Built(setup, byName, flows[i]);
    }
    forall k | 0 <= k < |order| ensures order[k].index < |flows| && flows[order[k].index] == order[k] {
      assert order[k] in multiset(flows);
    }
  }

  /** If all flows started, in whatever order, their names differ and none of their sources fails. */
  lemma StartedAreStartable(setup: Setup, flows: seq<Flow>, order: seq<Flow>)
    requires SameFlows(setup, flows, order) && DistinctNames(order) && NoneFails(setup, order) && InConfigOrder(flows)
    ensures FlowsStartable(setup)
  {
    forall i, j | 0 <= i < j < |setup.flows| && Implicit(setup, i) && Implicit(setup, j)
      ensures setup.flows[i].name != setup.flows[j].name
    {
      var k :| 0 <= k < |order| && order[k] == flows[i];
      var l :| 0 <= l < |order| && order[l] == flows[j];
      assert flows[i].index != flows[j].index;
    }
    forall i | 0 <= i < |setup.flows| && !Implicit(setup, i) ensures !setup.flowStartFails(i) {
      var k :| 0 <= k < |order| && order[k] == flows[i];
    }
  }

  /** A flow that is blocked in any order shows that not all can start. */
  lemma BlockedNotStartable(setup: Setup, flows: seq<Flow>, order: seq<Flow>, n: nat)
    requires SameFlows(setup, flows, order) && InStartOrder(order) && n < |order|
    requires Blocked(setup, order[n], order[..n])
    ensures !FlowsStartable(setup)
  {
    var f := order[n];
    assert flows[f.index] == f;
    if f.implicit {
      var g :| g in order[..n] && g.implicit && g.name == f.name;
      var k :| 0 <= k < n && order[k] == g;
      assert flows[g.index] == g && StartsBefore(order[k], order[n]);
      assert setup.flows[g.index].name == setup.flows[f.index].name;
    }
  }

  /** The connector is among these, at the place its id names. */
  predicate Runs(running: seq<Connector>, c: Connector) {
    c.id < |running| && running[c.id] == c
  }

  class Service {
    const setup: Setup
    var running: seq<Connector>
    var byName: map<Name, Connector>
    var trace: Trace
    ghost var live: Live

    constructor (setup: Setup)
      ensures this.setup == setup && Starting() && running == [] && byName == map[] && !live.ready
    {
      this.setup := setup;
      running := [];
      byName := map[];
      trace := Trace.Nothing;
      live := NOTHING;
    }

    ghost predicate Stands(connectors: seq<Connector>, flows: seq<Flow>)
      reads this
    {
      && Lawful(setup, trace) && live == Replay(trace)
      && live.connectors == connectors && live.flows == flows
    }

    /** Before any flow runs: what runs is what was started, found by name. */
    ghost predicate Starting()
      reads this
    {
      && Stands(running, []) && live.defaults <= byName.Keys
      && live.ups == running && live.downs == [] && live.flowUps == [] && live.flowDowns == []
      && forall n :: n in byName ==> Runs(running, byName[n])
    }

    /** Nothing runs, nothing is callable, and everything was stopped in reverse start order. */
    ghost predicate Clean()
      reads this
    {
      Stands([], []) && live.downs == Reversed(live.ups) && live.flowDowns == Reversed(live.flowUps)
    }

    method Record(e: Event)
      requires Lawful(setup, trace) && live == Replay(trace) && Allowed(setup, live, e)
      modifies `trace, `live
      ensures trace == Then(old(trace), e)
      ensures Lawful(setup, trace) && live == Replay(trace) && live == After(old(live), e)
    {
      trace := Then(trace, e);
      live := After(live, e);
    }

    /** Stops the i-th connector, those after it being stopped already. */
    method StopOne(i: nat)
      requires i < |running| && Stands(running[..i + 1], []) && live.downs == Backwards(running, i + 1)
      modifies `trace, `live
      ensures Stands(running[..i], [])
      ensures live == old(live).(connectors := running[..i], downs := Backwards(running, i))
    {
      assert running[..i + 1][..i] == running[..i];
      Record(Down(running[i]));
    }

    /** Stops what runs, in reverse start order; the error is the first one met. */
    method StopConnectors() returns (failed: Option<nat>)
      requires Stands(running, []) && live.ups == running && live.downs == []
      modifies `trace, `live
      ensures Stands([], []) && live == old(live).(connectors := [], downs := Reversed(running))
      ensures ConnectorStopReport(failed, 0, |running|, setup.connectorStopFails)
    {
      failed := None;
      var i := |running|;
      assert running[..i] == running;
      while i > 0
        invariant 0 <= i <= |running| && Stands(running[..i], [])
        invariant live == old(live).(connectors := running[..i], downs := Backwards(running, i))
        invariant ConnectorStopReport(failed, i, |running|, setup.connectorStopFails)
      {
        i := i - 1;
        StopOne(i);
        NextConnectorReport(failed, i, |running|, setup.connectorStopFails);
        if setup.connectorStopFails(i) && failed.None? { failed := Some(i); }
      }
    }

    /** Starts one connector and binds its name to it. */
    method StartConnector(connector: Connector)
      requires Starting() && connector.id == |running|
      requires connector.isDefault ==> connector.name == connector.kind && connector.kind !in byName
      modifies `running, `byName, `trace, `live
      ensures Starting() && live.ready == old(live.ready)
      ensures running == old(running) + [connector] && byName == old(byName)[connector.name := connector]
    {
      Record(Up(connector));
      running := running + [connector];
      byName := byName[connector.name := connector];
    }

    /** Starts the i-th configured connector, unless it is skipped; fails without a trace when
        its type is unknown or it does not start. */
    method StartConfigured(i: nat) returns (ok: bool)
      requires i < |setup.connectors| && Starting() && running == Wanted(setup, i) && Startable(setup, i)
      requires !setup.invokeMode ==> NamedUpTo(setup, byName, i)
      modifies `running, `byName, `trace, `live
      ensures Starting() && live.ready == old(live.ready)
      ensures ok <==> ConnectorStarts(setup, i)
      ensures ok ==> running == Wanted(setup, i + 1) && (!setup.invokeMode ==> NamedUpTo(setup, byName, i + 1))
    {
      var config := setup.connectors[i];
      if Skipped(setup, config) {
        return true;
      }
      if config.kind !in setup.registry || setup.connectorStartFails(|running|) {
        return false;
      }
      var connector := Connector(|running|, config.name, config.kind, false);
      NamedUpToNext(setup, byName, i, connector);
      StartConnector(connector);
      return true;
    }

    /** Starts the configured connectors in order, or stops those it started. */
    method StartConnectors() returns (ok: bool)
      requires Starting() && running == [] && byName == map[]
      modifies `running, `byName, `trace, `live
      ensures ok <==> Startable(setup, |setup.connectors|)
      ensures ok ==> Starting() && running == Wanted(setup, |setup.connectors|)
      ensures ok && !setup.invokeMode ==> Bound(setup, byName) && NamesTo(setup, byName, 0)
      ensures !ok ==> Clean()
      ensures live.ready == old(live.ready)
    {
      for i := 0 to |setup.connectors|
        invariant Starting() && running == Wanted(setup, i) && Startable(setup, i)
        invariant !setup.invokeMode ==> NamedUpTo(setup, byName, i)
        invariant live.ready == old(live.ready)
      {
        ok := StartConfigured(i);
        if !ok {
          var _ := StopConnectors();
          return;
        }
      }
      if !setup.invokeMode { NamedIsBound(setup, byName); }
      return true;
    }

    method ConfiguredOfType(kind: Name) returns (names: seq<Name>)
      ensures names == NamesOfKind(setup.connectors, kind)
    {
      names := [];
      for i := 0 to |setup.connectors|
        invariant names == NamesUpTo(setup.connectors, i, kind)
      {
        if setup.connectors[i].kind == kind { names := names + [setup.connectors[i].name]; }
      }
    }

    /** A source is bound to the connector under the name the configuration alone determines,
        whatever was resolved before; it fails exactly when there is no such name or the default
        connector it needs, not started yet, fails to start. */
    method Resolve(source: SourceConfig) returns (c: Option<Connector>)
      requires Starting() && Bound(setup, byName)
      modifies `running, `byName, `trace, `live
      ensures Starting() && Bound(setup, byName) && live.ready == old(live.ready)
      ensures Resolves(BoundName(setup, source), setup.connectorStartFails,
                       old(Bindings(running, byName)), Bindings(running, byName), c)
    {
      if source.connector != UNNAMED {
        ExplicitIsBound(setup, byName, source);
        if source.connector in byName {
          return Some(byName[source.connector]);
        }
      }
      var kind := DesiredKind(setup.registry, source);
      if kind == UNNAMED {
        return None;
      }
      var names := ConfiguredOfType(kind);
      if |names| > 1 {
        return None;
      }
      if |names| == 1 {
        NamesUpToAreConfigured(setup.connectors, |setup.connectors|, kind, 0);
        assert NameOk(setup, byName, names[0]);
        return Some(byName[names[0]]);
      }
      if kind in byName {
        return Some(byName[kind]);
      }
      if setup.connectorStartFails(|running|) {
        return None;
      }
      var connector := Connector(|running|, kind, kind, true);
      DefaultKeepsBound(setup, byName, kind, connector);
      StartConnector(connector);
      return Some(connector);
    }

    method BuildFlows() returns (flows: seq<Flow>, ok: bool)
      requires Starting() && running == Wanted(setup, |setup.connectors|)
      requires !setup.invokeMode ==> Bound(setup, byName) && NamesTo(setup, byName, 0)
      modifies `running, `byName, `trace, `live
      ensures Starting() && old(running) <= running && live.ready == old(live.ready)
      ensures ok <==> Buildable(setup, |setup.flows|)
      ensures ok ==> |flows| == |setup.flows| && AllBuilt(setup, byName, flows)
    {
      flows := [];
      BuiltNone(setup, Bindings(running, byName));
      for i := 0 to |setup.flows|
        invariant Starting() && BuiltUpTo(setup, Bindings(running, byName), flows) && |flows| == i && Buildable(setup, i)
        invariant old(running) <= running && live.ready == old(live.ready)
      {
        ghost var before := running;
        var flow := BuildFlow(i, flows);
        PrefixTrans(old(running), before, running);
        BuildableNext(setup, i);
        if flow.None? {
          return flows, false;
        }
        flows := flows + [flow.value];
      }
      return flows, true;
    }

    /** Builds flow `i`, starting a default connector for its source if it needs a new one. */
    method BuildFlow(i: nat, ghost built: seq<Flow>) returns (flow: Option<Flow>)
      requires i == |built| < |setup.flows| && Starting() && BuiltUpTo(setup, Bindings(running, byName), built)
      modifies `running, `byName, `trace, `live
      ensures Starting() && old(running) <= running && live.ready == old(live.ready)
      ensures flow.Some? <==> FlowBuilds(setup, i)
      ensures flow.Some? ==> BuiltUpTo(setup, Bindings(running, byName), built + [flow.value])
    {
      var config := setup.flows[i];
      ghost var before := Bindings(running, byName);
      if config.source.None? || setup.invokeMode {
        if config.name == UNNAMED || setup.flowBuildFails(i) { return None; }
        flow := Some(Flow(i, config.name, true, None));
        ImplicitBuilt(setup, before, built, flow.value);
      } else {
        var backing := Resolve(config.source.value);
        SourceResolved(setup, i, before, Bindings(running, byName), backing);
        if backing.None? || setup.flowBuildFails(i) { return None; }
        flow := Some(Flow(i, config.name, false, backing));
        SourcedBuilt(setup, before, Bindings(running, byName), built, flow.value);
      }
    }

    /** Starts the i-th flow of the order, those before it running already. */
    method StartOneFlow(ghost flows: seq<Flow>, ordered: seq<Flow>, i: nat)
      requires |flows| == |setup.flows| && AllBuilt(setup, byName, flows)
      requires InStartOrder(ordered) && multiset(ordered) == multiset(flows) && i < |ordered|
      requires Stands(running, ordered[..i]) && !Blocked(setup, ordered[i], ordered[..i])
      requires forall n :: n in byName ==> Runs(running, byName[n])
      modifies `trace, `live
      ensures Stands(running, ordered[..i + 1])
      ensures live == old(live).(flows := ordered[..i + 1], flowUps := old(live).flowUps + [ordered[i]], callable := live.callable)
    {
      MayStartNext(setup, byName, flows, ordered, i, trace);
      assert ordered[..i + 1] == ordered[..i] + [ordered[i]];
      Record(FlowUp(ordered[i]));
    }

    /** Starts flows, implicit ones first, until one fails to start: what runs is a prefix of the
        start order, and if it is not all of it the next flow is the one that could not start. */
    method StartFlows(flows: seq<Flow>) returns (started: seq<Flow>, ok: bool, ghost order: seq<Flow>)
      requires Starting() && |flows| == |setup.flows| && AllBuilt(setup, byName, flows)
      modifies `trace, `live
      ensures Stands(running, started) && InStartOrder(started)
      ensures live.ups == running && live.downs == [] && live.flowUps == started && live.flowDowns == []
      ensures live.ready == old(live.ready)
      ensures InStartOrder(order) && multiset(order) == multiset(flows)
      ensures started <= order && (ok <==> started == order)
      ensures ok ==> AllUp(setup, started)
      ensures ok ==> DistinctNames(order) && NoneFails(setup, order)
      ensures !ok ==> |started| < |order| && Blocked(setup, order[|started|], started)
    {
      started := [];
      var ordered := OrderForStart(flows);
      for i := 0 to |ordered|
        invariant started == ordered[..i] && Stands(running, started)
        invariant live.ups == running && live.downs == [] && live.flowUps == started && live.flowDowns == []
        invariant live.ready == old(live.ready) && NoneFails(setup, started)
      {
        var flow := ordered[i];
        if Blocked(setup, flow, started) {
          return started, false, ordered;
        }
        StartOneFlow(flows, ordered, i);
        started := started + [flow];
      }
      assert ordered[..|ordered|] == ordered;
      AllStarted(setup, flows, ordered);
      CallableExact(setup, trace);
      return started, true, ordered;
    }

    /** Stops the i-th flow, those after it being stopped already. */
    method StopOneFlow(started: seq<Flow>, i: nat)
      requires i < |started| && InStartOrder(started)
      requires Stands(running, started[..i + 1]) && live.flowDowns == Backwards(started, i + 1)
      modifies `trace, `live
      ensures Stands(running, started[..i])
      ensures live == old(live).(flows := started[..i], flowDowns := Backwards(started, i), callable := live.callable)
    {
      assert started[..i + 1][..i] == started[..i];
      Record(FlowDown(started[i]));
    }

    /** Stops flows in reverse order, reporting the first error met. */
    method StopFlows(started: seq<Flow>) returns (failed: Option<nat>)
      requires Stands(running, started) && InStartOrder(started)
      requires live.flowUps == started && live.flowDowns == []
      modifies `trace, `live
      ensures Stands(running, [])
      ensures live == old(live).(flows := [], flowDowns := Reversed(started), callable := live.callable)
      ensures FlowStopReport(failed, started, 0, setup.flowStopFails)
    {
      failed := None;
      var i := |started|;
      assert started[..i] == started;
      while i > 0
        invariant 0 <= i <= |started| && Stands(running, started[..i])
        invariant live == old(live).(flows := started[..i], flowDowns := Backwards(started, i), callable := live.callable)
        invariant FlowStopReport(failed, started, i, setup.flowStopFails)
      {
        i := i - 1;
        StopOneFlow(started, i);
        NextFlowReport(failed, started, i, setup.flowStopFails);
        if setup.flowStopFails(started[i].index) && failed.None? { failed := Some(started[i].index); }
      }
    }

    /** On every path the trace is lawful and everything that started was stopped, in reverse;
        readiness was announced exactly when nothing failed to come up, which the configuration
        and the failing calls decide. */
    method Run() returns (outcome: Outcome)
      requires Starting() && running == [] && byName == map[] && !live.ready
      modifies this
      ensures Clean() && live.callable == {}
      ensures live.ready <==> outcome.Finished?
      ensures outcome.ConnectorFailed? <==> !Startable(setup, |setup.connectors|)
      ensures outcome.BuildFailed? <==>
                Startable(setup, |setup.connectors|) && !Buildable(setup, |setup.flows|)
      ensures outcome.FlowFailed? <==>
                Startable(setup, |setup.connectors|) && Buildable(setup, |setup.flows|) && !FlowsStartable(setup)
      ensures outcome.Finished? ==> AllUp(setup, live.flowUps) && InStartOrder(live.flowUps)
      ensures outcome.Finished? ==> Wanted(setup, |setup.connectors|) <= live.ups
      ensures outcome.Finished? ==> Reports(setup, live, outcome.error)
    {
      var ok := StartConnectors();
      if !ok {
        CallableExact(setup, trace);
        return ConnectorFailed;
      }
      var flows: seq<Flow>;
      flows, ok := BuildFlows();
      if !ok {
        var _ := StopConnectors();
        CallableExact(setup, trace);
        return BuildFailed;
      }
      outcome := RunFlows(flows);
    }

    /** Starts the flows that were built, waits until told to stop, and tears everything down. */
    method RunFlows(flows: seq<Flow>) returns (outcome: Outcome)
      requires Starting() && !live.ready && |flows| == |setup.flows| && AllBuilt(setup, byName, flows)
      modifies `trace, `live
      ensures Clean() && live.callable == {}
      ensures outcome.FlowFailed? || outcome.Finished?
      ensures live.ready <==> outcome.Finished?
      ensures outcome.Finished? <==> FlowsStartable(setup)
      ensures live.ups == running
      ensures outcome.Finished? ==> AllUp(setup, live.flowUps) && InStartOrder(live.flowUps)
      ensures outcome.Finished? ==> Reports(setup, live, outcome.error)
    {
      var started, ok, order := StartFlows(flows);
      OrderIsSameFlows(setup, byName, flows, order);
      if !ok {
        assert started == order[..|started|];
        BlockedNotStartable(setup, flows, order, |started|);
        var _ := TearDown(started);
        CallableExact(setup, trace);
        return FlowFailed;
      }
      StartedAreStartable(setup, flows, order);
      Record(Ready);
      var error := TearDown(started);
      CallableExact(setup, trace);
      return Finished(error);
    }

    /** Stops the flows, then the connectors, all of them whatever fails. */
    method TearDown(started: seq<Flow>) returns (error: Option<StopError>)
      requires Stands(running, started) && InStartOrder(started)
      requires live.ups == running && live.downs == [] && live.flowUps == started && live.flowDowns == []
      modifies `trace, `live
      ensures Clean() && live.ups == running && live.flowUps == started && live.ready == old(live.ready)
      ensures Reports(setup, live, error)
    {
      var flowError := StopFlows(started);
      var connectorError := StopConnectors();
      if flowError.Some? {
        return Some(FlowStop(flowError.value));
      }
      return if connectorError.Some? then Some(ConnectorStop(connectorError.value)) else None;
    }
  }

  /** What a finished run reports: nothing when everything stopped; the flow started last among
      those that failed to stop; or, when all flows stopped, the connector started last among
      those that did not. */
  ghost predicate Reports(setup: Setup, live: Live, error: Option<StopError>) {
    match error
    case None =>
      && (forall j :: 0 <= j < |live.flowUps| ==> !setup.flowStopFails(live.flowUps[j].index))
      && (forall j :: 0 <= j < |live.ups| ==> !setup.connectorStopFails(j))
    case Some(FlowStop(x)) =>
      exists k :: 0 <= k < |live.flowUps| && live.flowUps[k].index == x && setup.flowStopFails(x)
                  && forall j :: k < j < |live.flowUps| ==> !setup.flowStopFails(live.flowUps[j].index)
    case Some(ConnectorStop(i)) =>
      && (forall j :: 0 <= j < |live.flowUps| ==> !setup.flowStopFails(live.flowUps[j].index))
      && i < |live.ups| && setup.connectorStopFails(i)
      && (forall j :: i < j < |live.ups| ==> !setup.connectorStopFails(j))
  }

  /** Read off the configuration: a run in which all flows came up ends without an error exactly
      when no flow and no connector that ran fails to stop, and a flow's error hides a connector's. */
  lemma ReportsExact(setup: Setup, live: Live, error: Option<StopError>)
    requires Reports(setup, live, error) && AllUp(setup, live.flowUps)
    requires KindsRight(setup, live.flowUps)
    ensures error.None? <==>
              && (forall i :: 0 <= i < |setup.flows| ==> !setup.flowStopFails(i))
              && (forall j :: 0 <= j < |live.ups| ==> !setup.connectorStopFails(j))
    ensures (error.Some? && error.value.FlowStop?) <==> exists i :: 0 <= i < |setup.flows| && setup.flowStopFails(i)
  {
    forall i | 0 <= i < |setup.flows| && setup.flowStopFails(i)
      ensures error.Some? && error.value.FlowStop?
    {
      assert HasIndex(live.flowUps, i);
      var k :| 0 <= k < |live.flowUps| && live.flowUps[k].index == i;
    }
  }

  /** The next flow in start order may start, once its name is free. */
  lemma MayStart(setup: Setup, byName: map<Name, Connector>, flows: seq<Flow>, ordered: seq<Flow>, n: nat, m: Live)
    requires |flows| == |setup.flows| && AllBuilt(setup, byName, flows)
    requires InStartOrder(ordered) && multiset(ordered) == multiset(flows) && n < |ordered|
    requires m.flows == ordered[..n] && m.callable == Callable(ordered[..n])
    requires forall x :: x in byName ==> Runs(m.connectors, byName[x])
    requires ordered[n].implicit ==> ordered[n].name !in m.callable
    ensures Allowed(setup, m, FlowUp(ordered[n]))
  {
    assert ordered[n] in multiset(flows);
    var k :| 0 <= k < |flows| && flows[k] == ordered[n];
    assert Built(setup, byName, flows[k]);
    forall j | 0 <= j < n ensures ordered[..n][j].index != ordered[n].index {
      assert ordered[j] in multiset(flows);
      assert StartsBefore(ordered[j], ordered[n]);
    }
    if !ordered[n].implicit {
      forall i | 0 <= i < |flows| ensures flows[i].implicit == Implicit(setup, i) {
        assert Built(setup, byName, flows[i]);
      }
      ImplicitFirst(setup, flows, ordered, n);
    }
  }

  lemma MayStartNext(setup: Setup, byName: map<Name, Connector>, flows: seq<Flow>, ordered: seq<Flow>, n: nat, trace: Trace)
    requires |flows| == |setup.flows| && AllBuilt(setup, byName, flows)
    requires InStartOrder(ordered) && multiset(ordered) == multiset(flows) && n < |ordered|
    requires Lawful(setup, trace) && Replay(trace).flows == ordered[..n] && !Blocked(setup, ordered[n], ordered[..n])
    requires forall x :: x in byName ==> Runs(Replay(trace).connectors, byName[x])
    ensures Allowed(setup, Replay(trace), FlowUp(ordered[n]))
  {
    CallableExact(setup, trace);
    MayStart(setup, byName, flows, ordered, n, Replay(trace));
  }

  /** The names bound once `n` flows are built: those configured, and their default connectors. */
  ghost predicate NamesTo(setup: Setup, byName: map<Name, Connector>, n: nat)
    requires n <= |setup.flows|
  {
    forall x :: x in byName <==> KindNamed(setup.connectors, x).Some? || x in Defaults(setup, n)
  }

  /** These flows are built, and what is bound and running is what was configured and what their
      sources needed. */
  ghost predicate BuiltUpTo(setup: Setup, b: Bindings, flows: seq<Flow>) {
    && |flows| <= |setup.flows| && AllBuilt(setup, b.byName, flows)
    && (!setup.invokeMode ==> Bound(setup, b.byName) && NamesTo(setup, b.byName, |flows|))
    && |b.running| == |Wanted(setup, |setup.connectors|)| + |Defaults(setup, |flows|)|
  }

  /** A source's name is unbound exactly when its flow is the first to need that default. */
  lemma FirstToNeed(setup: Setup, byName: map<Name, Connector>, i: nat, name: Name)
    requires i < |setup.flows| && !Implicit(setup, i) && NamesTo(setup, byName, i)
    requires BoundName(setup, setup.flows[i].source.value) == Some(name)
    ensures name !in byName <==> NeedsDefault(setup, i) == Some(name) && name !in Defaults(setup, i)
    ensures Defaults(setup, i + 1) == if name in byName then Defaults(setup, i) else Defaults(setup, i) + {name}
  {
    assert name in byName <==> KindNamed(setup.connectors, name).Some? || name in Defaults(setup, i);
  }

  lemma NamesToNext(setup: Setup, before: map<Name, Connector>, after: map<Name, Connector>, i: nat, name: Name)
    requires i < |setup.flows| && NamesTo(setup, before, i) && after.Keys == before.Keys + {name}
    requires Defaults(setup, i + 1) == if name in before then Defaults(setup, i) else Defaults(setup, i) + {name}
    ensures NamesTo(setup, after, i + 1)
  {
    forall x ensures x in after <==> KindNamed(setup.connectors, x).Some? || x in Defaults(setup, i + 1) {
      assert x in after <==> x in before || x == name;
    }
  }

  /** What resolving flow `i`'s source does to the names bound and the connectors running. */
  lemma SourceResolved(setup: Setup, i: nat, b: Bindings, b': Bindings, c: Option<Connector>)
    requires i < |setup.flows| && !Implicit(setup, i) && NamesTo(setup, b.byName, i)
    requires Resolves(BoundName(setup, setup.flows[i].source.value), setup.connectorStartFails, b, b', c)
    requires |b.running| == |Wanted(setup, |setup.connectors|)| + |Defaults(setup, i)|
    ensures b.running <= b'.running && Grows(b.byName, b'.byName)
    ensures c.Some? <==> SourceBuilds(setup, i)
    ensures c.Some? ==>
              && NamesTo(setup, b'.byName, i + 1) && Backs(setup, b'.byName, setup.flows[i].source.value, c.value)
              && |b'.running| == |Wanted(setup, |setup.connectors|)| + |Defaults(setup, i + 1)|
  {
    var name := BoundName(setup, setup.flows[i].source.value);
    ResolvesGrows(name, setup.connectorStartFails, b, b', c);
    if name.Some? {
      SourceBuildsIff(setup, b.byName, i, name.value);
    }
    if c.Some? {
      FirstToNeed(setup, b.byName, i, name.value);
      NamesToNext(setup, b.byName, b'.byName, i, name.value);
      OneMore(Defaults(setup, i), name.value);
    }
  }

  lemma ImplicitBuilt(setup: Setup, b: Bindings, built: seq<Flow>, f: Flow)
    requires |built| < |setup.flows| && BuiltUpTo(setup, b, built) && Implicit(setup, |built|)
    requires f == Flow(|built|, setup.flows[|built|].name, true, None) && f.name != UNNAMED
    ensures BuiltUpTo(setup, b, built + [f])
  {
    NoDefaultNeeded(setup, |built|);
    assert Built(setup, b.byName, f);
    BuiltSnoc(setup, b.byName, built, f);
  }

  lemma NoDefaultNeeded(setup: Setup, i: nat)
    requires i < |setup.flows| && Implicit(setup, i)
    ensures Defaults(setup, i + 1) == Defaults(setup, i)
  {
  }

  lemma SourcedBuilt(setup: Setup, b: Bindings, b': Bindings, built: seq<Flow>, f: Flow)
    requires |built| < |setup.flows| && BuiltUpTo(setup, b, built) && !Implicit(setup, |built|)
    requires f == Flow(|built|, setup.flows[|built|].name, false, f.backing) && f.backing.Some?
    requires Backs(setup, b'.byName, setup.flows[|built|].source.value, f.backing.value)
    requires Grows(b.byName, b'.byName) && Bound(setup, b'.byName) && NamesTo(setup, b'.byName, |built| + 1)
    requires |b'.running| == |Wanted(setup, |setup.connectors|)| + |Defaults(setup, |built| + 1)|
    ensures BuiltUpTo(setup, b', built + [f])
  {
    BuiltGrows(setup, b.byName, b'.byName, built);
    assert Built(setup, b'.byName, f);
    BuiltSnoc(setup, b'.byName, built, f);
  }

  lemma BuiltNone(setup: Setup, b: Bindings)
    requires b.running == Wanted(setup, |setup.connectors|)
    requires !setup.invokeMode ==> Bound(setup, b.byName) && NamesTo(setup, b.byName, 0)
    ensures BuiltUpTo(setup, b, [])
  {
    assert Defaults(setup, 0) == {};
  }

  lemma BuiltSnoc(setup: Setup, byName: map<Name, Connector>, built: seq<Flow>, f: Flow)
    requires AllBuilt(setup, byName, built) && Built(setup, byName, f) && f.index == |built|
    ensures AllBuilt(setup, byName, built + [f])
  {
  }

  lemma SourceBuildsIff(setup: Setup, byName: map<Name, Connector>, i: nat, name: Name)
    requires i < |setup.flows| && !Implicit(setup, i) && NamesTo(setup, byName, i)
    requires BoundName(setup, setup.flows[i].source.value) == Some(name)
    ensures SourceBuilds(setup, i) <==>
            name in byName || !setup.connectorStartFails(|Wanted(setup, |setup.connectors|)| + |Defaults(setup, i)|)
  {
    FirstToNeed(setup, byName, i, name);
  }

  lemma OneMore(names: set<Name>, name: Name)
    ensures name !in names ==> |names + {name}| == |names| + 1
  {
  }

  /** The names bound are those of the first `n` configured connectors. */
  ghost predicate NamedUpTo(setup: Setup, byName: map<Name, Connector>, n: nat)
    requires n <= |setup.connectors|
  {
    forall x :: NamedAs(setup.connectors, n, byName, x)
  }

  ghost predicate NamedAs(configs: seq<ConnectorConfig>, n: nat, byName: map<Name, Connector>, x: Name)
    requires n <= |configs|
  {
    match KindUpTo(configs, n, x)
    case Some(kind) => x in byName && byName[x].kind == kind
    case None => x !in byName
  }

  lemma NamedUpToNext(setup: Setup, byName: map<Name, Connector>, n: nat, c: Connector)
    requires n < |setup.connectors| && c.name == setup.connectors[n].name && c.kind == setup.connectors[n].kind
    ensures NamedUpTo(setup, byName, n) ==> NamedUpTo(setup, byName[c.name := c], n + 1)
  {
    if NamedUpTo(setup, byName, n) {
      var after, next := byName[c.name := c], n + 1;
      forall x ensures NamedAs(setup.connectors, next, after, x) {
        assert NamedAs(setup.connectors, n, byName, x);
      }
    }
  }

  lemma NamedIsBound(setup: Setup, byName: map<Name, Connector>)
    requires NamedUpTo(setup, byName, |setup.connectors|)
    ensures Bound(setup, byName) && NamesTo(setup, byName, 0)
  {
    forall n ensures NameOk(setup, byName, n) && (n in byName <==> KindNamed(setup.connectors, n).Some?) {
      assert NamedAs(setup.connectors, |setup.connectors|, byName, n);
    }
  }
}
