/** One running flow: callers that send a message and wait for its outcome, a bounded
    channel, the workers that drain it, the event bus that carries outcomes back, and the
    shutdown protocol. The same machine serves the three entry points, which differ only in
    how they guard a send: a call by name (flow registry), an HTTP request, a queue handler.

    Each step is one atomic action of one goroutine, so a run is any interleaving. A message
    is identified by its EventID, fresh for every caller. `accepted` is everything the channel
    ever took, of which the workers have received the first `taken`; `trace` and `fills` are
    history variables. */
module FlowRun {
  import opened Common

  type Id = nat

  datatype Via = ByName | Http | Queue

  /** A subscriber of the event bus. Every registry and every connector instance of the process
      has one; this flow's callers are answered by one of them. */
  type Handler = nat

  const OWN: Handler := 0

  datatype Message = Message(id: Id, body: string)

  datatype Outcome = Completed(result: Message) | Dropped(input: Message) | Failed(error: string, input: Message)

  datatype Event = Started(id: Id) | Ended(id: Id, outcome: Outcome)

  datatype Answer =
    | Got(event: Event)      // the outcome from the reply slot
    | Accepted               // fire and forget: the channel took the message
    | Gone                   // by name: the channel closed under the send
    | NotRegistered          // by name: no such flow
    | ShuttingDown           // HTTP: refused or aborted by shutdown
    | BadMessage             // HTTP: the message could not be built
    | Cancelled              // timeout, disconnect, cancelled context

  datatype Stage =
    | Fresh                  // nothing done yet
    | Gated                  // HTTP: holds a send token
    | Tracked                // by name: reply slot registered, channel not looked up
    | Resolved               // about to send on the channel
    | Releasing(sent: bool)  // HTTP: send decided, token still held
    | Waiting                // parked on the reply slot
    | Answering(answer: Answer)  // result decided, slot still registered
    | Returned(result: Answer)
    | Panicked               // sent on a closed channel without recovering

  /** `slot` is the one-place reply buffer; `fills` counts the sends it ever took. */
  datatype Caller = Caller(awaits: bool, stage: Stage, slot: Option<Event>, fills: nat)

  datatype Worker =
    | Idle
    | Holding(id: Id)                            // received, nothing published
    | Working(id: Id)                            // started event published
    | Publishing(event: Event, todo: seq<Handler>)   // outcome published, handlers still to call
    | Delivering(event: Event, todo: seq<Handler>)   // found a waiting caller, about to send
    | Exited

  datatype Stop = Running | Stopping | SourceStopped | ChannelClosed | Stopped

  /** `wg` is the source's wait group: send tokens for HTTP, live listeners for a queue.
      `idle` is the number of queue listeners not running a handler. `taken` is how many
      accepted messages the workers have received, oldest first. */
  datatype State = State(
    source: Via,
    capacity: nat,
    stop: Stop,
    wg: nat,
    idle: nat,
    callers: map<Id, Caller>,
    pending: set<Id>,
    accepted: seq<Id>,
    taken: nat,
    workers: seq<Worker>,
    trace: map<Id, seq<Event>>,
    subscribers: seq<Handler>)

  datatype Step =
    | Arrive(id: Id, awaits: bool)
    | Acquire(id: Id)
    | BuildFails(id: Id)
    | Track(id: Id)
    | Lookup(id: Id)
    | Send(id: Id)
    | AbandonSend(id: Id)
    | ReleaseToken(id: Id)
    | Receive(id: Id)
    | AbandonWait(id: Id)
    | Forget(id: Id)
    | BeginStop
    | ListenerExits
    | SourceStops
    | CloseChannel
    | FinishStop
    | Take(w: nat)
    | PublishStarted(w: nat)
    | PublishEnded(w: nat, outcome: Outcome)
    | CallHandler(w: nat)
    | Deliver(w: nat)
    | FinishMessage(w: nat)
    | Exit(w: nat)
    | Resubscribe(subscribers: seq<Handler>)

  predicate Init(s: State) {
    && s.capacity >= 1 && |s.workers| >= 1
    && s.stop == Running && s.callers == map[] && s.pending == {} && s.accepted == [] && s.taken == 0
    && (forall w :: 0 <= w < |s.workers| ==> s.workers[w] == Idle)
    && s.trace == map[]
    && s.wg == s.idle && (s.source != Queue ==> s.idle == 0)
    && OWN in s.subscribers && Distinct(s.subscribers)
  }

  predicate Closed(s: State) {
    s.stop == ChannelClosed || s.stop == Stopped
  }

  function Events(s: State, id: Id): seq<Event> {
    if id in s.trace then s.trace[id] else []
  }

  /** The message a worker is responsible for. */
  function Job(worker: Worker): Option<Id> {
    match worker
    case Idle => None
    case Exited => None
    case Holding(id) => Some(id)
    case Working(id) => Some(id)
    case Publishing(event, _) => Some(event.id)
    case Delivering(event, _) => Some(event.id)
  }

  predicate CallerEnabled(s: State, step: Step, id: Id)
    requires id in s.callers
  {
    var c := s.callers[id];
    match step
    case Acquire(_) => s.source == Http && c.stage == Fresh
    case BuildFails(_) => s.source == Http && c.stage == Gated
    case Track(_) => c.stage == if s.source == Http then Gated else Fresh
    case Lookup(_) => c.stage == Tracked
    case Send(_) => c.stage == Resolved && (Closed(s) || |s.accepted| - s.taken < s.capacity)
    case AbandonSend(_) => c.stage == Resolved
    case ReleaseToken(_) => c.stage.Releasing?
    case Receive(_) => c.stage == Waiting && c.slot.Some?
    case AbandonWait(_) => c.stage == Waiting
    case Forget(_) => c.stage.Answering?
    case _ => false
  }

  predicate WorkerEnabled(s: State, step: Step, w: nat)
    requires w < |s.workers|
  {
    var worker := s.workers[w];
    match step
    case Take(_) => worker == Idle && s.taken < |s.accepted|
    case PublishStarted(_) => worker.Holding?
    case PublishEnded(_, _) => worker.Working?
    case CallHandler(_) => worker.Publishing? && worker.todo != []
    case Deliver(_) => worker.Delivering?
    case FinishMessage(_) => worker.Publishing? && worker.todo == []
    case Exit(_) => worker == Idle && Closed(s) && s.taken >= |s.accepted|
    case _ => false
  }

  predicate IsCallerStep(step: Step) {
    step.Acquire? || step.BuildFails? || step.Track? || step.Lookup? || step.Send? || step.AbandonSend?
    || step.ReleaseToken? || step.Receive? || step.AbandonWait? || step.Forget?
  }

  predicate IsWorkerStep(step: Step) {
    step.Take? || step.PublishStarted? || step.PublishEnded? || step.CallHandler? || step.Deliver?
    || step.FinishMessage? || step.Exit?
  }

  predicate Enabled(s: State, step: Step) {
    if IsCallerStep(step) then step.id in s.callers && CallerEnabled(s, step, step.id)
    else if IsWorkerStep(step) then step.w < |s.workers| && WorkerEnabled(s, step, step.w)
    else
      match step
      case Arrive(id, awaits) =>
        && id !in s.callers
        && (s.source == Queue ==> s.idle > 0) && (s.source != ByName ==> awaits)
      case BeginStop => s.stop == Running
      case ListenerExits => s.source == Queue && s.stop == Stopping && s.idle > 0 && s.wg > 0
      case SourceStops => s.stop == Stopping && s.wg == 0
      case CloseChannel => s.stop == SourceStopped
      case FinishStop => s.stop == ChannelClosed && forall w :: 0 <= w < |s.workers| ==> s.workers[w] == Exited
      case Resubscribe(subscribers) => OWN in subscribers && Distinct(subscribers)
      case _ => false
  }

  function At(s: State, id: Id, stage: Stage): State
    requires id in s.callers
  {
    s.(callers := s.callers[id := s.callers[id].(stage := stage)])
  }

  /** A caller whose result is known: one with a registered slot still has to forget it. */
  function Decide(s: State, id: Id, answer: Answer): State
    requires id in s.callers
  {
    At(s, id, if s.callers[id].awaits then Answering(answer) else Returned(answer))
  }

  function Minus(n: nat): nat {
    if n > 0 then n - 1 else 0
  }

  function DoCaller(s: State, step: Step, id: Id): State
    requires id in s.callers && CallerEnabled(s, step, id)
  {
    var c := s.callers[id];
    match step
    case Acquire(_) =>
      if s.stop == Running then At(s, id, Gated).(wg := s.wg + 1) else At(s, id, Returned(ShuttingDown))
    case BuildFails(_) => At(s, id, Returned(BadMessage)).(wg := Minus(s.wg))
    case Track(_) => At(s, id, if s.source == ByName then Tracked else Resolved).(pending := s.pending + {id})
    case Lookup(_) => if s.stop == Running then At(s, id, Resolved) else Decide(s, id, NotRegistered)
    case Send(_) =>
      if Closed(s) then
        if s.source == ByName then Decide(s, id, Gone) else At(s, id, Panicked)
      else
        At(s, id, if s.source == Http then Releasing(true) else if c.awaits then Waiting else Returned(Accepted))
          .(accepted := s.accepted + [id])
    case AbandonSend(_) =>
      if s.source == Http then At(s, id, Releasing(false)) else Decide(s, id, Cancelled)
    case ReleaseToken(_) =>
      At(s, id, if c.stage.sent then Waiting else Answering(ShuttingDown)).(wg := Minus(s.wg))
    case Receive(_) => s.(callers := s.callers[id := c.(stage := Answering(Got(c.slot.value)), slot := None)])
    case AbandonWait(_) => At(s, id, Answering(Cancelled))
    case Forget(_) =>
      At(s, id, Returned(c.stage.answer))
        .(pending := s.pending - {id}, idle := if s.source == Queue then s.idle + 1 else s.idle)
  }

  function DoWorker(s: State, step: Step, w: nat): State
    requires w < |s.workers| && WorkerEnabled(s, step, w)
  {
    var worker := s.workers[w];
    match step
    case Take(_) => s.(workers := s.workers[w := Holding(s.accepted[s.taken])], taken := s.taken + 1)
    case PublishStarted(_) =>
      var id := worker.id;
      s.(workers := s.workers[w := Working(id)], trace := s.trace[id := Events(s, id) + [Started(id)]])
    case PublishEnded(_, outcome) =>
      var id := worker.id;
      var event := Ended(id, outcome);
      s.(workers := s.workers[w := Publishing(event, s.subscribers)],
         trace := s.trace[id := Events(s, id) + [event]])
    case CallHandler(_) =>
      var rest := worker.todo[1..];
      if worker.todo[0] == OWN && worker.event.id in s.pending then
        s.(workers := s.workers[w := Delivering(worker.event, rest)])
      else
        s.(workers := s.workers[w := Publishing(worker.event, rest)])
    case Deliver(_) =>
      var id := worker.event.id;
      var back := s.(workers := s.workers[w := Publishing(worker.event, worker.todo)]);
      if id in s.callers && s.callers[id].slot.None? then
        back.(callers := s.callers[id := s.callers[id].(slot := Some(worker.event), fills := s.callers[id].fills + 1)])
      else
        back   // the slot is full: a non-blocking send drops the event
    case FinishMessage(_) => s.(workers := s.workers[w := Idle])
    case Exit(_) => s.(workers := s.workers[w := Exited])
  }

  function Do(s: State, step: Step): State
    requires Enabled(s, step)
  {
    if IsCallerStep(step) then DoCaller(s, step, step.id)
    else if IsWorkerStep(step) then DoWorker(s, step, step.w)
    else
      match step
      case Arrive(id, awaits) =>
        s.(callers := s.callers[id := Caller(awaits, if awaits then Fresh else Tracked, None, 0)],
           idle := if s.source == Queue then Minus(s.idle) else s.idle)
      case BeginStop => s.(stop := Stopping)
      case ListenerExits => s.(idle := Minus(s.idle), wg := Minus(s.wg))
      case SourceStops => s.(stop := SourceStopped)
      case CloseChannel => s.(stop := ChannelClosed)
      case FinishStop => s.(stop := Stopped)
      case Resubscribe(subscribers) => s.(subscribers := subscribers)
  }

  ghost predicate Next(s: State, s': State) {
    exists step :: Enabled(s, step) && s' == Do(s, step)
  }

  ghost predicate Run(run: seq<State>) {
    && |run| > 0 && Init(run[0])
    && forall i :: 0 < i < |run| ==> Next(run[i - 1], run[i])
  }

  // ---- The invariant, one part at a time ----------------------------------------------

  /** A caller in this stage is counted by the source's wait group. */
  predicate Counted(via: Via, stage: Stage) {
    match via
    case ByName => false
    case Http => stage.Gated? || stage.Resolved? || stage.Releasing?
    case Queue => !stage.Returned?
  }

  function Holders(s: State): set<Id> {
    set id | id in s.callers && Counted(s.source, s.callers[id].stage)
  }

  /** The wait group counts exactly the goroutines that may still send. */
  predicate GateOk(s: State) {
    && s.wg == s.idle + |Holders(s)|
    && (s.source != Queue ==> s.idle == 0)
    && (s.stop != Running && s.stop != Stopping ==> s.wg == 0)
  }

  /** Exactly one started event, then exactly one terminal event. */
  predicate Complete(s: State, id: Id) {
    |Events(s, id)| == 2 && IsOutcomeOf(s, id, Events(s, id)[1])
  }

  predicate WorkerOk(s: State, w: nat)
    requires w < |s.workers|
  {
    match s.workers[w]
    case Idle => true
    case Exited => Closed(s) && s.taken == |s.accepted|
    case Holding(id) => Events(s, id) == []
    case Working(id) => Events(s, id) == [Started(id)]
    case Publishing(event, todo) =>
      event.Ended? && Events(s, event.id) == [Started(event.id), event] && Distinct(todo)
    case Delivering(event, todo) =>
      && event.Ended? && Events(s, event.id) == [Started(event.id), event] && Distinct(todo)
      && OWN !in todo
  }

  /** The worker's own message is one it took, and nobody else works on it. */
  predicate JobsOk(s: State) {
    && s.taken <= |s.accepted|
    && (forall w :: 0 <= w < |s.workers| && Job(s.workers[w]).Some? ==>
          Job(s.workers[w]).value in s.accepted[..s.taken])
    && (forall v, w :: 0 <= v < w < |s.workers| && Job(s.workers[v]).Some? ==>
          Job(s.workers[v]) != Job(s.workers[w]))
  }

  ghost predicate InHand(s: State, id: Id) {
    exists w :: 0 <= w < |s.workers| && Job(s.workers[w]) == Some(id)
  }

  /** An accepted message is queued and silent, in a worker's hand, or complete. */
  ghost predicate MessageOk(s: State, i: nat)
    requires i < |s.accepted|
  {
    var id := s.accepted[i];
    && id in s.callers
    && (i >= s.taken ==> Events(s, id) == [])
    && (i < s.taken ==> InHand(s, id) || Complete(s, id))
  }

  predicate ChannelOk(s: State) {
    && |s.workers| >= 1 && s.capacity >= 1 && s.taken <= |s.accepted| && Distinct(s.accepted)
    && (forall id :: id in s.trace ==> id in s.accepted)
    && (forall id :: id in s.pending ==> id in s.callers)
    && (s.stop == Stopped ==> forall w :: 0 <= w < |s.workers| ==> s.workers[w] == Exited)
    && OWN in s.subscribers && Distinct(s.subscribers)
  }

  predicate Registered(c: Caller) {
    c.awaits && (c.stage.Tracked? || c.stage.Resolved? || c.stage.Releasing? || c.stage.Waiting? || c.stage.Answering?)
  }

  predicate StageOk(s: State, c: Caller) {
    match c.stage
    case Fresh => c.awaits
    case Gated => s.source == Http && c.awaits
    case Tracked => s.source == ByName
    case Resolved => s.source != ByName ==> c.awaits
    case Releasing(_) => s.source == Http && c.awaits
    case Waiting => c.awaits
    case Answering(answer) => c.awaits && answer != Accepted
    case Returned(answer) => !c.awaits ==> !answer.Got?
    case Panicked => false
  }

  predicate Refusal(answer: Answer) {
    answer.Gone? || answer.NotRegistered? || answer.ShuttingDown? || answer.BadMessage?
  }

  /** The channel never took this caller's message. A fire-and-forget caller told it was cancelled
      gave up before the send. */
  predicate NotSent(c: Caller) {
    match c.stage
    case Fresh => true
    case Gated => true
    case Tracked => true
    case Resolved => true
    case Releasing(sent) => !sent
    case Answering(answer) => Refusal(answer)
    case Returned(answer) => Refusal(answer) || (!c.awaits && answer == Cancelled)
    case _ => false
  }

  predicate WasSent(stage: Stage) {
    stage == Releasing(true) || stage == Waiting || stage == Returned(Accepted)
  }

  function Delivered(stage: Stage): Option<Event> {
    match stage
    case Answering(Got(event)) => Some(event)
    case Returned(Got(event)) => Some(event)
    case _ => None
  }

  /** The event is the one outcome ever published for this message. */
  predicate IsOutcomeOf(s: State, id: Id, event: Event) {
    event.Ended? && event.id == id && Events(s, id) == [Started(id), event]
  }

  /** A caller's slot was filled at most once, with its own message's only outcome; what it
      took from the slot is that outcome. */
  predicate CallerOk(s: State, id: Id)
    requires id in s.callers
  {
    var c := s.callers[id];
    && StageOk(s, c)
    && (id in s.pending <==> Registered(c))
    && (NotSent(c) ==> id !in s.accepted)
    && (WasSent(c.stage) ==> id in s.accepted)
    && c.fills <= 1
    && (c.fills == 0 ==> c.slot.None? && Delivered(c.stage).None?)
    && (c.fills == 1 ==> c.slot.Some? != Delivered(c.stage).Some?)
    && (c.slot.Some? ==> IsOutcomeOf(s, id, c.slot.value))
    && (Delivered(c.stage).Some? ==> IsOutcomeOf(s, id, Delivered(c.stage).value))
  }

  /** A worker that has passed the source's handler has filled the slot of a caller that is
      still registered; one that has not leaves it empty. */
  predicate DeliveryOk(s: State, w: nat)
    requires w < |s.workers|
  {
    match s.workers[w]
    case Publishing(event, todo) =>
      && event.id in s.callers
      && (OWN in todo ==> s.callers[event.id].fills == 0)
      && (OWN !in todo && event.id in s.pending ==> s.callers[event.id].fills == 1)
    case Delivering(event, todo) => event.id in s.callers && s.callers[event.id].fills == 0
    case _ => true
  }

  /** A message whose worker has moved on left its outcome with a still registered caller. */
  ghost predicate SettledOk(s: State, id: Id)
    requires id in s.callers
  {
    id in s.pending && Events(s, id) != [] && !InHand(s, id) ==> s.callers[id].fills == 1
  }

  ghost predicate Inv(s: State) {
    && GateOk(s) && ChannelOk(s) && JobsOk(s)
    && (forall w :: 0 <= w < |s.workers| ==> WorkerOk(s, w) && DeliveryOk(s, w))
    && (forall i :: 0 <= i < |s.accepted| ==> MessageOk(s, i))
    && (forall id :: id in s.callers ==> CallerOk(s, id) && SettledOk(s, id))
  }

  lemma InitInv(s: State)
    requires Init(s)
    ensures Inv(s)
  {
    assert Holders(s) == {};
  }

  // ---- Caller steps ------------------------------------------------------------------

  /** Changing one caller changes the number of counted goroutines by that caller alone. */
  lemma HoldersChange(s: State, s': State, id: Id)
    requires s'.source == s.source && id in s.callers && id in s'.callers
    requires s'.callers == s.callers[id := s'.callers[id]]
    ensures var was, now := Counted(s.source, s.callers[id].stage), Counted(s.source, s'.callers[id].stage);
            |Holders(s')| == |Holders(s)| - (if was then 1 else 0) + (if now then 1 else 0)
  {
    var rest := Holders(s) - {id};
    assert Holders(s) == if Counted(s.source, s.callers[id].stage) then rest + {id} else rest;
    assert Holders(s') == if Counted(s.source, s'.callers[id].stage) then rest + {id} else rest;
  }

  lemma CallerKeepsGate(s: State, step: Step)
    requires GateOk(s) && IsCallerStep(step) && Enabled(s, step) && CallerOk(s, step.id)
    ensures GateOk(Do(s, step))
  {
    HoldersChange(s, Do(s, step), step.id);
    assert Counted(s.source, s.callers[step.id].stage) ==> step.id in Holders(s);
  }

  predicate BeforeSend(step: Step) {
    step.Acquire? || step.BuildFails? || step.Track? || step.Lookup? || step.AbandonSend?
  }

  lemma SendKeepsSelf(s: State, step: Step)
    requires GateOk(s) && step.Send? && Enabled(s, step) && CallerOk(s, step.id)
    ensures CallerOk(Do(s, step), step.id)
  {
    assert Counted(s.source, s.callers[step.id].stage) ==> step.id in Holders(s);
    assert step.id in s.accepted + [step.id];
  }

  lemma PrepareKeepsSelf(s: State, step: Step)
    requires BeforeSend(step) && Enabled(s, step) && CallerOk(s, step.id)
    ensures CallerOk(Do(s, step), step.id)
  {
  }

  lemma AwaitKeepsSelf(s: State, step: Step)
    requires IsCallerStep(step) && !BeforeSend(step) && !step.Send?
    requires Enabled(s, step) && CallerOk(s, step.id)
    ensures CallerOk(Do(s, step), step.id)
  {
  }

  lemma CallerKeepsSelf(s: State, step: Step)
    requires GateOk(s) && IsCallerStep(step) && Enabled(s, step) && CallerOk(s, step.id)
    ensures CallerOk(Do(s, step), step.id)
  {
    if step.Send? {
      SendKeepsSelf(s, step);
    } else if BeforeSend(step) {
      PrepareKeepsSelf(s, step);
    } else {
      AwaitKeepsSelf(s, step);
    }
  }

  /** What any caller step leaves alone: everything but the caller itself, its place among
      the registered ones and, for a send, its message at the end of the open channel. */
  predicate CallerFrame(s: State, s': State, id: Id) {
    && id in s.callers && id in s'.callers && s'.callers == s.callers[id := s'.callers[id]]
    && s'.callers[id].fills == s.callers[id].fills
    && (s'.pending == s.pending || s'.pending == s.pending - {id}
        || (s'.pending == s.pending + {id} && NotSent(s.callers[id])))
    && (s'.accepted == s.accepted
        || (s'.accepted == s.accepted + [id] && !Closed(s) && NotSent(s.callers[id])))
    && s'.source == s.source && s'.stop == s.stop && s'.taken == s.taken && s'.workers == s.workers
    && s'.trace == s.trace && s'.subscribers == s.subscribers && s'.capacity == s.capacity
  }

  lemma CallerStepFrame(s: State, step: Step)
    requires IsCallerStep(step) && Enabled(s, step)
    ensures CallerFrame(s, Do(s, step), step.id)
  {
  }

  lemma SameInHand(s: State, s': State, id: Id)
    requires s'.workers == s.workers
    ensures InHand(s', id) == InHand(s, id)
  {
    if InHand(s, id) {
      var w :| 0 <= w < |s.workers| && Job(s.workers[w]) == Some(id);
      assert Job(s'.workers[w]) == Some(id);
    }
  }

  lemma CallerKeepsOthers(s: State, s': State, self: Id, id: Id)
    requires Inv(s) && CallerFrame(s, s', self) && id in s.callers
    ensures id != self ==> CallerOk(s', id)
    ensures SettledOk(s', id)
  {
    assert CallerOk(s, id) && SettledOk(s, id);
    SameInHand(s, s', id);
  }

  lemma CallerKeepsWorkers(s: State, s': State, self: Id, w: nat)
    requires Inv(s) && CallerFrame(s, s', self) && w < |s.workers|
    ensures WorkerOk(s', w) && DeliveryOk(s', w)
  {
    assert WorkerOk(s, w) && DeliveryOk(s, w);
    assert CallerOk(s, self);
    if Job(s.workers[w]).Some? {
      assert Job(s.workers[w]).value in s.accepted;
    }
  }

  lemma CallerKeepsMessages(s: State, s': State, self: Id, i: nat)
    requires Inv(s) && CallerFrame(s, s', self) && i < |s'.accepted|
    ensures MessageOk(s', i)
  {
    SameInHand(s, s', s'.accepted[i]);
    if i < |s.accepted| {
      assert MessageOk(s, i);
    } else {
      assert CallerOk(s, self);
    }
  }

  lemma CallerKeepsChannel(s: State, s': State, self: Id)
    requires Inv(s) && CallerFrame(s, s', self)
    ensures ChannelOk(s') && JobsOk(s')
  {
    assert CallerOk(s, self);
    assert s'.accepted[..s'.taken] == s.accepted[..s.taken];
  }

  lemma CallerStepInv(s: State, step: Step)
    requires Inv(s) && IsCallerStep(step) && Enabled(s, step)
    ensures Inv(Do(s, step))
  {
    var s', self := Do(s, step), step.id;
    assert CallerOk(s, self);
    CallerStepFrame(s, step);
    CallerKeepsGate(s, step);
    CallerKeepsSelf(s, step);
    CallerKeepsChannel(s, s', self);
    forall id | id in s'.callers ensures CallerOk(s', id) && SettledOk(s', id) {
      CallerKeepsOthers(s, s', self, id);
    }
    forall w | 0 <= w < |s'.workers| ensures WorkerOk(s', w) && DeliveryOk(s', w) {
      CallerKeepsWorkers(s, s', self, w);
    }
    forall i | 0 <= i < |s'.accepted| ensures MessageOk(s', i) {
      CallerKeepsMessages(s, s', self, i);
    }
  }

  // ---- Worker steps ------------------------------------------------------------------

  /** The message a worker step is about. */
  function Subject(s: State, step: Step): Option<Id>
    requires IsWorkerStep(step) && Enabled(s, step)
  {
    if step.Take? then Some(s.accepted[s.taken]) else Job(s.workers[step.w])
  }

  /** What any worker step leaves alone: the other workers, the other messages' events and
      slots, and every caller's stage. */
  ghost predicate WorkerFrame(s: State, s': State, w: nat, subject: Option<Id>) {
    && w < |s.workers| == |s'.workers| && s'.workers == s.workers[w := s'.workers[w]]
    && s'.source == s.source && s'.stop == s.stop && s'.pending == s.pending && s'.accepted == s.accepted
    && s'.wg == s.wg && s'.idle == s.idle && s'.subscribers == s.subscribers && s'.capacity == s.capacity
    && s'.callers.Keys == s.callers.Keys
    && (forall id :: id in s.callers ==>
          && s'.callers[id].stage == s.callers[id].stage && s'.callers[id].awaits == s.callers[id].awaits
          && (subject != Some(id) ==> s'.callers[id] == s.callers[id]))
    && (forall id: Id :: subject != Some(id) ==> Events(s', id) == Events(s, id))
    && s.taken <= s'.taken <= s.taken + 1
    && (s'.taken == s.taken ==>
          && subject == Job(s.workers[w])
          && (Job(s'.workers[w]).None? || Job(s'.workers[w]) == subject))
    && (s'.taken > s.taken ==>
          && s.workers[w] == Idle && s.taken < |s.accepted|
          && subject == Some(s.accepted[s.taken]) == Job(s'.workers[w]))
    && (forall id :: id in s'.trace ==> id in s.trace || subject == Some(id))
  }

  lemma PublishFrame(s: State, step: Step)
    requires (step.Take? || step.PublishStarted? || step.PublishEnded?) && Enabled(s, step)
    ensures WorkerFrame(s, Do(s, step), step.w, Subject(s, step))
  {
  }

  lemma HandlerFrame(s: State, step: Step)
    requires (step.CallHandler? || step.Deliver? || step.FinishMessage? || step.Exit?) && Enabled(s, step)
    ensures WorkerFrame(s, Do(s, step), step.w, Subject(s, step))
  {
  }

  lemma WorkerStepFrame(s: State, step: Step)
    requires IsWorkerStep(step) && Enabled(s, step)
    ensures WorkerFrame(s, Do(s, step), step.w, Subject(s, step))
  {
    if step.Take? || step.PublishStarted? || step.PublishEnded? {
      PublishFrame(s, step);
    } else {
      HandlerFrame(s, step);
    }
  }

  /** The subject's own part: its events, its slot and the worker's new stage agree. */
  predicate SubjectOk(s: State, s': State, w: nat, id: Id)
    requires w < |s'.workers|
  {
    && id in s.callers && id in s'.callers && CallerOk(s', id)
    && WorkerOk(s', w) && DeliveryOk(s', w)
    && (Job(s'.workers[w]).None? ==>
          Complete(s', id) && (id in s'.pending ==> s'.callers[id].fills == 1))
  }

  lemma SubjectIsAccepted(s: State, step: Step)
    requires Inv(s) && IsWorkerStep(step) && Enabled(s, step) && Subject(s, step).Some?
    ensures Subject(s, step).value in s.accepted
    ensures Subject(s, step).value in s.callers
    ensures step.Take? ==> Events(s, Subject(s, step).value) == []
  {
    var id := Subject(s, step).value;
    if step.Take? {
      assert MessageOk(s, s.taken);
    } else {
      var i :| 0 <= i < s.taken && s.accepted[i] == id;
      assert MessageOk(s, i);
    }
  }

  ghost predicate SubjectReady(s: State, step: Step)
    requires IsWorkerStep(step) && Enabled(s, step) && Subject(s, step).Some?
  {
    var id := Subject(s, step).value;
    && id in s.callers && id in s.accepted
    && CallerOk(s, id) && WorkerOk(s, step.w) && DeliveryOk(s, step.w)
    && (step.Take? ==> Events(s, id) == [])
    && OWN in s.subscribers && Distinct(s.subscribers)
  }

  lemma PublishKeepsSubject(s: State, step: Step)
    requires step.Take? || step.PublishStarted? || step.PublishEnded?
    requires Enabled(s, step) && Subject(s, step).Some? && SubjectReady(s, step)
    ensures SubjectOk(s, Do(s, step), step.w, Subject(s, step).value)
  {
  }

  lemma HandlersKeepSubject(s: State, step: Step)
    requires step.CallHandler? || step.Deliver? || step.FinishMessage?
    requires Enabled(s, step) && Subject(s, step).Some? && SubjectReady(s, step)
    ensures SubjectOk(s, Do(s, step), step.w, Subject(s, step).value)
  {
    if step.CallHandler? {
      var todo := s.workers[step.w].todo;
      assert todo == [todo[0]] + todo[1..];
    }
  }

  lemma WorkerKeepsSubject(s: State, step: Step)
    requires IsWorkerStep(step) && Enabled(s, step) && Subject(s, step).Some? && SubjectReady(s, step)
    ensures SubjectOk(s, Do(s, step), step.w, Subject(s, step).value)
  {
    if step.Take? || step.PublishStarted? || step.PublishEnded? {
      PublishKeepsSubject(s, step);
    } else {
      HandlersKeepSubject(s, step);
    }
  }

  /** A message stays in the hand of whoever holds it, except the subject's holder. */
  lemma OthersStayInHand(s: State, s': State, w: nat, subject: Option<Id>, id: Id)
    requires WorkerFrame(s, s', w, subject) && InHand(s, id)
    ensures InHand(s', id) || (subject == Some(id) && Job(s'.workers[w]).None?)
  {
    var v :| 0 <= v < |s.workers| && Job(s.workers[v]) == Some(id);
    assert v != w ==> Job(s'.workers[v]) == Some(id);
    assert v == w ==> Job(s'.workers[w]).None? || Job(s'.workers[w]) == Some(id);
  }

  /** The subject is in the worker's hand afterwards, or was let go. */
  lemma SubjectInHand(s: State, s': State, w: nat, id: Id)
    requires WorkerFrame(s, s', w, Some(id)) && Job(s'.workers[w]).Some?
    ensures InHand(s', id)
  {
    assert Job(s'.workers[w]) == Some(id);
  }

  lemma WorkerKeepsMessages(s: State, s': State, w: nat, subject: Option<Id>, i: nat)
    requires Inv(s) && WorkerFrame(s, s', w, subject) && i < |s.accepted|
    requires subject.Some? ==> SubjectOk(s, s', w, subject.value)
    requires subject.Some? && s'.taken == s.taken ==> subject.value in s.accepted[..s.taken]
    ensures MessageOk(s', i)
  {
    var id := s.accepted[i];
    assert MessageOk(s, i);
    if subject == Some(id) {
      if Job(s'.workers[w]).Some? {
        SubjectInHand(s, s', w, id);
      }
    } else {
      if InHand(s, id) {
        OthersStayInHand(s, s', w, subject, id);
      }
    }
  }

  lemma WorkerKeepsCallers(s: State, s': State, w: nat, subject: Option<Id>, id: Id)
    requires Inv(s) && WorkerFrame(s, s', w, subject) && id in s.callers
    requires subject.Some? ==> SubjectOk(s, s', w, subject.value)
    ensures CallerOk(s', id) && SettledOk(s', id)
  {
    assert CallerOk(s, id) && SettledOk(s, id);
    if subject == Some(id) {
      if Job(s'.workers[w]).Some? {
        SubjectInHand(s, s', w, id);
      }
    } else if InHand(s, id) {
      OthersStayInHand(s, s', w, subject, id);
    }
  }

  lemma WorkerKeepsJobs(s: State, s': State, w: nat, subject: Option<Id>)
    requires Inv(s) && WorkerFrame(s, s', w, subject)
    requires subject.Some? ==> subject.value in s.accepted
    requires s.stop == Stopped ==> s'.workers[w] == Exited
    ensures ChannelOk(s') && JobsOk(s')
  {
    assert s.taken <= |s.accepted|;
    forall v | 0 <= v < |s'.workers| && Job(s'.workers[v]).Some?
      ensures Job(s'.workers[v]).value in s'.accepted[..s'.taken]
    {
      if v != w || s'.taken == s.taken {
        var i :| 0 <= i < s.taken && s.accepted[i] == Job(s'.workers[v]).value;
        assert s'.accepted[..s'.taken][i] == Job(s'.workers[v]).value;
      } else {
        assert s'.accepted[..s'.taken][s.taken] == Job(s'.workers[v]).value;
      }
    }
    forall u, v | 0 <= u < v < |s'.workers| && Job(s'.workers[u]).Some?
      ensures Job(s'.workers[u]) != Job(s'.workers[v])
    {
      FreshJob(s, s', w, subject, if u == w then v else u);
    }
  }

  /** The message a worker takes is in no other worker's hand. */
  lemma FreshJob(s: State, s': State, w: nat, subject: Option<Id>, v: nat)
    requires Inv(s) && WorkerFrame(s, s', w, subject) && v < |s.workers|
    ensures v != w && Job(s.workers[v]).Some? ==> Job(s'.workers[w]) != Job(s.workers[v])
  {
    if v != w && Job(s.workers[v]).Some? && s'.taken > s.taken {
      var i :| 0 <= i < s.taken && s.accepted[i] == Job(s.workers[v]).value;
      assert s.accepted[i] != s.accepted[s.taken];
    }
  }

  lemma WorkerKeepsWorkers(s: State, s': State, w: nat, subject: Option<Id>, v: nat)
    requires Inv(s) && WorkerFrame(s, s', w, subject) && v < |s.workers| && v != w
    ensures WorkerOk(s', v) && DeliveryOk(s', v)
  {
    assert WorkerOk(s, v) && DeliveryOk(s, v);
    if Job(s.workers[v]).Some? {
      FreshJob(s, s', w, subject, v);
      assert subject != Job(s.workers[v]);
    }
  }

  lemma WorkerKeepsGate(s: State, s': State, w: nat, subject: Option<Id>)
    requires GateOk(s) && WorkerFrame(s, s', w, subject)
    ensures GateOk(s')
  {
    assert Holders(s') == Holders(s);
  }

  lemma WorkerFrameInv(s: State, s': State, w: nat, subject: Option<Id>)
    requires Inv(s) && WorkerFrame(s, s', w, subject) && ChannelOk(s') && JobsOk(s')
    requires WorkerOk(s', w) && DeliveryOk(s', w)
    requires subject.Some? ==> SubjectOk(s, s', w, subject.value)
    requires subject.Some? && s'.taken == s.taken ==> subject.value in s.accepted[..s.taken]
    ensures Inv(s')
  {
    WorkerKeepsGate(s, s', w, subject);
    forall id | id in s'.callers ensures CallerOk(s', id) && SettledOk(s', id) {
      WorkerKeepsCallers(s, s', w, subject, id);
    }
    forall v | 0 <= v < |s'.workers| ensures WorkerOk(s', v) && DeliveryOk(s', v) {
      if v != w {
        WorkerKeepsWorkers(s, s', w, subject, v);
      }
    }
    forall i | 0 <= i < |s'.accepted| ensures MessageOk(s', i) {
      WorkerKeepsMessages(s, s', w, subject, i);
    }
  }

  lemma ExitInv(s: State, step: Step)
    requires Inv(s) && step.Exit? && Enabled(s, step)
    ensures Inv(Do(s, step))
  {
    var s', w := Do(s, step), step.w;
    HandlerFrame(s, step);
    WorkerKeepsJobs(s, s', w, None);
    WorkerFrameInv(s, s', w, None);
  }

  lemma SubjectStepInv(s: State, step: Step)
    requires Inv(s) && IsWorkerStep(step) && !step.Exit? && Enabled(s, step)
    ensures Inv(Do(s, step))
  {
    var s', w, subject := Do(s, step), step.w, Subject(s, step);
    WorkerStepFrame(s, step);
    SubjectIsAccepted(s, step);
    assert WorkerOk(s, w) && DeliveryOk(s, w) && CallerOk(s, subject.value);
    WorkerKeepsSubject(s, step);
    WorkerKeepsJobs(s, s', w, subject);
    WorkerFrameInv(s, s', w, subject);
  }

  lemma WorkerStepInv(s: State, step: Step)
    requires Inv(s) && IsWorkerStep(step) && Enabled(s, step)
    ensures Inv(Do(s, step))
  {
    if step.Exit? {
      ExitInv(s, step);
    } else {
      SubjectStepInv(s, step);
    }
  }

  // ---- Arrivals, shutdown, subscriptions ---------------------------------------------

  /** Nothing the messages or the existing callers depend on changes. */
  ghost predicate Quiet(s: State, s': State) {
    && s'.source == s.source && s'.pending == s.pending && s'.accepted == s.accepted && s'.taken == s.taken
    && s'.workers == s.workers && s'.trace == s.trace && (Closed(s) ==> Closed(s'))
    && (forall id :: id in s.callers ==> id in s'.callers && s'.callers[id] == s.callers[id])
  }

  lemma QuietKeepsParts(s: State, s': State)
    requires Inv(s) && Quiet(s, s')
    ensures forall w :: 0 <= w < |s'.workers| ==> WorkerOk(s', w) && DeliveryOk(s', w)
    ensures forall i :: 0 <= i < |s'.accepted| ==> MessageOk(s', i)
    ensures forall id :: id in s.callers ==> CallerOk(s', id) && SettledOk(s', id)
  {
    forall w | 0 <= w < |s'.workers| ensures WorkerOk(s', w) && DeliveryOk(s', w) {
      assert WorkerOk(s, w) && DeliveryOk(s, w);
    }
    forall i | 0 <= i < |s'.accepted| ensures MessageOk(s', i) {
      assert MessageOk(s, i);
      SameInHand(s, s', s.accepted[i]);
    }
    forall id | id in s.callers ensures CallerOk(s', id) && SettledOk(s', id) {
      assert CallerOk(s, id) && SettledOk(s, id);
      SameInHand(s, s', id);
    }
  }

  lemma ArriveKeepsGate(s: State, step: Step)
    requires GateOk(s) && step.Arrive? && Enabled(s, step)
    ensures GateOk(Do(s, step))
  {
    assert Holders(Do(s, step)) == if s.source == Queue then Holders(s) + {step.id} else Holders(s);
  }

  lemma UnknownIsUnsent(s: State, id: Id)
    requires Inv(s) && id !in s.callers
    ensures id !in s.accepted && id !in s.pending && Events(s, id) == []
  {
    forall i | 0 <= i < |s.accepted| ensures s.accepted[i] != id {
      assert MessageOk(s, i);
    }
  }

  lemma ArriveInv(s: State, step: Step)
    requires Inv(s) && step.Arrive? && Enabled(s, step)
    ensures Inv(Do(s, step))
  {
    ArriveKeepsGate(s, step);
    UnknownIsUnsent(s, step.id);
    QuietKeepsParts(s, Do(s, step));
  }

  lemma ControlInv(s: State, step: Step)
    requires Inv(s) && Enabled(s, step) && !step.Arrive? && !IsCallerStep(step) && !IsWorkerStep(step)
    ensures Inv(Do(s, step))
  {
    var s' := Do(s, step);
    assert Holders(s') == Holders(s);
    QuietKeepsParts(s, s');
  }

  /** Every atomic action of every goroutine keeps the invariant. */
  lemma StepInv(s: State, step: Step)
    requires Inv(s) && Enabled(s, step)
    ensures Inv(Do(s, step))
  {
    if IsCallerStep(step) {
      CallerStepInv(s, step);
    } else if IsWorkerStep(step) {
      WorkerStepInv(s, step);
    } else if step.Arrive? {
      ArriveInv(s, step);
    } else {
      ControlInv(s, step);
    }
  }

  function Last(run: seq<State>): State
    requires |run| > 0
  {
    run[|run| - 1]
  }

  lemma {:induction false} RunInv(run: seq<State>)
    requires Run(run)
    ensures Inv(Last(run))
  {
    if |run| == 1 {
      InitInv(run[0]);
    } else {
      var before := run[..|run| - 1];
      RunInv(before);
      assert Next(run[|run| - 2], run[|run| - 1]);
      var step :| Enabled(Last(before), step) && Last(run) == Do(Last(before), step);
      StepInv(Last(before), step);
    }
  }

  // ---- Theorems ----------------------------------------------------------------------

  /** A caller that returned an outcome returned the one terminal event ever published for
      the message it sent, and its slot was never offered a second one. */
  lemma OnlyOwnOutcome(run: seq<State>, id: Id)
    requires Run(run) && id in Last(run).callers
    ensures Last(run).callers[id].fills <= 1
    ensures forall event :: Last(run).callers[id].stage == Returned(Got(event)) ==> IsOutcomeOf(Last(run), id, event)
  {
    RunInv(run);
    assert CallerOk(Last(run), id);
  }

  /** The non-blocking send never drops an outcome: whenever a worker is about to deliver,
      the slot is empty and has never been filled. */
  lemma DeliveryNeverDropped(run: seq<State>, w: nat)
    requires Run(run) && w < |Last(run).workers| && Last(run).workers[w].Delivering?
    ensures var s := Last(run);
            var id := s.workers[w].event.id;
            id in s.callers && s.callers[id].slot.None? && s.callers[id].fills == 0
  {
    RunInv(run);
    assert DeliveryOk(Last(run), w);
    assert CallerOk(Last(run), Last(run).workers[w].event.id);
  }

  /** An outcome published before the caller forgets is never lost: once no worker holds a
      message that was started, a caller still parked on it has the outcome in its slot. */
  lemma OutcomeNotLost(run: seq<State>, id: Id)
    requires Run(run) && id in Last(run).callers && Last(run).callers[id].stage == Waiting
    requires Events(Last(run), id) != [] && !InHand(Last(run), id)
    ensures Last(run).callers[id].slot.Some? && IsOutcomeOf(Last(run), id, Last(run).callers[id].slot.value)
  {
    RunInv(run);
    assert CallerOk(Last(run), id) && SettledOk(Last(run), id);
  }

  /** When stop has returned, every message the channel accepted had exactly one started
      event followed by exactly one terminal event, and nothing else was ever published. */
  lemma StopDrains(run: seq<State>)
    requires Run(run) && Last(run).stop == Stopped
    ensures forall i :: 0 <= i < |Last(run).accepted| ==> Complete(Last(run), Last(run).accepted[i])
    ensures forall id :: id in Last(run).trace ==> id in Last(run).accepted
  {
    RunInv(run);
    var s := Last(run);
    forall i | 0 <= i < |s.accepted| ensures Complete(s, s.accepted[i]) {
      assert MessageOk(s, i);
      assert WorkerOk(s, 0);
    }
  }

  /** Once the source has stopped, no HTTP request and no queue handler is at its send, so
      the close that follows meets no sender; no send ever panics. */
  lemma NoSenderAfterStop(run: seq<State>, id: Id)
    requires Run(run) && id in Last(run).callers
    ensures Last(run).callers[id].stage != Panicked
    ensures Last(run).source != ByName && Last(run).stop != Running && Last(run).stop != Stopping ==>
              Last(run).callers[id].stage != Resolved
  {
    RunInv(run);
    var s := Last(run);
    assert CallerOk(s, id);
    assert Counted(s.source, s.callers[id].stage) ==> id in Holders(s);
  }

  /** A send that races the close: a message the channel took is complete once stop has
      returned, a caller told of a refusal knows its message was never seen, and a
      fire-and-forget caller is told of acceptance exactly when its message was accepted. */
  lemma SendAllOrNothing(run: seq<State>, id: Id)
    requires Run(run) && Last(run).stop == Stopped && id in Last(run).callers
    ensures id in Last(run).accepted ==> Complete(Last(run), id)
    ensures id !in Last(run).accepted ==> Events(Last(run), id) == []
    ensures forall answer :: Last(run).callers[id].stage == Returned(answer) && Refusal(answer) ==>
              id !in Last(run).accepted
    ensures forall answer :: Last(run).callers[id].stage == Returned(answer) && !Last(run).callers[id].awaits ==>
              (id in Last(run).accepted <==> answer == Accepted)
  {
    StopDrains(run);
    RunInv(run);
    assert CallerOk(Last(run), id);
  }

  // ---- The drain makes progress ------------------------------------------------------

  /** How many steps a worker is at most away from exiting, if it takes no further message and the
      bus never has more than `cap` subscribers. */
  function Rank(worker: Worker, cap: nat): nat {
    match worker
    case Exited => 0
    case Idle => 1
    case Publishing(_, todo) => 2 + 2 * |todo|
    case Delivering(_, todo) => 3 + 2 * |todo|
    case Working(_) => 3 + 2 * cap
    case Holding(_) => 4 + 2 * cap
  }

  function TotalRank(workers: seq<Worker>, cap: nat): nat {
    if workers == [] then 0 else Rank(workers[0], cap) + TotalRank(workers[1..], cap)
  }

  /** The steps that `n` queued messages cost: taking one, and what a worker holding it has left. */
  function Backlog(n: nat, cap: nat): nat {
    if n == 0 then 0 else 4 + 2 * cap + Backlog(n - 1, cap)
  }

  /** The worker steps left: a fixed number per queued message, and what the workers have in hand. */
  function WorkLeft(s: State, cap: nat): nat
    requires s.taken <= |s.accepted|
  {
    Backlog(|s.accepted| - s.taken, cap) + TotalRank(s.workers, cap)
  }

  lemma {:induction false} TotalRankUpdate(workers: seq<Worker>, w: nat, worker: Worker, cap: nat)
    requires w < |workers|
    ensures TotalRank(workers[w := worker], cap) == TotalRank(workers, cap) - Rank(workers[w], cap) + Rank(worker, cap)
    decreases |workers|
  {
    if w > 0 {
      assert workers[w := worker][1..] == workers[1..][w - 1 := worker];
      TotalRankUpdate(workers[1..], w - 1, worker, cap);
    } else {
      assert workers[w := worker][1..] == workers[1..];
    }
  }

  /** Every worker action, delivery to a slow or absent caller included, leaves less work. */
  lemma WorkerStepUsesWork(s: State, step: Step, cap: nat)
    requires s.taken <= |s.accepted| && |s.subscribers| <= cap && IsWorkerStep(step) && Enabled(s, step)
    ensures Do(s, step).taken <= |Do(s, step).accepted|
    ensures WorkLeft(Do(s, step), cap) < WorkLeft(s, cap)
  {
    var s' := Do(s, step);
    assert s'.workers == s.workers[step.w := s'.workers[step.w]] && s'.accepted == s.accepted;
    TotalRankUpdate(s.workers, step.w, s'.workers[step.w], cap);
    RankFalls(s, step, cap);
    BacklogFalls(|s.accepted| - s.taken, cap);
  }

  /** A worker's rank falls with every step, except that taking a message raises it by less than
      that message added to the backlog. */
  lemma RankFalls(s: State, step: Step, cap: nat)
    requires |s.subscribers| <= cap && IsWorkerStep(step) && Enabled(s, step)
    ensures var s' := Do(s, step);
      if step.Take? then s'.taken == s.taken + 1 && Rank(s'.workers[step.w], cap) < Rank(s.workers[step.w], cap) + 4 + 2 * cap
      else s'.taken == s.taken && Rank(s'.workers[step.w], cap) < Rank(s.workers[step.w], cap)
  {
  }

  lemma BacklogFalls(n: nat, cap: nat)
    ensures n > 0 ==> Backlog(n, cap) == Backlog(n - 1, cap) + 4 + 2 * cap
  {
  }

  /** These steps can be taken from `s`, one after another, and no resubscription among them puts
      more than `cap` subscribers on the bus. */
  predicate Executes(s: State, steps: seq<Step>, cap: nat)
    decreases |steps|
  {
    steps == [] ||
    (Enabled(s, steps[0]) && (steps[0].Resubscribe? ==> |steps[0].subscribers| <= cap)
     && Executes(Do(s, steps[0]), steps[1..], cap))
  }

  function WorkerSteps(steps: seq<Step>): nat {
    if steps == [] then 0 else (if IsWorkerStep(steps[0]) then 1 else 0) + WorkerSteps(steps[1..])
  }

  predicate Draining(s: State, cap: nat) {
    Closed(s) && s.taken <= |s.accepted| && |s.subscribers| <= cap
  }

  /** After the close nothing adds work: the channel takes no message. */
  lemma ClosedStepAddsNoWork(s: State, step: Step, cap: nat)
    requires Draining(s, cap) && Enabled(s, step) && (step.Resubscribe? ==> |step.subscribers| <= cap)
    ensures Draining(Do(s, step), cap)
    ensures WorkLeft(Do(s, step), cap) + (if IsWorkerStep(step) then 1 else 0) <= WorkLeft(s, cap)
  {
    if IsWorkerStep(step) {
      WorkerStepUsesWork(s, step, cap);
    }
  }

  lemma {:induction false} WorkBoundsSteps(s: State, steps: seq<Step>, cap: nat)
    requires Draining(s, cap) && Executes(s, steps, cap)
    ensures WorkerSteps(steps) <= WorkLeft(s, cap)
    decreases |steps|
  {
    if steps != [] {
      ClosedStepAddsNoWork(s, steps[0], cap);
      WorkBoundsSteps(Do(s, steps[0]), steps[1..], cap);
    }
  }

  /** The drain is bounded: from any point of any run at which the channel is closed, whatever
      callers, shutdown and subscribers do meanwhile, the workers take at most as many steps as
      there is work left. The number of subscribers on the bus is a parameter of the bound. */
  lemma DrainBounded(run: seq<State>, steps: seq<Step>, cap: nat)
    requires Run(run) && Closed(Last(run)) && |Last(run).subscribers| <= cap && Executes(Last(run), steps, cap)
    ensures Last(run).taken <= |Last(run).accepted| && WorkerSteps(steps) <= WorkLeft(Last(run), cap)
  {
    RunInv(run);
    WorkBoundsSteps(Last(run), steps, cap);
  }

  /** A step that winds the source down and waits for no worker and no room in the channel. */
  predicate WindsDown(step: Step) {
    step.SourceStops? || step.ListenerExits? || (IsCallerStep(step) && !step.Send? && !step.Receive?)
  }

  /** What a caller counted by the source's wait group can do next without anyone's help. */
  function WayOut(s: State, id: Id): Step
    requires id in s.callers
  {
    match s.callers[id].stage
    case Resolved => AbandonSend(id)
    case Releasing(_) => ReleaseToken(id)
    case Waiting => AbandonWait(id)
    case Answering(_) => Forget(id)
    case _ => Track(id)
  }

  /** Before the close the source is never stuck either: while it is stopping, it can report that
      it stopped, a listener can leave, or some caller it waits for can move on by itself. */
  lemma StopNeverStuck(run: seq<State>)
    requires Run(run) && Last(run).stop == Stopping
    ensures exists step :: WindsDown(step) && Enabled(Last(run), step)
  {
    RunInv(run);
    var s := Last(run);
    if s.wg == 0 {
      assert WindsDown(SourceStops) && Enabled(s, SourceStops);
    } else if s.idle > 0 {
      assert WindsDown(ListenerExits) && Enabled(s, ListenerExits);
    } else {
      assert Holders(s) != {};
      var id :| id in Holders(s);
      assert CallerOk(s, id);
      assert WindsDown(WayOut(s, id)) && Enabled(s, WayOut(s, id));
    }
  }

  /** After the close the drain is never stuck: stop can return, or some worker can act. */
  lemma DrainNeverStuck(s: State)
    requires s.stop == ChannelClosed && s.taken <= |s.accepted|
    ensures Enabled(s, FinishStop) || exists step :: IsWorkerStep(step) && Enabled(s, step)
  {
    if !Enabled(s, FinishStop) {
      var w: nat :| w < |s.workers| && s.workers[w] != Exited;
      var step := match s.workers[w]
        case Idle => if s.taken < |s.accepted| then Take(w) else Exit(w)
        case Holding(_) => PublishStarted(w)
        case Working(id) => PublishEnded(w, Dropped(Message(id, "")))
        case Publishing(_, todo) => if todo == [] then FinishMessage(w) else CallHandler(w)
        case _ => Deliver(w);
      assert IsWorkerStep(step) && Enabled(s, step);
    }
  }

  // ---- A running flow serves its callers -----------------------------------------------

  /** A step of this caller or of this worker, and of nobody else. */
  predicate Mine(step: Step, id: Id, w: nat) {
    || ((step.Arrive? || IsCallerStep(step)) && step.id == id)
    || (IsWorkerStep(step) && step.w == w)
  }

  /** The steps can be taken one after another, each by this caller or this worker, and leave the
      caller at `end` and the worker free again, having published exactly the outcome `event`. */
  predicate Serves(s: State, steps: seq<Step>, id: Id, w: nat, end: Stage, event: Event)
    decreases |steps|
  {
    if steps == [] then
      && id in s.callers && s.callers[id].stage == end && w < |s.workers| && s.workers[w] == Idle
      && Events(s, id) == [Started(id), event]
    else
      Mine(steps[0], id, w) && Enabled(s, steps[0]) && Serves(Do(s, steps[0]), steps[1..], id, w, end, event)
  }

  lemma ServesFirst(s: State, step: Step, rest: seq<Step>, id: Id, w: nat, end: Stage, event: Event)
    requires Mine(step, id, w) && Enabled(s, step) && Serves(Do(s, step), rest, id, w, end, event)
    ensures Serves(s, [step] + rest, id, w, end, event)
  {
    assert ([step] + rest)[1..] == rest;
  }

  /** Where a served caller ends: with the outcome, or, if it does not wait, with acceptance. */
  function Reached(awaits: bool, event: Event): Stage {
    Returned(if awaits then Got(event) else Accepted)
  }

  /** The caller's message is published and its outcome is on its way: it is in the slot once the
      worker has passed the source's handler. */
  predicate OnItsWay(s: State, id: Id, w: nat, event: Event, todo: seq<Handler>) {
    && id in s.callers && event.id == id && w < |s.workers| && s.workers[w] == Publishing(event, todo)
    && Events(s, id) == [Started(id), event]
    && if s.callers[id].awaits then
         && s.callers[id].stage == Waiting && id in s.pending
         && s.callers[id].slot == (if OWN in todo then None else Some(event))
       else
         s.callers[id].stage == Returned(Accepted) && id !in s.pending
  }

  lemma {:induction false} ServePublished(s: State, id: Id, w: nat, event: Event, todo: seq<Handler>)
    returns (steps: seq<Step>)
    requires OnItsWay(s, id, w, event, todo) && Distinct(todo)
    ensures Serves(s, steps, id, w, Reached(s.callers[id].awaits, event), event)
    decreases |todo|
  {
    var end := Reached(s.callers[id].awaits, event);
    if todo == [] {
      steps := ServeDelivered(s, id, w, event);
    } else {
      assert todo == [todo[0]] + todo[1..];
      var called := Do(s, CallHandler(w));
      if called.workers[w].Delivering? {
        var rest := ServePublished(Do(called, Deliver(w)), id, w, event, todo[1..]);
        ServesFirst(called, Deliver(w), rest, id, w, end, event);
        steps := [Deliver(w)] + rest;
      } else {
        steps := ServePublished(called, id, w, event, todo[1..]);
      }
      ServesFirst(s, CallHandler(w), steps, id, w, end, event);
      steps := [CallHandler(w)] + steps;
    }
  }

  lemma ServeDelivered(s: State, id: Id, w: nat, event: Event) returns (steps: seq<Step>)
    requires OnItsWay(s, id, w, event, [])
    ensures Serves(s, steps, id, w, Reached(s.callers[id].awaits, event), event)
  {
    var end := Reached(s.callers[id].awaits, event);
    var free := Do(s, FinishMessage(w));
    if s.callers[id].awaits {
      var got := Do(free, Receive(id));
      assert Serves(Do(got, Forget(id)), [], id, w, end, event);
      ServesFirst(got, Forget(id), [], id, w, end, event);
      ServesFirst(free, Receive(id), [Forget(id)], id, w, end, event);
      steps := [Receive(id), Forget(id)];
      assert steps == [Receive(id)] + [Forget(id)];
    } else {
      steps := [];
    }
    ServesFirst(s, FinishMessage(w), steps, id, w, end, event);
    steps := [FinishMessage(w)] + steps;
  }

  /** The message is the next one in the channel and the worker is free. */
  predicate Sent(s: State, id: Id, w: nat) {
    && id in s.callers && s.callers[id].slot == None && w < |s.workers| && s.workers[w] == Idle
    && s.taken < |s.accepted| && s.accepted[s.taken] == id && Events(s, id) == []
    && OWN in s.subscribers && Distinct(s.subscribers)
    && if s.callers[id].awaits then s.callers[id].stage == Waiting && id in s.pending
       else s.callers[id].stage == Returned(Accepted) && id !in s.pending
  }

  lemma ServeSent(s: State, id: Id, w: nat, outcome: Outcome) returns (steps: seq<Step>)
    requires Sent(s, id, w)
    ensures Serves(s, steps, id, w, Reached(s.callers[id].awaits, Ended(id, outcome)), Ended(id, outcome))
  {
    var event := Ended(id, outcome);
    var end := Reached(s.callers[id].awaits, event);
    var held := Do(s, Take(w));
    var worked := Do(held, PublishStarted(w));
    var published := Do(worked, PublishEnded(w, outcome));
    steps := ServePublished(published, id, w, event, s.subscribers);
    ServesFirst(worked, PublishEnded(w, outcome), steps, id, w, end, event);
    steps := [PublishEnded(w, outcome)] + steps;
    ServesFirst(held, PublishStarted(w), steps, id, w, end, event);
    steps := [PublishStarted(w)] + steps;
    ServesFirst(s, Take(w), steps, id, w, end, event);
    steps := [Take(w)] + steps;
  }

  /** The channel is open and empty, the worker is free, and nothing was published for `id`. */
  predicate Calm(s: State, id: Id, w: nat) {
    && s.stop == Running && s.capacity >= 1 && s.taken == |s.accepted|
    && w < |s.workers| && s.workers[w] == Idle && Events(s, id) == []
    && OWN in s.subscribers && Distinct(s.subscribers)
  }

  lemma ServeResolved(s: State, id: Id, w: nat, outcome: Outcome) returns (steps: seq<Step>)
    requires Calm(s, id, w) && id in s.callers && s.callers[id].stage == Resolved && s.callers[id].slot == None
    requires (s.callers[id].awaits <==> id in s.pending) && (s.source != ByName ==> s.callers[id].awaits)
    ensures Serves(s, steps, id, w, Reached(s.callers[id].awaits, Ended(id, outcome)), Ended(id, outcome))
  {
    var event := Ended(id, outcome);
    var end := Reached(s.callers[id].awaits, event);
    var sent := Do(s, Send(id));
    if s.source == Http {
      steps := ServeSent(Do(sent, ReleaseToken(id)), id, w, outcome);
      ServesFirst(sent, ReleaseToken(id), steps, id, w, end, event);
      steps := [ReleaseToken(id)] + steps;
    } else {
      steps := ServeSent(sent, id, w, outcome);
    }
    ServesFirst(s, Send(id), steps, id, w, end, event);
    steps := [Send(id)] + steps;
  }

  /** A caller that has just come in: one that waits is fresh, one that does not goes straight to
      the lookup. */
  predicate JustIn(s: State, id: Id) {
    && id in s.callers && s.callers[id].slot == None && id !in s.pending
    && (if s.callers[id].awaits then s.callers[id].stage == Fresh
        else s.source == ByName && s.callers[id].stage == Tracked)
  }

  lemma ServeTracked(s: State, id: Id, w: nat, outcome: Outcome) returns (steps: seq<Step>)
    requires Calm(s, id, w) && s.source == ByName && id in s.callers && s.callers[id].stage == Tracked
    requires s.callers[id].slot == None && (s.callers[id].awaits <==> id in s.pending)
    ensures Serves(s, steps, id, w, Reached(s.callers[id].awaits, Ended(id, outcome)), Ended(id, outcome))
  {
    steps := ServeResolved(Do(s, Lookup(id)), id, w, outcome);
    ServesFirst(s, Lookup(id), steps, id, w,
                Reached(s.callers[id].awaits, Ended(id, outcome)), Ended(id, outcome));
    steps := [Lookup(id)] + steps;
  }

  lemma ServeFresh(s: State, id: Id, w: nat, outcome: Outcome) returns (steps: seq<Step>)
    requires Calm(s, id, w) && JustIn(s, id)
    ensures Serves(s, steps, id, w, Reached(s.callers[id].awaits, Ended(id, outcome)), Ended(id, outcome))
  {
    var event := Ended(id, outcome);
    var end := Reached(s.callers[id].awaits, event);
    if s.source == Http {
      var gated := Do(s, Acquire(id));
      steps := ServeResolved(Do(gated, Track(id)), id, w, outcome);
      ServesFirst(gated, Track(id), steps, id, w, end, event);
      steps := [Track(id)] + steps;
      ServesFirst(s, Acquire(id), steps, id, w, end, event);
      steps := [Acquire(id)] + steps;
    } else if !s.callers[id].awaits {
      steps := ServeTracked(s, id, w, outcome);
    } else {
      var tracked := Do(s, Track(id));
      if s.source == ByName {
        steps := ServeTracked(tracked, id, w, outcome);
      } else {
        steps := ServeResolved(tracked, id, w, outcome);
      }
      ServesFirst(s, Track(id), steps, id, w, end, event);
      steps := [Track(id)] + steps;
    }
  }

  /** A running flow serves: in every run, while it is not stopping and its channel is empty, a
      caller that can arrive, by name, over HTTP or from a queue, and any free worker can by
      themselves bring any outcome of the message back to that caller. One that does not wait is
      told its message was accepted, and the message is processed all the same. */
  lemma RunningFlowServes(run: seq<State>, id: Id, awaits: bool, w: nat, outcome: Outcome) returns (steps: seq<Step>)
    requires Run(run) && Last(run).stop == Running && Last(run).taken == |Last(run).accepted|
    requires w < |Last(run).workers| && Last(run).workers[w] == Idle
    requires id !in Last(run).callers && (Last(run).source == Queue ==> Last(run).idle > 0)
    requires Last(run).source != ByName ==> awaits
    ensures steps != [] && steps[0] == Arrive(id, awaits)
    ensures Serves(Last(run), steps, id, w, Reached(awaits, Ended(id, outcome)), Ended(id, outcome))
  {
    RunInv(run);
    var s := Last(run);
    UnknownIsUnsent(s, id);
    steps := ServeFresh(Do(s, Arrive(id, awaits)), id, w, outcome);
    ServesFirst(s, Arrive(id, awaits), steps, id, w, Reached(awaits, Ended(id, outcome)), Ended(id, outcome));
    steps := [Arrive(id, awaits)] + steps;
  }

  /** The same for a caller that is already there and has done nothing yet. */
  lemma RunningFlowServesFresh(run: seq<State>, id: Id, w: nat, outcome: Outcome) returns (steps: seq<Step>)
    requires Run(run) && Last(run).stop == Running && Last(run).taken == |Last(run).accepted|
    requires w < |Last(run).workers| && Last(run).workers[w] == Idle
    requires id in Last(run).callers && Last(run).callers[id].stage == Fresh
    ensures Serves(Last(run), steps, id, w, Returned(Got(Ended(id, outcome))), Ended(id, outcome))
  {
    RunInv(run);
    var s := Last(run);
    assert CallerOk(s, id);
    steps := ServeFresh(s, id, w, outcome);
  }

  /** Some state of the run had this HTTP caller holding a send token. */
  ghost predicate HeldToken(run: seq<State>, id: Id) {
    exists j :: 0 <= j < |run| && id in run[j].callers && run[j].callers[id].stage == Gated
  }

  predicate Told(stage: Stage, answer: Answer) {
    stage == Answering(answer) || stage == Returned(answer)
  }

  /** What the answers a caller is given say about the shutdown, with what leads up to them. */
  ghost predicate RefusalOk(run: seq<State>, id: Id)
    requires |run| > 0 && id in Last(run).callers
  {
    var s, stage := Last(run), Last(run).callers[id].stage;
    && (Told(stage, NotRegistered) ==> s.stop != Running)
    && (Told(stage, Gone) ==> Closed(s))
    && (Told(stage, ShuttingDown) ==> HeldToken(run, id) || s.stop != Running)
    && ((s.source == Http && stage == Resolved) || stage.Releasing? ==> HeldToken(run, id))
  }

  lemma HeldTokenGrows(run: seq<State>, id: Id)
    requires |run| > 1 && HeldToken(run[..|run| - 1], id)
    ensures HeldToken(run, id)
  {
    var before := run[..|run| - 1];
    var j :| 0 <= j < |before| && id in before[j].callers && before[j].callers[id].stage == Gated;
    assert run[j] == before[j];
  }

  /** A refusal means the flow was going away: a caller by name is told there is no such flow, or
      that the flow is gone, and an HTTP request is refused a token, only once stop has begun. */
  lemma {:induction false} RefusedOnlyWhenStopping(run: seq<State>, id: Id)
    requires Run(run) && id in Last(run).callers
    ensures RefusalOk(run, id)
  {
    if |run| > 1 {
      var before := run[..|run| - 1];
      RunInv(before);
      assert Next(run[|run| - 2], run[|run| - 1]);
      var step :| Enabled(Last(before), step) && Last(run) == Do(Last(before), step);
      if id in Last(before).callers {
        RefusedOnlyWhenStopping(before, id);
        if HeldToken(before, id) {
          HeldTokenGrows(run, id);
        }
        assert CallerOk(Last(before), id);
        if Last(before).callers[id].stage == Gated {
          assert run[|run| - 2].callers[id].stage == Gated;
        }
        RefusalStep(Last(before), step, id);
      }
    }
  }

  /** One step's part of that: the stop goes forward only, and a caller is refused by a step of
      its own. */
  ghost predicate RefusalMoves(s: State, s': State, id: Id) {
    && id in s.callers && id in s'.callers
    && s'.source == s.source && (s.stop != Running ==> s'.stop != Running) && (Closed(s) ==> Closed(s'))
    && var was, now := s.callers[id].stage, s'.callers[id].stage;
       && (Told(now, NotRegistered) ==> Told(was, NotRegistered) || s.stop != Running)
       && (Told(now, Gone) ==> Told(was, Gone) || Closed(s))
       && (Told(now, ShuttingDown) ==> Told(was, ShuttingDown) || was.Releasing? || s.stop != Running)
       && (s.source == Http && now == Resolved ==> was == Resolved || was == Gated)
       && (now.Releasing? ==> was.Releasing? || (s.source == Http && was == Resolved))
  }

  lemma RefusalStep(s: State, step: Step, id: Id)
    requires Enabled(s, step) && id in s.callers && StageOk(s, s.callers[id])
    ensures RefusalMoves(s, Do(s, step), id)
  {
    if IsCallerStep(step) {
      CallerStepFrame(s, step);
      if step.id == id {
        OwnRefusalStep(s, step);
      }
    } else if IsWorkerStep(step) {
      WorkerStepFrame(s, step);
    }
  }

  lemma OwnRefusalStep(s: State, step: Step)
    requires IsCallerStep(step) && Enabled(s, step) && StageOk(s, s.callers[step.id])
    ensures RefusalMoves(s, Do(s, step), step.id)
  {
    if BeforeSend(step) {
      RefusalBeforeSend(s, step);
    } else {
      RefusalAfterwards(s, step);
    }
  }

  lemma RefusalBeforeSend(s: State, step: Step)
    requires BeforeSend(step) && Enabled(s, step) && StageOk(s, s.callers[step.id])
    ensures RefusalMoves(s, Do(s, step), step.id)
  {
  }

  lemma RefusalAfterwards(s: State, step: Step)
    requires IsCallerStep(step) && !BeforeSend(step) && Enabled(s, step) && StageOk(s, s.callers[step.id])
    ensures RefusalMoves(s, Do(s, step), step.id)
  {
  }

  // ---- What an outcome says ----------------------------------------------------------

  /** What running a chain of blocks on a message can yield. */
  datatype Processed = Output(message: Message) | Nothing | Error(text: string)

  /** The published outcome, from the main chain and the error path when there is one. */
  function Settle(root: Processed, errorPath: Option<Processed>, input: Message): Outcome {
    match root
    case Output(message) => Completed(message)
    case Nothing => Dropped(input)
    case Error(text) =>
      match errorPath
      case None => Failed(text, input)
      case Some(Output(message)) => Completed(message)
      case Some(Nothing) => Dropped(input)
      case Some(Error(second)) => Failed("error path: " + second, input)
  }

  datatype CallResult = CallResult(message: Option<Message>, error: Option<string>)

  /** The registry's (message, error) pair for a terminal event. */
  function ForCall(outcome: Outcome): CallResult {
    match outcome
    case Completed(result) => CallResult(Some(result), None)
    case Dropped(_) => CallResult(None, None)
    case Failed(error, _) => CallResult(None, Some(error))
  }

  /** The queue handler's (reply, error) pair: a dropped message replies with its input. */
  function ForQueue(outcome: Outcome): CallResult {
    match outcome
    case Completed(result) => CallResult(Some(result), None)
    case Dropped(input) => CallResult(Some(input), None)
    case Failed(error, _) => CallResult(None, Some(error))
  }

  function LastWord(root: Processed, errorPath: Option<Processed>): Processed {
    if root.Error? && errorPath.Some? then errorPath.value else root
  }

  /** A caller by name sees a message, nothing, or an error exactly as the last chain that
      ran produced one; an error reaches it only when no error path recovered. */
  lemma CallSeesLastChain(root: Processed, errorPath: Option<Processed>, input: Message)
    ensures var r, last := ForCall(Settle(root, errorPath, input)), LastWord(root, errorPath);
            && (r.message.Some? <==> last.Output?) && (last.Output? ==> r.message == Some(last.message))
            && (r.error.Some? <==> last.Error?)
            && (r == CallResult(None, None) <==> last.Nothing?)
            && (last.Error? ==> r.error == Some(if errorPath.None? then last.text else "error path: " + last.text))
    ensures var r, last := ForQueue(Settle(root, errorPath, input)), LastWord(root, errorPath);
            && (last.Output? ==> r == CallResult(Some(last.message), None))
            && (last.Nothing? ==> r == CallResult(Some(input), None))
            && (last.Error? ==>
                  r == CallResult(None, Some(if errorPath.None? then last.text else "error path: " + last.text)))
  {
  }
}
