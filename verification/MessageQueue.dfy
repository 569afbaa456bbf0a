/** The in-process queue: one bounded channel per subject, competing listeners, and a one-slot
    reply buffer per request. Each publish or request is a call with its own ticket; each
    step is one atomic action, so a run is any interleaving. `accepted`, `took`, `handled`
    and `fills` are history variables. */
module MessageQueue {
  import opened Common

  const QUEUE_BUFFER: nat := 1024

  type Ticket = nat
  type Subject = nat

  datatype Message = Message(body: string)

  datatype Result = Enqueued | QueueFull | Cancelled | Replied(reply: Message) | NoResponder

  datatype Stage = New | Waiting | Over(result: Result)

  datatype Call = Call(subject: Subject, wantsReply: bool, stage: Stage, slot: Option<Message>, fills: nat)

  datatype Doing = Idle | Handling(ticket: Ticket) | Replying(ticket: Ticket, reply: Message) | Exited

  datatype Listener = Listener(subject: Subject, cancelled: bool, doing: Doing)

  datatype State = State(
    queue: map<Subject, seq<Ticket>>,
    accepted: map<Subject, seq<Ticket>>,
    took: map<Subject, seq<Ticket>>,
    calls: map<Ticket, Call>,
    listeners: seq<Listener>,
    handled: map<Ticket, Option<Message>>)

  datatype Step =
    | Begin(t: Ticket, subject: Subject, wantsReply: bool)
    | Enqueue(t: Ticket)
    | CancelEnqueue(t: Ticket)
    | Receive(t: Ticket)
    | TimeOut(t: Ticket)
    | Subscribe(subject: Subject)
    | Cancel(l: nat)
    | Exit(l: nat)
    | Take(l: nat)
    | HandlerReturns(l: nat, outcome: Option<Message>)
    | SendReply(l: nat)

  predicate Init(s: State) {
    s == State(map[], map[], map[], map[], [], map[])
  }

  /** A subject's channel, created empty on first use. */
  function Line(m: map<Subject, seq<Ticket>>, subject: Subject): seq<Ticket> {
    if subject in m then m[subject] else []
  }

  predicate Enabled(s: State, step: Step) {
    match step
    case Begin(t, _, _) => t !in s.calls
    case Enqueue(t) => t in s.calls && s.calls[t].stage == New
    case CancelEnqueue(t) => t in s.calls && s.calls[t].stage == New
    case Receive(t) => t in s.calls && s.calls[t].stage == Waiting && s.calls[t].slot.Some?
    case TimeOut(t) => t in s.calls && s.calls[t].stage == Waiting
    case Subscribe(_) => true
    case Cancel(l) => l < |s.listeners|
    case Exit(l) => l < |s.listeners| && s.listeners[l].cancelled && s.listeners[l].doing == Idle
    case Take(l) =>
      l < |s.listeners| && s.listeners[l].doing == Idle && Line(s.queue, s.listeners[l].subject) != []
    case HandlerReturns(l, _) => l < |s.listeners| && s.listeners[l].doing.Handling?
    case SendReply(l) => l < |s.listeners| && s.listeners[l].doing.Replying?
  }

  function Put(s: State, t: Ticket, c: Call): State {
    s.(calls := s.calls[t := c])
  }

  function Set(s: State, l: nat, doing: Doing): State
    requires l < |s.listeners|
  {
    s.(listeners := s.listeners[l := s.listeners[l].(doing := doing)])
  }

  function Do(s: State, step: Step): State
    requires Enabled(s, step)
  {
    match step
    case Begin(t, subject, wantsReply) => Put(s, t, Call(subject, wantsReply, New, None, 0))
    case Enqueue(t) =>
      var c := s.calls[t];
      var line := Line(s.queue, c.subject);
      if |line| < QUEUE_BUFFER then
        Put(s, t, c.(stage := if c.wantsReply then Waiting else Over(Enqueued)))
          .(queue := s.queue[c.subject := line + [t]],
            accepted := s.accepted[c.subject := Line(s.accepted, c.subject) + [t]])
      else
        Put(s, t, c.(stage := Over(QueueFull)))
    case CancelEnqueue(t) => Put(s, t, s.calls[t].(stage := Over(Cancelled)))
    case Receive(t) => Put(s, t, s.calls[t].(stage := Over(Replied(s.calls[t].slot.value)), slot := None))
    case TimeOut(t) => Put(s, t, s.calls[t].(stage := Over(NoResponder)))
    case Subscribe(subject) => s.(listeners := s.listeners + [Listener(subject, false, Idle)])
    case Cancel(l) => s.(listeners := s.listeners[l := s.listeners[l].(cancelled := true)])
    case Exit(l) => Set(s, l, Exited)
    case Take(l) =>
      var subject := s.listeners[l].subject;
      var line := Line(s.queue, subject);
      Set(s, l, Handling(line[0]))
        .(queue := s.queue[subject := line[1..]],
          took := s.took[subject := Line(s.took, subject) + [line[0]]])
    case HandlerReturns(l, outcome) =>
      var t := s.listeners[l].doing.ticket;
      Set(s, l, if outcome.Some? && t in s.calls && s.calls[t].wantsReply then Replying(t, outcome.value) else Idle)
        .(handled := s.handled[t := outcome])
    case SendReply(l) =>
      var t, reply := s.listeners[l].doing.ticket, s.listeners[l].doing.reply;
      var free := Set(s, l, Idle);
      if t in s.calls && s.calls[t].slot.None? then
        Put(free, t, s.calls[t].(slot := Some(reply), fills := s.calls[t].fills + 1))
      else
        free   // the slot is full: a non-blocking send drops the reply
  }

  ghost predicate Next(s: State, s': State) {
    exists step :: Enabled(s, step) && s' == Do(s, step)
  }

  ghost predicate Run(run: seq<State>) {
    && |run| > 0 && Init(run[0])
    && forall i :: 0 < i < |run| ==> Next(run[i - 1], run[i])
  }

  // ---- The invariant -----------------------------------------------------------------

  /** First in, first out, nothing lost, nothing twice, and never over the cap. */
  predicate SubjectOk(s: State, subject: Subject) {
    && Line(s.accepted, subject) == Line(s.took, subject) + Line(s.queue, subject)
    && |Line(s.queue, subject)| <= QUEUE_BUFFER
    && Distinct(Line(s.accepted, subject))
    && forall t :: t in Line(s.accepted, subject) ==> t in s.calls && s.calls[t].subject == subject
  }

  function Job(listener: Listener): Option<Ticket> {
    match listener.doing
    case Handling(t) => Some(t)
    case Replying(t, _) => Some(t)
    case _ => None
  }

  predicate CallOk(s: State, t: Ticket)
    requires t in s.calls
  {
    var c := s.calls[t];
    && (c.stage == New ==> t !in Line(s.accepted, c.subject) && c.slot.None? && c.fills == 0)
    && (t in s.handled ==> t in Line(s.took, c.subject))
    && c.fills <= 1
    && (c.slot.Some? ==> c.fills == 1 && t in s.handled && s.handled[t] == c.slot)
    && (c.stage.Over? && c.stage.result.Replied? ==>
          c.slot.None? && c.fills == 1 && t in s.handled && s.handled[t] == Some(c.stage.result.reply))
    && (c.fills == 1 ==> t in s.handled && (c.slot.Some? || (c.stage.Over? && c.stage.result.Replied?)))
  }

  predicate ListenerOk(s: State, l: nat)
    requires l < |s.listeners|
  {
    match s.listeners[l].doing
    case Handling(t) =>
      t in Line(s.took, s.listeners[l].subject) && t in s.calls && t !in s.handled
    case Replying(t, reply) =>
      && t in Line(s.took, s.listeners[l].subject) && t in s.calls
      && t in s.handled && s.handled[t] == Some(reply) && s.calls[t].wantsReply && s.calls[t].fills == 0
    case _ => true
  }

  ghost predicate BeingReplied(s: State, t: Ticket) {
    exists l :: 0 <= l < |s.listeners| && s.listeners[l].doing.Replying? && s.listeners[l].doing.ticket == t
  }

  /** A reply a handler produced for a request is on its way or was put in the slot. */
  ghost predicate SettledOk(s: State, t: Ticket)
    requires t in s.calls
  {
    t in s.handled && s.handled[t].Some? && s.calls[t].wantsReply ==>
      s.calls[t].fills == 1 || BeingReplied(s, t)
  }

  /** No two listeners hold one envelope. */
  predicate HandsOk(s: State) {
    forall k, l :: 0 <= k < l < |s.listeners| && Job(s.listeners[k]).Some? ==>
      Job(s.listeners[k]) != Job(s.listeners[l])
  }

  ghost predicate Inv(s: State) {
    && (forall subject :: SubjectOk(s, subject))
    && (forall t :: t in s.calls ==> CallOk(s, t) && SettledOk(s, t))
    && (forall t :: t in s.handled ==> t in s.calls)
    && (forall l :: 0 <= l < |s.listeners| ==> ListenerOk(s, l))
    && HandsOk(s)
  }

  lemma TookWasAccepted(s: State, subject: Subject, t: Ticket)
    requires Inv(s) && t in Line(s.took, subject)
    ensures t in Line(s.accepted, subject) && t in s.calls && s.calls[t].subject == subject
    ensures t !in Line(s.queue, subject)
  {
    assert SubjectOk(s, subject);
    var took, queue := Line(s.took, subject), Line(s.queue, subject);
    var i :| 0 <= i < |took| && took[i] == t;
    assert Line(s.accepted, subject)[i] == t;
    forall j | 0 <= j < |queue| ensures queue[j] != t {
      assert Line(s.accepted, subject)[|took| + j] == queue[j];
    }
  }

  lemma SettledStays(s: State, s': State, t: Ticket)
    requires t in s.calls && t in s'.calls && SettledOk(s, t)
    requires s'.handled == s.handled && s'.calls[t].wantsReply == s.calls[t].wantsReply
    requires s'.calls[t].fills == s.calls[t].fills && |s.listeners| <= |s'.listeners|
    requires forall l :: 0 <= l < |s.listeners| && s.listeners[l].doing.Replying? ==>
               s'.listeners[l].doing == s.listeners[l].doing
    ensures SettledOk(s', t)
  {
    if BeingReplied(s, t) {
      var l :| 0 <= l < |s.listeners| && s.listeners[l].doing.Replying? && s.listeners[l].doing.ticket == t;
      assert s'.listeners[l].doing.Replying? && s'.listeners[l].doing.ticket == t;
    }
  }

  // ---- Every step keeps it -----------------------------------------------------------

  /** Only one call changes, and neither its address nor what it was sent. */
  lemma CallerInv(s: State, s': State, t: Ticket)
    requires Inv(s) && t in s'.calls && s' == s.(calls := s.calls[t := s'.calls[t]])
    requires t in s.calls ==>
               && s'.calls[t].subject == s.calls[t].subject && s'.calls[t].wantsReply == s.calls[t].wantsReply
               && s'.calls[t].fills == s.calls[t].fills
    requires CallOk(s', t)
    ensures Inv(s')
  {
    forall subject ensures SubjectOk(s', subject) {
      assert SubjectOk(s, subject);
    }
    forall u | u in s'.calls ensures CallOk(s', u) && SettledOk(s', u) {
      if u in s.calls {
        assert CallOk(s, u) && SettledOk(s, u);
        SettledStays(s, s', u);
      }
    }
    forall l | 0 <= l < |s'.listeners| ensures ListenerOk(s', l) {
      assert ListenerOk(s, l);
    }
  }

  lemma BeginInv(s: State, t: Ticket, subject: Subject, wantsReply: bool)
    requires Inv(s) && Enabled(s, Begin(t, subject, wantsReply))
    ensures Inv(Do(s, Begin(t, subject, wantsReply)))
  {
    assert SubjectOk(s, subject);
    CallerInv(s, Do(s, Begin(t, subject, wantsReply)), t);
  }

  lemma AwaitInv(s: State, step: Step)
    requires step.CancelEnqueue? || step.Receive? || step.TimeOut?
    requires Inv(s) && Enabled(s, step)
    ensures Inv(Do(s, step))
  {
    assert CallOk(s, step.t);
    CallerInv(s, Do(s, step), step.t);
  }

  /** A new ticket goes to the end of the line. */
  lemma LineGrows(accepted: seq<Ticket>, took: seq<Ticket>, queue: seq<Ticket>, t: Ticket)
    requires accepted == took + queue && Distinct(accepted) && t !in accepted
    ensures accepted + [t] == took + (queue + [t]) && Distinct(accepted + [t])
  {
  }

  lemma AcceptSubject(s: State, t: Ticket, subject: Subject)
    requires Enabled(s, Enqueue(t)) && |Line(s.queue, s.calls[t].subject)| < QUEUE_BUFFER
    requires SubjectOk(s, subject) && CallOk(s, t)
    ensures SubjectOk(Do(s, Enqueue(t)), subject)
  {
    if subject == s.calls[t].subject {
      var s' := Do(s, Enqueue(t));
      assert Line(s'.accepted, subject) == Line(s.accepted, subject) + [t];
      assert Line(s'.queue, subject) == Line(s.queue, subject) + [t] && s'.took == s.took;
      LineGrows(Line(s.accepted, subject), Line(s.took, subject), Line(s.queue, subject), t);
    }
  }

  lemma AcceptCall(s: State, t: Ticket, u: Ticket)
    requires Inv(s) && Enabled(s, Enqueue(t)) && |Line(s.queue, s.calls[t].subject)| < QUEUE_BUFFER
    requires u in s.calls
    ensures CallOk(Do(s, Enqueue(t)), u)
  {
    assert CallOk(s, u) && CallOk(s, t);
  }

  lemma AcceptListener(s: State, t: Ticket, l: nat)
    requires Inv(s) && Enabled(s, Enqueue(t)) && |Line(s.queue, s.calls[t].subject)| < QUEUE_BUFFER
    requires l < |s.listeners|
    ensures ListenerOk(Do(s, Enqueue(t)), l)
  {
    assert ListenerOk(s, l);
  }

  lemma EnqueueInv(s: State, t: Ticket)
    requires Inv(s) && Enabled(s, Enqueue(t))
    ensures Inv(Do(s, Enqueue(t)))
  {
    var s' := Do(s, Enqueue(t));
    if |Line(s.queue, s.calls[t].subject)| < QUEUE_BUFFER {
      forall subject ensures SubjectOk(s', subject) {
        assert SubjectOk(s, subject) && CallOk(s, t);
        AcceptSubject(s, t, subject);
      }
      forall u | u in s'.calls ensures CallOk(s', u) && SettledOk(s', u) {
        AcceptCall(s, t, u);
        SettledStays(s, s', u);
      }
      forall l | 0 <= l < |s'.listeners| ensures ListenerOk(s', l) {
        AcceptListener(s, t, l);
      }
    } else {
      assert CallOk(s, t);
      CallerInv(s, s', t);
    }
  }

  /** Calls and subjects do not depend on who is listening. */
  lemma ListenersChange(s: State, s': State)
    requires Inv(s) && s' == s.(listeners := s'.listeners)
    requires HandsOk(s') && forall l :: 0 <= l < |s'.listeners| ==> ListenerOk(s', l)
    requires |s.listeners| <= |s'.listeners|
    requires forall l :: 0 <= l < |s.listeners| && s.listeners[l].doing.Replying? ==>
               s'.listeners[l].doing == s.listeners[l].doing
    ensures Inv(s')
  {
    forall subject ensures SubjectOk(s', subject) {
      assert SubjectOk(s, subject);
    }
    forall u | u in s'.calls ensures CallOk(s', u) && SettledOk(s', u) {
      assert CallOk(s, u) && SettledOk(s, u);
      SettledStays(s, s', u);
    }
  }

  /** Listeners come, are cancelled and leave without touching an envelope. */
  lemma ControlInv(s: State, step: Step)
    requires step.Subscribe? || step.Cancel? || step.Exit?
    requires Inv(s) && Enabled(s, step)
    ensures Inv(Do(s, step))
  {
    var s' := Do(s, step);
    forall l | 0 <= l < |s'.listeners| ensures ListenerOk(s', l) {
      if l < |s.listeners| {
        assert ListenerOk(s, l);
      }
    }
    ListenersChange(s, s');
  }

  lemma TakeSubject(s: State, l: nat, subject: Subject)
    requires Inv(s) && Enabled(s, Take(l))
    ensures SubjectOk(Do(s, Take(l)), subject)
  {
    assert SubjectOk(s, subject);
    if subject == s.listeners[l].subject {
      var took, queue := Line(s.took, subject), Line(s.queue, subject);
      assert (took + [queue[0]]) + queue[1..] == took + queue;
    }
  }

  /** The head of the queue was never taken, so it is in no hand and not handled. */
  lemma HeadIsUntaken(s: State, subject: Subject)
    requires Inv(s) && Line(s.queue, subject) != []
    ensures var t := Line(s.queue, subject)[0];
            && t in s.calls && s.calls[t].subject == subject && t !in s.handled
            && forall k :: 0 <= k < |s.listeners| ==> Job(s.listeners[k]) != Some(t)
  {
    var t := Line(s.queue, subject)[0];
    assert SubjectOk(s, subject);
    assert Line(s.accepted, subject)[|Line(s.took, subject)|] == t;
    assert CallOk(s, t);
    if t in Line(s.took, subject) {
      TookWasAccepted(s, subject, t);
    }
    forall k | 0 <= k < |s.listeners| ensures Job(s.listeners[k]) != Some(t) {
      assert ListenerOk(s, k);
      if Job(s.listeners[k]) == Some(t) {
        TookWasAccepted(s, s.listeners[k].subject, t);
      }
    }
  }

  lemma TakeCall(s: State, l: nat, u: Ticket)
    requires Inv(s) && Enabled(s, Take(l)) && u in s.calls
    ensures CallOk(Do(s, Take(l)), u)
  {
    assert CallOk(s, u);
  }

  lemma TakeListener(s: State, l: nat, k: nat)
    requires Inv(s) && Enabled(s, Take(l)) && k < |s.listeners|
    ensures ListenerOk(Do(s, Take(l)), k)
  {
    HeadIsUntaken(s, s.listeners[l].subject);
    if k != l {
      assert ListenerOk(s, k);
    }
  }

  lemma TakeHands(s: State, l: nat)
    requires Inv(s) && Enabled(s, Take(l))
    ensures HandsOk(Do(s, Take(l)))
  {
    HeadIsUntaken(s, s.listeners[l].subject);
  }

  lemma TakeInv(s: State, l: nat)
    requires Inv(s) && Enabled(s, Take(l))
    ensures Inv(Do(s, Take(l)))
  {
    var s' := Do(s, Take(l));
    TakeHands(s, l);
    forall subject ensures SubjectOk(s', subject) {
      TakeSubject(s, l, subject);
    }
    forall u | u in s'.calls ensures CallOk(s', u) && SettledOk(s', u) {
      TakeCall(s, l, u);
      SettledStays(s, s', u);
    }
    forall k | 0 <= k < |s'.listeners| ensures ListenerOk(s', k) {
      TakeListener(s, l, k);
    }
  }

  lemma HandlerSettles(s: State, step: Step, u: Ticket)
    requires step.HandlerReturns? && Inv(s) && Enabled(s, step) && u in s.calls
    ensures SettledOk(Do(s, step), u)
  {
    var s' := Do(s, step);
    assert SettledOk(s, u);
    if u == s.listeners[step.l].doing.ticket {
      assert s'.listeners[step.l].doing.Replying? ==> BeingReplied(s', u);
    } else if BeingReplied(s, u) {
      var l :| 0 <= l < |s.listeners| && s.listeners[l].doing.Replying? && s.listeners[l].doing.ticket == u;
      assert s'.listeners[l].doing.Replying? && s'.listeners[l].doing.ticket == u;
    }
  }

  lemma ReplySettles(s: State, step: Step, u: Ticket)
    requires step.SendReply? && Inv(s) && Enabled(s, step) && u in s.calls
    ensures SettledOk(Do(s, step), u)
  {
    var s' := Do(s, step);
    assert SettledOk(s, u) && CallOk(s, u) && ListenerOk(s, step.l);
    if u != s.listeners[step.l].doing.ticket && BeingReplied(s, u) {
      var l :| 0 <= l < |s.listeners| && s.listeners[l].doing.Replying? && s.listeners[l].doing.ticket == u;
      assert s'.listeners[l].doing.Replying? && s'.listeners[l].doing.ticket == u;
    }
  }

  lemma HandlerInv(s: State, step: Step)
    requires step.HandlerReturns? && Inv(s) && Enabled(s, step)
    ensures Inv(Do(s, step))
  {
    var s', t := Do(s, step), s.listeners[step.l].doing.ticket;
    assert ListenerOk(s, step.l);
    TookWasAccepted(s, s.listeners[step.l].subject, t);
    forall subject ensures SubjectOk(s', subject) {
      assert SubjectOk(s, subject);
    }
    forall u | u in s'.calls ensures CallOk(s', u) && SettledOk(s', u) {
      assert CallOk(s, u);
      HandlerSettles(s, step, u);
    }
    forall k | 0 <= k < |s'.listeners| ensures ListenerOk(s', k) {
      assert ListenerOk(s, k);
      assert CallOk(s, t);
      assert k != step.l ==> Job(s.listeners[k]) != Some(t);
    }
  }

  lemma ReplyInv(s: State, step: Step)
    requires step.SendReply? && Inv(s) && Enabled(s, step)
    ensures Inv(Do(s, step))
  {
    var s', t := Do(s, step), s.listeners[step.l].doing.ticket;
    assert ListenerOk(s, step.l) && CallOk(s, t);
    TookWasAccepted(s, s.listeners[step.l].subject, t);
    forall subject ensures SubjectOk(s', subject) {
      assert SubjectOk(s, subject);
    }
    forall u | u in s'.calls ensures CallOk(s', u) && SettledOk(s', u) {
      assert CallOk(s, u);
      ReplySettles(s, step, u);
    }
    forall k | 0 <= k < |s'.listeners| ensures ListenerOk(s', k) {
      assert ListenerOk(s, k);
      assert k != step.l ==> Job(s.listeners[k]) != Some(t);
    }
  }

  /** Every action of every publisher, requester and listener keeps the invariant. */
  lemma StepInv(s: State, step: Step)
    requires Inv(s) && Enabled(s, step)
    ensures Inv(Do(s, step))
  {
    match step
    case Begin(t, subject, wantsReply) => BeginInv(s, t, subject, wantsReply);
    case Enqueue(t) => EnqueueInv(s, t);
    case CancelEnqueue(_) => AwaitInv(s, step);
    case Receive(_) => AwaitInv(s, step);
    case TimeOut(_) => AwaitInv(s, step);
    case Subscribe(_) => ControlInv(s, step);
    case Cancel(_) => ControlInv(s, step);
    case Exit(_) => ControlInv(s, step);
    case Take(l) => TakeInv(s, l);
    case HandlerReturns(_, _) => HandlerInv(s, step);
    case SendReply(_) => ReplyInv(s, step);
  }

  function Last(run: seq<State>): State
    requires |run| > 0
  {
    run[|run| - 1]
  }

  lemma {:induction false} RunInv(run: seq<State>)
    requires Run(run)
    ensures Inv(Last(run))
  {
    if |run| > 1 {
      var before := run[..|run| - 1];
      RunInv(before);
      assert Next(run[|run| - 2], run[|run| - 1]);
      var step :| Enabled(Last(before), step) && Last(run) == Do(Last(before), step);
      StepInv(Last(before), step);
    }
  }

  /** In every interleaving and on every subject: the accepted envelopes are those taken, in
      order, followed by those queued; none is taken twice; at most 1024 are queued; and no
      two listeners ever hold the same one. */
  lemma EnvelopesConserved(run: seq<State>, subject: Subject)
    requires Run(run)
    ensures Line(Last(run).accepted, subject) == Line(Last(run).took, subject) + Line(Last(run).queue, subject)
    ensures Distinct(Line(Last(run).accepted, subject))
    ensures |Line(Last(run).queue, subject)| <= QUEUE_BUFFER
    ensures HandsOk(Last(run))
  {
    RunInv(run);
    assert SubjectOk(Last(run), subject);
  }

  /** A request that returned a reply returned what the handler of its own envelope produced;
      the slot took one reply at most, and no reply was ever dropped by the non-blocking send. */
  lemma OnlyOwnReply(run: seq<State>, t: Ticket)
    requires Run(run) && t in Last(run).calls
    ensures Last(run).calls[t].fills <= 1
    ensures forall m :: Last(run).calls[t].stage == Over(Replied(m)) ==>
              t in Last(run).handled && Last(run).handled[t] == Some(m)
              && t in Line(Last(run).took, Last(run).calls[t].subject)
    ensures forall l :: 0 <= l < |Last(run).listeners| ==>
              && Last(run).listeners[l].doing.Replying? && Last(run).listeners[l].doing.ticket == t ==>
              Last(run).calls[t].slot.None?
  {
    RunInv(run);
    var s := Last(run);
    assert CallOk(s, t);
    forall l | 0 <= l < |s.listeners| && s.listeners[l].doing.Replying? && s.listeners[l].doing.ticket == t
      ensures s.calls[t].slot.None?
    {
      assert ListenerOk(s, l);
    }
  }

  /** A reply is never lost: once the handler of a request has produced one and no listener is
      still carrying it, a requester that is still waiting has it in its slot. */
  lemma ReplyNotLost(run: seq<State>, t: Ticket)
    requires Run(run) && t in Last(run).calls && Last(run).calls[t].wantsReply && Last(run).calls[t].stage == Waiting
    requires t in Last(run).handled && Last(run).handled[t].Some? && !BeingReplied(Last(run), t)
    ensures Last(run).calls[t].slot == Last(run).handled[t]
  {
    RunInv(run);
    assert CallOk(Last(run), t) && SettledOk(Last(run), t);
  }

  // ---- A request is served -------------------------------------------------------------

  /** These steps can be taken one after another and lead to `end`. */
  predicate Leads(s: State, steps: seq<Step>, end: State)
    decreases |steps|
  {
    if steps == [] then s == end
    else Enabled(s, steps[0]) && Leads(Do(s, steps[0]), steps[1..], end)
  }

  lemma LeadsFirst(s: State, step: Step, rest: seq<Step>, end: State)
    requires Enabled(s, step) && Leads(Do(s, step), rest, end)
    ensures Leads(s, [step] + rest, end)
  {
    assert ([step] + rest)[1..] == rest;
  }

  /** Whatever the handler of a request returns reaches the requester that is still waiting: from
      any point of any run at which a listener handles it, that listener and the requester alone
      can bring every reply `m` back. */
  lemma TakenRequestAnswered(run: seq<State>, l: nat, m: Message) returns (steps: seq<Step>, end: State)
    requires Run(run) && l < |Last(run).listeners| && Last(run).listeners[l].doing.Handling?
    requires var t := Last(run).listeners[l].doing.ticket;
             t in Last(run).calls && Last(run).calls[t].wantsReply && Last(run).calls[t].stage == Waiting
    ensures steps == [HandlerReturns(l, Some(m)), SendReply(l), Receive(Last(run).listeners[l].doing.ticket)]
    ensures Leads(Last(run), steps, end)
    ensures var t := Last(run).listeners[l].doing.ticket;
            && t in end.calls && end.calls[t].stage == Over(Replied(m))
            && l < |end.listeners| && end.listeners[l].doing == Idle
  {
    RunInv(run);
    var s := Last(run);
    var t := s.listeners[l].doing.ticket;
    assert ListenerOk(s, l) && CallOk(s, t);
    steps, end := Answer(s, l, t, m);
  }

  lemma Answer(s: State, l: nat, t: Ticket, m: Message) returns (steps: seq<Step>, end: State)
    requires l < |s.listeners| && s.listeners[l].doing == Handling(t)
    requires t in s.calls && s.calls[t].wantsReply && s.calls[t].stage == Waiting && s.calls[t].slot.None?
    ensures steps == [HandlerReturns(l, Some(m)), SendReply(l), Receive(t)] && Leads(s, steps, end)
    ensures t in end.calls && end.calls[t].stage == Over(Replied(m))
    ensures l < |end.listeners| && end.listeners[l].doing == Idle
  {
    var returned := Do(s, HandlerReturns(l, Some(m)));
    var sent := Do(returned, SendReply(l));
    end := Do(sent, Receive(t));
    assert Leads(end, [], end);
    LeadsFirst(sent, Receive(t), [], end);
    LeadsFirst(returned, SendReply(l), [Receive(t)], end);
    LeadsFirst(s, HandlerReturns(l, Some(m)), [SendReply(l), Receive(t)], end);
    steps := [HandlerReturns(l, Some(m)), SendReply(l), Receive(t)];
    assert [Receive(t)] == [Receive(t)] + [] && [SendReply(l), Receive(t)] == [SendReply(l)] + [Receive(t)];
    assert steps == [HandlerReturns(l, Some(m))] + [SendReply(l), Receive(t)];
  }

  /** From the start: a new request on a subject whose line is empty and that a free listener
      serves can end with any reply. */
  lemma NewRequestAnswered(run: seq<State>, t: Ticket, l: nat, m: Message) returns (steps: seq<Step>, end: State)
    requires Run(run) && t !in Last(run).calls && l < |Last(run).listeners| && Last(run).listeners[l].doing == Idle
    requires Line(Last(run).queue, Last(run).listeners[l].subject) == []
    ensures Leads(Last(run), steps, end) && |steps| == 6 && steps[0] == Begin(t, Last(run).listeners[l].subject, true)
    ensures t in end.calls && end.calls[t].stage == Over(Replied(m))
  {
    var s, subject := Last(run), Last(run).listeners[l].subject;
    var begun := Do(s, Begin(t, subject, true));
    var queued := Do(begun, Enqueue(t));
    assert Line(queued.queue, subject) == [t];
    var taken := Do(queued, Take(l));
    steps, end := Answer(taken, l, t, m);
    LeadsFirst(queued, Take(l), steps, end);
    steps := [Take(l)] + steps;
    LeadsFirst(begun, Enqueue(t), steps, end);
    steps := [Enqueue(t)] + steps;
    LeadsFirst(s, Begin(t, subject, true), steps, end);
    steps := [Begin(t, subject, true)] + steps;
  }

  /** A send is refused exactly when its subject already has 1024 waiting; otherwise it goes to the
      end of the line, and a listener takes the head of it. */
  lemma FullExactlyAtCap(run: seq<State>, t: Ticket)
    requires Run(run) && Enabled(Last(run), Enqueue(t))
    ensures var s, s' := Last(run), Do(Last(run), Enqueue(t));
      var subject := s.calls[t].subject;
      && (s'.calls[t].stage == Over(QueueFull) <==> |Line(s.queue, subject)| == QUEUE_BUFFER)
      && (if s'.calls[t].stage == Over(QueueFull) then s'.queue == s.queue
          else
            && s'.calls[t].stage == (if s.calls[t].wantsReply then Waiting else Over(Enqueued))
            && s'.queue == s.queue[subject := Line(s.queue, subject) + [t]])
  {
    RunInv(run);
    assert SubjectOk(Last(run), Last(run).calls[t].subject);
  }

  /** Closing a subscription ends: a cancelled listener has, whatever it is doing, at most two
      steps of its own to its exit, and none of them waits for anyone. */
  lemma CancelledListenerLeaves(s: State, l: nat) returns (steps: seq<Step>, end: State)
    requires l < |s.listeners| && s.listeners[l].cancelled && s.listeners[l].doing != Exited
    ensures Leads(s, steps, end) && |steps| <= 2
    ensures l < |end.listeners| && end.listeners[l].doing == Exited
  {
    var free := s;
    steps := [];
    if s.listeners[l].doing.Handling? {
      steps := [HandlerReturns(l, None)];
    } else if s.listeners[l].doing.Replying? {
      steps := [SendReply(l)];
    }
    free := if steps == [] then s else Do(s, steps[0]);
    end := Do(free, Exit(l));
    assert Leads(end, [], end);
    LeadsFirst(free, Exit(l), [], end);
    assert [Exit(l)] == [Exit(l)] + [];
    if steps == [] {
      steps := [Exit(l)];
    } else {
      LeadsFirst(s, steps[0], [Exit(l)], end);
      steps := [steps[0]] + [Exit(l)];
    }
  }
}
