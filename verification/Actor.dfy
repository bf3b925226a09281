/** The actor's mailbox protocol: bounded mailbox, Tell, Ask with its two reply channels,
    Stop, and the processing loop with its drain. A step is one channel operation of one
    goroutine; the processor's results, context cancellations and every choice of a Go
    `select` among ready cases are left open. */
module Actor {
  import opened Common

  type Id = nat
  type Value = int
  type Error = int

  /** A mailbox entry; an Ask carries the two reply channels made for its id. */
  datatype Msg = Msg(id: Id, ask: bool)

  /** A Go channel with room for one element. */
  datatype Chan<T> = Chan(buf: seq<T>, open: bool)

  /** What ProcessMessage returned; the response may be nil. */
  datatype Outcome = Response(v: Option<Value>) | Failure(e: Error)

  datatype AskError = FromProcessor(e: Error) | StoppedBeforeProcessing

  /** A value put into one of the two reply channels of an Ask. */
  datatype Delivery = OnReply(v: Option<Value>) | OnError(err: AskError)

  /** How far an Ask has come; a history variable. */
  datatype Stage = Unsent | Queued | Running | Answered | Draining | Drained

  datatype Ask = Ask(
    reply: Chan<Option<Value>>, error: Chan<AskError>, stage: Stage,
    values: seq<Delivery>, computed: Option<Outcome>)

  /** What a caller got: a receive on a closed empty channel yields nil. */
  datatype Return =
    | GotReply(v: Option<Value>) | GotError(err: Option<AskError>)
    | TellAccepted | ErrStopped | ErrContext | ErrFull

  datatype Caller =
    | TellFirst | TellSecond
    | AskSend | AskWait
    | Returned(r: Return)

  datatype Loop =
    | Select
    | Process(m: Msg)
    | Deliver(m: Msg, o: Outcome)
    | CloseReply(m: Msg)
    | CloseError(m: Msg)
    | CloseMailbox
    | Drain
    | DrainSend(m: Msg)
    | Exited

  datatype State = State(
    mailbox: seq<Msg>, mailboxOpen: bool, cap: nat, stopped: bool,
    callers: map<Id, Caller>, asks: map<Id, Ask>, cancelled: set<Id>, loop: Loop,
    accepted: seq<Msg>, processed: seq<Msg>, drained: seq<Msg>)

  const NEW_ASK := Ask(Chan([], true), Chan([], true), Unsent, [], None)

  predicate Init(s: State) {
    && s.mailbox == [] && s.mailboxOpen && s.cap >= 1 && !s.stopped && s.loop == Select
    && s.callers == map[] && s.asks == map[] && s.cancelled == {}
    && s.accepted == [] && s.processed == [] && s.drained == []
  }

  /** The steps of callers and of the environment. */
  datatype Action =
    | NewTell(id: Id) | NewAsk(id: Id) | Cancel(id: Id) | Stop
    | Send(id: Id) | SeeStop(id: Id) | SeeCancel(id: Id) | SendDefault(id: Id)
    | TakeReply(id: Id) | TakeError(id: Id)
    | LoopStep(c: LoopChoice)

  datatype LoopChoice = Receive | NoticeStop | Result(o: Outcome) | Put | NoticeCancel | Go

  function Room<T>(c: Chan<T>): bool {
    c.open && |c.buf| < 1
  }

  function Ready<T>(c: Chan<T>): bool {
    c.buf != [] || !c.open
  }

  /** The element received, or nil from a closed empty channel, and the channel left. */
  function Receiving<T>(c: Chan<T>): (Option<T>, Chan<T>) {
    if c.buf != [] then (Some(c.buf[0]), c.(buf := c.buf[1..])) else (None, c)
  }

  /** Excluded as the panics they are: sending on the closed mailbox, and a second Stop. */
  predicate Enabled(s: State, a: Action) {
    match a
    case NewTell(id) => id !in s.callers
    case NewAsk(id) => id !in s.callers
    case Cancel(id) => true
    case Stop => !s.stopped
    case Send(id) =>
      && id in s.callers && (s.callers[id].TellFirst? || s.callers[id].TellSecond? || s.callers[id].AskSend?)
      && s.mailboxOpen && |s.mailbox| < s.cap && (s.callers[id].AskSend? ==> id in s.asks)
    case SeeStop(id) => id in s.callers && !s.callers[id].Returned? && s.stopped
    case SeeCancel(id) =>
      id in s.callers && (s.callers[id].AskSend? || s.callers[id].AskWait?) && id in s.cancelled
    case SendDefault(id) =>
      && id in s.callers && (s.callers[id].TellFirst? || s.callers[id].TellSecond?)
      && !s.stopped && |s.mailbox| >= s.cap
    case TakeReply(id) => id in s.callers && s.callers[id].AskWait? && id in s.asks && Ready(s.asks[id].reply)
    case TakeError(id) => id in s.callers && s.callers[id].AskWait? && id in s.asks && Ready(s.asks[id].error)
    case LoopStep(c) => LoopEnabled(s, c)
  }

  predicate LoopEnabled(s: State, c: LoopChoice) {
    match s.loop
    case Select => (c.Receive? && s.mailbox != []) || (c.NoticeStop? && s.stopped)
    case Process(m) => c.Result? && (m.ask ==> m.id in s.asks)
    case Deliver(m, o) =>
      && m.id in s.asks
      && (|| (c.Put? && (if o.Response? then Room(s.asks[m.id].reply) else Room(s.asks[m.id].error)))
          || (c.NoticeStop? && s.stopped)
          || (c.NoticeCancel? && m.id in s.cancelled))
    case CloseReply(m) => c.Go? && m.id in s.asks && s.asks[m.id].reply.open
    case CloseError(m) => c.Go? && m.id in s.asks && s.asks[m.id].error.open
    case CloseMailbox => c.Go? && s.mailboxOpen
    case Drain => c.Go? && (s.mailbox != [] && s.mailbox[0].ask ==> s.mailbox[0].id in s.asks)
    case DrainSend(m) => c.Go? && m.id in s.asks && s.asks[m.id].error.open
    case Exited => false
  }

  function Step(s: State, a: Action): State
    requires Enabled(s, a)
  {
    match a
    case NewTell(id) => s.(callers := s.callers[id := TellFirst])
    case NewAsk(id) => s.(callers := s.callers[id := AskSend], asks := s.asks[id := NEW_ASK])
    case Cancel(id) => s.(cancelled := s.cancelled + {id})
    case Stop => s.(stopped := true)
    case Send(id) =>
      var m := Msg(id, s.callers[id].AskSend?);
      s.(mailbox := s.mailbox + [m], accepted := s.accepted + [m],
         callers := s.callers[id := if m.ask then AskWait else Returned(TellAccepted)],
         asks := if m.ask then s.asks[id := s.asks[id].(stage := Queued)] else s.asks)
    case SeeStop(id) => s.(callers := s.callers[id := Returned(ErrStopped)])
    case SeeCancel(id) => s.(callers := s.callers[id := Returned(ErrContext)])
    case SendDefault(id) =>
      s.(callers := s.callers[id := if s.callers[id].TellFirst? then TellSecond else Returned(ErrFull)])
    case TakeReply(id) =>
      var (x, rest) := Receiving(s.asks[id].reply);
      s.(asks := s.asks[id := s.asks[id].(reply := rest)],
         callers := s.callers[id := Returned(GotReply(if x.Some? then x.value else None))])
    case TakeError(id) =>
      var (x, rest) := Receiving(s.asks[id].error);
      s.(asks := s.asks[id := s.asks[id].(error := rest)], callers := s.callers[id := Returned(GotError(x))])
    case LoopStep(c) => LoopNext(s, c)
  }

  function Update(s: State, id: Id, a: Ask, l: Loop): State {
    s.(asks := s.asks[id := a], loop := l)
  }

  /** The run goroutine. */
  function LoopNext(s: State, c: LoopChoice): State
    requires LoopEnabled(s, c)
  {
    match s.loop
    case Select =>
      if c.Receive? then
        var m := s.mailbox[0];
        var s1 := s.(mailbox := s.mailbox[1..], processed := s.processed + [m], loop := Process(m));
        if m.ask && m.id in s.asks then s1.(asks := s.asks[m.id := s.asks[m.id].(stage := Running)]) else s1
      else
        s.(loop := CloseMailbox)
    case Process(m) =>
      if m.ask then Update(s, m.id, s.asks[m.id].(computed := Some(c.o)), Deliver(m, c.o)) else s.(loop := Select)
    case Deliver(m, o) =>
      var a := s.asks[m.id];
      if !c.Put? then s.(loop := CloseReply(m))
      else if o.Response? then
        Update(s, m.id, a.(reply := a.reply.(buf := a.reply.buf + [o.v]), values := a.values + [OnReply(o.v)]),
               CloseReply(m))
      else
        var e := FromProcessor(o.e);
        Update(s, m.id, a.(error := a.error.(buf := a.error.buf + [e]), values := a.values + [OnError(e)]),
               CloseReply(m))
    case CloseReply(m) =>
      var a := s.asks[m.id];
      Update(s, m.id, a.(reply := a.reply.(open := false)), CloseError(m))
    case CloseError(m) =>
      var a := s.asks[m.id];
      Update(s, m.id, a.(error := a.error.(open := false), stage := Answered), Select)
    case CloseMailbox => s.(mailboxOpen := false, loop := Drain)
    case Drain =>
      if s.mailbox == [] then s.(loop := Exited)
      else
        var m := s.mailbox[0];
        var s1 := s.(mailbox := s.mailbox[1..], drained := s.drained + [m]);
        if m.ask then Update(s1, m.id, s.asks[m.id].(stage := Draining), DrainSend(m)) else s1
    case DrainSend(m) =>
      var a := s.asks[m.id].(stage := Drained);
      Update(s, m.id,
             if Room(a.error) then
               a.(error := a.error.(buf := a.error.buf + [StoppedBeforeProcessing]),
                  values := a.values + [OnError(StoppedBeforeProcessing)])
             else a,
             Drain)
  }

  // ----- invariant -----

  predicate Untouched(a: Ask) {
    a.reply == Chan([], true) && a.error == Chan([], true) && a.values == []
  }

  /** What is in the channels is what was put there, and nothing but the computed outcome
      or the drain error is ever put there. */
  predicate ValuesOk(a: Ask) {
    && |a.values| <= 1
    && (a.reply.buf != [] ==> |a.reply.buf| == 1 && a.values == [OnReply(a.reply.buf[0])])
    && (a.error.buf != [] ==> |a.error.buf| == 1 && a.values == [OnError(a.error.buf[0])])
    && (forall d <- a.values :: DeliveryOk(a, d))
  }

  predicate DeliveryOk(a: Ask, d: Delivery) {
    match d
    case OnReply(v) => a.computed == Some(Response(v))
    case OnError(FromProcessor(e)) => a.computed == Some(Failure(e))
    case OnError(StoppedBeforeProcessing) => a.stage == Drained
  }

  predicate LoopHolds(l: Loop, id: Id) {
    (l.Process? || l.Deliver? || l.CloseReply? || l.CloseError? || l.DrainSend?) && l.m == Msg(id, true)
  }

  predicate AskOk(s: State, id: Id)
    requires id in s.asks
  {
    var a := s.asks[id];
    && ValuesOk(a)
    && match a.stage
       case Unsent => Untouched(a) && a.computed == None && (id in s.callers ==> !s.callers[id].AskWait?)
       case Queued => Untouched(a) && a.computed == None && Msg(id, true) in s.mailbox
       case Running =>
         && LoopHolds(s.loop, id) && !s.loop.DrainSend?
         && (s.loop.Process? || s.loop.Deliver? ==> Untouched(a))
         && (s.loop.Process? ==> a.computed == None)
         && (s.loop.Deliver? ==> a.computed == Some(s.loop.o))
         && (s.loop.CloseReply? ==> a.reply.open && a.error.open)
         && (s.loop.CloseError? ==> !a.reply.open && a.error.open)
       case Answered => !a.reply.open && !a.error.open
       case Draining => Untouched(a) && a.computed == None && s.loop == DrainSend(Msg(id, true))
       case Drained =>
         && a.values == [OnError(StoppedBeforeProcessing)] && a.reply.open && a.error.open && a.computed == None
  }

  predicate MailOk(s: State, i: nat)
    requires i < |s.mailbox|
  {
    var m := s.mailbox[i];
    && (m.ask ==> m.id in s.asks && s.asks[m.id].stage == Queued)
    && (forall j | 0 <= j < i :: s.mailbox[j] != m)
  }

  /** A value put into a channel is still there: only the ask's own caller takes it. */
  predicate Untaken(a: Ask) {
    a.values != [] ==>
      match a.values[0]
      case OnReply(v) => a.reply.buf == [v]
      case OnError(e) => a.error.buf == [e]
  }

  predicate CallerOk(s: State, id: Id)
    requires id in s.callers
  {
    match s.callers[id]
    case TellFirst => Msg(id, false) !in s.accepted
    case TellSecond => Msg(id, false) !in s.accepted
    case AskSend => id in s.asks && s.asks[id].stage == Unsent && Msg(id, true) !in s.accepted
    case AskWait => id in s.asks && Untaken(s.asks[id])
    case Returned(GotReply(Some(v))) => id in s.asks && s.asks[id].computed == Some(Response(Some(v)))
    case Returned(GotError(Some(FromProcessor(e)))) => id in s.asks && s.asks[id].computed == Some(Failure(e))
    case Returned(GotError(Some(StoppedBeforeProcessing))) => id in s.asks && s.asks[id].stage == Drained
    case Returned(_) => true
  }

  predicate LoopOk(s: State) {
    && (LoopHoldsAsk(s.loop) ==>
          && s.loop.m.id in s.asks
          && s.asks[s.loop.m.id].stage == (if s.loop.DrainSend? then Draining else Running))
    && (s.mailboxOpen <==> !(s.loop.Drain? || s.loop.DrainSend? || s.loop.Exited?))
    && (!s.mailboxOpen || s.loop.CloseMailbox? ==> s.stopped)
    && (s.loop.Deliver? || s.loop.CloseReply? || s.loop.CloseError? || s.loop.DrainSend? ==> s.loop.m.ask)
    && (s.loop.Exited? ==> s.mailbox == [])
  }

  predicate LoopHoldsAsk(l: Loop) {
    (l.Process? || l.Deliver? || l.CloseReply? || l.CloseError? || l.DrainSend?) && l.m.ask
  }

  /** Every message accepted was asked for by a caller known to the actor. */
  predicate Known(s: State, m: Msg) {
    m.id in s.callers && (m.ask ==> m.id in s.asks && s.asks[m.id].stage != Unsent)
  }

  predicate Inv(s: State) {
    && s.accepted == s.processed + s.drained + s.mailbox
    && (s.drained != [] ==> !s.mailboxOpen)
    && LoopOk(s)
    && (forall id <- s.asks :: AskOk(s, id) && id in s.callers)
    && (forall id <- s.callers :: CallerOk(s, id))
    && (forall i | 0 <= i < |s.mailbox| :: MailOk(s, i))
    && (forall m <- s.accepted :: Known(s, m))
  }

  // ----- every step keeps the invariant -----

  lemma InitInv(s: State)
    requires Init(s)
    ensures Inv(s)
  {
  }

  /** A step that leaves the loop, the mailbox and the channels alone. */
  lemma CallerMoves(s: State, s': State, id: Id)
    requires Inv(s) && id in s'.callers && s'.callers == s.callers[id := s'.callers[id]]
    requires s' == s.(callers := s'.callers, cancelled := s'.cancelled)
    requires CallerOk(s', id) && (s'.callers[id].AskWait? ==> id in s.callers && s.callers[id].AskWait?)
    ensures Inv(s')
  {
    forall j <- s'.asks ensures AskOk(s', j) && j in s'.callers { assert AskOk(s, j); }
    forall j <- s'.callers ensures CallerOk(s', j) { assert j != id ==> CallerOk(s, j); }
    forall i | 0 <= i < |s'.mailbox| ensures MailOk(s', i) { assert MailOk(s, i); }
    forall m <- s'.accepted ensures Known(s', m) { assert Known(s, m); }
  }

  lemma NewTellInv(s: State, id: Id)
    requires Inv(s) && id !in s.callers
    ensures Inv(Step(s, NewTell(id)))
  {
    forall m <- s.accepted ensures m.id != id { assert Known(s, m); }
    CallerMoves(s, Step(s, NewTell(id)), id);
  }

  lemma NewAskInv(s: State, id: Id)
    requires Inv(s) && id !in s.callers
    ensures Inv(Step(s, NewAsk(id)))
  {
    var s' := Step(s, NewAsk(id));
    forall m <- s.accepted ensures m.id != id { assert Known(s, m); }
    assert id !in s.asks;
    forall j <- s'.asks ensures AskOk(s', j) && j in s'.callers { assert j != id ==> AskOk(s, j); }
    forall j <- s'.callers ensures CallerOk(s', j) { assert j != id ==> CallerOk(s, j); }
    forall i | 0 <= i < |s'.mailbox| ensures MailOk(s', i) { assert MailOk(s, i); }
    forall m <- s'.accepted ensures Known(s', m) { assert Known(s, m); }
  }

  lemma GiveUpInv(s: State, a: Action)
    requires Inv(s) && Enabled(s, a) && (a.SeeStop? || a.SeeCancel? || a.SendDefault?)
    ensures Inv(Step(s, a))
  {
    assert CallerOk(s, a.id);
    CallerMoves(s, Step(s, a), a.id);
  }

  lemma FlagInv(s: State, a: Action)
    requires Inv(s) && Enabled(s, a) && (a.Cancel? || a.Stop?)
    ensures Inv(Step(s, a))
  {
    var s' := Step(s, a);
    forall j <- s'.asks ensures AskOk(s', j) && j in s'.callers { assert AskOk(s, j); }
    forall j <- s'.callers ensures CallerOk(s', j) { assert CallerOk(s, j); }
    forall i | 0 <= i < |s'.mailbox| ensures MailOk(s', i) { assert MailOk(s, i); }
    forall m <- s'.accepted ensures Known(s', m) { assert Known(s, m); }
  }

  lemma SendInv(s: State, id: Id)
    requires Inv(s) && Enabled(s, Send(id))
    ensures Inv(Step(s, Send(id)))
  {
    var s' := Step(s, Send(id));
    var m := Msg(id, s.callers[id].AskSend?);
    assert CallerOk(s, id);
    assert m !in s.mailbox by { assert m in s.mailbox ==> m in s.accepted; }
    forall j <- s'.asks ensures AskOk(s', j) && j in s'.callers { assert AskOk(s, j); }
    forall j <- s'.callers ensures CallerOk(s', j) { assert CallerOk(s, j); }
    forall i | 0 <= i < |s'.mailbox| ensures MailOk(s', i) { assert i < |s.mailbox| ==> MailOk(s, i); }
    forall n <- s'.accepted ensures Known(s', n) { assert n in s.accepted ==> Known(s, n); }
    assert s.processed + s.drained + s.mailbox + [m] == s.processed + s.drained + (s.mailbox + [m]);
  }

  /** Receiving from a reply channel is the ask's own caller finding its own outcome. */
  lemma TakeOwn(s: State, a: Action)
    requires Enabled(s, a) && (a.TakeReply? || a.TakeError?) && AskOk(s, a.id)
    ensures AskOk(Step(s, a), a.id) && CallerOk(Step(s, a), a.id)
  {
    var x := s.asks[a.id];
    if x.values != [] {
      assert DeliveryOk(x, x.values[0]);
    }
  }

  lemma TakeShape(s: State, a: Action)
    requires Enabled(s, a) && (a.TakeReply? || a.TakeError?)
    ensures var s' := Step(s, a);
            && a.id in s'.asks && a.id in s'.callers && s'.asks[a.id].stage == s.asks[a.id].stage
            && s' == s.(asks := s.asks[a.id := s'.asks[a.id]], callers := s.callers[a.id := s'.callers[a.id]])
  {
  }

  lemma TakeFrame(s: State, s': State, id: Id)
    requires Inv(s) && id in s.asks && id in s'.asks && id in s'.callers && s'.asks[id].stage == s.asks[id].stage
    requires s' == s.(asks := s.asks[id := s'.asks[id]], callers := s.callers[id := s'.callers[id]])
    requires AskOk(s', id) && CallerOk(s', id)
    ensures Inv(s')
  {
    hide ValuesOk, Untouched;
    forall j | j in s'.asks && j != id ensures AskOk(s', j) && j in s'.callers { assert AskOk(s, j); }
    forall j | j in s'.callers && j != id ensures CallerOk(s', j) { assert CallerOk(s, j); }
    forall i | 0 <= i < |s'.mailbox| ensures MailOk(s', i) { assert MailOk(s, i); }
    forall m <- s'.accepted ensures Known(s', m) { assert Known(s, m); }
  }

  lemma TakeInv(s: State, a: Action)
    requires Inv(s) && Enabled(s, a) && (a.TakeReply? || a.TakeError?)
    ensures Inv(Step(s, a))
  {
    hide Step, AskOk, CallerOk, MailOk, Known, LoopOk;
    TakeOwn(s, a);
    TakeShape(s, a);
    TakeFrame(s, Step(s, a), a.id);
  }

  /** A step of the loop that works on the ask it holds. */
  lemma LoopWorks(s: State, s': State, id: Id)
    requires Inv(s) && LoopHolds(s.loop, id) && id in s.asks
    requires id in s'.asks && s' == Update(s, id, s'.asks[id], s'.loop)
    requires AskOk(s', id) && s'.asks[id].stage !in {Unsent, Queued}
    requires s.asks[id].computed.Some? ==> s'.asks[id].computed == s.asks[id].computed
    requires Untaken(s.asks[id]) ==> Untaken(s'.asks[id])
    requires LoopOk(s')
    ensures Inv(s')
  {
    forall j | j in s'.asks && j != id ensures AskOk(s', j) && j in s'.callers { assert AskOk(s, j); }
    assert AskOk(s, id);
    forall j <- s'.callers ensures CallerOk(s', j) { assert CallerOk(s, j); }
    forall i | 0 <= i < |s'.mailbox| ensures MailOk(s', i) { assert MailOk(s, i); }
    forall m <- s'.accepted ensures Known(s', m) { assert Known(s, m); }
  }

  /** A step of the loop that touches no ask and no message. */
  lemma LoopIdles(s: State, s': State)
    requires Inv(s) && !LoopHoldsAsk(s.loop) && !LoopHoldsAsk(s'.loop)
    requires s' == s.(loop := s'.loop, mailboxOpen := s'.mailboxOpen) && (s.drained != [] ==> !s'.mailboxOpen)
    requires LoopOk(s')
    ensures Inv(s')
  {
    forall j <- s'.asks ensures AskOk(s', j) && j in s'.callers { assert AskOk(s, j); }
    forall j <- s'.callers ensures CallerOk(s', j) { assert CallerOk(s, j); }
    forall i | 0 <= i < |s'.mailbox| ensures MailOk(s', i) { assert MailOk(s, i); }
    forall m <- s'.accepted ensures Known(s', m) { assert Known(s, m); }
  }

  lemma ProcessInv(s: State, c: LoopChoice)
    requires Inv(s) && LoopEnabled(s, c) && s.loop.Process?
    ensures Inv(LoopNext(s, c))
  {
    var s' := LoopNext(s, c);
    if s.loop.m.ask {
      assert AskOk(s, s.loop.m.id);
      LoopWorks(s, s', s.loop.m.id);
    } else {
      LoopIdles(s, s');
    }
  }

  lemma DeliverOwn(s: State, c: LoopChoice)
    requires LoopEnabled(s, c) && s.loop.Deliver? && s.loop.m.ask && s.loop.m.id in s.asks
    requires AskOk(s, s.loop.m.id) && s.asks[s.loop.m.id].stage == Running
    ensures AskOk(LoopNext(s, c), s.loop.m.id)
  {
    var a := LoopNext(s, c).asks[s.loop.m.id];
    if c.Put? {
      assert DeliveryOk(a, a.values[0]);
    }
  }

  lemma DeliverInv(s: State, c: LoopChoice)
    requires Inv(s) && LoopEnabled(s, c) && s.loop.Deliver?
    ensures Inv(LoopNext(s, c))
  {
    var s' := LoopNext(s, c);
    var id := s.loop.m.id;
    assert AskOk(s, id);
    DeliverOwn(s, c);
    assert s'.asks == s.asks[id := s'.asks[id]];
    LoopWorks(s, s', id);
  }

  lemma CloseReplyInv(s: State, c: LoopChoice)
    requires Inv(s) && LoopEnabled(s, c) && (s.loop.CloseReply? || s.loop.CloseError?)
    ensures Inv(LoopNext(s, c))
  {
    var s' := LoopNext(s, c);
    var id := s.loop.m.id;
    assert AskOk(s, id);
    assert AskOk(s', id) by {
      var a, a' := s.asks[id], s'.asks[id];
      assert a.values != [] ==> DeliveryOk(a, a.values[0]);
    }
    LoopWorks(s, s', id);
  }

  lemma DrainSendInv(s: State, c: LoopChoice)
    requires Inv(s) && LoopEnabled(s, c) && s.loop.DrainSend?
    ensures Inv(LoopNext(s, c))
  {
    hide CallerOk, MailOk, Known;
    var s' := LoopNext(s, c);
    assert AskOk(s, s.loop.m.id);
    LoopWorks(s, s', s.loop.m.id);
  }

  /** Taking the first message out of the mailbox, to process it or to drain it. */
  lemma PopInv(s: State, s': State, st: Stage)
    requires Inv(s) && s.mailbox != [] && Popped(s, s', st)
    requires s'.accepted == s'.processed + s'.drained + s'.mailbox && (s'.drained != [] ==> !s'.mailboxOpen)
    requires LoopOk(s')
    ensures Inv(s')
  {
    hide AskOk, CallerOk, MailOk, Known, LoopOk, Popped;
    PopAsks(s, s', st);
    PopRest(s, s', st);
  }

  /** The message at the front has been taken off the mailbox and, if it is an Ask, moved to
      stage `st`; the loop holds it. */
  predicate Popped(s: State, s': State, st: Stage)
    requires s.mailbox != []
  {
    var m := s.mailbox[0];
    && !LoopHoldsAsk(s.loop) && (st == Running || st == Draining)
    && s' == s.(mailbox := s.mailbox[1..], asks := s'.asks, loop := s'.loop,
                processed := s'.processed, drained := s'.drained)
    && s'.asks == (if m.ask && m.id in s.asks then s.asks[m.id := s.asks[m.id].(stage := st)] else s.asks)
    && (m.ask ==> LoopHolds(s'.loop, m.id) && (s'.loop.DrainSend? <==> st == Draining)
                  && (s'.loop.Process? || s'.loop.DrainSend?))
    && (!m.ask ==> !LoopHoldsAsk(s'.loop))
  }

  lemma PopAsks(s: State, s': State, st: Stage)
    requires s.mailbox != [] && Popped(s, s', st) && MailOk(s, 0)
    requires forall j <- s.asks :: AskOk(s, j) && j in s.callers
    ensures forall j <- s'.asks :: AskOk(s', j) && j in s'.callers
  {
    hide DeliveryOk;
    forall j <- s'.asks ensures AskOk(s', j) && j in s'.callers {
      assert AskOk(s, j);
      if Msg(j, true) in s.mailbox && Msg(j, true) != s.mailbox[0] {
        assert Msg(j, true) in s'.mailbox;
      }
    }
  }

  lemma PopRest(s: State, s': State, st: Stage)
    requires s.mailbox != [] && Popped(s, s', st)
    requires (forall j <- s.callers :: CallerOk(s, j)) && (forall m <- s.accepted :: Known(s, m))
    requires forall i | 0 <= i < |s.mailbox| :: MailOk(s, i)
    ensures (forall j <- s'.callers :: CallerOk(s', j)) && (forall m <- s'.accepted :: Known(s', m))
    ensures forall i | 0 <= i < |s'.mailbox| :: MailOk(s', i)
  {
    assert MailOk(s, 0);
    forall j <- s'.callers ensures CallerOk(s', j) { assert CallerOk(s, j); }
    forall i | 0 <= i < |s'.mailbox| ensures MailOk(s', i) {
      assert MailOk(s, i + 1);
      assert s'.mailbox[i] == s.mailbox[i + 1];
    }
    forall n <- s'.accepted ensures Known(s', n) { assert Known(s, n); }
  }

  lemma ReceiveInv(s: State, c: LoopChoice)
    requires Inv(s) && LoopEnabled(s, c) && s.loop.Select? && c.Receive?
    ensures Inv(LoopNext(s, c))
  {
    hide AskOk, CallerOk, Known, ValuesOk;
    var s' := LoopNext(s, c);
    assert MailOk(s, 0);
    assert s.mailbox == [s.mailbox[0]] + s.mailbox[1..];
    PopInv(s, s', Running);
  }

  lemma DrainInv(s: State, c: LoopChoice)
    requires Inv(s) && LoopEnabled(s, c) && s.loop.Drain?
    ensures Inv(LoopNext(s, c))
  {
    var s' := LoopNext(s, c);
    if s.mailbox == [] {
      LoopIdles(s, s');
    } else {
      assert MailOk(s, 0);
      assert s.mailbox == [s.mailbox[0]] + s.mailbox[1..];
      PopInv(s, s', Draining);
    }
  }

  lemma LoopInv(s: State, c: LoopChoice)
    requires Inv(s) && LoopEnabled(s, c)
    ensures Inv(LoopNext(s, c))
  {
    match s.loop
    case Select => if c.Receive? { ReceiveInv(s, c); } else { LoopIdles(s, LoopNext(s, c)); }
    case Process(_) => ProcessInv(s, c);
    case Deliver(_, _) => DeliverInv(s, c);
    case CloseReply(_) => CloseReplyInv(s, c);
    case CloseError(_) => CloseReplyInv(s, c);
    case CloseMailbox => LoopIdles(s, LoopNext(s, c));
    case Drain => DrainInv(s, c);
    case DrainSend(_) => DrainSendInv(s, c);
  }

  lemma StepInv(s: State, a: Action)
    requires Inv(s) && Enabled(s, a)
    ensures Inv(Step(s, a))
  {
    match a
    case NewTell(id) => NewTellInv(s, id);
    case NewAsk(id) => NewAskInv(s, id);
    case Send(id) => SendInv(s, id);
    case LoopStep(c) => LoopInv(s, c);
    case TakeReply(_) => TakeInv(s, a);
    case TakeError(_) => TakeInv(s, a);
    case Cancel(_) => FlagInv(s, a);
    case Stop => FlagInv(s, a);
    case _ => GiveUpInv(s, a);
  }

  // ----- runs -----

  ghost predicate IsRun(run: seq<State>, acts: seq<Action>) {
    && |run| == |acts| + 1 && Init(run[0])
    && (forall i | 0 <= i < |acts| :: IsStep(run[i], acts[i], run[i + 1]))
  }

  ghost predicate IsStep(s: State, a: Action, s': State) {
    Enabled(s, a) && s' == Step(s, a)
  }

  lemma {:induction false} RunInv(run: seq<State>, acts: seq<Action>, i: nat)
    requires IsRun(run, acts) && i < |run|
    ensures Inv(run[i])
  {
    if i == 0 {
      InitInv(run[0]);
    } else {
      RunInv(run, acts, i - 1);
      assert IsStep(run[i - 1], acts[i - 1], run[i - 1 + 1]);
      StepInv(run[i - 1], acts[i - 1]);
    }
  }

  // ----- what callers are told -----

  /** What a caller has been told agrees with what happened to its message: a Tell was
      accepted exactly if it was told so, a waiting or answered Ask was accepted, and the
      other errors have their cause. */
  predicate AnswerOk(s: State, id: Id)
    requires id in s.callers
  {
    var c := s.callers[id];
    && (Msg(id, false) in s.accepted <==> c == Returned(TellAccepted))
    && (c.AskWait? || (c.Returned? && (c.r.GotReply? || c.r.GotError?)) ==> Msg(id, true) in s.accepted)
    && (c.TellFirst? || c.TellSecond? || c.AskSend? || c == Returned(ErrFull) ==> Msg(id, true) !in s.accepted)
    && (c == Returned(ErrStopped) ==> s.stopped)
    && (c == Returned(ErrContext) ==> id in s.cancelled)
  }

  predicate AnswersOk(s: State) {
    && (forall id <- s.callers :: AnswerOk(s, id))
    && (forall m <- s.accepted :: m.id in s.callers)
  }

  lemma AnswersStep(s: State, a: Action)
    requires AnswersOk(s) && Enabled(s, a)
    ensures AnswersOk(Step(s, a))
  {
    var s' := Step(s, a);
    if a.LoopStep? {
      LoopTellsNobody(s, a.c);
    }
    hide LoopNext, LoopEnabled;
    forall id <- s'.callers ensures AnswerOk(s', id) {
      assert id in s.callers ==> AnswerOk(s, id);
      assert id !in s.callers ==> Msg(id, false) !in s.accepted && Msg(id, true) !in s.accepted;
    }
  }

  lemma LoopTellsNobody(s: State, c: LoopChoice)
    requires LoopEnabled(s, c)
    ensures var s' := LoopNext(s, c);
            s'.callers == s.callers && s'.accepted == s.accepted && s'.stopped == s.stopped && s'.cancelled == s.cancelled
  {
  }

  lemma {:induction false} CallersAreToldTheTruth(run: seq<State>, acts: seq<Action>, i: nat)
    requires IsRun(run, acts) && i < |run|
    ensures AnswersOk(run[i])
  {
    if i > 0 {
      CallersAreToldTheTruth(run, acts, i - 1);
      assert IsStep(run[i - 1], acts[i - 1], run[i - 1 + 1]);
      hide Enabled, Step, AnswersOk;
      AnswersStep(run[i - 1], acts[i - 1]);
    }
  }

  /** The loop has dealt with the outcome computed for the Ask. */
  predicate DealtWith(s: State, id: Id)
    requires id in s.asks
  {
    || s.asks[id].stage == Answered
    || (LoopHolds(s.loop, id) && (s.loop.CloseReply? || s.loop.CloseError?))
  }

  /** It has been delivered, unless the actor was stopped or the caller's context done. */
  predicate DeliveredOk(s: State, id: Id)
    requires id in s.asks
  {
    DealtWith(s, id) ==> s.asks[id].values != [] || s.stopped || id in s.cancelled
  }

  lemma CallersDeliver(s: State, a: Action, id: Id)
    requires Enabled(s, a) && !a.LoopStep? && id in Step(s, a).asks && (id in s.asks ==> DeliveredOk(s, id))
    requires id !in s.callers ==> !LoopHolds(s.loop, id)
    requires a.Send? && a.id == id && s.callers[id].AskSend? ==> !LoopHolds(s.loop, id)
    ensures DeliveredOk(Step(s, a), id)
  {
  }

  lemma LoopDelivers(s: State, c: LoopChoice, id: Id)
    requires LoopEnabled(s, c) && id in s.asks && DeliveredOk(s, id)
    requires LoopOk(s)
    ensures id in LoopNext(s, c).asks && DeliveredOk(LoopNext(s, c), id)
  {
  }

  /** In every run an outcome is dropped only after Stop or when its caller's context is
      done: otherwise an answered Ask has had its value delivered. */
  lemma {:induction false} OutcomesAreDelivered(run: seq<State>, acts: seq<Action>, i: nat, id: Id)
    requires IsRun(run, acts) && i < |run| && id in run[i].asks
    ensures DeliveredOk(run[i], id)
  {
    if i > 0 {
      var s, a := run[i - 1], acts[i - 1];
      if id in s.asks {
        OutcomesAreDelivered(run, acts, i - 1, id);
        assert DeliveredOk(s, id);
      }
      RunInv(run, acts, i - 1);
      assert IsStep(s, a, run[i - 1 + 1]);
      DeliverStep(s, a, id);
    }
  }

  lemma DeliverStep(s: State, a: Action, id: Id)
    requires Inv(s) && Enabled(s, a) && id in Step(s, a).asks && (id in s.asks ==> DeliveredOk(s, id))
    ensures DeliveredOk(Step(s, a), id)
  {
    if a.LoopStep? {
      LoopAsksSame(s, a.c, id);
      LoopDelivers(s, a.c, id);
    } else {
      NewcomerNotHeld(s, a, id);
      hide Inv;
      CallersDeliver(s, a, id);
    }
  }

  lemma LoopAsksSame(s: State, c: LoopChoice, id: Id)
    requires LoopEnabled(s, c)
    ensures id in LoopNext(s, c).asks <==> id in s.asks
  {
  }

  lemma NewcomerNotHeld(s: State, a: Action, id: Id)
    requires Inv(s) && Enabled(s, a)
    ensures id !in s.callers ==> !LoopHolds(s.loop, id)
    ensures a.Send? && a.id == id && s.callers[id].AskSend? ==> !LoopHolds(s.loop, id)
  {
    if id in s.asks {
      assert AskOk(s, id);
    }
    if id in s.callers {
      assert CallerOk(s, id);
    }
  }

  /** The mailbox was full when caller `id` tried to send in step `i`. */
  predicate FoundFull(run: seq<State>, acts: seq<Action>, i: nat, id: Id) {
    i < |acts| && i < |run| && acts[i] == SendDefault(id) && |run[i].mailbox| >= run[i].cap && !run[i].stopped
  }

  lemma SendDefaultOnly(s: State, a: Action, id: Id)
    requires Enabled(s, a) && id in Step(s, a).callers
    ensures var c := Step(s, a).callers[id];
            && (c.TellSecond? ==> (id in s.callers && s.callers[id] == c) || a == SendDefault(id))
            && (c == Returned(ErrFull) ==>
                  id in s.callers && (s.callers[id] == c || (a == SendDefault(id) && s.callers[id].TellSecond?)))
    ensures a == SendDefault(id) ==> |s.mailbox| >= s.cap && !s.stopped
  {
    if a.LoopStep? {
      LoopTellsNobody(s, a.c);
    }
  }

  /** A Tell gives up with "mailbox full" only after finding it full twice. */
  lemma {:induction false} FullTwice(run: seq<State>, acts: seq<Action>, n: nat, id: Id) returns (i: nat, j: nat)
    requires IsRun(run, acts) && n < |run| && id in run[n].callers
    requires run[n].callers[id].TellSecond? || run[n].callers[id] == Returned(ErrFull)
    ensures i < n && FoundFull(run, acts, i, id)
    ensures run[n].callers[id] == Returned(ErrFull) ==> i < j < n && FoundFull(run, acts, j, id)
  {
    assert n > 0;
    var s := run[n - 1];
    assert IsStep(s, acts[n - 1], run[n - 1 + 1]);
    SendDefaultOnly(s, acts[n - 1], id);
    hide Step, Enabled;
    if id in s.callers && s.callers[id] == run[n].callers[id] {
      i, j := FullTwice(run, acts, n - 1, id);
    } else if run[n].callers[id].TellSecond? {
      i, j := n - 1, n - 1;
    } else {
      i, j := FullTwice(run, acts, n - 1, id);
      j := n - 1;
    }
  }

  /** Nothing accepted is lost, duplicated or reordered. */
  lemma AcceptedInOrder(run: seq<State>, acts: seq<Action>, i: nat)
    requires IsRun(run, acts) && i < |run|
    ensures run[i].accepted == run[i].processed + run[i].drained + run[i].mailbox
    ensures run[i].drained != [] ==> !run[i].mailboxOpen
  {
    RunInv(run, acts, i);
  }

  /** At most one value is ever put into the two channels of an Ask, and it is the outcome
      computed for that very message or the drain error of a message never processed. */
  lemma AtMostOneValue(run: seq<State>, acts: seq<Action>, i: nat, id: Id)
    requires IsRun(run, acts) && i < |run| && id in run[i].asks
    ensures var a := run[i].asks[id];
            && |a.values| <= 1
            && (forall d <- a.values ::
                  match d
                  case OnReply(v) => a.computed == Some(Response(v))
                  case OnError(FromProcessor(e)) => a.computed == Some(Failure(e))
                  case OnError(StoppedBeforeProcessing) => a.stage == Drained && a.computed == None)
  {
    RunInv(run, acts, i);
    var s := run[i];
    var a := s.asks[id];
    assert AskOk(s, id);
    forall d <- a.values
      ensures match d
              case OnReply(v) => a.computed == Some(Response(v))
              case OnError(FromProcessor(e)) => a.computed == Some(Failure(e))
              case OnError(StoppedBeforeProcessing) => a.stage == Drained && a.computed == None
    {
      assert DeliveryOk(a, d);
    }
  }

  /** Whatever non-nil result Ask returns through its channels was computed for its own
      message, or is the drain error of its own message. */
  lemma AskReturnsOwnOutcome(run: seq<State>, acts: seq<Action>, i: nat, id: Id)
    requires IsRun(run, acts) && i < |run| && id in run[i].callers && run[i].callers[id].Returned?
    ensures var s := run[i];
            match s.callers[id].r
            case GotReply(Some(v)) => id in s.asks && s.asks[id].computed == Some(Response(Some(v)))
            case GotError(Some(FromProcessor(e))) => id in s.asks && s.asks[id].computed == Some(Failure(e))
            case GotError(Some(StoppedBeforeProcessing)) => id in s.asks && s.asks[id].stage == Drained
            case _ => true
  {
    RunInv(run, acts, i);
    assert CallerOk(run[i], id);
  }

  /** The loop can always go on, whatever its callers do, except that it waits in its
      select for a message or for Stop; in particular it never blocks on a reply, never
      sends on a closed channel and never closes one twice. */
  lemma LoopNeverBlocks(run: seq<State>, acts: seq<Action>, i: nat)
    requires IsRun(run, acts) && i < |run|
    ensures var s := run[i];
            || (exists c :: LoopEnabled(s, c))
            || (s.loop.Select? && s.mailbox == [] && !s.stopped)
            || s.loop.Exited?
    ensures run[i].loop.Deliver? ==> LoopEnabled(run[i], Put)
  {
    var s := run[i];
    RunInv(run, acts, i);
    match s.loop
    case Select =>
      if s.mailbox != [] {
        assert LoopEnabled(s, Receive);
      } else if s.stopped {
        assert LoopEnabled(s, NoticeStop);
      }
    case Process(m) => assert LoopEnabled(s, Result(Failure(0)));
    case Deliver(m, o) =>
      assert AskOk(s, m.id);
      assert LoopEnabled(s, Put);
    case Drain =>
      assert s.mailbox != [] ==> MailOk(s, 0);
      assert LoopEnabled(s, Go);
    case Exited =>
    case CloseMailbox => assert LoopEnabled(s, Go);
    case CloseReply(m) =>
      assert AskOk(s, m.id);
      assert LoopEnabled(s, Go);
    case CloseError(m) =>
      assert AskOk(s, m.id);
      assert LoopEnabled(s, Go);
    case DrainSend(m) =>
      assert AskOk(s, m.id);
      assert LoopEnabled(s, Go);
  }

  /** When the loop has exited, every accepted Ask has had a value put into its channels or
      finds both of them closed. */
  lemma ExitLeavesNobodyWaiting(run: seq<State>, acts: seq<Action>, i: nat, m: Msg)
    requires IsRun(run, acts) && i < |run| && run[i].loop.Exited? && m in run[i].accepted && m.ask
    ensures var s := run[i];
            && m.id in s.asks
            && (|s.asks[m.id].values| == 1 || (!s.asks[m.id].reply.open && !s.asks[m.id].error.open))
            && (m in s.processed || m in s.drained)
  {
    RunInv(run, acts, i);
    assert Known(run[i], m);
    assert AskOk(run[i], m.id);
  }

  /** What taking from a channel gives the waiting caller. */
  predicate Returns(s: State, a: Action, id: Id, r: Return) {
    Enabled(s, a) && id in Step(s, a).callers && Step(s, a).callers[id] == Returned(r)
  }

  /** When a waiting Ask can return nil with a nil error, in every reachable state: through
      a channel exactly when that channel is closed and the value, if any, is not on it; and
      through the reply channel also when the response computed is nil. So a response is lost
      exactly when the error channel is closed, and an error or the drain's error exactly
      when the reply channel is. */
  lemma WaitingAskMayReturnNil(run: seq<State>, acts: seq<Action>, i: nat, id: Id)
    requires IsRun(run, acts) && i < |run| && id in run[i].callers && run[i].callers[id].AskWait?
    ensures id in run[i].asks && |run[i].asks[id].values| <= 1
    ensures var s := run[i];
            var a := s.asks[id];
            if a.values == [] then
              && (Enabled(s, TakeReply(id)) <==> !a.reply.open) && (Enabled(s, TakeError(id)) <==> !a.error.open)
              && (!a.reply.open ==> Returns(s, TakeReply(id), id, GotReply(None)))
              && (!a.error.open ==> Returns(s, TakeError(id), id, GotError(None)))
            else
              match a.values[0]
              case OnReply(v) =>
                && Returns(s, TakeReply(id), id, GotReply(v))
                && (Enabled(s, TakeError(id)) <==> !a.error.open)
                && (!a.error.open ==> Returns(s, TakeError(id), id, GotError(None)))
              case OnError(e) =>
                && Returns(s, TakeError(id), id, GotError(Some(e)))
                && (Enabled(s, TakeReply(id)) <==> !a.reply.open)
                && (!a.reply.open ==> Returns(s, TakeReply(id), id, GotReply(None)))
  {
    RunInv(run, acts, i);
    assert CallerOk(run[i], id);
    assert AskOk(run[i], id);
  }

  lemma RunGrows(run: seq<State>, acts: seq<Action>, a: Action)
    requires IsRun(run, acts) && Enabled(run[|run| - 1], a)
    ensures IsRun(run + [Step(run[|run| - 1], a)], acts + [a])
  {
    var run' := run + [Step(run[|run| - 1], a)];
    var acts' := acts + [a];
    forall i | 0 <= i < |acts'| ensures IsStep(run'[i], acts'[i], run'[i + 1]) {
      assert i < |acts| ==> IsStep(run[i], acts[i], run[i + 1]);
    }
  }

  /** The one state after Ask 0 has been accepted by an actor with room for one message,
      with its channels, its stage and the loop as given. */
  function OneAsk(mail: seq<Msg>, c: Caller, a: Ask, l: Loop, processed: seq<Msg>): State {
    State(mail, true, 1, false, map[0 := c], map[0 := a], {}, l, [Msg(0, true)], processed, [])
  }

  lemma AskAccepted() returns (run: seq<State>, acts: seq<Action>)
    ensures IsRun(run, acts)
    ensures run[|run| - 1] == OneAsk([Msg(0, true)], AskWait, NEW_ASK.(stage := Queued), Select, [])
  {
    var s0 := State([], true, 1, false, map[], map[], {}, Select, [], [], []);
    run, acts := [s0], [];
    RunGrows(run, acts, NewAsk(0));
    run, acts := run + [Step(s0, NewAsk(0))], acts + [NewAsk(0)];
    RunGrows(run, acts, Send(0));
    run, acts := run + [Step(run[1], Send(0))], acts + [Send(0)];
  }

  /** Ask 0 with the outcome `o` computed for it. */
  lemma AskProcessed(o: Outcome) returns (run: seq<State>, acts: seq<Action>)
    ensures IsRun(run, acts)
    ensures run[|run| - 1] ==
            OneAsk([], AskWait, NEW_ASK.(stage := Running, computed := Some(o)), Deliver(Msg(0, true), o), [Msg(0, true)])
  {
    run, acts := AskAccepted();
    var s := run[|run| - 1];
    RunGrows(run, acts, LoopStep(Receive));
    run, acts := run + [Step(s, LoopStep(Receive))], acts + [LoopStep(Receive)];
    var s1 := run[|run| - 1];
    var done := LoopStep(Result(o));
    RunGrows(run, acts, done);
    run, acts := run + [Step(s1, done)], acts + [done];
  }

  lemma AskAnswered() returns (run: seq<State>, acts: seq<Action>)
    ensures IsRun(run, acts)
    ensures run[|run| - 1] ==
            OneAsk([], AskWait,
                   Ask(Chan([Some(7)], false), Chan([], false), Answered, [OnReply(Some(7))], Some(Response(Some(7)))),
                   Select, [Msg(0, true)])
  {
    run, acts := AskProcessed(Response(Some(7)));
    var s := run[|run| - 1];
    RunGrows(run, acts, LoopStep(Put));
    run, acts := run + [Step(s, LoopStep(Put))], acts + [LoopStep(Put)];
    var s1 := run[|run| - 1];
    RunGrows(run, acts, LoopStep(Go));
    run, acts := run + [Step(s1, LoopStep(Go))], acts + [LoopStep(Go)];
    var s2 := run[|run| - 1];
    RunGrows(run, acts, LoopStep(Go));
    run, acts := run + [Step(s2, LoopStep(Go))], acts + [LoopStep(Go)];
    var a := run[|run| - 1].asks[0];
    assert run[|run| - 1].asks == map[0 := a];
    assert a == Ask(Chan([Some(7)], false), Chan([], false), Answered, [OnReply(Some(7))], Some(Response(Some(7))));
  }

  /** Such an Ask can lose the response: the actor answers 7, and the caller, finding both
      channels ready, takes the closed error channel and returns nil with a nil error. */
  lemma ReplyCanBeLost() returns (run: seq<State>, acts: seq<Action>)
    ensures IsRun(run, acts)
    ensures var s := run[|run| - 1];
            && 0 in s.callers && s.callers[0] == Returned(GotError(None))
            && 0 in s.asks && s.asks[0].computed == Some(Response(Some(7)))
            && s.asks[0].values == [OnReply(Some(7))] && !s.stopped && s.cancelled == {}
  {
    run, acts := AskAnswered();
    var s := run[|run| - 1];
    RunGrows(run, acts, TakeError(0));
    run, acts := run + [Step(s, TakeError(0))], acts + [TakeError(0)];
  }

  lemma AskHalfClosed() returns (run: seq<State>, acts: seq<Action>)
    ensures IsRun(run, acts)
    ensures run[|run| - 1] ==
            OneAsk([], AskWait,
                   Ask(Chan([], false), Chan([FromProcessor(5)], true), Running, [OnError(FromProcessor(5))],
                       Some(Failure(5))),
                   CloseError(Msg(0, true)), [Msg(0, true)])
  {
    run, acts := AskProcessed(Failure(5));
    var s := run[|run| - 1];
    RunGrows(run, acts, LoopStep(Put));
    run, acts := run + [Step(s, LoopStep(Put))], acts + [LoopStep(Put)];
    var s1 := run[|run| - 1];
    RunGrows(run, acts, LoopStep(Go));
    run, acts := run + [Step(s1, LoopStep(Go))], acts + [LoopStep(Go)];
    var a := run[|run| - 1].asks[0];
    assert run[|run| - 1].asks == map[0 := a];
    assert a == Ask(Chan([], false), Chan([FromProcessor(5)], true), Running, [OnError(FromProcessor(5))], Some(Failure(5)));
  }

  /** An error can be lost a step earlier than a response: the processor fails with 5, the
      loop delivers that and has closed only the reply channel when the caller takes it and
      returns nil with a nil error. */
  lemma ErrorCanBeLost() returns (run: seq<State>, acts: seq<Action>)
    ensures IsRun(run, acts)
    ensures var s := run[|run| - 1];
            && 0 in s.callers && s.callers[0] == Returned(GotReply(None))
            && 0 in s.asks && s.asks[0].error.open && s.asks[0].computed == Some(Failure(5))
            && s.asks[0].values == [OnError(FromProcessor(5))] && !s.stopped && s.cancelled == {}
  {
    run, acts := AskHalfClosed();
    var s := run[|run| - 1];
    RunGrows(run, acts, TakeReply(0));
    run, acts := run + [Step(s, TakeReply(0))], acts + [TakeReply(0)];
  }
}
