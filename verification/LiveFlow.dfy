/** The bounded reconnect loop of the live flow and the send loop of each attempt,
    interleaved over the shared queue (core/src/agents/llm_agent.ts). */
module LiveFlow {
  import opened Wrappers
  import Seqs
  import Q = LiveQueue

  const MAX_LIVE_RECONNECT_ATTEMPTS := 5

  datatype Result = Returned | Threw

  /** What follows the teardown of an attempt. */
  datatype After = Finish | Reconnect | Rethrow

  datatype FlowPc = LoopTop | Connecting | Receiving | TearingDown(after: After) | Stopped(result: Result)

  /** The send loop of the current attempt. `fromSender` only records whether the
      request in hand was sent by a caller or is the close marker of a closed queue. */
  datatype SendPc =
    | NoLoop
    | Checking
    | Awaiting(reader: nat)
    | Dispatching(request: Q.LiveRequest, fromSender: bool)
    | Ended

  /** A request that an attempt's send loop tried to hand to its connection: it was
      sent, or the dispatch failed and it is lost, since nobody puts it back. */
  datatype Handled = Handled(request: Q.LiveRequest, attempt: nat, sent: bool)

  /** `loops` counts the send loops started; the current one listens to the abort
      signal numbered `loops - 1`, which fires when the attempt is torn down or the
      invocation is aborted. `handled` records what became of the callers' requests the
      send loops took from the queue, over all attempts. */
  datatype State = State(queue: Q.State, pc: FlowPc, send: SendPc, loops: nat, connects: nat,
                         attempts: nat, hasHandle: bool, aborted: bool, sendError: bool,
                         handled: seq<Handled>)

  /** A run may start with a resumption handle from an earlier one. */
  function Start(hasHandle: bool, aborted: bool): State {
    State(Q.EMPTY, LoopTop, NoLoop, 0, 0, 0, hasHandle, aborted, false, [])
  }

  datatype Action =
    // the environment: callers of the queue, the invocation, the server
    | CallerSends(request: Q.LiveRequest)
    | CallerCloses
    | InvocationAborts
    | HandleReceived
      // the reconnect loop
    | EnterLoop
    | Connected(historyAccepted: bool)
    | ConnectFailed(recoverable: bool)
    | TransferStopsSending
    | ReceiveEnded
    | ReceiveFailed(retryable: bool)
    | FinishTeardown
      // the send loop
    | CheckAndGet
    | Resume
    | Dispatched
    | DispatchFailed

  function Signal(s: State): nat { if s.loops == 0 then 0 else s.loops - 1 }

  predicate SignalFired(s: State) { Signal(s) in s.queue.fired }

  function FireSignal(s: State): State {
    s.(queue := Q.Step(s.queue, Q.Abort(Signal(s))))
  }

  predicate Alive(send: SendPc) { !send.NoLoop? && !send.Ended? }

  predicate Enabled(s: State, a: Action) {
    match a
    case CallerSends(_) => true
    case CallerCloses => true
    case InvocationAborts => !s.aborted
    case HandleReceived => s.pc.Receiving?
    case EnterLoop => s.pc.LoopTop?
    case Connected(_) => s.pc.Connecting?
    case ConnectFailed(_) => s.pc.Connecting?
    case TransferStopsSending => s.pc.Receiving?
    case ReceiveEnded => s.pc.Receiving?
    case ReceiveFailed(_) => s.pc.Receiving?
    case FinishTeardown => s.pc.TearingDown? && !Alive(s.send)
    case CheckAndGet => s.send.Checking?
    case Resume => s.send.Awaiting? && s.send.reader in s.queue.settled
    case Dispatched => s.send.Dispatching?
    case DispatchFailed => s.send.Dispatching?
  }

  /** One more failed attempt; the sixth ends the flow. */
  function CountFailure(s: State): State {
    var n := s.attempts + 1;
    s.(attempts := n, pc := if n > MAX_LIVE_RECONNECT_ATTEMPTS then Stopped(Threw) else LoopTop)
  }

  /** A new attempt starts its send loop with its own signal, which is already fired
      when the invocation was aborted meanwhile. */
  function StartSendLoop(s: State): State {
    var t := s.(pc := Receiving, send := Checking, loops := s.loops + 1, sendError := false);
    if s.aborted then FireSignal(t) else t
  }

  function EndAttempt(s: State, after: After): State {
    FireSignal(s).(pc := TearingDown(after))
  }

  function Next(s: State, a: Action): State
    requires Enabled(s, a)
  {
    match a
    case CallerSends(request) => s.(queue := Q.Step(s.queue, Q.Send(request)))
    case CallerCloses => s.(queue := Q.Step(s.queue, Q.Close))
    case InvocationAborts =>
      var t := s.(aborted := true);
      if s.pc.Receiving? || s.pc.TearingDown? then FireSignal(t) else t
    case HandleReceived => s.(hasHandle := true)
    case EnterLoop =>
      if s.aborted then s.(pc := Stopped(Returned)) else s.(pc := Connecting, connects := s.connects + 1)
    case Connected(historyAccepted) =>
      if historyAccepted then StartSendLoop(s) else s.(pc := Stopped(Threw))
    case ConnectFailed(recoverable) =>
      if recoverable && s.hasHandle then CountFailure(s) else s.(pc := Stopped(Threw))
    case TransferStopsSending => FireSignal(s)
    case ReceiveEnded => EndAttempt(s, Finish)
    case ReceiveFailed(retryable) => EndAttempt(s, if retryable && s.hasHandle then Reconnect else Rethrow)
    case FinishTeardown =>
      if s.pc.after.Rethrow? then s.(pc := Stopped(Threw))
      else if s.aborted then s.(pc := Stopped(Returned))
      else if s.sendError then s.(pc := Stopped(Threw))
      else if s.pc.after.Finish? then s.(pc := Stopped(Returned))
      else CountFailure(s)
    case CheckAndGet =>
      if SignalFired(s) || s.aborted then s.(send := Ended)
      else s.(send := Awaiting(s.queue.readers), queue := Q.Step(s.queue, Q.Get(Some(Signal(s)))))
    case Resume =>
      (match s.queue.settled[s.send.reader]
       case Resolved(request) => s.(send := Dispatching(request, WasSent(s.queue, s.send.reader)))
       case Aborted =>
         if SignalFired(s) || s.aborted then s.(send := Ended)
         else FireSignal(s.(send := Ended, sendError := true)))
    case Dispatched =>
      Logged(s, true).(send := if s.send.request.close then Ended else Checking)
    case DispatchFailed =>
      if SignalFired(s) || s.aborted then Logged(s, false).(send := Ended)
      else FireSignal(Logged(s, false).(send := Ended, sendError := true))
  }

  /** The reader's promise was settled with a request some caller sent. */
  predicate WasSent(q: Q.State, reader: nat) {
    q.delivered != [] && q.delivered[|q.delivered| - 1].0 == reader
  }

  function Logged(s: State, sent: bool): State
    requires s.send.Dispatching?
  {
    if s.send.fromSender then s.(handled := s.handled + [Handled(s.send.request, Signal(s), sent)]) else s
  }

  function Taken(handled: seq<Handled>): seq<Q.LiveRequest> {
    seq(|handled|, i requires 0 <= i < |handled| => handled[i].request)
  }

  /** Runs the enabled actions of a schedule; a disabled one is skipped. */
  function Run(s: State, schedule: seq<Action>): State
    decreases |schedule|
  {
    if schedule == [] then s
    else Run(if Enabled(s, schedule[0]) then Next(s, schedule[0]) else s, schedule[1..])
  }

  // ---------------------------------------------------------------------------
  // Invariant
  // ---------------------------------------------------------------------------

  /** Every connect call after the first was paid for with a counted failure. */
  ghost predicate Bounded(s: State) {
    && (s.pc.Stopped? || s.attempts <= MAX_LIVE_RECONNECT_ATTEMPTS)
    && s.connects <= s.attempts + (if s.pc.LoopTop? then 0 else 1)
    && s.connects <= MAX_LIVE_RECONNECT_ATTEMPTS + 1
  }

  /** The only promise the flow can be waiting for is its current reader's, with the
      signal of the current attempt; a live send loop belongs to a live attempt. */
  ghost predicate OneReader(s: State) {
    && (Alive(s.send) ==> s.pc.Receiving? || s.pc.TearingDown?)
    && |s.queue.waiters| <= 1
    && (s.queue.waiters != [] ==> s.send == Awaiting(s.queue.waiters[0].reader))
    && (s.queue.waiters != [] ==> s.queue.waiters[0].signal == Some(Signal(s)))
    && (s.send.Awaiting? ==> s.send.reader < s.queue.readers)
    && (s.send.Awaiting? && s.queue.waiters == [] ==> s.send.reader in s.queue.settled)
    && (forall x :: x in s.queue.fired ==> x < s.loops)
    && (s.pc.TearingDown? ==> SignalFired(s))
    && (s.pc.Receiving? || s.pc.TearingDown? ==> s.loops > 0)
    && (s.aborted && (s.pc.Receiving? || s.pc.TearingDown?) ==> SignalFired(s))
  }

  /** The request the send loop has taken but not yet handed to the connection. */
  ghost function InHand(s: State): seq<Q.LiveRequest> {
    match s.send
    case Dispatching(request, true) => [request]
    case Awaiting(reader) => if WasSent(s.queue, reader) then [s.queue.delivered[|s.queue.delivered| - 1].1] else []
    case _ => []
  }

  ghost predicate NothingSkipped(s: State) {
    && Q.Requests(s.queue.delivered) == Taken(s.handled) + InHand(s)
    && (s.send.Awaiting? ==> forall i :: 0 <= i < |s.queue.delivered| ==> s.queue.delivered[i].0 <= s.send.reader)
  }

  ghost predicate Invariant(s: State) {
    Q.Valid(s.queue) && Bounded(s) && OneReader(s) && NothingSkipped(s)
  }

  lemma FireReleases(s: State)
    requires OneReader(s) && NothingSkipped(s) && s.loops > 0
    ensures var t := FireSignal(s);
            && OneReader(t) && NothingSkipped(t)
            && SignalFired(t) && t == s.(queue := t.queue)
            && (Signal(s) !in s.queue.fired ==> t.queue.waiters == [])
  {
    var all := s.queue.waiters;
    if all != [] {
      assert all == [all[0]];
    }
    Q.SettleIs(s.queue.settled, Seqs.Filter(all, Q.ListensTo(Signal(s))), Q.Aborted);
  }

  lemma FireKeeps(s: State)
    requires Q.Valid(s.queue) && OneReader(s) && NothingSkipped(s) && s.loops > 0
    ensures var t := FireSignal(s);
            && Q.Valid(t.queue) && OneReader(t) && NothingSkipped(t)
            && SignalFired(t) && t.queue.waiters == []
            && t == s.(queue := t.queue)
  {
    Q.AbortKeeps(s.queue, Signal(s));
    FireReleases(s);
  }

  lemma StartKeeps(s: State)
    requires Invariant(s) && s.pc.Connecting?
    ensures Invariant(StartSendLoop(s))
  {
    var t := s.(pc := Receiving, send := Checking, loops := s.loops + 1, sendError := false);
    assert s.queue.waiters == [] && InHand(s) == [];
    if s.aborted {
      FireKeeps(t.(aborted := false));
    }
  }

  /** Between attempts only the loop's own variables move. */
  lemma MoveOn(s: State, t: State)
    requires Invariant(s) && !Alive(s.send) && Bounded(t)
    requires t == s.(pc := t.pc, attempts := t.attempts, connects := t.connects)
    requires t.pc.LoopTop? || t.pc.Connecting? || t.pc.Stopped?
    ensures Invariant(t)
  {
  }

  lemma EnterKeeps(s: State)
    requires Invariant(s) && s.pc.LoopTop?
    ensures Invariant(Next(s, EnterLoop))
  {
    MoveOn(s, Next(s, EnterLoop));
  }

  lemma ConnectFailedKeeps(s: State, recoverable: bool)
    requires Invariant(s) && s.pc.Connecting?
    ensures Invariant(Next(s, ConnectFailed(recoverable)))
  {
    MoveOn(s, Next(s, ConnectFailed(recoverable)));
  }

  lemma FinishTeardownKeeps(s: State)
    requires Invariant(s) && Enabled(s, FinishTeardown)
    ensures Invariant(Next(s, FinishTeardown))
  {
    MoveOn(s, Next(s, FinishTeardown));
  }

  lemma ConnectedKeeps(s: State, historyAccepted: bool)
    requires Invariant(s) && s.pc.Connecting?
    ensures Invariant(Next(s, Connected(historyAccepted)))
  {
    if historyAccepted {
      StartKeeps(s);
    }
  }

  /** Firing the signal and then moving on keeps the invariant. */
  lemma FireThenKeeps(s: State, pc: FlowPc)
    requires Invariant(s) && s.pc.Receiving? && (pc.Receiving? || pc.TearingDown?)
    ensures Invariant(FireSignal(s).(pc := pc))
  {
    FireKeeps(s);
    FiredMayMove(FireSignal(s), pc, s.aborted);
  }

  /** Once the signal has fired, tearing down and aborting change nothing for the reader. */
  lemma FiredMayMove(s: State, pc: FlowPc, aborted: bool)
    requires OneReader(s) && NothingSkipped(s) && SignalFired(s) && s.loops > 0
    requires pc.Receiving? || pc.TearingDown?
    ensures OneReader(s.(pc := pc, aborted := aborted)) && NothingSkipped(s.(pc := pc, aborted := aborted))
  {
  }

  lemma ReceiveActionKeeps(s: State, a: Action)
    requires Invariant(s) && Enabled(s, a)
    requires a.TransferStopsSending? || a.ReceiveEnded? || a.ReceiveFailed?
    ensures Invariant(Next(s, a))
  {
    FireThenKeeps(s, Next(s, a).pc);
    assert Next(s, a) == FireSignal(s).(pc := Next(s, a).pc);
  }

  lemma AbortKeeps(s: State)
    requires Invariant(s) && Enabled(s, InvocationAborts)
    ensures Invariant(Next(s, InvocationAborts))
  {
    if s.pc.Receiving? || s.pc.TearingDown? {
      FireKeeps(s);
      FiredMayMove(FireSignal(s), s.pc, true);
      assert Next(s, InvocationAborts) == FireSignal(s).(aborted := true);
    }
  }

  /** A request sent while the current reader is parked goes straight to it. */
  lemma HandOverKeeps(s: State, request: Q.LiveRequest)
    requires OneReader(s) && NothingSkipped(s) && !s.queue.closed && s.queue.waiters != []
    requires forall i :: 0 <= i < |s.queue.delivered| ==> s.queue.delivered[i].0 < s.queue.waiters[0].reader
    ensures var t := Next(s, CallerSends(request));
            OneReader(t) && NothingSkipped(t)
  {
    var t := Next(s, CallerSends(request));
    Q.DeliverConserves(s.queue, s.queue.waiters[0].reader, request);
    assert InHand(s) == [] && InHand(t) == [request] && t.queue.waiters == [];
  }

  lemma SendKeeps(s: State, request: Q.LiveRequest)
    requires Invariant(s)
    ensures Invariant(Next(s, CallerSends(request)))
  {
    Q.SendKeeps(s.queue, request);
    if !s.queue.closed {
      if s.queue.waiters != [] {
        HandOverKeeps(s, request);
      } else {
        BufferKeeps(s, request);
      }
    }
  }

  lemma BufferKeeps(s: State, request: Q.LiveRequest)
    requires OneReader(s) && NothingSkipped(s) && !s.queue.closed && s.queue.waiters == []
    ensures var t := Next(s, CallerSends(request));
            OneReader(t) && NothingSkipped(t)
  {
  }

  lemma ClosedKeeps(s: State)
    requires OneReader(s) && NothingSkipped(s) && Q.Rendezvous(s.queue)
    ensures var t := Next(s, CallerCloses);
            OneReader(t) && NothingSkipped(t)
  {
    Q.SettleIs(s.queue.settled, s.queue.waiters, Q.Resolved(Q.CLOSE_MARKER));
  }

  lemma CloseKeeps(s: State)
    requires Invariant(s)
    ensures Invariant(Next(s, CallerCloses))
  {
    Q.CloseKeeps(s.queue);
    ClosedKeeps(s);
  }

  lemma TakeBufferedKeeps(s: State)
    requires Invariant(s) && s.send.Checking? && s.queue.queue != []
    ensures var q := Q.Step(s.queue, Q.Get(Some(Signal(s))));
            Invariant(s.(send := Awaiting(s.queue.readers), queue := q))
  {
    Q.GetKeeps(s.queue, Some(Signal(s)));
    Q.DeliverConserves(s.queue, s.queue.readers, s.queue.queue[0]);
    var q := Q.Step(s.queue, Q.Get(Some(Signal(s))));
    assert WasSent(q, s.queue.readers) && q.waiters == [];
  }

  lemma ParkKeeps(s: State)
    requires Invariant(s) && s.send.Checking? && s.queue.queue == [] && !s.queue.closed && !SignalFired(s)
    ensures var q := Q.Step(s.queue, Q.Get(Some(Signal(s))));
            Invariant(s.(send := Awaiting(s.queue.readers), queue := q))
  {
    Q.GetKeeps(s.queue, Some(Signal(s)));
    var q := Q.Step(s.queue, Q.Get(Some(Signal(s))));
    ParkedKeeps(s, q);
  }

  lemma ParkedKeeps(s: State, q: Q.State)
    requires OneReader(s) && NothingSkipped(s) && s.send.Checking?
    requires forall i :: 0 <= i < |s.queue.delivered| ==> s.queue.delivered[i].0 < s.queue.readers
    requires q == s.queue.(readers := s.queue.readers + 1,
                           waiters := s.queue.waiters + [Q.Waiter(s.queue.readers, Some(Signal(s)))])
    ensures var t := s.(send := Awaiting(s.queue.readers), queue := q);
            OneReader(t) && NothingSkipped(t)
  {
    assert q.waiters == [Q.Waiter(s.queue.readers, Some(Signal(s)))];
  }

  lemma TakeMarkerKeeps(s: State)
    requires Invariant(s) && s.send.Checking? && s.queue.queue == [] && s.queue.closed
    ensures var q := Q.Step(s.queue, Q.Get(Some(Signal(s))));
            Invariant(s.(send := Awaiting(s.queue.readers), queue := q))
  {
    Q.GetKeeps(s.queue, Some(Signal(s)));
    MarkerTaken(s, Q.Step(s.queue, Q.Get(Some(Signal(s)))));
  }

  lemma MarkerTaken(s: State, q: Q.State)
    requires OneReader(s) && NothingSkipped(s) && s.send.Checking?
    requires forall i :: 0 <= i < |s.queue.delivered| ==> s.queue.delivered[i].0 < s.queue.readers
    requires q == s.queue.(readers := s.queue.readers + 1,
                           settled := s.queue.settled[s.queue.readers := Q.Resolved(Q.CLOSE_MARKER)])
    ensures var t := s.(send := Awaiting(s.queue.readers), queue := q);
            OneReader(t) && NothingSkipped(t)
  {
    assert s.queue.waiters == [];
  }

  lemma CheckKeeps(s: State)
    requires Invariant(s) && Enabled(s, CheckAndGet)
    ensures Invariant(Next(s, CheckAndGet))
  {
    if !SignalFired(s) && !s.aborted {
      if s.queue.queue != [] {
        TakeBufferedKeeps(s);
      } else if s.queue.closed {
        TakeMarkerKeeps(s);
      } else {
        ParkKeeps(s);
      }
    }
  }

  /** The send loop fails: its signal fires and the error is kept. */
  lemma SendErrorKeeps(s: State)
    requires Q.Valid(s.queue) && Bounded(s) && OneReader(s) && NothingSkipped(s) && s.send.Ended? && s.loops > 0
    ensures Invariant(FireSignal(s.(sendError := true)))
  {
    FireKeeps(s.(sendError := true));
  }

  lemma ResumeKeeps(s: State)
    requires Invariant(s) && Enabled(s, Resume)
    ensures Invariant(Next(s, Resume))
  {
    if s.queue.settled[s.send.reader].Aborted? {
      NotSentWhenAborted(s);
      ReaderIsDone(s, Ended);
      SendErrorKeeps(s.(send := Ended));
    } else {
      TakenIsInHand(s);
      ReaderIsDone(s, Next(s, Resume).send);
    }
  }

  lemma NotSentWhenAborted(s: State)
    requires Q.Bookkeeping(s.queue) && Enabled(s, Resume) && s.queue.settled[s.send.reader].Aborted?
    ensures InHand(s) == []
  {
  }

  lemma TakenIsInHand(s: State)
    requires Q.Bookkeeping(s.queue) && Enabled(s, Resume) && s.queue.settled[s.send.reader].Resolved?
    ensures InHand(Next(s, Resume)) == InHand(s)
  {
  }

  /** The reader's promise is settled, so the queue no longer knows the send loop. */
  lemma ReaderIsDone(s: State, next: SendPc)
    requires OneReader(s) && NothingSkipped(s) && Q.Bookkeeping(s.queue)
    requires (s.send.Awaiting? && s.send.reader in s.queue.settled) || s.send.Dispatching?
    requires !next.Awaiting? && InHand(s.(send := next)) == InHand(s)
    ensures OneReader(s.(send := next)) && NothingSkipped(s.(send := next))
  {
    assert s.queue.waiters == [];
  }

  lemma LoggedKeeps(s: State, sent: bool, next: SendPc)
    requires Invariant(s) && s.send.Dispatching? && (next.Ended? || next.Checking?)
    ensures Invariant(Logged(s, sent).(send := next))
  {
    assert s.queue.waiters == [];
    RequestIsLogged(s, sent, next);
  }

  lemma RequestIsLogged(s: State, sent: bool, next: SendPc)
    requires OneReader(s) && NothingSkipped(s) && s.queue.waiters == []
    requires s.send.Dispatching? && (next.Ended? || next.Checking?)
    ensures var t := Logged(s, sent).(send := next);
            OneReader(t) && NothingSkipped(t)
  {
    var t := Logged(s, sent).(send := next);
    assert Taken(t.handled) == Taken(s.handled) + InHand(s);
    assert Taken(t.handled) + [] == Taken(t.handled);
  }

  lemma DispatchKeeps(s: State, a: Action)
    requires Invariant(s) && Enabled(s, a) && (a.Dispatched? || a.DispatchFailed?)
    ensures Invariant(Next(s, a))
  {
    if a.Dispatched? {
      LoggedKeeps(s, true, Next(s, a).send);
    } else {
      LoggedKeeps(s, false, Ended);
      SendErrorKeeps(Logged(s, false).(send := Ended));
    }
  }

  lemma NextKeeps(s: State, a: Action)
    requires Invariant(s) && Enabled(s, a)
    ensures Invariant(Next(s, a))
  {
    match a
    case CallerSends(request) => SendKeeps(s, request);
    case CallerCloses => CloseKeeps(s);
    case InvocationAborts => AbortKeeps(s);
    case TransferStopsSending | ReceiveEnded | ReceiveFailed(_) => ReceiveActionKeeps(s, a);
    case CheckAndGet => CheckKeeps(s);
    case Resume => ResumeKeeps(s);
    case Dispatched | DispatchFailed => DispatchKeeps(s, a);
    case EnterLoop => EnterKeeps(s);
    case Connected(historyAccepted) => ConnectedKeeps(s, historyAccepted);
    case ConnectFailed(recoverable) => ConnectFailedKeeps(s, recoverable);
    case FinishTeardown => FinishTeardownKeeps(s);
    case HandleReceived =>
  }

  lemma {:induction false} EveryScheduleKeeps(s: State, schedule: seq<Action>)
    requires Invariant(s)
    ensures Invariant(Run(s, schedule))
    decreases |schedule|
  {
    if schedule != [] {
      var a := schedule[0];
      if Enabled(s, a) {
        NextKeeps(s, a);
      }
      EveryScheduleKeeps(if Enabled(s, a) then Next(s, a) else s, schedule[1..]);
    }
  }

  // ---------------------------------------------------------------------------
  // Main results
  // ---------------------------------------------------------------------------

  lemma Reachable(hasHandle: bool, aborted: bool, schedule: seq<Action>)
    ensures Invariant(Run(Start(hasHandle, aborted), schedule))
  {
    EveryScheduleKeeps(Start(hasHandle, aborted), schedule);
  }

  /** For every pattern of failures and every interleaving, one run of the live flow
      makes at most six connect calls, with or without a handle to begin with. */
  lemma AtMostSixConnects(hasHandle: bool, aborted: bool, schedule: seq<Action>)
    ensures Run(Start(hasHandle, aborted), schedule).connects <= 6
  {
    Reachable(hasHandle, aborted, schedule);
  }

  /** When an attempt starts its send loop, no earlier send loop is running and no
      reader of an earlier attempt is parked in the shared queue, so nobody can take
      a request from the new connection. */
  lemma NewAttemptIsAlone(hasHandle: bool, aborted: bool, schedule: seq<Action>)
    ensures var s := Run(Start(hasHandle, aborted), schedule);
            Enabled(s, Connected(true)) ==> !Alive(s.send) && s.queue.waiters == []
  {
    Reachable(hasHandle, aborted, schedule);
    OneReaderMeans(Run(Start(hasHandle, aborted), schedule));
  }

  lemma OneReaderMeans(s: State)
    requires OneReader(s)
    ensures s.pc.Connecting? ==> !Alive(s.send) && s.queue.waiters == []
  {
  }

  /** Over all attempts together, the requests callers got accepted are, in order, those
      the send loops handled, each sent or lost, then the one in hand, then those still
      buffered for the next attempt: none is handled twice, skipped or overtaken. */
  lemma RequestsAreHandledInOrder(hasHandle: bool, aborted: bool, schedule: seq<Action>)
    ensures var s := Run(Start(hasHandle, aborted), schedule);
            s.queue.accepted == Taken(s.handled) + InHand(s) + s.queue.queue
  {
    Reachable(hasHandle, aborted, schedule);
  }

  // ---------------------------------------------------------------------------
  // Lost requests
  // ---------------------------------------------------------------------------

  function Lost(handled: seq<Handled>): seq<Q.LiveRequest> {
    if handled == [] then []
    else
      var last, before := handled[|handled| - 1], Lost(handled[..|handled| - 1]);
      if last.sent then before else before + [last.request]
  }

  /** The action is a failed dispatch of a caller's request. */
  predicate Loses(s: State, a: Action) {
    Enabled(s, a) && a.DispatchFailed? && s.send.fromSender
  }

  lemma HandledStep(s: State, a: Action)
    requires Enabled(s, a)
    ensures Next(s, a).handled
         == if (a.Dispatched? || a.DispatchFailed?) && s.send.fromSender
            then s.handled + [Handled(s.send.request, Signal(s), a.Dispatched?)]
            else s.handled
  {
  }

  lemma LostLast(handled: seq<Handled>, entry: Handled)
    ensures Lost(handled + [entry]) == if entry.sent then Lost(handled) else Lost(handled) + [entry.request]
  {
    assert (handled + [entry])[..|handled|] == handled;
  }

  lemma LostStep(s: State, a: Action)
    requires Enabled(s, a)
    ensures Lost(Next(s, a).handled) == if Loses(s, a) then Lost(s.handled) + [s.send.request] else Lost(s.handled)
  {
    HandledStep(s, a);
    if a.Dispatched? || a.DispatchFailed? {
      LostLast(s.handled, Handled(s.send.request, Signal(s), a.Dispatched?));
    }
  }

  /** The state a schedule has reached before its action number `i`. */
  function Before(s: State, schedule: seq<Action>, i: nat): State
    requires i <= |schedule|
  {
    Run(s, schedule[..i])
  }

  lemma {:induction false} RunLast(s: State, schedule: seq<Action>, a: Action)
    ensures var t := Run(s, schedule);
            Run(s, schedule + [a]) == if Enabled(t, a) then Next(t, a) else t
    decreases |schedule|
  {
    if schedule == [] {
      assert (schedule + [a])[1..] == [];
    } else {
      assert (schedule + [a])[1..] == schedule[1..] + [a];
      RunLast(if Enabled(s, schedule[0]) then Next(s, schedule[0]) else s, schedule[1..], a);
    }
  }

  /** The requests callers send before the first of them closes the queue. */
  function SentBeforeClose(schedule: seq<Action>): seq<Q.LiveRequest> {
    if schedule == [] then []
    else
      var before, a := schedule[..|schedule| - 1], schedule[|schedule| - 1];
      SentBeforeClose(before) + if a.CallerSends? && CallerCloses !in before then [a.request] else []
  }

  lemma QueueHears(s: State, a: Action)
    requires Enabled(s, a)
    ensures Next(s, a).queue.closed == (s.queue.closed || a.CallerCloses?)
    ensures Next(s, a).queue.accepted
         == s.queue.accepted + if a.CallerSends? && !s.queue.closed then [a.request] else []
  {
    if a.CallerCloses? && !s.queue.closed {
      Q.PairKeeps(s.queue.(closed := true));
    }
    assert s.queue.accepted + [] == s.queue.accepted;
  }

  /** Over every schedule the queue is closed exactly when a caller closed it, and the
      requests it accepted are exactly those sent before. */
  lemma {:induction false} CallersAreHeard(hasHandle: bool, aborted: bool, schedule: seq<Action>)
    ensures var q := Run(Start(hasHandle, aborted), schedule).queue;
            (q.closed <==> CallerCloses in schedule) && q.accepted == SentBeforeClose(schedule)
  {
    if schedule != [] {
      var before, a := schedule[..|schedule| - 1], schedule[|schedule| - 1];
      assert schedule == before + [a];
      CallersAreHeard(hasHandle, aborted, before);
      RunLast(Start(hasHandle, aborted), before, a);
      var s := Run(Start(hasHandle, aborted), before);
      if Enabled(s, a) {
        QueueHears(s, a);
      }
      assert s.queue.accepted + [] == s.queue.accepted;
    }
  }

  /** The requests whose dispatch fails along a schedule. */
  function LostAlong(s: State, schedule: seq<Action>): seq<Q.LiveRequest> {
    if schedule == [] then []
    else
      var n := |schedule| - 1;
      var t := Run(s, schedule[..n]);
      LostAlong(s, schedule[..n]) + if Loses(t, schedule[n]) then [t.send.request] else []
  }

  lemma {:induction false} LostAreTheFailed(s: State, schedule: seq<Action>)
    ensures Lost(Run(s, schedule).handled) == Lost(s.handled) + LostAlong(s, schedule)
  {
    if schedule == [] {
      assert Lost(s.handled) + [] == Lost(s.handled);
    } else {
      var n := |schedule| - 1;
      assert schedule == schedule[..n] + [schedule[n]];
      LostAreTheFailed(s, schedule[..n]);
      RunLast(s, schedule[..n], schedule[n]);
      if Enabled(Run(s, schedule[..n]), schedule[n]) {
        LostStep(Run(s, schedule[..n]), schedule[n]);
      }
    }
  }

  lemma {:induction false} NoneAlongIff(s: State, schedule: seq<Action>)
    ensures LostAlong(s, schedule) == []
       <==> forall i :: 0 <= i < |schedule| ==> !Loses(Before(s, schedule, i), schedule[i])
  {
    if schedule != [] {
      var n := |schedule| - 1;
      NoneAlongIff(s, schedule[..n]);
      assert forall i :: 0 <= i < n ==> Before(s, schedule[..n], i) == Before(s, schedule, i) by {
        assert forall i :: 0 <= i < n ==> schedule[..n][..i] == schedule[..i];
      }
    }
  }

  lemma {:induction false} NoneLostIff(handled: seq<Handled>)
    ensures Lost(handled) == [] <==> forall i :: 0 <= i < |handled| ==> handled[i].sent
  {
    if handled != [] {
      NoneLostIff(handled[..|handled| - 1]);
    }
  }

  /** Over every schedule: the lost requests are those whose dispatch failed, in order;
      so every request that was taken from the queue was sent exactly when no dispatch
      of a caller's request failed. */
  lemma AllSentIff(hasHandle: bool, aborted: bool, schedule: seq<Action>)
    ensures var start := Start(hasHandle, aborted);
            var s := Run(start, schedule);
            && Lost(s.handled) == LostAlong(start, schedule)
            && ((forall i :: 0 <= i < |s.handled| ==> s.handled[i].sent)
                <==> forall i :: 0 <= i < |schedule| ==> !Loses(Before(start, schedule, i), schedule[i]))
  {
    var start := Start(hasHandle, aborted);
    assert [] + LostAlong(start, schedule) == LostAlong(start, schedule);
    LostAreTheFailed(start, schedule);
    NoneAlongIff(start, schedule);
    NoneLostIff(Run(start, schedule).handled);
  }

  lemma RunFirst(s: State, a: Action, rest: seq<Action>)
    requires Enabled(s, a)
    ensures Run(s, [a] + rest) == Run(Next(s, a), rest)
  {
    assert ([a] + rest)[1..] == rest;
  }

  /** The first attempt's send loop waits for a request. */
  const PARKED := State(Q.EMPTY.(waiters := [Q.Waiter(0, Some(0))], readers := 1), Receiving, Awaiting(0), 1, 1,
                        0, false, false, false, [])

  lemma ParksFirst(rest: seq<Action>)
    ensures Run(Start(false, false), [EnterLoop] + ([Connected(true)] + ([CheckAndGet] + rest))) == Run(PARKED, rest)
  {
    var start := Start(false, false);
    var connecting := start.(pc := Connecting, connects := 1);
    var checking := connecting.(pc := Receiving, send := Checking, loops := 1);
    assert Next(start, EnterLoop) == connecting && Next(connecting, Connected(true)) == checking;
    assert Next(checking, CheckAndGet) == PARKED;
    RunFirst(start, EnterLoop, [Connected(true)] + ([CheckAndGet] + rest));
    RunFirst(connecting, Connected(true), [CheckAndGet] + rest);
    RunFirst(checking, CheckAndGet, rest);
  }

  /** The parked reader has been given a request. */
  function Given(request: Q.LiveRequest): State {
    PARKED.(queue := PARKED.queue.(waiters := [], accepted := [request], settled := map[0 := Q.Resolved(request)],
                                   delivered := [(0, request)]))
  }

  lemma ParkedIsGiven(request: Q.LiveRequest)
    ensures Next(PARKED, CallerSends(request)) == Given(request)
  {
  }

  lemma GivenIsTaken(request: Q.LiveRequest)
    ensures Enabled(Given(request), Resume)
    ensures Next(Given(request), Resume) == Given(request).(send := Dispatching(request, true))
  {
  }

  lemma TakenIsLost(request: Q.LiveRequest)
    ensures var s := Given(request).(send := Dispatching(request, true));
            var t := Next(s, DispatchFailed);
            Lost(t.handled) == [request] && t.queue.accepted == [request] && t.queue.queue == []
  {
    LostStep(Given(request).(send := Dispatching(request, true)), DispatchFailed);
  }

  lemma LosesWhatItTakes(request: Q.LiveRequest)
    ensures var s := Run(PARKED, [CallerSends(request)] + ([Resume] + ([DispatchFailed] + [])));
            Lost(s.handled) == [request] && s.queue.accepted == [request] && s.queue.queue == []
  {
    ParkedIsGiven(request);
    GivenIsTaken(request);
    TakenIsLost(request);
    RunFirst(PARKED, CallerSends(request), [Resume] + ([DispatchFailed] + []));
    RunFirst(Given(request), Resume, [DispatchFailed] + []);
    RunFirst(Given(request).(send := Dispatching(request, true)), DispatchFailed, []);
  }

  /** It does happen: the request the first attempt takes fails to be dispatched. */
  lemma FailedDispatchLoses(request: Q.LiveRequest)
    ensures var schedule := [EnterLoop, Connected(true), CheckAndGet, CallerSends(request), Resume, DispatchFailed];
            var s := Run(Start(false, false), schedule);
            Lost(s.handled) == [request] && s.queue.accepted == [request] && s.queue.queue == []
  {
    var rest := [CallerSends(request)] + ([Resume] + ([DispatchFailed] + []));
    assert [EnterLoop, Connected(true), CheckAndGet, CallerSends(request), Resume, DispatchFailed]
        == [EnterLoop] + ([Connected(true)] + ([CheckAndGet] + rest));
    ParksFirst(rest);
    LosesWhatItTakes(request);
  }

  /** Attempts below `bound` lose requests, each one at most. */
  ghost predicate LostOncePerAttempt(handled: seq<Handled>, bound: int) {
    && (forall i :: 0 <= i < |handled| && !handled[i].sent ==> handled[i].attempt < bound)
    && (forall i, j :: 0 <= i < j < |handled| && !handled[i].sent && !handled[j].sent ==>
          handled[i].attempt < handled[j].attempt)
  }

  ghost predicate LossesFit(s: State) {
    && LostOncePerAttempt(s.handled, if Alive(s.send) then s.loops - 1 else s.loops)
    && s.loops + (if s.pc.Connecting? then 1 else 0) <= s.connects
  }

  lemma BoundMayGrow(handled: seq<Handled>, small: int, large: int)
    requires LostOncePerAttempt(handled, small) && small <= large
    ensures LostOncePerAttempt(handled, large)
  {
  }

  lemma OneMoreHandled(handled: seq<Handled>, entry: Handled)
    requires LostOncePerAttempt(handled, entry.attempt)
    ensures LostOncePerAttempt(handled + [entry], if entry.sent then entry.attempt else entry.attempt + 1)
  {
    assert forall i :: 0 <= i < |handled| ==> (handled + [entry])[i] == handled[i];
  }

  lemma DispatchLoses(s: State, a: Action)
    requires OneReader(s) && LossesFit(s) && Enabled(s, a) && (a.Dispatched? || a.DispatchFailed?)
    ensures LossesFit(Next(s, a))
  {
    OneMoreHandled(s.handled, Handled(s.send.request, s.loops - 1, a.Dispatched?));
    BoundMayGrow(s.handled, s.loops - 1, s.loops);
    BoundMayGrow(Next(s, a).handled, if a.Dispatched? then s.loops - 1 else s.loops, s.loops);
  }

  lemma OthersLoseNothing(s: State, a: Action)
    requires Enabled(s, a) && !a.Connected? && !a.Dispatched? && !a.DispatchFailed?
    ensures var t := Next(s, a);
            && t.handled == s.handled && t.loops == s.loops && (Alive(t.send) ==> Alive(s.send))
            && t.connects - (if t.pc.Connecting? then 1 else 0) >= s.connects - (if s.pc.Connecting? then 1 else 0)
  {
  }

  lemma LossesKeep(s: State, a: Action)
    requires OneReader(s) && LossesFit(s) && Enabled(s, a)
    ensures LossesFit(Next(s, a))
  {
    if a.Dispatched? || a.DispatchFailed? {
      DispatchLoses(s, a);
    } else if !a.Connected? {
      OthersLoseNothing(s, a);
      if Alive(s.send) {
        BoundMayGrow(s.handled, s.loops - 1, s.loops);
      }
    }
  }

  lemma {:induction false} LossesFitAlways(s: State, schedule: seq<Action>)
    requires Invariant(s) && LossesFit(s)
    ensures LossesFit(Run(s, schedule))
    decreases |schedule|
  {
    if schedule != [] {
      var a := schedule[0];
      if Enabled(s, a) {
        NextKeeps(s, a);
        LossesKeep(s, a);
      }
      LossesFitAlways(if Enabled(s, a) then Next(s, a) else s, schedule[1..]);
    }
  }

  lemma {:induction false} LostAreFew(handled: seq<Handled>, bound: int)
    requires LostOncePerAttempt(handled, bound) && 0 <= bound
    ensures |Lost(handled)| <= bound
  {
    if handled != [] {
      var n := |handled| - 1;
      LostAreFew(handled[..n], if handled[n].sent then bound else handled[n].attempt);
    }
  }

  lemma LossesReachable(hasHandle: bool, aborted: bool, schedule: seq<Action>)
    ensures LossesFit(Run(Start(hasHandle, aborted), schedule))
  {
    LossesFitAlways(Start(hasHandle, aborted), schedule);
  }

  lemma FewLost(s: State)
    requires LossesFit(s)
    ensures LostOncePerAttempt(s.handled, s.loops) && |Lost(s.handled)| <= s.loops <= s.connects
  {
    BoundMayGrow(s.handled, if Alive(s.send) then s.loops - 1 else s.loops, s.loops);
    LostAreFew(s.handled, s.loops);
  }

  /** Every attempt loses one request at most, so over all reconnections a run of the
      live flow loses no more than six of the accepted requests. */
  lemma AtMostOneLostPerAttempt(hasHandle: bool, aborted: bool, schedule: seq<Action>)
    ensures var s := Run(Start(hasHandle, aborted), schedule);
            LostOncePerAttempt(s.handled, s.loops) && |Lost(s.handled)| <= s.loops <= s.connects <= 6
  {
    LossesReachable(hasHandle, aborted, schedule);
    FewLost(Run(Start(hasHandle, aborted), schedule));
    AtMostSixConnects(hasHandle, aborted, schedule);
  }

  // ---------------------------------------------------------------------------
  // The send loop goes on
  // ---------------------------------------------------------------------------

  predicate IsSendAction(a: Action) {
    a.CheckAndGet? || a.Resume? || a.Dispatched? || a.DispatchFailed?
  }

  /** The last request handled was sent and asked to close the connection. */
  predicate SentClose(handled: seq<Handled>) {
    handled != [] && handled[|handled| - 1].sent && handled[|handled| - 1].request.close
  }

  /** A request in hand that no caller sent is the marker of a closed queue, and a send
      loop ends for a reason. */
  ghost predicate Justified(s: State) {
    && Q.Honest(s.queue)
    && (s.send.Dispatching? && !s.send.fromSender ==> s.queue.closed)
    && (s.send.Ended? ==> SignalFired(s) || s.aborted || s.queue.closed || SentClose(s.handled))
  }

  lemma QueueMoves(q: Q.State, op: Q.Op)
    requires Q.Valid(q) && Q.Honest(q)
    ensures Q.Honest(Q.Step(q, op))
    ensures q.closed ==> Q.Step(q, op).closed
    ensures q.fired <= Q.Step(q, op).fired
  {
    Q.HonestStep(q, op);
    if op.Close? && !q.closed {
      Q.PairKeeps(q.(closed := true));
    }
  }

  lemma OthersJustify(s: State, a: Action)
    requires Q.Valid(s.queue) && Justified(s) && Enabled(s, a) && !IsSendAction(a)
    ensures Justified(Next(s, a))
  {
    match a
    case CallerSends(request) => QueueMoves(s.queue, Q.Send(request));
    case CallerCloses => QueueMoves(s.queue, Q.Close);
    case Connected(_) => QueueMoves(s.queue, Q.Abort(s.loops));
    case InvocationAborts | TransferStopsSending | ReceiveEnded | ReceiveFailed(_) =>
      QueueMoves(s.queue, Q.Abort(Signal(s)));
    case _ =>
  }

  /** A reader that no caller's request reached was told that the queue is closed. */
  lemma MarkerMeansClosed(s: State)
    requires Q.Fair(s.queue) && Q.Honest(s.queue) && NothingSkipped(s) && Enabled(s, Resume)
    requires s.queue.settled[s.send.reader].Resolved? && !WasSent(s.queue, s.send.reader)
    ensures s.queue.closed
  {
    var q, r := s.queue, s.send.reader;
    assert forall i :: 0 <= i < |q.delivered| ==> q.delivered[i].0 < r by {
      var last := |q.delivered| - 1;
      assert forall i :: 0 <= i < last ==> q.delivered[i].0 < q.delivered[last].0;
    }
  }

  lemma ResumeJustifies(s: State)
    requires Q.Valid(s.queue) && NothingSkipped(s) && Justified(s) && Enabled(s, Resume)
    ensures Justified(Next(s, Resume))
  {
    if s.queue.settled[s.send.reader].Aborted? {
      QueueMoves(s.queue, Q.Abort(Signal(s)));
    } else if !WasSent(s.queue, s.send.reader) {
      MarkerMeansClosed(s);
    }
  }

  lemma DispatchJustifies(s: State, a: Action)
    requires Q.Valid(s.queue) && Justified(s) && Enabled(s, a) && (a.Dispatched? || a.DispatchFailed?)
    ensures Justified(Next(s, a))
  {
    QueueMoves(s.queue, Q.Abort(Signal(s)));
  }

  lemma SendActionJustifies(s: State, a: Action)
    requires Q.Valid(s.queue) && NothingSkipped(s) && Justified(s) && Enabled(s, a) && IsSendAction(a)
    ensures Justified(Next(s, a))
  {
    match a
    case CheckAndGet => QueueMoves(s.queue, Q.Get(Some(Signal(s))));
    case Resume => ResumeJustifies(s);
    case Dispatched | DispatchFailed => DispatchJustifies(s, a);
  }

  lemma {:induction false} AlwaysJustified(s: State, schedule: seq<Action>)
    requires Invariant(s) && Justified(s)
    ensures Justified(Run(s, schedule))
    decreases |schedule|
  {
    if schedule != [] {
      var a := schedule[0];
      if Enabled(s, a) {
        NextKeeps(s, a);
        if IsSendAction(a) {
          SendActionJustifies(s, a);
        } else {
          OthersJustify(s, a);
        }
      }
      AlwaysJustified(if Enabled(s, a) then Next(s, a) else s, schedule[1..]);
    }
  }

  /** Over every schedule: a send loop has ended only if its signal fired, the invocation
      was aborted, the queue was closed, or the last request it sent asked for it. */
  lemma SendLoopEndsOnlyIf(hasHandle: bool, aborted: bool, schedule: seq<Action>)
    ensures var s := Run(Start(hasHandle, aborted), schedule);
            s.send.Ended? ==> SignalFired(s) || s.aborted || s.queue.closed || SentClose(s.handled)
  {
    AlwaysJustified(Start(hasHandle, aborted), schedule);
  }

  /** The own steps of a send loop that takes and sends `n` requests. */
  function Turns(n: nat): seq<Action> {
    if n == 0 then [] else [CheckAndGet] + ([Resume] + ([Dispatched] + Turns(n - 1)))
  }

  function AllSent(requests: seq<Q.LiveRequest>, attempt: nat): seq<Handled> {
    seq(|requests|, i requires 0 <= i < |requests| => Handled(requests[i], attempt, true))
  }

  /** The send loop is about to read and nobody has told it to stop. */
  predicate Reads(s: State) {
    s.send.Checking? && !SignalFired(s) && !s.aborted
  }

  lemma OneTurn(s: State, n: nat) returns (t: State)
    requires Q.Valid(s.queue) && Reads(s) && s.queue.queue != [] && n > 0
    ensures Run(s, Turns(n)) == Run(t, Turns(n - 1))
    ensures var r := s.queue.queue[0];
            && t.send == (if r.close then Ended else Checking)
            && t.handled == s.handled + [Handled(r, Signal(s), true)]
            && t.queue.queue == s.queue.queue[1..] && Q.Valid(t.queue)
            && Signal(t) == Signal(s) && (!r.close ==> Reads(t))
  {
    Q.GetKeeps(s.queue, Some(Signal(s)));
    var waiting := Next(s, CheckAndGet);
    assert WasSent(waiting.queue, s.queue.readers);
    var dispatching := Next(waiting, Resume);
    t := Next(dispatching, Dispatched);
    RunFirst(s, CheckAndGet, [Resume] + ([Dispatched] + Turns(n - 1)));
    RunFirst(waiting, Resume, [Dispatched] + Turns(n - 1));
    RunFirst(dispatching, Dispatched, Turns(n - 1));
  }

  lemma SentFirst(q: seq<Q.LiveRequest>, n: nat, attempt: nat, handled: seq<Handled>)
    requires 0 < n <= |q|
    ensures handled + [Handled(q[0], attempt, true)] + AllSent(q[1..][..n - 1], attempt)
         == handled + AllSent(q[..n], attempt)
    ensures q[1..][n - 1..] == q[n..]
  {
    assert AllSent(q[..n], attempt) == [Handled(q[0], attempt, true)] + AllSent(q[1..][..n - 1], attempt);
  }

  lemma {:induction false} TurnsSend(s: State, n: nat)
    requires Q.Valid(s.queue) && Reads(s) && n <= |s.queue.queue|
    requires forall i :: 0 <= i < n - 1 ==> !s.queue.queue[i].close
    ensures var t, taken := Run(s, Turns(n)), s.queue.queue[..n];
            && t.handled == s.handled + AllSent(taken, Signal(s))
            && t.queue.queue == s.queue.queue[n..]
            && t.send == if n > 0 && s.queue.queue[n - 1].close then Ended else Checking
    decreases n
  {
    if n == 0 {
      assert s.handled + [] == s.handled;
    } else {
      var t := OneTurn(s, n);
      SentFirst(s.queue.queue, n, Signal(s), s.handled);
      if n > 1 {
        TurnsSend(t, n - 1);
      }
    }
  }

  /** The send loop serves its queue: whenever it is about to read and nobody has told it
      to stop, its own steps take the buffered requests one after the other and send each
      of them, in order, up to the first that asks to close the connection; only that one
      ends the loop. */
  lemma BufferedAreSent(hasHandle: bool, aborted: bool, schedule: seq<Action>, n: nat)
    ensures var s := Run(Start(hasHandle, aborted), schedule);
            Reads(s) && n <= |s.queue.queue| && (forall i :: 0 <= i < n - 1 ==> !s.queue.queue[i].close) ==>
              var t := Run(s, Turns(n));
              && t.handled == s.handled + AllSent(s.queue.queue[..n], Signal(s))
              && t.queue.queue == s.queue.queue[n..]
              && t.send == if n > 0 && s.queue.queue[n - 1].close then Ended else Checking
  {
    Reachable(hasHandle, aborted, schedule);
    var s := Run(Start(hasHandle, aborted), schedule);
    if Reads(s) && n <= |s.queue.queue| && forall i :: 0 <= i < n - 1 ==> !s.queue.queue[i].close {
      TurnsSend(s, n);
    }
  }

  // ---------------------------------------------------------------------------
  // Teardown
  // ---------------------------------------------------------------------------

  function StepsLeft(send: SendPc): nat {
    match send
    case NoLoop => 0
    case Ended => 0
    case Checking => 1
    case Dispatching(_, _) => 2
    case Awaiting(_) => 3
  }

  /** A teardown never waits in vain: once the signal has fired the send loop can
      always move, ends after at most three of its own steps, and takes no further
      request from the queue. */
  lemma TeardownSettles(hasHandle: bool, aborted: bool, schedule: seq<Action>)
    ensures var s := Run(Start(hasHandle, aborted), schedule);
            SignalFired(s) && Alive(s.send) ==>
              && (exists a :: IsSendAction(a) && Enabled(s, a))
              && (forall a :: IsSendAction(a) && Enabled(s, a) ==>
                    StepsLeft(Next(s, a).send) < StepsLeft(s.send) && Next(s, a).queue == s.queue)
  {
    Reachable(hasHandle, aborted, schedule);
    var s := Run(Start(hasHandle, aborted), schedule);
    if SignalFired(s) && Alive(s.send) {
      SomeSendAction(s);
      forall a | IsSendAction(a) && Enabled(s, a)
        ensures StepsLeft(Next(s, a).send) < StepsLeft(s.send) && Next(s, a).queue == s.queue
      {
        SendActionMoves(s, a);
      }
    }
  }

  lemma SomeSendAction(s: State)
    requires Invariant(s) && SignalFired(s) && Alive(s.send)
    ensures exists a :: IsSendAction(a) && Enabled(s, a)
  {
    match s.send
    case Checking => assert Enabled(s, CheckAndGet);
    case Awaiting(_) => assert Enabled(s, Resume);
    case Dispatching(_, _) => assert Enabled(s, Dispatched);
  }

  lemma SendActionMoves(s: State, a: Action)
    requires SignalFired(s) && IsSendAction(a) && Enabled(s, a)
    ensures StepsLeft(Next(s, a).send) < StepsLeft(s.send) && Next(s, a).queue == s.queue
  {
  }

  // ---------------------------------------------------------------------------
  // The reconnect loop itself
  // ---------------------------------------------------------------------------

  /** What one iteration of the loop meets. `handle` tells whether a resumption
      handle is known when the attempt fails. */
  datatype Attempt =
    | AlreadyAborted
    | ConnectThrows(recoverable: bool, handle: bool)
    | HistoryThrows
    | Ends(invocationAborted: bool, sendFailed: bool)
    | Breaks(retryable: bool, handle: bool, invocationAborted: bool, sendFailed: bool)

  predicate Retries(a: Attempt) {
    match a
    case ConnectThrows(recoverable, handle) => recoverable && handle
    case Breaks(retryable, handle, invocationAborted, sendFailed) =>
      retryable && handle && !invocationAborted && !sendFailed
    case _ => false
  }

  function Verdict(a: Attempt): Result {
    match a
    case AlreadyAborted => Returned
    case ConnectThrows(_, _) => Threw
    case HistoryThrows => Threw
    case Ends(invocationAborted, sendFailed) => if sendFailed && !invocationAborted then Threw else Returned
    case Breaks(retryable, handle, invocationAborted, _) =>
      if retryable && handle && invocationAborted then Returned else Threw
  }

  /** The result once the loop is over: that of the first attempt that is not retried, or
      an error after the sixth that is. */
  function LoopEnd(seen: seq<Attempt>): Option<Result> {
    if seen == [] then None
    else if !Retries(seen[|seen| - 1]) then Some(Verdict(seen[|seen| - 1]))
    else if |seen| == 6 then Some(Threw)
    else None
  }

  /** The loop has come back to its head after every one of these attempts. */
  ghost predicate GoesOn(seen: seq<Attempt>) {
    |seen| <= 5 && forall i :: 0 <= i < |seen| ==> Retries(seen[i])
  }

  function Connects(seen: seq<Attempt>): nat {
    if seen == [] then 0
    else Connects(seen[..|seen| - 1]) + if seen[|seen| - 1].AlreadyAborted? then 0 else 1
  }

  /** One more attempt is over. */
  lemma AttemptIsOver(before: seq<Attempt>, a: Attempt)
    requires GoesOn(before)
    ensures var seen := before + [a];
            && seen[..|seen| - 1] == before
            && Connects(seen) == Connects(before) + (if a.AlreadyAborted? then 0 else 1)
            && LoopEnd(seen) == (if !Retries(a) then Some(Verdict(a)) else if |before| == 5 then Some(Threw) else None)
            && (Retries(a) && |before| < 5 ==> GoesOn(seen))
  {
    assert (before + [a])[..|before|] == before;
  }

  /** The loop goes on over the leading retryable attempts, at most six of them; the
      first other attempt, or the sixth retryable one, decides the result. */
  method RunLiveFlow(attempt: nat -> Attempt) returns (result: Result, connects: nat, seen: seq<Attempt>)
    ensures forall i :: 0 <= i < |seen| ==> seen[i] == attempt(i)
    ensures seen != [] && GoesOn(seen[..|seen| - 1]) && LoopEnd(seen) == Some(result)
    ensures connects == Connects(seen) && connects <= 6
  {
    connects, seen := 0, [];
    var reconnectAttempts := 0;
    while true
      invariant connects == |seen| == reconnectAttempts <= MAX_LIVE_RECONNECT_ATTEMPTS
      invariant GoesOn(seen) && Connects(seen) == connects
      invariant forall i :: 0 <= i < |seen| ==> seen[i] == attempt(i)
      decreases MAX_LIVE_RECONNECT_ATTEMPTS - reconnectAttempts
    {
      var a := attempt(reconnectAttempts);
      AttemptIsOver(seen, a);
      seen := seen + [a];
      if a.AlreadyAborted? {
        return Returned, connects, seen;
      }
      connects := connects + 1;
      match a {
        case ConnectThrows(recoverable, handle) =>
          if !(recoverable && handle) {
            return Threw, connects, seen;
          }
        case HistoryThrows =>
          return Threw, connects, seen;
        case Ends(invocationAborted, sendFailed) =>
          if invocationAborted {
            return Returned, connects, seen;
          }
          return if sendFailed then Threw else Returned, connects, seen;
        case Breaks(retryable, handle, invocationAborted, sendFailed) =>
          if !(retryable && handle) {
            return Threw, connects, seen;
          }
          if invocationAborted {
            return Returned, connects, seen;
          }
          if sendFailed {
            return Threw, connects, seen;
          }
      }
      reconnectAttempts := reconnectAttempts + 1;
      if reconnectAttempts > MAX_LIVE_RECONNECT_ATTEMPTS {
        return Threw, connects, seen;
      }
    }
  }

  // ---------------------------------------------------------------------------
  // Every schedule follows the loop
  // ---------------------------------------------------------------------------

  /** An observer that sees only the actions: the attempts that are over, whether a
      handle is known and the invocation aborted; and, of the current attempt, whether
      its send loop was told to stop or failed, and how its receive loop failed. */
  datatype Seen = Seen(attempts: seq<Attempt>, handle: bool, aborted: bool, told: bool, sendFailed: bool,
                       failure: Option<(bool, bool)>)

  function Watch(w: Seen, a: Action): Seen {
    match a
    case HandleReceived => w.(handle := true)
    case InvocationAborts => w.(aborted := true)
    case EnterLoop => if w.aborted then w.(attempts := w.attempts + [AlreadyAborted]) else w
    case Connected(historyAccepted) =>
      if historyAccepted then w.(told := false, sendFailed := false, failure := None)
      else w.(attempts := w.attempts + [HistoryThrows])
    case ConnectFailed(recoverable) => w.(attempts := w.attempts + [ConnectThrows(recoverable, w.handle)])
    case TransferStopsSending | ReceiveEnded => w.(told := true)
    case ReceiveFailed(retryable) => w.(told := true, failure := Some((retryable, w.handle)))
    case DispatchFailed => if w.told || w.aborted then w else w.(told := true, sendFailed := true)
    case FinishTeardown =>
      w.(attempts := w.attempts + [match w.failure
                                   case None => Ends(w.aborted, w.sendFailed)
                                   case Some((retryable, handle)) =>
                                     Breaks(retryable, handle, w.aborted, w.sendFailed)])
    case _ => w
  }

  /** What the observer has seen of the enabled actions of a schedule. */
  function Observed(s: State, w: Seen, schedule: seq<Action>): Seen
    decreases |schedule|
  {
    if schedule == [] then w
    else if Enabled(s, schedule[0]) then Observed(Next(s, schedule[0]), Watch(w, schedule[0]), schedule[1..])
    else Observed(s, w, schedule[1..])
  }

  function UnderWay(pc: FlowPc): nat {
    if pc.Connecting? || pc.Receiving? || pc.TearingDown? then 1 else 0
  }

  /** The attempts seen so far account for where the loop is. */
  ghost predicate Judged(s: State, seen: seq<Attempt>) {
    && s.connects == Connects(seen) + UnderWay(s.pc)
    && (if s.pc.Stopped? then seen != [] && GoesOn(seen[..|seen| - 1]) && LoopEnd(seen) == Some(s.pc.result)
        else GoesOn(seen) && s.attempts == |seen|)
  }

  function AfterFailure(failure: Option<(bool, bool)>): After {
    match failure
    case None => Finish
    case Some((retryable, handle)) => if retryable && handle then Reconnect else Rethrow
  }

  /** What the observer knows is what the flow will act on. */
  ghost predicate Knows(s: State, w: Seen) {
    && s.hasHandle == w.handle && s.aborted == w.aborted
    && (s.pc.Receiving? || s.pc.TearingDown? ==>
          (SignalFired(s) <==> w.told || w.aborted) && s.sendError == w.sendFailed)
    && (s.pc.Receiving? ==> w.failure == None)
    && (s.pc.TearingDown? ==> s.pc.after == AfterFailure(w.failure))
  }

  /** A read is rejected only because the send loop was told to stop. */
  ghost predicate RejectedInTime(s: State) {
    s.send.Awaiting? && s.send.reader in s.queue.settled && s.queue.settled[s.send.reader].Aborted? ==>
      SignalFired(s)
  }

  /** An attempt is over: retried while the count allows it, or the end of the loop. */
  ghost predicate MovesOn(s: State, x: Attempt, t: State) {
    && !s.pc.Stopped?
    && t.connects - UnderWay(t.pc) == s.connects - UnderWay(s.pc) + (if x.AlreadyAborted? then 0 else 1)
    && (!Retries(x) ==> t.pc == Stopped(Verdict(x)))
    && (Retries(x) ==> t.attempts == s.attempts + 1 && t.pc == if t.attempts > 5 then Stopped(Threw) else LoopTop)
  }

  lemma JudgedLonger(s: State, seen: seq<Attempt>, x: Attempt, t: State)
    requires Judged(s, seen) && MovesOn(s, x, t)
    ensures Judged(t, seen + [x])
  {
    AttemptIsOver(seen, x);
  }

  /** The loop is where it was, or further on in the same attempt. */
  ghost predicate StaysIn(s: State, t: State) {
    && t.connects - UnderWay(t.pc) == s.connects - UnderWay(s.pc) && t.attempts == s.attempts
    && (t.pc == s.pc || (!t.pc.Stopped? && !s.pc.Stopped?))
  }

  lemma SameAttempt(s: State, w: Seen, a: Action)
    requires Knows(s, w) && Enabled(s, a) && Watch(w, a).attempts == w.attempts
    ensures StaysIn(s, Next(s, a))
  {
  }

  lemma SamePlace(s: State, seen: seq<Attempt>, t: State)
    requires Judged(s, seen) && StaysIn(s, t)
    ensures Judged(t, seen)
  {
  }

  lemma LoopMoves(s: State, w: Seen, a: Action)
    requires Knows(s, w) && Enabled(s, a) && (a.ConnectFailed? || a.FinishTeardown?)
    ensures |Watch(w, a).attempts| == |w.attempts| + 1 && w.attempts < Watch(w, a).attempts
    ensures MovesOn(s, Watch(w, a).attempts[|w.attempts|], Next(s, a))
  {
  }

  lemma EntryMoves(s: State, w: Seen, a: Action)
    requires Knows(s, w) && Enabled(s, a) && (a.EnterLoop? || a.Connected?)
    requires Watch(w, a).attempts != w.attempts
    ensures |Watch(w, a).attempts| == |w.attempts| + 1 && w.attempts < Watch(w, a).attempts
    ensures MovesOn(s, Watch(w, a).attempts[|w.attempts|], Next(s, a))
  {
  }

  lemma AttemptEnds(s: State, w: Seen, a: Action) returns (x: Attempt)
    requires Knows(s, w) && Enabled(s, a) && Watch(w, a).attempts != w.attempts
    ensures Watch(w, a).attempts == w.attempts + [x] && MovesOn(s, x, Next(s, a))
  {
    if a.ConnectFailed? || a.FinishTeardown? {
      LoopMoves(s, w, a);
    } else {
      EntryMoves(s, w, a);
    }
    x := Watch(w, a).attempts[|w.attempts|];
  }

  lemma JudgedNext(s: State, w: Seen, a: Action)
    requires Knows(s, w) && Judged(s, w.attempts) && Enabled(s, a)
    ensures Judged(Next(s, a), Watch(w, a).attempts)
  {
    if Watch(w, a).attempts == w.attempts {
      SameAttempt(s, w, a);
      SamePlace(s, w.attempts, Next(s, a));
    } else {
      var x := AttemptEnds(s, w, a);
      JudgedLonger(s, w.attempts, x, Next(s, a));
    }
  }

  lemma FiredIs(q: Q.State, op: Q.Op)
    ensures Q.Step(q, op).fired == q.fired + if op.Abort? then {op.controller} else {}
  {
    if op.Close? && !q.closed {
      Q.PairKeeps(q.(closed := true));
    }
  }

  lemma ReadKnows(s: State, w: Seen, a: Action)
    requires OneReader(s) && RejectedInTime(s) && Knows(s, w) && Enabled(s, a) && (a.CheckAndGet? || a.Resume?)
    ensures Knows(Next(s, a), w)
  {
    FiredIs(s.queue, Q.Get(Some(Signal(s))));
  }

  lemma DispatchKnows(s: State, w: Seen, a: Action)
    requires OneReader(s) && Knows(s, w) && Enabled(s, a) && (a.Dispatched? || a.DispatchFailed?)
    ensures Knows(Next(s, a), Watch(w, a))
  {
    FiredIs(s.queue, Q.Abort(Signal(s)));
  }

  lemma KnowsNext(s: State, w: Seen, a: Action)
    requires OneReader(s) && RejectedInTime(s) && Knows(s, w) && Enabled(s, a)
    ensures Knows(Next(s, a), Watch(w, a))
  {
    match a
    case CheckAndGet | Resume => ReadKnows(s, w, a);
    case Dispatched | DispatchFailed => DispatchKnows(s, w, a);
    case CallerSends(request) => FiredIs(s.queue, Q.Send(request));
    case CallerCloses => FiredIs(s.queue, Q.Close);
    case Connected(_) => FiredIs(s.queue, Q.Abort(s.loops));
    case InvocationAborts | TransferStopsSending | ReceiveEnded | ReceiveFailed(_) =>
      FiredIs(s.queue, Q.Abort(Signal(s)));
    case _ =>
  }

  lemma CallersDoNotReject(s: State, a: Action)
    requires OneReader(s) && Q.Rendezvous(s.queue) && RejectedInTime(s) && (a.CallerSends? || a.CallerCloses?)
    ensures RejectedInTime(Next(s, a))
  {
    Q.SettleIs(s.queue.settled, s.queue.waiters, Q.Resolved(Q.CLOSE_MARKER));
    FiredIs(s.queue, if a.CallerCloses? then Q.Close else Q.Send(a.request));
  }

  lemma ReadsAreNotRejected(s: State)
    requires Q.Bookkeeping(s.queue) && Enabled(s, CheckAndGet)
    ensures RejectedInTime(Next(s, CheckAndGet))
  {
  }

  lemma OthersDoNotReject(s: State, a: Action)
    requires RejectedInTime(s) && Enabled(s, a) && !a.CallerSends? && !a.CallerCloses? && !a.CheckAndGet?
    ensures RejectedInTime(Next(s, a))
  {
  }

  lemma RejectedNext(s: State, a: Action)
    requires Invariant(s) && RejectedInTime(s) && Enabled(s, a)
    ensures RejectedInTime(Next(s, a))
  {
    match a
    case CallerSends(_) | CallerCloses => CallersDoNotReject(s, a);
    case CheckAndGet => ReadsAreNotRejected(s);
    case _ => OthersDoNotReject(s, a);
  }

  lemma {:induction false} AlwaysFollows(s: State, w: Seen, schedule: seq<Action>)
    requires Invariant(s) && RejectedInTime(s) && Knows(s, w) && Judged(s, w.attempts)
    ensures var t := Run(s, schedule);
            RejectedInTime(t) && Judged(t, Observed(s, w, schedule).attempts)
    decreases |schedule|
  {
    if schedule != [] {
      var a := schedule[0];
      if Enabled(s, a) {
        NextKeeps(s, a);
        KnowsNext(s, w, a);
        RejectedNext(s, a);
        JudgedNext(s, w, a);
        AlwaysFollows(Next(s, a), Watch(w, a), schedule[1..]);
      } else {
        AlwaysFollows(s, w, schedule[1..]);
      }
    }
  }

  /** What the observer knows to begin with. */
  function NothingSeen(hasHandle: bool, aborted: bool): Seen {
    Seen([], hasHandle, aborted, false, false, None)
  }

  lemma StartFollows(hasHandle: bool, aborted: bool)
    ensures var s, w := Start(hasHandle, aborted), NothingSeen(hasHandle, aborted);
            Invariant(s) && RejectedInTime(s) && Knows(s, w) && Judged(s, w.attempts)
  {
  }

  /** Whatever the schedule, the flow does what the reconnect loop does with the attempts
      an observer of its actions has seen: it is still running exactly while all of
      them, at most five, are to be retried; it stops with the result of the first that
      is not, or with an error after the sixth; and it has connected once for each,
      besides the attempt under way. */
  lemma FlowFollowsTheLoop(hasHandle: bool, aborted: bool, schedule: seq<Action>)
    ensures var start := Start(hasHandle, aborted);
            var seen := Observed(start, NothingSeen(hasHandle, aborted), schedule);
            Judged(Run(start, schedule), seen.attempts)
  {
    StartFollows(hasHandle, aborted);
    AlwaysFollows(Start(hasHandle, aborted), NothingSeen(hasHandle, aborted), schedule);
  }

  /** A read of the send loop is rejected only when it was told to stop, so the path that
      rethrows a failed read is never taken. */
  lemma ReadsFailOnlyWhenTold(hasHandle: bool, aborted: bool, schedule: seq<Action>)
    ensures var s := Run(Start(hasHandle, aborted), schedule);
            Enabled(s, Resume) && s.queue.settled[s.send.reader].Aborted? ==> SignalFired(s)
  {
    StartFollows(hasHandle, aborted);
    AlwaysFollows(Start(hasHandle, aborted), NothingSeen(hasHandle, aborted), schedule);
  }
}
