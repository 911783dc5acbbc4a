/** The rendezvous queue of the live path: buffered requests on one side, parked
    readers on the other (core/src/agents/live_request_queue.ts). */
module LiveQueue {
  import opened Wrappers
  import opened Seqs

  datatype LiveRequest = LiveRequest(content: Option<string>, blob: Option<string>,
                                     activityStart: bool, activityEnd: bool, close: bool)

  const CLOSE_MARKER := LiveRequest(None, None, false, false, true)

  /** A parked `get`: its promise, and the abort signal it listens to. */
  datatype Waiter = Waiter(reader: nat, signal: Option<nat>)

  /** How the promise of a `get` was settled. */
  datatype Settled = Resolved(request: LiveRequest) | Aborted

  /** The queue, the promises of all readers so far, and what happened: the requests
      accepted by `send` and those handed to readers, in order. */
  datatype State = State(queue: seq<LiveRequest>, waiters: seq<Waiter>, closed: bool,
                         fired: set<nat>, settled: map<nat, Settled>, readers: nat,
                         accepted: seq<LiveRequest>, delivered: seq<(nat, LiveRequest)>)

  const EMPTY := State([], [], false, {}, map[], 0, [], [])

  datatype Op = Send(request: LiveRequest) | Get(signal: Option<nat>) | Abort(controller: nat) | Close

  function ListensTo(signal: nat): Waiter -> bool { (w: Waiter) => w.signal == Some(signal) }

  function OthersThan(signal: nat): Waiter -> bool { (w: Waiter) => w.signal != Some(signal) }

  function Requests(delivered: seq<(nat, LiveRequest)>): seq<LiveRequest> {
    seq(|delivered|, i requires 0 <= i < |delivered| => delivered[i].1)
  }

  function Settle(settled: map<nat, Settled>, waiters: seq<Waiter>, outcome: Settled): map<nat, Settled>
    decreases |waiters|
  {
    if waiters == [] then settled
    else Settle(settled[waiters[0].reader := outcome], waiters[1..], outcome)
  }

  /** The first loop of `close`: parked readers take buffered requests. */
  function Pair(s: State): State
    decreases |s.waiters|
  {
    if s.waiters == [] || s.queue == [] then s
    else Pair(Deliver(s.(waiters := s.waiters[1..], queue := s.queue[1..]), s.waiters[0].reader, s.queue[0]))
  }

  function Deliver(s: State, reader: nat, request: LiveRequest): State {
    s.(settled := s.settled[reader := Resolved(request)], delivered := s.delivered + [(reader, request)])
  }

  function Step(s: State, op: Op): State {
    match op
    case Send(request) =>
      if s.closed then s
      else if s.waiters != [] then
        Deliver(s.(waiters := s.waiters[1..], accepted := s.accepted + [request]), s.waiters[0].reader, request)
      else s.(queue := s.queue + [request], accepted := s.accepted + [request])
    case Get(signal) =>
      var t := s.(readers := s.readers + 1);
      if s.queue != [] then Deliver(t.(queue := s.queue[1..]), s.readers, s.queue[0])
      else if s.closed then t.(settled := s.settled[s.readers := Resolved(CLOSE_MARKER)])
      else if signal.Some? && signal.value in s.fired then t.(settled := s.settled[s.readers := Aborted])
      else t.(waiters := s.waiters + [Waiter(s.readers, signal)])
    case Abort(signal) =>
      if signal in s.fired then s
      else s.(fired := s.fired + {signal}, waiters := Filter(s.waiters, OthersThan(signal)),
              settled := Settle(s.settled, Filter(s.waiters, ListensTo(signal)), Aborted))
    case Close =>
      if s.closed then s
      else
        var t := Pair(s.(closed := true));
        t.(waiters := [], settled := Settle(t.settled, t.waiters, Resolved(CLOSE_MARKER)))
  }

  function Run(s: State, ops: seq<Op>): State
    decreases |ops|
  {
    if ops == [] then s else Run(Step(s, ops[0]), ops[1..])
  }

  // ---------------------------------------------------------------------------
  // Invariant
  // ---------------------------------------------------------------------------

  /** Every request accepted is either delivered, in order, or still buffered. */
  ghost predicate Conserved(s: State) {
    s.accepted == Requests(s.delivered) + s.queue
  }

  /** Requests never wait while a reader does, and nobody waits on a closed queue. */
  ghost predicate Rendezvous(s: State) {
    && (s.queue == [] || s.waiters == [])
    && (s.closed ==> s.waiters == [])
  }

  ghost predicate Ordered(ws: seq<Waiter>) {
    forall i, j :: 0 <= i < j < |ws| ==> ws[i].reader < ws[j].reader
  }

  /** Readers are served first come, first served; each gets one request at most, and
      the request it got is what its promise was settled with. */
  ghost predicate Fair(s: State) {
    && (forall i, j :: 0 <= i < j < |s.delivered| ==> s.delivered[i].0 < s.delivered[j].0)
    && (forall i, j :: 0 <= i < |s.delivered| && 0 <= j < |s.waiters| ==> s.delivered[i].0 < s.waiters[j].reader)
    && Ordered(s.waiters)
  }

  ghost predicate Bookkeeping(s: State) {
    && (forall i :: 0 <= i < |s.delivered| ==> s.delivered[i].0 < s.readers)
    && (forall i :: 0 <= i < |s.delivered| ==> s.delivered[i].0 in s.settled)
    && (forall i :: 0 <= i < |s.delivered| ==> s.settled[s.delivered[i].0] == Resolved(s.delivered[i].1))
    && (forall i :: 0 <= i < |s.waiters| ==> s.waiters[i].reader < s.readers && s.waiters[i].reader !in s.settled)
    && (forall r :: r in s.settled ==> r < s.readers)
    && (forall i :: 0 <= i < |s.waiters| ==> s.waiters[i].signal.None? || s.waiters[i].signal.value !in s.fired)
  }

  ghost predicate Valid(s: State) {
    Conserved(s) && Rendezvous(s) && Fair(s) && Bookkeeping(s)
  }

  lemma {:induction false} FilterKeepsOrder(ws: seq<Waiter>, p: Waiter -> bool)
    requires Ordered(ws)
    ensures Ordered(Filter(ws, p))
    ensures forall i :: 0 <= i < |Filter(ws, p)| ==> Filter(ws, p)[i] in ws && p(Filter(ws, p)[i])
  {
    FilterMembers(ws, p);
    var f := Filter(ws, p);
    assert forall i :: 0 <= i < |f| ==> f[i] in f;
    if ws != [] {
      FilterKeepsOrder(ws[1..], p);
      FilterMembers(ws[1..], p);
      var g := Filter(ws[1..], p);
      assert forall i :: 0 <= i < |g| ==> g[i] in g;
    }
  }

  lemma {:induction false} SettleIs(settled: map<nat, Settled>, ws: seq<Waiter>, outcome: Settled)
    ensures forall r :: r in Settle(settled, ws, outcome)
                    <==> r in settled || exists i :: 0 <= i < |ws| && ws[i].reader == r
    ensures forall r :: r in settled && (forall i :: 0 <= i < |ws| ==> ws[i].reader != r)
                    ==> Settle(settled, ws, outcome)[r] == settled[r]
    ensures forall i :: 0 <= i < |ws| ==> Settle(settled, ws, outcome)[ws[i].reader] == outcome
    decreases |ws|
  {
    if ws != [] {
      var next := settled[ws[0].reader := outcome];
      SettleIs(next, ws[1..], outcome);
      assert forall i :: 1 <= i < |ws| ==> ws[i] == ws[1..][i - 1];
    }
  }

  lemma {:induction false} RunAppend(s: State, xs: seq<Op>, ys: seq<Op>)
    ensures Run(s, xs + ys) == Run(Run(s, xs), ys)
    decreases |xs|
  {
    if xs == [] {
      assert xs + ys == ys;
    } else {
      assert (xs + ys)[1..] == xs[1..] + ys;
      RunAppend(Step(s, xs[0]), xs[1..], ys);
    }
  }

  lemma DeliverConserves(s: State, reader: nat, request: LiveRequest)
    ensures Requests(Deliver(s, reader, request).delivered) == Requests(s.delivered) + [request]
  {
  }

  lemma SendKeeps(s: State, request: LiveRequest)
    requires Valid(s)
    ensures Valid(Step(s, Send(request)))
  {
    if !s.closed && s.waiters != [] {
      DeliverConserves(s, s.waiters[0].reader, request);
      assert s.queue == [];
    }
  }

  lemma GetBufferedConserves(s: State, signal: Option<nat>)
    requires Conserved(s) && s.queue != []
    ensures Conserved(Step(s, Get(signal)))
  {
    DeliverConserves(s, s.readers, s.queue[0]);
    assert s.queue == [s.queue[0]] + s.queue[1..];
  }

  lemma GetBufferedKeeps(s: State, signal: Option<nat>)
    requires Valid(s) && s.queue != []
    ensures Valid(Step(s, Get(signal)))
  {
    GetBufferedConserves(s, signal);
    assert s.waiters == [];
    ServeAtOnce(s, s.queue[0], s.queue[1..]);
  }

  /** A new reader is handed a request at once. */
  lemma ServeAtOnce(s: State, request: LiveRequest, rest: seq<LiveRequest>)
    requires Fair(s) && Bookkeeping(s) && s.waiters == []
    ensures var t := Deliver(s.(readers := s.readers + 1, queue := rest), s.readers, request);
            Fair(t) && Bookkeeping(t)
  {
  }

  lemma GetEmptyKeeps(s: State, signal: Option<nat>)
    requires Valid(s) && s.queue == []
    ensures Valid(Step(s, Get(signal)))
  {
    if s.closed {
      RefuseKeeps(s, Resolved(CLOSE_MARKER));
    } else if signal.Some? && signal.value in s.fired {
      RefuseKeeps(s, Aborted);
    }
  }

  /** A reader that is answered at once without a request. */
  lemma RefuseKeeps(s: State, outcome: Settled)
    requires Valid(s)
    ensures Valid(s.(readers := s.readers + 1, settled := s.settled[s.readers := outcome]))
  {
  }

  lemma GetKeeps(s: State, signal: Option<nat>)
    requires Valid(s)
    ensures Valid(Step(s, Get(signal)))
  {
    if s.queue != [] {
      GetBufferedKeeps(s, signal);
    } else {
      GetEmptyKeeps(s, signal);
    }
  }

  lemma KeptAreNotReleased(ws: seq<Waiter>, signal: nat)
    requires Ordered(ws)
    ensures var gone, kept := Filter(ws, ListensTo(signal)), Filter(ws, OthersThan(signal));
            forall i, j :: 0 <= i < |kept| && 0 <= j < |gone| ==> kept[i].reader != gone[j].reader
  {
    var gone, kept := Filter(ws, ListensTo(signal)), Filter(ws, OthersThan(signal));
    FilterKeepsOrder(ws, OthersThan(signal));
    FilterKeepsOrder(ws, ListensTo(signal));
    forall i, j | 0 <= i < |kept| && 0 <= j < |gone| ensures kept[i].reader != gone[j].reader {
      assert kept[i] in ws && gone[j] in ws && kept[i] != gone[j];
    }
  }

  /** Removing readers from the queue and settling their promises. */
  lemma ReleaseKeepsBookkeeping(s: State, fired: set<nat>, gone: seq<Waiter>, kept: seq<Waiter>)
    requires Bookkeeping(s)
    requires forall i :: 0 <= i < |gone| ==> gone[i] in s.waiters
    requires forall i :: 0 <= i < |kept| ==> kept[i] in s.waiters
    requires forall i :: 0 <= i < |kept| ==> kept[i].signal.None? || kept[i].signal.value !in fired
    requires forall i, j :: 0 <= i < |kept| && 0 <= j < |gone| ==> kept[i].reader != gone[j].reader
    ensures Bookkeeping(s.(fired := fired, waiters := kept, settled := Settle(s.settled, gone, Aborted)))
  {
    SettleIs(s.settled, gone, Aborted);
  }

  lemma AbortKeeps(s: State, signal: nat)
    requires Valid(s)
    ensures Valid(Step(s, Abort(signal)))
  {
    var gone, kept := Filter(s.waiters, ListensTo(signal)), Filter(s.waiters, OthersThan(signal));
    FilterKeepsOrder(s.waiters, OthersThan(signal));
    FilterKeepsOrder(s.waiters, ListensTo(signal));
    KeptAreNotReleased(s.waiters, signal);
    if signal !in s.fired {
      ReleaseKeepsBookkeeping(s, s.fired + {signal}, gone, kept);
    }
  }

  /** The reader's promise was fulfilled with a request to close. */
  ghost predicate ToldToClose(s: State, reader: nat) {
    reader in s.settled && s.settled[reader].Resolved? && s.settled[reader].request.close
  }

  lemma CloseKeeps(s: State)
    requires Valid(s)
    ensures var t := Step(s, Close);
            && Valid(t) && t.closed && t.waiters == []
            && t == s.(closed := true, waiters := [], settled := t.settled)
            && forall i :: 0 <= i < |s.waiters| ==> ToldToClose(t, s.waiters[i].reader)
  {
    SettleIs(s.settled, s.waiters, Resolved(CLOSE_MARKER));
  }

  lemma StepKeeps(s: State, op: Op)
    requires Valid(s)
    ensures Valid(Step(s, op))
  {
    match op
    case Send(request) => SendKeeps(s, request);
    case Get(signal) => GetKeeps(s, signal);
    case Abort(signal) => AbortKeeps(s, signal);
    case Close => CloseKeeps(s);
  }

  /** For every interleaving of send, get, abort and close: the accepted requests are
      the delivered ones, in delivery order, followed by the buffered ones; readers
      are served in order of arrival; buffered requests and parked readers never
      coexist; and a closed queue has no parked reader. */
  lemma {:induction false} EveryRunIsValid(s: State, ops: seq<Op>)
    requires Valid(s)
    ensures Valid(Run(s, ops))
    decreases |ops|
  {
    if ops != [] {
      StepKeeps(s, ops[0]);
      EveryRunIsValid(Step(s, ops[0]), ops[1..]);
    }
  }

  lemma QueueConservesRequests(ops: seq<Op>)
    ensures var s := Run(EMPTY, ops);
            Conserved(s) && Rendezvous(s) && Fair(s)
  {
    EveryRunIsValid(EMPTY, ops);
  }

  // ---------------------------------------------------------------------------
  // What becomes of every reader
  // ---------------------------------------------------------------------------

  /** A promise is fulfilled with a delivered request, or with a close marker once the
      queue is closed. */
  ghost predicate Honest(s: State) {
    forall r :: r in s.settled && s.settled[r].Resolved? ==>
      (r, s.settled[r].request) in s.delivered || (s.closed && s.settled[r].request == CLOSE_MARKER)
  }

  /** The signal each reader passed to its `get`, in order of arrival. */
  function Signals(ops: seq<Op>): seq<Option<nat>> {
    if ops == [] then []
    else
      var before, op := Signals(ops[..|ops| - 1]), ops[|ops| - 1];
      if op.Get? then before + [op.signal] else before
  }

  /** The requests sent before the first close. */
  function SentBeforeClose(ops: seq<Op>): seq<LiveRequest> {
    if ops == [] then []
    else
      var before, op := SentBeforeClose(ops[..|ops| - 1]), ops[|ops| - 1];
      if op.Send? && Close !in ops[..|ops| - 1] then before + [op.request] else before
  }

  /** Readers are numbered in order of arrival; one whose promise is not settled is
      parked, and one that was rejected had passed a signal that fired. */
  ghost predicate Accounted(s: State, signals: seq<Option<nat>>) {
    && s.readers == |signals|
    && (forall r :: 0 <= r < |signals| && r !in s.settled ==> Waiter(r, signals[r]) in s.waiters)
    && (forall r :: 0 <= r < |signals| && r in s.settled && s.settled[r] == Aborted ==>
          signals[r].Some? && signals[r].value in s.fired)
    && (forall w :: w in s.waiters ==> w.reader < |signals| && w.signal == signals[w.reader])
  }

  ghost predicate Recorded(s: State, ops: seq<Op>) {
    && (s.closed <==> Close in ops)
    && (forall x :: x in s.fired <==> Abort(x) in ops)
    && s.accepted == SentBeforeClose(ops)
  }

  lemma HonestStep(s: State, op: Op)
    requires Valid(s) && Honest(s)
    ensures Honest(Step(s, op))
  {
    var t := Step(s, op);
    match op {
      case Send(request) =>
        if !s.closed && s.waiters != [] {
          assert t.delivered[|s.delivered|] == (s.waiters[0].reader, request);
        }
      case Get(_) =>
        if s.queue != [] {
          assert t.delivered[|s.delivered|] == (s.readers, s.queue[0]);
        }
      case Abort(signal) => SettleIs(s.settled, Filter(s.waiters, ListensTo(signal)), Aborted);
      case Close => SettleIs(s.settled, s.waiters, Resolved(CLOSE_MARKER));
    }
  }

  lemma RecordedStep(s: State, op: Op, ops: seq<Op>)
    requires Recorded(s, ops)
    ensures Recorded(Step(s, op), ops + [op])
  {
    var longer := ops + [op];
    assert longer[..|ops|] == ops && longer[|ops|] == op;
    assert forall x :: x in longer <==> x in ops || x == op;
    if op.Close? && !s.closed {
      PairKeeps(s.(closed := true));
    }
  }

  lemma {:induction false} PairKeeps(s: State)
    ensures Pair(s).closed == s.closed && Pair(s).fired == s.fired && Pair(s).accepted == s.accepted
    decreases |s.waiters|
  {
    if s.waiters != [] && s.queue != [] {
      PairKeeps(Deliver(s.(waiters := s.waiters[1..], queue := s.queue[1..]), s.waiters[0].reader, s.queue[0]));
    }
  }

  lemma AbortAccounts(s: State, signal: nat, signals: seq<Option<nat>>)
    requires Bookkeeping(s) && Accounted(s, signals) && signal !in s.fired
    ensures Accounted(Step(s, Abort(signal)), signals)
  {
    var gone := Filter(s.waiters, ListensTo(signal));
    SettleIs(s.settled, gone, Aborted);
    FilterMembers(s.waiters, OthersThan(signal));
    FilterMembers(s.waiters, ListensTo(signal));
    assert forall i :: 0 <= i < |gone| ==> gone[i] in gone;
    assert forall w :: w in gone ==> exists i :: 0 <= i < |gone| && gone[i].reader == w.reader;
  }

  lemma CloseAccounts(s: State, signals: seq<Option<nat>>)
    requires Rendezvous(s) && Accounted(s, signals) && !s.closed
    ensures Accounted(Step(s, Close), signals)
  {
    SettleIs(s.settled, s.waiters, Resolved(CLOSE_MARKER));
    assert forall w :: w in s.waiters ==> exists i :: 0 <= i < |s.waiters| && s.waiters[i].reader == w.reader;
  }

  lemma SendAccounts(s: State, request: LiveRequest, signals: seq<Option<nat>>)
    requires Accounted(s, signals)
    ensures Accounted(Step(s, Send(request)), signals)
  {
    if s.waiters != [] {
      assert s.waiters == [s.waiters[0]] + s.waiters[1..];
    }
  }

  lemma GetAccounts(s: State, signal: Option<nat>, signals: seq<Option<nat>>)
    requires Bookkeeping(s) && Accounted(s, signals)
    ensures Accounted(Step(s, Get(signal)), signals + [signal])
  {
    var w := Waiter(s.readers, signal);
    assert forall x :: x in s.waiters + [w] <==> x in s.waiters || x == w;
  }

  lemma AccountedStep(s: State, op: Op, signals: seq<Option<nat>>)
    requires Valid(s) && Accounted(s, signals)
    ensures Accounted(Step(s, op), if op.Get? then signals + [op.signal] else signals)
  {
    match op
    case Send(request) => SendAccounts(s, request, signals);
    case Get(signal) => GetAccounts(s, signal, signals);
    case Abort(signal) =>
      if signal !in s.fired {
        AbortAccounts(s, signal, signals);
      }
    case Close =>
      if !s.closed {
        CloseAccounts(s, signals);
      }
  }

  lemma RunLast(s: State, ops: seq<Op>, op: Op)
    ensures Run(s, ops + [op]) == Step(Run(s, ops), op)
  {
    RunAppend(s, ops, [op]);
    assert [op][1..] == [];
  }

  lemma SignalsLast(ops: seq<Op>, op: Op)
    ensures Signals(ops + [op]) == if op.Get? then Signals(ops) + [op.signal] else Signals(ops)
  {
    assert (ops + [op])[..|ops|] == ops;
  }

  lemma OneMoreOp(s: State, ops: seq<Op>, op: Op)
    requires Valid(s) && Recorded(s, ops) && Honest(s) && Accounted(s, Signals(ops))
    ensures var t := Step(s, op);
            Recorded(t, ops + [op]) && Honest(t) && Accounted(t, Signals(ops + [op]))
  {
    HonestStep(s, op);
    RecordedStep(s, op, ops);
    AccountedStep(s, op, Signals(ops));
    SignalsLast(ops, op);
  }

  /** Over every run: the accepted requests are those sent before the first close; a
      promise is fulfilled only with a request that was delivered to its reader or, on a
      closed queue, with a close marker; it is rejected only when the signal its own
      reader listens to has fired; and every other reader is still parked. */
  lemma {:induction false} EveryReaderIsAccountedFor(ops: seq<Op>)
    ensures var s := Run(EMPTY, ops);
            Recorded(s, ops) && Honest(s) && Accounted(s, Signals(ops))
  {
    if ops != [] {
      var before, op := ops[..|ops| - 1], ops[|ops| - 1];
      assert before + [op] == ops;
      EveryRunIsValid(EMPTY, before);
      EveryReaderIsAccountedFor(before);
      RunLast(EMPTY, before, op);
      OneMoreOp(Run(EMPTY, before), before, op);
    }
  }

  lemma GetOutcome(s: State, signal: Option<nat>)
    requires Conserved(s) && s.readers !in s.settled
    ensures var t, r, n := Step(s, Get(signal)), s.readers, |s.delivered|;
            if n < |s.accepted| then r in t.settled && t.settled[r] == Resolved(s.accepted[n])
            else if s.closed then r in t.settled && t.settled[r] == Resolved(CLOSE_MARKER)
            else if signal.Some? && signal.value in s.fired then r in t.settled && t.settled[r] == Aborted
            else r !in t.settled && t.waiters == s.waiters + [Waiter(r, signal)]
  {
    assert |Requests(s.delivered)| == |s.delivered|;
    assert s.queue != [] ==> s.queue[0] == s.accepted[|s.delivered|];
  }

  /** What the next reader gets, in terms of what happened before: the oldest request that
      nobody took, whatever the reader's signal did and even if the queue is closed; else
      a close marker on a closed queue; else a rejection if its signal has fired; and
      otherwise it parks. */
  lemma NextReaderGets(ops: seq<Op>, signal: Option<nat>)
    ensures var s, t := Run(EMPTY, ops), Run(EMPTY, ops + [Get(signal)]);
            var r, n := |Signals(ops)|, |s.delivered|;
            if n < |SentBeforeClose(ops)| then r in t.settled && t.settled[r] == Resolved(SentBeforeClose(ops)[n])
            else if Close in ops then r in t.settled && t.settled[r] == Resolved(CLOSE_MARKER)
            else if signal.Some? && Abort(signal.value) in ops then r in t.settled && t.settled[r] == Aborted
            else r !in t.settled && t.waiters == s.waiters + [Waiter(r, signal)]
  {
    EveryRunIsValid(EMPTY, ops);
    EveryReaderIsAccountedFor(ops);
    RunLast(EMPTY, ops, Get(signal));
    GetOutcome(Run(EMPTY, ops), signal);
  }

  /** Closing releases every parked reader with a request to close, and nothing that was
      accepted or delivered changes. */
  lemma CloseReleasesEveryReader(ops: seq<Op>)
    ensures var s, t := Run(EMPTY, ops), Run(EMPTY, ops + [Close]);
            && t.closed && t.waiters == []
            && t.accepted == s.accepted && t.delivered == s.delivered && t.queue == s.queue
            && forall i :: 0 <= i < |s.waiters| ==> ToldToClose(t, s.waiters[i].reader)
  {
    EveryRunIsValid(EMPTY, ops);
    RunLast(EMPTY, ops, Close);
    CloseKeeps(Run(EMPTY, ops));
  }

  // ---------------------------------------------------------------------------
  // After close
  // ---------------------------------------------------------------------------

  function Gets(signals: seq<Option<nat>>): seq<Op> {
    seq(|signals|, i requires 0 <= i < |signals| => Get(signals[i]))
  }

  function Later(queue: seq<LiveRequest>, i: nat): LiveRequest {
    if i < |queue| then queue[i] else CLOSE_MARKER
  }

  lemma ClosedGet(s: State, signal: Option<nat>)
    requires Valid(s) && s.closed
    ensures var t := Step(s, Get(signal));
            && t.closed && t.readers == s.readers + 1
            && t.queue == (if s.queue == [] then [] else s.queue[1..])
            && s.readers !in s.settled
            && t.settled == s.settled[s.readers := Resolved(Later(s.queue, 0))]
  {
  }

  lemma SettledStaysOneStep(s: State, op: Op, reader: nat)
    requires Valid(s) && reader in s.settled
    ensures reader in Step(s, op).settled && Step(s, op).settled[reader] == s.settled[reader]
  {
    match op
    case Abort(signal) =>
      SettleIs(s.settled, Filter(s.waiters, ListensTo(signal)), Aborted);
      FilterKeepsOrder(s.waiters, ListensTo(signal));
    case Close => SettleIs(s.settled, s.waiters, Resolved(CLOSE_MARKER));
    case _ =>
  }

  /** No promise is settled twice: whatever happens later, its outcome stays. */
  lemma {:induction false} SettledStays(s: State, ops: seq<Op>, reader: nat)
    requires Valid(s) && reader in s.settled
    ensures reader in Run(s, ops).settled && Run(s, ops).settled[reader] == s.settled[reader]
    decreases |ops|
  {
    if ops != [] {
      StepKeeps(s, ops[0]);
      SettledStaysOneStep(s, ops[0], reader);
      SettledStays(Step(s, ops[0]), ops[1..], reader);
    }
  }

  /** On a closed queue successive gets return the buffered requests in order and
      then the close marker forever, whatever their abort signals did. */
  lemma {:induction false} ClosedQueueDrains(s: State, signals: seq<Option<nat>>, i: nat)
    requires Valid(s) && s.closed && i < |signals|
    ensures var t := Run(s, Gets(signals));
            s.readers + i in t.settled && t.settled[s.readers + i] == Resolved(Later(s.queue, i))
    decreases |signals|
  {
    var next := Step(s, Get(signals[0]));
    GetKeeps(s, signals[0]);
    ClosedGet(s, signals[0]);
    assert Gets(signals)[1..] == Gets(signals[1..]);
    if i == 0 {
      SettledStays(next, Gets(signals[1..]), s.readers);
    } else {
      ClosedQueueDrains(next, signals[1..], i - 1);
    }
  }

  /** What the iterator yields on a closed queue. */
  function Drained(queue: seq<LiveRequest>): seq<LiveRequest> {
    if queue == [] then [CLOSE_MARKER]
    else if queue[0].close then [queue[0]]
    else [queue[0]] + Drained(queue[1..])
  }

  /** Exactly the items up to the first close request, or all of them and one marker. */
  lemma {:induction false} DrainedIs(queue: seq<LiveRequest>, n: nat)
    requires n <= |queue| && forall i :: 0 <= i < n ==> !queue[i].close
    ensures n == |queue| ==> Drained(queue) == queue + [CLOSE_MARKER]
    ensures n < |queue| && queue[n].close ==> Drained(queue) == queue[..n + 1]
  {
    if n > 0 {
      DrainedIs(queue[1..], n - 1);
      assert n < |queue| ==> [queue[0]] + queue[1..][..n] == queue[..n + 1];
    }
  }

  lemma {:induction false} SettleAppend(settled: map<nat, Settled>, xs: seq<Waiter>, ys: seq<Waiter>, outcome: Settled)
    ensures Settle(settled, xs + ys, outcome) == Settle(Settle(settled, xs, outcome), ys, outcome)
    decreases |xs|
  {
    if xs == [] {
      assert xs + ys == ys;
    } else {
      assert (xs + ys)[1..] == xs[1..] + ys;
      SettleAppend(settled[xs[0].reader := outcome], xs[1..], ys, outcome);
    }
  }

  /** One step of the scan over the listeners of a signal. */
  lemma ScanStep(ws: seq<Waiter>, n: nat, signal: nat, base: map<nat, Settled>)
    requires n < |ws|
    ensures Filter(ws[..n + 1], OthersThan(signal))
         == if ws[n].signal == Some(signal) then Filter(ws[..n], OthersThan(signal))
            else Filter(ws[..n], OthersThan(signal)) + [ws[n]]
    ensures Settle(base, Filter(ws[..n + 1], ListensTo(signal)), Aborted)
         == if ws[n].signal == Some(signal)
            then Settle(base, Filter(ws[..n], ListensTo(signal)), Aborted)[ws[n].reader := Aborted]
            else Settle(base, Filter(ws[..n], ListensTo(signal)), Aborted)
  {
    var w := ws[n];
    assert ws[..n + 1] == ws[..n] + [w];
    FilterLast(ws[..n], w, OthersThan(signal));
    FilterLast(ws[..n], w, ListensTo(signal));
    SettleAppend(base, Filter(ws[..n], ListensTo(signal)), [w], Aborted);
  }

  /** Of the waiters `before`, the first `n` have been looked at. */
  ghost predicate Scanned(before: seq<Waiter>, n: nat, signal: nat, now: seq<Waiter>,
                          base: map<nat, Settled>, settled: map<nat, Settled>)
    requires n <= |before|
  {
    && now == Filter(before[..n], OthersThan(signal)) + before[n..]
    && settled == Settle(base, Filter(before[..n], ListensTo(signal)), Aborted)
  }

  lemma ScanNext(before: seq<Waiter>, n: nat, signal: nat, now: seq<Waiter>,
                 base: map<nat, Settled>, settled: map<nat, Settled>, i: nat)
    requires n <= |before| && i == |Filter(before[..n], OthersThan(signal))| && i < |now|
    requires Scanned(before, n, signal, now, base, settled)
    ensures n < |before|
    ensures now[i].signal == Some(signal) ==>
              && i == |Filter(before[..n + 1], OthersThan(signal))|
              && Scanned(before, n + 1, signal, now[..i] + now[i + 1..], base, settled[now[i].reader := Aborted])
    ensures now[i].signal != Some(signal) ==>
              && i + 1 == |Filter(before[..n + 1], OthersThan(signal))|
              && Scanned(before, n + 1, signal, now, base, settled)
  {
    AtFront(Filter(before[..n], OthersThan(signal)), before[n..], now);
    assert before[n..][1..] == before[n + 1..];
    ScanStep(before, n, signal, base);
  }

  lemma AtFront<T>(head: seq<T>, rest: seq<T>, now: seq<T>)
    requires now == head + rest && |head| < |now|
    ensures rest != [] && now[|head|] == rest[0]
    ensures now[..|head|] + now[|head| + 1..] == head + rest[1..]
    ensures now == (head + [rest[0]]) + rest[1..]
  {
  }

  lemma DrainStep(before: seq<LiveRequest>, queue: seq<LiveRequest>)
    ensures before + Drained(queue)
         == before + [Later(queue, 0)] + if Later(queue, 0).close then [] else Drained(queue[1..])
  {
  }

  class LiveRequestQueue {
    var queue: seq<LiveRequest>
    var resolveFnFifoQueue: seq<Waiter>
    var isClosed: bool
    // the promises returned by `get` and the abort signals that have fired
    var settled: map<nat, Settled>
    var readers: nat
    var fired: set<nat>
    ghost var accepted: seq<LiveRequest>
    ghost var delivered: seq<(nat, LiveRequest)>

    ghost function Abs(): State
      reads this
    {
      State(queue, resolveFnFifoQueue, isClosed, fired, settled, readers, accepted, delivered)
    }

    constructor ()
      ensures Abs() == EMPTY
    {
      queue, resolveFnFifoQueue, isClosed := [], [], false;
      settled, readers, fired := map[], 0, {};
      accepted, delivered := [], [];
    }

    /** False when the queue is closed, where the original throws. */
    method Send(request: LiveRequest) returns (ok: bool)
      modifies this
      ensures ok == !old(isClosed)
      ensures Abs() == Step(old(Abs()), Op.Send(request))
    {
      if isClosed {
        return false;
      }
      accepted := accepted + [request];
      if |resolveFnFifoQueue| > 0 {
        var w := resolveFnFifoQueue[0];
        resolveFnFifoQueue := resolveFnFifoQueue[1..];
        settled := settled[w.reader := Resolved(request)];
        delivered := delivered + [(w.reader, request)];
      } else {
        queue := queue + [request];
      }
      return true;
    }

    method Get(signal: Option<nat>) returns (reader: nat)
      modifies this
      ensures reader == old(readers)
      ensures Abs() == Step(old(Abs()), Op.Get(signal))
    {
      reader := readers;
      readers := readers + 1;
      if |queue| > 0 {
        settled := settled[reader := Resolved(queue[0])];
        delivered := delivered + [(reader, queue[0])];
        queue := queue[1..];
      } else if isClosed {
        settled := settled[reader := Resolved(CLOSE_MARKER)];
      } else if signal.Some? && signal.value in fired {
        settled := settled[reader := Aborted];
      } else {
        resolveFnFifoQueue := resolveFnFifoQueue + [Waiter(reader, signal)];
      }
    }

    method Abort(signal: nat)
      modifies this
      ensures Abs() == Step(old(Abs()), Op.Abort(signal))
    {
      if signal !in fired {
        fired := fired + {signal};
        ReleaseListeners(signal);
      }
    }

    /** The abort handlers: each takes its reader out of the queue and rejects it. */
    method ReleaseListeners(signal: nat)
      modifies `resolveFnFifoQueue, `settled
      ensures resolveFnFifoQueue == Filter(old(resolveFnFifoQueue), OthersThan(signal))
      ensures settled == Settle(old(settled), Filter(old(resolveFnFifoQueue), ListensTo(signal)), Aborted)
    {
      var i := 0;
      ghost var n, before := 0, resolveFnFifoQueue;
      while i < |resolveFnFifoQueue|
        invariant n <= |before| && i == |Filter(before[..n], OthersThan(signal))|
        invariant Scanned(before, n, signal, resolveFnFifoQueue, old(settled), settled)
        decreases |before| - n
      {
        ScanNext(before, n, signal, resolveFnFifoQueue, old(settled), settled, i);
        var w := resolveFnFifoQueue[i];
        if w.signal == Some(signal) {
          resolveFnFifoQueue := resolveFnFifoQueue[..i] + resolveFnFifoQueue[i + 1..];
          settled := settled[w.reader := Aborted];
        } else {
          i := i + 1;
        }
        n := n + 1;
      }
      assert before[..n] == before && before[n..] == [];
    }

    method Close()
      modifies this
      ensures Abs() == Step(old(Abs()), Op.Close)
    {
      if isClosed {
        return;
      }
      isClosed := true;
      while |resolveFnFifoQueue| > 0 && |queue| > 0
        invariant isClosed && Pair(Abs()) == Pair(old(Abs()).(closed := true))
      {
        var w, request := resolveFnFifoQueue[0], queue[0];
        resolveFnFifoQueue, queue := resolveFnFifoQueue[1..], queue[1..];
        settled := settled[w.reader := Resolved(request)];
        delivered := delivered + [(w.reader, request)];
      }
      ghost var t := Abs();
      while |resolveFnFifoQueue| > 0
        invariant Abs() == t.(waiters := resolveFnFifoQueue, settled := settled)
        invariant Settle(settled, resolveFnFifoQueue, Resolved(CLOSE_MARKER))
               == Settle(t.settled, t.waiters, Resolved(CLOSE_MARKER))
      {
        settled := settled[resolveFnFifoQueue[0].reader := Resolved(CLOSE_MARKER)];
        resolveFnFifoQueue := resolveFnFifoQueue[1..];
      }
    }

    /** The async iterator on a closed queue: it terminates. */
    method DrainClosed() returns (yielded: seq<LiveRequest>)
      requires Valid(Abs()) && isClosed
      modifies this
      ensures Valid(Abs()) && isClosed
      ensures yielded == Drained(old(queue))
      ensures queue == if |yielded| <= |old(queue)| then old(queue)[|yielded|..] else []
    {
      yielded := [];
      while true
        invariant Valid(Abs()) && isClosed
        invariant |yielded| <= |old(queue)| && queue == old(queue)[|yielded|..]
        invariant yielded + Drained(queue) == Drained(old(queue))
        decreases |queue|
      {
        GetKeeps(Abs(), None);
        ClosedGet(Abs(), None);
        DrainStep(yielded, queue);
        var reader := Get(None);
        var request := settled[reader].request;
        yielded := yielded + [request];
        if request.close {
          break;
        }
      }
    }
  }
}
