/** Append-only compaction over whole runs, with any number of compactions overlapping:
    the active view always continues exactly where its newest summary stops. */
module TokenHistory {
  import opened Wrappers
  import opened Seqs
  import opened Events
  import opened CompactionUtils
  import opened TokenCompactor

  /** A compaction waiting for its summary. `base` and `upTo` record which part of the
      shared history it was handed on top of the compacted event `pad`. */
  datatype Flight = Flight(handed: seq<Event>, pad: seq<Event>, base: nat, upTo: nat)

  /** `history` and `summarized` only record what happened: every shared raw event, and
      how many of them the newest visible compacted event stands for. */
  datatype World = World(events: seq<Event>, flights: seq<Flight>, history: seq<Event>, summarized: nat)

  const START := World([], [], [], 0)

  /** A tagged event appended by anyone may be raw or compacted: other scopes run
      their own compactions on the same list. */
  datatype Move = Append(event: Event) | Begin(retention: int) | Finish(n: nat, summary: Summary) | Fail(n: nat)

  predicate Allowed(w: World, m: Move) {
    match m
    case Append(e) =>
      e.scope.Some? ||
      (e.kind.Raw? && (w.history != [] ==> w.history[|w.history| - 1].timestamp < e.timestamp))
    case Begin(_) => true
    case Finish(n, summary) =>
      n < |w.flights| && w.flights[n].handed != [] && summary.scope.None? &&
      summary.endTime == w.flights[n].handed[|w.flights[n].handed| - 1].timestamp
    case Fail(n) => n < |w.flights|
  }

  function Apply(w: World, m: Move): World
    requires Allowed(w, m)
  {
    match m
    case Append(e) =>
      w.(events := w.events + [e], history := if e.scope.None? then w.history + [e] else w.history)
    case Begin(retention) => TakeOff(w, Prepare(w.events, None, retention))
    case Finish(n, summary) =>
      w.(events := w.events + [Tagged(summary, None)], flights := w.flights[..n] + w.flights[n + 1..],
         summarized := w.flights[n].upTo)
    case Fail(n) => w.(flights := w.flights[..n] + w.flights[n + 1..])
  }

  function TakeOff(w: World, p: Preparation): World {
    match p
    case Ready(handed, k) =>
      w.(flights := w.flights + [Flight(handed, Newest(w.events), w.summarized, w.summarized + k)])
    case _ => w
  }

  function Run(w: World, moves: seq<Move>): World
    decreases |moves|
  {
    if moves == [] || !Allowed(w, moves[0]) then w else Run(Apply(w, moves[0]), moves[1..])
  }

  /** The newest compacted event an unscoped reader sees, as a list of at most one. */
  function Newest(events: seq<Event>): seq<Event> {
    match LatestCompacted(VisibleTo(events, None)) case None => [] case Some(c) => [c]
  }

  ghost predicate SharedRaw(history: seq<Event>) {
    forall i :: 0 <= i < |history| ==> history[i].kind.Raw?
  }

  /** `pad` ends with the first `n` events of the history. */
  ghost predicate Covers(pad: seq<Event>, history: seq<Event>, n: nat) {
    && n <= |history| && |pad| <= 1 && (pad == [] <==> n == 0)
    && (pad != [] ==> pad[0].kind.Compacted? && pad[0].kind.endTime == history[n - 1].timestamp)
  }

  /** The compaction was handed one stretch of the history, on top of the compacted
      event that covers everything before it. */
  ghost predicate HandedStretch(f: Flight, history: seq<Event>) {
    && f.base < f.upTo <= |history|
    && Covers(f.pad, history, f.base)
    && f.handed == f.pad + history[f.base..f.upTo]
  }

  ghost predicate Invariant(w: World) {
    && Increasing(w.history) && SharedRaw(w.history)
    && Filter(VisibleTo(w.events, None), IsRaw()) == w.history
    && Covers(Newest(w.events), w.history, w.summarized)
    && forall i :: 0 <= i < |w.flights| ==> HandedStretch(w.flights[i], w.history)
  }

  /** What the unscoped reader is promised, and what every summary is made from. */
  ghost predicate Partitioned(w: World) {
    && w.summarized <= |w.history|
    && ActiveEvents(w.events, None) == Newest(w.events) + w.history[w.summarized..]
    && (Newest(w.events) == [] <==> w.summarized == 0)
    && forall i :: 0 <= i < |w.flights| ==> HandedStretch(w.flights[i], w.history)
  }

  lemma LaterThanCovered(history: seq<Event>, n: nat)
    requires Increasing(history) && SharedRaw(history) && 0 < n <= |history|
    ensures Filter(history, RawLaterThan(history[n - 1].timestamp)) == history[n..]
  {
    var later := RawLaterThan(history[n - 1].timestamp);
    CutPrefix(history, n, later);
    FilterAll(history[n..], later);
  }

  lemma ViewIs(w: World)
    requires Invariant(w)
    ensures ActiveEvents(w.events, None) == Newest(w.events) + w.history[w.summarized..]
    ensures RawActive(w.events, None) == w.history[w.summarized..]
  {
    var visible := VisibleTo(w.events, None);
    match LatestCompacted(visible) {
      case None =>
        FilterAll(visible, IsRaw());
        assert [] + w.history[0..] == w.history;
      case Some(c) =>
        FilterNested(visible, IsRaw(), RawLaterThan(c.kind.endTime));
        LaterThanCovered(w.history, w.summarized);
    }
    RawPart(Newest(w.events), w.history[w.summarized..]);
  }

  lemma RawPart(pad: seq<Event>, rest: seq<Event>)
    requires |pad| <= 1 && (pad != [] ==> pad[0].kind.Compacted?) && SharedRaw(rest)
    ensures Filter(pad + rest, IsRaw()) == rest
  {
    FilterAppend(pad, rest, IsRaw());
    FilterNone(pad, IsRaw());
    FilterAll(rest, IsRaw());
    assert [] + rest == rest;
  }

  lemma PadPart(pad: seq<Event>, rest: seq<Event>)
    requires |pad| <= 1 && (pad != [] ==> pad[0].kind.Compacted?) && SharedRaw(rest)
    ensures FirstCompacted(pad + rest) == pad
  {
    if pad == [] {
      NoneCompacted(rest);
      assert pad + rest == rest;
    } else {
      assert (pad + rest)[0] == pad[0] && pad == [pad[0]];
    }
  }

  lemma StretchOutlivesAppend(f: Flight, history: seq<Event>, e: Event)
    requires HandedStretch(f, history)
    ensures HandedStretch(f, history + [e])
  {
    assert (history + [e])[f.base..f.upTo] == history[f.base..f.upTo];
  }

  lemma NewestSkipsRaw(visible: seq<Event>, e: Event)
    requires e.kind.Raw?
    ensures LatestCompacted(visible + [e]) == LatestCompacted(visible)
  {
    assert (visible + [e])[..|visible|] == visible;
  }

  lemma VisibleAfterAppend(events: seq<Event>, e: Event)
    requires e.scope.Some? || e.kind.Raw?
    ensures Newest(events + [e]) == Newest(events)
    ensures Filter(VisibleTo(events + [e], None), IsRaw())
         == Filter(VisibleTo(events, None), IsRaw()) + if e.scope.None? then [e] else []
  {
    FilterLast(events, e, VisibleIn(None));
    if e.scope.None? {
      FilterLast(VisibleTo(events, None), e, IsRaw());
      NewestSkipsRaw(VisibleTo(events, None), e);
    }
  }

  lemma AppendKeeps(w: World, e: Event)
    requires Invariant(w) && Allowed(w, Append(e))
    ensures Invariant(Apply(w, Append(e)))
  {
    VisibleAfterAppend(w.events, e);
    if e.scope.None? {
      HistoryGrows(w.history, e, Newest(w.events), w.summarized, w.flights);
    }
  }

  lemma HistoryGrows(history: seq<Event>, e: Event, pad: seq<Event>, n: nat, flights: seq<Flight>)
    requires Increasing(history) && SharedRaw(history) && Covers(pad, history, n) && e.kind.Raw?
    requires history != [] ==> history[|history| - 1].timestamp < e.timestamp
    requires forall i :: 0 <= i < |flights| ==> HandedStretch(flights[i], history)
    ensures Increasing(history + [e]) && SharedRaw(history + [e]) && Covers(pad, history + [e], n)
    ensures forall i :: 0 <= i < |flights| ==> HandedStretch(flights[i], history + [e])
  {
    IncreasingGrows(history, e);
    forall i | 0 <= i < |flights| ensures HandedStretch(flights[i], history + [e]) {
      StretchOutlivesAppend(flights[i], history, e);
    }
  }

  lemma Stretch(pad: seq<Event>, history: seq<Event>, n: nat, k: nat)
    requires Covers(pad, history, n) && 0 < k && n + k <= |history|
    ensures HandedStretch(Flight(pad + history[n..][..k], pad, n, n + k), history)
  {
    assert history[n..][..k] == history[n..n + k];
  }

  /** The next stretch of the history, on top of the newest compacted event. */
  ghost predicate TakesNextStretch(w: World, p: Preparation) {
    p.Ready? ==>
      && 0 < p.split && w.summarized + p.split <= |w.history|
      && p.handed == Newest(w.events) + w.history[w.summarized..][..p.split]
  }

  lemma PreparedIs(w: World, retention: int)
    requires Invariant(w)
    ensures TakesNextStretch(w, Prepare(w.events, None, retention))
  {
    ViewIs(w);
    PadPart(Newest(w.events), w.history[w.summarized..]);
    RetainStartIsOptimal(w.history[w.summarized..], retention);
  }

  lemma TakeOffKeeps(w: World, p: Preparation)
    requires Invariant(w) && TakesNextStretch(w, p)
    ensures Invariant(TakeOff(w, p))
  {
    if p.Ready? {
      Stretch(Newest(w.events), w.history, w.summarized, p.split);
    }
  }

  lemma BeginKeeps(w: World, retention: int)
    requires Invariant(w)
    ensures Invariant(Apply(w, Begin(retention)))
  {
    PreparedIs(w, retention);
    TakeOffKeeps(w, Prepare(w.events, None, retention));
  }

  lemma VisibleAfterFinish(events: seq<Event>, c: Event)
    requires c.scope.None? && c.kind.Compacted?
    ensures Newest(events + [c]) == [c]
    ensures Filter(VisibleTo(events + [c], None), IsRaw()) == Filter(VisibleTo(events, None), IsRaw())
  {
    var visible := VisibleTo(events, None);
    FilterAppend(events, [c], VisibleIn(None));
    assert VisibleTo([c], None) == [c];
    FilterLast(visible, c, IsRaw());
  }

  lemma FinishKeeps(w: World, n: nat, summary: Summary)
    requires Invariant(w) && Allowed(w, Finish(n, summary))
    ensures Invariant(Apply(w, Finish(n, summary)))
  {
    VisibleAfterFinish(w.events, Tagged(summary, None));
    LastOfStretch(w.flights[n], w.history);
  }

  lemma LastOfStretch(f: Flight, history: seq<Event>)
    requires HandedStretch(f, history)
    ensures f.handed != [] && f.handed[|f.handed| - 1] == history[f.upTo - 1]
  {
  }

  lemma MoveKeeps(w: World, m: Move)
    requires Invariant(w) && Allowed(w, m)
    ensures Invariant(Apply(w, m))
  {
    match m
    case Append(e) => AppendKeeps(w, e);
    case Begin(retention) => BeginKeeps(w, retention);
    case Finish(n, summary) => FinishKeeps(w, n, summary);
    case Fail(_) =>
  }

  lemma {:induction false} RunKeeps(w: World, moves: seq<Move>)
    requires Invariant(w)
    ensures Invariant(Run(w, moves))
    ensures w.events <= Run(w, moves).events && w.history <= Run(w, moves).history
    decreases |moves|
  {
    if moves != [] && Allowed(w, moves[0]) {
      MoveKeeps(w, moves[0]);
      RunKeeps(Apply(w, moves[0]), moves[1..]);
    }
  }

  /** Over every run of appends in time order and unscoped compactions that may overlap
      in any way, whose summarizers leave their events untagged and end at the last
      event they were given: the session list only grows, and the active view is the
      newest compacted event followed by exactly the shared raw events it does not
      stand for, none lost and none repeated. A summary that arrives late moves the
      boundary back, never past an unsummarized event. */
  lemma OverlappingCompactionsKeepHistory(moves: seq<Move>, more: seq<Move>)
    ensures var w := Run(START, moves);
            && Partitioned(w)
            && w.events <= Run(w, more).events
            && Partitioned(Run(w, more))
  {
    RunKeeps(START, moves);
    var w := Run(START, moves);
    RunKeeps(w, more);
    ViewIs(w);
    ViewIs(Run(w, more));
  }
}
