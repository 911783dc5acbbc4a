/** Anchored compactions overlapping in any way, any number of them late: what the
    unscoped reader is shown after every run, and which events are lost to it. */
module AnchoredLosses {
  import opened Wrappers
  import opened Seqs
  import opened Events
  import opened CompactionUtils
  import opened AnchoredCompactor
  import opened AnchoredViews
  import opened AnchoredReaders
  import opened AnchoredHistory
  import opened AnchoredRuns

  // ---------------------------------------------------------------------------
  // What every run keeps, late or not
  // ---------------------------------------------------------------------------

  /** No scratchpad the reader sees ends after the summarized part of the history, and
      there is one as soon as something is summarized. */
  ghost predicate PadsFit(visible: seq<Event>, history: seq<Event>, n: nat) {
    && n <= |history| && (LatestScratchpad(visible).Some? <==> n > 0)
    && forall p :: p in visible && p.IsScratchpad() ==> n > 0 && p.kind.endTime <= history[n - 1].timestamp
  }

  /** Apart from scratchpads the reader sees exactly what is not summarized. */
  ghost predicate Continues(visible: seq<Event>, history: seq<Event>, n: nat) {
    && Increasing(history) && AllShared(history) && PadsFit(visible, history, n)
    && Filter(visible, IsRegular()) == history[n..]
  }

  ghost predicate Kept(w: World) {
    && Continues(VisibleTo(w.events, None), w.history, w.summarized)
    && forall i :: 0 <= i < |w.flights| ==>
         TakesStretch(w.flights[i], w.history) && w.flights[i].base <= w.summarized
  }

  lemma ViewFrom(visible: seq<Event>, history: seq<Event>, n: nat)
    requires Continues(visible, history, n)
    ensures ViewOf(visible) == PadOf(ViewOf(visible)) + history[n..] && RawOf(ViewOf(visible)) == history[n..]
    ensures PadOf(ViewOf(visible))
         == match LatestScratchpad(visible) case Some(pad) => [pad] case None => []
    ensures forall p :: p in PadOf(ViewOf(visible)) ==> p in visible && p.IsScratchpad()
  {
    var latest := LatestScratchpad(visible);
    if latest.Some? {
      var later := UnsummarizedAfter(latest.value.kind.endTime);
      FilterNested(visible, IsRegular(), later);
      AllLater(history, n, latest.value.kind.endTime);
      assert ViewOf(visible) == [latest.value] + history[n..];
    } else {
      FilterAll(visible, IsRegular());
      assert [] + history[n..] == history[n..];
    }
  }

  lemma RegularAppended(visible: seq<Event>, history: seq<Event>, n: nat, e: Event)
    requires n <= |history| && Filter(visible, IsRegular()) == history[n..] && !e.IsScratchpad()
    ensures Filter(visible + [e], IsRegular()) == (history + [e])[n..]
  {
    assert (history + [e])[n..] == history[n..] + [e];
    FilterLast(visible, e, IsRegular());
  }

  lemma PadsAppended(visible: seq<Event>, history: seq<Event>, n: nat, e: Event)
    requires PadsFit(visible, history, n) && !e.IsScratchpad()
    ensures PadsFit(visible + [e], history + [e], n)
  {
    assert n > 0 ==> (history + [e])[n - 1] == history[n - 1];
    LatestAppend(visible, [e]);
    assert LatestScratchpad([e]) == None;
  }

  lemma AppendContinues(visible: seq<Event>, history: seq<Event>, n: nat, e: Event)
    requires Continues(visible, history, n) && Shared(e)
    requires history != [] ==> history[|history| - 1].timestamp < e.timestamp
    ensures Continues(visible + [e], history + [e], n)
  {
    IncreasingGrows(history, e);
    RegularAppended(visible, history, n, e);
    PadsAppended(visible, history, n, e);
  }

  lemma StretchStays(f: Flight, history: seq<Event>, e: Event)
    requires TakesStretch(f, history)
    ensures TakesStretch(f, history + [e])
  {
    assert (history + [e])[f.base..f.upTo] == history[f.base..f.upTo];
  }

  lemma AppendKept(w: World, e: Event)
    requires Kept(w) && Allowed(w, Append(e))
    ensures Kept(Apply(w, Append(e)))
  {
    FilterLast(w.events, e, VisibleIn(None));
    if e.scope.None? {
      AppendContinues(VisibleTo(w.events, None), w.history, w.summarized, e);
      forall i | 0 <= i < |w.flights| ensures TakesStretch(w.flights[i], w.history + [e]) {
        StretchStays(w.flights[i], w.history, e);
      }
    }
  }

  lemma RegularIn(pad: seq<Event>, given: seq<Event>)
    requires |pad| <= 1 && (pad != [] ==> pad[0].IsScratchpad()) && AllShared(given)
    ensures |Filter(pad + given, IsRegular())| == |given|
  {
    FilterAppend(pad, given, IsRegular());
    FilterNone(pad, IsRegular());
    FilterAll(given, IsRegular());
  }

  lemma MakesTakes(f: Flight, history: seq<Event>)
    requires f.plan.scope.None? && f.base < f.upTo <= |history|
    requires |f.pad| <= 1 && (f.pad != [] ==> f.pad[0].IsScratchpad() && f.pad[0].scope.None?)
    requires f.plan.handed == f.pad + history[f.base..f.upTo] && f.plan.replaced == set e | e in f.plan.handed
    ensures TakesStretch(f, history)
  {
  }

  lemma TakesNext(w: World, plan: Plan, pad: seq<Event>, k: nat)
    requires AllShared(w.history) && 0 < k && w.summarized + k <= |w.history|
    requires |pad| <= 1 && (pad != [] ==> pad[0].IsScratchpad() && pad[0].scope.None?)
    requires plan.scope.None? && plan.handed == pad + w.history[w.summarized..][..k]
    requires plan.replaced == set e | e in plan.handed
    ensures TakesStretch(NewFlight(w, plan, pad), w.history)
  {
    var given := w.history[w.summarized..w.summarized + k];
    assert w.history[w.summarized..][..k] == given;
    RegularIn(pad, given);
    MakesTakes(NewFlight(w, plan, pad), w.history);
  }

  lemma PlanForShared(active: seq<Event>, k: nat)
    requires k <= |RawOf(active)| && forall p :: p in PadOf(active) ==> p.scope.None?
    ensures var plan := PlanFor(active, None, k);
            && plan.scope.None? && plan.handed == PadOf(active) + RawOf(active)[..k]
            && plan.replaced == set e | e in plan.handed
  {
    assert PadOf(active) != [] ==> PadOf(active)[0] in PadOf(active);
  }

  lemma PlannedKept(w: World, retention: int)
    requires Kept(w) && Prepare(w.events, None, retention).Ready?
    ensures var plan := Prepare(w.events, None, retention).plan;
            TakesStretch(NewFlight(w, plan, PadOf(AnchoredView(w.events, None))), w.history)
  {
    var active := AnchoredView(w.events, None);
    ViewFrom(VisibleTo(w.events, None), w.history, w.summarized);
    FilterMembers(w.events, VisibleIn(None));
    var k := PreparedPlans(w.events, None, retention);
    PlanForShared(active, k);
    assert PadOf(active) != [] ==> PadOf(active)[0] in PadOf(active);
    TakesNext(w, PlanFor(active, None, k), PadOf(active), k);
  }

  lemma TakeOffKept(w: World, p: Preparation)
    requires Kept(w)
    requires p.Ready? ==> TakesStretch(NewFlight(w, p.plan, PadOf(AnchoredView(w.events, None))), w.history)
    ensures Kept(TakeOff(w, p))
  {
  }

  lemma LastBefore(history: seq<Event>, i: nat, j: nat)
    requires Increasing(history) && 0 < i <= j <= |history|
    ensures history[i - 1].timestamp <= history[j - 1].timestamp
  {
  }

  lemma PadsStillFit(visible: seq<Event>, history: seq<Event>, n: nat, m: nat, stamp: Event,
                     head: seq<Event>, tail: seq<Event>)
    requires Increasing(history) && PadsFit(visible, history, n) && n <= m && 0 < m <= |history|
    requires forall e :: e in head + tail ==> e in visible
    requires stamp.IsScratchpad() && stamp.kind.endTime <= history[m - 1].timestamp
    ensures PadsFit(head + [stamp] + tail, history, m)
  {
    var after := head + [stamp] + tail;
    LatestNone(after);
    assert after[|head|] == stamp;
    forall p | p in after && p.IsScratchpad() ensures p.kind.endTime <= history[m - 1].timestamp {
      if p != stamp {
        assert p in head + tail;
        LastBefore(history, n, m);
      }
    }
  }

  lemma RegularAfter(visible: seq<Event>, history: seq<Event>, n: nat, f: Flight, stamp: Event,
                     head: seq<Event>, tail: seq<Event>)
    requires Increasing(history) && AllShared(history) && TakesStretch(f, history) && f.base <= n <= |history|
    requires Filter(visible, IsRegular()) == history[n..] && stamp.IsScratchpad()
    requires head + tail == Filter(visible, NotIn(f.plan.replaced))
    ensures Filter(head + [stamp] + tail, IsRegular()) == history[Larger(n, f.upTo)..]
  {
    FilterSkip(head, stamp, tail, IsRegular());
    FilterCommute(visible, NotIn(f.plan.replaced), IsRegular());
    StretchIsRemoved(f, history, n);
  }

  /** A scratchpad inserted among what is left of the visible events. */
  lemma FinishContinues(visible: seq<Event>, history: seq<Event>, n: nat, f: Flight, stamp: Event,
                        head: seq<Event>, tail: seq<Event>)
    requires Continues(visible, history, n) && TakesStretch(f, history) && f.base <= n
    requires head + tail == Filter(visible, NotIn(f.plan.replaced))
    requires stamp.IsScratchpad() && stamp.kind.endTime == history[f.upTo - 1].timestamp
    ensures Continues(head + [stamp] + tail, history, Larger(n, f.upTo))
  {
    RegularAfter(visible, history, n, f, stamp, head, tail);
    FilterMembers(visible, NotIn(f.plan.replaced));
    LastBefore(history, f.upTo, Larger(n, f.upTo));
    PadsStillFit(visible, history, n, Larger(n, f.upTo), stamp, head, tail);
  }

  lemma FlightsStay(w: World, n: nat, m: nat)
    requires Kept(w) && n < |w.flights| && w.summarized <= m
    ensures var others := w.flights[..n] + w.flights[n + 1..];
            forall i :: 0 <= i < |others| ==> TakesStretch(others[i], w.history) && others[i].base <= m
  {
    var others := w.flights[..n] + w.flights[n + 1..];
    forall i | 0 <= i < |others| ensures TakesStretch(others[i], w.history) && others[i].base <= m {
      TakenOut(w.flights, n, i);
    }
  }

  lemma FinishKept(w: World, n: nat, summary: Summary)
    requires Kept(w) && Allowed(w, Finish(n, summary))
    ensures Kept(Apply(w, Finish(n, summary)))
  {
    var f := w.flights[n];
    var head, tail := SeenAfter(w.events, f.plan, summary, None);
    LastOfStretch(f, w.history);
    FinishContinues(VisibleTo(w.events, None), w.history, w.summarized, f, Stamp(summary, None), head, tail);
    FlightsStay(w, n, Larger(w.summarized, f.upTo));
  }

  lemma MoveKept(w: World, m: Move)
    requires Kept(w) && Allowed(w, m)
    ensures Kept(Apply(w, m))
  {
    match m
    case Append(e) => AppendKept(w, e);
    case Begin(retention) =>
      if Prepare(w.events, None, retention).Ready? {
        PlannedKept(w, retention);
      }
      TakeOffKept(w, Prepare(w.events, None, retention));
    case Finish(n, summary) => FinishKept(w, n, summary);
    case Fail(n) => FlightsStay(w, n, w.summarized);
    case ScopedCompaction(earlier, s, size, summary) =>
      ScopesDoNotInterfere(earlier, w.events, s, size, Prepare(earlier, Some(s), size).plan, summary, None);
  }

  lemma {:induction false} RunKept(w: World, moves: seq<Move>)
    requires Kept(w)
    ensures Kept(Run(w, moves))
    decreases |moves|
  {
    if moves != [] && Allowed(w, moves[0]) {
      MoveKept(w, moves[0]);
      RunKept(Apply(w, moves[0]), moves[1..]);
    }
  }

  lemma EveryRunKept(moves: seq<Move>)
    ensures Kept(Run(START, moves))
  {
    RunKept(START, moves);
  }

  // ---------------------------------------------------------------------------
  // What is shown
  // ---------------------------------------------------------------------------

  /** The positions of the history the scratchpad in the view stands for. */
  function ShownFor(w: World): set<nat> { Standing(w, PadOf(AnchoredView(w.events, None))) }

  /** Over every run, however many compactions were late, the view is one scratchpad, if
      anything was summarized, followed by exactly the shared events that no finished
      compaction has summarized. */
  lemma ViewAlwaysContinues(moves: seq<Move>)
    ensures var w := Run(START, moves);
            var view := AnchoredView(w.events, None);
            && w.summarized <= |w.history|
            && view == PadOf(view) + w.history[w.summarized..] && RawOf(view) == w.history[w.summarized..]
            && (PadOf(view) == [] <==> w.summarized == 0)
  {
    var w := Run(START, moves);
    EveryRunKept(moves);
    ViewFrom(VisibleTo(w.events, None), w.history, w.summarized);
  }

  /** Which scratchpad a finishing compaction leaves in the view, after any run: the
      latest one that stays behind the first event it replaces, or else its own; and what
      that one stands for. */
  lemma FinishShows(moves: seq<Move>, n: nat, summary: Summary)
    requires Allowed(Run(START, moves), Finish(n, summary))
    ensures var w := Run(START, moves);
            var f := w.flights[n];
            && TakesStretch(f, w.history) && w.summarized <= |w.history|
            && AnchoredView(Apply(w, Finish(n, summary)).events, None)
               == [Shown(w.events, f.plan, summary, None)] + w.history[Larger(w.summarized, f.upTo)..]
            && ShownFor(Apply(w, Finish(n, summary)))
               == if PadBehind(w.events, f.plan, None).None? then f.stands
                  else Standing(w, [Shown(w.events, f.plan, summary, None)])
  {
    var w := Run(START, moves);
    var f := w.flights[n];
    EveryRunKept(moves);
    FinishKept(w, n, summary);
    ViewFrom(VisibleTo(Land(w, n, summary).events, None), w.history, Larger(w.summarized, f.upTo));
    HeadIsShown(w.events, f.plan, summary);
    PadBehindIsOld(w.events, f.plan, summary, None);
  }

  lemma HeadIsShown(events: seq<Event>, plan: Plan, summary: Summary)
    requires plan.scope.None? && summary.scope.None? && Stamp(summary, None) !in events
    ensures PadOf(AnchoredView(Rewrite(events, plan, summary), None)) == [Shown(events, plan, summary, None)]
  {
    ViewAfter(events, plan, summary, None);
  }

  // ---------------------------------------------------------------------------
  // What is lost
  // ---------------------------------------------------------------------------

  /** The event at a position of the shared history is lost to the unscoped reader: it is
      neither active nor among those the shown scratchpad stands for. */
  ghost predicate IsLost(w: World, i: nat) {
    i < |w.history| && w.history[i] !in AnchoredView(w.events, None) && i !in ShownFor(w)
  }

  /** After every run an event is lost exactly when some compaction summarized it and the
      one that is shown did not, itself or through the scratchpads it took over. */
  lemma LostIff(moves: seq<Move>, i: nat)
    ensures var w := Run(START, moves);
            IsLost(w, i) <==> i in Stretch(0, w.summarized) - ShownFor(w)
  {
    var w := Run(START, moves);
    EveryRunKept(moves);
    ViewFrom(VisibleTo(w.events, None), w.history, w.summarized);
    if i < |w.history| {
      HistoryFrom(w.history, w.summarized, i);
      assert forall p :: p in PadOf(AnchoredView(w.events, None)) ==> p != w.history[i];
    }
  }

  /** On every run whose shared events are raw the prompt is built from the same view. */
  lemma PromptContinues(moves: seq<Move>)
    requires forall i :: 0 <= i < |Run(START, moves).history| ==> Run(START, moves).history[i].kind.Raw?
    ensures var w := Run(START, moves);
            ActiveEvents(w.events, None) == AnchoredView(w.events, None)
  {
    var w := Run(START, moves);
    var visible := VisibleTo(w.events, None);
    EveryRunKept(moves);
    var rest := w.history[w.summarized..];
    FilterMembers(visible, IsRegular());
    forall i | 0 <= i < |visible| && visible[i].kind.Compacted? ensures visible[i].IsScratchpad() {
      var e := visible[i];
      assert e.IsScratchpad() || e in rest;
    }
    PromptSeesTheView(w.events, None);
  }

  /** As long as no compaction was late every scratchpad stands for all before it. */
  ghost predicate StandsForAll(w: World) {
    && ShownFor(w) == Stretch(0, w.summarized)
    && forall i :: 0 <= i < |w.flights| ==> w.flights[i].stands == Stretch(0, w.flights[i].upTo)
  }

  lemma NewFlightStands(w: World, plan: Plan)
    requires StandsForAll(w)
    ensures var f := NewFlight(w, plan, PadOf(AnchoredView(w.events, None)));
            f.stands == Stretch(0, f.upTo)
  {
  }

  lemma SameViewStands(w: World, t: World)
    requires StandsForAll(w) && t.stands == w.stands && t.summarized == w.summarized && t.flights == w.flights
    requires PadOf(AnchoredView(t.events, None)) == PadOf(AnchoredView(w.events, None))
    ensures StandsForAll(t)
  {
  }

  lemma Others(flights: seq<Flight>, n: nat)
    requires n < |flights| && forall i :: 0 <= i < |flights| ==> flights[i].stands == Stretch(0, flights[i].upTo)
    ensures var others := flights[..n] + flights[n + 1..];
            forall i :: 0 <= i < |others| ==> others[i].stands == Stretch(0, others[i].upTo)
  {
    var others := flights[..n] + flights[n + 1..];
    forall i | 0 <= i < |others| ensures others[i].stands == Stretch(0, others[i].upTo) {
      TakenOut(flights, n, i);
    }
  }

  lemma FinishStands(w: World, n: nat, summary: Summary, pad: seq<Event>)
    requires StandsForAll(w) && Holds(w, pad) && Allowed(w, Finish(n, summary)) && w.flights[n].madeAt == w.finished
    ensures StandsForAll(Land(w, n, summary))
  {
    TimelyFinishKeeps(w, n, summary, pad);
    HeldIsPartitioned(Land(w, n, summary), [Stamp(summary, None)]);
    Others(w.flights, n);
  }

  lemma FailStands(w: World, n: nat)
    requires StandsForAll(w) && Allowed(w, Fail(n))
    ensures StandsForAll(Apply(w, Fail(n)))
  {
    Others(w.flights, n);
  }

  lemma BeginStands(w: World, p: Preparation)
    requires StandsForAll(w)
    ensures StandsForAll(TakeOff(w, p))
  {
    if p.Ready? {
      NewFlightStands(w, p.plan);
    }
  }

  lemma AppendStands(w: World, e: Event, pad: seq<Event>)
    requires StandsForAll(w) && Holds(w, pad) && Allowed(w, Append(e))
    ensures StandsForAll(Apply(w, Append(e)))
  {
    var t := Apply(w, Append(e));
    FilterLast(w.events, e, VisibleIn(None));
    if e.scope.None? {
      SharedAppendKeeps(w, e, pad);
    }
    HeldIsPartitioned(w, pad);
    assert Holds(t, pad);
    HeldIsPartitioned(t, pad);
    SameViewStands(w, t);
  }

  lemma HeldMoveStands(w: World, m: Move, pad: seq<Event>)
    requires Holds(w, pad) && Allowed(w, m) && StandsForAll(w) && !Apply(w, m).late
    ensures StandsForAll(Apply(w, m))
  {
    match m
    case Append(e) => AppendStands(w, e, pad);
    case Begin(retention) => BeginStands(w, Prepare(w.events, None, retention));
    case Finish(n, summary) => FinishStands(w, n, summary, pad);
    case Fail(n) => FailStands(w, n);
    case ScopedCompaction(earlier, s, size, summary) =>
      ScopesDoNotInterfere(earlier, w.events, s, size, Prepare(earlier, Some(s), size).plan, summary, None);
      SameViewStands(w, Apply(w, m));
  }

  lemma OnceLate(w: World, m: Move)
    requires Allowed(w, m) && w.late
    ensures Apply(w, m).late
  {
  }

  lemma MoveStands(w: World, m: Move)
    requires Invariant(w) && Allowed(w, m) && (!w.late ==> StandsForAll(w))
    ensures !Apply(w, m).late ==> StandsForAll(Apply(w, m))
  {
    if w.late {
      OnceLate(w, m);
    } else if !Apply(w, m).late {
      var pad :| Holds(w, pad);
      HeldMoveStands(w, m, pad);
    }
  }

  lemma {:induction false} RunStands(w: World, moves: seq<Move>)
    requires Invariant(w) && (!w.late ==> StandsForAll(w))
    ensures !Run(w, moves).late ==> StandsForAll(Run(w, moves))
    decreases |moves|
  {
    if moves != [] && Allowed(w, moves[0]) {
      MoveKeeps(w, moves[0]);
      MoveStands(w, moves[0]);
      RunStands(Apply(w, moves[0]), moves[1..]);
    }
  }

  lemma StandingForAll(moves: seq<Move>)
    ensures var w := Run(START, moves);
            !w.late ==> ShownFor(w) == Stretch(0, w.summarized)
  {
    StartHolds();
    assert PadOf(AnchoredView(START.events, None)) == [];
    RunStands(START, moves);
  }

  /** So nothing is ever lost while no compaction is late. */
  lemma NothingLostInTime(moves: seq<Move>, i: nat)
    ensures IsLost(Run(START, moves), i) ==> Run(START, moves).late
  {
    StandingForAll(moves);
    LostIff(moves, i);
  }

  // ---------------------------------------------------------------------------
  // It does happen
  // ---------------------------------------------------------------------------

  /** Three shared events in time order, none of them answering a call. */
  ghost predicate ThreeEvents(a: Event, b: Event, c: Event) {
    && a.kind.Raw? && b.kind.Raw? && c.kind.Raw? && a.scope.None? && b.scope.None? && c.scope.None?
    && a.timestamp < b.timestamp < c.timestamp && !b.HasResponses() && !c.HasResponses()
  }

  lemma TwoPlans(a: Event, b: Event, c: Event)
    requires ThreeEvents(a, b, c)
    ensures VisibleTo([a, b, c], None) == [a, b, c] && AnchoredView([a, b, c], None) == [a, b, c]
    ensures Prepare([a, b, c], None, 2) == Ready(Plan(None, [a], {a}))
    ensures Prepare([a, b, c], None, 1) == Ready(Plan(None, [a, b], {a, b}))
  {
    var events := [a, b, c];
    assert events[1..] == [b, c] && [b, c][1..] == [c] && [c][1..] == [];
    assert VisibleTo([c], None) == [c] && VisibleTo([b, c], None) == [b, c] && VisibleTo(events, None) == events;
    LatestNone(events);
    assert PadOf(events) == [] && RawOf(events) == events;
    assert events[..1] == [a] && events[..2] == [a, b];
    assert PlanFor(events, None, 1).handed == [a] && PlanFor(events, None, 1).replaced == {a};
    assert PlanFor(events, None, 2).handed == [a, b] && PlanFor(events, None, 2).replaced == {a, b};
  }

  lemma LongerFirst(a: Event, b: Event, c: Event, longer: Summary, shorter: Summary)
    requires ThreeEvents(a, b, c)
    ensures Rewrite([a, b, c], Plan(None, [a, b], {a, b}), longer) == [Stamp(longer, None), c]
    ensures Rewrite([Stamp(longer, None), c], Plan(None, [a], {a}), shorter)
         == [Stamp(longer, None), c, Stamp(shorter, None)]
  {
    var events, replaced, after := [a, b, c], {a, b}, [Stamp(longer, None), c];
    assert events[1..] == [b, c] && [b, c][1..] == [c] && [c][1..] == [];
    assert FirstReplaced(events, replaced) == 0 && events[0..] == events && events[..0] == [];
    assert Filter([c], NotIn(replaced)) == [c] && Filter([b, c], NotIn(replaced)) == [c];
    assert Filter(events, NotIn(replaced)) == [c];
    assert after[1..] == [c];
    assert FirstReplaced([c], {a}) == 1 && FirstReplaced(after, {a}) == 2;
    assert after[..2] == after && after[2..] == [];
  }

  lemma RunStep(w: World, m: Move, rest: seq<Move>)
    requires Allowed(w, m)
    ensures Run(w, [m] + rest) == Run(Apply(w, m), rest)
  {
    assert ([m] + rest)[1..] == rest;
  }

  /** The world after three appends. */
  function Appended(a: Event, b: Event, c: Event): World {
    World([a, b, c], [], [a, b, c], 0, 0, false, map[])
  }

  lemma AppendThree(a: Event, b: Event, c: Event, rest: seq<Move>)
    requires ThreeEvents(a, b, c)
    ensures Run(START, [Append(a)] + ([Append(b)] + ([Append(c)] + rest))) == Run(Appended(a, b, c), rest)
  {
    var one := Apply(START, Append(a));
    assert one == START.(events := [a], history := [a]);
    var two := Apply(one, Append(b));
    assert two == START.(events := [a, b], history := [a, b]);
    RunStep(START, Append(a), [Append(b)] + ([Append(c)] + rest));
    RunStep(one, Append(b), [Append(c)] + rest);
    RunStep(two, Append(c), rest);
    assert Apply(two, Append(c)) == Appended(a, b, c);
  }

  /** The two flights that take off from there, the shorter one first. */
  function InFlight(a: Event, b: Event, c: Event): World {
    var w := Appended(a, b, c);
    w.(flights := [NewFlight(w, Plan(None, [a], {a}), []), NewFlight(w, Plan(None, [a, b], {a, b}), [])])
  }

  lemma TakeOffTwo(a: Event, b: Event, c: Event, rest: seq<Move>)
    requires ThreeEvents(a, b, c)
    ensures Run(Appended(a, b, c), [Begin(2)] + ([Begin(1)] + rest)) == Run(InFlight(a, b, c), rest)
  {
    var w := Appended(a, b, c);
    TwoPlans(a, b, c);
    assert PadOf([a, b, c]) == [];
    var one := w.(flights := [NewFlight(w, Plan(None, [a], {a}), [])]);
    assert Apply(w, Begin(2)) == one;
    RunStep(w, Begin(2), [Begin(1)] + rest);
    RunStep(one, Begin(1), rest);
    assert NewFlight(one, Plan(None, [a, b], {a, b}), []) == NewFlight(w, Plan(None, [a, b], {a, b}), []);
    assert Apply(one, Begin(1)) == InFlight(a, b, c);
  }

  lemma LandTwo(a: Event, b: Event, c: Event, longer: Summary, shorter: Summary)
    requires ThreeEvents(a, b, c) && Stamp(longer, None) != Stamp(shorter, None)
    requires longer.scope.None? && longer.endTime == b.timestamp
    requires shorter.scope.None? && shorter.endTime == a.timestamp
    ensures var w := Run(InFlight(a, b, c), [Finish(1, longer)] + ([Finish(0, shorter)] + []));
            w.late && w.events == [Stamp(longer, None), c, Stamp(shorter, None)] && w.history == [a, b, c]
  {
    var w := InFlight(a, b, c);
    LongerFirst(a, b, c, longer, shorter);
    RunStep(w, Finish(1, longer), [Finish(0, shorter)] + []);
    var one := Apply(w, Finish(1, longer));
    assert one.flights == [w.flights[0]];
    assert one.events == [Stamp(longer, None), c] && one.finished == 1;
    RunStep(one, Finish(0, shorter), []);
  }

  /** A late summary: the compaction of `[a, b]` finishes before that of `[a]`, and `b` is
      neither active nor in the summary that is shown. */
  lemma LateSummaryLoses(a: Event, b: Event, c: Event, longer: Summary, shorter: Summary)
    requires ThreeEvents(a, b, c) && Stamp(longer, None) != Stamp(shorter, None)
    requires longer.scope.None? && longer.endTime == b.timestamp
    requires shorter.scope.None? && shorter.endTime == a.timestamp
    ensures var w := Run(START, [Append(a), Append(b), Append(c), Begin(2), Begin(1),
                                 Finish(1, longer), Finish(0, shorter)]);
            && w.late && w.history == [a, b, c]
            && w.events == [Stamp(longer, None), c, Stamp(shorter, None)]
            && AnchoredView(w.events, None) == [Stamp(shorter, None), c]
  {
    var landing := [Finish(1, longer)] + ([Finish(0, shorter)] + []);
    var flying := [Begin(2)] + ([Begin(1)] + landing);
    var moves := [Append(a), Append(b), Append(c), Begin(2), Begin(1), Finish(1, longer), Finish(0, shorter)];
    assert moves == [Append(a)] + ([Append(b)] + ([Append(c)] + flying));
    AppendThree(a, b, c, flying);
    TakeOffTwo(a, b, c, landing);
    LandTwo(a, b, c, longer, shorter);
    ShownLast(Stamp(longer, None), c, Stamp(shorter, None));
  }

  lemma ShownLast(first: Event, c: Event, last: Event)
    requires first.IsScratchpad() && last.IsScratchpad() && c.kind.Raw?
    requires first.scope.None? && last.scope.None? && c.scope.None? && last.kind.endTime < c.timestamp
    ensures AnchoredView([first, c, last], None) == [last, c]
  {
    var events, later := [first, c, last], UnsummarizedAfter(last.kind.endTime);
    assert events[1..] == [c, last] && [c, last][1..] == [last] && [last][1..] == [];
    assert VisibleTo([last], None) == [last] && VisibleTo([c, last], None) == [c, last];
    assert VisibleTo(events, None) == events;
    assert Filter([last], later) == [] && Filter([c, last], later) == [c] && Filter(events, later) == [c];
  }
}
