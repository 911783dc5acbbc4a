/** Sessions with any number of overlapping anchored compactions, and what every step
    keeps: as long as no summary arrives late, the unscoped reader sees one scratchpad
    and the events after it; once one was late, two scratchpads stay. */
module AnchoredHistory {
  import opened Wrappers
  import opened Seqs
  import opened Events
  import opened CompactionUtils
  import opened AnchoredCompactor

  /** A compaction waiting for its summary. `base` and `upTo` record which part of the
      shared history it was handed on top of the scratchpad `pad`, `madeAt` how many
      compactions had finished when its plan was made, and `stands` the positions of the
      history its summary will stand for, itself or through `pad`. */
  datatype Flight = Flight(plan: Plan, pad: seq<Event>, base: nat, upTo: nat, madeAt: nat, stands: set<nat>)

  /** A session with its unscoped compactions. The last five fields only record what
      happened: every shared event ever appended, how many of them have been summarized,
      how many compactions have finished, whether one of them was late, that is, planned
      before another one finished, and what each scratchpad stands for. */
  datatype World = World(events: seq<Event>, flights: seq<Flight>, history: seq<Event>,
                         summarized: nat, finished: nat, late: bool, stands: map<Event, set<nat>>)

  const START := World([], [], [], 0, 0, false, map[])

  datatype Move =
    | Append(event: Event)
    | Begin(retention: int)
    | Finish(n: nat, summary: Summary)
    | Fail(n: nat)
      // another scope's compaction, planned on any earlier list, is applied now
    | ScopedCompaction(earlier: seq<Event>, scope: string, size: int, result: Summary)

  /** The scratchpad that is inserted is a new object. */
  predicate IsNew(w: World, stamp: Event) {
    stamp !in w.events && forall i :: 0 <= i < |w.flights| ==> stamp !in w.flights[i].plan.replaced
  }

  predicate Allowed(w: World, m: Move) {
    match m
    case Append(e) =>
      !e.IsScratchpad() &&
      (e.scope.None? && w.history != [] ==> w.history[|w.history| - 1].timestamp < e.timestamp)
    case Begin(_) => true
    case Finish(n, summary) =>
      n < |w.flights| && w.flights[n].plan.handed != [] && summary.scope.None? && IsNew(w, Stamp(summary, None)) &&
      summary.endTime == w.flights[n].plan.handed[|w.flights[n].plan.handed| - 1].timestamp
    case Fail(n) => n < |w.flights|
    case ScopedCompaction(earlier, s, size, _) => Prepare(earlier, Some(s), size).Ready?
  }

  function IsRegular(): Event -> bool { (e: Event) => !e.IsScratchpad() }

  function Larger(a: nat, b: nat): nat { if a < b then b else a }

  /** The positions from `from` up to but not including `to`. */
  function Stretch(from: nat, to: nat): (r: set<nat>)
    ensures forall i: nat :: i in r <==> from <= i < to
  {
    if from < to then Stretch(from, to - 1) + {to - 1} else {}
  }

  /** What the scratchpad at the head of a view stands for. */
  function Standing(w: World, pad: seq<Event>): set<nat> {
    if pad != [] && pad[0] in w.stands then w.stands[pad[0]] else {}
  }

  function NewFlight(w: World, plan: Plan, pad: seq<Event>): Flight {
    var upTo := w.summarized + |Filter(plan.handed, IsRegular())|;
    Flight(plan, pad, w.summarized, upTo, w.finished, Standing(w, pad) + Stretch(w.summarized, upTo))
  }

  function TakeOff(w: World, p: Preparation): World {
    match p
    case Ready(plan) => w.(flights := w.flights + [NewFlight(w, plan, PadOf(AnchoredView(w.events, None)))])
    case _ => w
  }

  function Land(w: World, n: nat, summary: Summary): World
    requires n < |w.flights|
  {
    var f := w.flights[n];
    World(Rewrite(w.events, f.plan, summary), w.flights[..n] + w.flights[n + 1..], w.history,
          Larger(w.summarized, f.upTo), w.finished + 1, w.late || f.madeAt < w.finished,
          w.stands[Stamp(summary, None) := f.stands])
  }

  function Apply(w: World, m: Move): World
    requires Allowed(w, m)
  {
    match m
    case Append(e) =>
      w.(events := w.events + [e], history := if e.scope.None? then w.history + [e] else w.history)
    case Begin(retention) => TakeOff(w, Prepare(w.events, None, retention))
    case Finish(n, summary) => Land(w, n, summary)
    case Fail(n) => w.(flights := w.flights[..n] + w.flights[n + 1..])
    case ScopedCompaction(earlier, s, size, summary) =>
      w.(events := Rewrite(w.events, Prepare(earlier, Some(s), size).plan, summary))
  }

  /** The world after a run of allowed moves; a move that is not allowed ends it. */
  function Run(w: World, moves: seq<Move>): World
    decreases |moves|
  {
    if moves == [] || !Allowed(w, moves[0]) then w else Run(Apply(w, moves[0]), moves[1..])
  }

  /** What the unscoped reader is promised: the active view is all it can see, namely the
      only untagged scratchpad, if anything was summarized, followed by exactly the
      shared events not yet summarized, in order. */
  ghost predicate Partitioned(w: World) {
    var view := AnchoredView(w.events, None);
    && w.summarized <= |w.history|
    && view == VisibleTo(w.events, None)
    && RawOf(view) == w.history[w.summarized..]
    && (PadOf(view) == [] <==> w.summarized == 0)
  }

  // ---------------------------------------------------------------------------
  // Invariant
  // ---------------------------------------------------------------------------

  ghost predicate Shared(e: Event) { e.scope.None? && !e.IsScratchpad() }

  ghost predicate AllShared(history: seq<Event>) {
    forall i :: 0 <= i < |history| ==> Shared(history[i])
  }

  /** `pad` ends with the first `n` events of the history. */
  ghost predicate Covers(pad: seq<Event>, history: seq<Event>, n: nat) {
    && n <= |history| && |pad| <= 1 && (pad == [] <==> n == 0)
    && (pad != [] ==> && pad[0].IsScratchpad() && pad[0].scope.None?
                      && pad[0].kind.endTime == history[n - 1].timestamp)
  }

  /** The compaction was handed one stretch of the history, on top of a scratchpad. */
  ghost predicate TakesStretch(f: Flight, history: seq<Event>) {
    && f.plan.scope.None? && f.base < f.upTo <= |history|
    && |f.pad| <= 1 && (f.pad != [] ==> f.pad[0].IsScratchpad() && f.pad[0].scope.None?)
    && f.plan.handed == f.pad + history[f.base..f.upTo]
    && f.plan.replaced == set e | e in f.plan.handed
  }

  /** The scratchpad covers everything before the stretch. */
  ghost predicate HandedStretch(f: Flight, history: seq<Event>) {
    TakesStretch(f, history) && Covers(f.pad, history, f.base)
  }

  /** A compaction that is in time starts from the current scratchpad; one that is late
      does not know it. */
  ghost predicate InTimeOrLate(f: Flight, pad: seq<Event>, summarized: nat, finished: nat) {
    && f.madeAt <= finished
    && (f.madeAt == finished ==> f.pad == pad && f.base == summarized)
    && (f.madeAt < finished ==> f.base < summarized && pad != [] && pad[0] !in f.plan.replaced)
  }

  ghost predicate FlightsFit(w: World, pad: seq<Event>) {
    forall i :: 0 <= i < |w.flights| ==>
      HandedStretch(w.flights[i], w.history) && InTimeOrLate(w.flights[i], pad, w.summarized, w.finished)
  }

  ghost predicate Records(history: seq<Event>, pad: seq<Event>, n: nat) {
    Increasing(history) && AllShared(history) && Covers(pad, history, n)
  }

  ghost predicate Holds(w: World, pad: seq<Event>) {
    && Records(w.history, pad, w.summarized)
    && VisibleTo(w.events, None) == pad + w.history[w.summarized..]
    && FlightsFit(w, pad)
  }

  ghost predicate TwoPads(visible: seq<Event>) {
    exists p, q :: p in visible && q in visible && p != q && p.IsScratchpad() && q.IsScratchpad()
  }

  /** The plan takes out one scratchpad at most, on behalf of the unscoped caller. */
  ghost predicate OnePad(plan: Plan) {
    && plan.scope.None?
    && forall p, q :: p in plan.replaced && q in plan.replaced && p.IsScratchpad() && q.IsScratchpad() ==> p == q
  }

  ghost predicate Invariant(w: World) {
    && (forall i :: 0 <= i < |w.flights| ==> OnePad(w.flights[i].plan))
    && (if w.late then TwoPads(VisibleTo(w.events, None)) else exists pad :: Holds(w, pad))
  }

  // ---------------------------------------------------------------------------
  // The view of a world without late compactions
  // ---------------------------------------------------------------------------

  lemma {:induction false} LatestOfHead(pad: seq<Event>, rest: seq<Event>)
    requires |pad| <= 1 && (pad != [] ==> pad[0].IsScratchpad())
    requires forall i :: 0 <= i < |rest| ==> !rest[i].IsScratchpad()
    ensures LatestScratchpad(pad + rest) == if pad == [] then None else Some(pad[0])
  {
    if rest == [] {
      assert pad + rest == pad;
    } else {
      var last := |rest| - 1;
      assert (pad + rest)[|pad + rest| - 1] == rest[last];
      assert (pad + rest)[..|pad + rest| - 1] == pad + rest[..last];
      LatestOfHead(pad, rest[..last]);
    }
  }

  lemma AllLater(history: seq<Event>, n: nat, end: int)
    requires Increasing(history) && AllShared(history) && 0 < n <= |history| && end <= history[n - 1].timestamp
    ensures Filter(history[n..], UnsummarizedAfter(end)) == history[n..]
  {
    forall i | n <= i < |history| ensures UnsummarizedAfter(end)(history[i]) {
      assert history[n - 1].timestamp < history[i].timestamp;
    }
    FilterAll(history[n..], UnsummarizedAfter(end));
  }

  lemma ViewIsWhole(history: seq<Event>, pad: seq<Event>, n: nat)
    requires Records(history, pad, n)
    ensures ViewOf(pad + history[n..]) == pad + history[n..]
    ensures PadOf(pad + history[n..]) == pad && RawOf(pad + history[n..]) == history[n..]
  {
    var rest := history[n..];
    LatestOfHead(pad, rest);
    if pad != [] {
      var later := UnsummarizedAfter(pad[0].kind.endTime);
      assert pad == [pad[0]];
      FilterAppend(pad, rest, later);
      FilterNone(pad, later);
      AllLater(history, n, pad[0].kind.endTime);
    }
  }

  lemma HeldIsPartitioned(w: World, pad: seq<Event>)
    requires Holds(w, pad)
    ensures Partitioned(w) && PadOf(AnchoredView(w.events, None)) == pad
  {
    ViewIsWhole(w.history, pad, w.summarized);
  }

  /** With two scratchpads in the session the view cannot be all there is to see. */
  lemma TwoPadsShowOne(visible: seq<Event>)
    requires TwoPads(visible)
    ensures ViewOf(visible) != visible
  {
    var p, q :| p in visible && q in visible && p != q && p.IsScratchpad() && q.IsScratchpad();
    var latest := LatestScratchpad(visible).value;
    FilterMembers(visible, UnsummarizedAfter(latest.kind.endTime));
    assert p !in ViewOf(visible) || q !in ViewOf(visible);
  }

  // ---------------------------------------------------------------------------
  // Appending and planning
  // ---------------------------------------------------------------------------

  lemma StretchOutlivesAppend(f: Flight, history: seq<Event>, e: Event)
    requires HandedStretch(f, history)
    ensures HandedStretch(f, history + [e])
  {
    assert (history + [e])[f.base..f.upTo] == history[f.base..f.upTo];
  }

  lemma RecordsGrow(history: seq<Event>, pad: seq<Event>, n: nat, e: Event)
    requires Records(history, pad, n) && Shared(e)
    requires history != [] ==> history[|history| - 1].timestamp < e.timestamp
    ensures Records(history + [e], pad, n)
    ensures pad + history[n..] + [e] == pad + (history + [e])[n..]
  {
    IncreasingGrows(history, e);
  }

  lemma SharedAppendKeeps(w: World, e: Event, pad: seq<Event>)
    requires Holds(w, pad) && Allowed(w, Append(e)) && e.scope.None?
    requires VisibleTo(w.events + [e], None) == VisibleTo(w.events, None) + [e]
    ensures Holds(Apply(w, Append(e)), pad)
  {
    RecordsGrow(w.history, pad, w.summarized, e);
    forall i | 0 <= i < |w.flights| ensures HandedStretch(w.flights[i], w.history + [e]) {
      StretchOutlivesAppend(w.flights[i], w.history, e);
    }
  }

  lemma AppendKeeps(w: World, e: Event)
    requires Invariant(w) && Allowed(w, Append(e))
    ensures Invariant(Apply(w, Append(e)))
  {
    FilterLast(w.events, e, VisibleIn(None));
    if w.late {
      TwoPadsStay(VisibleTo(w.events, None), VisibleTo(w.events + [e], None));
    } else {
      var pad :| Holds(w, pad);
      if e.scope.None? {
        SharedAppendKeeps(w, e, pad);
      }
      assert Holds(Apply(w, Append(e)), pad);
    }
  }

  lemma TwoPadsStay(before: seq<Event>, after: seq<Event>)
    requires TwoPads(before) && forall e :: e in before ==> e in after
    ensures TwoPads(after)
  {
  }

  lemma RawIsRegular(visible: seq<Event>)
    ensures forall e :: e in RawOf(ViewOf(visible)) ==> !e.IsScratchpad()
  {
    var latest := LatestScratchpad(visible);
    if latest.Some? {
      var later := UnsummarizedAfter(latest.value.kind.endTime);
      FilterMembers(visible, later);
      assert ViewOf(visible)[1..] == Filter(visible, later);
    }
  }

  lemma PlansTakeOnePad(events: seq<Event>, retention: int)
    ensures var p := Prepare(events, None, retention); p.Ready? ==> OnePad(p.plan)
  {
    if Prepare(events, None, retention).Ready? {
      var k := PreparedPlans(events, None, retention);
      RawIsRegular(VisibleTo(events, None));
      OneReusable(AnchoredView(events, None), k);
    }
  }

  lemma OneReusable(active: seq<Event>, k: nat)
    requires k <= |RawOf(active)| && forall e :: e in RawOf(active) ==> !e.IsScratchpad()
    ensures OnePad(PlanFor(active, None, k))
  {
    var pad := Reusable(PadOf(active), None);
    assert forall e :: e in RawOf(active)[..k] ==> e in RawOf(active);
    assert forall e :: e in PlanFor(active, None, k).replaced ==> e in pad || e in RawOf(active)[..k];
  }

  lemma PlanHands(history: seq<Event>, pad: seq<Event>, n: nat, k: nat)
    requires Records(history, pad, n) && n + k <= |history|
    requires PadOf(pad + history[n..]) == pad && RawOf(pad + history[n..]) == history[n..]
    ensures PlanFor(pad + history[n..], None, k).handed == pad + history[n..n + k]
    ensures var plan := PlanFor(pad + history[n..], None, k);
            plan.replaced == set e | e in plan.handed
  {
    assert history[n..][..k] == history[n..n + k];
  }

  lemma RegularHanded(history: seq<Event>, pad: seq<Event>, n: nat, m: nat)
    requires Records(history, pad, n) && n <= m <= |history|
    ensures |Filter(pad + history[n..m], IsRegular())| == m - n
  {
    FilterAppend(pad, history[n..m], IsRegular());
    FilterNone(pad, IsRegular());
    FilterAll(history[n..m], IsRegular());
  }

  /** The plan takes the next stretch of the history, on top of the current scratchpad. */
  ghost predicate TakesNextStretch(w: World, pad: seq<Event>, p: Preparation) {
    p.Ready? ==> HandedStretch(NewFlight(w, p.plan, pad), w.history)
  }

  lemma MakesStretch(f: Flight, history: seq<Event>)
    requires Covers(f.pad, history, f.base) && f.base < f.upTo <= |history| && f.plan.scope.None?
    requires f.plan.handed == f.pad + history[f.base..f.upTo] && f.plan.replaced == set e | e in f.plan.handed
    ensures HandedStretch(f, history)
  {
  }

  lemma PlanIsStretch(w: World, pad: seq<Event>, plan: Plan, k: nat)
    requires Covers(pad, w.history, w.summarized) && 0 < k && w.summarized + k <= |w.history| && plan.scope.None?
    requires plan.handed == pad + w.history[w.summarized..w.summarized + k]
    requires plan.replaced == set e | e in plan.handed
    requires |Filter(plan.handed, IsRegular())| == k
    ensures TakesNextStretch(w, pad, Ready(plan))
  {
    MakesStretch(NewFlight(w, plan, pad), w.history);
  }

  lemma PlannedBy(w: World, pad: seq<Event>, k: nat)
    requires Records(w.history, pad, w.summarized) && 0 < k && w.summarized + k <= |w.history|
    requires PadOf(pad + w.history[w.summarized..]) == pad
    requires RawOf(pad + w.history[w.summarized..]) == w.history[w.summarized..]
    ensures TakesNextStretch(w, pad, Ready(PlanFor(pad + w.history[w.summarized..], None, k)))
  {
    PlanHands(w.history, pad, w.summarized, k);
    RegularHanded(w.history, pad, w.summarized, w.summarized + k);
    PlanIsStretch(w, pad, PlanFor(pad + w.history[w.summarized..], None, k), k);
  }

  lemma PlannedStretch(w: World, retention: int, pad: seq<Event>)
    requires Holds(w, pad)
    ensures TakesNextStretch(w, pad, Prepare(w.events, None, retention))
  {
    ViewIsWhole(w.history, pad, w.summarized);
    if Prepare(w.events, None, retention).Ready? {
      var k := PreparedPlans(w.events, None, retention);
      PlannedBy(w, pad, k);
    }
  }

  lemma TakeOffHolds(w: World, pad: seq<Event>, p: Preparation)
    requires Holds(w, pad) && TakesNextStretch(w, pad, p)
    requires PadOf(AnchoredView(w.events, None)) == pad
    ensures Holds(TakeOff(w, p), pad)
  {
  }

  lemma TakeOffKeeps(w: World, p: Preparation)
    requires Invariant(w) && (p.Ready? ==> OnePad(p.plan))
    requires !w.late ==> exists pad :: Holds(TakeOff(w, p), pad)
    ensures Invariant(TakeOff(w, p))
  {
  }

  lemma BeginKeeps(w: World, retention: int)
    requires Invariant(w)
    ensures Invariant(Apply(w, Begin(retention)))
  {
    var p := Prepare(w.events, None, retention);
    PlansTakeOnePad(w.events, retention);
    if !w.late {
      var pad :| Holds(w, pad);
      HeldIsPartitioned(w, pad);
      PlannedStretch(w, retention, pad);
      TakeOffHolds(w, pad, p);
    }
    TakeOffKeeps(w, p);
  }

  // ---------------------------------------------------------------------------
  // Finishing
  // ---------------------------------------------------------------------------

  /** Nothing an unscoped reader sees before a replaced event. */
  lemma NothingVisibleBeforeTheReplaced(events: seq<Event>, replaced: set<Event>, first: nat)
    requires first <= |events| && forall j :: 0 <= j < first ==> events[j] !in replaced
    requires VisibleTo(events, None) != [] && VisibleTo(events, None)[0] in replaced
    ensures VisibleTo(events[..first], None) == []
    ensures VisibleTo(events[first..], None) == VisibleTo(events, None)
  {
    var head, tail := events[..first], events[first..];
    assert events == head + tail;
    FilterAppend(head, tail, VisibleIn(None));
    FilterHead(head, VisibleIn(None));
  }

  lemma StretchGone(f: Flight, history: seq<Event>, n: nat, m: nat)
    requires TakesStretch(f, history) && f.base <= n <= m <= |history| && (n < m ==> m <= f.upTo)
    ensures Filter(history[n..m], NotIn(f.plan.replaced)) == []
  {
    forall i | n <= i < m ensures history[i] in f.plan.replaced {
      assert history[i] == history[f.base..f.upTo][i - f.base];
    }
    FilterNone(history[n..m], NotIn(f.plan.replaced));
  }

  lemma RestKept(f: Flight, history: seq<Event>, m: nat)
    requires TakesStretch(f, history) && Increasing(history) && AllShared(history) && f.upTo <= m <= |history|
    ensures Filter(history[m..], NotIn(f.plan.replaced)) == history[m..]
  {
    forall i | m <= i < |history| ensures history[i] !in f.plan.replaced {
      NotInStretch(f, history, i);
    }
    FilterAll(history[m..], NotIn(f.plan.replaced));
  }

  /** What is left of the history when a stretch that reaches `upTo` is taken out. */
  lemma StretchIsRemoved(f: Flight, history: seq<Event>, n: nat)
    requires TakesStretch(f, history) && Increasing(history) && AllShared(history) && f.base <= n <= |history|
    ensures Filter(history[n..], NotIn(f.plan.replaced)) == history[Larger(n, f.upTo)..]
  {
    var m := Larger(n, f.upTo);
    assert history[n..] == history[n..m] + history[m..];
    FilterAppend(history[n..m], history[m..], NotIn(f.plan.replaced));
    StretchGone(f, history, n, m);
    RestKept(f, history, m);
  }

  lemma NotInStretch(f: Flight, history: seq<Event>, i: nat)
    requires TakesStretch(f, history) && Increasing(history) && AllShared(history) && f.upTo <= i < |history|
    ensures history[i] !in f.plan.replaced
  {
    forall j | f.base <= j < f.upTo ensures history[j] != history[i] {
      assert history[j].timestamp < history[i].timestamp;
    }
  }

  lemma LastOfStretch(f: Flight, history: seq<Event>)
    requires TakesStretch(f, history)
    ensures f.plan.handed != [] && f.plan.handed[|f.plan.handed| - 1] == history[f.upTo - 1]
    ensures f.plan.handed[0] in f.plan.replaced
    ensures f.plan.handed[0] == (f.pad + history[f.base..])[0]
  {
  }

  /** In time: the new scratchpad takes the place of the old one. */
  lemma VisibleAfterTimely(events: seq<Event>, f: Flight, history: seq<Event>, summary: Summary)
    requires HandedStretch(f, history) && Increasing(history) && AllShared(history)
    requires VisibleTo(events, None) == f.pad + history[f.base..] && summary.scope.None?
    ensures VisibleTo(Rewrite(events, f.plan, summary), None) == [Stamp(summary, None)] + history[f.upTo..]
  {
    var first, stamp := FirstReplaced(events, f.plan.replaced), Stamp(summary, None);
    LastOfStretch(f, history);
    NothingVisibleBeforeTheReplaced(events, f.plan.replaced, first);
    VisibleAfterRewrite(events, f.plan, summary, None);
    FilterAppend(f.pad, history[f.base..], NotIn(f.plan.replaced));
    FilterNone(f.pad, NotIn(f.plan.replaced));
    StretchIsRemoved(f, history, f.base);
    assert VisibleTo([stamp], None) == [stamp];
    assert [] + history[f.upTo..] == history[f.upTo..] && [] + [stamp] == [stamp];
  }

  /** All other compactions in flight are late from now on. */
  lemma OthersBecomeLate(w: World, n: nat, pad: seq<Event>, stamp: Event)
    requires FlightsFit(w, pad) && n < |w.flights| && IsNew(w, stamp) && w.summarized < w.flights[n].upTo
    ensures var others := w.flights[..n] + w.flights[n + 1..];
            forall i :: 0 <= i < |others| ==>
              HandedStretch(others[i], w.history)
              && InTimeOrLate(others[i], [stamp], Larger(w.summarized, w.flights[n].upTo), w.finished + 1)
  {
    var others := w.flights[..n] + w.flights[n + 1..];
    assert forall i :: 0 <= i < |others| ==> others[i] == w.flights[if i < n then i else i + 1];
  }

  lemma TimelyFinishKeeps(w: World, n: nat, summary: Summary, pad: seq<Event>)
    requires Holds(w, pad) && Allowed(w, Finish(n, summary)) && w.flights[n].madeAt == w.finished
    ensures Holds(Land(w, n, summary), [Stamp(summary, None)])
  {
    LastOfStretch(w.flights[n], w.history);
    OthersBecomeLate(w, n, pad, Stamp(summary, None));
    VisibleAfterTimely(w.events, w.flights[n], w.history, summary);
  }

  lemma SurvivesRewrite(events: seq<Event>, plan: Plan, summary: Summary, e: Event)
    requires plan.scope.None? && summary.scope.None?
    requires e in VisibleTo(events, None) && e !in plan.replaced
    ensures e in VisibleTo(Rewrite(events, plan, summary), None)
    ensures Stamp(summary, None) in VisibleTo(Rewrite(events, plan, summary), None)
  {
    var after := Rewrite(events, plan, summary);
    RewriteAnatomy(events, plan, summary);
    FilterMembers(events, VisibleIn(None));
    FilterMembers(events, NotIn(plan.replaced));
    FilterMembers(after, VisibleIn(None));
    var first := FirstReplaced(events, plan.replaced);
    assert e in after[..first] + after[first + 1..];
  }

  /** A late summary comes to stand beside the scratchpad it does not know. */
  lemma LateFinishLeavesTwo(w: World, n: nat, summary: Summary, pad: seq<Event>)
    requires Holds(w, pad) && Allowed(w, Finish(n, summary)) && w.flights[n].madeAt < w.finished
    ensures TwoPads(VisibleTo(Land(w, n, summary).events, None))
  {
    var visible := VisibleTo(w.events, None);
    assert visible[0] == pad[0];
    FilterMembers(w.events, VisibleIn(None));
    SurvivesRewrite(w.events, w.flights[n].plan, summary, pad[0]);
  }

  /** Two scratchpads never become one again: each compaction brings one and takes out
      one at most. */
  lemma FinishKeepsTwo(events: seq<Event>, plan: Plan, summary: Summary)
    requires TwoPads(VisibleTo(events, None)) && OnePad(plan) && summary.scope.None?
    requires Stamp(summary, None) !in events
    ensures TwoPads(VisibleTo(Rewrite(events, plan, summary), None))
  {
    var visible := VisibleTo(events, None);
    var p, q :| p in visible && q in visible && p != q && p.IsScratchpad() && q.IsScratchpad();
    var kept := if p in plan.replaced then q else p;
    FilterMembers(events, VisibleIn(None));
    SurvivesRewrite(events, plan, summary, kept);
  }

  lemma FinishKeeps(w: World, n: nat, summary: Summary)
    requires Invariant(w) && Allowed(w, Finish(n, summary))
    ensures Invariant(Apply(w, Finish(n, summary)))
  {
    var t := Land(w, n, summary);
    forall i | 0 <= i < |t.flights| ensures OnePad(t.flights[i].plan) {
      assert t.flights[i] == w.flights[if i < n then i else i + 1];
    }
    if w.late {
      FinishKeepsTwo(w.events, w.flights[n].plan, summary);
    } else {
      var pad :| Holds(w, pad);
      if w.flights[n].madeAt == w.finished {
        TimelyFinishKeeps(w, n, summary, pad);
      } else {
        LateFinishLeavesTwo(w, n, summary, pad);
      }
    }
  }
}
