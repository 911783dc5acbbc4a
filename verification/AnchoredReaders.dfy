/** What an anchored compaction does to other readers: scoped ones under an unscoped
    compaction, or any reader who sees the new scratchpad. */
module AnchoredReaders {
  import opened Wrappers
  import opened Seqs
  import opened Events
  import opened CompactionUtils
  import opened AnchoredCompactor
  import opened AnchoredViews

  /** A scratchpad the reader sees stands behind the place of the new one and stays. */
  ghost predicate OwnPadBehind(events: seq<Event>, plan: Plan, reader: Option<string>) {
    LatestScratchpad(VisibleTo(events[FirstReplaced(events, plan.replaced)..], reader)).Some?
  }

  ghost predicate KeepsLatest(visible: seq<Event>, replaced: set<Event>) {
    LatestScratchpad(visible).Some? && LatestScratchpad(visible).value !in replaced
  }

  /** The active view of a reader who sees the new scratchpad stays as it was exactly
      when the scratchpad it starts with stands behind the new one and no event of the
      view is replaced. */
  lemma ViewSurvivesIff(events: seq<Event>, plan: Plan, summary: Summary, reader: Option<string>)
    requires IsVisible(Stamp(summary, plan.scope), reader) && Stamp(summary, plan.scope) !in events
    ensures AnchoredView(Rewrite(events, plan, summary), reader) == AnchoredView(events, reader)
       <==> OwnPadBehind(events, plan, reader) && forall e :: e in AnchoredView(events, reader) ==> e !in plan.replaced
  {
    if OwnPadBehind(events, plan, reader) && forall e :: e in AnchoredView(events, reader) ==> e !in plan.replaced {
      ViewSurvives(events, plan, summary, reader);
    } else if AnchoredView(Rewrite(events, plan, summary), reader) == AnchoredView(events, reader) {
      SurvivingView(events, plan, summary, reader);
    }
  }

  lemma {:induction false} LatestKept(events: seq<Event>, replaced: set<Event>)
    requires KeepsLatest(events, replaced)
    ensures LatestScratchpad(Filter(events, NotIn(replaced))) == LatestScratchpad(events)
  {
    var n := |events| - 1;
    assert events == events[..n] + [events[n]];
    FilterLast(events[..n], events[n], NotIn(replaced));
    if !events[n].IsScratchpad() {
      LatestKept(events[..n], replaced);
      LatestAppend(Filter(events[..n], NotIn(replaced)), [events[n]]);
      assert LatestScratchpad([events[n]]) == None;
    }
  }

  lemma LatestBehind(events: seq<Event>, plan: Plan, reader: Option<string>)
    requires OwnPadBehind(events, plan, reader)
    ensures LatestScratchpad(VisibleTo(events, reader))
         == LatestScratchpad(VisibleTo(events[FirstReplaced(events, plan.replaced)..], reader))
  {
    var first := FirstReplaced(events, plan.replaced);
    assert events == events[..first] + events[first..];
    FilterAppend(events[..first], events[first..], VisibleIn(reader));
    LatestAppend(VisibleTo(events[..first], reader), VisibleTo(events[first..], reader));
  }

  /** The scratchpad behind the new one stays the latest. */
  lemma LatestStays(events: seq<Event>, plan: Plan, summary: Summary, reader: Option<string>)
    requires IsVisible(Stamp(summary, plan.scope), reader) && Stamp(summary, plan.scope) !in events
    requires OwnPadBehind(events, plan, reader)
    requires KeepsLatest(VisibleTo(events, reader), plan.replaced)
    ensures LatestScratchpad(VisibleTo(Rewrite(events, plan, summary), reader))
         == LatestScratchpad(VisibleTo(events, reader))
  {
    var head, tail := SeenAfter(events, plan, summary, reader);
    LatestBehind(events, plan, reader);
    LatestKept(VisibleTo(events[FirstReplaced(events, plan.replaced)..], reader), plan.replaced);
    StampIsElsewhere(events, plan, summary, reader);
    LatestIsStampIff(head, Stamp(summary, plan.scope), tail);
  }

  lemma StampIsElsewhere(events: seq<Event>, plan: Plan, summary: Summary, reader: Option<string>)
    requires Stamp(summary, plan.scope) !in events
    ensures var tail := Filter(VisibleTo(events[FirstReplaced(events, plan.replaced)..], reader), NotIn(plan.replaced));
            Stamp(summary, plan.scope) !in tail
    ensures Stamp(summary, plan.scope) !in VisibleTo(events, reader)
  {
    var behind := events[FirstReplaced(events, plan.replaced)..];
    FilterMembers(events, VisibleIn(reader));
    FilterMembers(behind, VisibleIn(reader));
    FilterMembers(VisibleTo(behind, reader), NotIn(plan.replaced));
  }

  /** What the later events are after the rewrite, for any time at all. */
  lemma LaterAfter(events: seq<Event>, plan: Plan, summary: Summary, reader: Option<string>, end: int)
    requires IsVisible(Stamp(summary, plan.scope), reader)
    ensures Filter(VisibleTo(Rewrite(events, plan, summary), reader), UnsummarizedAfter(end))
         == Filter(Filter(VisibleTo(events, reader), UnsummarizedAfter(end)), NotIn(plan.replaced))
  {
    var head, tail := SeenAfter(events, plan, summary, reader);
    FilterSkip(head, Stamp(summary, plan.scope), tail, UnsummarizedAfter(end));
    FilterCommute(VisibleTo(events, reader), NotIn(plan.replaced), UnsummarizedAfter(end));
  }

  lemma ViewSurvives(events: seq<Event>, plan: Plan, summary: Summary, reader: Option<string>)
    requires IsVisible(Stamp(summary, plan.scope), reader) && Stamp(summary, plan.scope) !in events
    requires OwnPadBehind(events, plan, reader) && forall e :: e in AnchoredView(events, reader) ==> e !in plan.replaced
    ensures AnchoredView(Rewrite(events, plan, summary), reader) == AnchoredView(events, reader)
  {
    LatestBehind(events, plan, reader);
    var latest := LatestScratchpad(VisibleTo(events, reader)).value;
    assert latest == AnchoredView(events, reader)[0];
    LatestStays(events, plan, summary, reader);
    LaterAfter(events, plan, summary, reader, latest.kind.endTime);
    var active := Filter(VisibleTo(events, reader), UnsummarizedAfter(latest.kind.endTime));
    assert forall e :: e in active ==> e in [latest] + active;
    FilterAll(active, NotIn(plan.replaced));
  }

  lemma SurvivingView(events: seq<Event>, plan: Plan, summary: Summary, reader: Option<string>)
    requires IsVisible(Stamp(summary, plan.scope), reader) && Stamp(summary, plan.scope) !in events
    requires AnchoredView(Rewrite(events, plan, summary), reader) == AnchoredView(events, reader)
    ensures OwnPadBehind(events, plan, reader) && forall e :: e in AnchoredView(events, reader) ==> e !in plan.replaced
  {
    var stamp := Stamp(summary, plan.scope);
    var head, tail := SeenAfter(events, plan, summary, reader);
    var after := head + [stamp] + tail;
    StampIsElsewhere(events, plan, summary, reader);
    LatestIsStampIff(head, stamp, tail);
    ViewMembers(after);
    ViewMembers(VisibleTo(events, reader));
    FilterMembers(VisibleTo(events, reader), NotIn(plan.replaced));
    assert forall e :: e in after ==> e == stamp || e in head + tail;
    assert ViewOf(after)[0] == LatestScratchpad(after).value;
    StayingPad(events, plan, reader);
  }

  lemma StayingPad(events: seq<Event>, plan: Plan, reader: Option<string>)
    ensures var seen := VisibleTo(events[FirstReplaced(events, plan.replaced)..], reader);
            LatestScratchpad(Filter(seen, NotIn(plan.replaced))).Some? ==> OwnPadBehind(events, plan, reader)
  {
    var seen := VisibleTo(events[FirstReplaced(events, plan.replaced)..], reader);
    FilterMembers(seen, NotIn(plan.replaced));
    LatestNone(seen);
    LatestNone(Filter(seen, NotIn(plan.replaced)));
    if LatestScratchpad(Filter(seen, NotIn(plan.replaced))).Some? {
      assert LatestScratchpad(Filter(seen, NotIn(plan.replaced))).value in seen;
    }
  }

  // ---------------------------------------------------------------------------
  // What the reader is shown, and what it loses
  // ---------------------------------------------------------------------------

  /** The latest scratchpad that stays behind the place of the new one, if any. */
  function PadBehind(events: seq<Event>, plan: Plan, reader: Option<string>): Option<Event> {
    LatestScratchpad(Filter(VisibleTo(events[FirstReplaced(events, plan.replaced)..], reader), NotIn(plan.replaced)))
  }

  /** The scratchpad the reader is shown after the compaction. */
  function Shown(events: seq<Event>, plan: Plan, summary: Summary, reader: Option<string>): (shown: Event)
    ensures shown.IsScratchpad()
  {
    match PadBehind(events, plan, reader) case Some(pad) => pad case None => Stamp(summary, plan.scope)
  }

  /** The view after the compaction: that scratchpad, and the events later than its end
      that were not replaced. */
  lemma ViewAfter(events: seq<Event>, plan: Plan, summary: Summary, reader: Option<string>)
    requires IsVisible(Stamp(summary, plan.scope), reader) && Stamp(summary, plan.scope) !in events
    ensures var shown := Shown(events, plan, summary, reader);
            AnchoredView(Rewrite(events, plan, summary), reader)
            == [shown] + Filter(Filter(VisibleTo(events, reader), UnsummarizedAfter(shown.kind.endTime)),
                                NotIn(plan.replaced))
  {
    var stamp := Stamp(summary, plan.scope);
    var head, tail := SeenAfter(events, plan, summary, reader);
    StampIsElsewhere(events, plan, summary, reader);
    LatestIsStampIff(head, stamp, tail);
    LaterAfter(events, plan, summary, reader, Shown(events, plan, summary, reader).kind.endTime);
  }

  /** An event is lost to a reader when it leaves the reader's view and is not in the
      summary the reader is shown instead. */
  ghost predicate Lost(events: seq<Event>, plan: Plan, summary: Summary, reader: Option<string>, e: Event) {
    var after := AnchoredView(Rewrite(events, plan, summary), reader);
    e !in after && !(after != [] && after[0] == Stamp(summary, plan.scope) && e in plan.handed)
  }

  /** When a compaction takes an active event away from a reader who sees its scratchpad,
      even if the list changed since it was planned. If another scratchpad is shown, the
      event is lost exactly when it was replaced or is not later than the end of that
      scratchpad; if the new one is shown, exactly when its summary was not made from the
      event but ends no earlier. */
  lemma ActiveEventLostIff(earlier: seq<Event>, events: seq<Event>, scope: Option<string>, retention: int,
                           plan: Plan, summary: Summary, reader: Option<string>, e: Event)
    requires Prepare(earlier, scope, retention) == Ready(plan)
    requires IsVisible(Stamp(summary, scope), reader) && Stamp(summary, scope) !in events
    requires e in AnchoredView(events, reader) && !e.IsScratchpad()
    ensures Lost(events, plan, summary, reader, e) <==>
              match PadBehind(events, plan, reader)
              case Some(pad) => e in plan.replaced || e.timestamp <= pad.kind.endTime
              case None => e !in plan.handed && e.timestamp <= summary.endTime
  {
    var shown := Shown(events, plan, summary, reader);
    var later := Filter(VisibleTo(events, reader), UnsummarizedAfter(shown.kind.endTime));
    PreparedPlansTakeTheirOwn(earlier, scope, retention);
    ViewAfter(events, plan, summary, reader);
    ViewMembers(VisibleTo(events, reader));
    FilterMembers(VisibleTo(events, reader), UnsummarizedAfter(shown.kind.endTime));
    FilterMembers(later, NotIn(plan.replaced));
    PadBehindIsOld(events, plan, summary, reader);
  }

  lemma PadBehindIsOld(events: seq<Event>, plan: Plan, summary: Summary, reader: Option<string>)
    requires Stamp(summary, plan.scope) !in events
    ensures PadBehind(events, plan, reader) != Some(Stamp(summary, plan.scope))
  {
    StampIsElsewhere(events, plan, summary, reader);
  }

  /** The reader goes on being shown the scratchpad it was shown before exactly when that
      one stands behind the new one and is not replaced; otherwise all it summarized is
      hidden. */
  lemma OwnSummaryStaysIff(events: seq<Event>, plan: Plan, summary: Summary, reader: Option<string>, pad: Event)
    requires IsVisible(Stamp(summary, plan.scope), reader) && Stamp(summary, plan.scope) !in events
    requires LatestScratchpad(VisibleTo(events, reader)) == Some(pad)
    ensures pad in AnchoredView(Rewrite(events, plan, summary), reader)
       <==> OwnPadBehind(events, plan, reader) && pad !in plan.replaced
  {
    var shown := Shown(events, plan, summary, reader);
    var seen := VisibleTo(events[FirstReplaced(events, plan.replaced)..], reader);
    var later := Filter(VisibleTo(events, reader), UnsummarizedAfter(shown.kind.endTime));
    ViewAfter(events, plan, summary, reader);
    FilterMembers(VisibleTo(events, reader), UnsummarizedAfter(shown.kind.endTime));
    FilterMembers(later, NotIn(plan.replaced));
    FilterMembers(seen, NotIn(plan.replaced));
    StampIsElsewhere(events, plan, summary, reader);
    StayingPad(events, plan, reader);
    if OwnPadBehind(events, plan, reader) && pad !in plan.replaced {
      LatestBehind(events, plan, reader);
      LatestKept(seen, plan.replaced);
    }
  }

  // ---------------------------------------------------------------------------
  // It does happen
  // ---------------------------------------------------------------------------

  /** The unscoped reader summarizes `a` of `[first, a, b]` when it does not see `first`. */
  lemma PlanBehindPrivate(first: Event, a: Event, b: Event, s: string)
    requires first.scope == Some(s) && a.scope.None? && b.scope.None? && a.kind.Raw? && b.kind.Raw? && a != b
    requires !b.HasResponses()
    ensures Prepare([first, a, b], None, 1) == Ready(Plan(None, [a], {a}))
    ensures VisibleTo([first, a, b], Some(s)) == [first, a, b]
  {
    var events := [first, a, b];
    assert events[1..] == [a, b] && [a, b][1..] == [b] && [b][1..] == [];
    assert VisibleTo([b], None) == [b] && VisibleTo([a, b], None) == [a, b] && VisibleTo(events, None) == [a, b];
    assert VisibleTo([b], Some(s)) == [b] && VisibleTo([a, b], Some(s)) == [a, b];
    assert [a, b][..1] == [a] && [a][..0] == [];
    assert LatestScratchpad([a]).None? && LatestScratchpad([a, b]).None?;
    assert PadOf([a, b]) == [] && RawOf([a, b]) == [a, b];
    assert PlanFor([a, b], None, 1).handed == [a];
    assert PlanFor([a, b], None, 1).replaced == {a};
  }

  lemma RewriteBehindPrivate(first: Event, a: Event, b: Event, summary: Summary)
    requires first != a && a != b
    ensures Rewrite([first, a, b], Plan(None, [a], {a}), summary) == [first, Stamp(summary, None), b]
  {
    var events := [first, a, b];
    assert events[1..] == [a, b] && [a, b][1..] == [b] && [b][1..] == [] && events[..1] == [first];
    assert FirstReplaced([a, b], {a}) == 0 && FirstReplaced(events, {a}) == 1;
    assert Filter([b], NotIn({a})) == [b] && Filter([a, b], NotIn({a})) == [b];
  }

  /** What scope `s` sees of `[first, stamp, b]` when `first` is not later than the stamp. */
  lemma ViewBehindPrivate(first: Event, b: Event, s: string, stamp: Event)
    requires first.scope == Some(s) && b.scope.None? && b.kind.Raw? && stamp.IsScratchpad() && stamp.scope.None?
    requires first.timestamp <= stamp.kind.endTime < b.timestamp
    ensures AnchoredView([first, stamp, b], Some(s)) == [stamp, b]
  {
    var after, later := [first, stamp, b], UnsummarizedAfter(stamp.kind.endTime);
    assert after[1..] == [stamp, b] && [stamp, b][1..] == [b] && [b][1..] == [];
    assert VisibleTo([b], Some(s)) == [b] && VisibleTo([stamp, b], Some(s)) == [stamp, b];
    assert VisibleTo(after, Some(s)) == after;
    assert after[..2] == [first, stamp] && LatestScratchpad(after[..2]) == Some(stamp);
    assert LatestScratchpad(after) == Some(stamp);
    assert Filter([b], later) == [b] && Filter([stamp, b], later) == [b] && Filter(after, later) == [b];
  }

  /** A scoped reader without any scratchpad loses its own event `x`: it is not in the
      unscoped summary but not later than it. */
  lemma PrivateEventIsLost(x: Event, a: Event, b: Event, s: string, summary: Summary)
    requires x.kind.Raw? && a.kind.Raw? && b.kind.Raw? && x.scope == Some(s) && a.scope.None? && b.scope.None?
    requires x.timestamp < a.timestamp < b.timestamp && !b.HasResponses()
    requires summary.scope.None? && summary.endTime == a.timestamp
    ensures var plan := Plan(None, [a], {a});
            && Prepare([x, a, b], None, 1) == Ready(plan)
            && AnchoredView([x, a, b], Some(s)) == [x, a, b]
            && AnchoredView(Rewrite([x, a, b], plan, summary), Some(s)) == [Stamp(summary, None), b]
            && Lost([x, a, b], plan, summary, Some(s), x)
  {
    PlanBehindPrivate(x, a, b, s);
    RewriteBehindPrivate(x, a, b, summary);
    ViewBehindPrivate(x, b, s, Stamp(summary, None));
    LatestNone([x, a, b]);
  }

  /** A scoped reader's whole summary is hidden by an unscoped one behind it. */
  lemma PrivateSummaryIsHidden(pad: Event, a: Event, b: Event, s: string, summary: Summary)
    requires pad.IsScratchpad() && a.kind.Raw? && b.kind.Raw?
    requires pad.scope == Some(s) && a.scope.None? && b.scope.None? && !b.HasResponses()
    requires pad.kind.endTime < a.timestamp < b.timestamp && pad.timestamp <= a.timestamp
    requires summary.scope.None? && summary.endTime == a.timestamp
    ensures var plan := Plan(None, [a], {a});
            && Prepare([pad, a, b], None, 1) == Ready(plan)
            && AnchoredView([pad, a, b], Some(s)) == [pad, a, b]
            && AnchoredView(Rewrite([pad, a, b], plan, summary), Some(s)) == [Stamp(summary, None), b]
  {
    var events, later := [pad, a, b], UnsummarizedAfter(pad.kind.endTime);
    PlanBehindPrivate(pad, a, b, s);
    RewriteBehindPrivate(pad, a, b, summary);
    ViewBehindPrivate(pad, b, s, Stamp(summary, None));
    assert events[1..] == [a, b] && [a, b][1..] == [b] && [b][1..] == [];
    assert events[..2] == [pad, a] && [pad, a][..1] == [pad] && LatestScratchpad([pad]) == Some(pad);
    assert LatestScratchpad([pad, a]) == Some(pad) && LatestScratchpad(events) == Some(pad);
    assert Filter([b], later) == [b] && Filter([a, b], later) == [a, b] && Filter(events, later) == [a, b];
  }
}
