/** What one anchored compaction does to the active views of its own and of other
    readers, on any session list and whatever the order of the timestamps. */
module AnchoredViews {
  import opened Wrappers
  import opened Seqs
  import opened Events
  import opened CompactionUtils
  import opened AnchoredCompactor

  /** Two unscoped compactions of the same session that overlap leave two untagged
      scratchpads: one that was not there when a plan was made stays when it is applied. */
  lemma OverlappingCompactionsLeaveTwo(earlier: seq<Event>, now: seq<Event>, retention: int, plan: Plan,
                                       summary: Summary, pad: Event)
    requires Prepare(earlier, None, retention) == Ready(plan)
    requires pad in now && pad !in earlier && pad.IsScratchpad()
    ensures pad in Rewrite(now, plan, summary) && Stamp(summary, None) in Rewrite(now, plan, summary)
  {
    PreparedPlansTakeTheirOwn(earlier, None, retention);
    if pad !in Rewrite(now, plan, summary) {
      RemovedWasSummarized(earlier, now, None, retention, plan, summary, pad);
    }
    RewriteAnatomy(now, plan, summary);
  }

  // ---------------------------------------------------------------------------
  // The view of a list with a new scratchpad in it
  // ---------------------------------------------------------------------------

  ghost predicate NoPads(events: seq<Event>) {
    forall i :: 0 <= i < |events| ==> !events[i].IsScratchpad()
  }

  lemma {:induction false} LatestNone(events: seq<Event>)
    ensures LatestScratchpad(events).None? <==> NoPads(events)
  {
    if events != [] {
      LatestNone(events[..|events| - 1]);
    }
  }

  /** The new scratchpad is the latest one exactly when none stands behind it. */
  lemma LatestIsStampIff(head: seq<Event>, stamp: Event, tail: seq<Event>)
    requires stamp.IsScratchpad() && stamp !in tail
    ensures LatestScratchpad(head + [stamp] + tail)
         == if LatestScratchpad(tail).Some? then LatestScratchpad(tail) else Some(stamp)
    ensures LatestScratchpad(head + [stamp] + tail) == Some(stamp) <==> NoPads(tail)
  {
    LatestAppend(head + [stamp], tail);
    LatestAppend(head, [stamp]);
    assert LatestScratchpad([stamp]) == Some(stamp);
    LatestNone(tail);
  }

  /** The rewritten list as a reader sees it: all it saw before except the replaced
      events, with the stamp in between. */
  lemma SeenAfter(events: seq<Event>, plan: Plan, summary: Summary, reader: Option<string>)
    returns (head: seq<Event>, tail: seq<Event>)
    requires IsVisible(Stamp(summary, plan.scope), reader)
    ensures VisibleTo(Rewrite(events, plan, summary), reader) == head + [Stamp(summary, plan.scope)] + tail
    ensures head + tail == Filter(VisibleTo(events, reader), NotIn(plan.replaced))
    ensures tail == Filter(VisibleTo(events[FirstReplaced(events, plan.replaced)..], reader), NotIn(plan.replaced))
  {
    var first := FirstReplaced(events, plan.replaced);
    var before, behind := events[..first], events[first..];
    head, tail := VisibleTo(before, reader), Filter(VisibleTo(behind, reader), NotIn(plan.replaced));
    VisibleAfterRewrite(events, plan, summary, reader);
    assert VisibleTo([Stamp(summary, plan.scope)], reader) == [Stamp(summary, plan.scope)];
    assert events == before + behind;
    FilterAppend(before, behind, VisibleIn(reader));
    FilterAppend(head, VisibleTo(behind, reader), NotIn(plan.replaced));
    FilterMembers(before, VisibleIn(reader));
    FilterAll(head, NotIn(plan.replaced));
  }

  // ---------------------------------------------------------------------------
  // The caller's own view
  // ---------------------------------------------------------------------------

  /** The raw active events a compaction summarizes are the first so many. */
  function Cut(events: seq<Event>, scope: Option<string>, retention: int): nat
    requires Prepare(events, scope, retention).Ready?
  {
    RetainStart(RawOf(AnchoredView(events, scope)), retention).index
  }

  /** No scratchpad the caller sees stays behind the place of the new one. */
  ghost predicate NoPadBehind(events: seq<Event>, plan: Plan) {
    forall i :: FirstReplaced(events, plan.replaced) <= i < |events| ==>
      events[i].IsScratchpad() && IsVisible(events[i], plan.scope) ==> events[i] in plan.replaced
  }

  /** The retained raw events are later than the last summarized one, and none of them
      is the same object as a replaced one; the summarized events that stay in the list,
      as shared ones do under a scoped compaction, are not later than it. */
  ghost predicate SplitIsClean(raw: seq<Event>, k: nat, replaced: set<Event>)
    requires 0 < k <= |raw|
  {
    && RetainedAreLater(raw, k)
    && (forall i :: k <= i < |raw| ==> raw[i] !in replaced)
    && (forall i :: 0 <= i < k ==> raw[i] in replaced || raw[i].timestamp <= raw[k - 1].timestamp)
  }

  function LaterAndKept(end: int, replaced: set<Event>): Event -> bool {
    (e: Event) => e.timestamp > end && !e.IsScratchpad() && e !in replaced
  }

  /** Later than an active raw event means the same on all the reader sees and on its
      active raw part. */
  lemma LaterOfView(visible: seq<Event>, end: int)
    requires exists e :: e in RawOf(ViewOf(visible)) && e.timestamp == end
    ensures Filter(visible, UnsummarizedAfter(end)) == Filter(RawOf(ViewOf(visible)), UnsummarizedAfter(end))
  {
    var latest := LatestScratchpad(visible);
    if latest.Some? {
      var active := UnsummarizedAfter(latest.value.kind.endTime);
      assert ViewOf(visible)[1..] == Filter(visible, active);
      FilterMembers(visible, active);
      FilterNested(visible, active, UnsummarizedAfter(end));
    } else {
      assert PadOf(visible) == [];
      assert visible[0..] == visible;
    }
  }

  lemma KeptAndLater(visible: seq<Event>, replaced: set<Event>, end: int)
    requires exists e :: e in RawOf(ViewOf(visible)) && e.timestamp == end
    ensures Filter(Filter(visible, NotIn(replaced)), UnsummarizedAfter(end))
         == Filter(RawOf(ViewOf(visible)), LaterAndKept(end, replaced))
  {
    var raw := RawOf(ViewOf(visible));
    FilterCommute(visible, NotIn(replaced), UnsummarizedAfter(end));
    LaterOfView(visible, end);
    FilterBoth(raw, UnsummarizedAfter(end), NotIn(replaced), LaterAndKept(end, replaced));
  }

  lemma RetainedIff(raw: seq<Event>, k: nat, replaced: set<Event>)
    requires 0 < k <= |raw| && NoPads(raw)
    ensures Filter(raw, LaterAndKept(raw[k - 1].timestamp, replaced)) == raw[k..] <==> SplitIsClean(raw, k, replaced)
  {
    TailSurvivesIff(raw, k, LaterAndKept(raw[k - 1].timestamp, replaced));
  }

  lemma RawHasNoPads(visible: seq<Event>)
    ensures NoPads(RawOf(ViewOf(visible)))
  {
    var latest := LatestScratchpad(visible);
    if latest.Some? {
      var later := UnsummarizedAfter(latest.value.kind.endTime);
      var raw := RawOf(ViewOf(visible));
      assert raw == Filter(visible, later);
      FilterMembers(visible, later);
      assert forall i :: 0 <= i < |raw| ==> raw[i] in raw;
    } else {
      LatestNone(visible);
      assert PadOf(visible) == [];
    }
  }

  lemma NoPadBehindIff(events: seq<Event>, plan: Plan)
    ensures var seen := VisibleTo(events[FirstReplaced(events, plan.replaced)..], plan.scope);
            NoPads(Filter(seen, NotIn(plan.replaced))) <==> NoPadBehind(events, plan)
  {
    var first := FirstReplaced(events, plan.replaced);
    var behind := events[first..];
    var seen := VisibleTo(behind, plan.scope);
    var tail := Filter(seen, NotIn(plan.replaced));
    FilterMembers(behind, VisibleIn(plan.scope));
    FilterMembers(seen, NotIn(plan.replaced));
    if NoPads(tail) {
      forall i | first <= i < |events| && events[i].IsScratchpad() && IsVisible(events[i], plan.scope)
        ensures events[i] in plan.replaced
      {
        var e := events[i];
        assert e == behind[i - first];
        assert e in tail || e in plan.replaced;
      }
    }
    if NoPadBehind(events, plan) {
      forall i | 0 <= i < |tail| ensures !tail[i].IsScratchpad() {
        assert tail[i] in tail && tail[i] in behind;
        var j :| 0 <= j < |behind| && behind[j] == tail[i];
        assert events[first + j] == tail[i];
      }
    }
  }

  /** The events a compaction retains stay active for its caller, unscoped or scoped,
      behind the new scratchpad, exactly when no other scratchpad the caller sees stays
      behind its place and the split is clean in time. Otherwise retained events stay in
      the session but leave the view: because of a timestamp tie, because an event was
      appended late with an earlier timestamp, or because an untagged scratchpad hides
      the caller's own. */
  lemma RetainedStayActiveIff(events: seq<Event>, scope: Option<string>, retention: int, plan: Plan, summary: Summary)
    requires Prepare(events, scope, retention) == Ready(plan)
    requires IsVisible(Stamp(summary, scope), scope) && Stamp(summary, scope) !in events
    requires plan.handed != [] && summary.endTime == plan.handed[|plan.handed| - 1].timestamp
    ensures var raw, k := RawOf(AnchoredView(events, scope)), Cut(events, scope, retention);
            && 0 < k < |raw|
            && (forall i :: 0 <= i < k ==> (raw[i] in plan.replaced <==> IsOwned(raw[i], scope)))
            && (AnchoredView(Rewrite(events, plan, summary), scope) == [Stamp(summary, scope)] + raw[k..]
                <==> NoPadBehind(events, plan) && SplitIsClean(raw, k, plan.replaced))
  {
    var visible, stamp, k := VisibleTo(events, scope), Stamp(summary, scope), Cut(events, scope, retention);
    RetainStartIsOptimal(RawOf(ViewOf(visible)), retention);
    PlanCovers(events, scope, retention);
    var head, tail := SeenAfter(events, plan, summary, scope);
    NoPadBehindIff(events, plan);
    FilterMembers(events, VisibleIn(scope));
    RetainedViewIff(visible, head, stamp, tail, plan.replaced, k);
  }

  lemma RetainedViewIff(visible: seq<Event>, head: seq<Event>, stamp: Event, tail: seq<Event>,
                        replaced: set<Event>, k: nat)
    requires stamp.IsScratchpad() && stamp !in visible && head + tail == Filter(visible, NotIn(replaced))
    requires var raw := RawOf(ViewOf(visible));
             0 < k <= |raw| && stamp.kind.endTime == raw[k - 1].timestamp
    ensures var raw := RawOf(ViewOf(visible));
            ViewOf(head + [stamp] + tail) == [stamp] + raw[k..] <==> NoPads(tail) && SplitIsClean(raw, k, replaced)
  {
    var raw := RawOf(ViewOf(visible));
    FilterMembers(visible, NotIn(replaced));
    assert forall e :: e in tail ==> e in head + tail;
    LatestIsStampIff(head, stamp, tail);
    FilterSkip(head, stamp, tail, UnsummarizedAfter(stamp.kind.endTime));
    assert raw[k - 1] in raw;
    KeptAndLater(visible, replaced, stamp.kind.endTime);
    RawHasNoPads(visible);
    RetainedIff(raw, k, replaced);
    ViewIsIff(head + [stamp] + tail, stamp, raw[k..]);
  }

  lemma ViewIsIff(visible: seq<Event>, stamp: Event, rest: seq<Event>)
    requires stamp.IsScratchpad() && LatestScratchpad(visible).Some?
    ensures ViewOf(visible) == [stamp] + rest
       <==> LatestScratchpad(visible) == Some(stamp) && Filter(visible, UnsummarizedAfter(stamp.kind.endTime)) == rest
  {
    var latest := LatestScratchpad(visible).value;
    var later := Filter(visible, UnsummarizedAfter(latest.kind.endTime));
    assert ([latest] + later)[0] == latest && ([latest] + later)[1..] == later;
    assert ([stamp] + rest)[0] == stamp && ([stamp] + rest)[1..] == rest;
  }

  lemma PlanCovers(events: seq<Event>, scope: Option<string>, retention: int)
    requires Prepare(events, scope, retention).Ready?
    ensures var raw, k := RawOf(AnchoredView(events, scope)), Cut(events, scope, retention);
            var plan := Prepare(events, scope, retention).plan;
            && 0 < k <= |raw| && plan.scope == scope
            && (forall i :: 0 <= i < k ==> (raw[i] in plan.replaced <==> IsOwned(raw[i], scope)))
            && plan.handed[|plan.handed| - 1] == raw[k - 1]
  {
    var active, k := AnchoredView(events, scope), Cut(events, scope, retention);
    var raw := RawOf(active);
    RetainStartIsOptimal(raw, retention);
    var plan := PlanFor(active, scope, k);
    assert plan.handed == Reusable(PadOf(active), scope) + raw[..k];
    forall i | 0 <= i < k ensures raw[i] in plan.handed {
      assert raw[i] == raw[..k][i];
    }
  }

  /** It does happen: two events with one timestamp and a retention size of one. The
      retained event stays in the session and leaves the view. */
  lemma TieLosesRetained(a: Event, b: Event, summary: Summary)
    requires a.kind.Raw? && b.kind.Raw? && a.scope.None? && b.scope.None? && a.timestamp == b.timestamp && a != b
    requires !b.HasResponses() && summary.scope.None? && summary.endTime == a.timestamp
    ensures Prepare([a, b], None, 1) == Ready(Plan(None, [a], {a}))
    ensures Rewrite([a, b], Plan(None, [a], {a}), summary) == [Stamp(summary, None), b]
    ensures AnchoredView([Stamp(summary, None), b], None) == [Stamp(summary, None)]
  {
    var events, stamp := [a, b], Stamp(summary, None);
    assert events[1..] == [b] && [b][1..] == [] && events[..1] == [a] && [a][..0] == [];
    assert VisibleTo([b], None) == [b] && VisibleTo(events, None) == events;
    assert LatestScratchpad([a]).None? && LatestScratchpad(events).None?;
    assert PadOf(events) == [] && RawOf(events) == events;
    assert PlanFor(events, None, 1).handed == [a];
    assert PlanFor(events, None, 1).replaced == {a};
    assert FirstReplaced(events, {a}) == 0 && events[0..] == events;
    assert Filter([b], NotIn({a})) == [b] && Filter(events, NotIn({a})) == [b];
    var after := [stamp, b];
    assert after[1..] == [b] && after[..1] == [stamp];
    assert VisibleTo(after, None) == after && LatestScratchpad(after) == Some(stamp);
    assert Filter([b], UnsummarizedAfter(a.timestamp)) == [];
    assert Filter(after, UnsummarizedAfter(a.timestamp)) == [];
  }

  // ---------------------------------------------------------------------------
  // The view the prompt is built from
  // ---------------------------------------------------------------------------

  /** The reader sees no compacted event but scratchpads. */
  ghost predicate OnlyPads(visible: seq<Event>) {
    forall i :: 0 <= i < |visible| ==> visible[i].kind.Compacted? ==> visible[i].IsScratchpad()
  }

  lemma {:induction false} LatestAgree(visible: seq<Event>)
    requires OnlyPads(visible)
    ensures LatestCompacted(visible) == LatestScratchpad(visible)
  {
    if visible != [] {
      LatestAgree(visible[..|visible| - 1]);
    }
  }

  /** The prompt is built from the view of the append-only compactor; a reader who sees
      no compacted event but scratchpads gets the view of the anchored one. */
  lemma PromptSeesTheView(events: seq<Event>, reader: Option<string>)
    requires OnlyPads(VisibleTo(events, reader))
    ensures ActiveEvents(events, reader) == AnchoredView(events, reader)
  {
    var visible := VisibleTo(events, reader);
    LatestAgree(visible);
    var latest := LatestScratchpad(visible);
    if latest.Some? {
      FilterAgree(visible, RawLaterThan(latest.value.kind.endTime), UnsummarizedAfter(latest.value.kind.endTime));
    }
  }
}
