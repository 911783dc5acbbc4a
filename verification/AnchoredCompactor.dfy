/** The compactor that keeps one scratchpad event per isolation scope
    (core/src/context/anchored_context_compactor.ts). */
module AnchoredCompactor {
  import opened Wrappers
  import opened Seqs
  import opened Events
  import opened CompactionUtils

  function LatestScratchpad(events: seq<Event>): (r: Option<Event>)
    ensures r.Some? ==> r.value in events && r.value.IsScratchpad()
    ensures r.None? ==> forall e :: e in events ==> !e.IsScratchpad()
  {
    if events == [] then None
    else if events[|events| - 1].IsScratchpad() then Some(events[|events| - 1])
    else LatestScratchpad(events[..|events| - 1])
  }

  function UnsummarizedAfter(endTime: int): Event -> bool {
    (e: Event) => e.timestamp > endTime && !e.IsScratchpad()
  }

  /** The active view over the events a reader sees. */
  function ViewOf(visible: seq<Event>): seq<Event> {
    match LatestScratchpad(visible)
    case None => visible
    case Some(pad) => [pad] + Filter(visible, UnsummarizedAfter(pad.kind.endTime))
  }

  function AnchoredView(events: seq<Event>, scope: Option<string>): seq<Event> {
    ViewOf(VisibleTo(events, scope))
  }

  lemma {:induction false} LatestAppend(a: seq<Event>, b: seq<Event>)
    ensures LatestScratchpad(a + b) == if LatestScratchpad(b).Some? then LatestScratchpad(b) else LatestScratchpad(a)
  {
    if b == [] {
      assert a + b == a;
    } else {
      var n := |b| - 1;
      assert (a + b)[|a + b| - 1] == b[n] && (a + b)[..|a + b| - 1] == a + b[..n];
      LatestAppend(a, b[..n]);
    }
  }

  lemma LatestIsLastOr(events: seq<Event>, i: nat)
    requires i < |events|
    ensures LatestScratchpad(events[..i + 1])
         == if events[i].IsScratchpad() then Some(events[i]) else LatestScratchpad(events[..i])
  {
    assert events[..i + 1][..i] == events[..i];
  }

  method GetActiveEvents(events: seq<Event>, scope: Option<string>) returns (r: seq<Event>)
    ensures r == AnchoredView(events, scope)
  {
    var visible := VisibleTo(events, scope);
    var latest: Option<Event> := None;
    var i := |visible|;
    assert visible[..i] == visible;
    while i > 0
      invariant 0 <= i <= |visible|
      invariant latest.None?
      invariant LatestScratchpad(visible) == LatestScratchpad(visible[..i])
    {
      i := i - 1;
      LatestIsLastOr(visible, i);
      if visible[i].IsScratchpad() {
        latest := Some(visible[i]);
        break;
      }
    }
    if latest.None? {
      return visible;
    }
    r := [latest.value] + Filter(visible, UnsummarizedAfter(latest.value.kind.endTime));
  }

  /** What `compact` holds on to while the summarizer runs: the caller's scope, the
      list handed to the summarizer, and the event objects it will take out. */
  datatype Plan = Plan(scope: Option<string>, handed: seq<Event>, replaced: set<Event>)

  datatype Preparation = NotNeeded | Throws | Ready(plan: Plan)

  predicate IsOwned(e: Event, scope: Option<string>) {
    scope.None? || e.scope == scope
  }

  /** The scratchpad at the head of an active view, as a list of at most one. */
  function PadOf(active: seq<Event>): seq<Event> {
    if active != [] && active[0].IsScratchpad() then active[..1] else []
  }

  function RawOf(active: seq<Event>): seq<Event> {
    active[|PadOf(active)|..]
  }

  function Reusable(pad: seq<Event>, scope: Option<string>): seq<Event>
    requires |pad| <= 1
  {
    if pad != [] && (pad[0].scope.None? || pad[0].scope == scope) then pad else []
  }

  function PlanFor(active: seq<Event>, scope: Option<string>, k: nat): Plan
    requires k <= |RawOf(active)|
  {
    var handed := Reusable(PadOf(active), scope) + RawOf(active)[..k];
    Plan(scope, handed, set e | e in handed && IsOwned(e, scope))
  }

  /** The part of `compact` before the summarizer is called. */
  function Prepare(events: seq<Event>, scope: Option<string>, retention: int): Preparation {
    var active := AnchoredView(events, scope);
    var raw := RawOf(active);
    if |raw| <= retention then NotNeeded
    else match RetainStart(raw, retention)
      case TypeError => Throws
      case At(k) =>
        RetainStartIsOptimal(raw, retention);
        if k == 0 then NotNeeded else Ready(PlanFor(active, scope, k))
  }

  /** The scratchpad that goes into the session: marked, authored by the system and
      tagged with the caller's scope when it has one. */
  function Stamp(summary: Summary, scope: Option<string>): Event {
    Event(summary.ref, "system", if scope.None? then summary.scope else scope, summary.timestamp,
          summary.parts, Compacted(summary.endTime, true))
  }

  function FirstReplaced(events: seq<Event>, replaced: set<Event>): (i: nat)
    ensures i <= |events|
    ensures forall j :: 0 <= j < i ==> events[j] !in replaced
    ensures i < |events| ==> events[i] in replaced
  {
    if events == [] || events[0] in replaced then 0 else 1 + FirstReplaced(events[1..], replaced)
  }

  function NotIn(replaced: set<Event>): Event -> bool {
    (e: Event) => e !in replaced
  }

  /** The list after `compact`: the scratchpad stands where the first replaced event
      stood, or at the end. */
  function Rewrite(events: seq<Event>, plan: Plan, summary: Summary): seq<Event> {
    var first := FirstReplaced(events, plan.replaced);
    events[..first] + [Stamp(summary, plan.scope)] + Filter(events[first..], NotIn(plan.replaced))
  }

  datatype Outcome = Unchanged | Threw | SummarizerFailed | Done(handed: seq<Event>)

  lemma FilterNext(events: seq<Event>, from: nat, i: nat, keep: Event -> bool)
    requires from <= i < |events|
    ensures Filter(events[from..i + 1], keep)
         == Filter(events[from..i], keep) + if keep(events[i]) then [events[i]] else []
  {
    FilterAppend(events[from..i], [events[i]], keep);
    assert events[from..i] + [events[i]] == events[from..i + 1];
  }

  /** The part of `compact` after the summarizer has answered; the list may have
      changed since the plan was made. */
  method ApplyPlan(session: Session, plan: Plan, summary: Summary)
    modifies session
    ensures session.events == Rewrite(old(session.events), plan, summary)
  {
    var pad := Stamp(summary, plan.scope);
    var first := FirstReplaced(session.events, plan.replaced);
    var rewritten := [];
    var inserted := false;
    for i := 0 to |session.events|
      invariant session.events == old(session.events)
      invariant inserted <==> first < i
      invariant !inserted ==> rewritten == session.events[..i]
      invariant inserted ==>
                  rewritten == session.events[..first] + [pad]
                             + Filter(session.events[first..i], NotIn(plan.replaced))
    {
      if i == first {
        rewritten := rewritten + [pad];
        inserted := true;
      }
      if first <= i {
        FilterNext(session.events, first, i, NotIn(plan.replaced));
      }
      if session.events[i] !in plan.replaced {
        rewritten := rewritten + [session.events[i]];
      }
    }
    assert session.events[first..|session.events|] == session.events[first..];
    if !inserted {
      rewritten := rewritten + [pad];
    }
    session.events := rewritten;
  }

  /** One compaction during which nobody else touches the session. */
  method Compact(session: Session, scope: Option<string>, retention: int,
                 summarize: seq<Event> -> Option<Summary>)
    returns (outcome: Outcome)
    modifies session
    ensures match Prepare(old(session.events), scope, retention)
            case NotNeeded => outcome == Unchanged && session.events == old(session.events)
            case Throws => outcome == Threw && session.events == old(session.events)
            case Ready(plan) =>
              match summarize(plan.handed)
              case None => outcome == SummarizerFailed && session.events == old(session.events)
              case Some(summary) =>
                outcome == Done(plan.handed) && session.events == Rewrite(old(session.events), plan, summary)
  {
    var active := GetActiveEvents(session.events, scope);
    var raw := RawOf(active);
    if |raw| <= retention {
      return Unchanged;
    }
    var split := CalculateRetainStartIndex(raw, retention);
    if split.TypeError? {
      return Threw;
    }
    if split.index == 0 {
      return Unchanged;
    }
    var plan := PlanFor(active, scope, split.index);
    var summary := summarize(plan.handed);
    if summary.None? {
      return SummarizerFailed;
    }
    ApplyPlan(session, plan, summary.value);
    return Done(plan.handed);
  }

  // ---------------------------------------------------------------------------
  // Scopes do not interfere
  // ---------------------------------------------------------------------------

  /** Everything a plan takes out was handed to the summarizer and, for a scoped
      caller, carries exactly the caller's scope. */
  ghost predicate TakesOnlyItsOwn(plan: Plan) {
    && (forall e :: e in plan.replaced ==> e in plan.handed)
    && (plan.scope.Some? ==> forall e :: e in plan.replaced ==> e.scope == plan.scope)
  }

  lemma ViewMembers(visible: seq<Event>)
    ensures forall e :: e in ViewOf(visible) ==> e in visible
  {
    var latest := LatestScratchpad(visible);
    if latest.Some? {
      FilterMembers(visible, UnsummarizedAfter(latest.value.kind.endTime));
    }
  }

  /** A plan covers a proper, non-empty prefix of the raw events and leaves at
      least `retention` of them. */
  lemma PreparedPlans(events: seq<Event>, scope: Option<string>, retention: int) returns (k: nat)
    requires Prepare(events, scope, retention).Ready?
    ensures var raw := RawOf(AnchoredView(events, scope));
            && 0 < k < |raw| && k + retention <= |raw| && retention >= 1 && SafeSplit(raw, k)
            && Prepare(events, scope, retention) == Ready(PlanFor(AnchoredView(events, scope), scope, k))
  {
    var raw := RawOf(AnchoredView(events, scope));
    RetainStartIsOptimal(raw, retention);
    k := RetainStart(raw, retention).index;
  }

  /** The active view starts with the latest scratchpad the caller sees, if any. */
  lemma PadIs(events: seq<Event>, scope: Option<string>)
    ensures var latest := LatestScratchpad(VisibleTo(events, scope));
            var active := AnchoredView(events, scope);
            && PadOf(active) == (if latest.Some? then [latest.value] else [])
            && active == PadOf(active) + RawOf(active)
  {
    var visible := VisibleTo(events, scope);
    assert LatestScratchpad(visible).None? && visible != [] ==> visible[0] in visible;
  }

  /** When a compaction goes ahead: exactly when the retention size is at least one and
      the raw active events have a cut that retains that many and parts no call from
      its response. The summarizer is then handed the events before the last such cut,
      behind the scratchpad of the view unless that one belongs to another scope; and
      exactly the events handed over are replaced, for a scoped caller only those that
      carry its scope. */
  lemma CompactsIff(events: seq<Event>, scope: Option<string>, retention: int)
    ensures var raw, p := RawOf(AnchoredView(events, scope)), Prepare(events, scope, retention);
            && (p.Throws? <==> retention < 1 && |raw| > retention)
            && (p.Ready? <==> retention >= 1 && exists j :: GoodCut(raw, retention, j))
    ensures var raw, p := RawOf(AnchoredView(events, scope)), Prepare(events, scope, retention);
            var latest := LatestScratchpad(VisibleTo(events, scope));
            p.Ready? ==> exists k ::
              && LastGoodCut(raw, retention, k)
              && p.plan.handed
                 == (if latest.Some? && (latest.value.scope.None? || latest.value.scope == scope)
                     then [latest.value] else [])
                  + raw[..k]
    ensures var p := Prepare(events, scope, retention);
            p.Ready? ==> forall e ::
              e in p.plan.replaced <==> e in p.plan.handed && (scope.Some? ==> e.scope == scope)
  {
    var raw := RawOf(AnchoredView(events, scope));
    PadIs(events, scope);
    if |raw| > retention {
      SplitsIff(raw, retention);
    }
    if Prepare(events, scope, retention).Ready? {
      assert LastGoodCut(raw, retention, RetainStart(raw, retention).index);
    }
  }

  lemma PreparedPlansTakeTheirOwn(events: seq<Event>, scope: Option<string>, retention: int)
    ensures var p := Prepare(events, scope, retention);
            p.Ready? ==> p.plan.scope == scope && TakesOnlyItsOwn(p.plan) && p.plan.handed != []
                         && forall e :: e in p.plan.handed ==> e in events && IsVisible(e, scope)
  {
    var p := Prepare(events, scope, retention);
    if p.Ready? {
      var k := PreparedPlans(events, scope, retention);
      PlanTakesItsOwn(AnchoredView(events, scope), scope, k);
      ViewMembers(VisibleTo(events, scope));
      FilterMembers(events, VisibleIn(scope));
    }
  }

  lemma PlanTakesItsOwn(active: seq<Event>, scope: Option<string>, k: nat)
    requires 0 < k <= |RawOf(active)|
    ensures var plan := PlanFor(active, scope, k);
            && plan.scope == scope && TakesOnlyItsOwn(plan) && plan.handed != []
            && forall e :: e in plan.handed ==> e in active
  {
    var plan := PlanFor(active, scope, k);
    assert |plan.handed| >= k;
    assert forall e :: e in PadOf(active) || e in RawOf(active) ==> e in active;
  }

  /** The rewritten list is the old one without the replaced events, with the
      scratchpad standing where the first of them stood, or at the end. */
  lemma RewriteAnatomy(events: seq<Event>, plan: Plan, summary: Summary)
    ensures var first := FirstReplaced(events, plan.replaced);
            var after := Rewrite(events, plan, summary);
            && |after| > first && after[first] == Stamp(summary, plan.scope)
            && after[first].IsScratchpad() && after[first].kind.endTime == summary.endTime
            && after[first].scope == (if plan.scope.Some? then plan.scope else summary.scope)
            && after[first].author == "system" && after[first].parts == summary.parts
            && after[first].timestamp == summary.timestamp && after[first].ref == summary.ref
            && after[..first] + after[first + 1..] == Filter(events, NotIn(plan.replaced))
            && after[..first] == events[..first]
  {
    var first := FirstReplaced(events, plan.replaced);
    var head := events[..first];
    Splice(head, Stamp(summary, plan.scope), Filter(events[first..], NotIn(plan.replaced)));
    assert head + events[first..] == events;
    FilterAppend(head, events[first..], NotIn(plan.replaced));
    FilterAll(head, NotIn(plan.replaced));
  }

  /** What any reader sees of the rewritten list. */
  lemma VisibleAfterRewrite(events: seq<Event>, plan: Plan, summary: Summary, reader: Option<string>)
    ensures var first := FirstReplaced(events, plan.replaced);
            VisibleTo(Rewrite(events, plan, summary), reader)
            == VisibleTo(events[..first], reader)
             + VisibleTo([Stamp(summary, plan.scope)], reader)
             + Filter(VisibleTo(events[first..], reader), NotIn(plan.replaced))
  {
    var first := FirstReplaced(events, plan.replaced);
    var pad := [Stamp(summary, plan.scope)];
    var rest := Filter(events[first..], NotIn(plan.replaced));
    FilterAppend(events[..first] + pad, rest, VisibleIn(reader));
    FilterAppend(events[..first], pad, VisibleIn(reader));
    FilterCommute(events[first..], NotIn(plan.replaced), VisibleIn(reader));
  }

  /** A compaction on behalf of scope `s` leaves what every other reader sees
      unchanged, even if the list changed arbitrarily between making the plan from
      `earlier` and applying it to `events`. */
  lemma ScopesDoNotInterfere(earlier: seq<Event>, events: seq<Event>, s: string, retention: int,
                             plan: Plan, summary: Summary, reader: Option<string>)
    requires Prepare(earlier, Some(s), retention) == Ready(plan)
    requires reader != Some(s)
    ensures VisibleTo(Rewrite(events, plan, summary), reader) == VisibleTo(events, reader)
    ensures AnchoredView(Rewrite(events, plan, summary), reader) == AnchoredView(events, reader)
    ensures ActiveEvents(Rewrite(events, plan, summary), reader) == ActiveEvents(events, reader)
  {
    PreparedPlansTakeTheirOwn(earlier, Some(s), retention);
    OwnPlanIsInvisible(events, plan, summary, reader);
  }

  lemma OwnPlanIsInvisible(events: seq<Event>, plan: Plan, summary: Summary, reader: Option<string>)
    requires plan.scope.Some? && TakesOnlyItsOwn(plan) && reader != plan.scope
    ensures VisibleTo(Rewrite(events, plan, summary), reader) == VisibleTo(events, reader)
  {
    var first := FirstReplaced(events, plan.replaced);
    var head, tail := events[..first], events[first..];
    assert events == head + tail;
    FilterAppend(head, tail, VisibleIn(reader));
    VisibleAfterRewrite(events, plan, summary, reader);
    assert VisibleTo([Stamp(summary, plan.scope)], reader) == [];
    FilterMembers(tail, VisibleIn(reader));
    FilterAll(VisibleTo(tail, reader), NotIn(plan.replaced));
    assert VisibleTo(head, reader) + [] == VisibleTo(head, reader);
  }

  /** The compacting scope itself loses nothing but what was summarized. */
  lemma RemovedWasSummarized(earlier: seq<Event>, events: seq<Event>, scope: Option<string>, retention: int,
                             plan: Plan, summary: Summary, e: Event)
    requires Prepare(earlier, scope, retention) == Ready(plan)
    requires e in events && e !in Rewrite(events, plan, summary)
    ensures e in plan.handed && (scope.Some? ==> e.scope == scope)
  {
    PreparedPlansTakeTheirOwn(earlier, scope, retention);
    FilterMembers(events, NotIn(plan.replaced));
    RewriteAnatomy(events, plan, summary);
  }
}
