/** The append-only compactor: the session only grows, and the newest compacted event
    moves the start of the active view forward
    (core/src/context/token_based_context_compactor.ts). */
module TokenCompactor {
  import opened Wrappers
  import opened Seqs
  import opened Events
  import opened CompactionUtils

  function RawActive(events: seq<Event>, scope: Option<string>): seq<Event> {
    Filter(ActiveEvents(events, scope), IsRaw())
  }

  function FirstCompacted(events: seq<Event>): seq<Event> {
    if events == [] then []
    else if events[0].kind.Compacted? then [events[0]]
    else FirstCompacted(events[1..])
  }

  datatype Preparation = NotNeeded | Throws | Ready(handed: seq<Event>, split: nat)

  function Prepare(events: seq<Event>, scope: Option<string>, retention: int): Preparation {
    var raw := RawActive(events, scope);
    if |raw| <= retention then NotNeeded
    else match RetainStart(raw, retention)
      case TypeError => Throws
      case At(k) =>
        RetainStartIsOptimal(raw, retention);
        if k == 0 then NotNeeded
        else Ready(FirstCompacted(ActiveEvents(events, scope)) + raw[..k], k)
  }

  /** The event that is appended: the summarizer's, tagged with the caller's scope
      when the summarizer set none. */
  function Tagged(summary: Summary, scope: Option<string>): Event {
    Event(summary.ref, summary.author, if summary.scope.None? then scope else summary.scope,
          summary.timestamp, summary.parts, Compacted(summary.endTime, summary.scratchpad))
  }

  datatype Outcome = Unchanged | Threw | SummarizerFailed | Appended(handed: seq<Event>)

  method Compact(session: Session, scope: Option<string>, retention: int,
                 summarize: seq<Event> -> Option<Summary>)
    returns (outcome: Outcome)
    modifies session
    ensures match Prepare(old(session.events), scope, retention)
            case NotNeeded => outcome == Unchanged && session.events == old(session.events)
            case Throws => outcome == Threw && session.events == old(session.events)
            case Ready(handed, _) =>
              match summarize(handed)
              case None => outcome == SummarizerFailed && session.events == old(session.events)
              case Some(summary) =>
                outcome == Appended(handed) && session.events == old(session.events) + [Tagged(summary, scope)]
  {
    var active := ActiveEvents(session.events, scope);
    var raw := Filter(active, IsRaw());
    if |raw| <= retention {
      return Unchanged;
    }
    var split := CalculateRetainStartIndex(raw, retention);
    if split.TypeError? {
      return Threw;
    }
    if split.index == 0 {
      return Unchanged;
    }
    var handed := FirstCompacted(active) + raw[..split.index];
    var summary := summarize(handed);
    if summary.None? {
      return SummarizerFailed;
    }
    session.events := session.events + [Tagged(summary.value, scope)];
    return Appended(handed);
  }

  /** The active view is the latest compacted event the caller sees, if any, and the raw
      active events. */
  lemma ActiveIs(events: seq<Event>, scope: Option<string>)
    ensures var latest := LatestCompacted(VisibleTo(events, scope));
            var pad := if latest.Some? then [latest.value] else [];
            && ActiveEvents(events, scope) == pad + RawActive(events, scope)
            && FirstCompacted(ActiveEvents(events, scope)) == pad
  {
    var visible := VisibleTo(events, scope);
    match LatestCompacted(visible)
    case None =>
      FilterAll(visible, IsRaw());
      NoneCompacted(visible);
      assert [] + visible == visible;
    case Some(latest) =>
      var later := Filter(visible, RawLaterThan(latest.kind.endTime));
      FilterMembers(visible, RawLaterThan(latest.kind.endTime));
      assert ([latest] + later)[1..] == later;
      FilterAll(later, IsRaw());
  }

  lemma {:induction false} NoneCompacted(events: seq<Event>)
    requires forall e :: e in events ==> e.kind.Raw?
    ensures FirstCompacted(events) == []
  {
    if events != [] {
      NoneCompacted(events[1..]);
    }
  }

  /** When a compaction goes ahead: exactly when the retention size is at least one and
      the raw active events have a cut that retains that many and parts no call from
      its response. The summarizer is handed the latest compacted event the caller
      sees, whatever its scope, and the events before the last such cut. */
  lemma CompactsIff(events: seq<Event>, scope: Option<string>, retention: int)
    ensures var raw, p := RawActive(events, scope), Prepare(events, scope, retention);
            var latest := LatestCompacted(VisibleTo(events, scope));
            && (p.Throws? <==> retention < 1 && |raw| > retention)
            && (p.Ready? <==> retention >= 1 && exists j :: GoodCut(raw, retention, j))
            && (p.Ready? ==> LastGoodCut(raw, retention, p.split)
                             && p.handed == (if latest.Some? then [latest.value] else []) + raw[..p.split])
  {
    var raw := RawActive(events, scope);
    ActiveIs(events, scope);
    if |raw| > retention {
      SplitsIff(raw, retention);
    }
  }

  /** Keeping only what is later than an event that was active is the same on the
      whole visible list and on its active raw part. */
  lemma LaterOfVisible(events: seq<Event>, scope: Option<string>, end: int)
    requires exists e :: e in RawActive(events, scope) && e.timestamp == end
    ensures Filter(VisibleTo(events, scope), RawLaterThan(end)) == Filter(RawActive(events, scope), RawLaterThan(end))
  {
    var visible := VisibleTo(events, scope);
    var active := ActiveEvents(events, scope);
    FilterMembers(active, IsRaw());
    FilterNested(active, IsRaw(), RawLaterThan(end));
    match LatestCompacted(visible)
    case None =>
    case Some(latest) =>
      var covered := RawLaterThan(latest.kind.endTime);
      var later := Filter(visible, covered);
      FilterMembers(visible, covered);
      FilterAppend([latest], later, RawLaterThan(end));
      assert Filter([latest], RawLaterThan(end)) == [];
      assert [] + Filter(later, RawLaterThan(end)) == Filter(later, RawLaterThan(end));
      FilterNested(visible, covered, RawLaterThan(end));
  }

  /** The view computed after a compacted event visible to the reader was appended. */
  lemma ViewAfterAppend(events: seq<Event>, scope: Option<string>, c: Event)
    requires c.kind.Compacted? && IsVisible(c, scope)
    ensures ActiveEvents(events + [c], scope) == [c] + Filter(VisibleTo(events, scope), RawLaterThan(c.kind.endTime))
  {
    var visible := VisibleTo(events, scope);
    var later := RawLaterThan(c.kind.endTime);
    FilterAppend(events, [c], VisibleIn(scope));
    assert VisibleTo([c], scope) == [c];
    FilterAppend(visible, [c], later);
    assert Filter([c], later) == [];
    assert Filter(visible, later) + [] == Filter(visible, later);
    assert LatestCompacted(visible + [c]) == Some(c);
  }

  /** The new event belongs to the scope its summarizer named, or else to the caller's:
      other readers see no change, its own start with it. */
  lemma ScopesDoNotInterfere(events: seq<Event>, scope: Option<string>, summary: Summary, reader: Option<string>)
    ensures var c, owner := Tagged(summary, scope), if summary.scope.Some? then summary.scope else scope;
            if owner.Some? && reader != owner
            then ActiveEvents(events + [c], reader) == ActiveEvents(events, reader)
            else ActiveEvents(events + [c], reader)
                 == [c] + Filter(VisibleTo(events, reader), RawLaterThan(summary.endTime))
    ensures var c := Tagged(summary, scope);
            && c.kind == Compacted(summary.endTime, summary.scratchpad)
            && c.ref == summary.ref && c.parts == summary.parts
            && c.author == summary.author && c.timestamp == summary.timestamp
  {
    var c := Tagged(summary, scope);
    if IsVisible(c, reader) {
      ViewAfterAppend(events, reader, c);
    } else {
      FilterLast(events, c, VisibleIn(reader));
    }
  }

  /** An append-only compaction whose summarizer leaves the scope unset and ends at
      the last event it was given makes the active view the new compacted event
      followed by the raw events from the split on, exactly when the split is a clean
      cut in time: with a timestamp tie or events out of order, retained events leave
      the view or summarized ones come back. The raw part that is kept is strictly
      shorter but has at least `retention` events. */
  lemma CompactionKeepsTheTailIff(events: seq<Event>, scope: Option<string>, retention: int, summary: Summary)
    requires Prepare(events, scope, retention).Ready?
    requires summary.scope.None?
    requires var handed := Prepare(events, scope, retention).handed;
             handed != [] && summary.endTime == handed[|handed| - 1].timestamp
    ensures var raw := RawActive(events, scope);
            var k := Prepare(events, scope, retention).split;
            var c := Tagged(summary, scope);
            && 0 < k < |raw| && retention <= |raw| - k && SafeSplit(raw, k)
            && (ActiveEvents(events + [c], scope) == [c] + raw[k..] <==> CleanCut(raw, k))
  {
    var raw := RawActive(events, scope);
    var k := Prepare(events, scope, retention).split;
    var c := Tagged(summary, scope);
    RetainStartIsOptimal(raw, retention);
    var handed := Prepare(events, scope, retention).handed;
    assert handed[|handed| - 1] == raw[k - 1];
    var end := summary.endTime;
    LaterOfVisible(events, scope, end);
    ViewAfterAppend(events, scope, c);
    RawActiveIsRaw(events, scope);
    CleanCutIff(raw, k);
    HeadCancels(c, Filter(raw, RawLaterThan(end)), raw[k..]);
  }

  /** It does happen: two events with one timestamp and a retention size of one. The
      retained event stays in the session and leaves the view. */
  lemma TieLosesRetained(a: Event, b: Event, summary: Summary)
    requires a.kind.Raw? && b.kind.Raw? && a.scope.None? && b.scope.None? && a.timestamp == b.timestamp
    requires !b.HasResponses() && summary.scope.None? && summary.endTime == a.timestamp
    ensures Prepare([a, b], None, 1) == Ready([a], 1)
    ensures ActiveEvents([a, b] + [Tagged(summary, None)], None) == [Tagged(summary, None)]
  {
    var events, c := [a, b], Tagged(summary, None);
    assert events[1..] == [b] && [b][1..] == [] && events[..1] == [a] && [a][..0] == [];
    assert VisibleTo([b], None) == [b] && VisibleTo(events, None) == events;
    assert LatestCompacted(events[..1]).None?;
    assert Filter([b], IsRaw()) == [b] && RawActive(events, None) == events;
    assert FirstCompacted([b]) == [];
    assert FirstCompacted(events) == FirstCompacted(events[1..]);
    assert [] + events[..1] == [a];
    ViewAfterAppend(events, None, c);
    assert Filter([b], RawLaterThan(a.timestamp)) == [];
    assert [c] + [] == [c];
  }

  // ---------------------------------------------------------------------------
  // Other readers
  // ---------------------------------------------------------------------------

  /** An event is lost to a reader when it leaves the reader's view and is not in the
      summary of the compacted event the reader is shown. */
  ghost predicate Lost(events: seq<Event>, handed: seq<Event>, c: Event, reader: Option<string>, e: Event) {
    e !in ActiveEvents(events + [c], reader) && !(IsVisible(c, reader) && e in handed)
  }

  /** When a compaction takes a raw active event away from any reader, even if the list
      has grown since it was prepared: exactly when the reader sees the new event, whose
      summary was not made from the lost one but ends no earlier. The compacted event the
      reader was shown before is always hidden by one it sees. */
  lemma ActiveEventLostIff(earlier: seq<Event>, events: seq<Event>, scope: Option<string>, retention: int,
                           summary: Summary, reader: Option<string>, e: Event)
    requires Prepare(earlier, scope, retention).Ready?
    requires e in ActiveEvents(events, reader) && e.kind.Raw?
    ensures var c, handed := Tagged(summary, scope), Prepare(earlier, scope, retention).handed;
            && (Lost(events, handed, c, reader, e)
                <==> IsVisible(c, reader) && e !in handed && e.timestamp <= summary.endTime)
            && (IsVisible(c, reader) ==>
                  forall x :: x in ActiveEvents(events + [c], reader) && x.kind.Compacted? ==> x == c)
  {
    var c := Tagged(summary, scope);
    var visible := VisibleTo(events, reader);
    ActiveAreVisible(visible);
    if IsVisible(c, reader) {
      ViewAfterAppend(events, reader, c);
      FilterMembers(visible, RawLaterThan(c.kind.endTime));
    } else {
      FilterLast(events, c, VisibleIn(reader));
    }
  }

  lemma ActiveAreVisible(visible: seq<Event>)
    ensures match LatestCompacted(visible)
            case None => true
            case Some(latest) =>
              forall e :: e in [latest] + Filter(visible, RawLaterThan(latest.kind.endTime)) ==> e in visible
  {
    var latest := LatestCompacted(visible);
    if latest.Some? {
      FilterMembers(visible, RawLaterThan(latest.value.kind.endTime));
    }
  }

  /** It does happen: an unscoped compaction of `a` hides the earlier event `x` from the
      scope that owns it. */
  lemma PrivateEventIsLost(x: Event, a: Event, b: Event, s: string, summary: Summary)
    requires x.kind.Raw? && a.kind.Raw? && b.kind.Raw? && x.scope == Some(s) && a.scope.None? && b.scope.None?
    requires x.timestamp < a.timestamp < b.timestamp && !b.HasResponses()
    requires summary.scope.None? && summary.endTime == a.timestamp
    ensures var c := Tagged(summary, None);
            && Prepare([x, a, b], None, 1) == Ready([a], 1)
            && ActiveEvents([x, a, b], Some(s)) == [x, a, b]
            && ActiveEvents([x, a, b] + [c], Some(s)) == [c, b]
  {
    var events, c := [x, a, b], Tagged(summary, None);
    assert events[1..] == [a, b] && [a, b][1..] == [b] && [b][1..] == [];
    assert VisibleTo([b], None) == [b] && VisibleTo([a, b], None) == [a, b] && VisibleTo(events, None) == [a, b];
    assert VisibleTo([b], Some(s)) == [b] && VisibleTo([a, b], Some(s)) == [a, b];
    assert VisibleTo(events, Some(s)) == events;
    assert [a, b][..1] == [a] && [a][..0] == [] && events[..2] == [x, a] && [x, a][..1] == [x] && [x][..0] == [];
    assert LatestCompacted([a]).None? && LatestCompacted([a, b]).None?;
    assert LatestCompacted([x]).None? && LatestCompacted([x, a]).None? && LatestCompacted(events).None?;
    assert Filter([b], IsRaw()) == [b] && RawActive(events, None) == [a, b];
    assert FirstCompacted([b]) == [] && FirstCompacted([a, b]) == FirstCompacted([a, b][1..]);
    assert [] + [a] == [a];
    ViewAfterAppend(events, Some(s), c);
    var later := RawLaterThan(a.timestamp);
    assert Filter([b], later) == [b] && Filter([a, b], later) == [b] && Filter(events, later) == [b];
  }

  lemma CleanCutIff(raw: seq<Event>, k: nat)
    requires 0 < k <= |raw| && forall i :: 0 <= i < |raw| ==> raw[i].kind.Raw?
    ensures Filter(raw, RawLaterThan(raw[k - 1].timestamp)) == raw[k..] <==> CleanCut(raw, k)
  {
    TailSurvivesIff(raw, k, RawLaterThan(raw[k - 1].timestamp));
  }

  lemma RawActiveIsRaw(events: seq<Event>, scope: Option<string>)
    ensures forall i :: 0 <= i < |RawActive(events, scope)| ==> RawActive(events, scope)[i].kind.Raw?
  {
    FilterMembers(ActiveEvents(events, scope), IsRaw());
    var raw := RawActive(events, scope);
    assert forall i :: 0 <= i < |raw| ==> raw[i] in raw;
  }

  lemma HeadCancels(c: Event, s: seq<Event>, t: seq<Event>)
    ensures [c] + s == [c] + t <==> s == t
  {
    assert ([c] + s)[1..] == s && ([c] + t)[1..] == t;
  }
}
