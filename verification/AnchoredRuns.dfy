/** Whole runs of overlapping anchored compactions: when the shared history is partitioned
    into summarized and active events, and what a summary that arrives late costs. */
module AnchoredRuns {
  import opened Wrappers
  import opened Seqs
  import opened Events
  import opened CompactionUtils
  import opened AnchoredCompactor
  import opened AnchoredHistory

  lemma FailHolds(w: World, n: nat, pad: seq<Event>)
    requires Holds(w, pad) && Allowed(w, Fail(n))
    ensures Holds(Apply(w, Fail(n)), pad)
  {
    var t := Apply(w, Fail(n));
    forall i | 0 <= i < |t.flights|
      ensures HandedStretch(t.flights[i], t.history) && InTimeOrLate(t.flights[i], pad, t.summarized, t.finished)
    {
      assert t.flights[i] == w.flights[if i < n then i else i + 1];
    }
  }

  lemma FailKeeps(w: World, n: nat)
    requires Invariant(w) && Allowed(w, Fail(n))
    ensures Invariant(Apply(w, Fail(n)))
  {
    var t := Apply(w, Fail(n));
    forall i | 0 <= i < |t.flights| ensures OnePad(t.flights[i].plan) {
      assert t.flights[i] == w.flights[if i < n then i else i + 1];
    }
    if !w.late {
      var pad :| Holds(w, pad);
      FailHolds(w, n, pad);
    }
  }

  lemma ScopedKeeps(w: World, events: seq<Event>)
    requires Invariant(w) && VisibleTo(events, None) == VisibleTo(w.events, None)
    ensures Invariant(w.(events := events))
  {
    if !w.late {
      var pad :| Holds(w, pad);
      assert Holds(w.(events := events), pad);
    }
  }

  lemma MoveKeeps(w: World, m: Move)
    requires Invariant(w) && Allowed(w, m)
    ensures Invariant(Apply(w, m))
  {
    match m
    case Append(e) => AppendKeeps(w, e);
    case Begin(retention) => BeginKeeps(w, retention);
    case Finish(n, summary) => FinishKeeps(w, n, summary);
    case Fail(n) => FailKeeps(w, n);
    case ScopedCompaction(earlier, s, size, summary) =>
      ScopesDoNotInterfere(earlier, w.events, s, size, Prepare(earlier, Some(s), size).plan, summary, None);
      ScopedKeeps(w, Apply(w, m).events);
  }

  lemma {:induction false} RunKeeps(w: World, moves: seq<Move>)
    requires Invariant(w)
    ensures Invariant(Run(w, moves))
    decreases |moves|
  {
    if moves != [] && Allowed(w, moves[0]) {
      MoveKeeps(w, moves[0]);
      RunKeeps(Apply(w, moves[0]), moves[1..]);
    }
  }

  lemma StartHolds()
    ensures Invariant(START)
  {
    assert Holds(START, []);
  }

  lemma EveryRunKeeps(moves: seq<Move>)
    ensures Invariant(Run(START, moves))
  {
    StartHolds();
    RunKeeps(START, moves);
  }

  /** Over every run of appends in time order, unscoped compactions that overlap in any
      way and whose summarizers leave their events untagged and end at the last event
      they were given, summarizer failures, and compactions of any other scopes: the
      active view is the only untagged scratchpad, if anything was summarized, followed
      by exactly the shared events not yet summarized, if and only if no compaction that
      finished had been planned before another one finished. */
  lemma HistoryIsPartitionedIff(moves: seq<Move>)
    ensures var w := Run(START, moves);
            Partitioned(w) <==> !w.late
  {
    var w := Run(START, moves);
    EveryRunKeeps(moves);
    if w.late {
      TwoPadsShowOne(VisibleTo(w.events, None));
    } else {
      var pad :| Holds(w, pad);
      HeldIsPartitioned(w, pad);
    }
  }

  // ---------------------------------------------------------------------------
  // What a late summary costs
  // ---------------------------------------------------------------------------

  /** Late: the scratchpad of the other compaction stays in front, and the new one goes
      to the first event it replaces, or to the end when they are all gone. */
  lemma VisibleAfterLate(events: seq<Event>, f: Flight, history: seq<Event>, pad: seq<Event>, n: nat,
                         summary: Summary, cut: nat)
    requires HandedStretch(f, history) && Records(history, pad, n) && f.base < n && pad[0] !in f.plan.replaced
    requires VisibleTo(events, None) == pad + history[n..] && summary.scope.None?
    requires cut == |VisibleTo(events[..FirstReplaced(events, f.plan.replaced)], None)|
    ensures cut <= 1 + |history| - n
    ensures var kept := pad + history[Larger(n, f.upTo)..];
            && cut <= |kept|
            && VisibleTo(Rewrite(events, f.plan, summary), None) == kept[..cut] + [Stamp(summary, None)] + kept[cut..]
  {
    var first, replaced := FirstReplaced(events, f.plan.replaced), f.plan.replaced;
    var head, tail := VisibleTo(events[..first], None), VisibleTo(events[first..], None);
    assert events == events[..first] + events[first..];
    FilterAppend(events[..first], events[first..], VisibleIn(None));
    VisibleAfterRewrite(events, f.plan, summary, None);
    assert VisibleTo([Stamp(summary, None)], None) == [Stamp(summary, None)];
    FilterMembers(events[..first], VisibleIn(None));
    FilterAll(head, NotIn(replaced));
    FilterAppend(head, tail, NotIn(replaced));
    FilterAppend(pad, history[n..], NotIn(replaced));
    assert pad == [pad[0]];
    FilterAll(pad, NotIn(replaced));
    StretchIsRemoved(f, history, n);
  }

  lemma LatestBefore(kept: seq<Event>, cut: nat, stamp: Event)
    requires 0 < cut <= |kept| && stamp.IsScratchpad() && forall i :: 0 < i < |kept| ==> !kept[i].IsScratchpad()
    ensures LatestScratchpad(kept[..cut] + [stamp] + kept[cut..]) == Some(stamp)
  {
    var tail := kept[cut..];
    assert forall i :: 0 <= i < |tail| ==> tail[i] == kept[cut + i];
    LatestAppend(kept[..cut] + [stamp], tail);
    LatestIsLastOr(kept[..cut] + [stamp], cut);
    assert (kept[..cut] + [stamp])[..cut + 1] == kept[..cut] + [stamp];
  }

  /** The replaced events that are left stand behind the scratchpad. */
  lemma PadStaysInFront(events: seq<Event>, f: Flight, history: seq<Event>, pad: seq<Event>, n: nat)
    requires HandedStretch(f, history) && Records(history, pad, n) && pad != [] && pad[0] !in f.plan.replaced
    requires VisibleTo(events, None) == pad + history[n..]
    ensures |VisibleTo(events[..FirstReplaced(events, f.plan.replaced)], None)| > 0
  {
    var first := FirstReplaced(events, f.plan.replaced);
    var head, tail := events[..first], events[first..];
    assert events == head + tail;
    FilterAppend(head, tail, VisibleIn(None));
    HandedIsVisible(f, history);
    assert VisibleTo(head, None) == [] ==> VisibleTo(tail, None) == pad + history[n..];
    FirstVisible(tail);
  }

  lemma FirstVisible(events: seq<Event>)
    ensures events != [] && IsVisible(events[0], None) ==>
              VisibleTo(events, None) != [] && VisibleTo(events, None)[0] == events[0]
    ensures events == [] ==> VisibleTo(events, None) == []
  {
  }

  lemma HandedIsVisible(f: Flight, history: seq<Event>)
    requires HandedStretch(f, history) && AllShared(history)
    ensures forall e :: e in f.plan.replaced ==> IsVisible(e, None)
  {
    var given := history[f.base..f.upTo];
    assert forall i :: 0 <= i < |given| ==> given[i] == history[f.base + i];
  }

  lemma LaterOfKept(history: seq<Event>, pad: seq<Event>, n: nat, m: nat, end: int)
    requires Records(history, pad, n) && 0 < m <= |history| && end <= history[m - 1].timestamp
    ensures Filter(pad + history[m..], UnsummarizedAfter(end)) == history[m..]
  {
    FilterAppend(pad, history[m..], UnsummarizedAfter(end));
    FilterNone(pad, UnsummarizedAfter(end));
    AllLater(history, m, end);
    assert [] + history[m..] == history[m..];
  }

  lemma LaterAround(kept: seq<Event>, cut: nat, stamp: Event, rest: seq<Event>)
    requires cut <= |kept| && stamp.IsScratchpad() && Filter(kept, UnsummarizedAfter(stamp.kind.endTime)) == rest
    ensures Filter(kept[..cut] + [stamp] + kept[cut..], UnsummarizedAfter(stamp.kind.endTime)) == rest
  {
    assert kept[..cut] + kept[cut..] == kept;
    FilterSkip(kept[..cut], stamp, kept[cut..], UnsummarizedAfter(stamp.kind.endTime));
  }

  lemma ViewAfterLate(history: seq<Event>, pad: seq<Event>, n: nat, m: nat, stamp: Event, cut: nat)
    requires Records(history, pad, n) && 0 < n && 0 < m <= |history|
    requires stamp.IsScratchpad() && stamp.kind.endTime <= history[m - 1].timestamp
    requires 0 < cut <= 1 + |history| - m
    ensures var kept := pad + history[m..];
            ViewOf(kept[..cut] + [stamp] + kept[cut..]) == [stamp] + history[m..]
  {
    var kept := pad + history[m..];
    LaterOfKept(history, pad, n, m, stamp.kind.endTime);
    LaterAround(kept, cut, stamp, history[m..]);
    LatestBefore(kept, cut, stamp);
  }

  lemma ViewAfterFinish(w: World, n: nat, summary: Summary, pad: seq<Event>)
    requires Holds(w, pad) && Allowed(w, Finish(n, summary))
    ensures AnchoredView(Land(w, n, summary).events, None)
         == [Stamp(summary, None)] + w.history[Larger(w.summarized, w.flights[n].upTo)..]
  {
    var f, stamp := w.flights[n], Stamp(summary, None);
    LastOfStretch(f, w.history);
    if f.madeAt == w.finished {
      TimelyFinishKeeps(w, n, summary, pad);
      HeldIsPartitioned(Land(w, n, summary), [stamp]);
    } else {
      var cut := |VisibleTo(w.events[..FirstReplaced(w.events, f.plan.replaced)], None)|;
      PadStaysInFront(w.events, f, w.history, pad, w.summarized);
      VisibleAfterLate(w.events, f, w.history, pad, w.summarized, summary, cut);
      var m := Larger(w.summarized, f.upTo);
      assert w.history[f.upTo - 1].timestamp <= w.history[m - 1].timestamp;
      ViewAfterLate(w.history, pad, w.summarized, m, stamp, cut);
    }
  }

  /** The first summary that arrives late decides the view: it stands for the history up
      to where its own plan reached, and the active events go on where the longest
      summary stopped. The events in between, summarized only by a compaction that was
      planned later or reached further, are lost: neither active nor in the summary shown. */
  lemma FinishLosesIff(moves: seq<Move>, n: nat, summary: Summary, i: nat)
    requires var w := Run(START, moves); !w.late && Allowed(w, Finish(n, summary)) && i < |w.history|
    ensures var w := Run(START, moves);
            var f, view := w.flights[n], AnchoredView(Apply(w, Finish(n, summary)).events, None);
            && HandedStretch(f, w.history) && w.summarized <= |w.history|
            && view == [Stamp(summary, None)] + w.history[Larger(w.summarized, f.upTo)..]
            && (w.history[i] !in view && f.upTo <= i <==> f.upTo <= i < w.summarized)
  {
    var w := Run(START, moves);
    EveryRunKeeps(moves);
    var pad :| Holds(w, pad);
    ViewAfterFinish(w, n, summary, pad);
    HistoryFrom(w.history, Larger(w.summarized, w.flights[n].upTo), i);
  }

  lemma HistoryFrom(history: seq<Event>, m: nat, i: nat)
    requires Increasing(history) && m <= |history| && i < |history|
    ensures history[i] in history[m..] <==> m <= i
  {
    if m <= i {
      assert history[i] == history[m..][i - m];
    }
    assert forall j :: m <= j < |history| && j != i ==> history[j].timestamp != history[i].timestamp;
  }
}
