/** Visibility by isolation scope, the active view of a session and the split index
    (core/src/context/compaction_utils.ts). */
module CompactionUtils {
  import opened Wrappers
  import opened Seqs
  import opened Events

  /** The summarizer's event; `ref` is the identity of the object that enters the session. */
  datatype Summary = Summary(ref: nat, author: string, scope: Option<string>, timestamp: int, parts: seq<Part>,
                             endTime: int, scratchpad: bool)

  predicate IsVisible(e: Event, scope: Option<string>) {
    e.scope.None? || e.scope == scope
  }

  function VisibleIn(scope: Option<string>): Event -> bool {
    (e: Event) => IsVisible(e, scope)
  }

  /** What a reader in `scope` sees of the session. */
  function VisibleTo(events: seq<Event>, scope: Option<string>): seq<Event> {
    Filter(events, VisibleIn(scope))
  }

  function IsRaw(): Event -> bool { (e: Event) => e.kind.Raw? }

  function RawLaterThan(endTime: int): Event -> bool {
    (e: Event) => e.kind.Raw? && e.timestamp > endTime
  }

  /** The last compacted event of a list. */
  function LatestCompacted(events: seq<Event>): (r: Option<Event>)
    ensures r.Some? ==> r.value in events && r.value.kind.Compacted?
    ensures r.None? ==> forall e :: e in events ==> e.kind.Raw?
  {
    if events == [] then None
    else if events[|events| - 1].kind.Compacted? then Some(events[|events| - 1])
    else LatestCompacted(events[..|events| - 1])
  }

  ghost predicate LastCompactedAt(events: seq<Event>, i: int) {
    0 <= i < |events| && events[i].kind.Compacted? && forall j :: i < j < |events| ==> events[j].kind.Raw?
  }

  /** The latest compacted event is the one after which every event is raw. */
  lemma {:induction false} LatestCompactedIs(events: seq<Event>)
    ensures LatestCompacted(events).None? <==> forall i :: 0 <= i < |events| ==> events[i].kind.Raw?
    ensures LatestCompacted(events).Some? ==>
              exists i :: LastCompactedAt(events, i) && events[i] == LatestCompacted(events).value
  {
    if events != [] {
      var n := |events| - 1;
      if events[n].kind.Compacted? {
        assert LastCompactedAt(events, n);
      } else {
        LatestCompactedIs(events[..n]);
        if LatestCompacted(events).Some? {
          var i :| LastCompactedAt(events[..n], i) && events[..n][i] == LatestCompacted(events).value;
          assert LastCompactedAt(events, i);
        }
      }
    }
  }

  /** The active events of the token-based compactor: the latest compacted event,
      then the raw events after the period it covers. */
  function ActiveEvents(events: seq<Event>, scope: Option<string>): seq<Event> {
    var visible := VisibleTo(events, scope);
    match LatestCompacted(visible)
    case None => visible
    case Some(latest) => [latest] + Filter(visible, RawLaterThan(latest.kind.endTime))
  }

  /** `i` would separate a call from the response that follows it. */
  predicate Conflict(raw: seq<Event>, i: nat)
    requires 0 < i < |raw|
  {
    raw[i].HasResponses() && raw[i - 1].HasCalls()
  }

  predicate SafeSplit(raw: seq<Event>, i: nat)
    requires i == 0 || i < |raw|
  {
    i == 0 || !Conflict(raw, i)
  }

  datatype Split = At(index: nat) | TypeError

  /** Reading past the end of the list dereferences `undefined`, so a retention
      size below one makes the computation throw on any list longer than it. */
  predicate SplitThrows(raw: seq<Event>, retention: int) {
    retention < 1 && |raw| > retention
  }

  function Baseline(raw: seq<Event>, retention: int): nat {
    if |raw| > retention then |raw| - retention else 0
  }

  /** The largest safe split at or below `i`. */
  function LargestSafe(raw: seq<Event>, i: nat): nat
    requires i == 0 || i < |raw|
  {
    if SafeSplit(raw, i) then i else LargestSafe(raw, i - 1)
  }

  function RetainStart(raw: seq<Event>, retention: int): Split {
    if SplitThrows(raw, retention) then TypeError
    else At(LargestSafe(raw, Baseline(raw, retention)))
  }

  /** The result is safe and no safe index between it and the baseline is larger. */
  lemma {:induction false} LargestSafeIsOptimal(raw: seq<Event>, i: nat)
    requires i == 0 || i < |raw|
    ensures LargestSafe(raw, i) <= i
    ensures SafeSplit(raw, LargestSafe(raw, i))
    ensures forall j: nat :: LargestSafe(raw, i) < j <= i ==> Conflict(raw, j)
  {
    if !SafeSplit(raw, i) {
      LargestSafeIsOptimal(raw, i - 1);
    }
  }

  /** The split index exists exactly when the list is short enough or the
      retention size is at least one, and it is then the largest index not above
      `max(0, length - retention)` that keeps calls with their responses. */
  lemma RetainStartIsOptimal(raw: seq<Event>, retention: int)
    ensures RetainStart(raw, retention).TypeError? <==> retention < 1 && |raw| > retention
    ensures RetainStart(raw, retention).At? ==>
              var k := RetainStart(raw, retention).index;
              && (k == 0 || (k < |raw| && k + retention <= |raw| && SafeSplit(raw, k)))
              && forall j: nat :: k < j < |raw| && j + retention <= |raw| ==> Conflict(raw, j)
  {
    if !SplitThrows(raw, retention) {
      LargestSafeIsOptimal(raw, Baseline(raw, retention));
    }
  }

  method CalculateRetainStartIndex(raw: seq<Event>, retention: int) returns (r: Split)
    ensures r == RetainStart(raw, retention)
    ensures r.At? ==> forall j: nat :: r.index < j < |raw| && j + retention <= |raw| ==> Conflict(raw, j)
    ensures r.At? ==> r.index == 0 || (r.index < |raw| && r.index + retention <= |raw| && !Conflict(raw, r.index))
  {
    var start: nat := if |raw| > retention then |raw| - retention else 0;
    RetainStartIsOptimal(raw, retention);
    while start > 0
      invariant start <= Baseline(raw, retention)
      invariant SplitThrows(raw, retention) ==> start == Baseline(raw, retention)
      invariant !SplitThrows(raw, retention) ==> start == 0 || start < |raw|
      invariant !SplitThrows(raw, retention) ==> LargestSafe(raw, start) == LargestSafe(raw, Baseline(raw, retention))
    {
      if start >= |raw| {
        return TypeError;
      }
      if raw[start].HasResponses() && raw[start - 1].HasCalls() {
        start := start - 1;
      } else {
        break;
      }
    }
    return At(start);
  }

  /** Cutting the list at `j` retains enough and keeps the calls of the event before the
      cut together with the responses in the event behind it. */
  ghost predicate GoodCut(raw: seq<Event>, retention: int, j: int) {
    && 0 < j < |raw| && j + retention <= |raw|
    && !((exists p :: p in raw[j - 1].parts && p.call.Some?) && (exists q :: q in raw[j].parts && q.response.Some?))
  }

  ghost predicate LastGoodCut(raw: seq<Event>, retention: int, k: int) {
    GoodCut(raw, retention, k) && forall j :: GoodCut(raw, retention, j) ==> j <= k
  }

  /** A compactor goes ahead exactly when the list has a good cut, and cuts at the last. */
  lemma SplitsIff(raw: seq<Event>, retention: int)
    requires |raw| > retention
    ensures RetainStart(raw, retention).TypeError? <==> retention < 1
    ensures RetainStart(raw, retention).At? && RetainStart(raw, retention).index > 0
       <==> retention >= 1 && exists j :: GoodCut(raw, retention, j)
    ensures RetainStart(raw, retention).At? && RetainStart(raw, retention).index > 0
        ==> LastGoodCut(raw, retention, RetainStart(raw, retention).index)
  {
    RetainStartIsOptimal(raw, retention);
    if retention >= 1 {
      var k := RetainStart(raw, retention).index;
      forall j | GoodCut(raw, retention, j) ensures j <= k {
        assert j > k ==> Conflict(raw, j);
      }
      assert k > 0 ==> GoodCut(raw, retention, k);
    }
  }

  ghost predicate Nondecreasing(s: seq<Event>) {
    forall i, j :: 0 <= i < j < |s| ==> s[i].timestamp <= s[j].timestamp
  }

  ghost predicate Increasing(s: seq<Event>) {
    forall i, j :: 0 <= i < j < |s| ==> s[i].timestamp < s[j].timestamp
  }

  lemma IncreasingGrows(history: seq<Event>, e: Event)
    requires Increasing(history)
    requires history != [] ==> history[|history| - 1].timestamp < e.timestamp
    ensures Increasing(history + [e])
  {
    forall i, j | 0 <= i < j < |history + [e]|
      ensures (history + [e])[i].timestamp < (history + [e])[j].timestamp
    {
      if j == |history| {
        assert history[i].timestamp <= history[|history| - 1].timestamp;
      }
    }
  }

  lemma CutPrefix(raw: seq<Event>, k: nat, keep: Event -> bool)
    requires k <= |raw|
    requires forall i :: 0 <= i < k ==> !keep(raw[i])
    ensures Filter(raw, keep) == Filter(raw[k..], keep)
  {
    var head, tail := raw[..k], raw[k..];
    assert raw == head + tail;
    FilterAppend(head, tail, keep);
    FilterNone(head, keep);
  }

  /** A filter keeps exactly the tail from `k` on iff it rejects every event before `k`
      and accepts every event from `k` on, in whatever order they stand. */
  lemma TailSurvivesIff(raw: seq<Event>, k: nat, keep: Event -> bool)
    requires k <= |raw|
    ensures Filter(raw, keep) == raw[k..]
       <==> (forall i :: 0 <= i < k ==> !keep(raw[i])) && (forall i :: k <= i < |raw| ==> keep(raw[i]))
  {
    var head, tail := raw[..k], raw[k..];
    assert raw == head + tail;
    FilterAppend(head, tail, keep);
    FilterMembers(head, keep);
    FilterMembers(raw, keep);
    if Filter(raw, keep) == tail {
      forall i | k <= i < |raw| ensures keep(raw[i]) {
        assert raw[i] == tail[i - k] && tail[i - k] in Filter(raw, keep);
      }
      FilterAll(tail, keep);
      assert |Filter(head, keep)| == 0;
      forall i | 0 <= i < k ensures !keep(raw[i]) {
        assert raw[i] == head[i] && head[i] in head;
      }
    } else if (forall i :: 0 <= i < k ==> !keep(raw[i])) && (forall i :: k <= i < |raw| ==> keep(raw[i])) {
      FilterNone(head, keep);
      FilterAll(tail, keep);
    }
  }

  /** Every event from the cut on is later than the last event cut off. */
  predicate RetainedAreLater(raw: seq<Event>, k: nat)
    requires 0 < k <= |raw|
  {
    forall i :: k <= i < |raw| ==> raw[k - 1].timestamp < raw[i].timestamp
  }

  /** The cut separates the list by time: nothing before it is later than the last
      event cut off, and everything from it on is. */
  predicate CleanCut(raw: seq<Event>, k: nat)
    requires 0 < k <= |raw|
  {
    RetainedAreLater(raw, k) && forall i :: 0 <= i < k ==> raw[i].timestamp <= raw[k - 1].timestamp
  }

  /** With timestamps that never decrease, only a tie at the cut is unclean. */
  lemma OrderedCutIff(raw: seq<Event>, k: nat)
    requires 0 < k < |raw| && Nondecreasing(raw)
    ensures CleanCut(raw, k) <==> raw[k - 1].timestamp < raw[k].timestamp
    ensures RetainedAreLater(raw, k) <==> raw[k - 1].timestamp < raw[k].timestamp
  {
  }
}
