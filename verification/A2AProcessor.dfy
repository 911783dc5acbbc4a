/** The run processor: open aggregations per artifact, their recency order, and what is
    emitted for each event of a stream
    (core/src/a2a/a2a_remote_agent_run_processor.ts). */
module A2AProcessor {
  import opened Wrappers
  import opened Seqs
  import opened Events
  import opened A2A

  /** `partial` is the partial marker in the event's metadata. */
  datatype A2AEvent =
    | ArtifactUpdate(partial: bool, id: string, append: bool, lastChunk: bool)
    | StatusUpdate(partial: bool, final: bool)
    | TaskSnapshot(partial: bool)
    | Message(partial: bool)

  datatype State = State(aggregations: map<string, Aggregation>, order: seq<string>)

  const INITIAL := State(map[], [])

  function OtherThan(id: string): string -> bool { (x: string) => x != id }

  function Remove(s: State, id: string): State {
    State(s.aggregations - {id}, Filter(s.order, OtherThan(id)))
  }

  function BuildAll(aggregations: map<string, Aggregation>, order: seq<string>): seq<AdkEvent> {
    if order == [] then []
    else (if order[0] in aggregations then [Build(aggregations[order[0]])] else [])
         + BuildAll(aggregations, order[1..])
  }

  /** The new state and the events emitted for one incoming event. */
  function Step(s: State, e: A2AEvent, adk: AdkEvent): (State, seq<AdkEvent>) {
    if e.partial then (s, [adk])
    else match e
      case StatusUpdate(_, final) =>
        if final then (INITIAL, BuildAll(s.aggregations, s.order) + [adk]) else (s, [adk])
      case TaskSnapshot(_) => (INITIAL, [adk])
      case Message(_) => (s, [adk])
      case ArtifactUpdate(_, id, append, lastChunk) =>
        var t := if append then s else Remove(s, id);
        if !append && lastChunk then (t, [adk.(partial := Some(false))])
        else
          var agg := Update(if id in t.aggregations then t.aggregations[id] else EMPTY, adk);
          var order := if id in t.aggregations then Filter(t.order, OtherThan(id)) else t.order;
          var u := State(t.aggregations[id := agg], order + [id]);
          if lastChunk then (Remove(u, id), [adk, Build(agg)]) else (u, [adk])
  }

  class A2ARemoteAgentRunProcessor {
    var aggregations: map<string, Aggregation>
    var aggregationOrder: seq<string>

    function Abs(): State
      reads this
    {
      State(aggregations, aggregationOrder)
    }

    constructor ()
      ensures Abs() == INITIAL
    {
      aggregations, aggregationOrder := map[], [];
    }

    method AggregatePartial(e: A2AEvent, adk: AdkEvent) returns (emitted: seq<AdkEvent>)
      modifies this
      ensures (Abs(), emitted) == Step(old(Abs()), e, adk)
    {
      if e.partial {
        return [adk];
      }
      if e.StatusUpdate? && e.final {
        emitted := [];
        for i := 0 to |aggregationOrder|
          invariant emitted + BuildAll(aggregations, aggregationOrder[i..]) == BuildAll(aggregations, aggregationOrder)
          invariant Abs() == old(Abs())
        {
          var id := aggregationOrder[i];
          assert aggregationOrder[i..][1..] == aggregationOrder[i + 1..];
          if id in aggregations {
            emitted := emitted + [Build(aggregations[id])];
          }
        }
        assert aggregationOrder[|aggregationOrder|..] == [] && emitted + [] == emitted;
        aggregations, aggregationOrder := map[], [];
        return emitted + [adk];
      }
      if e.TaskSnapshot? {
        aggregations, aggregationOrder := map[], [];
        return [adk];
      }
      if !e.ArtifactUpdate? {
        return [adk];
      }
      if !e.append {
        RemoveAggregation(e.id);
        if e.lastChunk {
          return [adk.(partial := Some(false))];
        }
      }
      var aggregation := EMPTY;
      if e.id !in aggregations {
        aggregationOrder := aggregationOrder + [e.id];
      } else {
        aggregation := aggregations[e.id];
        aggregationOrder := Filter(aggregationOrder, OtherThan(e.id));
        aggregationOrder := aggregationOrder + [e.id];
      }
      aggregation := UpdateAggregation(aggregation, adk);
      aggregations := aggregations[e.id := aggregation];
      if !e.lastChunk {
        return [adk];
      }
      RemoveAggregation(e.id);
      return [adk, Build(aggregation)];
    }

    method RemoveAggregation(id: string)
      modifies this
      ensures Abs() == Remove(old(Abs()), id)
    {
      aggregations := aggregations - {id};
      aggregationOrder := Filter(aggregationOrder, OtherThan(id));
    }

    method UpdateAggregation(before: Aggregation, event: AdkEvent) returns (agg: Aggregation)
      ensures agg == Update(before, event)
    {
      agg := before;
      for i := 0 to |event.parts|
        invariant AddParts(agg, event.parts[i..]) == AddParts(before, event.parts)
        invariant agg.citations == before.citations && agg.custom == before.custom
        invariant agg.grounding == before.grounding && agg.usage == before.usage
      {
        var part := event.parts[i];
        assert event.parts[i..][1..] == event.parts[i + 1..];
        if IsText(part) {
          if part.thought {
            agg := agg.(thoughts := agg.thoughts + part.text.value);
          } else {
            agg := agg.(text := agg.text + part.text.value);
          }
        } else {
          agg := Promote(agg);
          agg := agg.(parts := agg.parts + [part]);
        }
      }
      assert event.parts[|event.parts|..] == [];
      if event.citations.Some? {
        if agg.citations.None? {
          agg := agg.(citations := Some([]));
        }
        agg := agg.(citations := Some(agg.citations.value + event.citations.value));
      }
      if event.custom.Some? {
        if agg.custom.None? {
          agg := agg.(custom := Some(map[]));
        }
        agg := agg.(custom := Some(agg.custom.value + event.custom.value));
      }
      if event.grounding.Some? {
        agg := agg.(grounding := event.grounding);
      }
      if event.usage.Some? {
        agg := agg.(usage := event.usage);
      }
    }
  }

  // ---------------------------------------------------------------------------
  // Reference: which chunks belong to which aggregate
  // ---------------------------------------------------------------------------

  type History = seq<(A2AEvent, AdkEvent)>

  function StateAfter(h: History): State {
    if h == [] then INITIAL
    else Step(StateAfter(h[..|h| - 1]), h[|h| - 1].0, h[|h| - 1].1).0
  }

  /** What is emitted for the last event of a history. */
  function Emitted(h: History): seq<AdkEvent>
    requires h != []
  {
    Step(StateAfter(h[..|h| - 1]), h[|h| - 1].0, h[|h| - 1].1).1
  }

  /** The positions of the chunks aggregated for an artifact since its last reset. */
  function OpenChunks(h: History, id: string): seq<nat> {
    if h == [] then []
    else
      var n := |h| - 1;
      var e, before := h[n].0, OpenChunks(h[..n], id);
      if e.partial then before
      else match e
        case StatusUpdate(_, final) => if final then [] else before
        case TaskSnapshot(_) => []
        case Message(_) => before
        case ArtifactUpdate(_, id', append, lastChunk) =>
          if id' != id then before
          else if lastChunk then []
          else if append then before + [n]
          else [n]
  }

  predicate Within(chunks: seq<nat>, n: nat) {
    forall i :: 0 <= i < |chunks| ==> chunks[i] < n
  }

  ghost predicate Ascending(chunks: seq<nat>) {
    forall i, j :: 0 <= i < j < |chunks| ==> chunks[i] < chunks[j]
  }

  ghost predicate ChunksOf(h: History, chunks: seq<nat>, id: string)
    requires Within(chunks, |h|)
  {
    forall i :: 0 <= i < |chunks| ==> h[chunks[i]].0.ArtifactUpdate? && h[chunks[i]].0.id == id
  }

  function EventsAt(h: History, chunks: seq<nat>): seq<AdkEvent>
    requires Within(chunks, |h|)
  {
    seq(|chunks|, i requires 0 <= i < |chunks| => h[chunks[i]].1)
  }

  lemma {:induction false} OpenChunksAreOwn(h: History, id: string)
    ensures Within(OpenChunks(h, id), |h|)
    ensures ChunksOf(h, OpenChunks(h, id), id)
    ensures Ascending(OpenChunks(h, id))
  {
    if h != [] {
      var n, before := |h| - 1, OpenChunks(h[..|h| - 1], id);
      OpenChunksAreOwn(h[..n], id);
      assert ChunksOf(h, before, id) by {
        assert forall i :: 0 <= i < |before| ==> h[..n][before[i]] == h[before[i]];
      }
      assert OpenChunks(h, id) == [] || OpenChunks(h, id) == before
          || OpenChunks(h, id) == before + [n] || OpenChunks(h, id) == [n];
    }
  }

  /** The aggregation the history stands for. */
  function Expected(h: History, id: string): Aggregation {
    OpenChunksAreOwn(h, id);
    Fold(EMPTY, EventsAt(h, OpenChunks(h, id)))
  }

  function OpenIn(h: History): string -> seq<nat> { (id: string) => OpenChunks(h, id) }

  function ExpectedIn(h: History): string -> Aggregation { (id: string) => Expected(h, id) }

  /** The artifacts in `order` are open, and sorted by their latest chunk. */
  ghost predicate Ordered(open: string -> seq<nat>, order: seq<string>) {
    && (forall i :: 0 <= i < |order| ==> open(order[i]) != [])
    && (forall i, j :: 0 <= i < j < |order| ==> Latest(open(order[i])) < Latest(open(order[j])))
  }

  ghost function Latest(chunks: seq<nat>): nat {
    if chunks == [] then 0 else chunks[|chunks| - 1]
  }

  /** The state keeps exactly the open artifacts, each with the aggregation it should
      have, and lists each once, the most recently updated last. */
  ghost predicate Tracks(open: string -> seq<nat>, want: string -> Aggregation, s: State) {
    && (forall id :: id in s.aggregations <==> open(id) != [])
    && (forall id :: id in s.order <==> open(id) != [])
    && (forall id :: id in s.aggregations ==> s.aggregations[id] == want(id))
    && Ordered(open, s.order)
  }

  /** The history without its last event gives the same events at earlier positions. */
  lemma {:induction false} SameEvents(h: History, chunks: seq<nat>)
    requires h != [] && Within(chunks, |h| - 1)
    ensures EventsAt(h, chunks) == EventsAt(h[..|h| - 1], chunks)
  {
  }

  lemma {:induction false} UntouchedArtifact(h: History, id: string)
    requires h != [] && OpenChunks(h, id) == OpenChunks(h[..|h| - 1], id)
    ensures Expected(h, id) == Expected(h[..|h| - 1], id)
  {
    OpenChunksAreOwn(h[..|h| - 1], id);
    SameEvents(h, OpenChunks(h, id));
  }

  lemma FoldLast(chunks: seq<AdkEvent>, e: AdkEvent)
    ensures Fold(EMPTY, chunks + [e]) == Update(Fold(EMPTY, chunks), e)
  {
    assert (chunks + [e])[..|chunks|] == chunks;
  }

  lemma OrderedCons(open: string -> seq<nat>, head: string, rest: seq<string>)
    requires Ordered(open, rest) && open(head) != []
    requires forall i :: 0 <= i < |rest| ==> Latest(open(head)) < Latest(open(rest[i]))
    ensures Ordered(open, [head] + rest)
  {
  }

  lemma {:induction false} FilterKeepsRank(open: string -> seq<nat>, order: seq<string>, id: string)
    requires Ordered(open, order)
    ensures Ordered(open, Filter(order, OtherThan(id)))
  {
    if order != [] {
      var rest := Filter(order[1..], OtherThan(id));
      FilterKeepsRank(open, order[1..], id);
      FilterMembers(order[1..], OtherThan(id));
      forall i | 0 <= i < |rest| ensures Latest(open(order[0])) < Latest(open(rest[i])) {
        assert rest[i] in rest;
        var j :| 0 <= j < |order[1..]| && order[1..][j] == rest[i];
      }
      OrderedCons(open, order[0], rest);
    }
  }

  ghost predicate SameExcept(open: string -> seq<nat>, open': string -> seq<nat>,
                             want: string -> Aggregation, want': string -> Aggregation, id: string) {
    forall x :: x != id ==> open'(x) == open(x) && want'(x) == want(x)
  }

  /** One artifact is closed, the others are untouched. */
  lemma CloseTracks(open: string -> seq<nat>, open': string -> seq<nat>,
                    want: string -> Aggregation, want': string -> Aggregation, s: State, t: State, id: string)
    requires Tracks(open, want, s) && SameExcept(open, open', want, want', id) && open'(id) == []
    requires t.aggregations == s.aggregations - {id} && t.order == Filter(s.order, OtherThan(id))
    ensures Tracks(open', want', t)
  {
    FilterMembers(s.order, OtherThan(id));
    FilterKeepsRank(open, s.order, id);
    assert forall i :: 0 <= i < |t.order| ==> t.order[i] in t.order;
  }

  lemma OrderGrows(open: string -> seq<nat>, open': string -> seq<nat>, kept: seq<string>, id: string, n: nat)
    requires Ordered(open, kept) && open'(id) != [] && Latest(open'(id)) == n
    requires forall i :: 0 <= i < |kept| ==> open'(kept[i]) == open(kept[i]) && Latest(open(kept[i])) < n
    ensures Ordered(open', kept + [id])
  {
  }

  /** One artifact gets its latest chunk and moves to the end of the order. */
  lemma GrowTracks(open: string -> seq<nat>, open': string -> seq<nat>,
                   want: string -> Aggregation, want': string -> Aggregation, s: State, t: State, id: string, n: nat)
    requires Tracks(open, want, s) && SameExcept(open, open', want, want', id)
    requires open'(id) != [] && Latest(open'(id)) == n && forall x :: open(x) != [] ==> Latest(open(x)) < n
    requires t.aggregations == s.aggregations[id := want'(id)]
    requires t.order == Filter(s.order, OtherThan(id)) + [id]
    ensures Tracks(open', want', t)
  {
    var kept := Filter(s.order, OtherThan(id));
    FilterMembers(s.order, OtherThan(id));
    FilterKeepsRank(open, s.order, id);
    forall i | 0 <= i < |kept| ensures open'(kept[i]) == open(kept[i]) && Latest(open(kept[i])) < n {
      assert kept[i] in kept;
    }
    OrderGrows(open, open', kept, id, n);
    assert forall x :: x in t.order <==> x in kept || x == id;
  }

  lemma SameTracks(open: string -> seq<nat>, open': string -> seq<nat>,
                   want: string -> Aggregation, want': string -> Aggregation, s: State)
    requires Tracks(open, want, s) && forall id :: open'(id) == open(id) && want'(id) == want(id)
    ensures Tracks(open', want', s)
  {
  }

  /** The last event leaves every artifact but one alone. */
  lemma {:induction false} OnlyTouches(h: History, id: string)
    requires h != [] && forall x :: x != id ==> OpenChunks(h, x) == OpenChunks(h[..|h| - 1], x)
    ensures var g := h[..|h| - 1];
            SameExcept(OpenIn(g), OpenIn(h), ExpectedIn(g), ExpectedIn(h), id)
  {
    forall x | x != id ensures Expected(h, x) == Expected(h[..|h| - 1], x) {
      UntouchedArtifact(h, x);
    }
  }

  lemma {:induction false} PassThroughTracks(h: History)
    requires h != [] && Tracks(OpenIn(h[..|h| - 1]), ExpectedIn(h[..|h| - 1]), StateAfter(h[..|h| - 1]))
    requires var e := h[|h| - 1].0; e.partial || e.Message? || (e.StatusUpdate? && !e.final)
    ensures Tracks(OpenIn(h), ExpectedIn(h), StateAfter(h))
  {
    var g := h[..|h| - 1];
    forall x ensures OpenChunks(h, x) == OpenChunks(g, x) && Expected(h, x) == Expected(g, x) {
      UntouchedArtifact(h, x);
    }
    SameTracks(OpenIn(g), OpenIn(h), ExpectedIn(g), ExpectedIn(h), StateAfter(g));
  }

  lemma {:induction false} ResetTracks(h: History)
    requires h != []
    requires var e := h[|h| - 1].0; !e.partial && (e.TaskSnapshot? || (e.StatusUpdate? && e.final))
    ensures Tracks(OpenIn(h), ExpectedIn(h), StateAfter(h))
  {
    assert forall x :: OpenChunks(h, x) == [];
  }

  /** The order after an artifact update that leaves the artifact open or closes it. */
  lemma OrderAfterUpdate(s: State, id: string, append: bool)
    requires forall x :: x in s.aggregations <==> x in s.order
    ensures var t := if append then s else Remove(s, id);
            (if id in t.aggregations then Filter(t.order, OtherThan(id)) else t.order) == Filter(s.order, OtherThan(id))
    ensures Filter(Filter(s.order, OtherThan(id)) + [id], OtherThan(id)) == Filter(s.order, OtherThan(id))
  {
    var kept := Filter(s.order, OtherThan(id));
    if id !in s.aggregations {
      FilterAll(s.order, OtherThan(id));
    }
    FilterMembers(s.order, OtherThan(id));
    FilterAppend(kept, [id], OtherThan(id));
    FilterAll(kept, OtherThan(id));
    assert Filter([id], OtherThan(id)) == [] && kept + [] == kept;
  }

  /** The aggregation after an update is the one the history stands for. */
  lemma {:induction false} UpdatedAggregation(h: History)
    requires h != [] && h[|h| - 1].0.ArtifactUpdate? && !h[|h| - 1].0.partial
    requires Tracks(OpenIn(h[..|h| - 1]), ExpectedIn(h[..|h| - 1]), StateAfter(h[..|h| - 1]))
    ensures var g, e := h[..|h| - 1], h[|h| - 1].0;
            var t := if e.append then StateAfter(g) else Remove(StateAfter(g), e.id);
            Fold(EMPTY, ChunkEvents(h))
            == Update(if e.id in t.aggregations then t.aggregations[e.id] else EMPTY, h[|h| - 1].1)
  {
    var n, e := |h| - 1, h[|h| - 1].0;
    var before := OpenChunks(h[..n], e.id);
    OpenChunksAreOwn(h[..n], e.id);
    SameEvents(h, before);
    if e.append {
      assert EventsAt(h, before + [n]) == EventsAt(h, before) + [h[n].1];
      FoldLast(EventsAt(h, before), h[n].1);
      assert Expected(h[..n], e.id) == Fold(EMPTY, EventsAt(h, before));
      assert e.id in StateAfter(h[..n]).aggregations <==> OpenIn(h[..n])(e.id) != [];
    } else {
      assert EventsAt(h, [n]) == [] + [h[n].1];
      FoldLast([], h[n].1);
    }
  }

  /** The chunks of an artifact up to and including its update at the end. */
  function ChunksThrough(h: History): seq<nat>
    requires h != [] && h[|h| - 1].0.ArtifactUpdate?
  {
    var n, e := |h| - 1, h[|h| - 1].0;
    (if e.append then OpenChunks(h[..n], e.id) else []) + [n]
  }

  function ChunkEvents(h: History): seq<AdkEvent>
    requires h != [] && h[|h| - 1].0.ArtifactUpdate?
  {
    OpenChunksAreOwn(h[..|h| - 1], h[|h| - 1].0.id);
    EventsAt(h, ChunksThrough(h))
  }

  /** A step that closes an artifact. */
  lemma ClosingStep(s: State, e: A2AEvent, adk: AdkEvent)
    requires e.ArtifactUpdate? && !e.partial && e.lastChunk
    requires forall x :: x in s.aggregations <==> x in s.order
    ensures var t := Step(s, e, adk).0;
            && t.aggregations == s.aggregations - {e.id}
            && t.order == Filter(s.order, OtherThan(e.id))
  {
    OrderAfterUpdate(s, e.id, e.append);
  }

  lemma {:induction false} ClosingTracks(h: History)
    requires h != [] && h[|h| - 1].0.ArtifactUpdate? && !h[|h| - 1].0.partial && h[|h| - 1].0.lastChunk
    requires Tracks(OpenIn(h[..|h| - 1]), ExpectedIn(h[..|h| - 1]), StateAfter(h[..|h| - 1]))
    ensures Tracks(OpenIn(h), ExpectedIn(h), StateAfter(h))
  {
    var g, e := h[..|h| - 1], h[|h| - 1].0;
    var s, t := StateAfter(g), StateAfter(h);
    OnlyTouches(h, e.id);
    ClosingStep(s, e, h[|h| - 1].1);
    CloseTracks(OpenIn(g), OpenIn(h), ExpectedIn(g), ExpectedIn(h), s, t, e.id);
  }

  lemma {:induction false} EarlierChunks(g: History)
    ensures forall x :: OpenIn(g)(x) != [] ==> Latest(OpenIn(g)(x)) < |g|
  {
    forall x | OpenIn(g)(x) != [] ensures Latest(OpenIn(g)(x)) < |g| {
      OpenChunksAreOwn(g, x);
    }
  }

  /** A step that keeps an artifact open. */
  lemma GrowthStep(s: State, e: A2AEvent, adk: AdkEvent)
    requires e.ArtifactUpdate? && !e.partial && !e.lastChunk
    requires forall x :: x in s.aggregations <==> x in s.order
    ensures var t, u := Step(s, e, adk).0, if e.append then s else Remove(s, e.id);
            && t.order == Filter(s.order, OtherThan(e.id)) + [e.id]
            && t.aggregations
               == s.aggregations[e.id := Update(if e.id in u.aggregations then u.aggregations[e.id] else EMPTY, adk)]
  {
    OrderAfterUpdate(s, e.id, e.append);
  }

  lemma {:induction false} StateAfterGrowth(h: History)
    requires h != [] && h[|h| - 1].0.ArtifactUpdate? && !h[|h| - 1].0.partial && !h[|h| - 1].0.lastChunk
    requires Tracks(OpenIn(h[..|h| - 1]), ExpectedIn(h[..|h| - 1]), StateAfter(h[..|h| - 1]))
    ensures var s, t, e := StateAfter(h[..|h| - 1]), StateAfter(h), h[|h| - 1].0;
            && t.aggregations == s.aggregations[e.id := Expected(h, e.id)]
            && t.order == Filter(s.order, OtherThan(e.id)) + [e.id]
  {
    var n := |h| - 1;
    GrowthStep(StateAfter(h[..n]), h[n].0, h[n].1);
    UpdatedAggregation(h);
    assert OpenChunks(h, h[n].0.id) == ChunksThrough(h);
  }

  lemma {:induction false} GrowingTracks(h: History)
    requires h != [] && h[|h| - 1].0.ArtifactUpdate? && !h[|h| - 1].0.partial && !h[|h| - 1].0.lastChunk
    requires Tracks(OpenIn(h[..|h| - 1]), ExpectedIn(h[..|h| - 1]), StateAfter(h[..|h| - 1]))
    ensures Tracks(OpenIn(h), ExpectedIn(h), StateAfter(h))
  {
    var n, g, e := |h| - 1, h[..|h| - 1], h[|h| - 1].0;
    OnlyTouches(h, e.id);
    StateAfterGrowth(h);
    EarlierChunks(g);
    assert OpenChunks(h, e.id) == ChunksThrough(h);
    GrowTracks(OpenIn(g), OpenIn(h), ExpectedIn(g), ExpectedIn(h), StateAfter(g), StateAfter(h), e.id, n);
  }

  lemma {:induction false} LastEventTracks(h: History)
    requires h != [] && Tracks(OpenIn(h[..|h| - 1]), ExpectedIn(h[..|h| - 1]), StateAfter(h[..|h| - 1]))
    ensures Tracks(OpenIn(h), ExpectedIn(h), StateAfter(h))
  {
    var e := h[|h| - 1].0;
    if e.partial || e.Message? || (e.StatusUpdate? && !e.final) {
      PassThroughTracks(h);
    } else if !e.ArtifactUpdate? {
      ResetTracks(h);
    } else if e.lastChunk {
      ClosingTracks(h);
    } else {
      GrowingTracks(h);
    }
  }

  lemma OrderedIsDuplicateFree(open: string -> seq<nat>, order: seq<string>)
    requires Ordered(open, order)
    ensures NoDuplicates(order)
  {
  }

  /** Over every event stream: the map holds exactly the open artifacts, each with the
      fold of its chunks since its last reset; the order list has the same ids, each
      once, sorted by most recent update. */
  lemma {:induction false} StateTracksHistory(h: History)
    ensures Tracks(OpenIn(h), ExpectedIn(h), StateAfter(h))
    ensures NoDuplicates(StateAfter(h).order)
  {
    if h == [] {
      EmptyTracks();
    } else {
      StateTracksHistory(h[..|h| - 1]);
      LastEventTracks(h);
    }
    OrderedIsDuplicateFree(OpenIn(h), StateAfter(h).order);
  }

  lemma EmptyTracks()
    ensures Tracks(OpenIn([]), ExpectedIn([]), StateAfter([]))
  {
  }

  // ---------------------------------------------------------------------------
  // What is emitted
  // ---------------------------------------------------------------------------

  /** The chunk positions behind each aggregate emitted for the last event. */
  function AggregatedAt(h: History): seq<seq<nat>>
    requires h != []
  {
    var g, e := h[..|h| - 1], h[|h| - 1].0;
    if e.partial then []
    else match e
      case StatusUpdate(_, final) => if final then ChunkLists(g, StateAfter(g).order) else []
      case ArtifactUpdate(_, _, append, lastChunk) => if append && lastChunk then [ChunksThrough(h)] else []
      case _ => []
  }

  function ChunkLists(g: History, order: seq<string>): seq<seq<nat>> {
    seq(|order|, i requires 0 <= i < |order| => OpenChunks(g, order[i]))
  }

  function Aggregates(h: History, lists: seq<seq<nat>>): seq<AdkEvent>
    requires forall i :: 0 <= i < |lists| ==> Within(lists[i], |h|)
  {
    seq(|lists|, i requires 0 <= i < |lists| => Build(Fold(EMPTY, EventsAt(h, lists[i]))))
  }

  lemma {:induction false} BuildAllIs(aggregations: map<string, Aggregation>, order: seq<string>)
    requires forall i :: 0 <= i < |order| ==> order[i] in aggregations
    ensures |BuildAll(aggregations, order)| == |order|
    ensures forall i :: 0 <= i < |order| ==> BuildAll(aggregations, order)[i] == Build(aggregations[order[i]])
    decreases |order|
  {
    if order != [] {
      BuildAllIs(aggregations, order[1..]);
    }
  }

  lemma {:induction false} AggregatedWithin(h: History)
    requires h != []
    ensures forall i :: 0 <= i < |AggregatedAt(h)| ==> Within(AggregatedAt(h)[i], |h|) && AggregatedAt(h)[i] != []
  {
    var n, g, e := |h| - 1, h[..|h| - 1], h[|h| - 1].0;
    StateTracksHistory(g);
    forall x ensures Within(OpenChunks(g, x), n) {
      OpenChunksAreOwn(g, x);
    }
  }

  /** The aggregates due for the last event, each built from its chunks. */
  function AggregatesAt(h: History): seq<AdkEvent>
    requires h != []
  {
    AggregatedWithin(h);
    Aggregates(h, AggregatedAt(h))
  }

  /** The aggregation kept for an open artifact is the one its chunks stand for. */
  lemma {:induction false} KeptForChunks(h: History, id: string)
    requires h != [] && Tracks(OpenIn(h[..|h| - 1]), ExpectedIn(h[..|h| - 1]), StateAfter(h[..|h| - 1]))
    requires id in StateAfter(h[..|h| - 1]).aggregations
    requires Within(OpenChunks(h[..|h| - 1], id), |h|)
    ensures StateAfter(h[..|h| - 1]).aggregations[id] == Fold(EMPTY, EventsAt(h, OpenChunks(h[..|h| - 1], id)))
  {
    var g := h[..|h| - 1];
    OpenChunksAreOwn(g, id);
    SameEvents(h, OpenChunks(g, id));
    assert StateAfter(g).aggregations[id] == ExpectedIn(g)(id);
  }

  /** Building all kept aggregations gives the aggregates of the open chunks. */
  lemma {:induction false} FlushIs(h: History)
    requires h != [] && Tracks(OpenIn(h[..|h| - 1]), ExpectedIn(h[..|h| - 1]), StateAfter(h[..|h| - 1]))
    requires var g := h[..|h| - 1];
             forall i :: 0 <= i < |StateAfter(g).order| ==> Within(ChunkLists(g, StateAfter(g).order)[i], |h|)
    ensures var g := h[..|h| - 1];
            BuildAll(StateAfter(g).aggregations, StateAfter(g).order)
            == Aggregates(h, ChunkLists(g, StateAfter(g).order))
  {
    var g := h[..|h| - 1];
    var s := StateAfter(g);
    assert forall i :: 0 <= i < |s.order| ==> s.order[i] in s.order;
    BuildAllIs(s.aggregations, s.order);
    forall i | 0 <= i < |s.order|
      ensures BuildAll(s.aggregations, s.order)[i] == Aggregates(h, ChunkLists(g, s.order))[i]
    {
      assert ChunkLists(g, s.order)[i] == OpenChunks(g, s.order[i]);
      KeptForChunks(h, s.order[i]);
    }
  }

  /** A final status emits one aggregate per open artifact, in order of latest update,
      then itself. */
  lemma {:induction false} FinalStatusFlushes(h: History)
    requires h != [] && h[|h| - 1].0 == StatusUpdate(false, true)
    ensures StateAfter(h) == INITIAL
    ensures |AggregatedAt(h)| == |StateAfter(h[..|h| - 1]).order|
    ensures Emitted(h) == AggregatesAt(h) + [h[|h| - 1].1]
  {
    StateTracksHistory(h[..|h| - 1]);
    AggregatedWithin(h);
    assert AggregatedAt(h) == ChunkLists(h[..|h| - 1], StateAfter(h[..|h| - 1]).order);
    FlushIs(h);
  }

  /** An appended last chunk emits itself and then the aggregate of all its artifact's
      chunks. */
  lemma {:induction false} LastChunkEmits(h: History)
    requires h != [] && h[|h| - 1].0.ArtifactUpdate? && !h[|h| - 1].0.partial
    requires h[|h| - 1].0.append && h[|h| - 1].0.lastChunk
    ensures Emitted(h) == [h[|h| - 1].1] + AggregatesAt(h)
  {
    StateTracksHistory(h[..|h| - 1]);
    UpdatedAggregation(h);
    LastChunkStep(StateAfter(h[..|h| - 1]), h[|h| - 1].0, h[|h| - 1].1);
    OnlyAggregate(h);
  }

  lemma {:induction false} OnlyAggregate(h: History)
    requires h != [] && h[|h| - 1].0.ArtifactUpdate? && !h[|h| - 1].0.partial
    requires h[|h| - 1].0.append && h[|h| - 1].0.lastChunk
    ensures AggregatesAt(h) == [Build(Fold(EMPTY, ChunkEvents(h)))]
  {
    AggregatedWithin(h);
    assert AggregatedAt(h) == [ChunksThrough(h)];
  }

  lemma LastChunkStep(s: State, e: A2AEvent, adk: AdkEvent)
    requires e.ArtifactUpdate? && !e.partial && e.append && e.lastChunk
    ensures Step(s, e, adk).1
         == [adk] + [Build(Update(if e.id in s.aggregations then s.aggregations[e.id] else EMPTY, adk))]
  {
  }

  predicate IsFlush(e: A2AEvent) { e.StatusUpdate? && e.final && !e.partial }

  /** An artifact that arrives whole, in one chunk. */
  predicate IsWhole(e: A2AEvent) { e.ArtifactUpdate? && !e.append && e.lastChunk && !e.partial }

  /** Whatever came before, an event is passed on exactly once: after the aggregates
      it flushes when it is a final status, before the aggregate it completes
      otherwise. Only an artifact arriving whole is marked complete itself. */
  lemma {:induction false} EveryEventIsPassedOn(h: History)
    requires h != []
    ensures var (e, adk) := h[|h| - 1];
            Emitted(h) == if IsFlush(e) then AggregatesAt(h) + [adk]
                          else [if IsWhole(e) then adk.(partial := Some(false)) else adk] + AggregatesAt(h)
  {
    var e := h[|h| - 1].0;
    if IsFlush(e) {
      FinalStatusFlushes(h);
    } else if e.ArtifactUpdate? && !e.partial && e.append && e.lastChunk {
      LastChunkEmits(h);
    } else {
      assert AggregatedAt(h) == [];
    }
  }

  // ---------------------------------------------------------------------------
  // No chunk in two aggregates
  // ---------------------------------------------------------------------------

  /** Position `c` is a chunk still open at the end of the history. */
  ghost predicate StillOpen(h: History, c: nat) {
    c < |h| && h[c].0.ArtifactUpdate? && c in OpenChunks(h, h[c].0.id)
  }

  /** Position `c` is in one of the aggregates emitted for the last event. */
  ghost predicate InAggregate(h: History, c: nat)
    requires h != []
  {
    exists i :: 0 <= i < |AggregatedAt(h)| && c in AggregatedAt(h)[i]
  }

  lemma {:induction false} OpenPositions(h: History, id: string, c: nat)
    requires c in OpenChunks(h, id)
    ensures c < |h| && h[c].0.ArtifactUpdate? && h[c].0.id == id
  {
    OpenChunksAreOwn(h, id);
    var i :| 0 <= i < |OpenChunks(h, id)| && OpenChunks(h, id)[i] == c;
  }

  /** A chunk that goes into an aggregate was open before the event or is the event
      itself, and is closed after it. */
  lemma {:induction false} AggregatingCloses(h: History, c: nat)
    requires h != [] && InAggregate(h, c)
    ensures c < |h| && (c == |h| - 1 || StillOpen(h[..|h| - 1], c)) && !StillOpen(h, c)
  {
    var n, g, e := |h| - 1, h[..|h| - 1], h[|h| - 1].0;
    var i :| 0 <= i < |AggregatedAt(h)| && c in AggregatedAt(h)[i];
    if e.StatusUpdate? {
      OpenPositions(g, StateAfter(g).order[i], c);
      assert h[c] == g[c];
    } else if c != n {
      OpenPositions(g, e.id, c);
      assert h[c] == g[c];
    }
  }

  /** Once closed, or not yet there, an earlier chunk never opens again. */
  lemma {:induction false} ClosedStaysClosed(h: History, c: nat)
    requires h != [] && c < |h| - 1 && StillOpen(h, c)
    ensures StillOpen(h[..|h| - 1], c)
  {
    assert h[..|h| - 1][c] == h[c];
  }

  lemma {:induction false} ClosedForGood(h: History, m: nat, c: nat)
    requires c < m <= |h| && !StillOpen(h[..m], c)
    ensures !StillOpen(h, c)
  {
    if m == |h| {
      assert h[..m] == h;
    } else {
      var g := h[..|h| - 1];
      assert g[..m] == h[..m];
      ClosedForGood(g, m, c);
      if StillOpen(h, c) {
        ClosedStaysClosed(h, c);
      }
    }
  }

  /** No chunk's parts are ever in two aggregates: neither in aggregates emitted for
      different events nor in two aggregates of one event. */
  lemma {:induction false} NoChunkInTwoAggregates(h: History, m: nat, c: nat)
    requires 0 < m < |h| && InAggregate(h[..m], c)
    ensures !InAggregate(h, c)
  {
    AggregatingCloses(h[..m], c);
    if InAggregate(h, c) {
      AggregatingCloses(h, c);
      assert h[..|h| - 1][..m] == h[..m];
      ClosedForGood(h[..|h| - 1], m, c);
    }
  }

  lemma {:induction false} AggregatesOfOneEventAreDisjoint(h: History, i: nat, j: nat, c: nat)
    requires h != [] && i < j < |AggregatedAt(h)|
    requires c in AggregatedAt(h)[i]
    ensures c !in AggregatedAt(h)[j]
  {
    var g := h[..|h| - 1];
    var order := StateAfter(g).order;
    StateTracksHistory(g);
    OpenPositions(g, order[i], c);
    if c in AggregatedAt(h)[j] {
      OpenPositions(g, order[j], c);
    }
  }
}
