/** Accumulation of the parts of a streamed interaction
    (core/src/models/interactions_utils.ts). */
module Interactions {
  import opened Wrappers
  import opened Seqs
  import opened JsMaps
  import opened Events

  datatype StepKind =
    | FunctionCallStep(id: Option<string>, name: string, signature: string)
    | ThoughtStep(signature: string)
    | OtherStep

  datatype Delta =
    | TextDelta(text: string)
    | ArgumentsDelta(arguments: string)
    | SignatureDelta(signature: string)
    | MediaDelta(data: string, uri: string, mimeType: string)
    | OtherDelta

  datatype Failure = Failure(code: string, message: string)

  datatype Body =
    | StepStart(step: StepKind)
    | StepDelta(delta: Delta)
    | StepStop
    | Completed
    | StatusUpdate(status: string, error: Option<Failure>)
    | ErrorEvent(failure: Failure)
    | OtherEvent

  /** A server event; an empty `interactionId` means it carries none. */
  datatype SseEvent = SseEvent(interactionId: string, body: Body)

  datatype LlmResponse = LlmResponse(parts: Option<seq<Part>>, partial: bool, turnComplete: bool,
                                     stopped: bool, failure: Option<Failure>, interactionId: string)

  type Args = JsMap<string, Json>

  function NonEmpty(s: string): Option<string> { if s == "" then None else Some(s) }

  /** A part whose step has not stopped yet. */
  function IsOpen(): Part -> bool { (p: Part) => p.openArgs.Some? }

  function IsOpenCall(): Part -> bool { (p: Part) => p.openArgs.Some? && p.call.Some? }

  function IsOpenCallOrThought(): Part -> bool { (p: Part) => p.openArgs.Some? && (p.thought || p.call.Some?) }

  /** The position of the last part that satisfies `p`, or the length if none does. */
  function LastIndex(parts: seq<Part>, p: Part -> bool): (i: nat)
    ensures i <= |parts|
    ensures i < |parts| ==> p(parts[i])
    ensures forall j :: (if i == |parts| then 0 else i + 1) <= j < |parts| ==> !p(parts[j])
  {
    if parts == [] then 0
    else
      var n := |parts| - 1;
      if p(parts[n]) then n
      else
        var i := LastIndex(parts[..n], p);
        if i == n then n + 1 else i
  }

  method FindLastPart(parts: seq<Part>, p: Part -> bool) returns (i: nat)
    ensures i == LastIndex(parts, p)
  {
    i := |parts|;
    assert parts[..i] == parts;
    while i > 0
      invariant 0 <= i <= |parts|
      invariant LastIndex(parts, p) == if LastIndex(parts[..i], p) == i then |parts| else LastIndex(parts[..i], p)
    {
      i := i - 1;
      assert parts[..i + 1][..i] == parts[..i];
      if p(parts[i]) {
        return i;
      }
    }
    return |parts|;
  }

  function StartPart(step: StepKind): seq<Part> {
    match step
    case FunctionCallStep(id, name, signature) =>
      [EMPTY_PART.(call := Some(FunctionCall(id, name, [])), signature := NonEmpty(signature), openArgs := Some(""))]
    case ThoughtStep(signature) =>
      [EMPTY_PART.(thought := true, signature := NonEmpty(signature), openArgs := Some(""))]
    case OtherStep => []
  }

  /** The part a text or media delta adds. */
  function AddedBy(delta: Delta): seq<Part> {
    match delta
    case TextDelta(text) => if text == "" then [] else [EMPTY_PART.(text := Some(text))]
    case MediaDelta(data, uri, mimeType) =>
      if data != "" then [EMPTY_PART.(media := Some(Inline(data, mimeType)))]
      else if uri != "" then [EMPTY_PART.(media := Some(File(uri, mimeType)))]
      else []
    case _ => []
  }

  /** The arguments of a finished call: an empty or malformed text gives no arguments. */
  function ArgsOf(text: string, parse: string -> Option<Args>): Args {
    if text == "" then [] else match parse(text) case Some(args) => args case None => []
  }

  function Finish(p: Part, parse: string -> Option<Args>): Part
    requires p.openArgs.Some?
  {
    if p.call.Some? then p.(call := Some(p.call.value.(args := ArgsOf(p.openArgs.value, parse))), openArgs := None)
    else p.(openArgs := None)
  }

  function Whole(parts: seq<Part>, id: string): LlmResponse {
    LlmResponse(if parts == [] then None else Some(parts), false, true, true, None, id)
  }

  function Piece(p: Part, partial: bool, id: string): LlmResponse {
    LlmResponse(Some([p]), partial, false, false, None, id)
  }

  function Failed(f: Failure, id: string): LlmResponse {
    LlmResponse(None, false, true, false, Some(f), id)
  }

  /** The aggregated parts after an event, and the response it yields, if any. */
  function Convert(parts: seq<Part>, body: Body, id: string, parse: string -> Option<Args>)
    : (seq<Part>, seq<LlmResponse>)
  {
    match body
    case StepStart(step) => (parts + StartPart(step), [])
    case StepDelta(delta) =>
      (match delta
       case TextDelta(_) | MediaDelta(_, _, _) =>
         var added := AddedBy(delta);
         (parts + added, if added == [] then [] else [Piece(added[0], delta.TextDelta?, id)])
       case ArgumentsDelta(arguments) =>
         var i := LastIndex(parts, IsOpenCall());
         (if i == |parts| then parts
          else parts[i := parts[i].(openArgs := Some(parts[i].openArgs.value + arguments))], [])
       case SignatureDelta(signature) =>
         var i := LastIndex(parts, IsOpenCallOrThought());
         (if i == |parts| || signature == "" then parts else parts[i := parts[i].(signature := Some(signature))], [])
       case OtherDelta => (parts, []))
    case StepStop =>
      var i := LastIndex(parts, IsOpen());
      if i == |parts| then (parts, [])
      else
        var p := Finish(parts[i], parse);
        (parts[i := p], if p.call.Some? then [Piece(p, false, id)] else [])
    case Completed => (parts, [Whole(parts, id)])
    case StatusUpdate(status, error) =>
      if status == "completed" || status == "requires_action" then (parts, [Whole(parts, id)])
      else if status == "failed" then
        (parts, [Failed(if error.Some? then error.value else Failure("UNKNOWN_ERROR", "Unknown error"), id)])
      else (parts, [])
    case ErrorEvent(failure) =>
      (parts, [Failed(Failure(if failure.code == "" then "UNKNOWN_ERROR" else failure.code,
                              if failure.message == "" then "Unknown error" else failure.message), id)])
    case OtherEvent => (parts, [])
  }

  /** The state of the stream loop: the parts so far, the last interaction id seen and
      the responses yielded. */
  datatype Stream = Stream(parts: seq<Part>, id: string, responses: seq<LlmResponse>)

  function Advance(s: Stream, e: SseEvent, parse: string -> Option<Args>): Stream {
    var id := if e.interactionId != "" then e.interactionId else s.id;
    var (parts, yielded) := Convert(s.parts, e.body, id, parse);
    Stream(parts, id, s.responses + yielded)
  }

  function Run(s: Stream, events: seq<SseEvent>, parse: string -> Option<Args>): Stream
    decreases |events|
  {
    if events == [] then s else Run(Advance(s, events[0], parse), events[1..], parse)
  }

  function Begin(previousId: string): Stream { Stream([], previousId, []) }

  /** Everything the streaming call yields. */
  function Output(previousId: string, events: seq<SseEvent>, parse: string -> Option<Args>): seq<LlmResponse> {
    var s := Run(Begin(previousId), events, parse);
    s.responses + if s.parts == [] then [] else [Whole(s.parts, s.id)]
  }

  /** The list of parts the converter mutates. */
  class Aggregate {
    var parts: seq<Part>

    constructor ()
      ensures parts == []
    {
      parts := [];
    }

    method ConvertInteractionEvent(body: Body, id: string, parse: string -> Option<Args>)
      returns (yielded: seq<LlmResponse>)
      modifies this
      ensures (parts, yielded) == Convert(old(parts), body, id, parse)
    {
      yielded := [];
      match body {
        case StepStart(step) =>
          parts := parts + StartPart(step);
        case StepDelta(delta) =>
          yielded := ApplyDelta(delta, id, parse);
        case StepStop =>
          var i := FindLastPart(parts, IsOpen());
          if i < |parts| {
            var p := parts[i];
            if p.call.Some? {
              var args := ArgsOf(p.openArgs.value, parse);
              p := p.(call := Some(p.call.value.(args := args)), openArgs := None);
              parts := parts[i := p];
              yielded := [Piece(p, false, id)];
            } else {
              parts := parts[i := p.(openArgs := None)];
            }
          }
        case Completed =>
          yielded := [Whole(parts, id)];
        case StatusUpdate(status, error) =>
          if status == "completed" || status == "requires_action" {
            yielded := [Whole(parts, id)];
          } else if status == "failed" {
            yielded := [Failed(if error.Some? then error.value else Failure("UNKNOWN_ERROR", "Unknown error"), id)];
          }
        case ErrorEvent(failure) =>
          yielded := [Failed(Failure(if failure.code == "" then "UNKNOWN_ERROR" else failure.code,
                                     if failure.message == "" then "Unknown error" else failure.message), id)];
        case OtherEvent =>
      }
    }

    method ApplyDelta(delta: Delta, id: string, ghost parse: string -> Option<Args>)
      returns (yielded: seq<LlmResponse>)
      modifies this
      ensures (parts, yielded) == Convert(old(parts), StepDelta(delta), id, parse)
    {
      yielded := [];
      match delta {
        case TextDelta(_) | MediaDelta(_, _, _) =>
          var added := AddedBy(delta);
          assert parts + [] == parts;
          if added != [] {
            parts := parts + added;
            yielded := [Piece(added[0], delta.TextDelta?, id)];
          }
        case ArgumentsDelta(arguments) =>
          var i := FindLastPart(parts, IsOpenCall());
          if i < |parts| {
            parts := parts[i := parts[i].(openArgs := Some(parts[i].openArgs.value + arguments))];
          }
        case SignatureDelta(signature) =>
          var i := FindLastPart(parts, IsOpenCallOrThought());
          if i < |parts| && signature != "" {
            parts := parts[i := parts[i].(signature := Some(signature))];
          }
        case OtherDelta =>
      }
    }
  }

  /** The streaming loop of the interactions call. */
  method GenerateStreaming(previousId: string, events: seq<SseEvent>, parse: string -> Option<Args>)
    returns (responses: seq<LlmResponse>)
    ensures responses == Output(previousId, events, parse)
  {
    var aggregate := new Aggregate();
    var id := previousId;
    responses := [];
    for i := 0 to |events|
      invariant fresh(aggregate)
      invariant Run(Stream(aggregate.parts, id, responses), events[i..], parse) == Run(Begin(previousId), events, parse)
    {
      assert events[i..][1..] == events[i + 1..];
      if events[i].interactionId != "" {
        id := events[i].interactionId;
      }
      var yielded := aggregate.ConvertInteractionEvent(events[i].body, id, parse);
      responses := responses + yielded;
    }
    if aggregate.parts != [] {
      responses := responses + [Whole(aggregate.parts, id)];
    }
  }

  // ---------------------------------------------------------------------------
  // Content is neither lost nor repeated
  // ---------------------------------------------------------------------------

  datatype Content = TextContent(text: string) | MediaContent(media: Media)

  /** The content the server sends with an event. */
  function ReceivedBy(body: Body): seq<Content> {
    match body
    case StepDelta(TextDelta(text)) => if |text| > 0 then [TextContent(text)] else []
    case StepDelta(MediaDelta(data, uri, mimeType)) =>
      if |data| > 0 then [MediaContent(Inline(data, mimeType))]
      else if |uri| > 0 then [MediaContent(File(uri, mimeType))]
      else []
    case _ => []
  }

  /** The failure the server reports with an event. */
  function ReportedBy(body: Body): seq<Failure> {
    match body
    case StatusUpdate("failed", Some(failure)) => [failure]
    case StatusUpdate("failed", None) => [Failure("UNKNOWN_ERROR", "Unknown error")]
    case ErrorEvent(Failure(code, message)) =>
      [Failure(if |code| > 0 then code else "UNKNOWN_ERROR", if |message| > 0 then message else "Unknown error")]
    case _ => []
  }

  function Received(): SseEvent -> seq<Content> { (e: SseEvent) => ReceivedBy(e.body) }

  /** Text is marked as partial and media is not. */
  function Marked(contents: seq<Content>): seq<(Content, bool)> {
    seq(|contents|, i requires 0 <= i < |contents| => (contents[i], contents[i].TextContent?))
  }

  function ReceivedMarked(): SseEvent -> seq<(Content, bool)> { (e: SseEvent) => Marked(ReceivedBy(e.body)) }

  function ReceivedTexts(): SseEvent -> seq<string> {
    (e: SseEvent) => match e.body
                     case StepDelta(TextDelta(text)) => if |text| > 0 then [text] else []
                     case _ => []
  }

  function Reported(): SseEvent -> seq<Failure> { (e: SseEvent) => ReportedBy(e.body) }

  function ContentOf(): Part -> seq<Content> {
    (p: Part) => if p.thought then []
                 else if p.text.Some? then [TextContent(p.text.value)]
                 else if p.media.Some? then [MediaContent(p.media.value)]
                 else []
  }

  function TextIn(): Part -> seq<string> { (p: Part) => if p.text.Some? then [p.text.value] else [] }

  function Texts(parts: seq<Part>): seq<string> { Flat(parts, TextIn()) }

  /** What a response streams out before the turn is complete, and whether as partial. */
  function StreamedBy(r: LlmResponse): seq<(Content, bool)> {
    if r.turnComplete || r.parts.None? then []
    else
      var contents := Flat(r.parts.value, ContentOf());
      seq(|contents|, i requires 0 <= i < |contents| => (contents[i], r.partial))
  }

  function Streamed(): LlmResponse -> seq<(Content, bool)> { (r: LlmResponse) => StreamedBy(r) }

  function PartialText(): LlmResponse -> seq<string> {
    (r: LlmResponse) => if r.partial && r.parts.Some? then Texts(r.parts.value) else []
  }

  /** The texts of the partial responses. */
  function PartialTexts(responses: seq<LlmResponse>): seq<string> { Flat(responses, PartialText()) }

  function FailureIn(): LlmResponse -> seq<Failure> {
    (r: LlmResponse) => if r.failure.Some? then [r.failure.value] else []
  }

  function NewParts(body: Body): seq<Part> {
    match body case StepStart(step) => StartPart(step) case StepDelta(delta) => AddedBy(delta) case _ => []
  }

  /** Parts that differ only in the call, the signature or the pending arguments. */
  predicate SameContent(p: Part, q: Part) {
    p.text == q.text && p.media == q.media && p.thought == q.thought
  }

  ghost predicate OnlyContent<T>(f: Part -> seq<T>) {
    forall p: Part, q: Part :: SameContent(p, q) ==> f(p) == f(q)
  }

  /** The position of the part an event touches, if any. */
  function Touched(parts: seq<Part>, body: Body): nat {
    match body
    case StepDelta(ArgumentsDelta(_)) => LastIndex(parts, IsOpenCall())
    case StepDelta(SignatureDelta(_)) => LastIndex(parts, IsOpenCallOrThought())
    case StepStop => LastIndex(parts, IsOpen())
    case _ => |parts|
  }

  lemma ConvertTouches(parts: seq<Part>, body: Body, id: string, parse: string -> Option<Args>)
    ensures var after, i := Convert(parts, body, id, parse).0, Touched(parts, body);
            || after == parts + NewParts(body)
            || (NewParts(body) == [] && i < |parts| && |after| == |parts| && after == parts[i := after[i]]
                && SameContent(after[i], parts[i]))
  {
    assert parts + [] == parts;
  }

  /** An event appends its new parts; apart from that it touches only one part's call,
      signature and pending arguments. */
  lemma ConvertAppends<T>(parts: seq<Part>, body: Body, id: string, parse: string -> Option<Args>, f: Part -> seq<T>)
    requires OnlyContent(f)
    ensures Flat(Convert(parts, body, id, parse).0, f) == Flat(parts, f) + Flat(NewParts(body), f)
  {
    var after, i := Convert(parts, body, id, parse).0, Touched(parts, body);
    ConvertTouches(parts, body, id, parse);
    if after == parts + NewParts(body) {
      FlatAppend(parts, NewParts(body), f);
    } else {
      FlatUpdate(parts, i, after[i], f);
      assert Flat(parts, f) + [] == Flat(parts, f);
    }
  }

  /** The new parts hold what the server sent, and nothing is left out. */
  lemma NewContent(body: Body)
    ensures Flat(NewParts(body), ContentOf()) == ReceivedBy(body)
  {
    if NewParts(body) != [] {
      FlatOne(NewParts(body)[0], ContentOf());
      assert NewParts(body) == [NewParts(body)[0]];
    }
  }

  lemma NewTexts(e: SseEvent)
    ensures Texts(NewParts(e.body)) == ReceivedTexts()(e)
  {
    if NewParts(e.body) != [] {
      FlatOne(NewParts(e.body)[0], TextIn());
      assert NewParts(e.body) == [NewParts(e.body)[0]];
    }
  }

  ghost predicate CallsAreBare(parts: seq<Part>) {
    forall i :: 0 <= i < |parts| && parts[i].call.Some? ==> parts[i].text.None? && parts[i].media.None?
  }

  lemma CallsStayBare(parts: seq<Part>, body: Body, id: string, parse: string -> Option<Args>)
    requires CallsAreBare(parts)
    ensures CallsAreBare(Convert(parts, body, id, parse).0)
  {
  }

  lemma PieceStreams(p: Part, partial: bool, id: string)
    ensures StreamedBy(Piece(p, partial, id)) == seq(|ContentOf()(p)|, i requires 0 <= i < |ContentOf()(p)| =>
                                                    (ContentOf()(p)[i], partial))
    ensures PartialText()(Piece(p, partial, id)) == if partial then TextIn()(p) else []
  {
    FlatOne(p, ContentOf());
    FlatOne(p, TextIn());
  }

  /** What one response contributes to the three views of the output. */
  ghost predicate Contributes(yielded: seq<LlmResponse>, e: SseEvent) {
    && Flat(yielded, Streamed()) == ReceivedMarked()(e)
    && PartialTexts(yielded) == ReceivedTexts()(e)
    && Flat(yielded, FailureIn()) == Reported()(e)
  }

  lemma OneResponse(r: LlmResponse, e: SseEvent)
    requires StreamedBy(r) == Marked(ReceivedBy(e.body)) && PartialText()(r) == ReceivedTexts()(e)
    requires FailureIn()(r) == ReportedBy(e.body)
    ensures Contributes([r], e)
  {
    FlatOne(r, Streamed());
    FlatOne(r, PartialText());
    FlatOne(r, FailureIn());
  }

  lemma DeltaYields(parts: seq<Part>, e: SseEvent, id: string, parse: string -> Option<Args>)
    requires e.body.StepDelta?
    ensures Contributes(Convert(parts, e.body, id, parse).1, e)
  {
    var added := AddedBy(e.body.delta);
    if added != [] {
      PieceStreams(added[0], e.body.delta.TextDelta?, id);
      OneResponse(Piece(added[0], e.body.delta.TextDelta?, id), e);
    }
  }

  lemma StopYields(parts: seq<Part>, e: SseEvent, id: string, parse: string -> Option<Args>)
    requires CallsAreBare(parts) && e.body.StepStop?
    ensures Contributes(Convert(parts, e.body, id, parse).1, e)
  {
    var i := LastIndex(parts, IsOpen());
    if i < |parts| && parts[i].call.Some? {
      PieceStreams(Finish(parts[i], parse), false, id);
      OneResponse(Piece(Finish(parts[i], parse), false, id), e);
    }
  }

  lemma OthersYield(parts: seq<Part>, e: SseEvent, id: string, parse: string -> Option<Args>)
    requires !e.body.StepDelta? && !e.body.StepStop?
    ensures Contributes(Convert(parts, e.body, id, parse).1, e)
  {
    var yielded := Convert(parts, e.body, id, parse).1;
    if yielded != [] {
      OneResponse(yielded[0], e);
      assert yielded == [yielded[0]];
    }
  }

  /** What an event yields: its content, text as partial, or its failure. */
  lemma YieldedBy(parts: seq<Part>, e: SseEvent, id: string, parse: string -> Option<Args>)
    requires CallsAreBare(parts)
    ensures Contributes(Convert(parts, e.body, id, parse).1, e)
  {
    if e.body.StepDelta? {
      DeltaYields(parts, e, id, parse);
    } else if e.body.StepStop? {
      StopYields(parts, e, id, parse);
    } else {
      OthersYield(parts, e, id, parse);
    }
  }

  /** What one event adds to a stream. */
  lemma AdvanceAdds(s: Stream, e: SseEvent, parse: string -> Option<Args>)
    requires CallsAreBare(s.parts)
    ensures var t := Advance(s, e, parse);
            && CallsAreBare(t.parts)
            && Flat(t.parts, ContentOf()) == Flat(s.parts, ContentOf()) + Received()(e)
            && Flat(t.responses, Streamed()) == Flat(s.responses, Streamed()) + ReceivedMarked()(e)
            && Flat(t.responses, FailureIn()) == Flat(s.responses, FailureIn()) + Reported()(e)
  {
    var id := Advance(s, e, parse).id;
    var yielded := Convert(s.parts, e.body, id, parse).1;
    ConvertAppends(s.parts, e.body, id, parse, ContentOf());
    NewContent(e.body);
    YieldedBy(s.parts, e, id, parse);
    FlatAppend(s.responses, yielded, Streamed());
    FlatAppend(s.responses, yielded, FailureIn());
    CallsStayBare(s.parts, e.body, id, parse);
  }

  lemma AdvanceAddsText(s: Stream, e: SseEvent, parse: string -> Option<Args>)
    requires CallsAreBare(s.parts)
    ensures var t := Advance(s, e, parse);
            && CallsAreBare(t.parts)
            && Texts(t.parts) == Texts(s.parts) + ReceivedTexts()(e)
            && PartialTexts(t.responses) == PartialTexts(s.responses) + ReceivedTexts()(e)
  {
    var id := Advance(s, e, parse).id;
    ConvertAppends(s.parts, e.body, id, parse, TextIn());
    NewTexts(e);
    YieldedBy(s.parts, e, id, parse);
    FlatAppend(s.responses, Convert(s.parts, e.body, id, parse).1, PartialText());
    CallsStayBare(s.parts, e.body, id, parse);
  }

  lemma Chain<T>(a: seq<T>, b: seq<T>, c: seq<T>)
    ensures a + b + c == a + (b + c) && a + [] == a
  {
  }

  lemma {:induction false} RunAdds(s: Stream, events: seq<SseEvent>, parse: string -> Option<Args>)
    requires CallsAreBare(s.parts)
    ensures var t := Run(s, events, parse);
            && Flat(t.parts, ContentOf()) == Flat(s.parts, ContentOf()) + Flat(events, Received())
            && Flat(t.responses, Streamed()) == Flat(s.responses, Streamed()) + Flat(events, ReceivedMarked())
            && Flat(t.responses, FailureIn()) == Flat(s.responses, FailureIn()) + Flat(events, Reported())
    decreases |events|
  {
    if events == [] {
      Chain(Flat(s.parts, ContentOf()), [], []);
      Chain(Flat(s.responses, Streamed()), [], []);
      Chain(Flat(s.responses, FailureIn()), [], []);
    } else {
      AdvanceAdds(s, events[0], parse);
      RunAdds(Advance(s, events[0], parse), events[1..], parse);
      Chain(Flat(s.parts, ContentOf()), Received()(events[0]), Flat(events[1..], Received()));
      Chain(Flat(s.responses, Streamed()), ReceivedMarked()(events[0]), Flat(events[1..], ReceivedMarked()));
      Chain(Flat(s.responses, FailureIn()), Reported()(events[0]), Flat(events[1..], Reported()));
    }
  }

  lemma {:induction false} RunAddsText(s: Stream, events: seq<SseEvent>, parse: string -> Option<Args>)
    requires CallsAreBare(s.parts)
    ensures var t := Run(s, events, parse);
            && Texts(t.parts) == Texts(s.parts) + Flat(events, ReceivedTexts())
            && PartialTexts(t.responses) == PartialTexts(s.responses) + Flat(events, ReceivedTexts())
    decreases |events|
  {
    if events == [] {
      Chain(Texts(s.parts), [], []);
      Chain(PartialTexts(s.responses), [], []);
    } else {
      AdvanceAddsText(s, events[0], parse);
      RunAddsText(Advance(s, events[0], parse), events[1..], parse);
      Chain(Texts(s.parts), ReceivedTexts()(events[0]), Flat(events[1..], ReceivedTexts()));
      Chain(PartialTexts(s.responses), ReceivedTexts()(events[0]), Flat(events[1..], ReceivedTexts()));
    }
  }

  /** For every event sequence the aggregated parts hold exactly the texts and media the
      server sent, in order and unchanged, and exactly these are streamed out as they
      come, text as partial and media not; and exactly the failures it reported are
      yielded. */
  lemma ContentIsWhatWasReceived(previousId: string, events: seq<SseEvent>, parse: string -> Option<Args>)
    ensures var s := Run(Begin(previousId), events, parse);
            && Flat(s.parts, ContentOf()) == Flat(events, Received())
            && Flat(s.responses, Streamed()) == Flat(events, ReceivedMarked())
            && Flat(s.responses, FailureIn()) == Flat(events, Reported())
  {
    RunAdds(Begin(previousId), events, parse);
    assert forall c: seq<Content> :: [] + c == c;
    assert forall c: seq<(Content, bool)> :: [] + c == c;
    assert forall c: seq<Failure> :: [] + c == c;
  }

  /** For every event sequence the texts of the aggregated parts are the texts of the
      partial responses, in order, and both are the non-empty texts the server sent. */
  lemma PartialTextsAreTheText(previousId: string, events: seq<SseEvent>, parse: string -> Option<Args>)
    ensures var s := Run(Begin(previousId), events, parse);
            Texts(s.parts) == PartialTexts(s.responses) == Flat(events, ReceivedTexts())
  {
    RunAddsText(Begin(previousId), events, parse);
    assert forall c: seq<string> :: [] + c == c;
  }
}
