/** Content parts and session events, with the fields the modelled code reads. */
module Events {
  import opened Wrappers
  import opened JsMaps

  /** A JSON value; numbers and booleans are not inspected. */
  datatype Json =
    | Null
    | Str(value: string)
    | Arr(items: seq<Json>)
    | Obj(fields: JsMap<string, Json>)
    | Other(repr: string)

  datatype FunctionCall = FunctionCall(id: Option<string>, name: string, args: JsMap<string, Json>)

  datatype FunctionResponse = FunctionResponse(id: Option<string>, name: string, response: Json)

  datatype Media = Inline(data: string, mimeType: string) | File(uri: string, mimeType: string)

  /** A content part. `openArgs` is the `partMetadata` of a part that is still
      being streamed: the argument text accumulated so far. */
  datatype Part = Part(text: Option<string>, thought: bool, call: Option<FunctionCall>,
                       response: Option<FunctionResponse>, media: Option<Media>,
                       signature: Option<string>, openArgs: Option<string>)

  const EMPTY_PART := Part(None, false, None, None, None, None, None)

  datatype Kind = Raw | Compacted(endTime: int, scratchpad: bool)

  /** `ref` is the identity of the event object, so equal events are the same object. */
  datatype Event = Event(ref: nat, author: string, scope: Option<string>, timestamp: int,
                         parts: seq<Part>, kind: Kind)
  {
    predicate HasCalls() { exists p :: p in parts && p.call.Some? }

    predicate HasResponses() { exists p :: p in parts && p.response.Some? }

    predicate IsScratchpad() { kind.Compacted? && kind.scratchpad }
  }

  /** The session whose event list the compactors rewrite or extend in place. */
  class Session {
    var events: seq<Event>

    constructor ()
      ensures events == []
    {
      events := [];
    }
  }
}
