/** Requests for user input and the gate that keeps a paused conversation paused
    (core/src/agents/user_input_request.ts, core/src/a2a/event_processor_utils.ts). */
module InputGate {
  import opened Wrappers
  import opened Seqs
  import opened JsMaps
  import opened Events

  const REQUEST_INPUT := "adk_request_input"
  const REQUEST_CREDENTIAL := "adk_request_credential"
  const REQUEST_CONFIRMATION := "adk_request_confirmation"

  datatype InputKind = Input | Credential | Confirmation

  datatype UserInputRequest = UserInputRequest(kind: InputKind, interruptId: string, functionCallName: string,
                                               author: string, message: Option<string>, payload: Option<Json>,
                                               responseSchema: Option<Json>, toolName: Option<string>,
                                               authConfig: Option<Json>)

  // ---------------------------------------------------------------------------
  // Requests raised by an event
  // ---------------------------------------------------------------------------

  /** `_x` becomes `X` for a lower-case letter `x`. */
  function CamelCase(key: string): string {
    if |key| < 2 then key
    else if key[0] == '_' && 'a' <= key[1] <= 'z' then
      ['A' + (key[1] - 'a')] + CamelCase(key[2..])
    else [key[0]] + CamelCase(key[1..])
  }

  /** The keys of nested objects are renamed too; later entries win where two keys
      become the same. */
  function CamelCaseKeys(value: Json): Json
    decreases value, if value.Obj? then |value.fields| + 1 else 0
  {
    match value
    case Arr(items) => Arr(seq(|items|, i requires 0 <= i < |items| => CamelCaseKeys(items[i])))
    case Obj(fields) => Obj(CamelCaseFields(value, |fields|))
    case _ => value
  }

  function CamelCaseFields(value: Json, n: nat): JsMap<string, Json>
    requires value.Obj? && n <= |value.fields|
    decreases value, n
  {
    if n == 0 then []
    else
      var (key, field) := value.fields[n - 1];
      Set(CamelCaseFields(value, n - 1), CamelCase(key), CamelCaseKeys(field))
  }

  function NormalizeArgs(name: string, args: JsMap<string, Json>): JsMap<string, Json> {
    if name == REQUEST_CREDENTIAL then CamelCaseKeys(Obj(args)).fields else args
  }

  function AsString(value: Option<Json>): Option<string> {
    if value.Some? && value.value.Str? then Some(value.value.value) else None
  }

  /** A string with something in it besides white space. */
  function AsNonEmptyString(value: Option<Json>): Option<string> {
    match AsString(value)
    case Some(s) => if exists i :: 0 <= i < |s| && !IsSpace(s[i]) then Some(s) else None
    case None => None
  }

  /** The characters that `trim` removes. */
  predicate IsSpace(c: char) {
    || 9 <= c as int <= 13 || c as int in {32, 0xA0, 0x1680, 0x2028, 0x2029, 0x202F, 0x205F, 0x3000, 0xFEFF}
    || 0x2000 <= c as int <= 0x200A
  }

  /** A value that is neither absent nor null. */
  function Present(value: Option<Json>): Option<Json> {
    if value.Some? && value.value.Null? then None else value
  }

  /** A property of a value that may be absent, null or no object at all. */
  function Property(value: Option<Json>, key: string): Option<Json> {
    if value.Some? && value.value.Obj? then Get(value.value.fields, key) else None
  }

  /** Where the three kinds of request keep the id that answers them. */
  function InterruptId(call: FunctionCall): Option<string> {
    var args := NormalizeArgs(call.name, call.args);
    if call.id.Some? then call.id
    else if AsString(Get(args, "interruptId")).Some? then AsString(Get(args, "interruptId"))
    else AsString(Get(args, "functionCallId"))
  }

  function KindOf(name: string): Option<InputKind> {
    if name == REQUEST_INPUT then Some(Input)
    else if name == REQUEST_CREDENTIAL then Some(Credential)
    else if name == REQUEST_CONFIRMATION then Some(Confirmation)
    else None
  }

  /** The request with what each kind shows of its arguments. */
  function MakeRequest(kind: InputKind, id: string, call: FunctionCall, author: string): UserInputRequest {
    var args := NormalizeArgs(call.name, call.args);
    match kind
    case Input =>
      UserInputRequest(kind, id, call.name, author, AsString(Get(args, "message")), Present(Get(args, "payload")),
                       Present(Get(args, "response_schema")), None, None)
    case Credential =>
      UserInputRequest(kind, id, call.name, author, AsString(Get(args, "message")), None, None, None,
                       Present(Get(args, "authConfig")))
    case Confirmation =>
      var confirmation, original := Get(args, "toolConfirmation"), Get(args, "originalFunctionCall");
      UserInputRequest(kind, id, call.name, author, AsNonEmptyString(Property(confirmation, "hint")),
                       Present(Property(confirmation, "payload")), None, AsString(Property(original, "name")), None)
  }

  /** The request a part makes, if any: a named call of one of the three kinds whose id
      is not empty. */
  function RequestOf(author: string, part: Part): seq<UserInputRequest> {
    if part.call.None? || part.call.value.name == "" then []
    else
      var call := part.call.value;
      var id, kind := InterruptId(call), KindOf(call.name);
      if id.None? || id.value == "" || kind.None? then [] else [MakeRequest(kind.value, id.value, call, author)]
  }

  function RequestsOf(author: string, parts: seq<Part>): seq<UserInputRequest> {
    if parts == [] then [] else RequestsOf(author, parts[..|parts| - 1]) + RequestOf(author, parts[|parts| - 1])
  }

  method GetUserInputRequests(author: string, parts: seq<Part>) returns (requests: seq<UserInputRequest>)
    ensures requests == RequestsOf(author, parts)
  {
    requests := [];
    for i := 0 to |parts|
      invariant requests == RequestsOf(author, parts[..i])
    {
      assert parts[..i + 1][..i] == parts[..i];
      var call := parts[i].call;
      if call.None? || call.value.name == "" {
        continue;
      }
      var id := InterruptId(call.value);
      if id.None? || id.value == "" {
        continue;
      }
      var kind := KindOf(call.value.name);
      if kind.Some? {
        requests := requests + [MakeRequest(kind.value, id.value, call.value, author)];
      }
    }
    assert parts[..|parts|] == parts;
  }

  // ---------------------------------------------------------------------------
  // Pending requests of a history
  // ---------------------------------------------------------------------------

  function AllRequests(events: seq<Event>): seq<UserInputRequest> {
    if events == [] then []
    else
      var e := events[|events| - 1];
      AllRequests(events[..|events| - 1]) + RequestsOf(e.author, e.parts)
  }

  /** The id a part answers. */
  function AnswerOf(part: Part): Option<string> {
    if part.response.Some? && part.response.value.id.Some? && part.response.value.id.value != ""
    then part.response.value.id else None
  }

  function AnswersIn(parts: seq<Part>): set<string> {
    set p | p in parts && AnswerOf(p).Some? :: AnswerOf(p).value
  }

  function Answered(events: seq<Event>): set<string> {
    set e, p | e in events && p in e.parts && AnswerOf(p).Some? :: AnswerOf(p).value
  }

  predicate Raises(requests: seq<UserInputRequest>, id: string) {
    exists i :: 0 <= i < |requests| && requests[i].interruptId == id
  }

  /** The first request of every id that is not answered, in order. */
  function Pending(requests: seq<UserInputRequest>, answered: set<string>): seq<UserInputRequest> {
    if requests == [] then []
    else
      var n := |requests| - 1;
      var before, r := Pending(requests[..n], answered), requests[n];
      if r.interruptId in answered || Raises(before, r.interruptId) then before else before + [r]
  }

  lemma {:induction false} PendingAppend(a: seq<UserInputRequest>, b: seq<UserInputRequest>, answered: set<string>)
    ensures Pending(a, answered) <= Pending(a + b, answered)
  {
    if b == [] {
      assert a + b == a;
    } else {
      assert (a + b)[..|a + b| - 1] == a + b[..|b| - 1];
      PendingAppend(a, b[..|b| - 1], answered);
    }
  }

  method GetPendingUserInputRequests(events: seq<Event>) returns (pending: seq<UserInputRequest>)
    ensures pending == Pending(AllRequests(events), Answered(events))
  {
    var answeredIds := CollectAnswers(events);
    pending := [];
    var seenIds: set<string> := {};
    for i := 0 to |events|
      invariant pending == Pending(AllRequests(events[..i]), answeredIds)
      invariant forall id :: id in seenIds <==> Raises(pending, id)
    {
      assert events[..i + 1][..i] == events[..i];
      var requests := GetUserInputRequests(events[i].author, events[i].parts);
      pending, seenIds := AddPending(pending, seenIds, requests, answeredIds, AllRequests(events[..i]));
    }
    assert events[..|events|] == events;
  }

  /** The inner loop: the requests of one event, after those in `earlier`. */
  method AddPending(before: seq<UserInputRequest>, seen: set<string>, requests: seq<UserInputRequest>,
                    answeredIds: set<string>, ghost earlier: seq<UserInputRequest>)
    returns (pending: seq<UserInputRequest>, seenIds: set<string>)
    requires before == Pending(earlier, answeredIds) && forall id :: id in seen <==> Raises(before, id)
    ensures pending == Pending(earlier + requests, answeredIds)
    ensures forall id :: id in seenIds <==> Raises(pending, id)
  {
    pending, seenIds := before, seen;
    assert earlier + requests[..0] == earlier;
    for j := 0 to |requests|
      invariant pending == Pending(earlier + requests[..j], answeredIds)
      invariant forall id :: id in seenIds <==> Raises(pending, id)
    {
      var r := requests[j];
      assert earlier + requests[..j + 1] == (earlier + requests[..j]) + [r];
      assert ((earlier + requests[..j]) + [r])[..|earlier| + j] == earlier + requests[..j];
      if r.interruptId in answeredIds || r.interruptId in seenIds {
        continue;
      }
      SeenAfter(pending, r);
      seenIds := seenIds + {r.interruptId};
      pending := pending + [r];
    }
    assert requests[..|requests|] == requests;
  }

  lemma SeenAfter(pending: seq<UserInputRequest>, r: UserInputRequest)
    ensures forall id :: Raises(pending + [r], id) <==> Raises(pending, id) || id == r.interruptId
  {
    forall id ensures Raises(pending + [r], id) <==> Raises(pending, id) || id == r.interruptId {
      assert (pending + [r])[|pending|] == r;
      if Raises(pending, id) {
        var i :| 0 <= i < |pending| && pending[i].interruptId == id;
        assert (pending + [r])[i].interruptId == id;
      }
    }
  }

  method CollectAnswers(events: seq<Event>) returns (answeredIds: set<string>)
    ensures answeredIds == Answered(events)
  {
    answeredIds := {};
    for i := 0 to |events|
      invariant answeredIds == Answered(events[..i])
    {
      var parts := events[i].parts;
      ghost var before := answeredIds;
      for j := 0 to |parts|
        invariant answeredIds == before + AnswersIn(parts[..j])
      {
        assert parts[..j + 1] == parts[..j] + [parts[j]];
        var id := AnswerOf(parts[j]);
        if id.Some? {
          answeredIds := answeredIds + {id.value};
        }
      }
      assert parts[..|parts|] == parts;
      assert events[..i + 1] == events[..i] + [events[i]];
    }
    assert events[..|events|] == events;
  }

  // ---------------------------------------------------------------------------
  // What raises and what answers a request
  // ---------------------------------------------------------------------------

  lemma {:induction false} CamelCaseBehind(word: string, s: string)
    requires '_' !in word
    ensures CamelCase(word + s) == word + CamelCase(s)
  {
    if word == [] {
      assert word + s == s;
    } else {
      assert (word + s)[1..] == word[1..] + s;
      CamelCaseBehind(word[1..], s);
    }
  }

  /** Words joined by underscores are joined by capitals; an underscore in front of
      anything but a lower-case letter stays. */
  lemma CamelCaseIs(word: string, c: char, rest: string)
    requires '_' !in word
    ensures CamelCase(word) == word && CamelCase(word + ['_']) == word + ['_']
    ensures CamelCase(word + (['_', c] + rest))
         == word + if 'a' <= c <= 'z' then [('A' as int + (c as int - 'a' as int)) as char] + CamelCase(rest)
                   else ['_'] + CamelCase([c] + rest)
  {
    var s := ['_', c] + rest;
    CamelCaseBehind(word, []);
    CamelCaseBehind(word, ['_']);
    CamelCaseBehind(word, s);
    assert word + [] == word && s[1..] == [c] + rest && s[2..] == rest;
  }

  /** The last entry whose key is renamed to `key`. */
  function LastRenamed(fields: JsMap<string, Json>, key: string): Option<Json> {
    if fields == [] then None
    else if CamelCase(fields[|fields| - 1].0) == key then Some(fields[|fields| - 1].1)
    else LastRenamed(fields[..|fields| - 1], key)
  }

  lemma LastRenamedStep(fields: JsMap<string, Json>, n: nat, key: string)
    requires 0 < n <= |fields|
    ensures LastRenamed(fields[..n], key)
         == if CamelCase(fields[n - 1].0) == key then Some(fields[n - 1].1) else LastRenamed(fields[..n - 1], key)
  {
    assert fields[..n][..n - 1] == fields[..n - 1];
  }

  function Renamed(field: Option<Json>): Option<Json> {
    match field case Some(value) => Some(CamelCaseKeys(value)) case None => None
  }

  lemma {:induction false} RenamedFields(value: Json, n: nat, key: string)
    requires value.Obj? && n <= |value.fields|
    ensures Get(CamelCaseFields(value, n), key) == Renamed(LastRenamed(value.fields[..n], key))
  {
    if n > 0 {
      var (name, field) := value.fields[n - 1];
      RenamedFields(value, n - 1, key);
      LastRenamedStep(value.fields, n, key);
      GetSet(CamelCaseFields(value, n - 1), CamelCase(name), CamelCaseKeys(field), key);
    }
  }

  /** Renaming reaches every key of every nested object and nothing else; where keys
      become the same, the last one wins. */
  lemma CamelCaseKeysIs(value: Json)
    ensures match value
            case Obj(fields) =>
              CamelCaseKeys(value).Obj? && forall key ::
                Get(CamelCaseKeys(value).fields, key)
                == Renamed(LastRenamed(fields, key))
            case Arr(items) =>
              && CamelCaseKeys(value).Arr? && |CamelCaseKeys(value).items| == |items|
              && forall i :: 0 <= i < |items| ==> CamelCaseKeys(value).items[i] == CamelCaseKeys(items[i])
            case _ => CamelCaseKeys(value) == value
  {
    if value.Obj? {
      var n := |value.fields|;
      assert value.fields[..n] == value.fields;
      forall key {
        RenamedFields(value, n, key);
      }
    }
  }

  /** An argument of a call; those of a request for a credential may be spelled either way. */
  function Argument(call: FunctionCall, key: string): Option<Json> {
    if call.name != "adk_request_credential" then Get(call.args, key)
    else Renamed(LastRenamed(call.args, key))
  }

  /** A call of one of the three kinds asks under its own id if it has one, else under
      its argument `interruptId`, else under `functionCallId`; never under the empty id. */
  ghost predicate AsksUnder(call: FunctionCall, id: string) {
    && |id| > 0
    && call.name in {"adk_request_input", "adk_request_credential", "adk_request_confirmation"}
    && (match (call.id, Argument(call, "interruptId"))
        case (Some(own), _) => own == id
        case (None, Some(Str(interruptId))) => interruptId == id
        case _ => Argument(call, "functionCallId") == Some(Str(id)))
  }

  ghost predicate IsText(text: Option<string>, value: Option<Json>) {
    text == match value case Some(Str(s)) => Some(s) case _ => None
  }

  ghost predicate IsGiven(given: Option<Json>, value: Option<Json>) {
    given == if value == Some(Null) then None else value
  }

  /** A property of an argument that is an object. */
  function Inner(call: FunctionCall, key: string, name: string): Option<Json> {
    match Argument(call, key) case Some(Obj(fields)) => Get(fields, name) case _ => None
  }

  /** What a request shows of the call that raised it. */
  ghost predicate Shows(r: UserInputRequest, call: FunctionCall) {
    match r.kind
    case Input =>
      && call.name == "adk_request_input" && IsText(r.message, Argument(call, "message"))
      && IsGiven(r.payload, Argument(call, "payload")) && IsGiven(r.responseSchema, Argument(call, "response_schema"))
      && r.toolName.None? && r.authConfig.None?
    case Credential =>
      && call.name == "adk_request_credential" && IsText(r.message, Argument(call, "message"))
      && IsGiven(r.authConfig, Argument(call, "authConfig"))
      && r.payload.None? && r.responseSchema.None? && r.toolName.None?
    case Confirmation =>
      && call.name == "adk_request_confirmation"
      && (r.message.Some? ==> IsText(r.message, Inner(call, "toolConfirmation", "hint")) && !Blank(r.message.value))
      && (r.message.None? ==> forall s :: Inner(call, "toolConfirmation", "hint") == Some(Str(s)) ==> Blank(s))
      && IsGiven(r.payload, Inner(call, "toolConfirmation", "payload"))
      && IsText(r.toolName, Inner(call, "originalFunctionCall", "name"))
      && r.responseSchema.None? && r.authConfig.None?
  }

  ghost predicate Blank(s: string) { forall c :: c in s ==> IsSpace(c) }

  lemma NormalizedArgument(call: FunctionCall, key: string)
    ensures Get(NormalizeArgs(call.name, call.args), key) == Argument(call, key)
  {
    CamelCaseKeysIs(Obj(call.args));
  }

  lemma InterruptIdIs(call: FunctionCall, id: string)
    ensures InterruptId(call) == Some(id) && id != "" && KindOf(call.name).Some? <==> AsksUnder(call, id)
  {
    NormalizedArgument(call, "interruptId");
    NormalizedArgument(call, "functionCallId");
  }

  lemma InputShows(id: string, call: FunctionCall, author: string)
    requires KindOf(call.name) == Some(Input)
    ensures Shows(MakeRequest(Input, id, call, author), call)
  {
    NormalizedArgument(call, "message");
    NormalizedArgument(call, "payload");
    NormalizedArgument(call, "response_schema");
  }

  lemma CredentialShows(id: string, call: FunctionCall, author: string)
    requires KindOf(call.name) == Some(Credential)
    ensures Shows(MakeRequest(Credential, id, call, author), call)
  {
    NormalizedArgument(call, "message");
    NormalizedArgument(call, "authConfig");
  }

  lemma BlankIff(s: string)
    ensures AsNonEmptyString(Some(Str(s))) == if Blank(s) then None else Some(s)
  {
    assert forall c :: c in s ==> exists i :: 0 <= i < |s| && s[i] == c;
  }

  lemma ConfirmationShows(id: string, call: FunctionCall, author: string)
    requires KindOf(call.name) == Some(Confirmation)
    ensures Shows(MakeRequest(Confirmation, id, call, author), call)
  {
    NormalizedArgument(call, "toolConfirmation");
    NormalizedArgument(call, "originalFunctionCall");
    var hint := Inner(call, "toolConfirmation", "hint");
    if hint.Some? && hint.value.Str? {
      BlankIff(hint.value.value);
    }
  }

  lemma MakeRequestShows(kind: InputKind, id: string, call: FunctionCall, author: string)
    requires KindOf(call.name) == Some(kind)
    ensures Shows(MakeRequest(kind, id, call, author), call)
  {
    match kind
    case Input => InputShows(id, call, author);
    case Credential => CredentialShows(id, call, author);
    case Confirmation => ConfirmationShows(id, call, author);
  }

  /** A part raises a request exactly when it calls one of the three functions with an id
      to answer, and then one, which shows what the call says. */
  lemma RaisesIff(author: string, part: Part, id: string)
    ensures Raises(RequestOf(author, part), id) <==> part.call.Some? && AsksUnder(part.call.value, id)
    ensures |RequestOf(author, part)| <= 1
    ensures forall r :: r in RequestOf(author, part) ==>
              part.call.Some? && Shows(r, part.call.value) && r.author == author
              && r.functionCallName == part.call.value.name
  {
    var requests := RequestOf(author, part);
    assert Raises(requests, id) <==> requests != [] && requests[0].interruptId == id;
    if part.call.Some? {
      var call := part.call.value;
      InterruptIdIs(call, id);
      if requests != [] {
        MakeRequestShows(KindOf(call.name).value, InterruptId(call).value, call, author);
      }
    }
  }

  ghost predicate Answers(part: Part, id: string) {
    part.response.Some? && part.response.value.id == Some(id) && |id| > 0
  }

  ghost predicate IsAnswered(events: seq<Event>, id: string) {
    exists e, p :: e in events && p in e.parts && Answers(p, id)
  }

  /** An id is answered exactly when some response part of the history carries it. */
  lemma AnsweredIff(events: seq<Event>, id: string)
    ensures id in Answered(events) <==> IsAnswered(events, id)
  {
    if e, p :| e in events && p in e.parts && Answers(p, id) {
      assert AnswerOf(p) == Some(id);
    }
    if id in Answered(events) {
      var e, p :| e in events && p in e.parts && AnswerOf(p).Some? && AnswerOf(p).value == id;
      assert Answers(p, id);
    }
  }

  // ---------------------------------------------------------------------------
  // What the pending list holds
  // ---------------------------------------------------------------------------

  /** The positions at which the pending requests were raised. */
  function Positions(requests: seq<UserInputRequest>, answered: set<string>): seq<nat> {
    if requests == [] then []
    else
      var n := |requests| - 1;
      var before, r := Positions(requests[..n], answered), requests[n];
      if r.interruptId in answered || Raises(Pending(requests[..n], answered), r.interruptId) then before
      else before + [n]
  }

  lemma {:induction false} PendingRaises(requests: seq<UserInputRequest>, answered: set<string>)
    ensures forall id :: Raises(Pending(requests, answered), id) <==> Raises(requests, id) && id !in answered
  {
    if requests != [] {
      var n := |requests| - 1;
      PendingRaises(requests[..n], answered);
      SeenAfter(Pending(requests[..n], answered), requests[n]);
      SeenAfter(requests[..n], requests[n]);
      assert requests == requests[..n] + [requests[n]];
    }
  }

  /** Entries raised at increasing positions, each the first to raise its id. */
  ghost predicate FirstRaised(requests: seq<UserInputRequest>, pending: seq<UserInputRequest>, at: seq<nat>) {
    && |at| == |pending|
    && (forall i :: 0 <= i < |at| ==> at[i] < |requests| && pending[i] == requests[at[i]])
    && (forall i, j :: 0 <= i < j < |at| ==> at[i] < at[j])
    && (forall i, j :: 0 <= i < |at| && 0 <= j < at[i] ==> requests[j].interruptId != pending[i].interruptId)
  }

  lemma FirstRaisedGrows(requests: seq<UserInputRequest>, r: UserInputRequest, pending: seq<UserInputRequest>,
                         at: seq<nat>)
    requires FirstRaised(requests, pending, at)
    ensures FirstRaised(requests + [r], pending, at)
    ensures (forall j :: 0 <= j < |requests| ==> requests[j].interruptId != r.interruptId)
            ==> FirstRaised(requests + [r], pending + [r], at + [|requests|])
  {
  }

  /** The pending list, in first-raised order: its entries are raised at increasing
      positions, each the first to raise its id, and no id occurs twice. */
  lemma {:induction false} PendingIsFirstRaised(requests: seq<UserInputRequest>, answered: set<string>)
    ensures FirstRaised(requests, Pending(requests, answered), Positions(requests, answered))
  {
    if requests != [] {
      var n := |requests| - 1;
      PendingIsFirstRaised(requests[..n], answered);
      NotRaised(requests, answered);
      assert requests == requests[..n] + [requests[n]];
      var before, at := Pending(requests[..n], answered), Positions(requests[..n], answered);
      FirstRaisedGrows(requests[..n], requests[n], before, at);
    }
  }

  lemma PendingIdsAreDistinct(requests: seq<UserInputRequest>, answered: set<string>, i: nat, j: nat)
    requires i < j < |Pending(requests, answered)|
    ensures Pending(requests, answered)[i].interruptId != Pending(requests, answered)[j].interruptId
  {
    PendingIsFirstRaised(requests, answered);
  }

  lemma NotRaised(requests: seq<UserInputRequest>, answered: set<string>)
    requires requests != []
    ensures var n := |requests| - 1;
            var id := requests[n].interruptId;
            id !in answered && !Raises(Pending(requests[..n], answered), id) ==>
              forall j :: 0 <= j < n ==> requests[..n][j].interruptId != id
  {
    PendingRaises(requests[..|requests| - 1], answered);
  }

  /** Over every history: an id is pending exactly when some event raises it and no
      response anywhere in the history carries it. */
  lemma PendingIff(events: seq<Event>, id: string)
    ensures Raises(Pending(AllRequests(events), Answered(events)), id)
       <==> Raises(AllRequests(events), id) && id !in Answered(events)
  {
    PendingRaises(AllRequests(events), Answered(events));
  }

  // ---------------------------------------------------------------------------
  // The gate
  // ---------------------------------------------------------------------------

  /** A task as the gate sees it: the parts its status message shows, if it waits for
      input and has a message. */
  datatype Task = Task(id: string, contextId: string, inputRequired: bool, message: Option<seq<Part>>)

  datatype Refusal = Refusal(taskId: string, contextId: string, parts: seq<Part>, missingId: string)

  function ShownParts(task: Option<Task>): seq<Part> {
    if task.Some? && task.value.inputRequired && task.value.message.Some? then task.value.message.value else []
  }

  function CallId(part: Part): Option<string> {
    if part.call.Some? && part.call.value.id.Some? && part.call.value.id.value != "" then part.call.value.id else None
  }

  /** The id that answers a part, when the part is a request for user input. */
  function InterruptIdOfPart(author: string, part: Part): Option<string> {
    var requests := RequestsOf(author, [part]);
    if requests == [] then None else Some(requests[0].interruptId)
  }

  ghost predicate Displays(parts: seq<Part>, id: string) {
    exists i :: 0 <= i < |parts| && CallId(parts[i]) == Some(id)
  }

  function AsksFor(author: string, id: string): Part -> bool {
    (part: Part) => InterruptIdOfPart(author, part) == Some(id)
  }

  ghost predicate AnyOf<T(!new)>(s: seq<T>, p: T -> bool) {
    exists i :: 0 <= i < |s| && p(s[i])
  }

  ghost predicate PartRaises(author: string, parts: seq<Part>, id: string) {
    AnyOf(parts, AsksFor(author, id))
  }

  ghost predicate EventRaises(events: seq<Event>, id: string) {
    exists i :: 0 <= i < |events| && PartRaises(events[i].author, events[i].parts, id)
  }

  /** Every entry maps an id to a part that asks for it. */
  ghost predicate AllCarry(pending: JsMap<string, Part>) {
    forall i :: 0 <= i < |pending| ==> Carries(pending[i].1, pending[i].0)
  }

  ghost predicate Carries(part: Part, id: string) {
    CallId(part) == Some(id) || InterruptIdOfPart("", part) == Some(id)
  }

  /** The invariant of the pending map. */
  ghost predicate PendingMap(pending: JsMap<string, Part>) {
    IsMap(pending) && AllCarry(pending)
  }

  lemma AuthorDoesNotMatter(author: string, part: Part)
    ensures InterruptIdOfPart(author, part) == InterruptIdOfPart("", part)
  {
    assert RequestsOf(author, [part]) == RequestsOf(author, []) + RequestOf(author, part);
    assert RequestsOf("", [part]) == RequestsOf("", []) + RequestOf("", part);
  }

  lemma SetPending(pending: JsMap<string, Part>, id: string, part: Part)
    requires PendingMap(pending) && Carries(part, id)
    ensures PendingMap(Set(pending, id, part))
    ensures forall x :: x in Keys(Set(pending, id, part)) <==> x in Keys(pending) || x == id
  {
    SetKeys(pending, id, part);
    SetEntries(pending, id, part);
  }

  lemma DeletePending(pending: JsMap<string, Part>, id: string)
    requires PendingMap(pending)
    ensures PendingMap(Delete(pending, id))
    ensures forall x :: x in Keys(Delete(pending, id)) <==> x in Keys(pending) && x != id
  {
    DeleteKeys(pending, id);
    DeleteIsMap(pending, id);
    DeleteEntries(pending, id);
  }

  lemma DisplaysLast(parts: seq<Part>, i: nat, id: string)
    requires i < |parts|
    ensures Displays(parts[..i + 1], id) <==> Displays(parts[..i], id) || CallId(parts[i]) == Some(id)
  {
    assert forall j :: 0 <= j < i ==> parts[..i + 1][j] == parts[..i][j];
    assert parts[..i + 1][i] == parts[i];
  }

  lemma AnyOfLast<T(!new)>(s: seq<T>, i: nat, p: T -> bool)
    requires i < |s|
    ensures AnyOf(s[..i + 1], p) <==> AnyOf(s[..i], p) || p(s[i])
  {
    assert forall j :: 0 <= j < i ==> s[..i + 1][j] == s[..i][j];
    assert s[..i + 1][i] == s[i];
  }

  lemma PartRaisesLast(author: string, parts: seq<Part>, i: nat, id: string)
    requires i < |parts|
    ensures PartRaises(author, parts[..i + 1], id)
       <==> PartRaises(author, parts[..i], id) || InterruptIdOfPart(author, parts[i]) == Some(id)
  {
    AnyOfLast(parts, i, AsksFor(author, id));
  }

  lemma EventRaisesLast(events: seq<Event>, i: nat, id: string)
    requires i < |events|
    ensures EventRaises(events[..i + 1], id)
       <==> EventRaises(events[..i], id) || PartRaises(events[i].author, events[i].parts, id)
  {
    assert forall j :: 0 <= j < i ==> events[..i + 1][j] == events[..i][j];
    assert events[..i + 1][i] == events[i];
  }

  /** What one displayed part does to the pending map. */
  lemma DisplayStep(pending: JsMap<string, Part>, parts: seq<Part>, i: nat)
    requires i < |parts| && PendingMap(pending)
    requires forall id :: id in Keys(pending) <==> Displays(parts[..i], id)
    ensures var next := if CallId(parts[i]).Some? then Set(pending, CallId(parts[i]).value, parts[i]) else pending;
            PendingMap(next) && forall id :: id in Keys(next) <==> Displays(parts[..i + 1], id)
  {
    forall id ensures Displays(parts[..i + 1], id) <==> Displays(parts[..i], id) || CallId(parts[i]) == Some(id) {
      DisplaysLast(parts, i, id);
    }
    if CallId(parts[i]).Some? {
      SetPending(pending, CallId(parts[i]).value, parts[i]);
    }
  }

  method AddDisplayed(parts: seq<Part>) returns (pending: JsMap<string, Part>)
    ensures PendingMap(pending)
    ensures forall id :: id in Keys(pending) <==> Displays(parts, id)
  {
    pending := [];
    for i := 0 to |parts|
      invariant PendingMap(pending)
      invariant forall id :: id in Keys(pending) <==> Displays(parts[..i], id)
    {
      DisplayStep(pending, parts, i);
      var id := CallId(parts[i]);
      if id.Some? {
        pending := Set(pending, id.value, parts[i]);
      }
    }
    assert parts[..|parts|] == parts;
  }

  /** The map after the parts of one event up to a position. */
  ghost predicate RaisedSoFar(before: JsMap<string, Part>, pending: JsMap<string, Part>, author: string,
                              parts: seq<Part>, pendingIds: set<string>) {
    && PendingMap(pending)
    && forall id :: id in Keys(pending) <==> id in Keys(before) || (id in pendingIds && PartRaises(author, parts, id))
  }

  lemma RaiseStep(before: JsMap<string, Part>, pending: JsMap<string, Part>, author: string, parts: seq<Part>,
                  pendingIds: set<string>, i: nat)
    requires i < |parts| && RaisedSoFar(before, pending, author, parts[..i], pendingIds)
    ensures var id := InterruptIdOfPart(author, parts[i]);
            var next := if id.Some? && id.value in pendingIds then Set(pending, id.value, parts[i]) else pending;
            RaisedSoFar(before, next, author, parts[..i + 1], pendingIds)
  {
    var id := InterruptIdOfPart(author, parts[i]);
    forall x ensures PartRaises(author, parts[..i + 1], x) <==> PartRaises(author, parts[..i], x) || id == Some(x) {
      PartRaisesLast(author, parts, i, x);
    }
    if id.Some? && id.value in pendingIds {
      AuthorDoesNotMatter(author, parts[i]);
      SetPending(pending, id.value, parts[i]);
    }
  }

  method AddRaisedBy(before: JsMap<string, Part>, author: string, parts: seq<Part>, pendingIds: set<string>)
    returns (pending: JsMap<string, Part>)
    requires PendingMap(before)
    ensures PendingMap(pending)
    ensures forall id :: id in Keys(pending)
              <==> id in Keys(before) || (id in pendingIds && PartRaises(author, parts, id))
  {
    pending := before;
    for i := 0 to |parts|
      invariant RaisedSoFar(before, pending, author, parts[..i], pendingIds)
    {
      RaiseStep(before, pending, author, parts, pendingIds, i);
      var id := InterruptIdOfPart(author, parts[i]);
      if id.Some? && id.value in pendingIds {
        pending := Set(pending, id.value, parts[i]);
      }
    }
    assert parts[..|parts|] == parts;
  }

  method AddRaised(before: JsMap<string, Part>, events: seq<Event>, pendingIds: set<string>)
    returns (pending: JsMap<string, Part>)
    requires PendingMap(before)
    ensures PendingMap(pending)
    ensures forall id :: id in Keys(pending)
              <==> id in Keys(before) || (id in pendingIds && EventRaises(events, id))
  {
    pending := before;
    for i := 0 to |events|
      invariant PendingMap(pending)
      invariant forall id :: id in Keys(pending)
                  <==> id in Keys(before) || (id in pendingIds && EventRaises(events[..i], id))
    {
      forall id ensures EventRaises(events[..i + 1], id)
                   <==> EventRaises(events[..i], id) || PartRaises(events[i].author, events[i].parts, id)
      {
        EventRaisesLast(events, i, id);
      }
      pending := AddRaisedBy(pending, events[i].author, events[i].parts, pendingIds);
    }
    assert events[..|events|] == events;
  }

  method DropAnsweredBy(before: JsMap<string, Part>, parts: seq<Part>) returns (pending: JsMap<string, Part>)
    requires PendingMap(before)
    ensures PendingMap(pending)
    ensures forall id :: id in Keys(pending) <==> id in Keys(before) && id !in AnswersIn(parts)
  {
    pending := before;
    for i := 0 to |parts|
      invariant PendingMap(pending)
      invariant forall id :: id in Keys(pending) <==> id in Keys(before) && id !in AnswersIn(parts[..i])
    {
      assert parts[..i + 1] == parts[..i] + [parts[i]];
      var id := AnswerOf(parts[i]);
      if id.Some? {
        DeletePending(pending, id.value);
        pending := Delete(pending, id.value);
      }
    }
    assert parts[..|parts|] == parts;
  }

  method DropAnswered(before: JsMap<string, Part>, events: seq<Event>) returns (pending: JsMap<string, Part>)
    requires PendingMap(before)
    ensures PendingMap(pending)
    ensures forall id :: id in Keys(pending) <==> id in Keys(before) && id !in Answered(events)
  {
    pending := before;
    for i := 0 to |events|
      invariant PendingMap(pending)
      invariant forall id :: id in Keys(pending) <==> id in Keys(before) && id !in Answered(events[..i])
    {
      assert events[..i + 1] == events[..i] + [events[i]];
      assert Answered(events[..i + 1]) == Answered(events[..i]) + AnswersIn(events[i].parts);
      pending := DropAnsweredBy(pending, events[i].parts);
    }
    assert events[..|events|] == events;
  }

  // ---------------------------------------------------------------------------
  // The decision
  // ---------------------------------------------------------------------------

  /** Somebody still owes an answer to this id: it is pending in the session, or the
      task shows it and the session has not answered it. */
  ghost predicate Outstanding(task: Option<Task>, events: seq<Event>, id: string) {
    || Raises(Pending(AllRequests(events), Answered(events)), id)
    || (Displays(ShownParts(task), id) && id !in Answered(events))
  }

  lemma {:induction false} RequestsRaise(author: string, parts: seq<Part>, id: string)
    ensures Raises(RequestsOf(author, parts), id) <==> PartRaises(author, parts, id)
  {
    if parts != [] {
      var n := |parts| - 1;
      RequestsRaise(author, parts[..n], id);
      PartRaisesLast(author, parts, n, id);
      assert parts[..n + 1] == parts;
      RaisesAppend(RequestsOf(author, parts[..n]), RequestOf(author, parts[n]), id);
      OnePartRaises(author, parts[n], id);
    }
  }

  lemma OnePartRaises(author: string, part: Part, id: string)
    ensures Raises(RequestOf(author, part), id) <==> InterruptIdOfPart(author, part) == Some(id)
  {
    assert RequestsOf(author, [part]) == RequestsOf(author, []) + RequestOf(author, part);
  }

  lemma RaisesAppend(a: seq<UserInputRequest>, b: seq<UserInputRequest>, id: string)
    ensures Raises(a + b, id) <==> Raises(a, id) || Raises(b, id)
  {
    assert forall i :: 0 <= i < |a| ==> (a + b)[i] == a[i];
    assert forall i :: 0 <= i < |b| ==> (a + b)[|a| + i] == b[i];
  }

  lemma {:induction false} AllRequestsRaise(events: seq<Event>, id: string)
    ensures Raises(AllRequests(events), id) <==> EventRaises(events, id)
  {
    if events != [] {
      var n := |events| - 1;
      AllRequestsRaise(events[..n], id);
      EventRaisesLast(events, n, id);
      assert events[..n + 1] == events;
      RequestsRaise(events[n].author, events[n].parts, id);
      RaisesAppend(AllRequests(events[..n]), RequestsOf(events[n].author, events[n].parts), id);
    }
  }

  /** Some event of the session asks under this id. */
  ghost predicate Asked(events: seq<Event>, id: string) {
    exists e, p :: e in events && p in e.parts && p.call.Some? && AsksUnder(p.call.value, id)
  }

  /** The task waits for input and its message shows a call with this id. */
  ghost predicate IsShown(task: Option<Task>, id: string) {
    && task.Some? && task.value.inputRequired && task.value.message.Some? && |id| > 0
    && exists p :: p in task.value.message.value && p.call.Some? && p.call.value.id == Some(id)
  }

  lemma EventRaisesIff(events: seq<Event>, id: string)
    ensures EventRaises(events, id) <==> Asked(events, id)
  {
    forall author, part ensures InterruptIdOfPart(author, part) == Some(id)
                            <==> part.call.Some? && AsksUnder(part.call.value, id)
    {
      OnePartRaises(author, part, id);
      RaisesIff(author, part, id);
    }
    if EventRaises(events, id) {
      var i :| 0 <= i < |events| && PartRaises(events[i].author, events[i].parts, id);
      var j :| 0 <= j < |events[i].parts| && AsksFor(events[i].author, id)(events[i].parts[j]);
      assert events[i] in events && events[i].parts[j] in events[i].parts;
    }
    if e, p :| e in events && p in e.parts && p.call.Some? && AsksUnder(p.call.value, id) {
      var i :| 0 <= i < |events| && events[i] == e;
      var j :| 0 <= j < |e.parts| && e.parts[j] == p;
      assert AsksFor(e.author, id)(e.parts[j]);
    }
  }

  /** Whom the gate waits for, in terms of the parts alone: an id is outstanding exactly
      when some event asks under it or the task shows a call with it, and no response in
      the session carries it. */
  lemma OutstandingIff(task: Option<Task>, events: seq<Event>, id: string)
    ensures Outstanding(task, events, id)
       <==> (Asked(events, id) || IsShown(task, id)) && !IsAnswered(events, id)
  {
    PendingIff(events, id);
    AllRequestsRaise(events, id);
    EventRaisesIff(events, id);
    AnsweredIff(events, id);
    var shown := ShownParts(task);
    if Displays(shown, id) {
      var i :| 0 <= i < |shown| && CallId(shown[i]) == Some(id);
      assert shown[i] in shown;
    }
  }

  // ---------------------------------------------------------------------------
  // The documented rule: a request is answered by a later response
  // ---------------------------------------------------------------------------

  ghost predicate RaisedAt(events: seq<Event>, id: string, i: int) {
    0 <= i < |events| && PartRaises(events[i].author, events[i].parts, id)
  }

  ghost predicate AnsweredAt(events: seq<Event>, id: string, i: int) {
    0 <= i < |events| && id in AnswersIn(events[i].parts)
  }

  ghost predicate NotAnsweredAfter(events: seq<Event>, id: string, i: int) {
    forall j :: i < j ==> !AnsweredAt(events, id, j)
  }

  /** Pending as documented: some event raises the id and no later event answers it. */
  ghost predicate Awaited(events: seq<Event>, id: string) {
    exists i :: RaisedAt(events, id, i) && NotAnsweredAfter(events, id, i)
  }

  /** The id is raised again once its last answer is in. */
  ghost predicate AskedAgain(events: seq<Event>, id: string) {
    exists i, j :: RaisedAt(events, id, i) && AnsweredAt(events, id, j) && j <= i && NotAnsweredAfter(events, id, i)
  }

  lemma AnsweredSomewhere(events: seq<Event>, id: string)
    ensures id in Answered(events) <==> exists j :: AnsweredAt(events, id, j)
  {
    if id in Answered(events) {
      var e, p :| e in events && p in e.parts && AnswerOf(p).Some? && AnswerOf(p).value == id;
      var j :| 0 <= j < |events| && events[j] == e;
      assert AnsweredAt(events, id, j);
    }
    if j :| AnsweredAt(events, id, j) {
      assert events[j] in events;
    }
  }

  lemma RaisedSomewhere(events: seq<Event>, id: string)
    ensures Raises(AllRequests(events), id) <==> exists i :: RaisedAt(events, id, i)
  {
    AllRequestsRaise(events, id);
    if EventRaises(events, id) {
      var i :| 0 <= i < |events| && PartRaises(events[i].author, events[i].parts, id);
      assert RaisedAt(events, id, i);
    }
  }

  /** The pending list follows the documented rule for an id exactly when the id is not
      raised again after its last answer: a second question under an answered id is
      taken as answered already. */
  lemma PendingAsDocumentedIff(events: seq<Event>, id: string)
    ensures (Raises(Pending(AllRequests(events), Answered(events)), id) <==> Awaited(events, id))
       <==> !AskedAgain(events, id)
  {
    PendingIff(events, id);
    AnsweredSomewhere(events, id);
    RaisedSomewhere(events, id);
    if id in Answered(events) && Awaited(events, id) {
      var i :| RaisedAt(events, id, i) && NotAnsweredAfter(events, id, i);
      var j :| AnsweredAt(events, id, j);
    }
  }

  /** It does happen: an answer followed by a new question with the same id. */
  lemma AskedAgainIsDropped(answer: Event, question: Event, id: string)
    requires id in AnswersIn(answer.parts) && id !in AnswersIn(question.parts)
    requires PartRaises(question.author, question.parts, id)
    ensures var events := [answer, question];
            Awaited(events, id) && !Raises(Pending(AllRequests(events), Answered(events)), id)
  {
    var events := [answer, question];
    PendingIff(events, id);
    AnsweredSomewhere(events, id);
    assert AnsweredAt(events, id, 0) && RaisedAt(events, id, 1) && NotAnsweredAfter(events, id, 1);
  }

  method PendingRequestParts(task: Option<Task>, events: seq<Event>) returns (pending: JsMap<string, Part>)
    ensures PendingMap(pending)
    ensures forall id :: id in Keys(pending) <==> Outstanding(task, events, id)
  {
    pending := AddDisplayed(ShownParts(task));
    var requests := GetPendingUserInputRequests(events);
    var pendingIds := set r | r in requests :: r.interruptId;
    assert forall id :: id in pendingIds <==> Raises(requests, id);
    pending := AddRaised(pending, events, pendingIds);
    pending := DropAnswered(pending, events);
    forall id ensures id in pendingIds <==> EventRaises(events, id) && id !in Answered(events) {
      PendingIff(events, id);
      AllRequestsRaise(events, id);
    }
  }

  ghost predicate ShowsRequest(parts: seq<Part>, id: string) {
    exists i :: 0 <= i < |parts| && Carries(parts[i], id)
  }

  /** Every part asks for some outstanding id. */
  ghost predicate OnlyRequests(task: Option<Task>, events: seq<Event>, parts: seq<Part>) {
    forall i :: 0 <= i < |parts| ==> AsksForOutstanding(task, events, parts[i])
  }

  ghost predicate AsksForOutstanding(task: Option<Task>, events: seq<Event>, part: Part) {
    exists id :: Carries(part, id) && Outstanding(task, events, id)
  }

  lemma ShownAreOutstanding(task: Option<Task>, events: seq<Event>, pending: JsMap<string, Part>, parts: seq<Part>)
    requires PendingMap(pending) && forall id :: id in Keys(pending) <==> Outstanding(task, events, id)
    requires |parts| == |pending| && forall i :: 0 <= i < |pending| ==> parts[i] == pending[i].1
    ensures forall id :: Outstanding(task, events, id) ==> ShowsRequest(parts, id)
    ensures OnlyRequests(task, events, parts)
  {
    forall id | Outstanding(task, events, id) ensures ShowsRequest(parts, id) {
      var i :| 0 <= i < |pending| && Keys(pending)[i] == id;
      assert Carries(parts[i], id);
    }
    forall i | 0 <= i < |parts| ensures AsksForOutstanding(task, events, parts[i]) {
      assert Keys(pending)[i] in Keys(pending);
      assert Carries(parts[i], pending[i].0) && Outstanding(task, events, pending[i].0);
    }
  }

  /** The gate lets a message through exactly when it answers every outstanding id;
      otherwise it names one it does not answer and shows every outstanding request. */
  method GetUnansweredRequestEvent(taskId: string, contextId: string, task: Option<Task>, events: seq<Event>,
                                   message: seq<Part>)
    returns (refusal: Option<Refusal>)
    ensures refusal.None? <==> forall id :: Outstanding(task, events, id) ==> id in AnswersIn(message)
    ensures refusal.Some? ==> Outstanding(task, events, refusal.value.missingId)
    ensures refusal.Some? ==> refusal.value.missingId !in AnswersIn(message)
    ensures refusal.Some? ==> forall id :: Outstanding(task, events, id) ==> ShowsRequest(refusal.value.parts, id)
    ensures refusal.Some? ==> OnlyRequests(task, events, refusal.value.parts)
    ensures refusal.Some? ==> refusal.value.taskId == if task.Some? then task.value.id else taskId
    ensures refusal.Some? ==> refusal.value.contextId == if task.Some? then task.value.contextId else contextId
  {
    var pending := PendingRequestParts(task, events);
    var answered := AnswersIn(message);
    for i := 0 to |pending|
      invariant forall j :: 0 <= j < i ==> pending[j].0 in answered
    {
      if pending[i].0 !in answered {
        assert Keys(pending)[i] in Keys(pending);
        var parts := seq(|pending|, j requires 0 <= j < |pending| => pending[j].1);
        ShownAreOutstanding(task, events, pending, parts);
        return Some(Refusal(if task.Some? then task.value.id else taskId,
                            if task.Some? then task.value.contextId else contextId, parts, pending[i].0));
      }
    }
    forall id | Outstanding(task, events, id) ensures id in answered {
      assert id in Keys(pending);
    }
    return None;
  }
}
