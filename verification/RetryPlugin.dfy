/** The reflect-and-retry tool plugin (core/src/plugins/reflect_retry_tool_plugin.ts). */
module RetryPlugin {
  import opened Wrappers
  import opened Seqs
  import opened RetryTracker

  datatype TrackingScope = INVOCATION | GLOBAL

  const GLOBAL_SCOPE_KEY := "__global_reflect_and_retry_scope__"

  /** Invocation scope needs an invocation id; without one the original throws. */
  function ResolveScopeKey(scope: TrackingScope, invocationId: string): Option<string> {
    match scope
    case INVOCATION => if invocationId == "" then None else Some(invocationId)
    case GLOBAL => Some(GLOBAL_SCOPE_KEY)
  }

  /** A callback of the runtime: after a tool returned (its result may be one of the
      plugin's own reflection responses, or hold an extractable error), or after it
      threw. */
  datatype Callback = AfterTool(isReflection: bool, hasError: bool) | OnToolError

  /** What the plugin answers: nothing, a reflection with its retry count, the
      retry-exceeded guidance, the tool's error, or a missing invocation id. */
  datatype Reply = Nothing | Reflect(retryCount: nat) | Exceeded(retryCount: nat) | ThrowToolError | ThrowNoScope

  datatype Verdict = Ignored | Failure | Success

  function Judge(c: Callback): Verdict {
    match c
    case OnToolError => Failure
    case AfterTool(isReflection, hasError) =>
      if isReflection then Ignored else if hasError then Failure else Success
  }

  class ReflectAndRetryToolPlugin {
    const maxRetries: nat
    const throwExceptionIfRetryExceeded: bool
    const scope: TrackingScope
    const tracker: ScopedFailureTracker

    constructor (maxRetries: nat, throwExceptionIfRetryExceeded: bool, scope: TrackingScope)
      ensures this.maxRetries == maxRetries && this.scope == scope
      ensures this.throwExceptionIfRetryExceeded == throwExceptionIfRetryExceeded
      ensures fresh(tracker) && tracker.scopedFailureCounters == map[]
    {
      this.maxRetries := maxRetries;
      this.throwExceptionIfRetryExceeded := throwExceptionIfRetryExceeded;
      this.scope := scope;
      tracker := new ScopedFailureTracker();
    }

    method AfterToolCallback(isReflection: bool, hasError: bool, tool: string, invocationId: string)
      returns (reply: Reply)
      modifies tracker
      ensures (tracker.scopedFailureCounters, reply)
           == Handle(Config(maxRetries, throwExceptionIfRetryExceeded), old(tracker.scopedFailureCounters),
                     ResolveScopeKey(scope, invocationId), tool, Judge(AfterTool(isReflection, hasError)))
    {
      if isReflection {
        return Nothing;
      }
      if hasError {
        reply := HandleToolError(tool, invocationId);
        return;
      }
      var key := ResolveScopeKey(scope, invocationId);
      if key.None? {
        return ThrowNoScope;
      }
      tracker.ResetCount(key.value, tool);
      return Nothing;
    }

    method OnToolErrorCallback(tool: string, invocationId: string) returns (reply: Reply)
      modifies tracker
      ensures (tracker.scopedFailureCounters, reply)
           == Handle(Config(maxRetries, throwExceptionIfRetryExceeded), old(tracker.scopedFailureCounters),
                     ResolveScopeKey(scope, invocationId), tool, Judge(OnToolError))
    {
      reply := HandleToolError(tool, invocationId);
    }

    method HandleToolError(tool: string, invocationId: string) returns (reply: Reply)
      modifies tracker
      ensures (tracker.scopedFailureCounters, reply)
           == Handle(Config(maxRetries, throwExceptionIfRetryExceeded), old(tracker.scopedFailureCounters),
                     ResolveScopeKey(scope, invocationId), tool, Failure)
    {
      if maxRetries == 0 {
        return if throwExceptionIfRetryExceeded then ThrowToolError else Exceeded(0);
      }
      var key := ResolveScopeKey(scope, invocationId);
      if key.None? {
        return ThrowNoScope;
      }
      var currentRetries := tracker.IncrementCount(key.value, tool);
      if currentRetries <= maxRetries {
        return Reflect(currentRetries);
      }
      return if throwExceptionIfRetryExceeded then ThrowToolError else Exceeded(maxRetries);
    }
  }

  datatype Config = Config(maxRetries: nat, throws: bool)

  /** The reply to a failure that is the `n`-th in a row. */
  function ReplyTo(config: Config, n: nat): Reply {
    if n <= config.maxRetries then Reflect(n)
    else if config.throws then ThrowToolError
    else Exceeded(config.maxRetries)
  }

  /** The operation on the tracker, if any. */
  function OpOf(config: Config, key: Option<string>, tool: string, v: Verdict): Option<Op> {
    if key.None? || v.Ignored? || (v.Failure? && config.maxRetries == 0) then None
    else if v.Failure? then Some(Increment(key.value, tool))
    else Some(Reset(key.value, tool))
  }

  function Handle(config: Config, counters: Counters, key: Option<string>, tool: string, v: Verdict)
    : (Counters, Reply)
  {
    var op := OpOf(config, key, tool, v);
    if op.Some? then
      var (after, n) := Apply(counters, op.value);
      (after, if v.Failure? then ReplyTo(config, n) else Nothing)
    else if v.Ignored? then (counters, Nothing)
    else if v.Failure? && config.maxRetries == 0 then (counters, ReplyTo(config, 1))
    else (counters, ThrowNoScope)
  }

  // ---------------------------------------------------------------------------
  // Runs
  // ---------------------------------------------------------------------------

  /** One callback with the scope key it resolves to. */
  datatype Event = Event(key: string, tool: string, verdict: Verdict)

  function CountersAfter(config: Config, h: seq<Event>): Counters {
    if h == [] then map[]
    else
      var e := h[|h| - 1];
      Handle(config, CountersAfter(config, h[..|h| - 1]), Some(e.key), e.tool, e.verdict).0
  }

  function ReplyAt(config: Config, h: seq<Event>): Reply
    requires h != []
  {
    var e := h[|h| - 1];
    Handle(config, CountersAfter(config, h[..|h| - 1]), Some(e.key), e.tool, e.verdict).1
  }

  function Concerns(key: string, tool: string): Event -> bool {
    (e: Event) => e.key == key && e.tool == tool && !e.verdict.Ignored?
  }

  /** The failures at the end of a history. */
  function TrailingFailures(h: seq<Event>): nat {
    if h == [] || !h[|h| - 1].verdict.Failure? then 0 else 1 + TrailingFailures(h[..|h| - 1])
  }

  /** The failures in a row of a tool in a scope: the trailing failures of its own
      events, the plugin's reflection responses and everything else left out. */
  function InARow(h: seq<Event>, key: string, tool: string): nat {
    TrailingFailures(Filter(h, Concerns(key, tool)))
  }

  lemma InARowLast(h: seq<Event>, e: Event, key: string, tool: string)
    ensures InARow(h + [e], key, tool)
         == if !Concerns(key, tool)(e) then InARow(h, key, tool)
            else if e.verdict.Failure? then InARow(h, key, tool) + 1
            else 0
  {
    var before := Filter(h, Concerns(key, tool));
    FilterLast(h, e, Concerns(key, tool));
    assert (before + [e])[..|before|] == before;
  }

  lemma CountLast(config: Config, c: Counters, e: Event, key: string, tool: string)
    requires config.maxRetries > 0
    ensures Count(Handle(config, c, Some(e.key), e.tool, e.verdict).0, key, tool)
         == if !Concerns(key, tool)(e) then Count(c, key, tool)
            else if e.verdict.Failure? then Count(c, key, tool) + 1
            else 0
  {
    var op := OpOf(config, Some(e.key), e.tool, e.verdict);
    if op.Some? {
      ApplyCount(c, op.value, key, tool);
    }
  }

  lemma {:induction false} CountIsInARow(config: Config, h: seq<Event>, key: string, tool: string)
    requires config.maxRetries > 0
    ensures Count(CountersAfter(config, h), key, tool) == InARow(h, key, tool)
  {
    if h != [] {
      var n := |h| - 1;
      CountIsInARow(config, h[..n], key, tool);
      assert h == h[..n] + [h[n]];
      InARowLast(h[..n], h[n], key, tool);
      CountLast(config, CountersAfter(config, h[..n]), h[n], key, tool);
    }
  }

  /** With retries allowed, the k-th failure in a row of a tool in a scope is answered
      with retry count k up to the limit and with the exceeded path after it; other
      tools, other scopes and reflection responses do not matter. */
  lemma FailuresAreCounted(config: Config, h: seq<Event>, e: Event)
    requires config.maxRetries > 0 && e.verdict.Failure?
    ensures var k := InARow(h, e.key, e.tool) + 1;
            && InARow(h + [e], e.key, e.tool) == k
            && ReplyAt(config, h + [e])
               == if k <= config.maxRetries then Reflect(k)
                  else if config.throws then ThrowToolError
                  else Exceeded(config.maxRetries)
  {
    CountIsInARow(config, h, e.key, e.tool);
    CountIsInARow(config, h + [e], e.key, e.tool);
    assert (h + [e])[..|h|] == h;
    ApplyCount(CountersAfter(config, h), Increment(e.key, e.tool), e.key, e.tool);
  }

  lemma InARowSkips(h: seq<Event>, others: seq<Event>, key: string, tool: string)
    requires Filter(others, Concerns(key, tool)) == []
    ensures InARow(h + others, key, tool) == InARow(h, key, tool)
  {
    FilterAppend(h, others, Concerns(key, tool));
    assert Filter(h, Concerns(key, tool)) + [] == Filter(h, Concerns(key, tool));
  }

  /** A success resets the tool's counter in its scope, with or without retries. */
  lemma SuccessResets(config: Config, h: seq<Event>, e: Event)
    requires e.verdict.Success?
    ensures Count(CountersAfter(config, h + [e]), e.key, e.tool) == 0 && ReplyAt(config, h + [e]) == Nothing
  {
    assert (h + [e])[..|h|] == h;
    ApplyCount(CountersAfter(config, h), Reset(e.key, e.tool), e.key, e.tool);
  }

  /** After a success, whatever other tools and scopes and reflection responses come in
      between, the next failure of the same tool and scope is the first of a new row. */
  lemma SuccessStartsAnew(config: Config, h: seq<Event>, e: Event, others: seq<Event>, failure: Event)
    requires config.maxRetries > 0 && e.verdict.Success?
    requires Filter(others, Concerns(e.key, e.tool)) == []
    requires failure.key == e.key && failure.tool == e.tool && failure.verdict.Failure?
    ensures Count(CountersAfter(config, h + [e] + others), e.key, e.tool) == 0
    ensures ReplyAt(config, h + [e] + others + [failure]) == Reflect(1)
  {
    InARowLast(h, e, e.key, e.tool);
    InARowSkips(h + [e], others, e.key, e.tool);
    CountIsInARow(config, h + [e] + others, e.key, e.tool);
    FailuresAreCounted(config, h + [e] + others, failure);
  }

  /** Without retries every failure takes the exceeded path and nothing is counted. */
  lemma NoRetries(config: Config, h: seq<Event>, e: Event)
    requires config.maxRetries == 0 && e.verdict.Failure?
    ensures ReplyAt(config, h + [e]) == if config.throws then ThrowToolError else Exceeded(0)
    ensures CountersAfter(config, h + [e]) == CountersAfter(config, h)
  {
    assert (h + [e])[..|h|] == h;
  }

  // ---------------------------------------------------------------------------
  // Whole histories of callbacks
  // ---------------------------------------------------------------------------

  /** One callback as the runtime makes it. */
  datatype ToolCall = ToolCall(callback: Callback, tool: string, invocationId: string)

  /** The counters and the last reply after a history of callbacks. */
  function CallsAfter(config: Config, scope: TrackingScope, h: seq<ToolCall>): (Counters, Reply) {
    if h == [] then (map[], Nothing)
    else
      var last := h[|h| - 1];
      Handle(config, CallsAfter(config, scope, h[..|h| - 1]).0, ResolveScopeKey(scope, last.invocationId), last.tool,
             Judge(last.callback))
  }

  /** The tool threw, or its result holds an error and is no reflection of the plugin's. */
  predicate IsFailure(c: Callback) {
    c.OnToolError? || (!c.isReflection && c.hasError)
  }

  predicate IsReflection(c: Callback) { c.AfterTool? && c.isReflection }

  /** Calls of one tool share a counter within their invocation, or everywhere; a call
      without an invocation id has none in invocation scope. */
  predicate Shares(scope: TrackingScope, a: ToolCall, b: ToolCall) {
    a.tool == b.tool && (scope.GLOBAL? || (a.invocationId == b.invocationId && |a.invocationId| > 0))
  }

  /** The failures in a row among the calls that share a counter with `c`, reflections
      left out, at the end of a history. */
  function RowOf(scope: TrackingScope, h: seq<ToolCall>, c: ToolCall): nat {
    if h == [] then 0
    else
      var before, last := RowOf(scope, h[..|h| - 1], c), h[|h| - 1];
      if !Shares(scope, last, c) || IsReflection(last.callback) then before
      else if IsFailure(last.callback) then before + 1
      else 0
  }

  lemma {:induction false} CountIsRow(config: Config, scope: TrackingScope, h: seq<ToolCall>, c: ToolCall)
    requires config.maxRetries > 0 && ResolveScopeKey(scope, c.invocationId).Some?
    ensures Count(CallsAfter(config, scope, h).0, ResolveScopeKey(scope, c.invocationId).value, c.tool)
         == RowOf(scope, h, c)
  {
    if h != [] {
      var before, last := h[..|h| - 1], h[|h| - 1];
      CountIsRow(config, scope, before, c);
      var key := ResolveScopeKey(scope, last.invocationId);
      var op := OpOf(config, key, last.tool, Judge(last.callback));
      if op.Some? {
        ApplyCount(CallsAfter(config, scope, before).0, op.value,
                   ResolveScopeKey(scope, c.invocationId).value, c.tool);
      }
    }
  }

  /** What the plugin answers, after any history of callbacks: nothing to its own
      reflections; without retries the exceeded path to every failure; an error when the
      scope needs an invocation id and there is none; nothing to a success; and to a
      failure its place in the row of its tool and scope, up to the limit. */
  lemma CallbacksAreAnswered(config: Config, scope: TrackingScope, h: seq<ToolCall>, c: ToolCall)
    ensures var reply, k := CallsAfter(config, scope, h + [c]).1, RowOf(scope, h, c) + 1;
            var exceeded := if config.throws then ThrowToolError else Exceeded(config.maxRetries);
            reply == if IsReflection(c.callback) then Nothing
                     else if IsFailure(c.callback) && config.maxRetries == 0 then exceeded
                     else if scope.INVOCATION? && c.invocationId == "" then ThrowNoScope
                     else if !IsFailure(c.callback) then Nothing
                     else if k <= config.maxRetries then Reflect(k)
                     else exceeded
  {
    assert (h + [c])[..|h|] == h;
    var key := ResolveScopeKey(scope, c.invocationId);
    if key.Some? && config.maxRetries > 0 {
      CountIsRow(config, scope, h, c);
    }
  }

  // ---------------------------------------------------------------------------
  // Concurrent callbacks
  // ---------------------------------------------------------------------------

  /** The tracker operations of a history, in order. */
  function OpsIn(config: Config, h: seq<Event>): seq<Op> {
    if h == [] then []
    else
      var e, before := h[|h| - 1], OpsIn(config, h[..|h| - 1]);
      match OpOf(config, Some(e.key), e.tool, e.verdict) case Some(op) => before + [op] case None => before
  }

  lemma {:induction false} CountersComeFromOps(config: Config, h: seq<Event>)
    ensures CountersAfter(config, h) == After(OpsIn(config, h))
  {
    if h != [] {
      var before := OpsIn(config, h[..|h| - 1]);
      CountersComeFromOps(config, h[..|h| - 1]);
      assert forall op :: (before + [op])[..|before|] == before;
    }
  }

  /** However the calls of concurrent callbacks to the tracker interleave: if the calls
      that arrived up to the `n`-th are those of history `h` and then of a failure `e`,
      that failure is answered by its place in the row of `h`. */
  lemma ConcurrentFailuresAreCounted(config: Config, schedule: seq<Action>, n: nat, h: seq<Event>, e: Event)
    requires config.maxRetries > 0 && e.verdict.Failure?
    requires var calls := Run(IDLE, schedule).calls;
             n < |calls| && calls[n].phase.Released? && OpsOf(calls)[..n + 1] == OpsIn(config, h + [e])
    ensures ReplyTo(config, Run(IDLE, schedule).calls[n].phase.result) == ReplyAt(config, h + [e])
    ensures Run(IDLE, schedule).calls[n].phase.result == InARow(h, e.key, e.tool) + 1
  {
    var calls := Run(IDLE, schedule).calls;
    var ops := OpsOf(calls)[..n + 1];
    ResultsFollowArrival(schedule, n);
    assert (h + [e])[..|h|] == h;
    assert ops[n] == Increment(e.key, e.tool) && calls[n].op == ops[n];
    CountersComeFromOps(config, h + [e]);
    CountsAreStreaks(ops, e.key, e.tool);
    CountIsInARow(config, h + [e], e.key, e.tool);
    FailuresAreCounted(config, h, e);
  }
}
