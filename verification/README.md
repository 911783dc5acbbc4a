# Verified model of the agent runtime's in-memory state machines

This project models the parts of the agent development kit's runtime that carry
ordering, conservation or agreement guarantees, and proves those guarantees for all
inputs, all runs or all schedules. It follows the code; where the code and its own
documentation disagree, the disagreement is named below.

| files | what they model |
|---|---|
| `CompactionUtils`, `AnchoredCompactor`, `TokenCompactor` | visibility by isolation scope, the split index, the compactor that rewrites the session list in place and the one that only appends |
| `AnchoredViews`, `AnchoredReaders` | what one anchored compaction does to the views of its caller and of other readers |
| `AnchoredHistory`, `AnchoredRuns`, `AnchoredLosses`, `TokenHistory` | whole runs of the two compactors with overlapping compactions: when what is summarized and what is still active is a partition of the shared history |
| `LiveQueue`, `LiveFlow` | the rendezvous queue of live requests, and the bounded reconnect loop whose send loops read from it, as interleaved steps |
| `A2A`, `A2AProcessor` | aggregation of streamed artifact chunks, against the normal form of the part stream and against the history of events |
| `Interactions`, `InteractionSteps` | accumulation of server-sent interaction events, and what each step contributes |
| `ParallelMerge` | merging of concurrent agent runs under an arbitrary scheduler |
| `Registry` | model resolution: an LRU cache in front of a first-match scan |
| `Unicode`, `SourceNames` | UTF-16, UTF-8 and base64url (section 5 of RFC 4648), and the display names of stored transcripts |
| `UriComponents`, `Artifacts`, `ArtifactService` | `encodeURIComponent` (section 19.2.6.4 of ECMA-262), and the artifact store whose encoded string keys stand for a versioned map |
| `RetryTracker`, `RetryPlugin` | the failure counter with its promise-chain lock, and the reflect-and-retry tool plugin on top of it |
| `InputGate` | pending requests for user input and the gate that keeps a paused conversation paused |
| `Common`, `Events` | filters, the insertion-ordered map, content parts, session events |

Code that works by changing things step by step is imperative here too: each such
method is tied by its `ensures` to a function of the old state, and what the source
promises is proved about that function. Concurrency is modelled as state machines whose
schedule is an arbitrary list of steps, or as a method with an arbitrary choice. Model,
network and summarizer calls, regular expressions and JSON parsing are parameters.

## What the proofs found

- `calculateRetainStartIndex` throws for a retention size below one on every list longer
  than that size, because it reads past the end (`RetainStartIsOptimal`).
- Both compactors can lose retained events from every view, and the append-only one can
  bring summarized events back, when timestamps tie or run backwards across the split;
  the session service appends in order of arrival and does not prevent that. The exact
  conditions are `CompactionKeepsTheTailIff` and `AnchoredViews.RetainedStayActiveIff`;
  the two lemmas `TieLosesRetained` are the smallest cases.
- Overlapping unscoped anchored compactions keep the history partitioned exactly as long
  as no summary arrives late (`HistoryIsPartitionedIff`). A late one leaves two scratchpads
  for good, and if it covers less than what was summarized meanwhile, the events in
  between are neither active nor in the summary shown (`FinishLosesIff`,
  `LateSummaryLoses`). `AnchoredLosses.LostIff` says what is lost after any number of late
  ones. The append-only compactor tolerates any overlap
  (`OverlappingCompactionsKeepHistory`).
- An unscoped compaction can take active events away from scoped readers: a private event
  that is not later than the new summary was never in it, a scope's own scratchpad that
  stands before the new one is hidden, and one that stands behind it hides the new summary
  of the events that were replaced. `AnchoredReaders.ActiveEventLostIff` and
  `OwnSummaryStaysIff` say exactly when, `PrivateEventIsLost` and `PrivateSummaryIsHidden`
  are inputs. The append-only compactor loses private events too
  (`TokenCompactor.ActiveEventLostIff`).
- A request whose dispatch fails is lost, at most one per connection attempt
  (`AllSentIff`, `FailedDispatchLoses`, `AtMostOneLostPerAttempt`).
- The send loop's path that rethrows a failed read is never taken: a read is rejected
  only when the loop was told to stop (`ReadsFailOnlyWhenTold`).
- A stream that reports its completion and brings any part reports it again at its end;
  `ReportedOnceIff` says exactly when a turn is reported complete once.
- Overwriting a registered pattern leaves stale answers in the cache
  (`OverwriteGoesStale`); `OverwriteKeepsCoherenceIff` says exactly when it does not.
- Source names round-trip exactly for identifiers that are not empty and hold no unpaired
  surrogate (`BuiltParsesIff`).
- The documentation of `getPendingUserInputRequests` says that a request is answered by a
  *later* response. The code counts responses anywhere in the history, so a question
  asked again under an answered id is dropped (`AskedAgainIsDropped`); the two agree
  exactly when no id is raised again after its last answer (`PendingAsDocumentedIff`).

## Model

| member | source | states |
|---|---|---|
| CompactionUtils.LatestCompactedIs | core/src/context/compaction_utils.ts:30-30 | the latest compacted event is the compacted event after which every visible event is raw, and there is none iff every visible event is raw |
| CompactionUtils.LargestSafeIsOptimal | core/src/context/compaction_utils.ts:71-84 | the search ends at an index that separates no call from its response, and every larger index up to the baseline would |
| CompactionUtils.RetainStartIsOptimal | core/src/context/compaction_utils.ts:64-87 | the split index exists iff the list is no longer than the retention size or that size is at least one; it is then the largest index not above max(0, length - retention) that is 0 or safe |
| CompactionUtils.CalculateRetainStartIndex | core/src/context/compaction_utils.ts:64-87 | the loop terminates with that optimal index, or fails exactly when it reads past the end |
| CompactionUtils.SplitsIff | core/src/context/compaction_utils.ts:64-87 | on a list longer than the retention size the split throws iff that size is below one, and is not 0 iff some cut retains enough and parts no call from a response in the next event; it is then the last such cut |
| CompactionUtils.TailSurvivesIff | core/src/context/compaction_utils.ts:34-36 | on a list in any order, a filter keeps exactly the events from the cut on iff it rejects every event before the cut and accepts every event from it on |
| CompactionUtils.OrderedCutIff | core/src/context/compaction_utils.ts:34-36 | with timestamps that never decrease the cut is clean iff no tie crosses it |
| AnchoredCompactor.GetActiveEvents | core/src/context/anchored_context_compactor.ts:47-73 | the backward scan finds the latest visible scratchpad and returns it with the unsummarized events |
| AnchoredCompactor.CompactsIff | core/src/context/anchored_context_compactor.ts:107-174 | for every list: the compaction throws iff the retention size is below one and the raw active part longer; it goes ahead iff that size is at least one and some cut retains that many and parts no call from its response, scratchpad or not; the summarizer is handed the scratchpad of the view, iff that is untagged or of the caller's scope, and the events before the last such cut; exactly what was handed over and, for a scoped caller, carries its scope is replaced |
| AnchoredCompactor.PreparedPlans | core/src/context/anchored_context_compactor.ts:107-151 | a compaction that goes ahead covers a non-empty proper prefix of the raw active events, ends at a safe split and leaves at least the retention size, which is then at least one |
| AnchoredCompactor.PreparedPlansTakeTheirOwn | core/src/context/anchored_context_compactor.ts:163-174 | every event a compaction takes out was handed to the summarizer and, for a scoped caller, carries exactly the caller's scope; everything handed over was visible to the caller |
| AnchoredCompactor.ApplyPlan | core/src/context/anchored_context_compactor.ts:153-192 | the shared list is rewritten in place to the specified one, even if it changed while the summarizer ran |
| AnchoredCompactor.Compact | core/src/context/anchored_context_compactor.ts:107-193 | the list is untouched when compaction is not needed, the split throws or the summarizer fails, and is otherwise rewritten with the plan made from the list |
| AnchoredCompactor.RewriteAnatomy | core/src/context/anchored_context_compactor.ts:153-192 | exactly one scratchpad is inserted, where the first replaced event stood or at the end: marked, authored by the system, with the summary's content and times and the caller's scope or else the summary's own; without it the list is the old one minus the replaced events |
| AnchoredCompactor.VisibleAfterRewrite | core/src/context/anchored_context_compactor.ts:153-192 | what any reader sees after the rewrite, in terms of what it saw before |
| AnchoredCompactor.ScopesDoNotInterfere | core/src/context/anchored_context_compactor.ts:153-192 | a compaction for one scope leaves the visible list and both active views of every other scope and of unscoped readers unchanged, whatever happened to the list in between |
| AnchoredCompactor.RemovedWasSummarized | core/src/context/anchored_context_compactor.ts:163-186 | an event that disappears from the session was handed to the summarizer and belonged to the caller |
| AnchoredRuns.RunKeeps | core/src/context/anchored_context_compactor.ts:107-193 | over every run of appends, unscoped compactions overlapping in any way, failures and other scopes' compactions: the partition invariant holds while no summary was late, and two scratchpads stay once one was |
| AnchoredRuns.HistoryIsPartitionedIff | core/src/context/anchored_context_compactor.ts:107-193 | over every such run the active view is the only untagged scratchpad, if anything was summarized, followed by exactly the shared events not yet summarized, in order, none lost and none repeated, iff no compaction that finished had been planned before another one finished |
| AnchoredRuns.FinishLosesIff | core/src/context/anchored_context_compactor.ts:153-192 | the first late summary makes the view its own scratchpad followed by the events after the longest summary so far; a history event is neither in the view nor in the summary shown iff it lies between the end of that summary's own stretch and what was summarized before |
| AnchoredLosses.ViewAlwaysContinues | core/src/context/anchored_context_compactor.ts:107-193 | over every run, however many summaries were late, the view is one scratchpad, if anything was summarized, followed by exactly the shared events no finished compaction has summarized |
| AnchoredLosses.FinishShows | core/src/context/anchored_context_compactor.ts:153-192 | which scratchpad is shown after any finish of any run: the latest one that stays behind the first replaced event, or else the new one; and which stretches of the history it stands for |
| AnchoredLosses.LostIff | core/src/context/anchored_context_compactor.ts:107-193 | after every run a shared event is neither active nor in the summary shown iff it was summarized but not by the shown scratchpad or one that took it over |
| AnchoredLosses.NothingLostInTime | core/src/context/anchored_context_compactor.ts:107-193 | no shared event is lost while no compaction was late |
| AnchoredLosses.LateSummaryLoses | core/src/context/anchored_context_compactor.ts:107-193 | a run of three events and two overlapping compactions whose longer one finishes first: the second event is gone from the view and from the summary shown |
| AnchoredLosses.PromptContinues | core/src/agents/processors/content_request_processor.ts:45-48 | over every run whose shared events are raw the prompt is built from the same view |
| AnchoredHistory.LateFinishLeavesTwo | core/src/context/anchored_context_compactor.ts:175-192 | a late summary comes to stand beside the scratchpad it does not know |
| AnchoredHistory.FinishKeepsTwo | core/src/context/anchored_context_compactor.ts:163-192 | once two scratchpads are in the session no later compaction makes them one again |
| AnchoredViews.RetainedStayActiveIff | core/src/context/anchored_context_compactor.ts:107-193 | for every compaction of any list in any order, unscoped or scoped: the caller's new view is the new scratchpad followed by exactly the retained raw events iff no other scratchpad the caller sees stays behind its place, every retained event is later than the last summarized one and not replaced, and no summarized event that stays in the list is later |
| AnchoredViews.PromptSeesTheView | core/src/agents/processors/content_request_processor.ts:45-48 | a reader who sees no compacted event but scratchpads gets the compactor's own view in the prompt |
| AnchoredViews.TieLosesRetained | core/src/context/anchored_context_compactor.ts:68-72 | two events with one timestamp and retention size one: the retained event stays in the session and leaves the view |
| AnchoredViews.OverlappingCompactionsLeaveTwo | core/src/context/anchored_context_compactor.ts:163-192 | a scratchpad that was not in the list when an unscoped plan was made stays beside the new one when the plan is applied to any later list |
| AnchoredReaders.ViewSurvivesIff | core/src/context/anchored_context_compactor.ts:54-72 | the active view of any reader who sees the new scratchpad is unchanged iff the scratchpad it starts with stands behind the new one and none of its events is replaced |
| AnchoredReaders.ViewAfter | core/src/context/anchored_context_compactor.ts:54-72 | what any reader who sees the new scratchpad is shown: the latest scratchpad that stays behind its place, or else the new one, and the later events that were not replaced |
| AnchoredReaders.ActiveEventLostIff | core/src/context/anchored_context_compactor.ts:107-193 | an active event is lost to such a reader, gone from the view and not in the summary shown, iff: another scratchpad is shown and the event was replaced or is not later than its end; or the new one is shown, whose summary was not made from the event but ends no earlier |
| AnchoredReaders.OwnSummaryStaysIff | core/src/context/anchored_context_compactor.ts:54-72 | the reader goes on being shown its scratchpad iff that one stands behind the new one and is not replaced |
| AnchoredReaders.PrivateEventIsLost | core/src/context/anchored_context_compactor.ts:107-193 | an unscoped compaction of a shared event hides an earlier event of a scope that has no scratchpad |
| AnchoredReaders.PrivateSummaryIsHidden | core/src/context/anchored_context_compactor.ts:107-193 | an unscoped compaction hides the scratchpad of a scope that stands before it |
| TokenCompactor.Compact | core/src/context/token_based_context_compactor.ts:87-130 | the session list is unchanged, or extended by the summarizer's event tagged with the caller's scope unless it has one |
| TokenCompactor.CompactsIff | core/src/context/token_based_context_compactor.ts:87-113 | for every list: the compaction throws iff the retention size is below one and the raw active part longer; it goes ahead iff that size is at least one and some cut retains that many and parts no call from its response; the summarizer is handed the latest compacted event the caller sees and the events before the last such cut |
| TokenCompactor.ScopesDoNotInterfere | core/src/context/token_based_context_compactor.ts:115-129 | the new event belongs to the scope its summarizer named, or else to the caller's: every other reader's active view stays the same, and its own starts with it; the rest of the event is the summarizer's |
| TokenCompactor.LaterOfVisible | core/src/context/compaction_utils.ts:31-37 | events later than an active one are the same on the visible list and on the raw active part |
| TokenCompactor.ViewAfterAppend | core/src/context/compaction_utils.ts:23-39 | the view computed after a visible compacted event was appended |
| TokenCompactor.CompactionKeepsTheTailIff | core/src/context/token_based_context_compactor.ts:87-130 | on any session list, after a compaction the active view is the new event followed by exactly the raw events from the split on iff the split is a clean cut in time: nothing before it is later than the last summarized event and everything from it on is; at least the retention size is kept and the raw part gets strictly shorter |
| TokenCompactor.TieLosesRetained | core/src/context/compaction_utils.ts:31-37 | two events with one timestamp and retention size one: the retained event stays in the session and leaves the view |
| TokenCompactor.ActiveEventLostIff | core/src/context/token_based_context_compactor.ts:87-130 | an append-only compaction takes a raw active event away from any reader iff the reader sees the new event, whose summary was not made from it but ends no earlier; the reader's former compacted event is always hidden by one it sees |
| TokenCompactor.PrivateEventIsLost | core/src/context/token_based_context_compactor.ts:87-130 | an unscoped compaction of a shared event hides an earlier event of another scope |
| TokenHistory.ViewIs | core/src/context/compaction_utils.ts:23-39 | in every reachable state the view is the newest compacted event and the events it does not stand for |
| TokenHistory.RunKeeps | core/src/context/token_based_context_compactor.ts:87-130 | the invariant holds over every run, and the session list and the history only grow |
| TokenHistory.OverlappingCompactionsKeepHistory | core/src/context/token_based_context_compactor.ts:87-130 | over every run of appends in time order and compactions overlapping in any way, the active view continues exactly where the newest compacted event stops, every summary is made from one stretch of the history on top of the event covering everything before it, and the old list is a prefix of the new one |
| LiveQueue.SendKeeps | core/src/agents/live_request_queue.ts:43-53 | send keeps conservation, the rendezvous condition, fairness and the bookkeeping of promises |
| LiveQueue.GetKeeps | core/src/agents/live_request_queue.ts:66-91 | get keeps them |
| LiveQueue.AbortKeeps | core/src/agents/live_request_queue.ts:77-83 | an aborted reader leaves the queue without losing or reordering a request |
| LiveQueue.CloseKeeps | core/src/agents/live_request_queue.ts:96-117 | close keeps them, closes the queue and gives every parked reader a request to close, without touching what was accepted, delivered or buffered |
| LiveQueue.EveryRunIsValid | core/src/agents/live_request_queue.ts:31-117 | so does every interleaving of send, get, abort and close |
| LiveQueue.QueueConservesRequests | core/src/agents/live_request_queue.ts:43-117 | for every interleaving the accepted requests are the delivered ones in delivery order followed by the buffered ones; readers are served in order of arrival, each at most once; buffered requests and parked readers never coexist; a closed queue has no parked reader |
| LiveQueue.EveryReaderIsAccountedFor | core/src/agents/live_request_queue.ts:43-117 | over every run: the accepted requests are those sent before the first close; a promise is fulfilled only with a request delivered to its reader or, after a close, with the close marker; it is rejected only when its own reader's signal has fired; every other reader is parked |
| LiveQueue.NextReaderGets | core/src/agents/live_request_queue.ts:66-91 | after every run a new reader gets the oldest request nobody took, whatever its signal did and even after a close; else the close marker if the queue was closed; else a rejection if its signal had fired; else it parks |
| LiveQueue.CloseReleasesEveryReader | core/src/agents/live_request_queue.ts:96-117 | after every run closing resolves every parked reader with a request to close, and changes nothing accepted, delivered or buffered |
| LiveQueue.SettledStays | core/src/agents/live_request_queue.ts:76-90 | the promise of a reader is settled at most once, whatever happens later |
| LiveQueue.ClosedQueueDrains | core/src/agents/live_request_queue.ts:66-72 | on a closed queue successive gets return the buffered requests in order and then the close marker forever |
| LiveQueue.DrainedIs | core/src/agents/live_request_queue.ts:152-164 | the iterator yields the items up to the first close request, or all items and one close marker |
| LiveQueue.LiveRequestQueue.constructor | core/src/agents/live_request_queue.ts:31-36 | a new queue is empty and open |
| LiveQueue.LiveRequestQueue.Send | core/src/agents/live_request_queue.ts:43-53 | the new state of the queue, and failure exactly on a closed queue |
| LiveQueue.LiveRequestQueue.Get | core/src/agents/live_request_queue.ts:66-91 | the new state of the queue and the promise that was made |
| LiveQueue.LiveRequestQueue.Abort | core/src/agents/live_request_queue.ts:77-89 | firing a signal rejects exactly the parked readers listening to it, once |
| LiveQueue.LiveRequestQueue.ReleaseListeners | core/src/agents/live_request_queue.ts:77-83 | taking readers out one at a time leaves the others in their order |
| LiveQueue.LiveRequestQueue.Close | core/src/agents/live_request_queue.ts:96-117 | both loops together give every parked reader a buffered request or the close marker |
| LiveQueue.LiveRequestQueue.DrainClosed | core/src/agents/live_request_queue.ts:152-164 | on a closed queue the iterator terminates and yields what DrainedIs describes, taking nothing more |
| LiveFlow.EveryScheduleKeeps | core/src/agents/llm_agent.ts:1005-1244 | the invariant of queue, reconnect loop and send loop holds over every schedule of callers, server, invocation and loops |
| LiveFlow.AtMostSixConnects | core/src/agents/llm_agent.ts:1005-1122 | for every pattern of connect and receive failures, with or without a resumption handle to begin with, one run of the live flow makes at most six connect calls |
| LiveFlow.NewAttemptIsAlone | core/src/agents/llm_agent.ts:1053-1066 | when an attempt starts its send loop, no earlier send loop runs and no earlier reader is parked in the shared queue |
| LiveFlow.RequestsAreHandledInOrder | core/src/agents/llm_agent.ts:1161-1200 | over all attempts together the accepted requests are, in order, those handled, each sent or lost, then the one in hand, then those still buffered for the next attempt |
| LiveFlow.CallersAreHeard | core/src/agents/live_request_queue.ts:43-103 | over every schedule the queue is closed iff a caller closed it, and the accepted requests are exactly those sent before |
| LiveFlow.SendLoopEndsOnlyIf | core/src/agents/llm_agent.ts:1161-1200 | over every schedule a send loop has ended only if its signal fired, the invocation was aborted, the queue was closed, or the last request it sent asked to close the connection |
| LiveFlow.BufferedAreSent | core/src/agents/llm_agent.ts:1161-1200 | in every reachable state in which the send loop is about to read and was not told to stop, its own steps send the buffered requests one after the other, in order, up to the first that asks to close the connection; only that one ends the loop |
| LiveFlow.ReadsFailOnlyWhenTold | core/src/agents/llm_agent.ts:1173-1182 | over every schedule a read of the send loop is rejected only when it was told to stop: the path that rethrows a failed read is never taken |
| LiveFlow.AllSentIff | core/src/agents/llm_agent.ts:1161-1200 | over every schedule the lost requests are, in order, those whose dispatch failed, and all requests taken from the queue were sent iff no dispatch of a caller's request failed |
| LiveFlow.FailedDispatchLoses | core/src/agents/llm_agent.ts:1183-1192 | a run of six steps in which the only accepted request is lost |
| LiveFlow.AtMostOneLostPerAttempt | core/src/agents/llm_agent.ts:1005-1200 | every attempt loses one request at most, so a run loses no more than it makes connects, six at most |
| LiveFlow.TeardownSettles | core/src/agents/llm_agent.ts:1232-1244 | once the signal has fired, the send loop can always move, ends after at most three of its own steps and takes nothing more from the queue |
| LiveFlow.RunLiveFlow | core/src/agents/llm_agent.ts:1000-1123 | the loop goes on over the leading retryable attempts; the first other attempt or the sixth retryable one decides the result, with one connect per attempt and at most six |
| LiveFlow.FlowFollowsTheLoop | core/src/agents/llm_agent.ts:1000-1123 | over every schedule the flow is where that loop would be after the attempts an observer has seen who knows only the actions: running exactly while all of them, at most five, are to be retried, else stopped with the loop's result, with one connect for each and for the attempt under way |
| A2A.AggregatesToNormalForm | core/src/a2a/a2a_remote_agent_run_processor.ts:129-200 | adding a part stream and promoting the pending texts appends the normal form of the stream |
| A2A.FoldConcatenates | core/src/a2a/a2a_remote_agent_run_processor.ts:129-142 | folding chunks one at a time leaves the same texts and parts as their concatenation |
| A2A.BuiltPartsAreNormalForm | core/src/a2a/a2a_remote_agent_run_processor.ts:170-200 | the parts of an aggregate depend only on the concatenated part stream: between non-text parts one thought part with all thought text, then one text part with all other text |
| A2A.NormalFormIs | core/src/a2a/a2a_remote_agent_run_processor.ts:129-200 | the normal form holds the same text in the same places between the same non-text parts, in order, and is tidy: of two neighbouring texts the first is the thought and the second is not, and text parts hold nothing else |
| A2A.TidyIsUnique | core/src/a2a/a2a_remote_agent_run_processor.ts:192-199 | tidy parts with the same content are the same parts |
| A2A.BuiltPartsAre | core/src/a2a/a2a_remote_agent_run_processor.ts:129-200 | a list of parts is that of the aggregate iff it is tidy and has exactly the content of the chunks' concatenated parts: thought text, other text and non-text parts |
| A2A.BuiltCitations | core/src/a2a/a2a_remote_agent_run_processor.ts:144-152 | an aggregate has the citations of all its chunks in order, and none iff no chunk has any |
| A2A.BuiltMetadata | core/src/a2a/a2a_remote_agent_run_processor.ts:154-190 | for every metadata key, and for grounding and usage, the last chunk that has it decides; an aggregate has metadata iff some chunk has, and is marked complete |
| A2AProcessor.A2ARemoteAgentRunProcessor.AggregatePartial | core/src/a2a/a2a_remote_agent_run_processor.ts:52-120 | the new map and order and the emitted events for one incoming event |
| A2AProcessor.A2ARemoteAgentRunProcessor.RemoveAggregation | core/src/a2a/a2a_remote_agent_run_processor.ts:122-127 | an artifact leaves both the map and the order |
| A2AProcessor.A2ARemoteAgentRunProcessor.UpdateAggregation | core/src/a2a/a2a_remote_agent_run_processor.ts:129-168 | the loop over the parts computes the fold of the chunk |
| A2AProcessor.StateTracksHistory | core/src/a2a/a2a_remote_agent_run_processor.ts:43-127 | over every event stream the map has exactly the open artifacts, each with the fold of its chunks since its last reset; the order has the same ids, each once, sorted by most recent update |
| A2AProcessor.FinalStatusFlushes | core/src/a2a/a2a_remote_agent_run_processor.ts:62-73 | a final status emits one aggregate per open artifact in that order, then itself, and empties the state |
| A2AProcessor.LastChunkEmits | core/src/a2a/a2a_remote_agent_run_processor.ts:112-119 | an appended last chunk emits itself and then the aggregate of all its artifact's chunks |
| A2AProcessor.EveryEventIsPassedOn | core/src/a2a/a2a_remote_agent_run_processor.ts:52-120 | every event is passed on exactly once, around exactly the aggregates that are due; only an artifact arriving whole is itself marked complete |
| A2AProcessor.AggregatedWithin | core/src/a2a/a2a_remote_agent_run_processor.ts:62-119 | aggregates are made from chunks already received, and never from none |
| A2AProcessor.NoChunkInTwoAggregates | core/src/a2a/a2a_remote_agent_run_processor.ts:52-127 | no chunk is in aggregates emitted for two different events |
| A2AProcessor.AggregatesOfOneEventAreDisjoint | core/src/a2a/a2a_remote_agent_run_processor.ts:62-73 | no chunk is in two aggregates of one flush |
| Interactions.FindLastPart | core/src/models/interactions_utils.ts:494-504 | the position of the last part satisfying the predicate, if any |
| Interactions.LastIndex | core/src/models/interactions_utils.ts:494-504 | what it finds satisfies the predicate and nothing after it does |
| Interactions.Aggregate.ConvertInteractionEvent | core/src/models/interactions_utils.ts:590-772 | the mutated parts and the response for one server event |
| Interactions.Aggregate.ApplyDelta | core/src/models/interactions_utils.ts:632-692 | the same for one delta |
| Interactions.GenerateStreaming | core/src/models/interactions_utils.ts:906-930 | the stream loop yields the fold of the events and the closing response, each with the latest interaction id |
| Interactions.ContentIsWhatWasReceived | core/src/models/interactions_utils.ts:640-692 | for every event sequence the aggregated parts hold exactly the texts and media the server sent, each unchanged in its own field and in order; exactly these are streamed out as they come, text as partial and media not; and exactly the failures the server reported are yielded |
| Interactions.PartialTextsAreTheText | core/src/models/interactions_utils.ts:640-651 | for every event sequence the texts of the aggregated parts are the texts of the partial responses, in order, and both are the non-empty texts of the text deltas |
| InteractionSteps.MidStep | core/src/models/interactions_utils.ts:597-692 | at every moment of a step at most its own part is open, and it holds the concatenation of the step's argument deltas |
| InteractionSteps.StopCloses | core/src/models/interactions_utils.ts:693-727 | stopping a step completes its part, and a call is announced with the parse of exactly its own argument text |
| InteractionSteps.StepContributes | core/src/models/interactions_utils.ts:597-727 | a complete step appends exactly the parts it means, none left open |
| InteractionSteps.StepsContribute | core/src/models/interactions_utils.ts:590-772 | for every list of steps the parts are the concatenation of what the steps mean; nothing strays into another step |
| InteractionSteps.OneOpenAtATime | core/src/models/interactions_utils.ts:906-920 | as long as no step starts inside another one, whatever other events are streamed, at most one part is open at any moment |
| InteractionSteps.WellBracketedStream | core/src/models/interactions_utils.ts:906-930 | a stream whose step events form complete steps, with creation, status, completion and other events anywhere between them: at every prefix at most one part is open, the calls announced are exactly the steps' calls in order, each with the parse of its own argument text, and the content at the end is exactly what the steps mean |
| InteractionSteps.EventYields | core/src/models/interactions_utils.ts:906-920 | after every stream an event yields at most one response, which carries the latest interaction id; an event by which the server completes the turn yields all the content so far, and only such an event or a failure completes the turn before the end |
| InteractionSteps.EndYields | core/src/models/interactions_utils.ts:922-930 | the end of every stream yields all the content once more iff there is any, with the latest interaction id |
| InteractionSteps.NoPartsIff | core/src/models/interactions_utils.ts:597-692 | no part is left after a stream iff no event starts a call or thought step or brings text or media |
| InteractionSteps.CompletionsAreCounted | core/src/models/interactions_utils.ts:728-752 | every stream yields one complete response per completing event, wherever it stands, and one more at its end iff some event added a part |
| InteractionSteps.ReportedOnceIff | core/src/models/interactions_utils.ts:906-930 | a turn is reported complete exactly once iff the server reports it once and no event adds a part, or never and some event does |
| InteractionSteps.CompletionIsReportedTwice | core/src/models/interactions_utils.ts:728-752 | a stream that ends with a completion event or a completing status update yields its content twice in a row |
| ParallelMerge.StartAll | core/src/agents/parallel_agent.ts:119-122 | every generator gets one request |
| ParallelMerge.MergeAgentRuns | core/src/agents/parallel_agent.ts:111-139 | for every outcome of the races the loop terminates; without errors every run is requested, yielded and requested again one event at a time to its end, and the output projected on it is exactly its sequence; an error ends the merge with every other run complete or cut short |
| ParallelMerge.MergeIsShuffle | core/src/agents/parallel_agent.ts:111-139 | the output projected on a completely consumed run is its sequence, and on a run cut short a prefix of it |
| Registry.LRUCache.Lookup | core/src/models/registry.ts:36-44 | a hit returns the item and moves it to the end |
| Registry.LRUCache.Store | core/src/models/registry.ts:46-54 | a new key evicts the oldest entry of a full cache |
| Registry.LLMRegistry.Register | core/src/models/registry.ts:77-87 | the dictionary keeps the place of an overwritten pattern, and the cache is not touched |
| Registry.LLMRegistry.Resolve | core/src/models/registry.ts:109-130 | the answer and the new cache: a cached class, or that of the scan, which is then cached |
| Registry.ScanIs | core/src/models/registry.ts:115-129 | a model is not found iff every pattern rejects it, and resolves to a class iff the first pattern that does not reject it matches and has that class |
| Registry.CacheIsTransparent | core/src/models/registry.ts:77-130 | for every interleaving of registrations and resolutions in which no key is overwritten, resolving through the cache gives what the scan gives |
| Registry.ScanOverwrite | core/src/models/registry.ts:86-86 | overwriting a pattern changes exactly the answers that pattern wins |
| Registry.OverwriteKeepsCoherenceIff | core/src/models/registry.ts:77-87 | an overwrite leaves the cache coherent iff every cached model the pattern wins is already cached with the new class |
| Registry.OverwriteGoesStale | core/src/models/registry.ts:77-130 | register, resolve, register again: the cache returns the first class and the scan the second |
| Registry.CacheKeepsTheMostRecent | core/src/models/registry.ts:36-54 | over every run the cache keys are the at most 32 models most recently resolved with success, in order of last use |
| Unicode.StringRoundTripIff | core/src/memory/rag_memory_transcript.ts:37-37 | a string survives decoding to code points and back iff it has no unpaired surrogate |
| Unicode.Utf8RoundTrip | core/src/memory/rag_memory_transcript.ts:37-51 | decoding encoded code points gives them back |
| Unicode.Utf8Layout | core/src/memory/rag_memory_transcript.ts:37-37 | every code point is encoded in its shortest form, whose lead and continuation bytes spell its bits |
| Unicode.BytesRoundTripIff | core/src/memory/rag_memory_transcript.ts:37-51 | a string survives being stored as UTF-8 iff it has no unpaired surrogate |
| SourceNames.Base64UrlRoundTrip | core/src/memory/rag_memory_transcript.ts:36-51 | decoding encoded bytes gives them back |
| SourceNames.EncodedIs | core/src/memory/rag_memory_transcript.ts:36-38 | the encoding spells the bytes six bits at a time in the alphabet of letters, digits, - and _, without padding |
| SourceNames.SegmentDecodesIff | core/src/memory/rag_memory_transcript.ts:46-53 | a segment decodes to v iff it is the encoding of the non-empty well-formed v |
| SourceNames.SegmentRoundTrip | core/src/memory/rag_memory_transcript.ts:36-53 | an encoded value decodes to itself with unpaired surrogates replaced, and the empty one to nothing |
| SourceNames.ParsesIffBuilt | core/src/memory/rag_memory_transcript.ts:83-106 | a prefixed name parses to identifiers iff they are non-empty and well formed and the name is the one built from them |
| SourceNames.BuiltParsesIff | core/src/memory/rag_memory_transcript.ts:61-106 | parsing a built name gives the identifiers back iff none is empty or holds an unpaired surrogate |
| SourceNames.BuildIsInjective | core/src/memory/rag_memory_transcript.ts:61-68 | different storable identifiers have different names |
| SourceNames.LegacyNames | core/src/memory/rag_memory_transcript.ts:90-96 | an unprefixed name is read iff it is three dot-free parts joined by dots |
| UriComponents.EncodingIs | core/src/artifacts/in_memory_artifact_service.ts:206-221 | the scan over code units encodes code point by code point, and fails exactly on strings with an unpaired surrogate |
| UriComponents.EncodeCharIs | core/src/artifacts/in_memory_artifact_service.ts:206-221 | exactly the letters, digits and nine marks are left alone; every other code point becomes a percent sign and two upper-case hexadecimal digits per UTF-8 byte |
| UriComponents.ComponentRoundTrip | core/src/artifacts/in_memory_artifact_service.ts:106-116 | a string can be encoded iff it has no unpaired surrogate, and decoding then gives it back |
| UriComponents.EncodeIsInjective | core/src/artifacts/in_memory_artifact_service.ts:206-217 | different well-formed strings have different encodings |
| Artifacts.PathIff | core/src/artifacts/in_memory_artifact_service.ts:206-221 | a storage key can be built iff none of the identifiers in it holds an unpaired surrogate |
| Artifacts.ScopePrefixIff | core/src/artifacts/in_memory_artifact_service.ts:109-114 | a storage key starts with the prefix of a scope iff the artifact belongs to that scope, whatever the identifiers contain |
| Artifacts.PathIsInjective | core/src/artifacts/in_memory_artifact_service.ts:206-221 | different artifacts have different storage keys |
| ArtifactService.InMemoryArtifactService.constructor | core/src/artifacts/in_memory_artifact_service.ts:28-32 | a new store is empty |
| ArtifactService.InMemoryArtifactService.SaveArtifact | core/src/artifacts/in_memory_artifact_service.ts:34-69 | a save appends to the versions of its own key only and returns their number before; an artifact without content or with an identifier that cannot be encoded changes nothing |
| ArtifactService.InMemoryArtifactService.Find | core/src/artifacts/in_memory_artifact_service.ts:78-83 | looking up the encoded key gives the versions of the abstract key |
| ArtifactService.InMemoryArtifactService.LoadArtifact | core/src/artifacts/in_memory_artifact_service.ts:71-97 | the requested or latest version, or nothing |
| ArtifactService.InMemoryArtifactService.DeleteArtifact | core/src/artifacts/in_memory_artifact_service.ts:119-132 | a delete removes its own key only |
| ArtifactService.InMemoryArtifactService.ListVersions | core/src/artifacts/in_memory_artifact_service.ts:134-153 | the version numbers are 0 up to the number of live versions |
| ArtifactService.InMemoryArtifactService.ListArtifactKeys | core/src/artifacts/in_memory_artifact_service.ts:99-117 | the listing is the sorted list of the filenames shown to the session |
| ArtifactService.InMemoryArtifactService.Scan | core/src/artifacts/in_memory_artifact_service.ts:108-114 | the scan over encoded keys decodes exactly the filenames shown to the session and never fails |
| ArtifactService.SortSorts | core/src/artifacts/in_memory_artifact_service.ts:116-116 | sorting orders the names and keeps their members and distinctness |
| ArtifactService.LeIff | core/src/artifacts/in_memory_artifact_service.ts:116-116 | the order is that of the first differing UTF-16 code unit, prefixes first |
| ArtifactService.ListingIsExact | core/src/artifacts/in_memory_artifact_service.ts:99-117 | a listing is sorted, duplicate-free, and holds a filename iff that filename is live for the session or its user |
| ArtifactService.RunsAreGood | core/src/artifacts/in_memory_artifact_service.ts:34-132 | every run of accepted saves and deletes keeps the contents consistently filed under distinct keys |
| ArtifactService.ListingOverRuns | core/src/artifacts/in_memory_artifact_service.ts:34-132 | over every run a listing is sorted, duplicate-free, and shows a filename iff it was saved for the session or its user and not deleted since |
| ArtifactService.VersionsAreSavesSinceDelete | core/src/artifacts/in_memory_artifact_service.ts:34-132 | over every run the versions of a key are those saved since its last delete, numbered in order, each with its own metadata, and with a type for parts that only reference a file, whatever happened to other keys |
| ArtifactService.LoadFinds | core/src/artifacts/in_memory_artifact_service.ts:71-97 | over every run a load finds the version asked for, or the latest save if none is, iff that many saves were made since the last delete |
| ArtifactService.SavedPartsStay | core/src/artifacts/in_memory_artifact_service.ts:34-132 | a load at the version a save returned gives that part until the next delete |
| RetryTracker.ScopedFailureTracker.IncrementCount | core/src/plugins/_reflect_retry_utils.ts:91-105 | the new counters and the returned count |
| RetryTracker.ScopedFailureTracker.ResetCount | core/src/plugins/_reflect_retry_utils.ts:113-126 | the new counters, empty tables dropped |
| RetryTracker.ScopedFailureTracker.CurrentCount | core/src/plugins/_reflect_retry_utils.ts:134-141 | the count, zero for an unknown scope or item |
| RetryTracker.CountsAreStreaks | core/src/plugins/_reflect_retry_utils.ts:91-141 | after any operations the count of an item in a scope is the number of its increments since its last reset there |
| RetryTracker.CountersStayTidy | core/src/plugins/_reflect_retry_utils.ts:113-126 | no empty table and no zero count is ever kept |
| RetryTracker.EveryScheduleIsInOrder | core/src/plugins/_reflect_retry_utils.ts:73-82 | over every interleaving callers pass the promise chain in order of arrival |
| RetryTracker.MutualExclusion | core/src/plugins/_reflect_retry_utils.ts:73-82 | at most one caller is inside the lock |
| RetryTracker.ResultsFollowArrival | core/src/plugins/_reflect_retry_utils.ts:73-141 | every finished call returned the number of increments since the last reset in order of arrival at the lock |
| RetryTracker.SomebodyCanMove | core/src/plugins/_reflect_retry_utils.ts:73-82 | the chain never deadlocks |
| RetryPlugin.ReflectAndRetryToolPlugin.AfterToolCallback | core/src/plugins/reflect_retry_tool_plugin.ts:120-153 | the reply and the new counters after a tool returned |
| RetryPlugin.ReflectAndRetryToolPlugin.OnToolErrorCallback | core/src/plugins/reflect_retry_tool_plugin.ts:181-193 | the reply and the new counters after a tool threw |
| RetryPlugin.ReflectAndRetryToolPlugin.HandleToolError | core/src/plugins/reflect_retry_tool_plugin.ts:204-235 | the reply and the new counters for one failure |
| RetryPlugin.FailuresAreCounted | core/src/plugins/reflect_retry_tool_plugin.ts:204-235 | with retries allowed the k-th failure in a row of a tool in a scope gets retry count k up to the limit and the exceeded path after it, unaffected by other tools, other scopes and reflection responses |
| RetryPlugin.CallbacksAreAnswered | core/src/plugins/reflect_retry_tool_plugin.ts:120-235 | after every history of callbacks: nothing to the plugin's own reflections and to successes, an error when invocation scope lacks an id, the exceeded path to every failure without retries, and else to a failure its place in the row of its tool, within its invocation or across all of them as configured |
| RetryPlugin.SuccessResets | core/src/plugins/reflect_retry_tool_plugin.ts:150-152 | a success resets the counter of its own tool and scope and is answered with nothing |
| RetryPlugin.SuccessStartsAnew | core/src/plugins/reflect_retry_tool_plugin.ts:146-152 | after a success, whatever other tools, scopes and reflection responses come in between, the counter is zero and the next failure of that tool and scope gets retry count 1 |
| RetryPlugin.NoRetries | core/src/plugins/reflect_retry_tool_plugin.ts:210-215 | without retries every failure takes the exceeded path and nothing is counted |
| RetryPlugin.ConcurrentFailuresAreCounted | core/src/plugins/reflect_retry_tool_plugin.ts:217-234 | under any interleaving a failure is answered by its place in the row, in order of arrival at the lock |
| InputGate.GetUserInputRequests | core/src/agents/user_input_request.ts:78-147 | the requests of an event in part order, each with its id and what its kind shows of the call's arguments |
| InputGate.GetPendingUserInputRequests | core/src/agents/user_input_request.ts:163-194 | the loops compute the first unanswered request of every id |
| InputGate.CollectAnswers | core/src/agents/user_input_request.ts:166-174 | the ids some response in the history carries |
| InputGate.AddPending | core/src/agents/user_input_request.ts:179-190 | the inner loop continues the pending list and its seen ids |
| InputGate.RaisesIff | core/src/agents/user_input_request.ts:78-147 | a part raises a request iff it calls one of the three functions with an id to answer: its own, else its argument interruptId, else functionCallId, in either spelling for a credential, never an empty one; the request then shows the arguments its kind shows |
| InputGate.CamelCaseKeysIs | core/src/utils/case_utils.ts:13-27 | renaming reaches every key of every nested object and nothing else; where keys become the same, the last one wins |
| InputGate.CamelCaseIs | core/src/utils/case_utils.ts:21-21 | words joined by underscores are joined by capitals; an underscore in front of anything but a lower-case letter stays |
| InputGate.AnsweredIff | core/src/agents/user_input_request.ts:166-174 | an id is answered iff some response part of the history carries it and it is not empty |
| InputGate.PendingIff | core/src/agents/user_input_request.ts:163-194 | an id is pending iff some event raises it and no response anywhere in the history carries it |
| InputGate.PendingIsFirstRaised | core/src/agents/user_input_request.ts:176-193 | pending requests stand in first-raised order, each the first to raise its id |
| InputGate.PendingIdsAreDistinct | core/src/agents/user_input_request.ts:180-189 | no id is pending twice |
| InputGate.PendingAsDocumentedIff | core/src/agents/user_input_request.ts:154-194 | the list follows the documented rule of later answers for an id iff the id is not raised again after its last answer |
| InputGate.AskedAgainIsDropped | core/src/agents/user_input_request.ts:166-186 | an answer followed by a new question with the same id is not pending although nothing later answers it |
| InputGate.PendingRequestParts | core/src/a2a/event_processor_utils.ts:220-262 | the map has exactly the outstanding ids, each once, with a part that asks for it |
| InputGate.OutstandingIff | core/src/a2a/event_processor_utils.ts:220-262 | an id is outstanding iff some event of the session asks under it or the waiting task shows a call with it, and no response in the session carries it |
| InputGate.GetUnansweredRequestEvent | core/src/a2a/event_processor_utils.ts:173-207 | the gate lets a message through iff it answers every pending session id and every displayed call id the session has not answered; otherwise it names an unanswered one and shows exactly the outstanding requests |

## Left out

- Model, A2A, network, storage and process calls: foreign code; their outcomes are parameters or arbitrary steps.
- The summarizer: a parameter that may fail; the run theorems state what they need of its scope and end time.
- `shouldCompact` of both compactors: token estimates that only decide whether `compact` is called.
- Timestamps are integers; fractional retention sizes are not modelled.
- Aliasing of event and part objects: events carry an identity and parts are values, so a response that was already yielded does not change when a shared part object is completed later, and the copies made by the aggregators are not distinguished from the originals.
- AnchoredRuns.HistoryIsPartitionedIff: runs append shared events in time order; what a single compaction does on a list in any order is said by `AnchoredViews.RetainedStayActiveIff`.
- TokenHistory.OverlappingCompactionsKeepHistory: the same, with `TokenCompactor.CompactionKeepsTheTailIff`.
- The asynchronous iterator of the queue is modelled on a closed queue; on an open one it is a reader like any other.
- Live flow: request preprocessing, history replay beyond its failure, the receive loop's own events, and an agent transfer's nested flow on the same queue (the queue is read by one flow at a time); a failing send loop ends and fires its signal in one step.
- Live flow: which message a request becomes on the connection, by the first of its fields that is set.
- LiveFlow.RunLiveFlow: the errors themselves are not modelled, only whether the flow returns or throws.
- Parallel runs: generators that never settle, and a consumer that stops early.
- `updateCustomMetadata` of the run processor, the `createEvent` defaults of an aggregate, and the non-streaming conversion of interactions: plain field copying.
- JSON parsing is a parameter that gives call arguments or fails; regular expressions are a parameter that matches, does not match or is malformed.
- Node's base64url decoder on input that is not canonical: it skips foreign characters as documented; every such segment is refused by the canonicality check in any case.
- `serializeSessionTranscript` and `parseTranscriptEvents`: one JSON object per event with text, written and read line by line.
- `listArtifactVersions`, which maps the stored entries to their metadata, and the artifact services backed by files or cloud storage.
- The error details and guidance texts of the retry plugin's responses.
- Retry plugin: a negative retry limit, refused by its constructor, cannot be written; overridden scope keys are covered by the theorems, which quantify over all keys.
- Loop and sequential agents, which run their sub-agents one after the other; planners, which write prompts; the truncating, thought-pruning and agent-controlled compactors, which drop events by a fixed rule or on request.
