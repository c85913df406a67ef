# Frank: verified models of its protocols and algorithms

Frank is a local daemon that lets provider-hosted agents work on a machine: it mediates their tool
calls, keeps their conversations, budgets and plans, and feeds a native GUI. This project models the
parts of its Rust backend in which state, failures and ordering matter, and proves what they keep.

Each protocol is a state machine (`Step`, `Run` over any list of happenings) with theorems about
every run; the loops, handlers and objects of the source are methods and classes that are proved to
make exactly those steps. Verify everything with `dafny verify dfyconfig.toml`.

| file | system part |
|---|---|
| `ToolCalls.dfy`, `ToolCallHandlers.dfy` | the durable tool-call protocol: request marker, approval or direct run, durable result; crashes lose the live maps and the running handlers |
| `Chat.dfy`, `ChatSession.dfy` | the command loop of an OpenRouter session |
| `SseFraming.dfy`, `ChatTurn.dfy`, `StreamAssembly.dfy`, `TurnSuccess.dfy` | one turn: line framing under any chunking, delta assembly, closing events, retries; exactly when it succeeds |
| `ResponsesStream.dfy`, `ResponsesAssembly.dfy`, `ResponsesTurn.dfy`, `ResponsesSuccess.dfy` | one Responses turn: its stricter last line, text with fallbacks, calls patched by item, closing events, retries; exactly when it succeeds |
| `ResponsesSession.dfy` | the command loop of an OpenAI Responses session |
| `ConnectionActor.dfy`, `ConnectionProgress.dfy` | the reconnecting connection actor of a client: what it keeps, and what it gets done |
| `Budget.dfy`, `UsageCommit.dfy`, `Telemetry.dfy`, `Saturating.dfy` | the budget ledger, its projection from durable rows, and revision-checked commits |
| `Plans.dfy` | prepare/apply plans |
| `CivilTime.dfy`, `Attribution.dfy` | session timestamps and per-mode token attribution |
| `Spans.dfy`, `Compressor.dfy`, `CompressorStages.dfy`, `Recompression.dfy` | protected spans, the prose compressor, what each of its stages leaves, and what a second pass does |
| `BoundedLine.dfy` | the bounded line reader of the tool bridge |
| `Wrappers.dfy`, `Strings.dfy`, `Json.dfy`, `Limits.dfy` | optional values; white space, trimming and UTF-8 length; JSON text; the size caps |

## What the models take as given

- Tool calls: the handlers of one session are serial between the transcript read
  (`approval_flow.rs:148`) and the marker append (`approval_flow.rs:187`), which are two store calls;
  everything else may interleave. The provider session id of a running session is fixed, as the
  OpenRouter adapter makes it. The store keeps the first value written under an item id
  (`frank-store/src/sessions.rs:24-34`), all other writers use ids that do not begin with `tool-`, and an
  approval leaves `Pending` only once (`frank-orchestrator/src/reduce/approval.rs:88-92`). The clock does
  not go back. A response to an approval begins only behind the decision that was applied
  (`frank-orchestrator/src/lib.rs:649-661`).
- Connection actor: the server streams consecutive events after the requested cursor and asks for a resync
  by its store's rule (`frank-store/src/events.rs:17-23`), whose queries see one state of the store; the
  retention job drops the oldest events first. A snapshot is not older than the events published before
  it was requested.
- Plans: a plan id is a digest of its fields; digests are taken to be injective. The nonce, like the
  store's revision, is an unbounded number.
- Commits: an error other than a stale revision is one after which the commit was not applied;
  command ids are fresh.
- Regular expressions, JSON and UTF-8 decoding are parameters. For the compressor the assumption is
  the shape of what its fixed patterns can match (`WellFormed`), for a Responses stream that an ASCII
  byte decodes to its character whatever comes before it (`AsciiExtends`).
- White space is Unicode's, and lengths of texts are in UTF-8 bytes. Offsets of matches are in characters.

## Where the code and its own words differ

- A comment at `approval_flow.rs:168-171` takes a marker without a result to mean that the handler
  stopped before the effect. That is false while the call waits for its approval
  (`ToolCalls.InterruptedCallsMayRun`) and after an effect whose result could not be stored
  (`ToolCalls.InterruptedCallsMayHaveRun`); `ToolCalls.InterruptedMeansNoEffectIff` says exactly when it holds.
- A granted approval can be lost: a response that looks for its call before the call is parked, or that cannot
  read the snapshot, is not repeated, and the call waits under an Approved approval for good
  (`ToolCalls.ApprovalsMayBeLost`); `ToolCalls.WaitingCallRunsIff` says exactly which waiting calls can still run.
- The store and the conversation, which keeps the first result submitted for a call, can be left with different
  results: two handlers of one call append in one order and submit in the other
  (`ToolCalls.FirstSubmissionMayDiffer`). `ToolCalls.FirstSubmissionIsDurableIff` says exactly when they agree.
- A result within the output cap is lost, although the effect has run, if its escaped envelope exceeds the same
  cap in the store (`ToolCalls.NearCapResultsAreLost`, `ToolCalls.SubmittedIsDurableIff`).
- The expiry sweep is to tear down the session of an expired approval. If its second snapshot read fails, the
  approval stays expired and the session stays; a later sweep skips the approval
  (`ToolCallHandlers.Orchestrator.SweepOne`).
- A duplicate replays its durable result exactly unless it is vetoed (`ToolCalls.DuplicatesReplayTheDurableResult`).
- A provider that reuses a completed call id wedges the chat loop for good
  (`ChatSession.ReusedIdWedges`, `ChatSession.ProgressIffIdsAreFresh`); the Responses loop has no such state
  (`ResponsesSession.ProgressIffRunning`).
- The compressor's comments and tests call it idempotent. It is not, under any rules that match as its own do
  in "could just potentially connect" and its later stages (`Recompression.NotIdempotent`);
  `Recompression.IdempotentIff` says exactly for which texts a second pass changes nothing.
- The last line of a Responses stream is held to a stricter rule than the lines before it, and may be one
  byte longer (`ResponsesStream.UnfinishedCommentFails`, `ResponsesStream.MissingNewlineIsForgivenIff`).
- A network chunk without bytes marks a chat stream as started, which decides about the usage estimate of
  a dropped attempt (`ChatTurn.NoBytesDropped`, `ChatTurn.SplitDoesNotMatterIff`).
- A comment at `openai.rs:575-576` calls the text deltas of a Responses stream canonical. They are the text exactly
  unless an event offers a complete text before any delta with text (`ResponsesAssembly.DeltasAreTheTextIff`);
  later deltas are then added to it (`ResponsesAssembly.LateDeltasAreAdded`).
- The calls of a Responses turn depend on the iteration order of a hash map exactly if two items that go by the
  same id ask for different things (`ResponsesTurn.VisitingOrderDoesNotMatterIff`).

## Model

| member | source | states |
|---|---|---|
| `ToolCalls.EffectsRunAtMostOnce` | `backend/crates/frank-orchestrator/src/approval_flow.rs:98-289` | in every reachable state, under any interleaving of handler pieces, duplicates, decisions, sweeps, failed store calls and crashes, no two recorded effects belong to the same session and call id |
| `ToolCalls.RoutedCallsNeedTheirApproval` | `backend/crates/frank-orchestrator/src/approval_flow.rs:22-52` | if an approval was ever requested for a call, the call's effect ran through exactly that approval, which is Approved, under an allow decision |
| `ToolCalls.RefusedCallsNeverRun` | `backend/crates/frank-orchestrator/src/approval_flow.rs:352-381` | once the approval of a call is Denied or Expired, no continuation of the run contains an effect of the call |
| `ToolCalls.DuplicatesReplayTheDurableResult` | `backend/crates/frank-orchestrator/src/approval_flow.rs:136-163` | after any further actions, crashes included, a duplicate of a call whose result is durable is answered with that very content if and only if it is not vetoed; a vetoed one is answered with the veto, which is decided before the transcript is read |
| `ToolCalls.RunsLaterIffReady` | `backend/crates/frank-orchestrator/src/approval_flow.rs:6-289` | some continuation runs the call if and only if it was never started, is about to be marked, or holds a permit that is still alive: behind the marker, taken or allowed under a granted approval, or waiting for an approval that can be allowed in time or whose allow still owes its response |
| `ToolCalls.InterruptedMeansNoEffectIff` | `backend/crates/frank-orchestrator/src/approval_flow.rs:164-183` | when a duplicate is answered "interrupted": the effect has not run and runs in no continuation if and only if no handler is about to mark the call and its permit, if there is one, is neither spent nor alive |
| `ToolCalls.InterruptedMeansNoLaterEffectIff` | `backend/crates/frank-orchestrator/src/approval_flow.rs:164-183` | of later effects alone: none follows if and only if no handler is about to mark the call and none of its permits is alive |
| `ToolCalls.InterruptedCallsMayRun` | `backend/crates/frank-orchestrator/src/approval_flow.rs:164-183` | counterexample to the comment in these lines: any fresh call that waits for its approval before the deadline has its duplicate answered "interrupted" and can still run |
| `ToolCalls.InterruptedCallsMayHaveRun` | `backend/crates/frank-orchestrator/src/approval_flow.rs:284-325` | second counterexample: if the result of any fresh call cannot be stored, its duplicate is answered "interrupted" although the effect has run, and no later effect follows |
| `ToolCalls.SubmittedResultsHaveItems` | `backend/crates/frank-orchestrator/src/approval_flow.rs:317-329` | in every reachable state, whatever was handed to the provider has a durable item under its result id, and fits the store as an envelope itself |
| `ToolCalls.SubmittedIsDurableIff` | `backend/crates/frank-orchestrator/src/approval_flow.rs:291-329` | a delivery keeps the first item stored under the result id, and hands over the durable content if and only if the id was free or already held that content; a result whose envelope exceeds the cap is neither stored nor handed over |
| `ToolCalls.FirstSubmissionMayDiffer` | `backend/crates/frank-orchestrator/src/approval_flow.rs:22-60` | the failing race, for any fresh call that is approved: it runs and appends its output, the append of a duplicate is ignored, the duplicate submits "interrupted" first; in every continuation the output stays durable and "interrupted" the first submission |
| `ToolCalls.FirstSubmissionIsDurableIff` | `backend/crates/frank-orchestrator/src/approval_flow.rs:317-329` | whatever happens between the append and the submission and afterwards, the first submission of a call stays the first for good, and is the durable result if and only if at its append the result id was free or held that content |
| `ToolCalls.FirstSubmissionStays` | `backend/crates/frank-orchestrator/src/approval_flow.rs:317-329` | for a replay too: the first submission and the stored item stay what they are at that submission |
| `ToolCalls.NearCapResultsAreLost` | `backend/crates/frank-store/src/sessions.rs:17-22` | for any fresh call: a result within the cap that exceeds it with call id and envelope leaves an effect that ran and no stored or submitted result |
| `ToolCalls.ResultsAreHandedOver` | `backend/crates/frank-orchestrator/src/approval_flow.rs:298-331` | a delivery hands over a result within the caps as it is, and the fixed error text instead of a longer one |
| `ToolCalls.DecisionsDecide` | `backend/crates/frank-orchestrator/src/reduce/approval.rs:88-106` | in every reachable state a decision in time grants or denies a pending approval as it says and a late one expires it; in no continuation does a denied or late call run |
| `ToolCalls.NothingExpiresEarly` | `backend/crates/frank-orchestrator/src/approval_flow.rs:343-381` | in every reachable state an expired approval is past its deadline |
| `Json.EnvelopeBytes` | `backend/crates/frank-store/src/sessions.rs:17-22` | the counted size of an envelope is the UTF-8 length of its JSON text, with every character escaped |
| `Json.EnvelopesReadBack` | `backend/crates/frank-store/src/sessions.rs:17-22` | a JSON reader gets call id and content back from every stored envelope |
| `Json.EnvelopeBounds` | `backend/crates/frank-store/src/sessions.rs:17-22` | an envelope takes 43 bytes more than what it wraps at least, and six bytes a character at most |
| `ToolCalls.WaitingCallRunsIff` | `backend/crates/frank-orchestrator/src/approval_flow.rs:6-30` | a parked call can still run if and only if its approval is pending before its deadline, or Approved with the response to that decision still owed |
| `ToolCalls.ApprovalsMayBeLost` | `backend/crates/frank-orchestrator/src/approval_flow.rs:22-30` | the failing run, for any fresh call: approved and answered before it is parked, it then waits under an Approved approval with no handler left, and no continuation runs it |
| `ToolCalls.GrantableComesFrom` | `backend/crates/frank-orchestrator/src/reduce/approval.rs:88-101` | no action makes an approval able to let its call run again once it is not |
| `ToolCalls.CanIsRun` | `backend/crates/frank-orchestrator/src/approval_flow.rs:6-409` | what the handlers are proved to be, schedules of actions, are exactly the runs that the safety theorems speak of |
| `ToolCalls.StepKeepsOnePermit` | `backend/crates/frank-orchestrator/src/approval_flow.rs:6-289` | every action keeps: at most one permit per call, only marked calls have one, at most one unmarked handler per session |
| `ToolCalls.PermitMoves` | `backend/crates/frank-orchestrator/src/approval_flow.rs:6-289` | a permit held after an action was granted by the marker append of that call or moved from one place that held it before |
| `ToolCalls.StepKeepsTraced` | `backend/crates/frank-orchestrator/src/approval_flow.rs:214-266` | every action keeps: a permit behind an approval names the one stored approval of that call |
| `ToolCalls.StepKeepsReads` | `backend/crates/frank-orchestrator/src/approval_flow.rs:11-30` | every action keeps: a handler behind a decision knows a final status that agrees with its decision or is Expired and is what the store still says, and every approved effect ran under a granted approval |
| `ToolCalls.RunDurable` | `backend/crates/frank-store/src/sessions.rs:6-51` | along every run stored items, final approval statuses and recorded effects never change or disappear |
| `ToolCalls.SpentForever` | `backend/crates/frank-orchestrator/src/approval_flow.rs:98-289` | a call that is not ready gains no effect in any continuation |
| `ToolCallHandlers.Orchestrator.HandleToolCall` | `backend/crates/frank-orchestrator/src/approval_flow.rs:98-289` | whichever lookups, store calls and provider calls fail, a schedule of the protocol machine; nothing changes if a lookup fails; a veto, a durable result, a bare marker and each refusal are answered with their own text, and a tool that ran with its output: stored unless the id is taken or the envelope does not fit, then handed over, and finished exactly if both calls succeed; the effect runs exactly for a new, marked, unvetoed call that need not ask, and a new call that must ask and gets an approval is parked unanswered |
| `ToolCallHandlers.Orchestrator.RunMarkedCall` | `backend/crates/frank-orchestrator/src/approval_flow.rs:203-289` | behind the marker, as the policy says: refuse with the reason or the error as the answer, park under the created approval and answer nothing, or execute and answer with the output; result, stored items and submissions are stated for each |
| `ToolCallHandlers.Orchestrator.DeliverToolResult` | `backend/crates/frank-orchestrator/src/approval_flow.rs:291-332` | the capped result is stored unless an item holds its id already, then submitted; finished if and only if its envelope fits the store and both calls succeed, nothing submitted otherwise |
| `ToolCallHandlers.Orchestrator.RespondToApproval` | `backend/crates/frank-orchestrator/src/approval_flow.rs:6-96` | behind an applied decision: ends without effect if the snapshot cannot be read or lacks the approval; otherwise takes the parked call out, runs its effect exactly if it was parked, its task has a session, the status is Approved and the decision is an allow, and answers it with the output or the refusal, stored and handed over; forwards the decision exactly if nothing was parked, the status carries it and the task has a session |
| `ToolCallHandlers.Orchestrator.DecideApproval` | `backend/crates/frank-orchestrator/src/reduce/approval.rs:78-101` | a decision succeeds exactly for a pending approval if the store takes it and, in time, a task grant is valid; it sets Approved or Denied in time and Expired otherwise; the response runs the parked call exactly under an allow in time and answers it with the output, with "denied" or with "expired"; a refused decision changes nothing |
| `ToolCallHandlers.Orchestrator.ExpireOne` | `backend/crates/frank-orchestrator/src/approval_flow.rs:352-381` | expires exactly an approval that is still pending and due, and then drops the parked call |
| `ToolCallHandlers.Orchestrator.SweepOne` | `backend/crates/frank-orchestrator/src/approval_flow.rs:352-405` | a failed first read or commit changes nothing and ends the sweep; a failed second read ends it behind the expiry and before the teardown |
| `ToolCallHandlers.Orchestrator.ExpireApprovals` | `backend/crates/frank-orchestrator/src/approval_flow.rs:338-409` | wherever a store call fails: the sweep changes only due approvals, to Expired; the parked calls dropped are exactly the expired ones; only sessions of active tasks with a due approval are torn down; a finished sweep leaves no due approval of its snapshot and no session of an active task it expired |
| `ChatSession.RequestsAreSettled` | `backend/crates/frank-agent/src/openrouter.rs:502-592` | for every command sequence and turn outcome, every transcript sent has each distinct call id of each assistant message answered by exactly one later tool message |
| `ChatSession.PendingIsUnanswered` | `backend/crates/frank-agent/src/openrouter.rs:502-592` | in every run the pending set is exactly the unanswered ids of the last assistant message |
| `ChatSession.StepKeepsInv` | `backend/crates/frank-agent/src/openrouter.rs:509-589` | every command with every turn outcome keeps the loop invariant |
| `ChatSession.NothingSentWhileWaiting` | `backend/crates/frank-agent/src/openrouter.rs:511-587` | while an awaited result is missing no request is sent, and transcript, pending and completed sets are exactly the first submissions of awaited ids, whatever else arrives |
| `ChatSession.LastResultSendsOneRequest` | `backend/crates/frank-agent/src/openrouter.rs:545-587` | with fresh ids, exactly one request is sent, at the submission that supplies the last awaited id, carrying the first result submitted for each id |
| `ChatSession.TurnsAreRecorded` | `backend/crates/frank-agent/src/openrouter.rs:509-589` | a turn starts exactly with a message when nothing is awaited or with the last awaited result; it sends the conversation with what was said and adds that and the reply; every other command sends nothing and adds nothing but an awaited result |
| `ChatSession.ErrorsIff` | `backend/crates/frank-agent/src/openrouter.rs:509-589` | a command is answered with an error if and only if its turn fails, it is a message while results are awaited, or a result that is neither awaited nor known |
| `ChatSession.ProgressIffIdsAreFresh` | `backend/crates/frank-agent/src/openrouter.rs:545-550` | some continuation sends a request if and only if the session runs and awaits no id that is already completed |
| `ChatSession.ReusedIdWedges` | `backend/crates/frank-agent/src/openrouter.rs:545-550` | any settled conversation is wedged by one message, a reply that asks for a tool, its answer, and a reply that asks under the same id again |
| `ChatSession.WedgedForever` | `backend/crates/frank-agent/src/openrouter.rs:545-550` | a session awaiting a completed id never sends again and stays so |
| `ChatSession.SettledIffNothingPending` | `backend/crates/frank-agent/src/openrouter.rs:594-608` | a transcript settled up to its last assistant message is settled if and only if that message has no unanswered id |
| `ChatSession.RunSession` | `backend/crates/frank-agent/src/openrouter.rs:482-592` | the loop computes the transcript, the requests and the number of errors of the specified run, starting from the system prompt and the valid stored messages |
| `ChatSession.KnownMessagesAreTakenOver` | `backend/crates/frank-agent/src/openrouter.rs:1149-1154` | each stored message is taken over in its place if and only if its role is known |
| `Chat.OneAnswerEach` | `backend/crates/frank-agent/src/openrouter.rs:545-587` | a complete set of submissions collects exactly one answer per awaited id |
| `SseFraming.ChunksDoNotMatter` | `backend/crates/frank-agent/src/openrouter.rs:712-794` | for every splitting into chunks, the handled frames, their order and success or failure, cap included, are those of the concatenated bytes |
| `SseFraming.KeptLineIsBounded` | `backend/crates/frank-agent/src/openrouter.rs:786-794` | between chunks the kept line holds no newline and never exceeds the cap |
| `SseFraming.LinesCutTheBytes` | `backend/crates/frank-agent/src/openrouter.rs:725-733` | the lines and the rest, concatenated, are the bytes |
| `SseFraming.LinesAreTheOnlyCut` | `backend/crates/frank-agent/src/openrouter.rs:725-733` | any cut of the bytes into newline-terminated lines and a newline-free rest is the one the framing finds |
| `SseFraming.FramesContinue` | `backend/crates/frank-agent/src/openrouter.rs:712-794` | bytes fed later continue exactly where framing the earlier bytes stopped |
| `SseFraming.LongRestBreaks` | `backend/crates/frank-agent/src/openrouter.rs:726-730` | an unfinished line over the cap fails the same way as any line it could grow into |
| `SseFraming.DrainLines` | `backend/crates/frank-agent/src/openrouter.rs:725-785` | draining hands over the complete lines in order, stops at the first oversized or rejected one, and keeps the rest |
| `SseFraming.ReadChunks` | `backend/crates/frank-agent/src/openrouter.rs:712-794` | the reading loop yields the framing of the concatenated chunks and never keeps more than the cap |
| `ResponsesStream.SplitDoesNotMatter` | `backend/crates/frank-agent/src/openai.rs:392-443` | parse state and success or failure of a whole Responses stream, its last line included, depend on the bytes alone |
| `ResponsesStream.MissingNewlineIsForgivenIff` | `backend/crates/frank-agent/src/openai.rs:424-443` | a stream that lost its last newline ends like the complete one if and only if it broke before, or the kept line is below the cap and is white space, or a data line, or one that is refused in either form |
| `ResponsesStream.UnfinishedCommentFails` | `backend/crates/frank-agent/src/openai.rs:431-435` | the simplest failing input: the line ":" is an error without its newline and skipped with it |
| `ResponsesStream.NewlineCompletes` | `backend/crates/frank-agent/src/openai.rs:398-422` | a newline behind a kept line makes it a line, handled as such, or an oversized frame if it is at the cap |
| `ResponsesStream.DecodeForgetsNewline` | `backend/crates/frank-agent/src/openai.rs:406-418` | a line means the same with and without its newline |
| `ResponsesStream.DataLinesAreDecoded` | `backend/crates/frank-agent/src/openai.rs:406-418` | a data line, however padded, is the done marker or the JSON behind its field name |
| `ResponsesStream.NotDataIff` | `backend/crates/frank-agent/src/openai.rs:406-413` | a line is no data if and only if it does not begin with the field name, white space apart |
| `ResponsesStream.SpaceIsNotData` | `backend/crates/frank-agent/src/openai.rs:424-424` | a line of ASCII white space is no data, so dropping it at the end agrees with skipping it |
| `ResponsesStream.ReadResponse` | `backend/crates/frank-agent/src/openai.rs:392-443` | the SSE loop and the treatment of the last line compute the specified stream |
| `ResponsesAssembly.TextIsFallbackAndDeltas` | `backend/crates/frank-agent/src/openai.rs:559-688` | the text of an accepted stream is the first text offered before any was streamed, if there is one, and then all that was streamed |
| `ResponsesAssembly.DeltasAreTheTextIff` | `backend/crates/frank-agent/src/openai.rs:574-590` | the text is the concatenated deltas if and only if no event offers text while all deltas before it are empty |
| `ResponsesAssembly.LateDeltasAreAdded` | `backend/crates/frank-agent/src/openai.rs:574-590` | the simplest failing input: a complete text and then a delta |
| `ResponsesAssembly.CallsAreTheirPatches` | `backend/crates/frank-agent/src/openai.rs:591-645` | a call exists exactly if an event touched its item, and is the last call id, the last name and the arguments of its own patches, however other items are interleaved |
| `ResponsesAssembly.CompleteArgumentsWin` | `backend/crates/frank-agent/src/openai.rs:630-645` | complete arguments replace all fragments before them; only later fragments are added |
| `ResponsesAssembly.FragmentsAddUp` | `backend/crates/frank-agent/src/openai.rs:612-629` | without complete arguments, the fragments in order are the arguments |
| `ResponsesAssembly.ParsedCounts` | `backend/crates/frank-agent/src/openai.rs:646-711` | response id and usage are the last ones given, and the stream counts as completed exactly if a completion event came |
| `ResponsesAssembly.StreamIsParsed` | `backend/crates/frank-agent/src/openai.rs:392-443` | a stream read to its end is the parse of the events of all its lines, a last line without newline included |
| `ResponsesAssembly.ReadingIsTidy` | `backend/crates/frank-agent/src/openai.rs:539-701` | however a stream ends or breaks, the events emitted are the text accumulated |
| `ResponsesTurn.TurnIsFaithful` | `backend/crates/frank-agent/src/openai.rs:305-521` | over all attempts: on success the session, one message whose content is all emitted text and whose calls, sorted by id, are the calls requested, at most one usage report before the end, completion exactly once and last if and only if there is no call; on failure text at most |
| `ResponsesTurn.RetriedAttemptsAreSilent` | `backend/crates/frank-agent/src/openai.rs:318-341` | an attempt that is retried was no stream and emitted nothing |
| `ResponsesTurn.ResponsesTellTheStream` | `backend/crates/frank-agent/src/openai.rs:443-521` | a successful attempt has the fallback and all deltas as text, the last id and usage, and as many calls as touched items, among them for each item the usable call its patches make |
| `ResponsesTurn.VisitingOrderDoesNotMatterIff` | `backend/crates/frank-agent/src/openai.rs:463-490` | the sorted calls are the same for every iteration order of the map if and only if items that go by the same id ask for the same |
| `ResponsesTurn.SortIsStable` | `backend/crates/frank-agent/src/openai.rs:490-490` | sorting by call id keeps the order of calls with the same id |
| `ResponsesTurn.AtMostIff` | `backend/crates/frank-agent/src/openai.rs:490-490` | the order of call ids is by first difference, prefixes first |
| `ResponsesTurn.TurnSuitsTheSession` | `backend/crates/frank-agent/src/openai.rs:463-521` | the ids the session loop then waits for are exactly those under which the items go |
| `ResponsesTurn.CollectCalls` | `backend/crates/frank-agent/src/openai.rs:463-489` | the calls in visiting order, or a failure if and only if one lacks a name or JSON arguments |
| `ResponsesTurn.CompleteResponseOnce` | `backend/crates/frank-agent/src/openai.rs:343-521` | one attempt computes the specified events and outcome |
| `ResponsesTurn.CompleteResponse` | `backend/crates/frank-agent/src/openai.rs:305-341` | at most three attempts, retried only after a retryable failure, compute the specified turn |
| `ResponsesSuccess.AcceptedIff` | `backend/crates/frank-agent/src/openai.rs:539-701` | events are accepted if and only if none reports a failure and at every event the text so far and the arguments of its item fit their caps |
| `ResponsesSuccess.StreamAcceptIff` | `backend/crates/frank-agent/src/openai.rs:392-443` | a stream is accepted if and only if it ended, every line fits and is UTF-8, and JSON where it is data, what is left behind the last newline is white space or a data line, and its events are accepted |
| `ResponsesSuccess.AttemptSucceedsIff` | `backend/crates/frank-agent/src/openai.rs:343-521` | an attempt succeeds if and only if its stream is accepted, names a response, is completed, and every touched item makes a call with a name and JSON arguments |
| `ResponsesSuccess.RetryableIff` | `backend/crates/frank-agent/src/openai.rs:318-391` | a failed attempt is tried again if and only if its request timed out or the status was 429 or 5xx |
| `ResponsesSuccess.OneAttemptDecides` | `backend/crates/frank-agent/src/openai.rs:305-341` | a turn is its first attempt that is not tried again, or the last; all before it are tried again |
| `ChatTurn.TurnIsFaithful` | `backend/crates/frank-agent/src/openrouter.rs:617-652` | over all attempts: on success one message whose content is the concatenation of all text events and whose calls are the calls requested, completion exactly once and last if and only if there is no call; on failure no message, call or completion |
| `ChatTurn.VisibleTextIsNeverRetried` | `backend/crates/frank-agent/src/openrouter.rs:627-647` | an attempt that emitted visible text is the last one |
| `ChatTurn.SplitDoesNotMatterIff` | `backend/crates/frank-agent/src/openrouter.rs:712-800` | for equal bytes, events and outcome of two splittings are equal if and only if both or neither have a chunk, or the stream ends well |
| `ChatTurn.NoBytesDropped` | `backend/crates/frank-agent/src/openrouter.rs:887-904` | the failing input: a stream dropped without bytes reports an estimate exactly if a chunk arrived, even an empty one |
| `ChatTurn.RepliesSuitTheSession` | `backend/crates/frank-agent/src/openrouter.rs:801-858` | a successful turn is a valid turn of the session loop, which then waits for exactly the ids of the reply's calls |
| `ChatTurn.CallsAreTheirFragments` | `backend/crates/frank-agent/src/openrouter.rs:965-1000` | accepted deltas make up each call from the fragments of its own index, however interleaved |
| `ChatTurn.InOrderByIndex` | `backend/crates/frank-agent/src/openrouter.rs:801-824` | the call at a stream index stands behind exactly the calls with smaller index |
| `ChatTurn.AbsorbKeepsTidy` | `backend/crates/frank-agent/src/openrouter.rs:734-780` | while a stream is read the emitted events are exactly the text so far, and visible text marks the attempt as having output |
| `ChatTurn.ConcludeIsFaithful` | `backend/crates/frank-agent/src/openrouter.rs:801-885` | the closing events of a stream: the message, its calls, one usage report if any, then completion |
| `ChatTurn.CompleteTurnOnce` | `backend/crates/frank-agent/src/openrouter.rs:654-904` | reading an attempt chunk by chunk gives the events and the outcome specified for its bytes |
| `ChatTurn.CompleteTurn` | `backend/crates/frank-agent/src/openrouter.rs:617-652` | the retry loop gives the specified turn in at most three attempts |
| `TurnSuccess.AttemptSucceedsIff` | `backend/crates/frank-agent/src/openrouter.rs:654-904` | an attempt succeeds if and only if its stream ended behind a newline, every line is within the cap and is neither bad UTF-8, nor bad JSON, nor an error, text, ids, names and arguments of all lines together are within their caps, every call has an id and a name, and the message, if there is one, fits |
| `TurnSuccess.RetryableIff` | `backend/crates/frank-agent/src/openrouter.rs:676-720` | a failed attempt is tried again if and only if its request timed out, the status was 429 or 5xx, or its stream timed out behind acceptable lines without output |
| `TurnSuccess.TurnSucceedsIff` | `backend/crates/frank-agent/src/openrouter.rs:617-652` | a turn succeeds if and only if its first attempt that is not tried again does |
| `TurnSuccess.FailuresAreEstimatedIff` | `backend/crates/frank-agent/src/openrouter.rs:887-904` | a failed stream reports one estimate, of the bytes sent and streamed, if and only if a chunk came and it was not both completed by a line taken in and counted by such a line or by the refused one; otherwise it reports nothing |
| `TurnSuccess.SuccessIsClosed` | `backend/crates/frank-agent/src/openrouter.rs:801-885` | a successful attempt emits its text and then its closing events |
| `TurnSuccess.ClosingInOrder` | `backend/crates/frank-agent/src/openrouter.rs:801-885` | the closing events are the message, its calls in order, the usage, and last the completion |
| `StreamAssembly.RepliesTellTheStream` | `backend/crates/frank-agent/src/openrouter.rs:712-885` | a successful attempt read complete lines only; its text is all content deltas in order, it has one call per stream index, ordered by index and made of all fragments of that index, and it reports the last usage of the stream, once |
| `StreamAssembly.LinesAddUp` | `backend/crates/frank-agent/src/openrouter.rs:915-1002` | accepted lines leave the concatenated content, every fragment of every call and the last usage |
| `ConnectionActor.ReceivedIsGapless` | `backend/crates/frank-client/src/events.rs:197-345` | in every run from every start cursor, what the GUI received is gap-free: each event is one past the previous event or snapshot, and no snapshot goes back |
| `ConnectionActor.SnapshotRepairs` | `backend/crates/frank-store/src/events.rs:17-23` | a snapshot that answers a resync moves the cursor forward to the last event, behind which the store asks for no resync |
| `ConnectionActor.EventsStrictlyIncrease` | `backend/crates/frank-client/src/events.rs:197-345` | in such a log no event is delivered twice or out of order |
| `ConnectionActor.NothingIsSkipped` | `backend/crates/frank-client/src/events.rs:197-345` | every event number between the start and the current position was delivered or is covered by a delivered snapshot |
| `ConnectionActor.LossIsTheEnd` | `backend/crates/frank-client/src/events.rs:342-365` | after the step that loses an item to a full queue, no continuation delivers another event or snapshot; what that step itself emitted may stand before the lost final notice |
| `ConnectionActor.LostItemIsTheLast` | `backend/crates/frank-client/src/events.rs:353-365` | if what a step emits is itself lost, neither the step nor any continuation delivers an event or snapshot |
| `ConnectionActor.LosingStepFinishes` | `backend/crates/frank-client/src/events.rs:353-365` | the losing step ends the actor, and behind what it emits there are notices only |
| `ConnectionActor.FinishedIsSilent` | `backend/crates/frank-client/src/events.rs:342-344` | a finished actor adds nothing to the queue in any continuation |
| `ConnectionActor.RunKeepsInv` | `backend/crates/frank-client/src/events.rs:197-345` | in every run the queue is within its capacity, the log is gapless, the cursor is its position, the stream continues it, the backoff stays between 250 ms and 30 s, and a client that waits for a snapshot is behind the server |
| `ConnectionProgress.StopsOnlyIfToldOrBehind` | `backend/crates/frank-client/src/events.rs:197-345` | in every run from the start the actor finishes only if it was told to stop, the GUI went away, or an item was lost |
| `ConnectionProgress.ToldActorsStop` | `backend/crates/frank-client/src/events.rs:197-345` | with the flag up, the GUI gone or a stop command at hand, the next thing the actor serves is its last, but for a connection or resync request that still succeeds with the flag up |
| `ConnectionProgress.LostOnlyIfFull` | `backend/crates/frank-client/src/events.rs:353-365` | an item is lost only by a queue that held at least 255 of 256 items before the step |
| `ConnectionProgress.FailuresReconnect` | `backend/crates/frank-client/src/events.rs:226-334` | a refused connection, an ended or failed stream and a failed snapshot leave the actor about to connect at the same cursor, the GUI told, and the next pause doubled up to 30 s if this one elapsed |
| `ConnectionProgress.BackoffDoubles` | `backend/crates/frank-client/src/events.rs:226-239` | after any run of k refused connections with elapsed pauses, whatever server and GUI do meanwhile, the actor is connecting at the same cursor with a backoff of 2^k times the first, at most 30 s |
| `ConnectionProgress.StreamDelivers` | `backend/crates/frank-client/src/events.rs:243-253` | any run of a stream delivers consecutive events behind the cursor and nothing else, as many as it brings until the server has no more |
| `ConnectionProgress.ConnectionResumes` | `backend/crates/frank-client/src/events.rs:206-217` | a connection continues behind the cursor and resets the backoff to 250 ms |
| `ConnectionProgress.SnapshotMoves` | `backend/crates/frank-client/src/events.rs:280-291` | a snapshot moves the cursor to the last event, resets the backoff and connects again |
| `ConnectionProgress.ResyncFetches` | `backend/crates/frank-client/src/events.rs:271-291` | a resync tells the GUI and asks for a snapshot at the same cursor |
| `ConnectionProgress.OverflowTells` | `backend/crates/frank-client/src/events.rs:353-365` | an emission that finds the queue full ends the actor, and is replaced by a resync marker if the GUI takes an item just then, and so is the final notice |
| `ConnectionProgress.LastWordIfRoom` | `backend/crates/frank-client/src/events.rs:344-345` | with room for two items, the last item of an actor that ends is the disconnection |
| `ConnectionProgress.DeliverableIff` | `backend/crates/frank-client/src/events.rs:197-345` | in every reachable state, for every event of the server beyond the cursor, some continuation delivers it or a snapshot that includes it if and only if the actor is not finished and the GUI is there |
| `ConnectionActor.Actor.TryEmit` | `backend/crates/frank-client/src/events.rs:353-365` | a full queue gets a resync marker if there is room again and stops the actor, a closed one just stops it |
| `ConnectionActor.Actor.Stop` | `backend/crates/frank-client/src/events.rs:342-344` | raises the flag and tries the final notice, with the resync marker in its place if the queue is full |
| `ConnectionActor.Actor.OnStream` | `backend/crates/frank-client/src/events.rs:243-334` | each outcome of the active stream makes the specified step |
| `ConnectionActor.Actor.OnSnapshot` | `backend/crates/frank-client/src/events.rs:280-311` | the answer to the snapshot request makes the specified step |
| `ConnectionActor.Actor.OnConnect` | `backend/crates/frank-client/src/events.rs:205-239` | the outcome of opening a stream makes the specified step |
| `ConnectionActor.Actor.HandleCommand` | `backend/crates/frank-client/src/events.rs:367-383` | a stop or a closed GUI ends the actor, any other command does not |
| `ConnectionActor.Actor.Serve` | `backend/crates/frank-client/src/events.rs:197-345` | the actor serves any sequence of happenings as the specified run |
| `ResponsesSession.BatchesAreComplete` | `backend/crates/frank-agent/src/openai.rs:246-292` | in every run a result that triggers a request triggers one, chained to the last response, holding exactly one output per call id of the last successful turn |
| `ResponsesSession.RunKeepsInv` | `backend/crates/frank-agent/src/openai.rs:200-292` | in every run queued and pending ids are disjoint and together the call ids of the last successful turn while any call is pending |
| `ResponsesSession.NothingSentWhileWaiting` | `backend/crates/frank-agent/src/openai.rs:246-263` | while an awaited output is missing nothing is sent and exactly the first outputs for awaited ids are queued |
| `ResponsesSession.LastOutputSendsTheBatch` | `backend/crates/frank-agent/src/openai.rs:246-274` | the submission of the last awaited output sends one request with the first output submitted for each id, reused ids included |
| `ResponsesSession.TurnsAreChained` | `backend/crates/frank-agent/src/openai.rs:203-292` | each request is chained to the last successful response; a successful turn becomes that response and its calls are awaited, a failed one changes neither |
| `ResponsesSession.ErrorsIff` | `backend/crates/frank-agent/src/openai.rs:203-292` | errors are failed turns, messages while outputs are awaited, and outputs that are not |
| `ResponsesSession.FailedInputIsRepeatedIff` | `backend/crates/frank-agent/src/openai.rs:215-274` | a message whose turn failed is repeated by the next request if and only if no turn has succeeded yet; the outputs of a failed turn are not repeated |
| `ResponsesSession.SessionsResume` | `backend/crates/frank-agent/src/openai.rs:195-224` | the first message is chained to a stored Responses id, and goes with the stored transcript if there is none |
| `ResponsesSession.ProgressIffRunning` | `backend/crates/frank-agent/src/openai.rs:203-292` | some continuation reaches the provider if and only if the session is not stopped |
| `ResponsesSession.NothingIsForgottenBeforeTheFirstTurn` | `backend/crates/frank-agent/src/openai.rs:215-245` | until a turn succeeds, the n-th request repeats the stored transcript and all messages up to the n-th |
| `ResponsesSession.RunResponsesSession` | `backend/crates/frank-agent/src/openai.rs:186-292` | the loop computes the requests, the number of errors and the chained response of the specified run |
| `CivilTime.FormulaCountsDays` | `backend/crates/frank-ledger/src/session.rs:137-146` | for every date from year 1 on, the era formula is the number of days counted year by year and month by month from 1970-01-01 |
| `CivilTime.NextDayIsOneMore` | `backend/crates/frank-ledger/src/session.rs:137-146` | the calendar's next day is exactly one more |
| `CivilTime.TimestampsFollowTheCalendar` | `backend/crates/frank-ledger/src/session.rs:148-149` | for accepted fields, one result is smaller than another if and only if its date, time and padded fraction come earlier |
| `CivilTime.TimestampRange` | `backend/crates/frank-ledger/src/session.rs:148-149` | the epoch is 0 and every result is within the bounds of years 1 to 9999, far inside 64 bits |
| `CivilTime.Timestamp` | `backend/crates/frank-ledger/src/session.rs:88-149` | a result exists if and only if the fields are a date of years 1 to 9999 and a time of day with at most three fraction digits |
| `CivilTime.MillisPad` | `backend/crates/frank-ledger/src/session.rs:104-123` | one to three fraction digits read as the zero-padded three-digit number |
| `CivilTime.EarlierDatesCountLess` | `backend/crates/frank-ledger/src/session.rs:92-146` | an earlier date has a smaller day count |
| `Attribution.AttributeByMode` | `backend/crates/frank-ledger/src/attribution.rs:70-183` | the result is, per destination, the clipped sum of exactly the turns routed there, with the basis and the modes as specified |
| `Attribution.TurnsGoWhere` | `backend/crates/frank-ledger/src/attribution.rs:70-175` | where a turn goes for every log, flag and current mode: with a log, to the mode of the last row at the latest time not after it, before all rows to the mode the earliest row replaced, without a time to unknown; without a log and with a flag modified behind some timed main turn, to the current mode from the modification on; otherwise to the current mode; side chains apart |
| `Attribution.OrderDoesNotMatter` | `backend/crates/frank-ledger/src/attribution.rs:70-183` | permuting the turns and permuting a log with distinct times leaves the result unchanged |
| `Attribution.AttributionConservesTokens` | `backend/crates/frank-ledger/src/attribution.rs:70-183` | while the tokens of all turns fit into 64 bits, the buckets of the result, mode buckets, unknown and sidechain, add up to exactly the tokens of all turns, for every figure |
| `Attribution.TokensAreConserved` | `backend/crates/frank-ledger/src/attribution.rs:70-183` | for every routing of turns the true sums of all destinations add up to the tokens of all turns: each turn is counted exactly once |
| `Attribution.SortKeepsRows` | `backend/crates/frank-ledger/src/attribution.rs:119-120` | stable sorting keeps, for every moment, the row in force, and puts the earliest row first |
| `Attribution.LatestRowIsLatest` | `backend/crates/frank-ledger/src/attribution.rs:154-161` | the row in force at a moment is at or before it with the greatest time, the last written among equals, and is missing only if all rows are later |
| `Attribution.EarliestRowIsEarliest` | `backend/crates/frank-ledger/src/attribution.rs:142-142` | the row whose previous mode is used before the log has the least time, the first written among equals |
| `Attribution.FilledStep` | `backend/crates/frank-ledger/src/attribution.rs:30-39` | adding a turn to its bucket with saturation keeps the bucket the clipped sum, and leaves the others |
| `Attribution.LatestRowOfPermutedLog` | `backend/crates/frank-ledger/src/attribution.rs:119-120` | with distinct times the row in force does not depend on the order of the log |
| `Attribution.ScanEvents` | `backend/crates/frank-ledger/src/attribution.rs:154-161` | scanning sorted events up to the first later one finds the row in force |
| `Attribution.PlaceTurns` | `backend/crates/frank-ledger/src/attribution.rs:149-175` | every main turn is added to the bucket of the event in force, of the mode before the log, or to unknown |
| `Attribution.FirstTimestamp` | `backend/crates/frank-ledger/src/attribution.rs:89-89` | the least timestamp of the timed turns |
| `Budget.LedgerIsTheSaturatedSum` | `backend/crates/frank-orchestrator/src/budget.rs:19-62` | every figure of every scope is the sum of its charges clipped at 64 bits, and its turns their number clipped at 32 bits |
| `Budget.LedgerFollowsTheStore` | `backend/crates/frank-orchestrator/src/budget_enforce.rs:367-394` | a frame whose task, mission and agent match the stored task leaves, once committed, the live ledger equal to a rebuild from the new snapshot, for every scope |
| `Budget.LedgerFollowsTheStoreIff` | `backend/crates/frank-orchestrator/src/budget_enforce.rs:367-394` | while no turn counter is about to saturate, the whole live ledger equals the rebuild if and only if the frame is charged to the scopes the store charges it to |
| `Budget.SameScopesSameLedger` | `backend/crates/frank-orchestrator/src/budget_enforce.rs:367-394` | a frame charged to the scopes the store charges it to leaves the live ledger equal to the rebuild, saturated or not, in any order of the scopes |
| `Budget.EstimatesNeverStop` | `backend/crates/frank-orchestrator/src/budget.rs:109-120` | histories that differ only in estimated, cached or reasoning figures get the same verdict for every scope and every limit |
| `Budget.EstimatesNeverChangeTheVerdict` | `backend/crates/frank-orchestrator/src/budget_enforce.rs:373-392` | nor do they differ in which scope is named first |
| `Budget.EstimatedRowsNeverStop` | `backend/crates/frank-orchestrator/src/budget.rs:71-120` | stores whose rows differ only in those figures rebuild ledgers with the same verdict on every scope |
| `Budget.EstimatedFramesNeverChangeTheVerdict` | `backend/crates/frank-orchestrator/src/budget_enforce.rs:367-392` | the scope named for a live frame does not depend on its estimates or on those of the durable rows |
| `Budget.OverStaysOverInTheStore` | `backend/crates/frank-orchestrator/src/budget.rs:71-120` | a scope that the durable rows put over a limit is over it after any further rows |
| `Budget.OverStaysOver` | `backend/crates/frank-orchestrator/src/budget.rs:109-120` | a scope over its turn, token or cost limit is over it after any further charges |
| `Budget.MissionIsTheSumOfItsTasks` | `backend/crates/frank-orchestrator/src/budget.rs:70-99` | with distinct scope ids and task rows only, what a mission spent is what its tasks spent together |
| `Budget.Verdict` | `backend/crates/frank-orchestrator/src/budget_enforce.rs:373-392` | names the first scope over a limit, and none if and only if no scope is over |
| `Budget.ExceededIff` | `backend/crates/frank-orchestrator/src/budget_enforce.rs:388-391` | what is checked of a scope is exactly whether its time has run out or the clipped sums over all rows and the frame exceed a limit |
| `Budget.LiveLedgerFollowsRows` | `backend/crates/frank-orchestrator/src/budget.rs:58-99` | every figure and turn count of every scope is the clipped sum over the rows, each counted as often as the scope is its task, mission or agent, and its share of the frame |
| `Budget.BudgetLedger.Record` | `backend/crates/frank-orchestrator/src/budget.rs:58-63` | charges one scope and leaves all others |
| `Budget.BudgetLedger.RebuildFromSnapshot` | `backend/crates/frank-orchestrator/src/budget.rs:71-99` | whatever the ledger held, it becomes the projection of the rows |
| `Budget.BudgetLedger.RecordRuntimeUsage` | `backend/crates/frank-orchestrator/src/budget_enforce.rs:331-394` | fails without touching the ledger if and only if task, mission or agent is unknown; otherwise the ledger is the projection of the rows and the frame, and the scope named is the first of task, mission and agent whose time has run out or whose true sums over rows and frame, clipped, exceed its turns, measured tokens or cost; none if and only if no scope is over |
| `UsageCommit.AppliedExactlyIfAcknowledged` | `backend/crates/frank-orchestrator/src/budget_enforce.rs:414-445` | in every interleaving of writers a writer's change is applied exactly once if it returned success, and never otherwise |
| `UsageCommit.UndisturbedWritersGetIn` | `backend/crates/frank-orchestrator/src/budget_enforce.rs:414-445` | in every reachable state a writer that reads and commits undisturbed is acknowledged and its row is at the end of the usage |
| `UsageCommit.RefusedIffOutOfAttempts` | `backend/crates/frank-orchestrator/src/budget_enforce.rs:213-240` | in every interleaving a writer that no error stops is refused if and only if it collided three times, four times for a pause |
| `UsageCommit.SnapshotHoldsEveryAppliedRow` | `backend/crates/frank-orchestrator/src/budget_enforce.rs:414-445` | in every interleaving the snapshot's usage is the initial usage followed by the applied rows in order: no acknowledged row is lost or doubled |
| `UsageCommit.AcknowledgedRowsStay` | `backend/crates/frank-orchestrator/src/budget_enforce.rs:414-445` | in every continuation the usage only grows at its end |
| `UsageCommit.StepKeepsInv` | `backend/crates/frank-orchestrator/src/budget_enforce.rs:213-240` | every step of every writer, budget pauses included, keeps the invariant of the store |
| `UsageCommit.Store.CommitCommand` | `backend/crates/frank-store/src/commit.rs:6-159` | replays a known command, refuses a stale revision, otherwise replaces the snapshot and raises the revision by one |
| `UsageCommit.Store.CommitUsageEvent` | `backend/crates/frank-orchestrator/src/budget_enforce.rs:414-445` | the row is in at the first of three attempts nobody disturbs, the rows of others always; success is returned exactly if the row is in |
| `Plans.HandedAtMostOnce` | `backend/crates/frank-app/src/prepare.rs:43-55` | in every run, under any clock, no plan id is handed out twice |
| `Plans.HandedPlansAreValid` | `backend/crates/frank-app/src/prepare.rs:43-55` | an apply that succeeds hands out the payload stored under that id, at most 300 seconds old and with the fingerprint recorded |
| `Plans.HandedIff` | `backend/crates/frank-app/src/prepare.rs:43-55` | an apply hands out a plan if and only if it was issued, was not taken out, is at most 300 seconds old and its state is unchanged, with eviction under a monotone clock and without it under any |
| `Plans.PreparedPlansCanBeApplied` | `backend/crates/frank-app/src/prepare.rs:24-55` | the first apply that names a prepared plan hands out its payload if it comes in time with an unchanged state, whatever happens in between, and reports it stale otherwise |
| `Plans.IdsAreFresh` | `backend/crates/frank-app/src/prepare.rs:24-37` | every plan is stored under an id never issued or taken before |
| `Plans.EvictionIsUnobservable` | `backend/crates/frank-app/src/plan_store.rs:24-43` | under a clock that never goes back all outcomes equal those of a store that never evicts |
| `Plans.EvictionShowsIfTheClockGoesBack` | `backend/crates/frank-app/src/plan_store.rs:32-32` | without that clock there is a run whose outcomes differ |
| `Plans.RunKeepsInv` | `backend/crates/frank-app/src/prepare.rs:24-55` | in every run the stored plans are issued, unchanged and not yet taken |
| `Plans.PreparedStore.Insert` | `backend/crates/frank-app/src/plan_store.rs:24-43` | adds the new entry and keeps exactly those not more than five minutes old, unchanged |
| `Plans.PreparedStore.Take` | `backend/crates/frank-app/src/plan_store.rs:45-51` | returns and removes the entry, or reports that there is none |
| `Plans.PreparationFlow.Prepare` | `backend/crates/frank-app/src/prepare.rs:24-37` | makes the specified step |
| `Plans.PreparationFlow.TakeValid` | `backend/crates/frank-app/src/prepare.rs:43-55` | makes the specified step: the plan is consumed even if it turns out stale |
| `Spans.SpansAreSeparated` | `backend/crates/frank-compress/src/rules.rs:65-84` | for any matches the spans are non-empty, in order, and each ends strictly before the next begins |
| `Spans.SpansCoverTheMatches` | `backend/crates/frank-compress/src/rules.rs:65-84` | a position is in a span if and only if it is in a match |
| `Spans.MatchesAreProtected` | `backend/crates/frank-compress/src/rules.rs:65-84` | every match lies inside one span |
| `Spans.SpanEndsAreMatchEnds` | `backend/crates/frank-compress/src/rules.rs:73-83` | a span begins where some match begins and ends where some match ends |
| `Spans.SpansAreUnique` | `backend/crates/frank-compress/src/rules.rs:73-83` | separated spans are determined by the positions they cover |
| `Spans.OnlyCoverageMatters` | `backend/crates/frank-compress/src/rules.rs:65-84` | two lists of matches merge to the same spans if and only if they cover the same positions: pattern order, repeats and nesting do not matter |
| `Spans.ProtectedSpans` | `backend/crates/frank-compress/src/rules.rs:65-84` | the loops compute the sorted and merged matches of all patterns |
| `Spans.EveryMatchIsThere` | `backend/crates/frank-compress/src/rules.rs:65-72` | a range is collected if and only if some pattern matches it |
| `Compressor.CompressionShrinks` | `backend/crates/frank-compress/src/rules.rs:203-238` | the compressed text is never longer in bytes, and apart from whitespace and ASCII case it is a subsequence of the text |
| `Compressor.ProtectedTextSurvives` | `backend/crates/frank-compress/src/rules.rs:203-238` | the compressed text holds the text of every protected span verbatim and in order |
| `Compressor.ProseShrinks` | `backend/crates/frank-compress/src/rules.rs:191-201` | each stage and all together drop characters and change whitespace and case only |
| `Compressor.SpanEndsAreClean` | `backend/crates/frank-compress/src/rules.rs:44-57` | no span begins or ends with whitespace |
| `Compressor.StripArticles` | `backend/crates/frank-compress/src/rules.rs:141-158` | removes exactly the matches that a letter follows and keeps everything else |
| `Compressor.CompressProse` | `backend/crates/frank-compress/src/rules.rs:191-201` | the nine stages in their order, each of which `CompressorStages.ProseLeaves` states position by position |
| `Compressor.Compress` | `backend/crates/frank-compress/src/rules.rs:203-238` | the text between spans rewritten, spans copied, the ends trimmed, with the byte lengths before and after, the second at most the first |
| `CompressorStages.ProseLeaves` | `backend/crates/frank-compress/src/rules.rs:191-201` | for all texts, position by position: the erasing stages and the articles in front of letters leave the positions outside their matches, blanks leave one space, loose punctuation its last character, newlines two, and sentence starts rise |
| `CompressorStages.ErasingLeaves` | `backend/crates/frank-compress/src/rules.rs:141-158` | erasing leaves exactly the positions without a match |
| `CompressorStages.PunctuationStays` | `backend/crates/frank-compress/src/rules.rs:165-169` | loose punctuation loses what stands in front of it and stays |
| `CompressorStages.BlanksLeaveOneSpace` | `backend/crates/frank-compress/src/rules.rs:160-164` | a run of blanks leaves one space |
| `CompressorStages.NewlinesLeaveTwo` | `backend/crates/frank-compress/src/rules.rs:170-173` | three or more newlines leave two |
| `CompressorStages.StartsRise` | `backend/crates/frank-compress/src/rules.rs:174-189` | a sentence start is raised to upper case and nothing else changes |
| `CompressorStages.TidyingKeepsCore` | `backend/crates/frank-compress/src/rules.rs:160-173` | tidying up keeps every character that is not white, for all texts and well-formed rules |
| `CompressorStages.CapitalisingKeepsCore` | `backend/crates/frank-compress/src/rules.rs:174-189` | capitalising keeps every character but its case |
| `CompressorStages.NothingElseIsLost` | `backend/crates/frank-compress/src/rules.rs:203-238` | but for white space and case, the compressed text is the protected spans and what the erasing stages leave between them |
| `CompressorStages.CoreSurvives` | `backend/crates/frank-compress/src/rules.rs:203-238` | a text in which nothing is to be erased keeps all its characters but white space and case |
| `CompressorStages.FollowedIff` | `backend/crates/frank-compress/src/rules.rs:141-158` | the articles that go are exactly the matches directly followed by a letter |
| `Recompression.IdempotentIff` | `backend/crates/frank-compress/src/rules.rs:203-238` | a second pass changes nothing if and only if no pattern matches between the protected spans of the first result, articles counting only before a letter |
| `Recompression.FixedIff` | `backend/crates/frank-compress/src/rules.rs:203-238` | compressing leaves a text alone if and only if it is trimmed and no pattern matches between its protected spans |
| `Recompression.NotIdempotent` | `backend/crates/frank-compress/src/rules.rs:103-119` | for any well-formed rules, any word, filler and rest: if the patterns match in the four texts of that story as listed, and a hedge matches in the last, a second pass changes the compressed text |
| `Recompression.SecondPassGoesOn` | `backend/crates/frank-compress/src/rules.rs:191-201` | for any well-formed rules and any such story, the first pass yields its last text and the second pass another |
| `Recompression.StoriesAreTold` | `backend/crates/frank-compress/src/rules.rs:103-119` | every such story has well-formed rules that match so |
| `Recompression.ProseFixedIff` | `backend/crates/frank-compress/src/rules.rs:191-201` | the nine stages leave a stretch alone if and only if none of their patterns matches in it: no stage makes up for another |
| `Recompression.TrimmedWeaveFixedIff` | `backend/crates/frank-compress/src/rules.rs:222-231` | with gaps that only shrink, the reassembled and trimmed text is the text if and only if it was trimmed and every gap is unchanged |
| `BoundedLine.ReadAll` | `backend/crates/frank-agent-mcp/src/lib.rs:692-695` | for every buffering, call after call returns the same frames: each line verbatim if within the cap, else only a marker, then the end or the error |
| `BoundedLine.FramesTellTheLines` | `backend/crates/frank-agent-mcp/src/lib.rs:811-818` | each line within the cap is a frame verbatim, each longer one only the marker |
| `BoundedLine.ReadBoundedLine` | `backend/crates/frank-agent-mcp/src/lib.rs:792-824` | one call returns the next frame of the remaining bytes and consumes exactly its bytes, whatever the fills |
| `BoundedLine.CallsFollowTheFrames` | `backend/crates/frank-agent-mcp/src/lib.rs:792-824` | one call takes the first of the frames and leaves the input of the others |
| `BoundedLine.HeldLineIsBounded` | `backend/crates/frank-agent-mcp/src/lib.rs:811-818` | however a line arrives in parts, what is held depends on its bytes only and never exceeds the cap |

## Left out

- HTTP, TLS, WebSocket, process, terminal, keychain and file system code: calls into code outside the model.
- `provider_transcript` and the rest of the restart path: the model restarts with the durable items and new sessions, and does not rebuild a conversation from them.
- Task grants, which an allow for the whole task writes: whether they may be given is an input of a decision.
- The policy functions behind `tool_requires_approval`, `task_grant_allows` and the organization's veto: their answers are inputs.
- `set_agent`, `transition_task`, capability revocation and scheduler calls around the handlers: they do not touch the tool-call state.
- Turn ids, random identifiers and the sleeps between attempts: they do not influence what is proved.
- `enforce_time_budgets` and the persistence of budget clocks: elapsed times are inputs of the verdict.
- Task, mission and agent ids are canonical strings: `TaskId::parse` succeeding on them is part of finding the task.
- `parse_iso8601_ms` before its fields are parsed, `parse_session`, `find_recent_session`: string splitting and file walking.
- The command responses of the connection actor, which do not touch its event queue, and `ReconnectingEvents`, a thinner loop over the same cursor.
- Poisoned locks of the plan store.
- Pricing, savings estimates, coverage and report rendering: floating point and formatting.
- `Scheduler`, `Mailbox`, runtime selection, CLI commands, pack and target services, the GUI shell: thin or easy members.
