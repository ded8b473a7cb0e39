# Verified model of the agent toolkit's protocol code

This project models the code of the toolkit that turns one stream or document into another and has
to get every case right, and proves what that code promises.

**The AG-UI adapter** (`packages/ag-ui`), three pieces that build on each other:

- JSON diff and patch over RFC 6901 pointers: `JsonPointer`, `Json`, `JsonPatch` (the algorithms),
  `PatchEffect` (what every operation does, or why it fails) and `PatchLaws` (round trip, patch shape,
  order independence, inverses). `Decimal` holds the printing and reading of numbers that array indices
  and ids need.
- The event mapper: `AgUiEvents` (the step function), `AgUiGrammar` (the stream grammar),
  `AgUiContent` (what a reader is told), `AgUiNesting` (the message of a tool call, nested steps),
  `AgUiOutcome` (how the run ends), `AgUiRuns` and `AgUiLate` (events behind the end, conservation of
  steps), `AgUiReplay` and `AgUiReplaySafe` (a client that replays the deltas), `AgUiShown` (what the
  state shows), and `AgUiOutput` and `AgUiMapper` (the event loop with its mutable state, which has all
  of these laws as its contract).
- The approval session: `ApprovalStore` and `ApprovalLaws` (the store as a value), `ApprovalFields` and
  `ApprovalSweep` (which records stay live and stored, told by their fields), `ApprovalRuns` and
  `ApprovalLive` (every interleaving of publish, decide and the end of a resume), `Approval` (the
  mutable map, history and records, refining the store) and `TokenCompare` (the comparison of tokens).

**Stream readers.** `EventFrames`, `ClientEvents` and `EventStream` model the two server-sent-event
readers. `EventWritten`, `EventEncode`, `ClientWritten` and `StreamWritten` show that what a server
writes as events is what each reader hands on; `EventCuts`, `EventPieces` and `EventFusion` settle when
the places where a text is cut into chunks can matter.

**Model providers.** `AzureResponses`, `AzureLaws`, `AzureCalls`, `AzureBatch`, `AzureMessage`,
`AzureText`, `AzureEnds` and `AzureStray` model the Azure OpenAI response stream next to the parser of a
finished response; `Anthropic`, `AnthropicRuns` and `AnthropicBatch` do the same for Anthropic messages
and their usage.

**Smaller state machines.** `LiveTransport` is the bounded queue between a socket and its one
consumer, `LockSplice` the back-to-front splice of the lockfile, `Ledger` and `Evaluator` the
idempotent effect ledger and the oracle that classifies a run over it.

Code that updates fields or variables is modelled by classes and methods with loops, each against a
function over values; what the source promises is then proved of that function, over every input,
every event list or every interleaving. JSON parsing, UTF-8 decoding, the clock and the control
plane's resume are parameters or steps with any outcome; a queue item's token is any string, and
where fresh tokens matter, freshness is a stated condition.

`dafny verify dfyconfig.toml` checks the whole project.

## Where the code does not meet the property as first stated

Each of these is proved with the exact condition and with inputs that fail:

- Copying a record drops the key `__proto__`, so the diff's round trip fails for objects that carry
  it, even unchanged (`PatchLaws.RoundTripExact`, `PatchLaws.UnsafeExample`).
- A transient failure of a resume whose record was moved to the history meanwhile, by a
  later publish or decision, makes that record usable again; a newer token of the same approval can
  then be live beside it (`ApprovalLive.TwoLiveExact`, `ApprovalLive.UnspentExact`,
  `ApprovalLive.SpentThroughoutExact`, `ApprovalLive.TwoLiveTokens`).
- The key of an approval joins its parts with NUL, so ids that hold a NUL can share a key
  (`ApprovalFields.KeyExact`, `ApprovalFields.KeyCollides`).
- The agent-to-agent reader folds CRLF again in the carried rest, so the frames it yields can depend
  on the chunk cuts. They do not exactly when the text is clean in one pass, which every text without
  CR CR LF is; the condition differs in one place for chunks that may be empty and chunks that may not
  (`EventPieces.YieldExact`, `EventPieces.CleanWithoutCrCrLf`, `EventPieces.EmptyChunkShows`). Two events
  with LF CR CR LF between them are yielded apart or fused (`EventFusion.CutsAreVisible`).
- Events after an agent-run-finish can follow the terminal event and open messages and steps that
  nothing closes (`AgUiRuns.TerminalLastExact`, `AgUiRuns.StepConservation`,
  `AgUiLate.LateTextExample`, `AgUiLate.LateStepExample`).
- Azure function-call arguments without an item id and an output index are filed under the number of
  calls; a completed response fails when no call is named under that key, before or after
  (`AzureStray.StrayArgumentsExact`, `AzureStray.StrayArgumentsAfterKeyed`,
  `AzureStray.StrayArgumentsExample`).
- An Azure call with empty argument text is released with an empty object by the stream and refused
  by the parser of the whole response, and hosted calls move behind function calls in the stream
  (`AzureMessage.StreamEqualsMessage`, `AzureMessage.EmptyArgumentsExample`,
  `AzureMessage.SwappedExample`).
- An Anthropic tool buffer is never dropped, so a later block under the same index repeats the tool
  call; and the stream drops an empty toolset name that the finished message keeps
  (`AnthropicBatch.StreamEqualsBatchExact`, `AnthropicBatch.ReusedIndexExample`,
  `AnthropicBatch.EmptyToolsetExample`).
- A clean close of the live transport loses all messages when exactly 256 are queued and nobody waits
  (`LiveTransport.CloseExact`, `LiveTransport.FramesThenClose`).

## Model

| member | source | states |
|---|---|---|
| JsonPointer.TokenRoundTrip | packages/ag-ui/src/json-patch.ts:6-10 | Decoding an encoded token gives the token back, and an encoded token contains no `/`, for every string. |
| JsonPointer.DecodeEncodeExact | packages/ag-ui/src/json-patch.ts:6-10 | Re-encoding a decoded token gives the token back if and only if it escapes every `/` and `~`; any other token is changed. |
| JsonPointer.TwoPassesAreOne | packages/ag-ui/src/json-patch.ts:6-10 | The two replacements, one after the other, escape and unescape every string in one pass: `~0` for `~` and `~1` for `/`, and back, with any other `~` standing for itself. |
| JsonPointer.PathRoundTrip | packages/ag-ui/src/json-patch.ts:38-44 | Splitting the pointer the diff prints for any list of keys returns that list (RFC 6901, sections 3 and 4). |
| JsonPointer.SegmentsRead | packages/ag-ui/src/json-patch.ts:38-44 | A pointer of any tokens without slashes is read as those tokens, unescaped, in order, however they are escaped. |
| JsonPointer.NoPointerExact | packages/ag-ui/src/json-patch.ts:38-44 | A path is refused if and only if it is not empty and has no slash at its start, which means that it is no sequence of tokens behind slashes. |
| JsonPointer.PrintPointerInjective | packages/ag-ui/src/json-patch.ts:16-44 | Distinct key paths never print the same pointer. |
| JsonPatch.ParseArrayIndex | packages/ag-ui/src/json-patch.ts:50-76 | The digit loop accepts a segment exactly when it is `-` on an add, or canonical decimal, a safe integer and in bounds for the operation; otherwise it says which of the errors is thrown. |
| JsonPatch.IndexSpelling | packages/ag-ui/src/json-patch.ts:50-76 | Every index that is in bounds has exactly one accepted spelling besides `-`. |
| JsonPatch.DiffDocuments | packages/ag-ui/src/json-patch.ts:16-36 | The recursive diff over two documents yields one operation for each edited path and none twice, in some order of the keys. |
| JsonPatch.DiffJson | packages/ag-ui/src/json-patch.ts:16-36 | Below any path prefix the diff lists exactly the edited paths of the two subdocuments, each printed once with its operation. |
| JsonPatch.ApplyJsonPatch | packages/ag-ui/src/json-patch.ts:145-152 | The patch loop gives the document after all operations in turn, or the first error. |
| JsonPatch.FailurePersists | packages/ag-ui/src/json-patch.ts:145-152 | A patch whose prefix fails fails as a whole. |
| PatchEffect.OperationExact | packages/ag-ui/src/json-patch.ts:106-143 | An operation gives a document if and only if that document is its effect: inserted, removed or replaced at the decimal place, at any depth, with every other element and member kept, except that `__proto__` is dropped from copied objects. |
| PatchEffect.FailureExact | packages/ag-ui/src/json-patch.ts:106-143 | An operation fails with an error if and only if the first obstacle on the way down its path gives that error: reserved name, missing path, no such place in an array, or removal of the root. |
| PatchEffect.IndexErrors | packages/ag-ui/src/json-patch.ts:50-76 | Which error a segment gives that names no place: `-` outside an add, a text that is no safe decimal number, a number out of bounds. |
| PatchEffect.DashAppends | packages/ag-ui/src/json-patch.ts:55-60 | An add at `-` puts the value behind the last element; no other operation takes it. |
| PatchEffect.PatchExact | packages/ag-ui/src/json-patch.ts:145-152 | A patch succeeds with a document if and only if a chain of documents leads to it in which each step is the effect of the next operation at its parsed pointer. |
| PatchLaws.MergeStep | packages/ag-ui/src/json-patch.ts:106-143 | Carrying out one more edit on a half-patched document, at any depth, gives the half-patched document with that edit merged in. |
| PatchLaws.RoundTripExact | packages/ag-ui/src/json-patch.ts:16-152 | For any two documents and any diff between them in any order, applying the diff to the first succeeds with the second if and only if no reserved key is on the way to a change and no changed object carries `__proto__`. |
| PatchLaws.RoundTrip | packages/ag-ui/src/json-patch.ts:16-152 | Without reserved keys the round trip holds for all documents, at any depth and for any key text. |
| PatchLaws.UnsafeExample | packages/ag-ui/src/json-patch.ts:78-104 | A concrete pair, equal in `__proto__`, that the round trip does not restore: copying a record drops that key. |
| PatchLaws.EditsPrefixFree | packages/ag-ui/src/json-patch.ts:16-36 | No path of a diff is a prefix of another. |
| PatchLaws.TargetsExistInTurn | packages/ag-ui/src/json-patch.ts:106-143 | In any order of a diff that avoids reserved names, every operation meets sections 4.1 to 4.3 of RFC 6902 when its turn comes: containers exist, removed and replaced targets exist, added members do not. |
| PatchLaws.ReorderedPatch | packages/ag-ui/src/json-patch.ts:16-36 | Any permutation of a diff is again a diff of the same documents. |
| PatchLaws.OrderIrrelevant | packages/ag-ui/src/json-patch.ts:145-152 | Every permutation of a diff gives the same document, or none of them can be applied. |
| PatchLaws.EmptyPatchExact | packages/ag-ui/src/json-patch.ts:16-36 | The diff is empty if and only if the documents are equal and hold no array. |
| PatchLaws.ReservedRefused | packages/ag-ui/src/json-patch.ts:113-142 | A path with `__proto__`, `constructor` or `prototype` on it is refused by every operation on every document. |
| PatchLaws.WrittenValueFound | packages/ag-ui/src/json-patch.ts:106-143 | What an add or replace wrote is what its pointer then finds. |
| PatchLaws.RemoveUndoesAdd | packages/ag-ui/src/json-patch.ts:106-143 | Removing what was just added, from an object or an array at any depth, restores the document. |
| TokenCompare.TokensMatch | packages/ag-ui/src/approval.ts:79-88 | The XOR and OR loop over padded character codes reports a match exactly when lengths agree as 32-bit words and all padded codes agree. |
| TokenCompare.AgreeExact | packages/ag-ui/src/approval.ts:79-88 | That agreement is equality, except for strings whose lengths differ by a multiple of 2^32 and whose longer one ends in NUL characters only. |
| TokenCompare.TokensMatchIsEquality | packages/ag-ui/src/approval.ts:79-88 | On strings shorter than 2^32 the comparison is string equality. |
| Approval.ClientApprovalSession.Publish | packages/ag-ui/src/approval.ts:195-223 | The publish call on the mutable map, history and records leaves the value-level store with a prune and then every item in turn. |
| Approval.ClientApprovalSession.PublishOne | packages/ag-ui/src/approval.ts:205-220 | The call leaves the store that publishing the item on values leaves; which record that supersedes is told by `ApprovalFields.PublishOneExact`, and where it goes by `ApprovalSweep.SupersededFound`. |
| Approval.ClientApprovalSession.Prune | packages/ag-ui/src/approval.ts:157-173 | The three prune loops drop expired records, move spent ones to the history once, and keep its newest 64. |
| Approval.ClientApprovalSession.FindByToken | packages/ag-ui/src/approval.ts:179-192 | The two search loops collect exactly the stored records whose token equals the given one, live ones first. |
| Approval.ClientApprovalSession.Detach | packages/ag-ui/src/approval.ts:149-155 | The record leaves the live map and the first place it has in the history, and nothing else changes. |
| Approval.ClientApprovalSession.Decide | packages/ag-ui/src/approval.ts:225-273 | Everything before the await: the same rejection, or the same record marked consumed, as the value-level decision, with the store it leaves. |
| Approval.ClientApprovalSession.Settle | packages/ag-ui/src/approval.ts:275-291 | Only a transient failure of the resume clears the consumed flag; any other result leaves the store as it is. |
| ApprovalLaws.DecideShape | packages/ag-ui/src/approval.ts:225-273 | Every store a decision can leave is the one before it, for a rejection that does not prune, or the pruned one, perhaps without one expired record or with one more record consumed. |
| ApprovalLaws.PublishOneWellFormed | packages/ag-ui/src/approval.ts:205-220 | Publishing keeps the store well-formed: keys and records distinct, history bounded and disjoint, superseded records consumed, live records newest. |
| ApprovalFields.KeyExact | packages/ag-ui/src/approval.ts:97-98 | For run ids and providers without NUL, two approvals have the same key if and only if run, provider and approval id agree. |
| ApprovalFields.KeyCollides | packages/ag-ui/src/approval.ts:97-98 | With a NUL in a run id and in a provider, two approvals of different runs share a key. |
| ApprovalFields.PublishOneExact | packages/ag-ui/src/approval.ts:205-220 | Publishing an item supersedes a live record if and only if run, provider and approval id agree; every other live record stays live in the map. |
| ApprovalFields.PublishExact | packages/ag-ui/src/approval.ts:195-222 | A whole publish call, with any items: an unexpired live record stays live in the map if and only if no item of the call is for its run, provider and approval id; otherwise it is superseded. |
| ApprovalFields.PublishedLive | packages/ag-ui/src/approval.ts:195-222 | Each published item is live after the call if and only if no later item of the call is for the same approval. |
| ApprovalFields.DecideLive | packages/ag-ui/src/approval.ts:225-273 | A decision leaves an unexpired live record live in the map if and only if it does not resume that record. |
| ApprovalFields.InvalidExact | packages/ag-ui/src/approval.ts:225-243 | A decision is refused as invalid, and changes nothing, if and only if it is malformed or its reason is no text of at most 1000 characters. |
| ApprovalFields.LiveStepExact | packages/ag-ui/src/approval.ts:195-291 | In any interleaving an unexpired live record stays live in the map through a step if and only if the step neither publishes its own approval anew nor resumes it. |
| ApprovalFields.LiveRunExact | packages/ag-ui/src/approval.ts:195-291 | The same over any continuation: while it has not expired, a live record is live throughout if and only if no step ends it. |
| ApprovalFields.PrunedHistoryNewest | packages/ag-ui/src/approval.ts:157-173 | A prune keeps the newest 64 of the unexpired history records, those it just moved there included. |
| ApprovalFields.PruneKeepsStored | packages/ag-ui/src/approval.ts:157-173 | While at most 64 records are stored, a prune loses exactly the expired ones. |
| ApprovalSweep.PruneSweeps | packages/ag-ui/src/approval.ts:157-173 | A prune drops expired and used records from the live map and no other; the history takes in used records of the map, keeps nothing expired, and loses nothing else while at most 64 records are stored. |
| ApprovalSweep.DecideSweeps | packages/ag-ui/src/approval.ts:225-273 | A decision that is invalid, ambiguous or for another run changes nothing; every other one, refused or not, sweeps the session like a prune. |
| ApprovalSweep.SupersededFound | packages/ag-ui/src/approval.ts:205-212 | A record that is superseded goes behind the history, of which the newest 64 stay, so that its token is still known. |
| ApprovalSweep.NothingSuperseded | packages/ag-ui/src/approval.ts:205-212 | An item with no live record of its approval leaves the history alone. |
| ApprovalSweep.PublishForgets | packages/ag-ui/src/approval.ts:195-196 | After a publish call no expired record can be found. |
| ApprovalRuns.SingleUse | packages/ag-ui/src/approval.ts:225-292 | In every interleaving of publish, decide and the ends of resumes, a record has at most one resume under way and at most one success, ever, counted together. |
| ApprovalRuns.ReusableOnlyAfterTransientFailure | packages/ag-ui/src/approval.ts:284-291 | A consumed record becomes usable in a step only if that step is the transient failure of its own resume; a superseded record never does. |
| ApprovalRuns.StoreInvariant | packages/ag-ui/src/approval.ts:142-177 | Between any two steps of any interleaving the live map and the history share no record, neither holds one twice, the history has at most 64, and superseded records are consumed for good. |
| ApprovalRuns.ResumesExactly | packages/ag-ui/src/approval.ts:225-273 | A resume starts for a record if and only if the decision is well-formed and the record is the only holder of the token, belongs to this run, provider and request, and is not superseded, consumed or expired. |
| ApprovalRuns.NeverAmbiguous | packages/ag-ui/src/approval.ts:179-192 | With fresh tokens no decision is ever rejected as ambiguous, in any interleaving. |
| ApprovalRuns.OwnedToken | packages/ag-ui/src/approval.ts:244-273 | With fresh tokens, the outcome of a decision is told by the one record that owns its token: unknown when it is gone, then another run, superseded, used, expired, in this order, and a resume otherwise. |
| ApprovalRuns.UsedTokenRejected | packages/ag-ui/src/approval.ts:244-291 | A token whose resume succeeded or failed for good never starts another resume. |
| ApprovalRuns.DroppedForever | packages/ag-ui/src/approval.ts:157-177 | A record that can no longer be found stays lost in every continuation. |
| ApprovalRuns.ExpiredThenForged | packages/ag-ui/src/approval.ts:267-271 | An expired token is reported stale once and as forged from then on, whatever happens in between. |
| ApprovalLive.OneLiveToken | packages/ag-ui/src/approval.ts:157-173 | In every run whose decisions do not overlap other calls, the whole history is consumed, and of two live records at most one is for a given run, provider and approval id, the newest published for it. |
| ApprovalLive.CurrentIsNewest | packages/ag-ui/src/approval.ts:205-220 | In any run at all, a usable record of the live map is the newest one published for its approval. |
| ApprovalLive.OneLiveWhileSpent | packages/ag-ui/src/approval.ts:157-173 | In any run, two live tokens of one approval mean that one of them is an unspent record of the history; while the history is spent there is at most one, the newest published. |
| ApprovalLive.SpentThroughoutExact | packages/ag-ui/src/approval.ts:284-291 | The history is spent at every point of a run if and only if no step of the run is a transient failure of a record moved to the history meanwhile. |
| ApprovalLive.TwoLiveExact | packages/ag-ui/src/approval.ts:157-291 | At the end of any run, two tokens of one approval are live together if and only if one of them is live and the other is still stored, was revived by a transient failure while in the history, and was not resumed by a decision since. |
| ApprovalLive.UnspentExact | packages/ag-ui/src/approval.ts:225-291 | At the end of any run, a record of the history is usable if and only if such a failure revived it there, no decision has resumed it since, and it is still stored. |
| ApprovalLive.RevivalExact | packages/ag-ui/src/approval.ts:284-291 | In an arbitrary interleaving a spent history stays spent in a step if and only if the step is not such a transient failure. |
| ApprovalLive.TwoLiveTokens | packages/ag-ui/src/approval.ts:205-291 | For every approval published twice, a transient failure that overlaps the second publish revives the older token: two live tokens for one approval. |
| AgUiMapper.ToAgUiEvents | packages/ag-ui/src/map.ts:126-381 | For every source, the output of the mutable event loop follows the stream grammar with one terminal event, conserves and nests steps, tells a reader exactly what the source says, puts tool calls under the right message, ends as the source ends, and lets a client replay the runs under the exact condition below. |
| AgUiMapper.Stream.Handle | packages/ag-ui/src/map.ts:221-378 | One turn of the loop changes the mapper's fields and appends the events as the step function says. |
| AgUiMapper.Stream.EmitState | packages/ag-ui/src/map.ts:163-177 | The first state is sent whole; later ones as a diff, withheld exactly when the state did not change. |
| AgUiMapper.Stream.OnStepFinish | packages/ag-ui/src/map.ts:253-258 | The backward search removes the last open step of that name, if there is one, and the finish is sent in any case. |
| AgUiMapper.Stream.FinishRun | packages/ag-ui/src/map.ts:184-210 | Once only: the open message is closed, then the open steps from the last, then the terminal event. |
| AgUiGrammar.OutputAccepted | packages/ag-ui/src/map.ts:126-381 | For every source: RUN_STARTED first and only once, content only inside the one open message, tool calls whole, minted ids new; and the last state of the acceptor says what is still open. |
| AgUiGrammar.OneTerminalDistinctIds | packages/ag-ui/src/map.ts:145-210 | Every output holds exactly one terminal event, and all minted message ids are pairwise distinct. |
| AgUiContent.OutputTells | packages/ag-ui/src/map.ts:221-378 | For every source: what a reader of the events is told, message text, tool calls with their arguments, tool results, custom and activity events with what they carry, and step names, is exactly what the source says, in order, nothing lost, changed or moved. |
| AgUiContent.TextsExact | packages/ag-ui/src/map.ts:261-268 | The texts of the message contents, in order, are exactly the source's text deltas. |
| AgUiNesting.OutputParents | packages/ag-ui/src/map.ts:270-279 | Every tool call names the last message that was closed before it, or none if none was. |
| AgUiNesting.OutputNested | packages/ag-ui/src/map.ts:157-259 | The steps of the output are nested, each finish being for the innermost open step, if and only if those of the source are, and none is left open unless it was opened behind the finish. |
| AgUiOutcome.Remembers | packages/ag-ui/src/map.ts:178-182 | The remembered interrupts are one for each approval asked for, in order of first request, each as it was asked for last. |
| AgUiOutcome.UntilFirst | packages/ag-ui/src/map.ts:184-186 | What decides the end is the source up to its first agent-run-finish. |
| AgUiOutcome.OutputEnds | packages/ag-ui/src/map.ts:184-437 | The one terminal event is told by the source: by the first finish's status, the approvals asked for until then or pending in its state, and the last error; without a finish by the last error, or success. |
| AgUiShown.OutputShows | packages/ag-ui/src/map.ts:238-371 | What the state events show at the end is the runs as they were published last, each under its own id, with the run of these options as the active one, or, while none was published for them, the first run that was. |
| AgUiShown.ViewShown | packages/ag-ui/src/map.ts:48-58 | An update shows exactly the listed fields of its run; empty strings and missing values show nothing. |
| AgUiShown.FinalShown | packages/ag-ui/src/map.ts:60-72 | A finish shows also the output text and the number of pending approvals, and nothing else of the state it carries. |
| AgUiRuns.TerminalLastExact | packages/ag-ui/src/map.ts:184-210 | The terminal event is the last one if and only if everything after the first agent-run-finish is quiet. |
| AgUiRuns.QuietExact | packages/ag-ui/src/map.ts:221-378 | After the run's finish, exactly the quiet events yield nothing. |
| AgUiRuns.ClosedAtEnd | packages/ag-ui/src/map.ts:363-380 | When nothing but quiet events follow the finish, the output ends with its terminal event and no message is open. |
| AgUiRuns.StepsBalance | packages/ag-ui/src/map.ts:157-161 | At every point of every source the open list holds each name as often as it was started and not finished, and the counts of starts and finishes balance. |
| AgUiRuns.StepConservation | packages/ag-ui/src/map.ts:246-259 | For every source, the finishes of a name are its starts plus the source's unmatched finishes, less the steps opened after an agent-run-finish and never closed. |
| AgUiRuns.StepsBalanceAtEnd | packages/ag-ui/src/map.ts:184-188 | With nothing after agent-run-finish, or without one, starts plus unmatched finishes equal finishes for every name. |
| AgUiLate.LateTextExample | packages/ag-ui/src/map.ts:261-267 | For any run state: text behind an agent-run-finish ends the output with a text content, and its message is never closed. |
| AgUiLate.LateStepExample | packages/ag-ui/src/map.ts:246-251 | For any run state: a step behind an agent-run-finish is started and never finished. |
| AgUiReplay.InStepExact | packages/ag-ui/src/map.ts:163-177 | A client that applies the deltas is in step with the server at every point up to n if and only if every change so far avoids reserved keys. |
| AgUiReplay.OutputChained | packages/ag-ui/src/map.ts:163-177 | Every delta starts from the state that was shown before it, for every source. |
| AgUiReplaySafe.ReplayExact | packages/ag-ui/src/map.ts:163-177 | For every source, the replaying client holds the mapper's public state at every point if and only if each published run either repeats what is shown or has an unreserved id while no run is called `__proto__`. |
| AgUiReplaySafe.ReplayHoldsState | packages/ag-ui/src/map.ts:238-244 | When no published run id is reserved, the replayed state is the mapper's public state to the end. |
| EventFrames.DrainConcat | packages/core/src/a2a-client.ts:477-503 | Draining a text in two steps, with the rest carried over, gives the frames and the rest of draining it at once, for any finder whose answers survive growth. |
| EventFrames.FlushFrames | packages/core/src/a2a-client.ts:479-502 | The loop hands on every complete frame in order, stops at the first failure, and keeps the text behind the last separator. |
| EventFrames.NothingLost | examples/client-approvals/client.tsx:25-31 | The frames, the separators that were found and the rest spell the text. |
| EventFrames.FramesHoldNoCut | examples/client-approvals/client.tsx:25-31 | No frame and no rest holds a separator. |
| EventFrames.FailureEnds | packages/core/src/a2a-client.ts:490-500 | Once a frame fails, later frames change nothing. |
| ClientEvents.FramesSpellText | examples/client-approvals/client.tsx:25-35 | With blank lines of LF or CRLF in any mix, the text is its frames with blank lines between them, and neither a frame nor the rest holds a blank line. |
| ClientEvents.UnbrokenExact | examples/client-approvals/client.tsx:25 | The search finds nothing if and only if no part of the text is a blank line. |
| ClientEvents.FindBreakStable | examples/client-approvals/client.tsx:25-31 | A break that was found stays the first break however the text grows. |
| ClientEvents.ReadEvents | examples/client-approvals/client.tsx:22-36 | The read loop delivers the events of the concatenated text, so the cuts between chunks never matter, even inside a CRLF or a blank line; what these events are is told by `ClientWritten.WrittenIsReceived`. |
| ClientWritten.WrittenIsReceived | examples/client-approvals/client.tsx:10-36 | Whatever events a server writes, with LF or CRLF line ends, with comment, type and id lines between the data lines, and with or without the last blank line, the reader hands on exactly their data lines' values, parsed, in order, however the text is cut; it stops at the first that does not parse. |
| EventStream.NormalizeExact | packages/core/src/a2a-client.ts:478 | Folding CRLF changes exactly the texts that hold one, and makes those shorter. |
| EventStream.CutExact | packages/core/src/a2a-client.ts:477-503 | A cut is harmless, for this continuation and every other, if and only if the carried rest holds no CRLF. |
| EventPieces.YieldExact | packages/core/src/a2a-client.ts:467-522 | The frames that a response yields, closing blank line included, are the same for every way of cutting its text into chunks if and only if, read in one chunk, no complete frame holds a CRLF or ends with a CR after folding and the carried rest holds no CR CR LF. Empty chunks count there, since bytes that are only part of a character decode to one; for non-empty chunks alone the same holds with a CR CR LF allowed at the very end of the rest. In either case one cut is enough to show a difference. |
| EventPieces.CleanWithoutCrCrLf | packages/core/src/a2a-client.ts:478 | Every text without CR CR LF, so every text whose every CR is followed by LF, meets both conditions. |
| EventPieces.EmptyChunkShows | packages/core/src/a2a-client.ts:477-520 | CR CR CR LF yields the same frames for every cut into non-empty chunks, and other frames for a cut with an empty chunk. |
| EventPieces.ReadLineFeeds | packages/core/src/a2a-client.ts:477-520 | However a text is cut, folding loses CRs only: frames, blank lines and closing have together the line feeds of the text and its closing. |
| EventCuts.CutKeepsFrames | packages/core/src/a2a-client.ts:477-520 | In a text that meets the condition, for chunks with or without empty ones, a cut at any place leaves the frames and the condition for the rest as they are. |
| EventFusion.CutsAreVisible | packages/core/src/a2a-client.ts:467-522 | For any two events written with LF CR CR LF between them: cut behind it, the reader yields both values; in one chunk it yields what the lines of both parse to, as one event or as its error. The outcomes differ. |
| EventStream.RestUnbroken | packages/core/src/a2a-client.ts:477-503 | The carried buffer never holds a blank line. |
| EventStream.AcceptedCount | packages/core/src/a2a-client.ts:506-513 | The chunks that are parsed are decodable and stay within the byte limit together, and the first one left out is not decodable or passes the limit. |
| EventStream.ReadEventStream | packages/core/src/a2a-client.ts:467-531 | The read loop yields what its chunks give up to the limit, a decoding error or the first bad frame, and ends in that error; no chunk past the limit is parsed. |
| EventStream.WholeTextDecides | packages/core/src/a2a-client.ts:467-522 | Within the limit and without CR CR LF, the events are those of the whole text with its closing blank line. |
| EventStream.NothingUnsent | packages/core/src/a2a-client.ts:511-512 | After the closing blank line at most one LF is left over, so no frame is lost. |
| EventEncode.DataOfRaw | packages/core/src/a2a-client.ts:483-487 | Reading the data of a written event gives its lines back, joined by LF. |
| StreamWritten.WrittenIsReceived | packages/core/src/a2a-client.ts:467-522 | Whatever events a server writes, with LF or CRLF line ends, with other lines between the data lines, and with or without the last blank line, and however its text is cut into chunks within the limit, the reader hands on exactly their results, in order; it stops at the first answer that is no JSON, no record, an error or without a record result, with the error of that case. |
| StreamWritten.TakenExact | packages/core/src/a2a-client.ts:506-510 | The number of chunks taken is told by the sizes and decodings of the chunks: all before the first that is not UTF-8 or with which the sizes together pass the limit. |
| StreamWritten.BreaksOff | packages/core/src/a2a-client.ts:504-531 | A stream that breaks off, at a chunk that is not UTF-8 or passes the limit or inside a character, hands on exactly the events whose blank line had arrived, and then the error of that case. |
| AzureResponses.StreamResponses | packages/azure-openai/src/index.ts:1289-1446 | The generator's loop over the server events yields the outputs and the error of the step-by-step run. |
| AzureResponses.FileToolEvent | packages/azure-openai/src/index.ts:1357-1406 | A function-call item or an arguments event brings exactly the buffer of its key up to date, in the place where that key first occurred, and creates it at the end if it is new. |
| AzureResponses.ReleaseCalls | packages/azure-openai/src/index.ts:1300-1317 | The release loop yields the calls up to the first that is incomplete or malformed, with that error. |
| AzureLaws.OutputOrder | packages/azure-openai/src/index.ts:1334-1446 | For every event list: first exactly the events' own text and provider data; then tool calls, only under a completed status; then at most one finish. Without a terminal event the run ends in an error, a run without error has its finish, and a completed finish says tool-calls exactly when calls went out. |
| AzureLaws.EffectsExact | packages/azure-openai/src/index.ts:1319-1332 | For every event list, an error says effects are possible if and only if provider data went out before it and it is not the malformed-arguments error. |
| AzureCalls.BuffersByKey | packages/azure-openai/src/index.ts:1294-1298 | When function-call events carry their ids, the buffers are one for each id in order of first occurrence, each built from its own events alone. |
| AzureCalls.InterleavingIrrelevant | packages/azure-openai/src/index.ts:1357-1406 | Two streams that interleave the same calls differently leave the same buffers. |
| AzureCalls.ArgumentsExact | packages/azure-openai/src/index.ts:1364-1404 | A call's arguments are the last whole text assigned by any of its events followed by every later delta. |
| AzureCalls.ArgumentsFromDeltas | packages/azure-openai/src/index.ts:1400-1402 | Without a whole text, the arguments are all deltas in order. |
| AzureCalls.NameAndCallIdExact | packages/azure-openai/src/index.ts:1362-1363 | The name is the first non-empty one given, the call id the last one given, or the key if none was. |
| AzureCalls.ParseAssistantMessage | packages/azure-openai/src/index.ts:1162-1229 | The loop over a finished response's output collects the parts of all items in order, or throws at the first whose arguments are not JSON; the response's own text stands in when no item has text, and its id goes last. |
| AzureText.PartsHold | packages/azure-openai/src/index.ts:1162-1215 | The text parts are the non-empty texts of the message items and the data parts the provider items' data, each in order, none lost or changed. |
| AzureText.PartsInOrder | packages/azure-openai/src/index.ts:1165-1215 | The parts of the first items come before those of the later ones, whatever their kinds. |
| AzureText.CallTold | packages/azure-openai/src/index.ts:1175-1208 | A call item's part: its call id, or item id, or name with position; its name; and its parsed arguments, missing ones as an empty object. |
| AzureText.MessageExactly | packages/azure-openai/src/index.ts:1162-1229 | The message of a finished response: its texts are those of the items, or the response's own text when they have none; its data is the items' data and then the response id; its calls are those of the items. |
| AzureText.RunStreams | packages/azure-openai/src/index.ts:1334-1395 | For every event list, the caller is given exactly the text deltas and the provider data that were sent before the end, in order. |
| AzureText.StreamTextEqualsMessage | packages/azure-openai/src/index.ts:1162-1446 | The streamed text is the text of the message if and only if the deltas before the end spell the texts of the message items, and the streamed data is its data if and only if the provider items reported done are those of the output. |
| AzureEnds.KeyExact | packages/azure-openai/src/index.ts:1359-1398 | The key a call is filed under: the item's own id, then the event's item id, then its output index. |
| AzureEnds.HostedExact | packages/azure-openai/src/index.ts:1369-1383 | Each hosted call that was reported done is kept, in order, under its call id, item id, output index or tool name, with its input. |
| AzureEnds.CutShortExact | packages/azure-openai/src/index.ts:1319-1446 | Without a terminal event, the error tells what ended the stream, and says that effects are possible exactly when provider data went out. |
| AzureEnds.TerminalExact | packages/azure-openai/src/index.ts:1231-1446 | The end of every run that has a terminal event: the status, the calls or the first bad one with its error, the finish reason that belongs to the status, and the error of a failed response. |
| AzureMessage.StreamEqualsMessage | packages/azure-openai/src/index.ts:1162-1446 | For events that describe the output of a completed response, the stream succeeds and the parser of the whole response does not throw if and only if every call's arguments are a JSON object in text that is not empty; then both give the same calls, and the sequences agree when no hosted call stands before a function call and, if all calls differ, only then. |
| AzureMessage.MessageExact | packages/azure-openai/src/index.ts:1175-1187 | The parser of a whole response throws if and only if some function call's arguments are not JSON; missing ones count as an empty object. |
| AzureMessage.EmptyArgumentsExample | packages/azure-openai/src/index.ts:1266-1284 | A finished call with empty argument text: the stream releases it with an empty object, the parser throws. |
| AzureMessage.SwappedExample | packages/azure-openai/src/index.ts:1301-1317 | A hosted call in front of a function call in the output: the stream releases the two in the other order. |
| AzureBatch.BufferTellsItem | packages/azure-openai/src/index.ts:1359-1367 | A call whose last event carries the finished item, with no earlier event contradicting it, ends up as that item says, whatever came before. |
| AzureStray.StrayArgumentsExact | packages/azure-openai/src/index.ts:1397-1406 | Arguments that name no item, in a completed run with any events before and after: if no call is filed under the number of calls so far and no later event names one under that key, the run fails; when nothing else is wrong with its calls, it fails only then. |
| AzureStray.StrayArgumentsAfterKeyed | packages/azure-openai/src/index.ts:1397-1406 | Behind events that all carry their keys: a completed run with stray arguments fails when no earlier key is the number of distinct keys so far and no later event names a call under that number. |
| AzureStray.StrayArgumentsExample | packages/azure-openai/src/index.ts:1397-1406 | One call without a key and its arguments without a key: a completed response that fails. |
| AzureStray.AdoptedArgumentsExample | packages/azure-openai/src/index.ts:1357-1406 | The same arguments before a call under output index 0, which adopts them: the run succeeds. |
| AzureBatch.CompletedExact | packages/azure-openai/src/index.ts:1300-1317 | A completed response succeeds if and only if every call it built has an id, a name and a JSON object for arguments. |
| Anthropic.StreamMessage | packages/anthropic/src/index.ts:1695-1806 | The generator's loop yields the outputs of the step-by-step run, or throws where it fails. |
| Anthropic.MapUsage | packages/anthropic/src/index.ts:425-463 | For each counter the sum over the iterations that define it stands for the top-level one; cached, cache-write and output counters are these, input is the sum of the three input counters and missing exactly when all three are, and the total is input plus output. |
| Anthropic.UsageExact | packages/anthropic/src/index.ts:465-481 | For every event list, the usage is none when nothing was reported; otherwise each field is its last defined report and the total is input plus output. |
| AnthropicRuns.RunExact | packages/anthropic/src/index.ts:1695-1806 | For every event list, the stream throws if and only if some event is no JSON or stops a tool whose input is no JSON, and until then gives exactly what the events say, in order: text, provider data, each call when its block stops, and finishes with the last stop reason. |
| AnthropicRuns.FinishUsage | packages/anthropic/src/index.ts:1792-1800 | A finish carries the usage reported until then. |
| AnthropicBatch.StreamEqualsBatchExact | packages/anthropic/src/index.ts:1133-1159 | For any cutting of the blocks into deltas, with blocks in sequence, the streamed text and tool calls are those of the finished message if and only if no text or data block reuses the index of an earlier tool block and no toolset name is empty; the finish carries the last stop reason and usage. |
| AnthropicBatch.ReusedIndexExample | packages/anthropic/src/index.ts:1777-1790 | A tool block and then a text block under the same index: the stream gives the call twice, the finished message once. |
| AnthropicBatch.EmptyToolsetExample | packages/anthropic/src/index.ts:1777-1790 | One tool block whose toolset name is empty: the stream leaves the name out of the call, the finished message keeps it. |
| AnthropicBatch.ToolBody | packages/anthropic/src/index.ts:1752-1757 | Input deltas, however cut, build the input text of their own block and give no text or call. |
| LiveTransport.LiveSocket.PushValue | scripts/lib/openai-live-smoke-transport.ts:14-18 | A value goes to the waiting consumer, or behind the queue, or overflows at 256. |
| LiveTransport.LiveSocket.OnMessage | scripts/lib/openai-live-smoke-transport.ts:19-21 | A message handler's whole new state, with text that is not JSON leaving a failure. |
| LiveTransport.LiveSocket.OnClose | scripts/lib/openai-live-smoke-transport.ts:23 | The close handler's whole new state. |
| LiveTransport.LiveSocket.OnError | scripts/lib/openai-live-smoke-transport.ts:22 | The error handler's whole new state. |
| LiveTransport.LiveSocket.RecvJson | scripts/lib/openai-live-smoke-transport.ts:27-29 | The receive call up to its wait: what it gives the consumer at once, or that it waits. |
| LiveTransport.LiveSocket.RecvResume | scripts/lib/openai-live-smoke-transport.ts:29-32 | The rest of a receive call: the value handed over, or the failure that came meanwhile. |
| LiveTransport.EveryRunIsSound | scripts/lib/openai-live-smoke-transport.ts:10-32 | In any order of steps: a waiting consumer means an empty queue and an open socket, so a close leaves nobody waiting; the queue holds at most 256; an end mark means a close or a failure. |
| LiveTransport.Delivery | scripts/lib/openai-live-smoke-transport.ts:10-32 | In every run the consumer was given a prefix of the messages, without gap or duplicate, and while there is no failure the missing rest is exactly what is still pending. |
| LiveTransport.FailureIsFinal | scripts/lib/openai-live-smoke-transport.ts:27-32 | After a failure nothing more is given; every receive throws. |
| LiveTransport.FailureExact | scripts/lib/openai-live-smoke-transport.ts:14-23 | A link has failed if and only if some step of its run failed: an invalid frame, a value with 256 queued and nobody waiting, a socket error, or the first close with a code other than 1000; its error is that of the last such step. |
| LiveTransport.EndMeansAll | scripts/lib/openai-live-smoke-transport.ts:23-31 | When no message follows the close, a consumer that is given the end mark was given every message. |
| LiveTransport.CloseExact | scripts/lib/openai-live-smoke-transport.ts:10-32 | After any open run without failure, a close lets the consumer pick up every message and then the end mark if and only if its code is 1000 and the consumer waits or fewer than 256 values are queued; otherwise nothing that was pending reaches it and it is thrown the error of the close. |
| LiveTransport.FramesThenClose | scripts/lib/openai-live-smoke-transport.ts:10-32 | At most 256 messages, a clean close, then receives: all messages and the end mark arrive if there were fewer than 256; of 256 messages none arrives. |
| LiveTransport.CloseLoses | scripts/lib/openai-live-smoke-transport.ts:14-32 | After a close with another code, or with 256 values queued and nobody waiting, no continuation gives the consumer any of what was pending. |
| LockSplice.ApplyEdits | scripts/sync-lock-workspaces.ts:51 | Sorting by descending start and splicing one edit at a time equals the simultaneous substitution against the original offsets, for disjoint edits in any order. |
| LockSplice.OrderIrrelevant | scripts/sync-lock-workspaces.ts:36-51 | The simultaneous substitution does not depend on the order of the edits. |
| LockSplice.UntouchedKept | scripts/sync-lock-workspaces.ts:51 | Every character outside the edited ranges comes out, in order. |
| LockSplice.SpliceStep | scripts/sync-lock-workspaces.ts:51 | One splice against the partly rewritten text moves the rewritten part down to the edit's own original start. |
| LockSplice.AssembledExactly | scripts/sync-lock-workspaces.ts:51 | Whatever order the edits came in, the result is the text between them, unchanged, with each value in the place of its own range. |
| Ledger.Order.Apply | scripts/reconciliation/runner.ts:19-29 | The transaction on the stored row: its whole new state and its reply. |
| Ledger.Order.Approve | scripts/reconciliation/runner.ts:82 | The approval sets the approved flag of the row and nothing else. |
| Ledger.RowExact | scripts/reconciliation/runner.ts:19-29 | After any sequence of approvals and attempts, the row is told by counting the history: one effect if any attempt was accepted and none otherwise, version minus effects unchanged, attempts equal unauthorized plus invalid plus accepted. |
| Ledger.AcceptedRepliesAgree | scripts/reconciliation/runner.ts:24-28 | All accepted replies of a history are the same reply. |
| Ledger.ReplyExact | scripts/reconciliation/runner.ts:23-28 | An attempt is accepted if and only if an approval came before it and its arguments name this operation, order and original version, however often it is retried. |
| Ledger.RetryIsIdempotent | scripts/reconciliation/runner.ts:27-28 | Retrying an accepted attempt changes only the attempt count. |
| Evaluator.Evaluate | scripts/reconciliation/evaluator.ts:3-34 | The labels of the broken checks in order, and the verdicts: valid when all checks of the scenario hold, passed when also completed and not blocked, blocked when also blocked; and the tool attempts beyond the first. |
| Evaluator.ValidExact | scripts/reconciliation/evaluator.ts:3-32 | No failure is reported if and only if the run shows the evidence of its scenario: the approval pending before any effect, the first worker killed and a second one giving the result, one run throughout, the right ledger, and the report or stop that belongs to it. |
| Evaluator.VerdictsSound | scripts/reconciliation/evaluator.ts:14-33 | No run is both passed and blocked, and either verdict vouches for the scenario's effect count: none after a denial, exactly one after an approval. |
| Evaluator.OracleExact | scripts/reconciliation/evaluator.ts:14-29 | Over every history of the ledger, the oracle's ledger conditions hold if and only if nothing happened (denial), or no attempt was unauthorized or invalid and at least one was accepted (approval). |

## Left out

- AzureMessage.StreamEqualsMessage: for streams whose events describe the output, that is, whose last event of each call carries the finished item and contradicts no earlier one; a stream that contradicts itself may still agree by accident.
- EventFusion.CutsAreVisible: one family of differing outcomes. Which differences between frames a consumer can see depends on the JSON values; `EventPieces.YieldExact` is exact for the frames.
- Approval.ClientApprovalSession.Settle: asks that the record is not superseded, which every record with a resume under way satisfies (`ApprovalRuns.UsedOnce`); on values `ApprovalStore.Settle` has no such condition.
- LockSplice.ApplyEdits: asks for disjoint, non-empty ranges inside the text, as the ranges of distinct JSON values in one document are; finding those ranges by parsing the lockfile is not part of this model.
- TokenCompare.TokensMatchIsEquality: for strings shorter than 2^32, as every JavaScript string is; `TokenCompare.AgreeExact` covers all lengths.
- Objects: key order, `undefined` fields, negative zero and NaN. Documents are values, so the shared references that let `Object.is` skip equal arrays and objects do not exist; the mapper only diffs clones, where they do not either.
- The clone of the document at the start of a patch, which is the identity on documents.
- Mapper: timestamps, the usage on terminal events, and how tool inputs and outputs are turned into text (they arrive as their texts).
- Approval session: the pauses that publish returns, the scope passed to the resume, and the texts of the resume's errors, which stand as three results: succeeded, failed for good, failed transiently.
- Event streams: decoding bytes, timeouts and cancelling the reader; reading a bounded text body (`readBoundedText`).
- Azure: usage, and how the input of hosted calls is read from an item. The map of mutable call buffers is a sequence of values under distinct keys, so no aliasing between a buffer and the map is modelled.
- AnthropicBatch.StreamEqualsBatchExact: about text and tool calls; the provider data of a stream is told by `AnthropicRuns.RunExact`, since a finished message and its stream cut that data differently.
- Anthropic: the batch form of a block without a type, and the mapping of request messages and system prompts.
- Live transport: opening and terminating the socket; a second concurrent receive.
- Ledger: the event log and the HTTP server in front of the transaction; the sequence of process kills and restarts stands for any list of approvals and attempts.
- Release auditing and version ordering: each case is settled by reading one branch.
- Request validation, capability tables, transports, stores, the agent runtime and the React packages.
