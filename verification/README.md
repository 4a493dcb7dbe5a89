# The approved-write pipeline of the movie assistant, verified

The movie assistant lets a member change their movie collections in conversation: add a film, reorganize a
collection, import a spreadsheet, export one. This project models the path such a change takes, in Dafny,
and proves what the path promises.

- **A turn.** The supervisor sends the message to a node. Five workflows (add, search, organize, import,
  navigate) keep a stage between turns. The language model, the film lookup and the service's reads are
  inputs of a turn: whatever they answer, or fail to, the statements hold. `Conversation` is the state
  machine of all five over runs of messages, decisions and session ends; `Labelled` says what each label does
  when no workflow is going on, and what a reply does to one that is; `ChosenFilm` says which film an
  add is about, `AddChain` what its questions lead to, `ImportWizard` and `ImportTitles` what an import
  asks, `SearchFlow` the search, `PickOption`, `MultiSelect`, `SelectAgain` and `Replies` the readers of
  short replies.
- **A proposal.** `Proposals` builds the reviewable writes; `ImportRows`, `ImportPlan` and `ImportPreview`
  turn sheets into one proposal; `Batches` cuts a long plan, and `PlanRuns` says what of it is executed over
  a conversation in which anything may be said between two decisions.
- **An apply.** `ApplyGate` and `ApplyRun` execute an approved proposal: creates, removes and moves one
  after another, adds and updates in a concurrent pass (`ConcurrentApply`) under a semaphore and an
  arbitrary scheduler. Each write goes through the retrying tool call (`ToolCall`), whose transport can
  lose the reply of a write that took effect, to the service (`MovieStore`), which keeps movies unique by
  collection, title, year and content type.
- **What an approval leaves in the collection.** `AddApplied` follows an approved film to the collection it
  goes to, `CreateThenAdd` one whose collection is made first; `PlanApplied`, `PlanMoves` and `OrganizeApplied`
  follow an organize plan, request by request: removed, changed as asked or moved, exactly when the writes
  reached the service, and nothing else touched.
- **What must hold over a whole run.** No approved move loses its movie (`MoveSafety`, and for whole
  plans `OrganizePlan`); the schedule of independent writes cannot be told from the result
  (`Independence`); importing a file twice is importing it once (`Reimport`, `ImportApplied`,
  `ImportRun`); export and import undo each other (`ExportRows`, `SheetCells`,
  `SheetRoundTrip`); the tool-call limiter (`RateLimiter`) and the event stream (`RunEvents`) keep their
  bounds.

Code that changes objects or runs loops is modelled by classes and methods, each proved against a
specification function about which the lemmas then speak; expressions are functions.

## Where the code does less than one might expect

Each is stated by the exact condition under which the promise holds, and shown on a concrete input or run.

- A request to organize that arrives while an add waits for a pick or a collection does not clear the add,
  so two workflows can wait at once (`Conversation.TurnKeepsExclusive`, `Conversation.TwoWorkflowsWait`).
- Batches of a plan stay queued when a question, a search, a navigation or another add takes the waiting one
  away, and run after the next approval of anything; a refusal, an open breaker or the kill switch drops
  them and leaves the waiting one (`PlanRuns.MessageLeavesThePlan`, `PlanRuns.PlanSurvivesIff`,
  `PlanRuns.StrandedBatchRuns`).
- A tap on an offered film that cannot be read decides the next add, whatever film that one names
  (`ChosenFilm.PickIsLeftOver`, `ChosenFilm.LeftoverPickHidesTheFilm`, `ChosenFilm.AnotherFilmIsAdded`).
- A session that ends between the questions of an add keeps its answers when batches of an earlier plan are
  queued (`Conversation.EventContains`, `PlanRuns.CutOffKeepsAnswers`); the next add asks again, so they reach no proposal
  (`AddChain.ChainBegins`).
- Tapping one of two films with the same title picks the first of them when the tapped year is shared with
  another option (`PickOption.TapPicks`, `PickOption.SameTitleSharedYear`).
- A search result whose label is a control of the search cannot be opened by tapping it
  (`SearchFlow.TapOpensTheResult`, `SearchFlow.TheWebIsAControl`).
- Naming a chosen format again can also choose a format contained in its name
  (`SelectAgain.TapWithRepeats`, `SelectAgain.RepeatsAtTheEnd`, `SelectAgain.RepeatChoosesInnerValue`). The
  doc comment of `resolve_multi_select` promises that a longer value is never shadowed by its substring; that
  holds for the first mention only.
- The gate does not compare source and destination of a move; only the organizer does
  (`MoveSafety.MoveOntoItselfLosesTheMovie`).
- A cell that starts with an apostrophe and a trigger character loses the apostrophe
  (`SheetCells.GuardRestored`, `SheetCells.QuotedFormulaIsChanged`).
- A lost reply to the creation of a collection makes the retry look like a duplicate, and the film that
  should go there is skipped (`CreateThenAdd.FilmFollowsCollection`,
  `CreateThenAdd.LostCreateReplyDropsTheFilm`, `CreateThenAdd.OneLostReplyIsEnough`).
- A write reported as failed may be stored (`ToolCall.FailedMayHaveLanded`); whether it is follows from the
  faults alone (`ToolCall.EffectIsDecided`).
- Uncertain titles in a column understood as the title are imported without being asked about unless some row
  shows them under "Title", or under "title" when that is empty (`ImportTitles.AskedIffShown`,
  `ImportTitles.ShoutedTitlesAreNotAsked`, `ImportTitles.SecondTitleIsNotAsked`).

## Model

| member | source | states |
|---|---|---|
| MovieStore.ServeKeepsUnique | backend/mc-service/src/domain/errors.rs:5-10 | no request, whatever it asks, ever leaves two stored movies with the same collection, title, year and content type |
| MovieStore.ServeTwice | agents/movie-assistant/src/tools/mcp_tools.py:442-474 | executing any request a second time leaves the store as the first execution did: the reason a blind retry is harmless |
| MovieStore.AddLands | agents/movie-assistant/src/runtime_nodes.py:1111-1121 | an add answered with success or 409 leaves a movie with that key in the collection |
| ToolCall.Wire.InvokeTool | agents/movie-assistant/src/tools/mcp_tools.py:442-499 | the loop makes r+1 calls after r retries with r at most the limit, sleeps exactly the sum of the delays, and passes through the stores of the reference run |
| ToolCall.Wire.Send | agents/movie-assistant/src/tools/mcp_tools.py:445 | one call takes effect or not independently of what it reports |
| ToolCall.BackoffTotal | agents/movie-assistant/src/tools/mcp_tools.py:457-458 | the time slept before attempt n is base * (2^n - 1) |
| ToolCall.RetriesExactly | agents/movie-assistant/src/tools/mcp_tools.py:446-474 | the loop ends at the first attempt that is not transient or at the last one allowed, every earlier attempt having been transient |
| ToolCall.RunIsTold | agents/movie-assistant/src/tools/mcp_tools.py:442-499 | over every script of transport failures, status codes, crashes and answers: the loop goes on exactly over attempts that lose the connection or end in a status of 500 or more, and what is reported is what the last attempt came to, by its status |
| ToolCall.ServerErrorIsRetried | agents/movie-assistant/src/tools/mcp_tools.py:462-473 | a first attempt that fails with any status of 500 or more is followed by a second, and an answered second one decides outcome and store |
| ToolCall.RefusalEndsTheLoop | agents/movie-assistant/src/tools/mcp_tools.py:459-474 | a refusal below 500, and a failure without a status, is never retried |
| ToolCall.OnceIsReported | agents/movie-assistant/src/runtime_nodes.py:1105-1128 | a write that can be made once is reported applied if and only if the first attempt that is not fruitless is answered, and as refused when only a later one is |
| ToolCall.RepeatIsReported | agents/movie-assistant/src/runtime_nodes.py:1105-1128 | a write the service does each time it is asked is reported applied if and only if the first attempt that is not retried is answered |
| ToolCall.AtMostOnce | agents/movie-assistant/src/tools/mcp_tools.py:442-474 | however replies are lost, the write took effect once if some attempt reached the service and not at all otherwise |
| ToolCall.EffectIsDecided | agents/movie-assistant/src/tools/mcp_tools.py:442-474 | whether a write takes effect is known from the faults before the first call: if and only if the first attempt that is not a retried failure without effect takes effect within the limit |
| ToolCall.IdleAnswer | agents/movie-assistant/src/tools/mcp_tools.py:442-474 | a write that changes nothing gets its answer if and only if the first attempt that is not retried is answered; otherwise a fault is reported |
| ToolCall.SettledIsTrue | agents/movie-assistant/src/runtime_nodes.py:1111-1125 | applied, duplicate and missing are reported only with the store one clean execution leaves |
| ToolCall.AddedOnce | agents/movie-assistant/src/tools/mcp_tools.py:442-499 | an add leaves at most one copy; reported applied or duplicate it leaves one, and running it again adds none |
| ToolCall.AnsweredRemove | agents/movie-assistant/src/runtime_nodes.py:1111-1125 | a remove reported applied or missing leaves the movie gone from that collection |
| ToolCall.TraceIsBeforeOrAfter | agents/movie-assistant/src/tools/mcp_tools.py:442-474 | every store seen during the retries is the one before the write or the one after it |
| ToolCall.FailedMayHaveLanded | agents/movie-assistant/src/tools/mcp_tools.py:446-458 | the converse fails: a concrete lost reply makes an add that is stored report failure |
| Independence.ServeFrame | agents/movie-assistant/src/nodes/approval_gate.py:178-182 | a write changes nothing that a write on another movie can see |
| Independence.ServeReplyIsLocal | agents/movie-assistant/src/nodes/approval_gate.py:178-182 | the answer to a write depends only on the documents and keys it touches |
| Independence.InvokeProgress | agents/movie-assistant/src/nodes/approval_gate.py:307-330 | a whole retried call of one task moves only that task's private store, however the others stand |
| Independence.ProgressDetermines | agents/movie-assistant/src/nodes/approval_gate.py:300-330 | two stores that agree with the same private stores are equal, so the schedule cannot show |
| Independence.InOrderUpTo | agents/movie-assistant/src/nodes/approval_gate.py:178-186 | running independent writes one by one gives each the result it has alone |
| ConcurrentApply.ApplyConcurrency | agents/movie-assistant/src/nodes/approval_gate.py:112-134 | the semaphore always admits at least one write |
| ConcurrentApply.ConcurrentPass.Run | agents/movie-assistant/src/nodes/approval_gate.py:300-330 | under every schedule of at most the limit in flight the pass ends, finishes every task once, reports ceil(n/25) times with counts 25, 50, ..., n and the right waiting flag, and for independent writes ends in the store and outcomes of running them in proposal order |
| ConcurrentApply.ConcurrentPass.Start | agents/movie-assistant/src/nodes/approval_gate.py:307-309 | a task starts only below the limit and the invariant (at most the limit in flight) is kept |
| ConcurrentApply.ConcurrentPass.Advance | agents/movie-assistant/src/nodes/approval_gate.py:307-317 | every attempt of any task keeps the invariant and brings the pass closer to its end |
| ConcurrentApply.ConcurrentPass.Finish | agents/movie-assistant/src/nodes/approval_gate.py:310-328 | a completion is counted once, and reported exactly on the boundary or at the last one, waiting when a completion since the last report was throttled |
| ConcurrentApply.CountFinish | agents/movie-assistant/src/nodes/approval_gate.py:318-328 | one more completion extends the true reports by exactly the report that is due |
| ConcurrentApply.TrackIndependent | agents/movie-assistant/src/nodes/approval_gate.py:307-330 | an attempt in the middle of the pass leaves every other task's view as it was |
| Proposals.PayloadKeepsAnswersTogether | agents/movie-assistant/src/proposals.py:178-255 | a written document has formats only when owned and qualities only when ripped, and otherwise exactly the answers |
| Proposals.PayloadIsTheFilm | agents/movie-assistant/src/proposals.py:226-229 | under whatever title comparison, the service files an added film under the title, year and kind of the film chosen |
| Proposals.PayloadFields | agents/movie-assistant/src/proposals.py:226-254 | title, year, kind, genres, certificate, plot and language are the film's own, the language English when unknown and the plot null when empty |
| Proposals.PayloadKeepsSource | agents/movie-assistant/src/proposals.py:214-225 | for every source id of the form source:id the film keeps that id, with the database's address exactly for a film found there |
| Proposals.ComposeUnchanged | agents/movie-assistant/src/proposals.py:263-276 | recomposing a read movie without changes gives the stored document without the service's ids |
| Proposals.ComposeChangesOnlyWhatWasAsked | agents/movie-assistant/src/proposals.py:263-291 | field by field, an update changes the requested flags and tags and nothing else |
| Proposals.ComposeKeepsKey | agents/movie-assistant/src/proposals.py:263-291 | so it never changes the title, year or content type the service identifies movies by |
| Proposals.TagsAfter | agents/movie-assistant/src/proposals.py:282-290 | tags change as sets: stored or added, minus removed |
| Proposals.FoundIsOffered | agents/movie-assistant/src/nodes/organizer.py:838-848 | a resolved collection is one of the member's own |
| Proposals.MakeOpIsSafe | agents/movie-assistant/src/nodes/organizer.py:804-862 | every move built goes to another, existing collection and carries a document with the movie's own key; a move is built or its reason is given, never both |
| Proposals.MakeOpIsWhatWasAsked | agents/movie-assistant/src/nodes/organizer.py:804-862 | an operation is a removal if and only if the request says remove, an update, with the document recomposed as asked, if and only if it says update, and a move if and only if it says move and names another collection; a move is refused exactly when there is none or it is the same |
| Proposals.TargetIsNamed | agents/movie-assistant/src/nodes/organizer.py:1252-1279 | a spoken name means the first collection of that name in any case, one to be created when there is none, and the default collection, or a question, when the name says nothing |
| ApplyGate.ScanShape | agents/movie-assistant/src/nodes/approval_gate.py:191-297 | every kept item is either decided during the scan or deferred once, in order, with the request that is its own |
| ApplyGate.ListsPartition | agents/movie-assistant/src/nodes/approval_gate.py:527-536 | every item is in exactly one of applied, skipped, failed and excluded, and once |
| ApplyGate.RecordedStep | agents/movie-assistant/src/nodes/approval_gate.py:333-347 | recording items in proposal order keeps each list in proposal order and the added movie the last applied add |
| ApplyGate.RecordIsTruthful | agents/movie-assistant/src/nodes/approval_gate.py:527-537 | listed as applied, skipped or failed, in proposal order, is exactly what was applied, skipped or failed, and each failure shows its reason |
| ApplyGate.CollectionOfScan | agents/movie-assistant/src/nodes/approval_gate.py:174-204 | after any number of items an add without a collection of its own goes to the collection created last, and to the proposal's own as long as none was created |
| ApplyGate.ExcludedInOrder | agents/movie-assistant/src/nodes/approval_gate.py:192-194 | the excluded list is exactly the items of the unchecked tabs, in proposal order |
| ApplyRun.Applier.Apply | agents/movie-assistant/src/nodes/approval_gate.py:155-347 | a whole apply: every kept item gets one outcome, independent deferred writes end as if run one by one, the report partitions the items in proposal order, and no move whose movie and destination the other items leave alone loses its movie in any store passed through |
| ApplyRun.Applier.Sweep | agents/movie-assistant/src/nodes/approval_gate.py:191-297 | the sequential scan reaches the reference state through the reference stores |
| ApplyRun.Applier.ScanOne | agents/movie-assistant/src/nodes/approval_gate.py:196-297 | one item, every branch: create, add, update, remove, guarded move, missing parts |
| ApplyRun.Applier.RunDeferred | agents/movie-assistant/src/nodes/approval_gate.py:300-330 | the deferred writes, their outcomes filed under their items' positions |
| ApplyRun.Applier.Record | agents/movie-assistant/src/nodes/approval_gate.py:332-347 | the report made of the outcomes |
| ApplyRun.Applier.Execute | agents/movie-assistant/src/runtime_nodes.py:1097-1130 | one tool call and its classification |
| MoveSafety.NoMoveLosesItsMovie | agents/movie-assistant/src/nodes/approval_gate.py:262-297 | in every store an apply passes through, hence wherever it is cut off, a moved movie is in its source or its destination, when no other item names it, takes anything out of its destination or inserts a movie with its id; reported applied it is in the destination and not in the source |
| MoveSafety.MoveOntoItselfLosesTheMovie | agents/movie-assistant/src/nodes/approval_gate.py:273-297 | the gate itself does not compare source and destination: whatever the faults, a move keeps its movie if and only if the two differ, or its add is never answered, or its removal never reaches the service |
| MoveSafety.OwnItemKeepsStage | agents/movie-assistant/src/nodes/approval_gate.py:262-297 | the remove half runs only once the add half has landed |
| OrganizePlan.MovesAreWatched | agents/movie-assistant/src/nodes/organizer.py:804-918 | every move of a plan the organizer builds meets that condition: all its operations act on one collection and every move goes to another |
| OrganizePlan.PlanLosesNoMovie | agents/movie-assistant/src/nodes/approval_gate.py:155-347 | so an apply of a whole plan, under any faults, schedule and cut, keeps every movie it moves in its source or its destination, and a move reported applied is complete |
| OrganizePlan.ServedInsertsAreNew | agents/movie-assistant/src/nodes/approval_gate.py:273-283 | in every store the service has made itself under other keys the inserts of a plan get new ids, as the two members above ask |
| AddApplied.AddIsSent | agents/movie-assistant/src/nodes/approval_gate.py:206-232 | every kept add with a document is sent: to the collection it names, else to the one created last before it, else to the proposal's; without any of them, or without a document, it is skipped |
| AddApplied.AddGoesToTheProposalsCollection | agents/movie-assistant/src/nodes/approval_gate.py:174-176 | with nothing to create before it an add without a collection of its own goes to the proposal's, with its document and key |
| AddApplied.AddIsReported | agents/movie-assistant/src/runtime_nodes.py:1105-1128 | what an add reports and leaves follows from the store and the faults: applied if and only if it is new and answered at once, duplicate or missing if and only if answered otherwise, stored if and only if some attempt reached the service |
| AddApplied.FilmIsAdded | agents/movie-assistant/src/nodes/approval_gate.py:155-347 | an approved add of a film to a collection of the member leaves exactly that film, with the answers given, in that collection if and only if it was not there and some attempt reached the service, and changes nothing else |
| AddApplied.AddFilm | agents/movie-assistant/src/nodes/approval_gate.py:155-347 | the same on the wire under every schedule, with the report: listed as applied, with movie and collection to open, if and only if the call was answered at once |
| PlanApplied.UpdateOfPlan | agents/movie-assistant/src/nodes/approval_gate.py:241-251 | among all items of a plan, an update is stored with its document if and only if some attempt reached the service, the movie is as it was otherwise, and it is reported applied if and only if it was answered |
| PlanApplied.RemovalOfPlan | agents/movie-assistant/src/nodes/approval_gate.py:252-261 | a removal takes its movie out if and only if some attempt reached the service, leaves it as it was otherwise, and is reported applied or missing exactly as its attempts were answered |
| PlanApplied.TasksOfPlan | agents/movie-assistant/src/nodes/approval_gate.py:178-182 | the updates of a plan are independent of each other, so the concurrent pass is as good as one by one |
| PlanApplied.UnnamedIsSpared | agents/movie-assistant/src/nodes/approval_gate.py:191-330 | a movie no item names stays as it is |
| PlanMoves.MoveOfPlan | agents/movie-assistant/src/nodes/approval_gate.py:262-297 | a move of a plan: the movie's key is in the destination if and only if it was or some attempt to add it reached the service, and then with the document it had; it leaves the source if and only if the add was answered and some attempt to remove it reached the service; it is reported applied if and only if both were answered |
| OrganizeApplied.PlanIsDone | agents/movie-assistant/src/nodes/organizer.py:804-918 | from request to store, whatever calls fail: the movie of a remove is gone, the movie of an update has the flags and tags asked for and every other field as stored, the movie of a move is, with its own document, in the collection named, each exactly when its writes reached the service |
| OrganizeApplied.RecomposedAsAsked | agents/movie-assistant/src/proposals.py:263-291 | the recomposed document has the flags asked for, the tags changed as a set, and every other field as stored |
| OrganizeApplied.ServedInsertsDiffer | agents/movie-assistant/src/nodes/approval_gate.py:273-283 | stores the service has made under other keys meet what the members above ask of new ids |
| OrganizeApplied.ItemsHaveTheirOwnKeys | agents/movie-assistant/src/proposals.py:381-435 | no two items of a plan have the same name, so no two of its writes the same idempotency key |
| OrganizeApplied.ApplyPlan | agents/movie-assistant/src/nodes/approval_gate.py:155-347 | the same on the wire under every schedule, for every request of the plan at once, and movies no item names stay as they are |
| CreateThenAdd.CreateIsReported | agents/movie-assistant/src/tools/mcp_tools.py:442-499 | for a free name and id a create is reported applied if and only if its first attempt that is not fruitless is answered, duplicate if and only if a later one is, and the collection exists if and only if some attempt reached the service |
| CreateThenAdd.FilmFollowsCollection | agents/movie-assistant/src/nodes/approval_gate.py:196-239 | a film for a new collection is sent if and only if name and id are free and the first attempt to create it that is not fruitless is answered; otherwise it is filed as skipped |
| CreateThenAdd.LostCreateReplyDropsTheFilm | agents/movie-assistant/src/nodes/approval_gate.py:199-232 | the collection is made and the film not sent if and only if an attempt takes effect unanswered before any is answered; both items are skipped if and only if a later attempt is answered |
| CreateThenAdd.OneLostReplyIsEnough | agents/movie-assistant/src/tools/mcp_tools.py:446-458 | one lost reply and an answered retry is such a case |
| Batches.ChunksAreThePlan | agents/movie-assistant/src/proposals.py:402-411 | batches concatenate back to the plan |
| Batches.ChunksAreFull | agents/movie-assistant/src/proposals.py:402-411 | all batches but the last hold exactly the cap, the last at least one and at most the cap |
| Batches.ChunkCount | agents/movie-assistant/src/proposals.py:402-411 | the number of batches is the plan's length divided by the cap, rounded up |
| Batches.PrefixOfPlan | agents/movie-assistant/src/proposals.py:402-411 | the first k batches are the first k * cap operations |
| PlanRuns.MessageLeavesThePlan | agents/movie-assistant/src/graph.py:154-170 | a message leaves a waiting plan as it is if and only if it does not disturb it: no add that finds its film, question, search, navigation, request to organize or new import that could be read, and with batches queued no refusal, breaker or kill switch |
| PlanRuns.ApprovedPrefixIsExecuted | agents/movie-assistant/src/nodes/approval_gate.py:369-461 | over every run of messages that leave the gate alone, decisions and session ends the executed batches are exactly the longest approved prefix, each once, in order, and the rest waits only while every decision was an approval |
| PlanRuns.PlanSurvivesIff | agents/movie-assistant/src/nodes/approval_gate.py:414-430 | whatever is said while a plan waits, approving it batch by batch then executes all of it and nothing else if and only if no message disturbed it |
| PlanRuns.StrandedBatchRuns | agents/movie-assistant/src/nodes/organizer.py:423-470 | a run: a plan is proposed, a film is added instead, and approving what the gate shows executes the film and the second batch of the plan, whose first batch was never approved |
| PlanRuns.CutOffKeepsAnswers | agents/movie-assistant/src/session_expiry.py:27-52 | a run: the session ends after the first answer of an add while batches of an earlier plan are queued, and collection and answer stay in the state |
| PlanRuns.Thread.Resume | agents/movie-assistant/src/nodes/approval_gate.py:369-461 | an approval executes the waiting proposal and moves to the next; a rejection executes nothing, empties the queue and resets the add |
| PlanRuns.Thread.Sweep | agents/movie-assistant/src/session_expiry.py:40-52 | the end of the session drops what waits, queued batches without a waiting proposal included, and executes nothing |
| PlanRuns.Thread.Conduct | agents/movie-assistant/src/graph.py:602-645 | a whole conversation executes what the reference run executes, and on a gate left alone the longest approved prefix |
| RateLimiter.AgentToolRateLimiter.constructor | agents/movie-assistant/src/tools/agent_rate_limit.py:44-56 | an empty history for every agent and scope |
| RateLimiter.AgentToolRateLimiter.Check | agents/movie-assistant/src/tools/agent_rate_limit.py:61-70 | the pruned bucket is always the full admitted history restricted to the window, and a call is admitted if and only if that is below the cap |
| RateLimiter.AgentToolRateLimiter.Bound | agents/movie-assistant/src/tools/agent_rate_limit.py:61-70 | any half-open interval of the window's length holds at most cap admitted calls |
| RateLimiter.WindowBound | agents/movie-assistant/src/tools/agent_rate_limit.py:61-70 | the bound, for any history in which each admission is a window after the one cap places earlier |
| RateLimiter.AdmissionKeepsSpread | agents/movie-assistant/src/tools/agent_rate_limit.py:66-70 | the check keeps that spacing |
| RateLimiter.RefusedCallsDoNotCount | agents/movie-assistant/src/tools/agent_rate_limit.py:66-70 | a refused call, left out of the sequence, changes no later admission |
| RunEvents.HandleStreamEvents | agents/movie-assistant/src/agui_identity.py:253-285 | a failure before any terminal event yields a start (if none was sent) and exactly one error event; after one, nothing is added |
| RunEvents.Run | agents/movie-assistant/src/agui_identity.py:190-251 | every error event leaving the run is module-built or carries the fixed message and no raw event; an escaping exception becomes the last event unless one was terminal |
| RunEvents.Gateway | agents/movie-assistant/src/agui_identity.py:190-285 | both layers together: nothing unsafe leaves, a failed run ends in exactly one terminal event after a start, a cancelled or finished one passes through |
| RunEvents.FailedStream | agents/movie-assistant/src/agui_identity.py:263-285 | the shape of a failed stream as the client sees it |
| TitleMatch.CaseDoesNotMatter | agents/movie-assistant/src/text_match.py:16-27 | titles that differ only in case have the same comparison key |
| TitleMatch.NonBlankHasKey | agents/movie-assistant/src/text_match.py:16-27 | a title that is not blank never has an empty key, whatever article it starts with |
| TitleMatch.ArticlesDoNotMatter | agents/movie-assistant/src/text_match.py:16-27 | a leading article, in any case, makes no difference to the key of a title without one |
| TitleMatch.ArticleIsDropped | agents/movie-assistant/src/text_match.py:16-27 | exactly one leading article is left out of the key, and the rest of the title in lower case is the key |
| TitleMatch.NothingElseIsDropped | agents/movie-assistant/src/text_match.py:16-27 | a title without a leading article is its own key, in lower case |
| Text.ParseIntText | agents/movie-assistant/src/nodes/import_resolvers.py:240-249 | a printed year or runtime reads back as the same number |
| Text.SplitJoin | agents/movie-assistant/src/nodes/import_resolvers.py:228-232 | a joined list splits into the same parts when no part contains the delimiter |
| ImportRows.BuildRowPayload | agents/movie-assistant/src/nodes/import_resolvers.py:448-486 | the loop over the columns supplies what the columns supply, later ones over earlier ones, with ids and title handled afterwards |
| ImportRows.CoercedIsTyped | agents/movie-assistant/src/nodes/import_resolvers.py:411-430 | a cell supplies a value of its attribute's type and never a blank one |
| ImportRows.SuppliedIsTyped | agents/movie-assistant/src/nodes/import_resolvers.py:448-469 | so does every attribute of a row |
| ImportRows.ResolvedIsRegular | agents/movie-assistant/src/nodes/import_resolvers.py:121-152 | a resolved column keeps its header and is multi-valued exactly for the list attributes |
| ImportRows.RatingColumn | agents/movie-assistant/src/nodes/import_resolvers.py:121-152 | a column that speaks of a rating is imported if and only if all it holds are film certificates, left out if all are numbers, and asked about otherwise |
| ImportRows.TailedIs | agents/movie-assistant/src/nodes/import_resolvers.py:203-225 | for every title with a last comma: an article after it is put in front in its usual spelling, another single word is asked about, and anything longer stays |
| ImportPreview.TrailingArticleSameKey | agents/movie-assistant/src/nodes/import_resolvers.py:203-225 | a title with its article at the end has, once read, the comparison key of the title without it, so it is the stored film |
| ImportPlan.ExistingMovieIndex.constructor | agents/movie-assistant/src/nodes/import_resolvers.py:294-301 | the buckets are the stored movies by usable title, in list order |
| ImportPlan.ExistingMovieIndex.MatchExistingIndexed | agents/movie-assistant/src/nodes/import_resolvers.py:314-328 | the bucketed lookup answers what filtering the whole list would, for every list, title and year |
| ImportPlan.MatchIsTheOnlyOne | agents/movie-assistant/src/nodes/import_resolvers.py:267-277 | a match is the one position of the list that fits; if exactly one fits it is found |
| ImportPlan.NoMatch | agents/movie-assistant/src/nodes/import_resolvers.py:267-277 | nothing fitting means no match, never a guess |
| ImportPlan.MatchIffOnlyOne | agents/movie-assistant/src/nodes/import_resolvers.py:267-277 | a row updates a stored movie if and only if that is the only one with its title and no other year, a year unknown on either side telling nothing apart |
| ImportPlan.ItemIdsDiffer | agents/movie-assistant/src/nodes/import_collection.py:388-402 | rows naming different films are written under different names, so under different idempotency keys |
| ImportPlan.DedupImportRows | agents/movie-assistant/src/nodes/import_resolvers.py:506-525 | first occurrence of a film wins |
| ImportPlan.FirstsAreDistinct | agents/movie-assistant/src/nodes/import_resolvers.py:506-525 | no two kept rows name the same film |
| ImportPlan.FirstsCoverFilms | agents/movie-assistant/src/nodes/import_resolvers.py:506-525 | every film of the rows is kept once |
| ImportPlan.FirstsPartition | agents/movie-assistant/src/nodes/import_resolvers.py:506-525 | kept and repeated rows together are the rows |
| ImportPlan.ApplyCreateDefaults | agents/movie-assistant/src/nodes/import_resolvers.py:489-503 | a create carries the row's own values over the defaults |
| ImportPlan.CreatedDocument | agents/movie-assistant/src/nodes/import_resolvers.py:489-503 | attribute by attribute: a created film is not owned, not ripped and not a children's film unless its row says so, its lists are empty, its other texts null, and it has no further attributes |
| ImportPlan.ComposeImportPayload | agents/movie-assistant/src/nodes/import_resolvers.py:331-348 | an update lays the row's non-blank values over the stored document without its ids |
| ImportPlan.OverlayKeeps | agents/movie-assistant/src/nodes/import_resolvers.py:331-348 | a blank column never blanks a stored attribute |
| ImportPlan.PlanWrites | agents/movie-assistant/src/nodes/import_collection.py:376-403 | rows split into creates and updates, in row order, through the index |
| ImportPlan.CreatesAndUpdates | agents/movie-assistant/src/nodes/import_collection.py:376-403 | every row is one create or one update |
| Reimport.ReimportConverges | agents/movie-assistant/src/nodes/import_collection.py:376-403 | any part of a plan's writes, in any order and with repetitions, then planning again and applying that plan: the same movies as one complete import, and the second plan creates exactly the creates not yet applied |
| Reimport.AppliedReaches | agents/movie-assistant/src/nodes/import_collection.py:376-403 | after any such part each wanted film is as its row makes it if its write was applied and as before if not; all else is untouched |
| Reimport.PlanIsPlanned | agents/movie-assistant/src/nodes/import_collection.py:388-402 | the plan updates the one stored movie of a film and creates the films not stored |
| Reimport.TargetTwice | agents/movie-assistant/src/nodes/import_resolvers.py:331-348 | a row laid over its own result changes nothing |
| Reimport.PutFilm | agents/movie-assistant/src/nodes/import_collection.py:388-402 | a write changes what is stored for its film and for no other |
| Reimport.CaseFoldRefines | agents/movie-assistant/src/text_match.py:25-27 | a service that compares titles without case meets what convergence asks of it |
| ImportApplied.ImportIsIndependent | agents/movie-assistant/src/nodes/approval_gate.py:178-182 | planned writes of an import, however few and in whatever order, never touch each other's movies, so the concurrent pass is as good as one by one |
| ImportApplied.InOrderIsApplied | agents/movie-assistant/src/nodes/approval_gate.py:300-330 | whatever calls fail, with or without effect, the store is the one left by the planned writes that reach the service, which are known from the faults alone |
| ImportApplied.FaultyImportConverges | agents/movie-assistant/src/nodes/import_collection.py:376-403 | an import with writes left out, failed or failed only to report, planned and applied again, ends like one without faults |
| ImportRun.ProposalHoldsThePlan | agents/movie-assistant/src/nodes/import_collection.py:280-373 | the proposal holds one item for each row to be written, creates before updates within a tab, each with the write planned for its row, and no planned write is missing |
| ImportRun.GateCarriesThePlan | agents/movie-assistant/src/nodes/approval_gate.py:191-251 | the gate's scan defers planned writes at places of their own, all of them when no tab is excluded, and writes nothing itself |
| ImportRun.ImportRunIsApplied | agents/movie-assistant/src/nodes/approval_gate.py:155-347 | an import applied by the gate with any tabs excluded and any calls lost: its writes are independent and leave what the planned writes that reach the service leave |
| ImportRun.ImportTwiceIsImportOnce | agents/movie-assistant/src/nodes/import_collection.py:376-403 | however a first import of a file went, reading again, planning the file again and applying that plan undisturbed stores the movies of one undisturbed import |
| ImportRun.RowsNameEachFilmOnce | agents/movie-assistant/src/nodes/import_collection.py:238-243 | a file whose tabs go to different collections meets what convergence asks of its rows |
| ImportRun.Import | agents/movie-assistant/src/runtime_nodes.py:763-815 | preview, proposal and concurrent apply together end in the store of the reference run under every schedule; nothing to import changes nothing |
| ImportPreview.BuildImportPreview | agents/movie-assistant/src/nodes/import_collection.py:192-277 | one plan for each eligible tab in order, ineligible tabs named |
| ImportPreview.SortRows | agents/movie-assistant/src/nodes/import_collection.py:226-243 | rows typed, checked and deduplicated; every row left out is reported with what it lacks |
| ImportPreview.ApplyColumnOverrides | agents/movie-assistant/src/nodes/import_collection.py:419-435 | an answered column takes the answer, the others pass through |
| ImportPreview.RowsAreKept | agents/movie-assistant/src/nodes/import_collection.py:226-243 | planned rows and skipped rows together are the rows of the tab, as multisets |
| ImportPreview.TabGoesToItsNamesake | agents/movie-assistant/src/nodes/import_collection.py:174-189 | a tab goes to a collection without asking if and only if exactly one bears its name; otherwise the member is asked among those that do, or among all |
| ImportPreview.TabAsks | agents/movie-assistant/src/nodes/import_collection.py:206-275 | a tab without a collection plans nothing and offers those the member can choose from |
| ImportPreview.RowsHaveTheirOwnIds | agents/movie-assistant/src/nodes/import_collection.py:309-334 | no two planned rows of a tab are written under the same name |
| ImportPreview.TabIsConserved | agents/movie-assistant/src/nodes/import_collection.py:226-275 | rows = creates + updates + skips; while the collection is unknown nothing is planned |
| ImportPreview.ImportableIsProper | agents/movie-assistant/src/nodes/import_collection.py:230-236 | a row that passes the required-field check has a title, a numeric year and no id field |
| ImportPreview.UniqueRowsAreProperWants | agents/movie-assistant/src/nodes/import_collection.py:238-243 | the planned rows of a tab meet what convergence asks of rows |
| ImportPreview.BuildImportProposals | agents/movie-assistant/src/nodes/import_collection.py:280-373 | one proposal for all targeted tabs with its counts, or none |
| ImportPreview.OneItemPerWrite | agents/movie-assistant/src/nodes/import_collection.py:309-365 | the proposal holds one item for each counted create or update |
| ImportPreview.ItemsNameTheirTab | agents/movie-assistant/src/nodes/import_collection.py:309-334 | every item names the targeted tab and collection it comes from |
| ImportPreview.ItemsCarryThePlan | agents/movie-assistant/src/nodes/import_collection.py:309-334 | an item asks the gate for exactly the write planned for its row |
| ImportPreview.ImportIsDeferred | agents/movie-assistant/src/nodes/approval_gate.py:206-251 | the gate's scan writes nothing of an import and defers every kept item with that request |
| ImportWizard.CollectImportDisambiguations | agents/movie-assistant/src/nodes/import_disambiguation.py:51-103 | the nested loops with their seen sets collect exactly the open questions, collections first, then columns, then titles |
| ImportWizard.AnswerRemovesItsQuestion | agents/movie-assistant/src/nodes/import_disambiguation.py:260-278 | recording an answer leaves the previous list without that question, strictly shorter, and adds none |
| ImportWizard.ConversationIsBounded | agents/movie-assistant/src/runtime_nodes.py:816-889 | over every sequence of replies, answers used plus questions left never exceed the questions at the start |
| ImportWizard.PlanningIsComplete | agents/movie-assistant/src/runtime_nodes.py:816-889 | planning is reached only with every eligible tab given an existing collection, no column half understood and every asked title decided |
| ImportWizard.PreviewAwaitsNothing | agents/movie-assistant/src/nodes/import_collection.py:206-275 | the preview built then awaits no collection and has no medium-confidence column |
| ImportWizard.PickKeepsSound | agents/movie-assistant/src/nodes/import_disambiguation.py:106-131 | a pick is an existing collection, or a movie attribute or the ignore choice |
| ImportWizard.ChosenCollectionIsUsed | agents/movie-assistant/src/nodes/import_disambiguation.py:106-121 | the collection chosen for a tab is where its rows go |
| ImportWizard.ChosenColumnIsUsed | agents/movie-assistant/src/nodes/import_disambiguation.py:123-131 | the attribute chosen for a column is what it supplies, and the last choice leaves the column out |
| ImportWizard.ChosenTitleIsUsed | agents/movie-assistant/src/nodes/import_disambiguation.py:134-155 | the title chosen is the title imported for every row that shows the one asked about |
| ImportWizard.TitleChoices | agents/movie-assistant/src/nodes/import_disambiguation.py:134-170 | an uncertain title is offered as it is and with its last word in front |
| ImportWizard.MissesAreCounted | agents/movie-assistant/src/runtime_nodes.py:816-889 | however many replies in a row are not understood, the question stays and each miss is counted |
| ImportTitles.AskedIffShown | agents/movie-assistant/src/nodes/import_disambiguation.py:88-101 | an uncertain title is among the article questions if and only if some row of an eligible tab shows it under Title, or under title when that is empty |
| ImportTitles.UncertainTitleIsDecidedIffShown | agents/movie-assistant/src/nodes/import_disambiguation.py:88-101 | whatever the member replies, an uncertain title a row's columns supply is decided when planning starts if and only if some row shows it; undecided, it is stored as it stands |
| ImportTitles.ShoutedTitlesAreNotAsked | agents/movie-assistant/src/nodes/import_disambiguation.py:88-101 | a sheet headed TITLE imports that column as the title but is not asked about its uncertain title |
| ImportTitles.SecondTitleIsNotAsked | agents/movie-assistant/src/nodes/import_disambiguation.py:88-101 | with both headers present the later column is imported and the earlier one is looked at, so the uncertain imported title is not asked about |
| PickOption.TapPicks | agents/movie-assistant/src/nodes/supervisor.py:61-118 | a tapped label always picks an option with that title, and the tapped one if and only if its year is plausible and its own, or no earlier option has the title |
| PickOption.TapPicksWhenTitlesDiffer | agents/movie-assistant/src/nodes/supervisor.py:61-118 | with different titles every tap picks what was tapped, whether or not years repeat |
| PickOption.SameTitleSharedYear | agents/movie-assistant/src/nodes/supervisor.py:101-104 | Dune 1984, Dune 2021, Tron 2021: tapping Dune (2021) picks the one from 1984 |
| PickOption.DigitPicks | agents/movie-assistant/src/nodes/supervisor.py:112-118 | a bare digit counts from one, out of range it picks nothing |
| PickOption.OrdinalPicks | agents/movie-assistant/src/nodes/supervisor.py:105-111 | for every reply of plain words that names no option: it means the place its ordinal word counts to, the first listed of several, and nothing when that place is out of range |
| PickOption.YearPicks | agents/movie-assistant/src/nodes/supervisor.py:76-83 | a reply with one year from 1900 to 2100 means the only option from that year, and other numbers of four digits say nothing about the year |
| PickOption.FirstMentionedIsSoonest | agents/movie-assistant/src/nodes/supervisor.py:97-104 | of the titles contained in a reply the longest wins, the earlier of equally long ones |
| ByLength.LongestFirstIsOrdered | agents/movie-assistant/src/nodes/supervisor.py:101 | the sort is by length, longest first, and stable |
| MultiSelect.ResolveMultiSelect | agents/movie-assistant/src/nodes/organizer.py:733-801 | the nested loops compute the reference choice |
| MultiSelect.ChoosePart | agents/movie-assistant/src/nodes/organizer.py:776-793 | one part of a reply adds its exact value, else the first value it contains, else nothing |
| MultiSelect.Closure | agents/movie-assistant/src/nodes/organizer.py:733-801 | for every text only offered values come back, in the offered spelling, none twice |
| MultiSelect.AnySeparator | agents/movie-assistant/src/nodes/organizer.py:720-732 | a comma, a semicolon, a plus, an ampersand, a slash and a bar all separate two values |
| MultiSelect.NothingNamed | agents/movie-assistant/src/nodes/organizer.py:794-801 | a reply naming nothing on offer means nothing was chosen if and only if it says so, and is no answer otherwise |
| SelectAgain.TapRoundTrip | agents/movie-assistant/src/nodes/organizer.py:733-801 | the text of a tap is read back as the choice it was made from, in the same order |
| SelectAgain.TapWithRepeats | agents/movie-assistant/src/nodes/organizer.py:733-801 | a tap naming offered values any number of times is read as those values, each once and in the order of first mention, if and only if, whenever a chosen value is named again while a value inside it is not chosen, that inner value is the one named newly next |
| SelectAgain.RepeatsAtTheEnd | agents/movie-assistant/src/nodes/organizer.py:733-801 | repeats after all choices are harmless if and only if every offered value inside a repeated one is chosen too |
| SelectAgain.RepeatChoosesInnerValue | agents/movie-assistant/src/nodes/organizer.py:733-801 | of Blu-Ray and Blu-Ray 3D, a tap naming Blu-Ray 3D twice is read as Blu-Ray 3D and Blu-Ray |
| ExportRows.MovieToExportRow | agents/movie-assistant/src/nodes/export_collection.py:64-94 | the three loops fill every export column with what the movie holds |
| ExportRows.ColumnsDiffer | agents/movie-assistant/src/nodes/export_collection.py:21-61 | no two export headers agree, even without case |
| SheetCells.GuardRestored | mcp-servers/spreadsheet-mcp/src/builder.py:64-78 | a cell text survives guard and parser if and only if it does not itself start with an apostrophe and a trigger; no guarded cell starts with a trigger |
| SheetCells.QuotedFormulaIsChanged | mcp-servers/spreadsheet-mcp/src/parser.py:157-160 | the text '=1 with its own apostrophe comes back without it |
| SheetCells.BuildTab | mcp-servers/spreadsheet-mcp/src/parser.py:92-128 | the nested loops read a grid into headers, samples and rows, dropping blank rows |
| SheetCells.ReadRow | mcp-servers/spreadsheet-mcp/src/parser.py:108-119 | one row: its cells under their headers, the filled ones sampled up to the limit |
| SheetRoundTrip.SheetIsLossless | agents/movie-assistant/src/nodes/export_collection.py:64-94 | a collection exported, guarded, parsed, its headers understood and its rows typed again gives one row for each movie, in order, holding exactly what the movie held |
| SheetRoundTrip.RowIsLossless | agents/movie-assistant/src/nodes/import_resolvers.py:448-486 | the typed row of an exported movie is its non-empty attributes |
| SheetRoundTrip.AttributeBack | agents/movie-assistant/src/nodes/import_resolvers.py:411-430 | attribute by attribute, the cell gives back the value |
| SheetRoundTrip.LinksBack | agents/movie-assistant/src/nodes/import_resolvers.py:433-445 | the id and URL columns give back the external ids |
| SheetRoundTrip.HeadersAreUnderstood | agents/movie-assistant/src/nodes/import_resolvers.py:121-160 | every exported header is resolved to its own attribute |
| Conversation.TurnKeepsExclusive | agents/movie-assistant/src/graph.py:308-487 | for every message, label or classifier failure and read result a turn leaves at most one of the five workflows waiting, if and only if it is not a request to organize that cuts across an add awaiting a pick or a collection and has to ask back |
| Conversation.TwoWorkflowsWait | agents/movie-assistant/src/graph.py:394-402 | such a run from the first message: an add asks for a collection, and a request to move one of two films with the same title leaves two workflows waiting |
| Conversation.RunKeepsExclusive | agents/movie-assistant/src/graph.py:308-487 | so does every run without such a turn |
| Conversation.DecisionKeepsExclusive | agents/movie-assistant/src/nodes/approval_gate.py:379-461 | and every decision at the gate |
| Conversation.EventContains | agents/movie-assistant/src/session_expiry.py:27-37 | an event leaves nothing of an add behind if and only if it is not a session end that cuts off its questions while batches of an earlier plan are queued |
| Conversation.RunContains | agents/movie-assistant/src/graph.py:154-170 | so in every run without such a session end the answers of an add are held only while its questions are asked |
| Conversation.RunRests | agents/movie-assistant/src/nodes/organizer.py:463-477 | in every run a waiting proposal and a pending question exclude each other, which is why the gate's shorter reset is enough |
| Conversation.RunAnchors | agents/movie-assistant/src/nodes/organizer.py:684-691 | in every run, session ends included, film and collection are known while questions are asked |
| ChosenFilm.PickIsLeftOver | agents/movie-assistant/src/nodes/curator.py:279-304 | a turn leaves a pick behind if and only if it picks an offered film and the message or the film cannot be read |
| ChosenFilm.LeftoverPickHidesTheFilm | agents/movie-assistant/src/nodes/curator.py:193-203 | an add is about the film its message asks for if and only if the message picks it, no pick was left over, or both are the same film |
| ChosenFilm.RunIsAboutTheFilmAsked | agents/movie-assistant/src/nodes/curator.py:135-245 | in every run in which no pick is left behind the film at hand is the one asked for last |
| ChosenFilm.AnotherFilmIsAdded | agents/movie-assistant/src/nodes/curator.py:279-304 | a run from the first message in which it is not: a tap that cannot be read decides the next add, whatever that one names |
| ChosenFilm.TurnKeepsPlaced | agents/movie-assistant/src/graph.py:386-402 | every turn keeps picks to states with films on offer or no add going on |
| Conversation.SuperviseContains | agents/movie-assistant/src/graph.py:404-423 | while a question is pending only the add flow, or a node that clears it, can be reached |
| Conversation.OfferedReplyStays | agents/movie-assistant/src/graph.py:386-485 | a reply that names an offered choice stays in the workflow that offered it, under every label, with the choice and everything on offer kept |
| Conversation.WorkflowIsLeft | agents/movie-assistant/src/graph.py:429-485 | a waiting workflow is given up if and only if the label is one of its escapes and the reply is neither a choice nor its cancel |
| Labelled.FreshSearch | agents/movie-assistant/src/nodes/search.py:519-623 | with no workflow going on a readable search starts for the title it names: outside without a collection, in the collection it is about, or with the question where; an unreadable one changes nothing |
| Labelled.FreshOrganize | agents/movie-assistant/src/nodes/organizer.py:921-1012 | a request to organize puts up the whole plan in batches of fifty, or the question which movie, or nothing; unreadable it changes nothing |
| Labelled.FreshImport | agents/movie-assistant/src/runtime_nodes.py:763-815 | an import puts up its question, its proposal or neither; unreadable it only forgets its questions |
| Labelled.FreshNavigate | agents/movie-assistant/src/nodes/navigator.py:294-381 | a navigation asks which collection is meant or is over at once; unreadable it changes nothing |
| Labelled.FreshEnrich | agents/movie-assistant/src/nodes/curator.py:137-245 | a film asked about is looked up and no add begins |
| Labelled.FreshOthers | agents/movie-assistant/src/graph.py:487-530 | a question about a collection clears what waits, an off-topic message drops the add, and the other labels change nothing |
| Labelled.FilmNamed | agents/movie-assistant/src/nodes/curator.py:137-245 | a message that names a film to add, first or while a film or a collection is asked for: the film found goes on to its collection, several are offered, none ends the add |
| Labelled.FilmPicked | agents/movie-assistant/src/nodes/curator.py:193-203 | an offered film that is picked is looked up and goes on to its collection |
| Labelled.SearchReply | agents/movie-assistant/src/nodes/search.py:530-623 | a reply to a search, under every label, does what it says: the web, another collection, the collection it names, or the result it names |
| Labelled.OrganizeReply | agents/movie-assistant/src/nodes/organizer.py:1062-1122 | the movie picked puts up its plan, and the cancel ends the question |
| Labelled.ImportReply | agents/movie-assistant/src/graph.py:455-475 | an import goes on under every label that is not one of its escapes |
| Labelled.NavigateReply | agents/movie-assistant/src/nodes/navigator.py:294-381 | the collection picked is opened and the question is over |
| Labelled.LeftIsFresh | agents/movie-assistant/src/graph.py:404-487 | a message that gives up a workflow has exactly the effect it has with no workflow going on |
| Labelled.OrganizeCutsAcross | agents/movie-assistant/src/graph.py:386-402 | a request to organize while a film or a collection is asked for has its effect and leaves the add as it is |
| Labelled.UnlabelledTurns | agents/movie-assistant/src/graph.py:308-384 | a switched-off assistant, an open breaker and a failed classifier drop the add and nothing else, and a turn no message started does nothing |
| Replies.ButtonsAnswer | agents/movie-assistant/src/nodes/organizer.py:235-254 | the two buttons of a yes-no question answer it in any case and with white space around them; blank text does not |
| Replies.WordsAnswer | agents/movie-assistant/src/nodes/organizer.py:235-254 | a reply of plain words is a yes or a no exactly by its words for owning and not owning, and no answer with both or neither |
| Conversation.ExitAlwaysExits | agents/movie-assistant/src/graph.py:314-343 | the exit control closes the search, and only the search, under every label, classifier failure, open breaker and read result, with or without a search going on |
| Conversation.TurnKeepsSearchSound | agents/movie-assistant/src/nodes/search.py:519-623 | in every turn a search at rest holds nothing and results are held only while one is to be picked |
| Conversation.QueuedIsThePlan | agents/movie-assistant/src/nodes/organizer.py:865-918 | the waiting batch and the queued ones hold the whole plan in order, one item for each operation, with its own ids and document |
| SearchFlow.StepCarriesTheSearch | agents/movie-assistant/src/nodes/search.py:430-623 | the title asked for is carried unchanged through the whole search, and what is offered was read for that title in the scope shown |
| SearchFlow.TapOpensTheResult | agents/movie-assistant/src/nodes/search.py:560-598 | after any number of replies not understood the tap on an offered result opens a result of that title if and only if its label is not one of the search's controls, and the tapped one itself if and only if its year is its own or no earlier result has its title |
| SearchFlow.TheWebIsAControl | agents/movie-assistant/src/nodes/search.py:560-578 | a film called The Web cannot be opened by its label: the tap searches the web instead |
| AddChain.AnyLabelWillDo | agents/movie-assistant/src/graph.py:404-423 | an answer to the pending question gives the same turn under every classifier label |
| AddChain.TurnFollowsQuiz | agents/movie-assistant/src/nodes/organizer.py:532-636 | a turn of the assistant is one step of a questionnaire that only sees the reply |
| AddChain.ChainCarriesAnswers | agents/movie-assistant/src/nodes/organizer.py:423-636 | over whole conversations, with any labels and any number of replies not understood, at most five answers lead to a proposal, whose item carries exactly the answers given |
| AddChain.ChainBegins | agents/movie-assistant/src/nodes/organizer.py:684-691 | in every run, session ends included, the first question starts from nothing answered, whatever an earlier add left in the state, with film and collection known, and about the film asked for last unless a pick was left behind |
| AddChain.CommandAbandons | agents/movie-assistant/src/graph.py:419-422 | a command that is no answer drops the add and everything answered so far |

## Left out

- ToolCall.Wire.InvokeTool: does not model the checks before the first call (allowlist, per-agent limiter, token exchange), nor auditing and the injection scan of the result; a write that takes effect only after its own timeout, between two later attempts, is not modelled either.
- ToolCall.FailedMayHaveLanded: the suffix with the upstream status that is added to a failure reason is wording and is left out.
- ApplyRun.Applier.Apply: assumes that no call raises an exception other than a transport failure; such an exception ends the run, and what is then true of the store is stated for every store passed through.
- MoveSafety.NoMoveLosesItsMovie: speaks of moves whose movie no other item of the proposal names and whose id no movie inserted by another item gets, with no other item removing, updating or moving a movie of the destination, and of collections that exist.
- OrganizePlan.PlanLosesNoMovie: asks that the operations of the plan name different movies; a plan that names one movie in two operations is executed as the gate's scan says, where the second operation can undo the first.
- OrganizeApplied.PlanIsDone: asks the same, and that the store keeps the service's uniqueness and the ids of inserted movies are new and different; that a plan of moves loses no movie does not need the last.
- AddApplied.FilmIsAdded: is about a collection that exists; a film whose collection is created first is CreateThenAdd.FilmFollowsCollection.
- Labelled.FilmNamed: what is read from a message and found for it is an input, as for every turn.
- OrganizePlan.ServedInsertsAreNew: asks that the service gives different ids for different keys; the ids of the real service do not depend on the key.
- MovieStore.ServeKeepsUnique: the service is reduced to its uniqueness and not-found answers; its other validation answers appear as faults of a call, and how it compares titles is a parameter.
- Reimport.ReimportConverges: asks that stored movies of the target collections have years and are different films, that the rows are different films, that the ids the service hands out are new, and that titles the service calls equal are equal to the planner.
- Text.ParseIntText: digits are ASCII; underscores inside numbers, which Python also accepts, are not.
- TitleMatch.CaseDoesNotMatter: case folding is modelled for the letters A to Z, white space below U+0100.
- SheetRoundTrip.SheetIsLossless: a sheet is a grid of texts; dates, floats and the xlsx and CSV formats are not part of this model. A movie is exportable when its texts are trimmed and not blank, list items contain no delimiter, rating and content type are accepted values, ids are at most one IMDB and one TMDB id in this order, the title has no movable trailing article and no cell text starts with an apostrophe and a trigger.
- ImportPlan.ExistingMovieIndex.MatchExistingIndexed: the text of a title that is a list or a list of ids stands for itself; Python prints its elements.
- ImportWizard.ConversationIsBounded: bounds the answers, not the replies: a reply that resolves nothing keeps the list, and cancelling is always possible; the transient store of the parsed sheet and its expiry are not modelled.
- ImportWizard.PlanningIsComplete: titles are those the source looks at, under the headers "Title" and "title"; what that leaves out is stated in ImportTitles.
- ImportRun.ImportTwiceIsImportOnce: asks what Reimport.ReimportConverges asks, of the whole file; two tabs that bring the same film to one collection are not covered.
- PlanRuns.PlanSurvivesIff: asks that what a message proposes is not the waiting proposal itself.
- SearchFlow.TapOpensTheResult: asks of the results what PickOption.TapPicks asks of options.
- Conversation.React: a decision acts on the waiting proposal; how the graph runtime keeps, repeats or drops an interrupt when other messages come in between is not part of this model.
- Conversation.TurnKeepsExclusive: what a node reads is an input of the turn; how a title or a collection is found in a message, what the organize plan names and what the navigator resolves are covered by letting every result happen. Messages, rendered controls and the query and export nodes' replies carry no stage.
- AddChain.ChainCarriesAnswers: a classifier failure, an open breaker or the kill switch drops the add, as `Conversation.Supervise` says; the statement is about turns without them.
- PickOption.TapPicks: titles without parentheses and without a run of four digits, the tapped one of at least four characters, years up to 9999.
- SelectAgain.TapWithRepeats: offered values are trimmed, not empty, different without case and contain no separator.
- RunEvents.Gateway: an event is its kind and, for errors, its message and raw part.
- Language model calls, prompts, provider selection, HTTP, MCP, Redis, Keycloak, OPA, OpenSearch and tracing: only the outcome of a call is kept.
- LangGraph and AG-UI internals and checkpoint serialisation: a turn is the supervisor, then the routed nodes, then the merged state.
- Account deletion, token cache, circuit breaker arithmetic, PII scanning and the web frontend: they would only add easier members.
