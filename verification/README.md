# Verified models of the backend's protocols, tools and guards

This Dafny project models the parts of the backend in which several functions, or a whole run, have
to agree, and proves what they promise. `dafny verify dfyconfig.toml` checks all of it. It has five
parts:

- **TDLib sessions and profile jobs.** One native event stream is split between the replies to
  queries and the updates that everything else reads (`TdlibClient`, `TdlibDemux`). On top of it,
  waits for the event that confirms a story or an audio message (`ProfileQueries`,
  `ProfileConfirmations`), the sign-in operation (`AuthStates`, `AuthSteps`, `AuthOperation`), and
  the execution of a profile plan (`ProfileExecution`, `ProfileAdapter`, `ProfileInvariants`,
  `ProfileAudio`), with what its steps ask (`ProfileTranscripts`) and how they end
  (`ProfileOutcomes`). Its event trace, or that of the mock, becomes an exit code and a job state
  (`ProfileTrace`, `ProfileMock`).
- **The migration linter.** A visitor that inlines helper functions, cuts recursion with a set of
  active helpers and keeps a table of batch aliases (`MigrationAst`, `MigrationVisitor`), what it
  finds and misses (`MigrationReach`, `MigrationScopes`, `MigrationRoutes`, `MigrationCut`), and the
  verdict (`MigrationVerdict`, `MigrationWitnesses`). `MigrationShapes` says which calls these are about.
- **The safety backfill.** Restartable batches over the accounts of a workspace (`Backfill`), and
  what single, repeated, dry, interleaved and racing runs leave behind (`BackfillRuns`,
  `BackfillRaces`).
- **The structure audit.** The residual-boundary guard, file ownership and the verdicts
  (`StructureAudit`), and writing the reports and checking them for drift (`ReportArtifacts`).
- **Three algorithms:** the most specific route's methods (`RouteMethods`), dropping null variants
  from query parameter schemas (`OpenApiNullability`), and the interpolated percentile with the
  benchmark budgets (`BenchmarkBudget`).

`Json`, `Sequences`, `Strings` and `Wrappers` hold what these share.

Objects that the program updates in place are classes here, and loops are loops: each such method is
proved equal to a function of the old state, and the theorems are about that function. The clock
becomes a number of turns per deadline loop, the native library a sequence of receives, and a raised
exception a result.

## What the proofs found

- `HelperHidesUnsafeDrop`: the alias table of the linter is flat, so a helper that opens a batch under
  the caller's own alias ends that alias. An unsafe `batch_op.drop_column` after such a call is not
  reported.
- `RecursionHidesUnsafeDrop`: for `op.` calls the cut at active helpers loses nothing, for batch calls it
  does. A helper that calls itself inside a batch it opens is not visited again, so what it does under
  the new alias is not reported.
- `RecordExactly` and `VerdictOnScopedCalls`: these are the only two causes. What is in scope is what is
  recorded, lost to a rebinding or cut, each computed from the text. So a report without errors is
  right exactly when nothing unsafe is lost or cut.
- `PlanFileNotReported`: an `add_profile_audio` step that takes its file id from the plan reports the file
  id `None`, not the one it sent. `ReportedFileIsSentFile` says that this happens exactly when the plan
  has no upload before the step.
- `ExitCodeAndState` and `FailedAtOnceExits`: a runtime that fails outside a step exits with 1, while
  the outcomes it reported classify as completed. `AlwaysAgreeExactly` gives the plans for which the two
  always agree.
- `CleanGuardImplies`: a residual boundary without a public surface can never pass the guard, because
  an empty fingerprint counts as missing metadata.
- `RaceMovesDate`: without the workspace lock, which is taken on PostgreSQL only, two runs that plan on
  the same state tell the same gap twice, and the second moves a grace date that the first has set.
  `RaceExactly` says exactly when the events still tell what was done.
- `PreservedExactly`, `SiblingIsRead`, `IdempotentExactly`: folding a variant into a schema can change
  its meaning when a keyword is overwritten, and also when nothing is overwritten but a keyword gains a
  sibling that it reads, as `additionalProperties` gains `properties`. It leaves work for a second pass
  when the variant is itself nullable.
- `ManifestOverwritten`: with `--debt-output docs/architecture/residual-legacy-boundaries.json` the write
  replaces a file that the audit reads. In every repository that has entries and passed the guard before,
  the check right after the write then fails. `WriteThenCheck` gives a guard on the output paths, and the default
  paths meet it (`DefaultsAreSafe`).
- The runbook docs/runbooks/migration-safety.md excuses a `nullable=False` change with an explicit
  backfill plan; the linter knows no such excuse. The model follows the linter.

## Model

| member | source | states |
|---|---|---|
| MigrationVisitor.UpgradeOperationVisitor.VisitNode | backend/tools/migration_lint.py:241-302 | visiting a node appends exactly the operations of `Visit`, leaves its alias table, and restores the active helpers; it ends, by the measure (helpers not active, node) |
| MigrationVisitor.UpgradeOperationVisitor.VisitWith | backend/tools/migration_lint.py:265-277 | a with-statement binds its aliases, visits the body and drops the aliases it added |
| MigrationVisitor.UpgradeOperationVisitor.VisitHelperCall | backend/tools/migration_lint.py:286-302 | a helper is inlined while it is not active, and the set of active helpers comes back as it was |
| MigrationVisitor.UpgradeOperationVisitor.VisitModuleBody | backend/tools/migration_lint.py:235-257 | the whole visit of a module: its top-level functions, the last of a name winning, and every `upgrade` |
| MigrationVisitor.VisitAllAppends | backend/tools/migration_lint.py:254-257 | visiting a list of statements in two parts is visiting it at once |
| MigrationReach.DirectOperationsExact | backend/tools/migration_lint.py:241-302 | an `op.` call is recorded if and only if it lies where the visitor descends, in `upgrade` or in a helper that any chain of helper calls leads to, mutual recursion included |
| MigrationReach.SimpleChainRecorded | backend/tools/migration_lint.py:286-302 | a chain of helpers without repeats is followed to its end from any state that has none of them active |
| MigrationReach.LoopFree | backend/tools/migration_lint.py:293-296 | cutting at active helpers loses nothing: every chain has a sub-chain without repeats to the same end |
| MigrationReach.AllRecordedIsReachable | backend/tools/migration_lint.py:279-302 | nothing is recorded as a direct operation that no chain of calls leads to |
| MigrationScopes.TablesLeft | backend/tools/migration_lint.py:265-302 | a visit leaves the alias table less exactly the aliases that with-statements on the way bind |
| MigrationScopes.TablesSurvive | backend/tools/migration_lint.py:265-277 | what is left is a sub-map of the table before, and all of it if and only if no live alias is bound again on the way |
| MigrationScopes.ModuleAgainstScoped | backend/tools/migration_lint.py:265-313 | against the same inlining with lexically scoped aliases, cut at active helpers alike: the operations recorded and those that `LostModule` finds after a rebinding of their alias make up all of its operations, each as often; and the record is that list, in order, if and only if nothing is lost |
| MigrationScopes.UnshadowedModule | backend/tools/migration_lint.py:265-313 | a guard on the text: where no with-statement is visited with its alias in scope, nothing is lost |
| MigrationRoutes.ScopedExactly | backend/tools/migration_lint.py:265-313 | an operation, batch calls included, is in that reference if and only if a chain of helper calls that carries its aliases and repeats no helper leads to it |
| MigrationRoutes.CutLosesNothing | backend/tools/migration_lint.py:286-302 | a guard on the text that is enough for the cut to lose nothing: no active helper is called under an alias that its own visit did not have |
| MigrationCut.FullExactly | backend/tools/migration_lint.py:286-302 | following calls until a helper would be entered again under the same alias table finds exactly the operations that any chain of calls leads to |
| MigrationCut.CutIsHarmlessExactly | backend/tools/migration_lint.py:293-296 | the cut at active helpers loses nothing if and only if every operation that a cut call leads to, `CutModule`, is met elsewhere by the visit |
| MigrationCut.RecordExactly | backend/tools/migration_lint.py:241-313 | an operation is in scope, for chains of calls of any kind, if and only if it is recorded, or lost to a rebinding, or a cut call leads to it |
| MigrationCut.RecordIsComplete | backend/tools/migration_lint.py:241-313 | every operation in scope is recorded if and only if each that is lost or cut is also recorded elsewhere |
| MigrationRoutes.UnshadowedInScope | backend/tools/migration_lint.py:241-313 | the same with both guards on the text alone |
| MigrationVerdict.LintMigration | backend/tools/migration_lint.py:69-85 | the issues of a module: exactly those that a recorded operation accounts for, an error if and only if it is unsafe and a warning if and only if it is risky, both by the names, arguments, keywords and lines of its call |
| MigrationVerdict.ErrorsAreUnsafe | backend/tools/migration_lint.py:88-138 | there is an error if and only if an operation adds a `Column(...)` or alters a column of a table that is not whitelisted, where the first keyword `nullable` is `False` and there is no `server_default` or the first one is `None`; or drops a column and no line from two before its own to the next holds the safety comment |
| MigrationVerdict.IssuesExactly | backend/tools/migration_lint.py:69-169 | an issue is reported if and only if some operation accounts for it, warnings on the large tables and their online comment included |
| MigrationShapes.OperationShape | backend/tools/migration_lint.py:304-313 | a call is recorded if and only if it is `op.attr(...)`, without a table, or `alias.attr(...)` for an alias in the table, as `op.attr` on what the alias stands for |
| MigrationShapes.BatchShape | backend/tools/migration_lint.py:316-319 | an item opens a batch if and only if it is `op.batch_alter_table("table", ...) as alias` |
| MigrationShapes.BindShape | backend/tools/migration_lint.py:267-273 | of the items that bind an alias the last decides its table |
| MigrationShapes.FunctionsShape | backend/tools/migration_lint.py:248-253 | the functions known are those at the top level of the module, and of one name the last |
| MigrationShapes.UpgradeShape | backend/tools/migration_lint.py:254-257 | the visit starts from the statements of every `upgrade` at the top level, in order, and from nothing else |
| MigrationShapes.InlineShape | backend/tools/migration_lint.py:286-296 | a call `h(...)` is inlined if and only if `h` is known, is not being visited and is neither `upgrade` nor `downgrade` |
| MigrationVerdict.VerdictOnDirectCalls | backend/tools/migration_lint.py:69-138 | errors if and only if some reachable `op.` call is unsafe, or some recorded batch call is |
| MigrationVerdict.VerdictOnScopedCalls | backend/tools/migration_lint.py:69-138 | some chain of calls leads to an unsafe operation if and only if the report has an error, or an operation that was lost to a rebinding or that a cut call leads to is unsafe |
| MigrationWitnesses.HelperHidesUnsafeDrop | backend/tools/migration_lint.py:276-277 | a module with an unsafe drop in scope on which the linter reports nothing, because it is lost to a rebinding of its alias |
| MigrationWitnesses.RecursionHidesUnsafeDrop | backend/tools/migration_lint.py:293-296 | a module without any rebinding, and with an unsafe drop that only a cut call leads to, on which the linter reports nothing |
| MigrationWitnesses.HarmlessRecursion | backend/tools/migration_lint.py:293-296 | a module that calls an active helper under a new alias, and loses nothing by the cut |
| TdlibClient.RealTdJsonClient.Receive | backend/app/adapters/tdlib_json_client.py:44-56 | a receive takes the oldest buffered event, else one from the native stream |
| TdlibClient.RealTdJsonClient.SendQuery | backend/app/adapters/tdlib_json_client.py:58-69 | the deadline loop: the reply with the query's token, with everything else buffered, a timeout, or unreadable text |
| TdlibClient.RealTdJsonClient.Close | backend/app/adapters/tdlib_json_client.py:71-74 | the native handle is destroyed once, however often the client is closed |
| TdlibDemux.RunConserves | backend/app/adapters/tdlib_json_client.py:44-69 | over any calls, what was delivered followed by the buffer is what arrived, in order, less one reply per answered query, and each reply carries the token of a query sent |
| TdlibDemux.FreshReplyNotBuffered | backend/app/adapters/tdlib_json_client.py:58-69 | with a token no earlier event carries, no reply to the query is sitting in the buffer |
| TdlibDemux.QueryExact | backend/app/adapters/tdlib_json_client.py:58-69 | a query is sent once, under its token as `@extra`; the first native receive with unreadable text or an event of that `@extra` ends the wait, with an error or that event, and every other non-empty event before it is buffered in order |
| TdlibDemux.QueryFollows | backend/app/adapters/tdlib_json_client.py:58-69 | a single query, answered or not, loses, repeats and reorders nothing of the stream |
| ProfileQueries.WaitForStoryPostConfirmation | backend/app/adapters/tdlib_profile_story.py:116-152 | the loop reads events until one decides the temporary story, or ends uncertain |
| ProfileQueries.WaitForAudioMessageSendSucceeded | backend/app/adapters/tdlib_profile_audio.py:158-202 | the same for the temporary message, whose timeout is an error |
| ProfileConfirmations.WaitFindsFirst | backend/app/adapters/tdlib_profile_story.py:119-139 | the first decisive event among those buffered and those to come decides a wait that has the turns to reach it |
| ProfileConfirmations.WaitOutcome | backend/app/adapters/tdlib_profile_audio.py:168-202 | a wait ends with the decision of the last event it was delivered, the only decisive one, or without any decisive event |
| ProfileConfirmations.StoryConfirmationNotLost | backend/app/adapters/tdlib_profile_story.py:51-152 | among all that arrived since posting began, even before the reply, the first event that says anything of the story decides: an `updateStoryPostSucceeded` whose `old_story_id` is the temporary id returns the story it carries, an `updateStoryPostFailed` of the story of that id raises its error |
| ProfileConfirmations.StoryUncertainMeansUndecided | backend/app/adapters/tdlib_profile_story.py:140-152 | the uncertain outcome names the story requested, and no event delivered to the wait is such a success or failure |
| ProfileConfirmations.AudioConfirmationNotLost | backend/app/adapters/tdlib_profile_audio.py:100-202 | the same for the message to oneself that carries the audio file, by `updateMessageSendSucceeded` and `updateMessageSendFailed` with its `old_message_id` |
| ProfileConfirmations.UploadIsConfirmed | backend/app/adapters/tdlib_profile_audio.py:126-202 | an upload that succeeds read up to the one `updateMessageSendSucceeded` whose `old_message_id` is that of the message it sent, and reports the chat it was sent to and the message and file which that event carries |
| ProfileConfirmations.WaitRunsOut | backend/app/adapters/tdlib_profile_story.py:116-152 | a wait in whose turns nothing decisive can be read ends with its expiry |
| ProfileConfirmations.SilentUploadTimesOut | backend/app/adapters/tdlib_profile_audio.py:158-202 | if nothing that can be read in the turns of the wait says anything of the message, the upload raises a timeout |
| ProfileTranscripts.StoryIsRequested | backend/app/adapters/tdlib_profile_story.py:51-90 | a story is requested by `getMe`, `createPrivateChat`, `canPostStory` and `postStory`, each answered without an error, with the chat, media, caption, privacy and period of the payload |
| ProfileTranscripts.RequestIsStory | backend/app/adapters/tdlib_profile_story.py:51-90 | and whenever they are answered like that, it is requested under the id of the last reply |
| ProfileTranscripts.OwnIdIsMissing | backend/app/adapters/tdlib_profile_story.py:155-173 | an account without an id ends a story and an audio request with its code |
| ProfileTranscripts.StoryIsNotAllowed | backend/app/adapters/tdlib_profile_story.py:176-188 | a chat that takes no story ends the request with the code of the refusal, and no story is sent |
| ProfileTranscripts.AudioIsRequested | backend/app/adapters/tdlib_profile_audio.py:100-155 | an upload is requested by the queries for the own chat and a `sendMessage` of the file, each answered without an error |
| ProfileTranscripts.RequestIsAudio | backend/app/adapters/tdlib_profile_audio.py:100-155 | and whenever they are answered like that, it is requested under the id of the message |
| ProfileTranscripts.EmptyChannelClears | backend/app/adapters/tdlib_profile_pinned.py:12-36 | a pinned channel reference of white space clears the personal channel |
| ProfileTranscripts.ChannelById | backend/app/adapters/tdlib_profile_pinned.py:12-36 | digits, with dashes before them or not, are the id that is set |
| ProfileTranscripts.ChannelByName | backend/app/adapters/tdlib_profile_pinned.py:38-66 | a name behind `@` is looked up, and set if what is found is a chat with an id |
| ProfileTranscripts.NoChannel | backend/app/adapters/tdlib_profile_pinned.py:12-36 | any other text is an invalid reference, and nothing is asked |
| ProfileOutcomes.StoryStepFollows | backend/app/adapters/tdlib_profile_steps.py:175-192 | once TDLib has accepted a story, the first event that says anything of it makes the step succeed if it was posted, and fail with its error if it was turned down |
| ProfileOutcomes.SilentStoryIsUncertain | backend/app/adapters/tdlib_profile_story.py:32-48 | if nothing that can be read in the turns of the wait says anything of the story, the step ends uncertain |
| ProfileOutcomes.StoryStepEnds | backend/app/adapters/tdlib_profile_execution.py:173-209 | a story step succeeds, ends uncertain or fails as the post returns, times out or raises anything else |
| ProfileOutcomes.PlainStepSucceeds | backend/app/adapters/tdlib_profile_steps.py:23-101 | a step of one query succeeds when the query for its type and payload is answered without an error |
| ProfileOutcomes.PlainStepFails | backend/app/adapters/tdlib_profile_steps.py:329-347 | and fails, the runtime with it, when there is no such query or no such answer |
| ProfileOutcomes.UsernameStepEnds | backend/app/adapters/tdlib_profile_steps.py:104-123 | a name set is looked up again: the step succeeds if it is the editable one or an active one, else it ends uncertain |
| ProfileOutcomes.UploadStepEnds | backend/app/adapters/tdlib_profile_execution.py:211-229 | an upload made succeeds and becomes the audio record; any exception makes the step fail and keeps the record |
| ProfileOutcomes.PinnedStepEnds | backend/app/adapters/tdlib_profile_execution.py:231-237 | a channel set succeeds, and what is no channel fails under its own code |
| ProfileAdapter.RunExecution | backend/app/adapters/tdlib_profile_execution.py:145-171 | the runtime starts if and only if the client is created and, within the turns, the first state to arrive that is no wait for parameters is `authorizationStateReady`, else the trace is the one failure; the trace, and all that the client has sent and read when it is over; its handle is destroyed exactly once, whatever happens |
| ProfileAdapter.StartsExactly | backend/app/adapters/tdlib_auth.py:306-349 | the same of the specification of an execution, for any way its steps run |
| ProfileAdapter.RunSteps | backend/app/adapters/tdlib_profile_execution.py:153-161 | the loop over the steps of a plan, with one client and one audio record: the trace, and the state the client is left in |
| ProfileAdapter.RunStep | backend/app/adapters/tdlib_profile_execution.py:173-209 | the events of one step, the queries it sends and what it leaves in the client and the audio record, whatever it raises |
| ProfileAdapter.ExecuteProfileAudioUpload | backend/app/adapters/tdlib_profile_execution.py:211-229 | an upload that succeeds sets the audio record to its file and message, one that raises leaves it alone |
| ProfileAdapter.PublishStory | backend/app/adapters/tdlib_profile_story.py:51-96 | the queries of a post in turn, then the wait for its confirmation |
| ProfileAdapter.WaitForAuthorizationResult | backend/app/adapters/tdlib_auth.py:306-328 | the loop answers each wait for parameters and ends with the first other state |
| ProfileExecution.ExecutionFollowsGrammar | backend/app/adapters/tdlib_profile_execution.py:145-186 | every trace fails at once, or starts, runs start and success pairs for a prefix of the plan in order, and ends in one failed or uncertain step or none, and the one event that closes or fails the runtime |
| ProfileExecution.StepIsResult | backend/app/adapters/tdlib_profile_steps.py:175-347 | whatever a step does or raises, its result is a success that goes on, or a failure or an uncertain outcome that stops the runtime with the right closing event |
| ProfileInvariants.ExecutionKeeps | backend/app/adapters/tdlib_profile_execution.py:145-171 | what every receive, query and send of the client keeps holds whenever a step of an execution begins, and when the execution is over |
| ProfileInvariants.ExecutionConserves | backend/app/adapters/tdlib_profile_execution.py:145-171 | when an execution is over, what its client was delivered followed by its buffer is what arrived, in order, less one reply per answered query |
| ProfileInvariants.StepsBeginGood | backend/app/adapters/tdlib_profile_execution.py:153-161 | every step of an execution begins in a session for which the results on confirmations hold |
| ProfileAudio.RecordIsLatestUpload | backend/app/adapters/tdlib_profile_execution.py:211-229 | when a step begins, the audio record is that of the latest upload the trace announced: its file, its chat and its message; and there is one if and only if the plan has an upload before the step |
| ProfileAudio.AddStepAddsWanted | backend/app/adapters/tdlib_profile_execution.py:239-287 | an add step sends `addProfileAudio` for the file of the latest upload, else the plan's; once that is answered, exactly the deletion of the message this upload travelled in, if it has one; without a file it fails and sends nothing |
| ProfileAudio.AddUsesLatestUpload | backend/app/adapters/tdlib_profile_steps.py:161-172 | in every run that is so of each add step reached and the latest upload before it in the trace; its events are in the trace and its queries among those the client sent |
| ProfileAudio.ReportedFileIsSentFile | backend/app/adapters/tdlib_profile_steps.py:255-277 | in every run, the file id that a successful add step reports in the trace is the one its query to the client names if and only if the plan has an upload before the step |
| ProfileAudio.PlanFileNotReported | backend/app/adapters/tdlib_profile_steps.py:255-277 | a run that adds file 7 by its plan and reports no file |
| ProfileAudio.ExitCodeOfExecution | backend/app/tdlib_job.py:21-42 | an execution exits with 0 if and only if every plan step succeeded and the runtime closed, and with 3 if and only if it ended uncertain |
| ProfileAudio.CodeAndStateAgree | backend/app/tdlib_job.py:21-42 | exit code and job state of one execution agree if and only if the client gets ready, the plan has its steps and none without a key or a type was reached |
| ProfileAudio.AlwaysAgreeExactly | backend/app/tdlib_job.py:21-42 | they agree however the steps of a plan turn out if and only if every step has a key and a type |
| ProfileTrace.RunJob | backend/app/tdlib_job.py:23-42 | the loop over the events computes the exit code of the trace, or passes on the code of a `SystemExit` |
| ProfileTrace.ExitCodeAndState | backend/app/adapters/tdlib_profile_steps.py:134-145 | exit code and job state of every trace, by how it ends: they agree, but for a plan that breaks off outside a step |
| ProfileTrace.FailedAtOnceExits | backend/app/tdlib_job.py:29-39 | a runtime that fails at once exits with 1 and reports no outcome, which classifies as completed |
| ProfileTrace.ClassifyIsWorst | backend/app/adapters/tdlib_profile_steps.py:134-145 | the three scans amount to the worst single outcome |
| ProfileTrace.ClassifySplits | backend/app/adapters/tdlib_profile_steps.py:134-145 | the state of a job is the worse of the states of its parts, in the order completed, partially completed, manual intervention, failed |
| ProfileMock.RunMock | backend/app/adapters/profile_execution.py:93-184 | the events of the mock, and how its generator ends |
| ProfileMock.MockEndExactly | backend/app/adapters/profile_execution.py:93-184 | the first step that does not simply succeed decides whether the generator dies or breaks off on the plan, by the options and the text of a channel reference |
| ProfileMock.MockRunExactly | backend/app/adapters/profile_execution.py:93-184 | the events are a start and a success for every step before that one, and then what its kind leaves: nothing more, a failure, or the uncertain name |
| ProfileMock.MockFollowsGrammar | backend/app/adapters/profile_execution.py:93-184 | the mock keeps to the grammar of the real adapter if and only if the first step of the plan that does not simply succeed, if any, is neither one it is made to crash at nor a broken one |
| ProfileMock.PlainMockFollowsGrammar | backend/app/adapters/profile_execution.py:93-184 | so it keeps to the grammar where no step crashes and every part of the plan can be read |
| ProfileMock.MockCrash | backend/app/adapters/profile_execution.py:111-112 | a mock made to crash leaves a step started, after completed ones, and no closing event |
| ProfileMock.RunMockJob | backend/app/tdlib_job.py:23-42 | the job of a mock exits with 2 if and only if the mock crashes, ends with the error of a broken plan if and only if it meets one, and else exits with the code of its trace |
| AuthStates.ReadyWasDelivered | backend/app/adapters/tdlib_auth.py:306-349 | `ensure_tdlib_ready` returns only after an event with the state `authorizationStateReady` was delivered |
| AuthStates.ReadyExactly | backend/app/adapters/tdlib_auth.py:306-349 | on a new client it returns if and only if one of the receives within its turns brings that state, and all before it bring no state or a wait for parameters that can be answered |
| AuthStates.SaidIsMapped | backend/app/adapters/tdlib_auth_states.py:75-183 | an event that carries a state of some name is mapped to the status and account state that this name means, for every name of TDLib and every other |
| AuthStates.StatusIsSaid | backend/app/adapters/tdlib_auth_states.py:128-183 | and a wait or the ready status comes from the one name that means it |
| AuthSteps.StateIsAnswered | backend/app/adapters/tdlib_auth.py:164-190 | a state that asks for nothing the operation brought ends it with what the state means, but for parameters, the ready state and the first client that is gone |
| AuthSteps.CredentialIsSent | backend/app/adapters/tdlib_auth.py:227-245 | the state of a wait for a phone number, code or password that the operation brought is answered with that query |
| AuthSteps.ErrorEnds | backend/app/adapters/tdlib_auth_states.py:186-207 | an error ends the operation: a hard stop needs a person, any other is a broken runtime |
| AuthSteps.ReadyInTime | backend/app/adapters/tdlib_auth.py:121-151 | an operation to which only the ready state arrives ends ready if and only if that is within its turns |
| AuthOperation.Operation.Run | backend/app/adapters/tdlib_auth.py:121-151 | the result of a sign-in; at most two clients are created and each is destroyed exactly once however it ends; what it logged is orderly, all that was sent and nothing not delivered; the result was earned: `getMe` after `authorizationStateReady` for a ready one, else the state that the result names |
| AuthOperation.Operation.HandleAuthEvent | backend/app/adapters/tdlib_auth.py:164-190 | what an event makes of an operation, and that the result, if it ends, is earned by the state that the event carries by name |
| AuthOperation.Operation.Recreate | backend/app/adapters/tdlib_auth.py:183-189 | a closed client is destroyed and replaced once, keeping what is known of the proxy; if that fails the operation raises with the old client destroyed |
| AuthOperation.Operation.SendTdlibParameters | backend/app/adapters/tdlib_auth.py:192-203 | the parameters are sent each time, the proxy applier called only until it has returned true |
| AuthOperation.Operation.SendAuthInput | backend/app/adapters/tdlib_auth.py:227-245 | a credential is sent exactly when the state asks for it and the operation brought it |
| AuthOperation.ReceiveClientEvent | backend/app/adapters/tdlib_auth.py:293-303 | events of other clients are dropped, and silence ends the wait |
| AuthOperation.CredentialsOnlyInAnswer | backend/app/adapters/tdlib_auth.py:227-245 | in an orderly operation a phone number, code or password follows at once on the state of that name, reported by the client it is sent to |
| AuthOperation.SecondClientReplaces | backend/app/adapters/tdlib_auth.py:183-189 | a second client is created only right after the first reported that it is closed, closing or logging out |
| AuthOperation.ProxyNotAskedAgain | backend/app/adapters/tdlib_auth.py:192-203 | once the proxy applier has returned true it is not called again, recreated client or not |
| AuthOperation.CountedCreations | backend/app/adapters/tdlib_auth.py:183-189 | an orderly operation creates at most two clients |
| Backfill.Session.Backfill | backend/scripts/backfill_safety_pipeline.py:54-99 | the script on the database: the state and the statistics of the batches in turn, or the error of a bad argument |
| Backfill.Session.ApplyActions | backend/scripts/backfill_safety_pipeline.py:125-165 | the actions that took effect, the rows, values and event they leave, and the event counter |
| Backfill.BackfillStats.CountActions | backend/scripts/backfill_safety_pipeline.py:168-176 | each action counts on its own counter |
| BackfillRuns.AppliesExactly | backend/scripts/backfill_safety_pipeline.py:125-165 | an application leaves every other account and row alone, fills what it inserts with the balanced defaults, sets the origin to `imported` and the grace date thirty days ahead, and tells what it did in one event, or in none if it did nothing |
| BackfillRuns.SingleRun | backend/scripts/backfill_safety_pipeline.py:54-165 | a real run completes its workspace with default rows and dates, changes no existing value and no other workspace, counts every gap once, adds one event per changed account telling its gaps, and commits once per batch |
| BackfillRuns.BatchCountIsCeiling | backend/scripts/backfill_safety_pipeline.py:76-98 | the number of batches is the number of accounts over the batch size, rounded up |
| BackfillRuns.RepeatRunIdle | backend/scripts/backfill_safety_pipeline.py:102-122 | a second run, of any batch size, changes nothing and counts nothing |
| BackfillRuns.DryRunForetells | backend/scripts/backfill_safety_pipeline.py:76-97 | a dry run changes nothing and reports the counters and the accounts seen of a real run from the same state |
| BackfillRuns.InterleavedRuns | backend/scripts/backfill_safety_pipeline.py:76-98 | any interleaving of committed batches of any runs, once one run has finished, leaves the state of a single full run up to ids and times, and one common count of all batches counts every gap of the start once |
| BackfillRaces.StatsAddUp | backend/scripts/backfill_safety_pipeline.py:76-98 | the statistics of the runs, each counting its own batches from nothing, add up to that common count, in every counter |
| BackfillRaces.RunsAddUp | backend/scripts/backfill_safety_pipeline.py:76-98 | so once one run has finished, what the runs report of themselves adds up to the gaps of the start and to one event per account that had one |
| BackfillRuns.OneMoreEvent | backend/scripts/backfill_safety_pipeline.py:145-165 | the event of an account not done yet keeps the events one per changed account, each telling the gaps of the start |
| BackfillRaces.RaceExactly | backend/scripts/backfill_safety_pipeline.py:101-176 | two runs that plan on the same state and then both apply leave the state of one run up to ids and times; the second counts every origin and grace date again and adds one event for each account that lacked one; so the events tell what was done if and only if none lacked an origin or a grace date |
| BackfillRaces.RaceMovesDate | backend/scripts/backfill_safety_pipeline.py:141-165 | two such runs on one account leave two events, and move its grace date |
| StructureAudit.ResidualBoundaryGuard | backend/scripts/structure_audit.py:1348-1415 | exactly the violations there are, each by the entries and the last manifest entry of an owner; none if and only if the manifest describes the residual entries |
| StructureAudit.CleanMeansMatching | backend/scripts/structure_audit.py:1348-1415 | no violation if and only if each residual entry is described, in id, files and public surface, by a complete last manifest entry of its owner, and no manifest entry is left over |
| StructureAudit.ViolationsExactly | backend/scripts/structure_audit.py:1348-1415 | what each kind of violation says of manifest and entries, in both directions |
| StructureAudit.CleanGuardImplies | backend/scripts/structure_audit.py:1356-1384 | a clean guard means that every residual entry has files and a public surface, and that entries with one owner are one boundary |
| StructureAudit.OverlappingFiles | backend/scripts/structure_audit.py:1325-1334 | exactly the paths below backend/app that two entries list, each with all of those entries in order |
| StructureAudit.ClassifiedExactly | backend/scripts/structure_audit.py:1315-1334 | nothing is untracked or overlaps if and only if every file lies below backend/app and is listed, and no path there is listed twice |
| StructureAudit.VerdictsAgree | backend/scripts/structure_audit.py:1578-1730 | the status is red if and only if STRUCTURE-001 is high if and only if STRUCTURE-008 is high, and green means that both are clean |
| StructureAudit.StatusExactly | backend/scripts/structure_audit.py:1578-1601 | red if and only if a file is misclassified, the guard found something, or an open unmanaged entry is high; green if and only if none of that and no open entry of the three categories |
| StructureAudit.FindingsExactly | backend/scripts/structure_audit.py:1604-1730 | both findings are high, medium or informational together, by the open entries themselves |
| StructureAudit.RedExactly | backend/scripts/structure_audit.py:1315-1601 | the status is red if and only if a file does not belong to one entry, the manifest does not match, or an open unmanaged entry is high |
| StructureAudit.HighRiskIsUnmanaged | backend/scripts/structure_audit.py:1426-1446 | the high-risk surfaces are among the unmanaged ones that are counted |
| StructureAudit.NotRedMeansOneOwner | backend/scripts/structure_audit.py:1315-1415 | with a status other than red, each backend/app file belongs to exactly one entry, and the manifest matches the residual entries |
| ReportArtifacts.Repository.WriteReportArtifacts | backend/scripts/structure_audit.py:2641-2655 | the files after a write: missing outputs are created first, then the report is built and its three renderings written |
| ReportArtifacts.Repository.DetectReportDrift | backend/scripts/structure_audit.py:2619-2638 | the outputs that differ from a report rebuilt with the recorded timestamp |
| ReportArtifacts.OutputsDoNotShow | backend/scripts/structure_audit.py:1919-1956 | outputs that are not among the files read show in the report only through their existence |
| ReportArtifacts.ReadExactly | backend/scripts/structure_audit.py:1919-1956 | the files whose text shows in the report: six documents, and the sources of the backend, its architecture tests and the dashboard |
| ReportArtifacts.DefaultsAreSafe | backend/scripts/structure_audit.py:22-27 | the default outputs are separate, and none of them is a file that the audit reads |
| ReportArtifacts.WriteThenCheck | backend/scripts/structure_audit.py:2619-2655 | a check right after a write finds no drift when the outputs are three separate files that the audit does not read; separate they must be, if texts of different kinds can be told apart |
| ReportArtifacts.DefaultWriteThenCheck | backend/scripts/structure_audit.py:23-25 | so with the default outputs the check after a write always passes |
| ReportArtifacts.StableExactly | backend/scripts/structure_audit.py:2619-2655 | of all audits that read these files, and not of this one alone: none fails its check right after a write if and only if no output is among the files read |
| ReportArtifacts.ReadOutputDrifts | backend/scripts/structure_audit.py:2619-2655 | for an audit that does nothing but quote a file it writes, the check after the write fails, and a second write changes files again |
| ReportArtifacts.ManifestAsOutput | backend/scripts/structure_audit.py:2686-2688 | a debt output over the residual-boundary manifest does not meet the guard |
| ReportArtifacts.InventoryViolates | backend/scripts/structure_audit.py:1340-1384 | a debt inventory read as the manifest never passes the residual-boundary guard, whatever its entries are |
| ReportArtifacts.ManifestOverwritten | backend/scripts/structure_audit.py:2619-2655 | for an audit that reports the violations of the manifest it reads, as this one does: with the inventory written over the manifest, the check right after the write fails in every repository that has entries and passed the guard before |
| ReportArtifacts.WriteTwice | backend/scripts/structure_audit.py:2641-2655 | a second write with the same timestamp changes no file, where none of the outputs is read |
| ReportArtifacts.NoDriftMeansUpToDate | backend/scripts/structure_audit.py:2619-2638 | the files that drift are exactly those that writing the report again would change, so nothing drifts if and only if that would change nothing |
| ReportArtifacts.WriteForgetsOutputs | backend/scripts/structure_audit.py:1418-1423 | because missing outputs are created before the build, what is written does not depend on what outputs that are not read held, or whether they were there |
| OpenApiNullability.StripQueryParameterNullability | backend/app/openapi_document.py:70-83 | each schema object is rewritten once for every query parameter that refers to it, parameters of one object or of several alike, and no other object is touched |
| OpenApiNullability.RewriteExactly | backend/app/openapi_document.py:86-98 | the variants other than those of the null type are kept in order; if an object alone is left it replaces `anyOf` and wins over the siblings, else they are the new list, and every other keyword stays |
| OpenApiNullability.SameMeaningBySupports | backend/app/openapi_document.py:86-98 | two schemas mean the same for all values but null if and only if those sets of each, one for every choice of variants, cover those of the other |
| OpenApiNullability.PreservedExactly | backend/app/openapi_document.py:86-98 | the rewrite keeps the meaning of a schema for all values but null, however each keyword is read along with its siblings, if and only if the sets of keywords a value has to satisfy before and after cover each other; it does when no keyword is disturbed or only null is left, and only then for a variant without an `anyOf` of its own |
| OpenApiNullability.NoConflictByKeywords | backend/app/openapi_document.py:94-96 | a fold disturbs no keyword if and only if none is overwritten by another argument, and none of the schema or of the variant gains or loses a sibling it reads |
| OpenApiNullability.MeaningKept | backend/app/openapi_document.py:86-98 | where no keyword is disturbed, a value other than null is accepted after the rewrite if and only if it was before |
| OpenApiNullability.ConflictShows | backend/app/openapi_document.py:94-96 | a disturbed keyword can be read so that the rewrite changes the meaning |
| OpenApiNullability.SiblingIsRead | backend/app/openapi_document.py:94-96 | nothing is overwritten when `additionalProperties` is folded in beside `properties`, and yet a value rejected before is accepted after |
| OpenApiNullability.IdempotentExactly | backend/app/openapi_document.py:86-98 | a second rewrite changes nothing if and only if the variant folded in needs no rewriting itself |
| OpenApiNullability.NestedNotIdempotent | backend/app/openapi_document.py:94-96 | a nullable variant in a nullable schema, which the first rewrite leaves nullable |
| OpenApiNullability.RewrittenOnce | backend/app/openapi_document.py:70-83 | where the rewrite is idempotent, parameters that share a schema come out as if they did not |
| RouteMethods.ParameterRanksBelow | backend/app/main.py:220-224 | a path format with a static segment turned into a parameter ranks below the original, for the formats themselves |
| RouteMethods.RanksExactly | backend/app/main.py:220-224 | one format is less specific than another if and only if, split at "/", it has fewer segments that are neither empty nor begin with "{", or as many of a smaller total length |
| RouteMethods.OnePassIsAnswer | backend/app/main.py:241-252 | one pass finds nothing if and only if no route matches, else the union of the methods of the most specific matches |
| RouteMethods.OrderDoesNotMatter | backend/app/main.py:241-252 | the answer does not depend on the order of the routes, or on repeating some |
| RouteMethods.Application.MethodsForPath | backend/app/main.py:227-252 | the lookup with its cache finds a set if and only if some route matches, and it holds the methods of the matching routes that no matching one outranks; whether the cache was filled or not, and no cached set is changed |
| RouteMethods.Application.LookUp | backend/app/main.py:241-252 | the pass over the cached rows, with a set of its own that it updates in place |
| RouteMethods.Application.GuardMethod | backend/app/main.py:287-301 | a request is turned away if and only if it is no preflight, some route matches, and none of the most specific ones takes its method; the Allow header then lists the methods those take (sections 15.5.6 and 10.2.1 of RFC 9110); the cache is left as it was |
| RouteMethods.DecisionIsUnique | backend/app/main.py:241-301 | the decision does not depend on the order of the routes |
| BenchmarkBudget.PercentileBetween | backend/tools/check_benchmark_budget.py:17-29 | the percentile lies between the least and the greatest sample |
| BenchmarkBudget.PercentileIgnoresOrder | backend/tools/check_benchmark_budget.py:17-29 | it does not depend on the order of the samples |
| BenchmarkBudget.PercentileMonotone | backend/tools/check_benchmark_budget.py:17-29 | it grows with the percentile and with every sample |
| BenchmarkBudget.PercentileInterpolates | backend/tools/check_benchmark_budget.py:23-29 | at k / (n - 1) it is the order statistic k, and in between it is linear |
| BenchmarkBudget.CheckBudget | backend/tools/check_benchmark_budget.py:64-112 | no failures if and only if every budget has a benchmark and each benchmark of a budget has only numbers, at least one, with their 95th percentile within it; and exactly which failures otherwise |
| BenchmarkBudget.CheckReport | backend/tools/check_benchmark_budget.py:10-14 | the same for the three budgets of the script |

## Left out

- Time: deadlines are numbers of turns per loop, taken from the environment, so no claim is about how long anything takes.
- `uuid4`, `utc_now`, `int()` of a text, `str()` of a value and the error codes derived from TDLib's messages (`_profile_tdlib_error_code`, `_can_post_story_error_code`) are functions of the environment; the latter are never read back.
- JSON numbers with a fraction; an event that is no JSON object counts as unreadable text.
- ProfileAdapter.RunExecution: the generator is run to its end and its events are collected, so what happens when the consumer abandons it is not modelled.
- ProfileTrace.RunJob: a `SystemExit` whose code is no integer, and the errors of the plan file.
- The contents of the `setName`, `setBio`, `setUsername`, `setProfilePhoto`, `sendMessage` and `postStory` queries beyond the fields that a property needs, `split_name`, audio titles and the payloads of success events. Of an upload the event announces the file id and, as `temporary_message_id`, the message; the model's event carries the chat as well.
- The spaces and digits of a pinned channel reference are the ASCII ones.
- `inspect_runtime`, `wait_for_tdlib_file_upload_completed` and all log events.
- AuthOperation.Operation.Run: runtime health, recovery markers, hints and messages of a result are not modelled, so a timeout, an exception and missing credentials give the same broken result; what the proxy applier itself sends is not modelled either.
- ProfileMock.RunMock: the payloads of the mock's success events and the context they share.
- Messages and paths of lint issues; `lint_paths`, the git calls and the exit code; Python's recursion limit.
- MigrationVerdict.LintMigration: the table an `op.execute` text mentions is given as a function of the text, because with several large tables in one text it depends on the order of a Python set.
- Backfill.Session.Backfill: errors of the database and roll-back; the actor and the dry-run flag of an event; whether a workspace id is a UUID is an argument.
- BackfillRuns.InterleavedRuns: a batch is one atomic step, as the advisory lock makes it on PostgreSQL; accounts are not added or removed meanwhile. What happens without the lock is stated by `RaceExactly` for two runs and one batch.
- StructureAudit.ResidualBoundaryGuard: the public surface of a set of files is a function of the set; violations are a set rather than a sorted list of messages, and the guard's own table of entries is left out.
- StructureAudit.OverlappingFiles: the ids of a file stay in the order of the entries; the program sorts them.
- StructureAudit.VerdictsAgree: the other findings, and the texts of these two.
- ReportArtifacts.WriteThenCheck: that the JSON text gives back its timestamp is assumed; an empty timestamp, which stands for the present, is not modelled. Paths are normalised ones without links; below the directories the audit reads from, all files with its endings count as read.
- ReportArtifacts.ManifestOverwritten: that the JSON text tells the violations, and that the inventory text parses to its entries with owners but without entry ids and fingerprints, is assumed of the rendering; a manifest that is no JSON stops the build and is not modelled.
- OpenApiNullability.PreservedExactly: how keywords are read is open but for `anyOf`, the null type and which siblings each sees; `unevaluatedProperties` and `unevaluatedItems` see their adjacent keywords, not what is found inside these. For a variant with an `anyOf` of its own the condition is the one on sets of keywords, not the shorter one on the fold.
- OpenApiNullability.StripQueryParameterNullability: the operations of the document are one list of parameters; malformed parameters, which are skipped, are not in it. A schema object that lies inside another one is not modelled as shared.
- RouteMethods.Application.MethodsForPath: what a path regex matches is a predicate, and the order of the Allow header is left out; so are the other middlewares, and what happens to a request that is passed on.
- BenchmarkBudget.CheckBudget: numbers are real numbers, without rounding; reading the report, and finding the group of a benchmark, come before it.
- FastAPI routers, SQLAlchemy models, RQ queues, warmup adapters, settings, the dashboard and the other tools: wiring, declarations or members without a property that spans functions.
