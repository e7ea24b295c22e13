# Transflow: verified models of its contract, protocol and gate logic

This Dafny project models the parts of Transflow where the logic is hardest to see by reading, and proves
what they keep. Check it with `dafny verify dfyconfig.toml`.

| files | what they model |
|---|---|
| `JsonSchema`, `SchemaApartness`, `ContractTypes`, `ContractExamples` | JSON Schema Draft 2020-12 validation, the TypeScript types and the examples that the contract compiler derives from a schema |
| `JsonText`, `LiteralText`, `TypeScriptText`, `ContractFile` | JSON as `json.dumps` writes it, the text of the types, the declaration file, and parsers that recover all three |
| `ScratchpadProtocol`, `ScratchpadSafety`, `ScratchpadDisplay`, `ScratchpadProgress`, `ScratchpadInspector` | one query's lifetime over run, poll, cancel, page, download and unmount |
| `ReceiptServer`, `BuildAcceptance`, `BuildAcceptanceSafety`, `BuildAcceptanceProgress`, `BuildPlanner` | preview and acceptance of a build over a lossy connection, and the coordinator's idempotency receipts |
| `CrateGraph`, `CrateCheck` | the crate dependency gate and its cycle search |
| `PackageNames`, `PackageInventory`, `AdvisoryAudit`, `SafetyPolicy` | the dependency inventory, the advisory query, and the policy gate composed from them |
| `CatalogOverlay`, `OverlayPublication` | the generated class tree of a catalogue and its publication by concurrent writers |
| `Lines`, `Lexing`, `SqlTokens`, `PythonTokens`, `SourceLines`, `DiffColumns` | the source view: lexer, diff and aligned columns |
| `TriggerTree`, `CapturedSource` | schedule trigger editing, and reassembly of a paged source file |
| `Text`, `Characters`, `Results` | string order, character classes and results shared by the others |

Code that computes values is modelled by functions. Code that changes state is modelled by methods and classes
with the source's own fields and loops, each proved against a function or a relation of its inputs and old state.
The two browser protocols are transition systems: an async function is cut at its `await`s into segments, any
pending segment may run next, and the server is part of the state. The classes `Scratchpad` and `Planner` hold the
source's mutable fields, with one method per segment; each method is proved to take the transition system's step,
and the main ones also to keep the invariant and what they exist for.

Assumptions about code outside the model: the server answers a result page with a slice of the query's fixed rows;
the coordinator takes up each request for a build at most once and its replies are well formed; query ids, receipts
and preview tokens are never reused; digests identify what was digested; a rename onto an existing directory fails.

## What was found not to hold

- A map schema that also declares `properties`: `typescript` drops the declared members. The type is sound exactly
  when the declared members' values already fit the index signature, or when the required members admit no object
  at all (`DeclaredMembersOfAMap`); a map of numbers with one declared string is an input on which it is not
  (`MapWithDeclaredMember`).
- `example` on a string node: its text is valid exactly when the node's format, lengths and bounds admit it
  (`StringExampleIsExact`), and on a number node exactly when `minimum` (or 0) is allowed (`NumberExampleIsExact`);
  on any other ready node exactly when that holds of every string and number it visits (`ExampleIsCorrect`).
- `ScratchpadInspector.tsx` lines 201-205 and 357-363 clear `running` without looking at the receipt. A run that
  starts while a poll waits for its first page, or while an earlier run is still pending, can end up with a live
  query that is not owned. A run is safe exactly when neither is the case (`RunGuardIsExact`), and an ordinary late
  cancel acknowledgement leads to the unsafe state (`UnsafeStateIsReachable`). The results about ownership over whole
  runs (`QueryOwnership`, `AcknowledgedOwnership`) assume that every run starts safely.
- Once `running` was cleared that way, a run can start while another still waits for its receipt. The earlier one
  then takes over under the rows of the later one: rows of one query are shown as those of another
  (`MixedRowsAreReachable`), and a download emits them as its complete result (`WrongDownloadIsReachable`). Rows stay
  those of the owned query in all continuations exactly when no run waits for its receipt (`DisplayGuardIsExact`);
  late first pages and late cancels alone never mix rows (`DisplayedRows`).
- A query whose late cancel fails is known to nobody: `ScratchpadInspector.tsx` lines 350-363 stop running it, and the
  next run forgets it (`ForgottenQueryIsReachable`). Everything that was received stays owned, ended, acknowledged or
  asked to stop exactly unless its last cancel fails while no running scratchpad owns it (`TraceIsExact`).
- A cancel before the receipt is undone when the reply to an earlier cancel fails: `ScratchpadInspector.tsx` line 384
  clears `cancelRequested` without looking at the query that was cancelled. A cancel is kept exactly if the run has its
  query already or no earlier cancel is unanswered (`CancelIsKeptIff`); a query that ends before the reply to its
  cancel, and another run, lead to the other case (`RevivableCancelIsReachable`).
- `BuildPlanner.tsx` lines 121-148 can leave a review that previews no more and offers no retry, only Cancel: when the
  workspace cannot be refreshed after a conflict, and when the selection changes and changes back before the retry
  (`StrandedByRefresh`, `StrandedByReturn`). No other step leads there (`StrandingIsExact`).
- `BuildPlanner.tsx` lines 206-214 take `conflict` and `expired` for a definite refusal, also in reply to a retry. The
  coordinator answers `conflict` while the first request still runs (`crates/transflow/src/api.rs` lines 188-191), and
  `expired` at any time, so the refused draft can have a build, or get one, and be built again under another receipt
  (`ForgottenBuildIsReachable`). That is so exactly when a build exists, an operation of the receipt still runs,
  or the receipt is new and another request of it is on its way (`OpenIsExact`). After the only submission of a draft it
  is so only if the operation failed after it had created the build, as `accept_inner` can when it closes its store
  (`RefusalIsExact`, `RefusedBuildIsReachable`). Without such a reply nothing is forgotten (`NoOutcomeIsLost`).
- A refused draft can be offered again under its receipt: the next preview clears `rejected` (line 103), and a change of
  selection and back aborts that preview (`RefusedDraftReturns`).
- `BuildPlanner.tsx` lines 231 and 409 disable the button of an acceptance whose outcome is unknown as soon as the
  plan is stale or expired, although `accept` itself (lines 184-190) and the message beside it allow that retry; line
  394 disables Cancel too. An unknown outcome can be retried exactly while the draft is neither stale nor expired
  (`RetryIsExact`). The selection may return to that of the draft, but after the expiry no sequence of events
  enables the button again (`UnknownIsRetryableIffUnexpired`), and a lost reply with the clock moving on leads there
  (`ExpiredUnknownIsReachable`).
- `conflictRetries` does not bound the automatic retries of one key, because a preview that succeeds resets it
  (line 118); between two resets there are at most three (`ConflictRetriesAreBounded`).
- The advisory query accepts any nonempty identifier, the gate only `[A-Za-z0-9_.-]+`; a complete and fresh report
  is accepted exactly when its identifiers are of the second kind (`QueryReportIsAccepted`).
- The Python pattern of `SourceLines.tsx` line 22 ends a triple-quoted string at the first three quotes, also behind a
  backslash. It ends a string where Python does exactly if it is one of a single line, or those quotes are not
  protected, or the text ends there (`StringEndIsExact`, `ProtectedQuotesEndEarly`).
- Below the root, choosing a dataset condition without any dataset makes a `manual` condition, which is only allowed
  alone; an edit keeps the trigger tree well formed exactly when it is not that one (`EditKeepsWellFormed`).
- A capture marked complete is not the file if that ends with a newline or has a CR LF: the server pages
  `str::lines`, which drops both (`CompleteIsFileIffPlain`, `FinalNewlineIsLost`).
- A paged capture whose text ends one code unit below the limit gets a newline that is not followed by its line, and
  no other stopped capture does (`StoppedIsJoinIffClear`, `NewlineAtTheLimit`).
- A small file is captured exactly if each of its pages of 200 lines is at most 64 KiB; otherwise reading it fails
  (`SmallFileIsCapturedIffPagesFit`).

## Model

| member | source | states |
|---|---|---|
| JsonSchema.VerdictsPersist | schemas/README.md:154 | acceptance and rejection are verdicts: allowing more nested references never takes one back |
| JsonSchema.VerdictsExclude | schemas/README.md:154 | no value is both accepted and rejected by a schema |
| ContractTypes.AcceptedIsShaped | tools/contracts/generate.py:8-36 | an accepted value meets every constraint of the schema that a TypeScript type can express |
| ContractTypes.ShapeAgreesWithType | tools/contracts/generate.py:8-36 | the emitted type contains every value of the schema's shape, and on plain schemas no others, through recursive references |
| ContractTypes.TranslatesIff | tools/contracts/generate.py:8-36 | a node is given a type if and only if its keywords say that it has one: a reference, alternatives that all have one, a constant, an enumeration, or one of the seven kinds whose items, members or index schema have one |
| ContractTypes.TranslationIsSound | tools/contracts/generate.py:8-36 | every value valid under a node that has a type by its keywords inhabits the type emitted for it, each `$ref` read as the alias of its definition |
| ContractTypes.TranslationIsExact | tools/contracts/generate.py:8-36 | on plain schemas that have a type by their keywords a value inhabits the emitted type if and only if it has the schema's shape |
| ContractTypes.DeclaredMembersOfAMap | tools/contracts/generate.py:25-27 | for a map with declared and required members, every valid value inhabits the emitted type if and only if some required member can have no valid value, or the valid values of the declared members all inhabit the index signature |
| ContractTypes.MapWithDeclaredMember | tools/contracts/generate.py:25-27 | a valid map value that does not inhabit the emitted type |
| TypeScript.MembershipPersists | tools/contracts/generate.py:8-36 | unfolding more aliases never takes a member of a type away |
| ContractTypes.TranslateFields | tools/contracts/generate.py:28-32 | one member per property in order, optional exactly when the key is not required |
| ContractExamples.StringExampleIsExact | tools/contracts/generate.py:59-62 | the synthesised string validates if and only if format, length and bounds admit it |
| ContractExamples.NumberExampleIsExact | tools/contracts/generate.py:63 | the synthesised number validates if and only if the bounds admit it |
| SchemaApartness.OtherKindsAreRejected | tools/contracts/generate.py:52-53 | a value of a kind the schema does not list is rejected, whatever its nested references say |
| SchemaApartness.OtherConstantsAreRejected | tools/contracts/generate.py:13-16 | a value that is none of a node's constants, given by `const`, `enum` or behind references, is rejected |
| SchemaApartness.OtherTagsAreRejected | tools/contracts/generate.py:52-53 | an object whose tag is not among the schema's tags is rejected |
| SchemaApartness.WithoutRequiredKeyIsRejected | tools/contracts/generate.py:52-53 | an object without a key that every branch requires is rejected |
| SchemaApartness.WithForbiddenKeyIsRejected | tools/contracts/generate.py:52-53 | an object with a key that a closed schema does not declare is rejected |
| SchemaApartness.ApartSchemasExclude | tools/contracts/generate.py:52-53 | branches told apart by kind, by a tag, or by a key that one requires and the other forbids are exclusive: what one accepts the other rejects |
| ContractExamples.ExampleIsAccepted | tools/contracts/generate.py:45-63 | whatever `example` returns for a ready node whose leaves are ready, with ready definitions within reach of what it must look up, validates against that node |
| ContractExamples.RankedExampleTerminates | tools/contracts/generate.py:45-63 | when the forced references can be ranked, a bounded number of nested look-ups suffices |
| ContractExamples.ReadyExampleNeverFails | tools/contracts/generate.py:45-63 | on ready nodes `example` never meets a missing key, an empty list or an unsupported type |
| ContractExamples.ReturningUsesReferences | tools/contracts/generate.py:45-63 | an example that is returned needed an example of every definition it is forced to reference, with a smaller budget |
| ContractExamples.ExamplesTerminateIffRanked | tools/contracts/generate.py:45-63 | every definition of a set that is ready and closed under forced look-ups has an example if and only if those look-ups admit a rank |
| ContractExamples.OtherBranchRejects | tools/contracts/generate.py:52-53 | the example of a first branch is rejected by every branch apart from it, whether or not the first accepts it |
| ContractExamples.AcceptedHasReadyLeaves | tools/contracts/generate.py:45-63 | an example that is accepted visited only strings and numbers that are ready |
| ContractExamples.ExampleIsCorrect | tools/contracts/generate.py:45-63 | with a rank, `example` returns, and its result validates if and only if every string and number it visits leaves room for the value chosen |
| JsonText.ReadsQuoted | tools/contracts/generate.py:14-16 | a dumped string is read back exactly, for every character including escapes and surrogate pairs |
| JsonText.ReadsInteger | tools/contracts/generate.py:14-16 | a dumped integer is read back exactly |
| LiteralText.ReadsJson | tools/contracts/generate.py:14-16 | any dumped JSON value without fractions, lists and objects included, is read back exactly, in whatever order its keys were written |
| TypeScriptText.TextIsPrintedType | tools/contracts/generate.py:8-36 | the text built from a node is the printed form of the type the node translates to, and both fail exactly on the nodes that have no type by their keywords |
| TypeScriptText.ParsesPrinted | tools/contracts/generate.py:8-36 | a parser for the emitted grammar recovers the printed type at every nesting depth, whatever follows it, with `null` literals read as the null type |
| TypeScriptText.NormalHasSameMembers | tools/contracts/generate.py:13-21 | reading `null` literals as the null type changes the members of no type |
| TypeScriptText.PrintIsInjective | tools/contracts/generate.py:8-36 | two types have the same text if and only if they differ at most in that reading of `null` |
| ContractFile.Emit | tools/contracts/generate.py:127-130 | writes the file of all declarations, in order, if and only if every definition has a type by its keywords, and otherwise nothing |
| ContractFile.FileParses | tools/contracts/generate.py:127-130 | reading the written file gives back every declaration with its type, in order, up to the reading of `null` |
| ContractFile.FileDeclaresDefinitions | tools/contracts/generate.py:127-130 | the aliases read from the file are exactly the translations of the schema's definitions, up to the reading of `null` |
| ContractFile.EmittedFileIsSound | tools/contracts/generate.py:127-130 | a value valid under a definition inhabits the alias of that name as the written file declares it |
| ScratchpadSafety.StepKeeps | web/src/ScratchpadInspector.tsx:113-488 | every segment of every async function keeps the ownership and display invariant, in any interleaving of safe runs |
| ScratchpadSafety.QueryOwnership | web/src/ScratchpadInspector.tsx:164-389 | in every reachable state at most one query is live and it is the owned, running one; after unmount none is, and once runs have drained every created query was ended, cancelled or never receipted |
| ScratchpadDisplay.StepTidy | web/src/ScratchpadInspector.tsx:113-488 | every segment keeps the rows shown, in hand and emitted those of the query they are taken for, with runs, late pages and late cancels in any interleaving, if runs start while none waits for its receipt |
| ScratchpadDisplay.DisplayedRows | web/src/ScratchpadInspector.tsx:140-488 | in every state such runs reach, rows on display are a prefix of at most 1,000 rows of one query's fixed result, of the owned one unless marked previous; every emitted download is a complete result |
| ScratchpadDisplay.WaitingRunMixesRows | web/src/ScratchpadInspector.tsx:347-356 | from any state in which a run waits, another start has a continuation in which rows of one query are shown as those of another |
| ScratchpadDisplay.DisplayGuardIsExact | web/src/ScratchpadInspector.tsx:191-239 | a new run keeps rows on display those of the owned query in all continuations if and only if no run waits for its receipt |
| ScratchpadDisplay.WaitingStateIsReachable | web/src/ScratchpadInspector.tsx:201-205 | starts while none waits lead to a state in which a run waits and another can start |
| ScratchpadDisplay.MixedRowsAreReachable | web/src/ScratchpadInspector.tsx:347-356 | a run that shows rows of one query, not marked previous, while another is owned |
| ScratchpadDisplay.WrongDownloadIsReachable | web/src/ScratchpadInspector.tsx:424-462 | a run that downloads rows of one query as the complete result of another |
| ScratchpadSafety.TraceIsExact | web/src/ScratchpadInspector.tsx:350-388 | a received query that has not ended and has no acknowledged cancel stays owned or asked to stop at a step if and only if that step is not the failure of its last cancel while no running scratchpad owns it |
| ScratchpadSafety.AcknowledgedOwnership | web/src/ScratchpadInspector.tsx:125-137 | over any run of safe starts without such a failure; and after unmount, once nothing is under way, every received query ended or its cancel was acknowledged |
| ScratchpadSafety.ForgottenQueryIsReachable | web/src/ScratchpadInspector.tsx:350-363 | runs that all started safely lead to a query that neither ended nor is referred to by anything |
| ScratchpadSafety.DownloadsAreBounded | web/src/ScratchpadInspector.tsx:445-455 | over any run, whatever pages the server sends, the pages fetched for downloads are at most 1,000 for each download started |
| ScratchpadSafety.UnsafeRunLosesItsQuery | web/src/ScratchpadInspector.tsx:201-205 | from any state in which a run is unsafe some interleaving leaves its live query unowned |
| ScratchpadSafety.RunGuardIsExact | web/src/ScratchpadInspector.tsx:229-239 | a new run keeps its query owned in all continuations if and only if no run is pending and no poll waits for its first page |
| ScratchpadSafety.UnsafeStateIsReachable | web/src/ScratchpadInspector.tsx:348-356 | runs that all started safely lead to a state in which the next run is unsafe |
| ScratchpadProgress.QueryIsServed | web/src/ScratchpadInspector.tsx:164-356 | in any state with the invariant, a run that starts safely and is served shows the first 500 rows of its own query, current and without error, and then can be run again, downloaded, and continued exactly if there are more rows |
| ScratchpadProgress.FailedPageIsRetried | web/src/ScratchpadInspector.tsx:209-218 | after a first page that failed, Retry status leads to the same rows |
| ScratchpadProgress.MoreShowsNextRows | web/src/ScratchpadInspector.tsx:390-423 | the page the server answers `more` with is shown after the rows on display, and further rows offered exactly if there are any, if and only if it stays below 1,000 rows or ends the result there; otherwise the failure is shown |
| ScratchpadProgress.DownloadIsCompleted | web/src/ScratchpadInspector.tsx:424-462 | a download that the server answers page by page emits the complete result of at most 1,000 rows |
| ScratchpadProgress.DownloadIsExact | web/src/ScratchpadInspector.tsx:424-462 | some pages of an honest server make a download emit something if and only if the result has at most 1,000 rows and is on display whole or announced to go on |
| ScratchpadProgress.BusyIsAttended | web/src/ScratchpadInspector.tsx:164-388 | in every state that safe runs reach, a busy scratchpad has something under way: a run without a query yet, the first page of an ended query, a late cancel, a poll or timer for the owned query, or the offered retry |
| ScratchpadProgress.ErrorsAreShown | web/src/ScratchpadInspector.tsx:182-483 | an error is on display after a step if and only if the step is a failure that concerns the mounted scratchpad, or it was there and the step neither starts something anew nor brings news of the owned query |
| ScratchpadProgress.PreviousRowsStay | web/src/ScratchpadInspector.tsx:239-260 | rows found by a run with other criteria stay on display, marked as previous, until a page arrives or another run starts; any other run clears them |
| ScratchpadProgress.CancelIsKeptIff | web/src/ScratchpadInspector.tsx:366-388 | after a cancel no query is live in any continuation before the next run, if and only if the run has its query already or no earlier cancel is unanswered |
| ScratchpadProgress.RevivableCancelIsReachable | web/src/ScratchpadInspector.tsx:376-388 | safe runs lead to a state in which a cancel can be undone |
| ScratchpadProgress.ClosedIffUnmounted | web/src/ScratchpadInspector.tsx:125-137 | after any run the scratchpad is closed if and only if it was unmounted |
| ScratchpadInspector.Scratchpad.StatusReply | web/src/ScratchpadInspector.tsx:182-208 | keeps the invariant; once the owned query is seen to have ended no query is live |
| ScratchpadInspector.Scratchpad.FirstPageReply | web/src/ScratchpadInspector.tsx:191-205 | keeps the invariant; a matching page shown while mounted is the start of the owned query's result, and no query is live any more |
| ScratchpadInspector.Scratchpad.Run | web/src/ScratchpadInspector.tsx:229-261 | leaves no query live; keeps the invariant if no run is pending and no poll waits for its first page |
| ScratchpadInspector.Scratchpad.Prepared | web/src/ScratchpadInspector.tsx:323-329 | keeps the invariant; a closed or cancelled run ends before it submits anything, and nothing is left pending |
| ScratchpadInspector.Scratchpad.Receipt | web/src/ScratchpadInspector.tsx:347-356 | keeps the invariant; the received query is owned, and after unmount or cancel the server is asked to stop it, otherwise it is the live one |
| ScratchpadInspector.Scratchpad.Cancel | web/src/ScratchpadInspector.tsx:366-377 | keeps the invariant; the run is asked to stop and no query is live afterwards |
| ScratchpadInspector.Scratchpad.Unmount | web/src/ScratchpadInspector.tsx:125-137 | keeps the invariant; no query is live afterwards |
| ScratchpadInspector.Scratchpad.MorePage | web/src/ScratchpadInspector.tsx:407-423 | keeps the invariant; a page that matches, of the query still owned, with room for all rows, is shown after the rows in hand with its own next offset, as the first rows of the owned query's result; any other page leaves the rows shown as they were |
| ScratchpadInspector.Scratchpad.Download | web/src/ScratchpadInspector.tsx:425-481 | keeps the invariant; emits the complete result of the owned query exactly if all of it is on display, and otherwise nothing |
| ScratchpadInspector.Scratchpad.DownloadPage | web/src/ScratchpadInspector.tsx:446-481 | the same for every further page: with it the rows in hand are the complete result, or nothing is emitted |
| ScratchpadInspector.Scratchpad.Happen | web/src/ScratchpadInspector.tsx:113-488 | whatever happens next, the object takes the transition system's step; it keeps the ownership invariant, and that a busy scratchpad is attended to, if runs start safely, and the invariant of the rows on display if they start while none waits |
| ReceiptServer.ActKeeps | crates/transflow/src/api.rs:384-420 | every step of the coordinator keeps one build per receipt, on the plan asked for, and its records true of what was built |
| ReceiptServer.ActsKeepClosed | crates/tf-store/src/api.rs:20-72 | once a receipt has no build and no undecided request, no step of the coordinator gives it one |
| ReceiptServer.FailedIsDecided | crates/transflow/src/api.rs:400-419 | a receipt frozen as an error gets no build any more, and has one exactly if it was created before |
| BuildAcceptanceSafety.StepKeeps | web/src/BuildPlanner.tsx:60-238 | every handler, continuation and step of the coordinator keeps the draft, submission and build invariant |
| BuildAcceptanceSafety.ExactlyOnce | web/src/BuildPlanner.tsx:183-221 | each draft has at most one build, on its reviewed plan; all its submissions carry one plan, which builds something, and none is made while the draft is stale, expired or rejected; once a build was confirmed an acceptance is displayed, and names the one build of a confirmed draft |
| BuildAcceptanceSafety.UnknownOutcomeIsKept | web/src/BuildPlanner.tsx:206-217 | a draft in hand that has or can still get an unseen build stays there at a step if and only if that step is neither its confirmation nor a refusal, and after a refusal it still can have one |
| BuildAcceptanceSafety.StepKeepsInHand | web/src/BuildPlanner.tsx:183-221 | while mounted, whatever has or can still get an unseen build stays in hand at a step if and only if that step is not a refusal of a draft that has or can still get one |
| BuildAcceptanceSafety.NoOutcomeIsLost | web/src/BuildPlanner.tsx:183-221 | over any run without such a refusal, every draft that has or can still get a build was confirmed or is in hand |
| BuildAcceptanceSafety.OpenIsExact | crates/transflow/src/api.rs:184-192 | some continuation without another submission builds a draft if and only if its receipt has a build, a running operation, or is new with a request on its way |
| BuildAcceptanceSafety.RefusalIsExact | web/src/BuildPlanner.tsx:206-214 | a refused draft has or can still get a build if and only if its receipt is open; with an error frozen, that means a build created before it; otherwise the refused request was a retry, which is the exact condition unless a request was turned away or an operation stopped; the planner's flag tells a retry unless the draft was refused before |
| BuildAcceptanceSafety.ForgottenBuildIsReachable | web/src/BuildPlanner.tsx:206-214 | a run in which a draft is refused and built, unseen, and its selection built again |
| BuildAcceptanceSafety.RetriedInVainIsReachable | web/src/BuildPlanner.tsx:206-214 | a run whose refused retry, with no error frozen, can no longer lead to a build |
| BuildAcceptanceSafety.RefusedBuildIsReachable | crates/transflow/src/build_plan.rs:1074-1090 | a run that refuses a draft on its only submission although its build exists |
| BuildAcceptanceSafety.RefusedDraftReturns | web/src/BuildPlanner.tsx:95-105 | a run in which a refused draft can be accepted |
| BuildAcceptanceSafety.ConflictRetriesAreBounded | web/src/BuildPlanner.tsx:118-130 | the automatic retries of any run are at most three, and three more for each change of key and each preview that yields a draft; without those the counter counts them |
| BuildAcceptanceSafety.RetryIsExact | web/src/BuildPlanner.tsx:231-413 | while the planner takes an outcome for unknown and nothing is under way, the acceptance can be retried if and only if the draft is neither stale nor expired, and nothing else can be started or cancelled |
| BuildAcceptanceSafety.UnknownIsRetryableIffUnexpired | web/src/BuildPlanner.tsx:231-413 | some continuation enables the retry of an unknown outcome if and only if the plan has not expired |
| BuildAcceptanceSafety.ExpiredUnknownIsReachable | web/src/BuildPlanner.tsx:206-217 | a run that ends with an unknown outcome that nothing can resolve |
| BuildAcceptanceProgress.SelectionIsBuilt | web/src/BuildPlanner.tsx:95-221 | in any state with the invariant that offers `Next`, a selection that is previewed, accepted and answered is offered once and not previewed again, its build is the one on display, on the previewed plan, and the next selection can be made |
| BuildAcceptanceProgress.RetryFindsBuild | web/src/BuildPlanner.tsx:183-221 | retrying a draft whose build is recorded displays that build and creates no other |
| BuildAcceptanceProgress.LastConfirmedIsShown | web/src/BuildPlanner.tsx:200-205 | from its confirmation to the next one, an accepted draft is the one on display, with its build |
| BuildAcceptanceProgress.StrandingIsExact | web/src/BuildPlanner.tsx:95-182 | a review with nothing under way loses its plan, its own next preview and the retry at once at a step if and only if a conflict's retry ends there without asking again for the latest key, or the key that failed without an error is chosen again |
| BuildAcceptanceProgress.ReviewIsAttended | web/src/BuildPlanner.tsx:95-182 | over any run without such a step a review always has a plan to accept, previews by itself, or offers the retry |
| BuildAcceptanceProgress.StrandedByRefresh | web/src/BuildPlanner.tsx:128-148 | a run in which the refresh after a conflict fails and strands the review |
| BuildAcceptanceProgress.StrandedByReturn | web/src/BuildPlanner.tsx:128-148 | a run in which the selection changes and changes back before the retry, which strands the review |
| BuildAcceptanceProgress.CanceledStaysCanceled | web/src/BuildPlanner.tsx:222-230 | after Cancel the next selection can be made, and no late reply brings a draft until a preview is asked for |
| BuildAcceptanceProgress.OldSelectionIsForgotten | web/src/BuildPlanner.tsx:86-90 | after a change of selection no late reply brings a draft until a preview is asked for |
| BuildAcceptanceProgress.ClosedIffUnmounted | web/src/BuildPlanner.tsx:77-83 | after any run the planner is closed if and only if it was unmounted |
| BuildPlanner.Planner.PreviewSucceeds | web/src/BuildPlanner.tsx:117-150 | keeps the invariant; a new draft is of the latest key and has a receipt that was never used or submitted |
| BuildPlanner.Planner.Accept | web/src/BuildPlanner.tsx:183-199 | keeps the invariant; submits the draft in hand while it is good, and every earlier submission under its receipt carries the same plan |
| BuildPlanner.Planner.AcceptSucceeds | web/src/BuildPlanner.tsx:200-205 | keeps the invariant; the build named is displayed with the draft that was awaited, and is the only build of that draft, on its reviewed plan |
| BuildPlanner.Planner.AcceptLost | web/src/BuildPlanner.tsx:206-220 | keeps the invariant; the submitted draft stays in hand, marked uncertain unless unmounted |
| BuildPlanner.Planner.Happen | web/src/BuildPlanner.tsx:60-238 | whatever happens next, the object takes the transition system's step and keeps its invariant; a review is stranded exactly by the steps that do so |
| CrateGraph.CanonicalIgnoresRotation | tools/check_rust.py:91-93 | all rotations of a cycle have the same canonical form |
| CrateGraph.CanonicalIsReportable | tools/check_rust.py:91-93 | the canonical form is the same simple cycle, rotated to its least name |
| CrateGraph.ReportsAreNotRotations | tools/check_rust.py:95-97 | two different reported cycles are not rotations of each other |
| CrateGraph.OrderedGraphIsAcyclic | tools/check_rust.py:99-108 | a graph with a reverse topological order of its nodes has no cycle |
| CrateGraph.OrderedWithoutIsAcyclic | tools/check_rust.py:99-108 | an order of all names that respects all edges but those of some cycles leaves no cycle once these edges are taken away |
| CrateGraph.UnmetCycleRemains | tools/check_rust.py:99-108 | a cycle that shares no edge with these cycles is still there without their edges |
| CrateGraph.LayeredGraphIsAcyclic | tools/check_rust.py:14-25 | a graph whose edges go down a level has no cycle |
| CrateCheck.TableIsLayered | tools/check_rust.py:14-25 | every dependency that `INTERNAL` allows goes to a lower layer |
| CrateCheck.AllowedGraphIsAcyclic | tools/check_rust.py:68-70 | a graph that uses only allowed edges has no cycle |
| CrateCheck.EdgesAreDependencies | tools/check_rust.py:65-68 | the collected edges are exactly the declared internal dependencies |
| CrateCheck.ForbiddenAreOutside | tools/check_rust.py:69-70 | exactly the edges outside the table are reported as forbidden |
| CrateCheck.CycleCheck.Report | tools/check_rust.py:90-98 | reports the canonical cycle that closes here unless it was reported before; the closing edge then lies on a reported cycle |
| CrateCheck.CycleCheck.Visit | tools/check_rust.py:89-105 | terminates, restores `active`, and enters the name into `visited` or leaves the edge to it on a reported cycle |
| CrateCheck.CycleCheck.VisitAll | tools/check_rust.py:102-103 | every target of the node is visited, or the edge to it lies on a reported cycle |
| CrateCheck.CycleCheck.Finish | tools/check_rust.py:104-105 | the node enters `visited` after its targets, except along edges of reported cycles |
| CrateCheck.CycleCheck.Run | tools/check_rust.py:107-109 | every name with dependencies is visited, whatever was reported; without the edges of the reported cycles the graph has no cycle, so every cycle shares an edge with a reported one, and none is reported if and only if the graph is acyclic |
| CrateCheck.CollectEdges | tools/check_rust.py:55-70 | the edge table and the forbidden pairs of the whole workspace |
| CrateCheck.ValidateGraph | tools/check_rust.py:46-109 | every cycle shares an edge with a reported one; each report is a real simple cycle in canonical form, given once; without forbidden edges there is none |
| AdvisoryAudit.ChainIsUnique | tools/safety/advisories.py:64-70 | a package has at most one full page chain |
| AdvisoryAudit.ChainTokensAreDistinct | tools/safety/advisories.py:66-69 | a chain that ends never repeats a page token, so the seen set never refuses one |
| AdvisoryAudit.GoingMeansFollowing | tools/safety/advisories.py:51-70 | a package pending after k pages has followed k links, has seen exactly their tokens and found exactly their advisories |
| AdvisoryAudit.EndedMeansChain | tools/safety/advisories.py:51-73 | a package that ended has a full chain within the pages used, and all its advisories were found |
| AdvisoryAudit.AuditableIffEnded | tools/safety/advisories.py:42-74 | a package ends if and only if its chain is well formed and has at most 20 pages |
| AdvisoryAudit.ReadPage | tools/safety/advisories.py:52-63 | all identifiers of a page, or an error exactly when it is malformed |
| AdvisoryAudit.StepPage | tools/safety/advisories.py:50-71 | one page of every pending package, all of it or an error |
| AdvisoryAudit.PageRunIsUnique | tools/safety/advisories.py:42-74 | the provider determines the pages of a batch |
| AdvisoryAudit.TokensAreDistinct | tools/safety/advisories.py:65-71 | whatever the provider answers, a package pending after k pages has followed k different tokens |
| AdvisoryAudit.AuditIsDetermined | tools/safety/advisories.py:26-82 | an audit has one result |
| AdvisoryAudit.AuditConcernsPackages | tools/safety/advisories.py:26-82 | whatever the provider answers, every finding concerns a package asked about |
| AdvisoryAudit.AuditBatch | tools/safety/advisories.py:30-74 | whatever the provider answers, succeeds if and only if the batch has a run of 1 to 20 pages, each a response with one sound reply for every pending package, after which nothing is pending, and returns what these pages list; for a provider of page chains that is when all packages end, with exactly their findings |
| AdvisoryAudit.AuditAll | tools/safety/advisories.py:26-82 | whatever the provider answers, succeeds if and only if every batch of 200 has such a run, and returns the union of what all pages list, never a part of it; for a provider of page chains: exactly when every chain is well formed and short enough, with exactly the union of all chains |
| AdvisoryAudit.EndedIsComplete | tools/safety/advisories.py:75-82 | the findings are the advisories on the full chains, no more and no fewer |
| PackageNames.NormalizeIsNormal | tools/safety/baseline.py:137-138 | the result is lower case, with single hyphens only |
| PackageNames.NormalIsFixed | tools/safety/baseline.py:137-138 | a name is normalized if and only if normalising leaves it unchanged |
| PackageNames.NormalizeIsIdempotent | tools/safety/baseline.py:137-138 | PEP 503, Normalized Names: normalising twice is normalising once |
| PackageNames.SeparatorRunsAreInterchangeable | tools/safety/baseline.py:137-138 | any run of separators may stand for any other |
| PackageNames.NormalizeIffAlike | tools/safety/baseline.py:137-138 | two names normalise alike if and only if they differ only in letter case and in what their runs of separators consist of |
| PackageNames.IdSplits | tools/safety/baseline.py:166 | splitting at the last `@` recovers canonical name and version |
| PackageNames.IdsAreInjective | tools/safety/baseline.py:136-141 | two packages share an identifier if and only if ecosystem and version are the same and the names are, for PyPI up to letter case and runs of separators |
| PackageInventory.Table.Add | tools/safety/baseline.py:159-180 | refuses exactly the inadmissible facts, and otherwise the table represents one more fact |
| PackageInventory.Table.SortAll | tools/safety/baseline.py:228-230 | sorts every list of every record in place and changes nothing else |
| PackageInventory.Table.Finish | tools/safety/baseline.py:228-235 | one record per identifier, in order, with everything the facts say |
| PackageInventory.Inventory | tools/safety/baseline.py:156-235 | refused exactly when some fact is, and otherwise the inventory of the set of facts |
| PackageInventory.InventoryIsCanonical | tools/safety/baseline.py:228-235 | the records depend only on the set of facts, not on their order or repetition |
| SafetyPolicy.CheckAdvisories | tools/safety/baseline.py:304-326 | accepts exactly the fresh, matching, complete reports with plain identifiers, and returns their keys |
| SafetyPolicy.AdvisoryKeysAreInjective | tools/safety/baseline.py:322-325 | a finding's key determines its advisory and its package |
| SafetyPolicy.KeyKindsDiffer | tools/safety/check.py:57 | advisory and deprecation keys never coincide |
| SafetyPolicy.DeprecatedIsExact | tools/safety/check.py:57 | a deprecation is reported of an identifier if and only if some package with that identifier has one |
| SafetyPolicy.DeprecationIsExactKeyIff | tools/safety/baseline.py:281-287 | a deprecation can be excepted if and only if it is of an npm package without an asterisk in its identifier |
| SafetyPolicy.AdvisoryIsExactKeyIff | tools/safety/baseline.py:281-287 | a plain advisory can be excepted if and only if the package's identifier has no asterisk |
| SafetyPolicy.ClearableIff | tools/safety/baseline.py:270-301 | some policy leaves no finding if and only if every finding can be excepted |
| SafetyPolicy.ApplyExceptions | tools/safety/baseline.py:270-301 | accepts exactly the policies of distinct, used, justified and unexpired exceptions, and returns the findings they leave, sorted |
| SafetyPolicy.StripTrims | tools/safety/baseline.py:292-298 | owner and reason are judged without the blanks at their ends, and only without those |
| SafetyPolicy.NothingRemainsIffOneToOne | tools/safety/baseline.py:270-301 | nothing remains if and only if the exceptions match the findings one to one |
| SafetyPolicy.Gate | tools/safety/check.py:54-60 | passes if and only if the report is acceptable and the exceptions match advisories and deprecations one to one |
| SafetyPolicy.SortedFindingsList | tools/safety/advisories.py:81 | the listed findings are exactly the set of findings |
| SafetyPolicy.QueryReportIsAccepted | tools/safety/baseline.py:304-326 | a report of the query is accepted for its inventory if and only if it is fresh and its identifiers are plain, and yields exactly its findings |
| SafetyPolicy.CompleteReportMayBeRefused | tools/safety/baseline.py:320-324 | a provider whose complete report the gate refuses |
| SafetyPolicy.AuditAndGate | tools/safety/check.py:54-60 | query and gate end to end, whatever the provider answers: there is a report if and only if every batch comes to its end, it holds what all pages list, and the gate judges exactly that; for a provider of page chains that is all of every chain |
| CatalogOverlay.JoinIsInjective | python/tools/catalog_overlay.py:38-39 | different prefixes have different names |
| CatalogOverlay.NumbersAreUnique | python/tools/catalog_overlay.py:39 | class numbers are injective on prefixes |
| CatalogOverlay.NextSegmentsAreChildren | python/tools/catalog_overlay.py:47-49 | asking by name gives the children of that prefix and of no other |
| CatalogOverlay.FollowingReachesTheTree | python/tools/catalog_overlay.py:34-55 | following properties from the root arrives exactly at the prefixes of catalogue paths, each in its own class |
| CatalogOverlay.ReferencesAreDeclared | python/tools/catalog_overlay.py:45-54 | every referenced class is declared, once |
| CatalogOverlay.EveryClassIsReached | python/tools/catalog_overlay.py:45-54 | every declared class is reached from the root |
| CatalogOverlay.CollectNames | python/tools/catalog_overlay.py:35-38 | the names of exactly the prefixes |
| CatalogOverlay.RenderClass | python/tools/catalog_overlay.py:46-52 | one property per child, in order, each leading to the child's class |
| CatalogOverlay.Render | python/tools/catalog_overlay.py:34-55 | one class per prefix, in the order of the names |
| OverlayPublication.Verify | python/tools/catalog_overlay.py:67-89 | accepts exactly the published tree |
| OverlayPublication.Workspace.WriteOverlay | python/tools/catalog_overlay.py:92-131 | publishes a complete generation or leaves everything as it was |
| OverlayPublication.DestinationsNeverChange | python/tools/catalog_overlay.py:124-131 | no step of any writer changes a destination that is there |
| OverlayPublication.StepKeeps | python/tools/catalog_overlay.py:92-131 | every step of every writer, failures and crashes included, keeps the publication invariant |
| OverlayPublication.PublicationIsAtomic | python/tools/catalog_overlay.py:92-131 | after any run a destination is absent, or exactly the complete overlay, or what was there before the run |
| OverlayPublication.ReturnedMeansPublished | python/tools/catalog_overlay.py:100-131 | a writer that returned has its own complete overlay at its destination |
| OverlayPublication.TamperedIsRefused | python/tools/catalog_overlay.py:100-102 | no writer returns a stale or tampered destination, and none changes it |
| OverlayPublication.VerificationSucceeds | python/tools/catalog_overlay.py:124-131 | without tampering no verification fails, also after losing the race |
| OverlayPublication.CanReturnIff | python/tools/catalog_overlay.py:92-131 | a writer that is still running, whatever the others have done, can return by steps of its own if its destination was free or right at the start, and otherwise no run lets it return |
| Lines.SplitJoins | web/src/SourceLines.tsx:25 | joining what was split gives the text back, and no line holds a newline |
| Lines.JoinSplits | web/src/SourceLines.tsx:25 | splitting what was joined gives the lines back |
| Lexing.Append | web/src/SourceLines.tsx:24-29 | the value's characters follow in one colour, with new lines at its newlines and no empty token |
| Lexing.Lex | web/src/SourceLines.tsx:30-48 | for any pattern every character is shown once, in the colour of the match or gap it lies in |
| SqlTokens.MatchKeepsZone | web/src/SourceLines.tsx:20-21 | a match that starts in code lies in one comment, one string or code, as its kind says |
| SqlTokens.NumberIsNumber | web/src/SourceLines.tsx:21 | what is taken for a number is one, from word boundary to word boundary |
| SqlTokens.NumberIsLongest | web/src/SourceLines.tsx:21 | of all numbers between word boundaries from a position, the longest is taken |
| SqlTokens.ColoursAreZones | web/src/SourceLines.tsx:16-49 | a character has the comment or string colour if and only if SQL's own state machine puts it in one |
| SqlTokens.KeywordsAreCode | web/src/SourceLines.tsx:33-43 | no character of a string or comment, terminated or not, is shown as a keyword |
| SqlTokens.KeywordsAreListedWords | web/src/SourceLines.tsx:33-43 | a whole word outside comments and strings is shown as a keyword if and only if it is listed, in whatever case, and otherwise plain |
| PythonTokens.PythonMatchesAreNonEmpty | web/src/SourceLines.tsx:22 | no match of the Python pattern is empty or leaves the text |
| PythonTokens.CommentIsRestOfLine | web/src/SourceLines.tsx:22 | a comment match is a `#` with the rest of its line, and every `#` at which a match is tried starts one |
| PythonTokens.StringIsPrefixAndBody | web/src/SourceLines.tsx:22 | a string match is at most two prefix letters and a quoted body, and no string is missed |
| PythonTokens.WordIsMatchedWhole | web/src/SourceLines.tsx:22-43 | a whole word with which no string starts is matched whole, as a keyword if and only if it is one of Python's |
| PythonTokens.NumberStandsAlone | web/src/SourceLines.tsx:22 | a number match starts with a digit at a word boundary and ends at one |
| PythonTokens.IntegerIsMatched | web/src/SourceLines.tsx:22 | every integer between word boundaries is matched whole |
| PythonTokens.StringEndIsExact | web/src/SourceLines.tsx:22 | the pattern ends a string where Python's scanner does if and only if it is one of a single line, its first three closing quotes are not protected by a backslash, or the text ends there |
| PythonTokens.ProtectedQuotesEndEarly | web/src/SourceLines.tsx:22 | a string that the pattern ends too early |
| SourceLines.SourceTokens | web/src/SourceLines.tsx:16-49 | the lines spell the text for every path; highlighted tokens are nonempty and hold no newline; each character has the colour the pattern of its language, with its keywords, gives it |
| DiffColumns.CommonEnds | web/src/execution-model.ts:102-110 | the longest common start, and the longest common end of the rest |
| DiffColumns.EndsAreUnique | web/src/execution-model.ts:102-110 | two files have one longest common start and end; of equal files all lines are in the start |
| DiffColumns.SourceDiff | web/src/execution-model.ts:96-123 | a script whose old lines are the first text's and whose new lines are the second's: their longest common start and end are unchanged, and between them all old lines are removed and all new ones added |
| DiffColumns.Flush | web/src/SourceLines.tsx:75-82 | waiting lines share rows from the top: the columns grow by the longer of the two lists, with each list in order and empty places after it |
| DiffColumns.Columns | web/src/SourceLines.tsx:69-110 | columns of equal length that hold every old and every new line once, in order, unchanged lines side by side, with one row for each unchanged line and for each change between two as many as its longer side has lines |
| DiffColumns.OldCellsAreNumbered | web/src/SourceLines.tsx:86-101 | the left cells are numbered 1 to n, each with its own line's tokens |
| DiffColumns.NewCellsAreNumbered | web/src/SourceLines.tsx:91-107 | the right cells are numbered 1 to m, each with its own line's tokens |
| DiffColumns.DiffView | web/src/SourceLines.tsx:59-111 | from two texts, each column spells its own file, complete and in order, and marks as unchanged exactly the longest common start and end of the two files |
| DiffColumns.EqualFilesAreUnmarked | web/src/execution-model.ts:96-123 | in the view of equal files no line is marked as changed |
| TriggerTree.HasClockIffCronLeaf | web/src/ScheduleEditor.tsx:38-44 | a tree has a clock if and only if one of its leaves is a cron condition |
| TriggerTree.ClockLabelIsFirst | web/src/ScheduleEditor.tsx:45-55 | the label of the first cron leaf with the identifier, in the order shown |
| TriggerTree.EditHereKeepsWellFormed | web/src/ScheduleEditor.tsx:343-568 | an offered edit keeps its card well formed at its depth if and only if it is not a dataset condition without datasets |
| TriggerTree.EditKeepsWellFormed | web/src/ScheduleEditor.tsx:498-568 | the same for the whole tree, for an edit at any path |
| TriggerTree.EditsKeepWellFormed | web/src/ScheduleEditor.tsx:319-568 | over any sequence of edits with datasets to choose from, depth stays at most 7, groups keep 2 to 64 conditions and `manual` stays alone |
| TriggerTree.MissingDatasetBreaksTree | web/src/ScheduleEditor.tsx:243-254 | the edit that breaks a tree when there are no datasets |
| TriggerTree.EditKeepsOtherLeaves | web/src/ScheduleEditor.tsx:512-535 | leaves before and after the edited card keep identity and order, and the card's own leaves change as the edit says |
| TriggerTree.EditMeansWhatItSays | web/src/ScheduleEditor.tsx:319-342 | for any conditions that have occurred: wrapping asks for the new condition too, adding and removing join or leave a group by its own rule, also when it collapses, regrouping changes the rule, and a card that becomes a single condition asks for that one alone |
| TriggerTree.CardHasChosenKind | web/src/ScheduleEditor.tsx:225-260 | choosing a kind makes the card one of that kind, with the new identifier, if and only if the condition can be made; otherwise it becomes `manual` |
| TriggerTree.ExactlyWellFormedTreesCanBeMade | web/src/ScheduleEditor.tsx:343-568 | with datasets to choose from, the edits offered make of any well-formed tree exactly the well-formed trees |
| TriggerTree.RemoveUndoesAppend | web/src/ScheduleEditor.tsx:527-564 | removing what wrapping or adding appended gives the tree back |
| CapturedSource.CapturedSource | web/src/CodeInspector.tsx:39-80 | terminates against any server, with the outcome the rounds determine |
| CapturedSource.CaptureIsFaithful | web/src/CodeInspector.tsx:39-80 | complete means all of the file's lines, joined, within 512 KiB; stopped means exactly the lines before the offset, but for one newline at the very limit; cut means the decoded beginning of their join |
| CapturedSource.CaptureEndsWithPage | web/src/CodeInspector.tsx:39-80 | every capture ends with a page that the limits allow to ask for, and as that page determines: failed if it fails, cut if it passes 512 KiB, complete if it is the last, stopped if it fills 2,000 lines or the text |
| CapturedSource.AnsweredCaptureSucceeds | web/src/CodeInspector.tsx:39-80 | pages that are all answered never make a capture fail |
| CapturedSource.StoppedIsJoinIffClear | web/src/CodeInspector.tsx:70-73 | a stopped text is exactly the lines before its offset if and only if these do not end one code unit below the limit with pages left to ask for |
| CapturedSource.ServerPagesByLines | crates/transflow/src/api_read.rs:490-505 | what the server answers for a file are pages of its lines |
| CapturedSource.CompleteIsFileIffPlain | crates/transflow/src/api_read.rs:491 | for every file a complete capture is the file if and only if the file has no final newline and no CR LF |
| CapturedSource.FinalNewlineIsLost | crates/transflow/src/api_read.rs:491 | a file of one line and its newline, whose complete capture lacks the newline |
| CapturedSource.SmallFilesAreComplete | web/src/CodeInspector.tsx:39-80 | at most 2,000 lines and less than 512 KiB are captured completely from a server that always answers, whatever the page size |
| CapturedSource.SmallFileIsCapturedIffPagesFit | crates/transflow/src/api_read.rs:490-502 | such a file is captured completely if and only if each page of 200 lines is at most 64 KiB, and otherwise the capture fails |
| CapturedSource.DecodedIsLongestStart | web/src/CodeInspector.tsx:50-58 | a cut capture is the longest beginning of whole characters within the limit, with one replacement character if one was cut |
| CapturedSource.NewlineAtTheLimit | web/src/CodeInspector.tsx:70-73 | a file that the server pages in 200 lines and less than 64 KiB, whose capture carries an extra newline |

## Left out

- JsonSchema: numbers are exact reals; `x-transflow-invariant` rules, the nesting limit of 64 and type lists are not modelled, and a text of format `f32` or `f64` is judged by rounding its exact value once.
- TypeScript: membership is structural on JSON values and read inductively; assignability, excess-property checks and `readonly` are not modelled.
- ContractExamples: `ExecutionJsonV1` and the OpenAPI document that embeds the examples are not modelled.
- LiteralText.ReadsJson: numbers in literals are whole and written without a point, although `json.dumps` keeps the `.0` of a number that the schema writes as a whole float; the digits of a fraction and the order of an object's keys are left to a parameter, since the value alone does not settle them.
- TypeScriptText.ParsesPrinted: alias names must be identifiers that are not words of the grammar, and numbers in literals whole; `null` literals are read as the null type, whose text they have.
- ContractFile: the worker, CLI and Python files that `main` writes beside the TypeScript file.
- ScratchpadSafety.StepKeeps: only for runs that start safely; the source does not enforce that, and for any other start ownership is lost in some continuation (`RunGuardIsExact`).
- ScratchpadSafety.AcknowledgedOwnership: only for runs that start safely, for the same reason.
- ScratchpadDisplay.DisplayedRows: only for runs in which none starts while another waits for its receipt; the source does not enforce that, and for any other start rows are mixed in some continuation (`DisplayGuardIsExact`).
- ScratchpadSafety.QueryOwnership: only for runs that start safely, as for `StepKeeps`; a query whose acceptance reply is lost is known to nobody on the client, so it is only listed as lost.
- ScratchpadProtocol: schemas of pages, SQL binding, the catalogue look-ups before submission and the download's file link are not modelled; timers fire in any order, without durations.
- ReceiptServer: expiry of plans, the queue of one operation at a time and the two-hour wait for it; their replies count as turned away or as none. A receipt used for another request is not modelled, since the planner never does that.
- BuildAcceptance: option forms, the plan's contents but for the number of resources it writes, the number of selected targets and the accepted build's own view are not modelled, and of `workspace.refresh` only whether it fails; the clock may stand still or jump forward.
- CrateCheck: manifests, editions, external dependencies and pins are not modelled; a report is the cycle itself, not its text.
- PackageInventory: lock files are already parsed into facts; `check_inventory`'s comparison with the saved file is not modelled. A non-text `deprecated` entry is not modelled.
- PackageNames.Normalize: letters outside ASCII stay as they are, except the one that becomes an ASCII letter; the name check refuses all others either way.
- AdvisoryAudit: transport, size limit and unknown result keys count as a reply that is no result; error texts are grouped by check.
- SafetyPolicy: secret scanning and the contract check that the same script runs; dates are day numbers.
- CatalogOverlay: the text of the stubs is not modelled, only the classes, their numbers and properties; `PrototypeSnapshot` is not part of this model, its paths are taken as validated and its children as the distinct next segments in order.
- OverlayPublication: symlink and containment checks, creation of parent directories, empty subdirectories and the manifest's JSON formatting; a verification reads its directory in one step, which no writer can notice because published directories never change.
- PythonTokens: nested quotes inside f-strings and the grammar of numbers are left to the pattern; the zones of a whole Python file are not modelled, only where each string and comment ends.
- Lexing: strings are sequences of Unicode characters, not of UTF-16 code units; no pattern or colour depends on the difference.
- TriggerTree: branch lists, schedule policies, role edits on the lineage graph and saved-draft handling; the identifiers of new conditions are parameters.
- CapturedSource: files above 16 MiB or not in UTF-8, which the server refuses, dataset look-up, the generated Python preview and request aborts.
- React rendering, focus, drag handling, icons, formatting helpers, polling of schedule lists, license fetching, packaging and the Rust crates themselves are not modelled.
