# Sisu Kodo, modelled in Dafny

Sisu Kodo is a durable workflow harness: recipes become intents, intents become runs, runs pause at
human gates, apply patches, save artifacts and can be crashed and resumed at any point. This project
models the algorithms and protocols that have to survive that, and proves what they promise.

| files | what they model |
|---|---|
| `JsText`, `JsTextProofs`, `Utf8`, `JsonValues`, `StableSort` | JavaScript strings and their bytes, JSON trees and a JSON reader, sorting by `localeCompare` |
| `CanonicalJson`, `CanonicalJsonProofs`, `CanonicalJsonTheorems`, `CanonicalText` | the canonical printer behind every digest, and what its text looks like |
| `EditDistance`, `Glob` | the `diff_le` and `file_exists` eval checks |
| `ChildSessionGuard`, `ReproScope` | the two graph searches |
| `HitlTopic`, `DecisionPayload`, `DecisionPayloadProofs`, `HumanGateModel`, `HumanGateProofs`, `HumanGate`, `GateView` | the human gate, its replay after crashes, and the view of it |
| `ParallelGates`, `ParallelGatesProofs` | approvals that run at once over one log |
| `Schedules`, `Ledger`, `LedgerProofs`, `LedgerDelivery` | the human-interaction ledger and the sends behind it, under interleaving |
| `PatchModel`, `PatchProofs`, `PatchRuns`, `PatchTheorems`, `PatchArtifacts`, `Patches` | reversible patches, applied and rolled back through crashes |
| `IntentTemplate`, `TemplateHoles`, `IntentTemplateProofs`, `IntentTheorems` | intents from recipe templates and forms |
| `RecipeStore`, `RecipeStoreProofs`, `RecipeTheorems` | recipe versions from draft to stable |
| `ArtifactUri`, `ArtifactStore`, `SaveArtifacts`, `SaveArtifactsProofs`, `SavedContents`, `SaveSchedules` | artifact URIs, the artifacts table, and the artifact-saving step, alone and by several processes at once |
| `RunStore`, `RunStoreProofs`, `RunSchedules` | the run table, its statuses and its retry counter |
| `CustomEngine`, `CustomEngineProofs` | the hand-written two-step engine |
| `MapLimit` | the shared-cursor worker pool |

Code that changes state is modelled by classes and methods with loops; their contracts tie the new
state to functions, about which the lemmas speak. Code that only computes is modelled by functions.

## How the world is modelled

- Strings are sequences of UTF-16 code units. Lower-casing is exact where the result has an ASCII part,
  which is all its callers look at.
- `localeCompare` is a parameter: any total preorder. That it tells different keys apart is not assumed
  where it can be avoided; where a law needs it, the lemma says so in both directions
  (`TextIsIdentityExactly`, `FileOrderIgnoredExactly`).
- SHA-256 is a parameter too: a function of bytes, injective on them where a lemma says so. Text is hashed
  as its UTF-8 bytes, in which every lone surrogate is U+FFFD, so two texts share a digest exactly when
  they are equal after that replacement. Files and text columns hold texts without lone surrogates.
- One SQL statement, one transaction, one file write is one step. A process may die before or after any
  of them, and in the patch step a statement may also throw: a list, one entry per step, says which, and
  theorems hold for every list. Where several processes act on one database, theorems hold for every
  schedule of their steps.
- Messages to a workflow are keyed by the workflow and the dedupe key; a second send under the same keys
  has no effect, whatever its topic.
- A durable log returns completed calls in order when a workflow is run again from the top. A call may
  die between its effect and its record, so every call may happen more than once. A kill also empties
  what the module holds in memory, the chaos maps among it. Where several approvals run at once, calls are
  numbered as they are made and looked up by number; a run that finds another call under its number stops.
- The clock and the mailbox are arbitrary functions of how often they were asked.
- A number is the text `JSON.stringify` prints for it, so `-0` and `0` are one number.

## What the model found

- **Canonical JSON.** Equal text is equal value up to member order exactly if the collation tells keys
  apart; two keys that compare equal, as canonically equivalent Unicode strings do, print in the order
  they came in (`TyingKeysPrintInOrder`). A string and a value may share a digest, when the string is the
  value's canonical text (`DigestsAgreeExactly`).
- **Recipes.** `canPromoteStable` can hold and `promoteStable` still throw: the upsert always offers
  version 1, and `UNIQUE (name, version)` in `db/migrations/003_recipes.sql` lets only one recipe have it
  under a name (`PromotesExactly`, `SecondOfOneNameThrows`).
- **Digests of strings.** All lone surrogates have one digest (`LoneSurrogatesCollide`). Canonical text
  never holds one, so digests of JSON values are not affected (`CanonicalIsUnicode`).
- **Patches.** Apply and rollback restore every file under every list of deaths exactly for the plans in
  which every image a path gets is its original content or what its first patch writes, as with different
  paths (`RestoredExactly`). For every other plan a first run can die so that the next one stops with
  PREIMAGE_MISMATCH and rollback does not restore (`UnsettledRerunFails`); files that were ready to be
  rolled back need not be after such a re-run (`RerunLosesReadiness`). What can be checked before rolling
  back is whether each file holds an image of its last live patch: rollback restores exactly then
  (`RestoredWhenReadyExactly`). A throw in a first run is harmless except between a file's write and the
  mark (`ThrowInFirstRunExactly`).
- **Ledger and delivery.** On human topics the topic is a function of the gate, and a slot has one row. But
  messages are keyed without gate and topic. Two replies or events to different gates of one workflow under
  one dedupe key are both recorded and both reported as new, and the second is never delivered
  (`CrossGatePostIsLost`); on one gate, an event and a reply can race past the drift check to the same end
  (`RacedPostIsLost`). Everything is delivered exactly when any two senders under one workflow and dedupe
  key, whether replies, events or bare sends, send the same message or write one row (`AlwaysDeliveredExactly`,
  `NormalCompatible`). Off human topics two writers of one slot can both be stored (`TwoRowsExactly`,
  `TopicDriftCanBeRaced`).
- **Parallel approvals.** Replay is right if every run makes its calls in the order of the first
  (`EachAsIfAlone`), and nothing in the source sees to that: with two approvals there is always a re-run,
  one in which another call returns first, that meets a call it did not record (`AnyOrderIsSafeExactly`,
  `CrossedDiverges`).
- **Gate events.** Two gates of one workflow share an event key if one is named like the other with
  `:result` or `:audit` behind it, and in no other case (`GatesShareKeyExactly`). Gates of two workflows
  share an escalation if the colon between workflow and gate can be read in two places
  (`EscalationIdsAgreeExactly`).
- **Retry counter.** An increment is lost when one falls between the two halves of another caller's
  `updateOps`; where none does, the counter and the departures are as promised (`LosesNowhereExactly`,
  `DeparturesArePaidFor`). Callers may interleave freely exactly when at most one increments
  (`AlwaysCountsExactly`).

## Model

| member | source | states |
|---|---|---|
| `HumanGate.Durable.ApproveUntilItEnds` | src/workflow/wf/hitl-gates.ts:73-223 | An approval killed or crashed anywhere, any number of times, and re-run from the top with whatever switch set or cleared before each run, always ends; it leaves exactly the log, events, gate row and escalation of one undisturbed run on the inputs the log holds, and returns that run's decision; the reply and times in them are what the mailbox and the clock said. It fails only for an invalid gate key or a reply that is not an object |
| `HumanGate.Durable.Approve` | src/workflow/wf/hitl-gates.ts:170-223 | One run, on whatever an earlier run left: if it returns, log, world and decision are the script's; a crash always uses up a kill or a switch; a replay never meets a call other than the recorded one |
| `HumanGate.Durable.AwaitHuman` | src/workflow/wf/hitl-gates.ts:73-164 | Up to the audit event the log is the script's prefix; the result is the reply, or a timeout when the mailbox had null; a non-object reply fails the result contract |
| `HumanGate.Durable.ChaosCrash` | src/workflow/wf/hitl-gates.ts:54-67 | Crashes exactly when this phase is the one set for the workflow (or for all) and this pair has not crashed before; then it never does so again in this process |
| `HumanGate.Durable.SetHitlChaosPhase` | src/workflow/wf/hitl-gates.ts:36-47 | Sets or clears the phase of one scope and of no other |
| `HumanGateProofs.ReplySettlesItsPlace` | src/workflow/wf/hitl-gates.ts:73-164 | What a call returns fixes its own place in the script and changes no earlier call or reply: a replay reads back the past it wrote |
| `HumanGateProofs.RecordFollowsScript` | src/workflow/wf/hitl-gates.ts:73-164 | Recording any call's outcome keeps the log on the script of the inputs learnt so far |
| `HumanGateProofs.NextEffect` | src/workflow/wf/hitl-gates.ts:87-107 | Dying between a call's effect and its record does no harm: the repeated call leaves the world as one call does |
| `HumanGateProofs.ScriptLeavesFinalWorld` | src/workflow/wf/hitl-gates.ts:87-223 | The calls' effects one by one add up to the final world written out: prompt kept if there, result, audit, decision, gate row, escalation only on timeout |
| `HumanGateProofs.SameLogSameOutcome` | src/workflow/wf/hitl-gates.ts:170-223 | Two runs that recorded one log end in one world with one decision, however each was interrupted |
| `HumanGateProofs.DecisionRecordedExactly` | src/workflow/wf/hitl-gates.ts:170-223 | In the world a whole run leaves, the recorded decision is the one returned; it is yes exactly when the reply approves by the three fields in order; its rationale is the string in the first of `rationale`, `reason`, `note` and `notes` that holds one, none exactly if none does, and "timeout" if no reply came; it is a timeout's exactly when the recorded result is one or the reply itself says so, and the escalation is there exactly when it was before or the recorded result is a timeout |
| `HumanGateProofs.EventsRecordedExactly` | src/workflow/wf/hitl-gates.ts:97-163 | The prompt carries the form, the time and a deadline that many seconds later, and the gate row its topic; the result is the reply itself or a timeout; the audit entry names the reply's actor and rationale where those are strings, or the expired time |
| `ParallelGatesProofs.EachAsIfAlone` | src/workflow/wf/run-intent.wf.ts:225-231 | Any number of approvals of one workflow at once, over one log of numbered calls, killed anywhere with calls half done: if every run makes its calls in the same order, no run meets another call than the one on record; an approval that is through has left, on record and in the world, exactly what it would have left alone; nothing else has changed |
| `ParallelGatesProofs.AnyOrderIsSafeExactly` | src/workflow/wf/run-intent.wf.ts:225-231 | Replay goes right whatever order each run makes its calls in exactly when there is at most one approval |
| `ParallelGatesProofs.CrossedDiverges` | src/workflow/wf/run-intent.wf.ts:225-231 | The failing re-run: a log in which the first approval went ahead, replayed with the second one's look for its prompt returning first, ends at a call that is not the one on record |
| `HumanGateModel.KeysDistinct` | src/workflow/hitl/keys.ts:9-23 | One gate's prompt, result, audit and decision keys are four different keys |
| `HumanGateModel.GatesShareKeyExactly` | src/workflow/hitl/keys.ts:9-23 | Two different gates of a workflow share an event key exactly when one gate key is the other followed by `:result` or `:audit` |
| `JsTextProofs.TrimExactly` | src/lib/hitl-topic.ts:9-9 | Trimming leaves what is between the blanks at either end, and there is only one such stretch |
| `JsTextProofs.DecimalExactly` | src/workflow/steps/apply-patch.step.ts:52-58 | Numbers in names are decimal, with no zero in front |
| `HitlTopic.EscalationIdsAgreeExactly` | src/workflow/dbos/intentWorkflow.ts:80-86 | Two gates share an escalation workflow exactly when the colon between workflow id and gate key can be read in two places |
| `GateView.ViewFollowsExchange` | src/server/gate-view.ts:6-33 | In every world a run can be found in, even mid-call, the projected state is that of some number of calls made, within one of the log's |
| `GateView.CausesComeFirst` | src/workflow/wf/hitl-gates.ts:73-222 | In every world a run of a fresh gate can be found in: no result without the gate row, no audit entry without a result, no decision without an audit entry, no escalation but of a timed-out gate, and no decision on such a gate before its escalation |
| `GateView.StateNeverGoesBack` | src/server/gate-view.ts:14-19 | The projected state only moves pending, received, resolved or pending, timed out; a timed-out gate is never shown as resolved |
| `EditDistance.EditDistance` | src/eval/runner.ts:40-57 | The two-row loop with both early exits returns the distance when it is within the bound and a number above the bound when it is not; for a negative bound, its value on equal texts too |
| `EditDistance.FillRow` | src/eval/runner.ts:46-54 | The inner loop turns row i-1 into row i of the distance table and returns a lower bound of it |
| `EditDistance.DistanceIsEditDistance` | src/eval/runner.ts:40-57 | The recurrence is the cost of a cheapest script of keeps, substitutions, insertions and deletions, and no other number is |
| `EditDistance.RowsStayAbove` | src/eval/runner.ts:53-53 | A row that is above the bound throughout keeps every later row above it: the row-minimum exit is sound |
| `EditDistance.LengthsApart` | src/eval/runner.ts:42-42 | The distance is at least the length difference: the first exit is sound |
| `EditDistance.DistanceSymmetric` | src/eval/runner.ts:40-57 | The distance does not depend on which text is first |
| `EditDistance.EvaluateDiff` | src/eval/runner.ts:133-154 | A `diff_le` check on two artifacts passes exactly when some script turns the one's stable text into the other's at no more than the unrounded bound, and for two strings exactly when one turns the strings themselves into each other; a missing artifact fails it |
| `EditDistance.EqualArtifactsMatch` | src/eval/runner.ts:25-28 | Artifacts equal up to member order are no edits apart, under a collation that tells keys apart |
| `EditDistance.ZeroApartExactly` | src/eval/runner.ts:25-28 | No edits apart means: one value up to member order, one string, or a string that is the other's canonical text |
| `EditDistance.DiffSymmetric` | src/eval/runner.ts:133-154 | Swapping the two artifacts changes neither the verdict nor a passing distance |
| `Glob.CompiledGlobKeepsMeaning` | src/eval/runner.ts:17-23 | The three replacements give a pattern that reads back, and it tests true on exactly the strings the glob matches |
| `Glob.EscapedStep` | src/eval/runner.ts:17-23 | The passes work unit by unit: none disturbs what another put in |
| `Glob.ReadCompiled` | src/eval/runner.ts:17-23 | The pattern grammar reads the compiled text as one term per glob unit |
| `Glob.TermsMatchAsGlob` | src/eval/runner.ts:17-23 | Those terms match from a position on exactly when the glob matches the rest of the string |
| `Glob.CompiledGlobSplits` | src/eval/runner.ts:17-23 | The pattern accepts a string exactly when the string cuts into one stretch per glob unit: any run free of line terminators for a star, one such unit for a question mark, the unit itself otherwise |
| `Glob.FileExistsExactly` | src/eval/runner.ts:69-79 | A `file_exists` check passes exactly when some indexed URI cuts along the glob |
| `CanonicalJsonProofs.ParseUndoesCanonicalize` | src/lib/hash.ts:14-31 | A JSON reader (RFC 8259) gives back from the canonical text the same tree with its members sorted |
| `CanonicalText.PrintedInOrder` | src/lib/hash.ts:21-24 | What is read back has the keys of every object, however deep, in the collation's order |
| `CanonicalText.CanonicalIsCompact` | src/lib/hash.ts:14-31 | Canonical text has no blank outside its strings |
| `CanonicalText.UnitPrintedExactly` | src/lib/hash.ts:16-16 | A unit of a string is printed as itself unless it is a control, a quote, a backslash or a lone surrogate, as a two-unit escape where there is one, and otherwise as a lower-case `\u` escape |
| `CanonicalText.PairPrintedAsIs` | src/lib/hash.ts:16-16 | A surrogate pair is printed as it is |
| `CanonicalText.EscapeJoins` | src/lib/hash.ts:16-16 | Printing runs along the string: it may be cut anywhere but inside a surrogate pair |
| `CanonicalJsonTheorems.SortedMeansSame` | src/lib/hash.ts:21-24 | Sorting members all the way down changes no value |
| `CanonicalJsonTheorems.SameTextSameMeaning` | src/lib/hash.ts:14-35 | Two values with one canonical text are equal up to member order, with no assumption on the collation |
| `CanonicalJsonTheorems.SameMeaningSameText` | src/lib/hash.ts:14-35 | Values equal up to member order print the same text if no object has two keys that compare equal |
| `CanonicalJsonTheorems.TyingKeysPrintInOrder` | src/lib/hash.ts:21-21 | Any two keys the collation does not tell apart give one object two canonical texts |
| `CanonicalJsonTheorems.TextIsIdentityExactly` | src/lib/hash.ts:14-35 | Equal text and equal value up to member order are the same thing, for all values, exactly when the collation tells every two keys apart |
| `CanonicalJsonTheorems.CanonicalIsUnicode` | src/lib/hash.ts:14-31 | Canonical text holds no lone surrogate, whatever strings it prints |
| `CanonicalJsonTheorems.DigestsAgreeExactly` | src/lib/hash.ts:41-44 | Under a hash injective on bytes, two inputs share a digest exactly when they are strings equal after replacing lone surrogates, values equal up to member order, or a string that, so replaced, is the other value's canonical text |
| `Utf8.BytesAgreeExactly` | src/lib/hash.ts:43-43 | Two strings are hashed as the same bytes exactly when they are equal after replacing lone surrogates |
| `Utf8.EncodedWell` | src/lib/hash.ts:43-43 | Each scalar is written in the shortest form of RFC 3629 section 3, and reads back |
| `Utf8.HashesAgreeExactly` | src/lib/hash.ts:41-44 | So under a hash injective on bytes they have one digest in exactly that case |
| `Utf8.LoneSurrogatesCollide` | src/lib/hash.ts:43-43 | All lone surrogates have one digest, whatever the hash |
| `StableSort.SortIsStable` | src/lib/hash.ts:21-21 | Sorting keeps the order of items whose keys compare equal |
| `StableSort.SortsAgreeExactly` | src/workflow/steps/save-artifacts.step.ts:171-171 | Two lists sort to one list exactly when items with equal keys stand in the same order in both |
| `PatchTheorems.RestoredExactly` | src/workflow/steps/run-intent.steps.ts:254-266 | For every plan: apply until it ends, then roll back until it ends, restores every file under every list of deaths exactly when the plan settles, that is when every image a path gets is its original content or what its first patch writes |
| `PatchTheorems.RestoredWhenReadyExactly` | src/workflow/steps/run-intent.steps.ts:254-266 | Whatever cut apply short, deaths, throws or a mismatch, rollback then restores every file exactly when each file holds an image of its last live patch, or its original content if it has none, between the two phases |
| `PatchTheorems.SettledIsRestored` | src/workflow/steps/apply-patch.step.ts:30-69 | A plan that settles is carried out to its end, or to its first forbidden path, under any deaths, and then undone on every file |
| `PatchArtifacts.StepRestoresExactly` | src/workflow/steps/apply-patch.step.ts:30-69 | The same for the step with the artifacts it writes |
| `PatchArtifacts.TrailIsComplete` | src/workflow/steps/apply-patch.step.ts:36-64 | Whatever died when, a plan that settles is undone and leaves one artifact for each of its patches and no other; each says, under its own digest, the patch's index and path and the hashes of what the plan's earlier patches left there, of its postimage and of its diff |
| `PatchArtifacts.AppliedExactly` | src/workflow/steps/apply-patch.step.ts:30-69 | Whatever died or threw, an apply that got through its patches leaves every path with the postimage of the last patch on it, or as it was |
| `PatchArtifacts.ExpectedExactly` | src/workflow/patch/reversible.ts:29-49 | Each row of the history holds its patch's path, what the earlier patches left there, its postimage, and the hashes of these and of its diff |
| `PatchTheorems.UnsettledRerunFails` | src/workflow/patch/reversible.ts:50-59 | For every other plan there are deaths, and nothing but deaths, that a first run reaches, after which the re-run stops with PREIMAGE_MISMATCH in a state rollback cannot restore |
| `PatchTheorems.RerunLosesReadiness` | src/workflow/patch/reversible.ts:50-62 | The input for it: a five-patch plan, all written and marked, dead before its last artifact with the files ready; the re-run writes one file, stops with PREIMAGE_MISMATCH at patch 1, and the files are not ready |
| `PatchTheorems.ThrowInFirstRunExactly` | src/workflow/patch/reversible.ts:29-64 | When any statement of patch k throws in a first run, the file write included, rollback restores every file, except exactly where the throw fell between write and mark and the write did not bring back what the last live patch on the path replaced |
| `PatchTheorems.UnwrittenIsReady` | src/workflow/patch/reversible.ts:61-61 | Stopped before the write of patch n, its row stored or not, the files are ready to be rolled back |
| `PatchRuns.WholeRunKeeps` | src/workflow/steps/apply-patch.step.ts:30-69 | One run of the loop, from any state the phase can be in and under any fates: it finishes the plan, stops at the first forbidden path, stops with a mismatch at a patch stuck since the run began, or is cut short within the phase's invariant; artifacts never diverge |
| `PatchRuns.ApplyRunsKeep` | src/workflow/steps/apply-patch.step.ts:30-69 | The loop re-run from patch 0 as often as it dies leaves, where it completes, exactly the files and history of the uninterrupted run; a mismatch needs a plan that does not settle |
| `PatchRuns.PatchRunSteps` | src/workflow/patch/reversible.ts:29-64 | Every state one call can leave behind, cut short before any statement or not |
| `PatchRuns.UndoFromKeeps` | src/workflow/steps/run-intent.steps.ts:254-266 | One rollback run: a death keeps the files as ready, or unready, as they were; a finished one counts the live rows it undid |
| `PatchRuns.RollbackRestoresExactly` | src/workflow/steps/run-intent.steps.ts:254-266 | Rollback re-run as often as it dies restores every file exactly when the files were ready when it began |
| `PatchRuns.RollbackMarksExactly` | src/workflow/steps/run-intent.steps.ts:254-266 | A rollback that completes, however often it died, has marked exactly the live rows and changed nothing else in the history; one stopped by a mismatch has marked some of them and changed nothing else |
| `Patches.Workspace.ApplyThenRollBack` | src/workflow/steps/run-intent.steps.ts:254-266 | The two phases on files and tables: every file is back exactly when the files were ready in between; they are when the plan was carried out to its end, and it is whenever it settles and nothing throws |
| `Patches.Workspace.ApplyUntilItEnds` | src/workflow/steps/apply-patch.step.ts:30-69 | Runs the loop until it does not die: outcome and state are those of the run function, for the given fates |
| `Patches.Workspace.RollBackUntilItEnds` | src/workflow/steps/run-intent.steps.ts:254-266 | Runs the rollback until it does not die, likewise |
| `Patches.Workspace.Execute` | src/workflow/steps/apply-patch.step.ts:30-69 | The loop leaves exactly the outcome and state the fates determine |
| `Patches.Workspace.ApplyReversiblePatch` | src/workflow/patch/reversible.ts:29-64 | One patch, statement by statement, leaves exactly the outcome and state the fates determine |
| `Patches.Workspace.RollbackAppliedPatches` | src/workflow/steps/run-intent.steps.ts:254-266 | The reverse loop with its counter, likewise |
| `Patches.Workspace.RollbackReversiblePatch` | src/workflow/patch/reversible.ts:66-90 | One patch undone, or POSTIMAGE_MISMATCH with the files untouched, likewise |
| `Patches.Workspace.InsertPatchHistory` | src/db/patchHistoryRepo.ts:32-65 | The first writer's row is stored and given back to every later writer |
| `Patches.Workspace.InsertArtifact` | src/db/artifactRepo.ts:13-68 | Insert if absent, otherwise compare digest and URI and refuse if either differs |
| `PatchProofs.LoopStep` | src/workflow/steps/apply-patch.step.ts:32-64 | What one patch call does to the loop's invariant in each of its outcomes |
| `PatchProofs.SettlingNeverSticks` | src/workflow/patch/reversible.ts:50-59 | If a plan settles, no state the phase can be in makes a re-run stick |
| `PatchProofs.DistinctPathsSettle` | src/workflow/patch/reversible.ts:50-59 | Plans with pairwise different target paths settle |
| `PatchProofs.ApplyingIsChained` | src/db/patchHistoryRepo.ts:32-65 | Whatever state the apply phase is cut short in, each recorded preimage is what the patches before it leave |
| `PatchProofs.CompletedIsReady` | src/workflow/steps/apply-patch.step.ts:30-69 | A run that got through its rows leaves the plan's files, ready to be rolled back |
| `PatchProofs.UndoKeepsReadiness` | src/workflow/patch/reversible.ts:77-89 | Undoing the last live patch keeps the files as ready, or as unready, for the rest |
| `PatchProofs.UnmarkedWriteIsReadyExactly` | src/workflow/patch/reversible.ts:61-62 | Cut short between writing and marking, the files are ready exactly when the write changed nothing or brought back the preimage of the last live patch on the path |
| `LedgerProofs.RowsAreWriteOnce` | src/db/humanGateRepo.ts:134-208 | Over any interleaving of any number of callers, one row per key, and a row once there never changes |
| `LedgerProofs.ReturnsOwnRow` | src/db/humanGateRepo.ts:134-208 | Every caller that returns holds the stored row of its own key, that is of its workflow, dedupe key and topic in normal form, with its own payload hash, unless it sent past the ledger; a row is never lost between insert and read |
| `LedgerProofs.OneInserterPerNewRow` | src/db/humanGateRepo.ts:160-186 | Each new row was inserted by exactly one caller and holds its payload, and nobody claims a row that was there before |
| `LedgerProofs.HumanSlotHasOneRow` | src/server/ui-api.ts:508-523 | On human topics a workflow, a gate and a dedupe key identify one row |
| `LedgerDelivery.DeliveredExactly` | src/workflow/engine-dbos.ts:44-76 | Over any interleaving of replies, events and bare sends on any topics, whoever returns from sending finds a message under its workflow and dedupe key, and it is its own exactly when the first to send under them sent the same topic and payload |
| `LedgerDelivery.AlwaysDeliveredExactly` | src/server/ui-api.ts:175-227 | From an empty ledger, every message whose sender returns is delivered under every interleaving exactly when any two senders with valid gates under one workflow and dedupe key send one message, or write one row with different payloads, so that one is refused |
| `LedgerDelivery.NormalCompatible` | src/lib/hitl-topic.ts:30-33 | With human topics in normal form, two such senders meet the condition exactly when they write one row or send one message |
| `LedgerDelivery.CrossGatePostIsLost` | src/server/ui-api.ts:478-530 | Two replies or events to different gates of a workflow under one dedupe key, one after the other: both are recorded and reported as new, and the second is never delivered |
| `LedgerDelivery.RacedPostIsLost` | src/server/ui-api.ts:175-227 | The same on one gate with two topics, as for an event and a reply, when one checks for drift before the other writes |
| `LedgerDelivery.NeverThrowsExactly` | src/db/humanGateRepo.ts:152-206 | From an empty ledger, a caller is refused under no interleaving exactly when it writes no row, or a valid one and everyone writing to its slot writes its topic and payload hash |
| `LedgerDelivery.EqualRepliesDeliverOnce` | src/server/ui-api.ts:508-530 | Equal messages sent at once into a fresh slot, whatever else is sent elsewhere: none fails, and once one has returned a message has been sent under their keys and exactly one of those who write their row is the non-replay |
| `LedgerDelivery.MailHoldsFirstSent` | src/workflow/engine-dbos.ts:75-75 | The mail keeps what it held under a slot, and otherwise what the first sender sent |
| `LedgerProofs.TopicDriftCanBeRaced` | src/db/humanGateRepo.ts:134-160 | Off human topics two callers differing only in topic conflict one after the other but both store a row when interleaved |
| `LedgerProofs.TwoRowsExactly` | src/db/humanGateRepo.ts:152-184 | Some interleaving of two writers stores two rows in one slot exactly when their slots agree and their topics, as stored, differ |
| `LedgerProofs.SevenTurnsFinish` | src/workflow/engine-dbos.ts:44-76 | No caller waits for another: seven statements of its own finish any of them |
| `Ledger.Service.TakeTurn` | src/db/humanGateRepo.ts:134-208 | One statement of one caller, run on the tables, is the step the interleavings are made of |
| `Ledger.Service.TakeTurns` | src/db/humanGateRepo.ts:134-208 | Any schedule of statements on the tables is the interleaving the theorems speak of |
| `HitlTopic.NormalFormExactly` | src/lib/hitl-topic.ts:7-22 | A text is its own normal form exactly when it is a gate key without a double dash |
| `HitlTopic.SlugExactly` | src/lib/hitl-topic.ts:7-22 | Normalizing keeps the words of the trimmed text in lower case and puts one dash wherever anything else stands between them or at an end, and is the only text of key units that does; it fails unless that has 1 to 128 units and begins with a letter or digit |
| `HitlTopic.NormalizeIsIdempotent` | src/lib/hitl-topic.ts:16-22 | Normalizing twice is normalizing once |
| `HitlTopic.HumanTopicCarriesGate` | src/lib/hitl-topic.ts:30-33 | Cutting the prefix off a human topic and normalizing gives back the gate, and its topic is the same topic |
| `ChildSessionGuard.Search.FindForbiddenKey` | src/oc/child-session-guard.ts:9-38 | The depth-first search with a visited set, on any heap with sharing and cycles, returns only reachable forbidden keys and, finding none, leaves a visited set closed but for the calls still open |
| `ChildSessionGuard.SettledIsComplete` | src/oc/child-session-guard.ts:22-28 | The visited-set cut-off loses nothing: a value whose references are all settled reaches no forbidden key |
| `ChildSessionGuard.AssertNoChildSession` | src/oc/child-session-guard.ts:40-47 | The guard denies with a key that is reachable and spells "parentid" or "parentsessionid", and lets through exactly the values that reach none |
| `ChildSessionGuard.ForbiddenExactly` | src/oc/child-session-guard.ts:3-7 | A key is forbidden exactly when units of it, in order, read as the letters of "parentid" or "parentsessionid" in either case and every other unit has no ASCII letter or digit in its lower case |
| `ChildSessionGuard.AnySpellingIsDenied` | src/oc/child-session-guard.ts:3-7 | So the words in any case with anything but ASCII letters and digits in between are denied: parentID, parent_id, Parent-Session-Id |
| `ReproScope.DiscoverWorkflowScope` | src/lib/repro.ts:79-134 | Each id once, and exactly the ids reachable from workflow, task keys and escalations along parent-to-child rows, cycles included; only the seeds where the table or a column is missing |
| `ReproScope.CollectSeeds` | src/lib/repro.ts:85-94 | The seeds: the workflow, the non-empty task keys, the escalation id of each non-empty gate key |
| `ReproScope.ClosedHoldsScope` | src/lib/repro.ts:116-131 | A set with the seeds and every child of its members holds the whole scope |
| `RecipeStoreProofs.RunKeepsInv` | src/db/recipeRepo.ts:58-245 | Over any sequence of imports, marks and promotions, from an empty or a migrated database: specs and hashes never change, status only rises, every stable version that did not come with the migration has an eval and a fixture, fixtures are those the version lists, and the active version is stable and, unless it came with the migration, has its spec as the stored one |
| `RecipeStoreProofs.MigratedIsFine` | db/migrations/022_recipe_versions.sql:12-43 | The migrated recipes, stable without eval or fixture and under hashes of another kind, are such a starting point |
| `RecipeStoreProofs.PromotesExactly` | src/db/recipeRepo.ts:114-226 | Promotion returns true exactly when `canPromoteStable` holds and no other recipe has the name; it returns false exactly when `canPromoteStable` fails |
| `RecipeTheorems.PromotedExactly` | src/db/recipeRepo.ts:114-210 | After a promotion `findStable` gives the version promoted, with its spec in the recipe row; a recipe's name and table version are as they were, or the spec's and 1; nothing else has changed |
| `RecipeTheorems.ActiveIsLastPromoted` | src/db/recipeRepo.ts:58-245 | Over any sequence of operations a recipe's active version is the one promoted last, stable and with its spec, and its row is as it was if none was |
| `RecipeTheorems.ImportsExactly` | src/db/recipeRepo.ts:58-102 | A version can be imported exactly when it is new and lists no fixture id with two forms, or is there with the same spec and not yet stable |
| `RecipeTheorems.ImportedAsDrafts` | src/db/recipeRepo.ts:228-245 | A bundle's versions are all there afterwards, the new ones as drafts under their digests; versions and recipes there before are as they were |
| `RecipeTheorems.MarkedExactly` | src/db/recipeRepo.ts:104-112 | A draft becomes a candidate, nothing else does, and nothing else changes |
| `RecipeStoreProofs.SecondOfOneNameThrows` | db/migrations/003_recipes.sql:1-11 | So the two disagree: of two recipes of one name, imported and marked, the second to be promoted throws though `canPromoteStable` holds |
| `RecipeStoreProofs.HashNeverTaken` | src/db/recipeRepo.ts:58-102 | The constraint on recipe and hash never fires: equal digests are equal specs, version included |
| `RecipeStoreProofs.FixturesCounted` | src/db/recipeRepo.ts:218-226 | A version has a fixture in the table exactly when its spec lists one |
| `RecipeStore.Store.ImportAll` | src/db/recipeRepo.ts:228-245 | A bundle is stored whole or leaves the tables as they were |
| `RecipeStore.Store.InsertRecipeFixtures` | src/db/fixtureRepo.ts:15-44 | The insert-and-compare loop stores each absent fixture and stops at the first that differs |
| `RecipeStore.Store.MarkAsCandidate` | src/db/recipeRepo.ts:104-112 | Marks exactly the drafts |
| `RecipeStore.Store.PromoteToStable` | src/db/recipeRepo.ts:114-190 | Promotes, refuses, or throws; only the first changes the tables, and then the version is stable and active with its spec |
| `IntentTemplateProofs.InstantiateAgrees` | src/intent-compiler/instantiate-intent.ts:92-110 | Requests whose form data and stored recipe agree up to member order both fail or give intents equal up to member order, through defaults, rendering and the step library |
| `IntentTheorems.InstantiatesExactly` | src/intent-compiler/instantiate-intent.ts:92-110 | There is an intent exactly when the template renders, the contract accepts what it renders to, and the constraints name a non-empty list of primitives or no library; it is the rendered template with that list, or all eight, in place of the library |
| `IntentTheorems.FieldSaysFormOrDefault` | src/intent-compiler/instantiate-intent.ts:21-57 | A template field anywhere outside the step library that is one hole on a form key means, in the intent, what the form has under the key, or else its declared default; where neither is there is no intent |
| `IntentTheorems.SchemaIsFilledIn` | src/intent-compiler/instantiate-intent.ts:92-96 | Instantiating with a schema is instantiating without one, the form completed by the declared defaults |
| `IntentTheorems.RendersExactly` | src/intent-compiler/instantiate-intent.ts:48-90 | A template renders part by part: a whole hole to what its path finds, any other string with its holes replaced, everything else as it is |
| `IntentTheorems.RendersIfAnything` | src/intent-compiler/instantiate-intent.ts:48-90 | Rendering fails only for a template nothing can be a rendering of |
| `IntentTheorems.TextOfValue` | src/intent-compiler/instantiate-intent.ts:58-66 | In a longer text a string is itself, another scalar its JSON text, an array its items' texts with commas between, a null item nothing, and an object "[object Object]" |
| `IntentTheorems.IntentHashTells` | src/server/ui-api.ts:268-271 | Two requests get one intent hash exactly when their intents are equal up to member order |
| `IntentTemplateProofs.IntentHashIgnoresOrder` | src/server/ui-api.ts:268-271 | They get the same intent hash |
| `IntentTemplateProofs.FillDefaultsMeans` | src/intent-compiler/instantiate-intent.ts:21-36 | Filling defaults amounts to a map union in which the form wins, whatever the order of properties |
| `IntentTemplateProofs.RenderAgrees` | src/intent-compiler/instantiate-intent.ts:48-90 | Equal templates over equal scopes both fail to render or render to equal values |
| `IntentTemplateProofs.ReparseMeansSame` | src/intent-compiler/instantiate-intent.ts:17-19 | Printing a value canonically and parsing it back changes no meaning |
| `IntentTemplate.ApplySchemaDefaults` | src/intent-compiler/instantiate-intent.ts:21-36 | The loop fills in the defaults of the properties the form lacks, and nothing else |
| `IntentTemplate.ReadPath` | src/intent-compiler/instantiate-intent.ts:38-46 | The loop follows the path's segments, undefined at the first that is missing |
| `SaveArtifacts.Saver.SaveUntilItEnds` | src/workflow/steps/save-artifacts.step.ts:60-226 | Re-run after any number of deaths, with results that save the same rows, a save ends as one undisturbed run would: every row stored, or the rows below the first that clashed before it began, and a divergence naming it |
| `SaveArtifacts.Saver.Execute` | src/workflow/steps/save-artifacts.step.ts:60-226 | One run stores a prefix of its rows, the index first; it diverges exactly at a row whose place holds another digest or URI |
| `SaveArtifacts.Saver.InsertArtifact` | src/db/artifactRepo.ts:13-68 | Insert if absent, then compare digest and URI; it diverges exactly when either differs, changing nothing |
| `SaveArtifactsProofs.SavedWell` | src/workflow/steps/save-artifacts.step.ts:171-223 | A finished save: rows 1 to n with no gap, ordered by URI, each artifact once, and an index at row 0 listing exactly those rows in order |
| `SavedContents.SaveSays` | src/workflow/steps/save-artifacts.step.ts:60-226 | What a finished save holds, said of the result: a row for each stream, file, payload, metrics and boot diagnostics and no others, in the order of their URIs, each with its contents and their digest; and the index, under its digest, with provider, payload URI, and kind, URI and digest of each row in that order |
| `SavedContents.BootIsRead` | src/workflow/steps/save-artifacts.step.ts:142-170 | There are boot diagnostics exactly when the payload has a template object or a boot time; they hold the time if it is a number and the template's five fields that are strings, and nothing else |
| `SavedContents.OtherRowsStay` | src/db/artifactRepo.ts:13-68 | Rows under any other run, step, task or attempt are as they were |
| `SaveArtifactsProofs.FileOrderIgnoredExactly` | src/workflow/steps/save-artifacts.step.ts:103-171 | For files with different paths, every order of `filesOut` saves the same rows exactly when no two files tie under both sorts |
| `SaveArtifactsProofs.RerunAcceptedExactly` | src/db/artifactRepo.ts:42-57 | Once a first row is stored, another result is let through exactly when its index is the same: provider, and kind, URI and digest of each artifact in order |
| `SaveSchedules.OneIndexWins` | src/db/artifactRepo.ts:13-68 | Any number of processes saving one task at once, statement by statement in any interleaving: once a row is there one index has won, and what is stored is a prefix of its rows; a saver is refused only at the index and only if its own differs, having stored nothing; one that has finished has the same index and finds all its rows |
| `SaveSchedules.NeverRefusedExactly` | src/db/artifactRepo.ts:42-57 | A saver is refused under no interleaving exactly when everyone saving its task has its index |
| `SaveSchedules.EqualSaversFinish` | src/workflow/steps/save-artifacts.step.ts:192-226 | Among savers of one index, whoever gets two statements a row finishes, and then every row is in its place and no other is there |
| `SaveSchedules.TurnsAreOneInsert` | src/db/artifactRepo.ts:13-68 | A saver undisturbed between its insert and its read makes one insert, as a lone save does |
| `SaveArtifactsProofs.StoredRowsArePrefix` | src/workflow/steps/save-artifacts.step.ts:206-223 | However far a save got, the stored rows are exactly the first n |
| `ArtifactUri.ParseOfBuildExactly` | src/lib/artifact-uri.ts:14-37 | Parsing a built URI gives its parts back exactly when run, step and task ids hold no slash; the name may be anything |
| `ArtifactUri.BuildOfParse` | src/lib/artifact-uri.ts:14-37 | Every accepted URI is the one built from its parts |
| `ArtifactUri.BuildSplits` | src/lib/artifact-uri.ts:35-37 | After the scheme: run, step and task, each with its id, and then the name |
| `RunStoreProofs.RunsAreWriteOnce` | src/db/runRepo.ts:90-171 | Over any interleaving of inserts and updates, a stored run stays, one per id and per workflow, and its identity never changes |
| `RunStoreProofs.CounterBalances` | src/workflow/steps/run-intent.steps.ts:401-428 | In any interleaving, departures from a terminal state are paid for by increments, and the retry count grows by the increments less what late second halves take back |
| `RunSchedules.LosesNowhereExactly` | src/workflow/steps/run-intent.steps.ts:401-428 | In any interleaving, every second half writes back the count it finds exactly when no increment of the run falls between the two halves of another caller |
| `RunSchedules.DeparturesArePaidFor` | src/workflow/steps/run-intent.steps.ts:401-428 | In every such interleaving departures from a terminal state never exceed the growth of the retry count, which is exactly the number of increments |
| `RunSchedules.OneByOneIsPaidFor` | src/workflow/steps/run-intent.steps.ts:401-428 | In particular with every `updateOps` atomic |
| `RunSchedules.AlwaysCountsExactly` | src/workflow/steps/run-intent.steps.ts:401-428 | The count grows by the increments under every interleaving exactly when at most one of the callers increments it |
| `RunStoreProofs.InterleavedHalvesLoseAnIncrement` | src/workflow/steps/run-intent.steps.ts:401-428 | Without atomicity this fails: two departures, and the count one higher |
| `RunStoreProofs.TurnLeavesExactly` | src/db/runRepo.ts:188-231 | A statement takes a run out of a terminal state exactly when it is the second half of an incrementing `repairing` update |
| `RunStore.NoDriftExactly` | src/db/runRepo.ts:30-88 | No drift field exactly when the two requests are the same run, budgets compared up to member order |
| `RunStore.DriftNamesExactly` | src/db/runRepo.ts:30-88 | The drift names exactly the fields that differ |
| `RunStore.Runs.InsertRun` | src/db/runRepo.ts:90-171 | Inserted exactly when workflow and id are free; otherwise the stored run of the workflow without drift, the drift, or the id conflict, and no change |
| `RunStore.Runs.UpdateRunStatus` | src/db/runRepo.ts:173-186 | The status is set unless it would take the run out of a terminal state; no other row or column changes |
| `RunStore.Runs.UpdateRunOps` | src/db/runRepo.ts:188-232 | Each given column and no other gets its value; a terminal status yields to `repairing` only with a retry count |
| `RunStore.Runs.UpdateOps` | src/workflow/steps/run-intent.steps.ts:401-428 | The two statements in a row: the count goes up by one exactly if asked to, and only then may `repairing` leave a terminal state |
| `CustomEngineProofs.EnginesKeepInv` | src/workflow/engine-custom.ts:157-247 | Any number of engines, crashing anywhere and with statements that reject before or after taking effect: each mark at most once, s2 only with s1, s1 exactly with step1_done, completed exactly with step2_done and then both marks, and nothing done is undone |
| `CustomEngineProofs.MarksFollowRows` | src/workflow/engine-custom.ts:157-247 | From empty tables, whatever happens: one s1 mark exactly for a run with step1_done, and the s2 marks lie between completed and s1 |
| `CustomEngineProofs.UndisturbedEngineFinishes` | src/workflow/engine-custom.ts:165-189 | An engine left alone takes no more steps than its work weighs, and what it had in hand is complete once it has no task, unless a statement of that run rejected, whatever other engines do |
| `CustomEngineProofs.AdvanceLightens` | src/workflow/engine-custom.ts:165-189 | Every step lightens its engine and no other |
| `CustomEngineProofs.ResumeAndDrain` | src/workflow/engine-custom.ts:84-91 | A resume without a crash, its tasks driven in any order, completes every run there is |
| `CustomEngine.Cluster.TakePhase` | src/workflow/engine-custom.ts:191-247 | The first transaction: first mark and flag together, done exactly when the second step is |
| `CustomEngine.Cluster.ResumeIncomplete` | src/workflow/engine-custom.ts:84-91 | Afterwards the engine runs what it ran and every incomplete row, and nothing else has changed |
| `CustomEngine.Cluster.TakeTurn` | src/workflow/engine-custom.ts:165-189 | One statement of one task, on the tables, is the step the runs are made of |
| `CustomEngine.Cluster.RejectTurn` | src/workflow/engine-custom.ts:157-163 | One that rejects ends its run and frees the id, whether or not the statement took effect |
| `MapLimit.MapLimit` | scripts/hitl-soak-core.ts:182-203 | Whichever worker is woken next, the result is the pointwise map in input order, each index is handed out once and in order, and no more calls are in flight than the capped limit |
| `MapLimit.Pool.Resume` | scripts/hitl-soak-core.ts:192-199 | A worker's stretch between two awaits keeps every index below the cursor stored or in exactly one worker's hands, stored and in flight adding up to the cursor, and brings the end nearer |
| `DecisionPayloadProofs.RationaleExactly` | src/workflow/hitl/decision-payload.ts:36-44 | The rationale is the string in the first of `rationale`, `reason`, `note` and `notes` that holds one, and none exactly if none does |
| `DecisionPayloadProofs.HoldsExactly` | src/workflow/hitl/decision-payload.ts:7-12 | With distinct keys, what a reply is read to hold under a key is what it lists there |
| `DecisionPayloadProofs.ReplyOrderIgnored` | src/workflow/hitl/decision-payload.ts:21-44 | Replies equal up to member order resolve to the same choice and rationale |
| `DecisionPayloadProofs.SilenceIsNo` | src/workflow/hitl/decision-payload.ts:3-44 | A reply that is no object, or has none of the fields, is a no without rationale |
| `TemplateHoles.HoleAtExactly` | src/intent-compiler/instantiate-intent.ts:50-58 | The hole pattern matches at the head of a text exactly when the text is two braces, blanks, a path, blanks, two braces and a rest; path and rest are determined |
| `TemplateHoles.TextBetweenHolesStays` | src/intent-compiler/instantiate-intent.ts:58-66 | Text in which no hole starts is copied |
| `TemplateHoles.HoleIsReplaced` | src/intent-compiler/instantiate-intent.ts:58-66 | A hole becomes the text of what its path finds; a path that finds nothing fails the whole text |
| `TemplateHoles.WholeHoleIsValue` | src/intent-compiler/instantiate-intent.ts:50-57 | A text that is one whole hole renders exactly when its path finds something, and then to a value equal to it up to member order, a number as a number and an object as an object |
| `RunStoreProofs.TwoTurnsAreOneUpdate` | src/workflow/steps/run-intent.steps.ts:401-428 | A caller's two statements in a row are one `updateOps` |
| `CustomEngineProofs.EngineCanFinish` | src/workflow/engine-custom.ts:165-189 | From any reachable state, an engine's own steps alone, no more than its work weighs, complete all it has in hand |
| `CustomEngine.Cluster.StartCrashDemo` | src/workflow/engine-custom.ts:76-82 | The row is there and the run is scheduled, both only if they were not |
| `SaveArtifactsProofs.SavedUrisDiffer` | src/workflow/steps/save-artifacts.step.ts:77-190 | Files with different paths give every stored row, the index included, a URI of its own |
| `StableSort.PermutedKeysDiffer` | src/lib/hash.ts:21-21 | Whether keys differ does not depend on order, so sorting an object's members keeps its keys distinct |

## Left out

- HTTP server, routes, React components, command-line tools, load and policy scripts: input and output only.
- The parent workflow `src/workflow/wf/run-intent.wf.ts`, the DBOS SDK, Postgres, the sandbox providers and the OpenCode client: what is used of them is the durable log, tables with unique keys, and a keyed send that has no effect the second time.
- `OCWrapper`: failed calls are kept under the key of the call and come back as outputs, so there is no cached-reply law to prove.
- The `jsonschema`, `regex` and `rowcount_ge` eval checks: two rest on library engines, the third is one comparison. The order and shape of the result list, fixture normalization and flake hashes are left out with them.
- Patterns: the reader covers what compiled globs can contain (single units, escapes, `.`, quantifiers, anchors), not groups, classes or alternatives; a pattern outside it counts as unreadable.
- `toJsonValue`: dropping `undefined` members and functions, and errors on cyclic values, come before the JSON trees modelled here.
- Ajv contracts: an intent contract is any predicate on order-free values; the others appear only as typed parameters. `assertArtifactIndex` is not modelled.
- `wasPromptEmitted`'s fallback when a table is missing: it only answers whether the prompt event exists.
- A human reply that is JSON `null` counts as a timeout, as in the source. `approve`'s fixed form is a parameter.
- The ledger table is in insertion order, which stands for `created_at`; two rows with one timestamp are not modelled. The services' checks of run status and gate row come before the ledger and are not modelled; their own drift check after the insert repeats the repository's. A send without a dedupe key, as the workflow makes to itself for a legacy approval, is always delivered and is not modelled; an empty dedupe key is refused by the contracts.
- Patches: each run's history is a sequence because indexes are handed out in order, and timestamps are flags. A statement that throws has no effect (one that takes effect first is one whose successor throws). A throw in the rollback phase counts as a death, after which it is run again; apply is not run again after it threw. Applying a patch again after it was rolled back is outside the theorems, as is any outside writer of the files. A file that is not UTF-8 is read with replacement characters and would be restored so. Whether a path leaves `.tmp` is given, not computed.
- Recipes: that no SHA-256 digest equals a migrated recipe's MD5 hash is taken as given. The sort of fixtures by id only orders inserts. Exports and listings only read.
- IntentTemplate.ReadPath: also finds, in the source, properties every JavaScript object inherits, such as `constructor`; the model's objects have none. Forms and recipes are JSON as parsed, without duplicate keys.
- Artifacts: `emitBudgetArtifact` is one insert. The configured provider stays the same between runs and processes.
- Runs: overflow of the `INTEGER` retry count, timestamps, and `startIntentRun`'s choice of ids.
- The custom engine: `takePhase`'s insert for a missing row is part of one atomic transaction, so the unique violation of two such inserts at once is not modelled; the sleep is the gap between two steps. Reads such as `waitUntilComplete` are left out.
- `mapLimit`: a worker that rejects. The worker function is a function of item and index.
- `mergeRunHeaderStatusWithDbos`, `sortRows`, rank and status tables, sign-off tiles and dashboards: lookups and orderings.
