# renaissance task store and outline utilities in Dafny

This project models two parts of the renaissance repository.

- **The `spec` tool's task store.** A CODE_TASK holds an ordered list of E2E tasks, and every E2E task holds an ordered list of steps. Both lists are "linked lists in an array". Each node carries a 1-based `index` and `prev`/`next` pointers, which are numbers or the sentinels `'start'`/`'end'`. Nodes are always located by scanning for their `index`. The model covers:
  - the `step update` and `e2e update` commands (update, insert-after, delete, completion switch, batch creation, and the argument logic that chooses between them);
  - the completion queries and the auto-completion of an E2E task;
  - the validation of steps against an AST oracle.
- **The outline tool's code utilities.** The model covers:
  - the symbol search;
  - the extraction of code by a line/character range;
  - the symbol-kind and location formatters;
  - the minimal text model;
  - the detailed and compact layouts of the `read` command.

## Structure

The commands work on the task in place. So the task is a class, `TaskStore.Store`, whose E2E list is a field. Each command is a method that may modify only the store's `e2eTasks` field. Its postcondition says that the new list is what a pure function of the old list gives (`TaskStore.Committed`). On an error, nothing is written. The lemmas about those functions state what the commands promise.

The step list and the E2E list run the same algorithm on different records. It is written once, in `OrderedList`, over a generic node `Item<P>`. The renumber pass, the pointer writes and the batch append are methods with loops, each proved equal to a specification function. `ListInvariants` defines the two properties a well-formed list has:

- `Dense`: the indices are exactly 1..N;
- `Linked`: every pointer names the logical neighbour.

It then proves which operations keep these properties and which break them.

## Model

| member | source | states |
|---|---|---|
| Types.EffectiveStatus | spec/src/types.ts:43 | an absent status reads as PENDING, a present one as itself |
| Types.NonEmpty | spec/src/commands/step-update.ts:565-570 | an empty command-line string counts as not given; any other string is given unchanged |
| OrderedList.FindIndex | spec/src/commands/step-update.ts:61-63 | -1 exactly when no node has the index; otherwise the first storage position holding it |
| OrderedList.MaxIndex | spec/src/commands/step-update.ts:377-382 | the largest numeric index, 0 for none: never negative, bounds every numeric index, and is carried by some node when positive |
| OrderedList.SetNext | spec/src/commands/step-update.ts:258-265 | only the `next` of the first node with the given index changes; with no such node nothing changes |
| OrderedList.SetPrev | spec/src/commands/step-update.ts:268-275 | only the `prev` of the first node with the given index changes; with no such node nothing changes |
| OrderedList.ShiftAll | spec/src/commands/step-update.ts:209-219 | the renumber pass keeps length and records, and moves exactly the indices above the pivot |
| OrderedList.Renumber | spec/src/commands/step-update.ts:209-219 | the in-place renumber loop yields the renumber pass over the whole list |
| OrderedList.InsertAfter | spec/src/commands/step-update.ts:99-223 | fails exactly when the list is non-empty and lacks the anchor; otherwise one node is added, stored last, carrying the new record and index anchor+1 (1 in an empty list), and every old record stays in place |
| OrderedList.Insert | spec/src/commands/step-update.ts:148-222 | the step-by-step insert (scans, pointer writes, renumber, push) gives InsertAfter's result |
| OrderedList.DeleteItem | spec/src/commands/step-update.ts:242-293 | fails exactly when no node has the index; otherwise returns that node and a list one shorter whose records are the others in storage order |
| OrderedList.Remove | spec/src/commands/step-update.ts:242-291 | the step-by-step delete (relink, splice, renumber) gives DeleteItem's result |
| OrderedList.Unlink | spec/src/commands/step-update.ts:257-275 | relinking the neighbours changes pointers only: length, indices and records stay |
| OrderedList.Splice | spec/src/commands/step-update.ts:278 | removing one storage position keeps every other element, in order |
| OrderedList.Append | spec/src/commands/step-update.ts:376-426 | the batch append keeps every old index and record and stores the new records after them, in batch order |
| OrderedList.BatchAppend | spec/src/commands/step-update.ts:387-426 | repointing the old tail and pushing node by node gives Append's result |
| ListInvariants.DenseMax | spec/src/commands/step-update.ts:624-632 | in a dense list the largest index is the length, so the command's default anchor is the last node |
| ListInvariants.ShiftNothing | spec/src/commands/step-update.ts:209-219 | the renumber pass is the identity when no index is above the pivot |
| ListInvariants.InsertKeepsDense | spec/src/commands/step-update.ts:148-222 | on a dense list an insert after an existing index succeeds, stays dense, and moves exactly the nodes above the anchor up by one |
| ListInvariants.TailInsertKeepsLinks | spec/src/commands/step-update.ts:174-222 | inserting after the last node (or into an empty list) keeps a linked list linked |
| ListInvariants.TailInsertExtends | spec/src/commands/step-update.ts:174-222 | inserting after the last node adds node N+1 at the end, renumbers nothing and keeps the list dense and linked |
| ListInvariants.MidInsertBreaksLinks | spec/src/commands/step-update.ts:199-219 | inserting in the middle leaves the new node pointing `next` at itself and its successor pointing `prev` at itself, so the list is no longer linked |
| ListInvariants.DeleteKeepsDense | spec/src/commands/step-update.ts:242-291 | deleting an existing index from a dense list succeeds, stays dense, and moves exactly the nodes above it down by one |
| ListInvariants.TailDeleteKeepsLinks | spec/src/commands/step-update.ts:257-291 | deleting the last node keeps a linked list linked |
| ListInvariants.HeadDeleteKeepsLinks | spec/src/commands/step-update.ts:257-291 | deleting the first node keeps a linked list linked |
| ListInvariants.MidDeleteBreaksLinks | spec/src/commands/step-update.ts:257-291 | deleting a middle node leaves the predecessor's `next` one too high and the successor's `prev` one too low, so the list is no longer linked |
| ListInvariants.TailInsertThenDeleteRestores | spec/src/commands/step-update.ts:99-294 | inserting after the last node and then deleting the new node gives back the list exactly, storage order included |
| ListInvariants.AppendChains | spec/src/commands/step-update.ts:387-426 | the batch's nodes are numbered on from the maximum, chained to each other (the first after the old maximum or 'start', the last to 'end'), and the old tail points at the first |
| ListInvariants.AppendKeepsDense | spec/src/commands/step-update.ts:376-426 | a batch keeps a dense list dense |
| ListInvariants.AppendKeepsLinks | spec/src/commands/step-update.ts:387-426 | a non-empty batch keeps a dense linked list linked |
| ListInvariants.AppendKeepsInvariants | spec/src/commands/step-update.ts:376-426 | a non-empty batch keeps a list both dense and linked |
| ListInvariants.EmptyAppendBreaksLinks | spec/src/commands/step-update.ts:387-392 | an empty batch still repoints the old tail at N+1, so a non-empty linked list stops being linked |
| TaskStore.Store.constructor | spec/src/types.ts:12-20 | the store holds the task's metadata and E2E list as read |
| StepUpdate.CheckStepStatus | spec/src/commands/step-update.ts:21-41 | passes exactly when the step does not need an AST node, or the operation is a delete, or it is an update that brings a stepNode; otherwise the error names the operation and the step |
| StepUpdate.UpdateStep | spec/src/commands/step-update.ts:46-94 | the store ends as updateStep's result, or unchanged with its error |
| StepUpdate.InsertStep | spec/src/commands/step-update.ts:99-223 | the store ends as insertStep's result, or unchanged with its error |
| StepUpdate.DeleteStep | spec/src/commands/step-update.ts:228-294 | the store ends as deleteStep's result and reports the removed step, or stays unchanged with the error |
| StepUpdate.UpdateStepStatus | spec/src/commands/step-update.ts:299-329 | the store ends as updateStepStatus's result and reports the name, or stays unchanged with the error |
| StepUpdate.BatchCreateSteps | spec/src/commands/step-update.ts:351-429 | the loop building names and records, then the batch append, give batchCreateSteps's result |
| StepUpdate.RunStepCommand | spec/src/commands/step-update.ts:449-670 | the store ends as the whole `step update` action decides (index checks, then batch, delete, completion or the update/insert choice) |
| StepUpdate.RunSmartUpdate | spec/src/commands/step-update.ts:515-659 | the store ends as the update/insert choice decides |
| StepProperties.UpdateStepOutcome | spec/src/commands/step-update.ts:46-76 | updateStep fails exactly for a missing E2E task, a missing step, or a NEED_AST_NODE step updated without a stepNode, each with its own error |
| StepProperties.UpdateStepTouchesOnlyGiven | spec/src/commands/step-update.ts:78-93 | a successful update changes one step of one task: the given fields replace the old ones, the rest and the position stay, and the status can only go from NEED_AST_NODE to PENDING when a stepNode is given |
| StepProperties.SetStepCompletedOutcome | spec/src/commands/step-update.ts:299-329 | updateStepStatus fails only for a missing task or step (no status guard), changes only `completed`, and reports the name |
| StepProperties.CompletionRoundTrip | spec/src/commands/step-update.ts:299-329 | setting a step's completion and then setting the old value back restores the task list |
| StepProperties.InsertStepOutcome | spec/src/commands/step-update.ts:99-223 | insertStep's errors; the new step is stored last, indexed anchor+1 (1 in an empty list), not completed, tagged with the E2E index, and needs an AST node exactly when it is a `modify` step without a stepNode; other steps and tasks keep their records |
| StepProperties.InsertStepKeepsInvariants | spec/src/commands/step-update.ts:148-222 | on a dense step list an insert succeeds and stays dense, shifting the steps above the anchor; a tail insert also keeps the links |
| StepProperties.DeleteStepOutcome | spec/src/commands/step-update.ts:228-294 | deleteStep fails exactly for a missing task or step, reports the removed name and index, and the other steps keep their records in order |
| StepProperties.DeleteStepKeepsInvariants | spec/src/commands/step-update.ts:254-291 | deleting from a dense step list stays dense; deleting the head or tail also keeps the links |
| StepProperties.InsertThenDeleteStepRestores | spec/src/commands/step-update.ts:99-294 | appending a step after the last one and deleting it restores the task list and reports the added step |
| StepProperties.BatchCreateErrors | spec/src/commands/step-update.ts:356-372 | the file format is checked before the task lookup; these are the only two failures |
| StepProperties.BatchCreateReport | spec/src/commands/step-update.ts:384-428 | a batch reports its size and the names in order, and changes only its own task, whose old steps keep their indices and records |
| StepProperties.BatchCreatedSteps | spec/src/commands/step-update.ts:394-426 | the new steps are numbered from the old maximum, tagged, named as given, not completed, and need an AST node exactly for `modify` without a node |
| StepProperties.BatchKeepsInvariants | spec/src/commands/step-update.ts:387-426 | a non-empty batch keeps a dense linked step list dense and linked |
| StepProperties.FullArgumentsAppend | spec/src/commands/step-update.ts:577-647 | with name, file_path and a valid action given, the command always appends a new step N+1, even when the named step exists, and keeps the list dense and linked |
| StepProperties.FullArgumentsInsert | spec/src/commands/step-update.ts:614-645 | in that case the command is insertStep after the largest index |
| StepProperties.MissingStepNeedsAllFields | spec/src/commands/step-update.ts:526-582 | for a step that does not exist, the command fails with the missing-arguments error exactly when one of the three fields is missing |
| StepProperties.PartialUpdateKeepsPositions | spec/src/commands/step-update.ts:536-575 | a partial update of an existing step moves no step, and the name becomes the given one or stays |
| E2EUpdate.UpdateE2E | spec/src/commands/e2e-update.ts:20-45 | the store ends as updateE2ETask's result, or unchanged with its error |
| E2EUpdate.InsertE2E | spec/src/commands/e2e-update.ts:50-128 | the store ends as insertE2ETask's result, or unchanged with its error |
| E2EUpdate.DeleteE2E | spec/src/commands/e2e-update.ts:133-189 | the store ends as deleteE2ETask's result, or unchanged with its error |
| E2EUpdate.UpdateE2EStatus | spec/src/commands/e2e-update.ts:194-214 | the store ends as updateE2EStatus's result, or unchanged with its error |
| E2EUpdate.BatchCreateE2E | spec/src/commands/e2e-update.ts:229-280 | the loop and the batch append give batchCreateE2ETasks's result |
| E2EUpdate.RunE2ECommand | spec/src/commands/e2e-update.ts:296-425 | the store ends as the whole `e2e update` action decides |
| E2EUpdate.RunE2EAction | spec/src/commands/e2e-update.ts:372-414 | the store ends as delete, the completion switch, insert or update decides once the index is chosen |
| E2EProperties.UpdateE2EOutcome | spec/src/commands/e2e-update.ts:20-45 | fails exactly when no task has the index; otherwise one task gets the given fields and keeps its position, completion and steps |
| E2EProperties.SetE2ECompletedOutcome | spec/src/commands/e2e-update.ts:194-214 | fails exactly when no task has the index; otherwise only that task's completion changes and its name is reported |
| E2EProperties.E2ECompletionRoundTrip | spec/src/commands/e2e-update.ts:194-214 | setting a task's completion and setting the old value back restores the list |
| E2EProperties.InsertE2EOutcome | spec/src/commands/e2e-update.ts:50-128 | fails exactly for a missing anchor in a non-empty list; the new task is stored last, indexed anchor+1 (1 when empty), not completed and without steps |
| E2EProperties.InsertE2EKeepsInvariants | spec/src/commands/e2e-update.ts:71-127 | on a dense list an insert succeeds and stays dense, shifting the tasks above the anchor; a tail insert also keeps the links |
| E2EProperties.InsertE2ELeavesStepTagsStale | spec/src/commands/e2e-update.ts:113-124 | the renumber pass does not touch steps: a shifted task with steps no longer matches their `e2eIndex` |
| E2EProperties.DeleteE2EOutcome | spec/src/commands/e2e-update.ts:133-189 | fails exactly when no task has the index; reports the removed name and index; the others keep their records in order |
| E2EProperties.DeleteE2EKeepsInvariants | spec/src/commands/e2e-update.ts:152-186 | deleting from a dense list stays dense; deleting the head or tail also keeps the links |
| E2EProperties.InsertThenDeleteE2ERestores | spec/src/commands/e2e-update.ts:50-189 | appending a task after the last one and deleting it restores the list |
| E2EProperties.BatchCreateE2EOutcome | spec/src/commands/e2e-update.ts:229-280 | fails exactly for a file without the array; reports size and names in order; old tasks keep indices and records; new tasks are numbered from the maximum with the given fields, not completed, without steps |
| E2EProperties.BatchE2EKeepsInvariants | spec/src/commands/e2e-update.ts:253-277 | a non-empty batch keeps a dense linked list dense and linked |
| E2EProperties.CommandNeedsAllFields | spec/src/commands/e2e-update.ts:320-325 | without a batch, every form of the command, delete and completion included, fails with the missing-arguments error exactly when name, input or output is missing |
| E2EProperties.CompleteAlwaysRefused | spec/src/commands/e2e-update.ts:380-388 | with name, input and output given and neither `--batch` nor `-d`, `-c` is always refused; only an unparsable index on a non-empty list is reported first |
| E2EProperties.DefaultInsertAppends | spec/src/commands/e2e-update.ts:327-405 | with no index, or an index no task has, the command appends task N+1 and keeps the list dense and linked |
| E2EProperties.ExistingIndexUpdatesInPlace | spec/src/commands/e2e-update.ts:345-413 | with an existing index and no flag, that task gets the three fields in place and nothing else changes |
| E2EProperties.InsertFlagMidListBreaksLinks | spec/src/commands/e2e-update.ts:397-405 | with -i and an existing middle index, the insert succeeds but the list is no longer linked |
| E2EProperties.DeleteWithoutExistingIndexRemovesLast | spec/src/commands/e2e-update.ts:335-378 | with -d and no index, or an index no task has, the command deletes the last task of a dense list |
| Schedule.RealItems | spec/src/utils/schedule.ts:74-76 | the filter keeps no sentinel and never grows the list |
| Schedule.IncompleteSteps | spec/src/utils/schedule.ts:15-17 | holds only incomplete real steps; empty exactly when there is none; its head is the first one in storage order |
| Schedule.FindNextIncompleteStep | spec/src/utils/schedule.ts:10-25 | null exactly when no real step is incomplete; otherwise the first incomplete real step in storage order |
| Schedule.AreAllStepsCompleted | spec/src/utils/schedule.ts:73-83 | true exactly when the task has a real step and every real step is completed |
| Schedule.IsCodeSpecCompleted | spec/src/utils/schedule.ts:90-102 | true exactly when there is a real E2E task and every real E2E task has all its steps completed |
| Schedule.RealStepsCompleted | spec/src/utils/schedule.ts:74-82 | the filtered list is empty exactly when there is no real step, and all of it is completed exactly when every real step is |
| Schedule.RealTasksCompleted | spec/src/utils/schedule.ts:91-101 | the same for the E2E tasks and areAllStepsCompleted |
| Schedule.FindNextE2EWithIncompleteSteps | spec/src/utils/schedule.ts:33-66 | null for an unknown current index; otherwise null exactly when no later real task has an incomplete step, else the first such task after the current one |
| Schedule.CheckAndAutoCompleteE2E | spec/src/utils/schedule.ts:110-139 | the store and the result are those of the auto-completion of the task |
| Schedule.AutoCompleteOutcome | spec/src/utils/schedule.ts:110-139 | true exactly when the task exists, was not completed and has all its steps completed; then only its flag is set, otherwise nothing changes |
| Schedule.AutoCompleteIdempotent | spec/src/utils/schedule.ts:127-130 | a second call right after the first reports false and changes nothing |
| Schedule.AutoCompleteNeverUncompletes | spec/src/utils/schedule.ts:133-136 | no completed task is uncompleted, and tasks with other indices are untouched |
| Schedule.CodeSpecIgnoresE2EFlags | spec/src/utils/schedule.ts:90-102 | the E2E tasks' own `completed` flags do not matter to isCodeSpecCompleted |
| Schedule.CodeSpecCompletedAllowsAutoComplete | spec/src/utils/schedule.ts:110-139 | when the whole task is complete, auto-completion completes any task not yet flagged |
| Validate.StepNodes | spec/src/commands/validate.ts:138 | a single stepNode object counts as a one-node array |
| Validate.Checks | spec/src/commands/validate.ts:141-143 | one oracle answer per node, in order |
| Validate.RelatedChecks | spec/src/commands/validate.ts:157-169 | one check per related node, in order |
| Validate.ValidateStep | spec/src/commands/validate.ts:115-180 | the two loops give the step's validation result |
| Validate.NeedAstNodeShortCircuits | spec/src/commands/validate.ts:128-133 | a NEED_AST_NODE step is invalid with the missing-node message, no node is checked, and the result does not depend on the oracle |
| Validate.NodeVerdictMarksFailures | spec/src/commands/validate.ts:141-150 | the stepNode loop marks the result invalid exactly when a check fails, keeps the last failing error, and touches no other field |
| Validate.StepVerdict | spec/src/commands/validate.ts:136-177 | for any other step, the related results are present exactly for a non-empty relatedNodes, one per entry, and the step is valid exactly when neither part fails |
| Validate.UnparsableRelatedNodeInvalid | spec/src/commands/validate.ts:162-167 | an unparsable related node is an invalid result carrying its text |
| Validate.ValidateTaskSteps | spec/src/commands/validate.ts:86-97 | the inner loop gives the tagged results of the real steps and their NEED_AST_NODE count |
| Validate.ValidateAllSteps | spec/src/commands/validate.ts:50-110 | the summary is the totals over the results of all real E2E tasks |
| Validate.SentinelStepsSkipped | spec/src/commands/validate.ts:86-87 | sentinel steps contribute no result |
| Validate.SentinelTasksSkipped | spec/src/commands/validate.ts:63-64 | sentinel E2E tasks contribute no result |
| Validate.NeedStepsFlagged | spec/src/commands/validate.ts:89-96 | within one task, the NEED_AST_NODE counter equals the flagged results, all of them invalid |
| Validate.NeedCountFlagged | spec/src/commands/validate.ts:63-98 | the same over the whole task |
| Validate.CountsConcat | spec/src/commands/validate.ts:100 | the invalid and flagged counts add up over concatenated results |
| Validate.ValidStepsSubtractsNeedTwice | spec/src/commands/validate.ts:100-101 | validSteps = total - invalid - flagged, where every flagged result is already invalid |
| Validate.LoneNeedStepGivesMinusOne | spec/src/commands/validate.ts:100-101 | one E2E task with one NEED_AST_NODE step reports -1 valid steps |
| Validate.EmptyTaskContributesOne | spec/src/commands/validate.ts:71-83 | a real E2E task without real steps contributes one invalid result with step index 0, an empty name and the task's index and name |
| TextLines.Split | outln/src/core/text-model.ts:30 | `split('\n')` always yields at least one piece |
| TextLines.SplitShape | outln/src/core/text-model.ts:30 | one more piece than line breaks, and no piece holds a break |
| TextLines.JoinSplit | outln/src/core/utils.ts:71 | joining the pieces of a split gives the text back |
| TextLines.SplitJoin | outln/src/core/utils.ts:71 | splitting a join of break-free pieces gives the pieces back |
| TextLines.JoinAppend | outln/src/formatters/read.ts:98 | joining two non-empty lists puts one break between the two joins |
| TextLines.SplitAfterLine | outln/src/formatters/read.ts:101 | a break-free line followed by a break splits off as the first piece |
| TextLines.DecimalString | outln/src/core/utils.ts:106 | the decimal text of a number is non-empty, all digits, with no line break |
| TextLines.DecimalRoundTrip | outln/src/core/utils.ts:106 | reading the digits back gives the number |
| PathConverter.ReplaceAll | spec/src/utils/path-converter.ts:8 | a global replace keeps the length and changes exactly the matching characters |
| PathConverter.ToSafePathName | spec/src/utils/path-converter.ts:6-9 | the path name has no '/' |
| PathConverter.FromSafePathName | spec/src/utils/path-converter.ts:16-19 | the name has no '_' |
| PathConverter.ConvertersKeepOtherCharacters | spec/src/utils/path-converter.ts:6-19 | both conversions keep the length and every other character |
| PathConverter.ToSafeIdempotent | spec/src/utils/path-converter.ts:6-9 | a safe path name is its own safe path name |
| PathConverter.ToThenFromRestoresIff | spec/src/utils/path-converter.ts:6-19 | to-then-from restores a name exactly when it has no '_' |
| PathConverter.FromThenToRestoresIff | spec/src/utils/path-converter.ts:6-19 | from-then-to restores a path name exactly when it has no '/' |
| PathConverter.UnderscoreComesBackAsSlash | spec/src/utils/path-converter.ts:6-19 | a name with one '_' (such as 'my-app_v1.0') comes back with '/' in its place |
| OutlineUtils.FindSymbolByName | outln/src/core/utils.ts:11-31 | whatever is found carries the name |
| OutlineUtils.FirstNamed | outln/src/core/utils.ts:15-18 | nothing exactly when no symbol has the name; otherwise the first one that does |
| OutlineUtils.FindIsFirstInPreorder | outln/src/core/utils.ts:11-31 | the search returns the first symbol with the name in pre-order (each symbol before its children, a subtree before what follows) |
| OutlineUtils.FindNothingIff | outln/src/core/utils.ts:11-31 | the search finds nothing exactly when no symbol of the tree has the name |
| OutlineUtils.SubstringSymmetric | outln/src/core/utils.ts:50 | `substring` ignores the order of its ends and returns the clamped slice |
| OutlineUtils.ExtractCodeByRange | outln/src/core/utils.ts:36-72 | '' for out-of-range lines; the line's substring for a one-line range; otherwise the lines of the result are the tail of the first line, the whole lines between and the head of the last |
| OutlineUtils.FormatSymbolType | outln/src/core/utils.ts:77-97 | 'Unknown' exactly for kinds outside the fifteen named ones |
| OutlineUtils.SymbolTypeNamesDistinct | outln/src/core/utils.ts:78-96 | each named kind has its own name, so the name gives the kind back |
| OutlineUtils.LocationReadsBack | outln/src/core/utils.ts:102-107 | the location is the path, ':', and the 1-based line, which reads back as a number |
| TextModels.TextModel.GetVersionId | outln/src/core/text-model.ts:22-24 | the version is always 1 |
| TextModels.TextModel.GetLineCount | outln/src/core/text-model.ts:29-31 | one more than the line breaks, so at least 1 |
| TextModels.TextModel.GetLine | outln/src/core/text-model.ts:36-39 | a line holds no break, and outside the lines it is '' |
| TextModels.LinesRebuildContent | outln/src/core/text-model.ts:29-39 | the lines handed out, joined, are the content |
| ReadFormatter.DisplayCodeLines | outln/src/formatters/read.ts:92-99 | code of at most 20 lines is shown as is; longer code shows its first 20 lines and one note line |
| ReadFormatter.NoteHasNoNewline | outln/src/formatters/read.ts:98 | the "more lines" note is a single line |
| ReadFormatter.CompactLayout | outln/src/formatters/read.ts:90-102 | the compact view is the header line and then the displayed code, 22 lines for code over 20 lines |
| ReadFormatter.ChildLines | outln/src/formatters/read.ts:43-46 | one line per child, in order |
| ReadFormatter.FormatReadDetail | outln/src/formatters/read.ts:17-51 | the text is the join of the detail view's sections |
| ReadFormatter.PushHeader | outln/src/formatters/read.ts:21-29 | the rule, name, type and location lines, then the signature when there is a detail |
| ReadFormatter.PushCodeSection | outln/src/formatters/read.ts:31-36 | the code between rules under its heading |
| ReadFormatter.PushChildrenSection | outln/src/formatters/read.ts:38-48 | the children block, or nothing without children |
| ReadFormatter.PushChildLines | outln/src/formatters/read.ts:43-46 | the loop adds one line per child in order |
| ReadFormatter.DetailSignatureIff | outln/src/formatters/read.ts:21-36 | the detail view has a signature line right after the location exactly when the symbol has a detail, then the code between rules |
| ReadFormatter.DetailChildrenSection | outln/src/formatters/read.ts:38-48 | the view ends with the code and a rule when there are no children, otherwise with a blank line, the count, a rule, one line per child and a rule |
| ReadFormatter.DetailStartsWithRule | outln/src/formatters/read.ts:22 | the detail text starts with the 80-character rule |

## Left out

- Reading and writing files is not modelled: the config, the task file, the atomic write and the batch JSON file. A batch file is given as its parsed content. `None` stands for a file without the expected array.
- Console output, colours, success messages and `process.exit` are not modelled. The errors become `Error` values that carry what the message names.
- The AST validator and `JSON.parse` are function parameters (`oracle`, `parse`) of the validation, because they call code outside the core. A `JSON.parse` result that is not a node object is not distinguished from a node.
- The `--related-nodes` and `--step-node` options of `step update` arrive as already-parsed values or as "malformed". Parsing JSON text is not modelled.
- The ASCII-only `parseInt` of index arguments is given as its outcome (`IndexArg`): missing, unparsable or a number.
- JSON `null` and an absent optional record field are one case (`None`). An absent `children` is the empty list.
- Every list node is modelled with both of its pointers present, as the commands always write them. The `prevE2EIndex`/`nextE2EIndex` and `prevStepIndex`/`nextStepIndex` fields are optional in the record types, but a node that lacks one is not represented. So the `!== undefined` guards on them are not modelled.
- Several source branches cannot fire and are left out: `afterStep.index === 'end'` in insert, and the sentinel checks after a lookup by number. A node found by a number is never a sentinel.
- The non-insert branch at the end of `step update` (step-update.ts:648-659) is unreachable because `useInsertMode` is always true there. The model does not repeat it.
- The `e2eName` message of a task without steps is represented by `NoSteps(name)`. The exact Chinese message text is not reproduced.
- Position.line is a natural number, as symbol providers produce it. Negative line numbers are not modelled.
- `formatReadJSON` and the tree and JSON formatters are not modelled, because they only serialise. The display helpers at the end of schedule.ts and the result display of validate.ts are not modelled either.
- Concurrency and the asynchronous form of the commands are not modelled. Each command is modelled as one atomic step on its own store.
- The update commands change no list other than `e2eTasks`. The store's metadata is outside their `modifies` frame, so this holds by construction and carries no separate lemma.
- OutlineUtils.ExtractCodeByRange: character positions count Unicode code points, because a Dafny string is a sequence of code points. JavaScript's `substring` and `length` count UTF-16 code units. So on a line holding a character outside the Basic Multilingual Plane, such as an emoji, the extracted text differs from the tool's. `OutlineUtils.Substring` and `OutlineUtils.SubstringSymmetric` measure in the same units.
