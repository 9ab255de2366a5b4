# Proofs about the agent training pipeline

A Dafny model of the algorithms behind trial collection, training and data
preparation, with proofs of what they promise. `dafny verify dfyconfig.toml`
checks everything.

| files | part of the system |
|---|---|
| `Plans`, `Text`, `Sorting`, `Arithmetic` | records, selections, Python string helpers, sorting, integer division |
| `RoundRobin`, `Grouping`, `PlanOrders` | task orders, interleaving, chunking, and where each task, trial and chunk goes |
| `Scheduling`, `SchedulingRuns`, `Launcher`, `LauncherLimits`, `LauncherTurns` | the launcher's pass as a transition system, its properties over every run, the class that implements it with deques and counters, and what it does in terms of fields, futures and turns |
| `BenchCaps`, `Retries`, `ClawSlots` | cap arguments, completion and retry rounds, Claw port slots |
| `HereDocs`, `Markup`, `CleanText`, `ToolCalls`, `Migrations`, `Converter`, `AssistantContent`, `InputBlocks` | the tool-call converter: here-documents, the markup scanner, printing and parsing, argument rewriting, the substitution and its fixpoint, the checks of the result, and reading them off the input |
| `JsonTexts`, `EditCalls`, `ShellWords`, `CommandMeanings`, `SearchCommands`, `CallMeanings`, `CallTexts`, `ConvertedCalls`, `SweepMeanings` | what a converted text says: readers of JSON, of shell commands and of the search tools' options, each rewritten call read back by them, and the text and its errors followed piece by piece |
| `RolloutTraining` | the one-ahead training loop against the synchronous one |
| `TeacherPlans`, `TeacherQueue`, `TaskWatcher`, `TeacherLosses`, `TeacherMeanings`, `TeacherVerdicts` | the batch generator of teacher records, the restartable watcher as file operations, its polling loop, when it loses a task, and who gets records in terms of roles, modes and results |
| `Fingerprints`, `DigestMeanings`, `ReportChains`, `ReportRefresh` | build reports that hash one another, refreshed in passes; which digest stands under which key; how many passes a chain needs; the memo caches |
| `Conversations`, `ConversationMeanings` | the conversation normaliser, and its output and refusals read off the messages |
| `SkillMerging` | clustering with a memoised judge |
| `Splits`, `SplitMeanings` | holdouts, pilots, SFT and RL splits, and which positions they take |

How the model is built:

* What happens outside a program is arbitrary: which futures finish together
  and with what status, when a stop is requested, when a generation finishes,
  what a judge answers, when a watcher crashes and what consumers do with its
  files. A property of runs is a statement about every sequence of such events.
* A file operation of the watcher is one step; a crash may fall between any two.
* Loops and objects of the source are methods and classes. Each is tied to a
  function on values, and the properties are proved about that function.
* Modules named for limits, orders, turns or meanings state those functions' results again
  without them: in fields, positions, keys, paths and the characters of a text. What
  a rewritten call means is said by readers that know nothing of its writer.
* Strings are sequences of characters with Python's white space; a regular
  expression of the source is a scanner for that one pattern.

Results that say where the code falls short of its purpose:

* `HereDocs.HereDocDelivers`: the delimiter is chosen before trailing blanks are
  stripped, so a patch whose last non-blank line becomes the delimiter only by
  stripping is cut short. The condition is exact.
* `CommandMeanings.FallbackIsWantedIff`: without ripgrep a migrated grep call no longer
  ignores case unless it prints lines, and searches files by the last part of the glob
  only. `CommandMeanings.RgReads` and `GrepReads`: a pattern or path that looks like an
  option is read as one by both tools.
* `SkillMerging.BarsCollide`: the bar that separates the parts of a cache key may occur
  in them, and then two pairs of skills share one verdict.
* `TeacherLosses.LostIffCrashedInHand`: the skip marker is written before the queue
  file, so a crash in between drops the task for good; a crash anywhere else loses
  nothing. `TeacherLosses.LossHappens` is a concrete run.
* `ReportChains.StaleSourceNeedsPasses`: each link read against the visiting order
  costs a pass, so in any tree the fixed four passes settle a chain with a stale source
  exactly when it has at most three such links. `ReportChains.FourPassesFallShort` is a
  concrete tree of five reports in sorted order.
* `AssistantContent.AcceptedToolsAreAllowedIff`: an accepted text names a tool outside
  the profile exactly when one of its JSON blocks names a migratable tool, which the
  substitution never migrates. `AssistantContent.JsonLsIsAccepted` is such a text.

## Model

| member | source | states |
|---|---|---|
| `SchedulingRuns.ActiveTrialsAreSafe` | GeneralAgent/sft_data_collection/launch_trials.py:933-964 | In every reachable state of a pass, for any completion order and also after a stop, the active trials number at most the workers, every bench is within its cap, and no task has two active trials unless concurrent trials are on and the bench is not Claw |
| `SchedulingRuns.NothingSubmittedTwice` | GeneralAgent/sft_data_collection/launch_trials.py:1040-1064 | No run submits a trial more often than the plan lists it, so every run ends within as many completion turns as there are records |
| `SchedulingRuns.IdleMeansDone` | GeneralAgent/sft_data_collection/launch_trials.py:966-1038 | With caps of at least one, a settled launcher with no active trial has nothing left to submit, in either queue mode |
| `SchedulingRuns.EveryTrialOnce` | GeneralAgent/sft_data_collection/launch_trials.py:1040-1064 | A pass that was never stopped and has drained has submitted exactly the plan, as a multiset |
| `SchedulingRuns.NeverIdleEarly` | GeneralAgent/sft_data_collection/launch_trials.py:1040-1063 | As long as something of the plan is unsubmitted and no stop was seen, some trial is active, so the `while active` loop does not end early |
| `SchedulingRuns.WorkConserving` | GeneralAgent/sft_data_collection/launch_trials.py:977-1038 | Whenever a worker is free, every pending record is held back by its bench cap or by an active trial of its own task; in windowed mode the window is full or everything is open, and every open task is held back |
| `SchedulingRuns.WindowIsDisciplined` | GeneralAgent/sft_data_collection/launch_trials.py:966-1011 | Unless a stop was seen, the tasks ever opened are a prefix of the task order, at most `task_window` of them are unfinished, tasks not yet opened have run nothing, and every active trial belongs to an open task |
| `SchedulingRuns.WindowInTheLog` | GeneralAgent/sft_data_collection/launch_trials.py:966-1011 | Also in a run that was stopped: the trials submitted belong to a prefix of the task order, and at most `task_window` tasks of it lack a trial |
| `SchedulingRuns.WindowKeepsPlanOrder` | GeneralAgent/sft_data_collection/launch_trials.py:987-1009 | In windowed mode each task's submitted trials are a prefix of its trials in plan order, also after interruptions |
| `SchedulingRuns.StopIsFinal` | GeneralAgent/sft_data_collection/launch_trials.py:978-981 | Once the stop flag has been seen no later turn of the pass submits anything |
| `SchedulingRuns.LaunchIsSafe` | GeneralAgent/sft_data_collection/launch_trials.py:944-964 | Submitting an eligible record to a free worker keeps all three limits |
| `SchedulingRuns.CompleteIsSafe` | GeneralAgent/sft_data_collection/launch_trials.py:1044-1049 | Completions in any batch keep all three limits |
| `LauncherLimits.LimitsHold` | GeneralAgent/sft_data_collection/launch_trials.py:933-1064 | The same limits in the configuration's fields: in every reachable state at most `workers` futures are active, or one if that is below one; a bench with a cap has at most that many of them; two futures of one task are active only with concurrent trials on and a bench other than claw |
| `LauncherLimits.IdleWorkersHaveReason` | GeneralAgent/sft_data_collection/launch_trials.py:966-1038 | With a worker free and no stop seen, a record waits only if its bench has a cap and that many active futures, or its task is active and may not overlap; in windowed mode the window is full or no task waits, and an open task without records left has one active |
| `LauncherTurns.PassTurns` | GeneralAgent/sft_data_collection/launch_trials.py:966-1064 | Every state of a pass, step by step: it starts from the plan in its deque, or from all tasks waiting with their records; each turn submits the first record that need not wait and moves those before it behind the others, or acts on the first open task that can do something, retiring it or submitting its next record; turns go on until no worker is free or everything must wait; a stop drops what is unsubmitted; completions only take futures out |
| `Launcher.SchedulingPass.constructor` | GeneralAgent/sft_data_collection/launch_trials.py:933-975 | The pass starts with empty counters and the whole plan waiting, as the transition system's initial state |
| `Launcher.SchedulingPass.SubmitRecord` | GeneralAgent/sft_data_collection/launch_trials.py:944-964 | The record becomes the next active future and both counters stay equal to the counts over the active set |
| `Launcher.SchedulingPass.TryFrontRecord` | GeneralAgent/sft_data_collection/launch_trials.py:1022-1036 | The front record is submitted exactly if cap and task exclusivity allow it, and is rotated to the back otherwise |
| `Launcher.SchedulingPass.ScanFlat` | GeneralAgent/sft_data_collection/launch_trials.py:1020-1038 | One scan submits the first eligible record with the blocked ones before it moved behind, and a scan that submits nothing leaves the deque as it was |
| `Launcher.SchedulingPass.SubmitReadyFlat` | GeneralAgent/sft_data_collection/launch_trials.py:1015-1038 | The rotating scan reaches the state of the functional flat discipline |
| `Launcher.SchedulingPass.FillTaskWindow` | GeneralAgent/sft_data_collection/launch_trials.py:973-975 | Waiting tasks are opened in order until the window is full or none waits |
| `Launcher.SchedulingPass.TryFrontTask` | GeneralAgent/sft_data_collection/launch_trials.py:988-1009 | The front task is retired, run or rotated as its queue, its active trials and its bench cap demand |
| `Launcher.SchedulingPass.ScanWindow` | GeneralAgent/sft_data_collection/launch_trials.py:984-1011 | One scan acts on the first open task that can be retired or run, and a scan that does neither leaves the deque as it was |
| `Launcher.SchedulingPass.SubmitReadyWindow` | GeneralAgent/sft_data_collection/launch_trials.py:977-1011 | The windowed scan reaches the state of the functional windowed discipline |
| `Launcher.SchedulingPass.SubmitReady` | GeneralAgent/sft_data_collection/launch_trials.py:966-1038 | Either discipline, including the clearing of queues on stop, computes the transition system's step |
| `Launcher.SchedulingPass.Retire` | GeneralAgent/sft_data_collection/launch_trials.py:1045-1049 | A finished future leaves the active set and its counters go down with it |
| `BenchCaps.AcceptedIffReadable` | GeneralAgent/sft_data_collection/launch_trials.py:655-671 | Cap arguments are accepted exactly when every non-blank item has an equals sign and a positive integer |
| `BenchCaps.AcceptedCapsAreValid` | GeneralAgent/sft_data_collection/launch_trials.py:668-670 | Every accepted cap is at least one, which is what scheduler progress rests on |
| `BenchCaps.LastItemCounts` | GeneralAgent/sft_data_collection/launch_trials.py:655-671 | A bench is capped at a value exactly if the last item naming it gives that value |
| `BenchCaps.ParseBenchCaps` | GeneralAgent/sft_data_collection/launch_trials.py:646-671 | The nested loops read the comma-separated items of all arguments in order and stop at the first bad one |
| `BenchCaps.GivesIff` | GeneralAgent/sft_data_collection/launch_trials.py:657-671 | An item gives a bench a cap if and only if it is written name=number, the name without `=` and the number an integer of at least one; the bench is the name without the white space around it |
| `BenchCaps.RefusedWhen` | GeneralAgent/sft_data_collection/launch_trials.py:657-670 | Blank items are skipped; an item is refused exactly for having no `=`, no integer after the first one, or one that is not positive |
| `BenchCaps.SplitIs` | GeneralAgent/sft_data_collection/launch_trials.py:656 | The items of an argument are what stands between its commas |
| `BenchCaps.AllItemsAre` | GeneralAgent/sft_data_collection/launch_trials.py:655-656 | All items, argument after argument |
| `RoundRobin.KeepsEachQueue` | GeneralAgent/sft_data_collection/launch_trials.py:331-343 | Round-robin draining keeps every queue's own order and content |
| `RoundRobin.Fair` | GeneralAgent/sft_data_collection/launch_trials.py:331-343 | In every prefix a queue is more than one element behind another only when it is already empty |
| `RoundRobin.StandsInTurn` | GeneralAgent/sft_data_collection/launch_trials.py:331-343 | Where every element goes: element t of queue i comes after the first t + 1 elements of each earlier queue and the first t of each other, as far as they go |
| `RoundRobin.SweepOnce` | GeneralAgent/sft_data_collection/launch_trials.py:331-343 | One sweep takes the head of each non-empty queue and leaves the tails |
| `RoundRobin.DrainWhileAny` | GeneralAgent/sft_data_collection/split_plan_chunks.py:69-82 | The bench loop empties its queues in round-robin order |
| `RoundRobin.DrainWhileRemaining` | GeneralAgent/sft_data_collection/launch_trials.py:331-343 | The flag-controlled loop gives the same round-robin order |
| `Grouping.TaskOrderIsTheTasks` | GeneralAgent/sft_data_collection/launch_trials.py:347-379 | The task order lists exactly the plan's tasks, each once, keeping the order of first appearance within a bench |
| `Grouping.InterleavingKeepsTasks` | GeneralAgent/sft_data_collection/launch_trials.py:304-344 | Interleaving is a permutation of the plan that keeps each task's order |
| `Grouping.InterleavingIsFair` | GeneralAgent/sft_data_collection/launch_trials.py:304-344 | In any prefix of the interleaving a task is more than one trial behind another only when all its trials are in the prefix |
| `PlanOrders.TaskTrialsAre` | GeneralAgent/sft_data_collection/split_plan_chunks.py:55-66 | A task's trials are the records of its bench and task id, in plan order |
| `PlanOrders.TaskOrderMeans` | GeneralAgent/sft_data_collection/launch_trials.py:347-379 | The task order in terms of benches, task ids and positions: benches by the position of their first record, each with its tasks by the position of theirs, taken one of each bench in turn |
| `PlanOrders.InterleavedMeans` | GeneralAgent/sft_data_collection/launch_trials.py:304-344 | The interleaving takes the trials of the tasks one each in turn, in the task order |
| `Grouping.GroupByTask` | GeneralAgent/sft_data_collection/split_plan_chunks.py:48-66 | The grouping loop collects every task's trials in plan order, benches and tasks in order of first appearance |
| `Grouping.TaskWindowGroups` | GeneralAgent/sft_data_collection/launch_trials.py:347-379 | Task order and per-task queues for the rolling window; the chunk splitter shares this order |
| `Grouping.InterleaveByTask` | GeneralAgent/sft_data_collection/launch_trials.py:304-344 | The deque loops compute the interleaving |
| `Grouping.SplitChunks` | GeneralAgent/sft_data_collection/split_plan_chunks.py:85-102 | Chunks of the round-robin task order, refused exactly for a non-positive chunk size |
| `Grouping.ChunksArePlan` | GeneralAgent/sft_data_collection/split_plan_chunks.py:85-102 | All chunks together are a permutation of the plan |
| `Grouping.ChunksKeepTasksWhole` | GeneralAgent/sft_data_collection/split_plan_chunks.py:96-102 | A chunk holds all trials of a task in plan order or none, no two chunks share a task, and every chunk but the last holds exactly `tasks_per_chunk` tasks |
| `PlanOrders.ChunksMean` | GeneralAgent/sft_data_collection/split_plan_chunks.py:96-102 | Chunk c holds, task after task, the trials of tasks c*n to c*n + n - 1 of the task order or as many as are left, and the last chunk reaches the last task |
| `Retries.Collect` | GeneralAgent/sft_data_collection/launch_trials.py:1044-1053 | A batch of completions leaves one outcome per finished future and retires exactly those futures |
| `Retries.ExecutePass` | GeneralAgent/sft_data_collection/launch_trials.py:921-1064 | A pass terminates; what it launched is the log of a possible run of the transition system that ends with no future active; unless stopped that is exactly its records; every launch has finished with a status |
| `Retries.RetryableRecords` | GeneralAgent/sft_data_collection/launch_trials.py:1072-1089 | The records selected for a retry are, in order, exactly those with a status of nonzero return code or an error other than `skipped`, and without a final result row |
| `Retries.LaunchAll` | GeneralAgent/sft_data_collection/launch_trials.py:1066-1122 | The attempts are those of the main pass over the selection and of at most `retry_rounds` retry passes; each of these runs the main pass's caps without a window, on `retry_workers` or, if that is not positive, on the main workers kept within 1..8, over the interleaving of exactly the records that should be retried after the attempts so far. A later attempt follows failures only; unless stopped, whoever could still be retried has used every round; the failed list is exactly the trials whose last status has a nonzero return code or an error |
| `Retries.RetryAccounting` | GeneralAgent/sft_data_collection/launch_trials.py:1091-1122 | A trial is launched at most 1 + retry_rounds times, and a success or skip is its last attempt and its final status |
| `Retries.LaunchesBounded` | GeneralAgent/sft_data_collection/launch_trials.py:1094-1116 | A trial is launched at most once per round |
| `Retries.LaunchesAre` | GeneralAgent/sft_data_collection/launch_trials.py:1066-1116 | What is counted are the attempts of the trial id |
| `ClawSlots.AssignClawWorkerSlots` | GeneralAgent/sft_data_collection/launch_trials.py:409-443 | Slots are assigned, keeping preset ones, unless there are more distinct Claw tasks than slots |
| `ClawSlots.ClawTasksAsSeen` | GeneralAgent/sft_data_collection/launch_trials.py:415-430 | Slots are numbered by the position of a Claw task's first record |
| `ClawSlots.WithSlotMeans` | GeneralAgent/sft_data_collection/launch_trials.py:432-443 | A Claw record without a slot gets its task's number, counted from one; nothing else of it changes, and nothing of any other record |
| `ClawSlots.AssignmentIsSlotted` | GeneralAgent/sft_data_collection/launch_trials.py:437-443 | Without preset slots every Claw trial carries its task's own slot |
| `ClawSlots.RunningClawTrialsAreIsolated` | GeneralAgent/sft_data_collection/launch_trials.py:409-443 | In every reachable state of a pass two active Claw trials have different slots between 1 and the configured number, itself clamped to 1..512, and disjoint 100-port ranges |
| `RolloutTraining.RolloutManager.Generate` | slime/train_async.py:36-44 | Launching needs loaded engines and an unused rollout id and records the weights then served |
| `RolloutTraining.RolloutManager.UpdateWeights` | slime/train_async.py:69-73 | Weights change only while no launched generation is incomplete |
| `RolloutTraining.RolloutManager.Progress` | slime/train_async.py:36-44 | Any set of running generations may finish at any time; finished data never changes |
| `RolloutTraining.RolloutManager.Get` | slime/train_async.py:39-40 | Waiting returns the rollout's data, produced under the single weight version it began with |
| `RolloutTraining.TrainModels` | slime/train_async.py:46-53 | Who trains in an iteration: the critic if there is one; the actor if there is no critic, or the rollout has reached `num_critic_only_steps` and not only the critic is trained |
| `RolloutTraining.FetchAndLaunch` | slime/train_async.py:38-44 | Iteration k gets rollout k's data and the next rollout is launched early with the weights served then |
| `RolloutTraining.SyncAndPush` | slime/train_async.py:68-73 | The pending generation is awaited before the push |
| `RolloutTraining.AsyncIteration` | slime/train_async.py:37-73 | One iteration trains on rollout k generated by the weights the schedule prescribes and re-establishes the loop state |
| `RolloutTraining.TrainAsync` | slime/train_async.py:28-73 | For every completion schedule: iteration i trains on rollout start + i; the critic trains if there is one, the actor if there is none or it is neither warming up nor training alone; the data were made by the weights of the actor's training in the iterations before the last push boundary that precedes the iteration before; each rollout is launched once and in order, and the engines end with the last weights due |
| `RolloutTraining.TrainSync` | slime/train.py:26-99 | The synchronous loop, with or without offloading: the same rollouts and trainings, each on data made by the weights of all iterations before; when only the critic trains all data are of the engines' own load; generation never meets unloaded engines |
| `RolloutTraining.PushSchedule` | slime/train_async.py:68-73 | The last push at or before boundary n is at max(start, I*floor(n/I)) |
| `RolloutTraining.AsyncStaleness` | slime/train_async.py:36-73 | With the actor training throughout, rollout k lacks exactly k - max(start, I*floor((k-1)/I)) actor updates when trained on: none for the first, then between 1 and I |
| `RolloutTraining.AsyncStalenessBounded` | slime/train_async.py:46-73 | With a critic warm-up, s the first actor iteration and p the last push boundary before rollout k was launched, rollout k lacks exactly max(0, k - s) - max(0, p - s) actor updates, which is between 0 and I |
| `RolloutTraining.SyncIsFresh` | slime/train.py:73-99 | The synchronous loop has staleness 0 |
| `RolloutTraining.AsyncMatchesSync` | slime/train_async.py:37-73 | An asynchronous iteration equals the synchronous one exactly when only the critic trains, it is the first, or the actor did not train in the one before |
| `HereDocs.FramedTestIsLineTest` | GeneralAgent/sft_training/convert_to_openclaw_compat.py:292 | The framed substring test asks whether the delimiter is a line of the text |
| `HereDocs.TakenCandidates` | GeneralAgent/sft_training/convert_to_openclaw_compat.py:289-295 | At most as many candidate delimiters are taken as the text has lines |
| `HereDocs.HeredocDelimiter` | GeneralAgent/sft_training/convert_to_openclaw_compat.py:289-295 | The loop terminates for every text with the first candidate that is no line of it |
| `HereDocs.HereDocDelivers` | GeneralAgent/sft_training/convert_to_openclaw_compat.py:366-374 | Read as a here-document by section 2.7.4 of the POSIX.1-2017 Shell Command Language, the generated command delivers exactly the right-stripped patch and a newline if and only if the last line of the right-stripped patch is not the delimiter |
| `HereDocs.TrailingBlankLosesLine` | GeneralAgent/sft_training/convert_to_openclaw_compat.py:372-373 | A patch ending in the delimiter and a blank is such a failing input |
| `JsonTexts.StringRead` | GeneralAgent/sft_training/convert_to_openclaw_compat.py:301-302 | A JSON string as it is written reads back as the text it was written for, by a reader of JSON strings after section 7 of RFC 8259 |
| `EditCalls.EditMeans` | GeneralAgent/sft_training/convert_to_openclaw_compat.py:393-405 | An edit call without `edits` and with both texts becomes one whose `edits` read as a list of one object: `oldText` is the old_string, `newText` the new_string, `replaceAll` is there exactly if replace_all is not empty, and the path is the one given |
| `ShellWords.JoinRead` | GeneralAgent/sft_training/convert_to_openclaw_compat.py:268-269 | A joined command is read, by the quoting and token rules of sections 2.2 and 2.3 of the POSIX.1-2017 Shell Command Language, as the words that were joined |
| `CommandMeanings.LsMeans` | GeneralAgent/sft_training/convert_to_openclaw_compat.py:310-313 | An ls call becomes a command of three words: ls, -la if `all` says yes and -l otherwise, and the path or a dot |
| `CommandMeanings.RgReads` | GeneralAgent/sft_training/convert_to_openclaw_compat.py:316-348 | The ripgrep words are read as the search asked for, its pattern, path, case, mode, context lines and glob, if and only if neither pattern nor path looks like an option |
| `CommandMeanings.GrepReads` | GeneralAgent/sft_training/convert_to_openclaw_compat.py:316-348 | The grep words are read as the same search, but for case and glob, under the same condition |
| `CommandMeanings.FallbackIsWantedIff` | GeneralAgent/sft_training/convert_to_openclaw_compat.py:325-342 | That fallback is the search asked for if and only if case matters or lines are printed, and the glob has no directory part |
| `SearchCommands.GrepMeans` | GeneralAgent/sft_training/convert_to_openclaw_compat.py:316-348 | A grep call becomes a command that runs the ripgrep words if rg is there and the grep words otherwise |
| `SearchCommands.FindMeans` | GeneralAgent/sft_training/convert_to_openclaw_compat.py:351-363 | A find call becomes a command that lists files by ripgrep with the glob if rg is there, and otherwise by find with what follows the last slash of it and errors discarded; two hundred lines of either |
| `CallMeanings.PatchMeans` | GeneralAgent/sft_training/convert_to_openclaw_compat.py:366-374 | An apply_patch call becomes a here-document whose delimiter is the first of PATCH, PATCH_1, PATCH_2, ... that is no line of the patch |
| `CallMeanings.ProcessMeans` | GeneralAgent/sft_training/convert_to_openclaw_compat.py:406-415 | A process call keeps every argument but these: read becomes log, signal becomes kill, `signal` goes, and `pid` becomes `sessionId` if there was none |
| `CallMeanings.RefusedIff` | GeneralAgent/sft_training/convert_to_openclaw_compat.py:377-405 | Exactly these calls are refused: grep and find without a pattern, apply_patch without a patch, edit without edits or both texts, and tools outside the profile that are not migrated |
| `CallMeanings.RefusedUnderItsName` | GeneralAgent/sft_training/convert_to_openclaw_compat.py:317-395 | Each under its own error |
| `CallMeanings.OtherCallsStay` | GeneralAgent/sft_training/convert_to_openclaw_compat.py:378-381 | All other calls keep their name and arguments, and under the older profile all calls of its tools |
| `ToolCalls.RenderXmlToolCall` | GeneralAgent/sft_training/convert_to_openclaw_compat.py:298-307 | The parts list joins to the rendered call |
| `ToolCalls.ParseRendered` | GeneralAgent/sft_training/convert_to_openclaw_compat.py:264-307 | Parsing a rendered call's body gives back the arguments, for distinct names and trimmed values free of the closing markup |
| `ToolCalls.BodyIsCloseFree` | GeneralAgent/sft_training/convert_to_openclaw_compat.py:80-90 | The body of a rendered call contains no end of a call, so the scanner stops at the right place |
| `ToolCalls.ParsedIsPrintable` | GeneralAgent/sft_training/convert_to_openclaw_compat.py:264-265 | Whatever the parser returns meets those conditions, so printing and parsing it again changes nothing |
| `CallTexts.CallAtIff` | GeneralAgent/sft_training/convert_to_openclaw_compat.py:80-84 | The scanner finds a call at a position if and only if one is written there: the opening tags with white space between them, a tool name, a text in which no end of a call begins, and the closing tags |
| `ConvertedCalls.ParsedMeans` | GeneralAgent/sft_training/convert_to_openclaw_compat.py:264-265 | For every cut of a call body into whole parameters and gaps in which none begins: a key has the value of its last parameter, without the white space around it, and a key of no parameter has none |
| `ConvertedCalls.ParamCutExists` | GeneralAgent/sft_training/convert_to_openclaw_compat.py:264-265 | Every body can be cut so |
| `Text.StripMeans` | GeneralAgent/sft_training/convert_to_openclaw_compat.py:265 | strip() takes white space off both ends and nothing else |
| `ConvertedCalls.LayoutIs` | GeneralAgent/sft_training/convert_to_openclaw_compat.py:298-307 | A printed call has one line for each tag and its values on lines of their own |
| `Migrations.TransformIsStable` | GeneralAgent/sft_training/convert_to_openclaw_compat.py:377-416 | A rewritten call has a tool name, printable arguments, and is its own rewriting |
| `Migrations.ProcessIsStable` | GeneralAgent/sft_training/convert_to_openclaw_compat.py:406-415 | Renaming process actions and pids twice is renaming them once |
| `Converter.TransformIsIdempotent` | GeneralAgent/sft_training/convert_to_openclaw_compat.py:419-432 | Substituting tool calls again changes no text and reports the same errors, for every text, well formed or not |
| `Converter.SubstituteCalls` | GeneralAgent/sft_training/convert_to_openclaw_compat.py:424-432 | The left-to-right substitution loop with its errors list |
| `Converter.RewrittenCallIsKept` | GeneralAgent/sft_training/convert_to_openclaw_compat.py:424-432 | What the callback puts in place of a call is again a call, up to its own end whatever follows; its own rewriting is itself and reports the same error |
| `ConvertedCalls.ConversionMeans` | GeneralAgent/sft_training/convert_to_openclaw_compat.py:424-432 | For every cut of a text into its calls and the gaps between them: the converted text is the pieces one after the other, where gaps and refused calls stay and any other call is one that is read with the name and the arguments it is rewritten to; the errors are those of the refused calls, in order |
| `ConvertedCalls.CallCutExists` | GeneralAgent/sft_training/convert_to_openclaw_compat.py:424-432 | Every text can be cut so |
| `Converter.SweepTags` | GeneralAgent/sft_training/convert_to_openclaw_compat.py:447-449 | The final sweep reports every function tag of a tool that is not allowed |
| `AssistantContent.ConvertIsFixpoint` | GeneralAgent/sft_training/convert_to_openclaw_compat.py:419-450 | A second conversion of any assistant text returns the same text and the same errors |
| `AssistantContent.OpenIsSwept` | GeneralAgent/sft_training/convert_to_openclaw_compat.py:85 | Every `<tool_call>` that is closed later lies in one of the blocks the sweep finds |
| `AssistantContent.FullCallIsCall` | GeneralAgent/sft_training/convert_to_openclaw_compat.py:434-435 | On a swept block the full match agrees with the match the substitution looks for, although the one may extend a call's body and the other may not |
| `AssistantContent.AcceptedIff` | GeneralAgent/sft_training/convert_to_openclaw_compat.py:419-450 | A text is accepted without errors if and only if every call could be rewritten, every block of the result is an XML call of a tool of the profile or JSON that names a tool of the profile or a migratable one, and every function tag names a tool of the profile |
| `AssistantContent.AcceptedCallsAreAllowed` | GeneralAgent/sft_training/convert_to_openclaw_compat.py:447-449 | In an accepted text every XML call, wherever it begins, names a tool of the profile |
| `AssistantContent.AcceptedToolsAreAllowedIff` | GeneralAgent/sft_training/convert_to_openclaw_compat.py:434-446 | All blocks of an accepted text name tools of the profile if and only if no JSON block names a migratable tool |
| `InputBlocks.OtherBlocksKept` | GeneralAgent/sft_training/convert_to_openclaw_compat.py:432-434 | When the calls of a text and its JSON blocks do not overlap and the rewritten calls hold no `</tool_call>` of their own, the blocks of the result that are no calls are those of the input, in order |
| `InputBlocks.InputToolsAreAllowedIff` | GeneralAgent/sft_training/convert_to_openclaw_compat.py:434-446 | Read off the input: if its calls and JSON blocks do not overlap and no text beginning with `<` reads as JSON, the blocks of an accepted result name only tools of the profile if and only if no JSON block of the input names a migratable tool |
| `AssistantContent.JsonBlockAcceptedIff` | GeneralAgent/sft_training/convert_to_openclaw_compat.py:434-446 | A text that is one block around a text without `<` is unchanged by conversion, and accepted exactly when its JSON names a tool of the profile or a migratable one |
| `AssistantContent.JsonLsIsAccepted` | GeneralAgent/sft_training/convert_to_openclaw_compat.py:62-63 | Under the full profile a JSON call of `ls` passes unchanged and without error although `ls` is no tool of the profile |
| `SweepMeanings.ErrorsMean` | GeneralAgent/sft_training/convert_to_openclaw_compat.py:433-450 | All errors of a conversion, for every cut of the converted text into its blocks and into its function tags: those of the refused calls; for each block that is no whole call, that it does not read as JSON or names a tool that is neither of the profile nor migrated; for each tag, that its tool is not of the profile |
| `SweepMeanings.BlockCutExists` | GeneralAgent/sft_training/convert_to_openclaw_compat.py:433 | Every text can be cut into its blocks and gaps |
| `SweepMeanings.TagCutExists` | GeneralAgent/sft_training/convert_to_openclaw_compat.py:447 | And into its function tags and gaps |
| `AssistantContent.SweepBlocks` | GeneralAgent/sft_training/convert_to_openclaw_compat.py:434-446 | The loop over the blocks with its errors list |
| `AssistantContent.TransformAssistantContent` | GeneralAgent/sft_training/convert_to_openclaw_compat.py:419-450 | Substitution, block sweep and tag sweep in the source's order |
| `TeacherPlans.BuildOutcomes` | GeneralAgent/sft_data_collection/make_teacher_fallback_plan.py:441-455 | Outcomes in record order for the terminal attempts, and exactly the other trial ids as missing |
| `TeacherPlans.DecideTask` | GeneralAgent/sft_data_collection/make_teacher_fallback_plan.py:457-511 | The verdict on one task, incomplete before not-run before succeeded before the task limit |
| `TeacherPlans.BuildTeacherRecords` | GeneralAgent/sft_data_collection/make_teacher_fallback_plan.py:404-515 | The loops over sorted tasks compute the plan, or fail on several runs |
| `TeacherPlans.BuiltPerTask` | GeneralAgent/sft_data_collection/make_teacher_fallback_plan.py:441-511 | A task of the plan gets teacher records exactly when all its attempts are terminal and none resolved it |
| `TeacherPlans.BuiltIncomplete` | GeneralAgent/sft_data_collection/make_teacher_fallback_plan.py:457-460 | An incomplete task is reported exactly when some attempt of some task is not terminal |
| `TeacherPlans.LimitKeepsPrefix` | GeneralAgent/sft_data_collection/make_teacher_fallback_plan.py:469-472 | A limit on tasks cuts the unlimited output short at a task boundary, after exactly that many tasks |
| `TeacherMeanings.BuildMeans` | GeneralAgent/sft_data_collection/make_teacher_fallback_plan.py:395-511 | With nothing capped a task gets the records it should, in its run, numbered from 90 and with the context of its attempts, if it has a student record with or without the skill, every such record has a result and no result is resolved; otherwise it gets none |
| `TeacherMeanings.GetsRecordsIff` | GeneralAgent/sft_data_collection/make_teacher_fallback_plan.py:395-511 | So with at least one teacher trial a task gets records if and only if that holds |
| `TeacherMeanings.RefusesIff` | GeneralAgent/sft_data_collection/make_teacher_fallback_plan.py:427-429 | A plan is refused exactly if two such student records are of different runs |
| `TeacherVerdicts.PlanMeans` | GeneralAgent/sft_data_collection/make_teacher_fallback_plan.py:438-515 | The whole output for any settings: the attempted tasks in dictionary order of bench and task; for each the first that holds of an attempt without a result when all must have one, no result at all, a resolved result, enough tasks already; otherwise its records; and what these verdicts add up to |
| `TeacherQueue.EnqueuedOnceAndOnlyWhenOwed` | GeneralAgent/sft_data_collection/watch_phase1_teacher_queue.py:115-185 | Over every run with restarts at any file operation and consumers moving files at will, a task is enqueued at most once, and only with every attempt terminal and none resolved |
| `TeacherQueue.CrashInHandLosesTask` | GeneralAgent/sft_data_collection/watch_phase1_teacher_queue.py:163-173 | Between skip marker and queue file two more operations deliver the task, but a crash there means that no later run ever does |
| `TeacherQueue.LostForever` | GeneralAgent/sft_data_collection/watch_phase1_teacher_queue.py:119-120 | A marked task without a queue file, not in hand, stays undelivered |
| `TeacherLosses.PollDelivers` | GeneralAgent/sft_data_collection/watch_phase1_teacher_queue.py:128-189 | A poll delivers exactly the unprocessed tasks it finds ready and owed records |
| `TeacherLosses.RestartDelivers` | GeneralAgent/sft_data_collection/watch_phase1_teacher_queue.py:115-120 | After a restart an undelivered task is delivered by the first poll that finds it ready and owed if and only if the restart scan found no trace of it |
| `TeacherLosses.LostIffCrashedInHand` | GeneralAgent/sft_data_collection/watch_phase1_teacher_queue.py:115-185 | Over every run from clean directories, with artifacts that only grow and consumers that only move files, a task owed records can never be delivered any more if and only if some crash fell between its skip marker and its queue file |
| `TeacherLosses.LossHappens` | GeneralAgent/sft_data_collection/watch_phase1_teacher_queue.py:163-173 | A concrete plan of one task, run and lost that way |
| `TeacherQueue.TaskBuildIsOwed` | GeneralAgent/sft_data_collection/watch_phase1_teacher_queue.py:142-155 | Asked about one task, the generator answers with that task's records only |
| `TeacherQueue.WatcherMatchesBatch` | GeneralAgent/sft_data_collection/watch_phase1_teacher_queue.py:128-189 | A watcher started on clean directories and never restarted that reports all tasks processed has enqueued, task by task and as a multiset, what the generator makes of the whole plan from the artifacts of that moment |
| `TeacherMeanings.DeliveriesMean` | GeneralAgent/sft_data_collection/watch_phase1_teacher_queue.py:115-185 | Over every run with restarts, whatever is enqueued is for a task whose student records with and without the skill all have results, none resolved, in the artifacts it was built from, and is what such a task gets |
| `TeacherMeanings.OrderMeans` | GeneralAgent/sft_data_collection/watch_phase1_teacher_queue.py:80-98 | The watcher goes through the tasks that have a student record whose mode begins with student_ and is no reflection |
| `TeacherMeanings.PollMeans` | GeneralAgent/sft_data_collection/watch_phase1_teacher_queue.py:128-189 | A poll delivers an unprocessed task if and only if all of its watched records have a status row and its attempts all have results, none resolved |
| `TeacherMeanings.RestartMeans` | GeneralAgent/sft_data_collection/watch_phase1_teacher_queue.py:115-120 | After a restart a task that is due is delivered by the next poll if and only if it has left no file in the five directories and no skip marker |
| `TaskWatcher.PollIsRun` | GeneralAgent/sft_data_collection/watch_phase1_teacher_queue.py:128-198 | A poll is a crash-free run of file operations |
| `TaskWatcher.PollAchieves` | GeneralAgent/sft_data_collection/watch_phase1_teacher_queue.py:131-197 | A poll settles exactly the tasks found ready, exits 0 exactly when all are settled, and exits 2 exactly when phase 1 has stopped, tasks remain and nothing was ready |
| `TaskWatcher.PollingWatcher.constructor` | GeneralAgent/sft_data_collection/watch_phase1_teacher_queue.py:115-120 | The restart scan marks as processed what has a file in any directory or a skip marker |
| `TaskWatcher.PollingWatcher.HandleTask` | GeneralAgent/sft_data_collection/watch_phase1_teacher_queue.py:131-185 | One task: skipped, left waiting, or marked, saved and enqueued, in the order of the file operations |
| `TaskWatcher.PollingWatcher.PollOnce` | GeneralAgent/sft_data_collection/watch_phase1_teacher_queue.py:128-198 | The polling loop's turn is the sequence of file operations, for artifacts that may change before every task |
| `Fingerprints.RecomputedFrame` | tools/relocate_repository.py:273-320 | A report's recomputation depends only on its declared upstream files and the skill files |
| `Fingerprints.RecomputedTwice` | tools/relocate_repository.py:277-320 | It changes digests under existing names only, and recomputing from the same files changes nothing more |
| `Fingerprints.PassesKeep` | tools/relocate_repository.py:269-329 | The refresh touches nothing but the listed reports, and in them only digests |
| `Fingerprints.QuietPassMeansSettled` | tools/relocate_repository.py:332-333 | A pass changes nothing if and only if every report equals its recomputation from the present files or has none, whatever depends on what |
| `Fingerprints.PassesSettle` | tools/relocate_repository.py:269-329 | In any tree, rank the reports of a part that reads no listed report outside it, no report below a source visited earlier and every report above any other source: after pass p every report of rank below p equals its recomputation, whatever the rest of the tree does |
| `Fingerprints.SettledIsFinal` | tools/relocate_repository.py:269-329 | From then on its content stays as it is, however many passes follow |
| `Fingerprints.RefreshIsPasses` | tools/relocate_repository.py:269-333 | Stopping at the first quiet pass gives the result of all passes |
| `Fingerprints.RefreshSettles` | tools/relocate_repository.py:257-333 | Four passes settle every report whose rank is below four |
| `DigestMeanings.SettledMeans` | tools/relocate_repository.py:273-329 | In keys and paths: a report is settled if and only if some source cannot be read or each digest key it has holds the digest of the file meant for it: the two parquet files and the build report of the input directory, the train manifest or else the manifest, the eval manifest, the combined digest of exactly the listed skill files, the two parquet files beside it |
| `DigestMeanings.SettledIffTrue` | tools/relocate_repository.py:277-320 | A report whose sources can be read equals its recomputation if and only if that holds |
| `DigestMeanings.RecomputedIffRead` | tools/relocate_repository.py:277-320 | A report is recomputed if and only if every file some key of it needs is there |
| `DigestMeanings.RefreshOneMeans` | tools/relocate_repository.py:273-329 | Refreshing one report makes its digests those of the files as they were, keeps every other key, value and file, and adds no key; a report whose sources cannot be read is left alone |
| `DigestMeanings.RefreshMakesTrue` | tools/relocate_repository.py:257-333 | After the four passes that holds of every report whose rank is below four |
| `ReportChains.ChainOutlasts` | tools/relocate_repository.py:269-333 | A chain is a list of reports that each hash the one before, beside any other digests and in any tree: provided the first pass rewrites the report just before the first link read against the visiting order, the tree is not settled after n passes unless n exceeds the number of such links |
| `ReportChains.ChainNeedsPasses` | tools/relocate_repository.py:269-333 | If the chain begins at a report that reads no listed one, its reports are settled after n passes if and only if n exceeds that number |
| `ReportChains.StaleSourceNeedsPasses` | tools/relocate_repository.py:269-333 | The same for a chain whose source is out of date while its links hold the digests their sources have now |
| `ReportChains.RefreshSettlesChain` | tools/relocate_repository.py:257-333 | So the four passes settle the reports of such a chain if and only if at most three of its links are read against the visiting order |
| `ReportChains.FourPassesFallShort` | tools/relocate_repository.py:269 | A concrete tree of five reports, visited in sorted order, that the four passes leave unsettled and a fifth would settle |
| `ReportRefresh.Tree.FileSha256` | tools/relocate_repository.py:207-219 | The memoised digest is the digest of the present content |
| `ReportRefresh.Tree.ManifestSkillSha256` | tools/relocate_repository.py:227-254 | The memoised skill digest is the one computed from present manifests and skill files |
| `ReportRefresh.SkillEntryAfterWrite` | tools/relocate_repository.py:229-235 | Rewriting a report cannot make a skill entry stale: its key is current only if no manifest was rewritten, and skill files are never reports |
| `ReportRefresh.Tree.WriteReport` | tools/relocate_repository.py:324-329 | Rewriting one report keeps both caches truthful |
| `ReportRefresh.Tree.RefreshReport` | tools/relocate_repository.py:272-331 | One report is rewritten exactly if its recomputation differs, and left alone when a source is missing |
| `ReportRefresh.Tree.RefreshPass` | tools/relocate_repository.py:270-331 | A pass over the reports; `pass_changed` tells whether any file differs from before |
| `ReportRefresh.Tree.RefreshReports` | tools/relocate_repository.py:257-337 | The in-place refresh through the caches equals the cache-free refresh |
| `Conversations.MergesGiveTheRuns` | GeneralAgent/sft_training/export_llamafactory.py:136-187 | The two merges turn a sequence of speaking turns into one turn per maximal run of one side, holding all of the run's texts with the separator each neighbour pair calls for |
| `Conversations.RunsAreTheTurns` | GeneralAgent/sft_training/export_llamafactory.py:162-187 | The runs are the turns, in order, none left out |
| `Conversations.RunsChangeSides` | GeneralAgent/sft_training/export_llamafactory.py:162-187 | Neighbouring runs are of different sides |
| `Conversations.MergesAreIdempotent` | GeneralAgent/sft_training/export_llamafactory.py:136-187 | Each merge pass leaves its own output alone, for any input |
| `Conversations.ConversationKeepsTheTexts` | GeneralAgent/sft_training/export_llamafactory.py:199-229 | The conversation holds every non-empty text up to the last assistant turn in order, alternates strictly and ends with the assistant |
| `Conversations.OrderNeverFails` | GeneralAgent/sft_training/export_llamafactory.py:231-243 | Of the order checks only empty_conversations and starts_with_assistant can fire, exactly when no assistant turn speaks or one speaks first |
| `Conversations.MergeConsecutiveToolMessages` | GeneralAgent/sft_training/export_llamafactory.py:136-159 | The loop with its pending tool outputs |
| `Conversations.MergeConsecutiveSameSideMessages` | GeneralAgent/sft_training/export_llamafactory.py:162-187 | The loop that extends the last turn in place |
| `Conversations.ReadMessages` | GeneralAgent/sft_training/export_llamafactory.py:199-223 | System texts and speaking turns in order, or the first unknown role |
| `Conversations.ConvertRecord` | GeneralAgent/sft_training/export_llamafactory.py:190-253 | A record is refused for exactly the reason read off its messages and otherwise exported as system text plus conversation |
| `ConversationMeanings.ExportedMeans` | GeneralAgent/sft_training/export_llamafactory.py:190-253 | An exported record in the messages' roles and texts: the system's texts joined by empty lines; then, up to the last assistant message that says something, one turn for each run of messages of one side, with tool outputs joined by the tags between two responses and anything else by empty lines; an assistant's tool calls follow its text unless that has some |
| `ConversationMeanings.RefusedMeans` | GeneralAgent/sft_training/export_llamafactory.py:190-243 | A record is refused for the first of these: no messages; a marker in their contents, line by line; a role that is unknown; no assistant message that says something; the assistant's being the first that does |
| `Splits.MidpointGap` | GeneralAgent/sft_data_collection/common.py:311-314 | Neighbouring holdout positions are floor(n/h) or ceil(n/h) apart |
| `Splits.MidpointsIncrease` | GeneralAgent/sft_data_collection/common.py:311-314 | They increase strictly |
| `Splits.MidpointInRange` | GeneralAgent/sft_data_collection/common.py:311-314 | Each is a position of the list, so clamping never acts |
| `Splits.HoldoutIsEven` | GeneralAgent/sft_data_collection/common.py:304-324 | Of distinct tasks exactly h are held out, at those positions of the sorted list |
| `Splits.HoldoutForgetsOrder` | GeneralAgent/sft_data_collection/common.py:291-324 | The holdout does not depend on the input order |
| `Splits.StableEvenHoldout` | GeneralAgent/sft_data_collection/common.py:291-324 | The selection and de-duplication loops |
| `SplitMeanings.HoldoutMeans` | GeneralAgent/sft_data_collection/common.py:291-324 | For any list and count: nothing, the whole sorted list, or the entries of the sorted list at the centres of as many equal parts, first occurrences only |
| `Splits.EvenSplitPartitions` | GeneralAgent/sft_data_collection/build_splits.py:87-92 | Every task is in exactly one of train and holdout, and for distinct tasks the sizes add up |
| `Splits.TrainAndTestAreDisjoint` | GeneralAgent/sft_data_collection/build_splits.py:98-159 | Train and test of a bench never meet, so the closing assertion never fires; an external test set wins every tie and removes nothing else |
| `SplitMeanings.SftTrainMeans` | GeneralAgent/sft_data_collection/build_splits.py:87-159 | The test set is the holdout or the external one, and training gets the rest of the sorted list, in order |
| `Splits.EvalShare` | GeneralAgent/rl_data_prep/build_rl_split_v2.py:46-49 | Of two or more distinct tasks the evaluation share is at least one and leaves at least one |
| `SplitMeanings.EvalCountMeans` | GeneralAgent/rl_data_prep/build_rl_split_v2.py:46-48 | The number held out is the whole number nearest to the share, halves to the even one, but at least one and at most all but one |
| `SplitMeanings.SplitOneMeans` | GeneralAgent/rl_data_prep/build_rl_split_v2.py:46-68 | Evaluation gets the holdout of that many tasks and training the rest of the sorted list, in order and without the bad tasks, which are listed as excluded |
| `Splits.SplitOneAccounts` | GeneralAgent/rl_data_prep/build_rl_split_v2.py:46-68 | Every train task ends in exactly one of RL train, RL eval and excluded, the excluded ones being the bad ones |
| `Splits.RlNeverSeesTest` | GeneralAgent/rl_data_prep/build_rl_split_v2.py:71-89 | No task held out for SFT test reaches the RL data |
| `Splits.RoundedBounds` | GeneralAgent/sft_data_collection/make_trial_plan.py:113 | Half-to-even rounding stays within one half of the quotient |
| `Splits.PilotPositionsIncrease` | GeneralAgent/sft_data_collection/make_trial_plan.py:110-115 | Pilot positions increase strictly although ties round to even |
| `Splits.PilotsAreSpread` | GeneralAgent/sft_data_collection/make_trial_plan.py:110-115 | Pilots are distinct, in the caller's order, and include both ends |
| `SplitMeanings.PilotsMean` | GeneralAgent/sft_data_collection/make_trial_plan.py:105-115 | Pilot i of n is the task nearest to i/(n - 1) of the way from the first task to the last, halves to the even position |
| `Splits.SelectTasks` | GeneralAgent/sft_data_collection/make_trial_plan.py:96-115 | The selection loop and its three special cases |
| `Sorting.SortedForgetsOrder` | GeneralAgent/sft_data_collection/common.py:308 | Sorting task ids forgets their order |
| `Sorting.SortedTextsAre` | GeneralAgent/sft_data_collection/common.py:308 | Sorted ids are the same ids in dictionary order |
| `SkillMerging.CacheKeySymmetric` | skill_libraries/merge_skills.py:146-149 | Within one name the order of a pair does not matter |
| `SkillMerging.SameKeyIff` | skill_libraries/merge_skills.py:146-149 | Two questions share an answer if and only if they are about the same name and the same two places, in either order, as long as no name, repository or path has a bar in it |
| `SkillMerging.BarsCollide` | skill_libraries/merge_skills.py:146-149 | With a bar in a path two different places can share every answer |
| `SkillMerging.MergeJudge.ScorePair` | skill_libraries/merge_skills.py:151-197 | A cached pair puts no question to the arbitrary judge; any other is put to it one to three times, again only after a failed call, and no other pair is; the answer is the verdict, or the same skill if none could be read; it is kept and no earlier one changes |
| `SkillMerging.MergeJudge.Cluster` | skill_libraries/merge_skills.py:199-218 | The clusters partition the candidates; members were judged the same as their representative and different from those of all earlier clusters |
| `SkillMerging.ClustersAreClasses` | skill_libraries/merge_skills.py:199-218 | If the verdicts follow an equivalence, two candidates share a cluster exactly when they are equivalent |
| `SkillMerging.OrderDoesNotMatter` | skill_libraries/merge_skills.py:199-218 | Then every cluster occurs, as a set, for any other order of the candidates |
| `SkillMerging.PickBestInCluster` | skill_libraries/merge_skills.py:247-251 | The survivor is the first longest skill, a top-level one if there is any |

## Left out

- Subprocesses, Docker waits, locks, signals, clocks, logging and JSON reading: a trial run is an arbitrary status, and final result rows form a set that only grows.
- Flat queue: the order of one task's trials is not claimed there, since rotating a blocked record past others can change it.
- ClawSlots.AssignClawWorkerSlots: works on record values; the source writes `CLAW_WORKER_IDX` into each record's environment in place, and the slot text is a number here.
- Retries.LaunchAll: trial ids are taken to be distinct, as the plan builder makes them.
- ClawSlots.RunningClawTrialsAreIsolated: the 100-port shift per slot is modelled as the range of ports from 100 times the slot; the ports a task itself asks for are not.
- AssistantContent.TransformAssistantContent: what reading a block's inner text as JSON gives for its name is a parameter, and so is Python's `int()`; the scan for blocks and the full-match test are modelled.
- ShellWords.JoinRead: the reader knows quoting, blanks and operators; expansions, line continuations, and a number just before a redirection as a token of its own are not part of it.
- CommandMeanings.GrepReads: the readers of the two tools' options know the options these commands can hold; an attached value, a double dash and grouped letters other than grep's own are not among them, and what a pattern matches is not modelled.
- JsonTexts.StringRead: escapes for characters outside the basic plane, which the writer never uses, are not read as pairs.
- Message-level structured tool calls of the converter, its system-prompt rewriting and its record-level checks.
- HereDocs.HereDocDelivers: a here-document whose delimiter is the last line of the input counts as terminated, with or without a final newline.
- TeacherPlans.BuildTeacherRecords: the prompt context is an arbitrary function of a task's attempts, endpoint settings and budgets are left out, and one call sees one state of the disk.
- TeacherQueue.EnqueuedOnceAndOnlyWhenOwed: at most once is all that holds of every run; TeacherLosses.LostIffCrashedInHand says when a task is not delivered at all.
- TeacherLosses.LostIffCrashedInHand: artifacts are taken to grow only and consumers to move queue files without removing any; a task whose files somebody deletes is not covered.
- TeacherQueue.WatcherMatchesBatch: results of finished attempts are taken not to change, and the plan file stays the same between restarts.
- ReportRefresh.Tree.WriteReport: a rewrite gets a later modification time than anything hashed before; two rewrites within one clock tick and of one size would share a memo key.
- ReportRefresh.Tree.RefreshReports: of the unresolved reports only membership in the list is stated; the problem texts and counts are not modelled.
- Fingerprints.RefreshSettles: nothing is claimed for reports on or above a cycle of reports that hash one another, except that a quiet pass means all are settled.
- ReportChains.ChainNeedsPasses: the versions of a chain's reports that occur in turn are taken to have different digests, and a report whose path is given as a manifest of another is not covered.
- InputBlocks.InputToolsAreAllowedIff: where a JSON block overlaps a call nothing is read off the input; AssistantContent.AcceptedIff still says what the result holds.
- Content stringification and the text of structured tool calls in the normaliser: a message carries both as given strings.
- Holdout, pilot and evaluation positions are exact quotients, not floating point; bad-task tables are a parameter.
- Splits.SplitOneAccounts: the statistics about tasks already seen in SFT data are not modelled.
- SkillMerging.MergeJudge.Cluster: groups are clustered one at a time, not in parallel threads, and the HTTP exchange is an arbitrary reply.
- Naming of split clusters, copying of skills and the incremental merge scripts.
- RolloutTraining.TrainAsync: saving, evaluation, metrics and weight comparison are left out, and so are failing generations.
- RolloutTraining.TrainSync: offloading of the training models is left out; offloading of the rollout engines is modelled.
- Dashboards, comparison reports, data validators and the remaining scripts: they would add only easier members.
