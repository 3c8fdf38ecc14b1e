# Verified model of BitBake's task engine and of the board's small kernels

A Dafny model of five parts of the repository, with proofs of what they promise.

- **BitBake's task engine.** `TaskData` resolves names to provider files and
  spreads failure through its tables (`Failures.dfy`, `Resolution.dfy`,
  `TaskData.dfy`), and `Confinement.dfy` says how far failure can get. `RunQueue`
  marks, prunes and renumbers the task graph (`Pruning.dfy`, `RunQueue.dfy`),
  weighs the tasks and finds cycles (`TaskWeights.dfy`, `PathCount.dfy`), orders
  them (`Schedulers.dfy`) and runs them with a bounded number of child processes
  (`RunTrace.dfy`, `Execution.dfy`), skipping those whose stamp files are current
  (`Rebuild.dfy`). `Graph.dfy` holds what is needed about paths and cycles.
- **BitBake's variable stores.** `DataSmart` layers shadow one another and cache
  expansions (`Expansion.dfy` defines expansion without a cache, `ExpansionLaws.dfy`
  says in terms of texts what becomes of a reference, `Acyclic.dfy` and
  `CleanStores.dfy` when expansion ends, `DataSmart.dfy` is the store, `StoreRuns.dfy`
  is about any sequence of operations on it); `COWDictMeta` layers copy on write (`Cow.dfy`,
  `CowRuns.dfy`).
- **The JTAG flash programmer.** The driver's pin waveforms against the TAP
  controller of section 6.1 of IEEE Std 1149.1-2001 (`Jtag.dfy`), and its command
  sequences against a model of an AM29F800 (`Flash.dfy`).
- **Integer kernels.** Circle and line of the frame buffer test (`Draw.dfy`), and
  the base64 encoder of the git proxy against section 4 of RFC 4648 (`Base64.dfy`).
- **Provider choice and dependency strings.** Version order (`Versions.dfy`),
  choice of a provider (`Providers.dfy`), `tokenize` and `flatten`
  (`DepStrings.dfy`) and `dep_parenreduce` (`ParenReduce.dfy`).

`Collections.dfy`, `Texts.dfy` and `Wrappers.dfy` hold what several parts use.

Objects that the source updates in place are classes, its loops are loops, and
each method is proved against a specification function or predicate whose own
laws are lemmas. Exceptions are result values. What the outside world does
(child processes, the clock, stamp files, metadata) is left open: the proofs hold
for every answer that the contracts of `ForkChild` and `WaitPid`, or the
parameters, allow.

Five results say that the code does less than one would expect, and when:

- A preferred version picks what it asks for, whatever files there are, if and only
  if it names neither an epoch nor a revision. An epoch is compared as a number with
  a text, and the pattern's second group leaves nothing for the third
  (`Providers.PreferenceWorksIfPlain`, `Providers.MetIsIntended`).
- References that never lead back do not make expansion end: braces of different
  values can combine to new references for ever (`AcyclicStores.AcyclicWithoutAnswer`).
  In a store whose values hold braces only as complete `${NAME}` references, and no
  `@`, every variable expands to a text if and only if the references in the values
  lead down (`CleanStores.TextsIfOrderly`); with `@` or references of a variable to
  itself it still has an answer (`CleanStores.CleanStoreExpands`). Other stores, with
  references inside references, are covered by a condition on what the values expand
  to (`AcyclicStores.EverythingExpands`).
- Setting a mutable value in a copy-on-write layer does not undo a deletion: the
  value is read back exactly when no layer holds an immutable value or a deletion
  marker of the key (`Cows.PutSetLaws`, `Cows.NearestIsShown`).
- A target can fail although a file could provide it. If the first of the files that
  are eligible for it needs a failed target, it fails as soon as it has been entered,
  and the target fails with it before the others are tried
  (`TaskDatas.TaskData.EnterBuildProviders`; `TaskDatas.FirstFileDecides` is such a
  run). So what fails is bounded by the rule that a target depends on its first
  eligible file. The rule that all eligible files must fail says the same exactly where
  no target with a hopeless first file has another eligible file with hope
  (`Confinement.RulesAreExpected`). Besides, the walk that drops failed files skips
  the file behind each one that it drops (`Resolution.FailedFileStays`).
- A steep line leaves the box of its end points exactly when it is longer than one
  row and more than three times as high as wide (`Draw.LineStaysInBox`).

## Model

| member | source | states |
|---|---|---|
| `TaskWeights.CalculateTaskWeights` | poky/bitbake/lib/bb/runqueue.py:259-316 | the wave ends on every graph; the problem tasks are exactly those on or below a cycle, there are some exactly when the graph is cyclic, and otherwise each weight is 1 at an endpoint and else the sum over the dependents |
| `TaskWeights.Sweep` | poky/bitbake/lib/bb/runqueue.py:285-294 | one pass over the wave keeps weights and remaining counts equal to what has been pushed along the edges, and collects exactly the newly finished tasks, each once |
| `TaskWeights.Unfinished` | poky/bitbake/lib/bb/runqueue.py:300-304 | the tasks without a complete marker or with remaining dependents, and no others |
| `TaskWeights.RankedIsPositive` | poky/bitbake/lib/bb/runqueue.py:278-293 | every task that the wave has reached has a weight of at least 1, so -1 marks a used entry of the weight list safely |
| `PathCount.EndpointPathsExact` | poky/bitbake/lib/bb/runqueue.py:629-639 | the finite set of paths collected by recursion holds exactly the dependency paths from an endpoint to the task |
| `PathCount.WeightCountsPaths` | poky/bitbake/lib/bb/runqueue.py:259-316 | the weight of a task of an acyclic graph is the number of dependency paths from endpoints to it |
| `Pruning.MarkActive` | poky/bitbake/lib/bb/runqueue.py:540-555 | the recursive marking ends, marks only what the task reaches and leaves the new marks closed under dependencies |
| `Pruning.MarkTargets` | poky/bitbake/lib/bb/runqueue.py:532-582 | the marked tasks are exactly those that some target reaches |
| `Pruning.PrunedSplit` | poky/bitbake/lib/bb/runqueue.py:588-600 | deleting entries one by one with shifted positions keeps exactly the active entries of the part already visited, in order |
| `Pruning.MapsAreBijective` | poky/bitbake/lib/bb/runqueue.py:588-600 | maps is an order-preserving bijection from the active ids onto the new ids, with -1 for the others |
| `Pruning.RenumberedIsRestriction` | poky/bitbake/lib/bb/runqueue.py:617-624 | the remapped graph is isomorphic to the subgraph of the active tasks |
| `Pruning.PathUp` | poky/bitbake/lib/bb/runqueue.py:617-624 | every path of the pruned graph is a path of the full graph |
| `Pruning.PathDown` | poky/bitbake/lib/bb/runqueue.py:617-624 | every path of the full graph from an active task is a path of the pruned graph |
| `Pruning.CyclesCorrespond` | poky/bitbake/lib/bb/runqueue.py:617-642 | the pruned graph has a cycle exactly when the targets reach a cycle of the full graph |
| `RunQueues.RenumberDeps` | poky/bitbake/lib/bb/runqueue.py:618-624 | the new dependency set of one task, and the exact condition of the error branch |
| `RunQueues.AddRevdep` | poky/bitbake/lib/bb/runqueue.py:628-631 | one task enters the reverse dependencies of exactly its dependencies |
| `RunQueues.FindEndpoints` | poky/bitbake/lib/bb/runqueue.py:633-644 | endpoints are exactly the tasks without dependents; a pair error means a cycle, and without one no two tasks depend on each other |
| `RunQueues.RunQueue.constructor` | poky/bitbake/lib/bb/runqueue.py:154-160 | the queue that Step A of the preparation hands over |
| `RunQueues.RunQueue.Prune` | poky/bitbake/lib/bb/runqueue.py:584-601 | all lists keep exactly their active entries and maps is the numbering of the survivors |
| `RunQueues.RunQueue.Remap` | poky/bitbake/lib/bb/runqueue.py:615-624 | the branch for an invalid mapping is never taken and the result is the restricted graph |
| `RunQueues.RunQueue.FillRevdeps` | poky/bitbake/lib/bb/runqueue.py:628-631 | the reverse dependencies are the inverse of the dependencies |
| `RunQueues.RunQueue.ChooseScheduler` | poky/bitbake/lib/bb/runqueue.py:652-658 | the priority map is a permutation of the tasks; for every setting but completion no task stands in front of a heavier one; for completion the tasks of a file stand together, within a file the heavier ones first, and each file stands behind those that offer something at least as heavy |
| `RunQueues.RunQueue.PrepareRunqueue` | poky/bitbake/lib/bb/runqueue.py:532-658 | preparation succeeds exactly for a non-empty target list that reaches no cycle; then the queue is the reachable subgraph, acyclic and weighted, and the map is ordered as its scheduler promises |
| `Schedulers.Next` | poky/bitbake/lib/bb/runqueue.py:69-78 | the first ready task of the map, none exactly when no task is ready |
| `Schedulers.SpeedPrioMap` | poky/bitbake/lib/bb/runqueue.py:85-103 | a permutation of the tasks in non-increasing weight |
| `Schedulers.NextIsHeaviest` | poky/bitbake/lib/bb/runqueue.py:69-103 | the task chosen from the speed map has the largest weight of all ready tasks |
| `Schedulers.TakeFile` | poky/bitbake/lib/bb/runqueue.py:125-134 | the entries of one file move to the priority map and the deletions by falling position leave exactly the others |
| `Schedulers.CompletionPrioMap` | poky/bitbake/lib/bb/runqueue.py:113-134 | the map is the speed map grouped by file, and a permutation of the tasks |
| `Schedulers.GroupIsPermutation` | poky/bitbake/lib/bb/runqueue.py:121-134 | grouping neither loses nor repeats a task |
| `Schedulers.GroupIsContiguous` | poky/bitbake/lib/bb/runqueue.py:121-134 | the tasks of one file stand next to each other |
| `Schedulers.GroupIsStable` | poky/bitbake/lib/bb/runqueue.py:121-134 | within a file the tasks keep their order |
| `Schedulers.GroupPair` | poky/bitbake/lib/bb/runqueue.py:113-134 | of any two tasks in the completion map: within one file the first is not lighter, and the file of the first has, at or before it, a task that is not lighter than the second |
| `RunTrace.LegalIsAccounted` | poky/bitbake/lib/bb/runqueue.py:899-979 | in every reachable state each begun task is complete, failed or live, never two of these, its dependencies are complete, and the live children fit the slots |
| `RunTrace.NoTaskIsLost` | poky/bitbake/lib/bb/runqueue.py:945-976 | completed, failed and active tasks always add up to the tasks begun |
| `RunTrace.StartsAreSafe` | poky/bitbake/lib/bb/runqueue.py:916-962 | over any interleaving: no task begins before all its dependencies completed, none begins twice, and after it begins at most as many children run as the setting allows, or one |
| `RunTrace.UnrunExactlyBelowFailures` | poky/bitbake/lib/bb/runqueue.py:963-979 | at rest, a task of an acyclic graph has not begun exactly when it transitively depends on a failed task |
| `Rebuild.SkipKeepsStamps` | poky/bitbake/lib/bb/runqueue.py:920-926 | skipping a current task keeps the relation between stamps and progress |
| `Rebuild.ForkKeepsStamps` | poky/bitbake/lib/bb/runqueue.py:928-962 | starting a stale task keeps it, with the fork not before any stamp it depends on |
| `Rebuild.FailureKeepsStamps` | poky/bitbake/lib/bb/runqueue.py:963-973 | a failing child keeps it |
| `Rebuild.SuccessKeepsStamps` | poky/bitbake/lib/bb/build.py:286-288 | a succeeding child leaves a stamp not older than those of its dependencies |
| `Rebuild.OnlyStaleTasksRun` | poky/bitbake/lib/bb/runqueue.py:788-828 | a task runs only if it, or something it considers directly or indirectly, was out of date |
| `Rebuild.RebuildIsExact` | poky/bitbake/lib/bb/runqueue.py:788-828 | with all stamps older than the run, a task reached is rebuilt if and only if it or something it considers was out of date; so one whose considered dependency re-ran is never skipped |
| `Rebuild.CompletedIsCurrent` | poky/bitbake/lib/bb/runqueue.py:788-828 | after a run a completed task is current exactly when it may have a stamp and the dependencies it considers have theirs |
| `Rebuild.SecondRunSkipsAll` | poky/bitbake/lib/bb/runqueue.py:788-979 | after a run that completed every task, a second run forks nothing, fails nothing and changes no stamp, and once it is at rest it has skipped every task |
| `Execution.MarkBuildable` | poky/bitbake/lib/bb/runqueue.py:884-897 | after a completion exactly the tasks with all dependencies complete are buildable |
| `Execution.InitialFlags` | poky/bitbake/lib/bb/runqueue.py:868-875 | at the start exactly the tasks without dependencies are buildable |
| `Execution.FailuresMean` | poky/bitbake/lib/bb/runqueue.py:838-848 | a run that has come to rest reports no failed file exactly when every task completed |
| `Execution.RunQueueExecution.constructor` | poky/bitbake/lib/bb/runqueue.py:856-875 | the executor keeps the queue's dependencies, files and priority map and the given policy; the stamp file of a task is its file's stamp, a dot and its name; the first state satisfies the whole invariant of execution |
| `Execution.RunQueueExecution.CheckStampTask` | poky/bitbake/lib/bb/runqueue.py:788-828 | true exactly when the stamp exists, the task may have one and no considered dependency lacks one or has a newer one; under perfile those of the task's own file are considered, under whitelist also those of files that are not listed, under every other policy all |
| `Execution.RunQueueExecution.TaskComplete` | poky/bitbake/lib/bb/runqueue.py:877-897 | the flags follow the set of complete tasks |
| `Execution.RunQueueExecution.ForkChild` | poky/bitbake/lib/bb/runqueue.py:930-933 | a new pid, some time later; nothing else is known |
| `Execution.RunQueueExecution.WaitPid` | poky/bitbake/lib/bb/runqueue.py:964 | any live child with any status; one that succeeded left its stamp since its fork |
| `Execution.RunQueueExecution.SkipTask` | poky/bitbake/lib/bb/runqueue.py:920-926 | a current task counts as complete and the invariant holds |
| `Execution.RunQueueExecution.StartTask` | poky/bitbake/lib/bb/runqueue.py:928-960 | a stale ready task becomes a live child and the invariant holds |
| `Execution.RunQueueExecution.BeginTask` | poky/bitbake/lib/bb/runqueue.py:918-962 | one more task begins, skipped exactly if its stamp was current and forked otherwise; the loop looks for another exactly if the task was skipped or slots are free |
| `Execution.RunQueueExecution.NoteFailure` | poky/bitbake/lib/bb/runqueue.py:967-970 | the books after a failed child: its file is listed as failed |
| `Execution.RunQueueExecution.NoteSuccess` | poky/bitbake/lib/bb/runqueue.py:965-977 | the books after a child that succeeded |
| `Execution.RunQueueExecution.Reap` | poky/bitbake/lib/bb/runqueue.py:963-978 | one live child ends, as success or failure, and the invariant holds |
| `Execution.RunQueueExecution.PickTask` | poky/bitbake/lib/bb/runqueue.py:918 | the first ready task of the priority map, or none exactly when none is ready |
| `Execution.RunQueueExecution.Round` | poky/bitbake/lib/bb/runqueue.py:917-979 | one round of the loop: the first ready task of the priority map begins, or a child ends; a child is waited for only when the slots are taken or nothing is ready; the loop stops exactly if abort is set and a child has failed |
| `Execution.RunQueueExecution.ExecuteRunqueueInternal` | poky/bitbake/lib/bb/runqueue.py:899-979 | the loop ends; every task that began was the first ready one of the priority map; children were waited for only when the slots were taken or nothing was ready; it breaks off exactly if abort is set and a child failed, and nothing begins after that; unless it broke off, nothing is active and the tasks unrun are exactly those below a failed task |
| `Execution.RunQueueExecution.FinishRunqueue` | poky/bitbake/lib/bb/runqueue.py:981-998 | every child is waited for; nothing is forgotten |
| `Execution.RunQueueExecution.ExecuteRunqueue` | poky/bitbake/lib/bb/runqueue.py:830-848 | the files reported are exactly those of the failed tasks, none exactly when every task completed |
| `Execution.HeaviestBegins` | poky/bitbake/lib/bb/runqueue.py:69-103 | with the speed map, at every start of a run the task that begins has the largest weight of all tasks ready then |
| `Execution.BuildTwice` | poky/bitbake/lib/bb/runqueue.py:830-998 | an executor started on the prepared queue and the stamp files that a successful run of another one left, at any later time, reports no failure, skips every task and changes no stamp, if all tasks may have stamps |
| `Failures.FailureIsLeast` | poky/bitbake/lib/bb/taskdata.py:469-529 | after a failure has spread from a state at rest, the tables are at rest again and what has failed is closed under the rules of failure; the methods below show it to be the least such set |
| `Failures.OrderDoesNotMatter` | poky/bitbake/lib/bb/taskdata.py:469-529 | the outcome of a failing file, build target or runtime target does not depend on the order in which dictionaries are walked |
| `TaskDatas.TaskData.constructor` | poky/bitbake/lib/bb/taskdata.py:33-60 | empty tables |
| `TaskDatas.TaskData.EmptyIsConsistent` | poky/bitbake/lib/bb/taskdata.py:33-60 | resolution can start from empty tables |
| `Resolution.IdOf` | poky/bitbake/lib/bb/taskdata.py:62-93 | names keep their ids, and a name gets a new id only if it has none |
| `Resolution.DroppedLaws` | poky/bitbake/lib/bb/taskdata.py:378-381 | the walk drops failed files only, keeps the order, and keeps the first file if it has not failed |
| `Resolution.FailedFileStays` | poky/bitbake/lib/bb/taskdata.py:378-381 | of two failed files in a row the walk drops the first and leaves the second |
| `TaskDatas.TaskData.GetTaskId` | poky/bitbake/lib/bb/taskdata.py:105-131 | the one id of a task of a file; a new one starts with empty dependency lists and no entry changes |
| `TaskDatas.TaskData.AddTaskEntry` | poky/bitbake/lib/bb/taskdata.py:151-165 | the task has its parents and its inter-task dependencies in the lists, and nothing is lost |
| `TaskDatas.TaskData.AddTaskEntries` | poky/bitbake/lib/bb/taskdata.py:149-165 | the same for every declared task of the file |
| `TaskDatas.TaskData.AddDependencies` | poky/bitbake/lib/bb/taskdata.py:167-188 | the dependency tables spell exactly the names in the metadata |
| `TaskDatas.TaskData.AddTasks` | poky/bitbake/lib/bb/taskdata.py:133-197 | a file not seen before is entered with all its tasks and nothing else, and fails at once if it needs a failed target; with abort on it raises only if an external target has failed; the tables stay usable and failure confined in every case |
| `TaskDatas.TaskData.FailIfHopeless` | poky/bitbake/lib/bb/taskdata.py:190-197 | after the check every failed target has taken down all that needs it, the new file included |
| `TaskDatas.TaskData.FailFnid` | poky/bitbake/lib/bb/taskdata.py:469-489 | it ends; everything failed is in every closed set that holds the file, and with abort off the rules are spent, so exactly the least set has failed; with abort on it raises only at an external target |
| `TaskDatas.TaskData.RemoveBuildtarget` | poky/bitbake/lib/bb/taskdata.py:491-513 | the same from a build target: every file with that dependency and every file with a task that depends on it has failed, and as little else as the rules allow |
| `TaskDatas.TaskData.RemoveRuntarget` | poky/bitbake/lib/bb/taskdata.py:515-529 | the same from a runtime target: every file with that runtime dependency has failed |
| `TaskDatas.TaskData.AddBuildProvider` | poky/bitbake/lib/bb/taskdata.py:219-232 | the file is entered as a provider of the target with all its tasks, or has failed; or an exception as above |
| `TaskDatas.TaskData.AddRunProvider` | poky/bitbake/lib/bb/taskdata.py:234-247 | the same for a runtime target |
| `TaskDatas.TaskData.DropFailed` | poky/bitbake/lib/bb/taskdata.py:378-381 | exactly what the walk over the changing list leaves: only failed files are dropped, although some may stay behind |
| `TaskDatas.TaskData.EnterBuildProviders` | poky/bitbake/lib/bb/taskdata.py:398-404 | every file of the list becomes a provider or has failed, the providers of a new target in the order of the list; if the first one is new and needs a failed target, the target fails, whatever the others can do |
| `TaskDatas.TaskData.EnterRunProviders` | poky/bitbake/lib/bb/taskdata.py:461-467 | the same for a runtime target |
| `TaskDatas.FirstFileDecides` | poky/bitbake/lib/bb/taskdata.py:353-404 | a run in which a target fails although its second eligible file needs nothing and has not failed |
| `TaskDatas.TaskData.AddProviderInternal` | poky/bitbake/lib/bb/taskdata.py:353-404 | its own exception comes exactly if the item is not ignored and nothing provides it, or it has no entry and the walk has dropped all eligible files; otherwise every file left by the walk is a provider or has failed, in the order of the list; a first file that needs a failed target takes the item down; any other exception means that abort is on and an external target has failed |
| `TaskDatas.TaskData.AddRprovider` | poky/bitbake/lib/bb/taskdata.py:409-467 | the same for a runtime item |
| `Resolution.UnresolvedTargets` | poky/bitbake/lib/bb/taskdata.py:258-286 | exactly the names that are not ignored, not failed and have no provider entry |
| `TaskDatas.TaskData.ResolveBuildTarget` | poky/bitbake/lib/bb/taskdata.py:539-550 | one unresolved build target is entered exactly unless nothing provides it or the walk has dropped all its files, and has failed otherwise; with abort on its own exception is raised again if it is external, one that reached another external target is caught, and neither happens unless an external target may fail by the rules below |
| `TaskDatas.TaskData.ResolveRunTarget` | poky/bitbake/lib/bb/taskdata.py:551-556 | the same for a runtime target, where every exception of an external target is passed on |
| `TaskDatas.TaskData.BuildPass` | poky/bitbake/lib/bb/taskdata.py:538-550 | every name known before the pass is ignored, has an entry, has failed, or has only eligible files that provide it or have failed; a pass that adds nothing leaves every build target resolved, failed or ignored, one that adds something has found an answer; no pass lets failure out of names that obey the rules, and with abort on none loses an external target that is not among them; once one is lost, the pass goes on with tables that are usable but perhaps not at rest |
| `TaskDatas.TaskData.RunPass` | poky/bitbake/lib/bb/taskdata.py:551-556 | the same for runtime targets, without adding build targets; here every exception of an external target leaves the pass |
| `TaskDatas.TaskData.AddUnresolved` | poky/bitbake/lib/bb/taskdata.py:531-559 | when resolution ends by itself, every dependency of every file that has not failed is ignored or has a non-empty provider list of files that have not failed; after any number of passes every name known at the start has been tried; and nothing has failed but what is in every set of names that holds the earlier failures and obeys the rules: a target without provider or with a first eligible file in the set is in it, and so is a file that needs one of it. This holds with abort off always, and with abort on if no external target has failed; and with abort on neither an exception nor the failure of an external target happens unless one is in every such set |
| `Confinement.SpreadIsConfined` | poky/bitbake/lib/bb/taskdata.py:469-529 | the failure of a file or target among such names stays among them |
| `Confinement.UnprovidedMayFail` | poky/bitbake/lib/bb/taskdata.py:363-388 | a target that resolution removes is one of them |
| `Confinement.LeastConfines` | poky/bitbake/lib/bb/taskdata.py:353-559 | the intersection of all such sets is one itself |
| `Confinement.OthersMayFail` | poky/bitbake/lib/bb/taskdata.py:353-559 | names whose first eligible files and whose needs are again among them never fail: all other names obey the rules exactly if these provide for each other |
| `Confinement.RulesAreExpected` | poky/bitbake/lib/bb/taskdata.py:398-404 | these rules are the expected ones, that a target fails with all its eligible files, exactly where no target with a hopeless first file has another eligible file with hope |
| `TaskDatas.TaskData.RestIsSound` | poky/bitbake/lib/bb/taskdata.py:531-559 | the step from resolved tables to that result, on names and on the ids of the dependency tables: every id that has an entry among the providers has a first provider, and only ignored ones have no entry |
| `Expansion.MoreFuelExpand` | poky/bitbake/lib/bb/data_smart.py:54-97 | an answer of uncached expansion does not depend on the bound on recursion |
| `Expansion.ExpandsUnique` | poky/bitbake/lib/bb/data_smart.py:54-97 | uncached expansion has at most one answer |
| `Expansion.NameLength` | poky/bitbake/lib/bb/data_smart.py:40 | the longest stretch without braces |
| `ExpansionLaws.ReferenceIsName` | poky/bitbake/lib/bb/data_smart.py:40 | a reference is ${, a non-empty name without braces, and } |
| `ExpansionLaws.OpeningMeans` | poky/bitbake/lib/bb/data_smart.py:80 | the loop goes on exactly while ${ occurs somewhere |
| `ExpansionLaws.PythonMeans` | poky/bitbake/lib/bb/data_smart.py:41 | a Python expression is ${@, at least one character and a closing brace on the same line |
| `ExpansionLaws.PassReplaces` | poky/bitbake/lib/bb/data_smart.py:55-64 | in any text, what stands before the first reference is copied, the reference gives way to the variable's expansion, stays if there is none, and is an error if it is to the variable itself; the rest is treated in the same way |
| `ExpansionLaws.ReferenceIsReplaced` | poky/bitbake/lib/bb/data_smart.py:54-97 | a variable whose value is a text around one reference to another variable expands to that text around the other's value, if no new opening comes of it |
| `ExpansionLaws.NoOpeningAcross` | poky/bitbake/lib/bb/data_smart.py:80 | a new opening comes of it only if the value has one or ends in a dollar sign before a brace |
| `ExpansionLaws.UnknownReferenceStays` | poky/bitbake/lib/bb/data_smart.py:61-64 | a reference to an unknown variable is left as it is |
| `ExpansionLaws.SelfReferenceIsFound` | poky/bitbake/lib/bb/data_smart.py:56-60 | a variable whose value refers to itself is an error |
| `ExpansionLaws.NothingToReplace` | poky/bitbake/lib/bb/data_smart.py:80-85 | a text without references and Python expressions stays as it is |
| `AcyclicStores.PassTightens` | poky/bitbake/lib/bb/data_smart.py:55-64 | a pass that changes a text leaves it fewer loose closing braces, if the expansions put into it have none |
| `AcyclicStores.EverythingExpands` | poky/bitbake/lib/bb/data_smart.py:54-97 | the general form, also for references inside references: if every look-up of another variable leads to a lower rank and no expansion put into another text has a loose closing brace, every variable has an answer without a bound on recursion |
| `AcyclicStores.AcyclicWithoutAnswer` | poky/bitbake/lib/bb/data_smart.py:80-85 | in a store of two variables, one of which refers to the other and that one to nothing, expansion never ends |
| `CleanStores.PassSettles` | poky/bitbake/lib/bb/data_smart.py:55-64 | one pass over a clean text of a clean store gives a clean text that refers to undefined variables only |
| `CleanStores.CleanStoreExpands` | poky/bitbake/lib/bb/data_smart.py:54-97 | if every brace in the values belongs to a complete reference and the references to other variables that stand in them lead down, every variable has an answer without a bound on recursion |
| `CleanStores.TextsNeedOrder` | poky/bitbake/lib/bb/data_smart.py:54-97 | in any store, if every variable expands to a text, the references that stand in the values lead down |
| `CleanStores.TextsIfOrderly` | poky/bitbake/lib/bb/data_smart.py:54-97 | in every clean store without Python expressions, every variable expands to a text if and only if the references that stand in the values lead down |
| `DataSmarts.DataSmart.constructor` | poky/bitbake/lib/bb/data_smart.py:45-52 | a new store shows nothing and caches nothing |
| `DataSmarts.DataSmart.CreateCopy` | poky/bitbake/lib/bb/data_smart.py:257-265 | a copy shows an empty layer on top of everything the original shows |
| `DataSmarts.DataSmart.FindVar` | poky/bitbake/lib/bb/data_smart.py:104-115 | the dictionary of the nearest layer that has the variable |
| `DataSmarts.DataSmart.MakeShadowCopy` | poky/bitbake/lib/bb/data_smart.py:117-126 | the variable gets a copy of its own in the top layer and no layer below changes |
| `DataSmarts.DataSmart.GetVarFlag` | poky/bitbake/lib/bb/data_smart.py:200-205 | the nearest layer's flag; a list is handed out as a fresh copy |
| `DataSmarts.DataSmart.SetVarFlag` | poky/bitbake/lib/bb/data_smart.py:195-198 | the flag is set in the top layer only; for flags other than the content, and keyword flags that get a list, the cache stays right |
| `DataSmarts.DataSmart.SetVar` | poky/bitbake/lib/bb/data_smart.py:128-160 | the stack of layers after the write, ancestors unchanged, cache right |
| `DataSmarts.DataSmart.DelVar` | poky/bitbake/lib/bb/data_smart.py:191-193 | the variable is hidden in the top layer, ancestors unchanged, cache right |
| `DataSmarts.DataSmart.RenameVar` | poky/bitbake/lib/bb/data_smart.py:169-189 | the stack of layers after the rename, ancestors unchanged, cache right |
| `DataSmarts.DataSmart.GetVar` | poky/bitbake/lib/bb/data_smart.py:162-167 | from any state, the answer of uncached recursive expansion over the layered lookup, and it comes whenever uncached expansion comes |
| `DataSmarts.DataSmart.Substitute` | poky/bitbake/lib/bb/data_smart.py:55-64 | one substitution pass gives the uncached answer although it fills and uses the cache |
| `DataSmarts.DataSmart.Expand` | poky/bitbake/lib/bb/data_smart.py:54-97 | for any text: the uncached answer, unless a text is cached under the name; the cache stays right if the text is the variable's own value, and otherwise only the entry of that name can be wrong |
| `DataSmarts.DataSmart.ParentViews` | poky/bitbake/lib/bb/data_smart.py:257-265 | what lies below the top layer is what the shadowed store shows, so no write through a child changes it |
| `DataSmarts.KeywordMeans` | poky/bitbake/lib/bb/data_smart.py:39 | a name is a keyword variable exactly if _append or _prepend occurs on its first line; its base is what stands before the first occurrence, and its override what follows an underscore behind it, up to the line end |
| `DataSmarts.SetVarLaws` | poky/bitbake/lib/bb/data_smart.py:128-160 | a plain variable gets the value and all others keep theirs; a keyword variable appends to its base's list and changes no value |
| `DataSmarts.DelVarLaws` | poky/bitbake/lib/bb/data_smart.py:191-193 | a deleted variable has no value whatever lies below, and no other changes |
| `DataSmarts.RenameLaws` | poky/bitbake/lib/bb/data_smart.py:169-189 | renaming moves the value, joins the keyword lists, removes the old name and leaves all others alone |
| `DataSmarts.FlagKeepsValues` | poky/bitbake/lib/bb/data_smart.py:195-198 | flags other than the content have no influence on any value |
| `StoreRuns.Do` | poky/bitbake/lib/bb/data_smart.py:128-205 | one operation on a store: what it shows, that its cache is right and what it answers |
| `StoreRuns.Run` | poky/bitbake/lib/bb/data_smart.py:54-205 | after any sequence of setVar, delVar, renameVar, setVarFlag and getVar the store shows what they prescribe, its ancestors show what they did, and every getVar gave the uncached answer of its time |
| `Cows.NearestIsShown` | poky/bitbake/lib/bb/COW.py:97-113 | reads give the nearest layer's value if and only if the key does not change kind between layers |
| `Cows.PrivatelyShowsTheSame` | poky/bitbake/lib/bb/COW.py:70-89 | the copy that a read leaves changes no read |
| `Cows.PutPlainLaws` | poky/bitbake/lib/bb/COW.py:63-68 | an immutable value is read back unless it is the empty tuple, which is the deletion marker |
| `Cows.PutSetLaws` | poky/bitbake/lib/bb/COW.py:63-68 | a mutable value is read back exactly when no layer holds an immutable value or deletion of the key |
| `Cows.RevertedLaws` | poky/bitbake/lib/bb/COW.py:118-121 | reverting shows the layers below again |
| `Cows.Cow.constructor` | poky/bitbake/lib/bb/COW.py:56-61 | an empty layer |
| `Cows.Cow.On` | poky/bitbake/lib/bb/COW.py:56-61 | a copy is an empty layer on top of the original |
| `Cows.Cow.Attribute` | poky/bitbake/lib/bb/COW.py:70-113 | inherited lookup of immutable values |
| `Cows.Cow.MutableAttribute` | poky/bitbake/lib/bb/COW.py:70-89 | inherited lookup of mutable values |
| `Cows.Cow.SetItem` | poky/bitbake/lib/bb/COW.py:63-68 | only the top layer changes |
| `Cows.Cow.GetMutable` | poky/bitbake/lib/bb/COW.py:70-89 | the inherited value, copied into the top layer unless read-only |
| `Cows.Cow.GetItem` | poky/bitbake/lib/bb/COW.py:97-113 | the value shown; a writable mutable value belongs to the top layer alone |
| `Cows.Cow.DelItem` | poky/bitbake/lib/bb/COW.py:115-116 | the key is hidden, layers below unchanged |
| `Cows.Cow.RevertItem` | poky/bitbake/lib/bb/COW.py:118-121 | the top layer's entry goes, an error exactly when there is none |
| `Cows.Cow.HasKey` | poky/bitbake/lib/bb/COW.py:123-127 | true exactly when a read succeeds, and nothing changes |
| `Cows.Cow.AddElement` | poky/bitbake/lib/bb/data_smart.py:140-144 | a write to a nested mutable value reaches the top layer only |
| `CowRuns.Do` | poky/bitbake/lib/bb/COW.py:63-127 | one operation on a layer: what it shows and answers |
| `CowRuns.AddLaws` | poky/bitbake/lib/bb/data_smart.py:140-144 | an element added to a mutable value shows in it, in nothing else, and not where no mutable value shows |
| `CowRuns.Run` | poky/bitbake/lib/bb/COW.py:56-127 | after any sequence of writes, deletions, reverts, additions and reads the layer shows what they prescribe, the layers below show what they did, and every read answered what was shown at its time |
| `CowRuns.ReadsDoNotMatter` | poky/bitbake/lib/bb/COW.py:70-113 | no sequence of reads, with the copies they leave behind, changes what any read shows |
| `Jtag.IdleFromAnywhere` | src/s3c2412/jtag/2413Dongle/jtag.c:30-41 | from any controller state the reset waveform reaches Run-Test/Idle with the reset instruction in force |
| `Jtag.Resetting` | src/s3c2412/jtag/2413Dongle/jtag.c:159-180 | six clocks with TMS high reach Test-Logic-Reset from any state |
| `Jtag.Shifting` | src/s3c2412/jtag/2413Dongle/jtag.c:97-103 | during a shift the register is a window on what was captured followed by what was written, and TDO shows that line bit by bit |
| `Jtag.ScanDelays` | src/s3c2412/jtag/2413Dongle/jtag.c:82-118 | a scan of any non-empty bit string over a register of any length returns to Run-Test/Idle and leaves, and latches, the last bits of the line |
| `Jtag.LongScanWrites` | src/s3c2412/jtag/2413Dongle/jtag.c:82-118 | a scan at least as long as the register leaves only written bits in it |
| `Jtag.ScanClocks` | src/s3c2412/jtag/2413Dongle/jtag.c:44-118 | a scan takes one clock a bit, and five more for a data register or six for the instruction register |
| `Jtag.Port.Reset` | src/s3c2412/jtag/2413Dongle/jtag.c:159-180 | the pin trace of a reset |
| `Jtag.Port.RunTestIdleState` | src/s3c2412/jtag/2413Dongle/jtag.c:30-41 | the pin trace, and Run-Test/Idle from any state |
| `Jtag.Port.ShiftIRState` | src/s3c2412/jtag/2413Dongle/jtag.c:44-79 | the pin trace, and the instruction that the scan leaves in force |
| `Jtag.Port.ShiftDRState` | src/s3c2412/jtag/2413Dongle/jtag.c:82-118 | the pin trace; the buffer gets the first bits of captured followed by written, the register keeps the last; the empty string shifts one low bit |
| `Jtag.Port.ShiftDRStateNoTdo` | src/s3c2412/jtag/2413Dongle/jtag.c:121-157 | the same pin trace and the same register without reading |
| `Flash.TouchedSectors` | src/s3c2412/jtag/2413Dongle/am29F800.c:90-113 | exactly the sectors that the image touches change: their cells hold the image or are blank |
| `Flash.SectorsFollow` | src/s3c2412/jtag/2413Dongle/am29F800.c:142-152 | each sector ends where the next one starts |
| `Flash.SectorLayout` | src/s3c2412/jtag/2413Dongle/am29F800.c:142-152 | the sectors start at 0, 4000, 6000 and 8000 (hexadecimal) and at every multiple of 10000, with the sizes that follow from it |
| `Flash.EraseNext` | src/s3c2412/jtag/2413Dongle/am29F800.c:96 | erasing the next sector keeps what is stored |
| `Flash.StoreNext` | src/s3c2412/jtag/2413Dongle/am29F800.c:100-106 | storing the next half word into a blank cell keeps the rest |
| `Flash.BlankTakesAll` | src/s3c2412/jtag/2413Dongle/am29F800.c:233-242 | programming a blank cell stores the data exactly although it only clears bits |
| `Flash.OrderlyErase` | src/s3c2412/jtag/2413Dongle/am29F800.c:90-113 | erasing the next sector keeps the order of events |
| `Flash.OrderlyStore` | src/s3c2412/jtag/2413Dongle/am29F800.c:100-106 | so does storing into an erased sector |
| `Flash.HalfWordKeepsBytes` | src/s3c2412/jtag/2413Dongle/am29F800.c:102 | both image bytes can be had back from a stored half word |
| `Flash.WordsHoldTheImage` | src/s3c2412/jtag/2413Dongle/am29F800.c:90-113 | the half words written hold every byte of the image, the even ones low and the odd ones high, and no more words are written than that takes |
| `Flash.Programmer.CheckId` | src/s3c2412/jtag/2413Dongle/am29F800.c:157-180 | true exactly for the expected maker and device, with no cell changed |
| `Flash.Programmer.GetSectorSize` | src/s3c2412/jtag/2413Dongle/am29F800.c:142-152 | the size reaches the end of the sector if and only if the offset is the start of one |
| `Flash.Programmer.EraseSector` | src/s3c2412/jtag/2413Dongle/am29F800.c:185-201 | the command sequence erases exactly the sector of the address |
| `Flash.Programmer.ProgFlash` | src/s3c2412/jtag/2413Dongle/am29F800.c:233-242 | the command sequence clears exactly the zero bits of the data in one cell |
| `Flash.Programmer.WriteSector` | src/s3c2412/jtag/2413Dongle/am29F800.c:100-106 | the words up to the end of the sector or of the image are stored |
| `Flash.Programmer.ProgramAM29F800` | src/s3c2412/jtag/2413Dongle/am29F800.c:57-127 | for a sector-aligned offset from which the image fits, of even or odd size: the target range equals the image, the rest of the touched sectors is blank, nothing else changes, and each touched sector was erased exactly once, before its first word |
| `Draw.Screen.Circle` | src/jivetest/draw.c:144-173 | for a radius of at least one the pixels are exactly the points nearest to the circle, each octant column once; the loop ends for every radius, and one of zero or less draws one column |
| `Draw.NextColumn` | src/jivetest/draw.c:160-171 | the decision variable is exactly (x+1)^2+y^2-y-r^2, and its sign keeps the height nearest |
| `Draw.NearIsHalfAPixel` | src/jivetest/draw.c:144-173 | nearest means less than half a pixel from the true height |
| `Draw.NearIsUnique` | src/jivetest/draw.c:144-173 | there is one nearest height |
| `Draw.RingIsCircle` | src/jivetest/draw.c:149-158 | the eight-fold symmetric pixels are the points on the circle in all octants |
| `Draw.PaintedMeans` | src/jivetest/draw.c:31-34 | exactly the listed points get the color |
| `Draw.Screen.Line` | src/jivetest/draw.c:37-105 | the pixels, in order, of both branches of the line |
| `Draw.FlatLineIsClose` | src/jivetest/draw.c:67-84 | with x the longer direction every pixel is within one pixel of the ideal line |
| `Draw.LineIsConnected` | src/jivetest/draw.c:67-103 | consecutive pixels of any line touch |
| `Draw.LineStaysInBox` | src/jivetest/draw.c:63-103 | all pixels lie in the box of the end points if and only if the line is not steep, or is at most one row high, or is at least a third as wide as high |
| `Draw.SteepLineDrifts` | src/jivetest/draw.c:85-103 | how far the pixels of a steep line are from the ideal line |
| `Base64.DecodeEncode` | poky/scripts/poky-git-proxy-socks.c:2327-2363 | a strict decoder recovers every input of the standard encoding |
| `Base64.EncodeAt` | poky/scripts/poky-git-proxy-socks.c:2338-2363 | the standard encoding character by character: six bits each, padding for all lengths mod 3 |
| `Base64.LowBits` | poky/scripts/poky-git-proxy-socks.c:2345-2350 | shifting a byte into a 32-bit accumulator keeps the low bits, whatever falls off at the top |
| `Base64.OneCharacter` | poky/scripts/poky-git-proxy-socks.c:2343-2353 | the low bits of the accumulator are the pending input bits, and the character written is the next six |
| `Base64.TableHasDigits` | poky/scripts/poky-git-proxy-socks.c:2327-2328 | the table is the standard alphabet |
| `Base64.Alphabet` | poky/scripts/poky-git-proxy-socks.c:2327-2328 | the characters by their codes: capitals, small letters, digits, plus and slash |
| `Base64.PatchTail` | poky/scripts/poky-git-proxy-socks.c:2355-2361 | the last characters give way to padding |
| `Base64.MakeBase64String` | poky/scripts/poky-git-proxy-socks.c:2330-2363 | for every string without NUL the buffer holds the standard encoding and a terminator |
| `Versions.ExplodeVersion` | poky/bitbake/lib/bb/utils.py:27-43 | the runs of digits and letters in order; it raises exactly for a line end behind a digit or letter that is not the last character |
| `Versions.CharacterClasses` | poky/bitbake/lib/bb/utils.py:22-30 | digits, letters and blanks by their character codes |
| `Versions.ToIntDecimal` | poky/bitbake/lib/bb/utils.py:34 | a number is read as what its decimal digits say, for every number |
| `Versions.LeadingZero` | poky/bitbake/lib/bb/utils.py:34 | a leading zero does not count |
| `Versions.NumbersDecide` | poky/bitbake/lib/bb/utils.py:45-62 | versions that differ in one number compare as the numbers do, so 1.10 comes after 1.9 |
| `Versions.LongerIsLater` | poky/bitbake/lib/bb/utils.py:45-62 | a version with one more part is later |
| `Versions.NumberBeforeWord` | poky/bitbake/lib/bb/utils.py:45-62 | a number comes before a word |
| `Versions.WordsDecide` | poky/bitbake/lib/bb/utils.py:45-62 | words compare by their first different letter, and a word is later than its beginning |
| `Versions.IntsAreRead` | poky/bitbake/lib/bb/utils.py:68 | int() reads decimal numbers with a sign or without |
| `Versions.BlanksAreSkipped` | poky/bitbake/lib/bb/utils.py:68 | blanks around a number make no difference to int() |
| `Versions.WhatIsRead` | poky/bitbake/lib/bb/utils.py:68 | without blanks around it, int() reads exactly digits with one sign or none in front, and raises for all else |
| `Versions.ExplodeSplits` | poky/bitbake/lib/bb/utils.py:27-43 | the parts on either side of a separator do not interfere |
| `Versions.RestReads` | poky/bitbake/lib/bb/utils.py:29-30 | the rest of the line that a pattern matches, with the line end that its dollar sign passes over |
| `Versions.VercmpPart` | poky/bitbake/lib/bb/utils.py:45-62 | lexicographic comparison of the parts, a missing part before numbers before words; it raises exactly if one of the texts cannot be taken apart |
| `Versions.Vercmp` | poky/bitbake/lib/bb/utils.py:64-73 | the sign of the comparison by epoch, version and revision; it raises exactly if one of the texts that the comparison gets to cannot be read |
| `Versions.EpochDecides` | poky/bitbake/lib/bb/utils.py:64-73 | the larger epoch decides; between equal ones the version, and between equal versions the revision |
| `Versions.VersionsTurn` | poky/bitbake/lib/bb/utils.py:64-73 | turning the arguments turns the sign, so the order is total |
| `Versions.VersionsChain` | poky/bitbake/lib/bb/utils.py:64-73 | the order is transitive, strictly so if one step is strict |
| `Versions.EqualVersions` | poky/bitbake/lib/bb/utils.py:64-73 | equal means equal epoch and equal exploded parts |
| `Providers.SortPriorities` | poky/bitbake/lib/bb/providers.py:35-64 | sets by falling priority, within a set by falling preference, files of one rank in the given order |
| `Providers.ArrangedIsPermutation` | poky/bitbake/lib/bb/providers.py:35-64 | sorting neither loses nor repeats a file |
| `Providers.FindPreferredProvider` | poky/bitbake/lib/bb/providers.py:67-119 | the first file in that order that passes the test, none exactly when there is none; the file is one that was asked for exactly if neither epoch nor revision was, and with an epoch there is none |
| `Providers.RevisionIsNeverSplitOff` | poky/bitbake/lib/bb/providers.py:82-92 | the second group of the pattern takes the rest of the line, so the third never matches |
| `Providers.MetIsIntended` | poky/bitbake/lib/bb/providers.py:80-99 | a file that passes the test has the version, epoch and revision asked for if and only if neither epoch nor revision was; and then every file that has them passes |
| `Providers.IntendedIsMissed` | poky/bitbake/lib/bb/providers.py:80-99 | for every preference with an epoch or a revision there is a file that has what was asked for and fails the test |
| `Providers.PreferenceWorksIfPlain` | poky/bitbake/lib/bb/providers.py:80-99 | for every preference: the test picks what was asked for in every cache if and only if the preference names neither an epoch nor a revision |
| `Providers.AskingMeans` | poky/bitbake/lib/bb/providers.py:80-99 | for every preference written from an epoch, a version and a revision, or some of them: what it asks for, that it is plain exactly if it is a version alone, and that a file passes the test exactly if no epoch is given and its version is the rest of the text |
| `Providers.EpochIsMissed` | poky/bitbake/lib/bb/providers.py:84-99 | the preference 1:2.0 does not pick version 2.0 with epoch 1 |
| `Providers.RevisionIsMissed` | poky/bitbake/lib/bb/providers.py:82-99 | the preference 2.0_r3 does not pick version 2.0 with revision r3 |
| `Providers.FindLatestProvider` | poky/bitbake/lib/bb/providers.py:122-139 | the first of the files that are maximal by default preference, then version |
| `Providers.FindBestProvider` | poky/bitbake/lib/bb/providers.py:142-159 | the latest file is maximal by priority, preference and version; it is the choice exactly when no file passes the test, and otherwise the choice passes it and is best by priority, then preference; without epoch and revision the choice is one that was asked for if there is any, and with an epoch it is the latest |
| `DepStrings.NestsIfBalanced` | poky/bitbake/lib/bb/__init__.py:443-495 | the result is None exactly for unbalanced parentheses |
| `DepStrings.Separators` | poky/bitbake/lib/bb/__init__.py:443-495 | words are separated by space, tab, line feed, vertical tab, form feed and carriage return, and by parentheses |
| `DepStrings.SpellNested` | poky/bitbake/lib/bb/__init__.py:443-495 | the nested list spells exactly the words and parentheses of the string |
| `DepStrings.TokenizePrinted` | poky/bitbake/lib/bb/__init__.py:443-495 | tokenize inverts printing for every nested list of non-empty words without delimiters |
| `DepStrings.Tokenize` | poky/bitbake/lib/bb/__init__.py:443-495 | the loop with its stack computes that nesting |
| `DepStrings.Flatten` | poky/bitbake/lib/bb/__init__.py:553-568 | the words of the nested list, in order |
| `DepStrings.FlattenTokenized` | poky/bitbake/lib/bb/__init__.py:553-568 | flattening the result of tokenize gives the words of the string |
| `ParenReduce.DepParenreduce` | poky/bitbake/lib/bb/__init__.py:1022-1047 | from the start position on every parenthesis with a partner becomes a sub-list and those without stay, for every list |
| `ParenReduce.CloseParenthesis` | poky/bitbake/lib/bb/__init__.py:1034-1045 | the inner loop: the stretch up to the partner becomes a sub-list, and without a partner everything behind is reduced |
| `ParenReduce.MatchIsNest` | poky/bitbake/lib/bb/__init__.py:1022-1047 | on the balanced flat list of a string's tokens the result is the nested list that tokenize builds |
| `ParenReduce.MatchOrdered` | poky/bitbake/lib/bb/__init__.py:1022-1047 | matching a list gives the value of its parenthesis structure |
| `ParenReduce.Structured` | poky/bitbake/lib/bb/__init__.py:1022-1047 | every list has such a structure |

## Left out

- Step A of `prepare_runqueue` and the look-up of its targets (runqueue.py:336-530 and 557-577): the task graph and the target ids are inputs. Line 357 extends a list through an alias, and task ids may be created while others are walked.
- The retry loop for alternative configurations (runqueue.py:841-854), `check_stamps`, which no code calls, and the sanity check for multiple providers (runqueue.py:660-692).
- `circular_depchains_handler`: it prints cycles that have been found already.
- `class RunQueue` is modelled as two classes, one up to execution and one during it; in the second the queue is constant.
- Interrupts, the reset of stamps in force mode, and statistics beyond the counters. The stamp files of different tasks are taken to be distinct and none to lie in the future when a run starts.
- `selfstamp` tasks (build.py:287): a child that succeeds leaves its stamp, and one that fails leaves none.
- TaskDatas.TaskData.AddUnresolved: is given up after a number of passes, because the walks over changing lists (taskdata.py:378-381 and 430-433) may let a pass that adds nothing count as progress; termination is not claimed. With abort on it says nothing about the dependencies once an external target has failed and line 542 has caught the exception, because that failure has not spread to its end then.
- TaskDatas.TaskData.AddTasks: makes no claim about inter-task dependencies on targets that have failed before, which the source does not check again.
- The wrapper `add_provider` and its messages; `missing_list`, events and all messages. The answers of the provider filters are functions in the metadata.
- `dep.split(":")` and `explode_deps`: the metadata holds the parts.
- `special_values`, `seen_overrides`, `setVarFlags`, `getVarFlags`, `delVarFlag`, `delVarFlags`, and direct writes of the content flag: content is text.
- Python expressions in expansion: they end the model's expansion with an answer of their own.
- DataSmarts.DataSmart.GetVar: carries a bound on recursion and looping, as the interpreter does; any answer but running out of it does not depend on it, and it does not run out where uncached expansion with the same bound does not. `AcyclicStores.EverythingExpands` says when some bound is enough.
- A variable named `_data`, which the source would take for the shadowed dictionary.
- Writing to a store that others shadow, while those others hold cached expansions.
- The default value that a copy-on-write read may be given.
- Copy-on-write values that are themselves layered dictionaries or sets (`COWSetMeta`), keys that are attribute names of the class or end in the internal suffix, and iteration.
- `Core_ReadId` and `S3C2413_ReadId`, delays and the parallel port. A data register's captured value is fixed during a scan.
- The wait for the end of an erasure (am29F800.c:204-228), the unseen bus routines, user dialogue and memory allocation. A bus write takes effect at once.
- Flash.Programmer.ProgramAM29F800: requires one of the offsets that the program offers and an image that fits, and a chip that is not in the middle of a programming command.
- Machine integers in the drawing code and in lengths: they are unbounded. Frame buffer addresses are positions, so the edge of the screen is not modelled.
- Ellipses, filled shapes, polygons, JPEG and colour tables.
- Sockets, options and everything else in the git proxy.
- Versions.ParseInt: takes no blanks between sign and digits.
- Providers.FindLatestProvider: requires versions that can be compared; for others the comparison raises (`Versions.Vercmp`).
- The overrides under which the preferred version is looked up (providers.py:75-79): its value is a parameter.
- `_filterProviders`, `filterProviders`, `filterProvidersRunTime` and `getRuntimeProviders`.
- ParenReduce.DepParenreduce: works on values; the source changes the caller's list in place and returns it.
- `relparse`, the `vercmp` of `__init__.py`, `evaluate`, and the copies of these modules in `bitbake-dev`.
