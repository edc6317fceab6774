# QStar Stella executor

QStar describes a build as targets, generated actions and stages. Its Stella executor finds what a
requested label needs, lowers that to a graph of actions, runs the graph in a bounded number of process
slots, and remembers what it did so that the next build runs only what changed. This project models
that executor in Dafny and proves what it promises.

- **Scheduling** (`ActionDag`, `Scheduler`): the ready-queue executor over node, queue and slot tables.
  `RunOk` is its invariant; `Execute` terminates, never runs out of slots, fails exactly on the
  environment's first error, and otherwise finishes if the graph has no cycle and stalls if it has one. What the
  environment was asked is remembered: each completed action was run, found or restored, and none was run twice.
- **From declarations to actions** (`BuildGraph`, `Discovery`, `Lowering`, `ActionCycles`, `DeclaredCycles`,
  `WholeBuild`, `Producers`, `ActionInputs`, `AwaitedInputs`, `DroppedEdges`, `LoweringLimits`, `CxxUnity`,
  `LinkObjects`): discovery as a least fixpoint, the action graph's edges as an exact set and which of them are
  dropped, and each outcome of a build read off the declarations: which are rejected, and which always stall.
  `Producers` to `AwaitedInputs` say what is needed, which actions there are and what each waits for in terms of
  the declarations' fields alone, and show that the scans and loops do exactly that.
- **Incremental builds** (`ActionKeys`, `IncrementalBuild`, `BuildHistory`, `BuildRuns`, `NullBuild`,
  `BuildLimits`): over any run of edits, removals, successful and harmless failed builds, an action is
  skipped only if running it would rewrite what is there, and a build leaves what a build from scratch
  leaves; which failed builds are harmless is an exact condition.
- **What is remembered** (`StateIndex`, `BinaryRecords`, `StateDb`, `StateMemory`, `DepfileCache`,
  `ActionCache`): the probing index, the two database files, the merge and the daemon's copy in memory,
  the depfile cache, and the local content-addressed cache with a crash at any file step.
- **Commands** (`MicrosoftArguments`, `WindowsCommandLine`, `ShellWords`, `CommandJoin`, `ResponseFile`,
  `ArgvStorage`, `Materialize`): quoting against readers written from the other side (the Microsoft C
  runtime's argument rules; sections 2.2 and 2.6.7 of the POSIX.1-2017 Shell Command Language), the
  response file's digest, and size limits in machine words against unbounded sums.
- **Daemon** (`EventStream`): output cut into frames and put together again.

Objects whose fields the program updates are classes here, with the same fields and loops; each method is
tied to a function of the old state, and the lemmas are about those functions. `*` marks an answer of the
environment: a process's result, a failed allocation, a cache decision.

## What is assumed

- Digests are injective in what is hashed. Keys are compared as the structures they are computed from.
- A file write leaves a stamp (size and modification time together) that no earlier write had.
- A process is a function of the files it reads. It writes exactly its declared outputs and its depfile,
  reads beyond its declared inputs only what its depfile names, and reads generated files only of actions
  it waits for. `BuildHistory.PlanOk` states this; nothing else is assumed of a tool.
- An output or depfile belongs to one action, and action ids are distinct.
- The path helpers are not modelled: distinct outputs are taken to have distinct paths, and whether a path
  is below the build directory is a parameter.
- `BuildGraph.Received` says what reading and validating the declarations guarantees before every build
  (src/main.c:1380-1402, src/daemon.c:2107-2121), where a result needs it: a precompiled header is a package-relative
  path (src/lua_runtime.c:2185-2190), each kind of target has only the fields of its schema
  (src/lua_runtime.c:4299-4427), labels of targets and generated actions are written from the root
  (src/source.c:290-327), and what a target lists as objects are object libraries of the graph, each once, and only on
  programs, tests and static and shared libraries (src/source.c:573-655).
- A running process is found unfinished only finitely often, because of its time limit.

## What the code does differently from what one would expect

- A warm rebuild drops from the refreshed input list every declared input the old depfile names, and puts
  it back in another place. Unless the two lists happen to agree, the stored key never equals the next
  prepared one and the action runs in every build (`NullBuild.NullBuildRunsNothing`,
  `NullBuild.WarmListsAgree`, `NullBuild.PrecompiledHeaderNeverSettles`).
- State is stored only by a successful build, so a failed one can leave outputs that a stored key does not
  stand for. That does no harm (`BuildRuns.Harmless`) if the action has no stored key, or one that no prepare
  computes again; if its depfile on disk does not list what the key lists; if its outputs are incomplete; or if
  they are what a run writes once the files unknown to the key are gone. `BuildRuns.FailureKeeps` shows that
  this is exactly when the invariant of all runs survives, `BuildRuns.HarmlessCases` that most failures are
  harmless, and `BuildLimits.HarmComesOut` that harm comes out: removals and one build then skip the action
  wrongly, unless the build changes a file the key tells of before it comes to the action. Two families occur:
  an action started because an output was removed and stopped half way (`BuildLimits.StoppedRunIsSkipped`), and
  one re-run by a failed build while a formerly missing input was present, once that input is gone again
  (`BuildLimits.MissingInputReturns`).
- A local-cache hit through an alias to an entry stored without a depfile is not checked again, although
  the present form of the command may have one (`ActionCache.HitKeyIsCurrent`,
  `ActionCache.AliasWithoutDepfileHitsStale`).
- A plain generated path in a run command is overlooked by discovery while edge creation looks for it, so the edge
  is dropped in silence unless the build needs the generating action anyway (`LoweringLimits.RunCommandPathDropped`).
  That is the exact condition: every producer an action asks for is found and waited for if and only if the generated
  paths in the commands of the found run targets come from found actions (`DroppedEdges.AskedIsFound`,
  `DroppedEdges.NoEdgeDropped`).
- A depfile path with a blank is read as two paths, even if the blank is escaped, and a path of 4096 characters or
  more is cut (`DepfileCache.EscapedBlankSplits`, `DepfileCache.RuleReadsBack`).
- Two module interfaces compiled inside one target, its own or a library's, wait for each other if they have the
  same source index, although nothing declared is circular (`LoweringLimits.InterfaceClash`). Such a library
  interface could not be compiled anyway (src/executor.c:5811-5815, src/executor.c:6225), but the build stalls before it
  says so. `DeclaredCycles.AcyclicAsDeclared` gives the exact condition.

## Model

| member | source | states |
|---|---|---|
| ActionDag.BackwardWalkCloses | src/executor.c:9988-9994 | In a set of nodes each of which waits for another of the set, walking backwards along dependencies closes a cycle inside the set |
| ActionDag.RankedIsAcyclic | src/executor.c:9385-9492 | A graph whose edges all raise some rank has no cycle |
| Scheduler.ReleasedExactly | src/executor.c:8876-8893 | Completing a node queues exactly its users whose counter reaches zero, each once |
| Scheduler.CompletionAt | src/executor.c:8876-8893 | For every node, the counter after a completion is its number of dependencies still not done, whether or not it used the completed node |
| Scheduler.CompletionKeepsCounters | src/executor.c:8876-8893 | Every pending node's counter stays equal to its number of unfinished dependencies, and is positive |
| Scheduler.CompletionKeepsQueue | src/executor.c:8849-8893 | The queue with the released users appended holds exactly the ready nodes, each once |
| Scheduler.CompletionKeepsSlots | src/executor.c:8876-8893 | The occupied slots still hold exactly the running nodes |
| Scheduler.CompletionKeepsRun | src/executor.c:8876-8893 | The whole invariant (counters, queue, slots, active = occupied slots, completed = done nodes) survives a completion |
| Scheduler.HandOver | src/executor.c:9756-9871 | Moving a node between ready and running changes no counter and no set of unfinished dependencies |
| Scheduler.BeginExtendsLog | src/executor.c:9756-9871 | A ready node may begin: all its dependencies have ended, and it has not begun before |
| Scheduler.EndExtendsLog | src/executor.c:8876-8893 | A running node may end: it has begun and has not ended before |
| Scheduler.TakeUp | src/executor.c:9757-9871 | Taking a ready node out of the queue keeps the invariant and a log in which nothing precedes its dependencies |
| Scheduler.PopKeepsRun | src/executor.c:9567-9578 | Popping keeps the invariant with the popped node in hand, and that node is ready |
| Scheduler.PushBackKeepsRun | src/executor.c:9835-9840 | Putting a node back at the tail when all slots are occupied restores the invariant |
| Scheduler.OccupyKeepsRun | src/executor.c:9842-9862 | Spawning into a free slot keeps the invariant and raises active by one |
| Scheduler.VacateKeepsRun | src/executor.c:9966-9979 | Freeing a slot keeps the invariant with its node in hand and lowers active by one |
| Scheduler.SomeSlotFree | src/executor.c:6900-6910 | Fewer occupied slots than slots exactly when some slot is free, so a slot is found whenever active is below the limit |
| Scheduler.PollCosts | src/executor.c:9872-9965 | Polling a process in vain uses up one of the polls its time limit leaves, which bounds the main loop |
| Scheduler.JustlyAsked | src/executor.c:9756-9979 | A further question, asked in turn and not to run something again, keeps every completed node justified and every action run at most once |
| Scheduler.FinishedRunIsAcyclic | src/executor.c:9740-10013 | If every node is done, the order in which they ended ranks the graph, so it has no cycle |
| Scheduler.StallHasCycle | src/executor.c:9988-9994 | With nothing queued and nothing running, nodes that are left form a cycle of pending nodes |
| Scheduler.EdgeAdded | src/executor.c:8811-8846 | Adding an edge adds that edge and no other, once however often it is added, and keeps both ends and the counter in step |
| Scheduler.Executor.AddEdge | src/executor.c:8834-8846 | A self dependency is refused and changes nothing; otherwise both ends and the counter are updated |
| Scheduler.Executor.ReadyPop | src/executor.c:9567-9578 | Removes the queue's first element, resetting head and length when it empties |
| Scheduler.Executor.CompleteNode | src/executor.c:8876-8893 | Marks done, decrements every pending user, appends the released ones, keeps the invariant and the log |
| Scheduler.Executor.FindFreeSlot | src/executor.c:6900-6910 | Returns a free slot, or the number of slots only if all are occupied |
| Scheduler.Executor.HandleNode | src/executor.c:9757-9871 | One popped node fails the run, completes, occupies a slot or goes back to the queue; it begins only after its dependencies ended, and "no free slot" cannot happen |
| Scheduler.Executor.PollSlot | src/executor.c:9872-9987 | A polled process keeps its slot, completes its node, or aborts the run with no process left unaccounted |
| Scheduler.Executor.CancelActive | src/executor.c:9732-9737 | Leaves no slot occupied |
| Scheduler.Executor.StallOrWait | src/executor.c:9988-10010 | Without a process and without a ready node the run has stalled on a cycle; otherwise it waits, and fails only if waiting does |
| Scheduler.Executor.MainLoop | src/executor.c:9756-10012 | Terminates; fails exactly when the environment reported an error, which is the last thing it was asked; otherwise finishing means every node done exactly once in dependency order, stalling means a cycle |
| Scheduler.Executor.Execute | src/executor.c:9740-10013 | The same for the whole run with max(jobs, 1) slots; no slot is occupied at the end, whatever the outcome; whatever ended had run in place, or was prepared and then found up to date, restored, or started, ended and accepted; nothing was run twice, and the environment was asked in turn |
| Discovery.ClosedHolds | src/executor.c:8736-8777 | Any set with the roots that is closed under needs holds everything needed, so the found set is the least |
| Discovery.LeastClosed | src/executor.c:8736-8777 | The needed set is contained in every closed set |
| Discovery.Visit | src/plan.c:191-280 | The closure walk lists only needed targets, each after all it names, and fails only if a needed target names something refused or its labels lead back to it |
| Discovery.ListedIsNoCircle | src/plan.c:197-204 | A target in such a list is on no circle of labels |
| Discovery.ClosureUnion | src/executor.c:8353-8394 | Adding a walked closure to the found set keeps it closed under walked dependencies and inside what is needed |
| Discovery.FixpointIsNeeded | src/executor.c:8736-8777 | When a whole pass finds nothing new, the found set is exactly what the roots need, and is closed |
| Discovery.HonouredStages | src/executor.c:8410-8474 | A newly found stage's sources are found with it |
| Discovery.ScanNeeds | src/executor.c:8423-8733 | Everything a scan asks for is needed by the entity scanned |
| Discovery.GrowthShrinks | src/executor.c:8736-8777 | Each pass that changes anything leaves strictly fewer undiscovered entities, so discovery terminates |
| Discovery.RunInputsWhole | src/executor.c:8645-8733 | Run inputs that name a stage also name that stage's own producers |
| Discovery.Finder.Mark | src/executor.c:8397-8420 | Marks one entity, reporting a change exactly when it was new |
| Discovery.Finder.Pass | src/executor.c:8736-8777 | One pass reports a change exactly when the found set grew; without a change everything found is satisfied; it fails only on something needed that is refused or circular |
| Discovery.Finder.Discover | src/executor.c:8736-8777 | Succeeds if and only if the root is known, nothing needed asks for anything refused, and no needed target's labels lead back to it; the found set is then exactly the needed set and is closed: no needed producer is left out |
| CxxUnity.UnitAt | src/cxx.c:194-219 | A source's ordinal among implementation sources is its position in the list of them |
| CxxUnity.BatchesPartition | src/cxx.c:194-261 | The batches laid end to end are the C++ implementation sources in order; batches below the count, and only those, are not empty; all but the last have the batch size, 8 unless given, and the last no more |
| CxxUnity.InfoAgreesWithBatch | src/cxx.c:194-261 | A source is told batch b exactly when batch b lists it, and leads it exactly when it is listed first |
| CxxUnity.UnitySourceInfo | src/cxx.c:194-219 | The loop gives a source's batch and leadership, and nothing for other sources |
| CxxUnity.UnityBatchCount | src/cxx.c:221-236 | The loop counts exactly the batches that are not empty when unity is on, none otherwise |
| CxxUnity.UnityBatchSources | src/cxx.c:238-261 | The loop lists exactly the batch's paths in order and fails exactly on an empty batch |
| CxxUnity.ValidateStrategies | src/cxx.c:125-191 | A C++ strategy is accepted exactly if the target has a C++ source of its own that it compiles, and for modules an own interface and interface names that differ and fit |
| CxxUnity.StrategiesAre | src/cxx.c:125-191 | The same said of kinds, source kinds and file stems, a stem being 1 to 255 characters |
| CxxUnity.BasenameIs | src/cxx.c:16-31 | The base name follows the last separator |
| CxxUnity.StemIs | src/cxx.c:310-330 | The stem is the name up to its last dot |
| CxxUnity.CollectModuleInputs | src/cxx.c:465-492 | An interface reads exactly the earlier interfaces, an implementation all of them, in source order, and nothing without modules |
| Lowering.EntityPairsExact | src/executor.c:9178-9492 | The edges created for one declaration are exactly those its nodes want |
| Lowering.AllPairsWanted | src/executor.c:9495-9513 | Together: an edge is in the graph if and only if some node wants it |
| Lowering.CreationKeepsNodes | src/executor.c:8897-9051 | Creating a declaration's nodes keeps one head per declaration and every node owned by a found one |
| Lowering.NothingElseOverlooked | src/executor.c:9054-9382 | Whatever a node of a found declaration waits for was found by discovery too, or owns a plain path of a run command |
| Lowering.StagesFound | src/executor.c:8645-8733 | A stage that a node waits for is always found, so no build fails on an unscheduled stage |
| Lowering.CompiledIsConsumed | src/executor.c:9261-9294 | A generated action consumed by a compile is one the target consumes |
| Lowering.OwnCompileOnce | src/executor.c:8964-8981 | Each own source to be compiled has exactly one compile among its target's actions |
| Lowering.LinkObjectsComplete | src/executor.c:9424-9437 | That compile has exactly one node in the graph and the target's final node waits for it |
| Lowering.ModuleInputsMatchEdges | src/executor.c:9462-9489 | Between two own compiles there is an edge exactly when the one lists the other's compiled interface as an input |
| Lowering.LoweredStays | src/executor.c:9740-10013 | Running the graph changes none of its edges |
| Lowering.Lowerer.CreateTargetNodes | src/executor.c:8897-9016 | Appends a target's actions in order and records its last node as its head, or fails exactly if its C++ strategies are not acceptable |
| Lowering.Lowerer.ConnectModules | src/executor.c:9462-9489 | Adds exactly the interface-to-reader edges of one target |
| Lowering.Lowerer.Connect | src/executor.c:9054-9175 | Adds exactly the edges of a request list, and fails exactly on a refused request, a stage without a node, or a producer that is the user itself |
| Lowering.Lowerer.ConnectAll | src/executor.c:9495-9513 | Fails exactly if some node has such a request; otherwise the graph's edges are exactly the wanted ones |
| ActionCycles.LeadsJoin | src/executor.c:9385-9492 | Reaching a declared dependency, or a lower rank within one owner, composes |
| ActionCycles.WantedLeads | src/executor.c:9178-9492 | Each created edge either crosses to a declared dependency or rises in rank within one target: precompiled header, interfaces by index, other compiles, final |
| ActionCycles.ActionCycleIsDeclared | src/executor.c:9385-9513 | A cycle among actions is a circle among the needed declarations they come from, as long as no two interfaces inside one target share an index |
| ActionCycles.OrderedAsDeclared | src/executor.c:8964-8999 | Whether interfaces clash in the node array can be read off the works of the needed targets |
| ActionCycles.ClashIsCycle | src/executor.c:9462-9489 | Two clashing interfaces always wait for each other |
| DeclaredCycles.CircleIsCycle | src/executor.c:9385-9513 | A circle of uses among needed declarations is a cycle among their actions |
| DeclaredCycles.AcyclicAsDeclared | src/executor.c:9385-9513 | The actions can all run in some order if and only if no needed declaration uses itself and no two interfaces inside one needed target share an index |
| DeclaredCycles.DependencyAwaited | src/executor.c:9228-9258 | A target waits for every target and generated action it names in objects or dependencies |
| WholeBuild.MetAsDeclared | src/executor.c:9054-9382 | The requests of a found declaration can be met exactly if it names neither itself nor anything refused |
| WholeBuild.Prepare | src/executor.c:10035-10037 | Discovery and lowering succeed if and only if the declarations are acceptable, and then give the lowered graph |
| WholeBuild.StallIsDeclared | src/executor.c:9988-9994 | A cycle in a lowered graph means circular declarations or clashing interfaces |
| WholeBuild.Build | src/executor.c:10016-10045 | Rejected if and only if the declarations are not acceptable; failed if and only if the environment reported an error; finished means every found declaration's head ended and neither a circle nor a clash was declared; stalled means one was |
| ActionInputs.RequestsAsDeclared | src/executor.c:9054-9382 | An action asks for a declaration if and only if that makes an item it reads, makes a file its compiles or its target use, is a stage its inputs name, or is named as a dependency; it is refused exactly for a bad item |
| ActionInputs.NeedsAsDeclared | src/executor.c:8423-8733 | A declaration needs another if and only if its own fields call for it; discovery stops at it exactly for an unresolved label or a bad item |
| ActionInputs.ActionsAsDeclared | src/executor.c:8897-9051 | A declaration has exactly the actions its kind and its sources call for; of a unity batch only the first source is compiled |
| AwaitedInputs.NeededAsDeclared | src/executor.c:8736-8777 | What discovery finds is what the root calls for, directly or through what it calls for |
| AwaitedInputs.AcceptedAsDeclared | src/executor.c:8736-8777 | A build is accepted if and only if its root is known and nothing it calls for has an unresolved label, a bad item, labels in a circle, an action that asks for its own declaration, or an unfit C++ strategy |
| AwaitedInputs.NodesAsDeclared | src/executor.c:8897-9051 | The action graph has a node for each action of each declaration called for, and no other |
| AwaitedInputs.EdgesAsDeclared | src/executor.c:9178-9513 | There is an edge if and only if it is one inside a target, or leads from the last action of a found declaration to an action that asks for it |
| AwaitedInputs.ItemAwaited | src/executor.c:9054-9200 | The producer of every item an action reads (a generated action's tool, inputs and arguments, stage sources, link inputs, usage inputs, run inputs) is found and waited for, but for itself and for generated paths in run commands |
| AwaitedInputs.HeadersAwaited | src/executor.c:4534-4555 | A compile waits for every generated action that writes a header or a compiled source of the target its source belongs to |
| AwaitedInputs.UsedFilesAwaited | src/executor.c:4515-4532 | A target's last action waits for every generated action that writes a header, source, plain link input or precompiled header of the target |
| AwaitedInputs.StagesAwaited | src/executor.c:8645-8690 | A run target waits for the stages its inputs name, and what they copy is found |
| DroppedEdges.AskedIsFound | src/executor.c:8693-8733 | In a found set closed under discovery, every producer that an action of a found declaration asks for is found if and only if, for each found run target, the owners of the plain paths in its command are |
| DroppedEdges.NoEdgeDropped | src/executor.c:9296-9310 | In the graph of an accepted build every node has an edge from every producer it asks for if and only if the generated paths in its run targets' commands come from actions that are needed anyway |
| LoweringLimits.RunCommandPathDropped | src/executor.c:8693-8733 | Acceptable declarations with a generated path in a run command whose action is not needed: in every action graph of theirs an edge is missing |
| LoweringLimits.InterfaceClash | src/executor.c:9462-9489 | Acceptable declarations without a circle whose every action graph has a cycle |
| LinkObjects.CollectObjects | src/executor.c:7675-7683 | The link loop lists each own source's object in order, a unity batch once |
| LinkObjects.ObjectsAsDeclared | src/executor.c:4309-4334 | Every object file and every own compile has its object in the list, at the place of its source among the contributing ones, and nothing else is in it |
| LinkObjects.ObjectsOnce | src/executor.c:4309-4334 | With distinct source paths no object is listed twice |
| LinkObjects.OutputsDiffer | src/executor.c:4306-4325 | Two own compiles with the same object are the same compile |
| LinkObjects.EveryObjectIsBuilt | src/executor.c:4306-4334 | Each object of an own source in the link list is a listed file, or the output of exactly one own compile, which the final node waits for |
| LinkObjects.CollectLibraryObjects | src/executor.c:4400-4424 | Lists the objects of each library in order, and fails exactly if a listed name is no target |
| LinkObjects.LibrariesAsDeclared | src/executor.c:4400-4424 | The libraries' objects follow each other in the order of the names and of their sources, none left out and none added |
| LinkObjects.LibraryObjectIsBuilt | src/executor.c:4344-4368 | Each object of a library in the link list is a listed file, or the output of exactly one compile, which the final node waits for: one made for it, or the library's own by way of the library's node |
| ActionKeys.MemoAgreesWithDisk | src/executor.c:1384-1502 | As long as no remembered file changed, digests through the memo are those of the files, and every answer is remembered |
| ActionKeys.DigestTells | src/executor.c:1464-1502 | Equal digests mean the same stamp, and for a file outside the build directory the same bytes; below it only the stamp counts |
| ActionKeys.KeyTells | src/executor.c:1622-1634 | Equal keys mean the same action id and recipe, the same lists in one order, and the same files as far as digests tell |
| IncrementalBuild.BuildContext.HashFile | src/executor.c:1446-1502 | One file's digest: missing, stamp only below the build directory, stamp and bytes elsewhere; remembered for the rest of the build; no disk with other bytes outside the build directory gives the same |
| IncrementalBuild.BuildContext.HashInputs | src/executor.c:1622-1634 | The loop's digests and the memo it leaves |
| IncrementalBuild.BuildContext.CopyStaticInputs | src/executor.c:7887-7900 | Exactly the inputs the old depfile does not name, in order |
| IncrementalBuild.BuildContext.PushTokens | src/executor.c:5659-5677 | Lists depfile entries once each, failing exactly when one is gone |
| IncrementalBuild.BuildContext.PrepareAction | src/executor.c:7935-8013 | Computes the key, then skips exactly when it equals the stored one and every output exists |
| IncrementalBuild.BuildContext.FinishAction | src/executor.c:6791-6872 | A successful process's outputs and depfile are on disk with a new stamp and its key recorded; a failed one changes nothing that is recorded |
| IncrementalBuild.BuildContext.RefreshAction | src/executor.c:5859-5898 | The key after a run: prepared inputs without the old depfile's, then the new depfile's |
| IncrementalBuild.BuildContext.Build | src/executor.c:10065-10121 | A build's stored keys change only if every step and every refresh succeeded; unvisited actions keep theirs |
| IncrementalBuild.StepStops | src/executor.c:7935-8013 | A step is refused exactly if it is out of turn, if the old depfile names a file that is gone, or if the process fails |
| IncrementalBuild.RefreshFails | src/executor.c:5859-5898 | A refresh fails exactly if the new depfile names a file that is gone |
| IncrementalBuild.BuildStops | src/executor.c:10065-10121 | A build fails exactly if a step is refused, a process is left running, or a refresh fails |
| IncrementalBuild.SkippedExactly | src/executor.c:7935-8013 | Preparing an action ends it exactly if the stored key is the key computed, it has outputs and all of them exist; otherwise it runs |
| IncrementalBuild.StoredAre | src/executor.c:10065-10121 | A successful build stores a key for every action it visited and keeps every other as it was |
| BuildHistory.EntrySurvives | src/executor.c:9516-9525 | A stored key stays good through any writes and removals that leave its outputs alone or incomplete |
| BuildHistory.SpentStays | src/executor.c:1446-1502 | A key that names a stamp no file has any more, or lists no prepare would compute, can never be computed again |
| BuildHistory.KeyStays | src/executor.c:1446-1502 | Through any writes and removals a stored key stays one that its own prepare computed: its digests tell the files they were taken of as long as their stamps stay |
| BuildHistory.CurrentKeyRepeats | src/executor.c:1692-1746 | If every digest of a stored key is current, a run now gives what the recorded run gave |
| BuildHistory.SkipIsSound | src/executor.c:9516-9525 | A cache hit means the outputs on disk are those a run now would write |
| BuildHistory.UnseenKeepsUpToDate | src/executor.c:9516-9525 | Files an action neither owns nor can read do not decide whether it is up to date |
| BuildHistory.PrepareComputes | src/executor.c:7935-8013 | Through the memo, a prepare computes exactly the key the disk asks for, whatever has run before it |
| BuildHistory.PrepareKeeps | src/executor.c:9783-9836 | A prepare, hit or not, keeps the invariant of a build |
| BuildHistory.RerunKeepsEntry | src/executor.c:10110-10121 | A re-run leaves even its old stored key good, whatever the outputs were before, unless that key records a missing file |
| BuildHistory.FinishKeeps | src/executor.c:9966-9986 | A finished process keeps the invariant: every done action up to date, every memo entry true, every other key good |
| BuildHistory.RefreshKeeps | src/executor.c:5922-5939 | The refreshes leave for every visited action the key its disk and lists ask for |
| BuildHistory.EntryOfDisk | src/executor.c:5859-5898 | A key taken of the disk, for an action that is up to date, is a good stored key |
| BuildHistory.BuildKeeps | src/executor.c:10065-10121 | After a successful build every visited action is up to date and every stored key is good |
| BuildRuns.RecalledRepeats | src/executor.c:1692-1746 | Once the files a live stored key does not know are gone, a run repeats the run the key was computed for |
| BuildRuns.HarmlessIsStored | src/executor.c:9516-9525 | A stored key is good exactly if the failed build that left it did no harm |
| BuildRuns.FailureKeeps | src/executor.c:9732-9737 | A failed build, wherever it stopped, keeps the invariant of all runs if and only if it did no harm to the actions it ran or stopped |
| BuildRuns.HarmlessCases | src/executor.c:9732-9737 | No harm is done to an action without a stored key or with a spent one, nor by a process stopped before it wrote anything or before its outputs were complete, nor by a finished re-run whose key records no missing file |
| BuildRuns.RunKeeps | src/executor.c:10065-10121 | The stored keys are good after any run of edits, removals, builds and harmless failed builds |
| BuildRuns.SkippedOnlyIfUpToDate | src/executor.c:9516-9525 | In every build of every run, an action is skipped only if re-running it would reproduce the outputs on disk |
| BuildRuns.OutputsDetermined | src/executor.c:9516-9525 | The sources leave only one possible set of outputs for actions that are all up to date |
| BuildRuns.SameAsFromScratch | src/executor.c:10065-10121 | A successful build after any run leaves, for every action it visited, the outputs of a build from scratch |
| NullBuild.RepeatsMeansNoRun | src/executor.c:9798-9810 | If every visited action's next key equals its stored one, nothing is started |
| NullBuild.NoRunMeansRepeats | src/executor.c:9798-9810 | If nothing ran, every visited action's next key equalled its stored one |
| NullBuild.WhoRepeats | src/executor.c:5859-5892 | A visited action repeats its key exactly when it did not re-run with a depfile or its two input lists agree |
| NullBuild.NullBuildRunsNothing | src/executor.c:5859-5892 | With nothing changed, a second build runs nothing if and only if the two lists agree for every action re-run with a depfile |
| NullBuild.ColdBuildSettles | src/executor.c:5859-5892 | A build from scratch is always followed by a build that runs nothing |
| NullBuild.WarmListsAgree | src/executor.c:6529-6540 | With an unchanged depfile the lists agree exactly when the declared inputs it names come last among the declared and first in the depfile, in one order |
| NullBuild.PrecompiledHeaderNeverSettles | src/executor.c:6502-6512 | A source declared before its precompiled header, with a depfile naming only the source, is rebuilt every time; declared after it, it is not |
| BuildLimits.RecalledKey | src/executor.c:1446-1502 | Where a stored key is neither spent nor off its list, the disk without the files it does not know asks for exactly that key again |
| BuildLimits.SameKeysSameSteps | src/executor.c:9783-9836 | A schedule depends on no stored keys but those of the actions it visits |
| BuildLimits.HarmIsSkipped | src/executor.c:9516-9525 | From a state in which harm was done, any build that comes to the action through good keys, and changes no file its key tells of, skips it, and its outputs are not what a run would write |
| BuildLimits.HarmComesOut | src/executor.c:10065-10121 | After a failed build that does harm, at the end of any lawful run, removals and a build that comes to the harmed action without changing a file its key tells of lead to such a wrong skip |
| BuildLimits.HarmComesOutAtOnce | src/executor.c:10065-10121 | For an action that waits for nothing they always do: after the removals the next build may begin with the wrong skip |
| BuildLimits.StoppedRunIsSkipped | src/executor.c:9732-9737 | An output removed, its action started and stopped: the next build skips it with the partial output |
| BuildLimits.MissingInputReturns | src/executor.c:1464-1472 | A missing input that comes, is used by a failed build, and goes: the next build skips a stale output |
| ActionCache.HitRestoresARun | src/action_cache.c:564-684 | A hit leaves in every output the bytes that one earlier run with the hit's key left there |
| ActionCache.KeyTells | src/action_cache.c:316-428 | Two eligible commands have one key if and only if id, kind, arguments, tool, environment, outputs and inputs are the same and every input has the same content |
| ActionCache.BaseTells | src/action_cache.c:316-428 | The same for the base key and the declared inputs |
| ActionCache.EffectiveAre | src/action_cache.c:375-392 | A command reads its declared inputs and what its depfile on disk names, each listed once |
| ActionCache.HitWritesWhatARunWould | src/action_cache.c:563-684 | If what a command writes depends on the command and on what it reads, a hit whose key is the current one leaves in every output what a run now would write |
| ActionCache.DepfileIsOfARun | src/action_cache.c:638-648 | The depfile an entry brings back is the one an earlier run with its key left |
| ActionCache.AliasRestores | src/action_cache.c:587-684 | Without a direct entry, an alias to a whole entry whose depfile, brought back, asks for that entry is a hit |
| ActionCache.StoredRemovedRestored | src/action_cache.c:563-836 | Store, remove outputs and depfile, restore: the disk is as it was, but for a depfile that named nothing new, which stays away |
| ActionCache.HitKeyIsCurrent | src/action_cache.c:564-684 | A hit's key is the key of the files now if and only if it was found directly or its entry has a depfile |
| ActionCache.UniformHitsAreCurrent | src/action_cache.c:564-684 | Where one action identity always has the same depfile, every hit's key is the key of the files now |
| ActionCache.BaseFixesKey | src/action_cache.c:316-428 | Without a depfile the base key determines the key |
| ActionCache.MissChangesNoOutput | src/action_cache.c:594-667 | A miss that is no failure changes no file but possibly the depfile |
| ActionCache.StoredIsRestored | src/action_cache.c:564-684 | A whole entry is hit on the files it was stored from, and restoring it changes nothing |
| ActionCache.AliasWithoutDepfileHitsStale | src/action_cache.c:587-645 | One sound cache in which an alias leads to a hit although a header changed |
| ActionCache.LocalCache.EvaluateSpec | src/action_cache.c:316-428 | Both keys from files, tool and environment; refusal exactly for ineligible specs, failure exactly for a depfile naming a missing file |
| ActionCache.LocalCache.Discard | src/action_cache.c:507-523 | Stopped at any point, it has removed the first files of the entry in order, and never leaves a manifest it should have removed |
| ActionCache.LocalCache.Restore | src/action_cache.c:563-684 | The outcome and files are those of the specification; an entry changes only if it was broken, and then has no manifest; soundness is kept |
| ActionCache.LocalCache.Commit | src/action_cache.c:807-824 | The manifest appears only after every blob it lists is in place |
| ActionCache.LocalCache.Store | src/action_cache.c:686-836 | Stopped at any file step, the cache stays sound; completed, the entry is intact with the digests of the outputs and the alias leads to it |
| StateIndex.EmptyMeansAbsent | src/executor.c:2339-2354 | A probe that meets an empty slot has shown that the id is nowhere in the index |
| StateIndex.InsertExtends | src/executor.c:2293-2303 | Putting a new id into the first empty slot after its home keeps every id reachable and first positions right |
| StateIndex.KnownIdExtends | src/executor.c:2295-2299 | A repeated id leaves the index as it is, with its first position |
| StateIndex.SomeEmpty | src/executor.c:2285-2288 | With fewer entries than slots some slot is empty, so probing ends |
| StateIndex.StateTable.Capacity | src/executor.c:2285-2287 | A power of two, at least 32 and at least twice the entries, and no larger than doubling requires |
| StateIndex.PowerIs | src/executor.c:2285-2287 | Halving evenly down to one is being a power of two |
| StateIndex.StateTable.Build | src/executor.c:2275-2306 | Terminates with an index of all entries, or none for an empty table |
| StateIndex.StateTable.Find | src/executor.c:2339-2361 | Through the index or without it, the first matching entry or none |
| MicrosoftArguments.QuotedReadsBack | src/platform_process.c:350-383 | The quoted form of any argument reads back as that argument, up to the separator |
| WindowsCommandLine.LineSplitsBack | src/platform_process.c:386-414 | Splitting the command line gives back the argument vector, whatever it contains |
| WindowsCommandLine.StartedWith | src/platform_process.c:386-414 | The program is given the vector, after `sh` if it is a shell script on Windows |
| WindowsCommandLine.LineWriter.AppendChar | src/platform_process.c:306-316 | Appends and keeps the NUL, or changes nothing when only the NUL's place is left |
| WindowsCommandLine.LineWriter.AppendArgument | src/platform_process.c:338-383 | Appends exactly the encoded argument, and fails exactly when that and a NUL do not fit |
| WindowsCommandLine.FromArgv | src/platform_process.c:386-414 | Succeeds exactly for a non-empty vector whose line and NUL fit, and then the buffer holds that line and NUL |
| ShellWords.QuoteReadsBack | src/action_materialize.c:165-191 | A shell reads a quoted argument back as itself and acts on none of its characters |
| ShellWords.QuotedExactly | src/action_materialize.c:165-191 | Only an argument with a character outside the plain ones, or with none at all, is quoted |
| CommandJoin.JoinedSplitsBack | src/executor.c:3603-3646 | A shell splits the joined string back into the argument vector |
| CommandJoin.JoinedFits | src/executor.c:3611-3614 | The joined string and its NUL never exceed one plus four times each length plus four |
| CommandJoin.JoinArgv | src/executor.c:3603-3646 | Every write is inside the allocated buffer, which then holds the joined string and a NUL |
| ResponseFile.ShellFileReadsBack | src/action_materialize.c:165-191 | A POSIX reader of the response file finds the arguments |
| ResponseFile.WindowsFileReadsBack | src/action_materialize.c:193-236 | A Microsoft reader finds them, whatever white space besides newline it separates by |
| ResponseFile.TextFile.WriteWindowsArg | src/action_materialize.c:193-236 | Writes the argument's encoding, held-back backslashes doubled only where a quote follows |
| ResponseFile.TextFile.WriteResponse | src/action_materialize.c:281-314 | Writes every argument but the tool, one a line |
| ResponseFile.Digest.AddShellArg | src/action_materialize.c:78-102 | Folds in exactly the bytes the writer would write |
| ResponseFile.ResponseDigest | src/action_materialize.c:147-163 | Equals the byte-by-byte hash of the file's text, for any step function, without the file |
| ResponseFile.FoldContinues | src/action_materialize.c:60-76 | In that hash every byte counts, in order |
| ArgvStorage.DoubledAtMostTwice | src/argv.c:31-38 | Growing by doubling asks for less than twice what is needed |
| ArgvStorage.DoubledGrows | src/argv.c:31-38 | Growing at least doubles while a word holds it |
| ArgvStorage.WhatCanBeHeld | src/argv.c:17-52 | A count is accepted whenever sixteen bytes an item fit a word and never when eight do not |
| ArgvStorage.Argv.Reserve | src/argv.c:17-52 | Makes room, or changes nothing; with memory it succeeds exactly when slots and pointer bytes fit a word |
| ArgvStorage.Argv.Push | src/argv.c:54-78 | Appends a copy or changes nothing; the NULL follows the last item and bytes is the exact sum, never past a word |
| ArgvStorage.Argv.CloneFrom | src/argv.c:114-134 | A deep copy replaces the contents, or nothing changes, even when source and destination are one |
| Materialize.EnvironmentBytes | src/action_materialize.c:316-340 | The saturated sum of the environment's bytes |
| Materialize.WithinPosixLimit | src/action_materialize.c:374-399 | The check in word arithmetic accepts exactly when bytes, pointers and environment, counted without bound, stay 2048 below the limit |
| Materialize.WithinWindowsLimit | src/action_materialize.c:355-373 | Accepts exactly the lines of at most 32767 characters |
| Materialize.MaterializedMeansLogical | src/action_materialize.c:401-460 | Expanding the executed command, response file or not, as the toolchain's tools read it, gives the logical argument vector |
| Materialize.ResponseExactly | src/action_materialize.c:401-460 | A response file is used exactly where the toolchain takes one and there are 512 bytes or more than 48 items |
| Materialize.FitsInNumbers | src/action_materialize.c:342-399 | The limits in numbers: 32767 characters, or 2048 bytes less than ARG_MAX, 131072 if unknown |
| Materialize.Action | src/action_materialize.c:401-460 | The command form, response text, digest and limit for every input, and success whenever memory and limits allow |
| BinaryRecords.DigitsHaveValue | src/executor.c:2487-2506 | Eight bytes read back the word they were written from |
| BinaryRecords.TextReadsBack | src/executor.c:2509-2543 | A string reads back exactly when it is within the cap |
| BinaryRecords.FileReader.NextText | src/executor.c:2522-2543 | Reads a length-prefixed string, or fails on a short file or a length past the cap |
| StateDb.FileReadsBack | src/executor.c:2598-2648 | A written file loads back exactly when it is not too long and every record is acceptable, and otherwise not at all |
| StateDb.PrefixIsRefused | src/executor.c:2580-2667 | No proper prefix of a loadable file loads |
| StateDb.StateLoadsBack | src/executor.c:2739-2793 | Loading a written state file gives the same entries, or nothing if one has an empty field, an over-long digest or string, or there are too many |
| StateDb.LoadableAre | src/executor.c:2598-2648 | What the loader takes, field by field: strings of at most 16 MiB, digests under 32 bytes, id, key, output and status not empty, ten million entries |
| StateDb.CutStateIsRefused | src/executor.c:2580-2667 | A state file cut anywhere loads nothing |
| StateDb.DepReadsBack | src/executor.c:3020-3060 | A depfile record reads back exactly when its name, digest, count and paths are acceptable |
| StateDb.DepsLoadBack | src/executor.c:3193-3253 | The same two results for the dependency file |
| StateDb.DepsLoadableAre | src/executor.c:3020-3060 | The same for depfile records: a name, a digest under 32 bytes, a million package-relative inputs |
| StateDb.EachItsOwn | src/executor.c:2598-2611 | No file is taken for both databases |
| StateDb.VersionCounts | src/executor.c:2598-2611 | A file of another version is refused whole |
| StateDb.LoadStateDb | src/executor.c:2580-2667 | The loader gives all entries or, on any fault, none |
| StateDb.SaveStateDb | src/executor.c:2739-2793 | The writer's loop produces the file's bytes |
| StateDb.LoadDepsDb | src/executor.c:2996-3100 | The loader gives all records or none |
| DepfileCache.RuleReadsBack | src/executor.c:5696-5750 | Scanning a compiler's rule with continued lines and escaped characters gives its prerequisites, cut to 4095 characters, as long as they have no blanks |
| DepfileCache.EscapedBlankSplits | src/executor.c:5717-5735 | A blank, escaped or not, ends the path before it |
| DepfileCache.ListedAre | src/executor.c:5659-5693 | A read adds exactly the package-relative tokens behind the given inputs, and fails exactly if one of them is missing |
| DepfileCache.OnceIsEnough | src/executor.c:5659-5693 | Pushing each token once gives the same list, and the same missing file, as pushing every occurrence |
| DepfileCache.StopsAt | src/executor.c:5659-5693 | The first missing file decides, whatever tokens follow |
| DepfileCache.DepContext.Parse | src/executor.c:5696-5750 | The character loop gives the input list, the record and the error of the token specification |
| DepfileCache.DepContext.Fingerprint | src/executor.c:5610-5656 | An unchanged size and time reuse the remembered digest, anything else hashes |
| DepfileCache.DepContext.Record | src/executor.c:2909-2935 | One record per depfile: replaced in place or appended |
| DepfileCache.DepContext.PushDepfileInputs | src/executor.c:5753-5798 | If size and time determine the content, the cached path gives the list, the records and the missing-file error of a fresh read |
| DepfileCache.CachedIsFresh | src/executor.c:5753-5798 | Where the remembered record is true, using it gives what reading the depfile gives |
| DepfileCache.ReadIsRemembered | src/executor.c:5768-5785 | A read that succeeds leaves a record of the depfile with this size and time that holds what the text says |
| DepfileCache.EveryReadIsFresh | src/executor.c:5753-5798 | Over any number of builds, failed ones included, that start without records, every read gives what reading the text gives, if a size and time never stand for two texts of one depfile |
| StateMemory.MergeOverrides | src/executor.c:2377-2406 | After the merge each id has what was visited, and otherwise what was there before |
| StateMemory.LookupIsFirst | src/executor.c:2339-2361 | Where ids repeat, the first row counts |
| StateMemory.MergedUnchangedIsSame | src/executor.c:2417-2443 | When the write is skipped, the file already says what would be written, up to status and order, even if ids repeat |
| StateMemory.UnchangedIsSame | src/executor.c:2975-2993 | For distinct ids the length-and-lookup test implies the same table, by counting |
| StateMemory.SameIsUnchanged | src/executor.c:2417-2443 | Between tables with distinct ids the test misses no equality |
| StateMemory.RecordedDistinct | src/executor.c:2909-2935 | Recording never produces two records for one depfile |
| StateMemory.RecordedCopies | src/executor.c:2938-2957 | Cloning records of distinct depfiles copies them in order |
| StateMemory.RefusedIsForgotten | src/executor.c:2580-2667 | A file says what was written to it exactly if its loader takes it; one that is refused loads as nothing |
| StateMemory.StateCache.WriteState | src/executor.c:3356-3375 | The file, written or not, says the merged table, as it was written or as it loads |
| StateMemory.StateCache.WriteDeps | src/executor.c:3193-3205 | File and memory keep saying the same, and change only if the build recorded something |
| StateMemory.StateCache.Build | src/executor.c:10089-10119 | Over any run of builds, failed ones included, what is loaded from memory is what the files say, and a fresh process sees what loading them gives; as long as the loader takes the tables the two are one, and the file then holds the previous table overridden by what was visited |
| EventStream.DecimalReadsBack | src/daemon.c:403-414 | A printed number scans back |
| EventStream.EventHeaderReadsBack | src/daemon.c:403-414 | A frame header is recognised with its kind and length |
| EventStream.NegativeLength | src/daemon.c:1127-1135 | A negative length is read as scanf reads it, wrapped round, and so refused unless it is close to a whole word |
| EventStream.ClassifiedAre | src/daemon.c:357-401 | A line is progress if it begins with a bracket and holds a closed percentage, and else a diagnostic if it holds a warning or an error |
| EventStream.SessionReadsBack | src/daemon.c:1110-1154 | The client prints exactly what the build wrote and ends with its status |
| EventStream.CutSessionIsNoticed | src/daemon.c:1110-1154 | A stream cut anywhere never ends with a status, and what was printed is a beginning of the output |
| EventStream.EventWriter.WriteBytes | src/daemon.c:434-450 | Output in chunks of any size is framed without loss; frames stay below the buffer size |
| EventStream.EventWriter.Finish | src/daemon.c:505-516 | The partial line and the final status complete the session |
| EventStream.StreamReader.NextLine | src/daemon.c:309-338 | One line without carriage returns, or failure at the end of the stream or at 256 bytes |
| EventStream.StreamReader.Render | src/daemon.c:1110-1154 | The reader's loops print and end as specified, on any stream |

## Left out

- Processes, pipes, signals and clocks: a process is a sequence of "not yet" answers and an end; files are maps with write stamps.
- Allocation failure, except in `ArgvStorage` and `Materialize`, and file errors other than a missing file.
- Hash collisions, and newlines inside hashed strings that could make two key preimages equal.
- Concurrent overlap of two processes' reads and writes: `IncrementalBuild` takes a process's effect at the moment it finishes; `PlanOk` makes the moment immaterial, since an action sees only sources and finished actions' outputs.
- Builds whose declarations change between runs: the plan is fixed over a history, and an output path that moves to another action is outside the theorem.
- Tools that break their contract: ones that write no depfile although they were asked for one (the executor falls back to the declared inputs), or that read what no list names.
- Validation of toolchains and source suffixes: a source arrives with its kind, unsupported kinds are refused before `LinkObjects`, and of the strategy check only what the declarations decide is modelled, not the compiler's family or the language standard.
- The sorted order in which "everything" is collected; `Discovery` uses declaration order, and the found set does not depend on it.
- Provider final actions, and the older serial and parallel build paths.
- File modes, statistics and printed reports of the local cache; `Restore` is not interrupted by a crash, only `Store` is.
- Changed aliases and manifests in the local cache: corruption is of blobs and depfile blobs.
- Fairness of the queue: a node put back goes to the tail, so order of service is not claimed.
- Microsoft's separate rule for the program name: every item is read by the argument rules. A first word with `=` in a joined command would be an assignment to a shell; response files and argument positions are not affected.
- The human-readable state dump and its use when the state file is absent: a missing state file loads as empty.
- Sockets, locks, file watching and graph freshness of the daemon; the stream's opening line; final statuses of 1000 and more in `EventStream`, and the client's own error lines, which are not part of `printed`.
- BuildLimits.HarmComesOut: needs a build that comes to the harmed action without changing a file its key tells of, as every build can do for an action that waits for nothing (`BuildLimits.HarmComesOutAtOnce`); a build that changes one spends the key.
- `src/fmt.c`, `src/init.c`, `src/lint.c`, `src/header.c`, `src/rule.c`, `src/label.c`, `src/external_tool_policy.c`: text generation, table lookups and single checks, which would only add easy members.
