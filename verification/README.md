# Verified model of FLAME II

FLAME II compiles the state machine of every agent type into a graph of tasks and runs
that graph, once per iteration, on a pool of worker threads. This project models both
halves in Dafny, and proves what they are for.

**The dependency compiler.** The state graph of an agent is built from its transition functions
(`StateGraph.dfy`) and checked (`AgentCompiler.dfy`). Then branching states become conditions, states are contracted, a
single pass in topological order finds who last wrote and last read each variable, data
edges are added, and then the whole program order is thrown away. `DataFlow.dfy` says what
the pass means (over all paths) and proves that no conflict loses its order;
`Task.dfy`, `TaskGraph.dfy`, `XGraph.dfy` hold the passes as they change the graph in
place; `AgentGraph.dfy` carries the promises through every stage. `StartAndOutputs.dfy` says where a compiled agent
starts and how each of its variables is put out. `ModelGraph.dfy`,
`ModelXGraph.dfy`, `AgentPlaces.dfy`, `MergedOrder.dfy`, `MergedEnds.dfy` and `WholeModel.dfy` merge the agents and
replace their messages by synchronisation and clearing tasks, and prove that the merged order is
exactly the one the agents and their messages force, between a start and a finish that stand where they should. `CompiledAgents.dfy` follows messages and
readers through the compilation of one agent, and `ForcedOrder.dfy` proves that the order in a compiled agent is
exactly the one its conflicts and messages force. `CompiledModel.dfy` puts it all together, from the functions of all
agents to the graph of the model; `ClearOrder.dfy` says which functions the model waits for before it clears a message.
`SecondReader.dfy`, `ConditionReads.dfy` and `Deadlock.dfy` run the compiler on agents that it gets wrong.

**The executor.** `TaskIteration.dfy` and `TaskManager.dfy` are the table of dependencies
and the progress of an iteration over it; `TaskQueue.dfy` the queue that hands out the pieces of
split tasks; `Scheduler.dfy` the blocks of the scheduler. `Executor.dfy` is the state machine in
which scheduler and workers take turns: a step is what one thread does under a lock, or
the running of a piece. `ExecutorRuns.dfy` proves safety, termination and progress of all its runs,
`FirstInFirstOut.dfy` that no task overtakes another of its queue.

**Splitting and memory.** `AgentTask.dfy` has the arithmetic of splitting in 64-bit sizes,
`MemoryIterator.dfy` and `MessageBoard.dfy` the data a task touches, and `SplitRun.dfy` proves
that running pieces at once amounts to one sequential run.

**Two smaller cores.** `XMachine.dfy` and `XModelValidate.dfy` cover the checks on states and data types,
`Printer.dfy` the template printer. `Digraph.dfy` holds the graph theory used throughout.

Methods follow the passes of the source and state in their contracts which function of the old
state the new one is; the main results are lemmas about those functions, or, for the executor,
about all reachable states. Sorting topologically and reducing transitively are parameters with
contracts (`SortsTopologically`, `ReducesTransitively`), and so is the search for cycles (`FindsCycles`);
`GraphAlgorithms.dfy` proves that there are functions that meet them.

## Where the code falls short of its purpose

- A message is not cleared after all functions that read it, but after those that read it with no other reader
  before them in their agent, and what comes before one of these (`ClearOrder.ClearWaitsExactly`); in a model of one agent, a
  reader is waited for exactly if no other reader comes before it (`ClearOrder.ReaderWaitedForExactly`).
  `SecondReader.SecondReaderMissed` compiles an agent where this matters, two functions in a row that read one message and
  write one variable, from its functions to the model graph, where the second may run after the clearing.
- Agents that are acyclic each can have a cyclic model graph: `Deadlock.AgentsCanDeadlock` compiles two agents, each of
  which reads what the other posts, without an error to a model graph with a cycle.
  By `WholeModel.ImportGraphs` there is a cycle exactly if the agents' edges have one once messages of one name are taken
  for one, so never if no message is shared (`WholeModel.UnsharedIsAcyclic`). On cyclic dependencies an iteration never ends
  (`ExecutorRuns.EndsExactlyIfAcyclic`).
- What the condition of a function reads is read by the state that the function leaves (flame2/model/xgraph.cpp:230-240), which is
  contracted unless it branches. So a task that reads for the condition, and keeps its order with what writes these variables, is left exactly if
  another function leaves the same state (`ConditionReads.ConditionReadsKept`); otherwise a function may run before its condition's
  variables are written (`ConditionReads.WaitsForNothing`, `ConditionReads.ConditionReadLost`).
- Splitting compares products that can wrap around; `AgentTasks.AgentTask.SplitTask` says for which sizes the
  split is then too fine, or divides by zero. The range check of the memory iterator wraps likewise
  (`MemoryIterators.AcceptedExactly`).
- `PrintRaw` is described as printing without indentation (xparser2/printer.hpp:66-69), but writes an
  indent at the start of a line; the model follows the code.
- A comment says that conditions read all variables (flame2/model/xgraph.cpp:807); the code makes them write all variables
  too, so that a condition is ordered with every access; the model follows the code.
- A variable whose type is the data type it belongs to is not marked as holding dynamic arrays even if the
  type is (`XModelValidates.OwnTypeUnmarked`). `XModelValidates.OwnVariableMarkedExactly`: the mark of a variable is wrong exactly
  if it has this type, is no dynamic array itself, and the type is marked; the mark on the type itself is right.

## Model

| member | source | states |
|---|---|---|
| `StateGraphs.GenerateStateGraph` | flame2/model/xgraph.cpp:197-320 | the graph has a task for every function, state and message, edges from states and messages to functions and back, what each task reads and writes, the task of the start state, and as end tasks exactly the functions that lead to an end state |
| `StateGraphs.NodeOfFunction` | flame2/model/xgraph.cpp:222-268 | the task of a function accesses exactly the variables that the function declares, however many functions follow |
| `StateGraphs.CanBeCompiled` | flame2/model/xgraph.cpp:197-320 | a graph so built that has no cycle and a start state that some function leaves is one that the compiler can take |
| `AgentCompiler.RunsBeforeExactly` | flame2/model/xgraph.cpp:197-320 | in the state graph one function runs before another exactly if it can come before it by way of the states |
| `AgentCompiler.CheckFunctionConditions` | flame2/model/xgraph.cpp:1098-1127 | no error exactly if each function behind a branching state has a condition |
| `AgentCompiler.ConditionsAre` | flame2/model/xgraph.cpp:1098-1127 | on a graph built from functions that is so exactly if functions that share their current state have conditions |
| `AgentCompiler.ValidateAgentStateGraph` | flame2/model/xmodel_validate.cpp:113-148 | no error exactly if there is one start state, no cycle, and every branching is by conditions; then the graph is that of the functions |
| `Tasks.Task.AddReadWriteVariable` | flame2/model/task.cpp:115-118 | the variable joins the read and the write set; every task but a start or output task still reads whatever it writes |
| `Tasks.Task.AddReadOnlyVariable` | flame2/model/task.cpp:120-123 | the variable joins the read-only and the read set; writes stay within reads |
| `XGraphs.XGraph.RemoveVertex` | flame2/model/xgraph.cpp:84-106 | the task leaves the list, its edges go, and higher vertices move down by one |
| `XGraphs.XGraph.RemoveVertices` | flame2/model/xgraph.cpp:108-115 | removing largest first leaves the tasks and edges filtered and renumbered by the order-preserving rank of the survivors |
| `TaskGraph.KeptAt` | flame2/model/xgraph.cpp:108-115 | a surviving task stands at the rank of its old number, so task list and graph numbering stay aligned |
| `TaskGraph.RenumberedReaches` | flame2/model/xgraph.cpp:108-115 | between survivors, reachability after renumbering is reachability off the removed vertices |
| `XGraphs.XGraph.BypassVertex` | flame2/model/xgraph.cpp:819-840 | every source of an in-edge is joined to every target of an out-edge |
| `XGraphs.XGraph.ContractVertices` | flame2/model/xgraph.cpp:819-846 | all vertices of the type are bypassed and removed; the graph stays valid and acyclic |
| `TaskGraph.ContractedReaches` | flame2/model/xgraph.cpp:819-846 | contraction keeps reachability between survivors exactly, adjacent contracted vertices and renumbering included |
| `TaskGraph.ContractedAcyclic` | flame2/model/xgraph.cpp:819-846 | contraction keeps the graph acyclic and in range |
| `XGraphs.XGraph.TransformConditionalStatesToConditions` | flame2/model/xgraph.cpp:790-813 | exactly the states with more than one out-edge become conditions that read and write all variables of the agent; other tasks stay |
| `XGraphs.XGraph.ContractStateVertices` | flame2/model/xgraph.cpp:848-864 | a start state gives way to its successor before the states are contracted |
| `XGraphs.XGraph.CopyWritingAndReadingVerticesFromInEdges` | flame2/model/xgraph.cpp:552-564 | what a task has recorded becomes the union of what it had and what the sources of its in-edges have |
| `XGraphs.XGraph.AnalyseVertex` | flame2/model/xgraph.cpp:674-707 | if the predecessors carry the last writers and last readers over all paths, so does the vertex afterwards, and exactly its data dependencies become edges |
| `XGraphs.XGraph.AnalyseInOrder` | flame2/model/xgraph.cpp:674-707 | in any topological order one pass leaves every processed task with exactly the writers (readers) that some path brings to it with no other writer in between, and adds exactly the data edges |
| `DataFlow.ArrivesStep` | flame2/model/xgraph.cpp:552-564 | a fact arrives along some path exactly if it holds after some predecessor: the union over in-edges is the meet over all paths |
| `DataFlow.LastWriterStep` | flame2/model/xgraph.cpp:583-672 | the kill-and-extend step on writers is exact |
| `DataFlow.LastReaderStep` | flame2/model/xgraph.cpp:583-672 | the kill-and-extend step on readers is exact |
| `DataFlow.DataEdgeIsOrderedConflict` | flame2/model/xgraph.cpp:583-642 | every data edge joins two conflicting accesses that are ordered by the state graph |
| `DataFlow.DataEdgesKeepAcyclic` | flame2/model/xgraph.cpp:674-707 | the data edges close no cycle |
| `DataFlow.OrderKept` | flame2/model/xgraph.cpp:583-707 | conflicting accesses ordered by the state machine are ordered by data edges alone |
| `DataFlow.DataOrderExact` | flame2/model/xgraph.cpp:583-707 | the order given by the data edges is exactly the transitive closure of the ordered conflicts: none lost, none invented |
| `XGraphs.XGraph.AddStartTask` | flame2/model/xgraph.cpp:523-540 | the start task, first writer of every variable, leads to the start of the graph (what comes of that in the compiled graph is `StartAndOutputs.EndsHold`) |
| `XGraphs.XGraph.AddEndTask` | flame2/model/xgraph.cpp:542-550 | every end function leads to the end task |
| `XGraphs.XGraph.AddDataDependencies` | flame2/model/xgraph.cpp:674-707 | start and end task and exactly the data edges are added; the end task holds the last writers of every variable |
| `XGraphs.XGraph.RemoveStateDependencies` | flame2/model/xgraph.cpp:774-788 | exactly the state edges go |
| `XGraphs.XGraph.AddVariableOutput` | flame2/model/xgraph.cpp:737-772 | one output task for each class of variables with the same last writers, with in-edges from exactly those writers; then the end task is removed |
| `AgentGraph.PartitionMeaning` | flame2/model/xgraph.cpp:723-772 | a variable is in exactly one output task, and two share one exactly if their last-writer sets are equal |
| `AgentGraph.OutputEdgesExact` | flame2/model/xgraph.cpp:737-772 | an output task has in-edges from exactly the last writers of its variables |
| `XGraphs.XGraph.RemoveRedundantDependencies` | flame2/model/xgraph.cpp:871-909 | tasks are put where the reduction has moved their vertices |
| `AgentGraph.ReducedOrdered` | flame2/model/xgraph.cpp:871-909 | the order of two tasks survives the remapping |
| `XGraphs.XGraph.BuildDependencies` | flame2/model/xgraph.cpp:160-189 | everything up to the reduction is a compilation in the sense of the main results below, and leaves an acyclic graph |
| `XGraphs.XGraph.GenerateDependencyGraph` | flame2/model/xgraph.cpp:160-195 | end to end: conflicts stay ordered, outputs follow writers, message edges stay, and the result is acyclic, although all state edges are gone |
| `AgentGraph.ConflictsStayOrdered` | flame2/model/xgraph.cpp:160-189 | if the state graph runs u before v and they conflict on a variable, the compiled graph leads from u to v |
| `AgentGraph.OutputFollowsWriters` | flame2/model/xgraph.cpp:737-772 | every function that writes a variable, and from which an end function can be reached, comes before the output task of that variable |
| `AgentCompiler.FunctionCanEnd` | flame2/model/xgraph.cpp:197-320 | if the state graph has no cycle and the end states are those never left, the agent can come to an end from every function |
| `AgentCompiler.EverythingCanEnd` | flame2/model/xgraph.cpp:197-320 | and from every condition |
| `AgentCompiler.OutputsAfterAll` | flame2/model/xgraph.cpp:737-772 | so that in a checked agent every function or condition that writes a variable comes before an output task of that variable |
| `AgentGraph.MessageEdgesStay` | flame2/model/xgraph.cpp:270-294 | posters stay before their message, readers after it |
| `AgentGraph.CompiledAcyclic` | flame2/model/xgraph.cpp:160-189 | the compiled graph has no cycle |
| `AgentGraph.CompilationKeepsPromises` | flame2/model/xgraph.cpp:160-195 | all promises of a compilation survive the transitive reduction |
| `StartAndOutputs.StartFirst` | flame2/model/xgraph.cpp:523-540 | in the compiled and reduced graph the start task comes before every function and condition that accesses a variable of the agent |
| `StartAndOutputs.OneOutput` | flame2/model/xgraph.cpp:737-772 | every variable that the agent declares is in exactly one output task, written or not |
| `StartAndOutputs.OutputBehindStart` | flame2/model/xgraph.cpp:737-772 | the output of a variable that no function or condition writes stands directly behind the start task, and behind nothing else |
| `StartAndOutputs.EndsHold` | flame2/model/xgraph.cpp:160-195 | all three for the tasks of the compiled graph, which has one start task |
| `AgentCompiler.StartVertex` | flame2/model/xmodel_validate.cpp:113-148 | in a checked agent one function or condition comes, by way of the states, before all others, and from it the agent can come to an end |
| `AgentCompiler.AgentHasEnds` | flame2/model/xmodel_validate.cpp:113-148 | so an agent that passes the checks is compiled to a graph with these ends |
| `AgentCompiler.FunctionsAfterStart` | flame2/model/xgraph.cpp:523-540 | told of functions: each that reads or writes a variable of the agent comes behind the start task |
| `AgentCompiler.UnwrittenByFunctions` | flame2/model/xgraph.cpp:523-540 | a variable that no function writes, in an agent that does not branch, is one whose output stands directly behind the start task |
| `AgentCompiler.CompileAgent` | flame2/model/xmodel_validate.cpp:113-148 | from functions to dependency graph: no error exactly if the checks hold, and then functions that conflict keep the order of the states, a poster comes before the readers of the message, the output of a variable after every function that writes it, the start task before whatever accesses a variable, every variable is put out by exactly one output task, and of two functions one comes before the other if and only if conflicts in an order that the states fix, and messages, force it, directly or through others |
| `ForcedOrder.CompiledOrderExact` | flame2/model/xgraph.cpp:160-195 | of two tasks of the state graph, messages and conditions included, one leads to the other in the compiled and reduced graph if and only if the closure of ordered conflicts and message edges does: contraction, start and end task, outputs and reduction neither add nor lose an order |
| `ForcedOrder.StateOrderBack` | flame2/model/xgraph.cpp:819-864 | what comes before in the contracted graph with start and end comes before by way of the states |
| `AgentCompiler.AgentOrderExact` | flame2/model/xgraph.cpp:160-195 | the same for functions, with the forced order computed from the functions alone |
| `ConditionReads.ConditionReadsKept` | flame2/model/xgraph.cpp:230-240 | the state of a function is left in the compiled graph exactly if another function leaves it too; then functions that write what its condition reads, and functions that access any variable of the agent, keep their order with it, before and after |
| `ConditionReads.WaitsForNothing` | flame2/model/xgraph.cpp:230-240 | a function that accesses nothing and reads no message waits for no function, whatever its condition reads |
| `ConditionReads.ConditionReadLost` | flame2/model/xmodel_validate.cpp:113-148 | counterexample, compiled from two functions in a row: the condition of the second reads what the first writes, and the second does not wait for the first |
| `CompiledAgents.GeneratedIsReady` | flame2/model/xgraph.cpp:962-991 | the graph an agent is compiled to meets all that importing it takes for granted |
| `ModelGraph.EdgeSurvivesReduction` | flame2/model/xgraph.cpp:871-909 | an edge survives the reduction exactly if no other successor of its source leads to its target |
| `CompiledAgents.ReaderStaysNext` | flame2/model/xgraph.cpp:1031-1035 | a reader still follows its message directly when graphs are merged exactly if no other successor of the message leads to it |
| `CompiledAgents.MessageSuccessor` | flame2/model/xgraph.cpp:283-294 | before the reduction a message leads to nothing but the functions that read it |
| `CompiledAgents.ReaderNextExactly` | flame2/model/xgraph.cpp:871-909 | after it a reader is next to the message exactly if no other reader of the message comes before it |
| `ModelXGraph.Import` | flame2/model/xgraph.cpp:962-991 | the agent is put behind what is there, with edges from the start to its start tasks and from its output tasks to the finish (what comes of these in the finished graph is `MergedEnds.FinalEnds`) |
| `ModelGraph.SideBySideAcyclic` | flame2/model/xgraph.cpp:962-991 | agents side by side close no cycle |
| `ModelXGraph.GetMessageVertex` | flame2/model/xgraph.cpp:911-923 | the first task of this type and name, appended if there is none |
| `ModelXGraph.RewireMessages` | flame2/model/xgraph.cpp:932-954 | the scan over the list it appends to ends, and leaves every edge doubled onto the synchronisation tasks |
| `ModelXGraph.ChangeMessageTasksToSync` | flame2/model/xgraph.cpp:925-960 | the messages are gone, their synchronisation tasks are in |
| `ModelGraph.SyncedEdges` | flame2/model/xgraph.cpp:925-960 | the edges left are exactly the old ones with each message replaced by the synchronisation task of its name |
| `ModelGraph.OneSyncEach` | flame2/model/xgraph.cpp:911-923 | a message name in use has exactly one synchronisation task, a name not in use none |
| `ModelXGraph.AddMessageClearTasks` | flame2/model/xgraph.cpp:1016-1038 | one clearing task for each synchronisation task, with edges from exactly its direct successors |
| `ModelGraph.ClearFollowsExactly` | flame2/model/xgraph.cpp:1016-1038 | a task comes before the clearing of a message exactly if it is, or comes before, a direct successor of the synchronisation |
| `WholeModel.ImportGraphs` | flame2/model/xgraph.cpp:993-1014 | stated over the agents as they are: two of their tasks are ordered in the merged graph if and only if the agents' edges order them once messages of one name are taken for one; a message is cleared after exactly the tasks that are, or come before, a direct successor of it in some agent; the finish is next after exactly the output tasks of the agents, the start comes before whatever an agent's start comes before; the graph is acyclic if and only if those edges are; and what the agents promised is kept |
| `WholeModel.PosterBeforeReader` | flame2/model/xgraph.cpp:925-960 | a poster of a message in one agent comes before a reader of that message in any agent |
| `WholeModel.MergingKeepsAgents` | flame2/model/xgraph.cpp:993-1038 | tasks, orders and readers-before-clearing carry over through contraction, synchronisation and clearing; each synchronisation is of one message in use |
| `MergedOrder.MergedAcyclicExactly` | flame2/model/xgraph.cpp:925-1038 | synchronising and clearing leave the graph acyclic if and only if it is so before, once messages of one name are taken for one |
| `MergedOrder.SharedReaches` | flame2/model/xgraph.cpp:925-1014 | start, finish and synchronisation tasks add no order between the tasks of the agents and lose none |
| `MergedOrder.FinalReaches` | flame2/model/xgraph.cpp:993-1038 | through contraction, synchronisation and clearing, the final graph orders two tasks of the agents exactly if their edges do with messages shared |
| `MergedOrder.FinalAcyclic` | flame2/model/xgraph.cpp:993-1038 | the final graph is acyclic exactly if the agents' edges are with messages shared |
| `MergedOrder.FinalClears` | flame2/model/xgraph.cpp:1016-1038 | a task of an agent comes before the clearing of a message exactly if it is, or comes before, a direct successor of that message in some agent |
| `MergedEnds.FinalEnds` | flame2/model/xgraph.cpp:962-1038 | through contraction, synchronisation and clearing: the start leads to exactly what the agents' starts lead to, and exactly the output tasks of the agents lead to the finish |
| `WholeModel.EndsAreExact` | flame2/model/xgraph.cpp:962-1014 | told of tasks: in the finished graph the finish task is next after exactly the agents' output tasks, and next to the start task is exactly what an agent's start task leads to, or its synchronisation |
| `WholeModel.ModelStartsFirst` | flame2/model/xgraph.cpp:993-1014 | the model's start comes before everything that an agent's start comes before |
| `WholeModel.FinishesAfter` | flame2/model/xgraph.cpp:993-1014 | the finish comes behind everything that an agent puts before one of its outputs |
| `WholeModel.UnsharedIsAcyclic` | flame2/model/xgraph.cpp:993-1014 | agents that share no message can be merged without a cycle, and nothing but their own edges orders their tasks |
| `CompiledModel.NextExactly` | flame2/model/xgraph.cpp:871-909 | in the compiled graph a function is next to a message it reads exactly if no other function that reads it comes before |
| `CompiledModel.FirstReadersWaitedFor` | flame2/model/xgraph.cpp:1016-1038 | the clearing of a message waits for every function that reads it with no other reader before it in its agent |
| `CompiledModel.AgentKeptInModel` | flame2/model/xgraph.cpp:993-1038 | what a compiled agent promises of its functions (order of conflicts, posts before reads, writes before output) holds in the model graph |
| `CompiledModel.PostBeforeReadElsewhere` | flame2/model/xgraph.cpp:925-960 | a function that posts a message comes before a function of any other agent that reads it |
| `CompiledModel.AgentWithinEnds` | flame2/model/xgraph.cpp:962-1014 | told of functions: the model's start comes before every function that accesses a variable of its agent, and its finish behind every function that writes one |
| `ClearOrder.ClearWaitsExactly` | flame2/model/xgraph.cpp:1016-1038 | a function or condition of any agent comes before the clearing of a message if and only if it is, or comes by the agents and their messages before, a function of some agent that reads the message with no other reader of that agent before it |
| `ClearOrder.ReaderWaitedForExactly` | flame2/model/xgraph.cpp:1016-1038 | in a model of one agent a reader comes before the clearing if and only if no other reader comes before it |
| `Deadlock.WaitingForEachOther` | flame2/model/xgraph.cpp:925-1014 | if two functions each read what the other posts, the model graph has a cycle, whatever agents they are of |
| `CompiledModel.CompileModel` | flame2/model/xmodel.cpp:82-98 | from the functions of all agents to the model graph: no error exactly if every agent passes its checks, and then all of the above holds of the one graph |
| `Deadlock.AgentsCanDeadlock` | flame2/model/xmodel.cpp:82-98 | counterexample, compiled from two agents of one function each, whatever algorithms sort, reduce and search: no error, and the model graph has a cycle |
| `SecondReader.SecondNotWaitedFor` | flame2/model/xgraph.cpp:1016-1038 | for any agent in which exactly two functions read a message, one after the other: in the model of that agent the second does not come before the clearing |
| `SecondReader.SecondReaderMissed` | flame2/model/xmodel.cpp:82-98 | counterexample, compiled from two functions, whatever algorithms sort, reduce and search: the second reader does not come before the clearing |
| `GraphAlgorithms.ContractsCanBeMet` | flame2/model/xgraph.cpp:674-707 | there are functions that sort, reduce and search for cycles as the contracts demand |
| `TaskManagers.TaskManager.RegisterTask` | flame2/exe/task_manager.cpp:100-129 | refuses after finalising, a known name and, in debug builds, the reserved id; else the task gets the next id and no dependencies |
| `TaskManagers.TaskManager.AddDependency` | flame2/exe/task_manager.cpp:163-184 | which calls are refused and why; an accepted one adds that one edge, keeping both tables converse and roots and leaves exact; in debug builds the graph stays acyclic |
| `TaskManagers.TaskManager.WillCauseCyclicDependency` | flame2/exe/task_manager.cpp:203-228 | terminates and answers true exactly if the task is the target or an ancestor of it |
| `TaskManagers.SearchStep` | flame2/exe/task_manager.cpp:215-225 | the stack invariant: a node popped again pushes nothing |
| `Digraph.AddEdgeAcyclic` | flame2/exe/task_manager.cpp:163-184 | the refused edges are exactly the ones that would close a cycle |
| `TaskManagers.TaskManager.Finalise` | flame2/exe/task_manager.cpp:262-265 | no more updates; then exactly the tasks without dependencies are ready, in ascending order |
| `TaskManagers.TaskManager.IterReset` | flame2/exe/task_manager.cpp:273-288 | exactly the tasks without dependencies are ready, in ascending order, all others pending, none assigned, dependencies copied |
| `TaskManagers.TaskManager.IterCompleted` | flame2/exe/task_manager.cpp:297-302 | true exactly if nothing is pending, assigned or ready |
| `TaskManagers.TaskManager.IterTaskPop` | flame2/exe/task_manager.cpp:329-341 | hands out the last ready task, or reports that there is none |
| `TaskManagers.TaskManager.IterTaskDone` | flame2/exe/task_manager.cpp:344-364 | ticks the task off with its dependents; behind what was ready come, in ascending order, exactly the tasks that waited for it alone |
| `TaskManagers.ReleasedInOrder` | flame2/exe/task_manager.cpp:344-364 | what becomes ready follows what was, ascending, and is what waited for this task alone |
| `TaskIteration.PopSound` | flame2/exe/task_manager.cpp:329-341 | popping keeps the four sets a partition, and the task was in none of the others |
| `TaskIteration.FinishConsistent` | flame2/exe/task_manager.cpp:344-364 | ready, assigned, pending and done stay a partition, what a task waits for is its dependencies less the done ones, and what becomes ready has all of them done |
| `TaskIteration.FinishSound` | flame2/exe/task_manager.cpp:344-364 | a task on a cycle never becomes ready |
| `TaskIteration.DependenciesDone` | flame2/exe/task_manager.cpp:344-364 | whatever is not pending has all its direct and indirect dependencies done |
| `TaskIteration.StuckIsCyclic` | flame2/exe/task_manager.cpp:297-364 | nothing ready, nothing assigned, something pending: the dependencies have a cycle |
| `TaskIteration.CompletedAcyclic` | flame2/exe/task_manager.cpp:297-302 | only acyclic dependencies can be completed |
| `TaskQueues.TaskSplitter.OneTaskAssigned` | flame2/exe/task_splitter.cpp:68-77 | one pending piece becomes a running one; tells whether none is pending |
| `TaskQueues.TaskSplitter.OneTaskDone` | flame2/exe/task_splitter.cpp:52-60 | one running piece less; tells whether the task is complete |
| `TaskQueues.TaskSplitter.GetTask` | flame2/exe/task_splitter.cpp:88-96 | the next piece, each once |
| `TaskQueues.SplittingFIFOTaskQueue.Enqueue` | flame2/exe/splitting_fifo_task_queue.cpp:104-132 | the task joins the line at its end whatever happens then; a task of a type to be split is split, properly unless a wrapped product misleads it, and its pieces are entered; unknown ids, ids that are split already and a division by zero are refused |
| `TaskQueues.SplittingFIFOTaskQueue.WithSlots` | flame2/exe/splitting_fifo_task_queue.cpp:27-42 | at least one slot is needed; the queue starts empty, splits nothing, and cuts into at most as many pieces as it has slots, of at least 50 agents |
| `TaskQueues.SplittingFIFOTaskQueue.SetMaxTasksPerSplit` | flame2/exe/splitting_fifo_task_queue.cpp:65-70 | refuses zero, else sets the bound on the pieces |
| `TaskQueues.SplittingFIFOTaskQueue.GetNextTask` | flame2/exe/splitting_fifo_task_queue.cpp:178-199 | hands out the head, which leaves the line with its last piece; the others stay in their order |
| `TaskQueues.SplittingFIFOTaskQueue.GetTaskById` | flame2/exe/splitting_fifo_task_queue.cpp:210-218 | the next piece of a split task, else the task as a whole; past the last piece a debug build refuses |
| `TaskQueues.SplittingFIFOTaskQueue.TaskDone` | flame2/exe/splitting_fifo_task_queue.cpp:150-166 | calls the scheduler back exactly when the whole task is done, and forgets it then; with no piece running a debug build refuses |
| `Schedulers.Scheduler.AssignType` | flame2/exe/scheduler.cpp:34-45 | a type is assigned once, to an existing queue |
| `Schedulers.Scheduler.DrainDone` | flame2/exe/scheduler.cpp:173-182 | all completed tasks are handed to the task manager, newest first |
| `TaskIteration.NewestFirst` | flame2/exe/scheduler.cpp:173-182 | of two tasks that wait for one completed task each, the one whose dependency was completed last is made ready first |
| `Executor.StartKeeps` | flame2/exe/scheduler.cpp:155-167 | the start of an iteration satisfies the invariant |
| `Executor.StepKeeps` | flame2/exe/scheduler.cpp:168-183 | every step of the scheduler and of any worker keeps the invariant: counters, holders, line, map entries, completion and history agree for every task |
| `Executor.TakeTracks` | flame2/exe/splitting_fifo_task_queue.cpp:178-199 | taking the head keeps its counters in step with the workers that hold it |
| `Executor.FetchTracks` | flame2/exe/splitting_fifo_task_queue.cpp:210-218 | the piece fetched is a new one, and the next |
| `Executor.ReportCompletes` | flame2/exe/splitting_fifo_task_queue.cpp:150-166 | at the call back every piece has started and ended, and no queue or worker knows the task any more |
| `ExecutorRuns.RunKeepsInv` | flame2/exe/scheduler.cpp:155-187 | the invariant holds in every state of every run |
| `ExecutorRuns.PiecesWaitInEveryRun` | flame2/exe/scheduler.cpp:155-187 | in every interleaving, a piece starts only when every piece of every direct or indirect dependency has ended |
| `ExecutorRuns.NothingTwice` | flame2/exe/worker_thread.cpp:36-66 | a piece starts and ends at most once, a task is called done at most once |
| `ExecutorRuns.SplitTaskAccounted` | flame2/exe/task_splitter.cpp:28-96 | for a split task running is the number of holders, next is the size less pending less the workers yet to fetch, and it is in line exactly while pieces are pending |
| `ExecutorRuns.EntryOutlivesHolders` | flame2/exe/splitting_fifo_task_queue.cpp:150-166 | the map entry of a split task outlives every worker that holds the task |
| `FirstInFirstOut.FirstInFirstOut` | flame2/exe/splitting_fifo_task_queue.cpp:104-199 | in every run, of two tasks entered on the same queue the one entered first is taken first, and all its pieces are taken before any of the other |
| `ExecutorRuns.ServedByItsQueue` | flame2/exe/scheduler.cpp:198-208 | in every run a task is only ever in line, split or held by a worker in the queue of its type |
| `ExecutorRuns.SomeoneCanGoOn` | flame2/exe/scheduler.cpp:168-183 | with acyclic dependencies some thread can always go on until the iteration is over |
| `ExecutorRuns.StepCosts` | flame2/exe/scheduler.cpp:168-183 | every step lowers a measure of what is left |
| `ExecutorRuns.RunsAreBounded` | flame2/exe/scheduler.cpp:155-187 | no run is longer than a bound in the number of tasks and of pieces per split |
| `ExecutorRuns.FinishedMeans` | flame2/exe/scheduler.cpp:184-187 | at the end every task has run whole, every queue is empty, every worker idle |
| `ExecutorRuns.RestsOnlyAtTheEnd` | flame2/exe/scheduler.cpp:168-187 | with acyclic dependencies a run is at rest exactly when the iteration is over |
| `ExecutorRuns.EndsExactlyIfAcyclic` | flame2/exe/scheduler.cpp:155-187 | a run can be continued to the end of the iteration if and only if the dependencies are acyclic |
| `ExecutorRuns.CompletedInOrder` | flame2/exe/scheduler.cpp:173-182 | the order of completion extends the dependencies |
| `ExecutorRuns.CannotStart` | flame2/exe/scheduler.cpp:163-166 | with acyclic dependencies an iteration is refused exactly if there is no task |
| `AgentTasks.AgentTask.SplitTask` | flame2/exe/agent_task.cpp:137-173 | the outcome is a proper split (as many pieces as allowed and as have the minimum size, at least 2, end to end over the range, sizes differing by at most one, the larger first; none if too small) if and only if no wrapped product misleads it; when it divides by zero |
| `AgentTasks.AgentTask.CutUp` | flame2/exe/agent_task.cpp:154-169 | the pieces lie end to end, cover the range, and the remainder goes to the first ones |
| `AgentTasks.WrappedProductsMislead` | flame2/exe/agent_task.cpp:144-155 | sizes for which the products wrap around: too small pieces, or a division by zero |
| `AgentTasks.PiecesDisjoint` | flame2/exe/agent_task.cpp:160-169 | no agent is in two pieces |
| `AgentTasks.InSomePiece` | flame2/exe/agent_task.cpp:160-169 | every agent of the range is in a piece |
| `MemoryIterators.MemoryIterator.GetMemoryIterator` | flame2/mem/memory_iterator.cpp:27-42 | which ranges are accepted; a new iterator starts at the range |
| `MemoryIterators.AcceptedExactly` | flame2/mem/memory_iterator.cpp:30-35 | exactly the nonempty ranges inside the population pass, and those whose end wraps around |
| `MemoryIterators.PiecesAccepted` | flame2/mem/memory_iterator.cpp:27-35 | every piece of a proper split passes the check |
| `MemoryIterators.MemoryIterator.Step` | flame2/mem/memory_iterator.cpp:66-83 | every column pointer moves on by one row, unless at the end |
| `MemoryIterators.MemoryIterator.Rewind` | flame2/mem/memory_iterator.cpp:45-60 | every column pointer is back at the first row of the range |
| `MessageBoards.VectorWrapper.Extend` | flame2/mem/vector_wrapper.hpp:87-93 | appends a vector of the same type, refuses others |
| `MessageBoards.BoardWriter.Post` | flame2/mb/board_writer.hpp:53-69 | what is refused in which build; otherwise the message is buffered |
| `MessageBoards.MessageBoard.GetBoardWriter` | flame2/mb/message_board.cpp:28-35 | a new connected writer with an empty buffer of its own |
| `MessageBoards.MessageBoard.Sync` | flame2/mb/message_board.cpp:41-63 | the board gets all buffered messages, writer by writer; the writers are emptied and cut off |
| `MessageBoards.FlattenInOrder` | flame2/mb/message_board.cpp:41-63 | what the writers have buffered stands together in the order of the writers |
| `MessageBoards.MessageBoard.Clear` | flame2/mb/message_board.cpp:15-18 | board empty, writers cut off |
| `MessageBoards.WriterOrderIrrelevant` | flame2/mb/message_board.cpp:41-63 | the messages that arrive do not depend on the order of the writers |
| `SplitRuns.Run` | flame2/exe/agent_task.cpp:106-123 | each agent of the range has its variables as the function makes them of what they were, all others are untouched, and the messages are those of the agents, in order |
| `SplitRuns.AdvanceKeepsWay` | flame2/exe/agent_task.cpp:106-173 | however far each worker has come, memory is the old one with the function run on the agents passed |
| `SplitRuns.SplitRunIsWholeRun` | flame2/exe/agent_task.cpp:106-173 | running the pieces in any interleaving gives the memory of the unsplit run and the same multiset of messages |
| `SplitRuns.RunAll` | flame2/exe/agent_task.cpp:106-123 | workers that take turns in any order come to the end of their pieces, with memory and buffers determined by the agents passed |
| `SplitRuns.SplitAndRun` | flame2/exe/agent_task.cpp:106-173 | splitting, iterators and writers for all pieces, turns in any order and the synchronisation of the board fit together: each agent's variables are what the function makes of them, once, and the board gets the agents' messages in order, whenever the split is not misled |
| `XMachines.XMachine.FindStartEndStates` | flame2/model/xmachine.cpp:113-146 | end states are entered but never left; 0 with the one start state, 1 if there is none, 2 if there are several |
| `XMachines.EveryFunctionLives` | flame2/model/xmachine.cpp:113-146 | if it returns 0 and functions follow each other without cycle, every function is reachable from the start state and leads to an end state (for the state graph see `AgentCompiler.RunsBeforeExactly` and `AgentCompiler.FunctionCanEnd`) |
| `XMachines.AcyclicHasStart` | flame2/model/xmachine.cpp:139-140 | without cycles a start state and an end state are found |
| `XModelValidates.XModelValidate.ProcessVariableStaticArray` | flame2/model/xmodel_validate.cpp:218-256 | brackets that end a name are taken off and their number becomes the size; no error exactly if it is a 32-bit number from one on |
| `XModelValidates.StaticArrayRead` | flame2/model/xmodel_validate.cpp:218-256 | an allowed name with a number written in brackets is read as that name and that size, without error exactly if the number is from 1 to 2147483647 |
| `XModelValidates.NegativeRefused` | flame2/model/xmodel_validate.cpp:218-256 | a size with a minus sign is an error |
| `XModelValidates.NoNumberRefused` | flame2/model/xmodel_validate.cpp:218-256 | so is whatever in the brackets is no number; the brackets come off all the same |
| `XModelValidates.OtherNamesKept` | flame2/model/xmodel_validate.cpp:218-256 | a name without brackets that end it is kept |
| `XModelValidates.XModelValidate.ProcessVariable` | flame2/model/xmodel_validate.cpp:258-290 | the suffix of the type, the brackets of the name and the constant flag become marks, the types known so far mark the variable, and there is no error exactly if size and flag are well formed |
| `XModelValidates.TypeRead` | flame2/model/xmodel_validate.cpp:189-206 | a type t_array, for any nonempty t, is read as t and marked as a dynamic array; every other type is kept, with no mark added |
| `XModelValidates.AllowedNames` | flame2/model/xmodel_validate.cpp:758-773 | the characters that may stand in a name are the letters, the digits, underscore and hyphen, and no others |
| `XModelValidates.ConstantRead` | flame2/model/xmodel_validate.cpp:258-290 | a constant flag that is set must read true or false, and says so |
| `XModelValidates.XModelValidate.ValidateVariables` | flame2/model/xmodel_validate.cpp:427-444 | no errors exactly if sizes and flags are well formed and, once brackets and suffixes are off, names are allowed and distinct, types known, and arrays allowed where held |
| `XModelValidates.XModelValidate.ValidateADT` | flame2/model/xmodel_validate.cpp:536-575 | a type with a new allowed name becomes known and is marked by its variables |
| `XModelValidates.XModelValidate.ValidateADTs` | flame2/model/xmodel_validate.cpp:69-71 | no errors exactly if every type passes at its place; then every type is settled |
| `XModelValidates.RefersBack` | flame2/model/xmodel_validate.cpp:401-411 | types that pass refer to earlier types and to themselves only |
| `XModelValidates.MarksAreExact` | flame2/model/xmodel_validate.cpp:560-570 | one pass computes the least fixpoint: a type is marked exactly if a dynamic array is reachable through its variables |
| `XModelValidates.XModelValidate.ValidateFixed` | flame2/model/xmodel_validate.cpp:72-75 | constants and message variables pass only if they contain no dynamic array, however deep |
| `XModelValidates.OwnTypeUnmarked` | flame2/model/xmodel_validate.cpp:267-274 | an input that passes: a variable of the type it is part of stays unmarked although the type is marked |
| `XModelValidates.OwnVariableMarkedExactly` | flame2/model/xmodel_validate.cpp:258-290 | for every variable of every type that passes: its mark tells whether a dynamic array is reachable from it, except exactly where it has the type it belongs to, is no dynamic array itself, and that type is marked |
| `Printers.Printer.Print` | xparser2/printer.cpp:76-128 | the loop refines the meaning of the text, placeholder by placeholder, output before a refusal included |
| `Printers.Printer.WriteOut` | xparser2/printer.cpp:68-74 | an indent goes before the first write of a line that is not empty |
| `Printers.Printer.Outdent` | xparser2/printer.cpp:60-66 | undoes one Indent; refused at level zero |
| `Printers.Printer.PrintRaw` | xparser2/printer.cpp:162-164 | raw text is indented on its first line too |
| `Printers.DoubledPrintsItself` | xparser2/printer.cpp:100-103 | with every delimiter doubled a text is printed as it is, with its lines indented |
| `Printers.VariablePrinted` | xparser2/printer.cpp:92-111 | a variable between delimiters prints as its value, behind an indent at the start of a line |
| `Printers.NoIndentNoChange` | xparser2/printer.cpp:68-74 | without indent that is the text itself |
| `Printers.PrintedInParts` | xparser2/printer.cpp:76-128 | printing a and then b is printing ab if the delimiters of a are balanced, the start of line included |
| `Printers.BalancedIsEven` | xparser2/printer.cpp:92-97 | balanced means an even number of delimiters |
| `Printers.RefusedExactly` | xparser2/printer.cpp:92-111 | a text is refused exactly if a placeholder is not closed or names no variable |

## Left out

- The internals of the Boost graph library: topological sort and transitive reduction are function parameters with contracts.
- Edge names, `EdgeMap` ownership and parallel edges: a graph is a list of tasks and a set of typed edges, and two edges of one type between the same tasks are one.
- Priority levels, task levels, last conditions and condition dependencies of tasks, which the default build does not use.
- The order in which classes of output variables, or agents from a set of graphs, are taken: any order is allowed.
- The `USE_VARIABLE_VERTICES` build and `contractVariableVertices`, an alternative compile path.
- CompiledModel.CompileModel: checks and compiles agent after agent and merges if there was no error, while the program checks the whole model first and compiles later; the check of one agent does not depend on another.
- AgentCompiler.ValidateAgentStateGraph: the depth-first search for cycles is a parameter, `FindsCycles`, and counts as one error.
- Names of message inputs and outputs that are recorded on function tasks for the generated code.
- Registering tasks with the executor by name, the numbers that conditions are named by, and the function map: string-keyed glue.
- XML input and output, the file system, schema generation and graphviz output.
- Termination tasks and the start and join of threads: an iteration is modelled, not the life of the pool.
- Condition variables and spurious wake-ups: waiting is a step that is not enabled.
- A task whose type is assigned to no queue, for which the scheduler throws: in the executor every task has its queue.
- `FIFOTaskQueue`: the splitting queue without types to split.
- Executor.StepKeeps: in the executor a split task has any number of pieces up to the configured maximum, and the call back from a queue to the scheduler is one step with the worker's report, because it is made while the lock of the queue is held.
- Raw pointers, casts, reallocation and `typeid`: columns are sequences with indices, types are tags.
- Message iterators, and claims about iterators that survive a later `Sync`.
- Bodies of agent functions, floating point, agent death: an agent function is any function from an agent's variables to new values and messages.
- SplitRuns.SplitRunIsWholeRun: an agent function runs on one row in one step, because rows of different agents share nothing; messages go to one board.
- Exception texts; errors are told apart by kind only.
- SplitRuns.Run: a range whose end wraps around, which the memory iterator lets through (`MemoryIterators.AcceptedExactly`), is not run: its pointers leave the memory and what happens then is undefined.
- TaskQueues.SplittingFIFOTaskQueue.GetTaskById: a fetch past the last piece in a build without debug checks refers to memory that is not there and is not modelled.
- WholeModel.ImportGraphs: takes agents whose tasks are their own and not yet synchronised, as the compiler makes them (`CompiledModel.CompileModel`).
- Validation of time units, function files, conditions, filters and sorting, which would add only easy members.
- Counting of memory-access errors, whose result the source discards.
