/** The whole way from the functions of all agents to the model graph: what their
    state machines and messages order, the finished graph orders. */
module CompiledModel {
  import opened Digraph
  import opened DataFlow
  import opened TaskGraph
  import opened Tasks
  import opened AgentGraph
  import opened ModelGraph
  import opened XGraphs
  import opened ModelXGraph
  import opened CompiledAgents
  import opened WholeModel
  import opened XMachines
  import opened StateGraphs
  import opened StartAndOutputs
  import opened AgentCompiler

  // An agent of the model and what it was compiled from.
  datatype Source = Source(c: Compilation, fs: seq<Function>, endStates: set<string>)

  ghost predicate CompiledAt(s: Source, a: Agent)
    reads a.tasks, s.c.ts0, s.c.ts3, s.c.outs
  {
    IsCompiled(s.c, s.fs, s.endStates, a)
  }

  // The order of two tasks that stay themselves holds in the model.
  lemma {:induction false} OrderedInModel(agents: seq<Agent>, k: nat, ts: seq<Task>, E: Edges, a: Task, b: Task)
    requires KeepsAgentOrders(agents, ts, E) && k < |agents| && Ordered(agents[k].tasks, Pairs(agents[k].edges), a, b)
    requires !a.taskType.XMessage? && !a.taskType.StartAgent? && !b.taskType.XMessage? && !b.taskType.StartAgent?
    ensures Ordered(ts, E, a, b)
  {
    hide Pairs;
    OrderedAreThere(agents[k].tasks, Pairs(agents[k].edges), a, b);
    hide Ordered;
    assert OrderedForGood(ts, E, a, b);
  }

  lemma {:induction false} OrderedAreThere(ts: seq<Task>, E: Edges, a: Task, b: Task)
    requires Ordered(ts, E, a, b)
    ensures a in ts && b in ts
  {
  }

  lemma {:induction false} FunctionIsTask(c: Compilation, fs: seq<Function>, endStates: set<string>, a: Agent, j: nat)
    requires IsCompiled(c, fs, endStates, a) && j < |fs|
    ensures Position(fs, j) < |c.ts0| && c.ts0[Position(fs, j)].taskType == XFunction
  {
    PlacedIn(fs, j);
    hide AllLabels, Compilation.Valid, CompiledFrom, IsReduced, WriteGroups, AgentValid, KeepsConflicts, AllOutputsAfterWriters,
      KeepsMessageEdges, KeepsAgent, Position, Known;
    assert NamesStay(c, AllLabels(fs));
  }

  lemma {:induction false} PrecedesInModel(agents: seq<Agent>, k: nat, ts: seq<Task>, E: Edges, s: Source, i: nat, j: nat)
    requires KeepsAgentOrders(agents, ts, E) && k < |agents| && CompiledAt(s, agents[k]) && i < |s.fs| && j < |s.fs|
    requires Precedes(s.c, s.fs, i, j, agents[k].tasks, Pairs(agents[k].edges))
    ensures Precedes(s.c, s.fs, i, j, ts, E)
  {
    hide KeepsAgentOrders, IsCompiled, Pairs, Ordered, Position;
    FunctionIsTask(s.c, s.fs, s.endStates, agents[k], i);
    FunctionIsTask(s.c, s.fs, s.endStates, agents[k], j);
    OrderedInModel(agents, k, ts, E, s.c.ts0[Position(s.fs, i)], s.c.ts0[Position(s.fs, j)]);
  }

  lemma {:induction false} OutputInModel(agents: seq<Agent>, k: nat, ts: seq<Task>, E: Edges, s: Source, j: nat, x: string)
    requires KeepsAgentOrders(agents, ts, E) && k < |agents| && CompiledAt(s, agents[k]) && j < |s.fs|
    requires OutputAfter(s.c, s.fs, j, x, agents[k].tasks, Pairs(agents[k].edges))
    ensures OutputAfter(s.c, s.fs, j, x, ts, E)
  {
    hide KeepsAgentOrders, Pairs, Ordered, Position;
    FunctionIsTask(s.c, s.fs, s.endStates, agents[k], j);
    var o :| 0 <= o < |s.c.outs| && o < |s.c.groups| && x in s.c.groups[o]
             && Ordered(agents[k].tasks, Pairs(agents[k].edges), s.c.ts0[Position(s.fs, j)], s.c.outs[o]);
    OutputIsTask(s.c.outs, s.c.groups, o);
    OrderedInModel(agents, k, ts, E, s.c.ts0[Position(s.fs, j)], s.c.outs[o]);
  }

  lemma OutputIsTask(outs: seq<Task>, groups: seq<set<string>>, k: nat)
    requires WriteGroups(outs, groups) && k < |outs|
    ensures outs[k].taskType == IoPopWrite
  {
    assert outs[k].AsNode().kind == IoPopWrite;
  }

  lemma {:induction false} CompiledKeeps(s: Source, a: Agent)
    requires CompiledAt(s, a)
    ensures KeepsFunctionOrder(s.c, s.fs, a.tasks, Pairs(a.edges)) && PostsBeforeReads(s.c, s.fs, a.tasks, Pairs(a.edges))
    ensures WritesBeforeOutput(s.c, s.fs, a.tasks, Pairs(a.edges)) && KeepsMessageEdges(s.c, a.tasks, Pairs(a.edges))
    ensures CompiledFrom(s.c, s.fs, s.endStates) && NamesStay(s.c, AllLabels(s.fs)) && AgentValid(a)
    ensures s.c.Valid() && IsReduced(s.c, a.tasks, Pairs(a.edges)) && Distinct(a.tasks)
    ensures NodesOf(s.c.ts3) == s.c.nodes3 && WriteGroups(s.c.outs, s.c.groups)
  {
    hide AllLabels, Compilation.Valid, CompiledFrom, IsReduced, WriteGroups, KeepsConflicts, AllOutputsAfterWriters, NamesStay,
      KeepsMessageEdges, KeepsFunctionOrder, PostsBeforeReads, WritesBeforeOutput;
  }

  lemma {:induction false} FunctionOrderInModel(agents: seq<Agent>, k: nat, ts: seq<Task>, E: Edges, s: Source)
    requires KeepsAgentOrders(agents, ts, E) && k < |agents| && CompiledAt(s, agents[k])
    requires KeepsFunctionOrder(s.c, s.fs, agents[k].tasks, Pairs(agents[k].edges))
    ensures KeepsFunctionOrder(s.c, s.fs, ts, E)
  {
    hide KeepsAgentOrders, CompiledAt, Precedes, Reaches, StateEdges, FunctionsConflict, Pairs;
    forall i: nat, j: nat | i < |s.fs| && j < |s.fs| && Reaches(StateEdges(s.fs), i, j) && FunctionsConflict(s.fs[i], s.fs[j])
      ensures Precedes(s.c, s.fs, i, j, ts, E)
    {
      PrecedesInModel(agents, k, ts, E, s, i, j);
    }
  }

  lemma {:induction false} PostsInModel(agents: seq<Agent>, k: nat, ts: seq<Task>, E: Edges, s: Source)
    requires KeepsAgentOrders(agents, ts, E) && k < |agents| && CompiledAt(s, agents[k])
    requires PostsBeforeReads(s.c, s.fs, agents[k].tasks, Pairs(agents[k].edges))
    ensures PostsBeforeReads(s.c, s.fs, ts, E)
  {
    hide KeepsAgentOrders, CompiledAt, Precedes, Pairs;
    forall i: nat, j: nat, m | i < |s.fs| && j < |s.fs| && m in s.fs[i].outputs && m in s.fs[j].inputs
      ensures Precedes(s.c, s.fs, i, j, ts, E)
    {
      PrecedesInModel(agents, k, ts, E, s, i, j);
    }
  }

  lemma {:induction false} OutputsInModel(agents: seq<Agent>, k: nat, ts: seq<Task>, E: Edges, s: Source)
    requires KeepsAgentOrders(agents, ts, E) && k < |agents| && CompiledAt(s, agents[k])
    requires WritesBeforeOutput(s.c, s.fs, agents[k].tasks, Pairs(agents[k].edges))
    ensures WritesBeforeOutput(s.c, s.fs, ts, E)
  {
    hide KeepsAgentOrders, CompiledAt, OutputAfter, Pairs;
    forall j: nat, x | j < |s.fs| && x in s.fs[j].readWriteVariables ensures OutputAfter(s.c, s.fs, j, x, ts, E) {
      OutputInModel(agents, k, ts, E, s, j, x);
    }
  }

  // What each agent promises of its functions holds in the model graph.
  lemma {:induction false} AgentKeptInModel(agents: seq<Agent>, k: nat, ts: seq<Task>, E: Edges, s: Source)
    requires KeepsAgentOrders(agents, ts, E) && k < |agents| && CompiledAt(s, agents[k])
    ensures KeepsAgent(s.c, s.fs, ts, E)
  {
    hide *;
    CompiledKeeps(s, agents[k]);
    FunctionOrderInModel(agents, k, ts, E, s);
    PostsInModel(agents, k, ts, E, s);
    OutputsInModel(agents, k, ts, E, s);
    KeepsAgentIs(s.c, s.fs, ts, E);
  }

  // The message task of a function's message, in its agent.
  lemma {:induction false} MessageOf(s: Source, a: Agent, i: nat, m: string) returns (t: Task)
    requires CompiledAt(s, a) && i < |s.fs| && (m in s.fs[i].outputs || m in s.fs[i].inputs)
    ensures t.taskType == XMessage && t.name == m && Position(s.fs, i) < |s.c.ts0| && s.c.ts0[Position(s.fs, i)].taskType == XFunction
    ensures m in s.fs[i].outputs ==> Ordered(a.tasks, Pairs(a.edges), s.c.ts0[Position(s.fs, i)], t)
    ensures m in s.fs[i].inputs ==> Ordered(a.tasks, Pairs(a.edges), t, s.c.ts0[Position(s.fs, i)])
  {
    hide *;
    CompiledKeeps(s, a);
    FunctionStarts(s.c, s.fs, s.endStates, i);
    RunsIt(s.fs[i]);
    CompiledAtIs(s, a);
    FunctionIsTask(s.c, s.fs, s.endStates, a, i);
    var v := MessageBetween(s.c, s.fs, s.endStates, i, m);
    MessageNamed(s, a, i, m);
    t := s.c.ts0[v];
    if m in s.fs[i].outputs {
      MessageEdgeKept(s.c, a.tasks, Pairs(a.edges), Position(s.fs, i), v);
    }
    if m in s.fs[i].inputs {
      MessageEdgeKept(s.c, a.tasks, Pairs(a.edges), v, Position(s.fs, i));
    }
  }

  lemma CompiledAtIs(s: Source, a: Agent)
    requires CompiledAt(s, a)
    ensures IsCompiled(s.c, s.fs, s.endStates, a)
  {
    hide IsCompiled;
  }

  lemma {:induction false} MessageNamed(s: Source, a: Agent, i: nat, m: string)
    requires NamesStay(s.c, AllLabels(s.fs)) && i < |s.fs| && (m in s.fs[i].outputs || m in s.fs[i].inputs)
    ensures ghost var v := Find(AllLabels(s.fs), XMessage, m); v < |s.c.ts0| && s.c.ts0[v].taskType == XMessage && s.c.ts0[v].name == m
  {
    PlacedIn(s.fs, i);
    hide AllLabels, Find, Position;
    assert Found(AllLabels(s.fs), XMessage, m);
  }

  // A function that posts a message comes before those of other agents that read it.
  lemma {:induction false} PostBeforeReadElsewhere(agents: seq<Agent>, j: nat, k: nat, ts: seq<Task>, E: Edges, s: Source, r: Source,
                                                   i: nat, i': nat, m: string)
    requires KeepsAgentOrders(agents, ts, E) && OneSyncPerMessage(ts) && Distinct(ts)
    requires j < |agents| && k < |agents| && CompiledAt(s, agents[j]) && CompiledAt(r, agents[k])
    requires i < |s.fs| && i' < |r.fs| && m in s.fs[i].outputs && m in r.fs[i'].inputs
    ensures Position(s.fs, i) < |s.c.ts0| && Position(r.fs, i') < |r.c.ts0|
    ensures Ordered(ts, E, s.c.ts0[Position(s.fs, i)], r.c.ts0[Position(r.fs, i')])
  {
    hide *;
    var t := MessageOf(s, agents[j], i, m);
    var u := MessageOf(r, agents[k], i', m);
    OrderedAreThere(agents[j].tasks, Pairs(agents[j].edges), s.c.ts0[Position(s.fs, i)], t);
    OrderedAreThere(agents[k].tasks, Pairs(agents[k].edges), u, r.c.ts0[Position(r.fs, i')]);
    PosterBeforeReader(agents, ts, E, j, k, s.c.ts0[Position(s.fs, i)], t, u, r.c.ts0[Position(r.fs, i')]);
  }

  // Where the task of message m stands in the state graph.
  function MessageAt(fs: seq<Function>, m: string): Vertex {
    Find(AllLabels(fs), XMessage, m)
  }

  lemma {:induction false} ReadsFrom(labels: seq<Label>, f: Function, p: Vertex, m: string, q: Edge)
    requires Placed(labels, f, p) && q in Links(labels, f, p) && Found(labels, XMessage, m) && q.source == Find(labels, XMessage, m)
    ensures q.target == p && m in f.inputs && q.kind == Communication
  {
    hide Find;
    assert labels[q.source] == Label(XMessage, m);
    assert q in InputLinks(labels, f.inputs, p);
    var m' :| m' in f.inputs && q == Edge(Find(labels, XMessage, m'), p, Communication);
    assert labels[q.source] == Label(XMessage, m');
  }

  // Out of a message lead the functions that read it.
  lemma {:induction false} ReadersAre(fs: seq<Function>, j: nat, m: string, q: Edge) returns (i: nat)
    requires j < |fs| && m in fs[j].inputs && q in StateGraphOf(fs) && q.source == MessageAt(fs, m)
    ensures i < |fs| && m in fs[i].inputs && q == Edge(MessageAt(fs, m), Position(fs, i), Communication)
  {
    hide AllLabels, StateGraphOf, Position, Find, Links;
    PlacedIn(fs, j);
    assert Found(AllLabels(fs), XMessage, m);
    i := LinkFrom(fs, q);
    PlacedIn(fs, i);
    ReadsFrom(AllLabels(fs), fs[i], Position(fs, i), m, q);
  }

  lemma {:induction false} ReadEdge(fs: seq<Function>, j: nat, m: string)
    requires j < |fs| && m in fs[j].inputs
    ensures Edge(MessageAt(fs, m), Position(fs, j), Communication) in StateGraphOf(fs)
  {
    hide AllLabels, StateGraphOf, Position, Find;
    var e := Edge(MessageAt(fs, m), Position(fs, j), Communication);
    assert e in InputLinks(AllLabels(fs), fs[j].inputs, Position(fs, j));
    LinkThere(fs, j, e);
  }

  // No other function that reads m comes before j in the compiled graph.
  ghost predicate ReadsFirst(s: Source, a: Agent, j: nat, m: string)
    requires j < |s.fs|
  {
    forall i: nat :: i < |s.fs| && i != j && m in s.fs[i].inputs ==> !Precedes(s.c, s.fs, i, j, a.tasks, Pairs(a.edges))
  }

  lemma {:induction false} ReaderGone(s: Source, a: Agent, i: nat, j: nat, m: string)
    requires i < |s.fs| && j < |s.fs| && i != j && m in s.fs[i].inputs && ReadsFirst(s, a, j, m)
    ensures !Precedes(s.c, s.fs, i, j, a.tasks, Pairs(a.edges))
  {
    hide Precedes;
  }

  // A function stays next to a message exactly if no other function reads it before.
  lemma {:induction false} NextExactly(s: Source, a: Agent, j: nat, m: string)
    requires CompiledAt(s, a) && j < |s.fs| && m in s.fs[j].inputs
    ensures Position(s.fs, j) < |s.c.ts0| && MessageAt(s.fs, m) < |s.c.ts0|
    ensures Adjacent(a.tasks, Pairs(a.edges), s.c.ts0[MessageAt(s.fs, m)], s.c.ts0[Position(s.fs, j)]) <==> ReadsFirst(s, a, j, m)
  {
    hide *;
    CompiledKeeps(s, a);
    StartsFromGraph(s.c, s.fs, s.endStates);
    FunctionStarts(s.c, s.fs, s.endStates, j);
    RunsIt(s.fs[j]);
    var v := MessageBetween(s.c, s.fs, s.endStates, j, m);
    assert v == MessageAt(s.fs, m) by { MessageAtIs(s.fs, m); }
    var e := Edge(v, Position(s.fs, j), Communication);
    ReaderNextExactly(s.c, a.tasks, Pairs(a.edges), e);
    if ReadsFirst(s, a, j, m) {
      forall q | OtherReader(s.c, e, q)
        ensures q.target < |s.c.ts0| && !Ordered(a.tasks, Pairs(a.edges), s.c.ts0[q.target], s.c.ts0[e.target])
      {
        OtherReaderIs(s.c, e, q);
        var i := ReadersAre(s.fs, j, m, q);
        ReaderGone(s, a, i, j, m);
        PrecedesWhere(s.c, s.fs, i, j, a.tasks, Pairs(a.edges));
      }
    }
    if Adjacent(a.tasks, Pairs(a.edges), s.c.ts0[v], s.c.ts0[Position(s.fs, j)]) {
      forall i: nat | i < |s.fs| && i != j && m in s.fs[i].inputs ensures !Precedes(s.c, s.fs, i, j, a.tasks, Pairs(a.edges)) {
        ReadEdge(s.fs, i, m);
        PositionsDiffer(s.fs, i, j);
        FunctionStarts(s.c, s.fs, s.endStates, i);
        var q := Edge(v, Position(s.fs, i), Communication);
        OtherReaderIs(s.c, e, q);
        PrecedesWhere(s.c, s.fs, i, j, a.tasks, Pairs(a.edges));
      }
      ReadsFirstIs(s, a, j, m);
    }
  }

  lemma MessageAtIs(fs: seq<Function>, m: string)
    ensures MessageAt(fs, m) == Find(AllLabels(fs), XMessage, m)
  {
  }

  lemma {:induction false} ReadsFirstIs(s: Source, a: Agent, j: nat, m: string)
    requires j < |s.fs|
    requires forall i: nat :: i < |s.fs| && i != j && m in s.fs[i].inputs ==> !Precedes(s.c, s.fs, i, j, a.tasks, Pairs(a.edges))
    ensures ReadsFirst(s, a, j, m)
  {
    hide Precedes;
  }

  // Then, and for such a function, the model waits before it clears the message.
  lemma {:induction false} FirstReadersWaitedFor(agents: seq<Agent>, k: nat, ts: seq<Task>, E: Edges, s: Source, j: nat, m: string)
    requires ReadersBeforeClear(agents, ts, E) && k < |agents| && CompiledAt(s, agents[k])
    requires j < |s.fs| && m in s.fs[j].inputs && ReadsFirst(s, agents[k], j, m)
    ensures Position(s.fs, j) < |s.c.ts0|
    ensures exists c :: c in ts && c.taskType.XMessageClear? && c.name == m && Ordered(ts, E, s.c.ts0[Position(s.fs, j)], c)
  {
    hide *;
    NextExactly(s, agents[k], j, m);
    CompiledKeeps(s, agents[k]);
    CompiledAtIs(s, agents[k]);
    MessageNamed(s, agents[k], j, m);
    MessageAtIs(s.fs, m);
    FunctionIsTask(s.c, s.fs, s.endStates, agents[k], j);
    var c := ClearAfterReader(agents, k, ts, E, s.c.ts0[MessageAt(s.fs, m)], s.c.ts0[Position(s.fs, j)]);
  }

  lemma {:induction false} ClearAfterReader(agents: seq<Agent>, k: nat, ts: seq<Task>, E: Edges, m: Task, r: Task) returns (c: Task)
    requires ReadersBeforeClear(agents, ts, E) && k < |agents| && Adjacent(agents[k].tasks, Pairs(agents[k].edges), m, r)
    requires m.taskType.XMessage? && !r.taskType.XMessage? && !r.taskType.StartAgent?
    ensures c in ts && c.taskType.XMessageClear? && c.name == m.name && Ordered(ts, E, r, c)
  {
    AdjacentAreThere(agents[k].tasks, Pairs(agents[k].edges), m, r);
    hide Adjacent, Ordered, Pairs;
    c :| c in ts && IsClearOf(c, m) && Ordered(ts, E, r, c);
  }

  lemma {:induction false} AdjacentAreThere(ts: seq<Task>, E: Edges, a: Task, b: Task)
    requires Adjacent(ts, E, a, b)
    ensures a in ts && b in ts
  {
  }

  // -------------------------------------------------------------- the whole model

  ghost predicate NewGraph(g: XGraph)
    reads g
  {
    g.vertex2task == [] && g.edges == {} && g.startTask == null && g.endTasks == {}
  }

  // No object stands twice in the list.
  ghost predicate Separate<T>(objects: seq<T>) {
    forall i, j :: 0 <= i < j < |objects| ==> objects[i] != objects[j]
  }

  function AgentOf(g: XGraph): Agent
    reads g
  {
    Agent(g.vertex2task, g.edges)
  }

  ghost function AgentsOf(graphs: seq<XGraph>): (agents: seq<Agent>)
    reads graphs
    ensures |agents| == |graphs| && forall k :: 0 <= k < |graphs| ==> agents[k] == AgentOf(graphs[k])
  {
    seq(|graphs|, k requires 0 <= k < |graphs| reads graphs => AgentOf(graphs[k]))
  }

  // Agent k has been compiled.
  ghost predicate IsSource(s: Source, machine: XMachine, variables: seq<string>, g: XGraph)
    reads machine, g, g.vertex2task, s.c.ts0, s.c.ts3, s.c.outs
  {
    && s.fs == machine.functions && s.endStates == machine.endStates && s.c.variables == Names(variables)
    && CompiledAt(s, AgentOf(g))
  }

  method CompileNext(machine: XMachine, g: XGraph, variables: seq<string>, hasCycle: CycleFinder, sort: Sorter, reduce: Reducer)
    returns (errors: nat, ghost s: Source)
    requires NewGraph(g) && FindsCycles(hasCycle) && SortsTopologically(sort) && ReducesTransitively(reduce)
    modifies machine`startState, machine`endStates, g
    ensures errors == 0 <==> StatesValid(machine.functions)
    ensures errors == 0 ==> IsSource(s, machine, variables, g)
    ensures forall t :: t in g.vertex2task ==> fresh(t)
  {
    ghost var c;
    hide FindsCycles, SortsTopologically, ReducesTransitively, StatesValid, IsCompiled, Acyclic;
    errors, c := CompileAgent(machine, g, variables, hasCycle, sort, reduce);
    s := Source(c, machine.functions, machine.endStates);
  }

  // The tasks of these graphs are their own.
  ghost predicate OwnTasks(graphs: seq<XGraph>)
    reads graphs
  {
    forall i, j, t :: 0 <= i < |graphs| && 0 <= j < |graphs| && i != j && t in graphs[i].vertex2task ==> t !in graphs[j].vertex2task
  }

  lemma {:induction false} OwnNext(graphs: seq<XGraph>, g: XGraph)
    requires OwnTasks(graphs)
    requires forall j, t :: 0 <= j < |graphs| && t in graphs[j].vertex2task ==> t !in g.vertex2task
    ensures OwnTasks(graphs + [g])
  {
  }

  lemma NoneOwned(graphs: seq<XGraph>)
    ensures OwnTasks(graphs[..0])
  {
  }

  lemma {:induction false} OwnApart(graphs: seq<XGraph>)
    requires OwnTasks(graphs)
    ensures Apart(AgentsOf(graphs))
  {
  }

  lemma OthersBefore<T>(objects: seq<T>, k: nat)
    requires Separate(objects) && k < |objects|
    ensures objects[k] !in objects[..k] && objects[k] !in objects[k + 1..]
    ensures objects[..k + 1] == objects[..k] + [objects[k]]
  {
  }

  // Compiles an agent after others, which stay as they are.
  method CompileBehind(ghost machines: seq<XMachine>, ghost graphs: seq<XGraph>, ghost sources: seq<Source>,
                       ghost inputs: seq<seq<string>>,
                       machine: XMachine, g: XGraph, variables: seq<string>, hasCycle: CycleFinder, sort: Sorter, reduce: Reducer)
    returns (errors: nat, ghost s: Source)
    requires |machines| == |graphs| == |inputs| && |sources| <= |graphs| && machine !in machines && g !in graphs && OwnTasks(graphs)
    requires forall j :: 0 <= j < |sources| ==> IsSource(sources[j], machines[j], inputs[j], graphs[j])
    requires NewGraph(g) && FindsCycles(hasCycle) && SortsTopologically(sort) && ReducesTransitively(reduce)
    modifies machine`startState, machine`endStates, g
    ensures errors == 0 <==> StatesValid(machine.functions)
    ensures errors == 0 ==> IsSource(s, machine, variables, g)
    ensures forall j :: 0 <= j < |sources| ==> IsSource(sources[j], machines[j], inputs[j], graphs[j])
    ensures OwnTasks(graphs + [g])
  {
    hide *;
    label before:
    errors, s := CompileNext(machine, g, variables, hasCycle, sort, reduce);
    forall j | 0 <= j < |sources| ensures IsSource(sources[j], machines[j], inputs[j], graphs[j]) {
      assert machines[j] in machines && graphs[j] in graphs;
      assert old@before(IsSource(sources[j], machines[j], inputs[j], graphs[j]));
      assert forall t :: t in graphs[j].vertex2task ==> unchanged@before(t);
      assert forall t :: t in sources[j].c.ts0 ==> unchanged@before(t);
      assert forall t :: t in sources[j].c.ts3 ==> unchanged@before(t);
      assert forall t :: t in sources[j].c.outs ==> unchanged@before(t);
    }
    OwnNext(graphs, g);
  }

  // Checks and compiles all agents.
  method CompileAgents(machines: seq<XMachine>, graphs: seq<XGraph>, variables: seq<seq<string>>,
                       hasCycle: CycleFinder, sort: Sorter, reduce: Reducer)
    returns (errors: nat, ghost sources: seq<Source>)
    requires |machines| == |graphs| == |variables| && Separate(machines) && Separate(graphs)
    requires forall k :: 0 <= k < |graphs| ==> NewGraph(graphs[k])
    requires FindsCycles(hasCycle) && SortsTopologically(sort) && ReducesTransitively(reduce)
    modifies (set m | m in machines)`startState, (set m | m in machines)`endStates, set g | g in graphs
    ensures |sources| == |graphs|
    ensures errors == 0 <==> forall k :: 0 <= k < |machines| ==> StatesValid(machines[k].functions)
    ensures errors == 0 ==> forall k :: 0 <= k < |graphs| ==> IsSource(sources[k], machines[k], variables[k], graphs[k])
    ensures OwnTasks(graphs)
  {
    hide *;
    NoneOwned(graphs);
    errors, sources := 0, [];
    var k := 0;
    while k < |graphs|
      invariant 0 <= k <= |graphs| && |sources| == k
      invariant errors == 0 <==> forall j :: 0 <= j < k ==> StatesValid(machines[j].functions)
      invariant errors == 0 ==> forall j :: 0 <= j < k ==> IsSource(sources[j], machines[j], variables[j], graphs[j])
      invariant forall j :: k <= j < |graphs| ==> NewGraph(graphs[j])
      invariant OwnTasks(graphs[..k])
    {
      OthersBefore(machines, k);
      OthersBefore(graphs, k);
      ghost var s;
      var e;
      e, s := CompileBehind(machines[..k], graphs[..k], if errors == 0 then sources else [], variables[..k],
                            machines[k], graphs[k], variables[k], hasCycle, sort, reduce);
      errors, sources := errors + e, sources + [s];
      k := k + 1;
    }
    assert graphs[..k] == graphs;
  }

  // A function of s comes before one of r.
  ghost predicate ComesFirst(s: Source, i: nat, r: Source, j: nat, ts: seq<Task>, E: Edges)
    requires i < |s.fs| && j < |r.fs|
  {
    && Position(s.fs, i) < |s.c.ts0| && Position(r.fs, j) < |r.c.ts0|
    && Ordered(ts, E, s.c.ts0[Position(s.fs, i)], r.c.ts0[Position(r.fs, j)])
  }

  // Whatever posts a message in s comes before whatever reads it in r.
  ghost predicate PostsReach(s: Source, r: Source, ts: seq<Task>, E: Edges) {
    forall i: nat, j: nat, m :: i < |s.fs| && j < |r.fs| && m in s.fs[i].outputs && m in r.fs[j].inputs
                                ==> ComesFirst(s, i, r, j, ts, E)
  }

  ghost predicate WaitedFor(s: Source, j: nat, m: string, ts: seq<Task>, E: Edges)
    requires j < |s.fs|
    reads ts
  {
    Position(s.fs, j) < |s.c.ts0| &&
    exists c :: c in ts && c.taskType.XMessageClear? && c.name == m && Ordered(ts, E, s.c.ts0[Position(s.fs, j)], c)
  }

  // A message is cleared after the functions that no other reader of the agent precedes.
  ghost predicate ReadersWaitedFor(s: Source, a: Agent, ts: seq<Task>, E: Edges)
    reads ts
  {
    forall j: nat, m :: j < |s.fs| && m in s.fs[j].inputs && ReadsFirst(s, a, j, m) ==> WaitedFor(s, j, m, ts, E)
  }

  // What the model graph promises of the functions of all agents.
  ghost predicate KeepsModel(sources: seq<Source>, agents: seq<Agent>, ts: seq<Task>, E: Edges)
    requires |sources| == |agents|
    reads ts
  {
    && (forall k :: 0 <= k < |agents| ==> KeepsAgent(sources[k].c, sources[k].fs, ts, E))
    && (forall j, k :: 0 <= j < |agents| && 0 <= k < |agents| ==> PostsReach(sources[j], sources[k], ts, E))
    && (forall k :: 0 <= k < |agents| ==> ReadersWaitedFor(sources[k], agents[k], ts, E))
  }

  // The model's start comes before what accesses a variable of the agent, and its finish
  // behind what writes one.
  ghost predicate WithinEnds(s: Source, ts: seq<Task>, E: Edges) {
    forall j: nat, x :: j < |s.fs| ==> RunsWithin(s, j, x, ts, E)
  }

  ghost predicate RunsWithin(s: Source, j: nat, x: string, ts: seq<Task>, E: Edges)
    requires j < |s.fs|
  {
    && (x in s.c.variables && (x in s.fs[j].readOnlyVariables || x in s.fs[j].readWriteVariables) ==> BehindStart(s, j, ts, E))
    && (x in s.fs[j].readWriteVariables ==> BeforeFinish(s, j, ts, E))
  }

  ghost predicate BehindStart(s: Source, j: nat, ts: seq<Task>, E: Edges)
    requires j < |s.fs|
  {
    |ts| > 1 && Position(s.fs, j) < |s.c.ts0| && Ordered(ts, E, ts[0], s.c.ts0[Position(s.fs, j)])
  }

  ghost predicate BeforeFinish(s: Source, j: nat, ts: seq<Task>, E: Edges)
    requires j < |s.fs|
  {
    |ts| > 1 && Position(s.fs, j) < |s.c.ts0| && Ordered(ts, E, s.c.ts0[Position(s.fs, j)], ts[1])
  }

  lemma {:induction false} FunctionWithin(agents: seq<Agent>, k: nat, ts: seq<Task>, E: Edges, s: Source, start: Task, j: nat, x: string)
    requires (forall l :: 0 <= l < |agents| ==> AgentValid(agents[l])) && Distinct(ts) && KeepsAgents(agents, ts, E)
    requires ModelHasEnds(agents, ts, E) && k < |agents| && CompiledAt(s, agents[k]) && j < |s.fs|
    requires start.taskType == StartAgent && StartsFirst(s.c, start, agents[k].tasks, Pairs(agents[k].edges))
    ensures RunsWithin(s, j, x, ts, E)
  {
    hide *;
    var a := agents[k];
    CompiledAtIs(s, a);
    CompiledKeeps(s, a);
    TwoEnds(agents, ts, E);
    FunctionIsTask(s.c, s.fs, s.endStates, a, j);
    var t := s.c.ts0[Position(s.fs, j)];
    if x in s.c.variables && (x in s.fs[j].readOnlyVariables || x in s.fs[j].readWriteVariables) {
      FunctionsAfterStart(s.c, s.fs, s.endStates, start, a.tasks, Pairs(a.edges), j, x);
      var y := OrderedFromStart(agents, ts, E, k, start, t);
      StandsItself(y, t);
      IsBehindStart(s, j, ts, E);
    }
    if x in s.fs[j].readWriteVariables {
      var o := OutputBehind(s, a, j, x);
      OrderedAreThere(a.tasks, Pairs(a.edges), t, o);
      FinishesAfter(agents, ts, E, k, t, o);
      IsBeforeFinish(s, j, ts, E, t);
    }
    DoesRunWithin(s, j, x, ts, E);
  }

  lemma DoesRunWithin(s: Source, j: nat, x: string, ts: seq<Task>, E: Edges)
    requires j < |s.fs| && (x in s.fs[j].readWriteVariables ==> BeforeFinish(s, j, ts, E))
    requires x in s.c.variables && (x in s.fs[j].readOnlyVariables || x in s.fs[j].readWriteVariables) ==> BehindStart(s, j, ts, E)
    ensures RunsWithin(s, j, x, ts, E)
  {
    hide BehindStart, BeforeFinish;
  }

  /** Start and finish of the model, told from the functions of an agent. */
  lemma {:induction false} AgentWithinEnds(agents: seq<Agent>, k: nat, ts: seq<Task>, E: Edges, s: Source)
    requires (forall l :: 0 <= l < |agents| ==> AgentValid(agents[l])) && Distinct(ts) && KeepsAgents(agents, ts, E)
    requires ModelHasEnds(agents, ts, E) && k < |agents| && CompiledAt(s, agents[k])
    ensures WithinEnds(s, ts, E)
  {
    hide *;
    CompiledAtIs(s, agents[k]);
    AgentHasEnds(s.c, s.fs, s.endStates, agents[k]);
    var start := StartOf(s.c, agents[k].tasks, Pairs(agents[k].edges));
    forall j: nat, x | j < |s.fs| ensures RunsWithin(s, j, x, ts, E) {
      FunctionWithin(agents, k, ts, E, s, start, j, x);
    }
    AreWithinEnds(s, ts, E);
  }

  // Start and finish of the model, told from the agents and from their functions.
  ghost predicate KeepsEnds(sources: seq<Source>, agents: seq<Agent>, ts: seq<Task>, E: Edges)
    reads ts, set a, t | a in agents && t in a.tasks :: t
  {
    && ModelHasEnds(agents, ts, E) && StartsBeforeAll(agents, ts, E)
    && forall k :: 0 <= k < |sources| ==> WithinEnds(sources[k], ts, E)
  }

  lemma {:induction false} EndsKept(agents: seq<Agent>, ts: seq<Task>, E: Edges, sources: seq<Source>)
    requires (forall k :: 0 <= k < |agents| ==> AgentValid(agents[k])) && Distinct(ts) && KeepsAgents(agents, ts, E)
    requires ModelHasEnds(agents, ts, E) && StartsBeforeAll(agents, ts, E) && |sources| == |agents|
    requires forall k :: 0 <= k < |agents| ==> CompiledAt(sources[k], agents[k])
    ensures KeepsEnds(sources, agents, ts, E)
  {
    hide AgentValid, Distinct, KeepsAgents, ModelHasEnds, StartsBeforeAll, CompiledAt, WithinEnds;
    forall k | 0 <= k < |sources| ensures WithinEnds(sources[k], ts, E) {
      AgentWithinEnds(agents, k, ts, E, sources[k]);
    }
  }

  lemma TwoEnds(agents: seq<Agent>, ts: seq<Task>, E: Edges)
    requires ModelHasEnds(agents, ts, E)
    ensures |ts| > 1
  {
    hide IsOutputTask, FollowsStart, Adjacent;
  }

  lemma StartOf(c: Compilation, ts: seq<Task>, E: Edges) returns (start: Task)
    requires HasEnds(c, ts, E)
    ensures start in ts && start.taskType == StartAgent && StartsFirst(c, start, ts, E)
  {
    hide StartsFirst, UnwrittenBehindStart, OneOutputEach;
    start :| start in ts && IsStart(start, ts) && StartsFirst(c, start, ts, E) && UnwrittenBehindStart(c, start, ts, E);
  }

  lemma OutputBehind(s: Source, a: Agent, j: nat, x: string) returns (o: Task)
    requires WritesBeforeOutput(s.c, s.fs, a.tasks, Pairs(a.edges)) && WriteGroups(s.c.outs, s.c.groups)
    requires j < |s.fs| && x in s.fs[j].readWriteVariables
    ensures o.taskType == IoPopWrite && Position(s.fs, j) < |s.c.ts0| && Ordered(a.tasks, Pairs(a.edges), s.c.ts0[Position(s.fs, j)], o)
  {
    hide WriteGroups, Ordered, Pairs, Position;
    assert OutputAfter(s.c, s.fs, j, x, a.tasks, Pairs(a.edges));
    var k :| 0 <= k < |s.c.outs| && k < |s.c.groups| && x in s.c.groups[k]
             && Ordered(a.tasks, Pairs(a.edges), s.c.ts0[Position(s.fs, j)], s.c.outs[k]);
    OutputIsTask(s.c.outs, s.c.groups, k);
    o := s.c.outs[k];
  }

  lemma IsBehindStart(s: Source, j: nat, ts: seq<Task>, E: Edges)
    requires j < |s.fs| && |ts| > 1 && Position(s.fs, j) < |s.c.ts0| && Ordered(ts, E, ts[0], s.c.ts0[Position(s.fs, j)])
    ensures BehindStart(s, j, ts, E)
  {
    hide Ordered, Position;
  }

  lemma IsBeforeFinish(s: Source, j: nat, ts: seq<Task>, E: Edges, t: Task)
    requires j < |s.fs| && |ts| > 1 && Position(s.fs, j) < |s.c.ts0| && t == s.c.ts0[Position(s.fs, j)] && t.taskType == XFunction
    requires exists x :: x in ts && StandsFor(x, t) && Ordered(ts, E, x, ts[1])
    ensures BeforeFinish(s, j, ts, E)
  {
    hide Ordered, Position;
  }

  lemma AreWithinEnds(s: Source, ts: seq<Task>, E: Edges)
    requires forall j: nat, x :: j < |s.fs| ==> RunsWithin(s, j, x, ts, E)
    ensures WithinEnds(s, ts, E)
  {
    hide RunsWithin;
  }

  lemma {:induction false} AllPostsReach(agents: seq<Agent>, j: nat, k: nat, ts: seq<Task>, E: Edges, s: Source, r: Source)
    requires KeepsAgentOrders(agents, ts, E) && OneSyncPerMessage(ts) && Distinct(ts)
    requires j < |agents| && k < |agents| && CompiledAt(s, agents[j]) && CompiledAt(r, agents[k])
    ensures PostsReach(s, r, ts, E)
  {
    hide KeepsAgentOrders, OneSyncPerMessage, Distinct, CompiledAt, Ordered, Position;
    forall i: nat, i': nat, m | i < |s.fs| && i' < |r.fs| && m in s.fs[i].outputs && m in r.fs[i'].inputs
      ensures ComesFirst(s, i, r, i', ts, E)
    {
      PostBeforeReadElsewhere(agents, j, k, ts, E, s, r, i, i', m);
    }
  }

  lemma {:induction false} AllReadersWaitedFor(agents: seq<Agent>, k: nat, ts: seq<Task>, E: Edges, s: Source)
    requires ReadersBeforeClear(agents, ts, E) && k < |agents| && CompiledAt(s, agents[k])
    ensures ReadersWaitedFor(s, agents[k], ts, E)
  {
    hide ReadersBeforeClear, CompiledAt, Ordered, Position, ReadsFirst;
    forall j: nat, m | j < |s.fs| && m in s.fs[j].inputs && ReadsFirst(s, agents[k], j, m) ensures WaitedFor(s, j, m, ts, E) {
      FirstReadersWaitedFor(agents, k, ts, E, s, j, m);
    }
  }

  lemma {:induction false} ModelKept(agents: seq<Agent>, ts: seq<Task>, E: Edges, sources: seq<Source>)
    requires KeepsAgents(agents, ts, E) && Distinct(ts) && |sources| == |agents|
    requires forall k :: 0 <= k < |agents| ==> CompiledAt(sources[k], agents[k])
    ensures KeepsModel(sources, agents, ts, E)
  {
    hide KeepsTasks, KeepsAgentOrders, OneSyncPerMessage, SyncsInUse, ReadersBeforeClear, Distinct, CompiledAt, KeepsAgent, PostsReach, ReadersWaitedFor;
    assert KeepsAgentOrders(agents, ts, E) && OneSyncPerMessage(ts) && ReadersBeforeClear(agents, ts, E);
    hide KeepsAgents;
    forall k | 0 <= k < |agents| ensures KeepsAgent(sources[k].c, sources[k].fs, ts, E) && ReadersWaitedFor(sources[k], agents[k], ts, E) {
      AgentKeptInModel(agents, k, ts, E, sources[k]);
      AllReadersWaitedFor(agents, k, ts, E, sources[k]);
    }
    forall j, k | 0 <= j < |agents| && 0 <= k < |agents| ensures PostsReach(sources[j], sources[k], ts, E) {
      AllPostsReach(agents, j, k, ts, E, sources[j], sources[k]);
    }
  }

  lemma {:induction false} CompiledAreValid(machines: seq<XMachine>, variables: seq<seq<string>>, graphs: seq<XGraph>, sources: seq<Source>)
    requires |machines| == |graphs| == |sources| == |variables|
    requires forall k :: 0 <= k < |graphs| ==> IsSource(sources[k], machines[k], variables[k], graphs[k])
    ensures forall k :: 0 <= k < |graphs| ==> AgentValid(AgentsOf(graphs)[k]) && CompiledAt(sources[k], AgentsOf(graphs)[k])
    ensures forall k :: 0 <= k < |graphs| ==> sources[k].fs == machines[k].functions && sources[k].c.variables == Names(variables[k])
  {
    hide IsCompiled, AgentValid;
    forall k | 0 <= k < |graphs| ensures AgentValid(AgentsOf(graphs)[k]) && CompiledAt(sources[k], AgentsOf(graphs)[k]) {
      assert IsSource(sources[k], machines[k], variables[k], graphs[k]);
      CompiledKeeps(sources[k], AgentOf(graphs[k]));
    }
  }

  method MergeCompiled(model: XGraph, graphs: seq<XGraph>, ghost agents: seq<Agent>, ghost sources: seq<Source>)
    requires NewGraph(model) && model !in graphs && |sources| == |graphs| == |agents| && Apart(agents)
    requires forall k :: 0 <= k < |graphs| ==> agents[k] == Agent(graphs[k].vertex2task, graphs[k].edges)
    requires forall k :: 0 <= k < |agents| ==> AgentValid(agents[k]) && CompiledAt(sources[k], agents[k])
    modifies model
    ensures forall k :: 0 <= k < |agents| ==> CompiledAt(sources[k], agents[k])
    ensures AllValid(model.vertex2task) && KeepsModel(sources, agents, model.vertex2task, Pairs(model.edges))
    ensures OrdersExactly(agents, model.vertex2task, Pairs(model.edges))
    ensures ClearsAfterExactly(agents, model.vertex2task, Pairs(model.edges))
    ensures KeepsEnds(sources, agents, model.vertex2task, Pairs(model.edges))
    ensures Acyclic(Pairs(model.edges)) <==> Acyclic(SharedOrder(agents))
  {
    hide *;
    NewIsEmpty(model);
    label before:
    ImportGraphs(model, graphs, agents);
    forall k | 0 <= k < |agents| ensures CompiledAt(sources[k], agents[k]) {
      assert old@before(CompiledAt(sources[k], agents[k]));
      assert forall t :: t in agents[k].tasks ==> unchanged@before(t);
      assert forall t :: t in sources[k].c.ts0 ==> unchanged@before(t);
      assert forall t :: t in sources[k].c.ts3 ==> unchanged@before(t);
      assert forall t :: t in sources[k].c.outs ==> unchanged@before(t);
    }
    DistinctTasks(model.vertex2task);
    ModelKept(agents, model.vertex2task, Pairs(model.edges), sources);
    EndsKept(agents, model.vertex2task, Pairs(model.edges), sources);
  }

  lemma NewIsEmpty(g: XGraph)
    requires NewGraph(g)
    ensures g.vertex2task == [] && g.edges == {}
  {
  }

  lemma AgentOfIs(g: XGraph)
    ensures AgentOf(g) == Agent(g.vertex2task, g.edges)
  {
  }

  lemma DistinctTasks(ts: seq<Task>)
    requires AllValid(ts)
    ensures Distinct(ts)
  {
  }

  // From the functions of all agents to the graph of the model.
  method CompileModel(machines: seq<XMachine>, graphs: seq<XGraph>, variables: seq<seq<string>>, model: XGraph,
                      hasCycle: CycleFinder, sort: Sorter, reduce: Reducer)
    returns (errors: nat, ghost sources: seq<Source>)
    requires |machines| == |graphs| == |variables| && Separate(machines) && Separate(graphs)
    requires (forall k :: 0 <= k < |graphs| ==> NewGraph(graphs[k])) && NewGraph(model) && model !in graphs
    requires FindsCycles(hasCycle) && SortsTopologically(sort) && ReducesTransitively(reduce)
    modifies (set m | m in machines)`startState, (set m | m in machines)`endStates
    modifies (set g | g in graphs) + {model}
    ensures errors == 0 <==> forall k :: 0 <= k < |machines| ==> StatesValid(machines[k].functions)
    ensures |sources| == |graphs|
    ensures errors == 0 ==> forall k :: 0 <= k < |graphs| ==>
              && sources[k].fs == machines[k].functions && sources[k].c.variables == Names(variables[k])
              && CompiledAt(sources[k], AgentsOf(graphs)[k])
    ensures errors == 0 ==> AllValid(model.vertex2task)
    ensures errors == 0 ==> KeepsModel(sources, AgentsOf(graphs), model.vertex2task, Pairs(model.edges))
    ensures errors == 0 ==> OrdersExactly(AgentsOf(graphs), model.vertex2task, Pairs(model.edges))
    ensures errors == 0 ==> ClearsAfterExactly(AgentsOf(graphs), model.vertex2task, Pairs(model.edges))
    ensures errors == 0 ==> KeepsEnds(sources, AgentsOf(graphs), model.vertex2task, Pairs(model.edges))
    ensures errors == 0 ==> (Acyclic(Pairs(model.edges)) <==> Acyclic(SharedOrder(AgentsOf(graphs))))
  {
    hide *;
    errors, sources := CompileAgents(machines, graphs, variables, hasCycle, sort, reduce);
    if errors == 0 {
      CompiledAreValid(machines, variables, graphs, sources);
      OwnApart(graphs);
      ghost var agents := AgentsOf(graphs);
      forall k | 0 <= k < |graphs| ensures agents[k] == Agent(graphs[k].vertex2task, graphs[k].edges) {
        AgentOfIs(graphs[k]);
      }
      MergeCompiled(model, graphs, agents, sources);
      assert AgentsOf(graphs) == agents;
    }
  }
}
