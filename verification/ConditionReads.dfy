/** What the conditions of functions read: the state that the functions leave reads it for
    them, and so it counts only where the state becomes a condition. */
module ConditionReads {
  import opened Digraph
  import opened DataFlow
  import opened TaskGraph
  import opened Tasks
  import opened AgentGraph
  import opened ModelGraph
  import opened XGraphs
  import opened ModelXGraph
  import opened ForcedOrder
  import opened XMachines
  import opened StateGraphs
  import opened AgentCompiler

  // ------------------------------------------------------- what the state reads

  lemma {:induction false} ReadsGrow(nodes: seq<Node>, labels: seq<Label>, f: Function, v: Vertex)
    requires v < |nodes| && v < |labels|
    ensures nodes[v].readVars <= NodesAfter(nodes, labels, f)[v].readVars
  {
    hide ConditionReads, FunctionNode;
  }

  lemma {:induction false} ReadsAdded(nodes: seq<Node>, labels: seq<Label>, f: Function, v: Vertex)
    requires v < |labels| && |nodes| < |labels| && labels[|nodes|].kind == XFunction && labels[v] == Label(XState, f.currentState)
    ensures ConditionReads(f.condition) <= NodesAfter(nodes, labels, f)[v].readVars
  {
    hide ConditionReads, FunctionNode;
  }

  lemma {:induction false} StateReads(fs: seq<Function>, j: nat, k: nat)
    requires j < k <= |fs|
    ensures ghost var v := Find(AllLabels(fs[..k]), XState, fs[j].currentState);
            && v < |AllNodes(fs[..k])| == |AllLabels(fs[..k])| && v == Find(AllLabels(fs[..j + 1]), XState, fs[j].currentState)
            && ConditionReads(fs[j].condition) <= AllNodes(fs[..k])[v].readVars
    decreases k
  {
    hide *;
    assert fs[..k] == fs[..k - 1] + [fs[k - 1]];
    AllNext(fs[..k - 1], fs[k - 1]);
    KnownAfter(fs, k);
    if j < k - 1 {
      StateReads(fs, j, k - 1);
      AllLabelsStep(fs, k);
      var v := Find(AllLabels(fs[..k - 1]), XState, fs[j].currentState);
      FoundThere(AllLabels(fs[..k - 1]), AllLabels(fs[..k]), XState, fs[j].currentState);
      ReadsGrow(AllNodes(fs[..k - 1]), AllLabels(fs[..k]), fs[k - 1], v);
    } else {
      AllPlaced(fs, j, k);
      PlacedIs(AllLabels(fs[..k]), fs[j], Position(fs, j));
      PositionIs(fs, j);
      StateKnown(AllLabels(fs[..k]), fs[j]);
      ReadsAdded(AllNodes(fs[..j]), AllLabels(fs[..k]), fs[j], Find(AllLabels(fs[..k]), XState, fs[j].currentState));
    }
  }

  lemma {:induction false} StateKnown(labels: seq<Label>, f: Function)
    requires Known(labels, f)
    ensures ghost var v := Find(labels, XState, f.currentState); v < |labels| && labels[v] == Label(XState, f.currentState)
  {
    hide Find;
  }

  // ---------------------------------------------------------- when the reads count

  lemma {:induction false} StateSurvives(c: Compilation, fs: seq<Function>, endStates: set<string>, j: nat)
    requires CompiledFrom(c, fs, endStates) && j < |fs|
    ensures Survives(c, StateAt(fs, j)) <==> Branches(fs, j)
    ensures ghost var v := StateAt(fs, j);
            && v < |c.ts0| == |c.nodes0|
            && (Branches(fs, j) ==> c.nodes0[v].kind == XCondition && ConditionReads(fs[j].condition) <= c.nodes0[v].readVars
                                    && c.variables <= c.nodes0[v].readVars && c.variables <= c.nodes0[v].writeVars)
  {
    BranchingExactly(fs, j);
    StateThere(fs, j);
    StateReads(fs, j, |fs|);
    assert fs[..|fs|] == fs;
    hide AllLabels, AllNodes, StateGraphOf, Position, OutEdges, ConditionReads, Find, Branches;
  }

  // Function i writes something that the condition of function j reads.
  ghost predicate WritesRead(fs: seq<Function>, i: nat, j: nat)
    requires i < |fs| && j < |fs|
  {
    exists x :: x in fs[i].readWriteVariables && x in ConditionReads(fs[j].condition)
  }

  // A condition also takes every variable of the agent for its own.
  ghost predicate Meets(fs: seq<Function>, variables: set<string>, i: nat, j: nat)
    requires i < |fs| && j < |fs|
  {
    WritesRead(fs, i, j) || exists x :: x in variables && (x in fs[i].readOnlyVariables || x in fs[i].readWriteVariables)
  }

  lemma {:induction false} StateConflicts(c: Compilation, fs: seq<Function>, endStates: set<string>, i: nat, j: nat)
    requires CompiledFrom(c, fs, endStates) && i < |fs| && j < |fs| && Branches(fs, j) && Meets(fs, c.variables, i, j)
    ensures Conflict(c.nodes0, Position(fs, i), StateAt(fs, j)) && Conflict(c.nodes0, StateAt(fs, j), Position(fs, i))
  {
    StateSurvives(c, fs, endStates, j);
    FunctionStarts(c, fs, endStates, i);
    hide CompiledFrom, Position, StateAt, Branches, ConditionReads;
    var x := MeetsIn(fs, c.variables, i, j);
    assert x in fs[i].readWriteVariables ==> x in Names(fs[i].readWriteVariables);
    assert x in fs[i].readOnlyVariables ==> x in Names(fs[i].readOnlyVariables) + Names(fs[i].readWriteVariables);
    assert ConflictOn(c.nodes0, Position(fs, i), StateAt(fs, j), x);
    assert ConflictOn(c.nodes0, StateAt(fs, j), Position(fs, i), x);
  }

  lemma MeetsIn(fs: seq<Function>, variables: set<string>, i: nat, j: nat) returns (x: string)
    requires i < |fs| && j < |fs| && Meets(fs, variables, i, j)
    ensures (x in fs[i].readWriteVariables && x in ConditionReads(fs[j].condition))
            || (x in variables && (x in fs[i].readOnlyVariables || x in fs[i].readWriteVariables))
  {
    hide ConditionReads;
    if WritesRead(fs, i, j) {
      x :| x in fs[i].readWriteVariables && x in ConditionReads(fs[j].condition);
    } else {
      x :| x in variables && (x in fs[i].readOnlyVariables || x in fs[i].readWriteVariables);
    }
  }

  /** The state of function j is left in the compiled graph exactly if it branches; then what
      writes a variable that the condition reads, and what accesses any variable of the agent,
      keeps its order with it. */
  lemma {:induction false} ConditionReadsKept(c: Compilation, fs: seq<Function>, endStates: set<string>, a: Agent, j: nat)
    requires IsCompiled(c, fs, endStates, a) && j < |fs|
    ensures StateAt(fs, j) < |c.ts0| && (Survives(c, StateAt(fs, j)) <==> Branches(fs, j))
    ensures forall i: nat :: i < |fs| && Branches(fs, j) && Meets(fs, c.variables, i, j) && Reaches(StateEdges(fs), i, j) ==>
              Position(fs, i) < |c.ts0| && Ordered(a.tasks, Pairs(a.edges), c.ts0[Position(fs, i)], c.ts0[StateAt(fs, j)])
    ensures forall i: nat :: i < |fs| && Branches(fs, j) && Meets(fs, c.variables, i, j) && (i == j || Reaches(StateEdges(fs), j, i)) ==>
              Position(fs, i) < |c.ts0| && Ordered(a.tasks, Pairs(a.edges), c.ts0[StateAt(fs, j)], c.ts0[Position(fs, i)])
  {
    hide *;
    CompiledParts(c, fs, endStates, a);
    StateSurvives(c, fs, endStates, j);
    MessagesStay(c, fs, endStates);
    StartsFromGraph(c, fs, endStates);
    forall i: nat | i < |fs| && Branches(fs, j) && Meets(fs, c.variables, i, j) && Reaches(StateEdges(fs), i, j)
      ensures Position(fs, i) < |c.ts0| && Ordered(a.tasks, Pairs(a.edges), c.ts0[Position(fs, i)], c.ts0[StateAt(fs, j)])
    {
      IntoState(fs, c.nodes0, i, j);
      FunctionStarts(c, fs, endStates, i);
      RunsIt(fs[i]);
      StateConflicts(c, fs, endStates, i, j);
      KeptConflict(c, fs, endStates, a, Position(fs, i), StateAt(fs, j));
    }
    forall i: nat | i < |fs| && Branches(fs, j) && Meets(fs, c.variables, i, j) && (i == j || Reaches(StateEdges(fs), j, i))
      ensures Position(fs, i) < |c.ts0| && Ordered(a.tasks, Pairs(a.edges), c.ts0[StateAt(fs, j)], c.ts0[Position(fs, i)])
    {
      OutOf(fs, c.nodes0, j, i);
      FunctionStarts(c, fs, endStates, i);
      RunsIt(fs[i]);
      StateConflicts(c, fs, endStates, i, j);
      KeptConflict(c, fs, endStates, a, StateAt(fs, j), Position(fs, i));
    }
  }

  lemma {:induction false} KeptConflict(c: Compilation, fs: seq<Function>, endStates: set<string>, a: Agent, u: Vertex, v: Vertex)
    requires IsCompiled(c, fs, endStates, a) && u < |c.ts0| == |c.nodes0| && v < |c.ts0|
    requires (Runs(c.nodes0[u].kind) || c.nodes0[u].kind == XCondition) && (Runs(c.nodes0[v].kind) || c.nodes0[v].kind == XCondition)
    requires RunsBefore(c.nodes0, c.es0, u, v) && Conflict(c.nodes0, u, v)
    ensures Ordered(a.tasks, Pairs(a.edges), c.ts0[u], c.ts0[v])
  {
    hide Compilation.Valid, CompiledFrom, NamesStay, IsReduced, WriteGroups, AgentValid, AllOutputsAfterWriters, KeepsMessageEdges, KeepsAgent,
      RunsBefore, Conflict, Ordered, Pairs;
  }

  // ------------------------------------------------------------ and when they are lost

  lemma {:induction false} ReadsWhatLeadsIn(fs: seq<Function>, j: nat, e: Edge)
    requires j < |fs| && e in StateGraphOf(fs) && e.kind != State && e.target == Position(fs, j)
    ensures fs[j].inputs != []
  {
    hide AllLabels, StateGraphOf, Position, Find, Known;
    var i := LinkFrom(fs, e);
    PlacedIn(fs, i);
    PlacedIn(fs, j);
    LinkEnds(AllLabels(fs), fs[i], Position(fs, i), e);
    if i != j { PositionsDiffer(fs, i, j); }
    assert e in InputLinks(AllLabels(fs), fs[j].inputs, Position(fs, j));
  }

  lemma {:induction false} NothingLeadsIn(fs: seq<Function>, j: nat)
    requires j < |fs|
    ensures fs[j].inputs == [] ==> forall e :: e in StateGraphOf(fs) && e.kind != State ==> e.target != Position(fs, j)
  {
    hide StateGraphOf, Position;
    forall e | e in StateGraphOf(fs) && e.kind != State && e.target == Position(fs, j) ensures fs[j].inputs != [] {
      ReadsWhatLeadsIn(fs, j, e);
    }
  }

  lemma {:induction false} NothingRead(fs: seq<Function>, nodes: seq<Node>, es: set<Edge>, j: nat, m: Vertex)
    requires j < |fs| && es == StateGraphOf(fs) && fs[j].inputs == []
    requires Position(fs, j) < |nodes| && nodes[Position(fs, j)].readVars == nodes[Position(fs, j)].writeVars == {}
    ensures !Forces(nodes, es, m, Position(fs, j))
  {
    hide StateGraphOf, Position, RunsBefore;
    NothingLeadsIn(fs, j);
    assert forall x :: !ConflictOn(nodes, m, Position(fs, j), x);
  }

  // A function that accesses nothing itself and reads no message waits for no function,
  // whatever its condition reads.
  lemma {:induction false} WaitsForNothing(c: Compilation, fs: seq<Function>, endStates: set<string>, a: Agent, i: nat, j: nat)
    requires IsCompiled(c, fs, endStates, a) && i < |fs| && j < |fs|
    requires fs[j].readOnlyVariables == [] && fs[j].readWriteVariables == [] && fs[j].inputs == []
    ensures !Precedes(c, fs, i, j, a.tasks, Pairs(a.edges))
  {
    hide *;
    CompiledParts(c, fs, endStates, a);
    CompiledApart(c, fs, endStates);
    FunctionStarts(c, fs, endStates, j);
    AccessesNothing(fs[j]);
    StartsFromGraph(c, fs, endStates);
    AgentOrderExact(c, fs, endStates, a);
    AsForcedAt(c, fs, a.tasks, Pairs(a.edges), i, j);
    if Reaches(Forced(c.nodes0, c.es0), Position(fs, i), Position(fs, j)) {
      var m := LastEdge(Forced(c.nodes0, c.es0), Position(fs, i), Position(fs, j));
      SizesOf(c, fs, endStates);
      ForcedSurvive(c, m, Position(fs, j));
      NothingRead(fs, c.nodes0, c.es0, j, m);
    }
  }

  lemma SizesOf(c: Compilation, fs: seq<Function>, endStates: set<string>)
    requires CompiledFrom(c, fs, endStates)
    ensures |c.ts0| == |c.nodes0| && c.es0 == StateGraphOf(fs)
  {
    hide AllLabels, AllNodes, StateGraphOf;
  }

  lemma AccessesNothing(f: Function)
    requires f.readOnlyVariables == [] && f.readWriteVariables == []
    ensures FunctionNode(f) == Node(XFunction, {}, {})
  {
  }

  lemma {:induction false} AsForcedAt(c: Compilation, fs: seq<Function>, ts: seq<Task>, E: Edges, i: nat, j: nat)
    requires OrderedAsForced(c, fs, c.variables, ts, E) && i < |fs| && j < |fs|
    ensures Precedes(c, fs, i, j, ts, E) <==> Reaches(ForcedBy(fs, c.variables), Position(fs, i), Position(fs, j))
  {
    hide Precedes, Reaches, ForcedBy, Position;
  }

  // A function that writes x, and then one whose condition reads it.
  function Guarded(): seq<Function> {
    [Function("write", "0", "1", Always, [], ["x"], [], []), Function("act", "1", "2", When({"x"}), [], [], [], [])]
  }

  lemma GuardedStates()
    ensures |Guarded()| == 2 && Guarded()[0].currentState == "0" && Guarded()[1].currentState == "1"
    ensures Guarded()[0].nextState == "1" && Guarded()[1].nextState == "2"
    ensures !Branches(Guarded(), 1)
    ensures Guarded()[0].outputs == [] && Guarded()[1].outputs == []
  {
  }

  lemma GuardedConflict()
    ensures |Guarded()| == 2 && WritesRead(Guarded(), 0, 1)
  {
    assert "x" in Guarded()[0].readWriteVariables && "x" in ConditionReads(Guarded()[1].condition);
  }

  lemma {:induction false} GuardedValid()
    ensures |Guarded()| == 2 && StatesValid(Guarded()) && Reaches(StateEdges(Guarded()), 0, 1)
    ensures WritesRead(Guarded(), 0, 1) && !Branches(Guarded(), 1)
  {
    hide Guarded, StateGraphOf, Acyclic, StateEdges, CurrentStates, NextStates, Reaches, WritesRead, Branches, BranchesHaveConditions;
    GuardedStates();
    GuardedConflict();
    assert "0" != "1" && "0" != "2" && "1" != "2";
    InARow(Guarded(), "0", "1", "2");
    NoPostsNoCycle(Guarded());
  }

  /** The whole way: the condition of the second function reads what the first has written, and
      the second does not wait for the first. */
  method ConditionReadLost(hasCycle: CycleFinder, sort: Sorter, reduce: Reducer) returns (errors: nat, g: XGraph, ghost c: Compilation)
    requires FindsCycles(hasCycle) && SortsTopologically(sort) && ReducesTransitively(reduce)
    ensures |Guarded()| == 2 && Reaches(StateEdges(Guarded()), 0, 1) && WritesRead(Guarded(), 0, 1)
    ensures errors == 0 && !Precedes(c, Guarded(), 0, 1, g.vertex2task, Pairs(g.edges))
  {
    GuardedValid();
    hide *;
    var machine := new XMachine(Guarded());
    g := new XGraph("agent");
    errors, c := CompileAgent(machine, g, ["x"], hasCycle, sort, reduce);
    GuardedReads();
    WaitsForNothing(c, Guarded(), machine.endStates, Agent(g.vertex2task, g.edges), 0, 1);
  }

  lemma GuardedReads()
    ensures |Guarded()| == 2 && Guarded()[1].readOnlyVariables == [] && Guarded()[1].readWriteVariables == [] && Guarded()[1].inputs == []
  {
  }
}
