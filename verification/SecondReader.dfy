/** A reader that the compiler forgets: of two functions of an agent that read one
    message and conflict, the second is not waited for when the message is cleared. */
module SecondReader {
  import opened Digraph
  import opened DataFlow
  import opened TaskGraph
  import opened Tasks
  import opened XGraphs
  import opened ModelXGraph
  import opened WholeModel
  import opened XMachines
  import opened StateGraphs
  import opened AgentCompiler
  import opened CompiledModel
  import opened ClearOrder

  // Only i and j read m, and i comes first.
  ghost predicate TwoReaders(s: Source, a: Agent, i: nat, j: nat, m: string) {
    && i < |s.fs| && j < |s.fs| && i != j && m in s.fs[i].inputs && m in s.fs[j].inputs
    && (forall k: nat :: k < |s.fs| && m in s.fs[k].inputs ==> k == i || k == j)
    && Precedes(s.c, s.fs, i, j, a.tasks, Pairs(a.edges))
  }

  lemma {:induction false} SecondHasNoEdge(s: Source, a: Agent, i: nat, j: nat, m: string)
    requires CompiledAt(s, a) && TwoReaders(s, a, i, j, m)
    ensures !ReadsFirst(s, a, j, m)
  {
    hide CompiledAt, Precedes;
  }

  lemma TwoReadersMeans(s: Source, a: Agent, i: nat, j: nat, m: string)
    requires TwoReaders(s, a, i, j, m)
    ensures i < |s.fs| && j < |s.fs| && i != j && m in s.fs[i].inputs && m in s.fs[j].inputs
    ensures Precedes(s.c, s.fs, i, j, a.tasks, Pairs(a.edges))
  {
    hide Precedes;
  }

  lemma OneOfTwo(s: Source, a: Agent, i: nat, j: nat, m: string, k: nat)
    requires TwoReaders(s, a, i, j, m) && k < |s.fs| && m in s.fs[k].inputs
    ensures k == i || k == j
  {
    hide Precedes;
  }

  lemma {:induction false} FirstReadsFirst(s: Source, a: Agent, i: nat, j: nat, m: string)
    requires CompiledAt(s, a) && TwoReaders(s, a, i, j, m)
    ensures ReadsFirst(s, a, i, m)
  {
    hide *;
    CompiledKeeps(s, a);
    AgentIsReady(a);
    ReadyAcyclic(KindsOf(a.tasks), Pairs(a.edges));
    TwoReadersMeans(s, a, i, j, m);
    FunctionStarts(s.c, s.fs, s.endStates, i);
    FunctionStarts(s.c, s.fs, s.endStates, j);
    PrecedesWhere(s.c, s.fs, i, j, a.tasks, Pairs(a.edges));
    PrecedesWhere(s.c, s.fs, j, i, a.tasks, Pairs(a.edges));
    forall k: nat | k < |s.fs| && k != i && m in s.fs[k].inputs ensures !Precedes(s.c, s.fs, k, i, a.tasks, Pairs(a.edges)) {
      OneOfTwo(s, a, i, j, m, k);
      if Precedes(s.c, s.fs, j, i, a.tasks, Pairs(a.edges)) {
        BothWaysIsCycle(a.tasks, Pairs(a.edges), s.c.ts0[Position(s.fs, i)], s.c.ts0[Position(s.fs, j)]);
      }
    }
    ReadsFirstIs(s, a, i, m);
  }

  // The message is cleared after the first reader, but not after the second.
  ghost predicate SecondMissed(s: Source, i: nat, j: nat, m: string, ts: seq<Task>, E: Edges)
    requires i < |s.fs| && j < |s.fs|
    reads ts
  {
    && Position(s.fs, i) < |s.c.ts0| && Position(s.fs, j) < |s.c.ts0|
    && exists c :: c in ts && c.taskType == XMessageClear && c.name == m
                   && Ordered(ts, E, s.c.ts0[Position(s.fs, i)], c) && !Ordered(ts, E, s.c.ts0[Position(s.fs, j)], c)
  }

  // In a model of such an agent the second reader is not waited for.
  lemma {:induction false} SecondNotWaitedFor(s: Source, a: Agent, i: nat, j: nat, m: string, ts: seq<Task>, E: Edges)
    requires CompiledAt(s, a) && TwoReaders(s, a, i, j, m) && ClearsAfterExactly([a], ts, E)
    ensures i < |s.fs| && j < |s.fs| && SecondMissed(s, i, j, m, ts, E)
  {
    hide *;
    TwoReadersMeans(s, a, i, j, m);
    FirstReadsFirst(s, a, i, j, m);
    SecondHasNoEdge(s, a, i, j, m);
    var c := ReaderWaitedForExactly(s, a, m, i, ts, E);
    SecondMissedBy(s, i, j, m, ts, E, c);
  }

  lemma SecondMissedBy(s: Source, i: nat, j: nat, m: string, ts: seq<Task>, E: Edges, c: Task)
    requires i < |s.fs| && j < |s.fs| && Position(s.fs, i) < |s.c.ts0| && Position(s.fs, j) < |s.c.ts0|
    requires c in ts && c.taskType == XMessageClear && c.name == m
    requires Ordered(ts, E, s.c.ts0[Position(s.fs, i)], c) && !Ordered(ts, E, s.c.ts0[Position(s.fs, j)], c)
    ensures SecondMissed(s, i, j, m, ts, E)
  {
    hide Position, Ordered;
  }

  // ------------------------------------------------------------ two such functions

  // Both read the message m and both read and write x.
  function Readers(): seq<Function> {
    [Function("first", "0", "1", Always, [], ["x"], [], ["m"]), Function("second", "1", "2", Always, [], ["x"], [], ["m"])]
  }

  lemma ReadersConflict()
    ensures |Readers()| == 2
    ensures (0, 1) in StateEdges(Readers()) && FunctionsConflict(Readers()[0], Readers()[1])
  {
    var fs := Readers();
    assert fs[0].nextState == fs[1].currentState;
    assert "x" in fs[0].readWriteVariables && "x" in fs[1].readWriteVariables;
  }

  lemma ReadersStates()
    ensures |Readers()| == 2 && Readers()[0].currentState == "0" && Readers()[1].currentState == "1"
    ensures Readers()[0].nextState == "1" && Readers()[1].nextState == "2"
    ensures Readers()[0].outputs == [] && Readers()[1].outputs == []
  {
  }

  lemma {:induction false} ReadersValid()
    ensures StatesValid(Readers())
  {
    hide Readers, StateGraphOf, Acyclic, StateEdges, CurrentStates, NextStates, BranchesHaveConditions;
    ReadersStates();
    assert "0" != "1" && "0" != "2" && "1" != "2";
    InARow(Readers(), "0", "1", "2");
    NoPostsNoCycle(Readers());
  }

  lemma {:induction false} OrderedAsFunctions(s: Source, ts: seq<Task>, E: Edges, i: nat, j: nat)
    requires KeepsFunctionOrder(s.c, s.fs, ts, E) && i < |s.fs| && j < |s.fs|
    requires Reaches(StateEdges(s.fs), i, j) && FunctionsConflict(s.fs[i], s.fs[j])
    ensures Precedes(s.c, s.fs, i, j, ts, E)
  {
    hide Reaches, StateEdges, FunctionsConflict, Precedes;
  }

  lemma {:induction false} TwoReadersIs(s: Source, a: Agent)
    requires s.fs == Readers() && Precedes(s.c, s.fs, 0, 1, a.tasks, Pairs(a.edges))
    ensures TwoReaders(s, a, 0, 1, "m")
  {
    hide Precedes, Pairs;
  }

  lemma {:induction false} ReadersAreTwo(s: Source, a: Agent)
    requires CompiledAt(s, a) && s.fs == Readers()
    ensures TwoReaders(s, a, 0, 1, "m")
  {
    ReadersConflict();
    hide *;
    CompiledKeeps(s, a);
    EdgeReaches(StateEdges(s.fs), 0, 1);
    OrderedAsFunctions(s, a.tasks, Pairs(a.edges), 0, 1);
    TwoReadersIs(s, a);
  }

  lemma One<T>(x: T)
    ensures Separate([x])
  {
  }

  /** The whole way: an agent with these two functions passes and compiles, and in its model
      the message is cleared without waiting for the second. */
  method SecondReaderMissed(hasCycle: CycleFinder, sort: Sorter, reduce: Reducer) returns (model: XGraph, ghost s: Source)
    requires FindsCycles(hasCycle) && SortsTopologically(sort) && ReducesTransitively(reduce)
    ensures s.fs == Readers() && |s.fs| == 2 && SecondMissed(s, 0, 1, "m", model.vertex2task, Pairs(model.edges))
  {
    ReadersValid();
    hide FindsCycles, SortsTopologically, ReducesTransitively, StatesValid, Separate, CompiledAt, KeepsModel, OrdersExactly,
      ClearsAfterExactly, Acyclic, SharedOrder, SecondMissed, TwoReaders;
    var machine := new XMachine(Readers());
    var g := new XGraph("agent");
    model := new XGraph("model");
    One(machine);
    One(g);
    var errors;
    ghost var sources;
    errors, sources := CompileModel([machine], [g], [["x"]], model, hasCycle, sort, reduce);
    assert [machine][0].functions == Readers();
    s := sources[0];
    ghost var a := AgentOf(g);
    assert AgentsOf([g]) == [a];
    ReadersAreTwo(s, a);
    SecondNotWaitedFor(s, a, 0, 1, "m", model.vertex2task, Pairs(model.edges));
  }
}
