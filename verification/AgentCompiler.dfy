/** From the functions of an agent to its dependency graph: what is checked on the
    way, and what the result promises of the functions. */
module AgentCompiler {
  import opened Digraph
  import opened DataFlow
  import opened TaskGraph
  import opened Tasks
  import opened AgentGraph
  import opened ModelGraph
  import opened XGraphs
  import opened ModelXGraph
  import opened CompiledAgents
  import opened ForcedOrder
  import opened StartAndOutputs
  import opened XMachines
  import opened StateGraphs

  // ------------------------------------------------- what compiles from there

  // Off the messages, what follows a function is its next state.
  lemma {:induction false} AfterFunction(fs: seq<Function>, nodes: seq<Node>, i: nat, v: Vertex)
    requires SameMessages(nodes, AllLabels(fs)) && i < |fs|
    requires (Position(fs, i), v) in Avoiding(Pairs(StateGraphOf(fs)), Messages(nodes))
    ensures v < |AllLabels(fs)| && AllLabels(fs)[v] == Label(XState, fs[i].nextState)
  {
    hide AllLabels, StateGraphOf, Position, Find, Known;
    var labels := AllLabels(fs);
    PlacedIn(fs, i);
    var e :| e in StateGraphOf(fs) && (Position(fs, i), v) == (e.source, e.target);
    var j := LinkFrom(fs, e);
    PlacedIn(fs, j);
    LinkEnds(labels, fs[j], Position(fs, j), e);
    if j != i { PositionsDiffer(fs, i, j); }
    StateLinksOf(labels, fs[j], Position(fs, j));
  }

  // And what follows a state is a function of this state.
  lemma {:induction false} AfterState(fs: seq<Function>, nodes: seq<Node>, v: Vertex, w: Vertex) returns (j: nat)
    requires v < |AllLabels(fs)| && AllLabels(fs)[v].kind.XState?
    requires (v, w) in Avoiding(Pairs(StateGraphOf(fs)), Messages(nodes))
    ensures j < |fs| && w == Position(fs, j) && fs[j].currentState == AllLabels(fs)[v].name
  {
    hide AllLabels, StateGraphOf, Position;
    var e :| e in StateGraphOf(fs) && (v, w) == (e.source, e.target);
    j := OutOfState(fs, v, e);
  }

  lemma {:induction false} LaterOnPath(fs: seq<Function>, nodes: seq<Node>, p: seq<Vertex>, i: nat, j: nat)
    requires SameMessages(nodes, AllLabels(fs)) && i < |fs| && j < |fs|
    requires PathFromTo(Avoiding(Pairs(StateGraphOf(fs)), Messages(nodes)), p, Position(fs, i), Position(fs, j))
    ensures Reaches(StateEdges(fs), i, j)
    decreases |p|
  {
    hide AllLabels, StateGraphOf, Position, Reaches, SameMessages, Avoiding;
    var F := Avoiding(Pairs(StateGraphOf(fs)), Messages(nodes));
    PlacedIn(fs, j);
    assert Link(F, p, 0);
    AfterFunction(fs, nodes, i, p[1]);
    assert AllLabels(fs)[p[1]].kind.XState? && AllLabels(fs)[Position(fs, j)].kind.XFunction?;
    assert Link(F, p, 1);
    var k := AfterState(fs, nodes, p[1], p[2]);
    assert (i, k) in StateEdges(fs);
    EdgeReaches(StateEdges(fs), i, k);
    if |p| > 3 {
      Slice(F, p, 2, |p| - 1);
      assert p[2..|p| - 1 + 1] == p[2..];
      LaterOnPath(fs, nodes, p[2..], k, j);
      Transitive(StateEdges(fs), i, k, j);
    } else if k != j {
      PositionsDiffer(fs, k, j);
    }
  }

  // In the state graph a function runs before another exactly if the other can come
  // after it.
  lemma {:induction false} RunsBeforeExactly(fs: seq<Function>, nodes: seq<Node>, i: nat, j: nat)
    requires SameMessages(nodes, AllLabels(fs)) && i < |fs| && j < |fs|
    ensures RunsBefore(nodes, StateGraphOf(fs), Position(fs, i), Position(fs, j)) <==> Reaches(StateEdges(fs), i, j)
  {
    hide AllLabels, StateGraphOf, Position, StateEdges, SameMessages, Avoiding;
    var F := Avoiding(Pairs(StateGraphOf(fs)), Messages(nodes));
    if Reaches(F, Position(fs, i), Position(fs, j)) {
      var p :| PathFromTo(F, p, Position(fs, i), Position(fs, j));
      LaterOnPath(fs, nodes, p, i, j);
    }
    if Reaches(StateEdges(fs), i, j) {
      FollowersRunLater(fs, nodes, i, j);
    }
  }

  // The compilation started from the graph of the functions.
  ghost predicate CompiledFrom(c: Compilation, fs: seq<Function>, endStates: set<string>) {
    && |c.ts0| == |c.nodes0| == |AllLabels(fs)| && c.es0 == StateGraphOf(fs)
    && c.nodes0 == AfterTransform(AllNodes(fs), c.es0, c.variables)
    && (forall v :: 0 <= v < |AllLabels(fs)| ==> AllNodes(fs)[v].kind == AllLabels(fs)[v].kind)
    && forall j: nat :: j < |fs| ==> EndsIn(c, fs, j, endStates)
  }

  ghost predicate EndsIn(c: Compilation, fs: seq<Function>, j: nat, endStates: set<string>)
    requires j < |fs|
  {
    Position(fs, j) < |c.ts0| && (c.ts0[Position(fs, j)] in c.endTasks <==> fs[j].nextState in endStates)
  }

  lemma {:induction false} MessagesStay(c: Compilation, fs: seq<Function>, endStates: set<string>)
    requires CompiledFrom(c, fs, endStates)
    ensures SameMessages(c.nodes0, AllLabels(fs))
  {
    hide AllLabels, AllNodes, StateGraphOf;
  }

  // From every function the agent can come to an end.
  lemma {:induction false} FunctionCanEnd(c: Compilation, fs: seq<Function>, endStates: set<string>, j: nat)
    requires CompiledFrom(c, fs, endStates) && Acyclic(Pairs(c.es0)) && endStates == NextStates(fs) - CurrentStates(fs)
    requires j < |fs|
    ensures CanEnd(c, Position(fs, j))
  {
    hide AllLabels, AllNodes, StateGraphOf, Position, Pairs, Acyclic, SameMessages, RunsBefore;
    NoCyclicStates(fs);
    MessagesStay(c, fs, endStates);
    var k := EndsSomewhere(fs, j);
    assert fs[k].nextState in NextStates(fs);
    assert EndsIn(c, fs, k, endStates);
    if k != j {
      FollowersRunLater(fs, c.nodes0, j, k);
    }
  }

  // And from every condition, which leads to a function.
  lemma {:induction false} BranchLeads(c: Compilation, fs: seq<Function>, endStates: set<string>, u: Vertex) returns (j: nat)
    requires CompiledFrom(c, fs, endStates) && u < |c.nodes0| && c.nodes0[u].kind.XCondition?
    ensures j < |fs| && (u, Position(fs, j)) in Avoiding(Pairs(c.es0), Messages(c.nodes0))
  {
    AllOrdinary(fs);
    hide AllLabels, AllNodes, StateGraphOf, Position, Find, Links, Pairs, Known;
    var labels := AllLabels(fs);
    assert labels[u].kind.XState? && IsBranching(AllNodes(fs), c.es0, u);
    var e :| e in OutEdges(c.es0, u);
    j := LinkFrom(fs, e);
    PlacedIn(fs, j);
    LinkEnds(labels, fs[j], Position(fs, j), e);
    MessagesStay(c, fs, endStates);
    OffMessages(fs, c.nodes0, e);
  }

  lemma {:induction false} EverythingCanEnd(c: Compilation, fs: seq<Function>, endStates: set<string>, u: Vertex)
    requires CompiledFrom(c, fs, endStates) && Acyclic(Pairs(c.es0)) && endStates == NextStates(fs) - CurrentStates(fs)
    requires u < |c.ts0| == |c.nodes0| && Runs(c.nodes0[u].kind)
    ensures CanEnd(c, u)
  {
    hide *;
    if c.nodes0[u].kind.XFunction? {
      var j := RunsAt(c, fs, endStates, u);
      FunctionCanEnd(c, fs, endStates, j);
    } else {
      IsCondition(c.nodes0[u].kind);
      var j := BranchLeads(c, fs, endStates, u);
      FunctionCanEnd(c, fs, endStates, j);
      CanEndBefore(c, u, Position(fs, j));
    }
  }

  lemma {:induction false} IsCondition(kind: TaskType)
    requires Runs(kind) && !kind.XFunction?
    ensures kind.XCondition?
  {
  }

  lemma {:induction false} RunsAt(c: Compilation, fs: seq<Function>, endStates: set<string>, u: Vertex) returns (j: nat)
    requires CompiledFrom(c, fs, endStates) && u < |c.nodes0| && c.nodes0[u].kind.XFunction?
    ensures j < |fs| && u == Position(fs, j)
  {
    hide AllLabels, AllNodes, StateGraphOf, Position;
    assert fs[..|fs|] == fs;
    j := FunctionAt(fs, |fs|, u);
  }

  lemma {:induction false} CanEndBefore(c: Compilation, u: Vertex, v: Vertex)
    requires CanEnd(c, v) && (u, v) in Avoiding(Pairs(c.es0), Messages(c.nodes0))
    ensures CanEnd(c, u)
  {
    var F := Avoiding(Pairs(c.es0), Messages(c.nodes0));
    EdgeReaches(F, u, v);
    hide Reaches, Avoiding, Pairs, Messages;
    var g :| 0 <= g < |c.ts0| && c.ts0[g] in c.endTasks && (g == v || RunsBefore(c.nodes0, c.es0, v, g));
    if g != v {
      Transitive(F, u, v, g);
    }
  }

  // Whatever writes a variable is done before an output task of the variable.
  ghost predicate AllOutputsAfterWriters(c: Compilation, ts: seq<Task>, E: Edges) {
    forall u, x :: 0 <= u < |c.ts0| == |c.nodes0| && Runs(c.nodes0[u].kind) && x in c.nodes0[u].writeVars
                   ==> exists k :: 0 <= k < |c.outs| && k < |c.groups| && x in c.groups[k] && Ordered(ts, E, c.ts0[u], c.outs[k])
  }

  lemma {:induction false} OutputsAfterAll(c: Compilation, fs: seq<Function>, endStates: set<string>, ts: seq<Task>, E: Edges)
    requires CompiledFrom(c, fs, endStates) && Acyclic(Pairs(c.es0)) && endStates == NextStates(fs) - CurrentStates(fs)
    requires OutputsAfterWriters(c, ts, E)
    ensures AllOutputsAfterWriters(c, ts, E)
  {
    hide CompiledFrom, CanEnd, Ordered, Acyclic, Pairs, Runs, NextStates, CurrentStates;
    forall u, x | 0 <= u < |c.ts0| == |c.nodes0| && Runs(c.nodes0[u].kind) && x in c.nodes0[u].writeVars
      ensures exists k :: 0 <= k < |c.outs| && k < |c.groups| && x in c.groups[k] && Ordered(ts, E, c.ts0[u], c.outs[k])
    {
      EverythingCanEnd(c, fs, endStates, u);
    }
  }

  // ---------------------------------------------------- checking the state graph

  ghost predicate Conditioned(ts: seq<Task>, es: set<Edge>, v: Vertex)
    reads (set t | t in ts)`taskType, (set t | t in ts)`hasCondition
  {
    v < |ts| && ts[v].taskType == XState && |OutEdges(es, v)| > 1 ==>
      forall e :: e in OutEdges(es, v) && e.target < |ts| ==> ts[e.target].hasCondition
  }

  // Where a state has several functions each of them must have a condition.
  method CheckFunctionConditions(g: XGraph) returns (errors: nat)
    requires forall e :: e in g.edges ==> e.target < |g.vertex2task|
    ensures errors == 0 <==> forall v: Vertex :: v < |g.vertex2task| ==> Conditioned(g.vertex2task, g.edges, v)
  {
    var v := 0;
    while v < |g.vertex2task|
      invariant 0 <= v <= |g.vertex2task|
      invariant forall u: Vertex :: u < v ==> Conditioned(g.vertex2task, g.edges, u)
    {
      var outs := OutEdges(g.edges, v);
      if g.vertex2task[v].taskType == XState && |outs| > 1 {
        var todo := outs;
        while todo != {}
          invariant todo <= outs
          invariant forall e :: e in outs - todo ==> g.vertex2task[e.target].hasCondition
          decreases todo
        {
          var e :| e in todo;
          if !g.vertex2task[e.target].hasCondition {
            assert !Conditioned(g.vertex2task, g.edges, v);
            return 1;
          }
          todo := todo - {e};
        }
      }
      v := v + 1;
    }
    return 0;
  }

  // Functions that share their current state have conditions.
  ghost predicate BranchesHaveConditions(fs: seq<Function>) {
    forall i: nat, j: nat :: i < |fs| && j < |fs| && i != j && fs[i].currentState == fs[j].currentState ==> fs[i].condition.When?
  }

  lemma {:induction false} PositionsDiffer(fs: seq<Function>, i: nat, j: nat)
    requires i < |fs| && j < |fs| && i != j
    ensures Position(fs, i) != Position(fs, j)
  {
    hide *;
    PositionIs(fs, i);
    PositionIs(fs, j);
    if i < j {
      PlacedBelow(fs, i, j);
    } else {
      PlacedBelow(fs, j, i);
    }
  }

  lemma {:induction false} PlacedBelow(fs: seq<Function>, i: nat, j: nat)
    requires i < j <= |fs|
    ensures Position(fs, i) < |AllLabels(fs[..j])|
  {
    hide *;
    AllPlaced(fs, i, j);
    PlacedIs(AllLabels(fs[..j]), fs[i], Position(fs, i));
  }

  lemma {:induction false} TwoOf(S: set<Edge>, e: Edge) returns (d: Edge)
    requires |S| > 1 && e in S
    ensures d in S && d != e
  {
    assert |S - {e}| > 0;
    d :| d in S - {e};
  }

  lemma {:induction false} MoreThanOne(S: set<Edge>, e: Edge, d: Edge)
    requires e in S && d in S && e != d
    ensures |S| > 1
  {
    assert {e, d} <= S;
    assert S == {e, d} + (S - {e, d});
    assert |{e, d}| == 2;
  }

  // An edge out of a state is that of a function of this state.
  lemma {:induction false} OutOfState(fs: seq<Function>, v: Vertex, e: Edge) returns (j: nat)
    requires v < |AllLabels(fs)| && AllLabels(fs)[v].kind.XState? && e in OutEdges(StateGraphOf(fs), v)
    ensures j < |fs| && e == Edge(v, Position(fs, j), State) && AllLabels(fs)[v] == Label(XState, fs[j].currentState)
  {
    hide AllLabels, StateGraphOf, Position, Find, Known;
    var labels := AllLabels(fs);
    j := LinkFrom(fs, e);
    PlacedIn(fs, j);
    StateLinksOf(labels, fs[j], Position(fs, j));
  }

  lemma {:induction false} IntoFunction(fs: seq<Function>, j: nat)
    requires j < |fs|
    ensures ghost var v, labels := Find(AllLabels(fs), XState, fs[j].currentState), AllLabels(fs);
            && v < |labels| && labels[v].kind == XState && Position(fs, j) < |labels|
            && Edge(v, Position(fs, j), State) in OutEdges(StateGraphOf(fs), v)
  {
    hide AllLabels, StateGraphOf, Position, Find, Links, Known;
    PlacedIn(fs, j);
    StateLinksOf(AllLabels(fs), fs[j], Position(fs, j));
    LinkThere(fs, j, Edge(Find(AllLabels(fs), XState, fs[j].currentState), Position(fs, j), State));
  }

  lemma {:induction false} ConditionsAre(g: XGraph, fs: seq<Function>, startState: string, endStates: set<string>)
    requires IsGraphOf(g, fs, startState, endStates)
    ensures (forall v: Vertex :: v < |g.vertex2task| ==> Conditioned(g.vertex2task, g.edges, v)) <==> BranchesHaveConditions(fs)
  {
    hide AllLabels, AllNodes, StateGraphOf, Position, OutEdges, Find, AllValid, StartIs;
    var ts, es, labels := g.vertex2task, g.edges, AllLabels(fs);
    assert LabelsOf(ts) == labels;
    if forall v: Vertex :: v < |ts| ==> Conditioned(ts, es, v) {
      forall i: nat, j: nat | i < |fs| && j < |fs| && i != j && fs[i].currentState == fs[j].currentState
        ensures fs[i].condition.When?
      {
        var v := Find(labels, XState, fs[i].currentState);
        IntoFunction(fs, i);
        IntoFunction(fs, j);
        PositionsDiffer(fs, i, j);
        MoreThanOne(OutEdges(es, v), Edge(v, Position(fs, i), State), Edge(v, Position(fs, j), State));
        assert Conditioned(ts, es, v) && MarkedAt(ts, fs, i, g.endTasks, endStates);
      }
    }
    if BranchesHaveConditions(fs) {
      forall v: Vertex | v < |ts| ensures Conditioned(ts, es, v) {
        if ts[v].taskType == XState && |OutEdges(es, v)| > 1 {
          forall e | e in OutEdges(es, v) && e.target < |ts| ensures ts[e.target].hasCondition {
            var d := TwoOf(OutEdges(es, v), e);
            var i := OutOfState(fs, v, e);
            var j := OutOfState(fs, v, d);
            assert MarkedAt(ts, fs, i, g.endTasks, endStates);
          }
        }
      }
    }
  }

  // Where nothing is posted, only the states could make a cycle.
  lemma {:induction false} NoPostsNoCycle(fs: seq<Function>)
    requires Acyclic(StateEdges(fs)) && forall f :: f in fs ==> f.outputs == []
    ensures Acyclic(Pairs(StateGraphOf(fs)))
  {
    var labels, E := AllLabels(fs), Pairs(StateGraphOf(fs));
    var nodes := seq(|labels|, v requires 0 <= v < |labels| => Node(labels[v].kind, {}, {}));
    NothingIntoMessages(fs, nodes);
    hide AllLabels, StateGraphOf, Reaches, StateEdges, Pairs, Messages;
    forall v: Vertex ensures !Reaches(E, v, v) {
      if Reaches(E, v, v) {
        var l := LastEdge(E, v, v);
        assert (l, v).1 !in Messages(nodes);
        SourcesIrrelevant(E, Messages(nodes), v, v);
        var j := FunctionOnCycle(fs, nodes, v);
        RunsBeforeExactly(fs, nodes, j, j);
      }
    }
  }

  lemma {:induction false} NothingIntoMessages(fs: seq<Function>, nodes: seq<Node>)
    requires (forall f :: f in fs ==> f.outputs == []) && SameMessages(nodes, AllLabels(fs))
    ensures forall p :: p in Pairs(StateGraphOf(fs)) ==> p.1 !in Messages(nodes)
  {
    hide AllLabels, StateGraphOf, Position, Find, Known;
    forall p | p in Pairs(StateGraphOf(fs)) ensures p.1 !in Messages(nodes) {
      var e :| e in StateGraphOf(fs) && p == (e.source, e.target);
      var j := LinkFrom(fs, e);
      PlacedIn(fs, j);
      StateLinksOf(AllLabels(fs), fs[j], Position(fs, j));
    }
  }

  lemma {:induction false} FunctionOnCycle(fs: seq<Function>, nodes: seq<Node>, v: Vertex) returns (j: nat)
    requires SameMessages(nodes, AllLabels(fs)) && Reaches(Avoiding(Pairs(StateGraphOf(fs)), Messages(nodes)), v, v)
    ensures j < |fs| && RunsBefore(nodes, StateGraphOf(fs), Position(fs, j), Position(fs, j))
  {
    hide *;
    var F := Avoiding(Pairs(StateGraphOf(fs)), Messages(nodes));
    var w := FirstEdge(F, v, v);
    EdgeReaches(F, v, w);
    if w != v {
      Transitive(F, w, v, w);
    }
    j := FunctionAmong(fs, nodes, v, w);
    RunsBeforeIs(fs, nodes, j);
  }

  lemma RunsBeforeIs(fs: seq<Function>, nodes: seq<Node>, j: nat)
    requires j < |fs|
    requires Reaches(Avoiding(Pairs(StateGraphOf(fs)), Messages(nodes)), Position(fs, j), Position(fs, j))
    ensures RunsBefore(nodes, StateGraphOf(fs), Position(fs, j), Position(fs, j))
  {
    hide Reaches, Avoiding, Position, StateGraphOf;
  }

  // One end of an edge off the messages is a function.
  lemma {:induction false} FunctionAmong(fs: seq<Function>, nodes: seq<Node>, v: Vertex, w: Vertex) returns (j: nat)
    requires (v, w) in Avoiding(Pairs(StateGraphOf(fs)), Messages(nodes))
    ensures j < |fs| && (v == Position(fs, j) || w == Position(fs, j))
  {
    hide AllLabels, StateGraphOf, Position, Find, Links;
    var e :| e in StateGraphOf(fs) && (v, w) == (e.source, e.target);
    j := LinkFrom(fs, e);
    PlacedIn(fs, j);
    LinkEnds(AllLabels(fs), fs[j], Position(fs, j), e);
  }

  // Two functions in a row.
  lemma {:induction false} InARow(fs: seq<Function>, a: string, b: string, c: string)
    requires |fs| == 2 && fs[0].currentState == a && fs[0].nextState == fs[1].currentState == b && fs[1].nextState == c
    requires a != b && a != c && b != c
    ensures CurrentStates(fs) - NextStates(fs) == {a} && BranchesHaveConditions(fs)
    ensures Acyclic(StateEdges(fs)) && Reaches(StateEdges(fs), 0, 1)
  {
    assert StateEdges(fs) == {(0, 1)};
    RankedAcyclic(StateEdges(fs), map[0 := 0, 1 := 1]);
    EdgeReaches(StateEdges(fs), 0, 1);
    hide Reaches, StateEdges, Acyclic;
    assert fs[0] in fs && fs[1] in fs && forall f :: f in fs ==> f == fs[0] || f == fs[1];
  }

  // -------------------------------------------------- states and what leaves them

  // Another function leaves the state of function j.
  ghost predicate Branches(fs: seq<Function>, j: nat)
    requires j < |fs|
  {
    exists i: nat :: i < |fs| && i != j && fs[i].currentState == fs[j].currentState
  }

  function StateAt(fs: seq<Function>, j: nat): Vertex
    requires j < |fs|
  {
    Find(AllLabels(fs), XState, fs[j].currentState)
  }

  lemma {:induction false} StateThere(fs: seq<Function>, j: nat)
    requires j < |fs|
    ensures ghost var v, p := StateAt(fs, j), Position(fs, j);
            && v < |AllLabels(fs)| && AllLabels(fs)[v] == Label(XState, fs[j].currentState)
            && Edge(v, p, State) in OutEdges(StateGraphOf(fs), v)
  {
    hide AllLabels, StateGraphOf, Position, Find, Links, Known;
    IntoFunction(fs, j);
  }

  // The state branches exactly if another function leaves it.
  lemma {:induction false} BranchingExactly(fs: seq<Function>, j: nat)
    requires j < |fs|
    ensures |OutEdges(StateGraphOf(fs), StateAt(fs, j))| > 1 <==> Branches(fs, j)
  {
    hide AllLabels, StateGraphOf, Position, OutEdges;
    var v, outs := StateAt(fs, j), OutEdges(StateGraphOf(fs), StateAt(fs, j));
    StateThere(fs, j);
    var e := Edge(v, Position(fs, j), State);
    if |outs| > 1 {
      var d := TwoOf(outs, e);
      var i := OutOfState(fs, v, d);
    }
    if i: nat :| i < |fs| && i != j && fs[i].currentState == fs[j].currentState {
      StateThere(fs, i);
      PositionsDiffer(fs, i, j);
      MoreThanOne(outs, e, Edge(v, Position(fs, i), State));
    }
  }

  // A function that enters the state directly, or leads to one that does.
  lemma {:induction false} IntoState(fs: seq<Function>, nodes: seq<Node>, i: Vertex, j: Vertex)
    requires SameMessages(nodes, AllLabels(fs)) && j < |fs| && Reaches(StateEdges(fs), i, j)
    ensures i < |fs| && RunsBefore(nodes, StateGraphOf(fs), Position(fs, i), StateAt(fs, j))
  {
    hide AllLabels, StateGraphOf, Position, Reaches, SameMessages, Avoiding, Find;
    FollowersInRange(fs, i, j);
    var k := LastEdge(StateEdges(fs), i, j);
    var F := Avoiding(Pairs(StateGraphOf(fs)), Messages(nodes));
    assert (k, j).0 < |fs| && fs[k].nextState == fs[j].currentState;
    StateLinksAvoidMessages(fs, nodes, k);
    EdgeReaches(F, Position(fs, k), StateAt(fs, j));
    if k != i {
      FollowersRunLater(fs, nodes, i, k);
      Transitive(F, Position(fs, i), Position(fs, k), StateAt(fs, j));
    }
  }

  lemma {:induction false} OutOf(fs: seq<Function>, nodes: seq<Node>, j: Vertex, i: Vertex)
    requires SameMessages(nodes, AllLabels(fs)) && j < |fs| && (i == j || Reaches(StateEdges(fs), j, i))
    ensures i < |fs| && RunsBefore(nodes, StateGraphOf(fs), StateAt(fs, j), Position(fs, i))
  {
    hide AllLabels, StateGraphOf, Position, Reaches, SameMessages, Avoiding, Find, StateEdges;
    var F := Avoiding(Pairs(StateGraphOf(fs)), Messages(nodes));
    StateLinksAvoidMessages(fs, nodes, j);
    EdgeReaches(F, StateAt(fs, j), Position(fs, j));
    if i != j {
      FollowersInRange(fs, j, i);
      FollowersRunLater(fs, nodes, j, i);
      Transitive(F, StateAt(fs, j), Position(fs, j), Position(fs, i));
    }
  }

  // The agent starts in one state only, nothing goes round, and every choice is
  // decided by conditions.
  ghost predicate StatesValid(fs: seq<Function>) {
    && (exists s :: CurrentStates(fs) - NextStates(fs) == {s})
    && Acyclic(Pairs(StateGraphOf(fs)))
    && BranchesHaveConditions(fs)
  }

  // What the compiler needs of an agent that has passed.
  ghost predicate Passed(machine: XMachine, g: XGraph)
    reads machine, g, g.vertex2task
  {
    && IsGraphOf(g, machine.functions, machine.startState, machine.endStates) && g.ReadyToGenerate()
    && machine.endStates == NextStates(machine.functions) - CurrentStates(machine.functions)
    && CurrentStates(machine.functions) - NextStates(machine.functions) == {machine.startState}
  }

  lemma {:induction false} LinksInRange(fs: seq<Function>)
    ensures forall e :: e in StateGraphOf(fs) ==> e.source < |AllLabels(fs)| && e.target < |AllLabels(fs)|
    ensures InRange(Pairs(StateGraphOf(fs)), |AllLabels(fs)|)
  {
    hide AllLabels, StateGraphOf, Links, Position, Known;
    forall e | e in StateGraphOf(fs) ensures e.source < |AllLabels(fs)| && e.target < |AllLabels(fs)| {
      var j := LinkFrom(fs, e);
      PlacedIn(fs, j);
      LinkEnds(AllLabels(fs), fs[j], Position(fs, j), e);
    }
  }

  lemma {:induction false} GraphInRange(g: XGraph, fs: seq<Function>, startState: string, endStates: set<string>)
    requires IsGraphOf(g, fs, startState, endStates)
    ensures g.edges == StateGraphOf(fs) && InRange(Pairs(g.edges), |g.vertex2task|)
    ensures forall e :: e in g.edges ==> e.target < |g.vertex2task|
  {
    hide *;
    GraphIs(g, fs, startState, endStates);
    LinksInRange(fs);
    assert |g.vertex2task| == |AllLabels(fs)|;
  }

  lemma {:induction false} StartsIn(fs: seq<Function>, s: string)
    requires CurrentStates(fs) - NextStates(fs) == {s}
    ensures s in CurrentStates(fs)
  {
  }

  lemma {:induction false} HasPassed(machine: XMachine, g: XGraph)
    requires IsGraphOf(g, machine.functions, machine.startState, machine.endStates) && Acyclic(Pairs(StateGraphOf(machine.functions)))
    requires machine.endStates == NextStates(machine.functions) - CurrentStates(machine.functions)
    requires CurrentStates(machine.functions) - NextStates(machine.functions) == {machine.startState}
    ensures Passed(machine, g)
  {
    hide IsGraphOf, NextStates, CurrentStates, XGraph.ReadyToGenerate, Acyclic, StateGraphOf;
    StartsIn(machine.functions, machine.startState);
    CanBeCompiled(g, machine.functions, machine.startState, machine.endStates);
  }

  lemma NoneIsNotOne(S: set<string>)
    ensures S == {} ==> !exists s :: S == {s}
  {
    forall s | S == {s} ensures S != {} {
      assert s in S;
    }
  }

  // Builds the state graph, if there is one start state, and counts the errors.
  method ValidateAgentStateGraph(machine: XMachine, g: XGraph, hasCycle: CycleFinder) returns (errors: nat)
    requires g.vertex2task == [] && g.edges == {} && g.startTask == null && g.endTasks == {} && FindsCycles(hasCycle)
    modifies machine`startState, machine`endStates, g
    ensures errors == 0 <==> StatesValid(machine.functions)
    ensures errors == 0 ==> Passed(machine, g)
    ensures forall t :: t in g.vertex2task ==> fresh(t)
  {
    hide CurrentStates, NextStates, StateGraphOf, IsGraphOf, BranchesHaveConditions, Conditioned, Acyclic, Pairs, Passed, InRange;
    errors := 0;
    var rc := machine.FindStartEndStates();
    NoneIsNotOne(CurrentStates(machine.functions) - NextStates(machine.functions));
    if rc == 1 || rc == 2 {
      errors := errors + 1;
    } else {
      GenerateStateGraph(g, machine.functions, machine.startState, machine.endStates);
      GraphInRange(g, machine.functions, machine.startState, machine.endStates);
      if hasCycle(|g.vertex2task|, Pairs(g.edges)) {
        errors := errors + 1;
      } else {
        HasPassed(machine, g);
      }
      var rerr := CheckFunctionConditions(g);
      ConditionsAre(g, machine.functions, machine.startState, machine.endStates);
      errors := errors + rerr;
    }
  }

  // ------------------------------------------- what the result promises of functions

  ghost predicate FunctionsConflict(f: Function, g: Function) {
    exists x :: || (x in f.readWriteVariables && (x in g.readWriteVariables || x in g.readOnlyVariables))
                || (x in f.readOnlyVariables && x in g.readWriteVariables)
  }

  // One function's task leads to another's.
  ghost predicate Precedes(c: Compilation, fs: seq<Function>, i: nat, j: nat, ts: seq<Task>, E: Edges)
    requires i < |fs| && j < |fs|
  {
    && Position(fs, i) < |c.ts0| && Position(fs, j) < |c.ts0|
    && Ordered(ts, E, c.ts0[Position(fs, i)], c.ts0[Position(fs, j)])
  }

  // Functions that come one after the other and conflict are ordered that way.
  ghost predicate KeepsFunctionOrder(c: Compilation, fs: seq<Function>, ts: seq<Task>, E: Edges) {
    forall i: nat, j: nat :: i < |fs| && j < |fs| && Reaches(StateEdges(fs), i, j) && FunctionsConflict(fs[i], fs[j])
                             ==> Precedes(c, fs, i, j, ts, E)
  }

  // A function that posts a message comes before those that read it.
  ghost predicate PostsBeforeReads(c: Compilation, fs: seq<Function>, ts: seq<Task>, E: Edges) {
    forall i: nat, j: nat, m :: i < |fs| && j < |fs| && m in fs[i].outputs && m in fs[j].inputs
                                ==> Precedes(c, fs, i, j, ts, E)
  }

  // What a function writes is put out after it.
  ghost predicate WritesBeforeOutput(c: Compilation, fs: seq<Function>, ts: seq<Task>, E: Edges) {
    forall j: nat, x :: j < |fs| && x in fs[j].readWriteVariables ==> OutputAfter(c, fs, j, x, ts, E)
  }

  ghost predicate OutputAfter(c: Compilation, fs: seq<Function>, j: nat, x: string, ts: seq<Task>, E: Edges)
    requires j < |fs|
  {
    && Position(fs, j) < |c.ts0|
    && exists k :: 0 <= k < |c.outs| && k < |c.groups| && x in c.groups[k] && Ordered(ts, E, c.ts0[Position(fs, j)], c.outs[k])
  }

  // Where the task of a function stands, and what it accesses, before the passes.
  lemma {:induction false} FunctionStarts(c: Compilation, fs: seq<Function>, endStates: set<string>, j: nat)
    requires CompiledFrom(c, fs, endStates) && j < |fs|
    ensures Position(fs, j) < |c.ts0| == |c.nodes0|
    ensures c.nodes0[Position(fs, j)] == FunctionNode(fs[j])
  {
    PlacedIn(fs, j);
    NodeOfFunction(fs, j, |fs|);
    assert fs[..|fs|] == fs;
    hide AllLabels, AllNodes, StateGraphOf, Position;
    assert EndsIn(c, fs, j, endStates);
    var p := Position(fs, j);
    assert AllNodes(fs)[p].kind == AllLabels(fs)[p].kind == XFunction;
  }

  lemma {:induction false} ConflictsAre(nodes: seq<Node>, u: Vertex, v: Vertex, f: Function, g: Function)
    requires u < |nodes| && v < |nodes| && nodes[u] == FunctionNode(f) && nodes[v] == FunctionNode(g)
    ensures FunctionsConflict(f, g) ==> Conflict(nodes, u, v)
  {
    if FunctionsConflict(f, g) {
      var x :| || (x in f.readWriteVariables && (x in g.readWriteVariables || x in g.readOnlyVariables))
               || (x in f.readOnlyVariables && x in g.readWriteVariables);
      assert ConflictOn(nodes, u, v, x);
    }
  }

  lemma {:induction false} PrecedesWhere(c: Compilation, fs: seq<Function>, i: nat, j: nat, ts: seq<Task>, E: Edges)
    requires i < |fs| && j < |fs| && Position(fs, i) < |c.ts0| && Position(fs, j) < |c.ts0|
    ensures Precedes(c, fs, i, j, ts, E) <==> Ordered(ts, E, c.ts0[Position(fs, i)], c.ts0[Position(fs, j)])
  {
    hide Position, Ordered;
  }

  lemma {:induction false} ConflictKept(c: Compilation, ts: seq<Task>, E: Edges, u: Vertex, v: Vertex)
    requires KeepsConflicts(c, ts, E) && u < |c.ts0| && v < |c.ts0| && |c.ts0| == |c.nodes0|
    requires c.nodes0[u].kind.XFunction? && c.nodes0[v].kind.XFunction?
    requires RunsBefore(c.nodes0, c.es0, u, v) && Conflict(c.nodes0, u, v)
    ensures Ordered(ts, E, c.ts0[u], c.ts0[v])
  {
    hide RunsBefore, Conflict, Ordered;
  }

  lemma {:induction false} FunctionsOrdered(c: Compilation, fs: seq<Function>, endStates: set<string>, i: nat, j: nat, ts: seq<Task>, E: Edges)
    requires CompiledFrom(c, fs, endStates) && KeepsConflicts(c, ts, E) && i < |fs| && j < |fs|
    requires Reaches(StateEdges(fs), i, j) && FunctionsConflict(fs[i], fs[j])
    ensures Precedes(c, fs, i, j, ts, E)
  {
    hide *;
    FunctionStarts(c, fs, endStates, i);
    FunctionStarts(c, fs, endStates, j);
    ConflictsAre(c.nodes0, Position(fs, i), Position(fs, j), fs[i], fs[j]);
    StartsFromGraph(c, fs, endStates);
    MessagesStay(c, fs, endStates);
    FollowersRunLater(fs, c.nodes0, i, j);
    RunsIt(fs[i]);
    RunsIt(fs[j]);
    ConflictKept(c, ts, E, Position(fs, i), Position(fs, j));
    PrecedesWhere(c, fs, i, j, ts, E);
  }

  lemma {:induction false} FunctionOrderKept(c: Compilation, fs: seq<Function>, endStates: set<string>, ts: seq<Task>, E: Edges)
    requires CompiledFrom(c, fs, endStates) && KeepsConflicts(c, ts, E)
    ensures KeepsFunctionOrder(c, fs, ts, E)
  {
    hide CompiledFrom, KeepsConflicts, Reaches, FunctionsConflict, Precedes, StateEdges;
    forall i: nat, j: nat | i < |fs| && j < |fs| && Reaches(StateEdges(fs), i, j) && FunctionsConflict(fs[i], fs[j])
      ensures Precedes(c, fs, i, j, ts, E)
    {
      FunctionsOrdered(c, fs, endStates, i, j, ts, E);
    }
  }

  lemma {:induction false} StartsFromGraph(c: Compilation, fs: seq<Function>, endStates: set<string>)
    requires CompiledFrom(c, fs, endStates)
    ensures c.es0 == StateGraphOf(fs) && |c.ts0| == |c.nodes0|
  {
  }

  lemma RunsIt(f: Function)
    ensures Runs(FunctionNode(f).kind) && FunctionNode(f).kind.XFunction?
    ensures FunctionNode(f).writeVars == Names(f.readWriteVariables)
  {
  }

  lemma {:induction false} OutputOf(c: Compilation, ts: seq<Task>, E: Edges, u: Vertex, x: string) returns (k: nat)
    requires AllOutputsAfterWriters(c, ts, E) && u < |c.ts0| == |c.nodes0| && c.nodes0[u].kind.XFunction? && x in c.nodes0[u].writeVars
    ensures k < |c.outs| && k < |c.groups| && x in c.groups[k] && Ordered(ts, E, c.ts0[u], c.outs[k])
  {
    hide Ordered;
    assert Runs(c.nodes0[u].kind);
    k :| 0 <= k < |c.outs| && k < |c.groups| && x in c.groups[k] && Ordered(ts, E, c.ts0[u], c.outs[k]);
  }

  lemma {:induction false} WritesPutOut(c: Compilation, fs: seq<Function>, endStates: set<string>, ts: seq<Task>, E: Edges)
    requires CompiledFrom(c, fs, endStates) && AllOutputsAfterWriters(c, ts, E)
    ensures WritesBeforeOutput(c, fs, ts, E)
  {
    hide Position, Ordered, CompiledFrom, FunctionNode, AllOutputsAfterWriters;
    forall j: nat, x | j < |fs| && x in fs[j].readWriteVariables ensures OutputAfter(c, fs, j, x, ts, E) {
      FunctionStarts(c, fs, endStates, j);
      RunsIt(fs[j]);
      StartsFromGraph(c, fs, endStates);
      var k := OutputOf(c, ts, E, Position(fs, j), x);
    }
  }

  // The message between a poster and a reader.
  lemma {:induction false} MessageBetween(c: Compilation, fs: seq<Function>, endStates: set<string>, i: nat, m: string) returns (v: Vertex)
    requires CompiledFrom(c, fs, endStates) && i < |fs| && (m in fs[i].outputs || m in fs[i].inputs)
    ensures v == Find(AllLabels(fs), XMessage, m) && v < |c.ts0| && c.nodes0[v].kind.XMessage?
    ensures m in fs[i].outputs ==> Edge(Position(fs, i), v, Communication) in c.es0
    ensures m in fs[i].inputs ==> Edge(v, Position(fs, i), Communication) in c.es0
  {
    hide AllLabels, AllNodes, StateGraphOf, Position, Find;
    PlacedIn(fs, i);
    MessagesStay(c, fs, endStates);
    v := Find(AllLabels(fs), XMessage, m);
    assert Found(AllLabels(fs), XMessage, m);
    if m in fs[i].outputs {
      var e := Edge(Position(fs, i), v, Communication);
      assert e in OutputLinks(AllLabels(fs), fs[i].outputs, Position(fs, i));
      LinkThere(fs, i, e);
    }
    if m in fs[i].inputs {
      var e := Edge(v, Position(fs, i), Communication);
      assert e in InputLinks(AllLabels(fs), fs[i].inputs, Position(fs, i));
      LinkThere(fs, i, e);
    }
  }

  lemma {:induction false} OrderedThrough(ts: seq<Task>, E: Edges, a: Task, b: Task, c: Task)
    requires Distinct(ts) && Ordered(ts, E, a, b) && Ordered(ts, E, b, c)
    ensures Ordered(ts, E, a, c)
  {
    var i, j :| 0 <= i < |ts| && 0 <= j < |ts| && ts[i] == a && ts[j] == b && Reaches(E, i, j);
    var j', k :| 0 <= j' < |ts| && 0 <= k < |ts| && ts[j'] == b && ts[k] == c && Reaches(E, j', k);
    Transitive(E, i, j, k);
  }

  lemma {:induction false} MessageEdgeKept(c: Compilation, ts: seq<Task>, E: Edges, u: Vertex, v: Vertex)
    requires KeepsMessageEdges(c, ts, E) && |c.ts0| == |c.nodes0| && u < |c.ts0| && v < |c.ts0|
    requires Edge(u, v, Communication) in c.es0 && !c.nodes0[u].kind.XState? && !c.nodes0[v].kind.XState?
    ensures Ordered(ts, E, c.ts0[u], c.ts0[v])
  {
    hide Ordered;
    var e := Edge(u, v, Communication);
    assert Ordered(ts, E, c.ts0[e.source], c.ts0[e.target]);
  }

  lemma {:induction false} PostBeforeRead(c: Compilation, fs: seq<Function>, endStates: set<string>, i: nat, j: nat, m: string,
                                          ts: seq<Task>, E: Edges)
    requires CompiledFrom(c, fs, endStates) && KeepsMessageEdges(c, ts, E) && Distinct(ts)
    requires i < |fs| && j < |fs| && m in fs[i].outputs && m in fs[j].inputs
    ensures Precedes(c, fs, i, j, ts, E)
  {
    hide *;
    FunctionStarts(c, fs, endStates, i);
    FunctionStarts(c, fs, endStates, j);
    RunsIt(fs[i]);
    RunsIt(fs[j]);
    var v := MessageBetween(c, fs, endStates, i, m);
    var w := MessageBetween(c, fs, endStates, j, m);
    MessageEdgeKept(c, ts, E, Position(fs, i), v);
    MessageEdgeKept(c, ts, E, v, Position(fs, j));
    OrderedThrough(ts, E, c.ts0[Position(fs, i)], c.ts0[v], c.ts0[Position(fs, j)]);
    PrecedesWhere(c, fs, i, j, ts, E);
  }

  lemma {:induction false} PostsKept(c: Compilation, fs: seq<Function>, endStates: set<string>, ts: seq<Task>, E: Edges)
    requires CompiledFrom(c, fs, endStates) && KeepsMessageEdges(c, ts, E) && Distinct(ts)
    ensures PostsBeforeReads(c, fs, ts, E)
  {
    hide CompiledFrom, KeepsMessageEdges, Distinct, Precedes;
    forall i: nat, j: nat, m | i < |fs| && j < |fs| && m in fs[i].outputs && m in fs[j].inputs
      ensures Precedes(c, fs, i, j, ts, E)
    {
      PostBeforeRead(c, fs, endStates, i, j, m, ts, E);
    }
  }

  // All that a compiled agent promises of its functions.
  ghost predicate KeepsAgent(c: Compilation, fs: seq<Function>, ts: seq<Task>, E: Edges) {
    KeepsFunctionOrder(c, fs, ts, E) && PostsBeforeReads(c, fs, ts, E) && WritesBeforeOutput(c, fs, ts, E)
  }

  // Functions and messages are called what they were.
  ghost predicate NamesStay(c: Compilation, labels: seq<Label>)
    reads c.ts0
  {
    |c.ts0| == |labels| && forall v :: 0 <= v < |labels| && !labels[v].kind.XState? ==> Label(c.ts0[v].taskType, c.ts0[v].name) == labels[v]
  }

  // The start is where the one start state has led it.
  ghost predicate StartsWhere(c: Compilation, fs: seq<Function>) {
    exists s :: CurrentStates(fs) - NextStates(fs) == {s} && StartMoved(c.ts0, c.nodes0, c.es0, Find(AllLabels(fs), XState, s), c.startTask)
  }

  lemma {:induction false} FirstFunction(fs: seq<Function>, s: string) returns (j: nat)
    requires CurrentStates(fs) - NextStates(fs) == {s}
    ensures j < |fs| && fs[j].currentState == s && Find(AllLabels(fs), XState, s) == StateAt(fs, j)
  {
    hide AllLabels, Find;
    assert s in CurrentStates(fs);
    var f :| f in fs && f.currentState == s;
    j :| 0 <= j < |fs| && fs[j] == f;
  }

  // A function is come to from one that leaves the start state.
  lemma {:induction false} ComeTo(fs: seq<Function>, s: string, j: Vertex) returns (i: Vertex)
    requires CurrentStates(fs) - NextStates(fs) == {s} && Acyclic(StateEdges(fs)) && j < |fs|
    ensures i < |fs| && fs[i].currentState == s && (i == j || Reaches(StateEdges(fs), i, j))
  {
    hide StateEdges, Acyclic, Reaches;
    i := BeginsSomewhere(fs, j);
    assert fs[i].currentState in CurrentStates(fs) - NextStates(fs);
  }

  // A condition was a state, and some function leaves it.
  lemma {:induction false} StateOfCondition(c: Compilation, fs: seq<Function>, endStates: set<string>, u: Vertex) returns (j: nat)
    requires CompiledFrom(c, fs, endStates) && u < |c.nodes0| && c.nodes0[u].kind.XCondition?
    ensures j < |fs| && u == StateAt(fs, j)
  {
    AllOrdinary(fs);
    hide AllLabels, AllNodes, StateGraphOf, Position, Find;
    assert AllLabels(fs)[u].kind.XState? && IsBranching(AllNodes(fs), c.es0, u);
    var e :| e in OutEdges(c.es0, u);
    j := OutOfState(fs, u, e);
  }

  lemma {:induction false} StateStays(c: Compilation, fs: seq<Function>, endStates: set<string>, j: nat)
    requires CompiledFrom(c, fs, endStates) && j < |fs|
    ensures ghost var v := StateAt(fs, j);
            v < |c.nodes0| == |c.ts0| && c.nodes0[v].kind == if Branches(fs, j) then XCondition else XState
  {
    BranchingExactly(fs, j);
    StateThere(fs, j);
    hide AllLabels, AllNodes, StateGraphOf, Position, OutEdges, Find, Branches;
  }

  // From a start state that branches everything is come to.
  lemma {:induction false} FromCondition(c: Compilation, fs: seq<Function>, endStates: set<string>, s: string, j0: nat, u: Vertex)
    requires CompiledFrom(c, fs, endStates) && CurrentStates(fs) - NextStates(fs) == {s} && Acyclic(StateEdges(fs))
    requires j0 < |fs| && fs[j0].currentState == s && u < |c.nodes0| && Runs(c.nodes0[u].kind)
    ensures u == StateAt(fs, j0) || RunsBefore(c.nodes0, c.es0, StateAt(fs, j0), u)
  {
    hide *;
    MessagesStay(c, fs, endStates);
    StartsFromGraph(c, fs, endStates);
    if c.nodes0[u].kind.XFunction? {
      var j := RunsAt(c, fs, endStates, u);
      var i := ComeTo(fs, s, j);
      SameState(fs, i, j0);
      OutOf(fs, c.nodes0, i, j);
    } else {
      IsCondition(c.nodes0[u].kind);
      var j := StateOfCondition(c, fs, endStates, u);
      if fs[j].currentState == s {
        SameState(fs, j, j0);
      } else {
        var i := ComeTo(fs, s, j);
        SameState(fs, i, j0);
        OutOf(fs, c.nodes0, i, i);
        IntoState(fs, c.nodes0, i, j);
        RunsOn(c.nodes0, c.es0, StateAt(fs, j0), Position(fs, i), u);
      }
    }
  }

  lemma SameState(fs: seq<Function>, i: nat, j: nat)
    requires i < |fs| && j < |fs| && fs[i].currentState == fs[j].currentState
    ensures StateAt(fs, i) == StateAt(fs, j)
  {
  }

  lemma RunsOn(nodes: seq<Node>, es: set<Edge>, u: Vertex, v: Vertex, w: Vertex)
    requires RunsBefore(nodes, es, u, v) && RunsBefore(nodes, es, v, w)
    ensures RunsBefore(nodes, es, u, w)
  {
    hide Reaches, Avoiding, Pairs, Messages;
    Transitive(Avoiding(Pairs(es), Messages(nodes)), u, v, w);
  }

  // Behind one that does not, everything is come to from its one function.
  lemma {:induction false} FromFunction(c: Compilation, fs: seq<Function>, endStates: set<string>, s: string, j0: nat, u: Vertex)
    requires CompiledFrom(c, fs, endStates) && CurrentStates(fs) - NextStates(fs) == {s} && Acyclic(StateEdges(fs))
    requires j0 < |fs| && fs[j0].currentState == s && !Branches(fs, j0) && u < |c.nodes0| && Runs(c.nodes0[u].kind)
    ensures u == Position(fs, j0) || RunsBefore(c.nodes0, c.es0, Position(fs, j0), u)
  {
    hide *;
    MessagesStay(c, fs, endStates);
    StartsFromGraph(c, fs, endStates);
    if c.nodes0[u].kind.XFunction? {
      var j := RunsAt(c, fs, endStates, u);
      var i := ComeTo(fs, s, j);
      OnlyOne(fs, j0, i);
      if i != j { FollowersRunLater(fs, c.nodes0, j0, j); }
    } else {
      IsCondition(c.nodes0[u].kind);
      var j := StateOfCondition(c, fs, endStates, u);
      var i := ComeTo(fs, s, j);
      OnlyOne(fs, j0, i);
      if i == j {
        StateStays(c, fs, endStates, j);
      } else {
        IntoState(fs, c.nodes0, j0, j);
      }
    }
  }

  lemma OnlyOne(fs: seq<Function>, j: nat, i: nat)
    requires j < |fs| && i < |fs| && !Branches(fs, j) && fs[i].currentState == fs[j].currentState
    ensures i == j
  {
  }

  // Where the agent starts.
  lemma {:induction false} StartVertex(c: Compilation, fs: seq<Function>, endStates: set<string>) returns (v: Vertex)
    requires c.Valid() && CompiledFrom(c, fs, endStates) && StartsWhere(c, fs) && endStates == NextStates(fs) - CurrentStates(fs)
    ensures StartsFrom(c, v)
  {
    hide *;
    ValidParts(c);
    StateGraphAcyclic(c);
    StartsFromGraph(c, fs, endStates);
    NoCyclicStates(fs);
    var s := StartState(c, fs);
    var j0 := FirstFunction(fs, s);
    StateStays(c, fs, endStates, j0);
    if Branches(fs, j0) {
      v := StateAt(fs, j0);
      ConditionRuns(c.nodes0[v].kind);
      StartStays(c, v);
      forall u: Vertex | u < |c.nodes0| && Runs(c.nodes0[u].kind) ensures u == v || RunsBefore(c.nodes0, c.es0, v, u) {
        FromCondition(c, fs, endStates, s, j0, u);
      }
    } else {
      var e := StartGoesOn(c, StateAt(fs, j0));
      var j := StateLeft(fs, j0, e);
      OnlyOne(fs, j0, j);
      v := Position(fs, j0);
      FunctionStarts(c, fs, endStates, j0);
      RunsIt(fs[j0]);
      forall u: Vertex | u < |c.nodes0| && Runs(c.nodes0[u].kind) ensures u == v || RunsBefore(c.nodes0, c.es0, v, u) {
        FromFunction(c, fs, endStates, s, j0, u);
      }
    }
    EverythingCanEnd(c, fs, endStates, v);
    IsStartOf(c, v);
  }

  lemma StateGraphAcyclic(c: Compilation)
    requires c.StartsWell()
    ensures Acyclic(Pairs(c.es0)) && |c.ts0| == |c.nodes0|
  {
    hide Acyclic, Pairs, InRange, Distinct, StateGraphKinds, MessagesLeadToRuns;
  }

  lemma StartState(c: Compilation, fs: seq<Function>) returns (s: string)
    requires StartsWhere(c, fs)
    ensures CurrentStates(fs) - NextStates(fs) == {s} && StartMoved(c.ts0, c.nodes0, c.es0, Find(AllLabels(fs), XState, s), c.startTask)
  {
    hide CurrentStates, NextStates, StartMoved, Find, AllLabels;
    s :| CurrentStates(fs) - NextStates(fs) == {s} && StartMoved(c.ts0, c.nodes0, c.es0, Find(AllLabels(fs), XState, s), c.startTask);
  }

  lemma ConditionRuns(kind: TaskType)
    requires kind == XCondition
    ensures Runs(kind) && kind != XState
  {
  }

  lemma StartStays(c: Compilation, v: Vertex)
    requires StartMoved(c.ts0, c.nodes0, c.es0, v, c.startTask) && c.nodes0[v].kind != XState
    ensures c.startTask == c.ts0[v]
  {
  }

  lemma StartGoesOn(c: Compilation, v: Vertex) returns (e: Edge)
    requires StartMoved(c.ts0, c.nodes0, c.es0, v, c.startTask) && c.nodes0[v].kind == XState
    ensures e in OutEdges(c.es0, v) && e.target < |c.ts0| && c.startTask == c.ts0[e.target]
  {
    hide OutEdges;
    e :| e in OutEdges(c.es0, v) && e.target < |c.ts0| && c.startTask == c.ts0[e.target];
  }

  lemma {:induction false} StateLeft(fs: seq<Function>, j0: nat, e: Edge) returns (j: nat)
    requires j0 < |fs| && e in OutEdges(StateGraphOf(fs), StateAt(fs, j0))
    ensures j < |fs| && fs[j].currentState == fs[j0].currentState && e.target == Position(fs, j)
  {
    hide AllLabels, StateGraphOf, Position, OutEdges, Find;
    StateThere(fs, j0);
    j := OutOfState(fs, StateAt(fs, j0), e);
  }

  lemma IsStartOf(c: Compilation, v: Vertex)
    requires v < |c.ts0| == |c.nodes0| && Runs(c.nodes0[v].kind) && c.startTask == c.ts0[v] && CanEnd(c, v)
    requires forall u: Vertex :: u < |c.nodes0| && Runs(c.nodes0[u].kind) ==> u == v || RunsBefore(c.nodes0, c.es0, v, u)
    ensures StartsFrom(c, v)
  {
    hide RunsBefore, CanEnd;
  }

  // The agent is what compiling the functions has come to.
  ghost predicate IsCompiled(c: Compilation, fs: seq<Function>, endStates: set<string>, a: Agent)
    reads a.tasks, c.ts0, c.ts3, c.outs
  {
    && c.Valid() && CompiledFrom(c, fs, endStates) && StartsWhere(c, fs) && NamesStay(c, AllLabels(fs)) && NodesOf(c.ts3) == c.nodes3
    && endStates == NextStates(fs) - CurrentStates(fs)
    && IsReduced(c, a.tasks, Pairs(a.edges)) && WriteGroups(c.outs, c.groups) && AgentValid(a)
    && KeepsConflicts(c, a.tasks, Pairs(a.edges)) && AllOutputsAfterWriters(c, a.tasks, Pairs(a.edges))
    && KeepsMessageEdges(c, a.tasks, Pairs(a.edges)) && KeepsAgent(c, fs, a.tasks, Pairs(a.edges))
  }

  // What the functions force on the tasks of the agent: messages between them, and conflicts
  // in an order that the states fix.
  ghost function ForcedBy(fs: seq<Function>, variables: set<string>): Edges {
    Forced(AfterTransform(AllNodes(fs), StateGraphOf(fs), variables), StateGraphOf(fs))
  }

  // Of two functions, one comes before the other exactly if it is forced to, directly or
  // through other functions, conditions and messages.
  ghost predicate OrderedAsForced(c: Compilation, fs: seq<Function>, variables: set<string>, ts: seq<Task>, E: Edges) {
    forall i: nat, j: nat :: i < |fs| && j < |fs| ==>
      (Precedes(c, fs, i, j, ts, E) <==> Reaches(ForcedBy(fs, variables), Position(fs, i), Position(fs, j)))
  }

  lemma {:induction false} LinksApart(fs: seq<Function>, nodes: seq<Node>)
    requires |nodes| == |AllLabels(fs)| && SameMessages(nodes, AllLabels(fs))
    requires forall v :: 0 <= v < |nodes| && nodes[v].kind.XState? ==> AllLabels(fs)[v].kind.XState?
    ensures StatesApart(nodes, StateGraphOf(fs))
  {
    hide AllLabels, StateGraphOf, Position, Links, Find, Known;
    forall e | e in StateGraphOf(fs) && e.kind != State
      ensures e.source < |nodes| && e.target < |nodes| && !nodes[e.source].kind.XState? && !nodes[e.target].kind.XState?
    {
      var j := LinkFrom(fs, e);
      PlacedIn(fs, j);
      LinkEnds(AllLabels(fs), fs[j], Position(fs, j), e);
    }
  }

  lemma {:induction false} CompiledApart(c: Compilation, fs: seq<Function>, endStates: set<string>)
    requires CompiledFrom(c, fs, endStates)
    ensures StatesApart(c.nodes0, c.es0) && Forced(c.nodes0, c.es0) == ForcedBy(fs, c.variables)
  {
    hide AllLabels, AllNodes, StateGraphOf, Forced, StatesApart;
    MessagesStay(c, fs, endStates);
    LinksApart(fs, c.nodes0);
  }

  lemma {:induction false} FunctionSurvives(c: Compilation, fs: seq<Function>, endStates: set<string>, j: nat)
    requires CompiledFrom(c, fs, endStates) && j < |fs|
    ensures Survives(c, Position(fs, j))
  {
    hide *;
    FunctionStarts(c, fs, endStates, j);
    RunsIt(fs[j]);
    StartsFromGraph(c, fs, endStates);
    RunsSurvives(c, Position(fs, j));
  }

  lemma {:induction false} AgentOrderExact(c: Compilation, fs: seq<Function>, endStates: set<string>, a: Agent)
    requires IsCompiled(c, fs, endStates, a)
    ensures OrderedAsForced(c, fs, c.variables, a.tasks, Pairs(a.edges))
  {
    hide *;
    CompiledParts(c, fs, endStates, a);
    CompiledApart(c, fs, endStates);
    forall i: nat, j: nat | i < |fs| && j < |fs|
      ensures Precedes(c, fs, i, j, a.tasks, Pairs(a.edges)) <==> Reaches(ForcedBy(fs, c.variables), Position(fs, i), Position(fs, j))
    {
      FunctionSurvives(c, fs, endStates, i);
      FunctionSurvives(c, fs, endStates, j);
      SurvivesIs(c, Position(fs, i));
      SurvivesIs(c, Position(fs, j));
      CompiledOrderExact(c, a.tasks, Pairs(a.edges), Position(fs, i), Position(fs, j));
      PrecedesWhere(c, fs, i, j, a.tasks, Pairs(a.edges));
    }
    AsForced(c, fs, c.variables, a.tasks, Pairs(a.edges));
  }

  lemma {:induction false} AsForced(c: Compilation, fs: seq<Function>, variables: set<string>, ts: seq<Task>, E: Edges)
    requires forall i: nat, j: nat :: i < |fs| && j < |fs| ==>
               (Precedes(c, fs, i, j, ts, E) <==> Reaches(ForcedBy(fs, variables), Position(fs, i), Position(fs, j)))
    ensures OrderedAsForced(c, fs, variables, ts, E)
  {
    hide Precedes, Position, Reaches, ForcedBy;
  }

  lemma {:induction false} CompiledParts(c: Compilation, fs: seq<Function>, endStates: set<string>, a: Agent)
    requires IsCompiled(c, fs, endStates, a)
    ensures c.Valid() && CompiledFrom(c, fs, endStates) && IsReduced(c, a.tasks, Pairs(a.edges)) && Distinct(a.tasks)
    ensures StartsWhere(c, fs) && endStates == NextStates(fs) - CurrentStates(fs) && NodesOf(c.ts3) == c.nodes3 && WriteGroups(c.outs, c.groups)
  {
    hide Compilation.Valid, CompiledFrom, StartsWhere, NextStates, CurrentStates, NamesStay, IsReduced, WriteGroups, KeepsConflicts, AllOutputsAfterWriters, KeepsMessageEdges, KeepsAgent,
      AgentReady, Pairs;
  }

  // The start task of a compiled agent comes before whatever accesses one of its variables,
  // and each of these is put out once.
  lemma {:induction false} AgentHasEnds(c: Compilation, fs: seq<Function>, endStates: set<string>, a: Agent)
    requires IsCompiled(c, fs, endStates, a)
    ensures HasEnds(c, a.tasks, Pairs(a.edges))
  {
    hide *;
    CompiledParts(c, fs, endStates, a);
    var v := StartVertex(c, fs, endStates);
    EndsHold(c, a.tasks, Pairs(a.edges), v);
  }

  // A function that accesses a variable of the agent comes after the start task.
  lemma {:induction false} FunctionsAfterStart(c: Compilation, fs: seq<Function>, endStates: set<string>, start: Task, ts: seq<Task>, E: Edges,
                                               j: nat, x: string)
    requires CompiledFrom(c, fs, endStates) && StartsFirst(c, start, ts, E) && j < |fs| && x in c.variables
    requires x in fs[j].readOnlyVariables || x in fs[j].readWriteVariables
    ensures Position(fs, j) < |c.ts0| && Ordered(ts, E, start, c.ts0[Position(fs, j)])
  {
    hide CompiledFrom, Position, Ordered;
    FunctionStarts(c, fs, endStates, j);
    assert x in Names(fs[j].readOnlyVariables) + Names(fs[j].readWriteVariables);
  }

  // What no function writes, nothing writes, unless conditions count as writing it.
  lemma {:induction false} UnwrittenByFunctions(c: Compilation, fs: seq<Function>, endStates: set<string>, x: string)
    requires CompiledFrom(c, fs, endStates)
    requires forall j: nat :: j < |fs| ==> x !in fs[j].readWriteVariables && !Branches(fs, j)
    ensures Unwritten(c, x)
  {
    hide *;
    forall u: Vertex | u < |c.nodes0| && Runs(c.nodes0[u].kind) ensures x !in c.nodes0[u].writeVars {
      if c.nodes0[u].kind.XFunction? {
        var j := RunsAt(c, fs, endStates, u);
        FunctionStarts(c, fs, endStates, j);
        WritesOf(fs[j], x);
      } else {
        IsCondition(c.nodes0[u].kind);
        var j := StateOfCondition(c, fs, endStates, u);
        StateStays(c, fs, endStates, j);
      }
    }
    IsUnwritten(c, x);
  }

  lemma WritesOf(f: Function, x: string)
    ensures x in FunctionNode(f).writeVars <==> x in f.readWriteVariables
  {
  }

  lemma IsUnwritten(c: Compilation, x: string)
    requires forall u: Vertex :: u < |c.nodes0| && Runs(c.nodes0[u].kind) ==> x !in c.nodes0[u].writeVars
    ensures Unwritten(c, x)
  {
  }

  // Checks an agent and compiles it if there are no errors.
  method CompileAgent(machine: XMachine, g: XGraph, variables: seq<string>, hasCycle: CycleFinder, sort: Sorter, reduce: Reducer)
    returns (errors: nat, ghost c: Compilation)
    requires g.vertex2task == [] && g.edges == {} && g.startTask == null && g.endTasks == {}
    requires FindsCycles(hasCycle) && SortsTopologically(sort) && ReducesTransitively(reduce)
    modifies machine`startState, machine`endStates, g
    ensures errors == 0 <==> StatesValid(machine.functions)
    ensures errors == 0 ==> IsCompiled(c, machine.functions, machine.endStates, Agent(g.vertex2task, g.edges)) && c.variables == Names(variables)
    ensures errors == 0 ==> Acyclic(Pairs(g.edges))
    ensures errors == 0 ==> OrderedAsForced(c, machine.functions, Names(variables), g.vertex2task, Pairs(g.edges))
    ensures errors == 0 ==> HasEnds(c, g.vertex2task, Pairs(g.edges))
    ensures forall t :: t in g.vertex2task ==> fresh(t)
  {
    hide *;
    errors := ValidateAgentStateGraph(machine, g, hasCycle);
    if errors == 0 {
      c := CompilePassed(machine, g, variables, sort, reduce);
      AgentHasEnds(c, machine.functions, machine.endStates, Agent(g.vertex2task, g.edges));
      AgentOrderExact(c, machine.functions, machine.endStates, Agent(g.vertex2task, g.edges));
    } else {
      c := NoCompilation();
    }
  }

  ghost predicate EndsWhere(ts: seq<Task>, endTasks: set<Task>, fs: seq<Function>, endStates: set<string>) {
    forall j: nat :: j < |fs| ==> Position(fs, j) < |ts| && (ts[Position(fs, j)] in endTasks <==> fs[j].nextState in endStates)
  }

  lemma {:induction false} EndsAre(ts: seq<Task>, fs: seq<Function>, endTasks: set<Task>, endStates: set<string>)
    requires Marked(ts, fs, endTasks, endStates)
    ensures EndsWhere(ts, endTasks, fs, endStates)
  {
    hide Position;
    forall j: nat | j < |fs| ensures Position(fs, j) < |ts| && (ts[Position(fs, j)] in endTasks <==> fs[j].nextState in endStates) {
      assert MarkedAt(ts, fs, j, endTasks, endStates);
    }
  }

  lemma {:induction false} PassedParts(machine: XMachine, g: XGraph)
    requires Passed(machine, g)
    ensures IsGraphOf(g, machine.functions, machine.startState, machine.endStates) && g.ReadyToGenerate()
    ensures machine.endStates == NextStates(machine.functions) - CurrentStates(machine.functions)
    ensures Acyclic(Pairs(g.edges))
    ensures CurrentStates(machine.functions) - NextStates(machine.functions) == {machine.startState}
  {
    assert IsStateGraph(NodesOf(g.vertex2task), g.edges);
    hide IsGraphOf, NextStates, CurrentStates, Pairs, Acyclic;
  }

  lemma {:induction false} KindsAgree(ts: seq<Task>, labels: seq<Label>, nodes: seq<Node>)
    requires LabelsOf(ts) == labels && NodesOf(ts) == nodes
    ensures |labels| == |nodes| == |ts| && forall v :: 0 <= v < |ts| ==> nodes[v].kind == labels[v].kind
  {
  }

  lemma {:induction false} PassedMeans(machine: XMachine, g: XGraph)
    requires Passed(machine, g)
    ensures g.ReadyToGenerate() && |g.vertex2task| == |AllLabels(machine.functions)|
    ensures NodesOf(g.vertex2task) == AllNodes(machine.functions) && g.edges == StateGraphOf(machine.functions)
    ensures LabelsOf(g.vertex2task) == AllLabels(machine.functions)
    ensures forall v :: 0 <= v < |g.vertex2task| ==> AllNodes(machine.functions)[v].kind == AllLabels(machine.functions)[v].kind
    ensures EndsWhere(g.vertex2task, g.endTasks, machine.functions, machine.endStates)
    ensures machine.endStates == NextStates(machine.functions) - CurrentStates(machine.functions)
    ensures Acyclic(Pairs(StateGraphOf(machine.functions)))
    ensures CurrentStates(machine.functions) - NextStates(machine.functions) == {machine.startState}
    ensures GetVertex(g.vertex2task, g.startTask) == Find(AllLabels(machine.functions), XState, machine.startState)
  {
    hide *;
    PassedParts(machine, g);
    GraphIs(g, machine.functions, machine.startState, machine.endStates);
    KindsAgree(g.vertex2task, AllLabels(machine.functions), AllNodes(machine.functions));
    StartAt(g.vertex2task, machine.functions, g.startTask, machine.startState);
    EndsAre(g.vertex2task, machine.functions, g.endTasks, machine.endStates);
  }

  lemma {:induction false} StartAt(ts: seq<Task>, fs: seq<Function>, start: Task?, s: string)
    requires StartIs(ts, AllLabels(fs), start, s) && LabelsOf(ts) == AllLabels(fs) && AllValid(ts)
    requires CurrentStates(fs) - NextStates(fs) == {s}
    ensures GetVertex(ts, start) == Find(AllLabels(fs), XState, s)
  {
    hide StartIs, AllLabels, AllValid, GetVertex, Find, StateAt;
    var j := FirstFunction(fs, s);
    StateThere(fs, j);
    StartThere(ts, AllLabels(fs), start, s);
  }

  lemma {:induction false} CompiledFromIs(c: Compilation, fs: seq<Function>, endStates: set<string>)
    requires |c.ts0| == |AllLabels(fs)| && c.es0 == StateGraphOf(fs)
    requires c.nodes0 == AfterTransform(AllNodes(fs), c.es0, c.variables)
    requires forall v :: 0 <= v < |c.ts0| ==> AllNodes(fs)[v].kind == AllLabels(fs)[v].kind
    requires EndsWhere(c.ts0, c.endTasks, fs, endStates)
    ensures CompiledFrom(c, fs, endStates)
  {
    hide AllLabels, AllNodes, StateGraphOf, Position;
  }

  lemma {:induction false} PromisesKept(c: Compilation, fs: seq<Function>, endStates: set<string>, ts: seq<Task>, es: set<Edge>)
    requires c.Valid() && CompiledFrom(c, fs, endStates) && Acyclic(Pairs(c.es0)) && endStates == NextStates(fs) - CurrentStates(fs)
    requires NodesOf(c.ts3) == c.nodes3 && WriteGroups(c.outs, c.groups) && IsReduced(c, ts, Pairs(es)) && AllValid(ts)
    requires KeepsConflicts(c, ts, Pairs(es)) && OutputsAfterWriters(c, ts, Pairs(es)) && KeepsMessageEdges(c, ts, Pairs(es))
    ensures AllOutputsAfterWriters(c, ts, Pairs(es)) && KeepsAgent(c, fs, ts, Pairs(es)) && AgentValid(Agent(ts, es))
  {
    assert Distinct(ts);
    hide *;
    OutputsAfterAll(c, fs, endStates, ts, Pairs(es));
    FunctionOrderKept(c, fs, endStates, ts, Pairs(es));
    PostsKept(c, fs, endStates, ts, Pairs(es));
    WritesPutOut(c, fs, endStates, ts, Pairs(es));
    KeepsAgentIs(c, fs, ts, Pairs(es));
    GeneratedIsReady(c, ts, es);
  }

  lemma KeepsAgentIs(c: Compilation, fs: seq<Function>, ts: seq<Task>, E: Edges)
    requires KeepsFunctionOrder(c, fs, ts, E) && PostsBeforeReads(c, fs, ts, E) && WritesBeforeOutput(c, fs, ts, E)
    ensures KeepsAgent(c, fs, ts, E)
  {
    hide KeepsFunctionOrder, PostsBeforeReads, WritesBeforeOutput;
  }

  function NoCompilation(): Compilation {
    Compilation({}, null, {}, [], [], {}, [], [], {}, map[], [], [], [], {})
  }

  // A task that was no state has the type it had.
  lemma {:induction false} TypeStays(c: Compilation, v: Vertex)
    requires c.Valid() && NodesOf(c.ts3) == c.nodes3 && v < |c.ts0| == |c.nodes0| && !c.nodes0[v].kind.XState?
    ensures c.ts0[v].taskType == c.nodes0[v].kind
  {
    ValidParts(c);
    IndicesAscending(c.nodes0, XState);
    hide Pairs, IndicesOf, Rank, Compilation.Valid, Compilation.Outputs, Compilation.Contracts, Compilation.StartsWell;
    StageSizes(c);
    assert c.nodes3[c.At3(v)] == c.ts3[c.At3(v)].AsNode();
  }

  lemma {:induction false} NamesHaveStayed(c: Compilation, fs: seq<Function>, endStates: set<string>, names: seq<string>)
    requires c.Valid() && CompiledFrom(c, fs, endStates) && NodesOf(c.ts3) == c.nodes3
    requires |names| == |c.ts0| && forall v :: 0 <= v < |names| ==> names[v] == AllLabels(fs)[v].name
    requires forall v :: 0 <= v < |names| ==> c.ts0[v].taskType == XCondition || c.ts0[v].name == names[v]
    ensures NamesStay(c, AllLabels(fs))
  {
    var labels := AllLabels(fs);
    hide AllLabels, AllNodes, StateGraphOf, Compilation.Valid, EndsIn;
    forall v | 0 <= v < |labels| && !labels[v].kind.XState? ensures Label(c.ts0[v].taskType, c.ts0[v].name) == labels[v] {
      assert AllNodes(fs)[v].kind == labels[v].kind;
      assert c.nodes0[v] == AllNodes(fs)[v];
      TypeStays(c, v);
      NoConditionYet(fs, v);
    }
  }

  lemma {:induction false} NoConditionYet(fs: seq<Function>, v: Vertex)
    requires v < |AllLabels(fs)|
    ensures !AllLabels(fs)[v].kind.XCondition?
  {
    AllOrdinary(fs);
    hide AllLabels, Find;
  }

  ghost function NamesOf(ts: seq<Task>): (names: seq<string>)
    reads ts
    ensures |names| == |ts| && forall i :: 0 <= i < |ts| ==> names[i] == ts[i].name
  {
    seq(|ts|, i requires 0 <= i < |ts| reads ts => ts[i].name)
  }

  lemma {:induction false} NamesAre(g: XGraph, fs: seq<Function>)
    requires LabelsOf(g.vertex2task) == AllLabels(fs)
    ensures |NamesOf(g.vertex2task)| == |AllLabels(fs)|
    ensures forall v :: 0 <= v < |AllLabels(fs)| ==> NamesOf(g.vertex2task)[v] == AllLabels(fs)[v].name
  {
    hide AllLabels;
  }

  lemma {:induction false} IsCompiledNow(c: Compilation, fs: seq<Function>, endStates: set<string>, ts: seq<Task>, es: set<Edge>)
    requires StartsWhere(c, fs) && endStates == NextStates(fs) - CurrentStates(fs)
    requires c.Valid() && CompiledFrom(c, fs, endStates) && NamesStay(c, AllLabels(fs)) && NodesOf(c.ts3) == c.nodes3
    requires IsReduced(c, ts, Pairs(es)) && WriteGroups(c.outs, c.groups) && AgentValid(Agent(ts, es))
    requires KeepsConflicts(c, ts, Pairs(es)) && AllOutputsAfterWriters(c, ts, Pairs(es))
    requires KeepsMessageEdges(c, ts, Pairs(es)) && KeepsAgent(c, fs, ts, Pairs(es))
    ensures IsCompiled(c, fs, endStates, Agent(ts, es))
  {
    hide Compilation.Valid, CompiledFrom, StartsWhere, NextStates, CurrentStates, NamesStay, IsReduced, WriteGroups, AgentValid, KeepsConflicts, AllOutputsAfterWriters, KeepsMessageEdges, KeepsAgent;
  }

  method CompilePassed(machine: XMachine, g: XGraph, variables: seq<string>, sort: Sorter, reduce: Reducer) returns (ghost c: Compilation)
    requires Passed(machine, g) && SortsTopologically(sort) && ReducesTransitively(reduce)
    modifies g, set t | t in g.vertex2task
    ensures IsCompiled(c, machine.functions, machine.endStates, Agent(g.vertex2task, g.edges)) && c.variables == Names(variables)
    ensures Acyclic(Pairs(g.edges))
    ensures forall t :: t in g.vertex2task ==> t in old(g.vertex2task) || fresh(t)
  {
    hide *;
    ghost var fs, ends, names := machine.functions, machine.endStates, NamesOf(g.vertex2task);
    PassedMeans(machine, g);
    NamesAre(g, fs);
    c := g.GenerateDependencyGraph(variables, sort, reduce);
    CompiledFromIs(c, fs, ends);
    NamesHaveStayed(c, fs, ends, names);
    IsStartsWhere(c, fs, machine.startState);
    ValidTasks(g);
    PromisesKept(c, fs, ends, g.vertex2task, g.edges);
    IsCompiledNow(c, fs, ends, g.vertex2task, g.edges);
  }

  lemma {:induction false} IsStartsWhere(c: Compilation, fs: seq<Function>, s: string)
    requires CurrentStates(fs) - NextStates(fs) == {s} && StartMoved(c.ts0, c.nodes0, c.es0, Find(AllLabels(fs), XState, s), c.startTask)
    ensures StartsWhere(c, fs)
  {
    hide CurrentStates, NextStates, StartMoved, Find, AllLabels;
  }
}
