/** The order in a compiled agent, exactly: what its conflicts and messages force, and
    nothing beyond that. */
module ForcedOrder {
  import opened Digraph
  import opened DataFlow
  import opened TaskGraph
  import opened Tasks
  import opened AgentGraph
  import opened ModelXGraph
  import opened CompiledAgents

  // The state graph has v wait for u: a message between them, or a conflict in an order
  // that the states fix.
  ghost predicate Forces(nodes: seq<Node>, es: set<Edge>, u: Vertex, v: Vertex) {
    && u < |nodes| && v < |nodes|
    && (|| (exists e :: e in es && e.kind != State && e.source == u && e.target == v)
        || (Runs(nodes[u].kind) && Runs(nodes[v].kind) && RunsBefore(nodes, es, u, v) && Conflict(nodes, u, v)))
  }

  ghost function Forced(nodes: seq<Node>, es: set<Edge>): Edges {
    set u: Vertex, v: Vertex | u < |nodes| && v < |nodes| && Forces(nodes, es, u, v) :: (u, v)
  }

  // States are joined by edges of their own kind only.
  ghost predicate StatesApart(nodes: seq<Node>, es: set<Edge>) {
    forall e :: e in es && e.kind != State ==>
      e.source < |nodes| && e.target < |nodes| && !nodes[e.source].kind.XState? && !nodes[e.target].kind.XState?
  }

  // A task of the state graph that is not contracted.
  ghost predicate Survives(c: Compilation, u: Vertex) {
    u < |c.ts0| == |c.nodes0| && !c.nodes0[u].kind.XState?
  }

  lemma {:induction false} ForcedSurvive(c: Compilation, u: Vertex, v: Vertex)
    requires |c.ts0| == |c.nodes0| && StatesApart(c.nodes0, c.es0) && (u, v) in Forced(c.nodes0, c.es0)
    ensures Survives(c, u) && Survives(c, v) && Forces(c.nodes0, c.es0, u, v)
  {
    hide RunsBefore, Conflict;
  }

  lemma {:induction false} IsForced(nodes: seq<Node>, es: set<Edge>, u: Vertex, v: Vertex)
    requires Forces(nodes, es, u, v)
    ensures (u, v) in Forced(nodes, es)
  {
    hide RunsBefore, Conflict;
  }

  // ------------------------------------------------------- where the survivors stand

  // The start task is the last but one.
  function Start3(c: Compilation): Vertex { if |c.ts3| < 2 then 0 else |c.ts3| - 2 }

  lemma {:induction false} SurvivorAt(c: Compilation, u: Vertex)
    requires c.StartsWell() && c.Contracts() && Survives(c, u)
    ensures u !in c.Gone() && |c.ts3| == |c.nodes3| >= 2 && c.End() == |c.ts3| - 1
    ensures c.At3(u) < Start3(c) && c.ts3[c.At3(u)] == c.ts0[u] && c.nodes3[c.At3(u)] == c.nodes0[u]
  {
    hide Compilation.StartsWell, Compilation.Contracts, Elements, IndicesOf, Rank;
    IndicesAscending(c.nodes0, XState);
    StageSizes(c);
    ElementsOf(c.States(), u);
  }

  lemma {:induction false} SurvivorFrom(c: Compilation, i: Vertex) returns (u: Vertex)
    requires c.StartsWell() && c.Contracts() && i < Start3(c)
    ensures Survives(c, u) && i == c.At3(u)
  {
    hide Compilation.StartsWell, Compilation.Contracts, Elements, IndicesOf, Rank;
    OldOnesFirst(c);
    u := RankOnto(c.Gone(), |c.nodes0|, i);
    IndicesAscending(c.nodes0, XState);
    ElementsOf(c.States(), u);
  }

  // ------------------------------------------------- from the contracted graph back

  // An edge of the graph with start and end stems from a bypassed edge, or is the start's
  // or the end's.
  lemma {:induction false} EdgeBefore(c: Compilation, d: Edge) returns (b: Edge)
    requires c.StartsWell() && c.Contracts() && d in c.es3
    requires d.source != Start3(c) && d.target != c.End()
    ensures b in WithBypasses(c.es0, c.States(), State) && b.source !in c.Gone() && b.target !in c.Gone()
    ensures b.source < |c.nodes0| && b.target < |c.nodes0|
    ensures d == Edge(c.At3(b.source), c.At3(b.target), b.kind)
  {
    hide Pairs, Acyclic, WithBypasses, Rank, IndicesOf, Kept, Distinct, StateGraphKinds, MessagesLeadToRuns, WithEnds, BypassAll;
    var ts2 := Kept(c.ts0, c.Gone());
    assert d !in StartEdges(ts2, c.startTask, |ts2|) && d !in EndEdges(ts2, c.endTasks, |ts2| + 1);
    b :| b in WithBypasses(c.es0, c.States(), State) && b.source !in c.Gone() && b.target !in c.Gone() && d == Moved(c.Gone(), b);
    PairsWithBypasses(c.es0, c.States(), State);
    PairsOf(WithBypasses(c.es0, c.States(), State), b);
    BypassedInRange(c.es0, c.States(), |c.nodes0|, (b.source, b.target));
  }

  // Nothing leads to the start, and nothing leads on from the end.
  lemma {:induction false} EndsOfThree(c: Compilation, p: (Vertex, Vertex))
    requires c.StartsWell() && c.Contracts() && p in Pairs(c.es3)
    ensures p.0 < |c.ts3| && p.1 < |c.ts3| && p.1 != Start3(c) && p.0 != c.End()
  {
    hide Compilation.StartsWell;
    OldOnesFirst(c);
    StageSizes(c);
    hide Rank, Contracted;
    EndLeadsNowhere(c, p);
  }

  lemma {:induction false} EndLeadsNowhere(c: Compilation, p: (Vertex, Vertex))
    requires c.StartsWell() && c.Contracts() && p in Pairs(c.es3)
    ensures p.0 != c.End()
  {
    hide Acyclic, Contracted, IndicesOf, Kept, StateGraphKinds, MessagesLeadToRuns, WithEnds;
    var ts2 := Kept(c.ts0, c.Gone());
    IndicesAscending(c.nodes0, XState);
    ContractedValid(c.ts0, c.es0, c.States(), State);
    var d :| d in c.es3 && p == (d.source, d.target);
    if d in Contracted(c.es0, c.States(), State) {
      PairsOf(Contracted(c.es0, c.States(), State), d);
    }
  }

  // The edges of the state graph off the messages, with the states bypassed.
  ghost function Bypassed(c: Compilation): Edges {
    Avoiding(Avoiding(BypassAll(Pairs(c.es0), c.States()), Messages(c.nodes0)), c.Gone())
  }

  ghost function FlowAtThree(c: Compilation): Edges { FlowEdges(c.nodes3, Pairs(c.es3)) }

  lemma {:induction false} FlowBack(c: Compilation, p: (Vertex, Vertex))
    requires c.StartsWell() && c.Contracts() && p in FlowAtThree(c) && p.0 != Start3(c) && p.1 != c.End()
    ensures p in Image(Bypassed(c), i => c.At3(i))
  {
    var f: Vertex -> Vertex := i => c.At3(i);
    FlowIs(c, p);
    hide *;
    var d := EdgeOf(c.es3, p);
    var b := EdgeBefore(c, d);
    KindBefore(c, b.source);
    KindBefore(c, b.target);
    BypassedHas(c, b);
    ImageOf(Bypassed(c), c, b.source, b.target);
  }

  lemma ImageOf(E: Edges, c: Compilation, a: Vertex, b: Vertex)
    requires (a, b) in E
    ensures (c.At3(a), c.At3(b)) in Image(E, i => c.At3(i))
  {
    hide Rank, Elements, IndicesOf;
    var f: Vertex -> Vertex := i => c.At3(i);
    var e := (a, b);
    assert (f(e.0), f(e.1)) in Image(E, f);
  }

  lemma FlowIs(c: Compilation, p: (Vertex, Vertex))
    requires p in FlowAtThree(c)
    ensures p in Pairs(c.es3) && p.0 < |c.nodes3| && p.1 < |c.nodes3|
    ensures Analysed(c.nodes3[p.0].kind) && Analysed(c.nodes3[p.1].kind)
  {
    hide Pairs;
  }

  lemma EdgeOf(es: set<Edge>, p: (Vertex, Vertex)) returns (d: Edge)
    requires p in Pairs(es)
    ensures d in es && p == (d.source, d.target)
  {
    d :| d in es && p == (d.source, d.target);
  }

  lemma {:induction false} KindBefore(c: Compilation, a: Vertex)
    requires c.StartsWell() && c.Contracts() && a < |c.nodes0| && a !in c.Gone()
    ensures c.At3(a) < |c.nodes3| && c.nodes3[c.At3(a)] == c.nodes0[a]
    ensures Analysed(c.nodes0[a].kind) ==> a !in Messages(c.nodes0) && Runs(c.nodes0[a].kind)
  {
    hide Elements, IndicesOf, Rank, Pairs, Acyclic, Contracted, Kept, WithEndEdges, Distinct, InRange, MessagesLeadToRuns;
    StageSizes(c);
  }

  lemma {:induction false} BypassedHas(c: Compilation, b: Edge)
    requires b in WithBypasses(c.es0, c.States(), State) && b.source !in c.Gone() && b.target !in c.Gone()
    requires b.source !in Messages(c.nodes0) && b.target !in Messages(c.nodes0)
    ensures (b.source, b.target) in Bypassed(c)
  {
    hide WithBypasses, BypassAll, IndicesOf, Elements, Messages;
    PairsWithBypasses(c.es0, c.States(), State);
    PairsOf(WithBypasses(c.es0, c.States(), State), b);
  }

  // What comes before at stage 3 does so by the states.
  lemma {:induction false} StateOrderBack(c: Compilation, a: Vertex, b: Vertex)
    requires c.StartsWell() && c.Contracts() && Survives(c, a) && Survives(c, b)
    requires Before(c.nodes3, Pairs(c.es3), c.At3(a), c.At3(b))
    ensures Runs(c.nodes0[a].kind) && Runs(c.nodes0[b].kind) && RunsBefore(c.nodes0, c.es0, a, b)
  {
    SurvivorAt(c, a);
    SurvivorAt(c, b);
    FlowingRun(c, a, b);
    var F, f := FlowAtThree(c), (i: Vertex) => c.At3(i);
    var I := Image(Bypassed(c), f);
    var E := F * I;
    assert Reaches(F, c.At3(a), c.At3(b));
    hide *;
    forall p | p in F ensures p.1 != Start3(c) && p.0 != c.End() && (p in E || p.0 == Start3(c) || p.1 == c.End()) {
      FlowIs(c, p);
      EndsOfThree(c, p);
      if p.0 != Start3(c) && p.1 != c.End() {
        FlowBack(c, p);
      }
    }
    EndsIrrelevant(E, F, Start3(c), c.End(), c.At3(a), c.At3(b));
    Monotone(E, I, c.At3(a), c.At3(b));
    BypassedOrder(c, a, b);
  }

  lemma {:induction false} FlowingRun(c: Compilation, a: Vertex, b: Vertex)
    requires c.StartsWell() && c.Contracts() && Survives(c, a) && Survives(c, b)
    requires Before(c.nodes3, Pairs(c.es3), c.At3(a), c.At3(b))
    ensures Runs(c.nodes0[a].kind) && Runs(c.nodes0[b].kind)
  {
    hide Compilation.StartsWell, Compilation.Contracts, Reaches, Rank, Elements, IndicesOf, Pairs;
    var F := FlowAtThree(c);
    var m := FirstEdge(F, c.At3(a), c.At3(b));
    var n := LastEdge(F, c.At3(a), c.At3(b));
    FlowIs(c, (c.At3(a), m));
    FlowIs(c, (n, c.At3(b)));
    SurvivorAt(c, a);
    SurvivorAt(c, b);
    KindBefore(c, a);
    KindBefore(c, b);
  }

  lemma {:induction false} BypassedOrder(c: Compilation, a: Vertex, b: Vertex)
    requires c.StartsWell() && Survives(c, a) && Survives(c, b) && a !in c.Gone() && b !in c.Gone()
    requires Reaches(Image(Bypassed(c), i => c.At3(i)), c.At3(a), c.At3(b))
    ensures RunsBefore(c.nodes0, c.es0, a, b)
  {
    hide Acyclic, Reaches, Rank, BypassAll, IndicesOf, Pairs, Distinct, StateGraphKinds, MessagesLeadToRuns, InRange;
    var cs, M, f := c.States(), Messages(c.nodes0), (i: Vertex) => c.At3(i);
    IndicesAscending(c.nodes0, XState);
    var S := set v: Vertex | v < |c.nodes0| && v !in c.Gone();
    forall e | e in Bypassed(c) ensures e.0 in S && e.1 in S {
      BypassedInRange(c.es0, cs, |c.nodes0|, e);
    }
    forall x, y | x in S && y in S && f(x) == f(y) ensures x == y {
      RankInjective(c.Gone(), x, y);
    }
    ImageExact(Bypassed(c), f, S, a, b);
    AvoidingBypassAll(Pairs(c.es0), cs, M);
    ContractionExact(Avoiding(Pairs(c.es0), M), cs, a, b);
  }

  // --------------------------------------------------- from the last stage back

  lemma {:induction false} ConflictBack(c: Compilation, a: Vertex, b: Vertex)
    requires a < |c.nodes0| && b < |c.nodes0|
    requires c.At3(a) < |c.nodes3| && c.nodes3[c.At3(a)] == c.nodes0[a]
    requires c.At3(b) < |c.nodes3| && c.nodes3[c.At3(b)] == c.nodes0[b]
    requires Conflict(c.nodes3, c.At3(a), c.At3(b))
    ensures Conflict(c.nodes0, a, b)
  {
    hide Rank, Elements, IndicesOf;
    var x :| ConflictOn(c.nodes3, c.At3(a), c.At3(b), x);
    assert ConflictOn(c.nodes0, a, b, x);
  }

  // An edge of the last stage, as the state graph has it.
  ghost predicate FromForced(c: Compilation, p: (Vertex, Vertex)) {
    p in Image(Forced(c.nodes0, c.es0), i => c.At3(i))
  }

  lemma {:induction false} IsFromForced(c: Compilation, a: Vertex, b: Vertex)
    requires Forces(c.nodes0, c.es0, a, b)
    ensures FromForced(c, (c.At3(a), c.At3(b)))
  {
    hide Forces, Rank, Elements, IndicesOf;
    IsForced(c.nodes0, c.es0, a, b);
    ImageOf(Forced(c.nodes0, c.es0), c, a, b);
  }

  lemma {:induction false} DataBack(c: Compilation, p: (Vertex, Vertex))
    requires c.Valid() && p in DataEdges(c.nodes3, Pairs(c.es3))
    ensures p.0 < |c.ts3| && p.1 != Start3(c) && (p.0 == Start3(c) || FromForced(c, p))
  {
    hide *;
    ValidParts(c);
    var F := FlowAtThree(c);
    DataEdgeIsOrderedConflict(c.nodes3, Pairs(c.es3), p);
    DataEdgesAvoidEnd(c);
    FlowBetween(c, p.0, p.1);
    if p.0 != Start3(c) {
      EndIsLast(c);
      var a := SurvivorFrom(c, p.0);
      var b := SurvivorFrom(c, p.1);
      SurvivorAt(c, a);
      SurvivorAt(c, b);
      StateOrderBack(c, a, b);
      SurvivesIs(c, a);
      SurvivesIs(c, b);
      ConflictBack(c, a, b);
      ConflictForces(c.nodes0, c.es0, a, b);
      IsFromForced(c, a, b);
    }
  }

  lemma SurvivesIs(c: Compilation, a: Vertex)
    requires Survives(c, a)
    ensures a < |c.ts0| == |c.nodes0|
  {
  }

  lemma {:induction false} EndIsLast(c: Compilation)
    requires c.StartsWell() && c.Contracts()
    ensures |c.ts3| >= 2 && Start3(c) == |c.ts3| - 2 && c.End() == |c.ts3| - 1
  {
    hide Pairs, Kept, Contracted, WithEnds, WithEndEdges, Acyclic, InRange, Distinct;
  }

  lemma {:induction false} FlowBetween(c: Compilation, i: Vertex, j: Vertex)
    requires c.StartsWell() && c.Contracts() && Before(c.nodes3, Pairs(c.es3), i, j)
    ensures i < |c.ts3| && j < |c.ts3| && j != Start3(c)
  {
    hide Compilation.StartsWell, Compilation.Contracts, Reaches, Pairs;
    var F := FlowAtThree(c);
    var m := FirstEdge(F, i, j);
    var n := LastEdge(F, i, j);
    FlowIs(c, (i, m));
    FlowIs(c, (n, j));
    EndsOfThree(c, (i, m));
    EndsOfThree(c, (n, j));
  }

  lemma ConflictForces(nodes: seq<Node>, es: set<Edge>, a: Vertex, b: Vertex)
    requires a < |nodes| && b < |nodes| && Runs(nodes[a].kind) && Runs(nodes[b].kind)
    requires RunsBefore(nodes, es, a, b) && Conflict(nodes, a, b)
    ensures Forces(nodes, es, a, b)
  {
    hide RunsBefore, Conflict;
  }

  lemma EdgeForces(nodes: seq<Node>, es: set<Edge>, e: Edge)
    requires e in es && e.kind != State && e.source < |nodes| && e.target < |nodes|
    ensures Forces(nodes, es, e.source, e.target)
  {
    hide RunsBefore, Conflict;
  }

  // An edge that is neither the start's nor an output's is forced.
  lemma {:induction false} UnstatedBack(c: Compilation, d: Edge)
    requires c.Valid() && d in Unstated6(c) && d.source != c.End() && d.target != c.End()
    ensures d.source < |c.ts3| && d.target != Start3(c)
    ensures d.source == Start3(c) || d.target >= |c.ts3| || FromForced(c, (d.source, d.target))
  {
    hide *;
    ValidParts(c);
    EndIsLast(c);
    UnstatedParts(c, d);
    if d.target < |c.ts3| {
      if d in c.es3 {
        PairsOf(c.es3, d);
        EndsOfThree(c, (d.source, d.target));
        if d.source != Start3(c) {
          var b := EdgeBefore(c, d);
          OriginalEdge(c, b);
          EdgeForces(c.nodes0, c.es0, b);
          IsFromForced(c, b.source, b.target);
        }
      } else {
        DataBack(c, (d.source, d.target));
      }
    }
  }

  lemma {:induction false} OriginalEdge(c: Compilation, b: Edge)
    requires b in WithBypasses(c.es0, c.States(), State) && b.kind != State
    ensures b in c.es0
  {
    hide WithBypasses, IndicesOf;
    BypassesOnlyAdd(c.es0, c.States(), State);
  }

  lemma {:induction false} UnstatedParts(c: Compilation, d: Edge)
    requires c.Valid() && d in Unstated6(c)
    ensures d.kind != State || d.target >= |c.ts3|
    ensures d.target < |c.ts3| ==> d in c.es3 || (d.source, d.target) in DataEdges(c.nodes3, Pairs(c.es3))
    ensures d.source < |c.ts3|
  {
    hide PartitionsByWriters, WithoutVertex, DataEdges, DataDependency, WithEndEdges, Compilation.Valid;
    OutputEdgesExact(c.lastWrites, c.groups, |c.ts3|, d);
    hide OutputEdges;
    Unstated6Edge(c, d);
    UnstatedSource(c, d);
  }

  lemma {:induction false} UnstatedSource(c: Compilation, d: Edge)
    requires c.Valid() && d in Unstated6(c)
    ensures d.source < |c.ts3|
  {
    hide *;
    ValidParts(c);
    Unstated6Edge(c, d);
    if (d.source, d.target) in Pairs(c.es3) {
      EndsOfThree(c, (d.source, d.target));
    } else if (d.source, d.target) in DataEdges(c.nodes3, Pairs(c.es3)) {
      DataBack(c, (d.source, d.target));
    }
  }

  // ---------------------------------------------------------- both directions

  // Where a survivor stands in the end.
  function At(c: Compilation, u: Vertex): Vertex { c.At6(c.At3(u)) }

  lemma {:induction false} InTheEnd(c: Compilation, u: Vertex)
    requires c.Valid() && Survives(c, u)
    ensures At(c, u) < |c.ts6| && c.ts6[At(c, u)] == c.ts0[u]
  {
    hide Compilation.StartsWell, Compilation.Contracts, PartitionsByWriters, WithoutVertex, Rank, Elements, IndicesOf;
    SurvivorAt(c, u);
  }

  lemma {:induction false} ForcedOrders(c: Compilation, u: Vertex, v: Vertex)
    requires c.Valid() && StatesApart(c.nodes0, c.es0) && (u, v) in Forced(c.nodes0, c.es0)
    ensures Reaches(Pairs(c.es6), At(c, u), At(c, v))
  {
    hide *;
    ValidParts(c);
    SizesAgree(c);
    ForcedSurvive(c, u, v);
    if e :| e in c.es0 && e.kind != State && e.source == u && e.target == v {
      EdgeOrders(c, e);
    } else {
      ConflictOrders(c, u, v);
    }
  }

  lemma {:induction false} EdgeOrders(c: Compilation, e: Edge)
    requires c.Valid() && e in c.es0 && e.kind != State && Survives(c, e.source) && Survives(c, e.target)
    ensures Reaches(Pairs(c.es6), At(c, e.source), At(c, e.target))
  {
    hide Compilation.Valid, Pairs, Rank, Elements, IndicesOf;
    MessageEdgeMoved(c, e);
    EdgeReaches(Pairs(c.es6), At(c, e.source), At(c, e.target));
  }

  lemma {:induction false} ConflictOrders(c: Compilation, u: Vertex, v: Vertex)
    requires c.Valid() && Survives(c, u) && Survives(c, v) && Forces(c.nodes0, c.es0, u, v)
    requires !exists e :: e in c.es0 && e.kind != State && e.source == u && e.target == v
    ensures Reaches(Pairs(c.es6), At(c, u), At(c, v))
  {
    hide Compilation.Valid, Pairs, Rank, Elements, IndicesOf, RunsBefore, Conflict, Reaches;
    ConflictsStayOrdered(c, u, v);
  }

  lemma {:induction false} ForcedReaches(c: Compilation, u: Vertex, v: Vertex)
    requires c.Valid() && StatesApart(c.nodes0, c.es0) && Reaches(Forced(c.nodes0, c.es0), u, v)
    ensures Reaches(Pairs(c.es6), At(c, u), At(c, v))
  {
    var f, G := (i: Vertex) => At(c, i), Forced(c.nodes0, c.es0);
    hide Compilation.Valid, StatesApart, Forced, Reaches, Pairs, At;
    ImageReaches(G, f, u, v);
    forall p | p in Image(G, f) ensures Reaches(Pairs(c.es6), p.0, p.1) {
      var q: (Vertex, Vertex) :| q in G && p == (f(q.0), f(q.1));
      ForcedOrders(c, q.0, q.1);
    }
    LiftReaches(Image(G, f), Pairs(c.es6), f(u), f(v));
  }

  // Before the end task goes.
  lemma {:induction false} EndPutBack(c: Compilation, u: Vertex, v: Vertex)
    requires c.Valid() && Survives(c, u) && Survives(c, v) && Reaches(Pairs(c.es6), At(c, u), At(c, v))
    ensures Reaches(Avoiding(Pairs(Unstated6(c)), {c.End()}), c.At3(u), c.At3(v))
  {
    hide *;
    ValidParts(c);
    SurvivorAt(c, u);
    SurvivorAt(c, v);
    EndIsLast(c);
    Es6Is(c);
    Unstated6InRange(c);
    WithoutVertexIsRenumbered(Unstated6(c), c.End());
    AtIs(c, u);
    AtIs(c, v);
    RenumberedReaches(Unstated6(c), {c.End()}, |c.ts3| + |c.outs|, c.At3(u), c.At3(v));
  }

  lemma AtIs(c: Compilation, u: Vertex)
    requires c.At3(u) != c.End()
    ensures At(c, u) == Rank({c.End()}, c.At3(u))
  {
    hide Elements, IndicesOf, Rank;
    ShiftIsRank(c.End(), c.At3(u));
  }

  lemma {:induction false} ReachesForced(c: Compilation, u: Vertex, v: Vertex)
    requires c.Valid() && StatesApart(c.nodes0, c.es0) && Survives(c, u) && Survives(c, v)
    requires Reaches(Pairs(c.es6), At(c, u), At(c, v))
    ensures Reaches(Forced(c.nodes0, c.es0), u, v)
  {
    hide *;
    var I := Image(Forced(c.nodes0, c.es0), i => c.At3(i));
    var G := Avoiding(Pairs(Unstated6(c)), {c.End()});
    forall p: (Vertex, Vertex) | p in G
      ensures p.1 != Start3(c) && p.0 < |c.ts3| && (p.0 == Start3(c) || p.1 >= |c.ts3| || p in I)
    {
      AvoidsEnd(c, p);
      var d := EdgeOf(Unstated6(c), p);
      UnstatedBack(c, d);
      if FromForced(c, p) { FromForcedIs(c, p); }
    }
    EndPutBack(c, u, v);
    ValidParts(c);
    SurvivorAt(c, u);
    SurvivorAt(c, v);
    EndIsLast(c);
    InnerOnly(G, I, Start3(c), |c.ts3|, c.At3(u), c.At3(v));
    ForcedImage(c, u, v);
  }

  // Edges out of a vertex that nothing leads to, and into new ones, open no way.
  lemma {:induction false} InnerOnly(G: Edges, I: Edges, s: Vertex, n: nat, u: Vertex, v: Vertex)
    requires forall p :: p in G ==> p.1 != s && p.0 < n && (p.0 == s || p.1 >= n || p in I)
    requires u != s && v < n && Reaches(G, u, v)
    ensures Reaches(I, u, v)
  {
    hide Reaches;
    var H := Avoiding(G, {s});
    var E := H * I;
    SourcesIrrelevant(G, {s}, u, v);
    SinksIrrelevant(E, H, n, u, v);
    Monotone(E, I, u, v);
  }

  lemma AvoidsEnd(c: Compilation, p: (Vertex, Vertex))
    requires p in Avoiding(Pairs(Unstated6(c)), {c.End()})
    ensures p in Pairs(Unstated6(c)) && p.0 != c.End() && p.1 != c.End()
  {
    hide Unstated6, Pairs;
  }

  lemma FromForcedIs(c: Compilation, p: (Vertex, Vertex))
    requires FromForced(c, p)
    ensures p in Image(Forced(c.nodes0, c.es0), i => c.At3(i))
  {
  }

  lemma {:induction false} ForcedImage(c: Compilation, u: Vertex, v: Vertex)
    requires c.Valid() && StatesApart(c.nodes0, c.es0) && Survives(c, u) && Survives(c, v)
    requires Reaches(Image(Forced(c.nodes0, c.es0), i => c.At3(i)), c.At3(u), c.At3(v))
    ensures Reaches(Forced(c.nodes0, c.es0), u, v)
  {
    hide Compilation.Valid, Compilation.StartsWell, Compilation.Contracts, StatesApart, Forced, Reaches, Rank, Elements, IndicesOf;
    ValidParts(c);
    SizesAgree(c);
    var f: Vertex -> Vertex := i => c.At3(i);
    var S := set w: Vertex | w < |c.ts0| && Survives(c, w);
    forall e | e in Forced(c.nodes0, c.es0) ensures e.0 in S && e.1 in S {
      ForcedSurvive(c, e.0, e.1);
    }
    forall x, y | x in S && y in S && f(x) == f(y) ensures x == y {
      SurvivorAt(c, x);
      SurvivorAt(c, y);
      RankInjective(c.Gone(), x, y);
    }
    ImageExact(Forced(c.nodes0, c.es0), f, S, u, v);
  }

  // In the compiled graph one task comes before another exactly if it is forced to,
  // directly or through others.
  lemma {:induction false} CompiledOrderExact(c: Compilation, ts: seq<Task>, R: Edges, u: Vertex, v: Vertex)
    requires c.Valid() && IsReduced(c, ts, R) && Distinct(ts) && StatesApart(c.nodes0, c.es0)
    requires Survives(c, u) && Survives(c, v)
    ensures Ordered(ts, R, c.ts0[u], c.ts0[v]) <==> Reaches(Forced(c.nodes0, c.es0), u, v)
  {
    var to :| ReducedBy(c, to, ts, R);
    hide *;
    ReductionPermutes(c, to, ts, R);
    InTheEnd(c, u);
    InTheEnd(c, v);
    SurvivesIs(c, u);
    SurvivesIs(c, v);
    AdjacentThere(ts, R, to[At(c, u)], to[At(c, v)]);
    ReducedReaches(|c.ts6|, Pairs(c.es6), to, R, At(c, u), At(c, v));
    if Reaches(Pairs(c.es6), At(c, u), At(c, v)) {
      ReachesForced(c, u, v);
    }
    if Reaches(Forced(c.nodes0, c.es0), u, v) {
      ForcedReaches(c, u, v);
    }
  }

  lemma ReducedReaches(n: nat, E: Edges, to: seq<Vertex>, R: Edges, i: Vertex, j: Vertex)
    requires IsTransitiveReduction(n, E, to, R) && i < n && j < n
    ensures |to| == n && (Reaches(R, to[i], to[j]) <==> Reaches(E, i, j))
  {
    hide Reaches;
  }
}
