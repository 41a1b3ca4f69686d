/** What the compilation of an agent leaves is ready to be merged into the model graph. */
module CompiledAgents {
  import opened Digraph
  import opened DataFlow
  import opened TaskGraph
  import opened Tasks
  import opened AgentGraph
  import opened ModelGraph
  import opened ModelXGraph

  // Bypassing states puts no message before a message.
  lemma {:induction false} BypassesKeepLead(nodes: seq<Node>, E: Edges, cs: seq<Vertex>)
    requires InRange(E, |nodes|) && MessagesLeadToRuns(nodes, E)
    requires forall c :: c in cs ==> c < |nodes| && nodes[c].kind.XState?
    ensures InRange(BypassAll(E, cs), |nodes|) && MessagesLeadToRuns(nodes, BypassAll(E, cs))
  {
    if cs != [] {
      var init := cs[..|cs| - 1];
      forall c | c in init ensures c < |nodes| && nodes[c].kind.XState? {
        assert c in cs;
      }
      BypassesKeepLead(nodes, E, init);
      assert cs[|cs| - 1] in cs;
      BypassKeepsLead(nodes, BypassAll(E, init), cs[|cs| - 1]);
    }
  }

  lemma BypassKeepsLead(nodes: seq<Node>, E: Edges, c: Vertex)
    requires InRange(E, |nodes|) && MessagesLeadToRuns(nodes, E) && c < |nodes| && nodes[c].kind.XState?
    ensures InRange(Bypass(E, c), |nodes|) && MessagesLeadToRuns(nodes, Bypass(E, c))
  {
    forall p: (Vertex, Vertex) | p in Bypass(E, c)
      ensures p.0 < |nodes| && p.1 < |nodes| && (nodes[p.0].kind.XMessage? ==> Runs(nodes[p.1].kind))
    {
      if p !in E {
        var a, b :| a in E && b in E && a.1 == c && b.0 == c && p == (a.0, b.1);
        assert a.0 < |nodes| && b.1 < |nodes|;
      }
    }
  }

  lemma ContractedLead(nodes: seq<Node>, es: set<Edge>, cs: seq<Vertex>)
    requires InRange(Pairs(es), |nodes|) && MessagesLeadToRuns(nodes, Pairs(es)) && cs == IndicesOf(nodes, XState)
    ensures MessagesLeadToRuns(Kept(nodes, Elements(cs)), Pairs(Contracted(es, cs, State)))
  {
    var del, all := Elements(cs), WithBypasses(es, cs, State);
    var kept := Kept(nodes, del);
    var f: Vertex -> Vertex := i => Rank(del, i);
    IndicesAscending(nodes, XState);
    BypassesKeepLead(nodes, Pairs(es), cs);
    PairsWithBypasses(es, cs, State);
    PairsRenumbered(all, del);
    KeptAt(nodes, del);
    hide Pairs, Kept, Rank, Contracted, WithBypasses, BypassAll, IndicesOf;
    assert Pairs(Contracted(es, cs, State)) == Image(Avoiding(Pairs(all), del), f) by { ContractedIs(es, cs); }
    forall p: (Vertex, Vertex) | p in Pairs(Contracted(es, cs, State)) && p.0 < |kept| && p.1 < |kept| && kept[p.0].kind.XMessage?
      ensures Runs(kept[p.1].kind)
    {
      var e: (Vertex, Vertex) :| e in Avoiding(Pairs(all), del) && p == (f(e.0), f(e.1));
      assert e.0 < |nodes| && e.1 < |nodes|;
      assert kept[p.0] == nodes[e.0] && kept[p.1] == nodes[e.1];
    }
  }

  lemma ContractedIs(es: set<Edge>, cs: seq<Vertex>)
    ensures Contracted(es, cs, State) == Renumbered(WithBypasses(es, cs, State), Elements(cs))
  {
  }

  // An edge of the graph with start and end: no message to message, nothing
  // before the start.
  ghost predicate Orderly(kinds: seq<TaskType>, p: (Vertex, Vertex)) {
    && p.0 < |kinds| && p.1 < |kinds|
    && !(kinds[p.0].XMessage? && kinds[p.1].XMessage?) && !kinds[p.1].StartAgent?
  }

  function Kinds(nodes: seq<Node>): (r: seq<TaskType>)
    ensures |r| == |nodes| && forall i :: 0 <= i < |nodes| ==> r[i] == nodes[i].kind
  {
    seq(|nodes|, i requires 0 <= i < |nodes| => nodes[i].kind)
  }

  // The start and the end task are the last two, and there is no other.
  ghost predicate StartAndEndLast(nodes: seq<Node>) {
    |nodes| >= 2 && forall v :: 0 <= v < |nodes| ==>
      && !nodes[v].kind.XMessageSync?
      && (nodes[v].kind.StartAgent? <==> v == |nodes| - 2)
      && (nodes[v].kind.FinishAgent? <==> v == |nodes| - 1)
  }

  lemma KeptKinds(c: Compilation)
    requires c.StartsWell() && c.Contracts()
    ensures StartAndEndLast(c.nodes3) && |c.nodes3| == |c.ts3|
    ensures c.nodes3[..|c.nodes3| - 2] == Kept(c.nodes0, c.Gone())
  {
    StageSizes(c);
    EndsLast(c.nodes0, c.Gone(), c.variables);
    hide *;
    NodesAre(c);
  }

  lemma NodesAre(c: Compilation)
    requires c.Contracts()
    ensures c.nodes3 == WithEnds(Kept(c.nodes0, c.Gone()), c.variables)
  {
    hide Kept, WithEnds, WithEndEdges, Contracted;
  }

  lemma EndsLast(nodes0: seq<Node>, del: set<Vertex>, variables: set<string>)
    requires StateGraphKinds(nodes0)
    ensures ghost var kept := Kept(nodes0, del);
            && StartAndEndLast(WithEnds(kept, variables)) && WithEnds(kept, variables)[..|WithEnds(kept, variables)| - 2] == kept
  {
    var kept := Kept(nodes0, del);
    KeptKind(nodes0, del);
    hide Kept;
    assert WithEnds(kept, variables)[..|kept|] == kept;
  }

  lemma KeptKind(nodes0: seq<Node>, del: set<Vertex>)
    requires StateGraphKinds(nodes0)
    ensures ghost var kept := Kept(nodes0, del);
            forall v :: 0 <= v < |kept| ==> Runs(kept[v].kind) || kept[v].kind.XState? || kept[v].kind.XMessage?
  {
    var kept := Kept(nodes0, del);
    KeptAt(nodes0, del);
    hide Kept;
    forall v | 0 <= v < |kept| ensures Runs(kept[v].kind) || kept[v].kind.XState? || kept[v].kind.XMessage? {
      var i := RankOnto(del, |nodes0|, v);
      assert kept[v] == nodes0[i];
    }
  }

  lemma EdgesOrderly(c: Compilation, p: (Vertex, Vertex))
    requires c.StartsWell() && c.Contracts() && p in Pairs(c.es3)
    ensures Orderly(Kinds(c.nodes3), p)
  {
    var m, ts2, es2 := |c.nodes3| - 2, Kept(c.ts0, c.Gone()), Contracted(c.es0, c.States(), State);
    StageSizes(c);
    KeptKinds(c);
    ContractedLead(c.nodes0, c.es0, c.States());
    SmallStage(c);
    hide *;
    if p in Pairs(es2) {
      OldEdgeOrderly(c.nodes3, Pairs(es2), p);
    } else {
      NewEdgeOrderly(c.nodes3, es2, ts2, c.startTask, c.endTasks, p);
    }
  }

  lemma SmallStage(c: Compilation)
    requires c.StartsWell() && c.Contracts()
    ensures ghost var ts2, es2 := Kept(c.ts0, c.Gone()), Contracted(c.es0, c.States(), State);
            && InRange(Pairs(es2), |ts2|) && |ts2| == |c.nodes3| - 2
            && c.es3 == WithEndEdges(es2, ts2, c.startTask, c.endTasks)
  {
    StageSizes(c);
    IndicesAscending(c.nodes0, XState);
    ContractedValid(c.ts0, c.es0, c.States(), State);
    hide Contracted, Kept, Acyclic, IndicesOf, MessagesLeadToRuns, StateGraphKinds, WithEndEdges, InRange, WithEnds, Pairs;
  }

  lemma OldEdgeOrderly(nodes: seq<Node>, E: Edges, p: (Vertex, Vertex))
    requires StartAndEndLast(nodes) && InRange(E, |nodes| - 2) && p in E
    requires MessagesLeadToRuns(nodes[..|nodes| - 2], E)
    ensures Orderly(Kinds(nodes), p)
  {
    LeadAt(nodes[..|nodes| - 2], E, p);
  }

  lemma NewEdgeOrderly(nodes: seq<Node>, es: set<Edge>, ts: seq<Task>, startTask: Task?, endTasks: set<Task>, p: (Vertex, Vertex))
    requires StartAndEndLast(nodes) && |ts| == |nodes| - 2
    requires p in Pairs(WithEndEdges(es, ts, startTask, endTasks)) && p !in Pairs(es)
    ensures Orderly(Kinds(nodes), p)
  {
    var e :| e in WithEndEdges(es, ts, startTask, endTasks) && p == (e.source, e.target);
    assert e !in es;
  }

  lemma LeadAt(nodes: seq<Node>, E: Edges, p: (Vertex, Vertex))
    requires MessagesLeadToRuns(nodes, E) && p in E && p.0 < |nodes| && p.1 < |nodes|
    ensures nodes[p.0].kind.XMessage? ==> Runs(nodes[p.1].kind)
  {
  }

  // Data edges join tasks that the analysis looks at, and lead to no start.
  lemma DataEdgesOrderly(c: Compilation, p: (Vertex, Vertex))
    requires c.StartsWell() && c.Contracts() && p in DataEdges(c.nodes3, Pairs(c.es3))
    ensures Orderly(Kinds(c.nodes3), p)
  {
    var F := FlowEdges(c.nodes3, Pairs(c.es3));
    DataEdgeIsOrderedConflict(c.nodes3, Pairs(c.es3), p);
    var u := FirstEdge(F, p.0, p.1);
    var v := LastEdge(F, p.0, p.1);
    EdgesOrderly(c, (v, p.1));
  }

  // The task types of the last stage but for the end task, which is still there.
  ghost function AllKinds(c: Compilation): seq<TaskType> {
    Kinds(c.nodes3) + seq(|c.outs|, _ => IoPopWrite)
  }

  lemma UnstatedOrderly(c: Compilation, e: Edge)
    requires c.Valid() && e in Unstated6(c)
    ensures Orderly(AllKinds(c), (e.source, e.target))
  {
    var p := (e.source, e.target);
    Unstated6Edge(c, e);
    KeptKinds(c);
    ValidParts(c);
    hide *;
    if p in Pairs(c.es3) {
      EdgesOrderly(c, p);
      StillOrderly(c, p);
    } else if p in DataEdges(c.nodes3, Pairs(c.es3)) {
      DataEdgesOrderly(c, p);
      StillOrderly(c, p);
    } else {
      OutputOrderly(c, p);
    }
  }

  lemma ValidParts(c: Compilation)
    requires c.Valid()
    ensures c.StartsWell() && c.Contracts()
  {
    hide Compilation.StartsWell, Compilation.Contracts, Compilation.Outputs;
  }

  lemma StillOrderly(c: Compilation, p: (Vertex, Vertex))
    requires Orderly(Kinds(c.nodes3), p)
    ensures Orderly(AllKinds(c), p)
  {
  }

  lemma OutputOrderly(c: Compilation, p: (Vertex, Vertex))
    requires |c.nodes3| == |c.ts3| && p.0 < |c.ts3| <= p.1 < |c.ts3| + |c.outs|
    ensures Orderly(AllKinds(c), p)
  {
  }

  // The task types once the end task is gone.
  ghost predicate KindsAre(c: Compilation, kinds: seq<TaskType>) {
    c.End() < |AllKinds(c)| && kinds == AllKinds(c)[..c.End()] + AllKinds(c)[c.End() + 1..]
  }

  lemma LastStageReady(c: Compilation, kinds: seq<TaskType>)
    requires c.Valid() && KindsAre(c, kinds) && |kinds| == |c.ts6|
    ensures AgentReady(kinds, Pairs(c.es6))
  {
    hide Compilation.Valid, KindsAre, Acyclic, Pairs, StartAndEndLast;
    CompiledAcyclic(c);
    NoSyncs(c, kinds);
    forall p: (Vertex, Vertex) | p in Pairs(c.es6) ensures Orderly(kinds, p) {
      LastEdgeOrderly(c, kinds, p);
    }
  }

  lemma NoSyncs(c: Compilation, kinds: seq<TaskType>)
    requires c.Valid() && KindsAre(c, kinds)
    ensures forall v :: 0 <= v < |kinds| ==> !kinds[v].XMessageSync?
  {
    hide Compilation.StartsWell, Compilation.Contracts, Compilation.Outputs;
    KeptKinds(c);
    var all, end := AllKinds(c), c.End();
    forall v | 0 <= v < |kinds| ensures !kinds[v].XMessageSync? {
      assert kinds[v] == all[if v < end then v else v + 1];
    }
  }

  lemma LastEdgeOrderly(c: Compilation, kinds: seq<TaskType>, p: (Vertex, Vertex))
    requires c.Valid() && KindsAre(c, kinds) && p in Pairs(c.es6)
    ensures Orderly(kinds, p)
  {
    var end := c.End();
    assert c.es6 == WithoutVertex(Unstated6(c), end) by { Es6Is(c); }
    hide *;
    var e := ShiftedFrom(Unstated6(c), end, p);
    UnstatedOrderly(c, e);
    ShiftKinds(c, kinds, e.source);
    ShiftKinds(c, kinds, e.target);
    OrderlyKinds(AllKinds(c), kinds, (e.source, e.target), p);
  }

  lemma Es6Is(c: Compilation)
    requires c.Valid()
    ensures c.es6 == WithoutVertex(Unstated6(c), c.End())
  {
    hide WithoutVertex, WithDataEdges, OutputEdges;
  }

  lemma ShiftedFrom(es: set<Edge>, v: Vertex, p: (Vertex, Vertex)) returns (e: Edge)
    requires p in Pairs(WithoutVertex(es, v))
    ensures e in es && e.source != v && e.target != v && p == (Shift(v, e.source), Shift(v, e.target))
  {
    var d :| d in WithoutVertex(es, v) && p == (d.source, d.target);
    e :| e in es && e.source != v && e.target != v && d == Shifted(v, e);
  }

  lemma ShiftKinds(c: Compilation, kinds: seq<TaskType>, v: Vertex)
    requires KindsAre(c, kinds) && v != c.End()
    ensures v < |AllKinds(c)| ==> Shift(c.End(), v) < |kinds| && kinds[Shift(c.End(), v)] == AllKinds(c)[v]
  {
  }

  lemma OrderlyKinds(all: seq<TaskType>, kinds: seq<TaskType>, q: (Vertex, Vertex), p: (Vertex, Vertex))
    requires Orderly(all, q) && q.0 < |all| && q.1 < |all| && p.0 < |kinds| && p.1 < |kinds|
    requires kinds[p.0] == all[q.0] && kinds[p.1] == all[q.1]
    ensures Orderly(kinds, p)
  {
  }

  // The transitive reduction only renumbers and thins out.
  lemma ReducedReady(kinds: seq<TaskType>, E: Edges, to: seq<Vertex>, R: Edges, kinds': seq<TaskType>)
    requires AgentReady(kinds, E) && IsTransitiveReduction(|kinds|, E, to, R) && |kinds'| == |kinds|
    requires forall i :: 0 <= i < |kinds| ==> kinds'[to[i]] == kinds[i]
    ensures AgentReady(kinds', R)
  {
    ReducedAcyclic(|kinds|, E, to, R);
    forall v | 0 <= v < |kinds'| ensures !kinds'[v].XMessageSync? {
      assert v in to;
      var i :| 0 <= i < |to| && to[i] == v;
    }
    hide Acyclic, Reaches;
    forall p: (Vertex, Vertex) | p in R
      ensures !(kinds'[p.0].XMessage? && kinds'[p.1].XMessage?) && !kinds'[p.1].StartAgent?
    {
      var e: (Vertex, Vertex) :| e in E && e.0 < |kinds| && e.1 < |kinds| && p == (to[e.0], to[e.1]);
    }
  }

  // The dependency graph that an agent's compilation ends with can be imported.
  lemma GeneratedIsReady(c: Compilation, ts: seq<Task>, es: set<Edge>)
    requires c.Valid() && NodesOf(c.ts3) == c.nodes3 && WriteGroups(c.outs, c.groups)
    requires IsReduced(c, ts, Pairs(es)) && AllValid(ts)
    ensures AgentValid(Agent(ts, es))
  {
    var to :| ReducedBy(c, to, ts, Pairs(es));
    var kinds := KindsOf(c.ts6);
    assert KindsAre(c, kinds) by { LastKinds(c); }
    hide Compilation.Valid, AllKinds, KindsAre, WriteGroups, AllValid;
    LastStageReady(c, kinds);
    hide AgentReady;
    ReducedReady(kinds, Pairs(c.es6), to, Pairs(es), KindsOf(ts));
  }

  lemma LastKinds(c: Compilation)
    requires c.Valid() && NodesOf(c.ts3) == c.nodes3 && WriteGroups(c.outs, c.groups)
    ensures KindsAre(c, KindsOf(c.ts6))
  {
    LastTasks(c);
    AllKindsAre(c.ts3, c.nodes3, c.outs, c.groups);
    var all, end := c.ts3 + c.outs, c.End();
    assert KindsOf(all) == AllKinds(c);
    KindsWithout(all, end);
    hide KindsOf, AllKinds;
  }

  lemma LastTasks(c: Compilation)
    requires c.Valid()
    ensures c.End() < |c.ts3| && c.ts6 == (c.ts3 + c.outs)[..c.End()] + (c.ts3 + c.outs)[c.End() + 1..]
  {
    hide WithoutVertex, WithDataEdges, OutputEdges, StateGraphKinds, Contracted, Kept, WithEnds, WithEndEdges,
      LastWriterAt, PartitionsByWriters;
  }

  lemma AllKindsAre(ts: seq<Task>, nodes: seq<Node>, outs: seq<Task>, groups: seq<set<string>>)
    requires NodesOf(ts) == nodes && WriteGroups(outs, groups)
    ensures KindsOf(ts + outs) == Kinds(nodes) + seq(|outs|, _ => IoPopWrite)
  {
    forall k | 0 <= k < |outs| ensures outs[k].taskType == IoPopWrite {
      assert outs[k].AsNode() == Node(IoPopWrite, {}, groups[k]);
    }
    forall v | 0 <= v < |ts| ensures ts[v].taskType == nodes[v].kind {
      assert nodes[v] == ts[v].AsNode();
    }
  }

  lemma KindsWithout(ts: seq<Task>, i: nat)
    requires i < |ts|
    ensures KindsOf(ts[..i] + ts[i + 1..]) == KindsOf(ts)[..i] + KindsOf(ts)[i + 1..]
  {
  }

  // A message's edge, renumbered, is an edge of the last stage.
  lemma MessageEdgeMoved(c: Compilation, e: Edge)
    requires c.Valid() && e in c.es0 && e.kind != State && e.source < |c.ts0| && e.target < |c.ts0|
    requires |c.nodes0| == |c.ts0| && !c.nodes0[e.source].kind.XState? && !c.nodes0[e.target].kind.XState?
    ensures ghost var m, r := c.At6(c.At3(e.source)), c.At6(c.At3(e.target));
            && (m, r) in Pairs(c.es6) && m < |c.ts6| && r < |c.ts6|
            && c.ts6[m] == c.ts0[e.source] && c.ts6[r] == c.ts0[e.target]
  {
    hide *;
    var u, v := c.At3(e.source), c.At3(e.target);
    var d, K := Edge(u, v, e.kind), {(u, v)};
    ValidParts(c);
    EdgeContractedAway(c, e);
    EdgeReaches(K, u, v);
    PairsOf(Unstated6(c), d);
    EndDropped(c, K, u, v);
    Es6Is(c);
    ShiftedStays(Unstated6(c), c, d);
  }

  lemma ShiftedStays(es: set<Edge>, c: Compilation, d: Edge)
    requires d in es && d.source != c.End() && d.target != c.End() && c.es6 == WithoutVertex(es, c.End())
    ensures (c.At6(d.source), c.At6(d.target)) in Pairs(c.es6)
  {
    assert Shifted(c.End(), d) in c.es6;
    PairsOf(c.es6, Shifted(c.End(), d));
  }

  // A reader still follows its message directly after the reduction, and so is
  // waited for when the message is cleared, exactly if no other successor of the
  // message leads to it.
  lemma ReaderStaysNext(c: Compilation, to: seq<Vertex>, ts: seq<Task>, R: Edges, e: Edge)
    requires c.Valid() && ReducedBy(c, to, ts, R)
    requires e in c.es0 && e.kind != State && e.source < |c.ts0| && e.target < |c.ts0| && |c.nodes0| == |c.ts0|
    requires c.nodes0[e.source].kind.XMessage? && Runs(c.nodes0[e.target].kind)
    ensures ghost var m, r := c.At6(c.At3(e.source)), c.At6(c.At3(e.target));
            && m < |ts| && r < |ts| && to[m] < |ts| && to[r] < |ts|
            && ts[to[m]] == c.ts0[e.source] && ts[to[r]] == c.ts0[e.target]
            && ((to[m], to[r]) in R <==>
                forall d :: (m, d) in Pairs(c.es6) && d != r ==> !Reaches(Pairs(c.es6), d, r))
  {
    MessageEdgeMoved(c, e);
    CompiledAcyclic(c);
    var m, r := c.At6(c.At3(e.source)), c.At6(c.At3(e.target));
    ReductionPermutes(c, to, ts, R);
    hide *;
    EdgeSurvivesReduction(|c.ts6|, Pairs(c.es6), to, R, m, r);
  }

  lemma ReductionPermutes(c: Compilation, to: seq<Vertex>, ts: seq<Task>, R: Edges)
    requires ReducedBy(c, to, ts, R)
    ensures |to| == |ts| == |c.ts6| && IsTransitiveReduction(|c.ts6|, Pairs(c.es6), to, R)
    ensures forall i :: 0 <= i < |ts| ==> to[i] < |ts| && ts[to[i]] == c.ts6[i]
  {
  }

  // What flows starts at a task that the analysis looks at.
  lemma {:induction false} ArrivalSource(nodes: seq<Node>, E: Edges, w: Vertex, v: Vertex, x: string)
    requires Arrives(nodes, E, w, v, x)
    ensures w < |nodes| && Analysed(nodes[w].kind)
  {
    var p :| ClearPath(nodes, E, p, w, v, x);
    assert Reaches(FlowEdges(nodes, E), w, v);
    var m := FirstEdge(FlowEdges(nodes, E), w, v);
    assert (w, m) in FlowEdges(nodes, E);
  }

  lemma {:induction false} DataSource(nodes: seq<Node>, E: Edges, w: Vertex, v: Vertex)
    requires DataDependency(nodes, E, w, v)
    ensures w < |nodes| && Analysed(nodes[w].kind)
  {
    hide Arrives;
    var x :| || (Reads(nodes, v, x) && LastWriterAt(nodes, E, w, v, x))
             || (Writes(nodes, v, x) && LastReaderAt(nodes, E, w, v, x));
    ArrivalSource(nodes, E, w, v, x);
  }

  // An edge of the last stage out of a task the analysis passes over is an edge of the
  // graph with start and end.
  lemma {:induction false} PassedOverEdge(c: Compilation, e: Edge)
    requires c.Valid() && e in Unstated6(c) && e.source < |c.nodes3| && !Analysed(c.nodes3[e.source].kind)
    ensures e in c.es3 && e.kind != State
  {
    hide PartitionsByWriters, WithEndEdges, WithoutVertex, DataDependency, Arrives;
    OutputEdgesExact(c.lastWrites, c.groups, |c.ts3|, e);
    if e in OutputEdges(c.lastWrites, c.groups, |c.ts3|) {
      var x :| x in c.groups[e.target - |c.ts3|] && Recorded(c.lastWrites, x, e.source);
      assert LastWriterAt(c.nodes3, Pairs(c.es3), e.source, c.End(), x);
      ArrivalSource(c.nodes3, Pairs(c.es3), e.source, c.End(), x);
    } else if e !in c.es3 {
      DataSource(c.nodes3, Pairs(c.es3), e.source, e.target);
    }
  }

  // And there it stems from the state graph.
  lemma {:induction false} MessageEdgeFrom(c: Compilation, m: Vertex, d: Edge) returns (e: Edge)
    requires c.StartsWell() && c.Contracts() && m < |c.ts0| && c.nodes0[m].kind.XMessage?
    requires d in c.es3 && d.kind != State && d.source == c.At3(m)
    ensures e in c.es0 && e.kind != State && e.source == m && e.target < |c.ts0|
    ensures Runs(c.nodes0[e.target].kind) && d.target == c.At3(e.target)
  {
    var ts2, all := Kept(c.ts0, c.Gone()), WithBypasses(c.es0, c.States(), State);
    StageSizes(c);
    IndicesAscending(c.nodes0, XState);
    KeptAt(c.ts0, c.Gone());
    BypassesOnlyAdd(c.es0, c.States(), State);
    hide Pairs, IndicesOf, Rank, Acyclic, Reaches, WithBypasses, Kept;
    assert m !in c.Gone();
    NoEndEdge(c, m, d);
    var b :| b in all && b.source !in c.Gone() && b.target !in c.Gone() && d == Moved(c.Gone(), b);
    RankInjective(c.Gone(), b.source, m);
    assert b in c.es0;
    EdgeInRange(c.es0, |c.nodes0|, b);
    PairsOf(c.es0, b);
    LeadAt(c.nodes0, Pairs(c.es0), (b.source, b.target));
    e := b;
  }

  lemma {:induction false} NoEndEdge(c: Compilation, m: Vertex, d: Edge)
    requires c.StartsWell() && c.Contracts() && m < |c.ts0| && c.nodes0[m].kind.XMessage?
    requires d in c.es3 && d.source == c.At3(m)
    ensures d in Contracted(c.es0, c.States(), State)
  {
    hide *;
    var ts2 := Kept(c.ts0, c.Gone());
    MessageKept(c, m);
    NoEndMessage(c, m);
    NotAdded(Contracted(c.es0, c.States(), State), ts2, c.startTask, c.endTasks, c.es3, d);
  }

  lemma {:induction false} NoEndMessage(c: Compilation, m: Vertex)
    requires c.StartsWell() && m < |c.ts0| && |c.ts0| == |c.nodes0| && c.nodes0[m].kind.XMessage?
    ensures c.ts0[m] !in c.endTasks
  {
    hide *;
    if c.ts0[m] in c.endTasks {
      EndTaskRuns(c, m);
      MessagesDoNotRun(c.nodes0[m].kind);
    }
  }

  lemma MessagesDoNotRun(kind: TaskType)
    requires Runs(kind)
    ensures !kind.XMessage?
  {
  }

  lemma {:induction false} MessageKept(c: Compilation, m: Vertex)
    requires c.StartsWell() && c.Contracts() && m < |c.ts0| && c.nodes0[m].kind.XMessage?
    ensures ghost var ts2 := Kept(c.ts0, c.Gone());
            && c.At3(m) < |ts2| && ts2[c.At3(m)] == c.ts0[m] && |c.ts0| == |c.nodes0|
            && c.es3 == WithEndEdges(Contracted(c.es0, c.States(), State), ts2, c.startTask, c.endTasks)
  {
    hide Pairs, IndicesOf, Rank, Acyclic, Contracted, Kept, WithEndEdges, WithEnds;
    IndicesAscending(c.nodes0, XState);
    KeptAt(c.ts0, c.Gone());
    assert m !in c.Gone();
  }

  lemma NotAdded(es2: set<Edge>, ts2: seq<Task>, start: Task?, ends: set<Task>, es3: set<Edge>, d: Edge)
    requires es3 == WithEndEdges(es2, ts2, start, ends) && d in es3 && d.source < |ts2| && ts2[d.source] !in ends
    ensures d in es2
  {
  }

  // What follows a message directly in the last stage is a reader of the state graph.
  lemma {:induction false} MessageSuccessor(c: Compilation, m: Vertex, y: Vertex) returns (e: Edge)
    requires c.Valid() && |c.nodes0| == |c.ts0| && m < |c.ts0| && c.nodes0[m].kind.XMessage?
    requires (c.At6(c.At3(m)), y) in Pairs(c.es6)
    ensures e in c.es0 && e.kind != State && e.source == m && e.target < |c.ts0|
    ensures Runs(c.nodes0[e.target].kind) && y == c.At6(c.At3(e.target))
  {
    hide *;
    Es6Is(c);
    MessageAtThree(c, m);
    var d := ShiftedFrom(Unstated6(c), c.End(), (c.At6(c.At3(m)), y));
    SameShift(c.End(), d.source, c.At3(m));
    At6Is(c, c.At3(m));
    At6Is(c, d.target);
    PassedOverEdge(c, d);
    ValidParts(c);
    e := MessageEdgeFrom(c, m, d);
  }

  lemma At6Is(c: Compilation, v: Vertex)
    ensures c.At6(v) == Shift(c.End(), v)
  {
  }

  lemma SameShift(v: Vertex, i: Vertex, j: Vertex)
    requires i != v && j != v
    ensures Shift(v, i) == Shift(v, j) <==> i == j
  {
  }

  lemma {:induction false} MessageAtThree(c: Compilation, m: Vertex)
    requires c.Valid() && |c.nodes0| == |c.ts0| && m < |c.ts0| && c.nodes0[m].kind.XMessage?
    ensures c.At3(m) < |c.nodes3| && c.At3(m) != c.End() && !Analysed(c.nodes3[c.At3(m)].kind)
  {
    ValidParts(c);
    IndicesAscending(c.nodes0, XState);
    hide Pairs, IndicesOf, Rank, Compilation.Valid, Compilation.Outputs, Compilation.Contracts, Compilation.StartsWell;
    StageSizes(c);
  }

  // q leads from the same message to another task.
  ghost predicate OtherReader(c: Compilation, e: Edge, q: Edge) {
    q in c.es0 && q.kind != State && q.source == e.source && q.target != e.target && q.target < |c.ts0|
  }

  // Where a reader of a message stands in the reduced graph.
  lemma {:induction false} ReaderPlace(c: Compilation, to: seq<Vertex>, ts: seq<Task>, R: Edges, e: Edge)
    requires c.Valid() && ReducedBy(c, to, ts, R) && Distinct(ts) && |c.ts0| == |c.nodes0|
    requires e in c.es0 && e.kind != State && e.source < |c.ts0| && e.target < |c.ts0|
    requires c.nodes0[e.source].kind.XMessage? && Runs(c.nodes0[e.target].kind)
    ensures ghost var m, r := c.At6(c.At3(e.source)), c.At6(c.At3(e.target));
            && |to| == |ts| && m < |ts| && r < |ts| && to[m] < |ts| && to[r] < |ts| && (m, r) in Pairs(c.es6)
            && ts[to[m]] == c.ts0[e.source] && ts[to[r]] == c.ts0[e.target]
  {
    MessageEdgeMoved(c, e);
    ReductionPermutes(c, to, ts, R);
    hide *;
  }

  lemma {:induction false} ReducedReach(c: Compilation, to: seq<Vertex>, ts: seq<Task>, R: Edges, u: Vertex, v: Vertex)
    requires ReducedBy(c, to, ts, R) && u < |ts| && v < |ts|
    ensures |to| == |ts| == |c.ts6| && (Reaches(R, to[u], to[v]) <==> Reaches(Pairs(c.es6), u, v))
  {
    hide Reaches, Pairs;
  }

  // Two readers are one exactly if they stand in one place.
  lemma {:induction false} ReadersApart(c: Compilation, to: seq<Vertex>, ts: seq<Task>, R: Edges, e: Edge, q: Edge)
    requires c.Valid() && ReducedBy(c, to, ts, R) && Distinct(ts) && |c.ts0| == |c.nodes0|
    requires e in c.es0 && e.kind != State && e.source < |c.ts0| && e.target < |c.ts0|
    requires q in c.es0 && q.kind != State && q.source == e.source && q.target < |c.ts0|
    requires c.nodes0[e.source].kind.XMessage? && Runs(c.nodes0[e.target].kind) && Runs(c.nodes0[q.target].kind)
    ensures c.At6(c.At3(e.target)) == c.At6(c.At3(q.target)) <==> e.target == q.target
    ensures Ordered(ts, R, c.ts0[q.target], c.ts0[e.target]) <==>
            Reaches(Pairs(c.es6), c.At6(c.At3(q.target)), c.At6(c.At3(e.target)))
  {
    StartsDistinct(c);
    hide *;
    ReaderPlace(c, to, ts, R, e);
    ReaderPlace(c, to, ts, R, q);
    var d, r := c.At6(c.At3(q.target)), c.At6(c.At3(e.target));
    AdjacentThere(ts, R, to[d], to[r]);
    ReducedReach(c, to, ts, R, d, r);
    DistinctAt(c.ts0, e.target, q.target);
  }

  lemma StartsDistinct(c: Compilation)
    requires c.Valid()
    ensures Distinct(c.ts0) && MessagesLeadToRuns(c.nodes0, Pairs(c.es0)) && |c.ts0| == |c.nodes0|
  {
  }

  lemma Reduction(c: Compilation, ts: seq<Task>, R: Edges) returns (to: seq<Vertex>)
    requires IsReduced(c, ts, R)
    ensures ReducedBy(c, to, ts, R)
  {
    hide ReducedBy;
    to :| ReducedBy(c, to, ts, R);
  }

  lemma {:induction false} ReducedFrom(n: nat, E: Edges, to: seq<Vertex>, R: Edges, x: Vertex, y: Vertex) returns (a: Vertex, b: Vertex)
    requires IsTransitiveReduction(n, E, to, R) && (x, y) in R
    ensures (a, b) in E && a < n && b < n && |to| == n && to[a] == x && to[b] == y
  {
    hide Reaches;
    var p := (x, y);
    var e :| e in E && e.0 < n && e.1 < n && p == (to[e.0], to[e.1]);
    a, b := e.0, e.1;
  }

  lemma {:induction false} SameTo(n: nat, E: Edges, to: seq<Vertex>, R: Edges, a: Vertex, b: Vertex)
    requires IsTransitiveReduction(n, E, to, R) && a < n && b < n && to[a] == to[b]
    ensures a == b
  {
    hide Reaches;
  }

  // A reader still follows its message directly after the reduction exactly if no
  // other reader of the message comes before it in the compiled graph.
  lemma {:induction false} ReaderNextExactly(c: Compilation, ts: seq<Task>, R: Edges, e: Edge)
    requires c.Valid() && IsReduced(c, ts, R) && Distinct(ts) && |c.ts0| == |c.nodes0|
    requires e in c.es0 && e.kind != State && e.source < |c.ts0| && e.target < |c.ts0|
    requires c.nodes0[e.source].kind.XMessage? && Runs(c.nodes0[e.target].kind)
    ensures Adjacent(ts, R, c.ts0[e.source], c.ts0[e.target]) <==>
            forall q :: OtherReader(c, e, q) ==> !Ordered(ts, R, c.ts0[q.target], c.ts0[e.target])
  {
    var to :| ReducedBy(c, to, ts, R);
    hide *;
    var m, r := c.At6(c.At3(e.source)), c.At6(c.At3(e.target));
    ReaderStaysNext(c, to, ts, R, e);
    ReaderPlace(c, to, ts, R, e);
    AdjacentThere(ts, R, to[m], to[r]);
    if forall q :: OtherReader(c, e, q) ==> !Ordered(ts, R, c.ts0[q.target], c.ts0[e.target]) {
      forall d | (m, d) in Pairs(c.es6) && d != r ensures !Reaches(Pairs(c.es6), d, r) {
        var q := MessageSuccessor(c, e.source, d);
        ReadersApart(c, to, ts, R, e, q);
        OtherReaderIs(c, e, q);
      }
    }
    if q :| OtherReader(c, e, q) && Ordered(ts, R, c.ts0[q.target], c.ts0[e.target]) {
      OtherReaderIs(c, e, q);
      ReaderRuns(c, q);
      ReadersApart(c, to, ts, R, e, q);
      ReaderPlace(c, to, ts, R, q);
    }
  }

  lemma OtherReaderIs(c: Compilation, e: Edge, q: Edge)
    ensures OtherReader(c, e, q) <==>
            q in c.es0 && q.kind != State && q.source == e.source && q.target != e.target && q.target < |c.ts0|
  {
  }

  lemma {:induction false} ReaderRuns(c: Compilation, q: Edge)
    requires c.Valid() && q in c.es0 && q.source < |c.ts0| && q.target < |c.ts0| == |c.nodes0| && c.nodes0[q.source].kind.XMessage?
    ensures Runs(c.nodes0[q.target].kind)
  {
    StartsDistinct(c);
    PairsOf(c.es0, q);
    hide Pairs;
    LeadAt(c.nodes0, Pairs(c.es0), (q.source, q.target));
  }

  // The messages of the compiled graph are those of the state graph.
  lemma {:induction false} MessageComesFrom(c: Compilation, ts: seq<Task>, R: Edges, t: Task) returns (v: Vertex)
    requires c.Valid() && NodesOf(c.ts3) == c.nodes3 && WriteGroups(c.outs, c.groups) && IsReduced(c, ts, R)
    requires t in ts && t.taskType.XMessage?
    ensures v < |c.ts0| == |c.nodes0| && c.ts0[v] == t && c.nodes0[v].kind.XMessage?
  {
    hide *;
    InLastStage(c, ts, R, t);
    LastTasks(c);
    NoOutputIsMessage(c.outs, c.groups, t);
    var w :| 0 <= w < |c.ts3| && c.ts3[w] == t;
    ValidParts(c);
    KeptKinds(c);
    v := InFirstStage(c, w);
  }

  lemma {:induction false} InLastStage(c: Compilation, ts: seq<Task>, R: Edges, t: Task)
    requires IsReduced(c, ts, R) && t in ts
    ensures t in c.ts6
  {
    hide Pairs;
    var to :| ReducedBy(c, to, ts, R);
    var i :| 0 <= i < |ts| && ts[i] == t;
    assert i in to;
    var j :| 0 <= j < |to| && to[j] == i;
    assert ts[to[j]] == c.ts6[j];
  }

  lemma NoOutputIsMessage(outs: seq<Task>, groups: seq<set<string>>, t: Task)
    requires WriteGroups(outs, groups) && t.taskType.XMessage?
    ensures t !in outs
  {
    forall k | 0 <= k < |outs| ensures outs[k].taskType == IoPopWrite {
      assert outs[k].AsNode().kind == IoPopWrite;
    }
  }

  lemma {:induction false} InFirstStage(c: Compilation, w: Vertex) returns (v: Vertex)
    requires c.StartsWell() && c.Contracts() && StartAndEndLast(c.nodes3) && |c.nodes3| == |c.ts3|
    requires c.nodes3[..|c.nodes3| - 2] == Kept(c.nodes0, c.Gone())
    requires w < |c.ts3| && NodesOf(c.ts3) == c.nodes3 && c.ts3[w].taskType.XMessage?
    ensures v < |c.ts0| == |c.nodes0| && c.ts0[v] == c.ts3[w] && c.nodes0[v].kind.XMessage?
  {
    StageSizes(c);
    KeptAt(c.nodes0, c.Gone());
    hide Compilation.StartsWell, Compilation.Contracts, Kept, Rank, Pairs, Acyclic, InRange;
    assert c.nodes3[w] == c.ts3[w].AsNode();
    assert w < |c.nodes3| - 2 && c.nodes3[..|c.nodes3| - 2][w] == c.nodes3[w];
    SameLengths(c);
    v := RankOnto(c.Gone(), |c.nodes0|, w);
  }

  lemma SameLengths(c: Compilation)
    requires c.StartsWell()
    ensures |c.ts0| == |c.nodes0|
  {
  }
}
