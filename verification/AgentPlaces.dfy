/** Where the tasks and edges of each agent stand among those of all agents. */
module AgentPlaces {
  import opened Digraph
  import opened TaskGraph
  import opened Tasks
  import opened AgentGraph
  import opened MergedOrder
  import opened MergedEnds
  import opened ModelXGraph

  // Where the tasks of an agent begin.
  function Offset(agents: seq<Agent>, k: nat): nat
    requires k <= |agents|
  {
    |AllTasks(agents[..k])|
  }

  lemma OffsetIs(agents: seq<Agent>, k: nat)
    requires k <= |agents|
    ensures Offset(agents, k) == |AllTasks(agents[..k])|
  {
  }

  lemma {:induction false} AtOffset(agents: seq<Agent>, k: nat, x: Vertex)
    requires k < |agents| && x < |agents[k].tasks|
    ensures Offset(agents, k) + x < |AllTasks(agents)| && AllTasks(agents)[Offset(agents, k) + x] == agents[k].tasks[x]
    decreases |agents|
  {
    hide *;
    var init, last := agents[..|agents| - 1], agents[|agents| - 1];
    assert agents == init + [last];
    NextTasks(init, last);
    OffsetIs(agents, k);
    if k < |init| {
      assert init[..k] == agents[..k];
      OffsetIs(init, k);
      AtOffset(init, k, x);
    } else {
      assert agents[..k] == init;
    }
  }

  lemma {:induction false} EdgeOfAgent(agents: seq<Agent>, k: nat, x: Vertex, y: Vertex)
    requires k < |agents| && (x, y) in Pairs(agents[k].edges)
    ensures (Offset(agents, k) + x, Offset(agents, k) + y) in AllEdges(agents)
    decreases |agents|
  {
    hide *;
    var init, last := agents[..|agents| - 1], agents[|agents| - 1];
    assert agents == init + [last];
    NextTasks(init, last);
    OffsetIs(agents, k);
    if k < |init| {
      assert init[..k] == agents[..k];
      OffsetIs(init, k);
      EdgeOfAgent(init, k, x, y);
    } else {
      assert agents[..k] == init;
      BehindHas(|AllTasks(init)|, Pairs(last.edges), (|AllTasks(init)| + x, |AllTasks(init)| + y));
    }
  }

  lemma {:induction false} AgentOfEdge(agents: seq<Agent>, p: (Vertex, Vertex)) returns (k: nat, x: Vertex, y: Vertex)
    requires p in AllEdges(agents)
    ensures k < |agents| && (x, y) in Pairs(agents[k].edges) && p == (Offset(agents, k) + x, Offset(agents, k) + y)
    decreases |agents|
  {
    hide *;
    SomeAgent(agents, p);
    var init, last := agents[..|agents| - 1], agents[|agents| - 1];
    assert agents == init + [last];
    NextTasks(init, last);
    if p in AllEdges(init) {
      k, x, y := AgentOfEdge(init, p);
      assert init[..k] == agents[..k];
      OffsetIs(init, k);
    } else {
      var n := |AllTasks(init)|;
      BehindHas(n, Pairs(last.edges), p);
      k, x, y := |init|, p.0 - n, p.1 - n;
      assert agents[..k] == init;
    }
    OffsetIs(agents, k);
  }

  lemma SomeAgent(agents: seq<Agent>, p: (Vertex, Vertex))
    requires p in AllEdges(agents)
    ensures agents != []
  {
  }

  lemma AgentEdgesInRange(a: Agent, x: Vertex, y: Vertex)
    requires AgentValid(a) && (x, y) in Pairs(a.edges)
    ensures x < |a.tasks| && y < |a.tasks| && Distinct(a.tasks)
  {
    hide Acyclic, Pairs;
    assert InRange(Pairs(a.edges), |KindsOf(a.tasks)|);
    assert (x, y).0 < |a.tasks|;
  }

  lemma {:induction false} AgentOfTask(agents: seq<Agent>, v: Vertex) returns (k: nat, x: Vertex)
    requires v < |AllTasks(agents)|
    ensures k < |agents| && x < |agents[k].tasks| && v == Offset(agents, k) + x && AllTasks(agents)[v] == agents[k].tasks[x]
    decreases |agents|
  {
    hide *;
    TasksOfSome(agents, v);
    var init, last := agents[..|agents| - 1], agents[|agents| - 1];
    assert agents == init + [last];
    NextTasks(init, last);
    if v < |AllTasks(init)| {
      k, x := AgentOfTask(init, v);
      assert init[..k] == agents[..k];
      OffsetIs(init, k);
    } else {
      k, x := |init|, v - |AllTasks(init)|;
      assert agents[..k] == init;
    }
    OffsetIs(agents, k);
  }

  lemma TasksOfSome(agents: seq<Agent>, v: Vertex)
    requires v < |AllTasks(agents)|
    ensures agents != []
  {
  }

  // ------------------------------------------------------- start and finish of the union

  lemma {:induction false} AgentsBounded(agents: seq<Agent>)
    ensures Bounded(LabelsOf(AllTasks(agents)), Pairs(UnionEdges(agents, KindsOf(AllTasks(agents)))))
  {
    hide *;
    if agents != [] {
      var init, last := agents[..|agents| - 1], agents[|agents| - 1];
      assert agents == init + [last];
      AgentsBounded(init);
      OneMoreBounded(init, last);
    } else {
      NothingBounded();
    }
  }

  lemma {:induction false} OneMoreBounded(agents: seq<Agent>, agent: Agent)
    requires Bounded(LabelsOf(AllTasks(agents)), Pairs(UnionEdges(agents, KindsOf(AllTasks(agents)))))
    ensures ghost var more := agents + [agent];
            Bounded(LabelsOf(AllTasks(more)), Pairs(UnionEdges(more, KindsOf(AllTasks(more)))))
  {
    hide *;
    var before, more := AllTasks(agents), agents + [agent];
    NextTasks(agents, agent);
    assert KindsOf(AllTasks(more)) == KindsOf(before) + KindsOf(agent.tasks);
    assert LabelsOf(AllTasks(more)) == LabelsOf(before) + LabelsOf(agent.tasks);
    NextUnion(agents, agent, KindsOf(before), KindsOf(agent.tasks));
    BoundedGrows(LabelsOf(before), UnionEdges(agents, KindsOf(before)), LabelsOf(agent.tasks), KindsOf(agent.tasks), agent.edges);
  }

  lemma {:induction false} NothingBounded()
    ensures Bounded(LabelsOf(AllTasks([])), Pairs(UnionEdges([], KindsOf(AllTasks([])))))
  {
  }

  lemma {:induction false} UnionBounded(agents: seq<Agent>, ts: seq<Task>, es: set<Edge>)
    requires IsUnion(ts, es, agents)
    ensures Bounded(LabelsOf(AllTasks(agents)), Pairs(es))
  {
    AgentsBounded(agents);
    hide AllTasks, UnionEdges, Pairs, Bounded;
    assert KindsOf(ts)[2..] == KindsOf(AllTasks(agents));
  }
}
