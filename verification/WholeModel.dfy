/** The whole model graph: what the agents' dependency graphs promise still holds
    once they are merged, synchronised and cleared. */
module WholeModel {
  import opened Digraph
  import opened DataFlow
  import opened TaskGraph
  import opened Tasks
  import opened AgentGraph
  import opened ModelGraph
  import opened XGraphs
  import opened ModelXGraph
  import opened MergedOrder
  import opened MergedEnds
  import opened AgentPlaces

  // ----------------------------------------------------------- the promises

  // Every task but the agents' own starts is there, messages standing replaced.
  ghost predicate KeepsTasks(agents: seq<Agent>, ts: seq<Task>)
    reads ts, set a, t | a in agents && t in a.tasks :: t
  {
    forall k, a :: 0 <= k < |agents| && a in agents[k].tasks && !a.taskType.StartAgent? ==>
      exists x :: x in ts && StandsFor(x, a)
  }

  // The order of each agent's graph holds in the model graph.
  ghost predicate KeepsAgentOrders(agents: seq<Agent>, ts: seq<Task>, E: Edges)
    reads ts, set a, t | a in agents && t in a.tasks :: t
  {
    forall k, a, b :: 0 <= k < |agents| && a in agents[k].tasks && b in agents[k].tasks
      && !a.taskType.StartAgent? && !b.taskType.StartAgent?
      && Ordered(agents[k].tasks, Pairs(agents[k].edges), a, b)
      ==> OrderedForGood(ts, E, a, b)
  }

  // A synchronisation task is there for the sake of some agent's message.
  ghost predicate SyncsInUse(agents: seq<Agent>, ts: seq<Task>)
    reads ts, set a, t | a in agents && t in a.tasks :: t
  {
    forall s :: s in ts && s.taskType.XMessageSync? ==>
      exists k, m :: 0 <= k < |agents| && m in agents[k].tasks && StandsFor(s, m) && m.taskType.XMessage?
  }

  // Clearing a message waits for the tasks next to it in any agent's graph.
  ghost predicate ReadersBeforeClear(agents: seq<Agent>, ts: seq<Task>, E: Edges)
    reads ts, set a, t | a in agents && t in a.tasks :: t
  {
    forall k, m, r :: 0 <= k < |agents| && m in agents[k].tasks && r in agents[k].tasks
      && m.taskType.XMessage? && !r.taskType.XMessage? && !r.taskType.StartAgent?
      && Adjacent(agents[k].tasks, Pairs(agents[k].edges), m, r)
      ==> exists c :: c in ts && IsClearOf(c, m) && Ordered(ts, E, r, c)
  }

  ghost predicate IsClearOf(c: Task, m: Task)
    reads c, m
  {
    c.taskType.XMessageClear? && c.name == m.name
  }

  // A poster of a message in one agent comes before a reader in any other.
  lemma PosterBeforeReader(agents: seq<Agent>, ts: seq<Task>, E: Edges, j: nat, k: nat, p: Task, m: Task, m': Task, r: Task)
    requires KeepsAgentOrders(agents, ts, E) && OneSyncPerMessage(ts) && Distinct(ts)
    requires j < |agents| && k < |agents|
    requires p in agents[j].tasks && m in agents[j].tasks && m' in agents[k].tasks && r in agents[k].tasks
    requires m.taskType.XMessage? && m'.taskType.XMessage? && m.name == m'.name
    requires !p.taskType.XMessage? && !p.taskType.StartAgent? && !r.taskType.XMessage? && !r.taskType.StartAgent?
    requires Ordered(agents[j].tasks, Pairs(agents[j].edges), p, m)
    requires Ordered(agents[k].tasks, Pairs(agents[k].edges), m', r)
    ensures Ordered(ts, E, p, r)
  {
    assert OrderedForGood(ts, E, p, m) && OrderedForGood(ts, E, m', r);
    var x, s :| x in ts && s in ts && StandsFor(x, p) && StandsFor(s, m) && Ordered(ts, E, x, s);
    var s', y :| s' in ts && y in ts && StandsFor(s', m') && StandsFor(y, r) && Ordered(ts, E, s', y);
    assert s == s' && x == p && y == r;
    var a, b :| 0 <= a < |ts| && 0 <= b < |ts| && ts[a] == p && ts[b] == s && Reaches(E, a, b);
    var b', c :| 0 <= b' < |ts| && 0 <= c < |ts| && ts[b'] == s && ts[c] == r && Reaches(E, b', c);
    assert b == b';
    Transitive(E, a, b, c);
  }

  // ------------------------------------------------- what each stage carries over

  lemma LabelsOfKept(ts: seq<Task>, del: set<Vertex>)
    ensures LabelsOf(Kept(ts, del)) == Kept(LabelsOf(ts), del)
  {
    KeptAt(ts, del);
    KeptAt(LabelsOf(ts), del);
    forall k | 0 <= k < |Kept(ts, del)| ensures LabelsOf(Kept(ts, del))[k] == Kept(LabelsOf(ts), del)[k] {
      var i := RankOnto(del, |ts|, k);
    }
  }

  // The starts of the agents, in the merged graph.
  ghost predicate AreStarts(ts: seq<Task>, cs: seq<Vertex>)
    reads ts
  {
    && (forall v :: v in cs <==> 0 <= v < |ts| && ts[v].taskType.StartAgent?)
    && (forall i, j :: 0 <= i < j < |cs| ==> cs[i] != cs[j])
  }

  lemma TaskContracted(ts: seq<Task>, cs: seq<Vertex>, a: Task)
    requires AreStarts(ts, cs) && a in ts && !a.taskType.StartAgent?
    ensures a in Kept(ts, Elements(cs))
  {
    var i :| 0 <= i < |ts| && ts[i] == a;
    KeptAt(ts, Elements(cs));
  }

  lemma EdgeContracted(ts: seq<Task>, es: set<Edge>, cs: seq<Vertex>, a: Task, b: Task)
    requires AreStarts(ts, cs) && Adjacent(ts, Pairs(es), a, b)
    requires !a.taskType.StartAgent? && !b.taskType.StartAgent?
    ensures Adjacent(Kept(ts, Elements(cs)), Pairs(Contracted(es, cs, Blank)), a, b)
  {
    var del := Elements(cs);
    var i, j :| 0 <= i < |ts| && 0 <= j < |ts| && ts[i] == a && ts[j] == b && (i, j) in Pairs(es);
    var e :| e in es && (i, j) == (e.source, e.target);
    BypassesOnlyAdd(es, cs, Blank);
    KeptAt(ts, del);
    assert Moved(del, e) in Contracted(es, cs, Blank);
    assert (Rank(del, i), Rank(del, j)) in Pairs(Contracted(es, cs, Blank));
  }

  // A message's reader follows its synchronisation directly.
  lemma EdgeSynchronised(ts: seq<Task>, E: Edges, all: seq<Task>, es: set<Edge>, m: Task, r: Task)
    returns (s: Task)
    requires SyncProgress(LabelsOf(ts), E, |all|, LabelsOf(all), Pairs(es)) && ts <= all
    requires Adjacent(ts, E, m, r) && m.taskType.XMessage? && !r.taskType.XMessage?
    ensures ghost var M := MessagesOf(LabelsOf(all));
            StandsFor(s, m) && Adjacent(Kept(all, M), Pairs(Renumbered(es, M)), s, r)
  {
    hide SyncProgress, Find, Kept, Rank, Pairs, Renumbered, Redirect, MessagesOf;
    var labels0, labels := LabelsOf(ts), LabelsOf(all);
    var M, n := MessagesOf(labels), |labels|;
    var i, j :| 0 <= i < |ts| && 0 <= j < |ts| && ts[i] == m && ts[j] == r && (i, j) in E;
    var x, y := Redirect(labels, n, i), Redirect(labels, n, j);
    SyncedEdgeStays(labels0, E, labels, es, i, j);
    Standing(ts, E, all, Pairs(es), i);
    Standing(ts, E, all, Pairs(es), j);
    hide *;
    KeptOne(all, M, x);
    KeptOne(all, M, y);
    assert all[y] == r by { StandsItself(all[y], r); }
    AdjacentAt(Kept(all, M), Pairs(Renumbered(es, M)), Rank(M, x), Rank(M, y));
    s := all[x];
  }

  lemma StandsItself(x: Task, a: Task)
    requires StandsFor(x, a) && !a.taskType.XMessage?
    ensures x == a
  {
  }

  lemma AdjacentAt(ts: seq<Task>, E: Edges, i: Vertex, j: Vertex)
    requires i < |ts| && j < |ts| && (i, j) in E
    ensures Adjacent(ts, E, ts[i], ts[j])
  {
  }

  lemma SyncedEdgeStays(labels0: seq<Label>, E0: Edges, labels: seq<Label>, es: set<Edge>, u: Vertex, v: Vertex)
    requires SyncProgress(labels0, E0, |labels|, labels, Pairs(es)) && (u, v) in E0
    ensures ghost var M, n := MessagesOf(labels), |labels|;
            (Rank(M, Redirect(labels, n, u)), Rank(M, Redirect(labels, n, v))) in Pairs(Renumbered(es, M))
  {
    hide SyncProgress, Find, Rank, Pairs, Renumbered, Redirect, MessagesOf;
    var M := MessagesOf(labels);
    var f: Vertex -> Vertex := x => Redirect(labels, |labels|, x);
    var g: Vertex -> Vertex := x => Rank(M, x);
    SyncedEdges(labels0, E0, labels, Pairs(es));
    PairsRenumbered(es, M);
    assert (f((u, v).0), f((u, v).1)) in Image(E0, f);
    var p := (f(u), f(v));
    assert (g(p.0), g(p.1)) in Image(Avoiding(Pairs(es), M), g);
  }

  lemma TaskSynchronised(ts: seq<Task>, E: Edges, all: seq<Task>, es: set<Edge>, a: Task)
    requires SyncProgress(LabelsOf(ts), E, |all|, LabelsOf(all), Pairs(es)) && ts <= all && a in ts
    ensures exists x :: x in Kept(all, MessagesOf(LabelsOf(all))) && StandsFor(x, a)
  {
    hide *;
    var i :| 0 <= i < |ts| && ts[i] == a;
    var r := Redirect(LabelsOf(all), |LabelsOf(all)|, i);
    Standing(ts, E, all, Pairs(es), i);
    KeptOne(all, MessagesOf(LabelsOf(all)), r);
    assert all[r] in Kept(all, MessagesOf(LabelsOf(all))) && StandsFor(all[r], a);
  }

  // A synchronisation task stands for a message of the graph.
  lemma SyncComesFrom(ts: seq<Task>, E: Edges, all: seq<Task>, es: set<Edge>, s: Task)
    requires SyncProgress(LabelsOf(ts), E, |all|, LabelsOf(all), Pairs(es)) && ts <= all
    requires s in all && s.taskType.XMessageSync?
    ensures exists m :: m in ts && m.taskType.XMessage? && StandsFor(s, m)
  {
    SamePlace(LabelsOf(ts), E, all, Pairs(es), s);
    OneSyncEach(LabelsOf(ts), E, LabelsOf(all), Pairs(es), s.name);
    hide SyncProgress, Find;
    var i :| 0 <= i < |LabelsOf(ts)| && LabelsOf(ts)[i] == Label(XMessage, s.name);
    assert ts[i] in ts && StandsFor(s, ts[i]);
  }

  // Clearing a message waits for what directly follows its synchronisation.
  lemma ClearedAfter(ts: seq<Task>, E: Edges, ts': seq<Task>, E': Edges, s: Task, r: Task)
    requires ClearsExactly(LabelsOf(ts), E, LabelsOf(ts'), E') && ts <= ts'
    requires Adjacent(ts, E, s, r) && s.taskType.XMessageSync?
    ensures exists c :: c in ts' && c.taskType.XMessageClear? && c.name == s.name && Ordered(ts', E', r, c)
  {
    var i, j :| 0 <= i < |ts| && 0 <= j < |ts| && ts[i] == s && ts[j] == r && (i, j) in E;
    assert LabelsOf(ts)[i].kind.XMessageSync?;
    var c: Vertex :| ClearedAt(LabelsOf(ts), E, LabelsOf(ts'), E', i, c);
    assert LabelsOf(ts')[c] == Label(XMessageClear, s.name);
    assert Reaches(E', j, c) && ts'[j] == r && ts'[c] in ts';
  }

  // ------------------------------------------------------------ the whole run

  // The stages of the merged graph: the agents side by side, their starts
  // contracted, the scan for messages over, the messages gone, the clears in.
  datatype Merging = Merging(ts1: seq<Task>, es1: set<Edge>, starts: seq<Vertex>, all: seq<Task>, es: set<Edge>,
                             ts4: seq<Task>, es4: set<Edge>)
  {
    ghost function Ts2(): seq<Task> { Kept(ts1, Elements(starts)) }
    ghost function Es2(): set<Edge> { Contracted(es1, starts, Blank) }
    ghost function Gone(): set<Vertex> reads all { MessagesOf(LabelsOf(all)) }
    ghost function Ts3(): seq<Task> reads all { Kept(all, Gone()) }
    ghost function Es3(): set<Edge> reads all { Renumbered(es, Gone()) }

    ghost predicate Unites(agents: seq<Agent>)
      reads ts1
    {
      && IsUnion(ts1, es1, agents)
      && InRange(Pairs(es1), |ts1|) && AreStarts(ts1, starts)
      && (forall j :: 0 <= j < |agents| ==> Embeds(agents[j].tasks, Pairs(agents[j].edges), ts1, Pairs(es1)))
      && (forall t :: t in ts1 ==> !t.taskType.XMessage? || exists j :: 0 <= j < |agents| && t in agents[j].tasks)
    }

    ghost predicate Synchronises()
      reads ts1, all
    {
      && (forall t :: t in Ts2() ==> t in ts1) && Ts2() <= all
      && SyncProgress(LabelsOf(Ts2()), Pairs(Es2()), |all|, LabelsOf(all), Pairs(es))
    }

    ghost predicate Clears()
      reads all, ts4
    {
      && Ts3() <= ts4
      && LabelsOf(ts4) == LabelsOf(Ts3()) + ClearLabels(LabelsOf(Ts3()), |Ts3()|)
      && Pairs(es4) == Pairs(Es3()) + ClearEdges(LabelsOf(Ts3()), Pairs(Es3()), |Ts3()|)
      && InRange(Pairs(Es3()), |Ts3()|)
    }
  }

  lemma OrderMerged(agents: seq<Agent>, c: Merging, k: nat, a: Task, b: Task)
    requires c.Unites(agents) && c.Synchronises() && c.Clears() && k < |agents|
    requires a in agents[k].tasks && b in agents[k].tasks && !a.taskType.StartAgent? && !b.taskType.StartAgent?
    requires Ordered(agents[k].tasks, Pairs(agents[k].edges), a, b)
    ensures OrderedForGood(c.ts4, Pairs(c.es4), a, b)
  {
    hide SyncProgress, Ordered, OrderedForGood, Contracted, Renumbered, Kept, Pairs, ClearEdges, ClearLabels, MessagesOf, InRange;
    assert Ordered(c.ts1, Pairs(c.es1), a, b);
    assert forall i :: 0 <= i < |c.ts1| && i in c.starts ==> c.ts1[i] != a && c.ts1[i] != b;
    OrderContracted(c.ts1, c.es1, c.starts, a, b);
    OrderSynchronised(c.Ts2(), Pairs(c.Es2()), c.all, c.es, a, b);
    OrderExtended(c.Ts3(), Pairs(c.Es3()), c.ts4, Pairs(c.es4), a, b);
  }

  lemma TaskMerged(agents: seq<Agent>, c: Merging, k: nat, a: Task)
    requires c.Unites(agents) && c.Synchronises() && c.Clears() && k < |agents|
    requires a in agents[k].tasks && !a.taskType.StartAgent?
    ensures exists x :: x in c.ts4 && StandsFor(x, a)
  {
    hide SyncProgress, Contracted, Renumbered, Kept, Pairs, ClearEdges, ClearLabels, MessagesOf, InRange;
    TaskContracted(c.ts1, c.starts, a);
    TaskSynchronised(c.Ts2(), Pairs(c.Es2()), c.all, c.es, a);
    var x :| x in c.Ts3() && StandsFor(x, a);
    assert x in c.ts4;
  }

  lemma ReaderMerged(agents: seq<Agent>, c: Merging, k: nat, m: Task, r: Task)
    requires c.Unites(agents) && c.Synchronises() && c.Clears() && k < |agents|
    requires m in agents[k].tasks && r in agents[k].tasks
    requires m.taskType.XMessage? && !r.taskType.XMessage? && !r.taskType.StartAgent?
    requires Adjacent(agents[k].tasks, Pairs(agents[k].edges), m, r)
    ensures exists c4 :: c4 in c.ts4 && IsClearOf(c4, m) && Ordered(c.ts4, Pairs(c.es4), r, c4)
  {
    hide SyncProgress, Ordered, Adjacent, Contracted, Renumbered, Kept, Pairs, ClearEdges, ClearLabels, MessagesOf, InRange;
    assert Adjacent(c.ts1, Pairs(c.es1), m, r);
    EdgeContracted(c.ts1, c.es1, c.starts, m, r);
    var s := EdgeSynchronised(c.Ts2(), Pairs(c.Es2()), c.all, c.es, m, r);
    ClearsAreExact(LabelsOf(c.Ts3()), Pairs(c.Es3()));
    hide ClearsExactly;
    ClearedAfter(c.Ts3(), Pairs(c.Es3()), c.ts4, Pairs(c.es4), s, r);
  }

  // The synchronisation tasks of the final graph were there before the clears.
  lemma SyncsBeforeClears(c: Merging, s: Task)
    requires c.Clears() && s in c.ts4 && s.taskType.XMessageSync?
    ensures s in c.Ts3()
  {
    hide Renumbered, Kept, Pairs, ClearEdges, ClearLabels, MessagesOf, InRange;
    var i :| 0 <= i < |c.ts4| && c.ts4[i] == s;
    var labels := LabelsOf(c.Ts3());
    ClearLabelsKinds(labels, |labels|);
    assert LabelsOf(c.ts4)[i].kind == XMessageSync;
    assert !(i >= |c.Ts3()|);
    assert c.Ts3()[i] == s;
  }

  lemma {:induction false} ClearLabelsKinds(labels: seq<Label>, k: nat)
    requires k <= |labels|
    ensures forall i :: 0 <= i < |ClearLabels(labels, k)| ==> ClearLabels(labels, k)[i].kind.XMessageClear?
  {
    if k > 0 {
      ClearLabelsKinds(labels, k - 1);
    }
  }

  lemma SyncUsed(agents: seq<Agent>, c: Merging, s: Task)
    requires c.Unites(agents) && c.Synchronises() && c.Clears() && s in c.ts4 && s.taskType.XMessageSync?
    ensures exists k, m :: 0 <= k < |agents| && m in agents[k].tasks && StandsFor(s, m) && m.taskType.XMessage?
  {
    hide SyncProgress, Contracted, Renumbered, Kept, Pairs, ClearEdges, ClearLabels, MessagesOf, InRange;
    SyncsBeforeClears(c, s);
    KeptComesFrom(c.all, c.Gone(), s);
    SyncComesFrom(c.Ts2(), Pairs(c.Es2()), c.all, c.es, s);
    var m :| m in c.Ts2() && m.taskType.XMessage? && StandsFor(s, m);
    assert m in c.ts1;
    var j :| 0 <= j < |agents| && m in agents[j].tasks;
  }

  lemma OneSyncMerged(c: Merging)
    requires c.Synchronises() && c.Clears()
    ensures OneSyncPerMessage(c.ts4)
  {
    hide SyncProgress, Contracted, Renumbered, Kept, Pairs, ClearEdges, ClearLabels, MessagesOf, InRange;
    SyncsAreUnique(LabelsOf(c.Ts2()), Pairs(c.Es2()), c.all, Pairs(c.es), c.Ts3());
    forall s | s in c.ts4 && s.taskType.XMessageSync? ensures s in c.Ts3() {
      SyncsBeforeClears(c, s);
    }
  }

  // What the merged graph keeps of its agents.
  ghost predicate KeepsAgents(agents: seq<Agent>, ts: seq<Task>, E: Edges)
    reads ts, set a, t | a in agents && t in a.tasks :: t
  {
    && KeepsTasks(agents, ts) && KeepsAgentOrders(agents, ts, E)
    && OneSyncPerMessage(ts) && SyncsInUse(agents, ts) && ReadersBeforeClear(agents, ts, E)
  }

  lemma MergingKeepsAgents(agents: seq<Agent>, c: Merging)
    requires c.Unites(agents) && c.Synchronises() && c.Clears()
    ensures KeepsAgents(agents, c.ts4, Pairs(c.es4))
  {
    hide KeepsTasks, KeepsAgentOrders, OneSyncPerMessage, SyncsInUse, ReadersBeforeClear, Pairs, Merging.Unites, Merging.Synchronises, Merging.Clears;
    OneSyncMerged(c);
    MergingKeepsTasks(agents, c);
    MergingKeepsOrders(agents, c);
    MergedSyncsInUse(agents, c);
    MergedReadersBeforeClear(agents, c);
  }

  lemma MergingKeepsTasks(agents: seq<Agent>, c: Merging)
    requires c.Unites(agents) && c.Synchronises() && c.Clears()
    ensures KeepsTasks(agents, c.ts4)
  {
    hide StandsFor, Merging.Unites, Merging.Synchronises, Merging.Clears;
    forall k, a | 0 <= k < |agents| && a in agents[k].tasks && !a.taskType.StartAgent?
      ensures exists x :: x in c.ts4 && StandsFor(x, a)
    {
      TaskMerged(agents, c, k, a);
    }
  }

  lemma MergingKeepsOrders(agents: seq<Agent>, c: Merging)
    requires c.Unites(agents) && c.Synchronises() && c.Clears()
    ensures KeepsAgentOrders(agents, c.ts4, Pairs(c.es4))
  {
    hide Ordered, OrderedForGood, Pairs, Merging.Unites, Merging.Synchronises, Merging.Clears;
    forall k, a, b | 0 <= k < |agents| && a in agents[k].tasks && b in agents[k].tasks
      && !a.taskType.StartAgent? && !b.taskType.StartAgent?
      && Ordered(agents[k].tasks, Pairs(agents[k].edges), a, b)
      ensures OrderedForGood(c.ts4, Pairs(c.es4), a, b)
    {
      OrderMerged(agents, c, k, a, b);
    }
  }

  lemma MergedSyncsInUse(agents: seq<Agent>, c: Merging)
    requires c.Unites(agents) && c.Synchronises() && c.Clears()
    ensures SyncsInUse(agents, c.ts4)
  {
    hide StandsFor, Merging.Unites, Merging.Synchronises, Merging.Clears;
    forall s | s in c.ts4 && s.taskType.XMessageSync?
      ensures exists k, m :: 0 <= k < |agents| && m in agents[k].tasks && StandsFor(s, m) && m.taskType.XMessage?
    {
      SyncUsed(agents, c, s);
    }
  }

  lemma MergedReadersBeforeClear(agents: seq<Agent>, c: Merging)
    requires c.Unites(agents) && c.Synchronises() && c.Clears()
    ensures ReadersBeforeClear(agents, c.ts4, Pairs(c.es4))
  {
    hide Ordered, Adjacent, Pairs, IsClearOf, Merging.Unites, Merging.Synchronises, Merging.Clears;
    forall k, m, r | 0 <= k < |agents| && m in agents[k].tasks && r in agents[k].tasks
      && m.taskType.XMessage? && !r.taskType.XMessage? && !r.taskType.StartAgent?
      && Adjacent(agents[k].tasks, Pairs(agents[k].edges), m, r)
      ensures exists c4 :: c4 in c.ts4 && IsClearOf(c4, m) && Ordered(c.ts4, Pairs(c.es4), r, c4)
    {
      ReaderMerged(agents, c, k, m, r);
    }
  }

  // Contracts the agents' starts; only the model's own start is left.
  method ContractStarts(model: XGraph, ghost agents: seq<Agent>) returns (ghost c: Merging)
    requires UnionOf(model, agents, |agents|)
    modifies model`vertex2task, model`edges
    ensures c.Unites(agents) && model.vertex2task == c.Ts2() && model.edges == c.Es2()
    ensures AllValid(model.vertex2task) && (forall t :: t in c.Ts2() ==> t in c.ts1)
    ensures InRange(Pairs(model.edges), |model.vertex2task|) && Acyclic(Pairs(model.edges))
    ensures forall t :: t in model.vertex2task ==> t.taskType != XMessageSync
    ensures MessagesApart(LabelsOf(model.vertex2task), Pairs(model.edges))
  {
    hide *;
    ghost var ts1, es1 := model.vertex2task, model.edges;
    ghost var cs := IndicesOf(NodesOf(ts1), StartAgent);
    UnionIsValid(model, agents);
    c := Merging(ts1, es1, cs, [], {}, [], {});
    StartsFound(ts1);
    UnionUnites(model, agents, c);
    StartsContracted(ts1, es1, cs);
    SecondStage(c);
    ghost var labels2 := LabelsOf(c.Ts2());
    model.ContractVertices(StartAgent, Blank);
    assert LabelsOf(c.Ts2()) == labels2;
    ValidTasks(model);
  }

  lemma SecondStage(c: Merging)
    ensures c.Ts2() == Kept(c.ts1, Elements(c.starts)) && c.Es2() == Contracted(c.es1, c.starts, Blank)
  {
  }

  lemma UnionIsValid(model: XGraph, agents: seq<Agent>)
    requires UnionOf(model, agents, |agents|)
    ensures model.Valid() && AllValid(model.vertex2task) && UnionReady(KindsOf(model.vertex2task), model.edges, 0, 1)
    ensures InRange(Pairs(model.edges), |model.vertex2task|) && Acyclic(Pairs(model.edges))
  {
    hide IsUnion, Embeds, AllValid, Pairs, InRange, Acyclic, UnionReady;
    FramedUnion(KindsOf(model.vertex2task), model.edges);
    ValidGraph(model);
  }

  lemma StartsFound(ts: seq<Task>)
    ensures AreStarts(ts, IndicesOf(NodesOf(ts), StartAgent))
  {
    hide IndicesOf;
    IndicesAscending(NodesOf(ts), StartAgent);
  }

  lemma UnionUnites(model: XGraph, agents: seq<Agent>, c: Merging)
    requires UnionOf(model, agents, |agents|) && c.ts1 == model.vertex2task && c.es1 == model.edges
    requires InRange(Pairs(c.es1), |c.ts1|) && AreStarts(c.ts1, c.starts)
    ensures c.Unites(agents)
  {
    hide IsUnion, Embeds, AllValid, Pairs, InRange, UnionReady, AreStarts;
    assert agents[..|agents|] == agents;
  }

  lemma FramedUnion(kinds: seq<TaskType>, es: set<Edge>)
    requires UnionReady(kinds, es, 0, 1)
    ensures InRange(Pairs(es), |kinds|) && Acyclic(Pairs(es))
  {
  }

  lemma StartsContracted(ts: seq<Task>, es: set<Edge>, cs: seq<Vertex>)
    requires AllValid(ts) && UnionReady(KindsOf(ts), es, 0, 1) && AreStarts(ts, cs)
    ensures ghost var ts', es' := Kept(ts, Elements(cs)), Contracted(es, cs, Blank);
            && AllValid(ts') && (forall t :: t in ts' ==> t in ts)
            && InRange(Pairs(es'), |ts'|) && Acyclic(Pairs(es'))
            && (forall t :: t in ts' ==> t.taskType != XMessageSync)
            && MessagesApart(LabelsOf(ts'), Pairs(es'))
  {
    hide UnionReady, Pairs, Contracted, Kept, Acyclic, InRange, Elements;
    var ts', kinds := Kept(ts, Elements(cs)), KindsOf(ts);
    KeptDistinct(ts, Elements(cs));
    KindsOfKept(ts, Elements(cs));
    assert forall v :: v in cs <==> 0 <= v < |kinds| && kinds[v] == StartAgent;
    ContractedUnion(kinds, es, cs);
    assert KindsOf(ts') == Kept(kinds, Elements(cs));
    forall t | t in ts' ensures t.taskType != XMessageSync {
      var i :| 0 <= i < |ts'| && ts'[i] == t;
      assert KindsOf(ts')[i] == t.taskType;
    }
  }

  // Synchronises the messages of the merged graph.
  method Synchronise(model: XGraph, ghost agents: seq<Agent>, ghost c: Merging) returns (ghost c': Merging)
    requires c.Unites(agents)
    requires model.vertex2task == c.Ts2() && model.edges == c.Es2() && (forall t :: t in c.Ts2() ==> t in c.ts1)
    requires AllValid(model.vertex2task)
    requires InRange(Pairs(model.edges), |model.vertex2task|) && Acyclic(Pairs(model.edges))
    requires forall t :: t in model.vertex2task ==> t.taskType != XMessageSync
    requires MessagesApart(LabelsOf(model.vertex2task), Pairs(model.edges))
    modifies model`vertex2task, model`edges
    ensures c'.Unites(agents) && c'.Synchronises()
    ensures model.vertex2task == c'.Ts3() && model.edges == c'.Es3() && AllValid(model.vertex2task)
    ensures InRange(Pairs(model.edges), |model.vertex2task|)
    ensures SyncsApart(LabelsOf(model.vertex2task), Pairs(model.edges))
  {
    ghost var ts2, es2 := c.Ts2(), c.Es2();
    hide *;
    ghost var all, es := ChangeMessageTasksToSync(model);
    SynchronisedGraph(ts2, es2, all, es);
    c' := Synchronised(agents, c, ts2, es2, all, es);
  }

  lemma Synchronised(agents: seq<Agent>, c: Merging, ts2: seq<Task>, es2: set<Edge>, all: seq<Task>, es: set<Edge>) returns (c': Merging)
    requires ts2 == c.Ts2() && es2 == c.Es2() && ts2 <= all && (forall t :: t in ts2 ==> t in c.ts1) && c.Unites(agents)
    requires SyncProgress(LabelsOf(ts2), Pairs(es2), |all|, LabelsOf(all), Pairs(es))
    ensures c'.Ts3() == Kept(all, MessagesOf(LabelsOf(all))) && c'.Es3() == Renumbered(es, MessagesOf(LabelsOf(all)))
    ensures c'.Synchronises() && c'.Unites(agents)
  {
    hide SyncProgress, Kept, Renumbered, Contracted, Pairs, MessagesOf, InRange, AreStarts, Embeds;
    c' := c.(all := all, es := es);
  }

  lemma SynchronisedGraph(ts: seq<Task>, es0: set<Edge>, all: seq<Task>, es: set<Edge>)
    requires SyncProgress(LabelsOf(ts), Pairs(es0), |all|, LabelsOf(all), Pairs(es))
    requires MessagesApart(LabelsOf(ts), Pairs(es0))
    ensures ghost var M := MessagesOf(LabelsOf(all));
            && InRange(Pairs(Renumbered(es, M)), |Kept(all, M)|)
            && SyncsApart(LabelsOf(Kept(all, M)), Pairs(Renumbered(es, M)))
  {
    hide *;
    var labels := LabelsOf(all);
    var M := MessagesOf(labels);
    SyncsApartAfter(LabelsOf(ts), Pairs(es0), labels, es, Kept(labels, M));
    LabelsOfKept(all, M);
    DoubledInRange(LabelsOf(ts), Pairs(es0), |all|, labels, Pairs(es));
    RenumberedInRange(es, M, |all|);
    KeptAt(all, M);
  }

  // Clears the messages of the merged graph.
  method Clear(model: XGraph, ghost agents: seq<Agent>, ghost c: Merging) returns (ghost c': Merging)
    requires c.Unites(agents) && c.Synchronises()
    requires model.vertex2task == c.Ts3() && model.edges == c.Es3() && AllValid(model.vertex2task)
    requires InRange(Pairs(model.edges), |model.vertex2task|) && SyncsApart(LabelsOf(model.vertex2task), Pairs(model.edges))
    modifies model`vertex2task, model`edges
    ensures c'.Unites(agents) && c'.Synchronises()
    ensures c'.Clears() && c'.ts4 == model.vertex2task && c'.es4 == model.edges && AllValid(model.vertex2task)
  {
    ghost var ts3, es3 := c.Ts3(), c.Es3();
    hide *;
    AddMessageClearTasks(model);
    c' := Cleared(agents, c, ts3, es3, model.vertex2task, model.edges);
  }

  lemma Cleared(agents: seq<Agent>, c: Merging, ts3: seq<Task>, es3: set<Edge>, ts4: seq<Task>, es4: set<Edge>)
    returns (c': Merging)
    requires c.Unites(agents) && c.Synchronises()
    requires ts3 == c.Ts3() && es3 == c.Es3() && ts3 <= ts4 && InRange(Pairs(es3), |ts3|)
    requires LabelsOf(ts4) == LabelsOf(ts3) + ClearLabels(LabelsOf(ts3), |ts3|)
    requires Pairs(es4) == Pairs(es3) + ClearEdges(LabelsOf(ts3), Pairs(es3), |ts3|)
    ensures c'.Unites(agents) && c'.Synchronises()
    ensures c'.Clears() && c'.ts4 == ts4 && c'.es4 == es4
  {
    hide SyncProgress, Kept, Renumbered, Contracted, Pairs, MessagesOf, InRange, AreStarts, Embeds, ClearLabels, ClearEdges;
    c' := c.(ts4 := ts4, es4 := es4);
  }

  // ------------------------------------------- the merged graph and the agents

  ghost function StagesOf(agents: seq<Agent>, c: Merging): Stages
    reads AllTasks(agents), c.ts1, c.all
  {
    Stages(LabelsOf(AllTasks(agents)), AllEdges(agents), LabelsOf(c.ts1), c.es1, c.starts, LabelsOf(c.all), c.es)
  }

  lemma {:induction false} UnionSides(agents: seq<Agent>, ts: seq<Task>, es: set<Edge>)
    requires (forall a :: a in agents ==> AgentValid(a)) && IsUnion(ts, es, agents)
    ensures LabelsOf(ts)[2..] == LabelsOf(AllTasks(agents))
    ensures SideBySide(LabelsOf(AllTasks(agents)), AllEdges(agents), LabelsOf(ts), Pairs(es))
  {
    AgentsUnited(agents);
    hide AllTasks, AllEdges, UnionEdges, AgentValid, OfAgents, Pairs;
    assert LabelsOf(ts)[2..] == LabelsOf(AllTasks(agents));
    assert KindsOf(ts)[2..] == KindsOf(AllTasks(agents));
  }

  lemma {:induction false} StartsAre(ts: seq<Task>, cs: seq<Vertex>)
    requires AreStarts(ts, cs) && |ts| >= 2 && ts[0].taskType == StartModel && ts[1].taskType == FinishModel
    ensures StartsOf(LabelsOf(ts)[2..], cs)
  {
  }

  lemma {:induction false} StagesValid(agents: seq<Agent>, c: Merging)
    requires (forall a :: a in agents ==> AgentValid(a)) && c.Unites(agents) && c.Synchronises() && c.Clears()
    ensures ghost var g := StagesOf(agents, c);
            && g.Valid() && g.Labels3() == LabelsOf(c.Ts3()) && g.E3() == Pairs(c.Es3()) && g.E4() == Pairs(c.es4)
            && LabelsOf(c.ts4) == g.Labels3() + ClearLabels(g.Labels3(), |g.Labels3()|)
  {
    UnionSides(agents, c.ts1, c.es1);
    StartsAre(c.ts1, c.starts);
    LabelsOfKept(c.ts1, Elements(c.starts));
    LabelsOfKept(c.all, c.Gone());
    hide SyncProgress, SideBySide, StartsOf, Contracted, Renumbered, Kept, Pairs, ClearEdges, ClearLabels, MessagesOf, IsUnion,
      InRange, AllTasks, AllEdges, AreStarts, Embeds, Elements;
  }

  // An agents' task that is no start.
  ghost predicate IsInner(agents: seq<Agent>, v: Vertex)
    reads AllTasks(agents)
  {
    Inner(LabelsOf(AllTasks(agents)), v)
  }

  // Two tasks are ordered in the model exactly if the agents and their messages order them.
  ghost predicate OrdersExactly(agents: seq<Agent>, ts: seq<Task>, E: Edges)
    reads AllTasks(agents), ts
  {
    forall i: Vertex, j: Vertex :: IsInner(agents, i) && IsInner(agents, j) ==> OrderedExactly(agents, ts, E, i, j)
  }

  ghost predicate OrderedExactly(agents: seq<Agent>, ts: seq<Task>, E: Edges, i: Vertex, j: Vertex)
    requires i < |AllTasks(agents)| && j < |AllTasks(agents)|
    reads AllTasks(agents), ts
  {
    var labels := LabelsOf(AllTasks(agents));
    OrderedForGood(ts, E, AllTasks(agents)[i], AllTasks(agents)[j]) <==> Reaches(SharedOrder(agents), Canon(labels, i), Canon(labels, j))
  }

  // What stands for a comes before c.
  ghost predicate OrderedBefore(ts: seq<Task>, E: Edges, a: Task, c: Task)
    reads ts, a
  {
    exists x :: x in ts && StandsFor(x, a) && Ordered(ts, E, x, c)
  }

  // Each message has a task that clears it after exactly the tasks that must be over then.
  ghost predicate ClearsAfterExactly(agents: seq<Agent>, ts: seq<Task>, E: Edges)
    reads AllTasks(agents), ts
  {
    forall m: Vertex :: IsInner(agents, m) && AllTasks(agents)[m].taskType == XMessage ==> ClearedExactly(agents, ts, E, m)
  }

  ghost predicate ClearedExactly(agents: seq<Agent>, ts: seq<Task>, E: Edges, m: Vertex)
    requires m < |AllTasks(agents)|
    reads AllTasks(agents), ts
  {
    exists c :: c in ts && IsClearOf(c, AllTasks(agents)[m]) && forall r: Vertex :: IsInner(agents, r) ==>
      (OrderedBefore(ts, E, AllTasks(agents)[r], c) <==> BeforeClear(LabelsOf(AllTasks(agents)), AllEdges(agents), m, r))
  }

  // In the merged graph, w is the place of what stands for a.
  ghost predicate OnlyAt(ts: seq<Task>, a: Task, w: Vertex)
    reads ts, a
  {
    w < |ts| && StandsFor(ts[w], a) && forall i: Vertex :: i < |ts| && StandsFor(ts[i], a) ==> i == w
  }

  lemma {:induction false} TaskOnlyAt(agents: seq<Agent>, c: Merging, v: Vertex)
    requires (forall a :: a in agents ==> AgentValid(a)) && c.Unites(agents) && c.Synchronises() && c.Clears()
    requires Distinct(c.ts4) && OneSyncPerMessage(c.ts4) && IsInner(agents, v)
    ensures OnlyAt(c.ts4, AllTasks(agents)[v], StagesOf(agents, c).At(v))
  {
    var a, w := AllTasks(agents)[v], StagesOf(agents, c).At(v);
    TaskThere(agents, c, v);
    hide *;
    OnlyThere(c.ts4, a, w);
  }

  lemma OnlyThere(ts: seq<Task>, a: Task, w: Vertex)
    requires Distinct(ts) && OneSyncPerMessage(ts) && w < |ts| && StandsFor(ts[w], a)
    ensures OnlyAt(ts, a, w)
  {
    forall i: Vertex | i < |ts| && StandsFor(ts[i], a) ensures i == w {
      assert ts[i] == ts[w];
    }
  }

  lemma {:induction false} TaskThere(agents: seq<Agent>, c: Merging, v: Vertex)
    requires (forall a :: a in agents ==> AgentValid(a)) && c.Unites(agents) && c.Synchronises() && c.Clears() && IsInner(agents, v)
    ensures ghost var w := StagesOf(agents, c).At(v); w < |c.ts4| && StandsFor(c.ts4[w], AllTasks(agents)[v])
  {
    hide *;
    StagesValid(agents, c);
    StagesLabels(agents, c);
    StagesAt(StagesOf(agents, c), v);
    if AllTasks(agents)[v].taskType == XMessage {
      SyncStands(c.ts4, StagesOf(agents, c).Labels3(), StagesOf(agents, c).At(v), AllTasks(agents)[v]);
    } else {
      SameTaskThere(agents, c, v);
      ItselfStands(AllTasks(agents)[v]);
    }
  }

  lemma {:induction false} StagesLabels(agents: seq<Agent>, c: Merging)
    ensures StagesOf(agents, c).labels == LabelsOf(AllTasks(agents)) && StagesOf(agents, c).all == LabelsOf(c.all)
    ensures StagesOf(agents, c).D == AllEdges(agents) && StagesOf(agents, c).starts == c.starts
    ensures StagesOf(agents, c).labels1 == LabelsOf(c.ts1) && StagesOf(agents, c).Gone() == c.Gone()
    ensures forall v: Vertex :: IsInner(agents, v) <==> Inner(LabelsOf(AllTasks(agents)), v)
    ensures forall v: Vertex :: IsInner(agents, v) ==> v < |AllTasks(agents)|
  {
    hide AllTasks, AllEdges;
  }

  lemma {:induction false} SyncStands(ts: seq<Task>, labels: seq<Label>, w: Vertex, a: Task)
    requires labels <= LabelsOf(ts) && w < |labels| && labels[w] == Label(XMessageSync, a.name) && a.taskType == XMessage
    ensures w < |ts| && StandsFor(ts[w], a)
  {
    assert LabelsOf(ts)[w] == labels[w];
  }

  lemma ItselfStands(a: Task)
    requires a.taskType != XMessage
    ensures StandsFor(a, a)
  {
  }

  // A task that is no message is found again itself.
  lemma {:induction false} SameTaskThere(agents: seq<Agent>, c: Merging, v: Vertex)
    requires (forall a :: a in agents ==> AgentValid(a)) && c.Unites(agents) && c.Synchronises() && c.Clears() && IsInner(agents, v)
    requires AllTasks(agents)[v].taskType != XMessage
    ensures ghost var w := StagesOf(agents, c).At(v); w < |c.ts4| && c.ts4[w] == AllTasks(agents)[v]
  {
    hide *;
    StagesValid(agents, c);
    StagesLabels(agents, c);
    var g := StagesOf(agents, c);
    StagesAt(g, v);
    TwoIs(agents, c, v);
    StagesThree(g, v);
    KeptOne(c.all, c.Gone(), AtThree(g.starts, g.all, v));
    ThirdTasks(c);
  }

  lemma {:induction false} StagesThree(g: Stages, v: Vertex)
    requires g.Valid() && Inner(g.labels, v) && !g.labels[v].kind.XMessage?
    ensures AtThree(g.starts, g.all, v) == AtTwo(g.starts, v)
  {
    StagesPlace(g);
    assert SideBySide(g.labels, g.D, g.labels1, Pairs(g.es1)) && StartsOf(g.labels, g.starts);
    hide Kept, AtTwo, AtThree, AllSynced, MessagesOf, Places, Pairs, Contracted, SyncProgress, StartsOf;
    AtThreeIs(g.labels, g.labels1, g.starts, g.all, v);
  }

  lemma {:induction false} TwoIs(agents: seq<Agent>, c: Merging, v: Vertex)
    requires c.Unites(agents) && c.Synchronises() && IsInner(agents, v)
    ensures ghost var w := AtTwo(c.starts, v); w < |c.all| && c.all[w] == AllTasks(agents)[v]
  {
    hide Kept, Rank, SyncProgress, Embeds, AllTasks, UnionEdges, InRange, Pairs;
    KeptOne(c.ts1, Elements(c.starts), 2 + v);
    assert c.ts1[2 + v] == c.ts1[2..][v];
    assert c.Ts2()[AtTwo(c.starts, v)] == c.all[AtTwo(c.starts, v)];
  }

  lemma {:induction false} ThirdTasks(c: Merging)
    requires c.Clears()
    ensures c.Ts3() == Kept(c.all, c.Gone()) && |c.Ts3()| <= |c.ts4| && forall i :: 0 <= i < |c.Ts3()| ==> c.ts4[i] == c.Ts3()[i]
  {
    hide Kept, MessagesOf, ClearLabels, ClearEdges, Renumbered, Pairs, InRange;
  }

  lemma {:induction false} OrderedAt(ts: seq<Task>, E: Edges, a: Task, b: Task, v: Vertex, w: Vertex)
    requires OnlyAt(ts, a, v) && OnlyAt(ts, b, w)
    ensures OrderedForGood(ts, E, a, b) <==> Reaches(E, v, w)
  {
    hide StandsFor, Reaches;
    if OrderedForGood(ts, E, a, b) {
      var x, y :| x in ts && y in ts && StandsFor(x, a) && StandsFor(y, b) && Ordered(ts, E, x, y);
      var i, j :| 0 <= i < |ts| && 0 <= j < |ts| && ts[i] == x && ts[j] == y && Reaches(E, i, j);
      assert i == v && j == w;
    }
    if Reaches(E, v, w) {
      OrderedForGoodAt(ts, E, a, b, v, w);
    }
  }

  lemma {:induction false} BeforeAt(ts: seq<Task>, E: Edges, a: Task, c: Task, v: Vertex, w: Vertex)
    requires OnlyAt(ts, a, v) && Distinct(ts) && w < |ts| && ts[w] == c
    ensures OrderedBefore(ts, E, a, c) <==> Reaches(E, v, w)
  {
    hide StandsFor, Reaches;
    if OrderedBefore(ts, E, a, c) {
      var x :| x in ts && StandsFor(x, a) && Ordered(ts, E, x, c);
      var i, j :| 0 <= i < |ts| && 0 <= j < |ts| && ts[i] == x && ts[j] == c && Reaches(E, i, j);
      assert i == v && j == w;
    }
    if Reaches(E, v, w) {
      assert Ordered(ts, E, ts[v], c);
    }
  }

  lemma {:induction false} OrderIsExact(agents: seq<Agent>, c: Merging, i: Vertex, j: Vertex)
    requires (forall a :: a in agents ==> AgentValid(a)) && c.Unites(agents) && c.Synchronises() && c.Clears()
    requires Distinct(c.ts4) && OneSyncPerMessage(c.ts4) && IsInner(agents, i) && IsInner(agents, j)
    ensures i < |AllTasks(agents)| && j < |AllTasks(agents)| && OrderedExactly(agents, c.ts4, Pairs(c.es4), i, j)
  {
    hide *;
    StagesValid(agents, c);
    StagesLabels(agents, c);
    var g := StagesOf(agents, c);
    TaskOnlyAt(agents, c, i);
    TaskOnlyAt(agents, c, j);
    OrderedAt(c.ts4, Pairs(c.es4), AllTasks(agents)[i], AllTasks(agents)[j], g.At(i), g.At(j));
    FinalReaches(g, i, j);
    OrderedExactlyBy(agents, c.ts4, Pairs(c.es4), i, j);
  }

  lemma OrderedExactlyBy(agents: seq<Agent>, ts: seq<Task>, E: Edges, i: Vertex, j: Vertex)
    requires i < |AllTasks(agents)| && j < |AllTasks(agents)|
    requires ghost var labels := LabelsOf(AllTasks(agents));
             OrderedForGood(ts, E, AllTasks(agents)[i], AllTasks(agents)[j])
             <==> Reaches(Shared(labels, AllEdges(agents)), Canon(labels, i), Canon(labels, j))
    ensures OrderedExactly(agents, ts, E, i, j)
  {
    hide AllTasks, AllEdges, Shared, Canon, OrderedForGood, Reaches;
  }

  lemma {:induction false} OrdersAreExact(agents: seq<Agent>, c: Merging)
    requires (forall a :: a in agents ==> AgentValid(a)) && c.Unites(agents) && c.Synchronises() && c.Clears()
    requires Distinct(c.ts4) && OneSyncPerMessage(c.ts4)
    ensures OrdersExactly(agents, c.ts4, Pairs(c.es4))
  {
    hide AgentValid, Merging.Unites, Merging.Synchronises, Merging.Clears, Distinct, OneSyncPerMessage, OrderedExactly, IsInner, Pairs;
    forall i: Vertex, j: Vertex | IsInner(agents, i) && IsInner(agents, j)
      ensures i < |AllTasks(agents)| && j < |AllTasks(agents)| && OrderedExactly(agents, c.ts4, Pairs(c.es4), i, j)
    {
      OrderIsExact(agents, c, i, j);
    }
  }

  // The task that clears message m.
  lemma {:induction false} ClearThere(agents: seq<Agent>, c: Merging, m: Vertex) returns (w: Vertex)
    requires (forall a :: a in agents ==> AgentValid(a)) && c.Unites(agents) && c.Synchronises() && c.Clears()
    requires IsInner(agents, m) && AllTasks(agents)[m].taskType == XMessage
    ensures w < |c.ts4| && IsClearOf(c.ts4[w], AllTasks(agents)[m])
    ensures forall r: Vertex :: IsInner(agents, r) ==>
              (Reaches(Pairs(c.es4), StagesOf(agents, c).At(r), w) <==> BeforeClear(LabelsOf(AllTasks(agents)), AllEdges(agents), m, r))
  {
    hide *;
    StagesValid(agents, c);
    StagesLabels(agents, c);
    var g := StagesOf(agents, c);
    StagesAt(g, m);
    w := ClearOf(g.Labels3(), g.At(m));
    ClearIs(c.ts4, g.Labels3(), g.At(m), AllTasks(agents)[m]);
    forall r: Vertex | IsInner(agents, r)
      ensures Reaches(Pairs(c.es4), g.At(r), w) <==> BeforeClear(LabelsOf(AllTasks(agents)), AllEdges(agents), m, r)
    {
      FinalClears(g, m, r);
    }
  }

  lemma {:induction false} ClearIs(ts: seq<Task>, labels: seq<Label>, s: Vertex, a: Task)
    requires LabelsOf(ts) == labels + ClearLabels(labels, |labels|) && s < |labels| && labels[s] == Label(XMessageSync, a.name)
    ensures ClearOf(labels, s) < |ts| && IsClearOf(ts[ClearOf(labels, s)], a)
  {
    hide ClearLabels;
    ClearLabelsGrow(labels, s, |labels|);
    assert LabelsOf(ts)[ClearOf(labels, s)] == Label(XMessageClear, a.name);
  }

  lemma {:induction false} ClearIsExact(agents: seq<Agent>, c: Merging, m: Vertex)
    requires (forall a :: a in agents ==> AgentValid(a)) && c.Unites(agents) && c.Synchronises() && c.Clears()
    requires Distinct(c.ts4) && OneSyncPerMessage(c.ts4)
    requires IsInner(agents, m) && m < |AllTasks(agents)| && AllTasks(agents)[m].taskType == XMessage
    ensures ClearedExactly(agents, c.ts4, Pairs(c.es4), m)
  {
    hide *;
    var w := ClearThere(agents, c, m);
    StagesLabels(agents, c);
    var d := c.ts4[w];
    forall r: Vertex | IsInner(agents, r)
      ensures OrderedBefore(c.ts4, Pairs(c.es4), AllTasks(agents)[r], d) <==> BeforeClear(LabelsOf(AllTasks(agents)), AllEdges(agents), m, r)
    {
      TaskOnlyAt(agents, c, r);
      BeforeAt(c.ts4, Pairs(c.es4), AllTasks(agents)[r], d, StagesOf(agents, c).At(r), w);
    }
    ClearedExactlyBy(agents, c.ts4, Pairs(c.es4), m, d);
  }

  lemma ClearedExactlyBy(agents: seq<Agent>, ts: seq<Task>, E: Edges, m: Vertex, c: Task)
    requires m < |AllTasks(agents)| && c in ts && IsClearOf(c, AllTasks(agents)[m])
    requires forall r: Vertex :: IsInner(agents, r) ==> r < |AllTasks(agents)|
    requires forall r: Vertex :: IsInner(agents, r) ==>
               (OrderedBefore(ts, E, AllTasks(agents)[r], c) <==> BeforeClear(LabelsOf(AllTasks(agents)), AllEdges(agents), m, r))
    ensures ClearedExactly(agents, ts, E, m)
  {
    hide AllTasks, AllEdges, IsClearOf, IsInner, OrderedBefore, BeforeClear;
  }

  lemma {:induction false} ClearsAreAfterExactly(agents: seq<Agent>, c: Merging)
    requires (forall a :: a in agents ==> AgentValid(a)) && c.Unites(agents) && c.Synchronises() && c.Clears()
    requires Distinct(c.ts4) && OneSyncPerMessage(c.ts4)
    ensures ClearsAfterExactly(agents, c.ts4, Pairs(c.es4))
  {
    StagesLabels(agents, c);
    hide AgentValid, Merging.Unites, Merging.Synchronises, Merging.Clears, Distinct, OneSyncPerMessage, ClearedExactly, IsInner, Pairs, AllTasks;
    forall m: Vertex | IsInner(agents, m) && AllTasks(agents)[m].taskType == XMessage
      ensures ClearedExactly(agents, c.ts4, Pairs(c.es4), m)
    {
      ClearIsExact(agents, c, m);
    }
  }

  lemma SharedOrderIs(agents: seq<Agent>)
    ensures SharedOrder(agents) == Shared(LabelsOf(AllTasks(agents)), AllEdges(agents))
  {
  }

  lemma {:induction false} AllEdgesAcyclic(agents: seq<Agent>)
    requires forall a :: a in agents ==> AgentValid(a)
    ensures Acyclic(AllEdges(agents)) && InRange(AllEdges(agents), |AllTasks(agents)|)
  {
    hide *;
    AgentsUnited(agents);
    UnitedRange(agents);
    if agents == [] {
      NoAgents();
    } else {
      var init, last := agents[..|agents| - 1], agents[|agents| - 1];
      assert agents == init + [last];
      AllEdgesAcyclic(init);
      NextTasks(init, last);
      AgentIsReady(last);
      ReadyAcyclic(KindsOf(last.tasks), Pairs(last.edges));
      BehindAcyclic(|AllTasks(init)|, AllEdges(init), Pairs(last.edges));
    }
  }

  lemma {:induction false} UnitedRange(agents: seq<Agent>)
    requires United(LabelsOf(AllTasks(agents)), AllEdges(agents), Pairs(UnionEdges(agents, KindsOf(AllTasks(agents)))))
    ensures InRange(AllEdges(agents), |AllTasks(agents)|)
  {
    hide AllTasks, AllEdges, UnionEdges;
  }

  lemma NoAgents()
    ensures Acyclic(AllEdges([]))
  {
    forall v: Vertex ensures !Reaches({}, v, v) {
      if Reaches({}, v, v) {
        var m := FirstEdge({}, v, v);
      }
    }
  }

  lemma ReadyAcyclic(kinds: seq<TaskType>, E: Edges)
    requires AgentReady(kinds, E)
    ensures Acyclic(E)
  {
  }

  // Agents that share no message can always be merged.
  lemma {:induction false} UnsharedIsAcyclic(agents: seq<Agent>)
    requires (forall a :: a in agents ==> AgentValid(a)) && UsedOnce(LabelsOf(AllTasks(agents)))
    ensures SharedOrder(agents) == AllEdges(agents) && Acyclic(SharedOrder(agents))
    ensures forall v: Vertex :: v < |AllTasks(agents)| ==> Canon(LabelsOf(AllTasks(agents)), v) == v
  {
    hide *;
    AllEdgesAcyclic(agents);
    NothingTakenForOne(LabelsOf(AllTasks(agents)), AllEdges(agents));
    SharedOrderIs(agents);
  }

  // ------------------------------------------------------------ start and finish

  // An agent's output.
  ghost predicate IsOutputTask(agents: seq<Agent>, x: Task)
    reads x
  {
    x.taskType == IoPopWrite && exists k :: 0 <= k < |agents| && x in agents[k].tasks
  }

  // y is what an agent's start leads to, or stands for that.
  ghost predicate FollowsStart(agents: seq<Agent>, y: Task)
    reads y, set a, t | a in agents && t in a.tasks :: t
  {
    exists k, s, b :: 0 <= k < |agents| && s in agents[k].tasks && b in agents[k].tasks && s.taskType == StartAgent
                      && Adjacent(agents[k].tasks, Pairs(agents[k].edges), s, b) && StandsFor(y, b)
  }

  // The model starts where its agents do and finishes with their outputs.
  ghost predicate ModelHasEnds(agents: seq<Agent>, ts: seq<Task>, E: Edges)
    reads ts, set a, t | a in agents && t in a.tasks :: t
  {
    && |ts| >= 2 && ts[0].taskType == StartModel && ts[1].taskType == FinishModel
    && (forall x :: x in ts ==> (Adjacent(ts, E, x, ts[1]) <==> IsOutputTask(agents, x)))
    && (forall y :: y in ts ==> (Adjacent(ts, E, ts[0], y) <==> FollowsStart(agents, y)))
  }

  lemma {:induction false} EndsThere(agents: seq<Agent>, c: Merging)
    requires (forall a :: a in agents ==> AgentValid(a)) && c.Unites(agents) && c.Synchronises() && c.Clears()
    ensures ghost var g := StagesOf(agents, c); Ends(g.labels, g.D, Pairs(c.es4), v => g.At(v), 0, 1)
    ensures |c.ts4| >= 2 && c.ts4[0].taskType == StartModel && c.ts4[1].taskType == FinishModel
  {
    hide *;
    StagesValid(agents, c);
    StagesLabels(agents, c);
    var g := StagesOf(agents, c);
    UnitesUnion(agents, c);
    UnionBounded(agents, c.ts1, c.es1);
    StagesFirst(agents, c);
    FinalEnds(g);
    EndsInThird(g);
    StagesSides(g);
    FirstLabels(c.ts4, g.Labels3(), g.labels1);
  }

  lemma UnitesUnion(agents: seq<Agent>, c: Merging)
    requires c.Unites(agents)
    ensures IsUnion(c.ts1, c.es1, agents) && AreStarts(c.ts1, c.starts)
  {
    hide IsUnion, Embeds, AreStarts;
  }

  lemma StagesFirst(agents: seq<Agent>, c: Merging)
    ensures StagesOf(agents, c).es1 == c.es1
  {
    hide AllTasks, AllEdges;
  }

  lemma FirstLabels(ts: seq<Task>, labels: seq<Label>, labels1: seq<Label>)
    requires LabelsOf(ts) == labels + ClearLabels(labels, |labels|) && |labels| >= 2 && |labels1| >= 2
    requires labels[0] == labels1[0] && labels[1] == labels1[1]
    ensures |ts| >= 2 && ts[0].taskType == labels1[0].kind && ts[1].taskType == labels1[1].kind
  {
    hide ClearLabels;
    assert LabelsOf(ts)[0] == labels[0] && LabelsOf(ts)[1] == labels[1];
  }

  // Exactly the agents' outputs lead to the finish.
  lemma {:induction false} FinishIsExact(agents: seq<Agent>, c: Merging, x: Task)
    requires (forall a :: a in agents ==> AgentValid(a)) && c.Unites(agents) && c.Synchronises() && c.Clears()
    requires Distinct(c.ts4) && |c.ts4| >= 2 && x in c.ts4
    ensures Adjacent(c.ts4, Pairs(c.es4), x, c.ts4[1]) <==> IsOutputTask(agents, x)
  {
    hide *;
    var g := StagesOf(agents, c);
    EndsThere(agents, c);
    StagesLabels(agents, c);
    if Adjacent(c.ts4, Pairs(c.es4), x, c.ts4[1]) {
      var i, j := AdjacentVertices(c.ts4, Pairs(c.es4), x, c.ts4[1]);
      DistinctAt(c.ts4, j, 1);
      EndsAt(g.labels, g.D, Pairs(c.es4), v => g.At(v), 0, 1, i);
      var v := OutputOf(g.labels, v => g.At(v), i);
      OutputIsInner(agents, v);
      SameTaskThere(agents, c, v);
      var k, y := AgentOfTask(agents, v);
      OutputIs(agents, k, x);
    }
    if IsOutputTask(agents, x) {
      var v := OutputVertex(agents, x);
      OutputIsInner(agents, v);
      SameTaskThere(agents, c, v);
      OutputAt(g.labels, v => g.At(v), v);
      EndsAt(g.labels, g.D, Pairs(c.es4), v => g.At(v), 0, 1, g.At(v));
      AdjacentAt(c.ts4, Pairs(c.es4), g.At(v), 1);
    }
  }

  lemma OutputOf(labels: seq<Label>, f: Vertex -> Vertex, q: Vertex) returns (v: Vertex)
    requires IsOutput(labels, f, q)
    ensures v < |labels| && labels[v].kind.IoPopWrite? && q == f(v)
  {
    v :| v < |labels| && labels[v].kind.IoPopWrite? && q == f(v);
  }

  lemma OutputAt(labels: seq<Label>, f: Vertex -> Vertex, v: Vertex)
    requires v < |labels| && labels[v].kind.IoPopWrite?
    ensures IsOutput(labels, f, f(v))
  {
  }

  lemma OutputIs(agents: seq<Agent>, k: nat, x: Task)
    requires k < |agents| && x in agents[k].tasks && x.taskType == IoPopWrite
    ensures IsOutputTask(agents, x)
  {
  }

  lemma OutputIsInner(agents: seq<Agent>, v: Vertex)
    requires v < |AllTasks(agents)| && LabelsOf(AllTasks(agents))[v].kind.IoPopWrite?
    ensures IsInner(agents, v) && AllTasks(agents)[v].taskType == IoPopWrite
  {
    hide AllTasks;
  }

  lemma {:induction false} OutputVertex(agents: seq<Agent>, x: Task) returns (v: Vertex)
    requires IsOutputTask(agents, x)
    ensures v < |AllTasks(agents)| && AllTasks(agents)[v] == x && LabelsOf(AllTasks(agents))[v].kind.IoPopWrite?
  {
    hide AllTasks, Offset;
    var k: nat :| k < |agents| && x in agents[k].tasks;
    var i: Vertex :| i < |agents[k].tasks| && agents[k].tasks[i] == x;
    AtOffset(agents, k, i);
    v := Offset(agents, k) + i;
  }

  // The start leads to exactly what the agents' starts lead to.
  lemma {:induction false} StartIsExact(agents: seq<Agent>, c: Merging, y: Task)
    requires (forall a :: a in agents ==> AgentValid(a)) && c.Unites(agents) && c.Synchronises() && c.Clears()
    requires Distinct(c.ts4) && OneSyncPerMessage(c.ts4) && |c.ts4| >= 2 && y in c.ts4
    ensures Adjacent(c.ts4, Pairs(c.es4), c.ts4[0], y) <==> FollowsStart(agents, y)
  {
    hide *;
    var g := StagesOf(agents, c);
    EndsThere(agents, c);
    StagesLabels(agents, c);
    if Adjacent(c.ts4, Pairs(c.es4), c.ts4[0], y) {
      var i, j := AdjacentVertices(c.ts4, Pairs(c.es4), c.ts4[0], y);
      DistinctAt(c.ts4, i, 0);
      EndsAt(g.labels, g.D, Pairs(c.es4), v => g.At(v), 0, 1, j);
      var e := FollowedIn(g.labels, g.D, v => g.At(v), j);
      var k, u, w := StartEdge(agents, e);
      TaskThere(agents, c, e.1);
      FollowsBy(agents, k, agents[k].tasks[u], agents[k].tasks[w], y);
    }
    if FollowsStart(agents, y) {
      var k, s, b := FollowsWhich(agents, y);
      var e := EdgeOfStart(agents, k, s, b);
      var q: Vertex :| q < |c.ts4| && c.ts4[q] == y;
      TaskOnlyAt(agents, c, e.1);
      OnlyThat(c.ts4, AllTasks(agents)[e.1], g.At(e.1), q);
      StartFollows(g.labels, g.D, v => g.At(v), e);
      EndsAt(g.labels, g.D, Pairs(c.es4), v => g.At(v), 0, 1, q);
      AdjacentAt(c.ts4, Pairs(c.es4), 0, q);
    }
  }

  lemma FollowedIn(labels: seq<Label>, D: Edges, f: Vertex -> Vertex, q: Vertex) returns (e: (Vertex, Vertex))
    requires Follows(labels, D, f, q)
    ensures e in D && e.0 < |labels| && labels[e.0].kind.StartAgent? && q == f(e.1)
  {
    e :| e in D && e.0 < |labels| && labels[e.0].kind.StartAgent? && q == f(e.1);
  }

  // An edge out of an agent's start, and in that agent.
  lemma {:induction false} StartEdge(agents: seq<Agent>, e: (Vertex, Vertex)) returns (k: nat, u: Vertex, w: Vertex)
    requires (forall a :: a in agents ==> AgentValid(a)) && e in AllEdges(agents) && e.0 < |AllTasks(agents)|
    requires LabelsOf(AllTasks(agents))[e.0].kind.StartAgent?
    ensures k < |agents| && u < |agents[k].tasks| && w < |agents[k].tasks| && agents[k].tasks[u].taskType == StartAgent
    ensures Adjacent(agents[k].tasks, Pairs(agents[k].edges), agents[k].tasks[u], agents[k].tasks[w])
    ensures e.1 < |AllTasks(agents)| && AllTasks(agents)[e.1] == agents[k].tasks[w] && IsInner(agents, e.1)
  {
    hide *;
    k, u, w := AgentOfEdge(agents, e);
    AgentEdgesInRange(agents[k], u, w);
    AtOffset(agents, k, u);
    AtOffset(agents, k, w);
    AdjacentAt(agents[k].tasks, Pairs(agents[k].edges), u, w);
    NoStartBehind(agents[k], u, w);
    NoStartIsInner(agents, e.1);
    StartLabel(agents, e.0);
  }

  lemma StartLabel(agents: seq<Agent>, v: Vertex)
    requires v < |AllTasks(agents)|
    ensures LabelsOf(AllTasks(agents))[v].kind == AllTasks(agents)[v].taskType
  {
    hide AllTasks;
  }

  lemma NoStartBehind(a: Agent, u: Vertex, w: Vertex)
    requires AgentValid(a) && (u, w) in Pairs(a.edges) && w < |a.tasks|
    ensures a.tasks[w].taskType != StartAgent
  {
    hide Acyclic, AllValid, Pairs;
    assert AgentReady(KindsOf(a.tasks), Pairs(a.edges));
    assert !KindsOf(a.tasks)[(u, w).1].StartAgent?;
  }

  lemma NoStartIsInner(agents: seq<Agent>, v: Vertex)
    requires v < |AllTasks(agents)| && AllTasks(agents)[v].taskType != StartAgent
    ensures IsInner(agents, v)
  {
    hide AllTasks;
  }

  lemma {:induction false} EdgeOfStart(agents: seq<Agent>, k: nat, s: Task, b: Task) returns (e: (Vertex, Vertex))
    requires (forall a :: a in agents ==> AgentValid(a)) && k < |agents|
    requires s.taskType == StartAgent && Adjacent(agents[k].tasks, Pairs(agents[k].edges), s, b)
    ensures e in AllEdges(agents) && e.0 < |AllTasks(agents)| && LabelsOf(AllTasks(agents))[e.0].kind.StartAgent?
    ensures e.1 < |AllTasks(agents)| && AllTasks(agents)[e.1] == b && IsInner(agents, e.1)
  {
    hide *;
    var u, w := AdjacentVertices(agents[k].tasks, Pairs(agents[k].edges), s, b);
    AtOffset(agents, k, u);
    AtOffset(agents, k, w);
    EdgeOfAgent(agents, k, u, w);
    NoStartBehind(agents[k], u, w);
    e := (Offset(agents, k) + u, Offset(agents, k) + w);
    StartLabel(agents, e.0);
    NoStartIsInner(agents, e.1);
  }

  lemma FollowsBy(agents: seq<Agent>, k: nat, s: Task, b: Task, y: Task)
    requires k < |agents| && s in agents[k].tasks && b in agents[k].tasks && s.taskType == StartAgent
    requires Adjacent(agents[k].tasks, Pairs(agents[k].edges), s, b) && StandsFor(y, b)
    ensures FollowsStart(agents, y)
  {
    hide Adjacent, Pairs, StandsFor;
  }

  lemma FollowsWhich(agents: seq<Agent>, y: Task) returns (k: nat, s: Task, b: Task)
    requires FollowsStart(agents, y)
    ensures k < |agents| && s in agents[k].tasks && b in agents[k].tasks && s.taskType == StartAgent
    ensures Adjacent(agents[k].tasks, Pairs(agents[k].edges), s, b) && StandsFor(y, b)
  {
    hide Adjacent, Pairs, StandsFor;
    k, s, b :| 0 <= k < |agents| && s in agents[k].tasks && b in agents[k].tasks && s.taskType == StartAgent
               && Adjacent(agents[k].tasks, Pairs(agents[k].edges), s, b) && StandsFor(y, b);
  }

  lemma OnlyThat(ts: seq<Task>, a: Task, w: Vertex, q: Vertex)
    requires OnlyAt(ts, a, w) && q < |ts| && StandsFor(ts[q], a)
    ensures q == w
  {
    hide StandsFor;
  }

  /** Where the model starts and finishes. */
  lemma {:induction false} EndsAreExact(agents: seq<Agent>, c: Merging)
    requires (forall a :: a in agents ==> AgentValid(a)) && c.Unites(agents) && c.Synchronises() && c.Clears()
    requires Distinct(c.ts4) && OneSyncPerMessage(c.ts4)
    ensures ModelHasEnds(agents, c.ts4, Pairs(c.es4))
  {
    hide *;
    EndsThere(agents, c);
    forall x | x in c.ts4
      ensures Adjacent(c.ts4, Pairs(c.es4), x, c.ts4[1]) <==> IsOutputTask(agents, x)
      ensures Adjacent(c.ts4, Pairs(c.es4), c.ts4[0], x) <==> FollowsStart(agents, x)
    {
      FinishIsExact(agents, c, x);
      StartIsExact(agents, c, x);
    }
    AreModelEnds(agents, c.ts4, Pairs(c.es4));
  }

  lemma AreModelEnds(agents: seq<Agent>, ts: seq<Task>, E: Edges)
    requires |ts| >= 2 && ts[0].taskType == StartModel && ts[1].taskType == FinishModel
    requires forall x :: x in ts ==> (Adjacent(ts, E, x, ts[1]) <==> IsOutputTask(agents, x))
    requires forall y :: y in ts ==> (Adjacent(ts, E, ts[0], y) <==> FollowsStart(agents, y))
    ensures ModelHasEnds(agents, ts, E)
  {
    hide Adjacent, IsOutputTask, FollowsStart;
  }

  // What an agent's start comes before, the model's start comes before.
  ghost predicate StartsBeforeAll(agents: seq<Agent>, ts: seq<Task>, E: Edges)
    reads ts, set a, t | a in agents && t in a.tasks :: t
  {
    forall k, s, b :: 0 <= k < |agents| && s in agents[k].tasks && b in agents[k].tasks && s.taskType.StartAgent?
      && Ordered(agents[k].tasks, Pairs(agents[k].edges), s, b)
      ==> exists y :: y in ts && StandsFor(y, b) && |ts| > 0 && Ordered(ts, E, ts[0], y)
  }

  lemma {:induction false} OrderedFromStart(agents: seq<Agent>, ts: seq<Task>, E: Edges, k: nat, s: Task, b: Task) returns (y: Task)
    requires (forall a :: a in agents ==> AgentValid(a)) && Distinct(ts) && KeepsAgents(agents, ts, E) && ModelHasEnds(agents, ts, E)
    requires k < |agents| && s.taskType == StartAgent && Ordered(agents[k].tasks, Pairs(agents[k].edges), s, b)
    ensures y in ts && StandsFor(y, b) && |ts| > 0 && Ordered(ts, E, ts[0], y)
  {
    hide *;
    var a := agents[k];
    var i, j := Whereabouts(a.tasks, Pairs(a.edges), s, b);
    var m := FirstEdge(Pairs(a.edges), i, j);
    AgentEdgesInRange(a, i, m);
    NoStartBehind(a, i, m);
    AdjacentAt(a.tasks, Pairs(a.edges), i, m);
    y := KeptTask(agents, ts, E, k, a.tasks[m]);
    FollowsBy(agents, k, s, a.tasks[m], y);
    StartLeadsTo(agents, ts, E, y);
    if m != j {
      var l := LastEdge(Pairs(a.edges), i, j);
      NoStartBehind(a, l, j);
      OrderedWhere(a.tasks, Pairs(a.edges), m, j);
      var x, z := KeptOrder(agents, ts, E, k, a.tasks[m], b);
      FollowsBy(agents, k, s, a.tasks[m], x);
      StartLeadsTo(agents, ts, E, x);
      OrderedThrough(ts, E, ts[0], x, z);
      y := z;
    }
  }

  lemma OrderedWhere(ts: seq<Task>, E: Edges, i: Vertex, j: Vertex)
    requires i < |ts| && j < |ts| && Reaches(E, i, j)
    ensures Ordered(ts, E, ts[i], ts[j])
  {
    hide Reaches;
  }

  lemma OrderedThrough(ts: seq<Task>, E: Edges, a: Task, b: Task, c: Task)
    requires Distinct(ts) && Ordered(ts, E, a, b) && Ordered(ts, E, b, c)
    ensures Ordered(ts, E, a, c)
  {
    hide Reaches;
    var i, j := Whereabouts(ts, E, a, b);
    var k, l := Whereabouts(ts, E, b, c);
    assert j == k;
    Transitive(E, i, j, l);
  }

  lemma StartLeadsTo(agents: seq<Agent>, ts: seq<Task>, E: Edges, y: Task)
    requires ModelHasEnds(agents, ts, E) && y in ts && FollowsStart(agents, y)
    ensures |ts| > 0 && Ordered(ts, E, ts[0], y)
  {
    hide FollowsStart, IsOutputTask, Reaches;
    var i, j := AdjacentVertices(ts, E, ts[0], y);
    EdgeReaches(E, i, j);
  }

  lemma KeptTask(agents: seq<Agent>, ts: seq<Task>, E: Edges, k: nat, a: Task) returns (x: Task)
    requires KeepsAgents(agents, ts, E) && k < |agents| && a in agents[k].tasks && a.taskType != StartAgent
    ensures x in ts && StandsFor(x, a)
  {
    hide KeepsAgentOrders, OneSyncPerMessage, SyncsInUse, ReadersBeforeClear, StandsFor;
    assert KeepsTasks(agents, ts);
    x :| x in ts && StandsFor(x, a);
  }

  lemma KeptOrder(agents: seq<Agent>, ts: seq<Task>, E: Edges, k: nat, a: Task, b: Task) returns (x: Task, y: Task)
    requires KeepsAgents(agents, ts, E) && k < |agents| && a in agents[k].tasks && b in agents[k].tasks
    requires a.taskType != StartAgent && b.taskType != StartAgent
    requires Ordered(agents[k].tasks, Pairs(agents[k].edges), a, b)
    ensures x in ts && y in ts && StandsFor(x, a) && StandsFor(y, b) && Ordered(ts, E, x, y)
  {
    hide KeepsTasks, OneSyncPerMessage, SyncsInUse, ReadersBeforeClear, StandsFor, Ordered, Pairs;
    assert KeepsAgentOrders(agents, ts, E);
    assert OrderedForGood(ts, E, a, b);
    x, y :| x in ts && y in ts && StandsFor(x, a) && StandsFor(y, b) && Ordered(ts, E, x, y);
  }

  /** The model's start comes before everything that an agent's start comes before. */
  lemma {:induction false} ModelStartsFirst(agents: seq<Agent>, ts: seq<Task>, E: Edges)
    requires (forall a :: a in agents ==> AgentValid(a)) && Distinct(ts) && KeepsAgents(agents, ts, E) && ModelHasEnds(agents, ts, E)
    ensures StartsBeforeAll(agents, ts, E)
  {
    hide AgentValid, Distinct, KeepsAgents, ModelHasEnds, Ordered, StandsFor, Pairs;
    forall k, s, b | 0 <= k < |agents| && s in agents[k].tasks && b in agents[k].tasks && s.taskType.StartAgent?
      && Ordered(agents[k].tasks, Pairs(agents[k].edges), s, b)
      ensures exists y :: y in ts && StandsFor(y, b) && |ts| > 0 && Ordered(ts, E, ts[0], y)
    {
      var y := OrderedFromStart(agents, ts, E, k, s, b);
    }
  }

  /** The finish comes behind everything that an agent puts before one of its outputs. */
  lemma {:induction false} FinishesAfter(agents: seq<Agent>, ts: seq<Task>, E: Edges, k: nat, a: Task, o: Task)
    requires Distinct(ts) && KeepsAgents(agents, ts, E) && ModelHasEnds(agents, ts, E) && k < |agents|
    requires a in agents[k].tasks && o in agents[k].tasks && o.taskType == IoPopWrite && a.taskType != StartAgent
    requires Ordered(agents[k].tasks, Pairs(agents[k].edges), a, o)
    ensures exists x :: x in ts && StandsFor(x, a) && |ts| > 1 && Ordered(ts, E, x, ts[1])
  {
    hide *;
    var x, y := KeptOrder(agents, ts, E, k, a, o);
    StandsItself(y, o);
    OutputIs(agents, k, o);
    LeadsToFinish(agents, ts, E, o);
    OrderedThrough(ts, E, x, o, ts[1]);
  }

  lemma LeadsToFinish(agents: seq<Agent>, ts: seq<Task>, E: Edges, o: Task)
    requires ModelHasEnds(agents, ts, E) && o in ts && IsOutputTask(agents, o)
    ensures |ts| > 1 && Ordered(ts, E, o, ts[1])
  {
    hide FollowsStart, IsOutputTask, Reaches;
    var i, j := AdjacentVertices(ts, E, o, ts[1]);
    EdgeReaches(E, i, j);
  }

  // -------------------------------------------------------------- all of the model

  lemma {:induction false} MergingDone(agents: seq<Agent>, c: Merging)
    requires (forall a :: a in agents ==> AgentValid(a)) && c.Unites(agents) && c.Synchronises() && c.Clears()
    requires AllValid(c.ts4)
    ensures KeepsAgents(agents, c.ts4, Pairs(c.es4)) && OrdersExactly(agents, c.ts4, Pairs(c.es4))
    ensures ClearsAfterExactly(agents, c.ts4, Pairs(c.es4)) && ModelHasEnds(agents, c.ts4, Pairs(c.es4))
    ensures Acyclic(Pairs(c.es4)) <==> Acyclic(SharedOrder(agents))
  {
    assert Distinct(c.ts4);
    hide *;
    MergingKeepsAgents(agents, c);
    OneSyncMerged(c);
    OrdersAreExact(agents, c);
    ClearsAreAfterExactly(agents, c);
    EndsAreExact(agents, c);
    StagesValid(agents, c);
    StagesLabels(agents, c);
    FinalAcyclic(StagesOf(agents, c));
    SharedOrderIs(agents);
  }

  // Merges the agents' dependency graphs into that of the model.
  method ImportGraphs(model: XGraph, graphs: seq<XGraph>, ghost agents: seq<Agent>)
    requires model.vertex2task == [] && model.edges == {} && model !in graphs && |agents| == |graphs|
    requires forall k :: 0 <= k < |graphs| ==> agents[k] == Agent(graphs[k].vertex2task, graphs[k].edges)
    requires (forall k :: 0 <= k < |agents| ==> AgentValid(agents[k])) && Apart(agents)
    modifies model
    ensures AllValid(model.vertex2task) && KeepsAgents(agents, model.vertex2task, Pairs(model.edges))
    ensures OrdersExactly(agents, model.vertex2task, Pairs(model.edges))
    ensures ClearsAfterExactly(agents, model.vertex2task, Pairs(model.edges))
    ensures ModelHasEnds(agents, model.vertex2task, Pairs(model.edges)) && StartsBeforeAll(agents, model.vertex2task, Pairs(model.edges))
    ensures Acyclic(Pairs(model.edges)) <==> Acyclic(SharedOrder(agents))
  {
    hide *;
    ImportAll(model, graphs, agents);
    ghost var c := ContractStarts(model, agents);
    c := Synchronise(model, agents, c);
    c := Clear(model, agents, c);
    MergingDone(agents, c);
    ValidDistinct(model.vertex2task);
    ModelStartsFirst(agents, model.vertex2task, Pairs(model.edges));
  }

  lemma ValidDistinct(ts: seq<Task>)
    requires AllValid(ts)
    ensures Distinct(ts)
  {
  }
}
