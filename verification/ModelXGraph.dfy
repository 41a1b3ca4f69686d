/** The model graph, built in place: importing the agents' dependency graphs,
    synchronising the messages and clearing them. */
module ModelXGraph {
  import opened Digraph
  import opened DataFlow
  import opened TaskGraph
  import opened Tasks
  import opened AgentGraph
  import opened ModelGraph
  import opened MergedOrder
  import opened XGraphs

  ghost function LabelsOf(ts: seq<Task>): (labels: seq<Label>)
    reads ts
    ensures |labels| == |ts|
    ensures forall i :: 0 <= i < |ts| ==> labels[i] == Label(ts[i].taskType, ts[i].name)
  {
    seq(|ts|, i requires 0 <= i < |ts| reads ts => Label(ts[i].taskType, ts[i].name))
  }

  ghost function KindsOf(ts: seq<Task>): (kinds: seq<TaskType>)
    reads ts
    ensures |kinds| == |ts|
    ensures forall i :: 0 <= i < |ts| ==> kinds[i] == ts[i].taskType
  {
    seq(|ts|, i requires 0 <= i < |ts| reads ts => ts[i].taskType)
  }

  // ------------------------------------------------------- synchronisation

  // A task that was just made.
  ghost predicate JustMade(t: Task)
    reads t
  {
    t.readVariables == t.writeVariables == {} && t.Blank() && !t.hasCondition
  }

  // The vertex of this type and name, made if it is not there.
  method FindOrAdd(g: XGraph, parentName: string, name: string, kind: TaskType) returns (v: Vertex)
    requires AllValid(g.vertex2task)
    modifies g`vertex2task
    ensures LabelsOf(g.vertex2task) == WithLabel(old(LabelsOf(g.vertex2task)), kind, name)
    ensures v == Find(LabelsOf(g.vertex2task), kind, name) == Find(old(LabelsOf(g.vertex2task)), kind, name)
    ensures AllValid(g.vertex2task) && old(g.vertex2task) <= g.vertex2task
    ensures forall t :: t in g.vertex2task ==> t in old(g.vertex2task) || (fresh(t) && JustMade(t))
  {
    hide AllValid, WithLabel, Find;
    ghost var ts, labels := g.vertex2task, LabelsOf(g.vertex2task);
    v := 0;
    while v < |g.vertex2task|
      invariant 0 <= v <= |labels| && g.vertex2task == ts
      invariant forall i :: 0 <= i < v ==> labels[i] != Label(kind, name)
    {
      if g.vertex2task[v].name == name && g.vertex2task[v].taskType == kind {
        LabelFound(labels, kind, name, v);
        return;
      }
      v := v + 1;
    }
    LabelMissing(labels, kind, name);
    var t := new Task(parentName, name, kind);
    v := g.AddVertex(t);
    ExtendedValid(ts, t);
    assert LabelsOf(g.vertex2task) == labels + [Label(kind, name)];
  }

  // A message's task belongs to no agent: it is its own parent.
  method GetMessageVertex(g: XGraph, name: string, kind: TaskType) returns (v: Vertex)
    requires AllValid(g.vertex2task)
    modifies g`vertex2task
    ensures LabelsOf(g.vertex2task) == WithLabel(old(LabelsOf(g.vertex2task)), kind, name)
    ensures v == Find(LabelsOf(g.vertex2task), kind, name)
    ensures AllValid(g.vertex2task) && old(g.vertex2task) <= g.vertex2task
    ensures forall t :: t in g.vertex2task ==> t in old(g.vertex2task) || (fresh(t) && JustMade(t))
  {
    hide *;
    v := FindOrAdd(g, name, name, kind);
  }

  lemma ExtendedValid(ts: seq<Task>, t: Task)
    requires AllValid(ts) && t.Valid() && t !in ts
    ensures AllValid(ts + [t])
  {
  }

  // Leads the edges of message m to and from s as well.
  method RewireMessage(g: XGraph, m: Vertex, s: Vertex)
    requires (m, m) !in Pairs(g.edges) && m != s
    modifies g`edges
    ensures Pairs(g.edges) == Rewired(old(Pairs(g.edges)), m, s)
  {
    ghost var es := g.edges;
    var ins := InEdges(g.edges, m);
    var toSync := set e | e in ins :: Edge(e.source, s, Unlabelled);
    g.edges := g.edges + toSync;
    var outs := OutEdges(g.edges, m);
    var fromSync := set e | e in outs :: Edge(s, e.target, Unlabelled);
    g.edges := g.edges + fromSync;
    RewirePairs(es, m, s, g.edges);
  }

  lemma RewirePairs(es: set<Edge>, m: Vertex, s: Vertex, es': set<Edge>)
    requires (m, m) !in Pairs(es) && m != s
    requires ghost var half := es + set e | e in InEdges(es, m) :: Edge(e.source, s, Unlabelled);
             es' == half + set e | e in OutEdges(half, m) :: Edge(s, e.target, Unlabelled)
    ensures Pairs(es') == Rewired(Pairs(es), m, s)
  {
    var half := es + set e | e in InEdges(es, m) :: Edge(e.source, s, Unlabelled);
    forall p: (Vertex, Vertex) | p in Pairs(es') ensures p in Rewired(Pairs(es), m, s) {
      var d :| d in es' && p == (d.source, d.target);
      if d in es {
        assert p in Pairs(es);
      } else if d in half {
        var e :| e in InEdges(es, m) && d == Edge(e.source, s, Unlabelled);
        assert (e.source, e.target) in Pairs(es);
      } else {
        var e :| e in OutEdges(half, m) && d == Edge(s, e.target, Unlabelled);
        assert e in es;
        assert (e.source, e.target) in Pairs(es);
      }
    }
    forall p: (Vertex, Vertex) | p in Rewired(Pairs(es), m, s) ensures p in Pairs(es') {
      if p in Pairs(es) {
        var d :| d in es && p == (d.source, d.target);
        assert d in es';
      } else if (p.0, m) in Pairs(es) && p.1 == s {
        var d :| d in es && (p.0, m) == (d.source, d.target);
        assert d in InEdges(es, m);
        assert Edge(p.0, s, Unlabelled) in half;
        assert Edge(p.0, s, Unlabelled) in es';
      } else {
        var q :| q in Pairs(es) && q.0 == m && p == (s, q.1);
        var d :| d in es && q == (d.source, d.target);
        assert d in OutEdges(half, m);
        assert Edge(s, d.target, Unlabelled) in es';
      }
    }
  }

  // The loop that scans the tasks while it appends to them.
  ghost predicate Syncing(g: XGraph, labels0: seq<Label>, E0: Edges, k: nat)
    reads g, g.vertex2task
  {
    && SyncProgress(labels0, E0, k, LabelsOf(g.vertex2task), Pairs(g.edges))
    && AllValid(g.vertex2task)
  }

  method SyncMessage(g: XGraph, ghost labels0: seq<Label>, ghost E0: Edges, k: nat)
    requires k < |g.vertex2task| && Syncing(g, labels0, E0, k) && g.vertex2task[k].taskType == XMessage
    modifies g`vertex2task, g`edges
    ensures Syncing(g, labels0, E0, k + 1)
    ensures old(g.vertex2task) <= g.vertex2task && forall t :: t in g.vertex2task ==> t in old(g.vertex2task) || fresh(t)
  {
    hide SyncProgress, Pairs, Rewired, Redirect, Find, AllValid, WithLabel;
    ghost var ts, labels, E := g.vertex2task, LabelsOf(g.vertex2task), Pairs(g.edges);
    var name := g.vertex2task[k].name;
    SyncAdvances(labels0, E0, k, labels, E);
    MessageHasNoLoop(labels0, E0, k, labels, E);
    var s := GetMessageVertex(g, name, XMessageSync);
    assert LabelsOf(g.vertex2task)[s].kind == XMessageSync by { FoundIs(LabelsOf(g.vertex2task), XMessageSync, name); }
    RewireMessage(g, k, s);
  }

  lemma FoundIs(labels: seq<Label>, kind: TaskType, name: string)
    requires Find(labels, kind, name) < |labels|
    ensures labels[Find(labels, kind, name)] == Label(kind, name)
  {
  }

  lemma MessageHasNoLoop(labels0: seq<Label>, E0: Edges, k: nat, labels: seq<Label>, E: Edges)
    requires SyncProgress(labels0, E0, k, labels, E) && k < |labels| && labels[k].kind.XMessage?
    ensures (k, k) !in E
  {
    NoSelfLoop(E0, k);
    var x, y := k, k;
    assert IsDoubled(E0, labels, k, E);
    assert (x, y) in E <==> Covers(E0, labels, k, x, y);
  }

  // One turn of the loop: rewires vertex k if it is a message, and notes it.
  method VisitVertex(g: XGraph, ghost labels0: seq<Label>, ghost E0: Edges, k: nat, found: seq<Vertex>)
    returns (found': seq<Vertex>)
    requires k < |g.vertex2task| && Syncing(g, labels0, E0, k)
    requires found == IndicesOfLabel(LabelsOf(g.vertex2task)[..k], XMessage)
    modifies g`vertex2task, g`edges
    ensures old(g.vertex2task) <= g.vertex2task && Syncing(g, labels0, E0, k + 1)
    ensures found' == IndicesOfLabel(LabelsOf(g.vertex2task)[..k + 1], XMessage)
    ensures k >= |labels0| ==> g.vertex2task == old(g.vertex2task)
  {
    hide *;
    ghost var labels := LabelsOf(g.vertex2task);
    IndicesStep(labels, k, XMessage);
    found' := found;
    if g.vertex2task[k].taskType == XMessage {
      MessageWasThere(g, labels0, E0, k);
      SyncMessage(g, labels0, E0, k);
      found' := found' + [k];
      assert LabelsOf(g.vertex2task)[..k + 1] == labels[..k + 1];
    } else {
      OtherSkipped(g, labels0, E0, k);
    }
  }

  lemma MessageWasThere(g: XGraph, labels0: seq<Label>, E0: Edges, k: nat)
    requires k < |g.vertex2task| && Syncing(g, labels0, E0, k) && g.vertex2task[k].taskType == XMessage
    ensures k < |labels0|
  {
    AppendedAreSyncs(labels0, E0, k, LabelsOf(g.vertex2task), Pairs(g.edges));
    hide SyncProgress, Pairs;
    assert LabelsOf(g.vertex2task)[k].kind == XMessage;
  }

  lemma OtherSkipped(g: XGraph, labels0: seq<Label>, E0: Edges, k: nat)
    requires k < |g.vertex2task| && Syncing(g, labels0, E0, k) && g.vertex2task[k].taskType != XMessage
    ensures Syncing(g, labels0, E0, k + 1)
  {
    hide SyncProgress, Pairs, AllValid;
    assert LabelsOf(g.vertex2task)[k].kind != XMessage;
    SyncSkips(labels0, E0, k, LabelsOf(g.vertex2task), Pairs(g.edges));
  }

  lemma ScanStarts(g: XGraph)
    requires AllValid(g.vertex2task) && InRange(Pairs(g.edges), |g.vertex2task|) && Acyclic(Pairs(g.edges))
    requires forall t :: t in g.vertex2task ==> t.taskType != XMessageSync
    ensures Syncing(g, LabelsOf(g.vertex2task), Pairs(g.edges), 0)
    ensures IndicesOfLabel(LabelsOf(g.vertex2task)[..0], XMessage) == []
  {
    hide SyncProgress, Pairs, AllValid, Acyclic, InRange;
    SyncStarts(LabelsOf(g.vertex2task), Pairs(g.edges));
  }

  // The whole scan.
  method RewireMessages(g: XGraph) returns (vertexToDelete: seq<Vertex>)
    requires AllValid(g.vertex2task) && InRange(Pairs(g.edges), |g.vertex2task|) && Acyclic(Pairs(g.edges))
    requires forall t :: t in g.vertex2task ==> t.taskType != XMessageSync
    modifies g`vertex2task, g`edges
    ensures old(g.vertex2task) <= g.vertex2task
    ensures Syncing(g, old(LabelsOf(g.vertex2task)), old(Pairs(g.edges)), |g.vertex2task|)
    ensures vertexToDelete == IndicesOfLabel(LabelsOf(g.vertex2task), XMessage)
  {
    hide *;
    ghost var ts, labels0, E0 := g.vertex2task, LabelsOf(g.vertex2task), Pairs(g.edges);
    ScanStarts(g);
    vertexToDelete := [];
    var ii := 0;
    while ii < |g.vertex2task|
      invariant 0 <= ii <= |g.vertex2task| && ts <= g.vertex2task
      invariant Syncing(g, labels0, E0, ii)
      invariant vertexToDelete == IndicesOfLabel(LabelsOf(g.vertex2task)[..ii], XMessage)
      decreases if ii < |ts| then |ts| - ii else 0, |g.vertex2task| - ii
    {
      vertexToDelete := VisitVertex(g, labels0, E0, ii, vertexToDelete);
      ii := ii + 1;
    }
    assert LabelsOf(g.vertex2task)[..ii] == LabelsOf(g.vertex2task);
  }

  // Messages give way to their synchronisation tasks.
  method ChangeMessageTasksToSync(g: XGraph) returns (ghost all: seq<Task>, ghost es: set<Edge>)
    requires AllValid(g.vertex2task) && InRange(Pairs(g.edges), |g.vertex2task|) && Acyclic(Pairs(g.edges))
    requires forall t :: t in g.vertex2task ==> t.taskType != XMessageSync
    modifies g`vertex2task, g`edges
    ensures AllValid(g.vertex2task) && old(g.vertex2task) <= all
    ensures SyncProgress(old(LabelsOf(g.vertex2task)), old(Pairs(g.edges)), |all|, LabelsOf(all), Pairs(es))
    ensures ghost var M := MessagesOf(LabelsOf(all)); g.vertex2task == Kept(all, M) && g.edges == Renumbered(es, M)
  {
    hide *;
    ghost var labels0, E0 := LabelsOf(g.vertex2task), Pairs(g.edges);
    var vertexToDelete := RewireMessages(g);
    all, es := g.vertex2task, g.edges;
    SyncingIs(g, labels0, E0, |all|);
    MessagesToDelete(LabelsOf(all), vertexToDelete);
    ghost var M := MessagesOf(LabelsOf(all));
    KeptValid(all, M);
    ghost var labels := LabelsOf(all);
    g.RemoveVertices(vertexToDelete);
    assert LabelsOf(all) == labels;
    AllAreValid(g.vertex2task);
  }

  lemma SyncingIs(g: XGraph, labels0: seq<Label>, E0: Edges, k: nat)
    requires Syncing(g, labels0, E0, k)
    ensures SyncProgress(labels0, E0, k, LabelsOf(g.vertex2task), Pairs(g.edges)) && AllValid(g.vertex2task)
  {
    hide SyncProgress, AllValid, Pairs;
  }

  lemma MessagesToDelete(labels: seq<Label>, found: seq<Vertex>)
    requires found == IndicesOfLabel(labels, XMessage)
    ensures Elements(found) == MessagesOf(labels)
    ensures (forall i, j :: 0 <= i < j < |found| ==> found[i] != found[j]) && forall v :: v in found ==> v < |labels|
  {
    IndicesOfLabelAre(labels, XMessage);
    hide IndicesOfLabel;
  }

  lemma KeptValid(ts: seq<Task>, del: set<Vertex>)
    requires AllValid(ts)
    ensures Distinct(Kept(ts, del)) && forall i :: 0 <= i < |Kept(ts, del)| ==> Kept(ts, del)[i].Valid() && Kept(ts, del)[i] in ts
  {
    KeptDistinct(ts, del);
    hide Kept, Task.Valid;
  }

  lemma AppendedAreSyncs(labels0: seq<Label>, E0: Edges, k: nat, labels: seq<Label>, E: Edges)
    requires SyncProgress(labels0, E0, k, labels, E)
    ensures forall v :: |labels0| <= v < |labels| ==> labels[v].kind.XMessageSync?
  {
  }

  // --------------------------------------------------------------- clearing

  ghost predicate Clearing(g: XGraph, ts: seq<Task>, labels: seq<Label>, E: Edges, k: nat)
    reads g, g.vertex2task
  {
    && k <= |labels| == |ts| && ts <= g.vertex2task && AllValid(g.vertex2task)
    && LabelsOf(g.vertex2task) == labels + ClearLabels(labels, k)
    && Pairs(g.edges) == E + ClearEdges(labels, E, k)
  }

  // A clearing task behind every direct successor of the synchronisation task k.
  method AddClearTask(g: XGraph, ghost ts: seq<Task>, ghost labels: seq<Label>, ghost E: Edges, k: nat)
    requires k < |ts| && Clearing(g, ts, labels, E, k) && g.vertex2task[k].taskType == XMessageSync
    requires InRange(E, |labels|) && SyncsApart(labels, E)
    modifies g`vertex2task, g`edges
    ensures Clearing(g, ts, labels, E, k + 1)
  {
    hide *;
    ghost var es, before := g.edges, g.vertex2task;
    ClearingIs(g, ts, labels, E, k);
    var t := g.vertex2task[k];
    var task := new Task(t.parentName, t.name, XMessageClear);
    var clearV := g.AddVertex(task);
    TaskAppended(before, task);
    var outs := OutEdges(g.edges, k);
    g.edges := g.edges + set e | e in outs :: Edge(e.target, clearV, Unlabelled);
    ClearLabelsNext(labels, k);
    ClearPairs(es, labels, E, k, clearV, g.edges);
    IsClearing(g, ts, labels, E, k + 1);
  }

  lemma TaskAppended(ts: seq<Task>, task: Task)
    requires AllValid(ts) && task.Valid() && task !in ts
    ensures AllValid(ts + [task]) && LabelsOf(ts + [task]) == LabelsOf(ts) + [Label(task.taskType, task.name)]
  {
  }

  lemma ClearingIs(g: XGraph, ts: seq<Task>, labels: seq<Label>, E: Edges, k: nat)
    requires Clearing(g, ts, labels, E, k) && k < |ts|
    ensures k < |labels| == |ts| && ts <= g.vertex2task && AllValid(g.vertex2task)
    ensures LabelsOf(g.vertex2task) == labels + ClearLabels(labels, k) && |g.vertex2task| == ClearOf(labels, k)
    ensures Pairs(g.edges) == E + ClearEdges(labels, E, k)
    ensures labels[k] == Label(g.vertex2task[k].taskType, g.vertex2task[k].name)
  {
    hide AllValid, ClearLabels, ClearEdges, Pairs;
    assert LabelsOf(g.vertex2task)[k] == labels[k];
  }

  lemma IsClearing(g: XGraph, ts: seq<Task>, labels: seq<Label>, E: Edges, k: nat)
    requires k <= |labels| == |ts| && ts <= g.vertex2task && AllValid(g.vertex2task)
    requires LabelsOf(g.vertex2task) == labels + ClearLabels(labels, k)
    requires Pairs(g.edges) == E + ClearEdges(labels, E, k)
    ensures Clearing(g, ts, labels, E, k)
  {
    hide AllValid, ClearLabels, ClearEdges, Pairs;
  }

  lemma AllCleared(g: XGraph, ts: seq<Task>, labels: seq<Label>, E: Edges)
    requires Clearing(g, ts, labels, E, |ts|)
    ensures ts <= g.vertex2task && AllValid(g.vertex2task)
    ensures LabelsOf(g.vertex2task) == labels + ClearLabels(labels, |labels|)
    ensures Pairs(g.edges) == E + ClearEdges(labels, E, |labels|)
  {
    hide AllValid, ClearLabels, ClearEdges, Pairs;
  }

  lemma NothingCleared(labels: seq<Label>, E: Edges)
    ensures ClearLabels(labels, 0) == [] && ClearEdges(labels, E, 0) == {}
  {
  }

  lemma NothingToClear(labels: seq<Label>, E: Edges, k: nat)
    requires k < |labels| && !labels[k].kind.XMessageSync?
    ensures ClearLabels(labels, k + 1) == ClearLabels(labels, k) && ClearEdges(labels, E, k + 1) == ClearEdges(labels, E, k)
  {
  }

  lemma ClearLabelsNext(labels: seq<Label>, k: nat)
    requires k < |labels| && labels[k].kind.XMessageSync?
    ensures ClearLabels(labels, k + 1) == ClearLabels(labels, k) + [Label(XMessageClear, labels[k].name)]
  {
  }

  lemma ClearPairs(es: set<Edge>, labels: seq<Label>, E: Edges, k: nat, c: Vertex, es': set<Edge>)
    requires k < |labels| && labels[k].kind.XMessageSync? && InRange(E, |labels|) && SyncsApart(labels, E)
    requires Pairs(es) == E + ClearEdges(labels, E, k) && c == ClearOf(labels, k)
    requires es' == es + set e | e in OutEdges(es, k) :: Edge(e.target, c, Unlabelled)
    ensures Pairs(es') == E + ClearEdges(labels, E, k + 1)
  {
    forall p: (Vertex, Vertex) | p in Pairs(es') ensures p in E + ClearEdges(labels, E, k + 1) {
      var d :| d in es' && p == (d.source, d.target);
      if d in es {
        assert p in Pairs(es);
      } else {
        var e :| e in OutEdges(es, k) && d == Edge(e.target, c, Unlabelled);
        assert (e.source, e.target) in Pairs(es);
        OutOfSyncUnchanged(labels, E, k, e.target);
      }
    }
    forall p: (Vertex, Vertex) | p in E + ClearEdges(labels, E, k + 1) ensures p in Pairs(es') {
      if p in Pairs(es) {
        var d :| d in es && p == (d.source, d.target);
        assert d in es';
      } else {
        assert (k, p.0) in E && p.1 == c;
        assert (k, p.0) in Pairs(es);
        var d :| d in es && (k, p.0) == (d.source, d.target);
        assert d in OutEdges(es, k);
        assert Edge(p.0, c, Unlabelled) in es';
      }
    }
  }

  method AddMessageClearTasks(g: XGraph)
    requires AllValid(g.vertex2task) && InRange(Pairs(g.edges), |g.vertex2task|)
    requires SyncsApart(LabelsOf(g.vertex2task), Pairs(g.edges))
    modifies g`vertex2task, g`edges
    ensures AllValid(g.vertex2task) && old(g.vertex2task) <= g.vertex2task
    ensures ghost var labels, E := old(LabelsOf(g.vertex2task)), old(Pairs(g.edges));
            && LabelsOf(g.vertex2task) == labels + ClearLabels(labels, |labels|)
            && Pairs(g.edges) == E + ClearEdges(labels, E, |labels|)
  {
    hide *;
    ghost var ts, labels, E := g.vertex2task, LabelsOf(g.vertex2task), Pairs(g.edges);
    NothingCleared(labels, E);
    IsClearing(g, ts, labels, E, 0);
    var vi, end := 0, |g.vertex2task|;
    while vi < end
      invariant 0 <= vi <= end && Clearing(g, ts, labels, E, vi)
    {
      ClearingIs(g, ts, labels, E, vi);
      if g.vertex2task[vi].taskType == XMessageSync {
        AddClearTask(g, ts, labels, E, vi);
      } else {
        NothingToClear(labels, E, vi);
        IsClearing(g, ts, labels, E, vi + 1);
      }
      vi := vi + 1;
    }
    AllCleared(g, ts, labels, E);
  }

  // --------------------------------------------------------------- importing

  // The vertices of an agent's graph, behind those that are there already.
  method ImportVertices(model: XGraph, graph: XGraph, start: Vertex, end: Vertex)
    requires model != graph
    modifies model`vertex2task, model`edges
    ensures model.vertex2task == old(model.vertex2task) + graph.vertex2task
    ensures model.edges == old(model.edges) +
              BoundaryEdges(KindsOf(graph.vertex2task), |graph.vertex2task|, |old(model.vertex2task)|, start, end)
  {
    ghost var kinds, n := KindsOf(graph.vertex2task), |model.vertex2task|;
    var ii := 0;
    while ii < |graph.vertex2task|
      invariant 0 <= ii <= |graph.vertex2task|
      invariant model.vertex2task == old(model.vertex2task) + graph.vertex2task[..ii]
      invariant model.edges == old(model.edges) + BoundaryEdges(kinds, ii, n, start, end)
    {
      var t := graph.vertex2task[ii];
      var v := model.AddVertex(t);
      if t.taskType == StartAgent {
        model.edges := model.edges + {Edge(start, v, Unlabelled)};
      }
      if t.taskType == IoPopWrite {
        model.edges := model.edges + {Edge(v, end, Unlabelled)};
      }
      ii := ii + 1;
    }
  }

  method Import(model: XGraph, graph: XGraph)
    requires model != graph
    modifies model`vertex2task, model`edges
    ensures ghost var n := |old(model.vertex2task)|;
            && model.vertex2task == old(model.vertex2task) + graph.vertex2task
            && model.edges == old(model.edges) +
                 Imported(KindsOf(graph.vertex2task), graph.edges, n,
                          GetVertex(old(model.vertex2task), model.startTask), GetVertex(old(model.vertex2task), model.endTask))
  {
    var start, end := GetVertex(model.vertex2task, model.startTask), GetVertex(model.vertex2task, model.endTask);
    var n := |model.vertex2task|;
    ImportVertices(model, graph, start, end);
    model.edges := model.edges + set e | e in graph.edges :: Edge(n + e.source, n + e.target, Unlabelled);
  }

  // ---------------------------------------------------------- the whole model

  // x is what the model graph has in place of the agents' task a.
  ghost predicate StandsFor(x: Task, a: Task)
    reads x, a
  {
    if a.taskType == XMessage then x.taskType == XMessageSync && x.name == a.name else x == a
  }

  ghost predicate OrderedForGood(ts: seq<Task>, E: Edges, a: Task, b: Task)
    reads ts, a, b
  {
    exists x, y :: x in ts && y in ts && StandsFor(x, a) && StandsFor(y, b) && Ordered(ts, E, x, y)
  }

  // b follows a directly.
  ghost predicate Adjacent(ts: seq<Task>, E: Edges, a: Task, b: Task) {
    exists i, j :: 0 <= i < |ts| && 0 <= j < |ts| && ts[i] == a && ts[j] == b && (i, j) in E
  }

  lemma {:induction false} AdjacentThere(ts: seq<Task>, E: Edges, i: Vertex, j: Vertex)
    requires Distinct(ts) && i < |ts| && j < |ts|
    ensures Adjacent(ts, E, ts[i], ts[j]) <==> (i, j) in E
    ensures Ordered(ts, E, ts[i], ts[j]) <==> Reaches(E, i, j)
  {
    hide Reaches;
  }

  lemma DistinctAt(ts: seq<Task>, i: Vertex, j: Vertex)
    requires Distinct(ts) && i < |ts| && j < |ts|
    ensures ts[i] == ts[j] <==> i == j
  {
  }

  lemma AdjacentVertices(ts: seq<Task>, E: Edges, a: Task, b: Task) returns (i: Vertex, j: Vertex)
    requires Adjacent(ts, E, a, b)
    ensures i < |ts| && j < |ts| && ts[i] == a && ts[j] == b && (i, j) in E
  {
    i, j :| 0 <= i < |ts| && 0 <= j < |ts| && ts[i] == a && ts[j] == b && (i, j) in E;
  }

  // Tasks, edges and order of one graph are found in the other.
  ghost predicate Embeds(ts: seq<Task>, E: Edges, ts': seq<Task>, E': Edges) {
    && (forall a :: a in ts ==> a in ts')
    && (forall a, b :: a in ts && b in ts && Ordered(ts, E, a, b) ==> Ordered(ts', E', a, b))
    && (forall a, b :: a in ts && b in ts && Adjacent(ts, E, a, b) ==> Adjacent(ts', E', a, b))
  }

  lemma EmbedsImported(ts: seq<Task>, es: set<Edge>, kinds: seq<TaskType>, agent: seq<Task>, aes: set<Edge>, start: Vertex, end: Vertex)
    requires |kinds| == |agent|
    ensures Embeds(agent, Pairs(aes), ts + agent, Pairs(es + Imported(kinds, aes, |ts|, start, end)))
  {
    var all, I := ts + agent, Imported(kinds, aes, |ts|, start, end);
    PairsUnion(es, I);
    forall a, b | a in agent && b in agent && Ordered(agent, Pairs(aes), a, b)
      ensures Ordered(all, Pairs(es + I), a, b)
    {
      hide Pairs, Imported, Reaches;
      var i, j :| 0 <= i < |agent| && 0 <= j < |agent| && agent[i] == a && agent[j] == b && Reaches(Pairs(aes), i, j);
      ImportedReaches(kinds, aes, |ts|, start, end, i, j);
      Monotone(Pairs(I), Pairs(es + I), |ts| + i, |ts| + j);
      assert all[|ts| + i] == a && all[|ts| + j] == b;
    }
    forall a, b | a in agent && b in agent && Adjacent(agent, Pairs(aes), a, b)
      ensures Adjacent(all, Pairs(es + I), a, b)
    {
      hide Pairs, Imported;
      var i, j :| 0 <= i < |agent| && 0 <= j < |agent| && agent[i] == a && agent[j] == b && (i, j) in Pairs(aes);
      ImportedPair(kinds, aes, |ts|, start, end, i, j);
      assert all[|ts| + i] == a && all[|ts| + j] == b && (|ts| + i, |ts| + j) in Pairs(es + I);
    }
  }

  lemma EmbedsExtended(ts: seq<Task>, E: Edges, ts1: seq<Task>, E1: Edges, ts2: seq<Task>, E2: Edges)
    requires Embeds(ts, E, ts1, E1) && ts1 <= ts2 && E1 <= E2
    ensures Embeds(ts, E, ts2, E2)
  {
    forall a, b | a in ts && b in ts && Ordered(ts, E, a, b) ensures Ordered(ts2, E2, a, b) {
      var i, j :| 0 <= i < |ts1| && 0 <= j < |ts1| && ts1[i] == a && ts1[j] == b && Reaches(E1, i, j);
      Monotone(E1, E2, i, j);
      assert ts2[i] == a && ts2[j] == b;
    }
    forall a, b | a in ts && b in ts && Adjacent(ts, E, a, b) ensures Adjacent(ts2, E2, a, b) {
      var i, j :| 0 <= i < |ts1| && 0 <= j < |ts1| && ts1[i] == a && ts1[j] == b && (i, j) in E1;
      assert ts2[i] == a && ts2[j] == b;
    }
  }

  // An agent's dependency graph, as it is when imported.
  datatype Agent = Agent(tasks: seq<Task>, edges: set<Edge>)

  ghost predicate AgentValid(a: Agent)
    reads a.tasks
  {
    AllValid(a.tasks) && AgentReady(KindsOf(a.tasks), Pairs(a.edges))
  }

  // No task belongs to two agents.
  ghost predicate Apart(agents: seq<Agent>) {
    forall j, k, t :: 0 <= j < |agents| && 0 <= k < |agents| && j != k && t in agents[j].tasks ==> t !in agents[k].tasks
  }

  // The agents' tasks, one agent after the other.
  function AllTasks(agents: seq<Agent>): seq<Task> {
    if agents == [] then [] else AllTasks(agents[..|agents| - 1]) + agents[|agents| - 1].tasks
  }

  // Their edges, each agent's moved behind those before it.
  function AllEdges(agents: seq<Agent>): Edges {
    if agents == [] then {}
    else
      var init := agents[..|agents| - 1];
      AllEdges(init) + Behind(|AllTasks(init)|, Pairs(agents[|agents| - 1].edges))
  }

  // All that importing them, with tasks of these types, adds to a graph of start and end.
  function UnionEdges(agents: seq<Agent>, kinds: seq<TaskType>): set<Edge>
    requires |kinds| == |AllTasks(agents)|
  {
    if agents == [] then {}
    else
      var init, n := agents[..|agents| - 1], |kinds| - |agents[|agents| - 1].tasks|;
      UnionEdges(init, kinds[..n]) + Imported(kinds[n..], agents[|agents| - 1].edges, 2 + n, 0, 1)
  }

  lemma {:induction false} NextTasks(agents: seq<Agent>, agent: Agent)
    ensures AllTasks(agents + [agent]) == AllTasks(agents) + agent.tasks
    ensures AllEdges(agents + [agent]) == AllEdges(agents) + Behind(|AllTasks(agents)|, Pairs(agent.edges))
  {
    assert (agents + [agent])[..|agents|] == agents;
    hide Behind, Pairs;
  }

  lemma {:induction false} NextUnion(agents: seq<Agent>, agent: Agent, kinds: seq<TaskType>, more: seq<TaskType>)
    requires |kinds| == |AllTasks(agents)| && |more| == |agent.tasks|
    requires |kinds + more| == |AllTasks(agents + [agent])|
    ensures UnionEdges(agents + [agent], kinds + more) == UnionEdges(agents, kinds) + Imported(more, agent.edges, 2 + |kinds|, 0, 1)
  {
    hide Imported, AllTasks, AllEdges;
    assert (agents + [agent])[..|agents|] == agents;
    assert (kinds + more)[..|kinds|] == kinds && (kinds + more)[|kinds|..] == more;
  }

  // The graph holds start, end and these agents, and nothing else.
  ghost predicate IsUnion(ts: seq<Task>, es: set<Edge>, agents: seq<Agent>)
    reads ts
  {
    && |ts| >= 2 && ts[0].taskType == StartModel && ts[1].taskType == FinishModel
    && ts[2..] == AllTasks(agents) && es == UnionEdges(agents, KindsOf(ts)[2..])
  }

  // The first k agents have been imported behind the start and the end.
  ghost predicate UnionOf(model: XGraph, agents: seq<Agent>, k: nat)
    requires k <= |agents|
    reads model, model.vertex2task
  {
    && InUnion(model.vertex2task, model.edges, agents, k)
    && model.startTask == model.vertex2task[0] && model.endTask == model.vertex2task[1]
  }

  ghost predicate InUnion(ts: seq<Task>, es: set<Edge>, agents: seq<Agent>, k: nat)
    requires k <= |agents|
    reads ts
  {
    && IsUnion(ts, es, agents[..k]) && AllValid(ts) && UnionReady(KindsOf(ts), es, 0, 1)
    && (forall j :: 0 <= j < k ==> Embeds(agents[j].tasks, Pairs(agents[j].edges), ts, Pairs(es)))
    && (forall j, t :: k <= j < |agents| && t in agents[j].tasks ==> t !in ts)
    && (forall t :: t in ts ==> !t.taskType.XMessage? || exists j :: 0 <= j < k && t in agents[j].tasks)
  }

  lemma FirstTwo(ts: seq<Task>)
    requires |ts| >= 2 && AllValid(ts)
    ensures GetVertex(ts, ts[0]) == 0 && GetVertex(ts, ts[1]) == 1
  {
  }

  lemma AppendedValid(ts: seq<Task>, more: seq<Task>)
    requires AllValid(ts) && AllValid(more) && forall t :: t in more ==> t !in ts
    ensures AllValid(ts + more) && KindsOf(ts + more) == KindsOf(ts) + KindsOf(more)
  {
    var all := ts + more;
    forall i, j | 0 <= i < j < |all| ensures all[i] != all[j] {
      if i < |ts| <= j {
        assert more[j - |ts|] in more;
      }
    }
  }

  // What one more agent makes of the union.
  lemma UnionGrows(agent: Agent, ts: seq<Task>, es: set<Edge>, ts': seq<Task>, es': set<Edge>)
    requires AgentValid(agent) && forall t :: t in agent.tasks ==> t !in ts
    requires AllValid(ts) && UnionReady(KindsOf(ts), es, 0, 1)
    requires ts' == ts + agent.tasks && es' == es + Imported(KindsOf(agent.tasks), agent.edges, |ts|, 0, 1)
    ensures AllValid(ts') && UnionReady(KindsOf(ts'), es', 0, 1)
    ensures Embeds(agent.tasks, Pairs(agent.edges), ts', Pairs(es'))
    ensures Pairs(es) <= Pairs(es')
  {
    hide UnionReady, AgentReady, Pairs, Imported, Embeds, AllValid;
    var more := KindsOf(agent.tasks);
    ImportKeepsUnion(KindsOf(ts), es, more, agent.edges, 0, 1);
    EmbedsImported(ts, es, more, agent.tasks, agent.edges, 0, 1);
    PairsUnion(es, Imported(more, agent.edges, |ts|, 0, 1));
    AppendedValid(ts, agent.tasks);
  }

  lemma {:induction false} UnionNext(agents: seq<Agent>, k: nat, ts: seq<Task>, es: set<Edge>, ts': seq<Task>, es': set<Edge>)
    requires k < |agents| && IsUnion(ts, es, agents[..k])
    requires ts' == ts + agents[k].tasks && es' == es + Imported(KindsOf(agents[k].tasks), agents[k].edges, |ts|, 0, 1)
    ensures IsUnion(ts', es', agents[..k + 1])
  {
    hide AllTasks, UnionEdges, Imported;
    assert agents[..k + 1] == agents[..k] + [agents[k]];
    NextTasks(agents[..k], agents[k]);
    assert ts'[2..] == ts[2..] + agents[k].tasks;
    assert KindsOf(ts')[2..] == KindsOf(ts)[2..] + KindsOf(agents[k].tasks);
    NextUnion(agents[..k], agents[k], KindsOf(ts)[2..], KindsOf(agents[k].tasks));
  }

  method ImportNext(model: XGraph, graph: XGraph, ghost agents: seq<Agent>, ghost k: nat)
    requires k < |agents| && model != graph && agents[k] == Agent(graph.vertex2task, graph.edges)
    requires AgentValid(agents[k]) && Apart(agents) && UnionOf(model, agents, k)
    modifies model`vertex2task, model`edges
    ensures UnionOf(model, agents, k + 1)
  {
    hide *;
    ghost var ts, es := model.vertex2task, model.edges;
    UnionStarts(model, agents, k);
    Import(model, graph);
    OneMoreIn(model, agents, k, ts, es);
  }

  lemma UnionStarts(model: XGraph, agents: seq<Agent>, k: nat)
    requires k <= |agents| && UnionOf(model, agents, k)
    ensures ghost var ts := model.vertex2task;
            && InUnion(ts, model.edges, agents, k) && |ts| >= 2 && model.startTask == ts[0] && model.endTask == ts[1]
            && GetVertex(ts, ts[0]) == 0 && GetVertex(ts, ts[1]) == 1
  {
    hide InUnion, AllValid, GetVertex, UnionReady, Embeds;
    UnionHas(model.vertex2task, model.edges, agents, k);
    FirstTwo(model.vertex2task);
  }

  lemma UnionHas(ts: seq<Task>, es: set<Edge>, agents: seq<Agent>, k: nat)
    requires k <= |agents| && InUnion(ts, es, agents, k)
    ensures IsUnion(ts, es, agents[..k]) && AllValid(ts) && |ts| >= 2
    ensures UnionReady(KindsOf(ts), es, 0, 1)
  {
    hide AllValid, UnionReady, Embeds;
  }

  lemma OneMoreIn(model: XGraph, agents: seq<Agent>, k: nat, ts: seq<Task>, es: set<Edge>)
    requires k < |agents| && AgentValid(agents[k]) && Apart(agents) && InUnion(ts, es, agents, k) && |ts| >= 2
    requires model.vertex2task == ts + agents[k].tasks && model.startTask == ts[0] && model.endTask == ts[1]
    requires model.edges == es + Imported(KindsOf(agents[k].tasks), agents[k].edges, |ts|, 0, 1)
    ensures UnionOf(model, agents, k + 1)
  {
    hide UnionReady, AgentReady, Pairs, Imported, Embeds, Distinct, AgentValid, AllValid, AllTasks, UnionEdges, IsUnion;
    UnionHas(ts, es, agents, k);
    UnionNext(agents, k, ts, es, model.vertex2task, model.edges);
    UnionGrows(agents[k], ts, es, model.vertex2task, model.edges);
    forall j | 0 <= j < k
      ensures Embeds(agents[j].tasks, Pairs(agents[j].edges), model.vertex2task, Pairs(model.edges))
    {
      EmbedsExtended(agents[j].tasks, Pairs(agents[j].edges), ts, Pairs(es), model.vertex2task, Pairs(model.edges));
    }
  }

  // Contracting the agents' starts keeps the order of all other tasks.
  lemma OrderContracted(ts: seq<Task>, es: set<Edge>, cs: seq<Vertex>, a: Task, b: Task)
    requires InRange(Pairs(es), |ts|) && forall i, j :: 0 <= i < j < |cs| ==> cs[i] != cs[j]
    requires Ordered(ts, Pairs(es), a, b)
    requires forall i :: 0 <= i < |ts| && i in cs ==> ts[i] != a && ts[i] != b
    ensures Ordered(Kept(ts, Elements(cs)), Pairs(Contracted(es, cs, Blank)), a, b)
  {
    var i, j :| 0 <= i < |ts| && 0 <= j < |ts| && ts[i] == a && ts[j] == b && Reaches(Pairs(es), i, j);
    ContractedReaches(es, cs, Blank, |ts|, i, j);
    KeptAt(ts, Elements(cs));
  }

  lemma {:induction false} KindsOfKept(ts: seq<Task>, del: set<Vertex>)
    ensures KindsOf(Kept(ts, del)) == Kept(KindsOf(ts), del)
  {
    if ts != [] {
      KindsOfKept(ts[..|ts| - 1], del);
      assert KindsOf(ts)[..|ts| - 1] == KindsOf(ts[..|ts| - 1]);
    }
  }

  // What is left once the agents' starts are gone can be synchronised.
  lemma ContractedUnion(kinds: seq<TaskType>, es: set<Edge>, cs: seq<Vertex>)
    requires UnionReady(kinds, es, 0, 1)
    requires forall v :: v in cs <==> 0 <= v < |kinds| && kinds[v] == StartAgent
    requires forall i, j :: 0 <= i < j < |cs| ==> cs[i] != cs[j]
    ensures ghost var left, E := Kept(kinds, Elements(cs)), Pairs(Contracted(es, cs, Blank));
            && InRange(E, |left|) && Acyclic(E)
            && (forall v :: 0 <= v < |left| ==> !left[v].XMessageSync?)
            && (forall e :: e in E ==> !(left[e.0].XMessage? && left[e.1].XMessage?))
  {
    var del, all := Elements(cs), WithBypasses(es, cs, Blank);
    var left, E := Kept(kinds, del), Pairs(Contracted(es, cs, Blank));
    var f: Vertex -> Vertex := i => Rank(del, i);
    KeptAt(kinds, del);
    ContractedAcyclic(es, cs, Blank, |kinds|);
    StartBypasses(kinds, Pairs(es), cs, 0);
    PairsWithBypasses(es, cs, Blank);
    PairsRenumbered(all, del);
    forall v | 0 <= v < |left| ensures !left[v].XMessageSync? {
      var i := RankOnto(del, |kinds|, v);
    }
    hide Pairs, Contracted, Kept, Rank, IsPath, BypassAll, WithBypasses, Acyclic;
    forall p: (Vertex, Vertex) | p in E ensures !(left[p.0].XMessage? && left[p.1].XMessage?) {
      var e: (Vertex, Vertex) :| e in Avoiding(BypassAll(Pairs(es), cs), del) && p == (f(e.0), f(e.1));
      assert left[p.0] == kinds[e.0] && left[p.1] == kinds[e.1];
    }
  }

  // Synchronisation keeps the order, messages standing replaced.
  lemma OrderSynchronised(ts: seq<Task>, E: Edges, all: seq<Task>, es: set<Edge>, a: Task, b: Task)
    requires SyncProgress(LabelsOf(ts), E, |all|, LabelsOf(all), Pairs(es)) && ts <= all
    requires Ordered(ts, E, a, b)
    ensures ghost var M := MessagesOf(LabelsOf(all));
            OrderedForGood(Kept(all, M), Pairs(Renumbered(es, M)), a, b)
  {
    hide *;
    var labels0, labels := LabelsOf(ts), LabelsOf(all);
    var M, n := MessagesOf(labels), |labels|;
    var i, j := Whereabouts(ts, E, a, b);
    DoubledInRange(labels0, E, n, labels, Pairs(es));
    SyncedReaches(labels0, E, labels, es, i, j);
    var x, y := Redirect(labels, n, i), Redirect(labels, n, j);
    Standing(ts, E, all, Pairs(es), i);
    Standing(ts, E, all, Pairs(es), j);
    KeptOne(all, M, x);
    KeptOne(all, M, y);
    OrderedForGoodAt(Kept(all, M), Pairs(Renumbered(es, M)), a, b, Rank(M, x), Rank(M, y));
  }

  lemma Whereabouts(ts: seq<Task>, E: Edges, a: Task, b: Task) returns (i: Vertex, j: Vertex)
    requires Ordered(ts, E, a, b)
    ensures i < |ts| && j < |ts| && ts[i] == a && ts[j] == b && Reaches(E, i, j)
  {
    hide Reaches;
    i, j :| i < |ts| && j < |ts| && ts[i] == a && ts[j] == b && Reaches(E, i, j);
  }

  lemma {:induction false} BothWaysIsCycle(ts: seq<Task>, E: Edges, a: Task, b: Task)
    requires Distinct(ts) && Ordered(ts, E, a, b) && Ordered(ts, E, b, a)
    ensures !Acyclic(E)
  {
    hide Reaches;
    var i, j := Whereabouts(ts, E, a, b);
    var k, l := Whereabouts(ts, E, b, a);
    assert i == l && j == k;
    Transitive(E, i, j, i);
  }

  lemma KeptOne(ts: seq<Task>, del: set<Vertex>, i: Vertex)
    requires i < |ts| && i !in del
    ensures Rank(del, i) < |Kept(ts, del)| && Kept(ts, del)[Rank(del, i)] == ts[i] && ts[i] in Kept(ts, del)
  {
    KeptAt(ts, del);
  }

  lemma OrderedForGoodAt(ts: seq<Task>, E: Edges, a: Task, b: Task, i: Vertex, j: Vertex)
    requires i < |ts| && j < |ts| && StandsFor(ts[i], a) && StandsFor(ts[j], b) && Reaches(E, i, j)
    ensures OrderedForGood(ts, E, a, b)
  {
    assert Ordered(ts, E, ts[i], ts[j]);
  }

  lemma Standing(ts: seq<Task>, E0: Edges, all: seq<Task>, E: Edges, i: Vertex)
    requires SyncProgress(LabelsOf(ts), E0, |all|, LabelsOf(all), E) && ts <= all && i < |ts|
    ensures ghost var r := Redirect(LabelsOf(all), |LabelsOf(all)|, i);
      r < |all| && r !in MessagesOf(LabelsOf(all)) && StandsFor(all[r], ts[i])
  {
    RedirectInRange(LabelsOf(ts), E0, LabelsOf(all), E, i);
    RedirectsAway(LabelsOf(all), i);
    hide SyncProgress, Redirect, MessagesOf;
    assert LabelsOf(ts)[i] == Label(ts[i].taskType, ts[i].name);
    assert ts[i] == all[i];
  }

  lemma OrderExtended(ts: seq<Task>, E: Edges, ts': seq<Task>, E': Edges, a: Task, b: Task)
    requires OrderedForGood(ts, E, a, b) && ts <= ts' && E <= E'
    ensures OrderedForGood(ts', E', a, b)
  {
    var x, y :| x in ts && y in ts && StandsFor(x, a) && StandsFor(y, b) && Ordered(ts, E, x, y);
    var i, j :| 0 <= i < |ts| && 0 <= j < |ts| && ts[i] == x && ts[j] == y && Reaches(E, i, j);
    Monotone(E, E', i, j);
    assert ts'[i] == x && ts'[j] == y;
  }

  // No message has two synchronisation tasks.
  ghost predicate OneSyncPerMessage(ts: seq<Task>)
    reads ts
  {
    forall s, t :: s in ts && t in ts && s.taskType == t.taskType == XMessageSync && s.name == t.name ==> s == t
  }

  lemma SyncsAreUnique(labels0: seq<Label>, E0: Edges, all: seq<Task>, E: Edges, ts: seq<Task>)
    requires SyncProgress(labels0, E0, |all|, LabelsOf(all), E)
    requires ts == Kept(all, MessagesOf(LabelsOf(all)))
    ensures OneSyncPerMessage(ts)
  {
    hide SyncProgress, Kept, MessagesOf, Find;
    forall s, t | s in ts && t in ts && s.taskType == t.taskType == XMessageSync && s.name == t.name ensures s == t {
      KeptComesFrom(all, MessagesOf(LabelsOf(all)), s);
      KeptComesFrom(all, MessagesOf(LabelsOf(all)), t);
      SamePlace(labels0, E0, all, E, s);
      SamePlace(labels0, E0, all, E, t);
    }
  }

  lemma SamePlace(labels0: seq<Label>, E0: Edges, all: seq<Task>, E: Edges, s: Task)
    requires SyncProgress(labels0, E0, |all|, LabelsOf(all), E) && s in all && s.taskType == XMessageSync
    ensures ghost var v := Find(LabelsOf(all), XMessageSync, s.name); v < |all| && all[v] == s
  {
    hide SyncProgress, Find;
    var i :| 0 <= i < |all| && all[i] == s;
    OneSyncEach(labels0, E0, LabelsOf(all), E, s.name);
    assert LabelsOf(all)[i] == Label(XMessageSync, s.name);
  }

  lemma {:induction false} KeptComesFrom(ts: seq<Task>, del: set<Vertex>, t: Task)
    requires t in Kept(ts, del)
    ensures t in ts
  {
    if ts != [] && t in Kept(ts[..|ts| - 1], del) {
      KeptComesFrom(ts[..|ts| - 1], del, t);
    }
  }

  // Each message is cleared after its synchronisation's direct successors, and
  // after what comes before one of those; after nothing else.
  ghost predicate ClearsExactly(labels: seq<Label>, E: Edges, labels': seq<Label>, E': Edges) {
    labels <= labels' && forall s :: 0 <= s < |labels| && labels[s].kind.XMessageSync? ==>
      exists c :: ClearedAt(labels, E, labels', E', s, c)
  }

  ghost predicate ClearedAt(labels: seq<Label>, E: Edges, labels': seq<Label>, E': Edges, s: Vertex, c: Vertex) {
    && s < |labels| && c < |labels'| && labels'[c] == Label(XMessageClear, labels[s].name)
    && forall r :: 0 <= r < |labels| ==>
         (Reaches(E', r, c) <==> exists d :: (s, d) in E && (d == r || Reaches(E, r, d)))
  }

  lemma ClearsAreExact(labels: seq<Label>, E: Edges)
    requires InRange(E, |labels|)
    ensures ClearsExactly(labels, E, labels + ClearLabels(labels, |labels|), E + ClearEdges(labels, E, |labels|))
  {
    var labels', E' := labels + ClearLabels(labels, |labels|), E + ClearEdges(labels, E, |labels|);
    hide ClearEdges, Reaches;
    forall s | 0 <= s < |labels| && labels[s].kind.XMessageSync?
      ensures exists c :: ClearedAt(labels, E, labels', E', s, c)
    {
      var c := ClearOf(labels, s);
      ClearLabelsGrow(labels, s, |labels|);
      assert labels'[c] == Label(XMessageClear, labels[s].name);
      forall r | 0 <= r < |labels|
        ensures Reaches(E', r, c) <==> exists d :: (s, d) in E && (d == r || Reaches(E, r, d))
      {
        ClearFollowsExactly(labels, E, s, r);
      }
      assert ClearedAt(labels, E, labels', E', s, c);
    }
  }

  method AddStartAndFinish(model: XGraph, ghost agents: seq<Agent>)
    requires model.vertex2task == [] && model.edges == {}
    modifies model
    ensures UnionOf(model, agents, 0)
  {
    hide *;
    var t := new Task(model.agentName, "Start", StartModel);
    var v := model.AddVertex(t);
    model.startTask := t;
    var u := new Task(model.agentName, "Finish", FinishModel);
    v := model.AddVertex(u);
    model.endTask := u;
    NoneImported(model, agents, t, u);
  }

  // Start, finish and the agents' graphs side by side.
  method ImportAll(model: XGraph, graphs: seq<XGraph>, ghost agents: seq<Agent>)
    requires model.vertex2task == [] && model.edges == {} && model !in graphs && |agents| == |graphs|
    requires forall k :: 0 <= k < |graphs| ==> agents[k] == Agent(graphs[k].vertex2task, graphs[k].edges)
    requires (forall k :: 0 <= k < |agents| ==> AgentValid(agents[k])) && Apart(agents)
    modifies model
    ensures UnionOf(model, agents, |agents|)
  {
    hide *;
    AddStartAndFinish(model, agents);
    var k := 0;
    while k < |graphs|
      invariant 0 <= k <= |graphs| && UnionOf(model, agents, k)
      invariant forall j :: 0 <= j < |agents| ==> AgentValid(agents[j])
      modifies model`vertex2task, model`edges
    {
      ImportNext(model, graphs[k], agents, k);
      k := k + 1;
    }
  }

  lemma EmptyUnion(ts: seq<Task>, t: Task, u: Task)
    requires ts == [t, u] && t != u && t.Valid() && u.Valid() && t.taskType == StartModel && u.taskType == FinishModel
    ensures AllValid(ts) && UnionReady(KindsOf(ts), {}, 0, 1)
  {
    forall v: Vertex ensures !Reaches(Pairs({}), v, v) {
      if Reaches(Pairs({}), v, v) {
        var m := FirstEdge(Pairs({}), v, v);
      }
    }
  }

  lemma NoneImported(model: XGraph, agents: seq<Agent>, t: Task, u: Task)
    requires model.vertex2task == [t, u] && model.edges == {} && model.startTask == t && model.endTask == u
    requires t != u && t.Valid() && u.Valid() && t.taskType == StartModel && u.taskType == FinishModel
    requires forall a :: a in agents ==> t !in a.tasks && u !in a.tasks
    ensures UnionOf(model, agents, 0)
  {
    EmptyUnion(model.vertex2task, t, u);
    hide AllValid, UnionReady;
  }

  // ------------------------------------------------------ the union, once more

  lemma {:induction false} AgentsUnited(agents: seq<Agent>)
    requires forall a :: a in agents ==> AgentValid(a)
    ensures United(LabelsOf(AllTasks(agents)), AllEdges(agents), Pairs(UnionEdges(agents, KindsOf(AllTasks(agents)))))
  {
    hide *;
    if agents != [] {
      var init, last := agents[..|agents| - 1], agents[|agents| - 1];
      assert agents == init + [last];
      AgentsUnited(init);
      OneMoreUnited(init, last);
    } else {
      NothingUnited();
    }
  }

  lemma AgentIsReady(agent: Agent)
    requires AgentValid(agent)
    ensures AgentReady(KindsOf(agent.tasks), Pairs(agent.edges))
  {
  }

  lemma {:induction false} OneMoreUnited(agents: seq<Agent>, agent: Agent)
    requires AgentValid(agent)
    requires United(LabelsOf(AllTasks(agents)), AllEdges(agents), Pairs(UnionEdges(agents, KindsOf(AllTasks(agents)))))
    ensures ghost var more := agents + [agent];
            United(LabelsOf(AllTasks(more)), AllEdges(more), Pairs(UnionEdges(more, KindsOf(AllTasks(more)))))
  {
    hide *;
    var before, more := AllTasks(agents), agents + [agent];
    AgentIsReady(agent);
    NextTasks(agents, agent);
    assert KindsOf(AllTasks(more)) == KindsOf(before) + KindsOf(agent.tasks);
    assert LabelsOf(AllTasks(more)) == LabelsOf(before) + LabelsOf(agent.tasks);
    NextUnion(agents, agent, KindsOf(before), KindsOf(agent.tasks));
    UnitedGrows(LabelsOf(before), AllEdges(agents), UnionEdges(agents, KindsOf(before)), LabelsOf(agent.tasks), KindsOf(agent.tasks), agent.edges);
  }

  lemma {:induction false} NothingUnited()
    ensures United(LabelsOf(AllTasks([])), AllEdges([]), Pairs(UnionEdges([], KindsOf(AllTasks([])))))
  {
  }

  // The order that the agents' graphs and the messages they share impose.
  ghost function SharedOrder(agents: seq<Agent>): Edges
    reads AllTasks(agents)
  {
    Shared(LabelsOf(AllTasks(agents)), AllEdges(agents))
  }
}
