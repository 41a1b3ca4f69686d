/** What the passes of the dependency compiler do to the graph of one agent, as
    functions on graphs, and what survives all of them. */
module AgentGraph {
  import opened Digraph
  import opened DataFlow
  import opened TaskGraph
  import opened Tasks

  // The edges of kind `kind` into v from every vertex of ws but v itself.
  function EdgesInto(ws: set<Vertex>, v: Vertex, kind: DependencyType): set<Edge> {
    set w | w in ws && w != v :: Edge(w, v, kind)
  }

  lemma NoReturn(nodes: seq<Node>, E: Edges, v: Vertex, x: string)
    requires Acyclic(E)
    ensures !Arrives(nodes, E, v, v, x)
  {
    if Arrives(nodes, E, v, v, x) {
      var p :| ClearPath(nodes, E, p, v, v, x);
      Monotone(FlowEdges(nodes, E), E, v, v);
    }
  }

  lemma DependencyInRange(nodes: seq<Node>, E: Edges, w: Vertex, v: Vertex)
    requires DataDependency(nodes, E, w, v)
    ensures w < |nodes| && v < |nodes| && Analysed(nodes[v].kind)
  {
    var x :| || (Reads(nodes, v, x) && LastWriterAt(nodes, E, w, v, x))
             || (Writes(nodes, v, x) && LastReaderAt(nodes, E, w, v, x));
    ArrivesStep(nodes, E, w, v, x);
  }

  lemma InEdgesUnchanged(a: set<Edge>, b: set<Edge>, v: Vertex)
    requires a <= b && forall e :: e in b - a ==> e.target != v
    ensures forall u :: (u, v) in Pairs(a) <==> (u, v) in Pairs(b)
  {
    forall u ensures (u, v) in Pairs(a) <==> (u, v) in Pairs(b) {
      if (u, v) in Pairs(b) {
        var e :| e in b && (e.source, e.target) == (u, v);
        assert e in a;
      }
    }
  }

  // The data edges into the vertices of `done`.
  ghost function AddedInto(done: set<Vertex>, nodes: seq<Node>, E: Edges): set<Edge> {
    set p | p in DataEdges(nodes, E) && p.1 in done :: Edge(p.0, p.1, Variable)
  }

  lemma AddedStep(done: set<Vertex>, v: Vertex, nodes: seq<Node>, E: Edges, e: Edge)
    ensures e in AddedInto(done + {v}, nodes, E) <==>
              || e in AddedInto(done, nodes, E)
              || (e.target == v && e.kind == Variable && DataDependency(nodes, E, e.source, v))
  {
    var p := (e.source, e.target);
    if e.target == v && e.kind == Variable && DataDependency(nodes, E, e.source, v) {
      DependencyInRange(nodes, E, e.source, v);
      assert p in DataEdges(nodes, E);
      assert e == Edge(p.0, p.1, Variable);
    } else if e in AddedInto(done, nodes, E) {
      assert p in DataEdges(nodes, E);
    }
  }

  lemma AddedInEdges(done: set<Vertex>, v: Vertex, nodes: seq<Node>, before: set<Edge>, now: set<Edge>)
    requires v !in done
    requires now == before + AddedInto(done, nodes, Pairs(before))
    ensures forall u :: (u, v) in Pairs(now) <==> (u, v) in Pairs(before)
  {
    InEdgesUnchanged(before, now, v);
  }

  lemma AddedInRange(done: set<Vertex>, nodes: seq<Node>, before: set<Edge>)
    requires InRange(Pairs(before), |nodes|)
    ensures InRange(Pairs(before + AddedInto(done, nodes, Pairs(before))), |nodes|)
  {
    PairsUnion(before, AddedInto(done, nodes, Pairs(before)));
  }

  lemma DataEdgesAll(done: set<Vertex>, nodes: seq<Node>, E: Edges)
    requires forall v :: 0 <= v < |nodes| ==> v in done
    ensures AddedInto(done, nodes, E) == Labelled(DataEdges(nodes, E), Variable)
  {
  }

  // The edges once those into v have been added.
  lemma AddedAll(done: set<Vertex>, v: Vertex, nodes: seq<Node>, before: set<Edge>, now: set<Edge>, after: set<Edge>)
    requires now == before + AddedInto(done, nodes, Pairs(before)) && InRange(Pairs(before), |nodes|)
    requires forall e :: e in after <==>
               e in now || (e.target == v && e.kind == Variable && DataDependency(nodes, Pairs(before), e.source, v))
    ensures after == before + AddedInto(done + {v}, nodes, Pairs(before)) && InRange(Pairs(after), |nodes|)
  {
    hide Pairs, AddedInto, DataDependency, InRange;
    forall e ensures e in after <==> e in before + AddedInto(done + {v}, nodes, Pairs(before)) {
      AddedStep(done, v, nodes, Pairs(before), e);
    }
    AddedInRange(done + {v}, nodes, before);
  }

  // The next vertex of a topological order is new, and what precedes it is done.
  lemma NextInOrder(E: Edges, n: nat, order: seq<Vertex>, i: nat)
    requires TopologicalOrder(E, n, order) && InRange(E, n) && i < n
    ensures order[i] < n && order[i] !in Elements(order[..i])
    ensures forall u :: (u, order[i]) in E ==> u in Elements(order[..i])
    ensures Elements(order[..i + 1]) == Elements(order[..i]) + {order[i]}
  {
    assert order[..i + 1] == order[..i] + [order[i]];
    forall u | (u, order[i]) in E ensures u in order[..i] {
      assert u in order;
      var j :| 0 <= j < n && order[j] == u;
      assert order[..i][j] == u;
    }
  }

  lemma WholeOrder(E: Edges, n: nat, order: seq<Vertex>)
    requires TopologicalOrder(E, n, order)
    ensures forall v :: 0 <= v < n ==> v in Elements(order[..n])
  {
    assert order[..n] == order;
  }

  ghost function LastWritesOf(ts: seq<Task>): (r: seq<VarMap>)
    reads ts
    ensures |r| == |ts| && forall i :: 0 <= i < |ts| ==> r[i] == ts[i].lastWrites
  {
    seq(|ts|, i requires 0 <= i < |ts| reads ts => ts[i].lastWrites)
  }

  ghost function LastReadsOf(ts: seq<Task>): (r: seq<VarMap>)
    reads ts
    ensures |r| == |ts| && forall i :: 0 <= i < |ts| ==> r[i] == ts[i].lastReads
  {
    seq(|ts|, i requires 0 <= i < |ts| reads ts => ts[i].lastReads)
  }

  // now is what was recorded at first and what the sources have recorded.
  ghost predicate Joined(first: VarMap, maps: seq<VarMap>, sources: set<Vertex>, now: VarMap) {
    forall x, w :: Recorded(now, x, w) <==>
                   Recorded(first, x, w) || exists u :: u in sources && u < |maps| && Recorded(maps[u], x, w)
  }

  lemma NoneJoined(first: VarMap, maps: seq<VarMap>)
    ensures Joined(first, maps, {}, first)
  {
  }

  lemma OneMoreJoined(first: VarMap, maps: seq<VarMap>, sources: set<Vertex>, now: VarMap, u: Vertex, next: VarMap)
    requires Joined(first, maps, sources, now) && u < |maps|
    requires forall x, w :: Recorded(next, x, w) <==> Recorded(maps[u], x, w) || Recorded(now, x, w)
    ensures Joined(first, maps, sources + {u}, next)
  {
    hide Recorded;
  }

  lemma JoinedAll(first: VarMap, maps: seq<VarMap>, sources: set<Vertex>, now: VarMap)
    requires Joined(first, maps, sources, now)
    ensures forall x, w :: Recorded(now, x, w) <==>
              Recorded(first, x, w) || exists u :: u in sources && u < |maps| && Recorded(maps[u], x, w)
  {
    hide Recorded;
  }

  ghost function NodesOf(ts: seq<Task>): (nodes: seq<Node>)
    reads ts
    ensures |nodes| == |ts| && forall i :: 0 <= i < |ts| ==> nodes[i] == ts[i].AsNode()
  {
    seq(|ts|, i requires 0 <= i < |ts| reads ts => ts[i].AsNode())
  }

  ghost predicate Distinct(ts: seq<Task>) {
    forall i, j :: 0 <= i < j < |ts| ==> ts[i] != ts[j]
  }

  lemma {:induction false} KeptDistinct(ts: seq<Task>, del: set<Vertex>)
    requires Distinct(ts)
    ensures Distinct(Kept(ts, del))
    ensures forall t :: t in Kept(ts, del) ==> t in ts
  {
    if ts != [] {
      KeptDistinct(ts[..|ts| - 1], del);
      var ks := Kept(ts[..|ts| - 1], del);
      assert forall i :: 0 <= i < |ks| ==> ks[i] in ts[..|ts| - 1];
    }
  }

  // The vertices of one type, in order.
  function IndicesOf(nodes: seq<Node>, kind: TaskType): seq<Vertex> {
    if nodes == [] then []
    else
      var m := |nodes| - 1;
      IndicesOf(nodes[..m], kind) + (if nodes[m].kind == kind then [m] else [])
  }

  lemma {:induction false} IndicesAscending(nodes: seq<Node>, kind: TaskType)
    ensures forall v :: v in IndicesOf(nodes, kind) <==> 0 <= v < |nodes| && nodes[v].kind == kind
    ensures forall i :: 0 <= i < |IndicesOf(nodes, kind)| ==> IndicesOf(nodes, kind)[i] < |nodes|
    ensures forall i, j :: 0 <= i < j < |IndicesOf(nodes, kind)| ==>
              IndicesOf(nodes, kind)[i] != IndicesOf(nodes, kind)[j]
  {
    if nodes != [] {
      IndicesAscending(nodes[..|nodes| - 1], kind);
    }
  }

  lemma IndicesNext(nodes: seq<Node>, v: nat, kind: TaskType)
    requires v < |nodes|
    ensures IndicesOf(nodes[..v + 1], kind) == IndicesOf(nodes[..v], kind) + (if nodes[v].kind == kind then [v] else [])
  {
    assert nodes[..v + 1][..v] == nodes[..v];
  }

  lemma NoLoopAfterBypasses(es: set<Edge>, cs: seq<Vertex>, kind: DependencyType, v: Vertex)
    requires Acyclic(Pairs(es))
    ensures (v, v) !in Pairs(WithBypasses(es, cs, kind))
  {
    BypassesOnlyAdd(es, cs, kind);
    assert (v, v) in Pairs(WithBypasses(es, cs, kind)) ==> Reaches(Pairs(es), (v, v).0, (v, v).1);
  }

  lemma ContractedValid(ts: seq<Task>, es: set<Edge>, cs: seq<Vertex>, kind: DependencyType)
    requires Distinct(ts) && InRange(Pairs(es), |ts|) && Acyclic(Pairs(es))
    requires forall i, j :: 0 <= i < j < |cs| ==> cs[i] != cs[j]
    ensures Distinct(Kept(ts, Elements(cs)))
    ensures forall t :: t in Kept(ts, Elements(cs)) ==> t in ts
    ensures InRange(Pairs(Contracted(es, cs, kind)), |Kept(ts, Elements(cs))|)
    ensures Acyclic(Pairs(Contracted(es, cs, kind)))
  {
    KeptDistinct(ts, Elements(cs));
    KeptAt(ts, Elements(cs));
    ContractedAcyclic(es, cs, kind, |ts|);
  }

  // The position of a task, or 0 if it is not there.
  function GetVertex(ts: seq<Task>, t: Task?): (v: Vertex)
    ensures t in ts ==> v < |ts| && ts[v] == t
    ensures t !in ts ==> v == 0
  {
    var i := FindFrom(ts, t, 0);
    if i < |ts| then i else 0
  }

  function FindFrom(ts: seq<Task>, t: Task?, i: nat): (v: nat)
    requires i <= |ts|
    ensures i <= v <= |ts|
    ensures v < |ts| ==> ts[v] == t
    ensures v == |ts| ==> forall j :: i <= j < |ts| ==> ts[j] != t
    decreases |ts| - i
  {
    if i == |ts| || ts[i] == t then i else FindFrom(ts, t, i + 1)
  }

  function Decimal(n: nat): string {
    if n < 10 then ["0123456789"[n]] else Decimal(n / 10) + Decimal(n % 10)
  }

  predicate IsBranching(nodes: seq<Node>, es: set<Edge>, v: Vertex)
    requires v < |nodes|
  {
    nodes[v].kind.XState? && |OutEdges(es, v)| > 1
  }

  // Branching states become conditions, which are taken to access everything.
  function AfterTransform(nodes: seq<Node>, es: set<Edge>, variables: set<string>): (r: seq<Node>)
    ensures |r| == |nodes|
    ensures forall v :: 0 <= v < |nodes| ==>
      r[v] == if IsBranching(nodes, es, v)
              then Node(XCondition, nodes[v].readVars + variables, nodes[v].writeVars + variables)
              else nodes[v]
  {
    seq(|nodes|, v requires 0 <= v < |nodes| =>
      if IsBranching(nodes, es, v)
      then Node(XCondition, nodes[v].readVars + variables, nodes[v].writeVars + variables)
      else nodes[v])
  }

  function Names(variables: seq<string>): set<string> {
    set x | x in variables
  }

  // ------------------------------------------------------------ data output

  // The variables with the same last writers as x.
  function SameWriters(lastWrites: VarMap, x: string): set<string>
    requires x in lastWrites
  {
    set y | y in lastWrites && lastWrites[y] == lastWrites[x]
  }

  // Each group is one class of variables with equal writer sets, every class
  // is a group, and no class is a group twice.
  ghost predicate PartitionsByWriters(lastWrites: VarMap, groups: seq<set<string>>) {
    && (forall k :: 0 <= k < |groups| ==> IsClass(lastWrites, groups[k]))
    && (forall x :: x in lastWrites ==> Grouped(groups, x))
    && (forall j, k :: 0 <= j < k < |groups| ==> groups[j] !! groups[k])
  }

  ghost predicate IsClass(lastWrites: VarMap, g: set<string>) {
    exists x :: x in lastWrites && g == SameWriters(lastWrites, x)
  }

  ghost predicate Grouped(groups: seq<set<string>>, x: string) {
    exists k :: 0 <= k < |groups| && x in groups[k]
  }

  // The same, while the variables in `rest` still wait for a group.
  ghost predicate PartitionsRest(lastWrites: VarMap, rest: VarMap, groups: seq<set<string>>) {
    && (forall x :: x in rest ==> x in lastWrites && rest[x] == lastWrites[x])
    && (forall k :: 0 <= k < |groups| ==> IsClass(lastWrites, groups[k]))
    && (forall x :: x in lastWrites ==> (x in rest <==> !Grouped(groups, x)))
    && (forall j, k :: 0 <= j < k < |groups| ==> groups[j] !! groups[k])
  }

  lemma PartitionStart(lastWrites: VarMap)
    ensures PartitionsRest(lastWrites, lastWrites, [])
  {
  }

  lemma PartitionDone(lastWrites: VarMap, groups: seq<set<string>>)
    requires PartitionsRest(lastWrites, map[], groups)
    ensures PartitionsByWriters(lastWrites, groups)
  {
  }

  lemma NoOutputEdges(lastWrites: VarMap, n: nat)
    ensures OutputEdges(lastWrites, [], n) == {}
  {
  }

  lemma ClassComplete(lastWrites: VarMap, rest: VarMap, groups: seq<set<string>>, x: string)
    requires PartitionsRest(lastWrites, rest, groups) && x in rest
    ensures x in lastWrites && rest[x] == lastWrites[x]
    ensures SameWriters(rest, x) == SameWriters(lastWrites, x)
  {
    assert forall y :: y in lastWrites && lastWrites[y] == lastWrites[x] ==> y in rest;
  }

  lemma GroupedStep(groups: seq<set<string>>, g: set<string>, y: string)
    ensures Grouped(groups + [g], y) <==> Grouped(groups, y) || y in g
  {
    if Grouped(groups, y) {
      var k :| 0 <= k < |groups| && y in groups[k];
      assert y in (groups + [g])[k];
    }
    if y in g {
      assert y in (groups + [g])[|groups|];
    }
  }

  lemma PartitionStep(lastWrites: VarMap, rest: VarMap, groups: seq<set<string>>, x: string)
    requires PartitionsRest(lastWrites, rest, groups) && x in rest
    ensures PartitionsRest(lastWrites, rest - SameWriters(rest, x), groups + [SameWriters(rest, x)])
  {
    var same := SameWriters(rest, x);
    var more := groups + [same];
    ClassComplete(lastWrites, rest, groups, x);
    assert IsClass(lastWrites, same);
    forall y | y in lastWrites ensures y in rest - same <==> !Grouped(more, y) {
      GroupedStep(groups, same, y);
    }
    forall j | 0 <= j < |groups| ensures groups[j] !! same {
      forall y | y in groups[j] ensures y !in same {
        assert Grouped(groups, y);
      }
    }
  }

  // The edges into the output vertices n, n + 1, ... of the groups.
  ghost function OutputEdges(lastWrites: VarMap, groups: seq<set<string>>, n: nat): set<Edge> {
    if groups == [] then {}
    else OutputEdges(lastWrites, groups[..|groups| - 1], n)
         + EdgesFrom(WritersOf(lastWrites, groups[|groups| - 1]), n + |groups| - 1)
  }

  function EdgesFrom(ws: set<Vertex>, v: Vertex): set<Edge> {
    set w | w in ws :: Edge(w, v, Data)
  }

  function WritersOf(lastWrites: VarMap, group: set<string>): set<Vertex> {
    set x, w | x in group && x in lastWrites && w in lastWrites[x] :: w
  }

  lemma WritersOfClass(lastWrites: VarMap, x: string)
    requires x in lastWrites
    ensures WritersOf(lastWrites, SameWriters(lastWrites, x)) == lastWrites[x]
  {
    assert x in SameWriters(lastWrites, x);
  }

  lemma UnionAssociates(a: set<Edge>, b: set<Edge>, c: set<Edge>)
    ensures a + (b + c) == a + b + c
  {
  }

  lemma OutputEdgesStep(lastWrites: VarMap, groups: seq<set<string>>, x: string, n: nat)
    requires x in lastWrites
    ensures OutputEdges(lastWrites, groups + [SameWriters(lastWrites, x)], n) ==
            OutputEdges(lastWrites, groups, n) + EdgesFrom(lastWrites[x], n + |groups|)
  {
    var more := groups + [SameWriters(lastWrites, x)];
    assert more[..|more| - 1] == groups;
    WritersOfClass(lastWrites, x);
  }

  // In-edges of an output vertex: exactly the last writers of its variables.
  lemma {:induction false} OutputEdgesExact(lastWrites: VarMap, groups: seq<set<string>>, n: nat, e: Edge)
    ensures e in OutputEdges(lastWrites, groups, n) <==>
            && e.kind == Data && n <= e.target < n + |groups|
            && exists x :: x in groups[e.target - n] && Recorded(lastWrites, x, e.source)
  {
    if groups != [] {
      var m := |groups| - 1;
      OutputEdgesExact(lastWrites, groups[..m], n, e);
      if n <= e.target < n + m {
        assert groups[..m][e.target - n] == groups[e.target - n];
      }
      assert e in EdgesFrom(WritersOf(lastWrites, groups[m]), n + m) <==>
        e.kind == Data && e.target == n + m && exists x :: x in groups[m] && Recorded(lastWrites, x, e.source);
    }
  }

  // Each of the output tasks writes its group.
  ghost predicate WriteGroups(outs: seq<Task>, groups: seq<set<string>>)
    reads outs
  {
    && |outs| == |groups| && Distinct(outs)
    && (forall k :: 0 <= k < |outs| ==> outs[k].Valid() && outs[k].AsNode() == Node(IoPopWrite, {}, groups[k]))
  }

  lemma WriteGroupsMeans(outs: seq<Task>, groups: seq<set<string>>)
    requires WriteGroups(outs, groups)
    ensures |outs| == |groups| && Distinct(outs) && forall t :: t in outs ==> t.Valid()
  {
  }

  lemma WriteGroupsStep(outs: seq<Task>, groups: seq<set<string>>, task: Task, g: set<string>)
    requires WriteGroups(outs, groups) && task !in outs
    requires task.Valid() && task.AsNode() == Node(IoPopWrite, {}, g)
    ensures WriteGroups(outs + [task], groups + [g])
  {
  }

  // The edge from the start task, at n, to the start of the graph.
  function StartEdges(ts: seq<Task>, startTask: Task?, n: Vertex): set<Edge> {
    set i | 0 <= i < |ts| && ts[i] == startTask :: Edge(n, i, Init)
  }

  // The edges from the end functions to the end task, at n.
  function EndEdges(ts: seq<Task>, endTasks: set<Task>, n: Vertex): set<Edge> {
    set i | 0 <= i < |ts| && ts[i] in endTasks :: Edge(i, n, Init)
  }

  lemma EndEdgesStep(ts: seq<Task>, some: set<Task>, u: Vertex, n: Vertex)
    requires Distinct(ts) && u < |ts|
    ensures EndEdges(ts, some + {ts[u]}, n) == EndEdges(ts, some, n) + {Edge(u, n, Init)}
  {
    forall e | e in EndEdges(ts, some + {ts[u]}, n) ensures e in EndEdges(ts, some, n) + {Edge(u, n, Init)} {
      var i :| 0 <= i < |ts| && ts[i] in some + {ts[u]} && e == Edge(i, n, Init);
      assert i == u || ts[i] in some;
    }
  }

  // The graph once the start task and the end task have been added.
  function WithEnds(nodes: seq<Node>, variables: set<string>): seq<Node> {
    nodes + [Node(StartAgent, {}, variables), Node(FinishAgent, {}, {})]
  }

  function WithEndEdges(es: set<Edge>, ts: seq<Task>, startTask: Task?, endTasks: set<Task>): set<Edge> {
    es + StartEdges(ts, startTask, |ts|) + EndEdges(ts, endTasks, |ts| + 1)
  }

  function WithoutStates(es: set<Edge>): set<Edge> {
    set e | e in es && e.kind != State
  }

  lemma RemovedInRange(es: set<Edge>, ts: seq<Task>)
    requires InRange(Pairs(es), |ts|)
    ensures InRange(Pairs(WithoutStates(es)), |ts|)
  {
    assert Pairs(WithoutStates(es)) <= Pairs(es);
  }

  // The end task writes nothing: what it carries is what reaches it.
  lemma EndFacts(endTask: Task, nodes: seq<Node>, E: Edges, end: Vertex)
    requires endTask.Carries(nodes, E, end) && end < |nodes| && nodes[end] == Node(FinishAgent, {}, {})
    requires endTask.taskType == FinishAgent
    ensures forall x, w :: Recorded(endTask.lastWrites, x, w) <==> LastWriterAt(nodes, E, w, end, x)
  {
  }

  lemma WithEndsStages(ts: seq<Task>, initTask: Task, endTasks: set<Task>, n: Vertex)
    requires initTask !in endTasks
    ensures EndEdges(ts + [initTask], endTasks, n) == EndEdges(ts, endTasks, n)
  {
    var us := ts + [initTask];
    forall e | e in EndEdges(us, endTasks, n) ensures e in EndEdges(ts, endTasks, n) {
      var i :| 0 <= i < |us| && us[i] in endTasks && e == Edge(i, n, Init);
      assert us[i] == ts[i];
    }
    forall e | e in EndEdges(ts, endTasks, n) ensures e in EndEdges(us, endTasks, n) {
      var i :| 0 <= i < |ts| && ts[i] in endTasks && e == Edge(i, n, Init);
      assert us[i] == ts[i];
    }
  }

  lemma WithEndsNodes(ts: seq<Task>, initTask: Task, endTask: Task, variables: set<string>)
    requires initTask.AsNode() == Node(StartAgent, {}, variables)
    requires endTask.AsNode() == Node(FinishAgent, {}, {})
    ensures NodesOf(ts + [initTask] + [endTask]) == WithEnds(NodesOf(ts), variables)
  {
  }

  ghost function WithDataEdges(nodes: seq<Node>, es: set<Edge>): set<Edge> {
    es + Labelled(DataEdges(nodes, Pairs(es)), Variable)
  }

  lemma PermutedDistinct(ts: seq<Task>, us: seq<Task>, to: seq<Vertex>)
    requires Distinct(ts) && |us| == |ts| == |to|
    requires forall i :: 0 <= i < |to| ==> to[i] < |us| && us[to[i]] == ts[i]
    requires forall v :: 0 <= v < |us| ==> v in to
    ensures Distinct(us) && forall t :: t in us ==> t in ts
  {
    forall a | 0 <= a < |us| ensures us[a] in ts && forall b :: a < b < |us| ==> us[a] != us[b] {
      assert a in to;
      var i :| 0 <= i < |to| && to[i] == a;
      forall b | a < b < |us| ensures us[a] != us[b] {
        assert b in to;
        var j :| 0 <= j < |to| && to[j] == b;
      }
    }
  }

  lemma WithEndsAcyclic(es: set<Edge>, ts: seq<Task>, startTask: Task?, endTasks: set<Task>)
    requires InRange(Pairs(es), |ts|) && Acyclic(Pairs(es))
    ensures Acyclic(Pairs(WithEndEdges(es, ts, startTask, endTasks)))
  {
    var F := Pairs(WithEndEdges(es, ts, startTask, endTasks));
    forall p | p in F
      ensures p in Pairs(es) || p.0 == |ts| || p.1 == |ts| + 1
      ensures p.1 != |ts| && p.0 != |ts| + 1
    {
      var e :| e in WithEndEdges(es, ts, startTask, endTasks) && p == (e.source, e.target);
      if e in es {
        assert p in Pairs(es);
      }
    }
    EndsAcyclic(Pairs(es), F, |ts|, |ts| + 1);
  }

  // --------------------------------------------------- the order of two tasks

  function Messages(nodes: seq<Node>): set<Vertex> {
    set v | 0 <= v < |nodes| && nodes[v].kind.XMessage?
  }

  // In the state graph: v comes later than u in some run of the agent.
  ghost predicate RunsBefore(nodes: seq<Node>, es: set<Edge>, u: Vertex, v: Vertex) {
    Reaches(Avoiding(Pairs(es), Messages(nodes)), u, v)
  }

  predicate Runs(kind: TaskType) {
    kind.XFunction? || kind.XCondition?
  }

  // What follows a message directly is a task that runs.
  ghost predicate MessagesLeadToRuns(nodes: seq<Node>, E: Edges) {
    forall e :: e in E && e.0 < |nodes| && e.1 < |nodes| && nodes[e.0].kind.XMessage? ==> Runs(nodes[e.1].kind)
  }

  ghost predicate StateGraphKinds(nodes: seq<Node>) {
    forall v :: 0 <= v < |nodes| ==>
      Runs(nodes[v].kind) || nodes[v].kind.XState? || nodes[v].kind.XMessage?
  }

  lemma {:induction false} NodesOfKept(ts: seq<Task>, del: set<Vertex>)
    ensures NodesOf(Kept(ts, del)) == Kept(NodesOf(ts), del)
  {
    if ts != [] {
      NodesOfKept(ts[..|ts| - 1], del);
      assert NodesOf(ts)[..|ts| - 1] == NodesOf(ts[..|ts| - 1]);
    }
  }

  // An edge between survivors, off the messages, becomes a flow edge.
  lemma EdgeFlows(nodes: seq<Node>, es: set<Edge>, cs: seq<Vertex>, e: (Vertex, Vertex), nodes': seq<Node>, es': set<Edge>)
    requires StateGraphKinds(nodes) && InRange(Pairs(es), |nodes|) && cs == IndicesOf(nodes, XState)
    requires Kept(nodes, Elements(cs)) <= nodes' && Contracted(es, cs, State) <= es'
    requires e in Avoiding(Avoiding(BypassAll(Pairs(es), cs), Messages(nodes)), Elements(cs))
    ensures (Rank(Elements(cs), e.0), Rank(Elements(cs), e.1)) in FlowEdges(nodes', Pairs(es'))
  {
    var del := Elements(cs);
    IndicesAscending(nodes, XState);
    KeptAt(nodes, del);
    BypassedInRange(es, cs, |nodes|, e);
    hide Pairs, Contracted, Kept, BypassAll, IndicesOf, Rank;
    ContractedHas(es, cs, e, es');
    assert nodes'[Rank(del, e.0)] == nodes[e.0] && nodes'[Rank(del, e.1)] == nodes[e.1];
  }

  lemma BypassedInRange(es: set<Edge>, cs: seq<Vertex>, n: nat, e: (Vertex, Vertex))
    requires InRange(Pairs(es), n) && e in BypassAll(Pairs(es), cs)
    ensures e.0 < n && e.1 < n
  {
    PairsWithBypasses(es, cs, State);
    BypassesInRange(es, cs, State, n);
  }

  // Away from the contracted vertices, what is bypassed is found renumbered.
  lemma ContractedHas(es: set<Edge>, cs: seq<Vertex>, e: (Vertex, Vertex), es': set<Edge>)
    requires e in Avoiding(BypassAll(Pairs(es), cs), Elements(cs)) && Contracted(es, cs, State) <= es'
    ensures (Rank(Elements(cs), e.0), Rank(Elements(cs), e.1)) in Pairs(es')
  {
    var del, all := Elements(cs), WithBypasses(es, cs, State);
    PairsWithBypasses(es, cs, State);
    assert e in Pairs(all);
    hide BypassAll, WithBypasses, Rank;
    var d :| d in all && e == (d.source, d.target);
    assert Moved(del, d) in Contracted(es, cs, State);
    PairsOf(es', Moved(del, d));
  }

  // An order of the state graph is an order of the contracted graph's flow.
  lemma OrderContracts(nodes: seq<Node>, es: set<Edge>, u: Vertex, v: Vertex, nodes': seq<Node>, es': set<Edge>)
    requires StateGraphKinds(nodes) && InRange(Pairs(es), |nodes|)
    requires u < |nodes| && v < |nodes| && Runs(nodes[u].kind) && Runs(nodes[v].kind)
    requires RunsBefore(nodes, es, u, v)
    requires Kept(nodes, Elements(IndicesOf(nodes, XState))) <= nodes'
    requires Contracted(es, IndicesOf(nodes, XState), State) <= es'
    ensures ghost var del := Elements(IndicesOf(nodes, XState));
            Before(nodes', Pairs(es'), Rank(del, u), Rank(del, v))
  {
    hide FlowEdges, Pairs, Contracted, Kept, Rank, IsPath, Bypass, BypassAll, Reaches, StateGraphKinds;
    var cs, M := IndicesOf(nodes, XState), Messages(nodes);
    var del := Elements(cs);
    var f: Vertex -> Vertex := i => Rank(del, i);
    IndicesAscending(nodes, XState);
    ContractionExact(Avoiding(Pairs(es), M), cs, u, v);
    AvoidingBypassAll(Pairs(es), cs, M);
    var H := Avoiding(Avoiding(BypassAll(Pairs(es), cs), M), del);
    ImageReaches(H, f, u, v);
    forall p | p in Image(H, f) ensures p in FlowEdges(nodes', Pairs(es')) {
      var e :| e in H && p == (f(e.0), f(e.1));
      EdgeFlows(nodes, es, cs, e, nodes', es');
    }
    Monotone(Image(H, f), FlowEdges(nodes', Pairs(es')), f(u), f(v));
  }

  // ------------------------------------------------- one compilation, in stages

  /** The graph of an agent at the stages of its compilation: the state graph with
      its conditions (0), the contracted graph with start and end task (3), and the
      graph with its data edges and output tasks, without the end task (6). */
  datatype Compilation = Compilation(
    variables: set<string>, startTask: Task?, endTasks: set<Task>,
    ts0: seq<Task>, nodes0: seq<Node>, es0: set<Edge>,
    ts3: seq<Task>, nodes3: seq<Node>, es3: set<Edge>,
    lastWrites: VarMap, outs: seq<Task>, groups: seq<set<string>>,
    ts6: seq<Task>, es6: set<Edge>)
  {
    function States(): seq<Vertex> { IndicesOf(nodes0, XState) }
    function Gone(): set<Vertex> { Elements(States()) }
    function End(): Vertex { if ts3 == [] then 0 else |ts3| - 1 }

    // Where a task of stage 0 is at stage 3, and a task of stage 3 at stage 6.
    function At3(v: Vertex): Vertex { Rank(Gone(), v) }
    function At6(v: Vertex): Vertex { Shift(End(), v) }

    ghost predicate StartsWell() {
      && |ts0| == |nodes0| && Distinct(ts0) && StateGraphKinds(nodes0)
      && InRange(Pairs(es0), |nodes0|) && Acyclic(Pairs(es0)) && MessagesLeadToRuns(nodes0, Pairs(es0))
      && (forall v :: 0 <= v < |nodes0| && Runs(nodes0[v].kind) ==> nodes0[v].writeVars <= nodes0[v].readVars)
      && (forall t :: t in endTasks ==> exists v :: 0 <= v < |ts0| && ts0[v] == t && Runs(nodes0[v].kind))
    }

    ghost predicate Contracts() {
      var ts2 := Kept(ts0, Gone());
      && |ts3| == |ts2| + 2 && ts3[..|ts2|] == ts2
      && nodes3 == WithEnds(Kept(nodes0, Gone()), variables)
      && es3 == WithEndEdges(Contracted(es0, States(), State), ts2, startTask, endTasks)
    }

    ghost predicate Outputs() {
      var all := ts3 + outs;
      && (forall x, w :: Recorded(lastWrites, x, w) <==> LastWriterAt(nodes3, Pairs(es3), w, End(), x))
      && |outs| == |groups| && PartitionsByWriters(lastWrites, groups) && |ts3| > 0
      && ts6 == all[..End()] + all[End() + 1..]
      && es6 == WithoutVertex(WithoutStates(WithDataEdges(nodes3, es3)) + OutputEdges(lastWrites, groups, |ts3|), End())
    }

    ghost predicate Valid() {
      StartsWell() && Contracts() && Outputs()
    }
  }

  lemma StageSizes(c: Compilation)
    requires c.StartsWell() && c.Contracts()
    ensures |c.nodes3| == |c.ts3| && c.End() == |c.ts3| - 1
    ensures InRange(Pairs(c.es3), |c.ts3|) && Acyclic(Pairs(c.es3))
    ensures forall v :: 0 <= v < |c.ts0| && v !in c.Gone() ==>
              c.At3(v) < c.End() - 1 && c.ts3[c.At3(v)] == c.ts0[v] && c.nodes3[c.At3(v)] == c.nodes0[v]
  {
    hide Pairs, WithEndEdges, Contracted, Acyclic, IndicesOf;
    var es2, ts2 := Contracted(c.es0, c.States(), State), Kept(c.ts0, c.Gone());
    IndicesAscending(c.nodes0, XState);
    KeptAt(c.ts0, c.Gone());
    KeptAt(c.nodes0, c.Gone());
    ContractedValid(c.ts0, c.es0, c.States(), State);
    WithEndsAcyclic(es2, ts2, c.startTask, c.endTasks);
    WithEndsInRange(es2, ts2, c.startTask, c.endTasks);
    forall v | 0 <= v < |c.ts0| && v !in c.Gone()
      ensures c.At3(v) < c.End() - 1 && c.ts3[c.At3(v)] == c.ts0[v] && c.nodes3[c.At3(v)] == c.nodes0[v]
    {
      assert c.ts3[c.At3(v)] == ts2[c.At3(v)];
    }
  }

  lemma WithEndsInRange(es: set<Edge>, ts: seq<Task>, startTask: Task?, endTasks: set<Task>)
    requires InRange(Pairs(es), |ts|)
    ensures InRange(Pairs(WithEndEdges(es, ts, startTask, endTasks)), |ts| + 2)
    ensures forall p :: p in Pairs(WithEndEdges(es, ts, startTask, endTasks)) ==> p.1 != |ts|
  {
    forall p | p in Pairs(WithEndEdges(es, ts, startTask, endTasks))
      ensures p.0 < |ts| + 2 && p.1 < |ts| + 2 && p.1 != |ts|
    {
      var e :| e in WithEndEdges(es, ts, startTask, endTasks) && p == (e.source, e.target);
      if e in es {
        assert p in Pairs(es);
      }
    }
  }

  // The analysed graph is well formed.
  lemma StageWellFormed(c: Compilation)
    requires c.StartsWell() && c.Contracts()
    ensures WellFormed(c.nodes3, Pairs(c.es3))
  {
    hide Pairs, Kept, Contracted, WithEnds, WithEndEdges, Acyclic, InRange, Rank;
    StageSizes(c);
    OldOnesFirst(c);
    forall e | e in FlowEdges(c.nodes3, Pairs(c.es3)) ensures c.nodes3[e.1].writeVars <= c.nodes3[e.1].readVars {
      if e.1 < |c.ts3| - 2 {
        var i := RankOnto(c.Gone(), |c.nodes0|, e.1);
        assert c.nodes3[c.At3(i)] == c.nodes0[i];
      }
    }
  }

  // What is left of the state graph comes first, then the start and the end.
  lemma OldOnesFirst(c: Compilation)
    requires c.StartsWell() && c.Contracts()
    ensures |c.ts0| == |c.nodes0| && |c.ts3| == Rank(c.Gone(), |c.nodes0|) + 2 && |c.nodes3| == |c.ts3|
    ensures c.nodes3[|c.ts3| - 1].writeVars == {} && forall p :: p in Pairs(c.es3) ==> p.1 != |c.ts3| - 2
    ensures forall v :: 0 <= v < |c.nodes0| && Runs(c.nodes0[v].kind) ==> c.nodes0[v].writeVars <= c.nodes0[v].readVars
  {
    hide Pairs, Contracted, Acyclic, Rank, WithEndEdges, Kept;
    IndicesAscending(c.nodes0, XState);
    KeptAt(c.nodes0, c.Gone());
    KeptAt(c.ts0, c.Gone());
    ContractedValid(c.ts0, c.es0, c.States(), State);
    WithEndsInRange(Contracted(c.es0, c.States(), State), Kept(c.ts0, c.Gone()), c.startTask, c.endTasks);
  }

  // Orders given by edges that avoid the end task outlive it.
  lemma EndDropped(c: Compilation, K: Edges, u: Vertex, v: Vertex)
    requires c.Valid() && Reaches(K, u, v)
    requires K <= Pairs(Unstated6(c)) && u != c.End() && v != c.End()
    requires forall e :: e in K ==> e.0 != c.End() && e.1 != c.End()
    requires u < |c.ts3| + |c.outs| && v < |c.ts3| + |c.outs|
    ensures Reaches(Pairs(c.es6), c.At6(u), c.At6(v))
    ensures c.At6(u) < |c.ts6| && c.ts6[c.At6(u)] == (c.ts3 + c.outs)[u]
    ensures c.At6(v) < |c.ts6| && c.ts6[c.At6(v)] == (c.ts3 + c.outs)[v]
  {
    hide Pairs, IsPath, Reaches, WithEndEdges, WithDataEdges, OutputEdges, Contracted, Kept, StateGraphKinds, Distinct;
    hide WithoutVertex, Renumbered, PartitionsByWriters, WithEnds, LastWriterAt, Recorded;
    StageSizes(c);
    Unstated6InRange(c);
    var E := Pairs(Unstated6(c));
    assert K <= Avoiding(E, {c.End()});
    Monotone(K, Avoiding(E, {c.End()}), u, v);
    RenumberedReaches(Unstated6(c), {c.End()}, |c.ts3| + |c.outs|, u, v);
    ShiftIsRank(c.End(), u);
    ShiftIsRank(c.End(), v);
    WithoutVertexIsRenumbered(Unstated6(c), c.End());
  }

  // The edges of stage 6 before the end task goes.
  ghost function Unstated6(c: Compilation): set<Edge> {
    WithoutStates(WithDataEdges(c.nodes3, c.es3)) + OutputEdges(c.lastWrites, c.groups, |c.ts3|)
  }

  lemma Unstated6Edge(c: Compilation, e: Edge)
    requires c.Valid() && e in Unstated6(c)
    ensures || (e.source, e.target) in Pairs(c.es3) + DataEdges(c.nodes3, Pairs(c.es3))
            || (e.source < |c.ts3| <= e.target < |c.ts3| + |c.outs|)
  {
    hide PartitionsByWriters, WithEndEdges, WithoutVertex, DataDependency;
    OutputEdgesExact(c.lastWrites, c.groups, |c.ts3|, e);
    if e in OutputEdges(c.lastWrites, c.groups, |c.ts3|) {
      var x :| x in c.groups[e.target - |c.ts3|] && Recorded(c.lastWrites, x, e.source);
      assert LastWriterAt(c.nodes3, Pairs(c.es3), e.source, c.End(), x);
      StageSizes(c);
    } else {
      assert e in WithDataEdges(c.nodes3, c.es3);
    }
  }

  lemma Unstated6InRange(c: Compilation)
    requires c.Valid()
    ensures InRange(Pairs(Unstated6(c)), |c.ts3| + |c.outs|)
  {
    StageSizes(c);
    forall p | p in Pairs(Unstated6(c)) ensures p.0 < |c.ts3| + |c.outs| && p.1 < |c.ts3| + |c.outs| {
      var e :| e in Unstated6(c) && p == (e.source, e.target);
      Unstated6Edge(c, e);
    }
  }

  lemma DataEdgeStays(c: Compilation, e: (Vertex, Vertex))
    requires e in DataEdges(c.nodes3, Pairs(c.es3))
    ensures e in Pairs(Unstated6(c))
    ensures forall v :: 0 <= v < |c.nodes3| && c.nodes3[v].readVars == c.nodes3[v].writeVars == {} ==>
              e.0 != v && e.1 != v
  {
    var d := Edge(e.0, e.1, Variable);
    assert d in Labelled(DataEdges(c.nodes3, Pairs(c.es3)), Variable);
    PairsOf(Unstated6(c), d);
  }

  // No data edge touches the end task, which accesses nothing.
  lemma DataEdgesAvoidEnd(c: Compilation)
    requires c.Valid()
    ensures DataEdges(c.nodes3, Pairs(c.es3)) <= Pairs(Unstated6(c))
    ensures forall e :: e in DataEdges(c.nodes3, Pairs(c.es3)) ==> e.0 != c.End() && e.1 != c.End()
  {
    StageSizes(c);
    assert c.nodes3[c.End()] == Node(FinishAgent, {}, {});
    forall e | e in DataEdges(c.nodes3, Pairs(c.es3))
      ensures e in Pairs(Unstated6(c)) && e.0 != c.End() && e.1 != c.End()
    {
      DataEdgeStays(c, e);
    }
  }

  // The main result for one agent: throwing the program order away orders no
  // two conflicting accesses differently.
  lemma ConflictsStayOrdered(c: Compilation, u: Vertex, v: Vertex)
    requires c.Valid() && u < |c.ts0| && v < |c.ts0|
    requires Runs(c.nodes0[u].kind) && Runs(c.nodes0[v].kind)
    requires RunsBefore(c.nodes0, c.es0, u, v) && Conflict(c.nodes0, u, v)
    ensures Ordered(c.ts6, Pairs(c.es6), c.ts0[u], c.ts0[v])
    ensures Reaches(Pairs(c.es6), c.At6(c.At3(u)), c.At6(c.At3(v)))
  {
    StagesWell(c, u);
    StagesWell(c, v);
    BeforeAtThree(c, u, v);
    ConflictAtThree(c, u, v);
    StageWellFormed(c);
    DataEdgesAvoidEnd(c);
    hide *;
    OrderKept(c.nodes3, Pairs(c.es3), c.At3(u), c.At3(v));
    EndDropped(c, DataEdges(c.nodes3, Pairs(c.es3)), c.At3(u), c.At3(v));
    OrderedBy(c.ts6, Pairs(c.es6), c.At6(c.At3(u)), c.At6(c.At3(v)));
  }

  lemma StagesWell(c: Compilation, u: Vertex)
    requires c.Valid() && u < |c.ts0| == |c.nodes0| && Runs(c.nodes0[u].kind)
    ensures c.StartsWell() && c.Contracts() && |c.nodes3| == |c.ts3| && u !in c.Gone()
    ensures c.At3(u) < c.End() < |c.ts3| && c.nodes3[c.At3(u)] == c.nodes0[u]
    ensures c.ts3[c.At3(u)] == c.ts0[u] && (c.ts3 + c.outs)[c.At3(u)] == c.ts0[u]
  {
    hide Compilation.StartsWell, Compilation.Contracts, Compilation.Outputs;
    IndicesAscending(c.nodes0, XState);
    assert |c.ts0| == |c.nodes0|;
    StageSizes(c);
    hide Elements, IndicesOf, Rank;
  }

  lemma BeforeAtThree(c: Compilation, u: Vertex, v: Vertex)
    requires c.StartsWell() && c.Contracts() && u < |c.nodes0| && v < |c.nodes0|
    requires Runs(c.nodes0[u].kind) && Runs(c.nodes0[v].kind) && RunsBefore(c.nodes0, c.es0, u, v)
    ensures Before(c.nodes3, Pairs(c.es3), c.At3(u), c.At3(v))
  {
    hide RunsBefore, Before, Contracted, Kept, Pairs, Acyclic, MessagesLeadToRuns, StateGraphKinds, InRange, Distinct, Rank;
    OrderContracts(c.nodes0, c.es0, u, v, c.nodes3, c.es3);
  }

  lemma ConflictAtThree(c: Compilation, u: Vertex, v: Vertex)
    requires u < |c.nodes0| && v < |c.nodes0| && Conflict(c.nodes0, u, v)
    requires c.At3(u) < |c.nodes3| && c.nodes3[c.At3(u)] == c.nodes0[u]
    requires c.At3(v) < |c.nodes3| && c.nodes3[c.At3(v)] == c.nodes0[v]
    ensures Conflict(c.nodes3, c.At3(u), c.At3(v))
  {
    hide Rank, Elements, IndicesOf;
    var x :| ConflictOn(c.nodes0, u, v, x);
    assert ConflictOn(c.nodes3, c.At3(u), c.At3(v), x);
  }

  // The compiled graph can be executed: it has no cycle.
  lemma CompiledAcyclic(c: Compilation)
    requires c.Valid()
    ensures Acyclic(Pairs(c.es6)) && InRange(Pairs(c.es6), |c.ts6|)
  {
    var E, F, n := Pairs(c.es3), Pairs(Unstated6(c)), |c.ts3| + |c.outs|;
    StageSizes(c);
    DataEdgesKeepAcyclic(c.nodes3, E);
    Unstated6InRange(c);
    forall p | p in F
      ensures p in E + DataEdges(c.nodes3, E) || p.0 < |c.ts3| <= p.1
      ensures p.0 < |c.ts3|
    {
      var e :| e in Unstated6(c) && p == (e.source, e.target);
      Unstated6Edge(c, e);
    }
    SinksAcyclic(E + DataEdges(c.nodes3, E), F, |c.ts3|);
    WithoutVertexAcyclic(Unstated6(c), c.End(), n);
  }

  lemma WithoutVertexAcyclic(es: set<Edge>, v: Vertex, n: nat)
    requires InRange(Pairs(es), n) && Acyclic(Pairs(es)) && v < n
    ensures Acyclic(Pairs(WithoutVertex(es, v))) && InRange(Pairs(WithoutVertex(es, v)), n - 1)
  {
    WithoutVertexIsRenumbered(es, v);
    RenumberedInRange(es, {v}, n);
    RankIdentity({}, n);
    RankExtend({}, v, n);
    assert {} + {v} == {v};
    var E := Pairs(Renumbered(es, {v}));
    forall k: Vertex ensures !Reaches(E, k, k) {
      if Reaches(E, k, k) {
        ReachesInRange(E, n - 1, k, k);
        var i := RankOnto({v}, n, k);
        RenumberedReaches(es, {v}, n, i, i);
        Monotone(Avoiding(Pairs(es), {v}), Pairs(es), i, i);
      }
    }
  }

  // Edges to and from messages are kept as they are.
  lemma MessageEdgesStay(c: Compilation, e: Edge)
    requires c.Valid() && e in c.es0 && e.kind != State
    requires e.source < |c.ts0| && e.target < |c.ts0|
    requires !c.nodes0[e.source].kind.XState? && !c.nodes0[e.target].kind.XState?
    ensures Ordered(c.ts6, Pairs(c.es6), c.ts0[e.source], c.ts0[e.target])
  {
    hide Compilation.StartsWell, Compilation.Contracts, Compilation.Outputs, Pairs, Unstated6, Reaches;
    SizesAgree(c);
    EdgeContractedAway(c, e);
    var u, v := c.At3(e.source), c.At3(e.target);
    var K := {(u, v)};
    EdgeReaches(K, u, v);
    PairsOf(Unstated6(c), Edge(u, v, e.kind));
    EndDropped(c, K, u, v);
  }

  lemma SizesAgree(c: Compilation)
    requires c.StartsWell()
    ensures |c.ts0| == |c.nodes0|
  {
    hide StateGraphKinds, Distinct, InRange, Acyclic, Pairs, MessagesLeadToRuns;
  }

  // The edge before the outputs are added, and the tasks it joins.
  lemma EdgeContractedAway(c: Compilation, e: Edge)
    requires c.StartsWell() && c.Contracts()
    requires e in c.es0 && e.kind != State && e.source < |c.ts0| && e.target < |c.ts0|
    requires |c.nodes0| == |c.ts0| && !c.nodes0[e.source].kind.XState? && !c.nodes0[e.target].kind.XState?
    ensures ghost var u, v, all := c.At3(e.source), c.At3(e.target), c.ts3 + c.outs;
            && Edge(u, v, e.kind) in Unstated6(c) && u != c.End() && v != c.End()
            && u < |c.ts3| && v < |c.ts3| && all[u] == c.ts0[e.source] && all[v] == c.ts0[e.target]
  {
    hide Pairs, IndicesOf, Rank, WithBypasses, Kept, OutputEdges, DataEdges, Acyclic, WithEnds, StartEdges, EndEdges;
    StageSizes(c);
    IndicesAscending(c.nodes0, XState);
    BypassesOnlyAdd(c.es0, c.States(), State);
    assert Moved(c.Gone(), e) in Contracted(c.es0, c.States(), State);
  }

  // The task at u, or one that runs after it, ends a run of the agent.
  ghost predicate CanEnd(c: Compilation, u: Vertex) {
    exists g :: 0 <= g < |c.ts0| && c.ts0[g] in c.endTasks
                && (g == u || RunsBefore(c.nodes0, c.es0, u, g))
  }

  lemma EndEdgePresent(es: set<Edge>, ts: seq<Task>, startTask: Task?, endTasks: set<Task>, i: Vertex)
    requires i < |ts| && ts[i] in endTasks
    ensures (i, |ts| + 1) in Pairs(WithEndEdges(es, ts, startTask, endTasks))
  {
    var e := Edge(i, |ts| + 1, Init);
    assert e in EndEdges(ts, endTasks, |ts| + 1);
    PairsOf(WithEndEdges(es, ts, startTask, endTasks), e);
  }

  lemma EndTaskRuns(c: Compilation, g: Vertex)
    requires c.StartsWell() && g < |c.ts0| && c.ts0[g] in c.endTasks
    ensures Runs(c.nodes0[g].kind) && g !in c.Gone()
  {
    hide Pairs, InRange, Acyclic;
    var v :| 0 <= v < |c.ts0| && c.ts0[v] == c.ts0[g] && Runs(c.nodes0[v].kind);
    assert v == g;
    IndicesAscending(c.nodes0, XState);
  }

  lemma EndEdgeFlows(c: Compilation, g: Vertex)
    requires c.Valid() && g < |c.ts0| && c.ts0[g] in c.endTasks
    ensures Runs(c.nodes0[g].kind)
    ensures (c.At3(g), c.End()) in FlowEdges(c.nodes3, Pairs(c.es3))
  {
    EndTaskRuns(c, g);
    hide Contracted, Pairs, WithEndEdges, Elements, IndicesOf;
    StageSizes(c);
    var ts2 := Kept(c.ts0, c.Gone());
    KeptAt(c.ts0, c.Gone());
    EndEdgePresent(Contracted(c.es0, c.States(), State), ts2, c.startTask, c.endTasks, c.At3(g));
  }

  lemma PairsOf(es: set<Edge>, e: Edge)
    requires e in es
    ensures (e.source, e.target) in Pairs(es)
  {
  }

  lemma EndReached(c: Compilation, u: Vertex)
    requires c.Valid() && u < |c.ts0| && Runs(c.nodes0[u].kind) && CanEnd(c, u)
    ensures Before(c.nodes3, Pairs(c.es3), c.At3(u), c.End())
  {
    hide FlowEdges, Pairs, Contracted, PartitionsByWriters, WithoutVertex, OutputEdges, Distinct;
    var F := FlowEdges(c.nodes3, Pairs(c.es3));
    var g :| 0 <= g < |c.ts0| && c.ts0[g] in c.endTasks && (g == u || RunsBefore(c.nodes0, c.es0, u, g));
    EndEdgeFlows(c, g);
    EdgeReaches(F, c.At3(g), c.End());
    if g != u {
      StageSizes(c);
      OrderContracts(c.nodes0, c.es0, u, g, c.nodes3, c.es3);
      Transitive(F, c.At3(u), c.At3(g), c.End());
    }
  }

  // A last writer of a variable has an edge to the task that outputs it.
  lemma OutputOfWriter(c: Compilation, w: Vertex, x: string) returns (k: nat)
    requires c.Outputs() && LastWriterAt(c.nodes3, Pairs(c.es3), w, c.End(), x)
    ensures k < |c.outs| && x in c.groups[k]
    ensures (w, |c.ts3| + k) in Pairs(Unstated6(c))
  {
    hide LastWriterAt, WithoutVertex, WithDataEdges, OutputEdges, Unstated6, Pairs;
    assert Recorded(c.lastWrites, x, w);
    assert Grouped(c.groups, x);
    k :| 0 <= k < |c.groups| && x in c.groups[k];
    OutputEdgeIn(c, Edge(w, |c.ts3| + k, Data), x);
  }

  lemma EndWritesNothing(c: Compilation, w: Vertex, v: Vertex, x: string)
    requires c.StartsWell() && c.Contracts() && LastWriterAt(c.nodes3, Pairs(c.es3), w, v, x)
    ensures w != c.End()
  {
    StageSizes(c);
    assert Writes(c.nodes3, w, x) && !Writes(c.nodes3, c.End(), x);
  }

  lemma OutputEdgeIn(c: Compilation, e: Edge, x: string)
    requires e.kind == Data && |c.ts3| <= e.target < |c.ts3| + |c.groups|
    requires x in c.groups[e.target - |c.ts3|] && Recorded(c.lastWrites, x, e.source)
    ensures (e.source, e.target) in Pairs(Unstated6(c))
  {
    OutputEdgesExact(c.lastWrites, c.groups, |c.ts3|, e);
    PairsOf(Unstated6(c), e);
  }

  lemma OrderedByLastWriter(c: Compilation, i: Vertex, w: Vertex, k: nat)
    requires c.Valid() && i < c.End() < |c.ts3| && k < |c.outs| && w != c.End()
    requires w == i || Reaches(DataEdges(c.nodes3, Pairs(c.es3)), i, w)
    requires (w, |c.ts3| + k) in Pairs(Unstated6(c))
    ensures Ordered(c.ts6, Pairs(c.es6), c.ts3[i], c.outs[k])
  {
    hide *;
    DataEdgesAvoidEnd(c);
    var D, o := DataEdges(c.nodes3, Pairs(c.es3)), |c.ts3| + k;
    var K := D + {(w, o)};
    assert forall e :: e in K ==> e.0 != c.End() && e.1 != c.End();
    EdgeReaches(K, w, o);
    if w != i {
      Monotone(D, K, i, w);
      Transitive(K, i, w, o);
    }
    EndDropped(c, K, i, o);
    OrderedBy(c.ts6, Pairs(c.es6), c.At6(i), c.At6(o));
  }

  lemma OrderedBy(ts: seq<Task>, E: Edges, i: Vertex, j: Vertex)
    requires i < |ts| && j < |ts| && Reaches(E, i, j)
    ensures Ordered(ts, E, ts[i], ts[j])
  {
  }

  // Every task that writes a variable, and from which the agent can end, is
  // finished before the task that outputs the variable.
  lemma OutputFollowsWriters(c: Compilation, u: Vertex, x: string) returns (k: nat)
    requires c.Valid() && u < |c.ts0| && Runs(c.nodes0[u].kind) && CanEnd(c, u)
    requires x in c.nodes0[u].writeVars
    ensures k < |c.outs| && x in c.groups[k]
    ensures Ordered(c.ts6, Pairs(c.es6), c.ts0[u], c.outs[k])
  {
    IndicesAscending(c.nodes0, XState);
    StageSizes(c);
    StageWellFormed(c);
    EndReached(c, u);
    assert Writes(c.nodes3, c.At3(u), x);
    hide *;
    var w := LastWriterCovers(c.nodes3, Pairs(c.es3), c.At3(u), c.End(), x);
    k := OutputOfWriter(c, w, x);
    EndWritesNothing(c, w, c.End(), x);
    OrderedByLastWriter(c, c.At3(u), w, k);
  }

  // Each variable is in exactly one group, and shares it with exactly those
  // written last by the same tasks.
  lemma PartitionMeaning(lastWrites: VarMap, groups: seq<set<string>>, x: string, y: string, k: nat)
    requires PartitionsByWriters(lastWrites, groups)
    requires x in lastWrites && y in lastWrites && k < |groups| && x in groups[k]
    ensures y in groups[k] <==> lastWrites[x] == lastWrites[y]
    ensures forall j :: 0 <= j < |groups| && x in groups[j] ==> j == k
  {
    assert IsClass(lastWrites, groups[k]);
    forall j | 0 <= j < |groups| && x in groups[j] ensures j == k {
      assert !(j < k) && !(k < j);
    }
  }

  // Renumbering by the transitive reduction keeps the order of tasks.
  lemma ReducedOrdered(ts: seq<Task>, E: Edges, to: seq<Vertex>, R: Edges, ts': seq<Task>, a: Task, b: Task)
    requires IsTransitiveReduction(|ts|, E, to, R) && |ts'| == |ts|
    requires forall i :: 0 <= i < |ts| ==> ts'[to[i]] == ts[i]
    requires Ordered(ts, E, a, b)
    ensures Ordered(ts', R, a, b)
  {
    var i, j :| 0 <= i < |ts| && 0 <= j < |ts| && ts[i] == a && ts[j] == b && Reaches(E, i, j);
    assert ts'[to[i]] == a && ts'[to[j]] == b;
    assert Reaches(R, to[i], to[j]);
  }

  lemma ReducedAcyclic(n: nat, E: Edges, to: seq<Vertex>, R: Edges)
    requires IsTransitiveReduction(n, E, to, R) && Acyclic(E)
    ensures Acyclic(R) && InRange(R, n)
  {
    forall p | p in R ensures p.0 < n && p.1 < n {
      var e :| e in E && e.0 < n && e.1 < n && p == (to[e.0], to[e.1]);
    }
    forall v: Vertex ensures !Reaches(R, v, v) {
      if v < n {
        assert v in to;
        var i :| 0 <= i < n && to[i] == v;
        assert Reaches(R, to[i], to[i]) <==> Reaches(E, i, i);
      } else if Reaches(R, v, v) {
        ReachesInRange(R, n, v, v);
      }
    }
  }

  // ------------------------------------------------------ how a run starts out

  // A state graph leads from states to functions and back; communication joins
  // functions and messages.
  ghost predicate IsStateGraph(nodes: seq<Node>, es: set<Edge>) {
    && (forall v :: 0 <= v < |nodes| ==> nodes[v].kind.XFunction? || nodes[v].kind.XState? || nodes[v].kind.XMessage?)
    && InRange(Pairs(es), |nodes|) && Acyclic(Pairs(es))
    && (forall e :: e in es ==> e.source < |nodes| && e.target < |nodes|)
    && (forall e :: e in es && nodes[e.source].kind.XState? ==> nodes[e.target].kind.XFunction?)
    && (forall e :: e in es && nodes[e.source].kind.XMessage? ==> nodes[e.target].kind.XFunction?)
  }

  lemma TransformKeepsKinds(nodes: seq<Node>, es: set<Edge>, variables: set<string>)
    requires IsStateGraph(nodes, es)
    ensures StateGraphKinds(AfterTransform(nodes, es, variables))
    ensures forall v :: 0 <= v < |nodes| && !nodes[v].kind.XState? ==>
              AfterTransform(nodes, es, variables)[v] == nodes[v]
  {
  }

  // The start has moved on from a start state that is contracted, and else is where it was.
  ghost predicate StartMoved(ts: seq<Task>, nodes: seq<Node>, es: set<Edge>, start: Vertex, startTask: Task?) {
    && start < |ts| == |nodes|
    && if nodes[start].kind != XState then startTask == ts[start]
       else exists e :: e in OutEdges(es, start) && e.target < |ts| && startTask == ts[e.target]
  }

  // The start task of the contracted graph: the start state itself if it became
  // a condition, else the function behind it.
  lemma StartSurvives(ts: seq<Task>, nodes0: seq<Node>, es: set<Edge>, variables: set<string>, start: Vertex, startTask: Task?)
    requires |ts| == |nodes0| && IsStateGraph(nodes0, es)
    requires start < |ts| && OutEdges(es, start) != {} && nodes0[start].kind.XState?
    requires StartMoved(ts, AfterTransform(nodes0, es, variables), es, start, startTask)
    ensures startTask in Kept(ts, Elements(IndicesOf(AfterTransform(nodes0, es, variables), XState)))
  {
    var nodes := AfterTransform(nodes0, es, variables);
    IndicesAscending(nodes, XState);
    KeptAt(ts, Elements(IndicesOf(nodes, XState)));
    if nodes[start].kind == XState {
      var e :| e in OutEdges(es, start) && e.target < |ts| && startTask == ts[e.target];
      assert nodes0[e.source].kind.XState?;
      assert e.target !in Elements(IndicesOf(nodes, XState));
    }
  }

  // ts without its entry at i
  function Without(ts: seq<Task>, i: Vertex): seq<Task>
    requires i < |ts|
  {
    ts[..i] + ts[i + 1..]
  }

  ghost predicate AllValid(ts: seq<Task>)
    reads ts
  {
    Distinct(ts) && forall t :: t in ts ==> t.Valid()
  }

  lemma JoinedValid(ts: seq<Task>, outs: seq<Task>, groups: seq<set<string>>, end: Vertex)
    requires AllValid(ts) && WriteGroups(outs, groups) && end < |ts| + |outs|
    requires forall t :: t in outs ==> t !in ts
    ensures AllValid(Without(ts + outs, end)) && |outs| == |groups|
  {
    WriteGroupsMeans(outs, groups);
    var all := ts + outs;
    var r := Without(all, end);
    forall i, j | 0 <= i < j < |r| ensures r[i] != r[j] {
      var a, b := if i < end then i else i + 1, if j < end then j else j + 1;
      assert r[i] == all[a] && r[j] == all[b];
      if a < |ts| <= b {
        assert outs[b - |ts|] in outs;
      } else if |ts| <= a {
        assert outs[a - |ts|] != outs[b - |ts|];
      }
    }
  }

  // ----------------------------------------------- what a compilation promises

  // Conflicting accesses stay in the order of the state graph.
  ghost predicate KeepsConflicts(c: Compilation, ts: seq<Task>, E: Edges)
  {
    forall u, v :: 0 <= u < |c.ts0| && 0 <= v < |c.ts0| && |c.ts0| == |c.nodes0| && Runs(c.nodes0[u].kind) && Runs(c.nodes0[v].kind)
                   && RunsBefore(c.nodes0, c.es0, u, v) && Conflict(c.nodes0, u, v)
                   ==> Ordered(ts, E, c.ts0[u], c.ts0[v])
  }

  // Whatever writes a variable is done before an output task of that variable.
  ghost predicate OutputsAfterWriters(c: Compilation, ts: seq<Task>, E: Edges)
  {
    forall u, x :: 0 <= u < |c.ts0| == |c.nodes0| && Runs(c.nodes0[u].kind) && CanEnd(c, u) && x in c.nodes0[u].writeVars
                   ==> exists k :: 0 <= k < |c.outs| && k < |c.groups| && x in c.groups[k] && Ordered(ts, E, c.ts0[u], c.outs[k])
  }

  // Posters come before their message and readers after it.
  ghost predicate KeepsMessageEdges(c: Compilation, ts: seq<Task>, E: Edges)
  {
    forall e :: e in c.es0 && e.kind != State && e.source < |c.ts0| && e.target < |c.ts0| && |c.ts0| == |c.nodes0|
                && !c.nodes0[e.source].kind.XState? && !c.nodes0[e.target].kind.XState?
                ==> Ordered(ts, E, c.ts0[e.source], c.ts0[e.target])
  }

  // ts and R are what the transitive reduction makes of the last stage.
  ghost predicate IsReduced(c: Compilation, ts: seq<Task>, R: Edges) {
    |ts| == |c.ts6| && exists to :: ReducedBy(c, to, ts, R)
  }

  ghost predicate ReducedBy(c: Compilation, to: seq<Vertex>, ts: seq<Task>, R: Edges) {
    && |ts| == |c.ts6| && IsTransitiveReduction(|c.ts6|, Pairs(c.es6), to, R)
    && forall i :: 0 <= i < |ts| ==> ts[to[i]] == c.ts6[i]
  }

  lemma ReducedIs(c: Compilation, to: seq<Vertex>, ts: seq<Task>, R: Edges)
    requires IsTransitiveReduction(|c.ts6|, Pairs(c.es6), to, R) && |ts| == |c.ts6|
    requires forall i :: 0 <= i < |ts| ==> ts[to[i]] == c.ts6[i]
    ensures IsReduced(c, ts, R)
  {
    hide IsTransitiveReduction;
    assert ReducedBy(c, to, ts, R);
  }

  lemma CompilationKeepsPromises(c: Compilation, to: seq<Vertex>, R: Edges, ts: seq<Task>)
    requires c.Valid() && IsTransitiveReduction(|c.ts6|, Pairs(c.es6), to, R) && |ts| == |c.ts6|
    requires forall i :: 0 <= i < |ts| ==> ts[to[i]] == c.ts6[i]
    ensures KeepsConflicts(c, ts, R) && OutputsAfterWriters(c, ts, R) && KeepsMessageEdges(c, ts, R)
    ensures Acyclic(R)
  {
    var E := Pairs(c.es6);
    hide Pairs, IsTransitiveReduction, Ordered, Conflict, RunsBefore, CanEnd, Distinct, StateGraphKinds, MessagesLeadToRuns;
    forall u, v | 0 <= u < |c.ts0| && 0 <= v < |c.ts0| && Runs(c.nodes0[u].kind) && Runs(c.nodes0[v].kind)
                  && RunsBefore(c.nodes0, c.es0, u, v) && Conflict(c.nodes0, u, v)
      ensures Ordered(ts, R, c.ts0[u], c.ts0[v])
    {
      ConflictsStayOrdered(c, u, v);
      ReducedOrdered(c.ts6, E, to, R, ts, c.ts0[u], c.ts0[v]);
    }
    forall u, x | 0 <= u < |c.ts0| && Runs(c.nodes0[u].kind) && CanEnd(c, u) && x in c.nodes0[u].writeVars
      ensures exists k :: 0 <= k < |c.outs| && x in c.groups[k] && Ordered(ts, R, c.ts0[u], c.outs[k])
    {
      var k := OutputFollowsWriters(c, u, x);
      ReducedOrdered(c.ts6, E, to, R, ts, c.ts0[u], c.outs[k]);
    }
    forall e | e in c.es0 && e.kind != State && e.source < |c.ts0| && e.target < |c.ts0|
               && !c.nodes0[e.source].kind.XState? && !c.nodes0[e.target].kind.XState?
      ensures Ordered(ts, R, c.ts0[e.source], c.ts0[e.target])
    {
      MessageEdgesStay(c, e);
      ReducedOrdered(c.ts6, E, to, R, ts, c.ts0[e.source], c.ts0[e.target]);
    }
    CompiledAcyclic(c);
    ReducedAcyclic(|c.ts6|, E, to, R);
  }

  // What contracting the states makes of the tasks, with their nodes after the
  // states that branch have become conditions.
  ghost predicate IsContraction(ts0: seq<Task>, nodes0: seq<Node>, es0: set<Edge>,
                                ts2: seq<Task>, nodes2: seq<Node>, es2: set<Edge>) {
    var cs := IndicesOf(nodes0, XState);
    && ts2 == Kept(ts0, Elements(cs))
    && nodes2 == Kept(nodes0, Elements(cs))
    && es2 == Contracted(es0, cs, State)
    && (forall v :: 0 <= v < |nodes0| && Runs(nodes0[v].kind) ==> nodes0[v].writeVars <= nodes0[v].readVars)
  }

  ghost predicate EndsAmong(ts: seq<Task>, nodes: seq<Node>, endTasks: set<Task>) {
    |ts| == |nodes| && forall t :: t in endTasks ==>
      exists v :: (0 <= v < |ts| && ts[v] == t && Runs(nodes[v].kind))
  }

  // What the analysis and the output tasks make of the contracted graph.
  ghost predicate IsAnalysis(ts2: seq<Task>, nodes2: seq<Node>, es2: set<Edge>,
                             variables: set<string>, start: Task?, ends: set<Task>,
                             ts3: seq<Task>, nodes3: seq<Node>, L: VarMap,
                             outs: seq<Task>, groups: seq<set<string>>, ts6: seq<Task>, es6: set<Edge>) {
    var es3 := WithEndEdges(es2, ts2, start, ends);
    && |ts3| == |ts2| + 2 && ts3[..|ts2|] == ts2
    && nodes3 == WithEnds(nodes2, variables)
    && (forall x, w :: Recorded(L, x, w) <==> LastWriterAt(nodes3, Pairs(es3), w, |ts3| - 1, x))
    && PartitionsByWriters(L, groups) && |outs| == |groups|
    && ts6 == (ts3 + outs)[..|ts3| - 1] + (ts3 + outs)[|ts3|..]
    && es6 == WithoutVertex(WithoutStates(WithDataEdges(nodes3, es3)) + OutputEdges(L, groups, |ts3|), |ts3| - 1)
  }

  lemma IsContractionHolds(ts0: seq<Task>, nodes0: seq<Node>, es0: set<Edge>, ts2: seq<Task>, es2: set<Edge>)
    requires NodesOf(ts2) == Kept(nodes0, Elements(IndicesOf(nodes0, XState)))
    requires ts2 == Kept(ts0, Elements(IndicesOf(nodes0, XState)))
    requires es2 == Contracted(es0, IndicesOf(nodes0, XState), State)
    requires forall v :: 0 <= v < |nodes0| && Runs(nodes0[v].kind) ==> nodes0[v].writeVars <= nodes0[v].readVars
    ensures IsContraction(ts0, nodes0, es0, ts2, NodesOf(ts2), es2)
  {
  }

  lemma IsAnalysisHolds(ts2: seq<Task>, nodes2: seq<Node>, es2: set<Edge>,
                        variables: set<string>, start: Task?, ends: set<Task>,
                        ts3: seq<Task>, nodes3: seq<Node>, L: VarMap,
                        outs: seq<Task>, groups: seq<set<string>>, ts6: seq<Task>, es6: set<Edge>)
    requires |ts3| == |ts2| + 2 && ts3[..|ts2|] == ts2 && nodes3 == WithEnds(nodes2, variables)
    requires forall x, w :: Recorded(L, x, w) <==>
               LastWriterAt(nodes3, Pairs(WithEndEdges(es2, ts2, start, ends)), w, |ts2| + 1, x)
    requires PartitionsByWriters(L, groups) && |outs| == |groups|
    requires |ts3| > |ts2| + 1 && ts6 == Without(ts3 + outs, |ts2| + 1)
    requires es6 == WithoutVertex(WithoutStates(WithDataEdges(nodes3, WithEndEdges(es2, ts2, start, ends)))
                                  + OutputEdges(L, groups, |ts3|), |ts2| + 1)
    ensures IsAnalysis(ts2, nodes2, es2, variables, start, ends, ts3, nodes3, L, outs, groups, ts6, es6)
  {
  }

  // The two together make up a compilation.
  lemma Assemble(c: Compilation, nodes: seq<Node>, ts2: seq<Task>, nodes2: seq<Node>, es2: set<Edge>)
    requires |c.ts0| == |nodes| && Distinct(c.ts0) && IsStateGraph(nodes, c.es0)
    requires c.nodes0 == AfterTransform(nodes, c.es0, c.variables)
    requires IsContraction(c.ts0, c.nodes0, c.es0, ts2, nodes2, es2) && EndsAmong(c.ts0, c.nodes0, c.endTasks)
    requires c.es3 == WithEndEdges(es2, ts2, c.startTask, c.endTasks)
    requires IsAnalysis(ts2, nodes2, es2, c.variables, c.startTask, c.endTasks,
                        c.ts3, c.nodes3, c.lastWrites, c.outs, c.groups, c.ts6, c.es6)
    ensures c.Valid() && Acyclic(Pairs(c.es6)) && InRange(Pairs(c.es6), |c.ts6|)
  {
    hide *;
    AssembleStart(c, nodes, ts2, nodes2, es2);
    AssembleRest(c, ts2, nodes2, es2);
    CompiledAcyclic(c);
  }

  lemma AssembleStart(c: Compilation, nodes: seq<Node>, ts2: seq<Task>, nodes2: seq<Node>, es2: set<Edge>)
    requires |c.ts0| == |nodes| && Distinct(c.ts0) && IsStateGraph(nodes, c.es0)
    requires c.nodes0 == AfterTransform(nodes, c.es0, c.variables)
    requires IsContraction(c.ts0, c.nodes0, c.es0, ts2, nodes2, es2) && EndsAmong(c.ts0, c.nodes0, c.endTasks)
    ensures c.StartsWell()
  {
    hide Kept, Contracted, IndicesOf, Acyclic;
    TransformKeepsKinds(nodes, c.es0, c.variables);
    MessagesLeadAfterTransform(nodes, c.es0, c.variables);
    hide Pairs;
  }

  lemma MessagesLeadAfterTransform(nodes: seq<Node>, es: set<Edge>, variables: set<string>)
    requires IsStateGraph(nodes, es)
    ensures MessagesLeadToRuns(AfterTransform(nodes, es, variables), Pairs(es))
  {
    var after := AfterTransform(nodes, es, variables);
    TransformKeepsKinds(nodes, es, variables);
    forall p: (Vertex, Vertex) | p in Pairs(es) && p.0 < |after| && p.1 < |after| && after[p.0].kind.XMessage?
      ensures Runs(after[p.1].kind)
    {
      var e :| e in es && p == (e.source, e.target);
      assert nodes[e.source].kind.XMessage? && nodes[e.target].kind.XFunction?;
    }
  }

  lemma AssembleRest(c: Compilation, ts2: seq<Task>, nodes2: seq<Node>, es2: set<Edge>)
    requires c.StartsWell() && IsContraction(c.ts0, c.nodes0, c.es0, ts2, nodes2, es2)
    requires c.es3 == WithEndEdges(es2, ts2, c.startTask, c.endTasks)
    requires IsAnalysis(ts2, nodes2, es2, c.variables, c.startTask, c.endTasks,
                        c.ts3, c.nodes3, c.lastWrites, c.outs, c.groups, c.ts6, c.es6)
    ensures c.Valid()
  {
    hide Pairs, Contracted, Kept, WithEndEdges, WithEnds, LastWriterAt, PartitionsByWriters, WithoutVertex;
    hide OutputEdges, WithDataEdges, Recorded, Elements, IndicesOf, Distinct, StateGraphKinds, Acyclic, InRange;
    assert c.Contracts();
    assert c.Outputs();
  }

  lemma FunctionsSurvive(ts: seq<Task>, nodes0: seq<Node>, es: set<Edge>, variables: set<string>, v: Vertex)
    requires |ts| == |nodes0| && v < |ts| && nodes0[v].kind.XFunction?
    ensures ts[v] in Kept(ts, Elements(IndicesOf(AfterTransform(nodes0, es, variables), XState)))
    ensures AfterTransform(nodes0, es, variables)[v].kind.XFunction?
  {
    var nodes := AfterTransform(nodes0, es, variables);
    IndicesAscending(nodes, XState);
    KeptAt(ts, Elements(IndicesOf(nodes, XState)));
  }

  lemma EndTasksSurvive(ts: seq<Task>, nodes0: seq<Node>, es: set<Edge>, variables: set<string>, endTasks: set<Task>)
    requires NodesOf(ts) == nodes0 && forall t :: t in endTasks ==> t in ts && t.taskType == XFunction
    ensures ghost var nodes := AfterTransform(nodes0, es, variables);
            && (forall t :: t in endTasks ==> t in Kept(ts, Elements(IndicesOf(nodes, XState))))
            && EndsAmong(ts, nodes, endTasks)
  {
    var nodes := AfterTransform(nodes0, es, variables);
    forall t | t in endTasks
      ensures t in Kept(ts, Elements(IndicesOf(nodes, XState)))
      ensures exists v :: (0 <= v < |ts| && ts[v] == t && Runs(nodes[v].kind))
    {
      var v :| 0 <= v < |ts| && ts[v] == t;
      FunctionsSurvive(ts, nodes0, es, variables, v);
    }
  }

  // Where tasks that run write only what they read.
  lemma WritersReadTheirs(ts: seq<Task>)
    requires forall i :: 0 <= i < |ts| ==> ts[i].Valid()
    ensures forall v :: 0 <= v < |ts| && Runs(NodesOf(ts)[v].kind) ==>
              NodesOf(ts)[v].writeVars <= NodesOf(ts)[v].readVars
  {
    forall v | 0 <= v < |ts| && Runs(NodesOf(ts)[v].kind) ensures NodesOf(ts)[v].writeVars <= NodesOf(ts)[v].readVars {
      assert ts[v].Valid();
    }
  }
}
