/** The two ends of a compiled agent: its start task, which brings in the variables, and its
    output tasks, which put them out. */
module StartAndOutputs {
  import opened Digraph
  import opened DataFlow
  import opened TaskGraph
  import opened Tasks
  import opened AgentGraph
  import opened ModelGraph
  import opened ModelXGraph
  import opened CompiledAgents
  import opened ForcedOrder

  // The agent starts with the task at s, and everything that runs is that or comes after it.
  ghost predicate StartsFrom(c: Compilation, s: Vertex) {
    && s < |c.ts0| == |c.nodes0| && Runs(c.nodes0[s].kind) && c.startTask == c.ts0[s] && CanEnd(c, s)
    && forall u: Vertex :: u < |c.nodes0| && Runs(c.nodes0[u].kind) ==> u == s || RunsBefore(c.nodes0, c.es0, s, u)
  }

  lemma StartsFromIs(c: Compilation, s: Vertex)
    requires StartsFrom(c, s)
    ensures s < |c.ts0| == |c.nodes0| && Runs(c.nodes0[s].kind) && c.startTask == c.ts0[s] && CanEnd(c, s)
    ensures forall u: Vertex :: u < |c.nodes0| && Runs(c.nodes0[u].kind) ==> u == s || RunsBefore(c.nodes0, c.es0, s, u)
  {
    hide RunsBefore, CanEnd;
  }

  function StartTask(c: Compilation): Task
    requires |c.ts3| >= 2
  {
    c.ts3[|c.ts3| - 2]
  }

  // --------------------------------------------------------- behind the start

  // The start task leads to where the agent starts.
  lemma {:induction false} StartFlows(c: Compilation, s: Vertex)
    requires c.StartsWell() && c.Contracts() && Survives(c, s) && Runs(c.nodes0[s].kind) && c.startTask == c.ts0[s]
    ensures (Start3(c), c.At3(s)) in FlowEdges(c.nodes3, Pairs(c.es3))
  {
    hide Pairs, Rank, IndicesOf, Elements, Contracted, Kept, WithEnds, Acyclic, MessagesLeadToRuns, InRange, Distinct, StateGraphKinds, EndEdges;
    SurvivorAt(c, s);
    KeptKinds(c);
    var n := |c.ts3| - 2;
    assert Kept(c.ts0, c.Gone())[c.At3(s)] == c.ts3[c.At3(s)] == c.startTask;
    var e := Edge(n, c.At3(s), Init);
    assert e in StartEdges(Kept(c.ts0, c.Gone()), c.startTask, n);
    PairsOf(c.es3, e);
  }

  lemma {:induction false} StartBefore(c: Compilation, s: Vertex, u: Vertex)
    requires c.StartsWell() && c.Contracts() && StartsFrom(c, s) && u < |c.nodes0| && Runs(c.nodes0[u].kind)
    ensures Before(c.nodes3, Pairs(c.es3), Start3(c), c.At3(u))
  {
    hide *;
    StartsFromIs(c, s);
    var F := FlowAtThree(c);
    FlowAtThreeIs(c);
    RunsSurvives(c, s);
    StartFlows(c, s);
    EdgeReaches(F, Start3(c), c.At3(s));
    if u != s {
      BeforeAtThree(c, s, u);
      BeforeIs(c, c.At3(s), c.At3(u));
      Transitive(F, Start3(c), c.At3(s), c.At3(u));
    }
    BeforeIs(c, Start3(c), c.At3(u));
  }

  lemma FlowAtThreeIs(c: Compilation)
    ensures FlowAtThree(c) == FlowEdges(c.nodes3, Pairs(c.es3))
  {
  }

  lemma BeforeIs(c: Compilation, i: Vertex, j: Vertex)
    ensures Before(c.nodes3, Pairs(c.es3), i, j) <==> Reaches(FlowAtThree(c), i, j)
  {
    hide Reaches, Pairs;
  }

  lemma RunsSurvives(c: Compilation, u: Vertex)
    requires u < |c.ts0| == |c.nodes0| && Runs(c.nodes0[u].kind)
    ensures Survives(c, u)
  {
  }

  // The start task writes every variable of the agent.
  lemma {:induction false} StartWrites(c: Compilation)
    requires c.StartsWell() && c.Contracts()
    ensures |c.ts3| == |c.nodes3| >= 2 && c.nodes3[Start3(c)] == Node(StartAgent, {}, c.variables)
    ensures Start3(c) == |c.ts3| - 2 && c.End() == |c.ts3| - 1 && c.nodes3[c.End()] == Node(FinishAgent, {}, {})
  {
    hide Pairs, Kept, Contracted, WithEndEdges, Acyclic, InRange, Distinct, StateGraphKinds, MessagesLeadToRuns;
    StageSizes(c);
  }

  lemma {:induction false} StartConflicts(c: Compilation, u: Vertex, x: string)
    requires c.StartsWell() && c.Contracts() && u < |c.ts0| == |c.nodes0| && Runs(c.nodes0[u].kind)
    requires x in c.variables && (x in c.nodes0[u].readVars || x in c.nodes0[u].writeVars)
    ensures Conflict(c.nodes3, Start3(c), c.At3(u))
  {
    hide Compilation.StartsWell, Compilation.Contracts, Rank, Elements, IndicesOf;
    StartWrites(c);
    SurvivorAt(c, u);
    assert ConflictOn(c.nodes3, Start3(c), c.At3(u), x);
  }

  // Whatever accesses a variable of the agent comes after the start task.
  lemma {:induction false} StartFirst(c: Compilation, ts: seq<Task>, R: Edges, s: Vertex, u: Vertex, x: string)
    requires c.Valid() && IsReduced(c, ts, R) && StartsFrom(c, s) && u < |c.ts0| == |c.nodes0| && Runs(c.nodes0[u].kind)
    requires x in c.variables && (x in c.nodes0[u].readVars || x in c.nodes0[u].writeVars)
    ensures |c.ts3| >= 2 && Ordered(ts, R, StartTask(c), c.ts0[u])
  {
    hide *;
    ValidParts(c);
    StartWrites(c);
    RunsSurvives(c, u);
    SurvivorAt(c, u);
    StartBefore(c, s, u);
    StartConflicts(c, u, x);
    StageWellFormed(c);
    OrderKept(c.nodes3, Pairs(c.es3), Start3(c), c.At3(u));
    DataEdgesAvoidEnd(c);
    EndDropped(c, DataEdges(c.nodes3, Pairs(c.es3)), Start3(c), c.At3(u));
    var to := Reduction(c, ts, R);
    ReductionPermutes(c, to, ts, R);
    OrderedBy(c.ts6, Pairs(c.es6), c.At6(Start3(c)), c.At6(c.At3(u)));
    StartTaskIs(c);
    ReducedOrdered(c.ts6, Pairs(c.es6), to, R, ts, StartTask(c), c.ts0[u]);
  }

  lemma StartTaskIs(c: Compilation)
    requires |c.ts3| >= 2
    ensures StartTask(c) == c.ts3[|c.ts3| - 2]
  {
  }

  // -------------------------------------------------------- one output for each

  // From the start some run leads to the end.
  lemma {:induction false} StartEnds(c: Compilation, s: Vertex)
    requires c.Valid() && StartsFrom(c, s)
    ensures Before(c.nodes3, Pairs(c.es3), Start3(c), c.End())
  {
    hide *;
    ValidParts(c);
    StartsFromIs(c, s);
    StartBefore(c, s, s);
    EndReached(c, s);
    BeforeIs(c, Start3(c), c.At3(s));
    BeforeIs(c, c.At3(s), c.End());
    Transitive(FlowAtThree(c), Start3(c), c.At3(s), c.End());
    BeforeIs(c, Start3(c), c.End());
  }

  // Every variable of the agent is put out by one output task, and by one only.
  lemma {:induction false} OneOutput(c: Compilation, s: Vertex, x: string) returns (k: nat)
    requires c.Valid() && StartsFrom(c, s) && x in c.variables
    ensures k < |c.groups| == |c.outs| && x in c.groups[k] && x in c.lastWrites
    ensures forall j :: 0 <= j < |c.groups| && x in c.groups[j] ==> j == k
  {
    hide *;
    ValidParts(c);
    StartWrites(c);
    StartEnds(c, s);
    StageWellFormed(c);
    WritesIt(c.nodes3, Start3(c), x);
    var w := LastWriterCovers(c.nodes3, Pairs(c.es3), Start3(c), c.End(), x);
    k := GroupOf(c, w, x);
  }

  lemma WritesIt(nodes: seq<Node>, v: Vertex, x: string)
    requires v < |nodes| && x in nodes[v].writeVars
    ensures Writes(nodes, v, x)
  {
  }

  lemma {:induction false} GroupOf(c: Compilation, w: Vertex, x: string) returns (k: nat)
    requires c.Valid() && LastWriterAt(c.nodes3, Pairs(c.es3), w, c.End(), x)
    ensures k < |c.groups| == |c.outs| && x in c.groups[k] && x in c.lastWrites
    ensures forall j :: 0 <= j < |c.groups| && x in c.groups[j] ==> j == k
  {
    hide Compilation.StartsWell, Compilation.Contracts, LastWriterAt, Pairs, WithoutVertex, WithDataEdges, OutputEdges;
    assert Recorded(c.lastWrites, x, w);
    assert Grouped(c.groups, x);
    k :| 0 <= k < |c.groups| && x in c.groups[k];
  }

  // ---------------------------------------- variables that nothing writes

  ghost predicate Unwritten(c: Compilation, x: string) {
    forall u: Vertex :: u < |c.nodes0| && Runs(c.nodes0[u].kind) ==> x !in c.nodes0[u].writeVars
  }

  // Their only writer is the start task.
  lemma {:induction false} OnlyStartWrites(c: Compilation, w: Vertex, x: string)
    requires c.Valid() && Unwritten(c, x) && LastWriterAt(c.nodes3, Pairs(c.es3), w, c.End(), x)
    ensures w == Start3(c)
  {
    hide *;
    ValidParts(c);
    StartWrites(c);
    WriterFlows(c, w, x);
    if w < Start3(c) {
      var u := SurvivorFrom(c, w);
      SurvivorAt(c, u);
      SurvivesIs(c, u);
      KindBefore(c, u);
      UnwrittenAt(c, u, x);
    }
  }

  lemma {:induction false} WriterFlows(c: Compilation, w: Vertex, x: string)
    requires LastWriterAt(c.nodes3, Pairs(c.es3), w, c.End(), x) && c.End() < |c.nodes3| && c.nodes3[c.End()].writeVars == {}
    ensures w < |c.nodes3| && w != c.End() && x in c.nodes3[w].writeVars && Analysed(c.nodes3[w].kind)
  {
    hide Pairs;
    ArrivalSource(c.nodes3, Pairs(c.es3), w, c.End(), x);
  }

  lemma UnwrittenAt(c: Compilation, u: Vertex, x: string)
    requires Unwritten(c, x) && u < |c.nodes0|
    ensures Runs(c.nodes0[u].kind) ==> x !in c.nodes0[u].writeVars
  {
  }

  // So their output task is directly behind the start task, and behind nothing else.
  lemma {:induction false} OutputSource(c: Compilation, s: Vertex, x: string, k: nat, p: (Vertex, Vertex))
    requires c.Valid() && StartsFrom(c, s) && x in c.variables && Unwritten(c, x) && k < |c.groups| && x in c.groups[k]
    ensures |c.groups| == |c.outs| && (p in Pairs(Unstated6(c)) && p.1 == |c.ts3| + k ==> p.0 == Start3(c))
    ensures (Start3(c), |c.ts3| + k) in Pairs(Unstated6(c))
  {
    hide *;
    ValidParts(c);
    StartWrites(c);
    var j := OneOutput(c, s, x);
    if p in Pairs(Unstated6(c)) && p.1 == |c.ts3| + k {
      var d := EdgeOf(Unstated6(c), p);
      var y := OutputVariable(c, d);
      RecordedAlike(c, x, y, k, d.source);
      OnlyStartWrites(c, d.source, x);
    }
    StartEnds(c, s);
    StageWellFormed(c);
    WritesIt(c.nodes3, Start3(c), x);
    var w := LastWriterCovers(c.nodes3, Pairs(c.es3), Start3(c), c.End(), x);
    OnlyStartWrites(c, w, x);
    HasOutputs(c);
    var l := OutputOfWriter(c, w, x);
  }

  lemma HasOutputs(c: Compilation)
    requires c.Valid()
    ensures c.Outputs()
  {
    hide Compilation.StartsWell, Compilation.Contracts, Compilation.Outputs;
  }

  lemma {:induction false} OutputVariable(c: Compilation, d: Edge) returns (y: string)
    requires c.Valid() && d in Unstated6(c) && d.target >= |c.ts3|
    ensures d.target < |c.ts3| + |c.groups| && y in c.groups[d.target - |c.ts3|] && Recorded(c.lastWrites, y, d.source)
  {
    hide PartitionsByWriters, WithoutVertex, DataEdges, OutputEdges, LastWriterAt, Recorded, Pairs, Compilation.StartsWell, Compilation.Contracts;
    OutputEdgesExact(c.lastWrites, c.groups, |c.ts3|, d);
    NoOldTarget(c, d);
    y :| y in c.groups[d.target - |c.ts3|] && Recorded(c.lastWrites, y, d.source);
  }

  lemma {:induction false} NoOldTarget(c: Compilation, d: Edge)
    requires c.Valid() && d in Unstated6(c) && d.target >= |c.ts3|
    ensures d in OutputEdges(c.lastWrites, c.groups, |c.ts3|)
  {
    hide Compilation.Outputs, Compilation.StartsWell, Compilation.Contracts, DataEdges, OutputEdges, Pairs;
    StageSizes(c);
    RangeIs(Pairs(c.es3), |c.ts3|);
    if d in c.es3 {
      PairsOf(c.es3, d);
    }
    if (d.source, d.target) in DataEdges(c.nodes3, Pairs(c.es3)) {
      DataTarget(c, (d.source, d.target));
    }
  }

  lemma RangeIs(E: Edges, n: nat)
    requires InRange(E, n)
    ensures forall p :: p in E ==> p.0 < n && p.1 < n
  {
  }

  lemma DataTarget(c: Compilation, p: (Vertex, Vertex))
    requires p in DataEdges(c.nodes3, Pairs(c.es3))
    ensures p.1 < |c.nodes3|
  {
    hide DataDependency;
  }

  lemma {:induction false} RecordedAlike(c: Compilation, x: string, y: string, k: nat, w: Vertex)
    requires c.Valid() && k < |c.groups| && x in c.groups[k] && y in c.groups[k] && Recorded(c.lastWrites, y, w)
    ensures Recorded(c.lastWrites, x, w) && LastWriterAt(c.nodes3, Pairs(c.es3), w, c.End(), x)
  {
    hide Compilation.StartsWell, Compilation.Contracts, LastWriterAt, WithoutVertex, WithDataEdges, OutputEdges, Pairs;
    assert IsClass(c.lastWrites, c.groups[k]);
  }

  lemma {:induction false} OutputBehindStart(c: Compilation, ts: seq<Task>, R: Edges, s: Vertex, x: string, k: nat)
    requires c.Valid() && IsReduced(c, ts, R) && Distinct(ts) && StartsFrom(c, s)
    requires x in c.variables && Unwritten(c, x) && k < |c.groups| && x in c.groups[k]
    ensures |c.ts3| >= 2 && |c.groups| == |c.outs| && Adjacent(ts, R, StartTask(c), c.outs[k])
    ensures forall t :: Adjacent(ts, R, t, c.outs[k]) ==> t == StartTask(c)
  {
    hide *;
    ValidParts(c);
    StartWrites(c);
    OutputSource(c, s, x, k, (0, 0));
    var o := |c.ts3| + k;
    var to := Reduction(c, ts, R);
    ReductionPermutes(c, to, ts, R);
    CompiledAcyclic(c);
    var m, r := c.At6(Start3(c)), c.At6(o);
    LastPlaces(c, s, x, k);
    forall d | (d, r) in Pairs(c.es6) ensures d == m {
      BehindStart(c, s, x, k, d);
    }
    OneWayIn(Pairs(c.es6), m, r);
    EdgeSurvivesReduction(|c.ts6|, Pairs(c.es6), to, R, m, r);
    AdjacentThere(ts, R, to[m], to[r]);
    forall t | Adjacent(ts, R, t, c.outs[k]) ensures t == StartTask(c) {
      var a, b := AdjacentVertices(ts, R, t, c.outs[k]);
      DistinctAt(ts, b, to[r]);
      var e, h := ReducedFrom(|c.ts6|, Pairs(c.es6), to, R, a, b);
      SameTo(|c.ts6|, Pairs(c.es6), to, R, h, r);
    }
  }

  // Where the start task and the output task stand in the end.
  lemma {:induction false} LastPlaces(c: Compilation, s: Vertex, x: string, k: nat)
    requires c.Valid() && StartsFrom(c, s) && x in c.variables && Unwritten(c, x) && k < |c.groups| && x in c.groups[k]
    ensures |c.groups| == |c.outs| && |c.ts3| >= 2
    ensures ghost var m, r := c.At6(Start3(c)), c.At6(|c.ts3| + k);
            && (m, r) in Pairs(c.es6) && m < |c.ts6| && r < |c.ts6| && c.ts6[m] == StartTask(c) && c.ts6[r] == c.outs[k]
  {
    hide *;
    ValidParts(c);
    StartWrites(c);
    OutputSource(c, s, x, k, (0, 0));
    var o := |c.ts3| + k;
    var K := {(Start3(c), o)};
    EdgeReaches(K, Start3(c), o);
    EndDropped(c, K, Start3(c), o);
    StartTaskIs(c);
    Es6Is(c);
    var d := EdgeOf(Unstated6(c), (Start3(c), o));
    ShiftedStays(Unstated6(c), c, d);
  }

  lemma {:induction false} BehindStart(c: Compilation, s: Vertex, x: string, k: nat, d: Vertex)
    requires c.Valid() && StartsFrom(c, s) && x in c.variables && Unwritten(c, x) && k < |c.groups| && x in c.groups[k]
    requires (d, c.At6(|c.ts3| + k)) in Pairs(c.es6)
    ensures d == c.At6(Start3(c))
  {
    hide *;
    ValidParts(c);
    StartWrites(c);
    Es6Is(c);
    var e := ShiftedFrom(Unstated6(c), c.End(), (d, c.At6(|c.ts3| + k)));
    ShiftInjective(c, e.target, |c.ts3| + k);
    PairsOf(Unstated6(c), e);
    OutputSource(c, s, x, k, (e.source, e.target));
    AtSixIs(c, e.source);
  }

  lemma ShiftInjective(c: Compilation, i: Vertex, j: Vertex)
    requires i != c.End() && j != c.End() && Shift(c.End(), i) == c.At6(j)
    ensures i == j
  {
  }

  lemma AtSixIs(c: Compilation, i: Vertex)
    ensures c.At6(i) == Shift(c.End(), i)
  {
  }

  lemma {:induction false} OneWayIn(E: Edges, m: Vertex, r: Vertex)
    requires Acyclic(E) && (m, r) in E && forall d :: (d, r) in E ==> d == m
    ensures forall d :: (m, d) in E && d != r ==> !Reaches(E, d, r)
  {
    hide Reaches;
    forall d | (m, d) in E && d != r ensures !Reaches(E, d, r) {
      if Reaches(E, d, r) {
        var l := LastEdge(E, d, r);
        EdgeReaches(E, m, d);
        if l != d { Transitive(E, m, d, l); }
      }
    }
  }

  // ------------------------------------------------------- the agent as a whole

  // o puts out x.
  predicate IsOutputOf(o: Task, x: string)
    reads o
  {
    o.taskType == IoPopWrite && x in o.writeVariables
  }

  // One task starts the agent.
  predicate IsStart(start: Task, ts: seq<Task>)
    reads ts
  {
    start in ts && start.taskType == StartAgent && forall t :: t in ts && t.taskType == StartAgent ==> t == start
  }

  // It comes before every function and condition that accesses a variable of the agent.
  ghost predicate StartsFirst(c: Compilation, start: Task, ts: seq<Task>, E: Edges) {
    forall u: Vertex, x ::
      (u < |c.ts0| == |c.nodes0| && Runs(c.nodes0[u].kind) && x in c.variables
       && (x in c.nodes0[u].readVars || x in c.nodes0[u].writeVars)) ==> Ordered(ts, E, start, c.ts0[u])
  }

  // Every variable of the agent is put out, by one task.
  ghost predicate OneOutputEach(variables: set<string>, ts: seq<Task>)
    reads ts
  {
    forall x :: x in variables ==> exists o :: o in ts && IsOutputOf(o, x) && forall p :: p in ts && IsOutputOf(p, x) ==> p == o
  }

  // What nothing writes is put out directly behind the start, and behind nothing else.
  ghost predicate UnwrittenBehindStart(c: Compilation, start: Task, ts: seq<Task>, E: Edges)
    reads ts
  {
    forall x, o :: x in c.variables && Unwritten(c, x) && o in ts && IsOutputOf(o, x) ==>
      Adjacent(ts, E, start, o) && forall t :: t in ts && Adjacent(ts, E, t, o) ==> t == start
  }

  ghost predicate HasEnds(c: Compilation, ts: seq<Task>, E: Edges)
    reads ts
  {
    && OneOutputEach(c.variables, ts)
    && exists start :: start in ts && IsStart(start, ts) && StartsFirst(c, start, ts, E) && UnwrittenBehindStart(c, start, ts, E)
  }

  // The tasks of the agent: those that stay, the start task and the outputs.
  lemma {:induction false} TaskAtThree(c: Compilation, ts: seq<Task>, R: Edges, t: Task) returns (k: nat, out: bool)
    requires c.Valid() && IsReduced(c, ts, R) && t in ts
    ensures if out then k < |c.outs| && c.outs[k] == t else k < |c.ts3| - 1 && c.ts3[k] == t
  {
    hide *;
    ValidParts(c);
    StartWrites(c);
    LastTasks(c);
    InLastStage(c, ts, R, t);
    var i :| 0 <= i < |c.ts6| && c.ts6[i] == t;
    var all := c.ts3 + c.outs;
    if i < c.End() {
      k, out := i, false;
      assert all[i] == t;
    } else {
      assert all[i + 1] == t;
      k, out := i + 1 - |c.ts3|, true;
    }
  }

  lemma {:induction false} InTasks(c: Compilation, ts: seq<Task>, R: Edges, i: nat)
    requires c.Valid() && IsReduced(c, ts, R) && i < |c.ts3| + |c.outs| && i != c.End()
    ensures (c.ts3 + c.outs)[i] in ts
  {
    hide *;
    LastTasks(c);
    var to := Reduction(c, ts, R);
    ReductionPermutes(c, to, ts, R);
    var all := c.ts3 + c.outs;
    var j := if i < c.End() then i else i - 1;
    assert c.ts6[j] == all[i];
    assert ts[to[j]] == all[i];
  }

  // Only the start task starts, and only the outputs put out.
  lemma {:induction false} KindsAtThree(c: Compilation, i: nat)
    requires c.StartsWell() && c.Contracts() && NodesOf(c.ts3) == c.nodes3 && i < |c.ts3| - 1
    ensures c.ts3[i].taskType == StartAgent <==> i == Start3(c)
    ensures c.ts3[i].taskType != IoPopWrite
  {
    hide *;
    StartWrites(c);
    KindOfTask(c.ts3, i);
    if i < Start3(c) {
      var u := SurvivorFrom(c, i);
      SurvivorAt(c, u);
      SurvivesIs(c, u);
      StateGraphKind(c, u);
    }
  }

  lemma KindOfTask(ts: seq<Task>, i: nat)
    requires i < |ts|
    ensures NodesOf(ts)[i].kind == ts[i].taskType
  {
  }

  lemma StateGraphKind(c: Compilation, u: Vertex)
    requires c.StartsWell() && u < |c.nodes0|
    ensures c.nodes0[u].kind != StartAgent && c.nodes0[u].kind != IoPopWrite
  {
    hide Pairs, Acyclic, InRange, Distinct, MessagesLeadToRuns;
  }

  lemma OutputIs(outs: seq<Task>, groups: seq<set<string>>, k: nat)
    requires WriteGroups(outs, groups) && k < |outs|
    ensures |outs| == |groups| && outs[k].taskType == IoPopWrite && outs[k].writeVariables == groups[k]
  {
    assert outs[k].AsNode() == Node(IoPopWrite, {}, groups[k]);
  }

  lemma {:induction false} OutputAmong(c: Compilation, ts: seq<Task>, R: Edges, o: Task, x: string) returns (k: nat)
    requires c.Valid() && IsReduced(c, ts, R) && NodesOf(c.ts3) == c.nodes3 && WriteGroups(c.outs, c.groups)
    requires o in ts && IsOutputOf(o, x)
    ensures k < |c.outs| == |c.groups| && c.outs[k] == o && x in c.groups[k]
  {
    hide *;
    ValidParts(c);
    var out;
    k, out := TaskAtThree(c, ts, R, o);
    PutsOut(o, x);
    if !out {
      KindsAtThree(c, k);
    }
    OutputIs(c.outs, c.groups, k);
  }

  lemma PutsOut(o: Task, x: string)
    ensures IsOutputOf(o, x) <==> o.taskType == IoPopWrite && x in o.writeVariables
  {
  }

  lemma {:induction false} OutputsOnce(c: Compilation, ts: seq<Task>, R: Edges, s: Vertex, x: string)
    requires c.Valid() && IsReduced(c, ts, R) && StartsFrom(c, s) && NodesOf(c.ts3) == c.nodes3 && WriteGroups(c.outs, c.groups)
    requires x in c.variables
    ensures exists o :: o in ts && IsOutputOf(o, x) && forall p :: p in ts && IsOutputOf(p, x) ==> p == o
  {
    hide *;
    ValidParts(c);
    StartWrites(c);
    var k := OneOutput(c, s, x);
    var o := c.outs[k];
    OutputIs(c.outs, c.groups, k);
    PutsOut(o, x);
    InTasks(c, ts, R, |c.ts3| + k);
    assert o == (c.ts3 + c.outs)[|c.ts3| + k];
    forall p | p in ts && IsOutputOf(p, x) ensures p == o {
      var j := OutputAmong(c, ts, R, p, x);
    }
  }

  lemma {:induction false} StartAlone(c: Compilation, ts: seq<Task>, R: Edges)
    requires c.Valid() && IsReduced(c, ts, R) && NodesOf(c.ts3) == c.nodes3 && WriteGroups(c.outs, c.groups)
    ensures |c.ts3| >= 2 && IsStart(StartTask(c), ts)
  {
    hide *;
    ValidParts(c);
    StartWrites(c);
    StartTaskIs(c);
    InTasks(c, ts, R, Start3(c));
    KindsAtThree(c, Start3(c));
    forall t | t in ts && t.taskType == StartAgent ensures t == StartTask(c) {
      var k, out := TaskAtThree(c, ts, R, t);
      if out { OutputIs(c.outs, c.groups, k); } else { KindsAtThree(c, k); }
    }
    IsTheStart(StartTask(c), ts);
  }

  lemma IsTheStart(start: Task, ts: seq<Task>)
    requires start in ts && start.taskType == StartAgent && forall t :: t in ts && t.taskType == StartAgent ==> t == start
    ensures IsStart(start, ts)
  {
  }

  // What a compiled agent begins and ends with.
  lemma {:induction false} EndsHold(c: Compilation, ts: seq<Task>, R: Edges, s: Vertex)
    requires c.Valid() && IsReduced(c, ts, R) && Distinct(ts) && StartsFrom(c, s)
    requires NodesOf(c.ts3) == c.nodes3 && WriteGroups(c.outs, c.groups)
    ensures HasEnds(c, ts, R)
  {
    hide *;
    StartAlone(c, ts, R);
    var start := StartTask(c);
    forall x | x in c.variables
      ensures exists o :: o in ts && IsOutputOf(o, x) && forall p :: p in ts && IsOutputOf(p, x) ==> p == o
    {
      OutputsOnce(c, ts, R, s, x);
    }
    forall u: Vertex, x | u < |c.ts0| == |c.nodes0| && Runs(c.nodes0[u].kind) && x in c.variables
      && (x in c.nodes0[u].readVars || x in c.nodes0[u].writeVars) ensures Ordered(ts, R, start, c.ts0[u])
    {
      StartFirst(c, ts, R, s, u, x);
    }
    forall x, o | x in c.variables && Unwritten(c, x) && o in ts && IsOutputOf(o, x)
      ensures Adjacent(ts, R, start, o) && forall t :: Adjacent(ts, R, t, o) ==> t == start
    {
      var k := OutputAmong(c, ts, R, o, x);
      OutputBehindStart(c, ts, R, s, x, k);
    }
    AreEnds(c, start, ts, R);
  }

  lemma {:induction false} AreEnds(c: Compilation, start: Task, ts: seq<Task>, E: Edges)
    requires IsStart(start, ts)
    requires forall x :: x in c.variables ==> exists o :: o in ts && IsOutputOf(o, x) && forall p :: p in ts && IsOutputOf(p, x) ==> p == o
    requires forall u: Vertex, x ::
               (u < |c.ts0| == |c.nodes0| && Runs(c.nodes0[u].kind) && x in c.variables
                && (x in c.nodes0[u].readVars || x in c.nodes0[u].writeVars)) ==> Ordered(ts, E, start, c.ts0[u])
    requires forall x, o :: x in c.variables && Unwritten(c, x) && o in ts && IsOutputOf(o, x) ==>
      Adjacent(ts, E, start, o) && forall t :: Adjacent(ts, E, t, o) ==> t == start
    ensures HasEnds(c, ts, E)
  {
    hide IsOutputOf, Ordered, Adjacent, Unwritten;
    assert StartsFirst(c, start, ts, E) && UnwrittenBehindStart(c, start, ts, E);
  }
}
