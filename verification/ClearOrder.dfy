/** Which functions a model waits for before it clears a message: those that read it with no
    reader before them in their agent, and what comes before one of those. */
module ClearOrder {
  import opened Digraph
  import opened DataFlow
  import opened TaskGraph
  import opened Tasks
  import opened AgentGraph
  import opened ModelGraph
  import opened MergedOrder
  import opened ModelXGraph
  import opened AgentPlaces
  import opened CompiledAgents
  import opened WholeModel
  import opened XMachines
  import opened StateGraphs
  import opened AgentCompiler
  import opened CompiledModel

  // ------------------------------------------------ what follows a message in an agent

  // What follows a message in the compiled graph follows it in the state graph.
  lemma {:induction false} SuccessorTask(c: Compilation, ts: seq<Task>, R: Edges, v: Vertex, d: Task) returns (e: Edge)
    requires c.Valid() && IsReduced(c, ts, R) && Distinct(ts) && v < |c.ts0| == |c.nodes0| && c.nodes0[v].kind.XMessage?
    requires Adjacent(ts, R, c.ts0[v], d)
    ensures e in c.es0 && e.source == v && e.target < |c.ts0| && c.ts0[e.target] == d
  {
    hide *;
    var to := Reduction(c, ts, R);
    ReductionPermutes(c, to, ts, R);
    var x, y := AdjacentVertices(ts, R, c.ts0[v], d);
    var a, b := ReducedFrom(|c.ts6|, Pairs(c.es6), to, R, x, y);
    MessageThere(c, v);
    DistinctAt(ts, x, to[c.At6(c.At3(v))]);
    SameTo(|c.ts6|, Pairs(c.es6), to, R, a, c.At6(c.At3(v)));
    e := MessageSuccessor(c, v, b);
    RunsThere(c, e.target);
  }

  // A task that was no state is found in the last stage.
  lemma {:induction false} StaysThere(c: Compilation, v: Vertex)
    requires c.Valid() && v < |c.ts0| == |c.nodes0| && !c.nodes0[v].kind.XState?
    ensures c.At6(c.At3(v)) < |c.ts6| && c.ts6[c.At6(c.At3(v))] == c.ts0[v]
  {
    ValidParts(c);
    IndicesAscending(c.nodes0, XState);
    StageSizes(c);
    LastTasks(c);
    hide Compilation.Valid, Compilation.StartsWell, Compilation.Contracts, Compilation.Outputs, Rank, IndicesOf;
  }

  lemma {:induction false} MessageThere(c: Compilation, v: Vertex)
    requires c.Valid() && v < |c.ts0| == |c.nodes0| && c.nodes0[v].kind.XMessage?
    ensures c.At6(c.At3(v)) < |c.ts6| && c.ts6[c.At6(c.At3(v))] == c.ts0[v]
  {
    hide *;
    KindIs(c.nodes0[v].kind);
    StaysThere(c, v);
  }

  lemma {:induction false} RunsThere(c: Compilation, v: Vertex)
    requires c.Valid() && v < |c.ts0| == |c.nodes0| && Runs(c.nodes0[v].kind)
    ensures c.At6(c.At3(v)) < |c.ts6| && c.ts6[c.At6(c.At3(v))] == c.ts0[v]
  {
    hide *;
    KindIs(c.nodes0[v].kind);
    StaysThere(c, v);
  }

  lemma KindIs(kind: TaskType)
    ensures Runs(kind) || kind.XMessage? ==> !kind.XState?
  {
  }


  // What follows a message in a compiled agent is a function that reads it before all others.
  lemma {:induction false} FirstReaderFollows(s: Source, a: Agent, t: Task, d: Task) returns (i: nat)
    requires CompiledAt(s, a) && t in a.tasks && t.taskType.XMessage? && Adjacent(a.tasks, Pairs(a.edges), t, d)
    ensures i < |s.fs| && t.name in s.fs[i].inputs && ReadsFirst(s, a, i, t.name)
    ensures Position(s.fs, i) < |s.c.ts0| && d == s.c.ts0[Position(s.fs, i)]
  {
    hide *;
    CompiledKeeps(s, a);
    var v := MessageComesFrom(s.c, a.tasks, Pairs(a.edges), t);
    var w := MessageVertex(s, a, t);
    StartsFromGraph(s.c, s.fs, s.endStates);
    AllOrdinary(s.fs);
    IsMessageOf(s, v);
    var e := SuccessorTask(s.c, a.tasks, Pairs(a.edges), v, d);
    LabelsCounted(s);
    i := ReaderOf(s.fs, t.name, e);
    NextExactly(s, a, i, t.name);
  }

  lemma LabelsCounted(s: Source)
    requires CompiledFrom(s.c, s.fs, s.endStates)
    ensures |AllLabels(s.fs)| == |s.c.ts0|
  {
    hide AllLabels, AllNodes, StateGraphOf;
  }

  lemma {:induction false} ReaderOf(fs: seq<Function>, m: string, e: Edge) returns (i: nat)
    requires e in StateGraphOf(fs) && e.source == MessageAt(fs, m)
    requires MessageAt(fs, m) < |AllLabels(fs)|
    ensures i < |fs| && m in fs[i].inputs && e.target == Position(fs, i)
  {
    hide AllLabels, StateGraphOf, Position, Find, Links;
    i := LinkFrom(fs, e);
    PlacedIn(fs, i);
    ReadsFrom(AllLabels(fs), fs[i], Position(fs, i), m, e);
  }

  lemma {:induction false} OneAgent(a: Agent)
    ensures AllTasks([a]) == a.tasks && AllEdges([a]) == Pairs(a.edges)
  {
    assert [a] == [] + [a];
    NextTasks([], a);
    forall p: (Vertex, Vertex) ensures p in Behind(0, Pairs(a.edges)) <==> p in Pairs(a.edges) {
      BehindHas(0, Pairs(a.edges), p);
    }
    hide Behind, Pairs;
  }

  // Each message has one task in a compiled agent.
  lemma {:induction false} MessagesOnce(s: Source, a: Agent)
    requires CompiledAt(s, a)
    ensures UsedOnce(LabelsOf(a.tasks))
  {
    hide *;
    CompiledKeeps(s, a);
    forall u: Vertex, v: Vertex | u < |a.tasks| && v < |a.tasks| && a.tasks[u].taskType.XMessage? && LabelsOf(a.tasks)[u] == LabelsOf(a.tasks)[v]
      ensures u == v
    {
      var i := MessageVertex(s, a, a.tasks[u]);
      var j := MessageVertex(s, a, a.tasks[v]);
      DistinctAt(a.tasks, u, v);
    }
    OnceIs(a.tasks);
  }

  lemma OnceIs(ts: seq<Task>)
    requires forall u: Vertex, v: Vertex :: u < |ts| && v < |ts| && ts[u].taskType.XMessage? && LabelsOf(ts)[u] == LabelsOf(ts)[v] ==> u == v
    ensures UsedOnce(LabelsOf(ts))
  {
  }

  // It stands where the functions' graph has it.
  lemma {:induction false} MessageVertex(s: Source, a: Agent, t: Task) returns (v: Vertex)
    requires CompiledAt(s, a) && t in a.tasks && t.taskType.XMessage?
    ensures v == MessageAt(s.fs, t.name) && v < |s.c.ts0| && s.c.ts0[v] == t
  {
    hide *;
    CompiledKeeps(s, a);
    v := MessageComesFrom(s.c, a.tasks, Pairs(a.edges), t);
    AllOrdinary(s.fs);
    IsMessageOf(s, v);
  }

  lemma {:induction false} IsMessageOf(s: Source, v: Vertex)
    requires CompiledFrom(s.c, s.fs, s.endStates) && NamesStay(s.c, AllLabels(s.fs)) && Ordinary(AllLabels(s.fs))
    requires v < |s.c.ts0| == |s.c.nodes0| && s.c.nodes0[v].kind.XMessage?
    ensures v == MessageAt(s.fs, s.c.ts0[v].name)
  {
    MessagesStay(s.c, s.fs, s.endStates);
    hide AllLabels, AllNodes, StateGraphOf, Find, CompiledFrom;
    assert AllLabels(s.fs)[v].kind.XMessage?;
  }

  // --------------------------------------------------------- what clearing waits for

  // Vertex d is function i of agent l, which reads m before all others of the agent.
  ghost predicate ReaderAt(sources: seq<Source>, agents: seq<Agent>, l: nat, i: nat, m: string, d: Vertex)
    requires |sources| == |agents|
  {
    && l < |agents| && i < |sources[l].fs| && m in sources[l].fs[i].inputs && ReadsFirst(sources[l], agents[l], i, m)
    && Position(sources[l].fs, i) < |sources[l].c.ts0|
    && exists y: Vertex :: y < |agents[l].tasks| && d == Offset(agents, l) + y
                           && agents[l].tasks[y] == sources[l].c.ts0[Position(sources[l].fs, i)]
  }

  // By the agents and their messages, r is such a function or comes before one.
  ghost predicate BehindReader(sources: seq<Source>, agents: seq<Agent>, m: string, r: Vertex)
    requires |sources| == |agents|
    reads AllTasks(agents)
  {
    exists l: nat, i: nat, d: Vertex :: ReaderAt(sources, agents, l, i, m, d) && (d == r || Reaches(SharedOrder(agents), r, d))
  }

  ghost predicate IsMessageTask(agents: seq<Agent>, v: Vertex, m: string)
    reads AllTasks(agents)
  {
    v < |AllTasks(agents)| && AllTasks(agents)[v].taskType == XMessage && AllTasks(agents)[v].name == m
  }

  ghost predicate IsOther(agents: seq<Agent>, v: Vertex)
    reads AllTasks(agents)
  {
    v < |AllTasks(agents)| && AllTasks(agents)[v].taskType != XMessage
  }

  lemma TaskIs(agents: seq<Agent>, v: Vertex, t: Task)
    requires v < |AllTasks(agents)| && AllTasks(agents)[v] == t
    ensures IsMessageTask(agents, v, t.name) <==> t.taskType == XMessage
    ensures IsOther(agents, v) <==> t.taskType != XMessage
  {
    hide AllTasks;
  }

  lemma {:induction false} MessageTask(agents: seq<Agent>, k: nat, x: Vertex, m: string)
    requires k < |agents| && x < |agents[k].tasks| && IsMessageTask(agents, Offset(agents, k) + x, m)
    ensures agents[k].tasks[x].taskType == XMessage && agents[k].tasks[x].name == m
  {
    AtOffset(agents, k, x);
    hide AllTasks, Offset;
  }

  // A direct successor of a message of this name is such a function.
  lemma {:induction false} SuccessorReads(sources: seq<Source>, agents: seq<Agent>, p: (Vertex, Vertex), m: string) returns (l: nat, i: nat)
    requires |sources| == |agents| && (forall k :: 0 <= k < |agents| ==> CompiledAt(sources[k], agents[k])) && p in AllEdges(agents)
    requires IsMessageTask(agents, p.0, m)
    ensures ReaderAt(sources, agents, l, i, m, p.1)
  {
    hide *;
    var x, y;
    l, x, y := AgentOfEdge(agents, p);
    var s, a := sources[l], agents[l];
    CompiledKeeps(s, a);
    AgentEdgesInRange(a, x, y);
    MessageTask(agents, l, x, m);
    AdjacentThere(a.tasks, Pairs(a.edges), x, y);
    i := FirstReaderFollows(s, a, a.tasks[x], a.tasks[y]);
    IsReaderAt(sources, agents, l, i, m, y);
  }

  lemma IsReaderAt(sources: seq<Source>, agents: seq<Agent>, l: nat, i: nat, m: string, y: Vertex)
    requires |sources| == |agents| && l < |agents| && i < |sources[l].fs| && m in sources[l].fs[i].inputs
    requires ReadsFirst(sources[l], agents[l], i, m) && Position(sources[l].fs, i) < |sources[l].c.ts0|
    requires y < |agents[l].tasks| && agents[l].tasks[y] == sources[l].c.ts0[Position(sources[l].fs, i)]
    ensures ReaderAt(sources, agents, l, i, m, Offset(agents, l) + y)
  {
    hide ReadsFirst, Position, Offset;
  }

  // And such a function is a direct successor of a message of this name.
  lemma {:induction false} ReaderSucceeds(sources: seq<Source>, agents: seq<Agent>, l: nat, i: nat, m: string, d: Vertex) returns (u: Vertex)
    requires |sources| == |agents| && (forall k :: 0 <= k < |agents| ==> CompiledAt(sources[k], agents[k])) && ReaderAt(sources, agents, l, i, m, d)
    ensures (u, d) in AllEdges(agents) && IsMessageTask(agents, u, m) && IsOther(agents, d)
  {
    hide *;
    var y := ReaderVertex(sources, agents, l, i, m, d);
    var s, a := sources[l], agents[l];
    CompiledKeeps(s, a);
    CompiledAtIs(s, a);
    NextExactly(s, a, i, m);
    MessageNamed(s, a, i, m);
    MessageAtIs(s.fs, m);
    FunctionIsTask(s.c, s.fs, s.endStates, a, i);
    var x, z := AdjacentVertices(a.tasks, Pairs(a.edges), s.c.ts0[MessageAt(s.fs, m)], s.c.ts0[Position(s.fs, i)]);
    DistinctAt(a.tasks, z, y);
    EdgeOfAgent(agents, l, x, y);
    AtOffset(agents, l, x);
    AtOffset(agents, l, y);
    u := Offset(agents, l) + x;
    TaskIs(agents, u, a.tasks[x]);
    TaskIs(agents, d, a.tasks[y]);
  }

  lemma ReaderVertex(sources: seq<Source>, agents: seq<Agent>, l: nat, i: nat, m: string, d: Vertex) returns (y: Vertex)
    requires |sources| == |agents| && ReaderAt(sources, agents, l, i, m, d)
    ensures l < |agents| && i < |sources[l].fs| && m in sources[l].fs[i].inputs && ReadsFirst(sources[l], agents[l], i, m)
    ensures Position(sources[l].fs, i) < |sources[l].c.ts0|
    ensures y < |agents[l].tasks| && d == Offset(agents, l) + y && agents[l].tasks[y] == sources[l].c.ts0[Position(sources[l].fs, i)]
  {
    hide ReadsFirst, Position, Offset;
    y :| y < |agents[l].tasks| && d == Offset(agents, l) + y && agents[l].tasks[y] == sources[l].c.ts0[Position(sources[l].fs, i)];
  }

  // The edges out of a message, once messages of one name are taken for one.
  lemma {:induction false} SharedOut(labels: seq<Label>, D: Edges, v: Vertex, d: Vertex) returns (p: (Vertex, Vertex))
    requires v < |labels| && labels[v].kind.XMessage? && InRange(D, |labels|) && (Canon(labels, v), d) in Shared(labels, D)
    ensures p in D && p.0 < |labels| && p.1 < |labels| && labels[p.0] == labels[v] && Canon(labels, p.1) == d
  {
    hide Canon;
    p :| p in D && (Canon(labels, v), d) == (Canon(labels, p.0), Canon(labels, p.1));
    CanonIs(labels, v);
    CanonIs(labels, p.0);
  }

  lemma {:induction false} SharedIn(labels: seq<Label>, D: Edges, v: Vertex, u: Vertex, d: Vertex)
    requires v < |labels| && u < |labels| && labels[u] == labels[v] && labels[v].kind.XMessage? && (u, d) in D
    requires d < |labels| && !labels[d].kind.XMessage?
    ensures (Canon(labels, v), d) in Shared(labels, D)
  {
    hide Find;
    var f: Vertex -> Vertex := w => Canon(labels, w);
    var e := (u, d);
    assert (f(e.0), f(e.1)) in Image(D, f);
  }

  lemma {:induction false} AllEdgesIn(sources: seq<Source>, agents: seq<Agent>)
    requires |sources| == |agents| && (forall k :: 0 <= k < |agents| ==> CompiledAt(sources[k], agents[k]))
    ensures InRange(AllEdges(agents), |AllTasks(agents)|)
  {
    hide *;
    forall p | p in AllEdges(agents) ensures p.0 < |AllTasks(agents)| && p.1 < |AllTasks(agents)| {
      var k, x, y := AgentOfEdge(agents, p);
      CompiledKeeps(sources[k], agents[k]);
      AgentEdgesInRange(agents[k], x, y);
      AtOffset(agents, k, x);
      AtOffset(agents, k, y);
    }
    RangeOf(AllEdges(agents), |AllTasks(agents)|);
  }

  lemma RangeOf(E: Edges, n: nat)
    requires forall p :: p in E ==> p.0 < n && p.1 < n
    ensures InRange(E, n)
  {
  }

  lemma ReaderIsFunction(sources: seq<Source>, agents: seq<Agent>, l: nat, i: nat, m: string, d: Vertex)
    requires |sources| == |agents| && (forall k :: 0 <= k < |agents| ==> CompiledAt(sources[k], agents[k])) && ReaderAt(sources, agents, l, i, m, d)
    ensures IsOther(agents, d)
  {
    hide *;
    var u := ReaderSucceeds(sources, agents, l, i, m, d);
  }

  lemma {:induction false} BeforeClearExactly(sources: seq<Source>, agents: seq<Agent>, m: string, v: Vertex, r: Vertex)
    requires |sources| == |agents| && (forall k :: 0 <= k < |agents| ==> CompiledAt(sources[k], agents[k]))
    requires IsMessageTask(agents, v, m) && IsOther(agents, r)
    ensures BeforeClear(LabelsOf(AllTasks(agents)), AllEdges(agents), v, r) <==> BehindReader(sources, agents, m, r)
  {
    hide *;
    var labels, D := LabelsOf(AllTasks(agents)), AllEdges(agents);
    AllEdgesIn(sources, agents);
    MessageLabel(agents, v, m);
    OtherLabel(agents, r);
    SharedOrderIs(agents);
    if BeforeClear(labels, D, v, r) {
      var d := ClearWitness(labels, D, v, r);
      var p := SharedOut(labels, D, v, d);
      SameMessage(agents, p.0, v, m);
      var l, i := SuccessorReads(sources, agents, p, m);
      ReaderIsFunction(sources, agents, l, i, m, p.1);
      OtherLabel(agents, p.1);
      IsBehindBy(sources, agents, l, i, m, p.1, r);
    }
    if BehindReader(sources, agents, m, r) {
      var l, i, d := BehindWhich(sources, agents, m, r);
      var u := ReaderSucceeds(sources, agents, l, i, m, d);
      MessageLabel(agents, u, m);
      OtherLabel(agents, d);
      SharedIn(labels, D, v, u, d);
      BeforeClearBy(labels, D, v, r, d);
    }
  }

  lemma MessageLabel(agents: seq<Agent>, v: Vertex, m: string)
    requires IsMessageTask(agents, v, m)
    ensures ghost var labels := LabelsOf(AllTasks(agents)); v < |labels| && labels[v] == Label(XMessage, m)
  {
    hide AllTasks;
  }

  lemma OtherLabel(agents: seq<Agent>, v: Vertex)
    requires IsOther(agents, v)
    ensures ghost var labels := LabelsOf(AllTasks(agents)); v < |labels| && !labels[v].kind.XMessage? && Canon(labels, v) == v
  {
    hide AllTasks, Find;
  }

  lemma SameMessage(agents: seq<Agent>, u: Vertex, v: Vertex, m: string)
    requires ghost var labels := LabelsOf(AllTasks(agents)); u < |labels| && v < |labels| && labels[u] == labels[v]
    requires IsMessageTask(agents, v, m)
    ensures IsMessageTask(agents, u, m)
  {
    hide AllTasks;
  }

  // The functions and conditions that come before c are those readers, and what is before them.
  ghost predicate WaitsExactly(sources: seq<Source>, agents: seq<Agent>, m: string, c: Task, ts: seq<Task>, E: Edges)
    requires |sources| == |agents|
    reads AllTasks(agents)
  {
    forall r: Vertex :: r < |AllTasks(agents)| && Runs(AllTasks(agents)[r].taskType) ==>
      (Ordered(ts, E, AllTasks(agents)[r], c) <==> BehindReader(sources, agents, m, r))
  }

  lemma DoesWait(sources: seq<Source>, agents: seq<Agent>, m: string, c: Task, ts: seq<Task>, E: Edges)
    requires |sources| == |agents|
    requires forall r: Vertex :: r < |AllTasks(agents)| && Runs(AllTasks(agents)[r].taskType) ==>
      (Ordered(ts, E, AllTasks(agents)[r], c) <==> BehindReader(sources, agents, m, r))
    ensures WaitsExactly(sources, agents, m, c, ts, E)
  {
    hide AllTasks, Ordered, BehindReader;
  }

  lemma WaitsFor(sources: seq<Source>, agents: seq<Agent>, m: string, c: Task, ts: seq<Task>, E: Edges, r: Vertex)
    requires |sources| == |agents| && WaitsExactly(sources, agents, m, c, ts, E)
    requires r < |AllTasks(agents)| && Runs(AllTasks(agents)[r].taskType)
    ensures Ordered(ts, E, AllTasks(agents)[r], c) <==> BehindReader(sources, agents, m, r)
  {
    hide AllTasks, Ordered, BehindReader;
  }

  /** Which functions and conditions a message is cleared after, over all agents: those that read
      it with no other reader before them in their agent, and those that the agents and their
      messages put before one of these. */
  lemma {:induction false} ClearWaitsExactly(sources: seq<Source>, agents: seq<Agent>, ts: seq<Task>, E: Edges, v: Vertex) returns (c: Task)
    requires |sources| == |agents| && (forall k :: 0 <= k < |agents| ==> CompiledAt(sources[k], agents[k])) && ClearsAfterExactly(agents, ts, E)
    requires v < |AllTasks(agents)| && AllTasks(agents)[v].taskType == XMessage
    ensures c in ts && c.taskType == XMessageClear && c.name == AllTasks(agents)[v].name
    ensures WaitsExactly(sources, agents, c.name, c, ts, E)
  {
    hide *;
    c := ClearedBy(agents, ts, E, v);
    forall r: Vertex | r < |AllTasks(agents)| && Runs(AllTasks(agents)[r].taskType)
      ensures Ordered(ts, E, AllTasks(agents)[r], c) <==> BehindReader(sources, agents, c.name, r)
    {
      NoMessageRuns(AllTasks(agents)[r].taskType);
      TaskIs(agents, v, AllTasks(agents)[v]);
      TaskIs(agents, r, AllTasks(agents)[r]);
      BeforeClearExactly(sources, agents, c.name, v, r);
      OrderedItself(ts, E, AllTasks(agents)[r], c);
    }
    DoesWait(sources, agents, c.name, c, ts, E);
  }

  lemma NoMessageRuns(kind: TaskType)
    requires Runs(kind)
    ensures kind != XMessage && kind != StartAgent
  {
  }

  lemma OrderedItself(ts: seq<Task>, E: Edges, a: Task, c: Task)
    requires a.taskType != XMessage
    ensures OrderedBefore(ts, E, a, c) <==> Ordered(ts, E, a, c)
  {
    hide Reaches;
    if Ordered(ts, E, a, c) {
      assert a in ts && StandsFor(a, a);
    }
  }

  lemma {:induction false} ClearedBy(agents: seq<Agent>, ts: seq<Task>, E: Edges, v: Vertex) returns (c: Task)
    requires ClearsAfterExactly(agents, ts, E) && v < |AllTasks(agents)| && AllTasks(agents)[v].taskType == XMessage
    ensures c in ts && c.taskType == XMessageClear && c.name == AllTasks(agents)[v].name
    ensures forall r: Vertex :: r < |AllTasks(agents)| && AllTasks(agents)[r].taskType != StartAgent ==>
              (OrderedBefore(ts, E, AllTasks(agents)[r], c) <==> BeforeClear(LabelsOf(AllTasks(agents)), AllEdges(agents), v, r))
  {
    hide AllTasks, AllEdges, OrderedBefore, BeforeClear;
    assert IsInner(agents, v);
    assert ClearedExactly(agents, ts, E, v);
    c :| c in ts && IsClearOf(c, AllTasks(agents)[v]) && forall r: Vertex :: IsInner(agents, r) ==>
      (OrderedBefore(ts, E, AllTasks(agents)[r], c) <==> BeforeClear(LabelsOf(AllTasks(agents)), AllEdges(agents), v, r));
    forall r: Vertex | r < |AllTasks(agents)| && AllTasks(agents)[r].taskType != StartAgent
      ensures OrderedBefore(ts, E, AllTasks(agents)[r], c) <==> BeforeClear(LabelsOf(AllTasks(agents)), AllEdges(agents), v, r)
    {
      assert IsInner(agents, r);
    }
  }

  // ------------------------------------------------------------- a model of one agent

  lemma {:induction false} OneOrder(s: Source, a: Agent)
    requires CompiledAt(s, a)
    ensures AllTasks([a]) == a.tasks && SharedOrder([a]) == Pairs(a.edges) && Offset([a], 0) == 0
  {
    hide *;
    CompiledKeeps(s, a);
    OneAgent(a);
    MessagesOnce(s, a);
    AllEdgesIn([s], [a]);
    SharedOrderIs([a]);
    NothingTakenForOne(LabelsOf(a.tasks), Pairs(a.edges));
    NoOffset(a);
  }

  lemma NoOffset(a: Agent)
    ensures Offset([a], 0) == 0
  {
  }

  lemma SharedOrderIs(agents: seq<Agent>)
    ensures SharedOrder(agents) == Shared(LabelsOf(AllTasks(agents)), AllEdges(agents)) && |LabelsOf(AllTasks(agents))| == |AllTasks(agents)|
  {
  }

  /** In a model of one agent a reader is waited for exactly if no other reader comes before it. */
  lemma {:induction false} ReaderWaitedForExactly(s: Source, a: Agent, m: string, k: nat, ts: seq<Task>, E: Edges) returns (c: Task)
    requires CompiledAt(s, a) && ClearsAfterExactly([a], ts, E) && k < |s.fs| && m in s.fs[k].inputs
    ensures c in ts && c.taskType == XMessageClear && c.name == m
    ensures forall j: nat :: j < |s.fs| && m in s.fs[j].inputs ==>
              Position(s.fs, j) < |s.c.ts0| && (Ordered(ts, E, s.c.ts0[Position(s.fs, j)], c) <==> ReadsFirst(s, a, j, m))
  {
    hide *;
    OneOrder(s, a);
    var t := MessageOf(s, a, k, m);
    OrderedAreThere(a.tasks, Pairs(a.edges), t, s.c.ts0[Position(s.fs, k)]);
    var v: Vertex :| v < |a.tasks| && a.tasks[v] == t;
    c := ClearWaitsExactly([s], [a], ts, E, v);
    forall j: nat | j < |s.fs| && m in s.fs[j].inputs
      ensures Position(s.fs, j) < |s.c.ts0| && (Ordered(ts, E, s.c.ts0[Position(s.fs, j)], c) <==> ReadsFirst(s, a, j, m))
    {
      var u := MessageOf(s, a, j, m);
      OrderedAreThere(a.tasks, Pairs(a.edges), u, s.c.ts0[Position(s.fs, j)]);
      var r: Vertex :| r < |a.tasks| && a.tasks[r] == s.c.ts0[Position(s.fs, j)];
      FunctionRuns(a.tasks[r].taskType);
      WaitsFor([s], [a], m, c, ts, E, r);
      BehindFirst(s, a, m, j, r);
    }
  }

  lemma FunctionRuns(kind: TaskType)
    requires kind == XFunction
    ensures Runs(kind)
  {
  }

  // A reader comes before no first reader but itself.
  lemma {:induction false} BehindFirst(s: Source, a: Agent, m: string, j: nat, r: Vertex)
    requires CompiledAt(s, a) && j < |s.fs| && m in s.fs[j].inputs
    requires Position(s.fs, j) < |s.c.ts0| && r < |a.tasks| && a.tasks[r] == s.c.ts0[Position(s.fs, j)]
    requires AllTasks([a]) == a.tasks && SharedOrder([a]) == Pairs(a.edges) && Offset([a], 0) == 0
    ensures BehindReader([s], [a], m, r) <==> ReadsFirst(s, a, j, m)
  {
    hide *;
    CompiledKeeps(s, a);
    if ReadsFirst(s, a, j, m) {
      IsReaderAt([s], [a], 0, j, m, r);
      IsBehind([s], [a], 0, j, m, r);
    }
    if BehindReader([s], [a], m, r) {
      var l, i, d := BehindWhich([s], [a], m, r);
      var y := ReaderVertex([s], [a], l, i, m, d);
      if i != j {
        PositionsDiffer(s.fs, i, j);
        FunctionStarts(s.c, s.fs, s.endStates, i);
        TasksDiffer(s.c, Position(s.fs, i), Position(s.fs, j));
        AdjacentThere(a.tasks, Pairs(a.edges), r, d);
        ReaderGone(s, a, j, i, m);
        PrecedesWhere(s.c, s.fs, j, i, a.tasks, Pairs(a.edges));
      }
    }
  }

  lemma {:induction false} TasksDiffer(c: Compilation, u: Vertex, v: Vertex)
    requires c.Valid() && u < |c.ts0| && v < |c.ts0| && u != v
    ensures c.ts0[u] != c.ts0[v]
  {
    hide Compilation.Contracts, Compilation.Outputs, StateGraphKinds, InRange, Acyclic, Pairs, MessagesLeadToRuns;
  }

  lemma IsBehindBy(sources: seq<Source>, agents: seq<Agent>, l: nat, i: nat, m: string, d: Vertex, r: Vertex)
    requires |sources| == |agents| && ReaderAt(sources, agents, l, i, m, d) && (d == r || Reaches(SharedOrder(agents), r, d))
    ensures BehindReader(sources, agents, m, r)
  {
    hide ReaderAt, Reaches, SharedOrder;
  }

  lemma IsBehind(sources: seq<Source>, agents: seq<Agent>, l: nat, i: nat, m: string, d: Vertex)
    requires |sources| == |agents| && ReaderAt(sources, agents, l, i, m, d)
    ensures BehindReader(sources, agents, m, d)
  {
    hide ReaderAt, Reaches, SharedOrder;
  }

  lemma BehindWhich(sources: seq<Source>, agents: seq<Agent>, m: string, r: Vertex) returns (l: nat, i: nat, d: Vertex)
    requires |sources| == |agents| && BehindReader(sources, agents, m, r)
    ensures ReaderAt(sources, agents, l, i, m, d) && (d == r || Reaches(SharedOrder(agents), r, d))
  {
    hide ReaderAt, Reaches, SharedOrder;
    l, i, d :| ReaderAt(sources, agents, l, i, m, d) && (d == r || Reaches(SharedOrder(agents), r, d));
  }
}
