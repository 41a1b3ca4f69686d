/** Agents that wait for each other: each of them is fine by itself, and their model has
    a cycle. */
module Deadlock {
  import opened Digraph
  import opened DataFlow
  import opened TaskGraph
  import opened Tasks
  import opened AgentGraph
  import opened ModelGraph
  import opened XGraphs
  import opened ModelXGraph
  import opened XMachines
  import opened StateGraphs
  import opened AgentCompiler
  import opened CompiledModel

  lemma {:induction false} FirstOfTwo(s: Source, i: nat, r: Source, j: nat, m: string, ts: seq<Task>, E: Edges)
    requires PostsReach(s, r, ts, E) && i < |s.fs| && j < |r.fs| && m in s.fs[i].outputs && m in r.fs[j].inputs
    ensures Position(s.fs, i) < |s.c.ts0| && Position(r.fs, j) < |r.c.ts0|
    ensures Ordered(ts, E, s.c.ts0[Position(s.fs, i)], r.c.ts0[Position(r.fs, j)])
  {
    hide Ordered, Position;
    assert ComesFirst(s, i, r, j, ts, E);
  }

  lemma {:induction false} PostsReachBoth(sources: seq<Source>, agents: seq<Agent>, ts: seq<Task>, E: Edges, k: nat, l: nat)
    requires |sources| == |agents| && KeepsModel(sources, agents, ts, E) && k < |agents| && l < |agents|
    ensures PostsReach(sources[k], sources[l], ts, E) && PostsReach(sources[l], sources[k], ts, E)
  {
    hide KeepsAgent, PostsReach, ReadersWaitedFor;
  }

  // Where two functions each read what the other posts, the model has a cycle, whatever
  // agents they are of.
  lemma {:induction false} WaitingForEachOther(sources: seq<Source>, agents: seq<Agent>, ts: seq<Task>, E: Edges,
                                               k: nat, i: nat, l: nat, j: nat, m: string, m': string)
    requires |sources| == |agents| && KeepsModel(sources, agents, ts, E) && Distinct(ts)
    requires k < |agents| && l < |agents| && i < |sources[k].fs| && j < |sources[l].fs|
    requires m in sources[k].fs[i].outputs && m in sources[l].fs[j].inputs
    requires m' in sources[l].fs[j].outputs && m' in sources[k].fs[i].inputs
    ensures !Acyclic(E)
  {
    hide *;
    PostsReachBoth(sources, agents, ts, E, k, l);
    var s, r := sources[k], sources[l];
    FirstOfTwo(s, i, r, j, m, ts, E);
    FirstOfTwo(r, j, s, i, m', ts, E);
    BothWaysIsCycle(ts, E, s.c.ts0[Position(s.fs, i)], r.c.ts0[Position(r.fs, j)]);
  }

  // ------------------------------------------------------------- agents of one function

  // What comes before the function, itself, and what comes after it.
  function Rank3(labels: seq<Label>, f: Function, p: Vertex, v: Vertex): int
    requires v < |labels|
  {
    if v == p then 1
    else if labels[v] == Label(XState, f.currentState) || (labels[v].kind == XMessage && labels[v].name in f.inputs) then 0
    else 2
  }

  lemma {:induction false} LinkRises(labels: seq<Label>, f: Function, p: Vertex, e: Edge)
    requires Placed(labels, f, p) && e in Links(labels, f, p)
    requires f.currentState != f.nextState && forall m :: m in f.outputs ==> m !in f.inputs
    ensures e.source < |labels| && e.target < |labels|
    ensures Rank3(labels, f, p, e.source) < Rank3(labels, f, p, e.target)
  {
    hide Find;
  }

  lemma {:induction false} OneFunctionValid(f: Function)
    requires f.currentState != f.nextState && forall m :: m in f.outputs ==> m !in f.inputs
    ensures StatesValid([f])
  {
    var fs := [f];
    var labels, p := AllLabels(fs), Position(fs, 0);
    var rank := map v: Vertex | v < |labels| :: Rank3(labels, f, p, v);
    hide AllLabels, StateGraphOf, Position, Rank3, Links, Known, Acyclic;
    forall q: (Vertex, Vertex) | q in Pairs(StateGraphOf(fs)) ensures q.0 in rank && q.1 in rank && rank[q.0] < rank[q.1] {
      var e :| e in StateGraphOf(fs) && q == (e.source, e.target);
      var j := LinkFrom(fs, e);
      PlacedIn(fs, j);
      LinkRises(labels, f, p, e);
    }
    RankedAcyclic(Pairs(StateGraphOf(fs)), rank);
    assert CurrentStates(fs) - NextStates(fs) == {f.currentState};
  }

  // Each posts what the other reads.
  function Ask(): Function { Function("ask", "0", "1", Always, [], [], ["p"], ["q"]) }
  function Answer(): Function { Function("answer", "0", "1", Always, [], [], ["q"], ["p"]) }

  lemma {:induction false} AskAndAnswer(sources: seq<Source>, agents: seq<Agent>, ts: seq<Task>, E: Edges)
    requires |sources| == |agents| == 2 && KeepsModel(sources, agents, ts, E) && AllValid(ts)
    requires sources[0].fs == [Ask()] && sources[1].fs == [Answer()]
    ensures !Acyclic(E)
  {
    hide KeepsModel, Acyclic;
    assert "p" in Ask().outputs && "p" in Answer().inputs && "q" in Answer().outputs && "q" in Ask().inputs;
    WaitingForEachOther(sources, agents, ts, E, 0, 0, 1, 0, "p", "q");
  }

  lemma BothValid()
    ensures StatesValid([Ask()]) && StatesValid([Answer()])
  {
    hide StatesValid;
    assert "0" != "1" && "p" != "q";
    OneFunctionValid(Ask());
    OneFunctionValid(Answer());
  }

  lemma Two<T>(x: T, y: T)
    requires x != y
    ensures Separate([x, y])
  {
  }

  /** The whole way: both agents pass their checks and compile, and the graph of the model has
      a cycle. */
  method AgentsCanDeadlock(hasCycle: CycleFinder, sort: Sorter, reduce: Reducer) returns (errors: nat, model: XGraph)
    requires FindsCycles(hasCycle) && SortsTopologically(sort) && ReducesTransitively(reduce)
    ensures errors == 0 && !Acyclic(Pairs(model.edges))
  {
    hide *;
    BothValid();
    var asking := new XMachine([Ask()]);
    var answering := new XMachine([Answer()]);
    var g := new XGraph("asking");
    var h := new XGraph("answering");
    model := new XGraph("model");
    Two(asking, answering);
    Two(g, h);
    IsNew(g);
    IsNew(h);
    IsNew(model);
    ghost var sources;
    errors, sources := CompileModel([asking, answering], [g, h], [[], []], model, hasCycle, sort, reduce);
    assert [asking, answering][0].functions == [Ask()] && [asking, answering][1].functions == [Answer()];
    AskAndAnswer(sources, AgentsOf([g, h]), model.vertex2task, Pairs(model.edges));
  }

  lemma IsNew(g: XGraph)
    requires g.vertex2task == [] && g.edges == {} && g.startTask == null && g.endTasks == {}
    ensures NewGraph(g)
  {
  }
}
