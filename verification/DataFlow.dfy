/** What the one-pass data dependency analysis of an agent's state graph means:
    last writers and last readers over all paths, and the data edges they give. */
module DataFlow {
  import opened Digraph

  datatype TaskType =
    | XFunction | XState | XMessageSync | XMessageClear | IoPopWrite
    | StartAgent | FinishAgent | XCondition | XVariable
    | StartModel | FinishModel | XMessage

  // What the analysis looks at in a task.
  datatype Node = Node(kind: TaskType, readVars: set<string>, writeVars: set<string>)

  // The task types that addDataDependencies processes.
  predicate Analysed(kind: TaskType) {
    kind.XFunction? || kind.XCondition? || kind.StartAgent? || kind.FinishAgent?
  }

  predicate Writes(nodes: seq<Node>, v: Vertex, x: string) {
    v < |nodes| && x in nodes[v].writeVars
  }

  predicate Reads(nodes: seq<Node>, v: Vertex, x: string) {
    v < |nodes| && x in nodes[v].readVars
  }

  predicate IsFlowEdge(nodes: seq<Node>, e: (Vertex, Vertex)) {
    && e.0 < |nodes| && e.1 < |nodes|
    && Analysed(nodes[e.0].kind) && Analysed(nodes[e.1].kind)
  }

  // The edges along which the analysis carries facts: both ends are processed.
  // Message vertices are not, so nothing flows through them.
  function FlowEdges(nodes: seq<Node>, E: Edges): Edges {
    set e | e in E && IsFlowEdge(nodes, e)
  }

  // "v comes later than u in some run of the agent's state machine".
  ghost predicate Before(nodes: seq<Node>, E: Edges, u: Vertex, v: Vertex) {
    Reaches(FlowEdges(nodes, E), u, v)
  }

  ghost predicate ConflictOn(nodes: seq<Node>, u: Vertex, v: Vertex, x: string) {
    || (Writes(nodes, u, x) && (Reads(nodes, v, x) || Writes(nodes, v, x)))
    || (Reads(nodes, u, x) && Writes(nodes, v, x))
  }

  ghost predicate Conflict(nodes: seq<Node>, u: Vertex, v: Vertex) {
    exists x :: ConflictOn(nodes, u, v, x)
  }

  // No vertex strictly inside p writes x.
  ghost predicate Untouched(nodes: seq<Node>, p: seq<Vertex>, x: string) {
    forall i :: 0 < i < |p| - 1 ==> !Writes(nodes, p[i], x)
  }

  ghost predicate ClearPath(nodes: seq<Node>, E: Edges, p: seq<Vertex>, w: Vertex, v: Vertex, x: string) {
    PathFromTo(FlowEdges(nodes, E), p, w, v) && Untouched(nodes, p, x)
  }

  // Some run goes from w to v with no other writer of x strictly between.
  ghost predicate Arrives(nodes: seq<Node>, E: Edges, w: Vertex, v: Vertex, x: string) {
    exists p :: ClearPath(nodes, E, p, w, v, x)
  }

  // w may be the last writer (the last reader since a write) of x when v starts.
  ghost predicate LastWriterAt(nodes: seq<Node>, E: Edges, w: Vertex, v: Vertex, x: string) {
    Writes(nodes, w, x) && Arrives(nodes, E, w, v, x)
  }

  ghost predicate LastReaderAt(nodes: seq<Node>, E: Edges, r: Vertex, v: Vertex, x: string) {
    Reads(nodes, r, x) && Arrives(nodes, E, r, v, x)
  }

  // The same two facts once v has run.
  ghost predicate LastWriterAfter(nodes: seq<Node>, E: Edges, w: Vertex, v: Vertex, x: string) {
    if Writes(nodes, v, x) then w == v else LastWriterAt(nodes, E, w, v, x)
  }

  ghost predicate LastReaderAfter(nodes: seq<Node>, E: Edges, r: Vertex, v: Vertex, x: string) {
    || (Reads(nodes, v, x) && r == v)
    || (!Writes(nodes, v, x) && LastReaderAt(nodes, E, r, v, x))
  }

  // The data edges: v waits for the last writers of what it reads and for the
  // last readers of what it writes.
  ghost predicate DataDependency(nodes: seq<Node>, E: Edges, w: Vertex, v: Vertex) {
    && w != v
    && exists x :: || (Reads(nodes, v, x) && LastWriterAt(nodes, E, w, v, x))
                   || (Writes(nodes, v, x) && LastReaderAt(nodes, E, w, v, x))
  }

  ghost function DataEdges(nodes: seq<Node>, E: Edges): Edges {
    set w, v | 0 <= w < |nodes| && 0 <= v < |nodes| && DataDependency(nodes, E, w, v) :: (w, v)
  }

  // A task that writes a variable also reads it, except the start task, which
  // nothing precedes.
  ghost predicate WritersRead(nodes: seq<Node>, E: Edges) {
    forall e :: e in FlowEdges(nodes, E) ==> nodes[e.1].writeVars <= nodes[e.1].readVars
  }

  ghost predicate WellFormed(nodes: seq<Node>, E: Edges) {
    && InRange(E, |nodes|)
    && Acyclic(E)
    && WritersRead(nodes, E)
  }

  // ------------------------------------------------- one step of the analysis

  // The facts that hold on entry to v are those that hold after one of the
  // vertices with an edge to v: the union the one-pass analysis computes.
  lemma ArrivesStep(nodes: seq<Node>, E: Edges, w: Vertex, v: Vertex, x: string)
    ensures Arrives(nodes, E, w, v, x) <==>
            exists u :: (u, v) in FlowEdges(nodes, E)
                        && (u == w || (!Writes(nodes, u, x) && Arrives(nodes, E, w, u, x)))
  {
    var F := FlowEdges(nodes, E);
    if Arrives(nodes, E, w, v, x) {
      var p :| ClearPath(nodes, E, p, w, v, x);
      var u := p[|p| - 2];
      assert Link(F, p, |p| - 2);
      assert (u, v) in F;
      if |p| > 2 {
        Slice(F, p, 0, |p| - 2);
        assert ClearPath(nodes, E, p[0..|p| - 1], w, u, x);
      }
    }
    if u :| (u, v) in F && (u == w || (!Writes(nodes, u, x) && Arrives(nodes, E, w, u, x))) {
      assert Link(F, [u, v], 0);
      if u == w {
        assert ClearPath(nodes, E, [u, v], w, v, x);
      } else {
        var p :| ClearPath(nodes, E, p, w, u, x);
        JoinPaths(F, p, [u, v]);
        assert p + [u, v][1..] == p + [v];
        assert ClearPath(nodes, E, p + [v], w, v, x);
      }
    }
  }

  lemma LastWriterStep(nodes: seq<Node>, E: Edges, w: Vertex, v: Vertex, x: string)
    ensures LastWriterAt(nodes, E, w, v, x) <==>
            exists u :: (u, v) in FlowEdges(nodes, E) && LastWriterAfter(nodes, E, w, u, x)
  {
    ArrivesStep(nodes, E, w, v, x);
  }

  lemma LastReaderStep(nodes: seq<Node>, E: Edges, r: Vertex, v: Vertex, x: string)
    ensures LastReaderAt(nodes, E, r, v, x) <==>
            exists u :: (u, v) in FlowEdges(nodes, E) && LastReaderAfter(nodes, E, r, u, x)
  {
    ArrivesStep(nodes, E, r, v, x);
    if u :| (u, v) in FlowEdges(nodes, E) && LastReaderAfter(nodes, E, r, u, x) {
    }
  }

  // ------------------------------------------------------- what the edges mean

  // Every data edge joins two conflicting tasks in the order of the state graph.
  lemma DataEdgeIsOrderedConflict(nodes: seq<Node>, E: Edges, e: (Vertex, Vertex))
    requires e in DataEdges(nodes, E)
    ensures Before(nodes, E, e.0, e.1) && Conflict(nodes, e.0, e.1)
  {
    var x :| || (Reads(nodes, e.1, x) && LastWriterAt(nodes, E, e.0, e.1, x))
             || (Writes(nodes, e.1, x) && LastReaderAt(nodes, E, e.0, e.1, x));
    var p :| ClearPath(nodes, E, p, e.0, e.1, x);
    assert ConflictOn(nodes, e.0, e.1, x);
  }

  // Adding the data edges introduces no cycle.
  lemma DataEdgesKeepAcyclic(nodes: seq<Node>, E: Edges)
    requires Acyclic(E)
    ensures Acyclic(E + DataEdges(nodes, E))
  {
    var D := E + DataEdges(nodes, E);
    forall e | e in D ensures Reaches(E, e.0, e.1) {
      if e in E {
        EdgeReaches(E, e.0, e.1);
      } else {
        DataEdgeIsOrderedConflict(nodes, E, e);
        Monotone(FlowEdges(nodes, E), E, e.0, e.1);
      }
    }
    forall v ensures !Reaches(D, v, v) {
      if Reaches(D, v, v) {
        LiftReaches(D, E, v, v);
      }
    }
  }

  lemma EarlierIsOther(nodes: seq<Node>, E: Edges, u: Vertex, v: Vertex)
    requires WellFormed(nodes, E) && Before(nodes, E, u, v)
    ensures u != v && u < |nodes| && v < |nodes|
    ensures nodes[v].writeVars <= nodes[v].readVars
  {
    Monotone(FlowEdges(nodes, E), E, u, v);
    ReachesInRange(E, |nodes|, u, v);
    var m := LastEdge(FlowEdges(nodes, E), u, v);
    assert (m, v) in FlowEdges(nodes, E);
  }

  // The last vertex strictly inside p that writes x, or 0 if there is none.
  ghost function LastWriteIndex(nodes: seq<Node>, p: seq<Vertex>, x: string, n: nat): (i: nat)
    requires n < |p|
    ensures i <= n
    ensures i > 0 ==> Writes(nodes, p[i], x)
    ensures forall k :: i < k <= n ==> !Writes(nodes, p[k], x)
  {
    if n == 0 || Writes(nodes, p[n], x) then n else LastWriteIndex(nodes, p, x, n - 1)
  }

  lemma {:induction false} OrderKeptOnPath(nodes: seq<Node>, E: Edges, p: seq<Vertex>, x: string)
    requires WellFormed(nodes, E) && IsPath(FlowEdges(nodes, E), p)
    requires ConflictOn(nodes, p[0], p[|p| - 1], x)
    ensures Reaches(DataEdges(nodes, E), p[0], p[|p| - 1])
    decreases |p|
  {
    var F, D := FlowEdges(nodes, E), DataEdges(nodes, E);
    var u, v := p[0], p[|p| - 1];
    assert PathFromTo(F, p, u, v);
    EarlierIsOther(nodes, E, u, v);
    var i := LastWriteIndex(nodes, p, x, |p| - 2);
    if i == 0 {
      assert ClearPath(nodes, E, p, u, v, x);
      assert Arrives(nodes, E, u, v, x);
      assert DataDependency(nodes, E, u, v);
      EdgeReaches(D, u, v);
    } else {
      // The writer nearest to v waits for u and v waits for it.
      Slice(F, p, 0, i);
      Slice(F, p, i, |p| - 1);
      var q := p[i..|p| - 1 + 1];
      EarlierIsOther(nodes, E, u, p[i]);
      EarlierIsOther(nodes, E, p[i], v);
      OrderKeptOnPath(nodes, E, p[0..i + 1], x);
      forall k | 0 < k < |q| - 1 ensures !Writes(nodes, q[k], x) {
        assert q[k] == p[i + k];
      }
      assert ClearPath(nodes, E, q, p[i], v, x);
      assert LastWriterAt(nodes, E, p[i], v, x);
      assert Reads(nodes, v, x);
      assert DataDependency(nodes, E, p[i], v);
      EdgeReaches(D, p[i], v);
      Transitive(D, u, p[i], v);
    }
  }

  // The order of two conflicting accesses survives in the data edges alone.
  lemma OrderKept(nodes: seq<Node>, E: Edges, u: Vertex, v: Vertex)
    requires WellFormed(nodes, E) && Before(nodes, E, u, v) && Conflict(nodes, u, v)
    ensures Reaches(DataEdges(nodes, E), u, v)
  {
    var p :| PathFromTo(FlowEdges(nodes, E), p, u, v);
    var x :| ConflictOn(nodes, u, v, x);
    OrderKeptOnPath(nodes, E, p, x);
  }

  // The pairs the state graph orders and that must stay ordered.
  ghost function OrderedConflicts(nodes: seq<Node>, E: Edges): Edges {
    set u, v | 0 <= u < |nodes| && 0 <= v < |nodes|
               && Before(nodes, E, u, v) && Conflict(nodes, u, v) :: (u, v)
  }

  // The data edges order exactly what the ordered conflicts force, no more and
  // no less.
  lemma DataOrderExact(nodes: seq<Node>, E: Edges, u: Vertex, v: Vertex)
    requires WellFormed(nodes, E)
    ensures Reaches(DataEdges(nodes, E), u, v) <==> Reaches(OrderedConflicts(nodes, E), u, v)
  {
    var D, C := DataEdges(nodes, E), OrderedConflicts(nodes, E);
    forall e | e in D ensures Reaches(C, e.0, e.1) {
      DataEdgeIsOrderedConflict(nodes, E, e);
      assert e == (e.0, e.1);
      EdgeReaches(C, e.0, e.1);
    }
    forall e | e in C ensures Reaches(D, e.0, e.1) {
      OrderKept(nodes, E, e.0, e.1);
    }
    if Reaches(D, u, v) {
      LiftReaches(D, C, u, v);
    }
    if Reaches(C, u, v) {
      LiftReaches(C, D, u, v);
    }
  }

  // Behind a write there is always a last one, and it waits for the first.
  lemma LastWriterCovers(nodes: seq<Node>, E: Edges, u: Vertex, v: Vertex, x: string) returns (w: Vertex)
    requires WellFormed(nodes, E) && Before(nodes, E, u, v) && Writes(nodes, u, x)
    ensures LastWriterAt(nodes, E, w, v, x)
    ensures w == u || Reaches(DataEdges(nodes, E), u, w)
  {
    var F := FlowEdges(nodes, E);
    var p :| PathFromTo(F, p, u, v);
    var i := LastWriteIndex(nodes, p, x, |p| - 2);
    w := p[i];
    Slice(F, p, i, |p| - 1);
    var q := p[i..|p| - 1 + 1];
    forall k | 0 < k < |q| - 1 ensures !Writes(nodes, q[k], x) {
      assert q[k] == p[i + k];
    }
    assert ClearPath(nodes, E, q, w, v, x);
    if i > 0 {
      Slice(F, p, 0, i);
      assert Before(nodes, E, u, w) && ConflictOn(nodes, u, w, x);
      OrderKept(nodes, E, u, w);
    }
  }
}
