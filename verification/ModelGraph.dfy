/** The task graph of the whole model: agents side by side, one synchronisation and
    one clearing task for every message in place of the agents' own messages. */
module ModelGraph {
  import opened Digraph
  import opened DataFlow
  import opened TaskGraph

  datatype Label = Label(kind: TaskType, name: string)

  // ------------------------------------------------- what reduction leaves

  // An edge survives the transitive reduction of an acyclic graph exactly when
  // no other successor of its source leads to its target.
  lemma EdgeSurvivesReduction(n: nat, E: Edges, to: seq<Vertex>, R: Edges, m: Vertex, r: Vertex)
    requires InRange(E, n) && Acyclic(E) && IsTransitiveReduction(n, E, to, R) && (m, r) in E
    ensures (to[m], to[r]) in R <==> forall d :: (m, d) in E && d != r ==> !Reaches(E, d, r)
  {
    EdgeReaches(E, m, r);
    assert (m, r).0 < n && (m, r).1 < n;
    if forall d :: (m, d) in E && d != r ==> !Reaches(E, d, r) {
      DirectEdgeStays(n, E, to, R, m, r);
    }
    if d :| (m, d) in E && d != r && Reaches(E, d, r) {
      IndirectEdgeGoes(n, E, to, R, m, d, r);
    }
  }

  lemma DirectEdgeStays(n: nat, E: Edges, to: seq<Vertex>, R: Edges, m: Vertex, r: Vertex)
    requires InRange(E, n) && Acyclic(E) && IsTransitiveReduction(n, E, to, R) && m < n && r < n
    requires (m, r) in E && Reaches(E, m, r)
    requires forall d :: (m, d) in E && d != r ==> !Reaches(E, d, r)
    ensures (to[m], to[r]) in R
  {
    assert Reaches(R, to[m], to[r]);
    var x := FirstEdge(R, to[m], to[r]);
    var e :| e in E && e.0 < n && e.1 < n && (to[m], x) == (to[e.0], to[e.1]);
    assert e.0 == m;
    assert e == (m, e.1);
    assert Reaches(R, to[e.1], to[r]) <==> Reaches(E, e.1, r);
  }

  lemma IndirectEdgeGoes(n: nat, E: Edges, to: seq<Vertex>, R: Edges, m: Vertex, d: Vertex, r: Vertex)
    requires InRange(E, n) && Acyclic(E) && IsTransitiveReduction(n, E, to, R) && m < n && r < n
    requires (m, d) in E && d != r && Reaches(E, d, r)
    ensures (to[m], to[r]) !in R
  {
    EdgeReaches(E, m, d);
    ReachesInRange(E, n, d, r);
    var p := (to[m], to[r]);
    assert Reaches(R, to[m], to[d]) && Reaches(R, to[d], to[r]);
    if p in R {
      var a :| PathFromTo(R, a, to[m], to[d]);
      var b :| PathFromTo(R, b, to[d], to[r]);
      PathAroundEdge(R, p, a);
      PathAroundEdge(R, p, b);
      // Neither half can use the edge: that would close a cycle through d.
      NoCycleThrough(n, E, to, R, m, d, r);
      Transitive(R - {p}, to[m], to[d], to[r]);
    }
  }

  lemma NoCycleThrough(n: nat, E: Edges, to: seq<Vertex>, R: Edges, m: Vertex, d: Vertex, r: Vertex)
    requires Acyclic(E) && IsTransitiveReduction(n, E, to, R) && m < n && d < n && r < n
    requires Reaches(E, m, d) && Reaches(E, d, r) && d != r
    ensures !Reaches(R, to[r], to[d]) && !Reaches(R, to[d], to[m]) && to[r] != to[d] && to[d] != to[m]
  {
    if Reaches(E, r, d) { Transitive(E, d, r, d); }
    if Reaches(E, d, m) { Transitive(E, m, d, m); }
    assert Reaches(R, to[r], to[d]) <==> Reaches(E, r, d);
    assert Reaches(R, to[d], to[m]) <==> Reaches(E, d, m);
    assert d != m;
  }

  // --------------------------------------------------------------- messages

  // The position of the first task of this type and name, or the number of tasks.
  function Find(labels: seq<Label>, kind: TaskType, name: string): (v: Vertex)
    ensures v <= |labels|
    ensures v < |labels| ==> labels[v] == Label(kind, name)
    ensures forall i :: 0 <= i < v ==> labels[i] != Label(kind, name)
  {
    if labels == [] then 0
    else if labels[0] == Label(kind, name) then 0
    else 1 + Find(labels[1..], kind, name)
  }

  // Where the edges of v are led once the messages below k are done: to the
  // synchronisation task of the same name.
  function Redirect(labels: seq<Label>, k: nat, v: Vertex): Vertex {
    if v < k && v < |labels| && labels[v].kind.XMessage? then Find(labels, XMessageSync, labels[v].name) else v
  }

  // Every in-edge of m also leads to s and every out-edge also leaves s.
  function Rewired(E: Edges, m: Vertex, s: Vertex): Edges {
    E + (set e | e in E && e.1 == m :: (e.0, s)) + (set e | e in E && e.0 == m :: (s, e.1))
  }

  ghost predicate Stands(labels: seq<Label>, k: nat, x: Vertex, a: Vertex) {
    x == a || x == Redirect(labels, k, a)
  }

  // (x, y) stands for some edge of E0.
  ghost predicate Covers(E0: Edges, labels: seq<Label>, k: nat, x: Vertex, y: Vertex) {
    exists e: (Vertex, Vertex) :: e in E0 && Stands(labels, k, x, e.0) && Stands(labels, k, y, e.1)
  }

  // Each end of an edge stands both for itself and for where it was led.
  ghost predicate IsDoubled(E0: Edges, labels: seq<Label>, k: nat, E: Edges) {
    forall x: Vertex, y: Vertex :: (x, y) in E <==> Covers(E0, labels, k, x, y)
  }

  lemma FindStable(labels: seq<Label>, more: seq<Label>, kind: TaskType, name: string)
    requires Find(labels, kind, name) < |labels|
    ensures Find(labels + more, kind, name) == Find(labels, kind, name)
  {
    var v, w := Find(labels, kind, name), Find(labels + more, kind, name);
    assert (labels + more)[v] == labels[v];
    assert w <= v;
    assert (labels + more)[w] == labels[w];
  }

  // What holds of the graph when the messages below k have been rewired.
  ghost predicate SyncProgress(labels0: seq<Label>, E0: Edges, k: nat, labels: seq<Label>, E: Edges) {
    && k <= |labels| && labels0 <= labels
    && (forall v :: 0 <= v < |labels0| ==> !labels0[v].kind.XMessageSync?)
    && (forall v :: |labels0| <= v < |labels| ==> labels[v].kind.XMessageSync?)
    && (forall v, w :: |labels0| <= v < w < |labels| ==> labels[v].name != labels[w].name)
    && (forall v :: 0 <= v < k && labels[v].kind.XMessage? ==> Find(labels, XMessageSync, labels[v].name) < |labels|)
    && (forall v :: |labels0| <= v < |labels| ==>
          exists m :: 0 <= m < |labels0| && m < k && labels0[m] == Label(XMessage, labels[v].name))
    && InRange(E0, |labels0|) && Acyclic(E0)
    && IsDoubled(E0, labels, k, E)
  }

  lemma RedirectStable(labels: seq<Label>, more: seq<Label>, k: nat, v: Vertex)
    requires k <= |labels|
    requires forall i :: 0 <= i < k && labels[i].kind.XMessage? ==> Find(labels, XMessageSync, labels[i].name) < |labels|
    ensures Redirect(labels + more, k, v) == Redirect(labels, k, v)
  {
    if v < k && labels[v].kind.XMessage? {
      FindStable(labels, more, XMessageSync, labels[v].name);
    }
  }

  // Appending the missing synchronisation task changes nothing so far.
  lemma SyncAppended(labels0: seq<Label>, E0: Edges, k: nat, labels: seq<Label>, E: Edges, name: string)
    requires SyncProgress(labels0, E0, k, labels, E)
    ensures ghost var l := Label(XMessageSync, name); IsDoubled(E0, labels + [l], k, E)
  {
    var more := labels + [Label(XMessageSync, name)];
    forall x: Vertex, a: Vertex ensures Stands(more, k, x, a) <==> Stands(labels, k, x, a) {
      RedirectStable(labels, [Label(XMessageSync, name)], k, a);
    }
    hide Stands, Find, Redirect;
    assert IsDoubled(E0, labels, k, E);
    forall x: Vertex, y: Vertex ensures Covers(E0, more, k, x, y) <==> Covers(E0, labels, k, x, y) {
      if Covers(E0, more, k, x, y) {
        var e: (Vertex, Vertex) :| e in E0 && Stands(more, k, x, e.0) && Stands(more, k, y, e.1);
        assert Stands(labels, k, x, e.0) && Stands(labels, k, y, e.1);
      }
      if Covers(E0, labels, k, x, y) {
        var e: (Vertex, Vertex) :| e in E0 && Stands(labels, k, x, e.0) && Stands(labels, k, y, e.1);
        assert Stands(more, k, x, e.0) && Stands(more, k, y, e.1);
      }
    }
    forall x: Vertex, y: Vertex ensures (x, y) in E <==> Covers(E0, more, k, x, y) {
      assert (x, y) in E <==> Covers(E0, labels, k, x, y);
      assert Covers(E0, more, k, x, y) <==> Covers(E0, labels, k, x, y);
    }
  }

  lemma RedirectStep(labels: seq<Label>, m: nat, v: Vertex)
    requires m < |labels| && labels[m].kind.XMessage?
    ensures Redirect(labels, m + 1, v) ==
            if v == m then Find(labels, XMessageSync, labels[m].name) else Redirect(labels, m, v)
  {
  }

  // One pass of the loop, the synchronisation task being there.
  lemma RewiredDoubles(E0: Edges, labels: seq<Label>, m: nat, E: Edges)
    requires m < |labels| && labels[m].kind.XMessage? && (m, m) !in E0 && IsDoubled(E0, labels, m, E)
    requires forall v :: 0 <= v < |labels| && v != m ==> Redirect(labels, m, v) != m
    requires InRange(E0, |labels|)
    ensures IsDoubled(E0, labels, m + 1, Rewired(E, m, Find(labels, XMessageSync, labels[m].name)))
  {
    var R := Rewired(E, m, Find(labels, XMessageSync, labels[m].name));
    hide Rewired, Find, Covers, Redirect;
    forall x: Vertex, y: Vertex ensures (x, y) in R <==> Covers(E0, labels, m + 1, x, y) {
      RewiredOnlyCovers(E0, labels, m, E, x, y);
      RewiredCovers(E0, labels, m, E, x, y);
    }
  }

  lemma RewiredCovers(E0: Edges, labels: seq<Label>, m: nat, E: Edges, x: Vertex, y: Vertex)
    requires m < |labels| && labels[m].kind.XMessage? && (m, m) !in E0 && IsDoubled(E0, labels, m, E)
    ensures Covers(E0, labels, m + 1, x, y) ==> (x, y) in Rewired(E, m, Find(labels, XMessageSync, labels[m].name))
  {
    if !Covers(E0, labels, m + 1, x, y) { return; }
    var e: (Vertex, Vertex) :| e in E0 && Stands(labels, m + 1, x, e.0) && Stands(labels, m + 1, y, e.1);
    RedirectStep(labels, m, e.0);
    RedirectStep(labels, m, e.1);
    if e.0 == m && x != m {
      assert Stands(labels, m, m, e.0) && Stands(labels, m, y, e.1);
      assert Covers(E0, labels, m, m, y) && (m, y) in E;
    } else if e.1 == m && y != m {
      assert Stands(labels, m, x, e.0) && Stands(labels, m, m, e.1);
      assert Covers(E0, labels, m, x, m) && (x, m) in E;
    } else {
      assert Stands(labels, m, x, e.0) && Stands(labels, m, y, e.1);
      assert Covers(E0, labels, m, x, y) && (x, y) in E;
    }
  }

  lemma RewiredOnlyCovers(E0: Edges, labels: seq<Label>, m: nat, E: Edges, x: Vertex, y: Vertex)
    requires m < |labels| && labels[m].kind.XMessage? && IsDoubled(E0, labels, m, E)
    requires forall v :: 0 <= v < |labels| && v != m ==> Redirect(labels, m, v) != m
    requires InRange(E0, |labels|)
    ensures (x, y) in Rewired(E, m, Find(labels, XMessageSync, labels[m].name)) ==> Covers(E0, labels, m + 1, x, y)
  {
    var s := Find(labels, XMessageSync, labels[m].name);
    if (x, y) in Rewired(E, m, s) {
      var p: (Vertex, Vertex) := if (x, y) in E then (x, y) else if (x, m) in E && y == s then (x, m) else (m, y);
      assert p in E && Covers(E0, labels, m, p.0, p.1);
      var e: (Vertex, Vertex) :| e in E0 && Stands(labels, m, p.0, e.0) && Stands(labels, m, p.1, e.1);
      assert e.0 < |labels| && e.1 < |labels|;
      RedirectStep(labels, m, e.0);
      RedirectStep(labels, m, e.1);
      assert Stands(labels, m + 1, x, e.0) && Stands(labels, m + 1, y, e.1);
    }
  }

  // The start of the loop.
  lemma SyncStarts(labels: seq<Label>, E: Edges)
    requires forall v :: 0 <= v < |labels| ==> !labels[v].kind.XMessageSync?
    requires InRange(E, |labels|) && Acyclic(E)
    ensures SyncProgress(labels, E, 0, labels, E)
  {
    forall x: Vertex, y: Vertex ensures (x, y) in E <==> Covers(E, labels, 0, x, y) {
      if (x, y) in E {
        var e := (x, y);
        assert Stands(labels, 0, x, e.0) && Stands(labels, 0, y, e.1);
      }
      if Covers(E, labels, 0, x, y) {
        var e: (Vertex, Vertex) :| e in E && Stands(labels, 0, x, e.0) && Stands(labels, 0, y, e.1);
        assert e == (x, y);
      }
    }
  }

  // A vertex that is no message leaves the edges as they are.
  lemma SyncSkips(labels0: seq<Label>, E0: Edges, k: nat, labels: seq<Label>, E: Edges)
    requires SyncProgress(labels0, E0, k, labels, E) && k < |labels| && !labels[k].kind.XMessage?
    ensures SyncProgress(labels0, E0, k + 1, labels, E)
  {
    forall x: Vertex, a: Vertex ensures Stands(labels, k + 1, x, a) <==> Stands(labels, k, x, a) {
    }
    hide Stands, Covers, Redirect, Find, Acyclic, InRange;
    forall x: Vertex, y: Vertex ensures (x, y) in E <==> Covers(E0, labels, k + 1, x, y) {
      CoversSame(E0, labels, k, k + 1, x, y);
      CoversSame(E0, labels, k + 1, k, x, y);
      DoubledAt(E0, labels, k, E, (x, y));
    }
    assert IsDoubled(E0, labels, k + 1, E);
  }

  lemma DoubledAt(E0: Edges, labels: seq<Label>, k: nat, E: Edges, p: (Vertex, Vertex))
    requires IsDoubled(E0, labels, k, E)
    ensures p in E <==> Covers(E0, labels, k, p.0, p.1)
  {
    hide Covers;
    var x, y := p.0, p.1;
    assert (x, y) == p;
    assert (x, y) in E <==> Covers(E0, labels, k, x, y);
  }

  lemma CoversSame(E0: Edges, labels: seq<Label>, j: nat, k: nat, x: Vertex, y: Vertex)
    requires forall x: Vertex, a: Vertex :: Stands(labels, j, x, a) <==> Stands(labels, k, x, a)
    ensures Covers(E0, labels, j, x, y) ==> Covers(E0, labels, k, x, y)
  {
    if Covers(E0, labels, j, x, y) {
      var e: (Vertex, Vertex) :| e in E0 && Stands(labels, j, x, e.0) && Stands(labels, j, y, e.1);
      assert Stands(labels, k, x, e.0) && Stands(labels, k, y, e.1);
    }
  }

  // The labels once there is a task of this type and name.
  function WithLabel(labels: seq<Label>, kind: TaskType, name: string): (r: seq<Label>)
    ensures labels <= r && Find(r, kind, name) < |r|
  {
    if Find(labels, kind, name) < |labels| then labels
    else
      var r := labels + [Label(kind, name)];
      assert r[|labels|] == Label(kind, name);
      r
  }

  lemma LabelFound(labels: seq<Label>, kind: TaskType, name: string, v: Vertex)
    requires v < |labels| && labels[v] == Label(kind, name) && forall i :: 0 <= i < v ==> labels[i] != Label(kind, name)
    ensures WithLabel(labels, kind, name) == labels && Find(labels, kind, name) == v
  {
    hide Find;
    FindIs(labels, kind, name, v);
  }

  lemma LabelMissing(labels: seq<Label>, kind: TaskType, name: string)
    requires forall i :: 0 <= i < |labels| ==> labels[i] != Label(kind, name)
    ensures WithLabel(labels, kind, name) == labels + [Label(kind, name)]
    ensures Find(labels, kind, name) == Find(labels + [Label(kind, name)], kind, name) == |labels|
  {
    hide Find;
    assert !(Find(labels, kind, name) < |labels|);
    FindIs(labels + [Label(kind, name)], kind, name, |labels|);
  }

  // One pass of the loop over a message.
  lemma SyncAdvances(labels0: seq<Label>, E0: Edges, k: nat, labels: seq<Label>, E: Edges)
    requires SyncProgress(labels0, E0, k, labels, E) && k < |labels| && labels[k].kind.XMessage?
    ensures ghost var more := WithLabel(labels, XMessageSync, labels[k].name);
            SyncProgress(labels0, E0, k + 1, more, Rewired(E, k, Find(more, XMessageSync, labels[k].name)))
  {
    var name := labels[k].name;
    var more := WithLabel(labels, XMessageSync, name);
    var s := Find(more, XMessageSync, name);
    if Find(labels, XMessageSync, name) == |labels| {
      SyncAppended(labels0, E0, k, labels, E, name);
    }
    SyncTasksDistinct(labels0, E0, k, labels, E, name);
    NoSelfLoop(E0, k);
    forall v | 0 <= v < |more| && v != k ensures Redirect(more, k, v) != k {
    }
    hide Redirect, Find, Covers;
    RewiredDoubles(E0, more, k, E);
    forall v | 0 <= v < k + 1 && more[v].kind.XMessage? ensures Find(more, XMessageSync, more[v].name) < |more| {
      if v < k {
        SyncFound(labels, more, labels[v].name);
      }
    }
  }

  lemma SyncFound(labels: seq<Label>, more: seq<Label>, name: string)
    requires labels <= more && Find(labels, XMessageSync, name) < |labels|
    ensures Find(more, XMessageSync, name) < |more|
  {
    FindStable(labels, more[|labels|..], XMessageSync, name);
    assert labels + more[|labels|..] == more;
  }

  lemma SyncTasksDistinct(labels0: seq<Label>, E0: Edges, k: nat, labels: seq<Label>, E: Edges, name: string)
    requires SyncProgress(labels0, E0, k, labels, E) && k < |labels| && labels[k] == Label(XMessage, name)
    ensures ghost var more := WithLabel(labels, XMessageSync, name);
      && k < |labels0|
      && (forall v :: |labels0| <= v < |more| ==> more[v].kind.XMessageSync?)
      && (forall v, w :: |labels0| <= v < w < |more| ==> more[v].name != more[w].name)
      && (forall v :: |labels0| <= v < |more| ==>
            exists m :: 0 <= m < |labels0| && m < k + 1 && labels0[m] == Label(XMessage, more[v].name))
  {
    var more := WithLabel(labels, XMessageSync, name);
    assert k < |labels0|;
    forall v, w | |labels0| <= v < w < |more| ensures more[v].name != more[w].name {
      if w == |labels| {
        assert labels[v] != Label(XMessageSync, name);
      }
    }
    forall v | |labels0| <= v < |more|
      ensures exists m :: 0 <= m < |labels0| && m < k + 1 && labels0[m] == Label(XMessage, more[v].name)
    {
      if v == |labels| {
        assert labels0[k] == Label(XMessage, more[v].name);
      } else {
        var m :| 0 <= m < |labels0| && m < k && labels0[m] == Label(XMessage, labels[v].name);
      }
    }
  }

  // The vertices of one type, in order.
  function IndicesOfLabel(labels: seq<Label>, kind: TaskType): seq<Vertex> {
    if labels == [] then []
    else
      var m := |labels| - 1;
      IndicesOfLabel(labels[..m], kind) + (if labels[m].kind == kind then [m] else [])
  }

  lemma IndicesStep(labels: seq<Label>, k: nat, kind: TaskType)
    requires k < |labels|
    ensures IndicesOfLabel(labels[..k + 1], kind) ==
            IndicesOfLabel(labels[..k], kind) + (if labels[k].kind == kind then [k] else [])
  {
    assert labels[..k + 1][..k] == labels[..k];
  }

  lemma {:induction false} IndicesOfLabelAre(labels: seq<Label>, kind: TaskType)
    ensures forall v :: v in IndicesOfLabel(labels, kind) <==> 0 <= v < |labels| && labels[v].kind == kind
    ensures forall i :: 0 <= i < |IndicesOfLabel(labels, kind)| ==> IndicesOfLabel(labels, kind)[i] < |labels|
    ensures forall i, j :: 0 <= i < j < |IndicesOfLabel(labels, kind)| ==>
              IndicesOfLabel(labels, kind)[i] != IndicesOfLabel(labels, kind)[j]
  {
    if labels != [] {
      IndicesOfLabelAre(labels[..|labels| - 1], kind);
    }
  }

  // ------------------------------------------------- what the rewriting means

  function MessagesOf(labels: seq<Label>): set<Vertex> {
    set v | 0 <= v < |labels| && labels[v].kind.XMessage?
  }

  // Away from the messages, the edges are the old ones with every message
  // replaced by its synchronisation task: nothing lost, nothing added.
  lemma SyncedEdges(labels0: seq<Label>, E0: Edges, labels: seq<Label>, E: Edges)
    requires SyncProgress(labels0, E0, |labels|, labels, E)
    ensures Avoiding(E, MessagesOf(labels)) == Image(E0, v => Redirect(labels, |labels|, v))
  {
    var n, M := |labels|, MessagesOf(labels);
    var f: Vertex -> Vertex := v => Redirect(labels, n, v);
    forall p: (Vertex, Vertex) | p in Avoiding(E, M) ensures p in Image(E0, f) {
      DoubledAt(E0, labels, n, E, p);
      var e: (Vertex, Vertex) :| e in E0 && Stands(labels, n, p.0, e.0) && Stands(labels, n, p.1, e.1);
      assert p == (f(e.0), f(e.1));
    }
    forall p: (Vertex, Vertex) | p in Image(E0, f) ensures p in Avoiding(E, M) {
      var e: (Vertex, Vertex) :| e in E0 && p == (f(e.0), f(e.1));
      assert Stands(labels, n, p.0, e.0) && Stands(labels, n, p.1, e.1);
      assert Covers(E0, labels, n, p.0, p.1);
      DoubledAt(E0, labels, n, E, p);
      RedirectsAway(labels, e.0);
      RedirectsAway(labels, e.1);
    }
  }

  lemma RedirectsAway(labels: seq<Label>, v: Vertex)
    ensures Redirect(labels, |labels|, v) !in MessagesOf(labels)
  {
  }

  // ----------------------------------------------------------------- clearing

  // No edge joins two synchronisation tasks.
  ghost predicate SyncsApart(labels: seq<Label>, E: Edges) {
    forall e :: e in E && e.0 < |labels| && e.1 < |labels| ==>
      !(labels[e.0].kind.XMessageSync? && labels[e.1].kind.XMessageSync?)
  }

  // The clearing tasks for the synchronisation tasks below k, in order.
  function ClearLabels(labels: seq<Label>, k: nat): seq<Label>
    requires k <= |labels|
  {
    if k == 0 then []
    else ClearLabels(labels, k - 1)
         + (if labels[k - 1].kind.XMessageSync? then [Label(XMessageClear, labels[k - 1].name)] else [])
  }

  // The position of the clearing task that goes with vertex v.
  function ClearOf(labels: seq<Label>, v: Vertex): Vertex
    requires v <= |labels|
  {
    |labels| + |ClearLabels(labels, v)|
  }

  function ClearEdges(labels: seq<Label>, E: Edges, k: nat): Edges
    requires k <= |labels|
  {
    if k == 0 then {}
    else ClearEdges(labels, E, k - 1)
         + (if labels[k - 1].kind.XMessageSync? then set e | e in E && e.0 == k - 1 :: (e.1, ClearOf(labels, k - 1))
            else {})
  }

  lemma {:induction false} ClearEdgesExact(labels: seq<Label>, E: Edges, k: nat, p: (Vertex, Vertex))
    requires k <= |labels|
    ensures p in ClearEdges(labels, E, k) <==>
            exists v :: 0 <= v < k && labels[v].kind.XMessageSync? && p.1 == ClearOf(labels, v) && (v, p.0) in E
  {
    if k > 0 {
      ClearEdgesExact(labels, E, k - 1, p);
      if p in ClearEdges(labels, E, k) && p !in ClearEdges(labels, E, k - 1) {
        assert (k - 1, p.0) in E;
      }
    }
  }

  lemma {:induction false} ClearLabelsGrow(labels: seq<Label>, j: nat, k: nat)
    requires j <= k <= |labels|
    ensures ClearLabels(labels, j) <= ClearLabels(labels, k)
    ensures j < k && labels[j].kind.XMessageSync? ==>
              |ClearLabels(labels, j)| < |ClearLabels(labels, k)|
              && ClearLabels(labels, k)[|ClearLabels(labels, j)|] == Label(XMessageClear, labels[j].name)
  {
    if j < k {
      ClearLabelsGrow(labels, j, k - 1);
    }
  }

  lemma ClearOfInjective(labels: seq<Label>, v: Vertex, w: Vertex)
    requires v < |labels| && w < |labels| && labels[v].kind.XMessageSync? && labels[w].kind.XMessageSync?
    requires ClearOf(labels, v) == ClearOf(labels, w)
    ensures v == w
  {
    if v < w { ClearLabelsGrow(labels, v, w); }
    if w < v { ClearLabelsGrow(labels, w, v); }
  }

  lemma ClearEdgesShape(labels: seq<Label>, E: Edges)
    requires InRange(E, |labels|)
    ensures forall p :: p in ClearEdges(labels, E, |labels|) ==>
              p.0 < |labels| <= p.1 < |labels| + |ClearLabels(labels, |labels|)|
  {
    forall p | p in ClearEdges(labels, E, |labels|)
      ensures p.0 < |labels| <= p.1 < |labels| + |ClearLabels(labels, |labels|)|
    {
      ClearEdgesExact(labels, E, |labels|, p);
      var v :| 0 <= v < |labels| && labels[v].kind.XMessageSync? && p.1 == ClearOf(labels, v) && (v, p.0) in E;
      assert (v, p.0).1 < |labels|;
      ClearLabelsGrow(labels, v, |labels|);
    }
  }

  // A task is done before a message is cleared exactly when it is, or comes
  // before, a task that the synchronisation leads to directly.
  lemma ClearFollowsExactly(labels: seq<Label>, E: Edges, s: Vertex, r: Vertex)
    requires InRange(E, |labels|) && s < |labels| && labels[s].kind.XMessageSync? && r < |labels|
    ensures Reaches(E + ClearEdges(labels, E, |labels|), r, ClearOf(labels, s)) <==>
            exists d :: (s, d) in E && (d == r || Reaches(E, r, d))
  {
    var n, c := |labels|, ClearOf(labels, s);
    var F := E + ClearEdges(labels, E, n);
    ClearEdgesShape(labels, E);
    if Reaches(F, r, c) {
      var m := LastEdge(F, r, c);
      ClearEdgesExact(labels, E, n, (m, c));
      assert (m, c) in E ==> (m, c).1 < n;
      var v :| 0 <= v < n && labels[v].kind.XMessageSync? && c == ClearOf(labels, v) && (v, m) in E;
      ClearOfInjective(labels, v, s);
      assert (v, m).1 < n;
      SinksIrrelevant(E, F, n, r, m);
    }
    if d :| (s, d) in E && (d == r || Reaches(E, r, d)) {
      ClearEdgesExact(labels, E, n, (d, c));
      EdgeReaches(F, d, c);
      if d != r {
        Monotone(E, F, r, d);
        Transitive(F, r, d, c);
      }
    }
  }


  lemma ImageHas(E: Edges, f: Vertex -> Vertex, a: Vertex, b: Vertex)
    requires (a, b) in E
    ensures (f(a), f(b)) in Image(E, f)
  {
    var e := (a, b);
    assert (f(e.0), f(e.1)) in Image(E, f);
  }

  lemma FindIs(labels: seq<Label>, kind: TaskType, name: string, v: Vertex)
    requires v < |labels| && labels[v] == Label(kind, name)
    requires forall i :: 0 <= i < v ==> labels[i] != Label(kind, name)
    ensures Find(labels, kind, name) == v
  {
    var w := Find(labels, kind, name);
    assert !(v < w);
  }

  // ------------------------------------------- synchronisation, renumbering and all

  // Whatever the agents order stays ordered, with messages replaced by their
  // synchronisation tasks.
  lemma SyncedReaches(labels0: seq<Label>, E0: Edges, labels: seq<Label>, es: set<Edge>, u: Vertex, v: Vertex)
    requires SyncProgress(labels0, E0, |labels|, labels, Pairs(es)) && InRange(Pairs(es), |labels|)
    requires u < |labels0| && v < |labels0| && Reaches(E0, u, v)
    ensures ghost var M, n := MessagesOf(labels), |labels|;
            Reaches(Pairs(Renumbered(es, M)), Rank(M, Redirect(labels, n, u)), Rank(M, Redirect(labels, n, v)))
  {
    var M, n := MessagesOf(labels), |labels|;
    var f: Vertex -> Vertex := x => Redirect(labels, n, x);
    SyncedEdges(labels0, E0, labels, Pairs(es));
    ImageReaches(E0, f, u, v);
    RedirectsAway(labels, u);
    RedirectsAway(labels, v);
    RedirectInRange(labels0, E0, labels, Pairs(es), u);
    RedirectInRange(labels0, E0, labels, Pairs(es), v);
    RenumberedReaches(es, M, n, f(u), f(v));
  }

  lemma RedirectInRange(labels0: seq<Label>, E0: Edges, labels: seq<Label>, E: Edges, v: Vertex)
    requires SyncProgress(labels0, E0, |labels|, labels, E) && v < |labels0|
    ensures Redirect(labels, |labels|, v) < |labels|
    ensures labels0[v].kind.XMessage? ==> labels[Redirect(labels, |labels|, v)] == Label(XMessageSync, labels0[v].name)
    ensures !labels0[v].kind.XMessage? ==> Redirect(labels, |labels|, v) == v
  {
    assert labels[v] == labels0[v];
  }

  lemma DoubledInRange(labels0: seq<Label>, E0: Edges, k: nat, labels: seq<Label>, E: Edges)
    requires SyncProgress(labels0, E0, k, labels, E)
    ensures InRange(E, |labels|)
  {
    forall p: (Vertex, Vertex) | p in E ensures p.0 < |labels| && p.1 < |labels| {
      var x, y := p.0, p.1;
      assert IsDoubled(E0, labels, k, E) && (x, y) in E;
      assert Covers(E0, labels, k, x, y);
      var e: (Vertex, Vertex) :| e in E0 && Stands(labels, k, p.0, e.0) && Stands(labels, k, p.1, e.1);
      assert e.0 < |labels0| && e.1 < |labels0|;
      assert labels[e.0] == labels0[e.0] && labels[e.1] == labels0[e.1];
    }
  }

  // --------------------------------------------------------------- importing

  // What importing an agent's graph behind the first n vertices adds: its edges,
  // an edge from the model's start to its start, and edges from its outputs to
  // the model's end.
  function Imported(kinds: seq<TaskType>, es: set<Edge>, n: nat, start: Vertex, end: Vertex): set<Edge> {
    (set e | e in es :: Edge(n + e.source, n + e.target, Unlabelled))
    + BoundaryEdges(kinds, |kinds|, n, start, end)
  }

  function BoundaryEdges(kinds: seq<TaskType>, k: nat, n: nat, start: Vertex, end: Vertex): set<Edge>
    requires k <= |kinds|
  {
    if k == 0 then {}
    else
      BoundaryEdges(kinds, k - 1, n, start, end)
      + (if kinds[k - 1].StartAgent? then {Edge(start, n + k - 1, Unlabelled)} else {})
      + (if kinds[k - 1].IoPopWrite? then {Edge(n + k - 1, end, Unlabelled)} else {})
  }

  lemma {:induction false} BoundaryShape(kinds: seq<TaskType>, k: nat, n: nat, start: Vertex, end: Vertex)
    requires k <= |kinds|
    ensures forall e :: e in BoundaryEdges(kinds, k, n, start, end) ==>
              || (e.source == start && n <= e.target < n + k)
              || (n <= e.source < n + k && e.target == end)
  {
    if k > 0 {
      BoundaryShape(kinds, k - 1, n, start, end);
    }
  }

  lemma ImportedReaches(kinds: seq<TaskType>, es: set<Edge>, n: nat, start: Vertex, end: Vertex, u: Vertex, v: Vertex)
    requires Reaches(Pairs(es), u, v)
    ensures Reaches(Pairs(Imported(kinds, es, n, start, end)), n + u, n + v)
  {
    hide Reaches, BoundaryEdges, Pairs, Imported;
    var f: Vertex -> Vertex := x => n + x;
    var I := Imported(kinds, es, n, start, end);
    ImageReaches(Pairs(es), f, u, v);
    forall p: (Vertex, Vertex) | p in Image(Pairs(es), f) ensures p in Pairs(I) {
      var q: (Vertex, Vertex) :| q in Pairs(es) && p == (f(q.0), f(q.1));
      ImportedPair(kinds, es, n, start, end, q.0, q.1);
    }
    Monotone(Image(Pairs(es), f), Pairs(I), f(u), f(v));
  }

  lemma ImportedPair(kinds: seq<TaskType>, es: set<Edge>, n: nat, start: Vertex, end: Vertex, i: Vertex, j: Vertex)
    requires (i, j) in Pairs(es)
    ensures (n + i, n + j) in Pairs(Imported(kinds, es, n, start, end))
  {
    var e :| e in es && (i, j) == (e.source, e.target);
    assert Edge(n + i, n + j, Unlabelled) in Imported(kinds, es, n, start, end);
  }

  // Side by side: paths stay in their half.
  lemma SideBySideAcyclic(E: Edges, F: Edges, n: nat)
    requires InRange(E, n) && Acyclic(E) && Acyclic(F)
    ensures Acyclic(E + Image(F, x => n + x))
  {
    var f: Vertex -> Vertex := x => n + x;
    var U := E + Image(F, f);
    forall v: Vertex ensures !Reaches(U, v, v) {
      if Reaches(U, v, v) {
        var p :| PathFromTo(U, p, v, v);
        if v < n {
          PathStaysLow(E, F, n, p);
        } else {
          PathStaysHigh(E, F, n, p);
        }
      }
    }
  }

  lemma PathStaysLow(E: Edges, F: Edges, n: nat, p: seq<Vertex>)
    requires InRange(E, n) && IsPath(E + Image(F, x => n + x), p) && p[0] < n
    ensures Reaches(E, p[0], p[|p| - 1])
  {
    var i := 0;
    while i < |p| - 1
      invariant 0 <= i < |p| && p[i] < n
      invariant forall j :: 0 <= j < i ==> Link(E, p, j)
    {
      assert Link(E + Image(F, x => n + x), p, i);
      assert (p[i], p[i + 1]) in E;
      assert (p[i], p[i + 1]).1 < n;
      i := i + 1;
    }
    assert PathFromTo(E, p, p[0], p[|p| - 1]);
  }

  lemma PathStaysHigh(E: Edges, F: Edges, n: nat, p: seq<Vertex>)
    requires InRange(E, n) && IsPath(E + Image(F, x => n + x), p) && p[0] >= n
    ensures p[|p| - 1] >= n && Reaches(F, p[0] - n, p[|p| - 1] - n)
  {
    var i := 1;
    FirstHighLink(E, F, n, p, 0);
    EdgeReaches(F, p[0] - n, p[1] - n);
    while i < |p| - 1
      invariant 1 <= i < |p| && p[i] >= n
      invariant Reaches(F, p[0] - n, p[i] - n)
    {
      FirstHighLink(E, F, n, p, i);
      EdgeReaches(F, p[i] - n, p[i + 1] - n);
      Transitive(F, p[0] - n, p[i] - n, p[i + 1] - n);
      i := i + 1;
    }
  }

  lemma FirstHighLink(E: Edges, F: Edges, n: nat, p: seq<Vertex>, i: nat)
    requires InRange(E, n) && IsPath(E + Image(F, x => n + x), p) && i < |p| - 1 && p[i] >= n
    ensures p[i + 1] >= n && (p[i] - n, p[i + 1] - n) in F
  {
    assert Link(E + Image(F, x => n + x), p, i);
    assert (p[i], p[i + 1]) !in E;
    var e :| e in F && (p[i], p[i + 1]) == (n + e.0, n + e.1);
    assert e == (p[i] - n, p[i + 1] - n);
  }

  // The model graph so far: nothing leads to its start, nothing leaves its end.
  ghost predicate Framed(es: set<Edge>, n: nat, start: Vertex, end: Vertex) {
    && start < n && end < n && start != end
    && InRange(Pairs(es), n) && Acyclic(Pairs(es))
    && (forall e :: e in es ==> e.target != start && e.source != end)
  }

  lemma ImportedEdge(kinds: seq<TaskType>, es: set<Edge>, model: set<Edge>, n: nat, start: Vertex, end: Vertex, e: Edge)
    requires Framed(model, n, start, end) && InRange(Pairs(es), |kinds|)
    requires e in model + Imported(kinds, es, n, start, end)
    ensures e.source < n + |kinds| && e.target < n + |kinds| && e.target != start && e.source != end
    ensures || (e.source, e.target) in Pairs(model) + Image(Pairs(es), x => n + x)
            || e.source == start || e.target == end
  {
    hide *;
    if e in model {
      FramedEdge(model, n, start, end, e);
    } else {
      FrameEnds(model, n, start, end);
      NewEdge(kinds, es, n, start, end, e);
    }
  }

  lemma FrameEnds(model: set<Edge>, n: nat, start: Vertex, end: Vertex)
    requires Framed(model, n, start, end)
    ensures start < n && end < n && start != end
  {
  }

  lemma FramedEdge(model: set<Edge>, n: nat, start: Vertex, end: Vertex, e: Edge)
    requires Framed(model, n, start, end) && e in model
    ensures e.source < n && e.target < n && e.target != start && e.source != end && (e.source, e.target) in Pairs(model)
  {
    hide Acyclic;
    assert (e.source, e.target) in Pairs(model);
  }

  lemma NewEdge(kinds: seq<TaskType>, es: set<Edge>, n: nat, start: Vertex, end: Vertex, e: Edge)
    requires start < n && end < n && start != end && InRange(Pairs(es), |kinds|) && e in Imported(kinds, es, n, start, end)
    ensures e.source < n + |kinds| && e.target < n + |kinds| && e.target != start && e.source != end
    ensures (e.source, e.target) in Image(Pairs(es), x => n + x) || e.source == start || e.target == end
  {
    hide *;
    if e in BoundaryEdges(kinds, |kinds|, n, start, end) {
      BoundaryShape(kinds, |kinds|, n, start, end);
    } else {
      var d := ImportedFrom(kinds, es, n, start, end, e);
      ShiftedPair(es, n, d);
      EdgeInRange(es, |kinds|, d);
    }
  }

  lemma ImportedFrom(kinds: seq<TaskType>, es: set<Edge>, n: nat, start: Vertex, end: Vertex, e: Edge) returns (d: Edge)
    requires e in Imported(kinds, es, n, start, end) && e !in BoundaryEdges(kinds, |kinds|, n, start, end)
    ensures d in es && e == Edge(n + d.source, n + d.target, Unlabelled)
  {
    hide BoundaryEdges;
    d :| d in es && e == Edge(n + d.source, n + d.target, Unlabelled);
  }

  lemma EdgeInRange(es: set<Edge>, n: nat, d: Edge)
    requires InRange(Pairs(es), n) && d in es
    ensures d.source < n && d.target < n
  {
    assert (d.source, d.target) in Pairs(es);
  }

  lemma ShiftedPair(es: set<Edge>, n: nat, d: Edge)
    requires d in es
    ensures (d.source, d.target) in Pairs(es)
    ensures (n + d.source, n + d.target) in Image(Pairs(es), x => n + x)
  {
    var f: Vertex -> Vertex := x => n + x;
    var p := (d.source, d.target);
    assert p in Pairs(es);
    assert (f(p.0), f(p.1)) in Image(Pairs(es), f);
  }

  lemma ImportKeepsFrame(kinds: seq<TaskType>, es: set<Edge>, model: set<Edge>, n: nat, start: Vertex, end: Vertex)
    requires Framed(model, n, start, end) && InRange(Pairs(es), |kinds|) && Acyclic(Pairs(es))
    ensures Framed(model + Imported(kinds, es, n, start, end), n + |kinds|, start, end)
  {
    var all := model + Imported(kinds, es, n, start, end);
    hide Imported, Image, Acyclic;
    SideBySideAcyclic(Pairs(model), Pairs(es), n);
    forall e | e in all
      ensures e.source < n + |kinds| && e.target < n + |kinds| && e.target != start && e.source != end
      ensures || (e.source, e.target) in Pairs(model) + Image(Pairs(es), x => n + x)
              || e.source == start || e.target == end
    {
      ImportedEdge(kinds, es, model, n, start, end, e);
    }
    EndsAcyclic(Pairs(model) + Image(Pairs(es), x => n + x), Pairs(all), start, end);
  }

  // Until now no edge leaves a synchronisation task but the first ones.
  lemma OutOfSyncUnchanged(labels: seq<Label>, E: Edges, k: nat, y: Vertex)
    requires k < |labels| && labels[k].kind.XMessageSync? && InRange(E, |labels|) && SyncsApart(labels, E)
    ensures (k, y) in E + ClearEdges(labels, E, k) <==> (k, y) in E
  {
    ClearEdgesExact(labels, E, k, (k, y));
  }

  // No edge joins two messages: they are posted and read by functions only.
  ghost predicate MessagesApart(labels: seq<Label>, E: Edges) {
    forall e :: e in E && e.0 < |labels| && e.1 < |labels| ==>
      !(labels[e.0].kind.XMessage? && labels[e.1].kind.XMessage?)
  }

  lemma SyncsApartAfter(labels0: seq<Label>, E0: Edges, labels: seq<Label>, es: set<Edge>, kept: seq<Label>)
    requires SyncProgress(labels0, E0, |labels|, labels, Pairs(es)) && MessagesApart(labels0, E0)
    requires kept == Kept(labels, MessagesOf(labels))
    ensures SyncsApart(kept, Pairs(Renumbered(es, MessagesOf(labels))))
  {
    var M := MessagesOf(labels);
    var r: Vertex -> Vertex := i => Rank(M, i);
    SyncedEdges(labels0, E0, labels, Pairs(es));
    PairsRenumbered(es, M);
    KeptAt(labels, M);
    DoubledInRange(labels0, E0, |labels|, labels, Pairs(es));
    hide SyncProgress, Pairs, Renumbered, Kept, Rank, MessagesOf, MessagesApart, Redirect;
    forall p: (Vertex, Vertex) | p in Pairs(Renumbered(es, M)) && p.0 < |kept| && p.1 < |kept|
      ensures !(kept[p.0].kind.XMessageSync? && kept[p.1].kind.XMessageSync?)
    {
      var q: (Vertex, Vertex) :| q in Avoiding(Pairs(es), M) && p == (r(q.0), r(q.1));
      assert q.0 < |labels| && q.1 < |labels|;
      SyncedPairApart(labels0, E0, labels, Pairs(es), q);
      assert kept[p.0] == labels[q.0] && kept[p.1] == labels[q.1];
    }
  }

  lemma SyncedPairApart(labels0: seq<Label>, E0: Edges, labels: seq<Label>, E: Edges, q: (Vertex, Vertex))
    requires SyncProgress(labels0, E0, |labels|, labels, E) && MessagesApart(labels0, E0)
    requires q in Image(E0, v => Redirect(labels, |labels|, v)) && q.0 < |labels| && q.1 < |labels|
    ensures !(labels[q.0].kind.XMessageSync? && labels[q.1].kind.XMessageSync?)
  {
    var f: Vertex -> Vertex := v => Redirect(labels, |labels|, v);
    var e: (Vertex, Vertex) :| e in E0 && q == (f(e.0), f(e.1));
    assert e.0 < |labels0| && e.1 < |labels0| && labels0 <= labels;
    assert labels[e.0] == labels0[e.0] && labels[e.1] == labels0[e.1];
    assert !labels0[e.0].kind.XMessageSync? && !labels0[e.1].kind.XMessageSync?;
    RedirectInRange(labels0, E0, labels, E, e.0);
    RedirectInRange(labels0, E0, labels, E, e.1);
    hide SyncProgress, Redirect;
  }

  // There is one synchronisation task for each message in use, and no other.
  lemma OneSyncEach(labels0: seq<Label>, E0: Edges, labels: seq<Label>, E: Edges, name: string)
    requires SyncProgress(labels0, E0, |labels|, labels, E)
    ensures (exists m :: 0 <= m < |labels0| && labels0[m] == Label(XMessage, name))
            <==> Find(labels, XMessageSync, name) < |labels|
    ensures forall v :: 0 <= v < |labels| && labels[v] == Label(XMessageSync, name) ==>
              v == Find(labels, XMessageSync, name)
  {
    if m :| 0 <= m < |labels0| && labels0[m] == Label(XMessage, name) {
      assert labels[m] == labels0[m];
    }
    var s := Find(labels, XMessageSync, name);
    if s < |labels| {
      assert |labels0| <= s;
      var m :| 0 <= m < |labels0| && labels0[m] == Label(XMessage, labels[s].name);
    }
    forall v | 0 <= v < |labels| && labels[v] == Label(XMessageSync, name) ensures v == s {
      assert s <= v;
      assert |labels0| <= s;
    }
  }

  // ---------------------------------------------------------- the whole union

  // What an agent's graph brings along: messages touch no messages, nothing
  // comes before the start, and there are no synchronisation tasks yet.
  ghost predicate AgentReady(kinds: seq<TaskType>, E: Edges) {
    && InRange(E, |kinds|) && Acyclic(E)
    && (forall v :: 0 <= v < |kinds| ==> !kinds[v].XMessageSync?)
    && (forall e :: e in E ==> !(kinds[e.0].XMessage? && kinds[e.1].XMessage?))
    && (forall e :: e in E ==> !kinds[e.1].StartAgent?)
  }

  // The union of agents: only the model's start comes before theirs.
  ghost predicate UnionReady(kinds: seq<TaskType>, es: set<Edge>, start: Vertex, end: Vertex) {
    && Framed(es, |kinds|, start, end) && !kinds[start].XMessage? && !kinds[end].XMessage? && !kinds[end].StartAgent?
    && (forall v :: 0 <= v < |kinds| ==> !kinds[v].XMessageSync?)
    && (forall e :: e in Pairs(es) ==> !(kinds[e.0].XMessage? && kinds[e.1].XMessage?))
    && (forall e :: e in Pairs(es) && kinds[e.1].StartAgent? ==> e.0 == start)
  }

  lemma ImportKeepsUnion(kinds: seq<TaskType>, es: set<Edge>, more: seq<TaskType>, agent: set<Edge>, start: Vertex, end: Vertex)
    requires UnionReady(kinds, es, start, end) && AgentReady(more, Pairs(agent))
    ensures UnionReady(kinds + more, es + Imported(more, agent, |kinds|, start, end), start, end)
  {
    var n, all := |kinds|, kinds + more;
    var es' := es + Imported(more, agent, n, start, end);
    ImportKeepsFrame(more, agent, es, n, start, end);
    forall p: (Vertex, Vertex) | p in Pairs(es')
      ensures p.0 < |all| && p.1 < |all|
      ensures !(all[p.0].XMessage? && all[p.1].XMessage?)
      ensures all[p.1].StartAgent? ==> p.0 == start
    {
      var e :| e in es' && p == (e.source, e.target);
      UnionEdge(kinds, es, more, agent, start, end, e);
    }
  }

  lemma UnionEdge(kinds: seq<TaskType>, es: set<Edge>, more: seq<TaskType>, agent: set<Edge>, start: Vertex, end: Vertex, e: Edge)
    requires UnionReady(kinds, es, start, end) && AgentReady(more, Pairs(agent))
    requires e in es + Imported(more, agent, |kinds|, start, end)
    ensures ghost var all := kinds + more;
            && e.source < |all| && e.target < |all|
            && !(all[e.source].XMessage? && all[e.target].XMessage?)
            && (all[e.target].StartAgent? ==> e.source == start)
  {
    var n, all := |kinds|, kinds + more;
    if e in es {
      assert (e.source, e.target) in Pairs(es);
      assert all[e.source] == kinds[e.source] && all[e.target] == kinds[e.target];
    } else if e in BoundaryEdges(more, |more|, n, start, end) {
      hide Framed, Imported;
      BoundaryShape(more, |more|, n, start, end);
      assert start < n && end < n && all[start] == kinds[start] && all[end] == kinds[end] by { StartAndEnd(es, n, start, end); }
    } else {
      AgentEdge(kinds, more, agent, start, end, e);
    }
  }

  lemma StartAndEnd(es: set<Edge>, n: nat, start: Vertex, end: Vertex)
    requires Framed(es, n, start, end)
    ensures start < n && end < n
  {
  }

  lemma AgentEdge(kinds: seq<TaskType>, more: seq<TaskType>, agent: set<Edge>, start: Vertex, end: Vertex, e: Edge)
    requires AgentReady(more, Pairs(agent))
    requires e in Imported(more, agent, |kinds|, start, end) && e !in BoundaryEdges(more, |more|, |kinds|, start, end)
    ensures ghost var all := kinds + more;
            && e.source < |all| && e.target < |all|
            && !(all[e.source].XMessage? && all[e.target].XMessage?)
            && !all[e.target].StartAgent?
  {
    var d :| d in agent && e == Edge(|kinds| + d.source, |kinds| + d.target, Unlabelled);
    assert (d.source, d.target) in Pairs(agent);
  }

  // The bypasses of agents' starts all leave the model's start.
  lemma {:induction false} StartBypasses(kinds: seq<TaskType>, E: Edges, cs: seq<Vertex>, start: Vertex)
    requires InRange(E, |kinds|) && start < |kinds| && !kinds[start].XMessage?
    requires forall c :: c in cs ==> c < |kinds| && kinds[c].StartAgent?
    requires forall e :: e in E && kinds[e.1].StartAgent? ==> e.0 == start
    requires forall e :: e in E ==> !(kinds[e.0].XMessage? && kinds[e.1].XMessage?)
    ensures InRange(BypassAll(E, cs), |kinds|)
    ensures forall e :: e in BypassAll(E, cs) && kinds[e.1].StartAgent? ==> e.0 == start
    ensures forall e :: e in BypassAll(E, cs) ==> !(kinds[e.0].XMessage? && kinds[e.1].XMessage?)
  {
    if cs != [] {
      var init := cs[..|cs| - 1];
      forall c | c in init ensures c < |kinds| && kinds[c].StartAgent? {
        assert c in cs;
      }
      StartBypasses(kinds, E, init, start);
    }
  }
}
