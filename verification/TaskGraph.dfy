/** Labelled task graphs: taking vertices out of a graph whose vertices are
    numbered without gaps, and contracting vertices. */
module TaskGraph {
  import opened Digraph

  datatype DependencyType =
    | State | Communication | Data | Init | Condition | Variable | Blank
    | Unlabelled  // an edge with no entry in the edge map

  datatype Edge = Edge(source: Vertex, target: Vertex, kind: DependencyType)

  function Pairs(es: set<Edge>): Edges {
    set e | e in es :: (e.source, e.target)
  }

  lemma PairsUnion(a: set<Edge>, b: set<Edge>)
    ensures Pairs(a + b) == Pairs(a) + Pairs(b)
  {
    forall p ensures p in Pairs(a + b) <==> p in Pairs(a) + Pairs(b) {
      if p in Pairs(a) { var e :| e in a && p == (e.source, e.target); assert e in a + b; }
      if p in Pairs(b) { var e :| e in b && p == (e.source, e.target); assert e in a + b; }
    }
  }

  function Labelled(E: Edges, kind: DependencyType): set<Edge> {
    set p | p in E :: Edge(p.0, p.1, kind)
  }

  lemma PairsLabelled(E: Edges, kind: DependencyType)
    ensures Pairs(Labelled(E, kind)) == E
  {
    forall p | p in E ensures p in Pairs(Labelled(E, kind)) {
      assert Edge(p.0, p.1, kind) in Labelled(E, kind);
    }
  }


  // ------------------------------------------------------------ renumbering

  // How many vertices below i survive when those of `del` are taken out.
  function Rank(del: set<Vertex>, i: nat): nat {
    if i == 0 then 0 else Rank(del, i - 1) + (if i - 1 in del then 0 else 1)
  }

  // The entries of ts whose index is not in `del`, in order.
  function Kept<T>(ts: seq<T>, del: set<Vertex>): seq<T> {
    if ts == [] then []
    else Kept(ts[..|ts| - 1], del) + (if |ts| - 1 in del then [] else [ts[|ts| - 1]])
  }

  function Moved(del: set<Vertex>, e: Edge): Edge {
    Edge(Rank(del, e.source), Rank(del, e.target), e.kind)
  }

  function Renumbered(es: set<Edge>, del: set<Vertex>): set<Edge> {
    set e | e in es && e.source !in del && e.target !in del :: Moved(del, e)
  }

  // What removing the single vertex v does to the numbers above it.
  function Shift(v: Vertex, i: Vertex): Vertex {
    if i <= v then i else i - 1
  }

  function Shifted(v: Vertex, e: Edge): Edge {
    Edge(Shift(v, e.source), Shift(v, e.target), e.kind)
  }

  function WithoutVertex(es: set<Edge>, v: Vertex): set<Edge> {
    set e | e in es && e.source != v && e.target != v :: Shifted(v, e)
  }

  lemma {:induction false} RankMonotone(del: set<Vertex>, i: nat, j: nat)
    requires i <= j
    ensures Rank(del, i) <= Rank(del, j) <= Rank(del, i) + (j - i)
    ensures i < j && i !in del ==> Rank(del, i) < Rank(del, j)
    decreases j
  {
    if i < j {
      RankMonotone(del, i, j - 1);
    }
  }

  lemma RankInjective(del: set<Vertex>, i: nat, j: nat)
    requires i !in del && j !in del && Rank(del, i) == Rank(del, j)
    ensures i == j
  {
    if i < j { RankMonotone(del, i, j); }
    if j < i { RankMonotone(del, j, i); }
  }

  // Below the smallest deleted vertex nothing changes.
  lemma {:induction false} RankIdentity(del: set<Vertex>, i: nat)
    requires forall d :: d in del ==> i <= d
    ensures Rank(del, i) == i
  {
    if i > 0 {
      RankIdentity(del, i - 1);
    }
  }

  // Surviving entries sit at their rank.
  lemma {:induction false} KeptAt<T>(ts: seq<T>, del: set<Vertex>)
    ensures |Kept(ts, del)| == Rank(del, |ts|)
    ensures forall i :: 0 <= i < |ts| && i !in del ==>
              Rank(del, i) < |Kept(ts, del)| && Kept(ts, del)[Rank(del, i)] == ts[i]
  {
    if ts != [] {
      var m := |ts| - 1;
      KeptAt(ts[..m], del);
      forall i | 0 <= i < |ts| && i !in del
        ensures Rank(del, i) < |Kept(ts, del)| && Kept(ts, del)[Rank(del, i)] == ts[i]
      {
        if i < m {
          assert ts[..m][i] == ts[i];
        }
      }
    }
  }

  // Every position of the result comes from a survivor.
  lemma {:induction false} RankOnto(del: set<Vertex>, n: nat, k: nat) returns (i: nat)
    requires k < Rank(del, n)
    ensures i < n && i !in del && Rank(del, i) == k
  {
    if n - 1 !in del && k == Rank(del, n - 1) {
      i := n - 1;
    } else {
      i := RankOnto(del, n - 1, k);
    }
  }

  // Taking out v as well, when v is below everything taken out so far.
  lemma {:induction false} RankExtend(del: set<Vertex>, v: Vertex, i: nat)
    requires forall d :: d in del ==> v < d
    ensures Rank(del + {v}, i) == if i <= v then i else Rank(del, i) - 1
    ensures i > v ==> Rank(del, i) > v
  {
    if i <= v {
      RankIdentity(del + {v}, i);
    } else {
      RankExtend(del, v, i - 1);
      if i - 1 == v {
        RankIdentity(del, v);
      }
    }
  }

  lemma {:induction false} KeptIdentity<T>(ts: seq<T>, del: set<Vertex>)
    requires forall d :: d in del ==> |ts| <= d
    ensures Kept(ts, del) == ts
  {
    if ts != [] {
      KeptIdentity(ts[..|ts| - 1], del);
    }
  }

  lemma {:induction false} KeptExtend<T>(ts: seq<T>, del: set<Vertex>, v: Vertex)
    requires v < |ts| && forall d :: d in del ==> v < d
    ensures v < |Kept(ts, del)|
    ensures Kept(ts, del + {v}) == Kept(ts, del)[..v] + Kept(ts, del)[v + 1..]
  {
    var m := |ts| - 1;
    if m == v {
      KeptIdentity(ts[..m], del);
      KeptIdentity(ts[..m], del + {v});
    } else {
      KeptExtend(ts[..m], del, v);
    }
  }

  lemma MovedExtend(del: set<Vertex>, v: Vertex, e: Edge)
    requires forall d :: d in del ==> v < d
    requires e.source !in del && e.target !in del
    ensures e.source == v <==> Rank(del, e.source) == v
    ensures e.target == v <==> Rank(del, e.target) == v
    ensures e.source != v && e.target != v ==> Moved(del + {v}, e) == Shifted(v, Moved(del, e))
  {
    RankIdentity(del, v);
    forall i: nat | i == e.source || i == e.target
      ensures Rank(del + {v}, i) == (if i <= v then i else Rank(del, i) - 1)
      ensures i <= v ==> Rank(del, i) == i
      ensures i > v ==> Rank(del, i) > v
    {
      RankExtend(del, v, i);
      if i <= v { RankIdentity(del, i); }
    }
  }

  lemma RenumberedNone(es: set<Edge>)
    ensures Renumbered(es, {}) == es
  {
    forall e: Edge ensures Moved({}, e) == e {
      RankIdentity({}, e.source);
      RankIdentity({}, e.target);
    }
  }

  lemma RenumberedExtend(es: set<Edge>, del: set<Vertex>, v: Vertex)
    requires forall d :: d in del ==> v < d
    ensures Renumbered(es, del + {v}) == WithoutVertex(Renumbered(es, del), v)
  {
    var a, b := Renumbered(es, del + {v}), WithoutVertex(Renumbered(es, del), v);
    forall e | e in a ensures e in b {
      var f :| f in es && f.source !in del + {v} && f.target !in del + {v} && e == Moved(del + {v}, f);
      MovedExtend(del, v, f);
      assert Moved(del, f) in Renumbered(es, del);
    }
    forall e | e in b ensures e in a {
      var g :| g in Renumbered(es, del) && g.source != v && g.target != v && e == Shifted(v, g);
      var f :| f in es && f.source !in del && f.target !in del && g == Moved(del, f);
      MovedExtend(del, v, f);
    }
  }

  // Renumbering renames the edges that avoid the deleted vertices.
  lemma PairsRenumbered(es: set<Edge>, del: set<Vertex>)
    ensures Pairs(Renumbered(es, del)) == Image(Avoiding(Pairs(es), del), i => Rank(del, i))
  {
    var f: Vertex -> Vertex := i => Rank(del, i);
    var a, b := Pairs(Renumbered(es, del)), Image(Avoiding(Pairs(es), del), f);
    forall p | p in a ensures p in b {
      var g :| g in Renumbered(es, del) && p == (g.source, g.target);
      var e :| e in es && e.source !in del && e.target !in del && g == Moved(del, e);
      assert (e.source, e.target) in Avoiding(Pairs(es), del);
    }
    forall p | p in b ensures p in a {
      var q :| q in Avoiding(Pairs(es), del) && p == (f(q.0), f(q.1));
      var e :| e in es && q == (e.source, e.target);
      assert Moved(del, e) in Renumbered(es, del);
    }
  }

  lemma RenumberedReaches(es: set<Edge>, del: set<Vertex>, n: nat, u: Vertex, v: Vertex)
    requires InRange(Pairs(es), n) && u < n && v < n && u !in del && v !in del
    ensures Reaches(Pairs(Renumbered(es, del)), Rank(del, u), Rank(del, v))
            <==> Reaches(Avoiding(Pairs(es), del), u, v)
  {
    var S := set i | 0 <= i < n && i !in del;
    var f: Vertex -> Vertex := i => Rank(del, i);
    PairsRenumbered(es, del);
    forall a, b | a in S && b in S && f(a) == f(b) ensures a == b {
      RankInjective(del, a, b);
    }
    ImageExact(Avoiding(Pairs(es), del), f, S, u, v);
  }

  lemma RenumberedInRange(es: set<Edge>, del: set<Vertex>, n: nat)
    requires InRange(Pairs(es), n)
    ensures InRange(Pairs(Renumbered(es, del)), Rank(del, n))
  {
    forall p | p in Pairs(Renumbered(es, del)) ensures p.0 < Rank(del, n) && p.1 < Rank(del, n) {
      var g :| g in Renumbered(es, del) && p == (g.source, g.target);
      var e :| e in es && e.source !in del && e.target !in del && g == Moved(del, e);
      assert (e.source, e.target) in Pairs(es);
      RankMonotone(del, e.source, n);
      RankMonotone(del, e.target, n);
    }
  }

  // --------------------------------------------------- tasks, not positions

  // Some occurrence of a leads to some occurrence of b.
  ghost predicate Ordered<T>(ts: seq<T>, E: Edges, a: T, b: T) {
    exists i, j :: 0 <= i < |ts| && 0 <= j < |ts| && ts[i] == a && ts[j] == b && Reaches(E, i, j)
  }

  // ------------------------------------------------------------ contraction

  function InEdges(es: set<Edge>, v: Vertex): set<Edge> {
    set e | e in es && e.target == v
  }

  function OutEdges(es: set<Edge>, v: Vertex): set<Edge> {
    set e | e in es && e.source == v
  }

  lemma OutEdgesInRange(es: set<Edge>, n: nat, v: Vertex)
    requires InRange(Pairs(es), n)
    ensures forall e :: e in OutEdges(es, v) ==> e.source < n && e.target < n
  {
    forall e | e in es ensures e.source < n && e.target < n {
      assert (e.source, e.target) in Pairs(es);
    }
  }

  // An edge from the source of s to the target of every edge of outs.
  function Fan(s: Edge, outs: set<Edge>, kind: DependencyType): set<Edge> {
    set t | t in outs :: Edge(s.source, t.target, kind)
  }

  function Fans(ins: set<Edge>, outs: set<Edge>, kind: DependencyType): set<Edge> {
    set s, t | s in ins && t in outs :: Edge(s.source, t.target, kind)
  }

  lemma FansStep(ins: set<Edge>, s: Edge, outs: set<Edge>, kind: DependencyType)
    ensures Fans(ins + {s}, outs, kind) == Fans(ins, outs, kind) + Fan(s, outs, kind)
  {
    forall e ensures e in Fans(ins + {s}, outs, kind) <==> e in Fans(ins, outs, kind) || e in Fan(s, outs, kind) {
      FansMember(ins, s, outs, kind, e);
    }
  }

  lemma FansMember(ins: set<Edge>, s: Edge, outs: set<Edge>, kind: DependencyType, e: Edge)
    ensures e in Fans(ins + {s}, outs, kind) <==> e in Fans(ins, outs, kind) || e in Fan(s, outs, kind)
  {
    if e in Fan(s, outs, kind) {
      var t :| t in outs && e == Edge(s.source, t.target, kind);
      assert s in ins + {s};
    } else if e in Fans(ins, outs, kind) {
      var r, t :| r in ins && t in outs && e == Edge(r.source, t.target, kind);
      assert r in ins + {s};
    }
  }

  lemma FansNone(outs: set<Edge>, kind: DependencyType)
    ensures Fans({}, outs, kind) == {}
  {
  }

  lemma FansAreBypass(es: set<Edge>, c: Vertex, kind: DependencyType)
    ensures WithBypass(es, c, kind) ==
            es + Fans(InEdges(es, c), OutEdges(es, c), kind)
  {
    var F := Fans(InEdges(es, c), OutEdges(es, c), kind);
    forall e | e in WithBypass(es, c, kind) && e !in es ensures e in F {
      var s, t :| s in es && t in es && s.target == c && t.source == c && e == Edge(s.source, t.target, kind);
    }
  }

  function WithBypass(es: set<Edge>, c: Vertex, kind: DependencyType): set<Edge> {
    es + set s, t | s in es && t in es && s.target == c && t.source == c :: Edge(s.source, t.target, kind)
  }

  function WithBypasses(es: set<Edge>, cs: seq<Vertex>, kind: DependencyType): set<Edge> {
    if cs == [] then es else WithBypass(WithBypasses(es, cs[..|cs| - 1], kind), cs[|cs| - 1], kind)
  }

  lemma WithBypassesStep(es: set<Edge>, cs: seq<Vertex>, c: Vertex, kind: DependencyType)
    ensures WithBypasses(es, cs + [c], kind) == WithBypass(WithBypasses(es, cs, kind), c, kind)
  {
    hide WithBypass;
    assert (cs + [c])[..|cs|] == cs;
  }

  lemma PairsWithBypass(es: set<Edge>, c: Vertex, kind: DependencyType)
    ensures Pairs(WithBypass(es, c, kind)) == Bypass(Pairs(es), c)
  {
    hide Pairs, WithBypass, Bypass;
    forall p: (Vertex, Vertex) ensures p in Pairs(WithBypass(es, c, kind)) <==> p in Bypass(Pairs(es), c) {
      BypassedPair(es, c, kind, p);
      BypassingEdge(es, c, kind, p);
    }
  }

  lemma BypassedPair(es: set<Edge>, c: Vertex, kind: DependencyType, p: (Vertex, Vertex))
    ensures p in Pairs(WithBypass(es, c, kind)) ==> p in Bypass(Pairs(es), c)
  {
    if p in Pairs(WithBypass(es, c, kind)) {
      var e :| e in WithBypass(es, c, kind) && p == (e.source, e.target);
      if e !in es {
        var s, t :| s in es && t in es && s.target == c && t.source == c && e == Edge(s.source, t.target, kind);
        assert (s.source, c) in Pairs(es) && (c, t.target) in Pairs(es);
      }
    }
  }

  lemma BypassingEdge(es: set<Edge>, c: Vertex, kind: DependencyType, p: (Vertex, Vertex))
    ensures p in Bypass(Pairs(es), c) ==> p in Pairs(WithBypass(es, c, kind))
  {
    if p in Pairs(es) {
      var e :| e in es && p == (e.source, e.target);
      assert e in WithBypass(es, c, kind);
    } else if p in Bypass(Pairs(es), c) {
      var a, b :| a in Pairs(es) && b in Pairs(es) && a.1 == c && b.0 == c && p == (a.0, b.1);
      var s :| s in es && a == (s.source, s.target);
      var t :| t in es && b == (t.source, t.target);
      assert Edge(s.source, t.target, kind) in WithBypass(es, c, kind);
    }
  }

  lemma {:induction false} PairsWithBypasses(es: set<Edge>, cs: seq<Vertex>, kind: DependencyType)
    ensures Pairs(WithBypasses(es, cs, kind)) == BypassAll(Pairs(es), cs)
  {
    if cs != [] {
      PairsWithBypasses(es, cs[..|cs| - 1], kind);
      PairsWithBypass(WithBypasses(es, cs[..|cs| - 1], kind), cs[|cs| - 1], kind);
    }
  }

  // Old edges stay; new ones carry the given kind and stand for old paths.
  lemma {:induction false} BypassesOnlyAdd(es: set<Edge>, cs: seq<Vertex>, kind: DependencyType)
    ensures es <= WithBypasses(es, cs, kind)
    ensures forall e :: e in WithBypasses(es, cs, kind) - es ==> e.kind == kind
    ensures forall p :: p in Pairs(WithBypasses(es, cs, kind)) ==> Reaches(Pairs(es), p.0, p.1)
  {
    if cs == [] {
      forall p | p in Pairs(es) ensures Reaches(Pairs(es), p.0, p.1) {
        EdgeReaches(Pairs(es), p.0, p.1);
      }
    } else {
      var init, c := WithBypasses(es, cs[..|cs| - 1], kind), cs[|cs| - 1];
      BypassesOnlyAdd(es, cs[..|cs| - 1], kind);
      PairsWithBypass(init, c, kind);
      forall p | p in Bypass(Pairs(init), c) ensures Reaches(Pairs(es), p.0, p.1) {
        if p !in Pairs(init) {
          var a, b :| a in Pairs(init) && b in Pairs(init) && a.1 == c && b.0 == c && p == (a.0, b.1);
          assert Reaches(Pairs(es), a.0, a.1) && Reaches(Pairs(es), b.0, b.1);
          Transitive(Pairs(es), a.0, c, b.1);
        }
      }
    }
  }

  // The whole of contractVertices on edges: bypass, then take the vertices out.
  function Contracted(es: set<Edge>, cs: seq<Vertex>, kind: DependencyType): set<Edge> {
    Renumbered(WithBypasses(es, cs, kind), Elements(cs))
  }

  lemma BypassesInRange(es: set<Edge>, cs: seq<Vertex>, kind: DependencyType, n: nat)
    requires InRange(Pairs(es), n)
    ensures InRange(Pairs(WithBypasses(es, cs, kind)), n)
  {
    BypassesOnlyAdd(es, cs, kind);
    forall p | p in Pairs(WithBypasses(es, cs, kind)) ensures p.0 < n && p.1 < n {
      ReachesInRange(Pairs(es), n, p.0, p.1);
    }
  }

  // Between survivors, contraction keeps reachability exactly, renumbering included.
  lemma ContractedReaches(es: set<Edge>, cs: seq<Vertex>, kind: DependencyType, n: nat, u: Vertex, v: Vertex)
    requires InRange(Pairs(es), n) && u < n && v < n && u !in cs && v !in cs
    requires forall i, j :: 0 <= i < j < |cs| ==> cs[i] != cs[j]
    ensures Reaches(Pairs(Contracted(es, cs, kind)), Rank(Elements(cs), u), Rank(Elements(cs), v))
            <==> Reaches(Pairs(es), u, v)
  {
    BypassesInRange(es, cs, kind, n);
    RenumberedReaches(WithBypasses(es, cs, kind), Elements(cs), n, u, v);
    PairsWithBypasses(es, cs, kind);
    ContractionExact(Pairs(es), cs, u, v);
  }

  lemma ContractedAcyclic(es: set<Edge>, cs: seq<Vertex>, kind: DependencyType, n: nat)
    requires InRange(Pairs(es), n) && Acyclic(Pairs(es))
    requires forall i, j :: 0 <= i < j < |cs| ==> cs[i] != cs[j]
    ensures InRange(Pairs(Contracted(es, cs, kind)), Rank(Elements(cs), n))
    ensures Acyclic(Pairs(Contracted(es, cs, kind)))
  {
    var del, es' := Elements(cs), Contracted(es, cs, kind);
    BypassesInRange(es, cs, kind, n);
    RenumberedInRange(WithBypasses(es, cs, kind), del, n);
    forall k: Vertex ensures !Reaches(Pairs(es'), k, k) {
      if Reaches(Pairs(es'), k, k) {
        ReachesInRange(Pairs(es'), Rank(del, n), k, k);
        var i := RankOnto(del, n, k);
        ContractedReaches(es, cs, kind, n, i, i);
      }
    }
  }

  // -------------------------------------------------------------- sorting

  ghost predicate Descending(s: seq<Vertex>) {
    forall i, j :: 0 <= i < j < |s| ==> s[i] > s[j]
  }

  function InsertDescending(v: Vertex, s: seq<Vertex>): (r: seq<Vertex>)
    requires Descending(s) && v !in s
    ensures Descending(r)
    ensures forall x :: x in r <==> x == v || x in s
  {
    if s == [] then [v]
    else if v > s[0] then [v] + s
    else
      var rest := InsertDescending(v, s[1..]);
      assert forall x :: x in s <==> x == s[0] || x in s[1..];
      assert s[0] in s && forall x :: x in rest ==> s[0] > x;
      var r := [s[0]] + rest;
      assert forall j :: 0 < j < |r| ==> r[j] == rest[j - 1] && r[j] in rest;
      r
  }

  function SortLargestFirst(s: seq<Vertex>): (r: seq<Vertex>)
    requires forall i, j :: 0 <= i < j < |s| ==> s[i] != s[j]
    ensures Descending(r)
    ensures forall x :: x in r <==> x in s
  {
    if s == [] then []
    else
      assert forall x :: x in s <==> x == s[0] || x in s[1..];
      InsertDescending(s[0], SortLargestFirst(s[1..]))
  }

  // Taking out one vertex is the renumbering for that one.
  lemma WithoutVertexIsRenumbered(es: set<Edge>, v: Vertex)
    ensures WithoutVertex(es, v) == Renumbered(es, {v})
  {
    RenumberedNone(es);
    RenumberedExtend(es, {}, v);
    assert {} + {v} == {v};
  }

  lemma ShiftIsRank(v: Vertex, i: Vertex)
    requires i != v
    ensures Rank({v}, i) == Shift(v, i)
  {
    RankIdentity({}, i);
    RankExtend({}, v, i);
    assert {} + {v} == {v};
  }

  // ---------------------------------------------------- transitive reduction

  // What the graph library promises: the vertices renumbered by a permutation,
  // some of the edges, the same reachability, and no edge to spare.
  ghost predicate IsTransitiveReduction(n: nat, E: Edges, to: seq<Vertex>, R: Edges) {
    && |to| == n
    && (forall i :: 0 <= i < n ==> to[i] < n)
    && (forall i, j :: 0 <= i < j < n ==> to[i] != to[j])
    && (forall v :: 0 <= v < n ==> v in to)
    && (forall p :: p in R ==> exists e :: e in E && e.0 < n && e.1 < n && p == (to[e.0], to[e.1]))
    && (forall u, v :: 0 <= u < n && 0 <= v < n ==> (Reaches(R, to[u], to[v]) <==> Reaches(E, u, v)))
    && (forall p :: p in R ==> !Reaches(R - {p}, p.0, p.1))
  }

  type Sorter = (nat, Edges) -> seq<Vertex>
  type Reducer = (nat, Edges) -> (seq<Vertex>, Edges)

  ghost predicate SortsTopologically(sort: Sorter) {
    forall n, E :: InRange(E, n) && Acyclic(E) ==> TopologicalOrder(E, n, sort(n, E))
  }

  ghost predicate ReducesTransitively(reduce: Reducer) {
    forall n, E :: InRange(E, n) && Acyclic(E) ==> IsTransitiveReduction(n, E, reduce(n, E).0, reduce(n, E).1)
  }

  type CycleFinder = (nat, Edges) -> bool

  // What the depth-first search of the graph library finds out.
  ghost predicate FindsCycles(hasCycle: CycleFinder) {
    forall n, E :: InRange(E, n) ==> (hasCycle(n, E) <==> !Acyclic(E))
  }
}
