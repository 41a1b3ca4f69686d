/** Directed graphs over vertex numbers: paths, reachability, acyclicity and
    topological orders.  The graph algorithms of the dependency compiler and the
    task manager's dependency tables are both stated over these definitions. */
module Digraph {

  type Vertex = nat
  type Edges = set<(Vertex, Vertex)>

  // The i-th and the (i+1)-st vertex of p are joined by an edge.
  ghost predicate Link(E: Edges, p: seq<Vertex>, i: int)
    requires 0 <= i < |p| - 1
  {
    (p[i], p[i + 1]) in E
  }

  // A path has at least one edge.
  ghost predicate IsPath(E: Edges, p: seq<Vertex>) {
    && |p| >= 2
    && forall i :: 0 <= i < |p| - 1 ==> Link(E, p, i)
  }

  ghost predicate PathFromTo(E: Edges, p: seq<Vertex>, u: Vertex, v: Vertex) {
    IsPath(E, p) && p[0] == u && p[|p| - 1] == v
  }

  ghost predicate Reaches(E: Edges, u: Vertex, v: Vertex) {
    exists p :: PathFromTo(E, p, u, v)
  }

  ghost predicate Acyclic(E: Edges) {
    forall v :: !Reaches(E, v, v)
  }

  // Every edge goes forward in the sequence, which lists each vertex once.
  ghost predicate TopologicalOrder(E: Edges, n: nat, order: seq<Vertex>) {
    && |order| == n
    && (forall i :: 0 <= i < n ==> order[i] < n)
    && (forall v :: 0 <= v < n ==> v in order)
    && (forall i, j :: 0 <= i < j < n ==> order[i] != order[j])
    && (forall i, j :: 0 <= i < n && 0 <= j < n && (order[i], order[j]) in E ==> i < j)
  }

  ghost predicate InRange(E: Edges, n: nat) {
    forall e :: e in E ==> e.0 < n && e.1 < n
  }

  // The vertices of a graph of n vertices.
  function Below(n: nat): (r: set<Vertex>)
    ensures forall v :: v in r <==> 0 <= v < n
  {
    if n == 0 then {} else Below(n - 1) + {n - 1}
  }

  lemma EdgeReaches(E: Edges, u: Vertex, v: Vertex)
    requires (u, v) in E
    ensures Reaches(E, u, v)
  {
    assert Link(E, [u, v], 0);
    assert PathFromTo(E, [u, v], u, v);
  }

  lemma JoinPaths(E: Edges, p: seq<Vertex>, q: seq<Vertex>)
    requires IsPath(E, p) && IsPath(E, q) && p[|p| - 1] == q[0]
    ensures PathFromTo(E, p + q[1..], p[0], q[|q| - 1])
  {
    var r := p + q[1..];
    forall i | 0 <= i < |r| - 1 ensures Link(E, r, i) {
      if i < |p| - 1 {
        assert Link(E, p, i);
      } else {
        assert Link(E, q, i - (|p| - 1));
      }
    }
  }

  lemma Transitive(E: Edges, u: Vertex, v: Vertex, w: Vertex)
    requires Reaches(E, u, v) && Reaches(E, v, w)
    ensures Reaches(E, u, w)
  {
    var p :| PathFromTo(E, p, u, v);
    var q :| PathFromTo(E, q, v, w);
    JoinPaths(E, p, q);
  }

  lemma Slice(E: Edges, p: seq<Vertex>, i: nat, j: nat)
    requires IsPath(E, p) && i < j < |p|
    ensures PathFromTo(E, p[i..j + 1], p[i], p[j])
  {
    var q := p[i..j + 1];
    forall k | 0 <= k < |q| - 1 ensures Link(E, q, k) {
      assert Link(E, p, i + k);
    }
  }

  // If every edge of E is a (possibly longer) path of F, so is every path of E.
  lemma {:induction false} LiftPath(E: Edges, F: Edges, p: seq<Vertex>)
    requires IsPath(E, p)
    requires forall e :: e in E ==> Reaches(F, e.0, e.1)
    ensures Reaches(F, p[0], p[|p| - 1])
    decreases |p|
  {
    assert Link(E, p, 0);
    assert Reaches(F, (p[0], p[1]).0, (p[0], p[1]).1);
    if |p| > 2 {
      Slice(E, p, 1, |p| - 1);
      assert p[1..|p| - 1 + 1] == p[1..];
      LiftPath(E, F, p[1..]);
      Transitive(F, p[0], p[1], p[|p| - 1]);
    }
  }

  lemma LiftReaches(E: Edges, F: Edges, u: Vertex, v: Vertex)
    requires Reaches(E, u, v)
    requires forall e :: e in E ==> Reaches(F, e.0, e.1)
    ensures Reaches(F, u, v)
  {
    var p :| PathFromTo(E, p, u, v);
    LiftPath(E, F, p);
  }

  lemma Monotone(E: Edges, F: Edges, u: Vertex, v: Vertex)
    requires E <= F && Reaches(E, u, v)
    ensures Reaches(F, u, v)
  {
    var p :| PathFromTo(E, p, u, v);
    forall i | 0 <= i < |p| - 1 ensures Link(F, p, i) {
      assert Link(E, p, i);
    }
    assert PathFromTo(F, p, u, v);
  }

  lemma FirstEdge(E: Edges, u: Vertex, v: Vertex) returns (m: Vertex)
    requires Reaches(E, u, v)
    ensures (u, m) in E && (m == v || Reaches(E, m, v))
  {
    var p :| PathFromTo(E, p, u, v);
    m := p[1];
    assert Link(E, p, 0);
    if |p| > 2 {
      Slice(E, p, 1, |p| - 1);
    }
  }

  lemma LastEdge(E: Edges, u: Vertex, v: Vertex) returns (m: Vertex)
    requires Reaches(E, u, v)
    ensures (m, v) in E && (m == u || Reaches(E, u, m))
  {
    var p :| PathFromTo(E, p, u, v);
    m := p[|p| - 2];
    assert Link(E, p, |p| - 2);
    if |p| > 2 {
      Slice(E, p, 0, |p| - 2);
    }
  }

  lemma ReachesInRange(E: Edges, n: nat, u: Vertex, v: Vertex)
    requires InRange(E, n) && Reaches(E, u, v)
    ensures u < n && v < n
  {
    var a := FirstEdge(E, u, v);
    var b := LastEdge(E, u, v);
  }

  // Whatever holds an order that all edges respect has no cycle.
  lemma {:induction false} RankedPath(E: Edges, rank: map<Vertex, int>, p: seq<Vertex>)
    requires IsPath(E, p)
    requires forall e :: e in E ==> e.0 in rank && e.1 in rank && rank[e.0] < rank[e.1]
    ensures p[0] in rank && p[|p| - 1] in rank && rank[p[0]] < rank[p[|p| - 1]]
    decreases |p|
  {
    assert Link(E, p, 0);
    assert (p[0], p[1]) in E;
    if |p| > 2 {
      Slice(E, p, 1, |p| - 1);
      assert p[1..|p| - 1 + 1] == p[1..];
      RankedPath(E, rank, p[1..]);
    }
  }

  lemma RankedAcyclic(E: Edges, rank: map<Vertex, int>)
    requires forall e :: e in E ==> e.0 in rank && e.1 in rank && rank[e.0] < rank[e.1]
    ensures Acyclic(E)
  {
    forall v ensures !Reaches(E, v, v) {
      if Reaches(E, v, v) {
        var p :| PathFromTo(E, p, v, v);
        RankedPath(E, rank, p);
      }
    }
  }

  // ----------------------------------------------------------- graph images

  // The edges with both ends renamed by f.
  function Image(E: Edges, f: Vertex -> Vertex): Edges {
    set e | e in E :: (f(e.0), f(e.1))
  }

  lemma ImageReaches(E: Edges, f: Vertex -> Vertex, u: Vertex, v: Vertex)
    requires Reaches(E, u, v)
    ensures Reaches(Image(E, f), f(u), f(v))
  {
    var p :| PathFromTo(E, p, u, v);
    var q := seq(|p|, i requires 0 <= i < |p| => f(p[i]));
    forall i | 0 <= i < |q| - 1 ensures Link(Image(E, f), q, i) {
      assert Link(E, p, i);
      assert (p[i], p[i + 1]) in E;
    }
    assert PathFromTo(Image(E, f), q, f(u), f(v));
  }

  // Renaming by an injective function changes no reachability.
  lemma ImageExact(E: Edges, f: Vertex -> Vertex, S: set<Vertex>, u: Vertex, v: Vertex)
    requires forall a, b :: a in S && b in S && f(a) == f(b) ==> a == b
    requires u in S && v in S && forall e :: e in E ==> e.0 in S && e.1 in S
    ensures Reaches(Image(E, f), f(u), f(v)) <==> Reaches(E, u, v)
  {
    if Reaches(E, u, v) {
      ImageReaches(E, f, u, v);
    }
    if Reaches(Image(E, f), f(u), f(v)) {
      var q :| PathFromTo(Image(E, f), q, f(u), f(v));
      InjectivePathReflects(E, f, S, q, u, v);
    }
  }

  lemma {:induction false} InjectivePathReflects(E: Edges, f: Vertex -> Vertex, S: set<Vertex>, q: seq<Vertex>, u: Vertex, v: Vertex)
    requires forall a, b :: a in S && b in S && f(a) == f(b) ==> a == b
    requires u in S && v in S && forall e :: e in E ==> e.0 in S && e.1 in S
    requires PathFromTo(Image(E, f), q, f(u), f(v))
    ensures Reaches(E, u, v)
    decreases |q|
  {
    assert Link(Image(E, f), q, 0);
    var e :| e in E && (f(e.0), f(e.1)) == (q[0], q[1]);
    EdgeReaches(E, e.0, e.1);
    if |q| > 2 {
      Slice(Image(E, f), q, 1, |q| - 1);
      assert q[1..|q| - 1 + 1] == q[1..];
      InjectivePathReflects(E, f, S, q[1..], e.1, v);
      Transitive(E, u, e.1, v);
    }
  }

  // -------------------------------------------------- contraction of vertices

  // The edges that touch no vertex of S.
  function Avoiding(E: Edges, S: set<Vertex>): Edges {
    set e | e in E && e.0 !in S && e.1 !in S
  }

  // Every predecessor of c is joined to every successor of c.
  function Bypass(E: Edges, c: Vertex): Edges {
    E + set s, t | s in E && t in E && s.1 == c && t.0 == c :: (s.0, t.1)
  }

  lemma {:induction false} BypassPath(E: Edges, c: Vertex, p: seq<Vertex>)
    requires IsPath(E, p) && p[0] != c && p[|p| - 1] != c
    ensures Reaches(Avoiding(Bypass(E, c), {c}), p[0], p[|p| - 1])
    decreases |p|
  {
    var B := Avoiding(Bypass(E, c), {c});
    assert Link(E, p, 0);
    if p[1] != c {
      EdgeReaches(B, p[0], p[1]);
      if |p| > 2 {
        Slice(E, p, 1, |p| - 1);
        assert p[1..|p| - 1 + 1] == p[1..];
        BypassPath(E, c, p[1..]);
        Transitive(B, p[0], p[1], p[|p| - 1]);
      }
    } else {
      // Step over c: the path continues from p[0] straight to p[2].
      assert Link(E, p, 1);
      assert (p[0], p[2]) in Bypass(E, c);
      if p[2] == c {
        ShortcutPath(E, p);
        BypassPath(E, c, [p[0]] + p[2..]);
      } else {
        EdgeReaches(B, p[0], p[2]);
        if |p| > 3 {
          Slice(E, p, 2, |p| - 1);
          assert p[2..|p| - 1 + 1] == p[2..];
          BypassPath(E, c, p[2..]);
          Transitive(B, p[0], p[2], p[|p| - 1]);
        }
      }
    }
  }

  lemma ShortcutPath(E: Edges, p: seq<Vertex>)
    requires IsPath(E, p) && |p| > 3 && p[1] == p[2]
    ensures IsPath(E, [p[0]] + p[2..])
  {
    var q := [p[0]] + p[2..];
    forall i | 0 <= i < |q| - 1 ensures Link(E, q, i) {
      assert Link(E, p, if i == 0 then 0 else i + 1);
    }
  }

  // Contracting one vertex changes no reachability among the others.
  lemma BypassExact(E: Edges, c: Vertex, u: Vertex, v: Vertex)
    requires u != c && v != c
    ensures Reaches(Avoiding(Bypass(E, c), {c}), u, v) <==> Reaches(E, u, v)
  {
    var B := Avoiding(Bypass(E, c), {c});
    if Reaches(E, u, v) {
      var p :| PathFromTo(E, p, u, v);
      BypassPath(E, c, p);
    }
    if Reaches(B, u, v) {
      forall e | e in B ensures Reaches(E, e.0, e.1) {
        if e in E {
          EdgeReaches(E, e.0, e.1);
        } else {
          EdgeReaches(E, e.0, c);
          EdgeReaches(E, c, e.1);
          Transitive(E, e.0, c, e.1);
        }
      }
      LiftReaches(B, E, u, v);
    }
  }

  function Elements(s: seq<Vertex>): set<Vertex> {
    set v | v in s
  }

  lemma ElementsOf(s: seq<Vertex>, v: Vertex)
    ensures v in Elements(s) <==> v in s
  {
  }

  // Contracting several vertices one after another, nothing removed meanwhile.
  function BypassAll(E: Edges, cs: seq<Vertex>): Edges {
    if cs == [] then E else Bypass(BypassAll(E, cs[..|cs| - 1]), cs[|cs| - 1])
  }

  lemma AvoidingBypass(E: Edges, c: Vertex, S: set<Vertex>)
    requires c !in S
    ensures Avoiding(Bypass(E, c), S) == Bypass(Avoiding(E, S), c)
  {
  }

  lemma {:induction false} AvoidingBypassAll(E: Edges, cs: seq<Vertex>, S: set<Vertex>)
    requires forall c :: c in cs ==> c !in S
    ensures Avoiding(BypassAll(E, cs), S) == BypassAll(Avoiding(E, S), cs)
  {
    if cs != [] {
      var init := cs[..|cs| - 1];
      AvoidingBypassAll(E, init, S);
      AvoidingBypass(BypassAll(E, init), cs[|cs| - 1], S);
    }
  }

  // Even when the contracted vertices are adjacent to one another.
  lemma {:induction false} ContractionExact(E: Edges, cs: seq<Vertex>, u: Vertex, v: Vertex)
    requires forall i, j :: 0 <= i < j < |cs| ==> cs[i] != cs[j]
    requires u !in cs && v !in cs
    ensures Reaches(Avoiding(BypassAll(E, cs), Elements(cs)), u, v) <==> Reaches(E, u, v)
  {
    if cs == [] {
      assert Avoiding(E, Elements(cs)) == E;
    } else {
      var init, c := cs[..|cs| - 1], cs[|cs| - 1];
      var S := Elements(init);
      var before := BypassAll(E, init);
      ContractionExact(E, init, u, v);
      AvoidingBypass(before, c, S);
      BypassExact(Avoiding(before, S), c, u, v);
      assert Elements(cs) == S + {c};
      assert Avoiding(Avoiding(Bypass(before, c), S), {c}) == Avoiding(Bypass(before, c), S + {c});
    }
  }

  // New edges out of a vertex nothing leads to, or into one that leads nowhere,
  // close no cycle.
  lemma EndsAcyclic(E: Edges, F: Edges, s: Vertex, t: Vertex)
    requires Acyclic(E) && forall e :: e in F ==> e in E || e.0 == s || e.1 == t
    requires forall e :: e in F ==> e.1 != s && e.0 != t
    ensures Acyclic(F)
  {
    forall v ensures !Reaches(F, v, v) {
      if Reaches(F, v, v) {
        var p :| PathFromTo(F, p, v, v);
        assert Link(F, p, 0) && Link(F, p, |p| - 2);
        forall i | 0 <= i < |p| - 1 ensures Link(E, p, i) {
          assert Link(F, p, i);
          if i > 0 { assert Link(F, p, i - 1); }
          if i + 1 < |p| - 1 { assert Link(F, p, i + 1); }
        }
        assert PathFromTo(E, p, v, v) && Reaches(E, v, v);
      }
    }
  }

  // New vertices that only receive edges close no cycle.
  lemma SinksAcyclic(E: Edges, F: Edges, n: nat)
    requires Acyclic(E) && forall e :: e in F ==> e in E || e.0 < n <= e.1
    requires forall e :: e in F ==> e.0 < n
    ensures Acyclic(F)
  {
    forall v ensures !Reaches(F, v, v) {
      if Reaches(F, v, v) {
        var p :| PathFromTo(F, p, v, v);
        assert Link(F, p, 0);
        forall i | 0 <= i < |p| - 1 ensures Link(E, p, i) {
          assert Link(F, p, i);
          if i + 1 < |p| - 1 { assert Link(F, p, i + 1); }
        }
        assert PathFromTo(E, p, v, v) && Reaches(E, v, v);
      }
    }
  }

  // What is closed under successors is never left.
  lemma ClosedUnderReach(E: Edges, S: set<Vertex>, u: Vertex, v: Vertex)
    requires forall e :: e in E && e.0 in S ==> e.1 in S
    requires u in S && Reaches(E, u, v)
    ensures v in S
  {
    var p :| PathFromTo(E, p, u, v);
    var i := 0;
    while i < |p| - 1
      invariant 0 <= i < |p| && p[i] in S
    {
      assert Link(E, p, i);
      i := i + 1;
    }
  }

  // A path either does without the edge x or runs up to it and on from it.
  lemma {:induction false} PathAroundEdge(E: Edges, x: (Vertex, Vertex), p: seq<Vertex>)
    requires IsPath(E, p)
    ensures || Reaches(E - {x}, p[0], p[|p| - 1])
            || ((p[0] == x.0 || Reaches(E, p[0], x.0)) && (x.1 == p[|p| - 1] || Reaches(E, x.1, p[|p| - 1])))
    decreases |p|
  {
    assert Link(E, p, 0);
    var u, v := p[0], p[|p| - 1];
    EdgeReaches(E, u, p[1]);
    if |p| > 2 {
      Slice(E, p, 1, |p| - 1);
      assert p[1..|p| - 1 + 1] == p[1..];
    }
    if (u, p[1]) != x {
      EdgeReaches(E - {x}, u, p[1]);
      if |p| > 2 {
        PathAroundEdge(E, x, p[1..]);
        if Reaches(E - {x}, p[1], v) {
          Transitive(E - {x}, u, p[1], v);
        } else if p[1] != x.0 {
          Transitive(E, u, p[1], x.0);
        }
      }
    }
  }

  lemma NoSelfLoop(E: Edges, v: Vertex)
    requires Acyclic(E)
    ensures (v, v) !in E
  {
    if (v, v) in E {
      EdgeReaches(E, v, v);
    }
  }

  // New vertices that only receive edges open no way between old ones.
  lemma SinksIrrelevant(E: Edges, F: Edges, n: nat, u: Vertex, v: Vertex)
    requires E <= F && forall e :: e in F ==> e.0 < n && (e in E || n <= e.1)
    requires v < n
    ensures Reaches(F, u, v) <==> Reaches(E, u, v)
  {
    if Reaches(F, u, v) {
      var p :| PathFromTo(F, p, u, v);
      forall i | 0 <= i < |p| - 1 ensures Link(E, p, i) {
        assert Link(F, p, i);
        if i + 1 < |p| - 1 { assert Link(F, p, i + 1); }
      }
      assert PathFromTo(E, p, u, v);
    }
    if Reaches(E, u, v) {
      Monotone(E, F, u, v);
    }
  }

  // New edges out of a vertex nothing leads to, or into one that leads nowhere,
  // open no way between others.
  lemma EndsIrrelevant(E: Edges, F: Edges, s: Vertex, t: Vertex, u: Vertex, v: Vertex)
    requires E <= F && forall e :: e in F ==> e in E || e.0 == s || e.1 == t
    requires forall e :: e in F ==> e.1 != s && e.0 != t
    requires u != s && v != t
    ensures Reaches(F, u, v) <==> Reaches(E, u, v)
  {
    if Reaches(F, u, v) {
      var p :| PathFromTo(F, p, u, v);
      forall i | 0 <= i < |p| - 1 ensures Link(E, p, i) {
        assert Link(F, p, i);
        if i > 0 { assert Link(F, p, i - 1); }
        if i + 1 < |p| - 1 { assert Link(F, p, i + 1); }
      }
      assert PathFromTo(E, p, u, v);
    }
    if Reaches(E, u, v) {
      Monotone(E, F, u, v);
    }
  }

  // Nor do edges out of vertices that nothing leads to.
  lemma SourcesIrrelevant(E: Edges, S: set<Vertex>, u: Vertex, v: Vertex)
    requires forall e :: e in E ==> e.1 !in S
    requires u !in S
    ensures Reaches(Avoiding(E, S), u, v) <==> Reaches(E, u, v)
  {
    var A := Avoiding(E, S);
    if Reaches(E, u, v) {
      var p :| PathFromTo(E, p, u, v);
      forall i | 0 <= i < |p| - 1 ensures Link(A, p, i) {
        assert Link(E, p, i);
        if i > 0 { assert Link(E, p, i - 1); }
      }
      assert PathFromTo(A, p, u, v);
    }
    if Reaches(A, u, v) {
      Monotone(A, E, u, v);
    }
  }

  // A new edge closes a cycle exactly when its target already led to its source.
  lemma AddEdgeAcyclic(E: Edges, u: Vertex, v: Vertex)
    requires Acyclic(E)
    ensures Acyclic(E + {(u, v)}) <==> u != v && !Reaches(E, v, u)
  {
    var x, F := (u, v), E + {(u, v)};
    EdgeReaches(F, u, v);
    if Reaches(E, v, u) {
      Monotone(E, F, v, u);
      Transitive(F, u, v, u);
    }
    if u != v && !Reaches(E, v, u) {
      forall w: Vertex ensures !Reaches(F, w, w) {
        if Reaches(F, w, w) {
          EveryCycleUses(E, x, w);
        }
      }
    }
  }

  // If x is new, a cycle through w takes x, so x.1 leads back to x.0 without it.
  lemma EveryCycleUses(E: Edges, x: (Vertex, Vertex), w: Vertex)
    requires Acyclic(E) && Reaches(E + {x}, w, w)
    ensures x.1 == x.0 || Reaches(E, x.1, x.0)
  {
    var F := E + {x};
    var p :| PathFromTo(F, p, w, w);
    assert F - {x} <= E;
    if Reaches(F - {x}, w, w) { Monotone(F - {x}, E, w, w); }
    PathAroundEdge(F, x, p);
    if x.1 != x.0 {
      if w != x.1 && w != x.0 {
        Transitive(F, x.1, w, x.0);
      }
      var q :| PathFromTo(F, q, x.1, x.0);
      ShortestAvoids(E, x, q);
    }
  }

  // A way from x.1 to x.0 need not take x.
  lemma {:induction false} ShortestAvoids(E: Edges, x: (Vertex, Vertex), q: seq<Vertex>)
    requires PathFromTo(E + {x}, q, x.1, x.0) && x.0 != x.1
    ensures Reaches(E, x.1, x.0)
    decreases |q|
  {
    var F := E + {x};
    if i :| 0 <= i < |q| - 1 && (q[i], q[i + 1]) == x {
      assert i > 0;
      Slice(F, q, 0, i);
      assert |q[0..i + 1]| < |q|;
      ShortestAvoids(E, x, q[0..i + 1]);
    } else {
      forall i | 0 <= i < |q| - 1 ensures Link(E, q, i) {
        assert Link(F, q, i);
      }
      assert PathFromTo(E, q, x.1, x.0);
    }
  }

  ghost predicate Preceded(E: Edges, S: set<Vertex>, v: Vertex) {
    exists u: Vertex :: u in S && (u, v) in E
  }

  // Where every member of a set has a predecessor in the set there is a cycle.
  lemma PredecessorsCycle(E: Edges, S: set<Vertex>, v: Vertex)
    requires v in S && forall w :: w in S ==> Preceded(E, S, w)
    ensures !Acyclic(E)
  {
    hide *;
    BackToCycle(E, S, v, {});
  }

  // Walking backwards in S from v, past the vertices in done, closes a cycle.
  lemma {:induction false} BackToCycle(E: Edges, S: set<Vertex>, v: Vertex, done: set<Vertex>)
    requires forall w :: w in S ==> Preceded(E, S, w)
    requires v in S && done <= S && forall d :: d in done ==> Reaches(E, v, d)
    ensures !Acyclic(E)
    decreases S - done
  {
    if Acyclic(E) {
      assert v !in done;
      hide Reaches, Acyclic;
      assert Preceded(E, S, v);
      var u: Vertex :| u in S && (u, v) in E;
      EdgeReaches(E, u, v);
      forall d | d in done + {v} ensures Reaches(E, u, d) {
        if d != v { Transitive(E, u, v, d); }
      }
      hide Preceded;
      BackToCycle(E, S, u, done + {v});
    }
  }

  ghost predicate Followed(E: Edges, S: set<Vertex>, v: Vertex) {
    exists w: Vertex :: w in S && (v, w) in E
  }

  // Where every member of a set has a successor in the set there is a cycle.
  lemma SuccessorsCycle(E: Edges, S: set<Vertex>, v: Vertex)
    requires v in S && forall w :: w in S ==> Followed(E, S, w)
    ensures !Acyclic(E)
  {
    hide *;
    OnToCycle(E, S, v, {});
  }

  // Walking forwards in S from v, past the vertices in done, closes a cycle.
  lemma {:induction false} OnToCycle(E: Edges, S: set<Vertex>, v: Vertex, done: set<Vertex>)
    requires forall w :: w in S ==> Followed(E, S, w)
    requires v in S && done <= S && forall d :: d in done ==> Reaches(E, d, v)
    ensures !Acyclic(E)
    decreases S - done
  {
    if Acyclic(E) {
      assert v !in done;
      hide Reaches, Acyclic;
      assert Followed(E, S, v);
      var u: Vertex :| u in S && (v, u) in E;
      EdgeReaches(E, v, u);
      forall d | d in done + {v} ensures Reaches(E, d, u) {
        if d != v { Transitive(E, d, v, u); }
      }
      hide Followed;
      OnToCycle(E, S, u, done + {v});
    }
  }
}
