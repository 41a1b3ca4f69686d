/** That the contracts of the graph algorithms can be met: every acyclic graph has a
    topological order and a transitive reduction. */
module GraphAlgorithms {
  import opened Digraph
  import opened TaskGraph

  // ------------------------------------------------------- topological orders

  // order lists the members of done, each once and after what leads to it.
  ghost predicate OrdersSoFar(E: Edges, n: nat, done: set<Vertex>, order: seq<Vertex>) {
    && done == Elements(order)
    && (forall v :: v in done ==> v < n)
    && (forall i, j :: 0 <= i < j < |order| ==> order[i] != order[j])
    && (forall i, j :: 0 <= i < |order| && 0 <= j < |order| && (order[i], order[j]) in E ==> i < j)
    && (forall u, v :: (u, v) in E && v in done ==> u in done)
  }

  lemma {:induction false} OrderGrows(E: Edges, n: nat, order: seq<Vertex>) returns (whole: seq<Vertex>)
    requires Acyclic(E) && InRange(E, n) && OrdersSoFar(E, n, Elements(order), order)
    ensures TopologicalOrder(E, n, whole)
    decreases Below(n) - Elements(order)
  {
    var rest := Below(n) - Elements(order);
    if rest == {} {
      whole := order;
      WholeGrown(E, n, order);
    } else {
      hide *;
      var v := FirstOf(E, rest);
      NextGrows(E, n, order, v);
      ElementsNext(order, v);
      whole := OrderGrows(E, n, order + [v]);
    }
  }

  lemma ElementsNext(order: seq<Vertex>, v: Vertex)
    ensures Elements(order + [v]) == Elements(order) + {v}
  {
  }

  lemma {:induction false} BelowSize(n: nat)
    ensures |Below(n)| == n
  {
    if n > 0 {
      BelowSize(n - 1);
    }
  }

  lemma WholeGrown(E: Edges, n: nat, order: seq<Vertex>)
    requires OrdersSoFar(E, n, Elements(order), order) && Below(n) <= Elements(order)
    ensures TopologicalOrder(E, n, order)
  {
    DistinctSize(order);
    BelowSize(n);
    assert Elements(order) == Below(n);
    forall i | 0 <= i < |order| ensures order[i] < n {
      assert order[i] in Elements(order);
    }
    forall v | 0 <= v < n ensures v in order {
      assert v in Elements(order);
    }
  }

  // A set without cycles has a member that no other leads to.
  lemma FirstOf(E: Edges, S: set<Vertex>) returns (v: Vertex)
    requires Acyclic(E) && S != {}
    ensures v in S && !Preceded(E, S, v)
  {
    var w :| w in S;
    hide *;
    if forall u :: u in S ==> Preceded(E, S, u) {
      PredecessorsCycle(E, S, w);
    }
    v :| v in S && !Preceded(E, S, v);
  }

  lemma NextGrows(E: Edges, n: nat, order: seq<Vertex>, v: Vertex)
    requires Acyclic(E) && InRange(E, n) && OrdersSoFar(E, n, Elements(order), order)
    requires v in Below(n) - Elements(order) && !Preceded(E, Below(n) - Elements(order), v)
    ensures OrdersSoFar(E, n, Elements(order + [v]), order + [v])
  {
    var longer, rest := order + [v], Below(n) - Elements(order);
    NoSelfLoop(E, v);
    hide Acyclic, Reaches;
    forall u | (u, v) in E ensures u in Elements(order) {
      assert (u, v).0 < n;
      assert u in rest ==> Preceded(E, rest, v);
    }
    assert Elements(longer) == Elements(order) + {v};
    forall i, j | 0 <= i < |longer| && 0 <= j < |longer| && (longer[i], longer[j]) in E ensures i < j {
      if i == |order| && j < |order| {
        assert longer[j] in Elements(order);
      }
    }
  }

  lemma {:induction false} DistinctSize(s: seq<Vertex>)
    requires forall i, j :: 0 <= i < j < |s| ==> s[i] != s[j]
    ensures |Elements(s)| == |s|
  {
    if s != [] {
      var n := |s| - 1;
      DistinctSize(s[..n]);
      assert Elements(s) == Elements(s[..n]) + {s[n]};
      assert s[n] !in s[..n];
    }
  }

  lemma OrderExists(E: Edges, n: nat) returns (order: seq<Vertex>)
    requires Acyclic(E) && InRange(E, n)
    ensures TopologicalOrder(E, n, order)
  {
    assert OrdersSoFar(E, n, Elements([]), []);
    order := OrderGrows(E, n, []);
  }

  // ---------------------------------------------------- transitive reductions

  // Dropping one redundant edge after another keeps the reachability.
  lemma {:induction false} Thinned(E: Edges, R: Edges) returns (T: Edges)
    requires R <= E && forall u, v :: Reaches(E, u, v) ==> Reaches(R, u, v)
    ensures T <= E && (forall u, v :: Reaches(E, u, v) <==> Reaches(T, u, v))
    ensures forall p :: p in T ==> !Reaches(T - {p}, p.0, p.1)
    decreases R
  {
    if p :| p in R && Reaches(R - {p}, p.0, p.1) {
      forall u, v | Reaches(E, u, v) ensures Reaches(R - {p}, u, v) {
        DropRedundant(R, p, u, v);
      }
      hide Reaches;
      T := Thinned(E, R - {p});
    } else {
      T := R;
      forall u, v | Reaches(T, u, v) ensures Reaches(E, u, v) {
        Monotone(T, E, u, v);
      }
    }
  }

  lemma DropRedundant(R: Edges, p: (Vertex, Vertex), u: Vertex, v: Vertex)
    requires p in R && Reaches(R - {p}, p.0, p.1) && Reaches(R, u, v)
    ensures Reaches(R - {p}, u, v)
  {
    hide Reaches;
    forall e | e in R ensures Reaches(R - {p}, e.0, e.1) {
      if e != p { EdgeReaches(R - {p}, e.0, e.1); }
    }
    LiftReaches(R, R - {p}, u, v);
  }

  lemma ReductionExists(n: nat, E: Edges) returns (to: seq<Vertex>, R: Edges)
    requires InRange(E, n)
    ensures IsTransitiveReduction(n, E, to, R)
  {
    to := seq(n, i => i);
    R := Thinned(E, E);
    hide Reaches;
    forall v | 0 <= v < n ensures v in to {
      assert to[v] == v;
    }
    forall p | p in R ensures exists e :: e in E && e.0 < n && e.1 < n && p == (to[e.0], to[e.1]) {
      assert p in E && p == (to[p.0], to[p.1]);
    }
  }

  // ------------------------------------------------------------ as functions

  ghost predicate CanBeSorted(n: nat, E: Edges) {
    exists order :: TopologicalOrder(E, n, order)
  }

  ghost function Sorted(n: nat, E: Edges): (order: seq<Vertex>)
    ensures CanBeSorted(n, E) ==> TopologicalOrder(E, n, order)
  {
    if CanBeSorted(n, E) then var order :| TopologicalOrder(E, n, order); order else []
  }

  ghost predicate IsReduction(n: nat, E: Edges, r: (seq<Vertex>, Edges)) {
    IsTransitiveReduction(n, E, r.0, r.1)
  }

  ghost predicate CanBeReduced(n: nat, E: Edges) {
    exists r :: IsReduction(n, E, r)
  }

  ghost function Reduced(n: nat, E: Edges): (r: (seq<Vertex>, Edges))
    ensures CanBeReduced(n, E) ==> IsReduction(n, E, r)
  {
    if CanBeReduced(n, E) then var r :| IsReduction(n, E, r); r else ([], {})
  }

  // There are functions that do what the compiler expects of the graph library.
  lemma ContractsCanBeMet() returns (sort: Sorter, reduce: Reducer, hasCycle: CycleFinder)
    ensures SortsTopologically(sort) && ReducesTransitively(reduce) && FindsCycles(hasCycle)
  {
    hide TopologicalOrder, IsTransitiveReduction, Reaches, Acyclic;
    sort := (n, E) => Sorted(n, E);
    reduce := (n, E) => Reduced(n, E);
    hasCycle := (n, E) => !Acyclic(E);
    forall n, E | InRange(E, n) && Acyclic(E)
      ensures TopologicalOrder(E, n, sort(n, E))
      ensures IsTransitiveReduction(n, E, reduce(n, E).0, reduce(n, E).1)
    {
      var order := OrderExists(E, n);
      assert CanBeSorted(n, E);
      var to, R := ReductionExists(n, E);
      assert IsReduction(n, E, (to, R));
      assert CanBeReduced(n, E);
      assert IsReduction(n, E, reduce(n, E));
    }
  }
}
