/** Start and finish of the merged model: the start leads to exactly what the agents' starts
    lead to, and exactly the agents' outputs lead to the finish. */
module MergedEnds {
  import opened Digraph
  import opened DataFlow
  import opened TaskGraph
  import opened ModelGraph
  import opened MergedOrder

  // f puts into place what an agent's start leads to.
  ghost predicate Follows(labels: seq<Label>, D: Edges, f: Vertex -> Vertex, q: Vertex) {
    exists e :: e in D && e.0 < |labels| && labels[e.0].kind.StartAgent? && q == f(e.1)
  }

  ghost predicate IsOutput(labels: seq<Label>, f: Vertex -> Vertex, q: Vertex) {
    exists v: Vertex :: v < |labels| && labels[v].kind.IoPopWrite? && q == f(v)
  }

  // In F, where f puts the agents' tasks, s is the start and t the finish.
  ghost predicate Ends(labels: seq<Label>, D: Edges, F: Edges, f: Vertex -> Vertex, s: Vertex, t: Vertex) {
    forall q: Vertex :: ((s, q) in F <==> Follows(labels, D, f, q)) && ((q, t) in F <==> IsOutput(labels, f, q))
  }

  lemma EndsAt(labels: seq<Label>, D: Edges, F: Edges, f: Vertex -> Vertex, s: Vertex, t: Vertex, q: Vertex)
    requires Ends(labels, D, F, f, s, t)
    ensures ((s, q) in F <==> Follows(labels, D, f, q)) && ((q, t) in F <==> IsOutput(labels, f, q))
  {
  }

  // ------------------------------------------------------- importing the agents

  // An agent's start stands behind the model's, and an output before its finish.
  ghost predicate Bounded(labels: seq<Label>, U: Edges) {
    forall q: Vertex :: ((0, q) in U <==> HasKind(labels, q, StartAgent)) && ((q, 1) in U <==> HasKind(labels, q, IoPopWrite))
  }

  predicate HasKind(labels: seq<Label>, q: Vertex, kind: TaskType) {
    2 <= q < |labels| + 2 && labels[q - 2].kind == kind
  }

  lemma BoundedAt(labels: seq<Label>, U: Edges, q: Vertex)
    requires Bounded(labels, U)
    ensures ((0, q) in U <==> HasKind(labels, q, StartAgent)) && ((q, 1) in U <==> HasKind(labels, q, IoPopWrite))
  {
  }

  lemma {:induction false} BoundaryHas(kinds: seq<TaskType>, k: nat, n: nat, start: Vertex, end: Vertex, i: nat)
    requires i < k <= |kinds|
    ensures kinds[i].StartAgent? ==> Edge(start, n + i, Unlabelled) in BoundaryEdges(kinds, k, n, start, end)
    ensures kinds[i].IoPopWrite? ==> Edge(n + i, end, Unlabelled) in BoundaryEdges(kinds, k, n, start, end)
  {
    if i < k - 1 {
      BoundaryHas(kinds, k - 1, n, start, end, i);
    }
  }

  // What an agent brings along between the model's ends and its own tasks.
  lemma {:induction false} ImportedEnds(kinds: seq<TaskType>, es: set<Edge>, n: nat, q: Vertex)
    requires 2 <= n
    ensures (0, q) in Pairs(Imported(kinds, es, n, 0, 1)) <==> n <= q < n + |kinds| && kinds[q - n].StartAgent?
    ensures (q, 1) in Pairs(Imported(kinds, es, n, 0, 1)) <==> n <= q < n + |kinds| && kinds[q - n].IoPopWrite?
  {
    hide *;
    var I := Imported(kinds, es, n, 0, 1);
    if (0, q) in Pairs(I) {
      var e := EdgeOf(I, (0, q));
      BoundaryEnd(kinds, es, n, e);
    }
    if (q, 1) in Pairs(I) {
      var e := EdgeOf(I, (q, 1));
      BoundaryEnd(kinds, es, n, e);
    }
    if n <= q < n + |kinds| {
      BoundaryHas(kinds, |kinds|, n, 0, 1, q - n);
      BoundaryIn(kinds, es, n, Edge(0, q, Unlabelled));
      BoundaryIn(kinds, es, n, Edge(q, 1, Unlabelled));
    }
  }

  lemma {:induction false} BoundaryEnd(kinds: seq<TaskType>, es: set<Edge>, n: nat, e: Edge)
    requires 2 <= n && e in Imported(kinds, es, n, 0, 1)
    ensures e.source == 0 ==> n <= e.target < n + |kinds| && kinds[e.target - n].StartAgent?
    ensures e.target == 1 ==> n <= e.source < n + |kinds| && kinds[e.source - n].IoPopWrite?
  {
    hide *;
    if e in BoundaryEdges(kinds, |kinds|, n, 0, 1) {
      BoundaryKinds(kinds, |kinds|, n, 0, 1, e);
    } else {
      var d := ImportedFrom(kinds, es, n, 0, 1, e);
    }
  }

  lemma BoundaryIn(kinds: seq<TaskType>, es: set<Edge>, n: nat, e: Edge)
    ensures e in BoundaryEdges(kinds, |kinds|, n, 0, 1) ==> (e.source, e.target) in Pairs(Imported(kinds, es, n, 0, 1))
  {
    hide BoundaryEdges;
    if e in BoundaryEdges(kinds, |kinds|, n, 0, 1) {
      PairOf(Imported(kinds, es, n, 0, 1), e);
    }
  }

  lemma {:induction false} BoundedGrows(labels: seq<Label>, U: set<Edge>, more: seq<Label>, kinds: seq<TaskType>, es: set<Edge>)
    requires Bounded(labels, Pairs(U))
    requires |kinds| == |more| && forall i :: 0 <= i < |more| ==> kinds[i] == more[i].kind
    ensures Bounded(labels + more, Pairs(U + Imported(kinds, es, 2 + |labels|, 0, 1)))
  {
    var I := Imported(kinds, es, 2 + |labels|, 0, 1);
    PairsUnion(U, I);
    hide Imported, Pairs, Bounded;
    forall q: Vertex
      ensures (0, q) in Pairs(U + I) <==> HasKind(labels + more, q, StartAgent)
      ensures (q, 1) in Pairs(U + I) <==> HasKind(labels + more, q, IoPopWrite)
    {
      BoundedAt(labels, Pairs(U), q);
      ImportedEnds(kinds, es, 2 + |labels|, q);
      KindAmong(labels, more, q, StartAgent);
      KindAmong(labels, more, q, IoPopWrite);
    }
    IsBounded(labels + more, Pairs(U + I));
  }

  lemma KindAmong(labels: seq<Label>, more: seq<Label>, q: Vertex, kind: TaskType)
    ensures ghost var n := 2 + |labels|;
            HasKind(labels + more, q, kind) <==> HasKind(labels, q, kind) || (n <= q < n + |more| && more[q - n].kind == kind)
  {
  }

  lemma IsBounded(labels: seq<Label>, U: Edges)
    requires forall q: Vertex :: (0, q) in U <==> HasKind(labels, q, StartAgent)
    requires forall q: Vertex :: (q, 1) in U <==> HasKind(labels, q, IoPopWrite)
    ensures Bounded(labels, U)
  {
  }

  // ------------------------------------------------------ the starts contracted

  function TwoOn(): Vertex -> Vertex {
    v => 2 + v
  }

  // What leads from the start and to the finish while the agents' starts are bypassed.
  ghost predicate Reached(labels: seq<Label>, D: Edges, p: (Vertex, Vertex)) {
    && (p.0 == 0 ==> HasKind(labels, p.1, StartAgent) || Follows(labels, D, TwoOn(), p.1))
    && (p.1 == 1 ==> HasKind(labels, p.0, IoPopWrite))
  }

  lemma {:induction false} BypassedReached(labels: seq<Label>, D: Edges, E: Edges, c: Vertex, p: (Vertex, Vertex))
    requires AllOfAgents(labels, D, E) && HasKind(labels, c, StartAgent) && p in Bypass(E, c)
    requires forall q :: q in E ==> Reached(labels, D, q)
    ensures Reached(labels, D, p)
  {
    if p !in E {
      var a, b :| a in E && b in E && a.1 == c && b.0 == c && p == (a.0, b.1);
      assert OfAgents(labels, D, a) && OfAgents(labels, D, b) && Reached(labels, D, b);
      hide Reached, Follows;
      assert a.0 == 0 && b.1 != 1 by { assert Reached(labels, D, b) ==> (b.1 == 1 ==> HasKind(labels, c, IoPopWrite)) by { ReachedIs(labels, D, b); } }
      var e := (b.0 - 2, b.1 - 2);
      assert e in D && p.1 == TwoOn()(e.1);
      StartFollows(labels, D, TwoOn(), e);
      IsReached(labels, D, p);
    }
  }

  lemma ReachedIs(labels: seq<Label>, D: Edges, p: (Vertex, Vertex))
    requires Reached(labels, D, p)
    ensures p.0 == 0 ==> HasKind(labels, p.1, StartAgent) || Follows(labels, D, TwoOn(), p.1)
    ensures p.1 == 1 ==> HasKind(labels, p.0, IoPopWrite)
  {
  }

  lemma IsReached(labels: seq<Label>, D: Edges, p: (Vertex, Vertex))
    requires Follows(labels, D, TwoOn(), p.1) && p.1 != 1
    ensures Reached(labels, D, p)
  {
  }

  lemma StartFollows(labels: seq<Label>, D: Edges, f: Vertex -> Vertex, e: (Vertex, Vertex))
    requires e in D && e.0 < |labels| && labels[e.0].kind.StartAgent?
    ensures Follows(labels, D, f, f(e.1))
  {
  }

  lemma {:induction false} AllBypassedReached(labels: seq<Label>, D: Edges, E: Edges, cs: seq<Vertex>)
    requires AllOfAgents(labels, D, E) && forall c :: c in cs ==> HasKind(labels, c, StartAgent)
    requires forall p :: p in E ==> Reached(labels, D, p)
    ensures forall p :: p in BypassAll(E, cs) ==> Reached(labels, D, p)
  {
    hide *;
    if cs == [] {
      NoBypass(E);
    } else {
      var init, c := cs[..|cs| - 1], cs[|cs| - 1];
      assert c in cs && forall d :: d in init ==> d in cs;
      forall d | d in cs ensures 2 <= d < |labels| + 2 && !Inner(labels, d - 2) {
        StartIs(labels, d);
      }
      BypassedStarts(labels, D, E, init);
      AllBypassedReached(labels, D, E, init);
      BypassLast(E, cs);
      forall p | p in BypassAll(E, cs) ensures Reached(labels, D, p) {
        BypassedReached(labels, D, BypassAll(E, init), c, p);
      }
    }
  }

  lemma StartIs(labels: seq<Label>, c: Vertex)
    ensures HasKind(labels, c, StartAgent) <==> 2 <= c < |labels| + 2 && !Inner(labels, c - 2)
  {
  }

  lemma {:induction false} Joined(E: Edges, cs: seq<Vertex>, a: Vertex, c: Vertex, b: Vertex)
    requires c in cs && (a, c) in E && (c, b) in E
    ensures (a, b) in BypassAll(E, cs)
  {
    hide *;
    var init, d := cs[..|cs| - 1], cs[|cs| - 1];
    assert cs == init + [d];
    BypassLast(E, cs);
    if c in init {
      Joined(E, init, a, c, b);
    } else {
      BypassKeeps(E, init);
    }
    BypassJoins(BypassAll(E, init), d, a, b);
  }

  lemma BypassJoins(E: Edges, c: Vertex, a: Vertex, b: Vertex)
    ensures (a, b) in E ==> (a, b) in Bypass(E, c)
    ensures (a, c) in E && (c, b) in E ==> (a, b) in Bypass(E, c)
  {
    if (a, c) in E && (c, b) in E {
      var s, t := (a, c), (c, b);
      assert s in E && t in E && s.1 == c && t.0 == c && (a, b) == (s.0, t.1);
    }
  }

  lemma {:induction false} BypassKeeps(E: Edges, cs: seq<Vertex>)
    ensures E <= BypassAll(E, cs)
  {
    if cs != [] {
      BypassKeeps(E, cs[..|cs| - 1]);
    }
  }

  // The model's start takes the place of the agents' starts.
  lemma {:induction false} BypassedEnds(labels: seq<Label>, D: Edges, labels1: seq<Label>, E1: Edges, cs: seq<Vertex>)
    requires SideBySide(labels, D, labels1, E1) && StartsOf(labels, cs) && Bounded(labels, E1)
    ensures Ends(labels, D, Avoiding(BypassAll(E1, cs), Elements(cs)), TwoOn(), 0, 1)
  {
    hide *;
    var B := BypassAll(E1, cs);
    var F := Avoiding(B, Elements(cs));
    SidesAre(labels, D, labels1, E1);
    SidesAgents(labels, D, labels1, E1);
    StartsAreKinds(labels, cs);
    BypassKeeps(E1, cs);
    BoundedReached(labels, D, E1);
    AllBypassedReached(labels, D, E1, cs);
    forall q: Vertex
      ensures (0, q) in F <==> Follows(labels, D, TwoOn(), q)
      ensures (q, 1) in F <==> IsOutput(labels, TwoOn(), q)
    {
      InAvoiding(B, Elements(cs), (0, q));
      InAvoiding(B, Elements(cs), (q, 1));
      if (0, q) in F { ReachedIs(labels, D, (0, q)); }
      if (q, 1) in F {
        ReachedIs(labels, D, (q, 1));
        OutputThere(labels, q);
      }
      if Follows(labels, D, TwoOn(), q) {
        var e := FollowedFrom(labels, D, q);
        InnerOnly(labels, D, e);
        BoundedAt(labels, E1, 2 + e.0);
        Joined(E1, cs, 0, 2 + e.0, q);
      }
      if IsOutput(labels, TwoOn(), q) {
        OutputThere(labels, q);
        BoundedAt(labels, E1, q);
      }
    }
    AreEnds(labels, D, F, TwoOn(), 0, 1);
  }

  lemma SidesAgents(labels: seq<Label>, D: Edges, labels1: seq<Label>, E1: Edges)
    requires SideBySide(labels, D, labels1, E1)
    ensures AllOfAgents(labels, D, E1) && forall e :: e in D ==> (2 + e.0, 2 + e.1) in E1
  {
    hide AllOfAgents, InRange;
  }

  lemma StartsAreKinds(labels: seq<Label>, cs: seq<Vertex>)
    requires StartsOf(labels, cs)
    ensures forall c :: c in Elements(cs) <==> HasKind(labels, c, StartAgent)
    ensures forall c :: c in cs <==> HasKind(labels, c, StartAgent)
    ensures 0 !in Elements(cs) && 1 !in Elements(cs)
  {
  }

  lemma BoundedReached(labels: seq<Label>, D: Edges, E: Edges)
    requires Bounded(labels, E)
    ensures forall p :: p in E ==> Reached(labels, D, p)
  {
    hide HasKind, Follows;
    forall p | p in E ensures Reached(labels, D, p) {
      if p.0 == 0 { assert p == (0, p.1); }
      if p.1 == 1 { assert p == (p.0, 1); }
    }
  }

  lemma InAvoiding(E: Edges, S: set<Vertex>, p: (Vertex, Vertex))
    ensures p in Avoiding(E, S) <==> p in E && p.0 !in S && p.1 !in S
  {
  }

  lemma OutputThere(labels: seq<Label>, q: Vertex)
    ensures HasKind(labels, q, IoPopWrite) <==> IsOutput(labels, TwoOn(), q)
    ensures HasKind(labels, q, IoPopWrite) ==> !HasKind(labels, q, StartAgent)
  {
    if HasKind(labels, q, IoPopWrite) {
      var v := q - 2;
      assert q == TwoOn()(v);
    }
  }

  lemma FollowedFrom(labels: seq<Label>, D: Edges, q: Vertex) returns (e: (Vertex, Vertex))
    requires Follows(labels, D, TwoOn(), q)
    ensures e in D && HasKind(labels, 2 + e.0, StartAgent) && q == 2 + e.1
  {
    e :| e in D && e.0 < |labels| && labels[e.0].kind.StartAgent? && q == TwoOn()(e.1);
  }

  lemma InnerOnly(labels: seq<Label>, D: Edges, e: (Vertex, Vertex))
    requires (forall d :: d in D ==> Inner(labels, d.1)) && e in D
    ensures !HasKind(labels, 2 + e.1, StartAgent)
  {
  }

  lemma AreEnds(labels: seq<Label>, D: Edges, F: Edges, f: Vertex -> Vertex, s: Vertex, t: Vertex)
    requires forall q: Vertex :: (s, q) in F <==> Follows(labels, D, f, q)
    requires forall q: Vertex :: (q, t) in F <==> IsOutput(labels, f, q)
    ensures Ends(labels, D, F, f, s, t)
  {
    hide Follows, IsOutput;
  }

  // ------------------------------------------- synchronising, renumbering, clearing

  // Moving the vertices keeps the ends if nothing else is moved onto them.
  lemma {:induction false} EndsMoved(labels: seq<Label>, D: Edges, F: Edges, f: Vertex -> Vertex, s: Vertex, t: Vertex,
                                     h: Vertex -> Vertex, g: Vertex -> Vertex)
    requires Ends(labels, D, F, f, s, t) && forall e :: e in D ==> Inner(labels, e.1)
    requires forall p :: p in F ==> (h(p.0) == h(s) ==> p.0 == s) && (h(p.1) == h(t) ==> p.1 == t)
    requires forall v: Vertex :: Inner(labels, v) ==> g(v) == h(f(v))
    ensures Ends(labels, D, Image(F, h), g, h(s), h(t))
  {
    hide *;
    forall q: Vertex
      ensures (h(s), q) in Image(F, h) <==> Follows(labels, D, g, q)
      ensures (q, h(t)) in Image(F, h) <==> IsOutput(labels, g, q)
    {
      StartMoved(labels, D, F, f, s, t, h, g, q);
      FinishMoved(labels, D, F, f, s, t, h, g, q);
    }
    AreEnds(labels, D, Image(F, h), g, h(s), h(t));
  }

  lemma {:induction false} StartMoved(labels: seq<Label>, D: Edges, F: Edges, f: Vertex -> Vertex, s: Vertex, t: Vertex,
                                      h: Vertex -> Vertex, g: Vertex -> Vertex, q: Vertex)
    requires Ends(labels, D, F, f, s, t) && forall e :: e in D ==> Inner(labels, e.1)
    requires forall p :: p in F ==> (h(p.0) == h(s) ==> p.0 == s) && (h(p.1) == h(t) ==> p.1 == t)
    requires forall v: Vertex :: Inner(labels, v) ==> g(v) == h(f(v))
    ensures (h(s), q) in Image(F, h) <==> Follows(labels, D, g, q)
  {
    hide Ends, IsOutput, Inner;
    if (h(s), q) in Image(F, h) {
      var p: (Vertex, Vertex) :| p in F && (h(s), q) == (h(p.0), h(p.1));
      assert p == (s, p.1);
      EndsAt(labels, D, F, f, s, t, p.1);
      var e :| e in D && e.0 < |labels| && labels[e.0].kind.StartAgent? && p.1 == f(e.1);
      assert q == g(e.1);
    }
    if Follows(labels, D, g, q) {
      var e :| e in D && e.0 < |labels| && labels[e.0].kind.StartAgent? && q == g(e.1);
      StartFollows(labels, D, f, e);
      EndsAt(labels, D, F, f, s, t, f(e.1));
      ImageHas(F, h, s, f(e.1));
    }
  }

  lemma {:induction false} FinishMoved(labels: seq<Label>, D: Edges, F: Edges, f: Vertex -> Vertex, s: Vertex, t: Vertex,
                                       h: Vertex -> Vertex, g: Vertex -> Vertex, q: Vertex)
    requires Ends(labels, D, F, f, s, t)
    requires forall p :: p in F ==> (h(p.0) == h(s) ==> p.0 == s) && (h(p.1) == h(t) ==> p.1 == t)
    requires forall v: Vertex :: Inner(labels, v) ==> g(v) == h(f(v))
    ensures (q, h(t)) in Image(F, h) <==> IsOutput(labels, g, q)
  {
    hide Ends, Follows;
    if (q, h(t)) in Image(F, h) {
      var p: (Vertex, Vertex) :| p in F && (q, h(t)) == (h(p.0), h(p.1));
      assert p == (p.0, t);
      EndsAt(labels, D, F, f, s, t, p.0);
      var v: Vertex :| v < |labels| && labels[v].kind.IoPopWrite? && p.0 == f(v);
      assert Inner(labels, v) && q == g(v);
    }
    if IsOutput(labels, g, q) {
      var v: Vertex :| v < |labels| && labels[v].kind.IoPopWrite? && q == g(v);
      assert Inner(labels, v) && IsOutput(labels, f, f(v));
      EndsAt(labels, D, F, f, s, t, f(v));
      ImageHas(F, h, f(v), t);
    }
  }

  // Clearing tasks come behind tasks that follow a synchronisation, never behind these two.
  lemma {:induction false} ClearKeepsEnds(labels: seq<Label>, D: Edges, kept: seq<Label>, E: Edges, f: Vertex -> Vertex)
    requires Ends(labels, D, E, f, 0, 1) && InRange(E, |kept|) && |kept| >= 2 && forall p :: p in E ==> p.1 != 0
    ensures Ends(labels, D, E + ClearEdges(kept, E, |kept|), f, 0, 1)
  {
    hide *;
    var C := ClearEdges(kept, E, |kept|);
    ClearEdgesShape(kept, E);
    forall q: Vertex
      ensures (0, q) in E + C <==> Follows(labels, D, f, q)
      ensures (q, 1) in E + C <==> IsOutput(labels, f, q)
    {
      EndsAt(labels, D, E, f, 0, 1, q);
      NotCleared(kept, E, q);
    }
    AreEnds(labels, D, E + C, f, 0, 1);
  }

  lemma {:induction false} NotCleared(kept: seq<Label>, E: Edges, q: Vertex)
    requires InRange(E, |kept|) && |kept| >= 2 && forall p :: p in E ==> p.1 != 0
    ensures (0, q) !in ClearEdges(kept, E, |kept|) && (q, 1) !in ClearEdges(kept, E, |kept|)
  {
    ClearEdgesShape(kept, E);
    ClearEdgesExact(kept, E, |kept|, (0, q));
    hide ClearEdges, ClearOf, InRange;
    assert forall v: Vertex :: (v, 0) in E ==> (v, 0).1 != 0;
    assert forall p :: p in ClearEdges(kept, E, |kept|) ==> p.1 >= 2;
    assert (q, 1).1 == 1;
  }

  lemma {:induction false} SyncedEnds(labels: seq<Label>, D: Edges, labels1: seq<Label>, es: set<Edge>, cs: seq<Vertex>, all: seq<Label>)
    requires SideBySide(labels, D, labels1, Pairs(es)) && StartsOf(labels, cs) && Bounded(labels, Pairs(es))
    requires AllSynced(Kept(labels1, Elements(cs)), all)
    requires InRange(Pairs(Contracted(es, cs, Blank)), |Kept(labels1, Elements(cs))|)
    ensures Ends(labels, D, MessagesShared(Pairs(Contracted(es, cs, Blank)), all), PlaceOf(cs, all), 0, 1)
  {
    hide *;
    var E2, labels2 := Pairs(Contracted(es, cs, Blank)), Kept(labels1, Elements(cs));
    ContractedEnds(labels, D, labels1, es, cs);
    SidesAre(labels, D, labels1, Pairs(es));
    var h: Vertex -> Vertex := v => Redirect(all, |all|, v);
    var f: Vertex -> Vertex := v => AtTwo(cs, v);
    EndsStay(labels, labels1, cs);
    EndsNotShared(labels, labels1, cs, all, 0);
    EndsNotShared(labels, labels1, cs, all, 1);
    forall p | p in E2 ensures (h(p.0) == h(0) ==> p.0 == 0) && (h(p.1) == h(1) ==> p.1 == 1) {
      PairInRange(E2, |labels2|, p);
      EndsNotShared(labels, labels1, cs, all, p.0);
      EndsNotShared(labels, labels1, cs, all, p.1);
    }
    forall v: Vertex ensures PlaceOf(cs, all)(v) == h(f(v)) {
      PlaceIsAtTwo(cs, all, v);
    }
    EndsMoved(labels, D, E2, f, 0, 1, h, PlaceOf(cs, all));
    SharedIs(E2, all);
  }

  lemma PlaceIsAtTwo(cs: seq<Vertex>, all: seq<Label>, v: Vertex)
    ensures PlaceOf(cs, all)(v) == Redirect(all, |all|, AtTwo(cs, v))
  {
    hide Redirect, AtTwo;
  }

  lemma SharedIs(E: Edges, all: seq<Label>)
    ensures MessagesShared(E, all) == Image(E, v => Redirect(all, |all|, v))
  {
  }

  lemma PairInRange(E: Edges, n: nat, p: (Vertex, Vertex))
    requires InRange(E, n) && p in E
    ensures p.0 < n && p.1 < n
  {
  }

  lemma {:induction false} ContractedEnds(labels: seq<Label>, D: Edges, labels1: seq<Label>, es: set<Edge>, cs: seq<Vertex>)
    requires SideBySide(labels, D, labels1, Pairs(es)) && StartsOf(labels, cs) && Bounded(labels, Pairs(es))
    ensures Ends(labels, D, Pairs(Contracted(es, cs, Blank)), v => AtTwo(cs, v), 0, 1)
  {
    hide *;
    var S, B := Elements(cs), BypassAll(Pairs(es), cs);
    var F := Avoiding(B, S);
    BypassedEnds(labels, D, labels1, Pairs(es), cs);
    SidesAre(labels, D, labels1, Pairs(es));
    EndsStay(labels, labels1, cs);
    StartsAreKinds(labels, cs);
    var h: Vertex -> Vertex := i => Rank(S, i);
    var g: Vertex -> Vertex := v => AtTwo(cs, v);
    forall p | p in F ensures (h(p.0) == h(0) ==> p.0 == 0) && (h(p.1) == h(1) ==> p.1 == 1) {
      InAvoiding(B, S, p);
      if h(p.0) == h(0) { RankInjective(S, p.0, 0); }
      if h(p.1) == h(1) { RankInjective(S, p.1, 1); }
    }
    forall v: Vertex ensures g(v) == h(TwoOn()(v)) {
      AtTwoIsRank(cs, v);
    }
    EndsMoved(labels, D, F, TwoOn(), 0, 1, h, g);
    ContractedPairs(es, cs);
    WithoutIs(B, cs);
  }

  lemma AtTwoIsRank(cs: seq<Vertex>, v: Vertex)
    ensures AtTwo(cs, v) == Rank(Elements(cs), TwoOn()(v))
  {
    hide Rank;
  }

  lemma WithoutIs(B: Edges, cs: seq<Vertex>)
    ensures WithoutStarts(B, cs) == Image(Avoiding(B, Elements(cs)), i => Rank(Elements(cs), i))
  {
  }

  // Start and finish keep their places when the messages have gone.
  lemma {:induction false} EndsInThird(g: Stages)
    requires g.Valid()
    ensures 0 !in g.Gone() && 1 !in g.Gone() && Rank(g.Gone(), 0) == 0 && Rank(g.Gone(), 1) == 1
    ensures |g.Labels3()| >= 2 && g.Labels3()[0] == g.labels1[0] && g.Labels3()[1] == g.labels1[1]
    ensures forall p :: p in g.E3() ==> p.1 != 0
  {
    hide *;
    StagesPlace(g);
    StagesSides(g);
    EndsStay(g.labels, g.labels1, g.starts);
    SyncedHas(Kept(g.labels1, Elements(g.starts)), g.all);
    ThirdIs(g);
    SyncedIs(g);
    NoMessagesYet(g.all);
    KeptAt(g.all, g.Gone());
    FirstKept(g.all, g.Gone());
    PairsRenumbered(g.es, g.Gone());
    NothingBefore(g.labels, g.D, g.Synced(), PlaceOf(g.starts, g.all), 0, 1);
    var h: Vertex -> Vertex := i => Rank(g.Gone(), i);
    forall p | p in g.E3() ensures p.1 != 0 {
      var q := ImageOf(g.Synced(), h, p);
      InAvoiding(Pairs(g.es), g.Gone(), q);
      if h(q.1) == h(0) { RankInjective(g.Gone(), q.1, 0); }
    }
  }

  lemma StagesSides(g: Stages)
    requires g.Valid()
    ensures SideBySide(g.labels, g.D, g.labels1, Pairs(g.es1)) && StartsOf(g.labels, g.starts)
    ensures |g.labels1| == |g.labels| + 2 && g.labels1[2..] == g.labels && g.labels1[0].kind.StartModel? && g.labels1[1].kind.FinishModel?
  {
    hide SyncProgress, StartsOf, InRange, AllOfAgents;
  }

  lemma SyncedHas(labels2: seq<Label>, all: seq<Label>)
    requires AllSynced(labels2, all) && |labels2| >= 2
    ensures |all| >= 2 && all[0] == labels2[0] && all[1] == labels2[1]
  {
    hide Find;
  }

  lemma NoMessagesYet(all: seq<Label>)
    requires |all| >= 2 && all[0].kind.StartModel? && all[1].kind.FinishModel?
    ensures 0 !in MessagesOf(all) && 1 !in MessagesOf(all)
  {
  }

  lemma FirstKept(labels: seq<Label>, del: set<Vertex>)
    requires 0 !in del && 1 !in del && |labels| >= 2
    ensures Rank(del, 0) == 0 && Rank(del, 1) == 1
  {
    RankIdentity(del, 0);
    RankIdentity(del, 1);
  }

  lemma NothingBefore(labels: seq<Label>, D: Edges, F: Edges, f: Vertex -> Vertex, s: Vertex, t: Vertex)
    requires Places(labels, D, F, f, s, t)
    ensures forall p :: p in F ==> p.1 != s && p.0 != t
    ensures forall e :: e in D ==> Inner(labels, e.1)
  {
    hide Canon, ComesFrom, InRange;
  }

  lemma ImageOf(E: Edges, h: Vertex -> Vertex, p: (Vertex, Vertex)) returns (q: (Vertex, Vertex))
    requires p in Image(E, h)
    ensures q in E && p == (h(q.0), h(q.1))
  {
    q :| q in E && p == (h(q.0), h(q.1));
  }

  /** In the finished graph the start leads to exactly what the agents' starts lead to, and
      exactly the agents' outputs lead to the finish. */
  lemma {:induction false} FinalEnds(g: Stages)
    requires g.Valid() && Bounded(g.labels, Pairs(g.es1))
    ensures Ends(g.labels, g.D, g.E4(), v => g.At(v), 0, 1)
  {
    hide *;
    StagesPlace(g);
    StagesSides(g);
    SyncedIs(g);
    ThirdIs(g);
    StagesInRange(g);
    SyncedEnds(g.labels, g.D, g.labels1, g.es1, g.starts, g.all);
    EndsInThird(g);
    ThirdInRange(g);
    NothingBefore(g.labels, g.D, g.Synced(), PlaceOf(g.starts, g.all), 0, 1);
    PairsRenumbered(g.es, g.Gone());
    var h: Vertex -> Vertex := i => Rank(g.Gone(), i);
    var f: Vertex -> Vertex := v => g.At(v);
    forall p | p in g.Synced() ensures (h(p.0) == h(0) ==> p.0 == 0) && (h(p.1) == h(1) ==> p.1 == 1) {
      InAvoiding(Pairs(g.es), g.Gone(), p);
      if h(p.0) == h(0) { RankInjective(g.Gone(), p.0, 0); }
      if h(p.1) == h(1) { RankInjective(g.Gone(), p.1, 1); }
    }
    forall v: Vertex ensures f(v) == h(PlaceOf(g.starts, g.all)(v)) {
      AtIs(g, v);
    }
    EndsMoved(g.labels, g.D, g.Synced(), PlaceOf(g.starts, g.all), 0, 1, h, f);
    ClearKeepsEnds(g.labels, g.D, g.Labels3(), g.E3(), f);
  }

  lemma AtIs(g: Stages, v: Vertex)
    ensures g.At(v) == Rank(g.Gone(), PlaceOf(g.starts, g.all)(v))
  {
    hide Rank, AtThree;
  }

  lemma StagesInRange(g: Stages)
    requires g.Valid()
    ensures InRange(Pairs(Contracted(g.es1, g.starts, Blank)), |Kept(g.labels1, Elements(g.starts))|)
  {
    hide SideBySide, StartsOf, Contracted, Kept, Pairs;
    SyncedInRange(Kept(g.labels1, Elements(g.starts)), Pairs(Contracted(g.es1, g.starts, Blank)), g.all, Pairs(g.es));
  }
}
