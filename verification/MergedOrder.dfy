/** The order of the merged model, told from the agents alone: their graphs side by side
    with the messages of one name taken for one. */
module MergedOrder {
  import opened Digraph
  import opened DataFlow
  import opened TaskGraph
  import opened ModelGraph

  // The first message of the same name; other tasks stand for themselves.
  function Canon(labels: seq<Label>, v: Vertex): Vertex {
    if v < |labels| && labels[v].kind.XMessage? then Find(labels, XMessage, labels[v].name) else v
  }

  function Shared(labels: seq<Label>, D: Edges): Edges {
    Image(D, v => Canon(labels, v))
  }

  ghost predicate Inner(labels: seq<Label>, v: Vertex) {
    v < |labels| && !labels[v].kind.StartAgent?
  }

  lemma {:induction false} CanonIs(labels: seq<Label>, v: Vertex)
    requires v < |labels|
    ensures Canon(labels, v) < |labels| && labels[Canon(labels, v)] == labels[v]
    ensures Canon(labels, Canon(labels, v)) == Canon(labels, v)
  {
    hide Find;
    if labels[v].kind.XMessage? {
      assert !(v < Find(labels, XMessage, labels[v].name));
    }
  }

  // Two tasks are taken for one exactly if they are messages of one name.
  lemma {:induction false} CanonSame(labels: seq<Label>, u: Vertex, v: Vertex)
    requires u < |labels| && v < |labels|
    ensures Canon(labels, u) == Canon(labels, v) <==> u == v || (labels[u].kind.XMessage? && labels[u] == labels[v])
  {
    hide Find;
    CanonIs(labels, u);
    CanonIs(labels, v);
  }

  // f puts the tasks of the agents into F, which else has edges out of s and into t
  // only; nothing leads to s and t leads nowhere.
  ghost predicate Places(labels: seq<Label>, D: Edges, F: Edges, f: Vertex -> Vertex, s: Vertex, t: Vertex) {
    && InRange(D, |labels|) && (forall e :: e in D ==> Inner(labels, e.1))
    && (forall a: Vertex, b: Vertex :: Inner(labels, a) && Inner(labels, b) ==> (f(a) == f(b) <==> Canon(labels, a) == Canon(labels, b)))
    && (forall a: Vertex :: Inner(labels, a) ==> f(a) != s && f(a) != t)
    && (forall e :: e in D && Inner(labels, e.0) ==> (f(e.0), f(e.1)) in F)
    && (forall p :: p in F ==> p.0 == s || p.1 == t || ComesFrom(labels, D, f, p))
    && (forall p :: p in F ==> p.1 != s && p.0 != t)
    && (forall m: Vertex :: Inner(labels, m) && labels[m].kind.XMessage? ==> (f(m), t) !in F)
  }

  ghost predicate ComesFrom(labels: seq<Label>, D: Edges, f: Vertex -> Vertex, p: (Vertex, Vertex)) {
    exists e :: e in D && Inner(labels, e.0) && p == (f(e.0), f(e.1))
  }

  // The agents' starts, which nothing leads to.
  ghost function Starts(labels: seq<Label>): (r: set<Vertex>)
    ensures forall v: Vertex :: v in r <==> v < |labels| && !Inner(labels, v)
  {
    set v: Vertex | 0 <= v < |labels| && !Inner(labels, v)
  }

  ghost function Within(labels: seq<Label>, D: Edges): Edges {
    Avoiding(D, Starts(labels))
  }

  lemma {:induction false} SharedWithin(labels: seq<Label>, D: Edges)
    requires InRange(D, |labels|) && forall e :: e in D ==> Inner(labels, e.1)
    ensures Shared(labels, Within(labels, D)) == Avoiding(Shared(labels, D), Starts(labels))
    ensures forall e :: e in Shared(labels, D) ==> e.0 < |labels| && Inner(labels, e.1)
  {
    var c: Vertex -> Vertex := v => Canon(labels, v);
    hide Canon;
    forall e: (Vertex, Vertex) | e in D
      ensures c(e.0) < |labels| && labels[c(e.0)] == labels[e.0] && Inner(labels, c(e.1))
    {
      CanonIs(labels, e.0);
      CanonIs(labels, e.1);
    }
  }

  // Away from the ends, F is the image of the agents' edges.
  lemma {:induction false} PlacedReaches(labels: seq<Label>, D: Edges, F: Edges, f: Vertex -> Vertex, s: Vertex, t: Vertex, u: Vertex, v: Vertex)
    requires Places(labels, D, F, f, s, t) && u != s && v != t
    ensures Reaches(F, u, v) <==> Reaches(Image(Within(labels, D), f), u, v)
  {
    var I := Image(Within(labels, D), f);
    hide Canon, Reaches;
    forall p | p in I ensures p in F {
      var e :| e in Within(labels, D) && p == (f(e.0), f(e.1));
      assert e in D && Inner(labels, e.0);
    }
    forall p | p in F ensures p in I || p.0 == s || p.1 == t {
      if p.0 != s && p.1 != t {
        assert ComesFrom(labels, D, f, p);
        var e :| e in D && Inner(labels, e.0) && p == (f(e.0), f(e.1));
        assert e in Within(labels, D);
      }
    }
    EndsIrrelevant(I, F, s, t, u, v);
  }

  lemma {:induction false} TwiceImaged(labels: seq<Label>, D: Edges, F: Edges, f: Vertex -> Vertex, s: Vertex, t: Vertex)
    requires Places(labels, D, F, f, s, t)
    ensures Image(Shared(labels, Within(labels, D)), f) == Image(Within(labels, D), f)
  {
    var W := Within(labels, D);
    var c: Vertex -> Vertex := v => Canon(labels, v);
    hide Canon;
    forall e: (Vertex, Vertex) | e in W ensures f(c(e.0)) == f(e.0) && f(c(e.1)) == f(e.1) {
      CanonIs(labels, e.0);
      CanonIs(labels, e.1);
    }
    forall p | p in Image(Shared(labels, W), f) ensures p in Image(W, f) {
      var q :| q in Shared(labels, W) && p == (f(q.0), f(q.1));
      var e :| e in W && q == (c(e.0), c(e.1));
      assert p == (f(e.0), f(e.1));
    }
    forall p | p in Image(W, f) ensures p in Image(Shared(labels, W), f) {
      var e :| e in W && p == (f(e.0), f(e.1));
      var q := (c(e.0), c(e.1));
      assert q in Shared(labels, W) && p == (f(q.0), f(q.1));
    }
  }

  // The merged graph orders two tasks exactly if the agents and their messages do.
  lemma {:induction false} SharedReaches(labels: seq<Label>, D: Edges, F: Edges, f: Vertex -> Vertex, s: Vertex, t: Vertex, u: Vertex, v: Vertex)
    requires Places(labels, D, F, f, s, t) && Inner(labels, u) && Inner(labels, v)
    ensures Reaches(F, f(u), f(v)) <==> Reaches(Shared(labels, D), Canon(labels, u), Canon(labels, v))
  {
    var W, S := Within(labels, D), InnerOnes(labels);
    PlacedReaches(labels, D, F, f, s, t, f(u), f(v));
    TwiceImaged(labels, D, F, f, s, t);
    SharedWithin(labels, D);
    CanonIs(labels, u);
    CanonIs(labels, v);
    SourcesIrrelevant(Shared(labels, D), Starts(labels), Canon(labels, u), Canon(labels, v));
    InjectiveThere(labels, D, F, f, s, t);
    hide *;
    ImageExact(Shared(labels, W), f, S, Canon(labels, u), Canon(labels, v));
  }

  // What stands for the tasks that are no starts.
  ghost function InnerOnes(labels: seq<Label>): (r: set<Vertex>)
    ensures forall v: Vertex :: v in r <==> Inner(labels, v) && Canon(labels, v) == v
  {
    set v: Vertex | 0 <= v < |labels| && Inner(labels, v) && Canon(labels, v) == v
  }

  lemma {:induction false} InjectiveThere(labels: seq<Label>, D: Edges, F: Edges, f: Vertex -> Vertex, s: Vertex, t: Vertex)
    requires Places(labels, D, F, f, s, t)
    ensures forall a, b :: a in InnerOnes(labels) && b in InnerOnes(labels) && f(a) == f(b) ==> a == b
    ensures forall e :: e in Shared(labels, Within(labels, D)) ==> e.0 in InnerOnes(labels) && e.1 in InnerOnes(labels)
  {
    var c: Vertex -> Vertex := v => Canon(labels, v);
    hide Canon;
    forall e: (Vertex, Vertex) | e in Within(labels, D)
      ensures c(e.0) in InnerOnes(labels) && c(e.1) in InnerOnes(labels)
    {
      CanonIs(labels, e.0);
      CanonIs(labels, e.1);
    }
  }

  // It has a cycle exactly if they have one.
  lemma {:induction false} SharedAcyclic(labels: seq<Label>, D: Edges, F: Edges, f: Vertex -> Vertex, s: Vertex, t: Vertex)
    requires Places(labels, D, F, f, s, t)
    ensures Acyclic(F) <==> Acyclic(Shared(labels, D))
  {
    var M := Shared(labels, D);
    hide Canon, Reaches, Shared;
    SharedWithin(labels, D);
    if Acyclic(M) {
      forall v: Vertex ensures !Reaches(F, v, v) {
        if Reaches(F, v, v) {
          var a := OnCycle(labels, D, F, f, s, t, v);
          SharedReaches(labels, D, F, f, s, t, a, a);
        }
      }
    }
    if Acyclic(F) {
      forall v: Vertex ensures !Reaches(M, v, v) {
        if Reaches(M, v, v) {
          var m := LastEdge(M, v, v);
          CanonOnto(labels, D, (m, v));
          SharedReaches(labels, D, F, f, s, t, v, v);
        }
      }
    }
  }

  lemma {:induction false} CanonOnto(labels: seq<Label>, D: Edges, p: (Vertex, Vertex))
    requires InRange(D, |labels|) && (forall e :: e in D ==> Inner(labels, e.1)) && p in Shared(labels, D)
    ensures Inner(labels, p.1) && Canon(labels, p.1) == p.1
  {
    var c: Vertex -> Vertex := v => Canon(labels, v);
    hide Canon;
    var e: (Vertex, Vertex) :| e in D && p == (c(e.0), c(e.1));
    CanonIs(labels, e.1);
  }

  lemma {:induction false} OnCycle(labels: seq<Label>, D: Edges, F: Edges, f: Vertex -> Vertex, s: Vertex, t: Vertex, v: Vertex) returns (a: Vertex)
    requires Places(labels, D, F, f, s, t) && Reaches(F, v, v)
    ensures Inner(labels, a) && f(a) == v
  {
    hide Canon, Reaches;
    var m := FirstEdge(F, v, v);
    var l := LastEdge(F, v, v);
    assert (v, m) in F && (l, v) in F;
    assert (l, v).1 != s && (v, m).0 != t;
    if (v, m).1 == t {
      var q := FirstOut(F, t, v);
    }
    assert ComesFrom(labels, D, f, (v, m));
    var e :| e in D && Inner(labels, e.0) && (v, m) == (f(e.0), f(e.1));
    a := e.0;
  }

  lemma FirstOut(F: Edges, t: Vertex, v: Vertex) returns (q: Vertex)
    requires Reaches(F, t, v)
    ensures (t, q) in F
  {
    q := FirstEdge(F, t, v);
  }

  // What follows a message directly, in the merged graph and among the agents.
  lemma {:induction false} SharedNext(labels: seq<Label>, D: Edges, F: Edges, f: Vertex -> Vertex, s: Vertex, t: Vertex, m: Vertex, q: Vertex)
    requires Places(labels, D, F, f, s, t) && Inner(labels, m) && labels[m].kind.XMessage? && (f(m), q) in F
    ensures exists d: Vertex :: Inner(labels, d) && Canon(labels, d) == d && q == f(d) && (Canon(labels, m), d) in Shared(labels, D)
  {
    var c: Vertex -> Vertex := v => Canon(labels, v);
    hide Canon;
    assert ComesFrom(labels, D, f, (f(m), q));
    var e: (Vertex, Vertex) :| e in D && Inner(labels, e.0) && (f(m), q) == (f(e.0), f(e.1));
    assert c(e.0) == c(m);
    CanonIs(labels, e.1);
    assert (c(e.0), c(e.1)) in Shared(labels, D);
    assert f(c(e.1)) == f(e.1);
  }

  lemma {:induction false} NextShared(labels: seq<Label>, D: Edges, F: Edges, f: Vertex -> Vertex, s: Vertex, t: Vertex, m: Vertex, d: Vertex)
    requires Places(labels, D, F, f, s, t) && Inner(labels, m) && (Canon(labels, m), d) in Shared(labels, D)
    ensures Inner(labels, d) && (f(m), f(d)) in F
  {
    var c: Vertex -> Vertex := v => Canon(labels, v);
    hide Canon;
    var e: (Vertex, Vertex) :| e in D && (Canon(labels, m), d) == (c(e.0), c(e.1));
    CanonIs(labels, e.0);
    CanonIs(labels, e.1);
    CanonIs(labels, m);
    assert f(e.0) == f(m) && f(d) == f(e.1);
  }

  // -------------------------------------------- the stages of the merged graph

  // The agents stand behind the model's start and end, with edges from the start and
  // to the end besides their own.
  ghost predicate SideBySide(labels: seq<Label>, D: Edges, labels1: seq<Label>, E1: Edges) {
    && |labels1| == |labels| + 2 && labels1[2..] == labels && labels1[0].kind.StartModel? && labels1[1].kind.FinishModel?
    && InRange(D, |labels|) && (forall e :: e in D ==> Inner(labels, e.1))
    && (forall e :: e in D ==> (2 + e.0, 2 + e.1) in E1)
    && AllOfAgents(labels, D, E1)
  }

  ghost predicate OfAgents(labels: seq<Label>, D: Edges, p: (Vertex, Vertex)) {
    && p.0 < |labels| + 2 && p.1 < |labels| + 2 && p.1 != 0 && p.0 != 1
    && (p.1 >= 2 && !Inner(labels, p.1 - 2) ==> p.0 == 0)
    && (p.0 == 0 || p.1 == 1 || (p.0 >= 2 && p.1 >= 2 && (p.0 - 2, p.1 - 2) in D))
    && (p.0 >= 2 && p.1 == 1 ==> !labels[p.0 - 2].kind.XMessage?)
  }

  ghost predicate AllOfAgents(labels: seq<Label>, D: Edges, E: Edges) {
    forall p :: p in E ==> OfAgents(labels, D, p)
  }

  // Bypassing an agent's start adds edges out of the model's start only.
  lemma {:induction false} BypassedStart(labels: seq<Label>, D: Edges, E: Edges, c: Vertex)
    requires AllOfAgents(labels, D, E) && 2 <= c < |labels| + 2 && !Inner(labels, c - 2)
    ensures AllOfAgents(labels, D, Bypass(E, c)) && E <= Bypass(E, c)
  {
    hide Inner;
    forall p: (Vertex, Vertex) | p in Bypass(E, c) ensures OfAgents(labels, D, p) {
      if p !in E {
        var a, b :| a in E && b in E && a.1 == c && b.0 == c && p == (a.0, b.1);
        assert OfAgents(labels, D, a) && OfAgents(labels, D, b);
      }
    }
  }

  lemma {:induction false} BypassedStarts(labels: seq<Label>, D: Edges, E: Edges, cs: seq<Vertex>)
    requires AllOfAgents(labels, D, E)
    requires forall c :: c in cs ==> 2 <= c < |labels| + 2 && !Inner(labels, c - 2)
    ensures AllOfAgents(labels, D, BypassAll(E, cs)) && E <= BypassAll(E, cs)
  {
    hide *;
    if cs == [] {
      NoBypass(E);
    } else {
      var init, c := cs[..|cs| - 1], cs[|cs| - 1];
      assert c in cs && forall d :: d in init ==> d in cs;
      BypassedStarts(labels, D, E, init);
      BypassedStart(labels, D, BypassAll(E, init), c);
      BypassLast(E, cs);
    }
  }

  lemma NoBypass(E: Edges)
    ensures BypassAll(E, []) == E
  {
  }

  lemma BypassLast(E: Edges, cs: seq<Vertex>)
    requires cs != []
    ensures BypassAll(E, cs) == Bypass(BypassAll(E, cs[..|cs| - 1]), cs[|cs| - 1])
  {
  }

  // cs are the agents' starts, each once.
  ghost predicate StartsOf(labels: seq<Label>, cs: seq<Vertex>) {
    && (forall c :: c in cs <==> 2 <= c < |labels| + 2 && !Inner(labels, c - 2))
    && forall i, j :: 0 <= i < j < |cs| ==> cs[i] != cs[j]
  }

  lemma {:induction false} StartsBypassed(labels: seq<Label>, D: Edges, labels1: seq<Label>, E1: Edges, cs: seq<Vertex>)
    requires SideBySide(labels, D, labels1, E1) && StartsOf(labels, cs)
    ensures E1 <= BypassAll(E1, cs) && forall p :: p in BypassAll(E1, cs) ==> OfAgents(labels, D, p)
  {
    hide Inner, OfAgents;
    BypassedStarts(labels, D, E1, cs);
  }

  // Where an agents' task stands once the starts are gone.
  function AtTwo(cs: seq<Vertex>, v: Vertex): Vertex {
    Rank(Elements(cs), 2 + v)
  }

  lemma {:induction false} AtTwoIs(labels: seq<Label>, labels1: seq<Label>, cs: seq<Vertex>, v: Vertex)
    requires StartsOf(labels, cs) && Inner(labels, v) && |labels1| == |labels| + 2 && labels1[2..] == labels
    ensures 2 <= AtTwo(cs, v) < |Kept(labels1, Elements(cs))| && Kept(labels1, Elements(cs))[AtTwo(cs, v)] == labels[v]
  {
    var S := Elements(cs);
    KeptAt(labels1, S);
    assert labels1[2 + v] == labels1[2..][v];
    RankIdentity(S, 2);
    RankMonotone(S, 2, 2 + v);
    hide Kept, Rank;
    assert 2 + v !in S;
  }

  lemma {:induction false} AtTwoInjective(labels: seq<Label>, cs: seq<Vertex>, u: Vertex, v: Vertex)
    requires StartsOf(labels, cs) && Inner(labels, u) && Inner(labels, v)
    ensures AtTwo(cs, u) == AtTwo(cs, v) <==> u == v
  {
    if AtTwo(cs, u) == AtTwo(cs, v) {
      RankInjective(Elements(cs), 2 + u, 2 + v);
    }
  }

  lemma {:induction false} EndsStay(labels: seq<Label>, labels1: seq<Label>, cs: seq<Vertex>)
    requires StartsOf(labels, cs) && |labels1| == |labels| + 2 && labels1[2..] == labels
    ensures Rank(Elements(cs), 0) == 0 && Rank(Elements(cs), 1) == 1
    ensures ghost var kept := Kept(labels1, Elements(cs)); |kept| >= 2 && kept[0] == labels1[0] && kept[1] == labels1[1]
  {
    RankIdentity(Elements(cs), 0);
    RankIdentity(Elements(cs), 1);
    RankIdentity(Elements(cs), 2);
    KeptAt(labels1, Elements(cs));
    RankMonotone(Elements(cs), 2, |labels1|);
    hide Kept, Rank;
    assert 0 !in Elements(cs) && 1 !in Elements(cs);
  }

  // The edges once the starts are gone.
  ghost predicate OfAgentsTwo(labels: seq<Label>, D: Edges, cs: seq<Vertex>, p: (Vertex, Vertex)) {
    && p.1 != 0 && p.0 != 1
    && (p.0 == 0 || p.1 == 1 || exists e :: e in D && Inner(labels, e.0) && p == (AtTwo(cs, e.0), AtTwo(cs, e.1)))
  }

  lemma {:induction false} ContractedEdges(labels: seq<Label>, D: Edges, labels1: seq<Label>, es: set<Edge>, cs: seq<Vertex>)
    requires SideBySide(labels, D, labels1, Pairs(es)) && StartsOf(labels, cs)
    ensures forall e :: e in D && Inner(labels, e.0) ==> (AtTwo(cs, e.0), AtTwo(cs, e.1)) in Pairs(Contracted(es, cs, Blank))
    ensures forall p :: p in Pairs(Contracted(es, cs, Blank)) ==> OfAgentsTwo(labels, D, cs, p)
  {
    hide *;
    var B := BypassAll(Pairs(es), cs);
    StartsBypassed(labels, D, labels1, Pairs(es), cs);
    SidesAre(labels, D, labels1, Pairs(es));
    InnerThere(labels, D, labels1, Pairs(es));
    ContractedPairs(es, cs);
    InnerContracted(labels, D, cs, B);
    ContractedOfAgents(labels, D, cs, B);
  }

  lemma {:induction false} ContractedPairs(es: set<Edge>, cs: seq<Vertex>)
    ensures Pairs(Contracted(es, cs, Blank)) == WithoutStarts(BypassAll(Pairs(es), cs), cs)
  {
    PairsWithBypasses(es, cs, Blank);
    PairsRenumbered(WithBypasses(es, cs, Blank), Elements(cs));
    hide Pairs, Renumbered, WithBypasses, BypassAll, Rank, Image, Avoiding;
  }

  function WithoutStarts(B: Edges, cs: seq<Vertex>): Edges {
    Image(Avoiding(B, Elements(cs)), i => Rank(Elements(cs), i))
  }

  // The agents' edges are among those of the united graph.
  lemma {:induction false} InnerThere(labels: seq<Label>, D: Edges, labels1: seq<Label>, E1: Edges)
    requires SideBySide(labels, D, labels1, E1)
    ensures forall e :: e in D && Inner(labels, e.0) ==> (2 + e.0, 2 + e.1) in E1
  {
    hide Inner, OfAgents;
  }

  lemma {:induction false} InnerContracted(labels: seq<Label>, D: Edges, cs: seq<Vertex>, B: Edges)
    requires StartsOf(labels, cs) && forall e :: e in D ==> Inner(labels, e.1)
    requires forall e :: e in D && Inner(labels, e.0) ==> (2 + e.0, 2 + e.1) in B
    ensures forall e :: e in D && Inner(labels, e.0) ==> (AtTwo(cs, e.0), AtTwo(cs, e.1)) in WithoutStarts(B, cs)
  {
    hide Rank;
    var S := Elements(cs);
    var r: Vertex -> Vertex := i => Rank(S, i);
    forall e | e in D && Inner(labels, e.0) ensures (AtTwo(cs, e.0), AtTwo(cs, e.1)) in WithoutStarts(B, cs) {
      var q := (2 + e.0, 2 + e.1);
      assert q in Avoiding(B, S) && (r(q.0), r(q.1)) in Image(Avoiding(B, S), r);
    }
  }

  lemma {:induction false} ContractedOfAgents(labels: seq<Label>, D: Edges, cs: seq<Vertex>, B: Edges)
    requires StartsOf(labels, cs) && forall p :: p in B ==> OfAgents(labels, D, p)
    ensures forall p :: p in WithoutStarts(B, cs) ==> OfAgentsTwo(labels, D, cs, p)
  {
    hide Rank, OfAgents, OfAgentsTwo, StartsOf;
    var S := Elements(cs);
    var r: Vertex -> Vertex := i => Rank(S, i);
    forall p | p in WithoutStarts(B, cs) ensures OfAgentsTwo(labels, D, cs, p) {
      var q: (Vertex, Vertex) :| q in Avoiding(B, S) && p == (r(q.0), r(q.1));
      ContractedEdge(labels, D, cs, q);
    }
  }

  // A message does not lead to the model's end.
  lemma {:induction false} ContractedApart(labels: seq<Label>, D: Edges, labels1: seq<Label>, es: set<Edge>, cs: seq<Vertex>, p: (Vertex, Vertex))
    requires SideBySide(labels, D, labels1, Pairs(es)) && StartsOf(labels, cs)
    requires p in Pairs(Contracted(es, cs, Blank)) && p.1 == 1 && p.0 < |Kept(labels1, Elements(cs))|
    ensures !Kept(labels1, Elements(cs))[p.0].kind.XMessage?
  {
    var S, B := Elements(cs), BypassAll(Pairs(es), cs);
    var r: Vertex -> Vertex := i => Rank(S, i);
    StartsBypassed(labels, D, labels1, Pairs(es), cs);
    PairsWithBypasses(es, cs, Blank);
    PairsRenumbered(WithBypasses(es, cs, Blank), S);
    EndsStay(labels, labels1, cs);
    assert p in Image(Avoiding(B, S), r);
    hide Pairs, Contracted, BypassAll, WithBypasses;
    var q: (Vertex, Vertex) :| q in Avoiding(B, S) && p == (r(q.0), r(q.1));
    assert OfAgents(labels, D, q);
    assert 1 !in S;
    RankInjective(S, q.1, 1);
    KeptAt(labels1, S);
    hide Kept, Rank;
    assert q.0 >= 2 ==> labels1[q.0] == labels1[2..][q.0 - 2];
    assert Kept(labels1, S)[p.0] == labels1[q.0];
  }

  lemma {:induction false} ContractedEdge(labels: seq<Label>, D: Edges, cs: seq<Vertex>, q: (Vertex, Vertex))
    requires OfAgents(labels, D, q) && StartsOf(labels, cs) && q.0 !in Elements(cs) && q.1 !in Elements(cs)
    ensures OfAgentsTwo(labels, D, cs, (Rank(Elements(cs), q.0), Rank(Elements(cs), q.1)))
  {
    var S := Elements(cs);
    RankIdentity(S, 0);
    RankIdentity(S, 1);
    assert 0 !in S && 1 !in S;
    if Rank(S, q.1) == 0 { RankInjective(S, q.1, 0); }
    if Rank(S, q.0) == 1 { RankInjective(S, q.0, 1); }
    hide Rank;
    if q.0 != 0 && q.1 != 1 {
      var e := (q.0 - 2, q.1 - 2);
      assert e in D && Inner(labels, e.0);
      assert (Rank(S, q.0), Rank(S, q.1)) == (AtTwo(cs, e.0), AtTwo(cs, e.1));
    }
  }

  // The edges with every message led to its synchronisation task.
  function MessagesShared(E: Edges, labels: seq<Label>): Edges {
    Image(E, v => Redirect(labels, |labels|, v))
  }

  // Where an agents' task, or what stands for it, is once the messages are synchronised.
  function AtThree(cs: seq<Vertex>, all: seq<Label>, v: Vertex): Vertex {
    Redirect(all, |all|, AtTwo(cs, v))
  }

  function PlaceOf(cs: seq<Vertex>, all: seq<Label>): Vertex -> Vertex {
    v => AtThree(cs, all, v)
  }

  // The tasks that are there when all messages have been found.
  ghost predicate AllSynced(labels2: seq<Label>, all: seq<Label>) {
    && labels2 <= all && (forall v :: 0 <= v < |labels2| ==> !labels2[v].kind.XMessageSync?)
    && (forall v :: |labels2| <= v < |all| ==> all[v].kind.XMessageSync?)
    && (forall v :: 0 <= v < |labels2| && labels2[v].kind.XMessage? ==> Find(all, XMessageSync, labels2[v].name) < |all|)
  }

  lemma {:induction false} SyncedAll(labels2: seq<Label>, E2: Edges, all: seq<Label>, E: Edges)
    requires SyncProgress(labels2, E2, |all|, all, E)
    ensures AllSynced(labels2, all)
  {
    hide Find, Acyclic, InRange, IsDoubled;
    forall v | 0 <= v < |labels2| && labels2[v].kind.XMessage? ensures Find(all, XMessageSync, labels2[v].name) < |all| {
      assert all[v] == labels2[v];
    }
  }

  lemma {:induction false} RedirectIs(labels2: seq<Label>, all: seq<Label>, v: Vertex)
    requires AllSynced(labels2, all) && v < |labels2|
    ensures ghost var r := Redirect(all, |all|, v);
            && r < |all|
            && if labels2[v].kind.XMessage? then r >= |labels2| && all[r] == Label(XMessageSync, labels2[v].name) else r == v
  {
    hide Find;
    assert all[v] == labels2[v];
    var r := Redirect(all, |all|, v);
    assert forall i :: 0 <= i < |labels2| ==> all[i] == labels2[i];
  }

  lemma {:induction false} RedirectSame(labels2: seq<Label>, all: seq<Label>, u: Vertex, v: Vertex)
    requires AllSynced(labels2, all) && u < |labels2| && v < |labels2|
    ensures Redirect(all, |all|, u) == Redirect(all, |all|, v) <==> u == v || (labels2[u].kind.XMessage? && labels2[u] == labels2[v])
  {
    hide Find, Redirect;
    RedirectIs(labels2, all, u);
    RedirectIs(labels2, all, v);
    if labels2[u].kind.XMessage? && labels2[u] == labels2[v] {
      SameName(labels2, all, u, v);
    }
  }

  lemma {:induction false} SameName(labels2: seq<Label>, all: seq<Label>, u: Vertex, v: Vertex)
    requires AllSynced(labels2, all) && u < |labels2| && v < |labels2| && labels2[u].kind.XMessage? && labels2[u] == labels2[v]
    ensures Redirect(all, |all|, u) == Redirect(all, |all|, v)
  {
    hide Find;
    assert all[u] == labels2[u] && all[v] == labels2[v];
  }

  // A task that is not a message keeps its place, a message gets that of its
  // synchronisation.
  lemma {:induction false} AtThreeIs(labels: seq<Label>, labels1: seq<Label>, cs: seq<Vertex>, all: seq<Label>, v: Vertex)
    requires StartsOf(labels, cs) && |labels1| == |labels| + 2 && labels1[2..] == labels
    requires AllSynced(Kept(labels1, Elements(cs)), all) && Inner(labels, v)
    ensures ghost var r := AtThree(cs, all, v);
            && 2 <= r < |all| && r !in MessagesOf(all)
            && (if labels[v].kind.XMessage? then all[r] == Label(XMessageSync, labels[v].name) else r == AtTwo(cs, v) && all[r] == labels[v])
  {
    hide Find, Redirect, Kept, Rank;
    AtTwoIs(labels, labels1, cs, v);
    RedirectIs(Kept(labels1, Elements(cs)), all, AtTwo(cs, v));
    RedirectsAway(all, AtTwo(cs, v));
  }

  lemma {:induction false} AtThreeSame(labels: seq<Label>, labels1: seq<Label>, cs: seq<Vertex>, all: seq<Label>, u: Vertex, v: Vertex)
    requires StartsOf(labels, cs) && |labels1| == |labels| + 2 && labels1[2..] == labels
    requires AllSynced(Kept(labels1, Elements(cs)), all) && Inner(labels, u) && Inner(labels, v)
    ensures AtThree(cs, all, u) == AtThree(cs, all, v) <==> Canon(labels, u) == Canon(labels, v)
  {
    hide Find, Redirect, Kept, Rank, Canon, AllSynced, StartsOf, AtTwo;
    AtTwoIs(labels, labels1, cs, u);
    AtTwoIs(labels, labels1, cs, v);
    AtTwoInjective(labels, cs, u, v);
    RedirectSame(Kept(labels1, Elements(cs)), all, AtTwo(cs, u), AtTwo(cs, v));
    CanonSame(labels, u, v);
  }

  // No message is the model's start or end.
  lemma {:induction false} EndsNotShared(labels: seq<Label>, labels1: seq<Label>, cs: seq<Vertex>, all: seq<Label>, x: Vertex)
    requires StartsOf(labels, cs) && |labels1| == |labels| + 2 && labels1[2..] == labels
    requires labels1[0].kind.StartModel? && labels1[1].kind.FinishModel?
    requires AllSynced(Kept(labels1, Elements(cs)), all) && x < |Kept(labels1, Elements(cs))|
    ensures (Redirect(all, |all|, x) == 0 <==> x == 0) && (Redirect(all, |all|, x) == 1 <==> x == 1)
  {
    hide Find, Redirect, Kept, Rank;
    EndsStay(labels, labels1, cs);
    RedirectIs(Kept(labels1, Elements(cs)), all, x);
  }

  lemma {:induction false} SyncApartFromEnd(labels: seq<Label>, D: Edges, labels1: seq<Label>, es: set<Edge>, cs: seq<Vertex>, all: seq<Label>, m: Vertex)
    requires SideBySide(labels, D, labels1, Pairs(es)) && StartsOf(labels, cs)
    requires AllSynced(Kept(labels1, Elements(cs)), all)
    requires InRange(Pairs(Contracted(es, cs, Blank)), |Kept(labels1, Elements(cs))|)
    requires Inner(labels, m) && labels[m].kind.XMessage?
    ensures (PlaceOf(cs, all)(m), 1) !in MessagesShared(Pairs(Contracted(es, cs, Blank)), all)
  {
    var g: Vertex -> Vertex := v => Redirect(all, |all|, v);
    var E2, labels2 := Pairs(Contracted(es, cs, Blank)), Kept(labels1, Elements(cs));
    hide Pairs, Contracted, Kept, Find, AllSynced, Redirect, OfAgents, StartsOf, AtTwo;
    if (AtThree(cs, all, m), 1) in MessagesShared(E2, all) {
      var q: (Vertex, Vertex) :| q in E2 && (AtThree(cs, all, m), 1) == (g(q.0), g(q.1));
      assert q.0 < |labels2| && q.1 < |labels2|;
      EndsNotShared(labels, labels1, cs, all, q.1);
      AtTwoIs(labels, labels1, cs, m);
      RedirectSame(labels2, all, q.0, AtTwo(cs, m));
      ContractedApart(labels, D, labels1, es, cs, q);
    }
  }

  lemma {:induction false} PlacesIs(labels: seq<Label>, D: Edges, F: Edges, f: Vertex -> Vertex, s: Vertex, t: Vertex)
    requires InRange(D, |labels|) && (forall e :: e in D ==> Inner(labels, e.1))
    requires forall a: Vertex, b: Vertex :: Inner(labels, a) && Inner(labels, b) ==> (f(a) == f(b) <==> Canon(labels, a) == Canon(labels, b))
    requires forall a: Vertex :: Inner(labels, a) ==> f(a) != s && f(a) != t
    requires forall e :: e in D && Inner(labels, e.0) ==> (f(e.0), f(e.1)) in F
    requires forall p :: p in F ==> p.1 != s && p.0 != t && (p.0 == s || p.1 == t || ComesFrom(labels, D, f, p))
    requires forall m: Vertex :: Inner(labels, m) && labels[m].kind.XMessage? ==> (f(m), t) !in F
    ensures Places(labels, D, F, f, s, t)
  {
    hide Canon, InRange, ComesFrom;
  }

  lemma {:induction false} MergedApart(labels: seq<Label>, labels1: seq<Label>, cs: seq<Vertex>, all: seq<Label>)
    requires StartsOf(labels, cs) && |labels1| == |labels| + 2 && labels1[2..] == labels && AllSynced(Kept(labels1, Elements(cs)), all)
    ensures ghost var f := PlaceOf(cs, all);
            && (forall a: Vertex, b: Vertex :: Inner(labels, a) && Inner(labels, b) ==> (f(a) == f(b) <==> Canon(labels, a) == Canon(labels, b)))
            && forall a: Vertex :: Inner(labels, a) ==> f(a) != 0 && f(a) != 1
  {
    var f := PlaceOf(cs, all);
    hide Inner, Canon, AtThree, AllSynced, StartsOf, Kept, MessagesOf;
    forall a: Vertex, b: Vertex | Inner(labels, a) && Inner(labels, b) ensures f(a) == f(b) <==> Canon(labels, a) == Canon(labels, b) {
      AtThreeSame(labels, labels1, cs, all, a, b);
    }
    forall a: Vertex | Inner(labels, a) ensures f(a) != 0 && f(a) != 1 {
      AtThreeIs(labels, labels1, cs, all, a);
    }
  }

  lemma {:induction false} MergedHas(labels: seq<Label>, D: Edges, E2: Edges, cs: seq<Vertex>, all: seq<Label>)
    requires forall e :: e in D && Inner(labels, e.0) ==> (AtTwo(cs, e.0), AtTwo(cs, e.1)) in E2
    ensures ghost var f := PlaceOf(cs, all); forall e :: e in D && Inner(labels, e.0) ==> (f(e.0), f(e.1)) in MessagesShared(E2, all)
  {
    var f := PlaceOf(cs, all);
    hide Inner, AtTwo, MessagesShared, Redirect;
    forall e | e in D && Inner(labels, e.0) ensures (f(e.0), f(e.1)) in MessagesShared(E2, all) {
      SharedHas(E2, all, AtTwo(cs, e.0), AtTwo(cs, e.1));
    }
  }

  // The merged graph, up to the clearing tasks, places the agents' tasks.
  lemma {:induction false} MergedPlaces(labels: seq<Label>, D: Edges, labels1: seq<Label>, es: set<Edge>, cs: seq<Vertex>, all: seq<Label>)
    requires SideBySide(labels, D, labels1, Pairs(es)) && StartsOf(labels, cs)
    requires AllSynced(Kept(labels1, Elements(cs)), all)
    requires InRange(Pairs(Contracted(es, cs, Blank)), |Kept(labels1, Elements(cs))|)
    ensures Places(labels, D, MessagesShared(Pairs(Contracted(es, cs, Blank)), all), PlaceOf(cs, all), 0, 1)
  {
    hide *;
    var E2 := Pairs(Contracted(es, cs, Blank));
    var F := MessagesShared(E2, all);
    SidesAre(labels, D, labels1, Pairs(es));
    ContractedEdges(labels, D, labels1, es, cs);
    MergedApart(labels, labels1, cs, all);
    MergedHas(labels, D, E2, cs, all);
    forall p | p in F ensures p.1 != 0 && p.0 != 1 && (p.0 == 0 || p.1 == 1 || ComesFrom(labels, D, PlaceOf(cs, all), p)) {
      MergedEdge(labels, D, labels1, E2, cs, all, p);
    }
    MessagesApartFromEnd(labels, D, labels1, es, cs, all);
    PlacesIs(labels, D, F, PlaceOf(cs, all), 0, 1);
  }

  lemma {:induction false} MessagesApartFromEnd(labels: seq<Label>, D: Edges, labels1: seq<Label>, es: set<Edge>, cs: seq<Vertex>, all: seq<Label>)
    requires SideBySide(labels, D, labels1, Pairs(es)) && StartsOf(labels, cs)
    requires AllSynced(Kept(labels1, Elements(cs)), all)
    requires InRange(Pairs(Contracted(es, cs, Blank)), |Kept(labels1, Elements(cs))|)
    ensures ghost var F := MessagesShared(Pairs(Contracted(es, cs, Blank)), all);
            forall m: Vertex :: Inner(labels, m) && labels[m].kind.XMessage? ==> (PlaceOf(cs, all)(m), 1) !in F
  {
    hide SideBySide, StartsOf, AllSynced, InRange, Contracted, Kept, MessagesShared, PlaceOf;
    var F := MessagesShared(Pairs(Contracted(es, cs, Blank)), all);
    forall m: Vertex | Inner(labels, m) && labels[m].kind.XMessage? ensures (PlaceOf(cs, all)(m), 1) !in F {
      SyncApartFromEnd(labels, D, labels1, es, cs, all, m);
    }
  }

  lemma SidesAre(labels: seq<Label>, D: Edges, labels1: seq<Label>, E1: Edges)
    requires SideBySide(labels, D, labels1, E1)
    ensures |labels1| == |labels| + 2 && labels1[2..] == labels && labels1[0].kind.StartModel? && labels1[1].kind.FinishModel?
    ensures InRange(D, |labels|) && forall e :: e in D ==> Inner(labels, e.1)
  {
    hide InRange, Inner, AllOfAgents;
  }

  lemma SharedHas(E: Edges, all: seq<Label>, u: Vertex, v: Vertex)
    requires (u, v) in E
    ensures (Redirect(all, |all|, u), Redirect(all, |all|, v)) in MessagesShared(E, all)
  {
    var f: Vertex -> Vertex := x => Redirect(all, |all|, x);
    var e := (u, v);
    assert (f(e.0), f(e.1)) in Image(E, f);
  }

  lemma {:induction false} MergedEdge(labels: seq<Label>, D: Edges, labels1: seq<Label>, E2: Edges, cs: seq<Vertex>, all: seq<Label>, p: (Vertex, Vertex))
    requires StartsOf(labels, cs) && |labels1| == |labels| + 2 && labels1[2..] == labels
    requires labels1[0].kind.StartModel? && labels1[1].kind.FinishModel?
    requires AllSynced(Kept(labels1, Elements(cs)), all) && InRange(E2, |Kept(labels1, Elements(cs))|)
    requires forall q :: q in E2 ==> OfAgentsTwo(labels, D, cs, q)
    requires p in MessagesShared(E2, all)
    ensures p.1 != 0 && p.0 != 1 && (p.0 == 0 || p.1 == 1 || ComesFrom(labels, D, PlaceOf(cs, all), p))
  {
    var g: Vertex -> Vertex := v => Redirect(all, |all|, v);
    var f := PlaceOf(cs, all);
    hide Kept, Find, AtTwo, AllSynced, Redirect, StartsOf, Inner;
    var q: (Vertex, Vertex) :| q in E2 && p == (g(q.0), g(q.1));
    EndsNotShared(labels, labels1, cs, all, q.0);
    EndsNotShared(labels, labels1, cs, all, q.1);
    assert OfAgentsTwo(labels, D, cs, q);
    if q.0 != 0 && q.1 != 1 {
      var e: (Vertex, Vertex) :| e in D && Inner(labels, e.0) && q == (AtTwo(cs, e.0), AtTwo(cs, e.1));
      assert p == (f(e.0), f(e.1));
      assert ComesFrom(labels, D, f, p);
    }
  }

  // The merged graph has a cycle exactly when the union of the agents' graphs
  // has one once messages of the same name are taken for one.
  lemma MergedAcyclicExactly(labels0: seq<Label>, E0: Edges, labels: seq<Label>, es: set<Edge>, kept: seq<Label>)
    requires SyncProgress(labels0, E0, |labels|, labels, Pairs(es))
    requires kept == Kept(labels, MessagesOf(labels))
    ensures ghost var E := Pairs(Renumbered(es, MessagesOf(labels)));
            Acyclic(E + ClearEdges(kept, E, |kept|)) <==> Acyclic(MessagesShared(E0, labels))
  {
    var M, n := MessagesOf(labels), |labels|;
    var F, E := Avoiding(Pairs(es), M), Pairs(Renumbered(es, M));
    SyncedEdges(labels0, E0, labels, Pairs(es));
    DoubledInRange(labels0, E0, n, labels, Pairs(es));
    RenumberedInRange(es, M, n);
    KeptAt(labels, M);
    RenumberedAcyclic(es, M, n);
    ClearEdgesShape(kept, E);
    hide *;
    ClearingAcyclic(kept, E);
  }

  lemma RenumberedAcyclic(es: set<Edge>, del: set<Vertex>, n: nat)
    requires InRange(Pairs(es), n)
    ensures Acyclic(Pairs(Renumbered(es, del))) <==> Acyclic(Avoiding(Pairs(es), del))
  {
    var F, E := Avoiding(Pairs(es), del), Pairs(Renumbered(es, del));
    RenumberedInRange(es, del, n);
    if Acyclic(F) {
      forall k: Vertex ensures !Reaches(E, k, k) {
        if Reaches(E, k, k) {
          ReachesInRange(E, Rank(del, n), k, k);
          var i := RankOnto(del, n, k);
          RenumberedReaches(es, del, n, i, i);
        }
      }
    }
    if Acyclic(E) {
      forall i: Vertex ensures !Reaches(F, i, i) {
        if Reaches(F, i, i) {
          ReachesInRange(F, n, i, i);
          var m := FirstEdge(F, i, i);
          RenumberedReaches(es, del, n, i, i);
        }
      }
    }
  }

  lemma ClearingAcyclic(labels: seq<Label>, E: Edges)
    requires InRange(E, |labels|)
    ensures Acyclic(E + ClearEdges(labels, E, |labels|)) <==> Acyclic(E)
  {
    var F := E + ClearEdges(labels, E, |labels|);
    ClearEdgesShape(labels, E);
    if Acyclic(E) {
      SinksAcyclic(E, F, |labels|);
    }
    if Acyclic(F) {
      forall v: Vertex ensures !Reaches(E, v, v) {
        if Reaches(E, v, v) { Monotone(E, F, v, v); }
      }
    }
  }

  /** The labels of the agents' tasks and their edges, the merged graph that holds them,
      the starts to be contracted, and the graph when all messages have been found. */
  datatype Stages = Stages(labels: seq<Label>, D: Edges, labels1: seq<Label>, es1: set<Edge>, starts: seq<Vertex>,
                           all: seq<Label>, es: set<Edge>)
  {
    ghost predicate Valid() {
      && SideBySide(labels, D, labels1, Pairs(es1)) && StartsOf(labels, starts)
      && SyncProgress(Kept(labels1, Elements(starts)), Pairs(Contracted(es1, starts, Blank)), |all|, all, Pairs(es))
    }

    ghost function Synced(): Edges { MessagesShared(Pairs(Contracted(es1, starts, Blank)), all) }
    function Gone(): set<Vertex> { MessagesOf(all) }
    function Labels3(): seq<Label> { Kept(all, Gone()) }
    function E3(): Edges { Pairs(Renumbered(es, Gone())) }
    function E4(): Edges { E3() + ClearEdges(Labels3(), E3(), |Labels3()|) }

    // Where the task, or what stands for it, ends up.
    function At(v: Vertex): Vertex { Rank(Gone(), AtThree(starts, all, v)) }
  }

  lemma {:induction false} StagesPlace(g: Stages)
    requires g.Valid()
    ensures Places(g.labels, g.D, g.Synced(), PlaceOf(g.starts, g.all), 0, 1)
    ensures AllSynced(Kept(g.labels1, Elements(g.starts)), g.all)
    ensures InRange(Pairs(g.es), |g.all|) && Avoiding(Pairs(g.es), g.Gone()) == g.Synced()
  {
    var labels2, E2 := Kept(g.labels1, Elements(g.starts)), Pairs(Contracted(g.es1, g.starts, Blank));
    SyncedAll(labels2, E2, g.all, Pairs(g.es));
    SyncedInRange(labels2, E2, g.all, Pairs(g.es));
    SyncedEdges(labels2, E2, g.all, Pairs(g.es));
    DoubledInRange(labels2, E2, |g.all|, g.all, Pairs(g.es));
    assert SideBySide(g.labels, g.D, g.labels1, Pairs(g.es1)) && StartsOf(g.labels, g.starts);
    hide *;
    MergedPlaces(g.labels, g.D, g.labels1, g.es1, g.starts, g.all);
    SyncedIs(g);
  }

  lemma SyncedIs(g: Stages)
    ensures g.Synced() == MessagesShared(Pairs(Contracted(g.es1, g.starts, Blank)), g.all) && g.Gone() == MessagesOf(g.all)
    ensures g.Synced() == Image(Pairs(Contracted(g.es1, g.starts, Blank)), v => Redirect(g.all, |g.all|, v))
  {
  }

  lemma SyncedInRange(labels2: seq<Label>, E2: Edges, all: seq<Label>, E: Edges)
    requires SyncProgress(labels2, E2, |all|, all, E)
    ensures InRange(E2, |labels2|)
  {
  }

  lemma {:induction false} StagesAt(g: Stages, v: Vertex)
    requires g.Valid() && Inner(g.labels, v)
    ensures ghost var r, w := AtThree(g.starts, g.all, v), g.At(v);
            && r < |g.all| && r !in g.Gone() && w < |g.Labels3()| && w == Rank(g.Gone(), r) && g.Labels3()[w] == g.all[r]
            && (if g.labels[v].kind.XMessage? then g.Labels3()[w] == Label(XMessageSync, g.labels[v].name) else g.Labels3()[w] == g.labels[v])
  {
    StagesPlace(g);
    assert SideBySide(g.labels, g.D, g.labels1, Pairs(g.es1)) && StartsOf(g.labels, g.starts);
    hide Kept, Rank, AtThree, AllSynced, MessagesOf, Places, Pairs, Contracted, SyncProgress, StartsOf;
    AtThreeIs(g.labels, g.labels1, g.starts, g.all, v);
    KeptAt(g.all, g.Gone());
  }

  lemma {:induction false} ThirdInRange(g: Stages)
    requires g.Valid()
    ensures InRange(g.E3(), |g.Labels3()|)
  {
    StagesPlace(g);
    hide *;
    KeptAt(g.all, g.Gone());
    RenumberedInRange(g.es, g.Gone(), |g.all|);
    ThirdIs(g);
  }

  lemma ThirdIs(g: Stages)
    ensures g.Labels3() == Kept(g.all, g.Gone()) && g.E3() == Pairs(Renumbered(g.es, g.Gone()))
    ensures g.E4() == g.E3() + ClearEdges(g.Labels3(), g.E3(), |g.Labels3()|)
  {
  }

  // Before the clearing tasks come in.
  lemma {:induction false} ThirdReaches(g: Stages, u: Vertex, v: Vertex)
    requires g.Valid() && Inner(g.labels, u) && Inner(g.labels, v)
    ensures Reaches(g.E3(), g.At(u), g.At(v)) <==> Reaches(Shared(g.labels, g.D), Canon(g.labels, u), Canon(g.labels, v))
  {
    StagesPlace(g);
    StagesAt(g, u);
    StagesAt(g, v);
    ThirdIs(g);
    PlaceIs(g, u);
    PlaceIs(g, v);
    hide *;
    SharedReaches(g.labels, g.D, g.Synced(), PlaceOf(g.starts, g.all), 0, 1, u, v);
    RenumberedReaches(g.es, g.Gone(), |g.all|, AtThree(g.starts, g.all, u), AtThree(g.starts, g.all, v));
  }

  lemma PlaceIs(g: Stages, v: Vertex)
    ensures PlaceOf(g.starts, g.all)(v) == AtThree(g.starts, g.all, v)
  {
  }

  // The order of the finished graph is that of the agents and their messages.
  lemma {:induction false} FinalReaches(g: Stages, u: Vertex, v: Vertex)
    requires g.Valid() && Inner(g.labels, u) && Inner(g.labels, v)
    ensures Reaches(g.E4(), g.At(u), g.At(v)) <==> Reaches(Shared(g.labels, g.D), Canon(g.labels, u), Canon(g.labels, v))
  {
    hide *;
    ThirdReaches(g, u, v);
    ThirdInRange(g);
    ThirdIs(g);
    StagesAt(g, v);
    ClearEdgesShape(g.Labels3(), g.E3());
    ClearsIrrelevant(g.Labels3(), g.E3(), g.At(u), g.At(v));
  }

  lemma ClearsIrrelevant(labels: seq<Label>, E: Edges, u: Vertex, v: Vertex)
    requires InRange(E, |labels|) && v < |labels|
    ensures Reaches(E + ClearEdges(labels, E, |labels|), u, v) <==> Reaches(E, u, v)
  {
    ClearEdgesShape(labels, E);
    hide ClearEdges;
    SinksIrrelevant(E, E + ClearEdges(labels, E, |labels|), |labels|, u, v);
  }

  // It has a cycle exactly if they have one.
  lemma {:induction false} FinalAcyclic(g: Stages)
    requires g.Valid()
    ensures Acyclic(g.E4()) <==> Acyclic(Shared(g.labels, g.D))
  {
    hide *;
    StagesPlace(g);
    SharedAcyclic(g.labels, g.D, g.Synced(), PlaceOf(g.starts, g.all), 0, 1);
    ThirdIs(g);
    SyncedIs(g);
    var labels2, E2 := Kept(g.labels1, Elements(g.starts)), Pairs(Contracted(g.es1, g.starts, Blank));
    StagesSynced(g);
    MergedAcyclicExactly(labels2, E2, g.all, g.es, g.Labels3());
  }

  lemma StagesSynced(g: Stages)
    requires g.Valid()
    ensures SyncProgress(Kept(g.labels1, Elements(g.starts)), Pairs(Contracted(g.es1, g.starts, Blank)), |g.all|, g.all, Pairs(g.es))
  {
    hide SyncProgress, SideBySide, StartsOf;
  }

  // ------------------------------------------------------------------ clearing

  // By the agents and their messages, r is over before a task that follows m directly.
  ghost predicate BeforeClear(labels: seq<Label>, D: Edges, m: Vertex, r: Vertex) {
    exists d: Vertex :: (Canon(labels, m), d) in Shared(labels, D)
                        && (d == Canon(labels, r) || Reaches(Shared(labels, D), Canon(labels, r), d))
  }

  lemma {:induction false} ThirdEdge(g: Stages, a: Vertex, b: Vertex)
    requires g.Valid() && (a, b) in g.Synced()
    ensures (Rank(g.Gone(), a), Rank(g.Gone(), b)) in g.E3()
  {
    hide *;
    StagesPlace(g);
    ThirdIs(g);
    PairsRenumbered(g.es, g.Gone());
    ImageHas(Avoiding(Pairs(g.es), g.Gone()), i => Rank(g.Gone(), i), a, b);
  }

  lemma {:induction false} ThirdFrom(g: Stages, a: Vertex, y: Vertex) returns (b: Vertex)
    requires g.Valid() && a !in g.Gone() && (Rank(g.Gone(), a), y) in g.E3()
    ensures (a, b) in g.Synced() && b !in g.Gone() && y == Rank(g.Gone(), b)
  {
    StagesPlace(g);
    ThirdIs(g);
    PairsRenumbered(g.es, g.Gone());
    var r: Vertex -> Vertex := i => Rank(g.Gone(), i);
    hide Stages.Valid, Stages.E3, Stages.Synced, Stages.Gone, Places, AllSynced, Pairs, Renumbered, Rank;
    var q: (Vertex, Vertex) :| q in Avoiding(Pairs(g.es), g.Gone()) && (Rank(g.Gone(), a), y) == (r(q.0), r(q.1));
    RankInjective(g.Gone(), q.0, a);
    b := q.1;
  }

  lemma {:induction false} AtSame(g: Stages, u: Vertex, v: Vertex)
    requires g.Valid() && Inner(g.labels, u) && Inner(g.labels, v)
    ensures g.At(u) == g.At(v) <==> Canon(g.labels, u) == Canon(g.labels, v)
  {
    hide *;
    StagesPlace(g);
    StagesAt(g, u);
    StagesAt(g, v);
    PlaceIs(g, u);
    PlaceIs(g, v);
    PlacesSame(g.labels, g.D, g.Synced(), PlaceOf(g.starts, g.all), 0, 1, u, v);
    if g.At(u) == g.At(v) {
      RankInjective(g.Gone(), AtThree(g.starts, g.all, u), AtThree(g.starts, g.all, v));
    }
  }

  lemma {:induction false} PlacesSame(labels: seq<Label>, D: Edges, F: Edges, f: Vertex -> Vertex, s: Vertex, t: Vertex, u: Vertex, v: Vertex)
    requires Places(labels, D, F, f, s, t) && Inner(labels, u) && Inner(labels, v)
    ensures f(u) == f(v) <==> Canon(labels, u) == Canon(labels, v)
    ensures forall p :: p in Shared(labels, D) ==> Inner(labels, p.1) && Canon(labels, p.1) == p.1
  {
    hide Canon, Shared;
    forall p | p in Shared(labels, D) ensures Inner(labels, p.1) && Canon(labels, p.1) == p.1 {
      CanonOnto(labels, D, p);
    }
  }

  lemma {:induction false} NextAmongAgents(g: Stages, m: Vertex, y: Vertex) returns (d: Vertex)
    requires g.Valid() && Inner(g.labels, m) && g.labels[m].kind.XMessage? && (g.At(m), y) in g.E3()
    ensures Inner(g.labels, d) && Canon(g.labels, d) == d && y == g.At(d) && (Canon(g.labels, m), d) in Shared(g.labels, g.D)
  {
    hide *;
    StagesPlace(g);
    StagesAt(g, m);
    PlaceIs(g, m);
    var b := ThirdFrom(g, AtThree(g.starts, g.all, m), y);
    SharedNext(g.labels, g.D, g.Synced(), PlaceOf(g.starts, g.all), 0, 1, m, b);
    d :| Inner(g.labels, d) && Canon(g.labels, d) == d && b == PlaceOf(g.starts, g.all)(d) && (Canon(g.labels, m), d) in Shared(g.labels, g.D);
    PlaceIs(g, d);
    StagesAt(g, d);
  }

  lemma {:induction false} NextInGraph(g: Stages, m: Vertex, d: Vertex)
    requires g.Valid() && Inner(g.labels, m) && (Canon(g.labels, m), d) in Shared(g.labels, g.D)
    ensures Inner(g.labels, d) && Canon(g.labels, d) == d && (g.At(m), g.At(d)) in g.E3()
  {
    hide *;
    StagesPlace(g);
    var f := PlaceOf(g.starts, g.all);
    PlacesSame(g.labels, g.D, g.Synced(), f, 0, 1, m, m);
    NextShared(g.labels, g.D, g.Synced(), f, 0, 1, m, d);
    StagesAt(g, m);
    StagesAt(g, d);
    PlaceIs(g, m);
    PlaceIs(g, d);
    ThirdEdge(g, f(m), f(d));
    assert (Canon(g.labels, m), d).1 == d;
  }

  // A task comes before the clearing of a message exactly if that is so by the agents.
  lemma {:induction false} FinalClears(g: Stages, m: Vertex, r: Vertex)
    requires g.Valid() && Inner(g.labels, m) && g.labels[m].kind.XMessage? && Inner(g.labels, r)
    ensures g.At(m) < |g.Labels3()| && g.Labels3()[g.At(m)] == Label(XMessageSync, g.labels[m].name)
    ensures Reaches(g.E4(), g.At(r), ClearOf(g.Labels3(), g.At(m))) <==> BeforeClear(g.labels, g.D, m, r)
  {
    hide *;
    StagesAt(g, m);
    StagesAt(g, r);
    ThirdInRange(g);
    ThirdIs(g);
    ClearFollowsExactly(g.Labels3(), g.E3(), g.At(m), g.At(r));
    if y: Vertex :| (g.At(m), y) in g.E3() && (y == g.At(r) || Reaches(g.E3(), g.At(r), y)) {
      var d := NextAmongAgents(g, m, y);
      AtSame(g, d, r);
      ThirdReaches(g, r, d);
      BeforeClearBy(g.labels, g.D, m, r, d);
    }
    if BeforeClear(g.labels, g.D, m, r) {
      var d := ClearWitness(g.labels, g.D, m, r);
      NextInGraph(g, m, d);
      AtSame(g, d, r);
      ThirdReaches(g, r, d);
    }
  }

  lemma BeforeClearBy(labels: seq<Label>, D: Edges, m: Vertex, r: Vertex, d: Vertex)
    requires (Canon(labels, m), d) in Shared(labels, D)
    requires d == Canon(labels, r) || Reaches(Shared(labels, D), Canon(labels, r), d)
    ensures BeforeClear(labels, D, m, r)
  {
    hide Canon, Shared, Reaches;
  }

  lemma ClearWitness(labels: seq<Label>, D: Edges, m: Vertex, r: Vertex) returns (d: Vertex)
    requires BeforeClear(labels, D, m, r)
    ensures (Canon(labels, m), d) in Shared(labels, D) && (d == Canon(labels, r) || Reaches(Shared(labels, D), Canon(labels, r), d))
  {
    hide Canon, Shared, Reaches;
    d :| (Canon(labels, m), d) in Shared(labels, D) && (d == Canon(labels, r) || Reaches(Shared(labels, D), Canon(labels, r), d));
  }

  // ------------------------------------------------------- importing the agents

  // U holds the agents' edges behind start and end, and nothing that could disturb them.
  ghost predicate United(labels: seq<Label>, D: Edges, U: Edges) {
    && InRange(D, |labels|) && (forall e :: e in D ==> Inner(labels, e.1))
    && (forall e :: e in D ==> (2 + e.0, 2 + e.1) in U)
    && AllOfAgents(labels, D, U)
  }

  function Behind(n: nat, E: Edges): Edges {
    Image(E, x => n + x)
  }

  lemma {:induction false} BehindHas(n: nat, E: Edges, p: (Vertex, Vertex))
    ensures p in Behind(n, E) <==> p.0 >= n && p.1 >= n && (p.0 - n, p.1 - n) in E
  {
    var f: Vertex -> Vertex := x => n + x;
    if p.0 >= n && p.1 >= n && (p.0 - n, p.1 - n) in E {
      var e := (p.0 - n, p.1 - n);
      assert p == (f(e.0), f(e.1));
    }
    if p in Behind(n, E) {
      var e :| e in E && p == (f(e.0), f(e.1));
      assert e == (p.0 - n, p.1 - n);
    }
  }

  lemma {:induction false} BoundaryKinds(kinds: seq<TaskType>, k: nat, n: nat, start: Vertex, end: Vertex, e: Edge)
    requires k <= |kinds| && e in BoundaryEdges(kinds, k, n, start, end)
    ensures || (e.source == start && n <= e.target < n + k && kinds[e.target - n].StartAgent?)
            || (n <= e.source < n + k && e.target == end && kinds[e.source - n].IoPopWrite?)
  {
    if k > 0 && e in BoundaryEdges(kinds, k - 1, n, start, end) {
      BoundaryKinds(kinds, k - 1, n, start, end, e);
    }
  }

  lemma {:induction false} OfMoreAgents(labels: seq<Label>, D: Edges, labels': seq<Label>, D': Edges, p: (Vertex, Vertex))
    requires OfAgents(labels, D, p) && labels <= labels' && D <= D'
    ensures OfAgents(labels', D', p)
  {
  }

  // An edge that comes with one more agent.
  lemma {:induction false} NewOfAgents(labels: seq<Label>, D: Edges, more: seq<Label>, kinds: seq<TaskType>, es: set<Edge>, e: Edge)
    requires |kinds| == |more| && (forall i :: 0 <= i < |more| ==> kinds[i] == more[i].kind) && AgentReady(kinds, Pairs(es))
    requires e in Imported(kinds, es, 2 + |labels|, 0, 1)
    ensures OfAgents(labels + more, D + Behind(|labels|, Pairs(es)), (e.source, e.target))
  {
    var n, all := 2 + |labels|, labels + more;
    hide Behind, BoundaryEdges, Acyclic, InRange;
    if e in BoundaryEdges(kinds, |kinds|, n, 0, 1) {
      BoundaryKinds(kinds, |kinds|, n, 0, 1, e);
      assert e.source >= 2 ==> all[e.source - 2] == more[e.source - n];
    } else {
      var d := ImportedFrom(kinds, es, n, 0, 1, e);
      EdgeInRange(es, |kinds|, d);
      PairOf(es, d);
      BehindHas(|labels|, Pairs(es), (e.source - 2, e.target - 2));
      assert all[e.target - 2] == more[d.target];
      assert kinds[(d.source, d.target).1] == more[d.target].kind;
    }
  }

  lemma PairOf(es: set<Edge>, d: Edge)
    requires d in es
    ensures (d.source, d.target) in Pairs(es)
  {
  }

  lemma {:induction false} AgentBehind(labels: seq<Label>, U: set<Edge>, more: seq<Label>, kinds: seq<TaskType>, es: set<Edge>, e: (Vertex, Vertex))
    requires |kinds| == |more| && (forall i :: 0 <= i < |more| ==> kinds[i] == more[i].kind) && AgentReady(kinds, Pairs(es))
    requires e in Behind(|labels|, Pairs(es))
    ensures e.0 < |labels + more| && Inner(labels + more, e.1)
    ensures (2 + e.0, 2 + e.1) in Pairs(U + Imported(kinds, es, 2 + |labels|, 0, 1))
  {
    hide Imported, Pairs, Behind, Acyclic;
    BehindHas(|labels|, Pairs(es), e);
    PairsUnion(U, Imported(kinds, es, 2 + |labels|, 0, 1));
    var d := (e.0 - |labels|, e.1 - |labels|);
    assert d in Pairs(es) && d.0 < |kinds| && d.1 < |kinds|;
    ImportedPair(kinds, es, 2 + |labels|, 0, 1, d.0, d.1);
    assert (labels + more)[e.1] == more[d.1];
  }

  lemma {:induction false} AllOfMoreAgents(labels: seq<Label>, D: Edges, U: set<Edge>, more: seq<Label>, kinds: seq<TaskType>, es: set<Edge>)
    requires AllOfAgents(labels, D, Pairs(U))
    requires |kinds| == |more| && (forall i :: 0 <= i < |more| ==> kinds[i] == more[i].kind) && AgentReady(kinds, Pairs(es))
    ensures AllOfAgents(labels + more, D + Behind(|labels|, Pairs(es)), Pairs(U + Imported(kinds, es, 2 + |labels|, 0, 1)))
  {
    var all, D', I := labels + more, D + Behind(|labels|, Pairs(es)), Imported(kinds, es, 2 + |labels|, 0, 1);
    PairsUnion(U, I);
    hide Imported, Pairs, Behind, OfAgents, AgentReady;
    forall p | p in Pairs(U + I) ensures OfAgents(all, D', p) {
      if p in Pairs(U) {
        OfMoreAgents(labels, D, all, D', p);
      } else {
        var e := EdgeOf(I, p);
        NewOfAgents(labels, D, more, kinds, es, e);
      }
    }
  }

  lemma {:induction false} UnitedGrows(labels: seq<Label>, D: Edges, U: set<Edge>, more: seq<Label>, kinds: seq<TaskType>, es: set<Edge>)
    requires United(labels, D, Pairs(U))
    requires |kinds| == |more| && (forall i :: 0 <= i < |more| ==> kinds[i] == more[i].kind) && AgentReady(kinds, Pairs(es))
    ensures United(labels + more, D + Behind(|labels|, Pairs(es)), Pairs(U + Imported(kinds, es, 2 + |labels|, 0, 1)))
  {
    var all, D', I := labels + more, D + Behind(|labels|, Pairs(es)), Imported(kinds, es, 2 + |labels|, 0, 1);
    AllOfMoreAgents(labels, D, U, more, kinds, es);
    PairsUnion(U, I);
    hide Imported, Pairs, Behind, AllOfAgents, AgentReady;
    forall e: (Vertex, Vertex) | e in D'
      ensures e.0 < |all| && Inner(all, e.1) && (2 + e.0, 2 + e.1) in Pairs(U + I)
    {
      if e !in D {
        AgentBehind(labels, U, more, kinds, es, e);
      }
    }
  }

  lemma EdgeOf(es: set<Edge>, p: (Vertex, Vertex)) returns (e: Edge)
    requires p in Pairs(es)
    ensures e in es && p == (e.source, e.target)
  {
    e :| e in es && p == (e.source, e.target);
  }

  // ---------------------------------------------------- messages used only once

  ghost predicate UsedOnce(labels: seq<Label>) {
    forall u: Vertex, v: Vertex :: u < |labels| && v < |labels| && labels[u].kind.XMessage? && labels[u] == labels[v] ==> u == v
  }

  lemma {:induction false} NothingTakenForOne(labels: seq<Label>, D: Edges)
    requires UsedOnce(labels) && InRange(D, |labels|)
    ensures Shared(labels, D) == D && forall v: Vertex :: v < |labels| ==> Canon(labels, v) == v
  {
    hide Canon;
    forall v: Vertex | v < |labels| ensures Canon(labels, v) == v {
      CanonIs(labels, v);
      CanonSame(labels, Canon(labels, v), v);
    }
    forall e: (Vertex, Vertex) | e in D ensures e in Shared(labels, D) {
      assert e.0 < |labels| && e.1 < |labels|;
      assert e == (Canon(labels, e.0), Canon(labels, e.1));
    }
  }

  lemma {:induction false} BehindAcyclic(n: nat, E: Edges, F: Edges)
    requires InRange(E, n) && Acyclic(E) && Acyclic(F)
    ensures Acyclic(E + Behind(n, F))
  {
    SideBySideAcyclic(E, F, n);
    assert Behind(n, F) == Image(F, x => n + x) by {
      var f: Vertex -> Vertex := x => n + x;
      assert forall e :: e in F ==> (f(e.0), f(e.1)) == (n + e.0, n + e.1);
    }
  }
}
