/** One iteration over a table of task dependencies, as values: which tasks are
    ready, waiting for others, handed out, or done. */
module TaskIteration {
  import opened Digraph

  type Id = Vertex

  // parents[i] holds the tasks that task i depends on.
  type Parents = seq<set<Id>>

  // An edge leads from each dependency to the task that waits for it.
  function DependencyEdges(parents: Parents): Edges {
    set i, p | 0 <= i < |parents| && p in parents[i] :: (p, i)
  }

  ghost predicate InTable(parents: Parents) {
    forall i, p :: 0 <= i < |parents| && p in parents[i] ==> p < |parents|
  }

  function Roots(parents: Parents): set<Id> {
    set i | 0 <= i < |parents| && parents[i] == {}
  }

  function Dependents(parents: Parents, id: Id): set<Id> {
    set i | 0 <= i < |parents| && id in parents[i]
  }

  // The members of s below n, smallest first, as the source's sets are traversed.
  function Ascending(s: set<Id>, n: nat): (r: seq<Id>)
    ensures forall v :: v in r <==> v in s && v < n
    ensures forall i, j :: 0 <= i < j < |r| ==> r[i] < r[j]
  {
    if n == 0 then []
    else
      var r := Ascending(s, n - 1);
      assert forall i :: 0 <= i < |r| ==> r[i] in r;
      r + (if n - 1 in s then [n - 1] else [])
  }

  lemma AscendingWithin(s: set<Id>, n: nat)
    ensures forall i :: 0 <= i < |Ascending(s, n)| ==> Ascending(s, n)[i] in s
    ensures (forall v :: v in s ==> v >= n) ==> Ascending(s, n) == []
  {
    forall i | 0 <= i < |Ascending(s, n)| ensures Ascending(s, n)[i] in s {
      assert Ascending(s, n)[i] in Ascending(s, n);
    }
  }

  datatype Iteration = Iteration(ready: seq<Id>, pending: set<Id>, issued: set<Id>, deps: seq<set<Id>>)

  function Done(it: Iteration): set<Id> {
    Below(|it.deps|) - it.pending - it.issued - Elements(it.ready)
  }

  predicate Completed(it: Iteration) {
    it.pending == {} && it.issued == {} && it.ready == []
  }

  function Reset(parents: Parents): Iteration {
    Iteration(Ascending(Roots(parents), |parents|), Below(|parents|) - Roots(parents), {}, parents)
  }

  function Pop(it: Iteration): Iteration
    requires it.ready != []
  {
    var last := |it.ready| - 1;
    Iteration(it.ready[..last], it.pending, it.issued + {it.ready[last]}, it.deps)
  }

  // The tasks that wait for id alone.
  function Released(parents: Parents, it: Iteration, id: Id): set<Id>
    requires |it.deps| == |parents|
  {
    set i | i in Dependents(parents, id) && it.deps[i] - {id} == {}
  }

  function Finish(parents: Parents, it: Iteration, id: Id): Iteration
    requires |it.deps| == |parents|
  {
    var released := Released(parents, it, id);
    Iteration(it.ready + Ascending(released, |parents|), it.pending - released, it.issued - {id},
              seq(|parents|, i requires 0 <= i < |parents| => it.deps[i] - {id}))
  }

  // The same, when id has been ticked off with its dependents below k only.
  function FinishBelow(parents: Parents, it: Iteration, id: Id, k: nat): (r: Iteration)
    requires |it.deps| == |parents|
    ensures |r.deps| == |parents|
  {
    var released := Ascending(Released(parents, it, id), k);
    Iteration(it.ready + released, it.pending - Elements(released), it.issued - {id},
              seq(|parents|, i requires 0 <= i < |parents| => if i < k then it.deps[i] - {id} else it.deps[i]))
  }

  // Ticking id off with dependent k.
  function TickOff(it: Iteration, id: Id, k: nat): Iteration
    requires k < |it.deps|
  {
    var deps := it.deps[k := it.deps[k] - {id}];
    if deps[k] == {} then Iteration(it.ready + [k], it.pending - {k}, it.issued, deps)
    else it.(deps := deps)
  }

  lemma AscendingNext(s: set<Id>, k: nat)
    ensures Ascending(s, k + 1) == Ascending(s, k) + (if k in s then [k] else [])
  {
  }

  lemma FinishBelowNext(parents: Parents, it: Iteration, id: Id, k: nat)
    requires Consistent(parents, it) && k < |parents|
    ensures ghost var r := FinishBelow(parents, it, id, k);
            FinishBelow(parents, it, id, k + 1) == if k in Dependents(parents, id) then TickOff(r, id, k) else r
  {
    hide Ascending, Below;
    var released := Released(parents, it, id);
    var r, r' := FinishBelow(parents, it, id, k), FinishBelow(parents, it, id, k + 1);
    AscendingNext(released, k);
    assert r.deps[k] == it.deps[k];
    if k in Dependents(parents, id) {
      assert r'.deps == r.deps[k := r.deps[k] - {id}];
    } else {
      assert it.deps[k] - {id} == it.deps[k];
      assert r'.deps == r.deps;
    }
  }

  lemma FinishBelowEnds(parents: Parents, it: Iteration, id: Id)
    requires Consistent(parents, it)
    ensures FinishBelow(parents, it, id, 0) == it.(issued := it.issued - {id})
    ensures FinishBelow(parents, it, id, |parents|) == Finish(parents, it, id)
  {
    var released := Released(parents, it, id);
    assert Elements(Ascending(released, |parents|)) == released;
    assert FinishBelow(parents, it, id, 0).deps == it.deps;
    assert FinishBelow(parents, it, id, |parents|).deps == Finish(parents, it, id).deps;
  }

  // Every task is in exactly one place; what it still waits for is what it
  // depends on and is not done; it is pending exactly while there is some.
  ghost predicate Consistent(parents: Parents, it: Iteration) {
    && |it.deps| == |parents| && InTable(parents)
    && (forall i, j :: 0 <= i < j < |it.ready| ==> it.ready[i] != it.ready[j])
    && it.pending <= Below(|parents|) && it.issued <= Below(|parents|) && Elements(it.ready) <= Below(|parents|)
    && it.pending !! it.issued && it.pending !! Elements(it.ready) && it.issued !! Elements(it.ready)
    && (forall i :: 0 <= i < |parents| ==> it.deps[i] == parents[i] - Done(it))
    && (forall i :: 0 <= i < |parents| ==> (i in it.pending <==> it.deps[i] != {}))
  }

  // No task that was ever ready is on a cycle.
  ghost predicate Sound(parents: Parents, it: Iteration) {
    && Consistent(parents, it)
    && forall i :: 0 <= i < |parents| && i !in it.pending ==> !Reaches(DependencyEdges(parents), i, i)
  }

  lemma EdgesInTable(parents: Parents)
    requires InTable(parents)
    ensures InRange(DependencyEdges(parents), |parents|)
  {
  }

  lemma ResetSound(parents: Parents)
    requires InTable(parents)
    ensures Sound(parents, Reset(parents)) && Done(Reset(parents)) == {}
  {
    var it, E := Reset(parents), DependencyEdges(parents);
    forall i | 0 <= i < |parents| && i !in it.pending ensures !Reaches(E, i, i) {
      if Reaches(E, i, i) {
        var m := LastEdge(E, i, i);
      }
    }
  }

  lemma PopSound(parents: Parents, it: Iteration)
    requires Sound(parents, it) && it.ready != []
    ensures Sound(parents, Pop(it)) && Done(Pop(it)) == Done(it)
    ensures it.ready[|it.ready| - 1] !in it.issued + it.pending + Done(it)
  {
    var last := |it.ready| - 1;
    assert it.ready == it.ready[..last] + [it.ready[last]];
    assert Elements(it.ready) == Elements(it.ready[..last]) + {it.ready[last]};
    assert it.ready[last] !in it.ready[..last];
    assert Done(Pop(it)) == Done(it);
  }

  // A task leaves the waiting ones exactly when the last thing it waits for is done.
  lemma FinishConsistent(parents: Parents, it: Iteration, id: Id)
    requires Consistent(parents, it) && id in it.issued
    ensures Consistent(parents, Finish(parents, it, id))
    ensures Done(Finish(parents, it, id)) == Done(it) + {id}
    ensures Released(parents, it, id) == it.pending - Finish(parents, it, id).pending
    ensures forall i :: i in Released(parents, it, id) ==> parents[i] <= Done(it) + {id}
  {
    var released, it' := Released(parents, it, id), Finish(parents, it, id);
    ReleasedWaited(parents, it, id);
    var more := Ascending(released, |parents|);
    assert Elements(it'.ready) == Elements(it.ready) + released;
    assert Done(it') == Done(it) + {id};
    forall i | 0 <= i < |parents| ensures i in it'.pending <==> it'.deps[i] != {} {
      if i in it.pending && it'.deps[i] == {} {
        assert id in it.deps[i];
      }
    }
    forall i, j | 0 <= i < j < |it'.ready| ensures it'.ready[i] != it'.ready[j] {
      if i < |it.ready| <= j {
        assert it'.ready[j] in more && it'.ready[i] in Elements(it.ready);
      }
    }
  }

  lemma ReleasedWaited(parents: Parents, it: Iteration, id: Id)
    requires Consistent(parents, it) && id in it.issued
    ensures Released(parents, it, id) <= it.pending
  {
    forall i | i in Released(parents, it, id) ensures i in it.pending {
      assert id !in Done(it);
      assert id in it.deps[i];
    }
  }

  lemma FinishSound(parents: Parents, it: Iteration, id: Id)
    requires Sound(parents, it) && id in it.issued
    ensures Sound(parents, Finish(parents, it, id))
    ensures Done(Finish(parents, it, id)) == Done(it) + {id}
  {
    var it', E := Finish(parents, it, id), DependencyEdges(parents);
    FinishConsistent(parents, it, id);
    hide Finish, Released, Dependents, Consistent;
    forall i | 0 <= i < |parents| && i !in it'.pending ensures !Reaches(E, i, i) {
      if i in it.pending && Reaches(E, i, i) {
        // Its last dependency would be on the cycle too.
        var m := LastEdge(E, i, i);
        assert m in parents[i];
        EdgeReaches(E, m, i);
        if m != i { Transitive(E, m, i, m); }
        DoneNotPending(parents, it, m);
      }
    }
  }

  lemma DoneNotPending(parents: Parents, it: Iteration, m: Id)
    requires Consistent(parents, it)
    ensures m in Done(it) || m in it.issued ==> m < |parents| && m !in it.pending
  {
  }

  // Whatever is not pending has all it depends on, however indirectly, done.
  lemma {:induction false} DependenciesDone(parents: Parents, it: Iteration, d: Id, i: Id)
    requires Consistent(parents, it) && i < |parents| && i !in it.pending
    requires Reaches(DependencyEdges(parents), d, i)
    ensures d in Done(it)
  {
    var E := DependencyEdges(parents);
    var p :| PathFromTo(E, p, d, i);
    var k := |p| - 1;
    while k > 0
      invariant 0 <= k < |p| && p[k] < |parents| && p[k] !in it.pending
      invariant k == |p| - 1 || p[k] in Done(it)
    {
      assert Link(E, p, k - 1);
      assert p[k - 1] in parents[p[k]] && it.deps[p[k]] == {};
      assert p[k - 1] in Done(it);
      DoneNotPending(parents, it, p[k - 1]);
      k := k - 1;
    }
  }

  // Nothing ready, nothing handed out, something pending: there is a cycle.
  lemma StuckIsCyclic(parents: Parents, it: Iteration)
    requires Consistent(parents, it) && it.ready == [] && it.issued == {} && it.pending != {}
    ensures !Acyclic(DependencyEdges(parents))
  {
    var E := DependencyEdges(parents);
    var v :| v in it.pending;
    forall i | i in it.pending ensures Preceded(E, it.pending, i) {
      var p :| p in it.deps[i];
      assert p in parents[i] && p in it.pending;
      assert (p, i) in E;
    }
    PredecessorsCycle(E, it.pending, v);
  }

  // Only an acyclic table can be completed.
  lemma CompletedAcyclic(parents: Parents, it: Iteration)
    requires Sound(parents, it) && Completed(it)
    ensures Acyclic(DependencyEdges(parents))
  {
    var E := DependencyEdges(parents);
    EdgesInTable(parents);
    forall v: Vertex ensures !Reaches(E, v, v) {
      if Reaches(E, v, v) { ReachesInRange(E, |parents|, v, v); }
    }
  }

  // The tasks completed since the scheduler last looked, newest first.
  function FinishAll(parents: Parents, it: Iteration, doneq: seq<Id>): (r: Iteration)
    requires |it.deps| == |parents|
    ensures |r.deps| == |parents|
    decreases |doneq|
  {
    if doneq == [] then it
    else FinishAll(parents, Finish(parents, it, doneq[|doneq| - 1]), doneq[..|doneq| - 1])
  }

  lemma {:induction false} FinishAllSound(parents: Parents, it: Iteration, doneq: seq<Id>)
    requires Sound(parents, it) && Elements(doneq) <= it.issued
    requires forall i, j :: 0 <= i < j < |doneq| ==> doneq[i] != doneq[j]
    ensures ghost var r := FinishAll(parents, it, doneq);
            && Sound(parents, r) && Done(r) == Done(it) + Elements(doneq)
            && r.issued == it.issued - Elements(doneq)
            && r.pending <= it.pending && Elements(it.ready) <= Elements(r.ready)
            && r.pending + Elements(r.ready) == it.pending + Elements(it.ready)
    decreases |doneq|
  {
    if doneq != [] {
      var init, last := doneq[..|doneq| - 1], doneq[|doneq| - 1];
      assert Elements(doneq) == Elements(init) + {last};
      assert last in Elements(doneq);
      FinishSound(parents, it, last);
      FinishMoves(parents, it, last);
      hide Sound, Done, Finish;
      FinishAllSound(parents, Finish(parents, it, last), init);
    }
  }

  lemma {:induction false} FinishAllExtends(parents: Parents, it: Iteration, doneq: seq<Id>)
    requires |it.deps| == |parents|
    ensures it.ready <= FinishAll(parents, it, doneq).ready
    decreases |doneq|
  {
    if doneq != [] {
      FinishAllExtends(parents, Finish(parents, it, doneq[|doneq| - 1]), doneq[..|doneq| - 1]);
    }
  }

  // What a task still waits for, once another has finished.
  lemma {:induction false} WaitsOn(parents: Parents, it: Iteration, id: Id, x: Id, d: Id)
    requires Consistent(parents, it) && id in it.issued && x in it.pending && x < |parents| && it.deps[x] == {d}
    ensures ghost var it' := Finish(parents, it, id);
            if id == d then x in it'.ready else x in it'.pending && x !in it'.ready && it'.deps[x] == {d}
  {
    assert id !in Done(it) && it.deps[x] == parents[x] - Done(it);
    hide Done, Ascending;
    var it' := Finish(parents, it, id);
    assert it'.ready == it.ready + Ascending(Released(parents, it, id), |parents|);
    assert x in Elements(it.ready) <==> x in it.ready;
  }

  // Of two tasks that wait for one each, the one whose dependency was completed last is made
  // ready first.
  lemma {:induction false} NewestFirst(parents: Parents, it: Iteration, doneq: seq<Id>, i: nat, j: nat, x: Id, y: Id) returns (m: nat, n: nat)
    requires Sound(parents, it) && Elements(doneq) <= it.issued
    requires forall k, l :: 0 <= k < l < |doneq| ==> doneq[k] != doneq[l]
    requires i < j < |doneq| && x in it.pending && y in it.pending && x < |parents| && y < |parents|
    requires it.deps[x] == {doneq[i]} && it.deps[y] == {doneq[j]}
    ensures ghost var ready := FinishAll(parents, it, doneq).ready;
            m < n < |ready| && ready[m] == y && ready[n] == x
    decreases |doneq|
  {
    var init, last := doneq[..|doneq| - 1], doneq[|doneq| - 1];
    var it' := Finish(parents, it, last);
    assert last in Elements(doneq);
    assert Elements(doneq) == Elements(init) + {last};
    FinishSound(parents, it, last);
    IssuedLess(parents, it, last);
    WaitsOn(parents, it, last, x, doneq[i]);
    WaitsOn(parents, it, last, y, doneq[j]);
    hide Sound, Finish, Done;
    if j == |doneq| - 1 {
      m :| m < |it'.ready| && it'.ready[m] == y;
      FinishAllExtends(parents, it', init);
      assert init[i] == doneq[i] && doneq[i] in Elements(init);
      MadeReady(parents, it', init, x, doneq[i]);
      n :| n < |FinishAll(parents, it', init).ready| && FinishAll(parents, it', init).ready[n] == x;
      assert n < |it'.ready| ==> x in it'.ready;
    } else {
      m, n := NewestFirst(parents, it', init, i, j, x, y);
    }
  }

  lemma IssuedLess(parents: Parents, it: Iteration, id: Id)
    requires Sound(parents, it) && id in it.issued
    ensures Finish(parents, it, id).issued == it.issued - {id}
  {
  }

  lemma {:induction false} MadeReady(parents: Parents, it: Iteration, doneq: seq<Id>, x: Id, d: Id)
    requires Sound(parents, it) && Elements(doneq) <= it.issued
    requires forall k, l :: 0 <= k < l < |doneq| ==> doneq[k] != doneq[l]
    requires x in it.pending && x < |parents| && it.deps[x] == {d} && d in Elements(doneq)
    ensures x in FinishAll(parents, it, doneq).ready
  {
    hide *;
    WaitsFor(parents, it, x);
    var r := FinishAll(parents, it, doneq);
    FinishAllSound(parents, it, doneq);
    WaitsFor(parents, r, x);
    assert forall y :: y in parents[x] ==> y in it.deps[x] || y in Done(it);
    assert r.deps[x] == {};
    ElementsOf(r.ready, x);
    ElementsOf(it.ready, x);
  }

  lemma WaitsFor(parents: Parents, it: Iteration, x: Id)
    requires Sound(parents, it) && x < |parents|
    ensures |it.deps| == |parents| && it.deps[x] == parents[x] - Done(it) && (x in it.pending <==> it.deps[x] != {})
  {
    hide Done;
  }

  lemma FinishMoves(parents: Parents, it: Iteration, id: Id)
    requires Consistent(parents, it) && id in it.issued
    ensures ghost var r := Finish(parents, it, id);
            && r.issued == it.issued - {id} && r.pending <= it.pending && Elements(it.ready) <= Elements(r.ready)
            && r.pending + Elements(r.ready) == it.pending + Elements(it.ready)
  {
    ReleasedWaited(parents, it, id);
    var r := Finish(parents, it, id);
    assert Elements(r.ready) == Elements(it.ready) + Released(parents, it, id);
  }
}
