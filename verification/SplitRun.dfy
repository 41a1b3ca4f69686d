/** Running an agent function over a stretch of the population, whole or in pieces
    that several workers run at once. */
module SplitRuns {
  import opened TaskManagers
  import opened AgentTasks
  import opened MemoryIterators
  import opened MessageBoards

  type Row<V> = map<string, V>

  // An agent function sees one agent's variables; it may change some of them and
  // post messages.
  type AgentFunction<!V, !M> = Row<V> -> (Row<V>, seq<M>)

  function RowAt<V>(columns: Columns<V>, k: nat): Row<V>
    requires forall x :: x in columns ==> k < |columns[x]|
  {
    map x | x in columns :: columns[x][k]
  }

  function Written<V>(columns: Columns<V>, k: nat, row: Row<V>): Columns<V>
    requires forall x :: x in columns ==> k < |columns[x]|
  {
    map x | x in columns :: if x in row then columns[x][k := row[x]] else columns[x]
  }

  // What the function makes of variable x of agent k.
  function NewValue<V, M>(f: AgentFunction<V, M>, columns: Columns<V>, k: nat, x: string): V
    requires x in columns && forall y :: y in columns ==> k < |columns[y]|
  {
    var row := f(RowAt(columns, k)).0;
    if x in row then row[x] else columns[x][k]
  }

  // The messages of n agents from i on, in that order.
  function Messages<V, M>(f: AgentFunction<V, M>, columns: Columns<V>, i: nat, n: nat): seq<M>
    requires forall x :: x in columns ==> i + n <= |columns[x]|
  {
    if n == 0 then [] else Messages(f, columns, i, n - 1) + f(RowAt(columns, i + n - 1)).1
  }

  // now is what memory was, but for the agents in done: on them the function has run.
  ghost predicate RanOn<V, M>(f: AgentFunction<V, M>, was: Columns<V>, now: Columns<V>, size: nat, done: set<nat>) {
    && Rectangular(was, size) && Rectangular(now, size) && now.Keys == was.Keys
    && forall x, k :: x in was && 0 <= k < size ==>
         now[x][k] == if k in done then NewValue(f, was, k, x) else was[x][k]
  }

  function Stretch(offset: nat, count: nat): set<nat> {
    set k | offset <= k < offset + count && InStretch(offset, count, k)
  }

  predicate InStretch(offset: nat, count: nat, k: nat) {
    offset <= k < offset + count
  }

  // There is only one such memory.
  lemma RanOnUnique<V, M>(f: AgentFunction<V, M>, was: Columns<V>, a: Columns<V>, b: Columns<V>, size: nat, done: set<nat>)
    requires RanOn(f, was, a, size, done) && RanOn(f, was, b, size, done)
    ensures a == b
  {
    forall x | x in was ensures a[x] == b[x] {
      forall k | 0 <= k < |a[x]| ensures a[x][k] == b[x][k] {
        assert a[x][k] == if k in done then NewValue(f, was, k, x) else was[x][k];
        assert b[x][k] == if k in done then NewValue(f, was, k, x) else was[x][k];
      }
    }
  }

  // The function run on one more agent.
  lemma OneMore<V, M>(f: AgentFunction<V, M>, was: Columns<V>, now: Columns<V>, size: nat, done: set<nat>, k: nat)
    requires RanOn(f, was, now, size, done) && k < size && k !in done
    ensures RowAt(now, k) == RowAt(was, k)
    ensures RanOn(f, was, Written(now, k, f(RowAt(now, k)).0), size, done + {k})
  {
    assert RowAt(now, k) == RowAt(was, k);
  }

  // ---------------------------------------------------------- what a run comes to

  // On each agent of the stretch the function has run once, on that agent's variables as they
  // were; what it says nothing of, and every other agent, is as before.
  ghost predicate EachRan<V, M>(f: AgentFunction<V, M>, was: Columns<V>, now: Columns<V>, size: nat, offset: nat, count: nat) {
    && now.Keys == was.Keys && (forall x :: x in was ==> |was[x]| == size && |now[x]| == size)
    && forall x, k :: x in was && 0 <= k < size ==>
         var row := f(map y | y in was :: was[y][k]).0;
         now[x][k] == if offset <= k < offset + count && x in row then row[x] else was[x][k]
  }

  // The messages are those of the agents of the stretch, agent by agent.
  ghost predicate EachPosted<V, M>(f: AgentFunction<V, M>, was: Columns<V>, offset: nat, count: nat, msgs: seq<M>) {
    && (forall x :: x in was ==> offset + count <= |was[x]|)
    && msgs == Flatten(seq(count, k requires 0 <= k < count => f(map y | y in was :: was[y][offset + k]).1))
  }

  lemma RanOnEach<V, M>(f: AgentFunction<V, M>, was: Columns<V>, now: Columns<V>, size: nat, offset: nat, count: nat)
    requires RanOn(f, was, now, size, Stretch(offset, count))
    ensures EachRan(f, was, now, size, offset, count)
  {
    forall x, k | x in was && 0 <= k < size
      ensures ghost var row := f(map y | y in was :: was[y][k]).0;
              now[x][k] == if offset <= k < offset + count && x in row then row[x] else was[x][k]
    {
      assert RowAt(was, k) == map y | y in was :: was[y][k];
      assert k in Stretch(offset, count) <==> InStretch(offset, count, k);
    }
  }

  // What n agents from offset on post, each by itself.
  function Parts<V, M>(f: AgentFunction<V, M>, was: Columns<V>, offset: nat, n: nat): seq<seq<M>>
    requires forall x :: x in was ==> offset + n <= |was[x]|
  {
    seq(n, k requires 0 <= k < n => f(map y | y in was :: was[y][offset + k]).1)
  }

  lemma {:induction false} PartsNext<V, M>(f: AgentFunction<V, M>, was: Columns<V>, offset: nat, n: nat)
    requires forall x :: x in was ==> offset + n + 1 <= |was[x]|
    ensures Parts(f, was, offset, n + 1) == Parts(f, was, offset, n) + [f(RowAt(was, offset + n)).1]
  {
    assert RowAt(was, offset + n) == map y | y in was :: was[y][offset + n];
  }

  lemma MessagesNext<V, M>(f: AgentFunction<V, M>, was: Columns<V>, offset: nat, n: nat)
    requires forall x :: x in was ==> offset + n + 1 <= |was[x]|
    ensures Messages(f, was, offset, 0) == []
    ensures Messages(f, was, offset, n + 1) == Messages(f, was, offset, n) + f(RowAt(was, offset + n)).1
  {
  }

  lemma {:induction false} MessagesInParts<V, M>(f: AgentFunction<V, M>, was: Columns<V>, offset: nat, count: nat)
    requires forall x :: x in was ==> offset + count <= |was[x]|
    ensures Messages(f, was, offset, count) == Flatten(Parts(f, was, offset, count))
  {
    if count > 0 {
      hide *;
      MessagesInParts(f, was, offset, count - 1);
      PartsNext(f, was, offset, count - 1);
      MessagesNext(f, was, offset, count - 1);
      FlattenMore(Parts(f, was, offset, count - 1), f(RowAt(was, offset + count - 1)).1);
    }
  }

  lemma {:induction false} MessagesOfEach<V, M>(f: AgentFunction<V, M>, was: Columns<V>, offset: nat, count: nat)
    requires forall x :: x in was ==> offset + count <= |was[x]|
    ensures EachPosted(f, was, offset, count, Messages(f, was, offset, count))
  {
    MessagesInParts(f, was, offset, count);
    hide Messages, Flatten;
  }

  // ------------------------------------------------------------ the task itself

  ghost predicate RunSoFar<V, M>(it: MemoryIterator<V>, f: AgentFunction<V, M>, was: Columns<V>, posted: seq<M>, now: seq<M>)
    reads it, it.memory
  {
    && it.Valid() && it.offset + it.count <= it.size
    && RanOn(f, was, it.memory.columns, it.size, Stretch(it.offset, it.position))
    && now == posted + Messages(f, was, it.offset, it.position)
  }

  // Runs the function on the agents of the iterator's stretch, one after another.
  method Run<V, M>(it: MemoryIterator<V>, f: AgentFunction<V, M>, writer: BoardWriter<M>)
    requires it.Valid() && it.position == 0 && it.offset + it.count <= it.size
    modifies it, it.memory, writer.data
    ensures it.Valid() && it.AtEnd()
    ensures RanOn(f, old(it.memory.columns), it.memory.columns, it.size, Stretch(it.offset, it.count))
    ensures writer.data.v == old(writer.data.v) + Messages(f, old(it.memory.columns), it.offset, it.count)
    ensures EachRan(f, old(it.memory.columns), it.memory.columns, it.size, it.offset, it.count)
    ensures old(writer.data.v) <= writer.data.v
    ensures EachPosted(f, old(it.memory.columns), it.offset, it.count, writer.data.v[|old(writer.data.v)|..])
  {
    ghost var was, posted := it.memory.columns, writer.data.v;
    NothingRun(f, was, it.size, it.offset);
    assert RunSoFar(it, f, was, posted, writer.data.v);
    while !it.AtEnd()
      invariant RunSoFar(it, f, was, posted, writer.data.v)
      decreases it.count - it.position
    {
      hide RanOn;
      RunNext(it, f, writer, was, posted);
    }
    WhatRan(f, was, it.memory.columns, it.size, it.offset, it.count, posted, writer.data.v);
  }

  lemma WhatRan<V, M>(f: AgentFunction<V, M>, was: Columns<V>, now: Columns<V>, size: nat, offset: nat, count: nat,
                      before: seq<M>, after: seq<M>)
    requires RanOn(f, was, now, size, Stretch(offset, count)) && offset + count <= size
    requires (forall x :: x in was ==> offset + count <= |was[x]|) && after == before + Messages(f, was, offset, count)
    ensures EachRan(f, was, now, size, offset, count)
    ensures before <= after && EachPosted(f, was, offset, count, after[|before|..])
  {
    hide *;
    RanOnEach(f, was, now, size, offset, count);
    MessagesOfEach(f, was, offset, count);
    assert after[|before|..] == Messages(f, was, offset, count);
  }

  lemma NothingRun<V, M>(f: AgentFunction<V, M>, was: Columns<V>, size: nat, offset: nat)
    requires Rectangular(was, size) && offset <= size
    ensures RanOn(f, was, was, size, Stretch(offset, 0)) && Messages(f, was, offset, 0) == []
  {
  }

  method RunNext<V, M>(it: MemoryIterator<V>, f: AgentFunction<V, M>, writer: BoardWriter<M>, ghost was: Columns<V>, ghost posted: seq<M>)
    requires RunSoFar(it, f, was, posted, writer.data.v) && !it.AtEnd()
    modifies it, it.memory, writer.data
    ensures RunSoFar(it, f, was, posted, writer.data.v) && it.position == old(it.position) + 1
  {
    hide RanOn, Stretch, Messages, Written, RowAt;
    NextRun(f, was, it.memory.columns, it.size, it.offset, it.position);
    RunOnce(it, f, writer);
    var stepped := it.Step();
  }

  // The next agent, and its messages.
  lemma NextRun<V, M>(f: AgentFunction<V, M>, was: Columns<V>, now: Columns<V>, size: nat, offset: nat, n: nat)
    requires RanOn(f, was, now, size, Stretch(offset, n)) && offset + n < size
    ensures ghost var r := f(RowAt(now, offset + n));
            && RanOn(f, was, Written(now, offset + n, r.0), size, Stretch(offset, n + 1))
            && Messages(f, was, offset, n + 1) == Messages(f, was, offset, n) + r.1
  {
    OneMore(f, was, now, size, Stretch(offset, n), offset + n);
    assert Stretch(offset, n + 1) == Stretch(offset, n) + {offset + n};
  }

  ghost predicate PointedAt<V>(columns: Columns<V>, ptrs: map<string, Pointer>) {
    forall x :: x in columns ==> x in ptrs && ptrs[x].At? && ptrs[x].index < |columns[x]|
  }

  // An agent's variables, seen through the iterator's pointers.
  function ReadThrough<V>(columns: Columns<V>, ptrs: map<string, Pointer>): Row<V>
    requires PointedAt(columns, ptrs)
  {
    map x | x in columns :: columns[x][ptrs[x].index]
  }

  function WriteThrough<V>(columns: Columns<V>, ptrs: map<string, Pointer>, row: Row<V>): Columns<V>
    requires PointedAt(columns, ptrs)
  {
    map x | x in columns :: if x in row then columns[x][ptrs[x].index := row[x]] else columns[x]
  }

  lemma PointersAtRow<V>(columns: Columns<V>, ptrs: map<string, Pointer>, k: nat, size: nat)
    requires Rectangular(columns, size) && k < size && ptrs.Keys == columns.Keys
    requires forall x :: x in ptrs ==> ptrs[x] == PointerTo(k, size)
    ensures PointedAt(columns, ptrs) && ReadThrough(columns, ptrs) == RowAt(columns, k)
  {
  }

  lemma WrittenAtRow<V>(columns: Columns<V>, ptrs: map<string, Pointer>, k: nat, size: nat, row: Row<V>)
    requires Rectangular(columns, size) && k < size && ptrs.Keys == columns.Keys
    requires forall x :: x in ptrs ==> ptrs[x] == PointerTo(k, size)
    ensures PointedAt(columns, ptrs) && WriteThrough(columns, ptrs, row) == Written(columns, k, row)
    ensures Rectangular(Written(columns, k, row), size) && Written(columns, k, row).Keys == columns.Keys
  {
    forall x | x in columns ensures WriteThrough(columns, ptrs, row)[x] == Written(columns, k, row)[x] {
    }
  }

  // Runs the function on the agent that the iterator points at.
  method RunOnce<V, M>(it: MemoryIterator<V>, f: AgentFunction<V, M>, writer: BoardWriter<M>)
    requires it.Valid() && it.offset + it.position < it.size
    modifies it.memory, writer.data
    ensures it.Valid()
    ensures ghost var k := it.offset + it.position;
            ghost var r := f(RowAt(old(it.memory.columns), k));
            && it.memory.columns == Written(old(it.memory.columns), k, r.0)
            && writer.data.v == old(writer.data.v) + r.1
  {
    hide PointedAt, RowAt, ReadThrough, Written;
    PointersAtRow(it.memory.columns, it.ptrMap, it.offset + it.position, it.size);
    var r := f(ReadThrough(it.memory.columns, it.ptrMap));
    StoreRow(it, r.0);
    PostAll(writer, r.1);
  }

  method StoreRow<V>(it: MemoryIterator<V>, row: Row<V>)
    requires it.Valid() && it.offset + it.position < it.size
    modifies it.memory
    ensures it.Valid() && it.memory.columns == Written(old(it.memory.columns), it.offset + it.position, row)
  {
    hide PointedAt, WriteThrough, Written;
    WrittenAtRow(it.memory.columns, it.ptrMap, it.offset + it.position, it.size, row);
    it.memory.columns := WriteThrough(it.memory.columns, it.ptrMap, row);
  }

  method PostAll<M>(writer: BoardWriter<M>, msgs: seq<M>)
    modifies writer.data
    ensures writer.data.v == old(writer.data.v) + msgs
  {
    var i := 0;
    while i < |msgs|
      invariant 0 <= i <= |msgs| && writer.data.v == old(writer.data.v) + msgs[..i]
    {
      writer.data.PushBack(msgs[i]);
      i := i + 1;
    }
    assert msgs[..i] == msgs;
  }

  // ------------------------------------------------------------ pieces at once

  // Where the workers of the pieces are: how far each has come, and what each
  // has posted.
  datatype Progress<V, M> = Progress(columns: Columns<V>, position: seq<nat>, posted: seq<seq<M>>)

  predicate CanAdvance<V, M>(ps: seq<Piece>, s: Progress<V, M>, k: nat) {
    k < |ps| == |s.position| == |s.posted| && s.position[k] < ps[k].count
  }

  // The worker of piece k runs the function on its next agent.
  function Advance<V, M>(f: AgentFunction<V, M>, ps: seq<Piece>, s: Progress<V, M>, k: nat): Progress<V, M>
    requires CanAdvance(ps, s, k) && forall x :: x in s.columns ==> ps[k].offset + s.position[k] < |s.columns[x]|
  {
    var a := ps[k].offset + s.position[k];
    var r := f(RowAt(s.columns, a));
    Progress(Written(s.columns, a, r.0), s.position[k := s.position[k] + 1], s.posted[k := s.posted[k] + r.1])
  }

  function Begin<V, M>(columns: Columns<V>, n: nat): Progress<V, M> {
    Progress(columns, seq(n, _ => 0), seq(n, _ => []))
  }

  // The agents that the function has run on.
  function Passed(ps: seq<Piece>, position: seq<nat>): set<nat>
    requires |ps| == |position|
    decreases |ps|
  {
    if ps == [] then {}
    else
      var n := |ps| - 1;
      Passed(ps[..n], position[..n]) + Stretch(ps[n].offset, position[n])
  }

  lemma {:induction false} PassedExact(ps: seq<Piece>, position: seq<nat>, a: nat)
    requires |ps| == |position|
    ensures a in Passed(ps, position) <==> exists k :: 0 <= k < |ps| && InStretch(ps[k].offset, position[k], a)
    decreases |ps|
  {
    if ps != [] {
      var n := |ps| - 1;
      PassedExact(ps[..n], position[..n], a);
      if k :| 0 <= k < |ps| && InStretch(ps[k].offset, position[k], a) {
        if k < n {
          assert InStretch(ps[..n][k].offset, position[..n][k], a);
        }
      }
      if k :| 0 <= k < |ps[..n]| && InStretch(ps[..n][k].offset, position[..n][k], a) {
        assert InStretch(ps[k].offset, position[k], a);
      }
    }
  }

  // What holds at any time, whoever was how fast.
  ghost predicate OnTheWay<V, M>(f: AgentFunction<V, M>, ps: seq<Piece>, was: Columns<V>, size: nat, s: Progress<V, M>) {
    && |s.position| == |s.posted| == |ps|
    && (forall k :: 0 <= k < |ps| ==> s.position[k] <= ps[k].count && ps[k].offset + ps[k].count <= size)
    && RanOn(f, was, s.columns, size, Passed(ps, s.position))
    && forall k :: 0 <= k < |ps| ==> s.posted[k] == Messages(f, was, ps[k].offset, s.position[k])
  }

  lemma BeginIsOnTheWay<V, M>(f: AgentFunction<V, M>, ps: seq<Piece>, was: Columns<V>, size: nat)
    requires Rectangular(was, size)
    requires forall k :: 0 <= k < |ps| ==> ps[k].offset + ps[k].count <= size
    ensures OnTheWay(f, ps, was, size, Begin(was, |ps|))
  {
    var s: Progress<V, M> := Begin(was, |ps|);
    forall a: nat ensures a !in Passed(ps, s.position) {
      PassedExact(ps, s.position, a);
    }
  }

  // No two workers meet: an agent that is next for one has been passed by none.
  lemma AdvanceKeepsWay<V, M>(f: AgentFunction<V, M>, ps: seq<Piece>, offset: nat, population: nat,
                              was: Columns<V>, size: nat, s: Progress<V, M>, k: nat)
    requires Tile(ps, offset, population) && OnTheWay(f, ps, was, size, s) && CanAdvance(ps, s, k)
    ensures forall x :: x in s.columns ==> ps[k].offset + s.position[k] < |s.columns[x]|
    ensures OnTheWay(f, ps, was, size, Advance(f, ps, s, k))
  {
    hide Tile, RanOn, Passed, Written, RowAt, Messages;
    Within(f, was, s.columns, size, Passed(ps, s.position), ps[k].offset + s.position[k]);
    AdvanceRuns(f, ps, offset, population, was, size, s, k, ps[k].offset + s.position[k]);
    PostedMore(f, ps, was, size, s.position, s.posted, k, f(RowAt(was, ps[k].offset + s.position[k])).1);
    hide Stretch;
  }

  lemma AdvanceRuns<V, M>(f: AgentFunction<V, M>, ps: seq<Piece>, offset: nat, population: nat,
                          was: Columns<V>, size: nat, s: Progress<V, M>, k: nat, a: nat)
    requires Tile(ps, offset, population) && OnTheWay(f, ps, was, size, s) && CanAdvance(ps, s, k)
    requires a == ps[k].offset + s.position[k]
    ensures a < size && Rectangular(was, size) && Rectangular(s.columns, size) && RowAt(s.columns, a) == RowAt(was, a)
    ensures RanOn(f, was, Written(s.columns, a, f(RowAt(s.columns, a)).0), size, Passed(ps, s.position[k := s.position[k] + 1]))
  {
    hide Tile, RanOn, Passed, Written, RowAt, Messages;
    RanOnRectangular(f, was, s.columns, size, Passed(ps, s.position));
    PassedMore(ps, offset, population, s.position, k);
    OneMore(f, was, s.columns, size, Passed(ps, s.position), a);
  }

  lemma Within<V, M>(f: AgentFunction<V, M>, was: Columns<V>, now: Columns<V>, size: nat, done: set<nat>, a: nat)
    requires RanOn(f, was, now, size, done) && a < size
    ensures forall x :: x in now ==> a < |now[x]|
    ensures forall x :: x in was ==> a < |was[x]|
  {
  }

  lemma RanOnRectangular<V, M>(f: AgentFunction<V, M>, was: Columns<V>, now: Columns<V>, size: nat, done: set<nat>)
    requires RanOn(f, was, now, size, done)
    ensures Rectangular(was, size) && Rectangular(now, size)
  {
  }

  lemma PostedMore<V, M>(f: AgentFunction<V, M>, ps: seq<Piece>, was: Columns<V>, size: nat,
                         position: seq<nat>, posted: seq<seq<M>>, k: nat, more: seq<M>)
    requires Rectangular(was, size) && |position| == |posted| == |ps| && k < |ps| && position[k] < ps[k].count
    requires forall j :: 0 <= j < |ps| ==> position[j] <= ps[j].count && ps[j].offset + ps[j].count <= size
    requires forall j :: 0 <= j < |ps| ==> posted[j] == Messages(f, was, ps[j].offset, position[j])
    requires more == f(RowAt(was, ps[k].offset + position[k])).1
    ensures forall j :: 0 <= j < |ps| ==>
              posted[k := posted[k] + more][j] == Messages(f, was, ps[j].offset, position[k := position[k] + 1][j])
  {
  }

  lemma PassedMore(ps: seq<Piece>, offset: nat, population: nat, position: seq<nat>, k: nat)
    requires Tile(ps, offset, population) && |ps| == |position| && k < |ps| && position[k] < ps[k].count
    requires forall j :: 0 <= j < |ps| ==> position[j] <= ps[j].count
    ensures ps[k].offset + position[k] !in Passed(ps, position)
    ensures Passed(ps, position[k := position[k] + 1]) == Passed(ps, position) + {ps[k].offset + position[k]}
  {
    var a, position' := ps[k].offset + position[k], position[k := position[k] + 1];
    hide Passed;
    forall j | 0 <= j < |ps| ensures !InStretch(ps[j].offset, position[j], a) {
      if j < k { PiecesDisjoint(ps, offset, population, j, k); }
      if k < j { PiecesDisjoint(ps, offset, population, k, j); }
    }
    PassedExact(ps, position, a);
    forall b: nat ensures b in Passed(ps, position') <==> b in Passed(ps, position) || b == a {
      PassedExact(ps, position, b);
      PassedExact(ps, position', b);
      assert InStretch(ps[k].offset, position'[k], b) <==> InStretch(ps[k].offset, position[k], b) || b == a;
      forall j | 0 <= j < |ps| && j != k
        ensures InStretch(ps[j].offset, position'[j], b) <==> InStretch(ps[j].offset, position[j], b) {
      }
    }
  }

  ghost predicate Done<V, M>(ps: seq<Piece>, s: Progress<V, M>) {
    |s.position| == |ps| && forall k :: 0 <= k < |ps| ==> s.position[k] == ps[k].count
  }

  // A schedule says whose turn it is.
  ghost predicate Schedules<V, M>(f: AgentFunction<V, M>, ps: seq<Piece>, was: Columns<V>, turns: seq<nat>, states: seq<Progress<V, M>>) {
    && |states| == |turns| + 1 && states[0] == Begin(was, |ps|)
    && forall i :: 0 <= i < |turns| ==> Turn(f, ps, states[i], turns[i], states[i + 1])
  }

  ghost predicate Turn<V, M>(f: AgentFunction<V, M>, ps: seq<Piece>, s: Progress<V, M>, k: nat, s': Progress<V, M>) {
    && CanAdvance(ps, s, k) && (forall x :: x in s.columns ==> ps[k].offset + s.position[k] < |s.columns[x]|)
    && s' == Advance(f, ps, s, k)
  }

  lemma {:induction false} ScheduleKeepsWay<V, M>(f: AgentFunction<V, M>, ps: seq<Piece>, offset: nat, population: nat,
      was: Columns<V>, size: nat, turns: seq<nat>, states: seq<Progress<V, M>>, i: nat)
    requires Tile(ps, offset, population) && Rectangular(was, size) && offset + population <= size
    requires Schedules(f, ps, was, turns, states) && i < |states|
    ensures OnTheWay(f, ps, was, size, states[i])
  {
    if i == 0 {
      forall k | 0 <= k < |ps| ensures ps[k].offset + ps[k].count <= size {
        PieceInRange(ps, offset, population, k);
      }
      BeginIsOnTheWay(f, ps, was, size);
    } else {
      ScheduleKeepsWay(f, ps, offset, population, was, size, turns, states, i - 1);
      assert Turn(f, ps, states[i - 1], turns[i - 1], states[i]);
      AdvanceKeepsWay(f, ps, offset, population, was, size, states[i - 1], turns[i - 1]);
    }
  }

  lemma {:induction false} MessagesJoined<V, M>(f: AgentFunction<V, M>, columns: Columns<V>, i: nat, n: nat, m: nat)
    requires forall x :: x in columns ==> i + n + m <= |columns[x]|
    ensures Messages(f, columns, i, n + m) == Messages(f, columns, i, n) + Messages(f, columns, i + n, m)
  {
    if m > 0 {
      MessagesJoined(f, columns, i, n, m - 1);
    }
  }

  // Piece after piece, the messages are those of the whole stretch.
  lemma {:induction false} MessagesOfPieces<V, M>(f: AgentFunction<V, M>, ps: seq<Piece>, offset: nat, population: nat,
      was: Columns<V>, size: nat, posted: seq<seq<M>>)
    requires Tile(ps, offset, population) && Rectangular(was, size) && offset + population <= size && |posted| == |ps|
    requires forall k :: 0 <= k < |ps| ==> ps[k].offset + ps[k].count <= size
    requires forall k :: 0 <= k < |ps| ==> posted[k] == Messages(f, was, ps[k].offset, ps[k].count)
    ensures Flatten(posted) == Messages(f, was, offset, population)
    decreases |ps|
  {
    hide Tile, Messages, Flatten;
    var n := |ps| - 1;
    LastPiece(ps, offset, population);
    assert posted == posted[..n] + [posted[n]];
    FlattenMore(posted[..n], posted[n]);
    if n > 0 {
      var before := ps[n].offset - offset;
      MessagesOfPieces(f, ps[..n], offset, before, was, size, posted[..n]);
      MessagesJoined(f, was, offset, before, ps[n].count);
    } else {
      NothingFlattened(posted);
    }
  }

  lemma LastPiece(ps: seq<Piece>, offset: nat, population: nat)
    requires Tile(ps, offset, population)
    ensures ps != []
    ensures ghost var n := |ps| - 1;
            ps[n].offset >= offset && ps[n].offset - offset + ps[n].count == population
            && (if n > 0 then Tile(ps[..n], offset, ps[n].offset - offset) else ps[n].offset == offset)
  {
    var n := |ps| - 1;
    if n > 0 {
      PieceInRange(ps, offset, population, n - 1);
    }
  }

  // However the workers take turns, running the pieces leaves the memory that the
  // unsplit run leaves, and, in whatever order the writers were issued, the same
  // messages for the board.
  lemma SplitRunIsWholeRun<V, M>(f: AgentFunction<V, M>, ps: seq<Piece>, offset: nat, population: nat,
      was: Columns<V>, size: nat, turns: seq<nat>, states: seq<Progress<V, M>>, whole: Columns<V>, buffers: seq<seq<M>>)
    requires Tile(ps, offset, population) && Rectangular(was, size) && offset + population <= size
    requires Schedules(f, ps, was, turns, states) && Done(ps, states[|turns|])
    requires RanOn(f, was, whole, size, Stretch(offset, population))
    requires multiset(buffers) == multiset(states[|turns|].posted)
    ensures states[|turns|].columns == whole
    ensures multiset(Flatten(buffers)) == multiset(Messages(f, was, offset, population))
  {
    var s := states[|turns|];
    ScheduleKeepsWay(f, ps, offset, population, was, size, turns, states, |turns|);
    hide Schedules, RanOn, Flatten;
    forall a: nat ensures a in Passed(ps, s.position) <==> a in Stretch(offset, population) {
      PassedAll(ps, offset, population, s.position, a);
    }
    assert Passed(ps, s.position) == Stretch(offset, population);
    RanOnUnique(f, was, s.columns, whole, size, Stretch(offset, population));
    MessagesOfPieces(f, ps, offset, population, was, size, s.posted);
    WriterOrderIrrelevant(buffers, s.posted);
  }

  lemma PassedAll(ps: seq<Piece>, offset: nat, population: nat, position: seq<nat>, a: nat)
    requires Tile(ps, offset, population) && |position| == |ps|
    requires forall k :: 0 <= k < |ps| ==> position[k] == ps[k].count
    ensures a in Passed(ps, position) <==> a in Stretch(offset, population)
  {
    PassedExact(ps, position, a);
    if k :| 0 <= k < |ps| && InStretch(ps[k].offset, position[k], a) {
      PieceInRange(ps, offset, population, k);
    }
    if a in Stretch(offset, population) {
      var k := InSomePiece(ps, offset, population, a);
      assert InStretch(ps[k].offset, position[k], a);
    }
  }

  // ------------------------------------------------- from the split to the board

  // One iterator and one writer for each piece, all over the same memory.
  ghost predicate Workers<V, M>(memory: AgentMemory<V>, its: seq<MemoryIterator<V>>, ws: seq<BoardWriter<M>>, ps: seq<Piece>)
    reads memory, its
  {
    && |its| == |ws| == |ps| && memory.Valid()
    && (forall k :: 0 <= k < |its| ==> WorksOn(memory, memory.columns.Keys, its[k], ps[k]))
    && (forall i, j :: 0 <= i < j < |its| ==> its[i] != its[j])
    && (forall i, j :: 0 <= i < j < |ws| ==> ws[i].data != ws[j].data)
  }

  ghost predicate WorksOn<V>(memory: AgentMemory<V>, variables: set<string>, it: MemoryIterator<V>, p: Piece)
    reads it
  {
    && it.memory == memory && it.offset == p.offset && it.count == p.count && it.position <= it.count
    && it.size == memory.size && it.offset + it.count <= it.size && it.offset < it.size
    && it.ptrMap.Keys == variables
    && forall x :: x in it.ptrMap ==> it.ptrMap[x] == PointerTo(it.offset + it.position, it.size)
  }

  ghost function Positions<V>(its: seq<MemoryIterator<V>>): (r: seq<nat>)
    reads its
    ensures |r| == |its| && forall k :: 0 <= k < |its| ==> r[k] == its[k].position
  {
    seq(|its|, k requires 0 <= k < |its| reads its => its[k].position)
  }

  // A worker runs the function on its next agent.
  method RunAndStep<V, M>(memory: AgentMemory<V>, it: MemoryIterator<V>, w: BoardWriter<M>, p: Piece, f: AgentFunction<V, M>)
    requires memory.Valid() && WorksOn(memory, memory.columns.Keys, it, p) && !it.AtEnd()
    modifies memory, it`ptrMap, it`position, w.data
    ensures memory.Valid() && WorksOn(memory, memory.columns.Keys, it, p) && memory.columns.Keys == old(memory.columns.Keys)
    ensures ghost var a := p.offset + old(it.position);
            && a < memory.size && it.position == old(it.position) + 1
            && memory.columns == Written(old(memory.columns), a, f(RowAt(old(memory.columns), a)).0)
            && w.data.v == old(w.data.v) + f(RowAt(old(memory.columns), a)).1
  {
    hide RowAt, Written;
    ghost var was, a := memory.columns, it.offset + it.position;
    WrittenAtRow(was, it.ptrMap, a, it.size, f(RowAt(was, a)).0);
    RunOnce(it, f, w);
    var stepped := it.Step();
  }

  // A worker that has its turn does what Advance says.
  method TakeTurn<V, M>(memory: AgentMemory<V>, its: seq<MemoryIterator<V>>, ws: seq<BoardWriter<M>>, ps: seq<Piece>, k: nat,
                        f: AgentFunction<V, M>)
    requires Workers(memory, its, ws, ps) && k < |its| && !its[k].AtEnd()
    modifies memory, its[k], ws[k].data
    ensures Workers(memory, its, ws, ps) && Positions(its) == old(Positions(its))[k := old(its[k].position) + 1]
    ensures ghost var s := Progress(old(memory.columns), old(Positions(its)), old(Buffered(ws)));
            && CanAdvance(ps, s, k) && (forall x :: x in s.columns ==> ps[k].offset + s.position[k] < |s.columns[x]|)
            && Progress(memory.columns, Positions(its), Buffered(ws)) == Advance(f, ps, s, k)
  {
    hide *;
    ghost var s := Progress(memory.columns, Positions(its), Buffered(ws));
    ghost var size := memory.size;
    WorkersAre(memory, its, ws, ps);
    OneWorks(memory, its, ws, ps, k);
    label before:
    RunAndStep(memory, its[k], ws[k], ps[k], f);
    assert forall j :: 0 <= j < |its| && j != k ==> unchanged@before(its[j]) && unchanged@before(ws[j].data);
    assert forall j :: 0 <= j < |its| && j != k ==> WorksOn(memory, memory.columns.Keys, its[j], ps[j]);
    AreWorkers(memory, its, ws, ps);
    Advances(f, ps, s, k, size, memory.columns, Positions(its), Buffered(ws));
  }

  lemma WorkersAre<V, M>(memory: AgentMemory<V>, its: seq<MemoryIterator<V>>, ws: seq<BoardWriter<M>>, ps: seq<Piece>)
    requires Workers(memory, its, ws, ps)
    ensures |its| == |ws| == |ps| && memory.Valid()
    ensures forall k :: 0 <= k < |its| ==> WorksOn(memory, memory.columns.Keys, its[k], ps[k])
    ensures forall i, j :: 0 <= i < j < |its| ==> its[i] != its[j]
    ensures forall i, j :: 0 <= i < j < |ws| ==> ws[i].data != ws[j].data
  {
    hide WorksOn;
  }

  lemma AreWorkers<V, M>(memory: AgentMemory<V>, its: seq<MemoryIterator<V>>, ws: seq<BoardWriter<M>>, ps: seq<Piece>)
    requires |its| == |ws| == |ps| && memory.Valid()
    requires forall k :: 0 <= k < |its| ==> WorksOn(memory, memory.columns.Keys, its[k], ps[k])
    requires forall i, j :: 0 <= i < j < |its| ==> its[i] != its[j]
    requires forall i, j :: 0 <= i < j < |ws| ==> ws[i].data != ws[j].data
    ensures Workers(memory, its, ws, ps)
  {
    hide WorksOn;
  }

  lemma Advances<V, M>(f: AgentFunction<V, M>, ps: seq<Piece>, s: Progress<V, M>, k: nat, size: nat,
                       columns: Columns<V>, position: seq<nat>, posted: seq<seq<M>>)
    requires k < |ps| == |s.position| == |s.posted| && s.position[k] < ps[k].count
    requires Rectangular(s.columns, size) && ps[k].offset + ps[k].count <= size
    requires |position| == |posted| == |ps|
    requires forall j :: 0 <= j < |ps| && j != k ==> position[j] == s.position[j] && posted[j] == s.posted[j]
    requires position[k] == s.position[k] + 1
    requires ghost var a := ps[k].offset + s.position[k];
             && (forall x :: x in s.columns ==> a < |s.columns[x]|)
             && columns == Written(s.columns, a, f(RowAt(s.columns, a)).0)
             && posted[k] == s.posted[k] + f(RowAt(s.columns, a)).1
    ensures CanAdvance(ps, s, k) && Progress(columns, position, posted) == Advance(f, ps, s, k)
  {
    hide RowAt, Written;
    assert position == s.position[k := position[k]];
    assert posted == s.posted[k := posted[k]];
  }

  lemma OneWorks<V, M>(memory: AgentMemory<V>, its: seq<MemoryIterator<V>>, ws: seq<BoardWriter<M>>, ps: seq<Piece>, k: nat)
    requires Workers(memory, its, ws, ps) && k < |its| && !its[k].AtEnd()
    ensures WorksOn(memory, memory.columns.Keys, its[k], ps[k]) && its[k].position < ps[k].count
    ensures forall j :: 0 <= j < |its| && j != k ==> its[j] != its[k] && ws[j].data != ws[k].data
    ensures Rectangular(memory.columns, memory.size) && ps[k].offset + ps[k].count <= memory.size
    ensures forall x :: x in memory.columns ==> ps[k].offset + its[k].position < |memory.columns[x]|
  {
    assert WorksOn(memory, memory.columns.Keys, its[k], ps[k]);
  }

  // How many agents the workers have still to come to.
  ghost function Left(ps: seq<Piece>, position: seq<nat>): nat
    requires |ps| == |position|
  {
    if ps == [] then 0
    else
      var n := |ps| - 1;
      Left(ps[..n], position[..n]) + (if position[n] < ps[n].count then ps[n].count - position[n] else 0)
  }

  lemma {:induction false} LessLeft(ps: seq<Piece>, position: seq<nat>, k: nat)
    requires |ps| == |position| && k < |ps| && position[k] < ps[k].count
    ensures Left(ps, position[k := position[k] + 1]) < Left(ps, position)
  {
    var n := |ps| - 1;
    var position' := position[k := position[k] + 1];
    if k < n {
      assert position'[..n] == position[..n][k := position[k] + 1];
      LessLeft(ps[..n], position[..n], k);
    } else {
      assert position'[..n] == position[..n];
    }
  }

  lemma {:induction false} StartsOnTheWay<V, M>(memory: AgentMemory<V>, its: seq<MemoryIterator<V>>, ws: seq<BoardWriter<M>>,
                                                ps: seq<Piece>, f: AgentFunction<V, M>)
    requires Workers(memory, its, ws, ps)
    requires forall k :: 0 <= k < |its| ==> its[k].position == 0 && ws[k].data.v == []
    ensures OnTheWay(f, ps, memory.columns, memory.size, Progress(memory.columns, Positions(its), Buffered(ws)))
  {
    hide OnTheWay;
    forall k | 0 <= k < |ps| ensures ps[k].offset + ps[k].count <= memory.size {
      assert WorksOn(memory, memory.columns.Keys, its[k], ps[k]);
    }
    BeginIsOnTheWay(f, ps, memory.columns, memory.size);
    assert Positions(its) == seq(|ps|, _ => 0);
    assert Buffered(ws) == seq(|ps|, _ => []);
  }

  lemma StillToCome<V, M>(memory: AgentMemory<V>, its: seq<MemoryIterator<V>>, ws: seq<BoardWriter<M>>, ps: seq<Piece>, k: nat)
    requires Workers(memory, its, ws, ps) && k < |its| && !its[k].AtEnd()
    ensures its[k].position < ps[k].count
  {
    assert WorksOn(memory, memory.columns.Keys, its[k], ps[k]);
  }

  // The next turn, whoever has it.
  method NextTurn<V, M>(memory: AgentMemory<V>, its: seq<MemoryIterator<V>>, ws: seq<BoardWriter<M>>, ps: seq<Piece>, k: nat,
                        f: AgentFunction<V, M>, ghost offset: nat, ghost population: nat, ghost was: Columns<V>)
    requires Workers(memory, its, ws, ps) && Tile(ps, offset, population) && |its| == |ws| == |ps|
    requires OnTheWay(f, ps, was, memory.size, Progress(memory.columns, Positions(its), Buffered(ws)))
    requires k < |its| && !its[k].AtEnd()
    modifies memory, its[k], ws[k].data
    ensures Workers(memory, its, ws, ps)
    ensures OnTheWay(f, ps, was, memory.size, Progress(memory.columns, Positions(its), Buffered(ws)))
    ensures Left(ps, Positions(its)) < old(Left(ps, Positions(its)))
  {
    hide *;
    ghost var s := Progress(memory.columns, Positions(its), Buffered(ws));
    StillToCome(memory, its, ws, ps, k);
    LessLeft(ps, s.position, k);
    TakeTurn(memory, its, ws, ps, k, f);
    AdvanceKeepsWay(f, ps, offset, population, was, memory.size, s, k);
  }

  // Lets the workers take turns, whoever comes next, until all are done.
  method RunAll<V, M>(memory: AgentMemory<V>, its: seq<MemoryIterator<V>>, ws: seq<BoardWriter<M>>, ps: seq<Piece>,
                      f: AgentFunction<V, M>, ghost offset: nat, ghost population: nat)
    requires Workers(memory, its, ws, ps) && Tile(ps, offset, population) && |its| == |ws| == |ps|
    requires forall k :: 0 <= k < |its| ==> its[k].position == 0 && ws[k].data.v == []
    modifies memory, (set it | it in its), Buffers(ws)
    ensures Workers(memory, its, ws, ps) && forall k :: 0 <= k < |its| ==> its[k].AtEnd()
    ensures OnTheWay(f, ps, old(memory.columns), memory.size, Progress(memory.columns, Positions(its), Buffered(ws)))
  {
    ghost var was := memory.columns;
    StartsOnTheWay(memory, its, ws, ps, f);
    assert forall k :: 0 <= k < |ws| ==> ws[k].data in Buffers(ws);
    hide OnTheWay, Tile, Left, Workers;
    while exists k :: 0 <= k < |its| && !its[k].AtEnd()
      invariant Workers(memory, its, ws, ps)
      invariant OnTheWay(f, ps, was, memory.size, Progress(memory.columns, Positions(its), Buffered(ws)))
      decreases Left(ps, Positions(its))
    {
      var k :| 0 <= k < |its| && !its[k].AtEnd();
      NextTurn(memory, its, ws, ps, k, f, offset, population, was);
    }
  }

  // ------------------------------------------------------------ start to finish

  // An iterator and a writer for every piece; refused if a piece is not a stretch that can
  // be iterated.
  method HireWorkers<V, M>(memory: AgentMemory<V>, board: MessageBoard<M>, ps: seq<Piece>, ghost offset: nat, ghost population: nat)
    returns (r: Outcome<seq<MemoryIterator<V>>>)
    requires memory.Valid() && board.Valid() && board.writers == []
    requires Tile(ps, offset, population) && offset + population <= memory.size
    modifies board`writers
    ensures board.Valid() && forall w :: w in board.writers ==> fresh(w) && fresh(w.data)
    ensures r.Success? <==> forall k :: 0 <= k < |ps| ==> Accepted(memory.size, ps[k].offset, ps[k].count)
    ensures r.Success? ==> Workers(memory, r.value, board.writers, ps) && forall it :: it in r.value ==> fresh(it)
    ensures r.Success? ==> forall k :: 0 <= k < |r.value| ==> r.value[k].position == 0 && board.writers[k].data.v == []
  {
    hide *;
    PiecesWithin(ps, offset, population);
    var its, k := [], 0;
    NoneHired(memory, its, board.writers, ps);
    while k < |ps|
      invariant 0 <= k <= |ps| && |its| == |board.writers| == k && board.Valid()
      invariant forall j :: 0 <= j < k ==> Accepted(memory.size, ps[j].offset, ps[j].count)
      invariant forall w :: w in board.writers ==> fresh(w) && fresh(w.data)
      invariant forall it :: it in its ==> fresh(it)
      invariant Workers(memory, its, board.writers, ps[..k])
      invariant forall j :: 0 <= j < k ==> its[j].position == 0 && board.writers[j].data.v == []
    {
      var it := MemoryIterator.GetMemoryIterator(memory, ps[k].offset, ps[k].count);
      if it.Failure? {
        return Failure(it.error);
      }
      FitForWork(memory, it.value, ps[k]);
      ghost var ws := board.writers;
      var w := board.GetBoardWriter();
      OneMoreHired(memory, its, ws, ps, k, it.value, w);
      its := its + [it.value];
      k := k + 1;
    }
    assert ps[..k] == ps;
    return Success(its);
  }

  lemma NoneHired<V, M>(memory: AgentMemory<V>, its: seq<MemoryIterator<V>>, ws: seq<BoardWriter<M>>, ps: seq<Piece>)
    requires memory.Valid() && its == [] && ws == []
    ensures Workers(memory, its, ws, ps[..0])
  {
  }

  lemma FitForWork<V>(memory: AgentMemory<V>, it: MemoryIterator<V>, p: Piece)
    requires it.Valid() && it.memory == memory && it.offset == p.offset && it.count == p.count
    requires Accepted(memory.size, p.offset, p.count) && p.offset + p.count <= memory.size
    ensures WorksOn(memory, memory.columns.Keys, it, p)
  {
  }

  lemma OneMoreHired<V, M>(memory: AgentMemory<V>, its: seq<MemoryIterator<V>>, ws: seq<BoardWriter<M>>, ps: seq<Piece>, k: nat,
                           it: MemoryIterator<V>, w: BoardWriter<M>)
    requires k < |ps| && Workers(memory, its, ws, ps[..k]) && WorksOn(memory, memory.columns.Keys, it, ps[k])
    requires it !in its && forall v :: v in ws ==> v.data != w.data
    ensures Workers(memory, its + [it], ws + [w], ps[..k + 1])
  {
    hide *;
    WorkersAre(memory, its, ws, ps[..k]);
    AreWorkers(memory, its + [it], ws + [w], ps[..k + 1]);
  }

  lemma PiecesWithin(ps: seq<Piece>, offset: nat, population: nat)
    requires Tile(ps, offset, population)
    ensures forall k :: 0 <= k < |ps| ==> offset <= ps[k].offset && ps[k].offset + ps[k].count <= offset + population
  {
    forall k | 0 <= k < |ps| ensures offset <= ps[k].offset && ps[k].offset + ps[k].count <= offset + population {
      PieceInRange(ps, offset, population, k);
    }
  }

  // What the workers leave when all are done.
  lemma {:induction false} AllDone<V, M>(memory: AgentMemory<V>, its: seq<MemoryIterator<V>>, ws: seq<BoardWriter<M>>, ps: seq<Piece>,
                                         f: AgentFunction<V, M>, offset: nat, population: nat, was: Columns<V>)
    requires Workers(memory, its, ws, ps) && Tile(ps, offset, population) && offset + population <= memory.size
    requires forall k :: 0 <= k < |its| ==> its[k].AtEnd()
    requires OnTheWay(f, ps, was, memory.size, Progress(memory.columns, Positions(its), Buffered(ws)))
    ensures RanOn(f, was, memory.columns, memory.size, Stretch(offset, population))
    ensures Rectangular(was, memory.size) && Flatten(Buffered(ws)) == Messages(f, was, offset, population)
  {
    var positions := Positions(its);
    forall k | 0 <= k < |ps| ensures positions[k] == ps[k].count {
      assert WorksOn(memory, memory.columns.Keys, its[k], ps[k]);
    }
    hide Workers, WorksOn, Tile, RanOn, Flatten, Messages, Passed;
    forall a: nat ensures a in Passed(ps, positions) <==> a in Stretch(offset, population) {
      PassedAll(ps, offset, population, positions, a);
    }
    assert Passed(ps, positions) == Stretch(offset, population);
    RanOnRectangular(f, was, memory.columns, memory.size, Passed(ps, positions));
    MessagesOfPieces(f, ps, offset, population, was, memory.size, Buffered(ws));
  }

  // The workers run, and the board is synchronised.
  method RunHired<V, M>(memory: AgentMemory<V>, board: MessageBoard<M>, its: seq<MemoryIterator<V>>, ps: seq<Piece>,
                        f: AgentFunction<V, M>, ghost offset: nat, ghost population: nat)
    requires board.Valid() && Workers(memory, its, board.writers, ps) && |its| == |board.writers| == |ps|
    requires forall k :: 0 <= k < |its| ==> its[k].position == 0 && board.writers[k].data.v == []
    requires Tile(ps, offset, population) && offset + population <= memory.size
    modifies memory, (set it | it in its), board`writers, board.writers, board.data, Buffers(board.writers)
    ensures Rectangular(old(memory.columns), memory.size)
    ensures RanOn(f, old(memory.columns), memory.columns, memory.size, Stretch(offset, population))
    ensures board.data.v == old(board.data.v) + Messages(f, old(memory.columns), offset, population)
  {
    hide *;
    BoardApart(board);
    RunToEnd(memory, its, board.writers, ps, f, offset, population);
    board.Sync();
  }

  // The workers run to their ends.
  method RunToEnd<V, M>(memory: AgentMemory<V>, its: seq<MemoryIterator<V>>, ws: seq<BoardWriter<M>>, ps: seq<Piece>,
                        f: AgentFunction<V, M>, ghost offset: nat, ghost population: nat)
    requires Workers(memory, its, ws, ps) && |its| == |ws| == |ps|
    requires forall k :: 0 <= k < |its| ==> its[k].position == 0 && ws[k].data.v == []
    requires Tile(ps, offset, population) && offset + population <= memory.size
    modifies memory, (set it | it in its), Buffers(ws)
    ensures Rectangular(old(memory.columns), memory.size)
    ensures RanOn(f, old(memory.columns), memory.columns, memory.size, Stretch(offset, population))
    ensures Flatten(Buffered(ws)) == Messages(f, old(memory.columns), offset, population)
  {
    hide *;
    ghost var was := memory.columns;
    RunAll(memory, its, ws, ps, f, offset, population);
    AllDone(memory, its, ws, ps, f, offset, population, was);
  }

  lemma BoardApart<M>(board: MessageBoard<M>)
    requires board.Valid()
    ensures board.data !in Buffers(board.writers)
  {
  }

  // Runs the pieces, in any order of turns, and brings the messages to the board.
  method RunPieces<V, M>(memory: AgentMemory<V>, board: MessageBoard<M>, ps: seq<Piece>, f: AgentFunction<V, M>,
                         ghost offset: nat, ghost population: nat) returns (r: Outcome<()>)
    requires memory.Valid() && board.Valid() && board.writers == []
    requires Tile(ps, offset, population) && offset + population <= memory.size
    modifies memory, board`writers, board.data
    ensures Rectangular(old(memory.columns), memory.size)
    ensures r.Success? <==> forall k :: 0 <= k < |ps| ==> Accepted(memory.size, ps[k].offset, ps[k].count)
    ensures r.Success? ==> RanOn(f, old(memory.columns), memory.columns, memory.size, Stretch(offset, population))
    ensures r.Success? ==> board.data.v == old(board.data.v) + Messages(f, old(memory.columns), offset, population)
  {
    hide Tile, Accepted, Messages, RanOn, Stretch, Workers, OnTheWay, Flatten;
    RectangularNow(memory);
    var its := HireWorkers(memory, board, ps, offset, population);
    if its.Failure? {
      return Failure(its.error);
    }
    HiredAll(memory, its.value, board.writers, ps);
    assert forall b :: b in Buffers(board.writers) ==> fresh(b);
    RunHired(memory, board, its.value, ps, f, offset, population);
    return Success(());
  }

  lemma RectangularNow<V>(memory: AgentMemory<V>)
    requires memory.Valid()
    ensures Rectangular(memory.columns, memory.size)
  {
  }

  lemma HiredAll<V, M>(memory: AgentMemory<V>, its: seq<MemoryIterator<V>>, ws: seq<BoardWriter<M>>, ps: seq<Piece>)
    requires Workers(memory, its, ws, ps)
    ensures |its| == |ws| == |ps|
  {
  }

  /** The whole of it: the task is split, the pieces run in any order of turns, the board is
      synchronised; memory and board are as if the task had run as a whole. */
  method SplitAndRun<V, M>(memory: AgentMemory<V>, board: MessageBoard<M>, f: AgentFunction<V, M>, maxTasks: Size, minTaskSize: Size)
    returns (r: Outcome<()>)
    requires memory.Valid() && board.Valid() && board.writers == [] && minTaskSize >= 1
    modifies memory, board`writers, board.data
    ensures !Misled(memory.size, maxTasks, minTaskSize) ==> r.Success?
    ensures r.Success? ==> RanOn(f, old(memory.columns), memory.columns, memory.size, Stretch(0, memory.size))
    ensures r.Success? ==> board.data.v == old(board.data.v) + Messages(f, old(memory.columns), 0, memory.size)
    ensures r.Success? ==> EachRan(f, old(memory.columns), memory.columns, memory.size, 0, memory.size)
    ensures r.Success? ==> old(board.data.v) <= board.data.v
                           && EachPosted(f, old(memory.columns), 0, memory.size, board.data.v[|old(board.data.v)|..])
  {
    ghost var was, posted := memory.columns, board.data.v;
    RectangularNow(memory);
    r := SplitAndRunPieces(memory, board, f, maxTasks, minTaskSize);
    hide *;
    if r.Success? {
      WhatRan(f, was, memory.columns, memory.size, 0, memory.size, posted, board.data.v);
    }
  }

  method SplitAndRunPieces<V, M>(memory: AgentMemory<V>, board: MessageBoard<M>, f: AgentFunction<V, M>, maxTasks: Size, minTaskSize: Size)
    returns (r: Outcome<()>)
    requires memory.Valid() && board.Valid() && board.writers == [] && minTaskSize >= 1
    modifies memory, board`writers, board.data
    ensures !Misled(memory.size, maxTasks, minTaskSize) ==> r.Success?
    ensures r.Success? ==> RanOn(f, old(memory.columns), memory.columns, memory.size, Stretch(0, memory.size))
    ensures r.Success? ==> board.data.v == old(board.data.v) + Messages(f, old(memory.columns), 0, memory.size)
  {
    hide Tile, Accepted, Messages, RanOn, Stretch, Misled, Proper;
    RectangularNow(memory);
    var task := new AgentTask(memory.size);
    assert task.Offset() == 0 && task.Population() == memory.size;
    var split := task.SplitTask(maxTasks, minTaskSize);
    match split
    case DivisionByZero =>
      ImproperIsMisled(split, 0, memory.size, maxTasks, minTaskSize);
      return Failure(DivideByZero);
    case NoSplit =>
      RunWhole(memory, board, f);
      return Success(());
    case Pieces(ps) =>
      SplitAccepted(ps, memory.size, maxTasks, minTaskSize);
      r := RunPieces(memory, board, ps, f, 0, memory.size);
  }

  lemma ImproperIsMisled(split: Splitting, offset: nat, population: nat, maxTasks: nat, minTaskSize: nat)
    requires split.DivisionByZero?
    requires Proper(split, offset, population, maxTasks, minTaskSize) <==> !Misled(population, maxTasks, minTaskSize)
    ensures Misled(population, maxTasks, minTaskSize)
  {
    hide Misled;
  }

  lemma SplitAccepted(ps: seq<Piece>, size: nat, maxTasks: nat, minTaskSize: nat)
    requires size < SIZE_RANGE && minTaskSize >= 1
    requires Proper(Pieces(ps), 0, size, maxTasks, minTaskSize) <==> !Misled(size, maxTasks, minTaskSize)
    ensures !Misled(size, maxTasks, minTaskSize) ==> forall k :: 0 <= k < |ps| ==> Accepted(size, ps[k].offset, ps[k].count)
  {
    hide Misled, Accepted, Proper;
    if !Misled(size, maxTasks, minTaskSize) {
      forall k | 0 <= k < |ps| ensures Accepted(size, ps[k].offset, ps[k].count) {
        PiecesAccepted(ps, 0, size, maxTasks, minTaskSize, size, k);
      }
    }
  }

  // The task as a whole, by one worker.
  method RunWhole<V, M>(memory: AgentMemory<V>, board: MessageBoard<M>, f: AgentFunction<V, M>)
    requires memory.Valid() && board.Valid() && board.writers == []
    modifies memory, board`writers, board.data
    ensures RanOn(f, old(memory.columns), memory.columns, memory.size, Stretch(0, memory.size))
    ensures board.data.v == old(board.data.v) + Messages(f, old(memory.columns), 0, memory.size)
  {
    hide *;
    var w := board.GetBoardWriter();
    RunThrough(memory, w, f);
    assert board.writers == [w];
    SyncOne(board, w);
  }

  method SyncOne<M>(board: MessageBoard<M>, w: BoardWriter<M>)
    requires board.Valid() && board.writers == [w]
    modifies board`writers, board.data, w, w.data
    ensures board.data.v == old(board.data.v) + old(w.data.v)
  {
    hide *;
    OneWriter(w);
    assert Buffered([w]) == [w.data.v];
    FlattenInOrder([], w.data.v, []);
    assert [] + [w.data.v] + [] == [w.data.v];
    board.Sync();
  }

  // Runs the function on all agents.
  method RunThrough<V, M>(memory: AgentMemory<V>, w: BoardWriter<M>, f: AgentFunction<V, M>)
    requires memory.Valid()
    modifies memory, w.data
    ensures RanOn(f, old(memory.columns), memory.columns, memory.size, Stretch(0, memory.size))
    ensures w.data.v == old(w.data.v) + Messages(f, old(memory.columns), 0, memory.size)
  {
    hide *;
    var it := new MemoryIterator(memory);
    Run(it, f, w);
  }

  lemma OneWriter<M>(w: BoardWriter<M>)
    ensures Buffers([w]) == {w.data}
  {
    assert w in [w];
  }
}
