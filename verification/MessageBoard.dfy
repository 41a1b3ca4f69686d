/** Message boards: posts are buffered by writers and reach the board when it is
    synchronised. */
module MessageBoards {
  import opened TaskManagers

  // ------------------------------------------------------------------ buffers

  // A vector that knows the type of its elements by a tag.
  class VectorWrapper<T> {
    const dataType: nat
    var v: seq<T>

    constructor (dataType: nat)
      ensures this.dataType == dataType && v == []
    {
      this.dataType := dataType;
      v := [];
    }

    method Extend(vec: VectorWrapper<T>) returns (r: Outcome<()>)
      requires vec != this
      modifies `v
      ensures r == if dataType == vec.dataType then Success(()) else Failure(InvalidArgument)
      ensures v == if r.Success? then old(v) + vec.v else old(v)
    {
      if dataType != vec.dataType {
        return Failure(InvalidArgument);
      }
      v := v + vec.v;
      return Success(());
    }

    method PushBack(value: T)
      modifies `v
      ensures v == old(v) + [value]
    {
      v := v + [value];
    }

    method Clear()
      modifies `v
      ensures v == []
    {
      v := [];
    }
  }

  class BoardWriter<M> {
    const data: VectorWrapper<M>
    var connected: bool

    constructor (dataType: nat)
      ensures fresh(data) && data.dataType == dataType && data.v == [] && connected
    {
      data := new VectorWrapper(dataType);
      connected := true;
    }

    // The type is checked where run-time type checks are compiled in, the
    // connection in debug builds only.
    method Post(msg: M, dataType: nat, typeChecks: bool, debug: bool) returns (r: Outcome<()>)
      modifies data`v
      ensures r.Failure? <==> (typeChecks && dataType != data.dataType) || (debug && !connected)
      ensures data.v == if r.Success? then old(data.v) + [msg] else old(data.v)
    {
      if typeChecks && dataType != data.dataType {
        return Failure(InvalidArgument);
      }
      if debug && !connected {
        return Failure(LogicError);
      }
      data.PushBack(msg);
      return Success(());
    }

    method Disconnect()
      modifies `connected
      ensures !connected
    {
      connected := false;
    }
  }

  // ------------------------------------------------------------------- boards

  function Flatten<M>(parts: seq<seq<M>>): seq<M> {
    if parts == [] then [] else Flatten(parts[..|parts| - 1]) + parts[|parts| - 1]
  }

  function Buffered<M>(ws: seq<BoardWriter<M>>): (r: seq<seq<M>>)
    reads set w | w in ws :: w.data
    ensures |r| == |ws| && forall i :: 0 <= i < |ws| ==> r[i] == ws[i].data.v
  {
    seq(|ws|, i requires 0 <= i < |ws| reads set w | w in ws :: w.data => ws[i].data.v)
  }

  function BuffersOf<M>(ws: seq<BoardWriter<M>>): (r: seq<VectorWrapper<M>>)
    ensures |r| == |ws| && forall i :: 0 <= i < |ws| ==> r[i] == ws[i].data
  {
    seq(|ws|, i requires 0 <= i < |ws| => ws[i].data)
  }

  function Buffers<M>(ws: seq<BoardWriter<M>>): set<VectorWrapper<M>> {
    set w | w in ws :: w.data
  }

  class MessageBoard<M> {
    const data: VectorWrapper<M>
    var writers: seq<BoardWriter<M>>

    // Every writer has a buffer of its own, of the board's type; writers held
    // by the board are connected.
    ghost predicate Valid()
      reads this, writers
    {
      && (forall w :: w in writers ==> w.connected && w.data != data && w.data.dataType == data.dataType)
      && (forall i, j :: 0 <= i < j < |writers| ==> writers[i] != writers[j] && writers[i].data != writers[j].data)
    }

    constructor (dataType: nat)
      ensures Valid() && fresh(data) && data.v == [] && writers == [] && data.dataType == dataType
    {
      data := new VectorWrapper(dataType);
      writers := [];
    }

    method GetBoardWriter() returns (w: BoardWriter<M>)
      requires Valid()
      modifies `writers
      ensures Valid() && fresh(w) && fresh(w.data) && w.connected && w.data.v == []
      ensures writers == old(writers) + [w]
    {
      w := new BoardWriter(data.dataType);
      writers := writers + [w];
    }

    // Everything buffered goes to the board, writer by writer; the writers are
    // cut off, with nothing left in them.
    method Sync()
      requires Valid()
      modifies `writers, writers, data, Buffers(writers)
      ensures Valid() && writers == []
      ensures data.v == old(data.v) + Flatten(old(Buffered(writers)))
      ensures forall w :: w in old(writers) ==> !w.connected && w.data.v == []
    {
      hide Flatten, Buffered;
      DisconnectAll();
      CollectAll();
      writers := [];
    }

    ghost predicate Separate()
      reads this, writers
    {
      && (forall w :: w in writers ==> w.data != data && w.data.dataType == data.dataType)
      && (forall i, j :: 0 <= i < j < |writers| ==> writers[i].data != writers[j].data)
    }

    method CollectAll()
      requires Separate()
      modifies data, Buffers(writers)
      ensures data.v == old(data.v) + Flatten(old(Buffered(writers)))
      ensures forall w :: w in writers ==> w.data.v == []
    {
      hide Flatten, Buffered, BuffersOf;
      ghost var parts, bufs := Buffered(writers), BuffersOf(writers);
      assert forall b :: b in bufs ==> b in Buffers(writers) && b != data;
      var i := 0;
      NothingFlattened(parts);
      while i < |writers|
        invariant 0 <= i <= |writers|
        invariant data.v == old(data.v) + Flatten(parts[..i])
        invariant forall k :: i <= k < |bufs| ==> bufs[k].v == parts[k]
        invariant forall k :: 0 <= k < i ==> bufs[k].v == []
      {
        FlattenStep(parts, i);
        assert bufs[i] == writers[i].data;
        TakeOver(writers[i]);
        i := i + 1;
      }
      assert parts[..i] == parts;
    }

    method TakeOver(w: BoardWriter<M>)
      requires w.data != data && w.data.dataType == data.dataType
      modifies data, w.data
      ensures data.v == old(data.v) + old(w.data.v) && w.data.v == []
    {
      var r := data.Extend(w.data);
      w.data.Clear();
    }

    method DisconnectAll()
      modifies writers
      ensures forall w :: w in writers ==> !w.connected
    {
      var i := 0;
      while i < |writers|
        invariant 0 <= i <= |writers|
        invariant forall k :: 0 <= k < i ==> !writers[k].connected
      {
        writers[i].Disconnect();
        i := i + 1;
      }
    }

    // The board is emptied; what was only buffered never gets there.
    method Clear()
      requires Valid()
      modifies `writers, writers, data
      ensures Valid() && writers == [] && data.v == []
      ensures forall w :: w in old(writers) ==> !w.connected
    {
      DisconnectAll();
      writers := [];
      data.Clear();
    }
  }

  lemma NothingFlattened<M>(parts: seq<seq<M>>)
    ensures Flatten(parts[..0]) == []
  {
    assert parts[..0] == [];
  }

  lemma FlattenStep<M>(parts: seq<seq<M>>, i: nat)
    requires i < |parts|
    ensures Flatten(parts[..i + 1]) == Flatten(parts[..i]) + parts[i]
  {
    assert parts[..i + 1][..i] == parts[..i];
  }

  // -------------------------------------------------- the order of the writers

  lemma {:induction false} FlattenJoined<M>(a: seq<seq<M>>, b: seq<seq<M>>)
    ensures Flatten(a + b) == Flatten(a) + Flatten(b)
  {
    if b == [] {
      assert a + b == a;
    } else {
      var init, last := b[..|b| - 1], b[|b| - 1];
      assert b == init + [last] && a + b == (a + init) + [last];
      hide *;
      FlattenJoined(a, init);
      FlattenMore(a + init, last);
      FlattenMore(init, last);
    }
  }

  lemma FlattenMore<M>(a: seq<seq<M>>, x: seq<M>)
    ensures Flatten(a + [x]) == Flatten(a) + x
  {
    assert (a + [x])[..|a|] == a;
  }

  // In whatever order the writers were issued, the same messages arrive.
  lemma {:induction false} WriterOrderIrrelevant<M>(a: seq<seq<M>>, b: seq<seq<M>>)
    requires multiset(a) == multiset(b)
    ensures multiset(Flatten(a)) == multiset(Flatten(b))
    decreases |a|
  {
    hide *;
    if a == [] {
      assert |b| == |multiset(b)| == 0;
    } else {
      var x, n := a[|a| - 1], |a| - 1;
      assert a == a[..n] + [x];
      assert x in multiset(b);
      var k :| 0 <= k < |b| && b[k] == x;
      var rest := b[..k] + b[k + 1..];
      assert b == b[..k] + [x] + b[k + 1..];
      assert multiset(rest) == multiset(b) - multiset{x} == multiset(a[..n]);
      WriterOrderIrrelevant(a[..n], rest);
      FlattenMore(a[..n], x);
      FlattenWithout(b[..k], x, b[k + 1..]);
    }
  }

  // What each writer has buffered stands together, in the order of the writers.
  lemma FlattenInOrder<M>(a: seq<seq<M>>, x: seq<M>, b: seq<seq<M>>)
    ensures Flatten(a + [x] + b) == Flatten(a) + x + Flatten(b) && Flatten<M>([]) == []
  {
    FlattenJoined(a + [x], b);
    FlattenMore(a, x);
  }

  lemma FlattenWithout<M>(a: seq<seq<M>>, x: seq<M>, b: seq<seq<M>>)
    ensures multiset(Flatten(a + [x] + b)) == multiset(Flatten(a + b) + x)
  {
    hide *;
    FlattenJoined(a, b);
    FlattenInOrder(a, x, b);
  }
}
