/** Agent memory in columns, and the iterator that walks a stretch of its rows. */
module MemoryIterators {
  import opened TaskManagers
  import opened AgentTasks

  // A pointer into a column: nowhere, or at an element.
  datatype Pointer = Null | At(index: nat)

  // The pointer to the element at offset of a vector of n elements.
  function GetRawPtr(n: nat, offset: nat): Outcome<Pointer> {
    if offset == 0 then Success(if n == 0 then Null else At(0))
    else if offset >= n then Failure(InvalidArgument)
    else Success(At(offset))
  }

  // The pointer to the next element, if there is one.
  function StepRawPtr(n: nat, p: Pointer): Pointer {
    if p.Null? || p.index + 1 == n then Null else At(p.index + 1)
  }

  type Columns<V> = map<string, seq<V>>

  predicate Rectangular<V>(columns: Columns<V>, size: nat) {
    forall x :: x in columns ==> |columns[x]| == size
  }

  class AgentMemory<V> {
    var columns: Columns<V>
    const size: Size

    ghost predicate Valid()
      reads this
    {
      Rectangular(columns, size)
    }

    constructor (columns: Columns<V>, size: Size)
      requires Rectangular(columns, size)
      ensures Valid() && this.columns == columns && this.size == size
    {
      this.columns, this.size := columns, size;
    }
  }

  // Row k of the population, or past its end.
  function PointerTo(k: nat, size: nat): Pointer {
    if k < size then At(k) else Null
  }

  // The range check, with the sum of offset and count wrapping around.
  predicate Accepted(size: nat, offset: nat, count: nat) {
    offset < size && count != 0 && (offset + count) % SIZE_RANGE <= size
  }

  class MemoryIterator<V> {
    const memory: AgentMemory<V>
    const size: Size
    const offset: Size
    const count: Size
    var position: nat
    var ptrMap: map<string, Pointer>

    ghost predicate Valid()
      reads this, memory
    {
      && memory.Valid() && size == memory.size && position <= count && (offset < size || offset == 0)
      && ptrMap.Keys == memory.columns.Keys
      && forall x :: x in ptrMap ==> ptrMap[x] == PointerTo(offset + position, size)
    }

    // Over the whole population.
    constructor (memory: AgentMemory<V>)
      requires memory.Valid()
      ensures Valid() && this.memory == memory && offset == 0 && count == memory.size && position == 0
    {
      this.memory, size, offset, count, position := memory, memory.size, 0, memory.size, 0;
      ptrMap := map x | x in memory.columns :: PointerTo(0, memory.size);
    }

    // Over count rows from offset on, which GetMemoryIterator has checked.
    constructor Over(memory: AgentMemory<V>, offset: Size, count: Size)
      requires memory.Valid() && Accepted(memory.size, offset, count)
      ensures Valid() && this.memory == memory && this.offset == offset && this.count == count && position == 0
    {
      this.memory, size, this.offset, this.count, position := memory, memory.size, offset, count, 0;
      new;
      ResetPointers();
    }

    // Fails on a stretch that does not lie within the population; unless offset
    // and count are so large that their sum wraps around.
    static method GetMemoryIterator(memory: AgentMemory<V>, offset: Size, count: Size) returns (r: Outcome<MemoryIterator<V>>)
      requires memory.Valid()
      ensures r.Success? <==> Accepted(memory.size, offset, count)
      ensures r.Failure? ==> r.error == InvalidArgument
      ensures r.Success? ==> fresh(r.value) && r.value.Valid() && r.value.memory == memory
                             && r.value.offset == offset && r.value.count == count && r.value.position == 0
    {
      if offset >= memory.size {
        return Failure(InvalidArgument);
      }
      if count == 0 || (offset + count) % SIZE_RANGE > memory.size {
        return Failure(InvalidArgument);
      }
      var it := new MemoryIterator<V>.Over(memory, offset, count);
      return Success(it);
    }

    // Points every column at row offset.
    method ResetPointers()
      requires memory.Valid() && size == memory.size && (offset < size || offset == 0)
      modifies `ptrMap
      ensures ptrMap.Keys == memory.columns.Keys
      ensures forall x :: x in ptrMap ==> ptrMap[x] == PointerTo(offset, size)
    {
      ptrMap := map[];
      var todo := memory.columns.Keys;
      while todo != {}
        invariant todo <= memory.columns.Keys && ptrMap.Keys == memory.columns.Keys - todo
        invariant forall x :: x in ptrMap ==> ptrMap[x] == PointerTo(offset, size)
        decreases todo
      {
        var x :| x in todo;
        ptrMap := ptrMap[x := GetRawPtr(|memory.columns[x]|, offset).value];
        todo := todo - {x};
      }
    }

    // Back to the first row of the stretch.
    method Rewind()
      requires Valid()
      modifies `ptrMap, `position
      ensures Valid() && position == 0
    {
      ResetPointers();
      position := 0;
    }

    predicate AtEnd()
      reads this
    {
      position == count
    }

    // One row on, in every column.
    method Step() returns (r: bool)
      requires Valid()
      modifies `ptrMap, `position
      ensures Valid() && r == !old(AtEnd())
      ensures position == if r then old(position) + 1 else old(position)
    {
      if AtEnd() {
        return false;
      }
      StepPointers();
      position := position + 1;
      return true;
    }

    method StepPointers()
      requires Valid()
      modifies `ptrMap
      ensures ptrMap.Keys == memory.columns.Keys
      ensures forall x :: x in ptrMap ==> ptrMap[x] == PointerTo(offset + position + 1, size)
    {
      var todo, k := ptrMap.Keys, offset + position;
      while todo != {}
        invariant todo <= ptrMap.Keys && ptrMap.Keys == memory.columns.Keys
        invariant forall x :: x in todo ==> ptrMap[x] == PointerTo(k, size)
        invariant forall x :: x in ptrMap && x !in todo ==> ptrMap[x] == PointerTo(k + 1, size)
        decreases todo
      {
        var x :| x in todo;
        ptrMap := ptrMap[x := StepRawPtr(|memory.columns[x]|, ptrMap[x])];
        todo := todo - {x};
      }
    }
  }

  // The check lets through exactly the stretches within the population, and the
  // ones whose sum wraps around.
  lemma AcceptedExactly(size: nat, offset: nat, count: nat)
    requires size < SIZE_RANGE && offset < SIZE_RANGE && count < SIZE_RANGE
    ensures Accepted(size, offset, count) <==>
            && offset < size && count >= 1
            && (offset + count <= size || offset + count >= SIZE_RANGE)
  {
  }

  // Every piece of a proper split passes the check, and does not wrap.
  lemma PiecesAccepted(ps: seq<Piece>, offset: nat, population: nat, maxTasks: nat, minTaskSize: nat, size: nat, k: nat)
    requires Proper(Pieces(ps), offset, population, maxTasks, minTaskSize) && minTaskSize >= 1
    requires offset + population <= size < SIZE_RANGE && k < |ps|
    ensures Accepted(size, ps[k].offset, ps[k].count) && ps[k].offset + ps[k].count <= size
  {
    PieceInRange(ps, offset, population, k);
  }
}
