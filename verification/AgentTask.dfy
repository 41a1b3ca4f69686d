/** Splitting an agent task into pieces of its population. */
module AgentTasks {

  // Sizes are 64 bits wide; products wrap around.
  const SIZE_RANGE: nat := 0x1_0000_0000_0000_0000

  type Size = n: nat | n < SIZE_RANGE

  function Times(a: nat, b: nat): nat {
    (a * b) % SIZE_RANGE
  }

  // A stretch of the population: its first agent and how many there are.
  datatype Piece = Piece(offset: nat, count: nat)

  datatype Splitting = NoSplit | Pieces(pieces: seq<Piece>) | DivisionByZero

  // The pieces lie end to end and together make up the stretch.
  ghost predicate Tile(ps: seq<Piece>, offset: nat, population: nat) {
    && |ps| >= 1 && ps[0].offset == offset
    && (forall i :: 0 <= i < |ps| - 1 ==> ps[i + 1].offset == ps[i].offset + ps[i].count)
    && ps[|ps| - 1].offset + ps[|ps| - 1].count == offset + population
  }

  // Sizes differ by one at most.
  ghost predicate Even(ps: seq<Piece>) {
    forall i, j :: 0 <= i < |ps| && 0 <= j < |ps| ==> ps[i].count <= ps[j].count + 1
  }

  // What does not divide evenly goes to the first pieces.
  ghost predicate LargerFirst(ps: seq<Piece>) {
    forall i, j :: 0 <= i < j < |ps| ==> ps[i].count >= ps[j].count
  }

  // What a split is for: split if the population allows for two pieces of the
  // minimum size, into as many pieces of at least that size as there are and maxTasks allows.
  ghost predicate Proper(r: Splitting, offset: nat, population: nat, maxTasks: nat, minTaskSize: nat) {
    match r
    case NoSplit => maxTasks < 2 || population < 2 * minTaskSize
    case Pieces(ps) =>
      && maxTasks >= 2 && population >= 2 * minTaskSize
      && 2 <= |ps| <= maxTasks && Tile(ps, offset, population) && Even(ps) && LargerFirst(ps)
      && (|ps| < maxTasks ==> population < (|ps| + 1) * minTaskSize)
      && forall i :: 0 <= i < |ps| ==> ps[i].count >= minTaskSize
    case DivisionByZero => false
  }

  // One of the two products that are compared has wrapped around, and fallen so
  // low that the population reaches it.
  predicate Misled(population: nat, maxTasks: nat, minTaskSize: nat) {
    && maxTasks >= 2 && population >= Times(minTaskSize, 2)
    && (minTaskSize * 2 >= SIZE_RANGE
        || (minTaskSize * maxTasks >= SIZE_RANGE && population >= Times(minTaskSize, maxTasks)))
  }

  class AgentTask {
    const isSplit: bool
    const offset: Size
    const count: Size
    const size: Size   // of the agent's whole population

    // A piece lies within the population.
    ghost predicate Valid() {
      isSplit ==> offset + count <= size
    }

    constructor (size: Size)
      ensures Valid() && !isSplit && this.size == size
    {
      isSplit, offset, count, this.size := false, 0, 0, size;
    }

    constructor Part(parent: AgentTask, offset: Size, count: Size)
      requires offset + count <= parent.size
      ensures Valid() && isSplit && this.offset == offset && this.count == count && size == parent.size
    {
      isSplit, this.offset, this.count, size := true, offset, count, parent.size;
    }

    function Offset(): nat { if isSplit then offset else 0 }
    function Population(): nat { if isSplit then count else size }

    // The split is what it should be exactly if no product misled it.
    method SplitTask(maxTasks: Size, minTaskSize: Size) returns (r: Splitting)
      requires Valid()
      ensures Proper(r, Offset(), Population(), maxTasks, minTaskSize) <==>
              !Misled(Population(), maxTasks, minTaskSize)
      ensures r.DivisionByZero? <==>
              Misled(Population(), maxTasks, minTaskSize)
              && Population() < Times(minTaskSize, maxTasks) && Population() < minTaskSize
      ensures r.Pieces? ==> |r.pieces| <= maxTasks && Tile(r.pieces, Offset(), Population()) && Even(r.pieces) && LargerFirst(r.pieces)
    {
      hide Proper, Misled, Tile, Even, LargerFirst, Times;
      if maxTasks < 2 {
        NoneAllowed(Offset(), Population(), maxTasks, minTaskSize);
        return NoSplit;
      }
      var offset, population := Offset(), Population();
      if population < Times(minTaskSize, 2) {
        TooSmall(offset, population, maxTasks, minTaskSize);
        return NoSplit;
      }
      var numSplits := maxTasks;
      NothingTimes(maxTasks);
      if population < Times(minTaskSize, maxTasks) {
        numSplits := population / minTaskSize;
      }
      if numSplits == 0 {
        NoPieces(offset, population, maxTasks, minTaskSize);
        return DivisionByZero;
      }
      SplitsFit(population, maxTasks, minTaskSize, numSplits);
      if minTaskSize >= 1 { QuotientAtLeastOne(population, minTaskSize); }
      var vec := CutUp(offset, population, numSplits);
      ProperIfNotMisled(vec, Offset(), population, maxTasks, minTaskSize);
      return Pieces(vec);
    }

    // The remainder goes to the first pieces, one agent each.
    method CutUp(start: nat, population: nat, numSplits: nat) returns (vec: seq<Piece>)
      requires numSplits >= 1
      ensures |vec| == numSplits && Tile(vec, start, population) && Even(vec) && LargerFirst(vec)
      ensures forall i :: 0 <= i < |vec| ==> vec[i].count >= population / numSplits
      ensures vec[numSplits - 1].count == population / numSplits
    {
      hide CutSoFar;
      CutWhole(population, numSplits);
      var sizePerTask, remainder := population / numSplits, population % numSplits;
      var offset, i := start, 0;
      vec := [];
      while i < numSplits
        invariant 0 <= i <= numSplits && |vec| == i
        invariant offset == start + CutSoFar(i, sizePerTask, remainder)
        invariant i > 0 ==> Tile(vec, start, offset - start)
        invariant forall j :: 0 <= j < i ==> vec[j].count == sizePerTask + (if j < remainder then 1 else 0)
      {
        var s := (if i < remainder then 1 else 0) + sizePerTask;
        CutNext(i, sizePerTask, remainder);
        vec := vec + [Piece(offset, s)];
        offset := offset + s;
        i := i + 1;
      }
    }
  }

  function CutSoFar(i: nat, sizePerTask: nat, remainder: nat): nat {
    i * sizePerTask + (if i < remainder then i else remainder)
  }

  lemma CutWhole(population: nat, n: nat)
    requires n >= 1
    ensures CutSoFar(0, population / n, population % n) == 0
    ensures CutSoFar(n, population / n, population % n) == population
  {
  }

  lemma CutNext(i: nat, sizePerTask: nat, remainder: nat)
    ensures CutSoFar(i + 1, sizePerTask, remainder) ==
            CutSoFar(i, sizePerTask, remainder) + sizePerTask + (if i < remainder then 1 else 0)
  {
  }

  lemma NothingTimes(n: nat)
    ensures Times(0, n) == 0
  {
  }

  lemma NoneAllowed(offset: nat, population: nat, maxTasks: nat, minTaskSize: nat)
    requires maxTasks < 2
    ensures Proper(NoSplit, offset, population, maxTasks, minTaskSize) && !Misled(population, maxTasks, minTaskSize)
  {
  }

  lemma TooSmall(offset: nat, population: nat, maxTasks: nat, minTaskSize: nat)
    requires population < SIZE_RANGE && population < Times(minTaskSize, 2)
    ensures Proper(NoSplit, offset, population, maxTasks, minTaskSize) && !Misled(population, maxTasks, minTaskSize)
  {
    assert (minTaskSize * 2) % SIZE_RANGE <= minTaskSize * 2;
  }

  lemma NoPieces(offset: nat, population: nat, maxTasks: nat, minTaskSize: nat)
    requires population < SIZE_RANGE && maxTasks >= 2 && minTaskSize >= 1
    requires population >= Times(minTaskSize, 2) && population / minTaskSize == 0
    ensures population < minTaskSize && Misled(population, maxTasks, minTaskSize)
    ensures !Proper(DivisionByZero, offset, population, maxTasks, minTaskSize)
  {
    QuotientAtLeastOne(population, minTaskSize);
    if minTaskSize * 2 < SIZE_RANGE { TimesExact(minTaskSize, 2); }
  }

  lemma TimesExact(a: nat, b: nat)
    requires a * b < SIZE_RANGE
    ensures Times(a, b) == a * b
  {
  }

  lemma QuotientAtLeastOne(a: nat, b: nat)
    requires b >= 1
    ensures a / b == 0 <==> a < b
  {
    if a >= b { QuotientAtLeast(a, b, 1); }
    if a < b { QuotientBelow(a, b, 1); }
  }

  // How many pieces there are room for.
  lemma SplitsFit(population: nat, maxTasks: nat, minTaskSize: nat, n: nat)
    requires population < SIZE_RANGE && maxTasks >= 2 && n >= 1
    requires if population >= Times(minTaskSize, maxTasks) then n == maxTasks
             else minTaskSize >= 1 && n == population / minTaskSize
    ensures n <= maxTasks
    ensures minTaskSize >= 1 && n == population / minTaskSize ==> population / n >= minTaskSize
    ensures n == maxTasks && population >= minTaskSize * maxTasks ==> population / n >= minTaskSize
    ensures n == maxTasks && population < minTaskSize * maxTasks ==> population / n < minTaskSize
  {
    if population < Times(minTaskSize, maxTasks) {
      assert population < minTaskSize * maxTasks;
      QuotientBelow(population, minTaskSize, maxTasks);
    }
    if minTaskSize >= 1 && n == population / minTaskSize {
      assert n * minTaskSize <= population;
      QuotientAtLeast(population, n, minTaskSize);
    }
    if n == maxTasks && population >= minTaskSize * maxTasks {
      QuotientAtLeast(population, n, minTaskSize);
    }
    if n == maxTasks && population < minTaskSize * maxTasks {
      QuotientBelow(population, maxTasks, minTaskSize);
    }
  }

  lemma NoMoreFit(population: nat, minTaskSize: nat)
    requires minTaskSize >= 1
    ensures population < (population / minTaskSize + 1) * minTaskSize
  {
    assert population == minTaskSize * (population / minTaskSize) + population % minTaskSize;
  }

  lemma Monotone(b: nat, x: nat, y: nat)
    requires x <= y
    ensures b * x <= b * y
  {
  }

  lemma QuotientAtLeast(a: nat, b: nat, c: nat)
    requires b >= 1 && b * c <= a
    ensures a / b >= c
  {
    var q := a / b;
    assert a == b * q + a % b;
    if c > q {
      Monotone(b, q + 1, c);
    }
  }

  lemma QuotientBelow(a: nat, b: nat, c: nat)
    requires b >= 1 && a < b * c
    ensures a / b < c
  {
    var q := a / b;
    assert a == b * q + a % b;
    if c <= q {
      Monotone(b, c, q);
    }
  }

  lemma ProperIfNotMisled(vec: seq<Piece>, offset: nat, population: nat, maxTasks: nat, minTaskSize: nat)
    requires population < SIZE_RANGE && maxTasks >= 2 && population >= Times(minTaskSize, 2)
    requires 1 <= |vec| <= maxTasks && Tile(vec, offset, population) && Even(vec) && LargerFirst(vec)
    requires vec[|vec| - 1].count == population / |vec|
    requires forall i :: 0 <= i < |vec| ==> vec[i].count >= population / |vec|
    requires if population >= Times(minTaskSize, maxTasks) then |vec| == maxTasks
             else minTaskSize >= 1 && |vec| == population / minTaskSize
    ensures Proper(Pieces(vec), offset, population, maxTasks, minTaskSize) <==> !Misled(population, maxTasks, minTaskSize)
  {
    var n := |vec|;
    hide Tile, Even, LargerFirst;
    SplitsFit(population, maxTasks, minTaskSize, n);
    if minTaskSize >= 1 { NoMoreFit(population, minTaskSize); }
    if minTaskSize * 2 >= SIZE_RANGE {
      assert population < 2 * minTaskSize;
    } else {
      TimesExact(minTaskSize, 2);
      if minTaskSize * maxTasks < SIZE_RANGE {
        TimesExact(minTaskSize, maxTasks);
      } else if population >= Times(minTaskSize, maxTasks) {
        assert population < minTaskSize * maxTasks;
        assert vec[n - 1].count < minTaskSize;
      }
      if minTaskSize >= 1 && n == population / minTaskSize {
        QuotientAtLeast(population, minTaskSize, 2);
      }
    }
  }

  // Sizes for which a product wraps: sixteen agents are cut into four although
  // no piece may be that small, or divided by nothing at all.  Half the range does not wrap.
  lemma WrappedProductsMislead()
    ensures Misled(16, 4, 0x8000_0000_0000_0000) && Times(0x8000_0000_0000_0000, 4) == 0
    ensures Misled(16, 4, 0x8000_0000_0000_0005) && 16 < Times(0x8000_0000_0000_0005, 4)
    ensures !Misled(0x7FFF_FFFF_FFFF_FFFE, 2, 0x7FFF_FFFF_FFFF_FFFF)
  {
    assert Times(0x8000_0000_0000_0005, 2) == 10;
    assert Times(0x8000_0000_0000_0005, 4) == 20;
  }

  // Pieces of a proper split are ranges that can be iterated, and can be split again.
  lemma PieceInRange(ps: seq<Piece>, offset: nat, population: nat, k: nat)
    requires Tile(ps, offset, population) && k < |ps|
    ensures offset <= ps[k].offset && ps[k].offset + ps[k].count <= offset + population
  {
    var i := k;
    while i > 0
      invariant 0 <= i <= k && ps[i].offset <= ps[k].offset
    {
      i := i - 1;
    }
    i := k;
    while i < |ps| - 1
      invariant k <= i < |ps| && ps[k].offset + ps[k].count <= ps[i].offset + ps[i].count
    {
      i := i + 1;
    }
  }

  // Two pieces share no agent, and every agent of the stretch is in a piece.
  lemma PiecesDisjoint(ps: seq<Piece>, offset: nat, population: nat, j: nat, k: nat)
    requires Tile(ps, offset, population) && j < k < |ps|
    ensures ps[j].offset + ps[j].count <= ps[k].offset
  {
    var i := j + 1;
    while i < k
      invariant j < i <= k && ps[j].offset + ps[j].count <= ps[i].offset
    {
      i := i + 1;
    }
  }

  lemma {:induction false} InSomePiece(ps: seq<Piece>, offset: nat, population: nat, a: nat) returns (k: nat)
    requires Tile(ps, offset, population) && offset <= a < offset + population
    ensures k < |ps| && ps[k].offset <= a < ps[k].offset + ps[k].count
  {
    k := 0;
    while a >= ps[k].offset + ps[k].count
      invariant 0 <= k < |ps| && ps[k].offset <= a
      decreases |ps| - k
    {
      k := k + 1;
    }
  }
}
