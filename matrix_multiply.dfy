/**
 * Square integer matrix multiplication `resultMatrix[i][j] += matrix1[i][k] * matrix2[k][j]`
 * parallelised three ways, as in openmp/openmp_partc_matrix.cpp: over the rows i, over the
 * columns j of each row in turn, and over the (i, j) pairs fused by collapse(2).
 *
 * A `std::vector<std::vector<int>>` is an `array2<int>` with at least `size` rows and
 * columns. None of the `parallel for` pragmas names a schedule, so the implementation's
 * default applies; it is modelled as schedule(static) with no chunk size, as GCC's libgomp
 * does. Each thread's block is run in turn, one of the interleavings the threads may
 * produce; since the threads write disjoint cells, every interleaving gives the same matrix.
 */
module MatrixMultiply {
  import opened Schedules

  /** The matrix has at least `size` rows and `size` columns. */
  predicate Fits(m: array2<int>, size: nat) {
    size <= m.Length0 && size <= m.Length1
  }

  /** Σ_{l < k} m1[i, l] * m2[l, j], summed in the kernel's order l = 0, 1, ..., k - 1. */
  function Dot(m1: array2<int>, m2: array2<int>, i: nat, j: nat, k: nat): int
    requires i < m1.Length0 && k <= m1.Length1 && k <= m2.Length0 && j < m2.Length1
    reads m1, m2
  {
    if k == 0 then 0 else Dot(m1, m2, i, j, k - 1) + m1[i, k - 1] * m2[k - 1, j]
  }

  /** What one multiplication adds to cell (a, b): the product's entry inside size x size, nothing outside. */
  function Product(m1: array2<int>, m2: array2<int>, size: nat, a: nat, b: nat): int
    requires Fits(m1, size) && Fits(m2, size)
    reads m1, m2
  {
    if a < size && b < size then Dot(m1, m2, a, b, size) else 0
  }

  // ---------------------------------------------------------------------------------------
  // What one thread runs

  /** The k loop for one cell: adds the cell's dot product to it and touches nothing else. */
  method AccumulateCell(m1: array2<int>, m2: array2<int>, r: array2<int>, size: nat, i: nat, j: nat)
    requires Fits(m1, size) && Fits(m2, size) && Fits(r, size) && r != m1 && r != m2
    requires i < size && j < size
    modifies r
    ensures r[i, j] == old(r[i, j]) + Dot(m1, m2, i, j, size)
    ensures forall a, b :: 0 <= a < r.Length0 && 0 <= b < r.Length1 && (a != i || b != j) ==>
      r[a, b] == old(r[a, b])
  {
    for k := 0 to size
      invariant r[i, j] == old(r[i, j]) + Dot(m1, m2, i, j, k)
      invariant forall a, b :: 0 <= a < r.Length0 && 0 <= b < r.Length1 && (a != i || b != j) ==>
        r[a, b] == old(r[a, b])
    {
      r[i, j] := r[i, j] + m1[i, k] * m2[k, j];
    }
  }

  /** The cells of row i in columns lo .. hi - 1. */
  function ColumnWrites(i: nat, lo: nat, hi: nat): set<(nat, nat)> {
    set b: nat | lo <= b < hi :: (i, b)
  }

  /** Columns lo .. hi - 1 of row i: a thread's block of the inner-parallel j loop, or a whole row. */
  method AccumulateColumns(m1: array2<int>, m2: array2<int>, r: array2<int>, size: nat, i: nat, lo: nat, hi: nat)
    requires Fits(m1, size) && Fits(m2, size) && Fits(r, size) && r != m1 && r != m2
    requires i < size && lo <= hi <= size
    modifies r
    ensures forall a, b :: 0 <= a < r.Length0 && 0 <= b < r.Length1 ==>
      r[a, b] == old(r[a, b]) + (if a == i && lo <= b < hi then Dot(m1, m2, a, b, size) else 0)
    ensures forall a, b :: 0 <= a < r.Length0 && 0 <= b < r.Length1 && (a, b) !in ColumnWrites(i, lo, hi) ==>
      r[a, b] == old(r[a, b])
  {
    for j := lo to hi
      invariant forall a, b :: 0 <= a < r.Length0 && 0 <= b < r.Length1 ==>
        r[a, b] == old(r[a, b]) + (if a == i && lo <= b < j then Dot(m1, m2, a, b, size) else 0)
    {
      AccumulateCell(m1, m2, r, size, i, j);
    }
  }

  /** The cells of rows lo .. hi - 1 inside the size x size product. */
  function RowWrites(size: nat, lo: nat, hi: nat): set<(nat, nat)> {
    set a: nat, b: nat | lo <= a < hi && b < size :: (a, b)
  }

  /** Rows lo .. hi - 1 in full: a thread's block of the outer-parallel i loop. */
  method AccumulateRows(m1: array2<int>, m2: array2<int>, r: array2<int>, size: nat, lo: nat, hi: nat)
    requires Fits(m1, size) && Fits(m2, size) && Fits(r, size) && r != m1 && r != m2
    requires lo <= hi <= size
    modifies r
    ensures forall a, b :: 0 <= a < r.Length0 && 0 <= b < r.Length1 ==>
      r[a, b] == old(r[a, b]) + (if lo <= a < hi && b < size then Dot(m1, m2, a, b, size) else 0)
    ensures forall a, b :: 0 <= a < r.Length0 && 0 <= b < r.Length1 && (a, b) !in RowWrites(size, lo, hi) ==>
      r[a, b] == old(r[a, b])
  {
    for i := lo to hi
      invariant forall a, b :: 0 <= a < r.Length0 && 0 <= b < r.Length1 ==>
        r[a, b] == old(r[a, b]) + (if lo <= a < i && b < size then Dot(m1, m2, a, b, size) else 0)
    {
      AccumulateColumns(m1, m2, r, size, i, 0, size);
    }
  }

  /** Position of cell (a, b) in the iteration space collapse(2) makes of the i and j loops. */
  function Flat(size: nat, a: nat, b: nat): nat {
    a * size + b
  }

  /** The cells of the size x size product whose flattened iteration lies in lo .. hi - 1. */
  function FlatWrites(size: nat, lo: nat, hi: nat): set<(nat, nat)> {
    set a: nat, b: nat | a < size && b < size && lo <= Flat(size, a, b) < hi :: (a, b)
  }

  /** Flattened iterations lo .. hi - 1, iteration p being cell (p / size, p % size): a thread's block under collapse(2). */
  method AccumulateFlat(m1: array2<int>, m2: array2<int>, r: array2<int>, size: nat, lo: nat, hi: nat)
    requires Fits(m1, size) && Fits(m2, size) && Fits(r, size) && r != m1 && r != m2
    requires lo <= hi <= size * size
    modifies r
    ensures forall a, b :: 0 <= a < r.Length0 && 0 <= b < r.Length1 ==>
      r[a, b] == old(r[a, b]) +
        (if a < size && b < size && lo <= Flat(size, a, b) < hi then Dot(m1, m2, a, b, size) else 0)
    ensures forall a, b :: 0 <= a < r.Length0 && 0 <= b < r.Length1 && (a, b) !in FlatWrites(size, lo, hi) ==>
      r[a, b] == old(r[a, b])
  {
    for p := lo to hi
      invariant forall a, b :: 0 <= a < r.Length0 && 0 <= b < r.Length1 ==>
        r[a, b] == old(r[a, b]) +
          (if a < size && b < size && lo <= Flat(size, a, b) < p then Dot(m1, m2, a, b, size) else 0)
    {
      FlatInverse(size, p);
      var i, j := p / size, p % size;
      forall a, b | 0 <= a < size && 0 <= b < size
        ensures Flat(size, a, b) == p ==> a == i && b == j
      {
        FlatUnflat(size, a, b);
      }
      AccumulateCell(m1, m2, r, size, i, j);
    }
  }

  // ---------------------------------------------------------------------------------------
  // The three decompositions

  /** `multiplyOuterParallel`: the rows are split among the threads; each thread runs its rows' j and k loops. */
  method MultiplyOuterParallel(m1: array2<int>, m2: array2<int>, r: array2<int>, size: nat, numThreads: nat)
    requires Fits(m1, size) && Fits(m2, size) && Fits(r, size) && r != m1 && r != m2
    requires numThreads > 0
    modifies r
    ensures forall a, b :: 0 <= a < r.Length0 && 0 <= b < r.Length1 ==>
      r[a, b] == old(r[a, b]) + Product(m1, m2, size, a, b)
  {
    var rows := StaticBlocks(size, numThreads);
    StaticBlocksTile(size, numThreads);
    var t: nat, cursor: nat := 0, 0;
    while t < |rows|
      invariant t <= |rows| && cursor <= size && Tiles(rows[t..], cursor, size)
      invariant forall a, b :: 0 <= a < r.Length0 && 0 <= b < r.Length1 ==>
        r[a, b] == old(r[a, b]) + (if a < cursor && b < size then Dot(m1, m2, a, b, size) else 0)
    {
      var block := rows[t];
      assert rows[t..][1..] == rows[t + 1..];
      TilesBounds(rows[t + 1..], block.hi, size);
      AccumulateRows(m1, m2, r, size, block.lo, block.hi);
      cursor, t := block.hi, t + 1;
    }
    assert rows[t..] == [];
  }

  /**
   * `multiplyInnerParallel`: the rows are taken one after another, and within each row the
   * columns are split among a fresh team of threads, each running the k loop for its columns.
   */
  method MultiplyInnerParallel(m1: array2<int>, m2: array2<int>, r: array2<int>, size: nat, numThreads: nat)
    requires Fits(m1, size) && Fits(m2, size) && Fits(r, size) && r != m1 && r != m2
    requires numThreads > 0
    modifies r
    ensures forall a, b :: 0 <= a < r.Length0 && 0 <= b < r.Length1 ==>
      r[a, b] == old(r[a, b]) + Product(m1, m2, size, a, b)
  {
    for i := 0 to size
      invariant forall a, b :: 0 <= a < r.Length0 && 0 <= b < r.Length1 ==>
        r[a, b] == old(r[a, b]) + (if a < i && b < size then Dot(m1, m2, a, b, size) else 0)
    {
      var columns := StaticBlocks(size, numThreads);
      StaticBlocksTile(size, numThreads);
      var t: nat, cursor: nat := 0, 0;
      while t < |columns|
        invariant t <= |columns| && cursor <= size && Tiles(columns[t..], cursor, size)
        invariant forall a, b :: 0 <= a < r.Length0 && 0 <= b < r.Length1 ==>
          r[a, b] == old(r[a, b]) +
            (if (a < i && b < size) || (a == i && b < cursor) then Dot(m1, m2, a, b, size) else 0)
      {
        var block := columns[t];
        assert columns[t..][1..] == columns[t + 1..];
        TilesBounds(columns[t + 1..], block.hi, size);
        AccumulateColumns(m1, m2, r, size, i, block.lo, block.hi);
        cursor, t := block.hi, t + 1;
      }
      assert columns[t..] == [];
    }
  }

  /**
   * `multiplyCollapseParallel`: collapse(2) fuses the i and j loops into one loop of
   * size * size iterations, split among the threads; each runs the k loop for its cells.
   */
  method MultiplyCollapseParallel(m1: array2<int>, m2: array2<int>, r: array2<int>, size: nat, numThreads: nat)
    requires Fits(m1, size) && Fits(m2, size) && Fits(r, size) && r != m1 && r != m2
    requires numThreads > 0
    modifies r
    ensures forall a, b :: 0 <= a < r.Length0 && 0 <= b < r.Length1 ==>
      r[a, b] == old(r[a, b]) + Product(m1, m2, size, a, b)
  {
    var cells := StaticBlocks(size * size, numThreads);
    StaticBlocksTile(size * size, numThreads);
    var t: nat, cursor: nat := 0, 0;
    while t < |cells|
      invariant t <= |cells| && cursor <= size * size && Tiles(cells[t..], cursor, size * size)
      invariant forall a, b :: 0 <= a < r.Length0 && 0 <= b < r.Length1 ==>
        r[a, b] == old(r[a, b]) +
          (if a < size && b < size && Flat(size, a, b) < cursor then Dot(m1, m2, a, b, size) else 0)
    {
      var block := cells[t];
      assert cells[t..][1..] == cells[t + 1..];
      TilesBounds(cells[t + 1..], block.hi, size * size);
      AccumulateFlat(m1, m2, r, size, block.lo, block.hi);
      cursor, t := block.hi, t + 1;
    }
    assert cells[t..] == [];
    forall a, b | 0 <= a < size && 0 <= b < size
      ensures Flat(size, a, b) < size * size
    {
      FlatUnflat(size, a, b);
    }
  }

  // ---------------------------------------------------------------------------------------
  // The driver

  /** `Matrix m(size, std::vector<int>(size))`: a size x size matrix of zeros. */
  method ZeroMatrix(size: nat) returns (m: array2<int>)
    ensures fresh(m)
    ensures m.Length0 == size && m.Length1 == size
    ensures forall a, b :: 0 <= a < size && 0 <= b < size ==> m[a, b] == 0
  {
    m := new int[size, size]((a, b) => 0);
  }

  /**
   * One trial of `main`: three freshly zeroed result matrices, one per decomposition. All
   * three come out equal to the product of the two inputs, whatever the thread count.
   */
  method Trial(m1: array2<int>, m2: array2<int>, size: nat, numThreads: nat)
    returns (outer: array2<int>, inner: array2<int>, collapse: array2<int>)
    requires Fits(m1, size) && Fits(m2, size) && numThreads > 0
    ensures outer.Length0 == inner.Length0 == collapse.Length0 == size
    ensures outer.Length1 == inner.Length1 == collapse.Length1 == size
    ensures forall a, b :: 0 <= a < size && 0 <= b < size ==>
      outer[a, b] == Dot(m1, m2, a, b, size) && inner[a, b] == outer[a, b] && collapse[a, b] == outer[a, b]
  {
    outer := ZeroMatrix(size);
    inner := ZeroMatrix(size);
    collapse := ZeroMatrix(size);
    MultiplyOuterParallel(m1, m2, outer, size, numThreads);
    MultiplyInnerParallel(m1, m2, inner, size, numThreads);
    MultiplyCollapseParallel(m1, m2, collapse, size, numThreads);
  }

  /** The kernel adds to the result rather than overwriting it: a second run adds the product again. */
  method MultiplyTwice(m1: array2<int>, m2: array2<int>, r: array2<int>, size: nat, numThreads: nat)
    requires Fits(m1, size) && Fits(m2, size) && Fits(r, size) && r != m1 && r != m2
    requires numThreads > 0
    modifies r
    ensures forall a, b :: 0 <= a < r.Length0 && 0 <= b < r.Length1 ==>
      r[a, b] == old(r[a, b]) + 2 * Product(m1, m2, size, a, b)
  {
    MultiplyOuterParallel(m1, m2, r, size, numThreads);
    MultiplyOuterParallel(m1, m2, r, size, numThreads);
  }

  // ---------------------------------------------------------------------------------------
  // Properties

  /** Under collapse(2), iteration p < size * size is cell (p / size, p % size), inside the matrix. */
  lemma FlatInverse(size: nat, p: nat)
    requires p < size * size
    ensures 0 < size && p / size < size && p % size < size
    ensures Flat(size, p / size, p % size) == p
  {
    var q, r := p / size, p % size;
    assert p == q * size + r;
    if q >= size {
      MulAtLeastBy(size, q, size);
      assert false;
    }
  }

  lemma MulAtLeastBy(x: nat, y: nat, z: nat)
    requires x <= y
    ensures x * z <= y * z
  {
    assert y * z == x * z + (y - x) * z;
  }

  /** ... and cell (a, b) is iteration a * size + b, so the flattening is a bijection. */
  lemma FlatUnflat(size: nat, a: nat, b: nat)
    requires a < size && b < size
    ensures Flat(size, a, b) < size * size
    ensures Flat(size, a, b) / size == a && Flat(size, a, b) % size == b
  {
    DivUnique(a * size + b, size, a, b);
    MulAtLeastBy(a + 1, size, size);
    assert (a + 1) * size == a * size + size;
  }

  /**
   * Distinct threads of the outer-parallel loop write disjoint cells: thread t's rows are
   * its `schedule(static)` block, and the blocks do not overlap.
   */
  lemma OuterWritesDisjoint(size: nat, threads: nat, t1: nat, t2: nat)
    requires t1 < threads && t2 < threads && t1 != t2
    ensures RowWrites(size, StaticBlocks(size, threads)[t1].lo, StaticBlocks(size, threads)[t1].hi)
         !! RowWrites(size, StaticBlocks(size, threads)[t2].lo, StaticBlocks(size, threads)[t2].hi)
  {
    if t1 < t2 {
      StaticBlocksOrdered(size, threads, t1, t2);
    } else {
      StaticBlocksOrdered(size, threads, t2, t1);
    }
  }

  /** Within row i, distinct threads of the inner-parallel loop write disjoint cells. */
  lemma InnerWritesDisjoint(size: nat, threads: nat, i: nat, t1: nat, t2: nat)
    requires t1 < threads && t2 < threads && t1 != t2
    ensures ColumnWrites(i, StaticBlocks(size, threads)[t1].lo, StaticBlocks(size, threads)[t1].hi)
         !! ColumnWrites(i, StaticBlocks(size, threads)[t2].lo, StaticBlocks(size, threads)[t2].hi)
  {
    if t1 < t2 {
      StaticBlocksOrdered(size, threads, t1, t2);
    } else {
      StaticBlocksOrdered(size, threads, t2, t1);
    }
  }

  /** Distinct threads of the collapse(2) loop write disjoint cells. */
  lemma CollapseWritesDisjoint(size: nat, threads: nat, t1: nat, t2: nat)
    requires t1 < threads && t2 < threads && t1 != t2
    ensures FlatWrites(size, StaticBlocks(size * size, threads)[t1].lo, StaticBlocks(size * size, threads)[t1].hi)
         !! FlatWrites(size, StaticBlocks(size * size, threads)[t2].lo, StaticBlocks(size * size, threads)[t2].hi)
  {
    if t1 < t2 {
      StaticBlocksOrdered(size * size, threads, t1, t2);
    } else {
      StaticBlocksOrdered(size * size, threads, t2, t1);
    }
  }

  /** Every entry of the leading size x size block lies in [lo, hi]. */
  predicate EntriesIn(m: array2<int>, size: nat, lo: int, hi: int)
    reads m
  {
    Fits(m, size) && forall a, b :: 0 <= a < size && 0 <= b < size ==> lo <= m[a, b] <= hi
  }

  lemma ProductBounds(x: int, y: int)
    requires 1 <= x <= 100 && 1 <= y <= 100
    ensures 1 <= x * y <= 10000
  {
    assert x * y <= 100 * y;
  }

  /** With entries in [1, 100], a partial dot product of k terms lies in [k, 10000 k]. */
  lemma {:induction false} DotBounds(m1: array2<int>, m2: array2<int>, size: nat, i: nat, j: nat, k: nat)
    requires EntriesIn(m1, size, 1, 100) && EntriesIn(m2, size, 1, 100)
    requires i < size && j < size && k <= size
    ensures k <= Dot(m1, m2, i, j, k) <= 10000 * k
  {
    if k > 0 {
      DotBounds(m1, m2, size, i, j, k - 1);
      ProductBounds(m1[i, k - 1], m2[k - 1, j]);
    }
  }

  /**
   * `main`'s inputs: entries drawn from [1, 100], sizes 50 and 500, results starting at
   * zero. Every value a result cell takes while the k loop accumulates into it is at most
   * 5,000,000, so the 32-bit `int` of the source never overflows.
   */
  lemma CellFitsInt32(m1: array2<int>, m2: array2<int>, size: nat, i: nat, j: nat, k: nat)
    requires EntriesIn(m1, size, 1, 100) && EntriesIn(m2, size, 1, 100)
    requires size <= 500 && i < size && j < size && k <= size
    ensures 0 <= Dot(m1, m2, i, j, k) <= 5_000_000 < 0x8000_0000
  {
    DotBounds(m1, m2, size, i, j, k);
  }
}
