/**
 * The iteration-to-thread rules of an OpenMP worksharing loop over [0, n), as selected by
 * its `schedule` clause (OpenMP 4.5, section 2.7.1, "Loop Construct").
 *
 * A schedule is written out as a list of chunks: contiguous ranges of iterations, each run
 * by one thread. Taken in order, the chunks of every schedule tile [0, n), which is the
 * statement that each iteration is run exactly once.
 */
module Schedules {

  function Min(a: nat, b: nat): nat { if a < b then a else b }

  /** The iterations lo, lo + 1, ..., hi - 1 of a loop, run one after another by `thread`. */
  datatype Chunk = Chunk(thread: nat, lo: nat, hi: nat)

  /** Taken in order, `chunks` are adjacent ranges that together cover exactly [lo, hi). */
  predicate Tiles(chunks: seq<Chunk>, lo: nat, hi: nat)
    decreases |chunks|
  {
    if chunks == [] then lo == hi
    else chunks[0].lo == lo && chunks[0].lo <= chunks[0].hi && Tiles(chunks[1..], chunks[0].hi, hi)
  }

  /** Every chunk of a tiling lies inside the tiled range. */
  lemma {:induction false} TilesBounds(chunks: seq<Chunk>, lo: nat, hi: nat)
    requires Tiles(chunks, lo, hi)
    ensures lo <= hi
    ensures forall k :: 0 <= k < |chunks| ==> lo <= chunks[k].lo <= chunks[k].hi <= hi
  {
    if chunks != [] {
      TilesBounds(chunks[1..], chunks[0].hi, hi);
      assert forall k :: 1 <= k < |chunks| ==> chunks[k] == chunks[1..][k - 1];
    }
  }

  /** Chunks of a tiling do not overlap: an earlier chunk ends before a later one starts. */
  lemma {:induction false} TilesOrdered(chunks: seq<Chunk>, lo: nat, hi: nat)
    requires Tiles(chunks, lo, hi)
    ensures forall k1, k2 :: 0 <= k1 < k2 < |chunks| ==> chunks[k1].hi <= chunks[k2].lo
  {
    if chunks != [] {
      var tail := chunks[1..];
      TilesOrdered(tail, chunks[0].hi, hi);
      TilesBounds(tail, chunks[0].hi, hi);
      forall k1, k2 | 0 <= k1 < k2 < |chunks|
        ensures chunks[k1].hi <= chunks[k2].lo
      {
        assert chunks[k2] == tail[k2 - 1];
        if k1 > 0 {
          assert chunks[k1] == tail[k1 - 1];
        }
      }
    }
  }

  /** The chunk of a tiling that runs iteration i: every iteration has one. */
  function ChunkOf(chunks: seq<Chunk>, lo: nat, hi: nat, i: nat): (k: nat)
    requires Tiles(chunks, lo, hi) && lo <= i < hi
    ensures k < |chunks| && chunks[k].lo <= i < chunks[k].hi
    decreases |chunks|
  {
    if i < chunks[0].hi then 0 else 1 + ChunkOf(chunks[1..], chunks[0].hi, hi, i)
  }

  /** No iteration is run by two chunks: the chunk holding i is the one ChunkOf names. */
  lemma ChunkOfUnique(chunks: seq<Chunk>, lo: nat, hi: nat, i: nat, k: nat)
    requires Tiles(chunks, lo, hi)
    requires k < |chunks| && chunks[k].lo <= i < chunks[k].hi
    ensures lo <= i < hi
    ensures ChunkOf(chunks, lo, hi, i) == k
  {
    TilesBounds(chunks, lo, hi);
    TilesOrdered(chunks, lo, hi);
  }

  // ---------------------------------------------------------------------------------------
  // schedule(static) with no chunk size

  /**
   * Number of iterations in thread t's block under schedule(static) with no chunk size. The
   * standard leaves the sizes unspecified beyond "approximately equal, at most one chunk per
   * thread"; this is GCC libgomp's split, where the first n % T threads take n / T + 1
   * iterations and the others n / T.
   */
  function BlockSize(n: nat, threads: nat, t: nat): nat
    requires threads > 0
  {
    n / threads + (if t < n % threads then 1 else 0)
  }

  /** First iteration of thread t's block: the blocks of threads 0 .. t - 1 come before it. */
  function BlockStart(n: nat, threads: nat, t: nat): nat
    requires threads > 0
  {
    if t == 0 then 0 else BlockStart(n, threads, t - 1) + BlockSize(n, threads, t - 1)
  }

  /** libgomp's closed form: block t starts at t * (n / T) + min(t, n % T); block T starts at n. */
  lemma {:induction false} BlockStartClosed(n: nat, threads: nat, t: nat)
    requires threads > 0
    ensures BlockStart(n, threads, t) == t * (n / threads) + Min(t, n % threads)
    ensures t == threads ==> BlockStart(n, threads, t) == n
  {
    var q := n / threads;
    if t > 0 {
      BlockStartClosed(n, threads, t - 1);
      assert (t - 1) * q + q == t * q;
    }
  }

  /** The blocks of schedule(static) with no chunk size, block t going to thread t. */
  function StaticBlocks(n: nat, threads: nat): seq<Chunk>
    requires threads > 0
  {
    seq(threads, t requires 0 <= t < threads =>
      Chunk(t, BlockStart(n, threads, t), BlockStart(n, threads, t + 1)))
  }

  /**
   * At most one block per thread, thread t owning block t, and the blocks near-equal: each
   * holds n / T or n / T + 1 iterations, the first n % T blocks being the larger ones.
   */
  lemma StaticBlocksShape(n: nat, threads: nat)
    requires threads > 0
    ensures |StaticBlocks(n, threads)| == threads
    ensures forall t :: 0 <= t < threads ==> StaticBlocks(n, threads)[t].thread == t
    ensures forall t :: 0 <= t < threads ==>
      StaticBlocks(n, threads)[t].hi - StaticBlocks(n, threads)[t].lo
        == n / threads + (if t < n % threads then 1 else 0)
  {
  }

  lemma {:induction false} StaticBlocksTileFrom(n: nat, threads: nat, t: nat)
    requires 0 < threads && t <= threads
    ensures Tiles(StaticBlocks(n, threads)[t..], BlockStart(n, threads, t), n)
    decreases threads - t
  {
    var blocks := StaticBlocks(n, threads);
    if t == threads {
      BlockStartClosed(n, threads, t);
      assert blocks[t..] == [];
    } else {
      StaticBlocksTileFrom(n, threads, t + 1);
      assert blocks[t..][0] == blocks[t] && blocks[t..][1..] == blocks[t + 1..];
    }
  }

  /** The static blocks cover [0, n) exactly once, whatever n and the team size. */
  lemma StaticBlocksTile(n: nat, threads: nat)
    requires threads > 0
    ensures Tiles(StaticBlocks(n, threads), 0, n)
  {
    StaticBlocksTileFrom(n, threads, 0);
    assert StaticBlocks(n, threads)[0..] == StaticBlocks(n, threads);
  }

  /** The blocks follow the thread numbers: a lower-numbered thread's block ends before a higher one's starts. */
  lemma StaticBlocksOrdered(n: nat, threads: nat, t1: nat, t2: nat)
    requires t1 < t2 < threads
    ensures StaticBlocks(n, threads)[t1].hi <= StaticBlocks(n, threads)[t2].lo
  {
    StaticBlocksTile(n, threads);
    TilesOrdered(StaticBlocks(n, threads), 0, n);
  }

  /** With more threads than iterations, thread t >= n gets an empty block. */
  lemma StaticBlocksIdle(n: nat, threads: nat, t: nat)
    requires n < threads && n <= t < threads
    ensures StaticBlocks(n, threads)[t].lo == StaticBlocks(n, threads)[t].hi == n
  {
    DivUnique(n, threads, 0, n);
    BlockStartClosed(n, threads, t);
    BlockStartClosed(n, threads, t + 1);
  }

  // ---------------------------------------------------------------------------------------
  // Fixed chunk size: schedule(static, S) and schedule(dynamic, S)

  /**
   * Chunks of `size` iterations taken in order from `lo` onwards, the last one holding
   * whatever remains of [lo, n); chunk number k (counting from the first one at lo) is run
   * by thread owner(k). Static and dynamic scheduling with a chunk size cut the loop the
   * same way and differ only in `owner`.
   */
  function Chunked(lo: nat, n: nat, size: nat, k: nat, owner: nat -> nat): seq<Chunk>
    requires size > 0
    decreases n - lo
  {
    if lo >= n then []
    else [Chunk(owner(k), lo, Min(lo + size, n))] + Chunked(Min(lo + size, n), n, size, k + 1, owner)
  }

  /** The chunks cover [lo, n) exactly once. */
  lemma {:induction false} ChunkedTiles(lo: nat, n: nat, size: nat, k: nat, owner: nat -> nat)
    requires size > 0 && lo <= n
    ensures Tiles(Chunked(lo, n, size, k, owner), lo, n)
    decreases n - lo
  {
    if lo < n {
      ChunkedTiles(Min(lo + size, n), n, size, k + 1, owner);
    }
  }

  /** Chunk c starts at lo + c * size, holds `size` iterations or what remains, and is run by owner(k + c). */
  lemma {:induction false} ChunkedAt(lo: nat, n: nat, size: nat, k: nat, owner: nat -> nat, c: nat)
    requires size > 0 && c < |Chunked(lo, n, size, k, owner)|
    ensures Chunked(lo, n, size, k, owner)[c] == Chunk(owner(k + c), lo + c * size, Min(lo + c * size + size, n))
    decreases c
  {
    if c > 0 {
      ChunkedAt(lo + size, n, size, k + 1, owner, c - 1);
      assert lo + size + (c - 1) * size == lo + c * size;
    }
  }

  /** There are ceil((n - lo) / size) chunks. */
  lemma {:induction false} ChunkedCount(lo: nat, n: nat, size: nat, k: nat, owner: nat -> nat)
    requires size > 0 && lo <= n
    ensures |Chunked(lo, n, size, k, owner)| == (n - lo + size - 1) / size
    decreases n - lo
  {
    if lo == n {
      DivUnique(size - 1, size, 0, size - 1);
    } else if lo + size >= n {
      DivUnique(n - lo + size - 1, size, 1, n - lo - 1);
    } else {
      ChunkedCount(lo + size, n, size, k + 1, owner);
      var q := (n - lo - 1) / size;
      DivUnique(n - (lo + size) + size - 1, size, q, (n - lo - 1) % size);
      DivUnique(n - lo + size - 1, size, q + 1, (n - lo - 1) % size);
    }
  }

  /** Iteration i lies in chunk (i - lo) / size. */
  lemma {:induction false} ChunkedChunkOf(lo: nat, n: nat, size: nat, k: nat, owner: nat -> nat, i: nat)
    requires size > 0 && lo <= i < n
    ensures Tiles(Chunked(lo, n, size, k, owner), lo, n)
    ensures ChunkOf(Chunked(lo, n, size, k, owner), lo, n, i) == (i - lo) / size
    decreases n - lo
  {
    var chunks := Chunked(lo, n, size, k, owner);
    ChunkedTiles(lo, n, size, k, owner);
    assert chunks[0].hi == Min(lo + size, n);
    if i < lo + size {
      DivUnique(i - lo, size, 0, i - lo);
    } else {
      var tail := Chunked(lo + size, n, size, k + 1, owner);
      assert chunks[1..] == tail;
      ChunkedChunkOf(lo + size, n, size, k + 1, owner, i);
      assert ChunkOf(chunks, lo, n, i) == 1 + ChunkOf(tail, lo + size, n, i);
      DivStep(i - lo, size);
    }
  }

  /** When every owner is a thread of the team, every chunk is run by a thread of the team. */
  lemma {:induction false} ChunkedInTeam(lo: nat, n: nat, size: nat, k: nat, owner: nat -> nat, threads: nat)
    requires size > 0
    requires forall c :: owner(c) < threads
    ensures forall c :: 0 <= c < |Chunked(lo, n, size, k, owner)| ==> Chunked(lo, n, size, k, owner)[c].thread < threads
    decreases n - lo
  {
    if lo < n {
      var tail := Chunked(Min(lo + size, n), n, size, k + 1, owner);
      ChunkedInTeam(Min(lo + size, n), n, size, k + 1, owner, threads);
      assert forall c :: 1 <= c < |Chunked(lo, n, size, k, owner)| ==> Chunked(lo, n, size, k, owner)[c] == tail[c - 1];
    }
  }

  /** schedule(static, S): chunks go to the threads round-robin, chunk c to thread c mod T. */
  function RoundRobin(threads: nat): nat -> nat
    requires threads > 0
  {
    c => c % threads
  }

  function StaticChunks(n: nat, size: nat, threads: nat): seq<Chunk>
    requires size > 0 && threads > 0
  {
    Chunked(0, n, size, 0, RoundRobin(threads))
  }

  /** Under schedule(static, S) iteration i is run by thread (i / S) mod T; with S = 1 that is i mod T. */
  lemma StaticChunksOwner(n: nat, size: nat, threads: nat, i: nat)
    requires size > 0 && threads > 0 && i < n
    ensures Tiles(StaticChunks(n, size, threads), 0, n)
    ensures StaticChunks(n, size, threads)[ChunkOf(StaticChunks(n, size, threads), 0, n, i)].thread
            == (i / size) % threads
    ensures size == 1 ==>
      (StaticChunks(n, size, threads)[ChunkOf(StaticChunks(n, size, threads), 0, n, i)].thread == i % threads)
  {
    ChunkedTiles(0, n, size, 0, RoundRobin(threads));
    ChunkedChunkOf(0, n, size, 0, RoundRobin(threads), i);
    ChunkedAt(0, n, size, 0, RoundRobin(threads), i / size);
  }

  /** Round-robin dealing only hands chunks to threads 0 .. T - 1. */
  lemma StaticChunksInTeam(n: nat, size: nat, threads: nat)
    requires size > 0 && threads > 0
    ensures forall c :: 0 <= c < |StaticChunks(n, size, threads)| ==> StaticChunks(n, size, threads)[c].thread < threads
  {
    ChunkedInTeam(0, n, size, 0, RoundRobin(threads), threads);
  }

  /**
   * schedule(dynamic, S): threads repeatedly claim the next S iterations (or what remains)
   * from a shared cursor until none remain. The run-time decides which thread makes each
   * claim among the team's `threads` threads; `claimant(k)` is the thread that made claim
   * number k. Whichever threads claim, the claims cut the loop exactly as schedule(static, S)
   * does, cover it exactly once, and are all run by the team.
   */
  method DynamicSchedule(n: nat, size: nat, threads: nat, claimant: nat -> nat) returns (claims: seq<Chunk>)
    requires size > 0
    requires forall k :: claimant(k) < threads
    ensures claims == Chunked(0, n, size, 0, claimant)
    ensures Tiles(claims, 0, n)
    ensures |claims| == (n + size - 1) / size
    ensures forall k :: 0 <= k < |claims| ==>
      claims[k].thread == claimant(k) && claims[k].hi == Min(claims[k].lo + size, n)
    ensures forall k :: 0 <= k < |claims| ==> claims[k].thread < threads
  {
    claims := [];
    var next := 0;
    while next < n
      invariant next <= n
      invariant claims + Chunked(next, n, size, |claims|, claimant) == Chunked(0, n, size, 0, claimant)
      invariant forall k :: 0 <= k < |claims| ==>
        claims[k].thread == claimant(k) && claims[k].hi == Min(claims[k].lo + size, n)
      decreases n - next
    {
      var take := Min(size, n - next);
      var claim := Chunk(claimant(|claims|), next, next + take);
      ghost var rest := Chunked(next + take, n, size, |claims| + 1, claimant);
      assert Chunked(next, n, size, |claims|, claimant) == [claim] + rest;
      assert claims + [claim] + rest == claims + ([claim] + rest);
      claims := claims + [claim];
      next := next + take;
    }
    ChunkedTiles(0, n, size, 0, claimant);
    ChunkedCount(0, n, size, 0, claimant);
  }

  /**
   * Twelve iterations on four threads: schedule(static) gives each thread a block of three,
   * schedule(static, 2) deals out pairs round-robin.
   */
  lemma SpecimenSchedules()
    ensures StaticBlocks(12, 4) == [Chunk(0, 0, 3), Chunk(1, 3, 6), Chunk(2, 6, 9), Chunk(3, 9, 12)]
    ensures StaticChunks(12, 2, 4) == [Chunk(0, 0, 2), Chunk(1, 2, 4), Chunk(2, 4, 6),
                                       Chunk(3, 6, 8), Chunk(0, 8, 10), Chunk(1, 10, 12)]
  {
    assert BlockStart(12, 4, 4) == 12;
    var own := RoundRobin(4);
    assert Chunked(12, 12, 2, 6, own) == [];
    assert Chunked(10, 12, 2, 5, own) == [Chunk(1, 10, 12)];
    assert Chunked(8, 12, 2, 4, own) == [Chunk(0, 8, 10), Chunk(1, 10, 12)];
    assert Chunked(6, 12, 2, 3, own) == [Chunk(3, 6, 8), Chunk(0, 8, 10), Chunk(1, 10, 12)];
    assert Chunked(4, 12, 2, 2, own) == [Chunk(2, 4, 6), Chunk(3, 6, 8), Chunk(0, 8, 10), Chunk(1, 10, 12)];
    assert Chunked(2, 12, 2, 1, own) == [Chunk(1, 2, 4), Chunk(2, 4, 6), Chunk(3, 6, 8), Chunk(0, 8, 10), Chunk(1, 10, 12)];
  }

  // ---------------------------------------------------------------------------------------
  // Arithmetic

  /** Division is determined by the quotient-remainder decomposition. */
  lemma DivUnique(x: int, d: int, q: int, r: int)
    requires d > 0 && 0 <= r < d && x == q * d + r
    ensures x / d == q && x % d == r
  {
    var q0, r0 := x / d, x % d;
    assert x == q0 * d + r0 && 0 <= r0 < d;
    assert (q - q0) * d == r0 - r;
    if q > q0 {
      MulAtLeast(q - q0, d);
    } else if q < q0 {
      MulAtLeast(q0 - q, d);
    }
  }

  /** Removing one divisor's worth lowers the quotient by one. */
  lemma DivStep(x: int, d: int)
    requires 0 < d <= x
    ensures x / d == (x - d) / d + 1
  {
    var q, r := (x - d) / d, (x - d) % d;
    assert x - d == q * d + r;
    assert (q + 1) * d == q * d + d;
    DivUnique(x, d, q + 1, r);
  }

  lemma MulAtLeast(m: int, d: int)
    requires m >= 1 && d > 0
    ensures m * d >= d
  {
    assert m * d == (m - 1) * d + d;
  }
}
