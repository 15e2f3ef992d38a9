/**
 * Elementwise vector addition `vect3[i] = vect1[i] + vect2[i]` run as an OpenMP
 * `parallel for` under the four schedules of openmp/openmp_partb_schedule.cpp.
 *
 * A `std::vector<int>` whose length the loop does not change is an `array<int>`. The
 * threads of the parallel loop are replaced by the chunk list of the schedule in force
 * (module Schedules): the kernel runs the chunks one after another, which is one of the
 * interleavings the threads may produce. Since iteration i reads and writes index i only,
 * every interleaving leaves the same vect3.
 */
module VectorSchedule {
  import opened Schedules

  /** `vect.assign(size, value)`: a vector of `size` copies of `value`. */
  method InitVector(size: nat, value: int) returns (vect: array<int>)
    ensures fresh(vect)
    ensures vect.Length == size && forall i :: 0 <= i < size ==> vect[i] == value
  {
    vect := new int[size](_ => value);
  }

  /**
   * vect3 once the loop body has run for every i < |v1|: the sums at those indices, the
   * old contents of vect3 beyond them.
   */
  function Sums(v1: seq<int>, v2: seq<int>, v3: seq<int>): seq<int>
    requires |v1| <= |v2| && |v1| <= |v3|
  {
    seq(|v3|, i requires 0 <= i < |v3| => if i < |v1| then v1[i] + v2[i] else v3[i])
  }

  /** Running the loop again on its own result changes nothing (main repeats each measurement 100 times). */
  lemma SumsIdempotent(v1: seq<int>, v2: seq<int>, v3: seq<int>)
    requires |v1| <= |v2| && |v1| <= |v3|
    ensures Sums(v1, v2, Sums(v1, v2, v3)) == Sums(v1, v2, v3)
  {
  }

  /**
   * The loop `for i in [0, |vect1|): vect3[i] = vect1[i] + vect2[i]`, its iterations run
   * chunk by chunk in the order of a tiling. vect1 or vect2 may be vect3 itself: each
   * index is written once, after it was read.
   */
  method AddChunks(vect1: array<int>, vect2: array<int>, vect3: array<int>, chunks: seq<Chunk>)
    requires vect1.Length <= vect2.Length && vect1.Length <= vect3.Length
    requires Tiles(chunks, 0, vect1.Length)
    modifies vect3
    ensures vect3[..] == Sums(old(vect1[..]), old(vect2[..]), old(vect3[..]))
  {
    var n := vect1.Length;
    var k: nat, cursor: nat := 0, 0;
    while k < |chunks|
      invariant k <= |chunks| && cursor <= n && Tiles(chunks[k..], cursor, n)
      invariant forall i :: 0 <= i < cursor ==> vect3[i] == old(vect1[i]) + old(vect2[i])
      invariant forall i :: cursor <= i < vect3.Length ==> vect3[i] == old(vect3[i])
      invariant forall i :: cursor <= i < vect1.Length ==> vect1[i] == old(vect1[i])
      invariant forall i :: cursor <= i < vect2.Length ==> vect2[i] == old(vect2[i])
    {
      var chunk := chunks[k];
      assert chunks[k..][1..] == chunks[k + 1..];
      TilesBounds(chunks[k + 1..], chunk.hi, n);
      for i := chunk.lo to chunk.hi
        invariant forall j :: 0 <= j < i ==> vect3[j] == old(vect1[j]) + old(vect2[j])
        invariant forall j :: i <= j < vect3.Length ==> vect3[j] == old(vect3[j])
        invariant forall j :: i <= j < vect1.Length ==> vect1[j] == old(vect1[j])
        invariant forall j :: i <= j < vect2.Length ==> vect2[j] == old(vect2[j])
      {
        vect3[i] := vect1[i] + vect2[i];
      }
      cursor, k := chunk.hi, k + 1;
    }
    assert chunks[k..] == [];
  }

  /** The team size: num_threads(0) stands for one thread per available processor. */
  function TeamSize(numThreads: nat, numProcs: nat): (threads: nat)
    requires numProcs > 0
    ensures threads > 0
  {
    if numThreads == 0 then numProcs else numThreads
  }

  /** The chunks a schedule clause selects, or [] when `scheduleType` names no schedule. */
  function ScheduleChunks(scheduleType: string, n: nat, threads: nat, chunkSize: int, claimant: nat -> nat): seq<Chunk>
    requires threads > 0
  {
    if scheduleType == "static" then
      if chunkSize > 0 then StaticChunks(n, chunkSize, threads) else StaticBlocks(n, threads)
    else if scheduleType == "dynamic" then
      Chunked(0, n, if chunkSize > 0 then chunkSize else 1, 0, claimant)
    else []
  }

  /**
   * `runSchedule`: vect3[i] = vect1[i] + vect2[i] for every i < |vect1| under schedule
   * `scheduleType` ("static" or "dynamic"), with chunk size `chunkSize` when positive and
   * the schedule's default otherwise. Any other schedule name runs nothing. The returned
   * chunks say which thread ran which iterations (the table the source prints); for a
   * dynamic schedule, `claimant(k)` is the thread of the team the run-time let make claim
   * k, and `numProcs` is what omp_get_num_procs() reports. Every iteration is run by a
   * thread of the team, whichever the schedule.
   */
  method RunSchedule(vect1: array<int>, vect2: array<int>, vect3: array<int>, scheduleType: string,
                     numThreads: nat, chunkSize: int, numProcs: nat, claimant: nat -> nat)
    returns (assignment: seq<Chunk>)
    requires vect1.Length <= vect2.Length && vect1.Length <= vect3.Length
    requires numProcs > 0
    requires forall k :: claimant(k) < TeamSize(numThreads, numProcs)
    modifies vect3
    ensures assignment == ScheduleChunks(scheduleType, vect1.Length, TeamSize(numThreads, numProcs), chunkSize, claimant)
    ensures forall k :: 0 <= k < |assignment| ==> assignment[k].thread < TeamSize(numThreads, numProcs)
    ensures scheduleType == "static" || scheduleType == "dynamic" ==>
      Tiles(assignment, 0, vect1.Length) && vect3[..] == Sums(old(vect1[..]), old(vect2[..]), old(vect3[..]))
    ensures scheduleType != "static" && scheduleType != "dynamic" ==> vect3[..] == old(vect3[..])
  {
    var threads := TeamSize(numThreads, numProcs);
    var n := vect1.Length;
    assignment := [];
    if scheduleType == "static" {
      if chunkSize > 0 {
        assignment := StaticChunks(n, chunkSize, threads);
        ChunkedTiles(0, n, chunkSize, 0, RoundRobin(threads));
        StaticChunksInTeam(n, chunkSize, threads);
      } else {
        assignment := StaticBlocks(n, threads);
        StaticBlocksTile(n, threads);
      }
      AddChunks(vect1, vect2, vect3, assignment);
    } else if scheduleType == "dynamic" {
      if chunkSize > 0 {
        assignment := DynamicSchedule(n, chunkSize, threads, claimant);
      } else {
        assignment := DynamicSchedule(n, 1, threads, claimant);
      }
      AddChunks(vect1, vect2, vect3, assignment);
    }
  }

  /**
   * `measureSchedule`: the same addition under schedule(static) or schedule(dynamic) with
   * the default chunk size. `isBalanced` only decides whether every hundredth iteration
   * also sleeps for a microsecond, and `chunkSize` is not used, so neither affects vect3.
   */
  method MeasureSchedule(vect1: array<int>, vect2: array<int>, vect3: array<int>, scheduleType: string,
                         isBalanced: bool, numThreads: nat, chunkSize: int, numProcs: nat, claimant: nat -> nat)
    requires vect1.Length <= vect2.Length && vect1.Length <= vect3.Length
    requires numProcs > 0
    requires forall k :: claimant(k) < TeamSize(numThreads, numProcs)
    modifies vect3
    ensures scheduleType == "static" || scheduleType == "dynamic" ==>
      vect3[..] == Sums(old(vect1[..]), old(vect2[..]), old(vect3[..]))
    ensures scheduleType != "static" && scheduleType != "dynamic" ==> vect3[..] == old(vect3[..])
  {
    var threads := TeamSize(numThreads, numProcs);
    var n := vect1.Length;
    if scheduleType == "static" {
      var blocks := StaticBlocks(n, threads);
      StaticBlocksTile(n, threads);
      AddChunks(vect1, vect2, vect3, blocks);
    } else if scheduleType == "dynamic" {
      var claims := DynamicSchedule(n, 1, threads, claimant);
      AddChunks(vect1, vect2, vect3, claims);
    }
  }

  /**
   * Section 1 of `main`: twelve-element vectors of 10, 20 and 0, then the four schedules
   * with four threads and chunk size 2 where one is given, all on the same vect3. Each run
   * leaves vect3 all 30s; the static assignments are the ones the source's comment
   * describes (contiguous blocks of three; round-robin pairs), and the dynamic ones cover
   * the twelve iterations once, by threads of the team, whichever threads claim them. The
   * two dynamic runs are claimed independently: `claimant1` and `claimant2`.
   */
  method SchedulingBehaviour(numProcs: nat, claimant1: nat -> nat, claimant2: nat -> nat)
    returns (staticDefault: seq<Chunk>, staticChunked: seq<Chunk>, dynamicDefault: seq<Chunk>,
             dynamicChunked: seq<Chunk>, after: seq<seq<int>>)
    requires numProcs > 0
    requires forall k :: claimant1(k) < 4
    requires forall k :: claimant2(k) < 4
    ensures |after| == 4 && forall r :: r in after ==> r == seq(12, _ => 30)
    ensures staticDefault == [Chunk(0, 0, 3), Chunk(1, 3, 6), Chunk(2, 6, 9), Chunk(3, 9, 12)]
    ensures staticChunked == [Chunk(0, 0, 2), Chunk(1, 2, 4), Chunk(2, 4, 6),
                              Chunk(3, 6, 8), Chunk(0, 8, 10), Chunk(1, 10, 12)]
    ensures Tiles(dynamicDefault, 0, 12) && |dynamicDefault| == 12
    ensures Tiles(dynamicChunked, 0, 12) && |dynamicChunked| == 6
    ensures forall k :: 0 <= k < 12 ==> dynamicDefault[k].thread < 4
    ensures forall k :: 0 <= k < 6 ==> dynamicChunked[k].thread < 4
  {
    var vect1 := InitVector(12, 10);
    var vect2 := InitVector(12, 20);
    var vect3 := InitVector(12, 0);
    var thirties := seq(12, _ => 30);
    staticDefault := RunSchedule(vect1, vect2, vect3, "static", 4, 0, numProcs, claimant1);
    assert vect3[..] == thirties;
    var r1 := vect3[..];
    staticChunked := RunSchedule(vect1, vect2, vect3, "static", 4, 2, numProcs, claimant1);
    assert vect3[..] == thirties;
    var r2 := vect3[..];
    dynamicDefault := RunSchedule(vect1, vect2, vect3, "dynamic", 4, 0, numProcs, claimant1);
    assert vect3[..] == thirties;
    var r3 := vect3[..];
    dynamicChunked := RunSchedule(vect1, vect2, vect3, "dynamic", 4, 2, numProcs, claimant2);
    assert vect3[..] == thirties;
    after := [r1, r2, r3, vect3[..]];
    ChunkedCount(0, 12, 1, 0, claimant1);
    ChunkedCount(0, 12, 2, 0, claimant2);
    SpecimenSchedules();
  }
}
