# Parallel loop schedules and matrix-multiplication decompositions, in Dafny

This project models the two OpenMP programs of the repository that compute something:

- `openmp/openmp_partb_schedule.cpp` adds two integer vectors elementwise,
  `vect3[i] = vect1[i] + vect2[i]`, in a `parallel for`. It runs under four schedules:
  `schedule(static)`, `schedule(static, S)`, `schedule(dynamic)` and `schedule(dynamic, S)`.
  `runSchedule` shows which thread ran which iteration. `measureSchedule` times the loop
  with and without an artificial stall.
- `openmp/openmp_partc_matrix.cpp` multiplies square integer matrices by the triple loop
  `resultMatrix[i][j] += matrix1[i][k] * matrix2[k][j]`. The loop is parallelised three
  ways: over the rows (`multiplyOuterParallel`), over the columns of each row in turn
  (`multiplyInnerParallel`), and over the (i, j) pairs fused by `collapse(2)`
  (`multiplyCollapseParallel`).

Three modules:

- `Schedules` (`schedules.dfy`) states the iteration-to-thread rules of the `schedule`
  clause (OpenMP 4.5, section 2.7.1, "Loop Construct"). A schedule is a list of `Chunk`s:
  contiguous ranges of iterations, each run by one thread. `Tiles(chunks, 0, n)` says that
  the chunks, in order, cover [0, n) edge to edge. `ChunkOf` and `ChunkOfUnique` turn this
  into "every iteration is run by exactly one chunk".
  - `StaticBlocks` is `schedule(static)` with no chunk size (line 92 of
    `openmp/openmp_partb_schedule.cpp`). The rows `StaticBlocksShape`, `BlockStartClosed`,
    `StaticBlocksTile`, `StaticBlocksOrdered` and `StaticBlocksIdle` state its properties.
  - `Chunked` gives the chunk boundaries shared by `schedule(static, S)` and
    `schedule(dynamic, S)` (lines 84 and 102). `StaticChunks` is the static form, which
    deals the chunks out round-robin. The rows `ChunkedTiles`, `ChunkedAt`, `ChunkedCount`,
    `ChunkedChunkOf`, `ChunkedInTeam`, `StaticChunksInTeam` and `StaticChunksOwner` state
    their properties.
  - `DynamicSchedule` is the dynamic form: a loop over a shared cursor that hands out the
    next `min(S, remaining)` iterations per claim. Any thread of the team may make any claim.
- `VectorSchedule` (`vector_schedule.dfy`) holds `initVector`, the addition kernel,
  `runSchedule`, `measureSchedule` and the "scheduling behaviour" section of `main`.
  `Sums` is the vector the loop at lines 82-117 leaves behind, and `ScheduleChunks` is the
  chunk list that `runSchedule`'s branches select. The rows for `AddChunks`, `RunSchedule`,
  `MeasureSchedule` and `SumsIdempotent` state what these definitions mean.
- `MatrixMultiply` (`matrix_multiply.dfy`) holds the k loop for one cell, what one thread
  runs under each decomposition, the three decompositions, one trial of `main`, and the
  bijection behind `collapse(2)`. It also proves that `main`'s inputs cannot overflow a
  32-bit `int`. `Dot` is the sum the k loop at lines 120-122 of
  `openmp/openmp_partc_matrix.cpp` accumulates. `AccumulateCell` and the rows after it
  state its meaning, and `DotBounds` bounds it.

A `std::vector<int>` becomes an `array<int>`, and a `Matrix` becomes an `array2<int>`. The
threads are replaced by the chunk list of the schedule in force, and the model runs the
chunks one after another. That order is one of the interleavings the threads may produce.
Different threads write disjoint cells (`OuterWritesDisjoint`, `InnerWritesDisjoint` and
`CollapseWritesDisjoint` for the matrices; index i only for the vectors), so every
interleaving leaves the same result.

The matrix pragmas name no schedule, so the implementation's default applies. The model
takes it to be `schedule(static)`, as GCC's libgomp does. For `schedule(static)` with no
chunk size, the standard says only that chunks are "approximately equal" and that each
thread gets at most one. The model uses libgomp's split: the first `n % T` threads run
`n / T + 1` iterations and the others run `n / T`.

## Model

| member | source | states |
|---|---|---|
| `Schedules.ChunkOf` | openmp/openmp_partb_schedule.cpp:82-117 | under a tiling schedule, every iteration i of the loop lies in some chunk of the schedule |
| `Schedules.ChunkOfUnique` | openmp/openmp_partb_schedule.cpp:82-117 | no iteration lies in two chunks: whichever chunk holds i is the one `ChunkOf` names, so each iteration is run exactly once |
| `Schedules.TilesOrdered` | openmp/openmp_partb_schedule.cpp:82-117 | chunks of a tiling do not overlap: an earlier chunk ends before a later one starts |
| `Schedules.StaticBlocksShape` | openmp/openmp_partb_schedule.cpp:92 | `schedule(static)` gives one block per thread, block t to thread t, and each block holds n / T or n / T + 1 iterations (the first n % T get the extra one) |
| `Schedules.BlockStartClosed` | openmp/openmp_partb_schedule.cpp:92 | block t starts at t * (n / T) + min(t, n % T), and block T starts at n, so the blocks end exactly at the loop's end |
| `Schedules.StaticBlocksTile` | openmp/openmp_partb_schedule.cpp:92-98 | the `schedule(static)` blocks cover [0, n) exactly once, for every n and every team size |
| `Schedules.StaticBlocksOrdered` | openmp/openmp_partc_matrix.cpp:117 | under `schedule(static)`, a lower-numbered thread's block ends before a higher-numbered thread's block starts |
| `Schedules.StaticBlocksIdle` | openmp/openmp_partb_schedule.cpp:92 | with more threads than iterations, thread t >= n gets an empty block |
| `Schedules.ChunkedTiles` | openmp/openmp_partb_schedule.cpp:84 | chunks of S iterations, the last one taking what remains, cover [0, n) exactly once, whoever owns them |
| `Schedules.ChunkedAt` | openmp/openmp_partb_schedule.cpp:84 | chunk c is [c * S, min((c + 1) * S, n)) and is owned by owner(c) |
| `Schedules.ChunkedCount` | openmp/openmp_partb_schedule.cpp:84 | there are ceil(n / S) chunks |
| `Schedules.ChunkedChunkOf` | openmp/openmp_partb_schedule.cpp:84 | iteration i lies in chunk i / S |
| `Schedules.ChunkedInTeam` | openmp/openmp_partb_schedule.cpp:84 | when every chunk owner is a thread of the team, every chunk is run by a thread of the team |
| `Schedules.StaticChunksInTeam` | openmp/openmp_partb_schedule.cpp:84 | `schedule(static, S)` hands chunks only to threads 0 .. T - 1 |
| `Schedules.StaticChunksOwner` | openmp/openmp_partb_schedule.cpp:84 | under `schedule(static, S)` iteration i is run by thread (i / S) mod T, and with S = 1 by thread i mod T (round-robin) |
| `Schedules.DynamicSchedule` | openmp/openmp_partb_schedule.cpp:102 | the shared-cursor loop makes ceil(n / S) claims; claim k is made by `claimant(k)`, a thread of the team, and takes min(S, remaining) iterations; the claims tile [0, n), are all run by threads of the team, and equal the chunks of `schedule(static, S)` except for their owners |
| `Schedules.SpecimenSchedules` | openmp/openmp_partb_schedule.cpp:225-230 | with 12 iterations and 4 threads, `schedule(static)` gives blocks 0-2, 3-5, 6-8 and 9-11 to threads 0-3; `schedule(static, 2)` deals pairs to threads 0, 1, 2, 3, 0, 1 |
| `VectorSchedule.InitVector` | openmp/openmp_partb_schedule.cpp:18-20 | the vector has `size` elements, each equal to `value` |
| `VectorSchedule.AddChunks` | openmp/openmp_partb_schedule.cpp:93-95 | run over any tiling of [0, n), the loop leaves vect3[i] == vect1[i] + vect2[i] for i < n and vect3 unchanged beyond n; vect1 and vect2 may even alias vect3 |
| `VectorSchedule.TeamSize` | openmp/openmp_partb_schedule.cpp:77-78 | a thread count of 0 stands for the processor count, so the team is never empty |
| `VectorSchedule.RunSchedule` | openmp/openmp_partb_schedule.cpp:74-119 | for "static" and "dynamic", with or without a chunk size, the thread assignment tiles [0, n), every iteration is run by a thread of the team, and vect3 gets the sums; the result is the same in all four branches; any other schedule name leaves vect3 untouched |
| `VectorSchedule.MeasureSchedule` | openmp/openmp_partb_schedule.cpp:136-196 | the same sums for "static" and "dynamic", whether the run is balanced or imbalanced and whatever `chunkSize`; other schedule names leave vect3 untouched |
| `VectorSchedule.SumsIdempotent` | openmp/openmp_partb_schedule.cpp:317-321 | running the addition again on its own result leaves it unchanged, as the repeated measurements do |
| `VectorSchedule.SchedulingBehaviour` | openmp/openmp_partb_schedule.cpp:246-282 | `main`'s section 1: after each of the four runs vect3 is twelve 30s; the static assignments are the contiguous and round-robin ones; each dynamic assignment, claimed independently of the other, covers the twelve iterations exactly once and by threads 0 .. 3 |
| `MatrixMultiply.AccumulateCell` | openmp/openmp_partc_matrix.cpp:120-122 | the k loop adds Σ_k matrix1[i][k] * matrix2[k][j] to cell (i, j) and changes no other cell |
| `MatrixMultiply.AccumulateColumns` | openmp/openmp_partc_matrix.cpp:154-158 | a thread's columns of row i each get their dot product added; every cell outside `ColumnWrites(i, lo, hi)` is unchanged |
| `MatrixMultiply.AccumulateRows` | openmp/openmp_partc_matrix.cpp:118-124 | a thread's rows get the product added across all columns; every cell outside `RowWrites(size, lo, hi)` is unchanged |
| `MatrixMultiply.AccumulateFlat` | openmp/openmp_partc_matrix.cpp:187-194 | a thread's flattened iterations p get the product added at cell (p / size, p % size); every cell outside `FlatWrites(size, lo, hi)` is unchanged |
| `MatrixMultiply.MultiplyOuterParallel` | openmp/openmp_partc_matrix.cpp:111-129 | resultMatrix[i][j] == old + Σ_k matrix1[i][k] * matrix2[k][j] inside size x size, unchanged outside; the inputs are not modified |
| `MatrixMultiply.MultiplyInnerParallel` | openmp/openmp_partc_matrix.cpp:146-164 | the same postcondition, with rows taken in turn and each row's columns split among a team |
| `MatrixMultiply.MultiplyCollapseParallel` | openmp/openmp_partc_matrix.cpp:181-199 | the same postcondition, over the fused size * size iteration space |
| `MatrixMultiply.ZeroMatrix` | openmp/openmp_partc_matrix.cpp:251-253 | a freshly allocated size x size matrix of zeros |
| `MatrixMultiply.Trial` | openmp/openmp_partc_matrix.cpp:250-258 | starting from zeroed matrices, all three decompositions produce the product, so they agree cell for cell, whatever the thread count |
| `MatrixMultiply.MultiplyTwice` | openmp/openmp_partc_matrix.cpp:121 | the kernel adds to the result and does not overwrite it: two runs add the product twice |
| `MatrixMultiply.FlatInverse` | openmp/openmp_partc_matrix.cpp:187-189 | iteration p < size * size of the collapsed loop is cell (p / size, p % size), inside the matrix, and flattens back to p |
| `MatrixMultiply.FlatUnflat` | openmp/openmp_partc_matrix.cpp:187-189 | cell (a, b) flattens to a * size + b < size * size, which maps back to (a, b): the flattening is a bijection |
| `MatrixMultiply.OuterWritesDisjoint` | openmp/openmp_partc_matrix.cpp:117-121 | distinct threads of the outer-parallel i loop write disjoint sets of cells: the `RowWrites` of their `schedule(static)` blocks, outside which `AccumulateRows` changes nothing, do not meet |
| `MatrixMultiply.InnerWritesDisjoint` | openmp/openmp_partc_matrix.cpp:153-156 | within row i, distinct threads of the inner-parallel j loop write disjoint cells: the `ColumnWrites` of their blocks, outside which `AccumulateColumns` changes nothing, do not meet |
| `MatrixMultiply.CollapseWritesDisjoint` | openmp/openmp_partc_matrix.cpp:187-191 | distinct threads of the collapsed loop write disjoint cells: the `FlatWrites` of their blocks of the size * size iterations, outside which `AccumulateFlat` changes nothing, do not meet |
| `MatrixMultiply.DotBounds` | openmp/openmp_partc_matrix.cpp:213 | with entries in [1, 100], a dot product of k terms lies in [k, 10000 k] |
| `MatrixMultiply.CellFitsInt32` | openmp/openmp_partc_matrix.cpp:213-216 | with entries in [1, 100], size at most 500 and a zeroed result, every value a cell takes is at most 5,000,000 < 2^31 |

## Left out

- Wall-clock timing (`omp_get_wtime`), the returned elapsed times, and the totals and averages: floating point with no effect on the data.
- Console output (`printTableHeader`, `printGroupedTableHeader`, `printTableRow`, `printVector`) and the `#pragma omp critical` printing of (thread, iteration, result). `RunSchedule` returns the thread assignment instead, which carries the same information about who ran what.
- Real threads, the critical section, `omp_get_thread_num`, and the atomicity of the dynamic cursor. The model runs the chunks in turn, which is one legal interleaving. `omp_get_num_procs()` becomes the parameter `numProcs`. Which thread makes each dynamic claim becomes the parameter `claimant`.
- The one-microsecond `sleep_for` every hundredth iteration of the imbalanced runs. It is timing only, so `MeasureSchedule` takes `isBalanced` and does not use it.
- `initMatrix`: it draws from `std::mt19937` and `uniform_int_distribution`, whose output cannot be reasoned about here. Input matrices are arbitrary, except in `DotBounds` and `CellFitsInt32`, which assume the entries lie in [1, 100].
- The size and thread-count sweeps of both `main` functions and their repeated trials. One trial (`Trial`) and the twelve-element behaviour section (`SchedulingBehaviour`) are modelled. The vector performance section only repeats `MeasureSchedule` on fresh vectors.
- The MPI programs and the hello-world programs: messaging and console output with no computation.
- `VectorSchedule.AddChunks`: vector elements are unbounded integers. A 32-bit overflow of `vect1[i] + vect2[i]` would be undefined behaviour in C++. `main` only adds 10 and 20.
- `VectorSchedule.InitVector`: `size` is a `nat`. In C++ a negative `int` size converts to a huge `size_t`, and `assign` throws. The C++ `assign` may also reuse the vector's storage; the model returns a fresh array.
- `VectorSchedule.RunSchedule`: `numThreads` is a `nat`. OpenMP leaves a negative `num_threads` unspecified, and the source never passes one.
- `VectorSchedule.RunSchedule`, `VectorSchedule.MeasureSchedule` and `VectorSchedule.AddChunks` require `vect2` and `vect3` to be at least as long as `vect1`. The C++ loops index `vect2[i]` and `vect3[i]` for every i < `vect1.size()` without a check, so a shorter vector is undefined behaviour there; the source's callers always pass three vectors of the same size.
- `MatrixMultiply.MultiplyOuterParallel`: matrix entries are unbounded integers, so the contract promises the exact product for any input. In C++ the `+=` into an `int` overflows, which is undefined behaviour, once a partial sum passes 2^31 - 1. `CellFitsInt32` shows this cannot happen for `main`'s inputs. The same holds for `MultiplyInnerParallel`, `MultiplyCollapseParallel`, `Trial` and `MultiplyTwice`.
- `MatrixMultiply.MultiplyOuterParallel`: the result matrix must not alias an input. The source's callers never alias, and with aliasing the kernel would read cells it has already changed. The same holds for the inner and collapse variants.
