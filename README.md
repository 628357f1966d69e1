# Templet wavefront engine versus OpenMP and the sequential sweep

This project models the comparison benchmark in
`etc/comparison_with_openmp/test.cpp`. The benchmark relaxes a grid of H rows
T times with a four-point stencil in three ways:

- `seq_alg` sweeps the inner rows top to bottom, T times.
- `par_omp` runs an anti-diagonal schedule: in step t it relaxes the rows of
  t's parity that satisfy `i <= t && i > t - 2*T`.
- `par_tet` runs the Templet engine. One row actor per inner row relaxes its
  row when single-slot channels to both neighbours hold its token. It then
  sends a token back to each neighbour. Workers take channels from a FIFO
  ready queue.

The harness checks that both parallel grids equal the sequential grid.

The model proves that they do, for every grid height and every T. Only the
Templet engine needs H >= 4.

**Rows as terms.** One pass `op(i)` computes the new row i from three rows:
the row above, row i itself and the row below, as they are when the pass
starts. `Stencil.Row` records that dataflow as a term, `Relaxed(up, self,
down)`. Two runs give bit-identical grids when they build equal terms.
`Stencil.RowAfter(seed, i, k)` is row i after k sequential passes. Each
schedule is proved to end with `Relaxation(seed, T)`.

**Modules.**

- `Stencil` (stencil.dfy): `op` and the sequential closed form.
- `Sequential` (sequential.dfy): `seq_alg`.
- `OpenMP` (omp.dfy): the step and row-selection arithmetic of `par_omp`, and
  `par_omp` itself.
- `Protocol` (protocol.dfy): the token protocol as functions on a value
  `State`, with these fields:
  - `ready`, the queue;
  - `cs`, the channels, each an addressee and an in-flight flag;
  - `ts`, the counters;
  - `field`, the grid.

  The module also holds the protocol's invariant and its lemmas.
- `Templet` (engine.dfy): the engine as a class. It has the ready queue as a
  `seq` field and `cs`, `ts` and the grid as arrays. Each method is proved to
  take `Snapshot()` to the matching `Protocol` function of the old snapshot.
- `Harness` (harness.dfy): `compare` and one trial of `main`.

**The invariant `Protocol.Inv`.** It holds from the state `par_tet` sets up
and after every dispatch. It has four parts:

- **QueueOk.** No channel is queued twice, and a channel is queued exactly
  when its `sending` flag is set.
- **TurnOk.** Every counter lies in 1..T+1. Neighbouring counters differ by
  at most one, and the upper one is never behind. A channel's addressee is
  the upper actor when the two counters are equal, and the lower actor
  otherwise.
- **WakeOk.** No wake-up is lost. An unfinished actor whose channels are all
  addressed to it has a token queued for it.
- **GridOk.** Actor pid's row equals `RowAfter(seed, pid + 1, ts[pid] - 1)`.

The single worker's loop ends because each step lowers
`3 * (passes left) + |queue|`. When the queue is empty, every counter is
T + 1 and the grid is the sequential result.

## Model

| member | source | states |
|---|---|---|
| `Stencil.Op` | etc/comparison_with_openmp/test.cpp:45-50 | one pass replaces row i by `Relaxed` of the old rows i-1, i and i+1; no other row changes |
| `Stencil.PassesAfter` | etc/comparison_with_openmp/test.cpp:63-64 | after k sequential passes every inner row has had exactly k more passes; rows 0 and H-1 are never written |
| `Stencil.StagesDiffer` | etc/comparison_with_openmp/test.cpp:47-49 | a row after k passes differs from the same row after k' != k passes, so reading a neighbour too early or too late changes the result |
| `Sequential.SeqAlg` | etc/comparison_with_openmp/test.cpp:59-67 | the grid after `seq_alg` is `Relaxation(seed, T)`: row i after T passes, each pass reading the row above after this pass and the row below before it |
| `OpenMP.SelectedAt` | etc/comparison_with_openmp/test.cpp:77-85 | step t relaxes inner row i exactly when t = i + 2m for some 0 <= m < T |
| `OpenMP.CountIsDone` | etc/comparison_with_openmp/test.cpp:75-85 | the number of steps 1..t that relax row i is 0 before step i, then one more every second step, capped at T |
| `OpenMP.SelectedTTimes` | etc/comparison_with_openmp/test.cpp:75 | over steps 1..(2T-1)+(H-3) every inner row is relaxed exactly T times |
| `OpenMP.NonAdjacent` | etc/comparison_with_openmp/test.cpp:77-85 | two rows relaxed in the same step are at least two apart |
| `OpenMP.WavefrontOrder` | etc/comparison_with_openmp/test.cpp:75-85 | when step t relaxes row i, the row above has already been relaxed once more than row i had been, and the row below as often as row i had been |
| `OpenMP.Unselected` | etc/comparison_with_openmp/test.cpp:80 | a row that a step does not select keeps its pass count |
| `OpenMP.VisitRow` | etc/comparison_with_openmp/test.cpp:79-80 | visiting row i in step t, relaxing it only when selected, moves the grid from "rows above i done for step t" to "rows above i+2 done" |
| `OpenMP.OmpStep` | etc/comparison_with_openmp/test.cpp:77-86 | one step takes every row from its pass count after step t-1 to its pass count after step t |
| `OpenMP.ParOmp` | etc/comparison_with_openmp/test.cpp:69-90 | the grid after `par_omp` is `Relaxation(seed, T)`, the sequential result |
| `Protocol.SendKeepsQueue` | etc/comparison_with_openmp/test.cpp:140-146 | `send` keeps every channel queued at most once, and queued exactly when it is in flight; the queue grows by at most one |
| `Protocol.SetupInv` | etc/comparison_with_openmp/test.cpp:212-220 | the state `par_tet` builds satisfies the invariant, and its queue is exactly channel 0 |
| `Protocol.PassOrder` | etc/comparison_with_openmp/test.cpp:195-203 | when the three-way gate lets actor pid make its k-th pass, the actor above has made k passes and the one below k-1; the rows `op` reads are the rows `seq_alg` reads for that pass, so the new row is `RowAfter(seed, pid + 1, k)` |
| `Protocol.RecvPass` | etc/comparison_with_openmp/test.cpp:199-207 | a passing `recv` relaxes row pid+1 and raises `ts[pid]` by exactly one. It queues channel pid-1 for actor pid-1 if pid > 0, then channel pid for actor pid+1 if pid < N-1, and changes no other channel |
| `Protocol.PassQueueOk` | etc/comparison_with_openmp/test.cpp:205-206 | the two tokens a pass sends keep the queue free of duplicates and in step with the flags |
| `Protocol.PassTurnOk` | etc/comparison_with_openmp/test.cpp:199-206 | after a pass the counters stay in 1..T+1, neighbours still differ by at most one, and each channel is addressed to the side that moves next |
| `Protocol.PassWakeOk` | etc/comparison_with_openmp/test.cpp:205-206 | after a pass, every unfinished actor addressed on all its channels has a token queued for it |
| `Protocol.PassGridOk` | etc/comparison_with_openmp/test.cpp:203 | after a pass every actor's row is still its sequential stage for its counter |
| `Protocol.RecvInv` | etc/comparison_with_openmp/test.cpp:195-208 | `recv` re-establishes the whole invariant. When the gate fails it changes nothing, and the actor it ran for still has a token queued if it holds both turns |
| `Protocol.PopQueueOk` | etc/comparison_with_openmp/test.cpp:166-172 | after popping the front channel and clearing its flag, the queue still matches the flags |
| `Protocol.PopTurnGridOk` | etc/comparison_with_openmp/test.cpp:166-172 | a pop changes no counter, addressee or row |
| `Protocol.PopWakeOk` | etc/comparison_with_openmp/test.cpp:166-172 | after a pop, only the popped channel's addressee can lack a queued token |
| `Protocol.FrontExists` | etc/comparison_with_openmp/test.cpp:166-169 | under the invariant, the front channel and its addressee are in range |
| `Protocol.DispatchInv` | etc/comparison_with_openmp/test.cpp:166-173 | one dispatch step (pop, clear `sending`, `recv` for the addressee) preserves the invariant |
| `Protocol.OutstandingBump` | etc/comparison_with_openmp/test.cpp:203 | raising one counter by one lowers the passes left by exactly one |
| `Protocol.OutstandingBounds` | etc/comparison_with_openmp/test.cpp:201-203 | with counters in 1..T+1 the passes left are never negative, and they are zero exactly when every counter is T+1 |
| `Protocol.DispatchProgress` | etc/comparison_with_openmp/test.cpp:157-175 | every dispatch step strictly lowers `3 * passes left + queue length`, which stays non-negative |
| `Protocol.Descending` | etc/comparison_with_openmp/test.cpp:199-203 | under the invariant the counters never increase from the top row down |
| `Protocol.FindStalled` | etc/comparison_with_openmp/test.cpp:199-201 | if the bottom actor is unfinished, some unfinished actor has all its channels addressed to it |
| `Protocol.Quiescence` | etc/comparison_with_openmp/test.cpp:160-162 | when the ready queue is empty, every counter is T+1 (exactly T passes per row) and the grid equals `Relaxation(seed, T)` |
| `Templet.Engine.constructor` | etc/comparison_with_openmp/test.cpp:212-220 | sets every `ts[i]` to 1 and every `cs[i]` to actor i and idle, then sends on `cs[0]` to actor 0; the result satisfies the invariant |
| `Templet.Engine.Send` | etc/comparison_with_openmp/test.cpp:140-146 | on a channel in flight nothing changes. Otherwise the channel gets the new addressee and is marked in flight, and it is appended to the ready queue, which is otherwise unchanged |
| `Templet.Engine.Recv` | etc/comparison_with_openmp/test.cpp:195-208 | the new state is `Protocol.Recv` of the old: it relaxes and notifies only if both neighbour gates pass and `ts[pid] <= T`, and otherwise changes nothing |
| `Templet.Engine.Dispatch` | etc/comparison_with_openmp/test.cpp:166-173 | removes the front channel, clears its `sending` flag and runs `recv` for its recorded addressee; keeps the invariant |
| `Templet.Engine.Run` | etc/comparison_with_openmp/test.cpp:157-175 | the single worker's loop terminates with an empty queue, every `ts[pid] == T+1`, and the grid equal to the sequential result |
| `Templet.ParTet` | etc/comparison_with_openmp/test.cpp:210-223 | the grid after `par_tet` is `Relaxation(seed, T)` |
| `Harness.Reseed` | etc/comparison_with_openmp/test.cpp:31-43 | the grid holds exactly the given seed rows |
| `Harness.Compare` | etc/comparison_with_openmp/test.cpp:92-97 | the result is true exactly when the two grids are equal row for row |
| `Harness.Trial` | etc/comparison_with_openmp/test.cpp:227-230 | both comparisons of a trial succeed: `par_omp` and `par_tet` reproduce `seq_alg` |

## Left out

- Threads, the mutexes, the condition variable and the `active` counter's
  park/wake termination (test.cpp:124-127, 159-165, 178-186). The model runs
  one worker that dispatches until the queue is empty, which is what
  `tfunc` does when `run` starts a single thread.
- The check-then-mark in `send` (test.cpp:142-143) is not atomic against
  other threads. With one worker the check and the mark are one step.
- Floating point: `op`/`op1` become the `Relaxed` term over whole rows, so
  the cell loop over j (test.cpp:47-49) is not modelled. `compare` compares
  rows, not doubles.
- `min_max` (test.cpp:99-118), timing with `omp_get_wtime`, console output and
  the trial loop of `main` (test.cpp:225-241).
- `rand()` seeding in `shufle`/`shufle_seq` (test.cpp:31-43): the seeded rows
  are an input (`Harness.Reseed`).
- The OpenMP pragmas: within a step of `par_omp` the model relaxes the
  selected rows top to bottom. `OpenMP.NonAdjacent` shows that no selected
  row reads another one, so any order gives the same grid.
- Templet.Engine.constructor: requires H >= 4 (two or more actors). With
  H = 3, `cs` has N - 1 = 0 elements (test.cpp:192), yet test.cpp:220 sends
  on `cs[0]`. The single-row case is undefined as written, so it is not
  modelled.
- The compile-time constants H = 1500, W = 3000 and T = 3000 (test.cpp:11-15)
  become parameters. The grid width W only matters inside `op`.
- Actors are indices, not `proc` objects. Every actor's handler is `recv`, so
  the `ps[i].recv` assignment at test.cpp:214 is not modelled.
- lib/tetmplet.dsl.hpp: declarations only, with no behaviour to model.
