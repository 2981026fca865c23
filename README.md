# Actor pool subsystem, modelled in Dafny

This project models `UActorPoolSubsystem`, an Unreal Engine world subsystem
that keeps a pool of pre-spawned actors. The pool holds an idle stack of
actor handles (`PooledObjects`), four configuration values and six usage
statistics. It has four operations:

- `PopulatePool` runs one frame of the initial fill.
- `GetActorFromPool` pops the most recently pooled actor. It then starts
  replenishment when the idle stack is below `MinActorsInPool`.
- `ReturnActorToPool` pushes an actor back, unless the actor is null or
  pending kill.
- `ReplenishPool` runs one frame of the low-water-mark refill.

The model is one class, `ActorPool.ActorPoolSubsystem`, in `actor_pool.dfy`.
Its fields are the source's fields:

- the configuration values are `const`s, set by the constructors;
- the idle stack is a `seq<Actor>` whose last element is the top;
- each counter is an unbounded `int`.

Each method changes the object in place. Its `ensures` gives the new idle
stack and every counter in terms of the old state and the spawn outcomes.
`Valid()` is the object invariant that every method keeps:

- `ActorsInPool == |PooledObjects|`;
- `ActorsInPool + CurrentActorsSpawned == TotalActorsSpawnedBySystem`: every
  spawned actor is either idle or handed out, counting a returned foreign
  actor as one handed out fewer;
- `CurrentActorsSpawned == TotalActorsSpawned - TotalActorsDespawned`;
- `CurrentActorsSpawned <= MaxActorsSpawned <= TotalActorsSpawned`;
- the monotonic counters are non-negative.

Three engine services are replaced:

- **Spawning.** `SpawnActor` becomes an oracle. Every spawn attempt reads the
  next element of a `seq<Option<Actor>>`, and `None` is a failed spawn. A
  caller must supply one outcome per attempt.
- **Timers.** `SetTimerForNextTick` becomes the `rescheduled` result of a
  step.
- **Pending kill.** `IsPendingKill` becomes membership in a `killed` set
  passed to `ReturnActorToPool`.

`scenarios.dfy` (module `Scenarios`) drives fresh subsystems through several
steps. Its loops stand for the timer manager, which re-runs a step for as
long as the step asks to be rescheduled.

Both fill procedures run the spawn loop `for (int i = 0; i < SpawnThisFrame; i++)`.
The helper `Attempts` gives the number of iterations of that loop: none when
`SpawnThisFrame` is negative or zero, otherwise `SpawnThisFrame`.

### What the code does not guarantee

- **The spawn total can pass `NumActorsToPool`.** `ReplenishPool` spawns
  without checking `NumActorsToPool`
  (Source/ActorPool/ActorPoolSubsystem.cpp:163-175). Under the default
  configuration, `LowWaterMarkReplenishesOne` reaches 2001 spawns.
- **With `SpawnPerFrame == 0`, every frame attempts the full target.** The
  batch is the whole of `NumActorsToPool`, not what is left
  (Source/ActorPool/ActorPoolSubsystem.cpp:99). A frame that leaves the
  total below the target reschedules
  (Source/ActorPool/ActorPoolSubsystem.cpp:117-119). The next frame again
  attempts the whole target, so it ends above the target whenever it spawns
  more actors than were left. `UnbudgetedPopulationCanOvershoot` shows 3
  actors for a target of 2.
- **Population can run forever.** `InitializePool` accepts a null class with
  only a warning (Source/ActorPool/ActorPoolSubsystem.cpp:84-88), and every
  spawn of a null class fails. A negative `SpawnPerFrame` gives a negative
  batch (Source/ActorPool/ActorPoolSubsystem.cpp:102), so nothing is
  attempted. In both cases `PopulatePool` itself adds nothing, and it
  reschedules while the total is below `NumActorsToPool`
  (Source/ActorPool/ActorPoolSubsystem.cpp:117-119). With a null class the
  replenishment spawns fail too, so the total never grows and population
  never ends. With a negative budget, a replenishment started by an acquire
  still spawns up to `SpawnAdditionalPerFrame` actors
  (Source/ActorPool/ActorPoolSubsystem.cpp:141-144, 163-175), and population
  stops once that raises the total to `NumActorsToPool`.
  `PopulationCanStall` shows two frames of each that spawn nothing and still
  reschedule; `ReplenishmentEndsStalledPopulation` shows an acquire that ends
  a stalled population with a negative budget.
- **Returning an actor is not checked against what was handed out.**
  `ReturnActorToPool` accepts any valid actor, even one that is already idle
  (Source/ActorPool/ActorPoolSubsystem.cpp:151-157). The same handle can then
  be idle twice, and `CurrentActorsSpawned` can go below zero.
  `DoubleReturnIsAccepted` shows both.
- **Replenishment starts inside the acquire.** `GetActorFromPool` calls
  `ReplenishPool` directly, so the first replenishment step runs in the same
  call (Source/ActorPool/ActorPoolSubsystem.cpp:141-144). Only the later
  steps wait for the next tick.
- **Replenishment does not stop at `MinActorsInPool`.** The header says it
  spawns "until `MinActorsInPool` is reached"
  (Source/ActorPool/ActorPoolSubsystem.h:84). `ReplenishPool` instead keeps
  rescheduling while `TotalActorsSpawnedBySystem < NumActorsToPool`
  (Source/ActorPool/ActorPoolSubsystem.cpp:178). It does so even when the
  idle stack is already at the mark, where each step spawns nothing.

## Model

| member | source | states |
|---|---|---|
| ActorPool.Successes | Source/ActorPool/ActorPoolSubsystem.cpp:105-114 | the actors a run of spawn attempts pools are the successful outcomes, in order: no more than the attempts, as many exactly when every attempt succeeds, and an actor is pooled iff some attempt returned it |
| ActorPool.SuccessesSnoc | Source/ActorPool/ActorPoolSubsystem.cpp:107-113 | one more attempt adds its actor at the end when it succeeds and nothing when it fails, so a failed spawn changes no counter |
| ActorPool.PopulateBatch | Source/ActorPool/ActorPoolSubsystem.cpp:96-103 | a zero budget attempts the whole target in one frame; a non-zero budget attempts at most `max(0, SpawnPerFrame)` and never takes the system's total past the target; a positive budget with actors left to spawn attempts at least one |
| ActorPool.ReplenishBatch | Source/ActorPool/ActorPoolSubsystem.cpp:163-164 | replenishment attempts at most `max(0, SpawnAdditionalPerFrame)` spawns, never lifts the idle count above `MinActorsInPool`, attempts none at or above the mark, and at least one below it when the budget is positive |
| ActorPool.Popped | Source/ActorPool/ActorPoolSubsystem.cpp:126-128 | a pop removes exactly the last element of a non-empty stack and leaves an empty stack alone |
| ActorPool.PopAfterPush | Source/ActorPool/ActorPoolSubsystem.cpp:123-159 | last in, first out: popping right after a push returns the pushed actor and restores the stack |
| ActorPool.ActorPoolSubsystem.constructor | Source/ActorPool/ActorPoolSubsystem.h:45-114 | a new subsystem has the default configuration 2000 / 100 / 1500 / 1, no class, an empty pool and all six statistics at 0 |
| ActorPool.ActorPoolSubsystem.WithConfig | Source/ActorPool/ActorPoolSubsystem.h:53-82 | a subsystem whose four configuration defaults were overridden, otherwise as fresh as the default one |
| ActorPool.ActorPoolSubsystem.SpawnActors | Source/ActorPool/ActorPoolSubsystem.cpp:105-114 | the spawn loop shared by both fill procedures: the successful spawns are pushed in order and counted in `ActorsInPool` and `TotalActorsSpawnedBySystem`; no other counter changes |
| ActorPool.ActorPoolSubsystem.InitializePool | Source/ActorPool/ActorPoolSubsystem.cpp:82-91 | records the class to spawn, whether or not it is null, and runs one population step with that step's guarantees |
| ActorPool.ActorPoolSubsystem.PopulatePool | Source/ActorPool/ActorPoolSubsystem.cpp:93-121 | appends the successes of `PopulateBatch` attempts; with a non-zero budget adds at most `max(0, min(SpawnPerFrame, NumActorsToPool - total))` and keeps a total at or below the target there; acquire counters unchanged; reschedules iff the total is still below the target |
| ActorPool.ActorPoolSubsystem.GetActorFromPool | Source/ActorPool/ActorPoolSubsystem.cpp:123-146 | on an empty pool returns null and leaves the live, handed-out and peak counters unchanged; otherwise returns the top of the stack, raises the live and handed-out counts by one and the peak to the live count; calls replenish iff the post-pop size is below `MinActorsInPool`, never when that is 0; the stack is the popped stack plus the replenished actors |
| ActorPool.ActorPoolSubsystem.ReturnActorToPool | Source/ActorPool/ActorPoolSubsystem.cpp:148-159 | a null or pending-kill actor changes nothing; a valid one is pushed on top, one more is idle and returned, one fewer is live, and no other counter changes |
| ActorPool.ActorPoolSubsystem.ReplenishPool | Source/ActorPool/ActorPoolSubsystem.cpp:161-182 | appends the successes of `ReplenishBatch` attempts: at most `max(0, min(SpawnAdditionalPerFrame, MinActorsInPool - size))` actors, never lifting the stack above `MinActorsInPool`; reschedules iff the system's total is below `NumActorsToPool` |
| Scenarios.RunPopulation | Source/ActorPool/ActorPoolSubsystem.cpp:116-120 | re-running population while it reschedules, with every spawn succeeding and a positive budget, ends with exactly the target spawned and idle after ceil(target / budget) frames, one for an empty target |
| Scenarios.PopulationFrames | Source/ActorPool/ActorPoolSubsystem.cpp:93-121 | the same frame count and final state for a freshly configured subsystem |
| Scenarios.DefaultPopulationTakesTwentyFrames | Source/ActorPool/ActorPoolSubsystem.h:53-59 | with the default 2000 actors at 100 per frame, population takes exactly 20 frames and leaves 2000 idle actors |
| Scenarios.UnbudgetedPopulationIsOneFrame | Source/ActorPool/ActorPoolSubsystem.h:64-65 | with `SpawnPerFrame == 0` and every spawn succeeding, one frame spawns the whole pool and does not reschedule |
| Scenarios.UnbudgetedPopulationCanOvershoot | Source/ActorPool/ActorPoolSubsystem.cpp:98-120 | with `SpawnPerFrame == 0`, one failed spawn among 2 leads to a second full frame and 3 actors for a target of 2 |
| Scenarios.ReturnThenAcquire | Source/ActorPool/ActorPoolSubsystem.cpp:123-159 | on any valid pool at or above its low-water mark, returning an actor and then acquiring gives that actor back, does not replenish, and restores the stack, the live count and the spawn total |
| Scenarios.PopulationCanStall | Source/ActorPool/ActorPoolSubsystem.cpp:93-121 | with every spawn failing (a null class), or with a negative per-frame budget, each of two population frames spawns nothing and asks to be rescheduled |
| Scenarios.ReplenishmentEndsStalledPopulation | Source/ActorPool/ActorPoolSubsystem.cpp:93-182 | with a negative per-frame budget population reschedules without spawning, but an acquire below the mark replenishes regardless, and once that brings the total to the target the next population frame stops rescheduling |
| Scenarios.LastReturnedIsFirstAcquired | Source/ActorPool/ActorPoolSubsystem.cpp:123-159 | Return(A), Return(B), Acquire() gives B; the replenishment it triggers pushes its spawn on top of A |
| Scenarios.DoubleReturnIsAccepted | Source/ActorPool/ActorPoolSubsystem.cpp:148-159 | returning the same valid actor twice to a fresh pool leaves it idle twice and the live count at -2 |
| Scenarios.InvalidReturnsAreDropped | Source/ActorPool/ActorPoolSubsystem.cpp:150-158 | returning a null actor and a pending-kill actor leaves the pool empty and every statistic at 0 |
| Scenarios.LowWaterMarkReplenishesOne | Source/ActorPool/ActorPoolSubsystem.cpp:139-144 | with the defaults, after population 500 acquires never replenish; the 501st brings the stack to 1499, replenishes one actor back to 1500 and takes the spawn total to 2001, and then does not reschedule; the peak live count is 501 |

## Left out

- `PrintStats`: on-screen debug output only.
- `Initialize`, `Deinitialize` and `ShouldCreateSubsystem`: engine lifecycle hooks. `Deinitialize` only calls the engine's `Destroy` on each idle actor.
- `Spawn` and `Despawn`: they set the location and activate or deactivate the actor around `GetActorFromPool` and `ReturnActorToPool`, which are modelled.
- `SpawnActor`: engine world spawning, collision handling, the cast and deactivation. The model replaces it with the spawn oracle. That oracle promises no fresh handle, which the code does not rely on either.
- The timer manager: only the request to run again next tick is modelled. How the population and replenishment loops interleave across ticks is up to the scheduler.
- The spawn oracle does not depend on `classToSpawn`: the engine fails every spawn of a null class, but the model leaves the outcomes to the caller, who must pass failures for a null class.
- The null-class warning in `InitializePool` and the class cast in its public wrapper: logging and engine types only.
- 32-bit wrap-around of the `int32` counters and configuration values: they are unbounded integers here.
- The module registration file and the build target file: not part of the pool's logic.
