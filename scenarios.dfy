/** Scenarios that drive a fresh subsystem through several calls, with a
    spawn oracle chosen per scenario, and state what the calls add up to.
    The loops stand for the engine's timer manager re-running a step for as
    long as it asks to be rescheduled. */
module Scenarios {
  import opened ActorPool

  /** A spawn oracle in which all `count` attempts succeed, with distinct
      handles numbered from `first`. */
  function AllSucceed(first: nat, count: nat): (outcomes: seq<Option<Actor>>)
    ensures |outcomes| == count
    ensures Successes(outcomes) == seq(count, i requires 0 <= i => Actor(first + i))
  {
    var outcomes := seq(count, i requires 0 <= i => Some(Actor(first + i)));
    assert forall i :: 0 <= i < count ==> outcomes[i].Some?;
    SuccessesAll(outcomes);
    outcomes
  }

  lemma {:induction false} SuccessesAll(outcomes: seq<Option<Actor>>)
    requires forall i :: 0 <= i < |outcomes| ==> outcomes[i].Some?
    ensures Successes(outcomes) == seq(|outcomes|, i requires 0 <= i < |outcomes| => outcomes[i].value)
  {
    if outcomes != [] {
      SuccessesAll(outcomes[1..]);
    }
  }

  lemma {:induction false} SuccessesNone(outcomes: seq<Option<Actor>>)
    requires forall i :: 0 <= i < |outcomes| ==> outcomes[i].None?
    ensures Successes(outcomes) == []
  {
    if outcomes != [] {
      SuccessesNone(outcomes[1..]);
    }
  }

  /** Initial population of a fresh subsystem whose spawns all succeed, run
      until it stops rescheduling itself. */
  method RunPopulation(pool: ActorPoolSubsystem, cls: ActorClass) returns (frames: nat)
    requires pool.Valid()
    requires pool.pooledObjects == [] && pool.totalActorsSpawnedBySystem == 0
    requires pool.numActorsToPool >= 0 && pool.spawnPerFrame > 0
    modifies pool
    ensures pool.Valid()
    ensures pool.totalActorsSpawnedBySystem == pool.numActorsToPool
    ensures |pool.pooledObjects| == pool.numActorsToPool
    ensures pool.numActorsToPool == 0 ==> frames == 1
    ensures pool.numActorsToPool > 0 ==>
      (frames - 1) * pool.spawnPerFrame < pool.numActorsToPool <= frames * pool.spawnPerFrame
    ensures pool.currentActorsSpawned == old(pool.currentActorsSpawned)
    ensures pool.maxActorsSpawned == old(pool.maxActorsSpawned)
    ensures pool.totalActorsSpawned == old(pool.totalActorsSpawned)
    ensures pool.totalActorsDespawned == old(pool.totalActorsDespawned)
  {
    var n, budget := pool.numActorsToPool, pool.spawnPerFrame;
    var rescheduled := pool.InitializePool(Some(cls), AllSucceed(0, Attempts(PopulateBatch(n, budget, 0))));
    frames := 1;
    ghost var quota := budget;
    while rescheduled
      invariant pool.Valid()
      invariant frames >= 1
      invariant n == 0 ==> frames == 1
      invariant quota == frames * budget
      invariant pool.totalActorsSpawnedBySystem == Min(quota, n)
      invariant |pool.pooledObjects| == pool.totalActorsSpawnedBySystem
      invariant rescheduled <==> pool.totalActorsSpawnedBySystem < n
      invariant n > 0 ==> quota - budget < n
      invariant pool.currentActorsSpawned == old(pool.currentActorsSpawned)
      invariant pool.maxActorsSpawned == old(pool.maxActorsSpawned)
      invariant pool.totalActorsSpawned == old(pool.totalActorsSpawned)
      invariant pool.totalActorsDespawned == old(pool.totalActorsDespawned)
      decreases n - pool.totalActorsSpawnedBySystem
    {
      var total := pool.totalActorsSpawnedBySystem;
      rescheduled := pool.PopulatePool(AllSucceed(total, Attempts(PopulateBatch(n, budget, total))));
      assert (frames + 1) * budget == quota + budget;
      frames, quota := frames + 1, quota + budget;
    }
  }

  /** With a per-frame budget and a reliable spawner, initial population
      fills the pool to exactly its target in ceil(target / budget) frames
      (one frame for an empty target). */
  method PopulationFrames(numActorsToPool: int, spawnPerFrame: int) returns (frames: nat, spawned: int, idle: nat)
    requires numActorsToPool >= 0 && spawnPerFrame > 0
    ensures spawned == numActorsToPool && idle == numActorsToPool
    ensures numActorsToPool == 0 ==> frames == 1
    ensures numActorsToPool > 0 ==> (frames - 1) * spawnPerFrame < numActorsToPool <= frames * spawnPerFrame
  {
    var pool := new ActorPoolSubsystem.WithConfig(numActorsToPool, spawnPerFrame, 0, 0);
    frames := RunPopulation(pool, ActorClass("Character"));
    spawned, idle := pool.totalActorsSpawnedBySystem, |pool.pooledObjects|;
  }

  /** The default configuration populates 2000 actors in 20 frames. */
  method DefaultPopulationTakesTwentyFrames() returns (frames: nat, spawned: int, idle: nat)
    ensures frames == 20 && spawned == 2000 && idle == 2000
  {
    var pool := new ActorPoolSubsystem();
    frames := RunPopulation(pool, ActorClass("Character"));
    spawned, idle := pool.totalActorsSpawnedBySystem, |pool.pooledObjects|;
  }

  /** With a zero per-frame budget and a reliable spawner, one frame spawns
      the whole pool and does not reschedule. */
  method UnbudgetedPopulationIsOneFrame(numActorsToPool: nat) returns (rescheduled: bool, spawned: int, idle: nat)
    ensures !rescheduled && spawned == numActorsToPool && idle == numActorsToPool
  {
    var pool := new ActorPoolSubsystem.WithConfig(numActorsToPool, 0, 0, 0);
    rescheduled := pool.InitializePool(Some(ActorClass("Character")), AllSucceed(0, numActorsToPool));
    spawned, idle := pool.totalActorsSpawnedBySystem, |pool.pooledObjects|;
  }

  /** With a zero per-frame budget, a frame that leaves the total below the
      target reschedules, and the next frame attempts the whole target again:
      here the first frame spawns 1 of 2, and the second spawns 2 more. */
  method UnbudgetedPopulationCanOvershoot() returns (rescheduled: bool, spawned: int, target: int)
    ensures !rescheduled && spawned == 3 && target == 2
  {
    var pool := new ActorPoolSubsystem.WithConfig(2, 0, 0, 0);
    var first := pool.InitializePool(Some(ActorClass("Character")), [Some(Actor(0)), None]);
    assert Successes([Some(Actor(0)), None]) == [Actor(0)];
    assert first;
    var outcomes := [Some(Actor(1)), Some(Actor(2))];
    assert Successes(outcomes) == [Actor(1), Actor(2)];
    rescheduled := pool.PopulatePool(outcomes);
    spawned, target := pool.totalActorsSpawnedBySystem, pool.numActorsToPool;
  }

  /** On any valid pool at or above its low-water mark, returning an actor and
      acquiring right after hands the same actor back without replenishing,
      and leaves the stack and the live count as they were. */
  method ReturnThenAcquire(pool: ActorPoolSubsystem, a: Actor) returns (got: Option<Actor>, replenished: bool)
    requires pool.Valid()
    requires |pool.pooledObjects| >= pool.minActorsInPool
    modifies pool
    ensures pool.Valid()
    ensures got == Some(a) && !replenished
    ensures pool.pooledObjects == old(pool.pooledObjects)
    ensures pool.currentActorsSpawned == old(pool.currentActorsSpawned)
    ensures pool.totalActorsSpawnedBySystem == old(pool.totalActorsSpawnedBySystem)
  {
    pool.ReturnActorToPool(Some(a), {});
    PopAfterPush(old(pool.pooledObjects), a);
    var rescheduled;
    got, replenished, rescheduled := pool.GetActorFromPool([]);
  }

  /** Population makes no progress when every spawn fails, as it does for a
      null class, or when the per-frame budget is negative; each of two
      frames spawns nothing and asks to be rescheduled again, so the
      population loop on its own never ends. */
  method PopulationCanStall() returns (failingFrames: seq<bool>, failingSpawned: int, negativeFrames: seq<bool>, negativeSpawned: int)
    ensures failingFrames == [true, true] && failingSpawned == 0
    ensures negativeFrames == [true, true] && negativeSpawned == 0
  {
    var pool := new ActorPoolSubsystem();
    var failed: seq<Option<Actor>> := seq(100, i => None);
    assert failed[..100] == failed;
    SuccessesNone(failed);
    var first := pool.InitializePool(None, failed);
    var second := pool.PopulatePool(failed);
    failingFrames, failingSpawned := [first, second], pool.totalActorsSpawnedBySystem;

    var stuck := new ActorPoolSubsystem.WithConfig(2000, -1, 1500, 1);
    first := stuck.InitializePool(Some(ActorClass("Character")), []);
    second := stuck.PopulatePool([]);
    negativeFrames, negativeSpawned := [first, second], stuck.totalActorsSpawnedBySystem;
  }

  /** A negative per-frame budget does not stall population for good: an
      acquire below the low-water mark replenishes regardless of that budget,
      and once its spawns bring the total to the target, the next population
      frame stops rescheduling. */
  method ReplenishmentEndsStalledPopulation(a: Actor, b: Actor) returns (stalled: bool, replenished: bool, spawned: int, stillRescheduled: bool)
    ensures stalled && replenished && spawned == 2 && !stillRescheduled
  {
    var pool := new ActorPoolSubsystem.WithConfig(2, -1, 2, 2);
    stalled := pool.InitializePool(Some(ActorClass("Character")), []);
    var outcomes := [Some(a), Some(b)];
    assert outcomes[..2] == outcomes;
    assert Successes(outcomes) == [a, b];
    var _, didReplenish, _ := pool.GetActorFromPool(outcomes);
    replenished, spawned := didReplenish, pool.totalActorsSpawnedBySystem;
    stillRescheduled := pool.PopulatePool([]);
  }

  /** Return A, return B, acquire with the default configuration: B comes
      out, and the replenishment that the acquire triggers (one idle actor is
      below the mark of 1500) pushes its spawn on top of A. */
  method LastReturnedIsFirstAcquired(a: Actor, b: Actor, c: Actor) returns (got: Option<Actor>, replenished: bool, idle: seq<Actor>)
    ensures got == Some(b) && replenished && idle == [a, c]
  {
    var pool := new ActorPoolSubsystem();
    pool.ReturnActorToPool(Some(a), {});
    pool.ReturnActorToPool(Some(b), {});
    var rescheduled;
    got, replenished, rescheduled := pool.GetActorFromPool([Some(c)]);
    assert Successes([Some(c)]) == [c];
    idle := pool.pooledObjects;
  }

  /** A second return of the same valid actor is accepted: the handle is
      idle twice and the live count goes below zero. */
  method DoubleReturnIsAccepted(a: Actor) returns (idle: seq<Actor>, live: int, returned: int)
    ensures idle == [a, a] && live == -2 && returned == 2
  {
    var pool := new ActorPoolSubsystem();
    pool.ReturnActorToPool(Some(a), {});
    pool.ReturnActorToPool(Some(a), {});
    idle, live, returned := pool.pooledObjects, pool.currentActorsSpawned, pool.totalActorsDespawned;
  }

  /** A null or pending-kill actor is dropped: nothing is pooled or counted. */
  method InvalidReturnsAreDropped(a: Actor) returns (idle: seq<Actor>, stats: Stats)
    ensures idle == [] && stats == Stats(0, 0, 0, 0, 0, 0)
  {
    var pool := new ActorPoolSubsystem();
    pool.ReturnActorToPool(None, {});
    pool.ReturnActorToPool(Some(a), {a});
    idle, stats := pool.pooledObjects, pool.Snapshot();
  }

  /** Default configuration, fully populated: 500 acquires leave 1500 idle
      actors and never replenish; the 501st drops the pool to 1499, so it
      replenishes one actor back to 1500, which takes the system's spawn
      total past the 2000 target, and then stops rescheduling. */
  method LowWaterMarkReplenishesOne() returns (replenished: bool, rescheduled: bool, idle: nat, spawned: int, peak: int)
    ensures replenished && !rescheduled
    ensures idle == 1500 && spawned == 2001 && peak == 501
  {
    var pool := new ActorPoolSubsystem();
    var _ := RunPopulation(pool, ActorClass("Character"));
    var k := 0;
    while k < 500
      invariant 0 <= k <= 500
      invariant pool.Valid()
      invariant |pool.pooledObjects| == 2000 - k
      invariant pool.totalActorsSpawnedBySystem == 2000
      invariant pool.currentActorsSpawned == k && pool.maxActorsSpawned == k
    {
      var _, _, _ := pool.GetActorFromPool([]);
      k := k + 1;
    }
    var _, didReplenish, didReschedule := pool.GetActorFromPool([Some(Actor(2000))]);
    replenished, rescheduled := didReplenish, didReschedule;
    assert Successes([Some(Actor(2000))]) == [Actor(2000)];
    idle, spawned, peak := |pool.pooledObjects|, pool.totalActorsSpawnedBySystem, pool.maxActorsSpawned;
  }
}
