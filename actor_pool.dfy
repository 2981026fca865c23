/** A model of the actor pool world subsystem: an idle stack of actor handles,
    six usage statistics, and the two frame-budgeted spawning procedures
    (initial population and low-water-mark replenishment).

    The engine's spawn call is an oracle: every attempted spawn consumes the
    next element of a `seq<Option<Actor>>`, `None` standing for a failed spawn.
    "Run me again next tick" is returned as a `rescheduled` flag, and an
    actor's pending-kill state is given as the set of actors on which
    `Destroy` has been called. */
module ActorPool {

  datatype Option<T> = None | Some(value: T)

  /** An opaque actor handle. */
  datatype Actor = Actor(id: nat)

  /** The class the pool instantiates. */
  datatype ActorClass = ActorClass(name: string)

  /** The six statistics counters, as read by a caller. */
  datatype Stats = Stats(
    actorsInPool: int,
    currentActorsSpawned: int,
    maxActorsSpawned: int,
    totalActorsSpawned: int,
    totalActorsDespawned: int,
    totalActorsSpawnedBySystem: int)

  function Min(a: int, b: int): int { if a <= b then a else b }

  function Max(a: int, b: int): int { if a <= b then b else a }

  /** How many times a `for (int i = 0; i < count; i++)` loop runs. */
  function Attempts(count: int): nat
  {
    if count <= 0 then 0 else count
  }

  /** The actors that a run of spawn attempts adds to the pool, in order:
      failed attempts contribute nothing. */
  function Successes(outcomes: seq<Option<Actor>>): (spawned: seq<Actor>)
    ensures |spawned| <= |outcomes|
    ensures |spawned| == |outcomes| <==> forall i :: 0 <= i < |outcomes| ==> outcomes[i].Some?
    ensures forall a :: a in spawned <==> Some(a) in outcomes
  {
    if outcomes == [] then []
    else
      var rest := Successes(outcomes[1..]);
      assert forall i :: 1 <= i < |outcomes| ==> outcomes[i] == outcomes[1..][i - 1];
      assert forall o :: o in outcomes <==> o == outcomes[0] || o in outcomes[1..];
      if outcomes[0].Some? then [outcomes[0].value] + rest else rest
  }

  /** One more spawn attempt extends the spawned actors by its success, if any. */
  lemma {:induction false} SuccessesSnoc(outcomes: seq<Option<Actor>>, o: Option<Actor>)
    ensures Successes(outcomes + [o]) == Successes(outcomes) + (if o.Some? then [o.value] else [])
  {
    if outcomes == [] {
      assert outcomes + [o] == [o];
      assert [o][1..] == [];
    } else {
      assert (outcomes + [o])[0] == outcomes[0];
      assert (outcomes + [o])[1..] == outcomes[1..] + [o];
      SuccessesSnoc(outcomes[1..], o);
    }
  }

  /** The number of spawns `PopulatePool` attempts in one frame: the whole
      target when the per-frame budget is zero, otherwise the budget capped
      by what is left to spawn. */
  function PopulateBatch(numActorsToPool: int, spawnPerFrame: int, spawnedBySystem: int): (batch: int)
    ensures spawnPerFrame == 0 ==> batch == numActorsToPool
    ensures spawnPerFrame != 0 ==> Attempts(batch) <= Max(0, spawnPerFrame)
    ensures spawnPerFrame != 0 ==> spawnedBySystem + Attempts(batch) <= Max(numActorsToPool, spawnedBySystem)
    ensures spawnPerFrame > 0 && spawnedBySystem < numActorsToPool ==> batch > 0
  {
    if spawnPerFrame != 0 then Min(spawnPerFrame, numActorsToPool - spawnedBySystem) else numActorsToPool
  }

  /** The number of spawns `ReplenishPool` attempts in one frame: the
      per-frame budget capped by the distance to the low-water mark. */
  function ReplenishBatch(minActorsInPool: int, spawnAdditionalPerFrame: int, idle: int): (batch: int)
    ensures Attempts(batch) <= Max(0, spawnAdditionalPerFrame)
    ensures idle + Attempts(batch) <= Max(minActorsInPool, idle)
    ensures idle >= minActorsInPool ==> Attempts(batch) == 0
    ensures spawnAdditionalPerFrame > 0 && idle < minActorsInPool ==> batch > 0
  {
    Min(spawnAdditionalPerFrame, minActorsInPool - idle)
  }

  /** The idle stack after a `Pop`, which on an empty stack is not done. */
  function Popped(idle: seq<Actor>): (rest: seq<Actor>)
    ensures idle == [] ==> rest == []
    ensures idle != [] ==> rest + [idle[|idle| - 1]] == idle
  {
    if idle == [] then [] else idle[..|idle| - 1]
  }

  /** Last in, first out: popping right after a push yields the pushed actor
      and leaves the stack as it was. */
  lemma PopAfterPush(idle: seq<Actor>, a: Actor)
    ensures (idle + [a])[|idle + [a]| - 1] == a
    ensures Popped(idle + [a]) == idle
  {
  }

  class ActorPoolSubsystem {
    // Configuration, fixed when the subsystem is created.
    const numActorsToPool: int
    const spawnPerFrame: int
    const minActorsInPool: int
    const spawnAdditionalPerFrame: int

    var classToSpawn: Option<ActorClass>

    /** The idle actors, used as a stack: the last element is handed out next. */
    var pooledObjects: seq<Actor>

    var actorsInPool: int
    var currentActorsSpawned: int
    var maxActorsSpawned: int
    var totalActorsSpawned: int
    var totalActorsDespawned: int
    var totalActorsSpawnedBySystem: int

    /** The counter bookkeeping every operation keeps. */
    ghost predicate Valid()
      reads this
    {
      && actorsInPool == |pooledObjects|
      // every actor the system spawned is either idle or handed out
      && actorsInPool + currentActorsSpawned == totalActorsSpawnedBySystem
      && currentActorsSpawned == totalActorsSpawned - totalActorsDespawned
      && currentActorsSpawned <= maxActorsSpawned <= totalActorsSpawned
      && 0 <= maxActorsSpawned
      && 0 <= totalActorsDespawned
      && 0 <= totalActorsSpawnedBySystem
    }

    function Snapshot(): Stats
      reads this
    {
      Stats(actorsInPool, currentActorsSpawned, maxActorsSpawned,
            totalActorsSpawned, totalActorsDespawned, totalActorsSpawnedBySystem)
    }

    /** A subsystem with the default configuration: an empty pool and all
        statistics at zero. */
    constructor ()
      ensures Valid()
      ensures numActorsToPool == 2000 && spawnPerFrame == 100
      ensures minActorsInPool == 1500 && spawnAdditionalPerFrame == 1
      ensures classToSpawn == None && pooledObjects == []
      ensures Snapshot() == Stats(0, 0, 0, 0, 0, 0)
    {
      numActorsToPool, spawnPerFrame := 2000, 100;
      minActorsInPool, spawnAdditionalPerFrame := 1500, 1;
      classToSpawn, pooledObjects := None, [];
      actorsInPool, currentActorsSpawned, maxActorsSpawned := 0, 0, 0;
      totalActorsSpawned, totalActorsDespawned, totalActorsSpawnedBySystem := 0, 0, 0;
    }

    /** A subsystem whose configuration defaults were overridden. */
    constructor WithConfig(numToPool: int, perFrame: int, minInPool: int, additionalPerFrame: int)
      ensures Valid()
      ensures numActorsToPool == numToPool && spawnPerFrame == perFrame
      ensures minActorsInPool == minInPool && spawnAdditionalPerFrame == additionalPerFrame
      ensures classToSpawn == None && pooledObjects == []
      ensures Snapshot() == Stats(0, 0, 0, 0, 0, 0)
    {
      numActorsToPool, spawnPerFrame := numToPool, perFrame;
      minActorsInPool, spawnAdditionalPerFrame := minInPool, additionalPerFrame;
      classToSpawn, pooledObjects := None, [];
      actorsInPool, currentActorsSpawned, maxActorsSpawned := 0, 0, 0;
      totalActorsSpawned, totalActorsDespawned, totalActorsSpawnedBySystem := 0, 0, 0;
    }

    /** Runs `count` spawn attempts, pushing every spawned actor onto the
        idle stack and counting it in `actorsInPool` and
        `totalActorsSpawnedBySystem`. */
    method SpawnActors(count: int, spawns: seq<Option<Actor>>)
      requires Valid()
      requires Attempts(count) <= |spawns|
      modifies this
      ensures Valid()
      ensures pooledObjects == old(pooledObjects) + Successes(spawns[..Attempts(count)])
      ensures totalActorsSpawnedBySystem == old(totalActorsSpawnedBySystem) + |Successes(spawns[..Attempts(count)])|
      ensures currentActorsSpawned == old(currentActorsSpawned) && maxActorsSpawned == old(maxActorsSpawned)
      ensures totalActorsSpawned == old(totalActorsSpawned) && totalActorsDespawned == old(totalActorsDespawned)
      ensures classToSpawn == old(classToSpawn)
    {
      var i := 0;
      while i < count
        invariant 0 <= i <= Attempts(count)
        invariant Valid()
        invariant pooledObjects == old(pooledObjects) + Successes(spawns[..i])
        invariant totalActorsSpawnedBySystem == old(totalActorsSpawnedBySystem) + |Successes(spawns[..i])|
        invariant currentActorsSpawned == old(currentActorsSpawned) && maxActorsSpawned == old(maxActorsSpawned)
        invariant totalActorsSpawned == old(totalActorsSpawned) && totalActorsDespawned == old(totalActorsDespawned)
        invariant classToSpawn == old(classToSpawn)
      {
        var actor := spawns[i];
        if actor.Some? {
          actorsInPool := actorsInPool + 1;
          totalActorsSpawnedBySystem := totalActorsSpawnedBySystem + 1;
          pooledObjects := pooledObjects + [actor.value];
        }
        assert spawns[..i + 1] == spawns[..i] + [spawns[i]];
        SuccessesSnoc(spawns[..i], spawns[i]);
        i := i + 1;
      }
    }

    /** Records the class to spawn and runs the first population step. */
    method InitializePool(inClassToSpawn: Option<ActorClass>, spawns: seq<Option<Actor>>) returns (rescheduled: bool)
      requires Valid()
      requires Attempts(PopulateBatch(numActorsToPool, spawnPerFrame, totalActorsSpawnedBySystem)) <= |spawns|
      modifies this
      ensures Valid()
      ensures classToSpawn == inClassToSpawn
      ensures var spawned := Successes(spawns[..Attempts(PopulateBatch(numActorsToPool, spawnPerFrame, old(totalActorsSpawnedBySystem)))]);
        && pooledObjects == old(pooledObjects) + spawned
        && totalActorsSpawnedBySystem == old(totalActorsSpawnedBySystem) + |spawned|
      ensures currentActorsSpawned == old(currentActorsSpawned) && maxActorsSpawned == old(maxActorsSpawned)
      ensures totalActorsSpawned == old(totalActorsSpawned) && totalActorsDespawned == old(totalActorsDespawned)
      ensures rescheduled <==> totalActorsSpawnedBySystem < numActorsToPool
    {
      classToSpawn := inClassToSpawn;
      rescheduled := PopulatePool(spawns);
    }

    /** One frame of initial population. */
    method PopulatePool(spawns: seq<Option<Actor>>) returns (rescheduled: bool)
      requires Valid()
      requires Attempts(PopulateBatch(numActorsToPool, spawnPerFrame, totalActorsSpawnedBySystem)) <= |spawns|
      modifies this
      ensures Valid()
      ensures var spawned := Successes(spawns[..Attempts(PopulateBatch(numActorsToPool, spawnPerFrame, old(totalActorsSpawnedBySystem)))]);
        && pooledObjects == old(pooledObjects) + spawned
        && totalActorsSpawnedBySystem == old(totalActorsSpawnedBySystem) + |spawned|
      ensures spawnPerFrame != 0 ==>
        totalActorsSpawnedBySystem - old(totalActorsSpawnedBySystem)
          <= Max(0, Min(spawnPerFrame, numActorsToPool - old(totalActorsSpawnedBySystem)))
      ensures spawnPerFrame != 0 && old(totalActorsSpawnedBySystem) <= numActorsToPool ==>
        totalActorsSpawnedBySystem <= numActorsToPool
      ensures currentActorsSpawned == old(currentActorsSpawned) && maxActorsSpawned == old(maxActorsSpawned)
      ensures totalActorsSpawned == old(totalActorsSpawned) && totalActorsDespawned == old(totalActorsDespawned)
      ensures classToSpawn == old(classToSpawn)
      ensures rescheduled <==> totalActorsSpawnedBySystem < numActorsToPool
    {
      var leftToSpawn := numActorsToPool - totalActorsSpawnedBySystem;
      var spawnThisFrame := numActorsToPool;
      if spawnPerFrame != 0 {
        spawnThisFrame := Min(spawnPerFrame, leftToSpawn);
      }
      SpawnActors(spawnThisFrame, spawns);
      rescheduled := totalActorsSpawnedBySystem < numActorsToPool;
    }

    /** Hands out the most recently pooled actor, or `None` when the pool is
        empty, then starts replenishment when the idle stack is below the
        low-water mark. `replenished` tells whether `ReplenishPool` ran and
        `rescheduled` whether it asked for another frame. */
    method GetActorFromPool(spawns: seq<Option<Actor>>) returns (actor: Option<Actor>, replenished: bool, rescheduled: bool)
      requires Valid()
      requires Attempts(ReplenishBatch(minActorsInPool, spawnAdditionalPerFrame, |Popped(pooledObjects)|)) <= |spawns|
      modifies this
      ensures Valid()
      ensures old(pooledObjects) == [] ==> actor == None
      ensures old(pooledObjects) != [] ==> actor == Some(old(pooledObjects)[|old(pooledObjects)| - 1])
      ensures old(pooledObjects) == [] ==>
        && currentActorsSpawned == old(currentActorsSpawned)
        && totalActorsSpawned == old(totalActorsSpawned)
        && maxActorsSpawned == old(maxActorsSpawned)
      ensures old(pooledObjects) != [] ==>
        && currentActorsSpawned == old(currentActorsSpawned) + 1
        && totalActorsSpawned == old(totalActorsSpawned) + 1
        && maxActorsSpawned == Max(old(maxActorsSpawned), currentActorsSpawned)
      ensures totalActorsDespawned == old(totalActorsDespawned)
      ensures replenished <==> |Popped(old(pooledObjects))| < minActorsInPool
      ensures minActorsInPool <= 0 ==> !replenished
      ensures var spawned := Successes(spawns[..Attempts(ReplenishBatch(minActorsInPool, spawnAdditionalPerFrame, |Popped(old(pooledObjects))|))]);
        && (!replenished ==> spawned == [])
        && pooledObjects == Popped(old(pooledObjects)) + spawned
        && totalActorsSpawnedBySystem == old(totalActorsSpawnedBySystem) + |spawned|
      ensures rescheduled <==> replenished && totalActorsSpawnedBySystem < numActorsToPool
      ensures classToSpawn == old(classToSpawn)
    {
      actor := None;
      if |pooledObjects| > 0 {
        actor := Some(pooledObjects[|pooledObjects| - 1]);
        pooledObjects := pooledObjects[..|pooledObjects| - 1];

        actorsInPool := actorsInPool - 1;
        currentActorsSpawned := currentActorsSpawned + 1;
        totalActorsSpawned := totalActorsSpawned + 1;
        if currentActorsSpawned > maxActorsSpawned {
          maxActorsSpawned := currentActorsSpawned;
        }
      }

      replenished := |pooledObjects| < minActorsInPool;
      rescheduled := false;
      if replenished {
        rescheduled := ReplenishPool(spawns);
      }
    }

    /** Pushes `actor` back onto the idle stack, unless it is null or pending
        kill, in which case nothing changes. */
    method ReturnActorToPool(actor: Option<Actor>, killed: set<Actor>)
      requires Valid()
      modifies this
      ensures Valid()
      ensures actor.None? || actor.value in killed ==> unchanged(this)
      ensures actor.Some? && actor.value !in killed ==>
        && pooledObjects == old(pooledObjects) + [actor.value]
        && Snapshot() == old(Snapshot()).(
             actorsInPool := old(actorsInPool) + 1,
             totalActorsDespawned := old(totalActorsDespawned) + 1,
             currentActorsSpawned := old(currentActorsSpawned) - 1)
      ensures classToSpawn == old(classToSpawn)
    {
      if actor.Some? && actor.value !in killed {
        actorsInPool := actorsInPool + 1;
        totalActorsDespawned := totalActorsDespawned + 1;
        currentActorsSpawned := currentActorsSpawned - 1;

        pooledObjects := pooledObjects + [actor.value];
      }
    }

    /** One frame of low-water-mark replenishment. */
    method ReplenishPool(spawns: seq<Option<Actor>>) returns (rescheduled: bool)
      requires Valid()
      requires Attempts(ReplenishBatch(minActorsInPool, spawnAdditionalPerFrame, |pooledObjects|)) <= |spawns|
      modifies this
      ensures Valid()
      ensures var spawned := Successes(spawns[..Attempts(ReplenishBatch(minActorsInPool, spawnAdditionalPerFrame, |old(pooledObjects)|))]);
        && pooledObjects == old(pooledObjects) + spawned
        && totalActorsSpawnedBySystem == old(totalActorsSpawnedBySystem) + |spawned|
      ensures |pooledObjects| - |old(pooledObjects)| <= Max(0, Min(spawnAdditionalPerFrame, minActorsInPool - |old(pooledObjects)|))
      ensures |pooledObjects| <= Max(minActorsInPool, |old(pooledObjects)|)
      ensures currentActorsSpawned == old(currentActorsSpawned) && maxActorsSpawned == old(maxActorsSpawned)
      ensures totalActorsSpawned == old(totalActorsSpawned) && totalActorsDespawned == old(totalActorsDespawned)
      ensures classToSpawn == old(classToSpawn)
      ensures rescheduled <==> totalActorsSpawnedBySystem < numActorsToPool
    {
      var leftToSpawn := minActorsInPool - |pooledObjects|;
      var spawnThisFrame := Min(spawnAdditionalPerFrame, leftToSpawn);
      SpawnActors(spawnThisFrame, spawns);
      rescheduled := totalActorsSpawnedBySystem < numActorsToPool;
    }
  }
}
