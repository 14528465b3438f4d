/**
 * The spawner record of `model/Spawner.kt`: a Kotlin data class whose `var`
 * fields the tick, the upgrade manager and the GUI update in place. It is a
 * class here; `State()` gives the value of its mutable fields, and each
 * mutator states the new value in terms of the old one.
 */
module Spawners {
  import opened Common
  import opened Locations
  import opened LinkedMaps

  datatype SpawnerType = Normal | Premium
  datatype SpawnMode = Random | Precise

  /** A Bukkit `EntityType`, by its constant name. */
  type EntityType = string

  /** A player's UUID. */
  type PlayerId = nat

  /** The defaults of the data class's primary constructor. */
  const DEFAULT_DELAY: int := 200
  const DEFAULT_COUNT: int := 6
  const DEFAULT_MAX_NEARBY: int := 5
  const DEFAULT_RANGE: int := 8
  const DEFAULT_MAX_STORAGE: int := 5

  /** The mutable part of a spawner, as a value. */
  datatype SpawnerState = SpawnerState(
    entityType: EntityType,
    levels: Entries,
    spawnDelay: int,
    spawnCount: int,
    maxNearby: int,
    range: int,
    storageEnabled: bool,
    maxStorage: int,
    stored: int,
    released: int,
    lastSpawn: int,
    lastRelease: int,
    active: bool,
    mode: SpawnMode,
    preciseX: real,
    preciseY: real,
    preciseZ: real)

  /** The state `Spawner.create` gives a new spawner at time `now`. */
  function CreatedState(entityType: EntityType, now: int): SpawnerState {
    SpawnerState(entityType, [], DEFAULT_DELAY, DEFAULT_COUNT, DEFAULT_MAX_NEARBY, DEFAULT_RANGE,
                 true, DEFAULT_MAX_STORAGE, 0, 0, now, now, true, Random, 0.0, 1.0, 0.0)
  }

  class Spawner {
    var id: int
    const owner: PlayerId
    const spawnerType: SpawnerType
    var entityType: EntityType
    const location: Location
    var upgradeLevels: Entries
    var spawnDelay: int
    var spawnCount: int
    var maxNearbyEntities: int
    var activationRange: int
    var storageEnabled: bool
    var maxStorage: int
    var storedSpawns: int
    var storedSpawnsReleased: int
    var lastSpawnTime: int
    var lastReleaseTime: int
    var active: bool
    var spawnMode: SpawnMode
    var preciseX: real
    var preciseY: real
    var preciseZ: real

    /**
     * The upgrade map is a map (distinct keys), and the stored count is never
     * negative: every mutator keeps it at zero or above.
     */
    ghost predicate Valid()
      reads this
    {
      DistinctKeys(upgradeLevels) && storedSpawns >= 0
    }

    function State(): SpawnerState
      reads this
    {
      SpawnerState(entityType, upgradeLevels, spawnDelay, spawnCount, maxNearbyEntities, activationRange,
                   storageEnabled, maxStorage, storedSpawns, storedSpawnsReleased, lastSpawnTime,
                   lastReleaseTime, active, spawnMode, preciseX, preciseY, preciseZ)
    }

    /**
     * The primary constructor followed by the `init` block, which raises the
     * nearby cap, the range, the delay, the count and the capacity to at least 1.
     * The `init` block leaves `storedSpawns` as given; a negative count is
     * outside `Valid()`, which every operation on the stored count keeps.
     */
    constructor (owner: PlayerId, spawnerType: SpawnerType, entityType: EntityType, location: Location,
                 upgradeLevels: Entries, spawnDelay: int, spawnCount: int, maxNearbyEntities: int,
                 activationRange: int, storageEnabled: bool, maxStorage: int, storedSpawns: int,
                 storedSpawnsReleased: int, lastSpawnTime: int, lastReleaseTime: int, active: bool,
                 spawnMode: SpawnMode, preciseX: real, preciseY: real, preciseZ: real)
      requires DistinctKeys(upgradeLevels) && storedSpawns >= 0
      ensures Valid()
      ensures this.id == 0 && this.owner == owner && this.spawnerType == spawnerType && this.location == location
      ensures State() == SpawnerState(entityType, upgradeLevels,
                                      CoerceAtLeast(spawnDelay, 1), CoerceAtLeast(spawnCount, 1),
                                      CoerceAtLeast(maxNearbyEntities, 1), CoerceAtLeast(activationRange, 1),
                                      storageEnabled, CoerceAtLeast(maxStorage, 1), storedSpawns,
                                      storedSpawnsReleased, lastSpawnTime, lastReleaseTime, active,
                                      spawnMode, preciseX, preciseY, preciseZ)
    {
      this.id := 0;
      this.owner := owner;
      this.spawnerType := spawnerType;
      this.entityType := entityType;
      this.location := location;
      this.upgradeLevels := upgradeLevels;
      this.storageEnabled := storageEnabled;
      this.storedSpawns := storedSpawns;
      this.storedSpawnsReleased := storedSpawnsReleased;
      this.lastSpawnTime := lastSpawnTime;
      this.lastReleaseTime := lastReleaseTime;
      this.active := active;
      this.spawnMode := spawnMode;
      this.preciseX := preciseX;
      this.preciseY := preciseY;
      this.preciseZ := preciseZ;
      // the `init` block's coercions, applied as the fields are first set
      this.spawnDelay := CoerceAtLeast(spawnDelay, 1);
      this.spawnCount := CoerceAtLeast(spawnCount, 1);
      this.maxNearbyEntities := CoerceAtLeast(maxNearbyEntities, 1);
      this.activationRange := CoerceAtLeast(activationRange, 1);
      this.maxStorage := CoerceAtLeast(maxStorage, 1);
    }

    /** `Spawner.create`: every field at its default, both timestamps `now`. */
    static method Create(location: Location, owner: PlayerId, spawnerType: SpawnerType,
                         entityType: EntityType, now: int) returns (s: Spawner)
      ensures fresh(s) && s.Valid()
      ensures s.id == 0 && s.owner == owner && s.spawnerType == spawnerType && s.location == location
      ensures s.State() == CreatedState(entityType, now)
    {
      s := new Spawner(owner, spawnerType, entityType, location, [], DEFAULT_DELAY, DEFAULT_COUNT,
                       DEFAULT_MAX_NEARBY, DEFAULT_RANGE, true, DEFAULT_MAX_STORAGE, 0, 0, now, now,
                       true, Random, 0.0, 1.0, 0.0);
    }

    /** `normalizeLocation()`: the registry key of this spawner. */
    function NormalizeLocation(): (k: Location)
      ensures IsNormalized(k)
      ensures k.world == location.world && k.x == BlockX(location) as real
              && k.y == BlockY(location) as real && k.z == BlockZ(location) as real
    {
      NormalizeIdempotent(location);
      Normalize(location)
    }

    /** `getUpgradeLevel(t)`: the stored level, 0 for an upgrade never bought. */
    function GetUpgradeLevel(upgradeType: string): (r: int)
      reads this
      ensures HasKey(upgradeLevels, upgradeType) ==> Get(upgradeLevels, upgradeType) == Some(r)
      ensures !HasKey(upgradeLevels, upgradeType) ==> r == 0
    {
      GetOrZero(upgradeLevels, upgradeType)
    }

    /** `setUpgradeLevel(t, level)`: stores `max(0, level)` under `t` and changes nothing else. */
    method SetUpgradeLevel(upgradeType: string, level: int)
      requires Valid()
      modifies this
      ensures Valid()
      ensures State() == old(State()).(levels := Put(old(upgradeLevels), upgradeType, Max(0, level)))
      ensures GetUpgradeLevel(upgradeType) == Max(0, level) >= 0
      ensures forall t :: t != upgradeType ==> GetUpgradeLevel(t) == old(GetUpgradeLevel(t))
    {
      PutKeepsDistinct(upgradeLevels, upgradeType, Max(0, level));
      upgradeLevels := Put(upgradeLevels, upgradeType, Max(0, level));
    }

    /**
     * `updateStoredSpawns(amount)`: the count becomes `amount` clamped to
     * `[0, maxStorage]`. Kotlin's `coerceIn` throws when `maxStorage` is
     * negative; `ok` is false then and nothing changes.
     */
    method UpdateStoredSpawns(amount: int) returns (ok: bool)
      requires Valid()
      modifies this
      ensures Valid()
      ensures ok <==> maxStorage >= 0
      ensures ok ==> State() == old(State()).(stored := CoerceIn(amount, 0, maxStorage))
      ensures ok ==> 0 <= storedSpawns <= maxStorage
      ensures !ok ==> State() == old(State())
    {
      ok := maxStorage >= 0;
      if ok {
        storedSpawns := CoerceIn(amount, 0, maxStorage);
      }
    }

    /** `addStoredSpawns(amount)`: the count moves by `amount`, clamped to `[0, maxStorage]`. */
    method AddStoredSpawns(amount: int) returns (ok: bool)
      requires Valid()
      modifies this
      ensures Valid()
      ensures ok <==> maxStorage >= 0
      ensures ok ==> State() == old(State()).(stored := CoerceIn(old(storedSpawns) + amount, 0, maxStorage))
      ensures ok ==> 0 <= storedSpawns <= maxStorage
      ensures !ok ==> State() == old(State())
    {
      ok := maxStorage >= 0;
      if ok {
        storedSpawns := CoerceIn(storedSpawns + amount, 0, maxStorage);
      }
    }

    /** `removeStoredSpawns(amount)`: the count drops by `amount` but never below zero. */
    method RemoveStoredSpawns(amount: int)
      requires Valid()
      modifies this
      ensures Valid()
      ensures State() == old(State()).(stored := Max(0, old(storedSpawns) - amount))
    {
      storedSpawns := Max(0, storedSpawns - amount);
    }
  }
}
