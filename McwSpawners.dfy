/**
 * The spawner record of the Java tree (`model/Spawner.java`): plain fields
 * with setters, three stored-count mutators that clamp, and an upgrade map
 * read with a default of 0. Plain setters are field assignments here;
 * `State()` gives the value of the mutable fields.
 */
module McwSpawners {
  import opened Common
  import opened Locations
  import S = Spawners

  /** The mutable part of a Java spawner, as a value. */
  datatype SpawnerState = SpawnerState(
    entityType: S.EntityType,
    levels: map<string, int>,
    spawnDelay: int,
    spawnCount: int,
    maxNearby: int,
    range: int,
    storageEnabled: bool,
    maxStorage: int,
    stored: int,
    lastSpawn: int,
    lastRelease: int,
    active: bool,
    mode: S.SpawnMode,
    preciseX: real,
    preciseY: real,
    preciseZ: real)

  /** The state the constructor gives a spawner at time `now`. */
  function DefaultState(entityType: S.EntityType, now: int): SpawnerState {
    SpawnerState(entityType, map[], 100, 1, 6, 16, false, 100, 0, now, now, true, S.Random, 0.0, 1.0, 0.0)
  }

  /** `upgradeLevels.getOrDefault(key, 0)`. */
  function LevelIn(levels: map<string, int>, key: string): (r: int)
    ensures key !in levels ==> r == 0
    ensures key in levels ==> r == levels[key]
  {
    if key in levels then levels[key] else 0
  }

  class Spawner {
    var id: int
    const owner: S.PlayerId
    const spawnerType: S.SpawnerType
    var entityType: S.EntityType
    const location: Location
    var upgradeLevels: map<string, int>
    var spawnDelay: int
    var spawnCount: int
    var maxNearbyEntities: int
    var activationRange: int
    var storageEnabled: bool
    var maxStorage: int
    var storedSpawns: int
    var lastSpawnTime: int
    var lastReleaseTime: int
    var active: bool
    var spawnMode: S.SpawnMode
    var preciseX: real
    var preciseY: real
    var preciseZ: real

    function State(): SpawnerState
      reads this
    {
      SpawnerState(entityType, upgradeLevels, spawnDelay, spawnCount, maxNearbyEntities, activationRange,
                   storageEnabled, maxStorage, storedSpawns, lastSpawnTime, lastReleaseTime, active,
                   spawnMode, preciseX, preciseY, preciseZ)
    }

    /**
     * `Spawner(id, owner, type, entityType, location)`: active, random mode,
     * precise offset (0, 1, 0), delay 100, count 1, nearby cap 6, range 16,
     * storage off with capacity 100, nothing stored, both clocks at `now`.
     * The id-less constructor is this one with id 0.
     */
    constructor (id: int, owner: S.PlayerId, spawnerType: S.SpawnerType, entityType: S.EntityType,
                 location: Location, now: int)
      ensures this.id == id && this.owner == owner && this.spawnerType == spawnerType && this.location == location
      ensures State() == DefaultState(entityType, now)
    {
      this.id := id;
      this.owner := owner;
      this.spawnerType := spawnerType;
      this.entityType := entityType;
      this.location := location;
      upgradeLevels := map[];
      storedSpawns := 0;
      lastSpawnTime := now;
      lastReleaseTime := now;
      active := true;
      spawnMode := S.Random;
      preciseX := 0.0;
      preciseY := 1.0;
      preciseZ := 0.0;
      spawnDelay := 100;
      spawnCount := 1;
      maxNearbyEntities := 6;
      activationRange := 16;
      storageEnabled := false;
      maxStorage := 100;
    }

    /** `getUpgradeLevel(upgradeType)`: `getOrDefault(upgradeType, 0)`. */
    function GetUpgradeLevel(upgradeType: string): (r: int)
      reads this
      ensures upgradeType !in upgradeLevels ==> r == 0
    {
      LevelIn(upgradeLevels, upgradeType)
    }

    /** `setUpgradeLevel(upgradeType, level)`: the level is stored as given, with no clamp. */
    method SetUpgradeLevel(upgradeType: string, level: int)
      modifies this
      ensures State() == old(State()).(levels := old(upgradeLevels)[upgradeType := level])
      ensures GetUpgradeLevel(upgradeType) == level
      ensures forall k :: k != upgradeType ==> GetUpgradeLevel(k) == old(GetUpgradeLevel(k))
    {
      upgradeLevels := upgradeLevels[upgradeType := level];
    }

    /** `setStoredSpawns(n)`: capped at `maxStorage`, with no floor. */
    method SetStoredSpawns(n: int)
      modifies this
      ensures State() == old(State()).(stored := Min(n, old(maxStorage)))
      ensures storedSpawns <= maxStorage
      ensures n <= maxStorage ==> storedSpawns == n
    {
      storedSpawns := Min(n, maxStorage);
    }

    /** `addStoredSpawns(amount)`: capped at `maxStorage`. */
    method AddStoredSpawns(amount: int)
      modifies this
      ensures State() == old(State()).(stored := Min(old(storedSpawns) + amount, old(maxStorage)))
      ensures storedSpawns <= maxStorage
    {
      storedSpawns := Min(storedSpawns + amount, maxStorage);
    }

    /** `removeStoredSpawns(amount)`: floored at 0. */
    method RemoveStoredSpawns(amount: int)
      modifies this
      ensures State() == old(State()).(stored := Max(0, old(storedSpawns) - amount))
      ensures storedSpawns >= 0
      ensures amount >= 0 ==> storedSpawns <= Max(0, old(storedSpawns))
    {
      storedSpawns := Max(0, storedSpawns - amount);
    }
  }
}
