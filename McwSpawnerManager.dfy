/**
 * `manager/SpawnerManager.java` of the `src/main/java` tree: the registry
 * of spawners by normalised block location with an owner index, the
 * repeating task that hands the spawners to `processSpawner` a batch at a
 * time, one spawner's tick (storage, spawning and release), and the
 * spawning itself.
 *
 * The world and the clock are inputs: a `Probe` holds what one call of
 * `processSpawner` sees, a `ConditionGate` what `spawnEntities` sees, and
 * the `Math.random()` draws are a parameter. Map iteration orders are
 * parameters that enumerate the map in question.
 */
module McwSpawnerManager {
  import opened Common
  import opened Locations
  import S = Spawners
  import Sp = McwSpawners
  import R = Registry
  import T = Ticks

  // ---------------------------------------------------------------------
  // Configuration and creation

  /** The `spawning` keys of `config.yml` the manager reads; `None` when absent. */
  datatype SpawningConfig = SpawningConfig(
    defaultSpawnDelay: Option<int>,
    defaultSpawnCount: Option<int>,
    defaultMaxNearby: Option<int>,
    defaultActivationRange: Option<int>,
    storageEnabled: Option<bool>,
    defaultMaxStorage: Option<int>,
    releaseInterval: Option<int>)

  /** `spawning.storage.release_interval`, default 20 ticks. */
  function ReleaseInterval(c: SpawningConfig): int { c.releaseInterval.GetOr(20) }

  /**
   * The state `createSpawner` gives a new spawner: the constructor's state
   * with the four configured parameters, and, while storage is enabled in
   * the config (the default), storage on with the configured capacity.
   */
  function CreatedState(entityType: S.EntityType, now: int, c: SpawningConfig): Sp.SpawnerState {
    Configured(Sp.DefaultState(entityType, now), c)
  }

  /** The setter calls of `createSpawner`, applied to a state. */
  function Configured(st: Sp.SpawnerState, c: SpawningConfig): Sp.SpawnerState {
    WithStorage(WithParams(st, c), c)
  }

  function WithParams(st: Sp.SpawnerState, c: SpawningConfig): Sp.SpawnerState {
    st.(spawnDelay := c.defaultSpawnDelay.GetOr(100), spawnCount := c.defaultSpawnCount.GetOr(1),
        maxNearby := c.defaultMaxNearby.GetOr(6), range := c.defaultActivationRange.GetOr(16))
  }

  function WithStorage(st: Sp.SpawnerState, c: SpawningConfig): Sp.SpawnerState {
    if c.storageEnabled.GetOr(true) then st.(storageEnabled := true, maxStorage := c.defaultMaxStorage.GetOr(100)) else st
  }

  /**
   * With no `spawning` keys a new spawner has the constructor's defaults
   * except that storage is on; with storage switched off it keeps the
   * constructor's storage settings.
   */
  lemma CreatedStateDefaults(entityType: S.EntityType, now: int, c: SpawningConfig)
    ensures c == SpawningConfig(None, None, None, None, None, None, None) ==>
              CreatedState(entityType, now, c) == Sp.DefaultState(entityType, now).(storageEnabled := true)
    ensures c.storageEnabled == Some(false) ==>
              !CreatedState(entityType, now, c).storageEnabled && CreatedState(entityType, now, c).maxStorage == 100
    ensures CreatedState(entityType, now, c).stored == 0 && CreatedState(entityType, now, c).levels == map[]
    ensures CreatedState(entityType, now, c).active && CreatedState(entityType, now, c).mode == S.Random
  {
  }

  /** The key `loadAllSpawners` files a spawner under, and the owner it indexes it for. */
  function KeyOf(s: Sp.Spawner): Location { Normalize(s.location) }

  function OwnerOf(s: Sp.Spawner): S.PlayerId { s.owner }

  // ---------------------------------------------------------------------
  // One spawner's tick

  /** What one run of `processSpawner` sees. */
  datatype Probe = Probe(
    worldLoaded: bool,     // the location's world is loaded
    isSpawnerBlock: bool,  // the block there is still a SPAWNER
    hasPlayer: bool,       // getNearbyPlayers(loc, range) is not empty
    nearbyCount: int,      // entities of the spawner's type within range
    now: int,              // System.currentTimeMillis() in processSpawner
    releaseNow: int)       // System.currentTimeMillis() in releaseStoredSpawns

  /** The spawn delay, in ticks of 50 ms, has passed since the last spawn. */
  predicate DelayElapsed(st: Sp.SpawnerState, now: int) {
    now - st.lastSpawn >= st.spawnDelay * 50
  }

  /** The storing step: one more stored unit, up to capacity, once the delay has passed. */
  function Accumulated(st: Sp.SpawnerState, now: int): Sp.SpawnerState {
    if st.storageEnabled && DelayElapsed(st, now) then st.(stored := Min(st.stored + 1, st.maxStorage), lastSpawn := now)
    else st
  }

  /** A spawner's state after one tick, and whether `spawnEntities` was called to spawn and to release. */
  datatype TickResult = TickResult(st: Sp.SpawnerState, spawned: bool, released: bool)

  /** `releaseStoredSpawns`: one stored unit per release interval. */
  function ReleaseStep(st: Sp.SpawnerState, now: int, interval: int): TickResult {
    if now - st.lastRelease >= interval * 50 && st.stored > 0 then
      TickResult(st.(stored := Max(0, st.stored - 1), lastRelease := now), false, true)
    else TickResult(st, false, false)
  }

  /** The tick of a spawner whose world is loaded and whose block is still a spawner. */
  function Tick(st: Sp.SpawnerState, p: Probe, interval: int): TickResult {
    if !p.hasPlayer then
      TickResult(if !st.active then Accumulated(st, p.now) else st, false, false)
    else if st.active then
      var spawn := DelayElapsed(st, p.now) && p.nearbyCount < st.maxNearby;
      var st1 := if spawn then st.(lastSpawn := p.now) else st;
      if st1.stored > 0 then ReleaseStep(st1, p.releaseNow, interval).(spawned := spawn)
      else TickResult(st1, spawn, false)
    else
      TickResult(Accumulated(st, p.now), false, false)
  }

  /**
   * An inactive spawner ignores players: with or without one nearby it
   * only stores, exactly as `Accumulated` says, and never spawns.
   */
  lemma InactiveIgnoresPlayers(st: Sp.SpawnerState, p: Probe, interval: int)
    requires !st.active
    ensures Tick(st, p.(hasPlayer := true), interval) == Tick(st, p.(hasPlayer := false), interval)
    ensures Tick(st, p, interval) == TickResult(Accumulated(st, p.now), false, false)
  {
  }

  /** Without a player nearby an active spawner is left alone. */
  lemma ActiveIdleWithoutPlayers(st: Sp.SpawnerState, p: Probe, interval: int)
    requires st.active && !p.hasPlayer
    ensures Tick(st, p, interval) == TickResult(st, false, false)
  {
  }

  /**
   * A spawn is requested exactly when a player is near an active spawner
   * whose delay has passed and whose surroundings hold fewer than its cap;
   * `lastSpawn` moves only to `now`, and only on a spawn or a stored unit.
   */
  lemma SpawnExactlyWhenDue(st: Sp.SpawnerState, p: Probe, interval: int)
    ensures Tick(st, p, interval).spawned <==> p.hasPlayer && st.active && DelayElapsed(st, p.now) && p.nearbyCount < st.maxNearby
    ensures var r := Tick(st, p, interval).st;
            r.lastSpawn == st.lastSpawn || (r.lastSpawn == p.now && DelayElapsed(st, p.now))
  {
  }

  /**
   * The stored count stays within 0..maxStorage and moves by at most one;
   * a release takes exactly one unit and stamps `lastRelease`; a unit is
   * stored only by an inactive spawner with storage on. Nothing but
   * `stored`, `lastSpawn` and `lastRelease` ever changes.
   */
  lemma TickKeepsStorage(st: Sp.SpawnerState, p: Probe, interval: int)
    requires 0 <= st.stored <= st.maxStorage
    ensures var r := Tick(st, p, interval);
            && 0 <= r.st.stored <= r.st.maxStorage
            && st.stored - 1 <= r.st.stored <= st.stored + 1
            && (r.released <==> r.st.stored == st.stored - 1)
            && (r.released ==> r.st.lastRelease == p.releaseNow && st.active && p.hasPlayer)
            && (!r.released ==> r.st.lastRelease == st.lastRelease)
            && (r.st.stored > st.stored ==> !st.active && st.storageEnabled && DelayElapsed(st, p.now))
            && r.st == st.(stored := r.st.stored, lastSpawn := r.st.lastSpawn, lastRelease := r.st.lastRelease)
  {
  }

  // ---------------------------------------------------------------------
  // Spawning

  /** What `spawnEntities` sees when its scheduled task runs. */
  datatype ConditionGate = ConditionGate(
    playersNearby: bool,                                   // getNearbyPlayers(loc, range) is not empty
    bypass: bool,                                          // the first of them holds mcw.bypass.conditions
    normalEntities: Option<map<S.EntityType, seq<string>>>, // normal_entities.yml, its conditions by entity
    premiumEntities: Option<map<S.EntityType, seq<string>>>,
    holds: string -> bool)                                 // evaluatePAPICondition for that player

  /** `getStringList("entities.<type>.conditions")`: the empty list when absent. */
  function ConditionsOf(cfg: map<S.EntityType, seq<string>>, e: S.EntityType): seq<string> {
    if e in cfg then cfg[e] else []
  }

  /** `checkPAPIConditions`: every condition holds; the empty list passes. */
  predicate PassesAll(holds: string -> bool, conditions: seq<string>) {
    forall i :: 0 <= i < |conditions| ==> holds(conditions[i])
  }

  /**
   * The conditions gate: it applies only when a player is near, that
   * player has no bypass, and the spawner type's entity config is loaded.
   */
  predicate SpawnAllowed(g: ConditionGate, t: S.SpawnerType, e: S.EntityType) {
    var cfg := if t == S.Normal then g.normalEntities else g.premiumEntities;
    !g.playersNearby || g.bypass || cfg.None? || PassesAll(g.holds, ConditionsOf(cfg.value, e))
  }

  /** A spawn is refused exactly when one listed condition fails for a nearby player without bypass. */
  lemma GateRefusesOnFailedCondition(g: ConditionGate, t: S.SpawnerType, e: S.EntityType)
    ensures !SpawnAllowed(g, t, e) <==>
              var cfg := if t == S.Normal then g.normalEntities else g.premiumEntities;
              g.playersNearby && !g.bypass && cfg.Some? &&
              exists i :: 0 <= i < |ConditionsOf(cfg.value, e)| && !g.holds(ConditionsOf(cfg.value, e)[i])
  {
  }

  /**
   * `loc.clone().add(dx, dy, dz)`: precise mode adds the stored offset;
   * random mode adds `(random - 0.5) * 4`, `random * 2` and
   * `(random - 0.5) * 4`.
   */
  function SpawnTarget(loc: Location, st: Sp.SpawnerState, d: T.Draw): Location {
    if st.mode == S.Precise then loc.(x := loc.x + st.preciseX, y := loc.y + st.preciseY, z := loc.z + st.preciseZ)
    else loc.(x := loc.x + (d.x - 0.5) * 4.0, y := loc.y + d.y * 2.0, z := loc.z + (d.z - 0.5) * 4.0)
  }

  /**
   * A random target lies in the box two blocks to either side and up to two
   * above the spawner, in its world and orientation; a precise target is
   * the spawner's location moved by exactly the offset, whatever the draw.
   */
  lemma SpawnTargetBounds(loc: Location, st: Sp.SpawnerState, d: T.Draw, d': T.Draw)
    ensures var t := SpawnTarget(loc, st, d);
            t.world == loc.world && t.yaw == loc.yaw && t.pitch == loc.pitch
    ensures st.mode == S.Random ==>
              var t := SpawnTarget(loc, st, d);
              loc.x - 2.0 <= t.x < loc.x + 2.0 && loc.y <= t.y < loc.y + 2.0 && loc.z - 2.0 <= t.z < loc.z + 2.0
    ensures st.mode == S.Precise ==>
              SpawnTarget(loc, st, d) == SpawnTarget(loc, st, d') &&
              SpawnTarget(loc, st, d).x - loc.x == st.preciseX && SpawnTarget(loc, st, d).y - loc.y == st.preciseY &&
              SpawnTarget(loc, st, d).z - loc.z == st.preciseZ
  {
  }

  /**
   * `spawnEntities(spawner)`: nothing when the gate refuses; otherwise
   * `spawnCount` entities of the spawner's type, the i-th at the target of
   * draw i. The spawner itself is not changed.
   */
  method SpawnEntities(s: Sp.Spawner, g: ConditionGate, draws: nat -> T.Draw) returns (emitted: seq<T.Emission>)
    ensures !SpawnAllowed(g, s.spawnerType, s.entityType) ==> emitted == []
    ensures SpawnAllowed(g, s.spawnerType, s.entityType) ==>
              |emitted| == Max(0, s.spawnCount) &&
              forall i :: 0 <= i < |emitted| ==> emitted[i] == T.Emission(SpawnTarget(s.location, s.State(), draws(i)), s.entityType)
  {
    var loc := s.location;
    var entity := s.entityType;
    var count := s.spawnCount;
    emitted := [];
    if g.playersNearby && !g.bypass {
      var entityConfig := if s.spawnerType == S.Normal then g.normalEntities else g.premiumEntities;
      if entityConfig.Some? {
        var conditions := ConditionsOf(entityConfig.value, entity);
        var ok := CheckPAPIConditions(g.holds, conditions);
        if !ok {
          return;
        }
      }
    }
    var i := 0;
    while i < count
      invariant 0 <= i && (count >= 0 ==> i <= count) && (count < 0 ==> i == 0)
      invariant |emitted| == i
      invariant forall j :: 0 <= j < i ==> emitted[j] == T.Emission(SpawnTarget(loc, s.State(), draws(j)), entity)
    {
      var spawnLoc;
      if s.spawnMode == S.Precise {
        spawnLoc := loc.(x := loc.x + s.preciseX, y := loc.y + s.preciseY, z := loc.z + s.preciseZ);
      } else {
        var d := draws(i);
        spawnLoc := loc.(x := loc.x + (d.x - 0.5) * 4.0, y := loc.y + d.y * 2.0, z := loc.z + (d.z - 0.5) * 4.0);
      }
      emitted := emitted + [T.Emission(spawnLoc, entity)];
      i := i + 1;
    }
  }

  /** The loop of `checkPAPIConditions`: false at the first condition that fails. */
  method CheckPAPIConditions(holds: string -> bool, conditions: seq<string>) returns (ok: bool)
    ensures ok <==> PassesAll(holds, conditions)
  {
    if conditions == [] {
      return true;
    }
    for i := 0 to |conditions|
      invariant forall j :: 0 <= j < i ==> holds(conditions[j])
    {
      if !holds(conditions[i]) {
        return false;
      }
    }
    return true;
  }

  // ---------------------------------------------------------------------
  // Registry helpers

  /** The keys of `order` that hold a spawner, in order. */
  function LiveKeys(order: seq<Location>, m: map<Location, Sp.Spawner>): (r: seq<Location>)
    ensures forall k :: k in r <==> k in order && k in m
    ensures |r| <= |order|
  {
    if order == [] then []
    else LiveKeys(order[..|order| - 1], m) + (if order[|order| - 1] in m then [order[|order| - 1]] else [])
  }

  /** The keys among `keys` whose spawner has type `t`, in order. */
  function KeysOfType(keys: seq<Location>, m: map<Location, Sp.Spawner>, t: S.SpawnerType): (r: seq<Location>)
    requires forall k :: k in keys ==> k in m
    ensures forall k :: k in r <==> k in keys && m[k].spawnerType == t
  {
    if keys == [] then []
    else KeysOfType(keys[..|keys| - 1], m, t) + (if m[keys[|keys| - 1]].spawnerType == t then [keys[|keys| - 1]] else [])
  }

  lemma LiveKeysStep(order: seq<Location>, i: nat, m: map<Location, Sp.Spawner>)
    requires i < |order|
    ensures LiveKeys(order[..i + 1], m) == LiveKeys(order[..i], m) + (if order[i] in m then [order[i]] else [])
  {
    assert order[..i + 1][..i] == order[..i];
  }

  lemma KeysOfTypeStep(keys: seq<Location>, i: nat, m: map<Location, Sp.Spawner>, t: S.SpawnerType)
    requires i < |keys| && forall k :: k in keys ==> k in m
    ensures forall k :: k in keys[..i + 1] ==> k in m
    ensures KeysOfType(keys[..i + 1], m, t) == KeysOfType(keys[..i], m, t) + (if m[keys[i]].spawnerType == t then [keys[i]] else [])
  {
    assert keys[..i + 1][..i] == keys[..i];
  }

  predicate Distinct<X(==)>(s: seq<X>) {
    forall i, j :: 0 <= i < j < |s| ==> s[i] != s[j]
  }

  lemma {:induction false} LiveKeysDistinct(order: seq<Location>, m: map<Location, Sp.Spawner>)
    requires Distinct(order)
    ensures Distinct(LiveKeys(order, m))
    decreases |order|
  {
    if order != [] {
      var init := order[..|order| - 1];
      assert Distinct(init);
      LiveKeysDistinct(init, m);
      assert order[|order| - 1] !in init;
    }
  }

  lemma {:induction false} KeysOfTypeDistinct(keys: seq<Location>, m: map<Location, Sp.Spawner>, t: S.SpawnerType)
    requires forall k :: k in keys ==> k in m
    requires Distinct(keys)
    ensures Distinct(KeysOfType(keys, m, t))
    decreases |keys|
  {
    if keys != [] {
      var init := keys[..|keys| - 1];
      assert Distinct(init);
      assert forall k :: k in init ==> k in keys;
      KeysOfTypeDistinct(init, m, t);
      assert keys[|keys| - 1] !in init;
    }
  }

  /** A sequence without repeats has as many elements as the set of its elements. */
  lemma {:induction false} DistinctCard(s: seq<Location>)
    requires Distinct(s)
    ensures |set k | k in s| == |s|
    decreases |s|
  {
    if s != [] {
      var init := s[..|s| - 1];
      assert Distinct(init);
      DistinctCard(init);
      assert (set k | k in s) == (set k | k in init) + {s[|s| - 1]};
      assert s[|s| - 1] !in init;
    }
  }

  /** Two locations with a world of the same name and the same block coordinates (`getSpawner`'s fallback test). */
  predicate SameBlockByName(k: Location, n: Location) {
    k.world.Some? && n.world.Some? && k.world.value.name == n.world.value.name &&
    BlockX(k) == BlockX(n) && BlockY(k) == BlockY(n) && BlockZ(k) == BlockZ(n)
  }

  /** The first key of `order` that passes the fallback test. */
  function FirstMatch(order: seq<Location>, n: Location): (r: Option<Location>)
    ensures r.Some? ==> r.value in order && SameBlockByName(r.value, n)
    ensures r.None? <==> forall i :: 0 <= i < |order| ==> !SameBlockByName(order[i], n)
  {
    if order == [] then None
    else if SameBlockByName(order[0], n) then Some(order[0])
    else FirstMatch(order[1..], n)
  }

  /** What `getSpawner(location)` returns: the exact key, else the first key of the same named world and block. */
  function Lookup(m: map<Location, Sp.Spawner>, order: seq<Location>, location: Location): Option<Sp.Spawner>
    requires forall k :: k in order ==> k in m
  {
    var key := Normalize(location);
    if key in m then Some(m[key])
    else if key.world.None? then None
    else match FirstMatch(order, key)
      case None => None
      case Some(k) => Some(m[k])
  }

  /**
   * A spawner is found exactly when one is filed under the location's own
   * key or under a key of a same-named world and the same block; what is
   * found always sits in that block.
   */
  lemma LookupSpec(m: map<Location, Sp.Spawner>, order: seq<Location>, location: Location)
    requires forall k :: k in order <==> k in m
    requires forall k :: k in m ==> Normalize(m[k].location) == k
    ensures Lookup(m, order, location).Some? <==>
              Normalize(location) in m || exists k :: k in m && SameBlockByName(k, Normalize(location))
    ensures Lookup(m, order, location).Some? ==>
              var found := Normalize(Lookup(m, order, location).value.location);
              found == Normalize(location) || SameBlockByName(found, Normalize(location))
  {
    var key := Normalize(location);
    if key !in m && key.world.Some? {
      if FirstMatch(order, key).None? {
        forall k | k in m
          ensures !SameBlockByName(k, key)
        {
          var i :| 0 <= i < |order| && order[i] == k;
        }
      }
    }
  }

  // ---------------------------------------------------------------------
  // The manager

  class SpawnerManager {
    var spawners: map<Location, Sp.Spawner>
    var playerSpawners: map<S.PlayerId, set<Location>>

    /** Every spawner is filed under its own normalised location. */
    ghost predicate Valid()
      reads this
    {
      forall k :: k in spawners ==> Normalize(spawners[k].location) == k
    }

    constructor ()
      ensures Valid()
      ensures spawners == map[] && playerSpawners == map[]
    {
      spawners := map[];
      playerSpawners := map[];
    }

    /** `shutdown()` after the save: both maps are cleared. */
    method Shutdown()
      modifies this
      ensures Valid()
      ensures spawners == map[] && playerSpawners == map[]
    {
      spawners := map[];
      playerSpawners := map[];
    }

    /**
     * The loop of `loadAllSpawners()`: each loaded spawner is filed under its
     * normalised location and indexed for its owner, in list order.
     */
    method LoadAllSpawners(loaded: seq<Sp.Spawner>)
      requires Valid()
      modifies this
      ensures Valid()
      ensures spawners == R.FiledAll(old(spawners), loaded, KeyOf)
      ensures playerSpawners == R.IndexedAll(old(playerSpawners), loaded, KeyOf, OwnerOf)
    {
      for i := 0 to |loaded|
        invariant Valid()
        invariant spawners == R.FiledAll(old(spawners), loaded[..i], KeyOf)
        invariant playerSpawners == R.IndexedAll(old(playerSpawners), loaded[..i], KeyOf, OwnerOf)
      {
        assert loaded[..i + 1][..i] == loaded[..i];
        File(loaded[i]);
      }
      assert loaded[..|loaded|] == loaded;
    }

    /** One spawner of `loadAllSpawners`: `spawners.put` and `computeIfAbsent(owner).add`. */
    method File(s: Sp.Spawner)
      requires Valid()
      modifies this
      ensures Valid()
      ensures spawners == old(spawners)[Normalize(s.location) := s]
      ensures playerSpawners == R.Indexed(old(playerSpawners), s.owner, Normalize(s.location))
    {
      var normalizedLoc := Normalize(s.location);
      spawners := spawners[normalizedLoc := s];
      playerSpawners := R.Indexed(playerSpawners, s.owner, normalizedLoc);
    }

    /**
     * `createSpawner(location, owner, type, entityType)`: a spawner at the
     * normalised location with the configured defaults, filed in both maps.
     */
    method CreateSpawner(location: Location, owner: S.PlayerId, t: S.SpawnerType, entityType: S.EntityType,
                         c: SpawningConfig, now: int) returns (s: Sp.Spawner)
      requires Valid()
      modifies this
      ensures Valid() && fresh(s)
      ensures s.id == 0 && s.owner == owner && s.spawnerType == t && s.location == Normalize(location)
      ensures s.State() == CreatedState(entityType, now, c)
      ensures spawners == old(spawners)[Normalize(location) := s]
      ensures playerSpawners == R.Indexed(old(playerSpawners), owner, Normalize(location))
    {
      var normalizedLoc := Normalize(location);
      s := new Sp.Spawner(0, owner, t, entityType, normalizedLoc, now);
      ApplyConfigDefaults(s, c);
      NormalizeIdempotent(location);
      spawners := spawners[normalizedLoc := s];
      playerSpawners := R.Indexed(playerSpawners, owner, normalizedLoc);
    }

    /** The setter calls of `createSpawner` on the new spawner. */
    static method ApplyConfigDefaults(s: Sp.Spawner, c: SpawningConfig)
      modifies s
      ensures s.State() == Configured(old(s.State()), c) && s.id == old(s.id)
    {
      ApplyParams(s, c);
      if c.storageEnabled.GetOr(true) {
        s.storageEnabled := true;
        s.maxStorage := c.defaultMaxStorage.GetOr(100);
      }
    }

    static method ApplyParams(s: Sp.Spawner, c: SpawningConfig)
      modifies s
      ensures s.State() == WithParams(old(s.State()), c) && s.id == old(s.id)
    {
      s.spawnDelay := c.defaultSpawnDelay.GetOr(100);
      s.spawnCount := c.defaultSpawnCount.GetOr(1);
      s.maxNearbyEntities := c.defaultMaxNearby.GetOr(6);
      s.activationRange := c.defaultActivationRange.GetOr(16);
    }

    /**
     * `removeSpawner(location)`: when the block holds a spawner, its key
     * leaves the main map and its owner's index; otherwise nothing changes.
     */
    method RemoveSpawner(location: Location)
      requires Valid()
      modifies this
      ensures Valid()
      ensures Normalize(location) !in old(spawners) ==> spawners == old(spawners) && playerSpawners == old(playerSpawners)
      ensures Normalize(location) in old(spawners) ==>
                spawners == old(spawners) - {Normalize(location)} &&
                playerSpawners == R.Unindexed(old(playerSpawners), old(spawners)[Normalize(location)].owner, Normalize(location))
      ensures !IsSpawner(location)
    {
      var normalizedLoc := Normalize(location);
      if normalizedLoc in spawners {
        var spawner := spawners[normalizedLoc];
        spawners := spawners - {normalizedLoc};
        playerSpawners := R.Unindexed(playerSpawners, spawner.owner, normalizedLoc);
      }
    }

    /** `isSpawner(location)`. */
    predicate IsSpawner(location: Location)
      reads this
    {
      Normalize(location) in spawners
    }

    /** Every point of a block agrees on whether it holds a spawner, and a created spawner is seen from all of them. */
    lemma IsSpawnerByBlock(a: Location, b: Location)
      ensures a.world == b.world && BlockX(a) == BlockX(b) && BlockY(a) == BlockY(b) && BlockZ(a) == BlockZ(b) ==>
                (IsSpawner(a) <==> IsSpawner(b))
      ensures IsSpawner(a) ==> forall order :: (forall k :: k in order ==> k in spawners) ==>
                Lookup(spawners, order, a) == Some(spawners[Normalize(a)])
    {
      SameKeyIffSameBlock(a, b);
    }

    /**
     * `getSpawner(location)`: the exact lookup, then, for a location with a
     * world, the first entry in iteration order `order` whose key is in a
     * world of the same name and in the same block.
     */
    method GetSpawner(location: Location, order: seq<Location>) returns (r: Option<Sp.Spawner>)
      requires forall k :: k in order <==> k in spawners
      ensures r == Lookup(spawners, order, location)
    {
      var normalizedLoc := Normalize(location);
      if normalizedLoc in spawners {
        return Some(spawners[normalizedLoc]);
      }
      r := None;
      if normalizedLoc.world.Some? {
        for i := 0 to |order|
          invariant FirstMatch(order, normalizedLoc) == FirstMatch(order[i..], normalizedLoc)
        {
          var loc := order[i];
          if SameBlockByName(loc, normalizedLoc) {
            return Some(spawners[loc]);
          }
          assert order[i..][1..] == order[i + 1..];
        }
      }
    }

    /**
     * `getPlayerSpawners(player)`: the spawners behind the owner's index
     * keys that are still registered, in the index's iteration order
     * `order`.
     */
    method GetPlayerSpawners(player: S.PlayerId, order: seq<Location>) returns (result: seq<Sp.Spawner>)
      requires player in playerSpawners ==> forall k :: k in order <==> k in playerSpawners[player]
      requires player !in playerSpawners ==> order == []
      ensures |result| == |LiveKeys(order, spawners)|
      ensures forall i :: 0 <= i < |result| ==> result[i] == spawners[LiveKeys(order, spawners)[i]]
    {
      if player !in playerSpawners {
        return [];
      }
      result := [];
      for i := 0 to |order|
        invariant |result| == |LiveKeys(order[..i], spawners)|
        invariant forall j :: 0 <= j < |result| ==> result[j] == spawners[LiveKeys(order[..i], spawners)[j]]
      {
        LiveKeysStep(order, i, spawners);
        var loc := order[i];
        if loc in spawners {
          result := result + [spawners[loc]];
        }
      }
      assert order[..|order|] == order;
    }

    /** `getPlayerSpawnerCount(player, type)`: how many of the player's registered spawners have that type. */
    method GetPlayerSpawnerCount(player: S.PlayerId, t: S.SpawnerType, order: seq<Location>) returns (n: int)
      requires player in playerSpawners ==> forall k :: k in order <==> k in playerSpawners[player]
      requires player !in playerSpawners ==> order == []
      ensures n == |KeysOfType(LiveKeys(order, spawners), spawners, t)|
    {
      var list := GetPlayerSpawners(player, order);
      ghost var keys := LiveKeys(order, spawners);
      n := 0;
      for i := 0 to |list|
        invariant n == |KeysOfType(keys[..i], spawners, t)|
      {
        KeysOfTypeStep(keys, i, spawners, t);
        if list[i].spawnerType == t {
          n := n + 1;
        }
      }
      assert keys[..|keys|] == keys;
    }

    /** Over a repeat-free iteration order, the count is the number of the player's live keys of that type. */
    lemma CountIsLiveKeysOfType(player: S.PlayerId, t: S.SpawnerType, order: seq<Location>)
      requires player in playerSpawners ==> forall k :: k in order <==> k in playerSpawners[player]
      requires player !in playerSpawners ==> order == []
      requires Distinct(order)
      ensures player in playerSpawners ==>
                |KeysOfType(LiveKeys(order, spawners), spawners, t)| ==
                |set k | k in playerSpawners[player] && k in spawners && spawners[k].spawnerType == t|
      ensures player !in playerSpawners ==> |KeysOfType(LiveKeys(order, spawners), spawners, t)| == 0
    {
      var keys := KeysOfType(LiveKeys(order, spawners), spawners, t);
      LiveKeysDistinct(order, spawners);
      KeysOfTypeDistinct(LiveKeys(order, spawners), spawners, t);
      DistinctCard(keys);
      if player in playerSpawners {
        assert (set k | k in keys) == (set k | k in playerSpawners[player] && k in spawners && spawners[k].spawnerType == t);
      }
    }

    /** `updateSpawnerEntity(location, entityType)`: only the spawner filed there gets the new type. */
    method UpdateSpawnerEntity(location: Location, entityType: S.EntityType)
      modifies if Normalize(location) in spawners then {spawners[Normalize(location)]} else {}
      ensures Normalize(location) in spawners ==>
                spawners[Normalize(location)].State() == old(spawners[Normalize(location)].State()).(entityType := entityType)
    {
      var normalizedLoc := Normalize(location);
      if normalizedLoc in spawners {
        var spawner := spawners[normalizedLoc];
        spawner.entityType := entityType;
      }
    }

    /**
     * `processSpawner(spawner)`, as its scheduled task runs: nothing without
     * a loaded world; removal when the block is no longer a spawner;
     * otherwise the spawner takes one `Tick`. `spawned` and `released` say
     * whether `spawnEntities` was called to spawn and to release.
     */
    method ProcessSpawner(s: Sp.Spawner, p: Probe, c: SpawningConfig) returns (spawned: bool, released: bool)
      requires Valid()
      modifies this, s
      ensures Valid()
      ensures !p.worldLoaded ==>
                spawners == old(spawners) && playerSpawners == old(playerSpawners) && s.State() == old(s.State()) &&
                !spawned && !released
      ensures p.worldLoaded && !p.isSpawnerBlock ==>
                s.State() == old(s.State()) && !spawned && !released &&
                (Normalize(s.location) !in old(spawners) ==> spawners == old(spawners) && playerSpawners == old(playerSpawners)) &&
                (Normalize(s.location) in old(spawners) ==>
                   spawners == old(spawners) - {Normalize(s.location)} &&
                   playerSpawners == R.Unindexed(old(playerSpawners), old(spawners)[Normalize(s.location)].owner, Normalize(s.location)))
      ensures p.worldLoaded && p.isSpawnerBlock ==>
                spawners == old(spawners) && playerSpawners == old(playerSpawners) &&
                TickResult(s.State(), spawned, released) == Tick(old(s.State()), p, ReleaseInterval(c))
    {
      spawned, released := false, false;
      if !p.worldLoaded {
        return;
      }
      if !p.isSpawnerBlock {
        RemoveSpawner(s.location);
        return;
      }
      if !p.hasPlayer {
        if !s.active && s.storageEnabled {
          StoreOne(s, p.now);
        }
        return;
      }
      if s.active {
        if p.now - s.lastSpawnTime >= s.spawnDelay * 50 && p.nearbyCount < s.maxNearbyEntities {
          spawned := true;
          s.lastSpawnTime := p.now;
        }
        if s.storedSpawns > 0 {
          released := ReleaseStoredSpawns(s, c, p.releaseNow);
        }
      } else if s.storageEnabled {
        StoreOne(s, p.now);
      }
    }

    /** The storing branch of `processSpawner`: `addStoredSpawns(1)` and a new `lastSpawnTime` once the delay has passed. */
    static method StoreOne(s: Sp.Spawner, now: int)
      requires s.storageEnabled
      modifies s
      ensures s.State() == Accumulated(old(s.State()), now)
    {
      if now - s.lastSpawnTime >= s.spawnDelay * 50 {
        s.AddStoredSpawns(1);
        s.lastSpawnTime := now;
      }
    }

    /** `releaseStoredSpawns(spawner)`. */
    static method ReleaseStoredSpawns(s: Sp.Spawner, c: SpawningConfig, now: int) returns (released: bool)
      modifies s
      ensures TickResult(s.State(), false, released) == ReleaseStep(old(s.State()), now, ReleaseInterval(c))
    {
      var releaseInterval := c.releaseInterval.GetOr(20);
      released := false;
      if now - s.lastReleaseTime >= releaseInterval * 50 {
        if s.storedSpawns > 0 {
          released := true;
          s.RemoveStoredSpawns(1);
          s.lastReleaseTime := now;
        }
      }
    }
  }

  // ---------------------------------------------------------------------
  // The repeating task

  /** `startSpawnerTask`'s runnable: the iterator it keeps between runs, as what is left of it. */
  class SpawnerTask {
    const maxPerTick: int
    var remaining: seq<Sp.Spawner>

    /** The runnable starts with an iterator over the spawners at that moment; `max_spawners_per_tick` defaults to 10. */
    constructor (maxPerTickConfig: Option<int>, values: seq<Sp.Spawner>)
      ensures maxPerTick == maxPerTickConfig.GetOr(10) && remaining == values
    {
      maxPerTick := maxPerTickConfig.GetOr(10);
      remaining := values;
    }

    /**
     * `run()`: an exhausted iterator is replaced by a new one over `values`
     * (the spawners now, in iteration order); then up to `maxPerTick`
     * spawners are taken from it, in order, and handed to `processSpawner`.
     */
    method Run(values: seq<Sp.Spawner>) returns (batch: seq<Sp.Spawner>)
      modifies this
      ensures batch + remaining == (if old(remaining) == [] then values else old(remaining))
      ensures |batch| == Min(Max(maxPerTick, 0), |batch| + |remaining|)
      ensures (batch, remaining) == NextBatch(old(remaining), values, maxPerTick)
    {
      var processed := 0;
      if remaining == [] {
        remaining := values;
      }
      ghost var source := remaining;
      batch := [];
      while remaining != [] && processed < maxPerTick
        invariant batch + remaining == source
        invariant processed == |batch|
        invariant maxPerTick >= 0 ==> processed <= maxPerTick
        invariant maxPerTick < 0 ==> processed == 0
        decreases |remaining|
      {
        var spawner := remaining[0];
        remaining := remaining[1..];
        batch := batch + [spawner];
        processed := processed + 1;
      }
      assert batch == source[..|batch|] && remaining == source[|batch|..];
    }
  }

  /** One run of the task on its remaining iterator: the batch it hands on and what it leaves. */
  function NextBatch(remaining: seq<Sp.Spawner>, values: seq<Sp.Spawner>, maxPerTick: int): (seq<Sp.Spawner>, seq<Sp.Spawner>) {
    var source := if remaining == [] then values else remaining;
    var n := Min(Max(maxPerTick, 0), |source|);
    (source[..n], source[n..])
  }

  /** The spawners handed on by `runs` successive runs that start from `remaining`, concatenated. */
  function Scheduled(remaining: seq<Sp.Spawner>, values: seq<Sp.Spawner>, maxPerTick: int, runs: nat): seq<Sp.Spawner>
    decreases runs
  {
    if runs == 0 then []
    else
      var next := NextBatch(remaining, values, maxPerTick);
      next.0 + Scheduled(next.1, values, maxPerTick, runs - 1)
  }

  /**
   * Runs resume where the previous one stopped: starting from position `j`
   * of a pass, `k` runs hand on the next `k * maxPerTick` spawners of the
   * pass, in order and each once, as long as the pass had not ended before
   * the last of them.
   */
  lemma {:induction false} RunsResume(values: seq<Sp.Spawner>, j: nat, maxPerTick: int, k: nat)
    requires maxPerTick > 0 && j < |values|
    requires k > 0 ==> j + (k - 1) * maxPerTick < |values|
    ensures Scheduled(values[j..], values, maxPerTick, k) == values[j..Min(j + k * maxPerTick, |values|)]
    decreases k
  {
    if k > 0 {
      var n := Min(maxPerTick, |values| - j);
      ScheduledStep(values, j, maxPerTick, k);
      if k == 1 {
        assert Scheduled(values[j + n..], values, maxPerTick, 0) == [];
      } else {
        MulFacts(k, maxPerTick);
        var end := Min(j + k * maxPerTick, |values|);
        RunsResume(values, j + maxPerTick, maxPerTick, k - 1);
        SliceSplit(values, j, j + n, end);
      }
    }
  }

  /** One run from position `j`, then the remaining `k - 1` runs from where it stopped. */
  lemma ScheduledStep(values: seq<Sp.Spawner>, j: nat, maxPerTick: int, k: nat)
    requires maxPerTick > 0 && j < |values| && k > 0
    ensures var n := Min(maxPerTick, |values| - j);
            Scheduled(values[j..], values, maxPerTick, k)
            == values[j..j + n] + Scheduled(values[j + n..], values, maxPerTick, k - 1)
  {
    FirstBatch(values, j, maxPerTick);
  }

  lemma SliceSplit(values: seq<Sp.Spawner>, i: int, m: int, e: int)
    requires 0 <= i <= m <= e <= |values|
    ensures values[i..e] == values[i..m] + values[m..e]
  {
  }

  /** The first run from position `j` of a pass takes the next `maxPerTick` spawners, or all that are left. */
  lemma FirstBatch(values: seq<Sp.Spawner>, j: nat, maxPerTick: int)
    requires maxPerTick > 0 && j < |values|
    ensures var n := Min(maxPerTick, |values| - j);
            NextBatch(values[j..], values, maxPerTick) == (values[j..j + n], values[j + n..])
  {
    var n := Min(maxPerTick, |values| - j);
    var src := values[j..];
    assert |src| == |values| - j;
    assert src[..n] == values[j..j + n] && src[n..] == values[j + n..];
  }

  lemma MulFacts(k: int, n: int)
    requires k > 1 && n > 0
    ensures n <= (k - 1) * n
    ensures (k - 1 - 1) * n + n == (k - 1) * n
    ensures (k - 1) * n + n == k * n
  {
  }

  /**
   * From an exhausted iterator, the runs of one pass hand on every spawner
   * of the new snapshot once, in order; the pass then ends and the next run
   * starts over.
   */
  lemma FullPass(values: seq<Sp.Spawner>, maxPerTick: int, k: nat)
    requires maxPerTick > 0 && values != []
    requires k > 0 && (k - 1) * maxPerTick < |values| <= k * maxPerTick
    ensures Scheduled([], values, maxPerTick, k) == values
    ensures NextBatch([], values, maxPerTick).1 == [] ==> k == 1
  {
    assert values[0..] == values;
    assert Scheduled([], values, maxPerTick, k) == Scheduled(values[0..], values, maxPerTick, k) by {
      assert NextBatch([], values, maxPerTick) == NextBatch(values[0..], values, maxPerTick);
    }
    RunsResume(values, 0, maxPerTick, k);
  }
}
