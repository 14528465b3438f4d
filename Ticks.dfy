/**
 * The spawning cycle of `MonsterCapitalWorks.kt`: `processSpawners` walks
 * the registered spawners once per scheduled run; an active spawner whose
 * delay has passed tries to emit one entity (`trySpawn`); an inactive one
 * with storage accumulates one stored unit per interval
 * (`processStorageAdd`); an active one with stored units releases some of
 * them around itself (`processStorageRelease`).
 *
 * The world is an input: a `TickProbe` holds, for one spawner, the entity
 * counts the two phases see, which locations are safe, whether the spawn
 * call succeeds, the clock readings and the `Math.random()` draws. Each
 * method is specified by a function of the spawner's state before the call.
 */
module Ticks {
  import opened Common
  import opened Locations
  import opened Spawners

  /** A `Math.random()` result. */
  type UnitReal = r: real | 0.0 <= r < 1.0 witness 0.0

  /** Three draws, one per axis. */
  datatype Draw = Draw(x: UnitReal, y: UnitReal, z: UnitReal)

  datatype TickProbe = TickProbe(
    spawnNearby: nat,            // living entities of the spawner's type in its cube, seen by trySpawn
    spawnDraw: Draw,             // the draws of trySpawn's random target
    spawnSucceeds: bool,         // world.spawnEntity returned an entity
    spawnClock: int,             // System.currentTimeMillis() at the end of trySpawn
    releaseClock: int,           // System.currentTimeMillis() in processStorageRelease
    releaseNearby: nat,          // the entity count processStorageRelease sees
    releaseDraws: nat -> Draw,   // the draws of release unit i
    safe: Location -> bool)      // isSafeSpawnFor(entityType)

  /** The `performance` keys of `config.yml` the storage phases read; `None` when absent. */
  datatype PerformanceConfig = PerformanceConfig(
    storageAddInterval: Option<int>,
    storageReleaseInterval: Option<int>,
    storageReleaseAmount: Option<int>)

  function AddInterval(c: PerformanceConfig): int { c.storageAddInterval.GetOr(20) }
  function ReleaseInterval(c: PerformanceConfig): int { c.storageReleaseInterval.GetOr(100) }
  function ReleaseAmountSetting(c: PerformanceConfig): int { c.storageReleaseAmount.GetOr(1) }

  /** An entity placed in the world. */
  datatype Emission = Emission(at: Location, entity: EntityType)

  function RMax(a: real, b: real): real { if a >= b then a else b }
  function RMin(a: real, b: real): real { if a <= b then a else b }

  /** `Math.max(c - r, Math.min(c + r, v))`. */
  function Clamp(v: real, c: real, r: real): real {
    RMax(c - r, RMin(c + r, v))
  }

  /** The precise-mode target: the spawner position plus the offset, clamped axis by axis. */
  function PreciseTarget(loc: Location, w: World, st: SpawnerState): Location {
    var r := st.range as real;
    Location(Some(w), Clamp(loc.x + st.preciseX, loc.x, r), Clamp(loc.y + st.preciseY, loc.y, r),
             Clamp(loc.z + st.preciseZ, loc.z, r), 0.0, 0.0)
  }

  /**
   * `v * n` for an integer `n`, written as repeated addition so that the
   * step of a proof never multiplies two unknowns (`ScaleIsProduct`).
   */
  function Scale(v: real, n: int): real
    decreases if n < 0 then -n else n
  {
    if n == 0 then 0.0 else if n > 0 then Scale(v, n - 1) + v else Scale(v, n + 1) - v
  }

  lemma {:induction false} ScaleIsProduct(v: real, n: int)
    ensures Scale(v, n) == v * n as real
    decreases if n < 0 then -n else n
  {
    if n > 0 {
      ScaleIsProduct(v, n - 1);
    } else if n < 0 {
      ScaleIsProduct(v, n + 1);
    }
  }

  /** The random-mode target: `(random * 2 - 1) * range` added to each axis. */
  function RandomTarget(loc: Location, w: World, range: int, d: Draw): Location {
    Location(Some(w), loc.x + Scale(d.x * 2.0 - 1.0, range), loc.y + Scale(d.y * 2.0 - 1.0, range),
             loc.z + Scale(d.z * 2.0 - 1.0, range), 0.0, 0.0)
  }

  /**
   * The target of one spawn: precise or random by the spawner's mode. The
   * mode is chosen axis by axis inside one location, which is the same
   * location as choosing between the two whole targets.
   */
  function Target(loc: Location, w: World, st: SpawnerState, d: Draw): Location {
    var p := PreciseTarget(loc, w, st);
    var q := RandomTarget(loc, w, st.range, d);
    var precise := st.mode == Precise;
    Location(Some(w), if precise then p.x else q.x, if precise then p.y else q.y,
             if precise then p.z else q.z, 0.0, 0.0)
  }

  lemma TargetByMode(loc: Location, w: World, st: SpawnerState, d: Draw)
    ensures st.mode == Precise ==> Target(loc, w, st, d) == PreciseTarget(loc, w, st)
    ensures st.mode == Random ==> Target(loc, w, st, d) == RandomTarget(loc, w, st.range, d)
  {
  }

  predicate InCube(t: Location, loc: Location, r: real) {
    loc.x - r <= t.x <= loc.x + r && loc.y - r <= t.y <= loc.y + r && loc.z - r <= t.z <= loc.z + r
  }

  /**
   * Precise targets never leave the activation cube, and an offset already
   * inside the cube is used unchanged.
   */
  lemma PreciseTargetClamped(loc: Location, w: World, st: SpawnerState)
    requires st.range >= 0
    ensures InCube(PreciseTarget(loc, w, st), loc, st.range as real)
    ensures -(st.range as real) <= st.preciseX <= st.range as real ==> PreciseTarget(loc, w, st).x == loc.x + st.preciseX
    ensures -(st.range as real) <= st.preciseY <= st.range as real ==> PreciseTarget(loc, w, st).y == loc.y + st.preciseY
    ensures -(st.range as real) <= st.preciseZ <= st.range as real ==> PreciseTarget(loc, w, st).z == loc.z + st.preciseZ
  {
  }

  /** An offset of `(u * 2 - 1) * n` for a unit draw `u` is at most `n` either way. */
  lemma {:induction false} UnitOffsetBounded(u: UnitReal, n: nat)
    ensures -(n as real) <= Scale(u * 2.0 - 1.0, n) <= n as real
  {
    if n > 0 {
      UnitOffsetBounded(u, n - 1);
    }
  }

  /** Random targets stay in the activation cube. */
  lemma RandomTargetInCube(loc: Location, w: World, range: int, d: Draw)
    requires range >= 0
    ensures InCube(RandomTarget(loc, w, range, d), loc, range as real)
  {
    UnitOffsetBounded(d.x, range);
    UnitOffsetBounded(d.y, range);
    UnitOffsetBounded(d.z, range);
  }

  // ---------------------------------------------------------------------
  // trySpawn
  // ---------------------------------------------------------------------

  /**
   * `trySpawn` places an entity exactly when the spawner has a world, fewer
   * than `maxNearby` matching entities are around, it is active, the target
   * is safe and the spawn call succeeds.
   */
  predicate SpawnOccurs(st: SpawnerState, loc: Location, pr: TickProbe) {
    loc.world.Some? && pr.spawnNearby < st.maxNearby && st.active
    && pr.safe(Target(loc, loc.world.value, st, pr.spawnDraw)) && pr.spawnSucceeds
  }

  function SpawnEmission(st: SpawnerState, loc: Location, pr: TickProbe): Option<Emission> {
    if SpawnOccurs(st, loc, pr) then Some(Emission(Target(loc, loc.world.value, st, pr.spawnDraw), st.entityType))
    else None
  }

  /** Only a placed entity moves `lastSpawnTime`, to the clock read after the spawn. */
  function TrySpawnState(st: SpawnerState, loc: Location, pr: TickProbe): SpawnerState {
    if SpawnOccurs(st, loc, pr) then st.(lastSpawn := pr.spawnClock) else st
  }

  /** `trySpawn(spawner)`. */
  method TrySpawn(s: Spawner, pr: TickProbe) returns (e: Option<Emission>)
    requires s.Valid()
    modifies s
    ensures s.Valid()
    ensures s.State() == TrySpawnState(old(s.State()), s.location, pr)
    ensures e == SpawnEmission(old(s.State()), s.location, pr)
  {
    if s.location.world.None? {
      return None;
    }
    var w := s.location.world.value;
    if pr.spawnNearby >= s.maxNearbyEntities {
      return None;
    }
    var target := Target(s.location, w, s.State(), pr.spawnDraw);
    if s.active {
      if !pr.safe(target) {
        return None;
      }
      if !pr.spawnSucceeds {
        return None;
      }
      e := Some(Emission(target, s.entityType));
    } else {
      e := None;
    }
    if s.active {
      s.lastSpawnTime := pr.spawnClock;
    }
  }

  /** A full cube, or an unsafe target, leaves the spawner exactly as it was. */
  lemma TrySpawnBlocked(st: SpawnerState, loc: Location, pr: TickProbe)
    requires pr.spawnNearby >= st.maxNearby
             || (loc.world.Some? && !pr.safe(Target(loc, loc.world.value, st, pr.spawnDraw)))
             || !st.active
    ensures TrySpawnState(st, loc, pr) == st && SpawnEmission(st, loc, pr) == None
  {
  }

  // ---------------------------------------------------------------------
  // processStorageAdd
  // ---------------------------------------------------------------------

  predicate StorageAddDue(st: SpawnerState, now: int, c: PerformanceConfig) {
    now - st.lastRelease >= AddInterval(c) * 50 && st.stored < st.maxStorage
  }

  /** One more stored unit, and `lastReleaseTime = now`, once the interval has passed below capacity. */
  function StorageAddState(st: SpawnerState, now: int, c: PerformanceConfig): SpawnerState {
    if StorageAddDue(st, now, c) then st.(stored := st.stored + 1, lastRelease := now) else st
  }

  /** `processStorageAdd(spawner, currentTime)`. */
  method ProcessStorageAdd(s: Spawner, now: int, c: PerformanceConfig)
    requires s.Valid()
    modifies s
    ensures s.Valid()
    ensures s.State() == StorageAddState(old(s.State()), now, c)
    ensures s.storedSpawns <= old(s.storedSpawns) + 1
    ensures old(s.storedSpawns) <= old(s.maxStorage) ==> s.storedSpawns <= s.maxStorage
  {
    var interval := AddInterval(c);
    if now - s.lastReleaseTime >= interval * 50 {
      if s.storedSpawns < s.maxStorage {
        var ok := s.AddStoredSpawns(1);
        s.lastReleaseTime := now;
      }
    }
  }

  // ---------------------------------------------------------------------
  // processStorageRelease
  // ---------------------------------------------------------------------

  /** The release phase gets past its guards: storage on, active, units stored, interval passed, a world. */
  predicate ReleaseDue(st: SpawnerState, loc: Location, c: PerformanceConfig, pr: TickProbe) {
    st.storageEnabled && st.active && st.stored > 0
    && pr.releaseClock - st.lastRelease >= ReleaseInterval(c) * 50 && loc.world.Some?
  }

  /** `min(releaseAmount, min(maxNearby - nearby, stored))`. */
  function ReleaseQuota(st: SpawnerState, c: PerformanceConfig, pr: TickProbe): int {
    Min(ReleaseAmountSetting(c), Min(st.maxNearby - pr.releaseNearby, st.stored))
  }

  function UnitTarget(st: SpawnerState, loc: Location, pr: TickProbe, i: nat): Location
    requires loc.world.Some?
  {
    Target(loc, loc.world.value, st, pr.releaseDraws(i))
  }

  /** The entities placed by release units `0 .. n-1`: one per safe target. */
  function Released(st: SpawnerState, loc: Location, pr: TickProbe, n: nat): (r: seq<Emission>)
    requires loc.world.Some?
    ensures |r| <= n
  {
    if n == 0 then []
    else
      var t := UnitTarget(st, loc, pr, n - 1);
      Released(st, loc, pr, n - 1) + (if pr.safe(t) then [Emission(t, st.entityType)] else [])
  }

  /** The state and the entities after `processStorageRelease`. */
  function ReleaseOutcome(st: SpawnerState, loc: Location, c: PerformanceConfig, pr: TickProbe): (SpawnerState, seq<Emission>) {
    if !ReleaseDue(st, loc, c, pr) || ReleaseQuota(st, c, pr) <= 0 then (st, [])
    else
      var e := Released(st, loc, pr, ReleaseQuota(st, c, pr));
      (st.(stored := st.stored - |e|, lastRelease := pr.releaseClock), e)
  }

  /**
   * Release never places more than the quota, never drives the count below
   * zero, and stamps `lastReleaseTime` whenever the quota is positive, even
   * when no target was safe.
   */
  lemma ReleaseBounds(st: SpawnerState, loc: Location, c: PerformanceConfig, pr: TickProbe)
    requires st.stored >= 0
    ensures |ReleaseOutcome(st, loc, c, pr).1| <= Max(0, ReleaseQuota(st, c, pr))
    ensures ReleaseQuota(st, c, pr) <= ReleaseAmountSetting(c)
            && ReleaseQuota(st, c, pr) <= st.maxNearby - pr.releaseNearby
            && ReleaseQuota(st, c, pr) <= st.stored
    ensures var (st', e) := ReleaseOutcome(st, loc, c, pr);
            0 <= st'.stored == st.stored - |e|
    ensures ReleaseDue(st, loc, c, pr) && ReleaseQuota(st, c, pr) > 0 ==>
            ReleaseOutcome(st, loc, c, pr).0.lastRelease == pr.releaseClock
    ensures !ReleaseDue(st, loc, c, pr) ==> ReleaseOutcome(st, loc, c, pr) == (st, [])
  {
  }

  /** The target of a unit does not depend on how many units are still stored. */
  lemma UnitTargetIgnoresStored(st: SpawnerState, loc: Location, pr: TickProbe, i: nat, k: int)
    requires loc.world.Some?
    ensures UnitTarget(st.(stored := k), loc, pr, i) == UnitTarget(st, loc, pr, i)
  {
  }

  /** One release unit: an entity at the unit's target when it is safe, and one unit fewer stored. */
  method ReleaseUnit(s: Spawner, ghost st0: SpawnerState, pr: TickProbe, i: nat, emitted: seq<Emission>)
    returns (emitted': seq<Emission>)
    requires s.Valid() && s.location.world.Some? && i < st0.stored
    requires emitted == Released(st0, s.location, pr, i)
    requires s.State() == st0.(stored := st0.stored - |emitted|)
    modifies s
    ensures s.Valid()
    ensures emitted' == Released(st0, s.location, pr, i + 1)
    ensures s.State() == st0.(stored := st0.stored - |emitted'|)
  {
    UnitTargetIgnoresStored(st0, s.location, pr, i, st0.stored - |emitted|);
    var spawnLocation := UnitTarget(s.State(), s.location, pr, i);
    emitted' := emitted;
    if pr.safe(spawnLocation) {
      emitted' := emitted + [Emission(spawnLocation, s.entityType)];
      s.RemoveStoredSpawns(1);
    }
  }

  /** `processStorageRelease(spawner)`. */
  method ProcessStorageRelease(s: Spawner, c: PerformanceConfig, pr: TickProbe) returns (emitted: seq<Emission>)
    requires s.Valid()
    modifies s
    ensures s.Valid()
    ensures (s.State(), emitted) == ReleaseOutcome(old(s.State()), s.location, c, pr)
  {
    emitted := [];
    if !s.storageEnabled || !s.active || s.storedSpawns <= 0 {
      return;
    }
    var now := pr.releaseClock;
    var releaseInterval := ReleaseInterval(c);
    var releaseAmount := ReleaseAmountSetting(c);
    if now - s.lastReleaseTime >= releaseInterval * 50 {
      if s.location.world.None? {
        return;
      }
      var availableSpace := s.maxNearbyEntities - pr.releaseNearby;
      var actual := Min(releaseAmount, Min(availableSpace, s.storedSpawns));
      if actual > 0 {
        ghost var st0 := s.State();
        for i := 0 to actual
          invariant s.Valid()
          invariant emitted == Released(st0, s.location, pr, i)
          invariant s.State() == st0.(stored := st0.stored - |emitted|)
        {
          emitted := ReleaseUnit(s, st0, pr, i, emitted);
        }
        s.lastReleaseTime := now;
      }
    }
  }

  // ---------------------------------------------------------------------
  // processSpawners
  // ---------------------------------------------------------------------

  /** An active spawner whose delay (in ticks of 50 ms) has passed; only these are counted. */
  predicate Due(st: SpawnerState, now: int) {
    st.active && now - st.lastSpawn >= st.spawnDelay * 50
  }

  /** One spawner's turn in a cycle: spawn if due, store if inactive, then release. */
  function CycleStep(st: SpawnerState, loc: Location, now: int, c: PerformanceConfig, pr: TickProbe): (SpawnerState, seq<Emission>) {
    var st1 := if Due(st, now) then TrySpawnState(st, loc, pr) else st;
    var e1 := if Due(st, now) then SpawnEmission(st, loc, pr) else None;
    var st2 := if !st1.active && st1.storageEnabled then StorageAddState(st1, now, c) else st1;
    var (st3, e2) := ReleaseOutcome(st2, loc, c, pr);
    ((st3), (if e1.Some? then [e1.value] else []) + e2)
  }

  /** An inactive spawner places nothing and keeps its spawn time in a cycle. */
  lemma InactiveSpawnerOnlyStores(st: SpawnerState, loc: Location, now: int, c: PerformanceConfig, pr: TickProbe)
    requires !st.active
    ensures CycleStep(st, loc, now, c, pr).1 == []
    ensures CycleStep(st, loc, now, c, pr).0 == (if st.storageEnabled then StorageAddState(st, now, c) else st)
  {
  }

  /** The registered spawners must be distinct objects. */
  ghost predicate Distinct(ss: seq<Spawner>) {
    forall i, j :: 0 <= i < j < |ss| ==> ss[i] != ss[j]
  }

  function StatesOf(ss: seq<Spawner>): (r: seq<SpawnerState>)
    reads set s | s in ss
    ensures |r| == |ss| && forall i :: 0 <= i < |ss| ==> r[i] == ss[i].State()
  {
    if ss == [] then [] else [ss[0].State()] + StatesOf(ss[1..])
  }

  function LocationsOf(ss: seq<Spawner>): (r: seq<Location>)
    ensures |r| == |ss| && forall i :: 0 <= i < |ss| ==> r[i] == ss[i].location
  {
    if ss == [] then [] else [ss[0].location] + LocationsOf(ss[1..])
  }

  /** How many of the states are due. */
  function DueCount(sts: seq<SpawnerState>, now: int): nat {
    if sts == [] then 0 else DueCount(sts[..|sts| - 1], now) + (if Due(sts[|sts| - 1], now) then 1 else 0)
  }

  /** Everything the first `n` turns of a cycle place. */
  function CycleEmissions(sts: seq<SpawnerState>, locs: seq<Location>, now: int, c: PerformanceConfig,
                          probes: nat -> TickProbe, n: nat): seq<Emission>
    requires n <= |sts| && |locs| == |sts|
  {
    if n == 0 then []
    else CycleEmissions(sts, locs, now, c, probes, n - 1) + CycleStep(sts[n - 1], locs[n - 1], now, c, probes(n - 1)).1
  }

  /** Every prefix shorter than `n` has fewer than `cap` due spawners. */
  predicate BelowCap(sts: seq<SpawnerState>, now: int, cap: int, n: nat)
    requires n <= |sts|
  {
    forall i :: 0 <= i < n ==> DueCount(sts[..i], now) < cap
  }

  lemma BelowCapExtend(sts: seq<SpawnerState>, now: int, cap: int, n: nat)
    requires n < |sts| && BelowCap(sts, now, cap, n) && DueCount(sts[..n], now) < cap
    ensures BelowCap(sts, now, cap, n + 1)
  {
  }

  lemma DueCountStep(sts: seq<SpawnerState>, now: int, i: nat)
    requires i < |sts|
    ensures DueCount(sts[..i + 1], now) == DueCount(sts[..i], now) + (if Due(sts[i], now) then 1 else 0)
  {
    assert sts[..i + 1][..i] == sts[..i];
  }

  /**
   * `processSpawners(maxSpawnersPerTick)`: spawners are visited in order
   * until `maxSpawnersPerTick` due spawners have been counted. `visited` is
   * the number of turns taken: the first index whose due prefix reaches the
   * cap, or all of them. Visited spawners take their turn; the rest are
   * untouched; at most `max(0, maxSpawnersPerTick)` are counted.
   */
  method ProcessSpawners(spawners: seq<Spawner>, maxPerTick: int, now: int, c: PerformanceConfig,
                         probes: nat -> TickProbe)
    returns (processed: nat, visited: nat, emitted: seq<Emission>)
    requires Distinct(spawners) && forall s :: s in spawners ==> s.Valid()
    modifies set s | s in spawners
    ensures forall s :: s in spawners ==> s.Valid()
    ensures visited <= |spawners|
    ensures visited == |spawners| || DueCount(old(StatesOf(spawners))[..visited], now) >= maxPerTick
    ensures forall i :: 0 <= i < visited ==> DueCount(old(StatesOf(spawners))[..i], now) < maxPerTick
    ensures processed == DueCount(old(StatesOf(spawners))[..visited], now) <= Max(0, maxPerTick)
    ensures forall i :: 0 <= i < visited ==>
              spawners[i].State() == CycleStep(old(StatesOf(spawners))[i], spawners[i].location, now, c, probes(i)).0
    ensures forall i :: visited <= i < |spawners| ==> spawners[i].State() == old(StatesOf(spawners))[i]
    ensures emitted == CycleEmissions(old(StatesOf(spawners)), LocationsOf(spawners), now, c, probes, visited)
  {
    ghost var initial := StatesOf(spawners);
    var locs := LocationsOf(spawners);
    processed := 0;
    emitted := [];
    visited := 0;
    CycleStart(initial, locs, now, c, probes, maxPerTick);
    while visited < |spawners| && processed < maxPerTick
      invariant forall s :: s in spawners ==> s.Valid()
      invariant CycleSoFar(StatesOf(spawners), initial, locs, now, c, probes, maxPerTick, visited, processed, emitted)
      decreases |spawners| - visited
    {
      processed, emitted := NextTurn(spawners, initial, locs, now, c, probes, maxPerTick, visited, processed, emitted);
      visited := visited + 1;
    }
    CycleDone(StatesOf(spawners), initial, locs, now, c, probes, maxPerTick, visited, processed, emitted);
    forall i | 0 <= i < |spawners|
      ensures spawners[i].location == locs[i] && spawners[i].State() == StatesOf(spawners)[i]
    {
    }
  }

  /** One iteration of the loop in `processSpawners`: the turn of spawner `visited`. */
  method NextTurn(spawners: seq<Spawner>, ghost initial: seq<SpawnerState>, locs: seq<Location>,
                  now: int, c: PerformanceConfig, probes: nat -> TickProbe, maxPerTick: int,
                  visited: nat, processed: nat, emitted: seq<Emission>)
    returns (processed': nat, emitted': seq<Emission>)
    requires Distinct(spawners) && forall s :: s in spawners ==> s.Valid()
    requires CycleSoFar(StatesOf(spawners), initial, locs, now, c, probes, maxPerTick, visited, processed, emitted)
    requires visited < |spawners| && processed < maxPerTick && locs == LocationsOf(spawners)
    modifies spawners[visited]
    ensures forall s :: s in spawners ==> s.Valid()
    ensures CycleSoFar(StatesOf(spawners), initial, locs, now, c, probes, maxPerTick, visited + 1, processed', emitted')
  {
    ghost var before := StatesOf(spawners);
    CycleSoFarAt(before, initial, locs, now, c, probes, maxPerTick, visited, processed, emitted);
    assert spawners[visited].State() == before[visited];
    var counted, e := TakeTurn(spawners, visited, initial[visited], locs[visited], now, c, probes(visited));
    CycleAdvance(before, StatesOf(spawners), initial, locs, now, c, probes, maxPerTick,
                 visited, processed, emitted, counted, e);
    processed' := if counted then processed + 1 else processed;
    emitted' := emitted + e;
  }

  /** The states every spawner has once it has taken its turn. */
  function Finals(sts: seq<SpawnerState>, locs: seq<Location>, now: int, c: PerformanceConfig,
                  probes: nat -> TickProbe): (r: seq<SpawnerState>)
    requires |locs| == |sts|
    ensures |r| == |sts|
    ensures forall i :: 0 <= i < |sts| ==> r[i] == CycleStep(sts[i], locs[i], now, c, probes(i)).0
  {
    seq(|sts|, i requires 0 <= i < |sts| => CycleStep(sts[i], locs[i], now, c, probes(i)).0)
  }

  /**
   * The loop invariant of `processSpawners` after `visited` turns, over the
   * spawners' current states: no earlier prefix reached the cap, `processed`
   * counts the due spawners visited, the visited spawners hold their final
   * state and the rest their initial one, and `emitted` is what the visited
   * turns placed.
   */
  ghost predicate CycleSoFar(states: seq<SpawnerState>, initial: seq<SpawnerState>, locs: seq<Location>,
                             now: int, c: PerformanceConfig, probes: nat -> TickProbe, maxPerTick: int,
                             visited: nat, processed: nat, emitted: seq<Emission>)
  {
    && |initial| == |states| == |locs|
    && visited <= |states|
    && BelowCap(initial, now, maxPerTick, visited)
    && processed == DueCount(initial[..visited], now) <= Max(0, maxPerTick)
    && states == Finals(initial, locs, now, c, probes)[..visited] + initial[visited..]
    && emitted == CycleEmissions(initial, locs, now, c, probes, visited)
  }

  /** A spawner that has yet to take its turn still has its initial state. */
  lemma CycleSoFarAt(states: seq<SpawnerState>, initial: seq<SpawnerState>, locs: seq<Location>,
                     now: int, c: PerformanceConfig, probes: nat -> TickProbe, maxPerTick: int,
                     visited: nat, processed: nat, emitted: seq<Emission>)
    requires CycleSoFar(states, initial, locs, now, c, probes, maxPerTick, visited, processed, emitted)
    requires visited < |states|
    ensures states[visited] == initial[visited]
  {
  }

  /** Before the first turn nothing has been visited, counted or placed. */
  lemma CycleStart(initial: seq<SpawnerState>, locs: seq<Location>, now: int, c: PerformanceConfig,
                   probes: nat -> TickProbe, maxPerTick: int)
    requires |locs| == |initial|
    ensures CycleSoFar(initial, initial, locs, now, c, probes, maxPerTick, 0, 0, [])
  {
    assert initial[..0] == [];
  }

  /** After the loop, the visited spawners hold their final state and the rest their initial one. */
  lemma CycleDone(states: seq<SpawnerState>, initial: seq<SpawnerState>, locs: seq<Location>,
                  now: int, c: PerformanceConfig, probes: nat -> TickProbe, maxPerTick: int,
                  visited: nat, processed: nat, emitted: seq<Emission>)
    requires CycleSoFar(states, initial, locs, now, c, probes, maxPerTick, visited, processed, emitted)
    ensures forall i :: 0 <= i < visited ==> states[i] == CycleStep(initial[i], locs[i], now, c, probes(i)).0
    ensures forall i :: visited <= i < |states| ==> states[i] == initial[i]
  {
  }

  /** One turn of the loop in `processSpawners` keeps its invariant. */
  lemma CycleAdvance(before: seq<SpawnerState>, after: seq<SpawnerState>, initial: seq<SpawnerState>,
                     locs: seq<Location>, now: int, c: PerformanceConfig, probes: nat -> TickProbe,
                     maxPerTick: int, visited: nat, processed: nat, emitted: seq<Emission>,
                     counted: bool, e: seq<Emission>)
    requires CycleSoFar(before, initial, locs, now, c, probes, maxPerTick, visited, processed, emitted)
    requires visited < |before| && processed < maxPerTick
    requires counted == Due(initial[visited], now)
    requires after == before[visited := CycleStep(initial[visited], locs[visited], now, c, probes(visited)).0]
    requires e == CycleStep(initial[visited], locs[visited], now, c, probes(visited)).1
    ensures CycleSoFar(after, initial, locs, now, c, probes, maxPerTick, visited + 1,
                       if counted then processed + 1 else processed, emitted + e)
  {
    BelowCapExtend(initial, now, maxPerTick, visited);
    SplitAdvance(Finals(initial, locs, now, c, probes), initial, visited);
    DueCountStep(initial, now, visited);
    EmissionsStep(initial, locs, now, c, probes, visited, emitted, e);
  }

  /**
   * The turn of the `i`-th spawner, whose state is `st` and whose location is
   * `loc`; every other spawner is left alone.
   */
  method TakeTurn(spawners: seq<Spawner>, i: nat, ghost st: SpawnerState, loc: Location, now: int,
                  c: PerformanceConfig, pr: TickProbe)
    returns (counted: bool, e: seq<Emission>)
    requires Distinct(spawners) && i < |spawners| && forall s :: s in spawners ==> s.Valid()
    requires spawners[i].State() == st && spawners[i].location == loc
    modifies spawners[i]
    ensures forall s :: s in spawners ==> s.Valid()
    ensures counted == Due(st, now)
    ensures spawners[i].State() == CycleStep(st, loc, now, c, pr).0
    ensures e == CycleStep(st, loc, now, c, pr).1
    ensures StatesOf(spawners) == old(StatesOf(spawners))[i := spawners[i].State()]
  {
    assert forall j :: 0 <= j < |spawners| && j != i ==> spawners[j] != spawners[i];
    counted, e := ProcessOne(spawners[i], now, c, pr);
  }

  lemma EmissionsStep(sts: seq<SpawnerState>, locs: seq<Location>, now: int, c: PerformanceConfig,
                      probes: nat -> TickProbe, n: nat, emitted: seq<Emission>, e: seq<Emission>)
    requires n < |sts| == |locs| && emitted == CycleEmissions(sts, locs, now, c, probes, n)
    requires e == CycleStep(sts[n], locs[n], now, c, probes(n)).1
    ensures emitted + e == CycleEmissions(sts, locs, now, c, probes, n + 1)
  {
  }

  /** Taking turn `n` moves the split between finished and untouched states by one. */
  lemma SplitAdvance<T>(done: seq<T>, todo: seq<T>, n: nat)
    requires n < |done| == |todo|
    ensures (done[..n] + todo[n..])[n := done[n]] == done[..n + 1] + todo[n + 1..]
  {
  }

  /** One turn of the loop in `processSpawners`. */
  method ProcessOne(sp: Spawner, now: int, c: PerformanceConfig, pr: TickProbe) returns (counted: bool, e: seq<Emission>)
    requires sp.Valid()
    modifies sp
    ensures sp.Valid()
    ensures counted == Due(old(sp.State()), now)
    ensures (sp.State(), e) == CycleStep(old(sp.State()), sp.location, now, c, pr)
  {
    e := [];
    counted := false;
    if sp.active {
      if now - sp.lastSpawnTime >= sp.spawnDelay * 50 {
        counted := true;
        var spawned := TrySpawn(sp, pr);
        if spawned.Some? {
          e := [spawned.value];
        }
      }
    }
    if !sp.active && sp.storageEnabled {
      ProcessStorageAdd(sp, now, c);
    }
    var released := ProcessStorageRelease(sp, c, pr);
    e := e + released;
  }

  /** When fewer spawners are due than the cap allows, every spawner takes its turn. */
  lemma {:induction false} UnderCapVisitsAll(sts: seq<SpawnerState>, now: int, maxPerTick: int, i: nat)
    requires i <= |sts| && DueCount(sts, now) < maxPerTick
    ensures DueCount(sts[..i], now) < maxPerTick
    decreases |sts| - i
  {
    if i < |sts| {
      UnderCapVisitsAll(sts, now, maxPerTick, i + 1);
      DueCountStep(sts, now, i);
    } else {
      assert sts[..i] == sts;
    }
  }
}
