/**
 * The upgrade manager of `manager/UpgradeManager.kt`: the lookups into the
 * two upgrade tables, the recomputation of a spawner's five parameters from
 * its levels (`applyUpgrades`), the prerequisite and level checks, and the
 * purchase of one level (`upgradeSpawner`).
 *
 * `applyUpgrades` is specified by `Resolve`, a fold over the spawner's
 * levels in map order. Delay upgrades write the level's value verbatim; the
 * other four write base + level * (value of level 1), in 32-bit arithmetic.
 */
module Upgrades {
  import opened Common
  import opened LinkedMaps
  import opened Spawners
  import opened UpgradePaths
  import opened Configs

  /** The loaded tables of `normal_upgrades.yml` and `premium_upgrades.yml`, and the two type configs. */
  datatype UpgradeSettings = UpgradeSettings(
    normalUpgrades: map<string, UpgradePath>,
    premiumUpgrades: map<string, UpgradePath>,
    normalConfig: Option<TypeConfig>,
    premiumConfig: Option<TypeConfig>)

  /** `getUpgrades(type)`. */
  function Paths(u: UpgradeSettings, t: SpawnerType): map<string, UpgradePath> {
    if t == Normal then u.normalUpgrades else u.premiumUpgrades
  }

  function TypeConfigOf(u: UpgradeSettings, t: SpawnerType): Option<TypeConfig> {
    if t == Normal then u.normalConfig else u.premiumConfig
  }

  /** `getUpgrade(type, key)`. */
  function GetUpgrade(u: UpgradeSettings, t: SpawnerType, key: string): Option<UpgradePath> {
    if key in Paths(u, t) then Some(Paths(u, t)[key]) else None
  }

  /** The five parameters an upgrade can change. */
  datatype Params = Params(delay: int, count: int, maxNearby: int, range: int, maxStorage: int)

  datatype Field = Delay | Count | MaxNearby | Range | Storage

  function FieldValue(p: Params, f: Field): int {
    match f
    case Delay => p.delay
    case Count => p.count
    case MaxNearby => p.maxNearby
    case Range => p.range
    case Storage => p.maxStorage
  }

  function WithField(p: Params, f: Field, v: int): (r: Params)
    ensures FieldValue(r, f) == v
    ensures forall g :: g != f ==> FieldValue(r, g) == FieldValue(p, g)
  {
    match f
    case Delay => p.(delay := v)
    case Count => p.(count := v)
    case MaxNearby => p.(maxNearby := v)
    case Range => p.(range := v)
    case Storage => p.(maxStorage := v)
  }

  /** The `when (upgradeType)` of `applyUpgrades`: which parameter a key upgrades. */
  function FieldOf(key: string): Option<Field> {
    if key == "spawn_delay" || key == "speed" then Some(Delay)
    else if key == "spawn_count" || key == "count" then Some(Count)
    else if key == "max_nearby_entities" || key == "max_nearby" then Some(MaxNearby)
    else if key == "activation_range" || key == "range" then Some(Range)
    else if key == "max_storage" || key == "storage" then Some(Storage)
    else None
  }

  /**
   * The base values `applyUpgrades` resets to: each key of the type config,
   * or the built-in default when the key or the whole config is missing.
   * The capacity prefers `storage.default_max`, then `spawning.default_storage`.
   */
  function BaseParams(tc: Option<TypeConfig>): Params {
    match tc
    case None => Params(200, 6, 5, 8, 5)
    case Some(c) =>
      Params(c.defaultDelay.GetOr(200), c.defaultCount.GetOr(6), c.defaultMaxNearby.GetOr(5),
             c.defaultRange.GetOr(8), c.storageDefaultMax.GetOr(c.spawningDefaultStorage.GetOr(5)))
  }

  /**
   * What one `(key, level)` entry of the loop writes, if anything: nothing
   * for a level of 0 or below, a key without a path, a key no branch names,
   * or a value that is not a number.
   */
  function EntryEffect(paths: map<string, UpgradePath>, base: Params, key: string, level: int): Option<(Field, int)> {
    if level <= 0 || key !in paths then None
    else
      match FieldOf(key)
      case None => None
      case Some(Delay) =>
        (match GetValue(paths[key], level)
         case Some(Number(v)) => Some((Delay, Max(20, TruncToInt(v))))
         case _ => None)
      case Some(f) =>
        (match GetValue(paths[key], 1)
         case Some(Number(inc)) => Some((f, Wrap32(FieldValue(base, f) + Wrap32(level * TruncToInt(inc)))))
         case _ => None)
  }

  function ApplyEffect(p: Params, w: Option<(Field, int)>): Params {
    match w
    case None => p
    case Some(fv) => WithField(p, fv.0, fv.1)
  }

  /** The parameters after the reset and the loop over `levels`, in iteration order. */
  function Resolve(paths: map<string, UpgradePath>, base: Params, levels: Entries): Params {
    if levels == [] then base
    else
      var e := levels[|levels| - 1];
      ApplyEffect(Resolve(paths, base, levels[..|levels| - 1]), EntryEffect(paths, base, e.0, e.1))
  }

  /** The parameters `applyUpgrades` gives a spawner of type `t` with these levels. */
  function ResolveFor(u: UpgradeSettings, t: SpawnerType, levels: Entries): Params {
    Resolve(Paths(u, t), BaseParams(TypeConfigOf(u, t)), levels)
  }

  predicate Writes(paths: map<string, UpgradePath>, base: Params, e: (string, int), f: Field) {
    var w := EntryEffect(paths, base, e.0, e.1);
    w.Some? && w.value.0 == f
  }

  /** A parameter no entry writes keeps its base value. */
  lemma {:induction false} UnwrittenKeepsBase(paths: map<string, UpgradePath>, base: Params, levels: Entries, f: Field)
    requires forall j :: 0 <= j < |levels| ==> !Writes(paths, base, levels[j], f)
    ensures FieldValue(Resolve(paths, base, levels), f) == FieldValue(base, f)
  {
    if levels != [] {
      var pre := levels[..|levels| - 1];
      assert forall j :: 0 <= j < |pre| ==> pre[j] == levels[j];
      UnwrittenKeepsBase(paths, base, pre, f);
      assert !Writes(paths, base, levels[|levels| - 1], f);
    }
  }

  /** A parameter that exactly one entry writes takes that entry's value, wherever it sits. */
  lemma {:induction false} SoleWriterWins(paths: map<string, UpgradePath>, base: Params, levels: Entries, i: nat, f: Field, v: int)
    requires i < |levels|
    requires EntryEffect(paths, base, levels[i].0, levels[i].1) == Some((f, v))
    requires forall j :: 0 <= j < |levels| && j != i ==> !Writes(paths, base, levels[j], f)
    ensures FieldValue(Resolve(paths, base, levels), f) == v
  {
    var pre := levels[..|levels| - 1];
    assert forall j :: 0 <= j < |pre| ==> pre[j] == levels[j];
    if i == |levels| - 1 {
    } else {
      SoleWriterWins(paths, base, pre, i, f, v);
      assert !Writes(paths, base, levels[|levels| - 1], f);
    }
  }

  /**
   * A delay upgrade sets the delay to its level's value (at least 20 ticks)
   * outright: neither the base delay nor any other parameter enters into it.
   */
  lemma DelayIsLevelValue(paths: map<string, UpgradePath>, base: Params, levels: Entries, i: nat, v: real)
    requires i < |levels| && FieldOf(levels[i].0) == Some(Delay) && levels[i].1 > 0
    requires levels[i].0 in paths && GetValue(paths[levels[i].0], levels[i].1) == Some(Number(v))
    requires forall j :: 0 <= j < |levels| && j != i ==> FieldOf(levels[j].0) != Some(Delay)
    ensures Resolve(paths, base, levels).delay == Max(20, TruncToInt(v))
  {
    forall j | 0 <= j < |levels| && j != i ensures !Writes(paths, base, levels[j], Delay) {
    }
    SoleWriterWins(paths, base, levels, i, Delay, Max(20, TruncToInt(v)));
  }

  /**
   * Count, nearby cap, range and capacity grow additively: base plus the
   * level times the increment of level 1, when that stays inside `Int`.
   */
  lemma OtherParamsGrowAdditively(paths: map<string, UpgradePath>, base: Params, levels: Entries, i: nat, f: Field, inc: real)
    requires f != Delay && i < |levels| && FieldOf(levels[i].0) == Some(f) && levels[i].1 > 0
    requires levels[i].0 in paths && GetValue(paths[levels[i].0], 1) == Some(Number(inc))
    requires forall j :: 0 <= j < |levels| && j != i ==> FieldOf(levels[j].0) != Some(f)
    requires IsInt32(levels[i].1 * TruncToInt(inc)) && IsInt32(FieldValue(base, f) + levels[i].1 * TruncToInt(inc))
    ensures FieldValue(Resolve(paths, base, levels), f) == FieldValue(base, f) + levels[i].1 * TruncToInt(inc)
  {
    forall j | 0 <= j < |levels| && j != i ensures !Writes(paths, base, levels[j], f) {
    }
    SoleWriterWins(paths, base, levels, i, f, FieldValue(base, f) + levels[i].1 * TruncToInt(inc));
  }

  function ParamsOf(st: SpawnerState): Params {
    Params(st.spawnDelay, st.spawnCount, st.maxNearby, st.range, st.maxStorage)
  }

  function WithParams(st: SpawnerState, p: Params): SpawnerState {
    st.(spawnDelay := p.delay, spawnCount := p.count, maxNearby := p.maxNearby, range := p.range,
        maxStorage := p.maxStorage)
  }

  /** The assignment to the spawner field behind parameter `f`. */
  method SetParam(s: Spawner, f: Field, v: int)
    requires s.Valid()
    modifies s
    ensures s.Valid()
    ensures s.State() == WithParams(old(s.State()), WithField(ParamsOf(old(s.State())), f, v))
  {
    match f {
      case Delay => s.spawnDelay := v;
      case Count => s.spawnCount := v;
      case MaxNearby => s.maxNearbyEntities := v;
      case Range => s.activationRange := v;
      case Storage => s.maxStorage := v;
    }
  }

  /** One pass of the loop in `applyUpgrades`: the `when` branch for one entry. */
  method ApplyEntry(s: Spawner, paths: map<string, UpgradePath>, base: Params, key: string, level: int)
    requires s.Valid()
    modifies s
    ensures s.Valid()
    ensures s.State() == WithParams(old(s.State()), ApplyEffect(ParamsOf(old(s.State())), EntryEffect(paths, base, key, level)))
  {
    if level <= 0 || key !in paths {
      return;
    }
    var f := FieldOf(key);
    if f == Some(Delay) {
      var value := GetValue(paths[key], level);
      if value.Some? && value.value.Number? {
        SetParam(s, Delay, Max(20, TruncToInt(value.value.n)));
      }
    } else if f.Some? {
      var increment := GetValue(paths[key], 1);
      if increment.Some? && increment.value.Number? {
        var step := Wrap32(level * TruncToInt(increment.value.n));
        assert EntryEffect(paths, base, key, level) == Some((f.value, Wrap32(FieldValue(base, f.value) + step)));
        SetParam(s, f.value, Wrap32(FieldValue(base, f.value) + step));
      }
    }
  }

  /** The reset at the top of `applyUpgrades`: the five parameters take their base values. */
  method ResetParams(s: Spawner, base: Params)
    requires s.Valid()
    modifies s
    ensures s.Valid()
    ensures s.State() == WithParams(old(s.State()), base)
  {
    s.spawnDelay := base.delay;
    s.spawnCount := base.count;
    s.maxNearbyEntities := base.maxNearby;
    s.activationRange := base.range;
    s.maxStorage := base.maxStorage;
  }

  /**
   * `applyUpgrades(spawner)`: the five parameters are reset to their base
   * values and then rewritten entry by entry. The result depends only on
   * the levels and the configuration, so running it again changes nothing.
   */
  method ApplyUpgrades(s: Spawner, u: UpgradeSettings)
    requires s.Valid()
    modifies s
    ensures s.Valid()
    ensures s.State() == WithParams(old(s.State()), ResolveFor(u, s.spawnerType, old(s.upgradeLevels)))
  {
    var paths := Paths(u, s.spawnerType);
    var base := BaseParams(TypeConfigOf(u, s.spawnerType));
    ResetParams(s, base);
    var levels := s.upgradeLevels;
    ghost var st0 := old(s.State());
    for i := 0 to |levels|
      invariant s.Valid()
      invariant s.State() == WithParams(st0, Resolve(paths, base, levels[..i]))
    {
      assert levels[..i + 1][..i] == levels[..i];
      ApplyEntry(s, paths, base, levels[i].0, levels[i].1);
    }
    assert levels[..|levels|] == levels;
  }

  /** A second `applyUpgrades` with the same levels gives the state the first one left. */
  lemma ApplyUpgradesIdempotent(st: SpawnerState, u: UpgradeSettings, t: SpawnerType)
    ensures var once := WithParams(st, ResolveFor(u, t, st.levels));
            WithParams(once, ResolveFor(u, t, once.levels)) == once
  {
  }

  /** The state after `applyUpgrade(spawner, key)`: one more level of `key`, then a full recomputation. */
  function UpgradedState(st: SpawnerState, u: UpgradeSettings, t: SpawnerType, key: string): SpawnerState {
    var levels := Put(st.levels, key, GetOrZero(st.levels, key) + 1);
    WithParams(st.(levels := levels), ResolveFor(u, t, levels))
  }

  /** `applyUpgrade(spawner, key)`. */
  method ApplyUpgrade(s: Spawner, u: UpgradeSettings, key: string)
    requires s.Valid()
    modifies s
    ensures s.Valid()
    ensures s.State() == UpgradedState(old(s.State()), u, s.spawnerType, key)
  {
    var newLevel := GetOrZero(s.upgradeLevels, key) + 1;
    PutKeepsDistinct(s.upgradeLevels, key, newLevel);
    s.upgradeLevels := Put(s.upgradeLevels, key, newLevel);
    ApplyUpgrades(s, u);
  }

  /** `applyUpgrade` raises exactly one key by exactly one level. */
  lemma UpgradeRaisesOneKeyByOne(st: SpawnerState, u: UpgradeSettings, t: SpawnerType, key: string)
    ensures GetOrZero(UpgradedState(st, u, t, key).levels, key) == GetOrZero(st.levels, key) + 1
    ensures forall k :: k != key ==> Get(UpgradedState(st, u, t, key).levels, k) == Get(st.levels, k)
  {
  }

  /** `getUpgradeCost(type, key, level)`: the table cost of that level, 0 without a path. */
  function UpgradeCostAt(u: UpgradeSettings, t: SpawnerType, key: string, level: int): (r: real)
    ensures GetUpgrade(u, t, key).None? ==> r == 0.0
    ensures GetUpgrade(u, t, key).Some? ==> r == GetCost(GetUpgrade(u, t, key).value, level)
  {
    match GetUpgrade(u, t, key)
    case None => 0.0
    case Some(p) => if level > 0 && level <= |p.costs| then p.costs[level - 1] else 0.0
  }

  /** `canUpgrade(spawner, key)`: the key has a path and its level is below the path's maximum. */
  predicate CanUpgrade(u: UpgradeSettings, t: SpawnerType, levels: Entries, key: string) {
    match GetUpgrade(u, t, key)
    case None => false
    case Some(p) => GetOrZero(levels, key) < p.maxLevel
  }

  /** `getNextLevel(spawner, key)`. */
  function NextLevel(levels: Entries, key: string): int {
    GetOrZero(levels, key) + 1
  }

  /** `getUpgradeValue(type, key, level)`. */
  function UpgradeValue(u: UpgradeSettings, t: SpawnerType, key: string, level: int): Option<ConfigValue> {
    match GetUpgrade(u, t, key)
    case None => None
    case Some(p) => GetValue(p, level)
  }

  /** `getNextUpgradeValue(spawner, key)`: the next level's value as a number, 0 otherwise. */
  function NextUpgradeValue(u: UpgradeSettings, t: SpawnerType, levels: Entries, key: string): real {
    match UpgradeValue(u, t, key, NextLevel(levels, key))
    case Some(Number(v)) => v
    case _ => 0.0
  }

  /**
   * `meetsRequirements(spawner, key)`: false without a path; true when the
   * next level lists no prerequisites; otherwise every listed key must
   * already be at its listed level.
   */
  predicate MeetsRequirements(u: UpgradeSettings, t: SpawnerType, levels: Entries, key: string) {
    match GetUpgrade(u, t, key)
    case None => false
    case Some(p) =>
      var next := NextLevel(levels, key);
      next !in p.requiredUpgrades
      || forall k :: k in p.requiredUpgrades[next] ==> GetOrZero(levels, k) >= p.requiredUpgrades[next][k]
  }

  /** Buying other upgrades never takes a prerequisite away. */
  lemma RequirementsStayMet(u: UpgradeSettings, t: SpawnerType, a: Entries, b: Entries, key: string)
    requires MeetsRequirements(u, t, a, key)
    requires GetOrZero(b, key) == GetOrZero(a, key)
    requires forall k :: GetOrZero(b, k) >= GetOrZero(a, k)
    ensures MeetsRequirements(u, t, b, key)
  {
  }

  /** `getUpgradeCost(spawner, key)` as written: the cost of the level already held. */
  function QuotedCostAsWritten(u: UpgradeSettings, t: SpawnerType, levels: Entries, key: string): real {
    match GetUpgrade(u, t, key)
    case None => 0.0
    case Some(p) => GetCost(p, GetOrZero(levels, key))
  }

  /** The cost of the level being bought, as `getUpgradeCost(type, key, level)` and the other trees read it. */
  function QuotedCost(u: UpgradeSettings, t: SpawnerType, levels: Entries, key: string): (r: real)
    ensures r == UpgradeCostAt(u, t, key, NextLevel(levels, key))
  {
    match GetUpgrade(u, t, key)
    case None => 0.0
    case Some(p) => GetCost(p, GetOrZero(levels, key) + 1)
  }

  /** A one-path table with first-level cost 100 and second-level cost 250. */
  function TwoLevelSpeed(): UpgradeSettings {
    UpgradeSettings(map["speed" := UpgradePath("speed", "speed", 2, [100.0, 250.0], [Number(160.0), Number(120.0)], map[])],
                    map[], None, None)
  }

  /** As written, the first level of a fresh spawner is quoted (and so sold) at 0 instead of 100. */
  lemma QuotedCostAsWrittenIsOneLevelBehind()
    ensures QuotedCostAsWritten(TwoLevelSpeed(), Normal, [], "speed") == 0.0
    ensures QuotedCost(TwoLevelSpeed(), Normal, [], "speed") == 100.0
    ensures QuotedCostAsWritten(TwoLevelSpeed(), Normal, [("speed", 1)], "speed") == 100.0
  {
  }

  /** What climbing from level 0 to level `n` charges when each step is quoted as written. */
  function ClimbChargeAsWritten(p: UpgradePath, n: nat): real {
    if n == 0 then 0.0 else ClimbChargeAsWritten(p, n - 1) + GetCost(p, n - 1)
  }

  /** What climbing from level 0 to level `n` charges when each step costs the level bought. */
  function ClimbCharge(p: UpgradePath, n: nat): real {
    if n == 0 then 0.0 else ClimbCharge(p, n - 1) + GetCost(p, n)
  }

  /** As written, a full climb charges every table entry except the last one. */
  lemma {:induction false} ClimbAsWrittenSkipsLastEntry(p: UpgradePath, n: nat)
    requires 1 <= n <= |p.costs|
    ensures ClimbChargeAsWritten(p, n) == Sum(p.costs[..n - 1])
  {
    if n == 1 {
      assert p.costs[..0] == [];
    } else {
      ClimbAsWrittenSkipsLastEntry(p, n - 1);
      assert p.costs[..n - 1][..n - 2] == p.costs[..n - 2];
    }
  }

  /** Charging the level bought, a climb to level `n` charges exactly the first `n` entries. */
  lemma {:induction false} ClimbChargesEachEntryOnce(p: UpgradePath, n: nat)
    requires n <= |p.costs|
    ensures ClimbCharge(p, n) == Sum(p.costs[..n])
  {
    if n > 0 {
      ClimbChargesEachEntryOnce(p, n - 1);
      assert p.costs[..n][..n - 1] == p.costs[..n - 1];
    }
  }

  /** The economy as `upgradeSpawner` sees it: whether one is hooked, and the player's balance. */
  datatype Wallet = Wallet(hasEconomy: bool, balance: real)

  datatype UpgradeOutcome = AtMaxLevel | RequirementsUnmet | InsufficientFunds(cost: real) | Upgraded(charged: real)

  /** Whether `upgradeSpawner` charges: only with an economy and a positive cost. */
  predicate Charges(w: Wallet, cost: real) {
    w.hasEconomy && cost > 0.0
  }

  /**
   * The outcome of `upgradeSpawner` for a quoted `cost`: refused at the
   * maximum level, then with an unmet prerequisite, then when a positive
   * cost exceeds a hooked economy's balance; otherwise upgraded, charging
   * the cost only when it charges at all.
   */
  function UpgradeOutcomeOf(u: UpgradeSettings, t: SpawnerType, levels: Entries, key: string, w: Wallet, cost: real): (r: UpgradeOutcome)
    ensures r == AtMaxLevel <==> !CanUpgrade(u, t, levels, key)
    ensures r == RequirementsUnmet <==> CanUpgrade(u, t, levels, key) && !MeetsRequirements(u, t, levels, key)
    ensures r.InsufficientFunds? <==>
              CanUpgrade(u, t, levels, key) && MeetsRequirements(u, t, levels, key) && Charges(w, cost) && w.balance < cost
    ensures r.InsufficientFunds? ==> r.cost == cost
    ensures r.Upgraded? <==>
              CanUpgrade(u, t, levels, key) && MeetsRequirements(u, t, levels, key)
              && (Charges(w, cost) ==> w.balance >= cost)
    ensures r.Upgraded? ==> r.charged == (if Charges(w, cost) then cost else 0.0)
    ensures r.Upgraded? && r.charged != 0.0 ==> w.hasEconomy && 0.0 < r.charged <= w.balance
  {
    if !CanUpgrade(u, t, levels, key) then AtMaxLevel
    else if !MeetsRequirements(u, t, levels, key) then RequirementsUnmet
    else if Charges(w, cost) && !(w.balance >= cost) then InsufficientFunds(cost)
    else Upgraded(if Charges(w, cost) then cost else 0.0)
  }

  /** The body of `upgradeSpawner` once the cost is quoted: the checks in order, then one level. */
  method UpgradeCharging(s: Spawner, u: UpgradeSettings, key: string, w: Wallet, cost: real) returns (out: UpgradeOutcome)
    requires s.Valid()
    modifies s
    ensures s.Valid()
    ensures out == UpgradeOutcomeOf(u, s.spawnerType, old(s.upgradeLevels), key, w, cost)
    ensures !out.Upgraded? ==> s.State() == old(s.State())
    ensures out.Upgraded? ==>
              s.State() == UpgradedState(old(s.State()), u, s.spawnerType, key)
              && GetOrZero(s.upgradeLevels, key) <= GetUpgrade(u, s.spawnerType, key).value.maxLevel
  {
    if !CanUpgrade(u, s.spawnerType, s.upgradeLevels, key) {
      return AtMaxLevel;
    }
    if !MeetsRequirements(u, s.spawnerType, s.upgradeLevels, key) {
      return RequirementsUnmet;
    }
    var charged := 0.0;
    if w.hasEconomy && cost > 0.0 {
      if !(w.balance >= cost) {
        return InsufficientFunds(cost);
      }
      charged := cost;
    }
    ApplyUpgrade(s, u, key);
    out := Upgraded(charged);
  }

  /**
   * `upgradeSpawner(player, spawner, key)` as written: the cost it checks
   * and charges is `getUpgradeCost(spawner, key)`, the cost of the level
   * already held.
   */
  method UpgradeSpawner(s: Spawner, u: UpgradeSettings, key: string, w: Wallet) returns (out: UpgradeOutcome)
    requires s.Valid()
    modifies s
    ensures s.Valid()
    ensures out == UpgradeOutcomeOf(u, s.spawnerType, old(s.upgradeLevels), key, w,
                                    QuotedCostAsWritten(u, s.spawnerType, old(s.upgradeLevels), key))
    ensures !out.Upgraded? ==> s.State() == old(s.State())
    ensures out.Upgraded? ==>
              s.State() == UpgradedState(old(s.State()), u, s.spawnerType, key)
              && GetOrZero(s.upgradeLevels, key) <= GetUpgrade(u, s.spawnerType, key).value.maxLevel
  {
    var cost := QuotedCostAsWritten(u, s.spawnerType, s.upgradeLevels, key);
    out := UpgradeCharging(s, u, key, w, cost);
  }

  /** `upgradeSpawner` charging the cost of the level being bought. */
  method UpgradeSpawnerCorrected(s: Spawner, u: UpgradeSettings, key: string, w: Wallet) returns (out: UpgradeOutcome)
    requires s.Valid()
    modifies s
    ensures s.Valid()
    ensures out == UpgradeOutcomeOf(u, s.spawnerType, old(s.upgradeLevels), key, w,
                                    QuotedCost(u, s.spawnerType, old(s.upgradeLevels), key))
    ensures !out.Upgraded? ==> s.State() == old(s.State())
    ensures out.Upgraded? ==>
              s.State() == UpgradedState(old(s.State()), u, s.spawnerType, key)
              && GetOrZero(s.upgradeLevels, key) <= GetUpgrade(u, s.spawnerType, key).value.maxLevel
  {
    var cost := QuotedCost(u, s.spawnerType, s.upgradeLevels, key);
    out := UpgradeCharging(s, u, key, w, cost);
  }

  /** As written, a fresh spawner's first level of `TwoLevelSpeed` is sold for nothing even when the player has no money. */
  lemma FirstLevelSoldFreeAsWritten(levels: Entries)
    requires levels == []
    ensures UpgradeOutcomeOf(TwoLevelSpeed(), Normal, levels, "speed", Wallet(true, 0.0),
                             QuotedCostAsWritten(TwoLevelSpeed(), Normal, levels, "speed")) == Upgraded(0.0)
    ensures UpgradeOutcomeOf(TwoLevelSpeed(), Normal, levels, "speed", Wallet(true, 0.0),
                             QuotedCost(TwoLevelSpeed(), Normal, levels, "speed")) == InsufficientFunds(100.0)
  {
  }
}
