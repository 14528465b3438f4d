/**
 * The upgrade manager of the Java tree (`manager/UpgradeManager.java`). A
 * path per upgrade key is loaded from each type's upgrades file; an upgrade
 * buys the next level of one key, and a level's value is written to its
 * parameter as it stands (the speed value is the new delay, the count value
 * the new count, and so on). Prerequisites are read from the file itself at
 * the moment of the upgrade.
 */
module McwUpgrades {
  import opened Common
  import opened Text
  import opened McwUpgradePaths
  import opened McwSpawners
  import S = Spawners

  /** A `levels.<n>` section: `value`, `cost`, and `required_upgrades` as (key, `getInt(key)`) pairs, when present. */
  datatype LevelSection = LevelSection(value: Option<real>, cost: Option<real>, requiredUpgrades: Option<seq<(string, int)>>)

  /** An `upgrades.<key>` section: its `levels` subsection, keys in file order, each a section or not. */
  datatype UpgradeSection = UpgradeSection(levels: Option<seq<(string, Option<LevelSection>)>>)

  /** The `upgrades` section of an upgrades file, by key (empty when the section is absent). */
  type UpgradesFile = map<string, UpgradeSection>

  // ---------------------------------------------------------------------
  // Loading the levels of one path

  /** The level a `levels` entry files: its key as an `Int`, when the entry is a section. */
  function LevelOf(e: (string, Option<LevelSection>)): Option<int> {
    if e.1.Some? then ParseInt(e.0) else None
  }

  /** The level `addLevel(level, value, cost)` files for a section: `getDouble` with default 0 for both. */
  function LevelFrom(sec: LevelSection): UpgradeLevel {
    UpgradeLevel(TruncToInt(sec.cost.GetOr(0.0)), sec.value.GetOr(0.0), map[])
  }

  /** The levels the entries file, a later entry replacing an earlier one of the same number. */
  function LoadedLevels(entries: seq<(string, Option<LevelSection>)>): map<int, UpgradeLevel> {
    if entries == [] then map[]
    else
      var m := LoadedLevels(entries[..|entries| - 1]);
      var e := entries[|entries| - 1];
      match LevelOf(e)
      case None => m
      case Some(l) => m[l := LevelFrom(e.1.value)]
  }

  /** The largest level the entries file, or 0. */
  function MaxLoaded(entries: seq<(string, Option<LevelSection>)>): int {
    if entries == [] then 0
    else Max(MaxLoaded(entries[..|entries| - 1]), LevelOf(entries[|entries| - 1]).GetOr(0))
  }

  /** A level is loaded exactly when some entry is a section under that number. */
  lemma {:induction false} LoadedLevelsSpec(entries: seq<(string, Option<LevelSection>)>, l: int)
    ensures l in LoadedLevels(entries) <==> exists i :: 0 <= i < |entries| && LevelOf(entries[i]) == Some(l)
    ensures l in LoadedLevels(entries) ==> l <= MaxLoaded(entries)
    ensures MaxLoaded(entries) >= 0
  {
    if entries != [] {
      var init := entries[..|entries| - 1];
      LoadedLevelsSpec(init, l);
      assert forall i :: 0 <= i < |init| ==> init[i] == entries[i];
    }
  }

  /** One more entry of a prefix files its level, if it has one, and may raise the largest. */
  lemma LoadedStep(entries: seq<(string, Option<LevelSection>)>, i: int)
    requires 0 <= i < |entries|
    ensures LoadedLevels(entries[..i + 1]) ==
            (if LevelOf(entries[i]).Some? then LoadedLevels(entries[..i])[LevelOf(entries[i]).value := LevelFrom(entries[i].1.value)]
             else LoadedLevels(entries[..i]))
    ensures MaxLoaded(entries[..i + 1]) == Max(MaxLoaded(entries[..i]), LevelOf(entries[i]).GetOr(0))
  {
    assert entries[..i + 1][..i] == entries[..i];
  }

  /** Updating a union updates its right-hand side. */
  lemma UnionUpdate<K, V>(a: map<K, V>, b: map<K, V>, k: K, v: V)
    ensures (a + b)[k := v] == a + b[k := v]
  {
  }

  /** One entry of the levels loop: a section under an `Int` key is added as a simple level. */
  method LoadEntry(path: UpgradePath, e: (string, Option<LevelSection>))
    requires path.Valid()
    modifies path
    ensures path.Valid()
    ensures path.levels == (if LevelOf(e).Some? then old(path.levels)[LevelOf(e).value := LevelFrom(e.1.value)] else old(path.levels))
    ensures path.maxLevel == Max(old(path.maxLevel), LevelOf(e).GetOr(0))
  {
    var (levelKey, levelSection) := e;
    var level := ParseInt(levelKey);
    if level.Some? && levelSection.Some? {
      path.AddSimpleLevel(level.value, levelSection.value.value.GetOr(0.0), levelSection.value.cost.GetOr(0.0));
    }
  }

  /**
   * The levels loop of `loadUpgradesFromConfig`: every entry whose key is an
   * `Int` and whose value is a section becomes a level of the path; other
   * entries are skipped.
   */
  method LoadLevels(path: UpgradePath, entries: seq<(string, Option<LevelSection>)>)
    requires path.Valid()
    modifies path
    ensures path.Valid()
    ensures path.levels == old(path.levels) + LoadedLevels(entries)
    ensures path.maxLevel == Max(old(path.maxLevel), MaxLoaded(entries))
  {
    for i := 0 to |entries|
      invariant path.Valid()
      invariant path.levels == old(path.levels) + LoadedLevels(entries[..i])
      invariant path.maxLevel == Max(old(path.maxLevel), MaxLoaded(entries[..i]))
    {
      LoadedStep(entries, i);
      LoadEntry(path, entries[i]);
      if LevelOf(entries[i]).Some? {
        UnionUpdate(old(path.levels), LoadedLevels(entries[..i]), LevelOf(entries[i]).value, LevelFrom(entries[i].1.value));
      }
    }
    assert entries[..|entries|] == entries;
  }

  // ---------------------------------------------------------------------
  // The parameters an upgrade writes

  datatype Param = Speed | Count | MaxNearby | Range | Storage

  /** The `switch (upgradeName)` of `applyUpgrade`. */
  function ParamOf(name: string): (r: Option<Param>)
    ensures r.Some? ==> name == Key(r.value)
  {
    if name == "speed" then Some(Speed)
    else if name == "count" then Some(Count)
    else if name == "max_nearby" then Some(MaxNearby)
    else if name == "range" then Some(Range)
    else if name == "storage" then Some(Storage)
    else None
  }

  /** The upgrade key of each parameter. */
  function Key(p: Param): string {
    match p
    case Speed => "speed"
    case Count => "count"
    case MaxNearby => "max_nearby"
    case Range => "range"
    case Storage => "storage"
  }

  function ParamValue(st: SpawnerState, p: Param): int {
    match p
    case Speed => st.spawnDelay
    case Count => st.spawnCount
    case MaxNearby => st.maxNearby
    case Range => st.range
    case Storage => st.maxStorage
  }

  /** The setter of a parameter. */
  function SetParam(st: SpawnerState, p: Param, v: int): (r: SpawnerState)
    ensures ParamValue(r, p) == v
    ensures forall q :: q != p ==> ParamValue(r, q) == ParamValue(st, q)
  {
    match p
    case Speed => st.(spawnDelay := v)
    case Count => st.(spawnCount := v)
    case MaxNearby => st.(maxNearby := v)
    case Range => st.(range := v)
    case Storage => st.(maxStorage := v)
  }

  /** Everything but the five parameters. */
  predicate SameOtherFields(a: SpawnerState, b: SpawnerState) {
    a.(spawnDelay := 0, spawnCount := 0, maxNearby := 0, range := 0, maxStorage := 0)
      == b.(spawnDelay := 0, spawnCount := 0, maxNearby := 0, range := 0, maxStorage := 0)
  }

  /** The state `applyUpgrade` leaves for a level whose value is `v`. */
  function Applied(st: SpawnerState, name: string, v: real): SpawnerState {
    match ParamOf(name)
    case None => st
    case Some(p) => SetParam(st, p, TruncToInt(v))
  }

  /**
   * `applyUpgrade` writes the value to its parameter verbatim, whatever the
   * parameter held before; an unknown key changes nothing.
   */
  lemma AppliedSpec(st: SpawnerState, name: string, v: real)
    ensures SameOtherFields(Applied(st, name, v), st)
    ensures ParamOf(name).None? ==> Applied(st, name, v) == st
    ensures forall p :: ParamValue(Applied(st, name, v), p) == (if name == Key(p) then TruncToInt(v) else ParamValue(st, p))
  {
  }

  // ---------------------------------------------------------------------
  // Restoring the levels of a spawner

  /** `applyUpgrades` applies a recorded level: positive, with a path that has that level. */
  predicate Restores(paths: map<string, UpgradePath>, levels: map<string, int>, name: string)
    reads paths.Values
  {
    name in levels && levels[name] > 0 && name in paths && paths[name].HasLevel(levels[name])
  }

  /** A parameter after `applyUpgrades`: its key's level value when that level is restored, its old value otherwise. */
  function RestoredValue(st0: SpawnerState, paths: map<string, UpgradePath>, p: Param): int
    reads paths.Values
  {
    var k := Key(p);
    if Restores(paths, st0.levels, k) then TruncToInt(paths[k].GetValue(st0.levels[k])) else ParamValue(st0, p)
  }

  /** The state after `applyUpgrades`. It does not depend on the order in which the map is iterated. */
  function Restored(st0: SpawnerState, paths: map<string, UpgradePath>): (r: SpawnerState)
    reads paths.Values
    ensures SameOtherFields(r, st0)
    ensures forall p :: ParamValue(r, p) == RestoredValue(st0, paths, p)
  {
    st0.(spawnDelay := RestoredValue(st0, paths, Speed), spawnCount := RestoredValue(st0, paths, Count),
         maxNearby := RestoredValue(st0, paths, MaxNearby), range := RestoredValue(st0, paths, Range),
         maxStorage := RestoredValue(st0, paths, Storage))
  }

  /** The parameters after the entries `done` of the iteration. */
  ghost predicate RestoredSoFar(st: SpawnerState, st0: SpawnerState, paths: map<string, UpgradePath>, done: seq<string>)
    reads paths.Values
  {
    && SameOtherFields(st, st0)
    && forall p :: ParamValue(st, p) == (if Key(p) in done then RestoredValue(st0, paths, p) else ParamValue(st0, p))
  }

  /** Restoring a spawner twice gives the same parameters as restoring it once. */
  lemma RestoredIdempotent(st0: SpawnerState, paths: map<string, UpgradePath>)
    ensures Restored(Restored(st0, paths), paths) == Restored(st0, paths)
  {
    var r := Restored(st0, paths);
    assert r.levels == st0.levels;
    forall p ensures RestoredValue(r, paths, p) == RestoredValue(st0, paths, p) {
    }
  }

  // ---------------------------------------------------------------------
  // The economy

  /** The economy manager as `upgradeSpawner` sees it: present and enabled, and the player's balance. */
  datatype Economy = Economy(enabled: bool, balance: real)

  datatype UpgradeOutcome =
    | NoPath
    | AtMaxLevel
    | NoNextLevel
    | RequirementsUnmet
    | InsufficientFunds(cost: real)
    | Upgraded(charged: real)

  class UpgradeManager {
    var normalUpgrades: map<string, UpgradePath>
    var premiumUpgrades: map<string, UpgradePath>
    /** The upgrades files the configuration manager holds; `None` when one is not loaded. */
    const normalConfig: Option<UpgradesFile>
    const premiumConfig: Option<UpgradesFile>

    constructor (normalConfig: Option<UpgradesFile>, premiumConfig: Option<UpgradesFile>)
      ensures normalUpgrades == map[] && premiumUpgrades == map[]
      ensures this.normalConfig == normalConfig && this.premiumConfig == premiumConfig
    {
      normalUpgrades := map[];
      premiumUpgrades := map[];
      this.normalConfig := normalConfig;
      this.premiumConfig := premiumConfig;
    }

    /** The path map of a spawner type. */
    function Paths(t: S.SpawnerType): map<string, UpgradePath>
      reads this
    {
      if t == S.Normal then normalUpgrades else premiumUpgrades
    }

    function ConfigFor(t: S.SpawnerType): Option<UpgradesFile> {
      if t == S.Normal then normalConfig else premiumConfig
    }

    /** `getUpgradePath(type, upgradeName)`. */
    function GetUpgradePath(t: S.SpawnerType, name: string): (r: Option<UpgradePath>)
      reads this
      ensures r.Some? <==> name in Paths(t)
      ensures r.Some? ==> r.value == Paths(t)[name]
    {
      if name in Paths(t) then Some(Paths(t)[name]) else None
    }

    /** `applyUpgrade(spawner, upgradeName, level, path)`. */
    /** The two writes of a successful upgrade: the new level, then that level's value. */
    static method Commit(s: Spawner, name: string, level: int, path: UpgradePath)
      modifies s
      ensures s.GetUpgradeLevel(name) == level
      ensures s.State() == Applied(old(s.State()).(levels := old(s.upgradeLevels)[name := level]), name, path.GetValue(level))
    {
      s.SetUpgradeLevel(name, level);
      ApplyUpgrade(s, name, level, path);
    }

    static method ApplyUpgrade(s: Spawner, name: string, level: int, path: UpgradePath)
      modifies s
      ensures s.State() == Applied(old(s.State()), name, path.GetValue(level))
    {
      var value := path.GetValue(level);
      match ParamOf(name)
      case Some(Speed) => s.spawnDelay := TruncToInt(value);
      case Some(Count) => s.spawnCount := TruncToInt(value);
      case Some(MaxNearby) => s.maxNearbyEntities := TruncToInt(value);
      case Some(Range) => s.activationRange := TruncToInt(value);
      case Some(Storage) => s.maxStorage := TruncToInt(value);
      case None =>
    }

    /**
     * `applyUpgrades(spawner)`: for each recorded level, in the map's
     * iteration order `order`, a positive level that its path has is
     * applied. Each key writes its own parameter, so the result is the same
     * for every order.
     */
    method ApplyUpgrades(s: Spawner, order: seq<string>)
      requires forall k :: k in order <==> k in s.upgradeLevels
      modifies s
      ensures s.State() == Restored(old(s.State()), Paths(s.spawnerType))
    {
      ghost var st0 := s.State();
      var paths := Paths(s.spawnerType);
      for i := 0 to |order|
        invariant RestoredSoFar(s.State(), st0, paths, order[..i])
      {
        assert order[..i + 1] == order[..i] + [order[i]];
        var upgradeName := order[i];
        var level := s.upgradeLevels[upgradeName];
        ghost var before := s.State();
        if level > 0 {
          var path := GetUpgradePath(s.spawnerType, upgradeName);
          if path.Some? && path.value.HasLevel(level) {
            ApplyUpgrade(s, upgradeName, level, path.value);
            AppliedSpec(before, upgradeName, path.value.GetValue(level));
          }
        }
        RestoreStep(before, s.State(), st0, paths, order[..i], upgradeName);
      }
      assert order[..|order|] == order;
      RestoredSoFarDone(s.State(), st0, paths, order);
    }

    /** `getUpgradeCost(spawner, upgradeName)`: the cost of the next level, 0 without a path. */
    function GetUpgradeCost(s: Spawner, name: string): (r: real)
      reads this, s, Paths(s.spawnerType).Values
      ensures GetUpgradePath(s.spawnerType, name).None? ==> r == 0.0
      ensures GetUpgradePath(s.spawnerType, name).Some? ==>
                r == GetUpgradePath(s.spawnerType, name).value.GetCost(s.GetUpgradeLevel(name) + 1)
    {
      match GetUpgradePath(s.spawnerType, name)
      case None => 0.0
      case Some(path) => path.GetCost(s.GetUpgradeLevel(name) + 1)
    }

    /** `canUpgrade(spawner, upgradeName)`: the path has the next level. */
    predicate CanUpgrade(s: Spawner, name: string)
      reads this, s, Paths(s.spawnerType).Values
    {
      match GetUpgradePath(s.spawnerType, name)
      case None => false
      case Some(path) => path.HasLevel(s.GetUpgradeLevel(name) + 1)
    }

    /**
     * `canUpgrade` does not look at `maxLevel`, but on a loaded path it
     * needs no such check: a next level that exists is at most `maxLevel`.
     */
    lemma CanUpgradeIsBelowMax(s: Spawner, name: string)
      requires CanUpgrade(s, name) && GetUpgradePath(s.spawnerType, name).value.Valid()
      ensures s.GetUpgradeLevel(name) < GetUpgradePath(s.spawnerType, name).value.maxLevel
    {
    }

    /**
     * `checkRequiredUpgrades(player, spawner, upgradeName, nextLevel)`: the
     * first listed prerequisite above the spawner's level stops the loop
     * with false.
     */
    method CheckRequiredUpgrades(s: Spawner, name: string, nextLevel: int) returns (ok: bool)
      ensures ok == RequirementsMet(ConfigFor(s.spawnerType), s.upgradeLevels, name, nextLevel)
    {
      var config := ConfigFor(s.spawnerType);
      if config.None? {
        return true;
      }
      var levelSection := LevelSectionAt(config.value, name, nextLevel);
      if levelSection.None? {
        return true;
      }
      var requiredSection := levelSection.value.requiredUpgrades;
      if requiredSection.None? {
        return true;
      }
      var required := requiredSection.value;
      for i := 0 to |required|
        invariant forall j :: 0 <= j < i ==> LevelIn(s.upgradeLevels, required[j].0) >= required[j].1
      {
        var (requiredUpgrade, requiredLevel) := required[i];
        var currentLevel := s.GetUpgradeLevel(requiredUpgrade);
        if currentLevel < requiredLevel {
          return false;
        }
      }
      return true;
    }

    /**
     * `upgradeSpawner(player, spawner, upgradeName)`: the outcome of the
     * checks in their order (`Outcome`, spelled out by `OutcomeSpec`). A
     * refusal leaves the spawner as it was; an upgrade sets the level to
     * exactly one more and writes that level's value.
     */
    method UpgradeSpawner(s: Spawner, name: string, economy: Economy) returns (out: UpgradeOutcome)
      modifies s
      ensures out == Outcome(GetUpgradePath(s.spawnerType, name), old(s.GetUpgradeLevel(name)), old(s.upgradeLevels),
                             ConfigFor(s.spawnerType), name, economy)
      ensures !out.Upgraded? ==> s.State() == old(s.State())
      ensures out.Upgraded? ==>
                && s.GetUpgradeLevel(name) == old(s.GetUpgradeLevel(name)) + 1
                && s.State() == Applied(old(s.State()).(levels := old(s.upgradeLevels)[name := old(s.GetUpgradeLevel(name)) + 1]),
                                        name, GetUpgradePath(s.spawnerType, name).value.GetValue(old(s.GetUpgradeLevel(name)) + 1))
    {
      var path := GetUpgradePath(s.spawnerType, name);
      if path.None? {
        return NoPath;
      }
      var currentLevel := s.GetUpgradeLevel(name);
      var nextLevel := currentLevel + 1;
      var maxLevel := path.value.maxLevel;
      if currentLevel >= maxLevel {
        return AtMaxLevel;
      }
      if !path.value.HasLevel(nextLevel) {
        return NoNextLevel;
      }
      var met := CheckRequiredUpgrades(s, name, nextLevel);
      if !met {
        return RequirementsUnmet;
      }
      var cost := path.value.GetCost(nextLevel);
      var charged := 0.0;
      if economy.enabled {
        if !(economy.balance >= cost) {
          return InsufficientFunds(cost);
        }
        charged := cost;
      }
      Commit(s, name, nextLevel, path.value);
      out := Upgraded(charged);
    }

    /**
     * The refusals, in their order: no path; the current level at
     * `maxLevel`; no next level in the path; an unmet prerequisite; an
     * enabled economy whose balance is below the next level's cost.
     * Otherwise the upgrade goes through and charges that cost, or nothing
     * without an economy.
     */
    lemma OutcomeSpec(s: Spawner, name: string, economy: Economy)
      ensures var out := Outcome(GetUpgradePath(s.spawnerType, name), s.GetUpgradeLevel(name), s.upgradeLevels,
                                 ConfigFor(s.spawnerType), name, economy);
              && (out == NoPath <==> GetUpgradePath(s.spawnerType, name).None?)
              && (out == AtMaxLevel <==>
                    GetUpgradePath(s.spawnerType, name).Some?
                    && s.GetUpgradeLevel(name) >= GetUpgradePath(s.spawnerType, name).value.maxLevel)
              && (out == NoNextLevel <==>
                    GetUpgradePath(s.spawnerType, name).Some?
                    && s.GetUpgradeLevel(name) < GetUpgradePath(s.spawnerType, name).value.maxLevel
                    && !CanUpgrade(s, name))
              && (out == RequirementsUnmet <==>
                    CanUpgrade(s, name)
                    && s.GetUpgradeLevel(name) < GetUpgradePath(s.spawnerType, name).value.maxLevel
                    && !RequirementsMet(ConfigFor(s.spawnerType), s.upgradeLevels, name, s.GetUpgradeLevel(name) + 1))
              && (out.InsufficientFunds? <==>
                    CanUpgrade(s, name)
                    && s.GetUpgradeLevel(name) < GetUpgradePath(s.spawnerType, name).value.maxLevel
                    && RequirementsMet(ConfigFor(s.spawnerType), s.upgradeLevels, name, s.GetUpgradeLevel(name) + 1)
                    && economy.enabled && !(economy.balance >= GetUpgradeCost(s, name)))
              && (out.Upgraded? ==> out.charged == (if economy.enabled then GetUpgradeCost(s, name) else 0.0))
    {
    }
  }

  /** The outcome `upgradeSpawner` reaches from the current level, by its checks in their order. */
  function Outcome(path: Option<UpgradePath>, current: int, levels: map<string, int>, config: Option<UpgradesFile>,
                   name: string, economy: Economy): UpgradeOutcome
    reads if path.Some? then {path.value} else {}
  {
    if path.None? then NoPath
    else if current >= path.value.maxLevel then AtMaxLevel
    else if !path.value.HasLevel(current + 1) then NoNextLevel
    else if !RequirementsMet(config, levels, name, current + 1) then RequirementsUnmet
    else
      var cost := path.value.GetCost(current + 1);
      if economy.enabled && !(economy.balance >= cost) then InsufficientFunds(cost)
      else Upgraded(if economy.enabled then cost else 0.0)
  }

  /** The section `upgrades.<name>.levels.<level>` of a file, when it is one. */
  function LevelSectionAt(file: UpgradesFile, name: string, level: int): Option<LevelSection> {
    if name in file && file[name].levels.Some? then FindSection(file[name].levels.value, IntToString(level)) else None
  }

  /** The section under `key` among the entries, when there is one. */
  function FindSection(entries: seq<(string, Option<LevelSection>)>, key: string): Option<LevelSection> {
    if entries == [] then None
    else if entries[0].0 == key then entries[0].1
    else FindSection(entries[1..], key)
  }

  /**
   * What `checkRequiredUpgrades` accepts: no file, no section for that
   * level or no `required_upgrades` in it passes; otherwise every listed
   * key must be at its listed level (a key without a level is at 0).
   */
  predicate RequirementsMet(config: Option<UpgradesFile>, levels: map<string, int>, name: string, nextLevel: int) {
    match config
    case None => true
    case Some(file) =>
      match LevelSectionAt(file, name, nextLevel)
      case None => true
      case Some(sec) =>
        sec.requiredUpgrades.None?
        || forall i :: 0 <= i < |sec.requiredUpgrades.value| ==>
             LevelIn(levels, sec.requiredUpgrades.value[i].0) >= sec.requiredUpgrades.value[i].1
  }

  /** Raising other levels never takes a met prerequisite away. */
  lemma RequirementsStayMet(config: Option<UpgradesFile>, a: map<string, int>, b: map<string, int>, name: string, nextLevel: int)
    requires RequirementsMet(config, a, name, nextLevel)
    requires forall k :: LevelIn(b, k) >= LevelIn(a, k)
    ensures RequirementsMet(config, b, name, nextLevel)
  {
  }

  /** A level with a prerequisite the spawner lacks altogether is refused, unless that prerequisite asks for level 0 or less. */
  lemma MissingPrerequisiteRefused(file: UpgradesFile, levels: map<string, int>, name: string, nextLevel: int, i: nat)
    requires LevelSectionAt(file, name, nextLevel).Some?
    requires LevelSectionAt(file, name, nextLevel).value.requiredUpgrades.Some?
    requires var req := LevelSectionAt(file, name, nextLevel).value.requiredUpgrades.value;
             i < |req| && req[i].0 !in levels && req[i].1 > 0
    ensures !RequirementsMet(Some(file), levels, name, nextLevel)
  {
  }

  lemma RestoreStep(before: SpawnerState, after: SpawnerState, st0: SpawnerState, paths: map<string, UpgradePath>,
                    done: seq<string>, name: string)
    requires RestoredSoFar(before, st0, paths, done)
    requires name in st0.levels
    requires Restores(paths, st0.levels, name) ==> after == Applied(before, name, paths[name].GetValue(st0.levels[name]))
    requires !Restores(paths, st0.levels, name) ==> after == before
    ensures RestoredSoFar(after, st0, paths, done + [name])
  {
    if Restores(paths, st0.levels, name) {
      AppliedSpec(before, name, paths[name].GetValue(st0.levels[name]));
    }
    forall p ensures ParamValue(after, p) == (if Key(p) in done + [name] then RestoredValue(st0, paths, p) else ParamValue(st0, p)) {
      assert Key(p) in done + [name] <==> Key(p) in done || Key(p) == name;
    }
  }

  lemma RestoredSoFarDone(st: SpawnerState, st0: SpawnerState, paths: map<string, UpgradePath>, order: seq<string>)
    requires RestoredSoFar(st, st0, paths, order)
    requires forall k :: k in order <==> k in st0.levels
    ensures st == Restored(st0, paths)
  {
    var r := Restored(st0, paths);
    forall p ensures ParamValue(st, p) == ParamValue(r, p) {
      if Key(p) !in order {
        assert !Restores(paths, st0.levels, Key(p));
      }
    }
    assert st.spawnDelay == r.spawnDelay && st.spawnCount == r.spawnCount && st.maxNearby == r.maxNearby
      && st.range == r.range && st.maxStorage == r.maxStorage by {
      assert ParamValue(st, Speed) == ParamValue(r, Speed);
      assert ParamValue(st, Count) == ParamValue(r, Count);
      assert ParamValue(st, MaxNearby) == ParamValue(r, MaxNearby);
      assert ParamValue(st, Range) == ParamValue(r, Range);
      assert ParamValue(st, Storage) == ParamValue(r, Storage);
    }
  }
}
