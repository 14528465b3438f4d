/**
 * `model/UpgradePath.kt` of the older `org/mcw` Kotlin tree, the path type
 * the Java upgrade manager fills while it reads an upgrades file. Levels are
 * added one at a time: `addLevel` files a level under its number and raises
 * `maxLevel` to it, and the getters read a missing level as cost and value 0.
 */
module McwUpgradePaths {
  import opened Common

  /** `UpgradePath.UpgradeLevel`: an `Int` cost, a value and the prerequisites by upgrade key. */
  datatype UpgradeLevel = UpgradeLevel(cost: int, value: real, requiredUpgrades: map<string, int>)

  class UpgradePath {
    const key: string
    var name: string
    var description: string
    var maxLevel: int
    var levels: map<int, UpgradeLevel>

    /**
     * Built from the defaults and grown only by `addLevel`, a path never has
     * a level above `maxLevel`, and `maxLevel` is 0 or one of its levels.
     */
    ghost predicate Valid()
      reads this
    {
      && maxLevel >= 0
      && (forall l :: l in levels ==> l <= maxLevel)
      && (maxLevel == 0 || maxLevel in levels)
    }

    /** `UpgradePath(key)`: the name is the key, no description, no levels, `maxLevel` 0. */
    constructor (key: string)
      ensures Valid()
      ensures this.key == key && name == key && description == "" && maxLevel == 0 && levels == map[]
    {
      this.key := key;
      name := key;
      description := "";
      maxLevel := 0;
      levels := map[];
    }

    /** `getLevel(level)`. */
    function GetLevel(level: int): (r: Option<UpgradeLevel>)
      reads this
      ensures r.Some? <==> HasLevel(level)
      ensures r.Some? ==> r.value == levels[level]
    {
      if level in levels then Some(levels[level]) else None
    }

    /** `hasLevel(level)`: the level was added. */
    predicate HasLevel(level: int)
      reads this
    {
      level in levels
    }

    /** `getCost(level)`: the level's `Int` cost as a `Double`, 0 for a missing level. */
    function GetCost(level: int): (r: real)
      reads this
      ensures !HasLevel(level) ==> r == 0.0
      ensures HasLevel(level) ==> r == levels[level].cost as real
    {
      match GetLevel(level)
      case Some(l) => l.cost as real
      case None => 0.0
    }

    /** `getValue(level)`: the level's value, 0 for a missing level. */
    function GetValue(level: int): (r: real)
      reads this
      ensures !HasLevel(level) ==> r == 0.0
      ensures HasLevel(level) ==> r == levels[level].value
    {
      match GetLevel(level)
      case Some(l) => l.value
      case None => 0.0
    }

    /** Above `maxLevel` there is nothing: no level, cost 0, value 0. */
    lemma NothingAboveMax(level: int)
      requires Valid() && level > maxLevel
      ensures !HasLevel(level) && GetCost(level) == 0.0 && GetValue(level) == 0.0
    {
    }

    /** A path with any positive level has its `maxLevel` among its levels. */
    lemma MaxLevelIsALevel(level: int)
      requires Valid() && HasLevel(level) && level > 0
      ensures HasLevel(maxLevel) && level <= maxLevel
    {
    }

    /**
     * `addLevel(level, upgradeLevel)`: the level is filed (replacing an
     * earlier one of the same number) and `maxLevel` becomes the larger of
     * the two.
     */
    method AddLevel(level: int, upgradeLevel: UpgradeLevel)
      requires Valid()
      modifies this
      ensures Valid()
      ensures levels == old(levels)[level := upgradeLevel]
      ensures maxLevel == Max(old(maxLevel), level)
      ensures name == old(name) && description == old(description)
    {
      levels := levels[level := upgradeLevel];
      if level > maxLevel {
        maxLevel := level;
      }
    }

    /**
     * The simplified `addLevel(level, value, cost)`: the cost is stored
     * truncated to an `Int`, with no prerequisites.
     */
    method AddSimpleLevel(level: int, value: real, cost: real)
      requires Valid()
      modifies this
      ensures Valid()
      ensures levels == old(levels)[level := UpgradeLevel(TruncToInt(cost), value, map[])]
      ensures maxLevel == Max(old(maxLevel), level)
      ensures name == old(name) && description == old(description)
      ensures forall l :: HasLevel(l) <==> l == level || l in old(levels)
      ensures GetCost(level) == TruncToInt(cost) as real && GetValue(level) == value
    {
      var upgradeLevel := UpgradeLevel(TruncToInt(cost), value, map[]);
      AddLevel(level, upgradeLevel);
    }
  }
}
