/**
 * The upgrade table of one upgrade key (`model/UpgradePath.kt`): an immutable
 * record with a cost and a value per level. Levels are 1-indexed: level `l`
 * reads entry `l - 1`, and any level outside the table costs nothing and has
 * no value.
 */
module UpgradePaths {
  import opened Common

  /** A YAML scalar read from a level entry: a number, or anything else. */
  datatype ConfigValue = Number(n: real) | Other

  datatype UpgradePath = UpgradePath(
    name: string,
    displayName: string,
    maxLevel: int,
    costs: seq<real>,
    values: seq<ConfigValue>,
    requiredUpgrades: map<int, map<string, int>>)

  /** `getCost(level)`. */
  function GetCost(p: UpgradePath, level: int): (r: real)
    ensures 1 <= level <= |p.costs| ==> r == p.costs[level - 1]
    ensures level <= 0 || level > |p.costs| ==> r == 0.0
  {
    if level > 0 && level <= |p.costs| then p.costs[level - 1] else 0.0
  }

  /** `getValue(level)`; `None` is Kotlin's `null`. */
  function GetValue(p: UpgradePath, level: int): (r: Option<ConfigValue>)
    ensures 1 <= level <= |p.values| ==> r == Some(p.values[level - 1])
    ensures level <= 0 || level > |p.values| ==> r == None
  {
    if level > 0 && level <= |p.values| then Some(p.values[level - 1]) else None
  }

  /** The sum of a list of costs. */
  function Sum(s: seq<real>): real {
    if s == [] then 0.0 else Sum(s[..|s| - 1]) + s[|s| - 1]
  }

  /** What buying levels `1..n` of a path costs in total, level by level. */
  function CostOfLevels(p: UpgradePath, n: nat): real {
    if n == 0 then 0.0 else CostOfLevels(p, n - 1) + GetCost(p, n)
  }

  /**
   * The 1-indexed lookup charges each table entry exactly once: buying
   * levels `1..n` costs the first `n` entries, and levels past the table
   * add nothing.
   */
  lemma {:induction false} CostOfLevelsIsPrefixSum(p: UpgradePath, n: nat)
    ensures CostOfLevels(p, n) == Sum(p.costs[..Min(n, |p.costs|)])
  {
    if n > 0 {
      CostOfLevelsIsPrefixSum(p, n - 1);
      if n <= |p.costs| {
        assert p.costs[..n][..n - 1] == p.costs[..n - 1];
      }
    }
  }
}
