/**
 * `manager/PermissionManager.kt`: the spawner limit of a player and the
 * precise-mode permission. The player's effective permissions are given as
 * the sequence of permission names Bukkit iterates over; every name counts,
 * whatever value the attachment grants, as in the source.
 */
module Permissions {
  import opened Common
  import opened Text
  import opened Spawners
  import opened Configs

  /** `type.name.lowercase()`. */
  function TypeLower(t: SpawnerType): string {
    match t
    case Normal => "normal"
    case Premium => "premium"
  }

  /** The prefix `mcw.limit.<type>.extra.` of an extra-limit permission. */
  function ExtraPrefix(t: SpawnerType): string {
    "mcw.limit." + TypeLower(t) + ".extra."
  }

  /**
   * The amount an extra-limit permission grants: the text after its last
   * '.', when that is an `Int`; `None` for any other permission.
   */
  function ExtraOf(perm: string, t: SpawnerType): (r: Option<int>)
    ensures r.Some? ==> StartsWith(perm, ExtraPrefix(t)) && IsInt32(r.value)
  {
    if StartsWith(perm, ExtraPrefix(t)) then ParseInt(SubstringAfterLast(perm, '.')) else None
  }

  /** What each permission grants, in iteration order. */
  function Grants(perms: seq<string>, t: SpawnerType): (g: seq<Option<int>>)
    ensures |g| == |perms|
    ensures forall i :: 0 <= i < |perms| ==> g[i] == ExtraOf(perms[i], t)
  {
    seq(|perms|, i requires 0 <= i < |perms| => ExtraOf(perms[i], t))
  }

  /**
   * `additionalLimit` after the loop over the grants: it starts at 0 and
   * takes every larger amount it meets, so it is the largest amount
   * granted, or 0.
   */
  function MaxGrant(g: seq<Option<int>>): (r: int)
    ensures r >= 0
    ensures forall i :: 0 <= i < |g| && g[i].Some? ==> g[i].value <= r
    ensures r == 0 || Some(r) in g
  {
    if g == [] then 0
    else
      var m := MaxGrant(g[..|g| - 1]);
      var a := g[|g| - 1];
      if a.Some? && a.value > m then a.value else m
  }

  /** The extra limit the permissions give for type `t`. */
  function MaxExtra(perms: seq<string>, t: SpawnerType): int {
    MaxGrant(Grants(perms, t))
  }

  /** The extra-limit loop of `getSpawnerLimit`. */
  method AdditionalLimit(perms: seq<string>, t: SpawnerType) returns (additionalLimit: int)
    ensures additionalLimit == MaxExtra(perms, t)
  {
    ghost var g := Grants(perms, t);
    additionalLimit := 0;
    for i := 0 to |perms|
      invariant additionalLimit == MaxGrant(g[..i])
    {
      assert g[..i + 1][..i] == g[..i];
      var permission := perms[i];
      if StartsWith(permission, ExtraPrefix(t)) {
        var amount := ParseInt(SubstringAfterLast(permission, '.'));
        if amount.Some? && amount.value > additionalLimit {
          additionalLimit := amount.value;
        }
      }
    }
    assert g[..|perms|] == g;
  }

  /** The limit `getSpawnerLimit` computes from the type's configuration file, the permissions and the purchases. */
  function SpawnerLimit(config: Option<TypeConfig>, perms: seq<string>, t: SpawnerType, purchased: int): int {
    if config.None? then 0
    else Wrap32(config.value.limitsBase.GetOr(5) + MaxExtra(perms, t) + purchased)
  }

  /**
   * `getSpawnerLimit(player, type)`: 0 without a configuration file for the
   * type; otherwise base (default 5) plus the largest extra plus the
   * purchased limit, as a JVM `Int` sum.
   */
  method GetSpawnerLimit(config: Option<TypeConfig>, perms: seq<string>, t: SpawnerType, purchased: int)
    returns (limit: int)
    ensures limit == SpawnerLimit(config, perms, t, purchased)
  {
    if config.None? {
      return 0;
    }
    var baseLimit := config.value.limitsBase.GetOr(5);
    var additionalLimit := AdditionalLimit(perms, t);
    ghost var sum := config.value.limitsBase.GetOr(5) + MaxExtra(perms, t) + purchased;
    assert baseLimit + additionalLimit + purchased == sum;
    limit := Wrap32(baseLimit + additionalLimit + purchased);
  }

  /**
   * The limit is the plain sum when it fits an `Int`; no extra permission
   * means no extra; the configuration's absence means 0.
   */
  lemma SpawnerLimitSpec(config: Option<TypeConfig>, perms: seq<string>, t: SpawnerType, purchased: int)
    ensures config.None? ==> SpawnerLimit(config, perms, t, purchased) == 0
    ensures config.Some? && IsInt32(config.value.limitsBase.GetOr(5) + MaxExtra(perms, t) + purchased) ==>
              SpawnerLimit(config, perms, t, purchased) == config.value.limitsBase.GetOr(5) + MaxExtra(perms, t) + purchased
  {
  }

  /**
   * The extra is at least every amount a permission grants, and it is either
   * 0 or the amount some permission grants; with no such permission it is 0.
   */
  lemma {:induction false} MaxExtraSpec(perms: seq<string>, t: SpawnerType)
    ensures MaxExtra(perms, t) >= 0
    ensures forall i :: 0 <= i < |perms| && ExtraOf(perms[i], t).Some? ==> ExtraOf(perms[i], t).value <= MaxExtra(perms, t)
    ensures MaxExtra(perms, t) == 0 || exists i :: 0 <= i < |perms| && ExtraOf(perms[i], t) == Some(MaxExtra(perms, t))
    ensures (forall i :: 0 <= i < |perms| ==> ExtraOf(perms[i], t).None?) ==> MaxExtra(perms, t) == 0
  {
    var g := Grants(perms, t);
    var m := MaxGrant(g);
    if m != 0 {
      var i :| 0 <= i < |g| && g[i] == Some(m);
      assert ExtraOf(perms[i], t) == Some(m);
    }
  }

  /** A non-numeric suffix grants nothing. */
  lemma NonNumericIgnored(t: SpawnerType)
    ensures ExtraOf(ExtraPrefix(t) + "vip", t) == None
    ensures MaxExtra([ExtraPrefix(t) + "vip"], t) == 0
  {
    var p := ExtraPrefix(t) + "vip";
    var r := SubstringAfterLast(p, '.');
    assert |r| > 0 ==> r[|r| - 1] == p[|p| - 1] == 'p';
    var body := if |r| > 0 && (r[0] == '-' || r[0] == '+') then r[1..] else r;
    assert |body| > 0 ==> body[|body| - 1] == 'p' && !IsDigit(body[|body| - 1]);
    assert [p][..0] == [];
  }

  /** `canUsePreciseMode(player, type)`: always for NORMAL, with `mcw.spawnmode.precise` for PREMIUM. */
  predicate CanUsePreciseMode(t: SpawnerType, hasPrecisePermission: bool) {
    match t
    case Normal => true
    case Premium => hasPrecisePermission
  }

  /** Precise mode needs the permission exactly for PREMIUM spawners. */
  lemma PreciseModeNeedsPermissionOnlyForPremium(t: SpawnerType)
    ensures CanUsePreciseMode(t, false) <==> t == Normal
    ensures CanUsePreciseMode(t, true)
  {
  }
}
