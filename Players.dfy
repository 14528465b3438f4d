/**
 * The per-player record of `model/PlayerData.kt`: the spawner limits a
 * player has bought, one counter per spawner type, and the entity types
 * the player has unlocked for each spawner type. The counters are JVM
 * `Int`s, so `addPurchasedLimit` wraps before it clamps.
 */
module Players {
  import opened Common
  import opened Spawners

  class PlayerData {
    const uuid: PlayerId
    var normalPurchasedLimit: int
    var premiumPurchasedLimit: int
    var unlockedEntities: map<SpawnerType, set<EntityType>>

    /** The `init` block gives both spawner types an unlocked set, and nothing removes one. */
    ghost predicate Valid()
      reads this
    {
      forall t: SpawnerType :: t in unlockedEntities
    }

    /** The primary constructor and its `init` block, which `putIfAbsent`s an empty set per type. */
    constructor (uuid: PlayerId, normalPurchasedLimit: int, premiumPurchasedLimit: int,
                 unlockedEntities: map<SpawnerType, set<EntityType>>)
      ensures Valid()
      ensures this.uuid == uuid && this.normalPurchasedLimit == normalPurchasedLimit
              && this.premiumPurchasedLimit == premiumPurchasedLimit
      ensures forall t :: t in unlockedEntities ==> this.unlockedEntities[t] == unlockedEntities[t]
      ensures forall t :: t !in unlockedEntities ==> t in this.unlockedEntities && this.unlockedEntities[t] == {}
    {
      this.uuid := uuid;
      this.normalPurchasedLimit := normalPurchasedLimit;
      this.premiumPurchasedLimit := premiumPurchasedLimit;
      this.unlockedEntities := unlockedEntities;
      new;
      if Normal !in this.unlockedEntities {
        this.unlockedEntities := this.unlockedEntities[Normal := {}];
      }
      if Premium !in this.unlockedEntities {
        this.unlockedEntities := this.unlockedEntities[Premium := {}];
      }
      forall t: SpawnerType ensures t in this.unlockedEntities {
        assert t == Normal || t == Premium;
      }
    }

    /** `getPurchasedLimit(type)`. */
    function GetPurchasedLimit(t: SpawnerType): (r: int)
      reads this
      ensures t == Normal ==> r == normalPurchasedLimit
      ensures t == Premium ==> r == premiumPurchasedLimit
    {
      match t
      case Normal => normalPurchasedLimit
      case Premium => premiumPurchasedLimit
    }

    /** `setPurchasedLimit(type, limit)`: `max(0, limit)` for that type; the other counter is untouched. */
    method SetPurchasedLimit(t: SpawnerType, limit: int)
      modifies this
      ensures GetPurchasedLimit(t) == Max(0, limit) >= 0
      ensures forall t' :: t' != t ==> GetPurchasedLimit(t') == old(GetPurchasedLimit(t'))
      ensures unlockedEntities == old(unlockedEntities)
    {
      var validLimit := CoerceAtLeast(limit, 0);
      match t {
        case Normal => normalPurchasedLimit := validLimit;
        case Premium => premiumPurchasedLimit := validLimit;
      }
    }

    /**
     * `addPurchasedLimit(type, amount)`: the 32-bit sum, raised to 0 when
     * negative. A sum past `Int.MAX_VALUE` wraps to a negative number and so
     * ends at 0.
     */
    method AddPurchasedLimit(t: SpawnerType, amount: int)
      modifies this
      ensures GetPurchasedLimit(t) == Max(0, Wrap32(old(GetPurchasedLimit(t)) + amount)) >= 0
      ensures IsInt32(old(GetPurchasedLimit(t))) && IsInt32(amount) && old(GetPurchasedLimit(t)) + amount > INT_MAX ==>
                GetPurchasedLimit(t) == 0
      ensures forall t' :: t' != t ==> GetPurchasedLimit(t') == old(GetPurchasedLimit(t'))
      ensures unlockedEntities == old(unlockedEntities)
    {
      if IsInt32(GetPurchasedLimit(t)) && IsInt32(amount) && GetPurchasedLimit(t) + amount > INT_MAX {
        AddPastMaxWrapsToZero(GetPurchasedLimit(t), amount);
      }
      match t {
        case Normal => normalPurchasedLimit := CoerceAtLeast(Wrap32(normalPurchasedLimit + amount), 0);
        case Premium => premiumPurchasedLimit := CoerceAtLeast(Wrap32(premiumPurchasedLimit + amount), 0);
      }
    }

    /** `getUnlockedEntities(type)`: the `getOrPut` never inserts, because both types have a set. */
    function GetUnlockedEntities(t: SpawnerType): (r: set<EntityType>)
      reads this
      requires Valid()
      ensures forall e :: e in r <==> HasUnlockedEntity(t, e)
    {
      unlockedEntities[t]
    }

    /** `hasUnlockedEntity(type, entityType)`: false for a type without a set. */
    predicate HasUnlockedEntity(t: SpawnerType, e: EntityType)
      reads this
    {
      t in unlockedEntities && e in unlockedEntities[t]
    }

    /** `unlockEntity(type, entityType)`: afterwards it is unlocked, and no other answer changed. */
    method UnlockEntity(t: SpawnerType, e: EntityType)
      requires Valid()
      modifies this
      ensures Valid()
      ensures unlockedEntities == old(unlockedEntities)[t := old(unlockedEntities)[t] + {e}]
      ensures HasUnlockedEntity(t, e)
      ensures forall t', e' :: (t', e') != (t, e) ==> (HasUnlockedEntity(t', e') <==> old(HasUnlockedEntity(t', e')))
      ensures GetPurchasedLimit(Normal) == old(GetPurchasedLimit(Normal))
              && GetPurchasedLimit(Premium) == old(GetPurchasedLimit(Premium))
    {
      var entities := if t in unlockedEntities then unlockedEntities[t] else {};
      unlockedEntities := unlockedEntities[t := entities + {e}];
    }

    /** `lockEntity(type, entityType)`: afterwards it is locked, and no other answer changed. */
    method LockEntity(t: SpawnerType, e: EntityType)
      requires Valid()
      modifies this
      ensures Valid()
      ensures unlockedEntities == old(unlockedEntities)[t := old(unlockedEntities)[t] - {e}]
      ensures !HasUnlockedEntity(t, e)
      ensures forall t', e' :: (t', e') != (t, e) ==> (HasUnlockedEntity(t', e') <==> old(HasUnlockedEntity(t', e')))
      ensures GetPurchasedLimit(Normal) == old(GetPurchasedLimit(Normal))
              && GetPurchasedLimit(Premium) == old(GetPurchasedLimit(Premium))
    {
      if t in unlockedEntities {
        unlockedEntities := unlockedEntities[t := unlockedEntities[t] - {e}];
      }
    }
  }

  /**
   * A sum of two `Int`s past `Int.MAX_VALUE` wraps to a negative number,
   * which `coerceAtLeast(0)` raises to 0.
   */
  lemma AddPastMaxWrapsToZero(current: int, amount: int)
    requires IsInt32(current) && IsInt32(amount) && current + amount > INT_MAX
    ensures Wrap32(current + amount) == current + amount - TWO_32 < 0
    ensures Max(0, Wrap32(current + amount)) == 0
  {
    var x := current + amount;
    assert 0 <= x - INT_MIN - TWO_32 < TWO_32;
    assert (x - INT_MIN) % TWO_32 == x - INT_MIN - TWO_32;
  }
}
