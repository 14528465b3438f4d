/**
 * The state-changing handlers of `manager/GUIManager.kt`: the
 * `adjust_pos:<axis> <amount>` action of the precise-mode menu, the entity
 * menu's selection of a spawned type (with the unlock payment), and the
 * `purchase:limit <n>` action with its price formula. PlayerPoints and the
 * Vault economy are values (`PointsHook`, `Wallet`); the handler's outcome
 * says what they are charged. Messages, menus and the Bukkit block are not
 * modelled.
 */
module Gui {
  import opened Common
  import opened Text
  import opened Locations
  import opened Spawners
  import opened Players
  import opened Configs
  import Conditions
  import Commands
  import opened Upgrades
  import opened GuiText

  // ---------------------------------------------------------------------
  // adjust_pos

  /** `axis.lowercase()` against the cases of the `when`. */
  datatype Axis = AxisX | AxisY | AxisZ | Reset | OtherAxis

  function AxisOf(axis: string): Axis {
    var a := Lower(axis);
    if a == "x" then AxisX else if a == "y" then AxisY else if a == "z" then AxisZ
    else if a == "reset" then Reset else OtherAxis
  }

  datatype Adjustment = Adjustment(axis: Axis, amount: real)

  /**
   * The text after `adjust_pos:`, trimmed and split at single spaces: at
   * least two pieces, the second a `Double`; otherwise nothing happens.
   */
  function AdjustmentOf(action: string): Option<Adjustment>
    requires StartsWith(action, "adjust_pos:")
  {
    var parts := Split(Trim(action[11..]), " ");
    if |parts| < 2 then None
    else match ParseDouble(parts[1])
      case None => None
      case Some(amount) => Some(Adjustment(AxisOf(parts[0]), amount))
  }

  function AbsReal(x: real): real {
    if x < 0.0 then -x else x
  }

  /** One axis: 0 resets it; otherwise the moved offset when it stays within `±range`. */
  function Offset(current: real, amount: real, range: int): Option<real> {
    if amount == 0.0 then Some(0.0)
    else if AbsReal(current + amount) <= range as real then Some(current + amount)
    else None
  }

  /**
   * The spawner after a parsed adjustment, or `None` when the position is
   * refused (`validPosition = false`), in which case nothing changes. Any
   * accepted adjustment, an unknown axis included, selects precise mode.
   */
  function Adjusted(st: SpawnerState, adj: Adjustment): Option<SpawnerState> {
    match adj.axis
    case AxisX =>
      var v := Offset(st.preciseX, adj.amount, st.range);
      if v.None? then None else Some(st.(preciseX := v.value, mode := Precise))
    case AxisY =>
      var v := Offset(st.preciseY, adj.amount, st.range);
      if v.None? then None else Some(st.(preciseY := v.value, mode := Precise))
    case AxisZ =>
      var v := Offset(st.preciseZ, adj.amount, st.range);
      if v.None? then None else Some(st.(preciseZ := v.value, mode := Precise))
    case Reset => Some(st.(preciseX := 0.0, preciseY := 0.0, preciseZ := 0.0, mode := Precise))
    case OtherAxis => Some(st.(mode := Precise))
  }

  /** The whole `adjust_pos:` branch, from the permission check on. */
  function AdjustPosState(st: SpawnerState, hasPermission: bool, action: string): SpawnerState
    requires StartsWith(action, "adjust_pos:")
  {
    if !hasPermission then st
    else match AdjustmentOf(action)
      case None => st
      case Some(adj) => Adjusted(st, adj).GetOr(st)
  }

  /** The offsets lie within the activation range. */
  predicate WithinRange(st: SpawnerState) {
    AbsReal(st.preciseX) <= st.range as real && AbsReal(st.preciseY) <= st.range as real
    && AbsReal(st.preciseZ) <= st.range as real
  }

  /** An adjustment is refused exactly when it moves an axis by a non-zero amount past `±range`. */
  lemma AdjustRefusedSpec(st: SpawnerState, adj: Adjustment)
    ensures Adjusted(st, adj).None? <==>
              adj.amount != 0.0 &&
              ((adj.axis == AxisX && AbsReal(st.preciseX + adj.amount) > st.range as real) ||
               (adj.axis == AxisY && AbsReal(st.preciseY + adj.amount) > st.range as real) ||
               (adj.axis == AxisZ && AbsReal(st.preciseZ + adj.amount) > st.range as real))
  {
  }

  /**
   * An accepted adjustment changes only the offsets and the mode, which
   * becomes precise, and keeps every offset within range.
   */
  lemma AdjustAcceptedSpec(st: SpawnerState, adj: Adjustment)
    requires Adjusted(st, adj).Some?
    ensures var n := Adjusted(st, adj).value;
            n.mode == Precise && n.(preciseX := st.preciseX, preciseY := st.preciseY, preciseZ := st.preciseZ, mode := st.mode) == st
    ensures WithinRange(st) && st.range >= 0 ==> WithinRange(Adjusted(st, adj).value)
  {
    match adj.axis {
      case AxisX =>
      case AxisY =>
      case AxisZ =>
      case Reset =>
        assert AbsReal(0.0) == 0.0;
      case OtherAxis =>
    }
  }

  /** The `when (axis.lowercase())` of the branch and the `validPosition` test after it. */
  method ApplyAdjustment(s: Spawner, adj: Adjustment) returns (validPosition: bool)
    requires s.Valid()
    modifies s
    ensures s.Valid()
    ensures validPosition <==> Adjusted(old(s.State()), adj).Some?
    ensures s.State() == Adjusted(old(s.State()), adj).GetOr(old(s.State()))
  {
    var amount := adj.amount;
    var activationRange := s.activationRange;
    validPosition := true;
    match adj.axis {
      case AxisX =>
        if amount == 0.0 {
          s.preciseX := 0.0;
        } else {
          var newX := s.preciseX + amount;
          if AbsReal(newX) <= activationRange as real {
            s.preciseX := newX;
          } else {
            validPosition := false;
          }
        }
      case AxisY =>
        if amount == 0.0 {
          s.preciseY := 0.0;
        } else {
          var newY := s.preciseY + amount;
          if AbsReal(newY) <= activationRange as real {
            s.preciseY := newY;
          } else {
            validPosition := false;
          }
        }
      case AxisZ =>
        if amount == 0.0 {
          s.preciseZ := 0.0;
        } else {
          var newZ := s.preciseZ + amount;
          if AbsReal(newZ) <= activationRange as real {
            s.preciseZ := newZ;
          } else {
            validPosition := false;
          }
        }
      case Reset =>
        s.preciseX := 0.0;
        s.preciseY := 0.0;
        s.preciseZ := 0.0;
      case OtherAxis =>
    }
    if validPosition {
      s.spawnMode := Precise;
    }
  }

  /** The `adjust_pos:` branch of `executeActions`; `applied` is `validPosition` after a parsed adjustment. */
  method AdjustPos(s: Spawner, hasPermission: bool, action: string) returns (applied: bool)
    requires StartsWith(action, "adjust_pos:")
    requires s.Valid()
    modifies s
    ensures s.Valid()
    ensures s.State() == AdjustPosState(old(s.State()), hasPermission, action)
    ensures applied <==> hasPermission && AdjustmentOf(action).Some? && Adjusted(old(s.State()), AdjustmentOf(action).value).Some?
  {
    if !hasPermission {
      return false;
    }
    var parts := Split(Trim(action[11..]), " ");
    if |parts| < 2 {
      return false;
    }
    var amount := ParseDouble(parts[1]);
    if amount.None? {
      return false;
    }
    applied := ApplyAdjustment(s, Adjustment(AxisOf(parts[0]), amount.value));
  }

  // ---------------------------------------------------------------------
  // Entity selection and unlocking

  /** The keys of an `entities.<name>` section that `handleEntitySelection` reads. */
  datatype EntityConfig = EntityConfig(
    enabled: Option<bool>,                           // enabled, default true
    spawnConditions: Option<Conditions.YSection>,    // spawn_conditions.min_y / max_y
    spawnCondition: Option<string>,                  // spawn_condition
    requireUnlock: Option<bool>,                     // require_unlock, default true
    price: Option<real>,                             // price, default 0.0
    point: Option<int>)                              // point, default 0

  /** PlayerPoints as the handlers see it: whether it is hooked, and the player's points. */
  datatype PointsHook = PointsHook(available: bool, points: int)

  /** `playerPointsHook?.isAvailable() == true && hasPoints(player, amount)`. */
  predicate HasPoints(h: PointsHook, amount: int) {
    h.available && h.points >= amount
  }

  /** `economy != null && economy.hasEconomy() && economy.has(player, amount)`. */
  predicate HasMoney(w: Wallet, amount: real) {
    w.hasEconomy && w.balance >= amount
  }

  /**
   * `checkSpawnCondition`: no condition or an empty one passes; otherwise the
   * text, with its placeholders resolved when PlaceholderAPI is enabled, is
   * evaluated. `resolve` stands for `setPlaceholders` followed by the biome
   * and world-name substitutions.
   */
  predicate SpawnConditionHolds(papiEnabled: bool, resolve: string -> string, condition: Option<string>) {
    condition.None? || condition.value == [] ||
    EvaluateCondition(if papiEnabled then resolve(condition.value) else condition.value)
  }

  datatype UnlockRefusal = BothNeeded(hasPoints: bool, hasMoney: bool) | NotEnoughPoints | NotEnoughMoney

  /** What unlocking costs, or why it is refused. */
  datatype UnlockCharge = UnlockRefused(reason: UnlockRefusal) | Charge(points: int, money: real)

  /**
   * The `when` over `point` and `price` as written: when both are positive,
   * every branch only sends messages, so such an entity can never be
   * unlocked.
   */
  function UnlockPaymentAsWritten(pointPrice: int, price: real, h: PointsHook, w: Wallet): UnlockCharge {
    if pointPrice > 0 && price > 0.0 then UnlockRefused(BothNeeded(HasPoints(h, pointPrice), HasMoney(w, price)))
    else if pointPrice > 0 && price == 0.0 then
      if HasPoints(h, pointPrice) then Charge(pointPrice, 0.0) else UnlockRefused(NotEnoughPoints)
    else if pointPrice == 0 && price > 0.0 then
      if HasMoney(w, price) then Charge(0, price) else UnlockRefused(NotEnoughMoney)
    else Charge(0, 0.0)
  }

  /** A player who holds both prices is still refused. */
  lemma BothPricesNeverUnlockAsWritten()
    ensures UnlockPaymentAsWritten(10, 10.0, PointsHook(true, 100), Wallet(true, 100.0)) == UnlockRefused(BothNeeded(true, true))
  {
  }

  /** The payment as evidently intended: the dual payment takes both prices when the player has both. */
  function UnlockPayment(pointPrice: int, price: real, h: PointsHook, w: Wallet): UnlockCharge {
    if pointPrice > 0 && price > 0.0 then
      if HasPoints(h, pointPrice) && HasMoney(w, price) then Charge(pointPrice, price)
      else UnlockRefused(BothNeeded(HasPoints(h, pointPrice), HasMoney(w, price)))
    else if pointPrice > 0 && price == 0.0 then
      if HasPoints(h, pointPrice) then Charge(pointPrice, 0.0) else UnlockRefused(NotEnoughPoints)
    else if pointPrice == 0 && price > 0.0 then
      if HasMoney(w, price) then Charge(0, price) else UnlockRefused(NotEnoughMoney)
    else Charge(0, 0.0)
  }

  /**
   * Unlocking charges the points price when it is positive and the money
   * price is not negative, and the money price when it is positive and the
   * points price is not negative; it goes through exactly when the player
   * holds every price it charges. It agrees with the code as written except
   * when both prices are positive.
   */
  lemma UnlockPaymentSpec(pointPrice: int, price: real, h: PointsHook, w: Wallet)
    ensures var points := if pointPrice > 0 && price >= 0.0 then pointPrice else 0;
            var money := if price > 0.0 && pointPrice >= 0 then price else 0.0;
            && (UnlockPayment(pointPrice, price, h, w).Charge? <==>
                  (points > 0 ==> HasPoints(h, points)) && (money > 0.0 ==> HasMoney(w, money)))
            && (UnlockPayment(pointPrice, price, h, w).Charge? ==> UnlockPayment(pointPrice, price, h, w) == Charge(points, money))
    ensures !(pointPrice > 0 && price > 0.0) ==> UnlockPayment(pointPrice, price, h, w) == UnlockPaymentAsWritten(pointPrice, price, h, w)
  {
  }

  /** What `handleEntitySelection` does. */
  datatype Selection =
    | Disabled
    | OutOfYRange
    | ConditionFailed
    | Refused(reason: UnlockRefusal)
    | UnlockedFor(points: int, money: real)
    | Switched

  /**
   * The guards of `handleEntitySelection` in their order: `enabled`, the Y
   * range unless the player bypasses conditions, `spawn_condition` (never
   * bypassed), then the unlock, paid as written; an unlocked entity is
   * switched to.
   */
  function SelectionOf(cfg: EntityConfig, bypass: bool, blockY: int, papiEnabled: bool, resolve: string -> string,
                       alreadyUnlocked: bool, h: PointsHook, w: Wallet): Selection
  {
    if !cfg.enabled.GetOr(true) then Disabled
    else if !bypass && !Conditions.CheckYConditions(blockY, cfg.spawnConditions) then OutOfYRange
    else if !SpawnConditionHolds(papiEnabled, resolve, cfg.spawnCondition) then ConditionFailed
    else if cfg.requireUnlock.GetOr(true) && !alreadyUnlocked then
      match UnlockPaymentAsWritten(cfg.point.GetOr(0), cfg.price.GetOr(0.0), h, w)
      case UnlockRefused(r) => Refused(r)
      case Charge(p, m) => UnlockedFor(p, m)
    else Switched
  }

  /**
   * The spawner switches exactly when every check passes and the entity
   * needs no unlock or is unlocked; unlocking never switches; a bypass
   * skips only the Y range; and, as written, an entity priced in both
   * points and money is never unlocked.
   */
  lemma SelectionSpec(cfg: EntityConfig, bypass: bool, blockY: int, papiEnabled: bool, resolve: string -> string,
                      alreadyUnlocked: bool, h: PointsHook, w: Wallet)
    ensures SelectionOf(cfg, bypass, blockY, papiEnabled, resolve, alreadyUnlocked, h, w) == Switched <==>
              cfg.enabled.GetOr(true) && (bypass || Conditions.CheckYConditions(blockY, cfg.spawnConditions))
              && SpawnConditionHolds(papiEnabled, resolve, cfg.spawnCondition)
              && (!cfg.requireUnlock.GetOr(true) || alreadyUnlocked)
    ensures SelectionOf(cfg, bypass, blockY, papiEnabled, resolve, alreadyUnlocked, h, w).UnlockedFor? ==>
              cfg.requireUnlock.GetOr(true) && !alreadyUnlocked
    ensures bypass ==> SelectionOf(cfg, bypass, blockY, papiEnabled, resolve, alreadyUnlocked, h, w) != OutOfYRange
    ensures cfg.enabled.GetOr(true) && !SpawnConditionHolds(papiEnabled, resolve, cfg.spawnCondition)
            && (bypass || Conditions.CheckYConditions(blockY, cfg.spawnConditions)) ==>
              SelectionOf(cfg, bypass, blockY, papiEnabled, resolve, alreadyUnlocked, h, w) == ConditionFailed
    ensures cfg.point.GetOr(0) > 0 && cfg.price.GetOr(0.0) > 0.0 ==>
              !SelectionOf(cfg, bypass, blockY, papiEnabled, resolve, alreadyUnlocked, h, w).UnlockedFor?
  {
  }

  /**
   * The switch: the new entity type, and, unless `updateStoredSpawns(0)`
   * throws on a negative capacity, an empty store, no released spawns and a
   * release clock restarted at `now`.
   */
  function SwitchedState(st: SpawnerState, e: EntityType, now: int): (r: SpawnerState)
    ensures r.entityType == e && r.levels == st.levels && r.mode == st.mode
    ensures st.maxStorage >= 0 ==> r.stored == 0 && r.released == 0 && r.lastRelease == now
    ensures st.maxStorage < 0 ==> r.(entityType := st.entityType) == st
  {
    if st.maxStorage >= 0 then st.(entityType := e, stored := 0, released := 0, lastRelease := now)
    else st.(entityType := e)
  }

  /**
   * `handleEntitySelection(player, spawner, entityType, entityConfig)`: the
   * spawner changes only on a switch, and the player's data only on an
   * unlock, which adds the entity to the spawner type's unlocked set.
   */
  method HandleEntitySelection(s: Spawner, e: EntityType, cfg: EntityConfig, bypass: bool, papiEnabled: bool,
                               resolve: string -> string, data: PlayerData?, h: PointsHook, w: Wallet, now: int)
    returns (out: Selection)
    requires s.Valid()
    requires data != null ==> data.Valid()
    modifies s, data
    ensures s.Valid()
    ensures data != null ==> data.Valid()
    ensures out == SelectionOf(cfg, bypass, BlockY(s.location), papiEnabled, resolve,
                               data != null && old(data.HasUnlockedEntity(s.spawnerType, e)), h, w)
    ensures out == Switched ==> s.State() == SwitchedState(old(s.State()), e, now)
    ensures out != Switched ==> s.State() == old(s.State())
    ensures data != null && out.UnlockedFor? ==>
              data.unlockedEntities == old(data.unlockedEntities)[s.spawnerType := old(data.unlockedEntities)[s.spawnerType] + {e}]
    ensures data != null && !out.UnlockedFor? ==> data.unlockedEntities == old(data.unlockedEntities)
    ensures data != null ==> data.GetPurchasedLimit(Normal) == old(data.GetPurchasedLimit(Normal))
                             && data.GetPurchasedLimit(Premium) == old(data.GetPurchasedLimit(Premium))
  {
    if !cfg.enabled.GetOr(true) {
      return Disabled;
    }
    if !bypass && cfg.spawnConditions.Some? && !Conditions.CheckYConditions(BlockY(s.location), cfg.spawnConditions) {
      return OutOfYRange;
    }
    if cfg.spawnCondition.Some? && !SpawnConditionHolds(papiEnabled, resolve, cfg.spawnCondition) {
      return ConditionFailed;
    }
    var requireUnlock := cfg.requireUnlock.GetOr(true);
    var unlocked := !requireUnlock || (data != null && data.HasUnlockedEntity(s.spawnerType, e));
    if !unlocked {
      match UnlockPaymentAsWritten(cfg.point.GetOr(0), cfg.price.GetOr(0.0), h, w) {
        case UnlockRefused(r) =>
          return Refused(r);
        case Charge(p, m) =>
          if data != null {
            data.UnlockEntity(s.spawnerType, e);
          }
          return UnlockedFor(p, m);
      }
    }
    SwitchEntity(s, e, now);
    out := Switched;
  }

  /** The `else` branch: the new type, then `updateStoredSpawns(0)`, which throws on a negative capacity before the resets. */
  method SwitchEntity(s: Spawner, e: EntityType, now: int)
    requires s.Valid()
    modifies s
    ensures s.Valid()
    ensures s.State() == SwitchedState(old(s.State()), e, now)
  {
    s.entityType := e;
    var ok := s.UpdateStoredSpawns(0);
    if ok {
      s.storedSpawnsReleased := 0;
      s.lastReleaseTime := now;
    }
  }

  // ---------------------------------------------------------------------
  // Buying extra limit

  /** `Math.pow(b, e)` for an `Int` exponent; a zero base with a negative exponent (Infinity) is 0 here. */
  function PowZ(b: real, e: int): real {
    if e >= 0 then Pow(b, e)
    else
      var p := Pow(b, -e);
      if p == 0.0 then 0.0 else 1.0 / p
  }

  /** The price of the slot after `exponent` purchased ones: `basePrice * multiplier^exponent`. */
  function SlotPrice(basePrice: real, multiplier: real, exponent: int): real {
    basePrice * PowZ(multiplier, exponent)
  }

  /** The multiplier mode: slot `currentPurchased + i` costs `basePrice * multiplier^(currentPurchased + i)`. */
  function MultiplierCost(basePrice: real, multiplier: real, current: int, amount: int): real
    decreases amount
  {
    if amount <= 0 then 0.0
    else MultiplierCost(basePrice, multiplier, current, amount - 1) + SlotPrice(basePrice, multiplier, Wrap32(current + (amount - 1)))
  }

  /**
   * `calculatePurchaseCost(type, currentPurchased, amount)`: 0 without a
   * configuration file; `price_mode: fixed` (any case) charges the base
   * price per slot; any other mode multiplies. The defaults are 1000.0,
   * `multiplier` and 1.2.
   */
  function PurchaseCost(config: Option<TypeConfig>, current: int, amount: int): real {
    if config.None? then 0.0
    else
      var basePrice := config.value.basePrice.GetOr(1000.0);
      var multiplier := config.value.priceMultiplier.GetOr(1.2);
      if EqualsIgnoreCase(config.value.priceMode.GetOr("multiplier"), "fixed") then basePrice * amount as real
      else MultiplierCost(basePrice, multiplier, current, amount)
  }

  method CalculatePurchaseCost(config: Option<TypeConfig>, currentPurchased: int, amount: int) returns (totalCost: real)
    ensures totalCost == PurchaseCost(config, currentPurchased, amount)
  {
    if config.None? {
      return 0.0;
    }
    var basePrice := config.value.basePrice.GetOr(1000.0);
    var priceMode := config.value.priceMode.GetOr("multiplier");
    var multiplier := config.value.priceMultiplier.GetOr(1.2);
    totalCost := 0.0;
    if EqualsIgnoreCase(priceMode, "fixed") {
      totalCost := basePrice * amount as real;
    } else {
      var i := 0;
      while i < amount
        invariant 0 <= i <= Max(0, amount)
        invariant totalCost == MultiplierCost(basePrice, multiplier, currentPurchased, i)
        decreases amount - i
      {
        var price := SlotPrice(basePrice, multiplier, Wrap32(currentPurchased + i));
        totalCost := totalCost + price;
        i := i + 1;
      }
    }
  }

  /** With the defaults, the first three slots cost 1000 + 1200 + 1440. */
  lemma DefaultPriceExample(c: TypeConfig)
    requires c.basePrice.None? && c.priceMode.None? && c.priceMultiplier.None?
    ensures PurchaseCost(Some(c), 0, 3) == 3640.0
  {
    assert Lower("multiplier") != Lower("fixed") by {
      assert Lower("multiplier")[0] == 'm';
    }
    assert PurchaseCost(Some(c), 0, 3) == MultiplierCost(1000.0, 1.2, 0, 3);
    assert Wrap32(0) == 0 && Wrap32(1) == 1 && Wrap32(2) == 2;
    assert SlotPrice(1000.0, 1.2, 0) == 1000.0;
    assert SlotPrice(1000.0, 1.2, 1) == 1200.0;
    assert SlotPrice(1000.0, 1.2, 2) == 1440.0 by {
      assert Pow(1.2, 2) == 1.44;
    }
  }

  /**
   * Buying `n` slots and then `k` more costs what buying `n + k` at once
   * does, as long as the slot numbers stay within `Int` range.
   */
  lemma {:induction false} CostSplits(basePrice: real, multiplier: real, current: nat, n: nat, k: nat)
    requires current + n + k <= INT_MAX
    ensures MultiplierCost(basePrice, multiplier, current, n + k) ==
            MultiplierCost(basePrice, multiplier, current, n) + MultiplierCost(basePrice, multiplier, current + n, k)
  {
    if k > 0 {
      CostSplits(basePrice, multiplier, current, n, k - 1);
      assert Wrap32(current + (n + k - 1)) == Wrap32(current + n + (k - 1));
    }
  }

  lemma {:induction false} PowOne(n: nat)
    ensures Pow(1.0, n) == 1.0
  {
    if n > 0 {
      PowOne(n - 1);
    }
  }

  /** A multiplier of 1 charges the base price for every slot, as the fixed mode does. */
  lemma UnitMultiplierIsFixed(basePrice: real, current: int, amount: nat)
    ensures MultiplierCost(basePrice, 1.0, current, amount) == basePrice * amount as real
  {
    forall e ensures SlotPrice(basePrice, 1.0, e) == basePrice {
      UnitSlotPrice(basePrice, e);
    }
    FlatSlotsCost(basePrice, 1.0, current, amount);
    RepeatedIsProduct(basePrice, amount);
  }

  /** `n` additions of `x`. */
  function Repeated(x: real, n: nat): real {
    if n == 0 then 0.0 else Repeated(x, n - 1) + x
  }

  lemma {:induction false} RepeatedIsProduct(x: real, n: nat)
    ensures Repeated(x, n) == x * n as real
  {
    if n > 0 {
      RepeatedIsProduct(x, n - 1);
      ProductStep(x, n - 1, Repeated(x, n - 1), x);
    }
  }

  /** When every slot costs the base price, `n` slots cost the base price added `n` times. */
  lemma {:induction false} FlatSlotsCost(basePrice: real, multiplier: real, current: int, amount: nat)
    requires forall e :: SlotPrice(basePrice, multiplier, e) == basePrice
    ensures MultiplierCost(basePrice, multiplier, current, amount) == Repeated(basePrice, amount)
  {
    if amount > 0 {
      FlatSlotsCost(basePrice, multiplier, current, amount - 1);
    }
  }

  /** With a multiplier of 1 every slot costs the base price. */
  lemma UnitSlotPrice(basePrice: real, e: int)
    ensures SlotPrice(basePrice, 1.0, e) == basePrice
  {
    if e >= 0 { PowOne(e); } else { PowOne(-e); }
  }

  lemma ProductStep(basePrice: real, n: nat, prev: real, slot: real)
    requires prev == basePrice * n as real && slot == basePrice
    ensures prev + slot == basePrice * (n + 1) as real
  {
  }

  /** What `handlePurchaseLimit` does; the two `return`s without a message are `NoConfig` and `NoPlayerData`. */
  datatype PurchaseOutcome =
    | NoConfig
    | PremiumByCommandOnly
    | NoPlayerData
    | PurchaseExceedsMax(max: int, current: int)
    | PaidWithPoints(points: int)
    | PaidWithMoney(cost: real)
    | NoPaymentMethod

  /**
   * The guards of `handlePurchaseLimit`, then the payment: PlayerPoints
   * first, for the cost truncated to an `Int`, then the economy for the
   * cost itself. The cap test is on the 32-bit sum.
   */
  function PurchaseOutcomeOf(config: Option<TypeConfig>, t: SpawnerType, current: Option<int>, amount: int,
                             h: PointsHook, w: Wallet): PurchaseOutcome
  {
    if config.None? then NoConfig
    else if t == Premium then PremiumByCommandOnly
    else if current.None? then NoPlayerData
    else
      SaleOf(Commands.MaxPurchasable(t, config.value), current.value, amount, PurchaseCost(config, current.value, amount), h, w)
  }

  /** A sale past the guards: the cap test on the 32-bit sum, then the payment of `cost`. */
  function SaleOf(max: int, current: int, amount: int, cost: real, h: PointsHook, w: Wallet): PurchaseOutcome {
    if Wrap32(current + amount) > max then PurchaseExceedsMax(max, current)
    else PaymentOf(cost, h, w)
  }

  /**
   * A sale keeps the limit within the cap and charges `cost`: PlayerPoints
   * for its truncation when the player holds that many points, else the
   * economy when the balance covers it.
   */
  lemma SaleSpec(max: int, current: int, amount: int, cost: real, h: PointsHook, w: Wallet)
    ensures var out := SaleOf(max, current, amount, cost, h, w);
            && (Paid(out) ==> Max(0, Wrap32(current + amount)) <= Max(0, max))
            && (out.PaidWithPoints? <==> Wrap32(current + amount) <= max && h.available && h.points >= TruncToInt(cost))
            && (out.PaidWithPoints? ==> out.points == TruncToInt(cost))
            && (out.PaidWithMoney? ==> out.cost == cost && w.hasEconomy && w.balance >= cost)
            && (out.PurchaseExceedsMax? <==> Wrap32(current + amount) > max)
  {
  }

  /** The payment for a sale of price `cost`: PlayerPoints for the truncated cost, else the economy. */
  function PaymentOf(cost: real, h: PointsHook, w: Wallet): PurchaseOutcome {
    if HasPoints(h, TruncToInt(cost)) then PaidWithPoints(TruncToInt(cost))
    else if HasMoney(w, cost) then PaidWithMoney(cost)
    else NoPaymentMethod
  }

  predicate Paid(out: PurchaseOutcome) {
    out.PaidWithPoints? || out.PaidWithMoney?
  }

  /** The purchased limit after an outcome: `addPurchasedLimit` on a paid sale, the old limit otherwise. */
  function PurchasedAfter(out: PurchaseOutcome, current: int, amount: int): int {
    if Paid(out) then Max(0, Wrap32(current + amount)) else current
  }

  /**
   * Only NORMAL limits are sold; a sale never lifts the purchased limit past
   * the cap, and it charges the price of the slots bought.
   */
  lemma PurchaseSpec(config: Option<TypeConfig>, t: SpawnerType, current: int, amount: int, h: PointsHook, w: Wallet)
    ensures var out := PurchaseOutcomeOf(config, t, Some(current), amount, h, w);
            && (Paid(out) ==> t == Normal && config.Some?)
            && (Paid(out) ==> Max(0, Wrap32(current + amount)) <= Max(0, Commands.MaxPurchasable(t, config.value)))
            && (out.PaidWithPoints? ==> out.points == TruncToInt(PurchaseCost(config, current, amount)) && h.points >= out.points)
            && (out.PaidWithMoney? ==> out.cost == PurchaseCost(config, current, amount) && w.balance >= out.cost)
    ensures config.Some? && t == Normal && IsInt32(current + amount) ==>
              (PurchaseOutcomeOf(config, t, Some(current), amount, h, w).PurchaseExceedsMax? <==>
                 current + amount > config.value.maxPurchasable.GetOr(50))
  {
    if config.Some? && t == Normal {
      SaleSpec(Commands.MaxPurchasable(t, config.value), current, amount, PurchaseCost(config, current, amount), h, w);
    }
  }

  /**
   * `handlePurchaseLimit(player, type, amount)`: a paid purchase adds the
   * amount to the type's purchased limit through `addPurchasedLimit`;
   * nothing else changes.
   */
  method HandlePurchaseLimit(config: Option<TypeConfig>, t: SpawnerType, data: PlayerData?, amount: int,
                             h: PointsHook, w: Wallet) returns (out: PurchaseOutcome)
    modifies data
    ensures out == PurchaseOutcomeOf(config, t, if data == null then None else Some(old(data.GetPurchasedLimit(t))), amount, h, w)
    ensures data != null ==> data.GetPurchasedLimit(t) == PurchasedAfter(out, old(data.GetPurchasedLimit(t)), amount)
    ensures data != null ==> forall t' :: t' != t ==> data.GetPurchasedLimit(t') == old(data.GetPurchasedLimit(t'))
    ensures data != null ==> data.unlockedEntities == old(data.unlockedEntities)
  {
    ghost var current := if data == null then None else Some(data.GetPurchasedLimit(t));
    if config.None? {
      assert PurchaseOutcomeOf(config, t, current, amount, h, w) == NoConfig;
      return NoConfig;
    }
    if t == Premium {
      assert PurchaseOutcomeOf(config, t, current, amount, h, w) == PremiumByCommandOnly;
      return PremiumByCommandOnly;
    }
    if data == null {
      assert PurchaseOutcomeOf(config, t, current, amount, h, w) == NoPlayerData;
      return NoPlayerData;
    }
    ghost var before := data.GetPurchasedLimit(Normal);
    out := SellNormal(config.value, data, amount, h, w);
    assert out == PurchaseOutcomeOf(config, Normal, Some(before), amount, h, w);
    assert data.GetPurchasedLimit(Premium) == old(data.GetPurchasedLimit(Premium));
  }

  /** `handlePurchaseLimit` past its guards, for a NORMAL limit and a player with data: the cap test, then the payment. */
  method SellNormal(config: TypeConfig, data: PlayerData, amount: int, h: PointsHook, w: Wallet)
    returns (out: PurchaseOutcome)
    modifies data
    ensures out == PurchaseOutcomeOf(Some(config), Normal, Some(old(data.GetPurchasedLimit(Normal))), amount, h, w)
    ensures data.GetPurchasedLimit(Normal) == PurchasedAfter(out, old(data.GetPurchasedLimit(Normal)), amount)
    ensures data.GetPurchasedLimit(Premium) == old(data.GetPurchasedLimit(Premium))
    ensures data.unlockedEntities == old(data.unlockedEntities)
  {
    var currentPurchased := data.GetPurchasedLimit(Normal);
    var maxPurchasable := config.maxPurchasable.GetOr(50);
    ghost var cost := PurchaseCost(Some(config), currentPurchased, amount);
    assert PurchaseOutcomeOf(Some(config), Normal, Some(currentPurchased), amount, h, w) ==
           SaleOf(maxPurchasable, currentPurchased, amount, cost, h, w);
    if Wrap32(currentPurchased + amount) > maxPurchasable {
      return PurchaseExceedsMax(maxPurchasable, currentPurchased);
    }
    var totalCost := CalculatePurchaseCost(Some(config), currentPurchased, amount);
    assert SaleOf(maxPurchasable, currentPurchased, amount, cost, h, w) == PaymentOf(totalCost, h, w);
    out := Pay(Normal, data, amount, totalCost, h, w);
  }

  /** The payment part of `handlePurchaseLimit`: a paid sale adds the amount through `addPurchasedLimit`. */
  method Pay(t: SpawnerType, data: PlayerData, amount: int, totalCost: real, h: PointsHook, w: Wallet)
    returns (out: PurchaseOutcome)
    modifies data
    ensures out == PaymentOf(totalCost, h, w)
    ensures data.GetPurchasedLimit(t) == PurchasedAfter(out, old(data.GetPurchasedLimit(t)), amount)
    ensures forall t' :: t' != t ==> data.GetPurchasedLimit(t') == old(data.GetPurchasedLimit(t'))
    ensures data.unlockedEntities == old(data.unlockedEntities)
  {
    if h.available && h.points >= TruncToInt(totalCost) {
      data.AddPurchasedLimit(t, amount);
      out := PaidWithPoints(TruncToInt(totalCost));
    } else if w.hasEconomy && w.balance >= totalCost {
      data.AddPurchasedLimit(t, amount);
      out := PaidWithMoney(totalCost);
    } else {
      out := NoPaymentMethod;
    }
  }

  /**
   * The `purchase:` action: the trimmed text after the prefix, split at
   * single spaces, must start with `limit` and an `Int`.
   */
  function PurchaseAmountOf(action: string): Option<int>
    requires StartsWith(action, "purchase:")
  {
    var parts := Split(Trim(action[9..]), " ");
    if |parts| >= 2 && parts[0] == "limit" then ParseInt(parts[1]) else None
  }

  /** What the `purchase:` action leads to: PREMIUM spawners are refused before `handlePurchaseLimit`. */
  function PurchaseActionOf(action: string, t: SpawnerType): Option<Result<int, PurchaseOutcome>>
    requires StartsWith(action, "purchase:")
  {
    match PurchaseAmountOf(action)
    case None => None
    case Some(amount) => if t == Premium then Some(Err(PremiumByCommandOnly)) else Some(Ok(amount))
  }

  /** `purchase:limit <n>` asks for `n` slots. */
  lemma PurchaseActionRoundTrip(n: int)
    requires IsInt32(n)
    ensures StartsWith("purchase:limit " + IntToString(n), "purchase:")
    ensures PurchaseAmountOf("purchase:limit " + IntToString(n)) == Some(n)
    ensures PurchaseActionOf("purchase:limit " + IntToString(n), Normal) == Some(Ok(n))
    ensures PurchaseActionOf("purchase:limit " + IntToString(n), Premium) == Some(Err(PremiumByCommandOnly))
  {
    IntStringFacts(n);
    ParseIntRoundTrip(n);
    LimitAction(IntToString(n), n);
  }

  lemma LimitAction(sn: string, n: int)
    requires Trimmed(sn) && |sn| > 0 && !HasChar(sn, ' ') && ParseInt(sn) == Some(n)
    ensures StartsWith("purchase:limit " + sn, "purchase:")
    ensures PurchaseAmountOf("purchase:limit " + sn) == Some(n)
  {
    var body := "limit " + sn;
    var action := "purchase:limit " + sn;
    assert StartsWith(action, "purchase:") && action[9..] == body by {
      assert action == "purchase:" + body by {
        LimitLiterals();
      }
      PrefixSplit("purchase:", body);
    }
    LimitBodyTrimmed(sn);
    LimitBodySplits(sn);
    AmountOfBody(action, body, sn, n);
  }

  /** `limit <n>` is left as it is by `trim()`. */
  lemma LimitBodyTrimmed(sn: string)
    requires Trimmed(sn) && |sn| > 0
    ensures Trim("limit " + sn) == "limit " + sn
  {
    var body := "limit " + sn;
    assert body[0] == 'l' && body[|body| - 1] == sn[|sn| - 1];
    TrimOfTrimmed(body);
  }

  /** `limit <n>` splits at its one space into the word and the number. */
  lemma LimitBodySplits(sn: string)
    requires !HasChar(sn, ' ')
    ensures Split("limit " + sn, " ") == ["limit", sn]
  {
    LimitLiterals();
    SplitAtOnly("limit", " ", sn);
  }

  /** The amount read from a `purchase:` action whose trimmed body splits into `limit` and a number. */
  lemma AmountOfBody(action: string, body: string, sn: string, n: int)
    requires StartsWith(action, "purchase:") && action[9..] == body && Trim(body) == body
    requires Split(body, " ") == ["limit", sn] && ParseInt(sn) == Some(n)
    ensures PurchaseAmountOf(action) == Some(n)
  {
  }

  lemma LimitLiterals()
    ensures "limit" + " " == "limit " && "purchase:" + "limit " == "purchase:limit "
    ensures !HasChar("limit", ' ') && Trimmed("limit")
  {
    var w := "limit";
    forall i | 0 <= i < |w| ensures w[i] != ' ' {
      assert i == 0 || i == 1 || i == 2 || i == 3 || i == 4;
    }
  }

  lemma PrefixSplit(p: string, b: string)
    ensures StartsWith(p + b, p) && (p + b)[|p|..] == b
  {
    assert (p + b)[..|p|] == p;
  }
}
