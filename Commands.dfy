/**
 * The two pieces of `command/MCWCommand.kt` with logic of their own: the
 * `/mcw limit <set|add|remove> <player> <type> <amount>` arithmetic on a
 * player's purchased limits (`handleLimit`), and the prefix filter of tab
 * completion (`onTabComplete`). Messages are not modelled; each outcome
 * stands for the message the command sends.
 */
module Commands {
  import opened Common
  import opened Text
  import opened Spawners
  import opened Players
  import opened Configs

  datatype LimitAction = SetLimit | AddLimit | RemoveLimit

  datatype LimitRequest = LimitRequest(action: LimitAction, t: SpawnerType, amount: int)

  /** What `handleLimit` answers; `NoConfig` is the silent `?: return true`. */
  datatype LimitOutcome =
    | NoPermission | Usage | InvalidAction | PlayerNotFound | InvalidType | InvalidAmount | NoConfig
    | ExceedsMax(max: int)
    | NothingToRemove
    | LimitSet(amount: int)
    | LimitAdded(amount: int)
    | LimitRemoved(actual: int, current: int, newLimit: int, partial: bool)

  /** `args[1].lowercase()` against the three actions. */
  function ActionOf(arg: string): Option<LimitAction> {
    var a := Lower(arg);
    if a == "set" then Some(SetLimit) else if a == "add" then Some(AddLimit)
    else if a == "remove" then Some(RemoveLimit) else None
  }

  /** `SpawnerType.valueOf(args[3].uppercase())`. */
  function TypeOf(arg: string): Option<SpawnerType> {
    var u := Upper(arg);
    if u == "NORMAL" then Some(Normal) else if u == "PREMIUM" then Some(Premium) else None
  }

  /**
   * The guards of `handleLimit` up to the config lookup, in their order:
   * permission, argument count, action, player, type, amount syntax, then
   * a negative `set` or a non-positive `add`/`remove`.
   */
  function LimitRequestOf(hasPermission: bool, args: seq<string>, targetFound: bool): (r: Result<LimitRequest, LimitOutcome>)
    ensures r.Ok? ==> (r.value.action == SetLimit ==> r.value.amount >= 0)
    ensures r.Ok? ==> (r.value.action != SetLimit ==> r.value.amount > 0)
    ensures r.Ok? ==> IsInt32(r.value.amount)
  {
    if !hasPermission then Err(NoPermission)
    else if |args| < 5 then Err(Usage)
    else match ActionOf(args[1])
      case None => Err(InvalidAction)
      case Some(action) =>
        if !targetFound then Err(PlayerNotFound)
        else match TypeOf(args[3])
          case None => Err(InvalidType)
          case Some(t) =>
            match ParseInt(args[4])
            case None => Err(InvalidAmount)
            case Some(amount) =>
              if action == SetLimit && amount < 0 then Err(InvalidAmount)
              else if action != SetLimit && amount <= 0 then Err(InvalidAmount)
              else Ok(LimitRequest(action, t, amount))
  }

  /** The cap: `Int.MAX_VALUE` for premium, `economy.max_purchasable` (default 50) otherwise. */
  function MaxPurchasable(t: SpawnerType, config: TypeConfig): int {
    if t == Premium then INT_MAX else config.maxPurchasable.GetOr(50)
  }

  /** The `add` guard as written: the 32-bit sum is what gets compared with the cap. */
  function AddRefusedAsWritten(current: int, amount: int, max: int): bool {
    Wrap32(current + amount) > max
  }

  /**
   * The arithmetic of one accepted request as written, given the current
   * limit: the outcome and, when the limit changes, the value `PlayerData`
   * ends with. `add` compares the 32-bit sum with the cap.
   */
  function LimitChange(req: LimitRequest, current: int, max: int): (LimitOutcome, Option<int>) {
    match req.action
    case SetLimit =>
      if req.amount > max then (ExceedsMax(max), None)
      else (LimitSet(req.amount), Some(Max(0, req.amount)))
    case AddLimit =>
      if AddRefusedAsWritten(current, req.amount, max) then (ExceedsMax(max), None)
      else (LimitAdded(req.amount), Some(Max(0, Wrap32(current + req.amount))))
    case RemoveLimit => RemoveChange(req.amount, current)
  }

  /** A removal of `amount` from `current`: refused at 0, otherwise `min(amount, current)` is taken. */
  function RemoveChange(amount: int, current: int): (LimitOutcome, Option<int>) {
    if current == 0 then (NothingToRemove, None)
    else
      var actual := Min(amount, current);
      var newLimit := current - actual;
      (LimitRemoved(actual, current, newLimit, actual < amount), Some(Max(0, newLimit)))
  }

  /** The arithmetic as evidently intended: `add` checks the exact sum against the cap. */
  function LimitChangeCorrected(req: LimitRequest, current: int, max: int): (LimitOutcome, Option<int>) {
    match req.action
    case SetLimit => LimitChange(req, current, max)
    case AddLimit =>
      if current + req.amount > max then (ExceedsMax(max), None)
      else (LimitAdded(req.amount), Some(Max(0, Wrap32(current + req.amount))))
    case RemoveLimit => RemoveChange(req.amount, current)
  }

  /** The two agree on every request whose `add` sum stays in `Int` range. */
  lemma LimitChangeAgreesInRange(req: LimitRequest, current: int, max: int)
    requires req.action == AddLimit ==> IsInt32(current + req.amount)
    ensures LimitChange(req, current, max) == LimitChangeCorrected(req, current, max)
  {
  }

  /**
   * What an accepted request does, as intended, to a limit in `Int` range: it is refused
   * with `ExceedsMax` exactly when the new limit would pass the cap, a
   * removal is refused only at 0, and every new limit lies between 0 and
   * the cap (a removal never goes up).
   */
  lemma LimitChangeSpec(req: LimitRequest, current: int, max: int)
    requires IsInt32(current) && IsInt32(req.amount) && IsInt32(max)
    requires req.action == SetLimit ==> req.amount >= 0
    requires req.action != SetLimit ==> req.amount > 0
    ensures var (out, n) := LimitChangeCorrected(req, current, max);
            && (req.action == SetLimit ==> (out.ExceedsMax? <==> req.amount > max) && (n.Some? ==> n.value == req.amount))
            && (req.action == AddLimit ==> (out.ExceedsMax? <==> current + req.amount > max)
                                           && (n.Some? ==> n.value == Max(0, current + req.amount)))
            && (req.action == RemoveLimit ==> (out.NothingToRemove? <==> current == 0) && !out.ExceedsMax?)
            && (n.Some? ==> 0 <= n.value)
            && (n.Some? && req.action != RemoveLimit ==> n.value <= Max(0, max))
            && (n.Some? && req.action == RemoveLimit && current > 0 ==> n.value < current)
  {
  }

  /**
   * A removal takes `min(amount, current)` and says so: it is reported as
   * partial exactly when less than the amount asked could be taken.
   */
  lemma RemovalReport(req: LimitRequest, current: int, max: int)
    requires req.action == RemoveLimit && current > 0 && req.amount > 0
    ensures var (out, n) := LimitChange(req, current, max);
            && out == LimitRemoved(Min(req.amount, current), current, current - Min(req.amount, current),
                                   req.amount > current)
            && n == Some(current - Min(req.amount, current))
  {
  }

  /**
   * As written, adding `Int.MAX_VALUE` to a premium limit of 1 passes the
   * guard (the sum wraps to a negative number), and `addPurchasedLimit`
   * then stores 0: the command reports success and the limit drops. The
   * exact sum is refused.
   */
  lemma AddOverflowAsWritten()
    ensures !AddRefusedAsWritten(1, INT_MAX, INT_MAX)
    ensures LimitChange(LimitRequest(AddLimit, Premium, INT_MAX), 1, INT_MAX) == (LimitAdded(INT_MAX), Some(0))
    ensures LimitChangeCorrected(LimitRequest(AddLimit, Premium, INT_MAX), 1, INT_MAX).0 == ExceedsMax(INT_MAX)
  {
  }

  /**
   * The whole of `handleLimit` as a value: the outcome, and the counter it
   * writes with the value written, if any. `currentNormal` and
   * `currentPremium` are the target's counters.
   */
  function LimitCommand(hasPermission: bool, args: seq<string>, targetFound: bool,
                        normalConfig: Option<TypeConfig>, premiumConfig: Option<TypeConfig>,
                        currentNormal: int, currentPremium: int): (r: (LimitOutcome, Option<(SpawnerType, int)>))
    ensures r.1.Some? ==> targetFound && r.1.value.1 >= 0
  {
    match LimitRequestOf(hasPermission, args, targetFound)
    case Err(e) => (e, None)
    case Ok(req) =>
      var config := if req.t == Normal then normalConfig else premiumConfig;
      if config.None? then (NoConfig, None)
      else
        var current := if req.t == Normal then currentNormal else currentPremium;
        var (out, n) := LimitChange(req, current, MaxPurchasable(req.t, config.value));
        (out, if n.Some? then Some((req.t, n.value)) else None)
  }

  /** `handleLimit(sender, args)`; `target` is `Bukkit.getPlayer(args[2])` with its player data. */
  method HandleLimit(hasPermission: bool, args: seq<string>, target: Option<PlayerData>,
                     normalConfig: Option<TypeConfig>, premiumConfig: Option<TypeConfig>)
    returns (out: LimitOutcome)
    modifies if target.Some? then {target.value} else {}
    ensures var r := LimitCommand(hasPermission, args, target.Some?, normalConfig, premiumConfig,
                                  if target.Some? then old(target.value.GetPurchasedLimit(Normal)) else 0,
                                  if target.Some? then old(target.value.GetPurchasedLimit(Premium)) else 0);
            && out == r.0
            && (target.Some? ==>
                  && target.value.unlockedEntities == old(target.value.unlockedEntities)
                  && forall t :: target.value.GetPurchasedLimit(t) ==
                                 if r.1.Some? && r.1.value.0 == t then r.1.value.1
                                 else old(target.value.GetPurchasedLimit(t)))
  {
    /* the guards */
    var req := LimitRequestOf(hasPermission, args, target.Some?);
    if req.Err? {
      return req.error;
    }
    var LimitRequest(action, t, amount) := req.value;
    var config := if t == Normal then normalConfig else premiumConfig;
    if config.None? {
      return NoConfig;
    }
    var maxPurchasable := MaxPurchasable(t, config.value);
    out := ChangeLimit(req.value, target.value, maxPurchasable);
  }

  /** `handleLimit` past its guards: the change of one type's purchased limit, checked against the cap `max`. */
  method ChangeLimit(req: LimitRequest, pd: PlayerData, max: int) returns (out: LimitOutcome)
    modifies pd
    ensures var r := LimitChange(req, old(pd.GetPurchasedLimit(req.t)), max);
            && out == r.0
            && pd.GetPurchasedLimit(req.t) == (if r.1.Some? then r.1.value else old(pd.GetPurchasedLimit(req.t)))
    ensures forall t :: t != req.t ==> pd.GetPurchasedLimit(t) == old(pd.GetPurchasedLimit(t))
    ensures pd.unlockedEntities == old(pd.unlockedEntities)
  {
    var LimitRequest(action, t, amount) := req;
    var currentLimit := pd.GetPurchasedLimit(t);
    match action {
      case SetLimit =>
        if amount > max {
          return ExceedsMax(max);
        }
        pd.SetPurchasedLimit(t, amount);
        out := LimitSet(amount);
      case AddLimit =>
        if Wrap32(currentLimit + amount) > max {
          return ExceedsMax(max);
        }
        pd.AddPurchasedLimit(t, amount);
        out := LimitAdded(amount);
      case RemoveLimit =>
        if currentLimit == 0 {
          return NothingToRemove;
        }
        var actualRemoveAmount := Min(amount, currentLimit);
        var newLimitRemove := currentLimit - actualRemoveAmount;
        pd.SetPurchasedLimit(t, newLimitRemove);
        out := LimitRemoved(actualRemoveAmount, currentLimit, newLimitRemove, actualRemoveAmount < amount);
    }
  }

  // ---------------------------------------------------------------------
  // onTabComplete
  // ---------------------------------------------------------------------

  /**
   * The candidates `onTabComplete` collects for `args`, before filtering.
   * `players` are the online players' names and `spawnable` the names of
   * the entity types that are spawnable and alive.
   */
  function Candidates(args: seq<string>, isAdmin: bool, players: seq<string>, spawnable: seq<string>): seq<string>
    requires |args| > 0
  {
    if |args| == 1 then ["help", "reload", "give", "info", "list", "remove"] + (if isAdmin then ["limit"] else [])
    else if |args| == 2 then
      var cmd := Lower(args[0]);
      if cmd == "give" || cmd == "list" then players
      else if cmd == "limit" then ["set", "add", "remove"]
      else []
    else if |args| == 3 then
      var cmd := Lower(args[0]);
      if cmd == "give" then ["normal", "premium"]
      else if cmd == "limit" then players
      else []
    else if |args| == 4 then
      var cmd := Lower(args[0]);
      if cmd == "give" then LowerAll(spawnable)
      else if cmd == "limit" then ["normal", "premium"]
      else []
    else if |args| == 5 && EqualsIgnoreCase(args[0], "limit") then ["1", "5", "10", "20", "50"]
    else []
  }

  function LowerAll(names: seq<string>): (r: seq<string>)
    ensures |r| == |names| && forall i :: 0 <= i < |names| ==> r[i] == Lower(names[i])
  {
    if names == [] then [] else [Lower(names[0])] + LowerAll(names[1..])
  }

  /** `filter { it.lowercase().startsWith(input) }`. */
  function FilterPrefix(cands: seq<string>, input: string): (r: seq<string>)
    ensures |r| <= |cands|
    ensures forall x :: x in r <==> x in cands && StartsWith(Lower(x), input)
  {
    if cands == [] then []
    else (if StartsWith(Lower(cands[0]), input) then [cands[0]] else []) + FilterPrefix(cands[1..], input)
  }

  /** The filter keeps the candidates' order: filtering a concatenation filters each part in turn. */
  lemma {:induction false} FilterPrefixAppend(a: seq<string>, b: seq<string>, input: string)
    ensures FilterPrefix(a + b, input) == FilterPrefix(a, input) + FilterPrefix(b, input)
    decreases |a|
  {
    if a == [] {
      assert a + b == b;
    } else {
      assert (a + b)[0] == a[0];
      assert (a + b)[1..] == a[1..] + b;
      FilterPrefixAppend(a[1..], b, input);
    }
  }

  /** `onTabComplete(sender, command, alias, args)`. */
  function TabComplete(args: seq<string>, isAdmin: bool, players: seq<string>, spawnable: seq<string>): seq<string>
    requires |args| > 0
  {
    FilterPrefix(Candidates(args, isAdmin, players, spawnable), Lower(args[|args| - 1]))
  }

  /**
   * Completions are exactly the candidates whose lower-case form starts
   * with the lower-cased last argument; an empty last argument keeps all
   * of them, in order.
   */
  lemma {:induction false} TabCompleteSpec(args: seq<string>, isAdmin: bool, players: seq<string>, spawnable: seq<string>)
    requires |args| > 0
    ensures forall x :: x in TabComplete(args, isAdmin, players, spawnable) <==>
              x in Candidates(args, isAdmin, players, spawnable) && StartsWith(Lower(x), Lower(args[|args| - 1]))
    ensures args[|args| - 1] == "" ==> TabComplete(args, isAdmin, players, spawnable) == Candidates(args, isAdmin, players, spawnable)
  {
    if args[|args| - 1] == "" {
      FilterEmpty(Candidates(args, isAdmin, players, spawnable));
    }
  }

  lemma {:induction false} FilterEmpty(cands: seq<string>)
    ensures FilterPrefix(cands, "") == cands
  {
    if cands != [] {
      FilterEmpty(cands[1..]);
      assert StartsWith(Lower(cands[0]), "");
    }
  }
}
