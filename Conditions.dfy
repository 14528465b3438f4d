/**
 * `util/ConditionChecker.kt` of the `org/Aauu` tree: the Y-range checks of
 * an entity's `spawn_conditions` and the purchase conditions, written as
 * `y:<min>-<max>`, `papi:<placeholder> <op> <value>` or a bare
 * `<placeholder> <op> <value>`. PlaceholderAPI is a parameter: whether it
 * is hooked, and the text a placeholder resolves to for the player.
 */
module Conditions {
  import opened Common
  import opened Text

  /** `checkYCondition(y, minY, maxY)`: `y in minY..maxY`. */
  predicate CheckYCondition(y: int, minY: int, maxY: int) {
    minY <= y <= maxY
  }

  /** The `min_y` and `max_y` keys of a `spawn_conditions` section. */
  datatype YSection = YSection(minY: Option<int>, maxY: Option<int>)

  /** `checkYConditions(location, spawnConditions)`, for the block Y of the location. */
  predicate CheckYConditions(blockY: int, section: Option<YSection>) {
    section.None? || CheckYCondition(blockY, section.value.minY.GetOr(INT_MIN), section.value.maxY.GetOr(INT_MAX))
  }

  /**
   * No section passes every block; within a section a missing bound does
   * not restrict an `Int` coordinate, and a present bound is inclusive.
   */
  lemma CheckYConditionsSpec(blockY: int, section: Option<YSection>)
    requires IsInt32(blockY)
    ensures section.None? ==> CheckYConditions(blockY, section)
    ensures section.Some? ==>
              (CheckYConditions(blockY, section) <==>
                 (section.value.minY.None? || section.value.minY.value <= blockY) &&
                 (section.value.maxY.None? || blockY <= section.value.maxY.value))
  {
  }

  /** A numeric comparison of the PAPI form: the resolved text must be a number; a non-numeric value counts as 0. */
  predicate Compare(op: string, actual: string, value: string)
    requires op in {">", "<", ">=", "<="}
  {
    var a := ParseDouble(actual);
    var v := ParseDouble(value).GetOr(0.0);
    a.Some? &&
      (if op == ">" then a.value > v
       else if op == "<" then a.value < v
       else if op == ">=" then a.value >= v
       else a.value <= v)
  }

  /**
   * `checkPapiCondition(player, condition)`: the condition split at single
   * spaces; its first three pieces are the placeholder, the operator and
   * the value.
   */
  predicate CheckPapiCondition(hooked: bool, resolve: string -> string, condition: string) {
    var parts := Split(condition, " ");
    if !hooked || |parts| < 3 then true
    else
      var actual := resolve(parts[0]);
      var op := parts[1];
      var value := parts[2];
      if op == "==" then actual == value
      else if op == "!=" then actual != value
      else if op in {">", "<", ">=", "<="} then Compare(op, actual, value)
      else true
  }

  /** The condition passes when PlaceholderAPI is absent, when it has fewer than three pieces, or when the operator is unknown. */
  lemma PapiPassesWhenUncheckable(hooked: bool, resolve: string -> string, condition: string)
    ensures !hooked ==> CheckPapiCondition(hooked, resolve, condition)
    ensures |Split(condition, " ")| < 3 ==> CheckPapiCondition(hooked, resolve, condition)
    ensures |Split(condition, " ")| >= 3 && Split(condition, " ")[1] !in {"==", "!=", ">", "<", ">=", "<="} ==>
              CheckPapiCondition(hooked, resolve, condition)
  {
  }

  /** A comparison against a placeholder that does not resolve to a number fails, whatever the value. */
  lemma NonNumericComparisonFails(op: string, actual: string, value: string)
    requires op in {">", "<", ">=", "<="} && ParseDouble(actual).None?
    ensures !Compare(op, actual, value)
  {
  }

  /**
   * `checkCondition(player, condition)`: `y:` is a range `a-b` for the
   * player's block Y, with 0 and 256 for a part that is not an `Int` and
   * no restriction unless there are exactly two parts.
   */
  predicate CheckCondition(hooked: bool, resolve: string -> string, blockY: int, condition: string) {
    if StartsWith(condition, "y:") then
      var parts := Split(condition[2..], "-");
      if |parts| == 2 then
        CheckYCondition(blockY, ParseInt(parts[0]).GetOr(0), ParseInt(parts[1]).GetOr(256))
      else true
    else if StartsWith(condition, "papi:") then CheckPapiCondition(hooked, resolve, condition[5..])
    else CheckPapiCondition(hooked, resolve, condition)
  }

  /** `y:a-b` written with two non-negative `Int`s is the inclusive range test. */
  lemma YRangeCondition(hooked: bool, resolve: string -> string, blockY: int, a: nat, b: nat)
    requires IsInt32(a) && IsInt32(b)
    ensures CheckCondition(hooked, resolve, blockY, "y:" + IntToString(a) + "-" + IntToString(b)) <==> a <= blockY <= b
  {
    var sa := IntToString(a);
    var sb := IntToString(b);
    var c := "y:" + sa + "-" + sb;
    assert c[..2] == "y:";
    assert c[2..] == sa + "-" + sb;
    assert Split(sa + "-" + sb, "-") == [sa, sb] by {
      DigitsFree(sa, '-');
      DigitsFree(sb, '-');
      SplitAtOnly(sa, "-", sb);
    }
    ParseIntRoundTrip(a);
    ParseIntRoundTrip(b);
  }

  /** A negative lower bound adds a third part, so `y:-a-b` restricts nothing. */
  lemma NegativeLowerBoundIgnored(hooked: bool, resolve: string -> string, blockY: int, a: nat, b: nat)
    ensures CheckCondition(hooked, resolve, blockY, "y:" + ("-" + (NatToDigits(a) + "-" + NatToDigits(b))))
  {
    var body := "-" + (NatToDigits(a) + "-" + NatToDigits(b));
    assert |Split(body, "-")| == 3 by {
      SplitLeadingDash(NatToDigits(a), NatToDigits(b));
    }
    YPrefix(body);
  }

  lemma YPrefix(body: string)
    ensures StartsWith("y:" + body, "y:") && ("y:" + body)[2..] == body
  {
    assert ("y:" + body)[..2] == "y:";
  }

  lemma SplitLeadingDash(sa: string, sb: string)
    requires AllDigits(sa) && AllDigits(sb)
    ensures |Split("-" + (sa + "-" + sb), "-")| == 3
  {
    var body := "-" + (sa + "-" + sb);
    assert body[..1] == "-";
    SplitAtStart(body, "-");
    assert body[1..] == sa + "-" + sb;
    DigitsFree(sa, '-');
    DigitsFree(sb, '-');
    SplitAtOnly(sa, "-", sb);
  }

  /** `checkAllConditions(player, conditions)`: the first failing condition stops the loop with false. */
  predicate CheckAllConditions(hooked: bool, resolve: string -> string, blockY: int, conditions: seq<string>) {
    conditions == [] ||
    (CheckCondition(hooked, resolve, blockY, conditions[0]) && CheckAllConditions(hooked, resolve, blockY, conditions[1..]))
  }

  /** The loop is an all-of: it holds iff every condition passes. */
  lemma {:induction false} CheckAllConditionsSpec(hooked: bool, resolve: string -> string, blockY: int, conditions: seq<string>)
    ensures CheckAllConditions(hooked, resolve, blockY, conditions) <==>
              forall i :: 0 <= i < |conditions| ==> CheckCondition(hooked, resolve, blockY, conditions[i])
  {
    if conditions != [] {
      CheckAllConditionsSpec(hooked, resolve, blockY, conditions[1..]);
      assert forall i :: 1 <= i < |conditions| ==> conditions[1..][i - 1] == conditions[i];
    }
  }
}
