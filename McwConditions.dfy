/**
 * `util/ConditionChecker.kt` of the older `org/mcw` Kotlin tree. A PAPI
 * condition is the whole condition text after placeholder substitution
 * (`resolve`), cut at the first operator found in a fixed order; the Y check
 * tests only the bounds the section holds.
 */
module McwConditions {
  import opened Common
  import opened Text
  import Conditions

  /** The comparison operators, in the order `evaluatePAPICondition` looks for them. */
  datatype Op = Ge | Le | Ne | Eq | Gt | Lt

  function Token(op: Op): string {
    match op
    case Ge => ">="
    case Le => "<="
    case Ne => "!="
    case Eq => "=="
    case Gt => ">"
    case Lt => "<"
  }

  /** The position of an operator in that order. */
  function Rank(op: Op): nat {
    match op
    case Ge => 0
    case Le => 1
    case Ne => 2
    case Eq => 3
    case Gt => 4
    case Lt => 5
  }

  /** The first operator of the list the text contains. */
  function OperatorOf(parsed: string): (r: Option<Op>)
    ensures r.Some? ==> Contains(parsed, Token(r.value))
    ensures r == Some(Gt) || r == Some(Lt) ==> !Contains(parsed, ">=") && !Contains(parsed, "<=")
    ensures r.None? <==> forall op: Op :: !Contains(parsed, Token(op))
  {
    if Contains(parsed, ">=") then Some(Ge)
    else if Contains(parsed, "<=") then Some(Le)
    else if Contains(parsed, "!=") then Some(Ne)
    else if Contains(parsed, "==") then Some(Eq)
    else if Contains(parsed, ">") then Some(Gt)
    else if Contains(parsed, "<") then Some(Lt)
    else None
  }

  /** `parseDouble(str)`: a text that is not a number counts as 0. */
  function NumberOr0(s: string): real {
    ParseDouble(s).GetOr(0.0)
  }

  /** The comparison between the two trimmed operands. */
  predicate Holds(op: Op, left: string, right: string) {
    match op
    case Ge => NumberOr0(left) >= NumberOr0(right)
    case Le => NumberOr0(left) <= NumberOr0(right)
    case Ne => left != right
    case Eq => left == right
    case Gt => NumberOr0(left) > NumberOr0(right)
    case Lt => NumberOr0(left) < NumberOr0(right)
  }

  /** `evaluatePAPICondition(player, condition)` on the substituted text. */
  predicate EvaluatePAPICondition(parsed: string) {
    var op := OperatorOf(parsed);
    if op.None? then false
    else
      var parts := SplitOnce(parsed, Token(op.value));
      |parts| == 2 && Holds(op.value, Trim(parts[0]), Trim(parts[1]))
  }

  /** A text with no operator is false. */
  lemma NoOperatorIsFalse(parsed: string)
    requires forall op: Op :: !Contains(parsed, Token(op))
    ensures !EvaluatePAPICondition(parsed)
  {
  }

  /** Characters that start no operator. */
  predicate OperatorFree(s: string) {
    !HasChar(s, '>') && !HasChar(s, '<') && !HasChar(s, '!') && !HasChar(s, '=')
  }

  /**
   * `a OP b` for operands free of operator characters compares exactly
   * those operands: in particular `>=` is never read as `>`, nor `<=` as `<`.
   */
  lemma BinaryCondition(a: string, op: Op, b: string)
    requires OperatorFree(a) && OperatorFree(b)
    ensures EvaluatePAPICondition(a + Token(op) + b) <==> Holds(op, Trim(a), Trim(b))
  {
    var s := a + Token(op) + b;
    var t := Token(op);
    assert OperatorOf(s) == Some(op) by {
      assert Contains(s, t) by {
        assert s[|a|..|a| + |t|] == t;
        assert OccursAt(s, t, |a|);
        ContainsIff(s, t);
      }
      forall op' | Rank(op') < Rank(op) ensures !Contains(s, Token(op')) {
        EarlierOperatorAbsent(a, op, b, op');
      }
    }
    assert SplitOnce(s, t) == [a, b] by {
      assert !HasChar(a, t[0]);
      SplitOnceAt(a, t, b);
    }
  }

  /**
   * An operator listed before `op` cannot occur in `a + op + b`: every
   * occurrence would have to use the characters of `op` itself.
   */
  lemma EarlierOperatorAbsent(a: string, op: Op, b: string, op': Op)
    requires OperatorFree(a) && OperatorFree(b) && Rank(op') < Rank(op)
    ensures !Contains(a + Token(op) + b, Token(op'))
  {
    var s := a + Token(op) + b;
    var p := Token(op');
    assert |p| >= 1;
    forall j | 0 <= j && j + |p| <= |s| ensures !OccursAt(s, p, j) {
      if j < |a| {
        assert s[j] == a[j];
        assert s[j] != p[0];
      } else if j >= |a| + |Token(op)| {
        assert s[j] == b[j - |a| - |Token(op)|];
        assert s[j] != p[0];
      } else {
        OperatorInside(a, op, b, op', j);
      }
    }
    ContainsIff(s, p);
  }

  lemma OperatorInside(a: string, op: Op, b: string, op': Op, j: int)
    requires OperatorFree(a) && OperatorFree(b) && Rank(op') < Rank(op)
    requires |a| <= j < |a| + |Token(op)| && j + |Token(op')| <= |a| + |Token(op)| + |b|
    ensures !OccursAt(a + Token(op) + b, Token(op'), j)
  {
    var s := a + Token(op) + b;
    var t := Token(op);
    var p := Token(op');
    assert s[j] == t[j - |a|];
    if |p| == 2 && j + 1 < |a| + |t| {
      assert s[j + 1] == t[j + 1 - |a|];
    } else if |p| == 2 {
      assert s[j + 1] == b[0];
      assert s[j + 1] != p[1];
    }
  }

  /** A non-numeric operand compares as 0. */
  lemma NonNumericIsZero(op: Op, left: string, right: string)
    requires op !in {Ne, Eq} && ParseDouble(left).None?
    ensures Holds(op, left, right) == Holds(op, "0", right)
  {
    assert ParseDouble("0") == Some(0.0) by {
      ParseDoubleOfInt(0);
    }
  }

  /** `checkPAPIConditions(player, conditions)`: a missing or empty list passes; otherwise `all` of them must. */
  predicate CheckPAPIConditions(resolve: string -> string, conditions: Option<seq<string>>) {
    conditions.None? || conditions.value == [] ||
    forall i :: 0 <= i < |conditions.value| ==> EvaluatePAPICondition(resolve(conditions.value[i]))
  }

  /** No list and the empty list pass; one condition without an operator fails the whole list. */
  lemma CheckPAPIConditionsSpec(resolve: string -> string, conditions: seq<string>, i: nat)
    requires i < |conditions| && forall op: Op :: !Contains(resolve(conditions[i]), Token(op))
    ensures CheckPAPIConditions(resolve, None) && CheckPAPIConditions(resolve, Some([]))
    ensures !CheckPAPIConditions(resolve, Some(conditions))
  {
    NoOperatorIsFalse(resolve(conditions[i]));
  }

  /** `checkYConditions(location, spawnConditions)`: each bound the section holds is checked in turn. */
  predicate CheckYConditions(blockY: int, section: Option<Conditions.YSection>) {
    if section.None? then true
    else if section.value.minY.Some? && blockY < section.value.minY.value then false
    else if section.value.maxY.Some? && blockY > section.value.maxY.value then false
    else true
  }

  /**
   * The check fails exactly below a present `min_y` or above a present
   * `max_y`, and for an `Int` coordinate it agrees with the `org/Aauu`
   * tree's defaulted range test.
   */
  lemma CheckYConditionsSpec(blockY: int, section: Option<Conditions.YSection>)
    ensures !CheckYConditions(blockY, section) <==>
              section.Some? && ((section.value.minY.Some? && blockY < section.value.minY.value) ||
                                (section.value.maxY.Some? && blockY > section.value.maxY.value))
    ensures IsInt32(blockY) ==> (CheckYConditions(blockY, section) <==> Conditions.CheckYConditions(blockY, section))
  {
  }
}
