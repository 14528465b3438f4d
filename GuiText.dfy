/**
 * The text-driven parts of `manager/GUIManager.kt`: the `layout`/`icons`
 * format of a menu, where every character of every layout row is one
 * inventory slot, and `evaluateCondition`, the expression language of an
 * entity's `spawn_condition`. An icon section is known only by its
 * character; what it contains is not modelled.
 */
module GuiText {
  import opened Common
  import opened Text

  // ---------------------------------------------------------------------
  // Layout slots

  /** The layout rows read one after the other. */
  function Flatten(layout: seq<string>): string {
    if layout == [] then [] else Flatten(layout[..|layout| - 1]) + layout[|layout| - 1]
  }

  /** The slot of the first character of row `r`. */
  function RowStart(layout: seq<string>, r: nat): nat
    requires r <= |layout|
  {
    |Flatten(layout[..r])|
  }

  /** The icon characters among the first `|s|` slots, by slot. */
  function Placed(s: string, icons: set<char>): map<int, char> {
    map i | 0 <= i < |s| && s[i] in icons :: s[i]
  }

  /** What `loadLayoutBasedGui` puts in the inventory: an item in each slot whose character has an icon section. */
  function Rendered(layout: seq<string>, icons: Option<set<char>>): map<int, char> {
    if layout == [] || icons.None? then map[] else Placed(Flatten(layout), icons.value)
  }

  /** The icon whose actions `handleClick` runs for a click on `slot`. */
  function IconAt(layout: seq<string>, icons: Option<set<char>>, slot: int): Option<char> {
    var s := Flatten(layout);
    if layout == [] || icons.None? || !(0 <= slot < |s|) || s[slot] !in icons.value then None
    else Some(s[slot])
  }

  /** A click finds exactly the icon rendered in the clicked slot. */
  lemma ClickFindsRenderedIcon(layout: seq<string>, icons: Option<set<char>>, slot: int)
    ensures IconAt(layout, icons, slot).Some? <==> slot in Rendered(layout, icons)
    ensures slot in Rendered(layout, icons) ==> IconAt(layout, icons, slot) == Some(Rendered(layout, icons)[slot])
  {
  }

  lemma FlattenSnoc(layout: seq<string>, r: nat)
    requires r < |layout|
    ensures Flatten(layout[..r + 1]) == Flatten(layout[..r]) + layout[r]
  {
    assert layout[..r + 1][..r] == layout[..r];
  }

  /** The rows read so far are a prefix of the whole layout. */
  lemma {:induction false} FlattenPrefix(layout: seq<string>, r: nat)
    requires r <= |layout|
    ensures Flatten(layout[..r]) <= Flatten(layout)
    decreases |layout| - r
  {
    if r < |layout| {
      FlattenPrefix(layout, r + 1);
      FlattenSnoc(layout, r);
    } else {
      assert layout[..r] == layout;
    }
  }

  /** Slots are row-major: character `c` of row `r` is in slot `RowStart(r) + c`. */
  lemma RowMajor(layout: seq<string>, r: nat, c: nat)
    requires r < |layout| && c < |layout[r]|
    ensures RowStart(layout, r) + c < |Flatten(layout)| && Flatten(layout)[RowStart(layout, r) + c] == layout[r][c]
  {
    FlattenSnoc(layout, r);
    FlattenPrefix(layout, r + 1);
    var p := Flatten(layout[..r + 1]);
    assert p[RowStart(layout, r) + c] == layout[r][c];
  }

  lemma PlacedStep(s: string, ch: char, icons: set<char>)
    ensures Placed(s + [ch], icons) == if ch in icons then Placed(s, icons)[|s| := ch] else Placed(s, icons)
  {
    var t := s + [ch];
    assert forall i :: 0 <= i < |s| ==> t[i] == s[i];
  }

  /** Every rendered slot lies inside an inventory of `size` slots. */
  predicate FitsIn(layout: seq<string>, icons: Option<set<char>>, size: int) {
    forall slot :: slot in Rendered(layout, icons) ==> slot < size
  }

  /**
   * The two nested loops of `loadLayoutBasedGui`, with its running `slot`,
   * filling an inventory of `size` slots. `setItem` throws for a slot past
   * the end, so the first icon outside the inventory aborts the loop and
   * the menu is never opened: that is `None`.
   */
  method LoadLayoutBasedGui(layout: seq<string>, icons: Option<set<char>>, size: int) returns (inv: Option<map<int, char>>)
    ensures inv.None? <==> exists slot :: slot in Rendered(layout, icons) && slot >= size
    ensures inv.Some? ==> inv.value == Rendered(layout, icons)
  {
    var items: map<int, char> := map[];
    if layout == [] || icons.None? {
      return Some(items);
    }
    var slot := 0;
    for r := 0 to |layout|
      invariant slot == |Flatten(layout[..r])|
      invariant items == Placed(Flatten(layout[..r]), icons.value)
      invariant forall k :: k in items ==> k < size
    {
      var row := layout[r];
      ghost var done := Flatten(layout[..r]);
      FlattenSnoc(layout, r);
      FlattenPrefix(layout, r + 1);
      for c := 0 to |row|
        invariant slot == |done| + c
        invariant items == Placed(done + row[..c], icons.value)
        invariant forall k :: k in items ==> k < size
      {
        PlacedStep(done + row[..c], row[c], icons.value);
        assert done + row[..c] + [row[c]] == done + row[..c + 1];
        if row[c] in icons.value {
          if slot >= size {
            assert Flatten(layout)[slot] == (done + row)[slot] == row[c];
            assert slot in Rendered(layout, icons);
            return None;
          }
          items := items[slot := row[c]];
        }
        slot := slot + 1;
      }
      assert row[..|row|] == row;
    }
    assert layout[..|layout|] == layout;
    return Some(items);
  }

  /** The slot search of `handleClick`: the loops stop at the clicked slot. */
  method FindClickedIcon(layout: seq<string>, icons: Option<set<char>>, slot: int) returns (icon: Option<char>)
    ensures icon == IconAt(layout, icons, slot)
  {
    if layout == [] || icons.None? {
      return None;
    }
    var currentSlot := 0;
    for r := 0 to |layout|
      invariant currentSlot == |Flatten(layout[..r])|
      invariant !(0 <= slot < currentSlot)
    {
      var row := layout[r];
      for c := 0 to |row|
        invariant currentSlot == RowStart(layout, r) + c
        invariant !(0 <= slot < currentSlot)
      {
        if currentSlot == slot {
          RowMajor(layout, r, c);
          return if row[c] in icons.value then Some(row[c]) else None;
        }
        currentSlot := currentSlot + 1;
      }
      FlattenSnoc(layout, r);
    }
    assert layout[..|layout|] == layout;
    return None;
  }

  // ---------------------------------------------------------------------
  // evaluateCondition

  /** A numeric branch: both trimmed sides must read as numbers, else the `NumberFormatException` gives false. */
  predicate Numeric(op: string, parts: seq<string>)
    requires |parts| == 2
  {
    var l := ParseDouble(Trim(parts[0]));
    var r := ParseDouble(Trim(parts[1]));
    l.Some? && r.Some? &&
      (if op == ">" then l.value > r.value
       else if op == ">=" then l.value >= r.value
       else if op == "<" then l.value < r.value
       else l.value <= r.value)
  }

  /** The text contains `op` and splits at it into exactly two parts. */
  predicate Binary(t: string, op: string)
    requires |op| > 0
  {
    Contains(t, op) && |Split(t, op)| == 2
  }

  /** `left.equals(right, ignoreCase = true)` on the two trimmed parts. */
  predicate SidesEqual(t: string, op: string)
    requires |op| > 0 && |Split(t, op)| == 2
  {
    var parts := Split(t, op);
    EqualsIgnoreCase(Trim(parts[0]), Trim(parts[1]))
  }

  /**
   * `evaluateCondition(condition)`: on the trimmed text, the branches for
   * `==`, `!=`, `>`, `>=`, `<` and `<=` in that order, each taken only when
   * splitting at its operator gives exactly two parts; with none taken, the
   * text is read as a boolean. `EvalEq` to `EvalLe` are those branches.
   */
  predicate EvaluateCondition(condition: string) {
    EvalEq(Trim(condition))
  }

  predicate EvalEq(t: string) {
    if Binary(t, "==") then SidesEqual(t, "==") else EvalNe(t)
  }

  predicate EvalNe(t: string) {
    if Binary(t, "!=") then !SidesEqual(t, "!=") else EvalGt(t)
  }

  predicate EvalGt(t: string) {
    if Binary(t, ">") && !Contains(t, ">=") then Numeric(">", Split(t, ">")) else EvalGe(t)
  }

  predicate EvalGe(t: string) {
    if Binary(t, ">=") then Numeric(">=", Split(t, ">=")) else EvalLt(t)
  }

  predicate EvalLt(t: string) {
    if Binary(t, "<") && !Contains(t, "<=") then Numeric("<", Split(t, "<")) else EvalLe(t)
  }

  predicate EvalLe(t: string) {
    if Binary(t, "<=") then Numeric("<=", Split(t, "<=")) else ToBoolean(t)
  }

  /** No operator character in a string: no operator occurs in it. */
  predicate OperatorFree(s: string) {
    !HasChar(s, '=') && !HasChar(s, '!') && !HasChar(s, '>') && !HasChar(s, '<')
  }

  lemma ConcatTrimmed(a: string, d: string, b: string)
    requires Trimmed(a) && Trimmed(b) && |d| > 0 && !IsWhitespace(d[0]) && !IsWhitespace(d[|d| - 1])
    ensures Trimmed(a + d + b)
  {
    var s := a + d + b;
    if a == [] { assert s[0] == d[0]; } else { assert s[0] == a[0]; }
    if b == [] { assert s[|s| - 1] == d[|d| - 1]; } else { assert s[|s| - 1] == b[|b| - 1]; }
  }

  /** With no `=` and no `!`, the two equality branches are not taken. */
  lemma NoEqualityBranch(s: string)
    requires !HasChar(s, '=') && !HasChar(s, '!')
    ensures EvalEq(s) == EvalGt(s)
  {
    assert EvalEq(s) == EvalNe(s) by { IndexOfFree(s, "=="); }
    assert EvalNe(s) == EvalGt(s) by { IndexOfFree(s, "!="); }
  }

  /** With no `>` and no `<`, the four ordering branches are not taken. */
  lemma NoOrderingBranch(s: string)
    requires !HasChar(s, '>') && !HasChar(s, '<')
    ensures EvalGt(s) == ToBoolean(s)
  {
    assert EvalGt(s) == EvalGe(s) by { IndexOfFree(s, ">"); }
    assert EvalGe(s) == EvalLt(s) by { IndexOfFree(s, ">="); }
    assert EvalLt(s) == EvalLe(s) by { IndexOfFree(s, "<"); }
    assert EvalLe(s) == ToBoolean(s) by { IndexOfFree(s, "<="); }
  }

  lemma EqBranchTaken(s: string, a: string, b: string)
    requires Contains(s, "==") && Split(s, "==") == [a, b]
    ensures EvalEq(s) == EqualsIgnoreCase(Trim(a), Trim(b))
  {
  }

  lemma GtBranchTaken(s: string, a: string, b: string)
    requires Contains(s, ">") && !Contains(s, ">=") && Split(s, ">") == [a, b]
    ensures EvalGt(s) == Numeric(">", [a, b])
  {
  }

  /** `a == b` compares the two sides ignoring case. */
  lemma EqualityIgnoresCase(a: string, b: string)
    requires Trimmed(a) && Trimmed(b) && !HasChar(a, '=') && !HasChar(b, '=')
    ensures EvaluateCondition(a + "==" + b) <==> EqualsIgnoreCase(a, b)
  {
    var s := a + "==" + b;
    assert EvaluateCondition(s) == EvalEq(s) by {
      ConcatTrimmed(a, "==", b);
      TrimOfTrimmed(s);
    }
    EqualitySides(a, b);
    TrimmedSides(a, b);
  }

  /** The `==` branch is the one taken, on the two sides of the operator. */
  lemma EqualitySides(a: string, b: string)
    requires !HasChar(a, '=') && !HasChar(b, '=')
    ensures EvalEq(a + "==" + b) == EqualsIgnoreCase(Trim(a), Trim(b))
  {
    var s := a + "==" + b;
    assert Split(s, "==") == [a, b] by {
      SplitAtOnly(a, "==", b);
    }
    assert Contains(s, "==") by {
      assert OccursAt(s, "==", |a|);
      ContainsIff(s, "==");
    }
    EqBranchTaken(s, a, b);
  }

  lemma TrimmedSides(a: string, b: string)
    requires Trimmed(a) && Trimmed(b)
    ensures EqualsIgnoreCase(Trim(a), Trim(b)) == EqualsIgnoreCase(a, b)
  {
    TrimOfTrimmed(a);
    TrimOfTrimmed(b);
  }

  /** A text without any operator character is a boolean literal, `true` in any case. */
  lemma NoOperatorIsBoolean(s: string)
    requires Trimmed(s) && OperatorFree(s)
    ensures EvaluateCondition(s) <==> ToBoolean(s)
  {
    assert EvaluateCondition(s) == EvalEq(s) by { TrimOfTrimmed(s); }
    NoEqualityBranch(s);
    NoOrderingBranch(s);
  }

  lemma IntStringFacts(n: int)
    ensures forall i :: 0 <= i < |IntToString(n)| ==> IsDigit(IntToString(n)[i]) || IntToString(n)[i] == '-'
    ensures Trimmed(IntToString(n)) && OperatorFree(IntToString(n))
    ensures ParseDouble(IntToString(n)) == Some(n as real)
  {
    var s := IntToString(n);
    var d := if n < 0 then NatToDigits(-n) else NatToDigits(n);
    assert s == if n < 0 then "-" + d else d;
    assert AllDigits(d);
    forall i | 0 <= i < |s| ensures IsDigit(s[i]) || s[i] == '-' {
      if n < 0 && i > 0 { assert s[i] == d[i - 1]; }
    }
    assert s[|s| - 1] == d[|d| - 1];
    ParseDoubleOfInt(n);
  }

  /** `a > b` on two operator-free numbers compares their values. */
  lemma GreaterOfNumbers(sa: string, sb: string, x: real, y: real)
    requires Trimmed(sa) && Trimmed(sb) && OperatorFree(sa) && OperatorFree(sb)
    requires ParseDouble(sa) == Some(x) && ParseDouble(sb) == Some(y)
    ensures EvaluateCondition(sa + ">" + sb) <==> x > y
  {
    var s := sa + ">" + sb;
    assert EvaluateCondition(s) == EvalEq(s) by {
      ConcatTrimmed(sa, ">", sb);
      TrimOfTrimmed(s);
    }
    assert EvalEq(s) == EvalGt(s) by {
      HasCharAppend(sa, ">", '=');
      HasCharAppend(sa + ">", sb, '=');
      HasCharAppend(sa, ">", '!');
      HasCharAppend(sa + ">", sb, '!');
      NoEqualityBranch(s);
    }
    assert EvalGt(s) == Numeric(">", [sa, sb]) by {
      assert !Contains(s, ">=") by {
        HasCharAppend(sa, ">", '=');
        HasCharAppend(sa + ">", sb, '=');
        IndexOfFreeAt(s, ">=", 1);
      }
      assert Contains(s, ">") by {
        assert OccursAt(s, ">", |sa|);
        ContainsIff(s, ">");
      }
      assert Split(s, ">") == [sa, sb] by {
        SplitAtOnly(sa, ">", sb);
      }
      GtBranchTaken(s, sa, sb);
    }
    assert Trim(sa) == sa && Trim(sb) == sb by {
      TrimOfTrimmed(sa);
      TrimOfTrimmed(sb);
    }
  }

  /** `a > b` on two written integers compares them. */
  lemma GreaterCompares(a: int, b: int)
    ensures EvaluateCondition(IntToString(a) + ">" + IntToString(b)) <==> a > b
  {
    IntStringFacts(a);
    IntStringFacts(b);
    GreaterOfNumbers(IntToString(a), IntToString(b), a as real, b as real);
  }
}
