/**
 * The spawner item of `listener/SpawnerListener.kt`: the lore lines a
 * broken spawner's item carries (its type, its entity and its upgrade
 * levels), the readers that recover them when the item is placed again,
 * and the guards of placement. An item is seen only through its material
 * and its lore.
 */
module Lore {
  import opened Common
  import opened Text
  import opened LinkedMaps
  import opened Spawners

  /** An `ItemStack` as the listener sees it; `lore` is `None` without meta or lore. */
  datatype Item = Item(isSpawner: bool, lore: Option<seq<string>>)

  const TYPE_PREFIX: string := "\U{00A7}7类型: §e"
  const ENTITY_PREFIX: string := "\U{00A7}7实体: §e"
  const HEADER: string := "\U{00A7}8升级等级:"
  const LINE_PREFIX: string := "\U{00A7}8  "
  const VALUE_PREFIX: string := ": §e"

  /** `SpawnerType.name`. */
  function TypeName(t: SpawnerType): string {
    match t
    case Normal => "NORMAL"
    case Premium => "PREMIUM"
  }

  /** `SpawnerType.valueOf(s)`, which knows only the exact constant names. */
  function TypeValueOf(s: string): (r: Option<SpawnerType>)
    ensures forall t :: r == Some(t) <==> s == TypeName(t)
  {
    if s == "NORMAL" then Some(Normal) else if s == "PREMIUM" then Some(Premium) else None
  }

  // ---------------------------------------------------------------------
  // Writing: createSpawnerItemWithUpgrades

  /** One upgrade line: `LINE_PREFIX`, the key, `VALUE_PREFIX` and the level. */
  function UpgradeLine(key: string, level: int): string {
    LINE_PREFIX + key + VALUE_PREFIX + IntToString(level)
  }

  /** The lines for the levels above 0, in the map's order. */
  function UpgradeLines(levels: Entries): seq<string> {
    if levels == [] then []
    else
      var last := levels[|levels| - 1];
      UpgradeLines(levels[..|levels| - 1]) + (if last.1 > 0 then [UpgradeLine(last.0, last.1)] else [])
  }

  /** The type and entity lines, then (for a non-empty map) a blank line, the header and the upgrade lines. */
  function LoreOf(t: SpawnerType, e: EntityType, levels: Entries): seq<string> {
    [TYPE_PREFIX + TypeName(t), ENTITY_PREFIX + e]
    + (if levels == [] then [] else ["", HEADER] + UpgradeLines(levels))
  }

  /** The `lore` list `createSpawnerItemWithUpgrades` builds. */
  method CreateLore(t: SpawnerType, e: EntityType, upgrades: Entries) returns (lore: seq<string>)
    ensures lore == LoreOf(t, e, upgrades)
    ensures |lore| >= 2 && lore[0] == TYPE_PREFIX + TypeName(t) && lore[1] == ENTITY_PREFIX + e
  {
    lore := [TYPE_PREFIX + TypeName(t), ENTITY_PREFIX + e];
    if upgrades != [] {
      lore := lore + ["", HEADER];
      ghost var head := lore;
      for i := 0 to |upgrades|
        invariant lore == head + UpgradeLines(upgrades[..i])
      {
        var (key, value) := upgrades[i];
        assert UpgradeLines(upgrades[..i + 1]) ==
               UpgradeLines(upgrades[..i]) + (if value > 0 then [UpgradeLine(key, value)] else []) by {
          assert upgrades[..i + 1][..i] == upgrades[..i];
        }
        if value > 0 {
          lore := lore + [UpgradeLine(key, value)];
        }
      }
      assert upgrades[..|upgrades|] == upgrades;
    }
  }

  /** The written item: a spawner carrying `LoreOf`. */
  function SpawnerItem(t: SpawnerType, e: EntityType, levels: Entries): Item {
    Item(true, Some(LoreOf(t, e, levels)))
  }

  // ---------------------------------------------------------------------
  // Reading: isAMCSpawner, getSpawnerType, getEntityType

  /** `isAMCSpawner(item)`: a spawner with a lore line that contains `类型:`. */
  predicate IsMcwSpawner(item: Item) {
    item.isSpawner && item.lore.Some? && exists i :: 0 <= i < |item.lore.value| && Contains(item.lore.value[i], "类型:")
  }

  /** The first line containing `marker`, if any. */
  function FirstWith(lines: seq<string>, marker: string): (r: Option<nat>)
    ensures r.Some? ==> r.value < |lines| && Contains(lines[r.value], marker)
    ensures r.Some? ==> forall i :: 0 <= i < r.value ==> !Contains(lines[i], marker)
    ensures r.None? ==> forall i :: 0 <= i < |lines| ==> !Contains(lines[i], marker)
  {
    if lines == [] then None
    else if Contains(lines[0], marker) then Some(0)
    else
      var r := FirstWith(lines[1..], marker);
      assert forall i :: 1 <= i < |lines| ==> lines[i] == lines[1..][i - 1];
      Shift(r, 1)
  }

  /** `getSpawnerType(item)`: the first `类型:` line with its prefix removed, trimmed, as a type name. */
  function GetSpawnerType(item: Item): Option<SpawnerType> {
    match item.lore
    case None => None
    case Some(lore) =>
      match FirstWith(lore, "类型:")
      case None => None
      case Some(i) => TypeValueOf(Trim(ReplaceAll(lore[i], TYPE_PREFIX, "")))
  }

  /**
   * `getEntityType(item)`: the same for the first `实体:` line;
   * `known` holds the names `EntityType.valueOf` accepts.
   */
  function GetEntityType(item: Item, known: set<EntityType>): Option<EntityType> {
    match item.lore
    case None => None
    case Some(lore) =>
      match FirstWith(lore, "实体:")
      case None => None
      case Some(i) =>
        var name := Trim(ReplaceAll(lore[i], ENTITY_PREFIX, ""));
        if name in known then Some(name) else None
  }

  // ---------------------------------------------------------------------
  // Reading: getUpgradesFromItem

  /** `line.replace(LINE_PREFIX, "").replace("§e", "").trim()`. */
  function CleanLine(line: string): string {
    Trim(ReplaceAll(ReplaceAll(line, LINE_PREFIX, ""), "§e", ""))
  }

  /** One line of the upgrade section: strip the colour codes, split at ':', two parts with an integer level. */
  function ParseUpgradeLine(line: string): Option<(string, int)> {
    ParseCleaned(CleanLine(line))
  }

  function ParseCleaned(cleaned: string): Option<(string, int)> {
    var parts := Split(cleaned, ":");
    if |parts| != 2 then None
    else match ParseInt(Trim(parts[1]))
      case None => None
      case Some(level) => Some((Trim(parts[0]), level))
  }

  /** One turn of the reader's loop over `(inUpgradeSection, upgrades)`. */
  function ScanLine(st: (bool, Entries), line: string): (bool, Entries) {
    if Contains(line, "升级等级:") then (true, st.1)
    else if st.0 && HasChar(line, ':') then
      match ParseUpgradeLine(line)
      case None => st
      case Some((name, level)) => (st.0, Put(st.1, name, level))
    else st
  }

  /** The reader's state after `lines`. */
  function Scan(lines: seq<string>): (bool, Entries) {
    if lines == [] then (false, [])
    else ScanLine(Scan(lines[..|lines| - 1]), lines[|lines| - 1])
  }

  /** What `getUpgradesFromItem` returns for a lore. */
  function UpgradesOf(lore: Option<seq<string>>): Entries {
    match lore
    case None => []
    case Some(lines) => Scan(lines).1
  }

  /** `getUpgradesFromItem(item)`, with its `inUpgradeSection` flag. */
  method GetUpgradesFromItem(item: Item) returns (upgrades: Entries)
    ensures upgrades == UpgradesOf(item.lore)
  {
    upgrades := [];
    if item.lore.None? {
      return;
    }
    var lore := item.lore.value;
    var inUpgradeSection := false;
    for i := 0 to |lore|
      invariant (inUpgradeSection, upgrades) == Scan(lore[..i])
    {
      assert lore[..i + 1][..i] == lore[..i];
      var line := lore[i];
      if Contains(line, "升级等级:") {
        inUpgradeSection := true;
        continue;
      }
      if inUpgradeSection && HasChar(line, ':') {
        var parsed := ParseUpgradeLine(line);
        if parsed.Some? {
          upgrades := Put(upgrades, parsed.value.0, parsed.value.1);
        }
      }
    }
    assert lore[..|lore|] == lore;
  }

  // ---------------------------------------------------------------------
  // The round trip

  /**
   * A key the lore can carry: no ':' (it would split into three parts),
   * no '§' (the colour codes are stripped), no surrounding whitespace,
   * and not ending in `升级等级` (its line would read as a header).
   */
  predicate PlainKey(k: string) {
    !HasChar(k, ':') && !HasChar(k, '§') && Trimmed(k) && !EndsWith(k, "升级等级")
  }

  /** The levels above 0, in order. */
  function Positive(levels: Entries): (r: Entries)
    ensures |r| <= |levels|
    ensures forall k :: HasKey(r, k) ==> HasKey(levels, k)
    ensures forall e :: e in r <==> e in levels && e.1 > 0
  {
    if levels == [] then []
    else
      var last := levels[|levels| - 1];
      var r := Positive(levels[..|levels| - 1]);
      assert forall e :: e in levels <==> e in levels[..|levels| - 1] || e == last by {
        assert levels == levels[..|levels| - 1] + [last];
      }
      assert forall k :: HasKey(levels[..|levels| - 1], k) ==> HasKey(levels, k) by {
        forall k | HasKey(levels[..|levels| - 1], k) ensures HasKey(levels, k) {
          var i :| 0 <= i < |levels| - 1 && levels[..|levels| - 1][i].0 == k;
          assert levels[i].0 == k;
        }
      }
      r + (if last.1 > 0 then [last] else [])
  }

  /** The filter keeps the order: the kept entries of a concatenation are those of each part, one after the other. */
  lemma {:induction false} PositiveAppend(a: Entries, b: Entries)
    ensures Positive(a + b) == Positive(a) + Positive(b)
    decreases |b|
  {
    if b == [] {
      assert a + b == a;
      assert Positive(a) + [] == Positive(a);
    } else {
      var init := b[..|b| - 1];
      assert (a + b)[..|a + b| - 1] == a + init;
      assert (a + b)[|a + b| - 1] == b[|b| - 1];
      PositiveAppend(a, init);
    }
  }

  lemma ReplaceAllFree(s: string, pat: string, rep: string)
    requires |pat| > 0 && !HasChar(s, pat[0])
    ensures ReplaceAll(s, pat, rep) == s
  {
    ReplaceAllSkip(s, [], pat, rep);
    assert s + [] == s;
  }

  /**
   * The header text does not occur in an upgrade line: its ':' would have
   * to be the line's only one, right after the key, and the key does not
   * end with `升级等级`.
   */
  lemma NoHeaderInLine(k: string, v: nat)
    requires PlainKey(k)
    ensures !Contains(UpgradeLine(k, v), "升级等级:")
  {
    var p := "升级等级:";
    var line := UpgradeLine(k, v);
    var d := IntToString(v);
    assert AllDigits(d);
    assert line == LINE_PREFIX + k + VALUE_PREFIX + d;
    forall j | 0 <= j && j + 5 <= |line| ensures !OccursAt(line, p, j) {
      assert line[j..j + 5][4] == line[j + 4] && line[j..j + 5][0] == line[j];
      if j + 4 < 4 + |k| {
        assert line[j + 4] == k[j];
      } else if j + 4 > 4 + |k| {
        var m := j - |k|;
        assert line[j + 4] == (VALUE_PREFIX + d)[m];
        if m >= 4 { assert (VALUE_PREFIX + d)[m] == d[m - 4]; }
      } else if |k| < 4 {
        assert line[j] == LINE_PREFIX[j];
      } else {
        assert line[j..j + 4] == k[|k| - 4..];
        assert line[j..j + 5][..4] == line[j..j + 4];
      }
    }
    ContainsIff(line, p);
  }

  /** An upgrade line after its key is `: ` then `§e` then the digits. */
  lemma LineTail(k: string, d: string)
    ensures k + VALUE_PREFIX + d == (k + ": ") + ("§e" + d)
  {
    assert VALUE_PREFIX == ": " + "§e";
    AppendAssoc(k, ": ", "§e");
    AppendAssoc(k + ": ", "§e", d);
  }

  /** `replace(LINE_PREFIX, "")` leaves `§e` and digits alone: the `§` there is followed by `e`. */
  lemma ValueCodeKept(d: string)
    requires AllDigits(d)
    ensures ReplaceAll("§e" + d, LINE_PREFIX, "") == "§e" + d
  {
    var c := "§e" + d;
    assert ReplaceAll(c[1..], LINE_PREFIX, "") == c[1..] by {
      assert c[1..] == "e" + d;
      HasCharAppend("e", d, '§');
      DigitsFree(d, '§');
      ReplaceAllFree("e" + d, LINE_PREFIX, "");
    }
    if |c| >= 4 {
      assert c[..4] != LINE_PREFIX by { assert c[..4][1] == 'e'; }
    }
    assert [c[0]] + c[1..] == c;
  }

  /** `replace(LINE_PREFIX, "")` on an upgrade line drops exactly its leading code. */
  lemma StripLinePrefix(k: string, d: string)
    requires !HasChar(k, '§') && AllDigits(d)
    ensures ReplaceAll(LINE_PREFIX + k + VALUE_PREFIX + d, LINE_PREFIX, "") == k + VALUE_PREFIX + d
  {
    var rest := k + VALUE_PREFIX + d;
    var a := k + ": ";
    assert ReplaceAll(LINE_PREFIX + k + VALUE_PREFIX + d, LINE_PREFIX, "") == ReplaceAll(rest, LINE_PREFIX, "") by {
      AppendAssoc(LINE_PREFIX, k, VALUE_PREFIX);
      AppendAssoc(LINE_PREFIX, k + VALUE_PREFIX, d);
      ReplaceAllAtStart(LINE_PREFIX, rest, "");
      EmptyPlus(ReplaceAll(rest, LINE_PREFIX, ""));
    }
    LineTail(k, d);
    assert ReplaceAll(rest, LINE_PREFIX, "") == a + ReplaceAll("§e" + d, LINE_PREFIX, "") by {
      HasCharAppend(k, ": ", '§');
      ReplaceAllSkip(a, "§e" + d, LINE_PREFIX, "");
    }
    ValueCodeKept(d);
  }

  /** `replace("§e", "")` then leaves `key: value`. */
  lemma StripValueCode(k: string, d: string)
    requires !HasChar(k, '§') && AllDigits(d)
    ensures ReplaceAll(k + VALUE_PREFIX + d, "§e", "") == k + ":" + (" " + d)
  {
    var a := k + ": ";
    LineTail(k, d);
    assert ReplaceAll(a + ("§e" + d), "§e", "") == a + ReplaceAll("§e" + d, "§e", "") by {
      HasCharAppend(k, ": ", '§');
      ReplaceAllSkip(a, "§e" + d, "§e", "");
    }
    assert ReplaceAll("§e" + d, "§e", "") == d by {
      ReplaceAllAtStart("§e", d, "");
      DigitsFree(d, '§');
      ReplaceAllFree(d, "§e", "");
      EmptyPlus(d);
    }
    assert a + d == k + ":" + (" " + d) by {
      assert ": " == ":" + " ";
      AppendAssoc(k, ":", " ");
      AppendAssoc(k + ":", " ", d);
    }
  }

  /** `trim()` of a string that is one space before a trimmed one. */
  lemma TrimLeadingSpace(s: string)
    requires |s| >= 2 && s[0] == ' ' && Trimmed(s[1..])
    ensures Trim(s) == s[1..]
  {
    assert TrimStart(s) == TrimStart(s[1..]);
    TrimOfTrimmed(s[1..]);
  }

  /** `trim()` of a space and a run of digits. */
  lemma TrimSpaceDigits(d: string)
    requires AllDigits(d) && |d| > 0
    ensures Trim(" " + d) == d
  {
    assert Trimmed(d) by { assert IsDigit(d[0]) && IsDigit(d[|d| - 1]); }
    assert (" " + d)[1..] == d;
    TrimLeadingSpace(" " + d);
  }

  /** Cleaning an upgrade line leaves `key: value`. */
  lemma CleanWrittenLine(k: string, v: int)
    requires PlainKey(k) && v > 0
    ensures CleanLine(UpgradeLine(k, v)) == k + ":" + (" " + IntToString(v))
  {
    var d := IntToString(v);
    assert AllDigits(d) && |d| > 0;
    StripLinePrefix(k, d);
    StripValueCode(k, d);
    var e2 := k + ":" + (" " + d);
    assert Trimmed(e2) by {
      if k == [] { assert e2[0] == ':'; } else { assert e2[0] == k[0]; }
      assert e2[|e2| - 1] == d[|d| - 1];
      assert IsDigit(d[|d| - 1]);
    }
    TrimOfTrimmed(e2);
  }

  /** `key: value` splits into the key and the level. */
  lemma ParseCleanedWritten(k: string, v: int)
    requires PlainKey(k) && v > 0 && IsInt32(v)
    ensures ParseCleaned(k + ":" + (" " + IntToString(v))) == Some((k, v))
  {
    var d := IntToString(v);
    assert AllDigits(d) && |d| > 0;
    HasCharAppend(" ", d, ':');
    DigitsFree(d, ':');
    SplitAtOnly(k, ":", " " + d);
    TrimOfTrimmed(k);
    TrimSpaceDigits(d);
    ParseIntRoundTrip(v);
  }

  /** Reading an upgrade line gives back its key and level. */
  lemma ParseWrittenLine(k: string, v: int)
    requires PlainKey(k) && v > 0 && IsInt32(v)
    ensures ParseUpgradeLine(UpgradeLine(k, v)) == Some((k, v))
    ensures HasChar(UpgradeLine(k, v), ':')
  {
    CleanWrittenLine(k, v);
    ParseCleanedWritten(k, v);
    assert UpgradeLine(k, v)[4 + |k|] == ':';
  }

  /** Inside the upgrade section, a written line puts its entry. */
  lemma ScanWrittenLine(st: (bool, Entries), k: string, v: int)
    requires st.0 && PlainKey(k) && v > 0 && IsInt32(v)
    ensures ScanLine(st, UpgradeLine(k, v)) == (true, Put(st.1, k, v))
  {
    NoHeaderInLine(k, v);
    ParseWrittenLine(k, v);
  }

  lemma ScanSnoc(lines: seq<string>, line: string)
    ensures Scan(lines + [line]) == ScanLine(Scan(lines), line)
  {
    assert (lines + [line])[..|lines|] == lines;
  }

  /** While in the upgrade section, the written lines add their entries in order. */
  lemma {:induction false} ScanUpgradeLines(pre: seq<string>, acc: Entries, levels: Entries)
    requires Scan(pre) == (true, acc)
    requires forall i :: 0 <= i < |levels| ==> PlainKey(levels[i].0) && IsInt32(levels[i].1)
    requires DistinctKeys(acc + Positive(levels))
    ensures Scan(pre + UpgradeLines(levels)) == (true, acc + Positive(levels))
  {
    if levels == [] {
      AppendNil(pre);
      AppendNil(acc);
    } else {
      var init := levels[..|levels| - 1];
      var k := levels[|levels| - 1].0;
      var v := levels[|levels| - 1].1;
      var m := acc + Positive(init);
      var all := acc + Positive(levels);
      var lines := pre + UpgradeLines(init);
      var written := if v > 0 then [UpgradeLine(k, v)] else [];
      var kept := if v > 0 then [(k, v)] else [];
      assert UpgradeLines(levels) == UpgradeLines(init) + written;
      assert Positive(levels) == Positive(init) + kept;
      AppendAssoc(pre, UpgradeLines(init), written);
      AppendAssoc(acc, Positive(init), kept);
      assert DistinctKeys(m) by {
        assert forall i :: 0 <= i < |m| ==> m[i] == all[i];
      }
      assert Scan(lines) == (true, m) by {
        assert forall i :: 0 <= i < |init| ==> init[i] == levels[i];
        ScanUpgradeLines(pre, acc, init);
      }
      if v > 0 {
        var line := UpgradeLine(k, v);
        assert Scan(lines + [line]) == (true, Put(m, k, v)) by {
          ScanSnoc(lines, line);
          ScanWrittenLine((true, m), k, v);
        }
        assert Put(m, k, v) == m + [(k, v)] by {
          assert !HasKey(m, k) by {
            forall i | 0 <= i < |m| ensures m[i].0 != k {
              assert m[i] == all[i] && all[|m|] == (k, v);
            }
          }
          PutNewAppends(m, k, v);
        }
      } else {
        AppendNil(lines);
        AppendNil(m);
      }
    }
  }

  lemma AppendNil<T>(a: seq<T>)
    ensures a + [] == a
  {
  }

  lemma AppendAssoc<T>(a: seq<T>, b: seq<T>, c: seq<T>)
    ensures a + (b + c) == a + b + c
  {
  }

  /** Without a ':' there is no header text. */
  lemma NoColonNoHeader(s: string)
    requires !HasChar(s, ':')
    ensures !Contains(s, "升级等级:")
  {
    var p := "升级等级:";
    forall j | 0 <= j && j + 5 <= |s| ensures !OccursAt(s, p, j) {
      assert s[j..j + 5][4] == s[j + 4];
    }
    ContainsIff(s, p);
  }

  /** The type line: no header text, no `实体:`, and `类型:` at its third character. */
  lemma TypeLineFacts(t: SpawnerType)
    ensures !Contains(TYPE_PREFIX + TypeName(t), "升级等级:")
    ensures !Contains(TYPE_PREFIX + TypeName(t), "实体:")
    ensures Contains(TYPE_PREFIX + TypeName(t), "类型:")
  {
    TypeLineNoHeader(t);
    TypeLineNoEntity(t);
    TypeLineHasType(t);
  }

  lemma TypeLineNoHeader(t: SpawnerType)
    ensures !Contains(TYPE_PREFIX + TypeName(t), "升级等级:")
  {
    IndexOfSkip(TYPE_PREFIX, TypeName(t), "升级等级:");
    IndexOfFree(TypeName(t), "升级等级:");
  }

  lemma TypeLineNoEntity(t: SpawnerType)
    ensures !Contains(TYPE_PREFIX + TypeName(t), "实体:")
  {
    HasCharAppend(TYPE_PREFIX, TypeName(t), '实');
    IndexOfFree(TYPE_PREFIX + TypeName(t), "实体:");
  }

  lemma TypeLineHasType(t: SpawnerType)
    ensures Contains(TYPE_PREFIX + TypeName(t), "类型:")
  {
    var tl := TYPE_PREFIX + TypeName(t);
    ContainsIff(tl, "类型:");
    assert OccursAt(tl, "类型:", 2);
  }

  /** The entity line: no header text, and `实体:` at its third character. */
  lemma EntityLineFacts(e: EntityType)
    requires !HasChar(e, ':')
    ensures !Contains(ENTITY_PREFIX + e, "升级等级:")
    ensures Contains(ENTITY_PREFIX + e, "实体:")
  {
    IndexOfSkip(ENTITY_PREFIX, e, "升级等级:");
    NoColonNoHeader(e);
    ContainsIff(ENTITY_PREFIX + e, "实体:");
    assert OccursAt(ENTITY_PREFIX + e, "实体:", 2);
  }

  /** The blank line is no header, the header line is one. */
  lemma HeaderFacts()
    ensures !Contains("", "升级等级:") && Contains(HEADER, "升级等级:")
  {
    ContainsIff(HEADER, "升级等级:");
    assert OccursAt(HEADER, "升级等级:", 2);
  }

  lemma {:induction false} PositiveKeepsDistinct(levels: Entries)
    requires DistinctKeys(levels)
    ensures DistinctKeys(Positive(levels))
  {
    if levels != [] {
      var init := levels[..|levels| - 1];
      var last := levels[|levels| - 1];
      assert DistinctKeys(init);
      PositiveKeepsDistinct(init);
      assert !HasKey(init, last.0);
    }
  }

  /** Reading the upgrade section of a written lore gives back the levels above 0, in order. */
  lemma UpgradesRoundTrip(t: SpawnerType, e: EntityType, levels: Entries)
    requires !HasChar(e, ':')
    requires DistinctKeys(levels)
    requires forall i :: 0 <= i < |levels| ==> PlainKey(levels[i].0) && IsInt32(levels[i].1)
    ensures UpgradesOf(Some(LoreOf(t, e, levels))) == Positive(levels)
  {
    if levels == [] {
      NoUpgradesRoundTrip(t, e, levels);
    } else {
      SomeUpgradesRoundTrip(t, e, levels);
    }
  }

  lemma NoUpgradesRoundTrip(t: SpawnerType, e: EntityType, levels: Entries)
    requires !HasChar(e, ':') && levels == []
    ensures UpgradesOf(Some(LoreOf(t, e, levels))) == Positive(levels)
  {
    var tl := TYPE_PREFIX + TypeName(t);
    var el := ENTITY_PREFIX + e;
    assert LoreOf(t, e, levels) == [tl, el] by {
      ListShapes(tl, el, "", HEADER, []);
    }
    TypeEntityScan(t, e);
  }

  lemma SomeUpgradesRoundTrip(t: SpawnerType, e: EntityType, levels: Entries)
    requires !HasChar(e, ':') && levels != []
    requires DistinctKeys(levels)
    requires forall i :: 0 <= i < |levels| ==> PlainKey(levels[i].0) && IsInt32(levels[i].1)
    ensures UpgradesOf(Some(LoreOf(t, e, levels))) == Positive(levels)
  {
    var tl := TYPE_PREFIX + TypeName(t);
    var el := ENTITY_PREFIX + e;
    var pre := [tl, el, "", HEADER];
    assert LoreOf(t, e, levels) == pre + UpgradeLines(levels) by {
      ListShapes(tl, el, "", HEADER, UpgradeLines(levels));
    }
    PreambleScan(t, e);
    UpgradesAfterPreamble(LoreOf(t, e, levels), pre, levels);
  }

  /** The upgrade lines after a preamble that opens the upgrade section read back as the levels above 0. */
  lemma UpgradesAfterPreamble(lore: seq<string>, pre: seq<string>, levels: Entries)
    requires lore == pre + UpgradeLines(levels) && Scan(pre) == (true, [])
    requires DistinctKeys(levels)
    requires forall i :: 0 <= i < |levels| ==> PlainKey(levels[i].0) && IsInt32(levels[i].1)
    ensures Scan(lore).1 == Positive(levels)
  {
    assert DistinctKeys([] + Positive(levels)) by {
      EmptyPlus(Positive(levels));
      PositiveKeepsDistinct(levels);
    }
    ScanUpgradeLines(pre, [], levels);
    EmptyPlus(Positive(levels));
  }

  /** The reader after the type and entity lines, and after the blank line and the header. */
  lemma TypeEntityScan(t: SpawnerType, e: EntityType)
    requires !HasChar(e, ':')
    ensures Scan([TYPE_PREFIX + TypeName(t), ENTITY_PREFIX + e]) == (false, [])
  {
    var tl := TYPE_PREFIX + TypeName(t);
    var el := ENTITY_PREFIX + e;
    ListShapes(tl, el, "", HEADER, []);
    TypeLineFacts(t);
    EntityLineFacts(e);
    ScanSnoc([], tl);
    ScanSnoc([tl], el);
  }

  lemma PreambleScan(t: SpawnerType, e: EntityType)
    requires !HasChar(e, ':')
    ensures Scan([TYPE_PREFIX + TypeName(t), ENTITY_PREFIX + e, "", HEADER]) == (true, [])
  {
    var tl := TYPE_PREFIX + TypeName(t);
    var el := ENTITY_PREFIX + e;
    ListShapes(tl, el, "", HEADER, []);
    TypeEntityScan(t, e);
    HeaderFacts();
    ScanSnoc([tl, el], "");
    ScanSnoc([tl, el, ""], HEADER);
  }

  /** How the lore's list literals fit together. */
  lemma ListShapes<T>(a: T, b: T, c: T, d: T, u: seq<T>)
    ensures [] + [a] == [a] && [a] + [b] == [a, b] && [a, b] + [c] == [a, b, c] && [a, b, c] + [d] == [a, b, c, d]
    ensures [a, b] + ([c, d] + u) == [a, b, c, d] + u && [a, b] + [] == [a, b]
  {
  }

  lemma EmptyPlus<T>(u: seq<T>)
    ensures [] + u == u
  {
  }

  /** `getSpawnerType` and `isAMCSpawner` on a written item. */
  lemma TypeRoundTrip(t: SpawnerType, e: EntityType, levels: Entries)
    ensures GetSpawnerType(SpawnerItem(t, e, levels)) == Some(t)
    ensures IsMcwSpawner(SpawnerItem(t, e, levels))
  {
    var lore := LoreOf(t, e, levels);
    var tl := TYPE_PREFIX + TypeName(t);
    assert lore[0] == tl;
    assert Contains(tl, "类型:") by { TypeLineFacts(t); }
    assert FirstWith(lore, "类型:") == Some(0);
    assert TypeValueOf(Trim(ReplaceAll(tl, TYPE_PREFIX, ""))) == Some(t) by {
      TypeNameRead(t);
    }
  }

  /** The prefix removed and trimmed, the type line reads back as its type. */
  lemma TypeNameRead(t: SpawnerType)
    ensures TypeValueOf(Trim(ReplaceAll(TYPE_PREFIX + TypeName(t), TYPE_PREFIX, ""))) == Some(t)
  {
    var name := TypeName(t);
    assert ReplaceAll(TYPE_PREFIX + name, TYPE_PREFIX, "") == name by {
      ReplaceAllAtStart(TYPE_PREFIX, name, "");
      ReplaceAllFree(name, TYPE_PREFIX, "");
    }
    assert Trim(name) == name by {
      TrimOfTrimmed(name);
    }
  }

  /** `getEntityType` on a written item. */
  lemma EntityRoundTrip(t: SpawnerType, e: EntityType, levels: Entries, known: set<EntityType>)
    requires !HasChar(e, ':') && !HasChar(e, '§') && Trimmed(e)
    ensures GetEntityType(SpawnerItem(t, e, levels), known) == if e in known then Some(e) else None
  {
    var lore := LoreOf(t, e, levels);
    var el := ENTITY_PREFIX + e;
    assert FirstWith(lore, "实体:") == Some(1) by {
      TypeLineFacts(t);
      EntityLineFacts(e);
      assert lore[1..][0] == el;
    }
    assert lore[1] == el;
    EntityNameRead(e);
  }

  /** The entity line reads back as the entity name. */
  lemma EntityNameRead(e: EntityType)
    requires !HasChar(e, '§') && Trimmed(e)
    ensures Trim(ReplaceAll(ENTITY_PREFIX + e, ENTITY_PREFIX, "")) == e
  {
    EntityPrefixRemoved(e);
    TrimOfTrimmed(e);
  }

  lemma EntityPrefixRemoved(e: EntityType)
    requires !HasChar(e, '§')
    ensures ReplaceAll(ENTITY_PREFIX + e, ENTITY_PREFIX, "") == e
  {
    ReplaceAllAtStart(ENTITY_PREFIX, e, "");
    ReplaceAllFree(e, ENTITY_PREFIX, "");
  }

  /**
   * The round trip of a spawner item: reading the lore written for a
   * spawner gives back its levels above 0 (in order), its type and its
   * entity, and the item is recognised as one of this plugin's spawners.
   */
  lemma LoreRoundTrip(t: SpawnerType, e: EntityType, levels: Entries, known: set<EntityType>)
    requires !HasChar(e, ':') && !HasChar(e, '§') && Trimmed(e)
    requires DistinctKeys(levels)
    requires forall i :: 0 <= i < |levels| ==> PlainKey(levels[i].0) && IsInt32(levels[i].1)
    ensures UpgradesOf(SpawnerItem(t, e, levels).lore) == Positive(levels)
    ensures GetSpawnerType(SpawnerItem(t, e, levels)) == Some(t)
    ensures GetEntityType(SpawnerItem(t, e, levels), known) == if e in known then Some(e) else None
    ensures IsMcwSpawner(SpawnerItem(t, e, levels))
  {
    UpgradesRoundTrip(t, e, levels);
    TypeRoundTrip(t, e, levels);
    EntityRoundTrip(t, e, levels, known);
  }

  // ---------------------------------------------------------------------
  // Placement: onSpawnerPlace

  /** What `onSpawnerPlace` does with a placed block. */
  datatype PlaceOutcome =
    | Ignored                                   // not a spawner block, or not this plugin's item
    | CancelledUnreadable                       // type or entity unreadable
    | NoPlacePermission
    | LimitReached(placed: int, limit: int)
    | ConditionsNotMet
    | Placed(t: SpawnerType, entity: EntityType, upgrades: Entries)

  /**
   * The guards of `onSpawnerPlace`, in order. For the type read from the
   * item, `canPlace` is the `mcw.place.<type>` permission, `placed` the
   * owner's spawner count of that type and `limit` its permission limit; `conditionsMet` is the
   * Y condition of the entity's `spawn_conditions` (true without an entity
   * file), skipped with `bypassConditions`.
   */
  function PlaceDecision(blockIsSpawner: bool, item: Item, known: set<EntityType>,
                         canPlace: bool, placed: int, limit: int,
                         bypassConditions: bool, conditionsMet: bool): (r: PlaceOutcome)
    ensures r.Placed? ==> blockIsSpawner && IsMcwSpawner(item) && canPlace && placed < limit
    ensures r.Placed? ==> GetSpawnerType(item) == Some(r.t) && GetEntityType(item, known) == Some(r.entity)
    ensures r.Placed? ==> r.upgrades == UpgradesOf(item.lore)
    ensures r.LimitReached? ==> r.placed >= r.limit
  {
    if !blockIsSpawner || !IsMcwSpawner(item) then Ignored
    else
      var t := GetSpawnerType(item);
      var entity := GetEntityType(item, known);
      if t.None? || entity.None? then CancelledUnreadable
      else if !canPlace then NoPlacePermission
      else if placed >= limit then LimitReached(placed, limit)
      else if !bypassConditions && !conditionsMet then ConditionsNotMet
      else Placed(t.value, entity.value, UpgradesOf(item.lore))
  }

  /**
   * An item written for a spawner, placed by a player allowed to place it
   * and below the limit, is placed with the same type, the same entity and
   * the levels above 0; at or over the limit it is refused with the counts.
   */
  lemma PlaceWrittenItem(t: SpawnerType, e: EntityType, levels: Entries, known: set<EntityType>,
                         canPlace: bool, placed: int, limit: int,
                         bypassConditions: bool, conditionsMet: bool)
    requires !HasChar(e, ':') && !HasChar(e, '§') && Trimmed(e) && e in known
    requires DistinctKeys(levels)
    requires forall i :: 0 <= i < |levels| ==> PlainKey(levels[i].0) && IsInt32(levels[i].1)
    requires canPlace
    ensures var r := PlaceDecision(true, SpawnerItem(t, e, levels), known, canPlace, placed, limit, bypassConditions, conditionsMet);
            && (placed >= limit ==> r == LimitReached(placed, limit))
            && (placed < limit && (bypassConditions || conditionsMet) ==> r == Placed(t, e, Positive(levels)))
            && (placed < limit && !bypassConditions && !conditionsMet ==> r == ConditionsNotMet)
  {
    var item := SpawnerItem(t, e, levels);
    assert IsMcwSpawner(item) && GetSpawnerType(item) == Some(t) && GetEntityType(item, known) == Some(e)
           && UpgradesOf(item.lore) == Positive(levels) by {
      LoreRoundTrip(t, e, levels, known);
    }
    PlaceReadable(item, t, e, Positive(levels), known, canPlace, placed, limit, bypassConditions, conditionsMet);
  }

  /** The placement guards once the item is known to read back as `t`, `e` and `upgrades`. */
  lemma PlaceReadable(item: Item, t: SpawnerType, e: EntityType, upgrades: Entries, known: set<EntityType>,
                      canPlace: bool, placed: int, limit: int,
                      bypassConditions: bool, conditionsMet: bool)
    requires IsMcwSpawner(item) && GetSpawnerType(item) == Some(t) && GetEntityType(item, known) == Some(e)
    requires UpgradesOf(item.lore) == upgrades
    requires canPlace
    ensures var r := PlaceDecision(true, item, known, canPlace, placed, limit, bypassConditions, conditionsMet);
            && (placed >= limit ==> r == LimitReached(placed, limit))
            && (placed < limit && (bypassConditions || conditionsMet) ==> r == Placed(t, e, upgrades))
            && (placed < limit && !bypassConditions && !conditionsMet ==> r == ConditionsNotMet)
  {
  }
}
