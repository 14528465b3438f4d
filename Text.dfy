/**
 * The Kotlin string operations the plugin relies on, written out so that the
 * parsers built on them can be reasoned about: `trim`, `indexOf`,
 * `contains`, `startsWith`, `split`, `replace`, `lowercase`,
 * `equals(ignoreCase = true)`, `toIntOrNull`, `toDoubleOrNull` and
 * `toBoolean`.
 */
module Text {
  import opened Common

  // ---------------------------------------------------------------------
  // Whitespace and trim

  /**
   * Kotlin's `Char.isWhitespace()` on the JVM: Java's `isWhitespace` or
   * `isSpaceChar` (the Unicode space, line and paragraph separators plus the
   * ASCII controls TAB..CR and FS..US).
   */
  predicate IsWhitespace(c: char) {
    ('\U{0009}' <= c <= '\U{000D}') || ('\U{001C}' <= c <= ' ') || c == '\U{00A0}'
    || c == '\U{1680}' || ('\U{2000}' <= c <= '\U{200A}') || c == '\U{2028}' || c == '\U{2029}'
    || c == '\U{202F}' || c == '\U{205F}' || c == '\U{3000}'
  }

  function TrimStart(s: string): (r: string)
    ensures |r| <= |s| && r == s[|s| - |r|..]
    ensures r == [] || !IsWhitespace(r[0])
    ensures forall i :: 0 <= i < |s| - |r| ==> IsWhitespace(s[i])
  {
    if s != [] && IsWhitespace(s[0]) then TrimStart(s[1..]) else s
  }

  function TrimEnd(s: string): (r: string)
    ensures |r| <= |s| && r == s[..|r|]
    ensures r == [] || !IsWhitespace(r[|r| - 1])
    ensures forall i :: |r| <= i < |s| ==> IsWhitespace(s[i])
  {
    if s != [] && IsWhitespace(s[|s| - 1]) then TrimEnd(s[..|s| - 1]) else s
  }

  /** Kotlin's `String.trim()`. */
  function Trim(s: string): (r: string)
  {
    TrimEnd(TrimStart(s))
  }

  /** A string that `trim()` leaves as it is. */
  predicate Trimmed(s: string) {
    s == [] || (!IsWhitespace(s[0]) && !IsWhitespace(s[|s| - 1]))
  }

  lemma TrimOfTrimmed(s: string)
    requires Trimmed(s)
    ensures Trim(s) == s
  {
  }

  lemma {:induction false} TrimIsTrimmed(s: string)
    ensures Trimmed(Trim(s))
  {
    var t := TrimStart(s);
    var r := TrimEnd(t);
    if r != [] {
      assert r == t[..|r|];
      assert r[0] == t[0];
    }
  }

  /** Trimming twice is trimming once. */
  lemma TrimIdempotent(s: string)
    ensures Trim(Trim(s)) == Trim(s)
  {
    TrimIsTrimmed(s);
    TrimOfTrimmed(Trim(s));
  }

  // ---------------------------------------------------------------------
  // Searching

  /** `s` holds `p` starting at index `j`. */
  predicate OccursAt(s: string, p: string, j: int) {
    0 <= j && j + |p| <= |s| && s[j..j + |p|] == p
  }

  /** Kotlin's `indexOf(p)`: the first index at which `p` occurs. */
  function IndexOf(s: string, p: string): (r: Option<nat>)
    ensures r.Some? ==> r.value + |p| <= |s|
    decreases |s|
  {
    if |s| < |p| then None
    else if s[..|p|] == p then Some(0)
    else Shift(IndexOf(s[1..], p), 1)
  }

  /** An occurrence at `j > 0` is an occurrence at `j - 1` in the rest of the string. */
  lemma OccursShift(s: string, p: string, j: int)
    requires 1 <= j && s != []
    ensures OccursAt(s, p, j) <==> OccursAt(s[1..], p, j - 1)
  {
    if j + |p| <= |s| {
      var a, b := s[j..j + |p|], s[1..][j - 1..j - 1 + |p|];
      forall k | 0 <= k < |p| ensures a[k] == b[k] {
        assert a[k] == s[j + k] && b[k] == s[j + k];
      }
      assert a == b;
    }
  }

  /**
   * `IndexOf` finds the first occurrence: the index it returns holds `p` and
   * no smaller one does, and it finds nothing only when `p` occurs nowhere.
   */
  lemma {:induction false} IndexOfSpec(s: string, p: string)
    ensures IndexOf(s, p).Some? ==> OccursAt(s, p, IndexOf(s, p).value)
    ensures IndexOf(s, p).Some? ==> forall j :: 0 <= j < IndexOf(s, p).value ==> !OccursAt(s, p, j)
    ensures IndexOf(s, p).None? ==> forall j :: !OccursAt(s, p, j)
    decreases |s|
  {
    if |s| < |p| {
    } else if s[..|p|] == p {
      assert s[0..|p|] == s[..|p|];
    } else {
      var r := IndexOf(s[1..], p);
      IndexOfSpec(s[1..], p);
      assert IndexOf(s, p) == Shift(r, 1);
      assert !OccursAt(s, p, 0) by {
        assert s[0..|p|] == s[..|p|];
      }
      if r.Some? {
        OccursShift(s, p, r.value + 1);
        forall j | 1 <= j < r.value + 1 ensures !OccursAt(s, p, j) {
          OccursShift(s, p, j);
        }
      } else {
        forall j | 1 <= j ensures !OccursAt(s, p, j) {
          OccursShift(s, p, j);
        }
      }
    }
  }

  /** A prefix ending before the first occurrence of `d` does not contain `d`. */
  lemma PrefixFree(s: string, d: string, i: nat)
    requires |d| > 0 && i <= |s| && forall j :: 0 <= j < i ==> !OccursAt(s, d, j)
    ensures !Contains(s[..i], d)
  {
    forall j ensures !OccursAt(s[..i], d, j) {
      if 0 <= j && j + |d| <= i {
        assert !OccursAt(s, d, j);
        assert s[..i][j..j + |d|] == s[j..j + |d|];
      }
    }
    IndexOfSpec(s[..i], d);
  }

  /** Kotlin's `contains(p)`. */
  predicate Contains(s: string, p: string) {
    IndexOf(s, p).Some?
  }

  lemma ContainsIff(s: string, p: string)
    ensures Contains(s, p) <==> exists j :: OccursAt(s, p, j)
  {
    IndexOfSpec(s, p);
  }

  predicate StartsWith(s: string, p: string) {
    |p| <= |s| && s[..|p|] == p
  }

  predicate EndsWith(s: string, p: string) {
    |p| <= |s| && s[|s| - |p|..] == p
  }

  predicate HasChar(s: string, c: char) {
    exists i :: 0 <= i < |s| && s[i] == c
  }

  lemma HasCharAppend(x: string, y: string, c: char)
    ensures HasChar(x + y, c) <==> HasChar(x, c) || HasChar(y, c)
  {
    if HasChar(x + y, c) {
      var i :| 0 <= i < |x + y| && (x + y)[i] == c;
      if i >= |x| { assert y[i - |x|] == c; } else { assert x[i] == c; }
    }
    if HasChar(x, c) {
      var i :| 0 <= i < |x| && x[i] == c;
      assert (x + y)[i] == c;
    }
    if HasChar(y, c) {
      var i :| 0 <= i < |y| && y[i] == c;
      assert (x + y)[i + |x|] == c;
    }
  }

  /** A pattern whose first character does not occur in `s` does not occur in `s`. */
  lemma IndexOfFree(s: string, p: string)
    requires |p| > 0 && !HasChar(s, p[0])
    ensures IndexOf(s, p) == None
  {
    forall j ensures !OccursAt(s, p, j) {
      if 0 <= j && j + |p| <= |s| { assert s[j..j + |p|][0] == s[j]; }
    }
    IndexOfSpec(s, p);
  }

  /** A pattern with a character that does not occur in `s` does not occur in `s`. */
  lemma IndexOfFreeAt(s: string, p: string, k: nat)
    requires k < |p| && !HasChar(s, p[k])
    ensures IndexOf(s, p) == None
  {
    forall j ensures !OccursAt(s, p, j) {
      if 0 <= j && j + |p| <= |s| { assert s[j..j + |p|][k] == s[j + k]; }
    }
    IndexOfSpec(s, p);
  }

  /** An index found by a search, moved `k` places on. */
  function Shift(r: Option<nat>, k: nat): Option<nat> {
    match r
    case None => None
    case Some(i) => Some(i + k)
  }

  lemma IndexOfCons(c: char, t: string, p: string)
    requires |p| > 0 && c != p[0]
    ensures IndexOf([c] + t, p) == Shift(IndexOf(t, p), 1)
  {
    var s := [c] + t;
    assert s[1..] == t;
    if |s| >= |p| {
      assert s[..|p|][0] == c;
    }
  }

  lemma IndexOfAtStart(p: string, b: string)
    ensures IndexOf(p + b, p) == Some(0)
  {
    assert (p + b)[..|p|] == p;
  }

  /**
   * Searching past a prefix that cannot hold the pattern's first character
   * finds what a search of the rest finds, shifted by the prefix length.
   */
  lemma {:induction false} IndexOfSkip(a: string, s: string, p: string)
    requires |p| > 0 && !HasChar(a, p[0])
    ensures IndexOf(a + s, p) == Shift(IndexOf(s, p), |a|)
  {
    if a != [] {
      assert !HasChar(a[1..], p[0]) by {
        forall i | 0 <= i < |a[1..]| ensures a[1..][i] != p[0] { assert a[1..][i] == a[i + 1]; }
      }
      IndexOfSkip(a[1..], s, p);
      assert a + s == [a[0]] + (a[1..] + s);
      assert a[0] != p[0];
      IndexOfCons(a[0], a[1..] + s, p);
    } else {
      assert a + s == s;
    }
  }

  // ---------------------------------------------------------------------
  // split, joinToString, replace

  /**
   * `parts.joinToString(d)`: the inverse of `Split`.
   */
  function Join(parts: seq<string>, d: string): string
  {
    if parts == [] then []
    else if |parts| == 1 then parts[0]
    else parts[0] + d + Join(parts[1..], d)
  }

  /**
   * Kotlin's `split(d)` for a non-empty delimiter: every piece between
   * non-overlapping occurrences found left to right, empty pieces included.
   */
  function Split(s: string, d: string): (parts: seq<string>)
    requires |d| > 0
    ensures |parts| >= 1
    ensures forall i :: 0 <= i < |parts| ==> !Contains(parts[i], d)
    ensures Join(parts, d) == s
    decreases |s|
  {
    match IndexOf(s, d)
    case None => [s]
    case Some(i) =>
      IndexOfSpec(s, d);
      var head := s[..i];
      PrefixFree(s, d, i);
      var rest := Split(s[i + |d|..], d);
      assert s == head + d + s[i + |d|..] by {
        assert s[i..i + |d|] == d;
        assert s == s[..i] + s[i..i + |d|] + s[i + |d|..];
      }
      [head] + rest
  }

  /** Kotlin's `split(d, limit = 2)`: cut at the first occurrence only. */
  function SplitOnce(s: string, d: string): (parts: seq<string>)
    requires |d| > 0
    ensures 1 <= |parts| <= 2
    ensures |parts| == 2 <==> Contains(s, d)
    ensures |parts| == 1 ==> parts[0] == s
    ensures |parts| == 2 ==> s == parts[0] + d + parts[1] && !Contains(parts[0], d)
  {
    match IndexOf(s, d)
    case None => [s]
    case Some(i) =>
      IndexOfSpec(s, d);
      PrefixFree(s, d, i);
      assert s == s[..i] + d + s[i + |d|..] by {
        assert s[i..i + |d|] == d;
        assert s == s[..i] + s[i..i + |d|] + s[i + |d|..];
      }
      [s[..i], s[i + |d|..]]
  }

  /** `rep` between every pair of characters and at both ends: `replace("", rep)`. */
  function Interleave(s: string, rep: string): string
  {
    if s == [] then rep else rep + [s[0]] + Interleave(s[1..], rep)
  }

  /**
   * Kotlin's `replace(pat, rep)`: every non-overlapping occurrence, found
   * left to right, becomes `rep`; scanning resumes after the occurrence.
   */
  function ReplaceAll(s: string, pat: string, rep: string): string
    decreases |s|
  {
    if |pat| == 0 then Interleave(s, rep)
    else if |s| < |pat| then s
    else if s[..|pat|] == pat then rep + ReplaceAll(s[|pat|..], pat, rep)
    else [s[0]] + ReplaceAll(s[1..], pat, rep)
  }

  /** A string that starts with `d` splits into an empty piece and the pieces of the rest. */
  lemma SplitAtStart(s: string, d: string)
    requires |d| > 0 && |d| <= |s| && s[..|d|] == d
    ensures Split(s, d) == [[]] + Split(s[|d|..], d)
  {
    assert IndexOf(s, d) == Some(0);
  }

  /** A string that does not start with `d` has its first character in its first piece. */
  lemma SplitCons(s: string, d: string)
    requires |d| > 0 && s != [] && !(|d| <= |s| && s[..|d|] == d)
    ensures Split(s, d) == [[s[0]] + Split(s[1..], d)[0]] + Split(s[1..], d)[1..]
  {
    match IndexOf(s[1..], d)
    case None =>
      assert [s[0]] + s[1..] == s;
    case Some(i) =>
      assert IndexOf(s, d) == Some(i + 1);
      assert s[..i + 1] == [s[0]] + s[1..][..i];
      assert s[1..][i + |d|..] == s[i + 1 + |d|..];
  }

  lemma JoinConsHead(c: char, parts: seq<string>, d: string)
    requires |parts| >= 1
    ensures Join([[c] + parts[0]] + parts[1..], d) == [c] + Join(parts, d)
  {
    var q := [[c] + parts[0]] + parts[1..];
    if |parts| > 1 {
      assert q[1..] == parts[1..];
    }
  }

  /**
   * Replacing `pat` by `rep` is splitting at `pat` and joining with `rep`:
   * an independent characterisation of `ReplaceAll`.
   */
  lemma {:induction false} ReplaceAllIsJoinSplit(s: string, pat: string, rep: string)
    requires |pat| > 0
    ensures ReplaceAll(s, pat, rep) == Join(Split(s, pat), rep)
    decreases |s|
  {
    if |s| < |pat| {
      assert IndexOf(s, pat) == None;
    } else if s[..|pat|] == pat {
      SplitAtStart(s, pat);
      ReplaceAllIsJoinSplit(s[|pat|..], pat, rep);
    } else {
      SplitCons(s, pat);
      ReplaceAllIsJoinSplit(s[1..], pat, rep);
      JoinConsHead(s[0], Split(s[1..], pat), rep);
    }
  }

  /** Round trip: splitting at `d` and joining with `d` gives back the string. */
  lemma ReplaceWithItself(s: string, pat: string)
    requires |pat| > 0
    ensures ReplaceAll(s, pat, pat) == s
  {
    ReplaceAllIsJoinSplit(s, pat, pat);
  }

  /** A string without `pat` is left as it is. */
  lemma {:induction false} ReplaceAllAbsent(s: string, pat: string, rep: string)
    requires |pat| > 0 && !Contains(s, pat)
    ensures ReplaceAll(s, pat, rep) == s
    decreases |s|
  {
    if |s| >= |pat| {
      ReplaceAllAbsent(s[1..], pat, rep);
      assert [s[0]] + s[1..] == s;
    }
  }

  /** `replace(pat, rep)` on a string starting with `pat`. */
  lemma ReplaceAllAtStart(pat: string, b: string, rep: string)
    requires |pat| > 0
    ensures ReplaceAll(pat + b, pat, rep) == rep + ReplaceAll(b, pat, rep)
  {
    assert (pat + b)[..|pat|] == pat;
    assert (pat + b)[|pat|..] == b;
  }

  lemma SeqConsSplit(a: string, s: string)
    requires a != []
    ensures a + s == [a[0]] + (a[1..] + s)
  {
  }

  lemma ReplaceAllCons(c: char, t: string, pat: string, rep: string)
    requires |pat| > 0 && c != pat[0]
    ensures ReplaceAll([c] + t, pat, rep) == [c] + ReplaceAll(t, pat, rep)
  {
    var s := [c] + t;
    assert s[1..] == t;
    if |s| >= |pat| {
      assert s[..|pat|][0] == c;
    }
  }

  /** `replace(pat, rep)` past a prefix that cannot start an occurrence. */
  lemma {:induction false} ReplaceAllSkip(a: string, s: string, pat: string, rep: string)
    requires |pat| > 0 && !HasChar(a, pat[0])
    ensures ReplaceAll(a + s, pat, rep) == a + ReplaceAll(s, pat, rep)
  {
    if a != [] {
      assert !HasChar(a[1..], pat[0]) by {
        forall i | 0 <= i < |a[1..]| ensures a[1..][i] != pat[0] { assert a[1..][i] == a[i + 1]; }
      }
      var rest := a[1..] + s;
      var x := ReplaceAll(s, pat, rep);
      SeqConsSplit(a, s);
      SeqConsSplit(a, x);
      ReplaceAllSkip(a[1..], s, pat, rep);
      ReplaceAllCons(a[0], rest, pat, rep);
    } else {
      assert a + s == s;
    }
  }

  lemma DigitsFree(d: string, c: char)
    requires AllDigits(d) && !IsDigit(c)
    ensures !HasChar(d, c)
  {
  }

  /** Splitting at `d` a string whose only occurrence of `d`'s first character is in the one `d`. */
  lemma SplitAtOnly(a: string, d: string, b: string)
    requires |d| > 0 && !HasChar(a, d[0]) && !HasChar(b, d[0])
    ensures Split(a + d + b, d) == [a, b]
  {
    var s := a + d + b;
    IndexOfSkip(a, d + b, d);
    IndexOfAtStart(d, b);
    assert a + (d + b) == s;
    assert s[..|a|] == a && s[|a| + |d|..] == b;
    IndexOfFree(b, d);
  }

  /** Cutting at the first `d` a string whose first part holds no character that starts `d`. */
  lemma SplitOnceAt(a: string, d: string, b: string)
    requires |d| > 0 && !HasChar(a, d[0])
    ensures SplitOnce(a + d + b, d) == [a, b]
  {
    var s := a + d + b;
    IndexOfSkip(a, d + b, d);
    IndexOfAtStart(d, b);
    assert a + (d + b) == s;
    assert s[..|a|] == a && s[|a| + |d|..] == b;
  }

  /** Kotlin's `replace(a, b)` on characters. */
  function ReplaceChar(s: string, a: char, b: char): (r: string)
    ensures |r| == |s|
    ensures forall i :: 0 <= i < |s| ==> r[i] == (if s[i] == a then b else s[i])
  {
    if s == [] then [] else [if s[0] == a then b else s[0]] + ReplaceChar(s[1..], a, b)
  }

  // ---------------------------------------------------------------------
  // Case

  /** `Char.lowercaseChar()`, for the ASCII letters. */
  function LowerChar(c: char): char {
    if 'A' <= c <= 'Z' then (c as int + 32) as char else c
  }

  /** `String.lowercase()`, for the ASCII letters. */
  function Lower(s: string): (r: string)
    ensures |r| == |s| && forall i :: 0 <= i < |s| ==> r[i] == LowerChar(s[i])
  {
    if s == [] then [] else [LowerChar(s[0])] + Lower(s[1..])
  }

  /** `Char.uppercaseChar()`, for the ASCII letters. */
  function UpperChar(c: char): char {
    if 'a' <= c <= 'z' then (c as int - 32) as char else c
  }

  /** `String.uppercase()`, for the ASCII letters. */
  function Upper(s: string): (r: string)
    ensures |r| == |s| && forall i :: 0 <= i < |s| ==> r[i] == UpperChar(s[i])
  {
    if s == [] then [] else [UpperChar(s[0])] + Upper(s[1..])
  }

  /** `a.equals(b, ignoreCase = true)`, for the ASCII letters. */
  predicate EqualsIgnoreCase(a: string, b: string) {
    |a| == |b| && forall i :: 0 <= i < |a| ==> LowerChar(a[i]) == LowerChar(b[i])
  }

  /** Equality ignoring case is equality of the lowercased strings. */
  lemma EqualsIgnoreCaseIsLower(a: string, b: string)
    ensures EqualsIgnoreCase(a, b) <==> Lower(a) == Lower(b)
  {
    if Lower(a) == Lower(b) {
      forall i | 0 <= i < |a| ensures LowerChar(a[i]) == LowerChar(b[i]) {
        assert Lower(a)[i] == Lower(b)[i];
      }
    }
  }

  // ---------------------------------------------------------------------
  // Numbers

  predicate IsDigit(c: char) {
    '0' <= c <= '9'
  }

  predicate AllDigits(s: string) {
    forall i :: 0 <= i < |s| ==> IsDigit(s[i])
  }

  function DigitChar(d: nat): char
    requires d < 10
  {
    ('0' as int + d) as char
  }

  /** The value of a run of decimal digits. */
  function DigitsValue(s: string): nat
    requires AllDigits(s)
  {
    if s == [] then 0 else DigitsValue(s[..|s| - 1]) * 10 + (s[|s| - 1] as int - '0' as int)
  }

  /** The decimal digits of a natural number, most significant first. */
  function NatToDigits(n: nat): (s: string)
    ensures |s| > 0 && AllDigits(s)
  {
    if n < 10 then [DigitChar(n)] else NatToDigits(n / 10) + [DigitChar(n % 10)]
  }

  /** Kotlin's `Int.toString()`. */
  function IntToString(n: int): string
  {
    if n < 0 then "-" + NatToDigits(-n) else NatToDigits(n)
  }

  /**
   * Kotlin's `toIntOrNull()` (and `toInt()`, which throws where this gives
   * `None`): an optional sign, at least one decimal digit, in `Int` range.
   */
  function ParseInt(s: string): (r: Option<int>)
    ensures r.Some? ==> IsInt32(r.value)
  {
    var neg := |s| > 0 && s[0] == '-';
    var body := if |s| > 0 && (s[0] == '-' || s[0] == '+') then s[1..] else s;
    if body == [] || !AllDigits(body) then None
    else
      var v: int := if neg then -(DigitsValue(body) as int) else DigitsValue(body);
      if IsInt32(v) then Some(v) else None
  }

  lemma {:induction false} DigitsRoundTrip(n: nat)
    ensures DigitsValue(NatToDigits(n)) == n
  {
    if n >= 10 {
      DigitsRoundTrip(n / 10);
      var s := NatToDigits(n);
      assert s[..|s| - 1] == NatToDigits(n / 10);
    }
  }

  /** `n.toString().toIntOrNull() == n` for every `Int`. */
  lemma ParseIntRoundTrip(n: int)
    requires IsInt32(n)
    ensures ParseInt(IntToString(n)) == Some(n)
  {
    var s := IntToString(n);
    if n < 0 {
      var d := NatToDigits(-n);
      DigitsRoundTrip(-n);
      assert s == "-" + d && s[0] == '-' && s[1..] == d;
    } else {
      var d := NatToDigits(n);
      DigitsRoundTrip(n);
      assert s == d && IsDigit(s[0]);
    }
  }

  /** The value of a run of digits read as a decimal fraction. */
  function FractionValue(s: string): real
    requires AllDigits(s)
  {
    if s == [] then 0.0 else ((s[0] as int - '0' as int) as real + FractionValue(s[1..])) / 10.0
  }

  /** Java's `String.trim()`, which `parseDouble` applies: it drops characters up to U+0020. */
  function TrimControl(s: string): (r: string)
    decreases |s|
  {
    if s != [] && s[0] <= ' ' then TrimControl(s[1..])
    else if s != [] && s[|s| - 1] <= ' ' then TrimControl(s[..|s| - 1])
    else s
  }

  /** An unsigned decimal `ddd`, `ddd.`, `ddd.ddd` or `.ddd`. */
  function ParseUnsignedDecimal(s: string): Option<real>
  {
    var cut := IndexOf(s, ".");
    var whole := if cut.Some? then s[..cut.value] else s;
    var frac := if cut.Some? then s[cut.value + 1..] else [];
    if (whole == [] && frac == []) || !AllDigits(whole) || !AllDigits(frac) then None
    else Some(DigitsValue(whole) as real + FractionValue(frac))
  }

  /**
   * Kotlin's `toDouble()` / `toDoubleOrNull()` for plain decimals with an
   * optional sign; surrounding characters up to U+0020 are ignored as
   * Java's `parseDouble` does.
   */
  function ParseDouble(s: string): Option<real>
  {
    var t := TrimControl(s);
    var neg := |t| > 0 && t[0] == '-';
    var body := if |t| > 0 && (t[0] == '-' || t[0] == '+') then t[1..] else t;
    match ParseUnsignedDecimal(body)
    case None => None
    case Some(v) => Some(if neg then -v else v)
  }

  /** Every `Int` rendered by `toString()` reads back as the same `Double`. */
  lemma ParseDoubleOfInt(n: int)
    ensures ParseDouble(IntToString(n)) == Some(n as real)
  {
    var s := IntToString(n);
    var body := if n < 0 then NatToDigits(-n) else NatToDigits(n);
    assert TrimControl(s) == s by {
      assert s[0] == '-' || IsDigit(s[0]);
      assert IsDigit(s[|s| - 1]);
    }
    if n < 0 {
      assert s[1..] == body;
      DigitsRoundTrip(-n);
    } else {
      DigitsRoundTrip(n);
    }
    assert IndexOf(body, ".") == None by {
      IndexOfFree(body, ".");
    }
  }

  /** Kotlin's `String.toBoolean()`: `"true"` in any case. */
  predicate ToBoolean(s: string) {
    EqualsIgnoreCase(s, "true")
  }

  /** Kotlin's `substringAfterLast(c)`: the whole string when `c` is absent. */
  function SubstringAfterLast(s: string, c: char): (r: string)
    ensures |r| <= |s| && r == s[|s| - |r|..]
    ensures !HasChar(r, c)
    ensures |r| < |s| ==> s[|s| - |r| - 1] == c
  {
    if s == [] then []
    else if s[|s| - 1] == c then []
    else
      var init := s[..|s| - 1];
      var r := SubstringAfterLast(init, c);
      assert s == init + [s[|s| - 1]];
      assert !HasChar([s[|s| - 1]], c);
      if |r| == |s| - 1 then
        assert r == init;
        HasCharAppend(init, [s[|s| - 1]], c);
        s
      else
        HasCharAppend(r, [s[|s| - 1]], c);
        assert r + [s[|s| - 1]] == s[|s| - |r| - 1..];
        r + [s[|s| - 1]]
  }
}
