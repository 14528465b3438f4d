/**
 * The parts of `manager/ConfigManager.kt` the core relies on: the per-type
 * configuration keys (`spawner/normal_config.yml`, `premium_config.yml`),
 * colour-code expansion, message lookup with placeholder substitution, and
 * the spawner custom-name fallback chain. A configuration file is given as
 * a value; a key the file does not hold is `None`.
 */
module Configs {
  import opened Common
  import opened Text

  /** The keys of a per-type configuration file that the core reads. */
  datatype TypeConfig = TypeConfig(
    defaultDelay: Option<int>,           // spawning.default_delay
    defaultCount: Option<int>,           // spawning.default_count
    defaultMaxNearby: Option<int>,       // spawning.default_max_nearby
    defaultRange: Option<int>,           // spawning.default_range
    storageDefaultMax: Option<int>,      // storage.default_max
    spawningDefaultStorage: Option<int>, // spawning.default_storage
    storageEnabled: Option<bool>,        // storage.enabled
    limitsBase: Option<int>,             // <TYPE>.limits.base
    maxPurchasable: Option<int>,         // economy.max_purchasable
    basePrice: Option<real>,             // <TYPE>.economy.base_price
    priceMode: Option<string>,           // <TYPE>.economy.price_mode
    priceMultiplier: Option<real>)       // <TYPE>.economy.price_multiplier

  // ---------------------------------------------------------------------
  // Colour codes
  // ---------------------------------------------------------------------

  predicate IsHexDigit(c: char) {
    ('0' <= c <= '9') || ('a' <= c <= 'f') || ('A' <= c <= 'F')
  }

  /** The pattern `\{#([A-Fa-f0-9]{6})\}` matches at position `i` of `s`. */
  predicate HexTokenAt(s: string, i: int) {
    0 <= i && i + 9 <= |s| && s[i] == '{' && s[i + 1] == '#' && s[i + 8] == '}'
    && forall k :: i + 2 <= k < i + 8 ==> IsHexDigit(s[k])
  }

  /** `§` before every character of `h`. */
  function SectionEach(h: string): (r: string)
    ensures |r| == 2 * |h|
    ensures forall k :: 0 <= k < |r| ==> r[k] == if k % 2 == 0 then '\U{00A7}' else h[k / 2]
  {
    if h == [] then [] else ['§', h[0]] + SectionEach(h[1..])
  }

  /** The replacement of one hex token with the six digits `h`. */
  function HexReplacement(h: string): string {
    "§x" + SectionEach(h)
  }

  /**
   * The hex pass of `colorize`: scanning left to right, each match of the
   * hex pattern is replaced and every other character is copied.
   */
  function HexPass(s: string): string
    decreases |s|
  {
    if s == [] then []
    else if HexTokenAt(s, 0) then HexReplacement(s[2..8]) + HexPass(s[9..])
    else [s[0]] + HexPass(s[1..])
  }

  /** What `colorize(text)` gives for a non-null `text`. */
  function Colorized(s: string): string {
    ReplaceChar(HexPass(s), '&', '§')
  }

  /** `Matcher.find()` from position `from`: the first match at or after it. */
  function FindHex(s: string, from: nat): (r: Option<nat>)
    ensures r.Some? ==> from <= r.value && HexTokenAt(s, r.value)
    decreases |s| - from
  {
    if from + 9 > |s| then None
    else if HexTokenAt(s, from) then Some(from)
    else FindHex(s, from + 1)
  }

  /** `FindHex` finds the first match: none lies before it, and `None` means none at all. */
  lemma {:induction false} FindHexSpec(s: string, from: nat)
    ensures FindHex(s, from).Some? ==> forall j :: from <= j < FindHex(s, from).value ==> !HexTokenAt(s, j)
    ensures FindHex(s, from).None? ==> forall j :: from <= j ==> !HexTokenAt(s, j)
    decreases |s| - from
  {
    if from + 9 <= |s| && !HexTokenAt(s, from) {
      FindHexSpec(s, from + 1);
    }
  }

  lemma TokenShift(s: string, p: nat, k: nat)
    requires p <= |s|
    ensures HexTokenAt(s[p..], k) <==> HexTokenAt(s, p + k)
  {
    if HexTokenAt(s, p + k) {
      assert forall m :: k + 2 <= m < k + 8 ==> s[p..][m] == s[p + m];
    }
  }

  /** A stretch with no match in it is copied verbatim by the hex pass. */
  lemma {:induction false} LiteralRun(s: string, pos: nat, i: nat)
    requires pos <= i <= |s|
    requires forall j :: pos <= j < i ==> !HexTokenAt(s, j)
    ensures HexPass(s[pos..]) == s[pos..i] + HexPass(s[i..])
    decreases i - pos
  {
    if pos < i {
      TokenShift(s, pos, 0);
      assert s[pos..][1..] == s[pos + 1..];
      LiteralRun(s, pos + 1, i);
      assert s[pos..i] == [s[pos]] + s[pos + 1..i];
    }
  }

  /** A match at `i` is replaced by the hex pass. */
  lemma TokenStep(s: string, i: nat)
    requires HexTokenAt(s, i)
    ensures HexPass(s[i..]) == HexReplacement(s[i + 2..i + 8]) + HexPass(s[i + 9..])
  {
    TokenShift(s, i, 0);
    assert s[i..][2..8] == s[i + 2..i + 8];
    assert s[i..][9..] == s[i + 9..];
  }

  /** One round of the match loop: the literal stretch up to a match, then its replacement. */
  lemma CopyThenReplace(s: string, pos: nat, i: nat)
    requires pos <= i && FindHex(s, pos) == Some(i)
    ensures HexPass(s[pos..]) == (s[pos..i] + HexReplacement(s[i + 2..i + 8])) + HexPass(s[i + 9..])
  {
    FindHexSpec(s, pos);
    LiteralRun(s, pos, i);
    TokenStep(s, i);
  }

  /** With no match left, the rest of the text is copied verbatim. */
  lemma CopyRest(s: string, pos: nat)
    requires pos <= |s| && FindHex(s, pos).None?
    ensures HexPass(s[pos..]) == s[pos..]
  {
    FindHexSpec(s, pos);
    LiteralRun(s, pos, |s|);
    assert s[|s|..] == [];
  }

  /**
   * `colorize(text)`: the hex tokens are expanded, and then every `&`
   * becomes `§`. A null text gives the empty string.
   */
  method Colorize(text: Option<string>) returns (r: string)
    ensures text.None? ==> r == ""
    ensures text.Some? ==> r == Colorized(text.value)
    ensures forall k :: 0 <= k < |r| ==> r[k] != '&'
  {
    if text.None? {
      return "";
    }
    var buffer := ExpandHex(text.value);
    r := ReplaceChar(buffer, '&', '§');
  }

  /**
   * The hex stage of `colorize`: one `find` / `appendReplacement` loop over
   * the matches, then `appendTail`.
   */
  method ExpandHex(s: string) returns (buffer: string)
    ensures buffer == HexPass(s)
  {
    buffer := "";
    var pos := 0;
    var m := FindHex(s, 0);
    while m.Some?
      invariant pos <= |s|
      invariant m == FindHex(s, pos)
      invariant buffer + HexPass(s[pos..]) == HexPass(s)
      decreases |s| - pos
    {
      var i := m.value;
      var rep := HexReplacement(s[i + 2..i + 8]);
      CopyThenReplace(s, pos, i);
      buffer := buffer + (s[pos..i] + rep);
      pos := i + 9;
      m := FindHex(s, pos);
    }
    CopyRest(s, pos);
    buffer := buffer + s[pos..];
  }

  /** Text with no `{` passes the hex stage unchanged. */
  lemma {:induction false} HexPassPlain(s: string)
    requires !HasChar(s, '{')
    ensures HexPass(s) == s
  {
    if s != [] {
      assert !HasChar(s[1..], '{') by {
        forall k | 0 <= k < |s[1..]| ensures s[1..][k] != '{' { assert s[1..][k] == s[k + 1]; }
      }
      HexPassPlain(s[1..]);
    }
  }

  /** The hex stage brings in no character other than `§`, `x` and those of its input. */
  lemma {:induction false} HexPassKeepsFree(s: string, c: char)
    requires c != '§' && c != 'x' && !HasChar(s, c)
    ensures !HasChar(HexPass(s), c)
    decreases |s|
  {
    if s != [] {
      if HexTokenAt(s, 0) {
        assert !HasChar(s[9..], c) by {
          forall k | 0 <= k < |s[9..]| ensures s[9..][k] != c { assert s[9..][k] == s[k + 9]; }
        }
        HexPassKeepsFree(s[9..], c);
        assert !HasChar(SectionEach(s[2..8]), c) by { SectionEachFree(s[2..8], c); }
        HasCharAppend("§x", SectionEach(s[2..8]), c);
        HasCharAppend(HexReplacement(s[2..8]), HexPass(s[9..]), c);
      } else {
        assert !HasChar(s[1..], c) by {
          forall k | 0 <= k < |s[1..]| ensures s[1..][k] != c { assert s[1..][k] == s[k + 1]; }
        }
        HexPassKeepsFree(s[1..], c);
        HasCharAppend([s[0]], HexPass(s[1..]), c);
      }
    }
  }

  lemma {:induction false} SectionEachFree(h: string, c: char)
    requires c != '§' && !HasChar(h, c)
    ensures !HasChar(SectionEach(h), c)
  {
    if h != [] {
      assert !HasChar(h[1..], c) by {
        forall k | 0 <= k < |h[1..]| ensures h[1..][k] != c { assert h[1..][k] == h[k + 1]; }
      }
      SectionEachFree(h[1..], c);
      HasCharAppend(['§', h[0]], SectionEach(h[1..]), c);
    }
  }

  /** Text with no `&` is only touched by the hex stage. */
  lemma ColorizedWithoutAmpersand(s: string)
    requires !HasChar(s, '&')
    ensures Colorized(s) == HexPass(s)
  {
    HexPassKeepsFree(s, '&');
  }

  /** Each `{#RRGGBB}` becomes `§x§R§R§G§G§B§B`. */
  lemma HexPassToken(h: string, rest: string)
    requires |h| == 6 && forall k :: 0 <= k < 6 ==> IsHexDigit(h[k])
    ensures HexPass("{#" + h + "}" + rest) == HexReplacement(h) + HexPass(rest)
  {
    var s := "{#" + h + "}" + rest;
    assert forall k :: 2 <= k < 8 ==> s[k] == h[k - 2];
    assert HexTokenAt(s, 0);
    assert s[2..8] == h;
    assert s[9..] == rest;
  }

  /** A colour token followed by plain text: the token expands and the text is kept. */
  lemma ColorizedToken(h: string, tail: string)
    requires |h| == 6 && forall k :: 0 <= k < 6 ==> IsHexDigit(h[k])
    requires !HasChar(tail, '{') && !HasChar(tail, '&')
    ensures Colorized("{#" + h + "}" + tail) == HexReplacement(h) + tail
  {
    var s := "{#" + h + "}" + tail;
    HexPassToken(h, tail);
    HexPassPlain(tail);
    assert !HasChar(s, '&') by {
      forall k | 0 <= k < |s| ensures s[k] != '&' {
        if k >= 9 {
          assert s[k] == tail[k - 9];
        } else if 2 <= k < 8 {
          assert s[k] == h[k - 2];
        }
      }
    }
    ColorizedWithoutAmpersand(s);
  }

  // ---------------------------------------------------------------------
  // Messages
  // ---------------------------------------------------------------------

  /** `messages.yml`: its string entries by path. */
  type MessageFile = map<string, string>

  /** `messages.getString("prefix", "")`. */
  function PrefixOf(m: MessageFile): string {
    if "prefix" in m then m["prefix"] else ""
  }

  /** `messages.getString(path, path)`. */
  function MessageAt(m: MessageFile, path: string): string {
    if path in m then m[path] else path
  }

  /** The message after replacing each placeholder key by its value, in map order. */
  function Substitute(msg: string, placeholders: seq<(string, string)>): string {
    if placeholders == [] then msg
    else
      var last := placeholders[|placeholders| - 1];
      ReplaceAll(Substitute(msg, placeholders[..|placeholders| - 1]), last.0, last.1)
  }

  /**
   * `getMessage(path)` and `getMessage(path, placeholders)`: the path itself
   * when no messages file is loaded; otherwise the prefix followed by the
   * message with every placeholder replaced, colourised.
   */
  method GetMessage(messages: Option<MessageFile>, path: string,
                    placeholders: Option<seq<(string, string)>>) returns (r: string)
    ensures messages.None? ==> r == path
    ensures messages.Some? ==>
      r == Colorized(PrefixOf(messages.value) + Substitute(MessageAt(messages.value, path), placeholders.GetOr([])))
  {
    if messages.None? {
      return path;
    }
    var file := messages.value;
    var prefix := PrefixOf(file);
    var message := MessageAt(file, path);
    var ph := placeholders.GetOr([]);
    for i := 0 to |ph|
      invariant message == Substitute(MessageAt(file, path), ph[..i])
    {
      assert ph[..i + 1][..i] == ph[..i];
      message := ReplaceAll(message, ph[i].0, ph[i].1);
    }
    assert ph[..|ph|] == ph;
    r := Colorize(Some(prefix + message));
  }

  /**
   * A placeholder that occurs once in a template is replaced by its value
   * and the text around it is left as it was.
   */
  lemma SubstituteOnePlaceholder(a: string, key: string, b: string, value: string)
    requires |key| > 0 && !HasChar(a, key[0]) && !Contains(b, key)
    ensures Substitute(a + key + b, [(key, value)]) == a + value + b
  {
    assert [(key, value)][..0] == [];
    assert a + key + b == a + (key + b);
    ReplaceAllSkip(a, key + b, key, value);
    ReplaceAllAtStart(key, b, value);
    ReplaceAllAbsent(b, key, value);
  }

  // ---------------------------------------------------------------------
  // Spawner custom names
  // ---------------------------------------------------------------------

  const DEFAULT_NAME_FORMAT: string := "{#FFD700}%type% 刷怪笼"

  /** The `spawner_names` section of `config.yml`. */
  datatype NameConfig = NameConfig(
    enabled: bool,                                // spawner_names.enabled (default false)
    customNames: map<(string, string), string>,   // types.<type>.custom_names.<entity>
    entityFormats: map<string, string>,           // types.<type>.default_entity_format
    displayNames: map<string, string>,            // types.<type>.display_name
    defaultFormat: Option<string>)                // spawner_names.default_format

  /**
   * The uncoloured name `getSpawnerCustomName` chooses: none when disabled,
   * else a non-empty custom name, else a non-empty per-type entity format
   * with `%entity%` filled in, else the global format with `%type%` and
   * `%entity%` filled in.
   */
  function NameTemplate(c: NameConfig, spawnerType: string, entityType: string): Option<string> {
    if !c.enabled then None
    else if (spawnerType, entityType) in c.customNames && c.customNames[(spawnerType, entityType)] != "" then
      Some(c.customNames[(spawnerType, entityType)])
    else if spawnerType in c.entityFormats && c.entityFormats[spawnerType] != "" then
      Some(ReplaceAll(c.entityFormats[spawnerType], "%entity%", entityType))
    else
      var typeName := if spawnerType in c.displayNames then c.displayNames[spawnerType] else spawnerType;
      Some(ReplaceAll(ReplaceAll(c.defaultFormat.GetOr(DEFAULT_NAME_FORMAT), "%type%", typeName), "%entity%", entityType))
  }

  /** An enabled section always yields a name; a disabled one never does. */
  lemma NameTemplateNoneIffDisabled(c: NameConfig, spawnerType: string, entityType: string)
    ensures NameTemplate(c, spawnerType, entityType).None? <==> !c.enabled
  {
  }

  /** `getSpawnerCustomName(spawnerType, entityType)`: the chosen name, colourised. */
  method GetSpawnerCustomName(c: NameConfig, spawnerType: string, entityType: string) returns (r: Option<string>)
    ensures r.None? <==> !c.enabled
    ensures r.Some? ==> r.value == Colorized(NameTemplate(c, spawnerType, entityType).value)
  {
    var t := NameTemplate(c, spawnerType, entityType);
    if t.None? {
      return None;
    }
    var name := Colorize(Some(t.value));
    r := Some(name);
  }

  lemma FormatPieces()
    ensures DEFAULT_NAME_FORMAT == "{#FFD700}" + ("%type%" + " 刷怪笼")
  {
  }

  lemma NormalNamePieces()
    ensures "{#FFD700}normal 刷怪笼" == "{#FFD700}" + ("normal" + " 刷怪笼")
  {
  }

  lemma NormalNameToken()
    ensures "{#FFD700}normal 刷怪笼" == "{#" + "FFD700" + "}" + "normal 刷怪笼"
  {
  }


  lemma NormalNameHasNoPercent()
    ensures !HasChar("{#FFD700}normal 刷怪笼", "%entity%"[0])
  {
    NormalNamePieces();
    HasCharAppend("{#FFD700}", "normal" + " 刷怪笼", '%');
    HasCharAppend("normal", " 刷怪笼", '%');
  }

  /**
   * With the section enabled and nothing else configured, a `normal`
   * spawner is named after its type under the global format.
   */
  lemma DefaultNameOfNormal(entityType: string)
    ensures NameTemplate(NameConfig(true, map[], map[], map[], None), "normal", entityType)
            == Some("{#FFD700}normal 刷怪笼")
  {
    var a := "{#FFD700}";
    var b := " 刷怪笼";
    FormatPieces();
    assert !HasChar(a, '%');
    assert !Contains(b, "%type%") by { assert !HasChar(b, '%'); IndexOfFree(b, "%type%"); }
    ReplaceAllSkip(a, "%type%" + b, "%type%", "normal");
    ReplaceAllAtStart("%type%", b, "normal");
    ReplaceAllAbsent(b, "%type%", "normal");
    var n := a + ("normal" + b);
    NormalNamePieces();
    NormalNameHasNoPercent();
    IndexOfFree(n, "%entity%");
    ReplaceAllAbsent(n, "%entity%", entityType);
  }

  lemma NormalTailIsPlain()
    ensures !HasChar("normal 刷怪笼", '{') && !HasChar("normal 刷怪笼", '&')
  {
    assert "normal 刷怪笼" == "normal" + " 刷怪笼";
    HasCharAppend("normal", " 刷怪笼", '{');
    HasCharAppend("normal", " 刷怪笼", '&');
  }

  /** The default format's gold colour expands to the section-sign form. */
  lemma DefaultNameColour()
    ensures Colorized("{#FFD700}normal 刷怪笼") == HexReplacement("FFD700") + "normal 刷怪笼"
  {
    NormalNameToken();
    NormalTailIsPlain();
    ColorizedToken("FFD700", "normal 刷怪笼");
  }
}
