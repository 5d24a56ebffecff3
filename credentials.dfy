/**
 * Credential handling of credentialsManager.js: the parser that `importCredentials`
 * runs over the text of a `.env`-style file, the four secrets in the editor's
 * secret store, and the commands that save and delete them.
 */
module Credentials {
  import opened Wrappers
  import opened Text
  import I18n

  /** The four canonical credential slots. */
  datatype Slot = ApiKey | ApiSecret | AccessToken | AccessSecret

  /** The order in which missing slots are reported. */
  function Ordinal(s: Slot): nat {
    match s
    case ApiKey => 0
    case ApiSecret => 1
    case AccessToken => 2
    case AccessSecret => 3
  }

  /** The name under which a missing slot is reported. */
  function SlotName(s: Slot): string {
    match s
    case ApiKey => "API_KEY"
    case ApiSecret => "API_SECRET"
    case AccessToken => "ACCESS_TOKEN"
    case AccessSecret => "ACCESS_SECRET"
  }

  /** `SECRET_KEYS`: the secret-store key of each slot. */
  function SecretKey(s: Slot): string {
    match s
    case ApiKey => "twitter.apiKey"
    case ApiSecret => "twitter.apiSecret"
    case AccessToken => "twitter.accessToken"
    case AccessSecret => "twitter.accessSecret"
  }

  /** The four secret-store keys are distinct, so storing one slot never overwrites another. */
  lemma SecretKeysDistinct(a: Slot, b: Slot)
    requires SecretKey(a) == SecretKey(b)
    ensures a == b
  {
  }

  /**
   * `keyMap`: the fifteen accepted variable names and the slot each fills.
   * The cleaned key is upper case, so none of the lower-case properties every
   * JavaScript object inherits (`constructor`, `toString`, ...) can be hit.
   */
  function KeyMap(name: string): Option<Slot> {
    match name
    case "API_KEY" => Some(ApiKey)
    case "CONSUMER_KEY" => Some(ApiKey)
    case "TWITTER_API_KEY" => Some(ApiKey)
    case "X_API_KEY" => Some(ApiKey)
    case "API_SECRET" => Some(ApiSecret)
    case "CONSUMER_SECRET" => Some(ApiSecret)
    case "TWITTER_API_SECRET" => Some(ApiSecret)
    case "X_API_SECRET" => Some(ApiSecret)
    case "ACCESS_TOKEN" => Some(AccessToken)
    case "TWITTER_ACCESS_TOKEN" => Some(AccessToken)
    case "X_ACCESS_TOKEN" => Some(AccessToken)
    case "ACCESS_SECRET" => Some(AccessSecret)
    case "ACCESS_TOKEN_SECRET" => Some(AccessSecret)
    case "TWITTER_ACCESS_SECRET" => Some(AccessSecret)
    case "X_ACCESS_SECRET" => Some(AccessSecret)
    case _ => None
  }

  /** Every slot is reachable under the name it is reported by when missing. */
  lemma CanonicalNamesMapped(s: Slot)
    ensures KeyMap(SlotName(s)) == Some(s)
  {
  }

  // ---------------------------------------------------------------------
  // The line pattern  ^([^=:]+)[=:]\s*["']?([^"']+)["']?$
  // ---------------------------------------------------------------------

  predicate IsQuote(c: char) {
    c == '"' || c == '\''
  }

  predicate IsSeparator(c: char) {
    c == '=' || c == ':'
  }

  predicate QuoteFree(s: string) {
    '"' !in s && '\'' !in s
  }

  /** `s` is `v`, then at most one quote, then the end: what `([^"']+)["']?$` matches, with `v` captured. */
  predicate TailShape(s: string, v: string) {
    && v != [] && QuoteFree(v)
    && |v| <= |s| && s[..|v|] == v
    && |s| - |v| <= 1
    && (|s| > |v| ==> IsQuote(s[|v|]))
  }

  /** `s` is an optional quote followed by a tail shape: what `["']?([^"']+)["']?$` matches. */
  predicate BodyShape(s: string, v: string) {
    TailShape(s, v) || (s != [] && IsQuote(s[0]) && TailShape(s[1..], v))
  }

  /** The text after the separator matches `\s*["']?([^"']+)["']?$` with `v` captured. */
  ghost predicate ValueShape(r: string, v: string) {
    exists k :: 0 <= k <= |r| && AllWhitespace(r[..k]) && BodyShape(r[k..], v)
  }

  /** The longest run of non-quote characters at the start of `s`: the first length `[^"']+` tries. */
  function QuoteFreeRun(s: string): (n: nat)
    ensures n <= |s| && QuoteFree(s[..n])
    ensures n < |s| ==> IsQuote(s[n])
  {
    if s == [] || IsQuote(s[0]) then 0
    else
      var n := 1 + QuoteFreeRun(s[1..]);
      assert s[..n] == [s[0]] + s[1..][..n - 1];
      n
  }

  /**
   * `([^"']+)["']?$` on `s`, trying the capture lengths `n`, `n - 1`, ..., 1 in
   * turn. Giving back characters never helps: the character given back is not
   * a quote, so the optional quote cannot take it and the end is not reached.
   */
  function CaptureFrom(s: string, n: nat): (m: Option<string>)
    requires n <= QuoteFreeRun(s)
    ensures m.Some? <==> n >= 1 && (n == |s| || (n + 1 == |s| && IsQuote(s[n])))
    ensures m.Some? ==> m.value == s[..n]
    decreases n
  {
    if n == 0 then None
    else if n == |s| || (n + 1 == |s| && IsQuote(s[n])) then Some(s[..n])
    else CaptureFrom(s, n - 1)
  }

  /** `([^"']+)["']?$` anchored at the start of `s`. */
  function Capture(s: string): (m: Option<string>)
    ensures m.Some? ==> TailShape(s, m.value)
    ensures forall v :: TailShape(s, v) ==> m == Some(v)
  {
    var n := QuoteFreeRun(s);
    var m := CaptureFrom(s, n);
    assert forall v :: TailShape(s, v) ==> |v| == n && v == s[..n] by {
      forall v | TailShape(s, v)
        ensures |v| == n
      {

      }
    }
    m
  }

  /** `["']?([^"']+)["']?$`: an opening quote is taken when there is one. */
  function QuotedCapture(s: string): (m: Option<string>)
    ensures m.Some? ==> BodyShape(s, m.value) && m.value != [] && QuoteFree(m.value)
    ensures (exists v :: BodyShape(s, v)) ==> m.Some?
  {
    if s != [] && IsQuote(s[0]) && Capture(s[1..]).Some? then Capture(s[1..])
    else
      assert s != [] && IsQuote(s[0]) ==> forall v :: !TailShape(s, v);
      Capture(s)
  }

  /** `\s*` followed by the rest, trying `k`, `k - 1`, ..., 0 leading white-space characters. */
  function SpacedCaptureFrom(r: string, k: nat): (m: Option<string>)
    requires k <= |r| && AllWhitespace(r[..k])
    ensures m.Some? ==> ValueShape(r, m.value) && m.value != [] && QuoteFree(m.value)
    ensures (exists j, v :: 0 <= j <= k && BodyShape(r[j..], v)) ==> m.Some?
    decreases k
  {
    var m := QuotedCapture(r[k..]);
    if m.Some? then m
    else if k == 0 then None
    else
      assert AllWhitespace(r[..k - 1]) by { assert forall i :: 0 <= i < k - 1 ==> r[..k - 1][i] == r[..k][i]; }
      SpacedCaptureFrom(r, k - 1)
  }

  /** Where a body shape puts its capture: after `o` opening quotes, up to the end or a final quote. */
  lemma BodyOffset(r: string, k: nat, v: string) returns (o: nat)
    requires k <= |r| && BodyShape(r[k..], v)
    ensures o <= 1 && k + o + |v| <= |r| && r[k + o..k + o + |v|] == v
    ensures o == 1 ==> IsQuote(r[k])
    ensures k + o + |v| == |r| || (k + o + |v| + 1 == |r| && IsQuote(r[|r| - 1]))
  {
    if TailShape(r[k..], v) {
      o := 0;
      assert r[k..][..|v|] == r[k..k + |v|];
    } else {
      o := 1;
      assert r[k..][1..] == r[k + 1..];
      assert r[k + 1..][..|v|] == r[k + 1..k + 1 + |v|];
    }
  }

  /** Two matches of the value part that absorb the same white space capture the same text. */
  lemma SameStartAgrees(r: string, k: nat, v1: string, v2: string)
    requires k <= |r| && BodyShape(r[k..], v1) && BodyShape(r[k..], v2)
    ensures v1 == v2
  {
    var o1 := BodyOffset(r, k, v1);
    var o2 := BodyOffset(r, k, v2);
    assert v1[0] in v1 && v2[0] in v2;
    assert v1[|v1| - 1] in v1 && v2[|v2| - 1] in v2;
    assert v2[0] == r[k + o2] && v1[0] == r[k + o1];
    assert o1 == o2;
    assert v1[|v1| - 1] == r[k + o1 + |v1| - 1] && v2[|v2| - 1] == r[k + o2 + |v2| - 1];
    assert |v1| == |v2|;
  }

  /**
   * Of two matches of the value part, one absorbing less white space than the
   * other, the first captures that white space and then what the second captures.
   */
  lemma LaterStartAgrees(r: string, k1: nat, v1: string, k2: nat, v2: string)
    requires k1 < k2 <= |r| && AllWhitespace(r[..k2])
    requires BodyShape(r[k1..], v1) && BodyShape(r[k2..], v2)
    ensures v1 == r[k1..k2] + v2 && AllWhitespace(r[k1..k2])
  {
    var o1 := BodyOffset(r, k1, v1);
    var o2 := BodyOffset(r, k2, v2);
    assert v1[|v1| - 1] in v1 && v2[|v2| - 1] in v2;
    assert v1[|v1| - 1] == r[k1 + o1 + |v1| - 1] && v2[|v2| - 1] == r[k2 + o2 + |v2| - 1];
    assert r[..k2][k1] == r[k1];
    assert o1 == 0;
    assert k1 + |v1| == k2 + o2 + |v2|;
    assert v1[k2 - k1] == r[k2];
    assert v2[0] in v2;
    assert o2 == 0;
    assert AllWhitespace(r[k1..k2]) by {
      forall i | 0 <= i < k2 - k1 ensures IsWhitespace(r[k1..k2][i]) { assert r[k1..k2][i] == r[..k2][k1 + i]; }
    }
  }

  /** Two matches of the value part, the first absorbing no more white space than the second, capture the same trimmed text. */
  lemma ShapesAgree(r: string, k1: nat, v1: string, k2: nat, v2: string)
    requires k1 <= k2 <= |r| && AllWhitespace(r[..k2])
    requires BodyShape(r[k1..], v1) && BodyShape(r[k2..], v2)
    ensures Trim(v1) == Trim(v2)
  {
    if k1 == k2 {
      SameStartAgrees(r, k1, v1, v2);
    } else {
      LaterStartAgrees(r, k1, v1, k2, v2);
      TrimSkipsWhitespace(r[k1..k2], v2);
    }
  }

  /**
   * The pattern can match the value part in more than one way (how much white
   * space `\s*` takes, whether the opening quote is taken); every way captures
   * text that trims to the same value, so the order in which the regular
   * expression engine tries them cannot change what is stored.
   */
  lemma CaptureChoiceIrrelevant(r: string, v1: string, v2: string)
    requires ValueShape(r, v1) && ValueShape(r, v2)
    ensures Trim(v1) == Trim(v2)
  {
    var k1 :| 0 <= k1 <= |r| && AllWhitespace(r[..k1]) && BodyShape(r[k1..], v1);
    var k2 :| 0 <= k2 <= |r| && AllWhitespace(r[..k2]) && BodyShape(r[k2..], v2);
    if k1 <= k2 {
      ShapesAgree(r, k1, v1, k2, v2);
    } else {
      ShapesAgree(r, k2, v2, k1, v1);
    }
  }

  /** The number of leading white-space characters of `r`: the first count `\s*` tries. */
  function LeadingWhitespace(r: string): (k: nat)
    ensures k <= |r| && AllWhitespace(r[..k])
    ensures forall j :: k < j <= |r| ==> !AllWhitespace(r[..j])
  {
    var t := TrimStart(r);
    var k := |r| - |t|;
    assert forall j :: k < j <= |r| ==> r[..j][k] == t[0];
    k
  }

  /**
   * The second capture group of the line pattern, matched against the text
   * after the separator; `None` when the pattern fails there. It succeeds
   * exactly when the text has the value shape, and what it captures has it.
   */
  function ValueCapture(r: string): (m: Option<string>)
    ensures m.Some? ==> ValueShape(r, m.value) && m.value != [] && QuoteFree(m.value)
    ensures m.Some? <==> exists v :: ValueShape(r, v)
  {
    var k := LeadingWhitespace(r);
    assert forall j, v :: 0 <= j <= |r| && AllWhitespace(r[..j]) && BodyShape(r[j..], v) ==> j <= k;
    SpacedCaptureFrom(r, k)
  }

  /** The first separator (`=` or `:`) of `line`. */
  function SeparatorIndex(line: string): (r: Option<nat>)
    ensures r.Some? ==> r.value < |line| && IsSeparator(line[r.value])
    ensures forall i :: 0 <= i < |line| && (r.None? || i < r.value) ==> !IsSeparator(line[i])
  {
    if line == [] then None
    else if IsSeparator(line[0]) then Some(0)
    else match SeparatorIndex(line[1..])
      case None => None
      case Some(i) => Some(i + 1)
  }

  /**
   * `line.match(/^([^=:]+)[=:]\s*["']?([^"']+)["']?$/)` as its two capture
   * groups. The first group cannot give characters back (the character before
   * the cut would have to be a separator), so it is exactly the text before the
   * first separator, which must not be empty.
   */
  function MatchLine(line: string): (m: Option<(string, string)>)
    ensures m.Some? ==> m.value.0 != [] && SeparatorIndex(line) == Some(|m.value.0|)
    ensures m.Some? ==> m.value.0 == line[..|m.value.0|]
    ensures m.Some? ==> m.value.1 != [] && QuoteFree(m.value.1)
    ensures m.Some? <==>
      && SeparatorIndex(line).Some? && SeparatorIndex(line).value > 0
      && ValueCapture(line[SeparatorIndex(line).value + 1..]).Some?
  {
    match SeparatorIndex(line)
    case None => None
    case Some(i) =>
      if i == 0 then None
      else
        match ValueCapture(line[i + 1..])
        case None => None
        case Some(v) => Some((line[..i], v))
  }

  /** What a match captures as the value has the value shape in the text after the first separator. */
  lemma MatchedValueShape(line: string)
    requires MatchLine(line).Some?
    ensures var i := |MatchLine(line).value.0|;
      i < |line| && ValueShape(line[i + 1..], MatchLine(line).value.1)
  {
    var i := SeparatorIndex(line).value;
    assert ValueCapture(line[i + 1..]) == Some(MatchLine(line).value.1);
  }

  // ---------------------------------------------------------------------
  // One line of the import file
  // ---------------------------------------------------------------------

  /** `key.replace(/^EXPORT\s+/, '')`: a shell `export` prefix and the white space after it go. */
  function StripExport(key: string): (r: string)
    ensures |r| <= |key| && r == key[|key| - |r|..]
    ensures r != key <==> |key| > 6 && key[..6] == "EXPORT" && IsWhitespace(key[6])
    ensures r != key ==> |r| < |key| - 6 && AllWhitespace(key[6..|key| - |r|]) && (r == [] || !IsWhitespace(r[0]))
  {
    if |key| > 6 && key[..6] == "EXPORT" && IsWhitespace(key[6]) then
      var t := key[6..];
      var r := TrimStart(t);
      assert |r| < |t| by { assert t[0] == key[6]; }
      assert t[..|t| - |r|] == key[6..|key| - |r|];
      r
    else key
  }

  /** `value.replace(/["']$/, '')`: one trailing quote goes. */
  function StripTrailingQuote(value: string): (r: string)
    ensures QuoteFree(value) ==> r == value
  {
    if value != [] && IsQuote(value[|value| - 1]) then value[..|value| - 1] else value
  }

  /**
   * `match[2].trim()` followed by the trailing-quote clean-up. A capture of the
   * pattern holds no quote, so for it the clean-up changes nothing.
   */
  function CleanValue(rawValue: string): (v: string)
    ensures QuoteFree(rawValue) ==> v == Trim(rawValue) && QuoteFree(v)
  {
    var t := Trim(rawValue);
    assert QuoteFree(rawValue) ==> QuoteFree(t);
    StripTrailingQuote(t)
  }

  /** The key as `keyMap` is searched for it: trimmed, upper-cased, without an `export` prefix. */
  function CleanKey(rawKey: string): (r: string)
    ensures forall i :: 0 <= i < |r| ==> !IsLowerAscii(r[i])
  {
    var upper := ToUpper(Trim(rawKey));
    var r := StripExport(upper);
    NoLowerInSuffix(upper, |upper| - |r|);
    r
  }

  /** A suffix of a string without lower-case ASCII letters has none either. */
  lemma NoLowerInSuffix(s: string, k: nat)
    requires k <= |s| && forall i :: 0 <= i < |s| ==> !IsLowerAscii(s[i])
    ensures forall i :: 0 <= i < |s| - k ==> !IsLowerAscii(s[k..][i])
  {
    forall i | 0 <= i < |s| - k ensures !IsLowerAscii(s[k..][i]) {
      assert s[k..][i] == s[k + i];
    }
  }

  /** A recognised line: the slot it names and the value it carries. */
  datatype Assignment = Assignment(slot: Slot, value: string)

  /**
   * The body of the `lines.forEach` callback: blank lines and `#` comments are
   * skipped; a line of the pattern's shape whose cleaned key is in `keyMap`
   * assigns the trimmed capture to that key's slot; every other line is ignored.
   */
  function ParseLine(line: string): (a: Option<Assignment>)
    ensures a.Some? ==> QuoteFree(a.value.value) && IsTrimmed(a.value.value)
  {
    var trimmed := Trim(line);
    if trimmed == [] || trimmed[0] == '#' then None
    else match MatchLine(trimmed)
      case None => None
      case Some((rawKey, rawValue)) => Assign(rawKey, rawValue)
  }

  /** `if (keyMap[cleanKey]) config[keyMap[cleanKey]] = value;` for a matched key and value. */
  function Assign(rawKey: string, rawValue: string): (a: Option<Assignment>)
    ensures a.Some? <==> KeyMap(CleanKey(rawKey)).Some?
    ensures a.Some? ==> a.value.slot == KeyMap(CleanKey(rawKey)).value
    ensures a.Some? && QuoteFree(rawValue) ==> a.value.value == Trim(rawValue)
  {
    match KeyMap(CleanKey(rawKey))
    case None => None
    case Some(slot) => Some(Assignment(slot, CleanValue(rawValue)))
  }

  /** Blank lines and comment lines assign nothing. */
  lemma SkippedLines(line: string)
    requires Trim(line) == [] || Trim(line)[0] == '#'
    ensures ParseLine(line).None?
  {
  }

  /**
   * The stored value is the trimmed capture: the capture holds no quote, so
   * the trailing-quote clean-up never changes it.
   */
  lemma StoredValueIsTrimmedCapture(line: string)
    requires ParseLine(line).Some?
    ensures MatchLine(Trim(line)).Some?
    ensures ParseLine(line).value.value == Trim(MatchLine(Trim(line)).value.1)
  {
    var v := MatchLine(Trim(line)).value.1;
    assert QuoteFree(Trim(v));
  }

  /**
   * A trimmed line that is not a comment, that the pattern matches, and whose
   * cleaned key is an alias assigns the capture, once trimmed, to the alias's slot.
   */
  lemma MatchedLineAssigns(line: string, key: string, value: string)
    requires line != [] && line[0] != '#' && IsTrimmed(line)
    requires MatchLine(line) == Some((key, value)) && KeyMap(CleanKey(key)).Some? && IsTrimmed(value)
    ensures ParseLine(line) == Some(Assignment(KeyMap(CleanKey(key)).value, value))
  {
    MatchedLineParses(line, key, value);
    AssignsCapture(key, value);
  }

  /** An alias with a trimmed, quote-free capture assigns the capture as it is. */
  lemma AssignsCapture(key: string, value: string)
    requires KeyMap(CleanKey(key)).Some? && QuoteFree(value) && IsTrimmed(value)
    ensures Assign(key, value) == Some(Assignment(KeyMap(CleanKey(key)).value, value))
  {
    TrimOfTrimmed(value);
  }

  /** A trimmed line that is not a comment and that the pattern matches is handed on to the key lookup. */
  lemma MatchedLineParses(line: string, key: string, value: string)
    requires line != [] && line[0] != '#' && IsTrimmed(line)
    requires MatchLine(line) == Some((key, value))
    ensures ParseLine(line) == Assign(key, value)
  {
    TrimOfTrimmed(line);
  }

  /** A variable name `ParseLine` takes as it is: no white space, separator or lower-case letter, no `export` prefix. */
  predicate IsPlainKey(name: string) {
    && name != [] && name[0] != '#'
    && (forall i :: 0 <= i < |name| ==> !IsWhitespace(name[i]) && !IsSeparator(name[i]) && !IsLowerAscii(name[i]))
    && !(|name| > 6 && name[..6] == "EXPORT")
  }

  /** A value that survives a `NAME=value` line unchanged: non-empty, trimmed, without quotes or line feeds. */
  predicate IsPlainValue(v: string) {
    v != [] && QuoteFree(v) && IsTrimmed(v) && '\n' !in v
  }

  /** The name each slot is reported under is a plain key. */
  lemma SlotNamesArePlain(s: Slot)
    ensures IsPlainKey(SlotName(s))
  {
    var name := SlotName(s);
    forall i | 0 <= i < |name|
      ensures !IsWhitespace(name[i]) && !IsSeparator(name[i]) && !IsLowerAscii(name[i])
    {
      assert name[i] in "APIKEYSCRTOWN_";
    }
  }

  /**
   * A spelling of a plain name in any ASCII case has the name's shape: no
   * white space, no separator, no leading `#`.
   */
  lemma SpellingFacts(raw: string, name: string)
    requires IsPlainKey(name) && ToUpper(raw) == name
    ensures raw != [] && raw[0] != '#' && IsTrimmed(raw)
    ensures forall i :: 0 <= i < |raw| ==> !IsWhitespace(raw[i]) && !IsSeparator(raw[i])
  {
    forall i | 0 <= i < |raw| ensures !IsWhitespace(raw[i]) && !IsSeparator(raw[i]) && (i == 0 ==> raw[i] != '#') {
      assert ToUpper(raw)[i] == name[i];
    }
  }

  /** A key written in any ASCII case is cleaned to its upper-case plain name. */
  lemma CleanKeyOfSpelling(raw: string, name: string)
    requires IsPlainKey(name) && ToUpper(raw) == name
    ensures CleanKey(raw) == name
  {
    SpellingFacts(raw, name);
    TrimOfTrimmed(raw);
  }

  /** White space between a key and its separator makes no difference to the cleaned key. */
  lemma CleanKeyIgnoresTrailingSpace(key: string, w: string)
    requires AllWhitespace(w)
    ensures CleanKey(key + w) == CleanKey(key)
  {
    TrimSkipsTrailingWhitespace(key, w);
  }

  /** After the separator, white space followed by a plain value captures the value alone. */
  lemma SpacedValueCaptured(w: string, v: string)
    requires AllWhitespace(w) && IsPlainValue(v)
    ensures ValueCapture(w + v) == Some(v)
  {
    var r := w + v;
    assert r[..|w|] == w && r[|w|..] == v;
    assert r[..|w| + 1][|w|] == v[0];
    assert LeadingWhitespace(r) == |w|;
    assert v[0] in v;
    assert TailShape(v, v) && v[..|v|] == v;
    assert Capture(v) == Some(v);
  }

  /** A key without separators followed by a separator: the first separator is the one after the key. */
  lemma PlainSeparator(key: string, sep: char, rest: string)
    requires IsSeparator(sep) && forall i :: 0 <= i < |key| ==> !IsSeparator(key[i])
    ensures SeparatorIndex(key + [sep] + rest) == Some(|key|)
  {
    var line := key + [sep] + rest;
    assert IsSeparator(line[|key|]);
    assert forall i :: 0 <= i < |key| ==> line[i] == key[i];
  }

  /**
   * The pattern splits `name = value` or `name: value` (the name in any
   * ASCII case, any white space on either side of the separator) at that
   * separator; the key keeps the white space before it, the value does not.
   */
  lemma PlainLineMatched(raw: string, name: string, w1: string, sep: char, w2: string, v: string)
    requires IsPlainKey(name) && ToUpper(raw) == name && AllWhitespace(w1)
    requires IsSeparator(sep) && AllWhitespace(w2) && IsPlainValue(v)
    ensures MatchLine(raw + w1 + [sep] + w2 + v) == Some((raw + w1, v))
  {
    var key := raw + w1;
    assert raw + w1 + [sep] + w2 + v == key + [sep] + (w2 + v);
    SpellingFacts(raw, name);
    assert forall i :: 0 <= i < |key| ==> !IsSeparator(key[i]) by {
      forall i | 0 <= i < |key| ensures !IsSeparator(key[i]) {
        if i < |raw| { assert key[i] == raw[i]; } else { assert key[i] == w1[i - |raw|]; }
      }
    }
    PlainSeparator(key, sep, w2 + v);
    SpacedValueCaptured(w2, v);
    SeparatedLineMatched(key, sep, w2 + v, v);
  }

  /**
   * A line `name = value` or `name: value` (either separator, the name in any
   * ASCII case, any white space around the separator) with an accepted name
   * and a plain value assigns exactly that value to the name's slot.
   */
  lemma PlainLineAssigns(raw: string, name: string, w1: string, sep: char, w2: string, v: string)
    requires IsPlainKey(name) && ToUpper(raw) == name && AllWhitespace(w1) && KeyMap(name).Some?
    requires IsSeparator(sep) && AllWhitespace(w2) && IsPlainValue(v)
    ensures ParseLine(raw + w1 + [sep] + w2 + v) == Some(Assignment(KeyMap(name).value, v))
  {
    var line := raw + w1 + [sep] + w2 + v;
    SpellingFacts(raw, name);
    assert line[0] == raw[0] && line[|line| - 1] == v[|v| - 1];
    PlainLineMatched(raw, name, w1, sep, w2, v);
    CleanKeyIgnoresTrailingSpace(raw, w1);
    CleanKeyOfSpelling(raw, name);
    MatchedLineAssigns(line, raw + w1, v);
  }

  /** After the separator, a plain value between quotes is captured without them. */
  lemma QuotedValueCaptured(q: char, v: string)
    requires IsQuote(q) && IsPlainValue(v)
    ensures ValueCapture([q] + v + [q]) == Some(v)
  {
    var r := [q] + v + [q];
    QuotedBodyCaptured(q, v);
    assert LeadingWhitespace(r) == 0;
    assert r[0..] == r;
  }

  /** `["']?([^"']+)["']?$` takes both quotes around a plain value and captures the value. */
  lemma QuotedBodyCaptured(q: char, v: string)
    requires IsQuote(q) && IsPlainValue(v)
    ensures QuotedCapture([q] + v + [q]) == Some(v)
  {
    var r := [q] + v + [q];
    assert r[1..] == v + [q];
    assert (v + [q])[..|v|] == v;
    assert TailShape(r[1..], v);
    assert Capture(r[1..]) == Some(v);
  }

  /** Upper-casing distributes over the `export ` prefix. */
  lemma UpperExport(raw: string)
    ensures ToUpper("export " + raw) == "EXPORT " + ToUpper(raw)
  {
    var key := "export " + raw;
    assert forall i :: 0 <= i < 7 ==> ToUpper(key)[i] == "EXPORT "[i];
    assert forall i :: 7 <= i < |key| ==> ToUpper(key)[i] == UpperChar(raw[i - 7]);
  }

  /** `EXPORT NAME` is cleaned to `NAME`. */
  lemma ExportStripped(name: string)
    requires IsPlainKey(name)
    ensures StripExport("EXPORT " + name) == name
  {
    var upper := "EXPORT " + name;
    assert upper[..6] == "EXPORT";
    assert upper[6..] == [' '] + name;
    assert TrimStart(upper[6..]) == TrimStart(name);
  }

  /** A key written in any case after a shell `export ` is cleaned to its upper-case name. */
  lemma ExportPrefixDropped(raw: string, name: string)
    requires IsPlainKey(name) && ToUpper(raw) == name
    ensures CleanKey("export " + raw) == name
  {
    var key := "export " + raw;
    assert !IsWhitespace(raw[|raw| - 1]) by { assert ToUpper(raw)[|raw| - 1] == name[|name| - 1]; }
    assert key[|key| - 1] == raw[|raw| - 1];
    TrimOfTrimmed(key);
    UpperExport(raw);
    ExportStripped(name);
  }

  /** A line cut at its first separator after a non-empty key matches when the rest yields a value. */
  lemma SeparatedLineMatched(key: string, sep: char, rest: string, v: string)
    requires key != [] && IsSeparator(sep) && SeparatorIndex(key + [sep] + rest) == Some(|key|) && ValueCapture(rest) == Some(v)
    ensures MatchLine(key + [sep] + rest) == Some((key, v))
  {
    var line := key + [sep] + rest;
    var i := |key|;
    assert line[..i] == key;
    assert line[i + 1..] == rest;
    assert ValueCapture(line[i + 1..]) == Some(v);
  }

  /** In `export name="value"` the first `=` or `:` is the one after the name. */
  lemma ExportedSeparator(raw: string, name: string, q: char, v: string)
    requires IsPlainKey(name) && ToUpper(raw) == name
    ensures SeparatorIndex("export " + raw + "=" + [q] + v + [q]) == Some(|"export " + raw|)
  {
    var key := "export " + raw;
    var line := key + "=" + [q] + v + [q];
    assert IsSeparator(line[|key|]);
    assert forall i :: 0 <= i < |raw| ==> ToUpper(raw)[i] == name[i];
    assert forall i :: 0 <= i < |key| ==> line[i] == key[i];
  }

  /** The pattern splits `export name="value"` at the `=` after the name. */
  lemma ExportedLineMatched(raw: string, name: string, q: char, v: string)
    requires IsPlainKey(name) && ToUpper(raw) == name && IsQuote(q) && IsPlainValue(v)
    ensures MatchLine("export " + raw + "=" + [q] + v + [q]) == Some(("export " + raw, v))
  {
    var key := "export " + raw;
    assert key + "=" + [q] + v + [q] == key + ['='] + ([q] + v + [q]);
    ExportedSeparator(raw, name, q, v);
    QuotedValueCaptured(q, v);
    SeparatedLineMatched(key, '=', [q] + v + [q], v);
  }

  /**
   * A line `export name="value"` (either quote, the name in any case) assigns
   * the bare value to the name's slot: the `export` prefix, the case and the
   * quotes all go.
   */
  lemma ExportedQuotedLineAssigns(raw: string, name: string, q: char, v: string)
    requires IsPlainKey(name) && ToUpper(raw) == name && KeyMap(name).Some? && IsQuote(q) && IsPlainValue(v)
    ensures ParseLine("export " + raw + "=" + [q] + v + [q]) == Some(Assignment(KeyMap(name).value, v))
  {
    var key := "export " + raw;
    var line := key + "=" + [q] + v + [q];
    assert IsTrimmed(line) && line != [] && line[0] != '#' by {
      assert line[0] == 'e' && line[|line| - 1] == q;
    }
    assert MatchLine(line) == Some((key, v)) by {
      ExportedLineMatched(raw, name, q, v);
    }
    assert KeyMap(CleanKey(key)) == KeyMap(name) by {
      ExportPrefixDropped(raw, name);
    }
    MatchedLineAssigns(line, key, v);
  }

  // ---------------------------------------------------------------------
  // The whole file
  // ---------------------------------------------------------------------

  /** The outcome of the `forEach` callback for each line. */
  function Assignments(lines: seq<string>): (r: seq<Option<Assignment>>)
    ensures |r| == |lines| && forall i :: 0 <= i < |lines| ==> r[i] == ParseLine(lines[i])
  {
    seq(|lines|, i requires 0 <= i < |lines| => ParseLine(lines[i]))
  }

  /** `a` assigns to `s`. */
  predicate Assigns(a: Option<Assignment>, s: Slot) {
    a.Some? && a.value.slot == s
  }

  /** The `config` object after the assignments in `assignments` have been made in order. */
  function Fill(assignments: seq<Option<Assignment>>): map<Slot, string>
    decreases |assignments|
  {
    if assignments == [] then map[]
    else
      var config := Fill(assignments[..|assignments| - 1]);
      match assignments[|assignments| - 1]
      case None => config
      case Some(a) => config[a.slot := a.value]
  }

  /** The `config` object after the `forEach` has run over `lines`. */
  function Config(lines: seq<string>): map<Slot, string> {
    Fill(Assignments(lines))
  }

  /**
   * The last assignment to a slot decides its value, whichever of the slot's
   * aliases it was written under; a slot nothing assigns to stays unset.
   */
  lemma LastAssignmentWins(assignments: seq<Option<Assignment>>, s: Slot)
    ensures s in Fill(assignments) <==> exists i :: 0 <= i < |assignments| && Assigns(assignments[i], s)
    ensures s in Fill(assignments) ==>
      exists i :: 0 <= i < |assignments| && assignments[i] == Some(Assignment(s, Fill(assignments)[s]))
        && forall j :: i < j < |assignments| ==> !Assigns(assignments[j], s)
  {
    AssignedIffFilled(assignments, s);
    if s in Fill(assignments) {
      LastAssignmentWitness(assignments, s);
    }
  }

  /** A slot is set exactly when some assignment names it. */
  lemma {:induction false} AssignedIffFilled(assignments: seq<Option<Assignment>>, s: Slot)
    ensures s in Fill(assignments) <==> exists i :: 0 <= i < |assignments| && Assigns(assignments[i], s)
    decreases |assignments|
  {
    if assignments != [] {
      var init := assignments[..|assignments| - 1];
      var last := |assignments| - 1;
      AssignedIffFilled(init, s);
      if !Assigns(assignments[last], s) {
        assert s in Fill(assignments) <==> s in Fill(init);
        forall i | 0 <= i < |init| ensures init[i] == assignments[i] {
        }
      }
    }
  }

  /** A set slot holds the value of the last assignment that names it. */
  lemma {:induction false} LastAssignmentWitness(assignments: seq<Option<Assignment>>, s: Slot)
    requires s in Fill(assignments)
    ensures exists i ::
      && 0 <= i < |assignments|
      && assignments[i] == Some(Assignment(s, Fill(assignments)[s]))
      && forall j :: i < j < |assignments| ==> !Assigns(assignments[j], s)
    decreases |assignments|
  {
    var init := assignments[..|assignments| - 1];
    var last := |assignments| - 1;
    if Assigns(assignments[last], s) {
      assert assignments[last] == Some(Assignment(s, Fill(assignments)[s]));
    } else {
      assert s in Fill(init) && Fill(assignments)[s] == Fill(init)[s];
      LastAssignmentWitness(init, s);
      var i :| 0 <= i < |init| && init[i] == Some(Assignment(s, Fill(init)[s]))
        && forall j :: i < j < |init| ==> !Assigns(init[j], s);
      assert assignments[i] == init[i];
      forall j | i < j < |assignments| ensures !Assigns(assignments[j], s) {
        if j < last {
          assert assignments[j] == init[j];
        }
      }
    }
  }

  /** A slot counts as missing when it is unset or holds the empty string (`!config.apiKey`). */
  predicate IsMissing(config: map<Slot, string>, s: Slot) {
    s !in config || config[s] == ""
  }

  /** `s`, when it is missing from `config`: one `missing.push`. */
  function Pick(config: map<Slot, string>, s: Slot): (r: seq<Slot>)
    ensures r == [] || r == [s]
    ensures r == [s] <==> IsMissing(config, s)
  {
    if IsMissing(config, s) then [s] else []
  }

  /** The `missing` list: every missing slot, once. */
  function Missing(config: map<Slot, string>): (missing: seq<Slot>)
    ensures forall s :: s in missing <==> IsMissing(config, s)
  {
    var a := Pick(config, ApiKey);
    var b := Pick(config, ApiSecret);
    var c := Pick(config, AccessToken);
    var d := Pick(config, AccessSecret);
    var r := a + b + c + d;
    assert forall s :: s in r <==> IsMissing(config, s) by {
      forall s ensures s in r <==> IsMissing(config, s) {
        assert s in r <==> s in a || s in b || s in c || s in d;
        if s == ApiKey {
          assert s !in b && s !in c && s !in d;
        } else if s == ApiSecret {
          assert s !in a && s !in c && s !in d;
        } else if s == AccessToken {
          assert s !in a && s !in b && s !in d;
        } else {
          assert s !in a && s !in b && s !in c;
        }
      }
    }
    r
  }

  /** The slots in the order the source checks them. */
  const SlotOrder: seq<Slot> := [ApiKey, ApiSecret, AccessToken, AccessSecret]

  predicate StrictlyOrdered(slots: seq<Slot>) {
    forall i, j :: 0 <= i < j < |slots| ==> Ordinal(slots[i]) < Ordinal(slots[j])
  }

  predicate Below(slots: seq<Slot>, n: nat) {
    forall i :: 0 <= i < |slots| ==> Ordinal(slots[i]) < n
  }

  lemma OrderedAppendPick(x: seq<Slot>, config: map<Slot, string>, s: Slot)
    requires StrictlyOrdered(x) && Below(x, Ordinal(s))
    ensures StrictlyOrdered(x + Pick(config, s)) && Below(x + Pick(config, s), Ordinal(s) + 1)
  {
  }

  /** Missing slots are reported in the order API_KEY, API_SECRET, ACCESS_TOKEN, ACCESS_SECRET. */
  lemma {:induction false} MissingIsOrdered(config: map<Slot, string>)
    ensures StrictlyOrdered(Missing(config))
  {
    var a := Pick(config, ApiKey);
    var b := Pick(config, ApiSecret);
    var c := Pick(config, AccessToken);
    OrderedAppendPick([], config, ApiKey);
    assert [] + a == a;
    OrderedAppendPick(a, config, ApiSecret);
    OrderedAppendPick(a + b, config, AccessToken);
    OrderedAppendPick(a + b + c, config, AccessSecret);
  }

  /** The four credentials as the import hands them to `saveAndVerifyCredentials`. */
  datatype CredentialSet = CredentialSet(apiKey: string, apiSecret: string, accessToken: string, accessSecret: string)

  function Value(c: CredentialSet, s: Slot): string {
    match s
    case ApiKey => c.apiKey
    case ApiSecret => c.apiSecret
    case AccessToken => c.accessToken
    case AccessSecret => c.accessSecret
  }

  /**
   * The outcome of the `missing` check on `config`: the four values when every
   * slot is set to a non-empty string, the missing slots otherwise.
   */
  function CredentialsFrom(config: map<Slot, string>): (r: Result<CredentialSet, seq<Slot>>)
    ensures r.Failure? ==> r.error != [] && forall s :: s in r.error <==> IsMissing(config, s)
    ensures r.Failure? ==> r.error == Missing(config)
    ensures r.Failure? <==> exists s :: IsMissing(config, s)
    ensures r.Success? ==> forall s :: s in config && config[s] == Value(r.value, s) != ""
  {
    var missing := Missing(config);
    if missing != [] then
      assert IsMissing(config, missing[0]);
      Failure(missing)
    else
      assert forall s :: s in config && config[s] != "" by {
        forall s ensures s in config && config[s] != "" { assert s !in missing; }
      }
      var c := CredentialSet(config[ApiKey], config[ApiSecret], config[AccessToken], config[AccessSecret]);
      assert forall s :: Value(c, s) == config[s] by {
        forall s ensures Value(c, s) == config[s] {
          assert s == ApiKey || s == ApiSecret || s == AccessToken || s == AccessSecret;
        }
      }
      Success(c)
  }

  /** The parsing block of `importCredentials` as a value. */
  function ParseCredentials(text: string): Result<CredentialSet, seq<Slot>> {
    CredentialsFrom(Config(SplitLines(text)))
  }

  /**
   * `name` is a spelling the import accepts for slot `s`: in upper case it is
   * a plain variable name that the alias table maps to `s`.
   */
  predicate AcceptedSpelling(name: string, s: Slot) {
    IsPlainKey(ToUpper(name)) && KeyMap(ToUpper(name)) == Some(s)
  }

  /** The canonical names are accepted spellings. */
  lemma CanonicalSpellings(s: Slot)
    ensures AcceptedSpelling(SlotName(s), s)
  {
    SlotNamesArePlain(s);
    ToUpperOfUpper(SlotName(s));
    CanonicalNamesMapped(s);
  }

  /**
   * The four credentials written out as a file the import accepts, one
   * `name=value` line per slot, each slot under the name `names` gives it.
   */
  function Render(c: CredentialSet, names: Slot -> string): string {
    Join(RenderedLines(c, names), "\n")
  }

  function RenderedLines(c: CredentialSet, names: Slot -> string): seq<string> {
    seq(|SlotOrder|, i requires 0 <= i < |SlotOrder| => Line(c, names, SlotOrder[i]))
  }

  /** The `name=value` line of slot `s`. */
  function Line(c: CredentialSet, names: Slot -> string, s: Slot): string {
    names(s) + "=" + Value(c, s)
  }

  /** A rendered line assigns its slot's value, whichever accepted spelling it uses. */
  lemma RenderedLineAssigns(c: CredentialSet, names: Slot -> string, s: Slot)
    requires AcceptedSpelling(names(s), s) && IsPlainValue(Value(c, s))
    ensures ParseLine(Line(c, names, s)) == Some(Assignment(s, Value(c, s)))
  {
    assert Line(c, names, s) == names(s) + [] + ['='] + [] + Value(c, s);
    PlainLineAssigns(names(s), ToUpper(names(s)), [], '=', [], Value(c, s));
  }

  /** A rendered line holds no line feed and does not end with a carriage return. */
  lemma RenderedLineIsSingle(c: CredentialSet, names: Slot -> string, s: Slot)
    requires AcceptedSpelling(names(s), s) && IsPlainValue(Value(c, s))
    ensures '\n' !in Line(c, names, s) && Line(c, names, s)[|Line(c, names, s)| - 1] != '\r'
  {
    var name, v := names(s), Value(c, s);
    SpellingFacts(name, ToUpper(name));
    assert '\n' !in name;
    assert '\n' !in v;
    var line := name + "=" + v;
    assert line == Line(c, names, s);
    assert line[|line| - 1] == v[|v| - 1];
  }

  /** Splitting the rendering gives the rendered lines back. */
  lemma RenderedLinesSplit(c: CredentialSet, names: Slot -> string)
    requires forall s :: AcceptedSpelling(names(s), s) && IsPlainValue(Value(c, s))
    ensures SplitLines(Render(c, names)) == RenderedLines(c, names)
  {
    var lines := RenderedLines(c, names);
    forall i | 0 <= i < |lines|
      ensures '\n' !in lines[i] && lines[i][|lines[i]| - 1] != '\r'
    {
      RenderedLineIsSingle(c, names, SlotOrder[i]);
    }
    SplitJoinLines(lines);
  }

  /** The assignment each rendered line makes. */
  function RenderedAssignments(c: CredentialSet): seq<Option<Assignment>> {
    seq(|SlotOrder|, i requires 0 <= i < |SlotOrder| => Some(Assignment(SlotOrder[i], Value(c, SlotOrder[i]))))
  }

  /** Each rendered line makes its slot's assignment. */
  lemma RenderedLinesAssign(c: CredentialSet, names: Slot -> string)
    requires forall s :: AcceptedSpelling(names(s), s) && IsPlainValue(Value(c, s))
    ensures Assignments(RenderedLines(c, names)) == RenderedAssignments(c)
  {
    forall i | 0 <= i < |SlotOrder|
      ensures ParseLine(RenderedLines(c, names)[i]) == RenderedAssignments(c)[i]
    {
      RenderedLineAssigns(c, names, SlotOrder[i]);
    }
  }

  /** After the first `k` assignments of one value per slot, `config` holds those slots with their values. */
  lemma {:induction false} FillPrefix(c: CredentialSet, assignments: seq<Option<Assignment>>, slots: seq<Slot>, k: nat)
    requires |assignments| == |slots| && k <= |slots|
    requires forall i :: 0 <= i < |slots| ==> assignments[i] == Some(Assignment(slots[i], Value(c, slots[i])))
    ensures Fill(assignments[..k]) == map s | s in slots[..k] :: Value(c, s)
  {
    if k > 0 {
      FillPrefix(c, assignments, slots, k - 1);
      assert assignments[..k][..k - 1] == assignments[..k - 1];
      assert slots[..k] == slots[..k - 1] + [slots[k - 1]];
    }
  }

  /** A `config` holding a non-empty value for every slot yields exactly those values. */
  lemma CompleteConfig(config: map<Slot, string>, c: CredentialSet)
    requires forall s :: s in config && config[s] == Value(c, s) != ""
    ensures CredentialsFrom(config) == Success(c)
  {
  }

  /** The `config` the import builds from a rendering holds every slot with its value. */
  lemma RenderedConfig(c: CredentialSet, names: Slot -> string)
    requires forall s :: AcceptedSpelling(names(s), s) && IsPlainValue(Value(c, s))
    ensures forall s :: s in Config(SplitLines(Render(c, names))) && Config(SplitLines(Render(c, names)))[s] == Value(c, s)
  {
    var a := RenderedAssignments(c);
    FillPrefix(c, a, SlotOrder, |SlotOrder|);
    assert a[..|SlotOrder|] == a;
    assert SlotOrder[..|SlotOrder|] == SlotOrder;
    var filled := Fill(a);
    assert forall s :: s in filled && filled[s] == Value(c, s) by {
      forall s ensures s in filled && filled[s] == Value(c, s) { assert SlotOrder[Ordinal(s)] == s; }
    }
    RenderedLinesSplit(c, names);
    RenderedLinesAssign(c, names);
    assert Config(SplitLines(Render(c, names))) == filled;
  }

  /**
   * Importing the rendering of four plain credentials gives them back, under
   * any accepted spelling of each slot's name: any alias, in any ASCII case.
   */
  lemma ImportRoundTrip(c: CredentialSet, names: Slot -> string)
    requires forall s :: AcceptedSpelling(names(s), s) && IsPlainValue(Value(c, s))
    ensures ParseCredentials(Render(c, names)) == Success(c)
  {
    RenderedConfig(c, names);
    CompleteConfig(Config(SplitLines(Render(c, names))), c);
  }

  /** Importing four plain credentials written under their canonical names gives them back. */
  lemma CanonicalImportRoundTrip(c: CredentialSet)
    requires forall s :: IsPlainValue(Value(c, s))
    ensures ParseCredentials(Render(c, SlotName)) == Success(c)
  {
    forall s ensures AcceptedSpelling(SlotName(s), s) {
      CanonicalSpellings(s);
    }
    ImportRoundTrip(c, SlotName);
  }

  /** `missing.join(', ')`. */
  function MissingList(missing: seq<Slot>): string {
    Join(seq(|missing|, i requires 0 <= i < |missing| => SlotName(missing[i])), ", ")
  }

  /** The parsing block of `importCredentials`: a loop over the lines filling `config`, then the `missing` pushes. */
  method ParseCredentialText(text: string) returns (r: Result<CredentialSet, seq<Slot>>)
    ensures r == ParseCredentials(text)
  {
    var lines := SplitLines(text);
    var config: map<Slot, string> := map[];
    ghost var assignments := Assignments(lines);
    for i := 0 to |lines|
      invariant config == Fill(assignments[..i])
    {
      var assignment := ParseLine(lines[i]);
      FillStep(assignments, i);
      if assignment.Some? {
        config := config[assignment.value.slot := assignment.value.value];
      }
    }
    assert assignments[..|lines|] == assignments;
    r := CheckMissing(config);
  }

  /** One more step of the `forEach`: the next assignment, if any, is written over the config built so far. */
  lemma FillStep(assignments: seq<Option<Assignment>>, i: nat)
    requires i < |assignments|
    ensures Fill(assignments[..i + 1]) ==
      if assignments[i].Some? then Fill(assignments[..i])[assignments[i].value.slot := assignments[i].value.value]
      else Fill(assignments[..i])
  {
    assert assignments[..i + 1][..i] == assignments[..i];
  }

  /** The `missing` check at the end of the parsing block: four pushes, then either an error or the credentials. */
  method CheckMissing(config: map<Slot, string>) returns (r: Result<CredentialSet, seq<Slot>>)
    ensures r == CredentialsFrom(config)
  {
    var missing: seq<Slot> := [];
    if ApiKey !in config || config[ApiKey] == "" {
      missing := missing + [ApiKey];
    }
    assert missing == Pick(config, ApiKey);
    if ApiSecret !in config || config[ApiSecret] == "" {
      missing := missing + [ApiSecret];
    }
    assert missing == Pick(config, ApiKey) + Pick(config, ApiSecret);
    if AccessToken !in config || config[AccessToken] == "" {
      missing := missing + [AccessToken];
    }
    assert missing == Pick(config, ApiKey) + Pick(config, ApiSecret) + Pick(config, AccessToken);
    if AccessSecret !in config || config[AccessSecret] == "" {
      missing := missing + [AccessSecret];
    }
    assert missing == Missing(config);
    if |missing| > 0 {
      return Failure(missing);
    }
    r := Success(CredentialSet(config[ApiKey], config[ApiSecret], config[AccessToken], config[AccessSecret]));
  }
}
