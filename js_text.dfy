/**
 * The JavaScript value and string semantics the gateway helpers rely on:
 * truthiness, `||` and `??`, `trim`, UTF-16 `length`, `endsWith`, and the
 * three regular-expression rewrites applied to field names.
 */
module JsText {
  import opened Common

  /** A JavaScript value as far as the helpers inspect it. Numbers are integers. */
  datatype JsValue =
    | Undefined
    | Null
    | Bool(b: bool)
    | Num(n: int)
    | Str(s: string)
    | Arr(items: seq<JsValue>)
    | Obj

  /** JavaScript truthiness: `undefined`, `null`, `false`, `0` and `''` are falsy. */
  predicate Truthy(v: JsValue) {
    match v
    case Undefined => false
    case Null => false
    case Bool(b) => b
    case Num(n) => n != 0
    case Str(s) => s != ""
    case Arr(_) => true
    case Obj => true
  }

  /** `a || fallback` for an optional string: an absent or empty `a` gives `fallback`. */
  function OrElse(a: Option<string>, fallback: string): (r: string)
    ensures a.Some? && a.value != "" ==> r == a.value
    ensures a.None? || a.value == "" ==> r == fallback
  {
    if a.Some? && a.value != "" then a.value else fallback
  }

  /** `a || b` for two optional strings. */
  function Or(a: Option<string>, b: Option<string>): (r: Option<string>)
    ensures a.Some? && a.value != "" ==> r == a
    ensures a.None? || a.value == "" ==> r == b
  {
    if a.Some? && a.value != "" then a else b
  }

  /** `a ?? b` for two optional strings: only an absent `a` gives `b`. */
  function Coalesce(a: Option<string>, b: Option<string>): (r: Option<string>)
    ensures a.Some? ==> r == a
    ensures a.None? ==> r == b
  {
    if a.Some? then a else b
  }

  /** `a ?? fallback` with a string fallback: an empty `a` is kept. */
  function CoalesceTo(a: Option<string>, fallback: string): (r: string)
    ensures a.Some? ==> r == a.value
    ensures a.None? ==> r == fallback
  {
    if a.Some? then a.value else fallback
  }

  /** The characters `String.prototype.trim` removes: white space and line terminators. */
  predicate IsJsWhitespace(c: char) {
    c == '\t' || c == '\n' || c == '\U{000B}' || c == '\U{000C}' || c == '\r' || c == ' ' ||
    c == '\U{00A0}' || c == '\U{1680}' || ('\U{2000}' <= c <= '\U{200A}') ||
    c == '\U{2028}' || c == '\U{2029}' || c == '\U{202F}' || c == '\U{205F}' || c == '\U{3000}' ||
    c == '\U{FEFF}'
  }

  /** The string without its leading white space. */
  function TrimStart(s: string): (r: string)
    ensures |r| <= |s| && r == s[|s| - |r|..]
    ensures r != "" ==> !IsJsWhitespace(r[0])
  {
    if s != "" && IsJsWhitespace(s[0]) then TrimStart(s[1..]) else s
  }

  /** The string without its trailing white space. */
  function TrimEnd(s: string): (r: string)
    ensures |r| <= |s| && r == s[..|r|]
    ensures r != "" ==> !IsJsWhitespace(r[|r| - 1])
  {
    if s != "" && IsJsWhitespace(s[|s| - 1]) then TrimEnd(s[..|s| - 1]) else s
  }

  /** `s.trim()`. */
  function Trim(s: string): string {
    TrimEnd(TrimStart(s))
  }

  /** Trimming leaves nothing exactly when the string is all white space. */
  lemma {:induction false} TrimStartEmpty(s: string)
    ensures TrimStart(s) == "" <==> forall i :: 0 <= i < |s| ==> IsJsWhitespace(s[i])
  {
    if s != "" && IsJsWhitespace(s[0]) {
      TrimStartEmpty(s[1..]);
      assert forall i :: 1 <= i < |s| ==> s[i] == s[1..][i - 1];
    }
  }

  /** `s.trim() === ''` holds exactly when every character of `s` is white space. */
  lemma TrimEmptyIffBlank(s: string)
    ensures Trim(s) == "" <==> forall i :: 0 <= i < |s| ==> IsJsWhitespace(s[i])
  {
    TrimStartEmpty(s);
    var t := TrimStart(s);
    if t != "" {
      assert !IsJsWhitespace(t[0]);
      assert TrimEnd(t) != "" by {
        if TrimEnd(t) == "" {
          TrimEndNonEmpty(t);
        }
      }
    }
  }

  /** `TrimEnd` keeps a string whose first character is not white space non-empty. */
  lemma {:induction false} TrimEndNonEmpty(t: string)
    requires t != "" && !IsJsWhitespace(t[0])
    ensures TrimEnd(t) != ""
  {
    if IsJsWhitespace(t[|t| - 1]) {
      assert |t| > 1;
      TrimEndNonEmpty(t[..|t| - 1]);
    }
  }

  /** A value is missing for the form helpers: falsy, or a string that trims to nothing. */
  predicate Missing(v: JsValue) {
    !Truthy(v) || (v.Str? && Trim(v.s) == "")
  }

  /** `s.length`: the number of UTF-16 code units. */
  function Utf16Length(s: string): (n: nat)
    ensures |s| <= n <= 2 * |s|
  {
    if s == "" then 0 else (if s[0] as int > 0xFFFF then 2 else 1) + Utf16Length(s[1..])
  }

  /** `s.endsWith(suffix)`. */
  predicate EndsWith(s: string, suffix: string) {
    |suffix| <= |s| && s[|s| - |suffix|..] == suffix
  }

  /** An ASCII decimal digit, the class `\d`. */
  predicate IsDigit(c: char) {
    '0' <= c <= '9'
  }

  /** The number of decimal digits at the start of `s`. */
  function DigitRun(s: string): (n: nat)
    ensures n <= |s|
    ensures forall k :: 0 <= k < n ==> IsDigit(s[k])
    ensures n < |s| ==> !IsDigit(s[n])
  {
    if s != "" && IsDigit(s[0]) then 1 + DigitRun(s[1..]) else 0
  }

  /**
   * `s.replace(/\[\d*\]/g, '[]')`: every `[`, digits, `]` group becomes `[]`.
   * A `[` not followed by digits and a `]` is copied unchanged.
   */
  function CollapseIndices(s: string): (r: string)
    ensures |r| <= |s|
    ensures s != "" ==> r != "" && r[0] == s[0]
    decreases |s|
  {
    if s == "" then ""
    else if s[0] == '[' && 1 + DigitRun(s[1..]) < |s| && s[1 + DigitRun(s[1..])] == ']' then
      "[]" + CollapseIndices(s[2 + DigitRun(s[1..])..])
    else [s[0]] + CollapseIndices(s[1..])
  }

  /** A bracketed index, `[` then at least one digit then `]`, starts at `i`. */
  predicate IndexAt(s: string, i: nat) {
    i < |s| && s[i] == '[' &&
    var n := DigitRun(s[i + 1..]);
    n > 0 && i + 1 + n < |s| && s[i + 1 + n] == ']'
  }

  /** A string of digits passes through `CollapseIndices` unchanged. */
  lemma {:induction false} CollapseDigitsPrefix(d: string, t: string)
    requires forall k :: 0 <= k < |d| ==> IsDigit(d[k])
    ensures CollapseIndices(d + t) == d + CollapseIndices(t)
    decreases |d|
  {
    if d != "" {
      var s := d + t;
      assert s[0] == d[0] && s[0] != '[';
      assert s[1..] == d[1..] + t;
      assert CollapseIndices(s) == [s[0]] + CollapseIndices(s[1..]);
      CollapseDigitsPrefix(d[1..], t);
      assert d == [d[0]] + d[1..];
    } else {
      assert d + t == t;
    }
  }

  /** Whether an index starts at a position depends only on the text from there on. */
  lemma IndexAtShift(p: string, s: string, i: nat)
    ensures IndexAt(p + s, |p| + i) <==> IndexAt(s, i)
  {
    if i < |s| {
      assert (p + s)[|p| + i + 1..] == s[i + 1..];
    }
  }

  /**
   * A `[` that does not open an index stays unmatched once the rest is
   * collapsed: the digits after it are kept and are not followed by `]`.
   */
  lemma UnmatchedBracketStays(s: string)
    requires s != "" && s[0] == '['
    requires !(1 + DigitRun(s[1..]) < |s| && s[1 + DigitRun(s[1..])] == ']')
    ensures !IndexAt([s[0]] + CollapseIndices(s[1..]), 0)
  {
    var n := DigitRun(s[1..]);
    var r := [s[0]] + CollapseIndices(s[1..]);
    var rest := CollapseIndices(s[1..]);
    assert r[1..] == rest;
    var d := s[1..][..n];
    var t := s[1..][n..];
    assert s[1..] == d + t;
    CollapseDigitsPrefix(d, t);
    if t != "" {
      assert t[0] == s[1 + n] && t[0] != ']' && !IsDigit(t[0]);
      var ct := CollapseIndices(t);
      DigitRunPrefix(d, ct);
      assert r[1 + n] == ct[0] == t[0];
    } else {
      assert rest == d;
      assert DigitRun(rest) == n;
    }
  }

  /** A prefix does not create an index inside an index-free suffix. */
  lemma NoIndexInSuffix(p: string, rest: string)
    requires forall i :: 0 <= i < |rest| ==> !IndexAt(rest, i)
    ensures forall i :: |p| <= i < |p + rest| ==> !IndexAt(p + rest, i)
  {
    forall i | |p| <= i < |p + rest| ensures !IndexAt(p + rest, i) {
      IndexAtShift(p, rest, i - |p|);
    }
  }

  /** After `CollapseIndices` no bracketed index with digits is left. */
  lemma {:induction false} CollapseLeavesNoIndex(s: string)
    ensures forall i :: 0 <= i < |CollapseIndices(s)| ==> !IndexAt(CollapseIndices(s), i)
    decreases |s|
  {
    if s == "" {
      return;
    }
    var r := CollapseIndices(s);
    var n := DigitRun(s[1..]);
    if s[0] == '[' && 1 + n < |s| && s[1 + n] == ']' {
      var rest := CollapseIndices(s[2 + n..]);
      CollapseLeavesNoIndex(s[2 + n..]);
      assert r == "[]" + rest;
      NoIndexInSuffix("[]", rest);
      assert !IndexAt(r, 0) by {
        assert r[1..][0] == ']';
      }
      assert |r| > 1 && !IndexAt(r, 1);
    } else {
      var rest := CollapseIndices(s[1..]);
      CollapseLeavesNoIndex(s[1..]);
      assert r == [s[0]] + rest;
      NoIndexInSuffix([s[0]], rest);
      if s[0] == '[' {
        UnmatchedBracketStays(s);
      }
      assert !IndexAt(r, 0);
    }
  }

  /** Digits followed by a non-digit: the digit run is exactly the digits. */
  lemma {:induction false} DigitRunPrefix(d: string, t: string)
    requires forall k :: 0 <= k < |d| ==> IsDigit(d[k])
    requires t != "" && !IsDigit(t[0])
    ensures DigitRun(d + t) == |d|
    decreases |d|
  {
    if d == "" {
      assert d + t == t;
    } else {
      assert (d + t)[1..] == d[1..] + t;
      DigitRunPrefix(d[1..], t);
    }
  }

  /** A string without digits is left unchanged by `CollapseIndices`. */
  lemma {:induction false} CollapseWithoutDigits(s: string)
    requires forall k :: 0 <= k < |s| ==> !IsDigit(s[k])
    ensures CollapseIndices(s) == s
    decreases |s|
  {
    if s != "" {
      if s[0] == '[' && 1 + DigitRun(s[1..]) < |s| && s[1 + DigitRun(s[1..])] == ']' {
        assert DigitRun(s[1..]) == 0;
        assert s == "[]" + s[2..];
        CollapseWithoutDigits(s[2..]);
      } else {
        assert s == [s[0]] + s[1..];
        CollapseWithoutDigits(s[1..]);
      }
    }
  }

  /** `s.split('.').pop()`: the text after the last `.`, or all of `s` when it has none. */
  function LastSegment(s: string): (r: string)
    ensures |r| <= |s| && r == s[|s| - |r|..]
    ensures '.' !in r
    ensures |r| < |s| ==> s[|s| - |r| - 1] == '.'
  {
    if s == "" then ""
    else if s[|s| - 1] == '.' then ""
    else
      var r := LastSegment(s[..|s| - 1]) + [s[|s| - 1]];
      assert s[..|s| - 1][|s| - 1 - (|r| - 1)..] + [s[|s| - 1]] == s[|s| - |r|..];
      r
  }

  /** An ASCII capital, the class `[A-Z]`. */
  predicate IsUpper(c: char) {
    'A' <= c <= 'Z'
  }

  /** `s.replace(/([A-Z])/g, ' $1')`: a space before every capital letter. */
  function SpaceBeforeCapitals(s: string): (r: string)
    ensures |r| >= |s|
    ensures (forall k :: 0 <= k < |s| ==> !IsUpper(s[k])) ==> r == s
    ensures '.' !in s ==> '.' !in r
    ensures r == "" <==> s == ""
  {
    if s == "" then ""
    else (if IsUpper(s[0]) then [' ', s[0]] else [s[0]]) + SpaceBeforeCapitals(s[1..])
  }

  /**
   * `String.prototype.toUpperCase` on one character, for the Basic Latin and
   * Latin-1 letters whose capital is a single character: a-z, U+00E0-U+00FE
   * except U+00F7, y with diaeresis (capital U+0178) and micro sign (capital
   * Greek mu, U+039C). Every other character is returned unchanged.
   */
  function ToUpperChar(c: char): (u: char)
    ensures 'a' <= c <= 'z' ==> u == (c as int - 0x20) as char && IsUpper(u)
    ensures '\U{00E0}' <= c <= '\U{00FE}' && c != '\U{00F7}' ==> u == (c as int - 0x20) as char
    ensures c == '\U{00FF}' ==> u == '\U{0178}'
    ensures c == '\U{00B5}' ==> u == '\U{039C}'
    ensures IsUpper(c) ==> u == c
    ensures u == '.' <==> c == '.'
  {
    if 'a' <= c <= 'z' || ('\U{00E0}' <= c <= '\U{00FE}' && c != '\U{00F7}') then
      (c as int - 0x20) as char
    else if c == '\U{00FF}' then '\U{0178}'
    else if c == '\U{00B5}' then '\U{039C}'
    else c
  }

  /** A line terminator, which the regular-expression `.` does not match. */
  predicate IsLineTerminator(c: char) {
    c == '\n' || c == '\r' || c == '\U{2028}' || c == '\U{2029}'
  }

  /** `s.replace(/^./, str => str.toUpperCase())`: the first character in capitals. */
  function UpperFirst(s: string): (r: string)
    ensures |r| == |s|
    ensures '.' !in s ==> '.' !in r
    ensures s != "" ==> r[1..] == s[1..]
    ensures s != "" && 'a' <= s[0] <= 'z' ==> IsUpper(r[0])
  {
    if s == "" || IsLineTerminator(s[0]) then s else [ToUpperChar(s[0])] + s[1..]
  }

  /** `s.charAt(0).toUpperCase() + s.slice(1)`. */
  function CapitalizeFirst(s: string): (r: string)
    ensures |r| == |s|
    ensures s != "" ==> r[1..] == s[1..] && r[0] == ToUpperChar(s[0])
  {
    if s == "" then "" else [ToUpperChar(s[0])] + s[1..]
  }

  /** The display name the form helpers build from a camel-case field name. */
  function DisplayName(field: string): (r: string)
    ensures r == "" <==> field == ""
    ensures |r| >= |field|
  {
    UpperFirst(SpaceBeforeCapitals(field))
  }

  /** The decimal text of a natural number. */
  function NatToString(n: nat): (r: string)
    ensures r != "" && forall k :: 0 <= k < |r| ==> IsDigit(r[k])
  {
    var d := ['0' + (n % 10) as char];
    if n < 10 then d else NatToString(n / 10) + d
  }

  /** The decimal text of an integer, as a template literal shows it. */
  function IntToString(n: int): (r: string)
    ensures r != ""
    ensures n >= 0 ==> r == NatToString(n)
    ensures n < 0 ==> r == "-" + NatToString(-n)
  {
    if n >= 0 then NatToString(n) else "-" + NatToString(-n)
  }
}
