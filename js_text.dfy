/**
 * The handful of JavaScript string and number built-ins the modelled code relies on:
 * `includes`, `startsWith`, `trim`, `join`, `parseInt` and the decimal rendering of an
 * integer inside a template literal. Strings are sequences of Unicode scalar values;
 * UTF-16 surrogate pairs are not modelled.
 */
module JsText {
  import opened Wrappers

  /** `sub` occurs in `s` starting at position `i`. */
  predicate OccursAt(s: string, sub: string, i: int) {
    0 <= i <= |s| - |sub| && s[i..i + |sub|] == sub
  }

  /** `s.includes(sub)`: `sub` occurs somewhere in `s`, case-sensitively. */
  predicate Includes(s: string, sub: string) {
    exists i :: 0 <= i <= |s| - |sub| && OccursAt(s, sub, i)
  }

  /** An occurrence of `sub` at position `i` is a witness for `Includes`. */
  lemma IncludesAt(s: string, sub: string, i: int)
    requires OccursAt(s, sub, i)
    ensures Includes(s, sub)
  {
  }

  /** A string that includes `big` includes every piece of `big`. */
  lemma IncludesPiece(s: string, big: string, lo: nat, hi: nat)
    requires lo <= hi <= |big|
    requires Includes(s, big)
    ensures Includes(s, big[lo..hi])
  {
    var i :| 0 <= i <= |s| - |big| && OccursAt(s, big, i);
    forall k | 0 <= k < hi - lo
      ensures s[i + lo..i + hi][k] == big[lo..hi][k]
    {
      assert s[i + lo + k] == s[i..i + |big|][lo + k];
    }
    assert s[i + lo..i + hi] == big[lo..hi];
    IncludesAt(s, big[lo..hi], i + lo);
  }

  /** `s.startsWith(prefix)`. */
  predicate StartsWith(s: string, prefix: string) {
    |prefix| <= |s| && s[..|prefix|] == prefix
  }

  /**
   * The characters ECMAScript's `trim` and `parseInt` skip: the WhiteSpace code points
   * (tab, vertical tab, form feed, space, no-break space, byte order mark and the
   * space separators of Unicode category Zs) and the LineTerminator code points.
   */
  predicate IsJsWhitespace(c: char) {
    || c == '\t' || c == '\U{000B}' || c == '\U{000C}' || c == ' ' || c == '\U{00A0}'
    || c == '\U{FEFF}' || c == '\U{1680}' || ('\U{2000}' <= c <= '\U{200A}')
    || c == '\U{202F}' || c == '\U{205F}' || c == '\U{3000}'
    || c == '\n' || c == '\r' || c == '\U{2028}' || c == '\U{2029}'
  }

  /** Every character of `s` is whitespace (true of the empty string). */
  predicate IsBlank(s: string) {
    forall i :: 0 <= i < |s| ==> IsJsWhitespace(s[i])
  }

  /** `s.trimStart()`. */
  function TrimStart(s: string): (r: string)
    ensures |r| <= |s| && r == s[|s| - |r|..]
    ensures r == [] || !IsJsWhitespace(r[0])
  {
    if |s| > 0 && IsJsWhitespace(s[0]) then TrimStart(s[1..]) else s
  }

  /** `s.trimEnd()`. */
  function TrimEnd(s: string): (r: string)
    ensures |r| <= |s| && r == s[..|r|]
    ensures r == [] || !IsJsWhitespace(r[|r| - 1])
  {
    if |s| > 0 && IsJsWhitespace(s[|s| - 1]) then TrimEnd(s[..|s| - 1]) else s
  }

  /** `s.trim()`. */
  function Trim(s: string): string {
    TrimEnd(TrimStart(s))
  }

  /** Below a leading whitespace character, blankness is decided by the rest. */
  lemma BlankAfterFirst(s: string)
    requires s != [] && IsJsWhitespace(s[0])
    ensures IsBlank(s) <==> IsBlank(s[1..])
  {
    if IsBlank(s[1..]) {
      forall i | 0 < i < |s| ensures IsJsWhitespace(s[i]) {
        assert s[i] == s[1..][i - 1];
      }
    }
  }

  /** Before a trailing whitespace character, blankness is decided by the rest. */
  lemma BlankBeforeLast(s: string)
    requires s != [] && IsJsWhitespace(s[|s| - 1])
    ensures IsBlank(s) <==> IsBlank(s[..|s| - 1])
  {
    if IsBlank(s[..|s| - 1]) {
      forall i | 0 <= i < |s| - 1 ensures IsJsWhitespace(s[i]) {
        assert s[i] == s[..|s| - 1][i];
      }
    }
  }

  lemma {:induction false} TrimStartEmptyIffBlank(s: string)
    ensures TrimStart(s) == [] <==> IsBlank(s)
  {
    if s != [] {
      if IsJsWhitespace(s[0]) {
        TrimStartEmptyIffBlank(s[1..]);
        BlankAfterFirst(s);
      } else {
        assert TrimStart(s) == s;
      }
    }
  }

  lemma {:induction false} TrimEndEmptyIffBlank(s: string)
    ensures TrimEnd(s) == [] <==> IsBlank(s)
  {
    if s != [] {
      if IsJsWhitespace(s[|s| - 1]) {
        TrimEndEmptyIffBlank(s[..|s| - 1]);
        BlankBeforeLast(s);
      } else {
        assert TrimEnd(s) == s;
      }
    }
  }

  /** `s.trim()` is empty (falsy) exactly when `s` consists of whitespace only. */
  lemma TrimEmptyIffBlank(s: string)
    ensures Trim(s) == [] <==> IsBlank(s)
  {
    var t := TrimStart(s);
    TrimStartEmptyIffBlank(s);
    TrimEndEmptyIffBlank(t);
    if t != [] {
      assert !IsBlank(t) by { assert !IsJsWhitespace(t[0]); }
    }
  }

  /** `parts.join(sep)`. */
  function Join(parts: seq<string>, sep: string): string {
    if |parts| == 0 then ""
    else if |parts| == 1 then parts[0]
    else parts[0] + sep + Join(parts[1..], sep)
  }

  /** Appending a part appends the separator and that part (or gives the part alone). */
  lemma {:induction false} JoinAppend(parts: seq<string>, p: string, sep: string)
    ensures Join(parts + [p], sep) == if parts == [] then p else Join(parts, sep) + sep + p
  {
    if |parts| > 1 {
      assert (parts + [p])[1..] == parts[1..] + [p];
      JoinAppend(parts[1..], p, sep);
    } else if |parts| == 1 {
      assert (parts + [p])[1..] == [p];
    }
  }

  predicate IsDigit(c: char) {
    '0' <= c <= '9'
  }

  predicate AllDigits(s: string) {
    forall i :: 0 <= i < |s| ==> IsDigit(s[i])
  }

  function DigitChar(d: nat): (c: char)
    requires d < 10
    ensures IsDigit(c)
  {
    ('0' as int + d) as char
  }

  function DigitValue(c: char): (d: nat)
    requires IsDigit(c)
    ensures d < 10 && DigitChar(d) == c
  {
    c as int - '0' as int
  }

  /** The value of a string of decimal digits, most significant first. */
  function DecimalValue(ds: string): nat
    requires AllDigits(ds)
  {
    if ds == [] then 0
    else 10 * DecimalValue(ds[..|ds| - 1]) + DigitValue(ds[|ds| - 1])
  }

  /** The longest prefix of `s` made of decimal digits. */
  function LeadingDigits(s: string): (r: string)
    ensures AllDigits(r) && |r| <= |s| && r == s[..|r|]
    ensures |r| < |s| ==> !IsDigit(s[|r|])
  {
    if |s| > 0 && IsDigit(s[0]) then [s[0]] + LeadingDigits(s[1..]) else []
  }

  predicate IsHexDigit(c: char) {
    IsDigit(c) || ('a' <= c <= 'f') || ('A' <= c <= 'F')
  }

  predicate AllHexDigits(s: string) {
    forall i :: 0 <= i < |s| ==> IsHexDigit(s[i])
  }

  function HexDigitValue(c: char): (d: nat)
    requires IsHexDigit(c)
    ensures d < 16
  {
    if IsDigit(c) then c as int - '0' as int
    else if 'a' <= c <= 'f' then c as int - 'a' as int + 10
    else c as int - 'A' as int + 10
  }

  /** The value of a string of hexadecimal digits, most significant first. */
  function HexValue(hs: string): nat
    requires AllHexDigits(hs)
  {
    if hs == [] then 0
    else 16 * HexValue(hs[..|hs| - 1]) + HexDigitValue(hs[|hs| - 1])
  }

  /** The longest prefix of `s` made of hexadecimal digits. */
  function LeadingHexDigits(s: string): (r: string)
    ensures AllHexDigits(r) && |r| <= |s| && r == s[..|r|]
  {
    if |s| > 0 && IsHexDigit(s[0]) then [s[0]] + LeadingHexDigits(s[1..]) else []
  }

  /**
   * `parseInt(s)` without a radix argument: leading whitespace is skipped, one optional
   * sign is read, a `0x`/`0X` prefix switches to base 16, and the longest run of digits
   * that follows is the value; no digits at all gives `NaN`, written `None`.
   */
  function ParseInt(s: string): Option<int> {
    var t := TrimStart(s);
    if |t| > 0 && (t[0] == '-' || t[0] == '+') then
      match ParseMagnitude(t[1..])
      case None => None
      case Some(m) => var v: int := m; Some(if t[0] == '-' then -v else v)
    else
      ParseMagnitude(t)
  }

  /** The unsigned part of `parseInt`: a hexadecimal run after `0x`/`0X`, else a decimal run. */
  function ParseMagnitude(u: string): Option<nat> {
    if |u| >= 2 && u[0] == '0' && (u[1] == 'x' || u[1] == 'X') then
      var hs := LeadingHexDigits(u[2..]);
      if hs == [] then None else Some(HexValue(hs))
    else
      var ds := LeadingDigits(u);
      if ds == [] then None else Some(DecimalValue(ds))
  }

  /** The decimal rendering of a natural number, without leading zeros. */
  function NatToString(n: nat): (s: string)
    ensures |s| > 0 && AllDigits(s)
  {
    if n < 10 then [DigitChar(n)] else NatToString(n / 10) + [DigitChar(n % 10)]
  }

  /** `String(i)` (and `${i}`) for an integer: an optional minus sign and the decimal digits. */
  function IntToString(i: int): string {
    if i < 0 then "-" + NatToString(-i) else NatToString(i)
  }

  lemma {:induction false} DecimalValueOfNatToString(n: nat)
    ensures DecimalValue(NatToString(n)) == n
  {
    var s := NatToString(n);
    if n >= 10 {
      assert s[..|s| - 1] == NatToString(n / 10);
      DecimalValueOfNatToString(n / 10);
    }
  }

  lemma {:induction false} LeadingDigitsOfPrefix(ds: string, rest: string)
    requires AllDigits(ds)
    requires rest == [] || !IsDigit(rest[0])
    ensures LeadingDigits(ds + rest) == ds
  {
    if |ds| > 0 {
      assert (ds + rest)[1..] == ds[1..] + rest;
      LeadingDigitsOfPrefix(ds[1..], rest);
    }
  }

  /** The unsigned reading of a rendered number followed by text that is not a digit or `x`. */
  lemma ParseMagnitudeOfNumberPrefix(n: nat, rest: string)
    requires rest == [] || (!IsDigit(rest[0]) && rest[0] != 'x' && rest[0] != 'X')
    ensures ParseMagnitude(NatToString(n) + rest) == Some(n)
  {
    var digits := NatToString(n);
    var u := digits + rest;
    assert !(|u| >= 2 && u[0] == '0' && (u[1] == 'x' || u[1] == 'X')) by {
      if |digits| >= 2 {
        assert u[1] == digits[1] && IsDigit(digits[1]);
      } else if |u| >= 2 {
        assert u[1] == rest[0];
      }
    }
    LeadingDigitsOfPrefix(digits, rest);
    DecimalValueOfNatToString(n);
  }

  /** A string that starts with a non-whitespace character is its own `trimStart`. */
  lemma TrimStartNoWhitespace(s: string)
    requires s != [] && !IsJsWhitespace(s[0])
    ensures TrimStart(s) == s
  {
  }

  /**
   * `parseInt` stops at the first character that is not a digit: a number rendered in
   * front of other text is read back from it.
   */
  lemma ParseIntOfNumberPrefix(n: nat, rest: string)
    requires rest == [] || (!IsDigit(rest[0]) && rest[0] != 'x' && rest[0] != 'X')
    ensures ParseInt(NatToString(n) + rest) == Some(n)
  {
    var u := NatToString(n) + rest;
    assert u[0] == NatToString(n)[0] && IsDigit(u[0]);
    TrimStartNoWhitespace(u);
    ParseMagnitudeOfNumberPrefix(n, rest);
  }

  /** `parseInt` reads back exactly the integer that `String` renders. */
  lemma ParseIntOfIntToString(i: int)
    ensures ParseInt(IntToString(i)) == Some(i)
  {
    if i >= 0 {
      ParseIntOfNumberPrefix(i, "");
      assert NatToString(i) + "" == NatToString(i);
    } else {
      var s := IntToString(i);
      assert s == "-" + NatToString(-i);
      TrimStartNoWhitespace(s);
      assert s[1..] == NatToString(-i) + "";
      ParseMagnitudeOfNumberPrefix(-i, "");
    }
  }

  /** The text a template literal shows for a string that may be `undefined`. */
  function TemplateText(o: Option<string>): string {
    match o
    case Some(s) => s
    case None => "undefined"
  }

  /** The text a template literal shows for an integer that may be `undefined`. */
  function TemplateNumber(o: Option<int>): string {
    match o
    case Some(n) => IntToString(n)
    case None => "undefined"
  }
}
