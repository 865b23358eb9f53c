/** The string primitives the core relies on: JavaScript's `parseInt` (used to
    read route durations) and Python's `str.split`, `str.strip`, `str.lower`
    and `int` (used to read departure times). White space follows Unicode,
    as both languages define it; `Lower` and the digits `int` accepts are
    ASCII only. */
module Strings {
  import opened Wrappers

  // ---------------------------------------------------------------------
  // Digits and numerals

  predicate IsDecimalDigit(c: char) { '0' <= c <= '9' }

  predicate IsHexDigit(c: char) {
    IsDecimalDigit(c) || 'a' <= c <= 'f' || 'A' <= c <= 'F'
  }

  function DigitValue(c: char): (v: nat)
    requires IsHexDigit(c)
    ensures IsDecimalDigit(c) ==> v < 10
    ensures v < 16
  {
    if IsDecimalDigit(c) then c as int - '0' as int
    else if 'a' <= c <= 'f' then c as int - 'a' as int + 10
    else c as int - 'A' as int + 10
  }

  /** The value of a numeral in base `base`, read most significant digit first. */
  function NumeralValue(ds: string, base: nat): nat
    requires forall i :: 0 <= i < |ds| ==> IsHexDigit(ds[i])
  {
    if |ds| == 0 then 0
    else NumeralValue(ds[..|ds| - 1], base) * base + DigitValue(ds[|ds| - 1])
  }

  function DigitChar(d: nat): (c: char)
    requires d < 10
    ensures IsDecimalDigit(c) && DigitValue(c) == d
  {
    ('0' as int + d) as char
  }

  /** The canonical decimal numeral of `n`, without leading zeros. */
  function NatToString(n: nat): (s: string)
    ensures |s| >= 1
    ensures forall i :: 0 <= i < |s| ==> IsDecimalDigit(s[i])
    decreases n
  {
    if n < 10 then [DigitChar(n)] else NatToString(n / 10) + [DigitChar(n % 10)]
  }

  lemma {:induction false} NatToStringValue(n: nat)
    ensures NumeralValue(NatToString(n), 10) == n
    decreases n
  {
    var s := NatToString(n);
    if n >= 10 {
      NatToStringValue(n / 10);
      assert s[..|s| - 1] == NatToString(n / 10);
    }
  }

  /** The longest prefix of `s` made of digits (hexadecimal ones when `hex`). */
  function DigitPrefix(s: string, hex: bool): (p: string)
    ensures p <= s
    ensures forall i :: 0 <= i < |p| ==> (if hex then IsHexDigit(p[i]) else IsDecimalDigit(p[i]))
    ensures |p| < |s| ==> !(if hex then IsHexDigit(s[|p|]) else IsDecimalDigit(s[|p|]))
  {
    if |s| > 0 && (if hex then IsHexDigit(s[0]) else IsDecimalDigit(s[0]))
    then [s[0]] + DigitPrefix(s[1..], hex)
    else []
  }

  lemma {:induction false} DigitPrefixOfNumeral(ds: string, rest: string)
    requires forall i :: 0 <= i < |ds| ==> IsDecimalDigit(ds[i])
    requires |rest| > 0 ==> !IsDecimalDigit(rest[0])
    ensures DigitPrefix(ds + rest, false) == ds
  {
    if |ds| > 0 {
      assert (ds + rest)[1..] == ds[1..] + rest;
      DigitPrefixOfNumeral(ds[1..], rest);
    } else {
      assert ds + rest == rest;
    }
  }

  // ---------------------------------------------------------------------
  // JavaScript parseInt(s) with no radix

  /** The white space that JavaScript's `parseInt` skips: the format and
      space separator characters of ECMAScript's WhiteSpace (every Unicode
      "Zs" character among them) and its LineTerminators. */
  predicate IsJsSpace(c: char) {
    c == ' ' || c == '\t' || c == '\n' || c == '\r' || c == '\U{B}' || c == '\U{C}'
    || c == '\U{A0}' || c == '\U{1680}' || ('\U{2000}' <= c <= '\U{200A}')
    || c == '\U{2028}' || c == '\U{2029}' || c == '\U{202F}' || c == '\U{205F}'
    || c == '\U{3000}' || c == '\U{FEFF}'
  }

  function SkipJsSpace(s: string): (t: string)
    ensures |t| <= |s| && t == s[|s| - |t|..]
    ensures forall i :: 0 <= i < |s| - |t| ==> IsJsSpace(s[i])
    ensures |t| > 0 ==> !IsJsSpace(t[0])
  {
    if |s| > 0 && IsJsSpace(s[0]) then SkipJsSpace(s[1..]) else s
  }

  /** `parseInt(s)`: leading white space, an optional sign, an optional `0x`
      prefix (hexadecimal), then the longest run of digits. `None` stands for
      `NaN`, the result when there is no digit at all. */
  function JsParseInt(s: string): Option<int> {
    JsParseSigned(SkipJsSpace(s))
  }

  /** After the white space: an optional sign. */
  function JsParseSigned(t: string): Option<int> {
    if |t| > 0 && (t[0] == '-' || t[0] == '+') then
      match JsParseUnsigned(t[1..])
      case None => None
      case Some(v) => Some(if t[0] == '-' then -v else v)
    else JsParseUnsigned(t)
  }

  /** After the sign: `0x` selects base 16, then the leading digits. */
  function JsParseUnsigned(u: string): Option<int> {
    var hex := |u| >= 2 && u[0] == '0' && (u[1] == 'x' || u[1] == 'X');
    var ds := DigitPrefix(if hex then u[2..] else u, hex);
    if |ds| == 0 then None else Some(NumeralValue(ds, if hex then 16 else 10))
  }

  /** parseInt reads back every canonical decimal numeral. */
  lemma JsParseIntOfNumeral(n: nat)
    ensures JsParseInt(NatToString(n)) == Some(n)
  {
    JsParseIntOfDigits(NatToString(n));
    NatToStringValue(n);
  }

  /** parseInt of a non-empty run of decimal digits is its value. */
  lemma JsParseIntOfDigits(s: string)
    requires |s| >= 1 && forall i :: 0 <= i < |s| ==> IsDecimalDigit(s[i])
    ensures JsParseInt(s) == Some(NumeralValue(s, 10))
  {
    SkipJsSpaceOfDigits(s);
    JsParseSignedOfDigits(s);
  }

  /** A numeral does not start with white space. */
  lemma SkipJsSpaceOfDigits(s: string)
    requires |s| >= 1 && IsDecimalDigit(s[0])
    ensures SkipJsSpace(s) == s
  {
    assert !IsJsSpace(s[0]);
  }

  lemma JsParseSignedOfDigits(s: string)
    requires |s| >= 1 && forall i :: 0 <= i < |s| ==> IsDecimalDigit(s[i])
    ensures JsParseSigned(s) == Some(NumeralValue(s, 10))
  {
    assert IsDecimalDigit(s[0]);
    JsParseUnsignedOfDigits(s);
  }

  lemma JsParseUnsignedOfDigits(s: string)
    requires |s| >= 1 && forall i :: 0 <= i < |s| ==> IsDecimalDigit(s[i])
    ensures JsParseUnsigned(s) == Some(NumeralValue(s, 10))
  {
    assert !(|s| >= 2 && s[0] == '0' && (s[1] == 'x' || s[1] == 'X')) by {
      if |s| >= 2 { assert IsDecimalDigit(s[1]); }
    }
    DigitPrefixOfNumeral(s, []);
    assert s + [] == s;
  }

  // ---------------------------------------------------------------------
  // Python str methods

  /** The characters Python's `str.isspace` accepts, which `str.strip` and
      `int` treat as white space: the Unicode space
      separators and the characters of bidirectional class WS, B or S. */
  predicate IsPySpace(c: char) {
    c == ' ' || c == '\t' || c == '\n' || c == '\r' || c == '\U{B}' || c == '\U{C}'
    || c == '\U{1C}' || c == '\U{1D}' || c == '\U{1E}' || c == '\U{1F}'
    || c == '\U{85}' || c == '\U{A0}' || c == '\U{1680}' || ('\U{2000}' <= c <= '\U{200A}')
    || c == '\U{2028}' || c == '\U{2029}' || c == '\U{202F}' || c == '\U{205F}' || c == '\U{3000}'
  }

  function TrimStart(s: string): (t: string)
    ensures |t| <= |s| && t == s[|s| - |t|..]
    ensures forall i :: 0 <= i < |s| - |t| ==> IsPySpace(s[i])
    ensures |t| > 0 ==> !IsPySpace(t[0])
  {
    if |s| > 0 && IsPySpace(s[0]) then TrimStart(s[1..]) else s
  }

  function TrimEnd(s: string): (t: string)
    ensures |t| <= |s| && t == s[..|t|]
    ensures forall i :: |t| <= i < |s| ==> IsPySpace(s[i])
    ensures |t| > 0 ==> !IsPySpace(t[|t| - 1])
  {
    if |s| > 0 && IsPySpace(s[|s| - 1]) then TrimEnd(s[..|s| - 1]) else s
  }

  /** Python's `s.strip()`. */
  function Strip(s: string): string {
    TrimEnd(TrimStart(s))
  }

  /** Position k of the stripped text is position |s| - |TrimStart(s)| + k
      of the text. */
  lemma StripAt(s: string, k: int)
    requires 0 <= k < |Strip(s)|
    ensures 0 <= |s| - |TrimStart(s)| + k < |s| && Strip(s)[k] == s[|s| - |TrimStart(s)| + k]
  {
  }

  /** `s.strip() == ""` exactly when every character of `s` is white space. */
  lemma StripEmptyIffBlank(s: string)
    ensures Strip(s) == "" <==> forall i :: 0 <= i < |s| ==> IsPySpace(s[i])
  {
    var t := TrimStart(s);
    if Strip(s) == "" {
      assert |t| == 0;
    } else {
      var r := Strip(s);
      assert !IsPySpace(r[|r| - 1]);
      assert r[|r| - 1] == s[|s| - |t| + |r| - 1];
    }
  }

  function LowerChar(c: char): char {
    if 'A' <= c <= 'Z' then (c as int + 32) as char else c
  }

  /** Python's `s.lower()`, restricted to ASCII letters. */
  function Lower(s: string): (t: string)
    ensures |t| == |s|
    ensures forall i :: 0 <= i < |s| ==> t[i] == LowerChar(s[i])
  {
    if |s| == 0 then [] else [LowerChar(s[0])] + Lower(s[1..])
  }

  /** Python's `s.split(sep)` for a one-character separator: the pieces between
      separators, empty ones included. */
  function Split(s: string, sep: char): (r: seq<string>)
    ensures |r| >= 1
  {
    if |s| == 0 then [""]
    else
      var rest := Split(s[1..], sep);
      if s[0] == sep then [""] + rest
      else [[s[0]] + rest[0]] + rest[1..]
  }

  /** `sep.join(parts)`. */
  function Join(parts: seq<string>, sep: char): string
    requires |parts| >= 1
  {
    if |parts| == 1 then parts[0] else parts[0] + [sep] + Join(parts[1..], sep)
  }

  function Count(s: string, c: char): nat {
    if |s| == 0 then 0 else (if s[0] == c then 1 else 0) + Count(s[1..], c)
  }

  /** Splitting loses nothing: joining the pieces gives the string back, no
      piece contains the separator, and there is one more piece than there are
      separators. */
  lemma {:induction false} SplitJoin(s: string, sep: char)
    ensures Join(Split(s, sep), sep) == s
    ensures forall k :: 0 <= k < |Split(s, sep)| ==> sep !in Split(s, sep)[k]
    ensures |Split(s, sep)| == Count(s, sep) + 1
  {
    if |s| > 0 {
      SplitJoin(s[1..], sep);
      var rest := Split(s[1..], sep);
      if s[0] == sep {
        assert Split(s, sep)[1..] == rest;
      } else {
        var r := Split(s, sep);
        assert r[1..] == rest[1..];
        if |rest| > 1 {
          assert rest[1..][1..] == rest[2..];
          assert Join(rest, sep) == rest[0] + [sep] + Join(rest[1..], sep);
        }
        assert s == [s[0]] + s[1..];
      }
    }
  }

  /** With no separator in `s`, splitting gives `s` alone. */
  lemma {:induction false} SplitWithoutSeparator(s: string, sep: char)
    requires sep !in s
    ensures Split(s, sep) == [s]
  {
    if |s| > 0 {
      assert sep !in s[1..];
      SplitWithoutSeparator(s[1..], sep);
      assert [s[0]] + s[1..] == s;
    }
  }

  /** Splitting `a + [sep] + b` where `a` holds no separator: `a`, then the
      pieces of `b`. */
  lemma {:induction false} SplitAtFirst(a: string, b: string, sep: char)
    requires sep !in a
    ensures Split(a + [sep] + b, sep) == [a] + Split(b, sep)
  {
    if |a| == 0 {
      assert a + [sep] + b == [sep] + b;
      assert ([sep] + b)[1..] == b;
    } else {
      assert (a + [sep] + b)[1..] == a[1..] + [sep] + b;
      assert sep !in a[1..];
      SplitAtFirst(a[1..], b, sep);
      assert [a[0]] + a[1..] == a;
    }
  }

  /** Python's `int(s)` on a string: surrounding white space, an optional sign,
      then one or more decimal digits and nothing else. */
  function PyInt(s: string): Option<int> {
    PySigned(Strip(s))
  }

  /** After stripping: an optional sign. */
  function PySigned(t: string): Option<int> {
    if |t| > 0 && (t[0] == '-' || t[0] == '+') then
      match PyUnsigned(t[1..])
      case None => None
      case Some(v) => Some(if t[0] == '-' then -v else v)
    else PyUnsigned(t)
  }

  /** After the sign: one or more decimal digits and nothing else. */
  function PyUnsigned(u: string): Option<int> {
    if |u| > 0 && forall i :: 0 <= i < |u| ==> IsDecimalDigit(u[i]) then
      Some(NumeralValue(u, 10))
    else None
  }

  /** int() accepts only text that holds a digit. */
  lemma PyIntHasDigit(s: string)
    ensures PyInt(s).Some? ==> exists i :: 0 <= i < |s| && IsDecimalDigit(s[i])
  {
    var t := Strip(s);
    if PyInt(s).Some? {
      var k := if t[0] == '-' || t[0] == '+' then 1 else 0;
      assert IsDecimalDigit(t[k]);
      StripAt(s, k);
    }
  }

  /** int() reads back every canonical decimal numeral. */
  lemma PyIntOfNumeral(n: nat)
    ensures PyInt(NatToString(n)) == Some(n)
  {
    PyIntOfDigits(NatToString(n));
    NatToStringValue(n);
  }

  /** int() of a non-empty run of decimal digits is its value. */
  lemma PyIntOfDigits(s: string)
    requires |s| >= 1 && forall i :: 0 <= i < |s| ==> IsDecimalDigit(s[i])
    ensures PyInt(s) == Some(NumeralValue(s, 10))
  {
    StripOfDigits(s);
    PySignedOfDigits(s);
  }

  lemma PySignedOfDigits(s: string)
    requires |s| >= 1 && forall i :: 0 <= i < |s| ==> IsDecimalDigit(s[i])
    ensures PySigned(s) == Some(NumeralValue(s, 10))
  {
    assert IsDecimalDigit(s[0]);
  }

  /** A run of digits has no surrounding white space. */
  lemma StripOfDigits(s: string)
    requires |s| >= 1 && forall i :: 0 <= i < |s| ==> IsDecimalDigit(s[i])
    ensures Strip(s) == s
  {
    assert TrimStart(s) == s by { assert IsDecimalDigit(s[0]); }
    assert TrimEnd(s) == s by { assert IsDecimalDigit(s[|s| - 1]); }
  }

  /** Python's `sep.join(parts)`, which is "" for no parts. */
  function PyJoin(parts: seq<string>, sep: char): string {
    if |parts| == 0 then "" else Join(parts, sep)
  }

  /** Joining pieces that hold no separator and splitting again gives the
      pieces back. */
  lemma {:induction false} SplitOfJoin(parts: seq<string>, sep: char)
    requires |parts| >= 1
    requires forall k :: 0 <= k < |parts| ==> sep !in parts[k]
    ensures Split(Join(parts, sep), sep) == parts
  {
    if |parts| == 1 {
      SplitWithoutSeparator(parts[0], sep);
    } else {
      SplitOfJoin(parts[1..], sep);
      SplitAtFirst(parts[0], Join(parts[1..], sep), sep);
      assert [parts[0]] + parts[1..] == parts;
    }
  }

  /** Python's `str(n)` / f"{n}" of an int. */
  function IntToString(n: int): (s: string)
    ensures |s| >= 1
  {
    if n < 0 then "-" + NatToString(-n) else NatToString(n)
  }
}
