/**
 * The pieces of Rust's `str` and integer-formatting API that the core relies on:
 * `join`, `split`, `trim`, `trim_end_matches`, `ends_with`, `eq_ignore_ascii_case`,
 * `i64::to_string` and `str::parse::<i64>`. Strings are sequences of Unicode
 * scalar values, as Rust's `char`s are.
 */
module Strs {
  import opened Wrappers

  /** `parts.join(sep)`: the parts with `sep` between neighbours. */
  function Join(parts: seq<string>, sep: string): string
  {
    if |parts| == 0 then ""
    else if |parts| == 1 then parts[0]
    else parts[0] + sep + Join(parts[1..], sep)
  }

  /** `s.split(sep)`: the maximal pieces between occurrences of `sep`; never empty. */
  function Split(s: string, sep: char): (r: seq<string>)
    ensures |r| >= 1
  {
    if |s| == 0 then [""]
    else
      var rest := Split(s[1..], sep);
      if s[0] == sep then [""] + rest
      else [[s[0]] + rest[0]] + rest[1..]
  }

  /** Splitting `p + t` where `p` holds no separator glues `p` onto the first piece of `t`. */
  lemma {:induction false} SplitAfterPlainPrefix(p: string, t: string, sep: char)
    requires sep !in p
    ensures Split(p + t, sep) == [p + Split(t, sep)[0]] + Split(t, sep)[1..]
  {
    if |p| > 0 {
      assert (p + t)[1..] == p[1..] + t;
      SplitAfterPlainPrefix(p[1..], t, sep);
      assert [p[0]] + (p[1..] + Split(t, sep)[0]) == p + Split(t, sep)[0];
    } else {
      var r := Split(t, sep);
      assert p + t == t && p + r[0] == r[0];
      assert r == [r[0]] + r[1..];
    }
  }

  /** Splitting a join undoes it, when no part contains the separator. */
  lemma {:induction false} SplitJoin(parts: seq<string>, sep: char)
    requires |parts| >= 1
    requires forall i :: 0 <= i < |parts| ==> sep !in parts[i]
    ensures Split(Join(parts, [sep]), sep) == parts
  {
    if |parts| == 1 {
      SplitAfterPlainPrefix(parts[0], "", sep);
      assert parts[0] + "" == parts[0];
    } else {
      var rest := Join(parts[1..], [sep]);
      SplitJoin(parts[1..], sep);
      assert Join(parts, [sep]) == parts[0] + ([sep] + rest);
      SplitAfterPlainPrefix(parts[0], [sep] + rest, sep);
      assert ([sep] + rest)[1..] == rest;
      assert Split([sep] + rest, sep) == [""] + parts[1..];
      assert parts[0] + "" == parts[0];
    }
  }

  /** Unicode White_Space, the set `char::is_whitespace` (and so `str::trim`) uses. */
  predicate IsWhitespace(c: char)
  {
    ('\t' <= c <= '\r') || c == ' ' || c == '\U{85}' || c == '\U{A0}' || c == '\U{1680}'
    || ('\U{2000}' <= c <= '\U{200A}') || c == '\U{2028}' || c == '\U{2029}'
    || c == '\U{202F}' || c == '\U{205F}' || c == '\U{3000}'
  }

  function TrimStart(s: string): (r: string)
    ensures |r| <= |s| && r == s[|s| - |r|..]
    ensures |r| > 0 ==> !IsWhitespace(r[0])
  {
    if |s| > 0 && IsWhitespace(s[0]) then TrimStart(s[1..]) else s
  }

  function TrimEnd(s: string): (r: string)
    ensures |r| <= |s| && r == s[..|r|]
    ensures |r| > 0 ==> !IsWhitespace(r[|r| - 1])
  {
    if |s| > 0 && IsWhitespace(s[|s| - 1]) then TrimEnd(s[..|s| - 1]) else s
  }

  /** `s.trim()`. */
  function Trim(s: string): string
  {
    TrimEnd(TrimStart(s))
  }

  /** A string with whitespace at neither end is its own trim. */
  lemma TrimNoWhitespace(s: string)
    requires forall i :: 0 <= i < |s| ==> !IsWhitespace(s[i])
    ensures Trim(s) == s
  {
  }

  /** `s.trim_end_matches(c)`: `s` without every trailing `c`. */
  function TrimEndMatches(s: string, c: char): (r: string)
    ensures |r| <= |s| && r == s[..|r|]
    ensures |r| > 0 ==> r[|r| - 1] != c
    ensures forall i :: |r| <= i < |s| ==> s[i] == c
  {
    if |s| > 0 && s[|s| - 1] == c then TrimEndMatches(s[..|s| - 1], c) else s
  }

  predicate StartsWith(s: string, prefix: string)
  {
    |prefix| <= |s| && s[..|prefix|] == prefix
  }

  predicate EndsWith(s: string, suffix: string)
  {
    |suffix| <= |s| && s[|s| - |suffix|..] == suffix
  }

  /** ASCII letters folded to lower case; every other character kept. */
  function AsciiLower(c: char): char
  {
    if 'A' <= c <= 'Z' then (c as int + 32) as char else c
  }

  /**
   * `a.eq_ignore_ascii_case(b)`. Rust compares the UTF-8 bytes after folding ASCII
   * letters; since folding never touches the bytes of a multi-byte character, this
   * is the same as comparing characters after folding.
   */
  predicate EqIgnoreAsciiCase(a: string, b: string)
  {
    |a| == |b| && forall i :: 0 <= i < |a| ==> AsciiLower(a[i]) == AsciiLower(b[i])
  }

  // ---- decimal integers ----

  const I64_MIN: int := -0x8000_0000_0000_0000
  const I64_MAX: int := 0x7FFF_FFFF_FFFF_FFFF

  predicate IsDigit(c: char)
  {
    '0' <= c <= '9'
  }

  predicate AllDigits(s: string)
  {
    forall i :: 0 <= i < |s| ==> IsDigit(s[i])
  }

  function DigitChar(d: nat): (c: char)
    requires d < 10
    ensures IsDigit(c)
  {
    ('0' as int + d) as char
  }

  /** Decimal digits of `n`, without leading zeros ("0" for zero). */
  function NatToString(n: nat): (r: string)
    ensures |r| >= 1 && AllDigits(r)
  {
    if n < 10 then [DigitChar(n)] else NatToString(n / 10) + [DigitChar(n % 10)]
  }

  /** The value of a string of decimal digits, leading zeros allowed. */
  function DigitsValue(s: string): nat
    requires AllDigits(s)
  {
    if |s| == 0 then 0 else DigitsValue(s[..|s| - 1]) * 10 + (s[|s| - 1] as int - '0' as int)
  }

  lemma {:induction false} DigitsValueOfNat(n: nat)
    ensures DigitsValue(NatToString(n)) == n
  {
    if n >= 10 {
      var s := NatToString(n);
      assert s[..|s| - 1] == NatToString(n / 10);
      DigitsValueOfNat(n / 10);
    }
  }

  /** `i64::to_string`: a minus sign for negatives, then the digits of the magnitude. */
  function I64ToString(x: int): (r: string)
    ensures |r| >= 1
    ensures forall i :: 0 <= i < |r| ==> r[i] != ',' && !IsWhitespace(r[i])
  {
    if x < 0 then "-" + NatToString(-x) else NatToString(x)
  }

  /**
   * `s.parse::<i64>()`: an optional `+` or `-`, then one or more ASCII digits, and a
   * value within the range of `i64`; anything else is an error (here `None`).
   */
  function ParseI64(s: string): (r: Option<int>)
    ensures r.Some? ==> I64_MIN <= r.value <= I64_MAX
    ensures r.Some? ==> |s| > 0
  {
    if |s| == 0 then None
    else
      var neg := s[0] == '-';
      var digits := if s[0] == '-' || s[0] == '+' then s[1..] else s;
      if |digits| == 0 || !AllDigits(digits) then None
      else
        var mag: int := DigitsValue(digits);
        var v := if neg then 0 - mag else mag;
        if I64_MIN <= v <= I64_MAX then Some(v) else None
  }

  /** Parsing a formatted `i64` gives it back. */
  lemma ParseFormatted(x: int)
    requires I64_MIN <= x <= I64_MAX
    ensures ParseI64(I64ToString(x)) == Some(x)
  {
    if x < 0 {
      assert ("-" + NatToString(-x))[1..] == NatToString(-x);
      DigitsValueOfNat(-x);
    } else {
      DigitsValueOfNat(x);
    }
  }

  /** The number of occurrences of `c` in `s`. */
  function CountChar(s: string, c: char): nat
  {
    if |s| == 0 then 0 else (if s[0] == c then 1 else 0) + CountChar(s[1..], c)
  }

  /** `split` yields exactly one more piece than there are separators. */
  lemma {:induction false} SplitCount(s: string, sep: char)
    ensures |Split(s, sep)| == CountChar(s, sep) + 1
  {
    if |s| > 0 {
      SplitCount(s[1..], sep);
    }
  }

  /**
   * The characters percent-encoding lets through: the unreserved characters of
   * section 2.3 of RFC 3986, and '%' (its hexadecimal digits are letters or digits).
   */
  predicate UrlSafe(c: char)
  {
    ('a' <= c <= 'z') || ('A' <= c <= 'Z') || ('0' <= c <= '9')
    || c == '-' || c == '.' || c == '_' || c == '~' || c == '%'
  }

  /** What `urlencoding::encode` promises: every character it emits is URL-safe. */
  ghost predicate PercentEncoder(encode: string -> string)
  {
    forall s: string, i :: 0 <= i < |encode(s)| ==> UrlSafe(encode(s)[i])
  }

  /** A character percent-encoding never lets through does not occur in its output. */
  lemma EncodedLacks(encode: string -> string, s: string, c: char)
    requires PercentEncoder(encode) && !UrlSafe(c)
    ensures c !in encode(s)
  {
    forall i | 0 <= i < |encode(s)|
      ensures encode(s)[i] != c
    {
      assert UrlSafe(encode(s)[i]);
    }
  }
}
