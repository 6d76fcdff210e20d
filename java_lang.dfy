/**
 * The parts of the Java runtime library whose exact behaviour the modelled code
 * depends on: 32-bit `int` arithmetic, `String` operations, `Integer.parseInt`
 * and `String.valueOf(int)`. Strings are sequences of characters, compared
 * through their UTF-16 code units as Java does; lower-casing covers the ASCII
 * letters and digits are the ASCII digits.
 */
module JavaLang {
  import opened Wrappers

  const INT_MIN: int := -0x8000_0000
  const INT_MAX: int := 0x7FFF_FFFF
  const TWO_TO_32: int := 0x1_0000_0000

  /** The values of a Java `int`. */
  predicate IsInt(x: int) {
    INT_MIN <= x <= INT_MAX
  }

  /** Java `int` arithmetic: the exact result reduced into the 32-bit two's-complement range. */
  function Wrap32(x: int): (r: int)
    ensures IsInt(r)
    ensures (x - r) % TWO_TO_32 == 0
    ensures IsInt(x) ==> r == x
  {
    var q := (x - INT_MIN) / TWO_TO_32;
    assert x - INT_MIN == q * TWO_TO_32 + (x - INT_MIN) % TWO_TO_32;
    assert x - ((x - INT_MIN) % TWO_TO_32 + INT_MIN) == q * TWO_TO_32;
    (x - INT_MIN) % TWO_TO_32 + INT_MIN
  }

  // ---------------------------------------------------------------------------
  // String searching

  predicate StartsWith(s: string, prefix: string) {
    |prefix| <= |s| && s[..|prefix|] == prefix
  }

  predicate EndsWith(s: string, suffix: string) {
    |suffix| <= |s| && s[|s| - |suffix|..] == suffix
  }

  /** `s.indexOf(c)`: the first position of `c` in `s`, or -1. */
  function IndexOf(s: string, c: char): (r: int)
    ensures r == -1 <==> c !in s
    ensures r != -1 ==> 0 <= r < |s| && s[r] == c && c !in s[..r]
  {
    if |s| == 0 then -1
    else if s[0] == c then 0
    else
      var k := IndexOf(s[1..], c);
      if k == -1 then -1
      else
        assert s[..k + 1] == [s[0]] + s[1..][..k];
        k + 1
  }

  /** `s.lastIndexOf(c)`: the last position of `c` in `s`, or -1. */
  function LastIndexOf(s: string, c: char): (r: int)
    ensures r == -1 <==> c !in s
    ensures r != -1 ==> 0 <= r < |s| && s[r] == c && c !in s[r + 1..]
  {
    if |s| == 0 then -1
    else if s[|s| - 1] == c then |s| - 1
    else
      var r := LastIndexOf(s[..|s| - 1], c);
      assert r != -1 ==> s[r + 1..] == s[..|s| - 1][r + 1..] + [s[|s| - 1]];
      assert s == s[..|s| - 1] + [s[|s| - 1]];
      r
  }

  /** The text before the first `c`, or all of `s` when `c` does not occur. */
  function Before(s: string, c: char): (r: string)
    ensures c !in r
    ensures |r| <= |s| && r == s[..|r|]
    ensures c in s ==> |r| < |s| && s[|r|] == c
  {
    var k := IndexOf(s, c);
    if k == -1 then s else s[..k]
  }

  // ---------------------------------------------------------------------------
  // Case and white space

  /** `Character.toLowerCase` on the ASCII letters. */
  function LowerChar(c: char): char {
    if 'A' <= c <= 'Z' then (c as int + 32) as char else c
  }

  /** `s.toLowerCase()`, character by character. */
  function ToLower(s: string): (r: string)
    ensures |r| == |s|
    ensures forall i :: 0 <= i < |r| ==> !('A' <= r[i] <= 'Z')
    ensures forall i :: 0 <= i < |s| && !('A' <= s[i] <= 'Z') ==> r[i] == s[i]
    ensures forall i :: 0 <= i < |s| && 'A' <= s[i] <= 'Z' ==> r[i] == (s[i] as int + 32) as char
  {
    seq(|s|, i requires 0 <= i < |s| => LowerChar(s[i]))
  }

  /** The first index at or after `i` whose character `trim` keeps (`|s|` if none). */
  function TrimStart(s: string, i: nat): (k: nat)
    requires i <= |s|
    ensures i <= k <= |s|
    ensures forall j :: i <= j < k ==> s[j] <= ' '
    ensures k < |s| ==> s[k] > ' '
    decreases |s| - i
  {
    if i < |s| && s[i] <= ' ' then TrimStart(s, i + 1) else i
  }

  /** One past the last index below `j` and at or after `lo` whose character `trim` keeps (`lo` if none). */
  function TrimEnd(s: string, lo: nat, j: nat): (e: nat)
    requires lo <= j <= |s|
    ensures lo <= e <= j
    ensures forall m :: e <= m < j ==> s[m] <= ' '
    ensures e > lo ==> s[e - 1] > ' '
    decreases j
  {
    if j > lo && s[j - 1] <= ' ' then TrimEnd(s, lo, j - 1) else j
  }

  /**
   * `s.trim()`: the characters from the first to the last one whose code is
   * above that of the space.
   */
  function Trim(s: string): (r: string)
    ensures |r| <= |s|
    ensures r != [] ==> r[0] > ' ' && r[|r| - 1] > ' '
    ensures exists k, e :: 0 <= k <= e <= |s| && r == s[k..e] && IsBlank(s[..k]) && IsBlank(s[e..])
  {
    var start := TrimStart(s, 0);
    var end := TrimEnd(s, start, |s|);
    assert IsBlank(s[..start]) && IsBlank(s[end..]);
    s[start..end]
  }

  /** True when every character of `s` is one that `trim` removes. */
  predicate IsBlank(s: string) {
    forall i :: 0 <= i < |s| ==> s[i] <= ' '
  }

  /** `trim` gives the empty string exactly for strings made only of removable characters. */
  lemma TrimEmptyIffBlank(s: string)
    ensures Trim(s) == [] <==> IsBlank(s)
  {
    var start := TrimStart(s, 0);
    if start < |s| {
      assert TrimEnd(s, start, |s|) > start;
    }
  }

  /** A string without removable characters is left as it is by `trim`. */
  lemma TrimOfUnpadded(s: string)
    requires forall i :: 0 <= i < |s| ==> s[i] > ' '
    ensures Trim(s) == s
  {
    assert TrimStart(s, 0) == 0;
    if |s| > 0 {
      assert TrimEnd(s, 0, |s|) == |s|;
    }
  }

  // ---------------------------------------------------------------------------
  // Integer.parseInt and String.valueOf(int)

  predicate IsDigit(c: char) {
    '0' <= c <= '9'
  }

  /** Every character of `ds` is a decimal digit, checked from the last one back. */
  predicate AllDigits(ds: string) {
    |ds| == 0 || (AllDigits(ds[..|ds| - 1]) && IsDigit(ds[|ds| - 1]))
  }

  /** A single character that is not a digit makes `AllDigits` false. */
  lemma {:induction false} NonDigitBreaksAllDigits(ds: string, k: int)
    requires 0 <= k < |ds| && !IsDigit(ds[k])
    ensures !AllDigits(ds)
  {
    if k < |ds| - 1 {
      NonDigitBreaksAllDigits(ds[..|ds| - 1], k);
    }
  }

  /** The decimal value of a string of digits, read left to right. */
  function DigitsValue(ds: string): nat
    requires AllDigits(ds)
  {
    if |ds| == 0 then 0
    else DigitsValue(ds[..|ds| - 1]) * 10 + (ds[|ds| - 1] as int - '0' as int)
  }

  /**
   * `Integer.parseInt(s)`: an optional `-` or `+` followed by at least one
   * decimal digit, whose value fits in an `int`. `None` stands for the
   * NumberFormatException thrown otherwise.
   */
  function ParseInt(s: string): (r: Option<int>)
    ensures r.Some? ==> IsInt(r.value)
  {
    if |s| == 0 then None
    else
      var digits := if s[0] == '-' || s[0] == '+' then s[1..] else s;
      if |digits| == 0 || !AllDigits(digits) then None
      else
        var magnitude: int := DigitsValue(digits);
        var v := if s[0] == '-' then -magnitude else magnitude;
        if IsInt(v) then Some(v) else None
  }

  /** `Integer.parseInt` on a reference that may be null (null throws NumberFormatException). */
  function ParseNullable(s: Option<string>): (r: Option<int>)
    ensures s.None? ==> r.None?
    ensures r.Some? ==> IsInt(r.value)
  {
    if s.None? then None else ParseInt(s.value)
  }

  function DigitChar(d: nat): (c: char)
    requires d < 10
    ensures IsDigit(c) && c as int - '0' as int == d
  {
    ('0' as int + d) as char
  }

  /** The decimal digits of `n`, most significant first, without leading zeros. */
  function NatToString(n: nat): (r: string)
    ensures |r| > 0 && AllDigits(r)
    ensures forall i :: 0 <= i < |r| ==> IsDigit(r[i])
  {
    if n < 10 then
      assert [DigitChar(n)][..0] == [];
      [DigitChar(n)]
    else
      var r := NatToString(n / 10) + [DigitChar(n % 10)];
      assert r[..|r| - 1] == NatToString(n / 10);
      r
  }

  /** `String.valueOf(n)`. */
  function IntToString(n: int): (r: string)
    ensures |r| > 0
    ensures forall i :: 0 <= i < |r| ==> r[i] > ' '
  {
    if n < 0 then "-" + NatToString(-n) else NatToString(n)
  }

  lemma {:induction false} NatToStringValue(n: nat)
    ensures DigitsValue(NatToString(n)) == n
  {
    if n >= 10 {
      NatToStringValue(n / 10);
      var s := NatToString(n);
      assert s[..|s| - 1] == NatToString(n / 10);
    }
  }

  /** `Integer.parseInt(String.valueOf(n)) == n` for every `int`. */
  lemma IntToStringRoundTrip(n: int)
    requires IsInt(n)
    ensures ParseInt(IntToString(n)) == Some(n)
  {
    var s := IntToString(n);
    if n < 0 {
      var t := NatToString(-n);
      NatToStringValue(-n);
      assert s == "-" + t;
      assert s[0] == '-' && s[1..] == t;
    } else {
      var t := NatToString(n);
      NatToStringValue(n);
      assert s == t;
      assert IsDigit(t[0]);
    }
  }

  /** `String.valueOf(n)` has nothing for `trim` to remove. */
  lemma TrimOfIntToString(n: int)
    ensures Trim(IntToString(n)) == IntToString(n)
  {
    TrimOfUnpadded(IntToString(n));
  }

  // ---------------------------------------------------------------------------
  // String.compareTo

  /**
   * The UTF-16 code units of one character: the character itself in the Basic
   * Multilingual Plane, otherwise a high surrogate followed by a low one.
   */
  function Utf16Char(c: char): (r: seq<int>)
    ensures 1 <= |r| <= 2
    ensures forall k :: 0 <= k < |r| ==> 0 <= r[k] < 0x1_0000
    ensures |r| == 2 <==> 0xD800 <= r[0] < 0xDC00
  {
    var v := c as int;
    if v < 0x1_0000 then [v]
    else [0xD800 + (v - 0x1_0000) / 0x400, 0xDC00 + (v - 0x1_0000) % 0x400]
  }

  /** Two characters with the same code units are the same character. */
  lemma Utf16CharInjective(c: char, d: char)
    requires Utf16Char(c) == Utf16Char(d)
    ensures c == d
  {
    var v, w := c as int, d as int;
    if v >= 0x1_0000 {
      assert w >= 0x1_0000;
      assert v - 0x1_0000 == (v - 0x1_0000) / 0x400 * 0x400 + (v - 0x1_0000) % 0x400;
      assert w - 0x1_0000 == (w - 0x1_0000) / 0x400 * 0x400 + (w - 0x1_0000) % 0x400;
    }
  }

  /** The UTF-16 code units of a string, which is what a Java `String` holds. */
  function Utf16(s: string): (r: seq<int>)
    ensures |s| <= |r| <= 2 * |s|
  {
    if s == [] then [] else Utf16Char(s[0]) + Utf16(s[1..])
  }

  /** Strings with the same code units are the same string. */
  lemma {:induction false} Utf16Injective(s: string, t: string)
    requires Utf16(s) == Utf16(t)
    ensures s == t
  {
    if s != [] {
      var a, b := Utf16Char(s[0]), Utf16Char(t[0]);
      assert Utf16(s)[0] == a[0] && Utf16(t)[0] == b[0];
      assert |a| == |b|;
      assert a == Utf16(s)[..|a|] && b == Utf16(t)[..|b|];
      Utf16CharInjective(s[0], t[0]);
      assert Utf16(s[1..]) == Utf16(s)[|a|..] && Utf16(t[1..]) == Utf16(t)[|b|..];
      Utf16Injective(s[1..], t[1..]);
      assert s == [s[0]] + s[1..] && t == [t[0]] + t[1..];
    }
  }

  /**
   * Lexicographic comparison of code-unit sequences: the difference of the
   * first two units that differ, or the difference of the lengths when one is
   * a prefix of the other.
   */
  function CompareUnits(s: seq<int>, t: seq<int>): int {
    if |s| == 0 || |t| == 0 then |s| - |t|
    else if s[0] != t[0] then s[0] - t[0]
    else CompareUnits(s[1..], t[1..])
  }

  /** `s.compareTo(t)`, which compares the strings' UTF-16 code units. */
  function CompareStrings(s: string, t: string): int {
    CompareUnits(Utf16(s), Utf16(t))
  }

  lemma {:induction false} CompareUnitsAntisymmetric(s: seq<int>, t: seq<int>)
    ensures CompareUnits(t, s) == -CompareUnits(s, t)
  {
    if |s| > 0 && |t| > 0 && s[0] == t[0] {
      CompareUnitsAntisymmetric(s[1..], t[1..]);
    }
  }

  lemma {:induction false} CompareUnitsZero(s: seq<int>, t: seq<int>)
    ensures CompareUnits(s, t) == 0 <==> s == t
  {
    if |s| > 0 && |t| > 0 && s[0] == t[0] {
      CompareUnitsZero(s[1..], t[1..]);
      assert s == [s[0]] + s[1..] && t == [t[0]] + t[1..];
    }
  }

  lemma {:induction false} CompareUnitsTransitive(s: seq<int>, t: seq<int>, u: seq<int>)
    requires CompareUnits(s, t) < 0 && CompareUnits(t, u) < 0
    ensures CompareUnits(s, u) < 0
  {
    if |s| > 0 && |t| > 0 && |u| > 0 && s[0] == t[0] == u[0] {
      CompareUnitsTransitive(s[1..], t[1..], u[1..]);
    }
  }

  lemma CompareStringsAntisymmetric(s: string, t: string)
    ensures CompareStrings(t, s) == -CompareStrings(s, t)
  {
    CompareUnitsAntisymmetric(Utf16(s), Utf16(t));
  }

  lemma CompareStringsZero(s: string, t: string)
    ensures CompareStrings(s, t) == 0 <==> s == t
  {
    CompareUnitsZero(Utf16(s), Utf16(t));
    if Utf16(s) == Utf16(t) {
      Utf16Injective(s, t);
    }
  }

  lemma CompareStringsTransitive(s: string, t: string, u: string)
    requires CompareStrings(s, t) < 0 && CompareStrings(t, u) < 0
    ensures CompareStrings(s, u) < 0
  {
    CompareUnitsTransitive(Utf16(s), Utf16(t), Utf16(u));
  }

  /**
   * A character past the Basic Multilingual Plane sorts by its high surrogate:
   * U+10000 comes before U+FFFF, although its scalar value is larger.
   */
  lemma SupplementaryBeforeLastBmpCharacter()
    ensures CompareStrings(['\U{10000}'], ['\U{FFFF}']) == 0xD800 - 0xFFFF
  {
    assert Utf16(['\U{10000}']) == [0xD800, 0xDC00];
    assert Utf16(['\U{FFFF}']) == [0xFFFF];
  }

  // ---------------------------------------------------------------------------
  // String.split

  /** The pieces of `s` between the occurrences of `sep`, keeping every empty piece. */
  function Pieces(s: string, sep: char): (r: seq<string>)
    ensures |r| > 0
    ensures forall i :: 0 <= i < |r| ==> sep !in r[i]
    ensures sep in s ==> |r| > 1
    decreases |s|
  {
    var k := IndexOf(s, sep);
    if k == -1 then [s] else [s[..k]] + Pieces(s[k + 1..], sep)
  }

  /** The pieces joined back with `sep` between them. */
  function Join(pieces: seq<string>, sep: char): string
    requires |pieces| > 0
  {
    if |pieces| == 1 then pieces[0] else pieces[0] + [sep] + Join(pieces[1..], sep)
  }

  lemma {:induction false} JoinPieces(s: string, sep: char)
    ensures Join(Pieces(s, sep), sep) == s
    decreases |s|
  {
    var k := IndexOf(s, sep);
    if k != -1 {
      var rest := s[k + 1..];
      JoinPieces(rest, sep);
      var ps := Pieces(s, sep);
      assert ps == [s[..k]] + Pieces(rest, sep);
      assert ps[1..] == Pieces(rest, sep);
      assert Join(ps, sep) == s[..k] + [sep] + Join(Pieces(rest, sep), sep);
      assert s == s[..k] + [sep] + rest;
    }
  }

  function DropTrailingEmpty(ps: seq<string>): (r: seq<string>)
    ensures |r| <= |ps| && r == ps[..|r|]
    ensures forall i :: |r| <= i < |ps| ==> ps[i] == []
  {
    if |ps| > 0 && ps[|ps| - 1] == [] then DropTrailingEmpty(ps[..|ps| - 1]) else ps
  }

  /**
   * `s.split(sep)` for a one-character separator: the whole string when `sep`
   * does not occur, otherwise the pieces with the trailing empty ones removed.
   */
  function Split(s: string, sep: char): (r: seq<string>)
    ensures forall i :: 0 <= i < |r| ==> sep !in r[i]
  {
    if sep !in s then [s] else DropTrailingEmpty(Pieces(s, sep))
  }
}
