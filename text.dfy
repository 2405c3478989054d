/** The string operations the services rely on: `string.Split`, `string.Join`,
    `string.Trim`, and the decimal rendering of integers that string
    interpolation performs. */
module Text {
  import Sequences

  // ---------------------------------------------------------------------
  // Split and Join
  // ---------------------------------------------------------------------

  /** `string.Join(sep, parts)`. */
  function Join(parts: seq<string>, sep: string): string
  {
    if |parts| == 0 then ""
    else if |parts| == 1 then parts[0]
    else parts[0] + sep + Join(parts[1..], sep)
  }

  /** Number of occurrences of `c` in `s`. */
  function Occurrences(s: string, c: char): nat
  {
    if s == [] then 0
    else (if s[0] == c then 1 else 0) + Occurrences(s[1..], c)
  }

  /** `s.Split(sep)`: the maximal pieces between separators, empty ones
      included, so that joining them back with `sep` gives `s` again. */
  function Split(s: string, sep: char): (r: seq<string>)
    ensures |r| == Occurrences(s, sep) + 1
    ensures forall k :: 0 <= k < |r| ==> sep !in r[k]
    ensures Join(r, [sep]) == s
    decreases |s|
  {
    if s == [] then [""]
    else
      var rest := Split(s[1..], sep);
      assert s == [s[0]] + s[1..];
      if s[0] == sep then
        [""] + rest
      else
        var r := [[s[0]] + rest[0]] + rest[1..];
        assert Join(r, [sep]) == [s[0]] + Join(rest, [sep]) by {
          if |rest| > 1 {
            assert r[1..] == rest[1..];
          }
        }
        r
  }

  /** A string without the separator splits into itself. */
  lemma SplitNoSeparator(s: string, sep: char)
    requires sep !in s
    ensures Split(s, sep) == [s]
  {
    NoOccurrences(s, sep);
  }

  lemma {:induction false} NoOccurrences(s: string, c: char)
    requires c !in s
    ensures Occurrences(s, c) == 0
  {
    if s != [] {
      NoOccurrences(s[1..], c);
    }
  }

  /** A separator after a piece free of it ends that piece. */
  lemma {:induction false} SplitAfter(a: string, b: string, sep: char)
    requires sep !in a
    ensures Split(a + [sep] + b, sep) == [a] + Split(b, sep)
    decreases |a|
  {
    var s := a + [sep] + b;
    if a == [] {
      assert s == [sep] + b && s[1..] == b;
    } else {
      assert s[0] == a[0] && s[1..] == a[1..] + [sep] + b;
      SplitAfter(a[1..], b, sep);
      assert [a[0]] + a[1..] == a;
    }
  }

  /** Joining pieces free of the separator and splitting the result gives
      the pieces back. */
  lemma {:induction false} SplitJoin(parts: seq<string>, sep: char)
    requires |parts| >= 1
    requires forall k :: 0 <= k < |parts| ==> sep !in parts[k]
    ensures Split(Join(parts, [sep]), sep) == parts
  {
    if |parts| == 1 {
      SplitNoSeparator(parts[0], sep);
    } else {
      SplitJoin(parts[1..], sep);
      assert Join(parts, [sep]) == parts[0] + [sep] + Join(parts[1..], [sep]);
      SplitAfter(parts[0], Join(parts[1..], [sep]), sep);
      assert [parts[0]] + parts[1..] == parts;
    }
  }

  predicate IsNonEmpty(part: string) {
    part != ""
  }

  /** The pieces that are not empty (`StringSplitOptions.RemoveEmptyEntries`):
      exactly the `Where` of the non-empty pieces, so in order and each as
      often as it occurs. */
  function NonEmpty(parts: seq<string>): (r: seq<string>)
    ensures r == Sequences.Filter(parts, IsNonEmpty)
    ensures |r| <= |parts|
    ensures forall k :: 0 <= k < |r| ==> r[k] != "" && r[k] in parts
    ensures forall p :: p in parts && p != "" ==> p in r
  {
    if parts == [] then []
    else
      assert parts == [parts[0]] + parts[1..];
      NonEmptyStep(parts);
      if parts[0] == "" then NonEmpty(parts[1..]) else [parts[0]] + NonEmpty(parts[1..])
  }

  /** Filtering the pieces drops an empty head and keeps a non-empty one. */
  lemma NonEmptyStep(parts: seq<string>)
    requires parts != []
    ensures parts[0] == "" ==> Sequences.Filter(parts, IsNonEmpty) == Sequences.Filter(parts[1..], IsNonEmpty)
    ensures parts[0] != "" ==> Sequences.Filter(parts, IsNonEmpty) == [parts[0]] + Sequences.Filter(parts[1..], IsNonEmpty)
  {
    assert parts == [parts[0]] + parts[1..];
    Sequences.FilterConcat([parts[0]], parts[1..], IsNonEmpty);
    Sequences.FilterOne(parts[0], IsNonEmpty);
    var rest := Sequences.Filter(parts[1..], IsNonEmpty);
    if parts[0] == "" {
      assert [] + rest == rest;
    }
  }

  /** `s.Split(sep, StringSplitOptions.RemoveEmptyEntries)`: the non-empty
      pieces between separators, in order; none holds the separator. */
  function SplitNonEmpty(s: string, sep: char): (r: seq<string>)
    ensures r == Sequences.Filter(Split(s, sep), IsNonEmpty)
    ensures forall k :: 0 <= k < |r| ==> r[k] != "" && sep !in r[k]
  {
    NonEmpty(Split(s, sep))
  }

  // ---------------------------------------------------------------------
  // Trim
  // ---------------------------------------------------------------------

  /** `char.IsWhiteSpace`: the Unicode White_Space characters. */
  predicate IsWhiteSpace(c: char)
  {
    ('\t' <= c <= '\r') || c == ' ' || c == '\U{0085}' || c == '\U{00A0}' || c == '\U{1680}'
    || ('\U{2000}' <= c <= '\U{200A}') || c == '\U{2028}' || c == '\U{2029}'
    || c == '\U{202F}' || c == '\U{205F}' || c == '\U{3000}'
  }

  /** `s.TrimStart()`: the suffix left after dropping leading white space. */
  function TrimStart(s: string): (r: string)
    ensures |r| <= |s| && r == s[|s| - |r|..]
    ensures forall k :: 0 <= k < |s| - |r| ==> IsWhiteSpace(s[k])
    ensures r == [] || !IsWhiteSpace(r[0])
  {
    if s != [] && IsWhiteSpace(s[0]) then TrimStart(s[1..]) else s
  }

  /** `s.TrimEnd()`: the prefix left after dropping trailing white space. */
  function TrimEnd(s: string): (r: string)
    ensures |r| <= |s| && r == s[..|r|]
    ensures forall k :: |r| <= k < |s| ==> IsWhiteSpace(s[k])
    ensures r == [] || !IsWhiteSpace(r[|r| - 1])
  {
    if s != [] && IsWhiteSpace(s[|s| - 1]) then TrimEnd(s[..|s| - 1]) else s
  }

  /** `s.Trim()`. */
  function Trim(s: string): string
  {
    TrimEnd(TrimStart(s))
  }

  // ---------------------------------------------------------------------
  // Decimal rendering
  // ---------------------------------------------------------------------

  predicate IsDigit(c: char) { '0' <= c <= '9' }

  predicate AllDigits(s: string) { forall k :: 0 <= k < |s| ==> IsDigit(s[k]) }

  function DigitChar(d: nat): (c: char)
    requires d < 10
    ensures IsDigit(c) && c as int - '0' as int == d
  {
    ('0' as int + d) as char
  }

  /** The number a string of decimal digits denotes. */
  function DigitsValue(s: string): nat
    requires AllDigits(s)
  {
    if s == [] then 0
    else DigitsValue(s[..|s| - 1]) * 10 + (s[|s| - 1] as int - '0' as int)
  }

  /** The decimal rendering of a natural number, without leading zeros. */
  function NatToString(n: nat): (r: string)
    ensures |r| >= 1 && AllDigits(r)
    ensures DigitsValue(r) == n
  {
    if n < 10 then [DigitChar(n)]
    else
      var r := NatToString(n / 10) + [DigitChar(n % 10)];
      assert r[..|r| - 1] == NatToString(n / 10);
      r
  }

  /** The decimal rendering of an integer, with a minus sign when negative
      (`{n}` in an interpolated string). */
  function IntToString(n: int): string
  {
    if n < 0 then "-" + NatToString(-n) else NatToString(n)
  }

  function Pow10(w: nat): nat
  {
    if w == 0 then 1 else 10 * Pow10(w - 1)
  }

  /** A number below 10^w needs at most w digits. */
  lemma {:induction false} NatToStringLength(n: nat, w: nat)
    requires 1 <= w && n < Pow10(w)
    ensures |NatToString(n)| <= w
  {
    if n >= 10 {
      assert Pow10(1) == 10;
      NatToStringLength(n / 10, w - 1);
    }
  }

  /** `n` rendered with at least `w` digits, zeros in front (format "D4", "MM", ...). */
  function Padded(n: nat, w: nat): (r: string)
    ensures AllDigits(r) && |r| >= w
  {
    var s := NatToString(n);
    if |s| >= w then s else seq(w - |s|, _ => '0') + s
  }

  /** Leading zeros do not change the value of a digit string. */
  lemma {:induction false} LeadingZeros(z: nat, s: string)
    requires AllDigits(s)
    ensures AllDigits(seq(z, _ => '0') + s)
    ensures DigitsValue(seq(z, _ => '0') + s) == DigitsValue(s)
  {
    var t := seq(z, _ => '0') + s;
    if s == [] {
      assert t == seq(z, _ => '0');
      ZerosValue(z);
    } else {
      var init := s[..|s| - 1];
      assert t[..|t| - 1] == seq(z, _ => '0') + init;
      LeadingZeros(z, init);
    }
  }

  lemma {:induction false} ZerosValue(z: nat)
    ensures AllDigits(seq(z, _ => '0'))
    ensures DigitsValue(seq(z, _ => '0')) == 0
  {
    if z > 0 {
      assert seq(z, _ => '0')[..z - 1] == seq(z - 1, _ => '0');
      ZerosValue(z - 1);
    }
  }

  /** Reading a padded rendering back gives the number, and below 10^w the
      rendering is exactly w characters wide. */
  lemma PaddedRoundTrip(n: nat, w: nat)
    ensures DigitsValue(Padded(n, w)) == n
    ensures 1 <= w && n < Pow10(w) ==> |Padded(n, w)| == w
  {
    var s := NatToString(n);
    if |s| < w {
      LeadingZeros(w - |s|, s);
    }
    if 1 <= w && n < Pow10(w) {
      NatToStringLength(n, w);
    }
  }

  /** Distinct numbers have distinct renderings at any width. */
  lemma PaddedInjective(a: nat, b: nat, w: nat)
    requires Padded(a, w) == Padded(b, w)
    ensures a == b
  {
    PaddedRoundTrip(a, w);
    PaddedRoundTrip(b, w);
  }
}
