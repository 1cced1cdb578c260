/** Character and string operations the app borrows from the Kotlin standard
    library: `isBlank`, `contains` (with and without `ignoreCase`), `length`,
    decimal rendering of integers and the `%02d` format with the locale's
    digits. */
module Text {

  /** Kotlin's `Char.isWhitespace()` on the JVM: `Character.isWhitespace` or
      `Character.isSpaceChar`, i.e. the ASCII controls TAB..CR and FS..US and
      every space, line or paragraph separator of Unicode. */
  predicate IsWhitespace(c: char) {
    var n := c as int;
    || 0x09 <= n <= 0x0D
    || 0x1C <= n <= 0x20
    || n == 0xA0
    || n == 0x1680
    || 0x2000 <= n <= 0x200A
    || n == 0x2028 || n == 0x2029 || n == 0x202F || n == 0x205F
    || n == 0x3000
  }

  /** `CharSequence.isBlank()`: empty or whitespace only. */
  predicate IsBlank(s: string) {
    forall i :: 0 <= i < |s| ==> IsWhitespace(s[i])
  }

  /** `pat` sits in `text` at offset `i` when both are compared through `fold`. */
  predicate MatchesAt(text: string, pat: string, i: nat, fold: char -> char)
    requires i + |pat| <= |text|
  {
    forall j :: 0 <= j < |pat| ==> fold(text[i + j]) == fold(pat[j])
  }

  /** Reference meaning of "`text` contains `pat`": some offset matches. */
  ghost predicate Occurs(text: string, pat: string, fold: char -> char) {
    exists i: nat :: i + |pat| <= |text| && MatchesAt(text, pat, i, fold)
  }

  /** The left-to-right scan of Kotlin's `indexOf`, starting at `from`:
      the first matching offset, or -1. */
  function IndexOfFrom(text: string, pat: string, from: nat, fold: char -> char): (r: int)
    ensures r == -1 || (from <= r && r + |pat| <= |text| && MatchesAt(text, pat, r, fold))
    ensures forall k: nat :: from <= k && k + |pat| <= |text| && (r == -1 || k < r)
              ==> !MatchesAt(text, pat, k, fold)
    decreases |text| - from
  {
    if from + |pat| > |text| then -1
    else if MatchesAt(text, pat, from, fold) then from
    else IndexOfFrom(text, pat, from + 1, fold)
  }

  /** `text.contains(pat, ignoreCase)`, where `fold` decides which characters
      count as equal (the identity for a case-sensitive `contains`). */
  function ContainsFolded(text: string, pat: string, fold: char -> char): bool {
    IndexOfFrom(text, pat, 0, fold) >= 0
  }

  /** The fold of a case-sensitive comparison: every character stands for
      itself. */
  function Exact(c: char): char {
    c
  }

  /** Case-sensitive `contains`. */
  function Contains(text: string, pat: string): bool {
    ContainsFolded(text, pat, Exact)
  }

  /** The scan answers exactly the reference question. */
  lemma ContainsFoldedIsOccurs(text: string, pat: string, fold: char -> char)
    ensures ContainsFolded(text, pat, fold) <==> Occurs(text, pat, fold)
  {
    var r := IndexOfFrom(text, pat, 0, fold);
    if r >= 0 {
      assert MatchesAt(text, pat, r, fold);
    }
  }

  /** A pattern that is a slice of the text is found in it. */
  lemma SliceIsContained(text: string, i: nat, j: nat, fold: char -> char)
    requires i <= j <= |text|
    ensures ContainsFolded(text, text[i..j], fold)
  {
    assert MatchesAt(text, text[i..j], i, fold);
    ContainsFoldedIsOccurs(text, text[i..j], fold);
  }

  // ---- string length ----

  /** UTF-16 code units of one character: a character outside the Basic
      Multilingual Plane is stored as a surrogate pair. */
  function Utf16Units(c: char): nat {
    if c as int >= 0x10000 then 2 else 1
  }

  /** Kotlin's `String.length`, which counts UTF-16 code units, not
      characters. */
  function Utf16Length(s: string): (n: nat)
    ensures |s| <= n <= 2 * |s|
    ensures n == 0 <==> |s| == 0
    ensures n == 1 <==> |s| == 1 && s[0] as int < 0x10000
  {
    if |s| == 0 then 0 else Utf16Units(s[0]) + Utf16Length(s[1..])
  }

  /** The length of a concatenation is the sum of the lengths. */
  lemma {:induction false} Utf16LengthAppend(a: string, b: string)
    ensures Utf16Length(a + b) == Utf16Length(a) + Utf16Length(b)
    decreases |a|
  {
    if |a| > 0 {
      assert (a + b)[1..] == a[1..] + b;
      Utf16LengthAppend(a[1..], b);
    } else {
      assert a + b == b;
    }
  }

  /** `length` counts characters exactly when every character lies in the
      Basic Multilingual Plane, as Arabic and Latin text does. */
  lemma {:induction false} Utf16LengthIsSize(s: string)
    ensures Utf16Length(s) == |s| <==> forall i :: 0 <= i < |s| ==> s[i] as int < 0x10000
    decreases |s|
  {
    if |s| > 0 {
      Utf16LengthIsSize(s[1..]);
      assert forall i :: 1 <= i < |s| ==> s[i] == s[1..][i - 1];
    }
  }

  // ---- decimal rendering ----

  predicate IsDigit(c: char) {
    '0' <= c <= '9'
  }

  function DigitChar(d: nat): (c: char)
    requires d < 10
    ensures IsDigit(c) && DigitValue(c) == d
  {
    ('0' as int + d) as char
  }

  function DigitValue(c: char): nat
    requires IsDigit(c)
  {
    c as int - '0' as int
  }

  predicate AllDigits(s: string) {
    forall i :: 0 <= i < |s| ==> IsDigit(s[i])
  }

  /** Decimal digits of `n`, most significant first, without leading zeros
      (`Int.toString` for a non-negative value). */
  function NatToString(n: nat): (s: string)
    ensures |s| >= 1 && AllDigits(s)
    ensures n < 10 <==> |s| == 1
    ensures |s| > 1 ==> s[0] != '0'
    decreases n
  {
    if n < 10 then [DigitChar(n)] else NatToString(n / 10) + [DigitChar(n % 10)]
  }

  /** Value of a string of decimal digits. */
  function ParseNat(s: string): nat
    requires AllDigits(s)
  {
    if |s| == 0 then 0 else ParseNat(s[..|s| - 1]) * 10 + DigitValue(s[|s| - 1])
  }

  /** Reading back the rendered digits gives the number. */
  lemma {:induction false} NatToStringRoundTrip(n: nat)
    ensures ParseNat(NatToString(n)) == n
    decreases n
  {
    if n >= 10 {
      var s := NatToString(n);
      assert s[..|s| - 1] == NatToString(n / 10);
      NatToStringRoundTrip(n / 10);
    }
  }

  /** `Int.toString` / string templates for any `Int`. */
  function IntToString(i: int): (s: string)
    ensures |s| >= 1
    ensures s[0] == '-' <==> i < 0
    ensures i < 0 ==> s[1..] == NatToString(-i)
    ensures i >= 0 ==> s == NatToString(i)
  {
    if i < 0 then "-" + NatToString(-i) else NatToString(i)
  }

  /** The ASCII digits `String.format("%02d", n)` builds for a non-negative
      `n` before the locale's digits are substituted: at least two digits,
      zero-padded on the left. */
  function Pad2(n: nat): (s: string)
    ensures AllDigits(s) && |s| >= 2
    ensures ParseNat(s) == n
    ensures n < 100 ==> |s| == 2
    ensures n >= 10 ==> s == NatToString(n)
  {
    var d := NatToString(n);
    NatToStringRoundTrip(n);
    if |d| < 2 then
      var p := "0" + d;
      assert p[..|p| - 1] == "0";
      p
    else d
  }

  // ---- the locale's digits ----

  /** The zero of a locale's digit set; the set is the ten characters from
      it upwards, as for ASCII '0'..'9' and Arabic-Indic U+0660..U+0669. */
  type ZeroDigit = c: char | c as int + 9 < 0xD800 witness '0'

  predicate IsLocalDigit(c: char, zero: ZeroDigit) {
    zero as int <= c as int <= zero as int + 9
  }

  predicate AllLocalDigits(s: string, zero: ZeroDigit) {
    forall i :: 0 <= i < |s| ==> IsLocalDigit(s[i], zero)
  }

  /** Value of a string of digits of the set starting at `zero`. */
  function ParseLocal(s: string, zero: ZeroDigit): nat
    requires AllLocalDigits(s, zero)
  {
    if |s| == 0 then 0 else ParseLocal(s[..|s| - 1], zero) * 10 + (s[|s| - 1] as int - zero as int)
  }

  /** `java.util.Formatter`'s digit substitution: every ASCII digit is
      replaced by the digit of the same value in the set starting at
      `zero`; other characters are kept. */
  function Localize(s: string, zero: ZeroDigit): (r: string)
    ensures |r| == |s|
    ensures forall i :: 0 <= i < |s| && IsDigit(s[i]) ==> r[i] as int == zero as int + DigitValue(s[i])
    ensures forall i :: 0 <= i < |s| && !IsDigit(s[i]) ==> r[i] == s[i]
  {
    seq(|s|, i requires 0 <= i < |s| =>
      if IsDigit(s[i]) then (zero as int + DigitValue(s[i])) as char else s[i])
  }

  /** Substituting the digits keeps their value, read in the new set. */
  lemma {:induction false} LocalizeKeepsValue(s: string, zero: ZeroDigit)
    requires AllDigits(s)
    ensures AllLocalDigits(Localize(s, zero), zero)
    ensures ParseLocal(Localize(s, zero), zero) == ParseNat(s)
    decreases |s|
  {
    if |s| > 0 {
      var init := s[..|s| - 1];
      LocalizeKeepsValue(init, zero);
      assert Localize(s, zero)[..|s| - 1] == Localize(init, zero);
    }
  }

  /** Under a locale whose digits are the ASCII ones nothing changes. */
  lemma LatinDigitsUnchanged(s: string)
    requires AllDigits(s)
    ensures Localize(s, '0') == s
  {
  }

  /** `String.format("%02d", n)` under a locale whose zero digit is `zero`:
      at least two digits of that set, which read back as `n`. */
  function LocalPad2(n: nat, zero: ZeroDigit): (s: string)
    ensures AllLocalDigits(s, zero) && |s| >= 2
    ensures ParseLocal(s, zero) == n
    ensures n < 100 ==> |s| == 2
  {
    LocalizeKeepsValue(Pad2(n), zero);
    Localize(Pad2(n), zero)
  }
}
