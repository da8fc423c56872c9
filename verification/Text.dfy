/** Strings as sequences of characters: comparison, case mapping, trimming and decimal digits. */
module Text {
  import opened Util

  // ------------------------------------------------------------- ordering

  /** Code-point order, as Python compares strings. */
  predicate StringLe(a: string, b: string) {
    a == [] || (b != [] && (a[0] < b[0] || (a[0] == b[0] && StringLe(a[1..], b[1..]))))
  }

  lemma {:induction false} StringLeTotal(a: string, b: string)
    ensures StringLe(a, b) || StringLe(b, a)
  {
    if a != [] && b != [] && a[0] == b[0] {
      StringLeTotal(a[1..], b[1..]);
    }
  }

  lemma {:induction false} StringLeTransitive(a: string, b: string, c: string)
    requires StringLe(a, b) && StringLe(b, c)
    ensures StringLe(a, c)
  {
    if a != [] && a[0] == b[0] == c[0] {
      StringLeTransitive(a[1..], b[1..], c[1..]);
    }
  }

  lemma {:induction false} StringLeAntisymmetric(a: string, b: string)
    requires StringLe(a, b) && StringLe(b, a)
    ensures a == b
  {
    if a != [] {
      StringLeAntisymmetric(a[1..], b[1..]);
      assert a == [a[0]] + a[1..] && b == [b[0]] + b[1..];
    }
  }

  /** Texts compare by their first different character, and a text comes before those it begins. */
  lemma {:induction false} FirstDifference(a: string, b: string, k: nat)
    requires k <= |a| && k <= |b| && a[..k] == b[..k]
    ensures k < |a| && k < |b| && a[k] != b[k] ==> (StringLe(a, b) <==> a[k] < b[k])
    ensures k == |a| ==> StringLe(a, b)
    ensures k == |b| < |a| ==> !StringLe(a, b)
  {
    if k > 0 {
      assert a[0] == a[..k][0] && b[0] == b[..k][0];
      assert a[1..][..k - 1] == a[..k][1..] && b[1..][..k - 1] == b[..k][1..];
      FirstDifference(a[1..], b[1..], k - 1);
    }
  }

  // ------------------------------------------------------------ case, trim

  function UpperChar(c: char): char {
    if 'a' <= c <= 'z' then ((c as int) - 32) as char else c
  }

  function LowerChar(c: char): char {
    if 'A' <= c <= 'Z' then ((c as int) + 32) as char else c
  }

  function Upper(s: string): string { Map(s, UpperChar) }

  function Lower(s: string): string { Map(s, LowerChar) }

  /** The same letter of the alphabet, one of them small and the other not. */
  predicate IsCasePair(c: char, d: char) {
    ('a' <= c <= 'z' && 'A' <= d <= 'Z' && c as int - 'a' as int == d as int - 'A' as int) ||
    ('A' <= c <= 'Z' && 'a' <= d <= 'z' && c as int - 'A' as int == d as int - 'a' as int)
  }

  ghost predicate SameButCase(s: string, t: string) {
    |s| == |t| && forall i :: 0 <= i < |s| ==> s[i] == t[i] || IsCasePair(s[i], t[i])
  }

  /** Mapping to one case makes texts equal exactly if they differ in the case of letters alone. */
  lemma CaseMeans(s: string, t: string)
    ensures Lower(s) == Lower(t) <==> SameButCase(s, t)
    ensures Upper(s) == Upper(t) <==> SameButCase(s, t)
    ensures SameButCase(s, Lower(s)) && SameButCase(s, Upper(s))
    ensures forall i :: 0 <= i < |s| ==> !('A' <= Lower(s)[i] <= 'Z') && !('a' <= Upper(s)[i] <= 'z')
  {
    forall c: char, d: char
      ensures LowerChar(c) == LowerChar(d) <==> c == d || IsCasePair(c, d)
      ensures UpperChar(c) == UpperChar(d) <==> c == d || IsCasePair(c, d) {
      CharCase(c, d);
    }
    if Lower(s) == Lower(t) {
      forall i | 0 <= i < |s| ensures s[i] == t[i] || IsCasePair(s[i], t[i]) {
        assert Lower(s)[i] == LowerChar(s[i]) && Lower(t)[i] == LowerChar(t[i]);
      }
    }
    if Upper(s) == Upper(t) {
      forall i | 0 <= i < |s| ensures s[i] == t[i] || IsCasePair(s[i], t[i]) {
        assert Upper(s)[i] == UpperChar(s[i]) && Upper(t)[i] == UpperChar(t[i]);
      }
    }
  }

  lemma CharCase(c: char, d: char)
    ensures LowerChar(c) == LowerChar(d) <==> c == d || IsCasePair(c, d)
    ensures UpperChar(c) == UpperChar(d) <==> c == d || IsCasePair(c, d)
  {
  }

  /** The code points for which Python's str.isspace holds, which are also those its regular expressions call \s, as
      ranges in increasing order. */
  function SpaceRange(i: nat): (int, int) {
    match i
    case 0 => (0x09, 0x0D)
    case 1 => (0x1C, 0x20)
    case 2 => (0x85, 0x85)
    case 3 => (0xA0, 0xA0)
    case 4 => (0x1680, 0x1680)
    case 5 => (0x2000, 0x200A)
    case 6 => (0x2028, 0x2029)
    case 7 => (0x202F, 0x202F)
    case 8 => (0x205F, 0x205F)
    case _ => (0x3000, 0x3000)
  }

  predicate InSpaceRange(p: int, i: nat)
    decreases 10 - i
  {
    i < 10 && (SpaceRange(i).0 <= p <= SpaceRange(i).1 || InSpaceRange(p, i + 1))
  }

  predicate IsSpace(c: char) { InSpaceRange(c as int, 0) }

  lemma IsSpaceMeans(c: char)
    ensures IsSpace(c) <==>
            var p := c as int;
            || 0x09 <= p <= 0x0D || 0x1C <= p <= 0x20 || p in {0x85, 0xA0, 0x1680}
            || 0x2000 <= p <= 0x200A || p in {0x2028, 0x2029, 0x202F, 0x205F, 0x3000}
  {
    var p := c as int;
    assert InSpaceRange(p, 8) <==> p == 0x205F || p == 0x3000;
    assert InSpaceRange(p, 6) <==> p == 0x2028 || p == 0x2029 || p == 0x202F || InSpaceRange(p, 8);
    assert InSpaceRange(p, 4) <==> p == 0x1680 || 0x2000 <= p <= 0x200A || InSpaceRange(p, 6);
    assert InSpaceRange(p, 2) <==> p == 0x85 || p == 0xA0 || InSpaceRange(p, 4);
  }

  function TrimStart(s: string, space: char -> bool): string {
    if s != [] && space(s[0]) then TrimStart(s[1..], space) else s
  }

  function TrimEnd(s: string, space: char -> bool): string {
    if s != [] && space(s[|s| - 1]) then TrimEnd(s[..|s| - 1], space) else s
  }

  /** What is cut off in front is all space, and what remains is the end of s without a leading space. */
  lemma {:induction false} TrimStartFacts(s: string, space: char -> bool) returns (k: nat)
    ensures k <= |s| && TrimStart(s, space) == s[k..]
    ensures forall i :: 0 <= i < k ==> space(s[i])
    ensures k < |s| ==> !space(s[k])
  {
    if s != [] && space(s[0]) {
      k := TrimStartFacts(s[1..], space);
      assert s[1..][k..] == s[k + 1..];
      forall i | 0 <= i < k + 1 ensures space(s[i]) {
        assert i > 0 ==> s[i] == s[1..][i - 1];
      }
      k := k + 1;
    } else {
      k := 0;
    }
  }

  lemma {:induction false} TrimEndFacts(s: string, space: char -> bool) returns (k: nat)
    ensures k <= |s| && TrimEnd(s, space) == s[..k]
    ensures forall i :: k <= i < |s| ==> space(s[i])
    ensures k > 0 ==> !space(s[k - 1])
  {
    if s != [] && space(s[|s| - 1]) {
      k := TrimEndFacts(s[..|s| - 1], space);
    } else {
      k := |s|;
    }
  }

  function Trim(s: string, space: char -> bool): string {
    TrimEnd(TrimStart(s, space), space)
  }

  /** Python's str.strip(). */
  function Strip(s: string): string { Trim(s, IsSpace) }

  /** What is cut off on either side is space, and what remains neither begins nor ends with one. */
  lemma TrimMeans(s: string, space: char -> bool) returns (from: nat, to: nat)
    ensures from <= to <= |s| && Trim(s, space) == s[from..to]
    ensures forall i :: 0 <= i < from || to <= i < |s| ==> space(s[i])
    ensures from < to ==> !space(s[from]) && !space(s[to - 1])
  {
    from := TrimStartFacts(s, space);
    var k := TrimEndFacts(s[from..], space);
    to := from + k;
    assert s[from..][..k] == s[from..to];
    forall i | to <= i < |s| ensures space(s[i]) {
      assert s[i] == s[from..][i - from];
    }
  }

  /** A slice between spaces that neither begins nor ends with one is what trimming leaves. */
  lemma TrimIs(s: string, space: char -> bool, from: nat, to: nat)
    requires from < to <= |s| && !space(s[from]) && !space(s[to - 1])
    requires forall i :: 0 <= i < from || to <= i < |s| ==> space(s[i])
    ensures Trim(s, space) == s[from..to]
  {
    var a, b := TrimMeans(s, space);
    assert a <= from < b && a < to <= b;
  }

  // --------------------------------------------------------------- digits

  predicate IsDigit(c: char) { '0' <= c <= '9' }

  /** A tax period "YYYY-MM" with a calendar month. */
  predicate ValidPeriod(period: string) {
    && |period| == 7 && period[4] == '-'
    && (forall i :: 0 <= i < 7 && i != 4 ==> IsDigit(period[i]))
    && 1 <= 10 * (period[5] as int - 48) + (period[6] as int - 48) <= 12
  }

  /** Python's truth of an optional string. */
  predicate Given(s: Option<string>) { s.Some? && s.value != "" }

  function Digit(d: nat): char
    requires d < 10
  {
    (d + 48) as char
  }

  /** The decimal numeral of n, without leading zeros. */
  function Decimal(n: nat): (r: string)
    ensures |r| > 0
    ensures forall i :: 0 <= i < |r| ==> '0' <= r[i] <= '9'
  {
    if n < 10 then [Digit(n)] else Decimal(n / 10) + [Digit(n % 10)]
  }

  function Numeral(s: string): int {
    if s == [] then 0 else 10 * Numeral(s[..|s| - 1]) + (s[|s| - 1] as int - 48)
  }

  /** Python's `:04d`: at least four digits, padded with zeros, and never truncated. */
  function Pad4(n: nat): string {
    var d := Decimal(n);
    if |d| < 4 then seq(4 - |d|, _ => '0') + d else d
  }

  lemma {:induction false} NumeralOfDecimal(n: nat)
    ensures Numeral(Decimal(n)) == n
  {
    if n >= 10 {
      NumeralOfDecimal(n / 10);
      assert Decimal(n)[..|Decimal(n)| - 1] == Decimal(n / 10);
    }
  }

  lemma {:induction false} NumeralIgnoresPadding(k: nat, s: string)
    ensures Numeral(seq(k, _ => '0') + s) == Numeral(s)
    decreases k + |s|
  {
    var p := seq(k, _ => '0') + s;
    if s != [] {
      assert p[..|p| - 1] == seq(k, _ => '0') + s[..|s| - 1];
      NumeralIgnoresPadding(k, s[..|s| - 1]);
    } else if k > 0 {
      assert p[..|p| - 1] == seq(k - 1, _ => '0') + s;
      NumeralIgnoresPadding(k - 1, s);
    } else {
      assert p == s;
    }
  }

  /** Padding loses nothing: the number can be read back, beyond 9999 too. */
  lemma Pad4RoundTrip(n: nat)
    ensures Numeral(Pad4(n)) == n
  {
    NumeralOfDecimal(n);
    var d := Decimal(n);
    if |d| < 4 {
      NumeralIgnoresPadding(4 - |d|, d);
    }
  }
}
