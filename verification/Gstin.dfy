/** The GSTIN check character and the structural validator of backend/app/rules/gstin_validator.py. */
module Gstin {
  import opened Util
  import opened Text

  // --------------------------------------------------------------- alphabet

  predicate IsLetter(c: char) { 'A' <= c <= 'Z' }

  predicate IsCode(c: char) { IsDigit(c) || IsLetter(c) }

  /** Position in "0123456789ABCDEFGHIJKLMNOPQRSTUVWXYZ". */
  function Value(c: char): (d: nat)
    requires IsCode(c)
    ensures d < 36 && Symbol(d) == c
  {
    if IsDigit(c) then c as int - '0' as int else c as int - 'A' as int + 10
  }

  function Symbol(d: nat): (c: char)
    requires d < 36
    ensures IsCode(c)
  {
    if d < 10 then (d + '0' as int) as char else (d - 10 + 'A' as int) as char
  }

  lemma ValueOfSymbol(d: nat)
    requires d < 36
    ensures Value(Symbol(d)) == d
  {
  }

  ghost predicate AllCode(s: string) { forall i :: 0 <= i < |s| ==> IsCode(s[i]) }

  // --------------------------------------------------------------- checksum

  /** Weights alternate 1, 2, 1, 2 from the left. */
  function Weight(i: nat): Factor { if i % 2 == 0 then 1 else 2 }

  type Factor = f: nat | f == 1 || f == 2 witness 1

  /** The base-36 digits of the weighted value are added up. */
  function Addend(factor: Factor, d: nat): nat { DigitSum(if factor == 1 then d else 2 * d) }

  function DigitSum(n: nat): nat { n / 36 + n % 36 }

  function Total(s: string): nat
    requires AllCode(s)
  {
    if s == "" then 0 else Total(s[..|s| - 1]) + Addend(Weight(|s| - 1), Value(s[|s| - 1]))
  }

  /** s followed by c is a code word. */
  predicate Fits(s: string, c: char)
    requires AllCode(s)
  {
    IsCode(c) && (Total(s) + Value(c)) % 36 == 0
  }

  /** The check character loop; None where the source raises on a character outside the alphabet. */
  method ComputeChecksum(s: string) returns (r: Option<char>)
    ensures r.Some? <==> AllCode(s)
    ensures r.Some? ==> AllCode(s) && Fits(s, r.value)
  {
    var factor: Factor := 1;
    var total := 0;
    for i := 0 to |s|
      invariant AllCode(s[..i]) && factor == Weight(i) && total == Total(s[..i])
    {
      if !IsCode(s[i]) {
        return None;
      }
      ChecksumStep(s, i);
      var addend := Addend(factor, Value(s[i]));
      total := total + addend;
      factor := if factor == 1 then 2 else 1;
    }
    assert s[..|s|] == s;
    var remainder := total % 36;
    ComplementSymbolFits(s);
    r := Some(Symbol((36 - remainder) % 36));
  }

  lemma ChecksumStep(s: string, i: nat)
    requires i < |s| && AllCode(s[..i]) && IsCode(s[i])
    ensures AllCode(s[..i + 1]) && Total(s[..i + 1]) == Total(s[..i]) + Addend(Weight(i), Value(s[i]))
    ensures Weight(i + 1) == if Weight(i) == 1 then 2 else 1
  {
    Parity(i);
    assert s[..i + 1][..i] == s[..i];
  }

  lemma ComplementSymbolFits(s: string)
    requires AllCode(s)
    ensures Fits(s, Symbol((36 - Total(s) % 36) % 36))
  {
    var d := (36 - Total(s) % 36) % 36;
    ComplementFits(Total(s), d);
    ValueOfSymbol(d);
  }

  lemma ComplementFits(total: nat, d: nat)
    requires d < 36
    ensures (total + d) % 36 == 0 <==> d == (36 - total % 36) % 36
  {
    var q, r := total / 36, total % 36;
    assert total == 36 * q + r;
    if r + d < 36 {
      assert (total + d) % 36 == r + d;
    } else {
      assert total + d == 36 * (q + 1) + (r + d - 36);
      assert (total + d) % 36 == r + d - 36;
    }
  }

  /** Exactly one check character fits any prefix. */
  lemma OneCheckCharacter(s: string) returns (c: char)
    requires AllCode(s)
    ensures Fits(s, c)
    ensures forall other :: Fits(s, other) ==> other == c
  {
    var d := (36 - Total(s) % 36) % 36;
    c := Symbol(d);
    ComplementSymbolFits(s);
    forall other | Fits(s, other) ensures other == c {
      ComplementFits(Total(s), Value(other));
      assert Symbol(Value(other)) == other;
    }
  }

  // ---------------------------------------------------------- substitutions

  lemma {:induction false} TotalReplace(s: string, i: nat, c: char)
    requires AllCode(s) && i < |s| && IsCode(c)
    ensures AllCode(s[i := c])
    ensures Total(s[i := c]) + Addend(Weight(i), Value(s[i])) == Total(s) + Addend(Weight(i), Value(c))
  {
    var n := |s| - 1;
    if i < n {
      TotalReplace(s[..n], i, c);
      assert s[i := c][..n] == s[..n][i := c];
    } else {
      assert s[i := c][..n] == s[..n];
    }
  }

  /** Either weight permutes the 36 values. */
  lemma AddendIsInjective(i: nat, a: nat, b: nat)
    requires a < 36 && b < 36
    ensures Addend(Weight(i), a) % 36 == Addend(Weight(i), b) % 36 <==> a == b
  {
    AddendValue(i, a);
    AddendValue(i, b);
  }

  lemma AddendValue(i: nat, d: nat)
    requires d < 36
    ensures Addend(Weight(i), d) == if i % 2 == 0 then d else Doubled(d)
  {
  }

  /** Changing any one character of a code word, the check character included, is always noticed. */
  lemma SubstitutionDetected(s: string, check: char, i: nat, c: char)
    requires AllCode(s) && Fits(s, check) && IsCode(c) && i <= |s|
    requires c != if i < |s| then s[i] else check
    ensures if i < |s| then AllCode(s[i := c]) && !Fits(s[i := c], check) else !Fits(s, c)
  {
    if i < |s| {
      TotalReplace(s, i, c);
      AddendIsInjective(i, Value(s[i]), Value(c));
      FitsBoth(s, s[i := c], check, Addend(Weight(i), Value(s[i])), Addend(Weight(i), Value(c)));
      assert Symbol(Value(c)) == c && Symbol(Value(s[i])) == s[i];
    } else {
      var only := OneCheckCharacter(s);
    }
  }

  // ------------------------------------------------------------------ swaps

  function Swap(s: string, i: nat): string
    requires i + 1 < |s|
  {
    s[i := s[i + 1]][i + 1 := s[i]]
  }

  predicate IsBlindPair(a: char, b: char) { a == b || (a == '0' && b == 'Z') || (a == 'Z' && b == '0') }

  /** What two neighbouring values add to the total. */
  function Neighbours(i: nat, a: nat, b: nat): nat { Addend(Weight(i), a) + Addend(Weight(i + 1), b) }

  lemma TotalSwap(s: string, i: nat)
    requires AllCode(s) && i + 1 < |s|
    ensures AllCode(Swap(s, i))
    ensures Total(Swap(s, i)) + Neighbours(i, Value(s[i]), Value(s[i + 1])) == Total(s) + Neighbours(i, Value(s[i + 1]), Value(s[i]))
  {
    TotalReplace(s, i, s[i + 1]);
    TotalReplace(s[i := s[i + 1]], i + 1, s[i]);
  }

  lemma BlindPairValues(a: char, b: char)
    requires IsCode(a) && IsCode(b)
    ensures IsBlindPair(a, b) <==> Value(a) == Value(b) || (Value(a) == 0 && Value(b) == 35) || (Value(a) == 35 && Value(b) == 0)
  {
  }

  /** What an exchange of neighbours changes in the total: nothing, modulo 36, exactly for equal values and for 0 and 35. */
  lemma ExchangeOfValues(i: nat, a: nat, b: nat)
    requires a < 36 && b < 36
    ensures Neighbours(i, a, b) % 36 == Neighbours(i, b, a) % 36 <==> a == b || (a == 0 && b == 35) || (a == 35 && b == 0)
  {
    NeighboursValue(i, a, b);
    NeighboursValue(i, b, a);
    ExchangeArithmetic(a, b);
  }

  /** The base-36 digits of twice a value. */
  function Doubled(d: nat): nat { if d < 18 then 2 * d else 2 * d - 35 }

  lemma NeighboursValue(i: nat, a: nat, b: nat)
    requires a < 36 && b < 36
    ensures Neighbours(i, a, b) == if i % 2 == 0 then a + Doubled(b) else Doubled(a) + b
  {
    AddendValue(i, a);
    AddendValue(i + 1, b);
  }

  lemma ExchangeArithmetic(a: nat, b: nat)
    requires a < 36 && b < 36
    ensures (a + Doubled(b)) % 36 == (b + Doubled(a)) % 36 <==> a == b || (a == 0 && b == 35) || (a == 35 && b == 0)
  {
    SameModulo(a + Doubled(b), b + Doubled(a));
  }

  /** Numbers less than 36 apart are the same modulo 36 only if they are the same. */
  lemma SameModulo(x: nat, y: nat)
    requires -36 < x - y < 36
    ensures x % 36 == y % 36 <==> x == y
  {
    var p, q := x / 36, y / 36;
    assert x == 36 * p + x % 36 && y == 36 * q + y % 36;
  }

  /** Swapping two neighbours of the prefix goes unnoticed exactly for the pair 0 and Z. */
  lemma SwapDetected(s: string, check: char, i: nat)
    requires AllCode(s) && Fits(s, check) && i + 1 < |s|
    ensures AllCode(Swap(s, i)) && (Fits(Swap(s, i), check) <==> IsBlindPair(s[i], s[i + 1]))
  {
    TotalSwap(s, i);
    ExchangeOfValues(i, Value(s[i]), Value(s[i + 1]));
    BlindPairValues(s[i], s[i + 1]);
    FitsBoth(s, Swap(s, i), check, Neighbours(i, Value(s[i]), Value(s[i + 1])), Neighbours(i, Value(s[i + 1]), Value(s[i])));
  }

  /** If one total exceeds another by y - x, a check character fits both exactly when x and y agree modulo 36. */
  lemma FitsBoth(s: string, t: string, check: char, x: nat, y: nat)
    requires AllCode(s) && AllCode(t) && Fits(s, check) && Total(t) + x == Total(s) + y
    ensures Fits(t, check) <==> x % 36 == y % 36
  {
    SameRemainder(Total(s) + Value(check), Total(t) + Value(check), x, y);
  }

  lemma SameRemainder(a: nat, b: nat, x: nat, y: nat)
    requires b + x == a + y && a % 36 == 0
    ensures b % 36 == 0 <==> x % 36 == y % 36
  {
    var p, q := a / 36, x / 36;
    assert a == 36 * p && x == 36 * q + x % 36;
    var r, k := y % 36, y / 36;
    assert y == 36 * k + r;
    assert b == 36 * (p + k - q) + (r - x % 36);
    if r >= x % 36 {
      assert b % 36 == r - x % 36;
    } else {
      assert b == 36 * (p + k - q - 1) + (36 + r - x % 36);
      assert b % 36 == 36 + r - x % 36;
    }
  }

  /** Swapping the last prefix character with the check character: for an even prefix length again exactly the pair 0
      and Z escapes; for an odd length the two have the same weight and no such swap is noticed. */
  lemma LastSwapDetected(s: string, check: char)
    requires AllCode(s) && Fits(s, check) && s != ""
    ensures var n := |s| - 1;
            AllCode(s[n := check]) &&
            (Fits(s[n := check], s[n]) <==> (|s| % 2 == 0 ==> IsBlindPair(s[n], check)))
  {
    var n := |s| - 1;
    var t := s[n := check];
    TotalReplace(s, n, check);
    assert AllCode(t) && IsCode(s[n]);
    FitsAfterSwap(s, t, n, s[n], check);
    Parity(n);
  }

  lemma Parity(n: nat)
    ensures (n + 1) % 2 == 0 <==> n % 2 == 1
  {
  }

  lemma FitsAfterSwap(s: string, t: string, n: nat, last: char, check: char)
    requires AllCode(s) && AllCode(t) && IsCode(last) && Fits(s, check)
    requires Total(t) + Addend(Weight(n), Value(last)) == Total(s) + Addend(Weight(n), Value(check))
    ensures Fits(t, last) <==> (n % 2 == 1 ==> IsBlindPair(last, check))
  {
    BlindPairValues(last, check);
    LastArithmetic(Total(s), Total(t), n, Value(last), Value(check));
  }

  lemma LastArithmetic(total: nat, swapped: nat, n: nat, a: nat, b: nat)
    requires a < 36 && b < 36 && (total + b) % 36 == 0 && swapped + Addend(Weight(n), a) == total + Addend(Weight(n), b)
    ensures (swapped + a) % 36 == 0 <==> (n % 2 == 1 ==> a == b || (a == 0 && b == 35) || (a == 35 && b == 0))
  {
    LastExchange(n, a, b);
    SameRemainder(total + b, swapped + a, Addend(Weight(n), a) + b, Addend(Weight(n), b) + a);
  }

  lemma LastExchange(n: nat, a: nat, b: nat)
    requires a < 36 && b < 36
    ensures (Addend(Weight(n), a) + b) % 36 == (Addend(Weight(n), b) + a) % 36 <==>
            (n % 2 == 1 ==> a == b || (a == 0 && b == 35) || (a == 35 && b == 0))
  {
    AddendValue(n, a);
    AddendValue(n, b);
    ExchangeArithmetic(b, a);
  }

  // -------------------------------------------------------------- validator

  /** The structure of a GSTIN: state digits, PAN, entity code, Z and check character. */
  ghost predicate HasStructure(s: string) {
    && |s| == 15
    && '0' <= s[0] <= '3' && IsDigit(s[1])
    && (forall i :: 2 <= i < 7 ==> IsLetter(s[i]))
    && (forall i :: 7 <= i < 11 ==> IsDigit(s[i]))
    && IsLetter(s[11]) && IsCode(s[12]) && s[13] == 'Z' && IsCode(s[14])
  }

  /** 01 to 38. */
  predicate IsStateCode(a: char, b: char) {
    IsDigit(a) && IsDigit(b) && 1 <= 10 * Value(a) + Value(b) <= 38
  }

  ghost predicate IsGstin(s: string) {
    && HasStructure(s) && IsStateCode(s[0], s[1])
    && Fits(s[..14], s[14])
  }

  datatype GstinError = Missing | WrongLength | WrongFormat | UnknownState | WrongChecksum

  datatype GstinResult = GstinResult(isValid: bool, gstin: string, stateCode: Option<string>, pan: Option<string>,
                                     errors: seq<GstinError>)

  /** The pattern match, character by character. */
  method MatchesPattern(s: string) returns (matches: bool)
    ensures matches <==> HasStructure(s)
  {
    if |s| != 15 {
      return false;
    }
    for i := 0 to 15
      invariant forall k :: 0 <= k < i ==> MayStandAt(k, s[k])
    {
      if !MayStandAt(i, s[i]) {
        return false;
      }
    }
    return true;
  }

  predicate MayStandAt(i: int, c: char) {
    if i == 0 then '0' <= c <= '3'
    else if i == 1 || 7 <= i < 11 then IsDigit(c)
    else if 2 <= i < 7 || i == 11 then IsLetter(c)
    else if i == 13 then c == 'Z'
    else IsCode(c)
  }

  method ValidateGstin(gstin: Option<string>) returns (result: GstinResult)
    ensures result.isValid <==> gstin.Some? && IsGstin(Upper(Strip(gstin.value)))
    ensures result.isValid <==> result.errors == []
    ensures gstin.None? || gstin.value == "" ==> result.errors == [Missing]
    ensures gstin.Some? && gstin.value != "" ==>
              var cleaned := Upper(Strip(gstin.value));
              && result.gstin == cleaned
              && (WrongLength in result.errors <==> |cleaned| != 15)
              && (WrongFormat in result.errors <==> !HasStructure(cleaned))
              && (HasStructure(cleaned) ==> result.stateCode == Some(cleaned[..2]) && result.pan == Some(cleaned[2..12]))
              && (WrongChecksum in result.errors <==> HasStructure(cleaned) && !Fits(cleaned[..14], cleaned[14]))
              && (UnknownState in result.errors <==> HasStructure(cleaned) && !IsStateCode(cleaned[0], cleaned[1]))
  {
    if gstin.None? || gstin.value == "" {
      return GstinResult(false, "", None, None, [Missing]);
    }
    var cleaned := Upper(Strip(gstin.value));
    var errors: seq<GstinError> := [];
    if |cleaned| != 15 {
      errors := errors + [WrongLength];
    }
    var matches := MatchesPattern(cleaned);
    if !matches {
      errors := errors + [WrongFormat];
      return GstinResult(false, cleaned, None, None, errors);
    }
    if !IsStateCode(cleaned[0], cleaned[1]) {
      errors := errors + [UnknownState];
    }
    var expected := ComputeChecksum(cleaned[..14]);
    var only := OneCheckCharacter(cleaned[..14]);
    if expected != Some(cleaned[14]) {
      errors := errors + [WrongChecksum];
    }
    result := GstinResult(errors == [], cleaned, Some(cleaned[..2]), Some(cleaned[2..12]), errors);
  }

  // ------------------------------------------------------ the check equation

  /** Digits stand for themselves, A to Z for 10 to 35. */
  function Base36(c: char): int { if '0' <= c <= '9' then c as int - 48 else c as int - 55 }

  /** The two base-36 digits of twice the value, added. */
  function Twice(c: char): int { if Base36(c) < 18 then 2 * Base36(c) else 2 * Base36(c) - 35 }

  /** The first n characters, every second one of them doubled. */
  function WeightedSum(s: string, n: nat): int
    requires n <= |s|
  {
    if n == 0 then 0 else WeightedSum(s, n - 1) + if n % 2 == 1 then Base36(s[n - 1]) else Twice(s[n - 1])
  }

  lemma AddendMeans(i: nat, c: char)
    requires IsCode(c)
    ensures Addend(Weight(i), Value(c)) == if i % 2 == 0 then Base36(c) else Twice(c)
  {
    AddendValue(i, Value(c));
  }

  lemma {:induction false} TotalIsWeightedSum(s: string, n: nat)
    requires AllCode(s) && n <= |s|
    ensures Total(s[..n]) == WeightedSum(s, n)
  {
    if n > 0 {
      TotalIsWeightedSum(s, n - 1);
      WeightedStep(s, n - 1);
    }
  }

  lemma WeightedStep(s: string, n: nat)
    requires AllCode(s) && n < |s|
    ensures Total(s[..n + 1]) == Total(s[..n]) + WeightedSum(s, n + 1) - WeightedSum(s, n)
  {
    ChecksumStep(s, n);
    AddendMeans(n, s[n]);
  }

  /** The equation that the fifteen characters of a code word satisfy. */
  predicate Checks(s: string)
    requires |s| == 15
  {
    (Base36(s[0]) + Twice(s[1]) + Base36(s[2]) + Twice(s[3]) + Base36(s[4]) + Twice(s[5]) + Base36(s[6]) + Twice(s[7]) +
     Base36(s[8]) + Twice(s[9]) + Base36(s[10]) + Twice(s[11]) + Base36(s[12]) + Twice(s[13]) + Base36(s[14])) % 36 == 0
  }

  /** A well-formed code fits exactly when it satisfies that equation. */
  lemma CheckEquation(s: string)
    requires |s| == 15 && AllCode(s)
    ensures Fits(s[..14], s[14]) <==> Checks(s)
  {
    TotalIsWeightedSum(s, 14);
    FourteenTerms(s);
  }

  lemma FourTerms(s: string, n: nat)
    requires n % 2 == 0 && n + 4 <= |s|
    ensures WeightedSum(s, n + 2) == WeightedSum(s, n) + Base36(s[n]) + Twice(s[n + 1])
    ensures WeightedSum(s, n + 4) == WeightedSum(s, n + 2) + Base36(s[n + 2]) + Twice(s[n + 3])
  {
  }

  lemma FourteenTerms(s: string)
    requires |s| == 15
    ensures WeightedSum(s, 14) ==
            Base36(s[0]) + Twice(s[1]) + Base36(s[2]) + Twice(s[3]) + Base36(s[4]) + Twice(s[5]) + Base36(s[6]) + Twice(s[7]) +
            Base36(s[8]) + Twice(s[9]) + Base36(s[10]) + Twice(s[11]) + Base36(s[12]) + Twice(s[13])
  {
    FourTerms(s, 0);
    FourTerms(s, 4);
    FourTerms(s, 8);
    FourTerms(s, 10);
  }

  /** One of 01 to 38. */
  predicate IsStateDigits(a: char, b: char) {
    (a == '0' && '1' <= b <= '9') || ('1' <= a <= '2' && '0' <= b <= '9') || (a == '3' && '0' <= b <= '8')
  }

  predicate IsAlnum(c: char) { '0' <= c <= '9' || 'A' <= c <= 'Z' }

  /** A GSTIN, place by place: a state, a PAN of five letters, four digits and a letter, a digit or letter, the letter Z, and a
      last digit or letter for which the equation holds. */
  lemma GstinMeans(s: string)
    ensures IsGstin(s) <==>
            && |s| == 15 && IsStateDigits(s[0], s[1])
            && (forall i :: 2 <= i < 7 ==> 'A' <= s[i] <= 'Z') && (forall i :: 7 <= i < 11 ==> '0' <= s[i] <= '9') && 'A' <= s[11] <= 'Z'
            && IsAlnum(s[12]) && s[13] == 'Z' && IsAlnum(s[14]) && Checks(s)
  {
    if |s| == 15 {
      StateDigits(s[0], s[1]);
      if HasStructure(s) {
        StructureIsCode(s);
        CheckEquation(s);
      }
    }
  }

  lemma StateDigits(a: char, b: char)
    ensures IsStateCode(a, b) <==> IsStateDigits(a, b)
  {
  }

  /** A GSTIN in practice. */
  lemma KnownGstin()
    ensures IsGstin("27AAPFU0939F1ZV")
  {
    var s := "27AAPFU0939F1ZV";
    StructureIsCode(s);
    CheckEquation(s);
  }

  // ------------------------------------------------ what the validator catches

  lemma StructureIsCode(s: string)
    requires HasStructure(s)
    ensures AllCode(s)
  {
  }

  /** No GSTIN turns into another by changing one character, to whatever character. */
  lemma WrongCharacterIsRejected(s: string, i: nat, c: char)
    requires IsGstin(s) && i < 15 && c != s[i]
    ensures !IsGstin(s[i := c])
  {
    var t := s[i := c];
    if HasStructure(t) {
      StructureIsCode(s);
      StructureIsCode(t);
      assert IsCode(t[i]);
      SubstitutionDetected(s[..14], s[14], i, c);
      assert i < 14 ==> t[..14] == s[..14][i := c];
      assert i == 14 ==> t[..14] == s[..14];
    }
  }

  /** Nor by swapping two different neighbours: where the check character is blind, to 0 and Z, the structure is not,
      as no two neighbouring places admit both. */
  lemma SwappedNeighboursAreRejected(s: string, i: nat)
    requires IsGstin(s) && i + 1 < 15 && s[i] != s[i + 1]
    ensures !IsGstin(Swap(s, i))
  {
    var t := Swap(s, i);
    if HasStructure(t) {
      StructureIsCode(s);
      assert t[i] == s[i + 1] && t[i + 1] == s[i];
      NoBlindPair(s, t, i);
      SwapDetected(s[..14], s[14], i);
      assert t[..14] == Swap(s[..14], i) && t[14] == s[14];
    }
  }

  lemma NoBlindPair(s: string, t: string, i: nat)
    requires HasStructure(s) && HasStructure(t) && i + 1 < 15 && t == Swap(s, i) && s[i] != s[i + 1]
    ensures i < 12 && !IsBlindPair(s[i], s[i + 1])
  {
    assert t[i] == s[i + 1] && t[i + 1] == s[i];
    assert s[13] == 'Z' && t[13] == 'Z';
    assert i != 12 && i != 13;
  }
}
