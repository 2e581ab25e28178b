/**
 * The family's mod-10 check characters.
 *
 * Every checksum loop walks the text from its right end, giving the rightmost
 * digit an "odd" position, and alternates two weights. EAN-13, UPC-A, EAN-8
 * and UPC-E weigh odd positions 3 and even ones 1 and take the complement of
 * the sum modulo 10; the 5-digit supplement weighs them 3 and 9 and keeps the
 * sum modulo 10 as it is.
 */
module Checksum {
  import opened Digits

  /** The weight of the digit k places from the right end (k = 0 is the rightmost, an odd position). */
  function WeightAt(k: nat, oddWeight: nat, evenWeight: nat): nat {
    if k % 2 == 0 then oddWeight else evenWeight
  }

  /** Sum over the digits of value times weight, positions counted from the right. */
  function WeightedSum(s: string, oddWeight: nat, evenWeight: nat): nat
    requires AllDigits(s)
  {
    if s == [] then 0
    else DigitValue(s[0]) * WeightAt(|s| - 1, oddWeight, evenWeight) + WeightedSum(s[1..], oddWeight, evenWeight)
  }

  /**
   * The checksum loop: i runs from the length down to 1, the multiplier
   * toggles between the two weights starting with the odd one, and each
   * digit's value times the multiplier is added to the running sum.
   */
  method AccumulateWeighted(text: string, oddWeight: nat, evenWeight: nat) returns (sum: nat)
    requires AllDigits(text)
    ensures sum == WeightedSum(text, oddWeight, evenWeight)
  {
    var odd := true;
    sum := 0;
    var i := |text|;
    while i > 0
      invariant 0 <= i <= |text|
      invariant odd <==> (|text| - i) % 2 == 0
      invariant sum == WeightedSum(text[i..], oddWeight, evenWeight)
    {
      var multiplier: nat;
      if odd {
        multiplier := oddWeight;
        odd := false;
      } else {
        multiplier := evenWeight;
        odd := true;
      }
      assert text[i - 1..][1..] == text[i..];
      sum := sum + DigitValue(text[i - 1]) * multiplier;
      i := i - 1;
    }
    assert text[0..] == text;
  }

  /**
   * Formula A, (10 - sum mod 10) mod 10 over the 3/1 weighted sum: the one
   * digit that brings the weighted sum to a multiple of ten.
   */
  function CheckDigit(s: string): (c: nat)
    requires AllDigits(s)
    ensures c < 10
    ensures (WeightedSum(s, 3, 1) + c) % 10 == 0
  {
    (10 - WeightedSum(s, 3, 1) % 10) % 10
  }

  /** Formula B of the 5-digit supplement: the 3/9 weighted sum modulo 10, not complemented. */
  function SupplementCheck(s: string): (c: nat)
    requires AllDigits(s)
    ensures c < 10
    ensures (WeightedSum(s, 3, 9) + 10 - c) % 10 == 0
  {
    WeightedSum(s, 3, 9) % 10
  }

  /** calculateChecksum of EAN-13, UPC-A, EAN-8 and UPC-E: the 3/1 loop, then (10 - sum mod 10) mod 10. */
  method CalculateCheckDigit(text: string) returns (c: nat)
    requires AllDigits(text)
    ensures c == CheckDigit(text)
  {
    var sum := AccumulateWeighted(text, 3, 1);
    c := (10 - sum % 10) % 10;
  }

  /** calculateChecksum of the 5-digit supplement: the 3/9 loop, then sum mod 10. */
  method CalculateSupplementCheck(text: string) returns (c: nat)
    requires AllDigits(text)
    ensures c == SupplementCheck(text)
  {
    var sum := AccumulateWeighted(text, 3, 9);
    c := sum % 10;
  }

  /** The check digit is the only digit that completes the weighted sum to a multiple of ten. */
  lemma CheckDigitUnique(s: string, c: nat)
    requires AllDigits(s) && c < 10
    ensures (WeightedSum(s, 3, 1) + c) % 10 == 0 <==> c == CheckDigit(s)
  {
    Complement(WeightedSum(s, 3, 1), c);
  }

  /** Modulo 10, exactly one digit completes a sum to a multiple of ten. */
  lemma Complement(sum: nat, c: nat)
    requires c < 10
    ensures (sum + c) % 10 == 0 <==> c == (10 - sum % 10) % 10
  {
    var q, r := sum / 10, sum % 10;
    assert sum + c == 10 * q + (r + c);
    assert (sum + c) % 10 == (r + c) % 10;
  }

  /** Appending a digit moves every other digit one place from the right, swapping their weights. */
  lemma {:induction false} WeightedSumAppend(s: string, d: char, oddWeight: nat, evenWeight: nat)
    requires AllDigits(s) && IsDigit(d)
    ensures AllDigits(s + [d])
    ensures WeightedSum(s + [d], oddWeight, evenWeight) ==
            WeightedSum(s, evenWeight, oddWeight) + DigitValue(d) * oddWeight
  {
    if s == [] {
      assert [] + [d] == [d];
      assert [d][1..] == [];
    } else {
      assert (s + [d])[0] == s[0] && (s + [d])[1..] == s[1..] + [d];
      assert WeightAt(|s|, oddWeight, evenWeight) == WeightAt(|s| - 1, evenWeight, oddWeight);
      WeightedSumAppend(s[1..], d, oddWeight, evenWeight);
    }
  }

  /** Digits in front of an even-length tail keep the weights they would have alone. */
  lemma {:induction false} WeightedSumConcat(a: string, b: string, oddWeight: nat, evenWeight: nat)
    requires AllDigits(a) && AllDigits(b) && |b| % 2 == 0
    ensures AllDigits(a + b)
    ensures WeightedSum(a + b, oddWeight, evenWeight) == WeightedSum(a, oddWeight, evenWeight) + WeightedSum(b, oddWeight, evenWeight)
  {
    if a == [] {
      assert a + b == b;
    } else {
      assert (a + b)[0] == a[0] && (a + b)[1..] == a[1..] + b;
      assert (|a + b| - 1) % 2 == (|a| - 1) % 2;
      WeightedSumConcat(a[1..], b, oddWeight, evenWeight);
    }
  }

  /**
   * The scanner's verification of a complete number (check digit included,
   * now the rightmost, weighed 1): the 1/3 weighted sum is a multiple of ten
   * exactly when the last digit is the check digit of the others.
   */
  lemma CompleteNumberVerifies(s: string, d: char)
    requires AllDigits(s) && IsDigit(d)
    ensures AllDigits(s + [d])
    ensures WeightedSum(s + [d], 1, 3) % 10 == 0 <==> DigitValue(d) == CheckDigit(s)
  {
    WeightedSumAppend(s, d, 1, 3);
    CheckDigitUnique(s, DigitValue(d));
  }

  /** Leading zeros weigh nothing, so they change neither formula. */
  lemma {:induction false} LeadingZero(s: string, oddWeight: nat, evenWeight: nat)
    requires AllDigits(s)
    ensures AllDigits(['0'] + s)
    ensures WeightedSum(['0'] + s, oddWeight, evenWeight) == WeightedSum(s, oddWeight, evenWeight)
    ensures CheckDigit(['0'] + s) == CheckDigit(s)
  {
    assert (['0'] + s)[0] == '0' && (['0'] + s)[1..] == s;
  }

  /** Replacing the digit at i changes the sum by the change of value times that position's weight. */
  lemma {:induction false} WeightedSumReplace(s: string, i: nat, c: char, oddWeight: nat, evenWeight: nat)
    requires AllDigits(s) && i < |s| && IsDigit(c)
    ensures AllDigits(s[i := c])
    ensures WeightedSum(s[i := c], oddWeight, evenWeight) + DigitValue(s[i]) * WeightAt(|s| - 1 - i, oddWeight, evenWeight) ==
            WeightedSum(s, oddWeight, evenWeight) + DigitValue(c) * WeightAt(|s| - 1 - i, oddWeight, evenWeight)
  {
    var t := s[i := c];
    if i == 0 {
      assert t[1..] == s[1..];
    } else {
      assert t[1..] == s[1..][i - 1 := c];
      WeightedSumReplace(s[1..], i - 1, c, oddWeight, evenWeight);
    }
  }

  /** Two numbers m*x apart, for a weight m prime to ten and a non-zero digit difference x, differ modulo ten. */
  lemma Shift(a: int, b: int, x: int, m: int)
    requires m == 1 || m == 3 || m == 9
    requires -10 < x < 10 && x != 0
    requires b - a == m * x
    ensures a % 10 != b % 10
  {
    if m == 1 {
      assert b - a == x;
    } else if m == 3 {
      assert b - a == 3 * x;
    } else {
      assert b - a == 9 * x;
    }
  }

  /**
   * Two sums that differ by a change of one digit value, times a weight
   * prime to ten, differ modulo ten.
   */
  lemma ChangeIsVisible(a: int, b: int, u: int, v: int, w: int)
    requires 0 <= u < 10 && 0 <= v < 10 && u != v
    requires w == 1 || w == 3 || w == 9
    requires b + u * w == a + v * w
    ensures a % 10 != b % 10
  {
    assert b - a == w * (v - u);
    Shift(a, b, v - u, w);
  }

  /** Formula A catches every single-digit substitution: its check digit changes. */
  lemma CheckDigitDetectsSubstitution(s: string, i: nat, c: char)
    requires AllDigits(s) && i < |s| && IsDigit(c) && c != s[i]
    ensures AllDigits(s[i := c])
    ensures CheckDigit(s[i := c]) != CheckDigit(s)
  {
    SubstitutionShift(s, i, c, 3, 1);
    ComplementInjective(WeightedSum(s, 3, 1) % 10, WeightedSum(s[i := c], 3, 1) % 10);
  }

  /** Distinct residues have distinct complements. */
  lemma ComplementInjective(p: int, q: int)
    requires 0 <= p < 10 && 0 <= q < 10 && p != q
    ensures (10 - p) % 10 != (10 - q) % 10
  {
    if p == 0 {
      assert (10 - q) % 10 == 10 - q;
    } else if q == 0 {
      assert (10 - p) % 10 == 10 - p;
    } else {
      assert (10 - p) % 10 == 10 - p && (10 - q) % 10 == 10 - q;
    }
  }

  /** Formula B catches every single-digit substitution too: the weights 3 and 9 are prime to ten. */
  lemma SupplementCheckDetectsSubstitution(s: string, i: nat, c: char)
    requires AllDigits(s) && i < |s| && IsDigit(c) && c != s[i]
    ensures AllDigits(s[i := c])
    ensures SupplementCheck(s[i := c]) != SupplementCheck(s)
  {
    SubstitutionShift(s, i, c, 3, 9);
  }

  /** The two weighted sums of a single-digit substitution differ modulo ten, for weights prime to ten. */
  lemma SubstitutionShift(s: string, i: nat, c: char, oddWeight: nat, evenWeight: nat)
    requires AllDigits(s) && i < |s| && IsDigit(c) && c != s[i]
    requires oddWeight in {1, 3, 9} && evenWeight in {1, 3, 9}
    ensures AllDigits(s[i := c])
    ensures WeightedSum(s, oddWeight, evenWeight) % 10 != WeightedSum(s[i := c], oddWeight, evenWeight) % 10
  {
    WeightedSumReplace(s, i, c, oddWeight, evenWeight);
    ChangeIsVisible(WeightedSum(s, oddWeight, evenWeight), WeightedSum(s[i := c], oddWeight, evenWeight),
                    DigitValue(s[i]), DigitValue(c), WeightAt(|s| - 1 - i, oddWeight, evenWeight));
  }
}
