/**
 * UPC-E zero suppression: the six-digit compressed form of an 11-digit
 * UPC-A number (system digit, five manufacturer digits, five product
 * digits), and its expansion back to the ten digits after the system digit.
 *
 * Compression picks one branch by where the manufacturer code's zeros are,
 * then either fits the product digits into that branch or gives up; the
 * last compressed digit records the branch, and expansion reads it back.
 */
module UpceConversion {
  import opened Digits

  /** The branches of the compression chain, in the order they are tried. */
  datatype Branch =
    | HundredsZero // manufacturer ends with 000, 100 or 200
    | TensZero     // otherwise, manufacturer ends with 00
    | UnitsZero    // otherwise, manufacturer ends with 0
    | NoZero       // no zero at the end of the manufacturer code

  /** The branch the chain enters, judged on the manufacturer code only. */
  function BranchOf(x: string): Branch
    requires |x| == 11
  {
    var m := x[3..6];
    if m == "000" || m == "100" || m == "200" then HundredsZero
    else if x[4..6] == "00" then TensZero
    else if x[5..6] == "0" then UnitsZero
    else NoZero
  }

  /** The product-digit condition of each branch. */
  predicate ProductFits(x: string, b: Branch)
    requires |x| == 11 && AllDigits(x)
  {
    match b
    case HundredsZero => x[6..8] == "00"
    case TensZero => x[6..9] == "000"
    case UnitsZero => x[6..10] == "0000"
    case NoZero => x[6..10] == "0000" && 5 <= DigitValue(x[10]) <= 9
  }

  /**
   * The conversion part of validate for an 11-digit input: the first branch
   * whose manufacturer test holds decides, and if its product test fails
   * there is no compressed form (no later branch is tried).
   */
  function Compress(x: string): (r: Option<string>)
    requires |x| == 11 && AllDigits(x)
    ensures r.Some? ==> |r.value| == 6 && AllDigits(r.value)
  {
    var m := x[3..6];
    if m == "000" || m == "100" || m == "200" then
      if x[6..8] == "00" then Some(x[1..3] + x[8..11] + x[3..4]) else None
    else if x[4..6] == "00" then
      if x[6..9] == "000" then Some(x[1..4] + x[9..11] + "3") else None
    else if x[5..6] == "0" then
      if x[6..10] == "0000" then Some(x[1..5] + x[10..11] + "4") else None
    else if x[6..10] == "0000" && 5 <= DigitValue(x[10]) <= 9 then Some(x[1..6] + x[10..11])
    else None
  }

  /** The expansion of a six-digit UPC-E, chosen by its last digit: the ten digits after the system digit. */
  function Expand(e: string): (r: string)
    requires |e| == 6 && AllDigits(e)
    ensures |r| == 10 && AllDigits(r)
  {
    if e[5] == '0' || e[5] == '1' || e[5] == '2' then e[..2] + [e[5]] + "0000" + e[2..5]
    else if e[5] == '3' then e[..3] + "00000" + e[3..5]
    else if e[5] == '4' then e[..4] + "00000" + [e[4]]
    else e[..5] + "0000" + [e[5]]
  }

  /** The branch a compressed form's last digit names, as expansion reads it. */
  function BranchOfLast(d: char): Branch
    requires IsDigit(d)
  {
    if d <= '2' then HundredsZero
    else if d == '3' then TensZero
    else if d == '4' then UnitsZero
    else NoZero
  }

  /**
   * The compressed forms compression can produce: the digit the branch
   * leaves in front of its marker must not have sent the UPC-A to an
   * earlier branch.
   */
  predicate Canonical(e: string)
    requires |e| == 6 && AllDigits(e)
  {
    (e[5] == '3' ==> e[2] >= '3') &&
    (e[5] == '4' ==> e[3] != '0') &&
    (e[5] >= '5' ==> e[4] != '0')
  }

  /** Compression succeeds exactly when the branch entered accepts the product digits. */
  lemma CompressSucceeds(x: string)
    requires |x| == 11 && AllDigits(x)
    ensures Compress(x).Some? <==> ProductFits(x, BranchOf(x))
  {
  }

  /** A compressed form's last digit names the branch that produced it. */
  lemma CompressRecordsBranch(x: string)
    requires |x| == 11 && AllDigits(x) && Compress(x).Some?
    ensures BranchOfLast(Compress(x).value[5]) == BranchOf(x)
  {
    assert x[3..6][0] == x[3] && x[3..4] == [x[3]] && x[10..11] == [x[10]];
  }

  /**
   * Round trip: expanding the compressed form of an accepted UPC-A gives
   * back everything after its system digit, and the form is canonical.
   */
  lemma ExpandCompress(x: string)
    requires |x| == 11 && AllDigits(x) && Compress(x).Some?
    ensures Canonical(Compress(x).value)
    ensures Expand(Compress(x).value) == x[1..]
  {
    var c := Compress(x).value;
    var m := x[3..6];
    if m == "000" || m == "100" || m == "200" {
      ExpandHundreds(x, c);
    } else if x[4..6] == "00" {
      ExpandTens(x, c);
    } else if x[5..6] == "0" {
      ExpandUnits(x, c);
    } else {
      ExpandNoZero(x, c);
    }
  }

  lemma ExpandHundreds(x: string, c: string)
    requires |x| == 11 && AllDigits(x)
    requires (x[3..6] == "000" || x[3..6] == "100" || x[3..6] == "200") && x[6..8] == "00"
    requires c == x[1..3] + x[8..11] + x[3..4]
    ensures |c| == 6 && AllDigits(c) && Canonical(c) && Expand(c) == x[1..]
  {
    assert x[3..6] == [x[3], x[4], x[5]] && x[6..8] == [x[6], x[7]];
    assert c == [x[1], x[2], x[8], x[9], x[10], x[3]];
    assert x[4] == '0' && x[5] == '0' && x[6] == '0' && x[7] == '0';
    assert c[5] == '0' || c[5] == '1' || c[5] == '2';
    assert Expand(c) == [x[1], x[2], x[3], '0', '0', '0', '0', x[8], x[9], x[10]];
    EqualTen(Expand(c), x[1..]);
  }

  lemma ExpandTens(x: string, c: string)
    requires |x| == 11 && AllDigits(x)
    requires x[3..6] != "000" && x[3..6] != "100" && x[3..6] != "200" && x[4..6] == "00" && x[6..9] == "000"
    requires c == x[1..4] + x[9..11] + "3"
    ensures |c| == 6 && AllDigits(c) && Canonical(c) && Expand(c) == x[1..]
  {
    assert x[4..6] == [x[4], x[5]] && x[6..9] == [x[6], x[7], x[8]];
    assert x[3..6] == [x[3], x[4], x[5]];
    assert c == [x[1], x[2], x[3], x[9], x[10], '3'];
    EqualTen(Expand(c), x[1..]);
  }

  lemma ExpandUnits(x: string, c: string)
    requires |x| == 11 && AllDigits(x)
    requires x[4..6] != "00" && x[5..6] == "0" && x[6..10] == "0000"
    requires c == x[1..5] + x[10..11] + "4"
    ensures |c| == 6 && AllDigits(c) && Canonical(c) && Expand(c) == x[1..]
  {
    assert x[4..6] == [x[4], x[5]] && x[5..6] == [x[5]] && x[6..10] == [x[6], x[7], x[8], x[9]];
    assert c == [x[1], x[2], x[3], x[4], x[10], '4'];
    EqualTen(Expand(c), x[1..]);
  }

  lemma ExpandNoZero(x: string, c: string)
    requires |x| == 11 && AllDigits(x)
    requires x[5..6] != "0" && x[6..10] == "0000" && 5 <= DigitValue(x[10]) <= 9
    requires c == x[1..6] + x[10..11]
    ensures |c| == 6 && AllDigits(c) && Canonical(c) && Expand(c) == x[1..]
  {
    assert x[5..6] == [x[5]] && x[6..10] == [x[6], x[7], x[8], x[9]];
    assert c == [x[1], x[2], x[3], x[4], x[5], x[10]];
    EqualTen(Expand(c), x[1..]);
  }

  /** Any canonical form compresses back from its expansion, whatever the system digit. */
  lemma CompressExpand(s: char, e: string)
    requires IsDigit(s) && |e| == 6 && AllDigits(e) && Canonical(e)
    ensures AllDigits([s] + Expand(e))
    ensures Compress([s] + Expand(e)) == Some(e)
  {
    var x := [s] + Expand(e);
    if e[5] <= '2' {
      CompressExpandHundreds(s, e, x);
    } else if e[5] == '3' {
      CompressExpandTens(s, e, x);
    } else if e[5] == '4' {
      CompressExpandUnits(s, e, x);
    } else {
      CompressExpandNoZero(s, e, x);
    }
  }

  lemma CompressExpandHundreds(s: char, e: string, x: string)
    requires IsDigit(s) && |e| == 6 && AllDigits(e) && e[5] <= '2' && x == [s] + Expand(e)
    ensures AllDigits(x) && Compress(x) == Some(e)
  {
    assert x == [s] + e[..2] + [e[5]] + "0000" + e[2..5];
    assert x[3..6] == [e[5], '0', '0'];
    assert x[6..8] == "00";
    EqualSix(x[1..3] + x[8..11] + x[3..4], e);
  }

  lemma CompressExpandTens(s: char, e: string, x: string)
    requires IsDigit(s) && |e| == 6 && AllDigits(e) && e[5] == '3' && e[2] >= '3' && x == [s] + Expand(e)
    ensures AllDigits(x) && Compress(x) == Some(e)
  {
    assert x == [s] + e[..3] + "00000" + e[3..5];
    assert x[3..6] == [e[2], '0', '0'] && x[4..6] == "00";
    assert x[6..9] == "000";
    EqualSix(x[1..4] + x[9..11] + "3", e);
  }

  lemma CompressExpandUnits(s: char, e: string, x: string)
    requires IsDigit(s) && |e| == 6 && AllDigits(e) && e[5] == '4' && e[3] != '0' && x == [s] + Expand(e)
    ensures AllDigits(x) && Compress(x) == Some(e)
  {
    assert x == [s] + e[..4] + "00000" + [e[4]];
    assert x[3..6] == [e[2], e[3], '0'] && x[4..6] == [e[3], '0'] && x[5..6] == "0";
    assert x[6..10] == "0000";
    EqualSix(x[1..5] + x[10..11] + "4", e);
  }

  lemma CompressExpandNoZero(s: char, e: string, x: string)
    requires IsDigit(s) && |e| == 6 && AllDigits(e) && e[5] >= '5' && e[4] != '0' && x == [s] + Expand(e)
    ensures AllDigits(x) && Compress(x) == Some(e)
  {
    assert x == [s] + e[..5] + "0000" + [e[5]];
    assert x[3..6] == [e[2], e[3], e[4]] && x[4..6] == [e[3], e[4]] && x[5..6] == [e[4]];
    assert x[6..10] == "0000" && x[10] == e[5];
    EqualSix(x[1..6] + x[10..11], e);
  }

  /**
   * Compression as a relation: an 11-digit UPC-A compresses to e exactly
   * when e is canonical and expands to the ten digits after the system digit.
   */
  lemma CompressIff(x: string, e: string)
    requires |x| == 11 && AllDigits(x) && |e| == 6 && AllDigits(e)
    ensures Compress(x) == Some(e) <==> Canonical(e) && Expand(e) == x[1..]
  {
    if Compress(x) == Some(e) {
      ExpandCompress(x);
    }
    if Canonical(e) && Expand(e) == x[1..] {
      CompressExpand(x[0], e);
      assert [x[0]] + x[1..] == x;
    }
  }

  lemma EqualTen(a: string, b: string)
    requires |a| == 10 && |b| == 10
    requires a[0] == b[0] && a[1] == b[1] && a[2] == b[2] && a[3] == b[3] && a[4] == b[4]
    requires a[5] == b[5] && a[6] == b[6] && a[7] == b[7] && a[8] == b[8] && a[9] == b[9]
    ensures a == b
  {
  }

  lemma EqualSix(a: string, b: string)
    requires |a| == 6 && |b| == 6
    requires a[0] == b[0] && a[1] == b[1] && a[2] == b[2] && a[3] == b[3] && a[4] == b[4] && a[5] == b[5]
    ensures a == b
  {
  }

  /** 123456 expands to 1234500006 and 789012 to 7820000901. */
  lemma ExpandExamples(a: string, b: string)
    requires a == "123456" && b == "789012"
    ensures AllDigits(a) && Expand(a) == "1234500006"
    ensures AllDigits(b) && Expand(b) == "7820000901"
  {
  }
}
