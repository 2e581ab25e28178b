/**
 * EAN-8: seven data digits and a check digit.
 *
 * The stream is a start guard, four left-hand characters of odd parity, a
 * centre guard, four right-hand characters and an end guard; the check
 * digit is the last right-hand one.
 */
module Ean8 {
  import opened Digits
  import opened Bars
  import opened Checksum

  /** The width terms of getDimension: start, centre, eight characters, end. */
  const StartLength: nat := 3
  const CenterLength: nat := 5
  const TextLength: nat := 8 * 7
  const EndLength: nat := 3

  /** validate: no data, then the first character outside the keys, then the length; 8 digits lose the last, unchecked. */
  function Normalize(raw: string): (r: Result<string>)
    ensures r.Ok? <==> AllDigits(raw) && (|raw| == 7 || |raw| == 8)
    ensures r.Ok? ==> r.value == raw[..7]
    ensures r.Err? && CheckData("Ean8", raw).Fail? ==> r.error == CheckData("Ean8", raw).error
    ensures r.Err? && CheckData("Ean8", raw).Pass? ==> r.error == ParseError("Ean8", WrongLength)
  {
    match CheckData("Ean8", raw)
    case Fail(e) => Err(e)
    case Pass =>
      if |raw| == 8 then Ok(raw[..7])
      else if |raw| == 7 then Ok(raw)
      else Err(ParseError("Ean8", WrongLength))
  }

  /** An 8th digit, the check digit or any other, is dropped unchecked. */
  lemma NormalizeDropsCheckDigit(t: string, d: char)
    requires |t| == 7 && IsDigit(d)
    ensures Normalize(t + [d]) == Normalize(t)
  {
    assert (t + [d])[..7] == t;
    if AllDigits(t) {
      assert AllDigits(t + [d]);
    } else {
      var k :| 0 <= k < |t| && !IsDigit(t[k]);
      assert (t + [d])[k] == t[k];
    }
  }

  /** The stream draw emits for the seven digits and their check digit. */
  function BarStream(t: string): seq<Emission>
    requires |t| == 8 && AllDigits(t)
  {
    [StartGuard] + LeftRun(t[..4], OddRow(4)) + [CenterGuard] + RightRun(t[4..]) + [EndGuard]
  }

  /** 11 emissions covering 67 modules, as getDimension counts them, colours alternating. */
  lemma BarStreamShape(t: string)
    requires |t| == 8 && AllDigits(t)
    ensures |BarStream(t)| == 11
    ensures WellFormed(BarStream(t))
    ensures TotalModules(BarStream(t)) == StartLength + CenterLength + TextLength + EndLength
  {
    var left := LeftRun(t[..4], OddRow(4));
    var right := RightRun(t[4..]);
    Single(StartGuard);
    LeftRunShape(t[..4], OddRow(4));
    Join([StartGuard], left);
    Single(CenterGuard);
    Join([StartGuard] + left, [CenterGuard]);
    RightRunShape(t[4..]);
    Join([StartGuard] + left + [CenterGuard], right);
    Single(EndGuard);
    Join([StartGuard] + left + [CenterGuard] + right, [EndGuard]);
  }

  /** What a scanner reads back: eight digits, the left half required to be of odd parity. */
  function Decode(s: seq<Emission>): Option<string> {
    if |s| != 11 || s[0] != StartGuard || s[5] != CenterGuard || s[10] != EndGuard then None
    else match (DecodeLeftRun(s[1..5]), DecodeRightRun(s[6..10]))
      case (Some(left), Some(right)) =>
        if left.1 != OddRow(4) then None else Some(left.0 + right)
      case _ => None
  }

  lemma StreamOfParts(before: seq<Emission>, after: seq<Emission>, t: string)
    requires |t| == 8 && AllDigits(t)
    requires after == before + [StartGuard] + LeftRun(t[..4], OddRow(4)) + [CenterGuard] + RightRun(t[4..]) + [EndGuard]
    ensures after == before + BarStream(t)
  {
  }

  /** Where each part of the stream sits. */
  lemma BarStreamLayout(t: string)
    requires |t| == 8 && AllDigits(t)
    ensures |BarStream(t)| == 11
    ensures BarStream(t)[0] == StartGuard && BarStream(t)[5] == CenterGuard && BarStream(t)[10] == EndGuard
    ensures BarStream(t)[1..5] == LeftRun(t[..4], OddRow(4)) && BarStream(t)[6..10] == RightRun(t[4..])
  {
    var left := LeftRun(t[..4], OddRow(4));
    var right := RightRun(t[4..]);
    assert BarStream(t) == [StartGuard] + left + [CenterGuard] + right + [EndGuard];
  }

  /** The drawn stream determines the number: decoding it gives back all eight digits. */
  lemma DecodeBarStream(t: string)
    requires |t| == 8 && AllDigits(t)
    ensures Decode(BarStream(t)) == Some(t)
  {
    BarStreamLayout(t);
    DecodeLaidOut(BarStream(t), t);
  }

  lemma DecodeLaidOut(s: seq<Emission>, t: string)
    requires |t| == 8 && AllDigits(t) && |s| == 11
    requires s[0] == StartGuard && s[5] == CenterGuard && s[10] == EndGuard
    requires s[1..5] == LeftRun(t[..4], OddRow(4)) && s[6..10] == RightRun(t[4..])
    ensures Decode(s) == Some(t)
  {
    assert DecodeLeftRun(s[1..5]) == Some((t[..4], OddRow(4))) by {
      DecodeLeftRunOf(t[..4], OddRow(4));
    }
    assert DecodeRightRun(s[6..10]) == Some(t[4..]) by {
      DecodeRightRunOf(t[4..]);
    }
    assert t[..4] + t[4..] == t;
  }

  /**
   * draw: the start guard, the first four characters of the text and check
   * digit as left-hand odd ones, the centre guard, the last four as
   * right-hand ones, the end guard.
   */
  method EmitBars(image: Surface, tempText: string)
    requires |tempText| == 8 && AllDigits(tempText)
    modifies image
    ensures image.emitted == old(image.emitted) + BarStream(tempText)
  {
    ghost var before := image.emitted;
    image.DrawChar("000", true);
    EmitOddRun(image, tempText[..4]);
    image.DrawChar("00000", false);
    EmitRightRun(image, tempText[4..]);
    image.DrawChar("000", true);
    StreamOfParts(before, image.emitted, tempText);
  }

  /** The EAN-8 barcode object: its text and its memoised check digit. */
  class Barcode {
    var text: string
    var checksumValue: Option<nat>

    /** The stored check digit, once there is one, is a key's index. */
    predicate Valid()
      reads this
    {
      checksumValue.Some? ==> checksumValue.value < 10
    }

    constructor (text: string)
      ensures this.text == text && checksumValue == None
      ensures Valid()
    {
      this.text := text;
      checksumValue := None;
    }

    /** validate: no data, the character loop, then 8 digits cut to 7, 7 kept, any other length thrown. */
    method Validate() returns (r: Outcome)
      requires Valid()
      modifies this
      ensures Valid()
      ensures checksumValue == old(checksumValue)
      ensures Normalize(old(text)).Ok? ==> r == Pass && text == Normalize(old(text)).value
      ensures Normalize(old(text)).Err? ==> r == Fail(Normalize(old(text)).error) && text == old(text)
    {
      var c := |text|;
      if c == 0 {
        return Fail(ParseError("Ean8", NoData));
      }
      r := CheckCharsAllowed("Ean8", text);
      if r.Fail? {
        return;
      }
      if c == 8 {
        text := text[..7];
      } else if c != 7 {
        return Fail(ParseError("Ean8", WrongLength));
      }
    }

    /** calculateChecksum over the current text. */
    method CalculateChecksum()
      requires AllDigits(text)
      requires Valid()
      modifies this
      ensures Valid()
      ensures text == old(text) && checksumValue == Some(CheckDigit(text))
    {
      var c := CalculateCheckDigit(text);
      checksumValue := Some(c);
    }

    /** processChecksum: the check digit is computed on the first call only; every call returns its key. */
    method ProcessChecksum() returns (key: char)
      requires AllDigits(text)
      requires Valid()
      modifies this
      ensures Valid()
      ensures text == old(text)
      ensures old(checksumValue).Some? ==> checksumValue == old(checksumValue)
      ensures old(checksumValue).None? ==> checksumValue == Some(CheckDigit(text))
      ensures checksumValue.Some? && checksumValue.value < 10 && key == DigitChar(checksumValue.value)
    {
      if checksumValue.None? {
        CalculateChecksum();
      }
      key := DigitChar(checksumValue.value);
    }

    /** draw: recompute the check digit, then emit the stream of the seven digits and that digit. */
    method Draw(image: Surface)
      requires |text| == 7 && AllDigits(text)
      requires Valid()
      modifies this, image
      ensures Valid()
      ensures text == old(text) && checksumValue == Some(CheckDigit(text))
      ensures image.emitted == old(image.emitted) + BarStream(text + [DigitChar(CheckDigit(text))])
    {
      CalculateChecksum();
      var tempText := text + [DigitChar(checksumValue.value)];
      EmitBars(image, tempText);
    }
  }

  /** The stream drawn for a validated number reads back as that number with its check digit, which verifies. */
  lemma DrawnNumberScans(t: string)
    requires |t| == 7 && AllDigits(t)
    ensures AllDigits(t + [DigitChar(CheckDigit(t))])
    ensures Decode(BarStream(t + [DigitChar(CheckDigit(t))])) == Some(t + [DigitChar(CheckDigit(t))])
    ensures WeightedSum(t + [DigitChar(CheckDigit(t))], 1, 3) % 10 == 0
  {
    var d := DigitChar(CheckDigit(t));
    CompleteNumberVerifies(t, d);
    DecodeBarStream(t + [d]);
  }

  /** 1234567 has the check digit 0 (weighted sum 60). */
  lemma CheckDigitExample(t: string)
    requires t == "1234567"
    ensures AllDigits(t) && CheckDigit(t) == 0
  {
    ExampleParts();
    assert t == "123" + "4567";
    WeightedSumConcat("123", "4567", 3, 1);
  }

  lemma ExampleParts()
    ensures AllDigits("123") && WeightedSum("123", 3, 1) == 14
    ensures AllDigits("4567") && WeightedSum("4567", 3, 1) == 46
  {
  }
}
