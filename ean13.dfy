/**
 * EAN-13: twelve data digits and a check digit.
 *
 * The first digit is never drawn as a pattern: it selects which of the five
 * manufacturer digits after the second are drawn with even parity (reversed).
 * The stream is a start guard, seven left-hand characters, a centre guard,
 * six right-hand characters and an end guard.
 */
module Ean13 {
  import opened Digits
  import opened Bars
  import opened Checksum

  /** Parity of the five manufacturer digits, 0 = odd, 1 = even, by the first system digit. */
  const Parity: seq<seq<int>> := [
    [0, 0, 0, 0, 0], // 0
    [0, 1, 0, 1, 1], // 1
    [0, 1, 1, 0, 1], // 2
    [0, 1, 1, 1, 0], // 3
    [1, 0, 0, 1, 1], // 4
    [1, 1, 0, 0, 1], // 5
    [1, 1, 1, 0, 0], // 6
    [1, 0, 1, 0, 1], // 7
    [1, 0, 1, 1, 0], // 8
    [1, 1, 0, 1, 0]  // 9
  ]

  /** The width terms of getDimension: start, centre, twelve characters, end. */
  const StartLength: nat := 3
  const CenterLength: nat := 5
  const TextLength: nat := 12 * 7
  const EndLength: nat := 3

  /** The parity table has a row of five flags per system digit, the rows are distinct, and row 0 is all odd. */
  lemma ParityTable()
    ensures |Parity| == 10 && Distinct(Parity)
    ensures forall d :: 0 <= d < 10 ==> |Parity[d]| == 5 && Flags(Parity[d])
    ensures forall i :: 0 <= i < 5 ==> Parity[0][i] == 0
  {
  }

  /** codeParity[first digit]: the parity flags of the five manufacturer digits. */
  function ParityRow(first: char): (row: seq<int>)
    requires IsDigit(first)
    ensures |row| == 5 && Flags(row)
  {
    Parity[DigitValue(first)]
  }

  /**
   * validate: the data checks, then checkCorrectLength, which keeps 12
   * digits and drops a 13th without looking at it.
   */
  function Normalize(raw: string): (r: Result<string>)
    ensures r.Ok? <==> AllDigits(raw) && (|raw| == 12 || |raw| == 13)
    ensures r.Ok? ==> r.value == raw[..12]
    ensures r.Err? && CheckData("Ean13", raw).Fail? ==> r.error == CheckData("Ean13", raw).error
    ensures r.Err? && CheckData("Ean13", raw).Pass? ==> r.error == ParseError("Ean13", WrongLength)
  {
    match CheckData("Ean13", raw)
    case Fail(e) => Err(e)
    case Pass =>
      if |raw| == 13 then Ok(raw[..12])
      else if |raw| == 12 then Ok(raw)
      else Err(ParseError("Ean13", WrongLength))
  }

  /** A 13th digit, the check digit or any other, is dropped unchecked. */
  lemma NormalizeDropsCheckDigit(t: string, d: char)
    requires |t| == 12 && IsDigit(d)
    ensures Normalize(t + [d]) == Normalize(t)
  {
    assert (t + [d])[..12] == t;
    if AllDigits(t) {
      assert AllDigits(t + [d]);
    } else {
      var k :| 0 <= k < |t| && !IsDigit(t[k]);
      assert (t + [d])[k] == t[k];
    }
  }

  /** The stream drawBars emits for the twelve digits and their check digit. */
  function BarStream(t: string): (s: seq<Emission>)
    requires |t| == 13 && AllDigits(t)
  {
    [StartGuard, LeftChar(t[1], 0)] + LeftRun(t[2..7], ParityRow(t[0])) +
    [CenterGuard] + RightRun(t[7..13]) + [EndGuard]
  }

  /** 15 emissions covering 95 modules, as getDimension counts them, colours alternating. */
  lemma BarStreamShape(t: string)
    requires |t| == 13 && AllDigits(t)
    ensures |BarStream(t)| == 15
    ensures WellFormed(BarStream(t))
    ensures TotalModules(BarStream(t)) == StartLength + CenterLength + TextLength + EndLength
  {
    ParityTable();
    var row := Parity[DigitValue(t[0])];
    var left := [StartGuard, LeftChar(t[1], 0)];
    CharShapes(t[1], 0);
    Single(StartGuard);
    Single(LeftChar(t[1], 0));
    Join([StartGuard], [LeftChar(t[1], 0)]);
    assert [StartGuard] + [LeftChar(t[1], 0)] == left;
    var manufacturer := LeftRun(t[2..7], row);
    LeftRunShape(t[2..7], row);
    Join(left, manufacturer);
    Single(CenterGuard);
    Join(left + manufacturer, [CenterGuard]);
    var product := RightRun(t[7..13]);
    RightRunShape(t[7..13]);
    Join(left + manufacturer + [CenterGuard], product);
    Single(EndGuard);
    Join(left + manufacturer + [CenterGuard] + product, [EndGuard]);
  }

  /** What a scanner reads back: the thirteen digits, the first one recovered from the parity pattern. */
  function Decode(s: seq<Emission>): Option<string> {
    if |s| != 15 || s[0] != StartGuard || s[7] != CenterGuard || s[14] != EndGuard then None
    else match (DecodeLeft(s[1]), DecodeLeftRun(s[2..7]), DecodeRightRun(s[8..14]))
      case (Some(second), Some(manufacturer), Some(product)) =>
        if second.1 != 0 then None
        else (match IndexOf(Parity, manufacturer.1)
          case Some(first) => Some([DigitChar(first), DigitChar(second.0)] + manufacturer.0 + product)
          case None => None)
      case _ => None
  }

  lemma StreamOfParts(before: seq<Emission>, after: seq<Emission>, t: string)
    requires |t| == 13 && AllDigits(t)
    requires after == before + [StartGuard, LeftChar(t[1], 0)] + LeftRun(t[2..7], ParityRow(t[0])) +
      [CenterGuard] + RightRun(t[7..13]) + [EndGuard]
    ensures after == before + BarStream(t)
  {
  }

  /** Where each part of the stream sits. */
  lemma BarStreamLayout(t: string)
    requires |t| == 13 && AllDigits(t)
    ensures |BarStream(t)| == 15
    ensures BarStream(t)[0] == StartGuard && BarStream(t)[1] == LeftChar(t[1], 0)
    ensures BarStream(t)[2..7] == LeftRun(t[2..7], ParityRow(t[0]))
    ensures BarStream(t)[7] == CenterGuard && BarStream(t)[14] == EndGuard
    ensures BarStream(t)[8..14] == RightRun(t[7..13])
  {
    var head := [StartGuard, LeftChar(t[1], 0)];
    var manufacturer := LeftRun(t[2..7], ParityRow(t[0]));
    var product := RightRun(t[7..13]);
    assert BarStream(t) == head + manufacturer + [CenterGuard] + product + [EndGuard];
  }

  /** The drawn stream determines the number: decoding it gives back all thirteen digits. */
  lemma DecodeBarStream(t: string)
    requires |t| == 13 && AllDigits(t)
    ensures Decode(BarStream(t)) == Some(t)
  {
    BarStreamLayout(t);
    DecodeLaidOut(BarStream(t), t);
  }

  lemma DecodeLaidOut(s: seq<Emission>, t: string)
    requires |t| == 13 && AllDigits(t) && |s| == 15
    requires s[0] == StartGuard && s[1] == LeftChar(t[1], 0) && s[7] == CenterGuard && s[14] == EndGuard
    requires s[2..7] == LeftRun(t[2..7], ParityRow(t[0])) && s[8..14] == RightRun(t[7..13])
    ensures Decode(s) == Some(t)
  {
    var row := ParityRow(t[0]);
    assert DecodeLeft(s[1]) == Some((DigitValue(t[1]), 0)) by {
      DecodeChar(t[1], 0);
    }
    assert DecodeLeftRun(s[2..7]) == Some((t[2..7], row)) by {
      DecodeLeftRunOf(t[2..7], row);
    }
    assert DecodeRightRun(s[8..14]) == Some(t[7..13]) by {
      DecodeRightRunOf(t[7..13]);
    }
    assert IndexOf(Parity, row) == Some(DigitValue(t[0])) by {
      ParityTable();
      IndexOfDistinct(Parity, DigitValue(t[0]));
    }
    DigitCharOfValue(t[0]);
    DigitCharOfValue(t[1]);
    Reassemble(t);
  }

  lemma Reassemble(t: string)
    requires |t| == 13
    ensures [t[0], t[1]] + t[2..7] + t[7..13] == t
  {
    assert t[..2] == [t[0], t[1]];
    assert t[..2] + t[2..7] == t[..7];
    assert t[..7] + t[7..13] == t;
  }

  /**
   * drawBars from the check digit on: the start guard, the second digit
   * unreversed, the five manufacturer digits reversed where the first
   * digit's parity row says 1, the centre guard, the six product digits
   * starting with a bar, the end guard.
   */
  method EmitBars(image: Surface, temptext: string)
    requires |temptext| == 13 && AllDigits(temptext)
    modifies image
    ensures image.emitted == old(image.emitted) + BarStream(temptext)
  {
    ghost var before := image.emitted;
    var row := ParityRow(temptext[0]);
    image.DrawChar("000", true);
    image.DrawChar(FindCode(temptext[1]), false);
    EmitLeftRun(image, temptext[2..7], row);
    image.DrawChar("00000", false);
    EmitRightRun(image, temptext[7..13]);
    image.DrawChar("000", true);
    StreamOfParts(before, image.emitted, temptext);
  }

  /** The EAN-13 barcode object: its text and its memoised check digit. */
  class Barcode {
    var text: string
    var checksumValue: Option<nat>

    /** The stored check digit, once there is one, is a key's index. */
    predicate Valid()
      reads this
    {
      checksumValue.Some? ==> checksumValue.value < 10
    }

    constructor (text: string)
      ensures this.text == text && checksumValue == None
      ensures Valid()
    {
      this.text := text;
      checksumValue := None;
    }

    /** checkCorrectLength: 13 digits are cut to 12, 12 are kept, any other length throws. */
    method CheckCorrectLength() returns (r: Outcome)
      requires Valid()
      modifies this
      ensures Valid()
      ensures checksumValue == old(checksumValue)
      ensures |old(text)| == 13 ==> r == Pass && text == old(text)[..12]
      ensures |old(text)| == 12 ==> r == Pass && text == old(text)
      ensures |old(text)| != 12 && |old(text)| != 13 ==>
        r == Fail(ParseError("Ean13", WrongLength)) && text == old(text)
    {
      var c := |text|;
      if c == 13 {
        text := text[..12];
      } else if c != 12 {
        return Fail(ParseError("Ean13", WrongLength));
      }
      return Pass;
    }

    /** validate: no data, then checkCharsAllowed, then checkCorrectLength; a failure leaves the text as it was. */
    method Validate() returns (r: Outcome)
      requires Valid()
      modifies this
      ensures Valid()
      ensures checksumValue == old(checksumValue)
      ensures Normalize(old(text)).Ok? ==> r == Pass && text == Normalize(old(text)).value
      ensures Normalize(old(text)).Err? ==> r == Fail(Normalize(old(text)).error) && text == old(text)
    {
      if |text| == 0 {
        return Fail(ParseError("Ean13", NoData));
      }
      r := CheckCharsAllowed("Ean13", text);
      if r.Fail? {
        return;
      }
      r := CheckCorrectLength();
    }

    /** _calculateChecksum over the current text. */
    method CalculateChecksum()
      requires AllDigits(text)
      requires Valid()
      modifies this
      ensures Valid()
      ensures text == old(text) && checksumValue == Some(CheckDigit(text))
    {
      var c := CalculateCheckDigit(text);
      checksumValue := Some(c);
    }

    /** processChecksum: the check digit is computed on the first call only; every call returns its key. */
    method ProcessChecksum() returns (key: char)
      requires AllDigits(text)
      requires Valid()
      modifies this
      ensures Valid()
      ensures text == old(text)
      ensures old(checksumValue).Some? ==> checksumValue == old(checksumValue)
      ensures old(checksumValue).None? ==> checksumValue == Some(CheckDigit(text))
      ensures checksumValue.Some? && checksumValue.value < 10 && key == DigitChar(checksumValue.value)
    {
      if checksumValue.None? {
        CalculateChecksum();
      }
      key := DigitChar(checksumValue.value);
    }

    /** drawBars: recompute the check digit, then emit the stream of the twelve digits and that digit. */
    method DrawBars(image: Surface)
      requires |text| == 12 && AllDigits(text)
      requires Valid()
      modifies this, image
      ensures Valid()
      ensures text == old(text) && checksumValue == Some(CheckDigit(text))
      ensures image.emitted == old(image.emitted) + BarStream(text + [DigitChar(CheckDigit(text))])
    {
      CalculateChecksum();
      var temptext := text + [DigitChar(checksumValue.value)];
      EmitBars(image, temptext);
    }
  }

  /** The stream drawn for a validated number is read back as that number with its check digit, which verifies. */
  lemma DrawnNumberScans(t: string)
    requires |t| == 12 && AllDigits(t)
    ensures AllDigits(t + [DigitChar(CheckDigit(t))])
    ensures Decode(BarStream(t + [DigitChar(CheckDigit(t))])) == Some(t + [DigitChar(CheckDigit(t))])
    ensures WeightedSum(t + [DigitChar(CheckDigit(t))], 1, 3) % 10 == 0
  {
    var d := DigitChar(CheckDigit(t));
    CompleteNumberVerifies(t, d);
    DecodeBarStream(t + [d]);
  }

  lemma ExampleLeft()
    ensures AllDigits("123456") && WeightedSum("123456", 3, 1) == 45
  {
  }

  lemma ExampleRight()
    ensures AllDigits("789012") && WeightedSum("789012", 3, 1) == 47
  {
  }

  /** 123456789012 has the check digit 8 (weighted sum 92). */
  lemma CheckDigitExample(t: string)
    requires t == "123456789012"
    ensures AllDigits(t) && CheckDigit(t) == 8
  {
    ExampleLeft();
    ExampleRight();
    assert t == "123456" + "789012";
    WeightedSumConcat("123456", "789012", 3, 1);
  }
}
