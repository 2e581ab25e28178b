/**
 * UPC-A: an EAN-13 whose system digit is 0.
 *
 * The object validates like EAN-13 except for its length rule (11 digits,
 * a 12th dropped), and draws by putting a '0' in front of its text, drawing
 * the EAN-13 stream, and taking the '0' off again.
 */
module UpcA {
  import opened Digits
  import opened Bars
  import opened Checksum
  import Ean13

  /**
   * validate with the UPC-A length rule: no data and bad characters are
   * reported under the EAN-13 tag, a wrong length under the UPC-A one; 12
   * digits lose the last, unchecked.
   */
  function Normalize(raw: string): (r: Result<string>)
    ensures r.Ok? <==> AllDigits(raw) && (|raw| == 11 || |raw| == 12)
    ensures r.Ok? ==> r.value == raw[..11]
    ensures r.Err? && CheckData("Ean13", raw).Fail? ==> r.error == CheckData("Ean13", raw).error
    ensures r.Err? && CheckData("Ean13", raw).Pass? ==> r.error == ParseError("Upca", WrongLength)
  {
    match CheckData("Ean13", raw)
    case Fail(e) => Err(e)
    case Pass =>
      if |raw| == 12 then Ok(raw[..11])
      else if |raw| == 11 then Ok(raw)
      else Err(ParseError("Upca", WrongLength))
  }

  /** A number UPC-A accepts is, with a 0 in front, a number EAN-13 accepts unchanged. */
  lemma AcceptedAsEan13(raw: string)
    requires Normalize(raw).Ok?
    ensures Ean13.Normalize(['0'] + Normalize(raw).value) == Ok(['0'] + Normalize(raw).value)
  {
    var t := Normalize(raw).value;
    LeadingZero(t, 3, 1);
    assert (['0'] + t)[..12] == ['0'] + t;
  }

  /** The stream drawn for an 11-digit number: the EAN-13 stream of 0, the digits and the check digit. */
  function Stream(t: string): seq<Emission>
    requires |t| == 11 && AllDigits(t)
  {
    LeadingZero(t, 3, 1);
    Ean13.BarStream(['0'] + t + [DigitChar(CheckDigit(t))])
  }

  /** With system digit 0, the five manufacturer digits are all drawn with odd parity, none reversed. */
  lemma NoReversal(t: string)
    requires |t| == 11 && AllDigits(t)
    ensures Stream(t)[2..7] == LeftRun(t[1..6], [0, 0, 0, 0, 0])
    ensures forall i :: 2 <= i < 7 ==> Stream(t)[i] == Emission(FindCode(t[i - 1]), false)
  {
    LeadingZero(t, 3, 1);
    var full := ['0'] + t + [DigitChar(CheckDigit(t))];
    assert full[0] == '0' && full[2..7] == t[1..6];
    Ean13.BarStreamLayout(full);
    assert Ean13.ParityRow('0') == [0, 0, 0, 0, 0] by {
      assert Ean13.Parity[0] == [0, 0, 0, 0, 0];
    }
    forall i | 2 <= i < 7
      ensures Stream(t)[i] == Emission(FindCode(t[i - 1]), false)
    {
      LeftRunAt(t[1..6], [0, 0, 0, 0, 0], i - 2);
    }
  }

  /**
   * The drawn stream reads back as 0, the eleven digits and the check digit,
   * and that twelve-digit UPC-A number passes the scanner's 3/1 check.
   */
  lemma DrawnNumberScans(t: string)
    requires |t| == 11 && AllDigits(t)
    ensures AllDigits(t + [DigitChar(CheckDigit(t))])
    ensures Ean13.Decode(Stream(t)) == Some(['0'] + t + [DigitChar(CheckDigit(t))])
    ensures WeightedSum(t + [DigitChar(CheckDigit(t))], 1, 3) % 10 == 0
  {
    LeadingZero(t, 3, 1);
    var d := DigitChar(CheckDigit(t));
    CompleteNumberVerifies(t, d);
    assert ['0'] + t + [d] == ['0'] + (t + [d]);
    LeadingZero(t + [d], 1, 3);
    Ean13.DecodeBarStream(['0'] + t + [d]);
  }

  /**
   * The two characters drawExtendedBars draws again, taller, when the
   * default label is on: the system digit as an odd left-hand character and
   * the check digit as a right-hand one.
   */
  function ExtendedChars(t: string): seq<Emission>
    requires |t| == 11 && AllDigits(t)
  {
    [LeftChar(t[0], 0), RightChar(DigitChar(CheckDigit(t)))]
  }

  /**
   * The extended characters repeat the second and the second-to-last
   * emission of the stream, so lengthening them draws nothing new: the
   * decoded number is the one of the stream.
   */
  lemma ExtendedCharsRepeatStream(t: string)
    requires |t| == 11 && AllDigits(t)
    ensures |Stream(t)| == 15
    ensures ExtendedChars(t) == [Stream(t)[1], Stream(t)[13]]
  {
    LeadingZero(t, 3, 1);
    var d := DigitChar(CheckDigit(t));
    var full := ['0'] + t + [d];
    Ean13.BarStreamLayout(full);
    assert full[1] == t[0] && full[7..13][5] == d;
    RightRunAt(full[7..13], 5);
    assert Stream(t)[13] == Stream(t)[8..14][5];
  }

  /** The UPC-A barcode object, on the EAN-13 one: its text and its memoised check digit. */
  class Barcode {
    var text: string
    var checksumValue: Option<nat>

    /** The stored check digit, once there is one, is a key's index. */
    predicate Valid()
      reads this
    {
      checksumValue.Some? ==> checksumValue.value < 10
    }

    constructor (text: string)
      ensures this.text == text && checksumValue == None
      ensures Valid()
    {
      this.text := text;
      checksumValue := None;
    }

    /** checkCorrectLength: 12 digits are cut to 11, 11 are kept, any other length throws. */
    method CheckCorrectLength() returns (r: Outcome)
      requires Valid()
      modifies this
      ensures Valid()
      ensures checksumValue == old(checksumValue)
      ensures |old(text)| == 12 ==> r == Pass && text == old(text)[..11]
      ensures |old(text)| == 11 ==> r == Pass && text == old(text)
      ensures |old(text)| != 11 && |old(text)| != 12 ==>
        r == Fail(ParseError("Upca", WrongLength)) && text == old(text)
    {
      var c := |text|;
      if c == 12 {
        text := text[..11];
      } else if c != 11 {
        return Fail(ParseError("Upca", WrongLength));
      }
      return Pass;
    }

    /** The inherited validate, running this class's length rule. */
    method Validate() returns (r: Outcome)
      requires Valid()
      modifies this
      ensures Valid()
      ensures checksumValue == old(checksumValue)
      ensures Normalize(old(text)).Ok? ==> r == Pass && text == Normalize(old(text)).value
      ensures Normalize(old(text)).Err? ==> r == Fail(Normalize(old(text)).error) && text == old(text)
    {
      if |text| == 0 {
        return Fail(ParseError("Ean13", NoData));
      }
      r := CheckCharsAllowed("Ean13", text);
      if r.Fail? {
        return;
      }
      r := CheckCorrectLength();
    }

    /**
     * draw: '0' in front, the EAN-13 bars (check digit recomputed on the
     * twelve digits), with the default label on the two characters of
     * drawExtendedBars, then the '0' taken off. The stored check digit is
     * the one of the eleven digits, since the leading 0 weighs nothing.
     */
    method Draw(image: Surface, defaultLabel: bool)
      requires Valid()
      requires |text| == 11 && AllDigits(text)
      modifies this, image
      ensures Valid()
      ensures text == old(text) && checksumValue == Some(CheckDigit(text))
      ensures image.emitted == old(image.emitted) + Stream(text) + (if defaultLabel then ExtendedChars(text) else [])
    {
      ghost var t := text;
      LeadingZero(t, 3, 1);
      text := ['0'] + text;
      var c := CalculateCheckDigit(text);
      checksumValue := Some(c);
      ghost var drawn := image.emitted;
      Ean13.EmitBars(image, text + [DigitChar(c)]);
      if defaultLabel {
        var temptext := text + [DigitChar(c)];
        image.DrawChar(FindCode(temptext[1]), false);
        image.DrawChar(FindCode(temptext[12]), true);
        assert temptext[1] == t[0] && temptext[12] == DigitChar(CheckDigit(t));
      }
      text := text[1..];
      assert text == t;
    }
  }
}
