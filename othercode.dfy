/**
 * "Other code": a free-form barcode whose text is itself the width string.
 *
 * Any non-empty run of digits is accepted; it is drawn as a single width
 * string starting with a bar, each digit d a run of d+1 modules, without
 * guards, table lookup or check digit.
 */
module OtherCode {
  import opened Digits
  import opened Bars

  /** A label as set on the object: none, the automatic one, or a given text. */
  datatype Label = NoLabel | Auto | Given(text: string)

  /** validate: no data, then the first character outside the keys; there is no length rule. */
  function Normalize(raw: string): (r: Result<string>)
    ensures r.Ok? <==> raw != [] && AllDigits(raw)
    ensures r.Ok? ==> r.value == raw
    ensures r.Err? ==> r.error == CheckData("OtherCode", raw).error
  {
    match CheckData("OtherCode", raw)
    case Fail(e) => Err(e)
    case Pass => Ok(raw)
  }

  /** The sum of the digits of a text. */
  function DigitSum(t: string): nat
    requires AllDigits(t)
  {
    if t == [] then 0 else DigitValue(t[0]) + DigitSum(t[1..])
  }

  /** The width term of getDimension: the sum of the digits plus their number. */
  function Width(t: string): nat
    requires AllDigits(t)
  {
    DigitSum(t) + |t|
  }

  /** The stream draw emits: the text as one width string, starting with a bar. */
  function Stream(t: string): seq<Emission> {
    [Emission(t, true)]
  }

  /** The width getDimension reserves is exactly the number of modules the text covers as a width string. */
  lemma {:induction false} WidthIsModules(t: string)
    requires AllDigits(t)
    ensures Width(t) == Modules(t)
  {
    if t != [] {
      WidthIsModules(t[1..]);
    }
  }

  /** The drawn stream is well formed and as wide as getDimension says. */
  lemma StreamShape(t: string)
    requires AllDigits(t)
    ensures WellFormed(Stream(t)) && TotalModules(Stream(t)) == Width(t)
  {
    Single(Emission(t, true));
    WidthIsModules(t);
  }

  /** What a scanner reads back: the width string of a single bar-first emission. */
  function Decode(s: seq<Emission>): Option<string> {
    if |s| == 1 && s[0].startsWithBar && s[0].widths != [] && AllDigits(s[0].widths) then Some(s[0].widths)
    else None
  }

  /** The widths drawn for an accepted text are that text itself: nothing encodes it. */
  lemma DecodeStream(raw: string)
    requires Normalize(raw).Ok?
    ensures Decode(Stream(Normalize(raw).value)) == Some(raw)
  {
  }

  /** The digits 0 to 9 cover 55 modules. */
  lemma WidthExample(t: string)
    requires t == "0123456789"
    ensures AllDigits(t) && Width(t) == 55
  {
    ExampleParts();
    assert t == "01234" + "56789";
    DigitSumConcat("01234", "56789");
  }

  lemma ExampleParts()
    ensures AllDigits("01234") && DigitSum("01234") == 10
    ensures AllDigits("56789") && DigitSum("56789") == 35
  {
  }

  lemma {:induction false} DigitSumConcat(a: string, b: string)
    requires AllDigits(a) && AllDigits(b)
    ensures AllDigits(a + b) && DigitSum(a + b) == DigitSum(a) + DigitSum(b)
  {
    if a == [] {
      assert a + b == b;
    } else {
      assert (a + b)[0] == a[0] && (a + b)[1..] == a[1..] + b;
      DigitSumConcat(a[1..], b);
    }
  }

  /** The other-code object: its text and its label. */
  class Barcode {
    var text: string
    var setLabel: Label

    constructor (text: string, initialLabel: Label)
      ensures this.text == text && this.setLabel == initialLabel
    {
      this.text := text;
      this.setLabel := initialLabel;
    }

    /** validate: the text is left as it is. */
    method Validate() returns (r: Outcome)
      ensures Normalize(text).Ok? ==> r == Pass
      ensures Normalize(text).Err? ==> r == Fail(Normalize(text).error)
    {
      if |text| == 0 {
        return Fail(ParseError("OtherCode", NoData));
      }
      r := CheckCharsAllowed("OtherCode", text);
    }

    /** getLabel: the automatic label shows nothing; any other label, or none, is returned as stored. */
    function GetLabel(): (r: Option<string>)
      reads this
      ensures setLabel.Auto? ==> r == Some([])
      ensures setLabel.Given? ==> r == Some(setLabel.text)
      ensures r.None? <==> setLabel.NoLabel?
    {
      match setLabel
      case NoLabel => None
      case Auto => Some([])
      case Given(s) => Some(s)
    }

    /** draw: one emission, the text itself, starting with a bar. */
    method Draw(image: Surface)
      modifies image
      ensures image.emitted == old(image.emitted) + Stream(text)
    {
      image.DrawChar(text, true);
    }
  }
}
