/**
 * The two-digit UPC/EAN supplement.
 *
 * Two left-hand characters separated by a two-module space, after a start of
 * bar, space, double bar. There is no check digit: the value of the two
 * digits modulo 4 selects which of them are drawn with even parity.
 */
module UpcExt2 {
  import opened Digits
  import opened Bars

  /** Parity of the two digits, 0 = odd, 1 = even, by value modulo 4. */
  const Parity: seq<seq<int>> := [
    [0, 0], // 0
    [0, 1], // 1
    [1, 0], // 2
    [1, 1]  // 3
  ]

  /** The width terms of getDimension: start, two characters, one separator. */
  const StartLength: nat := 4
  const TextLength: nat := 2 * 7
  const IntercharLength: nat := 2

  /** The value of the two digits as one decimal number. */
  function Value(t: string): (v: nat)
    requires |t| == 2 && AllDigits(t)
    ensures v < 100
  {
    DigitValue(t[0]) * 10 + DigitValue(t[1])
  }

  /** Row k of the table is k written in binary, high bit first: the rows are distinct flags. */
  lemma ParityTable()
    ensures |Parity| == 4 && Distinct(Parity)
    ensures forall k :: 0 <= k < 4 ==> Parity[k] == [k / 2, k % 2] && Flags(Parity[k])
  {
  }

  /** The parities of a value: the second digit is even exactly when the value is odd, the first when its value modulo 4 is 2 or 3. */
  lemma ParityOfValue(t: string)
    requires |t| == 2 && AllDigits(t)
    ensures Parity[Value(t) % 4][1] == Value(t) % 2
    ensures Parity[Value(t) % 4][0] == (if Value(t) % 4 >= 2 then 1 else 0)
  {
    ParityTable();
    var v := Value(t);
    assert (v % 4) % 2 == v % 2;
  }

  /** validate: no data, then the first character outside the keys, then exactly two digits. */
  function Normalize(raw: string): (r: Result<string>)
    ensures r.Ok? <==> AllDigits(raw) && |raw| == 2
    ensures r.Ok? ==> r.value == raw
    ensures r.Err? && CheckData("Upcext2", raw).Fail? ==> r.error == CheckData("Upcext2", raw).error
    ensures r.Err? && CheckData("Upcext2", raw).Pass? ==> r.error == ParseError("Upcext2", WrongLength)
  {
    match CheckData("Upcext2", raw)
    case Fail(e) => Err(e)
    case Pass => if |raw| != 2 then Err(ParseError("Upcext2", WrongLength)) else Ok(raw)
  }

  /** The stream draw emits for two digits. */
  function Stream(t: string): seq<Emission>
    requires |t| == 2 && AllDigits(t)
  {
    [SupplementStart] + Supplement(t, Parity[Value(t) % 4])
  }

  /** 4 emissions covering 20 modules, as getDimension counts them, colours alternating. */
  lemma StreamShape(t: string)
    requires |t| == 2 && AllDigits(t)
    ensures |Stream(t)| == 4
    ensures WellFormed(Stream(t))
    ensures TotalModules(Stream(t)) == StartLength + TextLength + IntercharLength
  {
    ParityTable();
    var data := Supplement(t, Parity[Value(t) % 4]);
    SupplementShape(t, Parity[Value(t) % 4]);
    assert Modules("001") == 4;
    Single(SupplementStart);
    Join([SupplementStart], data);
  }

  /** What a scanner reads back: two digits, accepted only when the parities match their value modulo 4. */
  function Decode(s: seq<Emission>): Option<string> {
    if |s| == 0 || s[0] != SupplementStart then None
    else match DecodeSupplement(s[1..])
      case None => None
      case Some(data) =>
        if |data.0| == 2 && data.1 == Parity[Value(data.0) % 4] then Some(data.0) else None
  }

  /** The drawn stream reads back as the two digits. */
  lemma DecodeStream(t: string)
    requires |t| == 2 && AllDigits(t)
    ensures Decode(Stream(t)) == Some(t)
  {
    ParityTable();
    var row := Parity[Value(t) % 4];
    assert Stream(t)[1..] == Supplement(t, row);
    DecodeSupplementOf(t, row);
  }

  /** A changed second digit is caught when the change is not a multiple of 4. */
  lemma UnitsChangeRejected(t: string, d: char)
    requires |t| == 2 && AllDigits(t) && IsDigit(d) && (DigitValue(d) - DigitValue(t[1])) % 4 != 0
    ensures AllDigits(t[1 := d])
    ensures Decode([SupplementStart] + Supplement(t[1 := d], Parity[Value(t) % 4])) == None
  {
    ParityTable();
    var u := t[1 := d];
    var row := Parity[Value(t) % 4];
    assert Value(u) - Value(t) == DigitValue(d) - DigitValue(t[1]);
    ResidueDiffers(Value(u), Value(t));
    assert ([SupplementStart] + Supplement(u, row))[1..] == Supplement(u, row);
    DecodeSupplementOf(u, row);
  }

  lemma ResidueDiffers(a: int, b: int)
    requires (a - b) % 4 != 0
    ensures a % 4 != b % 4
  {
  }

  /** The two-digit supplement object: only its text. */
  class Barcode {
    var text: string

    constructor (text: string)
      ensures this.text == text
    {
      this.text := text;
    }

    /** validate: the text is left as it is. */
    method Validate() returns (r: Outcome)
      ensures Normalize(text).Ok? ==> r == Pass
      ensures Normalize(text).Err? ==> r == Fail(Normalize(text).error)
    {
      var c := |text|;
      if c == 0 {
        return Fail(ParseError("Upcext2", NoData));
      }
      r := CheckCharsAllowed("Upcext2", text);
      if r.Fail? {
        return;
      }
      if c != 2 {
        return Fail(ParseError("Upcext2", WrongLength));
      }
    }

    /** draw: the start, then the two characters with the parities their value selects. */
    method Draw(image: Surface)
      requires |text| == 2 && AllDigits(text)
      modifies image
      ensures image.emitted == old(image.emitted) + Stream(text)
    {
      ParityTable();
      image.DrawChar("001", true);
      EmitSupplement(image, text, Parity[Value(text) % 4]);
    }
  }

  /** 12 (0 modulo 4) is drawn all odd, 34 (2 modulo 4) with its first digit even. */
  lemma ParityExamples(a: string, b: string)
    requires a == "12" && b == "34"
    ensures AllDigits(a) && Parity[Value(a) % 4] == [0, 0]
    ensures AllDigits(b) && Parity[Value(b) % 4] == [1, 0]
  {
  }
}
