/**
 * The five-digit UPC/EAN supplement.
 *
 * Five left-hand characters separated by two-module spaces, after a start of
 * bar, space, double bar. No check character is drawn: the check digit
 * (weights 3 and 9 from the right, the sum modulo 10) selects which two of
 * the five characters are drawn with even parity.
 */
module UpcExt5 {
  import opened Digits
  import opened Bars
  import opened Checksum

  /** Parity of the five digits, 0 = odd, 1 = even, by check digit. */
  const Parity: seq<seq<int>> := [
    [1, 1, 0, 0, 0], // 0
    [1, 0, 1, 0, 0], // 1
    [1, 0, 0, 1, 0], // 2
    [1, 0, 0, 0, 1], // 3
    [0, 1, 1, 0, 0], // 4
    [0, 0, 1, 1, 0], // 5
    [0, 0, 0, 1, 1], // 6
    [0, 1, 0, 1, 0], // 7
    [0, 1, 0, 0, 1], // 8
    [0, 0, 1, 0, 1]  // 9
  ]

  /** The width terms of getDimension: start, five characters, four separators. */
  const StartLength: nat := 4
  const TextLength: nat := 5 * 7
  const IntercharLength: nat := 2 * 4

  /** Ten distinct rows of five flags, each with exactly two even characters. */
  lemma ParityTable()
    ensures |Parity| == 10 && Distinct(Parity)
    ensures forall c :: 0 <= c < 10 ==> |Parity[c]| == 5 && Flags(Parity[c]) && Evens(Parity[c]) == 2
  {
  }

  /** validate: no data, then the first character outside the keys, then exactly five digits. */
  function Normalize(raw: string): (r: Result<string>)
    ensures r.Ok? <==> AllDigits(raw) && |raw| == 5
    ensures r.Ok? ==> r.value == raw
    ensures r.Err? && CheckData("Upcext5", raw).Fail? ==> r.error == CheckData("Upcext5", raw).error
    ensures r.Err? && CheckData("Upcext5", raw).Pass? ==> r.error == ParseError("Upcext5", WrongLength)
  {
    match CheckData("Upcext5", raw)
    case Fail(e) => Err(e)
    case Pass => if |raw| != 5 then Err(ParseError("Upcext5", WrongLength)) else Ok(raw)
  }

  /** The stream draw emits for five digits. */
  function Stream(t: string): seq<Emission>
    requires |t| == 5 && AllDigits(t)
  {
    [SupplementStart] + Supplement(t, Parity[SupplementCheck(t)])
  }

  /** 10 emissions covering 47 modules, as getDimension counts them, colours alternating. */
  lemma StreamShape(t: string)
    requires |t| == 5 && AllDigits(t)
    ensures |Stream(t)| == 10
    ensures WellFormed(Stream(t))
    ensures TotalModules(Stream(t)) == StartLength + TextLength + IntercharLength
  {
    ParityTable();
    var data := Supplement(t, Parity[SupplementCheck(t)]);
    SupplementShape(t, Parity[SupplementCheck(t)]);
    assert Modules("001") == 4;
    Single(SupplementStart);
    Join([SupplementStart], data);
  }

  /**
   * What a scanner reads back: five digits, accepted only when the parity
   * pattern is the one their check digit selects.
   */
  function Decode(s: seq<Emission>): Option<string> {
    if |s| == 0 || s[0] != SupplementStart then None
    else match DecodeSupplement(s[1..])
      case None => None
      case Some(data) =>
        if |data.0| != 5 then None
        else match IndexOf(Parity, data.1)
          case Some(c) => if c == SupplementCheck(data.0) then Some(data.0) else None
          case None => None
  }

  /** The drawn stream reads back as the five digits. */
  lemma DecodeStream(t: string)
    requires |t| == 5 && AllDigits(t)
    ensures Decode(Stream(t)) == Some(t)
  {
    ParityTable();
    var c := SupplementCheck(t);
    assert Stream(t)[1..] == Supplement(t, Parity[c]);
    DecodeSupplementOf(t, Parity[c]);
    IndexOfDistinct(Parity, c);
  }

  /**
   * A scanner rejects a stream in which one digit was changed and the
   * parities were left as drawn: the parities carry the check digit, and a
   * single substitution always changes it.
   */
  lemma SubstitutionRejected(t: string, i: nat, d: char)
    requires |t| == 5 && AllDigits(t) && i < 5 && IsDigit(d) && d != t[i]
    ensures AllDigits(t[i := d])
    ensures Decode([SupplementStart] + Supplement(t[i := d], Parity[SupplementCheck(t)])) == None
  {
    ParityTable();
    var c := SupplementCheck(t);
    var u := t[i := d];
    SupplementCheckDetectsSubstitution(t, i, d);
    assert ([SupplementStart] + Supplement(u, Parity[c]))[1..] == Supplement(u, Parity[c]);
    DecodeSupplementOf(u, Parity[c]);
    IndexOfDistinct(Parity, c);
  }

  /** The five-digit supplement object: its text and its memoised check digit. */
  class Barcode {
    var text: string
    var checksumValue: Option<nat>

    /** The stored check digit, once there is one, is a key's index. */
    predicate Valid()
      reads this
    {
      checksumValue.Some? ==> checksumValue.value < 10
    }

    constructor (text: string)
      ensures this.text == text && checksumValue == None
      ensures Valid()
    {
      this.text := text;
      checksumValue := None;
    }

    /** validate: the text is left as it is. */
    method Validate() returns (r: Outcome)
      ensures Normalize(text).Ok? ==> r == Pass
      ensures Normalize(text).Err? ==> r == Fail(Normalize(text).error)
    {
      var c := |text|;
      if c == 0 {
        return Fail(ParseError("Upcext5", NoData));
      }
      r := CheckCharsAllowed("Upcext5", text);
      if r.Fail? {
        return;
      }
      if c != 5 {
        return Fail(ParseError("Upcext5", WrongLength));
      }
    }

    /** calculateChecksum: weights 3 and 9 from the right, the sum modulo 10. */
    method CalculateChecksum()
      requires AllDigits(text)
      requires Valid()
      modifies this
      ensures Valid()
      ensures text == old(text) && checksumValue == Some(SupplementCheck(text))
    {
      var c := CalculateSupplementCheck(text);
      checksumValue := Some(c);
    }

    /** processChecksum: the check digit is computed on the first call only; every call returns its key. */
    method ProcessChecksum() returns (key: char)
      requires AllDigits(text)
      requires Valid()
      modifies this
      ensures Valid()
      ensures text == old(text)
      ensures old(checksumValue).Some? ==> checksumValue == old(checksumValue)
      ensures old(checksumValue).None? ==> checksumValue == Some(SupplementCheck(text))
      ensures checksumValue.Some? && checksumValue.value < 10 && key == DigitChar(checksumValue.value)
    {
      if checksumValue.None? {
        CalculateChecksum();
      }
      key := DigitChar(checksumValue.value);
    }

    /** draw: the check digit, the start, then the five characters with the parities it selects. */
    method Draw(image: Surface)
      requires |text| == 5 && AllDigits(text)
      requires Valid()
      modifies this, image
      ensures Valid()
      ensures text == old(text) && checksumValue == Some(SupplementCheck(text))
      ensures image.emitted == old(image.emitted) + Stream(text)
    {
      ghost var before := image.emitted;
      ParityTable();
      CalculateChecksum();
      image.DrawChar("001", true);
      EmitSupplement(image, text, Parity[checksumValue.value]);
    }
  }

  /** 12345 has the check digit 1 (weighted sum 81), so its first and third digits are drawn even. */
  lemma CheckDigitExample(t: string)
    requires t == "12345"
    ensures AllDigits(t) && SupplementCheck(t) == 1
    ensures Parity[SupplementCheck(t)] == [1, 0, 1, 0, 0]
  {
    ExampleSum();
  }

  lemma ExampleSum()
    ensures AllDigits("12345") && WeightedSum("12345", 3, 9) == 81
  {
  }
}
