/**
 * UPC-E: a UPC-A number with system digit 0 or 1, drawn in its six-digit
 * zero-suppressed form.
 *
 * Only the six compressed digits are drawn as patterns. The system digit and
 * the check digit of the full UPC-A number are carried by the parities of
 * those six characters: the system digit picks one of two tables, the check
 * digit a row of it. The stream is a start guard, six left-hand characters,
 * a centre guard and a single end bar.
 */
module Upce {
  import opened Digits
  import opened Bars
  import opened Checksum
  import opened UpceConversion

  /** Parity of the six compressed digits, 0 = odd, 1 = even, by system digit, then check digit. */
  const Parity: seq<seq<seq<int>>> := [
    [
      [1, 1, 1, 0, 0, 0], // 0
      [1, 1, 0, 1, 0, 0], // 1
      [1, 1, 0, 0, 1, 0], // 2
      [1, 1, 0, 0, 0, 1], // 3
      [1, 0, 1, 1, 0, 0], // 4
      [1, 0, 0, 1, 1, 0], // 5
      [1, 0, 0, 0, 1, 1], // 6
      [1, 0, 1, 0, 1, 0], // 7
      [1, 0, 1, 0, 0, 1], // 8
      [1, 0, 0, 1, 0, 1]  // 9
    ],
    [
      [0, 0, 0, 1, 1, 1], // 0
      [0, 0, 1, 0, 1, 1], // 1
      [0, 0, 1, 1, 0, 1], // 2
      [0, 0, 1, 1, 1, 0], // 3
      [0, 1, 0, 0, 1, 1], // 4
      [0, 1, 1, 0, 0, 1], // 5
      [0, 1, 1, 1, 0, 0], // 6
      [0, 1, 0, 1, 0, 1], // 7
      [0, 1, 0, 1, 1, 0], // 8
      [0, 1, 1, 0, 1, 0]  // 9
    ]
  ]

  /** The width terms of getDimension: start, centre, six characters, end bar. */
  const StartLength: nat := 3
  const CenterLength: nat := 5
  const TextLength: nat := 6 * 7
  const EndLength: nat := 1

  /** The single bar that ends a UPC-E symbol after its centre guard. */
  const EndBar: Emission := Emission("0", true)

  /**
   * Two tables of ten rows of six flags; within a table the rows are
   * distinct; the system 1 table is the flag-by-flag complement of the
   * system 0 one, whose rows all start with an even character.
   */
  lemma ParityTable()
    ensures |Parity| == 2 && |Parity[0]| == 10 && |Parity[1]| == 10
    ensures forall s, c :: 0 <= s < 2 && 0 <= c < 10 ==> |Parity[s][c]| == 6 && Flags(Parity[s][c])
    ensures forall c, i :: 0 <= c < 10 && 0 <= i < 6 ==> Parity[1][c][i] == 1 - Parity[0][c][i]
    ensures forall c :: 0 <= c < 10 ==> Parity[0][c][0] == 1
    ensures Distinct(Parity[0]) && Distinct(Parity[1])
  {
  }

  /** Every row of both tables asks for exactly three even characters. */
  lemma ParityTableEvens()
    ensures forall s, c :: 0 <= s < 2 && 0 <= c < 10 ==> Evens(Parity[s][c]) == 3
  {
    forall s, c | 0 <= s < 2 && 0 <= c < 10
      ensures Evens(Parity[s][c]) == 3
    {
      EvensOfSix(Parity[s][c]);
    }
  }

  /** The even count of six flags is their sum. */
  lemma EvensOfSix(row: seq<int>)
    requires |row| == 6
    ensures Evens(row) == row[0] + row[1] + row[2] + row[3] + row[4] + row[5]
  {
    var r1 := row[1..];
    var r2 := r1[1..];
    var r3 := r2[1..];
    var r4 := r3[1..];
    var r5 := r4[1..];
    assert r5[1..] == [];
    assert Evens(r5) == row[5];
    assert Evens(r4) == row[4] + row[5];
    assert Evens(r3) == row[3] + row[4] + row[5];
    assert Evens(r2) == row[2] + row[3] + row[4] + row[5];
    assert Evens(r1) == row[1] + row[2] + row[3] + row[4] + row[5];
  }

  /** A row whose first flag differs from the first flag of every row of a table is not in it. */
  lemma FirstFlagNotInTable(table: seq<seq<int>>, r: seq<int>)
    requires |r| > 0
    requires forall i :: 0 <= i < |table| ==> |table[i]| > 0 && table[i][0] != r[0]
    ensures r !in table
  {
  }

  /** The two tables share no row: a parity pattern names its system digit. */
  lemma TablesDisjoint(c: nat)
    requires c < 10
    ensures Parity[1][c] !in Parity[0] && Parity[0][c] !in Parity[1]
  {
    ParityTable();
    FirstFlagNotInTable(Parity[0], Parity[1][c]);
    FirstFlagNotInTable(Parity[1], Parity[0][c]);
  }

  /** The six compressed digits (and the UPC-A text they stand for) that validation settles on. */
  datatype Converted = Converted(text: string, upce: string)

  /**
   * validate: no data and bad characters first, then the length (11 or 6),
   * then the system digit of an 11-digit UPC-A (0 or 1), then the
   * conversion. An 11-digit text is kept and compressed; 6 digits are taken
   * as the compressed form and the text becomes 0 and their expansion.
   */
  function Normalize(raw: string): (r: Result<Converted>)
    ensures r.Ok? <==>
      AllDigits(raw) && (|raw| == 6 || (|raw| == 11 && (raw[0] == '0' || raw[0] == '1') && Compress(raw).Some?))
    ensures r.Err? && CheckData("Upce", raw).Fail? ==> r.error == CheckData("Upce", raw).error
    ensures r.Err? && CheckData("Upce", raw).Pass? && |raw| != 6 && |raw| != 11 ==>
      r.error == ParseError("Upce", WrongLength)
    ensures r.Err? && CheckData("Upce", raw).Pass? && |raw| == 11 && raw[0] != '0' && raw[0] != '1' ==>
      r.error == ParseError("Upce", UpcAPrefix)
    ensures r.Err? && CheckData("Upce", raw).Pass? && |raw| == 11 && (raw[0] == '0' || raw[0] == '1') ==>
      r.error == ParseError("Upce", NotConvertible)
    ensures r.Ok? && |raw| == 11 ==> r.value == Converted(raw, Compress(raw).value)
    ensures r.Ok? && |raw| == 6 ==> r.value == Converted(['0'] + Expand(raw), raw)
  {
    match CheckData("Upce", raw)
    case Fail(e) => Err(e)
    case Pass =>
      if |raw| != 11 && |raw| != 6 then Err(ParseError("Upce", WrongLength))
      else if raw[0] != '0' && raw[0] != '1' && |raw| != 6 then Err(ParseError("Upce", UpcAPrefix))
      else if |raw| == 6 then Ok(Converted(['0'] + Expand(raw), raw))
      else match Compress(raw)
        case Some(u) => Ok(Converted(raw, u))
        case None => Err(ParseError("Upce", NotConvertible))
  }

  /** What draw needs: an 11-digit UPC-A text with system digit 0 or 1 and six compressed digits. */
  predicate Drawable(text: string, upce: string) {
    |text| == 11 && AllDigits(text) && (text[0] == '0' || text[0] == '1') &&
    |upce| == 6 && AllDigits(upce)
  }

  /**
   * Whatever validation accepts is drawable, and the compressed digits expand
   * back to the UPC-A text after its system digit; an accepted 11-digit text
   * keeps its own digits, an accepted 6-digit one gets system digit 0.
   */
  lemma NormalizeConsistent(raw: string)
    requires Normalize(raw).Ok?
    ensures Drawable(Normalize(raw).value.text, Normalize(raw).value.upce)
    ensures Expand(Normalize(raw).value.upce) == Normalize(raw).value.text[1..]
    ensures |raw| == 11 ==> Normalize(raw).value.text == raw
    ensures |raw| == 6 ==> Normalize(raw).value.text[0] == '0' && Normalize(raw).value.upce == raw
  {
    if |raw| == 11 {
      ExpandCompress(raw);
    } else {
      var t := ['0'] + Expand(raw);
      assert t[1..] == Expand(raw);
      assert AllDigits(t) by {
        forall i | 0 <= i < |t|
          ensures IsDigit(t[i])
        {
          if i > 0 {
            assert t[i] == Expand(raw)[i - 1];
          }
        }
      }
    }
  }

  /** Validating the UPC-A an accepted UPC-E stands for gives back the same UPC-E when that UPC-E is canonical. */
  lemma NormalizeIdempotent(raw: string)
    requires Normalize(raw).Ok? && Canonical(Normalize(raw).value.upce)
    ensures Normalize(Normalize(raw).value.text) == Normalize(raw)
  {
    NormalizeConsistent(raw);
    var v := Normalize(raw).value;
    if |raw| == 6 {
      CompressExpand('0', raw);
      assert [v.text[0]] + v.text[1..] == v.text;
    }
  }

  /** The stream draw emits for system digit sys, the compressed digits and the check digit. */
  function Stream(sys: nat, upce: string, check: nat): seq<Emission>
    requires sys < 2 && check < 10 && |upce| == 6 && AllDigits(upce)
  {
    [StartGuard] + LeftRun(upce, Parity[sys][check]) + [CenterGuard, EndBar]
  }

  /** 9 emissions covering 51 modules, as getDimension counts them, colours alternating. */
  lemma StreamShape(sys: nat, upce: string, check: nat)
    requires sys < 2 && check < 10 && |upce| == 6 && AllDigits(upce)
    ensures |Stream(sys, upce, check)| == 9
    ensures WellFormed(Stream(sys, upce, check))
    ensures TotalModules(Stream(sys, upce, check)) == StartLength + CenterLength + TextLength + EndLength
  {
    ParityTable();
    var left := LeftRun(upce, Parity[sys][check]);
    Single(StartGuard);
    LeftRunShape(upce, Parity[sys][check]);
    Join([StartGuard], left);
    Single(CenterGuard);
    Join([StartGuard] + left, [CenterGuard]);
    Single(EndBar);
    Join([StartGuard] + left + [CenterGuard], [EndBar]);
    assert [StartGuard] + left + [CenterGuard] + [EndBar] == Stream(sys, upce, check);
  }

  /** The system and check digits a parity pattern names, if any. */
  function ParityOf(row: seq<int>): (r: Option<(nat, nat)>)
    ensures r.Some? ==> r.value.0 < 2 && r.value.1 < 10
  {
    match IndexOf(Parity[0], row)
    case Some(c) => Some((0, c))
    case None =>
      match IndexOf(Parity[1], row)
      case Some(c) => Some((1, c))
      case None => None
  }

  /** Each row of the tables names exactly its own system and check digit. */
  lemma ParityOfRow(sys: nat, check: nat)
    requires sys < 2 && check < 10
    ensures ParityOf(Parity[sys][check]) == Some((sys, check))
  {
    ParityTable();
    TablesDisjoint(check);
    IndexOfDistinct(Parity[sys], check);
  }

  /** What a scanner reads back: system digit, the six digits, check digit, the last two from the parities. */
  function Decode(s: seq<Emission>): Option<(nat, string, nat)> {
    if |s| != 9 || s[0] != StartGuard || s[7] != CenterGuard || s[8] != EndBar then None
    else match DecodeLeftRun(s[1..7])
      case None => None
      case Some(left) =>
        match ParityOf(left.1)
        case Some(p) => Some((p.0, left.0, p.1))
        case None => None
  }

  lemma StreamOfParts(before: seq<Emission>, after: seq<Emission>, left: seq<Emission>)
    requires after == before + [StartGuard] + left + [CenterGuard] + [EndBar]
    ensures after == before + ([StartGuard] + left + [CenterGuard, EndBar])
  {
  }

  /** The drawn stream determines all it encodes: decoding gives back system digit, digits and check digit. */
  lemma DecodeStream(sys: nat, upce: string, check: nat)
    requires sys < 2 && check < 10 && |upce| == 6 && AllDigits(upce)
    ensures Decode(Stream(sys, upce, check)) == Some((sys, upce, check))
  {
    ParityTable();
    var s := Stream(sys, upce, check);
    var row := Parity[sys][check];
    assert s[1..7] == LeftRun(upce, row);
    DecodeLeftRunOf(upce, row);
    ParityOfRow(sys, check);
  }

  /** The UPC-E barcode object: the UPC-A text, its compressed form once validated, and the memoised check digit. */
  class Barcode {
    var text: string
    var upce: Option<string>
    var checksumValue: Option<nat>

    /** The stored check digit, once there is one, is a key's index. */
    predicate Valid()
      reads this
    {
      checksumValue.Some? ==> checksumValue.value < 10
    }

    constructor (text: string)
      ensures this.text == text && upce == None && checksumValue == None
      ensures Valid()
    {
      this.text := text;
      upce := None;
      checksumValue := None;
    }

    /**
     * validate. The compressed form is reset to empty before the conversion,
     * so a UPC-A that cannot be converted leaves it empty; an earlier error
     * leaves it as it was.
     */
    method Validate() returns (r: Outcome)
      requires Valid()
      modifies this
      ensures Valid()
      ensures checksumValue == old(checksumValue)
      ensures Normalize(old(text)).Ok? ==>
        r == Pass && text == Normalize(old(text)).value.text && upce == Some(Normalize(old(text)).value.upce)
      ensures Normalize(old(text)).Err? ==> r == Fail(Normalize(old(text)).error) && text == old(text)
      ensures Normalize(old(text)).Err? && Normalize(old(text)).error.reason == NotConvertible ==> upce == Some([])
      ensures Normalize(old(text)).Err? && Normalize(old(text)).error.reason != NotConvertible ==> upce == old(upce)
    {
      var c := |text|;
      if c == 0 {
        return Fail(ParseError("Upce", NoData));
      }
      r := CheckCharsAllowed("Upce", text);
      if r.Fail? {
        return;
      }
      if c != 11 && c != 6 {
        return Fail(ParseError("Upce", WrongLength));
      } else if text[0] != '0' && text[0] != '1' && c != 6 {
        return Fail(ParseError("Upce", UpcAPrefix));
      }
      upce := Some([]);
      if c != 6 {
        var compressed := Compress(text);
        if compressed.Some? {
          upce := compressed;
        }
      } else {
        upce := Some(text);
      }
      if upce == Some([]) {
        return Fail(ParseError("Upce", NotConvertible));
      }
      if c == 6 {
        text := ['0'] + Expand(text);
      }
    }

    /** calculateChecksum over the UPC-A text. */
    method CalculateChecksum()
      requires AllDigits(text)
      requires Valid()
      modifies this
      ensures Valid()
      ensures text == old(text) && upce == old(upce) && checksumValue == Some(CheckDigit(text))
    {
      var c := CalculateCheckDigit(text);
      checksumValue := Some(c);
    }

    /** processChecksum: the check digit is computed on the first call only; every call returns its key. */
    method ProcessChecksum() returns (key: char)
      requires AllDigits(text)
      requires Valid()
      modifies this
      ensures Valid()
      ensures text == old(text) && upce == old(upce)
      ensures old(checksumValue).Some? ==> checksumValue == old(checksumValue)
      ensures old(checksumValue).None? ==> checksumValue == Some(CheckDigit(text))
      ensures checksumValue.Some? && checksumValue.value < 10 && key == DigitChar(checksumValue.value)
    {
      if checksumValue.None? {
        CalculateChecksum();
      }
      key := DigitChar(checksumValue.value);
    }

    /**
     * draw: recompute the check digit of the UPC-A text, emit the stream
     * whose parities carry the system and check digits, then replace the
     * text by its system digit and the six compressed digits.
     */
    method Draw(image: Surface)
      requires upce.Some? && Drawable(text, upce.value)
      requires Valid()
      modifies this, image
      ensures Valid()
      ensures upce == old(upce) && checksumValue == Some(CheckDigit(old(text)))
      ensures text == [old(text)[0]] + upce.value
      ensures image.emitted == old(image.emitted) +
        Stream(DigitValue(old(text)[0]), upce.value, CheckDigit(old(text)))
    {
      ghost var before := image.emitted;
      ParityTable();
      CalculateChecksum();
      var sys := DigitValue(text[0]);
      var check := checksumValue.value;
      var u := upce.value;
      image.DrawChar("000", true);
      EmitLeftRun(image, u, Parity[sys][check]);
      image.DrawChar("00000", false);
      image.DrawChar("0", true);
      text := [text[0]] + u;
      StreamOfParts(before, image.emitted, LeftRun(u, Parity[sys][check]));
    }
  }

  /**
   * End to end: for every accepted input, the drawn stream reads back as a
   * system digit and six digits that expand to the validated UPC-A text, and
   * a check digit that completes that text to a number passing the 3/1 check.
   */
  lemma DrawnNumberScans(raw: string)
    requires Normalize(raw).Ok?
    ensures var v := Normalize(raw).value;
      Drawable(v.text, v.upce) &&
      Decode(Stream(DigitValue(v.text[0]), v.upce, CheckDigit(v.text))) ==
        Some((DigitValue(v.text[0]), v.upce, CheckDigit(v.text)))
    ensures var v := Normalize(raw).value;
      [v.text[0]] + Expand(v.upce) == v.text &&
      WeightedSum(v.text + [DigitChar(CheckDigit(v.text))], 1, 3) % 10 == 0
  {
    NormalizeConsistent(raw);
    var v := Normalize(raw).value;
    assert [v.text[0]] + v.text[1..] == v.text;
    DecodeStream(DigitValue(v.text[0]), v.upce, CheckDigit(v.text));
    CompleteNumberVerifies(v.text, DigitChar(CheckDigit(v.text)));
  }

  /** 123456 stands for the UPC-A 01234500006, and 789012 for 07820000901. */
  lemma ConversionExamples(a: string, b: string)
    requires a == "123456" && b == "789012"
    ensures Normalize(a) == Ok(Converted("01234500006", a))
    ensures Normalize(b) == Ok(Converted("07820000901", b))
  {
    ExpandExamples(a, b);
    assert ['0'] + Expand(a) == "01234500006";
    assert ['0'] + Expand(b) == "07820000901";
  }

  /**
   * The 6-digit path takes 120453 as drawn, although the UPC-A it stands
   * for, 01200000045, compresses to 120450: two drawings of one number.
   */
  lemma NonCanonicalAccepted(e: string, x: string)
    requires e == "120453" && x == "01200000045"
    ensures Normalize(e) == Ok(Converted(x, e))
    ensures Normalize(x) == Ok(Converted(x, "120450"))
  {
    assert AllDigits(e) && |e| == 6;
    assert Expand(e) == e[..3] + "00000" + e[3..5];
    assert ['0'] + Expand(e) == x;
    assert AllDigits(x) by {
      assert forall i :: 0 <= i < |x| ==> x[i] == '0' || x[i] == '1' || x[i] == '2' || x[i] == '4' || x[i] == '5';
    }
    assert x[3..6] == "000" && x[6..8] == "00";
    assert x[1..3] == "12" && x[8..11] == "045" && x[3..4] == "0";
    assert x[1..3] + x[8..11] + x[3..4] == "120450";
  }
}
