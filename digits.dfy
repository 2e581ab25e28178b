/**
 * Digit strings and the validators' failure reports.
 *
 * Every symbology of the family uses the same alphabet, the keys '0'..'9';
 * a validator that meets any other character reports it by name.
 */
module Digits {

  datatype Option<+T> = None | Some(value: T)

  /** Why a validator refused its text. */
  datatype Reason =
    | NoData                  // the text is empty
    | CharNotAllowed(c: char) // the first character outside the keys
    | WrongLength             // the symbology's length rule failed
    | UpcAPrefix              // an 11-digit UPC-A for UPC-E must start with 0 or 1
    | NotConvertible          // the UPC-A has no UPC-E compressed form

  /** A parse exception: the symbology's tag ("Ean13", "Upca", ...) and the reason. */
  datatype ParseError = ParseError(symbology: string, reason: Reason)

  /** A validation step either passes or throws one parse exception. */
  datatype Outcome = Pass | Fail(error: ParseError)

  /** A normalisation either yields a value or throws one parse exception. */
  datatype Result<+T> = Ok(value: T) | Err(error: ParseError)

  /** Membership in the keys '0'..'9'. */
  predicate IsDigit(c: char) {
    '0' <= c <= '9'
  }

  predicate AllDigits(s: string) {
    forall i :: 0 <= i < |s| ==> IsDigit(s[i])
  }

  /** The index of a key in the keys, which is also its numeric value. */
  function DigitValue(c: char): (n: nat)
    requires IsDigit(c)
    ensures n < 10
  {
    c as int - '0' as int
  }

  /** keys[n]: the key of value n. */
  function DigitChar(n: nat): (c: char)
    requires n < 10
    ensures IsDigit(c) && DigitValue(c) == n
  {
    ('0' as int + n) as char
  }

  lemma DigitCharOfValue(c: char)
    requires IsDigit(c)
    ensures DigitChar(DigitValue(c)) == c
  {
  }

  /** The position of the first character that is not a key, if any. */
  function FirstNonDigit(s: string): (k: Option<nat>)
    ensures k.None? <==> AllDigits(s)
    ensures k.Some? ==> k.value < |s| && !IsDigit(s[k.value]) && AllDigits(s[..k.value])
  {
    if s == [] then None
    else if !IsDigit(s[0]) then Some(0)
    else match FirstNonDigit(s[1..])
      case None => None
      case Some(j) =>
        assert s[..j + 1] == [s[0]] + s[1..][..j];
        Some(j + 1)
  }

  /** The verdict of the character loop every validator runs. */
  function CharsOutcome(symbology: string, s: string): (r: Outcome)
    ensures r.Pass? <==> AllDigits(s)
  {
    match FirstNonDigit(s)
    case None => Pass
    case Some(k) => Fail(ParseError(symbology, CharNotAllowed(s[k])))
  }

  /**
   * The checks every validator opens with: no data, then the first character
   * that is not a key. The length rule, which differs, comes after.
   */
  function CheckData(symbology: string, s: string): (r: Outcome)
    ensures r.Pass? <==> s != [] && AllDigits(s)
    ensures r.Fail? ==> r.error.symbology == symbology
    ensures r.Fail? && s == [] ==> r.error.reason == NoData
    ensures r.Fail? && s != [] ==> r.error.reason == CharNotAllowed(s[FirstNonDigit(s).value])
  {
    if s == [] then Fail(ParseError(symbology, NoData)) else CharsOutcome(symbology, s)
  }

  lemma FirstNonDigitAt(s: string, i: nat)
    requires i < |s| && !IsDigit(s[i]) && AllDigits(s[..i])
    ensures FirstNonDigit(s) == Some(i)
  {
  }

  /**
   * The loop over the text that throws on the first character that is not a key,
   * naming that character.
   */
  method CheckCharsAllowed(symbology: string, text: string) returns (r: Outcome)
    ensures r == CharsOutcome(symbology, text)
    ensures r.Fail? ==> exists i :: 0 <= i < |text| && r.error == ParseError(symbology, CharNotAllowed(text[i]))
  {
    var i := 0;
    while i < |text|
      invariant 0 <= i <= |text|
      invariant AllDigits(text[..i])
    {
      if !IsDigit(text[i]) {
        FirstNonDigitAt(text, i);
        return Fail(ParseError(symbology, CharNotAllowed(text[i])));
      }
      assert text[..i + 1] == text[..i] + [text[i]];
      i := i + 1;
    }
    assert text[..i] == text;
    return Pass;
  }
}
