# EAN/UPC barcodes

This project models the EAN/UPC family of the barcode-bakery 1D library in
Dafny. The family has seven symbologies: EAN-13, UPC-A, EAN-8, UPC-E, the
two-digit and five-digit UPC/EAN supplements, and the free-form "other code".
The model covers:

- for all seven, validation of the text: the error reported, in the
  source's order of checks, and the text that validation leaves behind;
- for EAN-13, UPC-A, EAN-8, UPC-E and the five-digit supplement, the check
  digit, computed by the source's loop over the digits from the right, and
  its memoisation in `checksumValue` (the two-digit supplement and other
  code have no checksum);
- UPC-E: conversion between an 11-digit UPC-A number and its six-digit
  compressed form, in both directions;
- for all seven, drawing: the exact sequence of `drawChar` calls (width
  string, first module a bar or a space) that `draw` makes, together with
  the width that `getDimension` reserves for it. For UPC-A this includes
  the two characters that `drawExtendedBars` draws again when the default
  EAN label is on. The `drawExtendedBars` of EAN-13, EAN-8 and UPC-E call
  only `drawSingleBar`; the two supplements and other code have none.

Drawing is modelled by a `Surface` object that records every `drawChar` call
as an `Emission`. In a width string, the digit d stands for a run of d+1
modules, and colours alternate. On top of this record, the model defines a
decoder for each symbology: what a scanner would read back from the drawn
modules. For all seven, the drawn stream decodes to the validated number
(`*.DecodeStream`, `*.DecodeBarStream`). For EAN-13, UPC-A, EAN-8 and UPC-E,
the decoded number also ends in a check digit that passes the standard 1/3
check (`*.DrawnNumberScans`). The five-digit supplement draws no check
character: its 3/9 check is carried by the parities, and a scanner rejects a
single changed digit (`UpcExt5.DecodeStream`, `UpcExt5.SubstitutionRejected`).
The two-digit supplement's parities carry its value modulo 4
(`UpcExt2.UnitsChangeRejected`); other code carries no check.

Modules:

| module | file | models |
|---|---|---|
| `Digits` | digits.dfy | the key set 0-9, parse errors, the "no data" and "character not allowed" checks |
| `Bars` | bars.dfy | the drawing surface, the code table, `inverse`, runs of left-hand and right-hand characters, supplement interleaving, decoders |
| `Checksum` | checksum.dfy | the weighted-sum loops with weights 3/1 (EAN, UPC) and 3/9 (five-digit supplement) |
| `Ean13` | ean13.dfy | `BCGean13` |
| `UpcA` | upca.dfy | `BCGupca` (an EAN-13 with a leading 0) |
| `Ean8` | ean8.dfy | `BCGean8` |
| `UpceConversion` | upce_conversion.dfy | the UPC-A to UPC-E compression and the UPC-E to UPC-A expansion in `BCGupce.validate` |
| `Upce` | upce.dfy | `BCGupce` |
| `UpcExt5` | upcext5.dfy | `BCGupcext5` |
| `UpcExt2` | upcext2.dfy | `BCGupcext2` |
| `OtherCode` | othercode.dfy | `BCGothercode` |

Behaviour worth knowing, as the code has it:

- **Check digit of 123456789012.** The EAN-13 check digit of 123456789012 is
  8: the 3/1 weighted sum is 92 (`Ean13.CheckDigitExample`).
- **Comment at BCGupce.ts:218.** The comment says the manufacturer code
  "ends with 100, 200 or 300". The code tests for 000, 100 and 200, and the
  model follows the code.
- **Non-canonical UPC-E input.** A six-digit UPC-E input is taken as drawn,
  even when it is not the form that compression would produce. For example,
  120453 expands to 01200000045, which compresses to 120450
  (`Upce.NonCanonicalAccepted`). Compression and expansion are inverse on
  canonical forms (`UpceConversion.CompressIff`). Validation is idempotent
  on them (`Upce.NormalizeIdempotent`).
- **Error tags of UPC-A.** UPC-A reports an empty text and a bad character
  under the tag `Ean13`, because those checks are inherited. It reports a
  wrong length under `Upca`.

## Model

| member | source | states |
|---|---|---|
| Digits.DigitChar | src/BCGean13.ts:36 | the key of a value below 10 is a digit whose value is that number |
| Digits.DigitCharOfValue | src/BCGean13.ts:240-242 | looking up the key of a digit's value gives that digit back |
| Digits.FirstNonDigit | src/BCGean13.ts:190-198 | none exactly when every character is a key; otherwise the first position holding a non-key, with keys before it |
| Digits.CheckData | src/BCGean13.ts:175-198 | passes iff the text is non-empty and all keys; otherwise NoData for empty text, else CharNotAllowed naming the first offending character |
| Digits.CheckCharsAllowed | src/BCGean13.ts:190-198 | the loop fails on the first non-key character and passes iff all characters are keys |
| Bars.ReverseReverse | src/BCGean13.ts:342-348 | reversing a width string twice gives it back |
| Bars.InverseProperties | src/BCGean13.ts:342-348 | inverse keeps length, digits and module count; it is its own inverse; flag 0 leaves the string unchanged |
| Bars.CodeTable | src/BCGean13.ts:41-52 | ten distinct entries of four widths (each at most 3) covering 7 modules, an odd number of them bars; no reversed entry is in the table |
| Bars.CharShapes | src/BCGean13.ts:108-117 | every left-hand or right-hand character is four widths covering 7 modules |
| Bars.LeftRunAt | src/BCGean13.ts:286-288 | element i of a left-hand run is digit i drawn with parity flag i |
| Bars.EmitLeftRun | src/BCGean13.ts:286-288 | the loop appends the left-hand run of the digits with the given parity row, and nothing else |
| Bars.EmitOddRun | src/BCGean8.ts:59-61 | the loop appends the left-hand run of the digits, all with odd parity |
| Bars.EmitRightRun | src/BCGean13.ts:294-296 | the loop appends the right-hand run of the digits |
| Bars.LeftRunShape | src/BCGean13.ts:286-288 | a left-hand run alternates colours, starts with a space, ends with a bar and covers 7 modules per digit |
| Bars.RightRunShape | src/BCGean13.ts:294-296 | a right-hand run alternates colours, starts with a bar, ends with a space and covers 7 modules per digit |
| Bars.DecodeChar | src/BCGean13.ts:41-52 | a left-hand character reads back as its digit and its parity flag; a right-hand one as its digit |
| Bars.DecodeLeftRunOf | src/BCGean13.ts:286-288 | a drawn left-hand run reads back as exactly its digits and parity row |
| Bars.DecodeRightRunOf | src/BCGean13.ts:294-296 | a drawn right-hand run reads back as exactly its digits |
| Bars.DeinterleaveInterleave | src/BCGupcext5.ts:58-63 | removing the inter-character spaces gives back the characters |
| Bars.InterleaveShape | src/BCGupcext5.ts:77-85 | characters joined by two-module spaces stay well formed and gain 2 modules per separator |
| Bars.SupplementDrawnPrefix | src/BCGupcext5.ts:58-63 | after i iterations the loop has drawn the first i characters, spaced, plus a trailing space unless it drew the last one |
| Bars.EmitSupplement | src/BCGupcext5.ts:58-63 | the loop appends the supplement characters with their parities, separated by two-module spaces |
| Bars.SupplementShape | src/BCGupcext5.ts:77-85 | a supplement covers 7 modules per digit plus 2 per separator, starts with a space and ends with a bar |
| Bars.DecodeSupplementOf | src/BCGupcext5.ts:58-63 | a drawn supplement reads back as its digits and parity row |
| Checksum.AccumulateWeighted | src/BCGean13.ts:224-243 | the right-to-left loop with alternating multipliers computes the weighted sum, the rightmost digit taking the odd weight |
| Checksum.CheckDigit | src/BCGean13.ts:216-246 | the check digit is below 10 and brings the 3/1 weighted sum to a multiple of 10 |
| Checksum.CheckDigitUnique | src/BCGean13.ts:245 | the check digit is the only digit that completes the sum to a multiple of 10 |
| Checksum.CalculateCheckDigit | src/BCGean8.ts:176-206 | the loop followed by (10 - sum mod 10) mod 10 yields the check digit |
| Checksum.CompleteNumberVerifies | src/BCGean13.ts:216-246 | a number with a digit appended passes the standard 1/3 check exactly when that digit is the check digit |
| Checksum.LeadingZero | src/BCGupca.ts:24-32 | a leading 0 changes neither the weighted sum nor the check digit |
| Checksum.CheckDigitDetectsSubstitution | src/BCGean13.ts:216-246 | changing any single digit changes the check digit |
| Checksum.SupplementCheck | src/BCGupcext5.ts:125-155 | the five-digit supplement's check is below 10 and equals the 3/9 weighted sum modulo 10 |
| Checksum.CalculateSupplementCheck | src/BCGupcext5.ts:125-155 | the loop followed by sum mod 10 yields the supplement check |
| Checksum.SupplementCheckDetectsSubstitution | src/BCGupcext5.ts:125-155 | changing any single digit changes the 3/9 check |
| Ean13.ParityTable | src/BCGean13.ts:55-66 | ten distinct rows of five parity flags; first digit 0 draws all five odd |
| Ean13.ParityRow | src/BCGean13.ts:287 | the row the first digit selects is five parity flags, each 0 (odd) or 1 (even) |
| Ean13.Normalize | src/BCGean13.ts:175-211 | accepts exactly 12 or 13 digits and keeps the first 12; errors in the source's order, a wrong length last |
| Ean13.NormalizeDropsCheckDigit | src/BCGean13.ts:203-211 | a 13th digit is dropped unchecked: validating 12 digits plus any digit equals validating the 12 |
| Ean13.BarStreamShape | src/BCGean13.ts:108-117 | 15 emissions, alternating colours, covering 3 + 5 + 84 + 3 = 95 modules |
| Ean13.BarStreamLayout | src/BCGean13.ts:270-300 | start guard, second digit odd, five digits with the first digit's parities, centre guard, six right-hand digits, end guard |
| Ean13.DecodeBarStream | src/BCGean13.ts:270-300 | the stream reads back as all 13 digits, the first recovered from the parity pattern |
| Ean13.EmitBars | src/BCGean13.ts:279-299 | the drawing calls append exactly the bar stream of the 13-digit text |
| Ean13.Barcode.CheckCorrectLength | src/BCGean13.ts:203-211 | 13 digits lose the last, 12 are kept, any other length is a WrongLength error |
| Ean13.Barcode.Validate | src/BCGean13.ts:175-185 | passes iff Normalize accepts; then the text is the normalised one; on failure it reports Normalize's error and leaves the text alone |
| Ean13.Barcode.CalculateChecksum | src/BCGean13.ts:216-246 | stores the check digit of the text |
| Ean13.Barcode.ProcessChecksum | src/BCGean13.ts:253-263 | computes the check digit only when none is stored, and returns the key of the stored one |
| Ean13.Barcode.DrawBars | src/BCGean13.ts:270-300 | stores the check digit and draws the bar stream of the text followed by its check digit |
| Ean13.DrawnNumberScans | src/BCGean13.ts:270-300 | the drawn number reads back as the text with its check digit, which passes the standard check |
| Ean13.CheckDigitExample | src/BCGean13.ts:216-246 | the check digit of 123456789012 is 8 |
| UpcA.Normalize | src/BCGupca.ts:134-142 | accepts exactly 11 or 12 digits and keeps the first 11; an empty text or a bad character is reported under Ean13, a wrong length under Upca |
| UpcA.AcceptedAsEan13 | src/BCGupca.ts:24-32 | an accepted UPC-A number with 0 in front is accepted unchanged by EAN-13 |
| UpcA.NoReversal | src/BCGupca.ts:24-32 | with the system digit 0, the five manufacturer digits are drawn with odd parity, none reversed |
| UpcA.DrawnNumberScans | src/BCGupca.ts:24-32 | the drawn number reads back as 0, the text and its check digit, which passes the standard check |
| UpcA.Barcode.CheckCorrectLength | src/BCGupca.ts:134-142 | 12 digits lose the last, 11 are kept, any other length is a Upca WrongLength error |
| UpcA.Barcode.Validate | src/BCGupca.ts:134-142 | the EAN-13 validation with the UPC-A length rule: passes iff Normalize accepts, and leaves the normalised text |
| UpcA.Barcode.Draw | src/BCGupca.ts:24-32 | draws the EAN-13 stream of 0 and the text, then, with the default label on, the two characters of drawExtendedBars; stores the check digit and restores the text |
| UpcA.ExtendedCharsRepeatStream | src/BCGupca.ts:40-80 | the two characters drawExtendedBars draws are the system digit's and the check digit's, the same emissions as the second and second-to-last of the stream |
| Ean8.Normalize | src/BCGean8.ts:150-171 | accepts exactly 7 or 8 digits and keeps the first 7; errors in the source's order |
| Ean8.NormalizeDropsCheckDigit | src/BCGean8.ts:164-169 | an 8th digit is dropped unchecked |
| Ean8.BarStreamShape | src/BCGean8.ts:94-103 | 11 emissions, alternating colours, covering 3 + 5 + 56 + 3 = 67 modules |
| Ean8.BarStreamLayout | src/BCGean8.ts:45-83 | start guard, four odd left-hand digits, centre guard, four right-hand digits, end guard |
| Ean8.DecodeBarStream | src/BCGean8.ts:45-83 | the stream reads back as all 8 digits |
| Ean8.EmitBars | src/BCGean8.ts:45-83 | the drawing calls append exactly the bar stream of the 8-digit text |
| Ean8.Barcode.Validate | src/BCGean8.ts:150-171 | passes iff Normalize accepts and leaves the normalised text; on failure reports Normalize's error |
| Ean8.Barcode.CalculateChecksum | src/BCGean8.ts:176-206 | stores the check digit of the text |
| Ean8.Barcode.ProcessChecksum | src/BCGean8.ts:213-223 | computes the check digit only when none is stored, and returns its key |
| Ean8.Barcode.Draw | src/BCGean8.ts:45-83 | stores the check digit and draws the bar stream of the text followed by it |
| Ean8.DrawnNumberScans | src/BCGean8.ts:45-83 | the drawn number reads back as the text with its check digit, which passes the standard check |
| Ean8.CheckDigitExample | src/BCGean8.ts:176-206 | the check digit of 1234567 is 0 |
| UpceConversion.Compress | src/BCGupce.ts:214-235 | a compressed form, when there is one, is six digits |
| UpceConversion.Expand | src/BCGupce.ts:244-259 | the expansion of six digits is ten digits |
| UpceConversion.CompressSucceeds | src/BCGupce.ts:215-235 | compression succeeds exactly when the product digits fit the branch selected by the manufacturer digits |
| UpceConversion.CompressRecordsBranch | src/BCGupce.ts:215-235 | the last compressed digit records the branch the compression took |
| UpceConversion.ExpandCompress | src/BCGupce.ts:214-259 | compressing and expanding gives back the UPC-A digits after the system digit, and the compressed form is canonical |
| UpceConversion.ExpandHundreds | src/BCGupce.ts:217-221 | manufacturer ending 000/100/200 with product 00xxx: the form expands back to the number |
| UpceConversion.ExpandTens | src/BCGupce.ts:222-225 | manufacturer ending 00 with product 000xx: the form expands back to the number |
| UpceConversion.ExpandUnits | src/BCGupce.ts:226-229 | manufacturer ending 0 with product 0000x: the form expands back to the number |
| UpceConversion.ExpandNoZero | src/BCGupce.ts:230-235 | product 0000 and a last digit of 5 to 9: the form expands back to the number |
| UpceConversion.CompressExpand | src/BCGupce.ts:214-259 | any system digit followed by the expansion of a canonical form compresses back to that form |
| UpceConversion.CompressExpandHundreds | src/BCGupce.ts:217-221 | canonical forms ending 0-2 compress back after expansion |
| UpceConversion.CompressExpandTens | src/BCGupce.ts:222-225 | canonical forms ending 3 compress back after expansion |
| UpceConversion.CompressExpandUnits | src/BCGupce.ts:226-229 | canonical forms ending 4 compress back after expansion |
| UpceConversion.CompressExpandNoZero | src/BCGupce.ts:230-235 | canonical forms ending 5-9 compress back after expansion |
| UpceConversion.CompressIff | src/BCGupce.ts:214-259 | x compresses to e if and only if e is canonical and expands to x's digits after the system digit |
| UpceConversion.ExpandExamples | src/BCGupce.ts:244-259 | 123456 expands to 1234500006 and 789012 to 7820000901 |
| Upce.ParityTable | src/BCGupce.ts:57-82 | two tables of ten distinct rows of six flags; the system-1 rows are the complements of the system-0 rows, and each system-0 row starts even |
| Upce.ParityTableEvens | src/BCGupce.ts:57-82 | every row of both tables asks for exactly three even characters |
| Upce.TablesDisjoint | src/BCGupce.ts:57-82 | no row of one system's table occurs in the other's |
| Upce.ParityOfRow | src/BCGupce.ts:57-82 | a parity row identifies its system digit and check digit |
| Upce.Normalize | src/BCGupce.ts:191-262 | accepts 6 digits, or 11 digits starting 0 or 1 that compress; errors in the source's order (no data, character, length, prefix, not convertible); the converted text and compressed form |
| Upce.NormalizeConsistent | src/BCGupce.ts:191-262 | an accepted result is drawable and its compressed form expands to the text after the system digit |
| Upce.NormalizeIdempotent | src/BCGupce.ts:191-262 | validating the validated text again gives the same result when the compressed form is canonical |
| Upce.StreamShape | src/BCGupce.ts:130-139 | 9 emissions, alternating colours, covering 3 + 5 + 42 + 1 = 51 modules |
| Upce.DecodeStream | src/BCGupce.ts:90-119 | the stream reads back as system digit, six digits and check digit, the last two recovered from the parities |
| Upce.Barcode.Validate | src/BCGupce.ts:191-262 | passes iff Normalize accepts, leaving its text and compressed form; NotConvertible leaves an empty compressed form; other errors leave it unchanged |
| Upce.Barcode.CalculateChecksum | src/BCGupce.ts:267-297 | stores the check digit of the UPC-A text |
| Upce.Barcode.ProcessChecksum | src/BCGupce.ts:304-314 | computes the check digit only when none is stored, and returns its key |
| Upce.Barcode.Draw | src/BCGupce.ts:90-119 | recomputes the check digit, draws the six digits with the parities that system and check digit select, and rewrites the text to the system digit plus the six |
| Upce.DrawnNumberScans | src/BCGupce.ts:90-119 | for every accepted input the drawn stream reads back as a system digit, six digits expanding to the text, and a check digit that passes the standard check |
| Upce.ConversionExamples | src/BCGupce.ts:244-259 | 123456 validates to the UPC-A 01234500006 and 789012 to 07820000901 |
| Upce.NonCanonicalAccepted | src/BCGupce.ts:236-259 | 120453 is accepted as drawn, while its UPC-A 01200000045 compresses to 120450 |
| UpcExt5.ParityTable | src/BCGupcext5.ts:28-39 | ten distinct rows of five flags, each with exactly two even characters |
| UpcExt5.Normalize | src/BCGupcext5.ts:101-120 | accepts exactly five digits; errors in the source's order |
| UpcExt5.StreamShape | src/BCGupcext5.ts:77-85 | 10 emissions, alternating colours, covering 4 + 35 + 8 = 47 modules |
| UpcExt5.DecodeStream | src/BCGupcext5.ts:47-66 | the stream reads back as the five digits, their parities matching the check |
| UpcExt5.SubstitutionRejected | src/BCGupcext5.ts:47-66 | one digit changed under unchanged parities is rejected by the decoder |
| UpcExt5.Barcode.Validate | src/BCGupcext5.ts:101-120 | passes iff Normalize accepts, reporting its error otherwise |
| UpcExt5.Barcode.CalculateChecksum | src/BCGupcext5.ts:125-155 | stores the 3/9 check of the text |
| UpcExt5.Barcode.ProcessChecksum | src/BCGupcext5.ts:162-172 | computes the check only when none is stored, and returns its key |
| UpcExt5.Barcode.Draw | src/BCGupcext5.ts:47-66 | stores the check, then draws the start and the five characters with the parities it selects |
| UpcExt5.CheckDigitExample | src/BCGupcext5.ts:125-155 | 12345 has check 1 and parity row 1,0,1,0,0 |
| UpcExt2.Value | src/BCGupcext2.ts:48 | the two digits read as a number below 100 |
| UpcExt2.ParityTable | src/BCGupcext2.ts:29-34 | row k is k in binary, high bit first; the rows are distinct |
| UpcExt2.ParityOfValue | src/BCGupcext2.ts:48 | the second digit is even iff the value is odd; the first iff the value mod 4 is 2 or 3 |
| UpcExt2.Normalize | src/BCGupcext2.ts:90-109 | accepts exactly two digits; errors in the source's order |
| UpcExt2.StreamShape | src/BCGupcext2.ts:66-74 | 4 emissions, alternating colours, covering 4 + 14 + 2 = 20 modules |
| UpcExt2.DecodeStream | src/BCGupcext2.ts:42-55 | the stream reads back as the two digits |
| UpcExt2.UnitsChangeRejected | src/BCGupcext2.ts:42-55 | a changed second digit under unchanged parities is rejected unless the change is a multiple of 4 |
| UpcExt2.Barcode.Validate | src/BCGupcext2.ts:90-109 | passes iff Normalize accepts, reporting its error otherwise |
| UpcExt2.Barcode.Draw | src/BCGupcext2.ts:42-55 | draws the start and the two characters with the parities their value mod 4 selects |
| UpcExt2.ParityExamples | src/BCGupcext2.ts:29-34 | 12 is drawn all odd, 34 with its first digit even |
| OtherCode.Normalize | src/BCGothercode.ts:60-74 | accepts exactly the non-empty all-digit texts, unchanged |
| OtherCode.WidthIsModules | src/BCGothercode.ts:48-55 | the width getDimension adds (digit sum plus digit count) is the module count of the text as a width string |
| OtherCode.StreamShape | src/BCGothercode.ts:48-55 | the single emission is well formed and as wide as getDimension says |
| OtherCode.DecodeStream | src/BCGothercode.ts:19-22 | the one width string drawn is the accepted text itself, unchanged (no encoding step stands between the text and the bars) |
| OtherCode.WidthExample | src/BCGothercode.ts:48-55 | the digits 0 to 9 take 55 modules |
| OtherCode.Barcode.Validate | src/BCGothercode.ts:60-74 | passes iff Normalize accepts, reporting its error otherwise |
| OtherCode.Barcode.GetLabel | src/BCGothercode.ts:30-37 | the automatic label shows as empty text; a given label as itself; none only when no label is set |
| OtherCode.Barcode.Draw | src/BCGothercode.ts:19-22 | draws the text itself as one width string starting with a bar |

## Left out

- Labels and text layout are not modelled: `drawText`, `addDefaultLabel`, `isDefaultEanLabelEnabled`, `alignDefaultLabel` and the font and label objects. They place text with fonts, and the model has no pixels.
- `drawExtendedBars` is modelled only through its `drawChar` calls. UPC-A's makes two, modelled in `UpcA.Barcode.Draw` when its `defaultLabel` argument is true. Its `drawSingleBar` calls, and the positions and thickness it changes, are not modelled, since they only lengthen bars already drawn by pixel amounts. The EAN-13, EAN-8 and UPC-E versions call only `drawSingleBar`. Whether the default label is on (`isDefaultEanLabelEnabled`) is a parameter, not derived from the label state.
- `getDimension` is modelled only through its module count, as each `StreamShape` lemma states. The base-class scaling (`super.getDimension`) and the thickness are not modelled.
- `super.validate`, `parse`, `drawChar` itself and the other base-class code are not part of this model. `drawChar` is a `Surface` method that records its arguments.
- The checksum loops return early on a character that is not a key. The model requires all-digit text instead, since every caller runs validation first.
- The `checksumValue === null` checks after the checksum is computed are not modelled. They cannot fire once the checksum has been computed.
- Upce.Barcode.Draw: a second call to `draw` on the same object is not modelled. The first call rewrites the text to seven characters, and the precondition asks for the 11-digit validated text.
- OtherCode.Barcode.GetLabel: the `AUTO_LABEL` sentinel string is modelled as a constructor of `Label`. A label given with the same text as the sentinel is therefore not confused with it.
- UpcExt2.UnitsChangeRejected: the property is stated for a changed second digit only. A change to the first digit moves the value by a multiple of 10. When that move is a multiple of 4 (changes of 2, 4, 6 or 8 to the tens digit), the parities stay the same and the change goes undetected.
- Strings are sequences of Unicode characters, not UTF-16 code units. For a character outside the Basic Multilingual Plane, the source's "not allowed" error names the lone high surrogate that `this.text[i]` yields, while the model's `CharNotAllowed` names the whole character. Which inputs are rejected is the same; only the reported character differs.
- Exceptions are modelled as `Fail`/`Err` values that carry the symbology tag and the reason. The English message texts are not modelled.
- Pixel positions, colours, resolution and the image surface itself are not modelled.
