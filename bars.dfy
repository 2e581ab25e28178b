/**
 * Bar-width streams: what the symbologies hand to the renderer.
 *
 * The renderer's drawChar(image, widths, startsWithBar) is recorded, call by
 * call, as an Emission on the Surface. In a width string the digit d stands
 * for a run of d+1 modules; runs alternate between bar and space, starting
 * with a bar when startsWithBar holds.
 */
module Bars {
  import opened Digits

  datatype Emission = Emission(widths: string, startsWithBar: bool)

  /** The drawing surface, reduced to the ordered record of drawChar calls made on it. */
  class Surface {
    var emitted: seq<Emission>

    constructor ()
      ensures emitted == []
    {
      emitted := [];
    }

    method DrawChar(widths: string, startsWithBar: bool)
      modifies this
      ensures emitted == old(emitted) + [Emission(widths, startsWithBar)]
    {
      emitted := emitted + [Emission(widths, startsWithBar)];
    }
  }

  /**
   * The digit patterns shared by the whole family: the left-hand odd parity
   * pattern, read starting with a space. Its reversal is the even parity
   * pattern; read starting with a bar it is the right-hand pattern.
   */
  const Code: seq<string> := [
    "2100", // 0
    "1110", // 1
    "1011", // 2
    "0300", // 3
    "0021", // 4
    "0120", // 5
    "0003", // 6
    "0201", // 7
    "0102", // 8
    "2001"  // 9
  ]

  /** findCode: the pattern of a key. */
  function FindCode(c: char): string
    requires IsDigit(c)
  {
    Code[DigitValue(c)]
  }

  /** Utility.strrev. */
  function Reverse(s: string): (r: string)
    ensures |r| == |s|
    ensures forall i :: 0 <= i < |s| ==> r[i] == s[|s| - 1 - i]
  {
    if s == [] then [] else Reverse(s[1..]) + [s[0]]
  }

  lemma ReverseReverse(s: string)
    ensures Reverse(Reverse(s)) == s
  {
  }

  /** The static inverse(text, inverse) helper: reverse the pattern when the parity flag is 1. */
  function Inverse(text: string, inverse: int): string {
    if inverse == 1 then Reverse(text) else text
  }

  /** Number of modules a width string covers: each digit d is a run of d+1 modules. */
  function Modules(w: string): nat
    requires AllDigits(w)
  {
    if w == [] then 0 else DigitValue(w[0]) + 1 + Modules(w[1..])
  }

  lemma {:induction false} ModulesAppend(a: string, b: string)
    requires AllDigits(a) && AllDigits(b)
    ensures AllDigits(a + b) && Modules(a + b) == Modules(a) + Modules(b)
  {
    if a == [] {
      assert a + b == b;
    } else {
      assert (a + b)[0] == a[0] && (a + b)[1..] == a[1..] + b;
      ModulesAppend(a[1..], b);
    }
  }

  lemma {:induction false} ModulesReverse(w: string)
    requires AllDigits(w)
    ensures AllDigits(Reverse(w)) && Modules(Reverse(w)) == Modules(w)
  {
    if w != [] {
      ModulesReverse(w[1..]);
      ModulesAppend(Reverse(w[1..]), [w[0]]);
    }
  }

  /**
   * Reversal keeps a pattern's length and module count, undoes itself, and
   * turns the odd pattern of 0 into the even one, 0012.
   */
  lemma InverseProperties(text: string, inverse: int)
    requires AllDigits(text)
    ensures |Inverse(text, inverse)| == |text|
    ensures AllDigits(Inverse(text, inverse))
    ensures Modules(Inverse(text, inverse)) == Modules(text)
    ensures Inverse(Inverse(text, inverse), inverse) == text
    ensures Inverse(text, 0) == text
    ensures Inverse(Code[0], 1) == "0012"
  {
    ModulesReverse(text);
    ReverseReverse(text);
  }

  /** Pairwise distinct entries. */
  predicate Distinct<T(==)>(t: seq<T>) {
    forall i, j :: 0 <= i < j < |t| ==> t[i] != t[j]
  }

  /** Parity flags: every entry is 0 (odd) or 1 (even). */
  predicate Flags(row: seq<int>) {
    forall i :: 0 <= i < |row| ==> row[i] == 0 || row[i] == 1
  }

  /** The number of even-parity characters a row of flags asks for. */
  function Evens(row: seq<int>): int {
    if row == [] then 0 else row[0] + Evens(row[1..])
  }

  /**
   * The code table has one entry per key; each entry is four width digits in
   * 0..3 covering 7 modules, an odd number of them bars, and no odd pattern
   * is another digit's even one.
   */
  lemma CodeTable()
    ensures |Code| == 10 && Distinct(Code)
    ensures forall d :: 0 <= d < 10 ==>
      |Code[d]| == 4 && AllDigits(Code[d]) && Modules(Code[d]) == 7 &&
      (forall k :: 0 <= k < 4 ==> Code[d][k] <= '3')
    ensures forall d :: 0 <= d < 10 ==> BarModules(Code[d]) % 2 == 1
    ensures forall d :: 0 <= d < 10 ==> Reverse(Code[d]) !in Code
  {
    forall d | 0 <= d < 10
      ensures |Code[d]| == 4 && AllDigits(Code[d]) && Modules(Code[d]) == 7
      ensures forall k :: 0 <= k < 4 ==> Code[d][k] <= '3'
      ensures BarModules(Code[d]) % 2 == 1
      ensures Reverse(Code[d]) !in Code
    {
      CodeEntry(d);
      CodeEntryReversed(d);
    }
    CodeDistinct();
  }

  lemma CodeDistinct()
    ensures Distinct(Code)
  {
  }

  /** Four width digits cover the sum of their values plus 4 modules. */
  lemma ModulesOfFour(w: string)
    requires |w| == 4 && AllDigits(w)
    ensures Modules(w) == DigitValue(w[0]) + DigitValue(w[1]) + DigitValue(w[2]) + DigitValue(w[3]) + 4
  {
    var w1 := w[1..];
    var w2 := w1[1..];
    var w3 := w2[1..];
    assert w3[1..] == [];
    assert w1[0] == w[1] && w2[0] == w[2] && w3[0] == w[3];
  }

  /**
   * Modules in the bars of a four-run pattern read starting with a space (its
   * second and fourth runs). Odd parity patterns have an odd number of them.
   */
  function BarModules(w: string): nat
    requires |w| == 4 && AllDigits(w)
  {
    DigitValue(w[1]) + DigitValue(w[3]) + 2
  }

  /** A four-run pattern of width digits 0..3 covering 7 modules, with an odd number of bar modules. */
  lemma EntryShape(w: string, a: char, b: char, c: char, e: char)
    requires w == [a, b, c, e]
    requires '0' <= a <= '3' && '0' <= b <= '3' && '0' <= c <= '3' && '0' <= e <= '3'
    requires (a as int - '0' as int) + (b as int - '0' as int) + (c as int - '0' as int) + (e as int - '0' as int) == 3
    requires ((b as int - '0' as int) + (e as int - '0' as int)) % 2 == 1
    ensures |w| == 4 && AllDigits(w) && Modules(w) == 7
    ensures forall k :: 0 <= k < 4 ==> w[k] <= '3'
    ensures BarModules(w) % 2 == 1
  {
    assert forall k :: 0 <= k < 4 ==> w[k] == a || w[k] == b || w[k] == c || w[k] == e;
    ModulesOfFour(w);
  }

  lemma CodeEntry(d: nat)
    requires d < 10
    ensures |Code[d]| == 4 && AllDigits(Code[d]) && Modules(Code[d]) == 7
    ensures forall k :: 0 <= k < 4 ==> Code[d][k] <= '3'
    ensures BarModules(Code[d]) % 2 == 1
  {
    var w := Code[d];
    if d == 0 { EntryShape(w, '2', '1', '0', '0'); }
    else if d == 1 { EntryShape(w, '1', '1', '1', '0'); }
    else if d == 2 { EntryShape(w, '1', '0', '1', '1'); }
    else if d == 3 { EntryShape(w, '0', '3', '0', '0'); }
    else if d == 4 { EntryShape(w, '0', '0', '2', '1'); }
    else if d == 5 { EntryShape(w, '0', '1', '2', '0'); }
    else if d == 6 { EntryShape(w, '0', '0', '0', '3'); }
    else if d == 7 { EntryShape(w, '0', '2', '0', '1'); }
    else if d == 8 { EntryShape(w, '0', '1', '0', '2'); }
    else { EntryShape(w, '2', '0', '0', '1'); }
  }

  /** Reversing a 7-module pattern of odd parity gives one of even parity, so it is no entry of the table. */
  lemma CodeEntryReversed(d: nat)
    requires d < 10
    ensures Reverse(Code[d]) !in Code
  {
    forall e | 0 <= e < |Code|
      ensures |Code[e]| == 4 && AllDigits(Code[e]) && BarModules(Code[e]) % 2 == 1
    {
      CodeEntry(e);
    }
    CodeEntry(d);
    ReversedParity(Code[d]);
    EvenNotInTable(Code, Reverse(Code[d]));
  }

  /** The reversal of a 7-module pattern with odd bar modules has even bar modules. */
  lemma ReversedParity(w: string)
    requires |w| == 4 && AllDigits(w) && Modules(w) == 7 && BarModules(w) % 2 == 1
    ensures |Reverse(w)| == 4 && AllDigits(Reverse(w)) && BarModules(Reverse(w)) % 2 == 0
  {
    ModulesOfFour(w);
    var r := Reverse(w);
    assert r == [w[3], w[2], w[1], w[0]];
    assert AllDigits(r);
    assert BarModules(r) == DigitValue(w[2]) + DigitValue(w[0]) + 2;
  }

  /** A pattern with even bar modules is in no table of patterns with odd ones. */
  lemma EvenNotInTable(table: seq<string>, r: string)
    requires forall i :: 0 <= i < |table| ==> |table[i]| == 4 && AllDigits(table[i]) && BarModules(table[i]) % 2 == 1
    requires |r| == 4 && AllDigits(r) && BarModules(r) % 2 == 0
    ensures r !in table
  {
  }

  /** The first index of x in table, as Utility.arraySearch finds it. */
  function IndexOf<T(==)>(table: seq<T>, x: T): (k: Option<nat>)
    ensures k.None? <==> x !in table
    ensures k.Some? ==> k.value < |table| && table[k.value] == x && x !in table[..k.value]
  {
    if table == [] then None
    else if table[0] == x then Some(0)
    else match IndexOf(table[1..], x)
      case None => None
      case Some(j) =>
        assert table[..j + 1] == [table[0]] + table[1..][..j];
        Some(j + 1)
  }

  lemma IndexOfDistinct<T>(table: seq<T>, i: nat)
    requires Distinct(table) && i < |table|
    ensures IndexOf(table, table[i]) == Some(i)
  {
  }

  // ---------------------------------------------------------------------
  // Colour bookkeeping and module totals of a stream.

  /** The colour of the last run of an emission. */
  predicate EndsWithBar(e: Emission) {
    if |e.widths| % 2 == 1 then e.startsWithBar else !e.startsWithBar
  }

  /** Each emission starts with the colour opposite to where the previous one ended. */
  predicate Alternates(s: seq<Emission>) {
    forall i :: 0 < i < |s| ==> s[i].startsWithBar == !EndsWithBar(s[i - 1])
  }

  predicate WidthStrings(s: seq<Emission>) {
    forall i :: 0 <= i < |s| ==> AllDigits(s[i].widths)
  }

  function TotalModules(s: seq<Emission>): nat
    requires WidthStrings(s)
  {
    if s == [] then 0 else Modules(s[0].widths) + TotalModules(s[1..])
  }

  lemma {:induction false} TotalModulesAppend(a: seq<Emission>, b: seq<Emission>)
    requires WidthStrings(a) && WidthStrings(b)
    ensures WidthStrings(a + b) && TotalModules(a + b) == TotalModules(a) + TotalModules(b)
  {
    if a == [] {
      assert a + b == b;
    } else {
      assert (a + b)[0] == a[0] && (a + b)[1..] == a[1..] + b;
      TotalModulesAppend(a[1..], b);
    }
  }

  lemma AlternatesAppend(a: seq<Emission>, b: seq<Emission>)
    requires Alternates(a) && Alternates(b)
    requires a != [] && b != [] ==> b[0].startsWithBar == !EndsWithBar(a[|a| - 1])
    ensures Alternates(a + b)
  {
    forall i | 0 < i < |a + b|
      ensures (a + b)[i].startsWithBar == !EndsWithBar((a + b)[i - 1])
    {
      if i > |a| {
        assert (a + b)[i] == b[i - |a|] && (a + b)[i - 1] == b[i - 1 - |a|];
      }
    }
  }

  /** A stream of digit width strings whose colours alternate from one emission to the next. */
  predicate WellFormed(s: seq<Emission>) {
    WidthStrings(s) && Alternates(s)
  }

  lemma Single(e: Emission)
    requires AllDigits(e.widths)
    ensures WellFormed([e]) && TotalModules([e]) == Modules(e.widths)
  {
    assert [e][1..] == [];
  }

  /** Two well-formed streams join into one when the second starts with the colour the first did not end with. */
  lemma Join(a: seq<Emission>, b: seq<Emission>)
    requires WellFormed(a) && WellFormed(b) && a != [] && b != []
    requires b[0].startsWithBar == !EndsWithBar(a[|a| - 1])
    ensures WellFormed(a + b) && TotalModules(a + b) == TotalModules(a) + TotalModules(b)
    ensures (a + b)[0] == a[0] && (a + b)[|a + b| - 1] == b[|b| - 1]
  {
    TotalModulesAppend(a, b);
    AlternatesAppend(a, b);
  }

  // ---------------------------------------------------------------------
  // Guards and character emissions.

  /** The guards of EAN-13, UPC-A and EAN-8: bar, space, bar around a centre of space, bar, space, bar, space. */
  const StartGuard: Emission := Emission("000", true)
  const CenterGuard: Emission := Emission("00000", false)
  const EndGuard: Emission := Emission("000", true)

  /** A left-hand character: drawn starting with a space, reversed when its parity flag is 1. */
  function LeftChar(c: char, flag: int): Emission
    requires IsDigit(c)
  {
    Emission(Inverse(FindCode(c), flag), false)
  }

  /** A right-hand character: the same pattern, drawn starting with a bar. */
  function RightChar(c: char): Emission
    requires IsDigit(c)
  {
    Emission(FindCode(c), true)
  }

  lemma CharShapes(c: char, flag: int)
    requires IsDigit(c)
    ensures |LeftChar(c, flag).widths| == 4 && AllDigits(LeftChar(c, flag).widths)
    ensures Modules(LeftChar(c, flag).widths) == 7
    ensures |RightChar(c).widths| == 4 && AllDigits(RightChar(c).widths)
    ensures Modules(RightChar(c).widths) == 7
  {
    CodeTable();
    InverseProperties(FindCode(c), flag);
  }

  /** Left-hand characters, the i-th with parity flag row[i]. */
  function LeftRun(ds: string, row: seq<int>): (r: seq<Emission>)
    requires AllDigits(ds) && |row| == |ds|
    ensures |r| == |ds|
    decreases |ds|
  {
    if ds == [] then []
    else LeftRun(ds[..|ds| - 1], row[..|ds| - 1]) + [LeftChar(ds[|ds| - 1], row[|ds| - 1])]
  }

  /** Right-hand characters. */
  function RightRun(ds: string): (r: seq<Emission>)
    requires AllDigits(ds)
    ensures |r| == |ds|
    decreases |ds|
  {
    if ds == [] then [] else RightRun(ds[..|ds| - 1]) + [RightChar(ds[|ds| - 1])]
  }

  /** The i-th emission of a run is the i-th digit's character. */
  lemma {:induction false} LeftRunAt(ds: string, row: seq<int>, i: nat)
    requires AllDigits(ds) && |row| == |ds| && i < |ds|
    ensures LeftRun(ds, row)[i] == LeftChar(ds[i], row[i])
  {
    var n := |ds|;
    if i < n - 1 {
      LeftRunAt(ds[..n - 1], row[..n - 1], i);
    }
  }

  lemma {:induction false} RightRunAt(ds: string, i: nat)
    requires AllDigits(ds) && i < |ds|
    ensures RightRun(ds)[i] == RightChar(ds[i])
  {
    var n := |ds|;
    if i < n - 1 {
      RightRunAt(ds[..n - 1], i);
    }
  }

  /** A run grows one character at a time, as the drawing loops emit it. */
  lemma LeftRunPrefix(ds: string, row: seq<int>, i: nat)
    requires AllDigits(ds) && |row| == |ds| && i < |ds|
    ensures LeftRun(ds[..i + 1], row[..i + 1]) == LeftRun(ds[..i], row[..i]) + [LeftChar(ds[i], row[i])]
  {
    assert ds[..i + 1][..i] == ds[..i] && row[..i + 1][..i] == row[..i];
  }

  lemma RightRunPrefix(ds: string, i: nat)
    requires AllDigits(ds) && i < |ds|
    ensures RightRun(ds[..i + 1]) == RightRun(ds[..i]) + [RightChar(ds[i])]
  {
    assert ds[..i + 1][..i] == ds[..i];
  }

  /** The drawing loop over left-hand characters, the i-th reversed when row[i] is 1. */
  method EmitLeftRun(image: Surface, ds: string, row: seq<int>)
    requires AllDigits(ds) && |row| == |ds|
    modifies image
    ensures image.emitted == old(image.emitted) + LeftRun(ds, row)
  {
    var i := 0;
    while i < |ds|
      invariant 0 <= i <= |ds|
      invariant image.emitted == old(image.emitted) + LeftRun(ds[..i], row[..i])
    {
      image.DrawChar(Inverse(FindCode(ds[i]), row[i]), false);
      LeftRunPrefix(ds, row, i);
      i := i + 1;
    }
    assert ds[..i] == ds && row[..i] == row;
  }

  /** Left-hand characters all of odd parity, never reversed. */
  function OddRow(n: nat): (row: seq<int>)
    ensures |row| == n && Flags(row)
    ensures forall i :: 0 <= i < n ==> row[i] == 0
  {
    seq(n, _ => 0)
  }

  /** The drawing loop over left-hand characters that draws every pattern as it is in the table. */
  method EmitOddRun(image: Surface, ds: string)
    requires AllDigits(ds)
    modifies image
    ensures image.emitted == old(image.emitted) + LeftRun(ds, OddRow(|ds|))
  {
    var row := OddRow(|ds|);
    var i := 0;
    while i < |ds|
      invariant 0 <= i <= |ds|
      invariant image.emitted == old(image.emitted) + LeftRun(ds[..i], row[..i])
    {
      image.DrawChar(FindCode(ds[i]), false);
      LeftRunPrefix(ds, row, i);
      i := i + 1;
    }
    assert ds[..i] == ds && row[..i] == row;
  }

  /** The drawing loop over right-hand characters. */
  method EmitRightRun(image: Surface, ds: string)
    requires AllDigits(ds)
    modifies image
    ensures image.emitted == old(image.emitted) + RightRun(ds)
  {
    var i := 0;
    while i < |ds|
      invariant 0 <= i <= |ds|
      invariant image.emitted == old(image.emitted) + RightRun(ds[..i])
    {
      image.DrawChar(FindCode(ds[i]), true);
      RightRunPrefix(ds, i);
      i := i + 1;
    }
    assert ds[..i] == ds;
  }

  /** n left-hand characters cover 7n modules, starting with a space and ending with a bar. */
  lemma {:induction false} LeftRunShape(ds: string, row: seq<int>)
    requires AllDigits(ds) && |row| == |ds|
    ensures WellFormed(LeftRun(ds, row)) && TotalModules(LeftRun(ds, row)) == 7 * |ds|
    ensures ds != [] ==> !LeftRun(ds, row)[0].startsWithBar && EndsWithBar(LeftRun(ds, row)[|ds| - 1])
  {
    var n := |ds|;
    if n == 0 {
      assert Alternates([]) && WidthStrings([]);
    } else {
      var e := LeftChar(ds[n - 1], row[n - 1]);
      CharShapes(ds[n - 1], row[n - 1]);
      Single(e);
      if n > 1 {
        LeftRunShape(ds[..n - 1], row[..n - 1]);
        Join(LeftRun(ds[..n - 1], row[..n - 1]), [e]);
      } else {
        assert LeftRun(ds, row) == [e];
      }
    }
  }

  /** n right-hand characters cover 7n modules, starting with a bar and ending with a space. */
  lemma {:induction false} RightRunShape(ds: string)
    requires AllDigits(ds)
    ensures WellFormed(RightRun(ds)) && TotalModules(RightRun(ds)) == 7 * |ds|
    ensures ds != [] ==> RightRun(ds)[0].startsWithBar && !EndsWithBar(RightRun(ds)[|ds| - 1])
  {
    var n := |ds|;
    if n == 0 {
      assert Alternates([]) && WidthStrings([]);
    } else {
      var e := RightChar(ds[n - 1]);
      CharShapes(ds[n - 1], 0);
      Single(e);
      if n > 1 {
        RightRunShape(ds[..n - 1]);
        Join(RightRun(ds[..n - 1]), [e]);
      } else {
        assert RightRun(ds) == [e];
      }
    }
  }

  // ---------------------------------------------------------------------
  // Decoding, as a scanner reads the stream back.

  /** A left-hand emission gives its digit and its parity flag. */
  function DecodeLeft(e: Emission): (r: Option<(nat, int)>)
    ensures r.Some? ==> r.value.0 < 10 && (r.value.1 == 0 || r.value.1 == 1)
  {
    if e.startsWithBar then None
    else match IndexOf(Code, e.widths)
      case Some(d) => Some((d, 0))
      case None =>
        match IndexOf(Code, Reverse(e.widths))
        case Some(d) => Some((d, 1))
        case None => None
  }

  function DecodeRight(e: Emission): (r: Option<nat>)
    ensures r.Some? ==> r.value < 10
  {
    if e.startsWithBar then IndexOf(Code, e.widths) else None
  }

  lemma DecodeChar(c: char, flag: int)
    requires IsDigit(c) && (flag == 0 || flag == 1)
    ensures DecodeLeft(LeftChar(c, flag)) == Some((DigitValue(c), flag))
    ensures DecodeRight(RightChar(c)) == Some(DigitValue(c))
  {
    CodeTable();
    IndexOfDistinct(Code, DigitValue(c));
    ReverseReverse(FindCode(c));
  }

  /** Digits and parity flags of a run of left-hand emissions. */
  function DecodeLeftRun(s: seq<Emission>): (r: Option<(string, seq<int>)>)
    ensures r.Some? ==> AllDigits(r.value.0) && |r.value.0| == |s| && |r.value.1| == |s|
    decreases |s|
  {
    if s == [] then Some(([], []))
    else match (DecodeLeftRun(s[..|s| - 1]), DecodeLeft(s[|s| - 1]))
      case (Some(a), Some(p)) => Some((a.0 + [DigitChar(p.0)], a.1 + [p.1]))
      case _ => None
  }

  function DecodeRightRun(s: seq<Emission>): Option<string>
    decreases |s|
  {
    if s == [] then Some([])
    else match (DecodeRightRun(s[..|s| - 1]), DecodeRight(s[|s| - 1]))
      case (Some(a), Some(d)) => Some(a + [DigitChar(d)])
      case _ => None
  }

  /** A non-empty sequence is its front followed by its last element. */
  lemma SnocLast<T>(s: seq<T>)
    requires |s| > 0
    ensures s[..|s| - 1] + [s[|s| - 1]] == s
  {
  }

  lemma DecodeLeftRunSnoc(init: seq<Emission>, e: Emission, a: (string, seq<int>), p: (nat, int))
    requires DecodeLeftRun(init) == Some(a) && DecodeLeft(e) == Some(p)
    ensures DecodeLeftRun(init + [e]) == Some((a.0 + [DigitChar(p.0)], a.1 + [p.1]))
  {
    var s := init + [e];
    assert s[..|s| - 1] == init && s[|s| - 1] == e;
  }

  lemma DecodeRightRunSnoc(init: seq<Emission>, e: Emission, a: string, d: nat)
    requires DecodeRightRun(init) == Some(a) && DecodeRight(e) == Some(d)
    ensures DecodeRightRun(init + [e]) == Some(a + [DigitChar(d)])
  {
    var s := init + [e];
    assert s[..|s| - 1] == init && s[|s| - 1] == e;
  }

  lemma {:induction false} DecodeLeftRunOf(ds: string, row: seq<int>)
    requires AllDigits(ds) && |row| == |ds| && Flags(row)
    ensures DecodeLeftRun(LeftRun(ds, row)) == Some((ds, row))
  {
    var n := |ds|;
    if n > 0 {
      assert Flags(row[..n - 1]) by {
        assert forall i :: 0 <= i < n - 1 ==> row[..n - 1][i] == row[i];
      }
      DecodeLeftRunOf(ds[..n - 1], row[..n - 1]);
      DecodeLeftRunStep(ds, row);
    }
  }

  /** The inductive step of DecodeLeftRunOf: one more character read back. */
  lemma DecodeLeftRunStep(ds: string, row: seq<int>)
    requires AllDigits(ds) && |row| == |ds| && Flags(row) && |ds| > 0
    requires DecodeLeftRun(LeftRun(ds[..|ds| - 1], row[..|ds| - 1])) == Some((ds[..|ds| - 1], row[..|ds| - 1]))
    ensures DecodeLeftRun(LeftRun(ds, row)) == Some((ds, row))
  {
    var n := |ds|;
    var init, rinit := ds[..n - 1], row[..n - 1];
    var c, f := ds[n - 1], row[n - 1];
    var e := LeftChar(c, f);
    var p := (DigitValue(c), f);
    assert LeftRun(ds, row) == LeftRun(init, rinit) + [e];
    DecodeChar(c, f);
    DecodeLeftRunSnoc(LeftRun(init, rinit), e, (init, rinit), p);
    DigitCharOfValue(c);
    SnocLast(ds);
    SnocLast(row);
  }

  lemma {:induction false} DecodeRightRunOf(ds: string)
    requires AllDigits(ds)
    ensures DecodeRightRun(RightRun(ds)) == Some(ds)
  {
    var n := |ds|;
    if n > 0 {
      var init := ds[..n - 1];
      var e := RightChar(ds[n - 1]);
      var d := DigitValue(ds[n - 1]);
      assert DecodeRight(e) == Some(d) by {
        DecodeChar(ds[n - 1], 0);
      }
      assert DecodeRightRun(RightRun(init)) == Some(init) by {
        DecodeRightRunOf(init);
      }
      DecodeRightRunSnoc(RightRun(init), e, init, d);
      assert init + [DigitChar(d)] == ds by {
        DigitCharOfValue(ds[n - 1]);
        SnocLast(ds);
      }
    }
  }

  // ---------------------------------------------------------------------
  // The supplements' data part: characters separated by the inter-character '00'.

  const Separator: Emission := Emission("00", false)

  /** Emissions with a separator between consecutive ones and none after the last. */
  function Interleave(s: seq<Emission>): (r: seq<Emission>)
    requires |s| >= 1
    ensures |r| == 2 * |s| - 1
    decreases |s|
  {
    if |s| == 1 then s
    else Interleave(s[..|s| - 1]) + [Separator, s[|s| - 1]]
  }

  /** The emissions back from an interleaved stream, each separator checked. */
  function Deinterleave(s: seq<Emission>): Option<seq<Emission>>
    decreases |s|
  {
    if |s| == 1 then Some(s)
    else if |s| >= 3 && s[|s| - 2] == Separator then
      match Deinterleave(s[..|s| - 2])
      case Some(init) => Some(init + [s[|s| - 1]])
      case None => None
    else None
  }

  lemma {:induction false} DeinterleaveInterleave(s: seq<Emission>)
    requires |s| >= 1
    ensures Deinterleave(Interleave(s)) == Some(s)
  {
    if |s| > 1 {
      var init := s[..|s| - 1];
      DeinterleaveInterleave(init);
      var t := Interleave(s);
      assert t[..|t| - 2] == Interleave(init);
      assert init + [s[|s| - 1]] == s;
    }
  }

  /** Interleaving one more emission appends a separator and that emission. */
  lemma InterleaveSnoc(s: seq<Emission>, e: Emission)
    requires |s| >= 1
    ensures Interleave(s + [e]) == Interleave(s) + [Separator, e]
  {
    assert (s + [e])[..|s|] == s;
  }

  /**
   * Interleaving emissions that each start with a space and end with a bar
   * keeps the colours alternating and adds 2 modules per separator.
   */
  lemma {:induction false} InterleaveShape(s: seq<Emission>)
    requires |s| >= 1 && WidthStrings(s)
    requires forall i :: 0 <= i < |s| ==> !s[i].startsWithBar && EndsWithBar(s[i])
    ensures WellFormed(Interleave(s))
    ensures TotalModules(Interleave(s)) == TotalModules(s) + 2 * (|s| - 1)
    ensures !Interleave(s)[0].startsWithBar && EndsWithBar(Interleave(s)[2 * |s| - 2])
  {
    var n := |s|;
    if n == 1 {
      Single(s[0]);
      assert [s[0]] == s;
    } else {
      var init := s[..n - 1];
      var last := [s[n - 1]];
      assert init + last == s;
      InterleaveShape(init);
      TotalModulesAppend(init, last);
      assert Modules("00") == 2;
      Single(Separator);
      Single(s[n - 1]);
      Join([Separator], last);
      assert [Separator] + last == [Separator, s[n - 1]];
      Join(Interleave(init), [Separator, s[n - 1]]);
    }
  }

  /** Left-hand characters with a separator between consecutive ones and none after the last. */
  function Supplement(ds: string, row: seq<int>): (r: seq<Emission>)
    requires AllDigits(ds) && |row| == |ds| && |ds| >= 1
    ensures |r| == 2 * |ds| - 1
  {
    Interleave(LeftRun(ds, row))
  }

  /** Each further character adds a separator and the character. */
  lemma SupplementPrefix(ds: string, row: seq<int>, i: nat)
    requires AllDigits(ds) && |row| == |ds| && 1 <= i < |ds|
    ensures Supplement(ds[..i + 1], row[..i + 1]) == Supplement(ds[..i], row[..i]) + [Separator, LeftChar(ds[i], row[i])]
  {
    LeftRunPrefix(ds, row, i);
    InterleaveSnoc(LeftRun(ds[..i], row[..i]), LeftChar(ds[i], row[i]));
  }

  /** A supplement of one character is that character alone. */
  lemma SupplementFirst(ds: string, row: seq<int>)
    requires AllDigits(ds) && |row| == |ds| && |ds| >= 1
    ensures Supplement(ds[..1], row[..1]) == [LeftChar(ds[0], row[0])]
  {
    LeftRunPrefix(ds, row, 0);
    assert ds[..0] == [] && row[..0] == [];
  }

  /** The supplements' start: bar, space, two-module bar, drawn before the first character. */
  const SupplementStart: Emission := Emission("001", true)

  /** What the supplements' drawing loop has emitted after its first i turns: each character, then the separator unless it was the last. */
  function SupplementDrawn(ds: string, row: seq<int>, i: nat): seq<Emission>
    requires AllDigits(ds) && |row| == |ds| && i <= |ds|
  {
    if i == 0 then []
    else SupplementDrawn(ds, row, i - 1) + [LeftChar(ds[i - 1], row[i - 1])] + (if i < |ds| then [Separator] else [])
  }

  /** After i turns the loop has drawn the supplement of the first i characters, and a separator when more follow. */
  lemma {:induction false} SupplementDrawnPrefix(ds: string, row: seq<int>, i: nat)
    requires AllDigits(ds) && |row| == |ds| && 1 <= i <= |ds|
    ensures SupplementDrawn(ds, row, i) == Supplement(ds[..i], row[..i]) + (if i < |ds| then [Separator] else [])
  {
    if i == 1 {
      SupplementFirst(ds, row);
    } else {
      SupplementDrawnPrefix(ds, row, i - 1);
      SupplementPrefix(ds, row, i - 1);
    }
  }

  /** After the last turn, the loop has emitted the whole supplement. */
  lemma SupplementDrawnAll(ds: string, row: seq<int>)
    requires AllDigits(ds) && |row| == |ds| && |ds| >= 1
    ensures SupplementDrawn(ds, row, |ds|) == Supplement(ds, row)
  {
    SupplementDrawnPrefix(ds, row, |ds|);
    assert ds[..|ds|] == ds && row[..|ds|] == row;
  }

  /**
   * The supplements' drawing loop: each character starting with a space,
   * reversed when its parity flag is 1, followed by the inter-character
   * separator unless it is the last.
   */
  method EmitSupplement(image: Surface, ds: string, row: seq<int>)
    requires AllDigits(ds) && |row| == |ds| && |ds| >= 1
    modifies image
    ensures image.emitted == old(image.emitted) + Supplement(ds, row)
  {
    var i := 0;
    while i < |ds|
      invariant 0 <= i <= |ds|
      invariant image.emitted == old(image.emitted) + SupplementDrawn(ds, row, i)
    {
      image.DrawChar(Inverse(FindCode(ds[i]), row[i]), false);
      if i < |ds| - 1 {
        image.DrawChar("00", false);
      }
      i := i + 1;
    }
    SupplementDrawnAll(ds, row);
  }

  /** n >= 1 characters and n-1 separators: 7n + 2(n-1) modules, colours alternating. */
  lemma SupplementShape(ds: string, row: seq<int>)
    requires AllDigits(ds) && |row| == |ds| && |ds| >= 1
    ensures WellFormed(Supplement(ds, row))
    ensures TotalModules(Supplement(ds, row)) == 7 * |ds| + 2 * (|ds| - 1)
    ensures !Supplement(ds, row)[0].startsWithBar && EndsWithBar(Supplement(ds, row)[2 * |ds| - 2])
  {
    var s := LeftRun(ds, row);
    LeftRunShape(ds, row);
    forall i | 0 <= i < |s|
      ensures !s[i].startsWithBar && EndsWithBar(s[i])
    {
      LeftRunAt(ds, row, i);
      CharShapes(ds[i], row[i]);
    }
    InterleaveShape(s);
  }

  /** Digits and parity flags of a supplement's data part. */
  function DecodeSupplement(s: seq<Emission>): Option<(string, seq<int>)> {
    match Deinterleave(s)
    case Some(chars) => DecodeLeftRun(chars)
    case None => None
  }

  lemma DecodeSupplementOf(ds: string, row: seq<int>)
    requires AllDigits(ds) && |row| == |ds| && |ds| >= 1 && Flags(row)
    ensures DecodeSupplement(Supplement(ds, row)) == Some((ds, row))
  {
    DeinterleaveInterleave(LeftRun(ds, row));
    DecodeLeftRunOf(ds, row);
  }
}
