/**
 * `WC::print` (src/main.rs:41-66) as a function that returns the line it
 * would write, together with a reader for such lines: every printed line can
 * be read back into the counts it shows and the name that follows them.
 */
module Report {
  import opened Wrappers
  import opened Args
  import opened Wc

  // ---------------------------------------------------------------------
  // Decimal numbers, as `{}` writes a `usize`

  predicate IsDigit(c: char) {
    '0' <= c <= '9'
  }

  predicate AllDigits(s: string) {
    forall i :: 0 <= i < |s| ==> IsDigit(s[i])
  }

  function DigitChar(d: nat): (c: char)
    requires d < 10
    ensures IsDigit(c)
  {
    ('0' as int + d) as char
  }

  function DigitValue(c: char): (d: nat)
    requires IsDigit(c)
    ensures d < 10
  {
    c as int - '0' as int
  }

  /** Decimal digits of `n`, most significant first, without leading zeros. */
  function Digits(n: nat): (s: string)
    ensures |s| >= 1 && AllDigits(s)
    ensures s[0] == '0' ==> n == 0 && s == "0"
  {
    if n < 10 then [DigitChar(n)]
    else
      var s := Digits(n / 10) + [DigitChar(n % 10)];
      assert forall i :: 0 <= i < |s| - 1 ==> s[i] == Digits(n / 10)[i];
      s
  }

  /** Value of a string of decimal digits. */
  function DigitsValue(s: string): nat
    requires AllDigits(s)
  {
    if |s| == 0 then 0 else 10 * DigitsValue(s[..|s| - 1]) + DigitValue(s[|s| - 1])
  }

  /** Reading the digits of a number gives the number back. */
  lemma {:induction false} DigitsRoundTrip(n: nat)
    ensures DigitsValue(Digits(n)) == n
  {
    if n >= 10 {
      var s := Digits(n);
      assert s[..|s| - 1] == Digits(n / 10);
      DigitsRoundTrip(n / 10);
    }
  }

  function Spaces(k: nat): (s: string)
    ensures |s| == k && forall i :: 0 <= i < k ==> s[i] == ' '
  {
    if k == 0 then [] else [' '] + Spaces(k - 1)
  }

  /** `{:>6}`: the digits of `n` right-aligned in a field at least six wide. */
  function Pad(n: nat): (s: string)
    ensures |s| == if |Digits(n)| < 6 then 6 else |Digits(n)|
    ensures s == Spaces(|s| - |Digits(n)|) + Digits(n)
  {
    var d := Digits(n);
    if |d| < 6 then Spaces(6 - |d|) + d
    else
      assert Spaces(0) + d == d;
      d
  }

  // ---------------------------------------------------------------------
  // The printed line

  /**
   * The test at src/main.rs:42 that picks the three-column default layout.
   * It reads `bytes` twice and never `words`, so `-w` alone still gets the
   * default layout; the model keeps that.
   */
  function DefaultMode(op: Options): (b: bool)
    ensures b <==> forall f :: f != WordsFlag ==> !Has(op, f)
  {
    assert Has(op, BytesFlag) == op.bytes && Has(op, CharsFlag) == op.chars && Has(op, LinesFlag) == op.lines;
    !op.bytes && !op.chars && !op.bytes && !op.lines
  }

  /** `WC::print`: the line written for record `r` under options `op`; it always ends with the name and a line feed. */
  function Format(r: Record, op: Options): (s: string)
    ensures |s| > |r.name|
    ensures s[|s| - |r.name| - 1..] == r.name + "\n"
  {
    var s := Counts(r, op) + r.name + "\n";
    assert s[|s| - |r.name| - 1..] == r.name + "\n";
    s
  }

  /** The padded counts `WC::print` writes before the name, each followed by a space. */
  function Counts(r: Record, op: Options): string {
    if DefaultMode(op) then
      Pad(r.lines) + " " + Pad(r.words) + " " + Pad(r.bytes) + " "
    else
      (if op.lines then Pad(r.lines) + " " else "")
      + (if op.words then Pad(r.words) + " " else "")
      + (if op.bytes then Pad(r.bytes) + " " else if op.chars then Pad(r.chars) + " " else "")
  }

  /** Column position of each count: lines, then words, then bytes or chars. */
  function Rank(c: Count): nat {
    match c
    case Lines => 0
    case Words => 1
    case Bytes => 2
    case Chars => 2
  }

  /**
   * The counts a line shows, in the order shown. In the default layout they
   * are lines, words and bytes; otherwise each selected count appears once,
   * in the fixed order, and chars only when bytes was not selected.
   */
  function Columns(op: Options): (cs: seq<Count>)
    ensures forall i, j :: 0 <= i < j < |cs| ==> Rank(cs[i]) < Rank(cs[j])
    ensures Lines in cs <==> DefaultMode(op) || op.lines
    ensures Words in cs <==> DefaultMode(op) || op.words
    ensures Bytes in cs <==> DefaultMode(op) || op.bytes
    ensures Chars in cs <==> !DefaultMode(op) && !op.bytes && op.chars
  {
    if DefaultMode(op) then [Lines, Words, Bytes]
    else
      (if op.lines then [Lines] else [])
      + (if op.words then [Words] else [])
      + (if op.bytes then [Bytes] else if op.chars then [Chars] else [])
  }

  function Values(r: Record, cs: seq<Count>): (vs: seq<nat>)
    ensures |vs| == |cs|
    ensures forall i :: 0 <= i < |cs| ==> vs[i] == Get(r, cs[i])
  {
    if |cs| == 0 then [] else [Get(r, cs[0])] + Values(r, cs[1..])
  }

  /** Each value right-aligned to width six and followed by one space. */
  function Fields(vs: seq<nat>): string {
    if |vs| == 0 then [] else Pad(vs[0]) + " " + Fields(vs[1..])
  }

  /** A line made of padded values, then a name, then a line feed. */
  function Row(vs: seq<nat>, name: string): string {
    Fields(vs) + name + "\n"
  }

  lemma {:induction false} FieldsCons(v: nat, vs: seq<nat>)
    ensures Fields([v] + vs) == Pad(v) + " " + Fields(vs)
  {
    assert ([v] + vs)[1..] == vs;
  }

  lemma {:induction false} ValuesAppend(r: Record, a: seq<Count>, b: seq<Count>)
    ensures Values(r, a + b) == Values(r, a) + Values(r, b)
  {
  }

  lemma {:induction false} FieldsAppend(a: seq<nat>, b: seq<nat>)
    ensures Fields(a + b) == Fields(a) + Fields(b)
  {
    if |a| == 0 {
      assert a + b == b;
    } else {
      assert (a + b)[1..] == a[1..] + b;
      FieldsAppend(a[1..], b);
    }
  }

  lemma {:induction false} FieldsOfOption(r: Record, b: bool, c: Count)
    ensures Fields(Values(r, if b then [c] else [])) == if b then Pad(Get(r, c)) + " " else ""
  {
    if b {
      assert Values(r, [c]) == [Get(r, c)];
      FieldsCons(Get(r, c), []);
    }
  }

  /** The printed line shows exactly the values of `Columns(op)`, in that order, and then the name. */
  lemma {:induction false} FormatShowsColumns(r: Record, op: Options)
    ensures Format(r, op) == Row(Values(r, Columns(op)), r.name)
  {
    if DefaultMode(op) {
      DefaultShowsColumns(r, op);
    } else {
      SelectedShowsColumns(r, op);
    }
  }

  lemma {:induction false} DefaultShowsColumns(r: Record, op: Options)
    requires DefaultMode(op)
    ensures Format(r, op) == Row(Values(r, Columns(op)), r.name)
  {
    var vs := Values(r, [Lines, Words, Bytes]);
    assert Columns(op) == [Lines, Words, Bytes];
    assert vs == [r.lines, r.words, r.bytes];
    FieldsOfThree(vs);
    assert Counts(r, op) == Fields(vs);
  }

  /** Three values give three padded fields, each followed by a space. */
  lemma {:induction false} FieldsOfThree(vs: seq<nat>)
    requires |vs| == 3
    ensures Fields(vs) == Pad(vs[0]) + " " + Pad(vs[1]) + " " + Pad(vs[2]) + " "
  {
    assert Fields(vs[2..]) == Pad(vs[2]) + " " + Fields(vs[3..]);
    assert vs[3..] == [];
    assert Fields(vs[1..]) == Pad(vs[1]) + " " + Fields(vs[2..]);
    SpacedAssociative(Pad(vs[0]), Pad(vs[1]), Pad(vs[2]));
  }

  lemma {:induction false} SpacedAssociative(x: string, y: string, z: string)
    ensures x + " " + (y + " " + (z + " " + [])) == x + " " + y + " " + z + " "
  {
  }

  lemma {:induction false} SelectedShowsColumns(r: Record, op: Options)
    requires !DefaultMode(op)
    ensures Format(r, op) == Row(Values(r, Columns(op)), r.name)
  {
    var a: seq<Count> := if op.lines then [Lines] else [];
    var b: seq<Count> := if op.words then [Words] else [];
    var c: seq<Count> := if op.bytes then [Bytes] else if op.chars then [Chars] else [];
    assert Columns(op) == a + b + c;
    ValuesAppend(r, a + b, c);
    ValuesAppend(r, a, b);
    FieldsAppend(Values(r, a) + Values(r, b), Values(r, c));
    FieldsAppend(Values(r, a), Values(r, b));
    FieldsOfOption(r, op.lines, Lines);
    FieldsOfOption(r, op.words, Words);
    var fc := if op.bytes then Pad(r.bytes) + " " else if op.chars then Pad(r.chars) + " " else "";
    if op.bytes {
      FieldsOfOption(r, true, Bytes);
    } else {
      FieldsOfOption(r, op.chars, Chars);
    }
    assert Fields(Values(r, c)) == fc;
    var fa := Fields(Values(r, a));
    var fb := Fields(Values(r, b));
    assert Fields(Values(r, Columns(op))) == fa + fb + fc;
    assert Format(r, op) == fa + fb + fc + r.name + "\n";
  }

  /** Asking only for words still prints the three default columns. */
  lemma {:induction false} WordsAloneGetsDefaultLayout(r: Record)
    ensures Columns(Init().(words := true)) == [Lines, Words, Bytes]
    ensures Format(r, Init().(words := true)) == Format(r, Init())
  {
  }

  // ---------------------------------------------------------------------
  // Reading a printed line back

  /** `s` without its leading spaces. */
  function DropSpaces(s: string): (t: string)
    ensures |t| <= |s|
    ensures |t| > 0 ==> t[0] != ' '
  {
    if |s| > 0 && s[0] == ' ' then DropSpaces(s[1..]) else s
  }

  /** Length of the run of digits at the front of `s`. */
  function DigitRun(s: string): (k: nat)
    ensures k <= |s| && AllDigits(s[..k])
    ensures k < |s| ==> !IsDigit(s[k])
  {
    if |s| > 0 && IsDigit(s[0]) then
      var k := 1 + DigitRun(s[1..]);
      assert forall i :: 1 <= i < k ==> s[i] == s[1..][i - 1];
      k
    else 0
  }

  /** Reads one padded value and the space after it; rejects anything else. */
  function ParseField(s: string): Option<(nat, string)> {
    var t := DropSpaces(s);
    var k := DigitRun(t);
    if k == 0 || k == |t| || t[k] != ' ' then None
    else Some((DigitsValue(t[..k]), t[k + 1..]))
  }

  /** Reads `n` padded values; what is left is the name and the line feed. */
  function ParseRow(s: string, n: nat): Option<(seq<nat>, string)>
    decreases n
  {
    if n == 0 then Some(([], s))
    else
      match ParseField(s)
      case None => None
      case Some((v, rest)) =>
        match ParseRow(rest, n - 1)
        case None => None
        case Some((vs, tail)) => Some(([v] + vs, tail))
  }

  lemma {:induction false} DropSpacesOfSpaces(k: nat, s: string)
    requires |s| > 0 && s[0] != ' '
    ensures DropSpaces(Spaces(k) + s) == s
    decreases k
  {
    if k > 0 {
      assert (Spaces(k) + s)[1..] == Spaces(k - 1) + s;
      DropSpacesOfSpaces(k - 1, s);
    } else {
      assert Spaces(k) + s == s;
    }
  }

  lemma {:induction false} DigitRunOfDigits(d: string, rest: string)
    requires AllDigits(d)
    ensures DigitRun(d + " " + rest) == |d|
    decreases |d|
  {
    if |d| > 0 {
      assert (d + " " + rest)[1..] == d[1..] + " " + rest;
      DigitRunOfDigits(d[1..], rest);
    } else {
      assert d + " " + rest == " " + rest;
    }
  }

  /** One padded value followed by a space reads back as that value. */
  lemma {:induction false} FieldRoundTrip(v: nat, rest: string)
    ensures ParseField(Pad(v) + " " + rest) == Some((v, rest))
  {
    var d := Digits(v);
    var s := d + " " + rest;
    var p := Pad(v);
    assert p == Spaces(|p| - |d|) + d;
    assert Pad(v) + " " + rest == Spaces(|p| - |d|) + s;
    DropSpacesOfSpaces(|p| - |d|, s);
    DigitRunOfDigits(d, rest);
    assert s[..|d|] == d;
    assert s[|d| + 1..] == rest;
    DigitsRoundTrip(v);
  }

  lemma {:induction false} FieldsRoundTrip(vs: seq<nat>, tail: string)
    ensures ParseRow(Fields(vs) + tail, |vs|) == Some((vs, tail))
    decreases |vs|
  {
    if |vs| == 0 {
      assert Fields(vs) + tail == tail;
    } else {
      var rest := Fields(vs[1..]) + tail;
      assert Fields(vs) + tail == Pad(vs[0]) + " " + rest;
      FieldRoundTrip(vs[0], rest);
      FieldsRoundTrip(vs[1..], tail);
      assert [vs[0]] + vs[1..] == vs;
    }
  }

  /**
   * Reading a printed line gives back exactly the counts it was asked to
   * show, in column order, followed by the record's name and a line feed.
   */
  lemma {:induction false} FormatRoundTrip(r: Record, op: Options)
    ensures ParseRow(Format(r, op), |Columns(op)|) == Some((Values(r, Columns(op)), r.name + "\n"))
  {
    FormatShowsColumns(r, op);
    RowRoundTrip(Values(r, Columns(op)), r.name);
  }

  lemma {:induction false} RowRoundTrip(vs: seq<nat>, name: string)
    ensures ParseRow(Row(vs, name), |vs|) == Some((vs, name + "\n"))
  {
    assert Row(vs, name) == Fields(vs) + (name + "\n");
    FieldsRoundTrip(vs, name + "\n");
  }
}
