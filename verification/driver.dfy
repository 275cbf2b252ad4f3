/**
 * `main` (src/main.rs:97-144) as a pure function. The text of standard
 * input and the contents of each named file are parameters; everything
 * else the program does follows from them and the argument list.
 */
module Driver {
  import opened Args
  import opened Wc
  import opened Report
  import Counting

  /** Everything one run determines: final options, one record per input, the total and what is printed. */
  datatype Outcome = Outcome(options: Options, records: seq<Record>, total: Record, output: string)

  /** The text an input yields: `stdin` for `-`, `files(p)` for a path. */
  function Content(src: Source, stdin: string, files: string -> string): string {
    match src
    case Stdin => stdin
    case File(p) => files(p)
  }

  /** One `WC::read` per input, in input order, each named with the input's label. */
  function ReadAll(srcs: seq<Source>, stdin: string, files: string -> string): (rs: seq<Record>)
    ensures |rs| == |srcs|
    ensures forall j :: 0 <= j < |srcs| ==> rs[j] == Read(Label(srcs[j]), Content(srcs[j], stdin, files))
  {
    if |srcs| == 0 then []
    else
      var rest := ReadAll(srcs[1..], stdin, files);
      assert forall j :: 1 <= j < |srcs| ==> srcs[j] == srcs[1..][j - 1];
      [Read(Label(srcs[0]), Content(srcs[0], stdin, files))] + rest
  }

  /**
   * The `wc.print(options)` of the total loop: every record's line, in
   * order, all under the same options. The output is exactly the rows of
   * the records, each showing the values of the columns `op` selects.
   */
  function PrintAll(rs: seq<Record>, op: Options): (s: string)
    ensures s == Counting.Concat(Rows(rs, op))
    decreases |rs|
  {
    if |rs| == 0 then []
    else
      FormatShowsColumns(rs[0], op);
      Format(rs[0], op) + PrintAll(rs[1..], op)
  }

  /** The row record `r` prints under `op`: the values of the selected columns, then its name. */
  function RowOf(r: Record, op: Options): string {
    Row(Values(r, Columns(op)), r.name)
  }

  /** The row each record prints under `op`, in record order. */
  function Rows(rs: seq<Record>, op: Options): (ls: seq<string>)
    ensures |ls| == |rs|
    ensures forall j :: 0 <= j < |rs| ==> ls[j] == RowOf(rs[j], op)
    decreases |rs|
  {
    if |rs| == 0 then [] else [RowOf(rs[0], op)] + Rows(rs[1..], op)
  }

  /**
   * One run of the program on `args`: at least one record, one per
   * non-flag argument, and a total named "Total" that sums them. What is
   * printed is one row per record under the final options, and nothing
   * else: the total is never printed.
   */
  function Run(args: seq<string>, stdin: string, files: string -> string): (o: Outcome)
    ensures |o.records| == if |OperandArgs(args)| == 0 then 1 else |OperandArgs(args)|
    ensures o.total.name == "Total"
    ensures forall c :: Get(o.total, c) == Sum(o.records, c)
    ensures o.options == Parse(args).options
    ensures o.output == Counting.Concat(Rows(o.records, o.options))
  {
    var options := Parse(args).options;
    var records := ReadAll(Inputs(args), stdin, files);
    Outcome(options, records, Total(records), PrintAll(records, options))
  }

  /**
   * `-l` as the only flag, wherever it stands and however often: every
   * record, not only those after the flag, prints its line count alone.
   */
  lemma {:induction false} RunLinesOnly(args: seq<string>, stdin: string, files: string -> string)
    requires Mentions(args, LinesFlag)
    requires !Mentions(args, BytesFlag) && !Mentions(args, CharsFlag) && !Mentions(args, WordsFlag)
    ensures var rs := Run(args, stdin, files).records;
      forall j :: 0 <= j < |rs| ==> Rows(rs, Parse(args).options)[j] == Pad(rs[j].lines) + " " + rs[j].name + "\n"
  {
    var op := Parse(args).options;
    var rs := Run(args, stdin, files).records;
    ParseOptions(args);
    assert Has(op, LinesFlag) && !Has(op, BytesFlag) && !Has(op, CharsFlag) && !Has(op, WordsFlag);
    forall j | 0 <= j < |rs|
      ensures Rows(rs, op)[j] == Pad(rs[j].lines) + " " + rs[j].name + "\n"
    {
      LinesOnlyRow(rs[j], op);
    }
  }

  lemma {:induction false} LinesOnlyRow(r: Record, op: Options)
    requires op.lines && !op.bytes && !op.chars && !op.words
    ensures RowOf(r, op) == Pad(r.lines) + " " + r.name + "\n"
  {
    assert Columns(op) == [Lines];
    assert Values(r, [Lines]) == [r.lines];
    FieldsCons(r.lines, []);
  }

  /**
   * There is one record per argument that is not a flag, in argument order
   * and named with that argument, or a single standard-input record named
   * "-" when there is no such argument.
   */
  lemma {:induction false} RunRecords(args: seq<string>, stdin: string, files: string -> string)
    ensures var rs := Run(args, stdin, files).records;
      && |rs| == (if |OperandArgs(args)| == 0 then 1 else |OperandArgs(args)|)
      && (|OperandArgs(args)| == 0 ==> rs == [Read("-", stdin)])
      && (forall j :: 0 <= j < |OperandArgs(args)| ==>
            rs[j] == Read(OperandArgs(args)[j], Content(SourceOf(OperandArgs(args)[j]), stdin, files)))
  {
  }

  /**
   * Flags apply to every record whatever their position, because all
   * printing happens after the argument loop: moving a flag to the front
   * changes nothing about the run.
   */
  lemma {:induction false} RunFlagPosition(a: seq<string>, f: string, b: seq<string>, stdin: string, files: string -> string)
    requires IsFlag(f)
    ensures Run(a + [f] + b, stdin, files) == Run([f] + a + b, stdin, files)
  {
    FlagPositionIrrelevant(a, f, b);
  }

  /** Repeating a flag changes nothing about the run. */
  lemma {:induction false} RunFlagRepeat(a: seq<string>, f: string, b: seq<string>, stdin: string, files: string -> string)
    requires IsFlag(f)
    ensures Run(a + [f, f] + b, stdin, files) == Run(a + [f] + b, stdin, files)
  {
    FlagRepeatIdempotent(a, f, b);
  }

  /** With no arguments and "hello world\n" on standard input, one default line is printed. */
  lemma {:induction false} HelloWorldExample(files: string -> string)
    ensures Run([], "hello world\n", files).output == "     1      2     12 -\n"
  {
    var s := "hello world\n";
    var r := Record(12, 12, 2, 1, "-");
    assert Parse([]).options == Init();
    OperandArgsEmpty([]);
    assert Inputs([]) == [Stdin];
    HelloWorldCounts();
    assert ReadAll([Stdin], s, files) == [r];
    HelloWorldLine();
    assert PrintAll([r], Init()) == Format(r, Init()) + PrintAll([], Init());
  }

  lemma {:induction false} HelloWorldCounts()
    ensures Read("-", "hello world\n") == Record(12, 12, 2, 1, "-")
  {
    HelloWorldBytes();
    HelloWorldWords();
    HelloWorldLines();
  }

  lemma {:induction false} HelloWorldBytes()
    ensures Counting.ByteCount("hello world\n") == 12
  {
    var s := "hello world\n";
    assert Counting.IsAscii(s);
    Counting.ByteCountIsCharCountIffAscii(s);
  }

  lemma {:induction false} HelloWorldWords()
    ensures Counting.WordCount("hello world\n") == 2
  {
    var tail := " " + ("world" + "\n");
    assert "hello world\n" == "hello" + tail;
    WorldWords();
    Counting.WordsIgnoreLeadingWhitespace(" ", "world" + "\n");
    assert Counting.NoWhitespace("hello");
    Counting.WordsOfRun("hello", tail);
  }

  lemma {:induction false} WorldWords()
    ensures Counting.Words("world" + "\n") == ["world"]
  {
    Counting.WordsIgnoreLeadingWhitespace("\n", []);
    assert "\n" + [] == "\n";
    assert Counting.NoWhitespace("world");
    Counting.WordsOfRun("world", "\n");
  }

  lemma {:induction false} HelloWorldLines()
    ensures Counting.LineCount("hello world\n") == 1
  {
    var t := "hello world";
    assert "hello world\n" == t + "\n";
    assert Counting.NoNewline(t);
    Counting.TerminatedLine(t);
  }

  lemma {:induction false} HelloWorldLine()
    ensures Format(Record(12, 12, 2, 1, "-"), Init()) == "     1      2     12 -\n"
  {
    PadOneDigit(1);
    PadOneDigit(2);
    PadTwelve();
  }

  lemma {:induction false} PadOneDigit(n: nat)
    requires n < 10
    ensures Pad(n) == "     " + [DigitChar(n)]
  {
    assert Spaces(5) == "     ";
  }

  lemma {:induction false} PadTwelve()
    ensures Pad(12) == "    12"
  {
    assert Digits(1) == "1";
    assert Digits(12) == "12";
    assert Spaces(4) == "    ";
  }
}
