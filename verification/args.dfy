/**
 * Command-line handling of `main` (src/main.rs:69-132): the `Options`
 * record, the classification of each argument as a flag or an input, and
 * the left fold of that classification over the argument list.
 */
module Args {

  /** Which counts were asked for, and whether no input has been named yet. */
  datatype Options = Options(bytes: bool, chars: bool, words: bool, lines: bool, nofiles: bool)

  /** `Options::init`: no count selected, no input named yet. */
  function Init(): (o: Options)
    ensures !o.bytes && !o.chars && !o.words && !o.lines
    ensures o.nofiles
  {
    Options(false, false, false, false, true)
  }

  /** One of the four count flags. */
  datatype Flag = BytesFlag | CharsFlag | WordsFlag | LinesFlag

  /** The two spellings of each flag. */
  function Spellings(f: Flag): set<string> {
    match f
    case BytesFlag => {"-c", "--bytes"}
    case CharsFlag => {"-m", "--chars"}
    case WordsFlag => {"-w", "--words"}
    case LinesFlag => {"-l", "--lines"}
  }

  predicate Has(o: Options, f: Flag) {
    match f
    case BytesFlag => o.bytes
    case CharsFlag => o.chars
    case WordsFlag => o.words
    case LinesFlag => o.lines
  }

  /** Turns one flag on and leaves every other field as it was. */
  function Set(o: Options, f: Flag): (r: Options)
    ensures Has(r, f)
    ensures forall g :: g != f ==> Has(r, g) == Has(o, g)
    ensures r.nofiles == o.nofiles
  {
    match f
    case BytesFlag => o.(bytes := true)
    case CharsFlag => o.(chars := true)
    case WordsFlag => o.(words := true)
    case LinesFlag => o.(lines := true)
  }

  /** Where an input's text comes from. */
  datatype Source = Stdin | File(path: string)

  /** The name a record of this input is printed with. */
  function Label(src: Source): string {
    match src
    case Stdin => "-"
    case File(p) => p
  }

  /** The input an argument that is not a flag names: `-` is standard input. */
  function SourceOf(arg: string): (src: Source)
    ensures Label(src) == arg
    ensures src == Stdin <==> arg == "-"
  {
    if arg == "-" then Stdin else File(arg)
  }

  /** What one argument means. */
  datatype Arg = SetFlag(flag: Flag) | Operand(source: Source)

  /**
   * The `match arg.as_str()` of src/main.rs:104-124: a flag exactly for
   * one of the eight spellings, otherwise the input the argument names.
   */
  function Classify(arg: string): (a: Arg)
    ensures a.SetFlag? ==> arg in Spellings(a.flag)
    ensures a.Operand? ==> a.source == SourceOf(arg) && forall f :: arg !in Spellings(f)
  {
    match arg
    case "-c" => SetFlag(BytesFlag)
    case "--bytes" => SetFlag(BytesFlag)
    case "-w" => SetFlag(WordsFlag)
    case "--words" => SetFlag(WordsFlag)
    case "-l" => SetFlag(LinesFlag)
    case "--lines" => SetFlag(LinesFlag)
    case "-m" => SetFlag(CharsFlag)
    case "--chars" => SetFlag(CharsFlag)
    case _ => Operand(SourceOf(arg))
  }

  predicate IsFlag(arg: string) {
    Classify(arg).SetFlag?
  }

  /**
   * An argument is a flag exactly when it is one of the eight spellings;
   * anything else, `-x` and `-cw` included, names an input labelled with
   * the argument itself.
   */
  lemma {:induction false} ClassifyTable(arg: string)
    ensures forall f :: Classify(arg) == SetFlag(f) <==> arg in Spellings(f)
    ensures Classify(arg).Operand? ==> Label(Classify(arg).source) == arg
    ensures Classify(arg).Operand? ==> (Classify(arg).source == Stdin <==> arg == "-")
  {
  }

  /** Unknown flag-like arguments are inputs, not errors. */
  lemma {:induction false} UnknownFlagsAreFiles()
    ensures Classify("-x") == Operand(File("-x"))
    ensures Classify("-cw") == Operand(File("-cw"))
    ensures Classify("-") == Operand(Stdin)
  {
  }

  /** State of the argument loop: the options so far and the inputs named so far. */
  datatype Parsed = Parsed(options: Options, sources: seq<Source>)

  /**
   * One iteration of the loop at src/main.rs:103-126: a flag turns on its
   * field; any other argument clears `nofiles` and appends its input.
   */
  function Step(p: Parsed, arg: string): (q: Parsed)
    ensures forall f :: Has(q.options, f) <==> Has(p.options, f) || arg in Spellings(f)
    ensures q.options.nofiles <==> p.options.nofiles && IsFlag(arg)
    ensures q.sources == p.sources + (if IsFlag(arg) then [] else [SourceOf(arg)])
  {
    match Classify(arg)
    case SetFlag(f) => p.(options := Set(p.options, f))
    case Operand(src) => Parsed(p.options.(nofiles := false), p.sources + [src])
  }

  /** The loop itself, a left fold of `Step`. */
  function Fold(p: Parsed, args: seq<string>): Parsed
    decreases |args|
  {
    if |args| == 0 then p else Fold(Step(p, args[0]), args[1..])
  }

  /**
   * The whole argument list, starting from `Options::init` and no inputs.
   * The inputs collected are exactly the non-flag arguments, in argument
   * order, each as `SourceOf` reads it.
   */
  function Parse(args: seq<string>): (p: Parsed)
    ensures |p.sources| == |OperandArgs(args)|
    ensures forall j :: 0 <= j < |OperandArgs(args)| ==> p.sources[j] == SourceOf(OperandArgs(args)[j])
  {
    FoldSourcesFromStart(args);
    Fold(Parsed(Init(), []), args)
  }

  /** The arguments that name inputs, in order. */
  function OperandArgs(args: seq<string>): seq<string> {
    if |args| == 0 then []
    else (if IsFlag(args[0]) then [] else [args[0]]) + OperandArgs(args[1..])
  }

  predicate AnyOperand(args: seq<string>) {
    exists i :: 0 <= i < |args| && !IsFlag(args[i])
  }

  predicate Mentions(args: seq<string>, f: Flag) {
    exists i :: 0 <= i < |args| && args[i] in Spellings(f)
  }

  lemma {:induction false} FoldAppend(p: Parsed, xs: seq<string>, ys: seq<string>)
    ensures Fold(p, xs + ys) == Fold(Fold(p, xs), ys)
    decreases |xs|
  {
    if |xs| == 0 {
      assert xs + ys == ys;
    } else {
      assert (xs + ys)[1..] == xs[1..] + ys;
      FoldAppend(Step(p, xs[0]), xs[1..], ys);
    }
  }

  /** Parsing one more argument is one more step of the loop. */
  lemma {:induction false} ParseSnoc(args: seq<string>, a: string)
    ensures Parse(args + [a]) == Step(Parse(args), a)
  {
    FoldAppend(Parsed(Init(), []), args, [a]);
    assert [a][1..] == [];
  }

  /**
   * Each flag ends set exactly when one of its spellings occurs among the
   * arguments; `nofiles` ends true exactly when no argument names an input.
   */
  lemma {:induction false} ParseOptions(args: seq<string>)
    ensures forall f :: Has(Parse(args).options, f) <==> Mentions(args, f)
    ensures Parse(args).options.nofiles <==> !AnyOperand(args)
    decreases |args|
  {
    if |args| > 0 {
      var front := args[..|args| - 1];
      var a := args[|args| - 1];
      assert args == front + [a];
      ParseOptions(front);
      ParseSnoc(front, a);
      ClassifyTable(a);
      forall f ensures Mentions(args, f) <==> Mentions(front, f) || a in Spellings(f) {
        if Mentions(args, f) {
          var i :| 0 <= i < |args| && args[i] in Spellings(f);
          if i < |front| { assert front[i] == args[i]; }
        }
        if Mentions(front, f) {
          var i :| 0 <= i < |front| && front[i] in Spellings(f);
          assert args[i] == front[i];
        }
      }
      assert AnyOperand(args) <==> AnyOperand(front) || !IsFlag(a) by {
        if AnyOperand(args) {
          var i :| 0 <= i < |args| && !IsFlag(args[i]);
          if i < |front| { assert front[i] == args[i]; }
        }
        if AnyOperand(front) {
          var i :| 0 <= i < |front| && !IsFlag(front[i]);
          assert args[i] == front[i];
        }
      }
    }
  }

  lemma {:induction false} FoldSourcesFromStart(args: seq<string>)
    ensures |Fold(Parsed(Init(), []), args).sources| == |OperandArgs(args)|
    ensures forall j :: 0 <= j < |OperandArgs(args)| ==>
      Fold(Parsed(Init(), []), args).sources[j] == SourceOf(OperandArgs(args)[j])
  {
    var init := Parsed(Init(), []);
    FoldSources(init, args);
    var srcs := Fold(init, args).sources;
    assert |init.sources| == 0;
    forall j | 0 <= j < |OperandArgs(args)| ensures srcs[j] == SourceOf(OperandArgs(args)[j]) {
      assert srcs[|init.sources| + j] == SourceOf(OperandArgs(args)[j]);
    }
  }

  lemma {:induction false} FoldSources(p: Parsed, args: seq<string>)
    ensures |Fold(p, args).sources| == |p.sources| + |OperandArgs(args)|
    ensures Fold(p, args).sources[..|p.sources|] == p.sources
    ensures forall j :: 0 <= j < |OperandArgs(args)| ==>
      Fold(p, args).sources[|p.sources| + j] == SourceOf(OperandArgs(args)[j])
    decreases |args|
  {
    if |args| > 0 {
      var q := Step(p, args[0]);
      FoldSources(q, args[1..]);
      var r := Fold(q, args[1..]);
      if IsFlag(args[0]) {
        assert q.sources == p.sources;
        assert OperandArgs(args) == OperandArgs(args[1..]);
      } else {
        FoldSourcesOperand(p, args);
      }
    }
  }

  /** The step of `FoldSources` past a leading non-flag argument. */
  lemma {:induction false} FoldSourcesOperand(p: Parsed, args: seq<string>)
    requires |args| > 0 && !IsFlag(args[0])
    requires var q := Step(p, args[0]);
      && |Fold(q, args[1..]).sources| == |q.sources| + |OperandArgs(args[1..])|
      && Fold(q, args[1..]).sources[..|q.sources|] == q.sources
      && forall j :: 0 <= j < |OperandArgs(args[1..])| ==>
           Fold(q, args[1..]).sources[|q.sources| + j] == SourceOf(OperandArgs(args[1..])[j])
    ensures |Fold(p, args).sources| == |p.sources| + |OperandArgs(args)|
    ensures Fold(p, args).sources[..|p.sources|] == p.sources
    ensures forall j :: 0 <= j < |OperandArgs(args)| ==>
      Fold(p, args).sources[|p.sources| + j] == SourceOf(OperandArgs(args)[j])
  {
    var q := Step(p, args[0]);
    var r := Fold(q, args[1..]);
    assert Fold(p, args) == r;
    assert q.sources == p.sources + [SourceOf(args[0])];
    assert OperandArgs(args) == [args[0]] + OperandArgs(args[1..]);
    assert r.sources[..|p.sources|] == r.sources[..|q.sources|][..|p.sources|];
    forall j | 0 <= j < |OperandArgs(args)|
      ensures r.sources[|p.sources| + j] == SourceOf(OperandArgs(args)[j])
    {
      if j == 0 {
        assert r.sources[|p.sources|] == r.sources[..|q.sources|][|p.sources|];
      } else {
        assert OperandArgs(args)[j] == OperandArgs(args[1..])[j - 1];
      }
    }
  }

  /** A flag step commutes with every other step: flags only set a field. */
  lemma {:induction false} StepFlagCommutes(p: Parsed, f: string, a: string)
    requires IsFlag(f)
    ensures Step(Step(p, f), a) == Step(Step(p, a), f)
  {
    var g := Classify(f).flag;
    match Classify(a)
    case SetFlag(h) =>
      SetCommutes(p.options, g, h);
    case Operand(src) =>
      assert Step(Step(p, f), a) == Parsed(Set(p.options, g).(nofiles := false), p.sources + [src]);
  }

  lemma {:induction false} SetCommutes(o: Options, g: Flag, h: Flag)
    ensures Set(Set(o, g), h) == Set(Set(o, h), g)
  {
  }

  lemma {:induction false} FoldFlagCommutes(p: Parsed, f: string, xs: seq<string>)
    requires IsFlag(f)
    ensures Fold(Step(p, f), xs) == Step(Fold(p, xs), f)
    decreases |xs|
  {
    if |xs| > 0 {
      StepFlagCommutes(p, f, xs[0]);
      FoldFlagCommutes(Step(p, xs[0]), f, xs[1..]);
    }
  }

  /**
   * Where a flag stands among the arguments does not matter: parsing it in
   * the middle gives what parsing it first gives.
   */
  lemma {:induction false} FlagPositionIrrelevant(a: seq<string>, f: string, b: seq<string>)
    requires IsFlag(f)
    ensures Parse(a + [f] + b) == Parse([f] + a + b)
  {
    var init := Parsed(Init(), []);
    FoldAppend(init, a + [f], b);
    FoldAppend(init, a, [f]);
    assert [f][1..] == [];
    assert Fold(Fold(init, a), [f]) == Step(Fold(init, a), f);
    FoldFlagCommutes(Fold(init, a), f, b);
    FoldAppend(init, a, b);
    assert ([f] + a + b)[1..] == a + b;
    assert [f] + a + b == [f] + (a + b);
    FoldFlagCommutes(init, f, a + b);
  }

  /** Repeating a flag changes nothing. */
  lemma {:induction false} FlagRepeatIdempotent(a: seq<string>, f: string, b: seq<string>)
    requires IsFlag(f)
    ensures Parse(a + [f, f] + b) == Parse(a + [f] + b)
  {
    var init := Parsed(Init(), []);
    FoldAppend(init, a + [f, f], b);
    FoldAppend(init, a + [f], b);
    FoldAppend(init, a + [f], [f]);
    assert a + [f, f] == a + [f] + [f];
    assert [f][1..] == [];
    ParseSnoc(a, f);
    assert Step(Step(Parse(a), f), f) == Step(Parse(a), f);
  }

  /**
   * src/main.rs:128-132: when no argument named an input, one standard-input
   * record is appended. So there is always at least one input.
   */
  function Inputs(args: seq<string>): (srcs: seq<Source>)
    ensures |srcs| == if |OperandArgs(args)| == 0 then 1 else |OperandArgs(args)|
    ensures |OperandArgs(args)| == 0 ==> srcs == [Stdin]
    ensures |OperandArgs(args)| > 0 ==>
      forall j :: 0 <= j < |srcs| ==> srcs[j] == SourceOf(OperandArgs(args)[j])
  {
    var p := Parse(args);
    ParseOptions(args);
    OperandArgsEmpty(args);
    if p.options.nofiles then p.sources + [Stdin] else p.sources
  }

  lemma {:induction false} OperandArgsEmpty(args: seq<string>)
    ensures |OperandArgs(args)| == 0 <==> !AnyOperand(args)
  {
    if |args| > 0 {
      OperandArgsEmpty(args[1..]);
      if AnyOperand(args[1..]) {
        var i :| 0 <= i < |args[1..]| && !IsFlag(args[1..][i]);
        assert !IsFlag(args[i + 1]);
      }
      if AnyOperand(args) {
        var i :| 0 <= i < |args| && !IsFlag(args[i]);
        if i > 0 { assert !IsFlag(args[1..][i - 1]); }
      }
    }
  }
}
