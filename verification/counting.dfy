/**
 * The four counts `WC::read` takes of one text (src/main.rs:26-39):
 * UTF-8 bytes, scalar values, whitespace-separated words and lines.
 * Each count is defined the way the Rust library call computes it and is
 * then related by lemmas to an independent description of the same number.
 */
module Counting {
  import Utf8

  // ---------------------------------------------------------------------
  // Bytes and chars

  /**
   * `data.as_bytes().len()`: the length of the UTF-8 encoding, which is the
   * sum of the scalars' widths, so between one and four bytes per scalar.
   */
  function ByteCount(s: string): (n: nat)
    ensures n == SumWidths(s)
    ensures CharCount(s) <= n <= 4 * CharCount(s)
  {
    EncodedLength(s);
    SumWidthsBounds(s);
    |Utf8.Encode(s)|
  }

  /** `data.chars().count()`: a `char` here is one Unicode scalar value. */
  function CharCount(s: string): (n: nat)
    ensures var d := Utf8.Decode(Utf8.Encode(s)); d.Some? && n == |d.value|
  {
    Utf8.DecodeEncode(s);
    |s|
  }

  /** Sum of the per-scalar UTF-8 widths (1 to 4). */
  function SumWidths(s: string): nat {
    if |s| == 0 then 0 else Utf8.Width(s[0]) + SumWidths(s[1..])
  }

  predicate IsAscii(s: string) {
    forall i :: 0 <= i < |s| ==> (s[i] as int) < 0x80
  }

  /** The encoding of a text is as long as the sum of its scalars' widths. */
  lemma {:induction false} EncodedLength(s: string)
    ensures |Utf8.Encode(s)| == SumWidths(s)
  {
    if |s| > 0 {
      EncodedLength(s[1..]);
    }
  }

  lemma {:induction false} SumWidthsBounds(s: string)
    ensures |s| <= SumWidths(s) <= 4 * |s|
  {
    if |s| > 0 {
      SumWidthsBounds(s[1..]);
    }
  }

  /** Bytes and chars agree exactly on ASCII text. */
  lemma {:induction false} ByteCountIsCharCountIffAscii(s: string)
    ensures ByteCount(s) == CharCount(s) <==> IsAscii(s)
  {
    SumWidthsAscii(s);
  }

  lemma {:induction false} SumWidthsAscii(s: string)
    ensures SumWidths(s) == |s| <==> IsAscii(s)
  {
    if |s| > 0 {
      SumWidthsAscii(s[1..]);
      SumWidthsBounds(s[1..]);
      if IsAscii(s[1..]) && (s[0] as int) < 0x80 {
        forall i | 0 <= i < |s| ensures (s[i] as int) < 0x80 {
          if i > 0 { assert s[i] == s[1..][i - 1]; }
        }
      }
      if IsAscii(s) {
        assert (s[0] as int) < 0x80;
        forall i | 0 <= i < |s[1..]| ensures (s[1..][i] as int) < 0x80 {
          assert s[1..][i] == s[i + 1];
        }
      }
    }
  }

  /** The byte count of "caf\U{E9}" is 5 while it holds 4 scalars. */
  lemma {:induction false} CafeExample()
    ensures ByteCount("caf\U{E9}") == 5 && CharCount("caf\U{E9}") == 4
  {
    assert "caf\U{E9}"[1..] == "af\U{E9}";
    assert "af\U{E9}"[1..] == "f\U{E9}";
    assert "f\U{E9}"[1..] == "\U{E9}";
  }

  // ---------------------------------------------------------------------
  // Words

  /**
   * Rust's `char::is_whitespace`: the Unicode White_Space property, which
   * `str::split_whitespace` uses as its separator set.
   */
  predicate IsWhitespace(c: char) {
    var cp := c as int;
    (0x09 <= cp <= 0x0D) || cp == 0x20 || cp == 0x85 || cp == 0xA0
    || cp == 0x1680 || (0x2000 <= cp <= 0x200A) || cp == 0x2028 || cp == 0x2029
    || cp == 0x202F || cp == 0x205F || cp == 0x3000
  }

  predicate AllWhitespace(s: string) {
    forall i :: 0 <= i < |s| ==> IsWhitespace(s[i])
  }

  predicate NoWhitespace(s: string) {
    forall i :: 0 <= i < |s| ==> !IsWhitespace(s[i])
  }

  /** Length of the run of non-whitespace scalars at the front of `s`. */
  function RunEnd(s: string): (k: nat)
    ensures k <= |s|
    ensures NoWhitespace(s[..k])
    ensures k < |s| ==> IsWhitespace(s[k])
  {
    if |s| == 0 || IsWhitespace(s[0]) then 0
    else
      var k := 1 + RunEnd(s[1..]);
      assert forall i :: 1 <= i < k ==> s[i] == s[1..][i - 1];
      k
  }

  /** `str::split_whitespace`: the maximal runs of non-whitespace, in order. */
  function Words(s: string): (ws: seq<string>)
    ensures forall j :: 0 <= j < |ws| ==> |ws[j]| > 0 && NoWhitespace(ws[j])
    decreases |s|
  {
    if |s| == 0 then []
    else if IsWhitespace(s[0]) then Words(s[1..])
    else
      var k := RunEnd(s);
      [s[..k]] + Words(s[k..])
  }

  /** `data.split_whitespace().count()`. */
  function WordCount(s: string): nat {
    |Words(s)|
  }

  /** True when a word begins at position `i`: a non-whitespace scalar not preceded by one. */
  predicate IsWordStart(s: string, i: int)
    requires 0 <= i < |s|
  {
    !IsWhitespace(s[i]) && (i == 0 || IsWhitespace(s[i - 1]))
  }

  /**
   * Independent reference count: scans `s` left to right, counting the
   * scalars where a word starts; `afterSpace` says whether the scalar before
   * `s` was whitespace (or `s` is at the start of the text).
   */
  function WordStarts(s: string, afterSpace: bool): nat {
    if |s| == 0 then 0
    else (if afterSpace && !IsWhitespace(s[0]) then 1 else 0) + WordStarts(s[1..], IsWhitespace(s[0]))
  }


  /** Non-whitespace scalars of `s`, in order. */
  function Ink(s: string): string {
    if |s| == 0 then []
    else (if IsWhitespace(s[0]) then [] else [s[0]]) + Ink(s[1..])
  }

  function Concat(ws: seq<string>): string {
    if |ws| == 0 then [] else ws[0] + Concat(ws[1..])
  }

  lemma {:induction false} InkOfRun(s: string)
    requires NoWhitespace(s)
    ensures Ink(s) == s
  {
    if |s| > 0 {
      InkOfRun(s[1..]);
      assert [s[0]] + s[1..] == s;
    }
  }

  lemma {:induction false} InkAppend(a: string, b: string)
    ensures Ink(a + b) == Ink(a) + Ink(b)
  {
    if |a| == 0 {
      assert a + b == b;
    } else {
      assert (a + b)[1..] == a[1..] + b;
      InkAppend(a[1..], b);
    }
  }

  /** The words, put side by side, are exactly the non-whitespace scalars of the text. */
  lemma {:induction false} WordsCoverInk(s: string)
    ensures Concat(Words(s)) == Ink(s)
    decreases |s|
  {
    if |s| > 0 {
      if IsWhitespace(s[0]) {
        WordsCoverInk(s[1..]);
      } else {
        var k := RunEnd(s);
        WordsCoverInk(s[k..]);
        WordsSplit(s);
        ConcatCons(s[..k], Words(s[k..]));
        assert s == s[..k] + s[k..];
        InkAppend(s[..k], s[k..]);
        InkOfRun(s[..k]);
      }
    }
  }

  lemma {:induction false} WordsSplit(s: string)
    requires |s| > 0 && !IsWhitespace(s[0])
    ensures Words(s) == [s[..RunEnd(s)]] + Words(s[RunEnd(s)..])
  {
  }

  lemma {:induction false} ConcatCons(w: string, ws: seq<string>)
    ensures Concat([w] + ws) == w + Concat(ws)
  {
    assert ([w] + ws)[1..] == ws;
  }

  lemma {:induction false} WordStartsInsideRun(s: string, k: nat)
    requires 1 <= k <= RunEnd(s)
    ensures WordStarts(s[1..], false) == WordStarts(s[k..], false)
    decreases k
  {
    if k > 1 {
      assert !IsWhitespace(s[k - 1]);
      WordStartsInsideRun(s, k - 1);
      assert s[k - 1..][1..] == s[k..];
    }
  }

  lemma {:induction false} WordStartsAfterBreak(s: string)
    requires |s| == 0 || IsWhitespace(s[0])
    ensures WordStarts(s, false) == WordStarts(s, true)
  {
  }

  /** Counting the words as split equals counting the scalars where a word starts. */
  lemma {:induction false} WordCountIsWordStarts(s: string)
    ensures WordCount(s) == WordStarts(s, true)
    decreases |s|
  {
    if |s| > 0 {
      if IsWhitespace(s[0]) {
        WordCountIsWordStarts(s[1..]);
      } else {
        var k := RunEnd(s);
        WordCountIsWordStarts(s[k..]);
        WordStartsInsideRun(s, k);
        WordStartsAfterBreak(s[k..]);
      }
    }
  }

  /** A text has no words exactly when every scalar in it is whitespace (the empty text included). */
  lemma {:induction false} NoWordsIffAllWhitespace(s: string)
    ensures WordCount(s) == 0 <==> AllWhitespace(s)
    decreases |s|
  {
    if |s| > 0 {
      NoWordsIffAllWhitespace(s[1..]);
      if IsWhitespace(s[0]) {
        if AllWhitespace(s[1..]) {
          forall i | 0 <= i < |s| ensures IsWhitespace(s[i]) {
            if i > 0 { assert s[i] == s[1..][i - 1]; }
          }
        }
        if AllWhitespace(s) {
          forall i | 0 <= i < |s[1..]| ensures IsWhitespace(s[1..][i]) {
            assert s[1..][i] == s[i + 1];
          }
        }
      }
    }
  }

  /** No more words than scalars. */
  lemma {:induction false} WordCountAtMostCharCount(s: string)
    ensures WordCount(s) <= CharCount(s)
    decreases |s|
  {
    if |s| > 0 {
      if IsWhitespace(s[0]) {
        WordCountAtMostCharCount(s[1..]);
      } else {
        var k := RunEnd(s);
        WordCountAtMostCharCount(s[k..]);
      }
    }
  }

  /** Leading whitespace splits off nothing. */
  lemma {:induction false} WordsIgnoreLeadingWhitespace(w: string, s: string)
    requires AllWhitespace(w)
    ensures Words(w + s) == Words(s)
    decreases |w|
  {
    if |w| > 0 {
      assert (w + s)[0] == w[0];
      assert (w + s)[1..] == w[1..] + s;
      WordsIgnoreLeadingWhitespace(w[1..], s);
    } else {
      assert w + s == s;
    }
  }

  lemma {:induction false} RunEndBeforeBreak(s: string, t: string)
    requires |t| == 0 || IsWhitespace(t[0])
    ensures RunEnd(s + t) == RunEnd(s)
    decreases |s|
  {
    if |s| > 0 {
      assert (s + t)[0] == s[0];
      if !IsWhitespace(s[0]) {
        assert (s + t)[1..] == s[1..] + t;
        RunEndBeforeBreak(s[1..], t);
      }
    } else {
      assert s + t == t;
    }
  }

  /** A run of non-whitespace followed by whitespace (or nothing) is one word. */
  lemma {:induction false} WordsOfRun(w: string, t: string)
    requires |w| > 0 && NoWhitespace(w)
    requires |t| == 0 || IsWhitespace(t[0])
    ensures Words(w + t) == [w] + Words(t)
  {
    RunEndBeforeBreak(w, t);
    assert RunEnd(w) == |w|;
    assert (w + t)[..|w|] == w;
    assert (w + t)[|w|..] == t;
  }

  /** Trailing whitespace splits off nothing. */
  lemma {:induction false} WordsIgnoreTrailingWhitespace(s: string, w: string)
    requires AllWhitespace(w)
    ensures Words(s + w) == Words(s)
    decreases |s|
  {
    if |s| == 0 {
      assert s + w == w;
      WordsIgnoreLeadingWhitespace(w, []);
      assert w + [] == w;
    } else {
      assert (s + w)[0] == s[0];
      if IsWhitespace(s[0]) {
        assert (s + w)[1..] == s[1..] + w;
        WordsIgnoreTrailingWhitespace(s[1..], w);
      } else {
        RunEndBeforeBreak(s, w);
        var k := RunEnd(s);
        assert (s + w)[..k] == s[..k];
        assert (s + w)[k..] == s[k..] + w;
        WordsIgnoreTrailingWhitespace(s[k..], w);
      }
    }
  }

  /** Whitespace added at either end leaves the word count unchanged. */
  lemma {:induction false} WordCountIgnoresOuterWhitespace(a: string, s: string, b: string)
    requires AllWhitespace(a) && AllWhitespace(b)
    ensures WordCount(a + s + b) == WordCount(s)
  {
    WordsIgnoreLeadingWhitespace(a, s + b);
    assert a + s + b == a + (s + b);
    WordsIgnoreTrailingWhitespace(s, b);
  }

  // ---------------------------------------------------------------------
  // Lines

  /** Position of the first line feed in `s`, or `|s|` when there is none. */
  function LineEnd(s: string): (k: nat)
    ensures k <= |s|
    ensures NoNewline(s[..k])
    ensures k < |s| ==> s[k] == '\n'
  {
    if |s| == 0 || s[0] == '\n' then 0
    else
      var k := 1 + LineEnd(s[1..]);
      assert s[..k] == [s[0]] + s[1..][..k - 1];
      k
  }

  predicate NoNewline(s: string) {
    forall i :: 0 <= i < |s| ==> s[i] != '\n'
  }

  /**
   * `str::lines`: the text cut at every line feed, each line without its
   * terminator; a final line feed does not open an extra empty line.
   */
  function Lines(s: string): (ls: seq<string>)
    ensures forall j :: 0 <= j < |ls| ==> NoNewline(ls[j])
    decreases |s|
  {
    if |s| == 0 then []
    else
      var k := LineEnd(s);
      if k == |s| then [s] else [s[..k]] + Lines(s[k + 1..])
  }

  /** `data.lines().count()`. */
  function LineCount(s: string): nat {
    |Lines(s)|
  }

  /** Number of line feeds in `s`. */
  function NewlineCount(s: string): nat {
    if |s| == 0 then 0 else (if s[0] == '\n' then 1 else 0) + NewlineCount(s[1..])
  }

  /** True when `s` is non-empty and its last scalar is not a line feed. */
  predicate Unterminated(s: string) {
    |s| > 0 && s[|s| - 1] != '\n'
  }

  lemma {:induction false} NewlineCountOfLine(s: string, k: nat)
    requires k <= |s|
    requires NoNewline(s[..k])
    ensures NewlineCount(s) == NewlineCount(s[k..])
    decreases k
  {
    if k > 0 {
      assert s[1..][k - 1..] == s[k..];
      assert s[0] == s[..k][0];
      assert s[1..][..k - 1] == s[..k][1..];
      NewlineCountOfLine(s[1..], k - 1);
    }
  }

  /** The line count is the number of line feeds, plus one for an unterminated last line. */
  lemma {:induction false} LineCountFormula(s: string)
    ensures LineCount(s) == NewlineCount(s) + (if Unterminated(s) then 1 else 0)
    decreases |s|
  {
    if |s| > 0 {
      var k := LineEnd(s);
      NewlineCountOfLine(s, k);
      if k < |s| {
        assert s[k..][1..] == s[k + 1..];
        LineCountFormula(s[k + 1..]);
        if |s[k + 1..]| > 0 {
          assert s[k + 1..][|s[k + 1..]| - 1] == s[|s| - 1];
        }
      }
    }
  }

  /** Concatenation of lines, each followed by a line feed. */
  function Terminate(ls: seq<string>): string {
    if |ls| == 0 then [] else ls[0] + "\n" + Terminate(ls[1..])
  }


  /**
   * Putting the lines back together, each with a line feed, gives the text
   * back, with one line feed added when the last line was unterminated.
   */
  lemma {:induction false} LinesRoundTrip(s: string)
    ensures Terminate(Lines(s)) == if Unterminated(s) then s + "\n" else s
    decreases |s|
  {
    if |s| > 0 {
      var k := LineEnd(s);
      if k == |s| {
        LastLine(s);
        TerminateCons(s, []);
        assert [s] + [] == [s];
        assert s + "\n" + [] == s + "\n";
      } else {
        var rest := s[k + 1..];
        LinesSplit(s);
        LinesRoundTrip(rest);
        TerminateCons(s[..k], Lines(rest));
        SplitAtNewline(s, k);
        RejoinLine(s[..k], rest, s, Terminate(Lines(rest)));
      }
    }
  }

  lemma {:induction false} RejoinLine(line: string, rest: string, s: string, tail: string)
    requires s == line + "\n" + rest
    requires tail == if Unterminated(rest) then rest + "\n" else rest
    ensures line + "\n" + tail == if Unterminated(s) then s + "\n" else s
  {
    if |rest| > 0 {
      assert s[|s| - 1] == rest[|rest| - 1];
    }
  }

  lemma {:induction false} SplitAtNewline(s: string, k: nat)
    requires k < |s| && s[k] == '\n'
    ensures s == s[..k] + "\n" + s[k + 1..]
  {
  }

  lemma {:induction false} LinesSplit(s: string)
    requires LineEnd(s) < |s|
    ensures Lines(s) == [s[..LineEnd(s)]] + Lines(s[LineEnd(s) + 1..])
  {
  }

  lemma {:induction false} LastLine(s: string)
    requires |s| > 0 && LineEnd(s) == |s|
    ensures Unterminated(s) && Lines(s) == [s]
  {
    assert s[..|s|] == s;
  }

  lemma {:induction false} TerminateCons(l: string, ls: seq<string>)
    ensures Terminate([l] + ls) == l + "\n" + Terminate(ls)
  {
    assert ([l] + ls)[1..] == ls;
  }

  /** A line feed after an unterminated last line adds no line; after anything else it adds one. */
  lemma {:induction false} TrailingNewline(s: string)
    ensures LineCount(s + "\n") == LineCount(s) + (if Unterminated(s) then 0 else 1)
  {
    LineCountFormula(s);
    LineCountFormula(s + "\n");
    NewlineCountAppend(s, "\n");
  }

  lemma {:induction false} NewlineCountAppend(a: string, b: string)
    ensures NewlineCount(a + b) == NewlineCount(a) + NewlineCount(b)
  {
    if |a| == 0 {
      assert a + b == b;
    } else {
      assert (a + b)[1..] == a[1..] + b;
      NewlineCountAppend(a[1..], b);
    }
  }

  /** No more lines than scalars. */
  lemma {:induction false} LineCountAtMostCharCount(s: string)
    ensures LineCount(s) <= CharCount(s)
  {
    LineCountFormula(s);
    NewlineCountBound(s);
  }

  lemma {:induction false} NewlineCountBound(s: string)
    ensures NewlineCount(s) <= |s|
    ensures Unterminated(s) ==> NewlineCount(s) < |s|
  {
    if |s| > 0 {
      NewlineCountBound(s[1..]);
      if Unterminated(s) && |s| > 1 {
        assert s[1..][|s| - 2] == s[|s| - 1];
      }
    }
  }

  /** Only the empty text has no lines. */
  lemma {:induction false} NoLinesIffEmpty(s: string)
    ensures LineCount(s) == 0 <==> |s| == 0
  {
    LineCountFormula(s);
    if |s| > 0 && !Unterminated(s) {
      NewlineCountLast(s);
    }
  }

  lemma {:induction false} NewlineCountLast(s: string)
    requires |s| > 0 && s[|s| - 1] == '\n'
    ensures NewlineCount(s) > 0
  {
    if s[0] != '\n' {
      assert s[1..][|s| - 2] == s[|s| - 1];
      NewlineCountLast(s[1..]);
    }
  }

  /** "a\nb" and "a\nb\n" both have two lines; the empty text has none. */
  lemma {:induction false} LineCountExamples()
    ensures LineCount("a\nb") == 2 && LineCount("a\nb\n") == 2 && LineCount("") == 0
  {
    LineCountFormula("a\nb");
    LineCountFormula("a\nb\n");
    assert "a\nb"[1..] == "\nb";
    assert "\nb"[1..] == "b";
    assert "a\nb\n"[1..] == "\nb\n";
    assert "\nb\n"[1..] == "b\n";
    assert "b\n"[1..] == "\n";
  }

  /** "  a  b   " has two words and the empty text none. */
  lemma {:induction false} WordCountExamples()
    ensures WordCount("  a  b   ") == 2 && WordCount("") == 0
  {
    var tail := "  " + ("b" + "   ");
    assert "  a  b   " == "  " + ("a" + tail);
    WordsOfSpacedB();
    WordsIgnoreLeadingWhitespace("  ", "b" + "   ");
    assert NoWhitespace("a");
    WordsOfRun("a", tail);
    WordsIgnoreLeadingWhitespace("  ", "a" + tail);
  }

  lemma {:induction false} WordsOfSpacedB()
    ensures Words("b" + "   ") == ["b"]
  {
    WordsIgnoreLeadingWhitespace("   ", []);
    assert "   " + [] == "   ";
    assert NoWhitespace("b");
    WordsOfRun("b", "   ");
  }

  /** A text with no line feed, terminated by one, is a single line. */
  lemma {:induction false} TerminatedLine(t: string)
    requires NoNewline(t)
    ensures LineCount(t + "\n") == 1
  {
    assert t[..|t|] == t;
    NewlineCountOfLine(t, |t|);
    assert t[|t|..] == [];
    NewlineCountAppend(t, "\n");
    LineCountFormula(t + "\n");
  }
}
