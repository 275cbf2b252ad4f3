# wc — a Dafny model of a small word-count tool

The program is a Rust re-implementation of the Unix `wc` utility, all of it in
`src/main.rs`. It reads its arguments and sorts each one into a count flag
(`-c/--bytes`, `-w/--words`, `-l/--lines`, `-m/--chars`) or an input (`-` for
standard input, anything else a file path). It reads every input and counts its
bytes, chars, words and lines (the `WC` record). Then it prints one
right-aligned line per input, and along the way it adds every record into a
`Total` record that it never prints.

This project models that whole pipeline as pure functions over immutable
datatypes. Reading files and standard input is not modelled: their texts are
parameters. "## Left out" lists the rest.

| file | module | models |
|---|---|---|
| `wrappers.dfy` | `Wrappers` | `Option`, the result type of the decoders |
| `utf8.dfy` | `Utf8` | the UTF-8 encoding behind `as_bytes()` (RFC 3629, section 3), with a decoder that inverts it |
| `counting.dfy` | `Counting` | `as_bytes().len()`, `chars().count()`, `split_whitespace().count()`, `lines().count()` |
| `args.dfy` | `Args` | `Options`, `Options::init`, the argument-classification loop |
| `wc.dfy` | `Wc` | the `WC` record, `WC::init`, `WC::read`, the total loop |
| `report.dfy` | `Report` | `WC::print`, as a function that returns the line, plus a reader for printed lines |
| `driver.dfy` | `Driver` | `main`, as a function of the arguments, the stdin text and a file-content oracle |

Each count is defined the way the Rust library computes it. Lemmas then tie it
to an independent description of the same number:
- the byte count is the length of the UTF-8 encoding, and also the sum of the per-scalar widths;
- the word count is the number of maximal non-whitespace runs, and also the number of positions where a word starts;
- the line count is the number of line feeds, plus one for an unterminated last line.

The argument loop is a left fold. Lemmas characterise its result: which flags end up set, and the inputs in argument order. They also show that a flag's position and repetition make no difference. The printed line is shown to carry exactly the selected counts, in column order, and a reader recovers them from it.

Three behaviours of the code are easy to misread, and the model follows the code in each:
- The test that picks the default three-column layout (src/main.rs:42) reads `bytes` twice and never reads `words`. So `-w` alone still prints lines, words and bytes. `Report.DefaultMode` keeps that test as written, and `Report.WordsAloneGetsDefaultLayout` states the consequence.
- Inputs are not printed as soon as they are read. All reading happens in the argument loop or in the standard-input read after it (src/main.rs:103-132), and all printing happens in the total loop after that (src/main.rs:136-143). So every line is printed under the final options, which `Driver.Run` states for the whole output and `Driver.RunLinesOnly` shows for `-l`. The total is summed but never printed.
- Read and decode failures are not reported as errors. The code calls `.unwrap()` and panics. The model has no error path for them, because file contents are given.

## Model

| member | source | states |
|---|---|---|
| Utf8.Width | src/main.rs:27 | a scalar takes 1 to 4 bytes in UTF-8, and exactly 1 iff it is below 0x80 |
| Utf8.DecodeEncode | src/main.rs:27 | decoding the UTF-8 bytes of any text gives the text back, so the byte count measures a lossless encoding |
| Counting.CharCount | src/main.rs:28 | `chars().count()` is the number of scalars the text's UTF-8 bytes decode to |
| Counting.ByteCount | src/main.rs:27 | `as_bytes().len()` is the sum of the UTF-8 widths of the text's scalars, so chars <= bytes <= 4 * chars; `Counting.ByteCountIsCharCountIffAscii` and `Utf8.DecodeEncode` characterise it further |
| Counting.ByteCountIsCharCountIffAscii | src/main.rs:27-28 | bytes equal chars exactly when every scalar is below 0x80 |
| Counting.CafeExample | src/main.rs:27-28 | "café" has 5 bytes and 4 chars |
| Counting.Words | src/main.rs:29 | every word `split_whitespace` yields is non-empty and free of whitespace; `Counting.WordsOfRun` (a run ended by whitespace or the end of the text is split off whole) and `Counting.WordsIgnoreLeadingWhitespace` (whitespace before it is skipped) pin the split to the maximal runs, in order |
| Counting.WordsCoverInk | src/main.rs:29 | the words, concatenated in order, are exactly the non-whitespace scalars of the text |
| Counting.WordCountIsWordStarts | src/main.rs:29 | the word count equals the number of positions where a non-whitespace scalar follows whitespace or the start, i.e. the number of maximal runs |
| Counting.NoWordsIffAllWhitespace | src/main.rs:29 | the word count is 0 exactly when the text is empty or all whitespace |
| Counting.WordCountAtMostCharCount | src/main.rs:28-29 | there are never more words than chars |
| Counting.WordsIgnoreLeadingWhitespace | src/main.rs:29 | prefixing whitespace leaves the list of words unchanged |
| Counting.WordsIgnoreTrailingWhitespace | src/main.rs:29 | appending whitespace leaves the list of words unchanged |
| Counting.WordCountIgnoresOuterWhitespace | src/main.rs:29 | whitespace added at either end does not change the word count |
| Counting.WordsOfRun | src/main.rs:29 | a non-whitespace run followed by whitespace or the end is split off as one whole word |
| Counting.WordCountExamples | src/main.rs:29 | "  a  b   " has 2 words and "" has none |
| Counting.LineCountFormula | src/main.rs:30 | the line count is the number of line feeds, plus 1 when the text is non-empty and does not end in a line feed |
| Counting.Lines | src/main.rs:30 | no line `lines()` yields contains a line feed; `Counting.LinesRoundTrip` and `Counting.LineCountFormula` show how the lines rebuild the text and how many there are |
| Counting.LinesRoundTrip | src/main.rs:30 | the lines, each followed by a line feed, rebuild the text, with one line feed added only when the last line was unterminated |
| Counting.TrailingNewline | src/main.rs:30 | a line feed after an unterminated last line adds no line; after an empty or terminated text it adds one |
| Counting.NoLinesIffEmpty | src/main.rs:30 | the line count is 0 exactly for the empty text |
| Counting.LineCountAtMostCharCount | src/main.rs:28-30 | there are never more lines than chars |
| Counting.LineCountExamples | src/main.rs:30 | "a\nb" and "a\nb\n" both have 2 lines and "" has 0 |
| Wc.InitRecord | src/main.rs:16-24 | `WC::init` gives a record with the given name and every count zero |
| Wc.Read | src/main.rs:26-39 | `WC::read` keeps the name; bytes is the sum of the scalars' UTF-8 widths, chars the number of scalars, words the number of places where a non-whitespace scalar starts the text or follows whitespace, lines the number of line feeds plus one for an unterminated last line; consequences stated too: chars <= bytes <= 4*chars, words <= chars, lines <= chars, bytes = chars iff ASCII, words = 0 iff all whitespace, lines = 0 iff empty |
| Wc.Add | src/main.rs:137-140 | one step of the total loop adds each count of the record into the total and keeps the total's name |
| Wc.AccumulateIsSum | src/main.rs:136-141 | after the loop every count of the accumulator is its start value plus the sum of that count over the records |
| Wc.Total | src/main.rs:134-141 | the total is named "Total" and each of its counts equals the sum of that count over all records, a right-to-left reference for the left-to-right loop (`Wc.AccumulateIsSum`) |
| Wc.TotalOrderIrrelevant | src/main.rs:136-141 | any two record lists that are permutations of each other (same multiset) have the same total |
| Args.Init | src/main.rs:80-88 | `Options::init` selects no count and has `nofiles` true |
| Args.Set | src/main.rs:105-108 | a flag turns its own field on and leaves every other field as it was |
| Args.SourceOf | src/main.rs:111-123 | a non-flag argument names standard input iff it is "-", and its label is the argument itself |
| Args.Classify | src/main.rs:104-124 | an argument is a flag only when it is a spelling of that flag, and otherwise it is an input, read by `SourceOf`, that spells no flag; `Args.ClassifyTable` gives both directions |
| Args.Step | src/main.rs:103-126 | one iteration turns on exactly the flag the argument spells; `nofiles` stays true only for a flag; a non-flag argument appends its input and a flag appends nothing |
| Args.ClassifyTable | src/main.rs:104-124 | an argument sets flag f exactly when it is one of f's two spellings; any other argument is an input labelled verbatim |
| Args.UnknownFlagsAreFiles | src/main.rs:109-123 | "-x" and "-cw" are file inputs, not errors, and "-" is standard input |
| Args.ParseSnoc | src/main.rs:103-126 | parsing one more argument is one more iteration of the loop |
| Args.ParseOptions | src/main.rs:103-126 | after the loop a flag is set iff one of its spellings occurs, and `nofiles` is true iff no argument named an input |
| Args.Parse | src/main.rs:103-126 | the inputs collected are the non-flag arguments, all of them, in argument order, each read by `SourceOf`; `Args.ParseOptions` gives the flags and `nofiles`, `Args.ParseSnoc` the loop step |
| Args.FlagPositionIrrelevant | src/main.rs:103-126 | moving a flag to the front of the arguments gives the same options and inputs |
| Args.FlagRepeatIdempotent | src/main.rs:105-108 | giving a flag twice in a row is the same as giving it once |
| Args.Inputs | src/main.rs:128-132 | the input list has max(1, number of non-flag arguments) entries; it is the single standard input when there is no such argument |
| Report.Digits | src/main.rs:54 | the decimal text of a number is non-empty, all digits, and has no leading zero |
| Report.DigitsRoundTrip | src/main.rs:54 | reading the decimal text of a number gives the number back |
| Report.FieldRoundTrip | src/main.rs:54 | a number right-aligned to width 6, then a space, reads back as that number, leaving the rest of the line intact |
| Report.DefaultMode | src/main.rs:42 | the default layout is chosen exactly when no flag other than `-w` is set: `words` plays no part, because the test reads `bytes` twice (`Report.WordsAloneGetsDefaultLayout`) |
| Report.Format | src/main.rs:41-66 | every printed line ends with the record's name and a line feed; `Report.FormatShowsColumns` and `Report.FormatRoundTrip` give its columns and their values |
| Report.Pad | src/main.rs:44-62 | `{:>6}`: the decimal digits of the number, preceded by just enough spaces to make the field six wide, and never truncated when it has more digits; `Report.FieldRoundTrip` reads it back |
| Report.Columns | src/main.rs:42-63 | the counts shown appear in strictly increasing order lines, words, bytes-or-chars; lines, words and bytes are shown in the default layout or when selected, and chars only when selected without bytes |
| Report.FormatShowsColumns | src/main.rs:41-66 | the printed line is the padded values of exactly those columns, each followed by a space, then the name and a line feed |
| Report.WordsAloneGetsDefaultLayout | src/main.rs:42-49 | with only `words` set, the line shows lines, words and bytes, the same as with no flag |
| Report.FormatRoundTrip | src/main.rs:41-66 | reading a printed line gives back the selected counts in column order and then the name and line feed |
| Driver.ReadAll | src/main.rs:114-131 | there is one record per input, in input order, each `WC::read` of that input's text under its label |
| Driver.PrintAll | src/main.rs:136-143 | the `wc.print(options)` calls of the total loop print exactly one row per record, in record order, each the values of the columns the options select followed by the record's name and a line feed, and nothing else |
| Driver.Run | src/main.rs:97-143 | a run makes max(1, number of non-flag arguments) records and a total named "Total" holding each count summed over them; it prints exactly one row per record under the final options parsed from all the arguments, and does not print the total; `Driver.RunRecords` and `Driver.HelloWorldExample` characterise it further |
| Driver.RunRecords | src/main.rs:103-132 | a run has one record per non-flag argument, in order and named with the argument, or a single record "-" of standard input when there is none |
| Driver.RunFlagPosition | src/main.rs:103-143 | moving a flag to the front of the arguments does not change the run |
| Driver.RunLinesOnly | src/main.rs:103-143 | with `-l` as the only flag, wherever it stands, every record, including those named before the flag, prints its line count alone |
| Driver.RunFlagRepeat | src/main.rs:105-108 | repeating a flag does not change the run |
| Driver.HelloWorldExample | src/main.rs:97-143 | no arguments and "hello world\n" on standard input print `     1      2     12 -` and a line feed |

## Left out

- Reading files and standard input (`read_to_string`, `read_stdin`): the texts are parameters. Standard input is a given string, and file contents are a function from path to text.
- The `.unwrap()` panics on a missing file, a read error or invalid UTF-8: the model has no failure path, because contents are given as valid text.
- Reading standard input more than once (`-` given twice): every read of `-` sees the same text. What a second read really returns depends on the stream's state, not on the program.
- The stripping of a final `\r` from each line inside `lines()`: it changes the lines' contents but not their number, which is all the program uses.
- `usize` overflow in the total: counts are unbounded naturals.
- Writing to standard output: `WC::print` returns the line it would write instead of writing it. So the panic of `print!` when standard output cannot be written is not modelled.
- The panic of `std::env::args()` (src/main.rs:98) on an argument that is not valid Unicode: arguments are given as strings, so such an argument cannot be expressed.
- Reading order: the program reads each input as the argument loop reaches it. The model folds the arguments first and reads afterwards. This yields the same records, because contents are pure parameters.
- The Unicode whitespace table: `Counting.IsWhitespace` is a fixed list of code points, the Unicode White_Space property that Rust's `char::is_whitespace` tests. It is not derived from the Unicode tables.
