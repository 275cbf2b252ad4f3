/**
 * The `WC` record of src/main.rs:6-39 and the running total that `main`
 * keeps over all records (src/main.rs:134-143).
 */
module Wc {
  import opened Counting

  /** Four counts of one input and the name it is printed with. */
  datatype Record = Record(bytes: nat, chars: nat, words: nat, lines: nat, name: string)

  /** The four counted quantities, used to speak of one field at a time. */
  datatype Count = Lines | Words | Bytes | Chars

  function Get(r: Record, c: Count): nat {
    match c
    case Lines => r.lines
    case Words => r.words
    case Bytes => r.bytes
    case Chars => r.chars
  }

  /** `WC::init`: a record with every count at zero. */
  function InitRecord(name: string): (r: Record)
    ensures forall c :: Get(r, c) == 0
    ensures r.name == name
  {
    Record(0, 0, 0, 0, name)
  }

  /** `WC::read`: counts one text. */
  function Read(name: string, data: string): (r: Record)
    ensures r.name == name
    ensures r.chars == |data|
    ensures r.chars <= r.bytes <= 4 * r.chars
    ensures r.bytes == r.chars <==> IsAscii(data)
    ensures r.words <= r.chars && r.lines <= r.chars
    ensures r.words == 0 <==> AllWhitespace(data)
    ensures r.lines == 0 <==> |data| == 0
    ensures r.bytes == SumWidths(data)
    ensures r.words == WordStarts(data, true)
    ensures r.lines == NewlineCount(data) + (if Unterminated(data) then 1 else 0)
  {
    WordCountIsWordStarts(data);
    LineCountFormula(data);
    ByteCountIsCharCountIffAscii(data);
    WordCountAtMostCharCount(data);
    LineCountAtMostCharCount(data);
    NoWordsIffAllWhitespace(data);
    NoLinesIffEmpty(data);
    Record(ByteCount(data), CharCount(data), WordCount(data), LineCount(data), name)
  }

  /** One iteration of the total loop: each count of `r` added into `acc`, whose name stays. */
  function Add(acc: Record, r: Record): (t: Record)
    ensures forall c :: Get(t, c) == Get(acc, c) + Get(r, c)
    ensures t.name == acc.name
  {
    Record(acc.bytes + r.bytes, acc.chars + r.chars, acc.words + r.words, acc.lines + r.lines, acc.name)
  }

  /** The total loop, a left fold of `Add`. */
  function Accumulate(acc: Record, rs: seq<Record>): Record
    decreases |rs|
  {
    if |rs| == 0 then acc else Accumulate(Add(acc, rs[0]), rs[1..])
  }

  /**
   * The record `main` builds as `total`: named "Total", each count the sum
   * of that count over all records.
   */
  function Total(rs: seq<Record>): (t: Record)
    ensures t.name == "Total"
    ensures forall c :: Get(t, c) == Sum(rs, c)
  {
    AccumulateIsSum(InitRecord("Total"), rs);
    Accumulate(InitRecord("Total"), rs)
  }

  /** Reference sum of one count over a list of records. */
  function Sum(rs: seq<Record>, c: Count): nat {
    if |rs| == 0 then 0 else Get(rs[0], c) + Sum(rs[1..], c)
  }

  lemma {:induction false} AccumulateIsSum(acc: Record, rs: seq<Record>)
    ensures forall c :: Get(Accumulate(acc, rs), c) == Get(acc, c) + Sum(rs, c)
    ensures Accumulate(acc, rs).name == acc.name
    decreases |rs|
  {
    if |rs| > 0 {
      AccumulateIsSum(Add(acc, rs[0]), rs[1..]);
    }
  }

  lemma {:induction false} SumAppend(a: seq<Record>, b: seq<Record>, c: Count)
    ensures Sum(a + b, c) == Sum(a, c) + Sum(b, c)
  {
    if |a| == 0 {
      assert a + b == b;
    } else {
      assert (a + b)[1..] == a[1..] + b;
      SumAppend(a[1..], b, c);
    }
  }

  /** Taking the record at position `i` out of the list takes its count out of the sum. */
  lemma {:induction false} SumRemove(rs: seq<Record>, i: nat, c: Count)
    requires i < |rs|
    ensures Sum(rs, c) == Get(rs[i], c) + Sum(rs[..i] + rs[i + 1..], c)
  {
    assert rs == rs[..i] + [rs[i]] + rs[i + 1..];
    SumAppend(rs[..i] + [rs[i]], rs[i + 1..], c);
    SumAppend(rs[..i], [rs[i]], c);
    SumAppend(rs[..i], rs[i + 1..], c);
    assert Sum([rs[i]], c) == Get(rs[i], c) + Sum([], c);
  }

  lemma {:induction false} MultisetRemove(rs: seq<Record>, i: nat)
    requires i < |rs|
    ensures multiset(rs[..i] + rs[i + 1..]) == multiset(rs) - multiset{rs[i]}
  {
    assert rs == rs[..i] + [rs[i]] + rs[i + 1..];
    assert multiset(rs) == multiset(rs[..i]) + multiset{rs[i]} + multiset(rs[i + 1..]);
  }

  /** Two lists holding the same records, in any order, have the same sums. */
  lemma {:induction false} SumPermutation(rs: seq<Record>, qs: seq<Record>, c: Count)
    requires multiset(rs) == multiset(qs)
    ensures Sum(rs, c) == Sum(qs, c)
    decreases |rs|
  {
    if |rs| == 0 {
      assert |qs| == |multiset(qs)| == 0;
    } else {
      var i := MatchHead(rs, qs);
      SumPermutation(rs[1..], qs[..i] + qs[i + 1..], c);
      SumMatchedHeads(rs, qs, i, c);
    }
  }

  /** The first record of `rs` sits somewhere in its permutation `qs`, and the rests are permutations too. */
  lemma {:induction false} MatchHead(rs: seq<Record>, qs: seq<Record>) returns (i: nat)
    requires multiset(rs) == multiset(qs) && |rs| > 0
    ensures i < |qs| && qs[i] == rs[0]
    ensures multiset(rs[1..]) == multiset(qs[..i] + qs[i + 1..])
  {
    assert rs[0] in multiset(qs);
    i := IndexOf(qs, rs[0]);
    MultisetTails(rs, qs, i);
  }

  lemma {:induction false} IndexOf(qs: seq<Record>, x: Record) returns (i: nat)
    requires x in multiset(qs)
    ensures i < |qs| && qs[i] == x
  {
    assert x in qs;
    i :| 0 <= i < |qs| && qs[i] == x;
  }

  lemma {:induction false} MultisetTails(rs: seq<Record>, qs: seq<Record>, i: nat)
    requires multiset(rs) == multiset(qs) && |rs| > 0 && i < |qs| && qs[i] == rs[0]
    ensures multiset(rs[1..]) == multiset(qs[..i] + qs[i + 1..])
  {
    MultisetRemove(qs, i);
    MultisetDropHead(rs);
  }

  lemma {:induction false} MultisetDropHead(rs: seq<Record>)
    requires |rs| > 0
    ensures multiset(rs[1..]) == multiset(rs) - multiset{rs[0]}
  {
    assert rs == [rs[0]] + rs[1..];
  }

  lemma {:induction false} SumMatchedHeads(rs: seq<Record>, qs: seq<Record>, i: nat, c: Count)
    requires 0 < |rs| && i < |qs| && qs[i] == rs[0]
    requires Sum(rs[1..], c) == Sum(qs[..i] + qs[i + 1..], c)
    ensures Sum(rs, c) == Sum(qs, c)
  {
    SumRemove(qs, i, c);
    SumRemove(rs, 0, c);
    assert rs[..0] + rs[1..] == rs[1..];
  }

  /** The total does not depend on the order of the records: any permutation gives the same total. */
  lemma {:induction false} TotalOrderIrrelevant(rs: seq<Record>, qs: seq<Record>)
    requires multiset(rs) == multiset(qs)
    ensures Total(rs) == Total(qs)
  {
    forall c ensures Get(Total(rs), c) == Get(Total(qs), c) {
      SumPermutation(rs, qs, c);
    }
    assert Get(Total(rs), Bytes) == Get(Total(qs), Bytes);
    assert Get(Total(rs), Chars) == Get(Total(qs), Chars);
    assert Get(Total(rs), Words) == Get(Total(qs), Words);
    assert Get(Total(rs), Lines) == Get(Total(qs), Lines);
  }
}
