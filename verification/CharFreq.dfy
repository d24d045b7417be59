/** Letter frequencies: the words vented, the worker that counts one word and the sink worker that sums the counts. */
module CharFreq {
  import opened Sink
  import opened Pipeline

  const LETTERS := 26

  // ----- one word

  datatype WorkResult = Counted(digits: string) | LetterNotInRange

  predicate IsLetter(c: char) {
    'a' <= c <= 'z'
  }

  predicate IsWord(word: string) {
    forall i :: 0 <= i < |word| ==> IsLetter(word[i])
  }

  /** How often letter `k` (0 for a) occurs. */
  function Occurs(word: string, k: nat): nat {
    if word == [] then 0
    else Occurs(word[..|word| - 1], k) + (if word[|word| - 1] as int == 'a' as int + k then 1 else 0)
  }

  function HexDigit(n: nat): (c: char)
    requires n < 16
  {
    if n < 10 then '0' + n as char else 'a' + (n - 10) as char
  }

  predicate IsHexDigit(c: char) {
    '0' <= c <= '9' || 'a' <= c <= 'f' || 'A' <= c <= 'F'
  }

  function HexValue(c: char): (n: nat)
    requires IsHexDigit(c)
    ensures n < 16
  {
    if c <= '9' then (c - '0') as nat else if c <= 'F' then (c - 'A') as nat + 10 else (c - 'a') as nat + 10
  }

  const HEX_DIGITS := "0123456789abcdef"
  const UPPER_HEX_DIGITS := "0123456789ABCDEF"

  /** Digits are written in lower case and read in either. */
  lemma HexDigitIs(n: nat)
    requires n < 16
    ensures HexDigit(n) == HEX_DIGITS[n]
    ensures IsHexDigit(HEX_DIGITS[n]) && HexValue(HEX_DIGITS[n]) == n
    ensures IsHexDigit(UPPER_HEX_DIGITS[n]) && HexValue(UPPER_HEX_DIGITS[n]) == n
  {
  }

  lemma HexRoundTrip(n: nat)
    requires n < 16
    ensures IsHexDigit(HexDigit(n)) && HexValue(HexDigit(n)) == n
  {
  }

  /** The first character of `n` printed in hexadecimal, which is all that is kept of a count. */
  function FirstHexChar(n: nat): (c: char)
    requires n <= 16
    ensures IsHexDigit(c)
  {
    if n == 16 then '1' else HexDigit(n)
  }

  /** The count one hexadecimal digit ends up with after `n` increments: the sixteenth makes it one again. */
  function Wrapped(n: nat): (d: nat)
    ensures d < 16 && d <= n
    ensures d == n <==> n < 16
  {
    if n == 0 then 0 else (n - 1) % 15 + 1
  }

  lemma WrappedStep(n: nat)
    ensures HexValue(FirstHexChar(Wrapped(n))) == Wrapped(n)
    ensures FirstHexChar(Wrapped(n) + 1) == FirstHexChar(Wrapped(n + 1))
  {
    HexRoundTrip(Wrapped(n));
    if n > 0 {
      assert n % 15 == if (n - 1) % 15 == 14 then 0 else (n - 1) % 15 + 1;
    }
  }

  /** The 26 digits of a word. */
  function Digits(word: string): (digits: string)
    ensures |digits| == LETTERS
  {
    seq(LETTERS, k requires 0 <= k < LETTERS => FirstHexChar(Wrapped(Occurs(word, k))))
  }

  /** A digit is the exact count of its letter if and only if the word has at most fifteen of it. */
  lemma DigitIsCount(word: string, k: nat)
    requires k < LETTERS
    ensures IsHexDigit(Digits(word)[k])
    ensures HexValue(Digits(word)[k]) == Wrapped(Occurs(word, k)) <= Occurs(word, k)
    ensures HexValue(Digits(word)[k]) == Occurs(word, k) <==> Occurs(word, k) <= 15
  {
    WrappedStep(Occurs(word, k));
  }

  /** The worker's job: 26 hexadecimal digits, rewritten in place letter by letter. */
  method CountLetters(word: string) returns (r: WorkResult)
    ensures r == if IsWord(word) then Counted(Digits(word)) else LetterNotInRange
  {
    var result := new char[LETTERS](_ => '0');
    var i := 0;
    while i < |word|
      invariant 0 <= i <= |word|
      invariant IsWord(word[..i])
      invariant result[..] == Digits(word[..i])
    {
      var index := word[i] as int - 'a' as int;
      if index < 0 || index > 25 {
        return LetterNotInRange;
      }
      assert word[..i + 1][..i] == word[..i];
      WrappedStep(Occurs(word[..i], index));
      assert result[index] == result[..][index];
      var c := HexValue(result[index]);
      c := c + 1;
      // The source refuses counts above 16 here; one digit plus one never gets there. At 16 it prints two digits and an
      // end mark over a buffer of two characters, of which only the first is kept.
      assert c <= 16;
      result[index] := FirstHexChar(c);
      i := i + 1;
    }
    assert word[..|word|] == word;
    return Counted(result[..]);
  }

  // ----- the sink worker

  function Zeros(): (z: seq<int>)
    ensures |z| == LETTERS && forall k :: 0 <= k < LETTERS ==> z[k] == 0
  {
    seq(LETTERS, _ => 0)
  }

  /** Data the sink worker can read: one string of 26 hexadecimal digits. */
  predicate Readable(data: seq<string>) {
    |data| > 0 && |data[0]| == LETTERS && forall k :: 0 <= k < LETTERS ==> IsHexDigit(data[0][k])
  }

  function Added(counts: seq<int>, data: seq<string>): (r: seq<int>)
    requires |counts| == LETTERS && Readable(data)
    ensures |r| == LETTERS
  {
    seq(LETTERS, k requires 0 <= k < LETTERS => counts[k] + HexValue(data[0][k]))
  }

  // ----- the calls of the sink loop, and the totals they lead to

  function Apply(counts: seq<int>, call: Call<seq<string>>): (r: seq<int>)
    requires |counts| == LETTERS
    ensures |r| == LETTERS
  {
    match call
    case ProcessCall(_, data) => if Readable(data) then Added(counts, data) else counts
    case ResultsCall => Zeros()
    case _ => counts
  }

  function CountsAfter(calls: seq<Call<seq<string>>>): (r: seq<int>)
    ensures |r| == LETTERS
  {
    if calls == [] then Zeros() else Apply(CountsAfter(calls[..|calls| - 1]), calls[|calls| - 1])
  }

  /** The totals handed over. */
  function Reported(calls: seq<Call<seq<string>>>): (r: seq<seq<int>>)
    ensures forall i :: 0 <= i < |r| ==> |r[i]| == LETTERS
  {
    if calls == [] then []
    else
      var front := calls[..|calls| - 1];
      Reported(front) + if calls[|calls| - 1].ResultsCall? then [CountsAfter(front)] else []
  }

  class SWorker {
    const counts: array<int>
    var results: seq<seq<int>>

    ghost predicate Valid()
      reads this
    {
      counts.Length == LETTERS
    }

    constructor ()
      ensures Valid() && fresh(counts) && counts[..] == Zeros() && results == []
    {
      counts := new int[LETTERS](_ => 0);
      results := [];
    }

    method Init()
      requires Valid()
      modifies counts
      ensures counts[..] == Zeros()
    {
      for i := 0 to LETTERS
        invariant forall k :: 0 <= k < i ==> counts[k] == 0
      {
        counts[i] := 0;
      }
    }

    method Process(data: seq<string>)
      requires Valid() && Readable(data)
      modifies counts
      ensures counts[..] == Added(old(counts[..]), data)
    {
      for i := 0 to LETTERS
        invariant forall k :: 0 <= k < LETTERS ==>
                    counts[k] == old(counts[k]) + if k < i then HexValue(data[0][k]) else 0
      {
        var c := HexValue(data[0][i]);
        counts[i] := counts[i] + c;
      }
    }

    method Results()
      requires Valid()
      modifies this, counts
      ensures results == old(results) + [old(counts[..])] && counts[..] == Zeros()
    {
      results := results + [counts[..]];
      Init();
    }

    /** The calls of the sink's loop one after the other; each data message carries what a worker sends. */
    method Perform(calls: seq<Call<seq<string>>>)
      requires Valid() && counts[..] == Zeros()
      requires forall i :: 0 <= i < |calls| && calls[i].ProcessCall? ==> Readable(calls[i].data)
      modifies this, counts
      ensures counts[..] == CountsAfter(calls)
      ensures results == old(results) + Reported(calls)
    {
      var i := 0;
      while i < |calls|
        invariant 0 <= i <= |calls|
        invariant counts[..] == CountsAfter(calls[..i])
        invariant results == old(results) + Reported(calls[..i])
      {
        assert calls[..i + 1][..i] == calls[..i];
        match calls[i] {
          case ProcessCall(_, data) => Process(data);
          case ResultsCall => Results();
          case _ =>
        }
        i := i + 1;
      }
      assert calls[..i] == calls;
    }
  }

  function Payload(word: string): seq<string> {
    [Digits(word)]
  }

  function Digit(words: seq<string>, id: int, k: nat): nat {
    if 0 <= id < |words| then Wrapped(Occurs(words[id], k)) else 0
  }

  function DigitTotal(words: seq<string>, k: nat, n: nat): nat {
    if n == 0 then 0 else DigitTotal(words, k, n - 1) + Digit(words, n - 1, k)
  }

  /** How often letter `k` occurs in the first `n` words. */
  function LetterTotal(words: seq<string>, k: nat, n: nat): nat
    requires n <= |words|
  {
    if n == 0 then 0 else LetterTotal(words, k, n - 1) + Occurs(words[n - 1], k)
  }

  function Seen(words: seq<string>, k: nat, taken: seq<SinkMsg<seq<string>>>, n: nat): nat {
    if n == 0 then 0
    else Seen(words, k, taken, n - 1) + if DataCount(taken, n - 1) > 0 then Digit(words, n - 1, k) else 0
  }

  lemma {:induction false} SeenMore(
    words: seq<string>, k: nat, taken: seq<SinkMsg<seq<string>>>, m: SinkMsg<seq<string>>, n: nat)
    requires m.DataMsg? ==> DataCount(taken, m.id) == 0
    ensures Seen(words, k, taken + [m], n) ==
            Seen(words, k, taken, n) + if m.DataMsg? && 0 <= m.id < n then Digit(words, m.id, k) else 0
  {
    if n > 0 {
      SeenMore(words, k, taken, m, n - 1);
      DataCountAppend(taken, [m], n - 1);
    }
  }

  lemma {:induction false} SeenNone(words: seq<string>, k: nat, n: nat)
    ensures Seen(words, k, [], n) == 0
  {
    if n > 0 {
      SeenNone(words, k, n - 1);
    }
  }

  lemma {:induction false} SeenOnce(words: seq<string>, k: nat, taken: seq<SinkMsg<seq<string>>>, n: nat)
    requires forall id :: 0 <= id < n ==> DataCount(taken, id) > 0
    ensures Seen(words, k, taken, n) == DigitTotal(words, k, n)
  {
    if n > 0 {
      SeenOnce(words, k, taken, n - 1);
    }
  }

  /** One message more: its digit is added. */
  lemma OneCallMore(counts: seq<int>, m: SinkMsg<seq<string>>, words: seq<string>, k: nat)
    requires |counts| == LETTERS && k < LETTERS && Belongs(m, words, Payload)
    ensures Apply(counts, ToCall(m))[k] == counts[k] + if m.DataMsg? then Digit(words, m.id, k) else 0
  {
    if m.DataMsg? {
      forall j | 0 <= j < LETTERS ensures IsHexDigit(m.data[0][j]) && HexValue(m.data[0][j]) == Digit(words, m.id, j) {
        DigitIsCount(words[m.id], j);
      }
    }
  }

  lemma CountsAfterMore(base: seq<Call<seq<string>>>, front: seq<SinkMsg<seq<string>>>, m: SinkMsg<seq<string>>)
    ensures CountsAfter(base + Calls(front + [m])) == Apply(CountsAfter(base + Calls(front)), ToCall(m))
  {
    var all := base + Calls(front + [m]);
    assert all[..|all| - 1] == base + Calls(front) && all[|all| - 1] == ToCall(m);
  }

  lemma FrontCounts(front: seq<SinkMsg<seq<string>>>, m: SinkMsg<seq<string>>)
    requires forall id :: DataCount(front + [m], id) <= 1
    ensures forall id :: DataCount(front, id) <= 1
    ensures m.DataMsg? ==> DataCount(front, m.id) == 0
  {
    forall id ensures DataCount(front + [m], id) == DataCount(front, id) + DataCount([m], id) {
      DataCountAppend(front, [m], id);
    }
    if m.DataMsg? {
      assert DataCount([m], m.id) == 1;
    }
  }

  lemma FrontWellTaken(front: seq<SinkMsg<seq<string>>>, m: SinkMsg<seq<string>>, words: seq<string>)
    requires WellTaken(front + [m], words, Payload)
    ensures WellTaken(front, words, Payload) && Belongs(m, words, Payload)
  {
    var taken := front + [m];
    assert taken[|front|] == m && forall i :: 0 <= i < |front| ==> front[i] == taken[i];
  }

  /** Whatever the order, the counts after part of a batch are the digits of the words seen. */
  lemma {:induction false} CountsOfTaken(
    base: seq<Call<seq<string>>>, taken: seq<SinkMsg<seq<string>>>, words: seq<string>, k: nat)
    requires k < LETTERS && WellTaken(taken, words, Payload)
    requires forall id :: DataCount(taken, id) <= 1
    ensures CountsAfter(base + Calls(taken))[k] == CountsAfter(base)[k] + Seen(words, k, taken, |words|)
  {
    if taken == [] {
      assert base + Calls(taken) == base;
      SeenNone(words, k, |words|);
    } else {
      var front, m := taken[..|taken| - 1], taken[|taken| - 1];
      assert taken == front + [m];
      FrontWellTaken(front, m, words);
      FrontCounts(front, m);
      CountsOfTaken(base, front, words, k);
      CountsAfterMore(base, front, m);
      OneCallMore(CountsAfter(base + Calls(front)), m, words, k);
      SeenMore(words, k, front, m, |words|);
    }
  }

  lemma {:induction false} DigitTotalExact(words: seq<string>, k: nat, n: nat)
    requires n <= |words|
    ensures DigitTotal(words, k, n) <= LetterTotal(words, k, n)
    ensures DigitTotal(words, k, n) == LetterTotal(words, k, n) <==>
            forall i :: 0 <= i < n ==> Occurs(words[i], k) <= 15
  {
    if n > 0 {
      DigitTotalExact(words, k, n - 1);
    }
  }

  lemma LettersOfWhole(p: Pipe<string, seq<string>>, k: nat)
    requires Inv(p, Payload) && Whole(p) && k < LETTERS
    ensures CountsAfter(p.base + Calls(p.taken))[k] == DigitTotal(p.words, k, |p.words|)
  {
    forall id ensures DataCount(p.taken, id) <= 1 {
      assert Occurrences(p, id) <= 1;
    }
    CountsOfTaken(p.base, p.taken, p.words, k);
    SeenOnce(p.words, k, p.taken, |p.words|);
  }

  lemma ReportedMore(calls: seq<Call<seq<string>>>)
    ensures Reported(calls + [ResultsCall]) == Reported(calls) + [CountsAfter(calls)]
    ensures CountsAfter(calls + [ResultsCall]) == Zeros()
  {
    assert (calls + [ResultsCall])[..|calls|] == calls;
  }

  /** The totals are handed over once for each report. */
  lemma {:induction false} OnePerReport(calls: seq<Call<seq<string>>>)
    ensures |Reported(calls)| == Reports(calls)
  {
    if calls != [] {
      OnePerReport(calls[..|calls| - 1]);
    }
  }

  lemma CountsOfWhole(p: Pipe<string, seq<string>>, k: nat)
    requires Inv(p, Payload) && Whole(p) && k < LETTERS
    ensures var n, reported := |p.words|, Reported(p.sink.calls);
            && |reported| == Reports(p.base) + 1
            && (reported[|reported| - 1][k] == LetterTotal(p.words, k, n) <==>
                  forall i :: 0 <= i < n ==> Occurs(p.words[i], k) <= 15)
            && CountsAfter(p.sink.calls)[k] == 0
  {
    LettersOfWhole(p, k);
    DigitTotalExact(p.words, k, |p.words|);
    ReportedMore(p.base + Calls(p.taken));
    OnePerReport(p.sink.calls);
    ReportsOf(p, Payload);
  }

  /**
    Letter counts end to end: in every timely run with any number of workers, totals are handed over once per
    batch. When a batch is whole those handed over last hold for a letter the number of its occurrences over all
    words of that batch if and only if no word has more than fifteen of it, and the next batch starts from zero.
    */
  lemma LetterCounts(first: seq<string>, workers: nat, events: seq<Event<string>>, k: nat)
    requires IsBatch(first) && TimelyRun(Init(first, workers), events, Payload)
    requires k < LETTERS
    requires var p := End(Init(first, workers), events, Payload);
             Whole(p) && forall w :: w in p.words ==> IsWord(w)
    ensures var p := End(Init(first, workers), events, Payload);
            var n, reported := |p.words|, Reported(p.sink.calls);
            && |reported| == Batches(events) + 1
            && (reported[|reported| - 1][k] == LetterTotal(p.words, k, n) <==>
                  forall i :: 0 <= i < n ==> Occurs(p.words[i], k) <= 15)
            && CountsAfter(p.sink.calls)[k] == 0
  {
    InitInv(first, workers, Payload);
    RunKeepsInv(Init(first, workers), events, Payload);
    CountsOfWhole(End(Init(first, workers), events, Payload), k);
  }
}
