/** The vent's and the workers' own loops, and how they fit the steps of the whole system. */
module VentWork {
  import opened Sink
  import opened Pipeline
  import opened CharFreq

  /** The numbered messages of a batch. */
  function Numbered<W>(words: seq<W>): (items: seq<Item<W>>)
    ensures |items| == |words|
  {
    seq(|words|, i requires 0 <= i < |words| => Item(i, words[i]))
  }

  class Vent<W, D> {
    var sink: seq<SinkMsg<D>>
    var sender: seq<Item<W>>
    var count: nat

    constructor ()
      ensures sink == [] && sender == [] && count == 0
    {
      sink, sender, count := [], [], 0;
    }

    /** Sends one message; after an interrupt (`shouldQuit`) it says so and does not count the message. */
    method SendOne(item: Item<W>, shouldQuit: bool) returns (ok: bool)
      modifies this`sender, this`count
      ensures sender == old(sender) + [item] && ok == !shouldQuit
      ensures count == old(count) + if shouldQuit then 0 else 1
    {
      sender := sender + [item];
      if shouldQuit {
        return false;
      }
      count := count + 1;
      return true;
    }

    /** Sends the words under ids from 0 up and returns the last id. */
    method SendAll(words: seq<W>) returns (last: int)
      modifies this`sender, this`count
      ensures sender == old(sender) + Numbered(words) && count == old(count) + |words|
      ensures last == |words| - 1
    {
      var id := 0;
      while id < |words|
        invariant 0 <= id <= |words|
        invariant sender == old(sender) + Numbered(words)[..id] && count == old(count) + id
      {
        var _ := SendOne(Item(id, words[id]), false);
        id := id + 1;
      }
      return id - 1;
    }

    method Process(words: seq<W>)
      modifies this
      ensures sink == old(sink) + [FirstMsg(0), LastMsg(|words| - 1)]
      ensures sender == old(sender) + Numbered(words) && count == old(count) + |words|
    {
      sink := sink + [FirstMsg(0)];
      var last := SendAll(words);
      sink := sink + [LastMsg(last)];
    }
  }

  /** Which worker each word goes to. */
  predicate Assigns<W>(to: seq<nat>, words: seq<W>, workers: nat) {
    |to| == |words| && forall i :: 0 <= i < |to| ==> to[i] < workers
  }

  /** The first `n` numbered words as far as they go to worker `w`. */
  function Share<W>(words: seq<W>, to: seq<nat>, w: nat, n: nat): seq<Item<W>>
    requires n <= |words| == |to|
  {
    if n == 0 then []
    else Share(words, to, w, n - 1) + if to[n - 1] == w then [Item(n - 1, words[n - 1])] else []
  }

  function Shares<W, D>(words: seq<W>, to: seq<nat>, workers: nat, n: nat): (r: seq<Worker<W, D>>)
    requires n <= |words| == |to|
    ensures |r| == workers
  {
    seq(workers, w requires 0 <= w < workers => Worker(Share(words, to, w, n), [], []))
  }

  function VentSends<W>(to: seq<nat>): seq<Event<W>> {
    if to == [] then [VentFirst] else VentSends(to[..|to| - 1]) + [VentSend(to[|to| - 1])]
  }

  lemma {:induction false} RunAppend<W, D>(p: Pipe<W, D>, a: seq<Event<W>>, e: Event<W>, work: W -> D)
    requires TimelyRun(p, a, work)
    requires Enabled(End(p, a, work), e) && Timely(End(p, a, work), e)
    ensures TimelyRun(p, a + [e], work)
    ensures End(p, a + [e], work) == Next(End(p, a, work), e, work)
    decreases |a|
  {
    if a == [] {
      assert [] + [e] == [e] && [e][1..] == [];
    } else {
      assert (a + [e])[1..] == a[1..] + [e];
      RunAppend(Next(p, a[0], work), a[1..], e, work);
    }
  }

  lemma ShareMore<W, D>(words: seq<W>, to: seq<nat>, workers: nat, n: nat)
    requires 0 < n <= |words| && Assigns(to, words, workers)
    ensures var w, before := to[n - 1], Shares<W, D>(words, to, workers, n - 1);
            Shares(words, to, workers, n) == before[w := Queued(before[w], Item(n - 1, words[n - 1]))]
  {
    var w, before, after := to[n - 1], Shares<W, D>(words, to, workers, n - 1), Shares<W, D>(words, to, workers, n);
    forall v: nat | v < workers
      ensures after[v] == before[w := Queued(before[w], Item(n - 1, words[n - 1]))][v]
    {
      assert Share(words, to, v, n) == Share(words, to, v, n - 1) + if w == v then [Item(n - 1, words[n - 1])] else [];
    }
  }

  lemma {:induction false} VentSendsRun<W, D>(words: seq<W>, workers: nat, to: seq<nat>, n: nat, work: W -> D)
    requires IsBatch(words) && Assigns(to, words, workers) && n <= |words|
    ensures TimelyRun(Init(words, workers), VentSends(to[..n]), work)
    ensures var p := End(Init(words, workers), VentSends(to[..n]), work);
            && p.words == words && p.begun && p.sent == n && !p.ended && p.toSink == [FirstMsg(0)]
            && p.workers == Shares(words, to, workers, n)
  {
    var start: Pipe<W, D> := Init(words, workers);
    if n == 0 {
      assert to[..0] == [] && VentSends<W>([])[1..] == [];
      assert TimelyRun(Next(start, VentFirst, work), VentSends<W>([])[1..], work);
      assert start.workers == Shares<W, D>(words, to, workers, 0);
    } else {
      VentSendsRun<W, D>(words, workers, to, n - 1, work);
      assert to[..n][..n - 1] == to[..n - 1];
      ShareMore<W, D>(words, to, workers, n);
      RunAppend(start, VentSends(to[..n - 1]), VentSend(to[n - 1]), work);
    }
  }

  /**
    The vent's loop is a run of the system: for any number of workers and any way of handing out the words it leaves
    in the channels just what the loop sends, each word with its number in the inbox of its worker.
    */
  lemma VentLoopIsARun<W, D>(words: seq<W>, workers: nat, to: seq<nat>, work: W -> D)
    requires IsBatch(words) && Assigns(to, words, workers)
    ensures TimelyRun(Init(words, workers), VentSends(to) + [VentLast], work)
    ensures var p := End(Init(words, workers), VentSends(to) + [VentLast], work);
            && p.toSink == [FirstMsg(0), LastMsg(|words| - 1)]
            && p.workers == Shares(words, to, workers, |words|)
  {
    VentSendsRun(words, workers, to, |words|, work);
    assert to[..|words|] == to;
    RunAppend(Init(words, workers), VentSends(to), VentLast, work);
  }

  predicate Ascending<W>(items: seq<Item<W>>) {
    forall i, j :: 0 <= i < j < |items| ==> items[i].id < items[j].id
  }

  lemma AscendingMore<W>(items: seq<Item<W>>, item: Item<W>)
    requires Ascending(items) && forall i :: 0 <= i < |items| ==> items[i].id < item.id
    ensures Ascending(items + [item])
  {
  }

  /** What goes to a worker is, in order, just those of the numbered words that are assigned to it. */
  lemma {:induction false} ShareIsSubsequence<W>(words: seq<W>, to: seq<nat>, w: nat, n: nat)
    requires n <= |words| == |to|
    ensures forall i: nat :: i < n ==> (Numbered(words)[i] in Share(words, to, w, n) <==> to[i] == w)
    ensures forall i :: 0 <= i < |Share(words, to, w, n)| ==>
              var item := Share(words, to, w, n)[i]; item.id < n && item == Numbered(words)[item.id]
    ensures Ascending(Share(words, to, w, n))
    decreases n
  {
    if n > 0 {
      ShareIsSubsequence(words, to, w, n - 1);
      var s, last := Share(words, to, w, n - 1), Item(n - 1, words[n - 1]);
      AscendingMore(s, last);
      assert (s + [last])[|s|] == last;
      assert forall item :: item in s + [last] <==> item in s || item == last;
      assert s + [] == s;
    }
  }

  // ----- a worker

  datatype WorkPoll = Job(item: Item<string>) | Control(value: int) | Nothing

  /** What a worker sends until it is told to stop or meets a word it cannot count. */
  function Replies(polls: seq<WorkPoll>): seq<SinkMsg<seq<string>>> {
    if polls == [] then []
    else match polls[0]
      case Job(item) =>
        if IsWord(item.word) then [DataMsg(item.id, Payload(item.word))] + Replies(polls[1..]) else []
      case Control(value) => if value == 0 then [] else Replies(polls[1..])
      case Nothing => Replies(polls[1..])
  }

  method Work(polls: seq<WorkPoll>) returns (sender: seq<SinkMsg<seq<string>>>)
    ensures sender == Replies(polls)
  {
    sender := [];
    var i := 0;
    while i < |polls|
      invariant 0 <= i <= |polls|
      invariant sender + Replies(polls[i..]) == Replies(polls)
    {
      assert polls[i..][1..] == polls[i + 1..];
      match polls[i] {
        case Job(item) =>
          var r := CountLetters(item.word);
          if r.LetterNotInRange? {
            return;
          }
          sender := sender + [DataMsg(item.id, [r.digits])];
        case Control(value) =>
          if value == 0 {
            return;
          }
        case Nothing =>
      }
      i := i + 1;
    }
  }

  /** A kill message, or a word with a character outside a to z. */
  predicate Halts(p: WorkPoll) {
    p == WorkPoll.Control(0) || (p.Job? && exists i :: 0 <= i < |p.item.word| && !('a' <= p.item.word[i] <= 'z'))
  }

  /** The first poll that stops the worker is number `k`, or none does and `k` is their number. */
  predicate HaltsAt(polls: seq<WorkPoll>, k: nat) {
    k <= |polls| && (forall i :: 0 <= i < k ==> !Halts(polls[i])) && (k < |polls| ==> Halts(polls[k]))
  }

  /** One message for each job, in order, with the digits of its word. */
  function Answers(polls: seq<WorkPoll>): seq<SinkMsg<seq<string>>> {
    if polls == [] then []
    else (if polls[0].Job? then [DataMsg(polls[0].item.id, [Digits(polls[0].item.word)])] else []) + Answers(polls[1..])
  }

  /**
    The worker answers every job up to the first kill message or uncountable word, and nothing from there on;
    pauses and control messages with another value make no difference.
    */
  lemma {:induction false} RepliesEndAtHalt(polls: seq<WorkPoll>, k: nat)
    requires HaltsAt(polls, k)
    ensures Replies(polls) == Answers(polls[..k])
    decreases |polls|
  {
    if k == 0 {
      assert polls[..k] == [];
    } else {
      RepliesEndAtHalt(polls[1..], k - 1);
      assert polls[..k][1..] == polls[1..][..k - 1];
      assert [] + Answers(polls[1..][..k - 1]) == Answers(polls[1..][..k - 1]);
    }
  }

  /** So up to there the worker sends, for each word, the very message that the system's step forwards. */
  lemma RepliesAreForwards(polls: seq<WorkPoll>, k: nat)
    requires HaltsAt(polls, k)
    ensures Replies(polls) == Outbox(Worker([], [], []), polls[..k])
  {
    RepliesEndAtHalt(polls, k);
    ForwardsAppend([], polls[..k]);
    assert [] + Answers(polls[..k]) == Answers(polls[..k]);
  }

  function Outbox(k: Worker<string, seq<string>>, polls: seq<WorkPoll>): seq<SinkMsg<seq<string>>>
    requires k.inbox == [] && k.held == []
    decreases |polls|
  {
    if polls == [] then k.outbox
    else if polls[0].Job? then Outbox(Forwarded(Received(Queued(k, polls[0].item)), Payload), polls[1..])
    else Outbox(k, polls[1..])
  }

  lemma {:induction false} ForwardsAppend(sent: seq<SinkMsg<seq<string>>>, polls: seq<WorkPoll>)
    ensures Outbox(Worker([], [], sent), polls) == sent + Answers(polls)
    decreases |polls|
  {
    if polls != [] {
      var rest := polls[1..];
      if polls[0].Job? {
        var item := polls[0].item;
        var m := DataMsg(item.id, Payload(item.word));
        var k: Worker<string, seq<string>> := Worker([], [], sent);
        assert Queued(k, item) == Worker([item], [], sent);
        assert Received(Queued(k, item)) == Worker([], [item], sent);
        assert Forwarded(Received(Queued(k, item)), Payload) == Worker([], [], sent + [m]);
        ForwardsAppend(sent + [m], rest);
        assert sent + Answers(polls) == (sent + [m]) + Answers(rest);
      } else {
        ForwardsAppend(sent, rest);
        assert Answers(polls) == Answers(rest);
      }
    }
  }
}
