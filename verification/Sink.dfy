/** The sink's event loop: it passes messages to its worker and decides when the results are reported. */
module Sink {
  import opened Tracking

  /** A message to the sink; `data` stands for the payload a worker computed. */
  datatype SinkMsg<+D> =
    | FirstMsg(id: int)
    | DataMsg(id: int, data: D)
    | LastMsg(id: int)
    | UnknownMsg(code: int)

  /** What one poll brings. */
  datatype Poll<+D> = Message(msg: SinkMsg<D>) | Control(value: int) | Nothing

  /** The calls the loop makes on its worker. */
  datatype Call<+D> = FirstCall(id: int) | ProcessCall(id: int, data: D) | LastCall(id: int) | ResultsCall

  datatype LoopState<+D> = LoopState(tracker: TrackerState, retries: nat, calls: seq<Call<D>>)

  datatype Verdict<+D> = Continue(state: LoopState<D>) | Return(state: LoopState<D>, ok: bool)

  const MAX_RETRIES := 5

  function Start<D>(): LoopState<D> {
    LoopState(FRESH, 0, [])
  }

  /** The loop demands that no id lies below the first one announced. */
  predicate Acceptable<D>(t: TrackerState, p: Poll<D>) {
    match p
    case Message(DataMsg(id, _)) => t.first <= id
    case Message(LastMsg(id)) => t.first <= id
    case _ => true
  }

  function ReportIfComplete<D>(s: LoopState<D>): LoopState<D> {
    if Complete(s.tracker) then s.(tracker := FRESH, calls := s.calls + [ResultsCall]) else s
  }

  /** One turn of the loop. */
  function Turn<D>(s: LoopState<D>, p: Poll<D>): Verdict<D>
    requires Acceptable(s.tracker, p)
  {
    match p
    case Message(msg) =>
      (match msg
       case FirstMsg(id) =>
         Continue(ReportIfComplete(LoopState(AfterSetFirst(s.tracker, id), 0, s.calls + [FirstCall(id)])))
       case DataMsg(id, data) =>
         Continue(ReportIfComplete(LoopState(AfterTrack(s.tracker, id), 0, s.calls + [ProcessCall(id, data)])))
       case LastMsg(id) =>
         Continue(ReportIfComplete(LoopState(AfterSetLast(s.tracker, id), 0, s.calls + [LastCall(id)])))
       case UnknownMsg(_) =>
         Return(s.(retries := 0), false))
    case Control(value) =>
      if value == 0 then Return(s, true) else Continue(s)
    case Nothing =>
      if s.retries > MAX_RETRIES then
        Continue(s.(tracker := FRESH, calls := s.calls + [ResultsCall]))
      else
        Continue(s.(retries := s.retries + 1))
  }

  /** The whole loop; running out of polls stands for the interrupt that ends it. */
  function Loop<D>(s: LoopState<D>, polls: seq<Poll<D>>): (LoopState<D>, bool)
    requires AllAcceptable(s, polls)
    decreases |polls|
  {
    if polls == [] then (s, true)
    else match Turn(s, polls[0])
      case Continue(s') => Loop(s', polls[1..])
      case Return(s', ok) => (s', ok)
  }

  predicate AllAcceptable<D>(s: LoopState<D>, polls: seq<Poll<D>>)
    decreases |polls|
  {
    polls != [] ==>
      && Acceptable(s.tracker, polls[0])
      && match Turn(s, polls[0])
         case Continue(s') => AllAcceptable(s', polls[1..])
         case Return(_, _) => true
  }

  // ----- polls that bring nothing

  function Idle<D>(n: nat): (polls: seq<Poll<D>>)
    ensures |polls| == n
  {
    seq(n, _ => Poll.Nothing)
  }

  /** How many of `n` empty polls in a row report, after `retries` counted ones: all but those that still count up. */
  function IdleReports(retries: nat, n: nat): nat
    decreases n
  {
    if retries > MAX_RETRIES then n else if n == 0 then 0 else IdleReports(retries + 1, n - 1)
  }

  /**
    Without messages, the seventh empty poll in a row reports, and so does every one after it: reporting leaves
    the counter, and only the tracker starts afresh.
    */
  lemma {:induction false} IdlePollsReport<D>(s: LoopState<D>, n: nat)
    ensures AllAcceptable(s, Idle(n))
    ensures var end := Loop(s, Idle(n)).0;
            && end.calls == s.calls + seq(IdleReports(s.retries, n), _ => ResultsCall)
            && end.tracker == (if IdleReports(s.retries, n) > 0 then FRESH else s.tracker)
            && IdleReports(s.retries, n) == (if n + s.retries <= 6 then 0
                                             else if s.retries >= 6 then n
                                             else n + s.retries - 6)
    decreases n
  {
    if n > 0 {
      var next := Turn(s, Nothing).state;
      assert Idle<D>(n)[1..] == Idle(n - 1);
      IdlePollsReport(next, n - 1);
      var more := IdleReports(next.retries, n - 1);
      assert s.retries > MAX_RETRIES ==>
          [ResultsCall] + seq(more, _ => Call<D>.ResultsCall) == seq(more + 1, _ => Call<D>.ResultsCall);
    }
  }

  // ----- where the loop ends

  /** A kill message, or a message of an unknown code. */
  predicate Stops<D>(p: Poll<D>) {
    p == Control(0) || (p.Message? && p.msg.UnknownMsg?)
  }

  /** The first poll that stops the loop is number `k`, or none does and `k` is their number. */
  predicate StopsAt<D>(polls: seq<Poll<D>>, k: nat) {
    k <= |polls| && (forall i :: 0 <= i < k ==> !Stops(polls[i])) && (k < |polls| ==> Stops(polls[k]))
  }

  function WithoutControls<D>(polls: seq<Poll<D>>): seq<Poll<D>> {
    if polls == [] then []
    else (if polls[0].Control? then [] else [polls[0]]) + WithoutControls(polls[1..])
  }

  function Tells<D>(p: Poll<D>): (calls: seq<Call<D>>)
    ensures |calls| <= 1
  {
    match p
    case Message(FirstMsg(id)) => [FirstCall(id)]
    case Message(DataMsg(id, data)) => [ProcessCall(id, data)]
    case Message(LastMsg(id)) => [LastCall(id)]
    case _ => []
  }

  /** What the worker is told about the messages polled. */
  function Told<D>(polls: seq<Poll<D>>): seq<Call<D>> {
    if polls == [] then [] else Tells(polls[0]) + Told(polls[1..])
  }

  function WithoutReports<D>(calls: seq<Call<D>>): seq<Call<D>> {
    if calls == [] then []
    else
      WithoutReports(calls[..|calls| - 1]) + if calls[|calls| - 1].ResultsCall? then [] else [calls[|calls| - 1]]
  }

  lemma WithoutReportsMore<D>(calls: seq<Call<D>>, c: Call<D>)
    ensures WithoutReports(calls + [c]) == WithoutReports(calls) + if c.ResultsCall? then [] else [c]
  {
  }

  /** A turn that goes on tells the worker about the message polled, if any, and otherwise at most asks for results. */
  lemma TurnCalls<D>(s: LoopState<D>, p: Poll<D>)
    requires Acceptable(s.tracker, p) && !Stops(p)
    ensures Turn(s, p).Continue?
    ensures var calls := Turn(s, p).state.calls;
            calls == s.calls + Tells(p) || calls == s.calls + Tells(p) + [ResultsCall]
    ensures p.Control? ==> Turn(s, p).state == s
  {
    assert s.calls + [] == s.calls;
  }

  /** Apart from asking for results, `told` is what was called between `before` and `after`. */
  ghost predicate Between<D>(before: seq<Call<D>>, told: seq<Call<D>>, after: seq<Call<D>>) {
    WithoutReports(after) == WithoutReports(before) + told
  }

  lemma BetweenNothing<D>(calls: seq<Call<D>>)
    ensures Between(calls, [], calls) && Between(calls, [], calls + [ResultsCall])
  {
    WithoutReportsMore(calls, ResultsCall);
  }

  lemma BetweenBoth<D>(a: seq<Call<D>>, x: seq<Call<D>>, b: seq<Call<D>>, y: seq<Call<D>>, c: seq<Call<D>>)
    requires Between(a, x, b) && Between(b, y, c)
    ensures Between(a, x + y, c)
  {
    assert WithoutReports(a) + x + y == WithoutReports(a) + (x + y);
  }

  lemma TellsBetween<D>(calls: seq<Call<D>>, p: Poll<D>)
    ensures Between(calls, Tells(p), calls + Tells(p))
  {
    if Tells(p) == [] {
      assert calls + Tells(p) == calls;
      BetweenNothing(calls);
    } else {
      var c := Tells(p)[0];
      assert Tells(p) == [c];
      WithoutReportsMore(calls, c);
    }
  }

  lemma TurnTells<D>(s: LoopState<D>, p: Poll<D>)
    requires Acceptable(s.tracker, p) && !Stops(p)
    ensures Between(s.calls, Tells(p), Turn(s, p).state.calls)
  {
    TurnCalls(s, p);
    TellsBetween(s.calls, p);
    var calls := s.calls + Tells(p);
    BetweenNothing(calls);
    BetweenBoth(s.calls, Tells(p), calls, [], calls + [ResultsCall]);
    assert Tells(p) + [] == Tells(p);
  }

  /** A turn that goes on, and the turns after it. */
  lemma LoopOne<D>(s: LoopState<D>, poll: Poll<D>, rest: seq<Poll<D>>)
    requires Acceptable(s.tracker, poll) && Turn(s, poll).Continue?
    ensures AllAcceptable(s, [poll] + rest) <==> AllAcceptable(Turn(s, poll).state, rest)
    ensures AllAcceptable(s, [poll] + rest) ==> Loop(s, [poll] + rest) == Loop(Turn(s, poll).state, rest)
  {
    assert ([poll] + rest)[1..] == rest;
  }

  /** From `s` the loop runs through `polls` to the end. */
  ghost predicate RunsThrough<D>(s: LoopState<D>, polls: seq<Poll<D>>, calls: seq<Call<D>>) {
    AllAcceptable(s, polls) && Loop(s, polls).1 && Loop(s, polls).0.calls == calls
  }

  /** Control messages with another value than 0 make no difference. */
  lemma {:induction false} ControlsPass<D>(s: LoopState<D>, polls: seq<Poll<D>>)
    requires AllAcceptable(s, polls) && forall i :: 0 <= i < |polls| ==> !Stops(polls[i])
    ensures RunsThrough(s, polls, Loop(s, polls).0.calls)
    ensures RunsThrough(s, WithoutControls(polls), Loop(s, polls).0.calls)
    decreases |polls|
  {
    if polls != [] {
      var p, rest := polls[0], polls[1..];
      var next := Turn(s, p).state;
      TurnCalls(s, p);
      assert polls == [p] + rest;
      LoopOne(s, p, rest);
      ControlsPass(next, rest);
      if p.Control? {
        assert WithoutControls(polls) == WithoutControls(rest);
      } else {
        LoopOne(s, p, WithoutControls(rest));
      }
    }
  }

  lemma {:induction false} LoopTells<D>(s: LoopState<D>, polls: seq<Poll<D>>)
    requires AllAcceptable(s, polls) && forall i :: 0 <= i < |polls| ==> !Stops(polls[i])
    ensures Between(s.calls, Told(polls), Loop(s, polls).0.calls)
    decreases |polls|
  {
    if polls == [] {
      BetweenNothing(s.calls);
    } else {
      var p, rest := polls[0], polls[1..];
      var next := Turn(s, p).state;
      TurnCalls(s, p);
      TurnTells(s, p);
      LoopTells(next, rest);
      BetweenBoth(s.calls, Tells(p), next.calls, Told(rest), Loop(next, rest).0.calls);
    }
  }

  lemma {:induction false} LoopEnds<D>(s: LoopState<D>, polls: seq<Poll<D>>, k: nat)
    requires AllAcceptable(s, polls) && StopsAt(polls, k)
    ensures AllAcceptable(s, polls[..k]) && Loop(s, polls).0.calls == Loop(s, polls[..k]).0.calls
    ensures Loop(s, polls).1 == (k == |polls| || polls[k] == Control(0))
    decreases |polls|
  {
    if k == 0 {
      assert polls[..k] == [];
    } else {
      var p, rest := polls[0], polls[1..];
      TurnCalls(s, p);
      LoopEnds(Turn(s, p).state, rest, k - 1);
      assert polls[..k] == [p] + rest[..k - 1];
      LoopOne(s, p, rest[..k - 1]);
    }
  }

  /**
    The loop ends at the first kill message, with the answer true, or at the first message of an unknown code, with
    the answer false, whatever follows; and with true when the polls run out. Up to there the worker is told of
    every message polled, in order, and control messages with another value make no difference at all.
    */
  lemma LoopEndsAtStop<D>(s: LoopState<D>, polls: seq<Poll<D>>, k: nat)
    requires AllAcceptable(s, polls) && StopsAt(polls, k)
    ensures var (end, ok) := Loop(s, polls);
            && ok == (k == |polls| || polls[k] == Control(0))
            && Between(s.calls, Told(polls[..k]), end.calls)
            && RunsThrough(s, WithoutControls(polls[..k]), end.calls)
  {
    LoopEnds(s, polls, k);
    LoopTells(s, polls[..k]);
    ControlsPass(s, polls[..k]);
  }

  /** The worker behind the loop, seen through the calls it receives. */
  class SinkWorker<D> {
    var calls: seq<Call<D>>

    constructor ()
      ensures calls == []
    {
      calls := [];
    }

    method First(id: int)
      modifies this
      ensures calls == old(calls) + [FirstCall(id)]
    {
      calls := calls + [FirstCall(id)];
    }

    method Process(id: int, data: D)
      modifies this
      ensures calls == old(calls) + [ProcessCall(id, data)]
    {
      calls := calls + [ProcessCall(id, data)];
    }

    method Last(id: int)
      modifies this
      ensures calls == old(calls) + [LastCall(id)]
    {
      calls := calls + [LastCall(id)];
    }

    method Results()
      modifies this
      ensures calls == old(calls) + [ResultsCall]
    {
      calls := calls + [ResultsCall];
    }
  }

  method Process<D>(worker: SinkWorker<D>, polls: seq<Poll<D>>) returns (ok: bool)
    requires worker.calls == [] && AllAcceptable(Start(), polls)
    modifies worker
    ensures var (end, verdict) := Loop(Start(), polls); worker.calls == end.calls && ok == verdict
  {
    var tracker := new MsgTracker();
    var retries := 0;
    var i := 0;
    while i < |polls|
      invariant 0 <= i <= |polls| && retries >= 0
      invariant fresh(tracker)
      invariant AllAcceptable(LoopState(tracker.View(), retries, worker.calls), polls[i..])
      invariant Loop(Start(), polls) == Loop(LoopState(tracker.View(), retries, worker.calls), polls[i..])
    {
      ghost var s := LoopState(tracker.View(), retries, worker.calls);
      var poll := polls[i];
      assert polls[i..][0] == poll && polls[i..][1..] == polls[i + 1..];
      i := i + 1;
      match poll {
        case Message(msg) =>
          retries := 0;
          match msg {
            case FirstMsg(id) =>
              worker.First(id);
              tracker.SetFirst(id);
            case DataMsg(id, data) =>
              worker.Process(id, data);
              tracker.Track(id);
            case LastMsg(id) =>
              worker.Last(id);
              tracker.SetLast(id);
            case UnknownMsg(_) =>
              return false;
          }
          var complete := tracker.IsComplete();
          if complete {
            worker.Results();
            tracker.Reset();
          }
        case Control(value) =>
          if value == 0 {
            return true;
          }
        case Nothing =>
          if retries > MAX_RETRIES {
            worker.Results();
            tracker.Reset();
          } else {
            retries := retries + 1;
          }
      }
      assert Turn(s, poll) == Continue(LoopState(tracker.View(), retries, worker.calls));
    }
    return true;
  }
}
