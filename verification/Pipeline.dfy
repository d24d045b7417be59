/** Vent, workers and sink as one system: every interleaving of their sends and receives. */
module Pipeline {
  import opened Tracking
  import opened Sink

  datatype Item<+W> = Item(id: nat, word: W)

  /** A worker: what waits for it, what it is working on, and what it has sent and the sink has not taken yet. */
  datatype Worker<+W, +D> = Worker(inbox: seq<Item<W>>, held: seq<Item<W>>, outbox: seq<SinkMsg<D>>)

  /**
    The whole system during one batch. `begun`, `sent` and `ended` say how far the vent has got; `toSink` is the
    vent's own channel to the sink. `taken` (what the sink has received of this batch) and `base` (the calls
    made on the sink's worker before this batch) only record history.
    */
  datatype Pipe<W, D> = Pipe(
    words: seq<W>, begun: bool, sent: nat, ended: bool,
    toSink: seq<SinkMsg<D>>, workers: seq<Worker<W, D>>, sink: LoopState<D>,
    taken: seq<SinkMsg<D>>, base: seq<Call<D>>)

  datatype Event<W> =
    | VentFirst
    | VentSend(w: nat)
    | VentLast
    | Receive(w: nat)
    | Forward(w: nat)
    | TakeFromVent
    | TakeFromWorker(w: nat)
    | EmptyPoll
    | NextBatch(words: seq<W>)

  predicate IsBatch<W>(words: seq<W>) {
    0 < |words| <= INT_MAX + 1
  }

  function Idle<W, D>(workers: nat): seq<Worker<W, D>> {
    seq(workers, _ => Worker([], [], []))
  }

  function Init<W, D>(words: seq<W>, workers: nat): Pipe<W, D> {
    Pipe(words, false, 0, false, [], Idle(workers), Start(), [], [])
  }

  /** Nothing is under way any more: the vent has finished and all channels are empty. */
  predicate Drained<W, D>(p: Pipe<W, D>) {
    p.ended && p.toSink == [] && forall i :: 0 <= i < |p.workers| ==> p.workers[i] == Worker([], [], [])
  }

  predicate Enabled<W, D>(p: Pipe<W, D>, e: Event<W>) {
    match e
    case VentFirst => !p.begun
    case VentSend(w) => p.begun && p.sent < |p.words| && w < |p.workers|
    case VentLast => p.begun && p.sent == |p.words| && !p.ended
    case Receive(w) => w < |p.workers| && p.workers[w].inbox != [] && p.workers[w].held == []
    case Forward(w) => w < |p.workers| && p.workers[w].held != []
    case TakeFromVent => p.toSink != [] && Acceptable(p.sink.tracker, Message(p.toSink[0]))
    case TakeFromWorker(w) =>
      w < |p.workers| && p.workers[w].outbox != [] && Acceptable(p.sink.tracker, Message(p.workers[w].outbox[0]))
    case EmptyPoll => true
    case NextBatch(words) => IsBatch(words) && Drained(p)
  }

  function Queued<W, D>(k: Worker<W, D>, item: Item<W>): Worker<W, D> {
    k.(inbox := k.inbox + [item])
  }

  function Received<W, D>(k: Worker<W, D>): Worker<W, D>
    requires k.inbox != []
  {
    k.(inbox := k.inbox[1..], held := [k.inbox[0]])
  }

  function Forwarded<W, D>(k: Worker<W, D>, work: W -> D): Worker<W, D>
    requires k.held != []
  {
    k.(held := k.held[1..], outbox := k.outbox + [DataMsg(k.held[0].id, work(k.held[0].word))])
  }

  function Relieved<W, D>(k: Worker<W, D>): Worker<W, D>
    requires k.outbox != []
  {
    k.(outbox := k.outbox[1..])
  }

  function Take<W, D>(p: Pipe<W, D>, msg: SinkMsg<D>): Pipe<W, D>
    requires Acceptable(p.sink.tracker, Message(msg))
  {
    p.(sink := Turn(p.sink, Message(msg)).state, taken := p.taken + [msg])
  }

  function Next<W, D>(p: Pipe<W, D>, e: Event<W>, work: W -> D): Pipe<W, D>
    requires Enabled(p, e)
  {
    match e
    case VentFirst =>
      p.(begun := true, toSink := p.toSink + [FirstMsg(0)])
    case VentSend(w) =>
      p.(workers := p.workers[w := Queued(p.workers[w], Item(p.sent, p.words[p.sent]))], sent := p.sent + 1)
    case VentLast =>
      p.(ended := true, toSink := p.toSink + [LastMsg(p.sent - 1)])
    case Receive(w) =>
      p.(workers := p.workers[w := Received(p.workers[w])])
    case Forward(w) =>
      p.(workers := p.workers[w := Forwarded(p.workers[w], work)])
    case TakeFromVent =>
      Take(p.(toSink := p.toSink[1..]), p.toSink[0])
    case TakeFromWorker(w) =>
      Take(p.(workers := p.workers[w := Relieved(p.workers[w])]), p.workers[w].outbox[0])
    case EmptyPoll =>
      p.(sink := Turn(p.sink, Nothing).state)
    case NextBatch(words) =>
      p.(words := words, begun := false, sent := 0, ended := false, taken := [], base := p.sink.calls)
  }

  /** The two demands on the schedule: no data before `first`, and fewer than seven empty polls in a row. */
  predicate Timely<W, D>(p: Pipe<W, D>, e: Event<W>) {
    match e
    case TakeFromWorker(_) => p.sink.tracker.first != -1
    case EmptyPoll => p.sink.retries <= MAX_RETRIES
    case _ => true
  }

  // ----- where the ids are

  function ItemCount<W>(items: seq<Item<W>>, id: int): nat {
    if items == [] then 0 else (if items[0].id == id then 1 else 0) + ItemCount(items[1..], id)
  }

  /** How many of the messages carry the data of `id`. */
  function DataCount<D>(msgs: seq<SinkMsg<D>>, id: int): nat {
    if msgs == [] then 0
    else (if msgs[0].DataMsg? && msgs[0].id == id then 1 else 0) + DataCount(msgs[1..], id)
  }

  function Load<W, D>(k: Worker<W, D>, id: int): nat {
    ItemCount(k.inbox, id) + ItemCount(k.held, id) + DataCount(k.outbox, id)
  }

  function Loads<W, D>(workers: seq<Worker<W, D>>, id: int): nat {
    if workers == [] then 0 else Load(workers[0], id) + Loads(workers[1..], id)
  }

  lemma {:induction false} ItemCountAppend<W>(a: seq<Item<W>>, b: seq<Item<W>>, id: int)
    ensures ItemCount(a + b, id) == ItemCount(a, id) + ItemCount(b, id)
  {
    if a == [] {
      assert a + b == b;
    } else {
      assert (a + b)[1..] == a[1..] + b;
      ItemCountAppend(a[1..], b, id);
    }
  }

  lemma {:induction false} DataCountAppend<D>(a: seq<SinkMsg<D>>, b: seq<SinkMsg<D>>, id: int)
    ensures DataCount(a + b, id) == DataCount(a, id) + DataCount(b, id)
  {
    if a == [] {
      assert a + b == b;
    } else {
      assert (a + b)[1..] == a[1..] + b;
      DataCountAppend(a[1..], b, id);
    }
  }

  lemma {:induction false} LoadsUpdate<W, D>(workers: seq<Worker<W, D>>, w: nat, k: Worker<W, D>, id: int)
    requires w < |workers|
    ensures Loads(workers[w := k], id) + Load(workers[w], id) == Loads(workers, id) + Load(k, id)
  {
    if w == 0 {
      assert workers[w := k][1..] == workers[1..];
    } else {
      assert workers[w := k][1..] == workers[1..][w - 1 := k];
      LoadsUpdate(workers[1..], w - 1, k, id);
    }
  }

  lemma {:induction false} LoadsZero<W, D>(workers: seq<Worker<W, D>>, id: int)
    ensures Loads(workers, id) == 0 <==> forall i :: 0 <= i < |workers| ==> Load(workers[i], id) == 0
  {
    if workers != [] {
      LoadsZero(workers[1..], id);
      assert forall i :: 1 <= i < |workers| ==> workers[i] == workers[1..][i - 1];
    }
  }

  // ----- the invariant

  function Announced<W, D>(p: Pipe<W, D>): seq<SinkMsg<D>> {
    (if p.begun then [FirstMsg(0)] else []) + (if p.ended then [LastMsg(|p.words| - 1)] else [])
  }

  /** The messages of the vent itself among `msgs`. */
  function NonData<D>(msgs: seq<SinkMsg<D>>): seq<SinkMsg<D>> {
    if msgs == [] then []
    else NonData(msgs[..|msgs| - 1]) + (if msgs[|msgs| - 1].DataMsg? then [] else [msgs[|msgs| - 1]])
  }

  function ToOp<D>(m: SinkMsg<D>): Op {
    match m
    case FirstMsg(id) => First(id)
    case DataMsg(id, _) => Track(id)
    case LastMsg(id) => Last(id)
    case UnknownMsg(code) => Last(code)
  }

  function ToCall<D>(m: SinkMsg<D>): Call<D> {
    match m
    case FirstMsg(id) => FirstCall(id)
    case DataMsg(id, data) => ProcessCall(id, data)
    case LastMsg(id) => LastCall(id)
    case UnknownMsg(_) => ResultsCall
  }

  function Ops<D>(msgs: seq<SinkMsg<D>>): (ops: seq<Op>)
    ensures |ops| == |msgs|
  {
    seq(|msgs|, i requires 0 <= i < |msgs| => ToOp(msgs[i]))
  }

  function Calls<D>(msgs: seq<SinkMsg<D>>): (calls: seq<Call<D>>)
    ensures |calls| == |msgs|
  {
    seq(|msgs|, i requires 0 <= i < |msgs| => ToCall(msgs[i]))
  }

  /** The sink has received `first`, `last` and every id of the batch. */
  ghost predicate Whole<W, D>(p: Pipe<W, D>) {
    AllTaken(p.taken, |p.words|)
  }

  ghost predicate AllTaken<D>(taken: seq<SinkMsg<D>>, n: nat) {
    && FirstMsg(0) in taken && LastMsg(n - 1) in taken
    && forall id :: 0 <= id < n ==> DataCount(taken, id) > 0
  }

  /** A message of this batch: the right ends, and results that belong to the word of that id. */
  ghost predicate Belongs<W, D>(m: SinkMsg<D>, words: seq<W>, work: W -> D) {
    match m
    case FirstMsg(id) => id == 0
    case DataMsg(id, data) => 0 <= id < |words| && data == work(words[id])
    case LastMsg(id) => id == |words| - 1
    case UnknownMsg(_) => false
  }

  /** What the sink has taken of a batch: `first` before anything else, and only messages of the batch. */
  ghost predicate WellTaken<W, D>(taken: seq<SinkMsg<D>>, words: seq<W>, work: W -> D) {
    && (forall i :: 0 <= i < |taken| ==> Belongs(taken[i], words, work))
    && (taken != [] ==> taken[0] == FirstMsg(0))
    && (forall i :: 1 <= i < |taken| ==> !taken[i].FirstMsg?)
  }

  ghost predicate WorkerInv<W, D>(k: Worker<W, D>, words: seq<W>, work: W -> D) {
    && (forall i :: 0 <= i < |k.inbox| ==> k.inbox[i].id < |words| && k.inbox[i].word == words[k.inbox[i].id])
    && (forall i :: 0 <= i < |k.held| ==> k.held[i].id < |words| && k.held[i].word == words[k.held[i].id])
    && (forall i :: 0 <= i < |k.outbox| ==> k.outbox[i].DataMsg? && Belongs(k.outbox[i], words, work))
    && |k.held| <= 1
  }

  ghost predicate WorkersInv<W, D>(workers: seq<Worker<W, D>>, words: seq<W>, work: W -> D) {
    forall i :: 0 <= i < |workers| ==> WorkerInv(workers[i], words, work)
  }

  ghost predicate VentInv<W, D>(p: Pipe<W, D>) {
    && IsBatch(p.words)
    && p.sent <= |p.words|
    && (p.sent > 0 ==> p.begun)
    && (p.ended ==> p.begun && p.sent == |p.words|)
    && Announced(p) == NonData(p.taken) + p.toSink
  }

  function Occurrences<W, D>(p: Pipe<W, D>, id: int): nat {
    Loads(p.workers, id) + DataCount(p.taken, id)
  }

  /** Ids sent are queued, held, in flight or processed, each exactly once. */
  ghost predicate Conserved<W, D>(p: Pipe<W, D>) {
    forall id :: Occurrences(p, id) == if 0 <= id < p.sent then 1 else 0
  }

  ghost predicate SinkInv<W, D>(p: Pipe<W, D>, work: W -> D) {
    && WellTaken(p.taken, p.words, work)
    && (p.base != [] ==> p.base[|p.base| - 1].ResultsCall?)
    && p.sink.tracker == (if Whole(p) then FRESH else TrackerOf(p.taken))
    && p.sink.calls == p.base + Calls(p.taken) + (if Whole(p) then [ResultsCall] else [])
  }

  ghost function TrackerOf<D>(taken: seq<SinkMsg<D>>): TrackerState {
    if Legal(FRESH, Ops(taken)) then Run(FRESH, Ops(taken)) else FRESH
  }

  ghost predicate Inv<W, D>(p: Pipe<W, D>, work: W -> D) {
    && VentInv(p)
    && Conserved(p)
    && WorkersInv(p.workers, p.words, work)
    && SinkInv(p, work)
  }

  // ----- the tracker behind a batch

  lemma {:induction false} Counted<D>(msgs: seq<SinkMsg<D>>, id: int)
    ensures DataCount(msgs, id) > 0 <==> exists i :: 0 <= i < |msgs| && msgs[i].DataMsg? && msgs[i].id == id
  {
    if msgs != [] {
      Counted(msgs[1..], id);
      if DataCount(msgs[1..], id) > 0 {
        var j :| 0 <= j < |msgs[1..]| && msgs[1..][j].DataMsg? && msgs[1..][j].id == id;
        assert msgs[j + 1] == msgs[1..][j];
      }
      if i :| 0 < i < |msgs| && msgs[i].DataMsg? && msgs[i].id == id {
        assert msgs[1..][i - 1] == msgs[i];
      }
    }
  }

  /** After any part of a batch, `first` foremost, the tracker says complete exactly when the batch is whole. */
  lemma TrackerOfTaken<W, D>(taken: seq<SinkMsg<D>>, words: seq<W>, work: W -> D)
    requires IsBatch(words) && taken != [] && WellTaken(taken, words, work)
    ensures Legal(FRESH, Ops(taken)) && Run(FRESH, Ops(taken)).first == 0
    ensures Complete(Run(FRESH, Ops(taken))) <==> AllTaken(taken, |words|)
  {
    var ops, l := Ops(taken)[1..], |words| - 1;
    assert Ops(taken) == [First(0)] + ops;
    assert forall i :: 0 <= i < |ops| ==> ops[i] == ToOp(taken[i + 1]);
    assert InOrder(ops, 0, l);
    InOrderCompletion(ops, 0, l);
    InOrderReflects(ops, 0, l);
    assert Last(l) in ops <==> LastMsg(l) in taken by {
      if LastMsg(l) in taken {
        var i :| 0 <= i < |taken| && taken[i] == LastMsg(l);
        assert ops[i - 1] == Last(l);
      }
    }
    forall id ensures id in Tracked(ops) <==> DataCount(taken, id) > 0 {
      Counted(taken, id);
      if DataCount(taken, id) > 0 {
        var i :| 0 <= i < |taken| && taken[i].DataMsg? && taken[i].id == id;
        assert ops[i - 1] == Track(id);
      }
    }
  }

  /** What taking a message does to the sink, told through the tracker's operations. */
  lemma TakeSteps<W, D>(p: Pipe<W, D>, msg: SinkMsg<D>)
    requires !msg.UnknownMsg? && CanStep(p.sink.tracker, ToOp(msg))
    ensures Acceptable(p.sink.tracker, Message(msg))
    ensures Take(p, msg).sink ==
            ReportIfComplete(LoopState(Step(p.sink.tracker, ToOp(msg)), 0, p.sink.calls + [ToCall(msg)]))
  {
  }

  lemma WellTakenMore<W, D>(p: Pipe<W, D>, msg: SinkMsg<D>, work: W -> D)
    requires WellTaken(p.taken, p.words, work)
    requires Belongs(msg, p.words, work) && (msg.FirstMsg? <==> p.taken == [])
    ensures WellTaken(p.taken + [msg], p.words, work)
    ensures Ops(p.taken + [msg]) == Ops(p.taken) + [ToOp(msg)]
    ensures Calls(p.taken + [msg]) == Calls(p.taken) + [ToCall(msg)]
  {
  }

  lemma TrackerOfMore<W, D>(p: Pipe<W, D>, msg: SinkMsg<D>, work: W -> D)
    requires IsBatch(p.words) && WellTaken(p.taken, p.words, work)
    requires Belongs(msg, p.words, work) && (msg.FirstMsg? <==> p.taken == [])
    ensures CanStep(TrackerOf(p.taken), ToOp(msg))
    ensures Step(TrackerOf(p.taken), ToOp(msg)) == TrackerOf(p.taken + [msg])
  {
    WellTakenMore(p, msg, work);
    TrackerOfTaken(p.taken + [msg], p.words, work);
    if p.taken != [] {
      TrackerOfTaken(p.taken, p.words, work);
    } else {
      assert Ops(p.taken) == [];
    }
    RunThenStep(FRESH, Ops(p.taken), ToOp(msg));
  }

  /** The sink takes one more message of the batch: it reports in this very step exactly if the batch becomes whole. */
  lemma TakeOutcome<W, D>(p: Pipe<W, D>, msg: SinkMsg<D>, work: W -> D)
    requires IsBatch(p.words) && WellTaken(p.taken, p.words, work) && p.sink.tracker == TrackerOf(p.taken)
    requires Belongs(msg, p.words, work) && (msg.FirstMsg? <==> p.taken == [])
    ensures Acceptable(p.sink.tracker, Message(msg))
    ensures var taken := p.taken + [msg];
            Take(p, msg).sink ==
            if AllTaken(taken, |p.words|) then LoopState(FRESH, 0, p.sink.calls + [ToCall(msg)] + [ResultsCall])
            else LoopState(TrackerOf(taken), 0, p.sink.calls + [ToCall(msg)])
  {
    WellTakenMore(p, msg, work);
    TrackerOfMore(p, msg, work);
    TakeSteps(p, msg);
    TrackerOfTaken(p.taken + [msg], p.words, work);
  }

  lemma TakeKeepsSinkInv<W, D>(p: Pipe<W, D>, msg: SinkMsg<D>, work: W -> D)
    requires IsBatch(p.words) && SinkInv(p, work) && !Whole(p)
    requires Belongs(msg, p.words, work) && (msg.FirstMsg? <==> p.taken == [])
    ensures Acceptable(p.sink.tracker, Message(msg))
    ensures SinkInv(Take(p, msg), work)
  {
    TakeOutcome(p, msg, work);
    WellTakenMore(p, msg, work);
    var calls := p.sink.calls + [ToCall(msg)];
    assert calls == p.base + Calls(p.taken + [msg]);
    assert calls + [] == calls;
  }

  // ----- every step keeps the invariant

  lemma InitInv<W, D>(words: seq<W>, workers: nat, work: W -> D)
    requires IsBatch(words)
    ensures Inv(Init(words, workers), work)
  {
    var p: Pipe<W, D> := Init(words, workers);
    IdleIsEmpty<W, D>(workers);
    assert VentInv(p) && WorkersInv(p.workers, p.words, work);
    assert Conserved(p);
    NothingTaken(p, work);
  }

  /** A batch of which the sink has taken nothing yet, and the report of the batch before. */
  lemma NothingTaken<W, D>(p: Pipe<W, D>, work: W -> D)
    requires p.taken == [] && p.sink.tracker == FRESH && p.sink.calls == p.base
    requires p.base != [] ==> p.base[|p.base| - 1].ResultsCall?
    ensures SinkInv(p, work)
  {
    assert Ops(p.taken) == [] && Calls(p.taken) == [];
    assert TrackerOf(p.taken) == FRESH && !Whole(p);
    assert p.base + Calls(p.taken) + [] == p.base;
  }

  lemma IdleIsEmpty<W, D>(workers: nat)
    ensures forall id :: Loads(Idle<W, D>(workers), id) == 0
  {
    forall id ensures Loads(Idle<W, D>(workers), id) == 0 {
      LoadsZero(Idle<W, D>(workers), id);
    }
  }

  lemma {:induction false} NonDataMembers<D>(msgs: seq<SinkMsg<D>>)
    ensures forall i :: 0 <= i < |msgs| && !msgs[i].DataMsg? ==> msgs[i] in NonData(msgs)
    ensures forall m :: m in NonData(msgs) ==> m in msgs && !m.DataMsg?
  {
    if msgs != [] {
      NonDataMembers(msgs[..|msgs| - 1]);
    }
  }

  lemma NonDataAppend<D>(msgs: seq<SinkMsg<D>>, m: SinkMsg<D>)
    ensures NonData(msgs + [m]) == NonData(msgs) + (if m.DataMsg? then [] else [m])
  {
  }

  lemma {:induction false} DataCountZero<D>(msgs: seq<SinkMsg<D>>, i: nat)
    requires i < |msgs| && msgs[i].DataMsg?
    ensures DataCount(msgs, msgs[i].id) > 0
  {
    Counted(msgs, msgs[i].id);
  }

  /** While a worker still holds something back for the sink, the batch is not whole. */
  lemma NotWholeWhileInOutbox<W, D>(p: Pipe<W, D>, w: nat, work: W -> D)
    requires Inv(p, work) && w < |p.workers| && p.workers[w].outbox != []
    ensures !Whole(p)
  {
    var id := p.workers[w].outbox[0].id;
    DataCountZero(p.workers[w].outbox, 0);
    LoadsZero(p.workers, id);
    assert Load(p.workers[w], id) > 0;
    assert Occurrences(p, id) <= 1;
  }

  /** What the vent has still to be heard of: its next message is `first` exactly when nothing was taken yet. */
  lemma NextFromVent<W, D>(p: Pipe<W, D>, work: W -> D)
    requires Inv(p, work) && p.toSink != []
    ensures !Whole(p)
    ensures Belongs(p.toSink[0], p.words, work) && !p.toSink[0].DataMsg?
    ensures p.toSink[0].FirstMsg? <==> p.taken == []
  {
    NonDataMembers(p.taken);
    var heard := NonData(p.taken);
    assert p.toSink[0] == Announced(p)[|heard|];
    assert |heard| <= 1;
    if p.taken != [] {
      assert p.taken[0] in heard;
      assert heard[0] == FirstMsg(0);
    } else {
      assert heard == [];
    }
  }

  /** Once everything has drained, the batch is whole: no interleaving loses a message. */
  lemma DrainedIsWhole<W, D>(p: Pipe<W, D>, work: W -> D)
    requires Inv(p, work) && Drained(p)
    ensures Whole(p)
  {
    NonDataMembers(p.taken);
    assert NonData(p.taken) == Announced(p) == [FirstMsg(0), LastMsg(|p.words| - 1)];
    assert NonData(p.taken)[0] in p.taken && NonData(p.taken)[1] in p.taken;
    forall id | 0 <= id < |p.words| ensures DataCount(p.taken, id) > 0 {
      LoadsZero(p.workers, id);
      assert Occurrences(p, id) == 1;
    }
  }

  lemma QueuedKeeps<W, D>(k: Worker<W, D>, item: Item<W>, words: seq<W>, work: W -> D)
    requires WorkerInv(k, words, work) && item.id < |words| && item.word == words[item.id]
    ensures WorkerInv(Queued(k, item), words, work)
    ensures forall id :: Load(Queued(k, item), id) == Load(k, id) + if id == item.id then 1 else 0
  {
    forall id ensures Load(Queued(k, item), id) == Load(k, id) + if id == item.id then 1 else 0 {
      ItemCountAppend(k.inbox, [item], id);
    }
  }

  lemma ReceivedKeeps<W, D>(k: Worker<W, D>, words: seq<W>, work: W -> D)
    requires WorkerInv(k, words, work) && k.inbox != [] && k.held == []
    ensures WorkerInv(Received(k), words, work)
    ensures forall id :: Load(Received(k), id) == Load(k, id)
  {
    assert [k.inbox[0]][1..] == [];
  }

  lemma ForwardedKeeps<W, D>(k: Worker<W, D>, words: seq<W>, work: W -> D)
    requires WorkerInv(k, words, work) && k.held != []
    ensures WorkerInv(Forwarded(k, work), words, work)
    ensures forall id :: Load(Forwarded(k, work), id) == Load(k, id)
  {
    var msg := DataMsg(k.held[0].id, work(k.held[0].word));
    forall id ensures Load(Forwarded(k, work), id) == Load(k, id) {
      DataCountAppend(k.outbox, [msg], id);
    }
  }

  lemma RelievedKeeps<W, D>(k: Worker<W, D>, words: seq<W>, work: W -> D)
    requires WorkerInv(k, words, work) && k.outbox != []
    ensures WorkerInv(Relieved(k), words, work)
    ensures forall id :: Load(k, id) == Load(Relieved(k), id) + if id == k.outbox[0].id then 1 else 0
  {
  }

  lemma VentKeepsInv<W, D>(p: Pipe<W, D>, e: Event<W>, work: W -> D)
    requires Inv(p, work) && Enabled(p, e) && (e.VentFirst? || e.VentLast?)
    ensures Inv(Next(p, e, work), work)
  {
    var q := Next(p, e, work);
    assert Announced(q) == Announced(p) + [if e.VentFirst? then FirstMsg(0) else LastMsg(|p.words| - 1)];
    assert forall id :: Occurrences(q, id) == Occurrences(p, id);
  }

  lemma VentSendKeepsInv<W, D>(p: Pipe<W, D>, w: nat, work: W -> D)
    requires Inv(p, work) && Enabled(p, VentSend(w))
    ensures Inv(Next(p, VentSend(w), work), work)
  {
    var q := Next(p, VentSend(w), work);
    QueuedKeeps(p.workers[w], Item(p.sent, p.words[p.sent]), p.words, work);
    assert Announced(q) == Announced(p);
    forall id ensures Occurrences(q, id) == Occurrences(p, id) + if id == p.sent then 1 else 0 {
      LoadsUpdate(p.workers, w, q.workers[w], id);
    }
  }

  lemma WorkerKeepsInv<W, D>(p: Pipe<W, D>, e: Event<W>, work: W -> D)
    requires Inv(p, work) && Enabled(p, e) && (e.Receive? || e.Forward?)
    ensures Inv(Next(p, e, work), work)
  {
    WorkerKeepsFlow(p, e, work);
  }

  lemma WorkerKeepsFlow<W, D>(p: Pipe<W, D>, e: Event<W>, work: W -> D)
    requires VentInv(p) && Conserved(p) && WorkersInv(p.workers, p.words, work)
    requires Enabled(p, e) && (e.Receive? || e.Forward?)
    ensures var q := Next(p, e, work); VentInv(q) && Conserved(q) && WorkersInv(q.workers, q.words, work)
  {
    var q := Next(p, e, work);
    if e.Receive? {
      ReceivedKeeps(p.workers[e.w], p.words, work);
    } else {
      ForwardedKeeps(p.workers[e.w], p.words, work);
    }
    WorkersUpdate(p.workers, e.w, q.workers[e.w], p.words, work);
    assert Announced(q) == Announced(p);
    forall id ensures Occurrences(q, id) == Occurrences(p, id) {
      LoadsUpdate(p.workers, e.w, q.workers[e.w], id);
    }
  }

  lemma AnnouncedMoves<D>(taken: seq<SinkMsg<D>>, msg: SinkMsg<D>, rest: seq<SinkMsg<D>>)
    requires !msg.DataMsg?
    ensures NonData(taken + [msg]) + rest == NonData(taken) + ([msg] + rest)
  {
    NonDataAppend(taken, msg);
  }

  lemma VentMessageConserved<W, D>(p: Pipe<W, D>, q: Pipe<W, D>, msg: SinkMsg<D>)
    requires Conserved(p) && !msg.DataMsg?
    requires q.workers == p.workers && q.taken == p.taken + [msg] && q.sent == p.sent
    ensures Conserved(q)
  {
    forall id ensures Occurrences(q, id) == Occurrences(p, id) {
      DataCountAppend(p.taken, [msg], id);
    }
  }

  /** Apart from the sink, taking a message only moves it from its channel to what was taken. */
  lemma VentMessageMoves<W, D>(p: Pipe<W, D>, q: Pipe<W, D>, msg: SinkMsg<D>)
    requires VentInv(p) && Conserved(p)
    requires q.(sink := p.sink) == p.(taken := p.taken + [msg], toSink := q.toSink)
    requires p.toSink == [msg] + q.toSink && !msg.DataMsg?
    ensures VentInv(q) && Conserved(q)
  {
    VentMessageConserved(p, q, msg);
    AnnouncedMoves(p.taken, msg, q.toSink);
    assert Announced(q) == Announced(p);
  }

  lemma WorkersUpdate<W, D>(workers: seq<Worker<W, D>>, w: nat, k: Worker<W, D>, words: seq<W>, work: W -> D)
    requires WorkersInv(workers, words, work) && w < |workers| && WorkerInv(k, words, work)
    ensures WorkersInv(workers[w := k], words, work)
  {
  }

  lemma DataKeepsVentInv<W, D>(p: Pipe<W, D>, q: Pipe<W, D>, msg: SinkMsg<D>)
    requires VentInv(p) && msg.DataMsg?
    requires q.(sink := p.sink, workers := p.workers) == p.(taken := p.taken + [msg])
    ensures VentInv(q)
  {
    NonDataAppend(p.taken, msg);
    assert Announced(q) == Announced(p);
  }

  lemma WorkerMessageMoves<W, D>(p: Pipe<W, D>, q: Pipe<W, D>, w: nat, work: W -> D)
    requires VentInv(p) && Conserved(p) && WorkersInv(p.workers, p.words, work)
    requires w < |p.workers| && p.workers[w].outbox != []
    requires q.(sink := p.sink) ==
             p.(taken := p.taken + [p.workers[w].outbox[0]], workers := p.workers[w := Relieved(p.workers[w])])
    ensures VentInv(q) && Conserved(q) && WorkersInv(q.workers, q.words, work)
  {
    var msg := p.workers[w].outbox[0];
    DataKeepsVentInv(p, q, msg);
    RelievedKeeps(p.workers[w], p.words, work);
    WorkersUpdate(p.workers, w, Relieved(p.workers[w]), p.words, work);
    forall id ensures Occurrences(q, id) == Occurrences(p, id) {
      DataCountAppend(p.taken, [msg], id);
      LoadsUpdate(p.workers, w, q.workers[w], id);
    }
  }

  lemma TakeFromVentKeepsInv<W, D>(p: Pipe<W, D>, work: W -> D)
    requires Inv(p, work) && Enabled(p, TakeFromVent)
    ensures Inv(Next(p, TakeFromVent, work), work)
  {
    NextFromVent(p, work);
    TakeKeepsSinkInv(p.(toSink := p.toSink[1..]), p.toSink[0], work);
    VentMessageMoves(p, Next(p, TakeFromVent, work), p.toSink[0]);
  }

  lemma TakeFromWorkerKeepsInv<W, D>(p: Pipe<W, D>, w: nat, work: W -> D)
    requires Inv(p, work) && Enabled(p, TakeFromWorker(w)) && Timely(p, TakeFromWorker(w))
    ensures Inv(Next(p, TakeFromWorker(w), work), work)
  {
    NotWholeWhileInOutbox(p, w, work);
    assert Ops<D>([]) == [];
    var msg := p.workers[w].outbox[0];
    TakeKeepsSinkInv(p.(workers := p.workers[w := Relieved(p.workers[w])]), msg, work);
    WorkerMessageMoves(p, Next(p, TakeFromWorker(w), work), w, work);
  }

  lemma NextBatchKeepsInv<W, D>(p: Pipe<W, D>, words: seq<W>, work: W -> D)
    requires Inv(p, work) && Enabled(p, NextBatch(words))
    ensures Inv(Next(p, NextBatch(words), work), work)
  {
    var q := Next(p, NextBatch(words), work);
    DrainedIsWhole(p, work);
    assert Ops(q.taken) == [] && Calls(q.taken) == [];
    forall id ensures Loads(q.workers, id) == 0 {
      LoadsZero(q.workers, id);
    }
  }

  lemma CountingKeepsFlow<W, D>(p: Pipe<W, D>, sink: LoopState<D>, work: W -> D)
    requires VentInv(p) && Conserved(p) && WorkersInv(p.workers, p.words, work)
    ensures var q := p.(sink := sink); VentInv(q) && Conserved(q) && WorkersInv(q.workers, q.words, work)
  {
    var q := p.(sink := sink);
    assert Announced(q) == Announced(p);
    forall id ensures Occurrences(q, id) == Occurrences(p, id) {
    }
  }

  lemma CountingKeepsSinkInv<W, D>(p: Pipe<W, D>, retries: nat, work: W -> D)
    requires SinkInv(p, work)
    ensures SinkInv(p.(sink := p.sink.(retries := retries)), work)
  {
    assert Whole(p.(sink := p.sink.(retries := retries))) <==> Whole(p);
  }

  lemma EmptyPollKeepsInv<W, D>(p: Pipe<W, D>, work: W -> D)
    requires Inv(p, work) && Timely(p, EmptyPoll)
    ensures Inv(Next(p, EmptyPoll, work), work)
  {
    var sink := p.sink.(retries := p.sink.retries + 1);
    assert Next(p, EmptyPoll, work) == p.(sink := sink);
    CountingKeepsFlow(p, sink, work);
    CountingKeepsSinkInv(p, p.sink.retries + 1, work);
  }

  lemma StepKeepsInv<W, D>(p: Pipe<W, D>, e: Event<W>, work: W -> D)
    requires Inv(p, work) && Enabled(p, e) && Timely(p, e)
    ensures Inv(Next(p, e, work), work)
  {
    match e {
      case VentFirst => VentKeepsInv(p, e, work);
      case VentSend(w) => VentSendKeepsInv(p, w, work);
      case VentLast => VentKeepsInv(p, e, work);
      case Receive(_) => WorkerKeepsInv(p, e, work);
      case Forward(_) => WorkerKeepsInv(p, e, work);
      case TakeFromVent => TakeFromVentKeepsInv(p, work);
      case TakeFromWorker(w) => TakeFromWorkerKeepsInv(p, w, work);
      case EmptyPoll => EmptyPollKeepsInv(p, work);
      case NextBatch(words) => NextBatchKeepsInv(p, words, work);
    }
  }

  // ----- when the results are reported

  function Reports<D>(calls: seq<Call<D>>): nat {
    if calls == [] then 0
    else Reports(calls[..|calls| - 1]) + (if calls[|calls| - 1].ResultsCall? then 1 else 0)
  }

  lemma {:induction false} ReportsAppend<D>(a: seq<Call<D>>, b: seq<Call<D>>)
    ensures Reports(a + b) == Reports(a) + Reports(b)
  {
    if b == [] {
      assert a + b == a;
    } else {
      assert (a + b)[..|a + b| - 1] == a + b[..|b| - 1];
      ReportsAppend(a, b[..|b| - 1]);
    }
  }

  lemma {:induction false} NoReportsInside<W, D>(taken: seq<SinkMsg<D>>, words: seq<W>, work: W -> D)
    requires WellTaken(taken, words, work)
    ensures Reports(Calls(taken)) == 0
  {
    if taken != [] {
      var front := taken[..|taken| - 1];
      assert Calls(taken)[..|taken| - 1] == Calls(front);
      assert Belongs(taken[|taken| - 1], words, work);
      NoReportsInside(front, words, work);
    }
  }

  /** The number of reports so far: one for each batch before, and one for this batch if it is whole. */
  lemma ReportsOf<W, D>(p: Pipe<W, D>, work: W -> D)
    requires Inv(p, work)
    ensures Reports(p.sink.calls) == Reports(p.base) + if Whole(p) then 1 else 0
  {
    NoReportsInside(p.taken, p.words, work);
    ReportsAppend(p.base, Calls(p.taken));
    var last: seq<Call<D>> := if Whole(p) then [ResultsCall] else [];
    ReportsAppend(p.base + Calls(p.taken), last);
    assert Whole(p) ==> last[..0] == [];
  }

  /** The step makes the sink report. */
  ghost predicate ReportsIn<W, D>(p: Pipe<W, D>, e: Event<W>, work: W -> D)
    requires Enabled(p, e)
  {
    Reports(Next(p, e, work).sink.calls) > Reports(p.sink.calls)
  }

  /** The step brings the last missing message of the batch. */
  ghost predicate CompletesIn<W, D>(p: Pipe<W, D>, e: Event<W>, work: W -> D)
    requires Enabled(p, e)
  {
    !Whole(p) && Whole(Next(p, e, work))
  }

  lemma UntimelyReports<W, D>(p: Pipe<W, D>, e: Event<W>, work: W -> D)
    requires Inv(p, work) && Enabled(p, e) && !Timely(p, e)
    ensures ReportsIn(p, e, work) && !CompletesIn(p, e, work)
  {
    var q := Next(p, e, work);
    match e {
      case TakeFromWorker(w) =>
        NotWholeWhileInOutbox(p, w, work);
        if p.taken != [] {
          TrackerOfTaken(p.taken, p.words, work);
          assert false;
        }
        assert Ops<D>([]) == [];
        var msg := p.workers[w].outbox[0];
        assert q.taken == [msg];
        assert q.sink.calls == p.sink.calls + [ProcessCall(msg.id, msg.data), ResultsCall];
        ReportsAppend(p.sink.calls, [ProcessCall(msg.id, msg.data), ResultsCall]);
        assert [ProcessCall(msg.id, msg.data), ResultsCall][..1] == [ProcessCall(msg.id, msg.data)];
      case EmptyPoll =>
        ReportsAppend(p.sink.calls, [ResultsCall]);
    }
  }

  /**
    In every state of a timely run, the next step reports exactly when it completes the batch if and only if
    that step is itself timely. So each demand on the schedule is needed: data taken before `first` is reported
    at once, and so is the seventh empty poll in a row.
    */
  lemma ReportsExactlyWhenTimely<W, D>(p: Pipe<W, D>, e: Event<W>, work: W -> D)
    requires Inv(p, work) && Enabled(p, e)
    ensures Timely(p, e) <==> (ReportsIn(p, e, work) <==> CompletesIn(p, e, work))
  {
    if Timely(p, e) {
      StepKeepsInv(p, e, work);
      var q := Next(p, e, work);
      ReportsOf(p, work);
      ReportsOf(q, work);
      if Whole(p) && !e.NextBatch? {
        WholeStays(p, e, work);
      }
    } else {
      UntimelyReports(p, e, work);
    }
  }

  lemma WholeStays<W, D>(p: Pipe<W, D>, e: Event<W>, work: W -> D)
    requires Inv(p, work) && Enabled(p, e) && Whole(p) && !e.NextBatch?
    ensures Next(p, e, work).taken == p.taken && Next(p, e, work).base == p.base
  {
    match e {
      case TakeFromVent => NextFromVent(p, work);
      case TakeFromWorker(w) => NotWholeWhileInOutbox(p, w, work);
      case _ =>
    }
  }

  /** A run from a state, each step enabled and timely. */
  ghost predicate TimelyRun<W, D>(p: Pipe<W, D>, events: seq<Event<W>>, work: W -> D)
    decreases |events|
  {
    events != [] ==>
      Enabled(p, events[0]) && Timely(p, events[0]) && TimelyRun(Next(p, events[0], work), events[1..], work)
  }

  function End<W, D>(p: Pipe<W, D>, events: seq<Event<W>>, work: W -> D): Pipe<W, D>
    requires TimelyRun(p, events, work)
    decreases |events|
  {
    if events == [] then p else End(Next(p, events[0], work), events[1..], work)
  }

  function Batches<W>(events: seq<Event<W>>): nat {
    if events == [] then 0 else (if events[0].NextBatch? then 1 else 0) + Batches(events[1..])
  }

  lemma {:induction false} RunKeepsInv<W, D>(p: Pipe<W, D>, events: seq<Event<W>>, work: W -> D)
    requires Inv(p, work) && TimelyRun(p, events, work)
    ensures Inv(End(p, events, work), work)
    ensures Reports(End(p, events, work).base) == Reports(p.base) + Batches(events)
    decreases |events|
  {
    if events != [] {
      StepKeepsInv(p, events[0], work);
      if events[0].NextBatch? {
        DrainedIsWhole(p, work);
        ReportsOf(p, work);
      }
      RunKeepsInv(Next(p, events[0], work), events[1..], work);
    }
  }

  // ----- the system can always go on, and comes to an end

  /** A step by which vent, worker or sink gets on with the batch. */
  predicate Works<W>(e: Event<W>) {
    !e.EmptyPoll? && !e.NextBatch?
  }

  function WorkerStepsLeft<W, D>(k: Worker<W, D>): nat {
    3 * |k.inbox| + 2 * |k.held| + |k.outbox|
  }

  function WorkersStepsLeft<W, D>(workers: seq<Worker<W, D>>): nat {
    if workers == [] then 0 else WorkerStepsLeft(workers[0]) + WorkersStepsLeft(workers[1..])
  }

  /** How many steps are left until the batch has drained: four for each word, and two for each end. */
  function StepsLeft<W, D>(p: Pipe<W, D>): nat
    requires p.sent <= |p.words|
  {
    (if p.begun then 0 else 2) + (if p.ended then 0 else 2) + 4 * (|p.words| - p.sent)
      + |p.toSink| + WorkersStepsLeft(p.workers)
  }

  lemma {:induction false} StepsLeftUpdate<W, D>(workers: seq<Worker<W, D>>, w: nat, k: Worker<W, D>)
    requires w < |workers|
    ensures WorkersStepsLeft(workers[w := k]) + WorkerStepsLeft(workers[w]) ==
            WorkersStepsLeft(workers) + WorkerStepsLeft(k)
  {
    if w == 0 {
      assert workers[w := k][1..] == workers[1..];
    } else {
      assert workers[w := k][1..] == workers[1..][w - 1 := k];
      StepsLeftUpdate(workers[1..], w - 1, k);
    }
  }

  lemma {:induction false} NoStepsLeft<W, D>(workers: seq<Worker<W, D>>)
    ensures WorkersStepsLeft(workers) == 0 <==> forall i :: 0 <= i < |workers| ==> workers[i] == Worker([], [], [])
  {
    if workers != [] {
      NoStepsLeft(workers[1..]);
      assert forall i :: 1 <= i < |workers| ==> workers[i] == workers[1..][i - 1];
    }
  }

  /** A batch has drained exactly when no step is left. */
  lemma DrainedExactly<W, D>(p: Pipe<W, D>, work: W -> D)
    requires Inv(p, work)
    ensures Drained(p) <==> StepsLeft(p) == 0
  {
    NoStepsLeft(p.workers);
  }

  /** Whoever takes a step, one step fewer is left. */
  lemma StepsFall<W, D>(p: Pipe<W, D>, e: Event<W>, work: W -> D)
    requires Inv(p, work) && Enabled(p, e)
    ensures Works(e) ==> StepsLeft(Next(p, e, work)) == StepsLeft(p) - 1
    ensures e.EmptyPoll? ==> StepsLeft(Next(p, e, work)) == StepsLeft(p)
  {
    var q := Next(p, e, work);
    if e.VentSend? || e.Receive? || e.Forward? || e.TakeFromWorker? {
      StepsLeftUpdate(p.workers, e.w, q.workers[e.w]);
    }
  }

  /** What waits to be taken can be taken in time, once the vent's own messages are out of the way. */
  lemma OutboxCanBeTaken<W, D>(p: Pipe<W, D>, w: nat, work: W -> D)
    requires Inv(p, work) && p.begun && p.toSink == [] && w < |p.workers| && p.workers[w].outbox != []
    ensures Enabled(p, TakeFromWorker(w)) && Timely(p, TakeFromWorker(w))
  {
    NonDataMembers(p.taken);
    assert NonData(p.taken) == Announced(p) && Announced(p)[0] == FirstMsg(0);
    NotWholeWhileInOutbox(p, w, work);
    TrackerOfTaken(p.taken, p.words, work);
    TakeOutcome(p, p.workers[w].outbox[0], work);
  }

  /** The step that some part of the system can take next. */
  lemma Progress<W, D>(p: Pipe<W, D>, work: W -> D) returns (e: Event<W>)
    requires Inv(p, work) && p.workers != [] && !Drained(p)
    ensures Works(e) && Enabled(p, e) && Timely(p, e)
  {
    if p.toSink != [] {
      NextFromVent(p, work);
      TakeOutcome(p, p.toSink[0], work);
      e := TakeFromVent;
    } else if !p.begun {
      e := VentFirst;
    } else if p.sent < |p.words| {
      e := VentSend(0);
    } else if !p.ended {
      e := VentLast;
    } else {
      var w: nat :| w < |p.workers| && p.workers[w] != Worker([], [], []);
      if p.workers[w].held != [] {
        e := Forward(w);
      } else if p.workers[w].inbox != [] {
        e := Receive(w);
      } else {
        OutboxCanBeTaken(p, w, work);
        e := TakeFromWorker(w);
      }
    }
  }

  /** A timely run that drains the batch. */
  ghost predicate Drains<W, D>(p: Pipe<W, D>, events: seq<Event<W>>, work: W -> D) {
    TimelyRun(p, events, work) && Inv(End(p, events, work), work) && Drained(End(p, events, work))
  }

  lemma DrainsLater<W, D>(p: Pipe<W, D>, e: Event<W>, rest: seq<Event<W>>, work: W -> D)
    requires Enabled(p, e) && Timely(p, e) && Drains(Next(p, e, work), rest, work)
    ensures Drains(p, [e] + rest, work)
  {
    assert ([e] + rest)[1..] == rest;
    assert End(p, [e] + rest, work) == End(Next(p, e, work), rest, work);
  }

  lemma StepTowardsEnd<W, D>(p: Pipe<W, D>, work: W -> D) returns (e: Event<W>, q: Pipe<W, D>)
    requires Inv(p, work) && p.workers != [] && !Drained(p)
    ensures Enabled(p, e) && Timely(p, e) && q == Next(p, e, work)
    ensures Inv(q, work) && q.workers != [] && StepsLeft(q) == StepsLeft(p) - 1
  {
    e := Progress(p, work);
    q := Next(p, e, work);
    StepKeepsInv(p, e, work);
    StepsFall(p, e, work);
  }

  lemma {:induction false} CanDrain<W, D>(p: Pipe<W, D>, work: W -> D) returns (events: seq<Event<W>>)
    requires Inv(p, work) && p.workers != []
    ensures |events| == StepsLeft(p) && Drains(p, events, work)
    decreases StepsLeft(p)
  {
    DrainedExactly(p, work);
    if Drained(p) {
      events := [];
      assert End(p, [], work) == p;
    } else {
      var e, q := StepTowardsEnd(p, work);
      var rest := CanDrain(q, work);
      DrainsLater(p, e, rest, work);
      events := [e] + rest;
    }
  }

  /**
    No state of a timely run is a dead end: with at least one worker, as many steps as are left lead to the batch
    being whole, all of it drained.
    */
  lemma CanFinish<W, D>(p: Pipe<W, D>, work: W -> D) returns (events: seq<Event<W>>)
    requires Inv(p, work) && p.workers != []
    ensures |events| == StepsLeft(p) && TimelyRun(p, events, work)
    ensures Drained(End(p, events, work)) && Whole(End(p, events, work))
  {
    events := CanDrain(p, work);
    DrainedIsWhole(End(p, events, work), work);
  }

  function WorkSteps<W>(events: seq<Event<W>>): nat {
    if events == [] then 0 else (if Works(events[0]) then 1 else 0) + WorkSteps(events[1..])
  }

  /**
    And no run of one batch is longer than that, but for empty polls: with the steps taken, the steps still left are
    those that were left at the start.
    */
  lemma {:induction false} RunUsesUpSteps<W, D>(p: Pipe<W, D>, events: seq<Event<W>>, work: W -> D)
    requires Inv(p, work) && TimelyRun(p, events, work) && Batches(events) == 0
    ensures Inv(End(p, events, work), work)
    ensures WorkSteps(events) + StepsLeft(End(p, events, work)) == StepsLeft(p)
    decreases |events|
  {
    if events != [] {
      StepKeepsInv(p, events[0], work);
      StepsFall(p, events[0], work);
      RunUsesUpSteps(Next(p, events[0], work), events[1..], work);
    }
  }

  /** What holds of the system at every moment of a timely run. */
  ghost predicate Sound<W, D>(p: Pipe<W, D>, batches: nat, work: W -> D) {
    // Ids sent are queued, held, in flight or processed, each exactly once.
    && (forall id :: Occurrences(p, id) == if 0 <= id < p.sent then 1 else 0)
    // The results were reported once per earlier batch, and once more exactly if all of this batch has arrived.
    && Reports(p.sink.calls) == batches + (if Whole(p) then 1 else 0)
    // A batch that has drained from all channels has arrived in full.
    && (Drained(p) ==> Whole(p))
    // The worker behind the sink was shown this batch, no more and no less, before its results were asked for.
    && WellTaken(p.taken, p.words, work)
    && p.sink.calls == p.base + Calls(p.taken) + (if Whole(p) then [ResultsCall] else [])
  }

  lemma InvIsSound<W, D>(p: Pipe<W, D>, work: W -> D)
    requires Inv(p, work)
    ensures Sound(p, Reports(p.base), work)
  {
    ReportsOf(p, work);
    if Drained(p) {
      DrainedIsWhole(p, work);
    }
  }

  /** End to end, for any number of workers, any number of batches and any timely interleaving. */
  lemma EndToEnd<W, D>(words: seq<W>, workers: nat, events: seq<Event<W>>, work: W -> D)
    requires IsBatch(words) && TimelyRun(Init(words, workers), events, work)
    ensures Sound(End(Init(words, workers), events, work), Batches(events), work)
  {
    InitInv(words, workers, work);
    RunKeepsInv(Init(words, workers), events, work);
    InvIsSound(End(Init(words, workers), events, work), work);
  }

  // ----- the sink's own loop

  /** What a step lets the sink's loop see. */
  function PollsOf<W, D>(p: Pipe<W, D>, e: Event<W>): seq<Poll<D>>
    requires Enabled(p, e)
  {
    match e
    case TakeFromVent => [Message(p.toSink[0])]
    case TakeFromWorker(w) => [Message(p.workers[w].outbox[0])]
    case EmptyPoll => [Nothing]
    case _ => []
  }

  ghost function Polls<W, D>(p: Pipe<W, D>, events: seq<Event<W>>, work: W -> D): seq<Poll<D>>
    requires TimelyRun(p, events, work)
    decreases |events|
  {
    if events == [] then [] else PollsOf(p, events[0]) + Polls(Next(p, events[0], work), events[1..], work)
  }

  /** One step: the sink's loop sees one poll and takes the turn the system takes, or sees nothing. */
  lemma StepIsATurn<W, D>(p: Pipe<W, D>, e: Event<W>, work: W -> D)
    requires Inv(p, work) && Enabled(p, e)
    ensures var polls, after := PollsOf(p, e), Next(p, e, work).sink;
            if polls == [] then after == p.sink
            else |polls| == 1 && Acceptable(p.sink.tracker, polls[0]) && Turn(p.sink, polls[0]) == Continue(after)
  {
    if e.TakeFromVent? {
      NextFromVent(p, work);
    }
  }

  /**
    The sink's loop, fed with what it polls in a timely run, goes through the same states as the sink of the
    system.
    */
  lemma {:induction false} SinkLoopIsARun<W, D>(p: Pipe<W, D>, events: seq<Event<W>>, work: W -> D)
    requires Inv(p, work) && TimelyRun(p, events, work)
    ensures AllAcceptable(p.sink, Polls(p, events, work))
    ensures Loop(p.sink, Polls(p, events, work)) == (End(p, events, work).sink, true)
    decreases |events|
  {
    if events != [] {
      var e, rest := events[0], events[1..];
      var q := Next(p, e, work);
      StepKeepsInv(p, e, work);
      SinkLoopIsARun(q, rest, work);
      StepIsATurn(p, e, work);
      var now, later := PollsOf(p, e), Polls(q, rest, work);
      if now == [] {
        assert now + later == later;
      } else {
        assert now == [now[0]];
        LoopOne(p.sink, now[0], later);
      }
    }
  }

  /** Both demands of the schedule can be broken in a run that kept them so far. */
  lemma UntimelyReachable<W, D>(word: W, work: W -> D)
    ensures var early := [VentFirst, VentSend(0), Receive(0), Forward(0)];
            && TimelyRun(Init([word], 1), early, work)
            && var p := End(Init([word], 1), early, work);
               && Enabled(p, TakeFromWorker(0)) && !Timely(p, TakeFromWorker(0))
               && ReportsIn(p, TakeFromWorker(0), work) && !Whole(Next(p, TakeFromWorker(0), work))
    ensures var idle := [EmptyPoll, EmptyPoll, EmptyPoll, EmptyPoll, EmptyPoll, EmptyPoll];
            && TimelyRun(Init([word], 1), idle, work)
            && var p := End(Init([word], 1), idle, work);
               !Timely(p, EmptyPoll) && ReportsIn(p, EmptyPoll, work) && !Whole(Next(p, EmptyPoll, work))
  {
  }

  /**
    So for any number of workers and batches the loop of the sink, started afresh, makes the calls of the system's
    sink.
    */
  lemma SinkLoopEndToEnd<W, D>(words: seq<W>, workers: nat, events: seq<Event<W>>, work: W -> D)
    requires IsBatch(words) && TimelyRun(Init(words, workers), events, work)
    ensures var p: Pipe<W, D> := Init(words, workers);
            && AllAcceptable(Start(), Polls(p, events, work))
            && Loop(Start(), Polls(p, events, work)) == (End(p, events, work).sink, true)
  {
    InitInv(words, workers, work);
    SinkLoopIsARun(Init(words, workers), events, work);
  }
}
