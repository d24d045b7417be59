/** The bucketed bitset by which the sink decides that a batch is whole. */
module Tracking {

  const SIZE := 1000
  const TWO_TO_THE_64 := 0x1_0000_0000_0000_0000

  type Bitset = b: seq<bool> | |b| == SIZE witness seq(SIZE, _ => false)

  function EmptyBitset(): (b: Bitset)
    ensures forall i :: 0 <= i < SIZE ==> !b[i]
  {
    seq(SIZE, _ => false)
  }

  /** The tracker's fields; -1 in `first` or `last` means not yet known. */
  datatype TrackerState = TrackerState(first: int, last: int, bits: seq<Bitset>)

  const FRESH := TrackerState(-1, -1, [])

  // ----- what each operation does to the fields

  function CountOf(b: seq<bool>): nat {
    if b == [] then 0 else (if b[0] then 1 else 0) + CountOf(b[1..])
  }

  predicate AllSet(b: seq<bool>) {
    forall i :: 0 <= i < |b| ==> b[i]
  }

  function Grown(bits: seq<Bitset>, n: int): (r: seq<Bitset>)
    ensures |r| == if n > |bits| then n else |bits|
    ensures forall b :: 0 <= b < |r| ==> r[b] == if b < |bits| then bits[b] else EmptyBitset()
  {
    if n > |bits| then bits + seq(n - |bits|, _ => EmptyBitset()) else bits
  }

  function AfterTrack(s: TrackerState, n: int): TrackerState
    requires s.first <= n
  {
    var bkt := (n - s.first) / SIZE;
    var idx := (n - s.first) % SIZE;
    var bits := Grown(s.bits, bkt + 1);
    s.(bits := bits[bkt := bits[bkt][idx := true]])
  }

  function AfterSetFirst(s: TrackerState, f: int): TrackerState {
    s.(first := f)
  }

  function AfterSetLast(s: TrackerState, l: int): TrackerState
    requires s.first <= l
  {
    s.(last := l, bits := Grown(s.bits, (l - s.first) / SIZE + 1))
  }

  /** The highest bit that must be set in the last bucket; the subtraction is converted to an unsigned 64-bit value. */
  function LastIndex(s: TrackerState): (i: nat)
    ensures i < SIZE
  {
    (s.last - s.first) % TWO_TO_THE_64 % SIZE
  }

  predicate Complete(s: TrackerState) {
    if s.first == -1 && s.last == -1 then true
    else if s.first == -1 || s.last == -1 then false
    else if |s.bits| == 0 then true
    else
      && (forall b :: 0 <= b < |s.bits| - 1 ==> AllSet(s.bits[b]))
      && AllSet(s.bits[|s.bits| - 1][..LastIndex(s) + 1])
  }

  lemma {:induction false} CountIsLengthIffAllSet(b: seq<bool>)
    ensures CountOf(b) <= |b|
    ensures CountOf(b) == |b| <==> AllSet(b)
  {
    if b == [] {
    } else {
      CountIsLengthIffAllSet(b[1..]);
      assert AllSet(b) <==> b[0] && AllSet(b[1..]) by {
        assert forall i :: 0 < i < |b| ==> b[i] == b[1..][i - 1];
      }
    }
  }

  // ----- the class

  class MsgTracker {
    var first: int
    var last: int
    var bits: seq<Bitset>

    function View(): TrackerState
      reads this
    {
      TrackerState(first, last, bits)
    }

    constructor ()
      ensures View() == FRESH
    {
      first, last, bits := -1, -1, [];
    }

    method Grow(n: int)
      modifies this`bits
      ensures bits == Grown(old(bits), n)
    {
      var k := n - |bits|;
      if k > 0 {
        var i := 0;
        while i < k
          invariant 0 <= i <= k
          invariant bits == old(bits) + seq(i, _ => EmptyBitset())
        {
          bits := bits + [EmptyBitset()];
          i := i + 1;
        }
      }
    }

    method Track(n: int)
      requires first <= n
      modifies this
      ensures View() == AfterTrack(old(View()), n)
    {
      var bkt := (n - first) / SIZE;
      var idx := (n - first) % SIZE;
      Grow(bkt + 1);
      bits := bits[bkt := bits[bkt][idx := true]];
    }

    method Reset()
      modifies this
      ensures View() == FRESH
    {
      bits := [];
      first := -1;
      last := -1;
    }

    method SetFirst(f: int)
      modifies this
      ensures View() == AfterSetFirst(old(View()), f)
    {
      first := f;
    }

    method SetLast(l: int)
      requires first <= l
      modifies this
      ensures View() == AfterSetLast(old(View()), l)
    {
      last := l;
      Grow((last - first) / SIZE + 1);
    }

    method IsComplete() returns (r: bool)
      ensures r == Complete(View())
    {
      if first == -1 && last == -1 { return true; }
      if first == -1 { return false; }
      if last == -1 { return false; }
      if |bits| == 0 { return true; }
      var b := 0;
      while b < |bits| - 1
        invariant 0 <= b <= |bits| - 1
        invariant forall j :: 0 <= j < b ==> AllSet(bits[j])
      {
        CountIsLengthIffAllSet(bits[b]);
        if CountOf(bits[b]) != SIZE { return false; }
        b := b + 1;
      }
      var idx := LastIndex(View());
      var i := 0;
      while i <= idx
        invariant 0 <= i <= idx + 1
        invariant AllSet(bits[|bits| - 1][..i])
      {
        if !bits[|bits| - 1][i] {
          assert !bits[|bits| - 1][..idx + 1][i];
          return false;
        }
        i := i + 1;
      }
      return true;
    }
  }

  // ----- bit positions

  /** Bit `p` of the whole bitset, counted across buckets. */
  predicate Bit(s: TrackerState, p: int) {
    0 <= p < |s.bits| * SIZE && s.bits[p / SIZE][p % SIZE]
  }

  /** Once both ends are set, the last position `complete` looks at. */
  function Horizon(s: TrackerState): int {
    (|s.bits| - 1) * SIZE + LastIndex(s)
  }

  lemma BitAt(s: TrackerState, b: nat, i: nat)
    requires b < |s.bits| && i < SIZE
    ensures Bit(s, b * SIZE + i) == s.bits[b][i]
  {
  }

  lemma TrackSetsOneBit(s: TrackerState, n: int)
    requires s.first <= n
    ensures forall p :: Bit(AfterTrack(s, n), p) <==> Bit(s, p) || p == n - s.first
  {
  }

  lemma GrowthSetsNoBit(s: TrackerState, l: int)
    requires s.first <= l
    ensures forall p :: Bit(AfterSetLast(s, l), p) <==> Bit(s, p)
  {
  }

  /** `complete` holds exactly when every position up to the horizon is set. */
  lemma CompleteMeansAllToHorizon(s: TrackerState)
    requires s.first != -1 && s.last != -1 && |s.bits| > 0
    ensures Complete(s) <==> forall p :: 0 <= p <= Horizon(s) ==> Bit(s, p)
  {
    var top := |s.bits| - 1;
    if Complete(s) {
      forall p | 0 <= p <= Horizon(s) ensures Bit(s, p) {
        if p / SIZE == top {
          assert s.bits[top][..LastIndex(s) + 1][p % SIZE];
        } else {
          assert AllSet(s.bits[p / SIZE]);
        }
      }
    }
    if forall p :: 0 <= p <= Horizon(s) ==> Bit(s, p) {
      forall b, i | 0 <= b < top && 0 <= i < SIZE ensures s.bits[b][i] {
        BitAt(s, b, i);
        assert Bit(s, b * SIZE + i);
      }
      var low := s.bits[top][..LastIndex(s) + 1];
      forall i | 0 <= i < |low| ensures low[i] {
        BitAt(s, top, i);
        assert Bit(s, top * SIZE + i);
      }
    }
  }

  // ----- whole runs

  const INT_MAX := 0x7fff_ffff

  datatype Op = First(f: int) | Track(n: int) | Last(l: int)

  predicate CanStep(s: TrackerState, op: Op) {
    match op
    case First(_) => true
    case Track(n) => s.first <= n
    case Last(l) => s.first <= l
  }

  function Step(s: TrackerState, op: Op): TrackerState
    requires CanStep(s, op)
  {
    match op
    case First(f) => AfterSetFirst(s, f)
    case Track(n) => AfterTrack(s, n)
    case Last(l) => AfterSetLast(s, l)
  }

  predicate Legal(s: TrackerState, ops: seq<Op>)
    decreases |ops|
  {
    ops == [] || (CanStep(s, ops[0]) && Legal(Step(s, ops[0]), ops[1..]))
  }

  function Run(s: TrackerState, ops: seq<Op>): TrackerState
    requires Legal(s, ops)
    decreases |ops|
  {
    if ops == [] then s else Run(Step(s, ops[0]), ops[1..])
  }

  lemma {:induction false} RunThenStep(s: TrackerState, ops: seq<Op>, op: Op)
    requires Legal(s, ops) && Legal(s, ops + [op])
    ensures CanStep(Run(s, ops), op) && Run(s, ops + [op]) == Step(Run(s, ops), op)
    decreases |ops|
  {
    if ops == [] {
      assert [] + [op] == [op] && [op][1..] == [];
    } else {
      assert (ops + [op])[1..] == ops[1..] + [op];
      RunThenStep(Step(s, ops[0]), ops[1..], op);
    }
  }

  /** Every operation of a batch f..l: the right ends, and only ids that belong to it. */
  predicate OfBatch(ops: seq<Op>, f: int, l: int) {
    forall i :: 0 <= i < |ops| ==>
      match ops[i]
      case First(g) => g == f
      case Track(n) => f <= n <= l
      case Last(m) => m == l
  }

  /** The ids tracked while `first` was not known yet. */
  function Early(started: bool, ops: seq<Op>): set<int> {
    if started || ops == [] then {}
    else match ops[0]
      case First(_) => {}
      case Track(n) => {n} + Early(false, ops[1..])
      case Last(_) => Early(false, ops[1..])
  }

  /** The ids tracked once `first` was known. */
  function Late(started: bool, ops: seq<Op>): set<int>
    decreases |ops|
  {
    if ops == [] then {}
    else match ops[0]
      case First(_) => Late(true, ops[1..])
      case Track(n) => (if started then {n} else {}) + Late(started, ops[1..])
      case Last(_) => Late(started, ops[1..])
  }

  /** `last` came while `first` was not known yet. */
  predicate LastOvertakesFirst(started: bool, ops: seq<Op>) {
    !started && ops != [] && !ops[0].First? && (ops[0].Last? || LastOvertakesFirst(false, ops[1..]))
  }

  function Tracked(ops: seq<Op>): set<int> {
    set op | op in ops && op.Track? :: op.n
  }

  predicate TrackedOnce(ops: seq<Op>) {
    forall i, j :: 0 <= i < j < |ops| && ops[i].Track? && ops[j].Track? ==> ops[i] != ops[j]
  }

  /** The bits hold the late ids at their own place and the early ids one place above theirs. */
  ghost predicate Reflects(s: TrackerState, f: int, early: set<int>, late: set<int>) {
    && (s.first == f || (s.first == -1 && late == {}))
    && (forall p :: Bit(s, p) <==> p - 1 in early || p + f in late)
    && (s.last != -1 ==> s.last - f < |s.bits| * SIZE)
  }

  lemma StepReflects(s: TrackerState, op: Op, f: int, l: int, early: set<int>, late: set<int>)
    requires 0 <= f <= l
    requires Reflects(s, f, early, late)
    requires OfBatch([op], f, l)
    ensures CanStep(s, op)
    ensures Reflects(Step(s, op), f, early + Early(s.first == f, [op]), late + Late(s.first == f, [op]))
  {
    assert [op][0] == op;
    match op {
      case First(_) =>
        forall p ensures Bit(Step(s, op), p) <==> p - 1 in early || p + f in late {
          assert Bit(Step(s, op), p) <==> Bit(s, p);
        }
      case Track(n) =>
        TrackSetsOneBit(s, n);
      case Last(_) =>
        GrowthSetsNoBit(s, l);
    }
  }

  lemma {:induction false} RunReflects(s: TrackerState, ops: seq<Op>, f: int, l: int, early: set<int>, late: set<int>)
    requires 0 <= f <= l
    requires Reflects(s, f, early, late)
    requires OfBatch(ops, f, l)
    ensures Legal(s, ops)
    ensures Reflects(Run(s, ops), f, early + Early(s.first == f, ops), late + Late(s.first == f, ops))
    decreases |ops|
  {
    if ops == [] {
      assert early + Early(s.first == f, ops) == early && late + Late(s.first == f, ops) == late;
    } else {
      var op, started := ops[0], s.first == f;
      assert [op][1..] == [];
      StepReflects(s, op, f, l, early, late);
      var early', late' := early + Early(started, [op]), late + Late(started, [op]);
      RunReflects(Step(s, op), ops[1..], f, l, early', late');
      var started' := Step(s, op).first == f;
      assert Early(started, []) == {} == Late(started, []) == Late(true, []);
      assert early' + Early(started', ops[1..]) == early + Early(started, ops) by {
        match op case First(_) => case Track(_) => case Last(_) =>
      }
      assert late' + Late(started', ops[1..]) == late + Late(started, ops) by {
        match op case First(_) => case Track(_) => case Last(_) =>
      }
    }
  }

  lemma {:induction false} RunEnds(s: TrackerState, ops: seq<Op>, f: int, l: int)
    requires OfBatch(ops, f, l) && Legal(s, ops)
    ensures Run(s, ops).first == if First(f) in ops then f else s.first
    ensures Run(s, ops).last == if Last(l) in ops then l else s.last
    decreases |ops|
  {
    if ops != [] {
      assert ops == [ops[0]] + ops[1..];
      RunEnds(Step(s, ops[0]), ops[1..], f, l);
    }
  }

  lemma {:induction false} EarlyAndLatePartition(started: bool, ops: seq<Op>)
    ensures Early(started, ops) + Late(started, ops) == Tracked(ops)
    ensures TrackedOnce(ops) ==> Early(started, ops) !! Late(started, ops)
    decreases |ops|
  {
    if ops != [] {
      var op, rest := ops[0], ops[1..];
      assert ops == [op] + rest;
      assert Tracked(ops) == (if op.Track? then {op.n} else {}) + Tracked(rest);
      EarlyAndLatePartition(started || op.First?, rest);
      if TrackedOnce(ops) {
        assert TrackedOnce(rest) by {
          forall i, j | 0 <= i < j < |rest| && rest[i].Track? && rest[j].Track? ensures rest[i] != rest[j] {
            assert ops[i + 1] == rest[i] && ops[j + 1] == rest[j];
          }
        }
        assert op.Track? ==> op.n !in Tracked(rest);
      }
    }
  }

  /** The number of buckets a run without early ids ends with. */
  lemma {:induction false} RunBuckets(s: TrackerState, ops: seq<Op>, f: int, l: int, top: int)
    requires 0 <= f <= l <= top + f && OfBatch(ops, f, l) && Legal(s, ops)
    requires s.first == f || (s.first == -1 && f == 0 && Early(false, ops) == {})
    requires LastOvertakesFirst(s.first == f, ops) ==> l < top
    ensures |s.bits| <= |Run(s, ops).bits|
    ensures LastOvertakesFirst(s.first == f, ops) ==> (l + 1) / SIZE < |Run(s, ops).bits|
    ensures |s.bits| <= top / SIZE + 1 ==> |Run(s, ops).bits| <= top / SIZE + 1
    decreases |ops|
  {
    if ops != [] {
      RunBuckets(Step(s, ops[0]), ops[1..], f, l, top);
    }
  }

  /** A run in which only `first` precedes the ids. */
  ghost predicate InOrder(ops: seq<Op>, f: int, l: int) {
    0 <= f <= l <= INT_MAX && OfBatch(ops, f, l) && forall i :: 0 <= i < |ops| ==> !ops[i].First?
  }

  lemma InOrderReflects(ops: seq<Op>, f: int, l: int)
    requires InOrder(ops, f, l)
    ensures Legal(FRESH, [First(f)] + ops)
    ensures var s := Run(FRESH, [First(f)] + ops);
            && Reflects(s, f, {}, Tracked(ops))
            && s.first == f && s.last == (if Last(l) in ops then l else -1)
            && |s.bits| <= (l - f) / SIZE + 1
  {
    var s0 := AfterSetFirst(FRESH, f);
    assert ([First(f)] + ops)[1..] == ops;
    RunReflects(s0, ops, f, l, {}, {});
    EarlyAndLatePartition(true, ops);
    assert {} + Late(true, ops) == Tracked(ops);
    RunEnds(s0, ops, f, l);
    RunBuckets(s0, ops, f, l, l - f);
  }

  /** With `first` known beforehand, bit (b, i) is set exactly when id f + 1000 * b + i was tracked. */
  lemma InOrderBits(ops: seq<Op>, f: int, l: int)
    requires InOrder(ops, f, l)
    ensures Legal(FRESH, [First(f)] + ops)
    ensures var s := Run(FRESH, [First(f)] + ops);
            && (forall b: nat, i: nat :: b < |s.bits| && i < 1000 ==>
                  (s.bits[b][i] <==> f + 1000 * b + i in Tracked(ops)))
            && (forall n :: n in Tracked(ops) ==> (n - f) / 1000 < |s.bits|)
  {
    InOrderReflects(ops, f, l);
    var s := Run(FRESH, [First(f)] + ops);
    forall b: nat, i: nat | b < |s.bits| && i < SIZE
      ensures s.bits[b][i] <==> f + SIZE * b + i in Tracked(ops)
    {
      BitAt(s, b, i);
    }
    forall n | n in Tracked(ops) ensures (n - f) / SIZE < |s.bits| {
      assert Bit(s, n - f);
    }
  }

  /**
    With `first` known beforehand and ids of f..l in any order and with repeats, `complete` holds exactly when
    `last` has come and every id has been tracked.
    */
  lemma InOrderCompletion(ops: seq<Op>, f: int, l: int)
    requires InOrder(ops, f, l)
    ensures Legal(FRESH, [First(f)] + ops)
    ensures Complete(Run(FRESH, [First(f)] + ops)) <==>
            Last(l) in ops && forall n :: f <= n <= l ==> n in Tracked(ops)
  {
    InOrderReflects(ops, f, l);
    var s := Run(FRESH, [First(f)] + ops);
    if Last(l) in ops {
      CompleteMeansAllToHorizon(s);
      HorizonOfBatch(s, f, l);
      assert |s.bits| == (l - f) / SIZE + 1;
      if Complete(s) {
        forall n | f <= n <= l ensures n in Tracked(ops) {
          assert Bit(s, n - f);
        }
      } else {
        var p :| 0 <= p <= Horizon(s) && !Bit(s, p);
        assert p + f !in Tracked(ops);
      }
    }
  }

  lemma TrackedInBatch(ops: seq<Op>, f: int, l: int)
    requires OfBatch(ops, f, l)
    ensures forall n :: n in Tracked(ops) ==> f <= n <= l
  {
  }

  lemma HorizonOfBatch(s: TrackerState, f: int, l: int)
    requires 0 <= f <= l <= INT_MAX && s.first == f && s.last == l
    ensures LastIndex(s) == (l - f) % SIZE
    ensures l - f < |s.bits| * SIZE ==> l - f <= Horizon(s)
    ensures |s.bits| == (l - f) / SIZE + 1 ==> Horizon(s) == l - f
  {
  }

  /**
    The exact answer of `complete` when `first`, `last` and the ids 0..l come in any order at all, each id at
    most once: every id must have come after `first`, and `last` must not have overtaken `first` in a batch
    that fills its buckets to the brim. So a tracker that says complete has never lost or misplaced an id.
    */
  lemma ReorderedTracking(ops: seq<Op>, l: int)
    requires 0 <= l <= INT_MAX
    requires OfBatch(ops, 0, l) && TrackedOnce(ops)
    requires First(0) in ops && Last(l) in ops
    ensures Legal(FRESH, ops)
    ensures Complete(Run(FRESH, ops)) <==>
            && (forall n :: 0 <= n <= l ==> n in Late(false, ops))
            && !(LastOvertakesFirst(false, ops) && l % 1000 == 999)
    ensures Complete(Run(FRESH, ops)) ==> Early(false, ops) == {}
  {
    RunReflects(FRESH, ops, 0, l, {}, {});
    EarlyAndLatePartition(false, ops);
    RunEnds(FRESH, ops, 0, l);
    TrackedInBatch(ops, 0, l);
    var s, early, late := Run(FRESH, ops), Early(false, ops), Late(false, ops);
    assert {} + early == early && {} + late == late;
    CompleteMeansAllToHorizon(s);
    HorizonOfBatch(s, 0, l);
    if Complete(s) {
      AllLate(s, l, early, late, l);
      assert early == {};
    }
    if forall n :: 0 <= n <= l ==> n in late {
      assert early == {};
      RunBuckets(FRESH, ops, 0, l, if LastOvertakesFirst(false, ops) then l + 1 else l);
      if Complete(s) {
        assert Bit(s, Horizon(s));
      } else {
        var p :| 0 <= p <= Horizon(s) && !Bit(s, p);
        assert p !in late;
      }
    }
  }

  function EachOnce(n: nat): (ops: seq<Op>)
    ensures |ops| == n && forall i :: 0 <= i < n ==> ops[i] == Track(i)
  {
    seq(n, i => Track(i))
  }

  /** `last`, then `first`, then some of the ids. */
  function Overtaken(l: int, ids: seq<Op>): (ops: seq<Op>)
    ensures |ops| == |ids| + 2 && ops[0] == Last(l) && ops[1] == First(0)
    ensures forall i :: 0 <= i < |ids| ==> ops[i + 2] == ids[i]
  {
    [Last(l), First(0)] + ids
  }

  ghost predicate NotComplete(ops: seq<Op>) {
    Legal(FRESH, ops) && !Complete(Run(FRESH, ops))
  }

  lemma OvertakenFits(l: int, ids: seq<Op>)
    requires 0 <= l && ids <= EachOnce(l + 1)
    ensures var ops := Overtaken(l, ids); OfBatch(ops, 0, l) && TrackedOnce(ops) && LastOvertakesFirst(false, ops)
  {
    var ops := Overtaken(l, ids);
    forall i | 0 <= i < |ops|
      ensures ops[i] == if i == 0 then Last(l) else if i == 1 then First(0) else Track(i - 2)
      ensures i >= 2 ==> i - 2 <= l
    {
      if i >= 2 {
        assert ops[i] == ids[i - 2] == EachOnce(l + 1)[i - 2];
      }
    }
  }

  lemma OvertakenPrefix(l: int, ids: seq<Op>)
    requires 0 <= l <= INT_MAX && l % 1000 == 999 && ids <= EachOnce(l + 1)
    ensures NotComplete(Overtaken(l, ids))
  {
    var ops := Overtaken(l, ids);
    OvertakenFits(l, ids);
    assert ops[0] == Last(l) && ops[1] == First(0);
    ReorderedTracking(ops, l);
  }

  lemma InOrderCompletes(l: int)
    requires 0 <= l <= INT_MAX
    ensures var ops := [First(0)] + ([Last(l)] + EachOnce(l + 1)); Legal(FRESH, ops) && Complete(Run(FRESH, ops))
  {
    var ops := [Last(l)] + EachOnce(l + 1);
    assert ops[0] == Last(l) && forall i :: 0 <= i <= l ==> ops[i + 1] == Track(i);
    forall n | 0 <= n <= l ensures n in Tracked(ops) {
      assert ops[n + 1] == Track(n);
    }
    InOrderCompletion(ops, 0, l);
  }

  /**
    So in a batch of, say, a thousand ids, with `last` heard before `first` and then every id once, complete is
    never said, neither on the way nor at the end, although no id came early; the same messages with `first`
    before `last` complete the batch.
    */
  lemma OvertakenNeverComplete(l: int)
    requires 0 <= l <= INT_MAX && l % 1000 == 999
    ensures forall ids :: ids <= EachOnce(l + 1) ==> NotComplete(Overtaken(l, ids))
    ensures var ops := [First(0)] + ([Last(l)] + EachOnce(l + 1)); Legal(FRESH, ops) && Complete(Run(FRESH, ops))
  {
    forall ids | ids <= EachOnce(l + 1) ensures NotComplete(Overtaken(l, ids)) {
      OvertakenPrefix(l, ids);
    }
    InOrderCompletes(l);
  }

  /** If all positions 0..l are set then each holds a late id: an early id would have stolen a position from below. */
  lemma {:induction false} AllLate(s: TrackerState, l: int, early: set<int>, late: set<int>, n: int)
    requires Reflects(s, 0, early, late) && early !! late
    requires forall id :: id in early ==> 0 <= id
    requires 0 <= n <= l && forall p :: 0 <= p <= l ==> Bit(s, p)
    ensures forall id :: 0 <= id <= n ==> id in late
  {
    if n > 0 {
      AllLate(s, l, early, late, n - 1);
    }
    assert Bit(s, n);
  }
}
