/** Ranking the classes of a sketch, so that bases and interfaces are emitted before what derives from them. */
module ClassWeight {
  import opened Wrappers

  /** A declared class; classes are known by their index. Lists the source leaves undefined are empty here. */
  datatype Class = Class(
    scopeId: Option<nat>, base: Option<nat>, interfaces: seq<Option<nat>>, inScope: seq<nat>, derived: seq<nat>)

  /** The inner and derived classes that must be ranked first. */
  function DependsOn(k: Class): seq<nat> {
    k.inScope + k.derived
  }

  function Known(us: seq<Option<nat>>): seq<nat> {
    if us == [] then [] else Known(us[..|us| - 1]) + (if us[|us| - 1].Some? then [us[|us| - 1].value] else [])
  }

  /** The enclosing class, the base and the interfaces of a class, as the worklist visits them. */
  function Uses(k: Class): seq<nat> {
    Known([k.scopeId, k.base] + k.interfaces)
  }

  function Count(s: seq<nat>, x: nat): nat {
    if s == [] then 0 else Count(s[..|s| - 1], x) + (if s[|s| - 1] == x then 1 else 0)
  }

  /** All classes mentioned are declared. */
  predicate Declared(classes: seq<Class>) {
    && (forall t, i :: 0 <= t < |classes| && 0 <= i < |DependsOn(classes[t])| ==> DependsOn(classes[t])[i] < |classes|)
    && (forall c, i :: 0 <= c < |classes| && 0 <= i < |Uses(classes[c])| ==> Uses(classes[c])[i] < |classes|)
  }

  /** `inScope` and `derived` say of every class just what `scopeId`, `base` and `interfaces` of the others say. */
  ghost predicate Mirrored(classes: seq<Class>) {
    && Declared(classes)
    && (forall t, c :: 0 <= t < |classes| && 0 <= c < |classes| ==>
          Count(DependsOn(classes[t]), c) == Count(Uses(classes[c]), t))
  }

  ghost predicate Acyclic(classes: seq<Class>) {
    exists rank: nat -> nat :: Ranks(classes, rank)
  }

  ghost predicate Ranks(classes: seq<Class>, rank: nat -> nat) {
    forall t, d :: 0 <= t < |classes| && d in DependsOn(classes[t]) ==> rank(d) < rank(t)
  }

  // ----- the worklist

  datatype State = State(queue: seq<nat>, tocheck: map<nat, seq<nat>>, weight: map<nat, nat>)

  function IndexOf(s: seq<nat>, x: nat): (i: int)
    ensures -1 <= i < |s|
    ensures i >= 0 ==> s[i] == x && forall j :: 0 <= j < i ==> s[j] != x
    ensures i < 0 <==> x !in s
  {
    if s == [] then -1
    else
      var i := IndexOf(s[..|s| - 1], x);
      if i >= 0 then i else if s[|s| - 1] == x then |s| - 1 else -1
  }

  function Spliced(s: seq<nat>, i: nat): seq<nat>
    requires i < |s|
  {
    s[..i] + s[i + 1..]
  }

  /** The queue holds declared classes that have their weight. */
  predicate Queued(classes: seq<Class>, s: State) {
    forall i :: 0 <= i < |s.queue| ==> s.queue[i] < |classes| && s.queue[i] in s.weight
  }

  /** The class `from` has its weight; `target`, which it uses, waits for one class less. */
  function Visited(s: State, target: nat, from: nat): (r: State)
    requires from in s.weight
    ensures from in r.weight
    ensures |r.queue| + |r.tocheck| == |s.queue| + |s.tocheck|
  {
    if target !in s.tocheck then s
    else
      var dependsOn := s.tocheck[target];
      var i := IndexOf(dependsOn, from);
      if i < 0 then s
      else
        var rest := Spliced(dependsOn, i);
        if |rest| > 0 then
          assert (s.tocheck[target := rest]).Keys == s.tocheck.Keys;
          s.(tocheck := s.tocheck[target := rest])
        else
          assert s.tocheck.Keys == (s.tocheck - {target}).Keys + {target};
          State(s.queue + [target], s.tocheck - {target}, s.weight[target := s.weight[from] + 1])
  }

  function VisitedAll(s: State, targets: seq<nat>, from: nat): (r: State)
    requires from in s.weight
    ensures from in r.weight
    ensures |r.queue| + |r.tocheck| == |s.queue| + |s.tocheck|
  {
    if targets == [] then s
    else Visited(VisitedAll(s, targets[..|targets| - 1], from), targets[|targets| - 1], from)
  }

  lemma {:induction false} VisitedKeepsQueued(classes: seq<Class>, s: State, targets: seq<nat>, from: nat)
    requires Queued(classes, s) && from in s.weight
    requires forall i :: 0 <= i < |targets| ==> targets[i] < |classes|
    ensures Queued(classes, VisitedAll(s, targets, from))
  {
    if targets != [] {
      VisitedKeepsQueued(classes, s, targets[..|targets| - 1], from);
    }
  }

  /** Takes the first class off the queue and visits what it uses. */
  function Turn(classes: seq<Class>, s: State): (r: State)
    requires Declared(classes) && Queued(classes, s) && s.queue != []
    ensures Queued(classes, r)
    ensures |r.queue| + |r.tocheck| < |s.queue| + |s.tocheck|
  {
    var id := s.queue[0];
    var rest := s.(queue := s.queue[1..]);
    VisitedKeepsQueued(classes, rest, Uses(classes[id]), id);
    VisitedAll(rest, Uses(classes[id]), id)
  }

  function Run(classes: seq<Class>, s: State): State
    requires Declared(classes) && Queued(classes, s)
    decreases |s.queue| + |s.tocheck|
  {
    if s.queue == [] then s else Run(classes, Turn(classes, s))
  }

  /** The first `n` classes: leaves are ranked at once, the others wait for what depends on them. */
  function Initial(classes: seq<Class>, n: nat): (s: State)
    requires n <= |classes|
    ensures Queued(classes, s)
  {
    if n == 0 then State([], map[], map[])
    else
      var s, k := Initial(classes, n - 1), classes[n - 1];
      if k.inScope == [] && k.derived == [] then s.(queue := s.queue + [n - 1], weight := s.weight[n - 1 := 0])
      else s.(tocheck := s.tocheck[n - 1 := DependsOn(k)])
  }

  class Ranking {
    const classes: seq<Class>
    var queue: seq<nat>
    var tocheck: map<nat, seq<nat>>
    var weight: map<nat, nat>

    function View(): State
      reads this
    {
      State(queue, tocheck, weight)
    }

    constructor (classes: seq<Class>)
      ensures this.classes == classes && View() == State([], map[], map[])
    {
      this.classes := classes;
      queue, tocheck, weight := [], map[], map[];
    }

    method RemoveDependentAndCheck(targetId: nat, from: nat) returns (last: bool)
      requires from in weight
      modifies this`tocheck
      ensures tocheck == Visited(old(View()), targetId, from).tocheck
      ensures last <==> Visited(old(View()), targetId, from).queue != queue
    {
      if targetId !in tocheck { return false; }
      var dependsOn := tocheck[targetId];
      var i := IndexOf(dependsOn, from);
      if i < 0 { return false; }
      dependsOn := dependsOn[..i] + dependsOn[i + 1..];
      if |dependsOn| > 0 {
        tocheck := tocheck[targetId := dependsOn];
        return false;
      }
      tocheck := tocheck - {targetId};
      return true;
    }

    method Visit(targetId: Option<nat>, from: nat)
      requires from in weight
      modifies this
      ensures View() == if targetId.Some? then Visited(old(View()), targetId.value, from) else old(View())
    {
      if targetId.Some? {
        var last := RemoveDependentAndCheck(targetId.value, from);
        if last {
          queue := queue + [targetId.value];
          weight := weight[targetId.value := weight[from] + 1];
        }
      }
    }

    method VisitInterfaces(interfaces: seq<Option<nat>>, from: nat)
      requires from in weight
      modifies this
      ensures View() == VisitedAll(old(View()), Known(interfaces), from)
    {
      for i := 0 to |interfaces|
        invariant from in weight
        invariant View() == VisitedAll(old(View()), Known(interfaces[..i]), from)
      {
        KnownMore(interfaces[..i], interfaces[i]);
        ghost var known := Known(interfaces[..i]);
        assert known + [] == known;
        assert interfaces[..i + 1] == interfaces[..i] + [interfaces[i]];
        Visit(interfaces[i], from);
      }
      assert interfaces[..|interfaces|] == interfaces;
    }

    /** Ranks the classes: leaves first, then each class once the last class that depends on it has been ranked. */
    method SetWeight()
      requires Declared(classes) && View() == State([], map[], map[])
      modifies this
      ensures View() == Run(classes, Initial(classes, |classes|))
    {
      for id := 0 to |classes|
        invariant View() == Initial(classes, id)
      {
        var class_ := classes[id];
        if class_.inScope == [] && class_.derived == [] {
          queue := queue + [id];
          weight := weight[id := 0];
        } else {
          tocheck := tocheck[id := class_.inScope + class_.derived];
        }
      }
      while queue != []
        invariant Queued(classes, View())
        invariant Run(classes, View()) == Run(classes, Initial(classes, |classes|))
        decreases |queue| + |tocheck|
      {
        ghost var s := View();
        var id := queue[0];
        queue := queue[1..];
        ghost var rest := View();
        var class_ := classes[id];
        UsesInTurn(rest, class_, id);
        Visit(class_.scopeId, id);
        Visit(class_.base, id);
        VisitInterfaces(class_.interfaces, id);
        assert View() == Turn(classes, s);
      }
    }
  }

  lemma KnownMore(us: seq<Option<nat>>, u: Option<nat>)
    ensures Known(us + [u]) == Known(us) + (if u.Some? then [u.value] else [])
    ensures u.Some? ==> (Known(us) + [u.value])[..|Known(us)|] == Known(us)
  {
  }

  lemma {:induction false} VisitedAppend(s: State, a: seq<nat>, b: seq<nat>, from: nat)
    requires from in s.weight
    ensures VisitedAll(s, a + b, from) == VisitedAll(VisitedAll(s, a, from), b, from)
  {
    if b == [] {
      assert a + b == a;
    } else {
      assert (a + b)[..|a + b| - 1] == a + b[..|b| - 1];
      VisitedAppend(s, a, b[..|b| - 1], from);
    }
  }

  lemma {:induction false} KnownAppend(a: seq<Option<nat>>, b: seq<Option<nat>>)
    ensures Known(a + b) == Known(a) + Known(b)
  {
    if b == [] {
      assert a + b == a;
    } else {
      assert (a + b)[..|a + b| - 1] == a + b[..|b| - 1];
      KnownAppend(a, b[..|b| - 1]);
    }
  }

  function VisitedIf(s: State, target: Option<nat>, from: nat): (r: State)
    requires from in s.weight
    ensures from in r.weight
  {
    if target.Some? then Visited(s, target.value, from) else s
  }

  /** The scope, the base and the interfaces one after the other. */
  lemma UsesInTurn(s: State, k: Class, from: nat)
    requires from in s.weight
    ensures VisitedAll(s, Uses(k), from) ==
            VisitedAll(VisitedIf(VisitedIf(s, k.scopeId, from), k.base, from), Known(k.interfaces), from)
  {
    KnownAppend([k.scopeId, k.base], k.interfaces);
    VisitedAppend(s, Known([k.scopeId, k.base]), Known(k.interfaces), from);
    KnownMore([k.scopeId], k.base);
    assert [k.scopeId] + [k.base] == [k.scopeId, k.base];
    KnownMore([], k.scopeId);
    assert [] + [k.scopeId] == [k.scopeId];
    var first := Known([k.scopeId]);
    VisitedAppend(s, first, if k.base.Some? then [k.base.value] else [], from);
  }

  // ----- the invariant: `done` are the classes taken off the queue so far

  lemma {:induction false} CountIn(s: seq<nat>, x: nat)
    ensures Count(s, x) > 0 <==> x in s
  {
    if s != [] {
      CountIn(s[..|s| - 1], x);
      assert s == s[..|s| - 1] + [s[|s| - 1]];
    }
  }

  lemma {:induction false} CountAppend(a: seq<nat>, b: seq<nat>, x: nat)
    ensures Count(a + b, x) == Count(a, x) + Count(b, x)
  {
    if b == [] {
      assert a + b == a;
    } else {
      assert (a + b)[..|a + b| - 1] == a + b[..|b| - 1];
      CountAppend(a, b[..|b| - 1], x);
    }
  }

  lemma CountSpliced(s: seq<nat>, i: nat, x: nat)
    requires i < |s|
    ensures Count(Spliced(s, i), x) == Count(s, x) - if s[i] == x then 1 else 0
  {
    assert s == s[..i] + ([s[i]] + s[i + 1..]);
    CountAppend(s[..i], [s[i]] + s[i + 1..], x);
    CountAppend([s[i]], s[i + 1..], x);
    CountAppend(s[..i], s[i + 1..], x);
    assert [s[i]][..0] == [];
  }

  /** How often `d` must still be removed from what `t` waits for; `from` has visited `seen` of what it uses. */
  function Left(classes: seq<Class>, done: set<nat>, from: nat, seen: seq<nat>, t: nat, d: nat): int
    requires t < |classes|
  {
    if d in done then 0
    else Count(DependsOn(classes[t]), d) - (if d == from then Count(seen, t) else 0)
  }

  /** `ds` is what `t` still waits for. */
  ghost predicate WaitsFor(classes: seq<Class>, done: set<nat>, from: nat, seen: seq<nat>, t: nat, ds: seq<nat>)
    requires t < |classes|
  {
    forall d :: Count(ds, d) == Left(classes, done, from, seen, t, d)
  }

  ghost predicate Waits(classes: seq<Class>, s: State, done: set<nat>, from: nat, seen: seq<nat>) {
    && (forall t :: t in s.tocheck ==> t < |classes| && s.tocheck[t] != [] && t !in s.weight)
    && (forall t :: t in s.tocheck ==> WaitsFor(classes, done, from, seen, t, s.tocheck[t]))
    && (forall t :: 0 <= t < |classes| && t !in s.tocheck ==> t in s.weight)
  }

  /** Weights are right: zero for leaves, otherwise one more than the heaviest class that depends on it. */
  ghost predicate RightWeight(classes: seq<Class>, weight: map<nat, nat>, t: nat)
    requires t < |classes| && t in weight
  {
    var ds := DependsOn(classes[t]);
    && (forall i :: 0 <= i < |ds| ==> ds[i] in weight && weight[ds[i]] + 1 <= weight[t])
    && (if ds == [] then weight[t] == 0
        else exists i :: 0 <= i < |ds| && ds[i] in weight && weight[t] == weight[ds[i]] + 1)
  }

  ghost predicate Weighted(classes: seq<Class>, s: State) {
    && (forall t :: t in s.weight ==> t < |classes|)
    && (forall t {:trigger RightWeight(classes, s.weight, t)} :: t in s.weight ==> RightWeight(classes, s.weight, t))
  }

  predicate DistinctIds(q: seq<nat>) {
    forall i, j :: 0 <= i < j < |q| ==> q[i] != q[j]
  }

  /** The queue is sorted, and no weight in it is below `low` or above `low` + 1. */
  predicate Layered(q: seq<nat>, weight: map<nat, nat>, low: nat) {
    && (forall i :: 0 <= i < |q| ==> q[i] in weight && low <= weight[q[i]] <= low + 1)
    && (forall i, j :: 0 <= i < j < |q| ==> weight[q[i]] <= weight[q[j]])
  }

  /** While `from` visits what it uses. */
  ghost predicate Inv(classes: seq<Class>, s: State, done: set<nat>, from: nat, seen: seq<nat>) {
    && Queued(classes, s) && Waits(classes, s, done, from, seen) && Weighted(classes, s)
    && from in s.weight && from !in done
    && QueueOf(s.queue, s.weight, done, from)
    && Layered(s.queue, s.weight, s.weight[from])
    && (forall t :: t in done ==> t in s.weight && s.weight[t] <= s.weight[from])
  }

  /** Between two turns. */
  ghost predicate Between(classes: seq<Class>, s: State, done: set<nat>) {
    && Queued(classes, s) && Waits(classes, s, done, 0, []) && Weighted(classes, s)
    && (forall t :: t in s.weight <==> t in done || t in s.queue)
    && DistinctIds(s.queue) && (forall t :: t in s.queue ==> t !in done)
    && (s.queue != [] ==>
          && Layered(s.queue, s.weight, s.weight[s.queue[0]])
          && forall t :: t in done ==> t in s.weight && s.weight[t] <= s.weight[s.queue[0]])
  }

  lemma SplicedOne(s: seq<nat>, x: nat)
    requires x in s
    ensures forall d :: Count(Spliced(s, IndexOf(s, x)), d) == Count(s, d) - if d == x then 1 else 0
  {
    forall d ensures Count(Spliced(s, IndexOf(s, x)), d) == Count(s, d) - if d == x then 1 else 0 {
      CountSpliced(s, IndexOf(s, x), d);
    }
  }

  lemma SeenMore(seen: seq<nat>, u: nat, t: nat)
    ensures Count(seen + [u], t) == Count(seen, t) + if t == u then 1 else 0
  {
  }

  lemma StillWaits(classes: seq<Class>, done: set<nat>, from: nat, seen: seq<nat>, u: nat, t: nat, ds: seq<nat>)
    requires t < |classes| && t != u && WaitsFor(classes, done, from, seen, t, ds)
    ensures WaitsFor(classes, done, from, seen + [u], t, ds)
  {
  }

  lemma VisitedWaits(classes: seq<Class>, done: set<nat>, from: nat, seen: seq<nat>, u: nat, ds: seq<nat>)
    requires u < |classes| && from !in done && WaitsFor(classes, done, from, seen, u, ds) && from in ds
    ensures WaitsFor(classes, done, from, seen + [u], u, Spliced(ds, IndexOf(ds, from)))
  {
    SeenMore(seen, u, u);
    SplicedOne(ds, from);
  }

  /** What a visit does to the waiting lists. */
  lemma VisitWaits(classes: seq<Class>, s: State, done: set<nat>, from: nat, seen: seq<nat>, u: nat)
    requires Waits(classes, s, done, from, seen) && from in s.weight && from !in done && u < |classes|
    requires Count(DependsOn(classes[u]), from) > Count(seen, u)
    ensures Waits(classes, Visited(s, u, from), done, from, seen + [u])
  {
    var r := Visited(s, u, from);
    if u in s.tocheck {
      CountIn(s.tocheck[u], from);
      assert Count(s.tocheck[u], from) == Left(classes, done, from, seen, u, from);
      VisitedWaits(classes, done, from, seen, u, s.tocheck[u]);
    }
    forall t | t in r.tocheck
      ensures WaitsFor(classes, done, from, seen + [u], t, r.tocheck[t])
    {
      if t != u { StillWaits(classes, done, from, seen, u, t, s.tocheck[t]); }
    }
  }

  /** Once nothing is left to wait for, all that `u` depends on has been ranked, `from` last and heaviest. */
  lemma LastVisitWeight(classes: seq<Class>, s: State, done: set<nat>, from: nat, seen: seq<nat>, u: nat)
    requires Inv(classes, s, done, from, seen) && u < |classes| && u in s.tocheck
    requires Count(DependsOn(classes[u]), from) > Count(seen, u)
    requires from in s.tocheck[u] && Spliced(s.tocheck[u], IndexOf(s.tocheck[u], from)) == []
    ensures RightWeight(classes, s.weight[u := s.weight[from] + 1], u)
  {
    var ds, weight := DependsOn(classes[u]), s.weight[u := s.weight[from] + 1];
    SplicedOne(s.tocheck[u], from);
    forall i | 0 <= i < |ds| ensures ds[i] in weight && weight[ds[i]] + 1 <= weight[u] {
      var d := ds[i];
      CountIn(ds, d);
      assert Count(s.tocheck[u], d) == Left(classes, done, from, seen, u, d);
      assert Count([], d) == 0;
      assert d in done || d == from;
    }
    CountIn(ds, from);
    var i :| 0 <= i < |ds| && ds[i] == from;
    assert weight[u] == weight[ds[i]] + 1;
  }

  /** A heavier weight for a class that had none leaves the other weights right. */
  lemma WeightedMore(classes: seq<Class>, s: State, u: nat, w: nat)
    requires Weighted(classes, s) && u < |classes| && u !in s.weight && RightWeight(classes, s.weight[u := w], u)
    ensures Weighted(classes, s.(weight := s.weight[u := w]))
  {
    var weight := s.weight[u := w];
    forall t | t in weight ensures RightWeight(classes, weight, t) {
      if t != u {
        assert RightWeight(classes, s.weight, t);
        var ds := DependsOn(classes[t]);
        if ds != [] {
          var i :| 0 <= i < |ds| && ds[i] in s.weight && s.weight[t] == s.weight[ds[i]] + 1;
          assert ds[i] in weight && weight[t] == weight[ds[i]] + 1;
        }
      }
    }
  }

  lemma LayeredMore(q: seq<nat>, weight: map<nat, nat>, low: nat, u: nat)
    requires Layered(q, weight, low) && u !in weight
    ensures Layered(q + [u], weight[u := low + 1], low)
  {
  }

  lemma PushKeepsInv(classes: seq<Class>, s: State, done: set<nat>, from: nat, seen: seq<nat>, u: nat, r: State)
    requires Inv(classes, s, done, from, seen) && u < |classes| && u !in s.weight
    requires r.queue == s.queue + [u] && r.weight == s.weight[u := s.weight[from] + 1]
    requires Waits(classes, r, done, from, seen + [u]) && RightWeight(classes, r.weight, u)
    ensures Inv(classes, r, done, from, seen + [u])
  {
    WeightedMore(classes, s, u, s.weight[from] + 1);
    assert Weighted(classes, r);
    LayeredMore(s.queue, s.weight, s.weight[from], u);
    QueueMore(s.queue, s.weight, done, from, u, s.weight[from] + 1);
  }

  /** The classes in the queue are the ranked ones that are still to be taken, each once. */
  ghost predicate QueueOf(q: seq<nat>, weight: map<nat, nat>, done: set<nat>, from: nat) {
    && (forall t :: t in weight <==> t in done || t == from || t in q)
    && DistinctIds(q) && (forall t :: t in q ==> t !in done && t != from)
  }

  lemma QueueMore(q: seq<nat>, weight: map<nat, nat>, done: set<nat>, from: nat, u: nat, w: nat)
    requires QueueOf(q, weight, done, from) && u !in weight
    ensures QueueOf(q + [u], weight[u := w], done, from)
  {
  }

  lemma VisitKeepsInv(classes: seq<Class>, s: State, done: set<nat>, from: nat, seen: seq<nat>, u: nat)
    requires Inv(classes, s, done, from, seen) && u < |classes|
    requires Count(DependsOn(classes[u]), from) > Count(seen, u)
    ensures Inv(classes, Visited(s, u, from), done, from, seen + [u])
  {
    VisitWaits(classes, s, done, from, seen, u);
    if u in s.tocheck && from in s.tocheck[u] && Spliced(s.tocheck[u], IndexOf(s.tocheck[u], from)) == [] {
      LastVisitWeight(classes, s, done, from, seen, u);
      PushKeepsInv(classes, s, done, from, seen, u, Visited(s, u, from));
    }
  }

  lemma {:induction false} VisitsKeepInv(classes: seq<Class>, s: State, done: set<nat>, from: nat, targets: seq<nat>)
    requires Mirrored(classes) && Inv(classes, s, done, from, []) && from < |classes|
    requires targets <= Uses(classes[from])
    ensures Inv(classes, VisitedAll(s, targets, from), done, from, targets)
  {
    if targets != [] {
      var front, u := targets[..|targets| - 1], targets[|targets| - 1];
      VisitsKeepInv(classes, s, done, from, front);
      StillToVisit(classes, from, targets);
      VisitKeepsInv(classes, VisitedAll(s, front, from), done, from, front, u);
    }
  }

  lemma StillToVisit(classes: seq<Class>, from: nat, targets: seq<nat>)
    requires Mirrored(classes) && from < |classes| && targets <= Uses(classes[from]) && targets != []
    ensures var front, u := targets[..|targets| - 1], targets[|targets| - 1];
            targets == front + [u] && u < |classes| && Count(DependsOn(classes[u]), from) > Count(front, u)
  {
    var u := targets[|targets| - 1];
    assert u == Uses(classes[from])[|targets| - 1];
    CountPrefix(Uses(classes[from]), targets, u);
  }

  lemma CountPrefix(s: seq<nat>, p: seq<nat>, x: nat)
    requires p <= s
    ensures Count(p, x) <= Count(s, x)
  {
  }

  lemma TurnKeepsBetween(classes: seq<Class>, s: State, done: set<nat>)
    requires Mirrored(classes) && Between(classes, s, done) && s.queue != []
    ensures s.queue[0] !in done && Between(classes, Turn(classes, s), done + {s.queue[0]})
  {
    var from := s.queue[0];
    var rest := s.(queue := s.queue[1..]);
    StartsTurn(classes, s, done);
    VisitsKeepInv(classes, rest, done, from, Uses(classes[from]));
    EndsTurn(classes, Turn(classes, s), done, from);
  }

  lemma StartsTurn(classes: seq<Class>, s: State, done: set<nat>)
    requires Between(classes, s, done) && s.queue != []
    ensures Inv(classes, s.(queue := s.queue[1..]), done, s.queue[0], [])
  {
    var q := s.queue[1..];
    assert s.queue == [s.queue[0]] + q;
    assert forall i :: 0 <= i < |q| ==> q[i] == s.queue[i + 1];
    assert forall t :: t in s.tocheck ==> t < |classes|;
    forall t | t in s.tocheck
      ensures WaitsFor(classes, done, s.queue[0], [], t, s.tocheck[t])
    {
      assert WaitsFor(classes, done, 0, [], t, s.tocheck[t]);
    }
  }

  lemma EndsTurn(classes: seq<Class>, r: State, done: set<nat>, from: nat)
    requires Mirrored(classes) && from < |classes| && Inv(classes, r, done, from, Uses(classes[from]))
    ensures Between(classes, r, done + {from})
  {
  }

  // ----- the start

  /** The first `n` classes as they are at the start. */
  ghost predicate StartShape(classes: seq<Class>, s: State, n: nat)
    requires n <= |classes|
  {
    && (forall t: nat :: t in s.weight <==> t < n && DependsOn(classes[t]) == [])
    && (forall t :: t in s.weight ==> s.weight[t] == 0)
    && (forall t: nat :: t in s.tocheck <==> t < n && DependsOn(classes[t]) != [])
    && (forall t :: t in s.tocheck ==> s.tocheck[t] == DependsOn(classes[t]))
    && (forall t :: t in s.queue <==> t in s.weight)
    && DistinctIds(s.queue)
  }

  lemma NoDependants(k: Class)
    ensures DependsOn(k) == [] <==> k.inScope == [] && k.derived == []
  {
  }

  lemma StepStarts(classes: seq<Class>, s: State, n: nat, r: State)
    requires n < |classes| && StartShape(classes, s, n)
    requires r == if DependsOn(classes[n]) == [] then s.(queue := s.queue + [n], weight := s.weight[n := 0])
                  else s.(tocheck := s.tocheck[n := DependsOn(classes[n])])
    ensures StartShape(classes, r, n + 1)
  {
  }

  lemma InitialStep(classes: seq<Class>, n: nat, s: State)
    requires n < |classes| && s == Initial(classes, n)
    ensures Initial(classes, n + 1) ==
            if DependsOn(classes[n]) == [] then s.(queue := s.queue + [n], weight := s.weight[n := 0])
            else s.(tocheck := s.tocheck[n := DependsOn(classes[n])])
  {
    NoDependants(classes[n]);
  }

  lemma NothingStarts(classes: seq<Class>, s: State)
    requires s == State([], map[], map[])
    ensures StartShape(classes, s, 0)
  {
  }

  lemma InitialStarts(classes: seq<Class>, n: nat, s: State)
    requires n < |classes| && s == Initial(classes, n) && StartShape(classes, s, n)
    ensures StartShape(classes, Initial(classes, n + 1), n + 1)
  {
    InitialStep(classes, n, s);
    StepStarts(classes, s, n, Initial(classes, n + 1));
  }

  lemma {:induction false} InitialShape(classes: seq<Class>, n: nat)
    requires n <= |classes|
    ensures StartShape(classes, Initial(classes, n), n)
  {
    if n == 0 {
      NothingStarts(classes, Initial(classes, 0));
    } else {
      var m := n - 1;
      var s := Initial(classes, m);
      InitialShape(classes, m);
      InitialStarts(classes, m, s);
    }
  }

  lemma InitialBetween(classes: seq<Class>)
    ensures Between(classes, Initial(classes, |classes|), {})
  {
    InitialShape(classes, |classes|);
    StartBetween(classes, Initial(classes, |classes|));
  }

  lemma StartWaits(classes: seq<Class>, s: State)
    requires Queued(classes, s) && StartShape(classes, s, |classes|)
    ensures Waits(classes, s, {}, 0, [])
  {
  }

  lemma StartBetween(classes: seq<Class>, s: State)
    requires Queued(classes, s) && StartShape(classes, s, |classes|)
    ensures Between(classes, s, {})
  {
    StartWaits(classes, s);
  }

  // ----- whole runs

  /** The classes in the order in which they leave the queue. */
  function Order(classes: seq<Class>, s: State): seq<nat>
    requires Declared(classes) && Queued(classes, s)
    decreases |s.queue| + |s.tocheck|
  {
    if s.queue == [] then [] else [s.queue[0]] + Order(classes, Turn(classes, s))
  }

  lemma {:induction false} RunEnds(classes: seq<Class>, s: State, done: set<nat>, all: set<nat>)
    requires Mirrored(classes) && Between(classes, s, done) && all == done + Members(Order(classes, s))
    ensures Between(classes, Run(classes, s), all) && Run(classes, s).queue == []
    decreases |s.queue| + |s.tocheck|
  {
    if s.queue == [] {
      assert all == done;
    } else {
      TurnKeepsBetween(classes, s, done);
      var first, rest := s.queue[0], Order(classes, Turn(classes, s));
      MembersOfCons(first, rest);
      assert all == (done + {first}) + Members(rest);
      RunEnds(classes, Turn(classes, s), done + {first}, all);
    }
  }

  lemma {:induction false} OrderIsDistinct(classes: seq<Class>, s: State, done: set<nat>)
    requires Mirrored(classes) && Between(classes, s, done)
    ensures DistinctIds(Order(classes, s)) && Members(Order(classes, s)) !! done
    decreases |s.queue| + |s.tocheck|
  {
    if s.queue != [] {
      TurnKeepsBetween(classes, s, done);
      var first, rest := s.queue[0], Order(classes, Turn(classes, s));
      OrderIsDistinct(classes, Turn(classes, s), done + {first});
      MembersOfCons(first, rest);
    }
  }

  function Members(s: seq<nat>): set<nat> {
    set x | x in s
  }

  lemma MembersOfCons(x: nat, rest: seq<nat>)
    ensures Members([x] + rest) == {x} + Members(rest)
    ensures DistinctIds(rest) && x !in Members(rest) ==> DistinctIds([x] + rest)
  {
  }

  /** Once the queue is empty, what has no weight waits for something else without weight. */
  lemma UnrankedWaits(classes: seq<Class>, r: State, done: set<nat>, t: nat)
    requires Between(classes, r, done) && r.queue == [] && t < |classes| && t !in r.weight
    ensures exists d :: d in DependsOn(classes[t]) && d !in r.weight
  {
    var d := r.tocheck[t][0];
    CountIn(r.tocheck[t], d);
    CountIn(DependsOn(classes[t]), d);
    assert Count(r.tocheck[t], d) == Left(classes, done, 0, [], t, d);
    assert d in DependsOn(classes[t]) && d !in r.weight;
  }

  /** A run from the start. */
  lemma Stopped(classes: seq<Class>)
    requires Mirrored(classes)
    ensures var r, order := Run(classes, Initial(classes, |classes|)), Order(classes, Initial(classes, |classes|));
            && DistinctIds(order) && r.weight.Keys == Members(order) && Weighted(classes, r)
            && (forall t: nat :: t < |classes| && t !in r.weight ==>
                  exists d :: d in DependsOn(classes[t]) && d !in r.weight)
  {
    InitialBetween(classes);
    var s := Initial(classes, |classes|);
    var r, all := Run(classes, s), Members(Order(classes, s));
    OrderIsDistinct(classes, s, {});
    assert all == {} + all;
    RunEnds(classes, s, {}, all);
    RankedAtTheEnd(classes, r, all);
  }

  lemma RankedAtTheEnd(classes: seq<Class>, r: State, all: set<nat>)
    requires Between(classes, r, all) && r.queue == []
    ensures r.weight.Keys == all
    ensures forall t: nat :: t < |classes| && t !in r.weight ==>
              exists d :: d in DependsOn(classes[t]) && d !in r.weight
  {
    assert forall t :: t in r.weight <==> t in all;
    forall t: nat | t < |classes| && t !in r.weight ensures exists d :: d in DependsOn(classes[t]) && d !in r.weight {
      UnrankedWaits(classes, r, all, t);
    }
  }

  /** What the ranking assigns. */
  function Weights(classes: seq<Class>): map<nat, nat>
    requires Declared(classes)
  {
    Run(classes, Initial(classes, |classes|)).weight
  }

  /**
    A class that stays unranked waits for another one, which is further down in any rank: impossible without a
    cycle.
    */
  lemma {:induction false} NoneUnranked(classes: seq<Class>, rank: nat -> nat, t: nat)
    requires Mirrored(classes) && Ranks(classes, rank) && t < |classes|
    ensures t in Weights(classes)
    decreases rank(t)
  {
    Stopped(classes);
    if t !in Weights(classes) {
      var d :| d in DependsOn(classes[t]) && d !in Weights(classes);
      NoneUnranked(classes, rank, d);
    }
  }

  lemma WeightsRank(classes: seq<Class>)
    requires Mirrored(classes) && forall t: nat :: t < |classes| ==> t in Weights(classes)
    ensures Acyclic(classes)
  {
    Stopped(classes);
    var w := Weights(classes);
    var rank: nat -> nat := t => if t in w then w[t] else 0;
    forall t, d | 0 <= t < |classes| && d in DependsOn(classes[t]) ensures rank(d) < rank(t) {
      assert RightWeight(classes, w, t);
      var i :| 0 <= i < |DependsOn(classes[t])| && DependsOn(classes[t])[i] == d;
    }
    assert Ranks(classes, rank);
  }

  lemma AllRanked(classes: seq<Class>)
    requires Mirrored(classes) && Acyclic(classes)
    ensures forall t: nat :: t < |classes| ==> t in Weights(classes)
  {
    var rank: nat -> nat :| Ranks(classes, rank);
    forall t: nat | t < |classes| ensures t in Weights(classes) {
      NoneUnranked(classes, rank, t);
    }
  }

  /**
    Class ranking: whatever the class graph, the worklist stops, takes each class off the queue at most once, and
    gives every class it reaches a weight of one more than the heaviest of its inner and derived classes (zero
    without any). It reaches all classes if and only if the graph has no cycle.
    */
  lemma ClassRanking(classes: seq<Class>)
    requires Mirrored(classes)
    ensures var w, order := Weights(classes), Order(classes, Initial(classes, |classes|));
            && DistinctIds(order) && w.Keys == Members(order)
            && (forall t :: t in w ==> t < |classes| && RightWeight(classes, w, t))
    ensures (forall t: nat :: t < |classes| ==> t in Weights(classes)) <==> Acyclic(classes)
  {
    Stopped(classes);
    if Acyclic(classes) { AllRanked(classes); }
    if forall t: nat :: t < |classes| ==> t in Weights(classes) {
      WeightsRank(classes);
    }
  }

  /** The array sorted by descending weight, as `sortByWeight` leaves it. */
  predicate SortedByWeight(order: seq<nat>, weight: map<nat, nat>) {
    && (forall i :: 0 <= i < |order| ==> order[i] in weight)
    && (forall i, j :: 0 <= i < j < |order| ==> weight[order[i]] >= weight[order[j]])
  }

  lemma {:induction false} KnownExactly(us: seq<Option<nat>>, u: nat)
    ensures u in Known(us) <==> Some(u) in us
  {
    if us != [] {
      KnownExactly(us[..|us| - 1], u);
      assert us == us[..|us| - 1] + [us[|us| - 1]];
    }
  }

  /** `u` is the class around `k`, its base or one of its interfaces. */
  predicate IsUsedBy(u: nat, k: Class) {
    k.scopeId == Some(u) || k.base == Some(u) || Some(u) in k.interfaces
  }

  lemma UsedExactly(k: Class, u: nat)
    ensures u in Uses(k) <==> IsUsedBy(u, k)
  {
    KnownExactly([k.scopeId, k.base] + k.interfaces, u);
  }

  lemma DependantExactly(k: Class, d: nat)
    ensures d in DependsOn(k) <==> d in k.inScope || d in k.derived
  {
  }

  /** Sorting by weight puts every base, interface and enclosing class before the classes that use it. */
  lemma BasesComeFirst(classes: seq<Class>, order: seq<nat>, i: nat, j: nat)
    requires Mirrored(classes) && SortedByWeight(order, Weights(classes))
    requires i < |order| && j < |order| && order[j] < |classes| && IsUsedBy(order[i], classes[order[j]])
    ensures i < j
  {
    UsedExactly(classes[order[j]], order[i]);
    ClassRanking(classes);
    var u, c, w := order[i], order[j], Weights(classes);
    assert u < |classes|;
    CountIn(Uses(classes[c]), u);
    CountIn(DependsOn(classes[u]), c);
    assert RightWeight(classes, w, u);
  }
}
