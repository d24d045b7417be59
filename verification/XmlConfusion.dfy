/** What the splitter makes of documents in which some element confuses it. */
module XmlConfusion {
  import opened XmlSplitter
  import opened XmlTree

  // ----- what is emitted stays emitted

  lemma {:induction false} HandleKeepsOut(path: seq<string>, t: Split, es: seq<Event>)
    ensures t.out <= HandleAll(path, t, es).out
  {
    if es != [] {
      HandleKeepsOut(path, t, es[..|es| - 1]);
    }
  }

  lemma {:induction false} DriveKeepsOut(path: seq<string>, x: State, text: string)
    ensures x.split.out <= Drive(path, x, text).split.out
    decreases |text|
  {
    if text != "" && x.ok {
      var r := React(x.scan, text[0]);
      HandleKeepsOut(path, x.split, r.events);
      DriveKeepsOut(path, State(r.scan, HandleAll(path, x.split, r.events), r.ok), text[1..]);
    }
  }

  // ----- confusion inside a match: the match ends too early

  /** How long the chunk is, with what was read and not handed over. */
  function Held(x: State): nat {
    |x.split.chunk| + |x.scan.s|
  }

  /** Driving `text` emits something, and first a chunk of at most this length. */
  ghost predicate CutsShort(path: seq<string>, x: State, text: string, limit: nat) {
    var before, out := x.split.out, Drive(path, x, text).split.out;
    |before| < |out| && |out[|before|]| <= limit
  }

  lemma CutsShortBefore(path: seq<string>, x: State, a: string, b: string, limit: nat)
    requires CutsShort(path, x, a, limit)
    ensures CutsShort(path, x, a + b, limit)
  {
    DriveAppend(path, x, a, b);
    DriveKeepsOut(path, Drive(path, x, a), b);
  }

  lemma CutsShortBehind(path: seq<string>, x: State, a: string, b: string, limit: nat)
    requires Drive(path, x, a).split.out == x.split.out && CutsShort(path, Drive(path, x, a), b, limit)
    ensures CutsShort(path, x, a + b, limit)
  {
    DriveAppend(path, x, a, b);
  }

  /** Inside a match, an element of the match's own name ends it. */
  lemma EndedByOwnName(path: seq<string>, x: State, n: Node)
    requires x.ok && x.scan.mode.Start? && x.split.spos == |path| > 0
    requires n.Element? && WellFormed(n) && n.name == path[|path| - 1] && NoConfusionAmong(path, |path|, n.children)
    ensures CutsShort(path, x, Print(n), Held(x) + |Shown(n)|)
  {
    var y := Drive(path, x, StartTagText(n));
    DriveElement(path, x, n);
    StartTagMatches(path, x, n);
    EmitsAll(path, y, n.children);
    NoHitsAmong(path, n.children);
    var z := Drive(path, y, PrintAll(n.children));
    ElementText(n, x.split.chunk + x.scan.s);
    assert Flushed(z).chunk + ("</" + n.name + ">") == x.split.chunk + x.scan.s + Shown(n);
  }

  lemma {:induction false} ConfusedCutsShort(path: seq<string>, x: State, n: Node)
    requires x.ok && x.scan.mode.Start? && x.split.spos == |path| > 0
    requires WellFormed(n) && !NoConfusion(path, |path|, n)
    ensures CutsShort(path, x, Print(n), Held(x) + |Shown(n)|)
    decreases n, 1
  {
    if NoConfusionAmong(path, |path|, n.children) {
      EndedByOwnName(path, x, n);
    } else {
      var head, body, end := StartTagText(n), PrintAll(n.children), "</" + n.name + ">";
      var y := Drive(path, x, head);
      DriveElement(path, x, n);
      StartTagMatches(path, x, n);
      ConfusedAmongCutsShort(path, y, n.children);
      assert Print(n) == head + (body + end);
      assert |y.split.chunk + y.scan.s| == Held(x) + |head|;
      var limit := Held(x) + |Shown(n)|;
      assert CutsShort(path, y, body, limit);
      CutsShortBefore(path, y, body, end, limit);
      CutsShortBehind(path, x, head, body + end, limit);
    }
  }

  lemma {:induction false} ConfusedAmongCutsShort(path: seq<string>, x: State, ns: seq<Node>)
    requires x.ok && x.scan.mode.Start? && x.split.spos == |path| > 0
    requires AllWellFormed(ns) && !NoConfusionAmong(path, |path|, ns)
    ensures CutsShort(path, x, PrintAll(ns), Held(x) + |ShownAll(ns)|)
    decreases ns, 0
  {
    var limit := Held(x) + |ShownAll(ns)|;
    if NoConfusion(path, |path|, ns[0]) {
      DriveEmits(path, x, ns[0]);
      NoHitsInside(path, ns[0]);
      var y := Drive(path, x, Print(ns[0]));
      assert |y.split.chunk + y.scan.s| == Held(x) + |Shown(ns[0])|;
      ConfusedAmongCutsShort(path, y, ns[1..]);
      CutsShortBehind(path, x, Print(ns[0]), PrintAll(ns[1..]), limit);
    } else {
      ConfusedCutsShort(path, x, ns[0]);
      assert CutsShort(path, x, Print(ns[0]), limit);
      CutsShortBefore(path, x, Print(ns[0]), PrintAll(ns[1..]), limit);
    }
  }

  // ----- paths of one name: right exactly without confusion

  /** One of the hits is emitted cut short. */
  ghost predicate GoesWrong(path: seq<string>, x: State, text: string, hits: seq<string>) {
    exists i: nat :: ShortAt(x.split.out, Drive(path, x, text).split.out, hits, i)
  }

  predicate ShortAt(before: seq<string>, out: seq<string>, hits: seq<string>, i: nat) {
    i < |hits| && |before| + i < |out| && |out[|before| + i]| < |hits[i]|
  }

  lemma WrongBefore(path: seq<string>, x: State, a: string, aHits: seq<string>, b: string, bHits: seq<string>)
    requires GoesWrong(path, x, a, aHits)
    ensures GoesWrong(path, x, a + b, aHits + bHits)
  {
    var y := Drive(path, x, a);
    var i: nat :| ShortAt(x.split.out, y.split.out, aHits, i);
    DriveAppend(path, x, a, b);
    DriveKeepsOut(path, y, b);
    assert ShortAt(x.split.out, Drive(path, y, b).split.out, aHits + bHits, i);
  }

  lemma WrongBehind(path: seq<string>, x: State, a: string, aHits: seq<string>, b: string, bHits: seq<string>)
    requires Drive(path, x, a).split.out == x.split.out + aHits && GoesWrong(path, Drive(path, x, a), b, bHits)
    ensures GoesWrong(path, x, a + b, aHits + bHits)
  {
    var y := Drive(path, x, a);
    var z := Drive(path, y, b);
    var i: nat :| ShortAt(y.split.out, z.split.out, bHits, i);
    DriveAppend(path, x, a, b);
    assert ShortAt(x.split.out, z.split.out, aHits + bHits, |aHits| + i);
  }

  lemma PrintParts(n: Node)
    requires n.Element?
    ensures Print(n) == StartTagText(n) + (PrintAll(n.children) + ("</" + n.name + ">"))
  {
  }

  lemma WrongInside(path: seq<string>, x: State, n: Node, hits: seq<string>)
    requires n.Element? && Drive(path, x, StartTagText(n)).split.out == x.split.out
    requires GoesWrong(path, Drive(path, x, StartTagText(n)), PrintAll(n.children), hits)
    ensures GoesWrong(path, x, Print(n), [] + hits)
  {
    var head, body, end := StartTagText(n), PrintAll(n.children), "</" + n.name + ">";
    WrongBefore(path, Drive(path, x, head), body, hits, end, []);
    assert hits + [] == hits && x.split.out + [] == x.split.out;
    WrongBehind(path, x, head, [], body + end, hits);
    PrintParts(n);
  }

  /** The first element of the path's only name is cut short by another inside it. */
  lemma MatchGoesWrong(path: seq<string>, x: State, n: Node)
    requires |path| == 1 && x.ok && x.scan.mode.Start? && x.split.spos == 0
    requires n.Element? && n.name == path[0] && WellFormed(n) && !NoConfusionAmong(path, 1, n.children)
    ensures GoesWrong(path, x, Print(n), Hits(path, 0, n))
  {
    var head, body, end := StartTagText(n), PrintAll(n.children), "</" + n.name + ">";
    var y := Drive(path, x, head);
    DriveElement(path, x, n);
    StartTagMatches(path, x, n);
    ConfusedAmongCutsShort(path, y, n.children);
    assert |y.split.chunk + y.scan.s| == |head|;
    PrintParts(n);
    var limit := |head| + |ShownAll(n.children)|;
    CutsShortBefore(path, y, body, end, limit);
    CutsShortBehind(path, x, head, body + end, limit);
    assert ShortAt(x.split.out, Drive(path, x, Print(n)).split.out, Hits(path, 0, n), 0);
  }

  lemma {:induction false} ConfusedGoesWrong(path: seq<string>, x: State, n: Node)
    requires |path| == 1 && x.ok && x.scan.mode.Start? && x.split.spos == 0
    requires WellFormed(n) && !NoConfusion(path, 0, n)
    ensures GoesWrong(path, x, Print(n), Hits(path, 0, n))
    decreases n, 1
  {
    if n.name == path[0] {
      MatchGoesWrong(path, x, n);
    } else {
      DriveElement(path, x, n);
      ConfusedAmongGoesWrong(path, Drive(path, x, StartTagText(n)), n.children);
      WrongInside(path, x, n, AllHits(path, 0, n.children));
      assert Hits(path, 0, n) == [] + AllHits(path, 0, n.children);
    }
  }

  lemma {:induction false} ConfusedAmongGoesWrong(path: seq<string>, x: State, ns: seq<Node>)
    requires |path| == 1 && x.ok && x.scan.mode.Start? && x.split.spos == 0
    requires AllWellFormed(ns) && !NoConfusionAmong(path, 0, ns)
    ensures GoesWrong(path, x, PrintAll(ns), AllHits(path, 0, ns))
    decreases ns, 0
  {
    var n, rest := ns[0], ns[1..];
    if NoConfusion(path, 0, n) {
      DriveEmits(path, x, n);
      ConfusedAmongGoesWrong(path, Drive(path, x, Print(n)), rest);
      WrongBehind(path, x, Print(n), Hits(path, 0, n), PrintAll(rest), AllHits(path, 0, rest));
    } else {
      ConfusedGoesWrong(path, x, n);
      WrongBefore(path, x, Print(n), Hits(path, 0, n), PrintAll(rest), AllHits(path, 0, rest));
    }
  }

  /**
    For a path of one name, what is emitted is what the search finds if and only if no element confuses the
    splitter.
    */
  lemma OneNameExactly(path: seq<string>, doc: seq<Node>)
    requires |path| == 1 && AllWellFormed(doc)
    ensures var r := Feed(BEGIN, PrintAll(doc) + [END_OF_FILE]);
            HandleAll(path, Split(0, "", []), r.events).out == SearchAll(path, [], doc) <==>
            NoConfusionAmong(path, 0, doc)
  {
    if NoConfusionAmong(path, 0, doc) {
      SplitterFindsElements(path, doc);
    } else {
      var t := Split(0, "", []);
      var x := State(BEGIN.scan, t, true);
      DriveIsFeed(path, t, BEGIN, PrintAll(doc) + [END_OF_FILE]);
      ConfusedAmongGoesWrong(path, x, doc);
      WrongBefore(path, x, PrintAll(doc), AllHits(path, 0, doc), [END_OF_FILE], []);
      assert AllHits(path, 0, doc) + [] == AllHits(path, 0, doc);
      SearchAllHits(path, [], doc);
    }
  }

  // ----- confusion on the way to a match: what comes behind is missed

  /** Elements of the path's names from position `k` on, one inside the other. */
  function Chain(path: seq<string>, k: nat): (n: Node)
    requires k < |path|
    ensures n.Element?
    decreases |path| - k
  {
    Element(path[k], [], if k + 1 < |path| then [Chain(path, k + 1)] else [])
  }

  predicate ProperNames(path: seq<string>) {
    forall i :: 0 <= i < |path| ==> path[i] != "" && path[i][0] != '/' && AllPlain(InTag, path[i])
  }

  function Elements(n: Node): nat
    decreases n, 1
  {
    match n
    case Text(_) | Instruction(_) => 0
    case Element(_, _, children) => 1 + ElementsAmong(children)
  }

  function ElementsAmong(ns: seq<Node>): nat
    decreases ns, 0
  {
    if ns == [] then 0 else Elements(ns[0]) + ElementsAmong(ns[1..])
  }

  lemma {:induction false} ChainIsFound(path: seq<string>, k: nat)
    requires k < |path|
    ensures Hits(path, k, Chain(path, k)) == [Shown(Chain(path, |path| - 1))]
    ensures Elements(Chain(path, k)) == |path| - k
    ensures ProperNames(path) ==> WellFormed(Chain(path, k))
    decreases |path| - k
  {
    if k + 1 < |path| {
      ChainIsFound(path, k + 1);
      var inner := Chain(path, k + 1);
      assert [inner][1..] == [];
      assert AllHits(path, k + 1, [inner]) == Hits(path, k + 1, inner) + [];
      assert ElementsAmong([inner]) == Elements(inner) + ElementsAmong([]);
    }
  }

  /** Fewer elements than names are missing complete no match. */
  lemma {:induction false} TooFewElements(path: seq<string>, x: State, n: Node)
    requires x.ok && x.scan.mode.Start? && WellFormed(n) && x.split.spos + Elements(n) < |path|
    ensures var y := Drive(path, x, Print(n)); y.split.out == x.split.out && y.split.spos <= x.split.spos + Elements(n)
    decreases n, 1
  {
    DriveSpos(path, x, n);
    match n {
      case Text(text) => DrivePlain(path, x, text);
      case Instruction(text) => DriveInstruction(path, x, text);
      case Element(name, _, children) =>
        DriveElement(path, x, n);
        TooFewAmong(path, Drive(path, x, StartTagText(n)), children);
    }
  }

  lemma {:induction false} TooFewAmong(path: seq<string>, x: State, ns: seq<Node>)
    requires x.ok && x.scan.mode.Start? && AllWellFormed(ns) && x.split.spos + ElementsAmong(ns) < |path|
    ensures var y := Drive(path, x, PrintAll(ns));
            y.split.out == x.split.out && y.split.spos <= x.split.spos + ElementsAmong(ns)
    decreases ns, 0
  {
    if ns != [] {
      DriveAppend(path, x, Print(ns[0]), PrintAll(ns[1..]));
      DriveSpos(path, x, ns[0]);
      TooFewElements(path, x, ns[0]);
      TooFewAmong(path, Drive(path, x, Print(ns[0])), ns[1..]);
    }
  }

  /** No element leaves the position higher than it found it. */
  lemma {:induction false} NeverHigher(path: seq<string>, k: nat, n: Node)
    requires k <= |path|
    ensures SposAfter(path, k, n) <= k
    ensures n.Element? && 0 < k < |path| && n.name == path[k - 1] && n.name != path[k] ==> SposAfter(path, k, n) < k
    decreases n, 1
  {
    if n.Element? {
      NeverHigherAfter(path, Advance(path, k, n.name), n.children);
    }
  }

  lemma {:induction false} NeverHigherAfter(path: seq<string>, k: nat, ns: seq<Node>)
    requires k <= |path|
    ensures SposAfterAll(path, k, ns) <= k
    decreases ns, 0
  {
    if ns != [] {
      NeverHigher(path, k, ns[0]);
      NeverHigherAfter(path, SposAfter(path, k, ns[0]), ns[1..]);
    }
  }

  /**
    So on the way to a match the condition is needed as well: behind any element that confuses the splitter, the
    remaining names of the path, one inside the other, are found by the search and not emitted.
    */
  lemma MissedBehindConfused(path: seq<string>, open: seq<string>, x: State, n: Node)
    requires x.ok && x.scan.mode.Start? && x.split.spos == Greedy(path, open) && ProperNames(path)
    requires 0 < Greedy(path, open) < |path|
    requires n.Element? && WellFormed(n) && n.name == path[Greedy(path, open) - 1] && n.name != path[Greedy(path, open)]
    ensures var b := Chain(path, Greedy(path, open));
            && WellFormed(b)
            && SearchAll(path, open, [n, b]) == Search(path, open, n) + [Shown(Chain(path, |path| - 1))]
            && Drive(path, x, Print(n) + Print(b)).split.out == Drive(path, x, Print(n)).split.out
  {
    var k := Greedy(path, open);
    var b := Chain(path, k);
    ChainIsFound(path, k);
    SearchHits(path, open, b);
    assert [n, b][1..] == [b] && [b][1..] == [];
    assert SearchAll(path, open, [b]) == Search(path, open, b) + [];
    DriveAppend(path, x, Print(n), Print(b));
    DriveSpos(path, x, n);
    NeverHigher(path, k, n);
    TooFewElements(path, Drive(path, x, Print(n)), b);
  }
}
