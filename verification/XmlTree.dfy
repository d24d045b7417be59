/** The splitter run over the text of element trees, against a recursive search of the trees. */
module XmlTree {
  import opened XmlSplitter

  // ----- element trees and their text

  datatype Node =
    | Element(name: string, attrs: seq<string>, children: seq<Node>)
    | Text(text: string)
    | Instruction(text: string)

  function AttrText(attrs: seq<string>): string {
    if attrs == [] then "" else " " + attrs[0] + AttrText(attrs[1..])
  }

  function Print(n: Node): string {
    match n
    case Text(text) => text
    case Instruction(text) => "<?" + text + ">"
    case Element(name, attrs, children) =>
      "<" + name + AttrText(attrs) + ">" + PrintAll(children) + "</" + name + ">"
  }

  function PrintAll(ns: seq<Node>): string {
    if ns == [] then "" else Print(ns[0]) + PrintAll(ns[1..])
  }

  /** The text without the processing instructions in it, which chunks do not keep. */
  function Shown(n: Node): string {
    match n
    case Text(text) => text
    case Instruction(_) => ""
    case Element(name, attrs, children) =>
      "<" + name + AttrText(attrs) + ">" + ShownAll(children) + "</" + name + ">"
  }

  function ShownAll(ns: seq<Node>): string {
    if ns == [] then "" else Shown(ns[0]) + ShownAll(ns[1..])
  }

  predicate NoInstructions(n: Node) {
    match n
    case Text(_) => true
    case Instruction(_) => false
    case Element(_, _, children) => forall i :: 0 <= i < |children| ==> NoInstructions(children[i])
  }

  lemma {:induction false} ShownIsText(n: Node)
    requires NoInstructions(n)
    ensures Shown(n) == Print(n)
    decreases n, 1
  {
    if n.Element? {
      AllShownIsText(n.children);
    }
  }

  lemma {:induction false} AllShownIsText(ns: seq<Node>)
    requires forall i :: 0 <= i < |ns| ==> NoInstructions(ns[i])
    ensures ShownAll(ns) == PrintAll(ns)
    decreases ns, 0
  {
    if ns != [] {
      ShownIsText(ns[0]);
      AllShownIsText(ns[1..]);
    }
  }

  /** A character that only adds to the token being read. */
  predicate Plain(mode: Mode, c: char) {
    c != '<' && c != '>' && (mode.InTag? ==> c != '?') && (mode.InTag? || mode.InAttr? ==> c != ' ')
  }

  predicate AllPlain(mode: Mode, s: string) {
    forall i :: 0 <= i < |s| ==> Plain(mode, s[i])
  }

  /** Names, attributes and text free of markup characters. */
  predicate WellFormed(n: Node) {
    match n
    case Text(text) => AllPlain(Start, text)
    case Instruction(text) => AllPlain(InPi, text)
    case Element(name, attrs, children) =>
      && name != "" && name[0] != '/' && AllPlain(InTag, name)
      && (forall i :: 0 <= i < |attrs| ==> AllPlain(InAttr, attrs[i]))
      && AllWellFormed(children)
  }

  predicate AllWellFormed(ns: seq<Node>) {
    ns == [] || (WellFormed(ns[0]) && AllWellFormed(ns[1..]))
  }

  // ----- the search

  ghost predicate EmbedsAt(path: seq<string>, names: seq<string>, at: seq<nat>) {
    && |at| == |path|
    && (forall i :: 0 <= i < |at| ==> at[i] < |names| && names[at[i]] == path[i])
    && (forall i, j :: 0 <= i < j < |at| ==> at[i] < at[j])
  }

  /** The path names occur among the open names, in order, gaps allowed. */
  ghost predicate Embeds(path: seq<string>, names: seq<string>) {
    exists at :: EmbedsAt(path, names, at)
  }

  /** The texts, in document order, of the elements at which the open names complete the path. */
  ghost function Search(path: seq<string>, open: seq<string>, n: Node): seq<string>
    decreases n, 1
  {
    match n
    case Text(_) | Instruction(_) => []
    case Element(name, _, children) =>
      if Embeds(path, open + [name]) && !Embeds(path, open) then [Shown(n)] + SearchAll(path, open + [name], children)
      else SearchAll(path, open + [name], children)
  }

  ghost function SearchAll(path: seq<string>, open: seq<string>, ns: seq<Node>): seq<string>
    decreases ns, 0
  {
    if ns == [] then [] else Search(path, open, ns[0]) + SearchAll(path, open, ns[1..])
  }

  // ----- greedy matching

  function Advance(path: seq<string>, k: nat, name: string): (r: nat)
    requires k <= |path|
    ensures r <= |path|
  {
    if k < |path| && name == path[k] then k + 1 else k
  }

  function Greedy(path: seq<string>, names: seq<string>): (k: nat)
    ensures k <= |path|
  {
    if names == [] then 0 else Advance(path, Greedy(path, names[..|names| - 1]), names[|names| - 1])
  }

  lemma NothingOpen(part: seq<string>)
    requires part != []
    ensures !Embeds(part, [])
  {
    forall at: seq<nat>
      ensures !EmbedsAt(part, [], at)
    {
      assert |at| == |part| ==> at[0] >= 0;
    }
  }

  /** Greedy matching gets as far as any: a prefix of the path embeds if and only if it is no longer. */
  lemma {:induction false} GreedyIsBest(path: seq<string>, names: seq<string>, j: nat)
    requires j <= |path|
    ensures Embeds(path[..j], names) <==> j <= Greedy(path, names)
    decreases |names|
  {
    if j == 0 {
      assert EmbedsAt(path[..0], names, []);
    } else if names == [] {
      NothingOpen(path[..j]);
    } else {
      var front, name := names[..|names| - 1], names[|names| - 1];
      GreedyIsBest(path, front, j);
      GreedyIsBest(path, front, j - 1);
      if Embeds(path[..j], names) {
        var at: seq<nat> :| EmbedsAt(path[..j], names, at);
        EmbedsInFront(path, names, j, at);
      }
      if j <= Greedy(path, names) {
        if j <= Greedy(path, front) {
          var at: seq<nat> :| EmbedsAt(path[..j], front, at);
          assert EmbedsAt(path[..j], names, at);
        } else {
          var at: seq<nat> :| EmbedsAt(path[..j - 1], front, at);
          assert EmbedsAt(path[..j], names, at + [|front|]);
        }
      }
    }
  }

  lemma EmbedsInFront(path: seq<string>, names: seq<string>, j: nat, at: seq<nat>)
    requires 0 < j <= |path| && names != [] && EmbedsAt(path[..j], names, at)
    ensures var front := names[..|names| - 1];
            Embeds(path[..j - 1], front) && (Embeds(path[..j], front) || names[|names| - 1] == path[j - 1])
  {
    var front := names[..|names| - 1];
    assert at[j - 1] < |names| && names[at[j - 1]] == path[..j][j - 1];
    assert EmbedsAt(path[..j - 1], front, at[..j - 1]);
    if at[j - 1] < |front| {
      assert EmbedsAt(path[..j], front, at);
    }
  }

  /** The search in terms of how much of the path is matched. */
  function Hits(path: seq<string>, k: nat, n: Node): seq<string>
    requires k <= |path|
    decreases n, 1
  {
    match n
    case Text(_) | Instruction(_) => []
    case Element(name, _, children) =>
      var k' := Advance(path, k, name);
      (if k < k' == |path| then [Shown(n)] else []) + AllHits(path, k', children)
  }

  function AllHits(path: seq<string>, k: nat, ns: seq<Node>): seq<string>
    requires k <= |path|
    decreases ns, 0
  {
    if ns == [] then [] else Hits(path, k, ns[0]) + AllHits(path, k, ns[1..])
  }

  lemma {:induction false} SearchHits(path: seq<string>, open: seq<string>, n: Node)
    ensures Search(path, open, n) == Hits(path, Greedy(path, open), n)
    decreases n, 1
  {
    if n.Element? {
      GreedyIsBest(path, open, |path|);
      GreedyIsBest(path, open + [n.name], |path|);
      assert path[..|path|] == path;
      SearchAllHits(path, open + [n.name], n.children);
    }
  }

  lemma {:induction false} SearchAllHits(path: seq<string>, open: seq<string>, ns: seq<Node>)
    ensures SearchAll(path, open, ns) == AllHits(path, Greedy(path, open), ns)
    decreases ns, 0
  {
    if ns != [] {
      SearchHits(path, open, ns[0]);
      SearchAllHits(path, open, ns[1..]);
    }
  }

  lemma {:induction false} NoHitsInside(path: seq<string>, n: Node)
    ensures Hits(path, |path|, n) == []
    decreases n, 1
  {
    if n.Element? {
      NoHitsAmong(path, n.children);
    }
  }

  lemma {:induction false} NoHitsAmong(path: seq<string>, ns: seq<Node>)
    ensures AllHits(path, |path|, ns) == []
    decreases ns, 0
  {
    if ns != [] {
      NoHitsInside(path, ns[0]);
      NoHitsAmong(path, ns[1..]);
    }
  }

  // ----- parser and splitter in step

  datatype State = State(scan: Scan, split: Split, ok: bool)

  function Drive(path: seq<string>, x: State, text: string): State
    decreases |text|
  {
    if text == "" || !x.ok then x
    else
      var r := React(x.scan, text[0]);
      Drive(path, State(r.scan, HandleAll(path, x.split, r.events), r.ok), text[1..])
  }

  lemma {:induction false} DriveIsFeed(path: seq<string>, t: Split, r: Run, text: string)
    ensures var q := Feed(r, text);
            Drive(path, State(r.scan, HandleAll(path, t, r.events), r.ok), text) ==
            State(q.scan, HandleAll(path, t, q.events), q.ok)
    decreases |text|
  {
    if text != "" && r.ok {
      var reaction := React(r.scan, text[0]);
      HandleAppend(path, t, r.events, reaction.events);
      DriveIsFeed(path, t, Run(reaction.scan, r.events + reaction.events, reaction.ok), text[1..]);
    }
  }

  lemma {:induction false} DriveAppend(path: seq<string>, x: State, a: string, b: string)
    ensures Drive(path, x, a + b) == Drive(path, Drive(path, x, a), b)
    decreases |a|
  {
    if a == "" {
      assert a + b == b;
    } else if x.ok {
      assert (a + b)[0] == a[0] && (a + b)[1..] == a[1..] + b;
      var r := React(x.scan, a[0]);
      DriveAppend(path, State(r.scan, HandleAll(path, x.split, r.events), r.ok), a[1..], b);
    }
  }

  lemma {:induction false} DrivePlain(path: seq<string>, x: State, text: string)
    requires x.ok && AllPlain(x.scan.mode, text)
    ensures Drive(path, x, text) == x.(scan := Scan(x.scan.mode, x.scan.s + text))
    decreases |text|
  {
    if text == "" {
      assert x.scan.s + text == x.scan.s;
    } else {
      assert x.scan.s + [text[0]] + text[1..] == x.scan.s + text;
      DrivePlain(path, x.(scan := Scan(x.scan.mode, x.scan.s + [text[0]])), text[1..]);
    }
  }

  function Flushed(x: State): Split {
    x.split.(chunk := x.split.chunk + x.scan.s)
  }

  /** '<' in the text: what was read so far goes to the handler. */
  lemma DriveOpen(path: seq<string>, x: State)
    requires x.ok && x.scan.mode.Start?
    ensures Drive(path, x, "<") == State(Scan(InTag, ""), Flushed(x), true)
  {
    HandleFew(path, x.split, React(x.scan, '<').events);
    assert x.split.chunk + "" == x.split.chunk;
  }

  /** A word in a state that has read nothing of it. */
  lemma DriveWord(path: seq<string>, mode: Mode, t: Split, a: string, rest: string)
    requires AllPlain(mode, a)
    ensures Drive(path, State(Scan(mode, ""), t, true), a + rest) == Drive(path, State(Scan(mode, a), t, true), rest)
  {
    var x := State(Scan(mode, ""), t, true);
    DriveAppend(path, x, a, rest);
    DrivePlain(path, x, a);
    assert "" + a == a;
  }

  lemma AttrTextFirst(attrs: seq<string>)
    requires attrs != []
    ensures AttrText(attrs) + ">" == " " + (attrs[0] + (AttrText(attrs[1..]) + ">"))
  {
  }

  lemma NextAttr(path: seq<string>, t: Split, s: string, a: string, rest: string)
    requires AllPlain(InAttr, a)
    ensures Drive(path, State(Scan(InAttr, s), t, true), " " + (a + rest)) ==
            Drive(path, State(Scan(InAttr, a), t.(chunk := t.chunk + (" " + s)), true), rest)
  {
    var x := State(Scan(InAttr, s), t, true);
    DriveAppend(path, x, " ", a + rest);
    HandleFew(path, t, [Attr(s)]);
    DriveWord(path, InAttr, t.(chunk := t.chunk + (" " + s)), a, rest);
  }

  lemma LastAttr(path: seq<string>, t: Split, s: string)
    ensures Drive(path, State(Scan(InAttr, s), t, true), ">") ==
            State(Scan(Start, ""), t.(chunk := t.chunk + (" " + s) + ">"), true)
  {
    HandleFew(path, t, [Attr(s), EndAttr]);
  }

  lemma {:induction false} DriveAttrs(path: seq<string>, t: Split, s: string, attrs: seq<string>)
    requires forall i :: 0 <= i < |attrs| ==> AllPlain(InAttr, attrs[i])
    ensures Drive(path, State(Scan(InAttr, s), t, true), AttrText(attrs) + ">") ==
            State(Scan(Start, ""), t.(chunk := t.chunk + (" " + s) + (AttrText(attrs) + ">")), true)
    decreases attrs
  {
    if attrs == [] {
      assert AttrText(attrs) + ">" == ">";
      LastAttr(path, t, s);
    } else {
      var a, rest := attrs[0], AttrText(attrs[1..]) + ">";
      var chunk := t.chunk + (" " + s);
      AttrTextFirst(attrs);
      NextAttr(path, t, s, a, rest);
      DriveAttrs(path, t.(chunk := chunk), a, attrs[1..]);
      Regroup(chunk, " " + a, rest);
      Regroup(" ", a, rest);
    }
  }

  function StartTagText(n: Node): string
    requires n.Element?
  {
    "<" + n.name + AttrText(n.attrs) + ">"
  }

  lemma FirstAttr(path: seq<string>, t: Split, name: string, a: string, rest: string)
    requires name != "" && name[0] != '/' && AllPlain(InAttr, a)
    ensures Drive(path, State(Scan(InTag, name), t, true), " " + (a + rest)) ==
            Drive(path, State(Scan(InAttr, a), Handle(path, t, StartTag(name)), true), rest)
  {
    var x := State(Scan(InTag, name), t, true);
    DriveAppend(path, x, " ", a + rest);
    HandleFew(path, t, [StartTag(name)]);
    DriveWord(path, InAttr, Handle(path, t, StartTag(name)), a, rest);
  }

  lemma NoAttr(path: seq<string>, t: Split, name: string)
    requires name != "" && name[0] != '/'
    ensures var t' := Handle(path, t, StartTag(name));
            Drive(path, State(Scan(InTag, name), t, true), ">") ==
            State(Scan(Start, ""), t'.(chunk := t'.chunk + ">"), true)
  {
    HandleFew(path, t, [StartTag(name), EndAttr]);
  }

  /** Between "<name" and ">": the attributes, if any. */
  lemma DriveAfterName(path: seq<string>, t: Split, name: string, attrs: seq<string>)
    requires name != "" && name[0] != '/' && forall i :: 0 <= i < |attrs| ==> AllPlain(InAttr, attrs[i])
    ensures var t' := Handle(path, t, StartTag(name));
            Drive(path, State(Scan(InTag, name), t, true), AttrText(attrs) + ">") ==
            State(Scan(Start, ""), t'.(chunk := t'.chunk + (AttrText(attrs) + ">")), true)
  {
    if attrs == [] {
      assert AttrText(attrs) + ">" == ">";
      NoAttr(path, t, name);
    } else {
      var a, rest := attrs[0], AttrText(attrs[1..]) + ">";
      var t' := Handle(path, t, StartTag(name));
      AttrTextFirst(attrs);
      FirstAttr(path, t, name, a, rest);
      DriveAttrs(path, t', a, attrs[1..]);
      Regroup(t'.chunk, " " + a, rest);
      Regroup(" ", a, rest);
    }
  }

  /** A start tag: the handler gets the name, then the attributes. */
  lemma DriveStartTag(path: seq<string>, x: State, n: Node)
    requires x.ok && x.scan.mode.Start? && n.Element? && WellFormed(n)
    ensures var t := Handle(path, Flushed(x), StartTag(n.name));
            Drive(path, x, StartTagText(n)) ==
            State(Scan(Start, ""), t.(chunk := t.chunk + (AttrText(n.attrs) + ">")), true)
  {
    var name, rest := n.name, AttrText(n.attrs) + ">";
    assert StartTagText(n) == "<" + (name + rest);
    DriveAppend(path, x, "<", name + rest);
    DriveOpen(path, x);
    DriveWord(path, InTag, Flushed(x), name, rest);
    DriveAfterName(path, Flushed(x), name, n.attrs);
  }

  lemma DriveEndTag(path: seq<string>, x: State, name: string)
    requires x.ok && x.scan.mode.Start? && AllPlain(InTag, name)
    ensures Drive(path, x, "</" + name + ">") ==
            State(Scan(Start, ""), Handle(path, Flushed(x), EndTag(name)), true)
  {
    assert "</" + name + ">" == "<" + (("/" + name) + ">");
    DriveAppend(path, x, "<", ("/" + name) + ">");
    DriveOpen(path, x);
    var inTag := State(Scan(InTag, ""), Flushed(x), true);
    DriveAppend(path, inTag, "/" + name, ">");
    DrivePlain(path, inTag, "/" + name);
    assert "" + ("/" + name) == "/" + name && ("/" + name)[1..] == name;
    HandleFew(path, Flushed(x), [EndTag(name)]);
  }

  /** A processing instruction: the handler gets its text, and makes nothing of it. */
  lemma DriveInstruction(path: seq<string>, x: State, text: string)
    requires x.ok && x.scan.mode.Start? && AllPlain(InPi, text)
    ensures Drive(path, x, "<?" + text + ">") == State(Scan(Start, ""), Flushed(x), true)
  {
    assert "<?" + text + ">" == "<" + ("?" + (text + ">"));
    DriveAppend(path, x, "<", "?" + (text + ">"));
    DriveOpen(path, x);
    var inTag := State(Scan(InTag, ""), Flushed(x), true);
    DriveAppend(path, inTag, "?", text + ">");
    var inPi := State(Scan(InPi, ""), Flushed(x), true);
    assert Drive(path, inTag, "?") == inPi;
    DriveWord(path, InPi, Flushed(x), text, ">");
    HandleFew(path, Flushed(x), [Pi(text)]);
  }

  // ----- when the position stays the greedy match of the open names

  /**
    No element is opened, without matching the next path name, under the name last matched: its end tag would be
    taken for the end of the element matched.
    */
  predicate NoConfusion(path: seq<string>, k: nat, n: Node)
    requires k <= |path|
    decreases n, 1
  {
    match n
    case Text(_) | Instruction(_) => true
    case Element(name, _, children) =>
      var k' := Advance(path, k, name);
      (k' == k && k > 0 ==> name != path[k - 1]) && NoConfusionAmong(path, k', children)
  }

  predicate NoConfusionAmong(path: seq<string>, k: nat, ns: seq<Node>)
    requires k <= |path|
    decreases ns, 0
  {
    ns == [] || (NoConfusion(path, k, ns[0]) && NoConfusionAmong(path, k, ns[1..]))
  }

  /** No element with a path name lies inside another element of the same name. */
  predicate NoSelfNesting(path: seq<string>, open: set<string>, n: Node)
    decreases n, 1
  {
    match n
    case Text(_) | Instruction(_) => true
    case Element(name, _, children) =>
      (name in path ==> name !in open) && NoSelfNestingAmong(path, open + {name}, children)
  }

  predicate NoSelfNestingAmong(path: seq<string>, open: set<string>, ns: seq<Node>)
    decreases ns, 0
  {
    ns == [] || (NoSelfNesting(path, open, ns[0]) && NoSelfNestingAmong(path, open, ns[1..]))
  }

  lemma {:induction false} NotNestedNotConfused(path: seq<string>, k: nat, open: set<string>, n: Node)
    requires k <= |path| && (forall i :: 0 <= i < k ==> path[i] in open) && NoSelfNesting(path, open, n)
    ensures NoConfusion(path, k, n)
    decreases n, 1
  {
    if n.Element? {
      NoneNestedNoneConfused(path, Advance(path, k, n.name), open + {n.name}, n.children);
    }
  }

  lemma {:induction false} NoneNestedNoneConfused(path: seq<string>, k: nat, open: set<string>, ns: seq<Node>)
    requires k <= |path| && (forall i :: 0 <= i < k ==> path[i] in open) && NoSelfNestingAmong(path, open, ns)
    ensures NoConfusionAmong(path, k, ns)
    decreases ns, 0
  {
    if ns != [] {
      NotNestedNotConfused(path, k, open, ns[0]);
      NoneNestedNoneConfused(path, k, open, ns[1..]);
    }
  }

  /** The position the splitter is at after an element, whatever the element. */
  function SposAfter(path: seq<string>, k: nat, n: Node): (r: nat)
    requires k <= |path|
    ensures r <= |path|
    decreases n, 1
  {
    match n
    case Text(_) | Instruction(_) => k
    case Element(name, _, children) =>
      var k' := SposAfterAll(path, Advance(path, k, name), children);
      if k' > 0 && name == path[k' - 1] then k' - 1 else k'
  }

  function SposAfterAll(path: seq<string>, k: nat, ns: seq<Node>): (r: nat)
    requires k <= |path|
    ensures r <= |path|
    decreases ns, 0
  {
    if ns == [] then k else SposAfterAll(path, SposAfter(path, k, ns[0]), ns[1..])
  }

  /** Every element leaves the position as it found it, so that it is always the greedy match of the open names. */
  predicate Restores(path: seq<string>, k: nat, n: Node)
    requires k <= |path|
    decreases n, 1
  {
    && SposAfter(path, k, n) == k
    && match n
       case Text(_) | Instruction(_) => true
       case Element(name, _, children) => RestoresAll(path, Advance(path, k, name), children)
  }

  predicate RestoresAll(path: seq<string>, k: nat, ns: seq<Node>)
    requires k <= |path|
    decreases ns, 0
  {
    ns == [] || (Restores(path, k, ns[0]) && RestoresAll(path, SposAfter(path, k, ns[0]), ns[1..]))
  }

  /** The position is exact throughout if and only if no element confuses the splitter. */
  lemma {:induction false} RestoresIffNoConfusion(path: seq<string>, k: nat, n: Node)
    requires k <= |path|
    ensures Restores(path, k, n) <==> NoConfusion(path, k, n)
    decreases n, 1
  {
    if n.Element? {
      RestoresAllIffNoConfusion(path, Advance(path, k, n.name), n.children);
    }
  }

  lemma {:induction false} RestoresAllIffNoConfusion(path: seq<string>, k: nat, ns: seq<Node>)
    requires k <= |path|
    ensures RestoresAll(path, k, ns) <==> NoConfusionAmong(path, k, ns)
    ensures RestoresAll(path, k, ns) ==> SposAfterAll(path, k, ns) == k
    decreases ns, 0
  {
    if ns != [] {
      RestoresIffNoConfusion(path, k, ns[0]);
      RestoresAllIffNoConfusion(path, k, ns[1..]);
    }
  }

  /** The function is what the splitter does: its position after the text of an element, confused or not. */
  lemma {:induction false} DriveSpos(path: seq<string>, x: State, n: Node)
    requires x.ok && x.scan.mode.Start? && x.split.spos <= |path| && WellFormed(n)
    ensures var y := Drive(path, x, Print(n));
            y.ok && y.scan.mode.Start? && y.split.spos == SposAfter(path, x.split.spos, n)
    decreases n, 1
  {
    match n {
      case Text(text) =>
        DrivePlain(path, x, text);
      case Instruction(text) =>
        DriveInstruction(path, x, text);
      case Element(name, attrs, children) =>
        var body, end := PrintAll(children), "</" + name + ">";
        assert Print(n) == StartTagText(n) + (body + end);
        DriveAppend(path, x, StartTagText(n), body + end);
        DriveStartTag(path, x, n);
        var y := Drive(path, x, StartTagText(n));
        DriveAppend(path, y, body, end);
        DriveSposAll(path, y, children);
        DriveEndTag(path, Drive(path, y, body), name);
    }
  }

  lemma {:induction false} DriveSposAll(path: seq<string>, x: State, ns: seq<Node>)
    requires x.ok && x.scan.mode.Start? && x.split.spos <= |path| && AllWellFormed(ns)
    ensures var y := Drive(path, x, PrintAll(ns));
            y.ok && y.scan.mode.Start? && y.split.spos == SposAfterAll(path, x.split.spos, ns)
    decreases ns, 0
  {
    if ns != [] {
      DriveAppend(path, x, Print(ns[0]), PrintAll(ns[1..]));
      DriveSpos(path, x, ns[0]);
      DriveSposAll(path, Drive(path, x, Print(ns[0])), ns[1..]);
    }
  }

  // ----- what is emitted

  /** Driving `text` emits `hits`, leaves the position, and inside a match adds exactly what is shown to the chunk. */
  ghost predicate Emits(path: seq<string>, x: State, text: string, shown: string, hits: seq<string>) {
    var y := Drive(path, x, text);
    && y.ok && y.scan.mode.Start? && y.split.spos == x.split.spos
    && y.split.out == x.split.out + hits
    && (x.split.spos == |path| ==> y.split.chunk + y.scan.s == x.split.chunk + x.scan.s + shown)
  }

  lemma {:induction false} DriveEmits(path: seq<string>, x: State, n: Node)
    requires x.ok && x.scan.mode.Start? && x.split.spos <= |path|
    requires WellFormed(n) && NoConfusion(path, x.split.spos, n)
    ensures Emits(path, x, Print(n), Shown(n), Hits(path, x.split.spos, n))
    decreases n, 1
  {
    match n {
      case Text(text) =>
        DrivePlain(path, x, text);
        assert x.split.out + [] == x.split.out;
        assert x.split.chunk + (x.scan.s + text) == x.split.chunk + x.scan.s + text;
      case Instruction(text) =>
        DriveInstruction(path, x, text);
        assert x.split.out + [] == x.split.out && Flushed(x).chunk + "" == x.split.chunk + x.scan.s + "";
      case Element(name, attrs, children) =>
        var body, end := PrintAll(children), "</" + name + ">";
        assert Print(n) == StartTagText(n) + (body + end);
        DriveAppend(path, x, StartTagText(n), body + end);
        DriveStartTag(path, x, n);
        var y := Drive(path, x, StartTagText(n));
        DriveAppend(path, y, body, end);
        EmitsAll(path, y, children);
        var z := Drive(path, y, body);
        DriveEndTag(path, z, name);
        ElementEmits(path, x, n, y, z);
    }
  }

  /** What the splitter's state is after start tag and content, and what the end tag makes of it. */
  ghost predicate Surrounded(path: seq<string>, t: Split, before: string, n: Node, u: Split)
    requires n.Element? && t.spos <= |path|
  {
    var k' := Advance(path, t.spos, n.name);
    && u.spos == k'
    && u.out == t.out + AllHits(path, k', n.children)
    && (k' == |path| ==>
          u.chunk == (if k' > t.spos then "" else t.chunk + before) + StartTagText(n) + ShownAll(n.children))
  }

  lemma ElementText(n: Node, head: string)
    requires n.Element?
    ensures head + StartTagText(n) + ShownAll(n.children) + ("</" + n.name + ">") == head + Shown(n)
  {
    var end := "</" + n.name + ">";
    assert Shown(n) == StartTagText(n) + ShownAll(n.children) + end;
    Regroup(head, StartTagText(n), ShownAll(n.children));
    Regroup(head, StartTagText(n) + ShownAll(n.children), end);
  }

  lemma EndTagEmits(path: seq<string>, t: Split, before: string, n: Node, u: Split)
    requires n.Element? && t.spos <= |path| && NoConfusion(path, t.spos, n) && Surrounded(path, t, before, n, u)
    ensures var v := Handle(path, u, EndTag(n.name));
            && v.spos == t.spos && v.out == t.out + Hits(path, t.spos, n)
            && (t.spos == |path| ==> v.chunk == t.chunk + before + Shown(n))
  {
    var k' := Advance(path, t.spos, n.name);
    if k' == |path| {
      NoHitsAmong(path, n.children);
      ElementText(n, if k' > t.spos then "" else t.chunk + before);
      assert "" + Shown(n) == Shown(n);
    }
  }

  /** Start tag, content and end tag of an element put together. */
  lemma ElementEmits(path: seq<string>, x: State, n: Node, y: State, z: State)
    requires x.ok && x.scan.mode.Start? && x.split.spos <= |path|
    requires n.Element? && WellFormed(n) && NoConfusion(path, x.split.spos, n)
    requires y == Drive(path, x, StartTagText(n)) && z == Drive(path, y, PrintAll(n.children))
    requires y.ok && y.split.spos <= |path|
    requires Emits(path, y, PrintAll(n.children), ShownAll(n.children), AllHits(path, y.split.spos, n.children))
    requires Drive(path, x, Print(n)) == Drive(path, z, "</" + n.name + ">")
    ensures Emits(path, x, Print(n), Shown(n), Hits(path, x.split.spos, n))
  {
    StartTagMatches(path, x, n);
    DriveEndTag(path, z, n.name);
    EndTagEmits(path, x.split, x.scan.s, n, Flushed(z));
    var v := Handle(path, Flushed(z), EndTag(n.name));
    assert v.chunk + "" == v.chunk;
  }

  lemma StartTagMatches(path: seq<string>, x: State, n: Node)
    requires x.ok && x.scan.mode.Start? && x.split.spos <= |path| && n.Element? && WellFormed(n)
    ensures var y := Drive(path, x, StartTagText(n));
            && y.split.spos == Advance(path, x.split.spos, n.name) && y.split.out == x.split.out
            && y.split.chunk + y.scan.s ==
               (if y.split.spos > x.split.spos then "" else x.split.chunk + x.scan.s) + StartTagText(n)
  {
    DriveStartTag(path, x, n);
    var head := if Advance(path, x.split.spos, n.name) > x.split.spos then "" else x.split.chunk + x.scan.s;
    assert Handle(path, Flushed(x), StartTag(n.name)).chunk == head + ("<" + n.name);
    JoinTag(head, "<" + n.name, AttrText(n.attrs) + ">");
    Regroup("<" + n.name, AttrText(n.attrs), ">");
  }

  lemma JoinTag(head: string, name: string, attrs: string)
    ensures head + name + attrs + "" == head + (name + attrs)
  {
  }

  lemma EmitsThen(
    path: seq<string>, x: State, a: string, aShown: string, aHits: seq<string>, b: string, bShown: string,
    bHits: seq<string>)
    requires Emits(path, x, a, aShown, aHits) && Emits(path, Drive(path, x, a), b, bShown, bHits)
    ensures Emits(path, x, a + b, aShown + bShown, aHits + bHits)
  {
    DriveAppend(path, x, a, b);
    assert x.split.out + aHits + bHits == x.split.out + (aHits + bHits);
    Regroup(x.split.chunk + x.scan.s, aShown, bShown);
  }

  lemma {:induction false} EmitsAll(path: seq<string>, x: State, ns: seq<Node>)
    requires x.ok && x.scan.mode.Start? && x.split.spos <= |path|
    requires AllWellFormed(ns) && NoConfusionAmong(path, x.split.spos, ns)
    ensures Emits(path, x, PrintAll(ns), ShownAll(ns), AllHits(path, x.split.spos, ns))
    decreases ns, 0
  {
    if ns == [] {
      assert x.split.out + [] == x.split.out && x.split.chunk + x.scan.s + "" == x.split.chunk + x.scan.s;
    } else {
      DriveEmits(path, x, ns[0]);
      EmitsAll(path, Drive(path, x, Print(ns[0])), ns[1..]);
      var k := x.split.spos;
      EmitsThen(path, x, Print(ns[0]), Shown(ns[0]), Hits(path, k, ns[0]),
                PrintAll(ns[1..]), ShownAll(ns[1..]), AllHits(path, k, ns[1..]));
    }
  }

  // ----- the main results

  /**
    The splitter run over the text of a document emits, in document order, the text of each element at which the
    open names complete the path, and nothing else, if no element confuses it. That text is exact but for processing
    instructions, which may stand anywhere and are passed over.
    */
  lemma SplitterFindsElements(path: seq<string>, doc: seq<Node>)
    requires AllWellFormed(doc) && NoConfusionAmong(path, 0, doc)
    ensures var r := Feed(BEGIN, PrintAll(doc) + [END_OF_FILE]);
            r.ok && HandleAll(path, Split(0, "", []), r.events).out == SearchAll(path, [], doc)
  {
    var t := Split(0, "", []);
    var x := State(BEGIN.scan, t, true);
    DriveIsFeed(path, t, BEGIN, PrintAll(doc) + [END_OF_FILE]);
    DriveAppend(path, x, PrintAll(doc), [END_OF_FILE]);
    EmitsAll(path, x, doc);
    DrivePlain(path, Drive(path, x, PrintAll(doc)), [END_OF_FILE]);
    SearchAllHits(path, [], doc);
  }

  /** The same for documents in which no element with a path name lies inside another of that name. */
  lemma SplitterFindsElementsUnnested(path: seq<string>, doc: seq<Node>)
    requires AllWellFormed(doc) && NoSelfNestingAmong(path, {}, doc)
    ensures var r := Feed(BEGIN, PrintAll(doc) + [END_OF_FILE]);
            r.ok && HandleAll(path, Split(0, "", []), r.events).out == SearchAll(path, [], doc)
  {
    NoneNestedNoneConfused(path, 0, {}, doc);
    SplitterFindsElements(path, doc);
  }

  /** So a prolog of processing instructions and text, as of XML's own declaration, changes nothing. */
  lemma {:induction false} SearchBehindProlog(path: seq<string>, prolog: seq<Node>, doc: seq<Node>)
    requires forall i :: 0 <= i < |prolog| ==> !prolog[i].Element?
    ensures SearchAll(path, [], prolog + doc) == SearchAll(path, [], doc)
    ensures NoConfusionAmong(path, 0, prolog + doc) <==> NoConfusionAmong(path, 0, doc)
    decreases |prolog|
  {
    if prolog == [] {
      assert prolog + doc == doc;
    } else {
      assert (prolog + doc)[0] == prolog[0] && (prolog + doc)[1..] == prolog[1..] + doc;
      SearchBehindProlog(path, prolog[1..], doc);
      assert Search(path, [], prolog[0]) == [];
    }
  }

  ghost function Emitted(path: seq<string>, doc: seq<Node>): seq<string> {
    HandleAll(path, Split(0, "", []), Feed(BEGIN, PrintAll(doc) + [END_OF_FILE]).events).out
  }

  lemma SplitterPassesProlog(path: seq<string>, prolog: seq<Node>, doc: seq<Node>)
    requires forall i :: 0 <= i < |prolog| ==> !prolog[i].Element?
    requires AllWellFormed(prolog + doc) && AllWellFormed(doc) && NoConfusionAmong(path, 0, doc)
    ensures Feed(BEGIN, PrintAll(prolog + doc) + [END_OF_FILE]).ok
    ensures Emitted(path, prolog + doc) == Emitted(path, doc) == SearchAll(path, [], doc)
  {
    SearchBehindProlog(path, prolog, doc);
    SplitterFindsElements(path, prolog + doc);
    SplitterFindsElements(path, doc);
  }

  /** A '>' in text ends the parse: behind a document it makes no difference what comes after it. */
  lemma FreeCloseStops(path: seq<string>, doc: seq<Node>, rest: string)
    requires AllWellFormed(doc)
    ensures var r := Feed(BEGIN, PrintAll(doc) + (['>'] + rest));
            && !r.ok
            && HandleAll(path, Split(0, "", []), r.events).out == Emitted(path, doc)
  {
    var t := Split(0, "", []);
    var x := State(BEGIN.scan, t, true);
    var y := Drive(path, x, PrintAll(doc));
    DriveSposAll(path, x, doc);
    DriveIsFeed(path, t, BEGIN, PrintAll(doc) + (['>'] + rest));
    DriveAppend(path, x, PrintAll(doc), ['>'] + rest);
    StopsAtClose(path, y, rest);
    DriveIsFeed(path, t, BEGIN, PrintAll(doc) + [END_OF_FILE]);
    DriveAppend(path, x, PrintAll(doc), [END_OF_FILE]);
    DrivePlain(path, y, [END_OF_FILE]);
  }

  lemma StopsAtClose(path: seq<string>, x: State, rest: string)
    requires x.ok && x.scan.mode.Start?
    ensures !Drive(path, x, ['>'] + rest).ok && Drive(path, x, ['>'] + rest).split.out == x.split.out
  {
    assert (['>'] + rest)[1..] == rest;
    HandleFew(path, x.split, []);
  }

  // ----- the position and the open names

  /**
    Inside the open names, at position `k`: at the start of the element, and throughout it, `k` is their greedy
    match.
    */
  predicate GreedyAt(path: seq<string>, open: seq<string>, k: nat, n: Node)
    requires k <= |path|
    decreases n, 1
  {
    && k == Greedy(path, open)
    && match n
       case Text(_) | Instruction(_) => true
       case Element(name, _, children) => GreedyAllAt(path, open + [name], Advance(path, k, name), children)
  }

  /**
    At the start of each of the nodes, and behind the last, where the splitter stands is the greedy match of the
    open names.
    */
  predicate GreedyAllAt(path: seq<string>, open: seq<string>, k: nat, ns: seq<Node>)
    requires k <= |path|
    decreases ns, 0
  {
    if ns == [] then k == Greedy(path, open)
    else GreedyAt(path, open, k, ns[0]) && GreedyAllAt(path, open, SposAfter(path, k, ns[0]), ns[1..])
  }

  lemma {:induction false} GreedyIffNoConfusion(path: seq<string>, open: seq<string>, n: Node)
    ensures var k := Greedy(path, open);
            GreedyAt(path, open, k, n) && SposAfter(path, k, n) == k <==> NoConfusion(path, k, n)
    decreases n, 1
  {
    if n.Element? {
      var k := Greedy(path, open);
      assert (open + [n.name])[..|open|] == open;
      GreedyAllIffNoConfusion(path, open + [n.name], n.children);
      RestoresAllIffNoConfusion(path, Advance(path, k, n.name), n.children);
    }
  }

  lemma {:induction false} GreedyAllIffNoConfusion(path: seq<string>, open: seq<string>, ns: seq<Node>)
    ensures GreedyAllAt(path, open, Greedy(path, open), ns) <==> NoConfusionAmong(path, Greedy(path, open), ns)
    decreases ns, 0
  {
    if ns != [] {
      var k := Greedy(path, open);
      GreedyIffNoConfusion(path, open, ns[0]);
      if SposAfter(path, k, ns[0]) == k {
        GreedyAllIffNoConfusion(path, open, ns[1..]);
      } else {
        NotGreedyFromElsewhere(path, open, SposAfter(path, k, ns[0]), ns[1..]);
      }
    }
  }

  lemma NotGreedyFromElsewhere(path: seq<string>, open: seq<string>, k: nat, ns: seq<Node>)
    requires k <= |path| && k != Greedy(path, open)
    ensures !GreedyAllAt(path, open, k, ns)
  {
  }

  /**
    In a run over any document the splitter's position is the greedy match of the open names, before and behind
    every node, if and only if no element confuses it; and the position so described is the one the run ends with.
    */
  lemma PositionIsGreedyExactly(path: seq<string>, doc: seq<Node>)
    requires AllWellFormed(doc)
    ensures GreedyAllAt(path, [], 0, doc) <==> NoConfusionAmong(path, 0, doc)
    ensures var x := State(BEGIN.scan, Split(0, "", []), true);
            Drive(path, x, PrintAll(doc)).split.spos == SposAfterAll(path, 0, doc)
  {
    GreedyAllIffNoConfusion(path, [], doc);
    DriveSposAll(path, State(BEGIN.scan, Split(0, "", []), true), doc);
  }

  /** An element taken apart: start tag, content, and the one call for the end tag. */
  lemma DriveElement(path: seq<string>, x: State, n: Node)
    requires x.ok && x.scan.mode.Start? && x.split.spos <= |path| && n.Element? && WellFormed(n)
    ensures var y := Drive(path, x, StartTagText(n));
            var z := Drive(path, y, PrintAll(n.children));
            && y.ok && y.scan.mode.Start?
            && y.split.spos == Advance(path, x.split.spos, n.name) && y.split.out == x.split.out
            && z.ok && z.scan.mode.Start? && z.split.spos == SposAfterAll(path, y.split.spos, n.children)
            && Drive(path, x, Print(n)) == State(Scan(Start, ""), Handle(path, Flushed(z), EndTag(n.name)), true)
  {
    var body, end := PrintAll(n.children), "</" + n.name + ">";
    assert Print(n) == StartTagText(n) + (body + end);
    DriveAppend(path, x, StartTagText(n), body + end);
    DriveStartTag(path, x, n);
    StartTagMatches(path, x, n);
    var y := Drive(path, x, StartTagText(n));
    DriveAppend(path, y, body, end);
    DriveSposAll(path, y, n.children);
    DriveEndTag(path, Drive(path, y, body), n.name);
  }

  lemma ConfusedSearch(path: seq<string>, inner: Node, b: Node, outer: Node)
    requires path == ["a", "b"] && inner == Element("a", [], []) && b == Element("b", [], [])
    requires outer == Element("a", [], [inner, b])
    ensures AllWellFormed([outer]) && !NoConfusion(path, 0, outer) && AllHits(path, 0, [outer]) == [Shown(b)]
  {
    assert [inner, b][1..] == [b] && [b][1..] == [] && [outer][1..] == [];
    assert !NoConfusion(path, 1, inner);
    assert WellFormed(inner) && AllWellFormed([b]);
    assert AllHits(path, 1, [b]) == [Shown(b)];
    assert AllHits(path, 1, [inner, b]) == Hits(path, 1, inner) + AllHits(path, 1, [b]);
    assert AllHits(path, 0, [outer]) == Hits(path, 0, outer) + AllHits(path, 0, []);
  }

  lemma PrintTwo(a: Node, b: Node)
    ensures PrintAll([a, b]) == Print(a) + Print(b)
  {
    assert [a, b][1..] == [b] && [b][1..] == [];
    assert PrintAll([b]) == Print(b) + "" == Print(b);
  }

  lemma ConfusedRun(path: seq<string>, inner: Node, b: Node, outer: Node, x: State)
    requires path == ["a", "b"] && inner == Element("a", [], []) && b == Element("b", [], [])
    requires outer == Element("a", [], [inner, b]) && WellFormed(outer)
    requires x.ok && x.scan.mode.Start? && x.split.spos == 0
    ensures Drive(path, x, Print(outer)).split.out == x.split.out
  {
    PrintTwo(inner, b);
    DriveElement(path, x, outer);
    var y := Drive(path, x, StartTagText(outer));
    DriveAppend(path, y, Print(inner), Print(b));
    QuietLeaf(path, y, inner);
    QuietLeaf(path, Drive(path, y, Print(inner)), b);
  }

  /** An element without content that does not complete the path: nothing is emitted. */
  lemma QuietLeaf(path: seq<string>, x: State, n: Node)
    requires x.ok && x.scan.mode.Start? && x.split.spos <= |path| && n.Element? && WellFormed(n) && n.children == []
    requires Advance(path, x.split.spos, n.name) < |path|
    ensures var y := Drive(path, x, Print(n));
            y.ok && y.scan.mode.Start? && y.split.spos == SposAfter(path, x.split.spos, n) && y.split.out == x.split.out
  {
    DriveElement(path, x, n);
    var y := Drive(path, x, StartTagText(n));
    assert Drive(path, y, PrintAll(n.children)) == y;
  }

  /** In <a><a></a><b></b></a> the inner a/b is missed: the end of the inner a is taken for the end of the outer one. */
  lemma ConfusedDocument()
    ensures var path, b := ["a", "b"], Element("b", [], []);
            var doc := [Element("a", [], [Element("a", [], []), b])];
            && AllWellFormed(doc) && !NoConfusionAmong(path, 0, doc)
            && SearchAll(path, [], doc) == [Shown(b)]
            && Drive(path, State(BEGIN.scan, Split(0, "", []), true), PrintAll(doc)).split.out == []
  {
    var path, inner, b := ["a", "b"], Element("a", [], []), Element("b", [], []);
    var outer := Element("a", [], [inner, b]);
    ConfusedSearch(path, inner, b, outer);
    SearchAllHits(path, [], [outer]);
    assert PrintAll([outer]) == Print(outer) + PrintAll([outer][1..]);
    assert PrintAll([outer]) == Print(outer);
    ConfusedRun(path, inner, b, outer, State(BEGIN.scan, Split(0, "", []), true));
  }
}
