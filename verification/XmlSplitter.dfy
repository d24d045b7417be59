/** The streaming XML parser and the element-path splitter behind it. */
module XmlSplitter {

  // ----- what the parser tells its element handler

  datatype Event =
    | Pi(s: string)
    | StartTag(s: string)
    | Attr(s: string)
    | EndAttr
    | EndTag(s: string)
    | Content(s: string)

  // ----- the splitter: it keeps the names matched so far as a position, and the text since the last match

  datatype Split = Split(spos: nat, chunk: string, out: seq<string>)

  function Handle(path: seq<string>, t: Split, e: Event): Split {
    match e
    case Pi(_) => t
    case StartTag(s) =>
      if t.spos < |path| && s == path[t.spos] then t.(spos := t.spos + 1, chunk := "" + ("<" + s))
      else t.(chunk := t.chunk + ("<" + s))
    case Attr(s) => t.(chunk := t.chunk + (" " + s))
    case EndAttr => t.(chunk := t.chunk + ">")
    case EndTag(s) =>
      var chunk := t.chunk + ("</" + s + ">");
      if 0 < t.spos <= |path| && s == path[t.spos - 1] then
        Split(t.spos - 1, chunk, if t.spos == |path| then t.out + [chunk] else t.out)
      else t.(chunk := chunk)
    case Content(s) => t.(chunk := t.chunk + s)
  }

  function HandleAll(path: seq<string>, t: Split, es: seq<Event>): Split {
    if es == [] then t else Handle(path, HandleAll(path, t, es[..|es| - 1]), es[|es| - 1])
  }

  // ----- the receiver of the chunks: after each one it says whether it wants to go on

  type Receiver = seq<string> -> bool

  predicate AllAccepted(accepts: Receiver, chunks: seq<string>) {
    forall k :: 0 < k <= |chunks| ==> accepts(chunks[..k])
  }

  /** The chunks up to the first that the receiver refuses to go on after. */
  function Taken(accepts: Receiver, chunks: seq<string>): seq<string> {
    if chunks == [] || AllAccepted(accepts, chunks[..|chunks| - 1]) then chunks
    else Taken(accepts, chunks[..|chunks| - 1])
  }

  lemma {:induction false} TakenAtRefusal(accepts: Receiver, chunks: seq<string>, k: nat)
    requires 0 < k <= |chunks| && AllAccepted(accepts, chunks[..k - 1]) && !accepts(chunks[..k])
    ensures Taken(accepts, chunks) == chunks[..k] && !AllAccepted(accepts, chunks)
    decreases |chunks|
  {
    if k == |chunks| {
      assert chunks[..k] == chunks;
    } else {
      var front := chunks[..|chunks| - 1];
      assert front[..k] == chunks[..k] && front[..k - 1] == chunks[..k - 1];
      TakenAtRefusal(accepts, front, k);
    }
  }

  lemma RefusedHere(accepts: Receiver, all: seq<string>, before: seq<string>, chunks: seq<string>)
    requires AllAccepted(accepts, before) && |chunks| == |before| + 1 && before <= chunks <= all && !accepts(chunks)
    ensures Taken(accepts, all) == chunks && !AllAccepted(accepts, all)
  {
    assert all[..|chunks|] == chunks && all[..|chunks| - 1] == before;
    TakenAtRefusal(accepts, all, |chunks|);
  }

  lemma TakenAll(accepts: Receiver, chunks: seq<string>)
    requires AllAccepted(accepts, chunks)
    ensures Taken(accepts, chunks) == chunks
  {
    if chunks != [] {
      var front := chunks[..|chunks| - 1];
      forall k | 0 < k <= |front| ensures accepts(front[..k]) {
        assert front[..k] == chunks[..k];
      }
    }
  }

  lemma AcceptedMore(accepts: Receiver, chunks: seq<string>, more: seq<string>)
    requires AllAccepted(accepts, chunks)
    requires more == chunks || (|more| == |chunks| + 1 && chunks <= more && accepts(more))
    ensures AllAccepted(accepts, more)
  {
    forall k | 0 < k <= |more| ensures accepts(more[..k]) {
      if k <= |chunks| {
        assert more[..k] == chunks[..k];
      } else {
        assert more[..k] == more;
      }
    }
  }

  class XPathSplitterElem {
    const path: seq<string>
    const accepts: Receiver
    var spos: nat
    var chunk: string
    var chunks: seq<string>

    function View(): Split
      reads this
    {
      Split(spos, chunk, chunks)
    }

    constructor (path: seq<string>, accepts: Receiver)
      ensures this.path == path && this.accepts == accepts && View() == Split(0, "", [])
    {
      this.path, this.accepts := path, accepts;
      spos, chunk, chunks := 0, "", [];
    }

    method HandlePi(s: string)
      ensures View() == Handle(path, View(), Pi(s))
    {
    }

    method HandleStartTag(s: string)
      modifies this
      ensures View() == Handle(path, old(View()), StartTag(s))
    {
      if spos < |path| {
        if s == path[spos] {
          spos := spos + 1;
          chunk := "";
        }
      }
      chunk := chunk + ("<" + s);
    }

    method HandleAttr(s: string)
      modifies this
      ensures View() == Handle(path, old(View()), Attr(s))
    {
      chunk := chunk + (" " + s);
    }

    method HandleEndAttr()
      modifies this
      ensures View() == Handle(path, old(View()), EndAttr)
    {
      chunk := chunk + ">";
    }

    /** False if the receiver of the chunk does not want to go on; the position then stays. */
    method HandleEndTag(s: string) returns (go: bool)
      requires spos <= |path|
      modifies this
      ensures var t := Handle(path, old(View()), EndTag(s));
              && go == (t.out == old(chunks) || accepts(t.out))
              && View() == if go then t else t.(spos := old(spos))
    {
      chunk := chunk + ("</" + s + ">");
      if spos > 0 {
        if s == path[spos - 1] {
          if spos == |path| {
            chunks := chunks + [chunk];
            if !accepts(chunks) {
              return false;
            }
          }
          spos := spos - 1;
        }
      }
      return true;
    }

    method HandleContent(s: string)
      modifies this
      ensures View() == Handle(path, old(View()), Content(s))
    {
      chunk := chunk + s;
    }
  }

  // ----- the parser

  datatype Mode = Start | InPi | InTag | InAttr

  datatype Scan = Scan(mode: Mode, s: string)

  /** What one character leads to: the next state, the handler's calls, and whether parsing goes on. */
  datatype Reaction = Reaction(scan: Scan, events: seq<Event>, ok: bool)

  function React(p: Scan, c: char): Reaction {
    var more := Scan(p.mode, p.s + [c]);
    if c == '<' then
      if p.mode.Start? then Reaction(Scan(InTag, ""), if p.s != "" then [Content(p.s)] else [], true)
      else Reaction(p, [], true)
    else if c == '?' then
      Reaction(if p.mode.InTag? then Scan(InPi, p.s) else more, [], true)
    else if c == ' ' then
      match p.mode
      case InAttr => Reaction(Scan(InAttr, ""), [Attr(p.s)], true)
      case InTag => Reaction(Scan(InAttr, ""), [StartTag(p.s)], true)
      case _ => Reaction(more, [], true)
    else if c == '>' then
      match p.mode
      case Start => Reaction(p, [], false)
      case InAttr => Reaction(Scan(Start, ""), [Attr(p.s), EndAttr], true)
      case InTag =>
        if p.s != "" && p.s[0] == '/' then Reaction(Scan(Start, ""), [EndTag(p.s[1..])], true)
        else Reaction(Scan(Start, ""), [StartTag(p.s), EndAttr], true)
      case InPi => Reaction(Scan(Start, ""), [Pi(p.s)], true)
    else Reaction(more, [], true)
  }

  /** Parser and handler together after some text; `ok` is false once the parser has given up. */
  datatype Run = Run(scan: Scan, events: seq<Event>, ok: bool)

  const BEGIN := Run(Scan(Start, ""), [], true)

  function Feed(r: Run, text: string): Run
    decreases |text|
  {
    if text == "" || !r.ok then r
    else
      var reaction := React(r.scan, text[0]);
      Feed(Run(reaction.scan, r.events + reaction.events, reaction.ok), text[1..])
  }

  lemma {:induction false} FeedAppend(r: Run, a: string, b: string)
    ensures Feed(r, a + b) == Feed(Feed(r, a), b)
    decreases |a|
  {
    if a == "" {
      assert a + b == b;
    } else if r.ok {
      var reaction := React(r.scan, a[0]);
      assert (a + b)[0] == a[0] && (a + b)[1..] == a[1..] + b;
      FeedAppend(Run(reaction.scan, r.events + reaction.events, reaction.ok), a[1..], b);
    }
  }

  function WithoutOpens(t: string): string {
    if t == "" then "" else (if t[0] == '<' then "" else [t[0]]) + WithoutOpens(t[1..])
  }

  lemma FeedOne(r: Run, c: char)
    requires r.ok
    ensures var reaction := React(r.scan, c);
            Feed(r, [c]) == Run(reaction.scan, r.events + reaction.events, reaction.ok)
  {
    assert [c][1..] == "";
  }

  /** In a processing instruction everything is kept but '<'. */
  lemma {:induction false} FeedInPi(r: Run, t: string)
    requires r.ok && r.scan.mode.InPi? && '>' !in t
    ensures Feed(r, t) == r.(scan := Scan(InPi, r.scan.s + WithoutOpens(t)))
    decreases |t|
  {
    if t == "" {
      assert r.scan.s + "" == r.scan.s;
    } else {
      var next := if t[0] == '<' then r else r.(scan := Scan(InPi, r.scan.s + [t[0]]));
      assert r.events + [] == r.events;
      FeedInPi(next, t[1..]);
      assert r.scan.s + [t[0]] + WithoutOpens(t[1..]) == r.scan.s + ([t[0]] + WithoutOpens(t[1..]));
      assert r.scan.s + ("" + WithoutOpens(t[1..])) == r.scan.s + WithoutOpens(t[1..]);
    }
  }

  predicate PlainInTag(t: string) {
    forall i :: 0 <= i < |t| ==> t[i] != '<' && t[i] != '>' && t[i] != '?' && t[i] != ' '
  }

  lemma {:induction false} FeedInTag(r: Run, t: string)
    requires r.ok && r.scan.mode.InTag? && PlainInTag(t)
    ensures Feed(r, t) == r.(scan := Scan(InTag, r.scan.s + t))
    decreases |t|
  {
    if t == "" {
      assert r.scan.s + "" == r.scan.s;
    } else {
      assert r.events + [] == r.events;
      FeedInTag(r.(scan := Scan(InTag, r.scan.s + [t[0]])), t[1..]);
      assert r.scan.s + [t[0]] + t[1..] == r.scan.s + t;
    }
  }

  lemma TurnsToPi(r: Run, before: string)
    requires r.ok && r.scan == Scan(InTag, "") && PlainInTag(before)
    ensures Feed(r, before + "?") == r.(scan := Scan(InPi, before))
  {
    FeedAppend(r, before, "?");
    FeedInTag(r, before);
    assert "" + before == before && r.events + [] == r.events;
    FeedOne(r.(scan := Scan(InTag, before)), '?');
  }

  lemma EndsPi(r: Run, t: string)
    requires r.ok && r.scan.mode.InPi? && '>' !in t
    ensures Feed(r, t + ">") == Run(Scan(Start, ""), r.events + [Pi(r.scan.s + WithoutOpens(t))], true)
  {
    FeedAppend(r, t, ">");
    FeedInPi(r, t);
    FeedOne(r.(scan := Scan(InPi, r.scan.s + WithoutOpens(t))), '>');
  }

  /**
    A processing instruction, in text: the handler gets the text before it, if any, and then the instruction, which is
    what stands in the tag but for its first '?' and any '<'. Behind it the parser is in text again.
    */
  lemma InstructionScanned(r: Run, before: string, t: string)
    requires r.ok && r.scan.mode.Start? && PlainInTag(before) && '>' !in t
    ensures var content := if r.scan.s != "" then [Content(r.scan.s)] else [];
            Feed(r, "<" + ((before + "?") + (t + ">"))) ==
            Run(Scan(Start, ""), r.events + content + [Pi(before + WithoutOpens(t))], true)
  {
    FeedOne(r, '<');
    var inTag := Feed(r, ['<']);
    FeedAppend(r, ['<'], (before + "?") + (t + ">"));
    FeedAppend(inTag, before + "?", t + ">");
    TurnsToPi(inTag, before);
    EndsPi(inTag.(scan := Scan(InPi, before)), t);
  }

  /** What reading past the end yields; it is scanned like any other character. */
  const END_OF_FILE := 0xff as char

  lemma Regroup(a: string, b: string, c: string)
    ensures (a + b) + c == a + (b + c)
  {
  }

  lemma {:induction false} HandleAppend(path: seq<string>, t: Split, a: seq<Event>, b: seq<Event>)
    ensures HandleAll(path, t, a + b) == HandleAll(path, HandleAll(path, t, a), b)
  {
    if b == [] {
      assert a + b == a;
    } else {
      assert (a + b)[..|a + b| - 1] == a + b[..|b| - 1];
      HandleAppend(path, t, a, b[..|b| - 1]);
    }
  }

  lemma {:induction false} SposInPath(path: seq<string>, t: Split, es: seq<Event>)
    requires t.spos <= |path|
    ensures HandleAll(path, t, es).spos <= |path|
  {
    if es != [] {
      SposInPath(path, t, es[..|es| - 1]);
    }
  }

  lemma {:induction false} OutGrows(path: seq<string>, t: Split, es: seq<Event>)
    ensures t.out <= HandleAll(path, t, es).out
  {
    if es != [] {
      OutGrows(path, t, es[..|es| - 1]);
    }
  }

  lemma {:induction false} FeedExtends(r: Run, text: string)
    ensures r.events <= Feed(r, text).events
    decreases |text|
  {
    if text != "" && r.ok {
      var reaction := React(r.scan, text[0]);
      FeedExtends(Run(reaction.scan, r.events + reaction.events, reaction.ok), text[1..]);
    }
  }

  /** What has been emitted after some of the events stays in front of all that is emitted. */
  lemma EmittedStays(path: seq<string>, t: Split, es: seq<Event>, r: Run, text: string)
    requires r.events == es
    ensures HandleAll(path, t, es).out <= HandleAll(path, t, Feed(r, text).events).out
  {
    FeedExtends(r, text);
    var all := Feed(r, text).events;
    assert all == es + all[|es|..];
    HandleAppend(path, t, es, all[|es|..]);
    OutGrows(path, HandleAll(path, t, es), all[|es|..]);
  }

  /**
    Where the parser stops early, all that would have been emitted is what was, or begins with it and was refused
    there.
    */
  lemma Stops(
    path: seq<string>, accepts: Receiver, start: Split, scan: Scan, es: seq<Event>, text: string,
    before: seq<string>, chunks: seq<string>)
    requires text != "" && before == HandleAll(path, start, es).out && AllAccepted(accepts, before)
    requires var r := React(scan, text[0]);
             var t := HandleAll(path, start, es + r.events);
             && chunks == t.out && !(r.ok && AllAccepted(accepts, t.out))
             && (!AllAccepted(accepts, t.out) ==> |t.out| == |before| + 1 && before <= t.out && !accepts(t.out))
    ensures var f := Feed(Run(scan, es, true), text);
            var all := HandleAll(path, start, f.events).out;
            chunks == Taken(accepts, all) && !(f.ok && AllAccepted(accepts, all))
            && (AllAccepted(accepts, all) ==> f.events == es + React(scan, text[0]).events)
  {
    var r := React(scan, text[0]);
    var next := Run(r.scan, es + r.events, r.ok);
    EmittedStays(path, start, es + r.events, next, text[1..]);
    var all := HandleAll(path, start, Feed(next, text[1..]).events).out;
    if AllAccepted(accepts, chunks) {
      TakenAll(accepts, chunks);
    } else {
      RefusedHere(accepts, all, before, chunks);
    }
  }

  class XmlParser {

    /** Parses the input and calls the handler as it goes; false if a '>' stands free or the handler does not go on. */
    static method Process(input: string, elem: XPathSplitterElem) returns (ok: bool)
      requires elem.View() == Split(0, "", [])
      modifies elem
      ensures var r := Feed(BEGIN, input + [END_OF_FILE]);
              var all := HandleAll(elem.path, Split(0, "", []), r.events);
              && elem.chunks == Taken(elem.accepts, all.out)
              && ok == (r.ok && AllAccepted(elem.accepts, all.out))
              && (AllAccepted(elem.accepts, all.out) ==> elem.View() == all)
    {
      ghost var es: seq<Event> := [];
      ghost var start := elem.View();
      var text := input + [END_OF_FILE];
      var mode, s := Start, "";
      var i := 0;
      assert text[0..] == text;
      while i < |text|
        invariant 0 <= i <= |text|
        invariant elem.View() == HandleAll(elem.path, start, es) && elem.spos <= |elem.path|
        invariant AllAccepted(elem.accepts, elem.chunks)
        invariant Feed(BEGIN, text) == Feed(Run(Scan(mode, s), es, true), text[i..])
      {
        ghost var scan, before := Scan(mode, s), elem.chunks;
        ghost var reaction := React(scan, text[i]);
        assert text[i..][0] == text[i] && text[i..][1..] == text[i + 1..];
        HandleAppend(elem.path, start, es, reaction.events);
        SposInPath(elem.path, start, es + reaction.events);
        var go;
        mode, s, go := Consume(mode, s, text[i], elem);
        if !go {
          Stops(elem.path, elem.accepts, start, scan, es, text[i..], before, elem.chunks);
          return false;
        }
        es := es + reaction.events;
        i := i + 1;
      }
      TakenAll(elem.accepts, elem.chunks);
      return true;
    }

    /** One character; false if a '>' stands free or the handler does not go on. */
    static method Consume(mode: Mode, s: string, c: char, elem: XPathSplitterElem)
      returns (mode': Mode, s': string, go: bool)
      requires elem.spos <= |elem.path| && AllAccepted(elem.accepts, elem.chunks)
      modifies elem
      ensures var r := React(Scan(mode, s), c);
              var t := HandleAll(elem.path, old(elem.View()), r.events);
              && elem.chunks == t.out && (go ==> Scan(mode', s') == r.scan)
              && go == (r.ok && AllAccepted(elem.accepts, t.out))
              && (AllAccepted(elem.accepts, t.out) ==> elem.View() == t)
              && (!AllAccepted(elem.accepts, t.out) ==>
                    |t.out| == |old(elem.chunks)| + 1 && old(elem.chunks) <= t.out && !elem.accepts(t.out))
    {
      HandleFew(elem.path, elem.View(), React(Scan(mode, s), c).events);
      mode', s', go := mode, s, true;
      if c == '<' {
        if mode == Start {
          if s != "" {
            elem.HandleContent(s);
          }
          mode', s' := InTag, "";
        }
      } else if c == '?' {
        if mode == InTag {
          mode' := InPi;
        } else {
          s' := s + [c];
        }
      } else if c == ' ' {
        if mode == InAttr {
          elem.HandleAttr(s);
          s' := "";
        } else if mode == InTag {
          elem.HandleStartTag(s);
          mode', s' := InAttr, "";
        } else {
          s' := s + [c];
        }
      } else if c == '>' {
        if mode == Start {
          return mode, s, false;
        }
        go := TagEnd(mode, s, elem);
        mode', s' := Start, "";
      } else {
        s' := s + [c];
      }
    }

    /** A '>' in a tag; false if the handler does not go on. */
    static method TagEnd(mode: Mode, s: string, elem: XPathSplitterElem) returns (go: bool)
      requires mode != Start && elem.spos <= |elem.path| && AllAccepted(elem.accepts, elem.chunks)
      modifies elem
      ensures var t := HandleAll(elem.path, old(elem.View()), React(Scan(mode, s), '>').events);
              && elem.chunks == t.out
              && (go ==> elem.View() == t && AllAccepted(elem.accepts, elem.chunks))
              && (!go ==> |t.out| == |old(elem.chunks)| + 1 && old(elem.chunks) <= t.out && !elem.accepts(t.out))
              && (!go ==> !AllAccepted(elem.accepts, t.out))
    {
      HandleFew(elem.path, elem.View(), React(Scan(mode, s), '>').events);
      go := true;
      if mode == InAttr {
        elem.HandleAttr(s);
        elem.HandleEndAttr();
      } else if mode == InTag && s != "" && s[0] == '/' {
        ghost var before := elem.chunks;
        go := elem.HandleEndTag(s[1..]);
        if go {
          AcceptedMore(elem.accepts, before, elem.chunks);
        } else {
          RefusedHere(elem.accepts, elem.chunks, before, elem.chunks);
        }
      } else if mode == InTag {
        elem.HandleStartTag(s);
        elem.HandleEndAttr();
      } else {
        elem.HandlePi(s);
      }
    }
  }

  lemma HandleFew(path: seq<string>, t: Split, es: seq<Event>)
    requires |es| <= 2
    ensures HandleAll(path, t, es) ==
            if es == [] then t
            else if |es| == 1 then Handle(path, t, es[0])
            else Handle(path, Handle(path, t, es[0]), es[1])
  {
  }

  // ----- the splitter as it is used

  /** The element path split at its slashes. */
  function PathNames(xpath: string): (names: seq<string>)
    ensures names != []
  {
    if xpath == "" then [""]
    else if xpath[0] == '/' then [""] + PathNames(xpath[1..])
    else
      var names := PathNames(xpath[1..]);
      names[0 := [xpath[0]] + names[0]]
  }

  function JoinedBySlash(names: seq<string>): string
    requires names != []
  {
    if |names| == 1 then names[0] else names[0] + "/" + JoinedBySlash(names[1..])
  }

  lemma {:induction false} PathNamesOfName(name: string, rest: string)
    requires '/' !in name
    ensures PathNames(name) == [name]
    ensures PathNames(name + "/" + rest) == [name] + PathNames(rest)
    decreases |name|
  {
    if name == "" {
      assert (name + "/" + rest)[1..] == rest;
    } else {
      PathNamesOfName(name[1..], rest);
      assert (name + "/" + rest)[1..] == name[1..] + "/" + rest;
      assert name == [name[0]] + name[1..];
    }
  }

  /** Any names without slashes are what the path joined from them splits into. */
  lemma {:induction false} PathNamesRoundTrip(names: seq<string>)
    requires names != [] && forall i :: 0 <= i < |names| ==> '/' !in names[i]
    ensures PathNames(JoinedBySlash(names)) == names
  {
    if |names| == 1 {
      PathNamesOfName(names[0], "");
    } else {
      PathNamesRoundTrip(names[1..]);
      PathNamesOfName(names[0], JoinedBySlash(names[1..]));
    }
  }

  /** Runs the splitter for a path over some input. */
  method SplitInput(xpath: string, input: string, accepts: Receiver) returns (ok: bool, chunks: seq<string>)
    ensures var r := Feed(BEGIN, input + [END_OF_FILE]);
            var all := HandleAll(PathNames(xpath), Split(0, "", []), r.events).out;
            chunks == Taken(accepts, all) && ok == (r.ok && AllAccepted(accepts, all))
  {
    var elem := new XPathSplitterElem(PathNames(xpath), accepts);
    ok := XmlParser.Process(input, elem);
    chunks := elem.chunks;
  }
}
