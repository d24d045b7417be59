/** What the XML parser keeps of its input. */
module XmlLossless {
  import opened XmlSplitter

  /** The text an event stands for, as the splitter puts it into its chunk; processing instructions are left out. */
  function EventText(e: Event): string {
    match e
    case Pi(_) => ""
    case StartTag(s) => ['<'] + s
    case Attr(s) => [' '] + s
    case EndAttr => ['>']
    case EndTag(s) => "</" + s + ">"
    case Content(s) => s
  }

  function Rebuilt(es: seq<Event>): string {
    if es == [] then "" else Rebuilt(es[..|es| - 1]) + EventText(es[|es| - 1])
  }

  /** A splitter whose first path name is never opened collects just that text, and emits nothing. */
  lemma {:induction false} ChunkRebuilds(path: seq<string>, es: seq<Event>)
    requires path == [] || StartTag(path[0]) !in es
    ensures HandleAll(path, Split(0, "", []), es) == Split(0, Rebuilt(es), [])
  {
    if es != [] {
      ChunkRebuilds(path, es[..|es| - 1]);
    }
  }

  /** The token being read, with what introduced it. */
  function Pending(p: Scan): string {
    match p.mode
    case Start => p.s
    case InTag => ['<'] + p.s
    case InAttr => [' '] + p.s
    case InPi => ['<'] + p.s
  }

  /** No '<' inside a tag, no processing instruction and no free-standing '>'. */
  predicate CleanStep(p: Scan, c: char) {
    && (c == '<' ==> p.mode.Start?)
    && (c == '?' ==> !p.mode.InTag?)
    && (c == '>' ==> !p.mode.Start?)
  }

  predicate Clean(p: Scan, text: string)
    decreases |text|
  {
    text == "" || (CleanStep(p, text[0]) && Clean(React(p, text[0]).scan, text[1..]))
  }

  lemma {:induction false} RebuiltAppend(a: seq<Event>, b: seq<Event>)
    ensures Rebuilt(a + b) == Rebuilt(a) + Rebuilt(b)
  {
    if b == [] {
      assert a + b == a;
    } else {
      assert (a + b)[..|a + b| - 1] == a + b[..|b| - 1];
      RebuiltAppend(a, b[..|b| - 1]);
    }
  }

  lemma RebuiltOne(e: Event)
    ensures Rebuilt([e]) == EventText(e)
  {
  }

  lemma RebuiltTwo(d: Event, e: Event)
    ensures Rebuilt([d, e]) == EventText(d) + EventText(e)
  {
    RebuiltOne(d);
    assert [d, e][..1] == [d];
  }

  /** The text rebuilt so far, with the token being read. */
  function TextOf(es: seq<Event>, p: Scan): string {
    Rebuilt(es) + Pending(p)
  }

  /** A clean character adds just itself to the text rebuilt; any other adds nothing. */
  ghost predicate StepsRight(p: Scan, c: char, r: Reaction) {
    var text := TextOf(r.events, r.scan);
    if CleanStep(p, c) && !p.mode.InPi? then text == Pending(p) + [c] && r.ok && !r.scan.mode.InPi?
    else |text| <= |Pending(p)| + 1 && (!CleanStep(p, c) ==> |text| <= |Pending(p)|)
  }

  lemma AtTagStart(p: Scan)
    ensures StepsRight(p, '<', React(p, '<'))
  {
  }

  lemma AtBlank(p: Scan)
    ensures StepsRight(p, ' ', React(p, ' '))
  {
    RebuiltOne(Attr(p.s));
    RebuiltOne(StartTag(p.s));
  }

  lemma TagEndText(e: Event, pending: string)
    requires EventText(e) == pending
    ensures TextOf([e, EndAttr], Scan(Start, "")) == pending + ['>']
  {
    RebuiltTwo(e, EndAttr);
  }

  lemma EndTagText(s: string)
    requires s != "" && s[0] == '/'
    ensures TextOf([EndTag(s[1..])], Scan(Start, "")) == ['<'] + s + ['>']
  {
    RebuiltOne(EndTag(s[1..]));
    assert "</" + s[1..] + ">" == ['<'] + s + ['>'];
  }

  lemma TextAppend(es: seq<Event>, fs: seq<Event>, q: Scan)
    ensures TextOf(es + fs, q) == Rebuilt(es) + TextOf(fs, q)
  {
    RebuiltAppend(es, fs);
    Regroup(Rebuilt(es), Rebuilt(fs), Pending(q));
  }

  lemma AtTagEnd(p: Scan)
    ensures StepsRight(p, '>', React(p, '>'))
  {
    match p.mode
    case Start =>
    case InAttr => TagEndText(Attr(p.s), [' '] + p.s);
    case InPi => RebuiltOne(Pi(p.s));
    case InTag =>
      if p.s != "" && p.s[0] == '/' {
        EndTagText(p.s);
      } else {
        TagEndText(StartTag(p.s), ['<'] + p.s);
      }
  }

  lemma StepRebuilds(p: Scan, c: char)
    ensures StepsRight(p, c, React(p, c))
  {
    match c
    case '<' => AtTagStart(p);
    case ' ' => AtBlank(p);
    case '>' => AtTagEnd(p);
    case _ =>
  }

  /** One character after a run. */
  lemma RunRebuilds(es: seq<Event>, p: Scan, c: char)
    ensures var r := React(p, c);
            var before, after := TextOf(es, p), TextOf(es + r.events, r.scan);
            if CleanStep(p, c) && !p.mode.InPi? then after == before + [c] && r.ok && !r.scan.mode.InPi?
            else |after| <= |before| + 1 && (!CleanStep(p, c) ==> |after| <= |before|)
  {
    var r := React(p, c);
    StepRebuilds(p, c);
    TextAppend(es, r.events, r.scan);
    Regroup(Rebuilt(es), Pending(p), [c]);
  }

  /** From a run on: the text rebuilt grows with the input if the input is clean, and falls behind otherwise. */
  lemma {:induction false} FeedRebuilds(r: Run, text: string)
    requires r.ok && !r.scan.mode.InPi?
    ensures var q := Feed(r, text);
            var before, after := TextOf(r.events, r.scan), TextOf(q.events, q.scan);
            if Clean(r.scan, text) then after == before + text && q.ok && !q.scan.mode.InPi?
            else |after| < |before| + |text|
    decreases |text|
  {
    if text != "" {
      var c := text[0];
      var reaction := React(r.scan, c);
      var next := Run(reaction.scan, r.events + reaction.events, reaction.ok);
      RunRebuilds(r.events, r.scan, c);
      if CleanStep(r.scan, c) {
        FeedRebuilds(next, text[1..]);
        Regroup(TextOf(r.events, r.scan), [c], text[1..]);
        assert [c] + text[1..] == text;
      } else {
        FeedGrows(next, text[1..]);
      }
    }
  }

  lemma {:induction false} FeedGrows(r: Run, text: string)
    ensures var q := Feed(r, text);
            |TextOf(q.events, q.scan)| <= |TextOf(r.events, r.scan)| + |text|
    decreases |text|
  {
    if text != "" && r.ok {
      var reaction := React(r.scan, text[0]);
      var next := Run(reaction.scan, r.events + reaction.events, reaction.ok);
      RunRebuilds(r.events, r.scan, text[0]);
      FeedGrows(next, text[1..]);
    }
  }

  /**
    Nothing of the input is lost: the events so far and the token being read make up all that was consumed, after
    every character, if and only if the input has no '<' inside a tag, no processing instruction and no free '>'.
    */
  lemma LosslessExactlyIfClean(text: string)
    ensures (forall k :: 0 <= k <= |text| ==>
               var r := Feed(BEGIN, text[..k]); TextOf(r.events, r.scan) == text[..k]) <==>
            Clean(BEGIN.scan, text)
  {
    if Clean(BEGIN.scan, text) {
      forall k | 0 <= k <= |text|
        ensures var r := Feed(BEGIN, text[..k]); TextOf(r.events, r.scan) == text[..k]
      {
        CleanPrefix(BEGIN.scan, text, k);
        FeedRebuilds(BEGIN, text[..k]);
        assert TextOf(BEGIN.events, BEGIN.scan) + text[..k] == text[..k];
      }
    } else {
      FeedRebuilds(BEGIN, text);
      assert text[..|text|] == text;
    }
  }

  lemma {:induction false} CleanPrefix(p: Scan, text: string, k: nat)
    requires k <= |text| && Clean(p, text)
    ensures Clean(p, text[..k])
    decreases k
  {
    if k > 0 {
      assert text[..k][1..] == text[1..][..k - 1];
      CleanPrefix(React(p, text[0]).scan, text[1..], k - 1);
    }
  }
}
