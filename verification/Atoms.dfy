/** The bracket splitter of the Processing compiler: nested text is cut into atoms that refer to one another. */
module Atoms {
  import opened Decimal
  import opened Wrappers

  predicate IsOpening(c: char) {
    c == '[' || c == '{' || c == '('
  }

  predicate IsClosing(c: char) {
    c == ']' || c == '}' || c == ')'
  }

  predicate IsBracket(c: char) {
    IsOpening(c) || IsClosing(c)
  }

  // ----- the splitter

  /** The text split at its brackets, which stay as items of their own: text, bracket, text, ... */
  function Split(code: string): (items: seq<string>)
    ensures |items| % 2 == 1
  {
    if code == "" then [""]
    else if IsBracket(code[0]) then ["", [code[0]]] + Split(code[1..])
    else
      var items := Split(code[1..]);
      items[0 := [code[0]] + items[0]]
  }

  function Kind(c: char): char {
    if c == '}' then 'A' else if c == ')' then 'B' else 'C'
  }

  function Placeholder(kind: char, n: nat): string {
    "\"" + [kind] + Decimal.Print(n) + "\""
  }

  /** The working variables of the loop. */
  datatype State = State(atoms: seq<string>, stack: seq<string>, result: string)

  /** One character of the code; popping the empty stack yields what JavaScript prints for it. */
  function Feed(s: State, c: char): State {
    if IsOpening(c) then State(s.atoms, s.stack + [s.result], [c])
    else if IsClosing(c) then
      var (top, rest) :=
        if s.stack == [] then ("undefined", []) else (s.stack[|s.stack| - 1], s.stack[..|s.stack| - 1]);
      State(s.atoms + [s.result + [c]], rest, top + Placeholder(Kind(c), |s.atoms| + 1))
    else s.(result := s.result + [c])
  }

  function FeedAll(s: State, code: string): State
    decreases |code|
  {
    if code == "" then s else FeedAll(Feed(s, code[0]), code[1..])
  }

  const START := State([], [], "")

  lemma {:induction false} FeedMore(s: State, a: string, b: string)
    ensures FeedAll(s, a + b) == FeedAll(FeedAll(s, a), b)
    decreases |a|
  {
    if a == "" {
      assert a + b == b;
    } else {
      assert (a + b)[1..] == a[1..] + b;
      FeedMore(Feed(s, a[0]), a[1..], b);
    }
  }

  lemma {:induction false} FeedText(s: State, text: string)
    requires NoBrackets(text)
    ensures FeedAll(s, text) == s.(result := s.result + text)
    decreases |text|
  {
    if text == "" {
      assert s.result + text == s.result;
    } else {
      FeedText(Feed(s, text[0]), text[1..]);
      assert s.result + [text[0]] + text[1..] == s.result + text;
    }
  }

  function Joined(items: seq<string>): string {
    if items == [] then "" else items[0] + Joined(items[1..])
  }

  predicate NoBrackets(text: string) {
    forall i :: 0 <= i < |text| ==> !IsBracket(text[i])
  }

  /** Brackets, each followed by a text without any. */
  predicate BracketsAndTexts(items: seq<string>) {
    items != [] ==>
      && |items| >= 2 && |items[0]| == 1 && IsBracket(items[0][0]) && NoBrackets(items[1])
      && BracketsAndTexts(items[2..])
  }

  lemma {:induction false} SplitItems(code: string)
    ensures Joined(Split(code)) == code
    ensures NoBrackets(Split(code)[0]) && BracketsAndTexts(Split(code)[1..])
  {
    if code != "" {
      SplitItems(code[1..]);
      var rest, items := Split(code[1..]), Split(code);
      if IsBracket(code[0]) {
        assert items[1..] == [[code[0]]] + rest && items[1..][1..] == rest && items[1..][2..] == rest[1..];
        assert Joined(items) == "" + ([code[0]] + Joined(rest));
      } else {
        assert items[1..] == rest[1..];
      }
    }
  }

  /** What `splitToAtoms` returns. */
  function AtomsOf(code: string): seq<string> {
    var s := FeedAll(START, code);
    [s.result] + s.atoms
  }

  method SplitToAtoms(code: string) returns (r: seq<string>)
    ensures r == AtomsOf(code)
  {
    var atoms: seq<string> := [];
    var items := Split(code);
    SplitItems(code);
    var result := items[0];
    var stack: seq<string> := [];
    FeedMore(START, items[0], Joined(items[1..]));
    FeedText(START, items[0]);
    assert "" + items[0] == items[0];
    var i := 1;
    while i < |items|
      invariant 1 <= i <= |items| && BracketsAndTexts(items[i..])
      invariant FeedAll(START, code) == FeedAll(State(atoms, stack, result), Joined(items[i..]))
    {
      var item := items[i];
      ghost var s := State(atoms, stack, result);
      assert item == [item[0]];
      FeedItems(s, items[i..]);
      if IsOpening(item[0]) {
        stack := stack + [result];
        result := item;
      } else if IsClosing(item[0]) {
        var kind := Kind(item[0]);
        var index := |atoms|;
        atoms := atoms + [result + item];
        var top := "undefined";
        if stack != [] {
          top := stack[|stack| - 1];
          stack := stack[..|stack| - 1];
        }
        result := top + Placeholder(kind, index + 1);
      }
      assert State(atoms, stack, result) == Feed(s, item[0]);
      assert items[i..][2..] == items[i + 2..];
      result := result + items[i + 1];
      i := i + 2;
    }
    r := [result] + atoms;
  }

  /** A bracket and the text after it. */
  lemma FeedItems(s: State, items: seq<string>)
    requires items != [] && BracketsAndTexts(items)
    ensures var t := Feed(s, items[0][0]);
            FeedAll(s, Joined(items)) == FeedAll(t.(result := t.result + items[1]), Joined(items[2..]))
  {
    assert items[1..][1..] == items[2..];
    assert Joined(items) == items[0] + (items[1] + Joined(items[2..]));
    FeedMore(s, items[0], items[1] + Joined(items[2..]));
    assert items[0][1..] == "";
    FeedMore(Feed(s, items[0][0]), items[1], Joined(items[2..]));
    FeedText(Feed(s, items[0][0]), items[1]);
  }

  // ----- expanding placeholders

  function DigitRun(s: string): (k: nat)
    ensures k <= |s| && AllDigits(s[..k])
    ensures k < |s| ==> !IsDigit(s[k])
  {
    if s == "" || !IsDigit(s[0]) then 0 else 1 + DigitRun(s[1..])
  }

  /** The number of the placeholder that the text starts with, and the placeholder's length. */
  function PlaceholderAt(s: string): (r: Option<(nat, nat)>)
    ensures r.Some? ==> 0 < r.value.1 <= |s| && s[0] == '"'
  {
    if |s| < 2 || s[0] != '"' || !(s[1] == 'A' || s[1] == 'B' || s[1] == 'C') then None
    else
      var k := DigitRun(s[2..]);
      if k == 0 || k + 2 >= |s| || s[k + 2] != '"' then None
      else Some((Decimal.Read(s[2..][..k]), k + 3))
  }

  /** The text with every placeholder below `bound` replaced by the expansion of its atom. */
  function Expand(atoms: seq<string>, s: string, bound: nat): string
    requires bound <= |atoms|
    decreases bound, |s|
  {
    if s == "" then ""
    else
      var p := PlaceholderAt(s);
      if p.Some? && 1 <= p.value.0 < bound then
        Expand(atoms, atoms[p.value.0], p.value.0) + Expand(atoms, s[p.value.1..], bound)
      else [s[0]] + Expand(atoms, s[1..], bound)
  }

  /** Quotes occur only in placeholders, and these refer to atoms below `bound`. */
  predicate RefersBelow(s: string, bound: nat)
    decreases |s|
  {
    s == "" ||
    if s[0] != '"' then RefersBelow(s[1..], bound)
    else
      var p := PlaceholderAt(s);
      p.Some? && 1 <= p.value.0 < bound && RefersBelow(s[p.value.1..], bound)
  }

  lemma {:induction false} DigitRunAppend(s: string, t: string)
    requires t != "" ==> !IsDigit(t[0]) || DigitRun(s) < |s|
    ensures DigitRun(s + t) == DigitRun(s)
    decreases |s|
  {
    if s == "" {
      assert s + t == t;
    } else if IsDigit(s[0]) {
      assert (s + t)[1..] == s[1..] + t;
      DigitRunAppend(s[1..], t);
    }
  }

  lemma {:induction false} DigitRunOfDigits(s: string)
    requires AllDigits(s)
    ensures DigitRun(s) == |s|
    decreases |s|
  {
  }

  lemma PlaceholderRead(kind: char, n: nat, rest: string)
    requires kind == 'A' || kind == 'B' || kind == 'C'
    ensures PlaceholderAt(Placeholder(kind, n) + rest) == Some((n, |Placeholder(kind, n)|))
  {
    var digits, s := Decimal.Print(n), Placeholder(kind, n) + rest;
    assert s[2..] == digits + ("\"" + rest);
    DigitRunOfDigits(digits);
    DigitRunAppend(digits, "\"" + rest);
    assert s[2..][..|digits|] == digits;
    ReadPrint(n);
  }

  lemma PlaceholderAppend(a: string, b: string)
    requires PlaceholderAt(a).Some?
    ensures PlaceholderAt(a + b) == PlaceholderAt(a)
  {
    var k := DigitRun(a[2..]);
    assert (a + b)[2..] == a[2..] + b;
    DigitRunAppend(a[2..], b);
    assert (a + b)[2..][..k] == a[2..][..k];
  }

  lemma {:induction false} ExpandAppend(atoms: seq<string>, a: string, b: string, bound: nat)
    requires bound <= |atoms| && RefersBelow(a, bound)
    ensures Expand(atoms, a + b, bound) == Expand(atoms, a, bound) + Expand(atoms, b, bound)
    ensures RefersBelow(b, bound) ==> RefersBelow(a + b, bound)
    decreases |a|
  {
    if a == "" {
      assert a + b == b;
    } else if a[0] != '"' {
      assert (a + b)[1..] == a[1..] + b;
      ExpandAppend(atoms, a[1..], b, bound);
    } else {
      PlaceholderAppend(a, b);
      var len := PlaceholderAt(a).value.1;
      assert (a + b)[len..] == a[len..] + b;
      ExpandAppend(atoms, a[len..], b, bound);
    }
  }

  /** The expansion only looks at the atoms it can reach, and does not change when more become available. */
  lemma {:induction false} ExpandStable(a: seq<string>, a': seq<string>, s: string, bound: nat, bound': nat)
    requires bound <= |a| && bound <= bound' <= |a'|
    requires forall k :: 1 <= k < bound ==> a[k] == a'[k]
    requires bound == bound' || RefersBelow(s, bound)
    ensures Expand(a, s, bound) == Expand(a', s, bound')
    ensures RefersBelow(s, bound) ==> RefersBelow(s, bound')
    decreases bound, |s|
  {
    if s != "" {
      var p := PlaceholderAt(s);
      if p.Some? && 1 <= p.value.0 < bound {
        ExpandStable(a, a', a[p.value.0], p.value.0, p.value.0);
        ExpandStable(a, a', s[p.value.1..], bound, bound');
      } else {
        ExpandStable(a, a', s[1..], bound, bound');
      }
    }
  }

  // ----- what the brackets of a text amount to

  /** The positions of the brackets opened and not closed yet; a closing bracket too many is passed over. */
  function Open(code: string): (ps: seq<nat>)
    ensures forall i :: 0 <= i < |ps| ==> ps[i] < |code|
    ensures forall i, j :: 0 <= i < j < |ps| ==> ps[i] < ps[j]
  {
    if code == "" then []
    else
      var n, ps := |code| - 1, Open(code[..|code| - 1]);
      if IsOpening(code[n]) then ps + [n]
      else if IsClosing(code[n]) && ps != [] then ps[..|ps| - 1]
      else ps
  }

  /** The number of closing brackets too many. */
  function Excess(code: string): nat {
    if code == "" then 0
    else
      var n := |code| - 1;
      Excess(code[..n]) + (if IsClosing(code[n]) && Open(code[..n]) == [] then 1 else 0)
  }

  predicate Balanced(code: string) {
    Open(code) == [] && Excess(code) == 0
  }

  // ----- the invariant of the splitter

  function Full(s: State): seq<string> {
    [""] + s.atoms
  }

  function Ex(s: State, text: string): string {
    Expand(Full(s), text, |Full(s)|)
  }

  /** The text before the first open bracket: longer than the code by "undefined" per bracket too many. */
  predicate Base(x: string, code: string, upto: nat, excess: nat)
    requires upto <= |code|
  {
    |x| == upto + 9 * excess && (excess == 0 ==> x == code[..upto])
  }

  ghost predicate References(s: State) {
    && (forall j :: 0 <= j < |s.atoms| ==> RefersBelow(s.atoms[j], j + 1))
    && (forall i :: 0 <= i < |s.stack| ==> RefersBelow(s.stack[i], |s.atoms| + 1))
    && RefersBelow(s.result, |s.atoms| + 1)
  }

  function Expanded(full: seq<string>, texts: seq<string>): (ls: seq<string>)
    ensures |ls| == |texts|
    ensures forall i :: 0 <= i < |ls| ==> ls[i] == Expand(full, texts[i], |full|)
  {
    if texts == [] then []
    else Expanded(full, texts[..|texts| - 1]) + [Expand(full, texts[|texts| - 1], |full|)]
  }

  /** The expansions of the texts on the stack and of the current one. */
  function Levels(s: State): (ls: seq<string>)
    ensures |ls| == |s.stack| + 1
  {
    Expanded(Full(s), s.stack) + [Ex(s, s.result)]
  }

  /** What a character does to them. */
  function FeedLevels(ls: seq<string>, c: char): seq<string>
    requires ls != []
  {
    var n := |ls| - 1;
    if IsOpening(c) then ls + [[c]]
    else if IsClosing(c) then
      if n == 0 then ["undefined" + (ls[0] + [c])] else ls[..n - 1] + [ls[n - 1] + (ls[n] + [c])]
    else ls[n := ls[n] + [c]]
  }

  /** Each level is the text from one open bracket to the next. */
  ghost predicate Represents(ls: seq<string>, code: string, ps: seq<nat>, excess: nat) {
    && |ls| == |ps| + 1
    && (forall i :: 0 <= i < |ps| ==> ps[i] < |code|)
    && (forall i, j :: 0 <= i < j < |ps| ==> ps[i] < ps[j])
    && (if ps == [] then Base(ls[0], code, |code|, excess)
        else
          && Base(ls[0], code, ps[0], excess)
          && ls[|ps|] == code[ps[|ps| - 1]..]
          && forall i :: 1 <= i < |ps| ==> ls[i] == code[ps[i - 1]..ps[i]])
  }

  lemma {:induction false} PlainText(atoms: seq<string>, t: string, bound: nat)
    requires bound <= |atoms| && '"' !in t
    ensures RefersBelow(t, bound) && Expand(atoms, t, bound) == t
    decreases |t|
  {
    if t != "" {
      PlainText(atoms, t[1..], bound);
      assert t == [t[0]] + t[1..];
    }
  }

  lemma ExpandPlaceholder(atoms: seq<string>, kind: char, n: nat, bound: nat)
    requires kind == 'A' || kind == 'B' || kind == 'C'
    requires 1 <= n < bound <= |atoms|
    ensures RefersBelow(Placeholder(kind, n), bound)
    ensures Expand(atoms, Placeholder(kind, n), bound) == Expand(atoms, atoms[n], n)
  {
    var p := Placeholder(kind, n);
    PlaceholderRead(kind, n, "");
    assert p + "" == p;
    assert p[|p|..] == "";
  }

  /** One more character at the end of a text. */
  lemma ExpandChar(atoms: seq<string>, t: string, c: char, bound: nat)
    requires bound <= |atoms| && RefersBelow(t, bound) && c != '"'
    ensures RefersBelow(t + [c], bound)
    ensures Expand(atoms, t + [c], bound) == Expand(atoms, t, bound) + [c]
  {
    PlainText(atoms, [c], bound);
    ExpandAppend(atoms, t, [c], bound);
  }

  /** The atom a closing bracket makes, and the text that refers to it. */
  lemma ExpandClosed(s: State, top: string, c: char)
    requires References(s) && RefersBelow(top, |s.atoms| + 1) && IsClosing(c)
    ensures var n := |s.atoms| + 1;
            var text, full := top + Placeholder(Kind(c), n), Full(s) + [s.result + [c]];
            && RefersBelow(s.result + [c], n) && RefersBelow(text, n + 1)
            && Expand(full, text, n + 1) == Ex(s, top) + (Ex(s, s.result) + [c])
  {
    var n := |s.atoms| + 1;
    var p, full := Placeholder(Kind(c), n), Full(s) + [s.result + [c]];
    ExpandChar(Full(s), s.result, c, n);
    ExpandPlaceholder(full, Kind(c), n, n + 1);
    ExpandStable(Full(s), full, top, n, n + 1);
    ExpandStable(Full(s), full, s.result + [c], n, n);
    ExpandAppend(full, top, p, n + 1);
  }

  lemma FeedReferences(s: State, c: char)
    requires References(s) && c != '"'
    ensures References(Feed(s, c))
  {
    if IsOpening(c) {
      PlainText(Full(s), [c], |s.atoms| + 1);
    } else if IsClosing(c) {
      ClosingFeeds(s, c);
      ClosingReferences(s, c, Feed(s, c));
    } else {
      ExpandChar(Full(s), s.result, c, |s.atoms| + 1);
    }
  }

  function Rest(s: State): seq<string> {
    if s.stack == [] then [] else s.stack[..|s.stack| - 1]
  }

  /** What a closing bracket does, told through expansions. */
  ghost predicate ClosesInto(s: State, c: char, t: State) {
    && t.atoms == s.atoms + [s.result + [c]] && t.stack == Rest(s)
    && RefersBelow(s.result + [c], |s.atoms| + 1) && RefersBelow(t.result, |t.atoms| + 1)
    && Ex(t, t.result) ==
       (if s.stack == [] then "undefined" else Ex(s, s.stack[|s.stack| - 1])) + (Ex(s, s.result) + [c])
  }

  lemma ClosingFeeds(s: State, c: char)
    requires References(s) && IsClosing(c)
    ensures ClosesInto(s, c, Feed(s, c))
  {
    if s.stack == [] {
      ClosingFeedsUnopened(s, c);
    } else {
      ExpandClosed(s, s.stack[|s.stack| - 1], c);
      assert Full(Feed(s, c)) == Full(s) + [s.result + [c]];
    }
  }

  lemma ClosingFeedsUnopened(s: State, c: char)
    requires References(s) && IsClosing(c) && s.stack == []
    ensures ClosesInto(s, c, Feed(s, c))
  {
    PlainText(Full(s), "undefined", |s.atoms| + 1);
    ExpandClosed(s, "undefined", c);
    assert Full(Feed(s, c)) == Full(s) + [s.result + [c]];
  }

  lemma {:induction false} ExpandedStable(full: seq<string>, full': seq<string>, texts: seq<string>)
    requires |full| <= |full'| && forall k :: 1 <= k < |full| ==> full[k] == full'[k]
    requires forall i :: 0 <= i < |texts| ==> RefersBelow(texts[i], |full|)
    ensures Expanded(full', texts) == Expanded(full, texts)
    ensures forall i :: 0 <= i < |texts| ==> RefersBelow(texts[i], |full'|)
  {
    if texts != [] {
      ExpandedStable(full, full', texts[..|texts| - 1]);
      ExpandStable(full, full', texts[|texts| - 1], |full|, |full'|);
    }
  }

  lemma ClosingReferences(s: State, c: char, t: State)
    requires References(s) && ClosesInto(s, c, t)
    ensures References(t)
  {
    ExpandedStable(Full(s), Full(t), Rest(s));
  }

  lemma OpenMore(code: string, c: char)
    ensures Open(code + [c]) ==
            if IsOpening(c) then Open(code) + [|code|]
            else if IsClosing(c) && Open(code) != [] then Open(code)[..|Open(code)| - 1]
            else Open(code)
    ensures Excess(code + [c]) == Excess(code) + if IsClosing(c) && Open(code) == [] then 1 else 0
  {
  }

  lemma OpeningRepresents(ls: seq<string>, code: string, ps: seq<nat>, excess: nat, c: char)
    requires Represents(ls, code, ps, excess) && IsOpening(c)
    ensures Represents(FeedLevels(ls, c), code + [c], ps + [|code|], excess)
  {
  }

  lemma TextRepresents(ls: seq<string>, code: string, ps: seq<nat>, excess: nat, c: char)
    requires Represents(ls, code, ps, excess) && !IsBracket(c)
    ensures Represents(FeedLevels(ls, c), code + [c], ps, excess)
  {
  }

  lemma SurplusRepresents(ls: seq<string>, code: string, excess: nat, c: char)
    requires Represents(ls, code, [], excess) && IsClosing(c)
    ensures Represents(FeedLevels(ls, c), code + [c], [], excess + 1)
  {
  }

  /** Closing joins the last two levels. */
  lemma JoinsLastTwo(code: string, c: char, p: nat, q: nat)
    requires p <= q < |code|
    ensures code[p..q] + (code[q..] + [c]) == (code + [c])[p..]
  {
  }

  lemma JoinToBase(ls: seq<string>, code: string, p: nat, excess: nat, c: char)
    requires Represents(ls, code, [p], excess) && IsClosing(c)
    ensures Represents(FeedLevels(ls, c), code + [c], [], excess)
  {
    assert ls[..0] == [] && code[..p] + code[p..] == code;
  }

  lemma JoinRepresents(ls: seq<string>, code: string, ps: seq<nat>, excess: nat, c: char)
    requires Represents(ls, code, ps, excess) && IsClosing(c) && |ps| > 1
    ensures Represents(FeedLevels(ls, c), code + [c], ps[..|ps| - 1], excess)
  {
    var n := |ps|;
    var r, qs := FeedLevels(ls, c), ps[..n - 1];
    assert r == ls[..n - 1] + [ls[n - 1] + (ls[n] + [c])];
    JoinsLastTwo(code, c, ps[n - 2], ps[n - 1]);
    assert ls[n - 1] == code[ps[n - 2]..ps[n - 1]] && r[n - 1] == (code + [c])[qs[n - 2]..];
    assert r[0] == ls[0] && (code + [c])[..qs[0]] == code[..qs[0]] && Base(r[0], code + [c], qs[0], excess);
    forall i | 1 <= i < n - 1 ensures r[i] == (code + [c])[qs[i - 1]..qs[i]] {
      assert r[i] == ls[i] == code[ps[i - 1]..ps[i]];
    }
  }

  lemma ClosingRepresents(ls: seq<string>, code: string, ps: seq<nat>, excess: nat, c: char)
    requires Represents(ls, code, ps, excess) && IsClosing(c)
    ensures if ps == [] then Represents(FeedLevels(ls, c), code + [c], [], excess + 1)
            else Represents(FeedLevels(ls, c), code + [c], ps[..|ps| - 1], excess)
  {
    if ps == [] {
      SurplusRepresents(ls, code, excess, c);
    } else if |ps| == 1 {
      assert ps == [ps[0]];
      JoinToBase(ls, code, ps[0], excess, c);
    } else {
      JoinRepresents(ls, code, ps, excess, c);
    }
  }

  lemma OpeningMovesLevels(s: State, c: char)
    requires References(s) && IsOpening(c)
    ensures Levels(Feed(s, c)) == FeedLevels(Levels(s), c)
  {
    PlainText(Full(s), [c], |s.atoms| + 1);
    assert (s.stack + [s.result])[..|s.stack|] == s.stack;
  }

  lemma TextMovesLevels(s: State, c: char)
    requires References(s) && !IsBracket(c) && c != '"'
    ensures Levels(Feed(s, c)) == FeedLevels(Levels(s), c)
  {
    ExpandChar(Full(s), s.result, c, |s.atoms| + 1);
  }

  lemma ClosingMovesLevels(s: State, c: char, t: State)
    requires References(s) && IsClosing(c) && ClosesInto(s, c, t)
    ensures Levels(t) == FeedLevels(Levels(s), c)
  {
    ExpandedStable(Full(s), Full(t), Rest(s));
  }

  ghost predicate SplitterOk(code: string) {
    var s := FeedAll(START, code);
    References(s) && Represents(Levels(s), code, Open(code), Excess(code))
  }

  lemma MovesLevels(s: State, c: char)
    requires References(s) && c != '"'
    ensures References(Feed(s, c)) && Levels(Feed(s, c)) == FeedLevels(Levels(s), c)
  {
    FeedReferences(s, c);
    if IsOpening(c) {
      OpeningMovesLevels(s, c);
    } else if IsClosing(c) {
      ClosingFeeds(s, c);
      ClosingMovesLevels(s, c, Feed(s, c));
    } else {
      TextMovesLevels(s, c);
    }
  }

  lemma BracketRepresents(
    ls: seq<string>, code: string, ps: seq<nat>, excess: nat, c: char, ps': seq<nat>, excess': nat)
    requires Represents(ls, code, ps, excess)
    requires ps' == if IsOpening(c) then ps + [|code|] else if IsClosing(c) && ps != [] then ps[..|ps| - 1] else ps
    requires excess' == excess + if IsClosing(c) && ps == [] then 1 else 0
    ensures Represents(FeedLevels(ls, c), code + [c], ps', excess')
  {
    if IsOpening(c) {
      OpeningRepresents(ls, code, ps, excess, c);
    } else if IsClosing(c) {
      ClosingRepresents(ls, code, ps, excess, c);
    } else {
      TextRepresents(ls, code, ps, excess, c);
    }
  }

  lemma RepresentsMore(ls: seq<string>, code: string, c: char)
    requires Represents(ls, code, Open(code), Excess(code))
    ensures Represents(FeedLevels(ls, c), code + [c], Open(code + [c]), Excess(code + [c]))
  {
    OpenMore(code, c);
    BracketRepresents(ls, code, Open(code), Excess(code), c, Open(code + [c]), Excess(code + [c]));
  }

  lemma SplitterStep(s: State, code: string, c: char)
    requires References(s) && Represents(Levels(s), code, Open(code), Excess(code)) && c != '"'
    ensures References(Feed(s, c)) && Represents(Levels(Feed(s, c)), code + [c], Open(code + [c]), Excess(code + [c]))
  {
    MovesLevels(s, c);
    RepresentsMore(Levels(s), code, c);
  }

  lemma {:induction false} SplitterInvariant(code: string)
    requires '"' !in code
    ensures SplitterOk(code)
    decreases |code|
  {
    if code == "" {
      assert Levels(START) == [""];
    } else {
      var n := |code| - 1;
      var front, c := code[..n], code[n];
      assert code == front + [c];
      SplitterInvariant(front);
      FeedMore(START, front, [c]);
      assert [c][1..] == "";
      SplitterStep(FeedAll(START, front), front, c);
    }
  }

  // ----- the main results

  /** Every atom but the root refers to atoms with a smaller index only. */
  lemma AtomsReferDownward(code: string, k: nat)
    requires '"' !in code && 1 <= k < |AtomsOf(code)|
    ensures RefersBelow(AtomsOf(code)[k], k)
  {
    SplitterInvariant(code);
  }

  /**
    Expanding the placeholders of atom 0 gives back the text, for every bracket-balanced text without quotes;
    and exactly for these, except for texts that start with a bracket that alone stays open to the end.
    */
  lemma ExpansionGivesBackCode(code: string)
    requires '"' !in code
    ensures var atoms := AtomsOf(code);
            Expand(atoms, atoms[0], |atoms|) == code <==> Balanced(code) || Open(code) == [0]
  {
    SplitterInvariant(code);
    var s, atoms, ps := FeedAll(START, code), AtomsOf(code), Open(code);
    ExpandStable(Full(s), atoms, s.result, |atoms|, |atoms|);
    assert Expand(atoms, atoms[0], |atoms|) == Levels(s)[|s.stack|];
    if ps != [] {
      assert |code[ps[|ps| - 1]..]| == |code| - ps[|ps| - 1];
    }
  }
}
