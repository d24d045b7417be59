/** What the atoms are: the letter of a placeholder names the bracket of its atom, and each atom is one bracket pair. */
module AtomKinds {
  import opened Atoms
  import opened Wrappers

  // ----- the letters of placeholders

  /** The atom ends with the bracket that the letter stands for. */
  predicate EndsAs(letter: char, atom: string) {
    && atom != ""
    && (letter == 'A' ==> atom[|atom| - 1] == '}')
    && (letter == 'B' ==> atom[|atom| - 1] == ')')
    && (letter == 'C' ==> atom[|atom| - 1] == ']')
  }

  /** Quotes occur only in placeholders, and each has the letter of an atom below `bound`. */
  predicate KindsRight(atoms: seq<string>, s: string, bound: nat)
    requires bound <= |atoms|
    decreases |s|
  {
    s == "" ||
    if s[0] != '"' then KindsRight(atoms, s[1..], bound)
    else
      var p := PlaceholderAt(s);
      && p.Some? && 1 <= p.value.0 < bound && EndsAs(s[1], atoms[p.value.0])
      && KindsRight(atoms, s[p.value.1..], bound)
  }

  lemma {:induction false} PlainKinds(atoms: seq<string>, t: string, bound: nat)
    requires bound <= |atoms| && '"' !in t
    ensures KindsRight(atoms, t, bound)
    decreases |t|
  {
    if t != "" {
      PlainKinds(atoms, t[1..], bound);
    }
  }

  lemma {:induction false} KindsAppend(atoms: seq<string>, a: string, b: string, bound: nat)
    requires bound <= |atoms| && KindsRight(atoms, a, bound) && KindsRight(atoms, b, bound)
    ensures KindsRight(atoms, a + b, bound)
    decreases |a|
  {
    if a == "" {
      assert a + b == b;
    } else if a[0] != '"' {
      assert (a + b)[1..] == a[1..] + b;
      KindsAppend(atoms, a[1..], b, bound);
    } else {
      PlaceholderAppend(a, b);
      var len := PlaceholderAt(a).value.1;
      assert (a + b)[len..] == a[len..] + b && (a + b)[1] == a[1];
      KindsAppend(atoms, a[len..], b, bound);
    }
  }

  /** More atoms do not change the letters of those there are. */
  lemma {:induction false} KindsStable(atoms: seq<string>, more: seq<string>, s: string, bound: nat, bound': nat)
    requires bound <= |atoms| && bound <= bound' <= |more| && KindsRight(atoms, s, bound)
    requires forall k :: 1 <= k < bound ==> atoms[k] == more[k]
    ensures KindsRight(more, s, bound')
    decreases |s|
  {
    if s != "" {
      if s[0] != '"' {
        KindsStable(atoms, more, s[1..], bound, bound');
      } else {
        KindsStable(atoms, more, s[PlaceholderAt(s).value.1..], bound, bound');
      }
    }
  }

  ghost predicate AllKindsRight(s: State) {
    var full := Full(s);
    && (forall j :: 0 <= j < |s.atoms| ==> KindsRight(full, s.atoms[j], |full|))
    && (forall i :: 0 <= i < |s.stack| ==> KindsRight(full, s.stack[i], |full|))
    && KindsRight(full, s.result, |full|)
  }

  lemma PlaceholderKind(atoms: seq<string>, c: char, n: nat, bound: nat)
    requires c == '}' || c == ')' || c == ']'
    requires 1 <= n < bound <= |atoms| && atoms[n] != "" && atoms[n][|atoms[n]| - 1] == c
    ensures KindsRight(atoms, Placeholder(Kind(c), n), bound)
  {
    var p := Placeholder(Kind(c), n);
    PlaceholderRead(Kind(c), n, "");
    assert p + "" == p && p[|p|..] == "" && p[1] == Kind(c);
  }

  lemma ClosingKinds(s: State, c: char)
    requires AllKindsRight(s) && IsClosing(c)
    ensures AllKindsRight(Feed(s, c))
  {
    var t := Feed(s, c);
    var full, more, n := Full(s), Full(t), |s.atoms| + 1;
    assert more == full + [s.result + [c]] && |full| == n;
    forall x | KindsRight(full, x, n) ensures KindsRight(more, x, n + 1) {
      KindsStable(full, more, x, n, n + 1);
    }
    PlainKinds(more, [c], n + 1);
    KindsAppend(more, s.result, [c], n + 1);
    PlaceholderKind(more, c, n, n + 1);
    var top := if s.stack == [] then "undefined" else s.stack[|s.stack| - 1];
    PlainKinds(more, "undefined", n + 1);
    KindsAppend(more, top, Placeholder(Kind(c), n), n + 1);
  }

  lemma FeedKinds(s: State, c: char)
    requires AllKindsRight(s) && c != '"'
    ensures AllKindsRight(Feed(s, c))
  {
    if IsClosing(c) {
      ClosingKinds(s, c);
    } else {
      PlainKinds(Full(s), [c], |Full(s)|);
      KindsAppend(Full(s), s.result, [c], |Full(s)|);
    }
  }

  lemma {:induction false} AllFed(s: State, code: string)
    requires AllKindsRight(s) && '"' !in code
    ensures AllKindsRight(FeedAll(s, code))
    decreases |code|
  {
    if code != "" {
      FeedKinds(s, code[0]);
      AllFed(Feed(s, code[0]), code[1..]);
    }
  }

  /** In every atom, a placeholder with letter A, B or C refers to an atom that ends with '}', ')' or ']'. */
  lemma LettersNameBrackets(code: string, k: nat)
    requires '"' !in code && k < |AtomsOf(code)|
    ensures KindsRight(AtomsOf(code), AtomsOf(code)[k], |AtomsOf(code)|)
  {
    var s, atoms := FeedAll(START, code), AtomsOf(code);
    AllFed(START, code);
    if k == 0 {
      KindsStable(Full(s), atoms, s.result, |atoms|, |atoms|);
    } else {
      KindsStable(Full(s), atoms, s.atoms[k - 1], |atoms|, |atoms|);
    }
  }

  // ----- the bracket pairs

  /** The pair that a character closes behind `n` others, if it closes one. */
  function PairClosed(open: seq<nat>, c: char, n: nat): seq<(nat, nat)> {
    if IsClosing(c) && open != [] then [(open[|open| - 1], n)] else []
  }

  /** The closing brackets that close something, each with the bracket it closes. */
  function Pairs(code: string): seq<(nat, nat)> {
    if code == "" then []
    else
      var n := |code| - 1;
      Pairs(code[..n]) + PairClosed(Open(code[..n]), code[n], n)
  }

  /** The texts on the stack and the current one; but for the first, each starts with its open bracket. */
  predicate StartOpen(texts: seq<string>, code: string, open: seq<nat>) {
    && |texts| == |open| + 1
    && forall i :: 0 <= i < |open| ==> open[i] < |code| && texts[i + 1] != "" && texts[i + 1][0] == code[open[i]]
  }

  predicate IsPair(atom: string, code: string, pair: (nat, nat)) {
    && pair.0 < |code| && pair.1 < |code| && |atom| >= 2
    && atom[0] == code[pair.0] && atom[|atom| - 1] == code[pair.1]
  }

  predicate ArePairs(atoms: seq<string>, code: string, pairs: seq<(nat, nat)>) {
    |atoms| == |pairs| && forall i :: 0 <= i < |pairs| ==> IsPair(atoms[i], code, pairs[i])
  }

  lemma PairsMore(code: string, c: char)
    ensures Pairs(code + [c]) == Pairs(code) + PairClosed(Open(code), c, |code|)
  {
    assert (code + [c])[..|code|] == code;
  }

  lemma StillPairs(atoms: seq<string>, code: string, pairs: seq<(nat, nat)>, c: char)
    requires ArePairs(atoms, code, pairs)
    ensures ArePairs(atoms, code + [c], pairs)
  {
  }

  lemma OnePairMore(atoms: seq<string>, code: string, pairs: seq<(nat, nat)>, atom: string, pair: (nat, nat))
    requires ArePairs(atoms, code, pairs) && IsPair(atom, code, pair)
    ensures ArePairs(atoms + [atom], code, pairs + [pair])
  {
  }

  lemma StillOpen(texts: seq<string>, code: string, open: seq<nat>, c: char)
    requires StartOpen(texts, code, open)
    ensures StartOpen(texts, code + [c], open)
  {
    assert forall i :: 0 <= i < |code| ==> (code + [c])[i] == code[i];
  }

  lemma OpeningPairs(texts: seq<string>, code: string, open: seq<nat>, c: char)
    requires StartOpen(texts, code, open)
    ensures StartOpen(texts + [[c]], code + [c], open + [|code|])
  {
    StillOpen(texts, code, open, c);
    var longer, after, opens := code + [c], texts + [[c]], open + [|code|];
    forall i | 0 <= i < |opens|
      ensures opens[i] < |longer| && after[i + 1] != "" && after[i + 1][0] == longer[opens[i]]
    {
      if i < |open| {
        assert open[i] < |longer| && texts[i + 1] != "" && texts[i + 1][0] == longer[open[i]];
      }
    }
  }

  lemma TextPairs(texts: seq<string>, code: string, open: seq<nat>, c: char)
    requires StartOpen(texts, code, open)
    ensures StartOpen(texts[|open| := texts[|open|] + [c]], code + [c], open)
  {
    StillOpen(texts, code, open, c);
    var longer, after := code + [c], texts[|open| := texts[|open|] + [c]];
    forall i | 0 <= i < |open|
      ensures open[i] < |longer| && after[i + 1] != "" && after[i + 1][0] == longer[open[i]]
    {
      assert open[i] < |longer| && texts[i + 1] != "" && texts[i + 1][0] == longer[open[i]];
    }
  }

  lemma ClosedPair(text: string, code: string, p: nat, c: char)
    requires p < |code| && text != "" && text[0] == code[p]
    ensures IsPair(text + [c], code + [c], (p, |code|))
  {
  }

  /** The last text goes, and what replaces it is added to the one before. */
  lemma StillOpenBelow(texts: seq<string>, code: string, open: seq<nat>, more: string, n: nat)
    requires StartOpen(texts, code, open) && |open| == n + 1
    ensures StartOpen(texts[..n] + [texts[n] + more], code, open[..n])
  {
    var after := texts[..n] + [texts[n] + more];
    forall i | 0 <= i < n
      ensures open[i] < |code| && after[i + 1] != "" && after[i + 1][0] == code[open[i]]
    {
      assert open[i] < |code| && texts[i + 1] != "" && texts[i + 1][0] == code[open[i]];
      assert after[i + 1] == if i + 1 < n then texts[i + 1] else texts[i + 1] + more;
    }
  }

  lemma ClosingPairs(texts: seq<string>, code: string, open: seq<nat>, more: string, c: char, n: nat)
    requires StartOpen(texts, code, open) && |open| == n + 1
    ensures IsPair(texts[n + 1] + [c], code + [c], (open[n], |code|))
    ensures StartOpen(texts[..n] + [texts[n] + more], code + [c], open[..n])
  {
    assert open[n] < |code| && texts[n + 1] != "" && texts[n + 1][0] == code[open[n]];
    ClosedPair(texts[n + 1], code, open[n], c);
    StillOpenBelow(texts, code, open, more, n);
    StillOpen(texts[..n] + [texts[n] + more], code, open[..n], c);
  }

  ghost predicate PairsIn(s: State, code: string, open: seq<nat>, pairs: seq<(nat, nat)>) {
    StartOpen(s.stack + [s.result], code, open) && ArePairs(s.atoms, code, pairs)
  }

  lemma ClosingFeedsPairs(s: State, code: string, open: seq<nat>, pairs: seq<(nat, nat)>, c: char)
    requires PairsIn(s, code, open, pairs) && IsClosing(c) && open != []
    ensures PairsIn(Feed(s, c), code + [c], open[..|open| - 1], pairs + [(open[|open| - 1], |code|)])
  {
    var texts, n := s.stack + [s.result], |s.stack|;
    var more := Placeholder(Kind(c), |s.atoms| + 1);
    assert |open| == n && texts[n] == s.result && texts[n - 1] == s.stack[n - 1] && texts[..n - 1] == s.stack[..n - 1];
    ClosingPairs(texts, code, open, more, c, n - 1);
    StillPairs(s.atoms, code, pairs, c);
    OnePairMore(s.atoms, code + [c], pairs, s.result + [c], (open[n - 1], |code|));
  }

  lemma OpeningFeedsPairs(s: State, code: string, open: seq<nat>, pairs: seq<(nat, nat)>, c: char)
    requires PairsIn(s, code, open, pairs) && IsOpening(c)
    ensures PairsIn(Feed(s, c), code + [c], open + [|code|], pairs)
  {
    OpeningPairs(s.stack + [s.result], code, open, c);
    StillPairs(s.atoms, code, pairs, c);
  }

  lemma TextFeedsPairs(s: State, code: string, open: seq<nat>, pairs: seq<(nat, nat)>, c: char)
    requires PairsIn(s, code, open, pairs) && !IsBracket(c)
    ensures PairsIn(Feed(s, c), code + [c], open, pairs)
  {
    var texts := s.stack + [s.result];
    TextPairs(texts, code, open, c);
    StillPairs(s.atoms, code, pairs, c);
    assert texts[|open| := s.result + [c]] == s.stack + [s.result + [c]];
  }

  lemma FeedPairs(s: State, code: string, c: char)
    requires PairsIn(s, code, Open(code), Pairs(code)) && (IsClosing(c) ==> Open(code) != [])
    ensures PairsIn(Feed(s, c), code + [c], Open(code + [c]), Pairs(code + [c]))
  {
    var open, pairs := Open(code), Pairs(code);
    PairsMore(code, c);
    OpenMore(code, c);
    assert pairs + [] == pairs;
    if IsClosing(c) {
      ClosingFeedsPairs(s, code, open, pairs, c);
    } else if IsOpening(c) {
      OpeningFeedsPairs(s, code, open, pairs, c);
    } else {
      TextFeedsPairs(s, code, open, pairs, c);
    }
  }

  lemma {:induction false} AtomsArePairsOf(code: string)
    requires Excess(code) == 0
    ensures PairsIn(FeedAll(START, code), code, Open(code), Pairs(code))
    decreases |code|
  {
    if code != "" {
      var n := |code| - 1;
      var front, c := code[..n], code[n];
      assert code == front + [c];
      OpenMore(front, c);
      AtomsArePairsOf(front);
      FeedMore(START, front, [c]);
      assert [c][1..] == "";
      FeedPairs(FeedAll(START, front), front, c);
    }
  }

  /**
    Where no bracket closes too much, the atoms behind the first are the bracket pairs of the text, in the order in
    which they close: each starts with the one bracket and ends with the other.
    */
  lemma AtomsArePairs(code: string)
    requires Excess(code) == 0
    ensures |AtomsOf(code)| == |Pairs(code)| + 1
    ensures forall k :: 0 <= k < |Pairs(code)| ==> IsPair(AtomsOf(code)[k + 1], code, Pairs(code)[k])
  {
    AtomsArePairsOf(code);
    var s := FeedAll(START, code);
    assert forall k :: 0 <= k < |s.atoms| ==> AtomsOf(code)[k + 1] == s.atoms[k];
  }

  predicate Matching(open: char, close: char) {
    (open == '(' && close == ')') || (open == '[' && close == ']') || (open == '{' && close == '}')
  }

  predicate PairMatches(code: string, pair: (nat, nat)) {
    pair.0 < |code| && pair.1 < |code| && Matching(code[pair.0], code[pair.1])
  }

  /** Each closing bracket is of the kind of the bracket it closes. */
  predicate WellMatched(code: string) {
    forall k :: 0 <= k < |Pairs(code)| ==> PairMatches(code, Pairs(code)[k])
  }

  predicate InBrackets(atom: string) {
    |atom| >= 2 && Matching(atom[0], atom[|atom| - 1])
  }

  /** The splitter does not compare kinds: all atoms are in brackets of one kind if and only if the text has them so. */
  lemma WellMatchedExactly(code: string)
    requires Excess(code) == 0
    ensures WellMatched(code) <==> forall k :: 1 <= k < |AtomsOf(code)| ==> InBrackets(AtomsOf(code)[k])
  {
    AtomsArePairs(code);
    if WellMatched(code) {
      forall k | 1 <= k < |AtomsOf(code)| ensures InBrackets(AtomsOf(code)[k]) {
        assert IsPair(AtomsOf(code)[k - 1 + 1], code, Pairs(code)[k - 1]) && PairMatches(code, Pairs(code)[k - 1]);
      }
    }
    if forall k :: 1 <= k < |AtomsOf(code)| ==> InBrackets(AtomsOf(code)[k]) {
      forall k | 0 <= k < |Pairs(code)| ensures PairMatches(code, Pairs(code)[k]) {
        assert IsPair(AtomsOf(code)[k + 1], code, Pairs(code)[k]) && InBrackets(AtomsOf(code)[k + 1]);
      }
    }
  }

  // ----- a run

  /** `s` gets to `t` over the text. */
  ghost predicate Leads(s: State, text: string, t: State) {
    FeedAll(s, text) == t
  }

  lemma FirstLeads(s: State, c: char, rest: string, next: State, t: State)
    requires Feed(s, c) == next && Leads(next, rest, t)
    ensures Leads(s, [c] + rest, t)
  {
    assert ([c] + rest)[1..] == rest;
  }

  lemma PrintDigit(n: nat)
    requires 1 <= n <= 3
    ensures Decimal.Print(n) == if n == 1 then "1" else if n == 2 then "2" else "3"
  {
  }

  lemma ClosedAs(s: State, c: char, n: nat, atom: string, top: string, t: State)
    requires IsClosing(c) && s.stack != [] && n == |s.atoms| + 1 <= 3
    requires s.result + [c] == atom && t.atoms == s.atoms + [atom] && t.stack + [top] == s.stack
    requires t.result == top + (['"', if c == '}' then 'A' else if c == ')' then 'B' else 'C'] +
                                (if n == 1 then "1" else if n == 2 then "2" else "3") + ['"'])
    ensures Feed(s, c) == t
  {
    PrintDigit(n);
  }

  const IN_BRACE := State([], [""], "{")
  const IN_PAREN := State([], ["", "{"], "(a")
  const PAREN_CLOSED := State(["(a)"], [""], "{\"B1\"")
  const IN_BRACKET := State(["(a)"], ["", "{\"B1\""], "[b")
  const BRACKET_CLOSED := State(["(a)", "[b]"], [""], "{\"B1\"\"C2\"")
  const BRACE_CLOSED := State(["(a)", "[b]", "{\"B1\"\"C2\"}"], [], "\"A3\"")

  lemma ParenCloses()
    ensures Feed(IN_PAREN, ')') == PAREN_CLOSED
  {
    ClosedAs(IN_PAREN, ')', 1, "(a)", "{", PAREN_CLOSED);
  }

  lemma BracketCloses()
    ensures Feed(IN_BRACKET, ']') == BRACKET_CLOSED
  {
    ClosedAs(IN_BRACKET, ']', 2, "[b]", "{\"B1\"", BRACKET_CLOSED);
  }

  lemma BraceCloses()
    ensures Feed(BRACKET_CLOSED, '}') == BRACE_CLOSED
  {
    ClosedAs(BRACKET_CLOSED, '}', 3, "{\"B1\"\"C2\"}", "", BRACE_CLOSED);
  }

  lemma SecondHalf()
    ensures Leads(PAREN_CLOSED, "[b]}", BRACE_CLOSED)
  {
    BracketCloses();
    BraceCloses();
    FirstLeads(BRACKET_CLOSED, '}', "", BRACE_CLOSED, BRACE_CLOSED);
    FirstLeads(IN_BRACKET, ']', "}", BRACKET_CLOSED, BRACE_CLOSED);
    FirstLeads(IN_BRACKET.(result := "["), 'b', "]}", IN_BRACKET, BRACE_CLOSED);
    FirstLeads(PAREN_CLOSED, '[', "b]}", IN_BRACKET.(result := "["), BRACE_CLOSED);
  }

  /** All three kinds of brackets in one text. */
  lemma ThreeKinds()
    ensures AtomsOf("{(a)[b]}") == ["\"A3\"", "(a)", "[b]", "{\"B1\"\"C2\"}"]
  {
    SecondHalf();
    ParenCloses();
    FirstLeads(IN_PAREN, ')', "[b]}", PAREN_CLOSED, BRACE_CLOSED);
    FirstLeads(IN_PAREN.(result := "("), 'a', ")[b]}", IN_PAREN, BRACE_CLOSED);
    FirstLeads(IN_BRACE, '(', "a)[b]}", IN_PAREN.(result := "("), BRACE_CLOSED);
    FirstLeads(START, '{', "(a)[b]}", IN_BRACE, BRACE_CLOSED);
    assert ['{'] + "(a)[b]}" == "{(a)[b]}";
  }

  /** A closing bracket alone: what is popped from the empty stack shows in the text. */
  lemma NothingToClose()
    ensures AtomsOf("]") == ["undefined\"C1\"", "]"]
  {
    PrintDigit(1);
    var t := Feed(START, ']');
    assert "" + [']'] == "]";
    assert t.atoms == ["" + [']']] && t.atoms == ["]"];
    assert t.result == "undefined" + Placeholder('C', 1) == "undefined\"C1\"";
    FirstLeads(START, ']', "", t, t);
    assert [']'] + "" == "]";
  }
}
