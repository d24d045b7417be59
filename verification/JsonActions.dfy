/** The actions of a parse are those of one tree: no assertion in them fails, and the parents are stacked right. */
module JsonActions {
  import opened Json
  import opened JsonReader
  import opened JsonBuilder
  import opened JsonTrees
  import opened JsonLanguage
  import opened Wrappers

  // ----- the stack of parents

  /** The stack holds the containers around the pointer, outermost first. */
  predicate Chain(b: Builder) {
    if b.current.None? then b.stack == []
    else
      && |b.stack| == |b.current.value|
      && forall i :: 0 <= i < |b.stack| ==> b.stack[i] == b.current.value[..i]
  }

  lemma ApplyKeepsChain(b: Builder, a: Action)
    requires Chain(b) && Accepts(b, a)
    ensures Chain(Apply(b, a))
  {
    if b.current.Some? {
      var p := b.current.value;
      match a
      case Begin(kind) =>
        var after := Apply(b, a);
        var q := after.current.value;
        assert q == p + [Size(At(b.root, p))];
        forall i | 0 <= i < |after.stack|
          ensures after.stack[i] == q[..i]
        {
          assert i < |p| ==> q[..i] == p[..i];
          assert i == |p| ==> q[..i] == p;
        }
      case End(_) =>
        if p != [] {
          var up := b.stack[|b.stack| - 1];
          forall i | 0 <= i < |p| - 1
            ensures p[..i] == up[..i]
          {
          }
        }
      case _ =>
    }
  }

  function Change(a: Action): int {
    match a
    case Begin(_) => 1
    case End(_) => -1
    case _ => 0
  }

  /** How many containers the actions open and do not close. */
  function Opens(actions: seq<Action>): int {
    if actions == [] then 0 else Opens(actions[..|actions| - 1]) + Change(actions[|actions| - 1])
  }

  lemma {:induction false} OpensAppend(xs: seq<Action>, ys: seq<Action>)
    ensures Opens(xs + ys) == Opens(xs) + Opens(ys)
    decreases |ys|
  {
    if ys == [] {
      assert xs + ys == xs;
    } else {
      assert (xs + ys)[..|xs + ys| - 1] == xs + ys[..|ys| - 1];
      OpensAppend(xs, ys[..|ys| - 1]);
    }
  }

  ghost predicate NeverNegative(xs: seq<Action>) {
    Opens(xs) == 0 && forall j: nat :: j <= |xs| ==> Opens(xs[..j]) >= 0
  }

  lemma NeverNegativeAppend(xs: seq<Action>, ys: seq<Action>)
    requires NeverNegative(xs) && NeverNegative(ys)
    ensures NeverNegative(xs + ys)
  {
    OpensAppend(xs, ys);
    forall j: nat | j <= |xs + ys|
      ensures Opens((xs + ys)[..j]) >= 0
    {
      if j <= |xs| {
        assert (xs + ys)[..j] == xs[..j];
      } else {
        assert (xs + ys)[..j] == xs + ys[..j - |xs|];
        OpensAppend(xs, ys[..j - |xs|]);
      }
    }
  }

  /** While a container is being read, at least one is open. */
  ghost predicate OpenThroughout(xs: seq<Action>) {
    forall j: nat :: 0 < j < |xs| ==> Opens(xs[..j]) >= 1
  }

  lemma BracketedOpen(kind: Kind, xs: seq<Action>)
    requires NeverNegative(xs)
    ensures NeverNegative(Bracketed(kind, xs)) && OpenThroughout(Bracketed(kind, xs))
  {
    var all := Bracketed(kind, xs);
    forall j: nat | j <= |all|
      ensures 0 < j < |all| ==> Opens(all[..j]) >= 1
      ensures j == |all| ==> Opens(all[..j]) == 0
    {
      if j == |all| {
        assert all[..j] == [Begin(kind)] + xs + [End(kind)];
        OpensAppend([Begin(kind)] + xs, [End(kind)]);
        OpensAppend([Begin(kind)], xs);
        OpensOne(End(kind));
        OpensOne(Begin(kind));
      } else if 0 < j {
        assert all[..j] == [Begin(kind)] + xs[..j - 1];
        OpensAppend([Begin(kind)], xs[..j - 1]);
        OpensOne(Begin(kind));
      }
    }
    assert all[..|all|] == all;
  }

  lemma OpensOne(a: Action)
    ensures Opens([a]) == Change(a)
  {
    assert [a][..0] == [];
  }

  lemma {:induction false} EventsOpen(w: Value)
    ensures NeverNegative(Events(w)) && OpenThroughout(Events(w))
    decreases w, 1
  {
    match w
    case Array(items) =>
      ItemEventsOpen(items);
      BracketedOpen(Arr, ItemEvents(items));
    case Object(members) =>
      MemberEventsOpen(members);
      BracketedOpen(Obj, MemberEvents(members));
    case _ =>
      OneNeverNegative(Events(w)[0]);
  }

  lemma OneNeverNegative(a: Action)
    requires Change(a) == 0
    ensures NeverNegative([a])
  {
    OpensOne(a);
    assert [a][..0] == [] && [a][..1] == [a];
  }

  lemma {:induction false} ItemEventsOpen(items: seq<Value>)
    ensures NeverNegative(ItemEvents(items))
    decreases items, 0
  {
    if items != [] {
      EventsOpen(items[0]);
      ItemEventsOpen(items[1..]);
      NeverNegativeAppend(Events(items[0]), ItemEvents(items[1..]));
    }
  }

  lemma {:induction false} MemberEventsOpen(members: seq<Pair>)
    ensures NeverNegative(MemberEvents(members))
    decreases members, 0
  {
    if members != [] {
      var name := [NewName(members[0].name)];
      OneNeverNegative(name[0]);
      EventsOpen(members[0].value);
      NeverNegativeAppend(name, Events(members[0].value));
      MemberEventsOpen(members[1..]);
      NeverNegativeAppend(name + Events(members[0].value), MemberEvents(members[1..]));
    }
  }

  lemma {:induction false} AcceptsPrefix(b: Builder, xs: seq<Action>, k: nat)
    requires AcceptsAll(b, xs) && k < |xs|
    ensures AcceptsAll(b, xs[..k]) && AcceptsAll(b, xs[..k + 1])
    ensures Accepts(Run(b, xs[..k]), xs[k])
    ensures Run(b, xs[..k + 1]) == Apply(Run(b, xs[..k]), xs[k])
    decreases |xs|
  {
    if k == 0 {
      assert xs[..1] == [xs[0]];
    } else {
      AcceptsPrefix(Apply(b, xs[0]), xs[1..], k - 1);
      assert xs[..k][1..] == xs[1..][..k - 1] && xs[..k + 1][1..] == xs[1..][..k];
    }
  }

  function Height(opens: int): int {
    if opens >= 1 then opens - 1 else 0
  }

  lemma {:induction false} StackHeight(b: Builder, xs: seq<Action>, k: nat)
    requires b.current == None && b.stack == [] && AcceptsAll(b, xs) && k <= |xs|
    requires OpenThroughout(xs) && NeverNegative(xs)
    ensures AcceptsAll(b, xs[..k]) && Chain(Run(b, xs[..k]))
    ensures |Run(b, xs[..k]).stack| == Height(Opens(xs[..k]))
    ensures k > 0 ==> Run(b, xs[..k]).current.Some?
    decreases k
  {
    if k > 0 {
      var a := xs[k - 1];
      StackHeight(b, xs, k - 1);
      AcceptsPrefix(b, xs, k - 1);
      ApplyKeepsChain(Run(b, xs[..k - 1]), a);
      assert xs[..k][..k - 1] == xs[..k - 1];
      assert Opens(xs[..k]) == Opens(xs[..k - 1]) + Change(a);
    }
  }

  /**
   * Reading any tree: at every point the stack holds exactly the places of the containers around the one being built,
   * one fewer than are open; so no stacked pointer points below a container that still grows.
   */
  lemma StackIsOpenContainers(w: Value, before: Value, name: string, k: nat)
    requires IsTokenTree(w) && k <= |Events(w)|
    ensures var b := Builder(before, None, [], name);
            && AcceptsAll(b, Events(w)[..k])
            && Chain(Run(b, Events(w)[..k]))
            && |Run(b, Events(w)[..k]).stack| == Height(Opens(Events(w)[..k]))
            && (0 < k < |Events(w)| ==> Opens(Events(w)[..k]) >= 1)
  {
    BuildTree(w, before, name);
    EventsOpen(w);
    StackHeight(Builder(before, None, [], name), Events(w), k);
  }

  // ----- what is accepted is built

  /**
   * On every text the reader accepts, no assertion in its actions fails; the value built is the meaning of what is
   * spelled there, nothing that was there before survives, and no parent is left on the stack.
   */
  lemma AcceptedIsBuilt(s: string, before: Value, name: string) returns (x: Spelling)
    requires ParseJson(s).Match?
    ensures Spells(x, s, ParseJson(s))
    ensures var b := Builder(before, None, [], name);
            && AcceptsAll(b, ParseJson(s).actions)
            && Run(b, ParseJson(s).actions).root == Meaning(x)
            && Run(b, ParseJson(s).actions).stack == []
  {
    x := ReadIsSpelling(s);
    TreeIsTokens(x);
    BuildTree(TreeOf(x), before, name);
  }

  /** Reads a value from the front of a text; where the text is refused, nothing is said about the value. */
  method ReadRange(s: string, before: Value) returns (success: bool, value: Value, rest: string)
    requires !ParseJson(s).Real?
    ensures success <==> StartsWithSpelling(s)
    ensures success ==> exists x :: Spells(x, s, Match(Events(TreeOf(x)), rest)) && value == Meaning(x)
  {
    var r := ParseJson(s);
    success, value, rest := r.Match?, before, s;
    AcceptedExactly(s);
    if success {
      var actions := new SemanticActions(before);
      ghost var x := AcceptedIsBuilt(s, before, "");
      actions.PerformAll(r.actions);
      value, rest := actions.root, r.rest;
      assert Spells(x, s, Match(Events(TreeOf(x)), rest));
    }
  }
}
