/** Feeding the semantic actions the events of any tree rebuilds the tree. */
module JsonTrees {
  import opened Json
  import opened JsonReader
  import opened JsonBuilder
  import opened Wrappers

  /** A tree as the reader sees it: its strings and names are tokens, still quoted and escaped. */
  predicate IsTokenTree(w: Value) {
    match w
    case Str(token) => |token| >= 2
    case Array(items) => forall i :: 0 <= i < |items| ==> IsTokenTree(items[i])
    case Object(members) =>
      forall i :: 0 <= i < |members| ==> |members[i].name| >= 2 && IsTokenTree(members[i].value)
    case _ => true
  }

  /** The tree the tokens stand for. */
  function Decode(w: Value): Value
    requires IsTokenTree(w)
    decreases w, 1
  {
    match w
    case Str(token) => Str(GetStr(token))
    case Array(items) => Array(DecodeItems(items))
    case Object(members) => Object(DecodeMembers(members))
    case _ => w
  }

  function DecodeItems(items: seq<Value>): (r: seq<Value>)
    requires forall i :: 0 <= i < |items| ==> IsTokenTree(items[i])
    ensures |r| == |items|
    decreases items, 0
  {
    if items == [] then [] else [Decode(items[0])] + DecodeItems(items[1..])
  }

  function DecodeMembers(members: seq<Pair>): (r: seq<Pair>)
    requires forall i :: 0 <= i < |members| ==> |members[i].name| >= 2 && IsTokenTree(members[i].value)
    ensures |r| == |members|
    decreases members, 0
  {
    if members == [] then []
    else [Pair(GetStr(members[0].name), Decode(members[0].value))] + DecodeMembers(members[1..])
  }

  function Events(w: Value): seq<Action>
    decreases w, 1
  {
    match w
    case Null => [NewNull]
    case Bool(b) => [NewBool(b)]
    case Int(n) => [NewInt(n)]
    case UInt(u) => [NewUInt(u)]
    case Str(token) => [NewStr(token)]
    case Array(items) => Bracketed(Arr, ItemEvents(items))
    case Object(members) => Bracketed(Obj, MemberEvents(members))
  }

  function Bracketed(kind: Kind, actions: seq<Action>): seq<Action> {
    [Begin(kind)] + actions + [End(kind)]
  }

  function ItemEvents(items: seq<Value>): seq<Action>
    decreases items, 0
  {
    if items == [] then [] else Events(items[0]) + ItemEvents(items[1..])
  }

  function MemberEvents(members: seq<Pair>): seq<Action>
    decreases members, 0
  {
    if members == [] then []
    else [NewName(members[0].name)] + Events(members[0].value) + MemberEvents(members[1..])
  }

  // ----- building

  /** The pointer is set, to an open container. */
  predicate Inside(b: Builder) {
    b.current.Some? && Open(b)
  }

  /** The container the pointer points to. */
  function Here(b: Builder): Value
    requires Inside(b)
  {
    At(b.root, b.current.value)
  }

  /** `b` accepts the actions, and they turn the container it is inside into `c`, with pointer and stack as before. */
  ghost predicate Builds(b: Builder, actions: seq<Action>, c: Value) {
    && Inside(b)
    && AcceptsAll(b, actions)
    && var after := Run(b, actions);
       after.root == Put(b.root, b.current.value, c) && after.current == b.current && after.stack == b.stack
  }

  lemma BuildsHere(b: Builder, actions: seq<Action>, c: Value)
    requires Builds(b, actions, c) && IsContainer(c)
    ensures Inside(Run(b, actions)) && Here(Run(b, actions)) == c
  {
    AtPut(b.root, b.current.value, c);
  }

  lemma BuildsAppend(b: Builder, xs: seq<Action>, c: Value, ys: seq<Action>, d: Value)
    requires Builds(b, xs, c) && Builds(Run(b, xs), ys, d)
    ensures Builds(b, xs + ys, d)
  {
    RunAppend(b, xs, ys);
    PutTwice(b.root, b.current.value, c, d);
  }

  lemma AddChild(root: Value, p: Place, c: Value, name: string, e: Value, d: Value)
    requires Resolves(root, p) && At(root, p) == c && IsContainer(c)
    ensures var root1 := Put(root, p, Added(c, name, e));
            var q := p + [Size(c)];
            && Resolves(root1, q) && At(root1, q) == e
            && Put(root1, q, d) == Put(root, p, Added(c, name, d))
  {
    var k, c1 := Size(c), Added(c, name, e);
    var root1 := Put(root, p, c1);
    AtPut(root, p, c1);
    Deeper(root1, p, k, d);
    PutTwice(root, p, c1, WithChild(c1, k, d));
    if c.Array? {
      assert (c.items + [e])[k := d] == c.items + [d];
    } else {
      assert (c.members + [Pair(name, e)])[k := Pair(name, d)] == c.members + [Pair(name, d)];
    }
  }

  /** The actions between the brackets build the inner container; the brackets put it in its place. */
  lemma BuildBracketed(b: Builder, kind: Kind, actions: seq<Action>, d: Value)
    requires Inside(b) && IsContainer(d)
    requires Builds(BeginCompound(b, kind), actions, d)
    ensures Builds(b, Bracketed(kind, actions), Added(Here(b), b.name, d))
  {
    var p, c := b.current.value, Here(b);
    var b1 := BeginCompound(b, kind);
    AddChild(b.root, p, c, b.name, Empty(kind), d);
    RunOne(b, Begin(kind));
    RunAppend(b, [Begin(kind)], actions);
    BuildsHere(b1, actions, d);
    var b2 := Run(b1, actions);
    AtPut(b.root, p, Added(c, b.name, d));
    RunOne(b2, End(kind));
    RunAppend(b, [Begin(kind)] + actions, [End(kind)]);
  }

  lemma BuildScalar(b: Builder, a: Action, v: Value)
    requires Inside(b) && Accepts(b, a) && Apply(b, a) == AddToCurrent(b, v).0
    ensures Builds(b, [a], Added(Here(b), b.name, v))
  {
  }

  /** Inside a container, the events of a tree add the tree under the pending name. */
  lemma {:induction false} BuildValue(b: Builder, w: Value)
    requires IsTokenTree(w) && Inside(b)
    ensures Builds(b, Events(w), Added(Here(b), b.name, Decode(w)))
    decreases w, 1
  {
    match w
    case Array(items) =>
      InsideNew(b, Arr);
      BuildItems(BeginCompound(b, Arr), [], items);
      assert [] + DecodeItems(items) == DecodeItems(items);
      BuildBracketed(b, Arr, ItemEvents(items), Decode(w));
    case Object(members) =>
      InsideNew(b, Obj);
      BuildMembers(BeginCompound(b, Obj), [], members);
      assert [] + DecodeMembers(members) == DecodeMembers(members);
      BuildBracketed(b, Obj, MemberEvents(members), Decode(w));
    case _ =>
      BuildScalar(b, Events(w)[0], Decode(w));
  }

  lemma InsideNew(b: Builder, kind: Kind)
    requires Inside(b)
    ensures Inside(BeginCompound(b, kind)) && Here(BeginCompound(b, kind)) == Empty(kind)
  {
    AddChild(b.root, b.current.value, Here(b), b.name, Empty(kind), Empty(kind));
  }

  lemma JoinFirst<T>(done: seq<T>, first: T, rest: seq<T>)
    ensures done + [first] + rest == done + ([first] + rest)
  {
  }

  lemma {:induction false} BuildItems(b: Builder, done: seq<Value>, items: seq<Value>)
    requires forall i :: 0 <= i < |items| ==> IsTokenTree(items[i])
    requires Inside(b) && Here(b) == Array(done)
    ensures Builds(b, ItemEvents(items), Array(done + DecodeItems(items)))
    decreases items, 0
  {
    if items == [] {
      PutSame(b.root, b.current.value);
      assert done + [] == done;
    } else {
      var first := Decode(items[0]);
      BuildValue(b, items[0]);
      BuildsHere(b, Events(items[0]), Array(done + [first]));
      BuildItems(Run(b, Events(items[0])), done + [first], items[1..]);
      JoinFirst(done, first, DecodeItems(items[1..]));
      var all := Array(done + DecodeItems(items));
      BuildsAppend(b, Events(items[0]), Array(done + [first]), ItemEvents(items[1..]), all);
    }
  }

  /** The name pending when the value starts is the member's own, whatever was pending before. */
  lemma {:induction false} BuildMember(b: Builder, done: seq<Pair>, m: Pair)
    requires |m.name| >= 2 && IsTokenTree(m.value)
    requires Inside(b) && Here(b) == Object(done)
    ensures Builds(b, [NewName(m.name)] + Events(m.value), Object(done + [Pair(GetStr(m.name), Decode(m.value))]))
    decreases m, 2
  {
    RunOne(b, NewName(m.name));
    PutSame(b.root, b.current.value);
    BuildValue(Apply(b, NewName(m.name)), m.value);
    var all := Object(done + [Pair(GetStr(m.name), Decode(m.value))]);
    BuildsAppend(b, [NewName(m.name)], Here(b), Events(m.value), all);
  }

  lemma {:induction false} BuildMembers(b: Builder, done: seq<Pair>, members: seq<Pair>)
    requires forall i :: 0 <= i < |members| ==> |members[i].name| >= 2 && IsTokenTree(members[i].value)
    requires Inside(b) && Here(b) == Object(done)
    ensures Builds(b, MemberEvents(members), Object(done + DecodeMembers(members)))
    decreases members, 0
  {
    if members == [] {
      PutSame(b.root, b.current.value);
      assert done + [] == done;
    } else {
      var m := members[0];
      var first := Pair(GetStr(m.name), Decode(m.value));
      var c, xs := Object(done + [first]), [NewName(m.name)] + Events(m.value);
      BuildMember(b, done, m);
      BuildsHere(b, xs, c);
      BuildMembers(Run(b, xs), done + [first], members[1..]);
      JoinFirst(done, first, DecodeMembers(members[1..]));
      BuildsAppend(b, xs, c, MemberEvents(members[1..]), Object(done + DecodeMembers(members)));
    }
  }

  /**
    From the start, whatever value was there, the events of a tree build exactly the tree and leave no parent
    stacked.
    */
  lemma {:induction false} BuildTree(w: Value, before: Value, name: string)
    requires IsTokenTree(w)
    ensures var b := Builder(before, None, [], name);
            && AcceptsAll(b, Events(w))
            && Run(b, Events(w)).root == Decode(w)
            && Run(b, Events(w)).current == Some([])
            && Run(b, Events(w)).stack == []
  {
    var b := Builder(before, None, [], name);
    match w
    case Array(items) =>
      BuildItems(BeginCompound(b, Arr), [], items);
      assert [] + DecodeItems(items) == DecodeItems(items);
      BuildRoot(b, Arr, ItemEvents(items), Decode(w));
    case Object(members) =>
      BuildMembers(BeginCompound(b, Obj), [], members);
      assert [] + DecodeMembers(members) == DecodeMembers(members);
      BuildRoot(b, Obj, MemberEvents(members), Decode(w));
    case _ =>
      RunOne(b, Events(w)[0]);
  }

  lemma BuildRoot(b: Builder, kind: Kind, actions: seq<Action>, d: Value)
    requires b.current == None && b.stack == [] && IsContainer(d)
    requires Builds(BeginCompound(b, kind), actions, d)
    ensures AcceptsAll(b, Bracketed(kind, actions))
    ensures Run(b, Bracketed(kind, actions)) == Run(BeginCompound(b, kind), actions)
    ensures Run(b, Bracketed(kind, actions)).root == d
  {
    RunOne(b, Begin(kind));
    RunAppend(b, [Begin(kind)], actions);
    var b2 := Run(BeginCompound(b, kind), actions);
    RunOne(b2, End(kind));
    RunAppend(b, [Begin(kind)] + actions, [End(kind)]);
  }
}
