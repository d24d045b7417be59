/** The semantic actions of the JSON reader, and what they build. A pointer into the value is a place in it. */
module JsonBuilder {
  import opened JsonEscape
  import opened Json
  import opened JsonReader
  import opened Wrappers

  datatype Builder = Builder(root: Value, current: Option<Place>, stack: seq<Place>, name: string)

  /** The string behind a token: the quotes go, the escapes are replaced. */
  function GetStr(token: string): string
    requires |token| >= 2
  {
    Unescape(token[1..|token| - 1])
  }

  /** A container with one more item; an array takes no name. */
  function Added(c: Value, name: string, v: Value): (r: Value)
    requires IsContainer(c)
    ensures IsContainer(r) && Size(r) == Size(c) + 1 && Child(r, Size(c)) == v
  {
    if c.Array? then Array(c.items + [v]) else Object(c.members + [Pair(name, v)])
  }

  /** The pointer, if set, points to a container that is still open. */
  predicate Open(b: Builder) {
    b.current.Some? ==> Resolves(b.root, b.current.value) && IsContainer(At(b.root, b.current.value))
  }

  /** What the assertions in the actions demand. */
  predicate Accepts(b: Builder, a: Action) {
    && Open(b)
    && match a
       case NewName(token) => |token| >= 2 && b.current.Some? && At(b.root, b.current.value).Object?
       case NewStr(token) => |token| >= 2
       case End(kind) =>
         b.current.Some? && (b.current.value != [] ==> b.stack != [])
       case _ => true
  }

  /** The builder after a value is added, and where the value lies. */
  function AddToCurrent(b: Builder, v: Value): (r: (Builder, Place))
    requires Open(b)
  {
    if b.current.None? then (b.(root := v, current := Some([])), [])
    else
      var p := b.current.value;
      var c := At(b.root, p);
      (b.(root := Put(b.root, p, Added(c, b.name, v))), p + [Size(c)])
  }

  function BeginCompound(b: Builder, kind: Kind): Builder
    requires Open(b)
  {
    var (added, place) := AddToCurrent(b, Empty(kind));
    if b.current.None? then added
    else added.(stack := b.stack + [b.current.value], current := Some(place))
  }

  function EndCompound(b: Builder): Builder
    requires b.current.Some? && (b.current.value != [] ==> b.stack != [])
  {
    if b.current.value == [] then b
    else b.(current := Some(b.stack[|b.stack| - 1]), stack := b.stack[..|b.stack| - 1])
  }

  function Apply(b: Builder, a: Action): Builder
    requires Accepts(b, a)
  {
    match a
    case Begin(kind) => BeginCompound(b, kind)
    case End(kind) => EndCompound(b)
    case NewName(token) => b.(name := GetStr(token))
    case NewStr(token) => AddToCurrent(b, Str(GetStr(token))).0
    case NewBool(x) => AddToCurrent(b, Bool(x)).0
    case NewNull => AddToCurrent(b, Null).0
    case NewInt(n) => AddToCurrent(b, Int(n)).0
    case NewUInt(u) => AddToCurrent(b, UInt(u)).0
  }

  predicate AcceptsAll(b: Builder, actions: seq<Action>)
    decreases |actions|
  {
    actions == [] || (Accepts(b, actions[0]) && AcceptsAll(Apply(b, actions[0]), actions[1..]))
  }

  function Run(b: Builder, actions: seq<Action>): Builder
    requires AcceptsAll(b, actions)
    decreases |actions|
  {
    if actions == [] then b else Run(Apply(b, actions[0]), actions[1..])
  }

  lemma {:induction false} RunAppend(b: Builder, xs: seq<Action>, ys: seq<Action>)
    requires AcceptsAll(b, xs) && AcceptsAll(Run(b, xs), ys)
    ensures AcceptsAll(b, xs + ys) && Run(b, xs + ys) == Run(Run(b, xs), ys)
    decreases |xs|
  {
    if xs == [] {
      assert xs + ys == ys;
    } else {
      assert (xs + ys)[0] == xs[0] && (xs + ys)[1..] == xs[1..] + ys;
      RunAppend(Apply(b, xs[0]), xs[1..], ys);
    }
  }

  lemma RunOne(b: Builder, a: Action)
    requires Accepts(b, a)
    ensures AcceptsAll(b, [a]) && Run(b, [a]) == Apply(b, a)
  {
  }

  class SemanticActions {
    var root: Value
    var current: Option<Place>
    var stack: seq<Place>
    var name: string

    ghost function View(): Builder
      reads this
    {
      Builder(root, current, stack, name)
    }

    constructor (value: Value)
      ensures View() == Builder(value, None, [], "")
    {
      root, current, stack, name := value, None, [], "";
    }

    method AddFirst(value: Value) returns (place: Place)
      requires current == None
      modifies this
      ensures (View(), place) == AddToCurrent(old(View()), value)
    {
      root := value;
      current := Some([]);
      place := [];
    }

    method AddValue(value: Value) returns (place: Place)
      requires Open(View())
      modifies this
      ensures (View(), place) == AddToCurrent(old(View()), value)
    {
      if current == None {
        place := AddFirst(value);
      } else {
        var p := current.value;
        var c := At(root, p);
        match c
        case Array(items) =>
          root := Put(root, p, Array(items + [value]));
          place := p + [|items|];
        case Object(members) =>
          root := Put(root, p, Object(members + [Pair(name, value)]));
          place := p + [|members|];
      }
    }

    method BeginContainer(kind: Kind)
      requires Open(View())
      modifies this
      ensures View() == BeginCompound(old(View()), kind)
    {
      if current == None {
        var _ := AddFirst(Empty(kind));
      } else {
        stack := stack + [current.value];
        var place := AddValue(Empty(kind));
        current := Some(place);
      }
    }

    method EndContainer()
      requires Accepts(View(), End(Arr))
      modifies this
      ensures View() == EndCompound(old(View()))
    {
      if current != Some([]) {
        current := Some(stack[|stack| - 1]);
        stack := stack[..|stack| - 1];
      }
    }

    method Perform(a: Action)
      requires Accepts(View(), a)
      modifies this
      ensures View() == Apply(old(View()), a)
    {

      match a
      case Begin(kind) => BeginContainer(kind);
      case End(_) => EndContainer();
      case NewName(token) => var s := SubstituteEscChars(token[1..|token| - 1]); name := s;
      case NewStr(token) =>
        var s := SubstituteEscChars(token[1..|token| - 1]);
        var _ := AddValue(Str(s));
      case NewBool(x) => var _ := AddValue(Bool(x));
      case NewNull => var _ := AddValue(Null);
      case NewInt(n) => var _ := AddValue(Int(n));
      case NewUInt(u) => var _ := AddValue(UInt(u));
    }

    /** The actions in the order the grammar fires them. */
    method PerformAll(actions: seq<Action>)
      requires AcceptsAll(View(), actions)
      modifies this
      ensures View() == Run(old(View()), actions)
    {
      var i := 0;
      while i < |actions|
        invariant 0 <= i <= |actions|
        invariant AcceptsAll(View(), actions[i..]) && Run(View(), actions[i..]) == Run(old(View()), actions)
      {
        assert actions[i..][1..] == actions[i + 1..];
        Perform(actions[i]);
        i := i + 1;
      }
    }
  }
}
