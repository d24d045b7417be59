/** JSON values without reals. Integers carry one of two widths, members keep their order and may repeat a name. */
module Json {
  import opened JsonEscape

  datatype Value =
    | Null
    | Bool(b: bool)
    | Int(n: int)
    | UInt(u: nat)
    | Str(s: string)
    | Array(items: seq<Value>)
    | Object(members: seq<Pair>)

  datatype Pair = Pair(name: string, value: Value)

  datatype Kind = Arr | Obj

  const INT64_MAX := 0x7FFF_FFFF_FFFF_FFFF
  const INT64_MIN := -0x8000_0000_0000_0000
  const UINT64_MAX := 0xFFFF_FFFF_FFFF_FFFF

  /** What a C++ value can hold: 64-bit integers and 8-bit characters. */
  predicate WellFormed(v: Value) {
    match v
    case Int(n) => INT64_MIN <= n <= INT64_MAX
    case UInt(u) => u <= UINT64_MAX
    case Str(s) => IsBytes(s)
    case Array(items) => forall i :: 0 <= i < |items| ==> WellFormed(items[i])
    case Object(members) =>
      forall i :: 0 <= i < |members| ==> IsBytes(members[i].name) && WellFormed(members[i].value)
    case _ => true
  }

  predicate IsContainer(v: Value) {
    v.Array? || v.Object?
  }

  function Empty(kind: Kind): (v: Value)
    ensures IsContainer(v)
  {
    if kind.Arr? then Array([]) else Object([])
  }

  // ----- places in a value

  /** A place in a value: which child to take at each level, from the root. */
  type Place = seq<nat>

  function Size(v: Value): nat {
    match v
    case Array(items) => |items|
    case Object(members) => |members|
    case _ => 0
  }

  function Child(v: Value, i: nat): (c: Value)
    requires i < Size(v)
    ensures c < v
  {
    if v.Array? then v.items[i] else v.members[i].value
  }

  function WithChild(v: Value, i: nat, c: Value): (w: Value)
    requires i < Size(v)
    ensures Size(w) == Size(v) && Child(w, i) == c
    ensures forall j :: 0 <= j < Size(v) && j != i ==> Child(w, j) == Child(v, j)
  {
    if v.Array? then Array(v.items[i := c])
    else Object(v.members[i := Pair(v.members[i].name, c)])
  }

  predicate Resolves(v: Value, p: Place)
    decreases |p|
  {
    p == [] || (p[0] < Size(v) && Resolves(Child(v, p[0]), p[1..]))
  }

  function At(v: Value, p: Place): Value
    requires Resolves(v, p)
    decreases |p|
  {
    if p == [] then v else At(Child(v, p[0]), p[1..])
  }

  /** `v` with the value at a place replaced. */
  function Put(v: Value, p: Place, c: Value): Value
    requires Resolves(v, p)
    decreases |p|
  {
    if p == [] then c else WithChild(v, p[0], Put(Child(v, p[0]), p[1..], c))
  }

  lemma {:induction false} AtPut(v: Value, p: Place, c: Value)
    requires Resolves(v, p)
    ensures Resolves(Put(v, p, c), p) && At(Put(v, p, c), p) == c
    decreases |p|
  {
    if p != [] {
      AtPut(Child(v, p[0]), p[1..], c);
    }
  }

  lemma WithChildTwice(v: Value, i: nat, a: Value, b: Value)
    requires i < Size(v)
    ensures WithChild(WithChild(v, i, a), i, b) == WithChild(v, i, b)
  {
    if v.Array? {
      assert v.items[i := a][i := b] == v.items[i := b];
    } else {
      var n := v.members[i].name;
      assert v.members[i := Pair(n, a)][i := Pair(n, b)] == v.members[i := Pair(n, b)];
    }
  }

  lemma {:induction false} PutTwice(v: Value, p: Place, a: Value, b: Value)
    requires Resolves(v, p)
    ensures Resolves(Put(v, p, a), p) && Put(Put(v, p, a), p, b) == Put(v, p, b)
    decreases |p|
  {
    AtPut(v, p, a);
    if p != [] {
      PutTwice(Child(v, p[0]), p[1..], a, b);
      WithChildTwice(v, p[0], Put(Child(v, p[0]), p[1..], a), Put(Child(v, p[0]), p[1..], b));
    }
  }

  lemma {:induction false} PutSame(v: Value, p: Place)
    requires Resolves(v, p)
    ensures Put(v, p, At(v, p)) == v
    decreases |p|
  {
    if p != [] {
      PutSame(Child(v, p[0]), p[1..]);
      if v.Array? {
        assert v.items[p[0] := v.items[p[0]]] == v.items;
      } else {
        assert v.members[p[0] := v.members[p[0]]] == v.members;
      }
    }
  }

  /** One step further down. */
  lemma {:induction false} Deeper(v: Value, p: Place, k: nat, c: Value)
    requires Resolves(v, p) && k < Size(At(v, p))
    ensures Resolves(v, p + [k])
    ensures At(v, p + [k]) == Child(At(v, p), k)
    ensures Put(v, p + [k], c) == Put(v, p, WithChild(At(v, p), k, c))
    decreases |p|
  {
    if p == [] {
      assert [k][1..] == [];
      assert p + [k] == [k];
    } else {
      assert (p + [k])[1..] == p[1..] + [k] && (p + [k])[0] == p[0];
      Deeper(Child(v, p[0]), p[1..], k, c);
    }
  }
}
