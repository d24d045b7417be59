/** Textual paths into JSON values, and setting a member through one. A pointer into the value is a place in it. */
module JsonPath {
  import opened Decimal
  import opened Json
  import opened Wrappers

  // ----- tokens

  predicate Starts(c: char) {
    c == '.' || c == '['
  }

  predicate IsName(s: string) {
    forall i :: 0 <= i < |s| ==> !Starts(s[i])
  }

  /** The text up to the next '.' or '[', and the rest. */
  function NextToken(remain: string): (r: (string, string))
    ensures r.0 + r.1 == remain && IsName(r.0) && (r.1 == "" || Starts(r.1[0]))
    decreases |remain|
  {
    if remain == "" || Starts(remain[0]) then ("", remain)
    else
      var (token, rest) := NextToken(remain[1..]);
      ([remain[0]] + token, rest)
  }

  /** The text up to the next ']', and the rest behind it. */
  function GetCondition(remain: string): (r: Option<(string, string)>)
    ensures r.Some? ==> r.value.0 + "]" + r.value.1 == remain && ']' !in r.value.0
    ensures r.None? <==> ']' !in remain
    decreases |remain|
  {
    if remain == "" then None
    else if remain[0] == ']' then
      assert "" + "]" + remain[1..] == remain;
      Some(("", remain[1..]))
    else
      match GetCondition(remain[1..])
      case None => None
      case Some((c, rest)) =>
        assert [remain[0]] + c + "]" + rest == [remain[0]] + (c + "]" + rest);
        Some(([remain[0]] + c, rest))
  }

  datatype Segment = Bare(name: string) | Dot(name: string) | Sub(condition: string) | Unclosed(text: string)

  function Tokenise(path: string): seq<Segment>
    decreases |path|
  {
    if path == "" then []
    else if path[0] == '.' then
      var (token, rest) := NextToken(path[1..]);
      [Dot(token)] + Tokenise(rest)
    else if path[0] == '[' then
      match GetCondition(path[1..])
      case None => [Unclosed(path[1..])]
      case Some((c, rest)) => [Sub(c)] + Tokenise(rest)
    else
      var (token, rest) := NextToken(path);
      assert token != "";
      [Bare(token)] + Tokenise(rest)
  }

  function SegmentText(x: Segment): string {
    match x
    case Bare(name) => name
    case Dot(name) => "." + name
    case Sub(c) => "[" + (c + "]")
    case Unclosed(text) => "[" + text
  }

  function PathText(segments: seq<Segment>): string {
    if segments == [] then "" else SegmentText(segments[0]) + PathText(segments[1..])
  }

  /** What may follow a segment: names stop at a '.' or '[', conditions at a ']'. */
  predicate Fits(x: Segment, rest: seq<Segment>) {
    match x
    case Bare(name) => name != "" && IsName(name) && NoBareFirst(rest)
    case Dot(name) => IsName(name) && NoBareFirst(rest)
    case Sub(c) => ']' !in c
    case Unclosed(text) => ']' !in text && rest == []
  }

  /** Segments as they come out of a text. */
  predicate Canonical(segments: seq<Segment>)
    decreases |segments|
  {
    segments != [] ==> Fits(segments[0], segments[1..]) && Canonical(segments[1..])
  }

  predicate NoBareFirst(segments: seq<Segment>) {
    segments != [] ==> !segments[0].Bare?
  }

  lemma SubText(path: string, c: string, rest: string)
    requires path != "" && path[0] == '[' && path[1..] == c + "]" + rest
    ensures path == "[" + (c + "]") + rest
  {
    assert path == "[" + path[1..];
  }

  lemma FirstText(x: Segment, rest: seq<Segment>)
    ensures PathText([x] + rest) == SegmentText(x) + PathText(rest)
    ensures Canonical([x] + rest) <==> Fits(x, rest) && Canonical(rest)
  {
    assert ([x] + rest)[1..] == rest;
  }

  /** The segments spell the text, and start with a name of their own only if the text does. */
  predicate Spells(segments: seq<Segment>, text: string) {
    && PathText(segments) == text && Canonical(segments)
    && (text == "" || Starts(text[0]) ==> NoBareFirst(segments))
  }

  lemma SpellsFirst(x: Segment, segments: seq<Segment>, rest: string, path: string)
    requires Spells(segments, rest) && Fits(x, segments) && SegmentText(x) + rest == path
    requires x.Bare? ==> !Starts(x.name[0])
    ensures Spells([x] + segments, path)
  {
    FirstText(x, segments);
    assert x.Bare? ==> path[0] == x.name[0];
  }

  lemma DotText(path: string, token: string, rest: string)
    requires path != "" && path[0] == '.' && path[1..] == token + rest
    ensures "." + token + rest == path
  {
    assert path == [path[0]] + path[1..];
  }

  lemma DotSpells(path: string, token: string, rest: string)
    requires path != "" && path[0] == '.' && NextToken(path[1..]) == (token, rest)
    requires Spells(Tokenise(rest), rest)
    ensures Spells(Tokenise(path), path)
  {
    assert Tokenise(path) == [Dot(token)] + Tokenise(rest);
    DotText(path, token, rest);
    SpellsFirst(Dot(token), Tokenise(rest), rest, path);
  }

  lemma SubSpells(path: string, c: string, rest: string)
    requires path != "" && path[0] == '[' && GetCondition(path[1..]) == Some((c, rest))
    requires Spells(Tokenise(rest), rest)
    ensures Spells(Tokenise(path), path)
  {
    assert Tokenise(path) == [Sub(c)] + Tokenise(rest);
    SubText(path, c, rest);
    SpellsFirst(Sub(c), Tokenise(rest), rest, path);
  }

  lemma UnclosedSpells(path: string)
    requires path != "" && path[0] == '[' && GetCondition(path[1..]).None?
    ensures Spells(Tokenise(path), path)
  {
    assert Tokenise(path) == [Unclosed(path[1..])] + [];
    assert "[" + path[1..] + "" == path;
    SpellsFirst(Unclosed(path[1..]), [], "", path);
  }

  lemma BareSpells(path: string, token: string, rest: string)
    requires path != "" && !Starts(path[0]) && NextToken(path) == (token, rest)
    requires Spells(Tokenise(rest), rest)
    ensures Spells(Tokenise(path), path)
  {
    assert token != "" && token[0] == path[0];
    assert Tokenise(path) == [Bare(token)] + Tokenise(rest);
    SpellsFirst(Bare(token), Tokenise(rest), rest, path);
  }

  /** No text is lost, and the segments are canonical. */
  lemma {:induction false} TextOfTokens(path: string)
    ensures Spells(Tokenise(path), path)
    decreases |path|
  {
    if path == "" {
    } else if path[0] == '.' {
      var (token, rest) := NextToken(path[1..]);
      TextOfTokens(rest);
      DotSpells(path, token, rest);
    } else if path[0] == '[' {
      match GetCondition(path[1..])
      case None =>
        UnclosedSpells(path);
      case Some((c, rest)) =>
        TextOfTokens(rest);
        SubSpells(path, c, rest);
    } else {
      var (token, rest) := NextToken(path);
      TextOfTokens(rest);
      BareSpells(path, token, rest);
    }
  }

  lemma {:induction false} NextTokenOf(name: string, rest: string)
    requires IsName(name) && (rest == "" || Starts(rest[0]))
    ensures NextToken(name + rest) == (name, rest)
    decreases |name|
  {
    if name == "" {
      assert name + rest == rest;
    } else {
      assert (name + rest)[1..] == name[1..] + rest;
      NextTokenOf(name[1..], rest);
      assert [name[0]] + name[1..] == name;
    }
  }

  lemma {:induction false} GetConditionOf(c: string, rest: string)
    requires ']' !in c
    ensures GetCondition(c + "]" + rest) == Some((c, rest))
    decreases |c|
  {
    var s := c + "]" + rest;
    if c == "" {
      assert s == "]" + rest;
    } else {
      assert s[1..] == c[1..] + "]" + rest;
      GetConditionOf(c[1..], rest);
      assert [c[0]] + c[1..] == c;
    }
  }

  lemma NotBareText(segments: seq<Segment>)
    requires NoBareFirst(segments)
    ensures PathText(segments) == "" || Starts(PathText(segments)[0])
  {
  }

  lemma TokeniseBare(name: string, rest: string)
    requires name != "" && IsName(name) && (rest == "" || Starts(rest[0]))
    ensures Tokenise(name + rest) == [Bare(name)] + Tokenise(rest)
  {
    NextTokenOf(name, rest);
  }

  lemma TokeniseDot(name: string, rest: string)
    requires IsName(name) && (rest == "" || Starts(rest[0]))
    ensures Tokenise("." + name + rest) == [Dot(name)] + Tokenise(rest)
  {
    assert ("." + name + rest)[1..] == name + rest;
    NextTokenOf(name, rest);
  }

  lemma TokeniseSub(c: string, rest: string)
    requires ']' !in c
    ensures Tokenise("[" + (c + "]") + rest) == [Sub(c)] + Tokenise(rest)
  {
    assert ("[" + (c + "]") + rest)[1..] == c + "]" + rest;
    GetConditionOf(c, rest);
  }

  lemma TokeniseUnclosed(text: string)
    requires ']' !in text
    ensures Tokenise("[" + text) == [Unclosed(text)]
  {
  }

  lemma TokeniseFirst(x: Segment, others: seq<Segment>)
    requires Fits(x, others)
    ensures var rest := PathText(others); Tokenise(SegmentText(x) + rest) == [x] + Tokenise(rest)
  {
    var rest := PathText(others);
    match x
    case Bare(name) =>
      NotBareText(others);
      TokeniseBare(name, rest);
    case Dot(name) =>
      NotBareText(others);
      TokeniseDot(name, rest);
    case Sub(c) =>
      TokeniseSub(c, rest);
    case Unclosed(text) =>
      assert "[" + text + rest == "[" + text;
      TokeniseUnclosed(text);
  }

  lemma TokensOfFirst(x: Segment, others: seq<Segment>)
    requires Fits(x, others) && Tokenise(PathText(others)) == others
    ensures Tokenise(PathText([x] + others)) == [x] + others
  {
    FirstText(x, others);
    TokeniseFirst(x, others);
  }

  lemma {:induction false} TokensOfCanonical(segments: seq<Segment>)
    requires Canonical(segments)
    ensures Tokenise(PathText(segments)) == segments
    decreases |segments|
  {
    if segments != [] {
      TokensOfCanonical(segments[1..]);
      TokensOfFirst(segments[0], segments[1..]);
      assert segments == [segments[0]] + segments[1..];
    }
  }

  /** Tokenising a printed path recovers its segments, exactly if they are canonical. */
  lemma TokensOfText(segments: seq<Segment>)
    ensures Tokenise(PathText(segments)) == segments <==> Canonical(segments)
  {
    TextOfTokens(PathText(segments));
    if Canonical(segments) { TokensOfCanonical(segments); }
  }

  // ----- following a path

  const INT_MAX := 0x7FFF_FFFF

  /** The conversion of a subscript to an int: an optional sign and digits, nothing else. */
  function ReadIndex(c: string): Option<int> {
    var signed := c != "" && (c[0] == '-' || c[0] == '+');
    var digits := if signed then c[1..] else c;
    if digits == "" || !AllDigits(digits) then None
    else
      var n: int := Read(digits);
      var value := if signed && c[0] == '-' then -n else n;
      if -INT_MAX - 1 <= value <= INT_MAX then Some(value) else None
  }

  lemma IndexRead(i: nat)
    requires i <= INT_MAX
    ensures ReadIndex(Print(i)) == Some(i) && ']' !in Print(i) && '=' !in Print(i)
  {
    ReadPrint(i);
    assert IsDigit(Print(i)[0]);
  }

  /** The first member of a name. */
  function Get(members: seq<Pair>, name: string): (r: Option<nat>)
    ensures r.Some? ==> r.value < |members| && members[r.value].name == name
    ensures r.Some? ==> forall j :: 0 <= j < r.value ==> members[j].name != name
    ensures r.None? ==> forall j :: 0 <= j < |members| ==> members[j].name != name
  {
    if members == [] then None
    else if members[0].name == name then Some(0)
    else
      match Get(members[1..], name)
      case None => None
      case Some(i) => Some(i + 1)
  }

  method Find(members: seq<Pair>, name: string) returns (r: Option<nat>)
    ensures r == Get(members, name)
  {
    for i := 0 to |members|
      invariant forall j :: 0 <= j < i ==> members[j].name != name
    {
      if name == members[i].name { return Some(i); }
    }
    return None;
  }

  /**
    Where a path leads: a place, the null pointer, an exception, a null pointer used, or a condition (outside this
    model).
    */
  datatype Pointer = To(place: Place) | Nil | Throws | Crash | Condition

  predicate Live(root: Value, o: Pointer) {
    match o
    case To(p) => Resolves(root, p)
    case Nil => true
    case _ => false
  }

  function Below(root: Value, p: Place, i: nat): (r: Pointer)
    requires Resolves(root, p) && i < Size(At(root, p))
    ensures r == To(p + [i]) && Live(root, r) && At(root, p + [i]) == Child(At(root, p), i)
  {
    Deeper(root, p, i, Value.Null);
    To(p + [i])
  }

  function Step(root: Value, o: Pointer, x: Segment): (r: Pointer)
    requires Live(root, o)
    ensures r.To? ==> Live(root, r)
  {
    match x
    case Unclosed(_) => Throws
    case Sub(c) =>
      if '=' in c then Condition
      else if o.Nil? then Crash
      else if !At(root, o.place).Array? then Throws
      else
        var i := ReadIndex(c);
        if i.None? || !(0 <= i.value < |At(root, o.place).items|) then Throws else Below(root, o.place, i.value)
    case Dot(name) =>
      if o.Nil? then Crash
      else if !At(root, o.place).Object? then Throws
      else
        var members := At(root, o.place).members;
        var i := Get(members, name);
        if i.None? || !members[i.value].value.Object? then Throws else Below(root, o.place, i.value)
    case Bare(name) =>
      if o.Nil? then Crash
      else if !At(root, o.place).Object? then Throws
      else
        var i := Get(At(root, o.place).members, name);
        if i.None? then Nil else Below(root, o.place, i.value)
  }

  /** The place reached from `o` over all segments, unless one of them fails. */
  function Walk(root: Value, o: Pointer, segments: seq<Segment>): (r: Pointer)
    requires Live(root, o)
    ensures r.To? ==> Live(root, r)
    decreases |segments|
  {
    if segments == [] then o
    else
      var next := Step(root, o, segments[0]);
      if next.To? || next.Nil? then Walk(root, next, segments[1..]) else next
  }

  method FollowName(root: Value, o: Pointer, token: string, dotted: bool) returns (next: Pointer)
    requires Live(root, o)
    ensures next == Step(root, o, if dotted then Dot(token) else Bare(token))
  {
    if o.Nil? { return Crash; }
    if !At(root, o.place).Object? { return Throws; }
    var members := At(root, o.place).members;
    var i := Find(members, token);
    if dotted && (i.None? || !members[i.value].value.Object?) { return Throws; }
    next := if i.None? then Nil else Below(root, o.place, i.value);
  }

  method FollowIndex(root: Value, o: Pointer, condition: string) returns (next: Pointer)
    requires Live(root, o)
    ensures next == Step(root, o, Sub(condition))
  {
    if '=' in condition { return Condition; }
    if o.Nil? { return Crash; }
    if !At(root, o.place).Array? { return Throws; }
    var index := ReadIndex(condition);
    if index.None? || !(0 <= index.value < |At(root, o.place).items|) { return Throws; }
    next := Below(root, o.place, index.value);
  }

  lemma WalkOne(root: Value, o: Pointer, segments: seq<Segment>, next: Pointer, rest: seq<Segment>)
    requires Live(root, o) && segments != [] && segments == [segments[0]] + rest && next == Step(root, o, segments[0])
    ensures Walk(root, o, segments) == if next.To? || next.Nil? then Walk(root, next, rest) else next
  {
    assert segments[1..] == rest;
  }

  // ----- which places a path leads to

  /** A subscript that says `i`: digits, maybe leading zeros, maybe a sign. */
  ghost predicate SaysIndex(c: string, i: nat) {
    i <= INT_MAX && exists d :: SpellsIndex(c, d, i)
  }

  predicate SpellsIndex(c: string, d: string, i: nat) {
    && d != "" && AllDigits(d) && Read(d) == i
    && (c == d || c == ['+'] + d || (c == ['-'] + d && i == 0))
  }

  lemma SaysIndexRead(c: string, i: nat)
    ensures SaysIndex(c, i) <==> ReadIndex(c) == Some(i)
  {
    if SaysIndex(c, i) {
      var d :| SpellsIndex(c, d, i);
      assert IsDigit(d[0]);
      assert c != d ==> c[1..] == d;
    }
    if ReadIndex(c) == Some(i) {
      var signed := c[0] == '-' || c[0] == '+';
      assert signed ==> c == [c[0]] + c[1..];
      assert SpellsIndex(c, if signed then c[1..] else c, i);
    }
  }

  predicate FirstNamed(members: seq<Pair>, name: string, i: nat) {
    i < |members| && members[i].name == name && forall j :: 0 <= j < i ==> members[j].name != name
  }

  /** Of the children of `v`, the segment means number `i`: the item of that index, or the first member of that name. */
  ghost predicate Selects(v: Value, x: Segment, i: nat) {
    match x
    case Bare(name) => v.Object? && FirstNamed(v.members, name, i)
    case Dot(name) => v.Object? && FirstNamed(v.members, name, i) && v.members[i].value.Object?
    case Sub(c) => v.Array? && i < |v.items| && '=' !in c && SaysIndex(c, i)
    case Unclosed(_) => false
  }

  lemma {:induction false} PrefixResolves(root: Value, p: Place, k: nat)
    requires Resolves(root, p) && k <= |p|
    ensures Resolves(root, p[..k])
    decreases k
  {
    if k > 0 {
      PrefixResolves(Child(root, p[0]), p[1..], k - 1);
      assert p[..k][1..] == p[1..][..k - 1];
    }
  }

  /** The value around the place, `k` steps down from the root. */
  function Around(root: Value, p: Place, k: nat): Value
    requires Resolves(root, p) && k <= |p|
  {
    PrefixResolves(root, p, k);
    At(root, p[..k])
  }

  /** The place is the one that the segments mean: each selects the next step down. */
  ghost predicate Leads(root: Value, segments: seq<Segment>, p: Place) {
    && |p| == |segments| && Resolves(root, p)
    && forall k: nat :: k < |p| ==> Selects(Around(root, p, k), segments[k], p[k])
  }

  /** The segments lead to the place, and the next one selects nothing there. */
  ghost predicate StopsAt(root: Value, segments: seq<Segment>, p: Place) {
    && |p| < |segments| && Leads(root, segments[..|p|], p)
    && forall i: nat :: !Selects(At(root, p), segments[|p|], i)
  }

  /**
    What becomes of a path that stops at `v`, its first segment there selecting nothing. An unchecked name missing in
    an object is no failure yet: the null pointer is only used by a name or an index behind it.
    */
  function FailureOf(v: Value, rest: seq<Segment>): Pointer
    requires rest != []
  {
    match rest[0]
    case Unclosed(_) => Throws
    case Dot(_) => Throws
    case Sub(c) => if '=' in c then Condition else Throws
    case Bare(_) =>
      if !v.Object? then Throws
      else if |rest| == 1 then Nil
      else
        match rest[1]
        case Unclosed(_) => Throws
        case Sub(c) => if '=' in c then Condition else Crash
        case _ => Crash
  }

  method GetPath(root: Value, path: string) returns (o: Pointer)
    ensures o == Walk(root, To([]), Tokenise(path))
  {
    var remain := path;
    o := To([]);
    while remain != ""
      invariant Live(root, o)
      invariant Walk(root, o, Tokenise(remain)) == Walk(root, To([]), Tokenise(path))
      decreases |remain|
    {
      ghost var segments, before := Tokenise(remain), o;
      var first := remain[0];
      if first == '[' {
        var condition := GetCondition(remain[1..]);
        if condition.None? {
          WalkOne(root, o, segments, Throws, []);
          return Throws;
        }
        remain := condition.value.1;
        o := FollowIndex(root, o, condition.value.0);
      } else {
        var (token, rest) := NextToken(if first == '.' then remain[1..] else remain);
        remain := rest;
        o := FollowName(root, o, token, first == '.');
      }
      WalkOne(root, before, segments, o, Tokenise(remain));
      if !o.To? && !o.Nil? { return; }
    }
  }

  // ----- a path leads to the place that its segments mean

  lemma SameChild(o: Place, i: nat, j: nat)
    ensures o + [i] == o + [j] <==> i == j
  {
    assert (o + [i])[|o|] == i && (o + [j])[|o|] == j;
  }

  lemma IndexSelects(root: Value, o: Place, c: string, i: nat)
    requires Resolves(root, o)
    ensures Step(root, To(o), Sub(c)) == To(o + [i]) <==> Selects(At(root, o), Sub(c), i)
  {
    SaysIndexRead(c, i);
    var said := ReadIndex(c);
    if said.Some? && said.value >= 0 {
      SameChild(o, said.value, i);
    }
  }

  lemma FirstIsGot(members: seq<Pair>, name: string, i: nat)
    ensures FirstNamed(members, name, i) <==> Get(members, name) == Some(i)
  {
    var got := Get(members, name);
    assert got.Some? && i < got.value ==> members[i].name != name;
    assert got.Some? && got.value < i < |members| ==> members[got.value].name == name;
  }

  lemma NameSelects(root: Value, o: Place, x: Segment, i: nat)
    requires Resolves(root, o) && (x.Bare? || x.Dot?)
    ensures Step(root, To(o), x) == To(o + [i]) <==> Selects(At(root, o), x, i)
  {
    var v := At(root, o);
    if v.Object? {
      FirstIsGot(v.members, x.name, i);
      var got := Get(v.members, x.name);
      if got.Some? {
        SameChild(o, got.value, i);
      }
    }
  }

  lemma StepSelects(root: Value, o: Place, x: Segment, i: nat)
    requires Resolves(root, o)
    ensures Step(root, To(o), x) == To(o + [i]) <==> Selects(At(root, o), x, i)
  {
    match x
    case Sub(c) => IndexSelects(root, o, c, i);
    case Unclosed(_) =>
    case _ => NameSelects(root, o, x, i);
  }

  lemma StepGoesDown(root: Value, o: Place, x: Segment) returns (i: nat)
    requires Resolves(root, o) && Step(root, To(o), x).To?
    ensures Step(root, To(o), x) == To(o + [i])
  {
    i := match x
      case Sub(c) => ReadIndex(c).value
      case _ => Get(At(root, o).members, x.name).value;
  }

  lemma LeadsMore(root: Value, segments: seq<Segment>, p: Place, x: Segment, i: nat)
    requires Leads(root, segments, p) && Selects(At(root, p), x, i)
    ensures Leads(root, segments + [x], p + [i])
  {
    var q := p + [i];
    Deeper(root, p, i, Value.Null);
    forall k: nat | k < |q| ensures Selects(Around(root, q, k), (segments + [x])[k], q[k]) {
      assert q[..k] == p[..k];
      assert k == |p| ==> p[..k] == p;
    }
  }

  lemma LeadsFront(root: Value, front: seq<Segment>, x: Segment, q: Place, i: nat)
    requires Leads(root, front + [x], q + [i])
    ensures Leads(root, front, q) && Selects(At(root, q), x, i)
  {
    var p, n := q + [i], |q|;
    PrefixResolves(root, p, n);
    assert p[..n] == q && Selects(Around(root, p, n), (front + [x])[n], p[n]);
    forall k: nat | k < n ensures Selects(Around(root, q, k), front[k], q[k]) {
      assert q[..k] == p[..k] && Selects(Around(root, p, k), (front + [x])[k], p[k]);
    }
  }

  lemma {:induction false} WalkMore(root: Value, o: Pointer, segments: seq<Segment>, x: Segment)
    requires Live(root, o)
    ensures var q := Walk(root, o, segments);
            Walk(root, o, segments + [x]) == if q.To? || q.Nil? then Step(root, q, x) else q
    decreases |segments|
  {
    var all := segments + [x];
    if segments == [] {
      assert all[0] == x && all[1..] == [];
    } else {
      var next := Step(root, o, segments[0]);
      assert all[0] == segments[0] && all[1..] == segments[1..] + [x];
      if next.To? || next.Nil? {
        WalkMore(root, next, segments[1..], x);
      }
    }
  }

  lemma LeadsLast(root: Value, front: seq<Segment>, o: Place, x: Segment, p: Place)
    requires Leads(root, front, o) && Step(root, To(o), x) == To(p)
    ensures Leads(root, front + [x], p)
  {
    var i := StepGoesDown(root, o, x);
    StepSelects(root, o, x, i);
    LeadsMore(root, front, o, x, i);
  }

  lemma WalkLast(root: Value, front: seq<Segment>, x: Segment, p: Place) returns (o: Place)
    requires Walk(root, To([]), front + [x]) == To(p)
    ensures Walk(root, To([]), front) == To(o) && Resolves(root, o) && Step(root, To(o), x) == To(p)
  {
    WalkMore(root, To([]), front, x);
    o := Walk(root, To([]), front).place;
  }

  lemma {:induction false} LeadsWhereWalked(root: Value, segments: seq<Segment>, p: Place)
    requires Walk(root, To([]), segments) == To(p)
    ensures Leads(root, segments, p)
    decreases |segments|
  {
    if segments != [] {
      var n := |segments| - 1;
      var front, x := segments[..n], segments[n];
      assert segments == front + [x];
      var o := WalkLast(root, front, x, p);
      LeadsWhereWalked(root, front, o);
      LeadsLast(root, front, o, x, p);
    }
  }

  lemma {:induction false} WalksWhereLed(root: Value, segments: seq<Segment>, p: Place)
    requires Leads(root, segments, p)
    ensures Walk(root, To([]), segments) == To(p)
    decreases |segments|
  {
    if segments != [] {
      var n := |segments| - 1;
      var front, x, q, i := segments[..n], segments[n], p[..n], p[n];
      assert segments == front + [x] && p == q + [i];
      LeadsFront(root, front, x, q, i);
      WalksWhereLed(root, front, q);
      WalkMore(root, To([]), front, x);
      StepSelects(root, q, x, i);
    }
  }

  /** Following a path ends at a place if and only if the segments mean that place. */
  lemma LeadsExactly(root: Value, segments: seq<Segment>, p: Place)
    ensures Walk(root, To([]), segments) == To(p) <==> Leads(root, segments, p)
  {
    if Walk(root, To([]), segments) == To(p) {
      LeadsWhereWalked(root, segments, p);
    }
    if Leads(root, segments, p) {
      WalksWhereLed(root, segments, p);
    }
  }

  lemma {:induction false} WalkThrough(root: Value, o: Pointer, a: seq<Segment>, b: seq<Segment>)
    requires Live(root, o) && Walk(root, o, a).To?
    ensures Walk(root, o, a + b) == Walk(root, Walk(root, o, a), b)
    decreases |a|
  {
    if a == [] {
      assert a + b == b;
    } else {
      assert (a + b)[0] == a[0] && (a + b)[1..] == a[1..] + b;
      WalkThrough(root, Step(root, o, a[0]), a[1..], b);
    }
  }

  lemma NothingSelected(root: Value, o: Place, x: Segment)
    requires Resolves(root, o) && forall i: nat :: !Selects(At(root, o), x, i)
    ensures Step(root, To(o), x) == FailureOf(At(root, o), [x])
  {
    if Step(root, To(o), x).To? {
      var i := StepGoesDown(root, o, x);
      StepSelects(root, o, x, i);
    }
  }

  lemma WalkFails(root: Value, o: Place, rest: seq<Segment>)
    requires rest != [] && Resolves(root, o) && forall i: nat :: !Selects(At(root, o), rest[0], i)
    ensures Walk(root, To(o), rest) == FailureOf(At(root, o), rest)
  {
    NothingSelected(root, o, rest[0]);
    if Step(root, To(o), rest[0]).Nil? && |rest| > 1 {
      assert rest[1..][0] == rest[1];
      NilFails(root, rest[1..]);
    }
  }

  lemma NilFails(root: Value, rest: seq<Segment>)
    requires rest != []
    ensures Walk(root, Nil, rest) == (match rest[0]
                                      case Unclosed(_) => Throws
                                      case Sub(c) => if '=' in c then Condition else Crash
                                      case _ => Crash)
  {
  }

  /** Where the segments stop before the end, the failure is the one described. */
  lemma StopsAsDescribed(root: Value, segments: seq<Segment>, p: Place)
    requires StopsAt(root, segments, p)
    ensures Walk(root, To([]), segments) == FailureOf(At(root, p), segments[|p|..])
  {
    LeadsExactly(root, segments[..|p|], p);
    assert segments == segments[..|p|] + segments[|p|..];
    WalkThrough(root, To([]), segments[..|p|], segments[|p|..]);
    WalkFails(root, p, segments[|p|..]);
  }

  /** And in every value every path leads to some place or stops at one, so that nothing is left open. */
  lemma {:induction false} LeadsOrStops(root: Value, segments: seq<Segment>) returns (p: Place)
    ensures Leads(root, segments, p) || StopsAt(root, segments, p)
    decreases |segments|
  {
    if segments == [] {
      p := [];
    } else {
      var n := |segments| - 1;
      assert segments == segments[..n] + [segments[n]];
      p := LeadsOrStops(root, segments[..n]);
      if Leads(root, segments[..n], p) {
        if i: nat :| Selects(At(root, p), segments[n], i) {
          LeadsMore(root, segments[..n], p, segments[n], i);
          p := p + [i];
        }
      } else {
        assert segments[..n][..|p|] == segments[..|p|];
      }
    }
  }

  /** Exceptions come exactly from paths that stop where an exception is described. */
  lemma ThrowsExactly(root: Value, segments: seq<Segment>)
    ensures Walk(root, To([]), segments).Throws? <==>
            exists p :: StopsAt(root, segments, p) && FailureOf(At(root, p), segments[|p|..]).Throws?
  {
    if p :| StopsAt(root, segments, p) && FailureOf(At(root, p), segments[|p|..]).Throws? {
      StopsAsDescribed(root, segments, p);
    }
    if Walk(root, To([]), segments).Throws? {
      var p := LeadsOrStops(root, segments);
      LeadsExactly(root, segments, p);
      StopsAsDescribed(root, segments, p);
    }
  }

  /** The text of a path of names and indices leads exactly where these mean. */
  lemma PrintedPathLeads(root: Value, segments: seq<Segment>, p: Place)
    requires Canonical(segments)
    ensures Walk(root, To([]), Tokenise(PathText(segments))) == To(p) <==> Leads(root, segments, p)
  {
    TokensOfText(segments);
    LeadsExactly(root, segments, p);
  }

  lemma PrintedIndexSays(i: nat, j: nat)
    requires i <= INT_MAX
    ensures SaysIndex(Print(i), j) <==> i == j
  {
    IndexRead(i);
    SaysIndexRead(Print(i), j);
  }

  // ----- when a null pointer is used

  predicate NoMember(v: Value, name: string) {
    v.Object? && forall i :: 0 <= i < |v.members| ==> v.members[i].name != name
  }

  /**
    Segment `k` is a name without check, and the segments before it lead from `o` to an object without such a
    member.
    */
  predicate Misses(root: Value, o: Pointer, segments: seq<Segment>, k: nat)
    requires Live(root, o)
  {
    && k < |segments| && segments[k].Bare?
    && var before := Walk(root, o, segments[..k]);
       before.To? && NoMember(At(root, before.place), segments[k].name)
  }

  /** The segment follows the pointer it is given, without looking whether it is null. */
  predicate Follows(x: Segment) {
    x.Bare? || x.Dot? || (x.Sub? && '=' !in x.condition)
  }

  lemma MissesLater(root: Value, o: Pointer, segments: seq<Segment>, k: nat)
    requires Live(root, o) && segments != []
    requires var next := Step(root, o, segments[0]); next.To? || next.Nil?
    ensures Misses(root, o, segments, k + 1) <==> Misses(root, Step(root, o, segments[0]), segments[1..], k)
  {
    if k < |segments| - 1 {
      assert segments[..k + 1][1..] == segments[1..][..k] && segments[..k + 1][0] == segments[0];
    }
  }

  /** A path gives the null pointer exactly if its last segment is such a name. */
  lemma {:induction false} NilExactly(root: Value, o: Pointer, segments: seq<Segment>)
    requires Live(root, o) && o.To?
    ensures Walk(root, o, segments).Nil? <==> segments != [] && Misses(root, o, segments, |segments| - 1)
    decreases |segments|
  {
    if segments != [] {
      var next, rest := Step(root, o, segments[0]), segments[1..];
      NilStep(root, o, segments);
      if next.To? {
        NilExactly(root, next, rest);
        if rest != [] { MissesLater(root, o, segments, |rest| - 1); }
      } else if rest != [] {
        NilWalk(root, rest);
        NotLiveNotMissed(root, o, segments, |segments| - 1);
      }
    }
  }

  /** From a live place, the first segment gives the null pointer exactly if it misses. */
  lemma NilStep(root: Value, o: Pointer, segments: seq<Segment>)
    requires Live(root, o) && o.To? && segments != []
    ensures Step(root, o, segments[0]).Nil? <==> Misses(root, o, segments, 0)
  {
    assert segments[..0] == [];
  }

  /** From the null pointer, any following segment crashes; anything else ends in an exception or a condition. */
  lemma NilWalk(root: Value, segments: seq<Segment>)
    requires segments != []
    ensures var r := Walk(root, Nil, segments); !r.To? && !r.Nil? && (r.Crash? <==> Follows(segments[0]))
  {
  }

  /** Behind a segment that does not lead to a place nothing is missed any more. */
  lemma NotLiveNotMissed(root: Value, o: Pointer, segments: seq<Segment>, k: nat)
    requires Live(root, o) && o.To? && segments != [] && !Step(root, o, segments[0]).To? && k > 0
    ensures !Misses(root, o, segments, k)
  {
    if k < |segments| {
      assert segments[..k][0] == segments[0];
      NilLeadsNowhere(root, segments[..k][1..]);
    }
  }

  /** Following a path uses a null pointer exactly if it names a missing member without check and does not end there. */
  lemma {:induction false} CrashExactly(root: Value, o: Pointer, segments: seq<Segment>)
    requires Live(root, o) && o.To?
    ensures Walk(root, o, segments).Crash? <==>
            exists k: nat :: k + 1 < |segments| && Misses(root, o, segments, k) && Follows(segments[k + 1])
    decreases |segments|
  {
    if segments != [] {
      var next, rest := Step(root, o, segments[0]), segments[1..];
      NilStep(root, o, segments);
      if next.To? {
        CrashExactly(root, next, rest);
        forall k: nat | k + 1 < |rest|
          ensures Misses(root, next, rest, k) <==> Misses(root, o, segments, k + 1)
        {
          MissesLater(root, o, segments, k);
        }
        if Walk(root, next, rest).Crash? {
          var k: nat :| k + 1 < |rest| && Misses(root, next, rest, k) && Follows(rest[k + 1]);
          assert Misses(root, o, segments, k + 1) && Follows(segments[k + 1 + 1]);
        }
        if k: nat :| k + 1 < |segments| && Misses(root, o, segments, k) && Follows(segments[k + 1]) {
          MissesLater(root, o, segments, k - 1);
          assert Misses(root, next, rest, k - 1) && Follows(rest[k - 1 + 1]);
        }
      } else {
        forall k: nat | k > 0 ensures !Misses(root, o, segments, k) {
          NotLiveNotMissed(root, o, segments, k);
        }
        if rest != [] { NilWalk(root, rest); }
        if next.Nil? && rest != [] && Follows(rest[0]) {
          assert Misses(root, o, segments, 0) && Follows(segments[0 + 1]);
        }
      }
    }
  }

  // ----- setting a member

  /** The members with every one of the name set to the integer. */
  function SetMembers(members: seq<Pair>, name: string, n: int): (r: seq<Pair>)
    ensures |r| == |members|
    ensures forall i :: 0 <= i < |r| ==>
      r[i] == if members[i].name == name then Pair(name, Int(n)) else members[i]
  {
    seq(|members|, i requires 0 <= i < |members| =>
      if members[i].name == name then Pair(name, Int(n)) else members[i])
  }

  class JsonObject {
    var value: Value

    /** Sets the members and says where they were found; on any failure nothing changes. */
    method SetPathInt(path: string, name: string, n: int) returns (o: Pointer)
      modifies this
      ensures o == Target(old(value), path)
      ensures o.To? ==> value == Changed(old(value), o.place, name, n)
      ensures !o.To? ==> value == old(value)
    {
      o := GetPath(value, path);
      if o.Nil? { return Crash; }
      if !o.To? { return; }
      if !At(value, o.place).Object? { return Throws; }
      var p, members := o.place, At(value, o.place).members;
      ghost var root, all := value, SetMembers(members, name, n);
      PutSame(value, p);
      assert Merged(all, members, 0) == members;
      for i := 0 to |members|
        invariant value == Put(root, p, Object(Merged(all, members, i)))
      {
        ghost var now := Object(Merged(all, members, i));
        MergedStep(all, members, i);
        AtPut(root, p, now);
        if name == members[i].name {
          PutTwice(root, p, now, Object(now.members[i := all[i]]));
          value := Put(value, p, Object(At(value, p).members[i := Pair(members[i].name, Int(n))]));
        }
      }
      assert Merged(all, members, |members|) == all;
    }
  }

  ghost function Merged(all: seq<Pair>, members: seq<Pair>, i: nat): (r: seq<Pair>)
    requires i <= |all| == |members|
    ensures |r| == |members|
  {
    all[..i] + members[i..]
  }

  lemma MergedStep(all: seq<Pair>, members: seq<Pair>, i: nat)
    requires i < |all| == |members|
    ensures Merged(all, members, i)[i] == members[i]
    ensures Merged(all, members, i + 1) == Merged(all, members, i)[i := all[i]]
    ensures all[i] == members[i] ==> Merged(all, members, i + 1) == Merged(all, members, i)
  {
  }

  /** The object a path leads to for setting; not finding one is an exception or a null pointer used. */
  function Target(root: Value, path: string): (r: Pointer)
    ensures r.To? ==> Resolves(root, r.place) && At(root, r.place).Object?
  {
    match Walk(root, To([]), Tokenise(path))
    case Nil => Crash
    case To(p) => if At(root, p).Object? then To(p) else Throws
    case o => o
  }

  /**
    The object that is set is the one that the segments mean; an exception comes where following the path throws, or
    where they mean something else than an object.
    */
  lemma TargetExactly(root: Value, path: string)
    ensures forall p :: Target(root, path) == To(p) <==> Leads(root, Tokenise(path), p) && At(root, p).Object?
    ensures Target(root, path).Throws? <==>
            Walk(root, To([]), Tokenise(path)).Throws? ||
            exists p :: Leads(root, Tokenise(path), p) && !At(root, p).Object?
  {
    var r := Walk(root, To([]), Tokenise(path));
    forall p ensures r == To(p) <==> Leads(root, Tokenise(path), p) {
      LeadsExactly(root, Tokenise(path), p);
    }
    if r.To? {
      assert Leads(root, Tokenise(path), r.place);
    }
  }

  /** Segment `k` misses, and is the last or followed by one that uses the null pointer. */
  predicate Dangles(root: Value, o: Pointer, segments: seq<Segment>, k: nat)
    requires Live(root, o)
  {
    Misses(root, o, segments, k) && (k + 1 == |segments| || Follows(segments[k + 1]))
  }

  ghost predicate SomeDangles(root: Value, segments: seq<Segment>) {
    exists k: nat :: Dangles(root, To([]), segments, k)
  }

  lemma CrashOrNilExactly(root: Value, segments: seq<Segment>)
    ensures var r := Walk(root, To([]), segments); r.Crash? || r.Nil? <==> SomeDangles(root, segments)
  {
    var r := Walk(root, To([]), segments);
    CrashExactly(root, To([]), segments);
    NilExactly(root, To([]), segments);
    if r.Crash? {
      var k: nat :| k + 1 < |segments| && Misses(root, To([]), segments, k) && Follows(segments[k + 1]);
      assert Dangles(root, To([]), segments, k);
    } else if r.Nil? {
      assert Dangles(root, To([]), segments, |segments| - 1);
    }
    if k: nat :| Dangles(root, To([]), segments, k) {
      if k + 1 < |segments| {
        assert Misses(root, To([]), segments, k) && Follows(segments[k + 1]);
      }
    }
  }

  /**
    Setting uses a null pointer exactly if the path names a missing member without check, at its end or before a name
    or index.
    */
  lemma SetCrashesExactly(root: Value, path: string)
    ensures Target(root, path).Crash? <==> SomeDangles(root, Tokenise(path))
  {
    var segments := Tokenise(path);
    var r := Walk(root, To([]), segments);
    assert Target(root, path).Crash? <==> r.Crash? || r.Nil?;
    CrashOrNilExactly(root, segments);
  }

  lemma MissingNameCrashes()
    ensures Target(Object([]), "a") == Crash && Target(Object([]), "a.b") == Crash
  {
    var root := Object([]);
    TokeniseBare("a", "");
    assert "a" + "" == "a" && Tokenise("a") == [Bare("a")];
    TokeniseBare("a", ".b");
    TokeniseDot("b", "");
    assert "a" + ".b" == "a.b" && "." + "b" + "" == ".b" && Tokenise("a.b") == [Bare("a"), Dot("b")];
    FirstMissed(root, Tokenise("a"));
    FirstMissed(root, Tokenise("a.b"));
    assert Dangles(root, To([]), Tokenise("a"), 0) && Dangles(root, To([]), Tokenise("a.b"), 0);
    SetCrashesExactly(root, "a");
    SetCrashesExactly(root, "a.b");
  }

  lemma FirstMissed(root: Value, segments: seq<Segment>)
    requires root == Object([]) && segments != [] && segments[0].Bare?
    ensures Misses(root, To([]), segments, 0)
  {
    assert segments[..0] == [];
  }

  function Changed(root: Value, p: Place, name: string, n: int): Value
    requires Resolves(root, p) && At(root, p).Object?
  {
    Put(root, p, Object(SetMembers(At(root, p).members, name, n)))
  }

  // ----- the laws

  /** Alike as far as one step of a path can see. */
  predicate SameShape(a: Value, b: Value) {
    && (a.Array? <==> b.Array?) && (a.Object? <==> b.Object?)
    && Size(a) == Size(b)
    && (a.Object? ==> forall i :: 0 <= i < |a.members| ==> a.members[i].name == b.members[i].name)
  }

  /** Replacing a value by one of the same shape keeps every shape, and everything that is not around or inside it. */
  lemma {:induction false} ShapeAt(v: Value, p: Place, c: Value, o: Place)
    requires Resolves(v, p) && Resolves(v, o) && SameShape(At(v, p), c)
    requires p < o ==> o[|p|] < Size(At(v, p)) && Child(c, o[|p|]) == Child(At(v, p), o[|p|])
    ensures Resolves(Put(v, p, c), o)
    ensures SameShape(At(v, o), At(Put(v, p, c), o))
    ensures !(o <= p) ==> At(Put(v, p, c), o) == At(v, o)
    decreases |p|
  {
    if p != [] && o != [] {
      if o[0] == p[0] {
        assert p[1..] < o[1..] ==> p < o;
        assert o[1..] <= p[1..] ==> o <= p;
        ShapeAt(Child(v, p[0]), p[1..], c, o[1..]);
      }
    }
  }

  /** Not inside a member that is set. */
  predicate Untouched(root: Value, p: Place, name: string, q: Place)
    requires Resolves(root, p) && At(root, p).Object?
  {
    p < q ==> q[|p|] < Size(At(root, p)) && At(root, p).members[q[|p|]].name != name
  }

  lemma UntouchedShape(root: Value, p: Place, name: string, n: int, q: Place)
    requires Resolves(root, p) && At(root, p).Object? && Resolves(root, q) && Untouched(root, p, name, q)
    ensures Resolves(Changed(root, p, name, n), q)
    ensures SameShape(At(root, q), At(Changed(root, p, name, n), q))
    ensures !(q <= p) ==> At(Changed(root, p, name, n), q) == At(root, q)
  {
    ShapeAt(root, p, Object(SetMembers(At(root, p).members, name, n)), q);
  }

  lemma SameGet(a: seq<Pair>, b: seq<Pair>, name: string)
    requires |a| == |b| && forall i :: 0 <= i < |a| ==> a[i].name == b[i].name
    ensures Get(a, name) == Get(b, name)
  {
  }

  lemma SameStep(a: Value, b: Value, o: Place, x: Segment)
    requires Resolves(a, o) && Resolves(b, o) && SameShape(At(a, o), At(b, o))
    requires Step(a, To(o), x).To?
    requires var q := Step(a, To(o), x).place; Resolves(b, q) && SameShape(At(a, q), At(b, q))
    ensures Step(b, To(o), x) == Step(a, To(o), x)
  {
    var v, w := At(a, o), At(b, o);
    if v.Object? {
      SameGet(v.members, w.members, x.name);
      var i := Get(v.members, x.name).value;
      assert Below(a, o, i) == Below(b, o, i);
    } else {
      var i := ReadIndex(x.condition).value;
      assert Below(a, o, i) == Below(b, o, i);
    }
  }

  lemma NilLeadsNowhere(root: Value, segments: seq<Segment>)
    ensures !Walk(root, Nil, segments).To?
  {
  }

  lemma {:induction false} WalkGrows(root: Value, o: Place, segments: seq<Segment>)
    requires Resolves(root, o) && Walk(root, To(o), segments).To?
    ensures o <= Walk(root, To(o), segments).place
    decreases |segments|
  {
    if segments != [] {
      NilLeadsNowhere(root, segments[1..]);
      var next := Step(root, To(o), segments[0]);
      if next.To? {
        WalkGrows(root, next.place, segments[1..]);
      }
    }
  }

  /** Every path that does not lead into a member being set leads to the same place afterwards. */
  lemma {:induction false} WalkKept(root: Value, p: Place, name: string, n: int, o: Place, segments: seq<Segment>)
    requires Resolves(root, p) && At(root, p).Object? && Resolves(root, o)
    requires Walk(root, To(o), segments).To? && Untouched(root, p, name, Walk(root, To(o), segments).place)
    ensures Resolves(Changed(root, p, name, n), o)
    ensures Walk(Changed(root, p, name, n), To(o), segments) == Walk(root, To(o), segments)
    decreases |segments|
  {
    var q := Walk(root, To(o), segments).place;
    WalkGrows(root, o, segments);
    UntouchedPrefix(root, p, name, o, q);
    UntouchedShape(root, p, name, n, o);
    if segments != [] {
      NilLeadsNowhere(root, segments[1..]);
      var next := Step(root, To(o), segments[0]);
      if next.To? {
        WalkGrows(root, next.place, segments[1..]);
        UntouchedPrefix(root, p, name, next.place, q);
        UntouchedShape(root, p, name, n, next.place);
        SameStep(root, Changed(root, p, name, n), o, segments[0]);
        WalkKept(root, p, name, n, next.place, segments[1..]);
      }
    }
  }

  lemma UntouchedPrefix(root: Value, p: Place, name: string, o: Place, q: Place)
    requires Resolves(root, p) && At(root, p).Object? && Untouched(root, p, name, q) && o <= q
    ensures Untouched(root, p, name, o)
  {
    if p < o { assert p < q; }
  }

  /**
   * After setting, the same path still leads to the object; there exactly the members of the name hold the integer, the
   * others and the order are as before; and every place outside that object holds what it held.
   */
  lemma SetThenGet(root: Value, path: string, p: Place, name: string, n: int)
    requires Target(root, path) == To(p)
    ensures var after := Changed(root, p, name, n);
            && Target(after, path) == To(p)
            && At(after, p) == Object(SetMembers(At(root, p).members, name, n))
            && forall q: Place :: Resolves(root, q) && !(p <= q) && !(q <= p) ==>
                 Resolves(after, q) && At(after, q) == At(root, q)
  {
    var after := Changed(root, p, name, n);
    AtPut(root, p, Object(SetMembers(At(root, p).members, name, n)));
    WalkKept(root, p, name, n, [], Tokenise(path));
    forall q: Place | Resolves(root, q) && !(p <= q) && !(q <= p)
      ensures Resolves(after, q) && At(after, q) == At(root, q)
    {
      UntouchedShape(root, p, name, n, q);
    }
  }

  /**
    Any other path that leads to something not being set still leads there, and outside the object finds the same
    value.
    */
  lemma OtherPathsKept(root: Value, p: Place, name: string, n: int, other: string, q: Place)
    requires Resolves(root, p) && At(root, p).Object?
    requires Walk(root, To([]), Tokenise(other)) == To(q) && Untouched(root, p, name, q)
    ensures var after := Changed(root, p, name, n);
            && Walk(after, To([]), Tokenise(other)) == To(q)
            && Resolves(after, q)
            && (!(q <= p) ==> At(after, q) == At(root, q))
  {
    WalkKept(root, p, name, n, [], Tokenise(other));
    UntouchedShape(root, p, name, n, q);
  }
}
