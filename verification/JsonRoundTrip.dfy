/** Reading back what the generator wrote. */
module JsonRoundTrip {
  import opened Decimal
  import opened JsonEscape
  import opened Json
  import opened JsonWriter
  import opened JsonReader
  import opened JsonBuilder
  import opened JsonTrees
  import opened Wrappers

  // ----- what comes back

  /** An unsigned integer that also fits the signed type comes back signed; everything else comes back as it was. */
  function Norm(v: Value): Value
    decreases v, 1
  {
    match v
    case UInt(u) => if u <= INT64_MAX then Int(u) else v
    case Array(items) => Array(NormItems(items))
    case Object(members) => Object(NormMembers(members))
    case _ => v
  }

  function NormItems(items: seq<Value>): (r: seq<Value>)
    ensures |r| == |items|
    decreases items, 0
  {
    if items == [] then [] else [Norm(items[0])] + NormItems(items[1..])
  }

  function NormMembers(members: seq<Pair>): (r: seq<Pair>)
    ensures |r| == |members|
    decreases members, 0
  {
    if members == [] then [] else [Pair(members[0].name, Norm(members[0].value))] + NormMembers(members[1..])
  }

  /** The tree of tokens the reader finds in the text of `v`. */
  function Tokens(v: Value, f: Format): (w: Value)
    ensures IsTokenTree(w)
    decreases v, 1
  {
    match v
    case UInt(u) => if u <= INT64_MAX then Int(u) else v
    case Str(s) => Str(Quoted(s, f))
    case Array(items) => Array(ItemTokens(items, f))
    case Object(members) => Object(MemberTokens(members, f))
    case _ => v
  }

  function ItemTokens(items: seq<Value>, f: Format): (r: seq<Value>)
    ensures |r| == |items| && forall i :: 0 <= i < |r| ==> IsTokenTree(r[i])
    decreases items, 0
  {
    if items == [] then [] else [Tokens(items[0], f)] + ItemTokens(items[1..], f)
  }

  function MemberTokens(members: seq<Pair>, f: Format): (r: seq<Pair>)
    ensures |r| == |members| && forall i :: 0 <= i < |r| ==> |r[i].name| >= 2 && IsTokenTree(r[i].value)
    decreases members, 0
  {
    if members == [] then []
    else [Pair(Quoted(members[0].name, f), Tokens(members[0].value, f))] + MemberTokens(members[1..], f)
  }

  lemma GetQuoted(s: string, f: Format)
    requires IsBytes(s)
    ensures GetStr(Quoted(s, f)) == s
  {
    assert Quoted(s, f)[1..|Quoted(s, f)| - 1] == Escape(s, f.escapes);
    EscapeRoundTrip(s, f.escapes);
  }

  lemma {:induction false} DecodeTokens(v: Value, f: Format)
    requires WellFormed(v)
    ensures Decode(Tokens(v, f)) == Norm(v)
    decreases v, 1
  {
    match v
    case Str(s) => GetQuoted(s, f);
    case Array(items) => DecodeItemTokens(items, f);
    case Object(members) => DecodeMemberTokens(members, f);
    case _ =>
  }

  lemma {:induction false} DecodeItemTokens(items: seq<Value>, f: Format)
    requires forall i :: 0 <= i < |items| ==> WellFormed(items[i])
    ensures DecodeItems(ItemTokens(items, f)) == NormItems(items)
    decreases items, 0
  {
    if items != [] {
      DecodeTokens(items[0], f);
      DecodeItemTokens(items[1..], f);
      assert ItemTokens(items, f)[1..] == ItemTokens(items[1..], f);
    }
  }

  lemma {:induction false} DecodeMemberTokens(members: seq<Pair>, f: Format)
    requires forall i :: 0 <= i < |members| ==> IsBytes(members[i].name) && WellFormed(members[i].value)
    ensures DecodeMembers(MemberTokens(members, f)) == NormMembers(members)
    decreases members, 0
  {
    if members != [] {
      GetQuoted(members[0].name, f);
      DecodeTokens(members[0].value, f);
      DecodeMemberTokens(members[1..], f);
      assert MemberTokens(members, f)[1..] == MemberTokens(members[1..], f);
    }
  }

  // ----- white space

  predicate IsWhite(s: string) {
    forall i :: 0 <= i < |s| ==> IsSpace(s[i])
  }

  lemma {:induction false} SkipWhite(w: string, s: string)
    requires IsWhite(w)
    ensures Skip(w + s) == Skip(s)
    decreases |w|
  {
    if w == "" {
      assert w + s == s;
    } else {
      assert (w + s)[1..] == w[1..] + s;
      SkipWhite(w[1..], s);
    }
  }

  predicate IsMark(c: char) {
    !IsSpace(c) && c != '/'
  }

  lemma SkipTo(w: string, s: string)
    requires IsWhite(w) && s != "" && IsMark(s[0])
    ensures Skip(w + s) == s
  {
    SkipWhite(w, s);
  }

  lemma {:induction false} StepsWhite(level: nat)
    ensures IsWhite(Steps(level))
    decreases level
  {
    if level > 0 { StepsWhite(level - 1); }
  }

  predicate WhiteLayout(y: Layout) {
    IsWhite(y.first) && IsWhite(y.before) && IsWhite(y.after) && IsWhite(y.last)
  }

  lemma LayoutsWhite(f: Format, level: nat)
    ensures WhiteLayout(Rows(f, level)) && WhiteLayout(Line(f, level))
  {
    StepsWhite(level);
    StepsWhite(level + 1);
  }

  // ----- scalars

  /** What may follow a number without being taken for a part of it. */
  predicate EndsNumber(rest: string) {
    rest == "" || (!IsDigit(rest[0]) && rest[0] != '.' && rest[0] != 'e' && rest[0] != 'E')
  }

  lemma {:induction false} LeadingDigitsOf(d: string, rest: string)
    requires AllDigits(d) && (rest == "" || !IsDigit(rest[0]))
    ensures LeadingDigits(d + rest) == |d|
    decreases |d|
  {
    if d == "" {
      assert d + rest == rest;
    } else {
      assert (d + rest)[1..] == d[1..] + rest;
      LeadingDigitsOf(d[1..], rest);
    }
  }

  lemma DigitsRead(signed: bool, negative: bool, d: string, rest: string)
    requires d != "" && AllDigits(d) && EndsNumber(rest)
    ensures NumberBehind(signed, negative, d + rest) == NumberAction(signed, negative, Read(d), rest)
  {
    var s := d + rest;
    LeadingDigitsOf(d, rest);
    assert s[..|d|] == d && s[|d|..] == rest;
  }

  /** Any digits, with leading zeros and with either sign or none, are read as the number they stand for. */
  lemma SignedDigitsRead(sign: char, d: string, rest: string)
    requires IsSign(sign) && d != "" && AllDigits(d) && EndsNumber(rest)
    ensures Number([sign] + (d + rest)) == NumberAction(true, sign == '-', Read(d), rest)
  {
    DigitsRead(true, sign == '-', d, rest);
    assert ([sign] + (d + rest))[1..] == d + rest;
  }

  lemma UnsignedDigitsRead(d: string, rest: string)
    requires d != "" && AllDigits(d) && EndsNumber(rest)
    ensures Number(d + rest) == NumberAction(false, false, Read(d), rest)
  {
    DigitsRead(false, false, d, rest);
    assert (d + rest)[0] == d[0] && IsDigit(d[0]);
  }

  lemma NegativeRead(n: int, rest: string)
    requires INT64_MIN <= n < 0 && EndsNumber(rest)
    ensures Number((['-'] + Print(-n)) + rest) == Match([NewInt(n)], rest)
  {
    var d := Print(-n);
    assert (['-'] + d) + rest == ['-'] + (d + rest);
    SignedDigitsRead('-', d, rest);
    ReadPrint(-n);
  }

  lemma IntRead(n: int, rest: string)
    requires INT64_MIN <= n <= INT64_MAX && EndsNumber(rest)
    ensures Number(IntText(n) + rest) == Match([NewInt(n)], rest)
  {
    if n < 0 {
      NegativeRead(n, rest);
    } else {
      ReadPrint(n);
      UnsignedDigitsRead(Print(n), rest);
    }
  }

  lemma UIntRead(u: nat, rest: string)
    requires u <= UINT64_MAX && EndsNumber(rest)
    ensures Number(Print(u) + rest) == Match([if u <= INT64_MAX then NewInt(u) else NewUInt(u)], rest)
  {
    ReadPrint(u);
    UnsignedDigitsRead(Print(u), rest);
  }

  lemma NumberValue(v: Value, f: Format, level: nat, rest: string)
    requires WellFormed(v) && (v.Int? || v.UInt?) && EndsNumber(rest)
    ensures Number(Text(v, f, level) + rest) == Match(Events(Tokens(v, f)), rest)
  {
    match v
    case Int(n) => IntRead(n, rest);
    case UInt(u) => UIntRead(u, rest);
  }

  lemma StringRead(s: string, f: Format, rest: string)
    ensures var t := Quoted(s, f) + rest;
            var n := |Quoted(s, f)|;
            StringToken(t) == Some(n) && t[..n] == Quoted(s, f) && t[n..] == rest
  {
    var e, t := Escape(s, f.escapes), Quoted(s, f) + rest;
    assert t[1..] == e + ("\"" + rest);
    EscapedTokenEndsAtQuote(s, f.escapes, rest);
    assert t[1 + |e|] == '"';
  }

  lemma LiteralRead(word: string, rest: string)
    requires word == "true" || word == "false" || word == "null"
    ensures Number(word + rest) == NoMatch && StringToken(word + rest) == None
    ensures StartsWith(word + rest, word) && (word + rest)[|word|..] == rest
  {
  }

  // ----- containers

  lemma TextStart(v: Value, f: Format, level: nat)
    ensures var t := Text(v, f, level); t != "" && IsMark(t[0])
  {
  }

  /** What stands before the closing bracket, and behind it. */
  predicate IsTail(tail: string, close: char, rest: string) {
    Skip(tail) == [close] + rest && tail != "" && (IsSpace(tail[0]) || tail[0] == close)
  }

  /** The text behind the first of `count` items. */
  function Behind(count: nat, y: Layout, more: string, tail: string): string {
    Comma(count) + (y.after + (more + tail))
  }

  lemma BehindLast(y: Layout, tail: string, kind: Kind, rest: string)
    requires WhiteLayout(y) && IsTail(tail, Closing(kind), rest)
    ensures Skip(Behind(1, y, "", tail)) == [Closing(kind)] + rest
    ensures ParseMore(kind, Behind(1, y, "", tail)) == Match([], Behind(1, y, "", tail))
  {
    var b := Behind(1, y, "", tail);
    assert b == y.after + tail;
    SkipWhite(y.after, tail);
  }

  /** The first of several items: white space, its text, and what stands behind it. */
  lemma FirstOfItems(white: string, y: Layout, text: string, count: nat, more: string, tail: string)
    requires IsWhite(white) && WhiteLayout(y) && text != "" && IsMark(text[0])
    ensures Skip(white + ((y.before + (text + (Comma(count) + (y.after + more)))) + tail))
         == text + Behind(count, y, more, tail)
  {
    var x := text + Behind(count, y, more, tail);
    assert (y.before + (text + (Comma(count) + (y.after + more)))) + tail == y.before + x;
    assert white + (y.before + x) == (white + y.before) + x;
    SkipTo(white + y.before, x);
  }

  lemma BehindComma(count: nat, y: Layout, more: string, tail: string)
    requires count > 1
    ensures var b := Behind(count, y, more, tail);
            Skip(b) == b == [','] + (y.after + (more + tail))
  {
  }

  /** An item behind a comma, and the items behind it. */
  lemma MoreOf(kind: Kind, s: string, item: string, events: seq<Action>, more: string)
    requires Skip(s) == [','] + item && ParseItem(kind, item) == Match(events, more)
    ensures ParseMore(kind, s) == Prepend(events, ParseMore(kind, more))
  {
    assert ([','] + item)[1..] == item;
  }

  lemma NoItem(kind: Kind, s: string, rest: string)
    requires Skip(s) == [Closing(kind)] + rest
    ensures ParseItem(kind, s) == NoMatch
  {
  }

  lemma CompoundRead(kind: Kind, s: string, rest: string)
    requires Skip(s) != "" && Skip(s)[0] == Opening(kind)
    requires var items := ParseItems(kind, Skip(s)[1..]); items.Match? && Skip(items.rest) == [Closing(kind)] + rest
    ensures ParseValue(s) == Match(Bracketed(kind, ParseItems(kind, Skip(s)[1..]).actions), rest)
  {
  }

  /** The reader takes the text of a value for exactly that value, and stops right behind it. */
  lemma {:induction false} ReadText(v: Value, f: Format, level: nat, s: string, rest: string)
    requires WellFormed(v) && Skip(s) == Text(v, f, level) + rest
    requires v.Int? || v.UInt? ==> EndsNumber(rest)
    ensures ParseValue(s) == Match(Events(Tokens(v, f)), rest)
    decreases v, 1
  {
    var t := Skip(s);
    TextStart(v, f, level);
    assert t[0] == Text(v, f, level)[0];
    match v
    case Null => LiteralRead("null", rest);
    case Bool(b) => LiteralRead(if b then "true" else "false", rest);
    case Int(n) => NumberValue(v, f, level, rest);
    case UInt(u) => NumberValue(v, f, level, rest);
    case Str(x) => StringRead(x, f, rest);
    case Array(items) =>
      var y := ArrayLayout(items, f, level);
      LayoutsWhite(f, level);
      ClosingTail(y, Arr, rest);
      EnclosedRest('[', ItemsText(items, f, y), ']', y, rest);
      ReadItems(items, f, y, y.first, y.last + ([']'] + rest), rest);
      CompoundRead(Arr, s, rest);
    case Object(members) =>
      var y := Rows(f, level);
      LayoutsWhite(f, level);
      ClosingTail(y, Obj, rest);
      EnclosedRest('{', MembersText(members, f, y), '}', y, rest);
      ReadMembers(members, f, y, y.first, y.last + (['}'] + rest), rest);
      CompoundRead(Obj, s, rest);
  }

  lemma ClosingTail(y: Layout, kind: Kind, rest: string)
    requires WhiteLayout(y)
    ensures IsTail(y.last + ([Closing(kind)] + rest), Closing(kind), rest)
  {
    SkipTo(y.last, [Closing(kind)] + rest);
  }

  lemma EnclosedRest(open: char, body: string, close: char, y: Layout, rest: string)
    ensures (Enclosed(open, body, close, y) + rest)[1..] == y.first + (body + (y.last + ([close] + rest)))
  {
  }

  lemma {:induction false} ReadItems(items: seq<Value>, f: Format, y: Layout, white: string, tail: string, rest: string)
    requires forall i :: 0 <= i < |items| ==> WellFormed(items[i])
    requires IsWhite(white) && WhiteLayout(y) && IsTail(tail, ']', rest)
    ensures var r := ParseItems(Arr, white + (ItemsText(items, f, y) + tail));
            r.Match? && r.actions == ItemEvents(ItemTokens(items, f)) && Skip(r.rest) == [']'] + rest
    decreases items, 0
  {
    var s := white + (ItemsText(items, f, y) + tail);
    if items == [] {
      assert ItemsText(items, f, y) + tail == tail;
      SkipWhite(white, tail);
      NoItem(Arr, s, rest);
    } else {
      ReadItem(items, f, y, white, tail, rest);
      ReadMoreItems(items, f, y, tail, rest);
    }
  }

  lemma {:induction false} ReadItem(items: seq<Value>, f: Format, y: Layout, white: string, tail: string, rest: string)
    requires items != [] && WellFormed(items[0])
    requires IsWhite(white) && WhiteLayout(y) && IsTail(tail, ']', rest)
    ensures ParseItem(Arr, white + (ItemsText(items, f, y) + tail))
         == Match(Events(Tokens(items[0], f)), Behind(|items|, y, ItemsText(items[1..], f, y), tail))
    decreases items, 0, 0
  {
    var s, more := white + (ItemsText(items, f, y) + tail), ItemsText(items[1..], f, y);
    TextStart(items[0], f, y.level);
    FirstOfItems(white, y, Text(items[0], f, y.level), |items|, more, tail);
    ReadText(items[0], f, y.level, s, Behind(|items|, y, more, tail));
  }

  lemma {:induction false} ReadMoreItems(items: seq<Value>, f: Format, y: Layout, tail: string, rest: string)
    requires items != [] && forall i :: 0 <= i < |items| ==> WellFormed(items[i])
    requires WhiteLayout(y) && IsTail(tail, ']', rest)
    ensures var r := ParseMore(Arr, Behind(|items|, y, ItemsText(items[1..], f, y), tail));
            r.Match? && r.actions == ItemEvents(ItemTokens(items[1..], f)) && Skip(r.rest) == [']'] + rest
    decreases items, 0, 1
  {
    var others := items[1..];
    if others == [] {
      BehindLast(y, tail, Arr, rest);
    } else {
      var more := ItemsText(others, f, y);
      var b, behind := Behind(|items|, y, more, tail), Behind(|others|, y, ItemsText(others[1..], f, y), tail);
      BehindComma(|items|, y, more, tail);
      ReadItem(others, f, y, y.after, tail, rest);
      MoreOf(Arr, b, y.after + (more + tail), Events(Tokens(others[0], f)), behind);
      ReadMoreItems(others, f, y, tail, rest);
      assert ItemTokens(others, f)[1..] == ItemTokens(others[1..], f);
    }
  }

  lemma {:induction false} ReadMembers(
    members: seq<Pair>, f: Format, y: Layout, white: string, tail: string, rest: string)
    requires forall i :: 0 <= i < |members| ==> IsBytes(members[i].name) && WellFormed(members[i].value)
    requires IsWhite(white) && WhiteLayout(y) && IsTail(tail, '}', rest)
    ensures var r := ParseItems(Obj, white + (MembersText(members, f, y) + tail));
            r.Match? && r.actions == MemberEvents(MemberTokens(members, f)) && Skip(r.rest) == ['}'] + rest
    decreases members, 0
  {
    var s := white + (MembersText(members, f, y) + tail);
    if members == [] {
      assert MembersText(members, f, y) + tail == tail;
      SkipWhite(white, tail);
      NoItem(Obj, s, rest);
    } else {
      ReadMember(members, f, y, white, tail, rest);
      ReadMoreMembers(members, f, y, tail, rest);
    }
  }

  lemma {:induction false} ReadMember(
    members: seq<Pair>, f: Format, y: Layout, white: string, tail: string, rest: string)
    requires members != [] && WellFormed(members[0].value)
    requires IsWhite(white) && WhiteLayout(y) && IsTail(tail, '}', rest)
    ensures ParseItem(Obj, white + (MembersText(members, f, y) + tail))
         == Match([NewName(Quoted(members[0].name, f))] + Events(Tokens(members[0].value, f)),
                  Behind(|members|, y, MembersText(members[1..], f, y), tail))
    decreases members, 0, 0
  {
    var s, more := white + (MembersText(members, f, y) + tail), MembersText(members[1..], f, y);
    FirstOfItems(white, y, MemberText(members[0], f, y.level), |members|, more, tail);
    ReadPair(members[0], f, y.level, s, Behind(|members|, y, more, tail));
  }

  lemma PairRead(name: string, f: Format, s: string, space: string, after: string)
    requires Skip(s) == Quoted(name, f) + (space + ([':'] + after)) && IsWhite(space)
    requires ParseValue(after).Match?
    ensures ParsePair(s) == Prepend([NewName(Quoted(name, f))], ParseValue(after))
  {
    var x := [':'] + after;
    StringRead(name, f, space + x);
    SkipTo(space, x);
    assert x[1..] == after;
  }

  lemma {:induction false} ReadPair(m: Pair, f: Format, level: nat, s: string, rest: string)
    requires WellFormed(m.value) && Skip(s) == MemberText(m, f, level) + rest && EndsNumber(rest)
    ensures ParsePair(s) == Match([NewName(Quoted(m.name, f))] + Events(Tokens(m.value, f)), rest)
    decreases m, 2
  {
    var name, space, after := Quoted(m.name, f), f.Space(), Text(m.value, f, level) + rest;
    assert MemberText(m, f, level) + rest == name + (space + ([':'] + (space + after)));
    TextStart(m.value, f, level);
    SkipTo(space, after);
    ReadText(m.value, f, level, space + after, rest);
    PairRead(m.name, f, s, space, space + after);
  }

  lemma {:induction false} ReadMoreMembers(members: seq<Pair>, f: Format, y: Layout, tail: string, rest: string)
    requires members != []
    requires forall i :: 0 <= i < |members| ==> IsBytes(members[i].name) && WellFormed(members[i].value)
    requires WhiteLayout(y) && IsTail(tail, '}', rest)
    ensures var r := ParseMore(Obj, Behind(|members|, y, MembersText(members[1..], f, y), tail));
            r.Match? && r.actions == MemberEvents(MemberTokens(members[1..], f)) && Skip(r.rest) == ['}'] + rest
    decreases members, 0, 1
  {
    var others := members[1..];
    if others == [] {
      BehindLast(y, tail, Obj, rest);
    } else {
      var more := MembersText(others, f, y);
      var b, behind := Behind(|members|, y, more, tail), Behind(|others|, y, MembersText(others[1..], f, y), tail);
      BehindComma(|members|, y, more, tail);
      ReadMember(others, f, y, y.after, tail, rest);
      var events := [NewName(Quoted(others[0].name, f))] + Events(Tokens(others[0].value, f));
      MoreOf(Obj, b, y.after + (more + tail), events, behind);
      ReadMoreMembers(others, f, y, tail, rest);
      assert MemberTokens(others, f)[1..] == MemberTokens(others[1..], f);
    }
  }

  // ----- the theorem

  predicate NoSmallUInt(v: Value) {
    match v
    case UInt(u) => u > INT64_MAX
    case Array(items) => forall i :: 0 <= i < |items| ==> NoSmallUInt(items[i])
    case Object(members) => forall i :: 0 <= i < |members| ==> NoSmallUInt(members[i].value)
    case _ => true
  }

  lemma {:induction false} NormItem(items: seq<Value>, i: nat)
    requires i < |items|
    ensures NormItems(items)[i] == Norm(items[i])
    decreases |items|
  {
    if i > 0 { NormItem(items[1..], i - 1); }
  }

  lemma {:induction false} NormMember(members: seq<Pair>, i: nat)
    requires i < |members|
    ensures NormMembers(members)[i] == Pair(members[i].name, Norm(members[i].value))
    decreases |members|
  {
    if i > 0 { NormMember(members[1..], i - 1); }
  }

  /** Exactly the trees without an unsigned integer in the signed range come back as they were. */
  lemma {:induction false} NormSame(v: Value)
    ensures Norm(v) == v <==> NoSmallUInt(v)
    decreases v
  {
    match v
    case Array(items) =>
      forall i: nat | i < |items|
        ensures NormItems(items)[i] == items[i] <==> NoSmallUInt(items[i])
      {
        NormItem(items, i);
        NormSame(items[i]);
      }
    case Object(members) =>
      forall i: nat | i < |members|
        ensures NormMembers(members)[i] == members[i] <==> NoSmallUInt(members[i].value)
      {
        NormMember(members, i);
        NormSame(members[i].value);
      }
    case _ =>
  }

  /** The value the reader leaves behind when it accepts a text. */
  ghost predicate Reads(s: string, before: Value, v: Value, rest: string) {
    var r, b := ParseJson(s), Builder(before, None, [], "");
    && r.Match? && r.rest == rest && AcceptsAll(b, r.actions)
    && Run(b, r.actions).root == v && Run(b, r.actions).stack == []
  }

  /**
   * Every tree, written in any layout with any escaping, is read back from the whole text, whatever the target held
   * before; it comes back unchanged exactly if no unsigned integer in it fits the signed type.
   */
  lemma RoundTrip(v: Value, f: Format, before: Value)
    requires WellFormed(v)
    ensures Reads(Text(v, f, 0), before, Norm(v), "")
    ensures Reads(Text(v, f, 0), before, v, "") <==> NoSmallUInt(v)
  {
    var s := Text(v, f, 0);
    TextStart(v, f, 0);
    assert s + "" == s;
    ReadText(v, f, 0, s, "");
    BuildTree(Tokens(v, f), before, "");
    DecodeTokens(v, f);
    NormSame(v);
  }
}
