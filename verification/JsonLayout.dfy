/** What the layouts of the JSON generator look like: the tokens alone, or in rows indented by depth. */
module JsonLayout {
  import opened Decimal
  import opened Json
  import opened JsonEscape
  import opened JsonReader
  import opened JsonRoundTrip
  import opened JsonWriter
  import opened Wrappers

  // ----- the tokens alone

  /** The text of a value with nothing between its tokens. */
  function Tight(v: Value, f: Format): string
    decreases v, 1
  {
    match v
    case Null => "null"
    case Bool(b) => if b then "true" else "false"
    case Int(n) => IntText(n)
    case UInt(u) => Print(u)
    case Str(s) => Quoted(s, f)
    case Array(items) => "[" + (TightItems(items, f) + "]")
    case Object(members) => "{" + (TightMembers(members, f) + "}")
  }

  function TightItems(items: seq<Value>, f: Format): string
    decreases items, 0
  {
    if items == [] then "" else Tight(items[0], f) + (Comma(|items|) + TightItems(items[1..], f))
  }

  function TightMember(m: Pair, f: Format): string
    decreases m, 2
  {
    Quoted(m.name, f) + (":" + Tight(m.value, f))
  }

  function TightMembers(members: seq<Pair>, f: Format): string
    decreases members, 0
  {
    if members == [] then "" else TightMember(members[0], f) + (Comma(|members|) + TightMembers(members[1..], f))
  }

  /** A text without the white space outside its string tokens. */
  function Squeeze(s: string): string
    decreases |s|
  {
    if s == "" then ""
    else
      var token := StringToken(s);
      if token.Some? then s[..token.value] + Squeeze(s[token.value..])
      else if IsSpace(s[0]) then Squeeze(s[1..])
      else [s[0]] + Squeeze(s[1..])
  }

  lemma Regroup(a: string, b: string, c: string)
    ensures (a + b) + c == a + (b + c)
  {
  }

  lemma {:induction false} SqueezeWhite(w: string, s: string)
    requires IsWhite(w)
    ensures Squeeze(w + s) == Squeeze(s)
    decreases |w|
  {
    if w == "" {
      assert w + s == s;
    } else {
      assert (w + s)[1..] == w[1..] + s;
      SqueezeWhite(w[1..], s);
    }
  }

  /** Tokens that are not strings. */
  predicate IsSolid(t: string) {
    forall i :: 0 <= i < |t| ==> t[i] != '"' && !IsSpace(t[i])
  }

  lemma {:induction false} SqueezeSolid(t: string, s: string)
    requires IsSolid(t)
    ensures Squeeze(t + s) == t + Squeeze(s)
    decreases |t|
  {
    if t == "" {
      assert t + s == s;
    } else {
      assert (t + s)[1..] == t[1..] + s;
      SqueezeSolid(t[1..], s);
    }
  }

  lemma SqueezeQuoted(x: string, f: Format, s: string)
    ensures Squeeze(Quoted(x, f) + s) == Quoted(x, f) + Squeeze(s)
  {
    StringRead(x, f, s);
  }

  lemma ScalarIsSolid(v: Value, f: Format)
    requires !IsContainer(v) && !v.Str?
    ensures IsSolid(Tight(v, f))
  {
  }

  /** `text` is squeezed to `tight`, whatever stands behind. */
  ghost predicate SqueezesTo(text: string, tight: string, rest: string) {
    Squeeze(text + rest) == tight + Squeeze(rest)
  }

  lemma SqueezeBoth(a: string, a': string, b: string, b': string, rest: string)
    requires SqueezesTo(a, a', b + rest) && SqueezesTo(b, b', rest)
    ensures SqueezesTo(a + b, a' + b', rest)
  {
    Regroup(a, b, rest);
    Regroup(a', b', Squeeze(rest));
  }

  lemma WhiteSqueezes(w: string, rest: string)
    requires IsWhite(w)
    ensures SqueezesTo(w, "", rest)
  {
    SqueezeWhite(w, rest);
  }

  lemma SqueezeBehindWhite(w: string, a: string, a': string, rest: string)
    requires IsWhite(w) && SqueezesTo(a, a', rest)
    ensures SqueezesTo(w + a, a', rest)
  {
    Regroup(w, a, rest);
    SqueezeWhite(w, a + rest);
  }

  lemma SolidSqueezes(t: string, rest: string)
    requires IsSolid(t)
    ensures SqueezesTo(t, t, rest)
  {
    SqueezeSolid(t, rest);
  }

  lemma EnclosedSqueezes(open: char, body: string, tight: string, close: char, y: Layout, rest: string)
    requires WhiteLayout(y) && IsSolid([open]) && IsSolid([close])
    requires SqueezesTo(body, tight, (y.last + [close]) + rest)
    ensures SqueezesTo(Enclosed(open, body, close, y), [open] + (tight + [close]), rest)
  {
    SolidSqueezes([close], rest);
    SqueezeBehindWhite(y.last, [close], [close], rest);
    SqueezeBoth(body, tight, y.last + [close], [close], rest);
    SqueezeBehindWhite(y.first, body + (y.last + [close]), tight + [close], rest);
    SolidSqueezes([open], (y.first + (body + (y.last + [close]))) + rest);
    SqueezeBoth([open], [open], y.first + (body + (y.last + [close])), tight + [close], rest);
  }

  /** One of several: white space, its text, perhaps a comma, white space, and the others. */
  lemma ListSqueezes(
    y: Layout, text: string, tight: string, comma: string, more: string, tightMore: string, rest: string)
    requires WhiteLayout(y) && (comma == "" || comma == ",")
    requires SqueezesTo(text, tight, (comma + (y.after + more)) + rest) && SqueezesTo(more, tightMore, rest)
    ensures SqueezesTo(y.before + (text + (comma + (y.after + more))), tight + (comma + tightMore), rest)
  {
    SqueezeBehindWhite(y.after, more, tightMore, rest);
    SolidSqueezes(comma, (y.after + more) + rest);
    SqueezeBoth(comma, comma, y.after + more, tightMore, rest);
    SqueezeBoth(text, tight, comma + (y.after + more), comma + tightMore, rest);
    SqueezeBehindWhite(y.before, text + (comma + (y.after + more)), tight + (comma + tightMore), rest);
  }

  /** In any layout, and whatever follows: without the white space outside strings only the tokens remain. */
  lemma {:induction false} TextSqueezes(v: Value, f: Format, level: nat, rest: string)
    ensures SqueezesTo(Text(v, f, level), Tight(v, f), rest)
    decreases v, 1
  {
    LayoutsWhite(f, level);
    match v
    case Str(s) => SqueezeQuoted(s, f, rest);
    case Array(items) =>
      var y := ArrayLayout(items, f, level);
      ItemsSqueeze(items, f, y, (y.last + [']']) + rest);
      EnclosedSqueezes('[', ItemsText(items, f, y), TightItems(items, f), ']', y, rest);
    case Object(members) =>
      var y := Rows(f, level);
      MembersSqueeze(members, f, y, (y.last + ['}']) + rest);
      EnclosedSqueezes('{', MembersText(members, f, y), TightMembers(members, f), '}', y, rest);
    case _ =>
      ScalarIsSolid(v, f);
      SolidSqueezes(Tight(v, f), rest);
  }

  lemma {:induction false} ItemsSqueeze(items: seq<Value>, f: Format, y: Layout, rest: string)
    requires WhiteLayout(y)
    ensures SqueezesTo(ItemsText(items, f, y), TightItems(items, f), rest)
    decreases items, 0
  {
    if items == [] {
      WhiteSqueezes("", rest);
    } else {
      var more := ItemsText(items[1..], f, y);
      TextSqueezes(items[0], f, y.level, (Comma(|items|) + (y.after + more)) + rest);
      ItemsSqueeze(items[1..], f, y, rest);
      ListSqueezes(y, Text(items[0], f, y.level), Tight(items[0], f), Comma(|items|), more,
                   TightItems(items[1..], f), rest);
    }
  }

  lemma {:induction false} MemberSqueezes(m: Pair, f: Format, level: nat, rest: string)
    ensures SqueezesTo(MemberText(m, f, level), TightMember(m, f), rest)
    decreases m, 2
  {
    var text, tight := Text(m.value, f, level), Tight(m.value, f);
    TextSqueezes(m.value, f, level, rest);
    SqueezeBehindWhite(f.Space(), text, tight, rest);
    SolidSqueezes([':'], (f.Space() + text) + rest);
    SqueezeBoth([':'], [':'], f.Space() + text, tight, rest);
    SqueezeBehindWhite(f.Space(), [':'] + (f.Space() + text), [':'] + tight, rest);
    SqueezeQuoted(m.name, f, (f.Space() + ([':'] + (f.Space() + text))) + rest);
    SqueezeBoth(Quoted(m.name, f), Quoted(m.name, f), f.Space() + ([':'] + (f.Space() + text)), [':'] + tight, rest);
  }

  lemma {:induction false} MembersSqueeze(members: seq<Pair>, f: Format, y: Layout, rest: string)
    requires WhiteLayout(y)
    ensures SqueezesTo(MembersText(members, f, y), TightMembers(members, f), rest)
    decreases members, 0
  {
    if members == [] {
      WhiteSqueezes("", rest);
    } else {
      var more := MembersText(members[1..], f, y);
      MemberSqueezes(members[0], f, y.level, (Comma(|members|) + (y.after + more)) + rest);
      MembersSqueeze(members[1..], f, y, rest);
      ListSqueezes(y, MemberText(members[0], f, y.level), TightMember(members[0], f), Comma(|members|), more,
                   TightMembers(members[1..], f), rest);
    }
  }

  // ----- without a layout

  /** Neither of the layout options: the tokens are all there is. */
  lemma {:induction false} CompactIsTight(v: Value, f: Format, level: nat)
    requires !f.prettyPrint && !f.singleLineArrays
    ensures Text(v, f, level) == Tight(v, f)
    decreases v, 1
  {
    match v
    case Array(items) => CompactItems(items, f, level);
    case Object(members) => CompactMembers(members, f, level);
    case _ =>
  }

  lemma {:induction false} CompactItems(items: seq<Value>, f: Format, level: nat)
    requires !f.prettyPrint && !f.singleLineArrays
    ensures ItemsText(items, f, Rows(f, level)) == TightItems(items, f)
    decreases items, 0
  {
    if items != [] {
      CompactIsTight(items[0], f, level + 1);
      CompactItems(items[1..], f, level);
    }
  }

  lemma {:induction false} CompactMembers(members: seq<Pair>, f: Format, level: nat)
    requires !f.prettyPrint && !f.singleLineArrays
    ensures MembersText(members, f, Rows(f, level)) == TightMembers(members, f)
    decreases members, 0
  {
    if members != [] {
      CompactIsTight(members[0].value, f, level + 1);
      CompactMembers(members[1..], f, level);
    }
  }

  /** Layouts only add white space outside strings, and without them there is none. */
  lemma LayoutsAddOnlyWhite(v: Value, f: Format)
    ensures Squeeze(Text(v, f, 0)) == Tight(v, f)
    ensures !f.prettyPrint && !f.singleLineArrays ==> Text(v, f, 0) == Squeeze(Text(v, f, 0))
  {
    TextSqueezes(v, f, 0, "");
    assert Text(v, f, 0) + "" == Text(v, f, 0) && Tight(v, f) + "" == Tight(v, f);
    if !f.prettyPrint && !f.singleLineArrays {
      CompactIsTight(v, f, 0);
    }
  }

  // ----- rows

  /** A row of the pretty text: four blanks for each container that is open there, and some tokens. */
  datatype Row = Row(depth: nat, text: string)

  function Blanks(n: nat): string {
    seq(n, _ => ' ')
  }

  function RowText(r: Row): string {
    Blanks(4 * r.depth) + r.text
  }

  /** Rows, each with the end of its line. */
  function Lines(rows: seq<Row>): string {
    if rows == [] then "" else (RowText(rows[0]) + "\n") + Lines(rows[1..])
  }

  function WithComma(rows: seq<Row>, comma: string): (r: seq<Row>)
    requires rows != []
    ensures |r| == |rows|
  {
    var n := |rows| - 1;
    rows[..n] + [Row(rows[n].depth, rows[n].text + comma)]
  }

  function WithName(rows: seq<Row>, name: string): (r: seq<Row>)
    requires rows != []
    ensures |r| == |rows|
  {
    [Row(rows[0].depth, name + rows[0].text)] + rows[1..]
  }

  /** Items without containers among them, all in one row. */
  function InRow(items: seq<Value>, f: Format): string {
    if items == [] then "" else Tight(items[0], f) + (Comma(|items|) + (" " + InRow(items[1..], f)))
  }

  /** The rows of a value: each item and each bracket of a container in a row of its own, but for the one-row arrays. */
  function RowsOf(v: Value, f: Format, depth: nat): (r: seq<Row>)
    ensures r != [] && r[0].depth == depth
    decreases v, 1
  {
    match v
    case Array(items) =>
      if f.singleLineArrays && !ContainsComposite(items) then [Row(depth, "[ " + (InRow(items, f) + "]"))]
      else [Row(depth, "[")] + ItemRows(items, f, depth + 1) + [Row(depth, "]")]
    case Object(members) => [Row(depth, "{")] + MemberRows(members, f, depth + 1) + [Row(depth, "}")]
    case _ => [Row(depth, Tight(v, f))]
  }

  function ItemRows(items: seq<Value>, f: Format, depth: nat): seq<Row>
    decreases items, 0
  {
    if items == [] then []
    else WithComma(RowsOf(items[0], f, depth), Comma(|items|)) + ItemRows(items[1..], f, depth)
  }

  function MemberRows(members: seq<Pair>, f: Format, depth: nat): seq<Row>
    decreases members, 0
  {
    if members == [] then []
    else
      var rows := WithName(RowsOf(members[0].value, f, depth), Quoted(members[0].name, f) + " : ");
      WithComma(rows, Comma(|members|)) + MemberRows(members[1..], f, depth)
  }

  lemma {:induction false} LinesAppend(a: seq<Row>, b: seq<Row>)
    ensures Lines(a + b) == Lines(a) + Lines(b)
    decreases |a|
  {
    if a == [] {
      assert a + b == b;
    } else {
      assert (a + b)[1..] == a[1..] + b;
      LinesAppend(a[1..], b);
    }
  }

  lemma LinesOne(r: Row)
    ensures Lines([r]) == RowText(r) + "\n"
  {
    assert [r][1..] == [];
    assert (RowText(r) + "\n") + "" == RowText(r) + "\n";
  }

  lemma {:induction false} StepsAreBlanks(level: nat)
    ensures Steps(level) == Blanks(4 * level)
  {
    if level > 0 {
      StepsAreBlanks(level - 1);
      assert Blanks(4 * (level - 1)) + "    " == Blanks(4 * level);
    }
  }

  /** The rows spell the text, the first of them behind its blanks. */
  ghost predicate Spell(rows: seq<Row>, depth: nat, text: string) {
    rows != [] && rows[0].depth == depth && Lines(rows) == Blanks(4 * depth) + text + "\n"
  }

  lemma CommaSpells(rows: seq<Row>, depth: nat, text: string, comma: string)
    requires Spell(rows, depth, text)
    ensures Spell(WithComma(rows, comma), depth, text + comma)
  {
    var n := |rows| - 1;
    var last := rows[n];
    assert rows == rows[..n] + [last];
    LinesAppend(rows[..n], [last]);
    LinesOne(last);
    var longer := Row(last.depth, last.text + comma);
    LinesAppend(rows[..n], [longer]);
    LinesOne(longer);
    CommaJoined(Lines(rows[..n]), RowText(last), comma, Blanks(4 * depth) + text);
    Regroup(Blanks(4 * last.depth), last.text, comma);
    Regroup(Blanks(4 * depth), text, comma);
  }

  lemma CommaJoined(a: string, b: string, comma: string, c: string)
    requires a + (b + "\n") == c + "\n"
    ensures a + ((b + comma) + "\n") == (c + comma) + "\n"
  {
    assert (a + (b + "\n"))[..|a| + |b|] == a + b && (c + "\n")[..|c|] == c;
  }

  lemma NameSpells(rows: seq<Row>, depth: nat, text: string, name: string)
    requires Spell(rows, depth, text)
    ensures Spell(WithName(rows, name), depth, name + text)
  {
    var first, b, more := rows[0], Blanks(4 * depth), Lines(rows[1..]);
    NameJoined(b, first.text, more, text, name);
    assert WithName(rows, name)[1..] == rows[1..];
  }

  lemma NameJoined(b: string, first: string, more: string, text: string, name: string)
    requires ((b + first) + "\n") + more == b + text + "\n"
    ensures ((b + (name + first)) + "\n") + more == b + (name + text) + "\n"
  {
    var whole := (first + "\n") + more;
    assert ((b + first) + "\n") + more == b + whole && b + text + "\n" == b + (text + "\n");
    assert (b + whole)[|b|..] == whole && (b + (text + "\n"))[|b|..] == text + "\n";
    assert ((b + (name + first)) + "\n") + more == b + (name + whole);
    assert b + (name + text) + "\n" == b + (name + (text + "\n"));
  }

  lemma {:induction false} InRowText(items: seq<Value>, f: Format, level: nat)
    requires f.Pretty() && !ContainsComposite(items)
    ensures ItemsText(items, f, Line(f, level)) == InRow(items, f)
    decreases items
  {
    if items != [] {
      assert !IsContainer(items[0]);
      assert forall i :: 0 <= i < |items[1..]| ==> items[1..][i] == items[i + 1];
      InRowText(items[1..], f, level);
    }
  }

  /** The brackets in rows of their own around the rows of the items. */
  lemma BracketsSpell(open: char, close: char, rows: seq<Row>, body: string, f: Format, depth: nat)
    requires f.Pretty() && Lines(rows) == body
    ensures Spell([Row(depth, [open])] + rows + [Row(depth, [close])], depth,
                  Enclosed(open, body, close, Rows(f, depth)))
  {
    var first, last := Row(depth, [open]), Row(depth, [close]);
    LinesAppend([first] + rows, [last]);
    LinesAppend([first], rows);
    LinesOne(first);
    LinesOne(last);
    StepsAreBlanks(depth);
    var b := Blanks(4 * depth);
    assert Enclosed(open, body, close, Rows(f, depth)) == [open] + ("\n" + (body + (b + [close])));
    BracketsJoined(b, [open], body, [close]);
  }

  lemma BracketsJoined(b: string, open: string, body: string, close: string)
    ensures ((b + open) + "\n") + body + ((b + close) + "\n") == b + (open + ("\n" + (body + (b + close)))) + "\n"
  {
  }

  lemma RowSpells(depth: nat, text: string)
    ensures Spell([Row(depth, text)], depth, text)
  {
    LinesOne(Row(depth, text));
  }

  lemma OneRowText(items: seq<Value>, f: Format, depth: nat)
    requires f.Pretty() && f.singleLineArrays && !ContainsComposite(items)
    ensures Text(Array(items), f, depth) == "[ " + (InRow(items, f) + "]")
  {
    InRowText(items, f, depth);
    var body := InRow(items, f);
    assert "" + "]" == "]" && "[" + (" " + (body + "]")) == "[ " + (body + "]");
  }

  lemma OneMemberText(m: Pair, f: Format, depth: nat)
    requires f.Pretty()
    ensures MemberText(m, f, depth) == (Quoted(m.name, f) + " : ") + Text(m.value, f, depth)
  {
    JoinedMember(Quoted(m.name, f), Text(m.value, f, depth));
  }

  lemma JoinedMember(name: string, text: string)
    ensures name + (" " + ([':'] + (" " + text))) == (name + " : ") + text
  {
    assert " " + ([':'] + (" " + text)) == " : " + text;
  }

  /** In the pretty layouts a value is written in these rows. */
  lemma {:induction false} PrettyInRows(v: Value, f: Format, depth: nat)
    requires f.Pretty()
    ensures Spell(RowsOf(v, f, depth), depth, Text(v, f, depth))
    decreases v, 1
  {
    match v
    case Array(items) =>
      if f.singleLineArrays && !ContainsComposite(items) {
        OneRowText(items, f, depth);
        RowSpells(depth, "[ " + (InRow(items, f) + "]"));
      } else {
        ItemsInRows(items, f, depth + 1, Rows(f, depth));
        BracketsSpell('[', ']', ItemRows(items, f, depth + 1), ItemsText(items, f, Rows(f, depth)), f, depth);
      }
    case Object(members) =>
      MembersInRows(members, f, depth + 1, Rows(f, depth));
      BracketsSpell('{', '}', MemberRows(members, f, depth + 1), MembersText(members, f, Rows(f, depth)), f, depth);
    case _ =>
      RowSpells(depth, Tight(v, f));
  }

  lemma ListJoined(b: string, text: string, comma: string, more: string)
    ensures (b + (text + comma) + "\n") + more == b + (text + (comma + ("\n" + more)))
  {
  }

  lemma {:induction false} ItemsInRows(items: seq<Value>, f: Format, depth: nat, y: Layout)
    requires f.Pretty() && y.before == Steps(depth) && y.after == "\n" && y.level == depth
    ensures Lines(ItemRows(items, f, depth)) == ItemsText(items, f, y)
    decreases items, 0
  {
    if items != [] {
      var rows, text, comma := RowsOf(items[0], f, depth), Text(items[0], f, depth), Comma(|items|);
      PrettyInRows(items[0], f, depth);
      CommaSpells(rows, depth, text, comma);
      ItemsInRows(items[1..], f, depth, y);
      LinesAppend(WithComma(rows, comma), ItemRows(items[1..], f, depth));
      StepsAreBlanks(depth);
      ListJoined(Blanks(4 * depth), text, comma, ItemsText(items[1..], f, y));
    }
  }

  lemma {:induction false} MembersInRows(members: seq<Pair>, f: Format, depth: nat, y: Layout)
    requires f.Pretty() && y.before == Steps(depth) && y.after == "\n" && y.level == depth
    ensures Lines(MemberRows(members, f, depth)) == MembersText(members, f, y)
    decreases members, 0
  {
    if members != [] {
      var m, comma := members[0], Comma(|members|);
      var name, text := Quoted(m.name, f) + " : ", Text(m.value, f, depth);
      var rows := RowsOf(m.value, f, depth);
      PrettyInRows(m.value, f, depth);
      NameSpells(rows, depth, text, name);
      CommaSpells(WithName(rows, name), depth, name + text, comma);
      MembersInRows(members[1..], f, depth, y);
      LinesAppend(WithComma(WithName(rows, name), comma), MemberRows(members[1..], f, depth));
      StepsAreBlanks(depth);
      OneMemberText(m, f, depth);
      ListJoined(Blanks(4 * depth), name + text, comma, MembersText(members[1..], f, y));
    }
  }

  // ----- the rows are lines

  /** Some tokens without the end of a line among them. */
  predicate IsInLine(text: string) {
    text != "" && text[0] != ' ' && '\n' !in text
  }

  predicate AreLines(rows: seq<Row>) {
    forall i :: 0 <= i < |rows| ==> IsInLine(rows[i].text)
  }

  lemma {:induction false} NoLineEndInside(s: string, o: Options)
    ensures '\n' !in Escape(s, o)
    decreases |s|
  {
    if s != "" {
      NoLineEndInside(s[1..], o);
      OneWithoutLineEnd(s[0], o);
    }
  }

  lemma OneWithoutLineEnd(c: char, o: Options)
    ensures '\n' !in EscapeOne(c, o)
  {
  }

  lemma QuotedInLine(s: string, f: Format)
    ensures IsInLine(Quoted(s, f))
  {
    NoLineEndInside(s, f.escapes);
  }

  lemma ScalarInLine(v: Value, f: Format)
    requires !IsContainer(v)
    ensures IsInLine(Tight(v, f))
  {
    if v.Str? {
      QuotedInLine(v.s, f);
    } else {
      ScalarIsSolid(v, f);
      assert IsSpace('\n') && IsSpace(' ');
    }
  }

  lemma {:induction false} NoLineEndInRow(items: seq<Value>, f: Format)
    requires !ContainsComposite(items)
    ensures '\n' !in InRow(items, f)
  {
    if items != [] {
      assert !IsContainer(items[0]);
      assert forall i :: 0 <= i < |items[1..]| ==> items[1..][i] == items[i + 1];
      ScalarInLine(items[0], f);
      NoLineEndInRow(items[1..], f);
    }
  }

  lemma CommaInLine(rows: seq<Row>, comma: string)
    requires rows != [] && AreLines(rows) && '\n' !in comma
    ensures AreLines(WithComma(rows, comma))
  {
  }

  lemma NameInLine(rows: seq<Row>, name: string)
    requires rows != [] && AreLines(rows) && IsInLine(name)
    ensures AreLines(WithName(rows, name))
  {
  }

  /** Every row is one line of the text, and its blanks are all there are before its first token. */
  lemma {:induction false} RowsAreLines(v: Value, f: Format, depth: nat)
    ensures AreLines(RowsOf(v, f, depth))
    decreases v, 1
  {
    match v
    case Array(items) =>
      if f.singleLineArrays && !ContainsComposite(items) {
        NoLineEndInRow(items, f);
      } else {
        ItemRowsAreLines(items, f, depth + 1);
      }
    case Object(members) => MemberRowsAreLines(members, f, depth + 1);
    case _ => ScalarInLine(v, f);
  }

  lemma {:induction false} ItemRowsAreLines(items: seq<Value>, f: Format, depth: nat)
    ensures AreLines(ItemRows(items, f, depth))
    decreases items, 0
  {
    if items != [] {
      RowsAreLines(items[0], f, depth);
      CommaInLine(RowsOf(items[0], f, depth), Comma(|items|));
      ItemRowsAreLines(items[1..], f, depth);
    }
  }

  lemma {:induction false} MemberRowsAreLines(members: seq<Pair>, f: Format, depth: nat)
    ensures AreLines(MemberRows(members, f, depth))
    decreases members, 0
  {
    if members != [] {
      var rows, name := RowsOf(members[0].value, f, depth), Quoted(members[0].name, f) + " : ";
      RowsAreLines(members[0].value, f, depth);
      QuotedInLine(members[0].name, f);
      NameInLine(rows, name);
      CommaInLine(WithName(rows, name), Comma(|members|));
      MemberRowsAreLines(members[1..], f, depth);
    }
  }

  /** So the lines of the pretty text are these rows: four blanks for each open container, and then the tokens. */
  lemma PrettyText(v: Value, f: Format)
    requires f.prettyPrint || f.singleLineArrays
    ensures Text(v, f, 0) + "\n" == Lines(RowsOf(v, f, 0)) && AreLines(RowsOf(v, f, 0))
  {
    PrettyInRows(v, f, 0);
    RowsAreLines(v, f, 0);
    assert Blanks(0) + Text(v, f, 0) == Text(v, f, 0);
  }
}
