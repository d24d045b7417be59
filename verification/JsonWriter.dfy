/** The text of a JSON value, and the generator that appends it to a stream. */
module JsonWriter {
  import opened Decimal
  import opened JsonEscape
  import opened Json

  datatype Format = Format(prettyPrint: bool, singleLineArrays: bool, escapes: Options)
  {
    predicate Pretty() {
      prettyPrint || singleLineArrays
    }

    function NewLine(): string {
      if Pretty() then "\n" else ""
    }

    function Space(): string {
      if Pretty() then " " else ""
    }

    function Indent(level: nat): string {
      if Pretty() then Steps(level) else ""
    }
  }

  function Steps(level: nat): string {
    if level == 0 then "" else Steps(level - 1) + "    "
  }

  /** The white space of a container: behind the opening bracket, around each item, before the closing bracket. */
  datatype Layout = Layout(first: string, before: string, after: string, last: string, level: nat)

  function Rows(f: Format, level: nat): Layout {
    Layout(f.NewLine(), f.Indent(level + 1), f.NewLine(), f.Indent(level), level + 1)
  }

  function Line(f: Format, level: nat): Layout {
    Layout(f.Space(), "", f.Space(), "", level)
  }

  predicate ContainsComposite(items: seq<Value>) {
    exists i :: 0 <= i < |items| && IsContainer(items[i])
  }

  method HasComposite(items: seq<Value>) returns (r: bool)
    ensures r <==> ContainsComposite(items)
  {
    for i := 0 to |items|
      invariant forall j :: 0 <= j < i ==> !IsContainer(items[j])
    {
      if IsContainer(items[i]) { return true; }
    }
    return false;
  }

  function ArrayLayout(items: seq<Value>, f: Format, level: nat): Layout {
    if f.singleLineArrays && !ContainsComposite(items) then Line(f, level) else Rows(f, level)
  }

  function Quoted(s: string, f: Format): string {
    ['"'] + Escape(s, f.escapes) + ['"']
  }

  function IntText(n: int): (s: string)
    ensures s != ""
  {
    if n < 0 then ['-'] + Print(-n) else Print(n)
  }

  function Comma(itemsLeft: nat): string {
    if itemsLeft > 1 then "," else ""
  }

  function Enclosed(open: char, body: string, close: char, y: Layout): string {
    [open] + (y.first + (body + (y.last + [close])))
  }

  function Text(v: Value, f: Format, level: nat): string
    decreases v, 1
  {
    match v
    case Null => "null"
    case Bool(b) => if b then "true" else "false"
    case Int(n) => IntText(n)
    case UInt(u) => Print(u)
    case Str(s) => Quoted(s, f)
    case Array(items) =>
      var y := ArrayLayout(items, f, level);
      Enclosed('[', ItemsText(items, f, y), ']', y)
    case Object(members) =>
      var y := Rows(f, level);
      Enclosed('{', MembersText(members, f, y), '}', y)
  }

  function ItemsText(items: seq<Value>, f: Format, y: Layout): string
    decreases items, 0
  {
    if items == [] then ""
    else y.before + (Text(items[0], f, y.level) + (Comma(|items|) + (y.after + ItemsText(items[1..], f, y))))
  }

  function MemberText(m: Pair, f: Format, level: nat): string
    decreases m, 2
  {
    Quoted(m.name, f) + (f.Space() + ([':'] + (f.Space() + Text(m.value, f, level))))
  }

  function MembersText(members: seq<Pair>, f: Format, y: Layout): string
    decreases members, 0
  {
    if members == [] then ""
    else
      y.before + (MemberText(members[0], f, y.level) + (Comma(|members|) + (y.after + MembersText(members[1..], f, y))))
  }

  lemma Join5(os: string, a: string, b: string, c: string, d: string, e: string)
    ensures os + (a + (b + (c + (d + e)))) == os + a + b + c + d + e
  {
    assert os + (a + (b + (c + (d + e)))) == os + a + (b + (c + (d + e)));
    assert b + (c + (d + e)) == b + c + (d + e);
  }

  lemma JoinEnclosed(os: string, open: char, body: string, close: char, y: Layout)
    ensures os + [open] + y.first + body + y.last + [close] == os + Enclosed(open, body, close, y)
  {
  }

  lemma ItemsStep(os: string, items: seq<Value>, i: nat, f: Format, y: Layout)
    requires i < |items|
    ensures os + ItemsText(items[i..], f, y)
         == os + y.before + Text(items[i], f, y.level) + Comma(|items| - i) + y.after + ItemsText(items[i + 1..], f, y)
  {
    assert items[i..][1..] == items[i + 1..];
    Join5(os, y.before, Text(items[i], f, y.level), Comma(|items| - i), y.after, ItemsText(items[i + 1..], f, y));
  }

  lemma MembersStep(os: string, members: seq<Pair>, i: nat, f: Format, y: Layout)
    requires i < |members|
    ensures os + MembersText(members[i..], f, y)
         == os + y.before + MemberText(members[i], f, y.level) + Comma(|members| - i) + y.after
              + MembersText(members[i + 1..], f, y)
  {
    assert members[i..][1..] == members[i + 1..];
    Join5(os, y.before, MemberText(members[i], f, y.level), Comma(|members| - i), y.after,
          MembersText(members[i + 1..], f, y));
  }

  class Generator {
    var os: string
    var indentationLevel: nat
    const f: Format

    constructor (value: Value, stream: string, format: Format)
      ensures os == stream + Text(value, format, 0)
    {
      os, indentationLevel, f := stream, 0, format;
      new;
      Output(value);
    }

    method Indent()
      modifies this`os
      ensures os == old(os) + f.Indent(indentationLevel)
    {
      if !f.Pretty() { return; }
      var i := 0;
      while i < indentationLevel
        invariant 0 <= i <= indentationLevel
        invariant os == old(os) + Steps(i)
      {
        os := os + "    ";
        i := i + 1;
      }
    }

    method Space()
      modifies this`os
      ensures os == old(os) + f.Space()
    {
      if f.Pretty() { os := os + " "; }
    }

    method NewLine()
      modifies this`os
      ensures os == old(os) + f.NewLine()
    {
      if f.Pretty() { os := os + "\n"; }
    }

    method OutputStr(s: string)
      modifies this`os
      ensures os == old(os) + Quoted(s, f)
    {
      var e := AddEscChars(s, f.escapes);
      os := os + (['"'] + e + ['"']);
    }

    method Output(value: Value)
      modifies this
      ensures indentationLevel == old(indentationLevel)
      ensures os == old(os) + Text(value, f, indentationLevel)
      decreases value, 1
    {
      match value
      case Object(members) => OutputObj(members);
      case Array(items) => OutputArray(items);
      case Str(s) => OutputStr(s);
      case Bool(b) => os := os + if b then "true" else "false";
      case Int(n) => os := os + IntText(n);
      case UInt(u) => os := os + Print(u);
      case Null => os := os + "null";
    }

    method OutputMember(member: Pair)
      modifies this
      ensures indentationLevel == old(indentationLevel)
      ensures os == old(os) + MemberText(member, f, indentationLevel)
      decreases member, 2
    {
      ghost var start := os;
      OutputStr(member.name);
      Space();
      os := os + [':'];
      Space();
      Output(member.value);
      Join5(start, Quoted(member.name, f), f.Space(), [':'], f.Space(), Text(member.value, f, indentationLevel));
    }

    method OutputCompositeItem(items: seq<Value>, i: nat)
      requires i < |items|
      modifies this
      ensures indentationLevel == old(indentationLevel)
      ensures os == old(os) + Text(items[i], f, indentationLevel) + Comma(|items| - i)
      decreases items, 0
    {
      Output(items[i]);
      if i + 1 != |items| { os := os + ","; }
    }

    method OutputCompositeMember(members: seq<Pair>, i: nat)
      requires i < |members|
      modifies this
      ensures indentationLevel == old(indentationLevel)
      ensures os == old(os) + MemberText(members[i], f, indentationLevel) + Comma(|members| - i)
      decreases members, 0
    {
      OutputMember(members[i]);
      if i + 1 != |members| { os := os + ","; }
    }

    method OutputItemRows(items: seq<Value>, ghost y: Layout)
      requires y.before == f.Indent(indentationLevel) && y.after == f.NewLine() && y.level == indentationLevel
      modifies this
      ensures indentationLevel == old(indentationLevel)
      ensures os == old(os) + ItemsText(items, f, y)
      decreases items, 1
    {
      var i := 0;
      while i < |items|
        invariant 0 <= i <= |items|
        invariant indentationLevel == y.level
        invariant os + ItemsText(items[i..], f, y) == old(os) + ItemsText(items, f, y)
      {
        ItemsStep(os, items, i, f, y);
        Indent();
        OutputCompositeItem(items, i);
        NewLine();
        i := i + 1;
      }
    }

    method OutputMemberRows(members: seq<Pair>, ghost y: Layout)
      requires y.before == f.Indent(indentationLevel) && y.after == f.NewLine() && y.level == indentationLevel
      modifies this
      ensures indentationLevel == old(indentationLevel)
      ensures os == old(os) + MembersText(members, f, y)
      decreases members, 1
    {
      var i := 0;
      while i < |members|
        invariant 0 <= i <= |members|
        invariant indentationLevel == y.level
        invariant os + MembersText(members[i..], f, y) == old(os) + MembersText(members, f, y)
      {
        MembersStep(os, members, i, f, y);
        Indent();
        OutputCompositeMember(members, i);
        NewLine();
        i := i + 1;
      }
    }

    method OutputItemsOnLine(items: seq<Value>, ghost y: Layout)
      requires y == Line(f, indentationLevel)
      modifies this
      ensures indentationLevel == old(indentationLevel)
      ensures os == old(os) + ItemsText(items, f, y)
      decreases items, 1
    {
      var i := 0;
      while i < |items|
        invariant 0 <= i <= |items|
        invariant indentationLevel == y.level
        invariant os + ItemsText(items[i..], f, y) == old(os) + ItemsText(items, f, y)
      {
        ItemsStep(os, items, i, f, y);
        assert os + y.before == os;
        OutputCompositeItem(items, i);
        Space();
        i := i + 1;
      }
    }

    method OutputArray(items: seq<Value>)
      modifies this
      ensures indentationLevel == old(indentationLevel)
      ensures os == old(os) + Text(Array(items), f, indentationLevel)
      decreases items, 2
    {
      var composite := HasComposite(items);
      ghost var start, y := os, ArrayLayout(items, f, indentationLevel);
      os := os + ['['];
      if f.singleLineArrays && !composite {
        Space();
        OutputItemsOnLine(items, y);
        os := os + [']'];
      } else {
        NewLine();
        indentationLevel := indentationLevel + 1;
        OutputItemRows(items, y);
        indentationLevel := indentationLevel - 1;
        Indent();
        os := os + [']'];
      }
      JoinEnclosed(start, '[', ItemsText(items, f, y), ']', y);
    }

    method OutputObj(members: seq<Pair>)
      modifies this
      ensures indentationLevel == old(indentationLevel)
      ensures os == old(os) + Text(Object(members), f, indentationLevel)
      decreases members, 2
    {
      ghost var start, y := os, Rows(f, indentationLevel);
      os := os + ['{'];
      NewLine();
      indentationLevel := indentationLevel + 1;
      OutputMemberRows(members, y);
      indentationLevel := indentationLevel - 1;
      Indent();
      os := os + ['}'];
      JoinEnclosed(start, '{', MembersText(members, f, y), '}', y);
    }
  }
}
