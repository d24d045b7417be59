/** The JSON grammar: ordered choice over the text that is left, skipping white space and comments between tokens. */
module JsonReader {
  import opened Decimal
  import opened JsonEscape
  import opened Json
  import opened Wrappers

  // ----- what is skipped

  predicate IsSpace(c: char) {
    c == ' ' || 9 <= c as int <= 13
  }

  /** The text behind the end of a line comment. */
  function AfterLine(s: string): (r: string)
    ensures |r| <= |s|
  {
    if s == "" then s
    else if s[0] == '\n' || s[0] == '\r' then s[1..]
    else AfterLine(s[1..])
  }

  /** The text behind the end of a block comment, if it ends. */
  function AfterBlock(s: string): (r: Option<string>)
    ensures r.Some? ==> |r.value| <= |s|
  {
    if |s| < 2 then None
    else if s[0] == '*' && s[1] == '/' then Some(s[2..])
    else AfterBlock(s[1..])
  }

  function Skip(s: string): (r: string)
    ensures |r| <= |s|
    decreases |s|
  {
    if s == "" then s
    else if IsSpace(s[0]) then Skip(s[1..])
    else if |s| >= 2 && s[0] == '/' && s[1] == '/' then Skip(AfterLine(s[2..]))
    else if |s| >= 2 && s[0] == '/' && s[1] == '*' && AfterBlock(s[2..]).Some? then Skip(AfterBlock(s[2..]).value)
    else s
  }

  /** A piece of what is skipped: a white space character, or a comment with what ends it. */
  datatype Blank = White(c: char) | LineComment(text: string, end: string) | BlockComment(text: string)

  predicate EndsInside(text: string) {
    exists i :: 0 <= i < |text| - 1 && text[i] == '*' && text[i + 1] == '/'
  }

  /**
    A well-formed blank before `rest`: a line comment ends at the first line end or with the text, a block comment
    at its first end.
    */
  predicate IsBlank(b: Blank, rest: string) {
    match b
    case White(c) => c == ' ' || c == '\t' || c == '\n' || c == '\r' || c as int == 11 || c as int == 12
    case LineComment(text, end) =>
      && '\n' !in text && '\r' !in text
      && (end == "\n" || end == "\r" || (end == "" && rest == ""))
    case BlockComment(text) => !EndsInside(text + "*")
  }

  function BlankText(b: Blank): string {
    match b
    case White(c) => [c]
    case LineComment(text, end) => ['/', '/'] + (text + end)
    case BlockComment(text) => ['/', '*'] + (text + ['*', '/'])
  }

  function BlanksText(bs: seq<Blank>): string {
    if bs == [] then "" else BlankText(bs[0]) + BlanksText(bs[1..])
  }

  predicate AreBlanks(bs: seq<Blank>, rest: string) {
    bs == [] || (IsBlank(bs[0], BlanksText(bs[1..]) + rest) && AreBlanks(bs[1..], rest))
  }

  lemma {:induction false} AfterLineOf(text: string, end: string, rest: string)
    requires IsBlank(LineComment(text, end), rest)
    ensures AfterLine(text + end + rest) == rest
    decreases |text|
  {
    var s := text + end + rest;
    if text == "" {
      assert s == end + rest;
    } else {
      assert s[1..] == text[1..] + end + rest;
      AfterLineOf(text[1..], end, rest);
    }
  }

  lemma {:induction false} AfterBlockOf(text: string, rest: string)
    requires !EndsInside(text + "*")
    ensures AfterBlock(text + ['*', '/'] + rest) == Some(rest)
    decreases |text|
  {
    var s := text + ['*', '/'] + rest;
    if text == "" {
      assert s == ['*', '/'] + rest;
    } else {
      assert s[1..] == text[1..] + ['*', '/'] + rest;
      var t := text + "*";
      assert s[0] == t[0] && s[1] == t[1];
      assert !(t[0] == '*' && t[0 + 1] == '/');
      forall i | 0 <= i < |text[1..] + "*"| - 1
        ensures !((text[1..] + "*")[i] == '*' && (text[1..] + "*")[i + 1] == '/')
      {
        assert (text[1..] + "*")[i] == t[i + 1] && (text[1..] + "*")[i + 1] == t[i + 1 + 1];
      }
      AfterBlockOf(text[1..], rest);
    }
  }

  lemma SkipOne(b: Blank, rest: string)
    requires IsBlank(b, rest)
    ensures Skip(BlankText(b) + rest) == Skip(rest)
  {
    var s := BlankText(b) + rest;
    match b
    case White(c) =>
      assert s[1..] == rest;
    case LineComment(text, end) =>
      assert s[2..] == text + end + rest;
      AfterLineOf(text, end, rest);
    case BlockComment(text) =>
      assert s[2..] == text + ['*', '/'] + rest;
      AfterBlockOf(text, rest);
  }

  /** White space and comments in any number and order are skipped. */
  lemma {:induction false} SkipBlanks(bs: seq<Blank>, rest: string)
    requires AreBlanks(bs, rest)
    ensures Skip(BlanksText(bs) + rest) == Skip(rest)
    decreases |bs|
  {
    if bs == [] {
      assert BlanksText(bs) + rest == rest;
    } else {
      assert BlanksText(bs) + rest == BlankText(bs[0]) + (BlanksText(bs[1..]) + rest);
      SkipOne(bs[0], BlanksText(bs[1..]) + rest);
      SkipBlanks(bs[1..], rest);
    }
  }

  lemma {:induction false} LineBefore(s: string) returns (text: string, end: string)
    ensures s == text + end + AfterLine(s) && IsBlank(LineComment(text, end), AfterLine(s))
    decreases |s|
  {
    text, end := "", "";
    if s != "" {
      if s[0] == '\n' || s[0] == '\r' {
        end := [s[0]];
      } else {
        text, end := LineBefore(s[1..]);
        text := [s[0]] + text;
      }
    }
  }

  lemma {:induction false} BlockBefore(s: string) returns (text: string)
    requires AfterBlock(s).Some?
    ensures s == text + ['*', '/'] + AfterBlock(s).value && !EndsInside(text + "*")
    decreases |s|
  {
    if s[0] == '*' && s[1] == '/' {
      text := "";
    } else {
      var more := BlockBefore(s[1..]);
      text := [s[0]] + more;
      assert text + "*" == [s[0]] + (more + "*");
      var t := text + "*";
      assert s[1] == (more + ['*', '/'] + AfterBlock(s).value)[0];
      forall i | 0 <= i < |t| - 1
        ensures !(t[i] == '*' && t[i + 1] == '/')
      {
        if i > 0 {
          assert t[i] == (more + "*")[i - 1] && t[i + 1] == (more + "*")[i - 1 + 1];
        }
      }
    }
  }

  predicate StartsBlank(s: string) {
    s != "" &&
    (IsSpace(s[0]) || (|s| >= 2 && s[0] == '/' && (s[1] == '/' || (s[1] == '*' && AfterBlock(s[2..]).Some?))))
  }

  lemma FirstBlank(s: string) returns (b: Blank, rest: string)
    requires StartsBlank(s)
    ensures s == BlankText(b) + rest && IsBlank(b, rest)
  {
    if IsSpace(s[0]) {
      b, rest := White(s[0]), s[1..];
    } else if s[1] == '/' {
      var text, end := LineBefore(s[2..]);
      b, rest := LineComment(text, end), AfterLine(s[2..]);
      assert s == ['/', '/'] + s[2..];
    } else {
      var text := BlockBefore(s[2..]);
      b, rest := BlockComment(text), AfterBlock(s[2..]).value;
      assert s == ['/', '*'] + s[2..];
    }
  }

  /** Exactly the longest run of white space and comments is skipped. */
  lemma {:induction false} SkippedAreBlanks(s: string) returns (bs: seq<Blank>)
    ensures AreBlanks(bs, Skip(s)) && s == BlanksText(bs) + Skip(s) && !StartsBlank(Skip(s))
    decreases |s|
  {
    if StartsBlank(s) {
      var first, rest := FirstBlank(s);
      SkipOne(first, rest);
      var others := SkippedAreBlanks(rest);
      BlanksJoined(first, others, Skip(rest));
      bs := [first] + others;
    } else {
      bs := [];
      assert BlanksText([]) + s == s;
    }
  }

  lemma BlanksJoined(first: Blank, others: seq<Blank>, rest: string)
    requires IsBlank(first, BlanksText(others) + rest) && AreBlanks(others, rest)
    ensures AreBlanks([first] + others, rest)
    ensures BlanksText([first] + others) + rest == BlankText(first) + (BlanksText(others) + rest)
  {
    assert ([first] + others)[1..] == others;
  }

  // ----- tokens

  /** The length of the string token a text starts with, quotes included. */
  function StringToken(s: string): (n: Option<nat>)
    ensures n.Some? ==> 2 <= n.value <= |s|
  {
    if s == "" || s[0] != '"' then None
    else
      var n := TokenLength(s[1..]);
      if 1 + n < |s| && s[1 + n] == '"' then Some(n + 2) else None
  }

  function LeadingDigits(s: string): (k: nat)
    ensures k <= |s| && AllDigits(s[..k])
    ensures k < |s| ==> !IsDigit(s[k])
  {
    if s == "" || !IsDigit(s[0]) then 0
    else
      var k := LeadingDigits(s[1..]);
      assert s[..k + 1] == [s[0]] + s[1..][..k];
      k + 1
  }

  predicate StartsWith(s: string, token: string) {
    |token| <= |s| && s[..|token|] == token
  }

  // ----- the rules

  datatype Action =
    | Begin(kind: Kind)
    | End(kind: Kind)
    | NewName(token: string)
    | NewStr(token: string)
    | NewBool(b: bool)
    | NewNull
    | NewInt(n: int)
    | NewUInt(u: nat)

  /** A rule matches, or does not, or throws; a real number is outside this model. */
  datatype Outcome = Match(actions: seq<Action>, rest: string) | NoMatch | Throws | Real

  function Prepend(actions: seq<Action>, r: Outcome): Outcome {
    if r.Match? then Match(actions + r.actions, r.rest) else r
  }

  predicate IsSign(c: char) {
    c == '-' || c == '+'
  }

  function Signed(negative: bool, n: nat): int {
    var i: int := n;
    if negative then -i else i
  }

  /**
    The number behind a sign, or behind none: signed if it fits 64 bits, otherwise unsigned if that fits and there
    was no sign.
    */
  function NumberBehind(signed: bool, negative: bool, digits: string): (r: Outcome)
    ensures r.Match? ==> |r.rest| < |digits|
  {
    var k := LeadingDigits(digits);
    var rest := digits[k..];
    if rest != "" && (rest[0] == '.' || (k > 0 && (rest[0] == 'e' || rest[0] == 'E'))) then Real
    else if k == 0 then NoMatch
    else NumberAction(signed, negative, Read(digits[..k]), rest)
  }

  function NumberAction(signed: bool, negative: bool, n: nat, rest: string): (r: Outcome)
    ensures r.Match? ==> r.rest == rest
  {
    var value := Signed(negative, n);
    if INT64_MIN <= value <= INT64_MAX then Match([NewInt(value)], rest)
    else if !signed && n <= UINT64_MAX then Match([NewUInt(n)], rest)
    else NoMatch
  }

  function Number(s: string): (r: Outcome)
    ensures r.Match? ==> |r.rest| < |s|
  {
    if s == "" then NoMatch
    else if IsSign(s[0]) then NumberBehind(true, s[0] == '-', s[1..])
    else NumberBehind(false, false, s)
  }

  function Opening(kind: Kind): char {
    if kind.Arr? then '[' else '{'
  }

  function Closing(kind: Kind): char {
    if kind.Arr? then ']' else '}'
  }

  function ParseValue(s: string): (r: Outcome)
    ensures r.Match? ==> |r.rest| < |s|
    decreases |s|, 4
  {
    var t := Skip(s);
    if t == "" then NoMatch
    else
      var token, number := StringToken(t), Number(t);
      if token.Some? then Match([NewStr(t[..token.value])], t[token.value..])
      else if number != NoMatch then number
      else if t[0] == Opening(Obj) then ParseCompound(Obj, t)
      else if t[0] == Opening(Arr) then ParseCompound(Arr, t)
      else if StartsWith(t, "true") then Match([NewBool(true)], t[4..])
      else if StartsWith(t, "false") then Match([NewBool(false)], t[5..])
      else if StartsWith(t, "null") then Match([NewNull], t[4..])
      else NoMatch
  }

  function ParseCompound(kind: Kind, t: string): (r: Outcome)
    requires t != ""
    ensures r.Match? ==> |r.rest| < |t|
    decreases |t|, 3
  {
    var items := ParseItems(kind, t[1..]);
    if !items.Match? then items
    else
      var u := Skip(items.rest);
      if u != "" && u[0] == Closing(kind) then Match([Begin(kind)] + items.actions + [End(kind)], u[1..])
      else Throws
  }

  /** The optional items of a container. */
  function ParseItems(kind: Kind, s: string): (r: Outcome)
    ensures r != NoMatch
    ensures r.Match? ==> |r.rest| <= |s|
    decreases |s|, 6
  {
    var first := ParseItem(kind, s);
    if first.NoMatch? then Match([], s)
    else if !first.Match? then first
    else Prepend(first.actions, ParseMore(kind, first.rest))
  }

  /** Any number of further items, each behind a comma. */
  function ParseMore(kind: Kind, s: string): (r: Outcome)
    ensures r != NoMatch
    ensures r.Match? ==> |r.rest| <= |s|
    decreases |s|, 0
  {
    var t := Skip(s);
    if t == "" || t[0] != ',' then Match([], s)
    else
      var item := ParseItem(kind, t[1..]);
      if item.NoMatch? then Match([], s)
      else if !item.Match? then item
      else Prepend(item.actions, ParseMore(kind, item.rest))
  }

  function ParseItem(kind: Kind, s: string): (r: Outcome)
    ensures r.Match? ==> |r.rest| < |s|
    decreases |s|, 5
  {
    if kind.Arr? then ParseValue(s) else ParsePair(s)
  }

  function ParsePair(s: string): (r: Outcome)
    ensures r.Match? ==> |r.rest| < |s|
    decreases |s|, 2
  {
    var t := Skip(s);
    var token := StringToken(t);
    if token.None? then NoMatch
    else
      var u := Skip(t[token.value..]);
      if u == "" || u[0] != ':' then Throws
      else
        var value := ParseValue(u[1..]);
        if value.NoMatch? then Throws else Prepend([NewName(t[..token.value])], value)
  }

  /** The whole grammar: a value, or an exception. */
  function ParseJson(s: string): (r: Outcome)
    ensures r != NoMatch
  {
    var r := ParseValue(s);
    if r.NoMatch? then Throws else r
  }

  lemma SameSkipped(a: string, b: string)
    requires Skip(a) == Skip(b)
    ensures ParseValue(a) == ParseValue(b)
  {
  }

  /** White space and comments before a value make no difference. */
  lemma BlanksBeforeValue(bs: seq<Blank>, s: string)
    requires AreBlanks(bs, s)
    ensures ParseValue(BlanksText(bs) + s) == ParseValue(s)
  {
    SkipBlanks(bs, s);
    SameSkipped(BlanksText(bs) + s, s);
  }
}
