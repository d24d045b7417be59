/**
  Which texts the JSON reader accepts: the spellings of trees, with any white space and comments between the
  tokens.
  */
module JsonLanguage {
  import opened Decimal
  import opened Json
  import opened JsonEscape
  import opened JsonReader
  import opened JsonTrees
  import opened JsonRoundTrip
  import opened Wrappers

  // ----- spellings

  /** A value as it is written: the blanks before it and its tokens. */
  datatype Spelling = Spelling(lead: seq<Blank>, body: Body)

  datatype Body =
    | Nothing
    | Truth(b: bool)
    | Numeral(sign: string, digits: string)
    | Quotation(inside: string)
    | Compound(kind: Kind, entries: seq<Entry>, tail: seq<Blank>)

  /** An item, or a member with its name; `gap` stands before the comma in front of it. */
  datatype Entry =
    | Item(gap: seq<Blank>, value: Spelling)
    | Member(gap: seq<Blank>, lead: seq<Blank>, inside: string, colon: seq<Blank>, value: Spelling)

  function Quote(inside: string): string {
    ['"'] + (inside + ['"'])
  }

  function SpellingText(x: Spelling): string
    decreases x, 1
  {
    BlanksText(x.lead) + BodyText(x.body)
  }

  function BodyText(body: Body): (t: string)
    decreases body, 0
  {
    match body
    case Nothing => "null"
    case Truth(b) => if b then "true" else "false"
    case Numeral(sign, digits) => sign + digits
    case Quotation(inside) => Quote(inside)
    case Compound(kind, entries, tail) =>
      [Opening(kind)] + (EntriesText(entries) + (BlanksText(tail) + [Closing(kind)]))
  }

  function EntryText(e: Entry): string
    decreases e, 2
  {
    match e
    case Item(_, value) => SpellingText(value)
    case Member(_, lead, inside, colon, value) =>
      BlanksText(lead) + (Quote(inside) + (BlanksText(colon) + ([':'] + SpellingText(value))))
  }

  function EntriesText(entries: seq<Entry>): string
    decreases entries, 4
  {
    if entries == [] then "" else EntryText(entries[0]) + MoreText(entries[1..])
  }

  function MoreText(entries: seq<Entry>): string
    decreases entries, 3
  {
    if entries == [] then ""
    else BlanksText(entries[0].gap) + ([','] + (EntryText(entries[0]) + MoreText(entries[1..])))
  }

  // ----- well-formed spellings

  /** What stands between the quotes: no quote or backslash but behind a backslash. */
  predicate IsInside(s: string) {
    s == "" ||
    (if s[0] == '\\' then |s| >= 2 && IsInside(s[2..]) else s[0] != '"' && IsInside(s[1..]))
  }

  predicate IsSpelling(x: Spelling)
    decreases x, 1
  {
    AreBlanks(x.lead, BodyText(x.body)) && IsBody(x.body)
  }

  /** The number behind the sign fits a signed 64-bit integer or, without a sign, an unsigned one. */
  predicate Fits(sign: string, n: nat) {
    FitsSigned(sign, n) || (sign == "" && n <= 0xFFFF_FFFF_FFFF_FFFF)
  }

  predicate FitsSigned(sign: string, n: nat) {
    if sign == "-" then n <= 0x8000_0000_0000_0000 else n <= 0x7FFF_FFFF_FFFF_FFFF
  }

  /** A numeral may have either sign and leading zeros, but must fit 64 bits. */
  predicate IsBody(body: Body)
    decreases body, 0
  {
    match body
    case Nothing => true
    case Truth(_) => true
    case Numeral(sign, digits) =>
      && (sign == "" || sign == "-" || sign == "+") && digits != "" && AllDigits(digits)
      && Fits(sign, Read(digits))
    case Quotation(inside) => IsInside(inside)
    case Compound(kind, entries, tail) => AreEntries(kind, entries) && AreBlanks(tail, [Closing(kind)])
  }

  predicate IsEntry(kind: Kind, e: Entry)
    decreases e, 2
  {
    match e
    case Item(_, value) => kind.Arr? && IsSpelling(value)
    case Member(_, lead, inside, colon, value) =>
      && kind.Obj? && AreBlanks(lead, Quote(inside)) && IsInside(inside)
      && AreBlanks(colon, [':']) && IsSpelling(value)
  }

  predicate AreEntries(kind: Kind, entries: seq<Entry>)
    decreases entries, 4
  {
    entries == [] || (entries[0].gap == [] && IsEntry(kind, entries[0]) && AreMore(kind, entries[1..]))
  }

  predicate AreMore(kind: Kind, entries: seq<Entry>)
    decreases entries, 3
  {
    entries == [] ||
    (AreBlanks(entries[0].gap, [',']) && IsEntry(kind, entries[0]) && AreMore(kind, entries[1..]))
  }

  // ----- the tree that is spelled

  function TreeOf(x: Spelling): Value
    decreases x, 1
  {
    BodyTree(x.body)
  }

  function BodyTree(body: Body): Value
    decreases body, 0
  {
    match body
    case Nothing => Null
    case Truth(b) => Bool(b)
    case Numeral(sign, digits) =>
      if !AllDigits(digits) then Null
      else
        var n: int := Read(digits);
        if FitsSigned(sign, n) then Int(if sign == "-" then -n else n) else UInt(n)
    case Quotation(inside) => Str(Quote(inside))
    case Compound(kind, entries, _) =>
      if kind.Arr? then Array(ItemTrees(entries)) else Object(MemberTrees(entries))
  }

  function ItemTrees(entries: seq<Entry>): (r: seq<Value>)
    ensures |r| == |entries|
    decreases entries, 3
  {
    if entries == [] then [] else [TreeOf(entries[0].value)] + ItemTrees(entries[1..])
  }

  function MemberTrees(entries: seq<Entry>): (r: seq<Pair>)
    ensures |r| == |entries|
    decreases entries, 3
  {
    if entries == [] then []
    else [Pair(if entries[0].Member? then Quote(entries[0].inside) else "", TreeOf(entries[0].value))]
         + MemberTrees(entries[1..])
  }

  /** The events of the entries, in order. */
  function EntryEvents(e: Entry): seq<Action> {
    (if e.Member? then [NewName(Quote(e.inside))] else []) + Events(TreeOf(e.value))
  }

  function EntriesEvents(entries: seq<Entry>): seq<Action> {
    if entries == [] then [] else EntryEvents(entries[0]) + EntriesEvents(entries[1..])
  }

  lemma {:induction false} EntriesAreTrees(kind: Kind, entries: seq<Entry>)
    requires AreMore(kind, entries) || AreEntries(kind, entries)
    ensures kind.Arr? ==> EntriesEvents(entries) == ItemEvents(ItemTrees(entries))
    ensures kind.Obj? ==> EntriesEvents(entries) == MemberEvents(MemberTrees(entries))
  {
    if entries != [] {
      var e, rest := entries[0], entries[1..];
      EntriesAreTrees(kind, rest);
      assert ItemTrees(entries)[1..] == ItemTrees(rest) && MemberTrees(entries)[1..] == MemberTrees(rest);
      assert IsEntry(kind, e);
      assert kind.Arr? ==> EntryEvents(e) == [] + Events(TreeOf(e.value)) == Events(TreeOf(e.value));
    }
  }

  lemma CompoundEvents(kind: Kind, entries: seq<Entry>, tail: seq<Blank>)
    requires AreEntries(kind, entries)
    ensures Events(BodyTree(Compound(kind, entries, tail))) == Bracketed(kind, EntriesEvents(entries))
  {
    EntriesAreTrees(kind, entries);
  }

  lemma {:induction false} TreeIsTokens(x: Spelling)
    requires IsSpelling(x)
    ensures IsTokenTree(TreeOf(x))
    decreases x, 1
  {
    match x.body
    case Compound(kind, entries, _) =>
      TreesAreTokens(kind, entries);
      if kind.Arr? {
        assert TreeOf(x) == Array(ItemTrees(entries));
      } else {
        assert TreeOf(x) == Object(MemberTrees(entries));
      }
    case _ =>
  }

  lemma {:induction false} TreesAreTokens(kind: Kind, entries: seq<Entry>)
    requires AreMore(kind, entries) || AreEntries(kind, entries)
    ensures kind.Arr? ==> forall i :: 0 <= i < |entries| ==> IsTokenTree(ItemTrees(entries)[i])
    ensures kind.Obj? ==> forall i :: 0 <= i < |entries| ==>
              |MemberTrees(entries)[i].name| >= 2 && IsTokenTree(MemberTrees(entries)[i].value)
    decreases entries, 3
  {
    if entries != [] {
      assert IsEntry(kind, entries[0]) && IsSpelling(entries[0].value);
      TreeIsTokens(entries[0].value);
      TreesAreTokens(kind, entries[1..]);
    }
  }

  // ----- blanks and tokens

  lemma Regroup(a: string, b: string, c: string)
    ensures (a + b) + c == a + (b + c)
  {
  }

  lemma Cut(a: string, b: string)
    ensures (a + b)[..|a|] == a && (a + b)[|a|..] == b
  {
  }

  /** Blanks before something can stand before anything else. */
  lemma {:induction false} BlanksBefore(bs: seq<Blank>, a: string, b: string)
    requires a != "" && b != "" && AreBlanks(bs, a)
    ensures AreBlanks(bs, b)
  {
    if bs != [] {
      BlanksBefore(bs[1..], a, b);
    }
  }

  lemma BlanksSkipped(bs: seq<Blank>, token: string, rest: string)
    requires token != "" && IsMark(token[0]) && AreBlanks(bs, token)
    ensures Skip((BlanksText(bs) + token) + rest) == token + rest
  {
    var t := token + rest;
    BlanksBefore(bs, token, t);
    SkipBlanks(bs, t);
    Regroup(BlanksText(bs), token, rest);
    SkipMark(t);
  }

  lemma SkipMark(t: string)
    requires t != "" && IsMark(t[0])
    ensures Skip(t) == t
  {
  }

  lemma {:induction false} InsideLength(inside: string, rest: string)
    requires IsInside(inside)
    ensures TokenLength(inside + (['"'] + rest)) == |inside|
    decreases |inside|
  {
    var s := inside + (['"'] + rest);
    if inside == "" {
      assert s == ['"'] + rest;
    } else if inside[0] == '\\' {
      assert s[2..] == inside[2..] + (['"'] + rest);
      InsideLength(inside[2..], rest);
    } else {
      assert s[1..] == inside[1..] + (['"'] + rest);
      InsideLength(inside[1..], rest);
    }
  }

  lemma QuoteRead(inside: string, rest: string)
    requires IsInside(inside)
    ensures var t := Quote(inside) + rest; StringToken(t) == Some(|Quote(inside)|)
  {
    var behind := inside + (['"'] + rest);
    Regroup(['"'], inside + ['"'], rest);
    Regroup(inside, ['"'], rest);
    Cut(['"'], behind);
    InsideLength(inside, rest);
    assert (['"'] + behind)[1 + |inside|] == '"';
  }

  lemma {:induction false} LengthIsInside(s: string)
    requires TokenLength(s) < |s| && s[TokenLength(s)] == '"'
    ensures IsInside(s[..TokenLength(s)])
    decreases |s|
  {
    var n := TokenLength(s);
    if s[0] == '\\' {
      LengthIsInside(s[2..]);
      assert s[..n][2..] == s[2..][..n - 2];
    } else if s[0] != '"' {
      LengthIsInside(s[1..]);
      assert s[..n][1..] == s[1..][..n - 1];
    }
  }

  /** A string token is a quotation. */
  lemma TokenIsQuote(t: string) returns (inside: string)
    requires StringToken(t).Some?
    ensures IsInside(inside) && t[..StringToken(t).value] == Quote(inside)
  {
    var n := TokenLength(t[1..]);
    LengthIsInside(t[1..]);
    inside := t[1..][..n];
    assert t[..n + 2] == ['"'] + (t[1..][..n] + [t[n + 1]]);
  }

  lemma NumeralEvents(sign: string, digits: string, rest: string)
    requires IsBody(Numeral(sign, digits))
    ensures NumberAction(sign != "", sign == "-", Read(digits), rest) ==
            Match(Events(BodyTree(Numeral(sign, digits))), rest)
  {
  }

  lemma NumeralRead(sign: string, digits: string, rest: string)
    requires IsBody(Numeral(sign, digits)) && EndsNumber(rest)
    ensures Number((sign + digits) + rest) == Match(Events(BodyTree(Numeral(sign, digits))), rest)
  {
    NumeralEvents(sign, digits, rest);
    if sign == "" {
      assert sign + digits == digits;
      UnsignedDigitsRead(digits, rest);
    } else {
      Regroup(sign, digits, rest);
      assert sign == [sign[0]];
      SignedDigitsRead(sign[0], digits, rest);
    }
  }

  /** The digits a number is read from. */
  lemma BehindIsNumeral(sign: string, ds: string) returns (digits: string, rest: string)
    requires sign == "" || sign == "-" || sign == "+"
    requires NumberBehind(sign != "", sign == "-", ds).Match?
    ensures IsBody(Numeral(sign, digits)) && ds == digits + rest && EndsNumber(rest)
    ensures NumberBehind(sign != "", sign == "-", ds) == Match(Events(BodyTree(Numeral(sign, digits))), rest)
  {
    var k := LeadingDigits(ds);
    digits, rest := ds[..k], ds[k..];
  }

  lemma NumberIsNumeral(t: string) returns (sign: string, digits: string, rest: string)
    requires Number(t).Match?
    ensures IsBody(Numeral(sign, digits)) && t == (sign + digits) + rest && EndsNumber(rest)
    ensures Number(t) == Match(Events(BodyTree(Numeral(sign, digits))), rest)
  {
    if IsSign(t[0]) {
      sign := [t[0]];
      digits, rest := BehindIsNumeral(sign, t[1..]);
    } else {
      sign := "";
      digits, rest := BehindIsNumeral(sign, t);
    }
    Regroup(sign, digits, rest);
  }

  // ----- every spelling is read

  /** What may stand behind an entry: blanks, a comma or a closing bracket. */
  predicate Separates(s: string) {
    s != "" && (IsSpace(s[0]) || s[0] == '/' || s[0] == ',' || s[0] == ']' || s[0] == '}')
  }

  lemma BlanksSeparate(bs: seq<Blank>, s: string, rest: string)
    requires AreBlanks(bs, rest) && Separates(s)
    ensures Separates(BlanksText(bs) + s)
  {
    if bs == [] {
      assert BlanksText(bs) + s == s;
    }
  }

  lemma MoreSeparates(kind: Kind, entries: seq<Entry>, end: string)
    requires AreMore(kind, entries) && Separates(end)
    ensures Separates(MoreText(entries) + end)
  {
    if entries == [] {
      assert MoreText(entries) + end == end;
    } else {
      var x := [','] + (EntryText(entries[0]) + MoreText(entries[1..]));
      BlanksSeparate(entries[0].gap, x, [',']);
      assert (MoreText(entries) + end)[0] == MoreText(entries)[0];
    }
  }

  predicate Follows(body: Body, rest: string) {
    body.Numeral? ==> EndsNumber(rest)
  }

  lemma BodyMark(body: Body)
    requires IsBody(body)
    ensures BodyText(body) != "" && IsMark(BodyText(body)[0])
  {
    match body
    case Numeral(sign, digits) =>
      assert IsDigit(digits[0]);
      assert sign == "" ==> sign + digits == digits;
    case _ =>
  }

  /** The text of the closing blanks and bracket, and what follows them. */
  predicate Closes(kind: Kind, end: string, rest: string) {
    Separates(end) && Skip(end) == [Closing(kind)] + rest
  }

  lemma ScalarIsRead(body: Body, s: string, rest: string)
    requires IsBody(body) && !body.Compound? && Follows(body, rest) && Skip(s) == BodyText(body) + rest
    ensures ParseValue(s) == Match(Events(BodyTree(body)), rest)
  {
    BodyMark(body);
    match body
    case Nothing => LiteralRead("null", rest);
    case Truth(b) => LiteralRead(if b then "true" else "false", rest);
    case Numeral(sign, digits) =>
      NumeralRead(sign, digits, rest);
      assert BodyText(body)[0] != '"';
    case Quotation(inside) =>
      QuoteRead(inside, rest);
      Cut(Quote(inside), rest);
  }

  lemma {:induction false} SpellingIsRead(x: Spelling, rest: string)
    requires IsSpelling(x) && Follows(x.body, rest)
    ensures ParseValue(SpellingText(x) + rest) == Match(Events(TreeOf(x)), rest)
    decreases x, 1
  {
    var s := SpellingText(x) + rest;
    BodyMark(x.body);
    BlanksSkipped(x.lead, BodyText(x.body), rest);
    if x.body.Compound? {
      CompoundIsRead(x.body, s, rest);
    } else {
      ScalarIsRead(x.body, s, rest);
    }
  }

  lemma CompoundText(open: string, entries: string, tail: string, close: string, rest: string)
    ensures (open + (entries + (tail + close))) + rest == open + (entries + ((tail + close) + rest))
  {
  }

  lemma TailCloses(kind: Kind, tail: seq<Blank>, rest: string)
    requires AreBlanks(tail, [Closing(kind)])
    ensures Closes(kind, (BlanksText(tail) + [Closing(kind)]) + rest, rest)
  {
    var end := BlanksText(tail) + [Closing(kind)];
    BlanksSkipped(tail, [Closing(kind)], rest);
    BlanksSeparate(tail, [Closing(kind)], [Closing(kind)]);
    assert (end + rest)[0] == end[0];
  }

  lemma {:induction false} CompoundIsRead(body: Body, s: string, rest: string)
    requires body.Compound? && IsBody(body) && Skip(s) == BodyText(body) + rest
    ensures ParseValue(s) == Match(Events(BodyTree(body)), rest)
    decreases body, 0
  {
    var kind, entries, tail := body.kind, body.entries, body.tail;
    var end := (BlanksText(tail) + [Closing(kind)]) + rest;
    TailCloses(kind, tail, rest);
    EntriesAreRead(kind, entries, end, rest);
    CompoundText([Opening(kind)], EntriesText(entries), BlanksText(tail), [Closing(kind)], rest);
    Cut([Opening(kind)], EntriesText(entries) + end);
    CompoundRead(kind, s, rest);
    CompoundEvents(kind, entries, tail);
  }

  lemma {:induction false} EntryIsRead(kind: Kind, e: Entry, rest: string)
    requires IsEntry(kind, e) && EndsNumber(rest)
    ensures ParseItem(kind, EntryText(e) + rest) == Match(EntryEvents(e), rest)
    decreases e, 2
  {
    SpellingIsRead(e.value, rest);
    if e.Item? {
      assert [] + Events(TreeOf(e.value)) == Events(TreeOf(e.value));
    } else {
      MemberIsRead(e, rest);
    }
  }

  lemma PairOf(s: string, n: nat, after: string)
    requires StringToken(Skip(s)) == Some(n) && Skip(Skip(s)[n..]) == [':'] + after && ParseValue(after).Match?
    ensures ParsePair(s) == Prepend([NewName(Skip(s)[..n])], ParseValue(after))
  {
    Cut([':'], after);
  }

  lemma MemberParts(lead: string, quote: string, colon: string, mark: string, value: string, rest: string)
    ensures (lead + (quote + (colon + (mark + value)))) + rest == (lead + quote) + ((colon + mark) + (value + rest))
  {
  }

  lemma MemberIsRead(e: Entry, rest: string)
    requires e.Member? && IsEntry(Obj, e)
    requires ParseValue(SpellingText(e.value) + rest) == Match(Events(TreeOf(e.value)), rest)
    ensures ParsePair(EntryText(e) + rest) == Match(EntryEvents(e), rest)
  {
    var q, after := Quote(e.inside), SpellingText(e.value) + rest;
    var behind := (BlanksText(e.colon) + [':']) + after;
    MemberParts(BlanksText(e.lead), q, BlanksText(e.colon), [':'], SpellingText(e.value), rest);
    BlanksSkipped(e.lead, q, behind);
    QuoteRead(e.inside, behind);
    Cut(q, behind);
    BlanksSkipped(e.colon, [':'], after);
    PairOf(EntryText(e) + rest, |q|, after);
  }

  lemma ItemsOf(kind: Kind, s: string, events: seq<Action>, more: string)
    requires ParseItem(kind, s) == Match(events, more)
    ensures ParseItems(kind, s) == Prepend(events, ParseMore(kind, more))
  {
  }

  lemma {:induction false} EntriesAreRead(kind: Kind, entries: seq<Entry>, end: string, rest: string)
    requires AreEntries(kind, entries) && Closes(kind, end, rest)
    ensures ParseItems(kind, EntriesText(entries) + end) == Match(EntriesEvents(entries), end)
    decreases entries, 4
  {
    if entries == [] {
      assert EntriesText(entries) + end == end;
      NoItem(kind, end, rest);
    } else {
      var e, more := entries[0], MoreText(entries[1..]) + end;
      MoreSeparates(kind, entries[1..], end);
      EntryIsRead(kind, e, more);
      MoreIsRead(kind, entries[1..], end, rest);
      Regroup(EntryText(e), MoreText(entries[1..]), end);
      ItemsOf(kind, EntryText(e) + more, EntryEvents(e), more);
    }
  }

  lemma MoreParts(gap: string, comma: string, entry: string, more: string, end: string)
    ensures (gap + (comma + (entry + more))) + end == (gap + comma) + (entry + (more + end))
  {
  }

  lemma {:induction false} MoreIsRead(kind: Kind, entries: seq<Entry>, end: string, rest: string)
    requires AreMore(kind, entries) && Closes(kind, end, rest)
    ensures ParseMore(kind, MoreText(entries) + end) == Match(EntriesEvents(entries), end)
    decreases entries, 3
  {
    if entries == [] {
      assert MoreText(entries) + end == end;
    } else {
      var e, more := entries[0], MoreText(entries[1..]) + end;
      var s, item := MoreText(entries) + end, EntryText(e) + more;
      MoreSeparates(kind, entries[1..], end);
      EntryIsRead(kind, e, more);
      MoreIsRead(kind, entries[1..], end, rest);
      MoreParts(BlanksText(e.gap), [','], EntryText(e), MoreText(entries[1..]), end);
      BlanksSkipped(e.gap, [','], item);
      MoreOf(kind, s, item, EntryEvents(e), more);
    }
  }

  // ----- whatever is read is a spelling

  /** The spelling is what `r` has consumed of `s`, and its tree is what `r` has announced. */
  ghost predicate Spells(x: Spelling, s: string, r: Outcome) {
    && r.Match? && IsSpelling(x) && Follows(x.body, r.rest)
    && s == SpellingText(x) + r.rest && r.actions == Events(TreeOf(x))
  }

  lemma SpellsBehind(x: Spelling, s: string, t: string, r: Outcome)
    requires r.Match? && IsBody(x.body) && Follows(x.body, r.rest)
    requires t == BodyText(x.body) + r.rest && r.actions == Events(BodyTree(x.body))
    requires s == BlanksText(x.lead) + t && AreBlanks(x.lead, t)
    ensures Spells(x, s, r)
  {
    BodyMark(x.body);
    assert t != "";
    BlanksBefore(x.lead, t, BodyText(x.body));
    Regroup(BlanksText(x.lead), BodyText(x.body), r.rest);
  }

  /** The same for a body, behind the blanks. */
  ghost predicate SpellsBody(body: Body, t: string, r: Outcome) {
    && r.Match? && IsBody(body) && Follows(body, r.rest)
    && t == BodyText(body) + r.rest && r.actions == Events(BodyTree(body))
  }

  lemma WordIsSpelling(s: string) returns (body: Body)
    requires ParseValue(s).Match?
    requires var t := Skip(s); StringToken(t).None? && Number(t).NoMatch? && t[0] != '{' && t[0] != '['
    ensures SpellsBody(body, Skip(s), ParseValue(s))
  {
    var t := Skip(s);
    body := if StartsWith(t, "null") then Nothing else Truth(StartsWith(t, "true"));
    assert t == t[..4] + t[4..];
    assert StartsWith(t, "false") ==> t == t[..5] + t[5..];
  }

  lemma {:induction false} ReadIsBody(s: string) returns (body: Body)
    requires ParseValue(s).Match?
    ensures SpellsBody(body, Skip(s), ParseValue(s))
    decreases |s|, 4, 0
  {
    var t := Skip(s);
    if StringToken(t).Some? {
      var inside := TokenIsQuote(t);
      body := Quotation(inside);
    } else if Number(t) != NoMatch {
      var sign, digits, rest := NumberIsNumeral(t);
      body := Numeral(sign, digits);
    } else if t[0] == '{' {
      body := ReadIsCompound(Obj, t);
    } else if t[0] == '[' {
      body := ReadIsCompound(Arr, t);
    } else {
      body := WordIsSpelling(s);
    }
  }

  lemma {:induction false} ReadIsSpelling(s: string) returns (x: Spelling)
    requires ParseValue(s).Match?
    ensures Spells(x, s, ParseValue(s))
    decreases |s|, 4, 1
  {
    var lead := SkippedAreBlanks(s);
    var body := ReadIsBody(s);
    x := Spelling(lead, body);
    SpellsBehind(x, s, Skip(s), ParseValue(s));
  }

  lemma CompoundOf(kind: Kind, t: string)
    requires t != "" && ParseCompound(kind, t).Match?
    ensures var items := ParseItems(kind, t[1..]);
            && items.Match? && Skip(items.rest) != "" && Skip(items.rest)[0] == Closing(kind)
            && ParseCompound(kind, t) == Match(Bracketed(kind, items.actions), Skip(items.rest)[1..])
  {
  }

  /** The entries are what `r` has consumed of `s`, and their events are what `r` has announced. */
  ghost predicate SpellsEntries(kind: Kind, entries: seq<Entry>, s: string, r: Outcome) {
    r.Match? && AreEntries(kind, entries) && s == EntriesText(entries) + r.rest && r.actions == EntriesEvents(entries)
  }

  ghost predicate SpellsMore(kind: Kind, entries: seq<Entry>, s: string, r: Outcome) {
    r.Match? && AreMore(kind, entries) && s == MoreText(entries) + r.rest && r.actions == EntriesEvents(entries)
  }

  ghost predicate SpellsEntry(kind: Kind, e: Entry, s: string, r: Outcome) {
    r.Match? && IsEntry(kind, e) && s == EntryText(e) + r.rest && r.actions == EntryEvents(e)
  }

  lemma EntriesJoined(kind: Kind, e: Entry, entries: seq<Entry>, s: string, first: Outcome, more: Outcome)
    requires e.gap == [] && SpellsEntry(kind, e, s, first) && SpellsMore(kind, entries, first.rest, more)
    ensures SpellsEntries(kind, [e] + entries, s, Match(first.actions + more.actions, more.rest))
  {
    assert ([e] + entries)[1..] == entries;
    Regroup(EntryText(e), MoreText(entries), more.rest);
  }

  lemma MoreJoined(kind: Kind, e: Entry, entries: seq<Entry>, s: string, item: string, first: Outcome, more: Outcome)
    requires AreBlanks(e.gap, [','] + item) && s == BlanksText(e.gap) + ([','] + item)
    requires SpellsEntry(kind, e, item, first) && SpellsMore(kind, entries, first.rest, more)
    ensures SpellsMore(kind, [e] + entries, s, Match(first.actions + more.actions, more.rest))
  {
    BlanksBefore(e.gap, [','] + item, [',']);
    assert ([e] + entries)[1..] == entries;
    Regroup(BlanksText(e.gap), [','], item);
    MoreParts(BlanksText(e.gap), [','], EntryText(e), MoreText(entries), more.rest);
  }

  /** Brackets, entries and blanks put together. */
  lemma CompoundJoined(kind: Kind, t: string, entries: seq<Entry>, tail: seq<Blank>, items: Outcome, u: string)
    requires t != "" && t[0] == Opening(kind) && SpellsEntries(kind, entries, t[1..], items)
    requires AreBlanks(tail, u) && items.rest == BlanksText(tail) + u && u != "" && u[0] == Closing(kind)
    ensures SpellsBody(Compound(kind, entries, tail), t, Match(Bracketed(kind, items.actions), u[1..]))
  {
    BlanksBefore(tail, u, [Closing(kind)]);
    CompoundEvents(kind, entries, tail);
    assert t == [t[0]] + t[1..] && u == [u[0]] + u[1..];
    Regroup(BlanksText(tail), [Closing(kind)], u[1..]);
    CompoundText([Opening(kind)], EntriesText(entries), BlanksText(tail), [Closing(kind)], u[1..]);
  }

  lemma {:induction false} ReadIsCompound(kind: Kind, t: string) returns (body: Body)
    requires t != "" && t[0] == Opening(kind) && ParseCompound(kind, t).Match?
    ensures SpellsBody(body, t, ParseCompound(kind, t))
    decreases |t|, 3
  {
    CompoundOf(kind, t);
    var items := ParseItems(kind, t[1..]);
    var entries := ReadAreEntries(kind, t[1..]);
    var tail := SkippedAreBlanks(items.rest);
    body := Compound(kind, entries, tail);
    CompoundJoined(kind, t, entries, tail, items, Skip(items.rest));
  }

  lemma {:induction false} ReadAreEntries(kind: Kind, s: string) returns (entries: seq<Entry>)
    requires ParseItems(kind, s).Match?
    ensures SpellsEntries(kind, entries, s, ParseItems(kind, s))
    decreases |s|, 6
  {
    var first := ParseItem(kind, s);
    if first.Match? {
      var e := ReadIsEntry(kind, s, []);
      var more := ReadAreMore(kind, first.rest);
      entries := [e] + more;
      EntriesJoined(kind, e, more, s, first, ParseMore(kind, first.rest));
    } else {
      entries := [];
      assert EntriesText([]) + s == s;
    }
  }

  predicate GoesOn(kind: Kind, s: string) {
    var t := Skip(s);
    t != "" && t[0] == ',' && ParseItem(kind, t[1..]).Match?
  }

  lemma MoreOutcome(kind: Kind, s: string)
    requires ParseMore(kind, s).Match?
    ensures GoesOn(kind, s) ==>
              var first := ParseItem(kind, Skip(s)[1..]);
              var more := ParseMore(kind, first.rest);
              more.Match? && ParseMore(kind, s) == Match(first.actions + more.actions, more.rest)
    ensures !GoesOn(kind, s) ==> ParseMore(kind, s) == Match([], s)
  {
  }

  lemma BlanksAndComma(s: string) returns (gap: seq<Blank>, item: string)
    requires Skip(s) != "" && Skip(s)[0] == ','
    ensures item == Skip(s)[1..] && |item| < |s|
    ensures AreBlanks(gap, [','] + item) && s == BlanksText(gap) + ([','] + item)
  {
    gap := SkippedAreBlanks(s);
    item := Skip(s)[1..];
    assert Skip(s) == [','] + item;
  }

  lemma {:induction false} ReadAreMore(kind: Kind, s: string) returns (entries: seq<Entry>)
    requires ParseMore(kind, s).Match?
    ensures SpellsMore(kind, entries, s, ParseMore(kind, s))
    decreases |s|, 0
  {
    MoreOutcome(kind, s);
    if GoesOn(kind, s) {
      var gap, item := BlanksAndComma(s);
      var first := ParseItem(kind, item);
      var e := ReadIsEntry(kind, item, gap);
      var more := ReadAreMore(kind, first.rest);
      entries := [e] + more;
      MoreJoined(kind, e, more, s, item, first, ParseMore(kind, first.rest));
    } else {
      entries := [];
      assert MoreText([]) + s == s;
    }
  }

  lemma {:induction false} ReadIsEntry(kind: Kind, s: string, gap: seq<Blank>) returns (e: Entry)
    requires ParseItem(kind, s).Match?
    ensures e.gap == gap && SpellsEntry(kind, e, s, ParseItem(kind, s))
    decreases |s|, 5
  {
    if kind.Arr? {
      var x := ReadIsSpelling(s);
      e := Item(gap, x);
      assert [] + Events(TreeOf(x)) == Events(TreeOf(x));
    } else {
      e := ReadIsMember(s, gap);
    }
  }

  lemma {:induction false} ReadIsMember(s: string, gap: seq<Blank>) returns (e: Entry)
    requires ParsePair(s).Match?
    ensures e.gap == gap && SpellsEntry(Obj, e, s, ParsePair(s))
    decreases |s|, 2
  {
    var t := Skip(s);
    var n := StringToken(t).value;
    var u := Skip(t[n..]);
    var lead := SkippedAreBlanks(s);
    var inside := TokenIsQuote(t);
    var colon := SkippedAreBlanks(t[n..]);
    var x := ReadIsSpelling(u[1..]);
    e := Member(gap, lead, inside, colon, x);
    MemberJoined(e, s, t, n, u, ParseValue(u[1..]));
  }

  lemma MemberJoined(e: Entry, s: string, t: string, n: nat, u: string, value: Outcome)
    requires e.Member? && IsInside(e.inside) && AreBlanks(e.lead, t) && AreBlanks(e.colon, u)
    requires s == BlanksText(e.lead) + t && n <= |t| && t[..n] == Quote(e.inside)
    requires t[n..] == BlanksText(e.colon) + u && u != "" && u[0] == ':'
    requires Spells(e.value, u[1..], value)
    ensures SpellsEntry(Obj, e, s, Prepend([NewName(t[..n])], value))
  {
    BlanksBefore(e.lead, t, Quote(e.inside));
    BlanksBefore(e.colon, u, [':']);
    assert t == t[..n] + t[n..] && u == [':'] + u[1..];
    var lead, q, colon := BlanksText(e.lead), Quote(e.inside), BlanksText(e.colon);
    MemberParts(lead, q, colon, [':'], SpellingText(e.value), value.rest);
    Regroup(lead, q, t[n..]);
    Regroup(colon, [':'], u[1..]);
  }

  // ----- the accepted language

  /** The value a spelling stands for. */
  function Meaning(x: Spelling): Value
    requires IsSpelling(x)
  {
    TreeIsTokens(x);
    Decode(TreeOf(x))
  }

  /**
    A value is read from the front of a text, leaving `rest`, exactly if a spelling stands there, not cut off inside
    a number; and the actions are then the events of the tree it spells.
    */
  lemma ReadsExactlySpellings(s: string, actions: seq<Action>, rest: string)
    ensures ParseJson(s) == Match(actions, rest) <==> exists x :: Spells(x, s, Match(actions, rest))
  {
    var r := Match(actions, rest);
    if ParseJson(s) == r {
      var x := ReadIsSpelling(s);
      assert Spells(x, s, r);
    }
    if x :| Spells(x, s, r) {
      SpellingIsRead(x, rest);
    }
  }

  ghost predicate StartsWithSpelling(s: string) {
    exists x, rest :: Spells(x, s, Match(Events(TreeOf(x)), rest))
  }

  /** The accepted texts are exactly those that start with a spelling. */
  lemma AcceptedExactly(s: string)
    ensures ParseJson(s).Match? <==> StartsWithSpelling(s)
  {
    if ParseJson(s).Match? {
      var x := ReadIsSpelling(s);
      assert Spells(x, s, Match(Events(TreeOf(x)), ParseJson(s).rest));
    }
    if x, rest :| Spells(x, s, Match(Events(TreeOf(x)), rest)) {
      SpellingIsRead(x, rest);
    }
  }
}
