/** Which requests the parser accepts, and what it makes of them. */
module HttpRoundTrip {
  import opened Decimal
  import opened HttpRequest

  // ----- request texts (RFC 1945 section 5, with the folding of section 2.2)

  datatype Fold = Fold(space: string, piece: string)

  datatype HeaderText = HeaderText(name: string, first: string, folds: seq<Fold>)

  datatype RequestText = RequestText(verb: string, uri: string, major: string, minor: string, headers: seq<HeaderText>)

  const CRLF := "\r\n"

  function FoldsText(folds: seq<Fold>): string {
    if folds == [] then ""
    else
      var last := folds[|folds| - 1];
      FoldsText(folds[..|folds| - 1]) + CRLF + last.space + last.piece
  }

  function Line(h: HeaderText): string {
    h.name + ": " + h.first + FoldsText(h.folds)
  }

  function Lines(headers: seq<HeaderText>): string {
    if headers == [] then ""
    else Lines(headers[..|headers| - 1]) + Line(headers[|headers| - 1]) + CRLF
  }

  function StartLine(t: RequestText): string {
    t.verb + " " + t.uri + " HTTP/" + t.major + "." + t.minor
  }

  function Print(t: RequestText): string {
    StartLine(t) + CRLF + Lines(t.headers) + CRLF
  }

  predicate IsToken(s: string) {
    forall i :: 0 <= i < |s| ==> IsTokenChar(s[i])
  }

  predicate NoCtl(s: string) {
    forall i :: 0 <= i < |s| ==> !IsCtl(s[i])
  }

  predicate IsUri(s: string) {
    forall i :: 0 <= i < |s| ==> s[i] != ' ' && !IsCtl(s[i])
  }

  predicate IsLws(s: string) {
    forall i :: 0 <= i < |s| ==> s[i] == ' ' || s[i] == '\t'
  }

  predicate IsFold(f: Fold) {
    f.space != "" && IsLws(f.space) && NoCtl(f.piece) && (f.piece != "" ==> f.piece[0] != ' ')
  }

  predicate IsHeader(h: HeaderText) {
    && h.name != "" && IsToken(h.name) && NoCtl(h.first)
    && forall i :: 0 <= i < |h.folds| ==> IsFold(h.folds[i])
  }

  predicate AreHeaders(headers: seq<HeaderText>) {
    forall i :: 0 <= i < |headers| ==> IsHeader(headers[i])
  }

  predicate WellFormed(t: RequestText) {
    && t.verb != "" && IsToken(t.verb) && IsUri(t.uri)
    && t.major != "" && AllDigits(t.major) && t.minor != "" && AllDigits(t.minor)
    && AreHeaders(t.headers)
  }

  function Pieces(folds: seq<Fold>): string {
    if folds == [] then "" else Pieces(folds[..|folds| - 1]) + folds[|folds| - 1].piece
  }

  function HeaderOf(h: HeaderText): Header {
    Header(h.name, h.first + Pieces(h.folds))
  }

  function HeadersOf(headers: seq<HeaderText>): (r: seq<Header>)
    ensures |r| == |headers|
  {
    seq(|headers|, i requires 0 <= i < |headers| => HeaderOf(headers[i]))
  }

  /** What a request text means: versions as numbers, folded values joined. */
  function Meaning(t: RequestText): RequestValue
    requires AllDigits(t.major) && AllDigits(t.minor)
  {
    RequestValue(t.verb, t.uri, Read(t.major), Read(t.minor), HeadersOf(t.headers))
  }

  // ----- a text read in part: the parser's state, the parts read so far and the white space of a fold being read

  datatype Partial = Partial(state: State, t: RequestText, space: string)

  const EMPTY := RequestText("", "", "", "", [])

  predicate BeforeVersion(s: State) {
    || s.MethodStart? || s.Method? || s.Uri?
    || s.VersionH? || s.VersionT1? || s.VersionT2? || s.VersionP? || s.VersionSlash?
  }

  /** The parts that a state has read are well formed, and the others are still empty. */
  predicate Valid(p: Partial) {
    var t := p.t;
    && IsToken(t.verb) && IsUri(t.uri) && AllDigits(t.major) && AllDigits(t.minor)
    && (if p.state.HeaderLws? then p.space != "" && IsLws(p.space) else p.space == "")
    && (match p.state
        case MethodStart => t == EMPTY
        case Method => t.verb != "" && t == EMPTY.(verb := t.verb)
        case Uri => t.verb != "" && t == EMPTY.(verb := t.verb, uri := t.uri)
        case Major => t.verb != "" && t.major != "" && t.minor == "" && t.headers == []
        case MinorStart => t.verb != "" && t.major != "" && t.minor == "" && t.headers == []
        case Minor => t.verb != "" && t.major != "" && t.minor != "" && t.headers == []
        case ExpectingNewline1 => WellFormed(t) && t.headers == []
        case HeaderLineStart => WellFormed(t)
        case HeaderLws => WellFormed(t) && t.headers != []
        case HeaderName => WellFormed(t) && t.headers != [] && Fresh(t.headers[|t.headers| - 1])
        case SpaceBeforeHeaderValue => WellFormed(t) && t.headers != [] && Fresh(t.headers[|t.headers| - 1])
        case HeaderValue => WellFormed(t) && t.headers != [] && InValue(t.headers[|t.headers| - 1])
        case ExpectingNewline2 => WellFormed(t) && t.headers != []
        case ExpectingNewline3 => WellFormed(t)
        case _ => t.verb != "" && t == EMPTY.(verb := t.verb, uri := t.uri))
  }

  predicate Fresh(h: HeaderText) {
    h.first == "" && h.folds == []
  }

  predicate InValue(h: HeaderText) {
    h.folds != [] ==> h.folds[|h.folds| - 1].piece != ""
  }

  function Front(t: RequestText): string
    requires t.headers != []
  {
    StartLine(t) + CRLF + Lines(t.headers[..|t.headers| - 1])
  }

  function Last(t: RequestText): HeaderText
    requires t.headers != []
  {
    t.headers[|t.headers| - 1]
  }

  function Text(p: Partial): string
    requires Valid(p)
  {
    var t := p.t;
    var target := t.verb + " " + t.uri;
    match p.state
    case MethodStart => ""
    case Method => t.verb
    case Uri => target
    case VersionH => target + " "
    case VersionT1 => target + " H"
    case VersionT2 => target + " HT"
    case VersionP => target + " HTT"
    case VersionSlash => target + " HTTP"
    case MajorStart => target + " HTTP/"
    case Major => target + " HTTP/" + t.major
    case MinorStart => target + " HTTP/" + t.major + "."
    case Minor => StartLine(t)
    case ExpectingNewline1 => StartLine(t) + "\r"
    case HeaderLineStart => StartLine(t) + CRLF + Lines(t.headers)
    case HeaderLws => StartLine(t) + CRLF + Lines(t.headers) + p.space
    case HeaderName => Front(t) + Last(t).name
    case SpaceBeforeHeaderValue => Front(t) + Last(t).name + ":"
    case HeaderValue => Front(t) + Line(Last(t))
    case ExpectingNewline2 => Front(t) + Line(Last(t)) + "\r"
    case ExpectingNewline3 => StartLine(t) + CRLF + Lines(t.headers) + "\r"
  }

  /** The parser that has read the partial text; before the slash the version fields still hold what they held. */
  function MachineOf(p: Partial, major: int, minor: int): Machine
    requires Valid(p)
  {
    var r := Meaning(p.t);
    Machine(p.state, if BeforeVersion(p.state) then r.(major := major, minor := minor) else r)
  }

  // ----- one byte more

  function WithLast(t: RequestText, h: HeaderText): RequestText
    requires t.headers != []
  {
    t.(headers := t.headers[|t.headers| - 1 := h])
  }

  function MoreValue(h: HeaderText, c: char): HeaderText {
    if h.folds == [] then h.(first := h.first + [c])
    else
      var k := |h.folds| - 1;
      h.(folds := h.folds[k := h.folds[k].(piece := h.folds[k].piece + [c])])
  }

  function MoreFold(h: HeaderText, f: Fold): HeaderText {
    h.(folds := h.folds + [f])
  }

  /** The partial text after one more byte that the parser does not refuse. */
  function Grown(p: Partial, c: char): Partial
    requires Valid(p)
  {
    var t := p.t;
    match p.state
    case MethodStart => Partial(Method, t.(verb := [c]), "")
    case Method => if c == ' ' then p.(state := Uri) else p.(t := t.(verb := t.verb + [c]))
    case Uri => if c == ' ' then p.(state := VersionH) else p.(t := t.(uri := t.uri + [c]))
    case VersionH => p.(state := VersionT1)
    case VersionT1 => p.(state := VersionT2)
    case VersionT2 => p.(state := VersionP)
    case VersionP => p.(state := VersionSlash)
    case VersionSlash => p.(state := MajorStart)
    case MajorStart => Partial(Major, t.(major := [c]), "")
    case Major => if c == '.' then p.(state := MinorStart) else p.(t := t.(major := t.major + [c]))
    case MinorStart => Partial(Minor, t.(minor := [c]), "")
    case Minor => if c == '\r' then p.(state := ExpectingNewline1) else p.(t := t.(minor := t.minor + [c]))
    case ExpectingNewline1 => p.(state := HeaderLineStart)
    case HeaderLineStart =>
      if c == '\r' then p.(state := ExpectingNewline3)
      else if t.headers != [] && (c == ' ' || c == '\t') then Partial(HeaderLws, t, [c])
      else Partial(HeaderName, t.(headers := t.headers + [HeaderText([c], "", [])]), "")
    case HeaderLws =>
      if c == '\r' then Partial(ExpectingNewline2, WithLast(t, MoreFold(Last(t), Fold(p.space, ""))), "")
      else if c == ' ' || c == '\t' then p.(space := p.space + [c])
      else Partial(HeaderValue, WithLast(t, MoreFold(Last(t), Fold(p.space, [c]))), "")
    case HeaderName =>
      if c == ':' then p.(state := SpaceBeforeHeaderValue)
      else p.(t := WithLast(t, Last(t).(name := Last(t).name + [c])))
    case SpaceBeforeHeaderValue => p.(state := HeaderValue)
    case HeaderValue =>
      if c == '\r' then p.(state := ExpectingNewline2)
      else p.(t := WithLast(t, MoreValue(Last(t), c)))
    case ExpectingNewline2 => p.(state := HeaderLineStart)
    case ExpectingNewline3 => p
  }

  lemma MoreValueText(h: HeaderText, c: char)
    ensures Line(MoreValue(h, c)) == Line(h) + [c]
    ensures HeaderOf(MoreValue(h, c)) == HeaderOf(h).(value := HeaderOf(h).value + [c])
  {
  }

  /** The parser takes the byte, and has then read exactly the partial text that the byte completes. */
  ghost predicate Grows(p: Partial, c: char, major: int, minor: int)
    requires Valid(p)
  {
    var m := MachineOf(p, major, minor);
    && Safe(m)
    && (Step(m, c).1 == Indeterminate ==>
          && Valid(Grown(p, c))
          && Text(Grown(p, c)) == Text(p) + [c]
          && Step(m, c).0 == MachineOf(Grown(p, c), major, minor))
  }

  lemma GrowsInMethod(p: Partial, c: char, major: int, minor: int)
    requires Valid(p) && (p.state.MethodStart? || p.state.Method?)
    ensures Grows(p, c, major, minor)
  {
  }

  lemma GrowsInUri(p: Partial, c: char, major: int, minor: int)
    requires Valid(p) && p.state.Uri?
    ensures Grows(p, c, major, minor)
  {
  }

  lemma GrowsBeforeVersion(p: Partial, c: char, major: int, minor: int)
    requires Valid(p) && BeforeVersion(p.state)
    requires !(p.state.MethodStart? || p.state.Method? || p.state.Uri?)
    ensures Grows(p, c, major, minor)
  {
  }

  lemma GrowsAtMajor(p: Partial, c: char, major: int, minor: int)
    requires Valid(p) && p.state.MajorStart?
    ensures Grows(p, c, major, minor)
  {
    if IsDigit(c) { ReadOne(c); }
  }

  lemma GrowsInMajor(p: Partial, c: char, major: int, minor: int)
    requires Valid(p) && p.state.Major?
    ensures Grows(p, c, major, minor)
  {
    if IsDigit(c) { ReadMore(p.t.major, c); }
  }

  lemma GrowsAtMinor(p: Partial, c: char, major: int, minor: int)
    requires Valid(p) && p.state.MinorStart?
    ensures Grows(p, c, major, minor)
  {
    if IsDigit(c) { ReadOne(c); }
  }

  lemma GrowsInMinor(p: Partial, c: char, major: int, minor: int)
    requires Valid(p) && p.state.Minor?
    ensures Grows(p, c, major, minor)
  {
    if IsDigit(c) { ReadMore(p.t.minor, c); }
  }

  lemma GrowsAtStartLineEnd(p: Partial, c: char, major: int, minor: int)
    requires Valid(p) && p.state.ExpectingNewline1?
    ensures Grows(p, c, major, minor)
  {
  }

  lemma GrowsAtHeaderEnd(p: Partial, c: char, major: int, minor: int)
    requires Valid(p) && p.state.ExpectingNewline2?
    ensures Grows(p, c, major, minor)
  {
    assert StartLine(p.t) + CRLF + Lines(p.t.headers) == Front(p.t) + Line(Last(p.t)) + "\r" + "\n";
  }

  /** The first byte of a header's name. */
  lemma NewHeader(t: RequestText, c: char)
    requires IsTokenChar(c)
    ensures var h, headers := HeaderText([c], "", []), t.headers + [HeaderText([c], "", [])];
            && HeadersOf(headers) == WithName(HeadersOf(t.headers) + [Header("", "")], c)
            && headers[..|headers| - 1] == t.headers && headers[|headers| - 1] == h
            && (AreHeaders(t.headers) ==> AreHeaders(headers))
  {
    var h := HeaderText([c], "", []);
    assert HeaderOf(h) == Header([c], "") && "" + [c] == [c];
    assert HeadersOf(t.headers + [h]) == HeadersOf(t.headers) + [HeaderOf(h)];
  }

  lemma NameStartsText(p: Partial, c: char)
    requires Valid(p) && p.state.HeaderLineStart? && IsTokenChar(c)
    ensures Valid(Grown(p, c)) && Text(Grown(p, c)) == Text(p) + [c]
  {
    var headers := p.t.headers + [HeaderText([c], "", [])];
    NewHeader(p.t, c);
    assert Grown(p, c) == Partial(HeaderName, p.t.(headers := headers), "");
  }

  lemma GrowsAtName(p: Partial, c: char, major: int, minor: int)
    requires Valid(p) && p.state.HeaderLineStart? && IsTokenChar(c)
    ensures Grows(p, c, major, minor)
  {
    NewHeader(p.t, c);
    NameStartsText(p, c);
  }

  lemma GrowsToFold(p: Partial, c: char, major: int, minor: int)
    requires Valid(p) && p.state.HeaderLineStart? && p.t.headers != [] && (c == ' ' || c == '\t')
    ensures Grows(p, c, major, minor)
  {
    assert Grown(p, c) == Partial(HeaderLws, p.t, [c]) && IsLws([c]);
  }

  lemma GrowsToEnd(p: Partial, major: int, minor: int)
    requires Valid(p) && p.state.HeaderLineStart?
    ensures Grows(p, '\r', major, minor)
  {
    assert Grown(p, '\r') == p.(state := ExpectingNewline3);
  }

  lemma GrowsAtLineStart(p: Partial, c: char, major: int, minor: int)
    requires Valid(p) && p.state.HeaderLineStart?
    ensures Grows(p, c, major, minor)
  {
    if IsTokenChar(c) {
      GrowsAtName(p, c, major, minor);
    } else if c == '\r' {
      GrowsToEnd(p, major, minor);
    } else if p.t.headers != [] && (c == ' ' || c == '\t') {
      GrowsToFold(p, c, major, minor);
    } else {
      assert Step(MachineOf(p, major, minor), c).1 == False;
    }
  }

  /** Replacing the last header in the text and in the parser. */
  lemma LastReplaced(t: RequestText, h: HeaderText)
    requires t.headers != []
    ensures Front(WithLast(t, h)) == Front(t) && Last(WithLast(t, h)) == h
    ensures Lines(t.headers) == Lines(t.headers[..|t.headers| - 1]) + Line(Last(t)) + CRLF
    ensures HeadersOf(WithLast(t, h).headers) == HeadersOf(t.headers)[|t.headers| - 1 := HeaderOf(h)]
    ensures AreHeaders(t.headers) && IsHeader(h) ==> AreHeaders(WithLast(t, h).headers)
  {
  }

  lemma GrowsInName(p: Partial, c: char, major: int, minor: int)
    requires Valid(p) && p.state.HeaderName?
    ensures Grows(p, c, major, minor)
  {
    if c != ':' && IsTokenChar(c) {
      NameGrows(p, c, major, minor);
    }
  }

  lemma NameGrows(p: Partial, c: char, major: int, minor: int)
    requires Valid(p) && p.state.HeaderName? && IsTokenChar(c)
    ensures Grows(p, c, major, minor)
  {
    var h := Last(p.t);
    var h' := h.(name := h.name + [c]);
    assert IsHeader(h') && Fresh(h') && HeaderOf(h') == HeaderOf(h).(name := h.name + [c]);
    LastReplaced(p.t, h');
    assert Grown(p, c) == p.(t := WithLast(p.t, h'));
  }

  lemma GrowsBeforeValue(p: Partial, c: char, major: int, minor: int)
    requires Valid(p) && p.state.SpaceBeforeHeaderValue?
    ensures Grows(p, c, major, minor)
  {
  }

  lemma GrowsInValue(p: Partial, c: char, major: int, minor: int)
    requires Valid(p) && p.state.HeaderValue?
    ensures Grows(p, c, major, minor)
  {
    if c != '\r' && !IsCtl(c) {
      ValueGrows(p, c, major, minor);
    }
  }

  lemma ValueGrows(p: Partial, c: char, major: int, minor: int)
    requires Valid(p) && p.state.HeaderValue? && !IsCtl(c)
    ensures Grows(p, c, major, minor)
  {
    var h := Last(p.t);
    MoreValueText(h, c);
    MoreValueIsHeader(h, c);
    LastReplaced(p.t, MoreValue(h, c));
    assert Grown(p, c) == p.(t := WithLast(p.t, MoreValue(h, c)));
  }

  lemma MoreValueIsHeader(h: HeaderText, c: char)
    requires IsHeader(h) && InValue(h) && !IsCtl(c)
    ensures IsHeader(MoreValue(h, c)) && InValue(MoreValue(h, c))
  {
  }

  lemma MoreFoldText(t: RequestText, f: Fold)
    requires t.headers != []
    ensures var t' := WithLast(t, MoreFold(Last(t), f));
            && Front(t') + Line(Last(t')) == StartLine(t) + CRLF + Lines(t.headers) + f.space + f.piece
            && HeaderOf(Last(t')) == HeaderOf(Last(t)).(value := HeaderOf(Last(t)).value + f.piece)
            && HeadersOf(t'.headers) == HeadersOf(t.headers)[|t.headers| - 1 := HeaderOf(Last(t'))]
            && (AreHeaders(t.headers) && IsFold(f) ==> AreHeaders(t'.headers))
  {
    var h := MoreFold(Last(t), f);
    LastReplaced(t, h);
    FoldedLine(Last(t), f);
    assert Front(t) + (Line(Last(t)) + CRLF + f.space + f.piece) ==
           (Front(t) + Line(Last(t)) + CRLF) + f.space + f.piece;
  }

  lemma FoldedLine(h: HeaderText, f: Fold)
    ensures Line(MoreFold(h, f)) == Line(h) + CRLF + f.space + f.piece
    ensures HeaderOf(MoreFold(h, f)) == HeaderOf(h).(value := HeaderOf(h).value + f.piece)
    ensures IsHeader(h) && IsFold(f) ==> IsHeader(MoreFold(h, f))
  {
  }

  lemma GrowsInLws(p: Partial, c: char, major: int, minor: int)
    requires Valid(p) && p.state.HeaderLws? && c != '\r' && (c == ' ' || IsCtl(c))
    ensures Grows(p, c, major, minor)
  {
  }

  lemma LwsEnds(p: Partial, major: int, minor: int)
    requires Valid(p) && p.state.HeaderLws?
    ensures Grows(p, '\r', major, minor)
  {
    var f := Fold(p.space, "");
    MoreFoldText(p.t, f);
    assert Text(p) + "" == Text(p);
    assert HeaderOf(Last(p.t)).value + "" == HeaderOf(Last(p.t)).value;
    assert HeadersOf(p.t.headers)[|p.t.headers| - 1 := HeaderOf(Last(p.t))] == HeadersOf(p.t.headers);
  }

  lemma FoldIsValue(t: RequestText, f: Fold, c: char)
    requires t.headers != [] && f.piece == [c]
    ensures HeadersOf(WithLast(t, MoreFold(Last(t), f)).headers) == WithValue(HeadersOf(t.headers), c)
  {
    MoreFoldText(t, f);
    FoldedLine(Last(t), f);
  }

  lemma LwsYieldsText(p: Partial, c: char)
    requires Valid(p) && p.state.HeaderLws? && c != ' ' && !IsCtl(c)
    ensures Valid(Grown(p, c)) && Text(Grown(p, c)) == Text(p) + [c]
  {
    var f := Fold(p.space, [c]);
    assert IsFold(f);
    MoreFoldText(p.t, f);
    var t := WithLast(p.t, MoreFold(Last(p.t), f));
    assert Grown(p, c) == Partial(HeaderValue, t, "") && Last(t).folds == Last(p.t).folds + [f];
  }

  lemma LwsYieldsStep(p: Partial, c: char, major: int, minor: int)
    requires Valid(p) && p.state.HeaderLws? && c != ' ' && !IsCtl(c)
    requires HeadersOf(Grown(p, c).t.headers) == WithValue(HeadersOf(p.t.headers), c) && Valid(Grown(p, c))
    ensures var m := MachineOf(p, major, minor);
            Safe(m) && Step(m, c) == (MachineOf(Grown(p, c), major, minor), Indeterminate)
  {
  }

  lemma LwsYields(p: Partial, c: char, major: int, minor: int)
    requires Valid(p) && p.state.HeaderLws? && c != ' ' && !IsCtl(c)
    ensures Grows(p, c, major, minor)
  {
    LwsYieldsText(p, c);
    FoldIsValue(p.t, Fold(p.space, [c]), c);
    LwsYieldsStep(p, c, major, minor);
  }

  lemma GrowsAtLws(p: Partial, c: char, major: int, minor: int)
    requires Valid(p) && p.state.HeaderLws?
    ensures Grows(p, c, major, minor)
  {
    if c == '\r' {
      LwsEnds(p, major, minor);
    } else if c == ' ' || IsCtl(c) {
      GrowsInLws(p, c, major, minor);
    } else {
      LwsYields(p, c, major, minor);
    }
  }

  lemma StepGrows(p: Partial, c: char, major: int, minor: int)
    requires Valid(p) && !p.state.ExpectingNewline3?
    ensures Grows(p, c, major, minor)
  {
    if BeforeVersion(p.state) {
      if p.state.MethodStart? || p.state.Method? {
        GrowsInMethod(p, c, major, minor);
      } else if p.state.Uri? {
        GrowsInUri(p, c, major, minor);
      } else {
        GrowsBeforeVersion(p, c, major, minor);
      }
    } else {
      match p.state {
        case MajorStart => GrowsAtMajor(p, c, major, minor);
        case Major => GrowsInMajor(p, c, major, minor);
        case MinorStart => GrowsAtMinor(p, c, major, minor);
        case Minor => GrowsInMinor(p, c, major, minor);
        case HeaderLineStart => GrowsAtLineStart(p, c, major, minor);
        case HeaderLws => GrowsAtLws(p, c, major, minor);
        case HeaderName => GrowsInName(p, c, major, minor);
        case SpaceBeforeHeaderValue => GrowsBeforeValue(p, c, major, minor);
        case HeaderValue => GrowsInValue(p, c, major, minor);
        case ExpectingNewline1 => GrowsAtStartLineEnd(p, c, major, minor);
        case ExpectingNewline2 => GrowsAtHeaderEnd(p, c, major, minor);
      }
    }
  }

  // ----- whatever the parser has read is a partial text

  const START := Partial(MethodStart, EMPTY, "")

  /** The parser before the first byte, with an empty request whose version fields hold anything. */
  function Initial(major: int, minor: int): Machine {
    Machine(MethodStart, RequestValue("", "", major, minor, []))
  }

  lemma MachineIsReachable(p: Partial, major: int, minor: int)
    requires Valid(p)
    ensures Reachable(MachineOf(p, major, minor))
  {
  }

  /**
    From a machine that has read `text`, the parser makes of `s` the partial text `q`, or at the end a whole
    request.
    */
  ghost predicate Tracks(m: Machine, text: string, s: string, q: Partial, major: int, minor: int)
    requires Reachable(m) && Valid(q)
  {
    var o := Parse(m, s);
    match o.result
    case Indeterminate => Text(q) == text + s && o.machine == MachineOf(q, major, minor)
    case True =>
      && q.state.ExpectingNewline3? && o.machine == MachineOf(q, major, minor)
      && Print(q.t) == text + s[..o.consumed]
    case False => true
  }

  lemma TracksLastByte(p: Partial, s: string, major: int, minor: int)
    requires Valid(p) && p.state.ExpectingNewline3? && s != ""
    ensures var m := MachineOf(p, major, minor); Reachable(m) && Tracks(m, Text(p), s, p, major, minor)
  {
  }

  lemma TracksMore(m: Machine, m': Machine, text: string, s: string, q: Partial, major: int, minor: int)
    requires Reachable(m) && Reachable(m') && Valid(q) && s != ""
    requires Step(m, s[0]) == (m', Indeterminate)
    requires Tracks(m', text + [s[0]], s[1..], q, major, minor)
    ensures Tracks(m, text, s, q, major, minor)
  {
  }

  lemma {:induction false} ParseTracks(p: Partial, s: string, major: int, minor: int) returns (q: Partial)
    requires Valid(p)
    ensures Valid(q)
    ensures var m := MachineOf(p, major, minor); Reachable(m) && Tracks(m, Text(p), s, q, major, minor)
    decreases |s|
  {
    MachineIsReachable(p, major, minor);
    var m := MachineOf(p, major, minor);
    q := p;
    if s == [] {
      assert Text(p) + s == Text(p);
    } else if p.state.ExpectingNewline3? {
      TracksLastByte(p, s, major, minor);
    } else {
      StepGrows(p, s[0], major, minor);
      var (m', r) := Step(m, s[0]);
      if r == Indeterminate {
        q := ParseTracks(Grown(p, s[0]), s[1..], major, minor);
        TracksMore(m, m', Text(p), s, q, major, minor);
      } else {
        OnlyTheLastByteAccepts(m, s[0]);
      }
    }
  }

  lemma OnlyTheLastByteAccepts(m: Machine, c: char)
    requires Safe(m) && !m.state.ExpectingNewline3?
    ensures Step(m, c).1 != True
  {
  }

  // ----- every partial text is read

  function Init(s: string): string
    requires s != ""
  {
    s[..|s| - 1]
  }

  function End(s: string): char
    requires s != ""
  {
    s[|s| - 1]
  }

  /** The partial text without its last byte, and that byte. */
  function Shrunk(q: Partial): (Partial, char)
    requires Valid(q) && !q.state.MethodStart?
  {
    var t := q.t;
    match q.state
    case Method =>
      if |t.verb| == 1 then (START, t.verb[0]) else (q.(t := t.(verb := Init(t.verb))), End(t.verb))
    case Uri =>
      if t.uri == "" then (q.(state := Method), ' ') else (q.(t := t.(uri := Init(t.uri))), End(t.uri))
    case VersionH => (q.(state := Uri), ' ')
    case VersionT1 => (q.(state := VersionH), 'H')
    case VersionT2 => (q.(state := VersionT1), 'T')
    case VersionP => (q.(state := VersionT2), 'T')
    case VersionSlash => (q.(state := VersionP), 'P')
    case MajorStart => (q.(state := VersionSlash), '/')
    case Major =>
      (q.(state := if |t.major| == 1 then MajorStart else Major, t := t.(major := Init(t.major))), End(t.major))
    case MinorStart => (q.(state := Major), '.')
    case Minor =>
      (q.(state := if |t.minor| == 1 then MinorStart else Minor, t := t.(minor := Init(t.minor))), End(t.minor))
    case ExpectingNewline1 => (q.(state := Minor), '\r')
    case HeaderLineStart => (q.(state := if t.headers == [] then ExpectingNewline1 else ExpectingNewline2), '\n')
    case HeaderLws =>
      if |q.space| == 1 then (Partial(HeaderLineStart, t, ""), q.space[0])
      else (q.(space := Init(q.space)), End(q.space))
    case HeaderName =>
      var h := Last(t);
      if |h.name| == 1 then (Partial(HeaderLineStart, t.(headers := t.headers[..|t.headers| - 1]), ""), h.name[0])
      else (q.(t := WithLast(t, h.(name := Init(h.name)))), End(h.name))
    case SpaceBeforeHeaderValue => (q.(state := HeaderName), ':')
    case HeaderValue => ShrunkValue(q)
    case ExpectingNewline2 =>
      var h := Last(t);
      if h.folds != [] && h.folds[|h.folds| - 1].piece == "" then
        (Partial(HeaderLws, WithLast(t, FewerFolds(h)), h.folds[|h.folds| - 1].space), '\r')
      else (q.(state := HeaderValue), '\r')
    case ExpectingNewline3 => (q.(state := HeaderLineStart), '\r')
  }

  function FewerFolds(h: HeaderText): HeaderText
    requires h.folds != []
  {
    h.(folds := h.folds[..|h.folds| - 1])
  }

  function ShrunkValue(q: Partial): (Partial, char)
    requires Valid(q) && q.state.HeaderValue?
  {
    var t := q.t;
    var h := Last(t);
    if h.folds == [] then
      if h.first == "" then (q.(state := SpaceBeforeHeaderValue), ' ')
      else (q.(t := WithLast(t, h.(first := Init(h.first)))), End(h.first))
    else
      var k := |h.folds| - 1;
      var f := h.folds[k];
      if |f.piece| == 1 then (Partial(HeaderLws, WithLast(t, FewerFolds(h)), f.space), f.piece[0])
      else (q.(t := WithLast(t, h.(folds := h.folds[k := f.(piece := Init(f.piece))]))), End(f.piece))
  }

  ghost predicate Shrinks(q: Partial, major: int, minor: int)
    requires Valid(q) && !q.state.MethodStart?
  {
    var (p, c) := Shrunk(q);
    && Valid(p) && !p.state.ExpectingNewline3? && Grown(p, c) == q
    && Safe(MachineOf(p, major, minor)) && Step(MachineOf(p, major, minor), c).1 == Indeterminate
  }

  lemma ShrinksInMethod(q: Partial, major: int, minor: int)
    requires Valid(q) && q.state.Method?
    ensures Shrinks(q, major, minor)
  {
  }

  lemma ShrinksInUri(q: Partial, major: int, minor: int)
    requires Valid(q) && q.state.Uri?
    ensures Shrinks(q, major, minor)
  {
  }

  lemma ShrinksBeforeVersion(q: Partial, major: int, minor: int)
    requires Valid(q) && BeforeVersion(q.state) && !(q.state.MethodStart? || q.state.Method? || q.state.Uri?)
    ensures Shrinks(q, major, minor)
  {
  }

  lemma ShrinksInVersion(q: Partial, major: int, minor: int)
    requires Valid(q) && !BeforeVersion(q.state) && q.t.headers == []
    requires !q.state.HeaderLineStart? && !q.state.ExpectingNewline3?
    ensures Shrinks(q, major, minor)
  {
  }

  lemma ShrinksAtLineStart(q: Partial, major: int, minor: int)
    requires Valid(q) && (q.state.HeaderLineStart? || q.state.ExpectingNewline3?)
    ensures Shrinks(q, major, minor)
  {
  }

  lemma ShrinksInLws(q: Partial, major: int, minor: int)
    requires Valid(q) && q.state.HeaderLws?
    ensures Shrinks(q, major, minor)
  {
  }

  lemma ShrinksAtColon(q: Partial, major: int, minor: int)
    requires Valid(q) && q.state.SpaceBeforeHeaderValue?
    ensures Shrinks(q, major, minor)
  {
  }

  lemma ShrinksToNoName(q: Partial, major: int, minor: int)
    requires Valid(q) && q.state.HeaderName? && |Last(q.t).name| == 1
    ensures Shrinks(q, major, minor)
  {
    var h := Last(q.t);
    assert h == HeaderText([h.name[0]], "", []);
    assert q.t.headers == q.t.headers[..|q.t.headers| - 1] + [h];
  }

  lemma ShrinksInName(q: Partial, major: int, minor: int)
    requires Valid(q) && q.state.HeaderName? && |Last(q.t).name| > 1
    ensures Shrinks(q, major, minor)
  {
    var h := Last(q.t);
    assert h.name == Init(h.name) + [End(h.name)];
    PutBack(q.t, h.(name := Init(h.name)));
  }

  lemma PutBack(t: RequestText, h: HeaderText)
    requires t.headers != []
    ensures WithLast(WithLast(t, h), Last(t)) == t && Last(WithLast(t, h)) == h
  {
  }

  lemma ShrinksAtHeaderEnd(q: Partial, major: int, minor: int)
    requires Valid(q) && q.state.ExpectingNewline2?
    ensures Shrinks(q, major, minor)
  {
    var h := Last(q.t);
    if h.folds != [] && h.folds[|h.folds| - 1].piece == "" {
      assert h.folds == h.folds[..|h.folds| - 1] + [h.folds[|h.folds| - 1]];
      PutBack(q.t, FewerFolds(h));
    }
  }

  lemma ShrinksInFirst(q: Partial, major: int, minor: int)
    requires Valid(q) && q.state.HeaderValue? && Last(q.t).folds == []
    ensures Shrinks(q, major, minor)
  {
    var h := Last(q.t);
    if h.first != "" {
      assert h.first == Init(h.first) + [End(h.first)];
      PutBack(q.t, h.(first := Init(h.first)));
    }
  }

  lemma ShrinksToLws(q: Partial, k: nat, major: int, minor: int)
    requires Valid(q) && q.state.HeaderValue? && k + 1 == |Last(q.t).folds| && |Last(q.t).folds[k].piece| == 1
    ensures Shrinks(q, major, minor)
  {
    var h := Last(q.t);
    var f := h.folds[k];
    assert h.folds == h.folds[..k] + [f] && f.piece == [f.piece[0]];
    PutBack(q.t, FewerFolds(h));
  }

  lemma ShrinksInFold(q: Partial, k: nat, major: int, minor: int)
    requires Valid(q) && q.state.HeaderValue? && k + 1 == |Last(q.t).folds| && |Last(q.t).folds[k].piece| > 1
    ensures Shrinks(q, major, minor)
  {
    var h := Last(q.t);
    var f := h.folds[k];
    var f' := f.(piece := Init(f.piece));
    assert f.piece == Init(f.piece) + [End(f.piece)];
    assert h.folds[k := f'][k := f] == h.folds;
    PutBack(q.t, h.(folds := h.folds[k := f']));
  }

  lemma ShrinksInValue(q: Partial, major: int, minor: int)
    requires Valid(q) && q.state.HeaderValue?
    ensures Shrinks(q, major, minor)
  {
    var folds := Last(q.t).folds;
    if folds == [] {
      ShrinksInFirst(q, major, minor);
    } else if |folds[|folds| - 1].piece| == 1 {
      ShrinksToLws(q, |folds| - 1, major, minor);
    } else {
      ShrinksInFold(q, |folds| - 1, major, minor);
    }
  }

  lemma ShrinksInHeaders(q: Partial, major: int, minor: int)
    requires Valid(q) && q.t.headers != [] && !q.state.HeaderLineStart? && !q.state.ExpectingNewline3?
    ensures Shrinks(q, major, minor)
  {
    if q.state.HeaderLws? {
      ShrinksInLws(q, major, minor);
    } else if q.state.ExpectingNewline2? {
      ShrinksAtHeaderEnd(q, major, minor);
    } else if q.state.HeaderValue? {
      ShrinksInValue(q, major, minor);
    } else if q.state.SpaceBeforeHeaderValue? {
      ShrinksAtColon(q, major, minor);
    } else if |Last(q.t).name| == 1 {
      ShrinksToNoName(q, major, minor);
    } else {
      ShrinksInName(q, major, minor);
    }
  }

  lemma ShrinksBack(q: Partial, major: int, minor: int)
    requires Valid(q) && !q.state.MethodStart?
    ensures Shrinks(q, major, minor)
  {
    if q.state.HeaderLineStart? || q.state.ExpectingNewline3? {
      ShrinksAtLineStart(q, major, minor);
    } else if q.t.headers != [] {
      ShrinksInHeaders(q, major, minor);
    } else if BeforeVersion(q.state) {
      if q.state.Method? {
        ShrinksInMethod(q, major, minor);
      } else if q.state.Uri? {
        ShrinksInUri(q, major, minor);
      } else {
        ShrinksBeforeVersion(q, major, minor);
      }
    } else {
      ShrinksInVersion(q, major, minor);
    }
  }

  /** Every partial text is read to its end, and leaves the parser as it should. */
  lemma {:induction false} PartialIsRead(q: Partial, major: int, minor: int)
    requires Valid(q)
    ensures Parse(Initial(major, minor), Text(q)) == Outcome(Indeterminate, MachineOf(q, major, minor), |Text(q)|)
    decreases |Text(q)|
  {
    if !q.state.MethodStart? {
      ShrinksBack(q, major, minor);
      var (p, c) := Shrunk(q);
      StepGrows(p, c, major, minor);
      PartialIsRead(p, major, minor);
      ParseAppend(Initial(major, minor), Text(p), [c]);
      MachineIsReachable(q, major, minor);
      assert [c][1..] == [];
    }
  }

  // ----- the main results

  /**
    Round trip: a request printed with CRLF lines and folded values is parsed back exactly, right after its final
    LF whatever follows, and on no shorter input.
    */
  lemma RequestRoundTrip(t: RequestText, rest: string, major: int, minor: int)
    requires WellFormed(t)
    ensures Parse(Initial(major, minor), Print(t) + rest) ==
            Outcome(True, Machine(ExpectingNewline3, Meaning(t)), |Print(t)|)
    ensures forall k :: 0 <= k < |Print(t)| ==> Parse(Initial(major, minor), Print(t)[..k]).result == Indeterminate
  {
    var q := Partial(ExpectingNewline3, t, "");
    var m := Initial(major, minor);
    PartialIsRead(q, major, minor);
    assert Print(t) == Text(q) + "\n";
    assert Print(t) + rest == Text(q) + ("\n" + rest);
    ParseAppend(m, Text(q), "\n" + rest);
    forall k | 0 <= k < |Print(t)| ensures Parse(m, Print(t)[..k]).result == Indeterminate {
      assert Text(q) == Print(t)[..k] + Text(q)[k..];
      ParseAppend(m, Print(t)[..k], Text(q)[k..]);
    }
  }

  /** Conversely the parser accepts nothing else: what it has consumed is a request text, and it has its meaning. */
  lemma AcceptedIsRequest(s: string, major: int, minor: int) returns (t: RequestText)
    ensures var o := Parse(Initial(major, minor), s);
            o.result == True ==>
              WellFormed(t) && Print(t) == s[..o.consumed] && o.machine == Machine(ExpectingNewline3, Meaning(t))
  {
    var q := ParseTracks(START, s, major, minor);
    assert MachineOf(START, major, minor) == Initial(major, minor);
    var o := Parse(Initial(major, minor), s);
    assert Text(START) + s[..o.consumed] == s[..o.consumed];
    t := q.t;
  }

  /** The accepted language is exactly the texts of requests, followed by anything. */
  lemma AcceptsExactlyRequests(s: string, major: int, minor: int)
    ensures Parse(Initial(major, minor), s).result == True <==> exists t :: WellFormed(t) && Print(t) <= s
  {
    if Parse(Initial(major, minor), s).result == True {
      var t := AcceptedIsRequest(s, major, minor);
      assert WellFormed(t) && Print(t) <= s;
    }
    if t :| WellFormed(t) && Print(t) <= s {
      assert s == Print(t) + s[|Print(t)|..];
      RequestRoundTrip(t, s[|Print(t)|..], major, minor);
    }
  }

  /** The round trip for version numbers rather than digits. */
  lemma VersionRoundTrip(t: RequestText, a: nat, b: nat, rest: string, major: int, minor: int)
    requires WellFormed(t) && t.major == Decimal.Print(a) && t.minor == Decimal.Print(b)
    ensures var o := Parse(Initial(major, minor), Print(t) + rest);
            o.result == True && o.machine.req == RequestValue(t.verb, t.uri, a, b, HeadersOf(t.headers))
  {
    RequestRoundTrip(t, rest, major, minor);
    ReadPrint(a);
    ReadPrint(b);
  }

  // ----- the characters of methods, names, targets and values

  /** The marks that section 2.2 of RFC 1945 leaves for tokens, besides letters and digits. */
  const TOKEN_MARKS := "!#$%&'*+-.^_`|~"

  predicate IsAlphanumeric(c: char) {
    'a' <= c <= 'z' || 'A' <= c <= 'Z' || '0' <= c <= '9'
  }

  /** Letters, digits and these marks, and nothing else, make up tokens. */
  lemma TokenChars(c: char)
    ensures IsTokenChar(c) <==> IsAlphanumeric(c) || c in TOKEN_MARKS
  {
    if IsTokenChar(c) && !IsAlphanumeric(c) {
      MarkIsListed(c);
    }
  }

  lemma MarkIsListed(c: char)
    requires IsTokenChar(c) && !IsAlphanumeric(c)
    ensures c in TOKEN_MARKS
  {
    if c <= '/' {
      assert c !in TOKEN_MARKS ==> c == '"' || c == '(' || c == ')' || c == ',' || c == '/';
    } else if c <= '`' {
      assert c !in TOKEN_MARKS ==> ':' <= c <= '@' || c == '[' || c == '\\' || c == ']';
    } else {
      assert c !in TOKEN_MARKS ==> c == '{' || c == '}';
    }
  }

  /** Methods and header names are made of these. */
  lemma TokensAre(s: string)
    ensures IsToken(s) <==> forall i :: 0 <= i < |s| ==> IsAlphanumeric(s[i]) || s[i] in TOKEN_MARKS
  {
    forall i | 0 <= i < |s| ensures IsTokenChar(s[i]) <==> IsAlphanumeric(s[i]) || s[i] in TOKEN_MARKS {
      TokenChars(s[i]);
    }
  }

  /** Targets are free of blanks and of the control characters 0 to 31 and 127; values only of the latter. */
  lemma TargetsAndValuesAre(s: string)
    ensures NoCtl(s) <==> forall i :: 0 <= i < |s| ==> ' ' <= s[i] && s[i] != 127 as char
    ensures IsUri(s) <==> NoCtl(s) && ' ' !in s
  {
    assert forall c: char :: IsCtl(c) <==> !(' ' <= c && c != 127 as char);
  }

  /** The first byte of a request may be any such character, and no other byte. */
  lemma FirstByte(c: char, major: int, minor: int)
    ensures Parse(Initial(major, minor), [c]).result == Indeterminate <==> IsAlphanumeric(c) || c in TOKEN_MARKS
  {
    TokenChars(c);
    assert [c][1..] == [];
  }

  // ----- folded values

  /** A value with each fold read as one blank, as section 2.2 of RFC 1945 has it. */
  function SpacedPieces(folds: seq<Fold>): string {
    if folds == [] then "" else SpacedPieces(folds[..|folds| - 1]) + " " + folds[|folds| - 1].piece
  }

  function SpacedHeader(h: HeaderText): Header {
    Header(h.name, h.first + SpacedPieces(h.folds))
  }

  lemma {:induction false} PiecesAreShorter(folds: seq<Fold>)
    ensures |SpacedPieces(folds)| == |Pieces(folds)| + |folds|
  {
    if folds != [] {
      PiecesAreShorter(folds[..|folds| - 1]);
    }
  }

  /**
    The parser joins the pieces directly; that is the value with a blank for each fold exactly if nothing is
    folded.
    */
  lemma JoinedAsSpacedExactly(t: RequestText)
    ensures (forall i :: 0 <= i < |t.headers| ==> HeadersOf(t.headers)[i] == SpacedHeader(t.headers[i])) <==>
            (forall i :: 0 <= i < |t.headers| ==> t.headers[i].folds == [])
  {
    forall i | 0 <= i < |t.headers|
      ensures HeadersOf(t.headers)[i] == SpacedHeader(t.headers[i]) <==> t.headers[i].folds == []
    {
      PiecesAreShorter(t.headers[i].folds);
    }
  }
}
