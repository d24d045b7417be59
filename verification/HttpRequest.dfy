/** The incremental parser of HTTP requests: a byte at a time through twenty states. */
module HttpRequest {
  import opened Decimal

  // ----- character classes; a byte above 127 is a char in none of them

  predicate IsChar(c: char) {
    c as int <= 127
  }

  predicate IsCtl(c: char) {
    c as int <= 31 || c as int == 127
  }

  predicate IsTspecial(c: char) {
    c in "()<>@,;:\\\"/[]?={} \t"
  }

  /** What a method or a header name is made of. */
  predicate IsTokenChar(c: char) {
    IsChar(c) && !IsCtl(c) && !IsTspecial(c)
  }

  // ----- the machine

  datatype Header = Header(name: string, value: string)

  datatype RequestValue = RequestValue(verb: string, uri: string, major: int, minor: int, headers: seq<Header>)

  datatype State =
    | MethodStart | Method | Uri
    | VersionH | VersionT1 | VersionT2 | VersionP | VersionSlash
    | MajorStart | Major | MinorStart | Minor
    | ExpectingNewline1 | HeaderLineStart | HeaderLws | HeaderName | SpaceBeforeHeaderValue | HeaderValue
    | ExpectingNewline2 | ExpectingNewline3

  datatype Tribool = True | False | Indeterminate

  datatype Machine = Machine(state: State, req: RequestValue)

  /** The states in which the next byte may be put into the last header. */
  predicate UsesLastHeader(s: State) {
    s.HeaderLws? || s.HeaderName? || s.HeaderValue?
  }

  predicate Safe(m: Machine) {
    UsesLastHeader(m.state) ==> m.req.headers != []
  }

  function WithName(headers: seq<Header>, c: char): seq<Header>
    requires headers != []
  {
    var last := headers[|headers| - 1];
    headers[|headers| - 1 := last.(name := last.name + [c])]
  }

  function WithValue(headers: seq<Header>, c: char): seq<Header>
    requires headers != []
  {
    var last := headers[|headers| - 1];
    headers[|headers| - 1 := last.(value := last.value + [c])]
  }

  function Go(m: Machine, s: State): (Machine, Tribool) {
    (m.(state := s), Indeterminate)
  }

  function Expect(m: Machine, c: char, wanted: char, s: State): (Machine, Tribool) {
    if c == wanted then Go(m, s) else (m, False)
  }

  /** Consumes one byte. */
  function Step(m: Machine, c: char): (Machine, Tribool)
    requires Safe(m)
  {
    var req := m.req;
    match m.state
    case MethodStart =>
      if !IsTokenChar(c) then (m, False)
      else (Machine(Method, req.(verb := req.verb + [c])), Indeterminate)
    case Method =>
      if c == ' ' then Go(m, Uri)
      else if !IsTokenChar(c) then (m, False)
      else (m.(req := req.(verb := req.verb + [c])), Indeterminate)
    case Uri =>
      if c == ' ' then Go(m, VersionH)
      else if IsCtl(c) then (m, False)
      else (m.(req := req.(uri := req.uri + [c])), Indeterminate)
    case VersionH => Expect(m, c, 'H', VersionT1)
    case VersionT1 => Expect(m, c, 'T', VersionT2)
    case VersionT2 => Expect(m, c, 'T', VersionP)
    case VersionP => Expect(m, c, 'P', VersionSlash)
    case VersionSlash =>
      Expect(if c == '/' then m.(req := req.(major := 0, minor := 0)) else m, c, '/', MajorStart)
    case MajorStart =>
      if IsDigit(c) then (Machine(Major, req.(major := req.major * 10 + DigitValue(c))), Indeterminate)
      else (m, False)
    case Major =>
      if c == '.' then Go(m, MinorStart)
      else if IsDigit(c) then (m.(req := req.(major := req.major * 10 + DigitValue(c))), Indeterminate)
      else (m, False)
    case MinorStart =>
      if IsDigit(c) then (Machine(Minor, req.(minor := req.minor * 10 + DigitValue(c))), Indeterminate)
      else (m, False)
    case Minor =>
      if c == '\r' then Go(m, ExpectingNewline1)
      else if IsDigit(c) then (m.(req := req.(minor := req.minor * 10 + DigitValue(c))), Indeterminate)
      else (m, False)
    case ExpectingNewline1 => Expect(m, c, '\n', HeaderLineStart)
    case HeaderLineStart =>
      if c == '\r' then Go(m, ExpectingNewline3)
      else if req.headers != [] && (c == ' ' || c == '\t') then Go(m, HeaderLws)
      else if !IsTokenChar(c) then (m, False)
      else (Machine(HeaderName, req.(headers := WithName(req.headers + [Header("", "")], c))), Indeterminate)
    case HeaderLws =>
      if c == '\r' then Go(m, ExpectingNewline2)
      else if c == ' ' || c == '\t' then (m, Indeterminate)
      else if IsCtl(c) then (m, False)
      else (Machine(HeaderValue, req.(headers := WithValue(req.headers, c))), Indeterminate)
    case HeaderName =>
      if c == ':' then Go(m, SpaceBeforeHeaderValue)
      else if !IsTokenChar(c) then (m, False)
      else (m.(req := req.(headers := WithName(req.headers, c))), Indeterminate)
    case SpaceBeforeHeaderValue => Expect(m, c, ' ', HeaderValue)
    case HeaderValue =>
      if c == '\r' then Go(m, ExpectingNewline2)
      else if IsCtl(c) then (m, False)
      else (m.(req := req.(headers := WithValue(req.headers, c))), Indeterminate)
    case ExpectingNewline2 => Expect(m, c, '\n', HeaderLineStart)
    case ExpectingNewline3 => (m, if c == '\n' then True else False)
  }

  /** A machine that the parser can be in: every state after the first header line has its header. */
  predicate Reachable(m: Machine) {
    (UsesLastHeader(m.state) || m.state.SpaceBeforeHeaderValue? || m.state.ExpectingNewline2?) ==> m.req.headers != []
  }

  lemma StepKeepsReachable(m: Machine, c: char)
    requires Reachable(m)
    ensures Safe(m) && Reachable(Step(m, c).0)
  {
  }

  // ----- the driver loop

  datatype Outcome = Outcome(result: Tribool, machine: Machine, consumed: nat)

  function Parse(m: Machine, s: string): (o: Outcome)
    requires Reachable(m)
    ensures Reachable(o.machine) && o.consumed <= |s|
    ensures o.result == Indeterminate ==> o.consumed == |s|
    decreases |s|
  {
    if s == [] then Outcome(Indeterminate, m, 0)
    else
      StepKeepsReachable(m, s[0]);
      var (m', r) := Step(m, s[0]);
      if r != Indeterminate then Outcome(r, m', 1)
      else
        var o := Parse(m', s[1..]);
        o.(consumed := o.consumed + 1)
  }

  class Request {
    var verb: string
    var uri: string
    var major: int
    var minor: int
    var headers: seq<Header>

    function View(): RequestValue
      reads this
    {
      RequestValue(verb, uri, major, minor, headers)
    }

    constructor ()
      ensures verb == "" && uri == "" && headers == []
    {
      verb, uri, headers := "", "", [];
    }
  }

  class RequestParser {
    var state: State

    constructor ()
      ensures state == MethodStart
    {
      state := MethodStart;
    }

    method Reset()
      modifies this
      ensures state == MethodStart
    {
      state := MethodStart;
    }

    method Consume(req: Request, c: char) returns (r: Tribool)
      requires Safe(Machine(state, req.View()))
      modifies this, req
      ensures (Machine(state, req.View()), r) == Step(Machine(old(state), old(req.View())), c)
    {
      match state {
        case MethodStart =>
          if !IsTokenChar(c) { return False; }
          state := Method;
          req.verb := req.verb + [c];
        case Method =>
          if c == ' ' {
            state := Uri;
          } else {
            if !IsTokenChar(c) { return False; }
            req.verb := req.verb + [c];
          }
        case Uri =>
          if c == ' ' {
            state := VersionH;
          } else {
            if IsCtl(c) { return False; }
            req.uri := req.uri + [c];
          }
        case VersionH =>
          if c != 'H' { return False; }
          state := VersionT1;
        case VersionT1 =>
          if c != 'T' { return False; }
          state := VersionT2;
        case VersionT2 =>
          if c != 'T' { return False; }
          state := VersionP;
        case VersionP =>
          if c != 'P' { return False; }
          state := VersionSlash;
        case VersionSlash =>
          if c != '/' { return False; }
          req.major := 0;
          req.minor := 0;
          state := MajorStart;
        case MajorStart =>
          if !IsDigit(c) { return False; }
          req.major := req.major * 10 + DigitValue(c);
          state := Major;
        case Major =>
          if c == '.' {
            state := MinorStart;
          } else {
            if !IsDigit(c) { return False; }
            req.major := req.major * 10 + DigitValue(c);
          }
        case MinorStart =>
          if !IsDigit(c) { return False; }
          req.minor := req.minor * 10 + DigitValue(c);
          state := Minor;
        case Minor =>
          if c == '\r' {
            state := ExpectingNewline1;
          } else {
            if !IsDigit(c) { return False; }
            req.minor := req.minor * 10 + DigitValue(c);
          }
        case ExpectingNewline1 =>
          if c != '\n' { return False; }
          state := HeaderLineStart;
        case HeaderLineStart =>
          if c == '\r' {
            state := ExpectingNewline3;
          } else if req.headers != [] && (c == ' ' || c == '\t') {
            state := HeaderLws;
          } else {
            if !IsTokenChar(c) { return False; }
            req.headers := req.headers + [Header("", "")];
            req.headers := WithName(req.headers, c);
            state := HeaderName;
          }
        case HeaderLws =>
          if c == '\r' {
            state := ExpectingNewline2;
          } else if c != ' ' && c != '\t' {
            if IsCtl(c) { return False; }
            state := HeaderValue;
            req.headers := WithValue(req.headers, c);
          }
        case HeaderName =>
          if c == ':' {
            state := SpaceBeforeHeaderValue;
          } else {
            if !IsTokenChar(c) { return False; }
            req.headers := WithName(req.headers, c);
          }
        case SpaceBeforeHeaderValue =>
          if c != ' ' { return False; }
          state := HeaderValue;
        case HeaderValue =>
          if c == '\r' {
            state := ExpectingNewline2;
          } else {
            if IsCtl(c) { return False; }
            req.headers := WithValue(req.headers, c);
          }
        case ExpectingNewline2 =>
          if c != '\n' { return False; }
          state := HeaderLineStart;
        case ExpectingNewline3 =>
          return if c == '\n' then True else False;
      }
      return Indeterminate;
    }

    /** Parses some bytes; `end` is how far it got. */
    method ParseBytes(req: Request, s: string) returns (r: Tribool, end: nat)
      requires Reachable(Machine(state, req.View()))
      modifies this, req
      ensures Parse(Machine(old(state), old(req.View())), s) == Outcome(r, Machine(state, req.View()), end)
    {
      end := 0;
      ghost var start := Machine(state, req.View());
      while end < |s|
        invariant 0 <= end <= |s|
        invariant Reachable(Machine(state, req.View()))
        invariant var o := Parse(Machine(state, req.View()), s[end..]);
                  Parse(start, s) == o.(consumed := o.consumed + end)
      {
        StepKeepsReachable(Machine(state, req.View()), s[end]);
        assert s[end..][0] == s[end] && s[end..][1..] == s[end + 1..];
        r := Consume(req, s[end]);
        end := end + 1;
        if r != Indeterminate {
          return;
        }
      }
      r := Indeterminate;
    }
  }

  // ----- input in pieces

  function Joined(pieces: seq<string>): string {
    if pieces == [] then "" else pieces[0] + Joined(pieces[1..])
  }

  /** Parses piece after piece until the outcome is known, and counts all bytes consumed. */
  function ParsePieces(m: Machine, pieces: seq<string>): (o: Outcome)
    requires Reachable(m)
    decreases |pieces|
  {
    if pieces == [] then Outcome(Indeterminate, m, 0)
    else
      var first := Parse(m, pieces[0]);
      if first.result != Indeterminate then first
      else
        var o := ParsePieces(first.machine, pieces[1..]);
        o.(consumed := o.consumed + first.consumed)
  }

  lemma {:induction false} ParseAppend(m: Machine, a: string, b: string)
    requires Reachable(m)
    ensures var first := Parse(m, a);
            if first.result != Indeterminate then Parse(m, a + b) == first
            else
              var o := Parse(first.machine, b);
              Parse(m, a + b) == o.(consumed := o.consumed + |a|)
    decreases |a|
  {
    if a == [] {
      assert a + b == b;
    } else {
      assert (a + b)[0] == a[0] && (a + b)[1..] == a[1..] + b;
      StepKeepsReachable(m, a[0]);
      ParseAppend(Step(m, a[0]).0, a[1..], b);
    }
  }

  /** Cutting the input into pieces changes nothing: same result, same request, same number of bytes consumed. */
  lemma {:induction false} PiecesAgree(m: Machine, pieces: seq<string>)
    requires Reachable(m)
    ensures ParsePieces(m, pieces) == Parse(m, Joined(pieces))
    decreases |pieces|
  {
    if pieces != [] {
      ParseAppend(m, pieces[0], Joined(pieces[1..]));
      PiecesAgree(Parse(m, pieces[0]).machine, pieces[1..]);
    }
  }
}
