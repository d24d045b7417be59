/** String escapes of the JSON writer and reader. A byte is a char below 256. */
module JsonEscape {
  import opened Wrappers

  predicate IsBytes(s: string) {
    forall i :: 0 <= i < |s| ==> s[i] as int < 256
  }

  // ----- the writer's side

  function ToHexChar(c: nat): (h: char)
    requires c <= 0xF
  {
    if c < 10 then '0' + c as char else 'A' + (c - 10) as char
  }

  /** The last four hexadecimal digits of `c`, as "\uHHHH". */
  function NonPrintableToString(c: nat): string {
    ['\\', 'u', ToHexChar(c / 0x1000 % 16), ToHexChar(c / 0x100 % 16), ToHexChar(c / 0x10 % 16), ToHexChar(c % 16)]
  }

  const BACKSPACE := 8 as char
  const FORM_FEED := 12 as char

  /** The letter of the short escape of a character, if it has one. */
  function EscLetter(c: char): Option<char> {
    if c == '"' then Some('"')
    else if c == '\\' then Some('\\')
    else if c == BACKSPACE then Some('b')
    else if c == FORM_FEED then Some('f')
    else if c == '\n' then Some('n')
    else if c == '\r' then Some('r')
    else if c == '\t' then Some('t')
    else None
  }

  /**
    How strings are written: bytes as they are, or everything escaped that has no short escape, or what is not
    printable.
    */
  datatype Options = Options(rawUtf8: bool, escNonascii: bool, printable: char -> bool)

  function EscapeOne(c: char, o: Options): (e: string)
    ensures |e| == 1 || (|e| >= 2 && e[0] == '\\')
    ensures |e| == 1 ==> e == [c] && c != '"' && c != '\\'
  {
    var letter := EscLetter(c);
    if letter.Some? then ['\\', letter.value]
    else if o.rawUtf8 || (!o.escNonascii && o.printable(c)) then [c]
    else NonPrintableToString(c as nat)
  }

  function Escape(s: string, o: Options): string {
    if s == "" then "" else EscapeOne(s[0], o) + Escape(s[1..], o)
  }

  method AddEscChar(c: char, s: string) returns (added: bool, t: string)
    ensures added <==> EscLetter(c).Some?
    ensures t == if added then s + ['\\', EscLetter(c).value] else s
  {
    added, t := true, s;
    match c
    case '"' => t := t + "\\\"";
    case '\\' => t := t + "\\\\";
    case '\n' => t := t + "\\n";
    case '\r' => t := t + "\\r";
    case '\t' => t := t + "\\t";
    case _ =>
      if c == BACKSPACE {
        t := t + "\\b";
      } else if c == FORM_FEED {
        t := t + "\\f";
      } else {
        added := false;
      }
  }

  lemma EscapeStep(s: string, i: nat, o: Options, before: string, after: string)
    requires i < |s| && after == before + EscapeOne(s[i], o)
    ensures after + Escape(s[i + 1..], o) == before + Escape(s[i..], o)
  {
  }

  method AddEscChars(s: string, o: Options) returns (result: string)
    ensures result == Escape(s, o)
  {
    result := "";
    var i := 0;
    assert s[0..] == s;
    while i < |s|
      invariant 0 <= i <= |s|
      invariant result + Escape(s[i..], o) == Escape(s, o)
    {
      var c := s[i];
      var added, t := AddEscChar(c, result);
      if !added {
        if o.rawUtf8 {
          t := t + [c];
        } else if !o.escNonascii && o.printable(c) {
          t := t + [c];
        } else {
          t := t + NonPrintableToString(c as nat);
        }
      }
      EscapeStep(s, i, o, result, t);
      result := t;
      i := i + 1;
    }
  }

  // ----- the reader's side

  function HexToNum(c: char): (n: nat)
    ensures n < 16
  {
    if '0' <= c <= '9' then (c - '0') as nat
    else if 'a' <= c <= 'f' then (c - 'a') as nat + 10
    else if 'A' <= c <= 'F' then (c - 'A') as nat + 10
    else 0
  }

  /** Two hexadecimal digits as a byte. */
  function HexStrToChar(c1: char, c2: char): char {
    (HexToNum(c1) * 16 + HexToNum(c2)) as char
  }

  /** Four hexadecimal digits, truncated to a byte. */
  function UnicodeStrToChar(c1: char, c2: char, c3: char, c4: char): char {
    ((HexToNum(c1) * 0x1000 + HexToNum(c2) * 0x100 + HexToNum(c3) * 0x10 + HexToNum(c4)) % 256) as char
  }

  function ShortEscape(letter: char): Option<char> {
    match letter
    case 't' => Some('\t')
    case 'b' => Some(BACKSPACE)
    case 'f' => Some(FORM_FEED)
    case 'n' => Some('\n')
    case 'r' => Some('\r')
    case '\\' => Some('\\')
    case '/' => Some('/')
    case '"' => Some('"')
    case _ => None
  }

  /** The character an escape stands for, if any, and how long the escape is; `e` starts behind the backslash. */
  function EscapeAt(e: string): (r: (Option<char>, nat))
    requires e != ""
    ensures 1 <= r.1 <= |e|
  {
    if e[0] == 'x' && |e| >= 3 then (Some(HexStrToChar(e[1], e[2])), 3)
    else if e[0] == 'u' && |e| >= 5 then (Some(UnicodeStrToChar(e[1], e[2], e[3], e[4])), 5)
    else (ShortEscape(e[0]), 1)
  }

  function AsString(c: Option<char>): string {
    if c.Some? then [c.value] else ""
  }

  function Unescape(s: string): string
    decreases |s|
  {
    if |s| < 2 then s
    else if s[0] == '\\' then
      var (c, taken) := EscapeAt(s[1..]);
      AsString(c) + Unescape(s[1 + taken..])
    else [s[0]] + Unescape(s[1..])
  }

  lemma {:induction false} UnescapePlain(s: string, k: nat)
    requires k <= |s| && forall i :: 0 <= i < k ==> s[i] != '\\'
    ensures Unescape(s) == s[..k] + Unescape(s[k..])
    decreases k
  {
    if k == 0 {
      assert s[0..] == s;
    } else if |s| < 2 {
      assert k == 1 && s[..1] == s;
    } else {
      UnescapePlain(s[1..], k - 1);
      assert s[1..][k - 1..] == s[k..];
      assert s[..k] == [s[0]] + s[1..][..k - 1];
    }
  }

  method AppendEscCharAndIncrIter(s: string, t: string, i: nat) returns (u: string, j: nat)
    requires i < |t|
    ensures i <= j < |t| && u == s + AsString(EscapeAt(t[i..]).0) && j + 1 == i + EscapeAt(t[i..]).1
  {
    u, j := s, i;
    match t[i]
    case 'x' =>
      if |t| - i >= 3 {
        u := u + [HexStrToChar(t[i + 1], t[i + 2])];
        j := i + 2;
      }
    case 'u' =>
      if |t| - i >= 5 {
        u := u + [UnicodeStrToChar(t[i + 1], t[i + 2], t[i + 3], t[i + 4])];
        j := i + 4;
      }
    case c =>
      var short := ShortEscape(c);
      if short.Some? {
        u := u + [short.value];
      }
  }

  lemma Regroup(a: string, b: string, c: string, d: string)
    ensures a + (b + (c + d)) == a + b + c + d
  {
  }

  predicate PlainBetween(s: string, start: nat, end: nat) {
    start <= end <= |s| && forall j :: start <= j < end ==> s[j] != '\\'
  }

  lemma PlainNone(s: string, i: nat)
    requires i <= |s|
    ensures PlainBetween(s, i, i)
  {
  }

  lemma PlainMore(s: string, start: nat, i: nat)
    requires PlainBetween(s, start, i) && i < |s| && s[i] != '\\'
    ensures PlainBetween(s, start, i + 1)
  {
  }

  /** What `result` and the characters from `start` on still stand for. */
  ghost predicate Pending(whole: string, result: string, s: string, start: nat) {
    start <= |s| && whole == result + Unescape(s[start..])
  }

  /** One escape, with the plain characters before it. */
  lemma UnescapeStep(whole: string, before: string, s: string, start: nat, i: nat, after: string, next: nat)
    requires start <= i < |s| - 1 && s[i] == '\\' && PlainBetween(s, start, i)
    requires next <= |s| && i + 1 + EscapeAt(s[i + 1..]).1 == next
    requires after == before + s[start..i] + AsString(EscapeAt(s[i + 1..]).0)
    requires Pending(whole, before, s, start)
    ensures Pending(whole, after, s, next)
  {
    var c := EscapeAt(s[i + 1..]).0;
    var t := s[start..];
    UnescapePlain(t, i - start);
    assert t[i - start..] == s[i..] && t[..i - start] == s[start..i];
    assert s[i..][1..] == s[i + 1..];
    assert s[i..][next - i..] == s[next..];
    Regroup(before, s[start..i], AsString(c), Unescape(s[next..]));
  }

  /** The plain characters before the backslash at `i`, and the character of the escape. */
  method AppendUpToEscape(ghost whole: string, before: string, s: string, start: nat, i: nat)
    returns (after: string, next: nat)
    requires start <= i < |s| - 1 && s[i] == '\\' && PlainBetween(s, start, i)
    requires Pending(whole, before, s, start)
    ensures i + 1 < next <= |s| && Pending(whole, after, s, next)
  {
    var plain := before + s[start..i];
    var j;
    after, j := AppendEscCharAndIncrIter(plain, s, i + 1);
    UnescapeStep(whole, before, s, start, i, after, j + 1);
    next := j + 1;
  }

  method SubstituteEscChars(s: string) returns (result: string)
    ensures result == Unescape(s)
  {
    if |s| < 2 { return s; }
    result := "";
    var substrStart := 0;
    var i := 0;
    ghost var whole := Unescape(s);
    PendingStarts(s);
    while i < |s| - 1
      invariant 0 <= substrStart <= i <= |s|
      invariant PlainBetween(s, substrStart, i)
      invariant Pending(whole, result, s, substrStart)
      invariant i == |s| ==> substrStart == i
    {
      if s[i] == '\\' {
        result, substrStart := AppendUpToEscape(whole, result, s, substrStart, i);
        i := substrStart - 1;
        PlainNone(s, i + 1);
      } else {
        PlainMore(s, substrStart, i);
      }
      i := i + 1;
    }
    PendingEnds(whole, result, s, substrStart, i);
    result := result + s[substrStart..];
  }

  /** Plain characters, and at most one more, stand for themselves. */
  lemma UnescapeRest(s: string, start: nat, i: nat)
    requires start <= i <= |s| <= i + 1 && PlainBetween(s, start, i)
    ensures Unescape(s[start..]) == s[start..]
  {
    var t := s[start..];
    UnescapePlain(t, i - start);
    assert Unescape(t[i - start..]) == t[i - start..];
  }

  lemma PendingStarts(s: string)
    ensures Pending(Unescape(s), "", s, 0)
  {
    assert s[0..] == s && "" + Unescape(s) == Unescape(s);
  }

  lemma PendingEnds(whole: string, result: string, s: string, start: nat, i: nat)
    requires Pending(whole, result, s, start)
    requires start <= i <= |s| <= i + 1 && PlainBetween(s, start, i)
    ensures whole == result + s[start..]
  {
    UnescapeRest(s, start, i);
  }

  // ----- what each escape means

  const LOWER_HEX := "0123456789abcdef"
  const UPPER_HEX := "0123456789ABCDEF"

  /** A hexadecimal digit of either case for its value, and any other character for 0. */
  predicate ReadsAs(c: char, n: nat) {
    (n < 16 && (c == LOWER_HEX[n] || c == UPPER_HEX[n])) || (n == 0 && c !in LOWER_HEX && c !in UPPER_HEX)
  }

  lemma DigitIsListed(c: char)
    requires '0' <= c <= '9' || 'a' <= c <= 'f' || 'A' <= c <= 'F'
    ensures c in LOWER_HEX || c in UPPER_HEX
  {
    if c <= '9' {
      assert LOWER_HEX[(c - '0') as nat] == c;
    } else if 'a' <= c {
      assert LOWER_HEX[(c - 'a') as nat + 10] == c;
    } else {
      assert UPPER_HEX[(c - 'A') as nat + 10] == c;
    }
  }

  lemma DigitRead(c: char, n: nat)
    requires ReadsAs(c, n)
    ensures HexToNum(c) == n
  {
    if HexToNum(c) != 0 {
      DigitIsListed(c);
    }
  }

  /** Four hexadecimal digits stand for their value, of which a byte keeps the last two. */
  lemma FourDigits(d1: char, d2: char, d3: char, d4: char, n1: nat, n2: nat, n3: nat, n4: nat, rest: string)
    requires ReadsAs(d1, n1) && ReadsAs(d2, n2) && ReadsAs(d3, n3) && ReadsAs(d4, n4)
    ensures var n := n1 * 4096 + n2 * 256 + n3 * 16 + n4;
            Unescape(['\\', 'u', d1, d2, d3, d4] + rest) == [(n % 256) as char] + Unescape(rest)
  {
    DigitRead(d1, n1);
    DigitRead(d2, n2);
    DigitRead(d3, n3);
    DigitRead(d4, n4);
    UnescapeUnicode(['\\', 'u', d1, d2, d3, d4], d1, d2, d3, d4, rest);
  }

  lemma TwoDigits(d1: char, d2: char, n1: nat, n2: nat, rest: string)
    requires ReadsAs(d1, n1) && ReadsAs(d2, n2)
    ensures Unescape(['\\', 'x', d1, d2] + rest) == [(n1 * 16 + n2) as char] + Unescape(rest)
  {
    DigitRead(d1, n1);
    DigitRead(d2, n2);
  }

  lemma NoNumberAt(e: string)
    requires e != "" && ((e[0] == 'u' && |e| < 5) || (e[0] == 'x' && |e| < 3))
    ensures EscapeAt(e) == (None, 1)
  {
  }

  /** With too few characters left, the letters of numbers stand for nothing. */
  lemma TooFewDigits(letter: char, rest: string)
    requires (letter == 'u' && |rest| < 4) || (letter == 'x' && |rest| < 2)
    ensures Unescape(['\\', letter] + rest) == Unescape(rest)
  {
    NoNumberAt([letter] + rest);
    VanishesBefore(letter, rest);
  }

  lemma VanishesBefore(letter: char, rest: string)
    requires EscapeAt([letter] + rest) == (None, 1)
    ensures Unescape(['\\', letter] + rest) == Unescape(rest)
  {
    var s := ['\\', letter] + rest;
    assert s[1..] == [letter] + rest && s[2..] == rest;
    assert AsString(None) + Unescape(rest) == Unescape(rest);
  }

  lemma EscapedLetter(letter: char, rest: string)
    requires EscapeAt([letter] + rest).1 == 1
    ensures Unescape(['\\', letter] + rest) == AsString(EscapeAt([letter] + rest).0) + Unescape(rest)
  {
    var s := ['\\', letter] + rest;
    assert s[1..] == [letter] + rest && s[2..] == rest;
  }

  /** The letters of the short escapes, and the characters they stand for. */
  const SHORT_ESCAPES: seq<(char, char)> := [
    ('"', '"'), ('\\', '\\'), ('b', 8 as char), ('f', 12 as char), ('n', 10 as char), ('r', 13 as char),
    ('t', 9 as char), ('/', '/')]

  lemma ShortEscapeMeans(i: nat, rest: string)
    requires i < |SHORT_ESCAPES|
    ensures Unescape(['\\', SHORT_ESCAPES[i].0] + rest) == [SHORT_ESCAPES[i].1] + Unescape(rest)
  {
    EscapedLetter(SHORT_ESCAPES[i].0, rest);
  }

  predicate NoEscape(letter: char) {
    letter != 'u' && letter != 'x' && forall i :: 0 <= i < |SHORT_ESCAPES| ==> letter != SHORT_ESCAPES[i].0
  }

  /** A backslash before any other letter: both disappear. */
  lemma UnknownEscapeVanishes(letter: char, rest: string)
    requires NoEscape(letter)
    ensures Unescape(['\\', letter] + rest) == Unescape(rest)
  {
    assert forall i :: 0 <= i < |SHORT_ESCAPES| ==> SHORT_ESCAPES[i].0 != letter;
    assert SHORT_ESCAPES[0].0 != letter && SHORT_ESCAPES[1].0 != letter && SHORT_ESCAPES[2].0 != letter;
    assert SHORT_ESCAPES[3].0 != letter && SHORT_ESCAPES[4].0 != letter && SHORT_ESCAPES[5].0 != letter;
    assert SHORT_ESCAPES[6].0 != letter && SHORT_ESCAPES[7].0 != letter;
    VanishesBefore(letter, rest);
  }

  /** A backslash at the very end stays, as any other character does anywhere. */
  lemma PlainMeans(c: char, rest: string)
    ensures c != '\\' || rest == "" ==> Unescape([c] + rest) == [c] + Unescape(rest)
  {
    assert c == '\\' && rest == "" ==> [c] + rest == [c];
  }

  /** All but the last of the short escapes are also written, whatever the options. */
  lemma ShortEscapeWritten(i: nat, o: Options)
    requires i < 7
    ensures EscapeOne(SHORT_ESCAPES[i].1, o) == ['\\', SHORT_ESCAPES[i].0]
  {
  }

  /** Any other byte is written as it is, or as its four upper-case hexadecimal digits. */
  lemma OthersWritten(c: char, n1: nat, n2: nat, o: Options)
    requires forall i :: 0 <= i < 7 ==> c != SHORT_ESCAPES[i].1
    requires n1 < 16 && n2 < 16 && c as int == n1 * 16 + n2
    ensures EscapeOne(c, o) == if o.rawUtf8 || (!o.escNonascii && o.printable(c)) then [c]
                               else ['\\', 'u', '0', '0', UPPER_HEX[n1], UPPER_HEX[n2]]
  {
    assert SHORT_ESCAPES[0].1 != c && SHORT_ESCAPES[1].1 != c && SHORT_ESCAPES[2].1 != c && SHORT_ESCAPES[3].1 != c;
    assert SHORT_ESCAPES[4].1 != c && SHORT_ESCAPES[5].1 != c && SHORT_ESCAPES[6].1 != c;
    NonPrintableRead(c as nat, n1, n2);
    HexCharIs(n1);
    HexCharIs(n2);
  }

  lemma HexCharIs(n: nat)
    requires n < 16
    ensures ToHexChar(n) == UPPER_HEX[n]
  {
  }

  // ----- the round trip

  lemma HexCharRead(n: nat)
    requires n <= 0xF
    ensures HexToNum(ToHexChar(n)) == n
  {
  }

  lemma NonPrintableRead(n: nat, high: nat, low: nat)
    requires n < 256 && high == n / 16 && low == n % 16
    ensures NonPrintableToString(n) == ['\\', 'u', '0', '0', ToHexChar(high), ToHexChar(low)]
    ensures UnicodeStrToChar('0', '0', ToHexChar(high), ToHexChar(low)) == n as char
  {
    assert n / 0x1000 == 0 && n / 0x100 == 0;
    HexCharRead(high);
    HexCharRead(low);
  }

  lemma UnescapeEscaped(c: char, o: Options, rest: string)
    requires c as int < 256
    ensures Unescape(EscapeOne(c, o) + rest) == [c] + Unescape(rest)
  {
    var e := EscapeOne(c, o);
    if |e| == 1 {
      UnescapeOnePlain(c, rest);
    } else if |e| == 2 {
      UnescapeShort(c, rest);
    } else {
      var n := c as nat;
      NonPrintableRead(n, n / 16, n % 16);
      UnescapeUnicode(e, '0', '0', e[4], e[5], rest);
    }
  }

  lemma UnescapeOnePlain(c: char, rest: string)
    requires c != '\\'
    ensures Unescape([c] + rest) == [c] + Unescape(rest)
  {
  }

  lemma UnescapeShort(c: char, rest: string)
    requires EscLetter(c).Some?
    ensures Unescape(['\\', EscLetter(c).value] + rest) == [c] + Unescape(rest)
  {
  }

  lemma UnescapeUnicode(e: string, c1: char, c2: char, c3: char, c4: char, rest: string)
    requires e == ['\\', 'u', c1, c2, c3, c4]
    ensures Unescape(e + rest) == [UnicodeStrToChar(c1, c2, c3, c4)] + Unescape(rest)
  {
  }

  /** Unescaping the escaped text gives back the bytes, whatever is printable and whatever the options. */
  lemma {:induction false} EscapeRoundTrip(s: string, o: Options)
    requires IsBytes(s)
    ensures Unescape(Escape(s, o)) == s
    decreases |s|
  {
    if s != "" {
      UnescapeEscaped(s[0], o, Escape(s[1..], o));
      EscapeRoundTrip(s[1..], o);
    }
  }

  // ----- what stays as it is

  /**
    A character stays as it is if it has no short escape, and is either raw or printable without the escape-
    nonascii option.
    */
  predicate Stays(c: char, o: Options) {
    EscLetter(c).None? && (o.rawUtf8 || (!o.escNonascii && o.printable(c)))
  }

  lemma {:induction false} EscapeGrows(s: string, o: Options)
    ensures |Escape(s, o)| >= |s|
    decreases |s|
  {
    if s != "" { EscapeGrows(s[1..], o); }
  }

  /** Exactly the strings of such characters are written unchanged. */
  lemma {:induction false} UnchangedExactly(s: string, o: Options)
    ensures Escape(s, o) == s <==> forall i :: 0 <= i < |s| ==> Stays(s[i], o)
    decreases |s|
  {
    if s != "" {
      UnchangedExactly(s[1..], o);
      EscapeGrows(s[1..], o);
      var e := EscapeOne(s[0], o);
      if |e| == 1 {
        assert s == e + s[1..];
        assert Escape(s, o)[1..] == Escape(s[1..], o);
        assert Stays(s[0], o);
        assert forall i :: 0 < i < |s| ==> s[i] == s[1..][i - 1];
      } else {
        assert |Escape(s, o)| > |s| && !Stays(s[0], o);
      }
    }
  }

  /** The option to escape what is not ASCII is documented to leave printable ASCII alone; it does not. */
  lemma AsciiEscapedToo(printable: char -> bool)
    ensures Escape("a", Options(false, true, printable)) == "\\u0061"
  {
  }

  // ----- the string token

  /** The body of a string token: plain characters, and backslashes with whatever follows them. */
  function TokenLength(s: string): (n: nat)
    ensures n <= |s|
    decreases |s|
  {
    if s == "" || s[0] == '"' then 0
    else if s[0] == '\\' then if |s| == 1 then 0 else 2 + TokenLength(s[2..])
    else 1 + TokenLength(s[1..])
  }

  lemma {:induction false} TokenLengthPlain(s: string, k: nat)
    requires k <= |s| && forall i :: 0 <= i < k ==> s[i] != '"' && s[i] != '\\'
    ensures TokenLength(s) == k + TokenLength(s[k..])
    decreases k
  {
    if k > 0 {
      TokenLengthPlain(s[1..], k - 1);
      assert s[1..][k - 1..] == s[k..];
    } else {
      assert s[0..] == s;
    }
  }

  lemma TokenOfEscaped(c: char, o: Options, rest: string)
    ensures TokenLength(EscapeOne(c, o) + rest) == |EscapeOne(c, o)| + TokenLength(rest)
  {
    var e := EscapeOne(c, o);
    var s := e + rest;
    if |e| == 1 {
      assert s[1..] == rest;
    } else {
      assert s[2..] == e[2..] + rest;
      TokenLengthPlain(s[2..], |e| - 2);
      assert s[2..][|e| - 2..] == rest;
    }
  }

  /** The escaped text contains no quote that would end the string token early. */
  lemma {:induction false} EscapedTokenEndsAtQuote(s: string, o: Options, rest: string)
    ensures TokenLength(Escape(s, o) + ("\"" + rest)) == |Escape(s, o)|
    decreases |s|
  {
    if s == "" {
      assert Escape(s, o) + ("\"" + rest) == "\"" + rest;
    } else {
      assert Escape(s, o) + ("\"" + rest) == EscapeOne(s[0], o) + (Escape(s[1..], o) + ("\"" + rest));
      TokenOfEscaped(s[0], o, Escape(s[1..], o) + ("\"" + rest));
      EscapedTokenEndsAtQuote(s[1..], o, rest);
    }
  }
}
