/**
 The hand-built HTTP requests of src/app_bk.c, read back by a recipient that frames messages as
 section 2.1 and section 6.3 of RFC 9112 say and takes the bearer token as section 2.1 of RFC 6750
 says.
 */
module RequestText {
  import opened TokenText

  const CRLF: string := "\r\n"
  const SEND_BUF_SIZE: nat := 2048
  const LENGTH_FIELD: string := "Content-Length: "
  const BEARER_FIELD: string := "Authorization: Bearer "

  // ----- decimal numbers ---------------------------------------------------------------------------

  function Decimal(n: nat): (r: string)
    ensures r != [] && forall i :: 0 <= i < |r| ==> '0' <= r[i] <= '9'
    ensures r[0] == '0' ==> r == "0" && n == 0
  {
    var digit := ('0' as int + n % 10) as char;
    if n < 10 then [digit] else Decimal(n / 10) + [digit]
  }

  function ParseDecimal(s: string): Option<nat> {
    if s == [] then Some(0)
    else
      var n := |s| - 1;
      if !('0' <= s[n] <= '9') then None
      else match ParseDecimal(s[..n])
           case None => None
           case Some(v) => Some(10 * v + (s[n] as int - '0' as int))
  }

  lemma {:induction false} DecimalRoundTrip(n: nat)
    ensures ParseDecimal(Decimal(n)) == Some(n)
  {
    var digit := ('0' as int + n % 10) as char;
    var s := Decimal(n);
    if n < 10 {
      assert s[..|s| - 1] == [];
    } else {
      DecimalRoundTrip(n / 10);
      assert s[..|s| - 1] == Decimal(n / 10);
    }
  }

  // ----- building -----------------------------------------------------------------------------------

  function Unlines(lines: seq<string>): string {
    if lines == [] then [] else lines[0] + CRLF + Unlines(lines[1..])
  }

  function Request(lines: seq<string>, payload: string): string { Unlines(lines) + (CRLF + payload) }

  function DataLines(token: string, length: nat): seq<string> {
    ["POST " + "/api/add-patient-clinical-data" + " HTTP/1.1",
     "Host: api1.prescoipd.com",
     BEARER_FIELD + token,
     "Content-Type: " + "application/json",
     LENGTH_FIELD + Decimal(length),
     "Connection: close"]
  }

  function LoginLines(length: nat): seq<string> {
    ["POST " + "/api/login" + " HTTP/1.1",
     "Host: api1.prescoipd.com",
     "Content-Type: " + "application/x-www-form-urlencoded",
     LENGTH_FIELD + Decimal(length),
     "Connection: close"]
  }

  function DataRequest(token: string, payload: string): string {
    Request(DataLines(token, |payload|), payload)
  }

  function LoginRequest(body: string): string { Request(LoginLines(|body|), body) }

  /** snprintk into `send_buf`: what does not fit, with the terminator, is cut off. */
  function Sent(text: string): (r: string)
    ensures r <= text && |r| == if |text| <= 2047 then |text| else 2047
  {
    if |text| < SEND_BUF_SIZE then text else text[..SEND_BUF_SIZE - 1]
  }

  // ----- the recipient ------------------------------------------------------------------------------

  datatype Head = Head(lines: seq<string>, body: string)

  /** Lines up to the first empty one, and what follows it. */
  function ParseHead(text: string): Option<Head>
    decreases |text|
  {
    match Find(text, CRLF, 0)
    case None => None
    case Some(0) => Some(Head([], text[2..]))
    case Some(n) => Prepend(text[..n], ParseHead(text[n + 2..]))
  }

  function Prepend(line: string, head: Option<Head>): Option<Head> {
    match head
    case None => None
    case Some(h) => Some(Head([line] + h.lines, h.body))
  }

  /** The rest of the first line that begins with `field`. */
  function FieldValue(lines: seq<string>, field: string): Option<string> {
    if lines == [] then None
    else if field <= lines[0] then Some(lines[0][|field|..])
    else FieldValue(lines[1..], field)
  }

  function PayloadOf(text: string): Option<string> {
    match ParseHead(text)
    case None => None
    case Some(h) =>
      match FieldValue(h.lines, LENGTH_FIELD)
      case None => None
      case Some(value) =>
        match ParseDecimal(value)
        case None => None
        case Some(n) => if n <= |h.body| then Some(h.body[..n]) else None
  }

  function BearerOf(text: string): Option<string> {
    match ParseHead(text)
    case None => None
    case Some(h) => FieldValue(h.lines, BEARER_FIELD)
  }

  // ----- lines ---------------------------------------------------------------------------------------

  predicate Line(s: string) { s != [] && !Contains(s, CRLF) }

  predicate Lines(lines: seq<string>) { forall i :: 0 <= i < |lines| ==> Line(lines[i]) }

  /** A line break inside `s` or the one after it: the first is the one after it iff `s` has none. */
  lemma FirstBreakExactly(s: string, rest: string)
    ensures Find(s + CRLF + rest, CRLF, 0) == Some(|s|) <==> !Contains(s, CRLF)
  {
    var text := s + CRLF + rest;
    assert text == s + (CRLF + rest);
    assert OccursAt(text, CRLF, |s|);
    if Contains(s, CRLF) {
      var i :| 0 <= i <= |s| && OccursAt(s, CRLF, i);
      PrefixOccurrence(s, CRLF + rest, CRLF, i);
    } else {
      var i := Find(text, CRLF, 0).value;
      if i < |s| {
        assert text[i + 1] == text[i..i + 2][1] == '\n';
        assert i + 2 <= |s|;
        PrefixOccurrence(s, CRLF + rest, CRLF, i);
      }
    }
  }

  lemma ParseFirstLine(line: string, rest: string)
    requires Line(line)
    ensures ParseHead(line + CRLF + rest) == Prepend(line, ParseHead(rest))
  {
    FirstBreakExactly(line, rest);
    var text := line + CRLF + rest;
    assert text[|line| + 2..] == rest && text[..|line|] == line;
  }

  lemma ParseBlankLine(body: string)
    ensures ParseHead(CRLF + body) == Some(Head([], body))
  {
    assert OccursAt(CRLF + body, CRLF, 0);
    assert (CRLF + body)[2..] == body;
  }

  lemma RequestUnfold(lines: seq<string>, body: string)
    requires lines != []
    ensures Request(lines, body) == lines[0] + CRLF + Request(lines[1..], body)
  {
    var l, u, b := lines[0] + CRLF, Unlines(lines[1..]), CRLF + body;
    assert (l + u) + b == l + (u + b);
  }

  lemma PrependBack(lines: seq<string>, body: string)
    requires lines != []
    ensures Prepend(lines[0], Some(Head(lines[1..], body))) == Some(Head(lines, body))
  {
    assert [lines[0]] + lines[1..] == lines;
  }

  /** Splitting at the first blank line gives back the lines and the body. */
  lemma {:induction false} HeadRoundTrip(lines: seq<string>, body: string)
    requires Lines(lines)
    ensures ParseHead(Request(lines, body)) == Some(Head(lines, body))
    decreases |lines|
  {
    if lines == [] {
      ParseBlankLine(body);
      assert Request(lines, body) == CRLF + body;
    } else {
      var rest := Request(lines[1..], body);
      HeadRoundTrip(lines[1..], body);
      RequestUnfold(lines, body);
      ParseFirstLine(lines[0], rest);
      PrependBack(lines, body);
    }
  }

  // ----- truncation ----------------------------------------------------------------------------------

  lemma NoBreakYet(line: string, rest: string, n: nat)
    requires Line(line) && n < |line| + 2 && n <= |line + CRLF + rest|
    ensures ParseHead((line + CRLF + rest)[..n]) == None
  {
    var text := line + CRLF + rest;
    FirstBreakExactly(line, rest);
    var f := Find(text[..n], CRLF, 0);
    if f.Some? {
      assert text == text[..n] + text[n..];
      PrefixOccurrence(text[..n], text[n..], CRLF, f.value);
    }
  }

  lemma CutLater(line: string, rest: string, n: nat, k: nat)
    requires n == |line| + 2 + k && k <= |rest|
    ensures (line + CRLF + rest)[..n] == line + CRLF + rest[..k]
  {
  }

  lemma CutBlankLine(body: string, n: nat)
    requires n < 2
    ensures ParseHead((CRLF + body)[..n]) == None
  {
    assert Find((CRLF + body)[..n], CRLF, 0).None?;
  }

  /** A request cut inside its head, blank line included, has no head any more. */
  lemma {:induction false} CutHead(lines: seq<string>, body: string, n: nat)
    requires Lines(lines) && n < |Unlines(lines)| + 2
    ensures n <= |Request(lines, body)| && ParseHead(Request(lines, body)[..n]) == None
    decreases |lines|
  {
    if lines == [] {
      CutBlankLine(body, n);
      assert Request(lines, body) == CRLF + body;
    } else {
      var rest := Request(lines[1..], body);
      RequestUnfold(lines, body);
      if n < |lines[0]| + 2 {
        NoBreakYet(lines[0], rest, n);
      } else {
        var k := n - |lines[0]| - 2;
        CutHead(lines[1..], body, k);
        ParseFirstLine(lines[0], rest[..k]);
        CutLater(lines[0], rest, n, k);
      }
    }
  }

  /** The head with its blank line fits what is sent. */
  predicate HeadFits(lines: seq<string>) { |Unlines(lines)| + 2 < SEND_BUF_SIZE }

  /** How much of the body is sent after such a head. */
  function BodySent(lines: seq<string>, body: string): string
    requires HeadFits(lines)
  {
    var room := SEND_BUF_SIZE - 1 - |Unlines(lines)| - 2;
    if |body| <= room then body else body[..room]
  }

  lemma SentShape(lines: seq<string>, body: string)
    requires HeadFits(lines)
    ensures Sent(Request(lines, body)) == Request(lines, BodySent(lines, body))
  {
    var u, room := Unlines(lines), SEND_BUF_SIZE - 1 - |Unlines(lines)| - 2;
    if |body| > room {
      assert Request(lines, body)[..SEND_BUF_SIZE - 1] == u + (CRLF + body[..room]);
    }
  }

  /** What the recipient makes of a request as it was sent: the lines and as much body as was sent, or,
      if the head was cut, nothing. */
  lemma SentHeadExactly(lines: seq<string>, body: string)
    requires Lines(lines)
    ensures ParseHead(Sent(Request(lines, body))) ==
            if HeadFits(lines) then Some(Head(lines, BodySent(lines, body))) else None
  {
    if HeadFits(lines) {
      SentShape(lines, body);
      HeadRoundTrip(lines, BodySent(lines, body));
    } else {
      CutHead(lines, body, SEND_BUF_SIZE - 1);
      RequestLength(lines, body);
    }
  }

  lemma RequestLength(lines: seq<string>, body: string)
    ensures |Request(lines, body)| == |Unlines(lines)| + 2 + |body|
  {
  }

  // ----- lines and their characters -------------------------------------------------------------------

  lemma BreakBegins(s: string, i: nat)
    requires OccursAt(s, CRLF, i)
    ensures s[i] == '\r' && s[i + 1] == '\n' && s[i] in s
  {
    assert s[i..i + 2][0] == s[i] && s[i..i + 2][1] == s[i + 1];
  }

  lemma DigitsAreALine(field: string, n: nat)
    requires field != [] && '\r' !in field
    ensures Line(field + Decimal(n))
  {
    NoReturnIsALine(field + Decimal(n));
  }

  lemma NoReturnIsALine(s: string)
    requires s != [] && '\r' !in s
    ensures Line(s)
  {
    if Contains(s, CRLF) {
      var i :| 0 <= i <= |s| && OccursAt(s, CRLF, i);
      BreakBegins(s, i);
    }
  }

  lemma TailOccurrence(p: string, rest: string, pattern: string, i: nat)
    requires |p| <= i && OccursAt(p + rest, pattern, i)
    ensures OccursAt(rest, pattern, i - |p|)
  {
    assert (p + rest)[i..i + |pattern|] == rest[i - |p|..i - |p| + |pattern|];
  }

  lemma FieldThenToken(token: string)
    ensures Line(BEARER_FIELD + token) <==> !Contains(token, CRLF)
  {
    var s := BEARER_FIELD + token;
    var k := |BEARER_FIELD|;
    if Contains(token, CRLF) {
      var i :| 0 <= i <= |token| && OccursAt(token, CRLF, i);
      assert s[k + i..k + i + 2] == token[i..i + 2];
      assert OccursAt(s, CRLF, k + i);
    } else {
      if Contains(s, CRLF) {
        var i :| 0 <= i <= |s| && OccursAt(s, CRLF, i);
        BreakBegins(s, i);
        assert '\r' !in BEARER_FIELD;
        TailOccurrence(BEARER_FIELD, token, CRLF, i);
      }
    }
  }

  lemma DataLinesAreLines(token: string, n: nat)
    requires !Contains(token, CRLF)
    ensures Lines(DataLines(token, n))
  {
    var lines := DataLines(token, n);
    NoReturnIsALine(lines[0]);
    NoReturnIsALine(lines[1]);
    FieldThenToken(token);
    NoReturnIsALine(lines[3]);
    DigitsAreALine(LENGTH_FIELD, n);
    NoReturnIsALine(lines[5]);
  }

  lemma LoginLinesAreLines(n: nat)
    ensures Lines(LoginLines(n))
  {
    var lines := LoginLines(n);
    NoReturnIsALine(lines[0]);
    NoReturnIsALine(lines[1]);
    NoReturnIsALine(lines[2]);
    DigitsAreALine(LENGTH_FIELD, n);
    NoReturnIsALine(lines[4]);
  }

  lemma {:induction false} FieldAt(lines: seq<string>, field: string, i: nat)
    requires i < |lines| && field <= lines[i] && forall j :: 0 <= j < i ==> !(field <= lines[j])
    ensures FieldValue(lines, field) == Some(lines[i][|field|..])
    decreases i
  {
    if i > 0 {
      FieldAt(lines[1..], field, i - 1);
    }
  }

  lemma DataFields(token: string, n: nat)
    ensures FieldValue(DataLines(token, n), LENGTH_FIELD) == Some(Decimal(n))
    ensures FieldValue(DataLines(token, n), BEARER_FIELD) == Some(token)
  {
    var lines := DataLines(token, n);
    assert lines[0][0] == 'P' && lines[1][0] == 'H' && lines[2][0] == 'A' && lines[3][8] == 'T';
    assert LENGTH_FIELD[0] == 'C' && LENGTH_FIELD[8] == 'L' && BEARER_FIELD[0] == 'A';
    FieldAt(lines, LENGTH_FIELD, 4);
    FieldAt(lines, BEARER_FIELD, 2);
  }

  lemma LoginFields(n: nat)
    ensures FieldValue(LoginLines(n), LENGTH_FIELD) == Some(Decimal(n))
  {
    var lines := LoginLines(n);
    assert lines[0][0] == 'P' && lines[1][0] == 'H' && lines[2][8] == 'T';
    assert LENGTH_FIELD[0] == 'C' && LENGTH_FIELD[8] == 'L';
    FieldAt(lines, LENGTH_FIELD, 3);
  }

  /** The length field, if it is the first one, says `n`. */
  predicate LengthSays(lines: seq<string>, n: nat) {
    var field := FieldValue(lines, LENGTH_FIELD);
    field.Some? && ParseDecimal(field.value) == Some(n)
  }

  lemma PayloadMeans(text: string, lines: seq<string>, body: string, payload: string)
    requires ParseHead(text) == Some(Head(lines, body))
    ensures PayloadOf(text) == Some(payload) <==> LengthSays(lines, |payload|) && payload <= body
  {
    if PayloadOf(text) == Some(payload) {
      var n := ParseDecimal(FieldValue(lines, LENGTH_FIELD).value).value;
      assert |body[..n]| == n;
    }
    if LengthSays(lines, |payload|) && payload <= body { assert body[..|payload|] == payload; }
  }

  /** A request with these lines, as it was sent, yields back the payload exactly if its head fits, the
      first length field tells the payload's length, and the body sent begins with the payload. */
  lemma SentFramingExactly(lines: seq<string>, body: string, payload: string)
    requires Lines(lines)
    ensures PayloadOf(Sent(Request(lines, body))) == Some(payload) <==>
            HeadFits(lines) && LengthSays(lines, |payload|) && payload <= BodySent(lines, body)
  {
    SentHeadExactly(lines, body);
    if HeadFits(lines) { PayloadMeans(Sent(Request(lines, body)), lines, BodySent(lines, body), payload); }
  }

  /** In particular, with an honest length field: exactly if the text was sent whole. */
  lemma SentWholeExactly(lines: seq<string>, payload: string)
    requires Lines(lines) && LengthSays(lines, |payload|)
    ensures PayloadOf(Sent(Request(lines, payload))) == Some(payload) <==>
            |Request(lines, payload)| < SEND_BUF_SIZE
  {
    SentFramingExactly(lines, payload, payload);
    RequestLength(lines, payload);
  }

  // ----- a token with line breaks ---------------------------------------------------------------------

  /** The parts of `s` between its line breaks. */
  function Split(s: string): seq<string>
    decreases |s|
  {
    match Find(s, CRLF, 0)
    case None => [s]
    case Some(n) => [s[..n]] + Split(s[n + 2..])
  }

  predicate Unbroken(lines: seq<string>) { forall i :: 0 <= i < |lines| ==> !Contains(lines[i], CRLF) }

  lemma FirstPartUnbroken(s: string)
    requires Find(s, CRLF, 0).Some?
    ensures !Contains(s[..Find(s, CRLF, 0).value], CRLF)
    ensures s == s[..Find(s, CRLF, 0).value] + CRLF + s[Find(s, CRLF, 0).value + 2..]
  {
    var n := Find(s, CRLF, 0).value;
    assert s == s[..n] + CRLF + s[n + 2..];
    FirstBreakExactly(s[..n], s[n + 2..]);
  }

  lemma {:induction false} SplitUnbroken(s: string)
    ensures Unbroken(Split(s)) && Split(s) != []
    decreases |s|
  {
    var n := Find(s, CRLF, 0);
    if n.Some? {
      FirstPartUnbroken(s);
      SplitUnbroken(s[n.value + 2..]);
    }
  }

  lemma UnlinesCons(l: string, rest: seq<string>)
    ensures Unlines([l] + rest) == l + CRLF + Unlines(rest)
  {
    assert ([l] + rest)[1..] == rest;
  }

  lemma UnlinesOne(l: string)
    ensures Unlines([l]) == l + CRLF
  {
    assert [l] + [] == [l];
    UnlinesCons(l, []);
    assert l + CRLF + "" == l + CRLF;
  }

  lemma Assoc(a: string, b: string, c: string)
    ensures (a + b) + c == a + (b + c)
  {
  }

  /** Writing the parts as lines gives `s` and a line break. */
  lemma {:induction false} SplitJoins(s: string)
    ensures Unlines(Split(s)) == s + CRLF
    decreases |s|
  {
    var f := Find(s, CRLF, 0);
    if f.None? {
      UnlinesOne(s);
    } else {
      var cut, tail := s[..f.value], s[f.value + 2..];
      FirstPartUnbroken(s);
      SplitJoins(tail);
      UnlinesCons(cut, Split(tail));
      Assoc(cut + CRLF, tail, CRLF);
    }
  }

  lemma {:induction false} UnlinesConcat(a: seq<string>, b: seq<string>)
    ensures Unlines(a + b) == Unlines(a) + Unlines(b)
    decreases |a|
  {
    if a == [] {
      assert a + b == b;
    } else {
      UnlinesConcat(a[1..], b);
      assert (a + b)[1..] == a[1..] + b;
      var l := a[0] + CRLF;
      assert l + (Unlines(a[1..]) + Unlines(b)) == (l + Unlines(a[1..])) + Unlines(b);
    }
  }

  /** The lines that the recipient of a data request sees, whatever the token. */
  function SeenLines(token: string, n: nat): seq<string> {
    var lines := DataLines(token, n);
    lines[..2] + Split(lines[2]) + lines[3..]
  }

  /** Replacing a line by lines that are written the same changes nothing. */
  lemma Substitute(a: seq<string>, l: string, b: seq<string>, c: seq<string>)
    requires Unlines(b) == l + CRLF
    ensures Unlines(a + [l] + c) == Unlines(a + b + c)
  {
    UnlinesOne(l);
    UnlinesConcat(a + [l], c);
    UnlinesConcat(a, [l]);
    UnlinesConcat(a + b, c);
    UnlinesConcat(a, b);
  }

  lemma SeenLinesText(token: string, payload: string)
    ensures DataRequest(token, payload) == Request(SeenLines(token, |payload|), payload)
  {
    var lines := DataLines(token, |payload|);
    SplitJoins(lines[2]);
    Substitute(lines[..2], lines[2], Split(lines[2]), lines[3..]);
    assert lines == lines[..2] + [lines[2]] + lines[3..];
  }

  lemma SeenUnbroken(token: string, n: nat)
    ensures Unbroken(SeenLines(token, n))
  {
    var lines := DataLines(token, n);
    NoReturnIsALine(lines[0]);
    NoReturnIsALine(lines[1]);
    SplitUnbroken(lines[2]);
    NoReturnIsALine(lines[3]);
    DigitsAreALine(LENGTH_FIELD, n);
    NoReturnIsALine(lines[5]);
  }

  /** The place of the first empty line, which ends the head. */
  function FirstEmpty(lines: seq<string>): (e: nat)
    ensures e <= |lines| && (e < |lines| ==> lines[e] == [])
    ensures forall i :: 0 <= i < e ==> lines[i] != []
  {
    if lines == [] || lines[0] == [] then 0 else 1 + FirstEmpty(lines[1..])
  }

  function SeenHead(token: string, n: nat): seq<string> {
    var lines := SeenLines(token, n);
    lines[..FirstEmpty(lines)]
  }

  /** What follows the head in the recipient's view: more than the payload if the token ends the head. */
  function SeenBody(token: string, payload: string): string {
    var lines := SeenLines(token, |payload|);
    var e := FirstEmpty(lines);
    if e == |lines| then payload else Unlines(lines[e + 1..]) + (CRLF + payload)
  }

  lemma SeenText(token: string, payload: string)
    ensures DataRequest(token, payload) == Request(SeenHead(token, |payload|), SeenBody(token, payload))
    ensures Lines(SeenHead(token, |payload|))
  {
    var lines := SeenLines(token, |payload|);
    var e := FirstEmpty(lines);
    SeenLinesText(token, payload);
    SeenUnbroken(token, |payload|);
    HeadIsLines(lines);
    if e == |lines| {
      assert lines[..e] == lines;
    } else {
      EmptyLineEnds(lines, e, payload);
    }
  }

  lemma HeadIsLines(lines: seq<string>)
    requires Unbroken(lines)
    ensures Lines(lines[..FirstEmpty(lines)])
  {
  }

  lemma EmptyLineEnds(lines: seq<string>, e: nat, payload: string)
    requires e < |lines| && lines[e] == []
    ensures Request(lines, payload) == Request(lines[..e], Unlines(lines[e + 1..]) + (CRLF + payload))
  {
    var a, b := lines[..e], lines[e + 1..];
    assert lines == a + ([lines[e]] + b);
    UnlinesConcat(a, [lines[e]] + b);
    UnlinesCons(lines[e], b);
    assert lines[e] + CRLF + Unlines(b) == CRLF + Unlines(b);
    Assoc(Unlines(a), CRLF + Unlines(b), CRLF + payload);
    Assoc(CRLF, Unlines(b), CRLF + payload);
  }

  /** The data request, for every token: the recipient takes back the payload exactly if the head it
      sees fits, the first length field in that head tells the payload's length, and what was sent after
      it begins with the payload. */
  lemma DataFramingExactly(token: string, payload: string)
    ensures
      var head := SeenHead(token, |payload|);
      PayloadOf(Sent(DataRequest(token, payload))) == Some(payload) <==>
      HeadFits(head) && LengthSays(head, |payload|) && payload <= BodySent(head, SeenBody(token, payload))
  {
    SeenText(token, payload);
    SentFramingExactly(SeenHead(token, |payload|), SeenBody(token, payload), payload);
  }

  /** For a token without a line break that is: exactly if the text fits the buffer. */
  lemma PlainFramingExactly(token: string, payload: string)
    requires !Contains(token, CRLF)
    ensures PayloadOf(Sent(DataRequest(token, payload))) == Some(payload) <==>
            |DataRequest(token, payload)| < SEND_BUF_SIZE
  {
    DataLinesAreLines(token, |payload|);
    DataFields(token, |payload|);
    DecimalRoundTrip(|payload|);
    SentWholeExactly(DataLines(token, |payload|), payload);
  }

  lemma LoginFramingExactly(body: string)
    ensures PayloadOf(Sent(LoginRequest(body))) == Some(body) <==> |LoginRequest(body)| < SEND_BUF_SIZE
  {
    LoginLinesAreLines(|body|);
    LoginFields(|body|);
    DecimalRoundTrip(|body|);
    SentWholeExactly(LoginLines(|body|), body);
  }

  /** The line of the token is the third, and holds the token up to its first line break. */
  lemma SeenBearer(token: string, n: nat)
    ensures |SeenHead(token, n)| >= 3
    ensures FieldValue(SeenHead(token, n), BEARER_FIELD) == Some(token) <==> !Contains(token, CRLF)
  {
    var lines := DataLines(token, n);
    var seen, head := SeenLines(token, n), SeenHead(token, n);
    SplitUnbroken(lines[2]);
    assert seen[0] == lines[0] && seen[1] == lines[1] && seen[2] == Split(lines[2])[0];
    FirstPart(token);
    assert lines[0][0] == 'P' && lines[1][0] == 'H' && BEARER_FIELD[0] == 'A';
    assert seen[2] != [];
    FieldAt(head, BEARER_FIELD, 2);
    assert head[2] == seen[2];
  }

  lemma FirstPart(token: string)
    ensures
      var first := Split(BEARER_FIELD + token)[0];
      BEARER_FIELD <= first && (first[|BEARER_FIELD|..] == token <==> !Contains(token, CRLF))
  {
    var s, k := BEARER_FIELD + token, |BEARER_FIELD|;
    FieldThenToken(token);
    match Find(s, CRLF, 0)
    case None =>
      assert !Contains(s, CRLF);
      assert s[k..] == token;
    case Some(n) =>
      BreakBegins(s, n);
      assert OccursAt(s, CRLF, n) && Contains(s, CRLF);
      assert '\r' !in BEARER_FIELD;
      assert n >= k;
      assert |s[..n][k..]| < |token|;
  }

  /** The Authorization field of the text sent yields back the token exactly if the token holds no line
      break and the head with its blank line fits the buffer. */
  lemma BearerExactly(token: string, payload: string)
    ensures BearerOf(Sent(DataRequest(token, payload))) == Some(token) <==>
            !Contains(token, CRLF) && HeadFits(DataLines(token, |payload|))
  {
    var head := SeenHead(token, |payload|);
    SeenText(token, payload);
    SentHeadExactly(head, SeenBody(token, payload));
    SeenBearer(token, |payload|);
    if !Contains(token, CRLF) {
      DataLinesAreLines(token, |payload|);
      SentHeadExactly(DataLines(token, |payload|), payload);
      DataFields(token, |payload|);
    }
  }

  // ----- what the requests ask for ---------------------------------------------------------------------

  /** The request line, and the fields that both requests have. */
  predicate Asks(lines: seq<string>, first: string, host: string, contentType: string, length: nat) {
    && lines != [] && lines[0] == first
    && FieldValue(lines, "Host: ") == Some(host)
    && FieldValue(lines, "Content-Type: ") == Some(contentType)
    && FieldValue(lines, "Content-Length: ") == Some(Decimal(length))
    && FieldValue(lines, "Connection: ") == Some("close")
  }

  /** A line that begins with `field` and goes on with `value`. */
  lemma FieldIs(lines: seq<string>, i: nat, field: string, value: string)
    requires i < |lines| && lines[i] == field + value
    requires forall j :: 0 <= j < i ==> !(field <= lines[j])
    ensures FieldValue(lines, field) == Some(value)
  {
    assert (field + value)[|field|..] == value;
    FieldAt(lines, field, i);
  }

  /** A line with another character at `k` does not begin with `field`. */
  lemma NoPrefix(field: string, line: string, k: nat)
    requires k < |field| && k < |line| && field[k] != line[k]
    ensures !(field <= line)
  {
  }

  lemma HostField(lines: seq<string>, value: string)
    requires |lines| > 1 && lines[0] != [] && lines[0][0] == 'P' && lines[1] == "Host: " + value
    ensures FieldValue(lines, "Host: ") == Some(value)
  {
    FieldIs(lines, 1, "Host: ", value);
  }

  lemma AuthorizationField(lines: seq<string>, value: string)
    requires |lines| > 2 && lines[2] == "Authorization: " + value
    requires forall j :: 0 <= j < 2 ==> lines[j] != [] && lines[j][0] != 'A'
    ensures FieldValue(lines, "Authorization: ") == Some(value)
  {
    FieldIs(lines, 2, "Authorization: ", value);
  }

  /** The lines before line `k` do not begin with a C. */
  predicate NoneBeginsWithC(lines: seq<string>, k: nat) {
    k <= |lines| && forall j :: 0 <= j < k ==> lines[j] != [] && lines[j][0] != 'C'
  }

  lemma NotBefore(lines: seq<string>, k: nat, field: string)
    requires NoneBeginsWithC(lines, k) && field != [] && field[0] == 'C'
    ensures forall j :: 0 <= j < k ==> !(field <= lines[j])
  {
  }

  lemma ContentTypeField(lines: seq<string>, k: nat, value: string)
    requires NoneBeginsWithC(lines, k) && k < |lines| && lines[k] == "Content-Type: " + value
    ensures FieldValue(lines, "Content-Type: ") == Some(value)
  {
    NotBefore(lines, k, "Content-Type: ");
    FieldIs(lines, k, "Content-Type: ", value);
  }

  lemma ContentLengthField(lines: seq<string>, k: nat, kind: string, value: string)
    requires NoneBeginsWithC(lines, k) && k + 1 < |lines|
    requires lines[k] == "Content-Type: " + kind && lines[k + 1] == "Content-Length: " + value
    ensures FieldValue(lines, "Content-Length: ") == Some(value)
  {
    NotBefore(lines, k, "Content-Length: ");
    NoPrefix("Content-Length: ", lines[k], 8);
    FieldIs(lines, k + 1, "Content-Length: ", value);
  }

  lemma ContentFourth(kind: string, length: string)
    ensures !("Connection: " <= "Content-Type: " + kind) && !("Connection: " <= "Content-Length: " + length)
  {
    NoPrefix("Connection: ", "Content-Type: " + kind, 3);
    NoPrefix("Connection: ", "Content-Length: " + length, 3);
  }

  lemma ConnectionField(lines: seq<string>, k: nat, kind: string, length: string, value: string)
    requires NoneBeginsWithC(lines, k) && k + 2 < |lines|
    requires lines[k] == "Content-Type: " + kind && lines[k + 1] == "Content-Length: " + length
    requires lines[k + 2] == "Connection: " + value
    ensures FieldValue(lines, "Connection: ") == Some(value)
  {
    NotBefore(lines, k, "Connection: ");
    ContentFourth(kind, length);
    FieldIs(lines, k + 2, "Connection: ", value);
  }

  lemma LastFields(lines: seq<string>, k: nat, kind: string, length: string, connection: string)
    requires NoneBeginsWithC(lines, k) && k + 2 < |lines|
    requires lines[k] == "Content-Type: " + kind && lines[k + 1] == "Content-Length: " + length
    requires lines[k + 2] == "Connection: " + connection
    ensures FieldValue(lines, "Content-Type: ") == Some(kind)
    ensures FieldValue(lines, "Content-Length: ") == Some(length)
    ensures FieldValue(lines, "Connection: ") == Some(connection)
  {
    ContentTypeField(lines, k, kind);
    ContentLengthField(lines, k, kind, length);
    ConnectionField(lines, k, kind, length, connection);
  }

  lemma SharedLiterals()
    ensures "Host: api1.prescoipd.com" == "Host: " + "api1.prescoipd.com"
    ensures "Connection: close" == "Connection: " + "close"
  {
  }

  lemma DataFirstLine()
    ensures "POST " + "/api/add-patient-clinical-data" + " HTTP/1.1" == "POST /api/add-patient-clinical-data HTTP/1.1"
  {
  }

  lemma LoginFirstLine()
    ensures "POST " + "/api/login" + " HTTP/1.1" == "POST /api/login HTTP/1.1"
  {
  }

  lemma BearerLiteral(token: string)
    ensures BEARER_FIELD + token == "Authorization: " + ("Bearer " + token)
  {
    assert BEARER_FIELD == "Authorization: " + "Bearer ";
    Assoc("Authorization: ", "Bearer ", token);
  }

  lemma DataAsks(token: string, n: nat)
    ensures Asks(DataLines(token, n), "POST /api/add-patient-clinical-data HTTP/1.1", "api1.prescoipd.com",
                 "application/json", n)
    ensures FieldValue(DataLines(token, n), "Authorization: ") == Some("Bearer " + token)
    ensures |DataLines(token, n)| == 6
  {
    var lines := DataLines(token, n);
    DataFirstLine();
    SharedLiterals();
    BearerLiteral(token);
    HostField(lines, "api1.prescoipd.com");
    AuthorizationField(lines, "Bearer " + token);
    LastFields(lines, 3, "application/json", Decimal(n), "close");
  }

  lemma LoginAsks(n: nat)
    ensures Asks(LoginLines(n), "POST /api/login HTTP/1.1", "api1.prescoipd.com",
                 "application/x-www-form-urlencoded", n)
    ensures |LoginLines(n)| == 5
  {
    var lines := LoginLines(n);
    LoginFirstLine();
    SharedLiterals();
    HostField(lines, "api1.prescoipd.com");
    LastFields(lines, 2, "application/x-www-form-urlencoded", Decimal(n), "close");
  }

  /** For a token without a line break: the recipient makes something of the data request exactly if its
      head fits the 2047 characters, and then reads a post of JSON patient data to the data endpoint, with
      six lines and the bearer token. */
  lemma DataRequestAsks(token: string, payload: string)
    requires !Contains(token, CRLF)
    ensures
      var head := ParseHead(Sent(DataRequest(token, payload)));
      && (head.Some? <==> |Unlines(DataLines(token, |payload|))| + 2 <= 2047)
      && (head.Some? ==>
            && |head.value.lines| == 6
            && Asks(head.value.lines, "POST /api/add-patient-clinical-data HTTP/1.1", "api1.prescoipd.com",
                    "application/json", |payload|)
            && FieldValue(head.value.lines, "Authorization: ") == Some("Bearer " + token))
  {
    DataLinesAreLines(token, |payload|);
    SentHeadExactly(DataLines(token, |payload|), payload);
    DataAsks(token, |payload|);
  }

  lemma LoginRequestAsks(body: string)
    ensures
      var head := ParseHead(Sent(LoginRequest(body)));
      && (head.Some? <==> |Unlines(LoginLines(|body|))| + 2 <= 2047)
      && (head.Some? ==>
            && |head.value.lines| == 5
            && Asks(head.value.lines, "POST /api/login HTTP/1.1", "api1.prescoipd.com",
                    "application/x-www-form-urlencoded", |body|))
  {
    LoginLinesAreLines(|body|);
    SentHeadExactly(LoginLines(|body|), body);
    LoginAsks(|body|);
  }

  /** How long the token may be: each of its characters takes one of the buffer. */
  lemma TokenAddsItsLength(token: string, payload: string)
    ensures |DataRequest(token, payload)| == |DataRequest("", payload)| + |token|
  {
    var a, b := DataLines(token, |payload|), DataLines("", |payload|);
    FirstThreeLines(a, payload);
    FirstThreeLines(b, payload);
    assert a[3..] == b[3..];
  }

  lemma FirstThreeLines(lines: seq<string>, payload: string)
    requires |lines| > 3
    ensures Request(lines, payload) ==
            lines[0] + CRLF + (lines[1] + CRLF + (lines[2] + CRLF + Request(lines[3..], payload)))
  {
    RequestUnfold(lines, payload);
    RequestUnfold(lines[1..], payload);
    RequestUnfold(lines[2..], payload);
    assert lines[1..][1..] == lines[2..] && lines[2..][1..] == lines[3..];
  }
}
