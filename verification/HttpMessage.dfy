/** A reader of HTTP/1.1 responses after RFC 9112: the line structure of section 2.1, the Content-Length of
    section 6.2 and the message body length of section 6.3. It does not know how the server builds them. */
module HttpMessage {
  import opened Text

  const CRLF: string := "\r\n"

  // ---------------------------------------------------------------- lines

  datatype Head = Head(lines: seq<string>, rest: string)

  function Crlf(s: string): (r: Option<nat>)
    ensures r.Some? ==> r.value + 2 <= |s| && s[r.value..r.value + 2] == CRLF
  {
    if |s| < 2 then None
    else if s[..2] == CRLF then Some(0)
    else match Crlf(s[1..])
      case None => None
      case Some(i) => Some(i + 1)
  }

  /** The lines up to the first empty line, and what follows it. */
  function ReadHead(s: string): Option<Head>
    decreases |s|
  {
    match Crlf(s)
    case None => None
    case Some(i) =>
      if i == 0 then Some(Head([], s[2..]))
      else match ReadHead(s[i + 2..])
        case None => None
        case Some(h) => Some(Head([s[..i]] + h.lines, h.rest))
  }

  /** Lines as they are sent. */
  function Join(lines: seq<string>): string {
    if lines == [] then "" else lines[0] + CRLF + Join(lines[1..])
  }

  predicate Line(l: string) { l != "" && '\r' !in l }

  lemma {:induction false} CrlfAfter(l: string, t: string)
    requires '\r' !in l
    ensures Crlf(l + CRLF + t) == Some(|l|)
    decreases |l|
  {
    var s := l + CRLF + t;
    if l == "" {
      assert s[..2] == CRLF;
    } else {
      assert s[0] == l[0] && s[..2][0] == s[0] && CRLF[0] == '\r';
      assert s[1..] == l[1..] + CRLF + t;
      CrlfAfter(l[1..], t);
    }
  }

  lemma LineSlices(l: string, t: string)
    ensures (l + CRLF + t)[..|l|] == l && (l + CRLF + t)[|l| + 2..] == t
  {
  }

  /** Reading gives back the lines that were joined and whatever follows the empty line. */
  lemma {:induction false} ReadJoined(lines: seq<string>, body: string)
    requires forall l <- lines :: Line(l)
    ensures ReadHead(Join(lines) + CRLF + body) == Some(Head(lines, body))
    decreases |lines|
  {
    var s := Join(lines) + CRLF + body;
    if lines == [] {
      assert s == "" + CRLF + body && s[2..] == body;
      CrlfAfter("", body);
    } else {
      assert Line(lines[0]);
      var t := Join(lines[1..]) + CRLF + body;
      assert s == lines[0] + CRLF + t;
      CrlfAfter(lines[0], t);
      LineSlices(lines[0], t);
      ReadJoined(lines[1..], body);
      assert [lines[0]] + lines[1..] == lines;
    }
  }

  /** Without the empty line there is no message head. */
  lemma {:induction false} NoEmptyLine(lines: seq<string>)
    requires forall l <- lines :: Line(l)
    ensures ReadHead(Join(lines)) == None
    decreases |lines|
  {
    if lines != [] {
      var t := Join(lines[1..]);
      assert Line(lines[0]);
      CrlfAfter(lines[0], t);
      LineSlices(lines[0], t);
      NoEmptyLine(lines[1..]);
    }
  }

  predicate BlankAt(s: string, i: nat) { i + 4 <= |s| && s[i..i + 4] == "\r\n\r\n" }

  lemma NoBlankInLine(l: string, t: string, i: nat)
    requires Line(l) && i <= |l| + 1 && (t != "" ==> t[0] != '\r')
    ensures !BlankAt(l + CRLF + t, i)
  {
    var s := l + CRLF + t;
    if i + 4 <= |s| {
      assert s[i..i + 4][0] == s[i] && s[i..i + 4][2] == s[i + 2];
      if i < |l| { assert s[i] == l[i] && l[i] in l; }
      else if i == |l| { assert s[i + 2] == t[0]; }
      else { assert s[i] == '\n'; }
    }
  }

  lemma JoinCons(lines: seq<string>, body: string)
    requires lines != []
    ensures Join(lines) + CRLF + body == lines[0] + CRLF + (Join(lines[1..]) + CRLF + body)
    ensures |Join(lines)| == |lines[0]| + 2 + |Join(lines[1..])|
  {
  }

  /** The first blank line of a message is the one that ends its joined lines, whatever the body contains. */
  lemma {:induction false} FirstBlank(lines: seq<string>, body: string, i: nat)
    requires lines != [] && forall l <- lines :: Line(l)
    ensures i + 2 < |Join(lines)| ==> !BlankAt(Join(lines) + CRLF + body, i)
    ensures i + 2 == |Join(lines)| ==> BlankAt(Join(lines) + CRLF + body, i)
    decreases |lines|
  {
    var l, rest := lines[0], lines[1..];
    assert Line(l);
    JoinCons(lines, body);
    if rest == [] {
      assert Join(rest) + CRLF + body == CRLF + body;
      BlankAfterLine(l, body, i);
    } else {
      JoinNotShort(rest);
      if i <= |l| + 1 {
        StartsWithLine(rest, body);
        NoBlankInLine(l, Join(rest) + CRLF + body, i);
      } else {
        BlankShifts(l, Join(rest) + CRLF + body, i - |l| - 2);
        FirstBlank(rest, body, i - |l| - 2);
      }
    }
  }

  lemma JoinNotShort(lines: seq<string>)
    requires lines != [] && forall l <- lines :: Line(l)
    ensures |Join(lines)| > 2
  {
    assert Line(lines[0]);
    JoinCons(lines, "");
  }

  lemma BlankAfterLine(l: string, body: string, i: nat)
    requires Line(l)
    ensures i < |l| ==> !BlankAt(l + CRLF + (CRLF + body), i)
    ensures i == |l| ==> BlankAt(l + CRLF + (CRLF + body), i)
  {
    var s := l + CRLF + (CRLF + body);
    if i < |l| { assert s[i..i + 4][0] == s[i] == l[i] && l[i] in l; }
  }

  lemma BlankShifts(l: string, t: string, i: nat)
    ensures BlankAt(l + CRLF + t, |l| + 2 + i) <==> BlankAt(t, i)
  {
    if i + 4 <= |t| { assert (l + CRLF + t)[|l| + 2 + i..|l| + 2 + i + 4] == t[i..i + 4]; }
  }

  lemma StartsWithLine(lines: seq<string>, body: string)
    requires lines != [] && forall l <- lines :: Line(l)
    ensures var t := Join(lines) + CRLF + body; t != "" && t[0] != '\r'
  {
    assert Line(lines[0]) && lines[0][0] in lines[0];
    assert (Join(lines) + CRLF + body)[0] == lines[0][0];
  }

  // ---------------------------------------------------------------- fields and body

  datatype Field = Field(name: string, value: string)

  function ColonAt(s: string): (k: nat)
    ensures k <= |s|
  {
    if s == "" || s[0] == ':' then 0 else 1 + ColonAt(s[1..])
  }

  function TrimLeft(s: string): string {
    if s != "" && (s[0] == ' ' || s[0] == '\t') then TrimLeft(s[1..]) else s
  }

  function TrimRight(s: string): string {
    if s != "" && (s[|s| - 1] == ' ' || s[|s| - 1] == '\t') then TrimRight(s[..|s| - 1]) else s
  }

  /** field-name ":" OWS field-value OWS, with the name in lower case. */
  function ReadField(l: string): Option<Field> {
    var k := ColonAt(l);
    if k == 0 || k == |l| then None else Some(Field(Lower(l[..k]), TrimRight(TrimLeft(l[k + 1..]))))
  }

  /** The value of a field, if some line has it. */
  function Lookup(lines: seq<string>, name: string): Option<string> {
    if lines == [] then None
    else match ReadField(lines[0])
      case Some(f) => if f.name == name then Some(f.value) else Lookup(lines[1..], name)
      case None => Lookup(lines[1..], name)
  }

  datatype Response = Response(status: string, fields: seq<string>, body: string)

  /** A response on a connection that is closed after it: with a Content-Length the body has that many bytes,
      without one it is everything up to the close. */
  function ReadResponse(s: string): Option<Response> {
    match ReadHead(s)
    case None => None
    case Some(h) =>
      if h.lines == [] then None
      else match Lookup(h.lines[1..], "content-length")
        case None => Some(Response(h.lines[0], h.lines[1..], h.rest))
        case Some(v) =>
          match ReadDecimal(v)
          case None => None
          case Some(n) => if n <= |h.rest| then Some(Response(h.lines[0], h.lines[1..], h.rest[..n])) else None
  }
}
