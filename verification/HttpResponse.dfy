/** The response side of src/cew_http.c: what http_handle_client_request sends, read back by the reader of
    module HttpMessage. */
module HttpResponse {
  import opened Text
  import opened HttpRequest
  import opened HttpMessage

  /** The files that access() finds, by path; open() succeeds on the readable ones. */
  datatype Disk = Disk(files: map<string, string>, readable: set<string>)

  const ROOT: string := "/opt/www"

  /** http_check_access_file: an empty name stands for the index page. */
  function FileName(request: string): string { if request == "" then "index.html" else request }

  function PathOf(request: string): string { ROOT + "/" + FileName(request) }

  function FieldLine(name: string, value: string): string { name + ":" + (" " + value) }

  const NOT_FOUND_LINES: seq<string> := ["HTTP/1.1 404 Not Found", FieldLine("Content-Type", "text/plain")]

  const NOT_FOUND_BODY: string := "404 Not Found"

  /** The header lines of a 200 response without and with the length. */
  function OpeningLines(mime: string): seq<string> {
    ["HTTP/1.1 200 OK", FieldLine("Content-Type", mime), FieldLine("Connection", "Closed")]
  }

  function HeaderLines(mime: string, size: nat): seq<string> {
    OpeningLines(mime) + [FieldLine("Content-Length", Decimal(size))]
  }

  /** What is sent for a received buffer. */
  ghost function Reply(buf: string, disk: Disk): string {
    match ParseRequest(buf)
    case None => ""
    case Some(r) =>
      if PathOf(r) !in disk.files then Join(NOT_FOUND_LINES) + CRLF + NOT_FOUND_BODY
      else if m :| HasMime(FileName(r), m) then
        if PathOf(r) in disk.readable then Join(HeaderLines(m, |disk.files[PathOf(r)]|)) + CRLF + disk.files[PathOf(r)]
        else Join(OpeningLines(m))
      else ""
  }

  /** http_404. */
  method NotFound(response: string) returns (sent: string)
    ensures sent == response + (Join(NOT_FOUND_LINES) + CRLF + NOT_FOUND_BODY)
  {
    sent := response + ("HTTP/1.1 404 Not Found\r\n" + "Content-Type: text/plain\r\n" + "\r\n" + "404 Not Found");
    var ls := NOT_FOUND_LINES;
    assert "Content-Type: text/plain" == ls[1];
    assert Join(ls[2..]) == "";
    assert Join(ls[1..]) == ls[1] + CRLF by { assert ls[1..][1..] == ls[2..]; }
    assert Join(ls) == ls[0] + CRLF + Join(ls[1..]);
  }

  /** The header and the content of a 200 response, or only the start of the header if the file cannot be
      opened. */
  method BuildOk(mime: string, content: string, opens: bool) returns (sent: string)
    ensures sent == if opens then Join(HeaderLines(mime, |content|)) + CRLF + content else Join(OpeningLines(mime))
  {
    sent := "HTTP/1.1 200 OK\r\n";
    sent := sent + ("Content-Type: " + mime + "\r\n");
    sent := sent + "Connection: Closed\r\n";
    OpeningIs(mime);
    if opens {
      sent := sent + ("Content-Length: " + Decimal(|content|) + "\r\n");
      HeaderIs(mime, |content|);
      sent := sent + "\r\n";
      sent := sent + content;
    }
  }

  /** http_handle_client_request: the send buffer is built step by step. */
  method Handle(buf: string, disk: Disk) returns (sent: string)
    ensures sent == Reply(buf, disk)
  {
    sent := "";
    var request := ParseRequest(buf);
    if request.None? { return; }
    var file := request.value;
    if file == "" { file := file + "index.html"; }
    assert file == FileName(request.value);
    var path := ROOT + "/" + file;
    if path !in disk.files {
      sent := NotFound(sent);
      return;
    }
    var mime := DetermineMime(file);
    if mime.None? { return; }
    forall m | HasMime(file, m) ensures m == mime.value { MimeIsUnique(file, m, mime.value); }
    sent := BuildOk(mime.value, disk.files[path], path in disk.readable);
  }

  lemma MimeIsUnique(file: string, m: string, n: string)
    requires HasMime(file, m) && HasMime(file, n)
    ensures m == n
  {
    var d :| IsExtension(file, d) && MimeOf(d) == Some(m);
    var e :| IsExtension(file, e) && MimeOf(e) == Some(n);
    ExtensionIsUnique(file, d, e);
  }

  lemma FieldLiteral(value: string)
    ensures "Content-Type: " + value == FieldLine("Content-Type", value)
    ensures "Content-Length: " + value == FieldLine("Content-Length", value)
  {
    assert "Content-Type: " == "Content-Type" + ":" + " ";
    assert "Content-Length: " == "Content-Length" + ":" + " ";
  }

  lemma OpeningIs(mime: string)
    ensures Join(OpeningLines(mime)) == "HTTP/1.1 200 OK\r\n" + ("Content-Type: " + mime + "\r\n")
      + "Connection: Closed\r\n"
  {
    var ls := OpeningLines(mime);
    FieldLiteral(mime);
    assert Join(ls[3..]) == "";
    assert "Connection: Closed" == ls[2];
    assert Join(ls[2..]) == ls[2] + CRLF;
    assert Join(ls[1..]) == ls[1] + CRLF + Join(ls[2..]) by { assert ls[1..][1..] == ls[2..]; }
    assert Join(ls) == ls[0] + CRLF + Join(ls[1..]);
  }

  lemma {:induction false} JoinLast(lines: seq<string>, l: string)
    ensures Join(lines + [l]) == Join(lines) + (l + CRLF)
    decreases |lines|
  {
    if lines == [] {
      assert lines + [l] == [l];
    } else {
      assert (lines + [l])[1..] == lines[1..] + [l];
      JoinLast(lines[1..], l);
    }
  }

  lemma HeaderIs(mime: string, size: nat)
    ensures Join(HeaderLines(mime, size)) == Join(OpeningLines(mime)) + ("Content-Length: " + Decimal(size) + "\r\n")
  {
    FieldLiteral(Decimal(size));
    JoinLast(OpeningLines(mime), FieldLine("Content-Length", Decimal(size)));
  }

  // ---------------------------------------------------------------- reading the response back

  lemma MimeIsPlain(file: string, mime: string)
    requires HasMime(file, mime)
    ensures '\r' !in mime && ':' !in mime && mime != ""
  {
  }

  lemma HeaderIsLines(mime: string, size: nat)
    requires '\r' !in mime
    ensures forall l <- HeaderLines(mime, size) :: Line(l)
  {
  }

  lemma {:induction false} ColonAfter(name: string, rest: string)
    requires ':' !in name
    ensures ColonAt(name + ":" + rest) == |name|
    decreases |name|
  {
    if name != "" {
      assert (name + ":" + rest)[1..] == name[1..] + ":" + rest;
      ColonAfter(name[1..], rest);
    }
  }

  lemma FieldReads(name: string, value: string)
    requires name != "" && ':' !in name && value != ""
    requires value[0] != ' ' && value[0] != '\t' && value[|value| - 1] != ' ' && value[|value| - 1] != '\t'
    ensures ReadField(FieldLine(name, value)) == Some(Field(Lower(name), value))
  {
    var l := name + ":" + (" " + value);
    ColonAfter(name, " " + value);
    assert l[..|name|] == name && l[|name| + 1..] == " " + value;
    assert (" " + value)[1..] == value;
    assert TrimLeft(" " + value) == TrimLeft(value) == value;
  }

  lemma LowerNames()
    ensures Lower("Content-Type") == "content-type" && Lower("Connection") == "connection"
    ensures Lower("Content-Length") == "content-length"
  {
  }

  lemma LookupStep(lines: seq<string>, name: string, value: string, wanted: string)
    requires lines != [] && lines[0] == FieldLine(name, value)
    requires name != "" && ':' !in name && value != ""
    requires value[0] != ' ' && value[0] != '\t' && value[|value| - 1] != ' ' && value[|value| - 1] != '\t'
    ensures Lookup(lines, wanted) == if Lower(name) == wanted then Some(value) else Lookup(lines[1..], wanted)
  {
    FieldReads(name, value);
  }

  lemma LengthIsFound(mime: string, size: nat)
    requires mime != "" && mime[0] != ' ' && mime[0] != '\t' && mime[|mime| - 1] != ' ' && mime[|mime| - 1] != '\t'
    ensures Lookup(HeaderLines(mime, size)[1..], "content-length") == Some(Decimal(size))
  {
    var ls := HeaderLines(mime, size);
    var last := [FieldLine("Content-Length", Decimal(size))];
    LowerNames();
    LengthIsLast(size);
    var two := [FieldLine("Connection", "Closed")] + last;
    assert two[1..] == last;
    LookupStep(two, "Connection", "Closed", "content-length");
    assert ls[1..] == [FieldLine("Content-Type", mime)] + two && ls[1..][1..] == two;
    LookupStep(ls[1..], "Content-Type", mime, "content-length");
  }

  lemma LengthIsLast(size: nat)
    ensures Lookup([FieldLine("Content-Length", Decimal(size))], "content-length") == Some(Decimal(size))
  {
    var d := Decimal(size);
    LowerNames();
    assert d[0] in d && d[|d| - 1] in d;
    LookupStep([FieldLine("Content-Length", d)], "Content-Length", d, "content-length");
  }

  /** A 200 response reads back as the file: its first blank line is the end of the header even if the file
      contains blank lines, its Content-Length is the size of the file, and its body is the file. */
  lemma OkReadsBack(file: string, mime: string, content: string)
    requires HasMime(file, mime)
    ensures var sent := Join(HeaderLines(mime, |content|)) + CRLF + content;
      && ReadResponse(sent) == Some(Response("HTTP/1.1 200 OK", HeaderLines(mime, |content|)[1..], content))
      && Lookup(HeaderLines(mime, |content|)[1..], "content-length") == Some(Decimal(|content|))
      && ReadDecimal(Decimal(|content|)) == Some(|content|)
      && (forall i: nat :: i + 2 < |Join(HeaderLines(mime, |content|))| ==> !BlankAt(sent, i))
      && BlankAt(sent, |Join(HeaderLines(mime, |content|))| - 2)
  {
    var ls := HeaderLines(mime, |content|);
    MimeIsPlain(file, mime);
    MimeHasNoBlanks(file, mime);
    HeaderIsLines(mime, |content|);
    ReadJoined(ls, content);
    LengthIsFound(mime, |content|);
    DecimalReadsBack(|content|);
    assert content[..|content|] == content;
    OnlyBlank(ls, content);
  }

  lemma OnlyBlank(lines: seq<string>, body: string)
    requires lines != [] && forall l <- lines :: Line(l)
    ensures |Join(lines)| >= 2 && BlankAt(Join(lines) + CRLF + body, |Join(lines)| - 2)
    ensures forall i: nat :: i + 2 < |Join(lines)| ==> !BlankAt(Join(lines) + CRLF + body, i)
  {
    JoinNotShort(lines);
    forall i: nat ensures i + 2 < |Join(lines)| ==> !BlankAt(Join(lines) + CRLF + body, i) {
      FirstBlank(lines, body, i);
    }
    FirstBlank(lines, body, |Join(lines)| - 2);
  }

  lemma MimeHasNoBlanks(file: string, mime: string)
    requires HasMime(file, mime)
    ensures mime != "" && mime[0] != ' ' && mime[0] != '\t' && mime[|mime| - 1] != ' ' && mime[|mime| - 1] != '\t'
  {
  }

  lemma NotFoundIsLines()
    ensures forall l <- NOT_FOUND_LINES :: Line(l)
  {
    assert '\r' !in "text/plain";
  }

  lemma NotFoundHasNoLength()
    ensures NOT_FOUND_LINES[1..] == [FieldLine("Content-Type", "text/plain")]
    ensures Lookup(NOT_FOUND_LINES[1..], "content-length") == None
  {
    var fields := NOT_FOUND_LINES[1..];
    assert fields[1..] == [];
    LowerNames();
    LookupStep(fields, "Content-Type", "text/plain", "content-length");
  }

  /** The 404 response has no length: its body runs to the close of the connection. */
  lemma NotFoundReadsBack()
    ensures ReadResponse(Join(NOT_FOUND_LINES) + CRLF + NOT_FOUND_BODY)
         == Some(Response("HTTP/1.1 404 Not Found", [FieldLine("Content-Type", "text/plain")], "404 Not Found"))
  {
    NotFoundIsLines();
    ReadJoined(NOT_FOUND_LINES, NOT_FOUND_BODY);
    NotFoundHasNoLength();
  }

  /** When a request gets a response that a client can read: it must parse, and then the file must be missing,
      or have a known extension and be readable. */
  ghost predicate Answered(buf: string, disk: Disk) {
    && ParseRequest(buf).Some?
    && var r := ParseRequest(buf).value;
       PathOf(r) !in disk.files || ((exists m :: HasMime(FileName(r), m)) && PathOf(r) in disk.readable)
  }

  lemma ReplyMissing(buf: string, disk: Disk, r: string)
    requires ParseRequest(buf) == Some(r) && PathOf(r) !in disk.files
    ensures Reply(buf, disk) == Join(NOT_FOUND_LINES) + CRLF + NOT_FOUND_BODY
  {
  }

  lemma ReplyFound(buf: string, disk: Disk, r: string, m: string)
    requires ParseRequest(buf) == Some(r) && PathOf(r) in disk.files && HasMime(FileName(r), m)
    ensures Reply(buf, disk) == if PathOf(r) in disk.readable
      then Join(HeaderLines(m, |disk.files[PathOf(r)]|)) + CRLF + disk.files[PathOf(r)] else Join(OpeningLines(m))
  {
    forall n | HasMime(FileName(r), n) ensures n == m { MimeIsUnique(FileName(r), n, m); }
  }

  lemma OpeningIsNoMessage(file: string, mime: string)
    requires HasMime(file, mime)
    ensures ReadResponse(Join(OpeningLines(mime))) == None
  {
    MimeIsPlain(file, mime);
    NoEmptyLine(OpeningLines(mime));
  }

  lemma EmptyIsNoMessage()
    ensures ReadResponse("") == None
  {
  }

  ghost predicate CarriesFile(reply: string, content: string) {
    var r := ReadResponse(reply);
    r.Some? && r.value.status == "HTTP/1.1 200 OK" && r.value.body == content
  }

  ghost predicate CarriesNotFound(reply: string) {
    var r := ReadResponse(reply);
    r.Some? && r.value.status == "HTTP/1.1 404 Not Found" && r.value.body == "404 Not Found"
  }

  lemma OkCarriesFile(file: string, mime: string, content: string)
    requires HasMime(file, mime)
    ensures CarriesFile(Join(HeaderLines(mime, |content|)) + CRLF + content, content)
  {
    OkReadsBack(file, mime, content);
  }

  lemma MissingCarriesNotFound()
    ensures CarriesNotFound(Join(NOT_FOUND_LINES) + CRLF + NOT_FOUND_BODY)
  {
    NotFoundReadsBack();
  }

  /** Exactly then what is sent is a message, and it carries the file, or the 404 text if there is none. In all
      other cases nothing is sent, or a header that never ends. */
  lemma ReplyIsFramed(buf: string, disk: Disk)
    ensures ReadResponse(Reply(buf, disk)).Some? <==> Answered(buf, disk)
    ensures Answered(buf, disk) ==>
      var path := PathOf(ParseRequest(buf).value);
      if path in disk.files then CarriesFile(Reply(buf, disk), disk.files[path]) else CarriesNotFound(Reply(buf, disk))
  {
    EmptyIsNoMessage();
    var request := ParseRequest(buf);
    if request.Some? {
      var r := request.value;
      if PathOf(r) !in disk.files {
        ReplyMissing(buf, disk, r);
        MissingCarriesNotFound();
      } else if m :| HasMime(FileName(r), m) {
        ReplyFound(buf, disk, r, m);
        OkCarriesFile(FileName(r), m, disk.files[PathOf(r)]);
        OpeningIsNoMessage(FileName(r), m);
      }
    }
  }
}
