/** What a client gets for what it asks for, in the literal names of files, types and header fields. */
module HttpContent {
  import opened Text
  import opened HttpRequest
  import opened HttpMessage
  import opened HttpResponse

  /** A field of the response that a client reads. */
  function FieldOf(reply: string, name: string): Option<string> {
    match ReadResponse(reply)
    case None => None
    case Some(r) => Lookup(r.fields, name)
  }

  // ---------------------------------------------------------------- paths

  /** The path of a request is its name below /opt/www, and index.html if the name is empty. */
  lemma PathIs(r: string)
    ensures r == "" ==> PathOf(r) == "/opt/www/index.html" && FileName(r) == "index.html"
    ensures r != "" ==> PathOf(r) == "/opt/www/" + r && FileName(r) == r
  {
    assert "/opt/www" + "/" == "/opt/www/";
    assert "/opt/www/" + "index.html" == "/opt/www/index.html";
  }

  // ---------------------------------------------------------------- types

  lemma ExtensionHasMime(file: string, e: string)
    requires IsExtension(file, e)
    ensures e == "html" ==> HasMime(file, "text/html")
    ensures e == "txt" ==> HasMime(file, "image/txt")
    ensures e == "css" ==> HasMime(file, "text/css")
    ensures e == "jpg" ==> HasMime(file, "image/jpeg")
    ensures e == "png" ==> HasMime(file, "image/png")
  {
  }

  const EXTENSIONS: set<string> := {"html", "txt", "css", "jpg", "png"}

  /** A file has a type exactly if what follows its last dot is one of the five extensions. */
  lemma TypedExactly(file: string)
    ensures (exists m :: HasMime(file, m)) <==> exists e :: IsExtension(file, e) && e in EXTENSIONS
  {
    if e :| IsExtension(file, e) && e in EXTENSIONS { ExtensionHasMime(file, e); }
    if m :| HasMime(file, m) {
      var d :| IsExtension(file, d) && MimeOf(d) == Some(m);
      assert d in EXTENSIONS;
    }
  }

  lemma TypeIsFound(mime: string, size: nat)
    requires mime != "" && mime[0] != ' ' && mime[0] != '\t' && mime[|mime| - 1] != ' ' && mime[|mime| - 1] != '\t'
    ensures Lookup(HeaderLines(mime, size)[1..], "content-type") == Some(mime)
    ensures Lookup(HeaderLines(mime, size)[1..], "connection") == Some("Closed")
  {
    var ls := HeaderLines(mime, size)[1..];
    LowerNames();
    LookupStep(ls, "Content-Type", mime, "content-type");
    LookupStep(ls, "Content-Type", mime, "connection");
    LookupStep(ls[1..], "Connection", "Closed", "connection");
  }

  /** A file with a known type that can be opened: the response carries it, under that type and its length. */
  lemma FileIsServed(buf: string, disk: Disk, r: string, mime: string)
    requires ParseRequest(buf) == Some(r) && PathOf(r) in disk.files && PathOf(r) in disk.readable
    requires HasMime(FileName(r), mime)
    ensures CarriesFile(Reply(buf, disk), disk.files[PathOf(r)])
    ensures FieldOf(Reply(buf, disk), "content-type") == Some(mime)
    ensures FieldOf(Reply(buf, disk), "connection") == Some("Closed")
    ensures FieldOf(Reply(buf, disk), "content-length") == Some(Decimal(|disk.files[PathOf(r)]|))
  {
    var content := disk.files[PathOf(r)];
    ReplyFound(buf, disk, r, mime);
    OkReadsBack(FileName(r), mime, content);
    MimeHasNoBlanks(FileName(r), mime);
    TypeIsFound(mime, |content|);
  }

  /** The five types by their extensions, for a request for a file that can be opened. */
  lemma TypesByExtension(buf: string, disk: Disk, f: string, e: string)
    requires IsRequest(CString(buf), f) && f != "" && IsExtension(Lower(f), e)
    requires "/opt/www/" + Lower(f) in disk.files && "/opt/www/" + Lower(f) in disk.readable
    ensures e == "html" ==> FieldOf(Reply(buf, disk), "content-type") == Some("text/html")
    ensures e == "txt" ==> FieldOf(Reply(buf, disk), "content-type") == Some("image/txt")
    ensures e == "css" ==> FieldOf(Reply(buf, disk), "content-type") == Some("text/css")
    ensures e == "jpg" ==> FieldOf(Reply(buf, disk), "content-type") == Some("image/jpeg")
    ensures e == "png" ==> FieldOf(Reply(buf, disk), "content-type") == Some("image/png")
    ensures e == "html" || e == "txt" || e == "css" || e == "jpg" || e == "png" ==>
      CarriesFile(Reply(buf, disk), disk.files["/opt/www/" + Lower(f)])
  {
    RequestIsParsed(CString(buf), f);
    PathIs(Lower(f));
    ExtensionHasMime(Lower(f), e);
    forall m | HasMime(Lower(f), m)
      ensures FieldOf(Reply(buf, disk), "content-type") == Some(m)
      ensures CarriesFile(Reply(buf, disk), disk.files["/opt/www/" + Lower(f)])
    {
      FileIsServed(buf, disk, Lower(f), m);
    }
  }

  lemma IndexHasExtension()
    ensures IsExtension("index.html", "html")
  {
    assert "index.html"[6..] == "html";
  }

  /** GET / is answered from /opt/www/index.html. */
  lemma RootIsIndex(buf: string, disk: Disk)
    requires IsRequest(CString(buf), "")
    ensures "/opt/www/index.html" in disk.files && "/opt/www/index.html" in disk.readable ==>
      && CarriesFile(Reply(buf, disk), disk.files["/opt/www/index.html"])
      && FieldOf(Reply(buf, disk), "content-type") == Some("text/html")
    ensures "/opt/www/index.html" !in disk.files ==> CarriesNotFound(Reply(buf, disk))
  {
    RequestIsParsed(CString(buf), "");
    assert Lower("") == "";
    PathIs("");
    if "/opt/www/index.html" in disk.files {
      IndexHasExtension();
      ExtensionHasMime("index.html", "html");
      if "/opt/www/index.html" in disk.readable { FileIsServed(buf, disk, "", "text/html"); }
    } else {
      ReplyMissing(buf, disk, "");
      MissingCarriesNotFound();
    }
  }

  // ---------------------------------------------------------------- silence

  /** Nothing at all is sent exactly for a request that does not parse, and for a file that exists and has none of
      the five extensions. */
  lemma NothingIsSentExactly(buf: string, disk: Disk)
    ensures Reply(buf, disk) == "" <==>
      || ParseRequest(buf) == None
      || (PathOf(ParseRequest(buf).value) in disk.files
          && !exists e :: IsExtension(FileName(ParseRequest(buf).value), e) && e in EXTENSIONS)
  {
    match ParseRequest(buf)
    case None =>
    case Some(r) =>
      TypedExactly(FileName(r));
      if PathOf(r) !in disk.files {
        ReplyMissing(buf, disk, r);
        assert NOT_FOUND_BODY != "";
      } else if m :| HasMime(FileName(r), m) {
        ReplyFound(buf, disk, r, m);
        JoinIsLong(m);
      }
  }

  lemma JoinIsLong(mime: string)
    ensures Join(OpeningLines(mime)) != "" && CRLF != ""
  {
    assert OpeningLines(mime)[0] == "HTTP/1.1 200 OK";
  }
}
