/** The request side of src/cew_http.c: the regular expression of http_parse_request, given its POSIX meaning,
    and the extension search of http_determine_mime. */
module HttpRequest {
  import opened Text

  // ---------------------------------------------------------------- the regular expression

  /** One character (REG_ICASE), or the group of any number of characters other than c. */
  datatype Item = One(c: char) | GroupOfNot(c: char)

  /** ^GET /([^ ]*) HTTP/1 */
  const REQUEST: seq<Item> :=
    [One('G'), One('E'), One('T'), One(' '), One('/'), GroupOfNot(' '),
     One(' '), One('H'), One('T'), One('T'), One('P'), One('/'), One('1')]

  /** s is in the language of the items, with g in place of the group. */
  ghost predicate Captures(items: seq<Item>, s: string, g: string)
    decreases |items|
  {
    if items == [] then s == ""
    else match items[0]
      case One(c) => s != "" && LowerChar(s[0]) == LowerChar(c) && Captures(items[1..], s[1..], g)
      case GroupOfNot(c) => c !in g && g <= s && Captures(items[1..], s[|g|..], g)
  }

  /** regexec succeeds on b with group g: some prefix of b matches. */
  ghost predicate RegexMatches(b: string, g: string) {
    exists n :: 0 <= n <= |b| && Captures(REQUEST, b[..n], g)
  }

  // ---------------------------------------------------------------- what it accepts

  /** b starts, ignoring case, with "GET /", then f, then " HTTP/1". */
  predicate IsRequest(b: string, f: string) {
    && ' ' !in f
    && |b| >= 12 + |f|
    && Lower(b[..5]) == "get /"
    && b[5..5 + |f|] == f
    && Lower(b[5 + |f|..12 + |f|]) == " http/1"
  }

  predicate Literal(items: seq<Item>) { forall i :: 0 <= i < |items| ==> items[i].One? }

  ghost predicate Spells(items: seq<Item>, s: string) {
    |s| == |items| && Literal(items) && forall i :: 0 <= i < |s| ==> LowerChar(s[i]) == LowerChar(items[i].c)
  }

  lemma {:induction false} LiteralCaptures(items: seq<Item>, s: string, g: string)
    requires Literal(items)
    ensures Captures(items, s, g) <==> Spells(items, s)
    decreases |items|
  {
    if items != [] && s != "" {
      LiteralCaptures(items[1..], s[1..], g);
      if Spells(items[1..], s[1..]) && LowerChar(s[0]) == LowerChar(items[0].c) {
        forall i | 0 <= i < |s| ensures LowerChar(s[i]) == LowerChar(items[i].c) {
          assert i > 0 ==> s[i] == s[1..][i - 1] && items[i] == items[1..][i - 1];
        }
      }
    }
  }

  lemma {:induction false} PrefixCaptures(pre: seq<Item>, rest: seq<Item>, s: string, g: string)
    requires Literal(pre)
    ensures Captures(pre + rest, s, g) <==> |s| >= |pre| && Spells(pre, s[..|pre|]) && Captures(rest, s[|pre|..], g)
    decreases |pre|
  {
    if pre == [] {
      assert pre + rest == rest && s[0..] == s;
    } else if s != "" {
      assert (pre + rest)[1..] == pre[1..] + rest && (pre + rest)[0] == pre[0];
      PrefixCaptures(pre[1..], rest, s[1..], g);
      if |s| >= |pre| {
        assert s[1..][|pre| - 1..] == s[|pre|..];
        SpellsStep(pre, s[..|pre|]);
        assert s[..|pre|][1..] == s[1..][..|pre| - 1];
      }
    }
  }

  lemma SpellsStep(items: seq<Item>, s: string)
    requires Literal(items) && items != [] && s != ""
    ensures Spells(items, s) <==> LowerChar(s[0]) == LowerChar(items[0].c) && Spells(items[1..], s[1..])
  {
    if Spells(items[1..], s[1..]) && LowerChar(s[0]) == LowerChar(items[0].c) {
      forall i | 0 <= i < |s| ensures LowerChar(s[i]) == LowerChar(items[i].c) {
        assert i > 0 ==> s[i] == s[1..][i - 1] && items[i] == items[1..][i - 1];
      }
    }
  }

  lemma SpellsHead(s: string)
    ensures Spells(REQUEST[..5], s) <==> Lower(s) == "get /"
  {
    if Lower(s) == "get /" {
      assert forall i :: 0 <= i < 5 ==> LowerChar(s[i]) == "get /"[i] == LowerChar(REQUEST[i].c);
    } else if |s| == 5 {
      var i :| 0 <= i < 5 && Lower(s)[i] != "get /"[i];
      assert LowerChar(REQUEST[..5][i].c) == "get /"[i];
    }
  }

  lemma SpellsTail(s: string)
    ensures Spells(REQUEST[6..], s) <==> Lower(s) == " http/1"
  {
    if Lower(s) == " http/1" {
      assert forall i :: 0 <= i < 7 ==> LowerChar(s[i]) == " http/1"[i] == LowerChar(REQUEST[6..][i].c);
    } else if |s| == 7 {
      var i :| 0 <= i < 7 && Lower(s)[i] != " http/1"[i];
      assert LowerChar(REQUEST[6..][i].c) == " http/1"[i];
    }
  }

  /** The expression matches exactly when the buffer starts, ignoring case, with GET /f HTTP/1 for a space-free
      f, and f is then the group. */
  lemma RegexAccepts(b: string, f: string)
    ensures RegexMatches(b, f) <==> IsRequest(b, f)
  {
    forall n | 0 <= n <= |b|
      ensures Captures(REQUEST, b[..n], f) <==> n == 12 + |f| && IsRequest(b, f)
    {
      PrefixMatches(b, n, f);
    }
  }

  lemma GroupCaptures(t: string, f: string)
    ensures Captures(REQUEST[5..], t, f) <==> ' ' !in f && f <= t && Lower(t[|f|..]) == " http/1"
  {
    assert REQUEST[5..][1..] == REQUEST[6..] && REQUEST[5..][0] == GroupOfNot(' ');
    if f <= t {
      LiteralCaptures(REQUEST[6..], t[|f|..], f);
      SpellsTail(t[|f|..]);
    }
  }

  lemma PrefixMatches(b: string, n: nat, f: string)
    requires n <= |b|
    ensures Captures(REQUEST, b[..n], f) <==> n == 12 + |f| && IsRequest(b, f)
  {
    var s := b[..n];
    assert REQUEST == REQUEST[..5] + REQUEST[5..];
    PrefixCaptures(REQUEST[..5], REQUEST[5..], s, f);
    if n >= 5 {
      assert s[..5] == b[..5] && s[5..] == b[5..n];
      SpellsHead(b[..5]);
      GroupCaptures(b[5..n], f);
      SliceOfRequest(b, n, f);
    }
  }

  lemma SliceOfRequest(b: string, n: nat, f: string)
    requires 5 <= n <= |b|
    ensures f <= b[5..n] && Lower(b[5..n][|f|..]) == " http/1"
       <==> n == 12 + |f| && b[5..5 + |f|] == f && Lower(b[5 + |f|..12 + |f|]) == " http/1"
  {
    if n >= 5 + |f| {
      assert b[5..n][..|f|] == b[5..5 + |f|];
      assert b[5..n][|f|..] == b[5 + |f|..n];
    }
  }

  // ---------------------------------------------------------------- http_parse_request

  function SpaceAt(s: string): (k: nat)
    ensures k <= |s| && ' ' !in s[..k] && (k < |s| ==> s[k] == ' ')
  {
    if s == "" || s[0] == ' ' then 0 else
      var k := SpaceAt(s[1..]);
      assert s[..k + 1] == [s[0]] + s[1..][..k];
      k + 1
  }

  lemma {:induction false} FirstSpaceAt(s: string, n: nat)
    requires n < |s| && s[n] == ' ' && ' ' !in s[..n]
    ensures SpaceAt(s) == n
    decreases n
  {
    if n > 0 {
      assert s[..n][0] == s[0];
      assert s[1..][..n - 1] == s[..n][1..];
      FirstSpaceAt(s[1..], n - 1);
    }
  }

  lemma FoundSpace(b: string, f: string)
    requires IsRequest(b, f)
    ensures SpaceAt(b[5..]) == |f|
  {
    var sp := b[5 + |f|..12 + |f|];
    assert LowerChar(sp[0]) == Lower(sp)[0] == ' ';
    assert b[5..][..|f|] == f;
    FirstSpaceAt(b[5..], |f|);
  }

  /** The group is determined by the buffer, so it does not matter which match regexec picks. */
  lemma RequestIsUnique(b: string, f: string, g: string)
    requires IsRequest(b, f) && IsRequest(b, g)
    ensures f == g
  {
    FoundSpace(b, f);
    FoundSpace(b, g);
  }

  /** The file that a C string requests, in lower case. */
  function ParseText(b: string): Option<string> {
    if |b| < 5 || Lower(b[..5]) != "get /" then None
    else
      var k := 5 + SpaceAt(b[5..]);
      if k + 7 <= |b| && Lower(b[k..k + 7]) == " http/1" then Some(Lower(b[5..k])) else None
  }

  function ParseRequest(buf: string): Option<string> { ParseText(CString(buf)) }

  lemma ParsedIsRequest(b: string)
    requires ParseText(b).Some?
    ensures var f := b[5..5 + SpaceAt(b[5..])]; IsRequest(b, f) && ParseText(b) == Some(Lower(f))
  {
    var k := SpaceAt(b[5..]);
    assert b[5..5 + k] == b[5..][..k];
  }

  lemma RequestIsParsed(b: string, f: string)
    requires IsRequest(b, f)
    ensures ParseText(b) == Some(Lower(f))
  {
    FoundSpace(b, f);
  }

  /** http_parse_request succeeds exactly when the expression matches the received text, and returns the group
      in lower case. */
  lemma ParseIsRegexMatch(buf: string, r: string)
    ensures ParseRequest(buf) == Some(r) <==> exists f :: RegexMatches(CString(buf), f) && r == Lower(f)
    ensures ParseRequest(buf) == None <==> forall f :: !RegexMatches(CString(buf), f)
  {
    var b := CString(buf);
    forall f ensures RegexMatches(b, f) ==> ParseText(b) == Some(Lower(f)) {
      RegexAccepts(b, f);
      if IsRequest(b, f) { RequestIsParsed(b, f); }
    }
    if ParseText(b).Some? {
      ParsedIsRequest(b);
      RegexAccepts(b, b[5..5 + SpaceAt(b[5..])]);
    }
  }

  // ---------------------------------------------------------------- http_determine_mime

  /** strstr(s + from, "."): the first dot at or after `from`. */
  method FindDot(s: string, from: nat) returns (r: Option<nat>)
    requires from <= |s|
    ensures r.None? ==> '.' !in s[from..]
    ensures r.Some? ==> from <= r.value < |s| && s[r.value] == '.' && '.' !in s[from..r.value]
  {
    var i := from;
    while i < |s|
      invariant from <= i <= |s| && '.' !in s[from..i]
    {
      if s[i] == '.' { return Some(i); }
      assert s[from..i + 1] == s[from..i] + [s[i]];
      i := i + 1;
    }
    assert s[from..i] == s[from..];
    return None;
  }

  /** The extension: what follows the last dot. */
  ghost predicate IsExtension(s: string, e: string) {
    '.' !in e && |e| < |s| && s[|s| - |e| - 1] == '.' && s[|s| - |e|..] == e
  }

  /** The search loop of http_determine_mime. */
  method Extension(s: string) returns (e: Option<string>)
    ensures e.None? <==> '.' !in s
    ensures e.Some? ==> IsExtension(s, e.value)
  {
    var ext: Option<nat> := None;
    var search := 0;
    var hit := FindDot(s, search);
    assert s[0..] == s;
    while hit.Some?
      invariant search <= |s|
      invariant hit.None? ==> '.' !in s[search..]
      invariant hit.Some? ==> search <= hit.value < |s| && s[hit.value] == '.'
      invariant ext.None? ==> search == 0
      invariant ext.Some? ==> search == ext.value + 1 && s[ext.value] == '.'
      decreases |s| - search
    {
      ext := hit;
      search := hit.value + 1;
      hit := FindDot(s, search);
    }
    if ext.None? {
      assert s[search..] == s;
      return None;
    }
    return Some(s[ext.value + 1..]);
  }

  function TailLength(s: string): nat {
    if s == "" || s[|s| - 1] == '.' then 0 else 1 + TailLength(s[..|s| - 1])
  }

  lemma {:induction false} ExtensionLength(s: string, e: string)
    requires IsExtension(s, e)
    ensures |e| == TailLength(s) && '.' in s
    decreases |e|
  {
    if e != "" {
      assert s[|s| - 1] == e[|e| - 1];
      var s', e' := s[..|s| - 1], e[..|e| - 1];
      assert s'[|s'| - |e'|..] == e';
      ExtensionLength(s', e');
    }
  }

  lemma ExtensionIsUnique(s: string, e: string, d: string)
    requires IsExtension(s, e) && IsExtension(s, d)
    ensures e == d
  {
    ExtensionLength(s, e);
    ExtensionLength(s, d);
  }

  lemma MimeNeedsDot(file: string, m: string)
    ensures HasMime(file, m) ==> '.' in file
  {
    if HasMime(file, m) {
      var x :| IsExtension(file, x) && MimeOf(x) == Some(m);
      ExtensionLength(file, x);
    }
  }

  function MimeOf(ext: string): Option<string> {
    if ext == "html" then Some("text/html")
    else if ext == "txt" then Some("image/txt")
    else if ext == "css" then Some("text/css")
    else if ext == "jpg" then Some("image/jpeg")
    else if ext == "png" then Some("image/png")
    else None
  }

  /** The MIME type that http_determine_mime finds, if any. */
  ghost predicate HasMime(file: string, mime: string) {
    exists e :: IsExtension(file, e) && MimeOf(e) == Some(mime)
  }

  method DetermineMime(file: string) returns (mime: Option<string>)
    ensures mime.Some? ==> HasMime(file, mime.value)
    ensures mime.None? ==> forall m :: !HasMime(file, m)
  {
    var e := Extension(file);
    if e.None? {
      forall m ensures HasMime(file, m) ==> '.' in file { MimeNeedsDot(file, m); }
      return None;
    }
    mime := MimeOf(e.value);
    forall m | HasMime(file, m) ensures Some(m) == mime {
      var x :| IsExtension(file, x) && MimeOf(x) == Some(m);
      ExtensionIsUnique(file, x, e.value);
    }
  }
}
