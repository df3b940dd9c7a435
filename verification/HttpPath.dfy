/** Where the path that http_check_access_file makes leads to, component by component and without symbolic links. */
module HttpPath {
  import opened Text
  import opened HttpRequest
  import opened HttpResponse

  /** The components between slashes. */
  function Split(s: string): (cs: seq<string>)
    ensures cs != []
  {
    if s == "" then [""]
    else if s[0] == '/' then [""] + Split(s[1..])
    else
      var cs := Split(s[1..]);
      [[s[0]] + cs[0]] + cs[1..]
  }

  /** One component: an empty one and a dot stay, two dots go up, a name goes down. */
  function Enter(dir: seq<string>, c: string): seq<string> {
    if c == "" || c == "." then dir
    else if c == ".." then (if dir == [] then [] else dir[..|dir| - 1])
    else dir + [c]
  }

  function Resolve(dir: seq<string>, cs: seq<string>): seq<string> {
    if cs == [] then dir else Enter(Resolve(dir, cs[..|cs| - 1]), cs[|cs| - 1])
  }

  /** The directory that ROOT names. */
  const HOME: seq<string> := ["opt", "www"]

  /** No prefix of the path is outside the document root. */
  ghost predicate StaysBelow(cs: seq<string>) { forall k :: 0 <= k <= |cs| ==> HOME <= Resolve(HOME, cs[..k]) }

  /** Names minus double dots. */
  function Depth(cs: seq<string>): int {
    if cs == [] then 0
    else
      var c := cs[|cs| - 1];
      Depth(cs[..|cs| - 1]) + if c == "" || c == "." then 0 else if c == ".." then -1 else 1
  }

  ghost predicate NeverUp(cs: seq<string>) { forall k :: 0 <= k <= |cs| ==> Depth(cs[..k]) >= 0 }

  lemma PrefixOfPrefix(cs: seq<string>, n: nat)
    requires n <= |cs|
    ensures forall k :: 0 <= k <= n ==> cs[..n][..k] == cs[..k]
  {
  }

  lemma {:induction false} DepthIsLength(cs: seq<string>)
    requires NeverUp(cs)
    ensures HOME <= Resolve(HOME, cs) && |Resolve(HOME, cs)| == |HOME| + Depth(cs)
    decreases |cs|
  {
    assert cs[..|cs|] == cs;
    if cs != [] {
      PrefixOfPrefix(cs, |cs| - 1);
      DepthIsLength(cs[..|cs| - 1]);
      assert Depth(cs[..|cs|]) >= 0;
    }
  }

  lemma {:induction false} BelowNeverUp(cs: seq<string>)
    requires StaysBelow(cs)
    ensures NeverUp(cs)
    decreases |cs|
  {
    if cs != [] {
      var n := |cs| - 1;
      PrefixOfPrefix(cs, n);
      BelowNeverUp(cs[..n]);
      DepthIsLength(cs[..n]);
      assert cs[..|cs|] == cs && HOME <= Resolve(HOME, cs[..|cs|]);
      forall k | 0 <= k <= |cs| ensures Depth(cs[..k]) >= 0 {
        if k <= n { assert cs[..n][..k] == cs[..k]; }
      }
    }
  }

  lemma NeverUpBelow(cs: seq<string>)
    requires NeverUp(cs)
    ensures StaysBelow(cs)
  {
    forall k | 0 <= k <= |cs| ensures HOME <= Resolve(HOME, cs[..k]) {
      PrefixOfPrefix(cs, k);
      DepthIsLength(cs[..k]);
    }
  }

  // ---------------------------------------------------------------- the path of a request

  lemma {:induction false} SplitSlash(a: string, b: string)
    requires '/' !in a
    ensures Split(a + "/" + b) == [a] + Split(b)
    decreases |a|
  {
    if a == "" {
      assert (a + "/" + b)[1..] == b;
    } else {
      assert (a + "/" + b)[1..] == a[1..] + "/" + b;
      SplitSlash(a[1..], b);
      assert [a[0]] + a[1..] == a;
    }
  }

  lemma {:induction false} ResolveConcat(dir: seq<string>, a: seq<string>, b: seq<string>)
    ensures Resolve(dir, a + b) == Resolve(Resolve(dir, a), b)
    decreases |b|
  {
    if b == [] {
      assert a + b == a;
    } else {
      assert (a + b)[..|a + b| - 1] == a + b[..|b| - 1];
      ResolveConcat(dir, a, b[..|b| - 1]);
    }
  }

  lemma RootSplits(file: string)
    ensures Split(ROOT + "/" + file) == ["", "opt", "www"] + Split(file)
  {
    assert ROOT + "/" + file == "" + "/" + ("opt" + "/" + ("www" + "/" + file));
    SplitSlash("", "opt" + "/" + ("www" + "/" + file));
    SplitSlash("opt", "www" + "/" + file);
    SplitSlash("www", file);
  }

  lemma RootResolves()
    ensures Resolve([], ["", "opt", "www"]) == HOME
  {
    var cs := ["", "opt", "www"];
    assert cs[..1][..0] == [] && Resolve([], cs[..1]) == [];
    assert cs[..2][..1] == cs[..1] && Resolve([], cs[..2]) == ["opt"];
    assert Resolve([], cs) == ["opt"] + ["www"];
  }

  /** The path of a request resolves from the document root, and stays below it at every component if and only if
      the double dots never outnumber the names before them. */
  lemma PathStaysBelowExactly(request: string)
    ensures Resolve([], Split(PathOf(request))) == Resolve(HOME, Split(FileName(request)))
    ensures StaysBelow(Split(FileName(request))) <==> NeverUp(Split(FileName(request)))
  {
    var cs := Split(FileName(request));
    RootSplits(FileName(request));
    RootResolves();
    ResolveConcat([], ["", "opt", "www"], cs);
    if StaysBelow(cs) { BelowNeverUp(cs); }
    if NeverUp(cs) { NeverUpBelow(cs); }
  }

  /** A request for a file beside the root's directory: the code does not keep requests below the root. */
  lemma PathCanLeave()
    ensures IsRequest("GET /" + "../x.txt" + " HTTP/1.1", "../x.txt")
    ensures !StaysBelow(Split(FileName("../x.txt"))) && Resolve([], Split(PathOf("../x.txt"))) == ["opt", "x.txt"]
  {
    UpIsRequest("../x.txt");
    TwoComponents();
    PathStaysBelowExactly("../x.txt");
  }

  lemma UpIsRequest(f: string)
    requires ' ' !in f
    ensures IsRequest("GET /" + f + " HTTP/1.1", f)
  {
    var b := "GET /" + f + " HTTP/1.1";
    assert b[..5] == "GET /" && b[5..5 + |f|] == f && b[5 + |f|..12 + |f|] == " HTTP/1.1"[..7] == " HTTP/1";
    assert Lower("GET /") == "get /" && Lower(" HTTP/1") == " http/1";
  }

  lemma UpThenName(c: string)
    requires c != "" && c != "." && c != ".."
    ensures Resolve(HOME, ["..", c]) == ["opt", c] && !NeverUp(["..", c])
  {
    var cs := ["..", c];
    assert cs[..1] == [".."] && cs[..1][..0] == [];
    assert Depth(cs[..1]) == -1;
    assert Resolve(HOME, cs[..1]) == ["opt"];
    assert ["opt"] + [c] == ["opt", c];
  }

  lemma TwoComponents()
    ensures Split("../x.txt") == ["..", "x.txt"]
    ensures Resolve(HOME, ["..", "x.txt"]) == ["opt", "x.txt"] && !NeverUp(["..", "x.txt"])
  {
    assert "../x.txt" == ".." + "/" + "x.txt";
    SplitSlash("..", "x.txt");
    OneComponent("x.txt");
    UpThenName("x.txt");
  }

  lemma {:induction false} OneComponent(s: string)
    requires '/' !in s
    ensures Split(s) == [s]
    decreases |s|
  {
    if s != "" {
      OneComponent(s[1..]);
      assert [s[0]] + s[1..] == s;
    }
  }
}
