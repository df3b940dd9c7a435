/** The settings of src/cew_settings.c: a table of known options, the loader that applies the pairs of a
    configuration file to them, and what a load amounts to: for every setting, the last matching pair wins. */
module Settings {
  import opened Text

  // ---------------------------------------------------------------- the table

  datatype Setting = Workers | Clients | Port | Logfile | Level

  datatype Row = Row(section: string, key: string, dst: Setting)

  /** sKnownOptions without its terminator. All settings but Logfile are of type long. */
  const ROWS: seq<Row> :=
    [Row("general", "workers", Workers), Row("general", "clients", Clients), Row("general", "port", Port),
     Row("logging", "logfile", Logfile), Row("logging", "level", Level)]

  function Index(d: Setting): (i: nat)
    ensures i < |ROWS| && ROWS[i].dst == d
    ensures forall j :: 0 <= j < |ROWS| && ROWS[j].dst == d ==> i == j
  {
    match d
    case Workers => 0
    case Clients => 1
    case Port => 2
    case Logfile => 3
    case Level => 4
  }

  function RowOf(d: Setting): Row { ROWS[Index(d)] }

  /** A pair of the file with its section, as the file spells them. */
  datatype Entry = Entry(section: string, key: string, value: string)

  /** The lower-cased section and key begin with the names of the row. */
  predicate Matches(e: Entry, r: Row) { r.section <= Lower(e.section) && r.key <= Lower(e.key) }

  // ---------------------------------------------------------------- last matching pair wins

  datatype Values = Values(workers: int, clients: int, port: int, logfile: Option<string>, level: int)

  const DEFAULTS: Values := Values(0, 0, 0, None, 0)

  function LastValue(es: seq<Entry>, r: Row): Option<string> {
    if es == [] then None
    else if Matches(es[|es| - 1], r) then Some(es[|es| - 1].value)
    else LastValue(es[..|es| - 1], r)
  }

  datatype Value = Long(n: int) | Text(t: Option<string>)

  function ValueOf(s: Values, d: Setting): Value {
    match d
    case Workers => Long(s.workers)
    case Clients => Long(s.clients)
    case Port => Long(s.port)
    case Logfile => Text(s.logfile)
    case Level => Long(s.level)
  }

  /** The text of a pair as the value of a setting. */
  function Read(d: Setting, text: string): Value { if d == Logfile then Text(Some(text)) else Long(Strtol(text)) }

  /** The value of a setting after the pairs es. */
  function After(es: seq<Entry>, d: Setting, before: Value): Value {
    match LastValue(es, RowOf(d))
    case None => before
    case Some(text) => Read(d, text)
  }

  /** The pairs es lead from the settings s to t. */
  ghost predicate Leads(s: Values, es: seq<Entry>, t: Values) {
    forall d :: ValueOf(t, d) == After(es, d, ValueOf(s, d))
  }

  /** Leads determines t. */
  lemma OneResult(s: Values, es: seq<Entry>, t: Values, u: Values)
    requires Leads(s, es, t) && Leads(s, es, u)
    ensures t == u
  {
    assert forall d :: ValueOf(t, d) == ValueOf(u, d);
    assert ValueOf(t, Workers) == ValueOf(u, Workers) && ValueOf(t, Clients) == ValueOf(u, Clients);
    assert ValueOf(t, Port) == ValueOf(u, Port) && ValueOf(t, Logfile) == ValueOf(u, Logfile);
    assert ValueOf(t, Level) == ValueOf(u, Level);
  }

  ghost predicate LastMatch(es: seq<Entry>, r: Row, i: int) {
    0 <= i < |es| && Matches(es[i], r) && forall j :: i < j < |es| ==> !Matches(es[j], r)
  }

  /** LastValue is the value of the last matching pair, and there is none exactly if no pair matches. */
  lemma {:induction false} LastValueIsLastMatch(es: seq<Entry>, r: Row, v: string)
    ensures LastValue(es, r) == Some(v) <==> exists i :: LastMatch(es, r, i) && es[i].value == v
    ensures LastValue(es, r) == None <==> forall i :: 0 <= i < |es| ==> !Matches(es[i], r)
    decreases |es|
  {
    if es != [] {
      var n := |es| - 1;
      LastValueIsLastMatch(es[..n], r, v);
      if Matches(es[n], r) {
        assert LastMatch(es, r, n);
      } else {
        forall i ensures LastMatch(es, r, i) <==> LastMatch(es[..n], r, i) { LastMatchDrops(es, r, i); }
      }
    }
  }

  lemma LastMatchDrops(es: seq<Entry>, r: Row, i: int)
    requires es != [] && !Matches(es[|es| - 1], r)
    ensures LastMatch(es, r, i) <==> LastMatch(es[..|es| - 1], r, i)
  {
    var fs := es[..|es| - 1];
    assert forall j :: 0 <= j < |fs| ==> fs[j] == es[j];
    if LastMatch(fs, r, i) {
      forall j | i < j < |es| ensures !Matches(es[j], r) { assert j < |fs| ==> !Matches(fs[j], r); }
    }
  }

  lemma {:induction false} LastValueAppends(es: seq<Entry>, fs: seq<Entry>, r: Row)
    ensures LastValue(es + fs, r) == if LastValue(fs, r).Some? then LastValue(fs, r) else LastValue(es, r)
    decreases |fs|
  {
    if fs == [] {
      assert es + fs == es;
    } else {
      assert (es + fs)[..|es + fs| - 1] == es + fs[..|fs| - 1];
      LastValueAppends(es, fs[..|fs| - 1], r);
    }
  }

  /** Loading one file after another is loading them as one. */
  lemma LoadsCompose(s: Values, es: seq<Entry>, t: Values, fs: seq<Entry>, u: Values)
    requires Leads(s, es, t) && Leads(t, fs, u)
    ensures Leads(s, es + fs, u)
  {
    forall d ensures ValueOf(u, d) == After(es + fs, d, ValueOf(s, d)) { LastValueAppends(es, fs, RowOf(d)); }
  }

  ghost predicate SameButForCase(es: seq<Entry>, fs: seq<Entry>) {
    |es| == |fs| && forall i :: 0 <= i < |es| ==>
      Lower(es[i].section) == Lower(fs[i].section) && Lower(es[i].key) == Lower(fs[i].key) && es[i].value == fs[i].value
  }

  lemma {:induction false} CaseNeverDecides(es: seq<Entry>, fs: seq<Entry>, r: Row)
    requires SameButForCase(es, fs)
    ensures LastValue(es, r) == LastValue(fs, r)
    decreases |es|
  {
    if es != [] { CaseNeverDecides(es[..|es| - 1], fs[..|fs| - 1], r); }
  }

  /** The letter case of sections and keys has no effect. */
  lemma CaseNeverMatters(s: Values, es: seq<Entry>, fs: seq<Entry>, t: Values)
    requires SameButForCase(es, fs)
    ensures Leads(s, es, t) <==> Leads(s, fs, t)
  {
    forall d ensures LastValue(es, RowOf(d)) == LastValue(fs, RowOf(d)) { CaseNeverDecides(es, fs, RowOf(d)); }
  }

  /** One pair, setting by setting: the names it has to begin with, and the field it sets. */
  lemma SettingsByName(s: Values, e: Entry, t: Values)
    requires Leads(s, [e], t)
    ensures var section, key := Lower(e.section), Lower(e.key);
      && t.workers == (if "general" <= section && "workers" <= key then Strtol(e.value) else s.workers)
      && t.clients == (if "general" <= section && "clients" <= key then Strtol(e.value) else s.clients)
      && t.port == (if "general" <= section && "port" <= key then Strtol(e.value) else s.port)
      && t.logfile == (if "logging" <= section && "logfile" <= key then Some(e.value) else s.logfile)
      && t.level == if "logging" <= section && "level" <= key then Strtol(e.value) else s.level
  {
    forall d ensures ValueOf(t, d) == if Matches(e, RowOf(d)) then Read(d, e.value) else ValueOf(s, d) {
      assert LastValue([e][..0], RowOf(d)) == None;
    }
    assert ValueOf(t, Workers) == Long(t.workers) && ValueOf(t, Clients) == Long(t.clients);
    assert ValueOf(t, Port) == Long(t.port) && ValueOf(t, Level) == Long(t.level);
    assert ValueOf(t, Logfile) == Text(t.logfile);
  }

  // ---------------------------------------------------------------- at most one row

  /** The names of two rows disagree within their common length. */
  predicate Apart(p: Row, q: Row) {
    || (exists i :: 0 <= i < |p.section| && i < |q.section| && p.section[i] != q.section[i])
    || (exists i :: 0 <= i < |p.key| && i < |q.key| && p.key[i] != q.key[i])
  }

  lemma RowsApart(i: nat, j: nat)
    requires i < j < |ROWS|
    ensures Apart(ROWS[i], ROWS[j])
  {
    var p, q := ROWS[i], ROWS[j];
    if j < 3 {
      assert p.key[0] != q.key[0];
    } else if i < 3 {
      assert p.section[0] == 'g' && q.section[0] == 'l';
    } else {
      assert p.key[1] == 'o' && q.key[1] == 'e';
    }
  }

  /** What strncmp sees: the strings as they are, already lower-cased. */
  predicate Named(section: string, key: string, r: Row) { r.section <= section && r.key <= key }

  lemma ApartExcludes(section: string, key: string, p: Row, q: Row)
    requires Apart(p, q) && Named(section, key, p)
    ensures !Named(section, key, q)
  {
  }

  /** No pair matches two rows of the table. */
  lemma OneRow(e: Entry, i: nat, j: nat)
    requires i < |ROWS| && j < |ROWS| && Matches(e, ROWS[i]) && Matches(e, ROWS[j])
    ensures i == j
  {
    OneRowNamed(Lower(e.section), Lower(e.key), i, j);
  }

  lemma OneRowNamed(section: string, key: string, i: nat, j: nat)
    requires i < |ROWS| && j < |ROWS| && Named(section, key, ROWS[i]) && Named(section, key, ROWS[j])
    ensures i == j
  {
    if i < j {
      RowsApart(i, j);
      ApartExcludes(section, key, ROWS[i], ROWS[j]);
    } else if j < i {
      RowsApart(j, i);
      ApartExcludes(section, key, ROWS[j], ROWS[i]);
    }
  }

  // ---------------------------------------------------------------- library calls

  function CharAt(s: string): char { if s == "" then '\0' else s[0] }

  /** strncmp: the difference of the first characters that differ, up to n characters or the end. */
  function Strncmp(p: string, s: string, n: nat): int {
    if n == 0 then 0
    else if CharAt(p) != CharAt(s) then CharAt(p) as int - CharAt(s) as int
    else if CharAt(p) == '\0' then 0
    else Strncmp(p[1..], s[1..], n - 1)
  }

  /** Compared up to its own length, a name is equal exactly to what begins with it. */
  lemma {:induction false} StrncmpIsPrefix(p: string, s: string)
    requires '\0' !in p
    ensures Strncmp(p, s, |p|) == 0 <==> p <= s
    decreases |p|
  {
    if p != "" && s != "" && p[0] == s[0] {
      StrncmpIsPrefix(p[1..], s[1..]);
      assert p[1..] <= s[1..] ==> p == [p[0]] + p[1..] && s == [s[0]] + s[1..];
      assert p <= s ==> s[..|p|][1..] == s[1..][..|p| - 1];
    }
  }

  lemma NamesAreText(i: nat)
    requires i < |ROWS|
    ensures '\0' !in ROWS[i].section && '\0' !in ROWS[i].key
  {
  }

  predicate Space(c: char) { c == ' ' || '\t' <= c <= '\r' }

  function SkipSpace(s: string): string {
    if s != "" && Space(s[0]) then SkipSpace(s[1..]) else s
  }

  predicate IsDigit(c: char) { '0' <= c <= '9' }

  function Digits(s: string): string {
    if s != "" && IsDigit(s[0]) then [s[0]] + Digits(s[1..]) else ""
  }

  const LONG_MAX: int := 0x7fff_ffff_ffff_ffff

  function Clamp(n: int): int {
    if n > LONG_MAX then LONG_MAX else if n < -LONG_MAX - 1 then -LONG_MAX - 1 else n
  }

  function Magnitude(s: string): nat {
    match ReadDecimal(Digits(s))
    case None => 0
    case Some(n) => n
  }

  /** strtol with base 10: white space, a sign, the leading digits; a value out of range becomes the bound. */
  function Strtol(s: string): int {
    var t := SkipSpace(s);
    if t != "" && t[0] == '-' then Clamp(0 - Magnitude(t[1..]))
    else if t != "" && t[0] == '+' then Clamp(Magnitude(t[1..]))
    else Clamp(Magnitude(t))
  }

  function Printed(n: int): string { if n < 0 then "-" + Decimal(-n) else Decimal(n) }

  lemma {:induction false} DigitsOf(d: string, rest: string)
    requires forall c <- d :: IsDigit(c)
    requires rest != "" ==> !IsDigit(rest[0])
    ensures Digits(d + rest) == d
    decreases |d|
  {
    if d == "" {
      assert d + rest == rest;
    } else {
      assert (d + rest)[1..] == d[1..] + rest;
      DigitsOf(d[1..], rest);
    }
  }

  lemma {:induction false} SkipsBlanks(blanks: string, t: string)
    requires forall c <- blanks :: Space(c)
    requires t != "" ==> !Space(t[0])
    ensures SkipSpace(blanks + t) == t
    decreases |blanks|
  {
    if blanks == "" {
      assert blanks + t == t;
    } else {
      assert (blanks + t)[1..] == blanks[1..] + t;
      SkipsBlanks(blanks[1..], t);
    }
  }

  lemma MagnitudeOf(m: nat, rest: string)
    requires rest != "" ==> !IsDigit(rest[0])
    ensures Magnitude(Decimal(m) + rest) == m
  {
    DigitsOf(Decimal(m), rest);
    DecimalReadsBack(m);
  }

  lemma PrintedStart(n: int)
    ensures var p := Printed(n); p != "" && !Space(p[0]) && p[0] != '+' && (p[0] == '-' <==> n < 0)
  {
    var d := Decimal(if n < 0 then -n else n);
    assert d[0] in d;
  }

  /** A printed number reads back, whatever follows it, and out of range becomes the bound. */
  lemma StrtolReadsBack(blanks: string, n: int, rest: string)
    requires forall c <- blanks :: Space(c)
    requires rest != "" ==> !IsDigit(rest[0])
    ensures Strtol(blanks + (Printed(n) + rest)) == Clamp(n)
  {
    var t := Printed(n) + rest;
    PrintedStart(n);
    assert t[0] == Printed(n)[0];
    SkipsBlanks(blanks, t);
    if n < 0 {
      assert t[1..] == Decimal(-n) + rest;
      MagnitudeOf(-n, rest);
    } else {
      MagnitudeOf(n, rest);
    }
  }

  /** The rest of what strtol does: a plus sign is skipped, text without a number is zero, and the bounds are those
      of a 64-bit long. */
  lemma StrtolElse(blanks: string, n: nat, rest: string)
    requires forall c <- blanks :: c in {' ', '\t', '\n', '\U{0B}', '\U{0C}', '\r'}
    requires rest != "" ==> !IsDigit(rest[0])
    ensures Strtol(blanks + ("+" + (Decimal(n) + rest))) == Clamp(n)
    ensures rest == "" || (rest[0] != '-' && rest[0] != '+' && !Space(rest[0])) ==> Strtol(blanks + rest) == 0
    ensures Clamp(n) == if n > 9223372036854775807 then 9223372036854775807 else n
    ensures Clamp(0 - n) == if n > 9223372036854775808 then -9223372036854775808 else 0 - n
  {
    assert forall c <- blanks :: Space(c);
    var t := "+" + (Decimal(n) + rest);
    assert t[0] == '+' && t[1..] == Decimal(n) + rest;
    SkipsBlanks(blanks, t);
    MagnitudeOf(n, rest);
    if rest == "" || (rest[0] != '-' && rest[0] != '+' && !Space(rest[0])) {
      SkipsBlanks(blanks, rest);
      assert Digits(rest) == "";
    }
  }

  // ---------------------------------------------------------------- lower-casing

  /** The loop stops at a NUL, so only the text before it is lower-cased. */
  function LowerText(s: string): (r: string)
    ensures |r| == |s|
  {
    Lower(CString(s)) + s[|CString(s)|..]
  }

  /** t is s with its first i characters in lower case, none of them NUL. */
  ghost predicate LowerUpTo(s: string, t: string, i: nat) { i <= |CString(s)| && t == Lower(s[..i]) + s[i..] }

  lemma LowerNone(s: string)
    ensures LowerUpTo(s, s, 0)
  {
    assert Lower(s[..0]) + s[0..] == s;
  }

  lemma LowerStep(s: string, t: string, i: nat)
    requires LowerUpTo(s, t, i) && i < |t| && t[i] != '\0'
    ensures LowerUpTo(s, t[i := LowerChar(t[i])], i + 1)
  {
    assert t[i] == s[i];
    LowerMore(s, i);
  }

  lemma LowerMore(s: string, i: nat)
    requires i < |s|
    ensures (Lower(s[..i]) + s[i..])[i := LowerChar(s[i])] == Lower(s[..i + 1]) + s[i + 1..]
  {
    var a, b := (Lower(s[..i]) + s[i..])[i := LowerChar(s[i])], Lower(s[..i + 1]) + s[i + 1..];
    assert |a| == |b|;
    forall j | 0 <= j < |s| ensures a[j] == b[j] {}
  }

  lemma LowerEnd(s: string, t: string, i: nat)
    requires LowerUpTo(s, t, i) && (i < |t| ==> t[i] == '\0')
    ensures t == LowerText(s)
  {
    assert s[..i] == CString(s)[..i];
    CStringIs(s, i);
  }

  lemma LowerTwice(c: string)
    requires '\0' !in c
    ensures Lower(Lower(c)) == Lower(c) && '\0' !in Lower(c)
  {
    assert forall i :: 0 <= i < |c| ==> c[i] in c && Lower(c)[i] == LowerChar(c[i]);
  }

  lemma LowerTextTwice(s: string)
    ensures LowerText(LowerText(s)) == LowerText(s)
  {
    var c, t := CString(s), LowerText(s);
    LowerTwice(c);
    assert t[..|c|] == Lower(c) && t[|c|..] == s[|c|..];
    CStringIs(t, |c|);
  }

  lemma {:induction false} CStringIs(s: string, n: nat)
    requires n <= |s| && '\0' !in s[..n] && (n < |s| ==> s[n] == '\0')
    ensures CString(s) == s[..n]
    decreases n
  {
    if n > 0 {
      assert s[..n][0] == s[0] && s[1..][..n - 1] == s[..n][1..];
      CStringIs(s[1..], n - 1);
    }
  }

  /** For a name without NUL this makes no difference. */
  lemma LowerTextMatches(p: string, s: string)
    requires '\0' !in p
    ensures p <= LowerText(s) <==> p <= Lower(s)
  {
    var c := CString(s);
    var t, u := LowerText(s), Lower(s);
    assert forall i :: 0 <= i < |c| ==> t[i] == u[i];
    if |p| <= |c| {
      assert t[..|p|] == u[..|p|];
    } else if |p| <= |s| {
      assert t[|c|] == '\0' && u[|c|] == '\0';
      assert p[|c|] in p;
    }
  }

  lemma NamedIsMatch(e: Entry, i: nat)
    requires i < |ROWS|
    ensures Named(LowerText(e.section), LowerText(e.key), ROWS[i]) <==> Matches(e, ROWS[i])
  {
    NamesAreText(i);
    LowerTextMatches(ROWS[i].section, e.section);
    LowerTextMatches(ROWS[i].key, e.key);
  }

  // ---------------------------------------------------------------- one pair

  function Put(s: Values, d: Setting, v: string): Values {
    match d
    case Workers => s.(workers := Strtol(v))
    case Clients => s.(clients := Strtol(v))
    case Port => s.(port := Strtol(v))
    case Logfile => s.(logfile := Some(v))
    case Level => s.(level := Strtol(v))
  }

  /** The rows below n applied in turn. */
  function PutRows(s: Values, section: string, key: string, v: string, n: nat): Values
    requires n <= |ROWS|
  {
    if n == 0 then s
    else
      var p := PutRows(s, section, key, v, n - 1);
      if Named(section, key, ROWS[n - 1]) then Put(p, ROWS[n - 1].dst, v) else p
  }

  lemma {:induction false} NoLaterRow(s: Values, section: string, key: string, v: string, i: nat, n: nat)
    requires i < n <= |ROWS| && Named(section, key, ROWS[i])
    ensures PutRows(s, section, key, v, n) == PutRows(s, section, key, v, i + 1)
    decreases n
  {
    if n > i + 1 {
      NoLaterRow(s, section, key, v, i, n - 1);
      if Named(section, key, ROWS[n - 1]) { OneRowNamed(section, key, i, n - 1); }
    }
  }

  /** Of the rows below n only the one of a setting can change it. */
  lemma {:induction false} RowsPut(s: Values, section: string, key: string, v: string, n: nat, d: Setting)
    requires n <= |ROWS|
    ensures ValueOf(PutRows(s, section, key, v, n), d)
         == if Index(d) < n && Named(section, key, RowOf(d)) then Read(d, v) else ValueOf(s, d)
    decreases n
  {
    if n > 0 { RowsPut(s, section, key, v, n - 1, d); }
  }

  /** Applying the rows to the lower-cased names is loading the pair. */
  lemma RowsAreLoad(s: Values, e: Entry)
    ensures Leads(s, [e], PutRows(s, LowerText(e.section), LowerText(e.key), e.value, |ROWS|))
  {
    forall d ensures ValueOf(PutRows(s, LowerText(e.section), LowerText(e.key), e.value, |ROWS|), d)
      == After([e], d, ValueOf(s, d))
    {
      RowsPut(s, LowerText(e.section), LowerText(e.key), e.value, |ROWS|, d);
      NamedIsMatch(e, Index(d));
      assert LastValue([e][..0], RowOf(d)) == None;
    }
  }

  // ---------------------------------------------------------------- the file

  datatype Pair = Pair(key: string, value: string)

  /** A section as the ini reader delivers it; a broken one ends in an error code. */
  datatype Section = Section(name: string, pairs: seq<Pair>, broken: bool)

  /** What opening the file leads to: sections, then the end or, if broken, an error code. */
  datatype Input = NoFile | Sections(sections: seq<Section>, broken: bool)

  function Entries(sec: Section): (es: seq<Entry>)
    ensures |es| == |sec.pairs|
    ensures forall i :: 0 <= i < |es| ==> es[i] == Entry(sec.name, sec.pairs[i].key, sec.pairs[i].value)
  {
    seq(|sec.pairs|, i requires 0 <= i < |sec.pairs| => Entry(sec.name, sec.pairs[i].key, sec.pairs[i].value))
  }

  predicate PairError(ss: seq<Section>) { exists i :: 0 <= i < |ss| && ss[i].broken }

  /** The pairs read before the first error. */
  function Pairs(ss: seq<Section>): seq<Entry> {
    if ss == [] then []
    else
      var before := ss[..|ss| - 1];
      Pairs(before) + if PairError(before) then [] else Entries(ss[|ss| - 1])
  }

  lemma PairsGrow(ss: seq<Section>, n: nat)
    requires n < |ss| && !PairError(ss[..n])
    ensures Pairs(ss[..n + 1]) == Pairs(ss[..n]) + Entries(ss[n])
    ensures PairError(ss[..n + 1]) <==> ss[n].broken
  {
    assert ss[..n + 1][..n] == ss[..n];
    assert forall i :: 0 <= i < n ==> ss[..n][i] == ss[i];
    assert ss[..n + 1][n] == ss[n];
  }

  /** Nothing is read after an error. */
  lemma {:induction false} PairsStop(ss: seq<Section>, n: nat)
    requires n <= |ss| && PairError(ss[..n])
    ensures Pairs(ss[..n]) == Pairs(ss) && PairError(ss)
    decreases |ss|
  {
    if n == |ss| {
      assert ss[..n] == ss;
    } else {
      var before := ss[..|ss| - 1];
      assert before[..n] == ss[..n];
      PairsStop(before, n);
      var i :| 0 <= i < |before| && before[i].broken;
      assert ss[i].broken;
    }
  }

  lemma LoadsNothing(s: Values)
    ensures Leads(s, [], s)
  {
  }

  const SET_EXIT_SUCCESS: int := 0
  const SET_EXIT_FAILURE: int := 1
  const SET_NOMAP: int := -2
  const SET_NOFILE: int := -3

  lemma UpdateTwice(m: map<nat, string>, a: nat, x: string, y: string)
    ensures m[a := x][a := y] == m[a := y]
  {
  }

  lemma UpdateUndone(m: map<nat, string>, a: nat, x: string)
    requires a !in m
    ensures m[a := x] - {a} == m
  {
  }

  lemma Restores(m: map<nat, string>, s: nat, x: string, k: nat, y: string, y': string, v: nat, z: string)
    requires s in m && k !in m && v !in m && k != v
    ensures m[k := y][v := z][s := x][k := y'] - {k} - {v} == m[s := x]
  {
  }

  function Failures(inputs: seq<Input>): nat {
    if inputs == [] then 0
    else
      var last := inputs[|inputs| - 1];
      Failures(inputs[..|inputs| - 1]) + if last.Sections? && PairError(last.sections) then 1 else 0
  }

  lemma MoreFailures(inputs: seq<Input>, i: nat, before: set<nat>, leaked: set<nat>)
    requires i < |inputs| && before !! leaked && |before| == Failures(inputs[..i])
    requires |leaked| == if inputs[i].Sections? && PairError(inputs[i].sections) then 1 else 0
    ensures |before + leaked| == Failures(inputs[..i + 1])
  {
    assert inputs[..i + 1][..i] == inputs[..i];
  }

  lemma NotLogfile(section: string, key: string, i: nat)
    requires i < |ROWS| && ROWS[i].dst != Logfile && Named(section, key, ROWS[i])
    ensures !Named(section, key, RowOf(Logfile))
  {
    if Named(section, key, ROWS[Index(Logfile)]) { OneRowNamed(section, key, i, Index(Logfile)); }
  }

  // ---------------------------------------------------------------- the settings object

  /** tsSSettings: the log file's name is the address of a string. */
  datatype Struct = Struct(workers: int, clients: int, port: int, logfile: Option<nat>, level: int)

  /** memcpy of a long through the pointer of a row. */
  function PutLong(c: Struct, d: Setting, n: int): Struct {
    match d
    case Workers => c.(workers := n)
    case Clients => c.(clients := n)
    case Port => c.(port := n)
    case Logfile => c
    case Level => c.(level := n)
  }

  /** The struct owns an allocated string, or none. */
  ghost predicate Owns(c: Struct, strings: map<nat, string>) { c.logfile.Some? ==> c.logfile.value in strings }

  ghost function Deref(c: Struct, strings: map<nat, string>): Values
    requires Owns(c, strings)
  {
    Values(c.workers, c.clients, c.port, if c.logfile.Some? then Some(strings[c.logfile.value]) else None, c.level)
  }

  /** The strings that are not the log file's name. */
  ghost function Others(c: Struct, strings: map<nat, string>): map<nat, string> {
    strings - if c.logfile.Some? then {c.logfile.value} else {}
  }

  lemma OthersUpdate(c: Struct, strings: map<nat, string>, a: nat, s: string)
    requires Owns(c, strings) && Some(a) != c.logfile
    ensures Owns(c, strings[a := s]) && Deref(c, strings[a := s]) == Deref(c, strings)
    ensures Others(c, strings[a := s]) == Others(c, strings)[a := s]
  {
  }

  lemma OthersRemove(c: Struct, strings: map<nat, string>, a: nat)
    requires Owns(c, strings) && Some(a) != c.logfile
    ensures Owns(c, strings - {a}) && Deref(c, strings - {a}) == Deref(c, strings)
    ensures Others(c, strings - {a}) == Others(c, strings) - {a}
  {
  }

  /** The old name is freed, the new one takes its place at a new address. */
  lemma OthersReplace(c: Struct, strings: map<nat, string>, a: nat, v: string)
    requires Owns(c, strings) && a !in strings
    ensures var c' := c.(logfile := Some(a)); var left := Others(c, strings)[a := v];
      && Owns(c', left) && Deref(c', left) == Put(Deref(c, strings), Logfile, v)
      && Others(c', left) == Others(c, strings)
  {
  }

  lemma LongsAreLongs(c: Struct, strings: map<nat, string>, d: Setting, v: string)
    requires Owns(c, strings) && d != Logfile
    ensures var c' := PutLong(c, d, Strtol(v));
      c'.logfile == c.logfile && Owns(c', strings) && Deref(c', strings) == Put(Deref(c, strings), d, v)
  {
  }

  /** sCurrSSettings, and the allocated strings (sds) by address. Freeing an address that is not allocated is a
      failed precondition. */
  class Store {
    var current: Struct
    var strings: map<nat, string>
    var next: nat
    ghost var values: Values                // the settings as values
    ghost var others: map<nat, string>      // everything allocated but the log file's name

    ghost predicate Valid()
      reads this
    {
      && Owns(current, strings) && values == Deref(current, strings) && others == Others(current, strings)
      && forall a <- strings :: a < next
    }

    constructor ()
      ensures Valid() && values == DEFAULTS && strings == map[]
    {
      current := Struct(0, 0, 0, None, 0);
      strings, next := map[], 0;
      values, others := DEFAULTS, map[];
    }

    /** sdsnewlen, sdsdup. */
    method New(s: string) returns (a: nat)
      requires Valid()
      modifies this`strings, this`next, this`others
      ensures Valid() && a !in old(strings) && strings == old(strings)[a := s] && others == old(others)[a := s]
        && a < next
    {
      a := next;
      OthersUpdate(current, strings, a, s);
      strings, next, others := strings[a := s], next + 1, others[a := s];
    }

    /** sdsfree of a string that the settings do not own. */
    method Free(a: nat)
      requires Valid() && a in others
      modifies this`strings, this`others
      ensures Valid() && strings == old(strings) - {a} && others == old(others) - {a}
    {
      OthersRemove(current, strings, a);
      strings, others := strings - {a}, others - {a};
    }

    /** The lower-casing loop. */
    method LowerLoop(a: nat)
      requires a in strings
      modifies this`strings
      ensures strings == old(strings)[a := LowerText(old(strings)[a])]
    {
      ghost var s := strings[a];
      ghost var t := s;
      var i := 0;
      LowerNone(s);
      assert strings == strings[a := s];
      while i < |strings[a]| && strings[a][i] != '\0'
        invariant strings == old(strings)[a := t] && LowerUpTo(s, t, i)
      {
        LowerStep(s, t, i);
        UpdateTwice(old(strings), a, t, t[i := LowerChar(t[i])]);
        strings := strings[a := strings[a][i := LowerChar(strings[a][i])]];
        t := strings[a];
        i := i + 1;
      }
      LowerEnd(s, t, i);
    }

    /** Lower-casing of a string that the settings do not own. */
    method LowerCase(a: nat)
      requires Valid() && a in others
      modifies this`strings, this`others
      ensures Valid() && strings == old(strings)[a := LowerText(old(strings)[a])]
        && others == old(others)[a := LowerText(old(strings)[a])]
    {
      OthersUpdate(current, strings, a, LowerText(strings[a]));
      LowerLoop(a);
      others := others[a := strings[a]];
    }

    /** The string case of parse_option: the old name is freed if there is one, and the value is copied. */
    method SetText(v: string)
      requires Valid()
      modifies this
      ensures Valid() && values == Put(old(values), Logfile, v) && others == old(others)
      ensures current.logfile.Some? && current.logfile.value !in old(strings)
      ensures strings == old(others)[current.logfile.value := v]
    {
      OthersReplace(current, strings, next, v);
      if current.logfile.Some? {
        strings := strings - {current.logfile.value};
      }
      strings, next := strings[next := v], next + 1;
      current := current.(logfile := Some(next - 1));
      values := Put(values, Logfile, v);
    }

    /** The switch of parse_option. */
    method Assign(d: Setting, v: string)
      requires Valid()
      modifies this
      ensures Valid() && values == Put(old(values), d, v) && others == old(others)
      ensures if d == Logfile then current.logfile.Some? && current.logfile.value !in old(strings)
              else current.logfile == old(current.logfile) && strings == old(strings)
    {
      if d == Logfile {
        SetText(v);
      } else {
        LongsAreLongs(current, strings, d, v);
        current, values := PutLong(current, d, Strtol(v)), Put(values, d, v);
      }
    }

    /** One turn of the loop in parse_option. */
    method TryRow(i: nat, section: string, key: string, v: string) returns (hit: bool)
      requires Valid() && i < |ROWS|
      modifies this
      ensures Valid() && others == old(others) && hit == Named(section, key, ROWS[i])
      ensures values == if hit then Put(old(values), ROWS[i].dst, v) else old(values)
      ensures if hit && ROWS[i].dst == Logfile then current.logfile.Some? && current.logfile.value !in old(strings)
              else current.logfile == old(current.logfile) && strings == old(strings)
    {
      var r := ROWS[i];
      NamesAreText(i);
      StrncmpIsPrefix(r.section, section);
      StrncmpIsPrefix(r.key, key);
      hit := Strncmp(r.section, section, |r.section|) == 0 && Strncmp(r.key, key, |r.key|) == 0;
      if hit { Assign(r.dst, v); }
    }

    /** parse_option. The return code is SET_EXIT_SUCCESS only for a setting of type long. Only a pair for the log
        file's name allocates, and then the old name is freed and the new one is the only new string. */
    method ParseOption(section: string, key: string, v: string) returns (code: int)
      requires Valid()
      modifies this
      ensures Valid() && values == PutRows(old(values), section, key, v, |ROWS|)
      ensures others == old(others)
      ensures if Named(section, key, RowOf(Logfile))
              then current.logfile.Some? && current.logfile.value !in old(strings)
              else current.logfile == old(current.logfile) && strings == old(strings)
      ensures code == if exists r <- ROWS :: Named(section, key, r) && r.dst != Logfile then 0 else -2
    {
      ghost var renamed := false;
      var i := 0;
      while i < |ROWS|
        invariant 0 <= i <= |ROWS| && Valid() && others == old(others)
        invariant values == PutRows(old(values), section, key, v, i)
        invariant renamed <==> Index(Logfile) < i && Named(section, key, RowOf(Logfile))
        invariant if renamed then current.logfile.Some? && current.logfile.value !in old(strings)
                  else current.logfile == old(current.logfile) && strings == old(strings)
        invariant forall j :: 0 <= j < i ==> Named(section, key, ROWS[j]) ==> ROWS[j].dst == Logfile
      {
        var hit := TryRow(i, section, key, v);
        if hit && ROWS[i].dst != Logfile {
          NoLaterRow(old(values), section, key, v, i, |ROWS|);
          NotLogfile(section, key, i);
          return SET_EXIT_SUCCESS;
        }
        renamed := renamed || hit;
        i := i + 1;
      }
      return SET_NOMAP;
    }

    /** One turn of the inner loop: the pair is copied, lower-cased, parsed and freed. */
    method LoadPair(section: nat, p: Pair, ghost name: string)
      requires Valid() && section in others && LowerText(others[section]) == LowerText(name)
      modifies this
      ensures Valid() && Leads(old(values), [Entry(name, p.key, p.value)], values)
      ensures others == old(others)[section := LowerText(name)]
    {
      var key := New(p.key);
      var value := New(p.value);
      LowerCase(section);
      LowerCase(key);
      RowsAreLoad(values, Entry(name, p.key, p.value));
      var _ := ParseOption(strings[section], strings[key], strings[value]);
      Free(key);
      Free(value);
      Restores(old(others), section, LowerText(name), key, p.key, LowerText(p.key), value, p.value);
    }

    /** The inner loop of settings_load. */
    method LoadSection(sec: Section) returns (ok: bool, ghost at: nat)
      requires Valid()
      modifies this
      ensures Valid() && Leads(old(values), Entries(sec), values)
      ensures ok == !sec.broken
      ensures ok ==> others == old(others)
      ensures !ok ==> at !in old(others) && others.Keys == old(others).Keys + {at}
    {
      ghost var c, o := values, others;
      var section := New(sec.name);
      at := section;
      LoadsNothing(c);
      ghost var es := Entries(sec);
      ghost var text := sec.name;
      var i := 0;
      while i < |sec.pairs|
        invariant 0 <= i <= |sec.pairs| && Valid() && Leads(c, es[..i], values)
        invariant LowerText(text) == LowerText(sec.name) && others == o[section := text]
      {
        ghost var t := values;
        LoadPair(section, sec.pairs[i], sec.name);
        LoadsCompose(c, es[..i], t, [es[i]], values);
        LowerTextTwice(sec.name);
        UpdateTwice(o, section, text, LowerText(sec.name));
        text := LowerText(sec.name);
        assert es[..i] + [es[i]] == es[..i + 1];
        i := i + 1;
      }
      assert es[..i] == es;
      ok := !sec.broken;
      if ok {
        Free(section);
        UpdateUndone(o, section, text);
      }
    }

    /** The outer loop of settings_load. */
    method LoadSections(ss: seq<Section>) returns (ok: bool, ghost at: nat)
      requires Valid()
      modifies this
      ensures Valid() && Leads(old(values), Pairs(ss), values)
      ensures ok == !PairError(ss)
      ensures ok ==> others == old(others)
      ensures !ok ==> at !in old(others) && others.Keys == old(others).Keys + {at}
    {
      ghost var c, o := values, others;
      LoadsNothing(c);
      var i := 0;
      ok, at := true, 0;
      while i < |ss| && ok
        invariant 0 <= i <= |ss| && Valid() && Leads(c, Pairs(ss[..i]), values)
        invariant ok == !PairError(ss[..i])
        invariant ok ==> others == o
        invariant !ok ==> at !in o && others.Keys == o.Keys + {at}
      {
        ghost var t := values;
        ok, at := LoadSection(ss[i]);
        LoadsCompose(c, Pairs(ss[..i]), t, Entries(ss[i]), values);
        PairsGrow(ss, i);
        i := i + 1;
      }
      if ok { assert ss[..i] == ss; } else { PairsStop(ss, i); }
    }

    /** settings_load: afterwards the pairs read before the first error have been applied. Besides what was there
        before, only the log file's name is allocated, unless the reader fails inside a section: then that
        section's name is too. */
    method Load(input: Input) returns (code: int, ghost leaked: set<nat>)
      requires Valid()
      modifies this
      ensures Valid() && Leads(old(values), if input.NoFile? then [] else Pairs(input.sections), values)
      ensures code == if input.NoFile? then -3 else if PairError(input.sections) || input.broken then 1 else 0
      ensures others.Keys == old(others).Keys + leaked && leaked !! old(others).Keys
      ensures |leaked| == if input.Sections? && PairError(input.sections) then 1 else 0
    {
      if input.NoFile? {
        LoadsNothing(values);
        return SET_NOFILE, {};
      }
      var ok, at := LoadSections(input.sections);
      code := if !ok || input.broken then SET_EXIT_FAILURE else SET_EXIT_SUCCESS;
      leaked := if ok then {} else {at};
    }

    /** Any number of loads: beside the log file's name they leave one string for each load that failed inside a
        section. */
    method LoadAll(inputs: seq<Input>)
      requires Valid() && others == map[]
      modifies this
      ensures Valid() && |others.Keys| == Failures(inputs)
    {
      var i := 0;
      while i < |inputs|
        invariant 0 <= i <= |inputs| && Valid() && |others.Keys| == Failures(inputs[..i])
      {
        ghost var before := others.Keys;
        var code, leaked := Load(inputs[i]);
        MoreFailures(inputs, i, before, leaked);
        i := i + 1;
      }
      assert inputs[..i] == inputs;
    }

    /** settings_destroy: the log file's name is freed, and nothing else. */
    method Destroy()
      requires Valid()
      modifies this
      ensures Valid() && values == Values(0, 0, 0, None, 0) && strings == old(others) && others == old(others)
    {
      if current.logfile.Some? {
        strings := strings - {current.logfile.value};
        current := current.(logfile := None);
      }
      current := Struct(0, 0, 0, None, 0);
      values := DEFAULTS;
    }
  }

  // ---------------------------------------------------------------- round trip

  function TextOf(v: Value): string {
    match v
    case Long(n) => Printed(n)
    case Text(None) => ""
    case Text(Some(t)) => t
  }

  /** Every setting under its name in the table. */
  function Written(s: Values): (es: seq<Entry>)
    ensures |es| == |ROWS|
  {
    seq(|ROWS|, i requires 0 <= i < |ROWS| => Entry(ROWS[i].section, ROWS[i].key, TextOf(ValueOf(s, ROWS[i].dst))))
  }

  predicate Storable(v: Value) { if v.Long? then Clamp(v.n) == v.n else v.t.Some? }

  lemma NamesAreLower(i: nat)
    requires i < |ROWS|
    ensures Lower(ROWS[i].section) == ROWS[i].section && Lower(ROWS[i].key) == ROWS[i].key
  {
  }

  lemma TextReads(s: Values, d: Setting)
    requires Storable(ValueOf(s, d))
    ensures Read(d, TextOf(ValueOf(s, d))) == ValueOf(s, d)
  {
    if d != Logfile {
      var n := ValueOf(s, d).n;
      StrtolReadsBack("", n, "");
      assert "" + (Printed(n) + "") == Printed(n);
    }
  }

  /** Loading the settings as written out gives them back, whatever was set before. */
  lemma WrittenLoads(before: Values, s: Values)
    requires forall d :: Storable(ValueOf(s, d))
    ensures Leads(before, Written(s), s)
  {
    var es := Written(s);
    forall d ensures ValueOf(s, d) == After(es, d, ValueOf(before, d)) {
      var i := Index(d);
      var v := TextOf(ValueOf(s, d));
      NamesAreLower(i);
      forall j | i < j < |ROWS| ensures !Matches(es[j], ROWS[i]) {
        NamesAreLower(j);
        if Matches(es[j], ROWS[i]) { OneRow(es[j], i, j); }
      }
      assert LastMatch(es, RowOf(d), i) && es[i].value == v;
      LastValueIsLastMatch(es, RowOf(d), v);
      TextReads(s, d);
    }
  }
}
