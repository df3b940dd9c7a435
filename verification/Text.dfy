/** Text as the C library sees it: letter case, termination by NUL, and decimal numbers. */
module Text {

  datatype Option<T> = None | Some(value: T)

  function LowerChar(c: char): char {
    if 'A' <= c <= 'Z' then c - 'A' + 'a' else c
  }

  function Lower(s: string): (r: string)
    ensures |r| == |s| && forall i :: 0 <= i < |s| ==> r[i] == LowerChar(s[i])
  {
    seq(|s|, i requires 0 <= i < |s| => LowerChar(s[i]))
  }

  /** Lower-casing changes exactly the letters from A to Z, by their distance from a to z, and leaves none of them. */
  lemma LowerChanges(s: string, i: nat)
    requires i < |s|
    ensures !('A' <= Lower(s)[i] <= 'Z')
    ensures Lower(s)[i] as int == s[i] as int + if 65 <= s[i] as int <= 90 then 32 else 0
  {
    assert Lower(s)[i] == LowerChar(s[i]);
  }

  /** The characters before the first NUL: what C string functions see of a buffer. */
  function CString(buf: string): (s: string)
    ensures s <= buf && '\0' !in s && (|s| < |buf| ==> buf[|s|] == '\0')
  {
    if buf == "" || buf[0] == '\0' then "" else [buf[0]] + CString(buf[1..])
  }

  function Digit(d: nat): char
    requires d < 10
  {
    '0' + d as char
  }

  /** Printed by printf("%ld") for a number that is not negative. */
  function Decimal(n: nat): (s: string)
    ensures s != "" && forall c <- s :: '0' <= c <= '9'
  {
    if n < 10 then [Digit(n)] else Decimal(n / 10) + [Digit(n % 10)]
  }

  /** One or more decimal digits, as in a Content-Length. */
  function ReadDecimal(s: string): Option<nat> {
    if s == "" then None
    else
      var c := s[|s| - 1];
      if !('0' <= c <= '9') then None
      else if |s| == 1 then Some((c - '0') as nat)
      else match ReadDecimal(s[..|s| - 1])
        case None => None
        case Some(n) => Some(10 * n + (c - '0') as nat)
  }

  lemma {:induction false} DecimalReadsBack(n: nat)
    ensures ReadDecimal(Decimal(n)) == Some(n)
    decreases n
  {
    if n >= 10 {
      DecimalReadsBack(n / 10);
      var s := Decimal(n);
      assert s[..|s| - 1] == Decimal(n / 10) && s[|s| - 1] == Digit(n % 10);
    }
  }
}
