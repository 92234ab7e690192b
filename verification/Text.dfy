/** String helpers over ASCII text: trimming, upper-casing, searching and key joining. */
module Text {

  predicate IsSpace(c: char) {
    c == ' ' || c == '\t' || c == '\n' || c == '\r'
  }

  function TrimLeft(s: string): (r: string)
    ensures |r| <= |s|
  {
    if s != "" && IsSpace(s[0]) then TrimLeft(s[1..]) else s
  }

  function TrimRight(s: string): (r: string)
    ensures |r| <= |s|
  {
    if s != "" && IsSpace(s[|s| - 1]) then TrimRight(s[..|s| - 1]) else s
  }

  function Trim(s: string): (r: string)
    ensures |r| <= |s|
  {
    TrimRight(TrimLeft(s))
  }

  lemma {:induction false} TrimLeftStart(s: string)
    ensures TrimLeft(s) == "" || !IsSpace(TrimLeft(s)[0])
  {
    if s != "" && IsSpace(s[0]) { TrimLeftStart(s[1..]); }
  }

  lemma {:induction false} TrimRightEnd(s: string)
    ensures TrimRight(s) <= s
    ensures TrimRight(s) == "" || !IsSpace(TrimRight(s)[|TrimRight(s)| - 1])
  {
    if s != "" && IsSpace(s[|s| - 1]) { TrimRightEnd(s[..|s| - 1]); }
  }

  /** Trimmed text neither begins nor ends with a space. */
  lemma TrimIsSolid(s: string)
    ensures Trim(s) == "" || (!IsSpace(Trim(s)[0]) && !IsSpace(Trim(s)[|Trim(s)| - 1]))
  {
    TrimLeftStart(s);
    TrimRightEnd(TrimLeft(s));
  }

  lemma TrimSolid(s: string)
    requires s != "" && !IsSpace(s[0]) && !IsSpace(s[|s| - 1])
    ensures Trim(s) == s
  {
  }

  function UpperChar(c: char): char {
    if 'a' <= c <= 'z' then ((c as int) - 32) as char else c
  }

  function Upper(s: string): (r: string)
    ensures |r| == |s|
  {
    if s == "" then "" else [UpperChar(s[0])] + Upper(s[1..])
  }

  lemma {:induction false} UpperAt(s: string, i: nat)
    requires i < |s|
    ensures Upper(s)[i] == UpperChar(s[i])
  {
    if i > 0 { UpperAt(s[1..], i - 1); }
  }

  lemma {:induction false} UpperIsFixed(s: string)
    requires forall i :: 0 <= i < |s| ==> UpperChar(s[i]) == s[i]
    ensures Upper(s) == s
  {
    if s != "" { UpperIsFixed(s[1..]); }
  }

  /** Upper-cased, trimmed form used as a symbol key. */
  function Normal(s: string): string {
    Upper(Trim(s))
  }

  predicate HasPrefix(s: string, p: string) {
    p <= s
  }

  predicate HasSuffix(s: string, p: string) {
    |p| <= |s| && s[|s| - |p|..] == p
  }

  function TrimSuffix(s: string, p: string): string {
    if HasSuffix(s, p) then s[..|s| - |p|] else s
  }

  predicate Contains(s: string, p: string) {
    exists i :: 0 <= i <= |s| - |p| && s[i..][..|p|] == p
  }

  /** Normalising a key twice is normalising it once. */
  lemma NormalIsIdempotent(s: string)
    ensures Normal(Normal(s)) == Normal(s)
  {
    var t, n := Trim(s), Normal(s);
    TrimIsSolid(s);
    forall i | 0 <= i < |n| ensures UpperChar(n[i]) == n[i] {
      UpperAt(t, i);
    }
    if n != "" {
      UpperAt(t, 0);
      UpperAt(t, |t| - 1);
      TrimSolid(n);
    }
    UpperIsFixed(n);
  }

  /** Joining with a separator that the right part never contains loses nothing. */
  lemma JoinIsInjective(a: string, b: string, c: string, d: string, sep: char)
    requires sep !in b && sep !in d
    ensures a + [sep] + b == c + [sep] + d <==> a == c && b == d
  {
    var x, y := a + [sep] + b, c + [sep] + d;
    assert x[|a|] == sep && forall i :: |a| < i < |x| ==> x[i] == b[i - |a| - 1];
    assert y[|c|] == sep && forall i :: |c| < i < |y| ==> y[i] == d[i - |c| - 1];
    assert x == y ==> |a| == |c|;
    assert a == x[..|a|] && c == y[..|c|];
    assert b == x[|a| + 1..] && d == y[|c| + 1..];
  }

  lemma JoinLeftIsInjective(a: string, b: string, c: string, d: string, sep: char)
    requires sep !in a && sep !in c
    ensures a + [sep] + b == c + [sep] + d <==> a == c && b == d
  {
    var x, y := a + [sep] + b, c + [sep] + d;
    assert x[|a|] == sep && forall i :: 0 <= i < |a| ==> x[i] == a[i];
    assert y[|c|] == sep && forall i :: 0 <= i < |c| ==> y[i] == c[i];
    assert x == y ==> |a| == |c|;
    assert a == x[..|a|] && c == y[..|c|];
    assert b == x[|a| + 1..] && d == y[|c| + 1..];
  }
}
