/** The string operations of the source language that several components rest on. */
module Text {

  /** White space as the source's `\s` and `trim` see it: ECMA-262 WhiteSpace and LineTerminator. */
  predicate IsSpace(c: char) {
    c == '\t' || c == '\n' || c == '\U{0B}' || c == '\U{0C}' || c == '\r' || c == ' ' || c == '\U{A0}'
    || c == '\U{1680}' || ('\U{2000}' <= c <= '\U{200A}') || c == '\U{2028}' || c == '\U{2029}'
    || c == '\U{202F}' || c == '\U{205F}' || c == '\U{3000}' || c == '\U{FEFF}'
  }

  function TrimStart(s: string): (r: string)
    ensures |r| <= |s|
    ensures r != [] ==> !IsSpace(r[0])
  {
    if s != [] && IsSpace(s[0]) then TrimStart(s[1..]) else s
  }

  function TrimEnd(s: string): (r: string)
    ensures |r| <= |s|
    ensures r <= s
    ensures r != [] ==> !IsSpace(r[|r| - 1])
  {
    if s != [] && IsSpace(s[|s| - 1]) then TrimEnd(s[..|s| - 1]) else s
  }

  function Trim(s: string): (r: string) {
    TrimEnd(TrimStart(s))
  }

  /** Nothing is left to trim at either end. */
  predicate Trimmed(s: string) {
    s != [] ==> !IsSpace(s[0]) && !IsSpace(s[|s| - 1])
  }

  lemma TrimIsTrimmed(s: string)
    ensures Trimmed(Trim(s))
    ensures Trimmed(s) <==> Trim(s) == s
  {
    var t := TrimStart(s);
    assert Trim(s) <= t;
    if Trim(s) != [] {
      assert Trim(s)[0] == t[0];
    }
  }

  function Repeat(c: char, n: nat): (r: string)
    ensures |r| == n
    ensures forall i :: 0 <= i < n ==> r[i] == c
  {
    seq(n, i => c)
  }

  function Join(parts: seq<string>, separator: string): string {
    if parts == [] then ""
    else if |parts| == 1 then parts[0]
    else parts[0] + separator + Join(parts[1..], separator)
  }

  /** First occurrences only, in order: what spreading a set built from the list gives. */
  function Dedupe(paths: seq<string>): (r: seq<string>)
    ensures forall p :: p in r <==> p in paths
    ensures forall i, j :: 0 <= i < j < |r| ==> r[i] != r[j]
    ensures |r| <= |paths|
  {
    if paths == [] then []
    else
      var n := |paths| - 1;
      var before := Dedupe(paths[..n]);
      assert paths == paths[..n] + [paths[n]];
      if paths[n] in before then before else before + [paths[n]]
  }

  /** More of a list never changes what was kept of its beginning. */
  lemma {:induction false} DedupePrefix(a: seq<string>, b: seq<string>)
    ensures Dedupe(a) <= Dedupe(a + b)
    decreases |b|
  {
    if b == [] {
      assert a + b == a;
    } else {
      var n := |b| - 1;
      DedupePrefix(a, b[..n]);
      assert (a + b)[..|a| + n] == a + b[..n];
    }
  }

  function First(s: seq<string>, x: string): (i: nat)
    requires x in s
    ensures i < |s| && s[i] == x && x !in s[..i]
  {
    if s[0] == x then 0 else 1 + First(s[1..], x)
  }

  /** What is kept stands in the order in which it first occurred. */
  lemma DedupeKeepsOrder(paths: seq<string>, x: string, y: string)
    requires x in paths && y in paths && First(paths, x) < First(paths, y)
    ensures First(Dedupe(paths), x) < First(Dedupe(paths), y)
  {
    var (i, j) := (First(paths, x), First(paths, y));
    var front := paths[..j];
    assert x in Dedupe(front) && y !in Dedupe(front) by {
      assert front[i] == x;
    }
    assert Dedupe(front) <= Dedupe(paths) by {
      assert paths == front + paths[j..];
      DedupePrefix(front, paths[j..]);
    }
  }

  /** Decimal notation of a natural number. */
  function Decimal(n: nat): (s: string)
    ensures |s| > 0
    ensures forall c :: c in s ==> '0' <= c <= '9'
  {
    (if n < 10 then "" else Decimal(n / 10)) + [('0' as int + n % 10) as char]
  }

  lemma {:induction false} DecimalInjective(a: nat, b: nat)
    requires Decimal(a) == Decimal(b)
    ensures a == b
    decreases a
  {
    var s, t := Decimal(a), Decimal(b);
    assert s[|s| - 1] == t[|t| - 1];
    assert s[..|s| - 1] == (if a < 10 then "" else Decimal(a / 10));
    assert t[..|t| - 1] == (if b < 10 then "" else Decimal(b / 10));
    if a >= 10 && b >= 10 {
      DecimalInjective(a / 10, b / 10);
    }
  }
}
