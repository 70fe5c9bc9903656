// my_atoi (kernel/main.c): the decimal value of the leading digits of a
// string. The C string is modelled by its characters before the NUL.

module Atoi {

  predicate IsDigit(c: char) {
    '0' <= c <= '9'
  }

  predicate AllDigits(ds: seq<char>) {
    forall k :: 0 <= k < |ds| ==> IsDigit(ds[k])
  }

  function DigitValue(c: char): nat
    requires IsDigit(c)
  {
    c as int - '0' as int
  }

  /** The decimal number a run of digits spells, most significant first. */
  function Value(ds: seq<char>): nat
    requires AllDigits(ds)
  {
    if ds == [] then 0 else Value(ds[..|ds| - 1]) * 10 + DigitValue(ds[|ds| - 1])
  }

  /** The length of the run of digits s starts with. */
  function DigitRun(s: seq<char>): (n: nat)
    ensures n <= |s| && AllDigits(s[..n])
    ensures n < |s| ==> !IsDigit(s[n])
  {
    if s == [] || !IsDigit(s[0]) then 0
    else
      var n := 1 + DigitRun(s[1..]);
      assert s[..n] == [s[0]] + s[1..][..n - 1];
      n
  }

  /** A digit prefix followed by the end or a non-digit is the run. */
  lemma {:induction false} RunEnds(s: seq<char>, i: nat)
    requires i <= |s| && AllDigits(s[..i]) && (i < |s| ==> !IsDigit(s[i]))
    ensures DigitRun(s) == i
    decreases i
  {
    if i > 0 {
      assert IsDigit(s[..i][0]);
      assert s[1..][..i - 1] == s[..i][1..];
      RunEnds(s[1..], i - 1);
    }
  }

  /** What my_atoi returns: the value of the leading digit run, 0 when
      there is none. */
  function Atoi(s: seq<char>): nat {
    Value(s[..DigitRun(s)])
  }

  /** my_atoi: accumulates num * 10 + digit until the end of the string or
      the first character outside '0'..'9'. */
  method MyAtoi(s: seq<char>) returns (num: int)
    ensures num == Atoi(s)
  {
    num := 0;
    var i := 0;
    while i < |s|
      invariant 0 <= i <= |s| && AllDigits(s[..i])
      invariant num == Value(s[..i])
    {
      var ch := s[i];
      if ch < '0' || ch > '9' {
        break;
      }
      assert s[..i + 1][..i] == s[..i];
      num := num * 10 + (ch as int - '0' as int);
      i := i + 1;
    }
    RunEnds(s, i);
  }

  /** The decimal digits of n, without leading zeros. */
  function Show(n: nat): (r: seq<char>)
    ensures |r| > 0 && AllDigits(r)
  {
    if n < 10 then [('0' as int + n) as char]
    else Show(n / 10) + [('0' as int + n % 10) as char]
  }

  lemma {:induction false} ValueOfShow(n: nat)
    ensures Value(Show(n)) == n
  {
    if n >= 10 {
      ValueOfShow(n / 10);
      var r := Show(n);
      assert r[..|r| - 1] == Show(n / 10);
    }
  }

  /** Round trip: my_atoi reads back the decimal rendering of any n,
      whatever non-digit text follows it. */
  lemma AtoiOfShow(n: nat, rest: seq<char>)
    requires rest == [] || !IsDigit(rest[0])
    ensures Atoi(Show(n) + rest) == n
  {
    var s := Show(n) + rest;
    assert s[..|Show(n)|] == Show(n);
    RunEnds(s, |Show(n)|);
    ValueOfShow(n);
  }

  /** Only the digit run matters: text after the first non-digit is ignored. */
  lemma AtoiIgnoresTail(s: seq<char>, t: seq<char>)
    requires DigitRun(s) < |s|
    ensures Atoi(s + t) == Atoi(s)
  {
    var n := DigitRun(s);
    assert (s + t)[..n] == s[..n] && (s + t)[n] == s[n];
    RunEnds(s + t, n);
  }
}
