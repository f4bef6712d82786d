// printf's %d, and atoi.
module Decimals {
  predicate IsDigit(c: char) {
    '0' <= c <= '9'
  }

  function DigitChar(d: nat): (c: char)
    requires d < 10
    ensures IsDigit(c) && c as int - '0' as int == d
  {
    (d + '0' as int) as char
  }

  function Dec(n: nat): (s: string)
    ensures s != [] && forall i :: 0 <= i < |s| ==> IsDigit(s[i])
  {
    if n < 10 then [DigitChar(n)] else Dec(n / 10) + [DigitChar(n % 10)]
  }

  // The value of a run of digits.
  function Value(s: string): nat
    requires forall i :: 0 <= i < |s| ==> IsDigit(s[i])
  {
    if s == [] then 0
    else
      var last := s[|s| - 1];
      assert IsDigit(last);
      10 * Value(s[..|s| - 1]) + (last as int - '0' as int)
  }

  lemma {:induction false} ValueOfDec(n: nat)
    ensures Value(Dec(n)) == n
  {
    if n >= 10 {
      ValueOfDec(n / 10);
      assert Dec(n)[..|Dec(n)| - 1] == Dec(n / 10);
    } else {
      assert Dec(n)[..0] == [];
    }
  }

  // No number starts with a zero but zero itself.
  lemma {:induction false} DecIsCanonical(n: nat)
    ensures if n == 0 then Dec(n) == "0" else Dec(n)[0] != '0'
  {
    if n >= 10 {
      DecIsCanonical(n / 10);
    }
  }

  // Printed numbers followed by a non-digit are cut off where they end.
  lemma DecThenMark(a: nat, b: nat, mark: char, u: string, v: string)
    requires !IsDigit(mark) && Dec(a) + [mark] + u == Dec(b) + [mark] + v
    ensures a == b && u == v
  {
    var s := Dec(a) + [mark] + u;
    assert s[|Dec(a)|] == mark && s[|Dec(b)|] == mark;
    assert forall i :: 0 <= i < |Dec(a)| ==> s[i] == Dec(a)[i];
    assert forall i :: 0 <= i < |Dec(b)| ==> s[i] == Dec(b)[i];
    assert |Dec(a)| == |Dec(b)|;
    assert Dec(a) == s[..|Dec(a)|] == Dec(b);
    assert u == s[|Dec(a)| + 1..] == v;
    ValueOfDec(a);
    ValueOfDec(b);
  }

  // How many digits s starts with.
  function DigitRun(s: string): (n: nat)
    ensures n <= |s| && forall i :: 0 <= i < n ==> IsDigit(s[i])
  {
    if s != [] && IsDigit(s[0]) then 1 + DigitRun(s[1..]) else 0
  }

  lemma {:induction false} DigitRunOf(d: string, rest: string)
    requires forall i :: 0 <= i < |d| ==> IsDigit(d[i])
    requires rest == [] || !IsDigit(rest[0])
    ensures DigitRun(d + rest) == |d|
  {
    if d == [] {
      assert d + rest == rest;
    } else {
      assert (d + rest)[1..] == d[1..] + rest;
      DigitRunOf(d[1..], rest);
    }
  }

  // atoi where no white space is left: an optional sign, then digits while they last.
  function Atoi(s: string): int {
    if s != [] && s[0] == '-' then -(Value(s[1..][..DigitRun(s[1..])]) as int)
    else if s != [] && s[0] == '+' then Value(s[1..][..DigitRun(s[1..])])
    else Value(s[..DigitRun(s)])
  }

  lemma AtoiOfDec(n: nat, rest: string)
    requires rest == [] || !IsDigit(rest[0])
    ensures Atoi(Dec(n) + rest) == n
  {
    var s := Dec(n) + rest;
    DigitRunOf(Dec(n), rest);
    assert s[..|Dec(n)|] == Dec(n);
    assert s[0] == Dec(n)[0];
    ValueOfDec(n);
  }

  // %d of any integer.
  function DecInt(n: int): (s: string)
    ensures s != "" && forall i :: 0 <= i < |s| ==> IsDigit(s[i]) || s[i] == '-'
  {
    if n < 0 then "-" + Dec(-n) else Dec(n)
  }

  lemma AtoiOfDecInt(n: int, rest: string)
    requires rest == [] || !IsDigit(rest[0])
    ensures Atoi(DecInt(n) + rest) == n
  {
    if n >= 0 {
      AtoiOfDec(n, rest);
    } else {
      var s := DecInt(n) + rest;
      assert s[1..] == Dec(-n) + rest;
      DigitRunOf(Dec(-n), rest);
      assert s[1..][..|Dec(-n)|] == Dec(-n);
      ValueOfDec(-n);
    }
  }
}
