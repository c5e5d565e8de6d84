/** Text rendering shared by the ingestion and query paths: Python's decimal
    rendering of integers inside f-strings, `str.join`, and the fact that a
    string built as `prefix + sep + suffix` with a separator-free suffix can
    be taken apart again at its last separator. */
module Text {

  predicate IsDigit(c: char) {
    '0' <= c <= '9'
  }

  function DigitChar(d: nat): (c: char)
    requires d < 10
    ensures IsDigit(c)
  {
    ('0' as int + d) as char
  }

  /** A non-negative integer as an f-string renders it: decimal digits, no leading zeros. */
  function NatToString(n: nat): (s: string)
    ensures |s| >= 1
    ensures (|s| == 1) == (n < 10)
    ensures forall i :: 0 <= i < |s| ==> IsDigit(s[i])
    ensures s[0] == '0' ==> n == 0
    decreases n
  {
    if n < 10 then [DigitChar(n)] else NatToString(n / 10) + [DigitChar(n % 10)]
  }

  /** Any integer as an f-string renders it: a minus sign before the digits of a negative value. */
  function IntToString(i: int): (s: string)
    ensures |s| >= 1
    ensures s[0] == '-' <==> i < 0
    ensures forall k :: 0 < k < |s| ==> IsDigit(s[k])
  {
    if i < 0 then "-" + NatToString(-i) else NatToString(i)
  }

  /** The number a run of decimal digits denotes, read left to right. */
  function DigitsValue(s: string): nat {
    if |s| == 0 then 0
    else
      var d := s[|s| - 1] as int - '0' as int;
      DigitsValue(s[..|s| - 1]) * 10 + (if 0 <= d then d else 0)
  }

  /** The number a rendered integer denotes: a leading minus sign negates it. */
  function SignedValue(s: string): int {
    if |s| > 0 && s[0] == '-' then -(DigitsValue(s[1..]) as int) else DigitsValue(s)
  }

  /** The rendering of `n` reads back as `n`. */
  lemma {:induction false} NatToStringValue(n: nat)
    ensures DigitsValue(NatToString(n)) == n
    decreases n
  {
    var s := NatToString(n);
    if n >= 10 {
      assert s[..|s| - 1] == NatToString(n / 10);
      NatToStringValue(n / 10);
    }
  }

  /** The rendering of any integer reads back as that integer. */
  lemma IntToStringValue(i: int)
    ensures SignedValue(IntToString(i)) == i
  {
    var s := IntToString(i);
    if i < 0 {
      assert s[1..] == NatToString(-i);
      NatToStringValue(-i);
    } else {
      NatToStringValue(i);
    }
  }

  lemma NatToStringInjective(a: nat, b: nat)
    requires NatToString(a) == NatToString(b)
    ensures a == b
  {
    NatToStringValue(a);
    NatToStringValue(b);
  }

  lemma IntToStringInjective(a: int, b: int)
    requires IntToString(a) == IntToString(b)
    ensures a == b
  {
    IntToStringValue(a);
    IntToStringValue(b);
  }

  /** Index of the last occurrence of `c` among the first `n` characters of
      `s`, or -1 when there is none. */
  function LastIndexBelow(s: string, c: char, n: nat): (r: int)
    requires n <= |s|
    ensures -1 <= r < n
    ensures r >= 0 ==> s[r] == c
    ensures forall k :: r < k < n ==> s[k] != c
    decreases n
  {
    if n == 0 then -1
    else if s[n - 1] == c then n - 1
    else LastIndexBelow(s, c, n - 1)
  }

  lemma LastIndexBelowJoined(x: string, c: char, y: string)
    requires c !in y
    ensures var s := x + [c] + y; LastIndexBelow(s, c, |s|) == |x|
  {
    var s := x + [c] + y;
    assert s[|x|] == c;
    forall k | |x| < k < |s|
      ensures s[k] != c
    {
      assert s[k] == y[k - |x| - 1];
    }
  }

  /** `x + c + y` determines `x` and `y` when `y` holds no `c`. */
  lemma SplitAtLast(x1: string, y1: string, x2: string, y2: string, c: char)
    requires x1 + [c] + y1 == x2 + [c] + y2
    requires c !in y1 && c !in y2
    ensures x1 == x2 && y1 == y2
  {
    var s := x1 + [c] + y1;
    LastIndexBelowJoined(x1, c, y1);
    LastIndexBelowJoined(x2, c, y2);
    assert x1 == s[..|x1|] && x2 == s[..|x2|];
    assert y1 == s[|x1| + 1..] && y2 == s[|x2| + 1..];
  }

  lemma NoDigitsIn(s: string, c: char)
    requires !IsDigit(c)
    requires forall i :: 0 <= i < |s| ==> IsDigit(s[i])
    ensures c !in s
  {
  }

  /** The parts with `sep` between neighbours, as Python's `str.join` builds them. */
  function Join(parts: seq<string>, sep: string): (r: string)
    ensures |parts| > 0 ==> parts[0] <= r
    ensures |parts| > 1 ==> parts[0] + sep <= r
  {
    if |parts| == 0 then ""
    else if |parts| == 1 then parts[0]
    else parts[0] + sep + Join(parts[1..], sep)
  }

  function TotalLength(parts: seq<string>): nat
  {
    if |parts| == 0 then 0 else |parts[0]| + TotalLength(parts[1..])
  }

  /** Joining two non-empty lists is joining each and putting one separator between. */
  lemma {:induction false} JoinAppend(a: seq<string>, b: seq<string>, sep: string)
    requires |a| > 0 && |b| > 0
    ensures Join(a + b, sep) == Join(a, sep) + sep + Join(b, sep)
    decreases |a|
  {
    assert (a + b)[0] == a[0];
    if |a| > 1 {
      assert (a + b)[1..] == a[1..] + b;
      JoinAppend(a[1..], b, sep);
      assert Join(a + b, sep) == a[0] + sep + (Join(a[1..], sep) + sep + Join(b, sep));
      assert Join(a, sep) == a[0] + sep + Join(a[1..], sep);
    } else {
      assert (a + b)[1..] == b;
      assert Join(a + b, sep) == a[0] + sep + Join(b, sep);
    }
  }

  /** The joined text is the parts plus exactly one separator between neighbours. */
  lemma {:induction false} JoinLength(parts: seq<string>, sep: string)
    requires |parts| > 0
    ensures |Join(parts, sep)| == TotalLength(parts) + (|parts| - 1) * |sep|
    decreases |parts|
  {
    if |parts| > 1 {
      JoinLength(parts[1..], sep);
    } else {
      assert parts[1..] == [];
    }
  }
}
