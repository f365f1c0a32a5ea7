/** Decimal text of natural numbers. */
module Decimals {
  import opened Strings

  predicate IsDigit(c: char) { '0' <= c <= '9' }

  predicate AllDigits(s: string) {
    forall i :: 0 <= i < |s| ==> IsDigit(s[i])
  }

  function Digit(d: nat): (c: char)
    requires d < 10
    ensures IsDigit(c) && DigitValue(c) == d
  {
    "0123456789"[d]
  }

  function DigitValue(c: char): (d: nat)
    requires IsDigit(c)
    ensures d < 10
  {
    c as int - '0' as int
  }

  function Dec(n: nat): (s: string)
    ensures s != []
  {
    if n < 10 then [Digit(n)] else Dec(n / 10) + [Digit(n % 10)]
  }

  function Value(s: string): nat
    requires AllDigits(s)
  {
    if s == [] then 0 else 10 * Value(s[..|s| - 1]) + DigitValue(s[|s| - 1])
  }

  function Pow10(k: nat): (p: nat)
    ensures 0 < p
  {
    if k == 0 then 1 else 10 * Pow10(k - 1)
  }

  function Zeros(k: nat): string {
    seq(k, _ => '0')
  }

  lemma {:induction false} DecRoundTrip(n: nat)
    ensures AllDigits(Dec(n)) && Value(Dec(n)) == n
  {
    if n >= 10 {
      DecRoundTrip(n / 10);
      assert Dec(n)[..|Dec(n)| - 1] == Dec(n / 10);
    }
  }

  lemma {:induction false} PaddedValue(k: nat, s: string)
    requires AllDigits(s)
    ensures AllDigits(Zeros(k) + s) && Value(Zeros(k) + s) == Value(s)
  {
    var t := Zeros(k) + s;
    if s != [] {
      PaddedValue(k, s[..|s| - 1]);
      assert t[..|t| - 1] == Zeros(k) + s[..|s| - 1];
    } else if k > 0 {
      PaddedValue(k - 1, s);
      assert t[..|t| - 1] == Zeros(k - 1) + s;
    }
  }

  lemma {:induction false} DecLength(n: nat, k: nat)
    requires 0 < k
    ensures |Dec(n)| <= k <==> n < Pow10(k)
  {
    assert Pow10(k) == 10 * Pow10(k - 1);
    if n >= 10 && k > 1 {
      DecLength(n / 10, k - 1);
    }
  }

  /** What is left of n when its last k digits are cut off. */
  function Lead(n: nat, k: nat): nat {
    if k == 0 then n else Lead(n / 10, k - 1)
  }

  /** Cutting k digits off the text leaves the text of the leading part. */
  lemma {:induction false} DecSplit(n: nat, k: nat) returns (rest: string)
    requires k < |Dec(n)|
    ensures Dec(n) == Dec(Lead(n, k)) + rest && |rest| == k && AllDigits(rest)
    decreases k
  {
    if k == 0 {
      rest := [];
    } else {
      var r := DecSplit(n / 10, k - 1);
      rest := r + [Digit(n % 10)];
    }
  }

  /** Between digit strings of one length, dictionary order is numeric order. */
  lemma {:induction false} LessByValue(a: string, b: string)
    requires AllDigits(a) && AllDigits(b) && |a| == |b|
    ensures Less(a, b) <==> Value(a) < Value(b)
    ensures Value(a) == Value(b) ==> a == b
  {
    if a != [] {
      var (a', b') := (a[..|a| - 1], b[..|b| - 1]);
      var (x, y) := (a[|a| - 1..], b[|b| - 1..]);
      assert a == a' + x && b == b' + y;
      LessByValue(a', b');
      if a' == b' {
        LessAfterPrefix(a', x, y);
      } else {
        LessDecidedEarly(a', b', x, y);
      }
    }
  }
}
