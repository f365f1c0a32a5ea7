/** Dictionary order on strings, as Redis and Kotlin compare them. */
module Strings {
  predicate Less(a: string, b: string) {
    b != [] && (a == [] || a[0] < b[0] || (a[0] == b[0] && Less(a[1..], b[1..])))
  }

  lemma {:induction false} LessIrreflexive(a: string)
    ensures !Less(a, a)
  {
    if a != [] {
      LessIrreflexive(a[1..]);
    }
  }

  lemma {:induction false} LessTotal(a: string, b: string)
    ensures a == b || Less(a, b) || Less(b, a)
  {
    if a != [] && b != [] && a[0] == b[0] {
      LessTotal(a[1..], b[1..]);
      assert a == [a[0]] + a[1..] && b == [b[0]] + b[1..];
    }
  }

  lemma {:induction false} LessTransitive(a: string, b: string, c: string)
    requires Less(a, b) && Less(b, c)
    ensures Less(a, c)
  {
    if a != [] && a[0] == b[0] == c[0] {
      LessTransitive(a[1..], b[1..], c[1..]);
    }
  }

  lemma {:induction false} LessAfterPrefix(p: string, a: string, b: string)
    ensures Less(p + a, p + b) <==> Less(a, b)
  {
    if p == [] {
      assert p + a == a && p + b == b;
    } else {
      LessAfterPrefix(p[1..], a, b);
      assert (p + a)[1..] == p[1..] + a && (p + b)[1..] == p[1..] + b;
    }
  }

  /** Strings of equal length that differ are compared before anything that follows them. */
  lemma {:induction false} LessDecidedEarly(a: string, b: string, x: string, y: string)
    requires |a| == |b| && a != b
    ensures Less(a + x, b + y) <==> Less(a, b)
  {
    assert a == [a[0]] + a[1..] && b == [b[0]] + b[1..];
    assert (a + x)[1..] == a[1..] + x && (b + y)[1..] == b[1..] + y;
    if a[0] == b[0] {
      LessDecidedEarly(a[1..], b[1..], x, y);
    }
  }

  /** The ASCII whitespace of Python's str.strip. */
  predicate IsSpace(c: char) {
    c == ' ' || '\t' <= c <= '\r' || '\U{1c}' <= c <= '\U{1f}'
  }

  function Strip(s: string): string {
    if s != [] && IsSpace(s[0]) then Strip(s[1..])
    else if s != [] && IsSpace(s[|s| - 1]) then Strip(s[..|s| - 1])
    else s
  }

  predicate AllSpace(s: string) {
    forall i :: 0 <= i < |s| ==> IsSpace(s[i])
  }

  /** Begins and ends with something other than white space. */
  predicate Bare(s: string) {
    s == [] || (!IsSpace(s[0]) && !IsSpace(s[|s| - 1]))
  }

  /** Stripping takes white space, and all of it, off both ends. */
  lemma {:induction false} StripSplits(s: string) returns (before: string, after: string)
    ensures s == before + Strip(s) + after && AllSpace(before) && AllSpace(after) && Bare(Strip(s))
    decreases |s|
  {
    if s != [] && IsSpace(s[0]) {
      before, after := StripSplits(s[1..]);
      PutBefore(s, before, Strip(s), after);
      before := [s[0]] + before;
    } else if s != [] && IsSpace(s[|s| - 1]) {
      before, after := StripSplits(s[..|s| - 1]);
      PutAfter(s, before, Strip(s), after);
      after := after + [s[|s| - 1]];
    } else {
      before, after := [], [];
      assert s == [] + s + [];
    }
  }

  lemma PutBefore(s: string, before: string, mid: string, after: string)
    requires s != [] && s[1..] == before + mid + after
    ensures s == [s[0]] + before + mid + after
  {
    assert s == [s[0]] + s[1..];
  }

  lemma PutAfter(s: string, before: string, mid: string, after: string)
    requires s != [] && s[..|s| - 1] == before + mid + after
    ensures s == before + mid + (after + [s[|s| - 1]])
  {
    assert s == s[..|s| - 1] + [s[|s| - 1]];
  }

  /** And so does nothing else: what is bare between white space is what is left. */
  lemma {:induction false} StripOf(before: string, s: string, after: string)
    requires AllSpace(before) && AllSpace(after) && Bare(s)
    ensures Strip(before + s + after) == s
    decreases |before| + |after|
  {
    var all := before + s + after;
    if before != [] {
      assert all[0] == before[0] && all[1..] == before[1..] + s + after;
      StripOf(before[1..], s, after);
    } else if after != [] {
      assert all == s + after && all[|all| - 1] == after[|after| - 1];
      assert all[..|all| - 1] == [] + s + after[..|after| - 1];
      if s == [] {
        assert all == after;
        StripSpace(all);
      } else {
        assert all[0] == s[0];
        StripOf([], s, after[..|after| - 1]);
      }
    } else {
      assert all == s;
    }
  }

  lemma {:induction false} StripSpace(s: string)
    requires AllSpace(s)
    ensures Strip(s) == []
  {
    if s != [] {
      StripSpace(s[1..]);
    }
  }
}
