/** How brain_cv_service.py turns contour points into line positions. */
module BandClustering {
  import opened Options
  import opened SignalRules

  datatype Point = Point(x: int, y: int)

  const RIGHT_EDGE_WINDOW_PX := 6

  // ----- the model -----

  function MaxX(points: seq<Point>): (m: int)
    requires points != []
    ensures (exists p :: p in points && p.x == m) && forall p :: p in points ==> p.x <= m
  {
    if |points| == 1 then points[0].x
    else
      var m := MaxX(points[1..]);
      assert forall p :: p in points ==> p == points[0] || p in points[1..];
      if m < points[0].x then points[0].x else m
  }

  /** The heights of the points at or right of a column, in the order found. */
  function YsFrom(points: seq<Point>, cutoff: int): seq<int> {
    if points == [] then []
    else (if points[0].x >= cutoff then [points[0].y] else []) + YsFrom(points[1..], cutoff)
  }

  function Cutoff(points: seq<Point>): int
    requires points != []
  {
    var c := MaxX(points) - RIGHT_EDGE_WINDOW_PX;
    if c < 0 then 0 else c
  }

  function RightmostYs(points: seq<Point>): seq<int> {
    if points == [] then [] else YsFrom(points, Cutoff(points))
  }

  predicate IsSorted(ys: seq<int>) {
    forall i, j :: 0 <= i < j < |ys| ==> ys[i] <= ys[j]
  }

  function Insert(y: int, ys: seq<int>): seq<int> {
    if ys == [] || y <= ys[0] then [y] + ys else [ys[0]] + Insert(y, ys[1..])
  }

  function Sorted(ys: seq<int>): seq<int> {
    if ys == [] then [] else Insert(ys[0], Sorted(ys[1..]))
  }

  function Sum(ys: seq<int>): int {
    if ys == [] then 0 else ys[0] + Sum(ys[1..])
  }

  function Mean(ys: seq<int>): real
    requires ys != []
  {
    Sum(ys) as real / |ys| as real
  }

  /** Where NumPy's array_split cuts n elements into three near-equal parts. */
  function Cut(n: nat, i: nat): nat {
    i * (n / 3) + if i < n % 3 then i else n % 3
  }

  lemma CutsInOrder(n: nat)
    requires 3 <= n
    ensures 0 == Cut(n, 0) < Cut(n, 1) < Cut(n, 2) < n == Cut(n, 3)
  {
  }

  function SingleLineY(points: seq<Point>): Option<real> {
    var ys := RightmostYs(points);
    if ys == [] then None else Some(Mean(ys))
  }

  function BandUlm(points: seq<Point>): Option<Band> {
    BandOfSorted(Sorted(RightmostYs(points)))
  }

  function BandOfSorted(ys: seq<int>): Option<Band> {
    var n := |ys|;
    if n < 3 then None
    else
      CutsInOrder(n);
      Some(ThreeMeans(ys, Cut(n, 1), Cut(n, 2)))
  }

  function ThreeMeans(ys: seq<int>, i: nat, j: nat): Band
    requires 0 < i < j < |ys|
  {
    Band(Mean(ys[..i]), Mean(ys[i..j]), Mean(ys[j..]))
  }

  // ----- sorting -----

  lemma SortedParts(ys: seq<int>)
    requires IsSorted(ys) && ys != []
    ensures IsSorted(ys[1..]) && forall y :: y in ys ==> ys[0] <= y
  {
    forall y | y in ys
      ensures ys[0] <= y
    {
      var i :| 0 <= i < |ys| && ys[i] == y;
    }
  }

  lemma SortedFromParts(y: int, ys: seq<int>)
    requires IsSorted(ys) && forall z :: z in ys ==> y <= z
    ensures IsSorted([y] + ys)
  {
    assert forall j :: 0 < j <= |ys| ==> ([y] + ys)[j] in ys;
  }

  lemma {:induction false} InsertSorts(y: int, ys: seq<int>)
    requires IsSorted(ys)
    ensures IsSorted(Insert(y, ys)) && multiset(Insert(y, ys)) == multiset(ys) + multiset{y}
  {
    if ys == [] || y <= ys[0] {
      if ys != [] {
        SortedParts(ys);
      }
      SortedFromParts(y, ys);
    } else {
      SortedParts(ys);
      var rest := ys[1..];
      InsertSorts(y, rest);
      assert ys == [ys[0]] + rest;
      forall z | z in Insert(y, rest)
        ensures ys[0] <= z
      {
        assert z in multiset(rest) + multiset{y};
      }
      SortedFromParts(ys[0], Insert(y, rest));
    }
  }

  lemma {:induction false} InsertSum(y: int, ys: seq<int>)
    ensures Sum(Insert(y, ys)) == y + Sum(ys) && |Insert(y, ys)| == |ys| + 1
  {
    if ys == [] || y <= ys[0] {
      assert ([y] + ys)[1..] == ys;
    } else {
      InsertSum(y, ys[1..]);
    }
  }

  lemma {:induction false} SortedSorts(ys: seq<int>)
    ensures IsSorted(Sorted(ys)) && multiset(Sorted(ys)) == multiset(ys)
    ensures Sum(Sorted(ys)) == Sum(ys) && |Sorted(ys)| == |ys|
  {
    if ys != [] {
      SortedSorts(ys[1..]);
      InsertSorts(ys[0], Sorted(ys[1..]));
      InsertSum(ys[0], Sorted(ys[1..]));
      assert ys == [ys[0]] + ys[1..];
    }
  }

  lemma MultisetOfTail<T>(s: seq<T>)
    requires s != []
    ensures multiset(s[1..]) == multiset(s) - multiset{s[0]}
  {
    assert s == [s[0]] + s[1..];
  }

  lemma MultisetOfCut<T>(s: seq<T>, j: nat)
    requires j < |s|
    ensures multiset(s[..j] + s[j + 1..]) == multiset(s) - multiset{s[j]}
  {
    assert s == s[..j] + ([s[j]] + s[j + 1..]);
  }

  lemma HeadIsLeast(a: seq<int>, y: int)
    requires IsSorted(a) && y in multiset(a)
    ensures a[0] <= y
  {
    var i :| 0 <= i < |a| && a[i] == y;
  }

  lemma HeadsAgree(a: seq<int>, b: seq<int>)
    requires IsSorted(a) && IsSorted(b) && multiset(a) == multiset(b) && a != [] && b != []
    ensures a[0] == b[0] && multiset(a[1..]) == multiset(b[1..])
  {
    assert a[0] in multiset(a) && b[0] in multiset(b);
    HeadIsLeast(a, b[0]);
    HeadIsLeast(b, a[0]);
    MultisetOfTail(a);
    MultisetOfTail(b);
  }

  lemma {:induction false} SortedUnique(a: seq<int>, b: seq<int>)
    requires IsSorted(a) && IsSorted(b) && multiset(a) == multiset(b)
    ensures a == b
  {
    assert |multiset(a)| == |a| && |multiset(b)| == |b|;
    if a != [] {
      HeadsAgree(a, b);
      SortedParts(a);
      SortedParts(b);
      SortedUnique(a[1..], b[1..]);
    }
  }

  // ----- means -----

  lemma {:induction false} SumBetween(ys: seq<int>, lo: int, hi: int)
    requires forall i :: 0 <= i < |ys| ==> lo <= ys[i] <= hi
    ensures lo * |ys| <= Sum(ys) <= hi * |ys|
  {
    if ys != [] {
      SumBetween(ys[1..], lo, hi);
    }
  }

  lemma MeanBetween(ys: seq<int>, lo: int, hi: int)
    requires ys != [] && forall i :: 0 <= i < |ys| ==> lo <= ys[i] <= hi
    ensures lo as real <= Mean(ys) <= hi as real
  {
    SumBetween(ys, lo, hi);
    DivideBounds(Sum(ys) as real, |ys| as real, lo as real, hi as real);
  }

  lemma DivideBounds(s: real, n: real, lo: real, hi: real)
    requires 0.0 < n && lo * n <= s <= hi * n
    ensures lo <= s / n <= hi
  {
    var q := s / n;
    assert q * n == s;
    if q < lo {
      MultiplyStrictly(q, lo, n);
      assert false;
    }
    if q > hi {
      MultiplyStrictly(hi, q, n);
      assert false;
    }
  }

  lemma MultiplyStrictly(x: real, y: real, n: real)
    requires x < y && 0.0 < n
    ensures x * n < y * n
  {
  }

  // ----- results -----

  /** Cutting a sorted list gives chunks whose means are in order. */
  lemma ThreeMeansInOrder(ys: seq<int>, i: nat, j: nat)
    requires IsSorted(ys) && 0 < i < j < |ys|
    ensures var b := ThreeMeans(ys, i, j); b.U <= b.M <= b.L
  {
    MeanBetween(ys[..i], ys[0], ys[i - 1]);
    MeanBetween(ys[i..j], ys[i], ys[j - 1]);
    MeanBetween(ys[j..], ys[j], ys[|ys| - 1]);
    assert ys[i - 1] <= ys[i] && ys[j - 1] <= ys[j];
  }

  /** A band is read exactly when three points survive, and it is never upside down. */
  lemma BandIsOrdered(points: seq<Point>)
    ensures BandUlm(points).Some? <==> 3 <= |RightmostYs(points)|
    ensures BandUlm(points).Some? ==> var b := BandUlm(points).value; b.U <= b.M <= b.L
  {
    var ys := Sorted(RightmostYs(points));
    SortedSorts(RightmostYs(points));
    if 3 <= |ys| {
      CutsInOrder(|ys|);
      ThreeMeansInOrder(ys, Cut(|ys|, 1), Cut(|ys|, 2));
    }
  }

  lemma Associate(x: seq<int>, y: seq<int>, z: seq<int>)
    ensures x + (y + z) == (x + y) + z
  {
  }

  lemma {:induction false} YsFromConcat(p: seq<Point>, q: seq<Point>, cutoff: int)
    ensures YsFrom(p + q, cutoff) == YsFrom(p, cutoff) + YsFrom(q, cutoff)
  {
    var all := p + q;
    if p == [] {
      assert all == q;
    } else {
      YsFromConcat(p[1..], q, cutoff);
      assert all[0] == p[0] && all[1..] == p[1..] + q;
      Associate(if p[0].x >= cutoff then [p[0].y] else [], YsFrom(p[1..], cutoff), YsFrom(q, cutoff));
    }
  }

  lemma YsFromWithout(left: seq<Point>, z: Point, right: seq<Point>, cutoff: int)
    ensures multiset(YsFrom(left + ([z] + right), cutoff)) ==
      multiset(YsFrom(left + right, cutoff)) + if z.x >= cutoff then multiset{z.y} else multiset{}
  {
    YsFromConcat(left, right, cutoff);
    YsFromConcat(left, [z] + right, cutoff);
    assert ([z] + right)[1..] == right;
  }

  lemma {:induction false} YsFromPermuted(p: seq<Point>, q: seq<Point>, cutoff: int)
    requires multiset(p) == multiset(q)
    ensures multiset(YsFrom(p, cutoff)) == multiset(YsFrom(q, cutoff))
  {
    if p == [] {
      assert |multiset(q)| == 0;
    } else {
      assert p[0] in multiset(q);
      var j :| 0 <= j < |q| && q[j] == p[0];
      var (left, right) := (q[..j], q[j + 1..]);
      assert q == left + ([q[j]] + right);
      MultisetOfTail(p);
      MultisetOfCut(q, j);
      YsFromPermuted(p[1..], left + right, cutoff);
      YsFromWithout(left, q[j], right, cutoff);
    }
  }

  lemma SameRightmostYs(p: seq<Point>, q: seq<Point>)
    requires multiset(p) == multiset(q)
    ensures multiset(RightmostYs(p)) == multiset(RightmostYs(q))
  {
    assert |multiset(p)| == |multiset(q)|;
    if p != [] {
      forall z: Point
        ensures z in p <==> z in q
      {
        assert z in p <==> z in multiset(p);
        assert z in q <==> z in multiset(q);
      }
      assert MaxX(p) == MaxX(q);
      YsFromPermuted(p, q, Cutoff(p));
    }
  }

  /** The order in which contours were found does not matter. */
  lemma BandIgnoresContourOrder(p: seq<Point>, q: seq<Point>)
    requires multiset(p) == multiset(q)
    ensures BandUlm(p) == BandUlm(q) && SingleLineY(p) == SingleLineY(q)
  {
    SameRightmostYs(p, q);
    var (yp, yq) := (RightmostYs(p), RightmostYs(q));
    SortedSorts(yp);
    SortedSorts(yq);
    SortedUnique(Sorted(yp), Sorted(yq));
  }

  /** On the chart, every reading of xs is at or above every reading of ys. */
  predicate NoneBelow(xs: seq<int>, ys: seq<int>) {
    forall x, y :: x in xs && y in ys ==> x <= y
  }

  /** Three separated lines whose contour counts are the near-equal thirds are told apart:
      each line comes back as the mean of its own points. */
  lemma LinesAreRecovered(points: seq<Point>, upper: seq<int>, middle: seq<int>, lower: seq<int>)
    requires multiset(RightmostYs(points)) == multiset(upper + middle + lower)
    requires var n := |upper| + |middle| + |lower|;
      3 <= n && |upper| == Cut(n, 1) && |upper| + |middle| == Cut(n, 2)
    requires NoneBelow(upper, middle) && NoneBelow(middle, lower)
    ensures upper != [] && middle != [] && lower != []
    ensures BandUlm(points) == Some(Band(Mean(upper), Mean(middle), Mean(lower)))
  {
    CutsInOrder(|upper| + |middle| + |lower|);
    RecoveredThirds(points, upper, middle, lower);
  }

  lemma RecoveredThirds(points: seq<Point>, upper: seq<int>, middle: seq<int>, lower: seq<int>)
    requires multiset(RightmostYs(points)) == multiset(upper + middle + lower)
    requires upper != [] && middle != [] && lower != [] && NoneBelow(upper, middle) && NoneBelow(middle, lower)
    requires var n := |upper| + |middle| + |lower|; |upper| == Cut(n, 1) && |upper| + |middle| == Cut(n, 2)
    ensures BandUlm(points) == Some(Band(Mean(upper), Mean(middle), Mean(lower)))
  {
    SortedByLine(RightmostYs(points), upper, middle, lower);
    SortedThirds(upper, middle, lower, |upper| + |middle| + |lower|, |upper|, |upper| + |middle|);
  }

  lemma SortedSizes(xs: seq<int>, ys: seq<int>, zs: seq<int>)
    requires xs != [] && ys != [] && zs != []
    ensures Sorted(xs) != [] && Sorted(ys) != [] && Sorted(zs) != []
    ensures |Sorted(xs)| == |xs| && |Sorted(ys)| == |ys| && |Sorted(zs)| == |zs|
    ensures Mean(Sorted(xs)) == Mean(xs) && Mean(Sorted(ys)) == Mean(ys) && Mean(Sorted(zs)) == Mean(zs)
  {
    SortedMean(xs);
    SortedMean(ys);
    SortedMean(zs);
  }

  lemma SortedThirds(upper: seq<int>, middle: seq<int>, lower: seq<int>, n: nat, i: nat, j: nat)
    requires upper != [] && middle != [] && lower != [] && n == |upper| + |middle| + |lower|
    requires i == |upper| && j == |upper| + |middle| && i == Cut(n, 1) && j == Cut(n, 2)
    ensures BandOfSorted(Sorted(upper) + (Sorted(middle) + Sorted(lower))) ==
      Some(Band(Mean(upper), Mean(middle), Mean(lower)))
  {
    SortedSizes(upper, middle, lower);
    ThirdsCut(Sorted(upper), Sorted(middle), Sorted(lower), n, i, j);
  }

  lemma ThirdsCut(a: seq<int>, b: seq<int>, c: seq<int>, n: nat, i: nat, j: nat)
    requires a != [] && b != [] && c != [] && n == |a| + |b| + |c| && i == |a| && j == |a| + |b|
    requires i == Cut(n, 1) && j == Cut(n, 2)
    ensures BandOfSorted(a + (b + c)) == Some(Band(Mean(a), Mean(b), Mean(c)))
  {
    assert |a + (b + c)| == n;
    LinesCut(a + (b + c), a, b, c);
  }

  lemma LinesCut(ys: seq<int>, a: seq<int>, b: seq<int>, c: seq<int>)
    requires a != [] && b != [] && c != [] && ys == a + (b + c)
    requires |a| == Cut(|ys|, 1) && |a| + |b| == Cut(|ys|, 2)
    ensures BandOfSorted(ys) == Some(Band(Mean(a), Mean(b), Mean(c)))
  {
    CutAt(ys, |a|, |a| + |b|);
    JoinedMeans(a, b, c);
  }

  lemma SortedMean(ys: seq<int>)
    requires ys != []
    ensures |Sorted(ys)| == |ys| && Mean(Sorted(ys)) == Mean(ys)
  {
    SortedSorts(ys);
  }

  lemma CutAt(ys: seq<int>, i: nat, j: nat)
    requires 3 <= |ys| && i == Cut(|ys|, 1) && j == Cut(|ys|, 2)
    ensures 0 < i < j < |ys| && BandOfSorted(ys) == Some(ThreeMeans(ys, i, j))
  {
    CutsInOrder(|ys|);
  }

  lemma SortedByLine(ys: seq<int>, upper: seq<int>, middle: seq<int>, lower: seq<int>)
    requires multiset(ys) == multiset(upper + middle + lower) && middle != []
    requires NoneBelow(upper, middle) && NoneBelow(middle, lower)
    ensures Sorted(ys) == Sorted(upper) + (Sorted(middle) + Sorted(lower))
  {
    SortedSorts(ys);
    SortedJoin(upper, middle, lower);
    SortedUnique(Sorted(ys), Sorted(upper) + (Sorted(middle) + Sorted(lower)));
  }

  lemma JoinedMeans(a: seq<int>, b: seq<int>, c: seq<int>)
    requires a != [] && b != [] && c != []
    ensures ThreeMeans(a + (b + c), |a|, |a| + |b|) == Band(Mean(a), Mean(b), Mean(c))
  {
    var s := a + (b + c);
    assert s[..|a|] == a && s[|a|..|a| + |b|] == b && s[|a| + |b|..] == c;
  }

  lemma NoneBelowSorted(xs: seq<int>, ys: seq<int>)
    requires NoneBelow(xs, ys)
    ensures NoneBelow(Sorted(xs), Sorted(ys))
  {
    SortedSorts(xs);
    SortedSorts(ys);
    forall x, y | x in Sorted(xs) && y in Sorted(ys)
      ensures x <= y
    {
      assert x in multiset(xs) && y in multiset(ys);
      assert x in xs && y in ys;
    }
  }

  lemma SortedJoin(upper: seq<int>, middle: seq<int>, lower: seq<int>)
    requires middle != []
    requires NoneBelow(upper, middle) && NoneBelow(middle, lower)
    ensures IsSorted(Sorted(upper) + (Sorted(middle) + Sorted(lower)))
    ensures multiset(Sorted(upper) + (Sorted(middle) + Sorted(lower))) == multiset(upper + middle + lower)
  {
    SortedSorts(upper);
    SortedSorts(middle);
    SortedSorts(lower);
    assert middle[0] in middle;
    NoneBelowSorted(upper, middle);
    NoneBelowSorted(middle, lower);
    NoneBelowSorted(upper, lower);
    SortedConcat(Sorted(middle), Sorted(lower));
    SortedConcat(Sorted(upper), Sorted(middle) + Sorted(lower));
  }

  lemma SortedConcat(a: seq<int>, b: seq<int>)
    requires IsSorted(a) && IsSorted(b)
    requires NoneBelow(a, b)
    ensures IsSorted(a + b)
  {
    var s := a + b;
    forall i, j | 0 <= i < j < |s|
      ensures s[i] <= s[j]
    {
      assert i < |a| ==> s[i] in a;
      assert j >= |a| ==> s[j] in b;
    }
  }

  // ----- any number of contours per line -----

  /** On the chart, every reading of xs is strictly above every reading of ys. */
  predicate StrictlyAbove(xs: seq<int>, ys: seq<int>) {
    forall x, y :: x in xs && y in ys ==> x < y
  }

  /** A line whose contours are all at one height. */
  predicate Level(ys: seq<int>) {
    forall x, y :: x in ys && y in ys ==> x == y
  }

  lemma {:induction false} SumConcat(a: seq<int>, b: seq<int>)
    ensures Sum(a + b) == Sum(a) + Sum(b)
  {
    if a == [] {
      assert a + b == b;
    } else {
      SumConcat(a[1..], b);
      assert (a + b)[1..] == a[1..] + b;
    }
  }

  lemma TimesOneMore(x: int, k: nat)
    requires 0 < k
    ensures x * k == x + x * (k - 1)
  {
  }

  lemma {:induction false} SumAtMost(ys: seq<int>, hi: int)
    requires forall y :: y in ys ==> y <= hi
    ensures Sum(ys) <= hi * |ys|
    ensures Sum(ys) == hi * |ys| <==> forall y :: y in ys ==> y == hi
  {
    if ys != [] {
      var rest := ys[1..];
      assert ys == [ys[0]] + rest;
      forall y | y in rest
        ensures y in ys
      {
      }
      SumAtMost(rest, hi);
      TimesOneMore(hi, |ys|);
      assert ys[0] in ys;
    }
  }

  lemma {:induction false} SumAtLeast(ys: seq<int>, lo: int)
    requires forall y :: y in ys ==> lo <= y
    ensures lo * |ys| <= Sum(ys)
    ensures Sum(ys) == lo * |ys| <==> forall y :: y in ys ==> y == lo
  {
    if ys != [] {
      var rest := ys[1..];
      assert ys == [ys[0]] + rest;
      forall y | y in rest
        ensures y in ys
      {
      }
      SumAtLeast(rest, lo);
      TimesOneMore(lo, |ys|);
      assert ys[0] in ys;
    }
  }

  lemma ProductOfInts(x: int, y: int)
    ensures (x * y) as real == x as real * y as real
  {
  }

  lemma CrossMultiply(s: real, n: real, t: real, m: real)
    requires 0.0 < n && 0.0 < m
    ensures s / n == t / m <==> s * m == t * n
  {
    var (x, y) := (s / n, t / m);
    assert s == x * n && t == y * m;
    assert s * m == x * (n * m) && t * n == y * (n * m);
    if x < y {
      MultiplyStrictly(x, y, n * m);
    } else if y < x {
      MultiplyStrictly(y, x, n * m);
    }
  }

  lemma RatiosEqual(s: int, n: int, t: int, m: int)
    requires 0 < n && 0 < m
    ensures s as real / n as real == t as real / m as real <==> s * m == t * n
  {
    CrossMultiply(s as real, n as real, t as real, m as real);
    ProductOfInts(s, m);
    ProductOfInts(t, n);
  }

  lemma MeansEqual(xs: seq<int>, ys: seq<int>)
    requires xs != [] && ys != []
    ensures Mean(xs) == Mean(ys) <==> Sum(xs) * |ys| == Sum(ys) * |xs|
  {
    RatiosEqual(Sum(xs), |xs|, Sum(ys), |ys|);
  }

  lemma Scale(x: int, y: int, k: int)
    requires 0 < k
    ensures x <= y <==> x * k <= y * k
    ensures x == y <==> x * k == y * k
  {
    if x < y {
      assert (y - x) * k > 0;
    } else if y < x {
      assert (x - y) * k > 0;
    }
  }

  /** Sums s of m values up to x and t of n values from y on, where x is not above y. */
  lemma SumsBalance(s: int, m: int, x: int, t: int, n: int, y: int)
    requires 0 < m && 0 < n && s <= x * m && y * n <= t && x <= y
    ensures s * n <= t * m
    ensures s * n == t * m <==> s == x * m && t == y * n && x == y
  {
    Scale(s, x * m, n);
    Scale(y * n, t, m);
    Scale(x, y, m * n);
    assert (x * m) * n == x * (m * n) && (y * n) * m == y * (m * n);
  }

  /** Two parts of a line, the one not below the other, balance exactly when the line is level. */
  lemma PartsBalance(a: seq<int>, b: seq<int>, x: int, y: int)
    requires a != [] && b != [] && x in a && y in b && x <= y
    requires (forall z :: z in a ==> z <= x) && forall z :: z in b ==> y <= z
    ensures Sum(a) * |b| <= Sum(b) * |a|
    ensures Sum(a) * |b| == Sum(b) * |a| <==> Level(a + b)
  {
    SumAtMost(a, x);
    SumAtLeast(b, y);
    SumsBalance(Sum(a), |a|, x, Sum(b), |b|, y);
    LevelParts(a, b, x, y);
  }

  lemma LevelParts(a: seq<int>, b: seq<int>, x: int, y: int)
    requires x in a && y in b
    ensures Level(a + b) <==> (forall z :: z in a ==> z == x) && (forall z :: z in b ==> z == y) && x == y
  {
    assert forall z :: z in a + b <==> z in a || z in b;
  }

  lemma SortedHalves(ys: seq<int>, k: nat)
    requires IsSorted(ys) && 0 < k < |ys|
    ensures (forall z :: z in ys[..k] ==> z <= ys[k - 1]) && forall z :: z in ys[k..] ==> ys[k] <= z
    ensures ys[k - 1] in ys[..k] && ys[k] in ys[k..] && ys[k - 1] <= ys[k]
  {
    var (a, b) := (ys[..k], ys[k..]);
    assert a[k - 1] == ys[k - 1] && b[0] == ys[k];
    forall z | z in b
      ensures ys[k] <= z
    {
      var l :| 0 <= l < |b| && b[l] == z;
      assert b[l] == ys[k + l];
    }
  }

  lemma SplitSorted(ys: seq<int>, k: nat)
    requires IsSorted(ys) && 0 < k < |ys|
    ensures var (a, b) := (ys[..k], ys[k..]);
      ys == a + b && Sum(ys) == Sum(a) + Sum(b) && (Sum(a) * |b| == Sum(b) * |a| <==> Level(ys))
  {
    var (a, b) := (ys[..k], ys[k..]);
    assert ys == a + b;
    SumConcat(a, b);
    SortedHalves(ys, k);
    PartsBalance(a, b, ys[k - 1], ys[k]);
  }

  /** A part against the whole, in terms of the two parts. */
  lemma PartOfWhole(s: int, m: int, t: int, n: int)
    ensures s * (m + n) == (s + t) * m <==> s * n == t * m
    ensures t * (m + n) == (s + t) * n <==> s * n == t * m
  {
    assert s * (m + n) == s * m + s * n && (s + t) * m == s * m + t * m;
    assert t * (m + n) == t * m + t * n && (s + t) * n == s * n + t * n;
  }

  /** A part of a sorted line has the mean of the line exactly when it is all of it or the line is level. */
  lemma PrefixMean(ys: seq<int>, k: nat)
    requires IsSorted(ys) && 0 < k <= |ys|
    ensures Mean(ys[..k]) == Mean(ys) <==> k == |ys| || Level(ys)
  {
    if k == |ys| {
      assert ys[..k] == ys;
    } else {
      var (a, b) := (ys[..k], ys[k..]);
      SplitSorted(ys, k);
      MeansEqual(a, ys);
      PartOfWhole(Sum(a), |a|, Sum(b), |b|);
    }
  }

  lemma SuffixMean(ys: seq<int>, k: nat)
    requires IsSorted(ys) && k < |ys|
    ensures Mean(ys[k..]) == Mean(ys) <==> k == 0 || Level(ys)
  {
    if k == 0 {
      assert ys[k..] == ys;
    } else {
      var (a, b) := (ys[..k], ys[k..]);
      SplitSorted(ys, k);
      MeansEqual(b, ys);
      PartOfWhole(Sum(a), |a|, Sum(b), |b|);
    }
  }

  /** Contours of another line move the mean. */
  lemma MixedMeans(a: seq<int>, b: seq<int>)
    requires a != [] && b != [] && StrictlyAbove(a, b)
    ensures Mean(a + b) != Mean(a) && Mean(a + b) != Mean(b)
  {
    PartsBalance(a, b, MaximumOf(a), MinimumOf(b));
    LevelParts(a, b, MaximumOf(a), MinimumOf(b));
    SumConcat(a, b);
    MeansEqual(a, a + b);
    MeansEqual(b, a + b);
    PartOfWhole(Sum(a), |a|, Sum(b), |b|);
  }

  function MaximumOf(ys: seq<int>): (m: int)
    requires ys != []
    ensures m in ys && forall y :: y in ys ==> y <= m
  {
    if |ys| == 1 then ys[0]
    else
      var m := MaximumOf(ys[1..]);
      assert forall y :: y in ys ==> y == ys[0] || y in ys[1..];
      if m < ys[0] then ys[0] else m
  }

  function MinimumOf(ys: seq<int>): (m: int)
    requires ys != []
    ensures m in ys && forall y :: y in ys ==> m <= y
  {
    if |ys| == 1 then ys[0]
    else
      var m := MinimumOf(ys[1..]);
      assert forall y :: y in ys ==> y == ys[0] || y in ys[1..];
      if ys[0] < m then ys[0] else m
  }

  /** A cut takes all contours of a line of n and no other, or some of a level line. */
  predicate TakesOwn(taken: nat, n: nat, level: bool) {
    taken == n || (taken < n && level)
  }

  lemma TopIsRead(a: seq<int>, rest: seq<int>, i: nat)
    requires IsSorted(a) && a != [] && StrictlyAbove(a, rest) && 0 < i <= |a + rest|
    ensures Mean((a + rest)[..i]) == Mean(a) <==> TakesOwn(i, |a|, Level(a))
  {
    var s := a + rest;
    if i <= |a| {
      assert s[..i] == a[..i];
      PrefixMean(a, i);
    } else {
      var extra := rest[..i - |a|];
      assert s[..i] == a + extra;
      assert forall x :: x in extra ==> x in rest;
      MixedMeans(a, extra);
    }
  }

  lemma BottomIsRead(rest: seq<int>, c: seq<int>, j: nat)
    requires IsSorted(c) && c != [] && StrictlyAbove(rest, c) && j < |rest + c|
    ensures Mean((rest + c)[j..]) == Mean(c) <==> TakesOwn(|rest + c| - j, |c|, Level(c))
  {
    var s := rest + c;
    if j >= |rest| {
      assert s[j..] == c[j - |rest|..];
      SuffixMean(c, j - |rest|);
    } else {
      var extra := rest[j..];
      assert s[j..] == extra + c;
      assert forall x :: x in extra ==> x in rest;
      MixedMeans(extra, c);
    }
  }

  /** Part of a level line, or nothing, has its share of the sum of the line. */
  lemma PartSum(part: seq<int>, line: seq<int>)
    requires line != [] && (forall x :: x in part ==> x in line) && (part == [] || Level(line))
    ensures WeightOf(line).HasShare(Sum(part), |part|)
  {
    if part != [] {
      var v := line[0];
      LevelSum(part, line, v);
      LevelSum(line, line, v);
      SwapFactors(v, |part|, |line|);
    }
  }

  lemma SwapFactors(v: int, p: int, n: int)
    ensures (v * p) * n == (v * n) * p
  {
  }

  lemma LevelSum(part: seq<int>, line: seq<int>, v: int)
    requires Level(line) && v in line && forall x :: x in part ==> x in line
    ensures Sum(part) == v * |part|
  {
    SumAtMost(part, v);
  }

  /** p values at x, q at y and r at z have mean y exactly when the others balance around y. */
  lemma Balance(x: real, y: real, z: real, p: real, q: real, r: real)
    ensures p * x + q * y + r * z == y * (p + q + r) <==> p * (y - x) == r * (z - y)
  {
    assert y * (p + q + r) - (p * x + q * y + r * z) == p * (y - x) - r * (z - y);
  }

  /** The sum of a part, from the mean of its line. */
  lemma ShareOf(part: int, p: int, line: int, n: int, mean: real)
    requires 0 < n && part * n == line * p && mean == line as real / n as real
    ensures part as real == p as real * mean
  {
    assert mean * n as real == line as real;
    ProductOfInts(part, n);
    ProductOfInts(line, p);
    assert (p as real * mean) * n as real == p as real * (mean * n as real);
    SameFactor(part as real, p as real * mean, n as real);
  }

  lemma BalanceOfSums(over: int, p: int, a: int, na: int, b: int, q: int, under: int, r: int, c: int, nc: int)
    requires 0 < na && 0 < q && 0 < nc && over * na == a * p && under * nc == c * r
    ensures var (x, y, z) := (a as real / na as real, b as real / q as real, c as real / nc as real);
      (over + b + under) * q == b * (p + q + r) <==> p as real * (y - x) == r as real * (z - y)
  {
    var (x, y, z) := (a as real / na as real, b as real / q as real, c as real / nc as real);
    ShareOf(over, p, a, na, x);
    ShareOf(under, r, c, nc, z);
    ShareOf(b, q, b, q, y);
    SumsAsReals(over, p, b, q, under, r, y);
    Balance(x, y, z, p as real, q as real, r as real);
  }

  lemma SumsAsReals(over: int, p: int, b: int, q: int, under: int, r: int, y: real)
    requires 0 < q && b as real == q as real * y
    ensures (over + b + under) * q == b * (p + q + r) <==>
      over as real + b as real + under as real == y * (p as real + q as real + r as real)
  {
    ProductOfInts(over + b + under, q);
    ProductOfInts(b, p + q + r);
    var n := p as real + q as real + r as real;
    assert (q as real * y) * n == (y * n) * q as real;
    SameFactor((over + b + under) as real, y * n, q as real);
  }

  /** n times a distance. */
  function Times(n: nat, x: real): real {
    if n == 0 then 0.0 else x + Times(n - 1, x)
  }

  lemma {:induction false} TimesIs(n: nat, x: real)
    ensures Times(n, x) == n as real * x
  {
    if n > 0 {
      TimesIs(n - 1, x);
    }
  }

  lemma TimesAgree(p: nat, x: real, r: nat, z: real)
    ensures Times(p, x) == Times(r, z) <==> p as real * x == r as real * z
  {
    TimesIs(p, x);
    TimesIs(r, z);
  }

  /** Sum, number of values and mean. */
  datatype Weight = Weight(sum: int, count: nat, mean: real) {
    predicate Valid() { 0 < count && mean == sum as real / count as real }

    /** A part of this many of the values, with the sum that is its share. */
    predicate HasShare(part: int, p: nat) { part * count == sum * p }
  }

  function WeightOf(ys: seq<int>): (w: Weight)
    requires ys != []
    ensures w.Valid() && w.mean == Mean(ys) && w.sum == Sum(ys) && w.count == |ys|
  {
    Weight(Sum(ys), |ys|, Mean(ys))
  }

  /** A chunk made of parts of two lines around a whole line. */
  lemma ChunkMean(chunk: Weight, over: int, p: nat, a: Weight, b: Weight, under: int, r: nat, c: Weight)
    requires chunk.Valid() && a.Valid() && b.Valid() && c.Valid() && a.HasShare(over, p) && c.HasShare(under, r)
    requires chunk.count == p + b.count + r && chunk.sum == over + b.sum + under
    ensures chunk.mean == b.mean <==> Times(p, b.mean - a.mean) == Times(r, c.mean - b.mean)
  {
    TimesAgree(p, b.mean - a.mean, r, c.mean - b.mean);
    RatiosEqual(chunk.sum, chunk.count, b.sum, b.count);
    BalanceOfSums(over, p, a.sum, a.count, b.sum, b.count, under, r, c.sum, c.count);
  }

  lemma ChunkSum(over: seq<int>, b: seq<int>, under: seq<int>)
    ensures Sum(over + (b + under)) == Sum(over) + Sum(b) + Sum(under)
  {
    SumConcat(over, b + under);
    SumConcat(b, under);
  }

  lemma SameFactor(x: real, y: real, n: real)
    requires 0.0 < n
    ensures x * n == y * n <==> x == y
  {
    if x < y {
      MultiplyStrictly(x, y, n);
    } else if y < x {
      MultiplyStrictly(y, x, n);
    }
  }

  /** What the condition depends on: contour count, whether it is level, and mean. */
  datatype Line = Line(count: nat, level: bool, mean: real)

  function LineOf(ys: seq<int>): Line
    requires ys != []
  {
    Line(|ys|, Level(ys), Mean(ys))
  }

  /** The exact condition under which cuts i and j of the sorted contours tell three lines apart. */
  predicate Recovers(upper: Line, middle: Line, lower: Line, i: nat, j: nat)
    requires j <= upper.count + middle.count + lower.count
  {
    var bottom := upper.count + middle.count + lower.count - j;
    TakesOwn(i, upper.count, upper.level) && TakesOwn(bottom, lower.count, lower.level) &&
    Times(upper.count - i, middle.mean - upper.mean) == Times(lower.count - bottom, lower.mean - middle.mean)
  }

  lemma AboveJoined(a: seq<int>, b: seq<int>, c: seq<int>)
    requires b != [] && StrictlyAbove(a, b) && StrictlyAbove(b, c)
    ensures StrictlyAbove(a, b + c) && StrictlyAbove(a + b, c)
  {
    forall x, y | x in a && y in c
      ensures x < y
    {
      assert b[0] in b;
      assert x < b[0] && b[0] < y;
    }
  }

  lemma MiddleSlice(a: seq<int>, b: seq<int>, c: seq<int>, i: nat, j: nat)
    requires i <= |a| && |a| + |b| <= j <= |a| + |b| + |c|
    ensures var (over, under) := (a[i..], c[..j - |a| - |b|]);
      (a + (b + c))[i..j] == over + (b + under) &&
      (forall x :: x in over ==> x in a) && forall x :: x in under ==> x in c
  {
    var (s, t, under) := (a + (b + c), b + c, c[..j - |a| - |b|]);
    assert s[i..j] == a[i..] + t[..j - |a|];
    assert t[..j - |a|] == b + under;
  }

  lemma MiddleChunk(a: seq<int>, b: seq<int>, c: seq<int>, i: nat, j: nat)
    requires a != [] && b != [] && c != [] && i <= |a| && |a| + |b| <= j <= |a| + |b| + |c|
    requires (i < |a| ==> Level(a)) && (|a| + |b| < j ==> Level(c))
    ensures Mean((a + (b + c))[i..j]) == Mean(b) <==>
      Times(|a| - i, Mean(b) - Mean(a)) == Times(|c| - (|a| + |b| + |c| - j), Mean(c) - Mean(b))
  {
    var (over, under) := (a[i..], c[..j - |a| - |b|]);
    MiddleSlice(a, b, c, i, j);
    ChunkSum(over, b, under);
    PartSum(over, a);
    PartSum(under, c);
    ChunkMean(WeightOf((a + (b + c))[i..j]), Sum(over), |over|, WeightOf(a), WeightOf(b),
              Sum(under), |under|, WeightOf(c));
  }

  lemma OuterChunks(a: seq<int>, b: seq<int>, c: seq<int>, i: nat, j: nat)
    requires IsSorted(a) && IsSorted(c) && a != [] && b != [] && c != []
    requires StrictlyAbove(a, b) && StrictlyAbove(b, c) && 0 < i <= j < |a| + |b| + |c|
    ensures var s := a + (b + c);
      (Mean(s[..i]) == Mean(a) <==> TakesOwn(i, |a|, Level(a))) &&
      (Mean(s[j..]) == Mean(c) <==> TakesOwn(|a| + |b| + |c| - j, |c|, Level(c)))
  {
    AboveJoined(a, b, c);
    TopIsRead(a, b + c, i);
    assert a + (b + c) == (a + b) + c;
    BottomIsRead(a + b, c, j);
  }

  lemma ChunkMeans(a: seq<int>, b: seq<int>, c: seq<int>, i: nat, j: nat)
    requires IsSorted(a) && IsSorted(c) && a != [] && b != [] && c != []
    requires StrictlyAbove(a, b) && StrictlyAbove(b, c) && 0 < i < j < |a| + |b| + |c|
    ensures ThreeMeans(a + (b + c), i, j) == Band(Mean(a), Mean(b), Mean(c)) <==>
      Recovers(LineOf(a), LineOf(b), LineOf(c), i, j)
  {
    OuterChunks(a, b, c, i, j);
    if TakesOwn(i, |a|, Level(a)) && TakesOwn(|a| + |b| + |c| - j, |c|, Level(c)) {
      MiddleChunk(a, b, c, i, j);
    }
  }

  lemma SameMembers(ys: seq<int>, y: int)
    ensures y in Sorted(ys) <==> y in ys
  {
    SortedSorts(ys);
    assert y in ys <==> y in multiset(ys);
    assert y in Sorted(ys) <==> y in multiset(Sorted(ys));
  }

  lemma SortedLine(xs: seq<int>, ys: seq<int>)
    requires StrictlyAbove(xs, ys)
    ensures StrictlyAbove(Sorted(xs), Sorted(ys))
  {
    forall x, y | x in Sorted(xs) && y in Sorted(ys)
      ensures x < y
    {
      SameMembers(xs, x);
      SameMembers(ys, y);
    }
  }

  lemma SortedLevel(ys: seq<int>)
    ensures Level(Sorted(ys)) <==> Level(ys)
  {
    forall x, y | x in ys && y in ys
      ensures x in Sorted(ys) && y in Sorted(ys)
    {
      SameMembers(ys, x);
      SameMembers(ys, y);
    }
    forall x, y | x in Sorted(ys) && y in Sorted(ys)
      ensures x in ys && y in ys
    {
      SameMembers(ys, x);
      SameMembers(ys, y);
    }
  }

  /** Three separated lines of any spread and any numbers of contours come back as the means of their own
      points exactly under that condition: the outer thirds take no contour of another line, and part of a
      line only when it is level, and what spills into the middle third from above and below balances. */
  lemma LinesRecoveredExactly(points: seq<Point>, upper: seq<int>, middle: seq<int>, lower: seq<int>)
    requires upper != [] && middle != [] && lower != []
    requires StrictlyAbove(upper, middle) && StrictlyAbove(middle, lower)
    requires multiset(RightmostYs(points)) == multiset(upper + middle + lower)
    ensures var n := |upper| + |middle| + |lower|;
      Cut(n, 2) <= n &&
      (BandUlm(points) == Some(Band(Mean(upper), Mean(middle), Mean(lower))) <==>
        Recovers(LineOf(upper), LineOf(middle), LineOf(lower), Cut(n, 1), Cut(n, 2)))
  {
    var n := |upper| + |middle| + |lower|;
    CutsInOrder(n);
    RecoveredAt(points, upper, middle, lower, Cut(n, 1), Cut(n, 2));
  }

  lemma RecoveredAt(points: seq<Point>, upper: seq<int>, middle: seq<int>, lower: seq<int>, i: nat, j: nat)
    requires upper != [] && middle != [] && lower != []
    requires StrictlyAbove(upper, middle) && StrictlyAbove(middle, lower)
    requires multiset(RightmostYs(points)) == multiset(upper + middle + lower)
    requires var n := |upper| + |middle| + |lower|; i == Cut(n, 1) && j == Cut(n, 2) && j <= n
    ensures BandUlm(points) == Some(Band(Mean(upper), Mean(middle), Mean(lower))) <==>
      Recovers(LineOf(upper), LineOf(middle), LineOf(lower), i, j)
  {
    SortedByLine(RightmostYs(points), upper, middle, lower);
    LinesStaySorted(upper, middle, lower);
    SortedBand(Sorted(upper), Sorted(middle), Sorted(lower), i, j);
    SameLine(upper);
    SameLine(middle);
    SameLine(lower);
  }

  lemma SortedBand(a: seq<int>, b: seq<int>, c: seq<int>, i: nat, j: nat)
    requires IsSorted(a) && IsSorted(c) && a != [] && b != [] && c != []
    requires StrictlyAbove(a, b) && StrictlyAbove(b, c)
    requires var n := |a| + |b| + |c|; i == Cut(n, 1) && j == Cut(n, 2) && j <= n
    ensures BandOfSorted(a + (b + c)) == Some(Band(Mean(a), Mean(b), Mean(c))) <==>
      Recovers(LineOf(a), LineOf(b), LineOf(c), i, j)
  {
    CutAt(a + (b + c), i, j);
    ChunkMeans(a, b, c, i, j);
  }

  lemma SameLine(ys: seq<int>)
    requires ys != []
    ensures Sorted(ys) != [] && LineOf(Sorted(ys)) == LineOf(ys)
  {
    SortedMean(ys);
    SortedLevel(ys);
  }

  lemma LinesStaySorted(upper: seq<int>, middle: seq<int>, lower: seq<int>)
    requires upper != [] && middle != [] && lower != []
    requires StrictlyAbove(upper, middle) && StrictlyAbove(middle, lower)
    ensures IsSorted(Sorted(upper)) && IsSorted(Sorted(lower))
    ensures Sorted(upper) != [] && Sorted(middle) != [] && Sorted(lower) != []
    ensures |Sorted(upper)| + |Sorted(middle)| + |Sorted(lower)| == |upper| + |middle| + |lower|
    ensures StrictlyAbove(Sorted(upper), Sorted(middle)) && StrictlyAbove(Sorted(middle), Sorted(lower))
  {
    SortedSorts(upper);
    SortedSorts(middle);
    SortedSorts(lower);
    SortedLine(upper, middle);
    SortedLine(middle, lower);
  }

  lemma RightmostOfColumn(x: nat, ys: seq<int>, points: seq<Point>)
    requires |points| == |ys| && forall k :: 0 <= k < |ys| ==> points[k] == Point(x, ys[k])
    ensures RightmostYs(points) == ys
  {
    if points != [] {
      assert forall p :: p in points ==> p.x == x;
      YsOfColumn(x, ys, points, Cutoff(points));
    }
  }

  lemma {:induction false} YsOfColumn(x: nat, ys: seq<int>, points: seq<Point>, cutoff: int)
    requires |points| == |ys| && cutoff <= x && forall k :: 0 <= k < |ys| ==> points[k] == Point(x, ys[k])
    ensures YsFrom(points, cutoff) == ys
  {
    if points != [] {
      YsOfColumn(x, ys[1..], points[1..], cutoff);
      assert ys == [ys[0]] + ys[1..];
    }
  }

  lemma UnevenBand()
    ensures BandOfSorted([0, 10, 20, 20]) == Some(Band(5.0, 20.0, 20.0))
  {
    var ys := [0, 10, 20, 20];
    assert ys[..2] == [0, 10] && ys[2..3] == [20] && ys[3..] == [20];
    assert Sum([10]) == 10 && [0, 10][1..] == [10] && Sum([0, 10]) == 10 && Sum([20]) == 20;
    CutAt(ys, 2, 3);
  }

  /** One contour at 0, one at 10 and two at 20: the upper line is read at 5 and the middle one at 20. */
  lemma UnevenLinesAreMisread()
    ensures BandUlm([Point(9, 0), Point(9, 10), Point(9, 20), Point(9, 20)]) == Some(Band(5.0, 20.0, 20.0))
  {
    var ys := [0, 10, 20, 20];
    RightmostOfColumn(9, ys, [Point(9, 0), Point(9, 10), Point(9, 20), Point(9, 20)]);
    SortedSorts(ys);
    SortedUnique(Sorted(ys), ys);
    UnevenBand();
  }

  // ----- which contours count -----

  /** Neither left of the panel nor more than six columns left of any point. */
  predicate InWindow(points: seq<Point>, p: Point) {
    0 <= p.x && forall q :: q in points ==> q.x - p.x <= 6
  }

  /** The places of the points in the window at a height. */
  function Places(points: seq<Point>, y: int): set<nat> {
    set i: nat | i < |points| && points[i].y == y && InWindow(points, points[i])
  }

  function PlacesFrom(points: seq<Point>, cutoff: int, y: int): set<nat> {
    set i: nat | i < |points| && points[i].y == y && points[i].x >= cutoff
  }

  lemma LastPlace(points: seq<Point>, p: Point, cutoff: int, y: int)
    ensures PlacesFrom(points + [p], cutoff, y) ==
      PlacesFrom(points, cutoff, y) + if p.y == y && p.x >= cutoff then {|points|} else {}
  {
  }

  lemma {:induction false} CountFrom(points: seq<Point>, cutoff: int, y: int)
    ensures multiset(YsFrom(points, cutoff))[y] == |PlacesFrom(points, cutoff, y)|
  {
    if points == [] {
      assert PlacesFrom(points, cutoff, y) == {};
    } else {
      var (init, p) := (points[..|points| - 1], points[|points| - 1]);
      assert points == init + [p];
      CountFrom(init, cutoff, y);
      LastPlace(init, p, cutoff, y);
      YsFromConcat(init, [p], cutoff);
      assert YsFrom([p], cutoff) == if p.x >= cutoff then [p.y] else [];
    }
  }

  lemma WindowIsCutoff(points: seq<Point>, p: Point)
    requires p in points
    ensures InWindow(points, p) <==> p.x >= Cutoff(points)
  {
    var q :| q in points && q.x == MaxX(points);
  }

  /** A height is kept once for every point at it that is in the window. */
  lemma KeptHeights(points: seq<Point>, y: int)
    ensures multiset(RightmostYs(points))[y] == |Places(points, y)|
  {
    if points == [] {
      assert Places(points, y) == {};
    } else {
      CountFrom(points, Cutoff(points), y);
      forall i: nat | i < |points|
        ensures InWindow(points, points[i]) <==> points[i].x >= Cutoff(points)
      {
        WindowIsCutoff(points, points[i]);
      }
      assert Places(points, y) == PlacesFrom(points, Cutoff(points), y);
    }
  }

  /** A list that has each height once for every point at it that is in the window. */
  ghost predicate ListsWindow(points: seq<Point>, ys: seq<int>) {
    forall y :: multiset(ys)[y] == |Places(points, y)|
  }

  lemma SameAsKept(points: seq<Point>, ys: seq<int>)
    requires ListsWindow(points, ys)
    ensures multiset(RightmostYs(points)) == multiset(ys) && |RightmostYs(points)| == |ys|
  {
    forall y: int
      ensures multiset(RightmostYs(points))[y] == multiset(ys)[y]
    {
      KeptHeights(points, y);
    }
    assert multiset(RightmostYs(points)) == multiset(ys);
    assert |multiset(RightmostYs(points))| == |RightmostYs(points)| && |multiset(ys)| == |ys|;
  }

  lemma SumInPlainTerms(ys: seq<int>, y: int)
    ensures Sum([]) == 0 && Sum(ys + [y]) == Sum(ys) + y
  {
    SumConcat(ys, [y]);
    assert Sum([y]) == y;
  }

  lemma MeanTimes(ys: seq<int>)
    requires ys != []
    ensures Mean(ys) * |ys| as real == Sum(ys) as real
  {
  }

  /** The parts are near-equal, larger ones first. */
  lemma ThirdsAre(n: nat)
    ensures Cut(n, 1) == (n + 2) / 3 && Cut(n, 2) == (n + 2) / 3 + (n + 1) / 3
  {
  }

  /** The band is read from the heights in the window, in order: None for fewer than three of them, and
      otherwise the means of three near-equal parts. */
  lemma BandInPlainTerms(points: seq<Point>, ys: seq<int>)
    requires ListsWindow(points, ys) && IsSorted(ys)
    ensures |ys| < 3 ==> BandUlm(points) == None
    ensures 3 <= |ys| ==>
      var (i, j) := ((|ys| + 2) / 3, (|ys| + 2) / 3 + (|ys| + 1) / 3);
      0 < i < j < |ys| && BandUlm(points) == Some(Band(Mean(ys[..i]), Mean(ys[i..j]), Mean(ys[j..])))
  {
    SameAsKept(points, ys);
    SortedSorts(RightmostYs(points));
    SortedUnique(Sorted(RightmostYs(points)), ys);
    if 3 <= |ys| {
      ThirdsAre(|ys|);
      BandFromThirds(ys, (|ys| + 2) / 3, (|ys| + 2) / 3 + (|ys| + 1) / 3);
    }
  }

  lemma BandFromThirds(ys: seq<int>, i: nat, j: nat)
    requires 3 <= |ys| && i == Cut(|ys|, 1) && j == Cut(|ys|, 2)
    ensures 0 < i < j < |ys| && BandOfSorted(ys) == Some(Band(Mean(ys[..i]), Mean(ys[i..j]), Mean(ys[j..])))
  {
    CutAt(ys, i, j);
  }

  lemma SumOfPermuted(xs: seq<int>, ys: seq<int>)
    requires multiset(xs) == multiset(ys)
    ensures Sum(xs) == Sum(ys)
  {
    SortedSorts(xs);
    SortedSorts(ys);
    SortedUnique(Sorted(xs), Sorted(ys));
  }

  /** A single line is read exactly when some point is in the window, at the mean of the heights there,
      which lies between the least and the greatest of them. */
  lemma SingleLineInPlainTerms(points: seq<Point>, ys: seq<int>)
    requires ListsWindow(points, ys)
    ensures SingleLineY(points) == if ys == [] then None else Some(Mean(ys))
    ensures ys != [] ==> MinimumOf(ys) as real <= SingleLineY(points).value <= MaximumOf(ys) as real
  {
    SameAsKept(points, ys);
    SumOfPermuted(RightmostYs(points), ys);
    if ys != [] {
      forall i | 0 <= i < |ys|
        ensures MinimumOf(ys) <= ys[i] <= MaximumOf(ys)
      {
        assert ys[i] in ys;
      }
      MeanBetween(ys, MinimumOf(ys), MaximumOf(ys));
    }
  }
}
