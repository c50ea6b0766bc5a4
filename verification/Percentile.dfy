/** The two percentiles of the report scripts, over exact numbers: nearest rank
    (scripts/a11y_quickpaths_report.py) and linear interpolation (scripts/bench_feishu_message.py). */
module Percentile {
  import opened Sorting
  import opened Wrappers

  predicate AtMost(a: real, b: real) {
    a <= b
  }

  function Ordered(values: seq<real>): seq<real> {
    Sort(values, AtMost)
  }

  lemma OrderedShape(values: seq<real>)
    ensures |Ordered(values)| == |values| && multiset(Ordered(values)) == multiset(values)
    ensures forall i, j | 0 <= i <= j < |values| :: Ordered(values)[i] <= Ordered(values)[j]
    ensures forall i | 0 <= i < |values| :: Ordered(values)[i] in values
  {
    SortSorts(values, AtMost);
    hide Sort;
    var s := Ordered(values);
    assert Sorted(s, AtMost);
    forall i | 0 <= i < |s| ensures s[i] in values {
      assert s[i] in multiset(s);
    }
    forall i, j | 0 <= i <= j < |s| ensures s[i] <= s[j] {
      assert i < j ==> AtMost(s[i], s[j]);
    }
  }

  // ---------------------------------------------------------------------------------------
  // Nearest rank
  // ---------------------------------------------------------------------------------------

  function Ceil(x: real): int {
    -(-x).Floor
  }

  function NearestIndex(n: nat, ratio: real): (i: int)
    requires n > 0
    ensures 0 <= i < n
  {
    var c := Ceil(ratio * n as real) - 1;
    var low := if c < n - 1 then c else n - 1;
    if low > 0 then low else 0
  }

  function NearestRank(values: seq<real>, ratio: real): Option<real> {
    if values == [] then None
    else
      OrderedShape(values);
      Some(Ordered(values)[NearestIndex(|values|, ratio)])
  }

  function UpTo(v: real): real -> bool { x => x <= v }
  function Below(v: real): real -> bool { x => x < v }

  lemma {:induction false} FilterCount<T>(s: seq<T>, p: T -> bool, x: T)
    ensures multiset(Filter(s, p))[x] == if p(x) then multiset(s)[x] else 0
  {
    if s != [] {
      FilterCount(s[1..], p, x);
      assert s == [s[0]] + s[1..];
    }
  }

  /** Counting does not depend on the order. */
  lemma FilterReordered(s: seq<real>, r: seq<real>, p: real -> bool)
    requires multiset(s) == multiset(r)
    ensures |Filter(s, p)| == |Filter(r, p)|
  {
    forall x ensures multiset(Filter(s, p))[x] == multiset(Filter(r, p))[x] {
      FilterCount(s, p, x);
      FilterCount(r, p, x);
    }
    assert multiset(Filter(s, p)) == multiset(Filter(r, p));
    assert |multiset(Filter(s, p))| == |Filter(s, p)| && |multiset(Filter(r, p))| == |Filter(r, p)|;
  }

  lemma {:induction false} FilterNoneOf<T>(s: seq<T>, p: T -> bool)
    requires forall x | x in s :: !p(x)
    ensures Filter(s, p) == []
  {
    if s != [] { FilterNoneOf(s[1..], p); }
  }

  lemma IndexBounds(n: nat, ratio: real)
    requires n > 0 && 0.0 < ratio <= 1.0
    ensures (NearestIndex(n, ratio) as real) < ratio * n as real <= (NearestIndex(n, ratio) + 1) as real
  {
    var x := ratio * n as real;
    MulMonotone(n as real, ratio, 1.0);
    PositiveProduct(n as real, ratio);
    assert 1.0 * n as real == n as real;
    assert 0.0 < x <= n as real;
    assert (Ceil(x) - 1) as real < x <= Ceil(x) as real;
  }

  lemma PositiveProduct(x: real, y: real)
    requires x > 0.0 && y > 0.0
    ensures y * x > 0.0
  {
  }

  lemma MulMonotone(x: real, t: real, u: real)
    requires x >= 0.0 && t <= u
    ensures x * t <= x * u && t * x <= u * x
  {
    var d := u - t;
    assert x * u == x * t + x * d;
    assert x * d >= 0.0;
  }

  /** In an ordered list at least i+1 values are at most s[i] and at most i are below it. */
  lemma CountAround(s: seq<real>, i: nat)
    requires i < |s| && forall j, k | 0 <= j <= k < |s| :: s[j] <= s[k]
    ensures |Filter(s, UpTo(s[i]))| >= i + 1 && |Filter(s, Below(s[i]))| <= i
  {
    hide Filter;
    var v := s[i];
    assert s == s[..i + 1] + s[i + 1..] && s == s[..i] + s[i..];
    FilterConcat(s[..i + 1], s[i + 1..], UpTo(v));
    FilterAll(s[..i + 1], UpTo(v));
    FilterConcat(s[..i], s[i..], Below(v));
    FilterNoneOf(s[i..], Below(v));
    FilterMultiset(s[..i], Below(v));
  }

  /** The value reached at a ratio: at least that share of the values lies at or below it, and less
      than that share lies strictly below. */
  lemma NearestRankIsQuantile(values: seq<real>, ratio: real)
    requires values != [] && 0.0 < ratio <= 1.0
    ensures var v := NearestRank(values, ratio).value;
            && NearestRank(values, ratio).Some? && v in values
            && |Filter(values, UpTo(v))| as real >= ratio * |values| as real
            && (|Filter(values, Below(v))| as real) < ratio * |values| as real
  {
    hide Filter, Ordered, NearestIndex;
    OrderedShape(values);
    var s, i := Ordered(values), NearestIndex(|values|, ratio);
    IndexBounds(|values|, ratio);
    CountAround(s, i);
    FilterReordered(values, s, UpTo(s[i]));
    FilterReordered(values, s, Below(s[i]));
  }

  // ---------------------------------------------------------------------------------------
  // Interpolation
  // ---------------------------------------------------------------------------------------

  /** `int` truncates toward zero. */
  function Truncate(x: real): int {
    if x >= 0.0 then x.Floor else -(-x).Floor
  }

  function Interpolated(values: seq<real>, p: real): real
    requires values != [] ==> 0.0 <= p <= 1.0
  {
    if values == [] then 0.0
    else
      OrderedShape(values);
      var s := Ordered(values);
      var k := Position(|s| - 1, p);
      PositionBound(|s| - 1, p);
      var f := Truncate(k);
      var c := if f + 1 < |s| - 1 then f + 1 else |s| - 1;
      if f == c then s[f] else Mix(s[f], s[c], c as real - k, k - f as real)
  }

  function Times(x: real, y: real): real {
    x * y
  }

  lemma TimesMonotone(x: real, t: real, u: real)
    requires x >= 0.0 && t <= u
    ensures Times(x, t) <= Times(x, u)
  {
    MulMonotone(x, t, u);
  }

  lemma TimesEnds(x: real)
    ensures Times(x, 0.0) == 0.0 && Times(x, 1.0) == x
  {
  }

  function Mix(a: real, b: real, t: real, u: real): real {
    Times(a, t) + Times(b, u)
  }

  /** A weighted mean moves from one end by a share of the distance. */
  lemma MixFrom(a: real, b: real, t: real, u: real)
    requires t + u == 1.0
    ensures Mix(a, b, t, u) == a + Times(b - a, u)
  {
    assert a * (1.0 - u) == a - a * u;
    assert (b - a) * u == b * u - a * u;
  }

  function Position(last: nat, p: real): real {
    Times(last as real, p)
  }

  lemma PositionBound(last: nat, p: real)
    requires 0.0 <= p <= 1.0
    ensures var k := Position(last, p);
            0.0 <= k <= last as real && 0 <= Truncate(k) <= last && Truncate(k) as real <= k < (Truncate(k) + 1) as real
  {
    hide Truncate, Times;
    TimesEnds(last as real);
    TimesMonotone(last as real, 0.0, p);
    TimesMonotone(last as real, p, 1.0);
    TruncateShape(Position(last, p), last);
  }

  lemma TruncateShape(k: real, last: nat)
    requires 0.0 <= k <= last as real
    ensures 0 <= Truncate(k) <= last && Truncate(k) as real <= k < (Truncate(k) + 1) as real
  {
  }

  lemma PositionMonotone(last: nat, p: real, q: real)
    requires 0.0 <= p <= q <= 1.0
    ensures Position(last, p) <= Position(last, q) && Truncate(Position(last, p)) <= Truncate(Position(last, q))
  {
    hide Times;
    TimesMonotone(last as real, p, q);
    PositionBound(last, p);
    PositionBound(last, q);
  }

  /** The two order statistics around a position. */
  function LowerNeighbour(values: seq<real>, p: real): real
    requires values != [] && 0.0 <= p <= 1.0
  {
    OrderedShape(values);
    PositionBound(|values| - 1, p);
    Ordered(values)[Truncate(Position(|values| - 1, p))]
  }

  function UpperNeighbour(values: seq<real>, p: real): real
    requires values != [] && 0.0 <= p <= 1.0
  {
    OrderedShape(values);
    PositionBound(|values| - 1, p);
    var f := Truncate(Position(|values| - 1, p));
    Ordered(values)[if f + 1 < |values| - 1 then f + 1 else |values| - 1]
  }

  lemma MixBetween(a: real, b: real, t: real, u: real)
    requires a <= b && t >= 0.0 && u >= 0.0 && t + u == 1.0
    ensures a <= Mix(a, b, t, u) <= b
  {
    hide Times, Mix;
    MixFrom(a, b, t, u);
    TimesEnds(b - a);
    TimesMonotone(b - a, 0.0, u);
    TimesMonotone(b - a, u, 1.0);
  }

  lemma MixMonotone(a: real, b: real, t: real, u: real, t': real, u': real)
    requires a <= b && t + u == 1.0 && t' + u' == 1.0 && u <= u'
    ensures Mix(a, b, t, u) <= Mix(a, b, t', u')
  {
    hide Times, Mix;
    MixFrom(a, b, t, u);
    MixFrom(a, b, t', u');
    TimesMonotone(b - a, u, u');
  }

  /** The interpolated value lies between its two neighbours, which are values of the list. */
  lemma InterpolatedBetween(values: seq<real>, p: real)
    requires values != [] && 0.0 <= p <= 1.0
    ensures LowerNeighbour(values, p) <= Interpolated(values, p) <= UpperNeighbour(values, p)
    ensures LowerNeighbour(values, p) in values && UpperNeighbour(values, p) in values
  {
    OrderedShape(values);
    hide Ordered, Mix, Position, Truncate;
    var s, k := Ordered(values), Position(|values| - 1, p);
    PositionBound(|values| - 1, p);
    var f := Truncate(k);
    if f < |s| - 1 {
      MixBetween(s[f], s[f + 1], (f + 1) as real - k, k - f as real);
    }
  }

  /** A higher percentile is never smaller, also across the values of the list. */
  lemma InterpolatedMonotone(values: seq<real>, p: real, q: real)
    requires values != [] && 0.0 <= p <= q <= 1.0
    ensures Interpolated(values, p) <= Interpolated(values, q)
  {
    OrderedShape(values);
    hide Ordered, Mix, Position, Truncate;
    var s, k, l := Ordered(values), Position(|values| - 1, p), Position(|values| - 1, q);
    PositionBound(|values| - 1, p);
    PositionBound(|values| - 1, q);
    PositionMonotone(|values| - 1, p, q);
    var f, g := Truncate(k), Truncate(l);
    if f == g {
      if f < |s| - 1 {
        MixMonotone(s[f], s[f + 1], (f + 1) as real - k, k - f as real, (f + 1) as real - l, l - f as real);
      }
    } else {
      InterpolatedBetween(values, p);
      InterpolatedBetween(values, q);
      assert UpperNeighbour(values, p) == s[f + 1] && LowerNeighbour(values, q) == s[g];
    }
  }

  /** The ends of the scale are the smallest and the largest value. */
  lemma InterpolatedEnds(values: seq<real>)
    requires values != []
    ensures forall v | v in values :: Interpolated(values, 0.0) <= v <= Interpolated(values, 1.0)
  {
    OrderedShape(values);
    var s := Ordered(values);
    hide Ordered, Times, Mix;
    TimesEnds((|s| - 1) as real);
    InterpolatedHits(values, 0, 0.0);
    InterpolatedHits(values, |s| - 1, 1.0);
    forall v | v in values ensures s[0] <= v <= s[|s| - 1] {
      assert v in multiset(s);
      var i :| 0 <= i < |s| && s[i] == v;
    }
  }

  /** Between two neighbouring order statistics, ends included, the value is their weighted mean. */
  lemma OnSegment(values: seq<real>, i: nat, p: real)
    requires i + 1 < |values| && 0.0 <= p <= 1.0 && i as real <= Position(|values| - 1, p) <= (i + 1) as real
    ensures var k := Position(|values| - 1, p);
            && |Ordered(values)| == |values|
            && Interpolated(values, p)
               == Mix(Ordered(values)[i], Ordered(values)[i + 1], (i + 1) as real - k, k - i as real)
  {
    OrderedShape(values);
    hide Ordered, Position, Mix;
    PositionBound(|values| - 1, p);
    var s, k := Ordered(values), Position(|values| - 1, p);
    if k == (i + 1) as real {
      MixEnds(s[i], s[i + 1]);
      InterpolatedHits(values, i + 1, p);
    } else {
      assert Truncate(k) == i;
    }
  }

  /** Where the position is a whole number i, that is at p = i/(n-1), the percentile is the i-th value. */
  lemma InterpolatedHits(values: seq<real>, i: nat, p: real)
    requires i < |values| && 0.0 <= p <= 1.0 && Position(|values| - 1, p) == i as real
    ensures |Ordered(values)| == |values| && Interpolated(values, p) == Ordered(values)[i]
  {
    OrderedShape(values);
    var s := Ordered(values);
    hide Ordered, Mix, Position;
    PositionBound(|values| - 1, p);
    if i + 1 < |s| {
      MixEnds(s[i], s[i + 1]);
    }
  }

  lemma MixEnds(a: real, b: real)
    ensures Mix(a, b, 1.0, 0.0) == a && Mix(a, b, 0.0, 1.0) == b
  {
  }

  /** In between the percentile is affine, which with `InterpolatedHits` fixes it everywhere. */
  lemma InterpolatedAffine(values: seq<real>, i: nat, p: real, q: real, w: real)
    requires i + 1 < |values| && 0.0 <= p <= 1.0 && 0.0 <= q <= 1.0 && 0.0 <= w <= 1.0
    requires i as real <= Position(|values| - 1, p) <= (i + 1) as real
             && i as real <= Position(|values| - 1, q) <= (i + 1) as real
    ensures 0.0 <= Mix(p, q, w, 1.0 - w) <= 1.0
    ensures Interpolated(values, Mix(p, q, w, 1.0 - w))
            == Mix(Interpolated(values, p), Interpolated(values, q), w, 1.0 - w)
  {
    hide Interpolated, Ordered, Mix, Position;
    var last, m := |values| - 1, Mix(p, q, w, 1.0 - w);
    MixWithin(p, q, w, 0.0, 1.0);
    MixWithin(Position(last, p), Position(last, q), w, i as real, (i + 1) as real);
    MixScaled(last, p, q, w);
    OnSegment(values, i, p);
    OnSegment(values, i, q);
    OnSegment(values, i, m);
    MixOfMixes(Ordered(values)[i], Ordered(values)[i + 1], i as real, Position(last, p), Position(last, q), w);
  }

  lemma MixWithin(x: real, y: real, w: real, low: real, high: real)
    requires low <= x <= high && low <= y <= high && 0.0 <= w <= 1.0
    ensures low <= Mix(x, y, w, 1.0 - w) <= high
  {
    if x <= y { MixBetween(x, y, w, 1.0 - w); } else { MixBetween(y, x, 1.0 - w, w); }
  }

  lemma MixScaled(last: nat, p: real, q: real, w: real)
    ensures Position(last, Mix(p, q, w, 1.0 - w)) == Mix(Position(last, p), Position(last, q), w, 1.0 - w)
  {
    var n, v := last as real, 1.0 - w;
    assert n * (p * w + q * v) == (n * p) * w + (n * q) * v;
  }

  lemma MixOfMixes(a: real, b: real, i: real, x: real, y: real, w: real)
    ensures var k := Mix(x, y, w, 1.0 - w);
            Mix(a, b, i + 1.0 - k, k - i)
            == Mix(Mix(a, b, i + 1.0 - x, x - i), Mix(a, b, i + 1.0 - y, y - i), w, 1.0 - w)
  {
  }
}
