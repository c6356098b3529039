/**
 Deck routes: the nearest one to a position, and the point at a given progress along one.

 Coordinates are real numbers. Distances are compared by their squares, and the lengths of segments are
 handed in as the non-negative numbers whose squares they are.
*/
module DeckRoutes {
  import opened Options

  datatype Position = Position(fwd: real, right: real)

  function Product(x: real, y: real): real {
    x * y
  }

  function SquaredDistance(a: Position, b: Position): real {
    Product(a.fwd - b.fwd, a.fwd - b.fwd) + Product(a.right - b.right, a.right - b.right)
  }

  // The point at fraction t from a to b.
  function Between(a: Position, b: Position, t: real): Position {
    Position(a.fwd + Product(t, b.fwd - a.fwd), a.right + Product(t, b.right - a.right))
  }

  function Dot(p: Position, a: Position, b: Position): real {
    Product(p.fwd - a.fwd, b.fwd - a.fwd) + Product(p.right - a.right, b.right - a.right)
  }

  function Clamp01(x: real): real {
    if x < 0.0 then 0.0 else if x > 1.0 then 1.0 else x
  }

  function Projection(p: Position, a: Position, b: Position): real {
    if SquaredDistance(b, a) == 0.0 then 0.0 else Clamp01(Dot(p, a, b) / SquaredDistance(b, a))
  }

  /** The square of `distanceToSegment`. */
  function SquaredDistanceToSegment(p: Position, a: Position, b: Position): real {
    if SquaredDistance(b, a) == 0.0 then SquaredDistance(p, a)
    else SquaredDistance(p, Between(a, b, Projection(p, a, b)))
  }

  lemma NotNegative(a: real, b: real)
    requires a >= 0.0 && b >= 0.0
    ensures a * b >= 0.0
  {
  }

  lemma SquareNotNegative(x: real)
    ensures x * x >= 0.0
  {
  }

  // The squared distance to the point at fraction t of a segment, from the squared distance to its start,
  // the dot product with it and its squared length.
  function Along(start: real, dot: real, length: real, t: real): real {
    start - 2.0 * t * dot + t * t * length
  }

  lemma AlongAdds(s1: real, d1: real, l1: real, s2: real, d2: real, l2: real, t: real)
    ensures Along(s1 + s2, d1 + d2, l1 + l2, t) == Along(s1, d1, l1, t) + Along(s2, d2, l2, t)
  {
    assert 2.0 * t * (d1 + d2) == 2.0 * t * d1 + 2.0 * t * d2;
    assert t * t * (l1 + l2) == t * t * l1 + t * t * l2;
  }

  lemma DistanceAlong(p: Position, a: Position, b: Position, t: real)
    ensures SquaredDistance(p, Between(a, b, t)) == Along(SquaredDistance(p, a), Dot(p, a, b), SquaredDistance(b, a), t)
  {
    hide Along, Product;
    var x, y, u, v := p.fwd - a.fwd, p.right - a.right, b.fwd - a.fwd, b.right - a.right;
    SquareOfGap(p.fwd, a.fwd, b.fwd, t);
    SquareOfGap(p.right, a.right, b.right, t);
    AlongAdds(Product(x, x), Product(x, u), Product(u, u), Product(y, y), Product(y, v), Product(v, v), t);
  }

  lemma SquareOfGap(p: real, a: real, b: real, t: real)
    ensures Product(p - (a + Product(t, b - a)), p - (a + Product(t, b - a))) ==
            Along(Product(p - a, p - a), Product(p - a, b - a), Product(b - a, b - a), t)
  {
    var x, m := p - a, t * (b - a);
    assert p - (a + m) == x - m;
    calc {
      (x - m) * (x - m);
    ==
      x * x - 2.0 * (x * m) + m * m;
    ==
      { assert x * m == t * (x * (b - a)); assert m * m == t * t * ((b - a) * (b - a)); }
      x * x - 2.0 * (t * (x * (b - a))) + t * t * ((b - a) * (b - a));
    }
  }

  // With the fraction clamped into the segment, the quadratic is smallest.
  lemma ClampedIsSmallest(d: real, l: real, t: real)
    requires l > 0.0 && 0.0 <= t <= 1.0
    ensures var c := Clamp01(d / l); Along(0.0, d, l, c) <= Along(0.0, d, l, t)
  {
    var q := d / l;
    assert d == q * l;
    var c := Clamp01(q);
    calc {
      (-2.0 * t * d + t * t * l) - (-2.0 * c * d + c * c * l);
    ==
      (t - c) * ((t + c) * l - 2.0 * d);
    ==
      (t - c) * (((t + c) - 2.0 * q) * l);
    ==
      ((t - c) * (t - c)) * l + (2.0 * ((t - c) * (c - q))) * l;
    }
    SquareNotNegative(t - c);
    NotNegative((t - c) * (t - c), l);
    if q < 0.0 {
      NotNegative(t, -q);
    } else if q > 1.0 {
      NotNegative(1.0 - t, q - 1.0);
    }
    assert (t - c) * (c - q) >= 0.0;
    NotNegative(2.0 * ((t - c) * (c - q)), l);
  }

  lemma ZeroOnlyAtOnce(a: Position, b: Position)
    ensures SquaredDistance(b, a) >= 0.0
    ensures SquaredDistance(b, a) == 0.0 ==> a == b
  {
    hide Product;
    var u, v := b.fwd - a.fwd, b.right - a.right;
    NoSquareRootOfZero(u);
    NoSquareRootOfZero(v);
  }

  lemma NoSquareRootOfZero(x: real)
    ensures Product(x, x) >= 0.0
    ensures Product(x, x) == 0.0 ==> x == 0.0
  {
    if x > 0.0 {
      Positive(x, x);
    } else {
      ProductOfNegations(x);
      if x < 0.0 {
        Positive(-x, -x);
      }
    }
  }

  lemma ProductOfNegations(x: real)
    ensures Product(-x, -x) == Product(x, x)
  {
  }

  lemma Positive(a: real, b: real)
    requires a > 0.0 && b > 0.0
    ensures Product(a, b) > 0.0
  {
  }

  /** The distance to a segment is at most the distance to any of its points, and is reached at one of them. */
  lemma SegmentDistanceIsLeast(p: Position, a: Position, b: Position, t: real)
    requires 0.0 <= t <= 1.0
    ensures SquaredDistanceToSegment(p, a, b) <= SquaredDistance(p, Between(a, b, t))
    ensures 0.0 <= Projection(p, a, b) <= 1.0
    ensures SquaredDistanceToSegment(p, a, b) == SquaredDistance(p, Between(a, b, Projection(p, a, b)))
  {
    ZeroOnlyAtOnce(a, b);
    if SquaredDistance(b, a) == 0.0 {
      BetweenSame(a, t);
      BetweenSame(a, 0.0);
    } else {
      hide SquaredDistance, Between, Dot, Along;
      var l, d, c := SquaredDistance(b, a), Dot(p, a, b), Projection(p, a, b);
      DistanceAlong(p, a, b, t);
      DistanceAlong(p, a, b, c);
      ClampedIsSmallest(d, l, t);
      AlongAdds(SquaredDistance(p, a), 0.0, 0.0, 0.0, d, l, t);
      AlongAdds(SquaredDistance(p, a), 0.0, 0.0, 0.0, d, l, c);
      AlongNothing(SquaredDistance(p, a), t);
      AlongNothing(SquaredDistance(p, a), c);
    }
  }

  lemma AlongNothing(s: real, t: real)
    ensures Along(s, 0.0, 0.0, t) == s
  {
  }

  lemma BetweenSame(a: Position, t: real)
    ensures Between(a, a, t) == a
  {
  }

  // ---------------------------------------------------------------------------------------------
  // The nearest route
  // ---------------------------------------------------------------------------------------------

  type Route = seq<Position>

  // The squared distance to the segment that ends at point i of route r.
  function ToSegment(routes: seq<Route>, p: Position, r: nat, i: nat): real
    requires r < |routes| && 1 <= i < |routes[r]|
  {
    SquaredDistanceToSegment(p, routes[r][i - 1], routes[r][i])
  }

  // The limit, squared; no distance is below a limit that is not positive.
  function SquaredLimit(limit: real): real {
    if limit > 0.0 then limit * limit else 0.0
  }

  // Nothing among the segments up to (r, i) is nearer than best.
  ghost predicate NoneNearer(routes: seq<Route>, p: Position, best: real, r: nat, i: nat) {
    forall k: nat, j: nat ::
      k < |routes| && 1 <= j < |routes[k]| && (k < r || (k == r && j < i)) ==> best <= ToSegment(routes, p, k, j)
  }

  // best is the distance to some segment of route k, before (r, i), and below the limit.
  ghost predicate Reached(routes: seq<Route>, p: Position, best: real, limit: real, k: nat) {
    && k < |routes| && best < SquaredLimit(limit)
    && exists j: nat :: 1 <= j < |routes[k]| && ToSegment(routes, p, k, j) == best
  }

  /** The search: no route exactly when no segment is strictly within the limit, and otherwise the first
      route with a segment as near as any. */
  method NearestLaunchRoute(routes: seq<Route>, p: Position, limit: real)
    returns (nearest: Option<nat>, ghost best: real)
    ensures nearest.None? ==> NoneNearer(routes, p, SquaredLimit(limit), |routes|, 0)
    ensures nearest.Some? ==> Reached(routes, p, best, limit, nearest.value)
    ensures nearest.Some? ==> NoneNearer(routes, p, best, |routes|, 0)
    ensures nearest.Some? ==> forall k: nat, j: nat ::
              k < nearest.value && 1 <= j < |routes[k]| ==> best < ToSegment(routes, p, k, j)
  {
    hide SquaredDistanceToSegment, SquaredLimit;
    nearest := None;
    var nearestSquared := SquaredLimit(limit);
    for r := 0 to |routes|
      invariant nearest.None? ==> nearestSquared == SquaredLimit(limit)
      invariant nearest.Some? ==> nearest.value < r && Reached(routes, p, nearestSquared, limit, nearest.value)
      invariant nearest.Some? ==> forall k: nat, j: nat ::
                  k < nearest.value && 1 <= j < |routes[k]| ==> nearestSquared < ToSegment(routes, p, k, j)
      invariant NoneNearer(routes, p, nearestSquared, r, 0)
    {
      var candidate := routes[r];
      var index := 1;
      while index < |candidate|
        invariant 1 <= index
        invariant nearest.None? ==> nearestSquared == SquaredLimit(limit)
        invariant nearest.Some? ==> nearest.value <= r && Reached(routes, p, nearestSquared, limit, nearest.value)
        invariant nearest.Some? ==> forall k: nat, j: nat ::
                    k < nearest.value && 1 <= j < |routes[k]| ==> nearestSquared < ToSegment(routes, p, k, j)
        invariant NoneNearer(routes, p, nearestSquared, r, index)
        decreases |candidate| - index
      {
        var squared := SquaredDistanceToSegment(p, candidate[index - 1], candidate[index]);
        assert squared == ToSegment(routes, p, r, index);
        if squared < nearestSquared {
          nearestSquared := squared;
          nearest := Some(r);
        }
        index := index + 1;
      }
    }
    best := nearestSquared;
  }

  // A point of the segment that ends at point i of the route.
  ghost predicate OnSegment(route: Route, i: nat, t: real, q: Position) {
    1 <= i < |route| && 0.0 <= t <= 1.0 && q == Between(route[i - 1], route[i], t)
  }

  // A point of a route that has at least one segment.
  ghost predicate OnRoute(route: Route, q: Position) {
    exists i: nat, t: real :: OnSegment(route, i, t, q)
  }

  /** So the answer is right for every point of every route: without a route, none is strictly within the
      limit; with one, some point of it is, and no point of any route is nearer. */
  lemma NearestOfAllPoints(routes: seq<Route>, p: Position, best: real, k: nat, q: Position)
    requires NoneNearer(routes, p, best, |routes|, 0)
    requires k < |routes| && OnRoute(routes[k], q)
    ensures best <= SquaredDistance(p, q)
  {
    hide SquaredDistance, SquaredDistanceToSegment, Between;
    var i: nat, t: real :| OnSegment(routes[k], i, t, q);
    assert best <= ToSegment(routes, p, k, i);
    SegmentDistanceIsLeast(p, routes[k][i - 1], routes[k][i], t);
  }

  lemma ReachedByPoint(routes: seq<Route>, p: Position, best: real, limit: real, k: nat)
    requires Reached(routes, p, best, limit, k)
    ensures exists q :: OnRoute(routes[k], q) && SquaredDistance(p, q) == best
  {
    hide SquaredDistance, SquaredDistanceToSegment, Between, Projection;
    var j: nat :| 1 <= j < |routes[k]| && ToSegment(routes, p, k, j) == best;
    var a, b := routes[k][j - 1], routes[k][j];
    SegmentDistanceIsLeast(p, a, b, 0.0);
    var q := Between(a, b, Projection(p, a, b));
    assert OnSegment(routes[k], j, Projection(p, a, b), q);
  }

  // ---------------------------------------------------------------------------------------------
  // Progress along a route
  // ---------------------------------------------------------------------------------------------

  // The lengths of the segments of a route.
  ghost predicate AreLengths(route: Route, lengths: seq<real>) {
    && |route| == |lengths| + 1
    && forall i :: 0 <= i < |lengths| ==>
         lengths[i] >= 0.0 && lengths[i] * lengths[i] == SquaredDistance(route[i + 1], route[i])
  }

  // The arc length from the start of the route to point n.
  function ArcLength(lengths: seq<real>, n: nat): real
    requires n <= |lengths|
  {
    if n == 0 then 0.0 else ArcLength(lengths, n - 1) + lengths[n - 1]
  }

  lemma {:induction false} ArcLengthGrows(lengths: seq<real>, m: nat, n: nat)
    requires m <= n <= |lengths| && forall i :: 0 <= i < |lengths| ==> lengths[i] >= 0.0
    ensures 0.0 <= ArcLength(lengths, m) <= ArcLength(lengths, n)
    decreases n
  {
    if m < n {
      ArcLengthGrows(lengths, m, n - 1);
    } else if n > 0 {
      ArcLengthGrows(lengths, n - 1, n - 1);
    }
  }

  function Target(lengths: seq<real>, progress: real): real {
    Product(Clamp01(progress), ArcLength(lengths, |lengths|))
  }

  // The point lies on segment i at fraction t, at arc length `at` from the start.
  ghost predicate LiesAt(route: Route, lengths: seq<real>, point: Position, i: nat, t: real, at: real) {
    && i < |lengths| && |route| == |lengths| + 1 && 0.0 <= t <= 1.0
    && point == Between(route[i], route[i + 1], t)
    && ArcLength(lengths, i) + Product(t, lengths[i]) == at
  }

  /** The walk along the route: the point lies on a segment at a fraction between 0 and 1, at exactly the
      clamped progress times the whole length from the start; zero-length segments included. */
  method PointAtProgress(route: Route, lengths: seq<real>, progress: real)
    returns (point: Option<Position>, ghost segment: nat, ghost fraction: real)
    requires |route| >= 1 ==> AreLengths(route, lengths)
    ensures point.None? <==> route == []
    ensures |route| == 1 ==> point == Some(route[0])
    ensures |route| >= 2 ==> LiesAt(route, lengths, point.value, segment, fraction, Target(lengths, progress))
  {
    hide SquaredDistance, Between, Clamp01;
    segment, fraction := 0, 0.0;
    if |route| == 0 {
      return None, 0, 0.0;
    }
    if |route| == 1 {
      return Some(route[0]), 0, 0.0;
    }
    var totalLength := 0.0;
    for i := 0 to |lengths|
      invariant totalLength == ArcLength(lengths, i)
    {
      totalLength := totalLength + lengths[i];
    }
    if totalLength == 0.0 {
      BetweenStart(route[0], route[1]);
      TargetOfNothing(lengths, progress);
      return Some(route[0]), 0, 0.0;
    }
    var targetDistance := Clamp01(progress) * totalLength;
    assert targetDistance == Target(lengths, progress);
    ArcLengthGrows(lengths, 0, |lengths|);
    TargetInRange(progress, totalLength);
    var traversedDistance := 0.0;
    for index := 0 to |lengths|
      invariant traversedDistance == ArcLength(lengths, index)
      invariant index == 0 || traversedDistance < targetDistance
      invariant traversedDistance <= targetDistance <= totalLength
      invariant index == |lengths| ==> targetDistance <= traversedDistance
    {
      var segmentLength := lengths[index];
      if targetDistance <= traversedDistance + segmentLength || index == |lengths| - 1 {
        var segmentProgress :=
          if segmentLength == 0.0 then 0.0 else (targetDistance - traversedDistance) / segmentLength;
        FractionInRange(targetDistance - traversedDistance, segmentLength, segmentProgress);
        point := Some(Between(route[index], route[index + 1], segmentProgress));
        segment, fraction := index, segmentProgress;
        return;
      }
      traversedDistance := traversedDistance + segmentLength;
    }
    assert false;
  }

  lemma BetweenStart(a: Position, b: Position)
    ensures Between(a, b, 0.0) == a && Between(a, b, 1.0) == b
  {
  }

  lemma TargetOfNothing(lengths: seq<real>, progress: real)
    requires ArcLength(lengths, |lengths|) == 0.0
    ensures Target(lengths, progress) == 0.0
  {
  }

  lemma TargetInRange(progress: real, total: real)
    requires total >= 0.0
    ensures 0.0 <= Product(Clamp01(progress), total) <= total
  {
    var c := Clamp01(progress);
    NotNegative(c, total);
    NotNegative(1.0 - c, total);
    assert (1.0 - c) * total == total - c * total;
  }

  lemma FractionInRange(rest: real, length: real, t: real)
    requires 0.0 <= rest <= length
    requires t == if length == 0.0 then 0.0 else rest / length
    ensures 0.0 <= t <= 1.0 && Product(t, length) == rest
  {
    if length != 0.0 {
      assert t * length == rest;
      if t > 1.0 {
        NotNegative(t - 1.0, length);
      }
    }
  }

  /** Progress is monotone in arc length. */
  lemma ProgressIsMonotone(lengths: seq<real>, p: real, q: real)
    requires p <= q && forall i :: 0 <= i < |lengths| ==> lengths[i] >= 0.0
    ensures 0.0 <= Target(lengths, p) <= Target(lengths, q) <= ArcLength(lengths, |lengths|)
  {
    ArcLengthGrows(lengths, 0, |lengths|);
    hide ArcLength, Clamp01, Product;
    var total := ArcLength(lengths, |lengths|);
    TargetInRange(p, total);
    TargetInRange(q, total);
    ClampGrows(p, q);
    Scaled(Clamp01(p), Clamp01(q), total);
  }

  lemma ClampGrows(p: real, q: real)
    requires p <= q
    ensures Clamp01(p) <= Clamp01(q)
  {
  }

  lemma Scaled(c: real, d: real, total: real)
    requires c <= d && total >= 0.0
    ensures Product(c, total) <= Product(d, total)
  {
    NotNegative(d - c, total);
    assert (d - c) * total == d * total - c * total;
  }

  /** The arc length fixes the point: wherever the segments are cut, and whatever zero-length segments lie
      between, two points at the same arc length are the same point. */
  lemma ArcLengthFixesPoint(route: Route, lengths: seq<real>, at: real,
                            p: Position, i: nat, t: real, q: Position, j: nat, u: real)
    requires AreLengths(route, lengths) && i <= j
    requires LiesAt(route, lengths, p, i, t, at) && LiesAt(route, lengths, q, j, u, at)
    ensures p == q
  {
    hide SquaredDistance, Between, ArcLength, Product;
    if i == j {
      SameFraction(lengths[i], t, u);
      if t != u {
        NoLength(route, lengths, i);
        BetweenSame(route[i], t);
        BetweenSame(route[i], u);
      }
    } else {
      ArcLengthStep(lengths, i);
      ArcLengthGrows(lengths, i + 1, j);
      FractionOf(lengths[i], t);
      FractionOf(lengths[j], u);
      AtEnd(route, lengths, i, t);
      AtStart(route, lengths, j, u);
      NothingBetween(route, lengths, i + 1, j);
    }
  }

  lemma ArcLengthStep(lengths: seq<real>, i: nat)
    requires i < |lengths|
    ensures ArcLength(lengths, i + 1) == ArcLength(lengths, i) + lengths[i]
  {
  }

  lemma SameFraction(length: real, t: real, u: real)
    requires Product(t, length) == Product(u, length)
    ensures t == u || length == 0.0
  {
    assert (t - u) * length == 0.0;
    if t != u {
      var w := length / (t - u);
      assert (t - u) * (t - u) * w == 0.0;
    }
  }

  lemma FractionOf(length: real, t: real)
    requires length >= 0.0 && 0.0 <= t <= 1.0
    ensures 0.0 <= Product(t, length) <= length
  {
    NotNegative(t, length);
    NotNegative(1.0 - t, length);
    assert (1.0 - t) * length == length - t * length;
  }

  lemma NoLength(route: Route, lengths: seq<real>, i: nat)
    requires AreLengths(route, lengths) && i < |lengths| && lengths[i] == 0.0
    ensures route[i] == route[i + 1]
  {
    hide SquaredDistance;
    assert lengths[i] * lengths[i] == SquaredDistance(route[i + 1], route[i]);
    ZeroOnlyAtOnce(route[i], route[i + 1]);
  }

  // A fraction that covers the whole length of a segment is at its end, and one that covers none at its start.
  lemma AtEnd(route: Route, lengths: seq<real>, i: nat, t: real)
    requires AreLengths(route, lengths) && i < |lengths| && Product(t, lengths[i]) == lengths[i]
    ensures Between(route[i], route[i + 1], t) == route[i + 1]
  {
    hide SquaredDistance, Between;
    SameFraction(lengths[i], t, 1.0);
    if t == 1.0 {
      BetweenStart(route[i], route[i + 1]);
    } else {
      NoLength(route, lengths, i);
      BetweenSame(route[i], t);
    }
  }

  lemma AtStart(route: Route, lengths: seq<real>, i: nat, t: real)
    requires AreLengths(route, lengths) && i < |lengths| && Product(t, lengths[i]) == 0.0
    ensures Between(route[i], route[i + 1], t) == route[i]
  {
    hide SquaredDistance, Between;
    SameFraction(lengths[i], t, 0.0);
    if t == 0.0 {
      BetweenStart(route[i], route[i + 1]);
    } else {
      NoLength(route, lengths, i);
      BetweenSame(route[i], t);
    }
  }

  lemma {:induction false} NothingBetween(route: Route, lengths: seq<real>, m: nat, n: nat)
    requires AreLengths(route, lengths) && m <= n <= |lengths|
    requires ArcLength(lengths, m) == ArcLength(lengths, n)
    ensures route[m] == route[n]
    decreases n
  {
    hide SquaredDistance;
    if m < n {
      ArcLengthGrows(lengths, m, n - 1);
      NoLength(route, lengths, n - 1);
      NothingBetween(route, lengths, m, n - 1);
    }
  }

  /** So no progress is the first point of the route and full progress the last. */
  lemma EndsOfTheRoute(route: Route, lengths: seq<real>, progress: real, p: Position, i: nat, t: real)
    requires |route| >= 2 && AreLengths(route, lengths)
    requires LiesAt(route, lengths, p, i, t, Target(lengths, progress))
    ensures progress <= 0.0 ==> p == route[0]
    ensures progress >= 1.0 ==> p == route[|route| - 1]
  {
    hide SquaredDistance, Between, ArcLength, Product;
    var n := |lengths|;
    ArcLengthStep(lengths, n - 1);
    ArcLengthAtStart(lengths);
    ArcLengthGrows(lengths, 0, n);
    BetweenStart(route[0], route[1]);
    BetweenStart(route[n - 1], route[n]);
    PartEnds(lengths[0]);
    PartEnds(lengths[n - 1]);
    PartEnds(ArcLength(lengths, n));
    if progress <= 0.0 {
      ArcLengthFixesPoint(route, lengths, 0.0, route[0], 0, 0.0, p, i, t);
    }
    if progress >= 1.0 {
      ArcLengthFixesPoint(route, lengths, ArcLength(lengths, n), p, i, t, route[n], n - 1, 1.0);
    }
  }

  lemma PartEnds(whole: real)
    ensures Product(0.0, whole) == 0.0 && Product(1.0, whole) == whole
  {
  }

  lemma ArcLengthAtStart(lengths: seq<real>)
    ensures ArcLength(lengths, 0) == 0.0
  {
  }
}
