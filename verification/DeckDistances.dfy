/**
 The deck routes in distances and coordinates: what the squares and clamps of the search and the walk come to.
*/
module DeckDistances {
  import opened DeckRoutes
  import opened Options

  // The distance between two positions.
  ghost predicate IsDistance(p: Position, q: Position, d: real) {
    && d >= 0.0
    && d * d == (p.fwd - q.fwd) * (p.fwd - q.fwd) + (p.right - q.right) * (p.right - q.right)
  }

  // A position at fraction t of the segment that ends at point i of the route.
  ghost predicate IsOn(route: Route, i: nat, t: real, q: Position) {
    && 1 <= i < |route| && 0.0 <= t <= 1.0
    && q.fwd == route[i - 1].fwd + t * (route[i].fwd - route[i - 1].fwd)
    && q.right == route[i - 1].right + t * (route[i].right - route[i - 1].right)
  }

  lemma IsDistanceIs(p: Position, q: Position, d: real)
    ensures IsDistance(p, q, d) <==> d >= 0.0 && d * d == SquaredDistance(p, q)
  {
  }

  lemma IsOnIs(route: Route, i: nat, t: real, q: Position)
    ensures IsOn(route, i, t, q) <==> OnSegment(route, i, t, q)
  {
  }

  // Comparing squares is comparing distances.
  lemma LimitIs(limit: real, d: real)
    requires d >= 0.0
    ensures d * d < SquaredLimit(limit) <==> d < limit
    ensures limit > 0.0 ==> SquaredLimit(limit) == limit * limit
  {
    if d < limit {
      SmallerSquare(d, limit);
    } else if limit > 0.0 {
      NotSmaller(limit, d);
    } else {
      SquareNotNegative(d);
    }
  }

  lemma SmallerSquare(a: real, b: real)
    requires 0.0 <= a < b
    ensures a * a < b * b
  {
    NotNegative(a, b - a);
    Positive(b - a, b - a);
    assert b * b - a * a == (b - a) * (b - a) + 2.0 * (a * (b - a));
  }

  lemma NotSmaller(a: real, b: real)
    requires 0.0 <= a <= b
    ensures a * a <= b * b
  {
    if a < b {
      SmallerSquare(a, b);
    }
  }

  /** Without a nearest route every position of every route is at least the limit away. */
  lemma NothingWithin(routes: seq<Route>, p: Position, limit: real, k: nat, i: nat, t: real, q: Position, d: real)
    requires NoneNearer(routes, p, SquaredLimit(limit), |routes|, 0)
    requires k < |routes| && IsOn(routes[k], i, t, q) && IsDistance(p, q, d)
    ensures d >= limit
  {
    hide NoneNearer, SquaredLimit, OnSegment, IsOn, IsDistance, SquaredDistance;
    IsOnIs(routes[k], i, t, q);
    IsDistanceIs(p, q, d);
    NearestOfAllPoints(routes, p, SquaredLimit(limit), k, q);
    LimitIs(limit, d);
  }

  /** With one, some position of that route is less than the limit away, and no position of any route is
      nearer. */
  lemma NearestWithin(routes: seq<Route>, p: Position, best: real, limit: real, nearest: nat, d: real)
    requires Reached(routes, p, best, limit, nearest) && NoneNearer(routes, p, best, |routes|, 0)
    requires d >= 0.0 && d * d == best
    ensures d < limit
    ensures exists i: nat, t: real, q :: IsOn(routes[nearest], i, t, q) && IsDistance(p, q, d)
    ensures forall k: nat, i: nat, t: real, q, other ::
              k < |routes| && IsOn(routes[k], i, t, q) && IsDistance(p, q, other) ==> d <= other
  {
    hide NoneNearer, SquaredLimit, OnSegment, IsOn, IsDistance, SquaredDistance;
    LimitIs(limit, d);
    ReachedByPoint(routes, p, best, limit, nearest);
    var q :| OnRoute(routes[nearest], q) && SquaredDistance(p, q) == best;
    var i: nat, t: real :| OnSegment(routes[nearest], i, t, q);
    IsOnIs(routes[nearest], i, t, q);
    IsDistanceIs(p, q, d);
    forall k: nat, i: nat, t: real, q, other
      | k < |routes| && IsOn(routes[k], i, t, q) && IsDistance(p, q, other)
      ensures d <= other
    {
      IsOnIs(routes[k], i, t, q);
      IsDistanceIs(p, q, other);
      NearestOfAllPoints(routes, p, best, k, q);
      if other < d {
        SmallerSquare(other, d);
      }
    }
  }

  /** The walk goes that part of the way that the progress says, from none at 0 to all at 1, and no further. */
  lemma TargetIs(lengths: seq<real>, progress: real)
    ensures progress <= 0.0 ==> Target(lengths, progress) == 0.0
    ensures progress >= 1.0 ==> Target(lengths, progress) == Total(lengths)
    ensures 0.0 <= progress <= 1.0 ==> Target(lengths, progress) == progress * Total(lengths)
  {
    hide ArcLength, Total;
    TotalIs(lengths);
  }

  // The length of the whole route.
  function Total(lengths: seq<real>): real {
    if lengths == [] then 0.0 else lengths[0] + Total(lengths[1..])
  }

  lemma TotalIs(lengths: seq<real>)
    ensures ArcLength(lengths, |lengths|) == Total(lengths)
  {
    assert lengths[0..] == lengths;
    PartIs(lengths, 0, |lengths|);
    assert ArcLength(lengths, 0) == 0.0;
  }

  lemma {:induction false} PartIs(lengths: seq<real>, m: nat, n: nat)
    requires m <= n == |lengths|
    ensures ArcLength(lengths, n) == ArcLength(lengths, m) + Total(lengths[m..])
    decreases n - m
  {
    if m < n {
      PartIs(lengths, m + 1, n);
      assert lengths[m..][1..] == lengths[m + 1..];
    }
  }
}
