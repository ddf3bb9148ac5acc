/*
 * Distance tests of the engine, all stated on squared distances: a test
 * `Math.hypot(dx, dy) < r` or `Math.sqrt(d) < r` of the source is
 * `dx * dx + dy * dy < r * r` here (both sides are non-negative).
 *
 * Products of reals are kept behind `Sq` so that the solver reasons about
 * them as terms; the sign facts about `Sq` are proved once, below.
 */
module Geometry {
  import opened Config

  function Sq(u: real): real { u * u }

  lemma SqNonNegative(u: real)
    ensures Sq(u) >= 0.0
  {
  }

  lemma SqPositive(u: real)
    requires u != 0.0
    ensures Sq(u) > 0.0
  {
    if u > 0.0 {
      calc { Sq(u); == u * u; > 0.0; }
    } else {
      calc { Sq(u); == u * u; > 0.0; }
    }
  }

  /** Squared Euclidean distance, `Math.pow(a.x - b.x, 2) + Math.pow(a.y - b.y, 2)`. */
  function DistSq(a: Point, b: Point): real
  {
    Sq(a.x - b.x) + Sq(a.y - b.y)
  }

  /** A squared distance is never negative, and it is zero exactly for equal points. */
  lemma DistSqPositive(a: Point, b: Point)
    ensures DistSq(a, b) >= 0.0
    ensures a != b <==> DistSq(a, b) > 0.0
  {
    SqNonNegative(a.x - b.x);
    SqNonNegative(a.y - b.y);
    if a.x != b.x {
      SqPositive(a.x - b.x);
    } else if a.y != b.y {
      SqPositive(a.y - b.y);
    }
  }

  /** The distance test is symmetric in its two points. */
  lemma DistSqSymmetric(a: Point, b: Point)
    ensures DistSq(a, b) == DistSq(b, a)
  {
    assert Sq(a.x - b.x) == Sq(b.x - a.x);
    assert Sq(a.y - b.y) == Sq(b.y - a.y);
  }

  /** `p` lies strictly within distance sqrt(rSq) of `q`. */
  predicate Within(p: Point, q: Point, rSq: real)
  {
    DistSq(p, q) < rSq
  }

  /**
   * With `d` the distance itself (what `Math.hypot` returns), the squared
   * test decides the source's `d < r`.
   */
  lemma WithinIsDistance(p: Point, q: Point, d: real, r: real)
    requires 0.0 <= d && 0.0 <= r && Sq(d) == DistSq(p, q)
    ensures Within(p, q, Sq(r)) <==> d < r
  {
    if d < r {
      calc {
        DistSq(p, q);
      ==
        d * d;
      <= { assert d * (r - d) >= 0.0; }
        d * r;
      < { assert (r - d) * r > 0.0; }
        r * r;
      ==
        Sq(r);
      }
    } else {
      calc {
        DistSq(p, q);
      ==
        d * d;
      >= { assert d * (d - r) >= 0.0; }
        r * d;
      >= { assert r * (d - r) >= 0.0; }
        r * r;
      ==
        Sq(r);
      }
    }
  }


  function Min(a: real, b: real): real { if a <= b then a else b }

  function Max(a: real, b: real): real { if a >= b then a else b }

  /** `Math.max(0, Math.min(1, v))`. */
  function Clamp01(v: real): (r: real)
    ensures 0.0 <= r <= 1.0
    ensures 0.0 <= v <= 1.0 ==> r == v
    ensures v < 0.0 ==> r == 0.0
    ensures v > 1.0 ==> r == 1.0
  {
    Max(0.0, Min(1.0, v))
  }

  /** The point a + t (b - a) of the line through a and b. */
  function Lerp(a: Point, b: Point, t: real): Point
  {
    Point(a.x + t * (b.x - a.x), a.y + t * (b.y - a.y))
  }

  /** The dot product of p - a with b - a. */
  function Dot(p: Point, a: Point, b: Point): real
  {
    (p.x - a.x) * (b.x - a.x) + (p.y - a.y) * (b.y - a.y)
  }

  /**
   * The parameter of the point of segment [a, b] closest to p: the
   * projection onto the line, clamped to the segment.
   */
  function SegmentParam(p: Point, a: Point, b: Point): (t: real)
    requires DistSq(a, b) != 0.0
    ensures 0.0 <= t <= 1.0
  {
    Clamp01(Dot(p, a, b) / DistSq(a, b))
  }

  /** 35 logical pixels, squared: how close to the road a tower may not be. */
  const RoadClearanceSq: real := 1225.0

  /**
   * The point is less than 35 away from segment [a, b]. For a segment of
   * length zero the source computes 0 / 0, and every comparison with the
   * resulting NaN is false: such a segment is never near anything.
   */
  predicate NearSegment(p: Point, a: Point, b: Point)
  {
    DistSq(a, b) != 0.0 && Within(p, Lerp(a, b, SegmentParam(p, a, b)), RoadClearanceSq)
  }

  /**
   * `pathPoints.some(...)` from index `i` on: some segment ending at a
   * waypoint of index j >= i passes closer than 35 to the point.
   */
  function OnRoadFrom(path: seq<Point>, p: Point, i: nat): (r: bool)
    requires 1 <= i
    decreases |path| - i
    ensures r <==> exists j :: i <= j < |path| && NearSegment(p, path[j - 1], path[j])
  {
    i < |path| && (NearSegment(p, path[i - 1], path[i]) || OnRoadFrom(path, p, i + 1))
  }

  /** The on-road test of tower placement. */
  predicate OnRoad(path: seq<Point>, p: Point)
  {
    OnRoadFrom(path, p, 1)
  }

  lemma DivCancel(n: real, d: real, s: real)
    requires d != 0.0 && n == s * d
    ensures n / d == s
  {
  }

  lemma LerpDot(a: Point, b: Point, s: real)
    ensures Dot(Lerp(a, b, s), a, b) == s * DistSq(a, b)
  {
    var dx, dy := b.x - a.x, b.y - a.y;
    calc {
      Dot(Lerp(a, b, s), a, b);
      == (s * dx) * dx + (s * dy) * dy;
      == s * (dx * dx + dy * dy);
      == { assert Sq(a.x - b.x) == dx * dx; assert Sq(a.y - b.y) == dy * dy; }
         s * DistSq(a, b);
    }
  }

  /** A point lying on a segment of positive length projects onto itself. */
  lemma PointOnSegmentProjects(a: Point, b: Point, s: real)
    requires a != b && 0.0 <= s <= 1.0
    ensures DistSq(a, b) != 0.0
    ensures SegmentParam(Lerp(a, b, s), a, b) == s
    ensures NearSegment(Lerp(a, b, s), a, b)
  {
    DistSqPositive(a, b);
    LerpDot(a, b, s);
    DivCancel(Dot(Lerp(a, b, s), a, b), DistSq(a, b), s);
    var p := Lerp(a, b, s);
    assert DistSq(p, p) == 0.0;
  }

  /**
   * Every point of every segment of a well-formed path is on the road: no
   * tower can be placed where the road runs, whatever the player's gold.
   */
  lemma PointOnPathIsOnRoad(path: seq<Point>, j: nat, s: real)
    requires WellFormedPath(path) && 1 <= j < |path| && 0.0 <= s <= 1.0
    ensures OnRoad(path, Lerp(path[j - 1], path[j], s))
  {
    PointOnSegmentProjects(path[j - 1], path[j], s);
  }

  /** A path without segments (fewer than two waypoints) has no road at all. */
  lemma NoSegmentsNoRoad(path: seq<Point>, p: Point)
    requires |path| < 2
    ensures !OnRoad(path, p)
  {
  }
}
