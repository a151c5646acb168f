/** Zone geometry: the ray-casting point-in-polygon test. */
module Geometry {

  datatype Point = Point(x: real, y: real)

  /** A zone: an ordered list of vertices, the last joined back to the first. */
  type Polygon = seq<Point>

  /** The denominator of the crossing abscissa: the height difference of the edge, or 1e-6 when
      that difference is zero (zero is falsy in JavaScript). */
  function Denominator(yi: real, yj: real): real {
    if yj - yi != 0.0 then yj - yi else 0.000001
  }

  /** The crossing test of the edge from `pj` to `pi` against the ray going right from (x, y). */
  predicate Crosses(x: real, y: real, pi: Point, pj: Point) {
    (pi.y > y) != (pj.y > y) && x < (pj.x - pi.x) * (y - pi.y) / Denominator(pi.y, pj.y) + pi.x
  }

  /** The trailing index `j` paired with `i`: the previous vertex, cyclically. */
  function Prev(i: nat, n: nat): nat
    requires i < n
  {
    if i == 0 then n - 1 else i - 1
  }

  /** The pair (poly[i], poly[j]) the loop looks at in its i-th iteration. */
  datatype Edge = Edge(head: Point, tail: Point)

  function Edges(poly: Polygon): (es: seq<Edge>)
    ensures |es| == |poly|
  {
    seq(|poly|, i requires 0 <= i < |poly| => Edge(poly[i], poly[Prev(i, |poly|)]))
  }

  /** How many of the edges pass the crossing test. */
  function CrossingCount(x: real, y: real, es: seq<Edge>): nat
  {
    if es == [] then 0
    else
      var e := es[|es| - 1];
      CrossingCount(x, y, es[..|es| - 1]) + (if Crosses(x, y, e.head, e.tail) then 1 else 0)
  }

  /** The point is inside when an odd number of edges cross the ray. */
  predicate Inside(x: real, y: real, poly: Polygon) {
    CrossingCount(x, y, Edges(poly)) % 2 == 1
  }

  /** `pointInPolygon`: toggles `inside` once per crossing edge. */
  method PointInPolygon(x: real, y: real, poly: Polygon) returns (inside: bool)
    ensures inside == Inside(x, y, poly)
  {
    inside := false;
    var n := |poly|;
    var i, j := 0, n - 1;
    while i < n
      invariant 0 <= i <= n
      invariant j == if i == 0 then n - 1 else i - 1
      invariant inside == (CrossingCount(x, y, Edges(poly)[..i]) % 2 == 1)
    {
      var xi, yi := poly[i].x, poly[i].y;
      var xj, yj := poly[j].x, poly[j].y;
      var intersect := (yi > y) != (yj > y) && x < (xj - xi) * (y - yi) / Denominator(yi, yj) + xi;
      assert j == Prev(i, n);
      CrossesUnfolded(x, y, xi, yi, xj, yj);
      assert poly[i] == Point(xi, yi) && poly[j] == Point(xj, yj);
      CountStep(x, y, poly, i);
      if intersect {
        inside := !inside;
      }
      j, i := i, i + 1;
    }
    assert Edges(poly)[..n] == Edges(poly);
  }

  lemma CrossesUnfolded(x: real, y: real, xi: real, yi: real, xj: real, yj: real)
    ensures Crosses(x, y, Point(xi, yi), Point(xj, yj)) ==
      ((yi > y) != (yj > y) && x < (xj - xi) * (y - yi) / Denominator(yi, yj) + xi)
  {
  }

  lemma CountStep(x: real, y: real, poly: Polygon, i: nat)
    requires i < |poly|
    ensures CrossingCount(x, y, Edges(poly)[..i + 1]) == CrossingCount(x, y, Edges(poly)[..i]) +
      (if Crosses(x, y, poly[i], poly[Prev(i, |poly|)]) then 1 else 0)
  {
    assert Edges(poly)[..i + 1][..i] == Edges(poly)[..i];
  }

  /** The abscissa where the line through `pi` and `pj` meets the horizontal line at height y:
      the point (cx, y) lies on that line. */
  function CrossingX(pi: Point, pj: Point, y: real): (cx: real)
    requires pi.y != pj.y
    ensures (cx - pi.x) * (pj.y - pi.y) == (pj.x - pi.x) * (y - pi.y)
  {
    (pj.x - pi.x) * (y - pi.y) / (pj.y - pi.y) + pi.x
  }

  /** The 1e-6 fallback is never used: the division only happens for an edge that straddles the
      ray's height, whose end points have different heights, so the test is exact geometry. */
  lemma ExactCrossing(x: real, y: real, pi: Point, pj: Point)
    ensures (pi.y > y) != (pj.y > y) ==> Denominator(pi.y, pj.y) == pj.y - pi.y
    ensures Crosses(x, y, pi, pj) <==> (pi.y > y) != (pj.y > y) && x < CrossingX(pi, pj, y)
  {
  }

  /** For an edge straddling the ray's height, the crossing point lies between the edge's end
      points horizontally. */
  lemma CrossingWithinEdge(pi: Point, pj: Point, y: real)
    requires (pi.y > y) != (pj.y > y)
    ensures pi.x <= pj.x ==> pi.x <= CrossingX(pi, pj, y) <= pj.x
    ensures pj.x <= pi.x ==> pj.x <= CrossingX(pi, pj, y) <= pi.x
  {
    var a, b := y - pi.y, pj.y - pi.y;
    var t := a / b;
    assert t * b == a;
    if pi.y > y {
      assert b < 0.0 && b <= a < 0.0;
    } else {
      assert 0.0 < b && 0.0 <= a < b;
    }
    assert 0.0 <= t <= 1.0;
    assert CrossingX(pi, pj, y) == pi.x + (pj.x - pi.x) * t;
  }

  lemma {:induction false} CountAppend(x: real, y: real, a: seq<Edge>, b: seq<Edge>)
    ensures CrossingCount(x, y, a + b) == CrossingCount(x, y, a) + CrossingCount(x, y, b)
    decreases |b|
  {
    if b == [] {
      assert a + b == a;
    } else {
      var b' := b[..|b| - 1];
      assert (a + b)[..|a + b| - 1] == a + b';
      CountAppend(x, y, a, b');
    }
  }

  lemma {:induction false} CountNone(x: real, y: real, es: seq<Edge>)
    requires forall k :: 0 <= k < |es| ==> !Crosses(x, y, es[k].head, es[k].tail)
    ensures CrossingCount(x, y, es) == 0
    decreases |es|
  {
    if es != [] {
      CountNone(x, y, es[..|es| - 1]);
    }
  }

  /** The polygon with its first k vertices moved to the end. */
  function RotateBy(poly: Polygon, k: nat): Polygon
    requires k <= |poly|
  {
    poly[k..] + poly[..k]
  }

  lemma EdgesRotate(poly: Polygon, k: nat)
    requires k < |poly|
    ensures Edges(RotateBy(poly, k)) == Edges(poly)[k..] + Edges(poly)[..k]
  {
    var n := |poly|;
    var p' := RotateBy(poly, k);
    var lhs := Edges(p');
    var rhs := Edges(poly)[k..] + Edges(poly)[..k];
    assert |lhs| == |rhs| == n;
    forall m | 0 <= m < n
      ensures lhs[m] == rhs[m]
    {
      var src := if m + k < n then m + k else m + k - n;
      assert p'[m] == poly[src];
      assert rhs[m] == Edges(poly)[src];
      if m == 0 {
        assert p'[n - 1] == poly[Prev(src, n)];
      } else {
        assert p'[m - 1] == poly[Prev(src, n)];
      }
    }
  }

  /** Containment does not depend on which vertex the zone's vertex list starts with. */
  lemma InsideRotationInvariant(x: real, y: real, poly: Polygon, k: nat)
    requires k <= |poly|
    ensures Inside(x, y, RotateBy(poly, k)) == Inside(x, y, poly)
  {
    var es := Edges(poly);
    if k == |poly| {
      assert RotateBy(poly, k) == poly;
    } else {
      EdgesRotate(poly, k);
      CountAppend(x, y, es[k..], es[..k]);
      CountAppend(x, y, es[..k], es[k..]);
      assert es[..k] + es[k..] == es;
    }
  }

  /** A point at or above the highest vertex, or below the lowest one, is outside: no edge
      straddles its height. */
  lemma OutsideVerticalSpan(x: real, y: real, poly: Polygon)
    requires (forall k :: 0 <= k < |poly| ==> poly[k].y <= y) || (forall k :: 0 <= k < |poly| ==> poly[k].y > y)
    ensures !Inside(x, y, poly)
  {
    var es := Edges(poly);
    forall k | 0 <= k < |es|
      ensures !Crosses(x, y, es[k].head, es[k].tail)
    {
      assert es[k].head == poly[k] && es[k].tail == poly[Prev(k, |poly|)];
    }
    CountNone(x, y, es);
  }

  /** A point at or right of every vertex is outside: each crossing lies on an edge, so no
      crossing is strictly right of the point. */
  lemma OutsideRightOfVertices(x: real, y: real, poly: Polygon)
    requires forall k :: 0 <= k < |poly| ==> poly[k].x <= x
    ensures !Inside(x, y, poly)
  {
    var es := Edges(poly);
    forall k | 0 <= k < |es|
      ensures !Crosses(x, y, es[k].head, es[k].tail)
    {
      var pi, pj := poly[k], poly[Prev(k, |poly|)];
      assert es[k].head == pi && es[k].tail == pj;
      ExactCrossing(x, y, pi, pj);
      if (pi.y > y) != (pj.y > y) {
        CrossingWithinEdge(pi, pj, y);
      }
    }
    CountNone(x, y, es);
  }

  /** A zone with no vertices contains nothing. */
  lemma EmptyPolygonContainsNothing(x: real, y: real)
    ensures !Inside(x, y, [])
  {
  }
}
