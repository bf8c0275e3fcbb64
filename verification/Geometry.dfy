/** Segment intersection by orientations, over exact reals. */
module Geometry {
  import opened Common

  datatype Pt = Pt(x: real, y: real)

  /** (a - o) x (b - o): its sign is the side of the line o -> a that b is on. */
  function Cross(o: Pt, a: Pt, b: Pt): real {
    (a.x - o.x) * (b.y - o.y) - (a.y - o.y) * (b.x - o.x)
  }

  /** 0 collinear, 1 clockwise, 2 counter-clockwise. */
  function Orientation(p: Pt, q: Pt, r: Pt): int {
    var v := (q.y - p.y) * (r.x - q.x) - (q.x - p.x) * (r.y - q.y);
    if v == 0.0 then 0 else if v > 0.0 then 1 else 2
  }

  /** q is in the bounding box of p and r. */
  predicate OnSegment(p: Pt, q: Pt, r: Pt) {
    q.x <= MaxReal(p.x, r.x) && q.x >= MinReal(p.x, r.x) && q.y <= MaxReal(p.y, r.y) && q.y >= MinReal(p.y, r.y)
  }

  predicate SegmentsIntersect(a: Pt, b: Pt, c: Pt, d: Pt) {
    var o1, o2, o3, o4 := Orientation(a, b, c), Orientation(a, b, d), Orientation(c, d, a), Orientation(c, d, b);
    if o1 != o2 && o3 != o4 then true
    else if o1 == 0 && OnSegment(a, c, b) then true
    else if o2 == 0 && OnSegment(a, d, b) then true
    else if o3 == 0 && OnSegment(c, a, d) then true
    else if o4 == 0 && OnSegment(c, b, d) then true
    else false
  }

  // ----- points of a segment -----

  /** The point at t on the way from a to b. */
  function At(a: Pt, b: Pt, t: real): Pt { Pt(a.x + t * (b.x - a.x), a.y + t * (b.y - a.y)) }

  /** p is on the closed segment from a to b. */
  ghost predicate On(p: Pt, a: Pt, b: Pt) {
    exists t: real :: 0.0 <= t <= 1.0 && p == At(a, b, t)
  }

  /** The two closed segments have a point in common. */
  ghost predicate Meet(a: Pt, b: Pt, c: Pt, d: Pt) {
    exists p: Pt :: On(p, a, b) && On(p, c, d)
  }

  /** Orientation is the sign of the cross product, turned round. */
  lemma OrientationIsSign(p: Pt, q: Pt, r: Pt)
    ensures Orientation(p, q, r) == if Cross(p, q, r) == 0.0 then 0 else if Cross(p, q, r) < 0.0 then 1 else 2
  {
    assert (q.y - p.y) * (r.x - q.x) - (q.x - p.x) * (r.y - q.y) == -Cross(p, q, r);
  }

  /** Along a segment the cross product moves linearly. */
  lemma CrossAt(a: Pt, b: Pt, c: Pt, d: Pt, s: real)
    ensures Cross(a, b, At(c, d, s)) == (1.0 - s) * Cross(a, b, c) + s * Cross(a, b, d)
  {}

  lemma CrossOnLine(a: Pt, b: Pt, t: real)
    ensures Cross(a, b, At(a, b, t)) == 0.0
  {}

  /** The two ways to measure how far from parallel the segments are. */
  lemma Determinant(a: Pt, b: Pt, c: Pt, d: Pt)
    ensures Cross(a, b, d) - Cross(a, b, c) == Cross(c, d, a) - Cross(c, d, b)
  {}

  lemma Between(k: real, u: real, v: real)
    requires 0.0 <= k <= 1.0
    ensures MinReal(u, v) <= u + k * (v - u) <= MaxReal(u, v)
  {
    if u <= v {
      var e := Shrunk(k, v - u);
    } else {
      var e := Shrunk(k, u - v);
      Negated(k, u, v);
    }
  }

  lemma Negated(k: real, u: real, v: real)
    ensures k * (v - u) == -(k * (u - v))
  {}

  lemma Shrunk(k: real, w: real) returns (e: real)
    requires 0.0 <= k <= 1.0 && w >= 0.0
    ensures e == k * w && 0.0 <= e <= w
  {
    e := k * w;
    NotNegative(k, w);
    NotNegative(1.0 - k, w);
    assert (1.0 - k) * w == w - k * w;
  }

  lemma Ratio(n: real, m: real)
    requires m != 0.0 && ((0.0 <= n <= m) || (m <= n <= 0.0))
    ensures 0.0 <= n / m <= 1.0 && n / m * m == n
  {
    var t := n / m;
    assert t * m == n;
    if m > 0.0 {
      assert t < 0.0 ==> t * m < 0.0;
      assert t > 1.0 ==> (t - 1.0) * m > 0.0;
    } else {
      assert t < 0.0 ==> t * m > 0.0;
      assert t > 1.0 ==> (t - 1.0) * m < 0.0;
    }
  }

  /** Collinear and in the box is on the segment, and the other way round. */
  lemma OnIffInBox(c: Pt, a: Pt, b: Pt)
    ensures On(c, a, b) <==> Cross(a, b, c) == 0.0 && OnSegment(a, c, b)
  {
    if On(c, a, b) {
      var t: real :| 0.0 <= t <= 1.0 && c == At(a, b, t);
      CrossOnLine(a, b, t);
      Between(t, a.x, b.x);
      Between(t, a.y, b.y);
    }
    if Cross(a, b, c) == 0.0 && OnSegment(a, c, b) { InBoxIsOn(c, a, b); }
  }

  lemma InBoxIsOn(c: Pt, a: Pt, b: Pt)
    requires Cross(a, b, c) == 0.0 && OnSegment(a, c, b)
    ensures On(c, a, b)
  {
    var dx, dy := b.x - a.x, b.y - a.y;
    if a == b {
      AtEnds(a, b);
    } else if dx != 0.0 {
      Ratio(c.x - a.x, dx);
      var t := (c.x - a.x) / dx;
      SameOther(dx, dy, c.x - a.x, c.y - a.y, t);
      assert c == At(a, b, t);
    } else {
      Ratio(c.y - a.y, dy);
      var t := (c.y - a.y) / dy;
      assert c == At(a, b, t);
    }
  }

  /** On a line through the origin one coordinate gives the other. */
  lemma SameOther(dx: real, dy: real, ex: real, ey: real, t: real)
    requires dx != 0.0 && dx * ey - dy * ex == 0.0 && t * dx == ex
    ensures ey == t * dy
  {
    assert dx * ey == dy * (t * dx) == dx * (t * dy);
    assert dx * (ey - t * dy) == 0.0;
  }

  // ----- from true to a common point -----

  /** The general position: the segments cross at t along the first and s along the second. */
  lemma CrossingPoint(a: Pt, b: Pt, c: Pt, d: Pt)
    requires Orientation(a, b, c) != Orientation(a, b, d) && Orientation(c, d, a) != Orientation(c, d, b)
    ensures Meet(a, b, c, d)
  {
    OrientationIsSign(a, b, c); OrientationIsSign(a, b, d); OrientationIsSign(c, d, a); OrientationIsSign(c, d, b);
    Determinant(a, b, c, d);
    var d1, d2, d3, d4 := Cross(a, b, c), Cross(a, b, d), Cross(c, d, a), Cross(c, d, b);
    var det := d2 - d1;
    var t, s := d3 / det, -d1 / det;
    Ratio(d3, det);
    Ratio(-d1, det);
    SamePoint(a, b, c, d, t, s, det);
    assert On(At(a, b, t), a, b) && On(At(c, d, s), c, d);
  }

  lemma SamePoint(a: Pt, b: Pt, c: Pt, d: Pt, t: real, s: real, det: real)
    requires det == Cross(a, b, d) - Cross(a, b, c) && det != 0.0
    requires t * det == Cross(c, d, a) && s * det == -Cross(a, b, c)
    ensures At(a, b, t) == At(c, d, s)
  {
    hide Cross;
    LinesCross(a, b, c, d);
    Cancel(det, t, s, a.x, b.x, c.x, d.x, Cross(c, d, a), Cross(a, b, c));
    Cancel(det, t, s, a.y, b.y, c.y, d.y, Cross(c, d, a), Cross(a, b, c));
    var p, q := At(a, b, t), At(c, d, s);
    assert p.x == q.x && p.y == q.y;
  }

  lemma LinesCross(a: Pt, b: Pt, c: Pt, d: Pt)
    ensures var det := Cross(a, b, d) - Cross(a, b, c);
      det * (a.x - c.x) + Cross(c, d, a) * (b.x - a.x) + Cross(a, b, c) * (d.x - c.x) == 0.0 &&
      det * (a.y - c.y) + Cross(c, d, a) * (b.y - a.y) + Cross(a, b, c) * (d.y - c.y) == 0.0
  {}

  lemma Cancel(det: real, t: real, s: real, a: real, b: real, c: real, d: real, d3: real, d1: real)
    requires det != 0.0 && t * det == d3 && s * det == -d1
    requires det * (a - c) + d3 * (b - a) + d1 * (d - c) == 0.0
    ensures a + t * (b - a) == c + s * (d - c)
  {
    var e := a + t * (b - a) - c - s * (d - c);
    assert det * e == det * (a - c) + (t * det) * (b - a) - (s * det) * (d - c);
    assert det * e == 0.0;
  }

  // ----- from a common point to true -----

  lemma PositiveMix(s: real, u: real, v: real)
    requires 0.0 <= s <= 1.0 && u > 0.0 && v > 0.0
    ensures (1.0 - s) * u + s * v > 0.0
  {
    assert s * v >= 0.0 && (1.0 - s) * u >= 0.0;
    if s < 1.0 { assert (1.0 - s) * u > 0.0; }
  }

  /** Weights between 0 and 1 cannot cancel two numbers of one sign. */
  lemma NotOneSign(s: real, u: real, v: real)
    requires 0.0 <= s <= 1.0 && (1.0 - s) * u + s * v == 0.0
    ensures !(u > 0.0 && v > 0.0) && !(u < 0.0 && v < 0.0)
  {
    if u > 0.0 && v > 0.0 { PositiveMix(s, u, v); }
    if u < 0.0 && v < 0.0 {
      assert (1.0 - s) * -u + s * -v == -((1.0 - s) * u + s * v);
      PositiveMix(s, -u, -v);
    }
  }

  lemma OnLine(a: Pt, b: Pt, c: Pt) returns (u: real)
    requires a != b && Cross(a, b, c) == 0.0
    ensures c == At(a, b, u)
  {
    var dx, dy := b.x - a.x, b.y - a.y;
    if dx != 0.0 {
      u := (c.x - a.x) / dx;
      SameOther(dx, dy, c.x - a.x, c.y - a.y, u);
    } else {
      u := (c.y - a.y) / dy;
      assert dy * (c.x - a.x) == 0.0;
    }
  }

  lemma AtAt(a: Pt, b: Pt, u: real, v: real, s: real)
    ensures At(At(a, b, u), At(a, b, v), s) == At(a, b, u + s * (v - u))
  {
    Mix(a.x, b.x - a.x, u, v, s);
    Mix(a.y, b.y - a.y, u, v, s);
  }

  lemma Mix(a: real, w: real, u: real, v: real, s: real)
    ensures (a + u * w) + s * ((a + v * w) - (a + u * w)) == a + (u + s * (v - u)) * w
  {
    assert (a + v * w) - (a + u * w) == (v - u) * w;
    assert s * ((v - u) * w) == (s * (v - u)) * w;
  }

  lemma AtInjective(a: Pt, b: Pt, t: real, u: real)
    requires a != b && At(a, b, t) == At(a, b, u)
    ensures t == u
  {
    if b.x != a.x { assert (t - u) * (b.x - a.x) == 0.0; } else { assert (t - u) * (b.y - a.y) == 0.0; }
  }

  lemma AtEnds(a: Pt, b: Pt)
    ensures At(a, b, 0.0) == a && At(a, b, 1.0) == b
  {}

  lemma AtSame(a: Pt, t: real)
    ensures At(a, a, t) == a
  {}

  /** Numbers with something of 0..1 between them, neither in 0..1, have 0 between them. */
  lemma ZeroBetween(t: real, u: real, v: real) returns (k: real)
    requires 0.0 <= t <= 1.0 && MinReal(u, v) <= t <= MaxReal(u, v)
    requires !(0.0 <= u <= 1.0) && !(0.0 <= v <= 1.0)
    ensures 0.0 <= k <= 1.0 && u + k * (v - u) == 0.0
  {
    k := -u / (v - u);
    Ratio(-u, v - u);
  }

  /** On one line, segments that meet have an end of one on the other. */
  lemma CollinearMeet(a: Pt, b: Pt, c: Pt, d: Pt)
    requires Cross(a, b, c) == Cross(a, b, d) == 0.0 && Meet(a, b, c, d)
    ensures On(c, a, b) || On(d, a, b) || On(a, c, d)
  {
    hide Cross, At;
    AtEnds(a, b);
    var p: Pt :| On(p, a, b) && On(p, c, d);
    var t: real :| 0.0 <= t <= 1.0 && p == At(a, b, t);
    var s: real :| 0.0 <= s <= 1.0 && p == At(c, d, s);
    if a == b {
      AtSame(a, t);
    } else {
      var u := OnLine(a, b, c);
      var v := OnLine(a, b, d);
      AtAt(a, b, u, v, s);
      AtInjective(a, b, t, u + s * (v - u));
      Between(s, u, v);
      if 0.0 <= u <= 1.0 || 0.0 <= v <= 1.0 {
      } else {
        var k := ZeroBetween(t, u, v);
        AtAt(a, b, u, v, k);
        AtEnds(a, b);
        assert On(a, c, d);
      }
    }
  }

  /** When the segments meet and both ends of the second are on one side of the first, they are on its line. */
  lemma MeetingSides(a: Pt, b: Pt, c: Pt, d: Pt)
    requires Meet(a, b, c, d)
    ensures Orientation(a, b, c) == Orientation(a, b, d) ==> Cross(a, b, c) == Cross(a, b, d) == 0.0
  {
    var p: Pt :| On(p, a, b) && On(p, c, d);
    var t: real :| 0.0 <= t <= 1.0 && p == At(a, b, t);
    var s: real :| 0.0 <= s <= 1.0 && p == At(c, d, s);
    hide Cross, Orientation, At;
    CrossOnLine(a, b, t);
    CrossAt(a, b, c, d, s);
    NotOneSign(s, Cross(a, b, c), Cross(a, b, d));
    OrientationIsSign(a, b, c);
    OrientationIsSign(a, b, d);
  }

  lemma MeetSymmetric(a: Pt, b: Pt, c: Pt, d: Pt)
    requires Meet(a, b, c, d)
    ensures Meet(c, d, a, b)
  {
    var p: Pt :| On(p, a, b) && On(p, c, d);
    assert On(p, c, d) && On(p, a, b);
  }

  /** The orientation test is exact: it holds if and only if the closed segments have a point in common, with collinear
      overlap, touching ends and segments of one point included. */
  lemma IntersectIffMeet(a: Pt, b: Pt, c: Pt, d: Pt)
    ensures SegmentsIntersect(a, b, c, d) <==> Meet(a, b, c, d)
  {
    hide Cross, Orientation, OnSegment, On, At;
    OrientationIsSign(a, b, c); OrientationIsSign(a, b, d); OrientationIsSign(c, d, a); OrientationIsSign(c, d, b);
    OnIffInBox(c, a, b); OnIffInBox(d, a, b); OnIffInBox(a, c, d); OnIffInBox(b, c, d);
    EndsAreOn(a, b);
    EndsAreOn(c, d);
    if SegmentsIntersect(a, b, c, d) {
      if Orientation(a, b, c) != Orientation(a, b, d) && Orientation(c, d, a) != Orientation(c, d, b) {
        CrossingPoint(a, b, c, d);
      }
    }
    if Meet(a, b, c, d) {
      MeetSymmetric(a, b, c, d);
      MeetingSides(a, b, c, d);
      MeetingSides(c, d, a, b);
      if Orientation(a, b, c) == Orientation(a, b, d) {
        CollinearMeet(a, b, c, d);
      } else if Orientation(c, d, a) == Orientation(c, d, b) {
        CollinearMeet(c, d, a, b);
      }
    }
  }

  lemma EndsAreOn(a: Pt, b: Pt)
    ensures On(a, a, b) && On(b, a, b)
  {
    AtEnds(a, b);
  }
}
