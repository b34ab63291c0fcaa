/** Positions and angles between two snapshots of a demo. */
module Interpolation {
  import opened DemoMessages

  function Mix(a: real, b: real, t: real): real {
    a + t * (b - a)
  }

  /** interpolate */
  function Interpolate(v0: Vertex, v1: Vertex, t: real): Vertex {
    Vertex(Mix(v0.x, v1.x, t), Mix(v0.y, v1.y, t), Mix(v0.z, v1.z, t))
  }

  function PosAngle(x: real): real {
    if x < 0.0 then x + 360.0 else x
  }

  function Abs(x: real): real {
    if x < 0.0 then -x else x
  }

  /** interA, which goes the short way round by moving one end by a full turn. */
  function InterA(a: real, b: real, t: real): real {
    if Abs(b - a) < 180.0 then a + t * (b - a)
    else if a > b then a + t * (b + 360.0 - a)
    else a + 360.0 + t * (b - (a + 360.0))
  }

  function FullTurns(k: int): real {
    360.0 * k as real
  }

  /** The two angles differ by full turns. */
  ghost predicate SameDirection(x: real, y: real) {
    exists k: int :: x == y + FullTurns(k)
  }

  /** Full turns are taken off until the angle is at most 180. */
  function Wrap(x: real): (r: real)
    ensures r <= 180.0
    ensures x > -180.0 ==> r > -180.0
    ensures SameDirection(r, x)
    decreases x.Floor
  {
    if x <= 180.0 then
      assert x == x + FullTurns(0);
      x
    else
      var r := Wrap(x - 360.0);
      var k: int :| r == x - 360.0 + FullTurns(k);
      assert r == x + FullTurns(k - 1);
      r
  }

  /** One coordinate of interpolateAngle. */
  function Turn(a: real, b: real, t: real): real {
    Wrap(InterA(PosAngle(a), PosAngle(b), t))
  }

  function InterpolateAngle(v0: Vertex, v1: Vertex, t: real): Vertex {
    Vertex(Turn(v0.x, v1.x, t), Turn(v0.y, v1.y, t), Turn(v0.z, v1.z, t))
  }

  method WrapInPlace(angle: real) returns (x: real)
    ensures x == Wrap(angle)
  {
    x := angle;
    while x > 180.0
      invariant Wrap(x) == Wrap(angle)
      decreases x.Floor
    {
      x := x - 360.0;
    }
  }

  /** The source's own loops, one for each coordinate. */
  method ComputeAngle(v0: Vertex, v1: Vertex, t: real) returns (r: Vertex)
    ensures r == InterpolateAngle(v0, v1, t)
    ensures r.x <= 180.0 && r.y <= 180.0 && r.z <= 180.0
  {
    var x := WrapInPlace(InterA(PosAngle(v0.x), PosAngle(v1.x), t));
    var y := WrapInPlace(InterA(PosAngle(v0.y), PosAngle(v1.y), t));
    var z := WrapInPlace(InterA(PosAngle(v0.z), PosAngle(v1.z), t));
    r := Vertex(x, y, z);
  }

  // ----- What they do

  predicate Between(x: real, a: real, b: real) {
    if a <= b then a <= x <= b else b <= x <= a
  }

  lemma Distributes(t: real, d: real)
    ensures (1.0 - t) * d == d - t * d
  {
  }

  lemma SameSign(t: real, d: real)
    requires t >= 0.0
    ensures d >= 0.0 ==> t * d >= 0.0
    ensures d <= 0.0 ==> t * d <= 0.0
  {
  }

  lemma Scaled(t: real, d: real)
    requires 0.0 <= t <= 1.0
    ensures Between(t * d, 0.0, d)
  {
    SameSign(t, d);
    SameSign(1.0 - t, d);
    Distributes(t, d);
  }

  lemma Shifted(a: real, b: real, x: real, d: real)
    requires d == b - a && Between(x, 0.0, d)
    ensures Between(a + x, a, b)
  {
  }

  /** A mixture with a parameter from 0 to 1 lies between its ends. */
  lemma MixIsBetween(a: real, b: real, t: real)
    requires 0.0 <= t <= 1.0
    ensures Between(Mix(a, b, t), a, b)
  {
    var d := b - a;
    var x := t * d;
    assert Mix(a, b, t) == a + x;
    Scaled(t, d);
    Shifted(a, b, x, d);
  }

  lemma SameDirectionBy(x: real, y: real, k: int)
    requires x == y + FullTurns(k)
    ensures SameDirection(x, y)
  {
  }

  lemma SameDirectionTransitive(x: real, y: real, z: real)
    requires SameDirection(x, y) && SameDirection(y, z)
    ensures SameDirection(x, z)
  {
    var k: int :| x == y + FullTurns(k);
    var l: int :| y == z + FullTurns(l);
    assert FullTurns(k + l) == FullTurns(k) + FullTurns(l);
    SameDirectionBy(x, z, k + l);
  }

  /** Where the movement from `a` to `b` starts, a full turn up if need be. */
  function ArcStart(a: real, b: real): real {
    var p, q := PosAngle(a), PosAngle(b);
    if Abs(q - p) < 180.0 || p > q then p else p + 360.0
  }

  /** How far it turns, and which way. */
  function ArcLength(a: real, b: real): real {
    var p, q := PosAngle(a), PosAngle(b);
    if Abs(q - p) < 180.0 then q - p
    else if p > q then q + 360.0 - p
    else q - p - 360.0
  }

  lemma InterpolatesArc(a: real, b: real, t: real)
    ensures InterA(PosAngle(a), PosAngle(b), t) == ArcStart(a, b) + t * ArcLength(a, b)
  {
    var p, q := PosAngle(a), PosAngle(b);
    assert q - (p + 360.0) == q - p - 360.0;
  }

  lemma ArcEnds(a: real, b: real)
    ensures SameDirection(ArcStart(a, b), a)
    ensures SameDirection(ArcStart(a, b) + ArcLength(a, b), b)
    ensures Abs(ArcLength(a, b)) <= 180.0 <==> Abs(PosAngle(b) - PosAngle(a)) <= 540.0
  {
    var p, q := PosAngle(a), PosAngle(b);
    var s, d := ArcStart(a, b), ArcLength(a, b);
    SameDirectionBy(s, a, (if a < 0.0 then 1 else 0) + (if s == p then 0 else 1));
    SameDirectionBy(s + d, b, (if b < 0.0 then 1 else 0) + (if s + d == q then 0 else 1));
  }

  /**
   The movement is along one arc, which starts in the old direction and ends in
   the new one, for angles of any size. The arc is at most half a turn
   exactly if the two positive angles are at most one and a half turns apart.
   */
  lemma FollowsArc(a: real, b: real, t: real)
    ensures SameDirection(ArcStart(a, b), a)
    ensures SameDirection(ArcStart(a, b) + ArcLength(a, b), b)
    ensures SameDirection(Turn(a, b, t), ArcStart(a, b) + t * ArcLength(a, b))
    ensures SameDirection(Turn(a, b, 0.0), a)
    ensures SameDirection(Turn(a, b, 1.0), b)
    ensures Abs(ArcLength(a, b)) <= 180.0 <==> Abs(PosAngle(b) - PosAngle(a)) <= 540.0
  {
    ArcEnds(a, b);
    InterpolatesArc(a, b, t);
    InterpolatesArc(a, b, 0.0);
    InterpolatesArc(a, b, 1.0);
    SameDirectionTransitive(Turn(a, b, 0.0), ArcStart(a, b), a);
    SameDirectionTransitive(Turn(a, b, 1.0), ArcStart(a, b) + ArcLength(a, b), b);
  }

  /** Angles further apart than that go the long way round. */
  lemma LongWayRound()
    ensures ArcLength(0.0, 600.0) == 240.0
  {
  }

  predicate IsHalfTurn(x: real) {
    -180.0 <= x <= 180.0
  }

  lemma ArcStaysPositive(a: real, b: real)
    requires IsHalfTurn(a) && IsHalfTurn(b)
    ensures ArcStart(a, b) >= 0.0 && ArcStart(a, b) + ArcLength(a, b) >= 0.0
    ensures Abs(ArcLength(a, b)) <= 180.0
  {
  }

  /** For angles as the game gives them, the arc is at most half a turn, and the result is in (-180, 180]. */
  lemma ShortWayRound(a: real, b: real, t: real)
    requires IsHalfTurn(a) && IsHalfTurn(b) && 0.0 <= t <= 1.0
    ensures Abs(ArcLength(a, b)) <= 180.0
    ensures -180.0 < Turn(a, b, t) <= 180.0
  {
    var s, d := ArcStart(a, b), ArcLength(a, b);
    var x := t * d;
    ArcStaysPositive(a, b);
    InterpolatesArc(a, b, t);
    Scaled(t, d);
    Shifted(s, s + d, x, d);
    WrapsFrom(InterA(PosAngle(a), PosAngle(b), t));
  }

  lemma WrapsFrom(x: real)
    requires x > -180.0
    ensures -180.0 < Wrap(x) <= 180.0
  {
  }
}
