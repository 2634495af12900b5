/**
 * The "hyperspace" star background: how each star is created, how one animation
 * frame moves it towards the viewer and keeps its trail of past positions, and the
 * perspective projection that places a position on the canvas.
 *
 * Canvas dimensions are the canvas element's unsigned integer `width` and `height`;
 * positions, depths and speeds are exact reals.
 */
module Starfield {

  /** A snapshot of a star's position: plane coordinates and depth. */
  datatype Point = Point(x: real, y: real, z: real)

  /** The last `n` entries of `s`, in order (all of `s` when it is no longer than `n`). */
  function Latest<T>(s: seq<T>, n: nat): (r: seq<T>)
    ensures |r| == if |s| <= n then |s| else n
  {
    if |s| <= n then s else s[|s| - n..]
  }

  /**
   * The trail after one frame: the snapshot `p` is pushed at the newest end, and
   * when the trail has then grown past `maxTrail` its oldest entry is shifted out.
   */
  function PushBounded(trail: seq<Point>, p: Point, maxTrail: nat): (r: seq<Point>)
    ensures |trail| <= maxTrail ==> |r| <= maxTrail && r == Latest(trail + [p], maxTrail)
    ensures 0 < maxTrail ==> 0 < |r| && r[|r| - 1] == p
    ensures |trail| < maxTrail ==> |r| == |trail| + 1 && r[..|trail|] == trail
    ensures 0 < |trail| && maxTrail <= |trail| ==> |r| == |trail| && r[..|r| - 1] == trail[1..]
  {
    var pushed := trail + [p];
    if |pushed| > maxTrail then pushed[1..] else pushed
  }

  /** The trail after the snapshots `ps` have been pushed one frame at a time. */
  function PushAll(trail: seq<Point>, ps: seq<Point>, maxTrail: nat): seq<Point>
    decreases |ps|
  {
    if ps == [] then trail else PushAll(PushBounded(trail, ps[0], maxTrail), ps[1..], maxTrail)
  }

  lemma LatestOfLatest<T>(s: seq<T>, t: seq<T>, n: nat)
    ensures Latest(Latest(s, n) + t, n) == Latest(s + t, n)
  {
    var a, b := Latest(Latest(s, n) + t, n), Latest(s + t, n);
    assert |a| == |b|;
    forall i | 0 <= i < |a| ensures a[i] == b[i] {
      var l := Latest(s, n);
      var j := |l + t| - |a| + i;
      if j < |l| {
        assert a[i] == l[j] == s[|s| - |l| + j];
      } else {
        assert a[i] == t[j - |l|];
      }
      assert b[i] == (s + t)[|s + t| - |b| + i];
    }
  }

  /**
   * Between two respawns the trail is a bounded FIFO: after any number of frames it
   * holds exactly the most recent `maxTrail` snapshots, oldest first.
   */
  lemma {:induction false} TrailHoldsLatestSnapshots(trail: seq<Point>, ps: seq<Point>, maxTrail: nat)
    requires |trail| <= maxTrail
    ensures PushAll(trail, ps, maxTrail) == Latest(trail + ps, maxTrail)
    ensures |PushAll(trail, ps, maxTrail)| <= maxTrail
    decreases |ps|
  {
    if ps == [] {
      assert trail + ps == trail;
    } else {
      var p, rest := ps[0], ps[1..];
      var next := PushBounded(trail, p, maxTrail);
      TrailHoldsLatestSnapshots(next, rest, maxTrail);
      LatestOfLatest(trail + [p], rest, maxTrail);
      assert trail + [p] + rest == trail + ps;
    }
  }

  /** `Math.floor(Math.random() * 8) + 5`: the trail bound chosen at creation. */
  function MaxTrailFromDraw(r: real): (m: nat)
    requires 0.0 <= r < 1.0
    ensures 5 <= m <= 12
  {
    var k := (r * 8.0).Floor;
    assert 0 <= k <= 7;
    k + 5
  }

  /** `Math.random() * 0.05 + 0.02`: the per-star speed chosen at creation. */
  function SpeedFromDraw(r: real): (s: real)
    requires 0.0 <= r < 1.0
    ensures 0.02 <= s < 0.07
  {
    r * 0.05 + 0.02
  }

  /** `Math.random() * 2 + 1`: the star's radius chosen at creation. */
  function SizeFromDraw(r: real): (s: real)
    requires 0.0 <= r < 1.0
    ensures 1.0 <= s < 3.0
  {
    r * 2.0 + 1.0
  }

  /**
   * One screen coordinate under the pinhole projection: the offset of `c` from the
   * centre `extent / 2` is scaled by `width / z`. A star at depth `width` is drawn
   * where it is.
   */
  function Project(c: real, extent: real, width: real, z: real): (r: real)
    requires 0.0 < z
    ensures z == width ==> r == c
    ensures c == extent / 2.0 ==> r == c
  {
    var scale := width / z;
    (c - extent / 2.0) * scale + extent / 2.0
  }

  /**
   * As a star comes nearer (its depth drops from `far` to `near`) its projection
   * stays on the same side of the centre and never moves closer to it; with a
   * positive canvas width and a real drop in depth, a star off the centre moves
   * strictly away from it.
   */
  lemma ProjectionMovesOutward(c: real, extent: real, width: real, near: real, far: real)
    requires 0.0 < near <= far && 0.0 <= width
    ensures var centre := extent / 2.0;
      var dFar, dNear := Project(c, extent, width, far) - centre, Project(c, extent, width, near) - centre;
      (centre <= c ==> 0.0 <= dFar <= dNear) && (c <= centre ==> dNear <= dFar <= 0.0)
    ensures var centre := extent / 2.0;
      var dFar, dNear := Project(c, extent, width, far) - centre, Project(c, extent, width, near) - centre;
      0.0 < width && near < far ==>
        (centre < c ==> 0.0 < dFar < dNear) && (c < centre ==> dNear < dFar < 0.0)
  {
    var centre := extent / 2.0;
    var d := c - centre;
    var sFar, sNear := width / far, width / near;
    assert sFar * far == width && sNear * near == width;
    assert 0.0 <= sFar <= sNear by {
      assert 0.0 <= sFar * (far - near);
      assert (sNear - sFar) * near == sFar * (far - near);
    }
    assert 0.0 < width && near < far ==> 0.0 < sFar < sNear by {
      if 0.0 < width && near < far {
        assert 0.0 < sFar * (far - near);
        assert (sNear - sFar) * near == sFar * (far - near);
      }
    }
    assert Project(c, extent, width, far) - centre == d * sFar;
    assert Project(c, extent, width, near) - centre == d * sNear;
    if 0.0 < d {
      assert 0.0 <= d * sFar && 0.0 <= d * (sNear - sFar);
      assert 0.0 < sFar < sNear ==> 0.0 < d * sFar && 0.0 < d * (sNear - sFar);
    } else if d < 0.0 {
      assert d * sFar <= 0.0 && d * (sNear - sFar) <= 0.0;
      assert 0.0 < sFar < sNear ==> d * sFar < 0.0 && d * (sNear - sFar) < 0.0;
    }
  }

  /** Where a snapshot is drawn on a `width` x `height` canvas (lines 61-63 and 68-70 of the script). */
  function ScreenPosition(p: Point, width: nat, height: nat): (q: (real, real))
    requires 0.0 < p.z
    ensures p.z == width as real ==> q == (p.x, p.y)
  {
    (Project(p.x, width as real, width as real, p.z), Project(p.y, height as real, width as real, p.z))
  }

  /** A `Math.random()` draw spread over a canvas dimension: `r * extent`. */
  function Scaled(r: real, extent: nat): real
  {
    r * extent as real
  }

  class Star {
    var x: real
    var y: real
    var z: real
    const speed: real
    const size: real
    const maxTrail: nat
    /** Past snapshots, oldest first. */
    var trail: seq<Point>

    /**
     * The star's invariant: the creation ranges, the trail bound, and depths that
     * never go negative, with every remembered snapshot strictly in front of the
     * viewer (so that each can be projected).
     */
    ghost predicate Valid()
      reads this
    {
      0.02 <= speed < 0.07 && 1.0 <= size < 3.0 && 5 <= maxTrail <= 12 &&
      |trail| <= maxTrail && 0.0 <= z &&
      forall i :: 0 <= i < |trail| ==> 0.0 < trail[i].z
    }

    /** A star as created at start-up, from six `Math.random()` draws. */
    constructor (width: nat, height: nat, rx: real, ry: real, rz: real, rSpeed: real, rSize: real, rTrail: real)
      requires 0.0 <= rx < 1.0 && 0.0 <= ry < 1.0 && 0.0 <= rz < 1.0
      requires 0.0 <= rSpeed < 1.0 && 0.0 <= rSize < 1.0 && 0.0 <= rTrail < 1.0
      ensures Valid()
      ensures x == Scaled(rx, width) && y == Scaled(ry, height) && z == Scaled(rz, width)
      ensures speed == SpeedFromDraw(rSpeed) && size == SizeFromDraw(rSize)
      ensures maxTrail == MaxTrailFromDraw(rTrail) && trail == []
    {
      x := Scaled(rx, width);
      y := Scaled(ry, height);
      z := Scaled(rz, width);
      speed := SpeedFromDraw(rSpeed);
      size := SizeFromDraw(rSize);
      maxTrail := MaxTrailFromDraw(rTrail);
      trail := [];
    }

    /**
     * One frame's update of this star on a `width` x `height` canvas. `rx` and `ry`
     * are the two `Math.random()` draws that place it if it respawns this frame.
     */
    method Step(width: nat, height: nat, rx: real, ry: real)
      requires Valid()
      requires 0.0 <= rx < 1.0 && 0.0 <= ry < 1.0
      modifies this
      ensures Valid() && Advanced(this, width, height, rx, ry)
      ensures 0 < width ==> 0.0 < z
    {
      trail := trail + [Point(x, y, z)];
      if |trail| > maxTrail {
        trail := trail[1..];
      }
      z := z - speed * 50.0;
      if z <= 0.0 {
        x := Scaled(rx, width);
        y := Scaled(ry, height);
        z := width as real;
        trail := [];
      }
    }
  }

  /**
   * What one frame does to star `s`: its depth drops by exactly `speed * 50`; if it
   * is then still in front of the viewer its old position is pushed onto the bounded
   * trail, otherwise it respawns at the draws (`rx`, `ry`) scaled by the canvas size,
   * at depth `width` with no trail.
   */
  twostate predicate Advanced(s: Star, width: nat, height: nat, rx: real, ry: real)
    reads s
  {
    var moved := old(s.z) - s.speed * 50.0;
    if moved <= 0.0 then
      s.x == Scaled(rx, width) && s.y == Scaled(ry, height) && s.z == width as real && s.trail == []
    else
      s.x == old(s.x) && s.y == old(s.y) && s.z == moved &&
      s.trail == PushBounded(old(s.trail), Point(old(s.x), old(s.y), old(s.z)), s.maxTrail)
  }

  /**
   * The update half of one animation frame: every star, in order, is advanced once;
   * star `i` respawns, if it must, at the draws (`rx[i]`, `ry[i]`).
   */
  method AdvanceAll(stars: seq<Star>, width: nat, height: nat, rx: seq<real>, ry: seq<real>)
    requires |rx| == |stars| && |ry| == |stars|
    requires forall i :: 0 <= i < |stars| ==> 0.0 <= rx[i] < 1.0 && 0.0 <= ry[i] < 1.0
    requires forall i, j :: 0 <= i < j < |stars| ==> stars[i] != stars[j]
    requires forall i :: 0 <= i < |stars| ==> stars[i].Valid()
    modifies set i | 0 <= i < |stars| :: stars[i]
    ensures forall i :: 0 <= i < |stars| ==> stars[i].Valid() && Advanced(stars[i], width, height, rx[i], ry[i])
  {
    for i := 0 to |stars|
      invariant forall k :: 0 <= k < i ==> stars[k].Valid() && Advanced(stars[k], width, height, rx[k], ry[k])
      invariant forall k :: i <= k < |stars| ==> stars[k].Valid() && unchanged(stars[k])
    {
      stars[i].Step(width, height, rx[i], ry[i]);
    }
  }
}
