/** The background star field: the bounded cursor trail and the stars that
    fly toward the viewer and are recycled at the far plane.
    Random draws are inputs; the window size is a parameter. */
module StarField {
  import opened Basics

  /** The trail holds at most this many entries. */
  const TrailLimit: nat := 12
  /** Opacity lost, and size factor kept, per frame. */
  const TrailFade: real := 0.08
  const TrailShrink: real := 0.92

  datatype TrailDot = TrailDot(x: real, y: real, opacity: real, size: real)

  /** A fresh trail entry at the pointer, fully opaque; `r` is the random
      draw in [0, 1) that picks its size. */
  function NewDot(x: real, y: real, r: real): (d: TrailDot)
    ensures d.x == x && d.y == y && d.opacity == 1.0
    ensures d.size == 15.0 + 8.0 * r
    ensures 0.0 <= r < 1.0 ==> 15.0 <= d.size < 23.0
  {
    TrailDot(x, y, 1.0, 15.0 + r * 8.0)
  }

  /** Push at the back, then drop the front entry if the trail is too long. */
  function Push(t: seq<TrailDot>, d: TrailDot): (r: seq<TrailDot>)
    ensures |r| > 0 && r[|r| - 1] == d
    ensures |t| < TrailLimit ==> r[..|r| - 1] == t
    ensures |t| >= TrailLimit ==> r[..|r| - 1] == t[1..]
    ensures |t| <= TrailLimit ==> |r| <= TrailLimit
  {
    var u := t + [d];
    if |u| > TrailLimit then
      assert u[1..][..|u| - 2] == t[1..];
      u[1..]
    else
      assert u[..|u| - 1] == t;
      u
  }

  /** `handleMouseMove`: one new entry per pointer sample, at the pointer,
      appended after the kept entries; the oldest falls off a full trail. */
  function MouseMove(t: seq<TrailDot>, x: real, y: real, rnd: real): (r: seq<TrailDot>)
    ensures |r| > 0 && r[|r| - 1] == NewDot(x, y, rnd)
    ensures r[|r| - 1].x == x && r[|r| - 1].y == y && r[|r| - 1].opacity == 1.0
    ensures |t| < TrailLimit ==> r[..|r| - 1] == t
    ensures |t| >= TrailLimit ==> r[..|r| - 1] == t[1..]
    ensures |t| <= TrailLimit ==> |r| <= TrailLimit
  {
    Push(t, NewDot(x, y, rnd))
  }

  function PushAll(t: seq<TrailDot>, ds: seq<TrailDot>): seq<TrailDot>
    decreases |ds|
  {
    if |ds| == 0 then t else PushAll(Push(t, ds[0]), ds[1..])
  }

  /** How many of `n` queued entries fall off the front of the trail. */
  function Overflow(n: nat): nat {
    if n > TrailLimit then n - TrailLimit else 0
  }

  /** The last (at most) twelve entries of a queue. */
  function Newest(s: seq<TrailDot>): (r: seq<TrailDot>)
    ensures |r| <= TrailLimit
  {
    s[Overflow(|s|)..]
  }

  /** One push keeps the newest entries of the queue. */
  lemma PushKeepsNewest(t: seq<TrailDot>, d: TrailDot)
    requires |t| <= TrailLimit
    ensures Push(t, d) == Newest(t + [d])
  {
  }

  /** Dropping a prefix and then appending is appending and then dropping. */
  lemma DropThenAppend(s: seq<TrailDot>, j: nat, rest: seq<TrailDot>, k: nat)
    requires j <= |s| && k <= |s| - j + |rest|
    ensures (s[j..] + rest)[k..] == (s + rest)[j + k..]
  {
  }

  /** One push followed by keeping the newest of the rest is keeping the
      newest of everything. */
  lemma PushThenKeepNewest(t: seq<TrailDot>, d: TrailDot, rest: seq<TrailDot>)
    requires |t| <= TrailLimit
    ensures Newest(Push(t, d) + rest) == Newest(t + ([d] + rest))
  {
    var s := t + [d];
    var u := Push(t, d);
    var j := Overflow(|t| + 1);
    var k := Overflow(|u| + |rest|);
    PushKeepsNewest(t, d);
    DropThenAppend(s, j, rest, k);
    assert s + rest == t + ([d] + rest);
  }

  /** First in, first out: after any sequence of pushes the trail holds the
      most recent entries, at most twelve, in arrival order. */
  lemma {:induction false} PushAllKeepsNewest(t: seq<TrailDot>, ds: seq<TrailDot>)
    requires |t| <= TrailLimit
    ensures PushAll(t, ds) == Newest(t + ds)
    decreases |ds|
  {
    if |ds| == 0 {
      assert t + ds == t;
    } else {
      var u := Push(t, ds[0]);
      var rest := ds[1..];
      PushAllKeepsNewest(u, rest);
      PushThenKeepNewest(t, ds[0], rest);
      assert [ds[0]] + rest == ds;
    }
  }

  /** Pushing never takes the trail beyond twelve entries. */
  lemma PushAllBounded(t: seq<TrailDot>, ds: seq<TrailDot>)
    requires |t| <= TrailLimit
    ensures |PushAll(t, ds)| <= TrailLimit
  {
    PushAllKeepsNewest(t, ds);
  }

  /** One frame of fading for one entry. */
  function Fade(d: TrailDot): (r: TrailDot)
    ensures r.opacity == d.opacity - TrailFade && r.size == d.size * TrailShrink
    ensures r.x == d.x && r.y == d.y
  {
    d.(opacity := d.opacity - TrailFade, size := d.size * TrailShrink)
  }

  function FadeAll(t: seq<TrailDot>): (r: seq<TrailDot>)
    ensures |r| == |t|
    ensures forall i :: 0 <= i < |t| ==> r[i] == Fade(t[i])
  {
    seq(|t|, i requires 0 <= i < |t| => Fade(t[i]))
  }

  /** The entries still visible: opacity above zero, in their order. */
  function Live(t: seq<TrailDot>): (r: seq<TrailDot>)
    ensures |r| <= |t|
    ensures forall i :: 0 <= i < |r| ==> r[i].opacity > 0.0
    decreases |t|
  {
    if |t| == 0 then []
    else (if t[0].opacity > 0.0 then [t[0]] else []) + Live(t[1..])
  }

  /** An entry is kept exactly when it was there with opacity above zero. */
  lemma {:induction false} LiveMembers(t: seq<TrailDot>, d: TrailDot)
    ensures d in Live(t) <==> d in t && d.opacity > 0.0
    decreases |t|
  {
    if |t| > 0 {
      LiveMembers(t[1..], d);
      assert t == [t[0]] + t[1..];
    }
  }

  /** Filtering distributes over concatenation, so relative order is kept. */
  lemma {:induction false} LiveAppend(a: seq<TrailDot>, b: seq<TrailDot>)
    ensures Live(a + b) == Live(a) + Live(b)
    decreases |a|
  {
    if |a| > 0 {
      LiveAppend(a[1..], b);
      assert (a + b)[1..] == a[1..] + b;
    } else {
      assert a + b == b;
    }
  }

  /** The trail part of `animate`: fade every entry; the entries drawn are
      those still above zero, and they are exactly the ones kept. */
  function TrailFrame(t: seq<TrailDot>): (r: seq<TrailDot>)
    ensures |r| <= |t|
    ensures forall d :: d in r <==> exists i :: 0 <= i < |t| && d == Fade(t[i]) && t[i].opacity > TrailFade
  {
    var f := FadeAll(t);
    forall d
      ensures d in Live(f) <==> exists i :: 0 <= i < |t| && d == Fade(t[i]) && t[i].opacity > TrailFade
    {
      LiveMembers(f, d);
      if d in f {
        var i :| 0 <= i < |f| && f[i] == d;
      }
    }
    Live(f)
  }

  /** Frames commute with concatenation: each entry fades independently. */
  lemma TrailFrameAppend(a: seq<TrailDot>, b: seq<TrailDot>)
    ensures TrailFrame(a + b) == TrailFrame(a) + TrailFrame(b)
  {
    assert FadeAll(a + b) == FadeAll(a) + FadeAll(b);
    LiveAppend(FadeAll(a), FadeAll(b));
  }

  /** `k` frames in a row. */
  function Frames(t: seq<TrailDot>, k: nat): seq<TrailDot>
    decreases k
  {
    if k == 0 then t else TrailFrame(Frames(t, k - 1))
  }

  /** `k` fades of one entry. */
  function FadeN(d: TrailDot, k: nat): TrailDot
    decreases k
  {
    if k == 0 then d else Fade(FadeN(d, k - 1))
  }

  lemma {:induction false} FadeNOpacity(d: TrailDot, k: nat)
    ensures FadeN(d, k).opacity == d.opacity - TrailFade * k as real
    ensures FadeN(d, k).x == d.x && FadeN(d, k).y == d.y
    decreases k
  {
    if k > 0 {
      FadeNOpacity(d, k - 1);
    }
  }

  /** A lone entry survives `k` frames exactly while its opacity, lowered by
      `k` steps, is still above zero. */
  lemma {:induction false} FramesOfOne(d: TrailDot, k: nat)
    requires d.opacity > 0.0
    ensures Frames([d], k) == (if d.opacity - TrailFade * k as real > 0.0 then [FadeN(d, k)] else [])
    decreases k
  {
    if k > 0 {
      FramesOfOne(d, k - 1);
      FadeNOpacity(d, k - 1);
      FadeNOpacity(d, k);
      var prev := Frames([d], k - 1);
      assert (k - 1) as real == k as real - 1.0;
      if d.opacity - TrailFade * (k - 1) as real > 0.0 {
        var f := FadeN(d, k);
        assert FadeAll(prev) == [f];
        assert [f][1..] == [];
        assert Live([f]) == (if f.opacity > 0.0 then [f] else []) + Live([]);
      } else {
        assert prev == [];
        assert FadeAll(prev) == [];
      }
    }
  }

  /** An entry born at full opacity is drawn on frames 1 to 12 and gone
      after the 13th. */
  lemma TrailLifetime(x: real, y: real, r: real, k: nat)
    ensures |Frames([NewDot(x, y, r)], k)| == 1 <==> k <= 12
    ensures k >= 13 ==> Frames([NewDot(x, y, r)], k) == []
  {
    FramesOfOne(NewDot(x, y, r), k);
  }

  /** Everything that reaches the trail. */
  datatype TrailEvent = Moved(x: real, y: real, r: real) | Tick

  function Apply(t: seq<TrailDot>, e: TrailEvent): (r: seq<TrailDot>)
    ensures |t| <= TrailLimit ==> |r| <= TrailLimit
  {
    match e
    case Moved(x, y, rnd) => MouseMove(t, x, y, rnd)
    case Tick => TrailFrame(t)
  }

  function RunTrail(t: seq<TrailDot>, es: seq<TrailEvent>): seq<TrailDot>
    decreases |es|
  {
    if |es| == 0 then t else RunTrail(Apply(t, es[0]), es[1..])
  }

  /** The trail never grows beyond twelve entries. */
  lemma {:induction false} TrailStaysBounded(t: seq<TrailDot>, es: seq<TrailEvent>)
    requires |t| <= TrailLimit
    ensures |RunTrail(t, es)| <= TrailLimit
    decreases |es|
  {
    if |es| > 0 {
      TrailStaysBounded(Apply(t, es[0]), es[1..]);
    }
  }

  // Stars

  const StarCount: nat := 800
  /** Depth of the far plane, where stars are born and recycled. */
  const FarPlane: real := 1000.0
  /** Perspective scale of the projection. */
  const Focal: real := 200.0
  const SpeedScale: real := 0.7

  /** A screen coordinate; dividing by a depth of exactly zero gives a
      non-finite number in the source. */
  datatype Coord = At(v: real) | NonFinite

  datatype Star = Star(x: real, y: real, z: real, prevX: Coord, prevY: Coord, speed: real)

  /** The window the field is sized to. */
  datatype Viewport = Viewport(width: real, height: real)

  /** Perspective projection of one coordinate at depth `z`. */
  function Project(v: real, z: real, center: real): (c: Coord)
    ensures c.NonFinite? <==> z == 0.0
  {
    if z == 0.0 then NonFinite else At(v / z * Focal + center)
  }

  /** A random placement across the window, centred on the origin. */
  function Spread(r: real, extent: real): (v: real)
    ensures 0.0 <= r < 1.0 && extent >= 0.0 ==> -extent / 2.0 <= v <= extent / 2.0
  {
    assert 0.0 <= r < 1.0 && extent >= 0.0 ==> 0.0 <= r * extent <= extent by {
      if 0.0 <= r < 1.0 && extent >= 0.0 {
        assert (1.0 - r) * extent >= 0.0;
      }
    }
    r * extent - extent / 2.0
  }

  /** One star's move: remember where it was drawn, come closer, and when it
      passes the viewer re-spawn at the far plane at a fresh position
      (`rx`, `ry` are the two draws used only then). */
  function StepStar(s: Star, vp: Viewport, rx: real, ry: real): (r: Star)
    ensures r.speed == s.speed
    ensures s.z - s.speed * SpeedScale > 0.0 ==>
              r.z == s.z - s.speed * SpeedScale && r.x == s.x && r.y == s.y
              && r.prevX == Project(s.x, s.z, vp.width / 2.0)
              && r.prevY == Project(s.y, s.z, vp.height / 2.0)
    ensures s.z - s.speed * SpeedScale <= 0.0 ==>
              r.z == FarPlane && r.x == Spread(rx, vp.width) && r.y == Spread(ry, vp.height)
              && r.prevX == Project(r.x, FarPlane, vp.width / 2.0)
              && r.prevY == Project(r.y, FarPlane, vp.height / 2.0)
    ensures s.speed > 0.0 && s.z <= FarPlane ==> 0.0 < r.z <= FarPlane
  {
    var cx := vp.width / 2.0;
    var cy := vp.height / 2.0;
    var moved := s.(prevX := Project(s.x, s.z, cx), prevY := Project(s.y, s.z, cy),
                    z := s.z - s.speed * SpeedScale);
    if moved.z <= 0.0 then
      var x := Spread(rx, vp.width);
      var y := Spread(ry, vp.height);
      moved.(x := x, y := y, z := FarPlane,
             prevX := Project(x, FarPlane, cx), prevY := Project(y, FarPlane, cy))
    else
      moved
  }

  /** How bright a star is drawn: nearer is brighter. */
  function StarOpacity(z: real): (r: real)
    ensures 0.0 <= r
    ensures 0.0 <= z ==> r <= 1.0
    ensures z == FarPlane ==> r == 0.0
  {
    Max(0.0, 1.0 - z / FarPlane)
  }

  /** How large a star is drawn. */
  function StarSize(z: real): (r: real)
    ensures 0.0 <= r
    ensures 0.0 <= z ==> r <= 2.5
    ensures z == FarPlane ==> r == 0.0
  {
    Max(0.0, (1.0 - z / FarPlane) * 2.5)
  }

  /** Approaching a star never makes it fainter or smaller. */
  lemma StarShadingMonotone(near: real, far: real)
    requires near <= far
    ensures StarOpacity(far) <= StarOpacity(near)
    ensures StarSize(far) <= StarSize(near)
  {
  }

  /** The four draws that make one star. */
  datatype StarDraw = StarDraw(rx: real, ry: real, rz: real, rs: real)

  predicate UnitDraw(d: StarDraw) {
    0.0 <= d.rx < 1.0 && 0.0 <= d.ry < 1.0 && 0.0 <= d.rz < 1.0 && 0.0 <= d.rs < 1.0
  }

  function Spawn(vp: Viewport, d: StarDraw): (s: Star)
    ensures UnitDraw(d) ==> 0.2 <= s.speed < 1.0 && 0.0 <= s.z < FarPlane
    ensures s.prevX == At(0.0) && s.prevY == At(0.0)
  {
    Star(Spread(d.rx, vp.width), Spread(d.ry, vp.height), d.rz * FarPlane,
         At(0.0), At(0.0), 0.2 + d.rs * 0.8)
  }

  /** `createStars`: exactly 800 stars, star `i` made from draw `i`. */
  method CreateStars(vp: Viewport, draw: nat -> StarDraw) returns (stars: seq<Star>)
    ensures |stars| == StarCount
    ensures forall i :: 0 <= i < |stars| ==> stars[i] == Spawn(vp, draw(i))
    ensures forall i :: 0 <= i < |stars| && UnitDraw(draw(i)) ==>
              0.2 <= stars[i].speed < 1.0 && 0.0 <= stars[i].z < FarPlane
  {
    stars := [];
    var i := 0;
    while i < StarCount
      invariant 0 <= i <= StarCount && |stars| == i
      invariant forall j :: 0 <= j < i ==> stars[j] == Spawn(vp, draw(j))
    {
      stars := stars + [Spawn(vp, draw(i))];
      i := i + 1;
    }
  }

  /** Every star is in flight between the viewer and the far plane. */
  predicate InFlight(stars: seq<Star>) {
    forall i :: 0 <= i < |stars| ==> stars[i].speed > 0.0 && 0.0 < stars[i].z <= FarPlane
  }

  /** The star part of `animate`: every star steps, star `i` using the
      re-spawn draws `resets(i)`. */
  function StepField(stars: seq<Star>, vp: Viewport, resets: nat -> (real, real)): (r: seq<Star>)
    ensures |r| == |stars|
    ensures forall i :: 0 <= i < |stars| ==> r[i] == StepStar(stars[i], vp, resets(i).0, resets(i).1)
    ensures InFlight(stars) ==> InFlight(r)
  {
    seq(|stars|, i requires 0 <= i < |stars| => StepStar(stars[i], vp, resets(i).0, resets(i).1))
  }

  /** A freshly created field enters flight after one frame (a star drawn
      at depth zero at creation is recycled at once). */
  lemma FirstFrameInFlight(stars: seq<Star>, vp: Viewport, resets: nat -> (real, real))
    requires forall i :: 0 <= i < |stars| ==> stars[i].speed > 0.0 && 0.0 <= stars[i].z < FarPlane
    ensures InFlight(StepField(stars, vp, resets))
  {
  }
}
