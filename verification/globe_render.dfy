/** What a frame draws from the rotated geometry: depth culling, depth
    shading, landmark markers and the polyline path of each graticule line.
    The rotation itself (`rotatePoint`, sine and cosine) is not modelled:
    every function here takes points that are already rotated. */
module GlobeRender {
  import opened Basics
  import opened GlobeGeometry
  import opened GlobeInteraction

  const Radius: real := 100.0

  /** Culling thresholds on rotated depth: grid points, cities, lines. */
  const GridCull: real := -0.3
  const CityCull: real := -0.4
  const LineCull: real := -0.6

  /** A grid point as drawn: screen position, radius, opacity. */
  datatype Dot = Dot(sx: real, sy: real, size: real, opacity: real)

  /** A landmark as drawn; `highlighted` selects the gold marker and label. */
  datatype CityMark = CityMark(sx: real, sy: real, opacity: real, highlighted: bool)

  /** A projected line sample: screen position and rotated depth. */
  datatype Sample = Sample(sx: real, sy: real, z: real)

  datatype PathCmd = MoveTo(x: real, y: real) | LineTo(x: real, y: real)

  /** Orthographic projection; screen y grows downward. */
  function ScreenX(p: Point3): real {
    CenterX + p.x * Radius
  }

  function ScreenY(p: Point3): real {
    CenterY - p.y * Radius
  }

  /** Rotated depth mapped from [-1, 1] to [0, 1]. */
  function Depth(z: real): (d: real)
    ensures -1.0 <= z <= 1.0 ==> 0.0 <= d <= 1.0
  {
    (z + 1.0) / 2.0
  }

  function GridOpacity(z: real): (r: real)
    ensures r >= 0.15
    ensures -1.0 <= z <= 1.0 ==> r <= 0.8
  {
    Max(0.15, Depth(z) * 0.8)
  }

  function GridSize(z: real): (r: real)
    ensures r >= 0.8
    ensures -1.0 <= z <= 1.0 ==> r <= 2.0
  {
    Max(0.8, Depth(z) * 2.0)
  }

  function CityOpacity(z: real): (r: real)
    ensures r >= 0.4
    ensures -1.0 <= z <= 1.0 ==> r <= 0.95
  {
    Max(0.4, Depth(z) * 0.95)
  }

  /** Nearer points are never fainter or smaller than farther ones. */
  lemma ShadingMonotone(z1: real, z2: real)
    requires z1 <= z2
    ensures GridOpacity(z1) <= GridOpacity(z2)
    ensures GridSize(z1) <= GridSize(z2)
    ensures CityOpacity(z1) <= CityOpacity(z2)
  {
  }

  /** The grid's opacity floor never applies to a drawn point: in front of
      the grid threshold the depth term already exceeds it. */
  lemma DrawnGridOpacityAboveFloor(z: real)
    requires z > GridCull
    ensures GridOpacity(z) == Depth(z) * 0.8 > 0.15
  {
  }

  /** Near the horizon the size of a drawn grid point and the opacity of a
      drawn city sit at their floors, so they fade out gradually instead of
      vanishing. */
  lemma HorizonFloors(z: real)
    ensures GridCull < z <= -0.2 ==> GridSize(z) == 0.8
    ensures CityCull < z <= -0.16 ==> CityOpacity(z) == 0.4
  {
  }

  /** The thresholds nest: a drawn grid point's depth also draws a city, and
      a drawn city's depth also draws a line sample. */
  lemma CullThresholdsNest(z: real)
    ensures z > GridCull ==> z > CityCull
    ensures z > CityCull ==> z > LineCull
  {
  }

  /** One grid point: drawn only in front of the grid threshold, with
      depth shading at least the floors. */
  function DrawGridPoint(rotated: Point3): (r: Option<Dot>)
    ensures r.Some? <==> rotated.z > GridCull
    ensures r.Some? ==> r.value.sx == ScreenX(rotated) && r.value.sy == ScreenY(rotated)
    ensures r.Some? ==> r.value.opacity == GridOpacity(rotated.z) && r.value.size == GridSize(rotated.z)
    ensures r.Some? ==> r.value.opacity >= 0.15 && r.value.size >= 0.8
  {
    if rotated.z > GridCull then
      Some(Dot(ScreenX(rotated), ScreenY(rotated), GridSize(rotated.z), GridOpacity(rotated.z)))
    else
      None
  }

  /** One landmark: drawn only in front of the city threshold; only the
      home city takes the highlighted branch. */
  function DrawCity(c: City, rotated: Point3): (r: Option<CityMark>)
    ensures r.Some? <==> rotated.z > CityCull
    ensures r.Some? ==> (r.value.highlighted <==> c.name == "Chennai")
    ensures r.Some? ==> r.value.opacity == CityOpacity(rotated.z)
    ensures r.Some? ==> r.value.opacity >= 0.4
    ensures r.Some? ==> r.value.sx == ScreenX(rotated) && r.value.sy == ScreenY(rotated)
  {
    if rotated.z > CityCull then
      Some(CityMark(ScreenX(rotated), ScreenY(rotated), CityOpacity(rotated.z), Highlighted(c)))
    else
      None
  }

  /** Outline glow per mode: brightest while dragging. */
  function Glow(m: Mode): (r: real)
    ensures 0.0 < r < 1.0
  {
    match m
    case Dragging => 0.8
    case Hovering => 0.6
    case Idle => 0.4
  }

  lemma GlowOrdered()
    ensures Glow(Idle) == 0.4 && Glow(Hovering) == 0.6 && Glow(Dragging) == 0.8
    ensures Glow(Idle) < Glow(Hovering) < Glow(Dragging)
  {
  }

  /** A line sample is on the drawn side of the sphere. */
  predicate Visible(s: Sample) {
    s.z > LineCull
  }

  /** The command for a visible sample: continue the path when the sample
      before it was visible, otherwise start a new piece. */
  function Command(s: Sample, afterVisible: bool): PathCmd {
    if afterVisible then LineTo(s.sx, s.sy) else MoveTo(s.sx, s.sy)
  }

  /** Reference definition of the path of one line, stated sample by
      sample: each visible sample contributes one command chosen from its
      predecessor alone; a culled sample contributes nothing. */
  function Polyline(ss: seq<Sample>): seq<PathCmd>
    decreases |ss|
  {
    if |ss| == 0 then []
    else
      var n := |ss| - 1;
      Polyline(ss[..n]) + (if Visible(ss[n]) then [Command(ss[n], n > 0 && Visible(ss[n - 1]))] else [])
  }

  function CountVisible(ss: seq<Sample>): nat
    decreases |ss|
  {
    if |ss| == 0 then 0
    else CountVisible(ss[..|ss| - 1]) + (if Visible(ss[|ss| - 1]) then 1 else 0)
  }

  /** The splitting loop as written: a flag remembers whether a path piece
      is open; a visible sample moves to or lines to its point, a culled
      sample closes the piece. */
  method TracePolyline(ss: seq<Sample>) returns (cmds: seq<PathCmd>)
    ensures cmds == Polyline(ss)
    ensures |cmds| == CountVisible(ss)
  {
    cmds := [];
    var drawing := false;
    var i := 0;
    while i < |ss|
      invariant 0 <= i <= |ss|
      invariant drawing == (i > 0 && Visible(ss[i - 1]))
      invariant cmds == Polyline(ss[..i])
    {
      assert ss[..i + 1][..i] == ss[..i];
      if ss[i].z > LineCull {
        if !drawing {
          cmds := cmds + [MoveTo(ss[i].sx, ss[i].sy)];
          drawing := true;
        } else {
          cmds := cmds + [LineTo(ss[i].sx, ss[i].sy)];
        }
      } else {
        drawing := false;
      }
      i := i + 1;
    }
    assert ss[..|ss|] == ss;
    PolylineLength(ss);
  }

  /** Exactly one command per visible sample. */
  lemma {:induction false} PolylineLength(ss: seq<Sample>)
    ensures |Polyline(ss)| == CountVisible(ss)
    decreases |ss|
  {
    if |ss| > 0 {
      PolylineLength(ss[..|ss| - 1]);
    }
  }

  /** The path of a prefix is a prefix of the path. */
  lemma {:induction false} PolylinePrefix(ss: seq<Sample>, j: nat)
    requires j <= |ss|
    ensures Polyline(ss[..j]) <= Polyline(ss)
    decreases |ss| - j
  {
    if j < |ss| {
      PolylinePrefix(ss, j + 1);
      assert ss[..j + 1][..j] == ss[..j];
    } else {
      assert ss[..j] == ss;
    }
  }

  /** The command of visible sample `i` sits at position "number of visible
      samples before i", and it is a MoveTo exactly when `i` is the first
      sample or follows a culled one. */
  lemma PolylineAt(ss: seq<Sample>, i: nat)
    requires i < |ss| && Visible(ss[i])
    ensures CountVisible(ss[..i]) < |Polyline(ss)|
    ensures Polyline(ss)[CountVisible(ss[..i])].MoveTo? <==> (i == 0 || !Visible(ss[i - 1]))
    ensures Polyline(ss)[CountVisible(ss[..i])] == Command(ss[i], i > 0 && Visible(ss[i - 1]))
  {
    PolylinePrefix(ss, i + 1);
    PolylineLength(ss[..i]);
    assert ss[..i + 1][..i] == ss[..i];
  }

  /** A culled sample breaks the path: the line's commands are those of the
      part before it followed by those of the part after it, as if the two
      parts were separate lines; so no LineTo crosses a culled sample. */
  lemma {:induction false} PolylineBreaksAtCulled(a: seq<Sample>, c: Sample, b: seq<Sample>)
    requires !Visible(c)
    ensures Polyline(a + [c] + b) == Polyline(a) + Polyline(b)
    decreases |b|
  {
    var ss := a + [c] + b;
    if |b| == 0 {
      assert ss[..|ss| - 1] == a;
    } else {
      var b' := b[..|b| - 1];
      PolylineBreaksAtCulled(a, c, b');
      assert ss[..|ss| - 1] == a + [c] + b';
      assert b[..|b| - 1] == b';
    }
  }

  /** Every non-empty path starts with a MoveTo. */
  lemma {:induction false} PolylineStartsWithMoveTo(ss: seq<Sample>)
    requires |Polyline(ss)| > 0
    ensures Polyline(ss)[0].MoveTo?
    decreases |ss|
  {
    var n := |ss| - 1;
    if |Polyline(ss[..n])| > 0 {
      PolylineStartsWithMoveTo(ss[..n]);
    } else {
      PolylineLength(ss[..n]);
      if n > 0 {
        CountVisibleZero(ss[..n], n - 1);
      }
    }
  }

  /** With no visible sample counted, sample `i` is culled. */
  lemma {:induction false} CountVisibleZero(ss: seq<Sample>, i: nat)
    requires i < |ss| && CountVisible(ss) == 0
    ensures !Visible(ss[i])
    decreases |ss|
  {
    if i < |ss| - 1 {
      CountVisibleZero(ss[..|ss| - 1], i);
    }
  }

  /** A run of visible samples draws one connected piece: a MoveTo to the
      first sample and a LineTo to each later one. */
  lemma {:induction false} PolylineOfVisibleRun(ss: seq<Sample>)
    requires forall k :: 0 <= k < |ss| ==> Visible(ss[k])
    ensures |Polyline(ss)| == |ss|
    ensures |ss| > 0 ==> Polyline(ss)[0] == MoveTo(ss[0].sx, ss[0].sy)
    ensures forall k :: 0 < k < |ss| ==> Polyline(ss)[k] == LineTo(ss[k].sx, ss[k].sy)
    decreases |ss|
  {
    if |ss| > 0 {
      var n := |ss| - 1;
      PolylineOfVisibleRun(ss[..n]);
    }
  }
}
