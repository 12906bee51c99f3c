/** The fixed geometry of the globe: graticule sample points in whole
    degrees, the per-frame polyline sweeps, and the landmark cities.
    The degree-to-radian Cartesian conversion is trigonometry and is kept
    abstract: the model works with the (latitude, longitude) pairs. */
module GlobeGeometry {

  /** A sample of the sphere in whole degrees. */
  datatype LatLng = LatLng(latDeg: int, lngDeg: int)

  /** A point in model or view space. */
  datatype Point3 = Point3(x: real, y: real, z: real)

  /** A named landmark, in decimal degrees. */
  datatype City = City(name: string, lat: real, lng: real)

  /** Parallels at -80, -60, ..., 80, each sampled every 12 degrees. */
  const Rings: nat := 9
  const RingSamples: nat := 30
  /** Meridians every 30 degrees, each sampled every 8 degrees from -90. */
  const Meridians: nat := 12
  const MeridianSamples: nat := 23
  const GridPointCount: nat := Rings * RingSamples + Meridians * MeridianSamples

  /** Position of sample `b` of parallel `a` in the grid. */
  function RingSlot(a: nat, b: nat): nat {
    RingSamples * a + b
  }

  /** Position of sample `b` of meridian `a` in the grid. */
  function MeridianSlot(a: nat, b: nat): nat {
    Rings * RingSamples + MeridianSamples * a + b
  }

  /** The grid generator: parallels first (latitude outer, longitude inner),
      then meridians (longitude outer, latitude inner). */
  method GridPoints() returns (pts: seq<LatLng>)
    ensures |pts| == GridPointCount == 546
    ensures forall a: nat, b: nat {:trigger RingSlot(a, b)} :: a < Rings && b < RingSamples ==>
              pts[RingSlot(a, b)] == LatLng(-80 + 20 * a, 12 * b)
    ensures forall a: nat, b: nat {:trigger MeridianSlot(a, b)} :: a < Meridians && b < MeridianSamples ==>
              pts[MeridianSlot(a, b)] == LatLng(-90 + 8 * b, 30 * a)
    ensures forall i :: 0 <= i < |pts| ==> -90 <= pts[i].latDeg <= 90 && 0 <= pts[i].lngDeg < 360
  {
    pts := [];
    var lat := -80;
    ghost var a: nat := 0;
    while lat <= 80
      invariant lat == -80 + 20 * a && a <= Rings
      invariant |pts| == RingSamples * a
      invariant forall a': nat, b: nat {:trigger RingSlot(a', b)} :: a' < a && b < RingSamples ==>
                  pts[RingSlot(a', b)] == LatLng(-80 + 20 * a', 12 * b)
      invariant forall i :: 0 <= i < |pts| ==> -90 <= pts[i].latDeg <= 90 && 0 <= pts[i].lngDeg < 360
    {
      var lng := 0;
      ghost var b: nat := 0;
      while lng < 360
        invariant lng == 12 * b && b <= RingSamples
        invariant |pts| == RingSamples * a + b
        invariant forall a': nat, b': nat {:trigger RingSlot(a', b')} :: a' < a && b' < RingSamples ==>
                    pts[RingSlot(a', b')] == LatLng(-80 + 20 * a', 12 * b')
        invariant forall b': nat :: b' < b ==> pts[RingSlot(a, b')] == LatLng(lat, 12 * b')
        invariant forall i :: 0 <= i < |pts| ==> -90 <= pts[i].latDeg <= 90 && 0 <= pts[i].lngDeg < 360
      {
        pts := pts + [LatLng(lat, lng)];
        lng := lng + 12;
        b := b + 1;
      }
      lat := lat + 20;
      a := a + 1;
    }

    var lng := 0;
    a := 0;
    while lng < 360
      invariant lng == 30 * a && a <= Meridians
      invariant |pts| == Rings * RingSamples + MeridianSamples * a
      invariant forall a': nat, b: nat {:trigger RingSlot(a', b)} :: a' < Rings && b < RingSamples ==>
                  pts[RingSlot(a', b)] == LatLng(-80 + 20 * a', 12 * b)
      invariant forall a': nat, b: nat {:trigger MeridianSlot(a', b)} :: a' < a && b < MeridianSamples ==>
                  pts[MeridianSlot(a', b)] == LatLng(-90 + 8 * b, 30 * a')
      invariant forall i :: 0 <= i < |pts| ==> -90 <= pts[i].latDeg <= 90 && 0 <= pts[i].lngDeg < 360
    {
      var lat := -90;
      ghost var b: nat := 0;
      while lat <= 90
        invariant lat == -90 + 8 * b && b <= MeridianSamples
        invariant |pts| == Rings * RingSamples + MeridianSamples * a + b
        invariant forall a': nat, b': nat {:trigger RingSlot(a', b')} :: a' < Rings && b' < RingSamples ==>
                    pts[RingSlot(a', b')] == LatLng(-80 + 20 * a', 12 * b')
        invariant forall a': nat, b': nat {:trigger MeridianSlot(a', b')} :: a' < a && b' < MeridianSamples ==>
                    pts[MeridianSlot(a', b')] == LatLng(-90 + 8 * b', 30 * a')
        invariant forall b': nat :: b' < b ==> pts[MeridianSlot(a, b')] == LatLng(-90 + 8 * b', lng)
        invariant forall i :: 0 <= i < |pts| ==> -90 <= pts[i].latDeg <= 90 && 0 <= pts[i].lngDeg < 360
      {
        pts := pts + [LatLng(lat, lng)];
        lat := lat + 8;
        b := b + 1;
      }
      lng := lng + 30;
      a := a + 1;
    }
  }

  /** The samples of one per-frame graticule line: parallels are swept in
      longitude from 0 to 360 inclusive, meridians in latitude from -90 to 90
      inclusive, both every 2 degrees. */
  method LineSweep(fixedDeg: int, parallel: bool) returns (line: seq<LatLng>)
    ensures |line| == (if parallel then 181 else 91)
    ensures parallel ==> forall k :: 0 <= k < |line| ==> line[k] == LatLng(fixedDeg, 2 * k)
    ensures !parallel ==> forall k :: 0 <= k < |line| ==> line[k] == LatLng(-90 + 2 * k, fixedDeg)
  {
    line := [];
    var v := if parallel then 0 else -90;
    var hi := if parallel then 360 else 90;
    while v <= hi
      invariant v == (if parallel then 0 else -90) + 2 * |line|
      invariant |line| <= (if parallel then 181 else 91)
      invariant parallel ==> forall k :: 0 <= k < |line| ==> line[k] == LatLng(fixedDeg, 2 * k)
      invariant !parallel ==> forall k :: 0 <= k < |line| ==> line[k] == LatLng(-90 + 2 * k, fixedDeg)
      decreases hi - v
    {
      line := line + [if parallel then LatLng(fixedDeg, v) else LatLng(v, fixedDeg)];
      v := v + 2;
    }
  }

  /** The per-frame graticule: parallels at -60, -30, 0, 30, 60, then
      meridians every 30 degrees of longitude, each sampled every 2 degrees. */
  method LineGrid() returns (lines: seq<seq<LatLng>>)
    ensures |lines| == 17
    ensures forall i :: 0 <= i < 5 ==> |lines[i]| == 181
    ensures forall i, k :: 0 <= i < 5 && 0 <= k < 181 ==> lines[i][k] == LatLng(-60 + 30 * i, 2 * k)
    ensures forall i :: 5 <= i < 17 ==> |lines[i]| == 91
    ensures forall i, k :: 5 <= i < 17 && 0 <= k < 91 ==> lines[i][k] == LatLng(-90 + 2 * k, 30 * (i - 5))
  {
    lines := [];
    var lat := -60;
    while lat <= 60
      invariant lat == -60 + 30 * |lines| && |lines| <= 5
      invariant forall i :: 0 <= i < |lines| ==> |lines[i]| == 181
      invariant forall i, k :: 0 <= i < |lines| && 0 <= k < 181 ==> lines[i][k] == LatLng(-60 + 30 * i, 2 * k)
    {
      var line := LineSweep(lat, true);
      lines := lines + [line];
      lat := lat + 30;
    }
    var lng := 0;
    while lng < 360
      invariant lng == 30 * (|lines| - 5) && 5 <= |lines| <= 17
      invariant forall i :: 0 <= i < 5 ==> |lines[i]| == 181
      invariant forall i, k :: 0 <= i < 5 && 0 <= k < 181 ==> lines[i][k] == LatLng(-60 + 30 * i, 2 * k)
      invariant forall i :: 5 <= i < |lines| ==> |lines[i]| == 91
      invariant forall i, k :: 5 <= i < |lines| && 0 <= k < 91 ==> lines[i][k] == LatLng(-90 + 2 * k, 30 * (i - 5))
    {
      var line := LineSweep(lng, false);
      lines := lines + [line];
      lng := lng + 30;
    }
  }

  /** The landmark that takes the highlighted drawing path. */
  const HomeCity: string := "Chennai"

  const Cities: seq<City> := [
    City("New York", 40.7128, -74.006),
    City("London", 51.5074, -0.1278),
    City("Tokyo", 35.6762, 139.6503),
    City("Sydney", -33.8688, 151.2093),
    City("Mumbai", 19.076, 72.8777),
    City("Chennai", 13.0827, 80.2707)
  ]

  predicate Highlighted(c: City) {
    c.name == HomeCity
  }

  /** Six landmarks, of which exactly the last one is highlighted. */
  lemma OnlyChennaiHighlighted()
    ensures |Cities| == 6
    ensures forall i :: 0 <= i < |Cities| ==> (Highlighted(Cities[i]) <==> i == 5)
    ensures Cities[5] == City("Chennai", 13.0827, 80.2707)
  {
  }
}
