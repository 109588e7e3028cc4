// Shared types, constants and the equirectangular projection of the C++ front end
// (wargames_cpp/include/Common.hpp). Single-precision floats are modelled as reals.

module Common {

  const SCREEN_WIDTH: int := 1920
  const SCREEN_HEIGHT: int := 1080

  /** An RGBA colour with components in [0, 1]. */
  datatype Color = Color(r: real, g: real, b: real, a: real)

  const BLACK: Color := Color(0.0, 0.0, 0.0, 1.0)
  const CYAN: Color := Color(0.0, 1.0, 1.0, 1.0)
  const DIM_CYAN: Color := Color(0.0, 0.4, 0.4, 1.0)
  const DARKER_CYAN: Color := Color(0.0, 0.3, 0.3, 1.0)
  const RED: Color := Color(1.0, 0.196, 0.196, 1.0)
  const WHITE: Color := Color(1.0, 1.0, 1.0, 1.0)

  /** A screen-space point in pixels. */
  datatype Point = Point(x: real, y: real)

  /** A geographic coordinate in degrees. */
  datatype LatLon = LatLon(lat: real, lon: real)

  predicate OnGlobe(c: LatLon) {
    -90.0 <= c.lat <= 90.0 && -180.0 <= c.lon <= 180.0
  }

  const TARGET_LOCATIONS: seq<LatLon> := [
    LatLon(55.7558, 37.6173),    // Moscow
    LatLon(39.9042, 116.4074),   // Beijing
    LatLon(35.6762, 139.6503),   // Tokyo
    LatLon(51.5074, -0.1278),    // London
    LatLon(48.8566, 2.3522),     // Paris
    LatLon(52.5200, 13.4050),    // Berlin
    LatLon(38.9072, -77.0369),   // Washington DC
    LatLon(40.7128, -74.0060),   // New York
    LatLon(34.0522, -118.2437),  // Los Angeles
    LatLon(41.8781, -87.6298),   // Chicago
    LatLon(29.7604, -95.3698),   // Houston
    LatLon(33.4484, -112.0740),  // Phoenix
    LatLon(37.7749, -122.4194),  // San Francisco
    LatLon(47.6062, -122.3321),  // Seattle
    LatLon(25.7617, -80.1918),   // Miami
    LatLon(32.7157, -117.1611),  // San Diego
    LatLon(42.3601, -71.0589),   // Boston
    LatLon(39.7392, -104.9903),  // Denver
    LatLon(45.5152, -122.6784),  // Portland
    LatLon(30.2672, -97.7431)    // Austin
  ]

  const WESTERN_TARGETS: seq<LatLon> := [
    LatLon(38.9, -77.0),      // Washington DC
    LatLon(40.71, -74.0),     // NYC
    LatLon(34.05, -118.24),   // LA
    LatLon(64.13, -21.89),    // Reykjavik
    LatLon(-34.6, -58.38)     // Buenos Aires
  ]

  const EASTERN_TARGETS: seq<LatLon> := [
    LatLon(55.75, 37.62),     // Moscow
    LatLon(51.5, -0.12),      // London
    LatLon(35.68, 139.76),    // Tokyo
    LatLon(39.9, 116.4),      // Beijing
    LatLon(-33.86, 151.2),    // Sydney
    LatLon(28.61, 77.21),     // Delhi
    LatLon(59.33, 18.07)      // Stockholm
  ]

  const SUBMARINE_POINTS: seq<LatLon> := [
    LatLon(35.0, -45.0),      // North Atlantic
    LatLon(45.0, -30.0),      // Mid Atlantic
    LatLon(60.0, -20.0),      // North Atlantic (near Iceland)
    LatLon(40.0, 160.0),      // North Pacific
    LatLon(25.0, -155.0),     // Central Pacific
    LatLon(50.0, -140.0),     // Northeast Pacific
    LatLon(10.0, 65.0),       // Indian Ocean
    LatLon(-30.0, 40.0),      // South Indian Ocean
    LatLon(70.0, 40.0),       // Barents Sea
    LatLon(55.0, 170.0),      // Bering Sea
    LatLon(15.0, -60.0),      // Caribbean
    LatLon(-45.0, -60.0)      // South Atlantic
  ]

  /** Every table holds the stated number of entries, all of them on the globe. */
  lemma TablesWellFormed()
    ensures |TARGET_LOCATIONS| == 20 && |WESTERN_TARGETS| == 5
    ensures |EASTERN_TARGETS| == 7 && |SUBMARINE_POINTS| == 12
    ensures forall k :: 0 <= k < |TARGET_LOCATIONS| ==> OnGlobe(TARGET_LOCATIONS[k])
    ensures forall k :: 0 <= k < |WESTERN_TARGETS| ==> OnGlobe(WESTERN_TARGETS[k])
    ensures forall k :: 0 <= k < |EASTERN_TARGETS| ==> OnGlobe(EASTERN_TARGETS[k])
    ensures forall k :: 0 <= k < |SUBMARINE_POINTS| ==> OnGlobe(SUBMARINE_POINTS[k])
  {
  }

  function Abs(v: real): (r: real)
    ensures r >= 0.0 && (r == v || r == -v)
  {
    if v < 0.0 then -v else v
  }

  /** The conversion of a float to an integer in C++ (static_cast<int>) and Python (int()):
      truncation toward zero. */
  function Trunc(v: real): (n: int)
    ensures v >= 0.0 ==> n as real <= v < n as real + 1.0
    ensures v < 0.0 ==> n as real - 1.0 < v <= n as real
  {
    if v >= 0.0 then v.Floor else -((-v).Floor)
  }

  /** lonlat_to_xy: equirectangular projection onto a width x height screen. */
  function LonLatToXY(lon: real, lat: real, width: int, height: int): (r: Point)
  {
    Point((lon + 180.0) / 360.0 * width as real, (90.0 - lat) / 180.0 * height as real)
  }

  /** The antimeridian maps to the left and right edges, the poles to the top and bottom
      edges, so north is at the top. */
  lemma LonLatToXYEdges(width: int, height: int)
    ensures LonLatToXY(-180.0, 0.0, width, height).x == 0.0
    ensures LonLatToXY(180.0, 0.0, width, height).x == width as real
    ensures LonLatToXY(0.0, 90.0, width, height).y == 0.0
    ensures LonLatToXY(0.0, -90.0, width, height).y == height as real
  {
  }

  /** x grows strictly with longitude and y falls strictly with latitude. */
  lemma LonLatToXYMonotone(lon1: real, lon2: real, lat1: real, lat2: real, width: int, height: int)
    requires width > 0 && height > 0
    ensures lon1 < lon2 ==> LonLatToXY(lon1, lat1, width, height).x < LonLatToXY(lon2, lat1, width, height).x
    ensures lat1 < lat2 ==> LonLatToXY(lon1, lat1, width, height).y > LonLatToXY(lon1, lat2, width, height).y
  {
    var w, h := width as real, height as real;
    if lon1 < lon2 {
      assert (lon2 + 180.0) / 360.0 - (lon1 + 180.0) / 360.0 > 0.0;
      MulPositive((lon2 + 180.0) / 360.0 - (lon1 + 180.0) / 360.0, w);
    }
    if lat1 < lat2 {
      assert (90.0 - lat1) / 180.0 - (90.0 - lat2) / 180.0 > 0.0;
      MulPositive((90.0 - lat1) / 180.0 - (90.0 - lat2) / 180.0, h);
    }
  }

  /** A coordinate on the globe projects inside the screen rectangle. */
  lemma LonLatToXYInBounds(c: LatLon, width: int, height: int)
    requires OnGlobe(c) && width >= 0 && height >= 0
    ensures 0.0 <= LonLatToXY(c.lon, c.lat, width, height).x <= width as real
    ensures 0.0 <= LonLatToXY(c.lon, c.lat, width, height).y <= height as real
  {
    var w, h := width as real, height as real;
    var fx, fy := (c.lon + 180.0) / 360.0, (90.0 - c.lat) / 180.0;
    assert 0.0 <= fx <= 1.0;
    assert 0.0 <= fy <= 1.0;
    UnitScale(fx, w);
    UnitScale(fy, h);
    assert LonLatToXY(c.lon, c.lat, width, height) == Point(fx * w, fy * h);
  }

  lemma MulPositive(a: real, b: real)
    requires a > 0.0 && b > 0.0
    ensures a * b > 0.0
  {
  }

  lemma UnitScale(f: real, s: real)
    requires 0.0 <= f <= 1.0 && s >= 0.0
    ensures 0.0 <= f * s <= s
  {
    assert f * s <= 1.0 * s by {
      assert (1.0 - f) * s >= 0.0;
    }
  }

  /** clamp: with lo <= hi the result lies in [lo, hi], equals the value when the value
      already does, and is the nearer bound otherwise. */
  function Clamp(value: real, lo: real, hi: real): (r: real)
    ensures lo <= hi ==> lo <= r <= hi
    ensures lo <= value <= hi ==> r == value
    ensures value < lo ==> r == lo
    ensures lo <= hi && value > hi ==> r == hi
  {
    if value < lo then lo else if value > hi then hi else value
  }

  /** Concatenation is associative; stated once so that proofs about logs that grow by
      appending need not re-derive it element by element. */
  lemma AppendAssoc<T>(a: seq<T>, b: seq<T>, c: seq<T>)
    ensures (a + b) + c == a + (b + c)
  {
  }

  /** No element occurs twice. */
  predicate Distinct<T(==)>(s: seq<T>) {
    forall i, j :: 0 <= i < j < |s| ==> s[i] != s[j]
  }

  /** The elements of s that pass keep, in their order (a Python list comprehension with a
      condition). */
  function Filter<T>(s: seq<T>, keep: T -> bool): (r: seq<T>)
  {
    if s == [] then [] else Filter(s[..|s| - 1], keep) + (if keep(s[|s| - 1]) then [s[|s| - 1]] else [])
  }

  /** The filtered sequence holds exactly the elements that pass, and no more of them. */
  lemma {:induction false} FilterMembers<T>(s: seq<T>, keep: T -> bool)
    ensures |Filter(s, keep)| <= |s|
    ensures forall x :: x in Filter(s, keep) ==> x in s && keep(x)
    ensures forall x :: x in s && keep(x) ==> x in Filter(s, keep)
  {
    if s != [] {
      var init := s[..|s| - 1];
      FilterMembers(init, keep);
      forall x
        ensures x in Filter(s, keep) <==> x in s && keep(x)
      {
        assert x in s <==> x in init || x == s[|s| - 1];
      }
    }
  }

  /** Filtering a concatenation filters each part. */
  lemma {:induction false} FilterAppend<T>(a: seq<T>, b: seq<T>, keep: T -> bool)
    ensures Filter(a + b, keep) == Filter(a, keep) + Filter(b, keep)
  {
    if b != [] {
      var init := b[..|b| - 1];
      assert (a + b)[..|a + b| - 1] == a + init;
      FilterAppend(a, init, keep);
      AppendAssoc(Filter(a, keep), Filter(init, keep), if keep(b[|b| - 1]) then [b[|b| - 1]] else []);
    } else {
      assert a + b == a;
    }
  }

  /** Filtering keeps distinct elements distinct. */
  lemma {:induction false} FilterDistinct<T>(s: seq<T>, keep: T -> bool)
    requires Distinct(s)
    ensures Distinct(Filter(s, keep))
  {
    if s != [] {
      var init := s[..|s| - 1];
      assert Distinct(init);
      FilterDistinct(init, keep);
      FilterMembers(init, keep);
      assert s[|s| - 1] !in init;
    }
  }

  /** Leaving out one element keeps the others distinct. */
  lemma DistinctDrop<T>(s: seq<T>, i: int)
    requires Distinct(s) && 0 <= i < |s|
    ensures Distinct(s[..i] + s[i + 1..])
  {
    var t := s[..i] + s[i + 1..];
    assert forall k :: 0 <= k < |t| ==> t[k] == (if k < i then s[k] else s[k + 1]);
  }

  /** A filter that every element passes changes nothing. */
  lemma {:induction false} FilterKeepsAll<T>(s: seq<T>, keep: T -> bool)
    requires forall k :: 0 <= k < |s| ==> keep(s[k])
    ensures Filter(s, keep) == s
  {
    if s != [] {
      var init := s[..|s| - 1];
      FilterKeepsAll(init, keep);
      assert init + [s[|s| - 1]] == s;
    }
  }

  /** Filtering out one element of a sequence without repeats shortens it by exactly one. */
  lemma {:induction false} FilterDropsOne<T>(s: seq<T>, keep: T -> bool, x: T)
    requires Distinct(s) && x in s
    requires forall y :: keep(y) <==> y != x
    ensures |Filter(s, keep)| == |s| - 1
  {
    var init, last := s[..|s| - 1], s[|s| - 1];
    assert s == init + [last];
    if last == x {
      forall k | 0 <= k < |init|
        ensures keep(init[k])
      {
        assert init[k] == s[k];
      }
      FilterKeepsAll(init, keep);
    } else {
      assert x in init;
      FilterDropsOne(init, keep, x);
    }
  }
}
