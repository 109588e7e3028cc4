// The pygame front end (wargames_map.py): the integer projection, the two polyline splitters,
// the sampled missile path, the missile and explosion lifetimes, the intensity and CRT keys,
// and the frame's launch timers, impact check and filtering.

module PygameMap {
  import opened Common
  import opened Segmenting
  import opened Controls

  const DEFAULT_LAUNCH_INTERVAL: real := 2.5
  const DEFAULT_SUB_LAUNCH_INTERVAL: real := 4.0
  const MIN_LAUNCH_INTERVAL: real := 0.3
  const MAX_LAUNCH_INTERVAL: real := 10.0
  const MISSILE_FLIGHT_SECONDS: real := 12.0
  const EXPLOSION_DURATION: real := 2.5
  /** A missile path is sampled in 220 steps, so it has 221 points. */
  const MISSILE_ARC_STEPS: nat := 220
  /** The CRT mode when none is given on the command line (LIGHT). */
  const DEFAULT_CRT_MODE: int := 1

  /** The sites of land launches: the western targets followed by the eastern ones. */
  const POINTS: seq<LatLon> := WESTERN_TARGETS + EASTERN_TARGETS

  /** A screen position in whole pixels. */
  datatype Pixel = Pixel(x: int, y: int)

  /** A shapefile vertex, stored longitude first. */
  datatype Coord = Coord(lon: real, lat: real)

  // ---------------------------------------------------------------------------------------
  // Projection

  /** latlon_to_xy: the equirectangular projection with each coordinate truncated by int(). */
  function LatLonToXY(lat: real, lon: real, w: int, h: int): (r: Pixel)
  {
    Pixel(Trunc((lon + 180.0) / 360.0 * w as real), Trunc((90.0 - lat) / 180.0 * h as real))
  }

  function Project(c: LatLon, w: int, h: int): (r: Pixel)
  {
    LatLonToXY(c.lat, c.lon, w, h)
  }

  /** The pixel is the real-valued projection of the C++ front end truncated toward zero: a
      point on the globe lands on a pixel of [0, w] x [0, h], less than one pixel left of and
      above its exact position. */
  lemma ProjectTruncates(c: LatLon, w: int, h: int)
    requires OnGlobe(c) && w >= 0 && h >= 0
    ensures 0 <= Project(c, w, h).x <= w && 0 <= Project(c, w, h).y <= h
    ensures Project(c, w, h).x as real <= LonLatToXY(c.lon, c.lat, w, h).x < Project(c, w, h).x as real + 1.0
    ensures Project(c, w, h).y as real <= LonLatToXY(c.lon, c.lat, w, h).y < Project(c, w, h).y as real + 1.0
  {
    LonLatToXYInBounds(c, w, h);
  }

  /** project_coords: every vertex, read as (lon, lat), projected in order. */
  method ProjectCoords(coords: seq<Coord>, w: int, h: int) returns (points: seq<Pixel>)
    ensures |points| == |coords|
    ensures forall k :: 0 <= k < |coords| ==> points[k] == LatLonToXY(coords[k].lat, coords[k].lon, w, h)
  {
    points := [];
    for i := 0 to |coords|
      invariant |points| == i
      invariant forall k :: 0 <= k < i ==> points[k] == LatLonToXY(coords[k].lat, coords[k].lon, w, h)
    {
      var lon, lat := coords[i].lon, coords[i].lat;
      points := points + [LatLonToXY(lat, lon, w, h)];
    }
  }

  // ---------------------------------------------------------------------------------------
  // Splitting in geographic space

  /** Consecutive vertices more than 180 degrees of longitude apart: the shape crosses the
      antimeridian between them. */
  predicate LonJump(a: Coord, b: Coord)
  {
    Abs(b.lon - a.lon) > 180.0
  }

  /** crosses_antimeridian: whether some consecutive pair of vertices jumps in longitude. */
  method CrossesAntimeridian(coords: seq<Coord>) returns (r: bool)
    ensures r <==> exists i :: 0 <= i < |coords| - 1 && LonJump(coords[i], coords[i + 1])
  {
    var i := 0;
    while i < |coords| - 1
      invariant 0 <= i && (i == 0 || i <= |coords| - 1)
      invariant forall k :: 0 <= k < i ==> !LonJump(coords[k], coords[k + 1])
    {
      var lon1, lon2 := coords[i].lon, coords[i + 1].lon;
      if Abs(lon1 - lon2) > 180.0 {
        return true;
      }
      i := i + 1;
    }
    return false;
  }

  /** A shape crosses the antimeridian exactly when splitting it gives more than one
      segment. */
  lemma CrossesIffSeveralSegments(coords: seq<Coord>)
    requires coords != []
    ensures (exists i :: 0 <= i < |coords| - 1 && LonJump(coords[i], coords[i + 1]))
        <==> |Runs(coords, LonJump)| > 1
  {
    RunsShape(coords, LonJump);
    NoCrossingIffUnbroken(coords, LonJump);
  }

  /** split_at_antimeridian: a new segment starts at every jump and every vertex is kept, so
      the segments put back together give the shape, none is empty or jumps inside, and there
      is one more segment than there are jumps. */
  method SplitAtAntimeridian(coords: seq<Coord>) returns (segments: seq<seq<Coord>>)
    ensures segments == Runs(coords, LonJump)
    ensures Concat(segments) == coords
    ensures forall seg :: seg in segments ==> seg != [] && Unbroken(seg, LonJump)
    ensures |segments| == if coords == [] then 0 else CrossingCount(coords, LonJump) + 1
  {
    segments := [];
    var current: seq<Coord> := [];
    for i := 0 to |coords|
      invariant i == 0 ==> segments == [] && current == []
      invariant i > 0 ==> Scan(segments, current) == ScanRuns(coords[..i], LonJump)
    {
      if i > 0 {
        ScanSnoc(coords[..i], coords[i], LonJump);
        assert coords[..i][i - 1] == coords[i - 1];
        var prevLon := coords[i - 1].lon;
        if Abs(coords[i].lon - prevLon) > 180.0 {
          ScanFacts(coords[..i], LonJump);
          if current != [] {
            segments := segments + [current];
          }
          current := [];
        }
      }
      current := current + [coords[i]];
      assert coords[..i + 1] == coords[..i] + [coords[i]];
    }
    if coords != [] {
      assert coords[..|coords|] == coords;
      ScanFacts(coords, LonJump);
    }
    if current != [] {
      segments := segments + [current];
    }
    RunsConcat(coords, LonJump);
    RunsShape(coords, LonJump);
  }

  // ---------------------------------------------------------------------------------------
  // Splitting in screen space

  /** Consecutive points more than half the screen width apart horizontally: the path wraps
      around the screen edge between them. */
  function WrapJump(screenWidth: int): (Pixel, Pixel) -> bool
  {
    (p: Pixel, q: Pixel) => Abs((q.x - p.x) as real) > screenWidth as real * 0.5
  }

  /** What split_path_at_wrap returns: a path of fewer than two points as it is (a single
      point as one segment), otherwise its wrap-free runs of at least two points. */
  function WrapSegments(points: seq<Pixel>, screenWidth: int): (r: seq<seq<Pixel>>)
  {
    if |points| < 2 then (if points == [] then [] else [points]) else Split(points, WrapJump(screenWidth))
  }

  /** split_path_at_wrap: cuts at every wrap, keeping only runs of two points or more, except
      that a path of one point comes back as one segment. */
  method SplitPathAtWrap(points: seq<Pixel>, screenWidth: int) returns (segments: seq<seq<Pixel>>)
    ensures segments == WrapSegments(points, screenWidth)
  {
    if |points| < 2 {
      return if points == [] then [] else [points];
    }
    ghost var jump := WrapJump(screenWidth);
    segments := [];
    var current := [points[0]];
    var threshold := screenWidth as real * 0.5;
    var i := 1;
    while i < |points|
      invariant 1 <= i <= |points|
      invariant current == ScanRuns(points[..i], jump).open
      invariant segments == KeepLong(ScanRuns(points[..i], jump).closed)
    {
      segments, current := WrapScanStep(points, i, screenWidth, threshold, segments, current);
      i := i + 1;
    }
    assert points[..i] == points;
    KeepLongFinish(points, jump);
    KeepLongSingle(current);
    if |current| >= 2 {
      segments := segments + [current];
    }
  }

  /** The body of split_path_at_wrap's loop at point i: a wrap closes the current run, kept
      when it has two points or more, and starts a new run at point i; otherwise point i
      joins the current run. */
  method WrapScanStep(points: seq<Pixel>, i: int, screenWidth: int, threshold: real,
                      segments: seq<seq<Pixel>>, current: seq<Pixel>)
    returns (segments': seq<seq<Pixel>>, current': seq<Pixel>)
    requires 1 <= i < |points| && threshold == screenWidth as real * 0.5
    requires current == ScanRuns(points[..i], WrapJump(screenWidth)).open
    requires segments == KeepLong(ScanRuns(points[..i], WrapJump(screenWidth)).closed)
    ensures current' == ScanRuns(points[..i + 1], WrapJump(screenWidth)).open
    ensures segments' == KeepLong(ScanRuns(points[..i + 1], WrapJump(screenWidth)).closed)
  {
    WrapStep(points, i, screenWidth);
    var prevX, currX := points[i - 1].x, points[i].x;
    segments', current' := segments, current;
    if Abs((currX - prevX) as real) > threshold {
      if |current| >= 2 {
        segments' := segments + [current];
      }
      current' := [points[i]];
    } else {
      current' := current + [points[i]];
    }
  }

  /** One step of split_path_at_wrap's scan at point i: a wrap closes the current run, which
      is kept when it has two points or more, and starts a run at point i; otherwise point i
      joins the run. */
  lemma WrapStep(points: seq<Pixel>, i: int, screenWidth: int)
    requires 1 <= i < |points|
    ensures Abs((points[i].x - points[i - 1].x) as real) > screenWidth as real * 0.5 ==>
      KeepLong(ScanRuns(points[..i + 1], WrapJump(screenWidth)).closed)
        == KeepLong(ScanRuns(points[..i], WrapJump(screenWidth)).closed)
           + (if |ScanRuns(points[..i], WrapJump(screenWidth)).open| >= 2 then [ScanRuns(points[..i], WrapJump(screenWidth)).open] else []) &&
      ScanRuns(points[..i + 1], WrapJump(screenWidth)).open == [points[i]]
    ensures Abs((points[i].x - points[i - 1].x) as real) <= screenWidth as real * 0.5 ==>
      KeepLong(ScanRuns(points[..i + 1], WrapJump(screenWidth)).closed) == KeepLong(ScanRuns(points[..i], WrapJump(screenWidth)).closed) &&
      ScanRuns(points[..i + 1], WrapJump(screenWidth)).open == ScanRuns(points[..i], WrapJump(screenWidth)).open + [points[i]]
  {
    var jump, ps := WrapJump(screenWidth), points[..i];
    assert points[..i + 1] == ps + [points[i]];
    assert ps[|ps| - 1] == points[i - 1];
    assert jump(points[i - 1], points[i]) <==> Abs((points[i].x - points[i - 1].x) as real) > screenWidth as real * 0.5;
    KeepLongStep(ps, points[i], jump);
    KeepLongSingle(ScanRuns(ps, jump).open);
  }

  /** No consecutive points of the path are more than half the screen width apart. */
  predicate WrapFree(path: seq<Pixel>, screenWidth: int)
  {
    forall k :: 0 <= k < |path| - 1 ==> Abs((path[k + 1].x - path[k].x) as real) <= screenWidth as real * 0.5
  }

  /** No point comes back for an empty path and a lone point comes back as a segment of its
      own; from two points on every segment has at least two points and no jump of more than
      half the screen width, and a path without such a jump comes back whole. */
  lemma WrapSegmentsShape(points: seq<Pixel>, screenWidth: int)
    ensures points == [] ==> WrapSegments(points, screenWidth) == []
    ensures |points| == 1 ==> WrapSegments(points, screenWidth) == [points]
    ensures |points| >= 2 ==> forall seg :: seg in WrapSegments(points, screenWidth) ==>
      |seg| >= 2 && WrapFree(seg, screenWidth)
    ensures |points| >= 2 && WrapFree(points, screenWidth) ==> WrapSegments(points, screenWidth) == [points]
  {
    var jump := WrapJump(screenWidth);
    if |points| >= 2 {
      SplitSegments(points, jump);
      forall seg: seq<Pixel> | seg in Split(points, jump)
        ensures |seg| >= 2 && WrapFree(seg, screenWidth)
      {
        assert Unbroken(seg, jump);
        forall k | 0 <= k < |seg| - 1
          ensures Abs((seg[k + 1].x - seg[k].x) as real) <= screenWidth as real * 0.5
        {
          assert !jump(seg[k], seg[k + 1]);
        }
      }
      if WrapFree(points, screenWidth) {
        assert Unbroken(points, jump);
        SplitUnbroken(points, jump);
      }
    }
  }

  // ---------------------------------------------------------------------------------------
  // Missile paths

  /** The screen points of n + 1 evenly spaced samples along a path: sample i lies at the
      fraction i / n of the way. */
  function ArcPath(along: real -> LatLon, w: int, h: int, n: nat): (r: seq<Pixel>)
    requires n >= 1
  {
    seq(n + 1, i => Project(along(i as real / n as real), w, h))
  }

  /** arc_points: n + 1 samples of the geodesic, `along` giving the position at each fraction
      of its length; n must be at least one, as the fractions divide by n. */
  method ArcPoints(along: real -> LatLon, w: int, h: int, n: int) returns (pts: seq<Pixel>)
    requires n >= 1
    ensures pts == ArcPath(along, w, h, n)
  {
    pts := [];
    for i := 0 to n + 1
      invariant |pts| == i
      invariant forall k :: 0 <= k < i ==> pts[k] == Project(along(k as real / n as real), w, h)
    {
      var s := i as real / n as real;
      var pos := along(s);
      var p := LatLonToXY(pos.lat, pos.lon, w, h);
      pts := pts + [p];
    }
  }

  /** The samples run from the start of the path to its end, n + 1 of them (221 for a
      missile); a path that stays on the globe stays on the screen. */
  lemma ArcPathShape(along: real -> LatLon, w: int, h: int, n: nat)
    requires n >= 1
    ensures |ArcPath(along, w, h, n)| == n + 1
    ensures ArcPath(along, w, h, n)[0] == Project(along(0.0), w, h)
    ensures ArcPath(along, w, h, n)[n] == Project(along(1.0), w, h)
    ensures n == MISSILE_ARC_STEPS ==> |ArcPath(along, w, h, n)| == 221
    ensures (forall f :: 0.0 <= f <= 1.0 ==> OnGlobe(along(f))) && w >= 0 && h >= 0 ==>
      forall p :: p in ArcPath(along, w, h, n) ==> 0 <= p.x <= w && 0 <= p.y <= h
  {
    var path := ArcPath(along, w, h, n);
    assert n as real / n as real == 1.0;
    assert path[n] == Project(along(n as real / n as real), w, h);
    if (forall f :: 0.0 <= f <= 1.0 ==> OnGlobe(along(f))) && w >= 0 && h >= 0 {
      forall p | p in path
        ensures 0 <= p.x <= w && 0 <= p.y <= h
      {
        var i :| 0 <= i <= n && path[i] == p;
        Fraction(i, n);
        ProjectTruncates(along(i as real / n as real), w, h);
      }
    }
  }

  /** The i-th of n steps lies between the start and the end. */
  lemma Fraction(i: int, n: int)
    requires 0 <= i <= n && n >= 1
    ensures 0.0 <= i as real / n as real <= 1.0
  {
    var f := i as real / n as real;
    assert f * n as real == i as real;
  }

  // ---------------------------------------------------------------------------------------
  // Lifetimes

  /** A missile is drawn with the first k points of its path: max(2, int(p (len - 1))) for its
      progress p clamped to [0, 1]. */
  function TrailIndex(progress: real, len: int): (r: int)
  {
    AtLeastTwo(TruncScaled(Clamp(progress, 0.0, 1.0), (len - 1) as real))
  }

  /** int(f * s), kept as one term so that proofs about it compare like with like. */
  function TruncScaled(f: real, s: real): (r: int)
  {
    Trunc(f * s)
  }

  function AtLeastTwo(k: int): (r: int)
  {
    if 2 > k then 2 else k
  }

  /** The trail has between 2 and len points. */
  lemma TrailIndexRange(progress: real, len: int)
    requires len >= 2
    ensures 2 <= TrailIndex(progress, len) <= len
  {
    var span, p := (len - 1) as real, Clamp(progress, 0.0, 1.0);
    UnitScale(p, span);
    assert TruncScaled(p, span) as real <= p * span <= span;
  }

  /** The trail never shrinks as the progress grows. */
  lemma TrailIndexGrows(progress: real, later: real, len: int)
    requires len >= 2 && progress <= later
    ensures TrailIndex(progress, len) <= TrailIndex(later, len)
  {
    var span := (len - 1) as real;
    var p, q := Clamp(progress, 0.0, 1.0), Clamp(later, 0.0, 1.0);
    assert p <= q;
    ScaledGrows(p, q, span);
  }

  /** From arrival on the trail stops at len - 1 points, so the head blip at point k - 1 stays
      one sample short of the target at point len - 1. */
  lemma TrailIndexAtArrival(progress: real, len: int)
    requires len >= 3 && progress >= 1.0
    ensures TrailIndex(progress, len) == len - 1
  {
    assert Clamp(progress, 0.0, 1.0) == 1.0;
  }

  lemma ScaledGrows(p: real, q: real, span: real)
    requires 0.0 <= p <= q <= 1.0 && span >= 0.0
    ensures TruncScaled(p, span) <= TruncScaled(q, span)
  {
    UnitScale(p, span);
    ScaleMonotone(p, q, span);
    TruncMonotone(p * span, q * span);
  }

  lemma ScaleMonotone(p: real, q: real, s: real)
    requires p <= q && s >= 0.0
    ensures p * s <= q * s
  {
    assert q * s - p * s == (q - p) * s;
  }

  lemma TruncMonotone(a: real, b: real)
    requires 0.0 <= a <= b
    ensures Trunc(a) <= Trunc(b)
  {
  }

  /** An explosion of the pygame front end: where it is and when it started. */
  datatype Explosion = Explosion(x: int, y: int, t0: real)
  {
    function Progress(now: real): (r: real)
    {
      (now - t0) / EXPLOSION_DURATION
    }

    predicate Alive(now: real)
    {
      Progress(now) <= 1.0
    }
  }

  /** An explosion lasts 2.5 s from its start. */
  lemma ExplosionLifetime(e: Explosion, now: real)
    ensures e.Alive(now) <==> now - e.t0 <= EXPLOSION_DURATION
  {
  }

  // ---------------------------------------------------------------------------------------
  // Keyboard controls

  /** The two launch intervals: land launches and submarine launches. */
  datatype Intervals = Intervals(land: real, sub: real)

  const DEFAULT_INTERVALS: Intervals := Intervals(DEFAULT_LAUNCH_INTERVAL, DEFAULT_SUB_LAUNCH_INTERVAL)

  /** UP: 0.7 of the interval, but not below 0.3 s. */
  function Faster(interval: real): (r: real)
  {
    if MIN_LAUNCH_INTERVAL >= interval * 0.7 then MIN_LAUNCH_INTERVAL else interval * 0.7
  }

  /** DOWN: 1.4 times the interval, but not above 10 s. */
  function Slower(interval: real): (r: real)
  {
    if MAX_LAUNCH_INTERVAL <= interval * 1.4 then MAX_LAUNCH_INTERVAL else interval * 1.4
  }

  /** UP and DOWN scale both intervals, R restores both defaults, other keys leave them. */
  function NextIntervals(iv: Intervals, key: Key): (r: Intervals)
  {
    match key
    case Up => Intervals(Faster(iv.land), Faster(iv.sub))
    case Down => Intervals(Slower(iv.land), Slower(iv.sub))
    case KeyR => DEFAULT_INTERVALS
    case _ => iv
  }

  predicate IntervalsInRange(iv: Intervals)
  {
    MIN_LAUNCH_INTERVAL <= iv.land <= MAX_LAUNCH_INTERVAL && MIN_LAUNCH_INTERVAL <= iv.sub <= MAX_LAUNCH_INTERVAL
  }

  /** The intervals after a sequence of key presses. */
  function IntervalsAfter(iv: Intervals, keys: seq<Key>): (r: Intervals)
  {
    if keys == [] then iv else NextIntervals(IntervalsAfter(iv, keys[..|keys| - 1]), keys[|keys| - 1])
  }

  /** One key press keeps both intervals in [0.3, 10]; UP never lengthens them and DOWN never
      shortens them. */
  lemma NextIntervalsBounds(iv: Intervals, key: Key)
    requires IntervalsInRange(iv)
    ensures IntervalsInRange(NextIntervals(iv, key))
    ensures key == Up ==> NextIntervals(iv, key).land <= iv.land && NextIntervals(iv, key).sub <= iv.sub
    ensures key == Down ==> NextIntervals(iv, key).land >= iv.land && NextIntervals(iv, key).sub >= iv.sub
  {
  }

  /** From the defaults, both intervals stay in [0.3, 10] whatever keys are pressed. */
  lemma {:induction false} IntervalsAlwaysInRange(keys: seq<Key>)
    ensures IntervalsInRange(IntervalsAfter(DEFAULT_INTERVALS, keys))
  {
    if keys != [] {
      IntervalsAlwaysInRange(keys[..|keys| - 1]);
      NextIntervalsBounds(IntervalsAfter(DEFAULT_INTERVALS, keys[..|keys| - 1]), keys[|keys| - 1]);
    }
  }

  /** C: the CRT mode index steps through 0, 1, 2 and back to 0. */
  function NextCrt(mode: int): (r: int)
  {
    (mode + 1) % 3
  }

  /** The index of a CRT mode in the list of mode names OFF, LIGHT, FULL. */
  function CrtIndex(mode: CrtMode): (r: int)
  {
    match mode
    case Off => 0
    case Light => 1
    case Full => 2
  }

  /** C steps through the same cycle OFF, LIGHT, FULL as in the C++ front end, every index
      stays in [0, 2] and three presses bring any mode back. */
  lemma CrtCycle(mode: CrtMode)
    ensures NextCrt(CrtIndex(mode)) == CrtIndex(NextCrtMode(mode))
    ensures 0 <= NextCrt(CrtIndex(mode)) <= 2
    ensures NextCrt(NextCrt(NextCrt(CrtIndex(mode)))) == CrtIndex(mode)
    ensures CrtIndex(Light) == DEFAULT_CRT_MODE
  {
  }

  /** The events that end the main loop: closing the window, ESC and Q. */
  predicate Quits(ev: Event)
  {
    ev == Quit || ev == KeyDown(Escape) || ev == KeyDown(KeyQ)
  }

  /** A launch timer fires once strictly more than its interval has passed since the last
      launch. */
  predicate LaunchDue(now: real, last: real, interval: real)
  {
    now - last > interval
  }

  // ---------------------------------------------------------------------------------------
  // Missiles

  /** A missile of the pygame front end (the land-launched Missile and the SubmarineMissile
      share this state and logic): where it flies from and to, when it was launched, its
      sampled path on a screen of the given width, and whether it has left its explosion. */
  class Missile {
    const start: LatLon
    const end: LatLon
    const t0: real
    const path: seq<Pixel>
    const w: int
    var exploded: bool

    /** The path holds the 221 samples of the arc. */
    predicate Valid()
    {
      |path| == MISSILE_ARC_STEPS + 1
    }

    /** A new missile: its path is the geodesic from start to end sampled in 220 steps, and it
        has not exploded. */
    constructor(start: LatLon, end: LatLon, created: real, w: int, h: int,
                geodesic: (LatLon, LatLon) -> (real -> LatLon))
      ensures Valid() && !exploded
      ensures this.start == start && this.end == end && t0 == created && this.w == w
      ensures path == ArcPath(geodesic(start, end), w, h, MISSILE_ARC_STEPS)
    {
      var pts := ArcPoints(geodesic(start, end), w, h, MISSILE_ARC_STEPS);
      ArcPathShape(geodesic(start, end), w, h, MISSILE_ARC_STEPS);
      this.start := start;
      this.end := end;
      t0 := created;
      path := pts;
      this.w := w;
      exploded := false;
    }

    function Progress(now: real): (r: real)
    {
      (now - t0) / MISSILE_FLIGHT_SECONDS
    }

    predicate Alive(now: real)
    {
      Progress(now) <= 1.05
    }

    /** What draw shows at `now`: the first k points of the path cut at screen wraps, the head
        blip at point k - 1, the start marker (for a submarine missile, its icon) at the first
        point, and the target marker once the clamped progress passes 0.85. */
    method DrawPlan(now: real) returns (trail: seq<seq<Pixel>>, head: Pixel, startMark: Pixel, marker: bool)
      requires Valid()
      ensures 2 <= TrailIndex(Progress(now), |path|) <= |path|
      ensures trail == WrapSegments(path[..TrailIndex(Progress(now), |path|)], w)
      ensures head == path[TrailIndex(Progress(now), |path|) - 1]
      ensures startMark == path[0]
      ensures marker <==> Progress(now) > 0.85
    {
      var p := Clamp(Progress(now), 0.0, 1.0);
      var k := AtLeastTwo(TruncScaled(p, (|path| - 1) as real));
      TrailIndexRange(Progress(now), |path|);
      trail := SplitPathAtWrap(path[..k], w);
      head := path[k - 1];
      startMark := path[0];
      marker := p > 0.85;
    }
  }

  /** A missile reaches its target 12 s after launch and is dropped 0.6 s later, so it is only
      ever dropped after reaching its target. */
  lemma MissileLifetime(m: Missile, now: real)
    ensures m.Progress(now) >= 1.0 <==> now - m.t0 >= MISSILE_FLIGHT_SECONDS
    ensures m.Alive(now) <==> now - m.t0 <= 12.6
    ensures !m.Alive(now) ==> m.Progress(now) >= 1.0
  {
  }

  /** All the missiles carry full paths, and none is listed twice. */
  predicate Fleet(ms: seq<Missile>)
  {
    (forall k :: 0 <= k < |ms| ==> ms[k].Valid()) && Distinct(ms)
  }

  /** Whether a missile with the given exploded mark spawns its explosion at `now`: it has
      reached its target and has not exploded before. */
  predicate Impact(m: Missile, exploded: bool, now: real)
  {
    m.Progress(now) >= 1.0 && !exploded
  }

  /** The explosion a missile leaves: at the last point of its path, starting at `now`. */
  function BlastAt(m: Missile, now: real): (r: Explosion)
    requires m.Valid()
  {
    Explosion(m.path[|m.path| - 1].x, m.path[|m.path| - 1].y, now)
  }

  /** The explosions the impact check spawns at `now`, in the missiles' order, given each
      missile's exploded mark. */
  function Blasts(ms: seq<Missile>, marks: seq<bool>, now: real): (r: seq<Explosion>)
    requires |marks| == |ms| && forall k :: 0 <= k < |ms| ==> ms[k].Valid()
  {
    if ms == [] then []
    else
      Blasts(ms[..|ms| - 1], marks[..|ms| - 1], now)
      + (if Impact(ms[|ms| - 1], marks[|ms| - 1], now) then [BlastAt(ms[|ms| - 1], now)] else [])
  }

  /** The exploded marks after the impact check at `now`. */
  function Marked(ms: seq<Missile>, marks: seq<bool>, now: real): (r: seq<bool>)
    requires |marks| == |ms|
  {
    seq(|ms|, k requires 0 <= k < |ms| => marks[k] || ms[k].Progress(now) >= 1.0)
  }

  /** The exploded mark of each missile. */
  ghost function Marks(ms: seq<Missile>): (r: seq<bool>)
    reads ms
    ensures |r| == |ms| && forall k {:trigger r[k]} :: 0 <= k < |ms| ==> r[k] == ms[k].exploded
  {
    seq(|ms|, k requires 0 <= k < |ms| reads ms => ms[k].exploded)
  }

  /** A missile's exploded mark during the impact check: once the check has passed it, the mark
      it had or whether it has reached its target. */
  function Checked(m: Missile, mark: bool, passed: bool, now: real): (r: bool)
  {
    if passed then mark || m.Progress(now) >= 1.0 else mark
  }

  /** The number of missiles not yet marked as exploded. */
  function Unexploded(marks: seq<bool>): (r: nat)
  {
    if marks == [] then 0 else Unexploded(marks[..|marks| - 1]) + (if marks[|marks| - 1] then 0 else 1)
  }

  /** The check spawns one explosion for every missile it newly marks: the explosions spawned
      and the missiles left unmarked add up to those unmarked before. */
  lemma {:induction false} BlastsSpendMarks(ms: seq<Missile>, marks: seq<bool>, now: real)
    requires |marks| == |ms| && forall k :: 0 <= k < |ms| ==> ms[k].Valid()
    ensures |Blasts(ms, marks, now)| + Unexploded(Marked(ms, marks, now)) == Unexploded(marks)
  {
    if ms != [] {
      var n := |ms| - 1;
      BlastsSpendMarks(ms[..n], marks[..n], now);
      assert Marked(ms, marks, now)[..n] == Marked(ms[..n], marks[..n], now);
    }
  }

  /** The explosions spawned by the impact checks at a run of frame times. */
  function BlastsOver(ms: seq<Missile>, marks: seq<bool>, times: seq<real>): (r: seq<Explosion>)
    requires |marks| == |ms| && forall k :: 0 <= k < |ms| ==> ms[k].Valid()
    decreases |times|
  {
    if times == [] then []
    else Blasts(ms, marks, times[0]) + BlastsOver(ms, Marked(ms, marks, times[0]), times[1..])
  }

  /** However many frames run, the missiles spawn no more explosions than there were missiles
      not yet exploded: each missile explodes at most once. */
  lemma {:induction false} AtMostOnce(ms: seq<Missile>, marks: seq<bool>, times: seq<real>)
    requires |marks| == |ms| && forall k :: 0 <= k < |ms| ==> ms[k].Valid()
    ensures |BlastsOver(ms, marks, times)| <= Unexploded(marks) <= |ms|
    decreases |times|
  {
    UnexplodedAtMost(marks);
    if times != [] {
      BlastsSpendMarks(ms, marks, times[0]);
      AtMostOnce(ms, Marked(ms, marks, times[0]), times[1..]);
    }
  }

  lemma {:induction false} UnexplodedAtMost(marks: seq<bool>)
    ensures Unexploded(marks) <= |marks|
  {
    if marks != [] {
      UnexplodedAtMost(marks[..|marks| - 1]);
    }
  }

  /** Every spawned explosion is the one a missile that has just reached its target, and had
      not exploded, leaves at the end of its path; a second check at the same time spawns
      nothing. */
  lemma {:induction false} BlastsAtTargets(ms: seq<Missile>, marks: seq<bool>, now: real)
    requires |marks| == |ms| && forall k :: 0 <= k < |ms| ==> ms[k].Valid()
    ensures forall e :: e in Blasts(ms, marks, now) ==>
      exists k :: 0 <= k < |ms| && Impact(ms[k], marks[k], now) && e == BlastAt(ms[k], now)
    ensures Blasts(ms, Marked(ms, marks, now), now) == []
  {
    if ms != [] {
      var n := |ms| - 1;
      BlastsAtTargets(ms[..n], marks[..n], now);
      assert Marked(ms, marks, now)[..n] == Marked(ms[..n], marks[..n], now);
      forall e | e in Blasts(ms, marks, now)
        ensures exists k :: 0 <= k < |ms| && Impact(ms[k], marks[k], now) && e == BlastAt(ms[k], now)
      {
        if e in Blasts(ms[..n], marks[..n], now) {
          var k :| 0 <= k < n && Impact(ms[..n][k], marks[..n][k], now) && e == BlastAt(ms[..n][k], now);
          assert ms[..n][k] == ms[k] && marks[..n][k] == marks[k];
        } else {
          assert Impact(ms[n], marks[n], now) && e == BlastAt(ms[n], now);
        }
      }
    }
  }

  /** The check over two lists in turn is the check over the two lists together. */
  lemma {:induction false} BlastsAppend(a: seq<Missile>, ma: seq<bool>, b: seq<Missile>, mb: seq<bool>, now: real)
    requires |ma| == |a| && |mb| == |b|
    requires forall k :: 0 <= k < |a| ==> a[k].Valid()
    requires forall k :: 0 <= k < |b| ==> b[k].Valid()
    requires forall k :: 0 <= k < |a + b| ==> (a + b)[k].Valid()
    ensures Blasts(a + b, ma + mb, now) == Blasts(a, ma, now) + Blasts(b, mb, now)
  {
    if b == [] {
      assert a + b == a && ma + mb == ma;
    } else {
      var n := |b| - 1;
      assert (a + b)[..|a| + n] == a + b[..n];
      assert (ma + mb)[..|a| + n] == ma + mb[..n];
      assert (a + b)[|a| + n] == b[n] && (ma + mb)[|a| + n] == mb[n];
      BlastsAppend(a, ma, b[..n], mb[..n], now);
    }
  }

  /** The check over the first i + 1 missiles is the check over the first i, then missile i. */
  lemma BlastsSnoc(ms: seq<Missile>, marks: seq<bool>, i: int, now: real)
    requires |marks| == |ms| && forall k :: 0 <= k < |ms| ==> ms[k].Valid()
    requires 0 <= i < |ms|
    ensures Blasts(ms[..i + 1], marks[..i + 1], now)
      == Blasts(ms[..i], marks[..i], now) + (if Impact(ms[i], marks[i], now) then [BlastAt(ms[i], now)] else [])
  {
    assert ms[..i + 1][..i] == ms[..i] && marks[..i + 1][..i] == marks[..i];
  }

  /** The marks of two lists together are the marks of each. */
  lemma MarksAppend(a: seq<Missile>, b: seq<Missile>)
    ensures Marks(a + b) == Marks(a) + Marks(b)
  {
  }

  /** Marking two lists in turn is marking the two lists together. */
  lemma MarkedAppend(a: seq<Missile>, ma: seq<bool>, b: seq<Missile>, mb: seq<bool>, now: real)
    requires |ma| == |a| && |mb| == |b|
    ensures Marked(a + b, ma + mb, now) == Marked(a, ma, now) + Marked(b, mb, now)
  {
  }

  /** The parts of a fleet are fleets, and no missile is in both. */
  lemma FleetParts(a: seq<Missile>, b: seq<Missile>)
    requires Fleet(a + b)
    ensures Fleet(a) && Fleet(b)
    ensures forall k :: 0 <= k < |b| ==> b[k] !in a
    ensures forall k :: 0 <= k < |a| ==> a[k] !in b
  {
    assert forall k :: 0 <= k < |a| ==> a[k] == (a + b)[k];
    assert forall k :: 0 <= k < |b| ==> b[k] == (a + b)[|a| + k];
  }

  // ---------------------------------------------------------------------------------------
  // The main loop

  /** The missiles still alive at `now`. */
  function AliveAt(now: real): (r: Missile -> bool)
  {
    (m: Missile) => m.Alive(now)
  }

  /** The explosions still alive at `now`. */
  function BurningAt(now: real): (r: Explosion -> bool)
  {
    (e: Explosion) => e.Alive(now)
  }

  /** A list after its launch timer: the new missile joins it when the timer is due. */
  function Join(ms: seq<Missile>, due: bool, m: Missile): (r: seq<Missile>)
  {
    if due then ms + [m] else ms
  }

  /** Launching keeps a fleet a fleet, whichever timers fire. */
  lemma JoinFleet(a: seq<Missile>, land: Missile, b: seq<Missile>, sub: Missile, landDue: bool, subDue: bool)
    requires Fleet((a + [land]) + (b + [sub]))
    ensures Fleet(Join(a, landDue, land) + Join(b, subDue, sub))
  {
    var s := (a + [land]) + (b + [sub]);
    var t := Join(a, landDue, land) + Join(b, subDue, sub);
    assert forall x :: x in t ==> x in s;
    if !subDue {
      DistinctDrop(s, |s| - 1);
      assert s[..|s| - 1] + s[|s|..] == (a + [land]) + b;
      s := (a + [land]) + b;
    }
    if !landDue {
      DistinctDrop(s, |a|);
      assert s[..|a|] + s[|a| + 1..] == a + Join(b, subDue, sub);
    } else {
      assert s == t;
    }
  }

  /** Once every missile that has reached its target is marked, a missile the filter drops
      has exploded. */
  lemma DroppedHaveExploded(all: seq<Missile>, kept: seq<Missile>, marks: seq<bool>, now: real)
    requires |marks| == |all| && Marks(all) == Marked(all, marks, now)
    requires kept == Filter(all, AliveAt(now))
    ensures forall m :: m in all && m !in kept ==> m.exploded
  {
    FilterMembers<Missile>(all, AliveAt(now));
    forall m | m in all && m !in kept
      ensures m.exploded
    {
      var k :| 0 <= k < |all| && all[k] == m;
      MissileLifetime(m, now);
      assert Marked(all, marks, now)[k];
    }
  }

  /** The state of the pygame main loop. */
  class Game {
    var running: bool
    var crtMode: int
    var intervals: Intervals
    var lastLaunch: real
    var lastSubLaunch: real
    var missiles: seq<Missile>
    var subMissiles: seq<Missile>
    var explosions: seq<Explosion>

    /** The CRT mode is one of the three, both intervals lie in [0.3, 10], and the missiles of
        the two lists carry full paths and are all distinct. */
    ghost predicate Valid()
      reads this`crtMode, this`intervals, this`missiles, this`subMissiles
    {
      0 <= crtMode <= 2 && IntervalsInRange(intervals) && Fleet(missiles + subMissiles)
    }

    /** The state before the first frame, with the CRT mode given on the command line (one of
        0, 1 and 2). */
    constructor(crt: int)
      requires 0 <= crt <= 2
      ensures Valid()
      ensures running && crtMode == crt && intervals == DEFAULT_INTERVALS
      ensures lastLaunch == 0.0 && lastSubLaunch == 0.0
      ensures missiles == [] && subMissiles == [] && explosions == []
    {
      running := true;
      crtMode := crt;
      intervals := DEFAULT_INTERVALS;
      lastLaunch := 0.0;
      lastSubLaunch := 0.0;
      missiles := [];
      subMissiles := [];
      explosions := [];
    }

    /** One event: closing the window, ESC and Q stop the loop; UP, DOWN and R change both
        intervals; SPACE adds a burst of five land and three submarine missiles, new ones each
        launched within half a second of the frame time `now`; C steps the CRT mode; other
        keys change nothing here. */
    method HandleEvent(ev: Event, now: real, burst: seq<Missile>, subBurst: seq<Missile>)
      requires Valid()
      requires ev == KeyDown(Space) ==> |burst| == 5 && |subBurst| == 3 && Fleet((missiles + burst) + (subMissiles + subBurst))
      requires ev == KeyDown(Space) ==> forall k :: 0 <= k < |burst| ==> !burst[k].exploded && now <= burst[k].t0 < now + 0.5
      requires ev == KeyDown(Space) ==> forall k :: 0 <= k < |subBurst| ==> !subBurst[k].exploded && now <= subBurst[k].t0 < now + 0.5
      modifies this`running, this`crtMode, this`intervals, this`missiles, this`subMissiles
      ensures Valid()
      ensures running == (old(running) && !Quits(ev))
      ensures intervals == (if ev.KeyDown? then NextIntervals(old(intervals), ev.key) else old(intervals))
      ensures crtMode == (if ev == KeyDown(KeyC) then NextCrt(old(crtMode)) else old(crtMode))
      ensures missiles == old(missiles) + (if ev == KeyDown(Space) then burst else [])
      ensures subMissiles == old(subMissiles) + (if ev == KeyDown(Space) then subBurst else [])
    {
      match ev {
        case Quit =>
          running := false;
        case KeyDown(key) =>
          NextIntervalsBounds(intervals, key);
          match key {
            case Escape =>
              running := false;
            case KeyQ =>
              running := false;
            case Up =>
              intervals := Intervals(Faster(intervals.land), Faster(intervals.sub));
            case Down =>
              intervals := Intervals(Slower(intervals.land), Slower(intervals.sub));
            case KeyR =>
              intervals := DEFAULT_INTERVALS;
            case Space =>
              missiles := missiles + burst;
              subMissiles := subMissiles + subBurst;
            case KeyC =>
              crtMode := NextCrt(crtMode);
            case _ =>
          }
      }
      assert missiles + subMissiles == old(missiles) + (if ev == KeyDown(Space) then burst else [])
        + (subMissiles);
    }

    /** One frame at time `now`: each launch timer that is due launches its missile (`land`,
        `sub`, new ones created at `now`) and restarts; every missile that has reached its target and not yet exploded
        leaves an explosion at the end of its path and is marked; then the missiles and
        explosions no longer alive are dropped, none of the dropped missiles unexploded. */
    method Tick(now: real, land: Missile, sub: Missile) returns (ghost flying: seq<Missile>, ghost blasts: seq<Explosion>)
      requires Valid()
      requires Fleet((missiles + [land]) + (subMissiles + [sub]))
      requires land.t0 == now && !land.exploded && sub.t0 == now && !sub.exploded
      modifies this`lastLaunch, this`lastSubLaunch, this`missiles, this`subMissiles, this`explosions
      modifies missiles, subMissiles, land, sub
      ensures Valid()
      ensures lastLaunch == (if LaunchDue(now, old(lastLaunch), intervals.land) then now else old(lastLaunch))
      ensures lastSubLaunch == (if LaunchDue(now, old(lastSubLaunch), intervals.sub) then now else old(lastSubLaunch))
      ensures flying == Join(old(missiles), LaunchDue(now, old(lastLaunch), intervals.land), land)
                        + Join(old(subMissiles), LaunchDue(now, old(lastSubLaunch), intervals.sub), sub)
      ensures missiles == Filter(Join(old(missiles), LaunchDue(now, old(lastLaunch), intervals.land), land), AliveAt(now))
      ensures subMissiles == Filter(Join(old(subMissiles), LaunchDue(now, old(lastSubLaunch), intervals.sub), sub), AliveAt(now))
      ensures missiles + subMissiles == Filter(flying, AliveAt(now))
      ensures Fleet(flying) && blasts == Blasts(flying, old(Marks(flying)), now)
      ensures Marks(flying) == Marked(flying, old(Marks(flying)), now)
      ensures explosions == Filter(old(explosions) + blasts, BurningAt(now))
      ensures forall m :: m in flying && m !in missiles + subMissiles ==> m.exploded
    {
      ghost var landJoined := Join(missiles, LaunchDue(now, lastLaunch, intervals.land), land);
      ghost var subJoined := Join(subMissiles, LaunchDue(now, lastSubLaunch, intervals.sub), sub);
      ghost var marks := Marks(landJoined + subJoined);
      LaunchTimers(now, land, sub);
      assert missiles == landJoined && subMissiles == subJoined;
      assert Marks(landJoined + subJoined) == marks;
      flying, blasts := Impacts(now);
      assert missiles == Filter(landJoined, AliveAt(now)) && subMissiles == Filter(subJoined, AliveAt(now));
    }

    /** The part of a frame after the launches: the impact check, then the filters. */
    method Impacts(now: real) returns (ghost flying: seq<Missile>, ghost blasts: seq<Explosion>)
      requires Valid()
      modifies this`missiles, this`subMissiles, this`explosions, missiles, subMissiles
      ensures Valid()
      ensures flying == old(missiles + subMissiles)
      ensures missiles == Filter(old(missiles), AliveAt(now))
      ensures subMissiles == Filter(old(subMissiles), AliveAt(now))
      ensures missiles + subMissiles == Filter(flying, AliveAt(now))
      ensures Fleet(flying) && blasts == Blasts(flying, old(Marks(flying)), now)
      ensures Marks(flying) == Marked(flying, old(Marks(flying)), now)
      ensures explosions == Filter(old(explosions) + blasts, BurningAt(now))
      ensures forall m :: m in flying && m !in missiles + subMissiles ==> m.exploded
    {
      flying := missiles + subMissiles;
      ghost var marks := Marks(flying);
      blasts := CheckImpacts(now);
      Prune(now);
      DroppedHaveExploded(flying, missiles + subMissiles, marks, now);
    }

    /** The launch timers, land first: a due timer launches its missile and restarts at
        `now`. */
    method LaunchTimers(now: real, land: Missile, sub: Missile)
      requires Valid() && Fleet((missiles + [land]) + (subMissiles + [sub]))
      requires land.t0 == now && !land.exploded && sub.t0 == now && !sub.exploded
      modifies this`lastLaunch, this`lastSubLaunch, this`missiles, this`subMissiles
      ensures Valid()
      ensures lastLaunch == (if LaunchDue(now, old(lastLaunch), intervals.land) then now else old(lastLaunch))
      ensures lastSubLaunch == (if LaunchDue(now, old(lastSubLaunch), intervals.sub) then now else old(lastSubLaunch))
      ensures missiles == Join(old(missiles), LaunchDue(now, old(lastLaunch), intervals.land), land)
      ensures subMissiles == Join(old(subMissiles), LaunchDue(now, old(lastSubLaunch), intervals.sub), sub)
    {
      JoinFleet(missiles, land, subMissiles, sub, LaunchDue(now, lastLaunch, intervals.land),
        LaunchDue(now, lastSubLaunch, intervals.sub));
      if now - lastLaunch > intervals.land {
        missiles := missiles + [land];
        lastLaunch := now;
      }
      if now - lastSubLaunch > intervals.sub {
        subMissiles := subMissiles + [sub];
        lastSubLaunch := now;
      }
    }

    /** The impact check over the land missiles, then the submarine missiles. */
    method CheckImpacts(now: real) returns (ghost blasts: seq<Explosion>)
      requires Fleet(missiles + subMissiles)
      modifies this`explosions, missiles, subMissiles
      ensures blasts == Blasts(missiles + subMissiles, old(Marks(missiles + subMissiles)), now)
      ensures explosions == old(explosions) + blasts
      ensures Marks(missiles + subMissiles) == Marked(missiles + subMissiles, old(Marks(missiles + subMissiles)), now)
    {
      FleetParts(missiles, subMissiles);
      MarksAppend(missiles, subMissiles);
      ghost var ma, mb := Marks(missiles), Marks(subMissiles);
      ghost var e0 := explosions;
      CheckList(missiles, now, subMissiles);
      ghost var e1 := explosions;
      CheckList(subMissiles, now, missiles);
      BlastsAppend(missiles, ma, subMissiles, mb, now);
      MarkedAppend(missiles, ma, subMissiles, mb, now);
      MarksAppend(missiles, subMissiles);
      blasts := Blasts(missiles + subMissiles, ma + mb, now);
      AppendAssoc(e0, Blasts(missiles, ma, now), Blasts(subMissiles, mb, now));
    }

    /** One loop of the impact check: each missile of the list that has reached its target
        and not yet exploded appends its explosion and is marked; missiles of other lists are
        left as they were. */
    method CheckList(ms: seq<Missile>, now: real, ghost others: seq<Missile>)
      requires Fleet(ms) && forall k :: 0 <= k < |others| ==> others[k] !in ms
      modifies this`explosions, ms
      ensures explosions == old(explosions) + Blasts(ms, old(Marks(ms)), now)
      ensures Marks(ms) == Marked(ms, old(Marks(ms)), now)
      ensures Marks(others) == old(Marks(others))
    {
      ghost var marks := Marks(ms);
      for i := 0 to |ms|
        invariant explosions == old(explosions) + Blasts(ms[..i], marks[..i], now)
        invariant forall k :: 0 <= k < |ms| ==> ms[k].exploded == Checked(ms[k], marks[k], k < i, now)
      {
        CheckAt(ms, i, now, marks, old(explosions));
      }
      assert ms[..|ms|] == ms && marks[..|ms|] == marks;
    }

    /** The body of the impact check's loop at missile i: it appends its explosion and is
        marked when it has reached its target unmarked; no other missile changes. */
    method CheckAt(ms: seq<Missile>, i: int, now: real, ghost marks: seq<bool>, ghost before: seq<Explosion>)
      requires Fleet(ms) && 0 <= i < |ms| && |marks| == |ms|
      requires explosions == before + Blasts(ms[..i], marks[..i], now)
      requires forall k :: 0 <= k < |ms| ==> ms[k].exploded == Checked(ms[k], marks[k], k < i, now)
      modifies this`explosions, ms[i]
      ensures explosions == before + Blasts(ms[..i + 1], marks[..i + 1], now)
      ensures forall k :: 0 <= k < |ms| ==> ms[k].exploded == Checked(ms[k], marks[k], k < i + 1, now)
    {
      BlastsSnoc(ms, marks, i, now);
      var m := ms[i];
      if m.Progress(now) >= 1.0 && !m.exploded {
        var last := m.path[|m.path| - 1];
        AppendAssoc(before, Blasts(ms[..i], marks[..i], now), [BlastAt(m, now)]);
        explosions := explosions + [Explosion(last.x, last.y, now)];
        m.exploded := true;
      }
    }

    /** The filters at the end of the frame: only what is still alive stays. */
    method Prune(now: real)
      requires Fleet(missiles + subMissiles)
      modifies this`missiles, this`subMissiles, this`explosions
      ensures Fleet(missiles + subMissiles)
      ensures missiles == Filter(old(missiles), AliveAt(now))
      ensures subMissiles == Filter(old(subMissiles), AliveAt(now))
      ensures missiles + subMissiles == Filter(old(missiles + subMissiles), AliveAt(now))
      ensures explosions == Filter(old(explosions), BurningAt(now))
    {
      ghost var all := missiles + subMissiles;
      FilterAppend<Missile>(missiles, subMissiles, AliveAt(now));
      FilterDistinct<Missile>(all, AliveAt(now));
      FilterMembers<Missile>(all, AliveAt(now));
      ghost var kept := Filter(all, AliveAt(now));
      forall k | 0 <= k < |kept|
        ensures kept[k].Valid()
      {
        assert kept[k] in kept;
        var j :| 0 <= j < |all| && all[j] == kept[k];
      }
      missiles := Filter(missiles, AliveAt(now));
      subMissiles := Filter(subMissiles, AliveAt(now));
      explosions := Filter(explosions, BurningAt(now));
    }
  }
}
