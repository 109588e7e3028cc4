// Missiles of the C++ front end (wargames_cpp/src/Missile.cpp): a launch that follows a
// precomputed geodesic trail of screen points, advances at a fixed rate, draws the visible
// part of its trail split at antimeridian wraps, and pulses a marker over its target shortly
// before arrival. A submarine launch differs only in the icon drawn at its start.
// The WGS84 geodesic (GeographicLib) is a parameter: `along(t)` is the point at fraction t of
// the geodesic's length from the start to the end; std::sin is the parameter `sine`.

module Missiles {
  import opened Common
  import opened Render
  import Maps
  import Segmenting

  /** Missile or SubmarineMissile. */
  datatype Launcher = FromBase | FromSubmarine

  const SAMPLES: int := 220
  const FLIGHT_SECONDS: real := 12.0
  const TRAIL_LAYERS: int := 5
  const MARKER_FROM: real := 0.85

  /** The trail calculatePath stores: `samples` points evenly spaced along the geodesic from
      fraction 0 to fraction 1, each projected onto the screen. */
  function SamplePath(along: real -> LatLon, samples: int): (path: seq<Point>)
    requires samples != 1
    ensures |path| == Max0(samples)
    ensures samples > 1 ==> path[0] == Projected(along(0.0)) && path[samples - 1] == Projected(along(1.0))
  {
    assert samples > 1 ==> (samples - 1) as real / (samples - 1) as real == 1.0;
    seq(Max0(samples), i requires 0 <= i < Max0(samples) =>
      Projected(along(i as real / (samples - 1) as real)))
  }

  function Projected(c: LatLon): (r: Point) {
    LonLatToXY(c.lon, c.lat, SCREEN_WIDTH, SCREEN_HEIGHT)
  }

  /** update: progress grows by dt / duration and is capped at 1. */
  function Advance(progress: real, dt: real, duration: real): (r: real)
    requires duration > 0.0
    ensures r <= 1.0
    ensures dt >= 0.0 && progress <= 1.0 ==> progress <= r
    ensures r < 1.0 ==> r == progress + dt / duration
  {
    if progress + dt / duration > 1.0 then 1.0 else progress + dt / duration
  }

  function Min1(v: real): (r: real) {
    if v > 1.0 then 1.0 else v
  }

  function Sum(dts: seq<real>): (r: real) {
    if dts == [] then 0.0 else Sum(dts[..|dts| - 1]) + dts[|dts| - 1]
  }

  /** The progress after a sequence of frame updates. */
  function AdvanceAll(progress: real, dts: seq<real>, duration: real): (r: real)
    requires duration > 0.0
  {
    if dts == [] then progress
    else Advance(AdvanceAll(progress, dts[..|dts| - 1], duration), dts[|dts| - 1], duration)
  }

  /** Over frames with non-negative time steps the capped increments add up: the progress is
      the start plus the elapsed time over the duration, capped at 1. */
  lemma {:induction false} AdvanceAllElapsed(progress: real, dts: seq<real>, duration: real)
    requires duration > 0.0
    requires forall k :: 0 <= k < |dts| ==> dts[k] >= 0.0
    requires progress <= 1.0
    ensures AdvanceAll(progress, dts, duration) == Min1(progress + Sum(dts) / duration)
  {
    if dts != [] {
      var init, last := dts[..|dts| - 1], dts[|dts| - 1];
      assert forall k :: 0 <= k < |init| ==> init[k] == dts[k];
      AdvanceAllElapsed(progress, init, duration);
      var a, step := progress + Sum(init) / duration, last / duration;
      assert AdvanceAll(progress, dts, duration) == Advance(Min1(a), last, duration);
      assert Advance(Min1(a), last, duration) == Min1(Min1(a) + step);
      DivAdd(Sum(init), last, duration);
      assert progress + Sum(dts) / duration == a + step;
      CapThenAdd(a, step);
    }
  }

  lemma DivAdd(x: real, y: real, d: real)
    requires d > 0.0
    ensures (x + y) / d == x / d + y / d && (y >= 0.0 ==> y / d >= 0.0)
  {
  }

  /** Capping before adding a non-negative step and capping after agree. */
  lemma CapThenAdd(a: real, b: real)
    requires b >= 0.0
    ensures Min1(Min1(a) + b) == Min1(a + b)
  {
  }

  /** A missile launched with progress 0 is finished exactly when the frames it has seen
      cover the flight time of 12 seconds. */
  lemma FlightTime(dts: seq<real>)
    requires forall k :: 0 <= k < |dts| ==> dts[k] >= 0.0
    ensures AdvanceAll(0.0, dts, FLIGHT_SECONDS) >= 1.0 <==> Sum(dts) >= FLIGHT_SECONDS
  {
    AdvanceAllElapsed(0.0, dts, FLIGHT_SECONDS);
  }

  /** getPosition's index: progress * (n - 1) truncated, capped at the last point. */
  function PositionIndex(progress: real, n: int): (idx: int)
    requires n > 0 && progress >= 0.0
    ensures 0 <= idx < n
    ensures progress == 0.0 ==> idx == 0
    ensures progress >= 1.0 ==> idx == n - 1
  {
    NonNegProduct(progress, (n - 1) as real);
    ScaleAtLeast(progress, (n - 1) as real);
    var i := Trunc(progress * (n - 1) as real);
    if i >= n then n - 1 else i
  }

  /** The position moves forward along the trail as the progress grows. */
  lemma PositionIndexMonotone(p1: real, p2: real, n: int)
    requires n > 0 && 0.0 <= p1 <= p2
    ensures PositionIndex(p1, n) <= PositionIndex(p2, n)
  {
    NonNegProduct(p2 - p1, (n - 1) as real);
  }

  lemma ScaleAtLeast(a: real, b: real)
    requires b >= 0.0
    ensures a >= 1.0 ==> a * b >= b
  {
    if a >= 1.0 {
      NonNegProduct(a - 1.0, b);
    }
  }

  lemma NonNegProduct(a: real, b: real)
    requires a >= 0.0 && b >= 0.0
    ensures a * b >= 0.0
  {
  }

  /** How many trail points draw shows: progress * n truncated. */
  function VisibleCount(progress: real, n: int): (count: int)
    requires n >= 0 && 0.0 <= progress <= 1.0
    ensures 0 <= count <= n
    ensures progress == 1.0 ==> count == n
  {
    NonNegProduct(progress, n as real);
    NonNegProduct(1.0 - progress, n as real);
    Trunc(progress * n as real)
  }

  /** The glow paths drawn for the visible part of the trail: its wrap-free runs of two or
      more points, in order, each with five glow layers. */
  function TrailCalls(visible: seq<Point>, c: Color): (r: seq<DrawCall>) {
    Maps.GlowPaths(Maps.AntimeridianSegments(visible, c), TRAIL_LAYERS)
  }

  /** Every trail call is a five-layer glow path in the missile's colour through two or more
      points with no wrap between neighbours; a trail without a wrap is one path. */
  lemma TrailWellFormed(visible: seq<Point>, c: Color)
    ensures forall k :: 0 <= k < |TrailCalls(visible, c)| ==>
      var call := TrailCalls(visible, c)[k];
      call.GlowPath? && call.color == c && call.layers == TRAIL_LAYERS && |call.points| >= 2 &&
      forall j :: 0 <= j < |call.points| - 1 ==> !Maps.CrossesAntimeridian(call.points[j], call.points[j + 1])
    ensures |visible| >= 2 && (forall j :: 0 <= j < |visible| - 1 ==> !Maps.CrossesAntimeridian(visible[j], visible[j + 1]))
      ==> TrailCalls(visible, c) == [GlowPath(visible, c, TRAIL_LAYERS)]
  {
    var segs := Maps.AntimeridianSegments(visible, c);
    Maps.AntimeridianSegmentsWellFormed(visible, c);
    Maps.AntimeridianSegmentsUnbroken(visible, c);
    forall k | 0 <= k < |segs|
      ensures |segs[k].points| >= 2 && segs[k].color == c
      ensures forall j :: 0 <= j < |segs[k].points| - 1 ==> !Maps.CrossesAntimeridian(segs[k].points[j], segs[k].points[j + 1])
    {
      assert segs[k] in segs;
    }
  }

  /** The pulsing target marker: pulse = 0.5 + 0.5 sin(20 progress), radius 10 + 5 pulse,
      alpha 0.5 + 0.5 pulse, three glow layers, centred on the last trail point. */
  function Marker(target: Point, c: Color, progress: real, sine: real -> real): (r: DrawCall) {
    GlowCircle(target, 10.0 + Pulse(progress, sine) * 5.0, Color(c.r, c.g, c.b, 0.5 + Pulse(progress, sine) * 0.5), 3)
  }

  function Pulse(progress: real, sine: real -> real): (r: real) {
    0.5 + 0.5 * sine(progress * 20.0)
  }

  /** With a sine in [-1, 1] the marker's radius stays in [10, 15] and its alpha in [0.5, 1]. */
  lemma MarkerBounds(target: Point, c: Color, progress: real, sine: real -> real)
    requires -1.0 <= sine(progress * 20.0) <= 1.0
    ensures 10.0 <= Marker(target, c, progress, sine).radius <= 15.0
    ensures 0.5 <= Marker(target, c, progress, sine).color.a <= 1.0
    ensures Marker(target, c, progress, sine).center == target
  {
  }

  function IconOf(kind: Launcher): (r: IconShape) {
    match kind
    case FromBase => LaunchBase
    case FromSubmarine => Submarine
  }

  /** The trail loop of draw: the visible points are scanned once, a run is closed at every
      wrap, and every run of two or more points is drawn as a five-layer glow path. */
  method DrawTrail(visiblePath: seq<Point>, color: Color) returns (calls: seq<DrawCall>)
    requires |visiblePath| >= 1
    ensures calls == TrailCalls(visiblePath, color)
  {
    calls := [];
    var currentSegment := [visiblePath[0]];
    var i := 1;
    while i < |visiblePath|
      invariant 1 <= i <= |visiblePath|
      invariant currentSegment == Segmenting.ScanRuns(visiblePath[..i], Maps.CrossesAntimeridian).open
      invariant calls == Maps.GlowPaths(Maps.ClosedSegments(visiblePath[..i], color), TRAIL_LAYERS)
    {
      assert visiblePath[..i + 1] == visiblePath[..i] + [visiblePath[i]];
      assert visiblePath[..i][i - 1] == visiblePath[i - 1];
      ghost var closed := Maps.ClosedSegments(visiblePath[..i], color);
      Maps.ScanStep(visiblePath[..i], visiblePath[i], color);
      var dx := Abs(visiblePath[i].x - visiblePath[i - 1].x);
      if dx > SCREEN_WIDTH as real * 0.5 {
        ghost var emitted := Maps.Emitted(currentSegment, color);
        assert Maps.ClosedSegments(visiblePath[..i + 1], color) == closed + emitted;
        Maps.GlowPathsAppend(closed, emitted, TRAIL_LAYERS);
        if |currentSegment| > 1 {
          assert Maps.GlowPaths(emitted, TRAIL_LAYERS) == [GlowPath(currentSegment, color, TRAIL_LAYERS)];
          calls := calls + [GlowPath(currentSegment, color, TRAIL_LAYERS)];
        }
        currentSegment := [visiblePath[i]];
      } else {
        currentSegment := currentSegment + [visiblePath[i]];
      }
      i := i + 1;
    }
    assert visiblePath[..i] == visiblePath;
    Maps.ScanFinish(visiblePath, color);
    Maps.GlowPathsAppend(Maps.ClosedSegments(visiblePath, color), Maps.Emitted(currentSegment, color), TRAIL_LAYERS);
    if |currentSegment| > 1 {
      calls := calls + [GlowPath(currentSegment, color, TRAIL_LAYERS)];
    }
  }

  /** calculatePath: the trail is the samples of the geodesic, built one point at a time. */
  method CalculatePath(along: real -> LatLon, samples: int) returns (path: seq<Point>)
    requires samples != 1
    ensures path == SamplePath(along, samples)
  {
    path := [];
    var i := 0;
    while i < samples
      invariant 0 <= i <= Max0(samples)
      invariant path == SamplePath(along, samples)[..i]
    {
      var t := i as real / (samples - 1) as real;
      var at := along(t);
      path := path + [LonLatToXY(at.lon, at.lat, SCREEN_WIDTH, SCREEN_HEIGHT)];
      i := i + 1;
    }
  }

  class Missile {
    const kind: Launcher
    const path: seq<Point>
    const basePos: Point
    const color: Color
    var progress: real
    const duration: real

    /** The progress stays in [0, 1] and the duration is the fixed flight time. */
    predicate Valid()
      reads this
    {
      duration == FLIGHT_SECONDS && 0.0 <= progress <= 1.0
    }

    /** A launch from `start`: the base is the start's screen position, the progress 0 and
        the trail the 220 samples of the geodesic; when the geodesic starts at `start` and
        ends at `end`, the trail runs from the base to the target's screen position. */
    constructor(kind: Launcher, start: LatLon, end: LatLon, color: Color, along: real -> LatLon)
      ensures Valid() && this.kind == kind && this.color == color && progress == 0.0
      ensures basePos == Projected(start)
      ensures path == SamplePath(along, SAMPLES) && |path| == SAMPLES
      ensures along(0.0) == start ==> path[0] == basePos
      ensures along(1.0) == end ==> path[SAMPLES - 1] == Projected(end)
    {
      var trail := CalculatePath(along, SAMPLES);
      this.kind := kind;
      basePos := Projected(start);
      this.color := color;
      progress := 0.0;
      duration := FLIGHT_SECONDS;
      path := trail;
    }

    /** update: the progress advances by dt over the duration, capped at 1. */
    method Update(dt: real)
      requires Valid() && dt >= 0.0
      modifies this
      ensures Valid()
      ensures progress == Advance(old(progress), dt, duration)
      ensures old(progress) <= progress
      ensures old(IsFinished()) ==> IsFinished()
    {
      progress := progress + dt / duration;
      if progress > 1.0 {
        progress := 1.0;
      }
    }

    predicate IsFinished()
      reads this
    {
      progress >= 1.0
    }

    /** getPosition: (0, 0) without a trail, else the trail point at the progress; a finished
        missile is at the end of its trail, a fresh one at its start. */
    function Position(): (pos: Point)
      reads this
      requires Valid()
      ensures path == [] ==> pos == Point(0.0, 0.0)
      ensures path != [] && IsFinished() ==> pos == path[|path| - 1]
      ensures path != [] && progress == 0.0 ==> pos == path[0]
    {
      if path == [] then Point(0.0, 0.0) else path[PositionIndex(progress, |path|)]
    }

    /** draw: nothing without a trail; otherwise the launcher icon at the base, then, once two
        or more trail points are visible, the trail's glow paths and, from 85% progress until
        arrival, the pulsing marker on the target. */
    method Draw(sine: real -> real) returns (calls: seq<DrawCall>)
      requires Valid()
      ensures path == [] ==> calls == []
      ensures path != [] ==> |calls| >= 1 && calls[0] == Icon(IconOf(kind), basePos, color)
      ensures path != [] && VisibleCount(progress, |path|) < 2 ==> calls == [Icon(IconOf(kind), basePos, color)]
      ensures path != [] && VisibleCount(progress, |path|) >= 2 ==>
        calls == [Icon(IconOf(kind), basePos, color)]
               + TrailCalls(path[..VisibleCount(progress, |path|)], color)
               + (if MARKER_FROM <= progress < 1.0 then [Marker(path[|path| - 1], color, progress, sine)] else [])
    {
      if path == [] {
        return [];
      }
      calls := [Icon(IconOf(kind), basePos, color)];
      var numPoints := VisibleCount(progress, |path|);
      if numPoints < 2 {
        return;
      }
      var trail := DrawTrail(path[..numPoints], color);
      calls := calls + trail;
      assert calls == [Icon(IconOf(kind), basePos, color)] + TrailCalls(path[..numPoints], color);
      if progress >= MARKER_FROM && progress < 1.0 {
        var targetPos := path[|path| - 1];
        var pulse := 0.5 + 0.5 * sine(progress * 20.0);
        assert pulse == Pulse(progress, sine);
        var radius := 10.0 + pulse * 5.0;
        var pulseColor := Color(color.r, color.g, color.b, 0.5 + pulse * 0.5);
        calls := calls + [GlowCircle(targetPos, radius, pulseColor, 3)];
      }
    }
  }

  /** On a full 220-point trail the marker phase always has a visible trail: from 85% progress
      at least 187 points are shown. */
  lemma MarkerPhaseShowsTrail(progress: real)
    requires MARKER_FROM <= progress <= 1.0
    ensures VisibleCount(progress, SAMPLES) >= 187
  {
  }
}
