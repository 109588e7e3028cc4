// Aircraft of the C++ front end (wargames_cpp/src/Aircraft.cpp): a plane that circles a centre
// on a closed loop of screen points, with a cyclic progress in [0, 1) that picks the head
// point, drawn as a small glowing dot with a boxed tag. `unit(f)` is the point (cos, sin) at
// the fraction f of a full turn, standing for std::cos and std::sin of f * 2 * pi.

module Aircrafts {
  import opened Common
  import opened Render

  const LOOP_SAMPLES: int := 240
  const TRAIL_LENGTH: int := 18

  /** wrapLongitude as a function: whole turns of 360 degrees are removed until the longitude
      lies in [-180, 180]. */
  function WrapLon(lon: real): (r: real)
    decreases WrapMeasure(lon)
  {
    if lon > 180.0 then WrapLon(lon - 360.0)
    else if lon < -180.0 then WrapLon(lon + 360.0)
    else lon
  }

  /** The number of whole turns WrapLon adds (negative when it subtracts). */
  function WrapTurns(lon: real): (r: int)
    decreases WrapMeasure(lon)
  {
    if lon > 180.0 then WrapTurns(lon - 360.0) - 1
    else if lon < -180.0 then WrapTurns(lon + 360.0) + 1
    else 0
  }

  function WrapMeasure(lon: real): (r: nat) {
    if lon > 180.0 then (lon - 180.0).Floor + 1
    else if lon < -180.0 then (-180.0 - lon).Floor + 1
    else 0
  }

  /** The wrapped longitude lies in [-180, 180], differs from the input by a whole number of
      turns, and an input already in range is returned unchanged. */
  lemma {:induction false} WrapLonFacts(lon: real)
    ensures -180.0 <= WrapLon(lon) <= 180.0
    ensures WrapLon(lon) == lon + 360.0 * WrapTurns(lon) as real
    ensures -180.0 <= lon <= 180.0 ==> WrapLon(lon) == lon
    decreases WrapMeasure(lon)
  {
    if lon > 180.0 {
      WrapLonFacts(lon - 360.0);
    } else if lon < -180.0 {
      WrapLonFacts(lon + 360.0);
    }
  }

  /** wrapLongitude: subtract 360 while above 180, then add 360 while below -180. */
  method WrapLongitude(lon0: real) returns (lon: real)
    ensures lon == WrapLon(lon0)
    ensures -180.0 <= lon <= 180.0
  {
    lon := lon0;
    while lon > 180.0
      invariant WrapLon(lon) == WrapLon(lon0)
      decreases WrapMeasure(lon)
    {
      lon := lon - 360.0;
    }
    while lon < -180.0
      invariant lon <= 180.0
      invariant WrapLon(lon) == WrapLon(lon0)
      decreases WrapMeasure(lon)
    {
      lon := lon + 360.0;
    }
    WrapLonFacts(lon0);
  }

  /** The fraction of the loop at which sample i of `samples` sits: i / samples. */
  function LoopFraction(i: int, samples: int): (r: real)
    requires samples > 0
  {
    i as real / samples as real
  }

  /** The sample fractions lie in [0, 1) and strictly increase, so no sample falls on the full
      turn and the start point is not repeated at the end of the loop. */
  lemma LoopFractionsDistinct(i: int, j: int, samples: int)
    requires samples > 0 && 0 <= i < j < samples
    ensures 0.0 <= LoopFraction(i, samples) < LoopFraction(j, samples) < 1.0
  {
  }

  /** Sample i of the loop around `center` with the given radius in degrees, projected. */
  function LoopPoint(center: LatLon, radiusDeg: real, samples: int, unit: real -> Point, i: int): (r: Point)
    requires samples > 0
  {
    var p := unit(LoopFraction(i, samples));
    LonLatToXY(WrapLon(Displaced(center.lon, radiusDeg, p.x)), Displaced(center.lat, radiusDeg, p.y), SCREEN_WIDTH, SCREEN_HEIGHT)
  }

  /** A coordinate moved by `radiusDeg` times a cosine or sine. */
  function Displaced(base: real, radiusDeg: real, f: real): (r: real) {
    base + radiusDeg * f
  }

  /** The loop buildLoop stores: `samples` points, sample i at the fraction i / samples. */
  function LoopPath(center: LatLon, radiusDeg: real, samples: int, unit: real -> Point): (path: seq<Point>)
    ensures |path| == Max0(samples)
    ensures forall i :: 0 <= i < |path| ==> path[i] == LoopPoint(center, radiusDeg, samples, unit, i)
  {
    seq(Max0(samples), i requires 0 <= i < Max0(samples) => LoopPoint(center, radiusDeg, samples, unit, i))
  }

  /** Every loop point of a centre on the globe lies within the screen horizontally: the
      wrapped longitude is always in range. */
  lemma LoopPointOnScreen(center: LatLon, radiusDeg: real, samples: int, unit: real -> Point, i: int)
    requires samples > 0
    ensures 0.0 <= LoopPoint(center, radiusDeg, samples, unit, i).x <= SCREEN_WIDTH as real
  {
    var lon := WrapLon(Displaced(center.lon, radiusDeg, unit(LoopFraction(i, samples)).x));
    WrapLonFacts(Displaced(center.lon, radiusDeg, unit(LoopFraction(i, samples)).x));
    LonLatToXYInBounds(LatLon(0.0, lon), SCREEN_WIDTH, SCREEN_HEIGHT);
  }

  /** update as a function: the progress grows by dt / duration and, once it reaches 1, drops
      its whole part; nothing changes without a positive duration or without a path. */
  function Cycle(progress: real, dt: real, duration: real, pathLength: nat): (r: real)
    ensures duration <= 0.0 || pathLength == 0 ==> r == progress
    ensures duration > 0.0 && pathLength > 0 && 0.0 <= progress < 1.0 && dt >= 0.0 ==> 0.0 <= r < 1.0
    ensures duration > 0.0 && pathLength > 0 && progress + dt / duration < 1.0 ==> r == progress + dt / duration
  {
    if duration <= 0.0 || pathLength == 0 then progress
    else
      var p := progress + dt / duration;
      if p >= 1.0 then p - p.Floor as real else p
  }

  /** With a positive duration the cyclic progress is the plain one minus a whole number. */
  lemma CycleWholeTurns(progress: real, dt: real, duration: real, pathLength: nat)
    requires duration > 0.0 && pathLength > 0
    ensures var r := Cycle(progress, dt, duration, pathLength);
      (progress + dt / duration - r).Floor as real == progress + dt / duration - r
  {
  }

  /** A 30-second loop: half the time gives half the loop, the full time brings the plane back
      to the start. */
  lemma CycleExample()
    ensures Cycle(0.0, 15.0, 30.0, LOOP_SAMPLES) == 0.5
    ensures Cycle(0.5, 15.0, 30.0, LOOP_SAMPLES) == 0.0
  {
  }

  /** The head index of draw: progress * (count - 1) truncated, clamped into [0, count - 1]. */
  function HeadIndex(progress: real, count: int): (idx: int)
    requires count >= 1
    ensures 0 <= idx < count
  {
    var i := Trunc(progress * (count - 1) as real);
    if i < 0 then 0 else if i >= count then count - 1 else i
  }

  /** For a progress in [0, 1) the clamps never apply: the index is progress * (count - 1)
      rounded down. */
  lemma HeadIndexUnclamped(progress: real, count: int)
    requires count >= 1 && 0.0 <= progress < 1.0
    ensures HeadIndex(progress, count) == Trunc(progress * (count - 1) as real)
    ensures var idx := HeadIndex(progress, count);
      idx as real <= progress * (count - 1) as real < idx as real + 1.0
  {
    var v := progress * (count - 1) as real;
    UnitScale(progress, (count - 1) as real);
    var i := Trunc(v);
    assert i as real <= v <= (count - 1) as real;
    assert 0 <= i < count;
  }

  /** The tag: a leader line from the head to the box corner (10, -8) away, then the four
      sides of a 10 x 6 box, in the aircraft's colour at alpha 0.8 with two glow layers. */
  function TagCalls(head: Point, c: Color): (r: seq<DrawCall>) {
    var tagColor := Color(c.r, c.g, c.b, 0.8);
    var tagX, tagY := head.x + 10.0, head.y - 8.0;
    [ GlowLine(head, Point(tagX, tagY), tagColor, 2),
      GlowLine(Point(tagX, tagY), Point(tagX + 10.0, tagY), tagColor, 2),
      GlowLine(Point(tagX + 10.0, tagY), Point(tagX + 10.0, tagY + 6.0), tagColor, 2),
      GlowLine(Point(tagX + 10.0, tagY + 6.0), Point(tagX, tagY + 6.0), tagColor, 2),
      GlowLine(Point(tagX, tagY + 6.0), Point(tagX, tagY), tagColor, 2) ]
  }

  /** The tag starts at the head, each line starts where the previous one ends, and the box
      closes on its first corner. */
  lemma TagConnected(head: Point, c: Color)
    ensures var t := TagCalls(head, c);
      |t| == 5 && t[0].from == head &&
      (forall k :: 0 <= k < 4 ==> t[k].to == t[k + 1].from) &&
      t[4].to == t[1].from &&
      forall k :: 0 <= k < 5 ==> t[k].GlowLine? && t[k].layers == 2 && t[k].color.a == 0.8
  {
  }

  /** buildLoop: the path is the samples of the loop, built one point at a time. */
  method BuildLoop(center: LatLon, radiusDeg: real, samples: int, unit: real -> Point) returns (path: seq<Point>)
    ensures path == LoopPath(center, radiusDeg, samples, unit)
  {
    ghost var loop := LoopPath(center, radiusDeg, samples, unit);
    path := [];
    var i := 0;
    while i < samples
      invariant 0 <= i <= Max0(samples)
      invariant path == loop[..i]
    {
      assert loop[..i + 1] == loop[..i] + [loop[i]];
      assert loop[i] == LoopPoint(center, radiusDeg, samples, unit, i);
      var t := i as real / samples as real;
      assert t == LoopFraction(i, samples);
      var lat := center.lat + radiusDeg * unit(t).y;
      var lon := center.lon + radiusDeg * unit(t).x;
      assert lat == Displaced(center.lat, radiusDeg, unit(t).y);
      assert lon == Displaced(center.lon, radiusDeg, unit(t).x);
      lon := WrapLongitude(lon);
      assert LonLatToXY(lon, lat, SCREEN_WIDTH, SCREEN_HEIGHT) == LoopPoint(center, radiusDeg, samples, unit, i);
      path := path + [LonLatToXY(lon, lat, SCREEN_WIDTH, SCREEN_HEIGHT)];
      i := i + 1;
    }
    assert loop[..i] == loop;
  }

  class Aircraft {
    const path: seq<Point>
    const color: Color
    var progress: real
    const duration: real
    const trailLength: int

    /** The progress stays in [0, 1). */
    predicate Valid()
      reads this
    {
      0.0 <= progress < 1.0
    }

    /** A plane circling `center`: progress 0, the loop time as duration, a trail length of 18
        and the 240-point loop. */
    constructor(center: LatLon, radiusDeg: real, loopSeconds: real, color: Color, unit: real -> Point)
      ensures Valid() && progress == 0.0 && duration == loopSeconds && this.color == color
      ensures trailLength == TRAIL_LENGTH
      ensures path == LoopPath(center, radiusDeg, LOOP_SAMPLES, unit) && |path| == LOOP_SAMPLES
    {
      var loop := BuildLoop(center, radiusDeg, LOOP_SAMPLES, unit);
      this.color := color;
      progress := 0.0;
      duration := loopSeconds;
      trailLength := TRAIL_LENGTH;
      path := loop;
    }

    /** update: the progress cycles through [0, 1); the path is untouched. */
    method Update(dt: real)
      requires Valid() && dt >= 0.0
      modifies this
      ensures Valid()
      ensures progress == Cycle(old(progress), dt, duration, |path|)
    {
      if duration <= 0.0 || path == [] {
        return;
      }
      progress := progress + dt / duration;
      if progress >= 1.0 {
        progress := progress - progress.Floor as real;
      }
    }

    /** draw: nothing for fewer than two path points; otherwise a dot of radius 3 with three
        glow layers on the head point, then its tag. */
    method Draw() returns (calls: seq<DrawCall>)
      ensures |path| < 2 ==> calls == []
      ensures |path| >= 2 ==>
        calls == [GlowCircle(path[HeadIndex(progress, |path|)], 3.0, color, 3)]
               + TagCalls(path[HeadIndex(progress, |path|)], color)
    {
      if |path| < 2 {
        return [];
      }
      var count := |path|;
      var idx := Trunc(progress * (count - 1) as real);
      if idx < 0 {
        idx := 0;
      }
      if idx >= count {
        idx := count - 1;
      }
      assert idx == HeadIndex(progress, count);
      var head := path[idx];
      calls := [GlowCircle(head, 3.0, color, 3)];
      var tagX, tagY := head.x + 10.0, head.y - 8.0;
      var tagColor := Color(color.r, color.g, color.b, 0.8);
      calls := calls + [GlowLine(head, Point(tagX, tagY), tagColor, 2)];
      calls := calls + [GlowLine(Point(tagX, tagY), Point(tagX + 10.0, tagY), tagColor, 2)];
      calls := calls + [GlowLine(Point(tagX + 10.0, tagY), Point(tagX + 10.0, tagY + 6.0), tagColor, 2)];
      calls := calls + [GlowLine(Point(tagX + 10.0, tagY + 6.0), Point(tagX, tagY + 6.0), tagColor, 2)];
      calls := calls + [GlowLine(Point(tagX, tagY + 6.0), Point(tagX, tagY), tagColor, 2)];
    }
  }
}
