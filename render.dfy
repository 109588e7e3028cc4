// The drawing layer of the C++ front end (wargames_cpp/src/Renderer.cpp) as an abstract log of
// OpenGL calls: every glDrawArrays is recorded with its primitive, its vertex buffer, its vertex
// count, the colour uniform and the line width; every glBlendFunc with its two factors. Window,
// context, shader and framebuffer plumbing is not part of this model.

module Render {
  import opened Common

  datatype Primitive = Lines | LineStrip

  datatype BlendFactor = One | SrcAlpha | OneMinusSrcAlpha

  datatype GlCall =
    | BlendFunc(src: BlendFactor, dst: BlendFactor)
    | DrawArrays(mode: Primitive, vertices: seq<real>, count: nat, color: Color, width: real)

  /** The line outlines of the launch-site and submarine icons. */
  datatype IconShape = LaunchBase | Submarine

  /** The drawing requests the map, missiles, aircraft and explosions make of the renderer:
      the three glow primitives (each with its number of glow layers) and the icons. */
  datatype DrawCall =
    | GlowLine(from: Point, to: Point, color: Color, layers: int)
    | GlowCircle(center: Point, radius: real, color: Color, layers: int)
    | GlowPath(points: seq<Point>, color: Color, layers: int)
    | Icon(shape: IconShape, at: Point, color: Color)

  /** The colour and line width of one pass of a glow primitive. */
  datatype Layer = Layer(color: Color, width: real)

  const CIRCLE_SEGMENTS: nat := 32

  function Max0(n: int): (r: nat) {
    if n > 0 then n else 0
  }

  /** Alpha factor of glow pass i of `layers`: full for the core pass i == 0, faint for the halo. */
  function LayerAlpha(i: int, layers: int): (r: real)
    requires layers > 0
  {
    if i == 0 then 1.0 else 0.3 / layers as real
  }

  function LayerWidth(i: int, layers: int): (r: real) {
    1.0 + (layers - i) as real * 0.8
  }

  function LayerColor(c: Color, i: int, layers: int): (r: Color)
    requires layers > 0
  {
    Color(c.r, c.g, c.b, c.a * LayerAlpha(i, layers))
  }

  /** The passes of a glow primitive in the order they are issued: pass k uses i = layers-1-k,
      so the widest, faintest halo comes first and the core line last. */
  function GlowSchedule(c: Color, layers: int): (r: seq<Layer>)
  {
    seq(Max0(layers), k requires 0 <= k < Max0(layers) =>
      Layer(LayerColor(c, layers - 1 - k, layers), LayerWidth(layers - 1 - k, layers)))
  }

  /** One draw call per pass of the schedule, all over the same vertex buffer. */
  function Emit(mode: Primitive, vertices: seq<real>, count: nat, sched: seq<Layer>): (r: seq<GlCall>)
  {
    seq(|sched|, k requires 0 <= k < |sched| =>
      DrawArrays(mode, vertices, count, sched[k].color, sched[k].width))
  }

  /** The vertex buffer of drawPath: two floats per point, x then y, in input order. */
  function Interleave(points: seq<Point>): (v: seq<real>)
    ensures |v| == 2 * |points|
    ensures forall k :: 0 <= k < |points| ==> v[2 * k] == points[k].x && v[2 * k + 1] == points[k].y
  {
    if points == [] then []
    else Interleave(points[..|points| - 1]) + [points[|points| - 1].x, points[|points| - 1].y]
  }

  /** The 33 points of the line strip drawCircle issues; `unit(f)` is the point (cos, sin) at the
      fraction f of a full turn. */
  function CirclePoints(x: real, y: real, radius: real, unit: real -> Point): (r: seq<Point>)
  {
    seq(CIRCLE_SEGMENTS + 1, i requires 0 <= i <= CIRCLE_SEGMENTS => CirclePoint(x, y, radius, unit, i))
  }

  /** Point i of the circle: at the fraction i/32 of a full turn, `radius` from the centre. */
  function CirclePoint(x: real, y: real, radius: real, unit: real -> Point, i: int): (r: Point)
  {
    var p := unit(i as real / CIRCLE_SEGMENTS as real);
    Point(x + p.x * radius, y + p.y * radius)
  }

  /** Every glow primitive issues exactly `layers` passes (none for layers <= 0). The last pass
      keeps the colour, every other pass scales alpha by 0.3/layers and keeps RGB, and the width
      grows strictly from 1.8 on the first pass to 1 + 0.8*layers on the last. */
  lemma GlowScheduleShape(c: Color, layers: int)
    ensures |GlowSchedule(c, layers)| == Max0(layers)
    ensures layers > 0 ==> GlowSchedule(c, layers)[layers - 1] == Layer(c, 1.0 + 0.8 * layers as real)
    ensures layers > 0 ==> GlowSchedule(c, layers)[0].width == 1.8
    ensures forall k :: 0 <= k < layers - 1 ==>
      GlowSchedule(c, layers)[k].color == Color(c.r, c.g, c.b, c.a * (0.3 / layers as real))
    ensures forall k, k' :: 0 <= k < k' < Max0(layers) ==>
      GlowSchedule(c, layers)[k].width < GlowSchedule(c, layers)[k'].width
  {
    var s := GlowSchedule(c, layers);
    if layers > 0 {
      GlowWidthStep(c, layers, 0);
      GlowWidthStep(c, layers, layers - 1);
      assert s[layers - 1] == Layer(LayerColor(c, 0, layers), LayerWidth(0, layers));
      assert LayerColor(c, 0, layers) == Color(c.r, c.g, c.b, c.a * 1.0);
    }
    forall k | 0 <= k < layers - 1
      ensures s[k].color == Color(c.r, c.g, c.b, c.a * (0.3 / layers as real))
    {
      assert s[k] == Layer(LayerColor(c, layers - 1 - k, layers), LayerWidth(layers - 1 - k, layers));
      assert LayerAlpha(layers - 1 - k, layers) == 0.3 / layers as real;
    }
    forall k, k' | 0 <= k < k' < Max0(layers) ensures s[k].width < s[k'].width {
      GlowWidthStep(c, layers, k);
      GlowWidthStep(c, layers, k');
    }
  }

  /** The width of pass k is 1.8 + 0.8*k: each pass is 0.8 wider than the one before. */
  lemma GlowWidthStep(c: Color, layers: int, k: int)
    requires 0 <= k < layers
    ensures GlowSchedule(c, layers)[k].width == 1.8 + 0.8 * k as real
  {
    var i := layers - 1 - k;
    assert layers - i == k + 1;
    assert GlowSchedule(c, layers)[k].width == LayerWidth(i, layers);
  }

  /** The circle strip starts and ends at the same point whenever unit(0) == unit(1), i.e. the
      outline is closed; it has 33 points. */
  lemma CircleClosed(x: real, y: real, radius: real, unit: real -> Point)
    requires unit(0.0) == unit(1.0)
    ensures |CirclePoints(x, y, radius, unit)| == 33
    ensures CirclePoints(x, y, radius, unit)[0] == CirclePoints(x, y, radius, unit)[32]
  {
    var p := CirclePoints(x, y, radius, unit);
    assert 0 as real / CIRCLE_SEGMENTS as real == 0.0;
    assert CIRCLE_SEGMENTS as real / CIRCLE_SEGMENTS as real == 1.0;
    assert p[0] == Point(x + unit(0.0).x * radius, y + unit(0.0).y * radius);
    assert p[32] == Point(x + unit(1.0).x * radius, y + unit(1.0).y * radius);
  }

  /** Glow pass i (counted down from layers-1) is entry layers-1-i of the schedule. */
  lemma GlowPass(c: Color, layers: int, i: int)
    requires 0 <= i < layers
    ensures GlowSchedule(c, layers)[layers - 1 - i]
         == Layer(Color(c.r, c.g, c.b, c.a * (if i == 0 then 1.0 else 0.3 / layers as real)),
                  1.0 + (layers - i) as real * 0.8)
  {
    var k := layers - 1 - i;
    assert layers - 1 - k == i;
    var s := GlowSchedule(c, layers);
    assert |s| == layers;
    assert s[k] == Layer(LayerColor(c, i, layers), LayerWidth(i, layers));
    assert LayerWidth(i, layers) == 1.0 + (layers - i) as real * 0.8;
    assert LayerColor(c, i, layers).a == c.a * (if i == 0 then 1.0 else 0.3 / layers as real);
  }

  lemma CirclePointAt(x: real, y: real, radius: real, unit: real -> Point, i: int)
    requires 0 <= i <= CIRCLE_SEGMENTS
    ensures CirclePoints(x, y, radius, unit)[i] == CirclePoint(x, y, radius, unit, i)
  {
  }

  lemma InterleaveSnoc(points: seq<Point>, i: int)
    requires 0 <= i < |points|
    ensures Interleave(points[..i + 1]) == Interleave(points[..i]) + [points[i].x, points[i].y]
  {
    assert points[..i + 1][..i] == points[..i];
  }

  lemma EmitSnoc(mode: Primitive, vertices: seq<real>, count: nat, sched: seq<Layer>, j: nat)
    requires j < |sched|
    ensures Emit(mode, vertices, count, sched[..j + 1])
         == Emit(mode, vertices, count, sched[..j])
            + [DrawArrays(mode, vertices, count, sched[j].color, sched[j].width)]
  {
  }

  class Renderer {
    /** Every GL call issued so far, oldest first. */
    var log: seq<GlCall>
    /** cos/sin: the unit-circle point at a fraction of a full turn. */
    const unit: real -> Point

    constructor(unit: real -> Point)
      ensures log == [] && this.unit == unit
    {
      log := [];
      this.unit := unit;
    }

    /** Additive blending (ONE, ONE) for the glowing scene, standard alpha blending otherwise. */
    method SetAdditiveBlending(enabled: bool)
      modifies this
      ensures enabled ==> log == old(log) + [BlendFunc(One, One)]
      ensures !enabled ==> log == old(log) + [BlendFunc(SrcAlpha, OneMinusSrcAlpha)]
    {
      if enabled {
        log := log + [BlendFunc(One, One)];
      } else {
        log := log + [BlendFunc(SrcAlpha, OneMinusSrcAlpha)];
      }
    }

    method DrawLine(x1: real, y1: real, x2: real, y2: real, color: Color, width: real)
      modifies this
      ensures log == old(log) + [DrawArrays(Lines, [x1, y1, x2, y2], 2, color, width)]
    {
      var vertices := [x1, y1, x2, y2];
      log := log + [DrawArrays(Lines, vertices, 2, color, width)];
    }

    method DrawLineWithGlow(x1: real, y1: real, x2: real, y2: real, color: Color, layers: int)
      modifies this
      ensures log == old(log) + Emit(Lines, [x1, y1, x2, y2], 2, GlowSchedule(color, layers))
    {
      ghost var sched := GlowSchedule(color, layers);
      var i := layers - 1;
      while i >= 0
        invariant 0 <= layers - 1 - i <= Max0(layers)
        invariant log == old(log) + Emit(Lines, [x1, y1, x2, y2], 2, sched[..layers - 1 - i])
      {
        var layerAlpha := if i == 0 then 1.0 else 0.3 / layers as real;
        var layerWidth := 1.0 + (layers - i) as real * 0.8;
        var layerColor := Color(color.r, color.g, color.b, color.a * layerAlpha);
        ghost var done := layers - 1 - i;
        GlowPass(color, layers, i);
        assert Layer(layerColor, layerWidth) == sched[done];
        EmitSnoc(Lines, [x1, y1, x2, y2], 2, sched, done);
        AppendAssoc(old(log), Emit(Lines, [x1, y1, x2, y2], 2, sched[..done]), [DrawArrays(Lines, [x1, y1, x2, y2], 2, layerColor, layerWidth)]);
        DrawLine(x1, y1, x2, y2, layerColor, layerWidth);
        assert log == old(log) + Emit(Lines, [x1, y1, x2, y2], 2, sched[..done + 1]);
        i := i - 1;
      }
      assert sched[..Max0(layers)] == sched;
    }

    method DrawCircle(x: real, y: real, radius: real, color: Color, width: real)
      modifies this
      ensures log == old(log)
        + [DrawArrays(LineStrip, Interleave(CirclePoints(x, y, radius, unit)), CIRCLE_SEGMENTS + 1, color, width)]
    {
      ghost var circle := CirclePoints(x, y, radius, unit);
      var vertices: seq<real> := [];
      var i := 0;
      while i <= CIRCLE_SEGMENTS
        invariant 0 <= i <= CIRCLE_SEGMENTS + 1
        invariant vertices == Interleave(circle[..i])
        invariant log == old(log)
      {
        var p := unit(i as real / CIRCLE_SEGMENTS as real);
        CirclePointAt(x, y, radius, unit, i);
        InterleaveSnoc(circle, i);
        assert circle[i] == Point(x + p.x * radius, y + p.y * radius);
        vertices := vertices + [x + p.x * radius, y + p.y * radius];
        i := i + 1;
      }
      assert circle[..CIRCLE_SEGMENTS + 1] == circle;
      log := log + [DrawArrays(LineStrip, vertices, CIRCLE_SEGMENTS + 1, color, width)];
    }

    method DrawCircleWithGlow(x: real, y: real, radius: real, color: Color, layers: int)
      modifies this
      ensures log == old(log) + Emit(LineStrip, Interleave(CirclePoints(x, y, radius, unit)),
                                     CIRCLE_SEGMENTS + 1, GlowSchedule(color, layers))
    {
      ghost var sched := GlowSchedule(color, layers);
      ghost var vertices := Interleave(CirclePoints(x, y, radius, unit));
      var i := layers - 1;
      while i >= 0
        invariant 0 <= layers - 1 - i <= Max0(layers)
        invariant log == old(log) + Emit(LineStrip, vertices, CIRCLE_SEGMENTS + 1, sched[..layers - 1 - i])
      {
        var layerAlpha := if i == 0 then 1.0 else 0.3 / layers as real;
        var layerWidth := 1.0 + (layers - i) as real * 0.8;
        var layerColor := Color(color.r, color.g, color.b, color.a * layerAlpha);
        ghost var done := layers - 1 - i;
        GlowPass(color, layers, i);
        assert Layer(layerColor, layerWidth) == sched[done];
        EmitSnoc(LineStrip, vertices, CIRCLE_SEGMENTS + 1, sched, done);
        AppendAssoc(old(log), Emit(LineStrip, vertices, CIRCLE_SEGMENTS + 1, sched[..done]), [DrawArrays(LineStrip, vertices, CIRCLE_SEGMENTS + 1, layerColor, layerWidth)]);
        DrawCircle(x, y, radius, layerColor, layerWidth);
        assert log == old(log) + Emit(LineStrip, vertices, CIRCLE_SEGMENTS + 1, sched[..done + 1]);
        i := i - 1;
      }
      assert sched[..Max0(layers)] == sched;
    }

    /** drawPath: nothing for fewer than two points, otherwise one line strip over all of them. */
    method DrawPath(points: seq<Point>, color: Color, width: real)
      modifies this
      ensures |points| < 2 ==> log == old(log)
      ensures |points| >= 2 ==>
        log == old(log) + [DrawArrays(LineStrip, Interleave(points), |points|, color, width)]
    {
      if |points| < 2 {
        return;
      }
      var vertices: seq<real> := [];
      var i := 0;
      while i < |points|
        invariant 0 <= i <= |points|
        invariant vertices == Interleave(points[..i])
        invariant log == old(log)
      {
        InterleaveSnoc(points, i);
        vertices := vertices + [points[i].x, points[i].y];
        i := i + 1;
      }
      assert points[..|points|] == points;
      log := log + [DrawArrays(LineStrip, vertices, |points|, color, width)];
    }

    method DrawPathWithGlow(points: seq<Point>, color: Color, layers: int)
      modifies this
      ensures |points| < 2 ==> log == old(log)
      ensures |points| >= 2 ==>
        log == old(log) + Emit(LineStrip, Interleave(points), |points|, GlowSchedule(color, layers))
    {
      ghost var sched := GlowSchedule(color, layers);
      var i := layers - 1;
      while i >= 0
        invariant 0 <= layers - 1 - i <= Max0(layers)
        invariant |points| < 2 ==> log == old(log)
        invariant |points| >= 2 ==>
          log == old(log) + Emit(LineStrip, Interleave(points), |points|, sched[..layers - 1 - i])
      {
        var layerAlpha := if i == 0 then 1.0 else 0.3 / layers as real;
        var layerWidth := 1.0 + (layers - i) as real * 0.8;
        var layerColor := Color(color.r, color.g, color.b, color.a * layerAlpha);
        ghost var done := layers - 1 - i;
        GlowPass(color, layers, i);
        assert Layer(layerColor, layerWidth) == sched[done];
        EmitSnoc(LineStrip, Interleave(points), |points|, sched, done);
        AppendAssoc(old(log), Emit(LineStrip, Interleave(points), |points|, sched[..done]), [DrawArrays(LineStrip, Interleave(points), |points|, layerColor, layerWidth)]);
        DrawPath(points, layerColor, layerWidth);
        assert |points| >= 2 ==> log == old(log) + Emit(LineStrip, Interleave(points), |points|, sched[..done + 1]);
        i := i - 1;
      }
      assert sched[..Max0(layers)] == sched;
    }
  }
}
