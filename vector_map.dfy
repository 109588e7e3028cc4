// The vector world map of the C++ front end (wargames_cpp/src/VectorMap.cpp): every part of a
// shapefile shape is projected to the screen, split wherever a step jumps more than half the
// screen width (a wrap across the antimeridian) and appended, coloured, to one of three layers;
// countries whose name mentions Russia or Japan go to the red layer. Reading the shapefile and
// its attribute table is not part of this model: a shape arrives as its parts and its name.

module Maps {
  import opened Common
  import opened Segmenting
  import Render

  datatype Option<T> = None | Some(value: T)

  /** A drawable polyline and its colour (VectorMap::LineSegment). */
  datatype LineSegment = LineSegment(points: seq<Point>, color: Color)

  /** Two consecutive screen points wrap across the antimeridian when they are more than half
      the screen width apart horizontally. */
  predicate CrossesAntimeridian(p: Point, q: Point) {
    Abs(q.x - p.x) > SCREEN_WIDTH as real * 0.5
  }

  /** The test is symmetric, and strict: a jump of exactly half the width does not split. */
  lemma CrossesAntimeridianSymmetric(p: Point, q: Point)
    ensures CrossesAntimeridian(p, q) <==> CrossesAntimeridian(q, p)
    ensures !CrossesAntimeridian(p, Point(p.x + 960.0, q.y))
    ensures !CrossesAntimeridian(p, Point(p.x - 960.0, q.y))
    ensures CrossesAntimeridian(p, Point(p.x + 960.5, q.y))
  {
  }

  /** The screen position of every vertex of a part, read as (lon, lat). */
  function Project(part: seq<LatLon>): (ps: seq<Point>)
    ensures |ps| == |part|
  {
    seq(|part|, k requires 0 <= k < |part| =>
      LonLatToXY(part[k].lon, part[k].lat, SCREEN_WIDTH, SCREEN_HEIGHT))
  }

  function Colored(segs: seq<seq<Point>>, c: Color): (r: seq<LineSegment>)
  {
    seq(|segs|, k requires 0 <= k < |segs| => LineSegment(segs[k], c))
  }

  /** The segments splitAtAntimeridian appends for one polyline. */
  function AntimeridianSegments(points: seq<Point>, c: Color): (r: seq<LineSegment>)
  {
    Colored(Split(points, CrossesAntimeridian), c)
  }

  /** The segments one shape contributes: its parts in order, each projected and split. */
  function ShapeSegments(parts: seq<seq<LatLon>>, c: Color): (r: seq<LineSegment>)
  {
    if parts == [] then []
    else ShapeSegments(parts[..|parts| - 1], c) + AntimeridianSegments(Project(parts[|parts| - 1]), c)
  }

  /** `sub` occurs in `s` (std::string::find does not return npos). */
  predicate Contains(s: string, sub: string) {
    exists i :: 0 <= i <= |s| - |sub| && OccursAt(s, sub, i)
  }

  predicate OccursAt(s: string, sub: string, i: int)
    requires 0 <= i <= |s| - |sub|
  {
    s[i..i + |sub|] == sub
  }

  /** A country is drawn red when it has a name whose text mentions Russia or Japan in title
      or upper case; a shapefile without a NAME or ADMIN field gives no name. */
  predicate IsRedCountry(name: Option<string>) {
    name.Some? &&
    (Contains(name.value, "Russia") || Contains(name.value, "RUSSIA") ||
     Contains(name.value, "Japan") || Contains(name.value, "JAPAN"))
  }

  /** The test is a substring test and it is case-sensitive. */
  lemma RedCountryExamples()
    ensures IsRedCountry(Some("Russia"))
    ensures IsRedCountry(Some("Russian Federation"))
    ensures IsRedCountry(Some("JAPAN"))
    ensures !IsRedCountry(Some(""))
    ensures !IsRedCountry(Some("russia"))
    ensures !IsRedCountry(None)
  {
    assert OccursAt("Russia", "Russia", 0);
    assert OccursAt("Russian Federation", "Russia", 0);
    assert OccursAt("JAPAN", "JAPAN", 0);
    var s := "russia";
    forall sub: string, i | sub in ["Russia", "RUSSIA", "Japan", "JAPAN"] && 0 <= i <= |s| - |sub|
      ensures !OccursAt(s, sub, i)
    {
      assert s[i..i + |sub|][0] == s[i] != sub[0];
    }
  }

  /** Every segment splitAtAntimeridian appends has at least two points, carries the requested
      colour, and has no consecutive pair more than half the screen width apart. */
  lemma AntimeridianSegmentsWellFormed(points: seq<Point>, c: Color)
    ensures forall seg :: seg in AntimeridianSegments(points, c) ==>
      |seg.points| >= 2 && seg.color == c &&
      forall k :: 0 <= k < |seg.points| - 1 ==>
        Abs(seg.points[k + 1].x - seg.points[k].x) <= SCREEN_WIDTH as real * 0.5
  {
    var runs := Split(points, CrossesAntimeridian);
    Segmenting.SplitSegments(points, CrossesAntimeridian);
    forall seg | seg in AntimeridianSegments(points, c)
      ensures |seg.points| >= 2 && seg.color == c
      ensures forall k :: 0 <= k < |seg.points| - 1 ==>
        Abs(seg.points[k + 1].x - seg.points[k].x) <= SCREEN_WIDTH as real * 0.5
    {
      var j :| 0 <= j < |runs| && seg == LineSegment(runs[j], c);
      assert runs[j] in runs;
    }
  }

  /** An empty polyline appends nothing; one of two or more points without a wrap is appended
      whole as a single segment. */
  lemma AntimeridianSegmentsUnbroken(points: seq<Point>, c: Color)
    ensures points == [] ==> AntimeridianSegments(points, c) == []
    ensures |points| >= 2 && (forall k :: 0 <= k < |points| - 1 ==> !CrossesAntimeridian(points[k], points[k + 1]))
      ==> AntimeridianSegments(points, c) == [LineSegment(points, c)]
  {
    if |points| >= 2 && Unbroken(points, CrossesAntimeridian) {
      SplitUnbroken(points, CrossesAntimeridian);
    }
  }

  /** The appended segments, read in order, keep the points in input order: they are the runs
      of two or more points of a partition of the input into consecutive runs. */
  lemma AntimeridianSegmentsInOrder(points: seq<Point>, c: Color)
    ensures Concat(Runs(points, CrossesAntimeridian)) == points
    ensures AntimeridianSegments(points, c) == Colored(KeepLong(Runs(points, CrossesAntimeridian)), c)
  {
    RunsConcat(points, CrossesAntimeridian);
  }

  lemma ColoredAppend(a: seq<seq<Point>>, b: seq<seq<Point>>, c: Color)
    ensures Colored(a + b, c) == Colored(a, c) + Colored(b, c)
  {
  }

  /** The segments already emitted while scanning ps: its closed runs of two or more points. */
  function ClosedSegments(ps: seq<Point>, c: Color): (r: seq<LineSegment>)
    requires ps != []
  {
    Colored(KeepLong(ScanRuns(ps, CrossesAntimeridian).closed), c)
  }

  /** The open run is emitted on reaching a wrap, provided it has two or more points. */
  lemma ScanStep(ps: seq<Point>, x: Point, c: Color)
    requires ps != []
    ensures CrossesAntimeridian(ps[|ps| - 1], x) ==>
      ClosedSegments(ps + [x], c) == ClosedSegments(ps, c) + Emitted(ScanRuns(ps, CrossesAntimeridian).open, c) &&
      ScanRuns(ps + [x], CrossesAntimeridian).open == [x]
    ensures !CrossesAntimeridian(ps[|ps| - 1], x) ==>
      ClosedSegments(ps + [x], c) == ClosedSegments(ps, c) &&
      ScanRuns(ps + [x], CrossesAntimeridian).open == ScanRuns(ps, CrossesAntimeridian).open + [x]
  {
    var s := ScanRuns(ps, CrossesAntimeridian);
    ScanSnoc(ps, x, CrossesAntimeridian);
    if CrossesAntimeridian(ps[|ps| - 1], x) {
      assert ScanRuns(ps + [x], CrossesAntimeridian).closed == s.closed + [s.open];
      KeepLongAppend(s.closed, [s.open]);
      KeepLongSingle(s.open);
      ColoredAppend(KeepLong(s.closed), KeepLong([s.open]), c);
    } else {
      assert ScanRuns(ps + [x], CrossesAntimeridian).closed == s.closed;
    }
  }

  /** At the end of the scan the open run is emitted too, provided it has two or more points. */
  lemma ScanFinish(ps: seq<Point>, c: Color)
    requires ps != []
    ensures AntimeridianSegments(ps, c)
         == ClosedSegments(ps, c) + Emitted(ScanRuns(ps, CrossesAntimeridian).open, c)
  {
    var s := ScanRuns(ps, CrossesAntimeridian);
    KeepLongAppend(s.closed, [s.open]);
    KeepLongSingle(s.open);
    ColoredAppend(KeepLong(s.closed), KeepLong([s.open]), c);
  }

  function Emitted(run: seq<Point>, c: Color): (r: seq<LineSegment>) {
    if |run| > 1 then [LineSegment(run, c)] else []
  }

  lemma ShapeSegmentsSnoc(parts: seq<seq<LatLon>>, p: nat, c: Color)
    requires p < |parts|
    ensures ShapeSegments(parts[..p + 1], c)
         == ShapeSegments(parts[..p], c) + AntimeridianSegments(Project(parts[p]), c)
  {
    assert parts[..p + 1][..p] == parts[..p];
  }

  /** The inner vertex loop of the loaders: every vertex of a part projected, in order. */
  method ProjectPart(vertices: seq<LatLon>) returns (points: seq<Point>)
    ensures points == Project(vertices)
  {
    points := [];
    var j := 0;
    while j < |vertices|
      invariant 0 <= j <= |vertices|
      invariant points == Project(vertices[..j])
    {
      points := points + [LonLatToXY(vertices[j].lon, vertices[j].lat, SCREEN_WIDTH, SCREEN_HEIGHT)];
      j := j + 1;
    }
    assert vertices[..j] == vertices;
  }

  /** Every segment drawn as a glow path with the given number of layers, in order. */
  function GlowPaths(segs: seq<LineSegment>, layers: int): (calls: seq<Render.DrawCall>)
    ensures |calls| == |segs|
  {
    seq(|segs|, k requires 0 <= k < |segs| => Render.GlowPath(segs[k].points, segs[k].color, layers))
  }

  lemma GlowPathsAppend(a: seq<LineSegment>, b: seq<LineSegment>, layers: int)
    ensures GlowPaths(a + b, layers) == GlowPaths(a, layers) + GlowPaths(b, layers)
  {
  }

  /** A std::vector<LineSegment> owned by the map and handed to the loaders by reference. */
  class SegmentList {
    var items: seq<LineSegment>

    constructor()
      ensures items == []
    {
      items := [];
    }

    method PushBack(seg: LineSegment)
      modifies this
      ensures items == old(items) + [seg]
    {
      items := items + [seg];
    }
  }

  class VectorMap {
    const coastlines: SegmentList
    const borders: SegmentList
    const russiaBorders: SegmentList

    /** The three layers are three distinct vectors. */
    predicate Valid()
      reads this
    {
      coastlines != borders && coastlines != russiaBorders && borders != russiaBorders
    }

    constructor()
      ensures Valid() && fresh(coastlines) && fresh(borders) && fresh(russiaBorders)
      ensures coastlines.items == [] && borders.items == [] && russiaBorders.items == []
    {
      coastlines := new SegmentList();
      borders := new SegmentList();
      russiaBorders := new SegmentList();
    }

    /** splitAtAntimeridian: appends the wrap-free runs of two or more points to `output`, in
        order, each with the given colour; earlier entries are left as they were. */
    method SplitAtAntimeridian(points: seq<Point>, output: SegmentList, color: Color)
      modifies output
      ensures output.items == old(output.items) + AntimeridianSegments(points, color)
    {
      if points == [] {
        return;
      }
      var current := [points[0]];
      var i := 1;
      while i < |points|
        invariant 1 <= i <= |points|
        invariant current == ScanRuns(points[..i], CrossesAntimeridian).open
        invariant output.items == old(output.items) + ClosedSegments(points[..i], color)
      {
        assert points[..i + 1] == points[..i] + [points[i]];
        assert points[..i][i - 1] == points[i - 1];
        ScanStep(points[..i], points[i], color);
        if CrossesAntimeridian(points[i - 1], points[i]) {
          AppendAssoc(old(output.items), ClosedSegments(points[..i], color), Emitted(current, color));
          if |current| > 1 {
            output.PushBack(LineSegment(current, color));
          }
          current := [points[i]];
        } else {
          current := current + [points[i]];
        }
        i := i + 1;
      }
      assert points[..i] == points;
      ScanFinish(points, color);
      AppendAssoc(old(output.items), ClosedSegments(points, color), Emitted(current, color));
      if |current| > 1 {
        output.PushBack(LineSegment(current, color));
      }
    }

    /** One part of a shape: its vertices projected and, when there are any, split into
        `output`. */
    method LoadPart(vertices: seq<LatLon>, output: SegmentList, color: Color)
      modifies output
      ensures output.items == old(output.items) + AntimeridianSegments(Project(vertices), color)
    {
      var points := ProjectPart(vertices);
      if points != [] {
        SplitAtAntimeridian(points, output, color);
      } else {
        assert AntimeridianSegments(points, color) == [];
      }
    }

    /** The parts of one shape in order, each through LoadPart. */
    method LoadParts(parts: seq<seq<LatLon>>, output: SegmentList, color: Color)
      modifies output
      ensures output.items == old(output.items) + ShapeSegments(parts, color)
    {
      var part := 0;
      while part < |parts|
        invariant 0 <= part <= |parts|
        invariant output.items == old(output.items) + ShapeSegments(parts[..part], color)
      {
        ShapeSegmentsSnoc(parts, part, color);
        AppendAssoc(old(output.items), ShapeSegments(parts[..part], color), AntimeridianSegments(Project(parts[part]), color));
        LoadPart(parts[part], output, color);
        part := part + 1;
      }
      assert parts[..part] == parts;
    }

    /** One shape of the coastline file: each non-empty part is projected and split into the
        coastline layer in dim cyan; the other layers are untouched. */
    method LoadCoastlineShape(parts: seq<seq<LatLon>>)
      requires Valid()
      modifies coastlines
      ensures coastlines.items == old(coastlines.items) + ShapeSegments(parts, DIM_CYAN)
      ensures borders.items == old(borders.items) && russiaBorders.items == old(russiaBorders.items)
    {
      LoadParts(parts, coastlines, DIM_CYAN);
    }

    /** One shape of the country file: the parts of a red country go to the red layer in red,
        all others to the border layer in darker cyan. */
    method LoadCountryShape(name: Option<string>, parts: seq<seq<LatLon>>)
      requires Valid()
      modifies borders, russiaBorders
      ensures IsRedCountry(name) ==> russiaBorders.items == old(russiaBorders.items) + ShapeSegments(parts, RED)
      ensures IsRedCountry(name) ==> borders.items == old(borders.items)
      ensures !IsRedCountry(name) ==> borders.items == old(borders.items) + ShapeSegments(parts, DARKER_CYAN)
      ensures !IsRedCountry(name) ==> russiaBorders.items == old(russiaBorders.items)
      ensures coastlines.items == old(coastlines.items)
    {
      var isRedCountry := false;
      if name.Some? {
        var countryName := name.value;
        if Contains(countryName, "Russia") || Contains(countryName, "RUSSIA") ||
           Contains(countryName, "Japan") || Contains(countryName, "JAPAN") {
          isRedCountry := true;
        }
      }
      var borderColor := if isRedCountry then RED else DARKER_CYAN;
      var targetVector := if isRedCountry then russiaBorders else borders;
      LoadParts(parts, targetVector, borderColor);
    }

    /** draw: coastlines, then borders, then the red borders, every segment with three glow
        layers. */
    method Draw() returns (calls: seq<Render.DrawCall>)
      ensures calls == GlowPaths(coastlines.items, 3) + GlowPaths(borders.items, 3) + GlowPaths(russiaBorders.items, 3)
    {
      calls := [];
      var segs := coastlines.items;
      var i := 0;
      while i < |segs|
        invariant 0 <= i <= |segs|
        invariant calls == GlowPaths(segs[..i], 3)
      {
        calls := calls + [Render.GlowPath(segs[i].points, segs[i].color, 3)];
        i := i + 1;
      }
      assert segs[..i] == segs;
      ghost var before := calls;
      segs := borders.items;
      i := 0;
      while i < |segs|
        invariant 0 <= i <= |segs|
        invariant calls == before + GlowPaths(segs[..i], 3)
      {
        calls := calls + [Render.GlowPath(segs[i].points, segs[i].color, 3)];
        i := i + 1;
      }
      assert segs[..i] == segs;
      before := calls;
      segs := russiaBorders.items;
      i := 0;
      while i < |segs|
        invariant 0 <= i <= |segs|
        invariant calls == before + GlowPaths(segs[..i], 3)
      {
        calls := calls + [Render.GlowPath(segs[i].points, segs[i].color, 3)];
        i := i + 1;
      }
      assert segs[..i] == segs;
    }
  }

  /** Every map draw call is a three-layer glow path, and the red borders are drawn after every
      other segment, so they end up on top. */
  lemma DrawOrder(coast: seq<LineSegment>, borders: seq<LineSegment>, red: seq<LineSegment>)
    ensures var calls := GlowPaths(coast, 3) + GlowPaths(borders, 3) + GlowPaths(red, 3);
      |calls| == |coast| + |borders| + |red| &&
      (forall k :: 0 <= k < |calls| ==> calls[k].GlowPath? && calls[k].layers == 3) &&
      (forall k :: 0 <= k < |red| ==>
        calls[|coast| + |borders| + k] == Render.GlowPath(red[k].points, red[k].color, 3))
  {
  }
}
