// The value-level rules of the C++ main loop (wargames_cpp/src/main.cpp): the frame-time cap,
// the keyboard controls for the launch interval and the CRT mode, the colour of a target,
// the scanline texture and the sequence of post-processing passes for each CRT mode.

module Controls {
  import opened Common

  /** The largest frame time the simulation advances by. */
  const MAX_DT: real := 0.1
  const DEFAULT_INTERVAL: real := 2.0
  const MIN_INTERVAL: real := 0.3
  const MAX_INTERVAL: real := 10.0
  const INTERVAL_STEP: real := 0.5

  /** The frame time is capped at 0.1 s; a shorter frame is taken as it is. */
  function CapDelta(dt: real): (r: real)
    ensures r <= MAX_DT
    ensures dt <= MAX_DT ==> r == dt
    ensures dt > MAX_DT ==> r == MAX_DT
    ensures dt >= 0.0 ==> r >= 0.0
  {
    if dt > MAX_DT then MAX_DT else dt
  }

  datatype Key = Escape | KeyQ | Up | Down | KeyR | Space | KeyC | KeyF | OtherKey

  /** A window event: the window closed, or a key pressed. */
  datatype Event = Quit | KeyDown(key: Key)

  /** UP shortens the interval by half a second down to 0.3 s, DOWN lengthens it by half a
      second up to 10 s, R restores the 2 s default; other keys leave it alone. */
  function NextInterval(interval: real, key: Key): (r: real)
  {
    match key
    case Up => if MIN_INTERVAL > interval - INTERVAL_STEP then MIN_INTERVAL else interval - INTERVAL_STEP
    case Down => if MAX_INTERVAL < interval + INTERVAL_STEP then MAX_INTERVAL else interval + INTERVAL_STEP
    case KeyR => DEFAULT_INTERVAL
    case _ => interval
  }

  /** The interval after a sequence of key presses. */
  function IntervalAfter(interval: real, keys: seq<Key>): (r: real)
  {
    if keys == [] then interval else NextInterval(IntervalAfter(interval, keys[..|keys| - 1]), keys[|keys| - 1])
  }

  /** One key press keeps an interval in [0.3, 10] inside it; UP never lengthens it and DOWN
      never shortens it. */
  lemma NextIntervalBounds(interval: real, key: Key)
    requires MIN_INTERVAL <= interval <= MAX_INTERVAL
    ensures MIN_INTERVAL <= NextInterval(interval, key) <= MAX_INTERVAL
    ensures key == Up ==> NextInterval(interval, key) <= interval
    ensures key == Down ==> NextInterval(interval, key) >= interval
  {
  }

  /** From the 2 s default, the launch interval stays in [0.3, 10] whatever keys are pressed. */
  lemma {:induction false} IntervalAlwaysInRange(keys: seq<Key>)
    ensures MIN_INTERVAL <= IntervalAfter(DEFAULT_INTERVAL, keys) <= MAX_INTERVAL
  {
    if keys != [] {
      IntervalAlwaysInRange(keys[..|keys| - 1]);
      NextIntervalBounds(IntervalAfter(DEFAULT_INTERVAL, keys[..|keys| - 1]), keys[|keys| - 1]);
    }
  }

  /** Enough UP presses reach the floor exactly: four from the default. */
  lemma IntervalFloor()
    ensures IntervalAfter(DEFAULT_INTERVAL, [Up, Up, Up]) == 0.5
    ensures IntervalAfter(DEFAULT_INTERVAL, [Up, Up, Up, Up]) == MIN_INTERVAL
  {
    assert [Up, Up, Up, Up][..3] == [Up, Up, Up];
    assert [Up, Up, Up][..2] == [Up, Up];
    assert [Up, Up][..1] == [Up];
  }

  datatype CrtMode = Off | Light | Full

  /** C cycles OFF -> LIGHT -> FULL -> OFF. */
  function NextCrtMode(mode: CrtMode): (r: CrtMode)
  {
    match mode
    case Off => Light
    case Light => Full
    case Full => Off
  }

  /** The cycle visits every mode and three presses bring any mode back. */
  lemma CrtModeCycle(mode: CrtMode)
    ensures NextCrtMode(NextCrtMode(NextCrtMode(mode))) == mode
    ensures NextCrtMode(mode) != mode && NextCrtMode(NextCrtMode(mode)) != mode
    ensures NextCrtMode(Off) == Light && NextCrtMode(Light) == Full && NextCrtMode(Full) == Off
  {
  }

  const MOSCOW: LatLon := LatLon(55.7558, 37.6173)
  const TOKYO: LatLon := LatLon(35.6762, 139.6503)
  const EPSILON: real := 0.01

  /** Within 0.01 degrees of a city in both latitude and longitude. */
  predicate Near(target: LatLon, city: LatLon) {
    Abs(target.lat - city.lat) < EPSILON && Abs(target.lon - city.lon) < EPSILON
  }

  predicate IsRussiaOrJapanTarget(target: LatLon) {
    Near(target, MOSCOW) || Near(target, TOKYO)
  }

  /** getColorForTarget: red for a target at Moscow or Tokyo, cyan for every other. */
  function ColorForTarget(target: LatLon): (r: Color)
  {
    if IsRussiaOrJapanTarget(target) then RED else CYAN
  }

  /** Among the launch targets exactly Moscow (entry 0) and Tokyo (entry 2) are red. Among the
      submarine targets only the eastern Moscow entry is: the eastern Tokyo entry (35.68,
      139.76) lies 0.11 degrees of longitude from Tokyo and is drawn cyan. */
  lemma TargetColors()
    ensures forall k :: 0 <= k < |TARGET_LOCATIONS| ==>
      (ColorForTarget(TARGET_LOCATIONS[k]) == RED <==> k == 0 || k == 2)
    ensures forall k :: 0 <= k < |EASTERN_TARGETS| ==> (ColorForTarget(EASTERN_TARGETS[k]) == RED <==> k == 0)
    ensures forall k :: 0 <= k < |WESTERN_TARGETS| ==> ColorForTarget(WESTERN_TARGETS[k]) == CYAN
    ensures ColorForTarget(EASTERN_TARGETS[2]) == CYAN
  {
    assert RED != CYAN;
  }

  /** An 8-bit channel value. */
  newtype Byte = b: int | 0 <= b < 256

  /** The byte offset of channel c of pixel (x, y) in a row-major RGBA buffer of width *
      height pixels; it always lies inside the buffer. */
  function PixelIndex(width: int, height: int, x: int, y: int, c: int): (i: int)
    requires 0 <= x < width && 0 <= y < height && 0 <= c < 4
    ensures 0 <= i < width * height * 4
  {
    PixelInside(width, height, x, y);
    (y * width + x) * 4 + c
  }

  /** The scanline pattern: every third row, starting with row 0, is darkened to 200 in red,
      green and blue; every other row is 255; alpha is always 255. */
  function ScanlineValue(y: int, c: int): (r: Byte) {
    if c == 3 then 255 else if y % 3 == 0 then 200 else 255
  }

  lemma MulNonNeg(a: int, b: int)
    requires a >= 0 && b >= 0
    ensures a * b >= 0
  {
  }

  /** Multiplying by a non-negative number keeps the order. */
  lemma MulMono(a: int, b: int, w: int)
    requires a <= b && w >= 0
    ensures a * w <= b * w
  {
    MulNonNeg(b - a, w);
    assert (b - a) * w == b * w - a * w;
  }

  /** Pixel (x, y) is one of the first width * height pixels in row-major order. */
  lemma PixelInside(width: int, height: int, x: int, y: int)
    requires 0 <= x < width && 0 <= y < height
    ensures 0 <= y * width + x < height * width
  {
    MulNonNeg(y, width);
    MulMono(y + 1, height, width);
    assert (y + 1) * width == y * width + width;
  }

  /** Two pixels at the same row-major position are in the same row. */
  lemma SamePixel(width: int, x0: int, y0: int, x: int, y: int)
    requires 0 <= x0 < width && 0 <= x < width
    requires y0 * width + x0 == y * width + x
    ensures y0 == y
  {
    if y0 < y {
      MulMono(y0 + 1, y, width);
    } else if y < y0 {
      MulMono(y + 1, y0, width);
    }
  }

  /** Sets the four channels of the pixel at byte offset idx. */
  method SetPixel(data: array<Byte>, idx: int, v: Byte)
    requires 0 <= idx && idx + 4 <= data.Length
    modifies data
    ensures data[idx] == v && data[idx + 1] == v && data[idx + 2] == v && data[idx + 3] == 255
    ensures forall j :: 0 <= j < data.Length && (j < idx || idx + 4 <= j) ==> data[j] == old(data[j])
  {
    data[idx + 0] := v;
    data[idx + 1] := v;
    data[idx + 2] := v;
    data[idx + 3] := 255;
  }

  /** Every channel of the first n pixels, in row-major order, holds the scanline pattern. */
  ghost predicate Filled(data: array<Byte>, width: int, height: int, n: int)
    requires data.Length == width * height * 4
    reads data
  {
    forall x, y, c :: 0 <= x < width && 0 <= y < height && 0 <= c < 4 && y * width + x < n ==>
      data[PixelIndex(width, height, x, y, c)] == ScanlineValue(y, c)
  }

  /** Fills row y, given that the rows above it are filled. */
  method FillRow(data: array<Byte>, width: int, height: int, y: int)
    requires data.Length == width * height * 4 && 0 <= y < height
    requires Filled(data, width, height, y * width)
    modifies data
    ensures Filled(data, width, height, (y + 1) * width)
  {
    var v: Byte := if y % 3 == 0 then 200 else 255;
    var x := 0;
    while x < width
      invariant 0 <= x <= width
      invariant Filled(data, width, height, y * width + x)
    {
      PixelInside(width, height, x, y);
      var idx := (y * width + x) * 4;
      SetPixel(data, idx, v);
      forall x0, y0, c0 | 0 <= x0 < width && 0 <= y0 < height && 0 <= c0 < 4 && y0 * width + x0 < y * width + x + 1
        ensures data[PixelIndex(width, height, x0, y0, c0)] == ScanlineValue(y0, c0)
      {
        if y0 * width + x0 == y * width + x {
          SamePixel(width, x0, y0, x, y);
        }
      }
      x := x + 1;
    }
    assert y * width + width == (y + 1) * width;
  }

  /** createScanlineTexture's buffer: width * height RGBA pixels filled row by row, every
      channel of every pixel holding the scanline pattern. */
  method CreateScanlineTexture(width: int, height: int) returns (data: array<Byte>)
    requires width >= 0 && height >= 0
    ensures data.Length == width * height * 4
    ensures forall x, y, c :: 0 <= x < width && 0 <= y < height && 0 <= c < 4 ==>
      data[PixelIndex(width, height, x, y, c)] == ScanlineValue(y, c)
  {
    MulNonNeg(width, height);
    data := new Byte[width * height * 4](_ => 255);
    var y := 0;
    while y < height
      invariant 0 <= y <= height
      invariant Filled(data, width, height, y * width)
    {
      FillRow(data, width, height, y);
      y := y + 1;
    }
    forall x, y, c | 0 <= x < width && 0 <= y < height && 0 <= c < 4
      ensures data[PixelIndex(width, height, x, y, c)] == ScanlineValue(y, c)
    {
      PixelInside(width, height, x, y);
    }
  }

  /** The textures and framebuffers of the post-processing chain; Screen is the window. */
  datatype Target = SceneTex | PostTexA | PostTexB | PingPong0 | PingPong1 | Screen

  /** One full-screen pass of the chain, with what it reads and where it writes. */
  datatype Pass =
    | Present(src: Target)
    | Barrel(src: Target, dst: Target, distortion: real)
    | Chromatic(src: Target, dst: Target, intensity: real)
    | Blur(src: Target, dst: Target, horizontal: bool)
    | Composite(screen: Target, bloom: Target, noise: real, bloomIntensity: real, flicker: real)

  /** The passes run after the scene is drawn: OFF presents the scene as it is, LIGHT runs only
      the composite over the scene without bloom or flicker, FULL runs barrel distortion,
      chromatic aberration, a two-pass blur and the composite. */
  function PostProcess(mode: CrtMode): (r: seq<Pass>)
  {
    match mode
    case Off => [Present(SceneTex)]
    case Light => [Composite(SceneTex, SceneTex, 0.02, 0.0, 0.0)]
    case Full => [
      Barrel(SceneTex, PostTexA, 0.08),
      Chromatic(PostTexA, PostTexB, 1.8),
      Blur(PostTexB, PingPong0, true),
      Blur(PingPong0, PingPong1, false),
      Composite(PostTexB, PingPong1, 0.03, 0.35, 0.02)]
  }

  function Source(p: Pass): (r: Target) {
    match p
    case Present(src) => src
    case Barrel(src, _, _) => src
    case Chromatic(src, _, _) => src
    case Blur(src, _, _) => src
    case Composite(screen, _, _, _, _) => screen
  }

  function Destination(p: Pass): (r: Target) {
    match p
    case Barrel(_, dst, _) => dst
    case Chromatic(_, dst, _) => dst
    case Blur(_, dst, _) => dst
    case _ => Screen
  }

  /** Every mode reads the scene first and ends with exactly one pass to the screen. In FULL
      each offscreen pass writes a target no earlier pass wrote, the distortion chain feeds
      the next pass, the blur reads the aberrated image, and the composite reads the aberrated
      image as its screen and the twice-blurred one as its bloom. In LIGHT bloom and flicker
      are zero. */
  lemma PostProcessChain(mode: CrtMode)
    ensures var ps := PostProcess(mode);
      |ps| >= 1 && Source(ps[0]) == SceneTex && Destination(ps[|ps| - 1]) == Screen &&
      (forall k :: 0 <= k < |ps| - 1 ==> Destination(ps[k]) != Screen)
    ensures mode == Light ==> PostProcess(mode)[0].bloomIntensity == 0.0 && PostProcess(mode)[0].flicker == 0.0
    ensures mode == Full ==> var ps := PostProcess(mode);
      |ps| == 5 &&
      (forall i, j :: 0 <= i < j < 4 ==> Destination(ps[i]) != Destination(ps[j])) &&
      Source(ps[1]) == Destination(ps[0]) && Source(ps[2]) == Destination(ps[1]) &&
      Source(ps[3]) == Destination(ps[2]) &&
      ps[4].screen == Destination(ps[1]) && ps[4].bloom == Destination(ps[3])
  {
  }
}
