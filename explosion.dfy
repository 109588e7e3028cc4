// Explosions of the C++ front end (wargames_cpp/src/Explosion.cpp): four rings that start at
// fixed delays, each growing to 50 pixels while fading out over the time left after the last
// delay, and a central flash during the first half second.

module Explosions {
  import opened Common
  import opened Render

  const NUM_RINGS: nat := 4
  const RING_DELAYS: seq<real> := [0.0, 0.3, 0.6, 0.9]
  const MAX_RADIUS: real := 50.0
  const LIFETIME: real := 2.5
  const FLASH_TIME: real := 0.5

  /** There is one delay per ring, the first ring starts at once and the delays strictly
      increase. */
  lemma RingDelaysShape()
    ensures |RING_DELAYS| == NUM_RINGS && RING_DELAYS[0] == 0.0
    ensures forall i, j :: 0 <= i < j < NUM_RINGS ==> RING_DELAYS[i] < RING_DELAYS[j]
  {
  }

  /** The time over which every ring grows and fades: what is left of the lifetime after the
      last ring's delay. */
  function RingDuration(duration: real): (r: real) {
    duration - RING_DELAYS[NUM_RINGS - 1]
  }

  /** The circle ring i contributes at the given age: none before its delay or after its
      growth; otherwise radius t * 50 and alpha (1 - t) times the colour's, for the fraction t
      of its growth, with four glow layers. */
  function Ring(center: Point, c: Color, age: real, duration: real, i: nat): (r: seq<DrawCall>)
    requires i < NUM_RINGS && RingDuration(duration) > 0.0
  {
    var ringAge := age - RING_DELAYS[i];
    if ringAge < 0.0 then []
    else
      var t := ringAge / RingDuration(duration);
      if t > 1.0 then []
      else [RingCircle(center, c, t)]
  }

  /** A ring at the fraction t of its growth. */
  function RingCircle(center: Point, c: Color, t: real): (r: DrawCall) {
    GlowCircle(center, t * MAX_RADIUS, Color(c.r, c.g, c.b, (1.0 - t) * c.a), 4)
  }

  /** The circles of rings 0 to n - 1, in ring order. */
  function Rings(center: Point, c: Color, age: real, duration: real, n: nat): (r: seq<DrawCall>)
    requires n <= NUM_RINGS && RingDuration(duration) > 0.0
  {
    if n == 0 then [] else Rings(center, c, age, duration, n - 1) + Ring(center, c, age, duration, n - 1)
  }

  /** The central flash: before half a second, radius 5 + 10 age and alpha 1 - age / 0.5 (not
      scaled by the colour's alpha), with five glow layers. */
  function Flash(center: Point, c: Color, age: real): (r: seq<DrawCall>) {
    if age < FLASH_TIME then
      [GlowCircle(center, 5.0 + age * 10.0, Color(c.r, c.g, c.b, 1.0 - age / FLASH_TIME), 5)]
    else []
  }

  /** With the 2.5 s lifetime, ring i is drawn exactly while its age since its delay lies in
      [0, 1.6]; a drawn ring is centred on the explosion, has four glow layers, a radius in
      [0, 50] and an alpha factor in [0, 1]. */
  lemma RingWindow(center: Point, c: Color, age: real, i: nat)
    requires i < NUM_RINGS
    ensures RingDuration(LIFETIME) == 1.6
    ensures |Ring(center, c, age, LIFETIME, i)| <= 1
    ensures |Ring(center, c, age, LIFETIME, i)| == 1 <==> 0.0 <= age - RING_DELAYS[i] <= 1.6
    ensures |Ring(center, c, age, LIFETIME, i)| == 1 ==>
      var call := Ring(center, c, age, LIFETIME, i)[0];
      var t := (age - RING_DELAYS[i]) / 1.6;
      call.GlowCircle? && call.center == center && call.layers == 4 &&
      0.0 <= t <= 1.0 && call.radius == t * MAX_RADIUS && 0.0 <= call.radius <= MAX_RADIUS &&
      call.color == Color(c.r, c.g, c.b, (1.0 - t) * c.a)
  {
  }

  /** The flash is drawn exactly before half a second; from age 0 on its alpha lies in (0, 1]
      and its radius in [5, 10). */
  lemma FlashWindow(center: Point, c: Color, age: real)
    ensures |Flash(center, c, age)| == 1 <==> age < FLASH_TIME
    ensures 0.0 <= age < FLASH_TIME ==>
      var call := Flash(center, c, age)[0];
      0.0 < call.color.a <= 1.0 && 5.0 <= call.radius < 10.0 && call.layers == 5
  {
  }

  /** Every ring has finished growing once the lifetime is over: past 2.5 s nothing is drawn,
      and at exactly 2.5 s only the last ring, fully grown and fully transparent. */
  lemma NothingAfterLifetime(center: Point, c: Color, age: real)
    requires age >= LIFETIME
    ensures age > LIFETIME ==> Rings(center, c, age, LIFETIME, NUM_RINGS) + Flash(center, c, age) == []
    ensures age == LIFETIME ==> (Rings(center, c, age, LIFETIME, NUM_RINGS) + Flash(center, c, age)
      == [GlowCircle(center, MAX_RADIUS, Color(c.r, c.g, c.b, 0.0), 4)])
  {
    var r0, r1 := Ring(center, c, age, LIFETIME, 0), Ring(center, c, age, LIFETIME, 1);
    var r2, r3 := Ring(center, c, age, LIFETIME, 2), Ring(center, c, age, LIFETIME, 3);
    assert Rings(center, c, age, LIFETIME, 1) == r0;
    assert Rings(center, c, age, LIFETIME, 2) == r0 + r1;
    assert Rings(center, c, age, LIFETIME, 3) == r0 + r1 + r2;
    assert Rings(center, c, age, LIFETIME, 4) == r0 + r1 + r2 + r3;
    assert r0 == [] && r1 == [] && r2 == [];
    if age == LIFETIME {
      assert (age - RING_DELAYS[3]) / RingDuration(LIFETIME) == 1.0;
      assert r3 == [RingCircle(center, c, 1.0)];
      assert Flash(center, c, age) == [];
    }
  }

  class Explosion {
    const x: real
    const y: real
    const color: Color
    var age: real
    const duration: real

    /** The lifetime is the fixed 2.5 seconds. */
    predicate Valid() {
      duration == LIFETIME
    }

    constructor(x: real, y: real, color: Color)
      ensures Valid() && this.x == x && this.y == y && this.color == color && age == 0.0
    {
      this.x := x;
      this.y := y;
      this.color := color;
      age := 0.0;
      duration := LIFETIME;
    }

    predicate IsFinished()
      reads this
    {
      age >= duration
    }

    /** update: the age grows by dt; with dt >= 0 it never falls, so a finished explosion
        stays finished. */
    method Update(dt: real)
      modifies this
      ensures age == old(age) + dt
      ensures dt >= 0.0 ==> old(age) <= age && (old(IsFinished()) ==> IsFinished())
    {
      age := age + dt;
    }

    /** draw: the rings in order, each only inside its window, then the flash; nothing about
        the explosion changes. */
    method Draw() returns (calls: seq<DrawCall>)
      requires Valid()
      ensures calls == Rings(Point(x, y), color, age, duration, NUM_RINGS) + Flash(Point(x, y), color, age)
    {
      var ringDuration := RingDuration(duration);
      calls := [];
      var i := 0;
      while i < NUM_RINGS
        invariant 0 <= i <= NUM_RINGS
        invariant calls == Rings(Point(x, y), color, age, duration, i)
      {
        var ringAge := age - RING_DELAYS[i];
        if ringAge >= 0.0 {
          var t := ringAge / ringDuration;
          if t <= 1.0 {
            calls := calls + [RingCircle(Point(x, y), color, t)];
          }
        }
        i := i + 1;
      }
      if age < 0.5 {
        var flashAlpha := 1.0 - age / 0.5;
        var flashRadius := 5.0 + age * 10.0;
        var flashColor := Color(color.r, color.g, color.b, flashAlpha);
        calls := calls + [GlowCircle(Point(x, y), flashRadius, flashColor, 5)];
      }
    }
  }
}
