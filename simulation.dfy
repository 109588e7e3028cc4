// The state of the C++ main loop (wargames_cpp/src/main.cpp) and one frame of it: key events,
// the launch timer, the updates of aircraft, missiles and explosions, the explosion a landing
// missile leaves behind and the removal of finished missiles and explosions.

module Simulation {
  import opened Common
  import opened Controls
  import Missiles
  import Explosions
  import Aircrafts

  /** The random draws behind one launch: a regular missile between two launch targets, or a
      submarine missile from a submarine point to an eastern or a western target. */
  datatype LaunchChoice =
    | Regular(startIdx: int, endIdx: int)
    | FromSea(startIdx: int, eastern: bool, targetIdx: int)

  /** The draws index their tables. */
  predicate ChoiceInRange(c: LaunchChoice) {
    match c
    case Regular(s, e) => 0 <= s < |TARGET_LOCATIONS| && 0 <= e < |TARGET_LOCATIONS|
    case FromSea(s, east, t) =>
      0 <= s < |SUBMARINE_POINTS| && 0 <= t < (if east then |EASTERN_TARGETS| else |WESTERN_TARGETS|)
  }

  function LaunchStart(c: LaunchChoice): (r: LatLon)
    requires ChoiceInRange(c)
  {
    match c
    case Regular(s, _) => TARGET_LOCATIONS[s]
    case FromSea(s, _, _) => SUBMARINE_POINTS[s]
  }

  function LaunchEnd(c: LaunchChoice): (r: LatLon)
    requires ChoiceInRange(c)
  {
    match c
    case Regular(_, e) => TARGET_LOCATIONS[e]
    case FromSea(_, east, t) => if east then EASTERN_TARGETS[t] else WESTERN_TARGETS[t]
  }

  function LauncherOf(c: LaunchChoice): (r: Missiles.Launcher) {
    if c.Regular? then Missiles.FromBase else Missiles.FromSubmarine
  }

  /** Every launch starts and ends on the globe, and its colour is red exactly when it is a
      regular launch at Moscow or Tokyo or a submarine launch at the eastern Moscow entry. */
  lemma LaunchesOnGlobe(c: LaunchChoice)
    requires ChoiceInRange(c)
    ensures OnGlobe(LaunchStart(c)) && OnGlobe(LaunchEnd(c))
    ensures ColorForTarget(LaunchEnd(c)) == RED <==>
      match c
      case Regular(_, e) => e == 0 || e == 2
      case FromSea(_, east, t) => east && t == 0
  {
    TablesWellFormed();
    TargetColors();
  }

  /** The missile the given draws launch: its launcher, the colour of its target, its base at
      the projected start, and the 220 samples of the geodesic between start and end. */
  ghost predicate LaunchedFor(m: Missiles.Missile, c: LaunchChoice, geodesic: (LatLon, LatLon) -> (real -> LatLon))
    requires ChoiceInRange(c)
  {
    m.kind == LauncherOf(c) && m.color == ColorForTarget(LaunchEnd(c)) &&
    m.basePos == Missiles.Projected(LaunchStart(c)) &&
    m.path == Missiles.SamplePath(geodesic(LaunchStart(c), LaunchEnd(c)), Missiles.SAMPLES)
  }

  /** The launch timer over a frame of dt: from `before` it either reaches the interval, so
      it restarts at zero (`after`) and exactly one missile is launched for the draws c, or it
      has gathered dt and nothing is launched. */
  ghost predicate LaunchTimer(before: real, dt: real, interval: real, after: real, launched: seq<Missiles.Missile>,
                              c: LaunchChoice, geodesic: (LatLon, LatLon) -> (real -> LatLon))
    requires ChoiceInRange(c)
  {
    if before + dt >= interval then
      after == 0.0 && |launched| == 1 && LaunchedFor(launched[0], c, geodesic)
    else
      after == before + dt && launched == []
  }

  /** That missile freshly constructed: valid and without progress. */
  ghost predicate Launched(m: Missiles.Missile, c: LaunchChoice, geodesic: (LatLon, LatLon) -> (real -> LatLon))
    reads m
    requires ChoiceInRange(c)
  {
    m.Valid() && m.progress == 0.0 && LaunchedFor(m, c, geodesic)
  }

  /** The missiles launched for each of the draws, in order. */
  ghost predicate LaunchedAll(ms: seq<Missiles.Missile>, cs: seq<LaunchChoice>, geodesic: (LatLon, LatLon) -> (real -> LatLon))
    reads ms
  {
    |ms| == |cs| && forall k :: 0 <= k < |ms| ==> ChoiceInRange(cs[k]) && Launched(ms[k], cs[k], geodesic)
  }

  /** One more launch for one more draw. */
  lemma LaunchedAllSnoc(ms: seq<Missiles.Missile>, cs: seq<LaunchChoice>, m: Missiles.Missile, c: LaunchChoice,
                        geodesic: (LatLon, LatLon) -> (real -> LatLon))
    requires LaunchedAll(ms, cs, geodesic) && ChoiceInRange(c) && Launched(m, c, geodesic)
    ensures LaunchedAll(ms + [m], cs + [c], geodesic)
  {
  }

  /** The progress of each missile. */
  ghost function Progresses(ms: seq<Missiles.Missile>): (r: seq<real>)
    reads ms
    ensures |r| == |ms| && forall k :: 0 <= k < |ms| ==> r[k] == ms[k].progress
  {
    seq(|ms|, k requires 0 <= k < |ms| reads ms => ms[k].progress)
  }

  /** Missiles 0 to i - 1 have advanced by dt from the progress recorded in `before`, the
      rest are still at it, and all are valid. */
  ghost predicate Advanced(ms: seq<Missiles.Missile>, before: seq<real>, i: int, dt: real)
    reads ms
  {
    |before| == |ms| && 0 <= i <= |ms| &&
    forall k :: 0 <= k < |ms| ==>
      ms[k].Valid() &&
      ms[k].progress == (if k < i then Missiles.Advance(before[k], dt, Missiles.FLIGHT_SECONDS) else before[k])
  }

  /** Every missile's progress has advanced by dt from the one recorded in `before`. */
  ghost predicate ProgressedBy(ms: seq<Missiles.Missile>, before: seq<real>, dt: real)
    reads ms
  {
    |before| == |ms| &&
    forall k :: 0 <= k < |ms| ==> ms[k].progress == Missiles.Advance(before[k], dt, Missiles.FLIGHT_SECONDS)
  }

  /** The two parts of a list that advanced together each advanced. */
  lemma ProgressedSplit(a: seq<Missiles.Missile>, b: seq<Missiles.Missile>, pa: seq<real>, pb: seq<real>, dt: real)
    requires |pa| == |a| && ProgressedBy(a + b, pa + pb, dt)
    ensures ProgressedBy(a, pa, dt) && ProgressedBy(b, pb, dt)
  {
    assert forall k :: 0 <= k < |a| ==> (a + b)[k] == a[k] && (pa + pb)[k] == pa[k];
    assert forall k :: 0 <= k < |b| ==> (a + b)[|a| + k] == b[k] && (pa + pb)[|a| + k] == pb[k];
  }

  /** The age of each explosion. */
  ghost function Ages(es: seq<Explosions.Explosion>): (r: seq<real>)
    reads es
    ensures |r| == |es| && forall k {:trigger r[k]} :: 0 <= k < |es| ==> r[k] == es[k].age
  {
    seq(|es|, k requires 0 <= k < |es| reads es => es[k].age)
  }

  /** Every explosion has aged by dt from the age recorded in `before`. */
  ghost predicate AgedBy(es: seq<Explosions.Explosion>, before: seq<real>, dt: real)
    reads es
  {
    |before| == |es| && forall k :: 0 <= k < |es| ==> es[k].age == before[k] + dt
  }

  /** The progress of each aircraft around its loop. */
  ghost function Phases(planes: seq<Aircrafts.Aircraft>): (r: seq<real>)
    reads planes
    ensures |r| == |planes| && forall k {:trigger r[k]} :: 0 <= k < |planes| ==> r[k] == planes[k].progress
  {
    seq(|planes|, k requires 0 <= k < |planes| reads planes => planes[k].progress)
  }

  /** Every aircraft has cycled by dt around its loop from the progress recorded in
      `before`. */
  ghost predicate CycledBy(planes: seq<Aircrafts.Aircraft>, before: seq<real>, dt: real)
    reads planes
  {
    |before| == |planes| &&
    forall k :: 0 <= k < |planes| ==> planes[k].progress == Aircrafts.Cycle(before[k], dt, planes[k].duration, |planes[k].path|)
  }

  /** The missiles still in flight, in their order. */
  function StillFlying(ms: seq<Missiles.Missile>): (r: seq<Missiles.Missile>)
    reads ms
  {
    if ms == [] then []
    else StillFlying(ms[..|ms| - 1]) + (if ms[|ms| - 1].IsFinished() then [] else [ms[|ms| - 1]])
  }

  /** Where a missile ends up: the last point of its trail, or the origin without one. */
  ghost function LandingPoint(m: Missiles.Missile): (r: Point)
  {
    if m.path == [] then Point(0.0, 0.0) else m.path[|m.path| - 1]
  }

  /** Where the landed missiles are, in their order: one point per finished missile. */
  ghost function Landings(ms: seq<Missiles.Missile>): (r: seq<Point>)
    reads ms
  {
    if ms == [] then []
    else Landings(ms[..|ms| - 1]) + (if ms[|ms| - 1].IsFinished() then [LandingPoint(ms[|ms| - 1])] else [])
  }

  /** Every missile either lands, leaving one landing point, or stays in flight, never both:
      the landings and the missiles in flight add up to the missiles, and the missiles in
      flight are exactly the unfinished ones. */
  lemma {:induction false} LandOrFly(ms: seq<Missiles.Missile>)
    ensures |Landings(ms)| + |StillFlying(ms)| == |ms|
    ensures forall m :: m in StillFlying(ms) <==> m in ms && !m.IsFinished()
  {
    if ms != [] {
      var init := ms[..|ms| - 1];
      LandOrFly(init);
      var fly := StillFlying(ms);
      assert fly == StillFlying(init) + (if ms[|ms| - 1].IsFinished() then [] else [ms[|ms| - 1]]);
      forall m
        ensures m in fly <==> m in ms && !m.IsFinished()
      {
        assert m in ms <==> m in init || m == ms[|ms| - 1];
      }
    }
  }

  /** The explosions still burning, in their order. */
  function StillBurning(es: seq<Explosions.Explosion>): (r: seq<Explosions.Explosion>)
    reads es
  {
    if es == [] then []
    else StillBurning(es[..|es| - 1]) + (if es[|es| - 1].IsFinished() then [] else [es[|es| - 1]])
  }

  /** The burning explosions are exactly the unfinished ones. */
  lemma {:induction false} StillBurningMembers(es: seq<Explosions.Explosion>)
    ensures |StillBurning(es)| <= |es|
    ensures forall e :: e in StillBurning(es) <==> e in es && !e.IsFinished()
  {
    if es != [] {
      var init := es[..|es| - 1];
      StillBurningMembers(init);
      forall e
        ensures e in StillBurning(es) <==> e in es && !e.IsFinished()
      {
        assert e in es <==> e in init || e == es[|es| - 1];
      }
    }
  }

  /** Filtering keeps distinct elements distinct. */
  lemma {:induction false} StillFlyingDistinct(ms: seq<Missiles.Missile>)
    requires Distinct(ms)
    ensures Distinct(StillFlying(ms))
  {
    if ms != [] {
      var init := ms[..|ms| - 1];
      assert Distinct(init);
      StillFlyingDistinct(init);
      LandOrFly(init);
      assert ms[|ms| - 1] !in init;
    }
  }

  /** Filtering keeps distinct elements distinct. */
  lemma {:induction false} StillBurningDistinct(es: seq<Explosions.Explosion>)
    requires Distinct(es)
    ensures Distinct(StillBurning(es))
  {
    if es != [] {
      var init := es[..|es| - 1];
      assert Distinct(init);
      StillBurningDistinct(init);
      StillBurningMembers(init);
      assert es[|es| - 1] !in init;
    }
  }

  /** Explosions just spawned at the given points: cyan, 2.5 s long, of the given age. */
  ghost predicate Blasts(es: seq<Explosions.Explosion>, at: seq<Point>, age: real)
    reads es
  {
    |es| == |at| &&
    forall k :: 0 <= k < |es| ==>
      es[k].Valid() && Point(es[k].x, es[k].y) == at[k] && es[k].color == CYAN && es[k].age == age
  }

  /** One more explosion at one more point. */
  lemma BlastsSnoc(es: seq<Explosions.Explosion>, at: seq<Point>, e: Explosions.Explosion, p: Point, age: real)
    requires Blasts(es, at, age)
    requires e.Valid() && Point(e.x, e.y) == p && e.color == CYAN && e.age == age
    ensures Blasts(es + [e], at + [p], age)
  {
  }

  /** One missile's update keeps the new explosions in step with the landings: a missile
      that lands adds its explosion, one that flies on adds nothing. */
  lemma LandingStep(ms: seq<Missiles.Missile>, i: int, spawned: seq<Explosions.Explosion>,
                    added: seq<Explosions.Explosion>)
    requires 0 <= i < |ms|
    requires Blasts(spawned, Landings(ms[..i]), 0.0)
    requires !ms[i].IsFinished() ==> added == []
    requires ms[i].IsFinished() ==> Blasts(added, [LandingPoint(ms[i])], 0.0)
    ensures Blasts(spawned + added, Landings(ms[..i + 1]), 0.0)
  {
    assert ms[..i + 1][..i] == ms[..i] && ms[..i + 1][i] == ms[i];
    if ms[i].IsFinished() {
      BlastsSnoc(spawned, Landings(ms[..i]), added[0], LandingPoint(ms[i]), 0.0);
      assert spawned + added == spawned + [added[0]];
    } else {
      assert spawned + added == spawned;
    }
  }

  /** Every missile is valid and still flying; no missile appears twice. */
  ghost predicate Flying(ms: seq<Missiles.Missile>)
    reads ms
  {
    (forall k :: 0 <= k < |ms| ==> ms[k].Valid() && !ms[k].IsFinished()) && Distinct(ms)
  }

  /** A new flying missile joins the flying ones. */
  lemma FlyingSnoc(ms: seq<Missiles.Missile>, m: Missiles.Missile)
    requires Flying(ms) && m.Valid() && !m.IsFinished() && m !in ms
    ensures Flying(ms + [m])
  {
  }

  /** Every explosion is valid and still burning; no explosion appears twice. */
  ghost predicate Burning(es: seq<Explosions.Explosion>)
    reads es
  {
    (forall k :: 0 <= k < |es| ==> es[k].Valid() && !es[k].IsFinished()) && Distinct(es)
  }

  /** The draws of a SPACE burst: five regular launches, then three submarine launches. */
  predicate BurstInRange(burst: seq<LaunchChoice>) {
    |burst| == 8 &&
    (forall k :: 0 <= k < 8 ==> ChoiceInRange(burst[k])) &&
    (forall k :: 0 <= k < 5 ==> burst[k].Regular?) &&
    (forall k :: 5 <= k < 8 ==> burst[k].FromSea?)
  }

  class Simulation {
    var running: bool
    var fullscreen: bool
    var crtMode: CrtMode
    var launchInterval: real
    var timeSinceLastLaunch: real
    var missiles: seq<Missiles.Missile>
    var explosions: seq<Explosions.Explosion>
    const aircraft: seq<Aircrafts.Aircraft>
    /** The geodesic between two points, as a function from the fraction of the way along it. */
    const geodesic: (LatLon, LatLon) -> (real -> LatLon)

    /** Between frames: the interval is in its bounds, every missile is still flying, every
        explosion still burning, every aircraft valid, and no entity is listed twice. */
    ghost predicate Valid()
      reads this, missiles, explosions, aircraft
    {
      MIN_INTERVAL <= launchInterval <= MAX_INTERVAL &&
      Flying(missiles) && Burning(explosions) &&
      (forall k :: 0 <= k < |aircraft| ==> aircraft[k].Valid()) && Distinct(aircraft)
    }

    /** The start state: running, windowed, CRT effects off, a 2 s launch interval with the
        timer already at the interval so the first frame launches, and no missiles or
        explosions. */
    constructor(geodesic: (LatLon, LatLon) -> (real -> LatLon), aircraft: seq<Aircrafts.Aircraft>)
      requires (forall k :: 0 <= k < |aircraft| ==> aircraft[k].Valid()) && Distinct(aircraft)
      ensures Valid()
      ensures running && !fullscreen && crtMode == Off
      ensures launchInterval == DEFAULT_INTERVAL && timeSinceLastLaunch == launchInterval
      ensures missiles == [] && explosions == []
      ensures this.aircraft == aircraft && this.geodesic == geodesic
    {
      running := true;
      fullscreen := false;
      crtMode := Off;
      launchInterval := DEFAULT_INTERVAL;
      timeSinceLastLaunch := DEFAULT_INTERVAL;
      missiles := [];
      explosions := [];
      this.aircraft := aircraft;
      this.geodesic := geodesic;
    }

    /** Appends one new missile for the given draws. */
    method Launch(c: LaunchChoice) returns (m: Missiles.Missile)
      requires Valid() && ChoiceInRange(c)
      modifies this`missiles
      ensures Valid()
      ensures missiles == old(missiles) + [m] && fresh(m) && Launched(m, c, geodesic)
    {
      var start := LaunchStart(c);
      var end := LaunchEnd(c);
      var color := ColorForTarget(end);
      m := new Missiles.Missile(LauncherOf(c), start, end, color, geodesic(start, end));
      assert !m.IsFinished();
      FlyingSnoc(missiles, m);
      missiles := missiles + [m];
    }

    /** Handles one event. Quit, ESC and Q stop the loop; UP, DOWN and R set the launch
        interval; C cycles the CRT mode; F toggles fullscreen; SPACE launches the burst. */
    method HandleEvent(ev: Event, burst: seq<LaunchChoice>)
      requires Valid()
      requires ev == KeyDown(Space) ==> BurstInRange(burst)
      modifies this`running, this`fullscreen, this`crtMode, this`launchInterval, this`missiles
      ensures Valid()
      ensures running == (old(running) && ev != Quit && ev != KeyDown(Escape) && ev != KeyDown(KeyQ))
      ensures launchInterval == (if ev.KeyDown? then NextInterval(old(launchInterval), ev.key) else old(launchInterval))
      ensures crtMode == (if ev == KeyDown(KeyC) then NextCrtMode(old(crtMode)) else old(crtMode))
      ensures fullscreen == (if ev == KeyDown(KeyF) then !old(fullscreen) else old(fullscreen))
      ensures ev != KeyDown(Space) ==> missiles == old(missiles)
      ensures ev == KeyDown(Space) ==>
        |missiles| == |old(missiles)| + 8 && missiles[..|old(missiles)|] == old(missiles) &&
        LaunchedAll(missiles[|old(missiles)|..], burst, geodesic) &&
        fresh(missiles[|old(missiles)|..])
    {
      if ev == Quit {
        running := false;
        return;
      }
      NextIntervalBounds(launchInterval, ev.key);
      match ev.key {
        case Escape =>
          running := false;
        case KeyQ =>
          running := false;
        case Up =>
          launchInterval := NextInterval(launchInterval, Up);
        case Down =>
          launchInterval := NextInterval(launchInterval, Down);
        case KeyR =>
          launchInterval := DEFAULT_INTERVAL;
        case Space =>
          LaunchBurst(burst);
        case KeyC =>
          crtMode := NextCrtMode(crtMode);
        case KeyF =>
          fullscreen := !fullscreen;
        case OtherKey =>
      }
    }

    /** SPACE: the eight launches of the burst, in order. */
    method LaunchBurst(burst: seq<LaunchChoice>)
      requires Valid() && BurstInRange(burst)
      modifies this`missiles
      ensures Valid()
      ensures |missiles| == |old(missiles)| + 8 && missiles[..|old(missiles)|] == old(missiles)
      ensures LaunchedAll(missiles[|old(missiles)|..], burst, geodesic)
      ensures fresh(missiles[|old(missiles)|..])
    {
      ghost var launched: seq<Missiles.Missile> := [];
      var i := 0;
      while i < 8
        invariant 0 <= i <= 8
        invariant Valid()
        invariant missiles == old(missiles) + launched
        invariant LaunchedAll(launched, burst[..i], geodesic)
        invariant fresh(launched)
      {
        var m := LaunchNext(burst, i, old(missiles), launched);
        launched := launched + [m];
        i := i + 1;
      }
      assert burst[..8] == burst;
      assert missiles[|old(missiles)|..] == launched;
    }

    /** The loop step of the burst: launch i joins the ones before it. */
    method LaunchNext(burst: seq<LaunchChoice>, i: int, ghost before: seq<Missiles.Missile>,
                      ghost launched: seq<Missiles.Missile>) returns (m: Missiles.Missile)
      requires Valid() && BurstInRange(burst) && 0 <= i < 8
      requires missiles == before + launched && LaunchedAll(launched, burst[..i], geodesic)
      modifies this`missiles
      ensures Valid() && fresh(m)
      ensures missiles == before + (launched + [m]) && LaunchedAll(launched + [m], burst[..i + 1], geodesic)
    {
      m := Launch(burst[i]);
      AppendAssoc(before, launched, [m]);
      assert burst[..i + 1] == burst[..i] + [burst[i]];
      LaunchedAllSnoc(launched, burst[..i], m, burst[i], geodesic);
    }

    /** The launch timer: it gathers dt, and once it reaches the interval it restarts at zero
        and exactly one missile is launched. */
    method SpawnPhase(dt: real, c: LaunchChoice) returns (ghost launched: seq<Missiles.Missile>)
      requires Valid() && ChoiceInRange(c)
      modifies this`timeSinceLastLaunch, this`missiles
      ensures Valid()
      ensures LaunchTimer(old(timeSinceLastLaunch), dt, launchInterval, timeSinceLastLaunch, launched, c, geodesic)
      ensures missiles == old(missiles) + launched && fresh(launched)
      ensures Progresses(missiles) == old(Progresses(missiles)) + seq(|launched|, k => 0.0)
    {
      timeSinceLastLaunch := timeSinceLastLaunch + dt;
      launched := [];
      if timeSinceLastLaunch >= launchInterval {
        timeSinceLastLaunch := 0.0;
        ghost var n := |missiles|;
        var m := Launch(c);
        launched := [missiles[n]];
        assert missiles == old(missiles) + launched;
      }
    }

    /** Advances every aircraft around its loop. */
    method UpdateAircraft(dt: real)
      requires Valid() && dt >= 0.0
      modifies aircraft
      ensures Valid() && unchanged(missiles)
      ensures forall k :: 0 <= k < |aircraft| ==>
        aircraft[k].progress == Aircrafts.Cycle(old(aircraft[k].progress), dt, aircraft[k].duration, |aircraft[k].path|)
    {
      var i := 0;
      while i < |aircraft|
        invariant 0 <= i <= |aircraft|
        invariant Valid()
        invariant forall k :: 0 <= k < i ==>
          aircraft[k].progress == Aircrafts.Cycle(old(aircraft[k].progress), dt, aircraft[k].duration, |aircraft[k].path|)
        invariant forall k :: i <= k < |aircraft| ==> aircraft[k].progress == old(aircraft[k].progress)
      {
        aircraft[i].Update(dt);
        i := i + 1;
      }
    }

    /** Advances every missile; each one that is finished afterwards leaves a new cyan
        explosion at its position, appended in missile order. */
    method UpdateMissiles(dt: real)
      requires Flying(missiles) && Burning(explosions) && dt >= 0.0
      modifies this`explosions, missiles
      ensures forall k :: 0 <= k < |missiles| ==>
        missiles[k].Valid() &&
        missiles[k].progress == Missiles.Advance(old(missiles[k].progress), dt, Missiles.FLIGHT_SECONDS)
      ensures |explosions| >= |old(explosions)| && explosions[..|old(explosions)|] == old(explosions)
      ensures Blasts(explosions[|old(explosions)|..], Landings(missiles), 0.0)
      ensures fresh(explosions[|old(explosions)|..])
      ensures Burning(explosions) && unchanged(old(explosions))
    {
      ghost var before := Progresses(missiles);
      ghost var spawned: seq<Explosions.Explosion> := [];
      var i := 0;
      while i < |missiles|
        invariant Advanced(missiles, before, i, dt)
        invariant explosions == old(explosions) + spawned
        invariant Blasts(spawned, Landings(missiles[..i]), 0.0)
        invariant fresh(spawned)
        invariant Burning(explosions)
      {
        ghost var added := AdvanceMissile(i, before, spawned, dt);
        AppendAssoc(old(explosions), spawned, added);
        spawned := spawned + added;
        i := i + 1;
      }
      assert missiles[..i] == missiles;
      assert explosions[|old(explosions)|..] == spawned;
    }

    /** The loop step of the missile update: missile i advances, and the explosions added for
        it keep the new explosions in step with the landings of missiles 0 to i. */
    method AdvanceMissile(i: nat, ghost before: seq<real>, ghost spawned: seq<Explosions.Explosion>, dt: real)
      returns (ghost added: seq<Explosions.Explosion>)
      requires i < |missiles| && Distinct(missiles) && dt >= 0.0
      requires Advanced(missiles, before, i, dt)
      requires Blasts(spawned, Landings(missiles[..i]), 0.0) && Burning(explosions)
      modifies this`explosions, missiles[i]
      ensures Advanced(missiles, before, i + 1, dt)
      ensures explosions == old(explosions) + added && fresh(added) && Burning(explosions)
      ensures Blasts(spawned + added, Landings(missiles[..i + 1]), 0.0)
    {
      var m := missiles[i];
      assert m !in missiles[..i];
      ghost var landed := Landings(missiles[..i]);
      added := StepMissile(m, dt);
      assert Landings(missiles[..i]) == landed;
      LandingStep(missiles, i, spawned, added);
      forall k | 0 <= k < |missiles| && k != i
        ensures missiles[k].progress == old(missiles[k].progress)
      {
        assert missiles[k] != m;
      }
    }

    /** One missile's share of the update: it advances, and if it is finished afterwards a
        cyan explosion is appended where it is. */
    method StepMissile(m: Missiles.Missile, dt: real) returns (ghost added: seq<Explosions.Explosion>)
      requires m.Valid() && dt >= 0.0 && Burning(explosions)
      modifies this`explosions, m
      ensures m.Valid() && m.progress == Missiles.Advance(old(m.progress), dt, Missiles.FLIGHT_SECONDS)
      ensures explosions == old(explosions) + added
      ensures !m.IsFinished() ==> added == []
      ensures m.IsFinished() ==> Blasts(added, [LandingPoint(m)], 0.0)
      ensures fresh(added)
      ensures Burning(explosions)
    {
      m.Update(dt);
      added := [];
      if m.IsFinished() {
        Detonate(m);
        added := [explosions[|explosions| - 1]];
        assert explosions == old(explosions) + added;
      }
    }

    /** A cyan explosion where the finished missile is, at the end of its trail, appended to
        the explosions. */
    method Detonate(m: Missiles.Missile)
      requires m.Valid() && m.IsFinished() && Burning(explosions)
      modifies this`explosions
      ensures |explosions| == |old(explosions)| + 1 && explosions[..|old(explosions)|] == old(explosions)
      ensures fresh(explosions[|old(explosions)|]) && Burning(explosions)
      ensures Blasts(explosions[|old(explosions)|..], [LandingPoint(m)], 0.0)
    {
      var pos := m.Position();
      var e := new Explosions.Explosion(pos.x, pos.y, CYAN);
      explosions := explosions + [e];
    }

    /** One frame of the main loop for a raw frame time rawDt: the capped time dt drives the
        launch timer (launching for the draws c when it fires), every aircraft, missile and
        explosion. Each missile finished after its update leaves exactly one explosion at the
        end of its trail, appended after the older explosions and aged by dt in the same
        frame, and is removed; finished explosions are removed. */
    method Tick(rawDt: real, c: LaunchChoice)
      returns (ghost launched: seq<Missiles.Missile>, ghost blasts: seq<Explosions.Explosion>)
      requires Valid() && rawDt >= 0.0 && ChoiceInRange(c)
      modifies this`timeSinceLastLaunch, this`missiles, this`explosions, missiles, explosions, aircraft
      ensures Valid()
      ensures LaunchTimer(old(timeSinceLastLaunch), CapDelta(rawDt), launchInterval, timeSinceLastLaunch, launched, c, geodesic)
      ensures fresh(launched)
      ensures ProgressedBy(old(missiles), old(Progresses(missiles)), CapDelta(rawDt))
      ensures ProgressedBy(launched, seq(|launched|, k => 0.0), CapDelta(rawDt))
      ensures CycledBy(aircraft, old(Phases(aircraft)), CapDelta(rawDt))
      ensures AgedBy(old(explosions), old(Ages(explosions)), CapDelta(rawDt))
      ensures missiles == StillFlying(old(missiles) + launched)
      ensures Blasts(blasts, Landings(old(missiles) + launched), CapDelta(rawDt))
      ensures fresh(blasts)
      ensures explosions == StillBurning(old(explosions) + blasts)
    {
      var dt := CapDelta(rawDt);
      ghost var ms0, p0 := missiles, Progresses(missiles);
      ghost var ages, phases := Ages(explosions), Phases(aircraft);
      launched := SpawnPhase(dt, c);
      assert explosions == old(explosions) && Ages(explosions) == ages && Phases(aircraft) == phases;
      ghost var timer, interval := timeSinceLastLaunch, launchInterval;
      assert LaunchTimer(old(timeSinceLastLaunch), dt, interval, timer, launched, c, geodesic);
      ghost var zeros := seq(|launched|, k => 0.0);
      blasts := UpdatePhase(dt);
      assert timeSinceLastLaunch == timer && launchInterval == interval;
      ProgressedSplit(ms0, launched, p0, zeros, dt);
    }

    /** The updates of a frame after the launch timer: the aircraft, then the missiles and
        explosions. */
    method UpdatePhase(dt: real) returns (ghost blasts: seq<Explosions.Explosion>)
      requires Valid() && dt >= 0.0
      modifies this`missiles, this`explosions, missiles, explosions, aircraft
      ensures Valid()
      ensures timeSinceLastLaunch == old(timeSinceLastLaunch) && launchInterval == old(launchInterval)
      ensures ProgressedBy(old(missiles), old(Progresses(missiles)), dt)
      ensures CycledBy(aircraft, old(Phases(aircraft)), dt)
      ensures AgedBy(old(explosions), old(Ages(explosions)), dt)
      ensures missiles == StillFlying(old(missiles))
      ensures Blasts(blasts, Landings(old(missiles)), dt)
      ensures fresh(blasts)
      ensures explosions == StillBurning(old(explosions) + blasts)
    {
      UpdateAircraft(dt);
      blasts := UpdateMissilesAndExplosions(dt);
    }

    /** The missiles and explosions of a frame: every missile advances, each one finished
        afterwards leaves its explosion, which ages by dt with the others, and the finished
        missiles and explosions are dropped. */
    method UpdateMissilesAndExplosions(dt: real) returns (ghost blasts: seq<Explosions.Explosion>)
      requires Valid() && dt >= 0.0
      modifies this`missiles, this`explosions, missiles, explosions
      ensures Valid()
      ensures ProgressedBy(old(missiles), old(Progresses(missiles)), dt)
      ensures AgedBy(old(explosions), old(Ages(explosions)), dt)
      ensures missiles == StillFlying(old(missiles))
      ensures Blasts(blasts, Landings(old(missiles)), dt)
      ensures fresh(blasts)
      ensures explosions == StillBurning(old(explosions) + blasts)
    {
      ghost var all, es0 := missiles, explosions;
      blasts := FlightPhase(dt);
      ghost var landed := Landings(all);
      ExplosionPhase(dt, all, es0, blasts, landed);
    }

    /** The missiles' share of a frame after the launch timer: every missile advances, each
        one finished afterwards leaves its explosion, and the finished ones are dropped. */
    method FlightPhase(dt: real) returns (ghost blasts: seq<Explosions.Explosion>)
      requires Valid() && dt >= 0.0
      modifies this`missiles, this`explosions, missiles
      ensures Valid() && unchanged(aircraft) && unchanged(old(explosions))
      ensures forall k :: 0 <= k < |old(missiles)| ==>
        old(missiles)[k].progress == Missiles.Advance(old(missiles[k].progress), dt, Missiles.FLIGHT_SECONDS)
      ensures missiles == StillFlying(old(missiles))
      ensures explosions == old(explosions) + blasts
      ensures Blasts(blasts, Landings(old(missiles)), 0.0)
      ensures fresh(blasts)
    {
      ghost var es0 := explosions;
      UpdateMissiles(dt);
      blasts := explosions[|es0|..];
      assert explosions == es0 + blasts;
      RemoveFinishedMissiles();
    }

    /** The explosions' share of a frame: every explosion ages by dt and the finished ones
        are dropped, so the explosions just spawned at the landings are dt old; no aircraft
        changes, nor any of the given missiles. */
    method ExplosionPhase(dt: real, ghost all: seq<Missiles.Missile>, ghost older: seq<Explosions.Explosion>,
                          ghost blasts: seq<Explosions.Explosion>, ghost landed: seq<Point>)
      requires Valid() && explosions == older + blasts && Blasts(blasts, landed, 0.0)
      modifies this`explosions, explosions
      ensures Valid() && unchanged(all)
      ensures StillFlying(all) == old(StillFlying(all)) && Landings(all) == old(Landings(all))
      ensures forall k :: 0 <= k < |old(explosions)| ==> old(explosions)[k].age == old(explosions[k].age) + dt
      ensures AgedBy(older, old(Ages(older)), dt)
      ensures explosions == StillBurning(older + blasts)
      ensures Blasts(blasts, landed, dt)
    {
      AgeExplosions(dt, all, older, blasts, landed);
      RemoveFinishedExplosions();
    }

    /** The ageing half of the explosions' share: every explosion ages by dt, so the ones
        just spawned are dt old; nothing else changes. */
    method AgeExplosions(dt: real, ghost all: seq<Missiles.Missile>, ghost older: seq<Explosions.Explosion>,
                         ghost blasts: seq<Explosions.Explosion>, ghost landed: seq<Point>)
      requires Valid() && explosions == older + blasts && Blasts(blasts, landed, 0.0)
      modifies explosions
      ensures unchanged(all) && unchanged(aircraft) && unchanged(missiles)
      ensures forall k :: 0 <= k < |explosions| ==> explosions[k].age == old(explosions[k].age) + dt
      ensures AgedBy(older, old(Ages(older)), dt)
      ensures Blasts(blasts, landed, dt)
    {
      UpdateExplosions(dt, all);
      forall k | 0 <= k < |older|
        ensures older[k].age == old(older[k].age) + dt
      {
        assert older[k] == explosions[k];
      }
      forall k | 0 <= k < |blasts|
        ensures blasts[k].age == dt
      {
        assert blasts[k] == explosions[|older| + k];
      }
    }

    /** Drops the finished missiles, keeping the order of the rest; what is left is still
        flying. */
    method RemoveFinishedMissiles()
      requires (forall k :: 0 <= k < |missiles| ==> missiles[k].Valid()) && Distinct(missiles)
      modifies this`missiles
      ensures missiles == StillFlying(old(missiles))
      ensures Flying(missiles)
    {
      var kept := [];
      var i := 0;
      while i < |missiles|
        invariant 0 <= i <= |missiles|
        invariant kept == StillFlying(missiles[..i])
      {
        assert missiles[..i + 1][..i] == missiles[..i];
        if !missiles[i].IsFinished() {
          kept := kept + [missiles[i]];
        }
        i := i + 1;
      }
      assert missiles[..i] == missiles;
      StillFlyingDistinct(missiles);
      LandOrFly(missiles);
      forall k | 0 <= k < |kept|
        ensures kept[k].Valid() && !kept[k].IsFinished()
      {
        assert kept[k] in missiles;
      }
      missiles := kept;
    }

    /** Ages every explosion by dt; no aircraft or missile changes, nor any of the given
        missiles. */
    method UpdateExplosions(dt: real, ghost bystanders: seq<Missiles.Missile>)
      requires Distinct(explosions)
      modifies explosions
      ensures unchanged(aircraft) && unchanged(missiles) && unchanged(bystanders)
      ensures forall k :: 0 <= k < |explosions| ==> explosions[k].age == old(explosions[k].age) + dt
    {
      var i := 0;
      while i < |explosions|
        invariant 0 <= i <= |explosions|
        invariant forall k :: 0 <= k < i ==> explosions[k].age == old(explosions[k].age) + dt
        invariant forall k :: i <= k < |explosions| ==> explosions[k].age == old(explosions[k].age)
      {
        explosions[i].Update(dt);
        i := i + 1;
      }
    }

    /** Drops the finished explosions, keeping the order of the rest; what is left is still
        burning. */
    method RemoveFinishedExplosions()
      requires (forall k :: 0 <= k < |explosions| ==> explosions[k].Valid()) && Distinct(explosions)
      modifies this`explosions
      ensures explosions == StillBurning(old(explosions))
      ensures Burning(explosions)
    {
      var kept := [];
      var i := 0;
      while i < |explosions|
        invariant 0 <= i <= |explosions|
        invariant kept == StillBurning(explosions[..i])
      {
        assert explosions[..i + 1][..i] == explosions[..i];
        if !explosions[i].IsFinished() {
          kept := kept + [explosions[i]];
        }
        i := i + 1;
      }
      assert explosions[..i] == explosions;
      StillBurningDistinct(explosions);
      StillBurningMembers(explosions);
      forall k | 0 <= k < |kept|
        ensures kept[k].Valid() && !kept[k].IsFinished()
      {
        assert kept[k] in explosions;
      }
      explosions := kept;
    }
  }
}
