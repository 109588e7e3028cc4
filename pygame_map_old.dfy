// The first pygame prototype of the map: nine fixed sites, one missile launched every 2.5 s
// between two different sites, each drawn as a growing trail with a head blip and markers.
// The projection and the arc sampling are the same code as in the later pygame front end,
// so they are reused from there.

module PygameMapOld {
  import opened Common
  import opened Controls
  import PygameMap

  const LAUNCH_EVERY_SECONDS: real := 2.5
  const MISSILE_FLIGHT_SECONDS: real := 12.0
  const MISSILE_ARC_STEPS: nat := 220

  /** The launch and destination sites (lat, lon). */
  const POINTS: seq<LatLon> := [
    LatLon(38.9, -77.0),      // Washington DC
    LatLon(55.75, 37.62),     // Moscow
    LatLon(51.5, -0.12),      // London
    LatLon(35.68, 139.76),    // Tokyo
    LatLon(39.9, 116.4),      // Beijing
    LatLon(-33.86, 151.2),    // Sydney
    LatLon(28.61, 77.21),     // Delhi
    LatLon(40.71, -74.0),     // NYC
    LatLon(34.05, -118.24)    // LA
  ]

  /** Every site lies on the globe and projects to a pixel of the w x h screen, truncated
      from its exact position by less than one pixel in each direction. */
  lemma SitesOnScreen(w: int, h: int)
    requires w >= 0 && h >= 0
    ensures forall k :: 0 <= k < |POINTS| ==> OnGlobe(POINTS[k])
    ensures forall k :: 0 <= k < |POINTS| ==>
      0 <= PygameMap.Project(POINTS[k], w, h).x <= w && 0 <= PygameMap.Project(POINTS[k], w, h).y <= h
    ensures forall k :: 0 <= k < |POINTS| ==>
      PygameMap.Project(POINTS[k], w, h).x as real <= LonLatToXY(POINTS[k].lon, POINTS[k].lat, w, h).x
        < PygameMap.Project(POINTS[k], w, h).x as real + 1.0
  {
    forall k | 0 <= k < |POINTS|
      ensures 0 <= PygameMap.Project(POINTS[k], w, h).x <= w && 0 <= PygameMap.Project(POINTS[k], w, h).y <= h
      ensures PygameMap.Project(POINTS[k], w, h).x as real <= LonLatToXY(POINTS[k].lon, POINTS[k].lat, w, h).x
        < PygameMap.Project(POINTS[k], w, h).x as real + 1.0
    {
      PygameMap.ProjectTruncates(POINTS[k], w, h);
    }
  }

  // ---------------------------------------------------------------------------------------
  // Choosing a launch

  /** The possible destinations for a launch from `start`: every site but the start. */
  function Others(start: LatLon): (r: seq<LatLon>)
  {
    Filter(POINTS, (p: LatLon) => p != start)
  }

  /** The destinations leave out the start and keep every other site; from one of the nine
      sites there are eight of them, so the choice among them is never empty. */
  lemma OthersShape(start: LatLon)
    ensures start !in Others(start)
    ensures forall p :: p in Others(start) <==> p in POINTS && p != start
    ensures start in POINTS ==> |Others(start)| == |POINTS| - 1 == 8
  {
    var keep := (p: LatLon) => p != start;
    FilterMembers(POINTS, keep);
    if start in POINTS {
      assert Distinct(POINTS);
      FilterDropsOne(POINTS, keep, start);
    }
  }

  /** The sites of a launch, from the two random choices: site i of the nine as the start,
      then destination j of the eight others as the end. */
  function Pick(i: int, j: int): (LatLon, LatLon)
    requires 0 <= i < |POINTS|
    requires 0 <= j < |Others(POINTS[i])|
  {
    (POINTS[i], Others(POINTS[i])[j])
  }

  /** A launch always joins two different sites. */
  lemma PickJoinsTwoSites(i: int, j: int)
    requires 0 <= i < |POINTS|
    requires 0 <= j < |Others(POINTS[i])|
    ensures Pick(i, j).0 in POINTS && Pick(i, j).1 in POINTS
    ensures Pick(i, j).0 != Pick(i, j).1
  {
    OthersShape(POINTS[i]);
    assert Others(POINTS[i])[j] in Others(POINTS[i]);
  }

  // ---------------------------------------------------------------------------------------
  // Missiles

  /** A missile: its two sites, its launch time and the screen points of its arc. */
  datatype Missile = Missile(start: LatLon, end: LatLon, t0: real, path: seq<PygameMap.Pixel>)
  {
    /** A missile the launcher makes: 221 samples between two different sites. */
    predicate Valid()
    {
      |path| == MISSILE_ARC_STEPS + 1 && start in POINTS && end in POINTS && start != end
    }

    function Progress(now: real): (r: real)
    {
      (now - t0) / MISSILE_FLIGHT_SECONDS
    }

    predicate Alive(now: real)
    {
      Progress(now) <= 1.05
    }

    /** What draw puts on the screen at `now`. */
    function Draw(now: real): (r: Drawing)
      requires |path| >= 2
    {
      var p := Clamp(Progress(now), 0.0, 1.0);
      var k := PygameMap.TrailIndex(Progress(now), |path|);
      PygameMap.TrailIndexRange(Progress(now), |path|);
      Drawing(path[..k], path[k - 1], path[0], p > 0.9)
    }
  }

  /** One frame of a missile: the polyline of its trail, the head blip, the start marker and
      whether the end marker is shown. */
  datatype Drawing = Drawing(trail: seq<PygameMap.Pixel>, head: PygameMap.Pixel, startMark: PygameMap.Pixel,
                             endMark: bool)

  /** A missile makes its arc in 12 s and is dropped once 12.6 s have passed. */
  lemma MissileLifetime(m: Missile, now: real)
    ensures m.Progress(now) >= 1.0 <==> now - m.t0 >= MISSILE_FLIGHT_SECONDS
    ensures m.Alive(now) <==> now - m.t0 <= 12.6
  {
  }

  /** The trail is a prefix of the path with at least two points, the head blip sits on its
      last point and the start marker on its first; the end marker shows exactly once the
      progress passes 0.9, and from arrival on the trail stops one sample short of the end. */
  lemma DrawShape(m: Missile, now: real)
    requires |m.path| >= 3
    ensures 2 <= |m.Draw(now).trail| <= |m.path|
    ensures m.Draw(now).trail <= m.path
    ensures m.Draw(now).head == m.Draw(now).trail[|m.Draw(now).trail| - 1]
    ensures m.Draw(now).startMark == m.path[0] == m.Draw(now).trail[0]
    ensures m.Draw(now).endMark <==> m.Progress(now) > 0.9
    ensures m.Progress(now) >= 1.0 ==> |m.Draw(now).trail| == |m.path| - 1
  {
    PygameMap.TrailIndexRange(m.Progress(now), |m.path|);
    if m.Progress(now) >= 1.0 {
      PygameMap.TrailIndexAtArrival(m.Progress(now), |m.path|);
    }
  }

  /** The trail only grows as time passes. */
  lemma DrawGrows(m: Missile, now: real, later: real)
    requires |m.path| >= 2 && now <= later
    ensures |m.Draw(now).trail| <= |m.Draw(later).trail|
  {
    PygameMap.TrailIndexRange(m.Progress(now), |m.path|);
    PygameMap.TrailIndexRange(m.Progress(later), |m.path|);
    assert m.Progress(now) <= m.Progress(later);
    PygameMap.TrailIndexGrows(m.Progress(now), m.Progress(later), |m.path|);
  }

  /** The arc of a missile from `start` to `end`, sampled in 220 steps. */
  function ArcOf(start: LatLon, end: LatLon, w: int, h: int, geodesic: (LatLon, LatLon) -> (real -> LatLon))
    : (r: seq<PygameMap.Pixel>)
  {
    PygameMap.ArcPath(geodesic(start, end), w, h, MISSILE_ARC_STEPS)
  }

  /** Missile(start, end, created, w, h): the arc from start to end sampled in 220 steps, so
      a path of 221 points from the projected start to the projected end. */
  method NewMissile(start: LatLon, end: LatLon, created: real, w: int, h: int,
                    geodesic: (LatLon, LatLon) -> (real -> LatLon)) returns (m: Missile)
    ensures m == Missile(start, end, created, ArcOf(start, end, w, h, geodesic))
    ensures |m.path| == 221
    ensures m.path[0] == PygameMap.Project(geodesic(start, end)(0.0), w, h)
    ensures m.path[220] == PygameMap.Project(geodesic(start, end)(1.0), w, h)
  {
    var path := PygameMap.ArcPoints(geodesic(start, end), w, h, MISSILE_ARC_STEPS);
    PygameMap.ArcPathShape(geodesic(start, end), w, h, MISSILE_ARC_STEPS);
    m := Missile(start, end, created, path);
  }

  /** The missiles still alive at `now`. */
  function AliveAt(now: real): (r: Missile -> bool)
  {
    (m: Missile) => m.Alive(now)
  }

  /** The missiles the filter keeps are alive, and valid when all of them were. */
  lemma KeptAreValid(all: seq<Missile>, now: real)
    requires forall k :: 0 <= k < |all| ==> all[k].Valid()
    ensures forall k :: 0 <= k < |Filter(all, AliveAt(now))| ==>
      Filter(all, AliveAt(now))[k].Valid() && Filter(all, AliveAt(now))[k].Alive(now)
  {
    FilterMembers(all, AliveAt(now));
    var kept := Filter(all, AliveAt(now));
    forall k | 0 <= k < |kept|
      ensures kept[k].Valid() && kept[k].Alive(now)
    {
      assert kept[k] in kept;
      var n :| 0 <= n < |all| && all[n] == kept[k];
    }
  }

  // ---------------------------------------------------------------------------------------
  // The main loop

  /** The state of the prototype's main loop. */
  class Prototype {
    var running: bool
    var missiles: seq<Missile>
    var lastLaunch: real

    /** Every missile on the list joins two different sites along 221 points. */
    ghost predicate Valid()
      reads this
    {
      forall k :: 0 <= k < |missiles| ==> missiles[k].Valid()
    }

    constructor()
      ensures Valid()
      ensures running && missiles == [] && lastLaunch == 0.0
    {
      running := true;
      missiles := [];
      lastLaunch := 0.0;
    }

    /** Closing the window, ESC and Q stop the loop; nothing else does anything. */
    method HandleEvent(ev: Event)
      modifies this`running
      ensures running == (old(running) && !PygameMap.Quits(ev))
    {
      match ev {
        case Quit =>
          running := false;
        case KeyDown(key) =>
          if key == Escape || key == KeyQ {
            running := false;
          }
      }
    }

    /** One frame at `now`: once strictly more than 2.5 s have passed since the last launch, a
        missile is launched between site i and destination j of the others, and the clock
        restarts; then only the missiles still alive stay. */
    method Tick(now: real, i: int, j: int, w: int, h: int, geodesic: (LatLon, LatLon) -> (real -> LatLon))
      returns (launched: bool)
      requires Valid()
      requires 0 <= i < |POINTS| && 0 <= j < |Others(POINTS[i])|
      modifies this`missiles, this`lastLaunch
      ensures Valid()
      ensures launched <==> now - old(lastLaunch) > LAUNCH_EVERY_SECONDS
      ensures lastLaunch == if launched then now else old(lastLaunch)
      ensures missiles == Filter(old(missiles) + (if launched then
          [Missile(Pick(i, j).0, Pick(i, j).1, now, ArcOf(Pick(i, j).0, Pick(i, j).1, w, h, geodesic))]
        else []), AliveAt(now))
      ensures forall k :: 0 <= k < |missiles| ==> missiles[k].Alive(now)
    {
      launched := now - lastLaunch > LAUNCH_EVERY_SECONDS;
      ghost var pick := Pick(i, j);
      ghost var all := missiles + (if launched then [Missile(pick.0, pick.1, now, ArcOf(pick.0, pick.1, w, h, geodesic))] else []);
      if launched {
        var start := POINTS[i];
        var end := Others(start)[j];
        assert (start, end) == pick;
        PickJoinsTwoSites(i, j);
        var m := NewMissile(start, end, now, w, h, geodesic);
        missiles := missiles + [m];
        lastLaunch := now;
      }
      assert missiles == all;
      KeptAreValid(all, now);
      missiles := Filter(missiles, AliveAt(now));
    }
  }
}
