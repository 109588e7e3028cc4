// Splitting a polyline wherever a consecutive pair "crosses" (jumps across the map edge).
// The three splitters of the repository (VectorMap::splitAtAntimeridian and the trail loop of
// Missile::draw in C++, split_at_antimeridian and split_path_at_wrap in Python) all scan the
// points left to right, close the current run at a crossing and start a new run at the current
// point. They differ in the crossing test and in whether runs of one point are kept; this
// module states the scan once, generic in the point type and the crossing test.

module Segmenting {

  /** The state of a left-to-right scan over a non-empty polyline: the runs already closed at a
      crossing, and the run still open. */
  datatype Scan<T> = Scan(closed: seq<seq<T>>, open: seq<T>)

  function ScanRuns<T>(ps: seq<T>, crosses: (T, T) -> bool): (r: Scan<T>)
    requires |ps| > 0
  {
    if |ps| == 1 then Scan([], ps)
    else Step(ScanRuns(ps[..|ps| - 1], crosses), ps[|ps| - 2], ps[|ps| - 1], crosses)
  }

  /** One step of the scan: point x follows point prev. */
  function Step<T>(s: Scan<T>, prev: T, x: T, crosses: (T, T) -> bool): (r: Scan<T>)
  {
    if crosses(prev, x) then Scan(s.closed + [s.open], [x]) else Scan(s.closed, s.open + [x])
  }

  lemma ScanSnoc<T>(ps: seq<T>, x: T, crosses: (T, T) -> bool)
    requires ps != []
    ensures ScanRuns(ps + [x], crosses) == Step(ScanRuns(ps, crosses), ps[|ps| - 1], x, crosses)
  {
    assert (ps + [x])[..|ps|] == ps;
  }

  /** The maximal runs of ps between crossing pairs; every point is kept. */
  function Runs<T>(ps: seq<T>, crosses: (T, T) -> bool): (r: seq<seq<T>>)
  {
    if ps == [] then [] else ScanRuns(ps, crosses).closed + [ScanRuns(ps, crosses).open]
  }

  /** The runs of at least two points, in order: what the screen-space splitters emit. */
  function Split<T>(ps: seq<T>, crosses: (T, T) -> bool): (r: seq<seq<T>>)
  {
    KeepLong(Runs(ps, crosses))
  }

  function Concat<T>(xss: seq<seq<T>>): (r: seq<T>)
  {
    if xss == [] then [] else Concat(xss[..|xss| - 1]) + xss[|xss| - 1]
  }

  /** Drops the runs of fewer than two points and keeps the order of the others. */
  function KeepLong<T>(xss: seq<seq<T>>): (r: seq<seq<T>>)
  {
    if xss == [] then []
    else KeepLong(xss[..|xss| - 1]) + (if |xss[|xss| - 1]| >= 2 then [xss[|xss| - 1]] else [])
  }

  /** The number of consecutive pairs of ps that cross. */
  function CrossingCount<T>(ps: seq<T>, crosses: (T, T) -> bool): (r: nat)
  {
    if |ps| < 2 then 0
    else CrossingCount(ps[..|ps| - 1], crosses) + (if crosses(ps[|ps| - 2], ps[|ps| - 1]) then 1 else 0)
  }

  /** No consecutive pair of s crosses. */
  predicate Unbroken<T>(s: seq<T>, crosses: (T, T) -> bool)
  {
    forall k :: 0 <= k < |s| - 1 ==> !crosses(s[k], s[k + 1])
  }

  lemma ConcatSnoc<T>(xss: seq<seq<T>>, x: seq<T>)
    ensures Concat(xss + [x]) == Concat(xss) + x
  {
    assert (xss + [x])[..|xss|] == xss;
  }

  /** What the scan keeps: the closed runs and the open run, concatenated, give back the input;
      every run is non-empty and unbroken; one run is closed per crossing; the open run ends at
      the last point. */
  lemma {:induction false} ScanFacts<T>(ps: seq<T>, crosses: (T, T) -> bool)
    requires |ps| > 0
    ensures Concat(ScanRuns(ps, crosses).closed) + ScanRuns(ps, crosses).open == ps
    ensures ScanRuns(ps, crosses).open != []
    ensures ScanRuns(ps, crosses).open[|ScanRuns(ps, crosses).open| - 1] == ps[|ps| - 1]
    ensures Unbroken(ScanRuns(ps, crosses).open, crosses)
    ensures forall r :: r in ScanRuns(ps, crosses).closed ==> r != [] && Unbroken(r, crosses)
    ensures |ScanRuns(ps, crosses).closed| == CrossingCount(ps, crosses)
  {
    if |ps| > 1 {
      var init := ps[..|ps| - 1];
      var last := ps[|ps| - 1];
      ScanFacts(init, crosses);
      var s := ScanRuns(init, crosses);
      assert init + [last] == ps;
      assert init[|init| - 1] == ps[|ps| - 2];
      if crosses(ps[|ps| - 2], last) {
        ConcatSnoc(s.closed, s.open);
      } else {
        var o := s.open + [last];
        forall k | 0 <= k < |o| - 1 ensures !crosses(o[k], o[k + 1]) {
          if k < |s.open| - 1 {
            assert o[k] == s.open[k] && o[k + 1] == s.open[k + 1];
          }
        }
      }
    }
  }

  /** Concatenating the runs gives back the input, points in their original order. */
  lemma RunsConcat<T>(ps: seq<T>, crosses: (T, T) -> bool)
    ensures Concat(Runs(ps, crosses)) == ps
  {
    if ps != [] {
      ScanFacts(ps, crosses);
      ConcatSnoc(ScanRuns(ps, crosses).closed, ScanRuns(ps, crosses).open);
    }
  }

  /** Every run is non-empty and unbroken, and a non-empty input has one run more than it has
      crossing pairs. */
  lemma RunsShape<T>(ps: seq<T>, crosses: (T, T) -> bool)
    ensures forall r :: r in Runs(ps, crosses) ==> r != [] && Unbroken(r, crosses)
    ensures ps != [] ==> |Runs(ps, crosses)| == CrossingCount(ps, crosses) + 1
  {
    if ps != [] {
      ScanFacts(ps, crosses);
      var s := ScanRuns(ps, crosses);
      assert Runs(ps, crosses) == s.closed + [s.open];
      forall r | r in s.closed + [s.open] ensures r != [] && Unbroken(r, crosses) {
        if r !in s.closed {
          assert r == s.open;
        }
      }
    }
  }

  /** A polyline has no crossing pair exactly when it is unbroken. */
  lemma {:induction false} NoCrossingIffUnbroken<T>(ps: seq<T>, crosses: (T, T) -> bool)
    ensures CrossingCount(ps, crosses) == 0 <==> Unbroken(ps, crosses)
  {
    if |ps| >= 2 {
      var init := ps[..|ps| - 1];
      NoCrossingIffUnbroken(init, crosses);
      assert init[|init| - 1] == ps[|ps| - 2];
      if Unbroken(ps, crosses) {
        assert Unbroken(init, crosses) by {
          forall k | 0 <= k < |init| - 1 ensures !crosses(init[k], init[k + 1]) {
            assert init[k] == ps[k] && init[k + 1] == ps[k + 1];
          }
        }
      } else if CrossingCount(ps, crosses) == 0 {
        forall k | 0 <= k < |ps| - 1 ensures !crosses(ps[k], ps[k + 1]) {
          if k < |ps| - 2 {
            assert init[k] == ps[k] && init[k + 1] == ps[k + 1];
          }
        }
        assert false;
      }
    }
  }

  /** A non-empty polyline without crossings is a single run. */
  lemma RunsUnbroken<T>(ps: seq<T>, crosses: (T, T) -> bool)
    requires ps != [] && Unbroken(ps, crosses)
    ensures Runs(ps, crosses) == [ps]
  {
    NoCrossingIffUnbroken(ps, crosses);
    ScanFacts(ps, crosses);
    var s := ScanRuns(ps, crosses);
    assert s.closed == [];
    assert Concat(s.closed) == [];
    assert s.open == ps;
    assert Runs(ps, crosses) == s.closed + [s.open];
  }

  /** Runs split exactly at a crossing: the runs of a + b are the runs of a followed by the runs
      of b when the last point of a and the first point of b cross. */
  lemma RunsAtCrossing<T>(a: seq<T>, b: seq<T>, crosses: (T, T) -> bool)
    requires a != [] && b != [] && crosses(a[|a| - 1], b[0])
    ensures Runs(a + b, crosses) == Runs(a, crosses) + Runs(b, crosses)
  {
    ScanAtCrossing(a, b, crosses);
    var sb := ScanRuns(b, crosses);
    assert Runs(a + b, crosses) == (Runs(a, crosses) + sb.closed) + [sb.open];
  }

  lemma {:induction false} ScanAtCrossing<T>(a: seq<T>, b: seq<T>, crosses: (T, T) -> bool)
    requires a != [] && b != [] && crosses(a[|a| - 1], b[0])
    ensures ScanRuns(a + b, crosses)
         == Scan(Runs(a, crosses) + ScanRuns(b, crosses).closed, ScanRuns(b, crosses).open)
  {
    if |b| == 1 {
      ScanSnoc(a, b[0], crosses);
      assert a + [b[0]] == a + b;
    } else {
      var b', x := b[..|b| - 1], b[|b| - 1];
      var sb' := ScanRuns(b', crosses);
      var p := b'[|b'| - 1];
      assert a + b == (a + b') + [x] && b == b' + [x];
      calc {
        ScanRuns(a + b, crosses);
        ScanRuns((a + b') + [x], crosses);
        { ScanSnoc(a + b', x, crosses); assert (a + b')[|a + b'| - 1] == p; }
        Step(ScanRuns(a + b', crosses), p, x, crosses);
        { assert b'[0] == b[0]; ScanAtCrossing(a, b', crosses); }
        Step(Scan(Runs(a, crosses) + sb'.closed, sb'.open), p, x, crosses);
        { StepPrefix(Runs(a, crosses), sb', p, x, crosses); ScanSnoc(b', x, crosses); }
        Scan(Runs(a, crosses) + ScanRuns(b, crosses).closed, ScanRuns(b, crosses).open);
      }
    }
  }

  /** Closed runs in front of the scan are left alone by a step. */
  lemma StepPrefix<T>(prefix: seq<seq<T>>, s: Scan<T>, prev: T, x: T, crosses: (T, T) -> bool)
    ensures Step(Scan(prefix + s.closed, s.open), prev, x, crosses)
         == Scan(prefix + Step(s, prev, x, crosses).closed, Step(s, prev, x, crosses).open)
  {
    if crosses(prev, x) {
      assert prefix + s.closed + [s.open] == prefix + (s.closed + [s.open]);
    }
  }

  lemma {:induction false} KeepLongAppend<T>(a: seq<seq<T>>, b: seq<seq<T>>)
    ensures KeepLong(a + b) == KeepLong(a) + KeepLong(b)
  {
    if b == [] {
      assert a + b == a;
    } else {
      var b' := b[..|b| - 1];
      KeepLongAppend(a, b');
      assert (a + b)[..|a + b| - 1] == a + b';
    }
  }

  /** KeepLong keeps exactly the runs of two or more points. */
  lemma {:induction false} KeepLongMember<T>(xss: seq<seq<T>>, r: seq<T>)
    ensures r in KeepLong(xss) <==> r in xss && |r| >= 2
  {
    if xss != [] {
      var init := xss[..|xss| - 1];
      KeepLongMember(init, r);
      assert xss == init + [xss[|xss| - 1]];
    }
  }

  /** The segments of Split have at least two points each and no crossing pair inside. */
  lemma SplitSegments<T>(ps: seq<T>, crosses: (T, T) -> bool)
    ensures forall seg :: seg in Split(ps, crosses) ==> |seg| >= 2 && Unbroken(seg, crosses)
  {
    var runs := Runs(ps, crosses);
    RunsShape(ps, crosses);
    forall seg | seg in KeepLong(runs) ensures |seg| >= 2 && Unbroken(seg, crosses) {
      KeepLongMember(runs, seg);
    }
  }

  /** A polyline of two or more points without crossings comes back as one segment equal to it;
      an empty one gives no segment. */
  lemma SplitUnbroken<T>(ps: seq<T>, crosses: (T, T) -> bool)
    requires |ps| >= 2 && Unbroken(ps, crosses)
    ensures Split(ps, crosses) == [ps]
  {
    RunsUnbroken(ps, crosses);
    KeepLongSingle(ps);
  }

  lemma KeepLongSingle<T>(r: seq<T>)
    ensures KeepLong([r]) == if |r| >= 2 then [r] else []
  {
    assert [r][..0] == [];
  }

  /** A polyline with one crossing, between two unbroken halves of two or more points each,
      comes back as exactly those two segments. */
  lemma SplitAtOneCrossing<T>(a: seq<T>, b: seq<T>, crosses: (T, T) -> bool)
    requires |a| >= 2 && |b| >= 2 && Unbroken(a, crosses) && Unbroken(b, crosses)
    requires crosses(a[|a| - 1], b[0])
    ensures Split(a + b, crosses) == [a, b]
  {
    calc {
      Split(a + b, crosses);
      KeepLong(Runs(a + b, crosses));
      { RunsAtCrossing(a, b, crosses); RunsUnbroken(a, crosses); RunsUnbroken(b, crosses); }
      KeepLong([a] + [b]);
      { KeepLongAppend([a], [b]); }
      KeepLong([a]) + KeepLong([b]);
      { KeepLongSingle(a); KeepLongSingle(b); }
      [a, b];
    }
  }

  /** One scan step in terms of the runs kept so far: a crossing closes the open run, which is
      kept when it has two points or more, and opens a run at x; otherwise x joins the open
      run. */
  lemma KeepLongStep<T>(ps: seq<T>, x: T, crosses: (T, T) -> bool)
    requires ps != []
    ensures crosses(ps[|ps| - 1], x) ==>
      KeepLong(ScanRuns(ps + [x], crosses).closed)
        == KeepLong(ScanRuns(ps, crosses).closed) + KeepLong([ScanRuns(ps, crosses).open]) &&
      ScanRuns(ps + [x], crosses).open == [x]
    ensures !crosses(ps[|ps| - 1], x) ==>
      KeepLong(ScanRuns(ps + [x], crosses).closed) == KeepLong(ScanRuns(ps, crosses).closed) &&
      ScanRuns(ps + [x], crosses).open == ScanRuns(ps, crosses).open + [x]
  {
    var s := ScanRuns(ps, crosses);
    ScanSnoc(ps, x, crosses);
    if crosses(ps[|ps| - 1], x) {
      assert ScanRuns(ps + [x], crosses).closed == s.closed + [s.open];
      KeepLongAppend(s.closed, [s.open]);
    } else {
      assert ScanRuns(ps + [x], crosses).closed == s.closed;
    }
  }

  /** At the end of the scan the open run is kept too when it has two points or more. */
  lemma KeepLongFinish<T>(ps: seq<T>, crosses: (T, T) -> bool)
    requires ps != []
    ensures Split(ps, crosses) == KeepLong(ScanRuns(ps, crosses).closed) + KeepLong([ScanRuns(ps, crosses).open])
  {
    var s := ScanRuns(ps, crosses);
    KeepLongAppend(s.closed, [s.open]);
  }
}
