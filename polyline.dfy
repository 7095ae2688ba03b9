/** The emitted line of one successor (web/succession-app.js, `addRow` lines 614-650):
    boundary interpolation onto the true start and end dates, and the simplifier
    that drops interior points whose slope does not change. Dates are day numbers,
    heights are reals. */
module Polyline {

  /** The line as the code keeps it: parallel arrays of dates and heights. */
  datatype Line = Line(x: seq<int>, y: seq<real>)
  {
    predicate WellFormed()
    {
      |x| == |y|
    }
  }

  datatype Point = Point(x: int, y: real)

  // ---- JavaScript number division ----

  /** The outcome of a JavaScript division of two finite numbers. */
  datatype JsNumber = Finite(value: real) | PositiveInfinity | NegativeInfinity | NaN

  function Divide(n: real, d: real): JsNumber
  {
    if d != 0.0 then Finite(n / d)
    else if n > 0.0 then PositiveInfinity
    else if n < 0.0 then NegativeInfinity
    else NaN
  }

  /** JavaScript's `a !== b` on numbers: NaN is unequal to everything, itself included. */
  predicate StrictlyUnequal(a: JsNumber, b: JsNumber)
  {
    a.NaN? || b.NaN? || a != b
  }

  lemma DivideFinite(n: real, d: real, v: real)
    requires Divide(n, d) == Finite(v)
    ensures d != 0.0 && n == v * d
  {
  }

  lemma DivideInfinite(n: real, d: real)
    requires Divide(n, d).PositiveInfinity? || Divide(n, d).NegativeInfinity?
    ensures d == 0.0
  {
  }

  // ---- Boundary interpolation ----

  /** `y0 + (x - x0) / (x1 - x0) * (y1 - y0)`. */
  function Interpolate(x0: int, y0: real, x1: int, y1: real, x: int): real
    requires x1 != x0
  {
    y0 + ((x - x0) as real) / ((x1 - x0) as real) * (y1 - y0)
  }

  /** The interpolated height lies on the straight line through the two points,
      and reproduces them at their own dates. */
  lemma InterpolateOnLine(x0: int, y0: real, x1: int, y1: real, x: int)
    requires x1 != x0
    ensures (Interpolate(x0, y0, x1, y1, x) - y0) * ((x1 - x0) as real) == ((x - x0) as real) * (y1 - y0)
    ensures x == x0 ==> Interpolate(x0, y0, x1, y1, x) == y0
    ensures x == x1 ==> Interpolate(x0, y0, x1, y1, x) == y1
  {
    var dx := (x1 - x0) as real;
    var t := ((x - x0) as real) / dx;
    assert t * dx == (x - x0) as real;
    assert (t * (y1 - y0)) * dx == (t * dx) * (y1 - y0);
  }

  /** Move the first point to `start`, its height interpolated between the first two points. */
  function FixStart(l: Line, start: int): (r: Line)
    requires l.WellFormed() && |l.x| >= 2 && l.x[1] != l.x[0]
    ensures r.WellFormed() && |r.x| == |l.x|
    ensures r.x[0] == start
    ensures (r.y[0] - l.y[0]) * ((l.x[1] - l.x[0]) as real) == ((start - l.x[0]) as real) * (l.y[1] - l.y[0])
    ensures forall k :: 1 <= k < |l.x| ==> r.x[k] == l.x[k] && r.y[k] == l.y[k]
  {
    InterpolateOnLine(l.x[0], l.y[0], l.x[1], l.y[1], start);
    Line(l.x[0 := start], l.y[0 := Interpolate(l.x[0], l.y[0], l.x[1], l.y[1], start)])
  }

  /** Move the last point to `end`, its height interpolated between the last two points. */
  function FixEnd(l: Line, end: int): (r: Line)
    requires l.WellFormed() && |l.x| >= 2 && l.x[|l.x| - 1] != l.x[|l.x| - 2]
    ensures r.WellFormed() && |r.x| == |l.x|
    ensures r.x[|r.x| - 1] == end
    ensures var n := |l.x|;
      (r.y[n - 1] - l.y[n - 2]) * ((l.x[n - 1] - l.x[n - 2]) as real)
        == ((end - l.x[n - 2]) as real) * (l.y[n - 1] - l.y[n - 2])
    ensures forall k :: 0 <= k < |l.x| - 1 ==> r.x[k] == l.x[k] && r.y[k] == l.y[k]
  {
    var n := |l.x|;
    InterpolateOnLine(l.x[n - 2], l.y[n - 2], l.x[n - 1], l.y[n - 1], end);
    Line(l.x[n - 1 := end], l.y[n - 1 := Interpolate(l.x[n - 2], l.y[n - 2], l.x[n - 1], l.y[n - 1], end)])
  }

  // ---- Simplification ----

  /** The JavaScript slope of the segment from point `k` to point `k + 1`. */
  function SlopeAt(l: Line, k: nat): JsNumber
    requires l.WellFormed() && k + 1 < |l.x|
  {
    Divide(l.y[k + 1] - l.y[k], (l.x[k + 1] - l.x[k]) as real)
  }

  /** A point survives if it is an end point, or if its slope from the previous point of the
      line differs (`!==`) from its slope to the next point. */
  predicate Keep(l: Line, i: nat)
    requires l.WellFormed() && i < |l.x|
  {
    i == 0 || i == |l.x| - 1 || StrictlyUnequal(SlopeAt(l, i - 1), SlopeAt(l, i))
  }

  /** The indices of the surviving points among the first `n`, in order. */
  function KeptIndices(l: Line, n: nat): (idx: seq<nat>)
    requires l.WellFormed() && n <= |l.x|
  {
    if n == 0 then [] else KeptIndices(l, n - 1) + (if Keep(l, n - 1) then [n - 1] else [])
  }

  function PointsAt(l: Line, idx: seq<nat>): (d: seq<Point>)
    requires l.WellFormed() && forall j :: 0 <= j < |idx| ==> idx[j] < |l.x|
  {
    if idx == [] then []
    else PointsAt(l, idx[..|idx| - 1]) + [Point(l.x[idx[|idx| - 1]], l.y[idx[|idx| - 1]])]
  }

  lemma {:induction false} KeptIndicesSpec(l: Line, n: nat)
    requires l.WellFormed() && n <= |l.x|
    ensures forall j :: 0 <= j < |KeptIndices(l, n)| ==> KeptIndices(l, n)[j] < n
    ensures forall j, k :: 0 <= j < k < |KeptIndices(l, n)| ==> KeptIndices(l, n)[j] < KeptIndices(l, n)[k]
    ensures forall i :: 0 <= i < n ==> (i in KeptIndices(l, n) <==> Keep(l, i))
  {
    if n > 0 {
      KeptIndicesSpec(l, n - 1);
    }
  }

  /** The simplified point list handed to the renderer. */
  function Simplified(l: Line): seq<Point>
    requires l.WellFormed()
  {
    KeptIndicesSpec(l, |l.x|);
    PointsAt(l, KeptIndices(l, |l.x|))
  }

  /** The simplifying loop of `addRow` (lines 636-650). */
  method Simplify(l: Line) returns (d: seq<Point>)
    requires l.WellFormed()
    ensures d == Simplified(l)
  {
    d := [];
    var last := |l.x| - 1;
    var i := 0;
    while i < |l.x|
      invariant i <= |l.x|
      invariant forall j :: 0 <= j < |KeptIndices(l, i)| ==> KeptIndices(l, i)[j] < i
      invariant d == PointsAt(l, KeptIndices(l, i))
    {
      ghost var before := KeptIndices(l, i);
      var x := l.x[i];
      var y := l.y[i];
      var keep := true;
      if i != 0 && i != last {
        var slopeBefore := Divide(y - l.y[i - 1], (x - l.x[i - 1]) as real);
        var slopeAfter := Divide(l.y[i + 1] - y, (l.x[i + 1] - x) as real);
        assert slopeBefore == SlopeAt(l, i - 1) && slopeAfter == SlopeAt(l, i);
        keep := StrictlyUnequal(slopeBefore, slopeAfter);
      }
      assert keep == Keep(l, i);
      if keep {
        assert KeptIndices(l, i + 1) == before + [i];
        assert (before + [i])[..|before|] == before;
        d := d + [Point(x, y)];
      } else {
        assert KeptIndices(l, i + 1) == before;
      }
      i := i + 1;
    }
  }

  /** The simplified line starts and ends at the line's own end points. */
  lemma SimplifiedKeepsEnds(l: Line)
    requires l.WellFormed() && |l.x| >= 1
    ensures var d := Simplified(l); var n := |l.x|;
      |d| >= 1 && d[0] == Point(l.x[0], l.y[0]) && d[|d| - 1] == Point(l.x[n - 1], l.y[n - 1])
  {
    var n := |l.x|;
    KeptIndicesSpec(l, n);
    var idx := KeptIndices(l, n);
    assert idx[|idx| - 1] == n - 1;
    PointsAtSpec(l, idx);
    assert 0 in idx;
    var j :| 0 <= j < |idx| && idx[j] == 0;
    assert j == 0;
  }

  lemma {:induction false} PointsAtSpec(l: Line, idx: seq<nat>)
    requires l.WellFormed() && forall j :: 0 <= j < |idx| ==> idx[j] < |l.x|
    ensures |PointsAt(l, idx)| == |idx|
    ensures forall j :: 0 <= j < |idx| ==> PointsAt(l, idx)[j] == Point(l.x[idx[j]], l.y[idx[j]])
  {
    if idx != [] {
      PointsAtSpec(l, idx[..|idx| - 1]);
    }
  }

  /** A dropped point has one slope on both sides, neither of them NaN. */
  lemma DroppedSlopes(l: Line, m: nat)
    requires l.WellFormed() && 0 < m < |l.x| - 1 && !Keep(l, m)
    ensures SlopeAt(l, m - 1) == SlopeAt(l, m) && !SlopeAt(l, m).NaN?
  {
  }

  lemma {:induction false} RunHasOneSlope(l: Line, a: nat, b: nat, k: nat)
    requires l.WellFormed() && a <= k < b < |l.x|
    requires forall m :: a < m < b ==> !Keep(l, m)
    ensures SlopeAt(l, k) == SlopeAt(l, a)
    decreases k - a
  {
    if k > a {
      DroppedSlopes(l, k);
      RunHasOneSlope(l, a, b, k - 1);
    }
  }

  lemma {:induction false} RunAccumulates(l: Line, a: nat, m: nat, c: JsNumber)
    requires l.WellFormed() && a <= m < |l.x| && !c.NaN?
    requires forall k :: a <= k < m ==> SlopeAt(l, k) == c
    ensures c.Finite? ==> l.y[m] - l.y[a] == c.value * ((l.x[m] - l.x[a]) as real)
    ensures !c.Finite? ==> l.x[m] == l.x[a]
    decreases m - a
  {
    if m > a {
      RunAccumulates(l, a, m - 1, c);
      assert SlopeAt(l, m - 1) == c;
      if c.Finite? {
        DivideFinite(l.y[m] - l.y[m - 1], (l.x[m] - l.x[m - 1]) as real, c.value);
      } else {
        DivideInfinite(l.y[m] - l.y[m - 1], (l.x[m] - l.x[m - 1]) as real);
      }
    }
  }

  /** Simplification loses nothing of the drawn shape: every point dropped between two
      consecutive surviving points lies on the straight segment joining them. */
  lemma DroppedPointsOnSegment(l: Line, a: nat, b: nat)
    requires l.WellFormed() && a < b < |l.x|
    requires forall m :: a < m < b ==> !Keep(l, m)
    ensures forall m :: a < m < b ==>
      (l.y[m] - l.y[a]) * ((l.x[b] - l.x[a]) as real) == (l.y[b] - l.y[a]) * ((l.x[m] - l.x[a]) as real)
  {
    if b > a + 1 {
      var c := SlopeAt(l, a);
      forall k | a <= k < b ensures SlopeAt(l, k) == c {
        RunHasOneSlope(l, a, b, k);
      }
      DroppedSlopes(l, a + 1);
      forall m | a < m < b
        ensures (l.y[m] - l.y[a]) * ((l.x[b] - l.x[a]) as real) == (l.y[b] - l.y[a]) * ((l.x[m] - l.x[a]) as real)
      {
        RunAccumulates(l, a, m, c);
        RunAccumulates(l, a, b, c);
        if c.Finite? {
          var v := c.value;
          var dm, db := (l.x[m] - l.x[a]) as real, (l.x[b] - l.x[a]) as real;
          assert (v * dm) * db == (v * db) * dm;
        }
      }
    }
  }
}
