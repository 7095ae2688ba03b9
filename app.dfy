/** The layout engine of the `succession-app` element (web/succession-app.js): it keeps
    the successor list, the occupancy track and a cursor of successors already drawn,
    and places one successor's line at a time. */
module SuccessionApp {
  import opened Wrappers
  import opened Dates
  import opened Sampler
  import opened Track
  import opened Polyline
  import opened Seqs

  /** One record of `successors.json`; dates are the record's ISO date strings, and a field
      the record leaves out is `None`. */
  datatype Successor = Successor(
    id: string,
    name: Option<string>,
    birthDate: Date,
    deathDate: Option<Date>,
    legitimateDate: Option<Date>,
    illegitimateDate: Option<Date>,
    externalUrl: Option<string>)

  predicate ValidSuccessor(s: Successor)
  {
    ValidDate(s.birthDate)
    && (s.deathDate.Some? ==> ValidDate(s.deathDate.value))
    && (s.legitimateDate.Some? ==> ValidDate(s.legitimateDate.value))
    && (s.illegitimateDate.Some? ==> ValidDate(s.illegitimateDate.value))
  }

  /** Every successor of the list has valid dates. */
  predicate ValidSuccessors(ss: seq<Successor>)
  {
    forall k :: 0 <= k < |ss| ==> ValidSuccessor(ss[k])
  }

  /** The chart's left edge, the accession of George I. */
  const MinDate := Date(1714, 8, 1)
  const RowBatchSize := 500

  /** Lost legitimacy on or before their own birth (lines 379-380). */
  predicate IllegitimateFromBirth(s: Successor)
  {
    s.illegitimateDate.Some? && NotAfter(s.illegitimateDate.value, s.birthDate)
  }

  /** The successor list the chart uses: those illegitimate from birth are removed,
      the order of the rest is kept. */
  function LegitimateSuccessors(data: seq<Successor>): (r: seq<Successor>)
    ensures forall s :: s in r <==> s in data && !IllegitimateFromBirth(s)
    ensures |r| <= |data|
  {
    FilterSpec(data, s => !IllegitimateFromBirth(s));
    Filter(data, s => !IllegitimateFromBirth(s))
  }

  /** The line starts at legitimation if there is one, else at birth. */
  function EffectiveStart(s: Successor): Date
  {
    s.legitimateDate.GetOr(s.birthDate)
  }

  /** The line ends at loss of legitimacy, else at death, else at the last update. */
  function EffectiveEnd(s: Successor, lastUpdated: Date): Date
  {
    s.illegitimateDate.GetOr(s.deathDate.GetOr(lastUpdated))
  }

  lemma EffectiveDatesValid(s: Successor, lastUpdated: Date)
    requires ValidSuccessor(s) && ValidDate(lastUpdated)
    ensures ValidDate(EffectiveStart(s)) && ValidDate(EffectiveEnd(s, lastUpdated))
    ensures s.legitimateDate.None? ==> EffectiveStart(s) == s.birthDate
    ensures s.illegitimateDate.None? && s.deathDate.None? ==> EffectiveEnd(s, lastUpdated) == lastUpdated
  {
  }

  /** The snapped-down start and snapped-up end of a successor's line, as month indices. */
  function SampledStart(s: Successor, sampling: nat): int
    requires sampling >= 1 && ValidSuccessor(s)
  {
    MonthIndex(ToSample(EffectiveStart(s), sampling))
  }

  function SampledEnd(s: Successor, lastUpdated: Date, sampling: nat): int
    requires sampling >= 1 && ValidSuccessor(s) && ValidDate(lastUpdated)
  {
    MonthIndex(AddSample(ToSample(EffectiveEnd(s, lastUpdated), sampling), 1, sampling))
  }

  /** The line as it leaves the placement walk: sample dates as day numbers, heights as reals. */
  function DayLine(mis: seq<int>, hs: seq<nat>): (l: Line)
    requires |mis| == |hs|
    ensures l.WellFormed() && |l.x| == |mis|
  {
    Line(seq(|mis|, k requires 0 <= k < |mis| => DayNumber(MonthStart(mis[k]))),
         seq(|hs|, k requires 0 <= k < |hs| => hs[k] as real))
  }

  predicate Increasing(xs: seq<int>)
  {
    forall k :: 0 <= k < |xs| - 1 ==> xs[k] < xs[k + 1]
  }

  /** Boundary interpolation (lines 615-623): the first point moves to the true start unless
      the line starts before the chart, and the last point always moves to the true end. */
  function BoundaryLine(raw: Line, start: int, end: int, startsBeforeMinDate: bool): (l: Line)
    requires raw.WellFormed() && |raw.x| >= 2 && Increasing(raw.x)
    requires !startsBeforeMinDate ==> start < raw.x[1]
    ensures l.WellFormed() && |l.x| == |raw.x|
  {
    var first := if startsBeforeMinDate then raw else FixStart(raw, start);
    FixEnd(first, end)
  }

  /** The end points of the drawn line sit on the true dates; each moved height lies on the
      straight line through its two neighbours (for a two-point line whose start moved, the
      end is interpolated from the moved start). */
  lemma BoundaryLineExact(raw: Line, start: int, end: int, startsBeforeMinDate: bool)
    requires raw.WellFormed() && |raw.x| >= 2 && Increasing(raw.x)
    requires !startsBeforeMinDate ==> start < raw.x[1]
    ensures var l := BoundaryLine(raw, start, end, startsBeforeMinDate); var n := |raw.x|;
      l.x[n - 1] == end
      && (!startsBeforeMinDate ==> l.x[0] == start)
      && (startsBeforeMinDate ==> l.x[0] == raw.x[0] && l.y[0] == raw.y[0])
      && (forall k :: 0 < k < n - 1 ==> l.x[k] == raw.x[k] && l.y[k] == raw.y[k])
      && (n > 2 || startsBeforeMinDate ==>
            (l.y[n - 1] - raw.y[n - 2]) * ((raw.x[n - 1] - raw.x[n - 2]) as real)
              == ((end - raw.x[n - 2]) as real) * (raw.y[n - 1] - raw.y[n - 2]))
      && (!startsBeforeMinDate ==>
            (l.y[0] - raw.y[0]) * ((raw.x[1] - raw.x[0]) as real)
              == ((start - raw.x[0]) as real) * (raw.y[1] - raw.y[0]))
      && (n == 2 && !startsBeforeMinDate ==>
            (l.y[1] - l.y[0]) * ((raw.x[1] - start) as real)
              == ((end - start) as real) * (raw.y[1] - l.y[0]))
  {
    var n := |raw.x|;
    if !startsBeforeMinDate {
      var first := FixStart(raw, start);
      if n > 2 {
        assert first.x[n - 2] == raw.x[n - 2] && first.y[n - 2] == raw.y[n - 2];
      }
    }
  }

  datatype Path = Path(id: string, points: seq<Point>)

  /** Placement of a successor on the track (by index): the walk stops at `LineEnd`,
      and the line begins at `LineStart`. */
  function LineEnd(xs: seq<int>, s: Successor, lastUpdated: Date, sampling: nat): nat
    requires sampling >= 1 && ValidSuccessor(s) && ValidDate(lastUpdated)
  {
    EndIndex(xs, SampledEnd(s, lastUpdated, sampling))
  }

  function LineStart(xs: seq<int>, s: Successor, lastUpdated: Date, sampling: nat): nat
    requires sampling >= 1 && ValidSuccessor(s) && ValidDate(lastUpdated)
  {
    StartIndex(xs, SampledStart(s, sampling), MonthIndex(MinDate), LineEnd(xs, s, lastUpdated, sampling))
  }

  /** A real date lies before the start of every later month. */
  lemma BeforeLaterMonth(d: Date, mi: int)
    requires ValidDate(d) && mi > MonthIndex(d)
    ensures DayNumber(d) < DayNumber(MonthStart(mi))
  {
    var next := MonthIndex(d) + 1;
    WithinMonth(d);
    assert DayNumber(d) < DayNumber(MonthStart(next));
    if mi > next {
      MonthStartMonotone(next, mi);
    }
  }

  /** The first computed point's successor is after the true start date, so interpolation
      at the start never divides by zero and the interpolated line stays increasing. */
  lemma SecondSampleAfterStart(xs: seq<int>, s: Successor, lastUpdated: Date, sampling: nat)
    requires sampling >= 1 && ValidSuccessor(s) && ValidDate(lastUpdated) && Spaced(xs, sampling)
    requires LineStart(xs, s, lastUpdated, sampling) + 1 < LineEnd(xs, s, lastUpdated, sampling)
    ensures var b := LineStart(xs, s, lastUpdated, sampling);
      DayNumber(EffectiveStart(s)) < DayNumber(MonthStart(xs[b + 1]))
  {
    var b := LineStart(xs, s, lastUpdated, sampling);
    var start := EffectiveStart(s);
    EffectiveDatesValid(s, lastUpdated);
    ToSampleMonthIndex(start, sampling);
    assert StartsLine(xs[b], SampledStart(s, sampling), MonthIndex(MinDate));
    assert xs[b + 1] == xs[b] + sampling;
    BeforeLaterMonth(start, xs[b + 1]);
  }

  lemma DayLineIncreasing(mis: seq<int>, hs: seq<nat>, sampling: nat)
    requires |mis| == |hs| && sampling >= 1 && Spaced(mis, sampling)
    ensures Increasing(DayLine(mis, hs).x)
  {
    var l := DayLine(mis, hs);
    forall k | 0 <= k < |mis| - 1 ensures l.x[k] < l.x[k + 1] {
      MonthStartMonotone(mis[k], mis[k + 1]);
    }
  }

  lemma SpacedSlice(xs: seq<int>, sampling: nat, b: nat, e: nat)
    requires Spaced(xs, sampling) && b <= e <= |xs|
    ensures Spaced(xs[b..e], sampling)
  {
    assert forall k :: 0 <= k < e - b ==> xs[b..e][k] == xs[b + k];
  }

  /** The line a successor produces on a given track: simplified, after boundary interpolation. */
  function DrawnLine(xs: seq<int>, ys: seq<nat>, s: Successor, lastUpdated: Date,
                     sampling: nat, smoothing: nat): seq<Point>
    requires sampling >= 1 && smoothing >= 1 && ValidSuccessor(s) && ValidDate(lastUpdated)
    requires |xs| == |ys| && Spaced(xs, sampling)
    requires LineStart(xs, s, lastUpdated, sampling) + 2 <= LineEnd(xs, s, lastUpdated, sampling)
  {
    var e := LineEnd(xs, s, lastUpdated, sampling);
    var b := LineStart(xs, s, lastUpdated, sampling);
    SpacedSlice(xs, sampling, b, e);
    DayLineIncreasing(xs[b..e], Raised(ys, b, e, smoothing), sampling);
    SecondSampleAfterStart(xs, s, lastUpdated, sampling);
    var raw := DayLine(xs[b..e], Raised(ys, b, e, smoothing));
    assert raw.x[1] == DayNumber(MonthStart(xs[b + 1]));
    Simplified(BoundaryLine(raw, DayNumber(EffectiveStart(s)), DayNumber(EffectiveEnd(s, lastUpdated)),
                            Before(EffectiveStart(s), MinDate)))
  }

  /** What the chart holds that `addRow` changes: the track heights and the drawn lines. */
  datatype Chart = Chart(heightsY: seq<nat>, paths: seq<Path>)

  /** One `addRow` on successor `s`: when its line has at least two points, its raised heights
      are spliced into the track and its drawn line is attached; otherwise nothing changes. */
  function PlaceStep(xs: seq<int>, c: Chart, s: Successor, lastUpdated: Date,
                     sampling: nat, smoothing: nat): (r: Chart)
    requires sampling >= 1 && smoothing >= 1 && ValidSuccessor(s) && ValidDate(lastUpdated)
    requires |xs| == |c.heightsY| && Spaced(xs, sampling)
    ensures |r.heightsY| == |c.heightsY|
  {
    var e := LineEnd(xs, s, lastUpdated, sampling);
    var b := LineStart(xs, s, lastUpdated, sampling);
    if b + 2 <= e then
      Chart(Splice(c.heightsY, b, Raised(c.heightsY, b, e, smoothing)),
            c.paths + [Path(s.id, DrawnLine(xs, c.heightsY, s, lastUpdated, sampling, smoothing))])
    else c
  }

  /** `addRow` on each of `ss[lo..hi]` in turn, starting from chart `c`. */
  function PlaceAll(xs: seq<int>, c: Chart, ss: seq<Successor>, lo: nat, hi: nat, lastUpdated: Date,
                    sampling: nat, smoothing: nat): (r: Chart)
    requires sampling >= 1 && smoothing >= 1 && ValidDate(lastUpdated)
    requires |xs| == |c.heightsY| && Spaced(xs, sampling)
    requires lo <= hi <= |ss| && ValidSuccessors(ss)
    ensures |r.heightsY| == |c.heightsY|
    decreases hi
  {
    if hi == lo then c
    else PlaceStep(xs, PlaceAll(xs, c, ss, lo, hi - 1, lastUpdated, sampling, smoothing), ss[hi - 1],
                   lastUpdated, sampling, smoothing)
  }

  /** A batch never lowers the track. */
  lemma {:induction false} PlaceAllRaises(xs: seq<int>, c: Chart, ss: seq<Successor>, lo: nat, hi: nat,
                                          lastUpdated: Date, sampling: nat, smoothing: nat)
    requires sampling >= 1 && smoothing >= 1 && ValidDate(lastUpdated)
    requires |xs| == |c.heightsY| && Spaced(xs, sampling)
    requires lo <= hi <= |ss| && ValidSuccessors(ss)
    ensures NotLower(c.heightsY, PlaceAll(xs, c, ss, lo, hi, lastUpdated, sampling, smoothing).heightsY)
    decreases hi
  {
    if hi > lo {
      PlaceAllRaises(xs, c, ss, lo, hi - 1, lastUpdated, sampling, smoothing);
      RaisesStep(xs, c, PlaceAll(xs, c, ss, lo, hi - 1, lastUpdated, sampling, smoothing), ss[hi - 1],
                 lastUpdated, sampling, smoothing);
    }
  }

  /** One more placement keeps a track that is not lower than `c`'s not lower. */
  lemma RaisesStep(xs: seq<int>, c: Chart, m: Chart, s: Successor, lastUpdated: Date,
                   sampling: nat, smoothing: nat)
    requires sampling >= 1 && smoothing >= 1 && ValidSuccessor(s) && ValidDate(lastUpdated)
    requires |xs| == |c.heightsY| == |m.heightsY| && Spaced(xs, sampling)
    requires NotLower(c.heightsY, m.heightsY)
    ensures NotLower(c.heightsY, PlaceStep(xs, m, s, lastUpdated, sampling, smoothing).heightsY)
  {
    PlaceStepGrows(xs, m, s, lastUpdated, sampling, smoothing);
    NotLowerTransitive(c.heightsY, m.heightsY, PlaceStep(xs, m, s, lastUpdated, sampling, smoothing).heightsY);
  }

  /** A batch only attaches lines: at most one per successor of the batch, each carrying
      that successor's id, after the lines already drawn. */
  lemma {:induction false} PlaceAllAttaches(xs: seq<int>, c: Chart, ss: seq<Successor>, lo: nat, hi: nat,
                                            lastUpdated: Date, sampling: nat, smoothing: nat)
    requires sampling >= 1 && smoothing >= 1 && ValidDate(lastUpdated)
    requires |xs| == |c.heightsY| && Spaced(xs, sampling)
    requires lo <= hi <= |ss| && ValidSuccessors(ss)
    ensures Attached(c.paths, PlaceAll(xs, c, ss, lo, hi, lastUpdated, sampling, smoothing).paths, ss, lo, hi)
    decreases hi
  {
    if hi == lo {
      AttachedNothing(c.paths, ss, lo);
    } else {
      PlaceAllAttaches(xs, c, ss, lo, hi - 1, lastUpdated, sampling, smoothing);
      AttachesNext(xs, c, ss, lo, hi, lastUpdated, sampling, smoothing);
    }
  }

  /** One more placement attaches at most the line of the next successor of the batch. */
  lemma AttachesNext(xs: seq<int>, c: Chart, ss: seq<Successor>, lo: nat, hi: nat, lastUpdated: Date,
                     sampling: nat, smoothing: nat)
    requires sampling >= 1 && smoothing >= 1 && ValidDate(lastUpdated)
    requires |xs| == |c.heightsY| && Spaced(xs, sampling)
    requires lo < hi <= |ss| && ValidSuccessors(ss)
    requires Attached(c.paths, PlaceAll(xs, c, ss, lo, hi - 1, lastUpdated, sampling, smoothing).paths, ss, lo, hi - 1)
    ensures Attached(c.paths, PlaceAll(xs, c, ss, lo, hi, lastUpdated, sampling, smoothing).paths, ss, lo, hi)
  {
    var m := PlaceAll(xs, c, ss, lo, hi - 1, lastUpdated, sampling, smoothing);
    var r := PlaceStep(xs, m, ss[hi - 1], lastUpdated, sampling, smoothing);
    PlaceStepGrows(xs, m, ss[hi - 1], lastUpdated, sampling, smoothing);
    AttachedStep(c.paths, m.paths, r.paths, ss, lo, hi - 1);
  }

  /** Placing one more successor extends the batch by one step. */
  lemma PlaceAllNext(xs: seq<int>, c: Chart, ss: seq<Successor>, lo: nat, hi: nat, lastUpdated: Date,
                     sampling: nat, smoothing: nat)
    requires sampling >= 1 && smoothing >= 1 && ValidDate(lastUpdated)
    requires |xs| == |c.heightsY| && Spaced(xs, sampling)
    requires lo <= hi < |ss| && ValidSuccessors(ss)
    ensures PlaceAll(xs, c, ss, lo, hi + 1, lastUpdated, sampling, smoothing)
            == PlaceStep(xs, PlaceAll(xs, c, ss, lo, hi, lastUpdated, sampling, smoothing), ss[hi],
                         lastUpdated, sampling, smoothing)
  {
  }

  /** One placement raises the track, or leaves it, and attaches at most this successor's line. */
  lemma PlaceStepGrows(xs: seq<int>, c: Chart, s: Successor, lastUpdated: Date,
                       sampling: nat, smoothing: nat)
    requires sampling >= 1 && smoothing >= 1 && ValidSuccessor(s) && ValidDate(lastUpdated)
    requires |xs| == |c.heightsY| && Spaced(xs, sampling)
    ensures var r := PlaceStep(xs, c, s, lastUpdated, sampling, smoothing);
      NotLower(c.heightsY, r.heightsY) && AttachesAtMostOne(c.paths, r.paths, s)
  {
    var e := LineEnd(xs, s, lastUpdated, sampling);
    var b := LineStart(xs, s, lastUpdated, sampling);
    if b + 2 <= e {
      PlacementRaises(c.heightsY, b, e, smoothing);
    }
  }

  /** Every entry of `b` is at least the entry of `a` at the same index. */
  predicate NotLower(a: seq<nat>, b: seq<nat>)
  {
    |a| <= |b| && forall k :: 0 <= k < |a| ==> b[k] >= a[k]
  }

  /** Entry-wise "not lower" is transitive. */
  lemma NotLowerTransitive(a: seq<nat>, b: seq<nat>, c: seq<nat>)
    requires NotLower(a, b) && NotLower(b, c)
    ensures NotLower(a, c)
  {
  }

  /** The ids of the successors `ss[lo..hi]`. */
  function IdsBetween(ss: seq<Successor>, lo: nat, hi: nat): set<string>
    requires lo <= hi <= |ss|
    decreases hi
  {
    if hi == lo then {} else IdsBetween(ss, lo, hi - 1) + {ss[hi - 1].id}
  }

  /** `after` is `before`, or `before` with one line of `s` attached. */
  predicate AttachesAtMostOne(before: seq<Path>, after: seq<Path>, s: Successor)
  {
    after == before || (|after| == |before| + 1 && after == before + [Path(s.id, after[|before|].points)])
  }

  /** `after` extends `before` by at most one line per successor of `ss[lo..hi]`, each with
      the id of one of them. */
  predicate Attached(before: seq<Path>, after: seq<Path>, ss: seq<Successor>, lo: nat, hi: nat)
    requires lo <= hi <= |ss|
  {
    |before| <= |after| <= |before| + (hi - lo)
    && after[..|before|] == before
    && forall k :: |before| <= k < |after| ==> after[k].id in IdsBetween(ss, lo, hi)
  }

  lemma AttachedNothing(before: seq<Path>, ss: seq<Successor>, lo: nat)
    requires lo <= |ss|
    ensures Attached(before, before, ss, lo, lo)
  {
    assert before[..|before|] == before;
  }

  lemma AttachedStep(before: seq<Path>, mid: seq<Path>, after: seq<Path>, ss: seq<Successor>, lo: nat, hi: nat)
    requires lo <= hi < |ss|
    requires Attached(before, mid, ss, lo, hi)
    requires AttachesAtMostOne(mid, after, ss[hi])
    ensures Attached(before, after, ss, lo, hi + 1)
  {
    assert after[..|mid|] == mid;
    assert after[..|before|] == mid[..|before|];
    forall k | |before| <= k < |after|
      ensures after[k].id in IdsBetween(ss, lo, hi + 1)
    {
      if k < |mid| {
        assert after[k] == mid[k];
      }
    }
  }

  class App {
    var successors: seq<Successor>
    var rowsAdded: nat
    var lastUpdated: Option<Date>
    /** The occupancy track: `heights.x` as month indices and `heights.y`. */
    var heightsX: seq<int>
    var heightsY: seq<nat>
    /** The lines attached to the chart so far, one per drawn successor. */
    var paths: seq<Path>
    /** Bucket size in months and the half-width of the height window, in samples. */
    const sampling: nat
    const smoothing: nat

    ghost predicate Valid()
      reads this
    {
      sampling >= 1 && smoothing >= 1
      && rowsAdded <= |successors|
      && |heightsX| == |heightsY| && Spaced(heightsX, sampling)
      && (successors != [] ==> lastUpdated.Some? && ValidDate(lastUpdated.value))
      && ValidSuccessors(successors)
    }

    /** The chart is `start` with the successors from index `from` up to the cursor placed on it. */
    ghost predicate PlacedSince(start: Chart, from: nat)
      requires Valid() && successors != []
      reads this
    {
      from <= rowsAdded && |start.heightsY| == |heightsX|
      && Chart(heightsY, paths)
         == PlaceAll(heightsX, start, successors, from, rowsAdded, lastUpdated.value, sampling, smoothing)
    }

    /** The element before any data has arrived. */
    constructor (sampling: nat, smoothing: nat)
      requires sampling >= 1 && smoothing >= 1
      ensures Valid()
      ensures this.sampling == sampling && this.smoothing == smoothing
      ensures successors == [] && rowsAdded == 0 && lastUpdated == None
      ensures heightsX == [] && heightsY == [] && paths == []
    {
      this.sampling := sampling;
      this.smoothing := smoothing;
      successors := [];
      rowsAdded := 0;
      lastUpdated := None;
      heightsX, heightsY := [], [];
      paths := [];
    }

    /** Take the loaded data (lines 375-390): keep the legitimate successors and build the
        track from the first successor's birth bucket to the bucket after the last update.
        On an empty list the source fails reading `successors[0]`; the track is then not built. */
    method SetData(updated: Date, data: seq<Successor>) returns (ok: bool)
      requires Valid() && rowsAdded == 0
      requires ValidDate(updated) && forall k :: 0 <= k < |data| ==> ValidSuccessor(data[k])
      modifies this
      ensures Valid() && rowsAdded == 0 && paths == old(paths)
      ensures lastUpdated == Some(updated) && successors == LegitimateSuccessors(data)
      ensures ok <==> successors != []
      ensures !ok ==> heightsX == old(heightsX) && heightsY == old(heightsY)
      ensures ok ==>
        var first := MonthIndex(ToSample(successors[0].birthDate, sampling));
        |heightsX| >= 1
        && heightsX[|heightsX| - 1] == MonthIndex(AddSample(ToSample(updated, sampling), 1, sampling))
        && heightsX[0] <= first
        && (forall k :: 1 <= k < |heightsX| ==> heightsX[k] > first)
        && (forall k :: 0 <= k < |heightsY| ==> heightsY[k] == 0)
    {
      lastUpdated := Some(updated);
      successors := LegitimateSuccessors(data);
      assert forall k :: 0 <= k < |successors| ==> successors[k] in data;
      if successors == [] {
        return false;
      }
      var firstSamplingDate := ToSample(successors[0].birthDate, sampling);
      var lastSamplingDate := AddSample(ToSample(updated, sampling), 1, sampling);
      heightsX, heightsY := BuildTrack(MonthIndex(firstSamplingDate), MonthIndex(lastSamplingDate), sampling);
      return true;
    }

    /** The continuation of `getSuccessors` once the data has arrived (lines 373-394):
        set the data, then draw the first batch on the fresh, flat track. Resetting the
        chart's scales is left out. */
    method ReceiveData(updated: Date, data: seq<Successor>)
      requires Valid() && rowsAdded == 0
      requires ValidDate(updated) && forall k :: 0 <= k < |data| ==> ValidSuccessor(data[k])
      modifies this
      ensures Valid()
      ensures lastUpdated == Some(updated) && successors == LegitimateSuccessors(data)
      ensures rowsAdded == if |successors| < RowBatchSize then |successors| else RowBatchSize
      ensures successors == [] ==>
        heightsX == old(heightsX) && heightsY == old(heightsY) && paths == old(paths)
      ensures successors != [] ==>
        var first := MonthIndex(ToSample(successors[0].birthDate, sampling));
        |heightsX| >= 1
        && heightsX[|heightsX| - 1] == MonthIndex(AddSample(ToSample(updated, sampling), 1, sampling))
        && heightsX[0] <= first
        && (forall k :: 1 <= k < |heightsX| ==> heightsX[k] > first)
        && Chart(heightsY, paths)
           == PlaceAll(heightsX, Chart(seq(|heightsX|, k => 0), old(paths)), successors, 0, rowsAdded,
                       updated, sampling, smoothing)
    {
      var ok := SetData(updated, data);
      assert ok ==> heightsY == seq(|heightsX|, k => 0);
      AddRows();
    }

    /** `addRows`: call `addRow` once per batch slot; the cursor advances by the batch size
        or up to the end of the list, and the batch's successors are placed in list order. */
    method AddRows()
      requires Valid()
      modifies this
      ensures Valid()
      ensures successors == old(successors) && heightsX == old(heightsX) && lastUpdated == old(lastUpdated)
      ensures rowsAdded == if old(rowsAdded) + RowBatchSize <= |successors|
                           then old(rowsAdded) + RowBatchSize else |successors|
      ensures successors == [] ==> heightsY == old(heightsY) && paths == old(paths)
      ensures successors != [] ==>
        Chart(heightsY, paths)
        == PlaceAll(heightsX, Chart(old(heightsY), old(paths)), successors, old(rowsAdded), rowsAdded,
                    lastUpdated.value, sampling, smoothing)
    {
      ghost var start := Chart(heightsY, paths);
      ghost var from := rowsAdded;
      for i := 0 to RowBatchSize
        invariant Valid()
        invariant successors == old(successors) && heightsX == old(heightsX) && lastUpdated == old(lastUpdated)
        invariant rowsAdded == if from + i <= |successors| then from + i else |successors|
        invariant successors == [] ==> heightsY == old(heightsY) && paths == old(paths)
        invariant successors != [] ==> PlacedSince(start, from)
      {
        ghost var at := rowsAdded;
        AddRow();
        if at < |successors| {
          PlaceAllNext(heightsX, start, successors, from, at, lastUpdated.value, sampling, smoothing);
        }
      }
    }

    /** `addRow`: place the successor under the cursor. Its heights are written into the track
        in place (only when the line has at least two points), its drawn line is attached, and
        the cursor moves on by one in every case except at the end of the list. */
    method AddRow()
      requires Valid()
      modifies this
      ensures Valid()
      ensures successors == old(successors) && heightsX == old(heightsX) && lastUpdated == old(lastUpdated)
      ensures old(rowsAdded) == |successors| ==>
        rowsAdded == old(rowsAdded) && heightsY == old(heightsY) && paths == old(paths)
      ensures old(rowsAdded) < |successors| ==>
        var s := successors[old(rowsAdded)];
        var e := LineEnd(heightsX, s, lastUpdated.value, sampling);
        var b := LineStart(heightsX, s, lastUpdated.value, sampling);
        rowsAdded == old(rowsAdded) + 1
        && (b + 2 <= e ==>
              heightsY == Splice(old(heightsY), b, Raised(old(heightsY), b, e, smoothing))
              && paths == old(paths) + [Path(s.id, DrawnLine(heightsX, old(heightsY), s, lastUpdated.value,
                                                             sampling, smoothing))])
        && (b + 2 > e ==> heightsY == old(heightsY) && paths == old(paths))
      ensures old(rowsAdded) < |successors| ==>
        Chart(heightsY, paths) == PlaceStep(heightsX, Chart(old(heightsY), old(paths)), successors[old(rowsAdded)],
                                            lastUpdated.value, sampling, smoothing)
    {
      if rowsAdded == |successors| {
        return;
      }
      var successor := successors[rowsAdded];
      var drawn, newHeights, points := PlaceSuccessor(heightsX, heightsY, successor, lastUpdated.value,
                                                      sampling, smoothing);
      if drawn {
        heightsY := newHeights;
        paths := paths + [Path(successor.id, points)];
      }
      rowsAdded := rowsAdded + 1;
    }
  }

  /** The body of `addRow` for one successor (lines 565-650): walk the track, and when the line
      has at least two points return the raised heights and the drawn line. */
  method PlaceSuccessor(xs: seq<int>, ys: seq<nat>, successor: Successor, today: Date,
                        sampling: nat, smoothing: nat)
    returns (drawn: bool, newYs: seq<nat>, points: seq<Point>)
    requires sampling >= 1 && smoothing >= 1 && ValidSuccessor(successor) && ValidDate(today)
    requires |xs| == |ys| && Spaced(xs, sampling)
    ensures var e := LineEnd(xs, successor, today, sampling);
      var b := LineStart(xs, successor, today, sampling);
      (drawn <==> b + 2 <= e)
      && (drawn ==> newYs == Splice(ys, b, Raised(ys, b, e, smoothing))
                    && points == DrawnLine(xs, ys, successor, today, sampling, smoothing))
  {
    EffectiveDatesValid(successor, today);
    var startDate := EffectiveStart(successor);
    var endDate := EffectiveEnd(successor, today);
    var startsBeforeMinDate := Before(startDate, MinDate);
    var sampledStartDate := ToSample(startDate, sampling);
    var sampledEndDate := AddSample(ToSample(endDate, sampling), 1, sampling);
    var lineStartIndex, lineX, lineY, lineMaxHeight :=
      PlaceLine(xs, ys, MonthIndex(sampledStartDate), MonthIndex(sampledEndDate),
                MonthIndex(MinDate), smoothing);
    ghost var e := LineEnd(xs, successor, today, sampling);
    ghost var b := LineStart(xs, successor, today, sampling);
    if |lineY| < 2 {
      return false, ys, [];
    }
    newYs := ys[..lineStartIndex] + lineY + ys[lineStartIndex + |lineY|..];
    assert newYs == Splice(ys, lineStartIndex, lineY);
    var line := DayLine(lineX, lineY);
    points := DrawBoundedLine(xs, ys, successor, today, sampling, smoothing, line);
    drawn := true;
  }

  /** Boundary interpolation and simplification of the placed line (lines 612-650). */
  method DrawBoundedLine(xs: seq<int>, ys: seq<nat>, successor: Successor, today: Date,
                         sampling: nat, smoothing: nat, line: Line)
    returns (points: seq<Point>)
    requires sampling >= 1 && smoothing >= 1 && ValidSuccessor(successor) && ValidDate(today)
    requires |xs| == |ys| && Spaced(xs, sampling)
    requires LineStart(xs, successor, today, sampling) + 2 <= LineEnd(xs, successor, today, sampling)
    requires var e := LineEnd(xs, successor, today, sampling);
      var b := LineStart(xs, successor, today, sampling);
      line == DayLine(xs[b..e], Raised(ys, b, e, smoothing))
    ensures points == DrawnLine(xs, ys, successor, today, sampling, smoothing)
  {
    ghost var e := LineEnd(xs, successor, today, sampling);
    ghost var b := LineStart(xs, successor, today, sampling);
    var startDate := EffectiveStart(successor);
    var endDate := EffectiveEnd(successor, today);
    var startsBeforeMinDate := Before(startDate, MinDate);
    SpacedSlice(xs, sampling, b, e);
    DayLineIncreasing(xs[b..e], Raised(ys, b, e, smoothing), sampling);
    SecondSampleAfterStart(xs, successor, today, sampling);
    assert line.x[1] == DayNumber(MonthStart(xs[b + 1]));
    var l := line;
    if !startsBeforeMinDate {
      l := FixStart(l, DayNumber(startDate));
    }
    l := FixEnd(l, DayNumber(endDate));
    assert l == BoundaryLine(line, DayNumber(startDate), DayNumber(endDate), startsBeforeMinDate);
    points := Simplify(l);
  }

  // ---- The "as of" table (renderTableRows, lines 258-300) ----

  /** A row is hidden on `date` if the successor is unborn, dead before it, illegitimate on or
      before it, or not yet legitimate. */
  predicate Skip(s: Successor, date: Date)
  {
    Before(date, s.birthDate)
    || (s.deathDate.Some? && Before(s.deathDate.value, date))
    || (s.illegitimateDate.Some? && NotAfter(s.illegitimateDate.value, date))
    || (s.legitimateDate.Some? && Before(date, s.legitimateDate.value))
  }

  /** One table row: the successor, their number in line (`-` when skipped) and whether
      the row is displayed (skipped rows stay visible while selected). */
  datatype TableRow = TableRow(id: string, number: Option<nat>, displayed: bool)

  /** The number a row shows: how many rows before it are in line. */
  function NumberInLine(ss: seq<Successor>, date: Date, i: nat): (n: nat)
    requires i <= |ss|
    ensures n <= i
  {
    if i == 0 then 0
    else NumberInLine(ss, date, i - 1) + (if Skip(ss[i - 1], date) then 0 else 1)
  }

  /** The row the table shows for `ss[j]` on `date`. */
  function ExpectedRow(ss: seq<Successor>, date: Date, selectedSuccessor: Option<string>, j: nat): TableRow
    requires j < |ss|
  {
    var skip := Skip(ss[j], date);
    TableRow(ss[j].id, if skip then None else Some(NumberInLine(ss, date, j)),
             selectedSuccessor == Some(ss[j].id) || !skip)
  }

  method RenderTableRows(ss: seq<Successor>, selectedDate: Option<Date>, selectedSuccessor: Option<string>)
    returns (rows: Option<seq<TableRow>>)
    ensures selectedDate.None? <==> rows.None?
    ensures rows.Some? ==> |rows.value| == |ss|
    ensures rows.Some? ==> forall i :: 0 <= i < |ss| ==>
      var skip := Skip(ss[i], selectedDate.value);
      rows.value[i] == TableRow(ss[i].id, if skip then None else Some(NumberInLine(ss, selectedDate.value, i)),
                                selectedSuccessor == Some(ss[i].id) || !skip)
  {
    if selectedDate.None? {
      return None;
    }
    var date := selectedDate.value;
    var out: seq<TableRow> := [];
    var numInLine := 0;
    for i := 0 to |ss|
      invariant |out| == i
      invariant numInLine == NumberInLine(ss, date, i)
      invariant forall j :: 0 <= j < i ==> out[j] == ExpectedRow(ss, date, selectedSuccessor, j)
    {
      var successor := ss[i];
      var selected := selectedSuccessor == Some(successor.id);
      var skip := Skip(successor, date);
      out := out + [TableRow(successor.id, if !skip then Some(numInLine) else None, selected || !skip)];

      if !skip {
        numInLine := numInLine + 1;
      }
    }
    return Some(out);
  }

  /** The rows in line are numbered 0, 1, 2, ... in list order: each in-line row's number is
      one more than that of the previous in-line row, and the first in-line row gets 0. */
  lemma {:induction false} NumbersAreConsecutive(ss: seq<Successor>, date: Date, i: nat, j: nat)
    requires i < j < |ss| && !Skip(ss[i], date) && !Skip(ss[j], date)
    requires forall k :: i < k < j ==> Skip(ss[k], date)
    ensures NumberInLine(ss, date, j) == NumberInLine(ss, date, i) + 1
    decreases j - i
  {
    if j - 1 > i {
      SkippedKeepNumber(ss, date, i + 1, j - 1);
    }
  }

  /** A run of skipped rows does not advance the number. */
  lemma {:induction false} SkippedKeepNumber(ss: seq<Successor>, date: Date, i: nat, j: nat)
    requires i <= j < |ss|
    requires forall k :: i <= k <= j ==> Skip(ss[k], date)
    ensures NumberInLine(ss, date, j + 1) == NumberInLine(ss, date, i)
    decreases j - i
  {
    if j > i {
      SkippedKeepNumber(ss, date, i, j - 1);
    }
  }

  /** A row's number is how many rows above it are in line on that date. */
  lemma {:induction false} NumberInLineCounts(ss: seq<Successor>, date: Date, i: nat)
    requires i <= |ss|
    ensures NumberInLine(ss, date, i) == Count(ss[..i], s => !Skip(s, date))
    ensures NumberInLine(ss, date, i) == |Filter(ss[..i], s => !Skip(s, date))|
  {
    var inLine := s => !Skip(s, date);
    if i > 0 {
      NumberInLineCounts(ss, date, i - 1);
      var upTo := ss[..i];
      assert upTo[..|upTo| - 1] == ss[..i - 1] && upTo[|upTo| - 1] == ss[i - 1];
    }
    CountIsFilterLength(ss[..i], inLine);
  }

  lemma {:induction false} FirstInLineIsZero(ss: seq<Successor>, date: Date, i: nat)
    requires i <= |ss| && forall k :: 0 <= k < i ==> Skip(ss[k], date)
    ensures NumberInLine(ss, date, i) == 0
  {
    if i > 0 {
      FirstInLineIsZero(ss, date, i - 1);
    }
  }

  /** Rows in line get pairwise different numbers, increasing down the table. */
  lemma {:induction false} NumbersIncrease(ss: seq<Successor>, date: Date, i: nat, j: nat)
    requires i < j < |ss| && !Skip(ss[i], date)
    ensures NumberInLine(ss, date, i) < NumberInLine(ss, date, j)
    decreases j - i
  {
    if j - 1 > i {
      NumbersIncrease(ss, date, i, j - 1);
    }
  }
}
