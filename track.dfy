/** The occupancy track and line placement of web/succession-app.js: one height per
    sample (bucket start, as a month index); placing a successor raises the track over
    the successor's interval to one more than the windowed maximum around each sample. */
module Track {
  import opened Seqs

  /** Consecutive track entries are exactly one bucket apart. */
  predicate Spaced(xs: seq<int>, sampling: nat)
  {
    forall i, j {:trigger xs[i], xs[j]} :: 0 <= i < |xs| && 0 <= j < |xs| && j == i + 1 ==> xs[j] == xs[i] + sampling
  }

  lemma {:induction false} SpacedIncreasing(xs: seq<int>, sampling: nat, i: int, j: int)
    requires Spaced(xs, sampling) && sampling >= 1
    requires 0 <= i < j < |xs|
    ensures xs[i] + (j - i) * sampling == xs[j]
    ensures xs[i] < xs[j]
    decreases j - i
  {
    if i < j - 1 {
      SpacedIncreasing(xs, sampling, i, j - 1);
    }
  }

  /** The initial track (getSuccessors): start from the bucket after the last update
      and prepend one earlier bucket at a time, each with height 0, until the first
      entry is not after `first` (the bucket of the first successor's birth). */
  method BuildTrack(first: int, last: int, sampling: nat) returns (xs: seq<int>, ys: seq<nat>)
    requires sampling >= 1
    ensures |xs| == |ys| >= 1
    ensures xs[|xs| - 1] == last
    ensures Spaced(xs, sampling)
    ensures forall k :: 0 <= k < |ys| ==> ys[k] == 0
    ensures xs[0] <= first
    ensures forall k :: 1 <= k < |xs| ==> xs[k] > first
  {
    xs, ys := [last], [0];
    while xs[0] > first
      invariant |xs| == |ys| >= 1
      invariant xs[|xs| - 1] == last
      invariant Spaced(xs, sampling)
      invariant forall k :: 0 <= k < |ys| ==> ys[k] == 0
      invariant forall k :: 1 <= k < |xs| ==> xs[k] > first
      decreases xs[0] - first
    {
      var date := xs[0] - sampling;
      xs := [date] + xs;
      ys := [0] + ys;
    }
  }

  // ---- Where a line lies on the track ----

  /** The index at which the walk over the track stops: the first entry after the
      snapped-up end, or the track's length. */
  function EndIndex(xs: seq<int>, sampledEnd: int): (e: nat)
    ensures e <= |xs|
    ensures forall k :: 0 <= k < e ==> xs[k] <= sampledEnd
    ensures e < |xs| ==> xs[e] > sampledEnd
  {
    if xs == [] || xs[0] > sampledEnd then 0
    else
      var rest := EndIndex(xs[1..], sampledEnd);
      assert forall k :: 1 <= k < |xs| ==> xs[k] == xs[1..][k - 1];
      1 + rest
  }

  /** An entry at which a line may begin: not before the snapped-down start and
      not before the chart's minimum date. */
  predicate StartsLine(x: int, sampledStart: int, minDate: int)
  {
    !(x < sampledStart || x < minDate)
  }

  function StartFrom(xs: seq<int>, sampledStart: int, minDate: int, e: nat, k: nat): (b: nat)
    requires e <= |xs| && k <= e
    ensures k <= b <= e
    ensures forall j :: k <= j < b ==> !StartsLine(xs[j], sampledStart, minDate)
    ensures b < e ==> StartsLine(xs[b], sampledStart, minDate)
    decreases e - k
  {
    if k == e || StartsLine(xs[k], sampledStart, minDate) then k
    else StartFrom(xs, sampledStart, minDate, e, k + 1)
  }

  /** `lineStartIndex`: the first entry before `e` at which the line may begin, or `e`. */
  function StartIndex(xs: seq<int>, sampledStart: int, minDate: int, e: nat): (b: nat)
    requires e <= |xs|
    ensures b <= e
    ensures forall j :: 0 <= j < b ==> !StartsLine(xs[j], sampledStart, minDate)
    ensures b < e ==> StartsLine(xs[b], sampledStart, minDate)
  {
    StartFrom(xs, sampledStart, minDate, e, 0)
  }

  /** On an increasing track the line covers exactly the entries that are not before
      either start bound and not after the snapped-up end. */
  lemma LineCoversInterval(xs: seq<int>, sampling: nat, sampledStart: int, minDate: int, sampledEnd: int)
    requires Spaced(xs, sampling) && sampling >= 1
    ensures var e := EndIndex(xs, sampledEnd);
      var b := StartIndex(xs, sampledStart, minDate, e);
      forall k :: 0 <= k < |xs| ==>
        (b <= k < e <==> StartsLine(xs[k], sampledStart, minDate) && xs[k] <= sampledEnd)
  {
    var e := EndIndex(xs, sampledEnd);
    var b := StartIndex(xs, sampledStart, minDate, e);
    forall k | 0 <= k < |xs|
      ensures b <= k < e <==> StartsLine(xs[k], sampledStart, minDate) && xs[k] <= sampledEnd
    {
      if b <= k < e && b < k {
        SpacedIncreasing(xs, sampling, b, k);
      }
      if e <= k && e < k {
        SpacedIncreasing(xs, sampling, e, k);
      }
    }
  }

  // ---- Window maximum and write-back ----

  function WindowLo(i: nat, smoothing: nat): nat
  {
    if i >= smoothing then i - smoothing else 0
  }

  function WindowHi(i: nat, smoothing: nat, n: nat): nat
  {
    if i + smoothing <= n then i + smoothing else n
  }

  /** `Math.max(...heights.slice(max(0, i - smoothing), i + smoothing))`. */
  function WindowMax(ys: seq<nat>, i: nat, smoothing: nat): nat
    requires i < |ys| && smoothing >= 1
  {
    SeqMax(ys[WindowLo(i, smoothing)..WindowHi(i, smoothing, |ys|)])
  }

  /** The window maximum is a largest height of the window around `i`, which holds `i`
      itself because `smoothing >= 1`. */
  lemma WindowMaxIsMaximum(ys: seq<nat>, i: nat, smoothing: nat)
    requires i < |ys| && smoothing >= 1
    ensures var m := WindowMax(ys, i, smoothing);
      (forall j :: WindowLo(i, smoothing) <= j < WindowHi(i, smoothing, |ys|) ==> ys[j] <= m)
      && (exists j :: WindowLo(i, smoothing) <= j < WindowHi(i, smoothing, |ys|) && ys[j] == m)
      && ys[i] <= m
  {
    var lo, hi := WindowLo(i, smoothing), WindowHi(i, smoothing, |ys|);
    var w := ys[lo..hi];
    assert forall j :: lo <= j < hi ==> ys[j] == w[j - lo];
    SeqMaxIsMaximum(w);
    var k :| 0 <= k < |w| && w[k] == SeqMax(w);
    assert ys[lo + k] == WindowMax(ys, i, smoothing);
  }

  /** The heights a line takes over entries `lo..e`: one above each window maximum. */
  function Raised(ys: seq<nat>, lo: nat, e: nat, smoothing: nat): (r: seq<nat>)
    requires lo <= e <= |ys| && smoothing >= 1
    ensures |r| == e - lo
    decreases e - lo
  {
    if e == lo then [] else Raised(ys, lo, e - 1, smoothing) + [WindowMax(ys, e - 1, smoothing) + 1]
  }

  lemma {:induction false} RaisedAt(ys: seq<nat>, lo: nat, e: nat, smoothing: nat, k: nat)
    requires lo <= k < e <= |ys| && smoothing >= 1
    ensures Raised(ys, lo, e, smoothing)[k - lo] == WindowMax(ys, k, smoothing) + 1
    decreases e - lo
  {
    var init := Raised(ys, lo, e - 1, smoothing);
    assert Raised(ys, lo, e, smoothing) == init + [WindowMax(ys, e - 1, smoothing) + 1];
    if k < e - 1 {
      RaisedAt(ys, lo, e - 1, smoothing, k);
      assert (init + [WindowMax(ys, e - 1, smoothing) + 1])[k - lo] == init[k - lo];
    }
  }

  /** `ys.splice(lo, r.length, ...r)`: overwrite `|r|` entries from `lo`, nothing else. */
  function Splice(ys: seq<nat>, lo: nat, r: seq<nat>): (z: seq<nat>)
    requires lo + |r| <= |ys|
    ensures |z| == |ys|
    ensures forall k :: lo <= k < lo + |r| ==> z[k] == r[k - lo]
    ensures forall k :: 0 <= k < |ys| && !(lo <= k < lo + |r|) ==> z[k] == ys[k]
  {
    ys[..lo] + r + ys[lo + |r|..]
  }

  /** Writing a placed line back raises every covered entry strictly above every old height
      in that entry's window (so above its own old height) and leaves the rest alone. */
  lemma PlacementRaises(ys: seq<nat>, lo: nat, e: nat, smoothing: nat)
    requires lo <= e <= |ys| && smoothing >= 1
    ensures var z := Splice(ys, lo, Raised(ys, lo, e, smoothing));
      |z| == |ys|
      && (forall k :: lo <= k < e ==> z[k] > ys[k])
      && (forall k, j :: lo <= k < e && WindowLo(k, smoothing) <= j < WindowHi(k, smoothing, |ys|)
            ==> z[k] > ys[j])
      && (forall k :: 0 <= k < |ys| && !(lo <= k < e) ==> z[k] == ys[k])
  {
    var r := Raised(ys, lo, e, smoothing);
    var z := Splice(ys, lo, r);
    forall k | lo <= k < e
      ensures z[k] == WindowMax(ys, k, smoothing) + 1
      ensures forall j :: WindowLo(k, smoothing) <= j < WindowHi(k, smoothing, |ys|) ==> ys[j] < z[k]
    {
      RaisedAt(ys, lo, e, smoothing, k);
      WindowMaxIsMaximum(ys, k, smoothing);
    }
  }

  /** The placement walk of `addRow` (lines 585-606): walk the track, skip entries before
      the line's start, stop after its end, and give each covered entry its window height.
      Returns the start index, the line's sample dates and heights, and their maximum. */
  method PlaceLine(xs: seq<int>, ys: seq<nat>, sampledStart: int, sampledEnd: int,
                   minDate: int, smoothing: nat)
    returns (lineStartIndex: nat, lineX: seq<int>, lineY: seq<nat>, lineMaxHeight: nat)
    requires |xs| == |ys| && smoothing >= 1
    ensures var e := EndIndex(xs, sampledEnd);
      var b := StartIndex(xs, sampledStart, minDate, e);
      lineX == xs[b..e] && lineY == Raised(ys, b, e, smoothing)
      && (lineX != [] ==> lineStartIndex == b)
    ensures forall k :: 0 <= k < |lineY| ==> lineY[k] <= lineMaxHeight
    ensures lineY == [] ==> lineMaxHeight == 0
    ensures lineY != [] ==> lineMaxHeight in lineY
  {
    ghost var e := EndIndex(xs, sampledEnd);
    ghost var b := StartIndex(xs, sampledStart, minDate, e);
    var started := false;
    lineStartIndex, lineX, lineY, lineMaxHeight := 0, [], [], 0;
    var i := 0;
    while i < |ys| && xs[i] <= sampledEnd
      invariant i <= |ys|
      invariant i <= e
      invariant started ==> lineStartIndex == b && b < i
      invariant started ==> lineX == xs[b..i]
      invariant started ==> lineY == Raised(ys, b, i, smoothing)
      invariant !started ==> lineX == [] && lineY == [] && b >= i
      invariant forall k :: 0 <= k < |lineY| ==> lineY[k] <= lineMaxHeight
      invariant lineY == [] ==> lineMaxHeight == 0
      invariant lineY != [] ==> lineMaxHeight in lineY
    {
      assert i < e;
      var date := xs[i];
      if !started && (date < sampledStart || date < minDate) {
        assert b != i;
        i := i + 1;
      } else {
        if !started {
          assert b == i;
          lineStartIndex := i;
          started := true;
        }
        var lineHeight := WindowMax(ys, i, smoothing);
        var y := lineHeight + 1;
        assert xs[b..i + 1] == xs[b..i] + [date];
        assert Raised(ys, b, i + 1, smoothing) == Raised(ys, b, i, smoothing) + [y];
        lineX := lineX + [date];
        lineY := lineY + [y];
        lineMaxHeight := if lineMaxHeight >= y then lineMaxHeight else y;
        i := i + 1;
      }
    }
    assert i == e;
  }
}
