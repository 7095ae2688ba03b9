/** The chart's time sampler (web/succession-app.js, `_toSample` and `_addSample`):
    dates are grouped into buckets of `sampling` months, each bucket named by its first day. */
module Sampler {
  import opened Dates

  /** The first day of the bucket that holds `d`: same year, month rounded down
      to a multiple of `sampling` (counting months from 0 as JavaScript does). */
  function ToSample(d: Date, sampling: nat): (r: Date)
    requires sampling >= 1 && 1 <= d.month <= 12
  {
    var month := d.month - 1;
    Date(d.year, month - month % sampling + 1, 1)
  }

  /** `d`'s month moved by `units` whole buckets, on the first of the month; a month
      outside 0..11 carries into the year as in `new Date(year, month, 1)`. */
  function AddSample(d: Date, units: int, sampling: nat): (r: Date)
  {
    var month := d.month - 1 + units * sampling;
    MonthStart(d.year * 12 + month)
  }

  lemma ToSampleShape(d: Date, sampling: nat)
    requires sampling >= 1 && 1 <= d.month <= 12
    ensures var r := ToSample(d, sampling);
      r.year == d.year && r.day == 1 && 1 <= r.month <= d.month
      && (r.month - 1) % sampling == 0
      && d.month - r.month < sampling
  {
  }

  /** A bucket start is never later than the date it was computed from. */
  lemma ToSampleNotAfter(d: Date, sampling: nat)
    requires sampling >= 1 && 1 <= d.month <= 12 && d.day >= 1
    ensures NotAfter(ToSample(d, sampling), d)
  {
  }

  lemma ToSampleIdempotent(d: Date, sampling: nat)
    requires sampling >= 1 && 1 <= d.month <= 12
    ensures ToSample(ToSample(d, sampling), sampling) == ToSample(d, sampling)
  {
    var m := d.month - 1;
    var r := m - m % sampling;
    assert r == (m / sampling) * sampling;
    DivModUnique(r, sampling, m / sampling, 0);
  }

  /** The bucket of `d` starts at most `sampling - 1` months before `d`'s month. */
  lemma ToSampleMonthIndex(d: Date, sampling: nat)
    requires sampling >= 1 && 1 <= d.month <= 12
    ensures MonthIndex(d) - sampling < MonthIndex(ToSample(d, sampling)) <= MonthIndex(d)
  {
  }

  /** Moving by `units` buckets moves the month index by exactly `units * sampling`. */
  lemma AddSampleMonthIndex(d: Date, units: int, sampling: nat)
    ensures MonthIndex(AddSample(d, units, sampling)) == MonthIndex(d) + units * sampling
    ensures AddSample(d, units, sampling).day == 1
    ensures 1 <= AddSample(d, units, sampling).month <= 12
  {
  }

  lemma AddSampleCompose(d: Date, a: int, b: int, sampling: nat)
    ensures AddSample(AddSample(d, a, sampling), b, sampling) == AddSample(d, a + b, sampling)
  {
    var r := AddSample(d, a, sampling);
    assert MonthIndex(r) == MonthIndex(d) + a * sampling;
    assert r.year * 12 + r.month - 1 + b * sampling == MonthIndex(d) + (a + b) * sampling;
  }

  /** The snapped-up end `AddSample(ToSample(d), 1)` is strictly later than `d`. */
  lemma SampledEndAfter(d: Date, sampling: nat)
    requires sampling >= 1 && 1 <= d.month <= 12
    ensures MonthIndex(d) < MonthIndex(AddSample(ToSample(d, sampling), 1, sampling))
  {
    ToSampleMonthIndex(d, sampling);
    AddSampleMonthIndex(ToSample(d, sampling), 1, sampling);
  }

  /** When the bucket size divides a year, every bucket start sits on one grid of
      month indices, so buckets line up across years. */
  lemma {:induction false} BucketsAlign(d: Date, units: int, sampling: nat)
    requires sampling >= 1 && 12 % sampling == 0 && 1 <= d.month <= 12
    ensures MonthIndex(ToSample(d, sampling)) % sampling == 0
    ensures MonthIndex(AddSample(ToSample(d, sampling), units, sampling)) % sampling == 0
  {
    var r := ToSample(d, sampling);
    ToSampleShape(d, sampling);
    var k := 12 / sampling;
    DivModUnique(12, sampling, k, 12 % sampling);
    var j := (r.month - 1) / sampling;
    DivModUnique(r.month - 1, sampling, j, (r.month - 1) % sampling);
    var q := r.year * k + j;
    calc {
      MonthIndex(r);
      r.year * 12 + (r.month - 1);
      r.year * (k * sampling) + j * sampling;
      { assert r.year * (k * sampling) == (r.year * k) * sampling; }
      (r.year * k) * sampling + j * sampling;
      q * sampling;
    }
    DivModUnique(MonthIndex(r), sampling, q, 0);
    AddSampleMonthIndex(r, units, sampling);
    assert MonthIndex(AddSample(r, units, sampling)) == (q + units) * sampling;
    DivModUnique(MonthIndex(AddSample(r, units, sampling)), sampling, q + units, 0);
  }
}
