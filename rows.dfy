/** The simplified descendant record of `geni.yml`, written by geni.py and read by main.py
    (one data-frame row, indexed by `_id`). */
module Rows {
  import opened Wrappers
  import opened Dates

  /** How much of a date the source gives: year only, year and month, or the full date. */
  datatype Accuracy = Year | Month | Day

  function AccuracyName(a: Accuracy): string
  {
    match a
    case Year => "year"
    case Month => "month"
    case Day => "day"
  }

  datatype Row = Row(
    id: string,
    name: Option<string>,
    shortName: Option<string>,
    gender: Option<string>,
    birthDate: Option<Date>,
    birthAccuracy: Option<Accuracy>,
    deathDate: Option<Date>,
    deathAccuracy: Option<Accuracy>,
    isAlive: Option<bool>,
    childrenIds: seq<string>,
    parentIds: seq<string>,
    externalUrl: Option<string>,
    geniId: string,
    /** Added by main.py: loss of a place in line, and (Perth duplicates) gain of one. */
    illegitimateDate: Option<Date>,
    legitimateDate: Option<Date>)

  /** `df.loc[id]` / one label of `df.reindex(ids)`: the row filed under `id`, if any. */
  function Lookup(df: seq<Row>, id: string): (r: Option<Row>)
    ensures r.Some? ==> r.value in df && r.value.id == id
    ensures r.None? ==> forall k :: 0 <= k < |df| ==> df[k].id != id
  {
    if |df| == 0 then None
    else if df[0].id == id then Some(df[0])
    else Lookup(df[1..], id)
  }
}
