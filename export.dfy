/** The hand-over from main.py to the chart: the records of `successors.json`
    (main.py, lines 153-164), and how the two programs' eligibility tests compare. */
module Export {
  import opened Wrappers
  import opened Dates
  import opened Rows
  import opened Succession
  import opened SuccessionApp

  /** One exported record: the row's id, name, dates and link, with null fields dropped.
      Cleaning has removed every row without a birth date, so only those have no record. */
  function ToSuccessor(r: Row): (s: Option<Successor>)
    ensures s.Some? <==> r.birthDate.Some?
    ensures s.Some? ==>
      s.value.id == r.id && s.value.birthDate == r.birthDate.value
      && s.value.deathDate == r.deathDate && s.value.legitimateDate == r.legitimateDate
      && s.value.illegitimateDate == r.illegitimateDate
  {
    if r.birthDate.None? then None
    else Some(Successor(r.id, r.name, r.birthDate.value, r.deathDate, r.legitimateDate,
                        r.illegitimateDate, r.externalUrl))
  }

  /** The chart's table and get_succession agree on who is in line on a date, except on the
      day of a death: the table still numbers a successor who dies that day (it skips only a
      death strictly before the date), get_succession does not (it keeps only a death after). */
  lemma TableVersusGetSuccession(r: Row, date: Date)
    requires r.birthDate.Some?
    ensures InLine(r, date) <==> !Skip(ToSuccessor(r).value, date) && r.deathDate != Some(date)
  {
    var s := ToSuccessor(r).value;
    BeforeIsStrictOrder(date, s.birthDate, date);
    if r.deathDate.Some? {
      BeforeIsStrictOrder(date, r.deathDate.value, date);
    }
    if r.legitimateDate.Some? {
      BeforeIsStrictOrder(date, r.legitimateDate.value, date);
    }
  }
}
