/** The order-of-succession rules of main.py: illegitimacy rules, cleaning, ordering of
    children around the Perth agreement, preorder numbering, and eligibility on a date. */
module Succession {
  import opened Wrappers
  import opened Dates
  import opened Seqs
  import opened Rows

  /** The Perth agreement: signed 2011-10-28, in effect from 2015-03-26. */
  const PerthSigned := Date(2011, 10, 28)
  const PerthEffected := Date(2015, 3, 26)

  // ---- Illegitimacy rules (set_illegitimate, lines 17-28) ----

  /** The text value of column `key` of a row (`None` inside is a null cell); `None` outside
      when `key` is not a text column: either the frame has no such column (`df[key]` raises
      `KeyError`; `_id` is the index) or it is one of the `NonTextColumns`. */
  function ColumnText(r: Row, key: string): (v: Option<Option<string>>)
    ensures v.Some? <==> key in TextColumns
  {
    if key == "name" then Some(r.name)
    else if key == "short_name" then Some(r.shortName)
    else if key == "gender" then Some(r.gender)
    else if key == "external_url" then Some(r.externalUrl)
    else if key == "_geni_id" then Some(Some(r.geniId))
    else if key == "birth_accuracy" then Some(if r.birthAccuracy.Some? then Some(AccuracyName(r.birthAccuracy.value)) else None)
    else if key == "death_accuracy" then Some(if r.deathAccuracy.Some? then Some(AccuracyName(r.deathAccuracy.value)) else None)
    else None
  }

  const TextColumns: set<string> :=
    {"name", "short_name", "gender", "external_url", "_geni_id", "birth_accuracy", "death_accuracy"}

  /** Columns holding dates, flags or id lists; matching a text value against them is not modelled. */
  const NonTextColumns: set<string> :=
    {"birth_date", "death_date", "is_alive", "children_ids", "parent_ids", "illegitimate_date", "legitimate_date"}

  /** `df[key] == value` for one row: a null cell never equals a value. */
  predicate Matches(r: Row, key: string, value: string)
  {
    ColumnText(r, key) == Some(Some(value))
  }

  /** The frame after `set_illegitimate(df, key, value, date)`: each matching row becomes
      illegitimate from `date`, or from its own birth date when no date is given. */
  function MarkIllegitimate(rows: seq<Row>, key: string, value: string, date: Option<Date>): (r: seq<Row>)
    ensures |r| == |rows|
  {
    seq(|rows|, k requires 0 <= k < |rows| =>
      if Matches(rows[k], key, value)
      then rows[k].(illegitimateDate := if date.Some? then date else rows[k].birthDate)
      else rows[k])
  }

  /** Only the illegitimacy of matching rows changes; an unknown column changes nothing;
      applying the same rule twice is the same as once. */
  lemma MarkIllegitimateProperties(rows: seq<Row>, key: string, value: string, date: Option<Date>)
    ensures key !in TextColumns ==> MarkIllegitimate(rows, key, value, date) == rows
    ensures forall k :: 0 <= k < |rows| ==>
      var r := MarkIllegitimate(rows, key, value, date)[k];
      r.(illegitimateDate := rows[k].illegitimateDate) == rows[k]
      && (Matches(rows[k], key, value) ==> r.illegitimateDate == (if date.Some? then date else rows[k].birthDate))
      && (!Matches(rows[k], key, value) ==> r == rows[k])
    ensures MarkIllegitimate(MarkIllegitimate(rows, key, value, date), key, value, date)
              == MarkIllegitimate(rows, key, value, date)
  {
  }

  /** One entry of `illegitimates.yml`: an optional date and the column values to match. */
  datatype Rule = Rule(date: Option<Date>, matches: seq<(string, string)>)

  function ApplyMatches(rows: seq<Row>, date: Option<Date>, ms: seq<(string, string)>): seq<Row>
  {
    if ms == [] then rows
    else MarkIllegitimate(ApplyMatches(rows, date, ms[..|ms| - 1]), ms[|ms| - 1].0, ms[|ms| - 1].1, date)
  }

  /** The frame after all rules, applied in file order (lines 114-117). */
  function ApplyRules(rows: seq<Row>, rules: seq<Rule>): seq<Row>
  {
    if rules == [] then rows
    else
      var last := rules[|rules| - 1];
      ApplyMatches(ApplyRules(rows, rules[..|rules| - 1]), last.date, last.matches)
  }

  /** The data frame, mutated in place by the illegitimacy rules. */
  class Frame {
    var rows: seq<Row>

    constructor (rows: seq<Row>)
      ensures this.rows == rows
    {
      this.rows := rows;
    }

    method SetIllegitimate(key: string, value: string, date: Option<Date>)
      requires key !in NonTextColumns
      modifies this
      ensures rows == MarkIllegitimate(old(rows), key, value, date)
    {
      if key !in TextColumns {
        MarkIllegitimateProperties(rows, key, value, date);
        return;
      }
      ghost var before := rows;
      for i := 0 to |rows|
        invariant |rows| == |before|
        invariant forall k :: 0 <= k < i ==> rows[k] == MarkIllegitimate(before, key, value, date)[k]
        invariant forall k :: i <= k < |rows| ==> rows[k] == before[k]
      {
        var row := rows[i];
        if Matches(row, key, value) {
          var illegitimateDate := if date.Some? then date else row.birthDate;
          rows := rows[i := row.(illegitimateDate := illegitimateDate)];
        }
      }
    }

    /** Lines 114-117: every (column, value) of every rule, in order. */
    method ApplyAll(rules: seq<Rule>)
      requires forall i, j :: 0 <= i < |rules| && 0 <= j < |rules[i].matches| ==> rules[i].matches[j].0 !in NonTextColumns
      modifies this
      ensures rows == ApplyRules(old(rows), rules)
    {
      ghost var before := rows;
      for i := 0 to |rules|
        invariant rows == ApplyRules(before, rules[..i])
      {
        var rule := rules[i];
        ghost var start := rows;
        for j := 0 to |rule.matches|
          invariant rows == ApplyMatches(start, rule.date, rule.matches[..j])
        {
          SetIllegitimate(rule.matches[j].0, rule.matches[j].1, rule.date);
          assert rule.matches[..j + 1][..j] == rule.matches[..j];
        }
        assert rule.matches[..|rule.matches|] == rule.matches;
        assert rules[..i + 1][..i] == rules[..i];
      }
      assert rules[..|rules|] == rules;
    }
  }

  // ---- Cleaning (lines 125-136) ----

  /** Rows the cleaning keeps: a birth date, a death date for the dead, and no death before birth. */
  predicate SurvivesCleaning(r: Row)
  {
    r.birthDate.Some?
    && !(r.deathDate.None? && r.isAlive == Some(false))
    && !(r.deathDate.Some? && Before(r.deathDate.value, r.birthDate.value))
  }

  function Clean(rows: seq<Row>): (r: seq<Row>)
    ensures |r| <= |rows|
    ensures forall x :: x in r <==> x in rows && SurvivesCleaning(x)
    ensures forall k :: 0 <= k < |r| ==> r[k].birthDate.Some?
  {
    FilterSpec(rows, SurvivesCleaning);
    Filter(rows, SurvivesCleaning)
  }

  // ---- Ordering of children (fill_succession, lines 31-63) ----

  /** Python string order (code point by code point). */
  predicate LexLe(a: string, b: string)
  {
    |a| == 0 || (|b| > 0 && (a[0] < b[0] || (a[0] == b[0] && LexLe(a[1..], b[1..]))))
  }

  lemma {:induction false} LexLeTotal(a: string, b: string)
    ensures LexLe(a, b) || LexLe(b, a)
  {
    if |a| > 0 && |b| > 0 && a[0] == b[0] {
      LexLeTotal(a[1..], b[1..]);
    }
  }

  lemma {:induction false} LexLeTransitive(a: string, b: string, c: string)
    requires LexLe(a, b) && LexLe(b, c)
    ensures LexLe(a, c)
  {
    if |a| > 0 && |b| > 0 && |c| > 0 && a[0] == b[0] && b[0] == c[0] {
      LexLeTransitive(a[1..], b[1..], c[1..]);
    }
  }

  /** `sort_values('birth_date')`: by birth date, missing dates last. */
  predicate BirthLe(a: Row, b: Row)
  {
    if a.birthDate.None? then b.birthDate.None?
    else b.birthDate.None? || NotAfter(a.birthDate.value, b.birthDate.value)
  }

  /** `sort_values('gender', ascending=False)`: descending gender text ("male" before
      "female"), missing genders last. */
  predicate GenderLe(a: Row, b: Row)
  {
    if a.gender.None? then b.gender.None?
    else b.gender.None? || LexLe(b.gender.value, a.gender.value)
  }

  lemma BirthLeIsTotal()
    ensures TotalPreorder(BirthLe)
  {
    forall a: Row, b: Row, c: Row ensures (BirthLe(a, b) || BirthLe(b, a)) && (BirthLe(a, b) && BirthLe(b, c) ==> BirthLe(a, c)) {
      if a.birthDate.Some? && b.birthDate.Some? && c.birthDate.Some? {
        BeforeIsStrictOrder(a.birthDate.value, b.birthDate.value, c.birthDate.value);
        BeforeIsStrictOrder(c.birthDate.value, b.birthDate.value, a.birthDate.value);
      } else if a.birthDate.Some? && b.birthDate.Some? {
        BeforeIsStrictOrder(a.birthDate.value, b.birthDate.value, b.birthDate.value);
      }
    }
  }

  lemma GenderLeIsTotal()
    ensures TotalPreorder(GenderLe)
  {
    forall a: Row, b: Row, c: Row ensures (GenderLe(a, b) || GenderLe(b, a)) && (GenderLe(a, b) && GenderLe(b, c) ==> GenderLe(a, c)) {
      if a.gender.Some? && b.gender.Some? {
        LexLeTotal(a.gender.value, b.gender.value);
        if c.gender.Some? && GenderLe(a, b) && GenderLe(b, c) {
          LexLeTransitive(c.gender.value, b.gender.value, a.gender.value);
        }
      }
    }
  }

  predicate IsMale(r: Row)
  {
    r.gender == Some("male")
  }

  predicate IsFemale(r: Row)
  {
    r.gender == Some("female")
  }

  /** Born on or before the signing, or on or after the effective date; a missing birth
      date is neither (a null cell compares false). */
  predicate PrePerth(r: Row)
  {
    r.birthDate.Some? && NotAfter(r.birthDate.value, PerthSigned)
  }

  predicate PostPerth(r: Row)
  {
    r.birthDate.Some? && NotAfter(PerthEffected, r.birthDate.value)
  }

  predicate Transitional(r: Row)
  {
    !PrePerth(r) && !PostPerth(r)
  }

  predicate TransitionalFemale(r: Row)
  {
    Transitional(r) && IsFemale(r)
  }

  /** `df.reindex(children_ids)` restricted to rows with an external url: the children the
      frame knows, in the order the parent lists them. */
  function Candidates(df: seq<Row>, ids: seq<string>): seq<Row>
  {
    if ids == [] then []
    else
      var rest := Candidates(df, ids[1..]);
      var found := Lookup(df, ids[0]);
      if found.Some? && found.value.externalUrl.Some? then [found.value] + rest else rest
  }

  /** The candidates are the frame's rows for the listed ids that have an external url. */
  lemma {:induction false} CandidatesSpec(df: seq<Row>, ids: seq<string>)
    ensures forall r :: r in Candidates(df, ids) ==> r in df && r.externalUrl.Some? && r.id in ids
    ensures forall k :: 0 <= k < |ids| && Lookup(df, ids[k]).Some? && Lookup(df, ids[k]).value.externalUrl.Some?
              ==> Lookup(df, ids[k]).value in Candidates(df, ids)
  {
    if ids != [] {
      CandidatesSpec(df, ids[1..]);
      assert forall k :: 1 <= k < |ids| ==> ids[k] == ids[1..][k - 1];
    }
  }

  /** One past the index of the youngest male, or 0 without males (`keep_to`). */
  function YoungestMaleEnd(ts: seq<Row>): (n: nat)
    ensures n <= |ts|
  {
    if ts == [] then 0
    else if IsMale(ts[|ts| - 1]) then |ts|
    else YoungestMaleEnd(ts[..|ts| - 1])
  }

  /** The prefix up to `YoungestMaleEnd` ends with the youngest male; no male follows it. */
  lemma {:induction false} YoungestMaleEndSpec(ts: seq<Row>)
    ensures YoungestMaleEnd(ts) > 0 ==> IsMale(ts[YoungestMaleEnd(ts) - 1])
    ensures forall k :: YoungestMaleEnd(ts) <= k < |ts| ==> !IsMale(ts[k])
  {
    if ts != [] && !IsMale(ts[|ts| - 1]) {
      YoungestMaleEndSpec(ts[..|ts| - 1]);
    }
  }

  predicate HasLaterCopy(cs: seq<Row>, k: int)
    requires 0 <= k < |cs|
  {
    exists j :: k < j < |cs| && cs[j].id == cs[k].id
  }

  predicate HasEarlierCopy(cs: seq<Row>, k: int)
    requires 0 <= k < |cs|
  {
    exists j :: 0 <= j < k && cs[j].id == cs[k].id
  }

  /** Lines 60-63: every copy but the last is legitimate from the effective date, every copy
      but the first illegitimate from it. */
  function MarkDuplicates(cs: seq<Row>): (r: seq<Row>)
    ensures |r| == |cs|
  {
    seq(|cs|, k requires 0 <= k < |cs| =>
      var legitimate := if HasLaterCopy(cs, k) then cs[k].(legitimateDate := Some(PerthEffected)) else cs[k];
      if HasEarlierCopy(cs, k) then legitimate.(illegitimateDate := Some(PerthEffected)) else legitimate)
  }

  predicate AllPrePerth(cs: seq<Row>)
  {
    forall k :: 0 <= k < |cs| ==> PrePerth(cs[k])
  }

  predicate AllPostPerth(cs: seq<Row>)
  {
    forall k :: 0 <= k < |cs| ==> PostPerth(cs[k])
  }

  /** The children in birth order (line 33). */
  function ByBirth(df: seq<Row>, parent: Row): seq<Row>
  {
    SortBy(Candidates(df, parent.childrenIds), BirthLe)
  }

  function MalesFirst(cs: seq<Row>): seq<Row>
  {
    SortBy(cs, GenderLe)
  }

  /** The mixed case (lines 49-63): pre-Perth children males first, transitional children
      down to the youngest transitional male, transitional females, post-Perth children. */
  function MixedOrder(cs: seq<Row>, keepTo: nat): seq<Row>
    requires keepTo <= |Filter(cs, Transitional)|
  {
    MarkDuplicates(Slots(cs, keepTo))
  }

  function Slots(cs: seq<Row>, keepTo: nat): seq<Row>
    requires keepTo <= |Filter(cs, Transitional)|
  {
    MalesFirst(Filter(cs, PrePerth)) + Filter(cs, Transitional)[..keepTo]
    + Filter(cs, TransitionalFemale) + Filter(cs, PostPerth)
  }

  /** The children of `parent` in the order they succeed (lines 31-63). */
  function OrderedChildren(df: seq<Row>, parent: Row): seq<Row>
  {
    var cs := ByBirth(df, parent);
    if AllPrePerth(cs) then MalesFirst(cs)
    else if AllPostPerth(cs) then cs
    else MixedOrder(cs, YoungestMaleEnd(Filter(cs, Transitional)))
  }

  /** `keep_to` (lines 45-48). */
  method KeepTo(trans: seq<Row>) returns (keepTo: nat)
    ensures keepTo == YoungestMaleEnd(trans)
  {
    keepTo := 0;
    for i := 0 to |trans|
      invariant keepTo == YoungestMaleEnd(trans[..i])
    {
      assert trans[..i + 1][..i] == trans[..i];
      if IsMale(trans[i]) {
        keepTo := i + 1;
      }
    }
    assert trans[..|trans|] == trans;
  }

  /** The same order, computed as the source does, with the `keep_to` loop. */
  method OrderChildren(df: seq<Row>, parent: Row) returns (children: seq<Row>)
    ensures children == ChildrenOf(df)(parent)
  {
    var cs := ByBirth(df, parent);
    if AllPrePerth(cs) {
      return MalesFirst(cs);
    }
    if AllPostPerth(cs) {
      return cs;
    }
    var keepTo := KeepTo(Filter(cs, Transitional));
    children := MixedOrder(cs, keepTo);
  }

  /** `get_succession`'s eligibility test for a row on a date (lines 79-83): born on or
      before it, not dead by it, legitimate by it, and not illegitimate by it. */
  predicate InLine(r: Row, date: Date)
  {
    r.birthDate.Some? && NotAfter(r.birthDate.value, date)
    && (r.deathDate.None? || Before(date, r.deathDate.value))
    && (r.legitimateDate.None? || NotAfter(r.legitimateDate.value, date))
    && !(r.illegitimateDate.Some? && NotAfter(r.illegitimateDate.value, date))
  }

  /** Marking changes only the two legitimacy dates. */
  lemma MarkDuplicatesKeeps(cs: seq<Row>)
    ensures forall k :: 0 <= k < |cs| ==>
      MarkDuplicates(cs)[k].(legitimateDate := cs[k].legitimateDate, illegitimateDate := cs[k].illegitimateDate) == cs[k]
  {
  }

  /** Of two copies of a child, the earlier holds its place only from the effective date and
      the later only before it, so the copies are never in line on the same date. */
  lemma CopiesNeverBothInLine(cs: seq<Row>, i: nat, j: nat, date: Date)
    requires i < j < |cs| && cs[i].id == cs[j].id
    ensures MarkDuplicates(cs)[i].legitimateDate == Some(PerthEffected)
    ensures MarkDuplicates(cs)[j].illegitimateDate == Some(PerthEffected)
    ensures !(InLine(MarkDuplicates(cs)[i], date) && InLine(MarkDuplicates(cs)[j], date))
  {
    assert HasLaterCopy(cs, i);
    assert HasEarlierCopy(cs, j);
    BeforeIsStrictOrder(PerthEffected, date, PerthEffected);
  }

  /** "male" sorts after "female", so a descending sort puts males first. */
  lemma MalesFirstOrder(cs: seq<Row>)
    ensures var r := MalesFirst(cs);
      multiset(r) == multiset(cs) && |r| == |cs|
      && forall i, j :: 0 <= i < j < |r| ==> !(IsFemale(r[i]) && IsMale(r[j]))
  {
    var r := MalesFirst(cs);
    GenderLeIsTotal();
    SortBySorted(cs, GenderLe);
    assert !LexLe("male", "female");
    forall i, j | 0 <= i < j < |r| ensures !(IsFemale(r[i]) && IsMale(r[j])) {
      assert GenderLe(r[i], r[j]);
    }
  }

  /** All children born by the signing: male-preference order, males before females. */
  lemma AllPrePerthOrder(df: seq<Row>, parent: Row)
    requires AllPrePerth(ByBirth(df, parent))
    ensures var r := OrderedChildren(df, parent);
      multiset(r) == multiset(Candidates(df, parent.childrenIds))
      && forall i, j :: 0 <= i < j < |r| ==> !(IsFemale(r[i]) && IsMale(r[j]))
  {
    BirthLeIsTotal();
    SortBySorted(Candidates(df, parent.childrenIds), BirthLe);
    MalesFirstOrder(ByBirth(df, parent));
  }

  /** All children born after the agreement took effect: birth order (absolute primogeniture). */
  lemma AllPostPerthOrder(df: seq<Row>, parent: Row)
    requires !AllPrePerth(ByBirth(df, parent)) && AllPostPerth(ByBirth(df, parent))
    ensures var r := OrderedChildren(df, parent);
      multiset(r) == multiset(Candidates(df, parent.childrenIds))
      && SortedBy(r, BirthLe)
  {
    BirthLeIsTotal();
    SortBySorted(Candidates(df, parent.childrenIds), BirthLe);
  }

  lemma PreSlot(cs: seq<Row>, keepTo: nat)
    requires keepTo <= |Filter(cs, Transitional)|
    ensures var all := Slots(cs, keepTo);
      var pre := |Filter(cs, PrePerth)|;
      pre <= |all|
      && (forall k :: 0 <= k < pre ==> PrePerth(all[k]))
      && (forall i, j :: 0 <= i < j < pre ==> !(IsFemale(all[i]) && IsMale(all[j])))
  {
    var preSorted := MalesFirst(Filter(cs, PrePerth));
    MalesFirstOrder(Filter(cs, PrePerth));
    FilterSpec(cs, PrePerth);
    var all := Slots(cs, keepTo);
    assert all[..|preSorted|] == preSorted;
    forall k | 0 <= k < |preSorted| ensures PrePerth(all[k]) {
      assert preSorted[k] in multiset(Filter(cs, PrePerth));
      assert all[k] == all[..|preSorted|][k];
    }
    forall i, j | 0 <= i < j < |preSorted| ensures !(IsFemale(all[i]) && IsMale(all[j])) {
      assert all[i] == all[..|preSorted|][i] && all[j] == all[..|preSorted|][j];
    }
  }

  lemma MidSlot(cs: seq<Row>, keepTo: nat)
    requires keepTo <= |Filter(cs, Transitional)|
    ensures var all := Slots(cs, keepTo);
      var pre := |Filter(cs, PrePerth)|;
      var post := |Filter(cs, PostPerth)|;
      pre + post <= |all|
      && (forall k :: pre <= k < |all| - post ==> Transitional(all[k]))
      && (forall k :: |all| - post <= k < |all| ==> PostPerth(all[k]))
  {
    var trans := Filter(cs, Transitional)[..keepTo];
    var fem := Filter(cs, TransitionalFemale);
    var postRows := Filter(cs, PostPerth);
    var preSorted := MalesFirst(Filter(cs, PrePerth));
    GenderLeIsTotal();
    SortBySorted(Filter(cs, PrePerth), GenderLe);
    var all := Slots(cs, keepTo);
    var pre := |preSorted|;
    FilterAll(cs, Transitional);
    FilterAll(cs, TransitionalFemale);
    FilterAll(cs, PostPerth);
    var mid := trans + fem;
    PrefixConcat(Filter(cs, Transitional), keepTo, fem, Transitional, TransitionalFemale);
    assert all == preSorted + mid + postRows;
    ThreeParts(preSorted, mid, postRows, Transitional, PostPerth);
  }

  /** The mixed case: the pre-Perth children come first, males before females among them,
      and the post-Perth children last; the transitional children fill the middle. */
  lemma MixedOrderSlots(cs: seq<Row>, keepTo: nat)
    requires keepTo <= |Filter(cs, Transitional)|
    ensures var r := MixedOrder(cs, keepTo);
      var pre := |Filter(cs, PrePerth)|;
      var post := |Filter(cs, PostPerth)|;
      pre + post <= |r|
      && (forall k :: 0 <= k < pre ==> PrePerth(r[k]))
      && (forall k :: pre <= k < |r| - post ==> Transitional(r[k]))
      && (forall k :: |r| - post <= k < |r| ==> PostPerth(r[k]))
      && (forall i, j :: 0 <= i < j < pre ==> !(IsFemale(r[i]) && IsMale(r[j])))
  {
    PreSlot(cs, keepTo);
    MidSlot(cs, keepTo);
    MarkDuplicatesKeeps(Slots(cs, keepTo));
  }

  lemma InSlots(cs: seq<Row>, c: Row)
    requires c in cs
    requires PrePerth(c) || PostPerth(c) || IsMale(c) || IsFemale(c)
    ensures c in Slots(cs, YoungestMaleEnd(Filter(cs, Transitional)))
  {
    var trans := Filter(cs, Transitional);
    var keepTo := YoungestMaleEnd(trans);
    YoungestMaleEndSpec(trans);
    FilterSpec(cs, PrePerth);
    FilterSpec(cs, Transitional);
    FilterSpec(cs, TransitionalFemale);
    FilterSpec(cs, PostPerth);
    if PrePerth(c) {
      MalesFirstOrder(Filter(cs, PrePerth));
      assert c in multiset(MalesFirst(Filter(cs, PrePerth)));
    } else if PostPerth(c) {
      assert c in Filter(cs, PostPerth);
    } else if IsFemale(c) {
      assert c in Filter(cs, TransitionalFemale);
    } else {
      assert c in trans;
      var t :| 0 <= t < |trans| && trans[t] == c;
      assert t < keepTo;
      assert trans[..keepTo][t] == c;
    }
  }

  /** Every child with a plain place in one of the four slots is listed: pre- and post-Perth
      children, and transitional males and females. */
  lemma MixedOrderCovers(cs: seq<Row>, c: Row)
    requires c in cs
    requires PrePerth(c) || PostPerth(c) || IsMale(c) || IsFemale(c)
    ensures exists k :: 0 <= k < |MixedOrder(cs, YoungestMaleEnd(Filter(cs, Transitional)))|
              && MixedOrder(cs, YoungestMaleEnd(Filter(cs, Transitional)))[k].id == c.id
  {
    var keepTo := YoungestMaleEnd(Filter(cs, Transitional));
    var all := Slots(cs, keepTo);
    InSlots(cs, c);
    var k :| 0 <= k < |all| && all[k] == c;
    MarkDuplicatesId(all, k);
    var r := MixedOrder(cs, keepTo);
    assert r == MarkDuplicates(all);
    assert r[k].id == c.id;
  }

  lemma MarkDuplicatesId(cs: seq<Row>, k: nat)
    requires k < |cs|
    ensures MarkDuplicates(cs)[k].id == cs[k].id
  {
  }

  // ---- Preorder numbering (fill_succession, lines 64-75) ----

  /** One successor record: the row (its `_id` is `row.id`) and its succession number. */
  datatype Entry = Entry(row: Row, succession: int)

  /** `parent['illegitimate_date'] or child['illegitimate_date']`. */
  function Inherit(parent: Option<Date>, child: Option<Date>): Option<Date>
  {
    if parent.Some? then parent else child
  }

  /** The record appended for `kid` when the counter stood at `n`. */
  function ChildEntry(parent: Entry, kid: Row, n: int): Entry
  {
    Entry(kid.(illegitimateDate := Inherit(parent.row.illegitimateDate, kid.illegitimateDate)), n + 1)
  }

  /** The children order of a frame, as a function of the parent row. */
  function ChildrenOf(df: seq<Row>): Row -> seq<Row>
  {
    parent => OrderedChildren(df, parent)
  }

  /** The records `fill_succession(df, successors, parent)` appends, where `kidsOf` orders
      a parent's children, following children at most `fuel` generations down. */
  function Expand(kidsOf: Row -> seq<Row>, parent: Entry, fuel: nat): seq<Entry>
    decreases fuel, 0, 0
  {
    if fuel == 0 then []
    else ExpandList(kidsOf, parent, kidsOf(parent.row), parent.succession, fuel - 1)
  }

  /** The records appended for the children `kids`, the counter starting at `n`. */
  function ExpandList(kidsOf: Row -> seq<Row>, parent: Entry, kids: seq<Row>, n: int, fuel: nat): seq<Entry>
    decreases fuel, 2, |kids|
  {
    if kids == [] then []
    else
      var done := ExpandList(kidsOf, parent, kids[..|kids| - 1], n, fuel);
      done + Block(kidsOf, parent, kids[|kids| - 1], n + |done|, fuel)
  }

  lemma Regroup(a: seq<Entry>, b: seq<Entry>, x: Entry, c: seq<Entry>)
    ensures a + b + [x] + c == a + (b + [x] + c)
  {
  }

  /** One more child appends that child's record `e`, then `e`'s descendants, after the
      siblings' blocks. */
  lemma ExpandListSnoc(kidsOf: Row -> seq<Row>, parent: Entry, kids: seq<Row>, i: nat, n: int, fuel: nat, e: Entry)
    requires i < |kids|
    requires e == ChildEntry(parent, kids[i], n + |ExpandList(kidsOf, parent, kids[..i], n, fuel)|)
    ensures ExpandList(kidsOf, parent, kids[..i + 1], n, fuel)
            == ExpandList(kidsOf, parent, kids[..i], n, fuel) + [e] + Expand(kidsOf, e, fuel)
  {
    var ks := kids[..i + 1];
    assert ks[..|ks| - 1] == kids[..i] && ks[|ks| - 1] == kids[i];
  }

  /** A child's record followed by the records of its own descendants. */
  function Block(kidsOf: Row -> seq<Row>, parent: Entry, kid: Row, n: int, fuel: nat): seq<Entry>
    decreases fuel, 1, 0
  {
    var e := ChildEntry(parent, kid, n);
    [e] + Expand(kidsOf, e, fuel)
  }

  /** The shared `successors` list that the recursion appends to. */
  class Successors {
    var entries: seq<Entry>

    constructor (seed: Entry)
      ensures entries == [seed]
    {
      entries := [seed];
    }

    /** `fill_succession`: append the descendants of `parent` in preorder and return the
        last number given out (the parent's own number when nothing was appended). */
    method Fill(df: seq<Row>, parent: Entry, fuel: nat) returns (succession: int)
      modifies this
      ensures entries == old(entries) + Expand(ChildrenOf(df), parent, fuel)
      ensures succession == parent.succession + |Expand(ChildrenOf(df), parent, fuel)|
      decreases fuel, 1
    {
      if fuel == 0 {
        return parent.succession;
      }
      var children := OrderChildren(df, parent.row);
      succession := FillChildren(df, parent, children, fuel - 1);
    }

    /** The loop of `fill_succession` over the ordered children: number each child on from
        the counter, give it the parent's illegitimacy if the parent has one, append it and
        its descendants. */
    method FillChildren(df: seq<Row>, parent: Entry, children: seq<Row>, fuel: nat) returns (succession: int)
      modifies this
      ensures entries == old(entries) + ExpandList(ChildrenOf(df), parent, children, parent.succession, fuel)
      ensures succession == parent.succession + |ExpandList(ChildrenOf(df), parent, children, parent.succession, fuel)|
      decreases fuel, 2
    {
      ghost var kidsOf := ChildrenOf(df);
      succession := parent.succession;
      ghost var before := entries;
      for i := 0 to |children|
        invariant entries == before + ExpandList(kidsOf, parent, children[..i], parent.succession, fuel)
        invariant succession == parent.succession + |ExpandList(kidsOf, parent, children[..i], parent.succession, fuel)|
      {
        var child := children[i];
        ghost var done := ExpandList(kidsOf, parent, children[..i], parent.succession, fuel);
        succession := succession + 1;
        var illegitimateDate := Inherit(parent.row.illegitimateDate, child.illegitimateDate);
        var row := Entry(child.(illegitimateDate := illegitimateDate), succession);
        ExpandListSnoc(kidsOf, parent, children, i, parent.succession, fuel, row);
        entries := entries + [row];
        ghost var mid := entries;
        succession := Fill(df, row, fuel);
        ghost var below := Expand(kidsOf, row, fuel);
        assert entries == mid + below;
        Regroup(before, done, row, below);
      }
      assert children[..|children|] == children;
    }
  }
  /** Numbers go up by one per record, counting on from the parent: the numbering is a
      preorder count. */
  lemma {:induction false} ExpandNumbering(kidsOf: Row -> seq<Row>, parent: Entry, fuel: nat)
    ensures forall k :: 0 <= k < |Expand(kidsOf, parent, fuel)| ==>
              Expand(kidsOf, parent, fuel)[k].succession == parent.succession + k + 1
    decreases fuel, 0, 0
  {
    if fuel > 0 {
      ExpandListNumbering(kidsOf, parent, kidsOf(parent.row), parent.succession, fuel - 1);
    }
  }

  lemma {:induction false} ExpandListNumbering(kidsOf: Row -> seq<Row>, parent: Entry, kids: seq<Row>, n: int, fuel: nat)
    ensures forall k :: 0 <= k < |ExpandList(kidsOf, parent, kids, n, fuel)| ==>
              ExpandList(kidsOf, parent, kids, n, fuel)[k].succession == n + k + 1
    decreases fuel, 2, |kids|
  {
    if kids != [] {
      var done := ExpandList(kidsOf, parent, kids[..|kids| - 1], n, fuel);
      ExpandListNumbering(kidsOf, parent, kids[..|kids| - 1], n, fuel);
      var kid := kids[|kids| - 1];
      var e := ChildEntry(parent, kid, n + |done|);
      ExpandNumbering(kidsOf, e, fuel);
      var b := Block(kidsOf, parent, kid, n + |done|, fuel);
      assert forall k :: 0 <= k < |b| ==> b[k].succession == n + |done| + k + 1 by {
        forall k | 0 <= k < |b| ensures b[k].succession == n + |done| + k + 1 {
          if k > 0 {
            assert b[k] == Expand(kidsOf, e, fuel)[k - 1];
          }
        }
      }
    }
  }

  /** A parent's illegitimacy passes to every descendant record. */
  lemma {:induction false} ExpandInherits(kidsOf: Row -> seq<Row>, parent: Entry, fuel: nat)
    requires parent.row.illegitimateDate.Some?
    ensures forall k :: 0 <= k < |Expand(kidsOf, parent, fuel)| ==>
              Expand(kidsOf, parent, fuel)[k].row.illegitimateDate == parent.row.illegitimateDate
    decreases fuel, 0, 0
  {
    if fuel > 0 {
      ExpandListInherits(kidsOf, parent, kidsOf(parent.row), parent.succession, fuel - 1);
    }
  }

  lemma {:induction false} ExpandListInherits(kidsOf: Row -> seq<Row>, parent: Entry, kids: seq<Row>, n: int, fuel: nat)
    requires parent.row.illegitimateDate.Some?
    ensures forall k :: 0 <= k < |ExpandList(kidsOf, parent, kids, n, fuel)| ==>
              ExpandList(kidsOf, parent, kids, n, fuel)[k].row.illegitimateDate == parent.row.illegitimateDate
    decreases fuel, 2, |kids|
  {
    if kids != [] {
      var done := ExpandList(kidsOf, parent, kids[..|kids| - 1], n, fuel);
      ExpandListInherits(kidsOf, parent, kids[..|kids| - 1], n, fuel);
      var kid := kids[|kids| - 1];
      var e := ChildEntry(parent, kid, n + |done|);
      ExpandInherits(kidsOf, e, fuel);
      var b := Block(kidsOf, parent, kid, n + |done|, fuel);
      assert forall k :: 0 <= k < |b| ==> b[k].row.illegitimateDate == parent.row.illegitimateDate by {
        forall k | 0 <= k < |b| ensures b[k].row.illegitimateDate == parent.row.illegitimateDate {
          if k > 0 {
            assert b[k] == Expand(kidsOf, e, fuel)[k - 1];
          }
        }
      }
    }
  }

  // ---- The successor list (lines 141-151) ----

  /** `drop_duplicates(['_id', 'illegitimate_date'], keep='first')`. */
  function IdAndIllegitimacy(e: Entry): (string, Option<Date>)
  {
    (e.row.id, e.row.illegitimateDate)
  }

  /** The successor list main.py writes out: the seed with number 0 and its descendants,
      one record per (id, illegitimacy) pair. `None` when the seed is not in the frame
      (`df.loc[seed]` raises `KeyError`). The sort by number changes nothing, as the
      numbers already increase (`SuccessorsNumbered`). */
  function SuccessorList(df: seq<Row>, seedId: string, fuel: nat): Option<seq<Entry>>
  {
    var seedRow := Lookup(df, seedId);
    if seedRow.None? then None
    else
      var seed := Entry(seedRow.value, 0);
      Some(DedupBy([seed] + Expand(ChildrenOf(df), seed, fuel), IdAndIllegitimacy))
  }

  /** Before deduplication the numbers are 0, 1, 2, ... in list order. */
  lemma SuccessorsNumbered(kidsOf: Row -> seq<Row>, seed: Entry, fuel: nat)
    requires seed.succession == 0
    ensures forall k :: 0 <= k < |[seed] + Expand(kidsOf, seed, fuel)| ==>
              ([seed] + Expand(kidsOf, seed, fuel))[k].succession == k
  {
    ExpandNumbering(kidsOf, seed, fuel);
    var all := [seed] + Expand(kidsOf, seed, fuel);
    forall k | 0 < k < |all| ensures all[k].succession == k {
      assert all[k] == Expand(kidsOf, seed, fuel)[k - 1];
    }
  }

  /** The frame main.py numbers: rules applied, rows cleaned, legitimacy dates cleared
      (lines 112-144). */
  function PreparedFrame(rows: seq<Row>, rules: seq<Rule>): seq<Row>
  {
    var cleaned := Clean(ApplyRules(seq(|rows|, k requires 0 <= k < |rows| => rows[k].(illegitimateDate := None)), rules));
    seq(|cleaned|, k requires 0 <= k < |cleaned| => cleaned[k].(legitimateDate := None))
  }

  /** main.py from the loaded rows to the deduplicated successor list (lines 105-151). */
  method BuildSuccessors(rows: seq<Row>, rules: seq<Rule>, seedId: string, fuel: nat)
    returns (result: Option<seq<Entry>>)
    requires forall i, j :: 0 <= i < |rules| && 0 <= j < |rules[i].matches| ==> rules[i].matches[j].0 !in NonTextColumns
    ensures result == SuccessorList(PreparedFrame(rows, rules), seedId, fuel)
  {
    var frame := new Frame(seq(|rows|, k requires 0 <= k < |rows| => rows[k].(illegitimateDate := None)));
    frame.ApplyAll(rules);
    var cleaned := Clean(frame.rows);
    var df := seq(|cleaned|, k requires 0 <= k < |cleaned| => cleaned[k].(legitimateDate := None));
    var seedRow := Lookup(df, seedId);
    if seedRow.None? {
      return None;
    }
    var seed := Entry(seedRow.value, 0);
    var successors := new Successors(seed);
    var last := successors.Fill(df, seed, fuel);
    result := Some(DedupBy(successors.entries, IdAndIllegitimacy));
  }

  // ---- The succession on a date (get_succession, lines 77-87) ----

  function EntryId(e: Entry): string
  {
    e.row.id
  }

  predicate EntryInLine(date: Date, e: Entry)
  {
    InLine(e.row, date)
  }

  /** The eligibility test on `date` as a value, so that every filter uses the same one. */
  function InLineOn(date: Date): Entry -> bool
  {
    e => EntryInLine(date, e)
  }

  /** The line of succession on `date`: eligible records, the first per id, renumbered from 0. */
  function GetSuccession(es: seq<Entry>, date: Date): (r: seq<Entry>)
    ensures |r| <= |es|
  {
    var kept := DedupBy(Filter(es, InLineOn(date)), EntryId);
    seq(|kept|, k requires 0 <= k < |kept| => kept[k].(succession := k))
  }

  /** Everyone listed is numbered by position, is eligible and comes from the input. */
  lemma GetSuccessionSound(es: seq<Entry>, date: Date)
    ensures var r := GetSuccession(es, date);
      forall k :: 0 <= k < |r| ==>
        r[k].succession == k && InLine(r[k].row, date)
        && exists j :: 0 <= j < |es| && es[j].row == r[k].row
  {
    var f := Filter(es, InLineOn(date));
    var kept := DedupBy(f, EntryId);
    var r := GetSuccession(es, date);
    FilterSpec(es, InLineOn(date));
    DedupByKeys(f, EntryId);
    forall k | 0 <= k < |r|
      ensures InLine(r[k].row, date) && exists j :: 0 <= j < |es| && es[j].row == r[k].row
    {
      assert kept[k] in f;
      assert r[k].row == kept[k].row;
    }
  }

  /** Everyone eligible in the input is listed. */
  lemma GetSuccessionComplete(es: seq<Entry>, date: Date)
    ensures var r := GetSuccession(es, date);
      forall j :: 0 <= j < |es| && InLine(es[j].row, date) ==>
        exists k :: 0 <= k < |r| && r[k].row.id == es[j].row.id
  {
    var f := Filter(es, InLineOn(date));
    var kept := DedupBy(f, EntryId);
    var r := GetSuccession(es, date);
    FilterSpec(es, InLineOn(date));
    DedupByKeys(f, EntryId);
    forall j | 0 <= j < |es| && InLine(es[j].row, date)
      ensures exists k :: 0 <= k < |r| && r[k].row.id == es[j].row.id
    {
      assert InLineOn(date)(es[j]);
      assert es[j] in f;
      var i :| 0 <= i < |f| && f[i] == es[j];
      assert KeyIn(kept, EntryId, EntryId(f[i]));
      var k :| 0 <= k < |kept| && EntryId(kept[k]) == EntryId(f[i]);
      assert r[k].row.id == kept[k].row.id;
    }
  }

  /** Each person appears at most once. */
  lemma GetSuccessionDistinct(es: seq<Entry>, date: Date)
    ensures var r := GetSuccession(es, date);
      forall a, b :: 0 <= a < b < |r| ==> r[a].row.id != r[b].row.id
  {
    var f := Filter(es, InLineOn(date));
    var kept := DedupBy(f, EntryId);
    var r := GetSuccession(es, date);
    DedupByDistinct(f, EntryId);
    forall a, b | 0 <= a < b < |r| ensures r[a].row.id != r[b].row.id {
      assert EntryId(kept[a]) != EntryId(kept[b]);
    }
  }

  /** The record kept for each person is their first eligible one, in the input's order. */
  lemma GetSuccessionKeepsFirst(es: seq<Entry>, date: Date)
    ensures var f := Filter(es, InLineOn(date));
      var r := GetSuccession(es, date);
      |r| == |FirstOccurrences(f, EntryId, |f|)|
      && forall k :: 0 <= k < |r| ==> r[k] == FirstOccurrences(f, EntryId, |f|)[k].(succession := k)
  {
    var f := Filter(es, InLineOn(date));
    DedupByIsFirstOccurrences(f, EntryId, |f|);
    assert f[..|f|] == f;
  }
}
