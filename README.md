# Line of succession: a Dafny model

This project models the three programs of a line-of-succession tracker and proves properties of
each model:

- **The chart's layout engine** (`web/succession-app.js`). It snaps dates to sampling buckets and
  builds an occupancy track of month indices with zero heights. For each successor in priority
  order it:
  - raises the track over their eligibility interval to one more than a windowed maximum;
  - splices the new heights back into the track;
  - interpolates the end points onto the true start and end dates;
  - drops interior points that lie on a straight line.

  A batching cursor (`rowsAdded`) walks the successor list. A table numbers the successors who are
  in line on a selected date.
- **The succession builder** (`main.py`). It:
  - marks illegitimate rows by rule and cleans the data frame;
  - orders each parent's children under male preference or absolute primogeniture around the
    Perth agreement dates;
  - numbers descendants in depth-first preorder, with illegitimacy inherited;
  - removes duplicates;
  - selects who is in line on a date (`get_succession`).
- **The Geni gatherer** (`geni.py`). It:
  - parses date structs and document ids;
  - stores profile and union responses in two tables, skipping documents already stored and
    queuing only links not yet stored, in request batches of at most `MAX_IDS` ids;
  - converts the tables into descendant rows, with children and parents found through unions.

The files:

| file | contents |
|---|---|
| `wrappers.dfy` | `Option` |
| `seqs.dfy` | filtering, maxima, counting, an insertion sort by a total preorder, keep-first deduplication |
| `dates.dfy` | calendar dates, validity, ISO string order, day numbers for the chart's x axis, month indices |
| `sampler.dfy` | `_toSample` and `_addSample` |
| `track.dfy` | track construction, the line's index range, the windowed maximum, the splice, the placement loop |
| `polyline.dfy` | JavaScript division, end-point interpolation, the collinear-point simplifier |
| `app.dfy` | the `App` class (successors, `rowsAdded`, the track, the drawn paths), `addRow`/`addRows`, the table |
| `rows.dfy` | the row record of `geni.yml` shared by `geni.py` and `main.py` |
| `text.dfy` | Python `split`, `join`, `int` on digit strings |
| `succession.dfy` | `set_illegitimate`, cleaning, child ordering, `fill_succession`, `get_succession` |
| `geni.dfy` | `parse_date`, document ids, batching, the `Store` class with the two handlers, `db_to_rows` |
| `export.dfy` | the records of `successors.json` handed to the chart; table versus `get_succession` eligibility |

Modelling choices:

- Dates are `Date(year, month 1..12, day)`, compared in lexicographic order. That is the order the
  programs use when they compare ISO date strings.
- Track dates are month indices (`year * 12 + month - 1`). Interpolation uses day numbers in the
  proleptic Gregorian calendar, and heights and slopes are `real`.
- Division in the simplifier is JavaScript's. A zero denominator gives ±Infinity or NaN, and `!==`
  is IEEE inequality, so NaN differs from itself.
- Pandas frames are sequences of `Row` records. `df.loc`/`reindex` take the first row with the id.
- `sort_values` is an insertion sort by a total preorder. Only "sorted and a permutation" is
  claimed of it.
- The recursion in `fill_succession` is bounded by a `fuel` depth, because the data could in
  principle contain a cycle.
- Geni's UUID hashing is a function parameter `uuid` of the conversion.

## Model

| member | source | states |
|---|---|---|
| Sampler.ToSampleShape | web/succession-app.js:727-731 | `_toSample` keeps the year, sets day 1, and gives a month that is a multiple of `sampling` (0-based) and fewer than `sampling` months before the date's month |
| Sampler.ToSampleNotAfter | web/succession-app.js:727-731 | the sampled date is never later than the date |
| Sampler.ToSampleIdempotent | web/succession-app.js:727-731 | sampling a sampled date changes nothing |
| Sampler.ToSampleMonthIndex | web/succession-app.js:727-731 | the bucket start lies within `sampling` months at or before the date's month |
| Sampler.AddSampleMonthIndex | web/succession-app.js:733-737 | `_addSample(d, n)` moves exactly `n * sampling` months, carrying into the year, and gives day 1 of a real month |
| Sampler.AddSampleCompose | web/succession-app.js:733-737 | moving by `a` then `b` buckets is moving by `a + b` |
| Sampler.SampledEndAfter | web/succession-app.js:579-580 | the sampled end `_addSample(_toSample(end), 1)` lies after the end's month |
| Sampler.BucketsAlign | web/succession-app.js:727-737 | when `sampling` divides 12, sampled and moved dates sit on bucket boundaries in every year |
| Track.SpacedIncreasing | web/succession-app.js:386-390 | consecutive track entries one sample apart give strictly increasing entries, `j - i` samples apart |
| Track.BuildTrack | web/succession-app.js:382-390 | the unshift loop gives a track that ends at the sampled last date, has entries one sample apart and all heights 0, and starts at the first entry not after the floor |
| Track.EndIndex | web/succession-app.js:585-590 | the loop's break index: entries before it are not after the sampled end, the entry at it is |
| Track.StartIndex | web/succession-app.js:591-597 | the first index at or after both the sampled start and `minDate`, below the break index |
| Track.LineCoversInterval | web/succession-app.js:585-597 | on a spaced track, an index is in the line exactly when its entry is at or after both starts and not after the sampled end |
| Track.WindowMaxIsMaximum | web/succession-app.js:598-601 | the window maximum is the largest height over `[max(0, i - S), min(i + S, len))` and is attained there; it covers the entry itself |
| Track.RaisedAt | web/succession-app.js:598-604 | each emitted height at track index `k` is 1 plus the window maximum at `k` |
| Track.Splice | web/succession-app.js:613 | the splice keeps the track's length, writes exactly the given run, and leaves every other entry alone |
| Track.PlacementRaises | web/succession-app.js:598-613 | after placement every written entry is strictly above its old value and above every old height in its window; all other entries are unchanged |
| Track.PlaceLine | web/succession-app.js:582-606 | the placement loop emits exactly the track entries of the line's index range with the raised heights, its start index, and their maximum as `lineMaxHeight` |
| Polyline.DivideFinite | web/succession-app.js:644-645 | a finite JavaScript quotient has a non-zero denominator and multiplies back |
| Polyline.DivideInfinite | web/succession-app.js:644-645 | an infinite quotient comes only from a zero denominator |
| Polyline.InterpolateOnLine | web/succession-app.js:617-622 | the interpolated height lies on the line through the two neighbouring points and meets them at their dates |
| Polyline.FixStart | web/succession-app.js:616-620 | the first point moves to the start date on the line through the first two points; the others are unchanged |
| Polyline.FixEnd | web/succession-app.js:621-623 | the last point moves to the end date on the line through the last two points; the others are unchanged |
| Polyline.KeptIndicesSpec | web/succession-app.js:636-650 | the kept indices increase and are exactly the first, the last and the interior points whose slope from the original previous point differs (`!==`) from the slope to the next |
| Polyline.Simplify | web/succession-app.js:636-650 | the simplification loop gives the kept points in order |
| Polyline.SimplifiedKeepsEnds | web/succession-app.js:640-641 | the simplified line always keeps the first and the last point |
| Polyline.PointsAtSpec | web/succession-app.js:636-650 | the simplified list is the line's points at the kept indices, so it is a subsequence of the line |
| Polyline.DroppedSlopes | web/succession-app.js:643-648 | a dropped point has equal, non-NaN slopes before and after |
| Polyline.RunHasOneSlope | web/succession-app.js:643-648 | across a run of dropped points every segment has the same slope |
| Polyline.RunAccumulates | web/succession-app.js:643-648 | along a run of one slope the height change is that slope times the date change |
| Polyline.DroppedPointsOnSegment | web/succession-app.js:636-650 | every dropped point lies on the segment between the kept points around it, so the simplification is lossless |
| SuccessionApp.LegitimateSuccessors | web/succession-app.js:379-380 | the chart's list holds exactly the loaded successors not illegitimate on or before their birth, and is no longer |
| SuccessionApp.EffectiveDatesValid | web/succession-app.js:573-576 | the line starts at `legitimate_date`, else `birth_date`, and ends at `illegitimate_date`, else `death_date`, else the last update; both are real dates |
| SuccessionApp.BoundaryLineExact | web/succession-app.js:614-623 | after interpolation the last point's date is the effective end and the first point's date is the effective start unless it is before `minDate`; both moved heights lie on the line through their neighbours, and on a two-point line whose start moved the end height lies on the line from the moved start to the computed end point; interior points are unchanged |
| SuccessionApp.SecondSampleAfterStart | web/succession-app.js:577-580 | the start date lies before the line's second sample, so the start interpolation's denominator is never zero for any `sampling >= 1` |
| SuccessionApp.DayLineIncreasing | web/succession-app.js:615-622 | the line's sample dates, as days, strictly increase |
| SuccessionApp.App.SetData | web/succession-app.js:373-390 | loading stores the last update and the filtered list, then builds the track from `successors[0]`'s sampled birth to one sample past the sampled last update, all heights 0; an empty list builds no track |
| SuccessionApp.App.ReceiveData | web/succession-app.js:373-394 | after loading, the track is the one `SetData` builds (ending one sample past the last update, starting at the first entry not after the first birth bucket); the first batch has advanced the cursor to `min(500, n)`, and the heights and lines are those of placing successors `0..rowsAdded` in list order on the flat track; an empty list draws nothing |
| SuccessionApp.App.AddRows | web/succession-app.js:557-563 | a batch advances `rowsAdded` by `min(rowBatchSize, remaining)`, keeps the list, the track dates and the last update, and leaves the heights and lines that placing the batch's successors one after another, in list order, on the old chart gives (`PlaceAll`) |
| SuccessionApp.App.AddRow | web/succession-app.js:565-703 | a no-op at the end of the list; otherwise `rowsAdded` grows by exactly 1 and the chart becomes `PlaceStep` of the old one: with at least 2 points the track heights become the splice of the raised heights and the drawn path is appended, with fewer the chart is untouched |
| SuccessionApp.PlaceStepGrows | web/succession-app.js:565-650 | one placement never lowers a track height and attaches at most one line, with the successor's id, after the lines already drawn |
| SuccessionApp.PlaceAllRaises | web/succession-app.js:557-563 | a whole batch never lowers a track height |
| SuccessionApp.PlaceAllAttaches | web/succession-app.js:557-563 | a batch keeps the lines already drawn and attaches at most one line per successor of the batch, each with the id of one of them |
| SuccessionApp.PlaceSuccessor | web/succession-app.js:571-623 | a line is drawn exactly when its index range holds at least 2 samples; then the heights are spliced and the points are the interpolated, simplified line |
| SuccessionApp.DrawBoundedLine | web/succession-app.js:614-650 | interpolation then simplification of the placed line gives the drawn points |
| SuccessionApp.NumberInLine | web/succession-app.js:264-297 | a row's number is at most its position |
| SuccessionApp.NumberInLineCounts | web/succession-app.js:264-297 | a row's number is the count of rows above it that are in line on the selected date |
| SuccessionApp.RenderTableRows | web/succession-app.js:258-300 | no rows without a selected date; otherwise one row per successor, numbered by how many earlier rows are in line, '-' when skipped, shown when selected or not skipped |
| SuccessionApp.NumbersAreConsecutive | web/succession-app.js:289-297 | two in-line rows with only skipped rows between them have consecutive numbers |
| SuccessionApp.SkippedKeepNumber | web/succession-app.js:289-297 | skipped rows do not advance the count |
| SuccessionApp.FirstInLineIsZero | web/succession-app.js:264-297 | the first row in line gets number 0 |
| SuccessionApp.NumbersIncrease | web/succession-app.js:289-297 | numbers strictly increase down the in-line rows |
| Dates.MonthStart | web/succession-app.js:730 | `new Date(year, month0, 1)` carries any month offset into the year: the result is day 1 of a real month with the given month index |
| Dates.MonthStartMonotone | web/succession-app.js:386-390 | later month starts have strictly larger day numbers |
| Dates.WithinMonth | web/succession-app.js:617-622 | a real date lies between its month's start and the next month's start, in days |
| Dates.BeforeIsStrictOrder | main.py:79-82 | date order, as ISO strings compare, is a strict total order |
| Rows.Lookup | main.py:31 | looking up an id yields a row with that id from the frame, or none when no row has it |
| Text.Split | geni.py:102 | `split` gives at least one piece and no piece holds the separator |
| Text.JoinSplit | geni.py:124 | joining the pieces of a split gives the string back |
| Text.SplitJoin | geni.py:124 | splitting joined pieces gives the pieces back when none holds the separator |
| Text.LastPiece | geni.py:115 | `split('/')[-1]` holds no separator |
| Text.LastPieceAfterSeparator | geni.py:115 | the last piece is what follows the last separator |
| Text.ParseNat | geni.py:102 | on ASCII text, the model of `int` succeeds exactly on non-empty strings of the digits 0-9 and then gives their decimal value |
| Text.ParseNatToString | geni.py:102 | `int(str(n)) == n` |
| Succession.ColumnText | main.py:19-21 | a key has a text value exactly when it is one of the seven text columns; every other key, whether a missing column (the `KeyError` that makes `set_illegitimate` return) or one of the seven date, flag and list columns, has none |
| Succession.MarkIllegitimateProperties | main.py:17-28 | with the key absent nothing changes; otherwise every matching row gets the rule's date, or its own birth date without one, and other rows and fields are unchanged; applying it twice is applying it once |
| Succession.Frame.SetIllegitimate | main.py:17-28 | the in-place loop leaves the frame as `MarkIllegitimate` of the old frame |
| Succession.Frame.ApplyAll | main.py:111-116 | every rule's matches are applied in order |
| Succession.Clean | main.py:125-140 | the cleaned frame keeps exactly the rows that have a birth date, are not dead without a death date, and do not die before birth |
| Succession.LexLeTotal | main.py:40 | string order (descending gender sort) is total |
| Succession.LexLeTransitive | main.py:40 | string order is transitive |
| Succession.BirthLeIsTotal | main.py:33 | birth order with missing dates last is a total preorder |
| Succession.GenderLeIsTotal | main.py:40 | descending gender order is a total preorder |
| Succession.CandidatesSpec | main.py:31-33 | the children considered are exactly the listed ids found in the frame with a non-null `external_url` |
| Succession.YoungestMaleEndSpec | main.py:44-48 | `keep_to` is just past the last transitional male, and no male comes after it |
| Succession.KeepTo | main.py:45-48 | the loop computes `keep_to` |
| Succession.OrderChildren | main.py:31-63 | the ordering step gives the ordered children of the parent |
| Succession.MalesFirstOrder | main.py:40 | the descending gender sort is a permutation placing every male before every female |
| Succession.AllPrePerthOrder | main.py:36-40 | all born by the signing: a permutation of the candidates with males before females |
| Succession.AllPostPerthOrder | main.py:41-42 | all born after it took effect: the candidates in birth order |
| Succession.PreSlot | main.py:51 | the first slot holds the pre-Perth children, males first |
| Succession.MidSlot | main.py:53-57 | the middle slots hold transitional children and the last the post-Perth children |
| Succession.MixedOrderSlots | main.py:49-63 | mixed case: pre-Perth children (males first), then transitional, then post-Perth, after duplicate marking |
| Succession.InSlots | main.py:49-58 | every pre- or post-Perth child and every transitional male or female has a place in the slots |
| Succession.MixedOrderCovers | main.py:44-63 | every such child is listed in the mixed order |
| Succession.MarkDuplicatesKeeps | main.py:59-63 | duplicate marking changes only the two legitimacy dates |
| Succession.MarkDuplicatesId | main.py:59-63 | duplicate marking keeps each id |
| Succession.CopiesNeverBothInLine | main.py:59-63 | of a child listed twice, the earlier copy becomes legitimate and the later illegitimate at `PERTH_EFFECTED`, so on no date are both in line |
| Succession.ExpandListSnoc | main.py:66-74 | one more child appends that child's block after the siblings' blocks |
| Succession.Successors.Fill | main.py:30-75 | the recursion appends the parent's descendants in depth-first preorder and returns the parent's number plus the count added |
| Succession.Successors.FillChildren | main.py:64-75 | the loop over ordered children appends each child's block in turn |
| Succession.ExpandNumbering | main.py:65-74 | descendants are numbered on from the parent's number, one apart |
| Succession.ExpandListNumbering | main.py:65-74 | the blocks of all children continue the numbering without gaps |
| Succession.ExpandInherits | main.py:68-71 | an illegitimate parent passes its date to every descendant |
| Succession.ExpandListInherits | main.py:68-71 | every child block carries the parent's illegitimacy date |
| Succession.SuccessorsNumbered | main.py:144-146 | the seed is 0 and the list is numbered 0, 1, 2, … in order, so sorting by `succession` keeps it |
| Succession.BuildSuccessors | main.py:101-151 | the pipeline of rules, cleaning, seed lookup, filling and keep-first deduplication on (`_id`, `illegitimate_date`) |
| Succession.GetSuccessionSound | main.py:79-85 | everyone listed is numbered by position, eligible on the date and taken from the input |
| Succession.GetSuccessionComplete | main.py:79-84 | everyone eligible in the input is listed |
| Succession.GetSuccessionDistinct | main.py:84 | each id appears once |
| Succession.GetSuccessionKeepsFirst | main.py:84-85 | the record kept for an id is its first eligible record, renumbered |
| Seqs.FilterSpec | main.py:33 | a filter keeps exactly the elements satisfying the mask |
| Seqs.SortBySorted | main.py:33 | the sort gives a sorted permutation |
| Seqs.DedupByKeys | main.py:150-151 | keep-first deduplication keeps each key and only input elements |
| Seqs.DedupByDistinct | main.py:150-151 | after deduplication no key repeats |
| Seqs.DedupByIsFirstOccurrences | main.py:150-151 | deduplication keeps the first element with each key, in order |
| Geni.MakeDate | geni.py:193-197 | `datetime.date` succeeds exactly on real dates of years 1..9999 |
| Geni.ParseDate | geni.py:186-200 | no year: nothing; year only: January 1, 'year'; no day: day 1, 'month'; full: that date, 'day'; an invalid date: nothing |
| Geni.ParseDateComplete | geni.py:190-197 | every real date, and its month or year alone, parses back as above |
| Geni.DocId | geni.py:102 | a document id is the number after the first '-' |
| Geni.DocIdOfGeniId | geni.py:102 | `profile-123` and `profile-123-x` have document id 123 |
| Geni.GeniIdOfUrl | geni.py:115 | the Geni id of a URL holds no '/' |
| Geni.GeniIdOfUrlEnd | geni.py:145-146 | the Geni id of a URL is its last segment |
| Geni.DocIdOfUnionUrl | geni.py:257 | the id taken straight from a union URL equals the id of its last segment when no '-' precedes it |
| Geni.Batches | geni.py:122-123 | no ids give no batches; every batch holds 1 to `MAX_IDS` ids |
| Geni.BatchesCount | geni.py:122-123 | there are `ceil(len / MAX_IDS)` batches |
| Geni.BatchesFlatten | geni.py:122-123 | the batches concatenate back to the id list in order |
| Geni.ChunkOfIds | geni.py:123 | every id of a batch is a pending id |
| Geni.BatchUrls | geni.py:124 | one URL per batch |
| Geni.BatchIdsRecovered | geni.py:124 | the `ids=` parameter splits back into the batch |
| Geni.BatchRequests | geni.py:121-124 | the loop yields one URL per batch, in order |
| Geni.Results | geni.py:95 | the results are `response['results']` when present and non-empty, else the response itself |
| Geni.UnseenSound | geni.py:114-120 | queued ids parse, come from the document's links and are not in the other table |
| Geni.UnseenComplete | geni.py:114-120 | every link parses and every link not in the other table is queued |
| Geni.UnseenStaysNone | geni.py:116 | once one link fails to parse, the whole scan fails and the handler raises |
| Geni.AbsorbStaysFailed | geni.py:97-102 | after a result raises, later results are not looked at |
| Geni.AbsorbKeeps | geni.py:105-111 | a stored document is never replaced |
| Geni.AbsorbAdds | geni.py:97-111 | every new document is a result, not skipped, filed under its own document id |
| Geni.AbsorbPending | geni.py:114-120 | every queued id names a document not already stored in the other table |
| Geni.AbsorbStores | geni.py:97-111 | unless the handler raised, every result with an id is in the table |
| Geni.CollectUnseen | geni.py:114-120 | the inner loop queues the unseen links |
| Geni.AbsorbResults | geni.py:97-120 | the outer loop stores, skips and queues, stopping at the first error |
| Geni.Store.HandleProfile | geni.py:92-124 | the profile table becomes the scan's table and the union table is unchanged; the union requests are the batches of the queued ids, none if it raised |
| Geni.Store.HandleUnion | geni.py:126-154 | the same for unions, queuing unseen children as profile requests |
| Geni.IdsOf | geni.py:266-267 | one row id per URL |
| Geni.RelationsSound | geni.py:256-276 | every child id comes from a listed union where the profile is a partner and the child is neither adopted nor fostered; every parent id comes from one where the profile is a child, not a partner, and not adopted or fostered |
| Geni.ChildOfStep | geni.py:260-267 | a child id one union adds is justified by it |
| Geni.ParentOfStep | geni.py:269-276 | a parent id one union adds is justified by it |
| Geni.RelationsComplete | geni.py:260-267 | every own child of a listed union where the profile is a partner is among its children |
| Geni.RelationsParentsComplete | geni.py:269-276 | every partner of a listed union where the profile is an own child (neither adopted nor fostered) and not a partner is among its parents |
| Geni.RelationsParse | geni.py:257-258 | when the relations are found, every union URL names a stored union |
| Geni.RelationsStaysNone | geni.py:257-258 | once one union URL is unusable, the profile's relations fail and the conversion raises |
| Geni.DbRowsPublic | geni.py:235-292 | one row per public profile, in order; each carries the profile's Geni id, row id, name, short name (display name, else name), gender, alive flag, profile link, parsed dates and relatives through its unions |
| Geni.DbRowsStaysNone | geni.py:243-244 | once one public profile fails (no id, no URL, an unusable union), the whole conversion raises |
| Geni.OwnChildren | geni.py:261-267 | the loop collects the own children's ids |
| Geni.PartnerIds | geni.py:274-276 | the loop collects the partners' ids |
| Geni.CollectRelations | geni.py:256-276 | the loop over a profile's unions gives its relations |
| Geni.DbToRows | geni.py:229-293 | the conversion loop gives the rows |
| Export.ToSuccessor | main.py:153-164 | an exported record carries the row's id and dates; only rows without a birth date have none |
| Export.TableVersusGetSuccession | web/succession-app.js:271-280 | `get_succession` has a person in line on a date exactly when the chart's table numbers them and the date is not their death day (the table still numbers them then) |

## Left out

- Rendering and interaction (`render` markup, styles, `initChart`, `resetChart`, zoom and mouse
  handlers, path and circle attachment, `selectSuccessor`): user interface and d3 library code.
- The zoom-extent update (web/succession-app.js:625-633): floating-point d3 scale arithmetic that
  feeds only the zoom. `lineMaxHeight` is computed by `Track.PlaceLine` but has no other use.
- `fetch` and JSON decoding of `successors.json`, `clientWidth` and the scale factor from the
  constructor. `sampling` and `smoothing` are parameters. The loaded data reaches the model as
  `App.SetData`'s arguments.
- JavaScript `Date` details: time zones, local-midnight parsing, milliseconds, and the 0..99
  two-digit year rule of `new Date(year, …)`. Track dates are month indices and interpolation
  uses day numbers.
- SuccessionApp.App.SetData: with an empty list the source throws reading `successors[0]`; the
  model returns `ok == false` and builds no track.
- The thread pool, `RateLimiter`, the request queue and `worker`, `requests`, TinyDB storage,
  YAML, JSON and CSV files, `argparse` and logging. Concurrent workers can interleave the two
  handlers; the model takes one response at a time.
- `geni_id_to_uuid` (uuid5 hashing) is the parameter `uuid`. `profile_to_row` is not used by the
  program and is not modelled.
- Text.ParseNat: Python's `int` also accepts a leading `+` or `-`, surrounding whitespace,
  underscores between digits and non-ASCII digits; the model accepts ASCII digit strings only,
  which is what the numeric part of a Geni id consists of.
- Succession.ColumnText: for the seven date, flag and list columns (`birth_date`, `death_date`,
  `is_alive`, `children_ids`, `parent_ids`, `illegitimate_date`, `legitimate_date`) the source
  compares the column with the rule's value and raises no `KeyError`; the model gives no value
  for them, and `Succession.Frame.SetIllegitimate` excludes such keys by its precondition.
- Geni.DocId: Python's `int` also accepts signs, surrounding whitespace, underscores and
  non-ASCII digits; the model accepts ASCII digit strings only.
- Geni.ParseDate: struct values are integers; a struct value of another JSON type is not modelled.
- Geni.DbRows: a value of `birth` that is present but null, and `display_name` lookups beyond its
  absent or null cases, are not modelled.
- Succession.Frame.SetIllegitimate: matching is modelled on the text columns (`name`,
  `short_name`, `gender`, `external_url`, `_geni_id`, the two accuracies). A rule naming a date,
  list or boolean column is excluded by its precondition. A key that is not a column at all is
  modelled, and changes nothing.
- Pandas internals: the model does not rely on `sort_values` being stable, and NaN truthiness is
  modelled as `None`. The child lists produced by the sort are claimed sorted and a permutation,
  not a particular order among equal keys.
- Succession.Successors.Fill: descent stops after `fuel` levels. The source recurses without
  bound, and that bound is never reached on acyclic data as deep as `fuel`.
- Succession.MixedOrderCovers: a transitional child whose gender is neither 'male' nor
  'female', born after the youngest transitional male, falls in no slot and is dropped, as in the
  source. The lemma covers only the other children.
- `web/rollup.config.js` is build configuration and is not part of this model.

Behaviour of the source that the model keeps:

- A successor whose end precedes the start raises no error. Its index range is simply empty or
  short, and the cursor advances.
- The sampling is not checked to divide 12: `sampling = min(2 * scaleFactor, 12)` can be 10.
  Bucket alignment is proved only where 12 is divisible (`Sampler.BucketsAlign`). Everything else
  holds for any `sampling >= 1`.
- The simplifier compares an interior point's slope with the slope from the original previous
  point, not from the previously kept one. `Polyline.DroppedPointsOnSegment` shows the result is
  still lossless.
- `resetChart` resets only scales and zoom, not the track or the cursor.
- The track's floor is the sampled birth date of `successors[0]`, not the earliest birth.
- Nothing prevents adding the same successor twice.
