/** The Geni gatherer (geni.py): date structs, document ids, request batching, the two
    response handlers that fill the local profile and union tables, and the conversion of
    those tables into descendant rows. */
module Geni {
  import opened Wrappers
  import opened Dates
  import opened Text
  import opened Seqs
  import opened Rows

  // ---- Date structs (parse_date, lines 186-200) ----

  /** A Geni date struct; a missing key is `None`. */
  datatype DateStruct = DateStruct(year: Option<int>, month: Option<int>, day: Option<int>)

  /** Python truthiness of `struct.get(key)`: absent and 0 are false. */
  predicate Given(v: Option<int>)
  {
    v.Some? && v.value != 0
  }

  /** `datetime.date(y, m, d)`, or `None` where the constructor raises. */
  function MakeDate(y: int, m: int, d: int): (r: Option<Date>)
    ensures r.Some? <==> ValidDate(Date(y, m, d))
    ensures r.Some? ==> r.value == Date(y, m, d)
  {
    if ValidDate(Date(y, m, d)) then Some(Date(y, m, d)) else None
  }

  /** The date a struct gives and how much of it it gives: a missing month or day is taken
      as the first, and anything `datetime.date` refuses yields nothing. */
  function ParseDate(s: DateStruct): (r: (Option<Date>, Option<Accuracy>))
    ensures r.0.Some? <==> r.1.Some?
    ensures !Given(s.year) ==> r == (None, None)
    ensures r.0.Some? ==> ValidDate(r.0.value) && r.0.value.year == s.year.value
    ensures r.1 == Some(Year) ==> !Given(s.month) && r.0.value.month == 1 && r.0.value.day == 1
    ensures r.1 == Some(Month) ==>
      Given(s.month) && !Given(s.day) && r.0.value.month == s.month.value && r.0.value.day == 1
    ensures r.1 == Some(Day) ==>
      Given(s.month) && Given(s.day) && r.0.value == Date(s.year.value, s.month.value, s.day.value)
  {
    var (y, m, d) :=
      if !Given(s.year) then (0, 0, 0)
      else if !Given(s.month) then (s.year.value, 1, 1)
      else if !Given(s.day) then (s.year.value, s.month.value, 1)
      else (s.year.value, s.month.value, s.day.value);
    var acc :=
      if !Given(s.month) then Year else if !Given(s.day) then Month else Day;
    if !Given(s.year) then (None, None)
    else match MakeDate(y, m, d)
      case None => (None, None)
      case Some(date) => (Some(date), Some(acc))
  }

  /** The struct of a real date parses back to that date, with day accuracy; a struct that
      stops at the month or the year gives the first of that month or year. */
  lemma ParseDateComplete(d: Date)
    requires ValidDate(d)
    ensures ParseDate(DateStruct(Some(d.year), Some(d.month), Some(d.day))) == (Some(d), Some(Day))
    ensures ParseDate(DateStruct(Some(d.year), Some(d.month), None))
         == (Some(Date(d.year, d.month, 1)), Some(Month))
    ensures ParseDate(DateStruct(Some(d.year), None, None)) == (Some(Date(d.year, 1, 1)), Some(Year))
  {
    assert ValidDate(Date(d.year, d.month, 1));
    assert ValidDate(Date(d.year, 1, 1));
  }

  // ---- Document ids (lines 102, 115-116, 132, 145-146, 257) ----

  /** `int(id.split('-')[1])`: `None` where Python raises (no '-', or not a number). */
  function DocId(id: string): (r: Option<nat>)
    ensures r.Some? ==> |Split(id, '-')| >= 2 && ParseNat(Split(id, '-')[1]) == r
  {
    var pieces := Split(id, '-');
    if |pieces| < 2 then None else ParseNat(pieces[1])
  }

  /** `url.split('/')[-1]`: the Geni id at the end of an API URL. */
  function GeniIdOfUrl(url: string): (r: string)
    ensures '/' !in r
  {
    LastPiece(url, '/')
  }

  /** A Geni id "<kind>-<n>" has document id `n`, whatever follows a further '-'. */
  lemma DocIdOfGeniId(kind: string, n: nat, rest: string)
    requires '-' !in kind
    ensures DocId(kind + "-" + NatToString(n)) == Some(n)
    ensures DocId(kind + "-" + NatToString(n) + "-" + rest) == Some(n)
  {
    var digits := NatToString(n);
    ParseNatToString(n);
    assert '-' !in digits by {
      forall k | 0 <= k < |digits| ensures digits[k] != '-' {
        assert IsDigit(digits[k]);
      }
    }
    assert kind + "-" + digits == kind + ['-'] + digits;
    SplitAtSeparator(kind, '-', digits);
    SplitNoSeparator(digits, '-');
    assert kind + "-" + digits + "-" + rest == kind + ['-'] + (digits + ['-'] + rest);
    SplitAtSeparator(kind, '-', digits + ['-'] + rest);
    SplitAtSeparator(digits, '-', rest);
  }

  /** The URL of a union or profile ends in its Geni id. */
  lemma GeniIdOfUrlEnd(base: string, id: string)
    requires '/' !in id
    ensures GeniIdOfUrl(base + "/" + id) == id
  {
    assert base + "/" + id == base + ['/'] + id;
    LastPieceAfterSeparator(base, '/', id);
  }

  /** Splitting a string with no separator in its first part `p`: `p` joins the first piece. */
  lemma {:induction false} SplitPrefix(p: string, c: char, t: string)
    requires c !in p
    ensures Split(p + t, c) == [p + Split(t, c)[0]] + Split(t, c)[1..]
  {
    if |p| > 0 {
      SplitPrefix(p[1..], c, t);
      var rest := Split(p[1..] + t, c);
      assert (p + t)[0] == p[0] && p[0] != c;
      assert (p + t)[1..] == p[1..] + t;
      assert Split(p + t, c) == [[p[0]] + rest[0]] + rest[1..];
      assert [p[0]] + (p[1..] + Split(t, c)[0]) == p + Split(t, c)[0];
    } else {
      assert p + t == t && p + Split(t, c)[0] == Split(t, c)[0];
      assert Split(t, c) == [Split(t, c)[0]] + Split(t, c)[1..];
    }
  }

  /** db_to_rows takes the document id of a union straight from its URL (line 257); that is
      the id of its last segment whenever no '-' comes before that segment. */
  lemma DocIdOfUnionUrl(base: string, id: string)
    requires '-' !in base && '/' !in id
    ensures DocId(base + "/" + id) == DocId(id)
    ensures DocId(base + "/" + id) == DocId(GeniIdOfUrl(base + "/" + id))
  {
    GeniIdOfUrlEnd(base, id);
    assert base + "/" + id == (base + "/") + id;
    SplitPrefix(base + "/", '-', id);
    var ps := Split(id, '-');
    var qs := Split(base + "/" + id, '-');
    assert |qs| == |ps|;
    assert |ps| >= 2 ==> qs[1] == ps[1];
  }

  // ---- Request batching (lines 121-124, 151-154) ----

  const Base := "https://www.geni.com/api"
  const MaxIds := 40
  const ProfileFields :=
    "id,guid,created_at,updated_at,public,deleted,locked,url,profile_url,display_name,"
    + "first_name,middle_name,last_name,maiden_name,name,names,nicknames,suffix,gender,"
    + "birth,birth_order,death,is_alive,living,unions"
  const UnionFields := "id,partners,children,adopted_children,foster_children"

  /** `[ids[i:i+size] for i in range(0, len(ids), size)]`. */
  function Batches(ids: seq<string>, size: nat): (r: seq<seq<string>>)
    requires size >= 1
    ensures ids == [] <==> r == []
    ensures forall k :: 0 <= k < |r| ==> 1 <= |r[k]| <= size
    decreases |ids|
  {
    if ids == [] then []
    else if |ids| <= size then [ids]
    else [ids[..size]] + Batches(ids[size..], size)
  }

  /** There are `ceil(len(ids) / size)` batches. */
  lemma {:induction false} BatchesCount(ids: seq<string>, size: nat)
    requires size >= 1
    ensures |Batches(ids, size)| == (|ids| + size - 1) / size
    decreases |ids|
  {
    var a := |ids| + size - 1;
    if ids == [] {
      DivModUnique(a, size, 0, a);
    } else if |ids| <= size {
      DivModUnique(a, size, 1, a - size);
    } else {
      BatchesCount(ids[size..], size);
      DivModUnique(a, size, (a - size) / size + 1, (a - size) % size);
    }
  }

  function Flatten(chunks: seq<seq<string>>): seq<string>
  {
    if chunks == [] then [] else chunks[0] + Flatten(chunks[1..])
  }

  /** The batches are consecutive: together they are the id list, in order. */
  lemma {:induction false} BatchesFlatten(ids: seq<string>, size: nat)
    requires size >= 1
    ensures Flatten(Batches(ids, size)) == ids
    decreases |ids|
  {
    if ids != [] && |ids| > size {
      BatchesFlatten(ids[size..], size);
      var r := Batches(ids, size);
      assert r[1..] == Batches(ids[size..], size);
      assert ids == ids[..size] + ids[size..];
    } else if ids != [] {
      assert Batches(ids, size)[1..] == [];
      assert ids + [] == ids;
    }
  }

  /** One request URL for a batch of Geni ids. */
  function BatchUrl(endpoint: string, fields: string, chunk: seq<string>): string
  {
    Base + endpoint + "?ids=" + Join(chunk, ',') + "&fields=" + fields
  }

  function BatchUrls(endpoint: string, fields: string, chunks: seq<seq<string>>): (r: seq<string>)
    ensures |r| == |chunks|
  {
    seq(|chunks|, k requires 0 <= k < |chunks| => BatchUrl(endpoint, fields, chunks[k]))
  }

  /** The ids parameter of a batch URL splits back into the batch, when no id holds a ','. */
  lemma BatchIdsRecovered(ids: seq<string>, size: nat, k: nat)
    requires size >= 1 && k < |Batches(ids, size)|
    requires forall j :: 0 <= j < |ids| ==> ',' !in ids[j]
    ensures Split(Join(Batches(ids, size)[k], ','), ',') == Batches(ids, size)[k]
  {
    var chunk := Batches(ids, size)[k];
    ChunkOfIds(ids, size, k);
    forall j | 0 <= j < |chunk| ensures ',' !in chunk[j] {
      assert chunk[j] in ids;
    }
    SplitJoin(chunk, ',');
  }

  /** Every id of a batch is one of the ids. */
  lemma {:induction false} ChunkOfIds(ids: seq<string>, size: nat, k: nat)
    requires size >= 1 && k < |Batches(ids, size)|
    ensures forall x :: x in Batches(ids, size)[k] ==> x in ids
    decreases |ids|
  {
    if |ids| > size && k > 0 {
      ChunkOfIds(ids[size..], size, k - 1);
      assert Batches(ids, size)[k] == Batches(ids[size..], size)[k - 1];
    }
  }

  /** The loop of lines 122-124 (and 152-154): one URL per batch of at most `MaxIds` ids. */
  method BatchRequests(endpoint: string, fields: string, ids: seq<string>) returns (urls: seq<string>)
    ensures urls == BatchUrls(endpoint, fields, Batches(ids, MaxIds))
  {
    urls := [];
    var i := 0;
    while i < |ids|
      invariant 0 <= i <= |ids|
      invariant urls + BatchUrls(endpoint, fields, Batches(ids[i..], MaxIds))
             == BatchUrls(endpoint, fields, Batches(ids, MaxIds))
      decreases |ids| - i
    {
      var j := if i + MaxIds <= |ids| then i + MaxIds else |ids|;
      var rest := ids[i..];
      assert rest[..j - i] == ids[i..j];
      assert j < |ids| ==> rest[j - i..] == ids[j..];
      var tail := BatchUrls(endpoint, fields, Batches(ids[j..], MaxIds));
      if |rest| <= MaxIds {
        assert rest == ids[i..j] && ids[j..] == [];
        assert Batches(rest, MaxIds) == [ids[i..j]];
      } else {
        assert Batches(rest, MaxIds) == [ids[i..j]] + Batches(ids[j..], MaxIds);
      }
      assert BatchUrls(endpoint, fields, Batches(rest, MaxIds))
          == [BatchUrl(endpoint, fields, ids[i..j])] + tail;
      urls := urls + [BatchUrl(endpoint, fields, ids[i..j])];
      i := j;
    }
    assert ids[i..] == [];
  }

  // ---- Stored documents and the two response handlers (lines 92-154) ----

  /** A profile or union document as the API returns it; a missing list is empty. */
  datatype Doc = Doc(
    id: Option<string>,
    url: Option<string>,
    profileUrl: Option<string>,
    isPublic: Option<bool>,
    name: Option<string>,
    /** `None` when the key is absent, `Some(None)` when it is null. */
    displayName: Option<Option<string>>,
    gender: Option<string>,
    birth: DateStruct,
    death: DateStruct,
    isAlive: Option<bool>,
    unions: seq<string>,
    partners: seq<string>,
    children: seq<string>,
    adoptedChildren: seq<string>,
    fosterChildren: seq<string>)

  /** A decoded response: a page of `results`, or a single document. */
  datatype Response = Response(results: Option<seq<Doc>>, body: Doc)

  /** `response.get('results') or [response]`. */
  function Results(r: Response): (docs: seq<Doc>)
    ensures |docs| >= 1
    ensures docs == [r.body] || (r.results == Some(docs) && docs != [])
  {
    if r.results.Some? && r.results.value != [] then r.results.value else [r.body]
  }

  /** Which table a handler fills: profiles (whose unions are queued) or unions (whose
      children are queued). */
  datatype Kind = ProfileKind | UnionKind

  /** The links a stored document leads on to. */
  function Links(kind: Kind, d: Doc): seq<string>
  {
    if kind == ProfileKind then d.unions else d.children
  }

  /** A profile result without an id is passed over (line 98); handle_union has no such test. */
  predicate Skipped(kind: Kind, d: Doc)
  {
    kind == ProfileKind && (d.id.None? || d.id.value == "")
  }

  /** The document id of a result; `None` where lines 102 and 132 raise. */
  function ResultId(d: Doc): Option<nat>
  {
    if d.id.None? then None else DocId(d.id.value)
  }

  /** The Geni ids of `links` whose documents are not in `other`, in order; `None` where the
      id of a link does not parse. */
  function Unseen(links: seq<string>, other: map<nat, Doc>): Option<seq<string>>
    decreases |links|
  {
    if links == [] then Some([])
    else match Unseen(links[..|links| - 1], other)
      case None => None
      case Some(ids) =>
        var g := GeniIdOfUrl(links[|links| - 1]);
        match DocId(g)
        case None => None
        case Some(n) => Some(if n in other then ids else ids + [g])
  }

  /** The state of a handler: its table, the ids it will request, and whether it raised. */
  datatype Scan = Scan(table: map<nat, Doc>, pending: seq<string>, failed: bool)

  /** One result: stored unless already present, then its unseen links are queued. */
  function AbsorbOne(kind: Kind, s: Scan, d: Doc, other: map<nat, Doc>): Scan
  {
    if Skipped(kind, d) then s
    else match ResultId(d)
      case None => s.(failed := true)
      case Some(n) =>
        if n in s.table then s
        else match Unseen(Links(kind, d), other)
          case None => Scan(s.table[n := d], s.pending, true)
          case Some(ids) => Scan(s.table[n := d], s.pending + ids, false)
  }

  /** The results in order, stopping at the first one that raises. */
  function Absorb(kind: Kind, results: seq<Doc>, table: map<nat, Doc>, other: map<nat, Doc>): Scan
    decreases |results|
  {
    if results == [] then Scan(table, [], false)
    else
      var s := Absorb(kind, results[..|results| - 1], table, other);
      if s.failed then s else AbsorbOne(kind, s, results[|results| - 1], other)
  }

  /** Queued ids parse, are not in the other table, and each is the id of one of the links. */
  lemma {:induction false} UnseenSound(links: seq<string>, other: map<nat, Doc>)
    ensures Unseen(links, other).Some? ==>
      forall g :: g in Unseen(links, other).value ==>
        DocId(g).Some? && DocId(g).value !in other
        && exists j :: 0 <= j < |links| && GeniIdOfUrl(links[j]) == g
    decreases |links|
  {
    if links != [] {
      var init := links[..|links| - 1];
      UnseenSound(init, other);
      forall j | 0 <= j < |init| ensures links[j] == init[j] { }
    }
  }

  /** Every link parses, and every link whose document is not in the other table is queued. */
  lemma {:induction false} UnseenComplete(links: seq<string>, other: map<nat, Doc>)
    ensures Unseen(links, other).Some? ==>
      forall j :: 0 <= j < |links| ==>
        DocId(GeniIdOfUrl(links[j])).Some?
        && (DocId(GeniIdOfUrl(links[j])).value !in other ==> GeniIdOfUrl(links[j]) in Unseen(links, other).value)
    decreases |links|
  {
    if links != [] && Unseen(links, other).Some? {
      var init := links[..|links| - 1];
      UnseenComplete(init, other);
      var ids := Unseen(init, other).value;
      var g := GeniIdOfUrl(links[|links| - 1]);
      var all := Unseen(links, other).value;
      assert all == if DocId(g).value in other then ids else ids + [g];
      forall j | 0 <= j < |links|
        ensures DocId(GeniIdOfUrl(links[j])).Some?
        ensures DocId(GeniIdOfUrl(links[j])).value !in other ==> GeniIdOfUrl(links[j]) in all
      {
        if j < |init| {
          assert links[j] == init[j];
        }
      }
    }
  }

  /** Once a link fails to parse, the whole scan raises. */
  lemma {:induction false} UnseenStaysNone(links: seq<string>, i: nat, other: map<nat, Doc>)
    requires i <= |links| && Unseen(links[..i], other).None?
    ensures Unseen(links, other).None?
    decreases |links| - i
  {
    if i < |links| {
      assert links[..i + 1][..i] == links[..i];
      UnseenStaysNone(links, i + 1, other);
    } else {
      assert links[..i] == links;
    }
  }

  /** Once a result raises, the later ones are not looked at. */
  lemma {:induction false} AbsorbStaysFailed(kind: Kind, results: seq<Doc>, i: nat,
                                             table: map<nat, Doc>, other: map<nat, Doc>)
    requires i <= |results| && Absorb(kind, results[..i], table, other).failed
    ensures Absorb(kind, results, table, other) == Absorb(kind, results[..i], table, other)
    decreases |results| - i
  {
    if i < |results| {
      assert results[..i + 1][..i] == results[..i];
      AbsorbStaysFailed(kind, results, i + 1, table, other);
    } else {
      assert results[..i] == results;
    }
  }

  /** One result keeps what the table held, adds at most itself under its own id, and is
      stored unless it raised or was passed over. */
  lemma AbsorbOneKeeps(kind: Kind, s: Scan, d: Doc, other: map<nat, Doc>)
    ensures forall k :: k in s.table ==>
      k in AbsorbOne(kind, s, d, other).table && AbsorbOne(kind, s, d, other).table[k] == s.table[k]
    ensures forall k :: k in AbsorbOne(kind, s, d, other).table && k !in s.table ==>
      !Skipped(kind, d) && ResultId(d) == Some(k) && AbsorbOne(kind, s, d, other).table[k] == d
    ensures !Skipped(kind, d) && !AbsorbOne(kind, s, d, other).failed ==>
      ResultId(d).Some? && ResultId(d).value in AbsorbOne(kind, s, d, other).table
  {
  }

  /** A stored document is never replaced: what was in the table stays as it was. */
  lemma {:induction false} AbsorbKeeps(kind: Kind, results: seq<Doc>, table: map<nat, Doc>,
                                       other: map<nat, Doc>)
    ensures forall k :: k in table ==>
      k in Absorb(kind, results, table, other).table
      && Absorb(kind, results, table, other).table[k] == table[k]
    decreases |results|
  {
    if results != [] {
      var init := results[..|results| - 1];
      AbsorbKeeps(kind, init, table, other);
      var s := Absorb(kind, init, table, other);
      if !s.failed {
        AbsorbOneKeeps(kind, s, results[|results| - 1], other);
      }
    }
  }

  /** Every document added is a result filed under its own document id. */
  lemma {:induction false} AbsorbAdds(kind: Kind, results: seq<Doc>, table: map<nat, Doc>,
                                      other: map<nat, Doc>)
    ensures forall k :: k in Absorb(kind, results, table, other).table && k !in table ==>
      exists i :: 0 <= i < |results| && !Skipped(kind, results[i])
        && ResultId(results[i]) == Some(k)
        && Absorb(kind, results, table, other).table[k] == results[i]
    decreases |results|
  {
    if results != [] {
      var init := results[..|results| - 1];
      var last := |results| - 1;
      AbsorbAdds(kind, init, table, other);
      var s := Absorb(kind, init, table, other);
      var t := Absorb(kind, results, table, other).table;
      if !s.failed {
        AbsorbOneKeeps(kind, s, results[last], other);
        assert t == AbsorbOne(kind, s, results[last], other).table;
      } else {
        assert t == s.table;
      }
      forall k | k in t && k !in table
        ensures exists i ::
          0 <= i < |results| && !Skipped(kind, results[i]) && ResultId(results[i]) == Some(k) && t[k] == results[i]
      {
        if k in s.table {
          var i :| 0 <= i < |init| && !Skipped(kind, init[i]) && ResultId(init[i]) == Some(k) && s.table[k] == init[i];
          assert results[i] == init[i];
        } else {
          assert !Skipped(kind, results[last]) && ResultId(results[last]) == Some(k) && t[k] == results[last];
        }
      }
    }
  }

  /** Every queued id parses and names a document the other table does not hold. */
  lemma {:induction false} AbsorbPending(kind: Kind, results: seq<Doc>, table: map<nat, Doc>,
                                         other: map<nat, Doc>)
    ensures forall g :: g in Absorb(kind, results, table, other).pending ==>
      DocId(g).Some? && DocId(g).value !in other
    decreases |results|
  {
    if results != [] {
      var init := results[..|results| - 1];
      AbsorbPending(kind, init, table, other);
      var d := results[|results| - 1];
      if !Skipped(kind, d) && ResultId(d).Some? {
        UnseenSound(Links(kind, d), other);
      }
    }
  }

  /** Unless the handler raised, every result it does not pass over is in the table. */
  lemma {:induction false} AbsorbStores(kind: Kind, results: seq<Doc>, table: map<nat, Doc>,
                                        other: map<nat, Doc>)
    ensures !Absorb(kind, results, table, other).failed ==>
      forall i :: 0 <= i < |results| && !Skipped(kind, results[i]) ==>
        ResultId(results[i]).Some? && ResultId(results[i]).value in Absorb(kind, results, table, other).table
    decreases |results|
  {
    if results != [] && !Absorb(kind, results, table, other).failed {
      var init := results[..|results| - 1];
      var d := results[|results| - 1];
      AbsorbStores(kind, init, table, other);
      var s := Absorb(kind, init, table, other);
      assert !s.failed;
      var t := AbsorbOne(kind, s, d, other).table;
      assert Absorb(kind, results, table, other).table == t;
      AbsorbOneKeeps(kind, s, d, other);
      forall i | 0 <= i < |results| && !Skipped(kind, results[i])
        ensures ResultId(results[i]).Some? && ResultId(results[i]).value in t
      {
        if i < |init| {
          assert results[i] == init[i];
        }
      }
    }
  }

  /** The inner loops of lines 114-120 and 144-150. */
  method CollectUnseen(links: seq<string>, other: map<nat, Doc>) returns (r: Option<seq<string>>)
    ensures r == Unseen(links, other)
  {
    var ids: seq<string> := [];
    var i := 0;
    while i < |links|
      invariant 0 <= i <= |links|
      invariant Unseen(links[..i], other) == Some(ids)
    {
      assert links[..i + 1][..i] == links[..i];
      var g := GeniIdOfUrl(links[i]);
      var n := DocId(g);
      if n.None? {
        UnseenStaysNone(links, i + 1, other);
        return None;
      }
      if n.value !in other {
        ids := ids + [g];
      }
      i := i + 1;
    }
    assert links[..i] == links;
    r := Some(ids);
  }

  /** The outer loops of lines 97-120 and 131-150 on a table `table`, checking links against `other`. */
  method AbsorbResults(kind: Kind, results: seq<Doc>, table: map<nat, Doc>, other: map<nat, Doc>)
    returns (s: Scan)
    ensures s == Absorb(kind, results, table, other)
  {
    var stored: map<nat, Doc> := table;
    var pending: seq<string> := [];
    var i := 0;
    while i < |results|
      invariant 0 <= i <= |results|
      invariant Absorb(kind, results[..i], table, other) == Scan(stored, pending, false)
    {
      assert results[..i + 1][..i] == results[..i];
      var d := results[i];
      if !Skipped(kind, d) {
        var n := ResultId(d);
        if n.None? {
          AbsorbStaysFailed(kind, results, i + 1, table, other);
          return Scan(stored, pending, true);
        }
        if n.value !in stored {
          stored := stored[n.value := d];
          var ids := CollectUnseen(Links(kind, d), other);
          if ids.None? {
            AbsorbStaysFailed(kind, results, i + 1, table, other);
            return Scan(stored, pending, true);
          }
          pending := pending + ids.value;
        }
      }
      i := i + 1;
    }
    assert results[..i] == results;
    s := Scan(stored, pending, false);
  }

  /** The local database: profile and union documents by document id. */
  class Store {
    var profiles: map<nat, Doc>
    var unions: map<nat, Doc>

    constructor ()
      ensures profiles == map[] && unions == map[]
    {
      profiles := map[];
      unions := map[];
    }

    /** handle_profile: stores new profiles and yields one union request per batch of unseen
        unions; when it raises, the profiles stored so far stay and nothing is yielded. */
    method HandleProfile(response: Response) returns (urls: seq<string>, raised: bool)
      modifies this
      ensures var s := Absorb(ProfileKind, Results(response), old(profiles), old(unions));
        profiles == s.table && unions == old(unions) && raised == s.failed
        && urls == if s.failed then [] else BatchUrls("/union", UnionFields, Batches(s.pending, MaxIds))
    {
      var s := AbsorbResults(ProfileKind, Results(response), profiles, unions);
      profiles := s.table;
      raised := s.failed;
      if raised {
        urls := [];
      } else {
        urls := BatchRequests("/union", UnionFields, s.pending);
      }
    }

    /** handle_union: stores new unions and yields one profile request per batch of unseen
        children; when it raises, the unions stored so far stay and nothing is yielded. */
    method HandleUnion(response: Response) returns (urls: seq<string>, raised: bool)
      modifies this
      ensures var s := Absorb(UnionKind, Results(response), old(unions), old(profiles));
        unions == s.table && profiles == old(profiles) && raised == s.failed
        && urls == if s.failed then [] else BatchUrls("/profile", ProfileFields, Batches(s.pending, MaxIds))
    {
      var s := AbsorbResults(UnionKind, Results(response), unions, profiles);
      unions := s.table;
      raised := s.failed;
      if raised {
        urls := [];
      } else {
        urls := BatchRequests("/profile", ProfileFields, s.pending);
      }
    }
  }

  // ---- Conversion into rows (db_to_rows, lines 229-293) ----

  /** A child of union `u` that is neither adopted nor fostered there (lines 262-265, 270-273). */
  function OwnChildIn(u: Doc): string -> bool
  {
    c => c !in u.adoptedChildren && c !in u.fosterChildren
  }

  /** The row ids of the profiles behind some API URLs. */
  function IdsOf(urls: seq<string>, uuid: string -> string): (r: seq<string>)
    ensures |r| == |urls|
  {
    seq(|urls|, k requires 0 <= k < |urls| => uuid(GeniIdOfUrl(urls[k])))
  }

  datatype Relatives = Relatives(children: seq<string>, parents: seq<string>)

  /** What one union adds: its own children if the profile is a partner, else its partners if
      the profile is one of its own children. */
  function UnionStep(url: string, u: Doc, rel: Relatives, uuid: string -> string): Relatives
  {
    if url in u.partners then
      rel.(children := rel.children + IdsOf(Filter(u.children, OwnChildIn(u)), uuid))
    else if url in u.children && OwnChildIn(u)(url) then
      rel.(parents := rel.parents + IdsOf(u.partners, uuid))
    else rel
  }

  /** The children and parents found through the unions a profile lists; `None` where a union
      URL does not parse or names no stored union (lines 257-258 raise). */
  function Relations(url: string, unionUrls: seq<string>, unions: map<nat, Doc>,
                     uuid: string -> string): Option<Relatives>
    decreases |unionUrls|
  {
    if unionUrls == [] then Some(Relatives([], []))
    else match Relations(url, unionUrls[..|unionUrls| - 1], unions, uuid)
      case None => None
      case Some(rel) =>
        var n := DocId(unionUrls[|unionUrls| - 1]);
        if n.None? || n.value !in unions then None
        else Some(UnionStep(url, unions[n.value], rel, uuid))
  }

  /** The union that a listed union URL names, when it does. */
  ghost predicate ListedUnion(unionUrls: seq<string>, unions: map<nat, Doc>, u: Doc)
  {
    exists j :: 0 <= j < |unionUrls| && DocId(unionUrls[j]).Some?
      && DocId(unionUrls[j]).value in unions && unions[DocId(unionUrls[j]).value] == u
  }

  /** A child id comes from a union in which the profile is a partner and the child is its own. */
  ghost predicate ChildThrough(url: string, u: Doc, x: string, uuid: string -> string)
  {
    url in u.partners
    && exists c :: c in u.children && OwnChildIn(u)(c) && x == uuid(GeniIdOfUrl(c))
  }

  /** A parent id comes from a union in which the profile is not a partner but an own child. */
  ghost predicate ParentThrough(url: string, u: Doc, x: string, uuid: string -> string)
  {
    url !in u.partners && url in u.children && OwnChildIn(u)(url)
    && exists p :: p in u.partners && x == uuid(GeniIdOfUrl(p))
  }

  /** Every child and parent id found has a union that justifies it. */
  lemma {:induction false} RelationsSound(url: string, unionUrls: seq<string>,
                                          unions: map<nat, Doc>, uuid: string -> string)
    ensures Relations(url, unionUrls, unions, uuid).Some? ==>
      forall x :: x in Relations(url, unionUrls, unions, uuid).value.children ==>
        exists u :: ListedUnion(unionUrls, unions, u) && ChildThrough(url, u, x, uuid)
    ensures Relations(url, unionUrls, unions, uuid).Some? ==>
      forall x :: x in Relations(url, unionUrls, unions, uuid).value.parents ==>
        exists u :: ListedUnion(unionUrls, unions, u) && ParentThrough(url, u, x, uuid)
    decreases |unionUrls|
  {
    if unionUrls != [] && Relations(url, unionUrls, unions, uuid).Some? {
      var init := unionUrls[..|unionUrls| - 1];
      RelationsSound(url, init, unions, uuid);
      var last := |unionUrls| - 1;
      var u := unions[DocId(unionUrls[last]).value];
      assert ListedUnion(unionUrls, unions, u);
      forall v | ListedUnion(init, unions, v) ensures ListedUnion(unionUrls, unions, v) {
        var j :| 0 <= j < |init| && DocId(init[j]).Some?
          && DocId(init[j]).value in unions && unions[DocId(init[j]).value] == v;
        assert unionUrls[j] == init[j];
      }
      var rel := Relations(url, unionUrls, unions, uuid).value;
      var prev := Relations(url, init, unions, uuid).value;
      forall x | x in rel.children
        ensures exists v :: ListedUnion(unionUrls, unions, v) && ChildThrough(url, v, x, uuid)
      {
        if x in prev.children {
          var v :| ListedUnion(init, unions, v) && ChildThrough(url, v, x, uuid);
          assert ListedUnion(unionUrls, unions, v);
        } else {
          ChildOfStep(url, u, prev, x, uuid);
        }
      }
      forall x | x in rel.parents
        ensures exists v :: ListedUnion(unionUrls, unions, v) && ParentThrough(url, v, x, uuid)
      {
        if x in prev.parents {
          var v :| ListedUnion(init, unions, v) && ParentThrough(url, v, x, uuid);
          assert ListedUnion(unionUrls, unions, v);
        } else {
          ParentOfStep(url, u, prev, x, uuid);
        }
      }
    }
  }

  /** A child id that one union adds is justified by that union. */
  lemma ChildOfStep(url: string, u: Doc, prev: Relatives, x: string, uuid: string -> string)
    requires x in UnionStep(url, u, prev, uuid).children && x !in prev.children
    ensures ChildThrough(url, u, x, uuid)
  {
    var rel := UnionStep(url, u, prev, uuid);
    var own := Filter(u.children, OwnChildIn(u));
    FilterSpec(u.children, OwnChildIn(u));
    var k :| 0 <= k < |rel.children| && rel.children[k] == x;
    assert k >= |prev.children|;
    assert x == IdsOf(own, uuid)[k - |prev.children|];
    assert own[k - |prev.children|] in own;
  }

  /** A parent id that one union adds is justified by that union. */
  lemma ParentOfStep(url: string, u: Doc, prev: Relatives, x: string, uuid: string -> string)
    requires x in UnionStep(url, u, prev, uuid).parents && x !in prev.parents
    ensures ParentThrough(url, u, x, uuid)
  {
    var rel := UnionStep(url, u, prev, uuid);
    var k :| 0 <= k < |rel.parents| && rel.parents[k] == x;
    assert k >= |prev.parents|;
    assert x == IdsOf(u.partners, uuid)[k - |prev.parents|];
    assert u.partners[k - |prev.parents|] in u.partners;
  }

  /** Every own child of a listed union in which the profile is a partner is among its children. */
  lemma {:induction false} RelationsComplete(url: string, unionUrls: seq<string>,
                                             unions: map<nat, Doc>, uuid: string -> string)
    ensures Relations(url, unionUrls, unions, uuid).Some? ==>
      forall u, c ::
        (ListedUnion(unionUrls, unions, u) && url in u.partners && c in u.children && OwnChildIn(u)(c)) ==>
        uuid(GeniIdOfUrl(c)) in Relations(url, unionUrls, unions, uuid).value.children
    decreases |unionUrls|
  {
    if unionUrls != [] && Relations(url, unionUrls, unions, uuid).Some? {
      var init := unionUrls[..|unionUrls| - 1];
      RelationsComplete(url, init, unions, uuid);
      var rel := Relations(url, unionUrls, unions, uuid).value;
      var prev := Relations(url, init, unions, uuid).value;
      var last := unions[DocId(unionUrls[|unionUrls| - 1]).value];
      assert forall x :: x in prev.children ==> x in rel.children;
      forall u, c | ListedUnion(unionUrls, unions, u) && url in u.partners
        && c in u.children && OwnChildIn(u)(c)
        ensures uuid(GeniIdOfUrl(c)) in rel.children
      {
        var j :| 0 <= j < |unionUrls| && DocId(unionUrls[j]).Some?
          && DocId(unionUrls[j]).value in unions && unions[DocId(unionUrls[j]).value] == u;
        if j < |init| {
          assert unionUrls[j] == init[j];
          assert ListedUnion(init, unions, u);
        } else {
          assert u == last;
          var own := Filter(u.children, OwnChildIn(u));
          FilterSpec(u.children, OwnChildIn(u));
          var i :| 0 <= i < |own| && own[i] == c;
          assert IdsOf(own, uuid)[i] == uuid(GeniIdOfUrl(c));
          assert rel.children == prev.children + IdsOf(own, uuid);
        }
      }
    }
  }

  /** Every partner of a listed union in which the profile is an own child, and not a partner,
      is among its parents. */
  lemma {:induction false} RelationsParentsComplete(url: string, unionUrls: seq<string>,
                                                    unions: map<nat, Doc>, uuid: string -> string)
    ensures Relations(url, unionUrls, unions, uuid).Some? ==>
      forall u, p ::
        (ListedUnion(unionUrls, unions, u) && url !in u.partners && url in u.children
         && OwnChildIn(u)(url) && p in u.partners) ==>
        uuid(GeniIdOfUrl(p)) in Relations(url, unionUrls, unions, uuid).value.parents
    decreases |unionUrls|
  {
    if unionUrls != [] && Relations(url, unionUrls, unions, uuid).Some? {
      var init := unionUrls[..|unionUrls| - 1];
      RelationsParentsComplete(url, init, unions, uuid);
      var rel := Relations(url, unionUrls, unions, uuid).value;
      var prev := Relations(url, init, unions, uuid).value;
      var last := unions[DocId(unionUrls[|unionUrls| - 1]).value];
      assert forall x :: x in prev.parents ==> x in rel.parents;
      forall u, p | ListedUnion(unionUrls, unions, u) && url !in u.partners && url in u.children
        && OwnChildIn(u)(url) && p in u.partners
        ensures uuid(GeniIdOfUrl(p)) in rel.parents
      {
        var j :| 0 <= j < |unionUrls| && DocId(unionUrls[j]).Some?
          && DocId(unionUrls[j]).value in unions && unions[DocId(unionUrls[j]).value] == u;
        if j < |init| {
          assert unionUrls[j] == init[j];
          assert ListedUnion(init, unions, u);
        } else {
          assert u == last;
          var i :| 0 <= i < |u.partners| && u.partners[i] == p;
          assert IdsOf(u.partners, uuid)[i] == uuid(GeniIdOfUrl(p));
          assert rel.parents == prev.parents + IdsOf(u.partners, uuid);
        }
      }
    }
  }

  /** When the relations are found, every listed union URL names a stored union. */
  lemma {:induction false} RelationsParse(url: string, unionUrls: seq<string>,
                                          unions: map<nat, Doc>, uuid: string -> string)
    ensures Relations(url, unionUrls, unions, uuid).Some? ==>
      forall j :: 0 <= j < |unionUrls| ==>
        DocId(unionUrls[j]).Some? && DocId(unionUrls[j]).value in unions
    decreases |unionUrls|
  {
    if unionUrls != [] {
      var init := unionUrls[..|unionUrls| - 1];
      RelationsParse(url, init, unions, uuid);
      forall j | 0 <= j < |init| ensures unionUrls[j] == init[j] { }
    }
  }

  /** Lines 240-241: only public profiles become rows. */
  predicate IsPublic(d: Doc)
  {
    d.isPublic == Some(true)
  }

  /** The row of one public profile (lines 277-291). */
  function ProfileRow(d: Doc, geniId: string, rel: Relatives, uuid: string -> string): (r: Row)
  {
    var (birth, birthAccuracy) := ParseDate(d.birth);
    var (death, deathAccuracy) := ParseDate(d.death);
    Row(uuid(geniId), d.name, d.displayName.GetOr(d.name), d.gender, birth, birthAccuracy,
        death, deathAccuracy, d.isAlive, rel.children, rel.parents, d.profileUrl, geniId,
        None, None)
  }

  /** db_to_rows on profiles in table order; `None` where it raises (a public profile without
      an id or URL, or an unusable union). */
  function DbRows(profiles: seq<Doc>, unions: map<nat, Doc>, uuid: string -> string): Option<seq<Row>>
    decreases |profiles|
  {
    if profiles == [] then Some([])
    else match DbRows(profiles[..|profiles| - 1], unions, uuid)
      case None => None
      case Some(rows) =>
        var d := profiles[|profiles| - 1];
        if !IsPublic(d) then Some(rows)
        else if d.id.None? || d.url.None? then None
        else match Relations(d.url.value, d.unions, unions, uuid)
          case None => None
          case Some(rel) => Some(rows + [ProfileRow(d, d.id.value, rel, uuid)])
  }

  /** Row `r` is the row of public profile `p`: its Geni id and row id, its name fields and
      link, its dates as parsed, and its relatives through its unions. */
  predicate RowOfProfile(r: Row, p: Doc, unions: map<nat, Doc>, uuid: string -> string)
  {
    p.id == Some(r.geniId) && p.url.Some?
    && r.id == uuid(r.geniId)
    && r.name == p.name && r.shortName == p.displayName.GetOr(p.name)
    && r.gender == p.gender && r.isAlive == p.isAlive && r.externalUrl == p.profileUrl
    && (r.birthDate, r.birthAccuracy) == ParseDate(p.birth)
    && (r.deathDate, r.deathAccuracy) == ParseDate(p.death)
    && Relations(p.url.value, p.unions, unions, uuid) == Some(Relatives(r.childrenIds, r.parentIds))
  }

  /** One row per public profile, in order. */
  lemma {:induction false} DbRowsPublic(profiles: seq<Doc>, unions: map<nat, Doc>, uuid: string -> string)
    ensures DbRows(profiles, unions, uuid).Some? ==>
      |DbRows(profiles, unions, uuid).value| == |Filter(profiles, IsPublic)|
      && forall k :: 0 <= k < |DbRows(profiles, unions, uuid).value| ==>
        RowOfProfile(DbRows(profiles, unions, uuid).value[k], Filter(profiles, IsPublic)[k], unions, uuid)
    decreases |profiles|
  {
    if profiles != [] && DbRows(profiles, unions, uuid).Some? {
      var init := profiles[..|profiles| - 1];
      var d := profiles[|profiles| - 1];
      DbRowsPublic(init, unions, uuid);
      assert profiles == init + [d];
      FilterAppend(init, [d], IsPublic);
      var prev := DbRows(init, unions, uuid).value;
      var pubInit := Filter(init, IsPublic);
      var rows := DbRows(profiles, unions, uuid).value;
      var pub := Filter(profiles, IsPublic);
      if IsPublic(d) {
        var rel := Relations(d.url.value, d.unions, unions, uuid).value;
        assert rows == prev + [ProfileRow(d, d.id.value, rel, uuid)];
        assert Filter([d], IsPublic) == [d];
        assert pub == pubInit + [d];
        forall k | 0 <= k < |rows| ensures RowOfProfile(rows[k], pub[k], unions, uuid) {
          if k < |prev| {
            assert rows[k] == prev[k] && pub[k] == pubInit[k];
          } else {
            assert rows[k] == ProfileRow(d, d.id.value, rel, uuid) && pub[k] == d;
          }
        }
      } else {
        assert rows == prev;
        assert Filter([d], IsPublic) == [];
        assert pub == pubInit;
      }
    }
  }

  /** The loop over a union's children (lines 261-267). */
  method OwnChildren(u: Doc, uuid: string -> string) returns (ids: seq<string>)
    ensures ids == IdsOf(Filter(u.children, OwnChildIn(u)), uuid)
  {
    ids := [];
    var i := 0;
    while i < |u.children|
      invariant 0 <= i <= |u.children|
      invariant ids == IdsOf(Filter(u.children[..i], OwnChildIn(u)), uuid)
    {
      var c := u.children[i];
      assert u.children[..i + 1] == u.children[..i] + [c];
      FilterAppend(u.children[..i], [c], OwnChildIn(u));
      if c in u.adoptedChildren || c in u.fosterChildren {
        i := i + 1;
        continue;
      }
      ids := ids + [uuid(GeniIdOfUrl(c))];
      i := i + 1;
    }
    assert u.children[..i] == u.children;
  }

  /** The loop over a union's partners (lines 274-276). */
  method PartnerIds(u: Doc, uuid: string -> string) returns (ids: seq<string>)
    ensures ids == IdsOf(u.partners, uuid)
  {
    ids := [];
    var i := 0;
    while i < |u.partners|
      invariant 0 <= i <= |u.partners|
      invariant ids == IdsOf(u.partners[..i], uuid)
    {
      assert IdsOf(u.partners[..i + 1], uuid) == ids + [uuid(GeniIdOfUrl(u.partners[i]))];
      ids := ids + [uuid(GeniIdOfUrl(u.partners[i]))];
      i := i + 1;
    }
    assert u.partners[..i] == u.partners;
  }

  /** The loop over a profile's unions (lines 256-276). */
  method CollectRelations(url: string, unionUrls: seq<string>, unions: map<nat, Doc>,
                          uuid: string -> string) returns (r: Option<Relatives>)
    ensures r == Relations(url, unionUrls, unions, uuid)
  {
    var childrenIds: seq<string> := [];
    var parentIds: seq<string> := [];
    var i := 0;
    while i < |unionUrls|
      invariant 0 <= i <= |unionUrls|
      invariant Relations(url, unionUrls[..i], unions, uuid) == Some(Relatives(childrenIds, parentIds))
    {
      assert unionUrls[..i + 1][..i] == unionUrls[..i];
      var n := DocId(unionUrls[i]);
      if n.None? || n.value !in unions {
        RelationsStaysNone(url, unionUrls, i + 1, unions, uuid);
        return None;
      }
      var u := unions[n.value];
      ghost var prev := Relatives(childrenIds, parentIds);
      assert Relations(url, unionUrls[..i + 1], unions, uuid) == Some(UnionStep(url, u, prev, uuid));
      if url in u.partners {
        var own := OwnChildren(u, uuid);
        childrenIds := childrenIds + own;
      } else if url in u.children {
        if !(url in u.adoptedChildren || url in u.fosterChildren) {
          var ps := PartnerIds(u, uuid);
          parentIds := parentIds + ps;
        }
      }
      assert Relatives(childrenIds, parentIds) == UnionStep(url, u, prev, uuid);
      i := i + 1;
    }
    assert unionUrls[..i] == unionUrls;
    r := Some(Relatives(childrenIds, parentIds));
  }

  lemma {:induction false} RelationsStaysNone(url: string, unionUrls: seq<string>, i: nat,
                                              unions: map<nat, Doc>, uuid: string -> string)
    requires i <= |unionUrls| && Relations(url, unionUrls[..i], unions, uuid).None?
    ensures Relations(url, unionUrls, unions, uuid).None?
    decreases |unionUrls| - i
  {
    if i < |unionUrls| {
      assert unionUrls[..i + 1][..i] == unionUrls[..i];
      RelationsStaysNone(url, unionUrls, i + 1, unions, uuid);
    } else {
      assert unionUrls[..i] == unionUrls;
    }
  }

  lemma {:induction false} DbRowsStaysNone(profiles: seq<Doc>, i: nat, unions: map<nat, Doc>,
                                           uuid: string -> string)
    requires i <= |profiles| && DbRows(profiles[..i], unions, uuid).None?
    ensures DbRows(profiles, unions, uuid).None?
    decreases |profiles| - i
  {
    if i < |profiles| {
      assert profiles[..i + 1][..i] == profiles[..i];
      DbRowsStaysNone(profiles, i + 1, unions, uuid);
    } else {
      assert profiles[..i] == profiles;
    }
  }

  /** db_to_rows: the loop over the profile table (lines 235-292). */
  method DbToRows(profiles: seq<Doc>, unions: map<nat, Doc>, uuid: string -> string)
    returns (r: Option<seq<Row>>)
    ensures r == DbRows(profiles, unions, uuid)
  {
    var rows: seq<Row> := [];
    var i := 0;
    while i < |profiles|
      invariant 0 <= i <= |profiles|
      invariant DbRows(profiles[..i], unions, uuid) == Some(rows)
    {
      ghost var upTo := profiles[..i + 1];
      var d := profiles[i];
      assert upTo[..|upTo| - 1] == profiles[..i] && upTo[|upTo| - 1] == d;
      if !IsPublic(d) {
        assert DbRows(upTo, unions, uuid) == Some(rows);
        i := i + 1;
        continue;
      }
      if d.id.None? || d.url.None? {
        assert DbRows(upTo, unions, uuid).None?;
        DbRowsStaysNone(profiles, i + 1, unions, uuid);
        return None;
      }
      var rel := CollectRelations(d.url.value, d.unions, unions, uuid);
      if rel.None? {
        assert DbRows(upTo, unions, uuid).None?;
        DbRowsStaysNone(profiles, i + 1, unions, uuid);
        return None;
      }
      rows := rows + [ProfileRow(d, d.id.value, rel.value, uuid)];
      assert DbRows(upTo, unions, uuid) == Some(rows);
      i := i + 1;
    }
    assert profiles[..i] == profiles;
    r := Some(rows);
  }
}
