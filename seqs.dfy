/** Sequence helpers shared by the components: filtering, maxima, counting
    and a sort by a caller-supplied total preorder. */
module Seqs {

  /** The elements of `s` that satisfy `p`, in order (a list comprehension
      with an `if`, or a boolean mask on a data frame). */
  function Filter<T>(s: seq<T>, p: T -> bool): (r: seq<T>)
    ensures |r| <= |s|
  {
    if s == [] then []
    else if p(s[0]) then [s[0]] + Filter(s[1..], p)
    else Filter(s[1..], p)
  }

  /** The kept elements are exactly the input elements satisfying `p`. */
  lemma {:induction false} FilterSpec<T>(s: seq<T>, p: T -> bool)
    ensures forall x :: x in Filter(s, p) <==> x in s && p(x)
    ensures forall k :: 0 <= k < |Filter(s, p)| ==> p(Filter(s, p)[k])
  {
    if s != [] {
      FilterSpec(s[1..], p);
      assert s == [s[0]] + s[1..];
    }
  }

  /** Every kept element satisfies the predicate (the second half of `FilterSpec` on its own). */
  lemma FilterAll<T>(s: seq<T>, p: T -> bool)
    ensures forall k :: 0 <= k < |Filter(s, p)| ==> p(Filter(s, p)[k])
  {
    FilterSpec(s, p);
  }

  /** A prefix of `a`, then `b`: every element satisfies `p` when every element of `a` and of `b`
      satisfies `q`, and `q` implies `p`. */
  lemma PrefixConcat<T>(a: seq<T>, n: nat, b: seq<T>, p: T -> bool, q: T -> bool)
    requires n <= |a|
    requires forall k :: 0 <= k < |a| ==> p(a[k])
    requires forall k :: 0 <= k < |b| ==> q(b[k])
    requires forall x :: q(x) ==> p(x)
    ensures forall k :: 0 <= k < |a[..n] + b| ==> p((a[..n] + b)[k])
  {
    var m := a[..n] + b;
    forall k | 0 <= k < |m| ensures p(m[k]) {
      if k < n {
        assert m[k] == a[k];
      } else {
        assert m[k] == b[k - n];
      }
    }
  }

  /** In `a + b + c`, the positions after `a` and before `c` come from `b`, the last ones from `c`. */
  lemma ThreeParts<T>(a: seq<T>, b: seq<T>, c: seq<T>, p: T -> bool, q: T -> bool)
    requires forall k :: 0 <= k < |b| ==> p(b[k])
    requires forall k :: 0 <= k < |c| ==> q(c[k])
    ensures forall k :: |a| <= k < |a + b + c| - |c| ==> p((a + b + c)[k])
    ensures forall k :: |a + b + c| - |c| <= k < |a + b + c| ==> q((a + b + c)[k])
  {
    var all := a + b + c;
    forall k | |a| <= k < |all| - |c| ensures p(all[k]) {
      assert all[k] == b[k - |a|];
    }
    forall k | |all| - |c| <= k < |all| ensures q(all[k]) {
      assert all[k] == c[k - |a| - |b|];
    }
  }

  lemma {:induction false} FilterAppend<T>(a: seq<T>, b: seq<T>, p: T -> bool)
    ensures Filter(a + b, p) == Filter(a, p) + Filter(b, p)
  {
    if a == [] {
      assert a + b == b;
    } else {
      FilterAppend(a[1..], b, p);
      var ab := a + b;
      assert ab != [] && ab[0] == a[0] && ab[1..] == a[1..] + b;
      if p(a[0]) {
        calc {
          Filter(ab, p);
          [a[0]] + Filter(a[1..] + b, p);
          [a[0]] + (Filter(a[1..], p) + Filter(b, p));
          ([a[0]] + Filter(a[1..], p)) + Filter(b, p);
        }
      }
    }
  }

  /** The largest element of a non-empty sequence (`Math.max(...s)`). */
  function SeqMax(s: seq<nat>): nat
    requires |s| > 0
  {
    if |s| == 1 then s[0]
    else
      var rest := SeqMax(s[1..]);
      if s[0] >= rest then s[0] else rest
  }

  lemma {:induction false} SeqMaxIsMaximum(s: seq<nat>)
    requires |s| > 0
    ensures forall k :: 0 <= k < |s| ==> s[k] <= SeqMax(s)
    ensures exists k :: 0 <= k < |s| && s[k] == SeqMax(s)
  {
    if |s| > 1 {
      SeqMaxIsMaximum(s[1..]);
      assert forall k :: 1 <= k < |s| ==> s[k] == s[1..][k - 1];
      var j :| 0 <= j < |s[1..]| && s[1..][j] == SeqMax(s[1..]);
      assert s[j + 1] == SeqMax(s[1..]);
      if s[0] < SeqMax(s[1..]) {
        assert s[j + 1] == SeqMax(s);
      } else {
        assert s[0] == SeqMax(s);
      }
    } else {
      assert s[0] == SeqMax(s);
    }
  }

  /** How many elements of `s` satisfy `p`. */
  function Count<T>(s: seq<T>, p: T -> bool): (n: nat)
    ensures n <= |s|
  {
    if s == [] then 0 else (if p(s[|s| - 1]) then 1 else 0) + Count(s[..|s| - 1], p)
  }

  lemma CountIsFilterLength<T>(s: seq<T>, p: T -> bool)
    ensures Count(s, p) == |Filter(s, p)|
  {
    if s != [] {
      var last := s[|s| - 1];
      var init := s[..|s| - 1];
      assert s == init + [last];
      FilterAppend(init, [last], p);
      CountIsFilterLength(init, p);
    }
  }

  /** `le` is a total preorder: every two elements compare, and comparison is transitive. */
  ghost predicate TotalPreorder<T(!new)>(le: (T, T) -> bool)
  {
    (forall a, b :: le(a, b) || le(b, a))
    && (forall a, b, c :: le(a, b) && le(b, c) ==> le(a, c))
  }

  ghost predicate SortedBy<T>(s: seq<T>, le: (T, T) -> bool)
  {
    forall i, j :: 0 <= i < j < |s| ==> le(s[i], s[j])
  }

  function Insert<T>(x: T, s: seq<T>, le: (T, T) -> bool): seq<T>
  {
    if s == [] then [x]
    else if le(x, s[0]) then [x] + s
    else [s[0]] + Insert(x, s[1..], le)
  }

  lemma {:induction false} InsertPermutes<T>(x: T, s: seq<T>, le: (T, T) -> bool)
    ensures multiset(Insert(x, s, le)) == multiset(s) + multiset{x}
  {
    if s != [] && !le(x, s[0]) {
      InsertPermutes(x, s[1..], le);
      assert s == [s[0]] + s[1..];
    }
  }

  lemma {:induction false} InsertSorted<T(!new)>(x: T, s: seq<T>, le: (T, T) -> bool)
    requires TotalPreorder(le)
    requires SortedBy(s, le)
    ensures SortedBy(Insert(x, s, le), le)
    ensures multiset(Insert(x, s, le)) == multiset(s) + multiset{x}
  {
    InsertPermutes(x, s, le);
    if s == [] {
    } else if le(x, s[0]) {
      var r := [x] + s;
      forall i, j | 0 <= i < j < |r| ensures le(r[i], r[j]) {
        if i == 0 {
          if j > 1 {
            assert le(s[0], s[j - 1]);
          }
        } else {
          assert r[i] == s[i - 1] && r[j] == s[j - 1];
        }
      }
    } else {
      InsertSorted(x, s[1..], le);
      var rest := Insert(x, s[1..], le);
      assert le(s[0], x);
      forall j | 0 <= j < |rest| ensures le(s[0], rest[j]) {
        assert rest[j] in multiset(rest);
        if rest[j] != x {
          assert rest[j] in multiset(s[1..]);
          var m :| 0 <= m < |s[1..]| && s[1..][m] == rest[j];
          assert s[m + 1] == rest[j];
        }
      }
      var r := [s[0]] + rest;
      forall i, j | 0 <= i < j < |r| ensures le(r[i], r[j]) {
        if i == 0 {
          assert r[j] == rest[j - 1];
        } else {
          assert r[i] == rest[i - 1] && r[j] == rest[j - 1];
        }
      }
      assert Insert(x, s, le) == r;
    }
  }

  /** `s` sorted by `le` (the model's stand-in for `sort_values`, an insertion sort). */
  function SortBy<T>(s: seq<T>, le: (T, T) -> bool): seq<T>
  {
    if s == [] then [] else Insert(s[0], SortBy(s[1..], le), le)
  }

  /** The sorted sequence is ordered by `le` and is a permutation of the input. */
  lemma {:induction false} SortBySorted<T(!new)>(s: seq<T>, le: (T, T) -> bool)
    requires TotalPreorder(le)
    ensures SortedBy(SortBy(s, le), le)
    ensures multiset(SortBy(s, le)) == multiset(s)
    ensures |SortBy(s, le)| == |s|
  {
    if s != [] {
      SortBySorted(s[1..], le);
      InsertSorted(s[0], SortBy(s[1..], le), le);
      assert s == [s[0]] + s[1..];
      assert |SortBy(s, le)| == |multiset(SortBy(s, le))|;
    }
  }

  /** `drop_duplicates(keep='first')` on the column(s) `key` picks out: the first element
      for each key, in order. */
  function DedupBy<T, K(==)>(s: seq<T>, key: T -> K): (r: seq<T>)
    ensures |r| <= |s|
  {
    if s == [] then []
    else
      var d := DedupBy(s[..|s| - 1], key);
      var x := s[|s| - 1];
      if KeyIn(d, key, key(x)) then d else d + [x]
  }

  predicate KeyIn<T, K(==)>(d: seq<T>, key: T -> K, v: K)
  {
    exists k :: 0 <= k < |d| && key(d[k]) == v
  }

  /** `s[j]` is the first element of `s` with its key. */
  ghost predicate FirstWithKey<T, K>(s: seq<T>, key: T -> K, j: int)
  {
    0 <= j < |s| && forall i :: 0 <= i < j ==> key(s[i]) != key(s[j])
  }

  /** The elements among the first `n` of `s` that are first with their key, in order. */
  ghost function FirstOccurrences<T, K>(s: seq<T>, key: T -> K, n: nat): seq<T>
    requires n <= |s|
  {
    if n == 0 then []
    else FirstOccurrences(s, key, n - 1) + (if FirstWithKey(s, key, n - 1) then [s[n - 1]] else [])
  }

  /** Every key of the input is kept, and only input elements are kept. */
  lemma {:induction false} DedupByKeys<T, K>(s: seq<T>, key: T -> K)
    ensures forall j :: 0 <= j < |s| ==> KeyIn(DedupBy(s, key), key, key(s[j]))
    ensures forall y :: y in DedupBy(s, key) ==> y in s
  {
    if s != [] {
      var n := |s| - 1;
      var init := s[..n];
      var d := DedupBy(init, key);
      var x := s[n];
      DedupByKeys(init, key);
      assert forall j :: 0 <= j < n ==> s[j] == init[j];
      assert forall y :: y in init ==> y in s;
      if KeyIn(d, key, key(x)) {
        assert DedupBy(s, key) == d;
      } else {
        var r := d + [x];
        assert DedupBy(s, key) == r;
        assert r[|d|] == x;
        forall j | 0 <= j < n ensures KeyIn(r, key, key(s[j])) {
          var k :| 0 <= k < |d| && key(d[k]) == key(init[j]);
          assert r[k] == d[k];
        }
        forall y | y in r ensures y in s {
          if y != x {
            assert y in d;
          }
        }
      }
    }
  }

  /** The kept keys are pairwise different. */
  lemma {:induction false} DedupByDistinct<T, K>(s: seq<T>, key: T -> K)
    ensures forall a, b :: 0 <= a < b < |DedupBy(s, key)| ==>
              key(DedupBy(s, key)[a]) != key(DedupBy(s, key)[b])
  {
    if s != [] {
      var n := |s| - 1;
      var d := DedupBy(s[..n], key);
      var x := s[n];
      DedupByDistinct(s[..n], key);
      if KeyIn(d, key, key(x)) {
        assert DedupBy(s, key) == d;
      } else {
        var r := d + [x];
        assert DedupBy(s, key) == r;
        forall a, b | 0 <= a < b < |r| ensures key(r[a]) != key(r[b]) {
          assert r[a] == d[a];
          if b < |d| {
            assert r[b] == d[b];
            assert key(d[a]) != key(d[b]);
          } else {
            assert r[b] == x;
            assert key(d[a]) != key(x);
          }
        }
      }
    }
  }

  /** One step of `DedupBy`: the last element is kept iff it is the first with its key. */
  lemma DedupByStep<T, K>(s: seq<T>, key: T -> K)
    requires s != []
    ensures DedupBy(s, key) == DedupBy(s[..|s| - 1], key)
                             + (if FirstWithKey(s, key, |s| - 1) then [s[|s| - 1]] else [])
  {
    var n := |s| - 1;
    var init := s[..n];
    var d := DedupBy(init, key);
    var x := s[n];
    DedupByKeys(init, key);
    if KeyIn(d, key, key(x)) {
      var k :| 0 <= k < |d| && key(d[k]) == key(x);
      assert d[k] in init;
      var i :| 0 <= i < |init| && init[i] == d[k];
      assert key(s[i]) == key(s[n]);
      assert !FirstWithKey(s, key, n);
    } else {
      forall i | 0 <= i < n ensures key(s[i]) != key(s[n]) {
        assert init[i] == s[i];
        assert KeyIn(d, key, key(init[i]));
      }
      assert FirstWithKey(s, key, n);
    }
  }
  /** `DedupBy` keeps exactly the first element of each key, in input order. */
  lemma {:induction false} DedupByIsFirstOccurrences<T, K>(s: seq<T>, key: T -> K, n: nat)
    requires n <= |s|
    ensures DedupBy(s[..n], key) == FirstOccurrences(s, key, n)
  {
    if n > 0 {
      var p := s[..n];
      assert p[..n - 1] == s[..n - 1];
      DedupByIsFirstOccurrences(s, key, n - 1);
      DedupByStep(p, key);
      assert FirstWithKey(p, key, n - 1) <==> FirstWithKey(s, key, n - 1) by {
        assert forall i :: 0 <= i < n ==> p[i] == s[i];
      }
    }
  }
}
