/** The relational pieces the repository queries are made of: a WHERE filter that keeps
    storage order, SQL's SUM (which is NULL, not zero, over no rows), ORDER BY ... ASC on a
    date column, and the listing of a keyed table in ascending key order. */
module Query {
  import opened Common
  import opened Utils

  // ---------------------------------------------------------------------------
  // WHERE
  // ---------------------------------------------------------------------------

  /** The rows satisfying `p`, in the order they are stored. */
  function Where<T(!new)>(rows: seq<T>, p: T -> bool): (r: seq<T>)
    ensures |r| <= |rows|
    ensures forall x :: x in r <==> x in rows && p(x)
  {
    if |rows| == 0 then []
    else
      assert rows == [rows[0]] + rows[1..];
      (if p(rows[0]) then [rows[0]] else []) + Where(rows[1..], p)
  }

  /** Filtering distributes over concatenation, so the relative order of the kept rows
      is the storage order. */
  lemma {:induction false} WhereAppend<T(!new)>(a: seq<T>, b: seq<T>, p: T -> bool)
    ensures Where(a + b, p) == Where(a, p) + Where(b, p)
  {
    if |a| > 0 {
      assert (a + b)[1..] == a[1..] + b;
      WhereAppend(a[1..], b, p);
    } else {
      assert a + b == b;
    }
  }

  /** Filters that agree on every row select the same rows. */
  lemma {:induction false} WhereSame<T(!new)>(rows: seq<T>, p: T -> bool, q: T -> bool)
    requires forall i | 0 <= i < |rows| :: p(rows[i]) == q(rows[i])
    ensures Where(rows, p) == Where(rows, q)
  {
    if |rows| > 0 {
      WhereSame(rows[1..], p, q);
    }
  }

  /** A filter every row passes keeps the whole sequence. */
  lemma {:induction false} WhereAll<T(!new)>(rows: seq<T>, p: T -> bool)
    requires forall i | 0 <= i < |rows| :: p(rows[i])
    ensures Where(rows, p) == rows
  {
    if |rows| > 0 {
      WhereAll(rows[1..], p);
    }
  }

  // ---------------------------------------------------------------------------
  // SUM
  // ---------------------------------------------------------------------------

  /** The arithmetic sum of `f` over the rows (0 over none). */
  function SumOf<T(!new)>(rows: seq<T>, f: T -> real): real {
    if |rows| == 0 then 0.0 else f(rows[0]) + SumOf(rows[1..], f)
  }

  /** `SELECT SUM(f) ... WHERE p`: NULL when no row matches, the sum otherwise. */
  function Sum<T(!new)>(rows: seq<T>, p: T -> bool, f: T -> real): (r: Option<real>)
    ensures r.None? <==> forall x :: x in rows ==> !p(x)
  {
    var matched := Where(rows, p);
    if |matched| == 0 then None
    else
      assert matched[0] in rows;
      Some(SumOf(matched, f))
  }

  lemma {:induction false} SumOfAppend<T(!new)>(a: seq<T>, b: seq<T>, f: T -> real)
    ensures SumOf(a + b, f) == SumOf(a, f) + SumOf(b, f)
  {
    if |a| > 0 {
      assert (a + b)[1..] == a[1..] + b;
      SumOfAppend(a[1..], b, f);
    } else {
      assert a + b == b;
    }
  }

  /** A sum of pointwise sums is the sum of the two sums. */
  lemma {:induction false} SumOfAdd<T(!new)>(rows: seq<T>, f: T -> real, g: T -> real, h: T -> real)
    requires forall x :: h(x) == f(x) + g(x)
    ensures SumOf(rows, h) == SumOf(rows, f) + SumOf(rows, g)
  {
    if |rows| > 0 {
      SumOfAdd(rows[1..], f, g, h);
    }
  }

  /** Non-negative terms give a non-negative sum. */
  lemma {:induction false} SumOfNonNegative<T(!new)>(rows: seq<T>, f: T -> real)
    requires forall i | 0 <= i < |rows| :: f(rows[i]) >= 0.0
    ensures SumOf(rows, f) >= 0.0
  {
    if |rows| > 0 {
      SumOfNonNegative(rows[1..], f);
    }
  }

  /** Storing one more row changes the aggregate only if the row matches, and then by
      exactly its term; from NULL the aggregate becomes that term. */
  lemma SumSnoc<T(!new)>(rows: seq<T>, x: T, p: T -> bool, f: T -> real)
    ensures !p(x) ==> Sum(rows + [x], p, f) == Sum(rows, p, f)
    ensures p(x) && Sum(rows, p, f).None? ==> Sum(rows + [x], p, f) == Some(f(x))
    ensures p(x) && Sum(rows, p, f).Some? ==> Sum(rows + [x], p, f) == Some(Sum(rows, p, f).value + f(x))
  {
    WhereAppend(rows, [x], p);
    var tail := Where([x], p);
    assert tail == (if p(x) then [x] else []) + Where([x][1..], p);
    assert [x][1..] == [];
    SumOfAppend(Where(rows, p), tail, f);
    assert SumOf([x], f) == f(x) + SumOf([x][1..], f);
    if !p(x) {
      assert Where(rows, p) + tail == Where(rows, p);
    }
  }

  // ---------------------------------------------------------------------------
  // ORDER BY date ASC
  // ---------------------------------------------------------------------------

  predicate SortedBy<T(!new)>(s: seq<T>, key: T -> LocalDateTime) {
    forall i, j | 0 <= i < j < |s| :: NotAfter(key(s[i]), key(s[j]))
  }

  /** A row no later than every row of a sorted sequence can go in front of it. */
  lemma ConsSorted<T(!new)>(x: T, s: seq<T>, key: T -> LocalDateTime)
    requires SortedBy(s, key)
    requires forall j | 0 <= j < |s| :: NotAfter(key(x), key(s[j]))
    ensures SortedBy([x] + s, key)
  {
    var r := [x] + s;
    forall i, j | 0 <= i < j < |r|
      ensures NotAfter(key(r[i]), key(r[j]))
    {
      assert r[j] == s[j - 1];
      if i > 0 {
        assert r[i] == s[i - 1];
      }
    }
  }

  /** In a sorted sequence every row is no earlier than the first. */
  lemma HeadBound<T(!new)>(x: T, s: seq<T>, key: T -> LocalDateTime)
    requires SortedBy(s, key) && |s| > 0 && NotAfter(key(x), key(s[0]))
    ensures forall j | 0 <= j < |s| :: NotAfter(key(x), key(s[j]))
  {
    forall j | 0 <= j < |s|
      ensures NotAfter(key(x), key(s[j]))
    {
      if j > 0 {
        NotAfterTransitive(key(x), key(s[0]), key(s[j]));
      }
    }
  }

  /** Places `x` in front of the first row whose key is not before its own. */
  function InsertBy<T(!new)>(x: T, s: seq<T>, key: T -> LocalDateTime): (r: seq<T>)
    requires SortedBy(s, key)
    ensures SortedBy(r, key)
    ensures multiset(r) == multiset(s) + multiset{x}
  {
    if |s| == 0 then [x]
    else if NotAfter(key(x), key(s[0])) then
      HeadBound(x, s, key);
      ConsSorted(x, s, key);
      [x] + s
    else
      assert s == [s[0]] + s[1..];
      var rest := InsertBy(x, s[1..], key);
      NotAfterTotal(key(x), key(s[0]));
      assert forall j | 0 <= j < |rest| :: NotAfter(key(s[0]), key(rest[j])) by {
        forall j | 0 <= j < |rest| ensures NotAfter(key(s[0]), key(rest[j])) {
          assert rest[j] in multiset(rest);
          if rest[j] != x {
            assert rest[j] in multiset(s[1..]);
            var k :| 0 <= k < |s[1..]| && s[1..][k] == rest[j];
            assert s[k + 1] == rest[j];
          }
        }
      }
      ConsSorted(s[0], rest, key);
      [s[0]] + rest
  }

  /** An insertion sort by `key`. SQL leaves the order of rows with equal keys open; this
      model puts them in storage order. */
  function SortBy<T(!new)>(rows: seq<T>, key: T -> LocalDateTime): (r: seq<T>)
    ensures SortedBy(r, key)
    ensures multiset(r) == multiset(rows)
  {
    if |rows| == 0 then []
    else
      assert rows == [rows[0]] + rows[1..];
      InsertBy(rows[0], SortBy(rows[1..], key), key)
  }

  /** Sorting a filter keeps exactly the filtered rows, each as often as it is stored. */
  lemma SortedFilter<T(!new)>(rows: seq<T>, p: T -> bool, key: T -> LocalDateTime)
    ensures SortedBy(SortBy(Where(rows, p), key), key)
    ensures forall x :: x in SortBy(Where(rows, p), key) <==> x in rows && p(x)
  {
    var w := Where(rows, p);
    var s := SortBy(w, key);
    forall x
      ensures x in s <==> x in rows && p(x)
    {
      assert x in s <==> x in multiset(s);
      assert x in w <==> x in multiset(w);
    }
  }

  // ---------------------------------------------------------------------------
  // findAll over a keyed table
  // ---------------------------------------------------------------------------

  /** The rows stored under keys `lo` to `hi - 1`, in ascending key order. */
  function Listing<T(!new)>(m: map<int, T>, lo: int, hi: int): (r: seq<T>)
    decreases hi - lo
    ensures forall x :: x in r ==> exists k :: lo <= k < hi && k in m && m[k] == x
    ensures forall k | lo <= k < hi && k in m :: m[k] in r
  {
    if lo >= hi then []
    else (if lo in m then [m[lo]] else []) + Listing(m, lo + 1, hi)
  }

  /** The keys of `m` between `lo` and `hi - 1`. */
  function KeysIn<T(!new)>(m: map<int, T>, lo: int, hi: int): set<int> {
    set k | k in m && lo <= k < hi
  }

  /** The listing holds one row per key in the range. */
  lemma {:induction false} ListingLength<T(!new)>(m: map<int, T>, lo: int, hi: int)
    decreases hi - lo
    ensures |Listing(m, lo, hi)| == |KeysIn(m, lo, hi)|
  {
    if lo >= hi {
      assert KeysIn(m, lo, hi) == {};
    } else {
      ListingLength(m, lo + 1, hi);
      if lo in m {
        assert KeysIn(m, lo, hi) == {lo} + KeysIn(m, lo + 1, hi);
      } else {
        assert KeysIn(m, lo, hi) == KeysIn(m, lo + 1, hi);
      }
    }
  }

  /** When every key lies in the range, the listing holds one row per stored key. */
  lemma ListingAll<T(!new)>(m: map<int, T>, lo: int, hi: int)
    requires forall k | k in m :: lo <= k < hi
    ensures |Listing(m, lo, hi)| == |m|
  {
    ListingLength(m, lo, hi);
    assert KeysIn(m, lo, hi) == m.Keys;
  }

  /** Storing under the next key appends to the listing: a row inserted last is listed last. */
  lemma {:induction false} ListingSnoc<T(!new)>(m: map<int, T>, lo: int, hi: int, x: T)
    requires lo <= hi
    decreases hi - lo
    ensures Listing(m[hi := x], lo, hi + 1) == Listing(m, lo, hi) + [x]
  {
    if lo < hi {
      ListingSnoc(m, lo + 1, hi, x);
    }
  }

  /** Replacing the row under a stored key leaves the listing as long as it was, and
      removing one shortens it by one. */
  lemma ListingReplaceRemove<T(!new)>(m: map<int, T>, lo: int, hi: int, k: int, x: T)
    requires forall j | j in m :: lo <= j < hi
    requires k in m
    ensures |Listing(m[k := x], lo, hi)| == |Listing(m, lo, hi)|
    ensures |Listing(m - {k}, lo, hi)| == |Listing(m, lo, hi)| - 1
  {
    ListingAll(m, lo, hi);
    ListingAll(m[k := x], lo, hi);
    ListingAll(m - {k}, lo, hi);
    assert (m - {k}).Keys == m.Keys - {k};
  }
}
