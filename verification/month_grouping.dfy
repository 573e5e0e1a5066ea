/** The month and year→month groupings that the asset service and the month pickers build
    while enumerating a fetch result, stated as functions over the fetched sequence, with
    the reference definitions they are proved against. */
module MonthGrouping {
  import opened Media

  /** Month key (start of month) → the assets created in that month. */
  type Buckets = map<Date, seq<Asset>>

  /** Year → month key → assets. */
  type YearBuckets = map<int, Buckets>

  predicate Dated(a: Asset) {
    a.creationDate.Some?
  }

  /** The fetch result is ordered by ascending creation date (undated assets are not ordered). */
  predicate SortedByDate(s: seq<Asset>) {
    forall i, j :: 0 <= i < j < |s| && Dated(s[i]) && Dated(s[j]) ==>
      s[i].creationDate.value <= s[j].creationDate.value
  }

  /** Number of assets that have a creation date. */
  function CountDated(s: seq<Asset>): (n: nat)
    ensures n <= |s|
  {
    if s == [] then 0 else CountDated(s[..|s| - 1]) + (if Dated(s[|s| - 1]) then 1 else 0)
  }

  /** `groupedByMonth[key, default: []].append(a)` */
  function AppendTo(m: Buckets, key: Date, a: Asset): Buckets {
    m[key := (if key in m then m[key] else []) + [a]]
  }

  /** The dictionary the enumeration loop has built after visiting `s`: each dated asset
      appended to the bucket of its start of month, undated ones skipped. */
  function GroupByMonth(s: seq<Asset>, startOfMonth: Date -> Date): Buckets
    decreases |s|
  {
    if s == [] then map[]
    else
      var m := GroupByMonth(s[..|s| - 1], startOfMonth);
      var a := s[|s| - 1];
      if Dated(a) then AppendTo(m, startOfMonth(a.creationDate.value), a) else m
  }

  /** Reference definition: the dated assets of `s` whose start of month is `key`, in the order of `s`. */
  function InMonth(s: seq<Asset>, startOfMonth: Date -> Date, key: Date): seq<Asset>
    decreases |s|
  {
    if s == [] then []
    else
      var a := s[|s| - 1];
      InMonth(s[..|s| - 1], startOfMonth, key)
        + (if Dated(a) && startOfMonth(a.creationDate.value) == key then [a] else [])
  }

  /** The grouping is the reference partition: a key is present exactly when its month has
      an asset (so no bucket is empty), and each bucket holds exactly that month's assets in
      fetch order. */
  lemma {:induction false} GroupByMonthIsPartition(s: seq<Asset>, startOfMonth: Date -> Date)
    ensures forall key :: key in GroupByMonth(s, startOfMonth) <==> InMonth(s, startOfMonth, key) != []
    ensures forall key :: key in GroupByMonth(s, startOfMonth) ==>
              GroupByMonth(s, startOfMonth)[key] == InMonth(s, startOfMonth, key)
    decreases |s|
  {
    if s != [] {
      GroupByMonthIsPartition(s[..|s| - 1], startOfMonth);
    }
  }

  /** Each asset occurs in the bucket of its own month exactly as often as in the fetch, and
      in no other bucket; undated assets occur nowhere. */
  lemma {:induction false} InMonthMultiplicity(s: seq<Asset>, startOfMonth: Date -> Date, key: Date, x: Asset)
    ensures multiset(InMonth(s, startOfMonth, key))[x] ==
            if Dated(x) && startOfMonth(x.creationDate.value) == key then multiset(s)[x] else 0
    decreases |s|
  {
    if s != [] {
      InMonthMultiplicity(s[..|s| - 1], startOfMonth, key, x);
      assert s == s[..|s| - 1] + [s[|s| - 1]];
    }
  }

  lemma {:induction false} InMonthElements(s: seq<Asset>, startOfMonth: Date -> Date, key: Date)
    ensures forall x :: x in InMonth(s, startOfMonth, key) ==>
              x in s && Dated(x) && startOfMonth(x.creationDate.value) == key
    decreases |s|
  {
    if s != [] {
      InMonthElements(s[..|s| - 1], startOfMonth, key);
    }
  }

  /** Filtering a date-sorted fetch keeps it sorted, so every bucket is in ascending date order. */
  lemma {:induction false} InMonthSorted(s: seq<Asset>, startOfMonth: Date -> Date, key: Date)
    requires SortedByDate(s)
    ensures SortedByDate(InMonth(s, startOfMonth, key))
    decreases |s|
  {
    if s != [] {
      var p := s[..|s| - 1];
      var a := s[|s| - 1];
      assert SortedByDate(p) by {
        forall i, j | 0 <= i < j < |p| && Dated(p[i]) && Dated(p[j])
          ensures p[i].creationDate.value <= p[j].creationDate.value
        {
          assert p[i] == s[i] && p[j] == s[j];
        }
      }
      InMonthSorted(p, startOfMonth, key);
      InMonthElements(p, startOfMonth, key);
      var q := InMonth(p, startOfMonth, key);
      if Dated(a) && startOfMonth(a.creationDate.value) == key {
        var r := q + [a];
        forall i, j | 0 <= i < j < |r| && Dated(r[i]) && Dated(r[j])
          ensures r[i].creationDate.value <= r[j].creationDate.value
        {
          if j < |q| {
            assert r[i] == q[i] && r[j] == q[j];
          } else {
            assert r[i] in p;
            var k :| 0 <= k < |p| && p[k] == r[i];
            assert s[k] == r[i] && s[|s| - 1] == r[j];
          }
        }
      }
    }
  }

  /** Some key of a non-empty map. */
  ghost function Pick<K, V>(m: map<K, V>): (k: K)
    requires |m| != 0
    ensures k in m
  {
    assert m.Keys != {};
    var k :| k in m; k
  }

  /** Sum of `size` over the values of a map. */
  ghost function SumBy<K, V>(m: map<K, V>, size: V -> nat): nat
    decreases |m|
  {
    if |m| == 0 then 0
    else
      var k := Pick(m);
      assert |m - {k}| < |m| by { assert (m - {k}).Keys == m.Keys - {k}; }
      size(m[k]) + SumBy(m - {k}, size)
  }

  lemma RemoveKeyCardinality<K, V>(m: map<K, V>, k: K)
    requires k in m
    ensures |m - {k}| == |m| - 1
  {
    assert (m - {k}).Keys == m.Keys - {k};
  }

  /** The sum does not depend on which key is taken first. */
  lemma {:induction false} SumByRemove<K, V>(m: map<K, V>, size: V -> nat, k: K)
    requires k in m
    ensures SumBy(m, size) == size(m[k]) + SumBy(m - {k}, size)
    decreases |m|
  {
    assert |m| != 0 by { assert k in m.Keys; }
    var j := Pick(m);
    if j != k {
      var mj := m - {j};
      var mk := m - {k};
      RemoveKeyCardinality(m, j);
      RemoveKeyCardinality(m, k);
      SumByRemove(mj, size, k);
      SumByRemove(mk, size, j);
      assert mj - {k} == mk - {j};
    }
  }

  lemma SumByUpdatePresent<K, V>(m: map<K, V>, size: V -> nat, k: K, v: V)
    requires k in m
    ensures SumBy(m[k := v], size) == SumBy(m, size) - size(m[k]) + size(v)
  {
    var u := m[k := v];
    SumByRemove(u, size, k);
    SumByRemove(m, size, k);
    assert u - {k} == m - {k};
  }

  lemma SumByUpdateAbsent<K, V>(m: map<K, V>, size: V -> nat, k: K, v: V)
    requires k !in m
    ensures SumBy(m[k := v], size) == SumBy(m, size) + size(v)
  {
    var u := m[k := v];
    SumByRemove(u, size, k);
    assert u - {k} == m;
  }

  lemma SumByUpdate<K, V>(m: map<K, V>, size: V -> nat, k: K, v: V)
    ensures SumBy(m[k := v], size) == SumBy(m, size) - (if k in m then size(m[k]) else 0) + size(v)
  {
    if k in m {
      SumByUpdatePresent(m, size, k, v);
    } else {
      SumByUpdateAbsent(m, size, k, v);
    }
  }

  function BucketSize(b: seq<Asset>): nat {
    |b|
  }

  /** The bucket sizes add up to the number of dated assets fetched. */
  lemma {:induction false} GroupByMonthTotal(s: seq<Asset>, startOfMonth: Date -> Date)
    ensures SumBy(GroupByMonth(s, startOfMonth), BucketSize) == CountDated(s)
    decreases |s|
  {
    if s != [] {
      var p := s[..|s| - 1];
      var a := s[|s| - 1];
      GroupByMonthTotal(p, startOfMonth);
      if Dated(a) {
        var m := GroupByMonth(p, startOfMonth);
        var key := startOfMonth(a.creationDate.value);
        SumByUpdate(m, BucketSize, key, (if key in m then m[key] else []) + [a]);
      }
    }
  }

  /** `groupedPhotos[year]?[month, default: []].append(a)`, after creating an empty year map when missing. */
  function AppendToYear(g: YearBuckets, year: int, key: Date, a: Asset): YearBuckets {
    var months := if year in g then g[year] else map[];
    g[year := AppendTo(months, key, a)]
  }

  /** The nested dictionary the year→month enumeration loop has built after visiting `s`. */
  function GroupByYear(s: seq<Asset>, yearOf: Date -> int, startOfMonth: Date -> Date): YearBuckets
    decreases |s|
  {
    if s == [] then map[]
    else
      var g := GroupByYear(s[..|s| - 1], yearOf, startOfMonth);
      var a := s[|s| - 1];
      if Dated(a) then AppendToYear(g, yearOf(a.creationDate.value), startOfMonth(a.creationDate.value), a)
      else g
  }

  /** Reference definition: the dated assets of `s` created in `year` whose start of month is `key`, in fetch order. */
  function InYearMonth(s: seq<Asset>, yearOf: Date -> int, startOfMonth: Date -> Date, year: int, key: Date): seq<Asset>
    decreases |s|
  {
    if s == [] then []
    else
      var a := s[|s| - 1];
      InYearMonth(s[..|s| - 1], yearOf, startOfMonth, year, key)
        + (if Dated(a) && yearOf(a.creationDate.value) == year && startOfMonth(a.creationDate.value) == key
           then [a] else [])
  }

  /** The nested grouping is the reference partition; a year is present only with a
      non-empty month under it, and no month list is empty. */
  lemma {:induction false} GroupByYearIsPartition(s: seq<Asset>, yearOf: Date -> int, startOfMonth: Date -> Date)
    ensures forall year :: year in GroupByYear(s, yearOf, startOfMonth) ==>
              GroupByYear(s, yearOf, startOfMonth)[year] != map[]
    ensures forall year, key ::
              (year in GroupByYear(s, yearOf, startOfMonth) && key in GroupByYear(s, yearOf, startOfMonth)[year])
              <==> InYearMonth(s, yearOf, startOfMonth, year, key) != []
    ensures forall year, key ::
              year in GroupByYear(s, yearOf, startOfMonth) && key in GroupByYear(s, yearOf, startOfMonth)[year] ==>
              GroupByYear(s, yearOf, startOfMonth)[year][key] == InYearMonth(s, yearOf, startOfMonth, year, key)
    decreases |s|
  {
    if s != [] {
      GroupByYearIsPartition(s[..|s| - 1], yearOf, startOfMonth);
    }
  }

  lemma {:induction false} InYearMonthMultiplicity(s: seq<Asset>, yearOf: Date -> int, startOfMonth: Date -> Date,
                                                   year: int, key: Date, x: Asset)
    ensures multiset(InYearMonth(s, yearOf, startOfMonth, year, key))[x] ==
            if Dated(x) && yearOf(x.creationDate.value) == year && startOfMonth(x.creationDate.value) == key
            then multiset(s)[x] else 0
    decreases |s|
  {
    if s != [] {
      InYearMonthMultiplicity(s[..|s| - 1], yearOf, startOfMonth, year, key, x);
      assert s == s[..|s| - 1] + [s[|s| - 1]];
    }
  }

  /** Filtering a date-sorted fetch by year and month keeps it sorted, so every year→month
      bucket is in ascending date order; the filter only keeps assets of the fetch. */
  lemma {:induction false} InYearMonthSorted(s: seq<Asset>, yearOf: Date -> int, startOfMonth: Date -> Date,
                                             year: int, key: Date)
    requires SortedByDate(s)
    ensures SortedByDate(InYearMonth(s, yearOf, startOfMonth, year, key))
    ensures forall x :: x in InYearMonth(s, yearOf, startOfMonth, year, key) ==> x in s
    decreases |s|
  {
    if s != [] {
      var p := s[..|s| - 1];
      var a := s[|s| - 1];
      assert SortedByDate(p) by {
        forall i, j | 0 <= i < j < |p| && Dated(p[i]) && Dated(p[j])
          ensures p[i].creationDate.value <= p[j].creationDate.value
        {
          assert p[i] == s[i] && p[j] == s[j];
        }
      }
      InYearMonthSorted(p, yearOf, startOfMonth, year, key);
      var q := InYearMonth(p, yearOf, startOfMonth, year, key);
      if Dated(a) && yearOf(a.creationDate.value) == year && startOfMonth(a.creationDate.value) == key {
        var r := q + [a];
        forall i, j | 0 <= i < j < |r| && Dated(r[i]) && Dated(r[j])
          ensures r[i].creationDate.value <= r[j].creationDate.value
        {
          if j < |q| {
            assert r[i] == q[i] && r[j] == q[j];
          } else {
            assert r[i] in p;
            var k :| 0 <= k < |p| && p[k] == r[i];
            assert s[k] == r[i] && s[|s| - 1] == r[j];
          }
        }
      }
    }
  }

  ghost function YearSize(months: Buckets): nat {
    SumBy(months, BucketSize)
  }

  /** Across all years and months, the buckets hold as many assets as were dated. */
  lemma {:induction false} GroupByYearTotal(s: seq<Asset>, yearOf: Date -> int, startOfMonth: Date -> Date)
    ensures SumBy(GroupByYear(s, yearOf, startOfMonth), YearSize) == CountDated(s)
    decreases |s|
  {
    if s != [] {
      var p := s[..|s| - 1];
      var a := s[|s| - 1];
      GroupByYearTotal(p, yearOf, startOfMonth);
      if Dated(a) {
        var g := GroupByYear(p, yearOf, startOfMonth);
        var year := yearOf(a.creationDate.value);
        var key := startOfMonth(a.creationDate.value);
        var months := if year in g then g[year] else map[];
        SumByUpdate(months, BucketSize, key, (if key in months then months[key] else []) + [a]);
        SumByUpdate(g, YearSize, year, AppendTo(months, key, a));
        assert year !in g ==> YearSize(months) == 0;
      }
    }
  }
}
