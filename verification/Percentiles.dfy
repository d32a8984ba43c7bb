/**
 Percentiles of response times. Samples are reals, and an index such as
 int(n * 0.95) is the exact floor of n * 95 / 100.
 */
module Percentiles {
  import opened Sorting

  predicate Le(a: real, b: real) { a <= b }

  function Sorted(data: seq<real>): (r: seq<real>)
    ensures |r| == |data|
  {
    SortedFacts(data);
    Sort(data, Le)
  }

  lemma SortedFacts(data: seq<real>)
    ensures |Sort(data, Le)| == |data| && multiset(Sort(data, Le)) == multiset(data)
    ensures forall i, j :: 0 <= i <= j < |data| ==> Sort(data, Le)[i] <= Sort(data, Le)[j]
  {
    SortCorrect(data, Le);
    forall i, j | 0 <= i <= j < |data| ensures Sort(data, Le)[i] <= Sort(data, Le)[j] {
      if i < j { assert Le(Sort(data, Le)[i], Sort(data, Le)[j]); }
    }
  }

  /** min(int(n * num / den), n - 1) */
  function RankIndex(n: nat, num: nat, den: nat): (i: nat)
    requires n > 0 && den > 0
    ensures i < n
  {
    var i := n * num / den;
    if i < n - 1 then i else n - 1
  }

  /** The sample at a rank given as a fraction; 0 for an empty list. */
  function Percentile(data: seq<real>, num: nat, den: nat): real
    requires den > 0
  {
    if data == [] then 0.0 else Sorted(data)[RankIndex(|data|, num, den)]
  }

  function P95(data: seq<real>): real { Percentile(data, 95, 100) }
  function P99(data: seq<real>): real { Percentile(data, 99, 100) }
  function P999(data: seq<real>): real { Percentile(data, 999, 1000) }

  /** The median: the middle sample, or the mean of the two middle ones. */
  function P50(data: seq<real>): real {
    if data == [] then 0.0
    else if |data| % 2 == 1 then Sorted(data)[|data| / 2]
    else (Sorted(data)[|data| / 2 - 1] + Sorted(data)[|data| / 2]) / 2.0
  }

  function Min(data: seq<real>): real
    requires data != []
  {
    if |data| == 1 then data[0] else
      var m := Min(data[1..]);
      if data[0] < m then data[0] else m
  }

  function Max(data: seq<real>): real
    requires data != []
  {
    if |data| == 1 then data[0] else
      var m := Max(data[1..]);
      if data[0] > m then data[0] else m
  }

  lemma {:induction false} MinMaxBound(data: seq<real>)
    requires data != []
    ensures Min(data) in data && Max(data) in data
    ensures forall x :: x in data ==> Min(data) <= x <= Max(data)
  {
    if |data| > 1 {
      MinMaxBound(data[1..]);
      assert data == [data[0]] + data[1..];
    }
  }

  lemma SampleInData(data: seq<real>, i: nat)
    requires i < |data|
    ensures Sorted(data)[i] in data
  {
    SortedFacts(data);
    assert Sorted(data)[i] in multiset(Sorted(data));
  }

  /** For every non-empty list: min <= p50 <= p95 <= p99 <= p99.9 <= max. */
  lemma PercentilesOrdered(data: seq<real>)
    requires data != []
    ensures Min(data) <= P50(data) <= P95(data) <= P99(data) <= P999(data) <= Max(data)
  {
    var n := |data|;
    SortedFacts(data);
    MinMaxBound(data);
    RanksOrdered(n);
    SampleInData(data, RankIndex(n, 999, 1000));
    MedianBetween(data);
  }

  lemma RanksOrdered(n: nat)
    requires n > 0
    ensures n / 2 <= RankIndex(n, 95, 100) <= RankIndex(n, 99, 100) <= RankIndex(n, 999, 1000)
  {
  }

  lemma MedianBetween(data: seq<real>)
    requires data != []
    ensures Min(data) <= P50(data) <= Sorted(data)[|data| / 2]
  {
    SortedFacts(data);
    MinMaxBound(data);
    SampleInData(data, |data| / 2);
    if |data| % 2 == 0 { SampleInData(data, |data| / 2 - 1); }
  }

  lemma MulMonotone(n: nat, p: nat, q: nat)
    requires p <= q
    ensures n * p <= n * q
  {
  }

  /** A higher percentile never gives a smaller value. */
  lemma PercentileMonotone(data: seq<real>, p: nat, q: nat)
    requires p <= q
    ensures Percentile(data, p, 100) <= Percentile(data, q, 100)
  {
    if data != [] {
      MulMonotone(|data|, p, q);
      SortedFacts(data);
    }
  }

  // ----- rank

  function Count(data: seq<real>, p: real -> bool): nat {
    if data == [] then 0 else (if p(data[0]) then 1 else 0) + Count(data[1..], p)
  }

  function AtMost(v: real): real -> bool { x => x <= v }
  function AtLeast(v: real): real -> bool { x => x >= v }

  lemma {:induction false} CountConcat(a: seq<real>, b: seq<real>, p: real -> bool)
    ensures Count(a + b, p) == Count(a, p) + Count(b, p)
  {
    if a == [] {
      assert a + b == b;
    } else {
      CountConcat(a[1..], b, p);
      assert (a + b)[1..] == a[1..] + b;
    }
  }

  lemma {:induction false} CountInsert(x: real, s: seq<real>, p: real -> bool)
    ensures Count(Insert(x, s, Le), p) == (if p(x) then 1 else 0) + Count(s, p)
  {
    if s == [] || Le(x, s[0]) {
      assert ([x] + s)[1..] == s;
    } else {
      CountInsert(x, s[1..], p);
      assert ([s[0]] + Insert(x, s[1..], Le))[1..] == Insert(x, s[1..], Le);
    }
  }

  lemma {:induction false} CountSorted(data: seq<real>, p: real -> bool)
    ensures Count(Sort(data, Le), p) == Count(data, p)
  {
    if data != [] {
      CountSorted(data[1..], p);
      CountInsert(data[0], Sort(data[1..], Le), p);
    }
  }

  lemma {:induction false} CountAll(data: seq<real>, p: real -> bool)
    requires forall i :: 0 <= i < |data| ==> p(data[i])
    ensures Count(data, p) == |data|
  {
    if data != [] { CountAll(data[1..], p); }
  }

  lemma {:induction false} CountDisjoint(data: seq<real>, v: real, w: real)
    requires v < w
    ensures Count(data, AtMost(v)) + Count(data, AtLeast(w)) <= |data|
  {
    if data != [] { CountDisjoint(data[1..], v, w); }
  }

  /** v is the sample of rank `index`: enough samples lie on either side of it. */
  ghost predicate HasRank(data: seq<real>, index: nat, v: real) {
    && v in data
    && Count(data, AtMost(v)) >= index + 1
    && Count(data, AtLeast(v)) >= |data| - index
  }

  lemma {:induction false} HeadCounts(s: seq<real>, n: nat, p: real -> bool)
    requires n <= |s| && forall i :: 0 <= i < n ==> p(s[i])
    ensures Count(s, p) >= n
  {
    CountConcat(s[..n], s[n..], p);
    assert s == s[..n] + s[n..];
    CountAll(s[..n], p);
  }

  lemma {:induction false} TailCounts(s: seq<real>, n: nat, p: real -> bool)
    requires n <= |s| && forall i :: n <= i < |s| ==> p(s[i])
    ensures Count(s, p) >= |s| - n
  {
    CountConcat(s[..n], s[n..], p);
    assert s == s[..n] + s[n..];
    CountAll(s[n..], p);
  }

  lemma EnoughBelow(data: seq<real>, index: nat)
    requires index < |data|
    ensures Count(data, AtMost(Sorted(data)[index])) >= index + 1
  {
    SortedFacts(data);
    HeadCounts(Sorted(data), index + 1, AtMost(Sorted(data)[index]));
    CountSorted(data, AtMost(Sorted(data)[index]));
  }

  lemma EnoughAbove(data: seq<real>, index: nat)
    requires index < |data|
    ensures Count(data, AtLeast(Sorted(data)[index])) >= |data| - index
  {
    SortedFacts(data);
    TailCounts(Sorted(data), index, AtLeast(Sorted(data)[index]));
    CountSorted(data, AtLeast(Sorted(data)[index]));
  }

  lemma SortedHasRank(data: seq<real>, index: nat)
    requires index < |data|
    ensures HasRank(data, index, Sorted(data)[index])
  {
    SampleInData(data, index);
    EnoughBelow(data, index);
    EnoughAbove(data, index);
  }

  lemma RankUnique(data: seq<real>, index: nat, v: real, w: real)
    requires HasRank(data, index, v) && HasRank(data, index, w)
    ensures v == w
  {
    if v < w { CountDisjoint(data, v, w); }
    if w < v { CountDisjoint(data, w, v); }
  }

  /** The percentile is the one value with its rank: at least index + 1 samples at most it, at least n - index samples at least it. */
  lemma PercentileIsRank(data: seq<real>, num: nat, den: nat, v: real)
    requires data != [] && den > 0
    ensures var n := |data|; var index := n * num / den;
      v == Percentile(data, num, den) <==> HasRank(data, if index < n - 1 then index else n - 1, v)
  {
    IndexIsRank(data, RankIndex(|data|, num, den), v);
  }

  lemma IndexIsRank(data: seq<real>, index: nat, v: real)
    requires index < |data|
    ensures v == Sorted(data)[index] <==> HasRank(data, index, v)
  {
    SortedHasRank(data, index);
    if HasRank(data, index, v) { RankUnique(data, index, v, Sorted(data)[index]); }
  }

  /** The percentiles an endpoint reports, by their ranks; and 0 without samples. */
  lemma ReportedRanks(data: seq<real>, v: real)
    ensures data == [] ==> P50(data) == P95(data) == P99(data) == P999(data) == 0.0
    ensures var n := |data|; data != [] ==>
      && (v == P95(data) <==> HasRank(data, if n * 95 / 100 < n - 1 then n * 95 / 100 else n - 1, v))
      && (v == P99(data) <==> HasRank(data, if n * 99 / 100 < n - 1 then n * 99 / 100 else n - 1, v))
      && (v == P999(data) <==> HasRank(data, if n * 999 / 1000 < n - 1 then n * 999 / 1000 else n - 1, v))
  {
    if data != [] {
      PercentileIsRank(data, 95, 100, v);
      PercentileIsRank(data, 99, 100, v);
      PercentileIsRank(data, 999, 1000, v);
    }
  }

  ghost predicate Middle(data: seq<real>, lo: real, hi: real)
    requires |data| >= 2
  {
    HasRank(data, |data| / 2 - 1, lo) && HasRank(data, |data| / 2, hi)
  }

  /** The median of an odd number of samples is the one in the middle; of an even number, the mean of the two in the middle. */
  lemma MedianIs(data: seq<real>, v: real)
    requires data != []
    ensures |data| % 2 == 1 ==> (v == P50(data) <==> HasRank(data, |data| / 2, v))
    ensures |data| % 2 == 0 ==>
              (v == P50(data) <==> exists lo, hi :: Middle(data, lo, hi) && v == (lo + hi) / 2.0)
  {
    var s, mid := Sorted(data), |data| / 2;
    if |data| % 2 == 1 {
      IndexIsRank(data, mid, v);
    } else {
      SortedHasRank(data, mid - 1);
      SortedHasRank(data, mid);
      assert Middle(data, s[mid - 1], s[mid]);
      forall lo, hi | Middle(data, lo, hi) ensures lo == s[mid - 1] && hi == s[mid] {
        RankUnique(data, mid - 1, lo, s[mid - 1]);
        RankUnique(data, mid, hi, s[mid]);
      }
    }
  }
}
