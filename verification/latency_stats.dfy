/** Latency statistics: nearest-rank percentiles of a sorted list. Latencies are whole numbers of some unit. */
module LatencyStats {

  ghost predicate Sorted(s: seq<int>) {
    forall i, j :: 0 <= i < j < |s| ==> s[i] <= s[j]
  }

  /** The least whole number that is at least p hundredths of n. */
  function Rank(p: nat, n: nat): (r: nat)
    ensures 100 * r >= p * n > 100 * (r - 1)
  {
    (p * n + 99) / 100
  }

  function Percentile(sorted: seq<int>, p: nat): int {
    if sorted == [] then 0
    else
      var last := |sorted| - 1;
      var i := if Rank(p, |sorted|) - 1 < last then Rank(p, |sorted|) - 1 else last;
      sorted[if i < 0 then 0 else i]
  }

  function AtMost(s: seq<int>, v: int): nat {
    if s == [] then 0 else (if s[0] <= v then 1 else 0) + AtMost(s[1..], v)
  }

  function Below(s: seq<int>, v: int): nat {
    if s == [] then 0 else (if s[0] < v then 1 else 0) + Below(s[1..], v)
  }

  lemma {:induction false} EnoughAtMost(s: seq<int>, k: nat, v: int)
    requires k <= |s| && forall i :: 0 <= i < k ==> s[i] <= v
    ensures AtMost(s, v) >= k
  {
    if k > 0 {
      EnoughAtMost(s[1..], k - 1, v);
    }
  }

  lemma {:induction false} FewBelow(s: seq<int>, k: nat, v: int)
    requires k <= |s| && forall i :: k <= i < |s| ==> s[i] >= v
    ensures Below(s, v) <= k
  {
    if s != [] {
      FewBelow(s[1..], if k > 0 then k - 1 else 0, v);
    }
  }

  lemma RankWithin(p: nat, n: nat)
    requires p <= 100 && n > 0
    ensures Rank(p, n) <= n
    ensures p > 0 ==> Rank(p, n) >= 1
  {
    assert p * n <= 100 * n;
    if p > 0 {
      assert p * n >= 1;
    }
  }

  lemma RankGrows(p: nat, q: nat, n: nat)
    requires p <= q
    ensures Rank(p, n) <= Rank(q, n)
  {
    assert p * n <= q * n;
  }

  lemma PercentileAt(s: seq<int>, p: nat)
    requires s != [] && p <= 100
    ensures Rank(p, |s|) <= |s| && Percentile(s, p) == s[if Rank(p, |s|) == 0 then 0 else Rank(p, |s|) - 1]
  {
    RankWithin(p, |s|);
  }

  /** The p-th percentile is the nearest rank: enough entries are at most it, and too few are below it. */
  lemma PercentileIsNearestRank(s: seq<int>, p: nat)
    requires Sorted(s) && s != [] && p <= 100
    ensures var v := Percentile(s, p);
      && v in s
      && AtMost(s, v) >= Rank(p, |s|)
      && (p > 0 ==> Below(s, v) < Rank(p, |s|))
  {
    var v, r := Percentile(s, p), Rank(p, |s|);
    PercentileAt(s, p);
    EnoughAtMost(s, r, v);
    if p > 0 {
      RankWithin(p, |s|);
      FewBelow(s, r - 1, v);
    }
  }

  /** Nothing measured has percentile zero; the zeroth percentile is the least. */
  lemma LowestPercentile(s: seq<int>, p: nat)
    ensures Percentile([], p) == 0
    ensures s != [] ==> Percentile(s, 0) == s[0]
  {
  }

  /** A higher percentile is never smaller. */
  lemma PercentileGrows(s: seq<int>, p: nat, q: nat)
    requires Sorted(s) && p <= q <= 100
    ensures Percentile(s, p) <= Percentile(s, q)
  {
    if s != [] {
      RankGrows(p, q, |s|);
      RankWithin(q, |s|);
    }
  }

  // ---------------------------------------------------------------------------------------
  //  Statistics
  // ---------------------------------------------------------------------------------------

  function Insert(sorted: seq<int>, x: int): seq<int> {
    if sorted == [] || x < sorted[0] then [x] + sorted else [sorted[0]] + Insert(sorted[1..], x)
  }

  function Sort(s: seq<int>): seq<int> {
    if s == [] then [] else Insert(Sort(s[1..]), s[0])
  }

  lemma {:induction false} InsertAbove(s: seq<int>, x: int, lo: int)
    requires lo <= x && forall i :: 0 <= i < |s| ==> lo <= s[i]
    ensures forall i :: 0 <= i < |Insert(s, x)| ==> lo <= Insert(s, x)[i]
  {
    if s != [] && x >= s[0] {
      InsertAbove(s[1..], x, lo);
    }
  }

  lemma {:induction false} InsertKeepsSorted(s: seq<int>, x: int)
    requires Sorted(s)
    ensures Sorted(Insert(s, x))
  {
    if s != [] && x >= s[0] {
      InsertKeepsSorted(s[1..], x);
      InsertAbove(s[1..], x, s[0]);
    }
  }

  lemma HeadAndTail(s: seq<int>)
    requires s != []
    ensures multiset(s) == multiset{s[0]} + multiset(s[1..])
  {
    assert s == [s[0]] + s[1..];
  }

  lemma {:induction false} InsertAddsOne(s: seq<int>, x: int)
    ensures multiset(Insert(s, x)) == multiset(s) + multiset{x}
  {
    if s != [] && x >= s[0] {
      InsertAddsOne(s[1..], x);
      HeadAndTail(s);
      HeadAndTail(Insert(s, x));
      assert Insert(s, x)[1..] == Insert(s[1..], x);
    }
  }

  lemma {:induction false} SortSorts(s: seq<int>)
    ensures Sorted(Sort(s)) && multiset(Sort(s)) == multiset(s)
  {
    if s != [] {
      SortSorts(s[1..]);
      InsertKeepsSorted(Sort(s[1..]), s[0]);
      InsertAddsOne(Sort(s[1..]), s[0]);
      HeadAndTail(s);
    }
  }

  /** The first of a sorted list is the least of its elements, however they are listed. */
  lemma HeadIsLeast(a: seq<int>, b: seq<int>)
    requires Sorted(a) && Sorted(b) && a != [] && b != [] && multiset(a) == multiset(b)
    ensures a[0] <= b[0]
  {
    assert b[0] in multiset(a);
    var i :| 0 <= i < |a| && a[i] == b[0];
  }

  lemma TailsAgree(a: seq<int>, b: seq<int>)
    requires a != [] && b != [] && a[0] == b[0] && multiset(a) == multiset(b)
    ensures multiset(a[1..]) == multiset(b[1..])
  {
    HeadAndTail(a);
    HeadAndTail(b);
    assert multiset(a[1..]) == multiset(a) - multiset{a[0]};
    assert multiset(b[1..]) == multiset(b) - multiset{b[0]};
  }

  lemma SameLength(a: seq<int>, b: seq<int>)
    requires multiset(a) == multiset(b)
    ensures |a| == |b|
  {
    assert |a| == |multiset(a)| == |multiset(b)| == |b|;
  }

  lemma {:induction false} SortedIsUnique(a: seq<int>, b: seq<int>)
    requires Sorted(a) && Sorted(b) && multiset(a) == multiset(b)
    ensures a == b
  {
    SameLength(a, b);
    if a != [] {
      HeadIsLeast(a, b);
      HeadIsLeast(b, a);
      TailsAgree(a, b);
      SortedIsUnique(a[1..], b[1..]);
      assert a == [a[0]] + a[1..] && b == [b[0]] + b[1..];
    }
  }

  function Sum(s: seq<int>): int {
    if s == [] then 0 else s[0] + Sum(s[1..])
  }

  /** avg is the exact quotient sum / count. */
  datatype Stats = Stats(count: nat, sum: int, avg: real, p50: int, p95: int, p99: int, max: int, min: int)

  function StatsOf(sorted: seq<int>): Stats {
    if sorted == [] then Stats(0, 0, 0.0, 0, 0, 0, 0, 0)
    else Stats(|sorted|, Sum(sorted), Sum(sorted) as real / |sorted| as real, Percentile(sorted, 50), Percentile(sorted, 95),
               Percentile(sorted, 99), sorted[|sorted| - 1], sorted[0])
  }

  lemma {:induction false} SumWithin(s: seq<int>, lo: int, hi: int)
    requires forall i :: 0 <= i < |s| ==> lo <= s[i] <= hi
    ensures lo * |s| <= Sum(s) <= hi * |s|
  {
    if s != [] {
      SumWithin(s[1..], lo, hi);
      assert lo * |s| == lo * |s[1..]| + lo && hi * |s| == hi * |s[1..]| + hi;
    }
  }

  lemma QuotientAtLeast(x: real, n: real, sum: real, lo: real)
    requires n > 0.0 && x * n == sum && lo * n <= sum
    ensures lo <= x
  {
    assert (x - lo) * n >= 0.0;
  }

  lemma QuotientWithin(sum: int, n: int, lo: int, hi: int)
    requires n > 0 && lo * n <= sum <= hi * n
    ensures lo as real <= sum as real / n as real <= hi as real
  {
    var x := sum as real / n as real;
    assert x * n as real == sum as real;
    assert (lo as real) * (n as real) == (lo * n) as real && (hi as real) * (n as real) == (hi * n) as real;
    QuotientAtLeast(x, n as real, sum as real, lo as real);
    assert (-x) * (n as real) == -(sum as real) && (-(hi as real)) * (n as real) == -((hi * n) as real);
    QuotientAtLeast(-x, n as real, -(sum as real), -(hi as real));
  }

  /** Sort a copy and read the statistics off it. */
  method ComputeStats(latencies: seq<int>) returns (stats: Stats)
    ensures stats == StatsOf(Sort(latencies))
    ensures latencies == [] ==> stats == Stats(0, 0, 0.0, 0, 0, 0, 0, 0)
    ensures latencies != [] ==> stats.min <= stats.p50 <= stats.p95 <= stats.p99 <= stats.max
    ensures latencies != [] ==> stats.min as real <= stats.avg <= stats.max as real
    ensures latencies != [] ==> stats.min in latencies && stats.max in latencies
    ensures stats.count == |latencies| && stats.sum == Sum(latencies)
    ensures latencies != [] ==> stats.avg == Sum(latencies) as real / |latencies| as real
    ensures latencies != [] ==>
      NearestRank(latencies, stats.p50, 50) && NearestRank(latencies, stats.p95, 95) && NearestRank(latencies, stats.p99, 99)
  {
    if latencies == [] {
      return Stats(0, 0, 0.0, 0, 0, 0, 0, 0);
    }
    var sorted := Sort(latencies);
    SortSorts(latencies);
    SortKeepsLength(latencies);
    var sum := 0;
    for i := 0 to |sorted|
      invariant sum + Sum(sorted[i..]) == Sum(sorted)
    {
      assert sorted[i..][1..] == sorted[i + 1..];
      sum := sum + sorted[i];
    }
    stats := Stats(|sorted|, sum, sum as real / |sorted| as real, Percentile(sorted, 50), Percentile(sorted, 95),
                   Percentile(sorted, 99), sorted[|sorted| - 1], sorted[0]);
    StatsInOrder(sorted);
    StatsAreOf(latencies, sorted);
  }

  lemma StatsAreOf(s: seq<int>, sorted: seq<int>)
    requires s != [] && sorted == Sort(s)
    ensures var st := StatsOf(sorted);
      && st.min in s && st.max in s && st.count == |s| && st.sum == Sum(s)
      && NearestRank(s, st.p50, 50) && NearestRank(s, st.p95, 95) && NearestRank(s, st.p99, 99)
  {
    SortSorts(s);
    SortKeepsLength(s);
    SameElements(sorted, s, 0);
    SameElements(sorted, s, |sorted| - 1);
    SortCounts(s, 0);
    PercentileOfUnsorted(s, sorted, 50);
    PercentileOfUnsorted(s, sorted, 95);
    PercentileOfUnsorted(s, sorted, 99);
  }

  /** The value occurs, at least p hundredths of the entries are at most it, and fewer are below it. */
  ghost predicate NearestRank(s: seq<int>, v: int, p: nat) {
    v in s && 100 * AtMost(s, v) >= p * |s| > 100 * Below(s, v)
  }

  /** Sums and counts do not depend on the order of the entries. */
  lemma {:induction false} InsertCounts(s: seq<int>, x: int, v: int)
    ensures Sum(Insert(s, x)) == Sum(s) + x
    ensures AtMost(Insert(s, x), v) == AtMost(s, v) + if x <= v then 1 else 0
    ensures Below(Insert(s, x), v) == Below(s, v) + if x < v then 1 else 0
  {
    if s != [] && x >= s[0] {
      InsertCounts(s[1..], x, v);
    }
  }

  lemma {:induction false} SortCounts(s: seq<int>, v: int)
    ensures Sum(Sort(s)) == Sum(s) && AtMost(Sort(s), v) == AtMost(s, v) && Below(Sort(s), v) == Below(s, v)
  {
    if s != [] {
      SortCounts(s[1..], v);
      InsertCounts(Sort(s[1..]), s[0], v);
    }
  }

  lemma PercentileOfUnsorted(s: seq<int>, sorted: seq<int>, p: nat)
    requires s != [] && sorted == Sort(s) && 0 < p <= 100
    ensures NearestRank(s, Percentile(sorted, p), p)
  {
    SortSorts(s);
    SortKeepsLength(s);
    var v := Percentile(sorted, p);
    PercentileIsNearestRank(sorted, p);
    SortCounts(s, v);
    assert v in multiset(sorted);
  }

  lemma SortKeepsLength(s: seq<int>)
    ensures |Sort(s)| == |s|
  {
    SortSorts(s);
    assert |multiset(Sort(s))| == |multiset(s)|;
  }

  lemma SameElements(a: seq<int>, b: seq<int>, i: nat)
    requires multiset(a) == multiset(b) && i < |a|
    ensures a[i] in b
  {
    assert a[i] in multiset(b);
  }

  lemma StatsInOrder(sorted: seq<int>)
    requires Sorted(sorted) && sorted != []
    ensures var st := StatsOf(sorted);
      && st.min <= st.p50 <= st.p95 <= st.p99 <= st.max
      && st.min as real <= st.avg <= st.max as real
  {
    PercentileGrows(sorted, 50, 95);
    PercentileGrows(sorted, 95, 99);
    PercentileIsNearestRank(sorted, 50);
    PercentileIsNearestRank(sorted, 99);
    SumWithin(sorted, sorted[0], sorted[|sorted| - 1]);
    QuotientWithin(Sum(sorted), |sorted|, sorted[0], sorted[|sorted| - 1]);
  }

  /** The statistics depend only on how often each latency occurs. */
  lemma StatsIgnoreOrder(a: seq<int>, b: seq<int>)
    requires multiset(a) == multiset(b)
    ensures StatsOf(Sort(a)) == StatsOf(Sort(b))
  {
    SortSorts(a);
    SortSorts(b);
    SortedIsUnique(Sort(a), Sort(b));
  }
}
