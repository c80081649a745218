/** The nearest-rank percentile, written once for capacity reports and once for the load driver's latencies. */
module Percentiles {
  import opened Rounding
  import opened Wrappers

  predicate Ordered(s: seq<real>) {
    forall i, j :: 0 <= i < j < |s| ==> s[i] <= s[j]
  }

  function Insert(x: real, s: seq<real>): seq<real> {
    if s == [] || x <= s[0] then [x] + s else [s[0]] + Insert(x, s[1..])
  }

  /** `sorted`, by insertion. `OrderedPermutationIsUnique` shows that the choice of algorithm does not matter. */
  function Sort(s: seq<real>): seq<real> {
    if s == [] then [] else Insert(s[0], Sort(s[1..]))
  }

  lemma {:induction false} InsertAddsOne(x: real, s: seq<real>)
    ensures multiset(Insert(x, s)) == multiset{x} + multiset(s)
  {
    if s != [] && !(x <= s[0]) {
      InsertAddsOne(x, s[1..]);
      assert s == [s[0]] + s[1..];
    }
  }

  predicate Bounded(low: real, s: seq<real>) {
    forall i :: 0 <= i < |s| ==> low <= s[i]
  }

  lemma {:induction false} InsertStaysBounded(x: real, s: seq<real>, low: real)
    requires Bounded(low, s) && low <= x
    ensures Bounded(low, Insert(x, s))
  {
    if s != [] && !(x <= s[0]) {
      InsertStaysBounded(x, s[1..], low);
    }
  }

  lemma {:induction false} InsertKeepsOrder(x: real, s: seq<real>)
    requires Ordered(s)
    ensures Ordered(Insert(x, s))
  {
    if s != [] && !(x <= s[0]) {
      InsertKeepsOrder(x, s[1..]);
      InsertStaysBounded(x, s[1..], s[0]);
    }
  }

  lemma {:induction false} SortKeeps(s: seq<real>)
    ensures Ordered(Sort(s)) && multiset(Sort(s)) == multiset(s) && |Sort(s)| == |s|
  {
    if s != [] {
      SortKeeps(s[1..]);
      InsertAddsOne(s[0], Sort(s[1..]));
      InsertKeepsOrder(s[0], Sort(s[1..]));
      assert s == [s[0]] + s[1..];
    }
    assert |multiset(Sort(s))| == |multiset(s)|;
  }

  lemma OrderedStartsWithLeast(a: seq<real>, x: real)
    requires Ordered(a) && x in multiset(a)
    ensures a[0] <= x
  {
    var i :| 0 <= i < |a| && a[i] == x;
  }

  lemma SameFirst(a: seq<real>, b: seq<real>)
    requires Ordered(a) && Ordered(b) && multiset(a) == multiset(b) && a != []
    ensures b != [] && a[0] == b[0]
  {
    assert a[0] in multiset(b);
    assert b[0] in multiset(b);
    OrderedStartsWithLeast(a, b[0]);
    OrderedStartsWithLeast(b, a[0]);
  }

  lemma WithoutFirst(a: seq<real>)
    requires a != []
    ensures multiset(a[1..]) == multiset(a) - multiset{a[0]}
  {
    assert a == [a[0]] + a[1..];
  }

  /** There is only one way to order a sample. */
  lemma {:induction false} OrderedPermutationIsUnique(a: seq<real>, b: seq<real>)
    requires Ordered(a) && Ordered(b) && multiset(a) == multiset(b)
    ensures a == b
  {
    if a == [] {
      assert |multiset(b)| == 0;
    } else {
      SameFirst(a, b);
      WithoutFirst(a);
      WithoutFirst(b);
      OrderedPermutationIsUnique(a[1..], b[1..]);
      assert a == [a[0]] + a[1..] && b == [b[0]] + b[1..];
    }
  }

  /** How many values are at most v. */
  function AtMost(s: seq<real>, v: real): nat {
    if s == [] then 0 else (if s[0] <= v then 1 else 0) + AtMost(s[1..], v)
  }

  lemma {:induction false} AtMostOfInsert(x: real, s: seq<real>, v: real)
    ensures AtMost(Insert(x, s), v) == (if x <= v then 1 else 0) + AtMost(s, v)
  {
    if s == [] || x <= s[0] {
      assert ([x] + s)[1..] == s;
    } else {
      AtMostOfInsert(x, s[1..], v);
      assert ([s[0]] + Insert(x, s[1..]))[1..] == Insert(x, s[1..]);
    }
  }

  lemma {:induction false} AtMostOfSort(s: seq<real>, v: real)
    ensures AtMost(Sort(s), v) == AtMost(s, v)
  {
    if s != [] {
      AtMostOfSort(s[1..], v);
      AtMostOfInsert(s[0], Sort(s[1..]), v);
    }
  }

  /** In an ordered sample, at most v are exactly the values before the first one above v. */
  lemma {:induction false} AtMostWhenOrdered(s: seq<real>, v: real, k: nat)
    requires Ordered(s) && k <= |s|
    requires (forall i :: 0 <= i < k ==> s[i] <= v) && (forall i :: k <= i < |s| ==> v < s[i])
    ensures AtMost(s, v) == k
  {
    if s != [] {
      AtMostWhenOrdered(s[1..], v, if k == 0 then 0 else k - 1);
    }
  }

  function Above(s: seq<real>, v: real): (k: nat)
    requires Ordered(s)
    ensures k <= |s| && (forall i :: 0 <= i < k ==> s[i] <= v) && (forall i :: k <= i < |s| ==> v < s[i])
  {
    if s == [] || v < s[0] then 0 else 1 + Above(s[1..], v)
  }

  // ---------------------------------------------------------------- the two percentiles

  /** How many values the percentile has to cover. */
  function Needed(n: nat, ratio: real): int {
    Ceil(ratio * n as real)
  }

  lemma NeededIsInRange(n: nat, ratio: real)
    requires 0.0 <= ratio <= 1.0
    ensures 0 <= Needed(n, ratio) <= n
  {
    assert 0.0 <= ratio * n as real;
    assert ratio * n as real <= 1.0 * n as real;
  }

  /** `percentile` of the capacity tool: it sorts a copy, and refuses an empty sample or a ratio outside [0, 1]. */
  function Percentile(values: seq<real>, ratio: real): Option<real> {
    if values == [] || !(0.0 <= ratio <= 1.0) then None
    else
      SortKeeps(values);
      var ordered := Sort(values);
      var index := Min(|ordered| - 1, Needed(|ordered|, ratio) - 1);
      Some(ordered[Max(0, index)])
  }

  /** `percentile` of the load driver, on a sample that is already in order; an index past the end is an error. */
  function PercentileOfOrdered(ordered: seq<real>, share: real): Option<real> {
    var rank := Max(Needed(|ordered|, share), 1);
    if rank - 1 < |ordered| then Some(ordered[rank - 1]) else None
  }

  function Min(a: int, b: int): int { if a <= b then a else b }

  function Max(a: int, b: int): int { if a >= b then a else b }

  /** v covers as many values as needed, and no smaller member does. */
  ghost predicate IsNearestRank(values: seq<real>, ratio: real, v: real) {
    && v in values
    && AtMost(values, v) >= Needed(|values|, ratio)
    && (forall w :: w in values && w < v ==> AtMost(values, w) < Needed(|values|, ratio))
  }

  /** Membership and counts do not depend on the order of the sample. */
  lemma NearestRankOfSort(values: seq<real>, ratio: real, v: real)
    ensures IsNearestRank(Sort(values), ratio, v) <==> IsNearestRank(values, ratio, v)
  {
    SortKeeps(values);
    var s := Sort(values);
    forall w ensures w in s <==> w in values {
      assert w in multiset(s) <==> w in multiset(values);
    }
    forall w ensures AtMost(s, w) == AtMost(values, w) {
      AtMostOfSort(values, w);
    }
  }

  /** In an ordered sample, the value at the rank is the nearest-rank percentile. */
  lemma NearestRankAt(s: seq<real>, ratio: real)
    requires s != [] && Ordered(s) && 0.0 <= ratio <= 1.0
    ensures 0 <= Max(Needed(|s|, ratio), 1) - 1 < |s|
    ensures IsNearestRank(s, ratio, s[Max(Needed(|s|, ratio), 1) - 1])
  {
    NeededIsInRange(|s|, ratio);
    var i := Max(Needed(|s|, ratio), 1) - 1;
    AtMostWhenOrdered(s, s[i], Above(s, s[i]));
    forall w | w in s && w < s[i] ensures AtMost(s, w) < Needed(|s|, ratio) {
      AtMostWhenOrdered(s, w, Above(s, w));
      assert Above(s, w) <= i;
      assert s[0] <= w;
    }
  }

  /**
    The result is defined exactly for a non-empty sample and a ratio in [0, 1], and it is the one value
    that meets the definition of the nearest rank.
   */
  lemma PercentileIsNearestRank(values: seq<real>, ratio: real, v: real)
    requires values != [] && 0.0 <= ratio <= 1.0
    ensures Percentile(values, ratio) == Some(v) <==> IsNearestRank(values, ratio, v)
  {
    SortKeeps(values);
    var s := Sort(values);
    NeededIsInRange(|s|, ratio);
    NearestRankAt(s, ratio);
    var u := s[Max(Needed(|s|, ratio), 1) - 1];
    assert Percentile(values, ratio) == Some(u);
    NearestRankOfSort(values, ratio, u);
    assert IsNearestRank(values, ratio, v) ==> !(u < v) && !(v < u);
  }

  /** On every ordered sample the two implementations give the same answer. */
  lemma ImplementationsAgree(ordered: seq<real>, ratio: real)
    requires ordered != [] && Ordered(ordered) && 0.0 <= ratio <= 1.0
    ensures PercentileOfOrdered(ordered, ratio) == Percentile(ordered, ratio) != None
  {
    SortKeeps(ordered);
    OrderedPermutationIsUnique(Sort(ordered), ordered);
    NeededIsInRange(|ordered|, ratio);
  }

  /** Outside [0, 1] one refuses, the other takes the smallest value or runs off the end. */
  lemma ImplementationsDiffer(ordered: seq<real>, ratio: real)
    requires ordered != [] && Ordered(ordered) && !(0.0 <= ratio <= 1.0)
    ensures Percentile(ordered, ratio) == None
    ensures PercentileOfOrdered(ordered, ratio) == if ratio < 0.0 then Some(ordered[0]) else None
  {
    var n := |ordered| as real;
    if ratio < 0.0 {
      assert ratio * n <= 0.0;
    } else {
      assert ratio * n > 1.0 * n;
    }
  }

  /** So they give the same answer, or none, exactly from ratio 0 on. */
  lemma ImplementationsAgreeExactlyWhen(ordered: seq<real>, ratio: real)
    requires ordered != [] && Ordered(ordered)
    ensures PercentileOfOrdered(ordered, ratio) == Percentile(ordered, ratio) <==> ratio >= 0.0
  {
    if 0.0 <= ratio <= 1.0 {
      ImplementationsAgree(ordered, ratio);
    } else {
      ImplementationsDiffer(ordered, ratio);
    }
  }

  lemma NeededGrows(n: nat, p: real, q: real)
    requires p <= q
    ensures Needed(n, p) <= Needed(n, q)
  {
    assert p * n as real <= q * n as real;
  }

  datatype LatencySummary = LatencySummary(p50: real, p95: real, max: real)

  /** `latency_summary`, before rounding. */
  function Summarize(latencies: seq<real>): Option<LatencySummary> {
    if latencies == [] then None
    else
      var ordered := Sort(latencies);
      SortKeeps(latencies);
      NeededIsInRange(|ordered|, 0.5);
      NeededIsInRange(|ordered|, 0.95);
      Some(LatencySummary(
             PercentileOfOrdered(ordered, 0.5).value,
             PercentileOfOrdered(ordered, 0.95).value,
             ordered[|ordered| - 1]))
  }

  /** The order in which the deliveries came does not matter. */
  lemma SummaryIgnoresOrder(latencies: seq<real>, permuted: seq<real>)
    requires multiset(permuted) == multiset(latencies)
    ensures Summarize(permuted) == Summarize(latencies)
  {
    SortKeeps(latencies);
    SortKeeps(permuted);
    OrderedPermutationIsUnique(Sort(latencies), Sort(permuted));
    assert |multiset(latencies)| == |latencies| && |multiset(permuted)| == |permuted|;
  }

  lemma LastIsGreatest(s: seq<real>)
    requires s != [] && Ordered(s)
    ensures forall x :: x in s ==> x <= s[|s| - 1]
  {
  }

  lemma SortHasSameMembers(s: seq<real>, x: real)
    ensures x in Sort(s) <==> x in s
  {
    SortKeeps(s);
    assert x in multiset(Sort(s)) <==> x in multiset(s);
  }

  lemma LastOfSort(s: seq<real>)
    requires s != []
    ensures var t := Sort(s); t != [] && t[|t| - 1] in s && forall x :: x in s ==> x <= t[|t| - 1]
  {
    SortKeeps(s);
    var t := Sort(s);
    LastIsGreatest(t);
    SortHasSameMembers(s, t[|t| - 1]);
    forall x | x in s ensures x <= t[|t| - 1] {
      SortHasSameMembers(s, x);
    }
  }

  /** The percentile of the sorted sample is the nearest rank of the sample. */
  lemma PercentileOfSort(values: seq<real>, ratio: real)
    requires values != [] && 0.0 <= ratio <= 1.0
    ensures PercentileOfOrdered(Sort(values), ratio).Some?
    ensures IsNearestRank(values, ratio, PercentileOfOrdered(Sort(values), ratio).value)
  {
    SortKeeps(values);
    var s := Sort(values);
    NearestRankAt(s, ratio);
    NearestRankOfSort(values, ratio, s[Max(Needed(|s|, ratio), 1) - 1]);
  }

  /** A larger ratio never gives a smaller percentile, and none exceeds the largest value. */
  lemma PercentilesGrow(s: seq<real>, p: real, q: real)
    requires s != [] && Ordered(s) && 0.0 <= p <= q <= 1.0
    ensures PercentileOfOrdered(s, p).Some? && PercentileOfOrdered(s, q).Some?
    ensures PercentileOfOrdered(s, p).value <= PercentileOfOrdered(s, q).value <= s[|s| - 1]
  {
    NeededIsInRange(|s|, p);
    NeededIsInRange(|s|, q);
    NeededGrows(|s|, p, q);
  }

  /** Its figures are the nearest-rank percentiles and the largest latency, and they do not decrease. */
  lemma SummaryMeans(latencies: seq<real>)
    requires latencies != []
    ensures Summarize(latencies).Some?
    ensures var r := Summarize(latencies).value;
            && IsNearestRank(latencies, 0.5, r.p50) && IsNearestRank(latencies, 0.95, r.p95)
            && r.max in latencies && (forall l :: l in latencies ==> l <= r.max)
            && r.p50 <= r.p95 <= r.max
  {
    PercentileOfSort(latencies, 0.5);
    PercentileOfSort(latencies, 0.95);
    SortKeeps(latencies);
    PercentilesGrow(Sort(latencies), 0.5, 0.95);
    LastOfSort(latencies);
  }
}
