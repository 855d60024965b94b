/** The gate fit (sim/gate_fit.py): type-7 quantiles, quintile buckets, a day-clustered bootstrap
    and the largest low-end prefix of buckets with a positive lower bound. */
module Gate {
  import opened Sequences

  const N_BUCKETS := 5

  // ----- Quantiles -----

  predicate Ascending(s: seq<real>) {
    forall i, j :: 0 <= i <= j < |s| ==> s[i] <= s[j]
  }

  function Insert(s: seq<real>, x: real): (r: seq<real>)
    ensures multiset(r) == multiset(s) + multiset{x}
  {
    if s == [] || s[|s| - 1] <= x then s + [x]
    else
      var r := Insert(s[..|s| - 1], x) + [s[|s| - 1]];
      assert s == s[..|s| - 1] + [s[|s| - 1]];
      r
  }

  function Sort(s: seq<real>): (r: seq<real>)
    ensures multiset(r) == multiset(s) && |r| == |s|
  {
    if s == [] then []
    else
      assert s == s[..|s| - 1] + [s[|s| - 1]];
      var r := Insert(Sort(s[..|s| - 1]), s[|s| - 1]);
      assert |multiset(r)| == |r| && |multiset(s)| == |s|;
      r
  }

  ghost predicate AtMost(s: seq<real>, bound: real) {
    forall i :: 0 <= i < |s| ==> s[i] <= bound
  }

  lemma {:induction false} InsertAtMost(s: seq<real>, x: real, bound: real)
    requires AtMost(s, bound) && x <= bound
    ensures AtMost(Insert(s, x), bound)
  {
    if s != [] && s[|s| - 1] > x {
      InsertAtMost(s[..|s| - 1], x, bound);
    }
  }

  lemma AscendingSnoc(s: seq<real>, x: real)
    requires Ascending(s) && AtMost(s, x)
    ensures Ascending(s + [x])
  {}

  lemma {:induction false} InsertAscends(s: seq<real>, x: real)
    requires Ascending(s)
    ensures Ascending(Insert(s, x))
  {
    if s == [] || s[|s| - 1] <= x {
      AscendingSnoc(s, x);
    } else {
      var s', last := s[..|s| - 1], s[|s| - 1];
      assert AtMost(s', last);
      InsertAtMost(s', x, last);
      InsertAscends(s', x);
      AscendingSnoc(Insert(s', x), last);
    }
  }

  lemma {:induction false} SortAscends(s: seq<real>)
    ensures Ascending(Sort(s))
  {
    if s == [] {
    } else {
      SortAscends(s[..|s| - 1]);
      InsertAscends(Sort(s[..|s| - 1]), s[|s| - 1]);
    }
  }

  function Scaled(d: real, f: real): real {
    d * f
  }

  /** The value at a fractional position of an ascending list. */
  function Interpolate(s: seq<real>, h: real): real
    requires s != [] && h >= 0.0
  {
    var lo := h.Floor;
    if lo + 1 >= |s| then s[|s| - 1] else s[lo] + Scaled(s[lo + 1] - s[lo], h - lo as real)
  }

  /** The type-7 quantile of an ascending list. */
  function Quantile(s: seq<real>, p: real): real
    requires s != [] && 0.0 <= p <= 1.0
  {
    ScaledBetween((|s| - 1) as real, p);
    Interpolate(s, Scaled((|s| - 1) as real, p))
  }

  lemma ScaledBetween(d: real, f: real)
    requires d >= 0.0 && 0.0 <= f <= 1.0
    ensures 0.0 <= Scaled(d, f) <= d
  {
    ScaledGrows(d, 0.0, f);
    ScaledGrows(d, f, 1.0);
  }

  lemma ScaledGrows(d: real, f: real, g: real)
    requires d >= 0.0 && f <= g
    ensures Scaled(d, f) <= Scaled(d, g)
  {
    assert d * (g - f) >= 0.0;
    assert d * (g - f) == d * g - d * f;
  }

  /** The value at a position lies between its two neighbours. */
  lemma InterpolateBetween(s: seq<real>, h: real)
    requires s != [] && Ascending(s) && 0.0 <= h <= (|s| - 1) as real
    ensures var lo := h.Floor;
            0 <= lo < |s| && s[lo] <= Interpolate(s, h) <= s[if lo + 1 < |s| then lo + 1 else lo]
  {
    var lo := h.Floor;
    if lo + 1 < |s| {
      ScaledBetween(s[lo + 1] - s[lo], h - lo as real);
    }
  }

  lemma InterpolateGrows(s: seq<real>, h: real, k: real)
    requires s != [] && Ascending(s) && 0.0 <= h <= k <= (|s| - 1) as real
    ensures s[0] <= Interpolate(s, h) <= Interpolate(s, k) <= s[|s| - 1]
  {
    InterpolateBetween(s, h);
    InterpolateBetween(s, k);
    if h.Floor == k.Floor {
      if h.Floor + 1 < |s| {
        ScaledGrows(s[h.Floor + 1] - s[h.Floor], h - h.Floor as real, k - k.Floor as real);
      }
    } else {
      assert h.Floor + 1 <= k.Floor;
    }
  }

  /** Quantiles never leave the list's range and never fall as p rises. */
  lemma QuantileIsMonotone(s: seq<real>, p: real, q: real)
    requires s != [] && Ascending(s) && 0.0 <= p <= q <= 1.0
    ensures s[0] <= Quantile(s, p) <= Quantile(s, q) <= s[|s| - 1]
  {
    var n := (|s| - 1) as real;
    ScaledBetween(n, p);
    ScaledBetween(n, q);
    ScaledGrows(n, p, q);
    InterpolateGrows(s, Scaled(n, p), Scaled(n, q));
  }

  /** At the k-th of n-1 steps the quantile is the k-th order statistic, and between two of them it
      runs along the straight line that joins them. */
  lemma QuantileHitsOrderStatistics(s: seq<real>, k: nat, f: real)
    requires |s| > 1 && k + 1 < |s| && 0.0 <= f < 1.0
    ensures var n := (|s| - 1) as real;
            0.0 <= (k as real + f) / n <= 1.0
            && Quantile(s, (k as real + f) / n) == s[k] + Scaled(s[k + 1] - s[k], f)
  {
    var n := (|s| - 1) as real;
    var p := (k as real + f) / n;
    assert k as real + f <= n;
    assert Scaled(n, p) == k as real + f;
    assert (k as real + f).Floor == k;
    QuotientWithin(k as real + f, n, 0.0, 1.0);
  }

  // ----- Buckets -----

  function Edges(gos: seq<real>): (e: seq<real>)
    requires gos != []
    ensures |e| == 4
  {
    var s := Sort(gos);
    [Quantile(s, 0.2), Quantile(s, 0.4), Quantile(s, 0.6), Quantile(s, 0.8)]
  }

  lemma EdgesAscend(gos: seq<real>)
    requires gos != []
    ensures Ascending(Edges(gos))
  {
    var s := Sort(gos);
    SortAscends(gos);
    QuantileIsMonotone(s, 0.2, 0.4);
    QuantileIsMonotone(s, 0.4, 0.6);
    QuantileIsMonotone(s, 0.6, 0.8);
  }

  /** The bucket of a value: how many edges it has reached. */
  function BucketOf(v: real, edges: seq<real>): (b: nat)
    ensures b <= |edges|
  {
    if edges == [] then 0
    else BucketOf(v, edges[..|edges| - 1]) + if edges[|edges| - 1] <= v then 1 else 0
  }

  /** On ascending edges, bucket `b` is exactly the half-open interval between its two edges. */
  lemma {:induction false} BucketInterval(v: real, edges: seq<real>)
    requires Ascending(edges)
    ensures var b := BucketOf(v, edges);
            && (forall i :: 0 <= i < b ==> edges[i] <= v)
            && (forall i :: b <= i < |edges| ==> v < edges[i])
  {
    if edges == [] {
    } else {
      var rest := edges[..|edges| - 1];
      BucketInterval(v, rest);
      if edges[|edges| - 1] <= v {
        forall i | 0 <= i < |rest|
          ensures rest[i] <= v
        {
          assert edges[i] <= edges[|edges| - 1];
        }
        assert BucketOf(v, rest) == |rest|;
      }
    }
  }

  /** Larger values land in the same bucket or a later one. */
  lemma BucketsKeepOrder(v: real, w: real, edges: seq<real>)
    requires Ascending(edges) && v <= w
    ensures BucketOf(v, edges) <= BucketOf(w, edges)
  {
    BucketInterval(v, edges);
    BucketInterval(w, edges);
  }

  // ----- The bootstrap -----

  function Self(x: real): real {
    x
  }

  function Mean(s: seq<real>): real
    requires s != []
  {
    Sum(Self, s) / |s| as real
  }

  ghost predicate Within(s: seq<real>, lo: real, hi: real) {
    forall i :: 0 <= i < |s| ==> lo <= s[i] <= hi
  }

  lemma ScaledStep(d: real, n: real)
    ensures Scaled(d, n + 1.0) == Scaled(d, n) + d
  {}

  lemma {:induction false} TotalWithin(s: seq<real>, lo: real, hi: real)
    requires Within(s, lo, hi)
    ensures Scaled(lo, |s| as real) <= Sum(Self, s) <= Scaled(hi, |s| as real)
  {
    if s == [] {
    } else {
      TotalWithin(s[..|s| - 1], lo, hi);
      ScaledStep(lo, (|s| - 1) as real);
      ScaledStep(hi, (|s| - 1) as real);
    }
  }

  lemma MeanWithin(s: seq<real>, lo: real, hi: real)
    requires s != [] && Within(s, lo, hi)
    ensures lo <= Mean(s) <= hi
  {
    TotalWithin(s, lo, hi);
    QuotientWithin(Sum(Self, s), |s| as real, lo, hi);
  }

  lemma NonnegativeFactor(y: real, n: real)
    requires n > 0.0 && y * n >= 0.0
    ensures y >= 0.0
  {}

  lemma QuotientWithin(t: real, n: real, lo: real, hi: real)
    requires n > 0.0 && lo * n <= t <= hi * n
    ensures lo <= t / n <= hi
  {
    var x := t / n;
    assert x * n == t;
    assert (x - lo) * n == x * n - lo * n && (hi - x) * n == hi * n - x * n;
    NonnegativeFactor(x - lo, n);
    NonnegativeFactor(hi - x, n);
  }

  /** One observation of the resampled column; a blank value contributes nothing. */
  datatype Obs = Obs(day: int, value: Option<real>)

  function DayValues(obs: seq<Obs>, day: int): seq<real> {
    if obs == [] then []
    else
      var rest, o := DayValues(obs[..|obs| - 1], day), obs[|obs| - 1];
      if o.day == day && o.value.Some? then rest + [o.value.value] else rest
  }

  ghost predicate ObsWithin(obs: seq<Obs>, lo: real, hi: real) {
    forall i :: 0 <= i < |obs| && obs[i].value.Some? ==> lo <= obs[i].value.value <= hi
  }

  lemma {:induction false} DayValuesWithin(obs: seq<Obs>, day: int, lo: real, hi: real)
    requires ObsWithin(obs, lo, hi)
    ensures Within(DayValues(obs, day), lo, hi)
  {
    if obs == [] {
    } else {
      DayValuesWithin(obs[..|obs| - 1], day, lo, hi);
    }
  }

  /** The values pooled by one draw of days, with multiplicity. */
  function PooledValues(obs: seq<Obs>, drawn: seq<int>): seq<real> {
    if drawn == [] then [] else PooledValues(obs, drawn[..|drawn| - 1]) + DayValues(obs, drawn[|drawn| - 1])
  }

  lemma {:induction false} PooledWithin(obs: seq<Obs>, drawn: seq<int>, lo: real, hi: real)
    requires ObsWithin(obs, lo, hi)
    ensures Within(PooledValues(obs, drawn), lo, hi)
  {
    if drawn == [] {
    } else {
      PooledWithin(obs, drawn[..|drawn| - 1], lo, hi);
      DayValuesWithin(obs, drawn[|drawn| - 1], lo, hi);
    }
  }

  /** The means of the draws that pool anything. */
  function Means(obs: seq<Obs>, draws: seq<seq<int>>): seq<real> {
    if draws == [] then []
    else
      var rest, pooled := Means(obs, draws[..|draws| - 1]), PooledValues(obs, draws[|draws| - 1]);
      if pooled == [] then rest else rest + [Mean(pooled)]
  }

  lemma {:induction false} MeansWithin(obs: seq<Obs>, draws: seq<seq<int>>, lo: real, hi: real)
    requires ObsWithin(obs, lo, hi)
    ensures Within(Means(obs, draws), lo, hi)
  {
    if draws == [] {
    } else {
      MeansWithin(obs, draws[..|draws| - 1], lo, hi);
      var pooled := PooledValues(obs, draws[|draws| - 1]);
      PooledWithin(obs, draws[|draws| - 1], lo, hi);
      if pooled != [] {
        MeanWithin(pooled, lo, hi);
      }
    }
  }

  function Percentile(xs: seq<real>, q: real): real
    requires xs != [] && 0.0 <= q <= 100.0
  {
    Quantile(Sort(xs), q / 100.0)
  }

  lemma PercentilesWithin(xs: seq<real>, lo: real, hi: real)
    requires xs != [] && Within(xs, lo, hi)
    ensures lo <= Percentile(xs, 2.5) <= Percentile(xs, 97.5) <= hi
  {
    var s := Sort(xs);
    SortAscends(xs);
    QuantileIsMonotone(s, 2.5 / 100.0, 97.5 / 100.0);
    assert s[0] in multiset(s) && s[|s| - 1] in multiset(s);
    assert s[0] in multiset(xs) && s[|s| - 1] in multiset(xs);
  }

  datatype Interval = Interval(lb: real, ub: real, used: nat)

  // ----- The statistics in plain terms -----

  /** On an ascending list, the value a share `p` of the way from the first entry to the last, on the straight
      line between the two entries around that place. */
  ghost predicate OnLine(s: seq<real>, p: real, q: real) {
    && s != []
    && var h := (|s| - 1) as real * p;
    && (h.Floor + 1 >= |s| ==> q == s[|s| - 1])
    && (0 <= h.Floor && h.Floor + 1 < |s| ==>
          q == s[h.Floor] + (s[h.Floor + 1] - s[h.Floor]) * (h - h.Floor as real))
  }

  /** `s` is the list put in ascending order. */
  ghost predicate IsOrdered(values: seq<real>, s: seq<real>) {
    multiset(s) == multiset(values) && forall i, j :: 0 <= i < j < |s| ==> s[i] <= s[j]
  }

  /** `q` is that value of the ordered list. */
  ghost predicate IsQuantile(values: seq<real>, p: real, q: real) {
    exists s :: IsOrdered(values, s) && OnLine(s, p, q)
  }

  /** The observation is one of this day and not blank. */
  predicate Counts(o: Obs, day: int) {
    o.day == day && o.value != None
  }

  ghost function CountsAt(obs: seq<Obs>, day: int): nat -> bool {
    (i: nat) => i < |obs| && Counts(obs[i], day)
  }

  ghost function ValueAt(obs: seq<Obs>): (nat, real) -> bool {
    (i: nat, x: real) => i < |obs| && obs[i].value == Some(x)
  }

  /** The values of one day, in order. */
  ghost predicate IsDay(obs: seq<Obs>, day: int, values: seq<real>) {
    exists at :: Lists(|obs|, CountsAt(obs, day), ValueAt(obs), at, values)
  }

  /** The values of the drawn days one after another, a day drawn twice counted twice. */
  ghost predicate IsPool(obs: seq<Obs>, drawn: seq<int>, pooled: seq<real>) {
    exists days: seq<seq<real>>, cuts: seq<nat> ::
      Laid(pooled, days, cuts) && |days| == |drawn| && forall j :: 0 <= j < |drawn| ==> IsDay(obs, drawn[j], days[j])
  }

  ghost predicate IsPoolMean(obs: seq<Obs>, drawn: seq<int>, m: real) {
    exists pooled :: IsPool(obs, drawn, pooled) && pooled != [] && m == Sum((x: real) => x, pooled) / |pooled| as real
  }

  /** Some observation that is not blank is of this day. */
  ghost predicate HasDay(obs: seq<Obs>, day: int) {
    exists i :: 0 <= i < |obs| && Counts(obs[i], day)
  }

  /** Some day of the draw has one. */
  ghost predicate Pools(obs: seq<Obs>, drawn: seq<int>) {
    exists j :: 0 <= j < |drawn| && HasDay(obs, drawn[j])
  }

  ghost function PoolsAt(obs: seq<Obs>, draws: seq<seq<int>>): nat -> bool {
    (d: nat) => d < |draws| && Pools(obs, draws[d])
  }

  ghost function MeanAt(obs: seq<Obs>, draws: seq<seq<int>>): (nat, real) -> bool {
    (d: nat, m: real) => d < |draws| && IsPoolMean(obs, draws[d], m)
  }

  /** The means of the draws that pool anything, in order. */
  ghost predicate AreMeans(obs: seq<Obs>, draws: seq<seq<int>>, means: seq<real>) {
    exists at :: Lists(|draws|, PoolsAt(obs, draws), MeanAt(obs, draws), at, means)
  }

  /** The interval: the 2.5% and the 97.5% quantile of the means, when there are any. */
  ghost predicate IsInterval(obs: seq<Obs>, draws: seq<seq<int>>, ci: Option<Interval>) {
    exists means ::
      && AreMeans(obs, draws, means)
      && match ci
         case None => means == []
         case Some(i) => means != [] && i.used == |means| && IsQuantile(means, 0.025, i.lb) && IsQuantile(means, 0.975, i.ub)
  }

  lemma {:induction false} DayIsListed(obs: seq<Obs>, day: int, n: nat) returns (at: seq<nat>)
    requires n <= |obs|
    ensures Lists(n, CountsAt(obs, day), ValueAt(obs), at, DayValues(obs[..n], day))
  {
    if n == 0 {
      at := [];
    } else {
      at := DayIsListed(obs, day, n - 1);
      var before := DayValues(obs[..n - 1], day);
      assert obs[..n][..n - 1] == obs[..n - 1];
      if Counts(obs[n - 1], day) {
        ListsMore(n - 1, CountsAt(obs, day), ValueAt(obs), at, before, obs[n - 1].value.value);
        at := at + [n - 1];
      } else {
        ListsSame(n - 1, CountsAt(obs, day), ValueAt(obs), at, before);
      }
    }
  }

  lemma DayIsDay(obs: seq<Obs>, day: int)
    ensures IsDay(obs, day, DayValues(obs, day))
    ensures DayValues(obs, day) != [] <==> HasDay(obs, day)
  {
    var at := DayIsListed(obs, day, |obs|);
    assert obs[..|obs|] == obs;
    if at != [] {
      assert at[0] in at;
      assert Counts(obs[at[0]], day);
    }
    if i :| 0 <= i < |obs| && Counts(obs[i], day) {
      assert CountsAt(obs, day)(i);
      assert i in at;
    }
  }

  /** The days of a draw laid end to end. */
  lemma {:induction false} PoolIsLaid(obs: seq<Obs>, drawn: seq<int>) returns (days: seq<seq<real>>, cuts: seq<nat>)
    ensures Laid(PooledValues(obs, drawn), days, cuts) && |days| == |drawn|
    ensures forall j :: 0 <= j < |drawn| ==> IsDay(obs, drawn[j], days[j])
  {
    if drawn == [] {
      days, cuts := [], [0];
    } else {
      var n := |drawn| - 1;
      var before, day := PooledValues(obs, drawn[..n]), DayValues(obs, drawn[n]);
      days, cuts := PoolIsLaid(obs, drawn[..n]);
      DayIsDay(obs, drawn[n]);
      LaysOneMore(before, days, cuts, day);
      days, cuts := days + [day], cuts + [|before + day|];
    }
  }

  lemma PoolsMore(obs: seq<Obs>, drawn: seq<int>, day: int)
    ensures Pools(obs, drawn + [day]) <==> Pools(obs, drawn) || HasDay(obs, day)
  {
    var all := drawn + [day];
    if j :| 0 <= j < |drawn| && HasDay(obs, drawn[j]) {
      assert HasDay(obs, all[j]);
    }
    if HasDay(obs, day) {
      assert HasDay(obs, all[|drawn|]);
    }
  }

  lemma PooledMore(obs: seq<Obs>, drawn: seq<int>, day: int)
    ensures PooledValues(obs, drawn + [day]) == PooledValues(obs, drawn) + DayValues(obs, day)
  {
    Snoc(drawn, day);
  }

  lemma {:induction false} PoolsIff(obs: seq<Obs>, drawn: seq<int>)
    ensures PooledValues(obs, drawn) != [] <==> Pools(obs, drawn)
  {
    if drawn == [] {
    } else {
      var before, day := drawn[..|drawn| - 1], drawn[|drawn| - 1];
      PoolsIff(obs, before);
      PoolsMore(obs, before, day);
      PooledMore(obs, before, day);
      DayIsDay(obs, day);
      assert drawn == before + [day];
    }
  }

  lemma {:induction false} SelfSum(s: seq<real>)
    ensures Sum(Self, s) == Sum((x: real) => x, s)
  {
    if s == [] {
    } else {
      SelfSum(s[..|s| - 1]);
    }
  }

  lemma MeanIsPoolMean(obs: seq<Obs>, drawn: seq<int>)
    requires PooledValues(obs, drawn) != []
    ensures IsPoolMean(obs, drawn, Mean(PooledValues(obs, drawn)))
  {
    var pooled := PooledValues(obs, drawn);
    var days, cuts := PoolIsLaid(obs, drawn);
    SelfSum(pooled);
    assert IsPool(obs, drawn, pooled);
  }

  lemma {:induction false} MeansAreListed(obs: seq<Obs>, draws: seq<seq<int>>, n: nat) returns (at: seq<nat>)
    requires n <= |draws|
    ensures Lists(n, PoolsAt(obs, draws), MeanAt(obs, draws), at, Means(obs, draws[..n]))
  {
    if n == 0 {
      at := [];
    } else {
      at := MeansAreListed(obs, draws, n - 1);
      var before, drawn := Means(obs, draws[..n - 1]), draws[n - 1];
      PoolsIff(obs, drawn);
      assert draws[..n][..n - 1] == draws[..n - 1];
      if PooledValues(obs, drawn) != [] {
        MeanIsPoolMean(obs, drawn);
        ListsMore(n - 1, PoolsAt(obs, draws), MeanAt(obs, draws), at, before, Mean(PooledValues(obs, drawn)));
        at := at + [n - 1];
      } else {
        ListsSame(n - 1, PoolsAt(obs, draws), MeanAt(obs, draws), at, before);
      }
    }
  }

  lemma MeansAreMeans(obs: seq<Obs>, draws: seq<seq<int>>)
    ensures AreMeans(obs, draws, Means(obs, draws))
  {
    var at := MeansAreListed(obs, draws, |draws|);
    assert draws[..|draws|] == draws;
  }

  lemma QuantileIsOnLine(s: seq<real>, p: real)
    requires s != [] && 0.0 <= p <= 1.0
    ensures OnLine(s, p, Quantile(s, p))
  {}

  lemma SortedIsQuantile(values: seq<real>, p: real)
    requires values != [] && 0.0 <= p <= 1.0
    ensures IsQuantile(values, p, Quantile(Sort(values), p))
  {
    SortAscends(values);
    QuantileIsOnLine(Sort(values), p);
  }

  /** The day-clustered bootstrap over given draws of days. */
  method BootstrapCi(obs: seq<Obs>, draws: seq<seq<int>>) returns (ci: Option<Interval>)
    ensures ci == IntervalOf(obs, draws)
    ensures IsInterval(obs, draws, ci)
  {
    var evs := ScoreDraws(obs, draws);
    IntervalIsPlain(obs, draws);
    if evs == [] {
      return None;
    }
    return Some(Interval(Percentile(evs, 2.5), Percentile(evs, 97.5), |evs|));
  }

  /** Pool the values of one draw of days. */
  method PoolDraw(ghost obs: seq<Obs>, byDay: map<int, seq<real>>, drawn: seq<int>) returns (pooled: seq<real>)
    requires forall day: int :: (if day in byDay then byDay[day] else []) == DayValues(obs, day)
    ensures pooled == PooledValues(obs, drawn)
  {
    pooled := [];
    for j := 0 to |drawn|
      invariant pooled == PooledValues(obs, drawn[..j])
    {
      assert drawn[..j + 1][..j] == drawn[..j];
      pooled := pooled + if drawn[j] in byDay then byDay[drawn[j]] else [];
    }
    assert drawn[..|drawn|] == drawn;
  }

  /** The mean of every draw that pools anything. */
  method ScoreDraws(obs: seq<Obs>, draws: seq<seq<int>>) returns (evs: seq<real>)
    ensures evs == Means(obs, draws)
  {
    var byDay := GroupByDay(obs);
    evs := [];
    for i := 0 to |draws|
      invariant evs == Means(obs, draws[..i])
    {
      assert draws[..i + 1][..i] == draws[..i];
      var pooled := PoolDraw(obs, byDay, draws[i]);
      if pooled != [] {
        evs := evs + [Mean(pooled)];
      }
    }
    assert draws[..|draws|] == draws;
  }

  method GroupByDay(obs: seq<Obs>) returns (byDay: map<int, seq<real>>)
    ensures forall day: int :: (if day in byDay then byDay[day] else []) == DayValues(obs, day)
  {
    byDay := map[];
    for i := 0 to |obs|
      invariant forall day: int :: (if day in byDay then byDay[day] else []) == DayValues(obs[..i], day)
    {
      assert obs[..i + 1][..i] == obs[..i];
      var o := obs[i];
      if o.value.Some? {
        byDay := byDay[o.day := (if o.day in byDay then byDay[o.day] else []) + [o.value.value]];
      }
    }
    assert obs[..|obs|] == obs;
  }

  /** Whatever days are drawn, the interval lies inside the range of the observed values. */
  lemma BootstrapWithin(obs: seq<Obs>, draws: seq<seq<int>>, lo: real, hi: real)
    requires ObsWithin(obs, lo, hi) && Means(obs, draws) != []
    ensures lo <= Percentile(Means(obs, draws), 2.5) <= Percentile(Means(obs, draws), 97.5) <= hi
  {
    MeansWithin(obs, draws, lo, hi);
    PercentilesWithin(Means(obs, draws), lo, hi);
  }

  // ----- The gate -----

  datatype Row = Row(id: int, day: int, gos: real, payoff: real)

  function GosOf(rows: seq<Row>): (g: seq<real>)
    ensures |g| == |rows|
  {
    seq(|rows|, i requires 0 <= i < |rows| => rows[i].gos)
  }

  function InBucket(rows: seq<Row>, edges: seq<real>, b: nat): seq<Row> {
    if rows == [] then []
    else
      var rest, r := InBucket(rows[..|rows| - 1], edges, b), rows[|rows| - 1];
      if BucketOf(r.gos, edges) == b then rest + [r] else rest
  }

  /** The rows of the first `k` buckets. */
  function Prefix(rows: seq<Row>, edges: seq<real>, k: nat): seq<Row> {
    if k == 0 then [] else Prefix(rows, edges, k - 1) + InBucket(rows, edges, k - 1)
  }

  lemma {:induction false} InBucketMembers(rows: seq<Row>, edges: seq<real>, b: nat, r: Row)
    ensures r in InBucket(rows, edges, b) <==> r in rows && BucketOf(r.gos, edges) == b
  {
    if rows == [] {
    } else {
      assert rows == rows[..|rows| - 1] + [rows[|rows| - 1]];
      InBucketMembers(rows[..|rows| - 1], edges, b, r);
    }
  }

  lemma {:induction false} PrefixMembers(rows: seq<Row>, edges: seq<real>, k: nat, r: Row)
    ensures r in Prefix(rows, edges, k) <==> r in rows && BucketOf(r.gos, edges) < k
  {
    if k == 0 {
    } else {
      PrefixMembers(rows, edges, k - 1, r);
      InBucketMembers(rows, edges, k - 1, r);
    }
  }

  predicate StrictlyAscending(edges: seq<real>) {
    forall i :: 0 <= i < |edges| - 1 ==> edges[i] < edges[i + 1]
  }

  predicate EmptyBucket(rows: seq<Row>, edges: seq<real>) {
    exists b :: 0 <= b < N_BUCKETS && InBucket(rows, edges, b) == []
  }

  datatype Fit = NoRows | Degenerate | Fitted(edges: seq<real>, k: nat, gStar: Option<real>)

  /** The days each bootstrap draws, as the seeded generator gives them for the pooled observations. */
  type Draws = seq<Obs> -> seq<seq<int>>

  function ObsOf(rows: seq<Row>): (obs: seq<Obs>)
    ensures |obs| == |rows|
  {
    seq(|rows|, i requires 0 <= i < |rows| => Obs(rows[i].day, Some(rows[i].payoff)))
  }

  /** The bootstrap's lower bound on the mean payoff of the pooled rows is positive. */
  predicate Clears(draws: Draws, rows: seq<Row>) {
    var means := Means(ObsOf(rows), draws(ObsOf(rows)));
    means != [] && Percentile(means, 2.5) > 0.0
  }

  /** The rows of the first `k` buckets, pooled, clear. */
  predicate PrefixClears(rows: seq<Row>, edges: seq<real>, draws: Draws, k: nat) {
    Clears(draws, Prefix(rows, edges, k))
  }

  lemma {:induction false} SomeLowerBound(rows: seq<Row>) returns (lo: real)
    ensures forall i :: 0 <= i < |rows| ==> lo <= rows[i].payoff
  {
    if rows == [] {
      lo := 0.0;
    } else {
      var rest, last := rows[..|rows| - 1], rows[|rows| - 1];
      lo := SomeLowerBound(rest);
      assert forall i :: 0 <= i < |rest| ==> lo <= rows[i].payoff;
      if last.payoff < lo {
        lo := last.payoff;
      }
    }
  }

  /** Whatever days are drawn, rows clear only if one of them gains. */
  lemma ClearingNeedsGain(draws: Draws, rows: seq<Row>)
    requires Clears(draws, rows)
    ensures exists r :: r in rows && r.payoff > 0.0
  {
    if forall i :: 0 <= i < |rows| ==> rows[i].payoff <= 0.0 {
      var lo := SomeLowerBound(rows);
      BootstrapWithin(ObsOf(rows), draws(ObsOf(rows)), lo, 0.0);
      assert false;
    }
    var i :| 0 <= i < |rows| && rows[i].payoff > 0.0;
    assert rows[i] in rows;
  }

  method FillBuckets(rows: seq<Row>, edges: seq<real>) returns (buckets: seq<seq<Row>>)
    requires |edges| == 4
    ensures |buckets| == N_BUCKETS && forall b :: 0 <= b < N_BUCKETS ==> buckets[b] == InBucket(rows, edges, b)
    ensures forall b :: 0 <= b < 5 ==> IsBucket(rows, edges, b, buckets[b])
  {
    buckets := [[], [], [], [], []];
    for i := 0 to |rows|
      invariant |buckets| == N_BUCKETS
      invariant forall b :: 0 <= b < N_BUCKETS ==> buckets[b] == InBucket(rows[..i], edges, b)
    {
      assert rows[..i + 1][..i] == rows[..i];
      var b := BucketOf(rows[i].gos, edges);
      buckets := buckets[b := buckets[b] + [rows[i]]];
    }
    assert rows[..|rows|] == rows;
    forall b | 0 <= b < 5
      ensures IsBucket(rows, edges, b, buckets[b])
    {
      BucketIsBucket(rows, edges, b);
    }
  }

  /** `k` is the largest number of leading ones of the `buckets` whose pooled rows clear, or 0. */
  ghost predicate IsLargestPrefix(rows: seq<Row>, edges: seq<real>, draws: Draws, buckets: nat, k: nat) {
    && k <= buckets
    && (k > 0 ==> PrefixClears(rows, edges, draws, k))
    && (forall j :: k < j <= buckets ==> !PrefixClears(rows, edges, draws, j))
  }

  /** `gStar` separates the gated rows: below the top bucket they are the rows under it, and with all
      buckets gated it is their largest value. */
  ghost predicate IsCutoff(rows: seq<Row>, gated: seq<Row>, k: nat, gStar: real) {
    if k < N_BUCKETS then forall r :: r in gated <==> r in rows && r.gos < gStar
    else
      && (forall r :: r in gated <==> r in rows && r.gos <= gStar)
      && exists r :: r in rows && r.gos == gStar
  }

  // ----- The gate in plain terms -----

  /** How many edges a value has reached. */
  ghost function EdgesReached(edges: seq<real>, v: real): nat {
    |set i | 0 <= i < |edges| && edges[i] <= v|
  }

  ghost function FallsAt(rows: seq<Row>, edges: seq<real>, b: nat): nat -> bool {
    (i: nat) => i < |rows| && EdgesReached(edges, rows[i].gos) == b
  }

  ghost function RowAt(rows: seq<Row>): (nat, Row) -> bool {
    (i: nat, r: Row) => i < |rows| && r == rows[i]
  }

  /** The rows whose value has reached `b` edges, in order. */
  ghost predicate IsBucket(rows: seq<Row>, edges: seq<real>, b: nat, bucket: seq<Row>) {
    exists at :: Lists(|rows|, FallsAt(rows, edges, b), RowAt(rows), at, bucket)
  }

  /** The first `k` buckets one after another. */
  ghost predicate IsPrefix(rows: seq<Row>, edges: seq<real>, k: nat, pooled: seq<Row>) {
    exists buckets: seq<seq<Row>>, cuts: seq<nat> ::
      Laid(pooled, buckets, cuts) && |buckets| == k && forall b :: 0 <= b < k ==> IsBucket(rows, edges, b, buckets[b])
  }

  /** The payoffs of the rows, day by day. */
  ghost predicate Observes(rows: seq<Row>, obs: seq<Obs>) {
    |obs| == |rows| && forall i :: 0 <= i < |rows| ==> obs[i] == Obs(rows[i].day, Some(rows[i].payoff))
  }

  /** The bootstrap of the first `k` buckets has a positive lower bound, or it has not. */
  ghost predicate IsJudged(rows: seq<Row>, edges: seq<real>, draws: Draws, k: nat, clears: bool) {
    exists pooled, obs, ci ::
      && IsPrefix(rows, edges, k, pooled) && Observes(pooled, obs) && IsInterval(obs, draws(obs), ci)
      && (clears <==> ci != None && ci.value.lb > 0.0)
  }

  /** The four inner quintile edges of the rows' values. */
  ghost predicate AreEdges(rows: seq<Row>, edges: seq<real>) {
    exists gos, s ::
      && |gos| == |rows| && (forall i :: 0 <= i < |rows| ==> gos[i] == rows[i].gos)
      && IsOrdered(gos, s) && |edges| == 4 && OnLine(s, 0.2, edges[0]) && OnLine(s, 0.4, edges[1])
      && OnLine(s, 0.6, edges[2]) && OnLine(s, 0.8, edges[3])
  }

  ghost predicate NoneFalls(rows: seq<Row>, edges: seq<real>, b: nat) {
    forall i :: 0 <= i < |rows| ==> EdgesReached(edges, rows[i].gos) != b
  }

  /** Two edges are not in order, or one of the five buckets is empty. */
  ghost predicate Broken(rows: seq<Row>, edges: seq<real>)
    requires |edges| == 4
  {
    || edges[0] >= edges[1] || edges[1] >= edges[2] || edges[2] >= edges[3]
    || exists b: nat :: b < 5 && NoneFalls(rows, edges, b)
  }

  /** The cutoff of a gate of `k` buckets: the edge above them, or the largest value of all rows. */
  ghost predicate IsGStar(rows: seq<Row>, edges: seq<real>, k: nat, gStar: Option<real>)
    requires |edges| == 4
  {
    match gStar
    case None => k == 0
    case Some(g) =>
      && 1 <= k <= 5
      && (k <= 4 ==> g == edges[k - 1])
      && (k == 5 ==> (forall i :: 0 <= i < |rows| ==> rows[i].gos <= g) && exists i :: 0 <= i < |rows| && rows[i].gos == g)
  }

  /** The first `k` buckets clear together, and no larger number of leading buckets does. */
  ghost predicate RestsOn(rows: seq<Row>, edges: seq<real>, draws: Draws, k: nat) {
    && k <= 5 && (k > 0 ==> IsJudged(rows, edges, draws, k, true))
    && forall j :: k < j <= 5 ==> IsJudged(rows, edges, draws, j, false)
  }

  /** What a fit says of the rows. */
  ghost predicate GateTells(rows: seq<Row>, draws: Draws, fit: Fit) {
    match fit
    case NoRows => rows == []
    case Degenerate => rows != [] && exists edges :: AreEdges(rows, edges) && Broken(rows, edges)
    case Fitted(edges, k, gStar) =>
      && rows != [] && AreEdges(rows, edges) && !Broken(rows, edges)
      && RestsOn(rows, edges, draws, k) && IsGStar(rows, edges, k, gStar)
  }

  lemma {:induction false} BucketOfCounts(v: real, edges: seq<real>)
    ensures BucketOf(v, edges) == EdgesReached(edges, v)
  {
    var reached := set i | 0 <= i < |edges| && edges[i] <= v;
    if edges == [] {
      assert reached == {};
    } else {
      var n := |edges| - 1;
      BucketOfCounts(v, edges[..n]);
      var before := set i | 0 <= i < |edges[..n]| && edges[..n][i] <= v;
      assert reached == before + if edges[n] <= v then {n} else {};
    }
  }

  lemma {:induction false} BucketIsListed(rows: seq<Row>, edges: seq<real>, b: nat, n: nat) returns (at: seq<nat>)
    requires n <= |rows|
    ensures Lists(n, FallsAt(rows, edges, b), RowAt(rows), at, InBucket(rows[..n], edges, b))
  {
    if n == 0 {
      at := [];
    } else {
      at := BucketIsListed(rows, edges, b, n - 1);
      var before := InBucket(rows[..n - 1], edges, b);
      assert rows[..n][..n - 1] == rows[..n - 1];
      BucketOfCounts(rows[n - 1].gos, edges);
      if BucketOf(rows[n - 1].gos, edges) == b {
        ListsMore(n - 1, FallsAt(rows, edges, b), RowAt(rows), at, before, rows[n - 1]);
        at := at + [n - 1];
      } else {
        ListsSame(n - 1, FallsAt(rows, edges, b), RowAt(rows), at, before);
      }
    }
  }

  lemma BucketIsBucket(rows: seq<Row>, edges: seq<real>, b: nat)
    ensures IsBucket(rows, edges, b, InBucket(rows, edges, b))
  {
    var at := BucketIsListed(rows, edges, b, |rows|);
    assert rows[..|rows|] == rows;
  }

  lemma {:induction false} PrefixIsLaid(rows: seq<Row>, edges: seq<real>, k: nat)
    returns (buckets: seq<seq<Row>>, cuts: seq<nat>)
    ensures Laid(Prefix(rows, edges, k), buckets, cuts) && |buckets| == k
    ensures forall b :: 0 <= b < k ==> IsBucket(rows, edges, b, buckets[b])
  {
    if k == 0 {
      buckets, cuts := [], [0];
    } else {
      var before, bucket := Prefix(rows, edges, k - 1), InBucket(rows, edges, k - 1);
      buckets, cuts := PrefixIsLaid(rows, edges, k - 1);
      BucketIsBucket(rows, edges, k - 1);
      LaysOneMore(before, buckets, cuts, bucket);
      buckets, cuts := buckets + [bucket], cuts + [|before + bucket|];
    }
  }

  /** The interval of the bootstrap, in plain terms. */
  lemma IntervalIsPlain(obs: seq<Obs>, draws: seq<seq<int>>)
    ensures IsInterval(obs, draws, IntervalOf(obs, draws))
  {
    var means := Means(obs, draws);
    MeansAreMeans(obs, draws);
    if means != [] {
      PercentilesAreQuantiles(means);
      IntervalFrom(obs, draws, means, Some(Interval(Percentile(means, 2.5), Percentile(means, 97.5), |means|)));
    }
  }

  lemma PercentilesAreQuantiles(means: seq<real>)
    requires means != []
    ensures IsQuantile(means, 0.025, Percentile(means, 2.5)) && IsQuantile(means, 0.975, Percentile(means, 97.5))
  {
    assert 2.5 / 100.0 == 0.025 && 97.5 / 100.0 == 0.975;
    SortedIsQuantile(means, 0.025);
    SortedIsQuantile(means, 0.975);
  }

  lemma IntervalFrom(obs: seq<Obs>, draws: seq<seq<int>>, means: seq<real>, ci: Option<Interval>)
    requires AreMeans(obs, draws, means) && means != [] && ci.Some? && ci.value.used == |means|
    requires IsQuantile(means, 0.025, ci.value.lb) && IsQuantile(means, 0.975, ci.value.ub)
    ensures IsInterval(obs, draws, ci)
  {}

  lemma ObsAreObserved(rows: seq<Row>)
    ensures Observes(rows, ObsOf(rows))
  {}

  lemma PrefixIsPrefix(rows: seq<Row>, edges: seq<real>, k: nat)
    ensures IsPrefix(rows, edges, k, Prefix(rows, edges, k))
  {
    var buckets, cuts := PrefixIsLaid(rows, edges, k);
  }

  lemma JudgedBy(rows: seq<Row>, edges: seq<real>, draws: Draws, k: nat, clears: bool, pooled: seq<Row>, obs: seq<Obs>,
                 ci: Option<Interval>)
    requires IsPrefix(rows, edges, k, pooled) && Observes(pooled, obs) && IsInterval(obs, draws(obs), ci)
    requires clears <==> ci != None && ci.value.lb > 0.0
    ensures IsJudged(rows, edges, draws, k, clears)
  {}

  /** The interval the bootstrap computes. */
  function IntervalOf(obs: seq<Obs>, draws: seq<seq<int>>): Option<Interval> {
    var means := Means(obs, draws);
    if means == [] then None else Some(Interval(Percentile(means, 2.5), Percentile(means, 97.5), |means|))
  }

  lemma ClearsIff(draws: Draws, rows: seq<Row>)
    ensures var ci := IntervalOf(ObsOf(rows), draws(ObsOf(rows)));
            Clears(draws, rows) <==> ci != None && ci.value.lb > 0.0
  {}

  lemma PrefixIsJudged(rows: seq<Row>, edges: seq<real>, draws: Draws, k: nat, clears: bool)
    requires clears == PrefixClears(rows, edges, draws, k)
    ensures IsJudged(rows, edges, draws, k, clears)
  {
    var pooled := Prefix(rows, edges, k);
    var obs := ObsOf(pooled);
    var ci := IntervalOf(obs, draws(obs));
    PrefixIsPrefix(rows, edges, k);
    ObsAreObserved(pooled);
    IntervalIsPlain(obs, draws(obs));
    ClearsIff(draws, pooled);
    JudgedBy(rows, edges, draws, k, clears, pooled, obs, ci);
  }

  lemma EdgesFrom(rows: seq<Row>, gos: seq<real>, s: seq<real>, edges: seq<real>)
    requires |gos| == |rows| && (forall i :: 0 <= i < |rows| ==> gos[i] == rows[i].gos)
    requires IsOrdered(gos, s) && |edges| == 4 && OnLine(s, 0.2, edges[0]) && OnLine(s, 0.4, edges[1])
    requires OnLine(s, 0.6, edges[2]) && OnLine(s, 0.8, edges[3])
    ensures AreEdges(rows, edges)
  {}

  lemma SortIsOrdered(values: seq<real>)
    ensures IsOrdered(values, Sort(values))
  {
    SortAscends(values);
  }

  lemma EdgeIsOnLine(gos: seq<real>, edges: seq<real>, i: nat, p: real)
    requires gos != [] && edges == Edges(gos) && i < 4 && p == [0.2, 0.4, 0.6, 0.8][i]
    ensures |edges| == 4 && OnLine(Sort(gos), p, edges[i])
  {
    QuantileIsOnLine(Sort(gos), p);
  }

  lemma EdgesAreEdges(rows: seq<Row>, gos: seq<real>, edges: seq<real>)
    requires rows != [] && gos == GosOf(rows) && edges == Edges(gos)
    ensures AreEdges(rows, edges)
  {
    SortIsOrdered(gos);
    EdgeIsOnLine(gos, edges, 0, 0.2);
    EdgeIsOnLine(gos, edges, 1, 0.4);
    EdgeIsOnLine(gos, edges, 2, 0.6);
    EdgeIsOnLine(gos, edges, 3, 0.8);
    EdgesFrom(rows, gos, Sort(gos), edges);
  }

  lemma EmptyIff(rows: seq<Row>, edges: seq<real>, b: nat)
    ensures InBucket(rows, edges, b) == [] <==> NoneFalls(rows, edges, b)
  {
    var at := BucketIsListed(rows, edges, b, |rows|);
    assert rows[..|rows|] == rows;
    if at == [] {
      forall i | 0 <= i < |rows|
        ensures EdgesReached(edges, rows[i].gos) != b
      {
        assert FallsAt(rows, edges, b)(i) ==> i in at;
      }
    } else {
      assert at[0] in at;
      assert FallsAt(rows, edges, b)(at[0]);
    }
  }

  lemma StrictIff(edges: seq<real>)
    requires |edges| == 4
    ensures StrictlyAscending(edges) <==> edges[0] < edges[1] && edges[1] < edges[2] && edges[2] < edges[3]
  {
    if StrictlyAscending(edges) {
      assert edges[0] < edges[0 + 1] && edges[1] < edges[1 + 1] && edges[2] < edges[2 + 1];
    }
  }

  lemma BrokenIff(rows: seq<Row>, edges: seq<real>)
    requires |edges| == 4
    ensures Broken(rows, edges) <==> !StrictlyAscending(edges) || EmptyBucket(rows, edges)
  {
    StrictIff(edges);
    forall b: nat | b < 5
      ensures InBucket(rows, edges, b) == [] <==> NoneFalls(rows, edges, b)
    {
      EmptyIff(rows, edges, b);
    }
  }

  lemma LargestRests(rows: seq<Row>, edges: seq<real>, draws: Draws, k: nat)
    requires IsLargestPrefix(rows, edges, draws, N_BUCKETS, k)
    ensures RestsOn(rows, edges, draws, k)
  {
    if k > 0 {
      PrefixIsJudged(rows, edges, draws, k, true);
    }
    forall j | k < j <= 5
      ensures IsJudged(rows, edges, draws, j, false)
    {
      PrefixIsJudged(rows, edges, draws, j, false);
    }
  }

  lemma FitIsPlain(rows: seq<Row>, draws: Draws, edges: seq<real>, k: nat, gStar: Option<real>)
    requires rows != [] && AreEdges(rows, edges) && |edges| == 4 && !Broken(rows, edges)
    requires RestsOn(rows, edges, draws, k) && IsGStar(rows, edges, k, gStar)
    ensures GateTells(rows, draws, Fitted(edges, k, gStar))
  {}

  lemma DegenerateTells(rows: seq<Row>, draws: Draws, edges: seq<real>)
    requires rows != [] && edges == Edges(GosOf(rows))
    requires !StrictlyAscending(edges) || EmptyBucket(rows, edges)
    ensures GateTells(rows, draws, Degenerate)
  {
    EdgesAreEdges(rows, GosOf(rows), edges);
    BrokenIff(rows, edges);
    BrokenTells(rows, draws, edges);
  }

  lemma BrokenTells(rows: seq<Row>, draws: Draws, edges: seq<real>)
    requires rows != [] && |edges| == 4 && AreEdges(rows, edges) && Broken(rows, edges)
    ensures GateTells(rows, draws, Degenerate)
  {}

  lemma FittedTells(rows: seq<Row>, draws: Draws, edges: seq<real>, k: nat, gStar: Option<real>)
    requires rows != [] && edges == Edges(GosOf(rows)) && StrictlyAscending(edges) && !EmptyBucket(rows, edges)
    requires IsLargestPrefix(rows, edges, draws, N_BUCKETS, k) && IsGStar(rows, edges, k, gStar)
    ensures GateTells(rows, draws, Fitted(edges, k, gStar))
  {
    EdgesAreEdges(rows, GosOf(rows), edges);
    BrokenIff(rows, edges);
    LargestRests(rows, edges, draws, k);
    FitIsPlain(rows, draws, edges, k, gStar);
  }

  /** Fit the gate: refuse degenerate quintiles, then keep the largest prefix of buckets whose
      pooled bootstrap lower bound is positive. A gate always holds a row that gains. */
  method FitGate(rows: seq<Row>, draws: Draws) returns (fit: Fit)
    ensures fit.NoRows? <==> rows == []
    ensures rows != [] ==>
              (fit.Degenerate? <==> !StrictlyAscending(Edges(GosOf(rows))) || EmptyBucket(rows, Edges(GosOf(rows))))
    ensures fit.Fitted? ==>
              && fit.edges == Edges(GosOf(rows)) && IsLargestPrefix(rows, fit.edges, draws, N_BUCKETS, fit.k)
              && (fit.gStar.None? <==> fit.k == 0)
              && (fit.k > 0 ==>
                    var gated := Prefix(rows, fit.edges, fit.k);
                    IsCutoff(rows, gated, fit.k, fit.gStar.value) && exists r :: r in gated && r.payoff > 0.0)
    ensures GateTells(rows, draws, fit)
  {
    if rows == [] {
      return NoRows;
    }
    var edges := Edges(GosOf(rows));
    var buckets := FillBuckets(rows, edges);
    if !StrictlyAscending(edges) || exists b :: 0 <= b < |buckets| && buckets[b] == [] {
      DegenerateTells(rows, draws, edges);
      return Degenerate;
    }
    var k := LargestPrefix(rows, edges, draws, N_BUCKETS);
    if k == 0 {
      FittedTells(rows, draws, edges, 0, None);
      return Fitted(edges, 0, None);
    }
    EdgesAscend(GosOf(rows));
    ClearingNeedsGain(draws, Prefix(rows, edges, k));
    var gStar := Cutoff(rows, edges, k);
    FittedTells(rows, draws, edges, k, Some(gStar));
    return Fitted(edges, k, Some(gStar));
  }

  /** `verdicts[j]` says whether the first `j` buckets clear. */
  ghost predicate Judges(verdicts: seq<bool>, rows: seq<Row>, edges: seq<real>, draws: Draws, buckets: nat) {
    && |verdicts| == buckets + 1
    && (forall j {:trigger PrefixClears(rows, edges, draws, j)} :: 0 <= j <= buckets ==>
          verdicts[j] == PrefixClears(rows, edges, draws, j))
  }

  method LargestPrefix(rows: seq<Row>, edges: seq<real>, draws: Draws, buckets: nat) returns (k: nat)
    ensures IsLargestPrefix(rows, edges, draws, buckets, k)
  {
    ghost var verdicts := seq(buckets + 1, j requires 0 <= j <= buckets => PrefixClears(rows, edges, draws, j));
    k := ScanDown(rows, edges, draws, buckets, verdicts);
  }

  /** Scan down from all buckets to the first prefix that clears. */
  method ScanDown(rows: seq<Row>, edges: seq<real>, draws: Draws, buckets: nat, ghost verdicts: seq<bool>)
    returns (k: nat)
    requires Judges(verdicts, rows, edges, draws, buckets)
    ensures k <= buckets && (k > 0 ==> verdicts[k])
    ensures forall j :: k < j <= buckets ==> !verdicts[j]
  {
    k := buckets;
    while k > 0
      invariant 0 <= k <= buckets
      invariant forall j :: k < j <= buckets ==> !verdicts[j]
    {
      var clears := TestPrefix(rows, edges, draws, buckets, verdicts, k);
      if clears {
        return;
      }
      k := k - 1;
    }
  }

  method TestPrefix(rows: seq<Row>, edges: seq<real>, draws: Draws, buckets: nat, ghost verdicts: seq<bool>, k: nat)
    returns (clears: bool)
    requires Judges(verdicts, rows, edges, draws, buckets) && k <= buckets
    ensures clears == verdicts[k]
  {
    var pooled := Prefix(rows, edges, k);
    var ci := BootstrapCi(ObsOf(pooled), draws(ObsOf(pooled)));
    clears := ci.Some? && ci.value.lb > 0.0;
    assert clears == PrefixClears(rows, edges, draws, k);
  }

  /** The cutoff reported for a gate of `k` buckets. */
  method Cutoff(rows: seq<Row>, edges: seq<real>, k: nat) returns (gStar: real)
    requires rows != [] && |edges| == 4 && Ascending(edges) && 1 <= k <= N_BUCKETS
    ensures IsCutoff(rows, Prefix(rows, edges, k), k, gStar)
    ensures IsGStar(rows, edges, k, Some(gStar))
  {
    forall r
      ensures k <= 4 ==> (r in Prefix(rows, edges, k) <==> r in rows && r.gos < edges[k - 1])
      ensures k == N_BUCKETS ==> (r in Prefix(rows, edges, k) <==> r in rows)
    {
      GateIsThreshold(rows, edges, k, r);
    }
    if k <= 4 {
      return edges[k - 1];
    }
    gStar := Greatest(rows);
  }

  method Greatest(rows: seq<Row>) returns (top: real)
    requires rows != []
    ensures forall r :: r in rows ==> r.gos <= top
    ensures exists r :: r in rows && r.gos == top
  {
    top := rows[0].gos;
    ghost var at := 0;
    for i := 1 to |rows|
      invariant 0 <= at < i && rows[at].gos == top
      invariant forall j :: 0 <= j < i ==> rows[j].gos <= top
    {
      if rows[i].gos > top {
        top, at := rows[i].gos, i;
      }
    }
    assert rows[at] in rows;
  }

  /** A gate below the top bucket is a threshold: a row is gated exactly when its G/sigma is below
      the cutoff edge. A gate of all buckets holds every row. */
  lemma GateIsThreshold(rows: seq<Row>, edges: seq<real>, k: nat, r: Row)
    requires |edges| == 4 && Ascending(edges) && 1 <= k <= N_BUCKETS
    ensures k <= 4 ==> (r in Prefix(rows, edges, k) <==> r in rows && r.gos < edges[k - 1])
    ensures k == N_BUCKETS ==> (r in Prefix(rows, edges, k) <==> r in rows)
  {
    PrefixMembers(rows, edges, k, r);
    BucketInterval(r.gos, edges);
  }

  // ----- When the cutoff is no threshold -----

  /** The cutoff of a fitted gate reads as "below it" if and only if the rows of all buckets together
      do not clear. */
  lemma ThresholdReadingIff(rows: seq<Row>, edges: seq<real>, draws: Draws, k: nat, gStar: real)
    requires IsLargestPrefix(rows, edges, draws, N_BUCKETS, k) && k > 0
    requires IsCutoff(rows, Prefix(rows, edges, k), k, gStar)
    ensures (forall r :: r in Prefix(rows, edges, k) <==> r in rows && r.gos < gStar) <==>
              !PrefixClears(rows, edges, draws, N_BUCKETS)
  {
    if k == N_BUCKETS {
      var r :| r in rows && r.gos == gStar;
      assert r in Prefix(rows, edges, k);
    }
  }

  /** Rows that all gain clear, whatever days are drawn, as long as a draw pools anything. */
  lemma GainersClear(draws: Draws, rows: seq<Row>, lo: real)
    requires lo > 0.0 && forall i :: 0 <= i < |rows| ==> lo <= rows[i].payoff
    requires Means(ObsOf(rows), draws(ObsOf(rows))) != []
    ensures Clears(draws, rows)
  {
    var hi := SomeUpperBound(rows);
    BootstrapWithin(ObsOf(rows), draws(ObsOf(rows)), lo, hi);
  }

  lemma {:induction false} SomeUpperBound(rows: seq<Row>) returns (hi: real)
    ensures forall i :: 0 <= i < |rows| ==> rows[i].payoff <= hi
  {
    if rows == [] {
      hi := 0.0;
    } else {
      var rest, last := rows[..|rows| - 1], rows[|rows| - 1];
      hi := SomeUpperBound(rest);
      assert forall i :: 0 <= i < |rest| ==> rows[i].payoff <= hi;
      if last.payoff > hi {
        hi := last.payoff;
      }
    }
  }

  /** Sorting an ascending list changes nothing. */
  lemma {:induction false} SortIsIdle(s: seq<real>)
    requires Ascending(s)
    ensures Sort(s) == s
  {
    if s == [] {
    } else {
      SortIsIdle(s[..|s| - 1]);
    }
  }

  // Five winning rows of one day, one in each quintile, and the one draw that day allows.
  const WINNERS := [Row(0, 0, 0.0, 1.0), Row(1, 0, 1.0, 1.0), Row(2, 0, 2.0, 1.0), Row(3, 0, 3.0, 1.0), Row(4, 0, 4.0, 1.0)]
  const ONE_DAY: Draws := (obs: seq<Obs>) => [[0]]

  /** The five values 0, 1, 2, 3 and 4. */
  predicate IsRamp(s: seq<real>) {
    |s| == 5 && forall i :: 0 <= i < |s| ==> s[i] == i as real
  }

  lemma RampQuantile(s: seq<real>, k: nat, f: real)
    requires IsRamp(s) && k < 4 && 0.0 <= f < 1.0
    ensures 0.0 <= (k as real + f) / 4.0 <= 1.0 && Quantile(s, (k as real + f) / 4.0) == k as real + f
  {
    QuantileHitsOrderStatistics(s, k, f);
  }

  lemma RampEdges(gos: seq<real>)
    requires IsRamp(gos)
    ensures Edges(gos) == [0.8, 1.6, 2.4, 3.2]
  {
    SortIsIdle(gos);
    RampQuantile(gos, 0, 0.8);
    RampQuantile(gos, 1, 0.6);
    RampQuantile(gos, 2, 0.4);
    RampQuantile(gos, 3, 0.2);
  }

  lemma {:induction false} DayPools(obs: seq<Obs>, i: nat)
    requires i < |obs| && obs[i].day == 0 && obs[i].value.Some?
    ensures DayValues(obs, 0) != []
  {
    if i == |obs| - 1 {
    } else {
      DayPools(obs[..|obs| - 1], i);
    }
  }

  lemma OneDayPools(rows: seq<Row>, r: Row)
    requires r in rows && r.day == 0
    ensures Means(ObsOf(rows), [[0]]) != []
  {
    var obs := ObsOf(rows);
    var i :| 0 <= i < |rows| && rows[i] == r;
    DayPools(obs, i);
    assert [[0]][..0] == [] && [0][..0] == [];
    assert PooledValues(obs, []) == [];
    assert PooledValues(obs, [0]) == DayValues(obs, 0);
  }

  /** All five buckets can be gated: these rows are not degenerate, their gate is everything, and the
      reported cutoff, the largest value, is not below itself. */
  lemma AllBucketsGated()
    ensures var edges := Edges(GosOf(WINNERS));
            && StrictlyAscending(edges) && !EmptyBucket(WINNERS, edges)
            && IsLargestPrefix(WINNERS, edges, ONE_DAY, N_BUCKETS, N_BUCKETS)
  {
    RampEdges(GosOf(WINNERS));
    var edges := Edges(GosOf(WINNERS));
    WinnersFill(edges);
    GainersGate(WINNERS, edges, N_BUCKETS);
  }

  /** Rows of day 0 that all pay 1 and lie in the first `k` buckets clear together. */
  lemma GainersGate(rows: seq<Row>, edges: seq<real>, k: nat)
    requires rows != [] && forall r :: r in rows ==> r.day == 0 && r.payoff == 1.0 && BucketOf(r.gos, edges) < k
    ensures PrefixClears(rows, edges, ONE_DAY, k)
  {
    var gated := Prefix(rows, edges, k);
    forall i | 0 <= i < |gated|
      ensures gated[i].payoff == 1.0
    {
      PrefixMembers(rows, edges, k, gated[i]);
    }
    assert rows[0] in rows;
    PrefixMembers(rows, edges, k, rows[0]);
    OneDayPools(gated, rows[0]);
    GainersClear(ONE_DAY, gated, 1.0);
  }

  lemma RampBucket(b: nat, edges: seq<real>)
    requires b < N_BUCKETS && edges == [0.8, 1.6, 2.4, 3.2]
    ensures BucketOf(b as real, edges) == b
  {
    var bucket := BucketOf(b as real, edges);
    BucketInterval(b as real, edges);
    assert b < 4 ==> b as real < edges[b];
    assert b > 0 ==> edges[b - 1] <= b as real;
  }

  lemma WinnersFill(edges: seq<real>)
    requires edges == [0.8, 1.6, 2.4, 3.2]
    ensures !EmptyBucket(WINNERS, edges)
  {
    forall b | 0 <= b < N_BUCKETS
      ensures InBucket(WINNERS, edges, b) != []
    {
      RampBucket(b, edges);
      InBucketMembers(WINNERS, edges, b, WINNERS[b]);
    }
  }
}
