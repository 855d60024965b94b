/** From dates to a tape file: the hour grid and the census (sim/census.py) decide which windows are
    eligible, each eligible row is matched with its two markets (sim/tape_sim.py), and the windows are
    walked. What the pass theorems ask of their windows is derived here from the grid. */
module Pipeline {
  import opened Sequences
  import opened Settlement
  import opened Rounding
  import opened TapeRows
  import Census
  import Fees
  import Gate
  import Policy
  import PriceGrid
  import Surface

  // ----- The hour grid -----

  const HOUR := 3600
  const DAY := 86400

  predicate Rising(s: seq<int>) {
    forall i, j :: 0 <= i < j < |s| ==> s[i] < s[j]
  }

  /** Put a day into a rising list of days, once. */
  function InsertDay(days: seq<int>, d: int): seq<int> {
    if days == [] then [d]
    else
      var rest, last := days[..|days| - 1], days[|days| - 1];
      if last < d then days + [d] else if last == d then days else InsertDay(rest, d) + [last]
  }

  /** The requested days, sorted and without repeats. */
  function DaysOf(dates: seq<int>): seq<int> {
    if dates == [] then [] else InsertDay(DaysOf(dates[..|dates| - 1]), dates[|dates| - 1])
  }

  /** The first `n` full hours of a day, the last of which is midnight of the next one. */
  function HoursOf(day: int, n: nat): seq<int> {
    if n == 0 then [] else HoursOf(day, n - 1) + [day * DAY + n * HOUR]
  }

  function Grid(days: seq<int>): seq<int> {
    if days == [] then [] else Grid(days[..|days| - 1]) + HoursOf(days[|days| - 1], 24)
  }

  lemma {:induction false} InsertDayMembers(days: seq<int>, d: int, x: int)
    ensures x in InsertDay(days, d) <==> x in days || x == d
  {
    if days == [] {
    } else {
      var rest, last := days[..|days| - 1], days[|days| - 1];
      assert days == rest + [last];
      InsertDayMembers(rest, d, x);
    }
  }

  lemma {:induction false} InsertDayRises(days: seq<int>, d: int)
    requires Rising(days)
    ensures Rising(InsertDay(days, d))
  {
    if days == [] {
    } else {
      var rest, last := days[..|days| - 1], days[|days| - 1];
      if d < last {
        InsertDayRises(rest, d);
        var s := InsertDay(rest, d);
        forall i | 0 <= i < |s|
          ensures s[i] < last
        {
          InsertDayMembers(rest, d, s[i]);
        }
      }
    }
  }

  lemma {:induction false} DaysRise(dates: seq<int>)
    ensures Rising(DaysOf(dates))
  {
    if dates == [] {
    } else {
      DaysRise(dates[..|dates| - 1]);
      InsertDayRises(DaysOf(dates[..|dates| - 1]), dates[|dates| - 1]);
    }
  }

  ghost predicate Between(s: seq<int>, lo: int, hi: int) {
    forall i :: 0 <= i < |s| ==> lo < s[i] <= hi
  }

  lemma {:induction false} HoursRise(day: int, n: nat)
    ensures Rising(HoursOf(day, n)) && Between(HoursOf(day, n), day * DAY, day * DAY + n * HOUR)
  {
    if n == 0 {
    } else {
      HoursRise(day, n - 1);
    }
  }

  lemma JoinRises(a: seq<int>, b: seq<int>, mid: int)
    requires Rising(a) && Rising(b)
    requires forall i :: 0 <= i < |a| ==> a[i] <= mid
    requires forall i :: 0 <= i < |b| ==> mid < b[i]
    ensures Rising(a + b)
  {}

  /** The grid is strictly increasing, so sorting it changes nothing and no close time repeats. */
  lemma {:induction false} GridRises(days: seq<int>)
    requires Rising(days)
    ensures Rising(Grid(days))
    ensures days != [] ==> forall i :: 0 <= i < |Grid(days)| ==> Grid(days)[i] <= (days[|days| - 1] + 1) * DAY
  {
    if days == [] {
    } else {
      var rest, last := days[..|days| - 1], days[|days| - 1];
      GridRises(rest);
      HoursRise(last, 24);
      assert rest != [] ==> rest[|rest| - 1] + 1 <= last;
      JoinRises(Grid(rest), HoursOf(last, 24), last * DAY);
    }
  }

  /** The day an hour of the grid belongs to; midnight closes the day before. */
  function DateOf(T: int): int {
    (T - 1) / DAY
  }

  /** Every hour of a day's grid, midnight included, is dated to that day. */
  lemma {:induction false} HourIsDated(day: int, n: nat, T: int)
    requires n <= 24 && T in HoursOf(day, n)
    ensures DateOf(T) == day
  {
    if T in HoursOf(day, n - 1) {
      HourIsDated(day, n - 1, T);
    } else {
      assert T == day * DAY + n * HOUR;
    }
  }

  /** Every hour of the grid is dated to a requested day whose hours it is among. */
  lemma {:induction false} GridIsDated(days: seq<int>, T: int)
    requires T in Grid(days)
    ensures DateOf(T) in days && T in HoursOf(DateOf(T), 24)
  {
    var rest, last := days[..|days| - 1], days[|days| - 1];
    if T in Grid(rest) {
      GridIsDated(rest, T);
    } else {
      HourIsDated(last, 24, T);
    }
  }

  method BuildGrid(dates: seq<int>) returns (grid: seq<int>)
    ensures grid == Grid(DaysOf(dates)) && Rising(grid)
    ensures IsGrid(dates, grid)
  {
    GridIsGrid(dates);
    var days := DaysOf(dates);
    grid := [];
    for i := 0 to |days|
      invariant grid == Grid(days[..i])
    {
      assert days[..i + 1][..i] == days[..i];
      ghost var before := grid;
      for h := 0 to 24
        invariant grid == before + HoursOf(days[i], h)
      {
        grid := grid + [days[i] * DAY + (h + 1) * HOUR];
      }
    }
    assert days[..|days|] == days;
    DaysRise(dates);
    GridRises(days);
  }

  // ----- The inputs of a run -----

  /** The market files, indexed by close time. */
  datatype Corpus = Corpus(
    m15: map<int, Census.Market>, h1: map<int, seq<Census.Market>>,
    candlesAAbove: int -> Census.Candles, candlesKAbove: int -> Census.Candles)

  /** The quintile edges and the pin rate of each quintile. */
  datatype Curve = Curve(edges: seq<real>, pinRates: seq<real>)

  datatype Inputs = Inputs(
    corpus: Corpus, anchors: Census.Tape, stdev: Census.Stdev, curve: Curve,
    trades15: map<int, seq<Trade>>, trades1h: map<int, seq<Trade>>)

  predicate CurveFits(curve: Curve) {
    |curve.edges| == 4 && |curve.pinRates| == 5
  }

  function HourAt(c: Corpus, T: int): Census.HourInput {
    Census.HourInput(T, if T in c.m15 then Some(c.m15[T]) else None, if T in c.h1 then c.h1[T] else [],
                     c.candlesAAbove(T), c.candlesKAbove(T))
  }

  function RowAt(x: Inputs, T: int): Settled<Census.Row> {
    Census.BuildRow(x.anchors, x.stdev, HourAt(x.corpus, T))
  }

  // ----- The markets of an eligible row -----

  /** The market's strike agrees with the row's written strike to the cent. */
  predicate AtCents(cents: real, m: Census.Market) {
    m.strike.Some? && Round2(m.strike.value) == cents
  }

  /** The 15-minute and hourly markets of a row, found again by its written strikes. */
  function LegsFor(c: Corpus, T: int, row: Census.Row): Settled<(Census.Market, Census.Market)>
    requires row.A.Some? && row.K.Some?
  {
    if T !in c.m15 || !AtCents(Round2(Round2(row.A.value)), c.m15[T]) then IntegrityError
    else
      var cents := Round2(Round2(row.K.value));
      var cands := Filter((m: Census.Market) => AtCents(cents, m), if T in c.h1 then c.h1[T] else []);
      if |cands| != 1 || row.A == row.K then IntegrityError else Settled((c.m15[T], cands[0]))
  }

  /** Some other hourly market has a strike that is written like the chosen one. */
  ghost predicate Ambiguous(ms: seq<Census.Market>, k: nat)
    requires k < |ms| && ms[k].strike.Some?
  {
    exists i :: 0 <= i < |ms| && i != k && AtCents(Round2(ms[k].strike.value), ms[i])
  }

  lemma UniqueMatch(ms: seq<Census.Market>, k: nat)
    requires k < |ms| && ms[k].strike.Some?
    ensures var cands := Filter((m: Census.Market) => AtCents(Round2(ms[k].strike.value), m), ms);
            && (|cands| == 1 <==> !Ambiguous(ms, k))
            && (|cands| == 1 ==> cands[0] == ms[k])
  {
    var cents := Round2(ms[k].strike.value);
    var keep := (m: Census.Market) => AtCents(cents, m);
    FilterCount(keep, ms);
    FilterMembers(keep, ms, ms[k]);
    var kept := Kept(keep, ms);
    assert k in kept;
    if Ambiguous(ms, k) {
      var i :| 0 <= i < |ms| && i != k && AtCents(cents, ms[i]);
      assert {i, k} <= kept;
      assert |{i, k}| == 2;
      Surface.SubsetCount({i, k}, kept);
    } else {
      assert kept == {k};
    }
  }

  /** The matching never drifts from the census for any other reason: it fails on an eligible row if
      and only if two hourly strikes of the hour are written alike, and otherwise finds the pair that
      the census priced. */
  lemma LegsIff(x: Inputs, T: int)
    requires RowAt(x, T).Settled? && Census.Eligible(RowAt(x, T).value)
    ensures var row, h := RowAt(x, T).value, HourAt(x.corpus, T);
            && row.A.Some? && row.K.Some? && h.hourly != [] && Census.Struck(h.hourly)
            && var k := Census.NearestAt(row.A.value, h.hourly);
               && (LegsFor(x.corpus, T, row).Settled? <==> !Ambiguous(h.hourly, k))
               && (LegsFor(x.corpus, T, row).Settled? ==>
                     LegsFor(x.corpus, T, row).value == (h.m15.value, h.hourly[k]))
  {
    var row, h := RowAt(x, T).value, HourAt(x.corpus, T);
    Census.EligibleRowsSettle(x.anchors, x.stdev, h);
    Census.NarrowIff(row.A.value, row.K.value);
    var k := Census.NearestAt(row.A.value, h.hourly);
    assert row.K == h.hourly[k].strike;
    Round2IsIdempotent(row.A.value);
    Round2IsIdempotent(row.K.value);
    UniqueMatch(h.hourly, k);
  }

  /** On strikes in whole cents the matching always finds the pair that the census priced. */
  lemma CentStrikesMatch(x: Inputs, T: int)
    requires RowAt(x, T).Settled? && Census.Eligible(RowAt(x, T).value)
    requires InCents(HourAt(x.corpus, T).hourly)
    ensures RowAt(x, T).value.A.Some? && RowAt(x, T).value.K.Some?
    ensures LegsFor(x.corpus, T, RowAt(x, T).value).Settled?
  {
    LegsIff(x, T);
    var row, h := RowAt(x, T).value, HourAt(x.corpus, T);
    Census.EligibleRowsSettle(x.anchors, x.stdev, h);
    CentsAreUnambiguous(row.A.value, h.hourly);
  }

  predicate InCents(ms: seq<Census.Market>) {
    forall i :: 0 <= i < |ms| && ms[i].strike.Some? ==> Round2(ms[i].strike.value) == ms[i].strike.value
  }

  /** In whole cents a strike written like the uniquely nearest one is that strike. */
  lemma CentsAreUnambiguous(A: real, ms: seq<Census.Market>)
    requires ms != [] && Census.Struck(ms) && InCents(ms) && !Census.Tied(A, ms)
    ensures !Ambiguous(ms, Census.NearestAt(A, ms))
  {
    var k := Census.NearestAt(A, ms);
    forall i | 0 <= i < |ms| && i != k
      ensures !AtCents(Round2(ms[k].strike.value), ms[i])
    {
      assert Census.Distance(A, ms[i]) != Census.Distance(A, ms[k]);
    }
  }

  // An hour whose two hourly strikes are written alike although one of them is uniquely nearest.
  const CLOSE := 3600
  const BLANK_CANDLES := Census.Candles(None, None, None, None)
  const ANCHOR_MARKET := Census.Market(10, Some(90.0), GreaterOrEqual, Some(95.0), Yes)
  const SUB_CENT_MARKETS :=
    [Census.Market(1, Some(100.001), Greater, Some(95.0), No), Census.Market(2, Some(100.004), Greater, Some(95.0), No)]
  const SUB_CENT_INPUTS := Inputs(
    Corpus(map[CLOSE := ANCHOR_MARKET], map[CLOSE := SUB_CENT_MARKETS],
           (T: int) => BLANK_CANDLES, (T: int) => BLANK_CANDLES),
    map e: int | -3600 <= e <= 3600 :: 90.0, (d: seq<real>) => 1.0, Curve([0.0, 1.0, 2.0, 3.0], [0.0, 0.0, 0.0, 0.0, 0.0]),
    map[], map[])

  /** The matching does fail on an eligible row: the census pairs the anchor with the strike 100.001, and
      100.004 is written like it. */
  lemma SubCentStrikesAreAmbiguous()
    ensures var row := RowAt(SUB_CENT_INPUTS, CLOSE);
            && row.Settled? && Census.Eligible(row.value) && row.value.A == Some(90.0) && row.value.K == Some(100.001)
            && LegsFor(SUB_CENT_INPUTS.corpus, CLOSE, row.value) == IntegrityError
  {
    var h := HourAt(SUB_CENT_INPUTS.corpus, CLOSE);
    var ms := h.hourly;
    assert ms == SUB_CENT_MARKETS && ms[..1] == [ms[0]];
    assert Census.Distance(90.0, ms[0]) < Census.Distance(90.0, ms[1]);
    assert Census.NearestAt(90.0, ms) == 0 && !Census.Tied(90.0, ms);
    Census.NarrowIff(90.0, 100.001);
    assert Census.HasTape(SUB_CENT_INPUTS.anchors, CLOSE);
    assert Census.SettlePair(ANCHOR_MARKET, ms[0]) == Settled(Pin);
    LegsIff(SUB_CENT_INPUTS, CLOSE);
    assert Round2(100.001) == 100.0 && Round2(100.004) == 100.0;
    assert AtCents(Round2(ms[0].strike.value), ms[1]);
  }

  // ----- The windows of a run -----

  function TradesOf(tapes: map<int, seq<Trade>>, m: Census.Market): seq<Trade> {
    if m.ticker in tapes then tapes[m.ticker] else []
  }

  predicate Complete(row: Census.Row) {
    row.A.Some? && row.K.Some? && row.gos.Some? && row.hResult.Some? && row.lResult.Some? && row.outcome.Some?
  }

  function WindowOf(x: Inputs, T: int, row: Census.Row, m15: Census.Market, h1: Census.Market): Eligible
    requires CurveFits(x.curve) && Complete(row)
  {
    var q := Gate.BucketOf(row.gos.value, x.curve.edges);
    var tape15, tape1h := TradesOf(x.trades15, m15), TradesOf(x.trades1h, h1);
    var above := row.A.value > row.K.value;
    Eligible(T, T as real, DateOf(T), Census.Gap(row.A.value, row.K.value), q, x.curve.pinRates[q],
             row.hResult.value, row.lResult.value, row.outcome.value,
             if above then tape15 else tape1h, if above then tape1h else tape15, Fees.CostC)
  }

  /** The window of a census row: none unless the row is eligible. */
  function WindowFrom(x: Inputs, T: int, row: Census.Row): Settled<Option<Eligible>>
    requires CurveFits(x.curve) && (Census.Eligible(row) ==> Complete(row))
  {
    if !Census.Eligible(row) then Settled(None)
    else
      var legs := LegsFor(x.corpus, T, row);
      if legs.IntegrityError? then IntegrityError
      else Settled(Some(WindowOf(x, T, row, legs.value.0, legs.value.1)))
  }

  lemma EligibleIsComplete(x: Inputs, T: int)
    requires RowAt(x, T).Settled? && Census.Eligible(RowAt(x, T).value)
    ensures Complete(RowAt(x, T).value)
  {
    Census.EligibleRowsSettle(x.anchors, x.stdev, HourAt(x.corpus, T));
  }

  /** The window of one hour of the grid. */
  function WindowAt(x: Inputs, T: int): Settled<Option<Eligible>>
    requires CurveFits(x.curve)
  {
    var row := RowAt(x, T);
    if row.IntegrityError? then IntegrityError
    else
      assert Census.Eligible(row.value) ==> Complete(row.value) by {
        if Census.Eligible(row.value) {
          EligibleIsComplete(x, T);
        }
      }
      WindowFrom(x, T, row.value)
  }

  /** The windows found, in order; one failure fails them all. */
  function Gathered(found: seq<Settled<Option<Eligible>>>): Settled<seq<Eligible>> {
    if found == [] then Settled([])
    else
      var rest, last := Gathered(found[..|found| - 1]), found[|found| - 1];
      if rest.IntegrityError? || last.IntegrityError? then IntegrityError
      else if last.value.None? then rest
      else Settled(rest.value + [last.value.value])
  }

  function Found(x: Inputs, ts: seq<int>): (found: seq<Settled<Option<Eligible>>>)
    requires CurveFits(x.curve)
    ensures |found| == |ts|
  {
    seq(|ts|, i requires 0 <= i < |ts| => WindowAt(x, ts[i]))
  }

  /** The eligible windows of a list of hours. */
  function WindowsAt(x: Inputs, ts: seq<int>): Settled<seq<Eligible>>
    requires CurveFits(x.curve)
  {
    Gathered(Found(x, ts))
  }

  /** The trades of a window can be read. */
  predicate Readable(w: Eligible) {
    LegStream(Yes, w.hTrades).Settled? && LegStream(Yes, w.lTrades).Settled?
  }

  /** The settlement check that the pass repeats never fails on a census row: a window can be walked
      exactly when its trades can be read. */
  lemma CensusWindowWalks(x: Inputs, T: int)
    requires CurveFits(x.curve) && WindowAt(x, T).Settled? && WindowAt(x, T).value.Some?
    ensures var w := WindowAt(x, T).value.value;
            w.closeTime == T && w.date == DateOf(T) && (Walkable(w) <==> Readable(w)) && PriceGrid.FeeLaw(w.cost)
  {
    Census.EligibleRowsSettle(x.anchors, x.stdev, HourAt(x.corpus, T));
  }

  /** The window is dated by its close, charged the fee law, and can be walked exactly when its trades
      can be read. */
  ghost predicate Sound(w: Eligible) {
    w.date == DateOf(w.closeTime) && (Walkable(w) <==> Readable(w)) && PriceGrid.FeeLaw(w.cost)
  }

  /** Each window found is sound and belongs to its hour. */
  ghost predicate FoundAt(found: seq<Settled<Option<Eligible>>>, ts: seq<int>) {
    && |found| == |ts|
    && (forall i :: 0 <= i < |found| && found[i].Settled? && found[i].value.Some? ==>
          found[i].value.value.closeTime == ts[i] && Sound(found[i].value.value))
  }

  lemma CensusWindowsAreFound(x: Inputs, ts: seq<int>)
    requires CurveFits(x.curve)
    ensures FoundAt(Found(x, ts), ts)
  {
    var found := Found(x, ts);
    forall i | 0 <= i < |found| && found[i].Settled? && found[i].value.Some?
      ensures found[i].value.value.closeTime == ts[i] && Sound(found[i].value.value)
    {
      CensusWindowWalks(x, ts[i]);
    }
  }

  /** Along a rising list of hours the windows' close times rise too. */
  lemma {:induction false} GatheredRises(found: seq<Settled<Option<Eligible>>>, ts: seq<int>)
    requires FoundAt(found, ts) && Rising(ts) && Gathered(found).Settled?
    ensures var ws := Gathered(found).value;
            Rising(Closes(ws)) && forall i :: 0 <= i < |ws| ==> Closes(ws)[i] in ts
  {
    if found == [] {
    } else {
      var n := |found| - 1;
      GatheredRises(found[..n], ts[..n]);
      var before := Gathered(found[..n]).value;
      if found[n].value.Some? {
        assert Closes(before + [found[n].value.value]) == Closes(before) + [ts[n]];
        JoinRises(Closes(before), [ts[n]], ts[n] - 1);
      }
    }
  }

  lemma {:induction false} GatheredWalks(found: seq<Settled<Option<Eligible>>>, ts: seq<int>)
    requires FoundAt(found, ts) && Gathered(found).Settled?
    ensures var ws := Gathered(found).value;
            forall i :: 0 <= i < |ws| ==> Sound(ws[i])
  {
    if found == [] {
    } else {
      var n := |found| - 1;
      GatheredWalks(found[..n], ts[..n]);
    }
  }

  lemma RisingIsDistinct(s: seq<int>)
    requires Rising(s)
    ensures Distinct(s)
  {}

  ghost predicate AllReadable(ws: seq<Eligible>) {
    forall i :: 0 <= i < |ws| ==> Readable(ws[i])
  }

  /** Everything the pass theorems ask of their windows holds of the windows of any run. */
  lemma RunWindowsAreReady(x: Inputs, dates: seq<int>)
    requires CurveFits(x.curve) && WindowsAt(x, Grid(DaysOf(dates))).Settled?
    ensures var ws := WindowsAt(x, Grid(DaysOf(dates))).value;
            && Distinct(Closes(ws)) && (AllWalkable(ws) <==> AllReadable(ws))
            && (forall i :: 0 <= i < |ws| ==> PriceGrid.FeeLaw(ws[i].cost))
  {
    DaysRise(dates);
    GridRises(DaysOf(dates));
    var ts := Grid(DaysOf(dates));
    CensusWindowsAreFound(x, ts);
    GatheredRises(Found(x, ts), ts);
    GatheredWalks(Found(x, ts), ts);
    RisingIsDistinct(Closes(WindowsAt(x, Grid(DaysOf(dates))).value));
  }

  /** Every window of a run carries one of the requested dates, and closes at an hour of that day. */
  lemma RunWindowsAreDated(x: Inputs, dates: seq<int>, i: nat)
    requires CurveFits(x.curve) && WindowsAt(x, Grid(DaysOf(dates))).Settled?
    requires i < |WindowsAt(x, Grid(DaysOf(dates))).value|
    ensures var w := WindowsAt(x, Grid(DaysOf(dates))).value[i];
            w.date in dates && w.closeTime in HoursOf(w.date, 24)
  {
    var ts := Grid(DaysOf(dates));
    var w := WindowsAt(x, ts).value[i];
    DaysRise(dates);
    GridRises(DaysOf(dates));
    CensusWindowsAreFound(x, ts);
    GatheredRises(Found(x, ts), ts);
    GatheredWalks(Found(x, ts), ts);
    assert Closes(WindowsAt(x, ts).value)[i] == w.closeTime;
    GridIsDated(DaysOf(dates), w.closeTime);
    DaysArePlain(dates, w.date);
  }

  // ----- The run -----

  /** Collect the windows, stopping at an integrity failure. */
  method Gather(found: seq<Settled<Option<Eligible>>>) returns (ws: Settled<seq<Eligible>>)
    ensures ws == Gathered(found)
  {
    var all: seq<Eligible> := [];
    for i := 0 to |found|
      invariant Gathered(found[..i]) == Settled(all)
    {
      assert found[..i + 1][..i] == found[..i];
      if found[i].IntegrityError? {
        FailureIsFinal(found, i);
        return IntegrityError;
      }
      if found[i].value.Some? {
        all := all + [found[i].value.value];
      }
    }
    assert found[..|found|] == found;
    ws := Settled(all);
  }

  lemma {:induction false} FailureIsFinal(found: seq<Settled<Option<Eligible>>>, i: nat)
    requires i < |found| && found[i].IntegrityError?
    ensures Gathered(found).IntegrityError?
  {
    if i == |found| - 1 {
    } else {
      FailureIsFinal(found[..|found| - 1], i);
    }
  }

  /** What the census rows of the grid give: the same windows, found from the rows. */
  method FindWindows(x: Inputs, grid: seq<int>, rows: seq<Census.Row>) returns (found: seq<Settled<Option<Eligible>>>)
    requires CurveFits(x.curve) && |rows| == |grid|
    requires forall i :: 0 <= i < |grid| ==> RowAt(x, grid[i]) == Settled(rows[i])
    ensures found == Found(x, grid)
  {
    found := [];
    for i := 0 to |grid|
      invariant found == Found(x, grid)[..i]
    {
      ghost var goal := Found(x, grid);
      var w := FindWindow(x, grid[i], rows[i]);
      assert goal[..i + 1] == goal[..i] + [w];
      found := found + [w];
    }
  }

  method FindWindow(x: Inputs, T: int, row: Census.Row) returns (w: Settled<Option<Eligible>>)
    requires CurveFits(x.curve) && RowAt(x, T) == Settled(row)
    ensures w == WindowAt(x, T)
  {
    if Census.Eligible(row) {
      EligibleIsComplete(x, T);
    }
    w := WindowFrom(x, T, row);
  }

  function HoursAt(c: Corpus, ts: seq<int>): (hours: seq<Census.HourInput>)
    ensures |hours| == |ts|
  {
    seq(|ts|, i requires 0 <= i < |ts| => HourAt(c, ts[i]))
  }

  // ----- The run in plain terms -----

  /** `T` is a full hour of the day, one o'clock to midnight. */
  ghost predicate HourOf(day: int, T: int) {
    exists h :: 1 <= h <= 24 && IsHourAt(day, h, T)
  }

  predicate IsHourAt(day: int, h: int, T: int) {
    T == 86400 * day + 3600 * h
  }

  /** The 24 full hours of each requested day, from one o'clock to midnight, in order and once each. */
  ghost predicate IsGrid(dates: seq<int>, grid: seq<int>) {
    && (forall i, j :: 0 <= i < j < |grid| ==> grid[i] < grid[j])
    && (forall T :: T in grid <==> exists day :: day in dates && HourOf(day, T))
  }

  /** What the files hold for one hour. */
  ghost predicate IsHour(c: Corpus, T: int, h: Census.HourInput) {
    && h.T == T && h.m15 == (if T in c.m15 then Some(c.m15[T]) else None)
    && h.hourly == (if T in c.h1 then c.h1[T] else [])
    && h.candlesAAbove == c.candlesAAbove(T) && h.candlesKAbove == c.candlesKAbove(T)
  }

  ghost predicate IsCensusRow(x: Inputs, T: int, row: Census.Row) {
    exists h :: IsHour(x.corpus, T, h) && Census.RowTells(x.anchors, x.stdev, h, Settled(row))
  }

  /** The tapes of the high and the low market: the 15-minute one is high when the anchor is above the strike. */
  ghost predicate HasTapes(x: Inputs, above: bool, m15: Census.Market, h1: Census.Market, w: Eligible) {
    var tape15 := if m15.ticker in x.trades15 then x.trades15[m15.ticker] else [];
    var tape1h := if h1.ticker in x.trades1h then x.trades1h[h1.ticker] else [];
    w.hTrades == (if above then tape15 else tape1h) && w.lTrades == (if above then tape1h else tape15)
  }

  /** The window of an eligible row: its own hour and day, width, quintile and pin rate, the row's results, and
      the tapes of the anchor's market and of the hourly market at the row's strike. */
  ghost predicate WindowTells(x: Inputs, T: int, row: Census.Row, w: Eligible) {
    && row.A != None && row.K != None && row.gos != None
    && w.closeTime == T && w.T == T as real && 86400 * w.date < T <= 86400 * w.date + 86400
    && WrittenTo(100.0, w.G, Census.Apart(row.A.value, row.K.value))
    && w.quintile == Gate.EdgesReached(x.curve.edges, row.gos.value)
    && 0 <= w.quintile < |x.curve.pinRates| && w.pinRate == x.curve.pinRates[w.quintile]
    && row.hResult == Some(w.hResult) && row.lResult == Some(w.lResult) && row.outcome == Some(w.outcome)
    && T in x.corpus.m15 && T in x.corpus.h1
    && (exists k :: 0 <= k < |x.corpus.h1[T]| && x.corpus.h1[T][k].strike == row.K
                    && HasTapes(x, row.A.value > row.K.value, x.corpus.m15[T], x.corpus.h1[T][k], w))
    && PriceGrid.FeeLaw(w.cost)
  }

  ghost function WalksAt(census: seq<Census.Row>): nat -> bool {
    (i: nat) => i < |census| && (census[i].status == Census.Ok || census[i].status == Census.NoPair)
  }

  ghost function WindowOfHour(x: Inputs, grid: seq<int>, census: seq<Census.Row>): (nat, Eligible) -> bool {
    (i: nat, w: Eligible) => i < |grid| && i < |census| && WindowTells(x, grid[i], census[i], w)
  }

  /** The run: a census row for every hour of the grid, a window for every row that is OK or has no quotes, and
      the rows of walking these windows. */
  ghost predicate RunTells(x: Inputs, dates: seq<int>, staleness: real, refute: bool, rows: seq<Policy.Row>) {
    exists grid, census, ws, at ::
      && IsGrid(dates, grid)
      && |census| == |grid| && (forall i :: 0 <= i < |grid| ==> IsCensusRow(x, grid[i], census[i]))
      && Lists(|grid|, WalksAt(census), WindowOfHour(x, grid, census), at, ws)
      && PassWalked(ws, staleness, refute, rows)
  }

  lemma {:induction false} HoursArePlain(day: int, n: nat, T: int)
    ensures T in HoursOf(day, n) <==> exists h :: 1 <= h <= n && IsHourAt(day, h, T)
  {
    if n == 0 {
    } else {
      HoursArePlain(day, n - 1, T);
      assert IsHourAt(day, n, T) <==> T == day * DAY + n * HOUR;
    }
  }

  lemma {:induction false} GridIsPlain(days: seq<int>, T: int)
    ensures T in Grid(days) <==> exists day :: day in days && HourOf(day, T)
  {
    if days == [] {
    } else {
      var rest, last := days[..|days| - 1], days[|days| - 1];
      assert days == rest + [last];
      GridIsPlain(rest, T);
      HoursArePlain(last, 24, T);
      GridMore(rest, last, T);
    }
  }

  lemma GridMore(rest: seq<int>, last: int, T: int)
    ensures T in Grid(rest + [last]) <==> T in Grid(rest) || T in HoursOf(last, 24)
    ensures (exists day :: day in rest + [last] && HourOf(day, T)) <==>
              (exists day :: day in rest && HourOf(day, T)) || HourOf(last, T)
  {
    assert (rest + [last])[..|rest|] == rest;
    assert last in rest + [last];
    if day :| day in rest && HourOf(day, T) {
      assert day in rest + [last];
    }
  }

  lemma {:induction false} DaysArePlain(dates: seq<int>, day: int)
    ensures day in DaysOf(dates) <==> day in dates
  {
    if dates == [] {
    } else {
      var rest, last := dates[..|dates| - 1], dates[|dates| - 1];
      assert dates == rest + [last];
      DaysArePlain(rest, day);
      InsertDayMembers(DaysOf(rest), last, day);
    }
  }

  lemma GridIsGrid(dates: seq<int>)
    ensures IsGrid(dates, Grid(DaysOf(dates)))
  {
    DaysRise(dates);
    GridRises(DaysOf(dates));
    forall T
      ensures T in Grid(DaysOf(dates)) <==> exists day :: day in dates && HourOf(day, T)
    {
      GridIsPlain(DaysOf(dates), T);
      forall day: int
        ensures day in DaysOf(dates) <==> day in dates
      {
        DaysArePlain(dates, day);
      }
    }
  }

  lemma RowIsCensusRow(x: Inputs, T: int, row: Census.Row)
    requires RowAt(x, T) == Settled(row)
    ensures IsCensusRow(x, T, row)
  {
    var h := HourAt(x.corpus, T);
    Census.RowIsTold(x.anchors, x.stdev, h);
    assert IsHour(x.corpus, T, h);
  }

  lemma DateIsPlain(T: int)
    ensures 86400 * DateOf(T) < T <= 86400 * DateOf(T) + 86400
  {}

  lemma TapesArePlain(x: Inputs, T: int, row: Census.Row, m15: Census.Market, h1: Census.Market)
    requires CurveFits(x.curve) && Complete(row)
    ensures HasTapes(x, row.A.value > row.K.value, m15, h1, WindowOf(x, T, row, m15, h1))
  {}

  lemma WindowFields(x: Inputs, T: int, row: Census.Row, m15: Census.Market, h1: Census.Market)
    requires CurveFits(x.curve) && Complete(row)
    ensures var w := WindowOf(x, T, row, m15, h1);
            && WrittenTo(100.0, w.G, Census.Apart(row.A.value, row.K.value))
            && w.quintile == Gate.EdgesReached(x.curve.edges, row.gos.value) && 86400 * w.date < T <= 86400 * w.date + 86400
  {
    WrittenTo2(Census.Apart(row.A.value, row.K.value));
    Gate.BucketOfCounts(row.gos.value, x.curve.edges);
    DateIsPlain(T);
  }

  /** There is a window exactly for a row that is OK or has no quotes, and it is the plain one. */
  ghost predicate HourTold(x: Inputs, T: int, row: Census.Row, found: Settled<Option<Eligible>>) {
    && found.Settled?
    && (found.value.Some? <==> row.status == Census.Ok || row.status == Census.NoPair)
    && (found.value.Some? ==> WindowTells(x, T, row, found.value.value))
  }

  lemma WindowIsTold(x: Inputs, T: int, row: Census.Row)
    requires CurveFits(x.curve) && RowAt(x, T) == Settled(row) && WindowAt(x, T).Settled?
    ensures HourTold(x, T, row, WindowAt(x, T))
  {
    if Census.Eligible(row) {
      var h := HourAt(x.corpus, T);
      LegsIff(x, T);
      EligibleIsComplete(x, T);
      var k := Census.NearestAt(row.A.value, h.hourly);
      EligibleHasStrike(x, T, row);
      WindowFields(x, T, row, h.m15.value, h.hourly[k]);
      TapesArePlain(x, T, row, h.m15.value, h.hourly[k]);
    }
  }

  lemma EligibleHasStrike(x: Inputs, T: int, row: Census.Row)
    requires RowAt(x, T) == Settled(row) && Census.Eligible(row)
    ensures var h := HourAt(x.corpus, T);
            && row.A.Some? && h.m15.Some? && h.hourly != [] && Census.Struck(h.hourly)
            && h.hourly[Census.NearestAt(row.A.value, h.hourly)].strike == row.K
  {
    Census.EligibleRowsSettle(x.anchors, x.stdev, HourAt(x.corpus, T));
  }

  ghost function FoundWindow(found: seq<Settled<Option<Eligible>>>): nat -> bool {
    (i: nat) => i < |found| && found[i].Settled? && found[i].value.Some?
  }

  ghost function WindowFound(found: seq<Settled<Option<Eligible>>>): (nat, Eligible) -> bool {
    (i: nat, w: Eligible) => i < |found| && found[i] == Settled(Some(w))
  }

  lemma {:induction false} GatheredIsListed(found: seq<Settled<Option<Eligible>>>, n: nat) returns (at: seq<nat>)
    requires n <= |found| && Gathered(found[..n]).Settled?
    ensures Lists(n, FoundWindow(found), WindowFound(found), at, Gathered(found[..n]).value)
    ensures forall i :: 0 <= i < n ==> found[i].Settled?
  {
    if n == 0 {
      at := [];
    } else {
      var i := n - 1;
      assert found[..n][..i] == found[..i];
      at := GatheredIsListed(found, i);
      var before := Gathered(found[..i]).value;
      if found[i].value.Some? {
        ListsMore(i, FoundWindow(found), WindowFound(found), at, before, found[i].value.value);
        at := at + [i];
      } else {
        ListsSame(i, FoundWindow(found), WindowFound(found), at, before);
      }
    }
  }

  lemma ToldStep(x: Inputs, grid: seq<int>, census: seq<Census.Row>, found: seq<Settled<Option<Eligible>>>, i: nat, w: Eligible)
    requires i < |grid| == |census| == |found| && HourTold(x, grid[i], census[i], found[i])
    ensures FoundWindow(found)(i) <==> WalksAt(census)(i)
    ensures WindowFound(found)(i, w) ==> WindowOfHour(x, grid, census)(i, w)
  {}

  lemma ToldLists(x: Inputs, grid: seq<int>, census: seq<Census.Row>, found: seq<Settled<Option<Eligible>>>, at: seq<nat>,
                  ws: seq<Eligible>)
    requires |grid| == |census| == |found| && forall i :: 0 <= i < |grid| ==> HourTold(x, grid[i], census[i], found[i])
    requires Lists(|grid|, FoundWindow(found), WindowFound(found), at, ws)
    ensures Lists(|grid|, WalksAt(census), WindowOfHour(x, grid, census), at, ws)
  {
    forall i: nat, w: Eligible | i < |grid|
      ensures FoundWindow(found)(i) <==> WalksAt(census)(i)
      ensures WindowFound(found)(i, w) ==> WindowOfHour(x, grid, census)(i, w)
    {
      ToldStep(x, grid, census, found, i, w);
    }
    ListsImply(|grid|, FoundWindow(found), WindowFound(found), WalksAt(census), WindowOfHour(x, grid, census), at, ws);
  }

  lemma HourIsTold(x: Inputs, grid: seq<int>, census: seq<Census.Row>, i: nat)
    requires CurveFits(x.curve) && i < |grid| == |census|
    requires RowAt(x, grid[i]) == Settled(census[i]) && Found(x, grid)[i].Settled?
    ensures HourTold(x, grid[i], census[i], Found(x, grid)[i])
  {
    WindowIsTold(x, grid[i], census[i]);
  }

  lemma WindowsAreTold(x: Inputs, grid: seq<int>, census: seq<Census.Row>) returns (at: seq<nat>)
    requires CurveFits(x.curve) && WindowsAt(x, grid).Settled?
    requires |census| == |grid| && forall i :: 0 <= i < |grid| ==> RowAt(x, grid[i]) == Settled(census[i])
    ensures Lists(|grid|, WalksAt(census), WindowOfHour(x, grid, census), at, WindowsAt(x, grid).value)
  {
    var found := Found(x, grid);
    assert found[..|grid|] == found;
    at := GatheredIsListed(found, |grid|);
    forall i | 0 <= i < |grid|
      ensures HourTold(x, grid[i], census[i], found[i])
    {
      HourIsTold(x, grid, census, i);
    }
    ToldLists(x, grid, census, found, at, WindowsAt(x, grid).value);
  }

  lemma RunFrom(x: Inputs, dates: seq<int>, staleness: real, refute: bool, rows: seq<Policy.Row>,
                grid: seq<int>, census: seq<Census.Row>, ws: seq<Eligible>, at: seq<nat>)
    requires IsGrid(dates, grid)
    requires |census| == |grid| && forall i :: 0 <= i < |grid| ==> IsCensusRow(x, grid[i], census[i])
    requires Lists(|grid|, WalksAt(census), WindowOfHour(x, grid, census), at, ws) && PassWalked(ws, staleness, refute, rows)
    ensures RunTells(x, dates, staleness, refute, rows)
  {}

  /** What a run that succeeds writes is told by its inputs. */
  lemma RunIsTold(x: Inputs, dates: seq<int>, staleness: real, refute: bool, census: seq<Census.Row>)
    requires CurveFits(x.curve) && WindowsAt(x, Grid(DaysOf(dates))).Settled?
    requires AllWalkable(WindowsAt(x, Grid(DaysOf(dates))).value)
    requires var grid := Grid(DaysOf(dates));
             |census| == |grid| && forall i :: 0 <= i < |grid| ==> RowAt(x, grid[i]) == Settled(census[i])
    ensures RunTells(x, dates, staleness, refute, AllRows(WindowsAt(x, Grid(DaysOf(dates))).value, staleness, refute))
  {
    var grid := Grid(DaysOf(dates));
    var ws := WindowsAt(x, grid).value;
    GridIsGrid(dates);
    forall i | 0 <= i < |grid|
      ensures IsCensusRow(x, grid[i], census[i])
    {
      RowIsCensusRow(x, grid[i], census[i]);
    }
    var at := WindowsAreTold(x, grid, census);
    PassIsWalked(ws, staleness, refute);
    RunFrom(x, dates, staleness, refute, AllRows(ws, staleness, refute), grid, census, ws, at);
  }

  /** The whole simulation: grid, census, matching and walks. It succeeds exactly when every hour's
      row and legs settle and all trades can be read; its rows are then contiguous by window,
      whatever the dates and however often they are given. */
  method RunPass(x: Inputs, dates: seq<int>, staleness: real, refute: bool) returns (rows: Settled<seq<Policy.Row>>)
    requires CurveFits(x.curve)
    ensures var ws := WindowsAt(x, Grid(DaysOf(dates)));
            && (rows.Settled? <==> ws.Settled? && AllReadable(ws.value))
            && (rows.Settled? ==>
                  AllWalkable(ws.value) && rows.value == AllRows(ws.value, staleness, refute)
                  && Policy.Contiguous(rows.value) && Surface.OneQuintile(rows.value))
    ensures rows.Settled? ==> RunTells(x, dates, staleness, refute, rows.value)
  {
    var grid := BuildGrid(dates);
    var hours := HoursAt(x.corpus, grid);
    var census, inventory := Census.BuildCensus(x.anchors, x.stdev, hours);
    if census.IntegrityError? {
      ghost var i :| 0 <= i < |hours| && !Census.BuildRow(x.anchors, x.stdev, hours[i]).Settled?;
      assert Found(x, grid)[i].IntegrityError?;
      FailureIsFinal(Found(x, grid), i);
      return IntegrityError;
    }
    forall i | 0 <= i < |grid|
      ensures RowAt(x, grid[i]) == Settled(census.value[i])
    {
      assert hours[i] == HourAt(x.corpus, grid[i]);
    }
    var found := FindWindows(x, grid, census.value);
    var ws := Gather(found);
    if ws.IntegrityError? {
      return IntegrityError;
    }
    RunWindowsAreReady(x, dates);
    rows := DoWalks(ws.value, staleness, refute);
    if rows.Settled? {
      TapeIsContiguous(ws.value, staleness, refute);
      PassFeedsSurface(ws.value, staleness, refute);
      RunIsTold(x, dates, staleness, refute, census.value);
    }
  }

  /** In every run the evaluator enters an eligible window exactly when it has a routed qualifying
      row, at the earliest one; and on grid-priced trades strict mode accepts the run. */
  lemma RunEntersEarliest(x: Inputs, dates: seq<int>, staleness: real, refute: bool, i: nat)
    requires CurveFits(x.curve)
    requires var ws := WindowsAt(x, Grid(DaysOf(dates)));
             ws.Settled? && AllReadable(ws.value) && i < |ws.value|
    ensures var ws := WindowsAt(x, Grid(DaysOf(dates))).value;
            AllWalkable(ws) &&
            var rows := AllRows(ws, staleness, refute);
            var w := Policy.WindowRows(rows, ws[i].closeTime);
            && (w != [] ==>
                  && (Policy.Winner(w).Some? <==>
                        exists r :: r in w && Policy.Enterable(ws[i].quintile, r))
                  && (Policy.Winner(w).Some? ==> Policy.EarliestEntry(w, ws[i].quintile, Policy.Winner(w).value)))
            && ((forall j :: 0 <= j < |ws| ==> PriceGrid.TapesOnGrid(ws[j])) ==> Policy.Acceptable(true, rows))
  {
    RunWindowsAreReady(x, dates);
    var ws := WindowsAt(x, Grid(DaysOf(dates))).value;
    PassEntersEarliest(ws, i, staleness, refute);
    if forall j :: 0 <= j < |ws| ==> PriceGrid.TapesOnGrid(ws[j]) {
      PriceGrid.GridPassAgrees(ws, staleness, refute);
    }
  }

  // ----- The run and its evaluation -----

  /** The rows cut into files at the given row counts, counted from the end. */
  function Split(rows: seq<Policy.Row>, cuts: seq<nat>): seq<seq<Policy.Row>>
    decreases |cuts|
  {
    if cuts == [] then [rows]
    else
      var last := cuts[|cuts| - 1];
      var at := if last <= |rows| then |rows| - last else 0;
      Split(rows[..at], cuts[..|cuts| - 1]) + [rows[at..]]
  }

  lemma {:induction false} SplitJoins(rows: seq<Policy.Row>, cuts: seq<nat>)
    ensures Policy.Concat(Split(rows, cuts)) == rows
    decreases |cuts|
  {
    if cuts == [] {
      assert [rows][..0] == [];
    } else {
      var last := cuts[|cuts| - 1];
      var at := if last <= |rows| then |rows| - last else 0;
      SplitJoins(rows[..at], cuts[..|cuts| - 1]);
      var front := Split(rows[..at], cuts[..|cuts| - 1]);
      assert (front + [rows[at..]])[..|front|] == front;
    }
  }

  /** The sizes of all files but the first. */
  function Sizes(files: seq<seq<Policy.Row>>): seq<nat> {
    if |files| <= 1 then [] else Sizes(files[..|files| - 1]) + [|files[|files| - 1]|]
  }

  /** Every way to write the rows to files is such a split. */
  lemma {:induction false} EverySplit(files: seq<seq<Policy.Row>>)
    requires files != []
    ensures Split(Policy.Concat(files), Sizes(files)) == files
  {
    var front, last := files[..|files| - 1], files[|files| - 1];
    if front == [] {
      assert Policy.Concat(files) == last;
    } else {
      EverySplit(front);
      var rows, cuts := Policy.Concat(files), Sizes(files);
      assert rows == Policy.Concat(front) + last;
      assert cuts[..|cuts| - 1] == Sizes(front);
      assert rows[..|rows| - |last|] == Policy.Concat(front) && rows[|rows| - |last|..] == last;
    }
  }

  /** Run the simulation, write its rows to any number of files, and evaluate the policy over them. The
      evaluation never fails on what a run wrote, except for a divergence in strict mode, which tapes
      priced in whole ticks do not have; its report is that of grouping the run's rows by window. */
  method EvaluateRun(x: Inputs, dates: seq<int>, staleness: real, refute: bool, cuts: seq<nat>,
                     burned: set<Policy.CloseTime>, strict: bool) returns (report: Option<Policy.Report>)
    requires CurveFits(x.curve)
    ensures var ws := WindowsAt(x, Grid(DaysOf(dates)));
            && (report.Some? <==>
                  ws.Settled? && AllWalkable(ws.value)
                  && (strict ==> Policy.Divergences(AllRows(ws.value, staleness, refute)) == 0))
            && (report.Some? ==> report.value == Policy.BatchReport(burned, AllRows(ws.value, staleness, refute)))
            && (ws.Settled? && AllReadable(ws.value) && (!strict || AllOnGrid(ws.value)) ==> report.Some?)
    ensures report.Some? ==>
              exists rows :: RunTells(x, dates, staleness, refute, rows) && Policy.Reports(burned, rows, report.value)
  {
    if WindowsAt(x, Grid(DaysOf(dates))).Settled? {
      RunWindowsAreReady(x, dates);
    }
    var rows := RunPass(x, dates, staleness, refute);
    if rows.IntegrityError? {
      return None;
    }
    SplitJoins(rows.value, cuts);
    Policy.BatchReports(burned, rows.value);
    report := Policy.EvaluateFiles(burned, strict, Split(rows.value, cuts));
    RunNeverDiverges(x, dates, staleness, refute);
  }

  ghost predicate AllOnGrid(ws: seq<Eligible>) {
    forall i :: 0 <= i < |ws| ==> PriceGrid.TapesOnGrid(ws[i])
  }

  lemma RunNeverDiverges(x: Inputs, dates: seq<int>, staleness: real, refute: bool)
    requires CurveFits(x.curve)
    requires var ws := WindowsAt(x, Grid(DaysOf(dates))); ws.Settled? && AllReadable(ws.value)
    ensures var ws := WindowsAt(x, Grid(DaysOf(dates))).value;
            AllWalkable(ws) && (AllOnGrid(ws) ==> Policy.Divergences(AllRows(ws, staleness, refute)) == 0)
  {
    RunWindowsAreReady(x, dates);
    var ws := WindowsAt(x, Grid(DaysOf(dates))).value;
    if AllOnGrid(ws) {
      PriceGrid.GridPassAgrees(ws, staleness, refute);
    }
  }
}
