/** The census (sim/census.py): one row per hour of the grid, with a pair, an outcome and its
    economics, or with the reason there is none. */
module Census {
  import opened Fees
  import opened Sequences
  import opened Rounding
  import opened Settlement

  datatype Status =
    | No15mLeg | NoAnchor | No1hLeg | NearestTie | GapBelowEpsilon | SigmaHead | SigmaGap | SigmaZero
    | PrintMissing | NoPair | Ok

  datatype Market = Market(ticker: int, strike: Option<real>, rule: StrikeType, px: Option<real>, result: Side)

  /** The T-5 candle fields: ask close and high of the H leg, bid close and low of the L leg. */
  datatype Candles = Candles(askClose: Option<real>, askHigh: Option<real>, bidClose: Option<real>, bidLow: Option<real>)

  /** Everything one hour of the grid is built from. The candles depend on which market is H. */
  datatype HourInput = HourInput(
    T: int, m15: Option<Market>, hourly: seq<Market>, candlesAAbove: Candles, candlesKAbove: Candles)

  datatype Economics = Economics(cBase: Option<real>, cWorst: Option<real>)

  datatype Row = Row(
    status: Status, A: Option<real>, K: Option<real>, gos: Option<real>, hResult: Option<Side>, lResult: Option<Side>,
    outcome: Option<Outcome>, economics: Option<Economics>, payoffBase: Option<real>, payoffWorst: Option<real>)

  const BLANK := Row(No15mLeg, None, None, None, None, None, None, None, None, None)

  // ----- Pairing -----

  function Distance(A: real, m: Market): real
    requires m.strike.Some?
  {
    if m.strike.value >= A then m.strike.value - A else A - m.strike.value
  }

  predicate Struck(ms: seq<Market>) {
    forall i :: 0 <= i < |ms| ==> ms[i].strike.Some?
  }

  /** The position of the first market at the least distance from the anchor. */
  function NearestAt(A: real, ms: seq<Market>): (k: nat)
    requires ms != [] && Struck(ms)
    ensures k < |ms|
    ensures forall i :: 0 <= i < |ms| ==> Distance(A, ms[k]) <= Distance(A, ms[i])
  {
    if |ms| == 1 then 0
    else
      var rest := ms[..|ms| - 1];
      var k := NearestAt(A, rest);
      assert forall i :: 0 <= i < |rest| ==> rest[i] == ms[i];
      if Distance(A, ms[|ms| - 1]) < Distance(A, ms[k]) then |ms| - 1 else k
  }

  /** Two markets share the least distance. */
  predicate Tied(A: real, ms: seq<Market>)
    requires ms != [] && Struck(ms)
  {
    exists i :: 0 <= i < |ms| && i != NearestAt(A, ms) && Distance(A, ms[i]) == Distance(A, ms[NearestAt(A, ms)])
  }

  /** The width G of the corridor, in whole cents. */
  function Gap(A: real, K: real): real {
    Round2(if K >= A then K - A else A - K)
  }

  predicate Narrow(A: real, K: real) {
    Gap(A, K) < 0.01
  }

  /** A corridor of up to half a cent rounds to nothing, and only such a one is too narrow. */
  lemma NarrowIff(A: real, K: real)
    ensures Narrow(A, K) <==> -0.005 <= K - A <= 0.005
  {
    var d := if K >= A then K - A else A - K;
    assert RoundHalfEven(d * 100.0) < 1 <==> d * 100.0 <= 0.5;
  }

  // ----- Sigma -----

  const ANCHORS := 9
  const ANCHOR_STEP := 900

  type Tape = map<int, real>

  predicate HasTape(tape: Tape, T: int) {
    forall k :: 0 <= k < ANCHORS ==> T - k * ANCHOR_STEP in tape
  }

  function Diffs(tape: Tape, T: int): (d: seq<real>)
    requires HasTape(tape, T)
    ensures |d| == ANCHORS - 1
  {
    seq(ANCHORS - 1, i requires 0 <= i < ANCHORS - 1 =>
      assert T - i * ANCHOR_STEP in tape && T - (i + 1) * ANCHOR_STEP in tape;
      tape[T - i * ANCHOR_STEP] - tape[T - (i + 1) * ANCHOR_STEP])
  }

  /** The oldest anchor the hour needs lies before every anchor of the corpus. */
  predicate BeforeCorpus(tape: Tape, T: int) {
    tape.Keys != {} && forall e :: e in tape ==> T - (ANCHORS - 1) * ANCHOR_STEP < e
  }

  // ----- Economics -----

  /** What a pair costs when both of its quotes are there: the low line is bought at one less its bid. */
  function PairCost(cost: (real, real) -> real, ask: Option<real>, bid: Option<real>): Option<real> {
    if ask.Some? && bid.Some? then Some(cost(ask.value, 1.0 - bid.value)) else None
  }

  function EconomicsOf(c: Candles): Economics {
    Economics(PairCost(CostC, c.askClose, c.bidClose), PairCost(CostC, c.askHigh, c.bidLow))
  }

  predicate QuotedBase(c: Candles) {
    c.askClose.Some? && c.bidClose.Some? && 0.0 < c.askClose.value < 1.0 && 0.0 < 1.0 - c.bidClose.value < 1.0
  }

  function Payoff(outcome: Outcome, C: Option<real>): Option<real> {
    if C.None? then None else Some(if outcome.Pin? then -C.value else 1.0 - C.value)
  }

  /** A candle whose fields are prices on the grid, with close inside its own range. */
  ghost predicate WellFormed(c: Candles) {
    && (c.askClose.Some? && c.askHigh.Some? ==>
          IsPrice(c.askClose.value) && IsPrice(c.askHigh.value) && OnGrid(c.askClose.value) && OnGrid(c.askHigh.value)
          && c.askClose.value <= c.askHigh.value)
    && (c.bidClose.Some? && c.bidLow.Some? ==>
          IsPrice(c.bidClose.value) && IsPrice(c.bidLow.value) && OnGrid(c.bidClose.value) && OnGrid(c.bidLow.value)
          && c.bidLow.value <= c.bidClose.value)
  }

  /** The WORST column never beats the BASE column: it costs at least as much and pays at most as
      much, for either outcome. */
  lemma WorstIsWorse(c: Candles, outcome: Outcome)
    requires WellFormed(c)
    ensures var e := EconomicsOf(c);
            e.cBase.Some? && e.cWorst.Some? ==>
              e.cBase.value <= e.cWorst.value
              && Payoff(outcome, e.cWorst).value <= Payoff(outcome, e.cBase).value
  {
    var e := EconomicsOf(c);
    if e.cBase.Some? && e.cWorst.Some? {
      GridIsTickApart(c.askClose.value, c.askHigh.value);
      GridIsTickApart(c.bidLow.value, c.bidClose.value);
      CostIsMonotone(c.askClose.value, 1.0 - c.bidClose.value, c.askHigh.value, 1.0 - c.bidLow.value);
    }
  }

  // ----- The row of one hour -----

  type Stdev = seq<real> -> real

  /** The pair's settlement: both prints present and equal, results as recomputed, then classified. */
  function SettlePair(m15: Market, h1: Market): Settled<Outcome>
    requires m15.strike.Some? && h1.strike.Some? && m15.px.Some? && h1.px.Some?
  {
    var A, K := m15.strike.value, h1.strike.value;
    if m15.px.value != h1.px.value then IntegrityError
    else if RecomputeResult(m15.rule, m15.px.value, A) != Settled(m15.result) then IntegrityError
    else if RecomputeResult(h1.rule, h1.px.value, K) != Settled(h1.result) then IntegrityError
    else if A > K then ClassifyOutcome(m15.result, h1.result)
    else ClassifyOutcome(h1.result, m15.result)
  }

  function FinishRow(row: Row, outcome: Outcome, c: Candles): Row {
    var e := EconomicsOf(c);
    var paired := row.(outcome := Some(outcome), economics := Some(e));
    if !QuotedBase(c) || e.cBase.None? then paired.(status := NoPair)
    else paired.(status := Ok, payoffBase := Payoff(outcome, e.cBase), payoffWorst := Payoff(outcome, e.cWorst))
  }

  /** The row of a pair with its G/sigma and the results of the high and the low market. */
  function PairedRow(m15: Market, h1: Market, gos: real): Row
    requires m15.strike.Some? && h1.strike.Some?
  {
    var above := m15.strike.value > h1.strike.value;
    BLANK.(A := m15.strike, K := h1.strike, gos := Some(gos),
           hResult := Some(if above then m15.result else h1.result),
           lResult := Some(if above then h1.result else m15.result))
  }

  /** The row of a pair with both prints; the candles depend on which market is the higher line. */
  function PairRow(m15: Market, h1: Market, gos: real, aAbove: Candles, kAbove: Candles): Settled<Row>
    requires m15.strike.Some? && h1.strike.Some? && m15.px.Some? && h1.px.Some?
  {
    var outcome := SettlePair(m15, h1);
    if outcome.IntegrityError? then IntegrityError
    else
      Settled(FinishRow(PairedRow(m15, h1, gos), outcome.value,
                        if m15.strike.value > h1.strike.value then aAbove else kAbove))
  }

  function BuildRow(tape: Tape, stdev: Stdev, h: HourInput): Settled<Row> {
    if h.m15.None? then Settled(BLANK)
    else if h.m15.value.strike.None? then Settled(BLANK.(status := NoAnchor))
    else
      var m15 := h.m15.value;
      var A := m15.strike.value;
      if m15.rule != GreaterOrEqual then IntegrityError
      else if h.hourly == [] then Settled(BLANK.(status := No1hLeg, A := Some(A)))
      else if !Struck(h.hourly) then IntegrityError
      else if Tied(A, h.hourly) then Settled(BLANK.(status := NearestTie, A := Some(A)))
      else
        var h1 := h.hourly[NearestAt(A, h.hourly)];
        var K := h1.strike.value;
        var row := BLANK.(A := Some(A), K := Some(K));
        if h1.rule != Greater then IntegrityError
        else if Narrow(A, K) then Settled(row.(status := GapBelowEpsilon))
        else if !HasTape(tape, h.T) then Settled(row.(status := if BeforeCorpus(tape, h.T) then SigmaHead else SigmaGap))
        else if stdev(Diffs(tape, h.T)) == 0.0 then Settled(row.(status := SigmaZero))
        else
          var gos := Round6(Gap(A, K) / stdev(Diffs(tape, h.T)));
          if m15.px.None? || h1.px.None? then Settled(row.(status := PrintMissing, gos := Some(gos)))
          else PairRow(m15, h1, gos, h.candlesAAbove, h.candlesKAbove)
  }

  // ----- The row in plain terms -----

  /** The distance between anchor and strike. */
  function Apart(A: real, K: real): real {
    if K >= A then K - A else A - K
  }

  /** The market at `k` is nearer to the anchor than every other one. */
  ghost predicate IsNearest(A: real, ms: seq<Market>, k: nat) {
    && k < |ms| && (forall i :: 0 <= i < |ms| ==> ms[i].strike != None)
    && forall i :: 0 <= i < |ms| && i != k ==> Apart(A, ms[k].strike.value) < Apart(A, ms[i].strike.value)
  }

  /** The eight steps between the nine quarter-hour anchors that end at `T`. */
  ghost predicate IsSteps(tape: Tape, T: int, d: seq<real>) {
    |d| == 8 && forall n :: 0 <= n < 8 ==> StepBack(tape, T, n, d[n])
  }

  predicate StepBack(tape: Tape, T: int, n: int, step: real) {
    && T - 900 * n in tape && T - 900 * n - 900 in tape
    && step == tape[T - 900 * n] - tape[T - 900 * n - 900]
  }

  /** The row of an excluded hour. */
  function Excluded(s: Status, A: Option<real>, K: Option<real>): Row {
    Row(s, A, K, None, None, None, None, None, None, None)
  }

  /** What a pair costs: the ask of the high line and one less the bid of the low line, with fees. */
  ghost predicate Priced(ask: Option<real>, bid: Option<real>, cost: Option<real>) {
    && (cost == None <==> ask == None || bid == None)
    && (cost != None ==> cost.value == ask.value + Fee(ask.value) + (1.0 - bid.value) + Fee(1.0 - bid.value))
  }

  /** What the strangle pays: nothing inside the corridor and $1 outside, less its cost. */
  ghost predicate PaysOff(inside: bool, cost: Option<real>, payoff: Option<real>) {
    && (payoff == None <==> cost == None)
    && (payoff != None ==> payoff.value == if inside then -cost.value else 1.0 - cost.value)
  }

  /** The economics of a settled pair: both costs, and the payoffs when both legs are quoted between $0 and $1
      at the close. */
  ghost predicate Accounts(row: Row, inside: bool, c: Candles) {
    && row.economics != None
    && Priced(c.askClose, c.bidClose, row.economics.value.cBase) && Priced(c.askHigh, c.bidLow, row.economics.value.cWorst)
    && var quoted := c.askClose != None && c.bidClose != None && 0.0 < c.askClose.value < 1.0 && 0.0 < c.bidClose.value < 1.0;
    && row.status == (if quoted then Ok else NoPair)
    && (quoted ==> PaysOff(inside, row.economics.value.cBase, row.payoffBase)
                   && PaysOff(inside, row.economics.value.cWorst, row.payoffWorst))
    && (!quoted ==> row.payoffBase == None && row.payoffWorst == None)
  }

  /** A market settled as its print and strike say: YES at or above the anchor, or above the hourly strike. */
  predicate SettledRight(m: Market, orEqual: bool)
    requires m.strike != None && m.px != None
  {
    m.result == if m.px.value > m.strike.value || (orEqual && m.px.value == m.strike.value) then Yes else No
  }

  /** The row of a pair with both prints. */
  ghost predicate SettledRow(m15: Market, h1: Market, gos: real, aAbove: Candles, kAbove: Candles, r: Settled<Row>)
    requires m15.strike != None && h1.strike != None && m15.px != None && h1.px != None
  {
    var A, K, px := m15.strike.value, h1.strike.value, m15.px.value;
    if px != h1.px.value || !SettledRight(m15, true) || !SettledRight(h1, false) then r == IntegrityError
    else
      var high, low := if A > K then m15 else h1, if A > K then h1 else m15;
      var inside := if A > K then K < px < A else A <= px <= K;
      && r.Settled? && r.value.A == Some(A) && r.value.K == Some(K) && r.value.gos == Some(gos)
      && r.value.hResult == Some(high.result) && r.value.lResult == Some(low.result)
      && r.value.outcome == Some(if inside then Pin else Escape)
      && Accounts(r.value, inside, if A > K then aAbove else kAbove)
  }

  /** The row of a pair with a wide enough corridor: it needs the nine anchors, a deviation that is not zero
      and both prints. */
  ghost predicate MeasuredRow(tape: Tape, stdev: Stdev, h: HourInput, m15: Market, h1: Market, r: Settled<Row>)
    requires m15.strike != None && h1.strike != None
  {
    var A, K := m15.strike.value, h1.strike.value;
    if exists n :: 0 <= n <= 8 && h.T - 900 * n !in tape then
      r == Settled(Excluded(if tape != map[] && forall e :: e in tape ==> h.T - 7200 < e then SigmaHead else SigmaGap,
                            Some(A), Some(K)))
    else
      exists d, G, gos ::
        && IsSteps(tape, h.T, d) && WrittenTo(100.0, G, Apart(A, K))
        && (stdev(d) == 0.0 ==> r == Settled(Excluded(SigmaZero, Some(A), Some(K))))
        && (stdev(d) != 0.0 ==>
              && WrittenTo(1000000.0, gos, G / stdev(d))
              && (if m15.px == None || h1.px == None then
                    r == Settled(Excluded(PrintMissing, Some(A), Some(K)).(gos := Some(gos)))
                  else SettledRow(m15, h1, gos, h.candlesAAbove, h.candlesKAbove, r)))
  }

  /** What an hour's row says, from the first thing that is missing to the settled pair. A rule of the wrong
      kind or an hourly market without a strike fails the census. */
  ghost predicate RowTells(tape: Tape, stdev: Stdev, h: HourInput, r: Settled<Row>) {
    if h.m15 == None then r == Settled(Excluded(No15mLeg, None, None))
    else if h.m15.value.strike == None then r == Settled(Excluded(NoAnchor, None, None))
    else
      var m15, A := h.m15.value, h.m15.value.strike;
      if m15.rule != GreaterOrEqual then r == IntegrityError
      else if h.hourly == [] then r == Settled(Excluded(No1hLeg, A, None))
      else if exists i :: 0 <= i < |h.hourly| && h.hourly[i].strike == None then r == IntegrityError
      else if forall k: nat :: !IsNearest(A.value, h.hourly, k) then r == Settled(Excluded(NearestTie, A, None))
      else
        exists k: nat ::
          IsNearest(A.value, h.hourly, k)
          && (var h1 := h.hourly[k];
              if h1.rule != Greater then r == IntegrityError
              else if -0.005 <= h1.strike.value - A.value <= 0.005 then r == Settled(Excluded(GapBelowEpsilon, A, h1.strike))
              else MeasuredRow(tape, stdev, h, m15, h1, r))
  }

  lemma NearestIsUnique(A: real, ms: seq<Market>)
    requires ms != [] && Struck(ms)
    ensures forall k: nat :: IsNearest(A, ms, k) <==> !Tied(A, ms) && k == NearestAt(A, ms)
  {
    var at := NearestAt(A, ms);
    forall k: nat
      ensures IsNearest(A, ms, k) <==> !Tied(A, ms) && k == at
    {}
  }

  lemma DiffsAreSteps(tape: Tape, T: int)
    requires HasTape(tape, T)
    ensures IsSteps(tape, T, Diffs(tape, T))
  {
    var d := Diffs(tape, T);
    forall n | 0 <= n < 8
      ensures StepBack(tape, T, n, d[n])
    {
      assert T - n * ANCHOR_STEP in tape && T - (n + 1) * ANCHOR_STEP in tape;
    }
  }

  lemma TapeIff(tape: Tape, T: int)
    ensures HasTape(tape, T) <==> !exists n :: 0 <= n <= 8 && T - 900 * n !in tape
  {
    if HasTape(tape, T) {
      forall n | 0 <= n <= 8
        ensures T - 900 * n in tape
      {
        assert T - n * ANCHOR_STEP in tape;
      }
    } else {
      var n :| 0 <= n < ANCHORS && T - n * ANCHOR_STEP !in tape;
      assert T - 900 * n !in tape;
    }
  }

  lemma PairCostIsPriced(ask: Option<real>, bid: Option<real>)
    ensures Priced(ask, bid, PairCost(CostC, ask, bid))
  {}

  lemma FinishAccounts(row: Row, inside: bool, c: Candles)
    requires row.payoffBase == None && row.payoffWorst == None
    ensures Accounts(FinishRow(row, if inside then Pin else Escape, c), inside, c)
  {
    PairCostIsPriced(c.askClose, c.bidClose);
    PairCostIsPriced(c.askHigh, c.bidLow);
  }

  lemma SettlePairIff(m15: Market, h1: Market)
    requires m15.strike != None && h1.strike != None && m15.px != None && h1.px != None
    requires m15.rule == GreaterOrEqual && h1.rule == Greater
    ensures var A, K, px := m15.strike.value, h1.strike.value, m15.px.value;
            SettlePair(m15, h1) ==
              if px != h1.px.value || !SettledRight(m15, true) || !SettledRight(h1, false) then IntegrityError
              else Settled(if (if A > K then K < px < A else A <= px <= K) then Pin else Escape)
  {}

  lemma BuiltIsMeasured(tape: Tape, stdev: Stdev, h: HourInput, m15: Market, k: nat)
    requires h.m15 == Some(m15) && m15.strike != None && m15.rule == GreaterOrEqual && h.hourly != [] && Struck(h.hourly)
    requires !Tied(m15.strike.value, h.hourly) && k == NearestAt(m15.strike.value, h.hourly) && h.hourly[k].rule == Greater
    requires !Narrow(m15.strike.value, h.hourly[k].strike.value)
    ensures MeasuredRow(tape, stdev, h, m15, h.hourly[k], BuildRow(tape, stdev, h))
  {
    var h1 := h.hourly[k];
    var A, K := m15.strike.value, h1.strike.value;
    TapeIff(tape, h.T);
    if HasTape(tape, h.T) {
      var d, G := Diffs(tape, h.T), Gap(A, K);
      DiffsAreSteps(tape, h.T);
      WrittenTo2(Apart(A, K));
      if stdev(d) != 0.0 {
        WrittenTo6(G / stdev(d));
        if m15.px != None && h1.px != None {
          SettlePairIff(m15, h1);
          BuiltIsSettled(tape, stdev, h, m15, h1, Round6(G / stdev(d)));
        }
      }
    }
  }

  lemma BuiltIsSettled(tape: Tape, stdev: Stdev, h: HourInput, m15: Market, h1: Market, gos: real)
    requires m15.strike != None && h1.strike != None && m15.px != None && h1.px != None
    requires m15.rule == GreaterOrEqual && h1.rule == Greater
    ensures SettledRow(m15, h1, gos, h.candlesAAbove, h.candlesKAbove, PairRow(m15, h1, gos, h.candlesAAbove, h.candlesKAbove))
  {
    var A, K, px := m15.strike.value, h1.strike.value, m15.px.value;
    var inside := if A > K then K < px < A else A <= px <= K;
    SettlePairIff(m15, h1);
    FinishAccounts(PairedRow(m15, h1, gos), inside, if A > K then h.candlesAAbove else h.candlesKAbove);
  }

  /** Every row built is the plain one. */
  lemma RowIsTold(tape: Tape, stdev: Stdev, h: HourInput)
    ensures RowTells(tape, stdev, h, BuildRow(tape, stdev, h))
  {
    if h.m15 != None && h.m15.value.strike != None && h.m15.value.rule == GreaterOrEqual && h.hourly != [] && Struck(h.hourly) {
      var m15, A := h.m15.value, h.m15.value.strike.value;
      NearestIsUnique(A, h.hourly);
      if !Tied(A, h.hourly) {
        var k := NearestAt(A, h.hourly);
        assert IsNearest(A, h.hourly, k);
        NarrowIff(A, h.hourly[k].strike.value);
        if h.hourly[k].rule == Greater && !Narrow(A, h.hourly[k].strike.value) {
          BuiltIsMeasured(tape, stdev, h, m15, k);
        }
      }
    }
  }

  predicate Eligible(row: Row) {
    row.status.Ok? || row.status.NoPair?
  }

  /** An eligible row has a pair at the unique nearest strike, more than half a cent from the
      anchor, settled on one print: its outcome is the corridor's, and the flip check that the
      tape walk repeats on its results never fails. */
  lemma EligibleRowsSettle(tape: Tape, stdev: Stdev, h: HourInput)
    requires BuildRow(tape, stdev, h).Settled? && Eligible(BuildRow(tape, stdev, h).value)
    ensures var row := BuildRow(tape, stdev, h).value;
            && h.m15.Some? && h.m15.value.strike == row.A && Struck(h.hourly)
            && row.A.Some? && row.K.Some? && row.gos.Some? && row.hResult.Some? && row.lResult.Some? && row.outcome.Some?
            && !Narrow(row.A.value, row.K.value)
            && (exists k, px ::
                  && 0 <= k < |h.hourly| && h.hourly[k].strike == row.K && h.hourly[k].px == Some(px)
                  && (forall i :: 0 <= i < |h.hourly| && i != k ==>
                        Distance(row.A.value, h.hourly[k]) < Distance(row.A.value, h.hourly[i]))
                  && row.outcome.value == (if InCorridor(px, row.A.value, row.K.value) then Pin else Escape))
            && FlipPayout(row.hResult.value, row.lResult.value) == Settled(if row.outcome.value.Pin? then 2 else 1)
  {
    var row := BuildRow(tape, stdev, h).value;
    var m15 := h.m15.value;
    var A := m15.strike.value;
    var k := NearestAt(A, h.hourly);
    var px := h.hourly[k].px.value;
    CorridorGeometry(px, A, h.hourly[k].strike.value);
    assert !Tied(A, h.hourly);
  }

  /** The classification never meets the impossible branch: once prints agree and results are as
      recomputed, settlement succeeds. */
  lemma SettlementNeverImpossible(m15: Market, h1: Market)
    requires m15.strike.Some? && h1.strike.Some? && m15.px.Some? && m15.px == h1.px
    requires m15.rule == GreaterOrEqual && h1.rule == Greater
    requires m15.result == Result15(m15.px.value, m15.strike.value) && h1.result == Result1H(h1.px.value, h1.strike.value)
    ensures SettlePair(m15, h1) == Settled(if InCorridor(m15.px.value, m15.strike.value, h1.strike.value) then Pin else Escape)
  {
    CorridorGeometry(m15.px.value, m15.strike.value, h1.strike.value);
  }

  /** An OK row pays the strangle's settlement less its cost, in each column that has a cost; the
      BASE column always has one. */
  lemma OkRowsPay(tape: Tape, stdev: Stdev, h: HourInput)
    requires BuildRow(tape, stdev, h).Settled? && BuildRow(tape, stdev, h).value.status.Ok?
    ensures var row := BuildRow(tape, stdev, h).value;
            var c := if row.A.value > row.K.value then h.candlesAAbove else h.candlesKAbove;
            var settles := StranglePayout(row.outcome.value) as real;
            && QuotedBase(c)
            && row.payoffBase == Some(settles - CostC(c.askClose.value, 1.0 - c.bidClose.value))
            && (row.payoffWorst.Some? <==> c.askHigh.Some? && c.bidLow.Some?)
            && (row.payoffWorst.Some? ==>
                  row.payoffWorst.value == settles - CostC(c.askHigh.value, 1.0 - c.bidLow.value)
                  && (WellFormed(c) ==> row.payoffWorst.value <= row.payoffBase.value))
  {
    var row := BuildRow(tape, stdev, h).value;
    var c := if row.A.value > row.K.value then h.candlesAAbove else h.candlesKAbove;
    if WellFormed(c) {
      WorstIsWorse(c, row.outcome.value);
    }
  }

  // ----- The whole grid -----

  /** The hours of the rows with status `s`, in row order. */
  function HoursOf(rows: seq<Row>, hours: seq<HourInput>, s: Status): (ts: seq<int>)
    requires |rows| <= |hours|
  {
    if rows == [] then []
    else
      var last := |rows| - 1;
      HoursOf(rows[..last], hours, s) + if rows[last].status == s then [hours[last].T] else []
  }

  /** The receipt's exclusion inventory: the hours of each status other than OK. */
  function Listed(inventory: map<Status, seq<int>>, s: Status): seq<int> {
    if s in inventory then inventory[s] else []
  }

  ghost predicate Inventoried(inventory: map<Status, seq<int>>, rows: seq<Row>, hours: seq<HourInput>)
    requires |rows| <= |hours|
  {
    forall s: Status :: Listed(inventory, s) == if s.Ok? then [] else HoursOf(rows, hours, s)
  }

  function Receipted(inventory: map<Status, seq<int>>, s: Status, T: int): map<Status, seq<int>> {
    if s.Ok? then inventory else inventory[s := Listed(inventory, s) + [T]]
  }

  lemma InventoryStep(inventory: map<Status, seq<int>>, rows: seq<Row>, hours: seq<HourInput>, row: Row)
    requires |rows| < |hours| && Inventoried(inventory, rows, hours)
    ensures Inventoried(Receipted(inventory, row.status, hours[|rows|].T), rows + [row], hours)
  {
    Snoc(rows, row);
    forall s: Status
      ensures Listed(Receipted(inventory, row.status, hours[|rows|].T), s)
                == if s.Ok? then [] else HoursOf(rows + [row], hours, s)
    {
      assert Listed(inventory, s) == if s.Ok? then [] else HoursOf(rows, hours, s);
    }
  }

  ghost function StatusAt(rows: seq<Row>, s: Status): nat -> bool {
    (i: nat) => i < |rows| && rows[i].status == s
  }

  ghost function HourAt(hours: seq<HourInput>): (nat, int) -> bool {
    (i: nat, t: int) => i < |hours| && t == hours[i].T
  }

  /** `list` names the hours of the rows with this status, in grid order. */
  ghost predicate NamesHours(rows: seq<Row>, hours: seq<HourInput>, s: Status, list: seq<int>) {
    exists at :: Lists(|rows|, StatusAt(rows, s), HourAt(hours), at, list)
  }

  /** The inventory names the hours of every status other than OK, in grid order. */
  ghost predicate InventoryTells(inventory: map<Status, seq<int>>, rows: seq<Row>, hours: seq<HourInput>) {
    forall s: Status ::
      if s == Ok then s !in inventory || inventory[s] == []
      else NamesHours(rows, hours, s, if s in inventory then inventory[s] else [])
  }

  lemma {:induction false} HoursAreListed(rows: seq<Row>, hours: seq<HourInput>, s: Status, n: nat) returns (at: seq<nat>)
    requires n <= |rows| <= |hours|
    ensures Lists(n, StatusAt(rows, s), HourAt(hours), at, HoursOf(rows[..n], hours, s))
  {
    if n == 0 {
      at := [];
    } else {
      at := HoursAreListed(rows, hours, s, n - 1);
      var before := HoursOf(rows[..n - 1], hours, s);
      assert rows[..n][..n - 1] == rows[..n - 1];
      if rows[n - 1].status == s {
        ListsMore(n - 1, StatusAt(rows, s), HourAt(hours), at, before, hours[n - 1].T);
        at := at + [n - 1];
      } else {
        ListsSame(n - 1, StatusAt(rows, s), HourAt(hours), at, before);
      }
    }
  }

  lemma InventoryIsTold(inventory: map<Status, seq<int>>, rows: seq<Row>, hours: seq<HourInput>)
    requires |rows| <= |hours| && Inventoried(inventory, rows, hours)
    ensures InventoryTells(inventory, rows, hours)
  {
    forall s: Status
      ensures if s == Ok then s !in inventory || inventory[s] == []
              else NamesHours(rows, hours, s, if s in inventory then inventory[s] else [])
    {
      assert Listed(inventory, s) == if s.Ok? then [] else HoursOf(rows, hours, s);
      var at := HoursAreListed(rows, hours, s, |rows|);
      assert rows[..|rows|] == rows;
    }
  }

  /** What a census says of its hours: one row each, as told, unless some hour fails. */
  ghost predicate CensusTells(tape: Tape, stdev: Stdev, hours: seq<HourInput>, rows: Settled<seq<Row>>,
                              inventory: map<Status, seq<int>>)
  {
    exists told: seq<Settled<Row>> ::
      && |told| == |hours| && (forall i :: 0 <= i < |hours| ==> RowTells(tape, stdev, hours[i], told[i]))
      && (rows.Settled? <==> forall i :: 0 <= i < |hours| ==> told[i].Settled?)
      && (rows.Settled? ==>
            && |rows.value| == |hours| && (forall i :: 0 <= i < |hours| ==> told[i] == Settled(rows.value[i]))
            && InventoryTells(inventory, rows.value, hours))
  }

  /** One row per hour in grid order, never a dropped one, and an inventory that lists exactly the
      rows that are not OK. An integrity failure anywhere fails the whole census. */
  method BuildCensus(tape: Tape, stdev: Stdev, hours: seq<HourInput>)
    returns (rows: Settled<seq<Row>>, inventory: map<Status, seq<int>>)
    ensures rows.Settled? <==> forall i :: 0 <= i < |hours| ==> BuildRow(tape, stdev, hours[i]).Settled?
    ensures rows.Settled? ==>
              && |rows.value| == |hours|
              && (forall i :: 0 <= i < |hours| ==> Settled(rows.value[i]) == BuildRow(tape, stdev, hours[i]))
              && Inventoried(inventory, rows.value, hours)
    ensures CensusTells(tape, stdev, hours, rows, inventory)
  {
    var built := Rows(tape, stdev, hours);
    assert forall i :: 0 <= i < |hours| ==> built[i] == BuildRow(tape, stdev, hours[i]);
    rows, inventory := Receipt(built, hours);
    RowsAreTold(tape, stdev, hours, built);
    if rows.Settled? {
      InventoryIsTold(inventory, rows.value, hours);
    }
  }

  lemma RowsAreTold(tape: Tape, stdev: Stdev, hours: seq<HourInput>, built: seq<Settled<Row>>)
    requires built == Rows(tape, stdev, hours)
    ensures forall i :: 0 <= i < |hours| ==> RowTells(tape, stdev, hours[i], built[i])
  {
    forall i | 0 <= i < |hours|
      ensures RowTells(tape, stdev, hours[i], built[i])
    {
      RowIsTold(tape, stdev, hours[i]);
    }
  }

  function Rows(tape: Tape, stdev: Stdev, hours: seq<HourInput>): (built: seq<Settled<Row>>)
    ensures |built| == |hours|
  {
    seq(|hours|, i requires 0 <= i < |hours| => BuildRow(tape, stdev, hours[i]))
  }

  /** Collect the rows and their inventory, stopping at an integrity failure. */
  method Receipt(built: seq<Settled<Row>>, hours: seq<HourInput>)
    returns (rows: Settled<seq<Row>>, inventory: map<Status, seq<int>>)
    requires |built| == |hours|
    ensures rows.Settled? <==> forall i :: 0 <= i < |built| ==> built[i].Settled?
    ensures rows.Settled? ==>
              && |rows.value| == |built|
              && (forall i :: 0 <= i < |built| ==> Settled(rows.value[i]) == built[i])
              && Inventoried(inventory, rows.value, hours)
  {
    var all: seq<Row> := [];
    inventory := map[];
    for i := 0 to |hours|
      invariant |all| == i
      invariant forall j :: 0 <= j < i ==> Settled(all[j]) == built[j]
      invariant Inventoried(inventory, all, hours)
    {
      if built[i].IntegrityError? {
        return IntegrityError, inventory;
      }
      var row := built[i].value;
      InventoryStep(inventory, all, hours, row);
      all := all + [row];
      inventory := Receipted(inventory, row.status, hours[i].T);
    }
    rows := Settled(all);
  }
}
