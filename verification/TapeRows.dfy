/** From trades to policy entries (the `do_walks` pass of sim/tape_sim.py feeding the evaluator
    of sim/unseal_runner15.py). Every eligible window is walked in both directions and its events
    become rows of the tape file. */
module TapeRows {
  import opened Sequences
  import opened Settlement
  import opened Tape
  import opened Policy
  import opened Rounding
  import DwellTime
  import Refutation
  import Staleness
  import Surface

  // ----- Leg streams -----

  datatype Taker = TookYes | TookNo | TookUnknown

  datatype Trade = Trade(ts: real, taker: Taker, yes: real, no: real)

  const COMPLEMENT_TOL := 0.0001

  predicate Complementary(t: Trade) {
    -COMPLEMENT_TOL <= t.yes + t.no - 1.0 <= COMPLEMENT_TOL
  }

  /** A taker on the side being bought sets the price paid; any other taker implies our bid. */
  function LegTick(side: Side, t: Trade): Tick {
    match side
    case Yes => if t.taker.TookYes? then Tick(t.ts, Same, t.yes) else Tick(t.ts, Opp, 1.0 - t.no)
    case No => if t.taker.TookNo? then Tick(t.ts, Same, t.no) else Tick(t.ts, Opp, 1.0 - t.yes)
  }

  function LegStream(side: Side, trades: seq<Trade>): Settled<seq<Tick>> {
    if forall i :: 0 <= i < |trades| ==> Complementary(trades[i]) then
      Settled(seq(|trades|, i requires 0 <= i < |trades| => LegTick(side, trades[i])))
    else
      IntegrityError
  }

  /** The side bought on each line: the strangle buys the outsides, the flip the insides. */
  function HighSide(d: Direction): Side {
    if d.Strangle? then Yes else No
  }

  function LowSide(d: Direction): Side {
    if d.Strangle? then No else Yes
  }

  /** The two directions read one tape with the roles of its prints exchanged: on an exactly
      complementary trade with a known taker, a fill for one is a refuting print for the other,
      at the complementary price. */
  lemma DirectionsAreDual(t: Trade)
    requires t.yes + t.no == 1.0 && !t.taker.TookUnknown?
    ensures var y, n := LegTick(Yes, t), LegTick(No, t);
            y.kind != n.kind && y.price == 1.0 - n.price && y.ts == n.ts
  {}

  // ----- Rows as they are written -----

  /** An eligible window: its pair's settled results, its two tapes, and what a pair of prices costs. */
  datatype Eligible = Eligible(
    closeTime: CloseTime, T: real, date: int, G: real, quintile: int, pinRate: real,
    hResult: Side, lResult: Side, outcome: Outcome, hTrades: seq<Trade>, lTrades: seq<Trade>,
    cost: (real, real) -> real)

  function FairFor(d: Direction, w: Eligible): real {
    if d.Strangle? then 1.0 - w.pinRate else 1.0 + w.pinRate
  }

  function FairLinear(d: Direction, w: Eligible): real {
    if d.Strangle? then 1.0 - 0.006 * w.G else 1.0 + 0.006 * w.G
  }

  /** What the direction settles at: the flip's payout is recomputed from the results. */
  function SettleFor(d: Direction, w: Eligible): int
    requires FlipPayout(w.hResult, w.lResult).Settled?
  {
    if d.Strangle? then StranglePayout(w.outcome) else FlipPayout(w.hResult, w.lResult).value
  }

  function TermsFor(d: Direction, w: Eligible, staleness: real): Terms
    requires FlipPayout(w.hResult, w.lResult).Settled?
  {
    Terms(w.T, FairFor(d, w), FairLinear(d, w), SettleFor(d, w) as real, staleness, w.cost)
  }

  function RowOf(d: Direction, w: Eligible, e: Event): Row {
    Row(w.closeTime, d, Round6(e.tMinus), w.quintile, Round3(e.highAge), Round3(e.lowAge),
        Round4(e.C), Round6(e.ev), w.outcome.Pin?, Round4(e.payoff), w.date,
        if !d.Flip? then Blank else if e.hardFloor then Set else Clear)
  }

  function RowsOf(d: Direction, w: Eligible, events: seq<Event>): seq<Row> {
    seq(|events|, i requires 0 <= i < |events| => RowOf(d, w, events[i]))
  }

  /** The window can be walked: the flip pays what its outcome says and no trade is malformed. */
  predicate Walkable(w: Eligible) {
    && FlipPayout(w.hResult, w.lResult) == Settled(if w.outcome.Pin? then 2 else 1)
    && LegStream(Yes, w.hTrades).Settled? && LegStream(Yes, w.lTrades).Settled?
  }

  lemma StreamsAgree(trades: seq<Trade>, a: Side, b: Side)
    ensures LegStream(a, trades).Settled? <==> LegStream(b, trades).Settled?
  {}

  function DirectionMerged(d: Direction, w: Eligible, refute: bool): seq<Print>
    requires Walkable(w)
  {
    StreamsAgree(w.hTrades, Yes, HighSide(d));
    StreamsAgree(w.lTrades, Yes, LowSide(d));
    Merged(w.T, LegStream(HighSide(d), w.hTrades).value, LegStream(LowSide(d), w.lTrades).value, refute)
  }

  ghost function DirectionEvents(d: Direction, w: Eligible, staleness: real, refute: bool): seq<Event>
    requires Walkable(w)
  {
    Walk(TermsFor(d, w, staleness), DirectionMerged(d, w, refute))
  }

  /** One window's rows: all strangle events, then all flip events. */
  ghost function RowsFor(w: Eligible, staleness: real, refute: bool): seq<Row>
    requires Walkable(w)
  {
    RowsOf(Strangle, w, DirectionEvents(Strangle, w, staleness, refute)) +
    RowsOf(Flip, w, DirectionEvents(Flip, w, staleness, refute))
  }

  ghost predicate AllWalkable(ws: seq<Eligible>) {
    forall i :: 0 <= i < |ws| ==> Walkable(ws[i])
  }

  ghost function RowBlocks(ws: seq<Eligible>, staleness: real, refute: bool): seq<seq<Row>>
    requires AllWalkable(ws)
  {
    seq(|ws|, i requires 0 <= i < |ws| => RowsFor(ws[i], staleness, refute))
  }

  /** The tape file of a pass: the windows' rows one after another. */
  ghost function AllRows(ws: seq<Eligible>, staleness: real, refute: bool): seq<Row>
    requires AllWalkable(ws)
  {
    Concat(RowBlocks(ws, staleness, refute))
  }

  // ----- The rows in plain terms -----

  /** A price stream of the side bought on one market: a taker of that side pays its price; any other
      print implies a bid, one less the price of the other side. */
  ghost predicate Streams(side: Side, trades: seq<Trade>, ticks: seq<Tick>) {
    && |ticks| == |trades|
    && forall i :: 0 <= i < |trades| ==>
         var t := trades[i];
         && (side == Yes && t.taker == TookYes ==> ticks[i] == Tick(t.ts, Same, t.yes))
         && (side == Yes && t.taker != TookYes ==> ticks[i] == Tick(t.ts, Opp, 1.0 - t.no))
         && (side == No && t.taker == TookNo ==> ticks[i] == Tick(t.ts, Same, t.no))
         && (side == No && t.taker != TookNo ==> ticks[i] == Tick(t.ts, Opp, 1.0 - t.yes))
  }

  /** What a direction's walk is told of its window. The strangle is worth $1 less the pin rate and
      settles at $0 on a pin, else $1; the flip is worth $1 plus the pin rate and settles at $2, else $1. */
  ghost predicate Told(d: Direction, w: Eligible, staleness: real, t: Terms) {
    && t.T == w.T && t.staleness == staleness && t.cost == w.cost
    && (d == Strangle ==>
          && t.fair == 1.0 - w.pinRate && t.fairLin == 1.0 - 0.006 * w.G
          && t.settle == if w.outcome == Pin then 0.0 else 1.0)
    && (d == Flip ==>
          && t.fair == 1.0 + w.pinRate && t.fairLin == 1.0 + 0.006 * w.G
          && t.settle == if w.outcome == Pin then 2.0 else 1.0)
  }

  /** Times and EV are written to six decimals, ages to three, money to four. */
  ghost predicate NumbersWritten(e: Event, r: Row) {
    && WrittenTo(1000000.0, r.tMinus, e.tMinus) && WrittenTo(1000000.0, r.ev, e.ev)
    && WrittenTo(1000.0, r.highAge, e.highAge) && WrittenTo(1000.0, r.lowAge, e.lowAge)
    && WrittenTo(10000.0, r.C, e.C) && WrittenTo(10000.0, r.payoff, e.payoff)
  }

  /** The row of an event. */
  ghost predicate Writes(d: Direction, w: Eligible, e: Event, r: Row) {
    && r.closeTime == w.closeTime && r.direction == d && r.quintile == w.quintile && r.date == w.date
    && NumbersWritten(e, r)
    && (r.pin <==> w.outcome == Pin)
    && r.hardFloor == if d != Flip then Blank else if e.C < 1.0 then Set else Clear
  }

  /** The events are one direction's walk of a window: the strangle buys YES on the high line and NO on the
      low one, the flip the other sides. */
  ghost predicate Follows(d: Direction, w: Eligible, staleness: real, refute: bool, events: seq<Event>) {
    exists t, high, low, m, at ::
      && Told(d, w, staleness, t)
      && Streams(if d == Strangle then Yes else No, w.hTrades, high)
      && Streams(if d == Strangle then No else Yes, w.lTrades, low)
      && IsMerge(w.T, high, low, refute, m)
      && FollowsTape(t, m, |m|, at, events)
  }

  /** The rows are one direction's walk as written. */
  ghost predicate Walked(d: Direction, w: Eligible, staleness: real, refute: bool, rows: seq<Row>) {
    exists events ::
      && Follows(d, w, staleness, refute, events)
      && |rows| == |events| && forall i :: 0 <= i < |rows| ==> Writes(d, w, events[i], rows[i])
  }

  /** A window's rows: its strangle rows, then its flip rows. */
  ghost predicate WindowWalked(w: Eligible, staleness: real, refute: bool, rows: seq<Row>) {
    exists strangle, flip ::
      rows == strangle + flip && Walked(Strangle, w, staleness, refute, strangle) && Walked(Flip, w, staleness, refute, flip)
  }

  /** The window can be walked: its results fit its outcome, and the two prices of every trade add up
      to one within a hundredth of a cent. */
  ghost predicate CanWalk(w: Eligible) {
    && (w.outcome == Pin ==> w.hResult == No && w.lResult == Yes)
    && (w.outcome == Escape ==> w.hResult == w.lResult)
    && (forall i :: 0 <= i < |w.hTrades| ==> 0.9999 <= w.hTrades[i].yes + w.hTrades[i].no <= 1.0001)
    && (forall i :: 0 <= i < |w.lTrades| ==> 0.9999 <= w.lTrades[i].yes + w.lTrades[i].no <= 1.0001)
  }

  lemma CanWalkIff(w: Eligible)
    ensures CanWalk(w) <==> Walkable(w)
  {}

  lemma TermsAreTold(d: Direction, w: Eligible, staleness: real)
    requires Walkable(w)
    ensures Told(d, w, staleness, TermsFor(d, w, staleness))
  {}

  lemma LegStreams(side: Side, trades: seq<Trade>)
    requires LegStream(side, trades).Settled?
    ensures Streams(side, trades, LegStream(side, trades).value)
  {}

  lemma NumbersAreWritten(e: Event, r: Row)
    requires r.tMinus == Round6(e.tMinus) && r.ev == Round6(e.ev)
    requires r.highAge == Round3(e.highAge) && r.lowAge == Round3(e.lowAge)
    requires r.C == Round4(e.C) && r.payoff == Round4(e.payoff)
    ensures NumbersWritten(e, r)
  {
    WrittenTo6(e.tMinus);
    WrittenTo6(e.ev);
    WrittenTo3(e.highAge);
    WrittenTo3(e.lowAge);
    WrittenTo4(e.C);
    WrittenTo4(e.payoff);
  }

  lemma EventsAreWritten(d: Direction, w: Eligible, t: Terms, m: seq<Print>, at: seq<nat>, events: seq<Event>)
    requires FollowsTape(t, m, |m|, at, events)
    ensures forall i :: 0 <= i < |events| ==> Writes(d, w, events[i], RowOf(d, w, events[i]))
  {
    forall i | 0 <= i < |events|
      ensures Writes(d, w, events[i], RowOf(d, w, events[i]))
    {
      assert ToldAt(t, m)(at[i], events[i]);
      NumbersAreWritten(events[i], RowOf(d, w, events[i]));
    }
  }

  lemma FollowsFrom(d: Direction, w: Eligible, staleness: real, refute: bool, t: Terms, high: seq<Tick>, low: seq<Tick>,
                    m: seq<Print>, at: seq<nat>, events: seq<Event>)
    requires Told(d, w, staleness, t)
    requires Streams(if d == Strangle then Yes else No, w.hTrades, high)
    requires Streams(if d == Strangle then No else Yes, w.lTrades, low)
    requires IsMerge(w.T, high, low, refute, m) && FollowsTape(t, m, |m|, at, events)
    ensures Follows(d, w, staleness, refute, events)
  {}

  /** One direction's events are its walk in plain terms, and its rows are that walk as written. */
  lemma DirectionIsWalked(d: Direction, w: Eligible, staleness: real, refute: bool)
    requires Walkable(w)
    ensures var events := DirectionEvents(d, w, staleness, refute);
            Follows(d, w, staleness, refute, events) && Walked(d, w, staleness, refute, RowsOf(d, w, events))
  {
    StreamsAgree(w.hTrades, Yes, HighSide(d));
    StreamsAgree(w.lTrades, Yes, LowSide(d));
    var high, low := LegStream(HighSide(d), w.hTrades).value, LegStream(LowSide(d), w.lTrades).value;
    var t, m := TermsFor(d, w, staleness), DirectionMerged(d, w, refute);
    TermsAreTold(d, w, staleness);
    LegStreams(HighSide(d), w.hTrades);
    LegStreams(LowSide(d), w.lTrades);
    MergedIsMerge(w.T, high, low, refute);
    MergedIsChronicle(w.T, high, low, refute);
    var at := MomentsFollowTape(t, m, |m|);
    EventsAreWritten(d, w, t, m, at, DirectionEvents(d, w, staleness, refute));
    FollowsFrom(d, w, staleness, refute, t, high, low, m, at, DirectionEvents(d, w, staleness, refute));
  }

  lemma WindowIsWalked(w: Eligible, staleness: real, refute: bool)
    requires Walkable(w)
    ensures WindowWalked(w, staleness, refute, RowsFor(w, staleness, refute))
  {
    DirectionIsWalked(Strangle, w, staleness, refute);
    DirectionIsWalked(Flip, w, staleness, refute);
  }

  /** The rows of a pass are its windows' rows, one window after another. */
  ghost predicate PassWalked(ws: seq<Eligible>, staleness: real, refute: bool, rows: seq<Row>) {
    exists blocks, cuts ::
      |blocks| == |ws| && Laid(rows, blocks, cuts)
      && forall i :: 0 <= i < |ws| ==> WindowWalked(ws[i], staleness, refute, blocks[i])
  }

  lemma PassIsWalked(ws: seq<Eligible>, staleness: real, refute: bool)
    requires AllWalkable(ws)
    ensures PassWalked(ws, staleness, refute, AllRows(ws, staleness, refute))
  {
    var blocks := RowBlocks(ws, staleness, refute);
    var cuts := ConcatIsLaid(blocks);
    forall i | 0 <= i < |ws|
      ensures WindowWalked(ws[i], staleness, refute, blocks[i])
    {
      WindowIsWalked(ws[i], staleness, refute);
    }
  }

  method WalkOne(d: Direction, w: Eligible, staleness: real, refute: bool) returns (rows: seq<Row>)
    requires Walkable(w)
    ensures rows == RowsOf(d, w, DirectionEvents(d, w, staleness, refute))
    ensures Walked(d, w, staleness, refute, rows)
  {
    StreamsAgree(w.hTrades, Yes, HighSide(d));
    StreamsAgree(w.lTrades, Yes, LowSide(d));
    var high, low := LegStream(HighSide(d), w.hTrades).value, LegStream(LowSide(d), w.lTrades).value;
    var events, summary;
    ghost var inspected;
    events, summary, inspected := WalkDirection(TermsFor(d, w, staleness), high, low, refute);
    rows := RowsOf(d, w, events);
    DirectionIsWalked(d, w, staleness, refute);
  }

  method WalkWindow(w: Eligible, staleness: real, refute: bool) returns (rows: Settled<seq<Row>>)
    ensures rows.Settled? <==> Walkable(w)
    ensures rows.Settled? ==> rows.value == RowsFor(w, staleness, refute)
    ensures rows.Settled? <==> CanWalk(w)
    ensures rows.Settled? ==> WindowWalked(w, staleness, refute, rows.value)
  {
    CanWalkIff(w);
    if !Walkable(w) {
      return IntegrityError;
    }
    var strangle := WalkOne(Strangle, w, staleness, refute);
    var flip := WalkOne(Flip, w, staleness, refute);
    return Settled(strangle + flip);
  }

  lemma AllRowsSnoc(ws: seq<Eligible>, i: nat, staleness: real, refute: bool)
    requires i < |ws| && AllWalkable(ws[..i])
    ensures Walkable(ws[i]) <==> AllWalkable(ws[..i + 1])
    ensures Walkable(ws[i]) ==>
              AllRows(ws[..i + 1], staleness, refute) ==
                AllRows(ws[..i], staleness, refute) + RowsFor(ws[i], staleness, refute)
  {
    assert ws[..i + 1] == ws[..i] + [ws[i]];
    if Walkable(ws[i]) {
      var blocks := RowBlocks(ws[..i + 1], staleness, refute);
      assert blocks[..i] == RowBlocks(ws[..i], staleness, refute);
    }
  }

  /** What walking one window comes to. */
  ghost function WindowResult(w: Eligible, staleness: real, refute: bool): Settled<seq<Row>> {
    if Walkable(w) then Settled(RowsFor(w, staleness, refute)) else IntegrityError
  }

  ghost function WindowResults(ws: seq<Eligible>, staleness: real, refute: bool): (results: seq<Settled<seq<Row>>>)
    ensures |results| == |ws|
  {
    seq(|ws|, i requires 0 <= i < |ws| => WindowResult(ws[i], staleness, refute))
  }

  /** The results joined in order; one failure fails them all. */
  function Joined(results: seq<Settled<seq<Row>>>): Settled<seq<Row>> {
    if results == [] then Settled([])
    else
      var rest, last := Joined(results[..|results| - 1]), results[|results| - 1];
      if rest.IntegrityError? || last.IntegrityError? then IntegrityError else Settled(rest.value + last.value)
  }

  lemma {:induction false} FailureStays(results: seq<Settled<seq<Row>>>, n: nat)
    requires n <= |results| && Joined(results[..n]).IntegrityError?
    ensures Joined(results).IntegrityError?
  {
    if n == |results| {
      assert results[..n] == results;
    } else {
      assert results[..|results| - 1][..n] == results[..n];
      FailureStays(results[..|results| - 1], n);
    }
  }

  lemma {:induction false} JoinedSucceeds(results: seq<Settled<seq<Row>>>, blocks: seq<seq<Row>>)
    requires |results| == |blocks| && forall i :: 0 <= i < |results| ==> results[i] == Settled(blocks[i])
    ensures Joined(results) == Settled(Concat(blocks))
  {
    if results == [] {
    } else {
      var n := |results| - 1;
      JoinedSucceeds(results[..n], blocks[..n]);
    }
  }

  lemma {:induction false} JoinedFails(results: seq<Settled<seq<Row>>>, i: nat)
    requires i < |results| && results[i].IntegrityError?
    ensures Joined(results).IntegrityError?
  {
    if i == |results| - 1 {
    } else {
      JoinedFails(results[..|results| - 1], i);
    }
  }

  lemma JoinedIsPass(ws: seq<Eligible>, staleness: real, refute: bool)
    ensures var joined := Joined(WindowResults(ws, staleness, refute));
            if AllWalkable(ws) then joined == Settled(AllRows(ws, staleness, refute)) else joined.IntegrityError?
  {
    if AllWalkable(ws) {
      JoinedSucceeds(WindowResults(ws, staleness, refute), RowBlocks(ws, staleness, refute));
    } else {
      var i :| 0 <= i < |ws| && !Walkable(ws[i]);
      JoinedFails(WindowResults(ws, staleness, refute), i);
    }
  }

  /** One full pass over the eligible windows. It fails exactly when some window cannot be walked. */
  method DoWalks(ws: seq<Eligible>, staleness: real, refute: bool) returns (rows: Settled<seq<Row>>)
    ensures rows.Settled? <==> AllWalkable(ws)
    ensures rows.Settled? ==> rows.value == AllRows(ws, staleness, refute)
    ensures rows.Settled? <==> forall i :: 0 <= i < |ws| ==> CanWalk(ws[i])
    ensures rows.Settled? ==> PassWalked(ws, staleness, refute, rows.value)
  {
    forall i | 0 <= i < |ws|
      ensures CanWalk(ws[i]) <==> Walkable(ws[i])
    {
      CanWalkIff(ws[i]);
    }
    rows := WalkAll(ws, staleness, refute, WindowResults(ws, staleness, refute));
    JoinedIsPass(ws, staleness, refute);
    if AllWalkable(ws) {
      PassIsWalked(ws, staleness, refute);
    }
  }

  method WalkAll(ws: seq<Eligible>, staleness: real, refute: bool, ghost results: seq<Settled<seq<Row>>>)
    returns (rows: Settled<seq<Row>>)
    requires results == WindowResults(ws, staleness, refute)
    ensures rows == Joined(results)
  {
    rows := Settled([]);
    var i := 0;
    while i < |ws| && rows.Settled?
      invariant 0 <= i <= |ws| && rows == Joined(results[..i])
    {
      rows := WalkNext(ws, i, staleness, refute, results, rows.value);
      i := i + 1;
    }
    assert results[..|ws|] == results;
    if rows.IntegrityError? {
      FailureStays(results, i);
    }
  }

  /** Walk window `i` and append its rows to those of the windows before it. */
  method WalkNext(ws: seq<Eligible>, i: nat, staleness: real, refute: bool, ghost results: seq<Settled<seq<Row>>>,
                  all: seq<Row>) returns (rows: Settled<seq<Row>>)
    requires i < |ws| && results == WindowResults(ws, staleness, refute) && Joined(results[..i]) == Settled(all)
    ensures rows == Joined(results[..i + 1])
  {
    JoinedStep(results, i);
    var block := WalkAt(ws, i, staleness, refute, results);
    if block.IntegrityError? {
      return IntegrityError;
    }
    return Settled(all + block.value);
  }

  method WalkAt(ws: seq<Eligible>, i: nat, staleness: real, refute: bool, ghost results: seq<Settled<seq<Row>>>)
    returns (block: Settled<seq<Row>>)
    requires i < |ws| && results == WindowResults(ws, staleness, refute)
    ensures block == results[i]
  {
    block := WalkWindow(ws[i], staleness, refute);
    assert results[i] == WindowResult(ws[i], staleness, refute);
  }

  lemma JoinedStep(results: seq<Settled<seq<Row>>>, i: nat)
    requires i < |results|
    ensures var rest, last := Joined(results[..i]), results[i];
            Joined(results[..i + 1]) ==
              if rest.IntegrityError? || last.IntegrityError? then IntegrityError else Settled(rest.value + last.value)
  {
    assert results[..i + 1][..i] == results[..i];
  }

  // ----- The rows meet the evaluator's hypotheses -----

  lemma RowsDescend(d: Direction, w: Eligible, events: seq<Event>)
    requires forall a, b :: 0 <= a < b < |events| ==> events[a].tMinus >= events[b].tMinus
    ensures var rows := RowsOf(d, w, events);
            && (forall a, b :: 0 <= a < b < |rows| ==> rows[a].tMinus >= rows[b].tMinus)
            && (forall a :: 0 <= a < |rows| ==> rows[a].direction == d)
  {
    var rows := RowsOf(d, w, events);
    forall a, b | 0 <= a < b < |rows|
      ensures rows[a].tMinus >= rows[b].tMinus
    {
      RoundIsMonotone(events[b].tMinus * 1000000.0, events[a].tMinus * 1000000.0);
    }
  }

  lemma DirectionRunsForward(d: Direction, w: Eligible, staleness: real, refute: bool)
    requires Walkable(w)
    ensures var events := DirectionEvents(d, w, staleness, refute);
            && (forall a, b :: 0 <= a < b < |events| ==> events[a].tMinus >= events[b].tMinus)
            && (forall a :: 0 <= a < |events| ==> events[a].tMinus >= 0.0)
  {
    StreamsAgree(w.hTrades, Yes, HighSide(d));
    StreamsAgree(w.lTrades, Yes, LowSide(d));
    DwellTime.DwellIntervalsAreDisjoint(
      TermsFor(d, w, staleness), LegStream(HighSide(d), w.hTrades).value, LegStream(LowSide(d), w.lTrades).value, refute);
  }

  lemma DirectionRowsDescend(d: Direction, w: Eligible, staleness: real, refute: bool)
    requires Walkable(w)
    ensures var rows := RowsOf(d, w, DirectionEvents(d, w, staleness, refute));
            && (forall a, b :: 0 <= a < b < |rows| ==> rows[a].tMinus >= rows[b].tMinus)
            && (forall a :: 0 <= a < |rows| ==> rows[a].direction == d)
  {
    DirectionRunsForward(d, w, staleness, refute);
    RowsDescend(d, w, DirectionEvents(d, w, staleness, refute));
  }

  /** The rows carry the window's close time and quintile. */
  ghost predicate Stamped(rows: seq<Row>, w: Eligible) {
    forall i :: 0 <= i < |rows| ==> rows[i].closeTime == w.closeTime && rows[i].quintile == w.quintile
  }

  lemma EventsAreStamped(d: Direction, w: Eligible, events: seq<Event>)
    ensures Stamped(RowsOf(d, w, events), w)
  {}

  lemma JoinStamped(a: seq<Row>, b: seq<Row>, w: Eligible)
    requires Stamped(a, w) && Stamped(b, w)
    ensures Stamped(a + b, w)
  {}

  lemma WindowRowsStamped(w: Eligible, staleness: real, refute: bool)
    requires Walkable(w)
    ensures Stamped(RowsFor(w, staleness, refute), w)
  {
    var a, b := DirectionEvents(Strangle, w, staleness, refute), DirectionEvents(Flip, w, staleness, refute);
    EventsAreStamped(Strangle, w, a);
    EventsAreStamped(Flip, w, b);
    JoinStamped(RowsOf(Strangle, w, a), RowsOf(Flip, w, b), w);
  }

  /** A window's rows run forward in time per direction. */
  lemma WindowRowsDescend(w: Eligible, staleness: real, refute: bool)
    requires Walkable(w)
    ensures Descending(RowsFor(w, staleness, refute))
  {
    DirectionRowsDescend(Strangle, w, staleness, refute);
    DirectionRowsDescend(Flip, w, staleness, refute);
    JoinDescends(RowsOf(Strangle, w, DirectionEvents(Strangle, w, staleness, refute)),
                 RowsOf(Flip, w, DirectionEvents(Flip, w, staleness, refute)));
  }

  lemma JoinDescends(a: seq<Row>, b: seq<Row>)
    requires forall i, j :: 0 <= i < j < |a| ==> a[i].tMinus >= a[j].tMinus
    requires forall i, j :: 0 <= i < j < |b| ==> b[i].tMinus >= b[j].tMinus
    requires forall i :: 0 <= i < |a| ==> a[i].direction == Strangle
    requires forall i :: 0 <= i < |b| ==> b[i].direction == Flip
    ensures Descending(a + b)
  {}

  ghost predicate AllFrom(rows: seq<Row>, ct: CloseTime) {
    forall i :: 0 <= i < |rows| ==> rows[i].closeTime == ct
  }

  /** Appending one whole window of rows to a stream that has not seen it. */
  lemma {:induction false} AppendWindow(rows: seq<Row>, block: seq<Row>, ct: CloseTime)
    requires Blocks(rows) && AllFrom(block, ct) && ct !in Windows(rows)
    ensures Blocks(rows + block)
    ensures Windows(rows + block) == if block == [] then Windows(rows) else Windows(rows) + [ct]
  {
    if block == [] {
      assert rows + block == rows;
    } else {
      var before, r := block[..|block| - 1], block[|block| - 1];
      AppendWindow(rows, before, ct);
      assert rows + block == (rows + before) + [r];
      Snoc(rows + before, r);
      if before == [] {
        assert rows + before == rows;
      } else {
        assert (rows + before)[|rows + before| - 1] == before[|before| - 1];
      }
    }
  }

  lemma ReadBlock(rows: seq<Row>, block: seq<Row>, ct: CloseTime, other: CloseTime)
    requires AllFrom(block, ct)
    ensures Policy.WindowRows(rows + block, other) ==
              if other == ct then Policy.WindowRows(rows, ct) + block else Policy.WindowRows(rows, other)
  {
    FilterConcat(IsOf(other), rows, block);
    ReadOwnBlock(block, ct, other);
  }

  lemma {:induction false} ReadOwnBlock(block: seq<Row>, ct: CloseTime, other: CloseTime)
    requires AllFrom(block, ct)
    ensures Policy.WindowRows(block, other) == if other == ct then block else []
  {
    if block == [] {
    } else {
      ReadOwnBlock(block[..|block| - 1], ct, other);
    }
  }

  ghost predicate Distinct(cts: seq<CloseTime>) {
    forall i, j :: 0 <= i < j < |cts| ==> cts[i] != cts[j]
  }

  ghost predicate Labelled(blocks: seq<seq<Row>>, cts: seq<CloseTime>) {
    |blocks| == |cts| && Distinct(cts) && forall i :: 0 <= i < |blocks| ==> AllFrom(blocks[i], cts[i])
  }

  /** Blocks of rows from distinct windows, one after another, are contiguous and open only their
      own windows. */
  lemma {:induction false} ConcatIsContiguous(blocks: seq<seq<Row>>, cts: seq<CloseTime>)
    requires Labelled(blocks, cts)
    ensures Blocks(Concat(blocks))
    ensures forall ct :: ct in Windows(Concat(blocks)) ==> ct in cts
  {
    if blocks == [] {
    } else {
      var n := |blocks| - 1;
      ConcatIsContiguous(blocks[..n], cts[..n]);
      assert cts[n] !in cts[..n];
      AppendWindow(Concat(blocks[..n]), blocks[n], cts[n]);
    }
  }

  /** Each block can be read back from the stream by its window. */
  lemma {:induction false} ConcatReadsBack(blocks: seq<seq<Row>>, cts: seq<CloseTime>, i: nat)
    requires Labelled(blocks, cts) && i < |cts|
    ensures Policy.WindowRows(Concat(blocks), cts[i]) == blocks[i]
  {
    var n := |blocks| - 1;
    if i == n {
      LastReadsBack(blocks, cts);
    } else {
      ReadBlock(Concat(blocks[..n]), blocks[n], cts[n], cts[i]);
      ConcatReadsBack(blocks[..n], cts[..n], i);
    }
  }

  lemma LastReadsBack(blocks: seq<seq<Row>>, cts: seq<CloseTime>)
    requires Labelled(blocks, cts) && blocks != []
    ensures Policy.WindowRows(Concat(blocks), cts[|cts| - 1]) == blocks[|blocks| - 1]
  {
    var n := |blocks| - 1;
    var rows := Concat(blocks[..n]);
    LastIsNew(blocks, cts);
    calc {
      Policy.WindowRows(rows + blocks[n], cts[n]);
      { ReadBlock(rows, blocks[n], cts[n], cts[n]); }
      Policy.WindowRows(rows, cts[n]) + blocks[n];
      { NoWindowRows(rows, cts[n]); }
      [] + blocks[n];
      blocks[n];
    }
  }

  lemma LastIsNew(blocks: seq<seq<Row>>, cts: seq<CloseTime>)
    requires Labelled(blocks, cts) && blocks != []
    ensures cts[|cts| - 1] !in Windows(Concat(blocks[..|blocks| - 1]))
  {
    var n := |blocks| - 1;
    ConcatIsContiguous(blocks[..n], cts[..n]);
    assert cts[n] !in cts[..n];
  }

  function Closes(ws: seq<Eligible>): seq<CloseTime> {
    seq(|ws|, i requires 0 <= i < |ws| => ws[i].closeTime)
  }

  lemma PassIsLabelled(ws: seq<Eligible>, staleness: real, refute: bool)
    requires AllWalkable(ws) && Distinct(Closes(ws))
    ensures Labelled(RowBlocks(ws, staleness, refute), Closes(ws))
  {
    forall i | 0 <= i < |ws|
      ensures AllFrom(RowBlocks(ws, staleness, refute)[i], Closes(ws)[i])
    {
      WindowRowsStamped(ws[i], staleness, refute);
    }
  }

  /** The tape file of a pass over distinct close times is contiguous, opens only its own windows,
      and gives back each window's rows. */
  lemma TapeIsContiguous(ws: seq<Eligible>, staleness: real, refute: bool)
    requires AllWalkable(ws) && Distinct(Closes(ws))
    ensures Contiguous(AllRows(ws, staleness, refute))
    ensures forall ct :: ct in Windows(AllRows(ws, staleness, refute)) ==> ct in Closes(ws)
    ensures forall i :: 0 <= i < |ws| ==>
              Policy.WindowRows(AllRows(ws, staleness, refute), ws[i].closeTime) == RowsFor(ws[i], staleness, refute)
  {
    var blocks := RowBlocks(ws, staleness, refute);
    PassIsLabelled(ws, staleness, refute);
    ConcatIsContiguous(blocks, Closes(ws));
    BlocksAreContiguous(Concat(blocks));
    forall i | 0 <= i < |ws|
      ensures Policy.WindowRows(AllRows(ws, staleness, refute), ws[i].closeTime) == RowsFor(ws[i], staleness, refute)
    {
      ConcatReadsBack(blocks, Closes(ws), i);
    }
  }

  // ----- The policy over a pass -----

  /** For every walked window the evaluator's entry is the earliest qualifying fresh row of that
      window, and there is one exactly when a routed source has such a row. */
  lemma PassEntersEarliest(ws: seq<Eligible>, i: nat, staleness: real, refute: bool)
    requires AllWalkable(ws) && Distinct(Closes(ws)) && i < |ws|
    ensures var w := Policy.WindowRows(AllRows(ws, staleness, refute), ws[i].closeTime);
            w != [] ==>
              && (Winner(w).Some? <==> exists r :: r in w && Enterable(ws[i].quintile, r))
              && (Winner(w).Some? ==> EarliestEntry(w, ws[i].quintile, Winner(w).value))
  {
    TapeIsContiguous(ws, staleness, refute);
    WindowRowsStamped(ws[i], staleness, refute);
    WindowRowsDescend(ws[i], staleness, refute);
    var w := RowsFor(ws[i], staleness, refute);
    if w != [] {
      WinnerIsEarliest(w);
    }
  }

  /** The freshness gate reads ages rounded to the millisecond, so it admits an event exactly when
      neither leg is older than 1.0005 s, not 1 s. */
  lemma FreshnessIsRounded(d: Direction, w: Eligible, e: Event)
    ensures Fresh(RowOf(d, w, e)) <==> e.highAge <= 1.0005 && e.lowAge <= 1.0005
  {
    RoundAtThousand(e.highAge * 1000.0);
    RoundAtThousand(e.lowAge * 1000.0);
  }

  lemma RoundAtThousand(x: real)
    ensures RoundHalfEven(x) <= 1000 <==> x <= 1000.5
  {}

  lemma RoundAtTenThousand(x: real)
    ensures RoundHalfEven(x) < 10000 <==> x < 9999.5
  {}

  /** The flag and the rounded cost disagree on a flip row exactly for costs in [0.99995, 1). */
  lemma DivergenceBand(w: Eligible, e: Event)
    requires e.hardFloor <==> e.C < 1.0
    ensures Diverges(RowOf(Flip, w, e)) <==> 0.99995 <= e.C < 1.0
  {
    RoundAtTenThousand(e.C * 10000.0);
  }

  /** A sub-$1 flip entry never loses: its window pays at least $1 and its legs cost less. */
  lemma SubDollarNeverLoses(w: Eligible, staleness: real, e: Event)
    requires Walkable(w)
    requires e.payoff == TermsFor(Flip, w, staleness).settle - e.C && (e.hardFloor <==> e.C < 1.0)
    requires SubDollar(RowOf(Flip, w, e))
    ensures e.payoff > 0.0 && RowOf(Flip, w, e).payoff >= 0.0
  {
    RoundIsMonotone(0.0, e.payoff * 10000.0);
    assert RoundHalfEven(0.0) == 0;
  }

  lemma {:induction false} MomentsPriced(w: Terms, m: seq<Print>, n: nat)
    requires n <= |m|
    ensures forall i :: 0 <= i < |Moments(w, m, n)| ==>
              var e := Moments(w, m, n)[i]; e.payoff == w.settle - e.C && (e.hardFloor <==> e.C < 1.0)
  {
    if n == 0 {
    } else {
      MomentsPriced(w, m, n - 1);
    }
  }

  lemma {:induction false} WinnersNeverLoseSubDollar(burned: set<CloseTime>, order: seq<CloseTime>, rows: seq<Row>, k: nat)
    requires forall i :: 0 <= i < |rows| && rows[i].direction.Flip? && SubDollar(rows[i]) ==> rows[i].payoff >= 0.0
    requires k < |Winners(burned, order, rows)| && Winners(burned, order, rows)[k].source == SubDollarFlip
    ensures Winners(burned, order, rows)[k].payoff >= 0.0
  {
    var rest := order[..|order| - 1];
    if k < |Winners(burned, rest, rows)| {
      WinnersNeverLoseSubDollar(burned, rest, rows, k);
    } else {
      var w := Policy.WindowRows(rows, order[|order| - 1]);
      FirstIsSome(SubDollarFlip, w);
      var r := FirstFor(SubDollarFlip, w).value;
      WindowRowsMembers(rows, order[|order| - 1], r);
      var i :| 0 <= i < |rows| && rows[i] == r;
    }
  }

  lemma {:induction false} FirstIsSome(src: Source, w: seq<Row>)
    ensures FirstFor(src, w).Some? ==> FirstFor(src, w).value in w && Qualifies(src, FirstFor(src, w).value)
  {
    if w == [] {
    } else {
      FirstIsSome(src, w[..|w| - 1]);
      assert w == w[..|w| - 1] + [w[|w| - 1]];
    }
  }

  lemma FlipRowsNeverLose(w: Eligible, staleness: real, refute: bool, r: Row)
    requires Walkable(w) && r in RowsFor(w, staleness, refute)
    requires r.direction.Flip? && SubDollar(r)
    ensures r.payoff >= 0.0
  {
    var events := DirectionEvents(Flip, w, staleness, refute);
    var rows := RowsOf(Flip, w, events);
    var m := DirectionMerged(Flip, w, refute);
    assert r in rows;
    var i :| 0 <= i < |rows| && rows[i] == r;
    MomentsPriced(TermsFor(Flip, w, staleness), m, |m|);
    SubDollarNeverLoses(w, staleness, events[i]);
  }

  lemma {:induction false} InSomeBlock(blocks: seq<seq<Row>>, r: Row) returns (i: nat)
    requires r in Concat(blocks)
    ensures i < |blocks| && r in blocks[i]
  {
    var n := |blocks| - 1;
    if r in blocks[n] {
      i := n;
    } else {
      i := InSomeBlock(blocks[..n], r);
    }
  }

  /** End to end: over any pass and any burned set, every sub-$1 flip entry that the streaming
      evaluator reports has a realized payoff of at least zero, pin or escape. */
  lemma SubDollarEntriesNeverLose(ws: seq<Eligible>, staleness: real, refute: bool, burned: set<CloseTime>, k: nat)
    requires AllWalkable(ws)
    requires var entries := BatchReport(burned, AllRows(ws, staleness, refute)).entries;
             k < |entries| && entries[k].source == SubDollarFlip
    ensures BatchReport(burned, AllRows(ws, staleness, refute)).entries[k].payoff >= 0.0
  {
    var rows := AllRows(ws, staleness, refute);
    forall i | 0 <= i < |rows| && rows[i].direction.Flip? && SubDollar(rows[i])
      ensures rows[i].payoff >= 0.0
    {
      var b := InSomeBlock(RowBlocks(ws, staleness, refute), rows[i]);
      FlipRowsNeverLose(ws[b], staleness, refute, rows[i]);
    }
    WinnersNeverLoseSubDollar(burned, Windows(rows), rows, k);
  }

  lemma RowsStamped(d: Direction, w: Eligible, events: seq<Event>, r: Row)
    requires forall a :: 0 <= a < |events| ==> events[a].tMinus >= 0.0
    requires r in RowsOf(d, w, events)
    ensures r.closeTime == w.closeTime && r.quintile == w.quintile && r.tMinus >= 0.0
  {
    var rows := RowsOf(d, w, events);
    var i :| 0 <= i < |rows| && rows[i] == r;
    RoundIsMonotone(0.0, events[i].tMinus * 1000000.0);
    assert RoundHalfEven(0.0) == 0;
  }

  lemma RowsNeverAfterClose(w: Eligible, staleness: real, refute: bool, r: Row)
    requires Walkable(w) && r in RowsFor(w, staleness, refute)
    ensures r.closeTime == w.closeTime && r.quintile == w.quintile && r.tMinus >= 0.0
  {
    var s, f := DirectionEvents(Strangle, w, staleness, refute), DirectionEvents(Flip, w, staleness, refute);
    DirectionRunsForward(Strangle, w, staleness, refute);
    DirectionRunsForward(Flip, w, staleness, refute);
    if r in RowsOf(Strangle, w, s) {
      RowsStamped(Strangle, w, s, r);
    } else {
      RowsStamped(Flip, w, f, r);
    }
  }

  /** The row was written for one of these windows, before its close. */
  ghost predicate ComesFrom(ws: seq<Eligible>, r: Row) {
    exists b :: 0 <= b < |ws| && r.closeTime == ws[b].closeTime && r.quintile == ws[b].quintile && r.tMinus >= 0.0
  }

  lemma RowComesFrom(ws: seq<Eligible>, staleness: real, refute: bool, r: Row)
    requires AllWalkable(ws) && r in AllRows(ws, staleness, refute)
    ensures ComesFrom(ws, r)
  {
    var b := InSomeBlock(RowBlocks(ws, staleness, refute), r);
    RowsNeverAfterClose(ws[b], staleness, refute, r);
  }

  lemma StampedRowsShareQuintile(ws: seq<Eligible>, a: Row, b: Row)
    requires Distinct(Closes(ws)) && ComesFrom(ws, a) && ComesFrom(ws, b) && a.closeTime == b.closeTime
    ensures a.quintile == b.quintile
  {
    var i :| 0 <= i < |ws| && a.closeTime == ws[i].closeTime && a.quintile == ws[i].quintile;
    var j :| 0 <= j < |ws| && b.closeTime == ws[j].closeTime && b.quintile == ws[j].quintile;
    assert Closes(ws)[i] == Closes(ws)[j];
  }

  lemma StampedRowsFeedSurface(ws: seq<Eligible>, rows: seq<Row>)
    requires Distinct(Closes(ws)) && forall i :: 0 <= i < |rows| ==> ComesFrom(ws, rows[i])
    ensures Surface.OneQuintile(rows) && forall i :: 0 <= i < |rows| ==> rows[i].tMinus >= 0.0
  {
    forall i, j | 0 <= i < j < |rows| && Surface.SameWindow(rows[i], rows[j])
      ensures rows[i].quintile == rows[j].quintile
    {
      StampedRowsShareQuintile(ws, rows[i], rows[j]);
    }
  }

  /** The tape file of a pass meets what the surface counts need: one quintile per window and no
      row after its close. */
  lemma PassFeedsSurface(ws: seq<Eligible>, staleness: real, refute: bool)
    requires AllWalkable(ws) && Distinct(Closes(ws))
    ensures var rows := AllRows(ws, staleness, refute);
            Surface.OneQuintile(rows) && forall i :: 0 <= i < |rows| ==> rows[i].tMinus >= 0.0
  {
    var rows := AllRows(ws, staleness, refute);
    forall i | 0 <= i < |rows|
      ensures ComesFrom(ws, rows[i])
    {
      RowComesFrom(ws, staleness, refute, rows[i]);
    }
    StampedRowsFeedSurface(ws, rows);
  }

  // ----- The totals of a pass -----

  /** What the before/after comparison takes from a pass, summed over its windows. */
  datatype Totals = Totals(events: nat, evPlus: nat, evPlusSeconds: real, hardFloor: nat, hardFloorSeconds: real)

  const NOTHING := Totals(0, 0, 0.0, 0, 0.0)

  function AddSummary(t: Totals, s: Summary): Totals {
    Totals(t.events + s.nEvents, t.evPlus + s.nEvPlus, t.evPlusSeconds + s.evPlusSeconds,
           t.hardFloor + s.nHardFloor, t.hardFloorSeconds + s.hardFloorSeconds)
  }

  function TotalsOf(sums: seq<Summary>): Totals {
    if sums == [] then NOTHING else AddSummary(TotalsOf(sums[..|sums| - 1]), sums[|sums| - 1])
  }

  /** The totals are the sums of the windows' summaries, number by number. */
  lemma {:induction false} TotalsAreSums(sums: seq<Summary>)
    ensures var t := TotalsOf(sums);
            && t.events as real == Sum((s: Summary) => s.nEvents as real, sums)
            && t.evPlus as real == Sum((s: Summary) => s.nEvPlus as real, sums)
            && t.evPlusSeconds == Sum((s: Summary) => s.evPlusSeconds, sums)
            && t.hardFloor as real == Sum((s: Summary) => s.nHardFloor as real, sums)
            && t.hardFloorSeconds == Sum((s: Summary) => s.hardFloorSeconds, sums)
  {
    if sums == [] {
    } else {
      TotalsAreSums(sums[..|sums| - 1]);
    }
  }

  /** The summaries of one direction's walks, window by window. */
  ghost function Summaries(d: Direction, ws: seq<Eligible>, staleness: real, refute: bool): (sums: seq<Summary>)
    requires AllWalkable(ws)
    ensures |sums| == |ws|
  {
    seq(|ws|, i requires 0 <= i < |ws| => Summarize(DirectionEvents(d, ws[i], staleness, refute)))
  }

  ghost function PassTotals(d: Direction, ws: seq<Eligible>, staleness: real, refute: bool): Totals
    requires AllWalkable(ws)
  {
    TotalsOf(Summaries(d, ws, staleness, refute))
  }

  predicate NoMore(a: Totals, b: Totals) {
    && a.events <= b.events
    && a.evPlus <= b.evPlus && a.evPlusSeconds <= b.evPlusSeconds
    && a.hardFloor <= b.hardFloor && a.hardFloorSeconds <= b.hardFloorSeconds
  }

  predicate SumsNoMore(a: Summary, b: Summary) {
    NoMore(AddSummary(NOTHING, a), AddSummary(NOTHING, b))
  }

  /** Neither total of seconds is longer than the window. */
  predicate Limited(s: Summary) {
    s.evPlusSeconds <= WINDOW_S && s.hardFloorSeconds <= WINDOW_S
  }

  lemma AddKeepsOrder(t: Totals, t': Totals, s: Summary, s': Summary)
    requires NoMore(t, t') && SumsNoMore(s, s')
    ensures NoMore(AddSummary(t, s), AddSummary(t', s'))
  {}

  lemma WindowCompares(d: Direction, w: Eligible, s: real, staleness: real, refute: bool)
    requires Walkable(w) && s <= staleness
    ensures SumsNoMore(Summarize(DirectionEvents(d, w, staleness, true)), Summarize(DirectionEvents(d, w, staleness, false)))
    ensures SumsNoMore(Summarize(DirectionEvents(d, w, s, refute)), Summarize(DirectionEvents(d, w, staleness, refute)))
    ensures Limited(Summarize(DirectionEvents(d, w, staleness, refute)))
  {
    var terms := TermsFor(d, w, staleness);
    StreamsAgree(w.hTrades, Yes, HighSide(d));
    StreamsAgree(w.lTrades, Yes, LowSide(d));
    var high, low := LegStream(HighSide(d), w.hTrades).value, LegStream(LowSide(d), w.lTrades).value;
    Refutation.RefutationDelta(terms, high, low);
    Staleness.TighterPassIsLowerBound(terms, s, high, low, refute);
    DwellTime.SecondsAreBounded(terms, high, low, refute);
  }

  lemma {:induction false} TotalsCompare(a: seq<Summary>, b: seq<Summary>)
    requires |a| == |b| && forall i :: 0 <= i < |a| ==> SumsNoMore(a[i], b[i])
    ensures NoMore(TotalsOf(a), TotalsOf(b))
  {
    if a == [] {
    } else {
      var n := |a| - 1;
      TotalsCompare(a[..n], b[..n]);
      AddKeepsOrder(TotalsOf(a[..n]), TotalsOf(b[..n]), a[n], b[n]);
    }
  }

  lemma {:induction false} TotalsBounded(a: seq<Summary>)
    requires forall i :: 0 <= i < |a| ==> Limited(a[i])
    ensures TotalsOf(a).evPlusSeconds <= WINDOW_S * |a| as real && TotalsOf(a).hardFloorSeconds <= WINDOW_S * |a| as real
  {
    if a == [] {
    } else {
      var n := |a| - 1;
      assert Limited(a[n]);
      TotalsBounded(a[..n]);
    }
  }

  lemma PassRefutes(d: Direction, ws: seq<Eligible>, staleness: real)
    requires AllWalkable(ws)
    ensures NoMore(PassTotals(d, ws, staleness, true), PassTotals(d, ws, staleness, false))
  {
    var a, b := Summaries(d, ws, staleness, true), Summaries(d, ws, staleness, false);
    forall i | 0 <= i < |ws|
      ensures SumsNoMore(a[i], b[i])
    {
      WindowCompares(d, ws[i], staleness, staleness, true);
    }
    TotalsCompare(a, b);
  }

  lemma PassTightens(d: Direction, ws: seq<Eligible>, s: real, staleness: real, refute: bool)
    requires AllWalkable(ws) && s <= staleness
    ensures NoMore(PassTotals(d, ws, s, refute), PassTotals(d, ws, staleness, refute))
  {
    var a, b := Summaries(d, ws, s, refute), Summaries(d, ws, staleness, refute);
    forall i | 0 <= i < |ws|
      ensures SumsNoMore(a[i], b[i])
    {
      WindowCompares(d, ws[i], s, staleness, refute);
    }
    TotalsCompare(a, b);
  }

  lemma PassSeconds(d: Direction, ws: seq<Eligible>, staleness: real, refute: bool)
    requires AllWalkable(ws)
    ensures var t := PassTotals(d, ws, staleness, refute);
            t.evPlusSeconds <= WINDOW_S * |ws| as real && t.hardFloorSeconds <= WINDOW_S * |ws| as real
  {
    SummariesLimited(d, ws, staleness, refute);
    TotalsBounded(Summaries(d, ws, staleness, refute));
  }

  lemma SummariesLimited(d: Direction, ws: seq<Eligible>, staleness: real, refute: bool)
    requires AllWalkable(ws)
    ensures var sums := Summaries(d, ws, staleness, refute);
            forall i :: 0 <= i < |sums| ==> Limited(sums[i])
  {
    var sums := Summaries(d, ws, staleness, refute);
    forall i | 0 <= i < |sums|
      ensures Limited(sums[i])
    {
      WindowCompares(d, ws[i], staleness, staleness, refute);
    }
  }

  /** Over a whole pass, refutation on against off, and a tighter staleness bound against a looser
      one, never raise a total; and no direction has more than 900 counted seconds per window. */
  lemma PassTotalsCompare(d: Direction, ws: seq<Eligible>, s: real, staleness: real, refute: bool)
    requires AllWalkable(ws) && s <= staleness
    ensures NoMore(PassTotals(d, ws, staleness, true), PassTotals(d, ws, staleness, false))
    ensures NoMore(PassTotals(d, ws, s, refute), PassTotals(d, ws, staleness, refute))
    ensures var t := PassTotals(d, ws, staleness, refute);
            t.evPlusSeconds <= WINDOW_S * |ws| as real && t.hardFloorSeconds <= WINDOW_S * |ws| as real
  {
    PassRefutes(d, ws, staleness);
    PassTightens(d, ws, s, staleness, refute);
    PassSeconds(d, ws, staleness, refute);
  }
}
