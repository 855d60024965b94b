/** On trades priced in whole $0.0001 ticks every cost of a pass is a whole number of ticks, so the
    sub-$1 flag and the rounded cost never disagree and strict mode accepts the pass. */
module PriceGrid {
  import opened Fees
  import opened Sequences
  import opened Settlement
  import opened Tape
  import opened Policy
  import opened TapeRows

  ghost predicate TradesOnGrid(trades: seq<Trade>) {
    forall i :: 0 <= i < |trades| ==> OnGrid(trades[i].yes) && OnGrid(trades[i].no)
  }

  /** The cost is that of the fee law: both prices with their taker fees. */
  ghost predicate FeeLaw(cost: (real, real) -> real) {
    forall a: real, b: real :: cost(a, b) == CostC(a, b)
  }

  ghost predicate TapesOnGrid(w: Eligible) {
    TradesOnGrid(w.hTrades) && TradesOnGrid(w.lTrades)
  }

  ghost predicate GridPriced(w: Eligible) {
    FeeLaw(w.cost) && TapesOnGrid(w)
  }

  ghost predicate FillsOnGrid(ticks: seq<Tick>) {
    forall i :: 0 <= i < |ticks| && ticks[i].kind.Same? ==> OnGrid(ticks[i].price)
  }

  ghost predicate PrintsOnGrid(m: seq<Print>) {
    forall i :: 0 <= i < |m| && m[i].kind.Same? ==> OnGrid(m[i].price)
  }

  lemma StreamOnGrid(side: Side, trades: seq<Trade>)
    requires LegStream(side, trades).Settled? && TradesOnGrid(trades)
    ensures FillsOnGrid(LegStream(side, trades).value)
  {}

  lemma MergedOnGrid(T: real, high: seq<Tick>, low: seq<Tick>, refute: bool)
    requires FillsOnGrid(high) && FillsOnGrid(low)
    ensures PrintsOnGrid(Merged(T, high, low, refute))
  {
    var m := Merged(T, high, low, refute);
    forall i | 0 <= i < |m| && m[i].kind.Same?
      ensures OnGrid(m[i].price)
    {
      MergedMember(T, high, low, refute, m[i]);
      if m[i] in Tag(High, high) {
        TagOnGrid(High, high, m[i]);
      } else {
        TagOnGrid(Low, low, m[i]);
      }
    }
  }

  lemma TagOnGrid(leg: Leg, ticks: seq<Tick>, p: Print)
    requires FillsOnGrid(ticks) && p in Tag(leg, ticks) && p.kind.Same?
    ensures OnGrid(p.price)
  {
    var k :| 0 <= k < |ticks| && Tag(leg, ticks)[k] == p;
    assert ticks[k].kind.Same? && ticks[k].price == p.price;
  }

  /** Merging adds no print of its own. */
  lemma MergedMember(T: real, high: seq<Tick>, low: seq<Tick>, refute: bool, p: Print)
    requires p in Merged(T, high, low, refute)
    ensures p in Tag(High, high) || p in Tag(Low, low)
  {
    var all := Tag(High, high) + Tag(Low, low);
    var kept := if refute then all else Filter(IsSame, all);
    FilterMembers((x: Print) => x.ts <= T, Sort(kept), p);
    SortMember(kept, p);
    if !refute {
      FilterMembers(IsSame, all, p);
    }
  }

  lemma SortMember(m: seq<Print>, p: Print)
    requires p in Sort(m)
    ensures p in m
  {
    assert p in multiset(Sort(m));
  }

  lemma {:induction false} MomentsOnGrid(w: Terms, m: seq<Print>, n: nat)
    requires n <= |m| && PrintsOnGrid(m) && FeeLaw(w.cost)
    ensures forall i :: 0 <= i < |Moments(w, m, n)| ==>
              var e := Moments(w, m, n)[i]; OnGrid(e.C) && (e.hardFloor <==> e.C < 1.0)
  {
    if n == 0 {
    } else {
      MomentsOnGrid(w, m, n - 1);
      if IsMoment(w, m, n - 1) {
        MomentLegs(w, m, n - 1);
        GridCost(Held(m, n, High).price, Held(m, n, Low).price);
      }
    }
  }

  lemma EventsOnGrid(d: Direction, w: Eligible, staleness: real, refute: bool)
    requires Walkable(w) && GridPriced(w)
    ensures forall i :: 0 <= i < |DirectionEvents(d, w, staleness, refute)| ==>
              var e := DirectionEvents(d, w, staleness, refute)[i]; OnGrid(e.C) && (e.hardFloor <==> e.C < 1.0)
  {
    StreamsAgree(w.hTrades, Yes, HighSide(d));
    StreamsAgree(w.lTrades, Yes, LowSide(d));
    StreamOnGrid(HighSide(d), w.hTrades);
    StreamOnGrid(LowSide(d), w.lTrades);
    var high, low := LegStream(HighSide(d), w.hTrades).value, LegStream(LowSide(d), w.lTrades).value;
    MergedOnGrid(w.T, high, low, refute);
    var m := DirectionMerged(d, w, refute);
    MomentsOnGrid(TermsFor(d, w, staleness), m, |m|);
  }

  lemma GridCostAgrees(w: Eligible, e: Event)
    requires OnGrid(e.C) && (e.hardFloor <==> e.C < 1.0)
    ensures !Diverges(RowOf(Flip, w, e))
  {
    DivergenceBand(w, e);
    var n: int :| e.C == GridPrice(n);
    assert e.C < 1.0 ==> n <= 9999;
  }

  ghost predicate Agrees(r: Row) {
    !(r.direction.Flip? && Diverges(r))
  }

  lemma WindowAgrees(w: Eligible, staleness: real, refute: bool, r: Row)
    requires Walkable(w) && GridPriced(w) && r in RowsFor(w, staleness, refute)
    ensures Agrees(r)
  {
    EventsOnGrid(Flip, w, staleness, refute);
    var flips := RowsOf(Flip, w, DirectionEvents(Flip, w, staleness, refute));
    if r in flips {
      var i :| 0 <= i < |flips| && flips[i] == r;
      GridCostAgrees(w, DirectionEvents(Flip, w, staleness, refute)[i]);
    }
  }

  lemma {:induction false} AgreeingRows(rows: seq<Row>)
    requires forall r :: r in rows ==> Agrees(r)
    ensures Divergences(rows) == 0
  {
    if rows == [] {
    } else {
      var before, r := rows[..|rows| - 1], rows[|rows| - 1];
      assert r in rows && forall x :: x in before ==> x in rows;
      AgreeingRows(before);
    }
  }

  /** A pass over grid-priced trades has no divergence, so with distinct windows strict mode accepts
      it just as lenient mode does. */
  lemma GridPassAgrees(ws: seq<Eligible>, staleness: real, refute: bool)
    requires AllWalkable(ws) && forall i :: 0 <= i < |ws| ==> GridPriced(ws[i])
    ensures Divergences(AllRows(ws, staleness, refute)) == 0
    ensures Distinct(Closes(ws)) ==> forall strict :: Acceptable(strict, AllRows(ws, staleness, refute))
  {
    var rows, blocks := AllRows(ws, staleness, refute), RowBlocks(ws, staleness, refute);
    forall r | r in rows
      ensures Agrees(r)
    {
      var i := InSomeBlock(blocks, r);
      WindowAgrees(ws[i], staleness, refute, r);
    }
    AgreeingRows(rows);
    if Distinct(Closes(ws)) {
      TapeIsContiguous(ws, staleness, refute);
      BlocksAreContiguous(rows);
    }
  }
}
