/** The wide box selection (pilot/service/box.py): at one instant, pair the 15-minute market with
    the hourly strike whose deep-in-the-money leg is nearest the target. */
module BoxSelection {
  import opened Fees
  import opened Sequences
  import opened Settlement

  /** A market, known by identity: tickers are only ever compared for equality. */
  type Ticker = int

  /** The quotes the box reads from a top of book. */
  datatype Top = Top(yesBid: Option<real>, yesAsk: Option<real>, suspect: bool)

  /** One entry of the hourly ladder. */
  datatype Rung = Rung(ticker: Ticker, K: real, top: Top)

  datatype Params = Params(
    targetMid: real, hourlyAskMin: real, hourlyAskMax: real, min15Ask: real, maxSpread: real, limitMargin: real,
    entryStart: real, entryEnd: real, freshness: real, cutoff: real, contracts: int, minImpliedPin: real)

  datatype Selection = Selection(
    hourlyTicker: Ticker, hourlySide: Side, hourlyAsk: real, hourlyBid: real, hourlyMid: real, hourlyLimit: real,
    m15Ticker: Ticker, m15Side: Side, m15Ask: real, m15Bid: real, m15Limit: real,
    strikeK: real, anchorA: real, CMid: real, impliedPin: real)

  /** What the box costs: its two observed asks with their fees. */
  function BoxCost(s: Selection): real {
    LegCost(s.hourlyAsk) + LegCost(s.m15Ask)
  }

  datatype Reason = MissingQuote | WideSpread | CheapAnchorLeg | NoCandidate | HourlyAskOutside

  datatype View = Box(sel: Selection) | NoBox(reason: Reason)

  function Mid(ask: real, bid: real): real {
    (ask + bid) / 2.0
  }

  function Abs(x: real): real {
    if x < 0.0 then -x else x
  }

  function Limited(ask: real, p: Params): real {
    if ask + p.limitMargin <= 0.99 then ask + p.limitMargin else 0.99
  }

  /** A qualifying hourly leg, with its quotes on the side that would be bought. */
  datatype Cand = Cand(ticker: Ticker, K: real, ask: real, bid: real, mid: real)

  predicate Quoted(p: Params, top: Top) {
    top.yesAsk.Some? && top.yesBid.Some? && top.yesAsk.value - top.yesBid.value <= p.maxSpread
  }

  predicate Qualifies(p: Params, A: real, below: bool, r: Rung) {
    Quoted(p, r.top) && if below then r.K < A else r.K > A
  }

  function CandOf(p: Params, below: bool, r: Rung): Cand
    requires Quoted(p, r.top)
  {
    var ya, yb := r.top.yesAsk.value, r.top.yesBid.value;
    if below then Cand(r.ticker, r.K, ya, yb, Mid(ya, yb))
    else Cand(r.ticker, r.K, 1.0 - yb, 1.0 - ya, 1.0 - Mid(ya, yb))
  }

  function Candidates(p: Params, A: real, below: bool, ladder: seq<Rung>): seq<Cand> {
    if ladder == [] then []
    else
      var rest, r := Candidates(p, A, below, ladder[..|ladder| - 1]), ladder[|ladder| - 1];
      if Qualifies(p, A, below, r) then rest + [CandOf(p, below, r)] else rest
  }

  /** The selection order: nearest mid to the target, then the widest gap from the anchor. */
  predicate Better(p: Params, A: real, a: Cand, b: Cand) {
    var da, db := Abs(a.mid - p.targetMid), Abs(b.mid - p.targetMid);
    da < db || (da == db && Abs(a.K - A) > Abs(b.K - A))
  }

  /** Python's min: the first candidate that none improves on. */
  function Best(p: Params, A: real, cands: seq<Cand>): Cand
    requires cands != []
  {
    var last := cands[|cands| - 1];
    if |cands| == 1 then last
    else
      var best := Best(p, A, cands[..|cands| - 1]);
      if Better(p, A, last, best) then last else best
  }

  function Finish(p: Params, A: real, m15: Ticker, below: bool, m15Ask: real, m15Bid: real, c: Cand): View {
    if !(p.hourlyAskMin <= c.ask <= p.hourlyAskMax) then
      NoBox(HourlyAskOutside)
    else
      var CMid := c.mid + Mid(m15Ask, m15Bid);
      Box(Selection(
        c.ticker, if below then Yes else No, c.ask, c.bid, c.mid, Limited(c.ask, p),
        m15, if below then No else Yes, m15Ask, m15Bid, Limited(m15Ask, p),
        c.K, A, CMid, CMid - 1.0))
  }

  function SelectBox(p: Params, A: real, m15: Ticker, top: Top, ladder: seq<Rung>): View {
    if top.yesAsk.None? || top.yesBid.None? then
      NoBox(MissingQuote)
    else
      var ya, yb := top.yesAsk.value, top.yesBid.value;
      if ya - yb > p.maxSpread then
        NoBox(WideSpread)
      else
        var below := Mid(ya, yb) < 0.5;
        var m15Ask, m15Bid := if below then 1.0 - yb else ya, if below then 1.0 - ya else yb;
        if m15Ask < p.min15Ask then
          NoBox(CheapAnchorLeg)
        else
          var cands := Candidates(p, A, below, ladder);
          if cands == [] then NoBox(NoCandidate) else Finish(p, A, m15, below, m15Ask, m15Bid, Best(p, A, cands))
  }

  /** Python's min over the candidates. */
  method KeepBest(p: Params, A: real, cands: seq<Cand>) returns (b: Cand)
    requires cands != []
    ensures b == Best(p, A, cands)
  {
    b := cands[0];
    for i := 1 to |cands|
      invariant b == Best(p, A, cands[..i])
    {
      assert cands[..i + 1][..i] == cands[..i];
      if Better(p, A, cands[i], b) {
        b := cands[i];
      }
    }
    assert cands[..|cands|] == cands;
  }

  /** The two scans of the source: collect the candidates, then keep the best one. */
  method ScanLadder(p: Params, A: real, below: bool, ladder: seq<Rung>) returns (best: Option<Cand>)
    ensures var cands := Candidates(p, A, below, ladder);
            best == if cands == [] then None else Some(Best(p, A, cands))
    ensures Scanned(p, A, below, ladder, best)
  {
    var cands: seq<Cand> := [];
    for i := 0 to |ladder|
      invariant cands == Candidates(p, A, below, ladder[..i])
    {
      assert ladder[..i + 1][..i] == ladder[..i];
      if Qualifies(p, A, below, ladder[i]) {
        cands := cands + [CandOf(p, below, ladder[i])];
      }
    }
    assert ladder[..|ladder|] == ladder;
    if cands == [] {
      best := None;
    } else {
      var b := KeepBest(p, A, cands);
      best := Some(b);
    }
    ScanIsPlain(p, A, below, ladder, best);
  }

  // ----- Optimality -----

  lemma {:induction false} BestIsBest(p: Params, A: real, cands: seq<Cand>)
    requires cands != []
    ensures Best(p, A, cands) in cands
    ensures forall c :: c in cands ==> !Better(p, A, c, Best(p, A, cands))
  {
    if |cands| > 1 {
      var rest, last := cands[..|cands| - 1], cands[|cands| - 1];
      assert cands == rest + [last];
      BestIsBest(p, A, rest);
    }
  }

  lemma {:induction false} CandidatesAre(p: Params, A: real, below: bool, ladder: seq<Rung>, c: Cand)
    ensures c in Candidates(p, A, below, ladder) <==>
              exists r :: r in ladder && Qualifies(p, A, below, r) && CandOf(p, below, r) == c
  {
    if ladder == [] {
    } else {
      var rest, last := ladder[..|ladder| - 1], ladder[|ladder| - 1];
      assert ladder == rest + [last];
      CandidatesAre(p, A, below, rest, c);
    }
  }

  /** No rung that qualifies on the chosen side beats the selected one, in mid and then in gap. */
  lemma SelectionIsOptimal(p: Params, A: real, m15: Ticker, top: Top, ladder: seq<Rung>)
    requires SelectBox(p, A, m15, top, ladder).Box?
    ensures var s := SelectBox(p, A, m15, top, ladder).sel;
            var below := s.hourlySide.Yes?;
            && (exists r :: r in ladder && Qualifies(p, A, below, r) && r.ticker == s.hourlyTicker && r.K == s.strikeK
                            && CandOf(p, below, r).ask == s.hourlyAsk && CandOf(p, below, r).mid == s.hourlyMid)
            && (forall r :: r in ladder && Qualifies(p, A, below, r) ==>
                  var gap, best := Abs(CandOf(p, below, r).mid - p.targetMid), Abs(s.hourlyMid - p.targetMid);
                  best < gap || (best == gap && Abs(r.K - A) <= Abs(s.strikeK - A)))
  {
    var s := SelectBox(p, A, m15, top, ladder).sel;
    var below := s.hourlySide.Yes?;
    var cands := Candidates(p, A, below, ladder);
    BestIsBest(p, A, cands);
    CandidatesAre(p, A, below, ladder, Best(p, A, cands));
    forall r | r in ladder && Qualifies(p, A, below, r)
      ensures var gap, best := Abs(CandOf(p, below, r).mid - p.targetMid), Abs(s.hourlyMid - p.targetMid);
              best < gap || (best == gap && Abs(r.K - A) <= Abs(s.strikeK - A))
    {
      CandidatesAre(p, A, below, ladder, CandOf(p, below, r));
    }
  }

  // ----- The selection in plain terms -----

  predicate IsQuoted(p: Params, top: Top) {
    top.yesAsk != None && top.yesBid != None && top.yesAsk.value - top.yesBid.value <= p.maxSpread
  }

  /** The rung can be bought: quoted within the spread and on the far side of the anchor. */
  predicate Usable(p: Params, A: real, below: bool, r: Rung) {
    IsQuoted(p, r.top) && (if below then r.K < A else r.K > A)
  }

  /** The quotes of the side that is bought: YES as they are, NO from the other side of the book. */
  function Bought(side: Side, top: Top): (real, real)
    requires top.yesAsk != None && top.yesBid != None
  {
    if side == Yes then (top.yesAsk.value, top.yesBid.value) else (1.0 - top.yesBid.value, 1.0 - top.yesAsk.value)
  }

  /** How far the middle of the bought quotes is from the target. */
  function OffTarget(p: Params, below: bool, r: Rung): real
    requires r.top.yesAsk != None && r.top.yesBid != None
  {
    var quotes := Bought(if below then Yes else No, r.top);
    var off := (quotes.0 + quotes.1) / 2.0 - p.targetMid;
    if off >= 0.0 then off else -off
  }

  /** How far the strike is from the anchor. */
  function Gap(A: real, r: Rung): real {
    if r.K >= A then r.K - A else A - r.K
  }

  predicate Preferred(p: Params, A: real, below: bool, a: Rung, b: Rung)
    requires Usable(p, A, below, a) && Usable(p, A, below, b)
  {
    || OffTarget(p, below, a) < OffTarget(p, below, b)
    || (OffTarget(p, below, a) == OffTarget(p, below, b) && Gap(A, a) > Gap(A, b))
  }

  /** Rung `k` can be bought, is preferred to every earlier such rung, and no later one is preferred to it. */
  ghost predicate Chosen(p: Params, A: real, below: bool, ladder: seq<Rung>, k: nat) {
    && k < |ladder| && Usable(p, A, below, ladder[k])
    && (forall j :: 0 <= j < k && Usable(p, A, below, ladder[j]) ==> Preferred(p, A, below, ladder[k], ladder[j]))
    && (forall j :: k < j < |ladder| && Usable(p, A, below, ladder[j]) ==> !Preferred(p, A, below, ladder[j], ladder[k]))
  }

  /** The lesser of the ask with its margin and the 0.99 ceiling. */
  predicate IsLimit(p: Params, ask: real, limit: real) {
    limit <= ask + p.limitMargin && limit <= 0.99 && (limit == ask + p.limitMargin || limit == 0.99)
  }

  /** The box of these quotes. Below one half the 15-minute market is bought NO and an hourly strike below
      the anchor YES; otherwise YES, and a strike above it NO. */
  ghost predicate Selects(p: Params, A: real, m15: Ticker, top: Top, ladder: seq<Rung>, s: Selection) {
    && IsQuoted(p, top)
    && var below := (top.yesAsk.value + top.yesBid.value) / 2.0 < 0.5;
    && s.m15Ticker == m15 && s.anchorA == A
    && s.m15Side == (if below then No else Yes) && s.hourlySide == (if below then Yes else No)
    && (s.m15Ask, s.m15Bid) == Bought(s.m15Side, top)
    && s.m15Ask >= p.min15Ask && p.hourlyAskMin <= s.hourlyAsk <= p.hourlyAskMax
    && (exists k: nat :: Chosen(p, A, below, ladder, k) && s.hourlyTicker == ladder[k].ticker && s.strikeK == ladder[k].K
                    && (s.hourlyAsk, s.hourlyBid) == Bought(s.hourlySide, ladder[k].top))
    && s.hourlyMid == (s.hourlyAsk + s.hourlyBid) / 2.0
    && IsLimit(p, s.hourlyAsk, s.hourlyLimit) && IsLimit(p, s.m15Ask, s.m15Limit)
    && s.CMid == s.hourlyMid + (s.m15Ask + s.m15Bid) / 2.0 && s.impliedPin == s.CMid - 1.0
  }

  /** The candidate tells of the rung: its quotes on the side bought and their middle. */
  predicate IsCandOf(below: bool, r: Rung, c: Cand) {
    && r.top.yesAsk != None && r.top.yesBid != None
    && c.ticker == r.ticker && c.K == r.K
    && (c.ask, c.bid) == Bought(if below then Yes else No, r.top) && c.mid == (c.ask + c.bid) / 2.0
  }

  ghost function UsableAt(p: Params, A: real, below: bool, ladder: seq<Rung>): nat -> bool {
    (i: nat) => i < |ladder| && Usable(p, A, below, ladder[i])
  }

  ghost function CandAt(p: Params, A: real, below: bool, ladder: seq<Rung>): (nat, Cand) -> bool {
    (i: nat, c: Cand) => i < |ladder| && Usable(p, A, below, ladder[i]) && c == CandOf(p, below, ladder[i])
  }

  lemma {:induction false} CandidatesListed(p: Params, A: real, below: bool, ladder: seq<Rung>, n: nat) returns (at: seq<nat>)
    requires n <= |ladder|
    ensures Lists(n, UsableAt(p, A, below, ladder), CandAt(p, A, below, ladder), at, Candidates(p, A, below, ladder[..n]))
  {
    if n == 0 {
      at := [];
    } else {
      var r := ladder[n - 1];
      at := CandidatesListed(p, A, below, ladder, n - 1);
      var before := Candidates(p, A, below, ladder[..n - 1]);
      assert ladder[..n][..n - 1] == ladder[..n - 1];
      if Qualifies(p, A, below, r) {
        ListsMore(n - 1, UsableAt(p, A, below, ladder), CandAt(p, A, below, ladder), at, before, CandOf(p, below, r));
        at := at + [n - 1];
      } else {
        ListsSame(n - 1, UsableAt(p, A, below, ladder), CandAt(p, A, below, ladder), at, before);
      }
    }
  }

  /** Where the best candidate is. */
  lemma {:induction false} BestAt(p: Params, A: real, cands: seq<Cand>) returns (k: nat)
    requires cands != []
    ensures k < |cands| && Best(p, A, cands) == cands[k]
    ensures forall j :: 0 <= j < k ==> Better(p, A, cands[k], cands[j])
    ensures forall j :: k < j < |cands| ==> !Better(p, A, cands[j], cands[k])
  {
    var n := |cands| - 1;
    if n == 0 {
      k := 0;
    } else {
      k := BestAt(p, A, cands[..n]);
      var best := cands[..n][k];
      if Better(p, A, cands[n], best) {
        forall j | 0 <= j < n
          ensures Better(p, A, cands[n], cands[j])
        {
          assert cands[..n][j] == cands[j];
          assert j < k ==> Better(p, A, best, cands[j]);
          assert j > k ==> !Better(p, A, cands[j], best);
        }
        k := n;
      } else {
        forall j | 0 <= j < n
          ensures j < k ==> Better(p, A, best, cands[j])
          ensures j > k ==> !Better(p, A, cands[j], best)
        {
          assert cands[..n][j] == cands[j];
        }
      }
    }
  }

  lemma PreferredIff(p: Params, A: real, below: bool, a: Rung, b: Rung)
    requires Usable(p, A, below, a) && Usable(p, A, below, b)
    ensures Preferred(p, A, below, a, b) <==> Better(p, A, CandOf(p, below, a), CandOf(p, below, b))
  {}

  /** The candidate the scans keep is that of the chosen rung, and there is one when any can be bought. */
  lemma BestIsChosen(p: Params, A: real, below: bool, ladder: seq<Rung>) returns (k: nat)
    requires Candidates(p, A, below, ladder) != []
    ensures Chosen(p, A, below, ladder, k)
    ensures Best(p, A, Candidates(p, A, below, ladder)) == CandOf(p, below, ladder[k])
  {
    var cands := Candidates(p, A, below, ladder);
    var at := CandidatesListed(p, A, below, ladder, |ladder|);
    assert ladder[..|ladder|] == ladder;
    var b := BestAt(p, A, cands);
    k := at[b];
    assert forall i :: 0 <= i < |at| ==> CandAt(p, A, below, ladder)(at[i], cands[i]);
    forall j | 0 <= j < |ladder| && j != k && Usable(p, A, below, ladder[j])
      ensures j < k ==> Preferred(p, A, below, ladder[k], ladder[j])
      ensures j > k ==> !Preferred(p, A, below, ladder[j], ladder[k])
    {
      assert UsableAt(p, A, below, ladder)(j);
      var i :| 0 <= i < |at| && at[i] == j;
      PreferredIff(p, A, below, ladder[k], ladder[j]);
      PreferredIff(p, A, below, ladder[j], ladder[k]);
      assert i < b ==> at[i] < at[b];
      assert b < i ==> at[b] < at[i];
    }
  }

  lemma NoneUsable(p: Params, A: real, below: bool, ladder: seq<Rung>)
    ensures Candidates(p, A, below, ladder) == [] <==> forall k :: 0 <= k < |ladder| ==> !Usable(p, A, below, ladder[k])
  {
    var at := CandidatesListed(p, A, below, ladder, |ladder|);
    assert ladder[..|ladder|] == ladder;
    if at == [] {
      forall k | 0 <= k < |ladder|
        ensures !Usable(p, A, below, ladder[k])
      {
        assert k !in at;
      }
    } else {
      assert at[0] in at;
      assert Usable(p, A, below, ladder[at[0]]);
    }
  }

  /** A scan finds the chosen rung, or nothing when none can be bought. */
  ghost predicate Scanned(p: Params, A: real, below: bool, ladder: seq<Rung>, best: Option<Cand>) {
    match best
    case None => forall k :: 0 <= k < |ladder| ==> !Usable(p, A, below, ladder[k])
    case Some(c) => exists k: nat :: Chosen(p, A, below, ladder, k) && IsCandOf(below, ladder[k], c)
  }

  lemma ChosenIsScanned(p: Params, A: real, below: bool, ladder: seq<Rung>, k: nat, c: Cand)
    requires Chosen(p, A, below, ladder, k) && c == CandOf(p, below, ladder[k])
    ensures Scanned(p, A, below, ladder, Some(c))
  {
    assert IsCandOf(below, ladder[k], c);
  }

  lemma ScanIsPlain(p: Params, A: real, below: bool, ladder: seq<Rung>, best: Option<Cand>)
    requires best == if Candidates(p, A, below, ladder) == [] then None else Some(Best(p, A, Candidates(p, A, below, ladder)))
    ensures Scanned(p, A, below, ladder, best)
  {
    NoneUsable(p, A, below, ladder);
    if best.Some? {
      var k := BestIsChosen(p, A, below, ladder);
      ChosenIsScanned(p, A, below, ladder, k, best.value);
    }
  }

  lemma ChosenIsUnique(p: Params, A: real, below: bool, ladder: seq<Rung>, j: nat, k: nat)
    requires Chosen(p, A, below, ladder, j) && Chosen(p, A, below, ladder, k)
    ensures j == k
  {}

  /** The box finished from a candidate, in plain terms. */
  lemma FinishIff(p: Params, A: real, m15: Ticker, top: Top, below: bool, r: Rung, s: Selection)
    requires IsQuoted(p, top) && Usable(p, A, below, r)
    ensures var quotes := Bought(if below then No else Yes, top);
            Finish(p, A, m15, below, quotes.0, quotes.1, CandOf(p, below, r)) == Box(s) <==>
              && s.m15Ticker == m15 && s.anchorA == A
              && s.m15Side == (if below then No else Yes) && s.hourlySide == (if below then Yes else No)
              && (s.m15Ask, s.m15Bid) == quotes && p.hourlyAskMin <= s.hourlyAsk <= p.hourlyAskMax
              && s.hourlyTicker == r.ticker && s.strikeK == r.K && (s.hourlyAsk, s.hourlyBid) == Bought(s.hourlySide, r.top)
              && s.hourlyMid == (s.hourlyAsk + s.hourlyBid) / 2.0
              && IsLimit(p, s.hourlyAsk, s.hourlyLimit) && IsLimit(p, s.m15Ask, s.m15Limit)
              && s.CMid == s.hourlyMid + (s.m15Ask + s.m15Bid) / 2.0 && s.impliedPin == s.CMid - 1.0
  {}

  /** The box selected is the plain one, and there is one exactly when these quotes have one. */
  lemma SelectsIff(p: Params, A: real, m15: Ticker, top: Top, ladder: seq<Rung>, s: Selection)
    ensures SelectBox(p, A, m15, top, ladder) == Box(s) <==> Selects(p, A, m15, top, ladder, s)
  {
    if IsQuoted(p, top) {
      var below := (top.yesAsk.value + top.yesBid.value) / 2.0 < 0.5;
      NoneUsable(p, A, below, ladder);
      if Candidates(p, A, below, ladder) != [] {
        var k := BestIsChosen(p, A, below, ladder);
        FinishIff(p, A, m15, top, below, ladder[k], s);
        forall j: nat | Chosen(p, A, below, ladder, j)
          ensures j == k
        {
          ChosenIsUnique(p, A, below, ladder, j, k);
        }
      }
    }
  }

  /** The side of the hourly market that pairs with this 15-minute quote is that of strikes below the anchor. */
  predicate LooksBelow(top: Top)
    requires top.yesAsk != None && top.yesBid != None
  {
    (top.yesAsk.value + top.yesBid.value) / 2.0 < 0.5
  }

  /** Why there is no box: the first of the five reasons that applies. */
  lemma NoBoxIff(p: Params, A: real, m15: Ticker, top: Top, ladder: seq<Rung>)
    ensures var v := SelectBox(p, A, m15, top, ladder);
            && (v == NoBox(MissingQuote) <==> top.yesAsk == None || top.yesBid == None)
            && (v == NoBox(WideSpread) <==>
                  top.yesAsk != None && top.yesBid != None && top.yesAsk.value - top.yesBid.value > p.maxSpread)
            && (IsQuoted(p, top) ==>
                  var below := LooksBelow(top);
                  var ask := if below then 1.0 - top.yesBid.value else top.yesAsk.value;
                  && (v == NoBox(CheapAnchorLeg) <==> ask < p.min15Ask)
                  && (v == NoBox(NoCandidate) <==>
                        ask >= p.min15Ask && forall k :: 0 <= k < |ladder| ==> !Usable(p, A, below, ladder[k]))
                  && (v == NoBox(HourlyAskOutside) <==>
                        ask >= p.min15Ask && exists k: nat ::
                          Chosen(p, A, below, ladder, k)
                          && (var hourly := Bought(if below then Yes else No, ladder[k].top).0;
                              !(p.hourlyAskMin <= hourly <= p.hourlyAskMax))))
  {
    if IsQuoted(p, top) {
      var below := LooksBelow(top);
      NoneUsable(p, A, below, ladder);
      if Candidates(p, A, below, ladder) != [] {
        var k := BestIsChosen(p, A, below, ladder);
        forall j: nat | Chosen(p, A, below, ladder, j)
          ensures j == k
        {
          ChosenIsUnique(p, A, below, ladder, j, k);
        }
      }
    }
  }

  // ----- Independence of the ladder's order -----

  ghost predicate SameRungs(a: seq<Rung>, b: seq<Rung>) {
    forall r :: r in a <==> r in b
  }

  ghost predicate DistinctStrikes(ladder: seq<Rung>) {
    forall r, s :: r in ladder && s in ladder && r.K == s.K ==> r == s
  }

  lemma BestIsOrderFree(p: Params, A: real, below: bool, a: seq<Rung>, b: seq<Rung>)
    requires SameRungs(a, b) && DistinctStrikes(a)
    ensures var ca, cb := Candidates(p, A, below, a), Candidates(p, A, below, b);
            (ca == [] <==> cb == []) && (ca != [] ==> Best(p, A, ca) == Best(p, A, cb))
  {
    var ca, cb := Candidates(p, A, below, a), Candidates(p, A, below, b);
    forall c
      ensures c in ca <==> c in cb
    {
      CandidatesAre(p, A, below, a, c);
      CandidatesAre(p, A, below, b, c);
    }
    assert ca != [] ==> ca[0] in cb;
    assert cb != [] ==> cb[0] in ca;
    if ca != [] {
      BestIsBest(p, A, ca);
      BestIsBest(p, A, cb);
      var x, y := Best(p, A, ca), Best(p, A, cb);
      CandidatesAre(p, A, below, a, x);
      CandidatesAre(p, A, below, a, y);
      assert !Better(p, A, x, y) && !Better(p, A, y, x);
      assert Abs(x.K - A) == Abs(y.K - A);
    }
  }

  /** With distinct strikes, ladders holding the same rungs in any order select the same box. */
  lemma SelectionIsOrderFree(p: Params, A: real, m15: Ticker, top: Top, a: seq<Rung>, b: seq<Rung>)
    requires SameRungs(a, b) && DistinctStrikes(a)
    ensures SelectBox(p, A, m15, top, a) == SelectBox(p, A, m15, top, b)
  {
    BestIsOrderFree(p, A, true, a, b);
    BestIsOrderFree(p, A, false, a, b);
  }

  // ----- Mirror symmetry -----

  function MirrorTop(t: Top): Top {
    Top(if t.yesAsk.Some? then Some(1.0 - t.yesAsk.value) else None,
        if t.yesBid.Some? then Some(1.0 - t.yesBid.value) else None, t.suspect)
  }

  function MirrorRung(A: real, r: Rung): Rung {
    Rung(r.ticker, 2.0 * A - r.K, MirrorTop(r.top))
  }

  function MirrorLadder(A: real, ladder: seq<Rung>): seq<Rung> {
    seq(|ladder|, i requires 0 <= i < |ladder| => MirrorRung(A, ladder[i]))
  }

  function Opposite(s: Side): Side {
    if s.Yes? then No else Yes
  }

  function MirrorSelection(s: Selection): Selection {
    s.(hourlySide := Opposite(s.hourlySide), m15Side := Opposite(s.m15Side), strikeK := 2.0 * s.anchorA - s.strikeK)
  }

  function MirrorView(v: View): View {
    if v.Box? then Box(MirrorSelection(v.sel)) else v
  }

  function MirrorCand(A: real, c: Cand): Cand {
    c.(K := 2.0 * A - c.K)
  }

  function MirrorCands(A: real, cs: seq<Cand>): seq<Cand> {
    seq(|cs|, i requires 0 <= i < |cs| => MirrorCand(A, cs[i]))
  }

  lemma {:induction false} CandidatesMirror(p: Params, A: real, below: bool, ladder: seq<Rung>)
    ensures Candidates(p, A, !below, MirrorLadder(A, ladder)) == MirrorCands(A, Candidates(p, A, below, ladder))
  {
    if ladder == [] {
    } else {
      var rest, r := ladder[..|ladder| - 1], ladder[|ladder| - 1];
      CandidatesMirror(p, A, below, rest);
      var m := MirrorLadder(A, ladder);
      assert m[..|m| - 1] == MirrorLadder(A, rest);
      assert m[|m| - 1] == MirrorRung(A, r);
      if Qualifies(p, A, below, r) {
        assert CandOf(p, !below, MirrorRung(A, r)) == MirrorCand(A, CandOf(p, below, r));
      }
    }
  }

  lemma {:induction false} BestMirror(p: Params, A: real, cs: seq<Cand>)
    requires cs != []
    ensures Best(p, A, MirrorCands(A, cs)) == MirrorCand(A, Best(p, A, cs))
  {
    if |cs| > 1 {
      BestMirror(p, A, cs[..|cs| - 1]);
      var m := MirrorCands(A, cs);
      assert m[..|m| - 1] == MirrorCands(A, cs[..|cs| - 1]);
    }
  }

  /** The middle of the anchor market's quotes is exactly one half. */
  predicate Balanced(top: Top) {
    top.yesAsk.Some? && top.yesBid.Some? && Mid(top.yesAsk.value, top.yesBid.value) == 0.5
  }

  /** A balanced quote that passes both filters on the 15-minute market. */
  predicate TiesAtHalf(p: Params, top: Top) {
    Balanced(top) && top.yesAsk.value - top.yesBid.value <= p.maxSpread && top.yesAsk.value >= p.min15Ask
  }

  /** Reflecting the strikes about the anchor and exchanging YES and NO quotes gives the mirrored
      selection. */
  predicate Mirrors(p: Params, A: real, m15: Ticker, top: Top, ladder: seq<Rung>) {
    SelectBox(p, A, m15, MirrorTop(top), MirrorLadder(A, ladder)) == MirrorView(SelectBox(p, A, m15, top, ladder))
  }

  lemma SelectionMirrors(p: Params, A: real, m15: Ticker, top: Top, ladder: seq<Rung>)
    requires !TiesAtHalf(p, top)
    ensures Mirrors(p, A, m15, top, ladder)
  {
    if top.yesAsk.Some? && top.yesBid.Some? && !Balanced(top) {
      var below := Mid(top.yesAsk.value, top.yesBid.value) < 0.5;
      var cands := Candidates(p, A, below, ladder);
      CandidatesMirror(p, A, below, ladder);
      if cands != [] {
        BestMirror(p, A, cands);
      }
    }
  }

  /** A quote that ties at one half is its own mirror, so both sides look above the anchor: one
      rung above it breaks the symmetry, whatever the parameters. */
  lemma TieBreaksMirror(p: Params, A: real, m15: Ticker, top: Top)
    requires TiesAtHalf(p, top)
    ensures !Mirrors(p, A, m15, top, [Rung(1, A + 1.0, Top(Some(0.5), Some(0.5 + p.maxSpread), false))])
  {
    var r := Rung(1, A + 1.0, Top(Some(0.5), Some(0.5 + p.maxSpread), false));
    var ladder := [r];
    var m := MirrorLadder(A, ladder);
    assert m == [MirrorRung(A, r)];
    assert ladder[..0] == [] && m[..0] == [];
    assert Candidates(p, A, false, ladder) == [CandOf(p, false, r)];
    assert Candidates(p, A, false, m) == [];
  }

  /** The selection mirrors on every ladder if and only if the 15-minute quote does not tie at one
      half. */
  lemma MirrorIff(p: Params, A: real, m15: Ticker, top: Top)
    ensures (forall ladder :: Mirrors(p, A, m15, top, ladder)) <==> !TiesAtHalf(p, top)
  {
    if TiesAtHalf(p, top) {
      TieBreaksMirror(p, A, m15, top);
    } else {
      forall ladder
        ensures Mirrors(p, A, m15, top, ladder)
      {
        SelectionMirrors(p, A, m15, top, ladder);
      }
    }
  }

  /** No quote can tie when the ask floor is above one half by more than half the spread, as with the
      traded parameters 0.85 and 0.10: there the selection always mirrors. */
  lemma TradedParametersMirror(p: Params, A: real, m15: Ticker, top: Top, ladder: seq<Rung>)
    requires 2.0 * p.min15Ask - 1.0 > p.maxSpread
    ensures Mirrors(p, A, m15, top, ladder)
  {
    SelectionMirrors(p, A, m15, top, ladder);
  }

  // ----- The box's prices -----

  /** The order limit is the observed ask in two cases only, and it covers the ask exactly when the
      ask is not above the 0.99 ceiling (and the margin is not negative). */
  lemma LimitIff(ask: real, p: Params)
    ensures Limited(ask, p) == ask <==> (p.limitMargin == 0.0 && ask <= 0.99) || (p.limitMargin > 0.0 && ask == 0.99)
    ensures Limited(ask, p) >= ask <==> p.limitMargin >= 0.0 && ask <= 0.99
  {}

  /** Neither leg of a box is quoted with its bid above its ask. */
  predicate Uncrossed(s: Selection) {
    s.hourlyBid <= s.hourlyAsk && s.m15Bid <= s.m15Ask
  }

  /** A box passed every filter on the quotes of the sides it buys, and costs its two asks with their
      fees. Its implied pin never overstates what it must earn: unless a leg is crossed, the cost
      exceeds $1 by at least the implied pin. */
  lemma SelectionPrices(p: Params, A: real, m15: Ticker, top: Top, ladder: seq<Rung>)
    requires SelectBox(p, A, m15, top, ladder).Box?
    ensures var s := SelectBox(p, A, m15, top, ladder).sel;
            && p.min15Ask <= s.m15Ask && p.hourlyAskMin <= s.hourlyAsk <= p.hourlyAskMax
            && s.m15Ask - s.m15Bid <= p.maxSpread && s.hourlyAsk - s.hourlyBid <= p.maxSpread
            && (s.m15Side.No? <==> top.yesAsk.value + top.yesBid.value < 1.0)
            && s.m15Ask == (if s.m15Side.No? then 1.0 - top.yesBid.value else top.yesAsk.value)
            && s.hourlySide != s.m15Side
            && (s.hourlySide.Yes? ==> s.strikeK < A) && (s.hourlySide.No? ==> s.strikeK > A)
            && s.impliedPin == Mid(s.hourlyAsk, s.hourlyBid) + Mid(s.m15Ask, s.m15Bid) - 1.0
            && BoxCost(s) == s.hourlyAsk + Fee(s.hourlyAsk) + s.m15Ask + Fee(s.m15Ask)
            && (Uncrossed(s) && IsPrice(s.hourlyAsk) && IsPrice(s.m15Ask) ==> s.impliedPin <= BoxCost(s) - 1.0)
            && s.hourlyLimit == Limited(s.hourlyAsk, p) <= 0.99 && s.m15Limit == Limited(s.m15Ask, p) <= 0.99
            && (s.hourlyLimit >= s.hourlyAsk <==> p.limitMargin >= 0.0 && s.hourlyAsk <= 0.99)
            && (s.m15Limit >= s.m15Ask <==> p.limitMargin >= 0.0 && s.m15Ask <= 0.99)
  {
    var s := SelectBox(p, A, m15, top, ladder).sel;
    var below := s.hourlySide.Yes?;
    var cands := Candidates(p, A, below, ladder);
    BestIsBest(p, A, cands);
    CandidatesAre(p, A, below, ladder, Best(p, A, cands));
    if IsPrice(s.hourlyAsk) && IsPrice(s.m15Ask) {
      FeeIsBounded(s.hourlyAsk);
      FeeIsBounded(s.m15Ask);
    }
  }

  // ----- The box is a flip -----

  /** Every selected box is a flip of the corridor between its anchor and its strike: whatever
      the settlement print, it pays $2 inside the corridor and $1 outside. */
  lemma BoxIsFlip(p: Params, A: real, m15: Ticker, top: Top, ladder: seq<Rung>, px: real)
    requires SelectBox(p, A, m15, top, ladder).Box?
    ensures var s := SelectBox(p, A, m15, top, ladder).sel;
            && s.anchorA == A && s.strikeK != A && s.m15Ticker == m15
            && Pays(s.m15Side, Result15(px, A)) + Pays(s.hourlySide, Result1H(px, s.strikeK))
                 == (if InCorridor(px, A, s.strikeK) then 2 else 1)
            && FlipPayout(HighResult(px, A, s.strikeK), LowResult(px, A, s.strikeK))
                 == Settled(Pays(s.m15Side, Result15(px, A)) + Pays(s.hourlySide, Result1H(px, s.strikeK)))
  {
    var s := SelectBox(p, A, m15, top, ladder).sel;
    var below := s.hourlySide.Yes?;
    var cands := Candidates(p, A, below, ladder);
    BestIsBest(p, A, cands);
    CandidatesAre(p, A, below, ladder, Best(p, A, cands));
  }
}
