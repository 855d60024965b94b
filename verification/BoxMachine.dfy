/** The wide box decision machine (pilot/service/box.py): events in, at most one action out. The
    state caches its selection view; latches close the fire path, the stand-down and the rescan. */
module BoxMachine {
  import opened Sequences
  import opened Settlement
  import opened BoxSelection

  datatype Event = BookUpdate(market: Ticker, top: Top, now: real) | ClockTick(now: real)

  datatype Kind = Fire | WouldFire | StandDown | BoxSkip | RescanWouldFire

  datatype LegOrder = LegOrder(ticker: Ticker, side: Side, count: int, limit: real)

  /** An action about a box carries it: the cost it reports is the box's `BoxCost`. */
  datatype Action = Action(kind: Kind, legs: seq<LegOrder>, count: int, box: Option<Selection>, tMinus: real)

  datatype Strike = Strike(ticker: Ticker, K: real)

  /** What is fixed for the hour. */
  datatype Hour = Hour(T: real, anchorA: real, m15: Ticker, strikes: seq<Strike>, shakedown: bool)

  /** The latest top of each subscribed market and when it came. */
  datatype Books = Books(tops: map<Ticker, Top>, ts: map<Ticker, real>)

  datatype Latches = Latches(entered: bool, standdown: bool, skipped: bool, rescanEmitted: bool)

  datatype Picks = Picks(fired: Option<Selection>, skipped: Option<Selection>, rescan: Option<Selection>)

  datatype BoxState = BoxState(hour: Hour, books: Books, latches: Latches, picks: Picks, view: Option<View>)

  const NO_BOOKS := Books(map[], map[])
  const OPEN := Latches(false, false, false, false)

  function NewState(hour: Hour): BoxState {
    BoxState(hour, NO_BOOKS, OPEN, Picks(None, None, None), None)
  }

  predicate Subscribed(hour: Hour, market: Ticker) {
    market == hour.m15 || exists i :: 0 <= i < |hour.strikes| && hour.strikes[i].ticker == market
  }

  predicate Relevant(hour: Hour, e: Event) {
    e.ClockTick? || Subscribed(hour, e.market)
  }

  /** The part of the ladder whose books are known. */
  function KnownRungs(strikes: seq<Strike>, tops: map<Ticker, Top>): seq<Rung> {
    if strikes == [] then []
    else
      var rest, k := KnownRungs(strikes[..|strikes| - 1], tops), strikes[|strikes| - 1];
      if k.ticker in tops then rest + [Rung(k.ticker, k.K, tops[k.ticker])] else rest
  }

  function ViewOf(p: Params, hour: Hour, books: Books): Option<View> {
    if hour.m15 !in books.tops then None
    else Some(SelectBox(p, hour.anchorA, hour.m15, books.tops[hour.m15], KnownRungs(hour.strikes, books.tops)))
  }

  predicate LegFresh(p: Params, books: Books, ticker: Ticker, now: real) {
    && ticker in books.tops && !books.tops[ticker].suspect
    && ticker in books.ts && 0.0 <= now - books.ts[ticker] <= p.freshness
  }

  predicate BothFresh(p: Params, books: Books, sel: Selection, now: real) {
    LegFresh(p, books, sel.m15Ticker, now) && LegFresh(p, books, sel.hourlyTicker, now)
  }

  predicate InEntryWindow(p: Params, tMinus: real) {
    p.entryEnd <= tMinus <= p.entryStart
  }

  function Legs(p: Params, sel: Selection): seq<LegOrder> {
    [LegOrder(sel.hourlyTicker, sel.hourlySide, p.contracts, sel.hourlyLimit),
     LegOrder(sel.m15Ticker, sel.m15Side, p.contracts, sel.m15Limit)]
  }

  function PairAction(p: Params, kind: Kind, sel: Selection, tMinus: real): Action {
    Action(kind, Legs(p, sel), p.contracts, Some(sel), tMinus)
  }

  function FoldBooks(hour: Hour, books: Books, e: Event): Books {
    if e.BookUpdate? && Subscribed(hour, e.market) then
      Books(books.tops[e.market := e.top], books.ts[e.market := e.now])
    else
      books
  }

  /** The paper rescan that follows a skip. */
  function Rescan(p: Params, st: BoxState, now: real): (BoxState, seq<Action>) {
    var tMinus := st.hour.T - now;
    if !InEntryWindow(p, tMinus) then (st, [])
    else if !(st.view.Some? && st.view.value.Box?) then (st, [])
    else
      var sel := st.view.value.sel;
      if sel.impliedPin < p.minImpliedPin then (st, [])
      else if !BothFresh(p, st.books, sel, now) then (st, [])
      else
        (st.(latches := st.latches.(rescanEmitted := true), picks := st.picks.(rescan := Some(sel))),
         [PairAction(p, RescanWouldFire, sel, tMinus)])
  }

  /** The decision on folded books, with the selection read from `st.view`. */
  function Act(p: Params, st: BoxState, now: real): (BoxState, seq<Action>) {
    var tMinus := st.hour.T - now;
    if st.latches.skipped && !st.latches.rescanEmitted then Rescan(p, st, now)
    else if st.latches.entered then (st, [])
    else if tMinus < p.cutoff then
      if st.latches.standdown then (st, [])
      else (st.(latches := st.latches.(standdown := true)), [Action(StandDown, [], 0, None, tMinus)])
    else if !InEntryWindow(p, tMinus) then (st, [])
    else if !(st.view.Some? && st.view.value.Box?) then (st, [])
    else
      var sel := st.view.value.sel;
      if !BothFresh(p, st.books, sel, now) then (st, [])
      else if sel.impliedPin < p.minImpliedPin then
        (st.(latches := st.latches.(entered := true, skipped := true), picks := st.picks.(skipped := Some(sel))),
         [PairAction(p, BoxSkip, sel, tMinus)])
      else
        (st.(latches := st.latches.(entered := true), picks := st.picks.(fired := Some(sel))),
         [PairAction(p, if st.hour.shakedown then WouldFire else Fire, sel, tMinus)])
  }

  /** The books folded and the view recomputed. */
  function Folded(p: Params, st: BoxState, e: Event): BoxState {
    var books := FoldBooks(st.hour, st.books, e);
    st.(books := books, view := ViewOf(p, st.hour, books))
  }

  /** `decide_box`: the view is recomputed only when a relevant book changed. */
  function Decide(p: Params, st: BoxState, e: Event): (BoxState, seq<Action>) {
    if !Relevant(st.hour, e) then (st, [])
    else if e.BookUpdate? then Act(p, Folded(p, st, e), e.now)
    else Act(p, st, e.now)
  }

  /** The machine without a cache: it selects again at every event. */
  function DecideUncached(p: Params, st: BoxState, e: Event): (BoxState, seq<Action>) {
    if !Relevant(st.hour, e) then (st, []) else Act(p, Folded(p, st, e), e.now)
  }

  /** The state after the first `n` events. */
  function After(p: Params, hour: Hour, events: seq<Event>, n: nat): BoxState
    requires n <= |events|
  {
    if n == 0 then NewState(hour) else Decide(p, After(p, hour, events, n - 1), events[n - 1]).0
  }

  /** The actions of event `i`. */
  function ActionsAt(p: Params, hour: Hour, events: seq<Event>, i: nat): seq<Action>
    requires i < |events|
  {
    Decide(p, After(p, hour, events, i), events[i]).1
  }

  function UncachedAfter(p: Params, hour: Hour, events: seq<Event>, n: nat): BoxState
    requires n <= |events|
  {
    if n == 0 then NewState(hour) else DecideUncached(p, UncachedAfter(p, hour, events, n - 1), events[n - 1]).0
  }

  function UncachedActionsAt(p: Params, hour: Hour, events: seq<Event>, i: nat): seq<Action>
    requires i < |events|
  {
    DecideUncached(p, UncachedAfter(p, hour, events, i), events[i]).1
  }

  // ----- The cache is coherent -----

  predicate Coherent(p: Params, st: BoxState) {
    st.view == ViewOf(p, st.hour, st.books)
  }

  lemma ActKeepsBooks(p: Params, st: BoxState, now: real)
    ensures var st' := Act(p, st, now).0; st'.hour == st.hour && st'.books == st.books && st'.view == st.view
  {}

  lemma DecideIsUncached(p: Params, st: BoxState, e: Event)
    requires Coherent(p, st)
    ensures Decide(p, st, e) == DecideUncached(p, st, e)
    ensures Coherent(p, Decide(p, st, e).0)
  {
    if Relevant(st.hour, e) {
      ActKeepsBooks(p, Folded(p, st, e), e.now);
      assert e.ClockTick? ==> Folded(p, st, e) == st;
    }
  }

  lemma {:induction false} CacheStaysCoherent(p: Params, hour: Hour, events: seq<Event>, n: nat)
    requires n <= |events|
    ensures After(p, hour, events, n) == UncachedAfter(p, hour, events, n)
    ensures Coherent(p, After(p, hour, events, n))
  {
    if n == 0 {
    } else {
      CacheStaysCoherent(p, hour, events, n - 1);
      DecideIsUncached(p, After(p, hour, events, n - 1), events[n - 1]);
    }
  }

  /** On every run and at every event, the cached view equals a fresh selection and the machine
      emits what the machine that selects at every event emits. */
  lemma CacheIsTransparent(p: Params, hour: Hour, events: seq<Event>, i: nat)
    requires i < |events|
    ensures var st := After(p, hour, events, i); st.view == ViewOf(p, st.hour, st.books)
    ensures ActionsAt(p, hour, events, i) == UncachedActionsAt(p, hour, events, i)
  {
    CacheStaysCoherent(p, hour, events, i);
    DecideIsUncached(p, After(p, hour, events, i), events[i]);
  }

  // ----- What a run does, event by event, said without any state -----

  /** The books after the first `n` events, whatever was decided. */
  function BooksAfter(hour: Hour, events: seq<Event>, n: nat): Books
    requires n <= |events|
  {
    if n == 0 then NO_BOOKS else FoldBooks(hour, BooksAfter(hour, events, n - 1), events[n - 1])
  }

  /** The box a book offers at an instant: inside the entry window with both legs fresh. */
  function OfferIn(p: Params, T: real, view: Option<View>, books: Books, now: real): Option<Selection> {
    if InEntryWindow(p, T - now) && view.Some? && view.value.Box? && BothFresh(p, books, view.value.sel, now)
    then Some(view.value.sel) else None
  }

  /** The box on offer at event `i`. */
  function Offer(p: Params, hour: Hour, events: seq<Event>, i: nat): Option<Selection>
    requires i < |events|
  {
    var books := BooksAfter(hour, events, i + 1);
    if Relevant(hour, events[i]) then OfferIn(p, hour.T, ViewOf(p, hour, books), books, events[i].now) else None
  }

  predicate Late(p: Params, hour: Hour, events: seq<Event>, i: nat)
    requires i < |events|
  {
    Relevant(hour, events[i]) && hour.T - events[i].now < p.cutoff
  }

  /** An instant at which the box may be decided: on offer and before the cutoff. */
  predicate Ready(p: Params, hour: Hour, events: seq<Event>, i: nat)
    requires i < |events|
  {
    Offer(p, hour, events, i).Some? && !Late(p, hour, events, i)
  }

  predicate AboveFloor(p: Params, sel: Selection) {
    sel.impliedPin >= p.minImpliedPin
  }

  /** The hour was decided before event `n`. */
  predicate Decided(p: Params, hour: Hour, events: seq<Event>, n: nat)
    requires n <= |events|
  {
    n > 0 && (Decided(p, hour, events, n - 1) || Ready(p, hour, events, n - 1))
  }

  /** Event `i` is the first instant at which the box may be decided. */
  predicate Decides(p: Params, hour: Hour, events: seq<Event>, i: nat)
    requires i < |events|
  {
    Ready(p, hour, events, i) && !Decided(p, hour, events, i)
  }

  predicate Skips(p: Params, hour: Hour, events: seq<Event>, i: nat)
    requires i < |events|
  {
    Decides(p, hour, events, i) && !AboveFloor(p, Offer(p, hour, events, i).value)
  }

  /** The hour was decided below the floor before event `n`. */
  predicate SkippedBy(p: Params, hour: Hour, events: seq<Event>, n: nat)
    requires n <= |events|
  {
    n > 0 && (SkippedBy(p, hour, events, n - 1) || Skips(p, hour, events, n - 1))
  }

  predicate RescanReady(p: Params, hour: Hour, events: seq<Event>, i: nat)
    requires i < |events|
  {
    SkippedBy(p, hour, events, i) && Offer(p, hour, events, i).Some? && AboveFloor(p, Offer(p, hour, events, i).value)
  }

  predicate RescannedBy(p: Params, hour: Hour, events: seq<Event>, n: nat)
    requires n <= |events|
  {
    n > 0 && (RescannedBy(p, hour, events, n - 1) || RescanReady(p, hour, events, n - 1))
  }

  predicate StoodDown(p: Params, hour: Hour, events: seq<Event>, n: nat)
    requires n <= |events|
  {
    n > 0 && (StoodDown(p, hour, events, n - 1) || (Late(p, hour, events, n - 1) && !Decided(p, hour, events, n - 1)))
  }

  /** The whole behaviour of event `i`: a stand-down at the first late instant of an undecided
      hour, one decision at the first ready instant, and one paper rescan at the first offer
      above the floor after a skip. */
  function Expected(p: Params, hour: Hour, events: seq<Event>, i: nat): seq<Action>
    requires i < |events|
  {
    var tMinus, offer := hour.T - events[i].now, Offer(p, hour, events, i);
    if RescanReady(p, hour, events, i) && !RescannedBy(p, hour, events, i) then
      [PairAction(p, RescanWouldFire, offer.value, tMinus)]
    else if Late(p, hour, events, i) && !Decided(p, hour, events, i) && !StoodDown(p, hour, events, i) then
      [Action(StandDown, [], 0, None, tMinus)]
    else if Skips(p, hour, events, i) then
      [PairAction(p, BoxSkip, offer.value, tMinus)]
    else if Decides(p, hour, events, i) then
      [PairAction(p, if hour.shakedown then WouldFire else Fire, offer.value, tMinus)]
    else
      []
  }

  // ----- The machine does what history asks -----

  /** `Act` seen through its latches, with its guards gathered into the offer. */
  function ActOn(p: Params, l: Latches, shakedown: bool, offer: Option<Selection>, tMinus: real): (Latches, seq<Action>) {
    if l.skipped && !l.rescanEmitted then
      if offer.Some? && AboveFloor(p, offer.value) then
        (l.(rescanEmitted := true), [PairAction(p, RescanWouldFire, offer.value, tMinus)])
      else (l, [])
    else if l.entered then (l, [])
    else if tMinus < p.cutoff then
      if l.standdown then (l, []) else (l.(standdown := true), [Action(StandDown, [], 0, None, tMinus)])
    else if offer.None? then (l, [])
    else if AboveFloor(p, offer.value) then
      (l.(entered := true), [PairAction(p, if shakedown then WouldFire else Fire, offer.value, tMinus)])
    else
      (l.(entered := true, skipped := true), [PairAction(p, BoxSkip, offer.value, tMinus)])
  }

  lemma ActIsActOn(p: Params, st: BoxState, now: real)
    ensures var offer := OfferIn(p, st.hour.T, st.view, st.books, now);
            var (st', actions) := Act(p, st, now);
            (st'.latches, actions) == ActOn(p, st.latches, st.hour.shakedown, offer, st.hour.T - now)
  {}

  /** The latches that the history of a run calls for. */
  function LatchesAfter(p: Params, hour: Hour, events: seq<Event>, n: nat): Latches
    requires n <= |events|
  {
    Latches(Decided(p, hour, events, n), StoodDown(p, hour, events, n),
            SkippedBy(p, hour, events, n), RescannedBy(p, hour, events, n))
  }

  lemma {:induction false} SkippedIsDecided(p: Params, hour: Hour, events: seq<Event>, n: nat)
    requires n <= |events|
    ensures SkippedBy(p, hour, events, n) ==> Decided(p, hour, events, n)
  {
    if n == 0 {
    } else {
      SkippedIsDecided(p, hour, events, n - 1);
    }
  }

  lemma LatchStep(p: Params, hour: Hour, events: seq<Event>, i: nat)
    requires i < |events| && Relevant(hour, events[i])
    ensures ActOn(p, LatchesAfter(p, hour, events, i), hour.shakedown, Offer(p, hour, events, i), hour.T - events[i].now)
              == (LatchesAfter(p, hour, events, i + 1), Expected(p, hour, events, i))
  {
    SkippedIsDecided(p, hour, events, i);
  }

  /** The selections a run records: the one fired, the one skipped, the one rescanned. */
  function PicksAfter(p: Params, hour: Hour, events: seq<Event>, n: nat): Picks
    requires n <= |events|
  {
    if n == 0 then Picks(None, None, None)
    else
      var before, offer := PicksAfter(p, hour, events, n - 1), Offer(p, hour, events, n - 1);
      if RescanReady(p, hour, events, n - 1) && !RescannedBy(p, hour, events, n - 1) then before.(rescan := offer)
      else if Skips(p, hour, events, n - 1) then before.(skipped := offer)
      else if Decides(p, hour, events, n - 1) then before.(fired := offer)
      else before
  }

  /** Which selection an action records. */
  function Recorded(picks: Picks, offer: Option<Selection>, actions: seq<Action>): Picks {
    if actions == [] then picks
    else
      match actions[0].kind
      case Fire => picks.(fired := offer)
      case WouldFire => picks.(fired := offer)
      case BoxSkip => picks.(skipped := offer)
      case RescanWouldFire => picks.(rescan := offer)
      case StandDown => picks
  }

  lemma ActRecords(p: Params, st: BoxState, now: real)
    ensures var offer := OfferIn(p, st.hour.T, st.view, st.books, now);
            Act(p, st, now).0.picks == Recorded(st.picks, offer, Act(p, st, now).1)
  {}

  lemma PicksStep(p: Params, hour: Hour, events: seq<Event>, i: nat)
    requires i < |events|
    ensures PicksAfter(p, hour, events, i + 1) ==
              Recorded(PicksAfter(p, hour, events, i), Offer(p, hour, events, i), Expected(p, hour, events, i))
  {
    SkippedIsDecided(p, hour, events, i);
  }

  /** The state after `n` events holds the folded books, a fresh view, the called-for latches
      and the recorded selections. */
  ghost predicate Agrees(p: Params, hour: Hour, events: seq<Event>, n: nat, st: BoxState)
    requires n <= |events|
  {
    && st.hour == hour && st.books == BooksAfter(hour, events, n) && Coherent(p, st)
    && st.latches == LatchesAfter(p, hour, events, n) && st.picks == PicksAfter(p, hour, events, n)
  }

  lemma StepAgrees(p: Params, hour: Hour, events: seq<Event>, i: nat, st: BoxState)
    requires i < |events| && Agrees(p, hour, events, i, st)
    ensures Decide(p, st, events[i]).1 == Expected(p, hour, events, i)
    ensures Agrees(p, hour, events, i + 1, Decide(p, st, events[i]).0)
  {
    var e := events[i];
    DecideIsUncached(p, st, e);
    if Relevant(hour, e) {
      var folded := Folded(p, st, e);
      ActIsActOn(p, folded, e.now);
      ActKeepsBooks(p, folded, e.now);
      ActRecords(p, folded, e.now);
      LatchStep(p, hour, events, i);
    }
    PicksStep(p, hour, events, i);
  }

  lemma {:induction false} RunAgrees(p: Params, hour: Hour, events: seq<Event>, n: nat)
    requires n <= |events|
    ensures Agrees(p, hour, events, n, After(p, hour, events, n))
  {
    if n == 0 {
    } else {
      RunAgrees(p, hour, events, n - 1);
      StepAgrees(p, hour, events, n - 1, After(p, hour, events, n - 1));
    }
  }

  /** On every run and at every event, the machine does exactly what history asks. */
  lemma RunDoesExpected(p: Params, hour: Hour, events: seq<Event>, i: nat)
    requires i < |events|
    ensures ActionsAt(p, hour, events, i) == Expected(p, hour, events, i)
  {
    RunAgrees(p, hour, events, i);
    StepAgrees(p, hour, events, i, After(p, hour, events, i));
  }

  // ----- The machine in plain terms -----

  /** Event `j` is the last update of the market up to event `i`. */
  ghost predicate LastUpdate(events: seq<Event>, i: nat, market: Ticker, j: nat) {
    && j <= i < |events| && events[j].BookUpdate? && events[j].market == market
    && forall x :: j < x <= i && events[x].BookUpdate? ==> events[x].market != market
  }

  /** The market's last update is not suspect and no older than the freshness bound. */
  ghost predicate FreshAt(p: Params, events: seq<Event>, i: nat, market: Ticker) {
    exists j: nat :: LastUpdate(events, i, market, j)
      && !events[j].top.suspect && 0.0 <= events[i].now - events[j].now <= p.freshness
  }

  ghost predicate Updated(events: seq<Event>, i: nat, market: Ticker) {
    exists j: nat :: LastUpdate(events, i, market, j)
  }

  ghost predicate TopAt(events: seq<Event>, i: nat, market: Ticker, top: Top) {
    exists j: nat :: LastUpdate(events, i, market, j) && events[j].top == top
  }

  ghost function SeenAt(hour: Hour, events: seq<Event>, i: nat): nat -> bool {
    (k: nat) => k < |hour.strikes| && Updated(events, i, hour.strikes[k].ticker)
  }

  ghost function RungAt(hour: Hour, events: seq<Event>, i: nat): (nat, Rung) -> bool {
    (k: nat, r: Rung) => k < |hour.strikes| && r.ticker == hour.strikes[k].ticker && r.K == hour.strikes[k].K
                         && TopAt(events, i, r.ticker, r.top)
  }

  /** The ladder at event `i`: the strikes that had an update, each with its last top. */
  ghost predicate LadderAt(hour: Hour, events: seq<Event>, i: nat, ladder: seq<Rung>) {
    exists at :: Lists(|hour.strikes|, SeenAt(hour, events, i), RungAt(hour, events, i), at, ladder)
  }

  /** The event is a tick, or an update of the 15-minute market or of a strike. */
  ghost predicate Heard(hour: Hour, e: Event) {
    e.ClockTick? || e.market == hour.m15 || exists k :: 0 <= k < |hour.strikes| && hour.strikes[k].ticker == e.market
  }

  /** At event `i`, inside the entry window, the books select this box and both its books are fresh. */
  ghost predicate Offered(p: Params, hour: Hour, events: seq<Event>, i: nat, s: Selection) {
    && i < |events| && Heard(hour, events[i]) && p.entryEnd <= hour.T - events[i].now <= p.entryStart
    && FreshAt(p, events, i, s.m15Ticker) && FreshAt(p, events, i, s.hourlyTicker)
    && exists top, ladder ::
         TopAt(events, i, hour.m15, top) && LadderAt(hour, events, i, ladder)
         && Selects(p, hour.anchorA, hour.m15, top, ladder, s)
  }

  /** A box is on offer at event `i`, no later than the cutoff. */
  ghost predicate CanDecide(p: Params, hour: Hour, events: seq<Event>, i: nat) {
    i < |events| && hour.T - events[i].now >= p.cutoff && exists s :: Offered(p, hour, events, i, s)
  }

  ghost predicate FirstDecision(p: Params, hour: Hour, events: seq<Event>, i: nat) {
    CanDecide(p, hour, events, i) && forall j :: 0 <= j < i ==> !CanDecide(p, hour, events, j)
  }

  /** The hour was decided at event `i` on a box below the floor. */
  ghost predicate SkipsAt(p: Params, hour: Hour, events: seq<Event>, i: nat) {
    FirstDecision(p, hour, events, i) && exists s :: Offered(p, hour, events, i, s) && s.impliedPin < p.minImpliedPin
  }

  /** After a skip, a box at or above the floor is on offer. */
  ghost predicate CanRescan(p: Params, hour: Hour, events: seq<Event>, i: nat) {
    && (exists s :: Offered(p, hour, events, i, s) && s.impliedPin >= p.minImpliedPin)
    && exists j :: 0 <= j < i && SkipsAt(p, hour, events, j)
  }

  ghost predicate TooLateAt(p: Params, hour: Hour, events: seq<Event>, i: nat) {
    i < |events| && Heard(hour, events[i]) && hour.T - events[i].now < p.cutoff
  }

  ghost predicate FirstRescan(p: Params, hour: Hour, events: seq<Event>, i: nat) {
    CanRescan(p, hour, events, i) && forall j :: 0 <= j < i ==> !CanRescan(p, hour, events, j)
  }

  /** The first event past the cutoff, of an hour not decided before. */
  ghost predicate StandsDown(p: Params, hour: Hour, events: seq<Event>, i: nat) {
    && TooLateAt(p, hour, events, i)
    && forall j :: 0 <= j < i ==> !CanDecide(p, hour, events, j) && !TooLateAt(p, hour, events, j)
  }

  /** The action is about this box: its two legs at their limits. */
  ghost predicate IsAbout(p: Params, a: Action, kind: Kind, s: Selection, tMinus: real) {
    && a.kind == kind && a.count == p.contracts && a.box == Some(s) && a.tMinus == tMinus
    && a.legs == [LegOrder(s.hourlyTicker, s.hourlySide, p.contracts, s.hourlyLimit),
                  LegOrder(s.m15Ticker, s.m15Side, p.contracts, s.m15Limit)]
  }

  /** What an event does, told which of three things it is the first instant of. */
  ghost predicate ActsAs(p: Params, hour: Hour, events: seq<Event>, i: nat, actions: seq<Action>,
                         rescans: bool, decides: bool, standsDown: bool)
    requires i < |events|
  {
    var tMinus := hour.T - events[i].now;
    if rescans then
      |actions| == 1 && exists s :: Offered(p, hour, events, i, s) && IsAbout(p, actions[0], RescanWouldFire, s, tMinus)
    else if decides then
      && |actions| == 1
      && exists s ::
           && Offered(p, hour, events, i, s)
           && IsAbout(p, actions[0],
                      if s.impliedPin < p.minImpliedPin then BoxSkip else if hour.shakedown then WouldFire else Fire,
                      s, tMinus)
    else if standsDown then
      actions == [Action(StandDown, [], 0, None, tMinus)]
    else
      actions == []
  }

  /** The first event with a box after a skip rescans it on paper; the first one before the cutoff
      decides the hour; the first one after the cutoff of an undecided hour stands down. */
  ghost predicate ActsPlainly(p: Params, hour: Hour, events: seq<Event>, i: nat, actions: seq<Action>)
    requires i < |events|
  {
    ActsAs(p, hour, events, i, actions, FirstRescan(p, hour, events, i), FirstDecision(p, hour, events, i),
           StandsDown(p, hour, events, i))
  }

  /** The folded books hold the last update of every subscribed market. */
  ghost predicate HoldsLatest(hour: Hour, events: seq<Event>, i: nat, books: Books, market: Ticker) {
    && (market in books.tops <==> Updated(events, i, market))
    && (market in books.tops <==> market in books.ts)
    && (forall j: nat :: LastUpdate(events, i, market, j) ==>
          market in books.tops && books.tops[market] == events[j].top && books.ts[market] == events[j].now)
  }

  lemma UpdateIsLast(events: seq<Event>, i: nat, market: Ticker)
    requires i < |events| && events[i].BookUpdate? && events[i].market == market
    ensures forall j: nat :: LastUpdate(events, i, market, j) <==> j == i
    ensures Updated(events, i, market)
  {
    assert LastUpdate(events, i, market, i);
  }

  lemma OtherKeepsLast(events: seq<Event>, i: nat, market: Ticker)
    requires i < |events| && !(events[i].BookUpdate? && events[i].market == market)
    ensures forall j: nat :: LastUpdate(events, i, market, j) <==> i > 0 && LastUpdate(events, i - 1, market, j)
    ensures Updated(events, i, market) <==> i > 0 && Updated(events, i - 1, market)
  {
    if i > 0 && Updated(events, i - 1, market) {
      var j: nat :| LastUpdate(events, i - 1, market, j);
      assert LastUpdate(events, i, market, j);
    }
  }

  lemma {:induction false} BooksAreLatest(hour: Hour, events: seq<Event>, i: nat, market: Ticker)
    requires i < |events| && Subscribed(hour, market)
    ensures HoldsLatest(hour, events, i, BooksAfter(hour, events, i + 1), market)
  {
    var e := events[i];
    if e.BookUpdate? && e.market == market {
      UpdateIsLast(events, i, market);
    } else {
      OtherKeepsLast(events, i, market);
      if i == 0 {
        assert BooksAfter(hour, events, 0) == NO_BOOKS;
      } else {
        BooksAreLatest(hour, events, i - 1, market);
      }
    }
  }

  lemma TopIsLatest(hour: Hour, events: seq<Event>, i: nat, books: Books, market: Ticker)
    requires i < |events| && HoldsLatest(hour, events, i, books, market)
    ensures forall top :: TopAt(events, i, market, top) <==> market in books.tops && books.tops[market] == top
    ensures forall p: Params :: FreshAt(p, events, i, market) <==> LegFresh(p, books, market, events[i].now)
  {
    if market in books.tops {
      var j: nat :| LastUpdate(events, i, market, j);
    }
  }

  lemma StrikeIsSubscribed(hour: Hour, k: nat)
    requires k < |hour.strikes|
    ensures Subscribed(hour, hour.strikes[k].ticker) && Subscribed(hour, hour.m15)
  {}

  lemma KnownIsSeen(hour: Hour, events: seq<Event>, i: nat, k: nat, tops: map<Ticker, Top>)
    requires i < |events| && k < |hour.strikes| && tops == BooksAfter(hour, events, i + 1).tops
    ensures hour.strikes[k].ticker in tops <==> SeenAt(hour, events, i)(k)
    ensures hour.strikes[k].ticker in tops ==>
              RungAt(hour, events, i)(k, Rung(hour.strikes[k].ticker, hour.strikes[k].K, tops[hour.strikes[k].ticker]))
  {
    StrikeIsSubscribed(hour, k);
    BooksAreLatest(hour, events, i, hour.strikes[k].ticker);
    TopIsLatest(hour, events, i, BooksAfter(hour, events, i + 1), hour.strikes[k].ticker);
  }

  lemma {:induction false} KnownRungsListed(hour: Hour, events: seq<Event>, i: nat, n: nat, tops: map<Ticker, Top>)
    returns (at: seq<nat>)
    requires i < |events| && n <= |hour.strikes| && tops == BooksAfter(hour, events, i + 1).tops
    ensures Lists(n, SeenAt(hour, events, i), RungAt(hour, events, i), at, KnownRungs(hour.strikes[..n], tops))
  {
    if n == 0 {
      at := [];
    } else {
      at := KnownRungsListed(hour, events, i, n - 1, tops);
      KnownIsSeen(hour, events, i, n - 1, tops);
      var before, k := KnownRungs(hour.strikes[..n - 1], tops), hour.strikes[n - 1];
      assert hour.strikes[..n][..n - 1] == hour.strikes[..n - 1];
      if k.ticker in tops {
        ListsMore(n - 1, SeenAt(hour, events, i), RungAt(hour, events, i), at, before, Rung(k.ticker, k.K, tops[k.ticker]));
        at := at + [n - 1];
      } else {
        ListsSame(n - 1, SeenAt(hour, events, i), RungAt(hour, events, i), at, before);
      }
    }
  }

  lemma LadderIsKnown(hour: Hour, events: seq<Event>, i: nat, ladder: seq<Rung>)
    requires i < |events|
    ensures LadderAt(hour, events, i, ladder) <==> ladder == KnownRungs(hour.strikes, BooksAfter(hour, events, i + 1).tops)
  {
    var tops := BooksAfter(hour, events, i + 1).tops;
    var known := KnownRungs(hour.strikes, tops);
    var at := KnownRungsListed(hour, events, i, |hour.strikes|, tops);
    assert hour.strikes[..|hour.strikes|] == hour.strikes;
    if LadderAt(hour, events, i, ladder) {
      var at' :| Lists(|hour.strikes|, SeenAt(hour, events, i), RungAt(hour, events, i), at', ladder);
      forall k: nat, x: Rung, y: Rung | RungAt(hour, events, i)(k, x) && RungAt(hour, events, i)(k, y)
        ensures x == y
      {
        StrikeIsSubscribed(hour, k);
        BooksAreLatest(hour, events, i, x.ticker);
        TopIsLatest(hour, events, i, BooksAfter(hour, events, i + 1), x.ticker);
      }
      ListsUnique(|hour.strikes|, SeenAt(hour, events, i), RungAt(hour, events, i), at, known, at', ladder);
    }
  }

  /** The books select a box exactly when the last tops of the strikes do. */
  lemma ViewIff(p: Params, hour: Hour, events: seq<Event>, i: nat, s: Selection)
    requires i < |events|
    ensures ViewOf(p, hour, BooksAfter(hour, events, i + 1)) == Some(Box(s)) <==>
              exists top, ladder ::
                TopAt(events, i, hour.m15, top) && LadderAt(hour, events, i, ladder)
                && Selects(p, hour.anchorA, hour.m15, top, ladder, s)
  {
    var books := BooksAfter(hour, events, i + 1);
    var known := KnownRungs(hour.strikes, books.tops);
    BooksAreLatest(hour, events, i, hour.m15);
    TopIsLatest(hour, events, i, books, hour.m15);
    LadderIsKnown(hour, events, i, known);
    if hour.m15 in books.tops {
      SelectsIff(p, hour.anchorA, hour.m15, books.tops[hour.m15], known, s);
    }
    if top, ladder :| TopAt(events, i, hour.m15, top) && LadderAt(hour, events, i, ladder)
                      && Selects(p, hour.anchorA, hour.m15, top, ladder, s) {
      LadderIsKnown(hour, events, i, ladder);
    }
  }

  /** A box's two markets are subscribed. */
  lemma LegsAreSubscribed(p: Params, hour: Hour, books: Books, s: Selection)
    requires ViewOf(p, hour, books) == Some(Box(s))
    ensures s.m15Ticker == hour.m15 && Subscribed(hour, s.m15Ticker) && Subscribed(hour, s.hourlyTicker)
  {
    var ladder := KnownRungs(hour.strikes, books.tops);
    SelectionIsOptimal(p, hour.anchorA, hour.m15, books.tops[hour.m15], ladder);
    var r :| r in ladder && r.ticker == s.hourlyTicker;
    var k := KnownRungIsStrike(hour.strikes, books.tops, r);
    StrikeIsSubscribed(hour, k);
  }

  /** The box on offer is the one offered in plain terms. */
  lemma OfferIff(p: Params, hour: Hour, events: seq<Event>, i: nat, s: Selection)
    requires i < |events|
    ensures Offer(p, hour, events, i) == Some(s) <==> Offered(p, hour, events, i, s)
  {
    var books := BooksAfter(hour, events, i + 1);
    ViewIff(p, hour, events, i, s);
    if ViewOf(p, hour, books) == Some(Box(s)) {
      LegsAreSubscribed(p, hour, books, s);
      BooksAreLatest(hour, events, i, s.m15Ticker);
      BooksAreLatest(hour, events, i, s.hourlyTicker);
      TopIsLatest(hour, events, i, books, s.m15Ticker);
      TopIsLatest(hour, events, i, books, s.hourlyTicker);
    }
  }

  lemma ReadyIff(p: Params, hour: Hour, events: seq<Event>, i: nat)
    requires i < |events|
    ensures Ready(p, hour, events, i) <==> CanDecide(p, hour, events, i)
    ensures Late(p, hour, events, i) <==> TooLateAt(p, hour, events, i)
    ensures forall s :: Offered(p, hour, events, i, s) <==> Offer(p, hour, events, i) == Some(s)
  {
    forall s: Selection
      ensures Offered(p, hour, events, i, s) <==> Offer(p, hour, events, i) == Some(s)
    {
      OfferIff(p, hour, events, i, s);
    }
    if Offer(p, hour, events, i).Some? {
      assert Offered(p, hour, events, i, Offer(p, hour, events, i).value);
    }
  }

  lemma DecidesIff(p: Params, hour: Hour, events: seq<Event>, i: nat)
    requires i < |events|
    ensures Decides(p, hour, events, i) <==> FirstDecision(p, hour, events, i)
    ensures Decided(p, hour, events, i) <==> exists j :: 0 <= j < i && CanDecide(p, hour, events, j)
    ensures Skips(p, hour, events, i) <==> SkipsAt(p, hour, events, i)
  {
    DecidedIff(p, hour, events, i);
    forall j | 0 <= j <= i
      ensures Ready(p, hour, events, j) <==> CanDecide(p, hour, events, j)
    {
      ReadyIff(p, hour, events, j);
    }
    ReadyIff(p, hour, events, i);
  }

  /** A flag raised by the events where something holds is up exactly when it held before. */
  lemma {:induction false} RaisedIff(up: nat -> bool, raises: nat -> bool, n: nat)
    requires !up(0) && forall k: nat :: k < n ==> (up(k + 1) <==> up(k) || raises(k))
    ensures up(n) <==> exists j :: 0 <= j < n && raises(j)
  {
    if n == 0 {
    } else {
      RaisedIff(up, raises, n - 1);
      assert up((n - 1) + 1) <==> up(n - 1) || raises(n - 1);
    }
  }

  lemma SkippedIff(p: Params, hour: Hour, events: seq<Event>, n: nat)
    requires n <= |events|
    ensures SkippedBy(p, hour, events, n) <==> exists j :: 0 <= j < n && SkipsAt(p, hour, events, j)
  {
    var up := (k: nat) => k <= |events| && SkippedBy(p, hour, events, k);
    var raises := (k: nat) => k < |events| && Skips(p, hour, events, k);
    RaisedIff(up, raises, n);
    forall k | 0 <= k < n
      ensures raises(k) <==> SkipsAt(p, hour, events, k)
    {
      DecidesIff(p, hour, events, k);
    }
  }

  lemma RescanReadyIff(p: Params, hour: Hour, events: seq<Event>, i: nat)
    requires i < |events|
    ensures RescanReady(p, hour, events, i) <==> CanRescan(p, hour, events, i)
  {
    SkippedIff(p, hour, events, i);
    ReadyIff(p, hour, events, i);
  }

  lemma RescannedIff(p: Params, hour: Hour, events: seq<Event>, n: nat)
    requires n <= |events|
    ensures RescannedBy(p, hour, events, n) <==> exists j :: 0 <= j < n && CanRescan(p, hour, events, j)
  {
    var up := (k: nat) => k <= |events| && RescannedBy(p, hour, events, k);
    var raises := (k: nat) => k < |events| && RescanReady(p, hour, events, k);
    RaisedIff(up, raises, n);
    forall k | 0 <= k < n
      ensures raises(k) <==> CanRescan(p, hour, events, k)
    {
      RescanReadyIff(p, hour, events, k);
    }
  }

  /** An hour undecided so far has stood down exactly when some event was past the cutoff. */
  lemma {:induction false} StoodDownIff(p: Params, hour: Hour, events: seq<Event>, n: nat)
    requires n <= |events| && !Decided(p, hour, events, n)
    ensures StoodDown(p, hour, events, n) <==> exists j :: 0 <= j < n && TooLateAt(p, hour, events, j)
  {
    if n == 0 {
    } else {
      StoodDownIff(p, hour, events, n - 1);
      ReadyIff(p, hour, events, n - 1);
    }
  }

  lemma FirstRescanIff(p: Params, hour: Hour, events: seq<Event>, i: nat)
    requires i < |events|
    ensures FirstRescan(p, hour, events, i) <==> RescanReady(p, hour, events, i) && !RescannedBy(p, hour, events, i)
  {
    RescanReadyIff(p, hour, events, i);
    RescannedIff(p, hour, events, i);
  }

  lemma StandsDownIff(p: Params, hour: Hour, events: seq<Event>, i: nat)
    requires i < |events|
    ensures StandsDown(p, hour, events, i) <==>
              Late(p, hour, events, i) && !Decided(p, hour, events, i) && !StoodDown(p, hour, events, i)
  {
    ReadyIff(p, hour, events, i);
    DecidesIff(p, hour, events, i);
    if !Decided(p, hour, events, i) {
      StoodDownIff(p, hour, events, i);
    }
  }

  lemma PairIsAbout(p: Params, kind: Kind, s: Selection, tMinus: real)
    ensures IsAbout(p, PairAction(p, kind, s, tMinus), kind, s, tMinus)
  {}

  /** On every run and at every event, the machine acts as the plain history of the events asks. */
  lemma RunActsPlainly(p: Params, hour: Hour, events: seq<Event>, i: nat)
    requires i < |events|
    ensures ActsPlainly(p, hour, events, i, ActionsAt(p, hour, events, i))
  {
    RunDoesExpected(p, hour, events, i);
    FirstRescanIff(p, hour, events, i);
    StandsDownIff(p, hour, events, i);
    DecidesIff(p, hour, events, i);
    ExpectedIsPlain(p, hour, events, i);
  }

  lemma ExpectedIsPlain(p: Params, hour: Hour, events: seq<Event>, i: nat)
    requires i < |events|
    ensures ActsAs(p, hour, events, i, Expected(p, hour, events, i),
                   RescanReady(p, hour, events, i) && !RescannedBy(p, hour, events, i), Decides(p, hour, events, i),
                   Late(p, hour, events, i) && !Decided(p, hour, events, i) && !StoodDown(p, hour, events, i))
  {
    var offer, tMinus := Offer(p, hour, events, i), hour.T - events[i].now;
    if offer.Some? {
      var s := offer.value;
      OfferIff(p, hour, events, i, s);
      PairIsAbout(p, RescanWouldFire, s, tMinus);
      PairIsAbout(p, if s.impliedPin < p.minImpliedPin then BoxSkip else if hour.shakedown then WouldFire else Fire, s, tMinus);
    }
  }

  // ----- Safety over whole runs -----

  predicate Emits(p: Params, hour: Hour, events: seq<Event>, i: nat, kind: Kind)
    requires i < |events|
  {
    ActionsAt(p, hour, events, i) != [] && ActionsAt(p, hour, events, i)[0].kind == kind
  }

  /** The event decides the hour: a fire, a paper fire or a skip. */
  predicate EmitsDecision(p: Params, hour: Hour, events: seq<Event>, i: nat)
    requires i < |events|
  {
    Emits(p, hour, events, i, Fire) || Emits(p, hour, events, i, WouldFire) || Emits(p, hour, events, i, BoxSkip)
  }

  lemma {:induction false} DecidedIff(p: Params, hour: Hour, events: seq<Event>, n: nat)
    requires n <= |events|
    ensures Decided(p, hour, events, n) <==> exists i :: 0 <= i < n && Ready(p, hour, events, i)
  {
    if n == 0 {
    } else {
      DecidedIff(p, hour, events, n - 1);
    }
  }

  /** History only grows. */
  lemma {:induction false} HistoryGrows(p: Params, hour: Hour, events: seq<Event>, m: nat, n: nat)
    requires m <= n <= |events|
    ensures Decided(p, hour, events, m) ==> Decided(p, hour, events, n)
    ensures StoodDown(p, hour, events, m) ==> StoodDown(p, hour, events, n)
    ensures RescannedBy(p, hour, events, m) ==> RescannedBy(p, hour, events, n)
  {
    if m < n {
      HistoryGrows(p, hour, events, m, n - 1);
    }
  }

  lemma {:induction false} SkippedHas(p: Params, hour: Hour, events: seq<Event>, n: nat) returns (i: nat)
    requires n <= |events| && SkippedBy(p, hour, events, n)
    ensures i < n && Skips(p, hour, events, i)
  {
    if Skips(p, hour, events, n - 1) {
      i := n - 1;
    } else {
      i := SkippedHas(p, hour, events, n - 1);
    }
  }

  /** What each emission says about the history. */
  lemma EmissionMeans(p: Params, hour: Hour, events: seq<Event>, i: nat)
    requires i < |events|
    ensures |ActionsAt(p, hour, events, i)| <= 1
    ensures EmitsDecision(p, hour, events, i) <==> Decides(p, hour, events, i)
    ensures Emits(p, hour, events, i, StandDown) <==>
              Late(p, hour, events, i) && !Decided(p, hour, events, i) && !StoodDown(p, hour, events, i)
    ensures Emits(p, hour, events, i, RescanWouldFire) <==>
              RescanReady(p, hour, events, i) && !RescannedBy(p, hour, events, i)
  {
    RunDoesExpected(p, hour, events, i);
    SkippedIsDecided(p, hour, events, i);
  }

  /** What event `i` leaves behind for every later event. */
  lemma EmissionLatches(p: Params, hour: Hour, events: seq<Event>, i: nat, j: nat)
    requires i < j < |events|
    ensures Decides(p, hour, events, i) ==> Decided(p, hour, events, j)
    ensures Late(p, hour, events, i) && !Decided(p, hour, events, i) ==> StoodDown(p, hour, events, j)
    ensures RescanReady(p, hour, events, i) ==> RescannedBy(p, hour, events, j)
  {
    HistoryGrows(p, hour, events, i + 1, j);
  }

  /** The hour is decided at the first ready instant and nowhere else: fired when the implied pin
      is at or above the floor (on paper in shakedown), skipped when it is below. */
  lemma DecisionAtFirstReady(p: Params, hour: Hour, events: seq<Event>, i: nat)
    requires i < |events|
    ensures EmitsDecision(p, hour, events, i) <==>
              Ready(p, hour, events, i) && forall j :: 0 <= j < i ==> !Ready(p, hour, events, j)
    ensures EmitsDecision(p, hour, events, i) ==>
              var sel := Offer(p, hour, events, i).value;
              && (Emits(p, hour, events, i, BoxSkip) <==> sel.impliedPin < p.minImpliedPin)
              && (Emits(p, hour, events, i, WouldFire) <==> hour.shakedown && sel.impliedPin >= p.minImpliedPin)
              && (Emits(p, hour, events, i, Fire) <==> !hour.shakedown && sel.impliedPin >= p.minImpliedPin)
              && ActionsAt(p, hour, events, i)[0].legs == Legs(p, sel) && ActionsAt(p, hour, events, i)[0].box == Some(sel)
  {
    RunDoesExpected(p, hour, events, i);
    DecidedIff(p, hour, events, i);
    SkippedIsDecided(p, hour, events, i);
  }

  /** No event emits two actions; after a decision there is neither another decision nor a
      stand-down; stand-down and rescan are emitted at most once each. */
  lemma OneShot(p: Params, hour: Hour, events: seq<Event>, i: nat, j: nat)
    requires i < j < |events|
    ensures |ActionsAt(p, hour, events, i)| <= 1
    ensures EmitsDecision(p, hour, events, i) ==>
              !EmitsDecision(p, hour, events, j) && !Emits(p, hour, events, j, StandDown)
    ensures Emits(p, hour, events, i, StandDown) ==> !Emits(p, hour, events, j, StandDown)
    ensures Emits(p, hour, events, i, RescanWouldFire) ==> !Emits(p, hour, events, j, RescanWouldFire)
  {
    EmissionMeans(p, hour, events, i);
    EmissionMeans(p, hour, events, j);
    EmissionLatches(p, hour, events, i, j);
  }

  /** Some event before `n` emitted an action of this kind about this box. */
  ghost predicate EmittedBox(p: Params, hour: Hour, events: seq<Event>, n: nat, kind: Kind, s: Selection)
    requires n <= |events|
  {
    exists j :: 0 <= j < n && Emits(p, hour, events, j, kind) && ActionsAt(p, hour, events, j)[0].box == Some(s)
  }

  lemma PicksRecord(p: Params, hour: Hour, events: seq<Event>, i: nat)
    requires i < |events|
    ensures var actions := ActionsAt(p, hour, events, i);
            && After(p, hour, events, i + 1).picks ==
                 Recorded(After(p, hour, events, i).picks, if actions == [] then None else actions[0].box, actions)
            && (actions != [] && actions[0].kind != StandDown ==> actions[0].box.Some?)
  {
    RunAgrees(p, hour, events, i);
    RunAgrees(p, hour, events, i + 1);
    RunDoesExpected(p, hour, events, i);
    PicksStep(p, hour, events, i);
  }

  lemma EmittedStep(p: Params, hour: Hour, events: seq<Event>, i: nat, kind: Kind, s: Selection)
    requires i < |events|
    ensures EmittedBox(p, hour, events, i + 1, kind, s) <==>
              EmittedBox(p, hour, events, i, kind, s)
              || (Emits(p, hour, events, i, kind) && ActionsAt(p, hour, events, i)[0].box == Some(s))
  {}

  lemma DecisionsAreOnce(p: Params, hour: Hour, events: seq<Event>, i: nat, s: Selection)
    requires i < |events|
    ensures EmitsDecision(p, hour, events, i) ==>
              !EmittedBox(p, hour, events, i, Fire, s) && !EmittedBox(p, hour, events, i, WouldFire, s)
              && !EmittedBox(p, hour, events, i, BoxSkip, s)
    ensures Emits(p, hour, events, i, RescanWouldFire) ==> !EmittedBox(p, hour, events, i, RescanWouldFire, s)
  {
    if EmitsDecision(p, hour, events, i) {
      forall j | 0 <= j < i
        ensures !Emits(p, hour, events, j, Fire) && !Emits(p, hour, events, j, WouldFire) && !Emits(p, hour, events, j, BoxSkip)
      {
        OneShot(p, hour, events, j, i);
        assert !EmitsDecision(p, hour, events, j);
      }
    }
    if Emits(p, hour, events, i, RescanWouldFire) {
      forall j | 0 <= j < i
        ensures !Emits(p, hour, events, j, RescanWouldFire)
      {
        OneShot(p, hour, events, j, i);
      }
    }
  }

  /** The state remembers exactly the boxes it has fired, skipped and rescanned. */
  lemma {:induction false} PicksAreEmitted(p: Params, hour: Hour, events: seq<Event>, n: nat, s: Selection)
    requires n <= |events|
    ensures var picks := After(p, hour, events, n).picks;
            && (picks.fired == Some(s) <==>
                  EmittedBox(p, hour, events, n, Fire, s) || EmittedBox(p, hour, events, n, WouldFire, s))
            && (picks.skipped == Some(s) <==> EmittedBox(p, hour, events, n, BoxSkip, s))
            && (picks.rescan == Some(s) <==> EmittedBox(p, hour, events, n, RescanWouldFire, s))
  {
    if n == 0 {
    } else {
      var i := n - 1;
      PicksAreEmitted(p, hour, events, i, s);
      PicksRecord(p, hour, events, i);
      DecisionsAreOnce(p, hour, events, i, s);
      EmittedStep(p, hour, events, i, Fire, s);
      EmittedStep(p, hour, events, i, WouldFire, s);
      EmittedStep(p, hour, events, i, BoxSkip, s);
      EmittedStep(p, hour, events, i, RescanWouldFire, s);
    }
  }

  /** A rescan comes only after a skip. */
  lemma RescanFollowsSkip(p: Params, hour: Hour, events: seq<Event>, j: nat)
    requires j < |events| && Emits(p, hour, events, j, RescanWouldFire)
    ensures exists i :: 0 <= i < j && Emits(p, hour, events, i, BoxSkip)
  {
    RunDoesExpected(p, hour, events, j);
    var i := SkippedHas(p, hour, events, j);
    RunDoesExpected(p, hour, events, i);
    SkippedIsDecided(p, hour, events, i);
    assert Emits(p, hour, events, i, BoxSkip);
  }

  ghost predicate Chronological(events: seq<Event>) {
    forall i, j :: 0 <= i < j < |events| ==> events[i].now <= events[j].now
  }

  /** Once it has stood down, the machine decides nothing more while time does not run back. */
  lemma NoFireAfterStandDown(p: Params, hour: Hour, events: seq<Event>, i: nat, j: nat)
    requires i < j < |events| && Chronological(events)
    requires Emits(p, hour, events, i, StandDown)
    ensures !EmitsDecision(p, hour, events, j)
  {
    EmissionMeans(p, hour, events, i);
    EmissionMeans(p, hour, events, j);
  }

  // ----- What is ordered -----

  lemma {:induction false} KnownRungIsStrike(strikes: seq<Strike>, tops: map<Ticker, Top>, r: Rung) returns (k: nat)
    requires r in KnownRungs(strikes, tops)
    ensures k < |strikes| && strikes[k].ticker == r.ticker && strikes[k].K == r.K
  {
    var last := |strikes| - 1;
    if r in KnownRungs(strikes[..last], tops) {
      k := KnownRungIsStrike(strikes[..last], tops, r);
    } else {
      k := last;
    }
  }

  /** Every pair a run fires or skips is the flip of one corridor of its hour: equal contracts of one
      hourly strike and of the 15-minute market, paying $2 inside and $1 outside for every print. */
  lemma DecidedPairPays(p: Params, hour: Hour, events: seq<Event>, i: nat, px: real)
    requires i < |events| && EmitsDecision(p, hour, events, i)
    ensures var legs := ActionsAt(p, hour, events, i)[0].legs;
            && |legs| == 2 && legs[1].ticker == hour.m15
            && legs[0].count == legs[1].count == p.contracts
            && legs[0].limit <= 0.99 && legs[1].limit <= 0.99
            && Offer(p, hour, events, i).Some?
            && (legs[0].limit >= Offer(p, hour, events, i).value.hourlyAsk <==>
                  p.limitMargin >= 0.0 && Offer(p, hour, events, i).value.hourlyAsk <= 0.99)
            && (legs[1].limit >= Offer(p, hour, events, i).value.m15Ask <==>
                  p.limitMargin >= 0.0 && Offer(p, hour, events, i).value.m15Ask <= 0.99)
            && exists k :: 0 <= k < |hour.strikes| && hour.strikes[k].ticker == legs[0].ticker
                 && Pays(legs[0].side, Result1H(px, hour.strikes[k].K)) + Pays(legs[1].side, Result15(px, hour.anchorA))
                      == (if InCorridor(px, hour.anchorA, hour.strikes[k].K) then 2 else 1)
  {
    DecisionAtFirstReady(p, hour, events, i);
    var sel := Offer(p, hour, events, i).value;
    var books := BooksAfter(hour, events, i + 1);
    var top, ladder := books.tops[hour.m15], KnownRungs(hour.strikes, books.tops);
    assert SelectBox(p, hour.anchorA, hour.m15, top, ladder) == Box(sel);
    SelectionIsOptimal(p, hour.anchorA, hour.m15, top, ladder);
    SelectionPrices(p, hour.anchorA, hour.m15, top, ladder);
    BoxIsFlip(p, hour.anchorA, hour.m15, top, ladder, px);
    var r :| r in ladder && r.ticker == sel.hourlyTicker && r.K == sel.strikeK;
    var k := KnownRungIsStrike(hour.strikes, books.tops, r);
  }

  // A run of the shipped parameters that fires although the 15-minute ask is above the limit ceiling.
  const CEILING_PARAMS := Params(0.95, 0.90, 0.99, 0.85, 0.10, 0.03, 600.0, 60.0, 1.0, 1.0, 1, 0.80)
  const CEILING_HOUR := Hour(100.0, 50.0, 0, [Strike(1, 60.0)], false)
  const CEILING_M15 := Top(Some(0.985), Some(0.995), false)
  const CEILING_HOURLY := Top(Some(0.05), Some(0.06), false)
  const CEILING_RUN := [BookUpdate(0, CEILING_M15, 0.0), BookUpdate(1, CEILING_HOURLY, 1.0)]

  lemma CeilingBooks()
    ensures BooksAfter(CEILING_HOUR, CEILING_RUN, 2)
              == Books(map[0 := CEILING_M15, 1 := CEILING_HOURLY], map[0 := 0.0, 1 := 1.0])
    ensures BooksAfter(CEILING_HOUR, CEILING_RUN, 1) == Books(map[0 := CEILING_M15], map[0 := 0.0])
  {
    assert CEILING_HOUR.strikes[0].ticker == 1;
    assert BooksAfter(CEILING_HOUR, CEILING_RUN, 0) == NO_BOOKS;
  }

  lemma CeilingView()
    ensures var ladder := [Rung(1, 60.0, CEILING_HOURLY)];
            var v := SelectBox(CEILING_PARAMS, 50.0, 0, CEILING_M15, ladder);
            && SelectBox(CEILING_PARAMS, 50.0, 0, CEILING_M15, []) == NoBox(NoCandidate)
            && v.Box? && v.sel.m15Ask == 0.995 && v.sel.m15Limit == 0.99 && v.sel.impliedPin >= 0.80
            && v.sel.hourlyTicker == 1 && v.sel.m15Ticker == 0
  {
    var r := Rung(1, 60.0, CEILING_HOURLY);
    var ladder := [r];
    assert ladder[..0] == [];
    assert Candidates(CEILING_PARAMS, 50.0, false, ladder) == [CandOf(CEILING_PARAMS, false, r)];
  }

  /** A fired leg can carry a limit below the ask it was chosen at: the 15-minute ask has no upper
      filter, while the limit is capped at 0.99. */
  lemma FiresBelowAsk()
    ensures Emits(CEILING_PARAMS, CEILING_HOUR, CEILING_RUN, 1, Fire)
    ensures Offer(CEILING_PARAMS, CEILING_HOUR, CEILING_RUN, 1).Some?
    ensures |ActionsAt(CEILING_PARAMS, CEILING_HOUR, CEILING_RUN, 1)[0].legs| == 2
    ensures Offer(CEILING_PARAMS, CEILING_HOUR, CEILING_RUN, 1).value.m15Ask
              > ActionsAt(CEILING_PARAMS, CEILING_HOUR, CEILING_RUN, 1)[0].legs[1].limit
  {
    CeilingBooks();
    CeilingView();
    var strikes := CEILING_HOUR.strikes;
    assert strikes[0].ticker == 1;
    assert strikes[..0] == [];
    var tops := map[0 := CEILING_M15, 1 := CEILING_HOURLY];
    assert KnownRungs(strikes, tops) == [Rung(1, 60.0, CEILING_HOURLY)];
    assert KnownRungs(strikes, map[0 := CEILING_M15]) == [];
    assert !Ready(CEILING_PARAMS, CEILING_HOUR, CEILING_RUN, 0);
    assert Ready(CEILING_PARAMS, CEILING_HOUR, CEILING_RUN, 1);
    DecisionAtFirstReady(CEILING_PARAMS, CEILING_HOUR, CEILING_RUN, 1);
  }
}
