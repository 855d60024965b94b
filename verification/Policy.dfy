/** The streaming policy evaluator (sim/unseal_runner15.py): tape rows stream through once and
    each window contributes at most one entry, its earliest qualifying event. */
module Policy {
  import opened Sequences

  /** A close time, known by its epoch: windows are only ever compared for equality. */
  type CloseTime = int

  const FRESH_MAX_LEG_AGE_S := 1.0
  const Q1_STRANGLE_EV_MIN := 0.05
  const SUB_DOLLAR_C_MAX := 1.0
  const Q5_FLIP_EV_MIN := 0.10

  datatype Direction = Strangle | Flip | OtherDirection

  /** The `hard_floor` column: "1", "0", or blank. */
  datatype FloorFlag = Set | Clear | Blank

  datatype Row = Row(
    closeTime: CloseTime, direction: Direction, tMinus: real, quintile: int, highAge: real, lowAge: real,
    C: real, ev: real, pin: bool, payoff: real, date: int, hardFloor: FloorFlag)

  datatype Source = Q1Strangle | SubDollarFlip | Q5Flip

  datatype Entry = Entry(payoff: real, C: real, pin: bool, quintile: int, source: Source, date: int)

  // ----- The policy, window by window -----

  predicate Fresh(r: Row) {
    r.highAge <= FRESH_MAX_LEG_AGE_S && r.lowAge <= FRESH_MAX_LEG_AGE_S
  }

  /** Sub-$1 by the flag when there is one, by the rounded cost otherwise. */
  predicate SubDollar(r: Row) {
    if r.hardFloor.Blank? then r.C < SUB_DOLLAR_C_MAX else r.hardFloor.Set?
  }

  predicate Diverges(r: Row) {
    !r.hardFloor.Blank? && r.hardFloor.Set? != (r.C < SUB_DOLLAR_C_MAX)
  }

  predicate Qualifies(src: Source, r: Row) {
    && Fresh(r)
    && match src {
         case Q1Strangle => r.direction.Strangle? && r.ev >= Q1_STRANGLE_EV_MIN
         case SubDollarFlip => r.direction.Flip? && SubDollar(r)
         case Q5Flip => r.direction.Flip? && r.ev >= Q5_FLIP_EV_MIN
       }
  }

  /** Which sources a quintile may enter through. */
  predicate Routed(quintile: int, src: Source) {
    match src
    case Q1Strangle => quintile == 0
    case SubDollarFlip => 0 <= quintile <= 3
    case Q5Flip => quintile == 4
  }

  /** The first qualifying row for a source. */
  function FirstFor(src: Source, w: seq<Row>): Option<Row> {
    if w == [] then
      None
    else
      var earlier := FirstFor(src, w[..|w| - 1]);
      if earlier.Some? then earlier
      else if Qualifies(src, w[|w| - 1]) then Some(w[|w| - 1])
      else None
  }

  function Candidate(quintile: int, src: Source, row: Option<Row>): Option<(Row, Source)> {
    if Routed(quintile, src) && row.Some? then Some((row.value, src)) else None
  }

  /** Python's max over t_minus_s: the first listed candidate wins a tie. */
  function Later(a: Option<(Row, Source)>, b: Option<(Row, Source)>): Option<(Row, Source)> {
    if a.None? then b
    else if b.None? then a
    else if b.value.0.tMinus > a.value.0.tMinus then b
    else a
  }

  function Pick(quintile: int, strangle: Option<Row>, sub: Option<Row>, flipEv: Option<Row>): Option<(Row, Source)> {
    Later(Later(Candidate(quintile, Q1Strangle, strangle), Candidate(quintile, SubDollarFlip, sub)),
          Candidate(quintile, Q5Flip, flipEv))
  }

  /** The entry a window makes, if any candidate is left. */
  function Decide(quintile: int, strangle: Option<Row>, sub: Option<Row>, flipEv: Option<Row>): Option<Entry> {
    var pick := Pick(quintile, strangle, sub, flipEv);
    if pick.None? then None
    else
      var (row, src) := pick.value;
      Some(Entry(row.payoff, row.C, row.pin, quintile, src, row.date))
  }

  /** The entry made by the rows of one window. */
  function Winner(w: seq<Row>): Option<Entry>
    requires w != []
  {
    Decide(w[0].quintile, FirstFor(Q1Strangle, w), FirstFor(SubDollarFlip, w), FirstFor(Q5Flip, w))
  }

  // ----- The batch definition: group by window, one winner each -----

  function IsOf(ct: CloseTime): Row -> bool {
    (r: Row) => r.closeTime == ct
  }

  function WindowRows(rows: seq<Row>, ct: CloseTime): seq<Row> {
    Filter(IsOf(ct), rows)
  }

  /** The distinct close times in the order they first appear. */
  function Windows(rows: seq<Row>): seq<CloseTime> {
    if rows == [] then
      []
    else
      var rest, ct := Windows(rows[..|rows| - 1]), rows[|rows| - 1].closeTime;
      if ct in rest then rest else rest + [ct]
  }

  lemma {:induction false} WindowsMembers(rows: seq<Row>, i: nat)
    requires i < |rows|
    ensures rows[i].closeTime in Windows(rows)
  {
    if i < |rows| - 1 {
      WindowsMembers(rows[..|rows| - 1], i);
    }
  }

  lemma {:induction false} WindowsOnly(rows: seq<Row>, ct: CloseTime) returns (i: nat)
    requires ct in Windows(rows)
    ensures i < |rows| && rows[i].closeTime == ct
  {
    if ct == rows[|rows| - 1].closeTime {
      i := |rows| - 1;
    } else {
      i := WindowsOnly(rows[..|rows| - 1], ct);
    }
  }

  lemma {:induction false} WindowsDistinct(rows: seq<Row>)
    ensures forall i, j :: 0 <= i < j < |Windows(rows)| ==> Windows(rows)[i] != Windows(rows)[j]
  {
    if rows == [] {
    } else {
      WindowsDistinct(rows[..|rows| - 1]);
    }
  }

  /** Each window's rows are one unbroken block. */
  ghost predicate Contiguous(rows: seq<Row>) {
    forall i, j, k :: 0 <= i < j < k < |rows| && rows[i].closeTime == rows[k].closeTime ==>
      rows[j].closeTime == rows[i].closeTime
  }

  /** The row continues the last window or opens one never seen before. */
  predicate Continues(rows: seq<Row>, r: Row) {
    rows == [] || rows[|rows| - 1].closeTime == r.closeTime || r.closeTime !in Windows(rows)
  }

  /** The same, read row by row: every row continues the last window or opens a new one. */
  predicate Blocks(rows: seq<Row>) {
    rows == [] || (Blocks(rows[..|rows| - 1]) && Continues(rows[..|rows| - 1], rows[|rows| - 1]))
  }

  lemma {:induction false} WindowRowsMembers(rows: seq<Row>, ct: CloseTime, r: Row)
    ensures r in WindowRows(rows, ct) <==> r in rows && r.closeTime == ct
  {
    if rows == [] {
    } else {
      assert rows == rows[..|rows| - 1] + [rows[|rows| - 1]];
      WindowRowsMembers(rows[..|rows| - 1], ct, r);
    }
  }

  function Winners(burned: set<CloseTime>, order: seq<CloseTime>, rows: seq<Row>): seq<Entry> {
    if order == [] then
      []
    else
      var rest, ct := Winners(burned, order[..|order| - 1], rows), order[|order| - 1];
      var w := WindowRows(rows, ct);
      if ct in burned || w == [] || Winner(w).None? then rest
      else rest + [Winner(w).value]
  }

  function BurnedIn(burned: set<CloseTime>, order: seq<CloseTime>): set<CloseTime> {
    set ct | ct in order && ct in burned
  }

  function CountKept(burned: set<CloseTime>, order: seq<CloseTime>): nat {
    if order == [] then 0
    else CountKept(burned, order[..|order| - 1]) + if order[|order| - 1] in burned then 0 else 1
  }

  /** A fresh flip row reaches the sub-$1 test only while its window has no sub-$1 row yet. */
  predicate ReachesTest(before: seq<Row>, r: Row) {
    Fresh(r) && r.direction.Flip? && FirstFor(SubDollarFlip, WindowRows(before, r.closeTime)).None?
  }

  function Divergences(rows: seq<Row>): nat {
    if rows == [] then 0
    else
      var before, r := rows[..|rows| - 1], rows[|rows| - 1];
      Divergences(before) + if ReachesTest(before, r) && Diverges(r) then 1 else 0
  }

  /** What a complete evaluation reports. */
  datatype Report = Report(entries: seq<Entry>, eligible: nat, burnedExcluded: set<CloseTime>, divergences: nat)

  function BatchReport(burned: set<CloseTime>, rows: seq<Row>): Report {
    var order := Windows(rows);
    Report(Winners(burned, order, rows), CountKept(burned, order), BurnedIn(burned, order), Divergences(rows))
  }

  // ----- Feeding one row -----

  lemma ContinuesKeepsContiguous(rows: seq<Row>, r: Row)
    requires Contiguous(rows) && Continues(rows, r)
    ensures Contiguous(rows + [r])
  {
    var all := rows + [r];
    forall i, j, k | 0 <= i < j < k < |all| && all[i].closeTime == all[k].closeTime
      ensures all[j].closeTime == all[i].closeTime
    {
      if k == |rows| {
        WindowsMembers(rows, i);
        assert j == |rows| - 1 || rows[j].closeTime == rows[i].closeTime;
      }
    }
  }

  /** Appending a row keeps the stream contiguous exactly when it continues or opens a window. */
  lemma ContiguousStep(rows: seq<Row>, r: Row)
    requires Contiguous(rows)
    ensures Contiguous(rows + [r]) <==> Continues(rows, r)
  {
    if Continues(rows, r) {
      ContinuesKeepsContiguous(rows, r);
    } else {
      var all := rows + [r];
      var i := WindowsOnly(rows, r.closeTime);
      assert all[i].closeTime == all[|rows|].closeTime && all[|rows| - 1].closeTime != all[i].closeTime;
    }
  }

  lemma {:induction false} BlocksAreContiguous(rows: seq<Row>)
    ensures Blocks(rows) <==> Contiguous(rows)
  {
    if rows == [] {
    } else {
      var before, r := rows[..|rows| - 1], rows[|rows| - 1];
      assert rows == before + [r];
      BlocksAreContiguous(before);
      if Contiguous(rows) {
        assert Contiguous(before);
      }
      if Contiguous(before) {
        ContiguousStep(before, r);
      }
    }
  }

  /** In a contiguous stream the last window opened is the last row's. */
  lemma {:induction false} LastWindow(rows: seq<Row>)
    requires Blocks(rows) && rows != []
    ensures Windows(rows) != [] && Windows(rows)[|Windows(rows)| - 1] == rows[|rows| - 1].closeTime
  {
    if rows[|rows| - 1].closeTime in Windows(rows[..|rows| - 1]) {
      LastWindow(rows[..|rows| - 1]);
    }
  }

  lemma {:induction false} WinnersIgnoreOthers(burned: set<CloseTime>, order: seq<CloseTime>, rows: seq<Row>, r: Row)
    requires r.closeTime !in order
    ensures Winners(burned, order, rows + [r]) == Winners(burned, order, rows)
  {
    if order == [] {
    } else {
      assert order == order[..|order| - 1] + [order[|order| - 1]];
      WinnersIgnoreOthers(burned, order[..|order| - 1], rows, r);
      Snoc(rows, r);
    }
  }

  /** The windows already closed while the last one is still open. */
  function Done(rows: seq<Row>): seq<CloseTime> {
    var order := Windows(rows);
    if order == [] then [] else order[..|order| - 1]
  }

  lemma OpenSame(burned: set<CloseTime>, rows: seq<Row>, r: Row)
    requires Blocks(rows) && rows != [] && rows[|rows| - 1].closeTime == r.closeTime
    ensures Windows(rows + [r]) == Windows(rows) && Done(rows + [r]) == Done(rows)
    ensures WindowRows(rows + [r], r.closeTime) == WindowRows(rows, r.closeTime) + [r]
    ensures Winners(burned, Done(rows), rows + [r]) == Winners(burned, Done(rows), rows)
  {
    Snoc(rows, r);
    LastWindow(rows);
    WindowsDistinct(rows);
    WindowsMembers(rows, |rows| - 1);
    WinnersIgnoreOthers(burned, Done(rows), rows, r);
  }

  lemma OpenNew(burned: set<CloseTime>, rows: seq<Row>, r: Row)
    requires r.closeTime !in Windows(rows)
    ensures Windows(rows + [r]) == Windows(rows) + [r.closeTime] && Done(rows + [r]) == Windows(rows)
    ensures WindowRows(rows, r.closeTime) == [] && WindowRows(rows + [r], r.closeTime) == [r]
    ensures Winners(burned, Windows(rows), rows + [r]) == Winners(burned, Windows(rows), rows)
  {
    Snoc(rows, r);
    WinnersIgnoreOthers(burned, Windows(rows), rows, r);
    NoWindowRows(rows, r.closeTime);
  }

  lemma {:induction false} NoWindowRows(rows: seq<Row>, ct: CloseTime)
    requires ct !in Windows(rows)
    ensures WindowRows(rows, ct) == []
  {
    if rows == [] {
    } else {
      NoWindowRows(rows[..|rows| - 1], ct);
    }
  }

  lemma FirstForSnoc(src: Source, w: seq<Row>, r: Row)
    ensures FirstFor(src, w + [r]) ==
              if FirstFor(src, w).Some? then FirstFor(src, w)
              else if Qualifies(src, r) then Some(r) else None
  {
    Snoc(w, r);
  }

  /** The running totals cover exactly the windows of `order`. */
  predicate TotalsFor(burned: set<CloseTime>, order: seq<CloseTime>, rows: seq<Row>,
                      entries: seq<Entry>, eligible: nat, excluded: set<CloseTime>)
  {
    && entries == Winners(burned, order, rows)
    && eligible == CountKept(burned, order)
    && excluded == BurnedIn(burned, order)
  }

  /** The per-window fields describe the rows `w` of one window. */
  predicate ScratchFor(w: seq<Row>, q: int, strangle: Option<Row>, sub: Option<Row>, flipEv: Option<Row>) {
    && w != [] && q == w[0].quintile
    && strangle == FirstFor(Q1Strangle, w) && sub == FirstFor(SubDollarFlip, w) && flipEv == FirstFor(Q5Flip, w)
  }

  /** What closing the last window adds to each total. */
  lemma CloseTotals(burned: set<CloseTime>, rows: seq<Row>)
    requires Blocks(rows) && rows != []
    requires WindowRows(rows, rows[|rows| - 1].closeTime) != []
    ensures var done, ct := Done(rows), rows[|rows| - 1].closeTime;
            var w := WindowRows(rows, ct);
            && Winners(burned, Windows(rows), rows) ==
                 (if ct in burned || Winner(w).None? then Winners(burned, done, rows)
                  else Winners(burned, done, rows) + [Winner(w).value])
            && CountKept(burned, Windows(rows)) == CountKept(burned, done) + (if ct in burned then 0 else 1)
            && BurnedIn(burned, Windows(rows)) == (if ct in burned then BurnedIn(burned, done) + {ct} else BurnedIn(burned, done))
  {
    var done, ct := Done(rows), rows[|rows| - 1].closeTime;
    LastWindow(rows);
    assert Windows(rows) == done + [ct];
    WinnersSnoc(burned, done, ct, rows);
    CountsSnoc(burned, done, ct);
  }

  lemma WinnersSnoc(burned: set<CloseTime>, order: seq<CloseTime>, ct: CloseTime, rows: seq<Row>)
    requires WindowRows(rows, ct) != []
    ensures var w := WindowRows(rows, ct);
            Winners(burned, order + [ct], rows) ==
              if ct in burned || Winner(w).None? then Winners(burned, order, rows)
              else Winners(burned, order, rows) + [Winner(w).value]
  {
    assert (order + [ct])[..|order|] == order;
  }

  lemma CountsSnoc(burned: set<CloseTime>, order: seq<CloseTime>, ct: CloseTime)
    ensures CountKept(burned, order + [ct]) == CountKept(burned, order) + if ct in burned then 0 else 1
    ensures BurnedIn(burned, order + [ct]) == if ct in burned then BurnedIn(burned, order) + {ct} else BurnedIn(burned, order)
  {
    assert (order + [ct])[..|order|] == order;
  }

  lemma JudgeRow(w: seq<Row>, r: Row, q: int)
    requires q == if w == [] then r.quintile else w[0].quintile
    ensures ScratchFor(w + [r], q,
              if FirstFor(Q1Strangle, w).None? && Qualifies(Q1Strangle, r) then Some(r) else FirstFor(Q1Strangle, w),
              if FirstFor(SubDollarFlip, w).None? && Qualifies(SubDollarFlip, r) then Some(r) else FirstFor(SubDollarFlip, w),
              if FirstFor(Q5Flip, w).None? && Qualifies(Q5Flip, r) then Some(r) else FirstFor(Q5Flip, w))
  {
    FirstForSnoc(Q1Strangle, w, r);
    FirstForSnoc(SubDollarFlip, w, r);
    FirstForSnoc(Q5Flip, w, r);
  }

  predicate SeenFor(seen: set<CloseTime>, order: seq<CloseTime>) {
    && (forall ct :: ct in seen ==> ct in order)
    && (forall ct :: ct in order ==> ct in seen)
  }

  /** The last row of a stream, which is not judged yet, and the rows before it. */
  function Last(rows: seq<Row>): Row
    requires rows != []
  {
    rows[|rows| - 1]
  }

  function Before(rows: seq<Row>): seq<Row>
    requires rows != []
  {
    rows[..|rows| - 1]
  }

  /** The per-window fields describe the rows of the last row's window that came before it. */
  predicate OpenedFor(rows: seq<Row>, seen: set<CloseTime>, q: int,
                      strangle: Option<Row>, sub: Option<Row>, flipEv: Option<Row>)
    requires rows != []
  {
    var r := Last(rows);
    var w := WindowRows(Before(rows), r.closeTime);
    && Blocks(rows)
    && SeenFor(seen, Windows(rows))
    && q == (if w == [] then r.quintile else w[0].quintile)
    && strangle == FirstFor(Q1Strangle, w) && sub == FirstFor(SubDollarFlip, w) && flipEv == FirstFor(Q5Flip, w)
  }

  /** What judging the last row must leave in the per-window fields, and what it adds to the
      divergences. */
  lemma JudgeOpened(rows: seq<Row>, seen: set<CloseTime>, q: int,
                    strangle: Option<Row>, sub: Option<Row>, flipEv: Option<Row>)
    requires rows != [] && OpenedFor(rows, seen, q, strangle, sub, flipEv)
    ensures var r := Last(rows);
            && ScratchFor(WindowRows(rows, r.closeTime), q,
                 if strangle.None? && Qualifies(Q1Strangle, r) then Some(r) else strangle,
                 if sub.None? && Qualifies(SubDollarFlip, r) then Some(r) else sub,
                 if flipEv.None? && Qualifies(Q5Flip, r) then Some(r) else flipEv)
            && (ReachesTest(Before(rows), r) <==> Fresh(r) && r.direction.Flip? && sub.None?)
  {
    var r := Last(rows);
    JudgeRow(WindowRows(Before(rows), r.closeTime), r, q);
  }

  lemma OpensEmpty(rows: seq<Row>, seen: set<CloseTime>)
    requires rows != [] && Blocks(Before(rows)) && SeenFor(seen, Windows(Before(rows))) && Last(rows).closeTime !in seen
    ensures OpenedFor(rows, seen + {Last(rows).closeTime}, Last(rows).quintile, None, None, None)
  {
    NoWindowRows(Before(rows), Last(rows).closeTime);
  }

  lemma TotalsCarry(burned: set<CloseTime>, rows: seq<Row>, entries: seq<Entry>, eligible: nat, excluded: set<CloseTime>)
    requires rows != [] && TotalsFor(burned, Windows(Before(rows)), Before(rows), entries, eligible, excluded)
    requires Last(rows).closeTime !in Windows(Before(rows))
    ensures TotalsFor(burned, Done(rows), rows, entries, eligible, excluded)
  {
    assert rows == Before(rows) + [Last(rows)];
    OpenNew(burned, Before(rows), Last(rows));
  }

  /** The next row keeps windows contiguous and, in strict mode, does not disagree with its flag. */
  predicate Accepts(strict: bool, before: seq<Row>, r: Row) {
    Continues(before, r) && !(strict && ReachesTest(before, r) && Diverges(r))
  }

  // ----- The one-pass evaluation -----

  datatype PolicyError = NonContiguous(ct: CloseTime) | FloorDisagreement(ct: CloseTime)

  /** Everything the evaluator remembers: its totals, the windows seen, and the open window. */
  datatype State = State(
    entries: seq<Entry>, eligible: nat, excluded: set<CloseTime>, divergences: nat, seen: set<CloseTime>,
    cur: Option<CloseTime>, q: int, strangle: Option<Row>, sub: Option<Row>, flipEv: Option<Row>)

  const START := State([], 0, {}, 0, {}, None, 0, None, None, None)

  /** Close the open window: count it and keep its winner. */
  function Closed(burned: set<CloseTime>, s: State): State {
    if s.cur.None? then s
    else if s.cur.value in burned then s.(excluded := s.excluded + {s.cur.value})
    else
      var entry := Decide(s.q, s.strangle, s.sub, s.flipEv);
      s.(eligible := s.eligible + 1, entries := if entry.None? then s.entries else s.entries + [entry.value])
  }

  /** Start the window of `r`. */
  function Started(s: State, r: Row): State {
    s.(seen := s.seen + {r.closeTime}, cur := Some(r.closeTime), q := r.quintile,
       strangle := None, sub := None, flipEv := None)
  }

  /** Make `r`'s window the open one; None when it was closed before. */
  function Opened(burned: set<CloseTime>, s: State, r: Row): Option<State> {
    if s.cur == Some(r.closeTime) then Some(s)
    else if r.closeTime in s.seen then None
    else Some(Started(Closed(burned, s), r))
  }

  /** Judge `r` in its open window; None for a disagreement in strict mode. */
  function Judged(strict: bool, s: State, r: Row): Option<State> {
    if !Fresh(r) then
      Some(s)
    else if r.direction.Strangle? then
      Some(s.(strangle := if s.strangle.None? && r.ev >= Q1_STRANGLE_EV_MIN then Some(r) else s.strangle))
    else if r.direction.Flip? then
      var disagrees := s.sub.None? && Diverges(r);
      if strict && disagrees then None
      else
        Some(s.(divergences := s.divergences + (if disagrees then 1 else 0),
                sub := if s.sub.None? && SubDollar(r) then Some(r) else s.sub,
                flipEv := if s.flipEv.None? && r.ev >= Q5_FLIP_EV_MIN then Some(r) else s.flipEv))
    else
      Some(s)
  }

  function Step(burned: set<CloseTime>, strict: bool, s: State, r: Row): Option<State> {
    var open := Opened(burned, s, r);
    if open.None? then None else Judged(strict, open.value, r)
  }

  /** The state after all `rows`, or None once one of them is refused. */
  function Replay(burned: set<CloseTime>, strict: bool, rows: seq<Row>): Option<State> {
    if rows == [] then Some(START)
    else
      var before := Replay(burned, strict, rows[..|rows| - 1]);
      if before.None? then None else Step(burned, strict, before.value, rows[|rows| - 1])
  }

  function ReportOf(s: State): Report {
    Report(s.entries, s.eligible, s.excluded, s.divergences)
  }

  // ----- What the state means -----

  /** The state describes the rows fed so far: totals over the closed windows, and the open window is
      that of the last row. */
  predicate Sound(burned: set<CloseTime>, rows: seq<Row>, s: State) {
    && Blocks(rows)
    && SeenFor(s.seen, Windows(rows))
    && s.divergences == Divergences(rows)
    && (if rows == [] then s.cur.None?
        else
          var ct := rows[|rows| - 1].closeTime;
          s.cur == Some(ct) && ScratchFor(WindowRows(rows, ct), s.q, s.strangle, s.sub, s.flipEv))
    && TotalsFor(burned, Done(rows), rows, s.entries, s.eligible, s.excluded)
  }

  /** The state between opening the window of the last row and judging that row. */
  predicate AwaitsJudgement(burned: set<CloseTime>, rows: seq<Row>, s: State)
    requires rows != []
  {
    && s.cur == Some(Last(rows).closeTime)
    && s.divergences == Divergences(Before(rows))
    && OpenedFor(rows, s.seen, s.q, s.strangle, s.sub, s.flipEv)
    && TotalsFor(burned, Done(rows), rows, s.entries, s.eligible, s.excluded)
  }

  lemma ClosedIsSound(burned: set<CloseTime>, rows: seq<Row>, s: State)
    requires Sound(burned, rows, s)
    ensures var c := Closed(burned, s);
            TotalsFor(burned, Windows(rows), rows, c.entries, c.eligible, c.excluded)
  {
    if rows != [] {
      var w := WindowRows(rows, rows[|rows| - 1].closeTime);
      assert Winner(w) == Decide(s.q, s.strangle, s.sub, s.flipEv);
      CloseTotals(burned, rows);
    }
  }

  lemma StaysOpen(burned: set<CloseTime>, rows: seq<Row>, s: State)
    requires rows != [] && Sound(burned, Before(rows), s) && s.cur == Some(Last(rows).closeTime)
    ensures Continues(Before(rows), Last(rows)) && AwaitsJudgement(burned, rows, s)
  {
    SameWindowStaysOpen(rows, s.seen, s.q, s.strangle, s.sub, s.flipEv);
    TotalsStay(burned, rows, s.entries, s.eligible, s.excluded);
  }

  lemma SameWindowStaysOpen(rows: seq<Row>, seen: set<CloseTime>, q: int,
                            strangle: Option<Row>, sub: Option<Row>, flipEv: Option<Row>)
    requires |rows| > 1 && Blocks(Before(rows)) && SeenFor(seen, Windows(Before(rows)))
    requires Last(Before(rows)).closeTime == Last(rows).closeTime
    requires ScratchFor(WindowRows(Before(rows), Last(rows).closeTime), q, strangle, sub, flipEv)
    ensures Continues(Before(rows), Last(rows)) && OpenedFor(rows, seen, q, strangle, sub, flipEv)
  {
    assert rows == Before(rows) + [Last(rows)];
    OpenSame({}, Before(rows), Last(rows));
  }

  lemma SameWindowTotals(burned: set<CloseTime>, before: seq<Row>, r: Row, rows: seq<Row>,
                         entries: seq<Entry>, eligible: nat, excluded: set<CloseTime>)
    requires before != [] && Blocks(before) && Last(before).closeTime == r.closeTime && rows == before + [r]
    requires TotalsFor(burned, Done(before), before, entries, eligible, excluded)
    ensures TotalsFor(burned, Done(rows), rows, entries, eligible, excluded)
  {
    OpenSame(burned, before, r);
  }

  lemma TotalsStay(burned: set<CloseTime>, rows: seq<Row>, entries: seq<Entry>, eligible: nat, excluded: set<CloseTime>)
    requires |rows| > 1 && Blocks(Before(rows)) && Last(Before(rows)).closeTime == Last(rows).closeTime
    requires TotalsFor(burned, Done(Before(rows)), Before(rows), entries, eligible, excluded)
    ensures TotalsFor(burned, Done(rows), rows, entries, eligible, excluded)
  {
    var before, r := Before(rows), Last(rows);
    assert rows == before + [r];
    SameWindowTotals(burned, before, r, rows, entries, eligible, excluded);
  }

  lemma OpensNew(burned: set<CloseTime>, rows: seq<Row>, s: State)
    requires rows != [] && Sound(burned, Before(rows), s) && Last(rows).closeTime !in s.seen
    ensures AwaitsJudgement(burned, rows, Started(Closed(burned, s), Last(rows)))
  {
    var c := Closed(burned, s);
    assert c.seen == s.seen && c.divergences == s.divergences;
    assert Last(rows).closeTime !in Windows(Before(rows));
    ClosedIsSound(burned, Before(rows), s);
    OpensEmpty(rows, s.seen);
    TotalsCarry(burned, rows, c.entries, c.eligible, c.excluded);
  }

  lemma OpenedIsSound(burned: set<CloseTime>, rows: seq<Row>, s: State)
    requires rows != [] && Sound(burned, Before(rows), s)
    ensures var open := Opened(burned, s, Last(rows));
            && (open.Some? <==> Continues(Before(rows), Last(rows)))
            && (open.Some? ==> AwaitsJudgement(burned, rows, open.value))
  {
    if s.cur == Some(Last(rows).closeTime) {
      StaysOpen(burned, rows, s);
    } else if Last(rows).closeTime !in s.seen {
      OpensNew(burned, rows, s);
    }
  }

  lemma JudgedIsSound(burned: set<CloseTime>, strict: bool, rows: seq<Row>, s: State)
    requires rows != [] && AwaitsJudgement(burned, rows, s)
    ensures var judged := Judged(strict, s, Last(rows));
            && (judged.None? <==> strict && ReachesTest(Before(rows), Last(rows)) && Diverges(Last(rows)))
            && (judged.Some? ==> Sound(burned, rows, judged.value))
  {
    JudgeOpened(rows, s.seen, s.q, s.strangle, s.sub, s.flipEv);
  }

  /** The rows a run accepts: contiguous and, in strict mode, without a divergence. */
  predicate Acceptable(strict: bool, rows: seq<Row>) {
    Blocks(rows) && (strict ==> Divergences(rows) == 0)
  }

  /** The last row is accepted after the others exactly when it continues its window and, in strict
      mode, agrees; the state then describes all of them. */
  lemma StepIsSound(burned: set<CloseTime>, strict: bool, rows: seq<Row>, s: State)
    requires rows != [] && Sound(burned, Before(rows), s)
    ensures var next := Step(burned, strict, s, Last(rows));
            && (Opened(burned, s, Last(rows)).Some? <==> Continues(Before(rows), Last(rows)))
            && (next.Some? <==> Accepts(strict, Before(rows), Last(rows)))
            && (next.Some? ==> Sound(burned, rows, next.value))
  {
    OpenedIsSound(burned, rows, s);
    var open := Opened(burned, s, Last(rows));
    if open.Some? {
      JudgedIsSound(burned, strict, rows, open.value);
    }
  }

  /** The one-pass evaluation accepts exactly the acceptable streams, and its state describes them. */
  lemma {:induction false} ReplayIsSound(burned: set<CloseTime>, strict: bool, rows: seq<Row>)
    ensures Replay(burned, strict, rows).Some? <==> Acceptable(strict, rows)
    ensures Replay(burned, strict, rows).Some? ==> Sound(burned, rows, Replay(burned, strict, rows).value)
  {
    if rows == [] {
    } else {
      ReplayIsSound(burned, strict, Before(rows));
      var s := Replay(burned, strict, Before(rows));
      if s.Some? {
        StepIsSound(burned, strict, rows, s.value);
      }
    }
  }

  /** One more row is accepted exactly when it continues its window and, in strict mode, agrees. */
  lemma ReplayStep(burned: set<CloseTime>, strict: bool, rows: seq<Row>, r: Row)
    requires Replay(burned, strict, rows).Some?
    ensures Replay(burned, strict, rows + [r]) == Step(burned, strict, Replay(burned, strict, rows).value, r)
    ensures Replay(burned, strict, rows + [r]).Some? <==> Accepts(strict, rows, r)
    ensures Opened(burned, Replay(burned, strict, rows).value, r).Some? <==> Continues(rows, r)
  {
    var all := rows + [r];
    assert Before(all) == rows && Last(all) == r;
    ReplayIsSound(burned, strict, rows);
    StepIsSound(burned, strict, all, Replay(burned, strict, rows).value);
  }

  lemma {:induction false} ReplayPrefix(burned: set<CloseTime>, strict: bool, rows: seq<Row>, n: nat)
    requires n <= |rows| && Replay(burned, strict, rows).Some?
    ensures Replay(burned, strict, rows[..n]).Some?
  {
    if n == |rows| {
      assert rows[..n] == rows;
    } else {
      ReplayPrefix(burned, strict, rows[..|rows| - 1], n);
      assert rows[..|rows| - 1][..n] == rows[..n];
    }
  }

  lemma PrefixAccepted(burned: set<CloseTime>, strict: bool, all: seq<Row>, rows: seq<Row>)
    requires rows <= all
    ensures Replay(burned, strict, all).Some? ==> Replay(burned, strict, rows).Some?
  {
    assert all[..|rows|] == rows;
    if Replay(burned, strict, all).Some? {
      ReplayPrefix(burned, strict, all, |rows|);
    }
  }

  /** Streaming equals batch: closing the last window of an accepted stream reports what grouping
      the rows by window reports. */
  lemma ReplayIsBatch(burned: set<CloseTime>, strict: bool, rows: seq<Row>)
    requires Replay(burned, strict, rows).Some?
    ensures ReportOf(Closed(burned, Replay(burned, strict, rows).value)) == BatchReport(burned, rows)
  {
    ReplayIsSound(burned, strict, rows);
    ClosedIsSound(burned, rows, Replay(burned, strict, rows).value);
  }

  function Concat(files: seq<seq<Row>>): seq<Row> {
    if files == [] then [] else Concat(files[..|files| - 1]) + files[|files| - 1]
  }

  lemma {:induction false} ConcatPrefix(files: seq<seq<Row>>, n: nat)
    requires n <= |files|
    ensures Concat(files[..n]) <= Concat(files)
  {
    if n == |files| {
      assert files[..n] == files;
    } else {
      var before := files[..|files| - 1];
      ConcatPrefix(before, n);
      assert before[..n] == files[..n];
    }
  }

  lemma {:induction false} ConcatIsLaid(files: seq<seq<Row>>) returns (cuts: seq<nat>)
    ensures Laid(Concat(files), files, cuts)
  {
    if files == [] {
      cuts := [0];
    } else {
      var n := |files| - 1;
      cuts := ConcatIsLaid(files[..n]);
      LaysOneMore(Concat(files[..n]), files[..n], cuts, files[n]);
      cuts := cuts + [|Concat(files)|];
      assert files[..n] + [files[n]] == files;
    }
  }

  // ----- The evaluator -----

  class PolicyEvaluator {
    const burned: set<CloseTime>
    const strictHardFloor: bool
    var entries: seq<Entry>
    var eligibleWindows: nat
    var burnedExcluded: set<CloseTime>
    var divergences: nat
    var seen: set<CloseTime>
    var cur: Option<CloseTime>
    var q: int
    var strangle: Option<Row>
    var sub: Option<Row>
    var flipEv: Option<Row>
    ghost var fed: seq<Row>

    ghost function Snap(): State
      reads this
    {
      State(entries, eligibleWindows, burnedExcluded, divergences, seen, cur, q, strangle, sub, flipEv)
    }

    /** The fields are what replaying the rows fed so far gives. */
    ghost predicate Valid()
      reads this
    {
      Replay(burned, strictHardFloor, fed) == Some(Snap())
    }

    constructor (burned: set<CloseTime>, strictHardFloor: bool)
      ensures Valid() && fed == []
      ensures this.burned == burned && this.strictHardFloor == strictHardFloor
    {
      this.burned, this.strictHardFloor := burned, strictHardFloor;
      entries, eligibleWindows, burnedExcluded, divergences := [], 0, {}, 0;
      seen, cur, q, strangle, sub, flipEv := {}, None, 0, None, None, None;
      fed := [];
    }

    /** Close the open window: count it and keep its winner. */
    method FinalizeWindow()
      modifies this`entries, this`eligibleWindows, this`burnedExcluded
      ensures Snap() == Closed(burned, old(Snap()))
    {
      if cur.None? {
        return;
      }
      if cur.value in burned {
        burnedExcluded := burnedExcluded + {cur.value};
        return;
      }
      eligibleWindows := eligibleWindows + 1;
      var entry := Decide(q, strangle, sub, flipEv);
      if entry.Some? {
        entries := entries + [entry.value];
      }
    }

    /** Reset the per-window fields for a window never seen before. */
    method ResetWindow(r: Row)
      modifies this`seen, this`cur, this`q, this`strangle, this`sub, this`flipEv
      ensures Snap() == Started(old(Snap()), r)
    {
      seen := seen + {r.closeTime};
      cur, q, strangle, sub, flipEv := Some(r.closeTime), r.quintile, None, None, None;
    }

    /** Make `r`'s window the open one, closing the previous window if it is another. */
    method OpenWindow(r: Row) returns (reopened: bool)
      modifies this
      ensures fed == old(fed)
      ensures reopened <==> Opened(burned, old(Snap()), r).None?
      ensures !reopened ==> Snap() == Opened(burned, old(Snap()), r).value
    {
      if cur == Some(r.closeTime) {
        return false;
      }
      FinalizeWindow();
      if r.closeTime in seen {
        return true;
      }
      ResetWindow(r);
      return false;
    }

    /** Judge `r` against the sources its direction can serve. */
    method Consider(r: Row) returns (disagreed: bool)
      modifies this`strangle, this`sub, this`flipEv, this`divergences
      ensures disagreed <==> Judged(strictHardFloor, old(Snap()), r).None?
      ensures !disagreed ==> Snap() == Judged(strictHardFloor, old(Snap()), r).value
    {
      if !Fresh(r) {
        return false;
      }
      if r.direction.Strangle? {
        if strangle.None? && r.ev >= Q1_STRANGLE_EV_MIN {
          strangle := Some(r);
        }
      } else if r.direction.Flip? {
        if sub.None? {
          if Diverges(r) {
            divergences := divergences + 1;
            if strictHardFloor {
              return true;
            }
          }
          if SubDollar(r) {
            sub := Some(r);
          }
        }
        if flipEv.None? && r.ev >= Q5_FLIP_EV_MIN {
          flipEv := Some(r);
        }
      }
      return false;
    }

    /** Feed one row. It is refused when it reopens a closed window, or, in strict mode, when its
        flag and its rounded cost disagree at the sub-$1 test. */
    method FeedRow(r: Row) returns (error: Option<PolicyError>)
      requires Valid()
      modifies this
      ensures error.None? <==> Accepts(strictHardFloor, old(fed), r)
      ensures error == Some(NonContiguous(r.closeTime)) <==> !Continues(old(fed), r)
      ensures error.None? ==> Valid() && fed == old(fed) + [r]
    {
      ReplayStep(burned, strictHardFloor, fed, r);
      var reopened := OpenWindow(r);
      if reopened {
        return Some(NonContiguous(r.closeTime));
      }
      var disagreed := Consider(r);
      if disagreed {
        return Some(FloorDisagreement(r.closeTime));
      }
      fed := fed + [r];
      return None;
    }

    /** Feed the next row of `all`; a refused row leaves no way to accept all of them. */
    method FeedNext(ghost all: seq<Row>, r: Row) returns (error: Option<PolicyError>)
      requires Valid() && |fed| < |all| && fed == all[..|fed|] && r == all[|fed|]
      modifies this
      ensures error.None? ==> Valid() && |fed| == |old(fed)| + 1 <= |all| && fed == all[..|fed|]
      ensures error.Some? ==> Replay(burned, strictHardFloor, all).None?
    {
      ghost var n := |fed| + 1;
      assert all[..n] == fed + [r];
      ReplayStep(burned, strictHardFloor, fed, r);
      if Replay(burned, strictHardFloor, all).Some? {
        ReplayPrefix(burned, strictHardFloor, all, n);
      }
      error := FeedRow(r);
    }

    /** Feed one file of rows, stopping at the first refusal. */
    method FeedFile(file: seq<Row>) returns (error: Option<PolicyError>)
      requires Valid()
      modifies this
      ensures error.None? <==> Replay(burned, strictHardFloor, old(fed) + file).Some?
      ensures error.None? ==> Valid() && fed == old(fed) + file
    {
      ghost var all, n := fed + file, |fed|;
      error := None;
      var i := 0;
      while i < |file| && error.None?
        invariant 0 <= i <= |file|
        invariant error.None? ==> Valid() && |fed| == n + i && fed == all[..|fed|]
        invariant error.Some? ==> Replay(burned, strictHardFloor, all).None?
      {
        error := FeedNext(all, file[i]);
        i := i + 1;
      }
      assert error.None? ==> fed == all;
    }

    /** Feed a fresh evaluator file after file, stopping at the first refusal. */
    method FeedFiles(files: seq<seq<Row>>) returns (fedAll: bool)
      requires Valid() && fed == []
      modifies this
      ensures fedAll <==> Replay(burned, strictHardFloor, Concat(files)).Some?
      ensures fedAll ==> Valid() && fed == Concat(files)
    {
      ghost var all := Concat(files);
      fedAll := true;
      var i := 0;
      while i < |files| && fedAll
        invariant 0 <= i <= |files|
        invariant fedAll ==> Valid() && fed == Concat(files[..i])
        invariant !fedAll ==> Replay(burned, strictHardFloor, all).None?
      {
        fedAll := FeedNextFile(files, i);
        i := i + 1;
      }
      assert files[..|files|] == files;
    }

    /** Feed file `i`; a refused file leaves no way to accept all of them. */
    method FeedNextFile(files: seq<seq<Row>>, i: nat) returns (accepted: bool)
      requires Valid() && i < |files| && fed == Concat(files[..i])
      modifies this
      ensures accepted ==> Valid() && fed == Concat(files[..i + 1])
      ensures !accepted ==> Replay(burned, strictHardFloor, Concat(files)).None?
    {
      assert files[..i + 1][..i] == files[..i];
      ConcatPrefix(files, i + 1);
      PrefixAccepted(burned, strictHardFloor, Concat(files), Concat(files[..i + 1]));
      var error := FeedFile(files[i]);
      accepted := error.None?;
    }

    /** Close the last window. */
    method Finalize() returns (report: Report)
      requires Valid()
      modifies this
      ensures report == BatchReport(burned, fed) && fed == old(fed)
    {
      ReplayIsBatch(burned, strictHardFloor, fed);
      FinalizeWindow();
      report := Report(entries, eligibleWindows, burnedExcluded, divergences);
      cur, q, strangle, sub, flipEv := None, 0, None, None, None;
    }
  }

  // ----- The report in plain terms -----

  /** A flip row young on both legs that costs under $1 by its flag, or by its cost when the flag is blank. */
  predicate SubDollarRow(r: Row) {
    && r.direction == Flip && r.highAge <= 1.0 && r.lowAge <= 1.0
    && (r.hardFloor == Set || (r.hardFloor == Blank && r.C < 1.0))
  }

  /** The row may be entered in a window of quintile `q`: in the lowest quintile a strangle of at least
      five cents of EV, below the highest any sub-$1 flip, in the highest a flip of at least ten cents. */
  predicate Enterable(q: int, r: Row) {
    && r.highAge <= 1.0 && r.lowAge <= 1.0
    && (|| (q == 0 && r.direction == Strangle && r.ev >= 0.05)
        || (0 <= q <= 3 && SubDollarRow(r))
        || (q == 4 && r.direction == Flip && r.ev >= 0.10))
  }

  /** Row `k` may be entered and no earlier row of its window and direction may be. */
  ghost predicate FirstEnterable(rows: seq<Row>, q: int, k: nat) {
    && k < |rows| && Enterable(q, rows[k])
    && forall j :: 0 <= j < k && rows[j].closeTime == rows[k].closeTime && rows[j].direction == rows[k].direction ==>
         !Enterable(q, rows[j])
  }

  /** The window whose first row is `f` is entered at row `k`: the first enterable row of its direction,
      earlier than that of the other direction, or at the same time as it and a strangle. */
  ghost predicate EnteredAt(rows: seq<Row>, f: nat, k: nat, e: Entry) {
    && f < |rows| && k < |rows|
    && var q, r := rows[f].quintile, rows[k];
    && r.closeTime == rows[f].closeTime && FirstEnterable(rows, q, k)
    && e.payoff == r.payoff && e.C == r.C && e.pin == r.pin && e.date == r.date && e.quintile == q
    && e.source == (if r.direction == Strangle then Q1Strangle else if q == 4 then Q5Flip else SubDollarFlip)
    && forall j :: (0 <= j < |rows| && rows[j].closeTime == r.closeTime && rows[j].direction != r.direction
                    && FirstEnterable(rows, q, j)) ==>
         rows[j].tMinus < r.tMinus || (rows[j].tMinus == r.tMinus && r.direction == Strangle)
  }

  /** Row `i` is the first of its window, the window is not burned, and some row of it may be entered. */
  ghost predicate OpensEntered(burned: set<CloseTime>, rows: seq<Row>, i: nat) {
    && i < |rows| && rows[i].closeTime !in burned
    && (forall j :: 0 <= j < i ==> rows[j].closeTime != rows[i].closeTime)
    && exists k :: 0 <= k < |rows| && rows[k].closeTime == rows[i].closeTime && Enterable(rows[i].quintile, rows[k])
  }

  /** Row `i` is a young flip whose flag contradicts its cost, and its window has no sub-$1 row before it. */
  ghost predicate DisagreesAt(rows: seq<Row>, i: nat) {
    && i < |rows|
    && var r := rows[i];
    && r.direction == Flip && r.highAge <= 1.0 && r.lowAge <= 1.0
    && ((r.hardFloor == Set && r.C >= 1.0) || (r.hardFloor == Clear && r.C < 1.0))
    && forall j :: 0 <= j < i && rows[j].closeTime == r.closeTime ==> !SubDollarRow(rows[j])
  }

  ghost function EntersAt(burned: set<CloseTime>, rows: seq<Row>): nat -> bool {
    (i: nat) => OpensEntered(burned, rows, i)
  }

  ghost function EntryAt(rows: seq<Row>): (nat, Entry) -> bool {
    (i: nat, e: Entry) => exists k :: EnteredAt(rows, i, k, e)
  }

  /** What a report says of the rows: one entry for each window that is not burned and may be entered, in
      the order the windows open; the windows of either kind; and the disagreements. */
  ghost predicate Reports(burned: set<CloseTime>, rows: seq<Row>, report: Report) {
    && (exists at :: Lists(|rows|, EntersAt(burned, rows), EntryAt(rows), at, report.entries))
    && report.eligible == |set i | 0 <= i < |rows| && rows[i].closeTime !in burned :: rows[i].closeTime|
    && report.burnedExcluded == (set i | 0 <= i < |rows| && rows[i].closeTime in burned :: rows[i].closeTime)
    && report.divergences == |set i | 0 <= i < |rows| && DisagreesAt(rows, i)|
  }

  /** Where the first qualifying row of a source is, or -1. */
  lemma {:induction false} FirstForAt(src: Source, w: seq<Row>) returns (k: int)
    ensures -1 <= k < |w|
    ensures FirstFor(src, w) == if k < 0 then None else Some(w[k])
    ensures k >= 0 ==> Qualifies(src, w[k])
    ensures forall j :: 0 <= j < (if k < 0 then |w| else k) ==> !Qualifies(src, w[j])
  {
    if w == [] {
      k := -1;
    } else {
      var n := |w| - 1;
      k := FirstForAt(src, w[..n]);
      if k < 0 && Qualifies(src, w[n]) {
        k := n;
      }
    }
  }

  lemma EnterableIff(q: int, r: Row)
    ensures Enterable(q, r) <==> exists src :: Routed(q, src) && Qualifies(src, r)
    ensures Enterable(q, r) ==> r.direction == Strangle || r.direction == Flip
    ensures SubDollarRow(r) <==> Qualifies(SubDollarFlip, r)
    ensures Routed(q, Q1Strangle) && Qualifies(Q1Strangle, r) <==> Enterable(q, r) && r.direction == Strangle
    ensures Routed(q, SubDollarFlip) && Qualifies(SubDollarFlip, r) <==> Enterable(q, r) && r.direction == Flip && q != 4
    ensures Routed(q, Q5Flip) && Qualifies(Q5Flip, r) <==> Enterable(q, r) && r.direction == Flip && q == 4
  {
    if Enterable(q, r) {
      var src := if r.direction == Strangle then Q1Strangle else if q == 4 then Q5Flip else SubDollarFlip;
      assert Routed(q, src) && Qualifies(src, r);
    }
  }

  ghost predicate OneWindow(w: seq<Row>) {
    forall i :: 0 <= i < |w| ==> w[i].closeTime == w[0].closeTime
  }

  function DirectionOf(src: Source): Direction {
    if src.Q1Strangle? then Strangle else Flip
  }

  lemma SourceFirst(w: seq<Row>, q: int, src: Source) returns (k: int)
    requires OneWindow(w) && Routed(q, src)
    ensures -1 <= k < |w|
    ensures FirstFor(src, w) == if k < 0 then None else Some(w[k])
    ensures k >= 0 ==> FirstEnterable(w, q, k) && w[k].direction == DirectionOf(src)
    ensures forall j :: 0 <= j < |w| && w[j].direction == DirectionOf(src) && Enterable(q, w[j]) ==> 0 <= k <= j
  {
    k := FirstForAt(src, w);
    forall j | 0 <= j < |w|
      ensures Qualifies(src, w[j]) <==> Enterable(q, w[j]) && w[j].direction == DirectionOf(src)
    {
      EnterableIff(q, w[j]);
    }
  }

  /** The lowest quintile chooses between its first strangle and its first flip. */
  lemma LowestEnters(w: seq<Row>)
    requires w != [] && OneWindow(w) && w[0].quintile == 0
    ensures Winner(w).None? <==> forall k :: 0 <= k < |w| ==> !Enterable(0, w[k])
    ensures Winner(w).Some? ==> exists k :: EnteredAt(w, 0, k, Winner(w).value)
  {
    var a := SourceFirst(w, 0, Q1Strangle);
    var b := SourceFirst(w, 0, SubDollarFlip);
    forall k | 0 <= k < |w| && Enterable(0, w[k])
      ensures a >= 0 || b >= 0
    {
      EnterableIff(0, w[k]);
    }
    if a >= 0 && (b < 0 || w[b].tMinus <= w[a].tMinus) {
      assert EnteredAt(w, 0, a, Winner(w).value);
    } else if b >= 0 {
      assert EnteredAt(w, 0, b, Winner(w).value);
    }
  }

  /** Any other quintile has one source, a flip. */
  lemma HigherEnters(w: seq<Row>, src: Source)
    requires w != [] && OneWindow(w) && w[0].quintile != 0 && src != Q1Strangle && Routed(w[0].quintile, src)
    ensures Winner(w).None? <==> forall k :: 0 <= k < |w| ==> !Enterable(w[0].quintile, w[k])
    ensures Winner(w).Some? ==> exists k :: EnteredAt(w, 0, k, Winner(w).value)
  {
    var q := w[0].quintile;
    var b := SourceFirst(w, q, src);
    forall k | 0 <= k < |w| && Enterable(q, w[k])
      ensures b >= 0
    {
      EnterableIff(q, w[k]);
    }
    if b >= 0 {
      assert EnteredAt(w, 0, b, Winner(w).value);
    }
  }

  /** A window is entered exactly when some row of it may be, and then at the first such row. */
  lemma WinnerIsEntered(w: seq<Row>)
    requires w != [] && OneWindow(w)
    ensures Winner(w).None? <==> forall k :: 0 <= k < |w| ==> !Enterable(w[0].quintile, w[k])
    ensures Winner(w).Some? ==> exists k :: EnteredAt(w, 0, k, Winner(w).value)
  {
    var q := w[0].quintile;
    if q == 0 {
      LowestEnters(w);
    } else if 1 <= q <= 3 {
      HigherEnters(w, SubDollarFlip);
    } else if q == 4 {
      HigherEnters(w, Q5Flip);
    }
  }

  /** Where rows run forward in time no row that may be entered is earlier than the one entered, and
      none is as early but of the other direction unless a strangle was entered. */
  lemma EnteredIsEarliest(w: seq<Row>, k: nat, e: Entry)
    requires w != [] && OneWindow(w) && EnteredAt(w, 0, k, e)
    requires forall i, j :: 0 <= i < j < |w| && w[i].direction == w[j].direction ==> w[i].tMinus >= w[j].tMinus
    ensures forall j :: 0 <= j < |w| && Enterable(w[0].quintile, w[j]) ==>
              || w[j].tMinus < w[k].tMinus
              || (w[j].tMinus == w[k].tMinus && (w[j].direction == Flip || w[k].direction == Strangle))
  {
    var q := w[0].quintile;
    forall j | 0 <= j < |w| && Enterable(q, w[j])
      ensures || w[j].tMinus < w[k].tMinus
              || (w[j].tMinus == w[k].tMinus && (w[j].direction == Flip || w[k].direction == Strangle))
    {
      EnterableIff(q, w[j]);
      EnterableIff(q, w[k]);
      if w[j].direction == w[k].direction {
        assert k <= j;
      } else {
        var f := FirstOfDirection(w, q, j);
        assert w[f].tMinus >= w[j].tMinus;
      }
    }
  }

  lemma {:induction false} FirstOfDirection(w: seq<Row>, q: int, j: nat) returns (f: nat)
    requires OneWindow(w) && j < |w| && Enterable(q, w[j])
    ensures f <= j && w[f].direction == w[j].direction && FirstEnterable(w, q, f)
    decreases j
  {
    if FirstEnterable(w, q, j) {
      f := j;
    } else {
      var i :| 0 <= i < j && w[i].direction == w[j].direction && Enterable(q, w[i]);
      f := FirstOfDirection(w, q, i);
    }
  }

  lemma OpensIff(rows: seq<Row>, n: nat)
    requires n < |rows|
    ensures rows[n].closeTime in Windows(rows[..n]) <==> exists j :: 0 <= j < n && rows[j].closeTime == rows[n].closeTime
  {
    if rows[n].closeTime in Windows(rows[..n]) {
      var j := WindowsOnly(rows[..n], rows[n].closeTime);
      assert rows[j].closeTime == rows[n].closeTime;
    }
    if j :| 0 <= j < n && rows[j].closeTime == rows[n].closeTime {
      WindowsMembers(rows[..n], j);
    }
  }

  /** The rows of one window sit at ascending positions of the stream, its first row first. */
  lemma WindowSits(rows: seq<Row>, f: nat) returns (at: seq<nat>)
    requires f < |rows| && forall j :: 0 <= j < f ==> rows[j].closeTime != rows[f].closeTime
    ensures var w := WindowRows(rows, rows[f].closeTime); Picks(rows, at, w) && w != [] && at[0] == f && OneWindow(w)
    ensures forall i :: 0 <= i < |rows| ==> (i in at <==> rows[i].closeTime == rows[f].closeTime)
  {
    at := FilterPicks(IsOf(rows[f].closeTime), rows);
    assert f in at;
    assert at[0] in at;
    forall i | 0 <= i < |at|
      ensures rows[at[i]].closeTime == rows[f].closeTime
    {
      assert at[i] in at;
    }
  }

  lemma FirstLifts(rows: seq<Row>, at: seq<nat>, w: seq<Row>, q: int, k: nat)
    requires Picks(rows, at, w) && OneWindow(w) && k < |w|
    requires forall i :: 0 <= i < |rows| ==> (i in at <==> rows[i].closeTime == w[0].closeTime)
    ensures FirstEnterable(rows, q, at[k]) <==> FirstEnterable(w, q, k)
  {
    if FirstEnterable(w, q, k) {
      forall j | 0 <= j < at[k] && rows[j].closeTime == w[0].closeTime && rows[j].direction == w[k].direction
        ensures !Enterable(q, rows[j])
      {
        assert j in at;
        var i :| 0 <= i < |at| && at[i] == j;
        assert i < k && w[i] == rows[j];
      }
    }
    if FirstEnterable(rows, q, at[k]) {
      forall i | 0 <= i < k && w[i].closeTime == w[k].closeTime && w[i].direction == w[k].direction
        ensures !Enterable(q, w[i])
      {
        assert at[i] < at[k] && rows[at[i]] == w[i];
      }
    }
  }

  lemma EnteredLifts(rows: seq<Row>, at: seq<nat>, w: seq<Row>, k: nat, e: Entry)
    requires Picks(rows, at, w) && w != [] && OneWindow(w) && EnteredAt(w, 0, k, e)
    requires forall i :: 0 <= i < |rows| ==> (i in at <==> rows[i].closeTime == w[0].closeTime)
    ensures EnteredAt(rows, at[0], at[k], e)
  {
    var q := w[0].quintile;
    FirstLifts(rows, at, w, q, k);
    forall j | 0 <= j < |rows| && rows[j].closeTime == w[k].closeTime && rows[j].direction != w[k].direction
      && FirstEnterable(rows, q, j)
      ensures rows[j].tMinus < w[k].tMinus || (rows[j].tMinus == w[k].tMinus && w[k].direction == Strangle)
    {
      assert j in at;
      var i :| 0 <= i < |at| && at[i] == j;
      FirstLifts(rows, at, w, q, i);
      assert w[i] == rows[j];
    }
  }

  lemma EnterableSits(rows: seq<Row>, at: seq<nat>, w: seq<Row>, q: int)
    requires Picks(rows, at, w) && w != [] && OneWindow(w)
    requires forall i :: 0 <= i < |rows| ==> (i in at <==> rows[i].closeTime == w[0].closeTime)
    ensures (exists k :: 0 <= k < |w| && Enterable(q, w[k])) <==>
              exists k :: 0 <= k < |rows| && rows[k].closeTime == w[0].closeTime && Enterable(q, rows[k])
  {
    if k :| 0 <= k < |w| && Enterable(q, w[k]) {
      assert rows[at[k]] == w[k];
    }
    if k :| 0 <= k < |rows| && rows[k].closeTime == w[0].closeTime && Enterable(q, rows[k]) {
      assert k in at;
      var i :| 0 <= i < |at| && at[i] == k;
      assert w[i] == rows[k];
    }
  }

  /** The window that row `f` opens makes the declared entry, if any. */
  lemma WindowIsEntered(rows: seq<Row>, f: nat)
    requires f < |rows| && forall j :: 0 <= j < f ==> rows[j].closeTime != rows[f].closeTime
    ensures var w := WindowRows(rows, rows[f].closeTime);
            && w != []
            && (Winner(w).Some? <==>
                  exists k :: 0 <= k < |rows| && rows[k].closeTime == rows[f].closeTime && Enterable(rows[f].quintile, rows[k]))
            && (Winner(w).Some? ==> exists k :: EnteredAt(rows, f, k, Winner(w).value))
  {
    var at := WindowSits(rows, f);
    var w := WindowRows(rows, rows[f].closeTime);
    PickedEnters(rows, at, w, Winner(w));
  }

  lemma PickedEnters(rows: seq<Row>, at: seq<nat>, w: seq<Row>, winner: Option<Entry>)
    requires Picks(rows, at, w) && w != [] && OneWindow(w) && winner == Winner(w)
    requires forall i :: 0 <= i < |rows| ==> (i in at <==> rows[i].closeTime == w[0].closeTime)
    ensures winner.Some? <==>
              exists k :: 0 <= k < |rows| && rows[k].closeTime == w[0].closeTime && Enterable(w[0].quintile, rows[k])
    ensures winner.Some? ==> exists k :: EnteredAt(rows, at[0], k, winner.value)
  {
    WinnerIsEntered(w);
    EnterableSits(rows, at, w, w[0].quintile);
    if winner.Some? {
      var k: nat :| EnteredAt(w, 0, k, winner.value);
      EnteredLifts(rows, at, w, k, winner.value);
    }
  }

  /** What row `i` adds to the entries. */
  lemma WinnersMore(burned: set<CloseTime>, rows: seq<Row>, i: nat)
    requires i < |rows|
    ensures var before, after := Winners(burned, Windows(rows[..i]), rows), Winners(burned, Windows(rows[..i + 1]), rows);
            if EntersAt(burned, rows)(i) then exists e :: after == before + [e] && EntryAt(rows)(i, e) else after == before
  {
    var ct := rows[i].closeTime;
    assert rows[..i + 1][..i] == rows[..i];
    OpensIff(rows, i);
    if ct !in Windows(rows[..i]) {
      WindowIsEntered(rows, i);
      WinnersSnoc(burned, Windows(rows[..i]), ct, rows);
    }
  }

  lemma {:induction false} WinnersListed(burned: set<CloseTime>, rows: seq<Row>, n: nat) returns (at: seq<nat>)
    requires n <= |rows|
    ensures Lists(n, EntersAt(burned, rows), EntryAt(rows), at, Winners(burned, Windows(rows[..n]), rows))
  {
    if n == 0 {
      at := [];
    } else {
      var i := n - 1;
      at := WinnersListed(burned, rows, i);
      WinnersMore(burned, rows, i);
      at := EntriesMore(i, EntersAt(burned, rows), EntryAt(rows), at, Winners(burned, Windows(rows[..i]), rows),
                        Winners(burned, Windows(rows[..n]), rows));
    }
  }

  lemma EntriesMore(i: nat, enters: nat -> bool, entry: (nat, Entry) -> bool, at: seq<nat>, before: seq<Entry>,
                    after: seq<Entry>)
    returns (at': seq<nat>)
    requires Lists(i, enters, entry, at, before)
    requires if enters(i) then exists e :: after == before + [e] && entry(i, e) else after == before
    ensures Lists(i + 1, enters, entry, at', after)
  {
    if enters(i) {
      var e :| after == before + [e] && entry(i, e);
      ListsMore(i, enters, entry, at, before, e);
      at' := at + [i];
    } else {
      ListsSame(i, enters, entry, at, before);
      at' := at;
    }
  }

  lemma {:induction false} KeptAreCounted(burned: set<CloseTime>, order: seq<CloseTime>)
    requires forall i, j :: 0 <= i < j < |order| ==> order[i] != order[j]
    ensures CountKept(burned, order) == |set ct | ct in order && ct !in burned|
  {
    var kept := set ct | ct in order && ct !in burned;
    if order == [] {
      assert kept == {};
    } else {
      var rest, ct := order[..|order| - 1], order[|order| - 1];
      assert order == rest + [ct];
      KeptAreCounted(burned, rest);
      var before := set x | x in rest && x !in burned;
      assert ct !in before;
      assert kept == if ct in burned then before else before + {ct};
    }
  }

  lemma WindowsAreClosings(burned: set<CloseTime>, rows: seq<Row>)
    ensures CountKept(burned, Windows(rows)) == |set i | 0 <= i < |rows| && rows[i].closeTime !in burned :: rows[i].closeTime|
    ensures BurnedIn(burned, Windows(rows)) == set i | 0 <= i < |rows| && rows[i].closeTime in burned :: rows[i].closeTime
  {
    var order := Windows(rows);
    WindowsDistinct(rows);
    KeptAreCounted(burned, order);
    forall ct | ct in order
      ensures exists i :: 0 <= i < |rows| && rows[i].closeTime == ct
    {
      var i := WindowsOnly(rows, ct);
    }
    forall i | 0 <= i < |rows|
      ensures rows[i].closeTime in order
    {
      WindowsMembers(rows, i);
    }
    assert (set ct | ct in order && ct !in burned) ==
           set i | 0 <= i < |rows| && rows[i].closeTime !in burned :: rows[i].closeTime;
  }

  lemma DisagreesIff(rows: seq<Row>, n: nat)
    requires n < |rows|
    ensures DisagreesAt(rows, n) <==> ReachesTest(rows[..n], rows[n]) && Diverges(rows[n])
  {
    var r := rows[n];
    var w := WindowRows(rows[..n], r.closeTime);
    var k := FirstForAt(SubDollarFlip, w);
    if k < 0 {
      forall j | 0 <= j < n && rows[j].closeTime == r.closeTime
        ensures !SubDollarRow(rows[j])
      {
        assert rows[..n][j] == rows[j];
        WindowRowsMembers(rows[..n], r.closeTime, rows[j]);
        EnterableIff(0, rows[j]);
      }
    } else {
      WindowRowsMembers(rows[..n], r.closeTime, w[k]);
      var j :| 0 <= j < n && rows[..n][j] == w[k];
      EnterableIff(0, rows[j]);
      assert SubDollarRow(rows[j]);
    }
  }

  lemma DivergencesSnoc(before: seq<Row>, r: Row)
    ensures Divergences(before + [r]) == Divergences(before) + if ReachesTest(before, r) && Diverges(r) then 1 else 0
  {
    Snoc(before, r);
  }

  /** The positions before `n` that disagree. */
  ghost function Disagreements(rows: seq<Row>, n: nat): set<int> {
    set i | 0 <= i < n && DisagreesAt(rows, i)
  }

  lemma DisagreementsSnoc(rows: seq<Row>, n: nat)
    requires n < |rows|
    ensures |Disagreements(rows, n + 1)| ==
              |Disagreements(rows, n)| + if DisagreesAt(rows, n) then 1 else 0
  {
    assert Disagreements(rows, n + 1) == Disagreements(rows, n) + if DisagreesAt(rows, n) then {n} else {};
  }

  lemma {:induction false} DivergencesAreCounted(rows: seq<Row>, n: nat)
    requires n <= |rows|
    ensures Divergences(rows[..n]) == |Disagreements(rows, n)|
  {
    if n == 0 {
      assert Disagreements(rows, 0) == {};
    } else {
      DivergencesAreCounted(rows, n - 1);
      DisagreesIff(rows, n - 1);
      DisagreementsSnoc(rows, n - 1);
      DivergencesSnoc(rows[..n - 1], rows[n - 1]);
      assert rows[..n] == rows[..n - 1] + [rows[n - 1]];
    }
  }

  /** The grouped report says what the rows say. */
  lemma BatchReports(burned: set<CloseTime>, rows: seq<Row>)
    ensures Reports(burned, rows, BatchReport(burned, rows))
  {
    var at := WinnersListed(burned, rows, |rows|);
    WindowsAreClosings(burned, rows);
    DivergencesAreCounted(rows, |rows|);
    assert rows[..|rows|] == rows;
  }

  lemma NoneDisagrees(rows: seq<Row>)
    ensures Divergences(rows) == 0 <==> forall i :: 0 <= i < |rows| ==> !DisagreesAt(rows, i)
  {
    DivergencesAreCounted(rows, |rows|);
    assert rows[..|rows|] == rows;
    var all := set i | 0 <= i < |rows| && DisagreesAt(rows, i);
    if Divergences(rows) == 0 {
      forall i | 0 <= i < |rows|
        ensures !DisagreesAt(rows, i)
      {
        assert i !in all;
      }
    } else {
      assert all != {};
      var i :| i in all;
    }
  }

  /** The files are accepted: no window is left and reopened and, in strict mode, no row disagrees. */
  ghost predicate Accepted(strict: bool, rows: seq<Row>) {
    && (forall i, j, k :: 0 <= i < j < k < |rows| && rows[i].closeTime == rows[k].closeTime ==>
          rows[j].closeTime == rows[i].closeTime)
    && (strict ==> forall i :: 0 <= i < |rows| ==> !DisagreesAt(rows, i))
  }

  /** Streaming equals batch, however the rows are split into files: the one-pass evaluation
      succeeds exactly on contiguous streams (without divergence in strict mode), and then
      reports what grouping all rows by window and taking each window's winner reports. */
  method EvaluateFiles(burned: set<CloseTime>, strict: bool, files: seq<seq<Row>>) returns (report: Option<Report>)
    ensures report.Some? <==> Contiguous(Concat(files)) && (strict ==> Divergences(Concat(files)) == 0)
    ensures report.Some? ==> report.value == BatchReport(burned, Concat(files))
    ensures exists rows, cuts :: Laid(rows, files, cuts)
              && (report.Some? <==> Accepted(strict, rows)) && (report.Some? ==> Reports(burned, rows, report.value))
  {
    ghost var cuts := ConcatIsLaid(files);
    NoneDisagrees(Concat(files));
    BatchReports(burned, Concat(files));
    BlocksAreContiguous(Concat(files));
    ReplayIsSound(burned, strict, Concat(files));
    var evaluator := new PolicyEvaluator(burned, strict);
    var fedAll := evaluator.FeedFiles(files);
    if !fedAll {
      return None;
    }
    var result := evaluator.Finalize();
    return Some(result);
  }

  // ----- What a winner is -----

  /** Each direction's rows run forward in time. */
  ghost predicate Descending(w: seq<Row>) {
    forall i, j :: 0 <= i < j < |w| && w[i].direction == w[j].direction ==> w[i].tMinus >= w[j].tMinus
  }

  /** `e` is made at an enterable row, with no enterable row before it in time and no strangle at the same
      time unless it is one. */
  ghost predicate EarliestEntry(w: seq<Row>, q: int, e: Entry) {
    exists r :: r in w && Enterable(q, r)
      && e == Entry(r.payoff, r.C, r.pin, q,
                    if r.direction == Strangle then Q1Strangle else if q == 4 then Q5Flip else SubDollarFlip, r.date)
      && forall other :: other in w && Enterable(q, other) ==>
           other.tMinus < r.tMinus || (other.tMinus == r.tMinus && (other.direction == Flip || r.direction == Strangle))
  }

  /** A window is entered exactly when it has an enterable row, and then at the earliest one. */
  lemma WinnerIsEarliest(w: seq<Row>)
    requires w != [] && OneWindow(w) && Descending(w)
    ensures Winner(w).Some? <==> exists r :: r in w && Enterable(w[0].quintile, r)
    ensures Winner(w).Some? ==> EarliestEntry(w, w[0].quintile, Winner(w).value)
  {
    WinnerIsEntered(w);
    if Winner(w).Some? {
      var k: nat :| EnteredAt(w, 0, k, Winner(w).value);
      EnteredIsEarliest(w, k, Winner(w).value);
      assert w[k] in w;
    }
  }

  // ----- Accounting -----

  lemma {:induction false} KeptAndBurned(burned: set<CloseTime>, order: seq<CloseTime>)
    requires forall i, j :: 0 <= i < j < |order| ==> order[i] != order[j]
    ensures CountKept(burned, order) + |BurnedIn(burned, order)| == |order|
  {
    if order == [] {
      assert BurnedIn(burned, order) == {};
    } else {
      var rest, ct := order[..|order| - 1], order[|order| - 1];
      assert order == rest + [ct];
      KeptAndBurned(burned, rest);
      CountsSnoc(burned, rest, ct);
      assert ct !in BurnedIn(burned, rest);
    }
  }

  /** Eligible and burned windows together are exactly the distinct windows of the stream. */
  lemma WindowsAreAccounted(burned: set<CloseTime>, rows: seq<Row>)
    ensures var report := BatchReport(burned, rows);
            report.eligible + |report.burnedExcluded| == |Windows(rows)|
  {
    WindowsDistinct(rows);
    KeptAndBurned(burned, Windows(rows));
  }

  function CountSource(entries: seq<Entry>, src: Source): nat {
    |Filter((e: Entry) => e.source == src, entries)|
  }

  ghost predicate AllRouted(entries: seq<Entry>) {
    forall i :: 0 <= i < |entries| ==> Routed(entries[i].quintile, entries[i].source)
  }

  lemma DecideRoutes(quintile: int, strangle: Option<Row>, sub: Option<Row>, flipEv: Option<Row>)
    ensures var e := Decide(quintile, strangle, sub, flipEv);
            e.Some? ==> e.value.quintile == quintile && Routed(quintile, e.value.source)
  {}

  lemma {:induction false} WinnersRoute(burned: set<CloseTime>, order: seq<CloseTime>, rows: seq<Row>)
    ensures AllRouted(Winners(burned, order, rows))
  {
    if order == [] {
    } else {
      WinnersRoute(burned, order[..|order| - 1], rows);
      var w := WindowRows(rows, order[|order| - 1]);
      if w != [] {
        DecideRoutes(w[0].quintile, FirstFor(Q1Strangle, w), FirstFor(SubDollarFlip, w), FirstFor(Q5Flip, w));
      }
    }
  }

  lemma {:induction false} SourcesSum(entries: seq<Entry>)
    ensures CountSource(entries, Q1Strangle) + CountSource(entries, SubDollarFlip) + CountSource(entries, Q5Flip)
              == |entries|
  {
    if entries == [] {
    } else {
      SourcesSum(entries[..|entries| - 1]);
    }
  }

  /** Every entry carries a source its quintile routes to, so the three source counts partition
      the entries and the top quintile never holds a sub-$1 entry. */
  lemma SourcesPartition(burned: set<CloseTime>, rows: seq<Row>)
    ensures var entries := BatchReport(burned, rows).entries;
            && CountSource(entries, Q1Strangle) + CountSource(entries, SubDollarFlip)
                 + CountSource(entries, Q5Flip) == |entries|
            && (forall i :: 0 <= i < |entries| && entries[i].source == Q1Strangle ==> entries[i].quintile == 0)
            && (forall i :: 0 <= i < |entries| && entries[i].source == SubDollarFlip ==> 0 <= entries[i].quintile <= 3)
            && (forall i :: 0 <= i < |entries| ==> (entries[i].source == Q5Flip <==> entries[i].quintile == 4))
  {
    SourcesSum(BatchReport(burned, rows).entries);
    WinnersRoute(burned, Windows(rows), rows);
  }
}
