/** The surface aggregator (claudes-corner/viz/aggregate.py): one pass over the tape rows fills a
    grid of cells, remembering for each window only how far up the margin ladder it has entered. */
module Surface {
  import opened Sequences
  import opened Policy

  const TOP_X := 30
  const SUB1 := 31
  const ALL_BUCKET := 15

  /** Whole minutes remaining, with everything above fourteen in the last bucket. */
  function MinuteBucket(tMinus: real): int {
    var m := (tMinus / 60.0).Floor;
    if m > 14 then 14 else m
  }

  function Age(r: Row): real {
    if r.highAge >= r.lowAge then r.highAge else r.lowAge
  }

  /** The cumulative freshness brackets: at most 1 s, at most 5 s, any. */
  predicate InBracket(r: Row, bracket: int) {
    match bracket
    case 0 => Age(r) <= 1.0
    case 1 => Age(r) <= 5.0
    case 2 => true
    case _ => false
  }

  predicate InBucket(r: Row, bucket: int) {
    bucket == MinuteBucket(r.tMinus) || bucket == ALL_BUCKET
  }

  /** The highest margin, in whole cents up to 30, that the row's EV reaches; -1 below zero. */
  function XHi(r: Row): int {
    var x := if r.ev >= 0.0 then (r.ev * 100.0 + 0.000000001).Floor else -1;
    if x > TOP_X then TOP_X else x
  }

  predicate IsSub1(r: Row) {
    r.direction.Flip? && r.C < 1.0
  }

  /** The row qualifies for slot `x`: margins 0..30 by EV, slot 31 by cost. */
  predicate Reaches(r: Row, x: int) {
    if x == SUB1 then IsSub1(r) else 0 <= x <= XHi(r)
  }

  predicate Enters(r: Row, bracket: int, bucket: int, x: int) {
    InBracket(r, bracket) && InBucket(r, bucket) && Reaches(r, x)
  }

  datatype CoverKey = CoverKey(d: Direction, bracket: int, ct: CloseTime, bucket: int)
  datatype CellKey = CellKey(d: Direction, bracket: int, quintile: int, bucket: int, x: int)
  datatype Cell = Cell(n: nat, pay: real, pins: nat)

  const EMPTY := Cell(0, 0.0, 0)

  function Add(c: Cell, r: Row): Cell {
    Cell(c.n + 1, c.pay + r.payoff, c.pins + if r.pin then 1 else 0)
  }

  function At(cells: map<CellKey, Cell>, k: CellKey): Cell {
    if k in cells then cells[k] else EMPTY
  }

  // ----- The naive definition -----

  /** Some row before `n` of this window and direction already entered slot `x`. */
  ghost predicate Entered(rows: seq<Row>, n: nat, key: CoverKey, x: int)
    requires n <= |rows|
  {
    exists j :: 0 <= j < n && rows[j].direction == key.d && rows[j].closeTime == key.ct
                && Enters(rows[j], key.bracket, key.bucket, x)
  }

  /** Row `i` is the first of its window to enter the cell. */
  ghost predicate FirstInto(rows: seq<Row>, i: nat, k: CellKey)
    requires i < |rows|
  {
    var r := rows[i];
    && r.direction == k.d && r.quintile == k.quintile && Enters(r, k.bracket, k.bucket, k.x)
    && !Entered(rows, i, CoverKey(k.d, k.bracket, r.closeTime, k.bucket), k.x)
  }

  /** The cell holds, over the windows, the first row that qualifies for it. */
  ghost function NaiveCell(rows: seq<Row>, n: nat, k: CellKey): Cell
    requires n <= |rows|
  {
    if n == 0 then EMPTY
    else if FirstInto(rows, n - 1, k) then Add(NaiveCell(rows, n - 1, k), rows[n - 1])
    else NaiveCell(rows, n - 1, k)
  }

  // ----- The one-pass algorithm -----

  datatype Pass = Pass(covered: map<CoverKey, int>, sub1Done: set<CoverKey>, cells: map<CellKey, Cell>)

  function Covered(p: Pass, key: CoverKey): int {
    if key in p.covered then p.covered[key] else -1
  }

  /** What the compressed memory says about one slot. */
  predicate Remembers(p: Pass, key: CoverKey, x: int) {
    if x == SUB1 then key in p.sub1Done else 0 <= x <= Covered(p, key)
  }

  type Pair = (int, int)

  /** How many rows are accounted for in a (bracket, bucket) pair while row `n` is under way. */
  function Limit(n: nat, done: set<Pair>, bracket: int, bucket: int): nat {
    if (bracket, bucket) in done then n + 1 else n
  }

  ghost predicate MemoryOk(rows: seq<Row>, n: nat, done: set<Pair>, p: Pass)
    requires n <= |rows| && (done != {} ==> n < |rows|)
  {
    forall key: CoverKey, x: int {:trigger Remembers(p, key, x)} ::
      Remembers(p, key, x) <==> Entered(rows, Limit(n, done, key.bracket, key.bucket), key, x)
  }

  ghost predicate CellsOk(rows: seq<Row>, n: nat, done: set<Pair>, p: Pass)
    requires n <= |rows| && (done != {} ==> n < |rows|)
  {
    forall k: CellKey {:trigger At(p.cells, k)} ::
      At(p.cells, k) == NaiveCell(rows, Limit(n, done, k.bracket, k.bucket), k)
  }

  predicate Bounded(p: Pass) {
    forall key :: key in p.covered ==> -1 <= p.covered[key] <= TOP_X
  }

  /** The fills of one touch: slots `lo..hi` of the row's own cells get the row added. */
  method Fill(cells: map<CellKey, Cell>, r: Row, bracket: int, bucket: int, lo: int, hi: int)
    returns (cells': map<CellKey, Cell>)
    ensures forall k: CellKey ::
              At(cells', k) ==
                if k.d == r.direction && k.bracket == bracket && k.quintile == r.quintile && k.bucket == bucket
                     && lo <= k.x <= hi
                then Add(At(cells, k), r) else At(cells, k)
  {
    cells' := cells;
    var x := lo;
    while x <= hi
      invariant lo <= x
      invariant lo <= hi + 1 ==> x <= hi + 1
      invariant forall k: CellKey ::
                  At(cells', k) ==
                    if k.d == r.direction && k.bracket == bracket && k.quintile == r.quintile && k.bucket == bucket
                         && lo <= k.x < x && k.x <= hi
                    then Add(At(cells, k), r) else At(cells, k)
    {
      var k := CellKey(r.direction, bracket, r.quintile, bucket, x);
      cells' := cells'[k := Add(At(cells', k), r)];
      x := x + 1;
    }
  }

  /** One (bracket, bucket) of one row. */
  method Touch(p: Pass, r: Row, bracket: int, bucket: int) returns (p': Pass)
    requires Bounded(p)
    ensures Bounded(p')
    ensures Touched(p, p', r, bracket, bucket)
  {
    var key := CoverKey(r.direction, bracket, r.closeTime, bucket);
    p' := p;
    var k := Covered(p, key);
    if XHi(r) > k {
      var cells := Fill(p.cells, r, bracket, bucket, k + 1, XHi(r));
      p' := p'.(covered := p'.covered[key := XHi(r)], cells := cells);
    }
    if IsSub1(r) && key !in p.sub1Done {
      var cells := Fill(p'.cells, r, bracket, bucket, SUB1, SUB1);
      p' := p'.(sub1Done := p'.sub1Done + {key}, cells := cells);
    }
  }

  /** What `Touch` does to memory and cells, as a relation. */
  ghost predicate Touched(p: Pass, p': Pass, r: Row, bracket: int, bucket: int) {
    var own := CoverKey(r.direction, bracket, r.closeTime, bucket);
    && (forall key: CoverKey, x: int ::
          Remembers(p', key, x) <==> Remembers(p, key, x) || (key == own && Reaches(r, x)))
    && (forall k: CellKey ::
          At(p'.cells, k) ==
            if k.d == r.direction && k.bracket == bracket && k.quintile == r.quintile && k.bucket == bucket
                 && Reaches(r, k.x) && !Remembers(p, own, k.x)
            then Add(At(p.cells, k), r) else At(p.cells, k))
  }

  lemma EnteredStep(rows: seq<Row>, n: nat, key: CoverKey, x: int)
    requires n < |rows|
    ensures Entered(rows, n + 1, key, x) <==>
              Entered(rows, n, key, x) ||
              (rows[n].direction == key.d && rows[n].closeTime == key.ct && Enters(rows[n], key.bracket, key.bucket, x))
  {}

  lemma MemoryStep(rows: seq<Row>, n: nat, done: set<Pair>, p: Pass, p': Pass, bracket: int, bucket: int)
    requires n < |rows| && (bracket, bucket) !in done
    requires InBracket(rows[n], bracket) && InBucket(rows[n], bucket)
    requires MemoryOk(rows, n, done, p) && Touched(p, p', rows[n], bracket, bucket)
    ensures MemoryOk(rows, n, done + {(bracket, bucket)}, p')
  {
    forall key: CoverKey, x: int
      ensures Remembers(p', key, x) <==>
                Entered(rows, Limit(n, done + {(bracket, bucket)}, key.bracket, key.bucket), key, x)
    {
      assert Remembers(p, key, x) <==> Entered(rows, Limit(n, done, key.bracket, key.bucket), key, x);
      EnteredStep(rows, n, key, x);
    }
  }

  lemma CellsStep(rows: seq<Row>, n: nat, done: set<Pair>, p: Pass, p': Pass, bracket: int, bucket: int)
    requires n < |rows| && (bracket, bucket) !in done
    requires InBracket(rows[n], bracket) && InBucket(rows[n], bucket)
    requires MemoryOk(rows, n, done, p) && CellsOk(rows, n, done, p) && Touched(p, p', rows[n], bracket, bucket)
    ensures CellsOk(rows, n, done + {(bracket, bucket)}, p')
  {
    var own := CoverKey(rows[n].direction, bracket, rows[n].closeTime, bucket);
    forall k: CellKey
      ensures At(p'.cells, k) == NaiveCell(rows, Limit(n, done + {(bracket, bucket)}, k.bracket, k.bucket), k)
    {
      assert At(p.cells, k) == NaiveCell(rows, Limit(n, done, k.bracket, k.bucket), k);
      assert Remembers(p, own, k.x) <==> Entered(rows, n, own, k.x);
    }
  }

  function Brackets(r: Row): seq<int> {
    if Age(r) <= 1.0 then [0, 1, 2] else if Age(r) <= 5.0 then [1, 2] else [2]
  }

  lemma BracketsMatch(r: Row)
    ensures forall br :: br in Brackets(r) <==> InBracket(r, br)
  {}

  /** Once every pair a row touches is done, the row is done. */
  lemma RowDone(rows: seq<Row>, n: nat, done: set<Pair>, p: Pass)
    requires n < |rows|
    requires forall br, b :: (br, b) in done <==> InBracket(rows[n], br) && InBucket(rows[n], b)
    requires MemoryOk(rows, n, done, p) && CellsOk(rows, n, done, p)
    ensures MemoryOk(rows, n + 1, {}, p) && CellsOk(rows, n + 1, {}, p)
  {
    forall key: CoverKey, x: int
      ensures Remembers(p, key, x) <==> Entered(rows, n + 1, key, x)
    {
      assert Remembers(p, key, x) <==> Entered(rows, Limit(n, done, key.bracket, key.bucket), key, x);
      EnteredStep(rows, n, key, x);
    }
    forall k: CellKey
      ensures At(p.cells, k) == NaiveCell(rows, n + 1, k)
    {
      assert At(p.cells, k) == NaiveCell(rows, Limit(n, done, k.bracket, k.bucket), k);
    }
  }

  method TouchPair(rows: seq<Row>, n: nat, ghost done: set<Pair>, p: Pass, bracket: int, bucket: int) returns (p': Pass)
    requires n < |rows| && (bracket, bucket) !in done
    requires InBracket(rows[n], bracket) && InBucket(rows[n], bucket)
    requires Bounded(p) && MemoryOk(rows, n, done, p) && CellsOk(rows, n, done, p)
    ensures Bounded(p') && MemoryOk(rows, n, done + {(bracket, bucket)}, p') && CellsOk(rows, n, done + {(bracket, bucket)}, p')
  {
    p' := Touch(p, rows[n], bracket, bucket);
    MemoryStep(rows, n, done, p, p', bracket, bucket);
    CellsStep(rows, n, done, p, p', bracket, bucket);
  }

  /** One row: every bracket it is fresh enough for, in its minute bucket and in ALL. */
  method FoldRow(rows: seq<Row>, n: nat, p: Pass) returns (p': Pass)
    requires n < |rows| && Bounded(p) && MemoryOk(rows, n, {}, p) && CellsOk(rows, n, {}, p)
    ensures Bounded(p') && MemoryOk(rows, n + 1, {}, p') && CellsOk(rows, n + 1, {}, p')
  {
    var r := rows[n];
    var brackets, mb := Brackets(r), MinuteBucket(r.tMinus);
    ghost var done: set<Pair> := {};
    BracketsMatch(r);
    p' := p;
    var i := 0;
    while i < |brackets|
      invariant 0 <= i <= |brackets|
      invariant forall br, b :: (br, b) in done <==> br in brackets[..i] && InBucket(r, b)
      invariant Bounded(p') && MemoryOk(rows, n, done, p') && CellsOk(rows, n, done, p')
    {
      p' := TouchPair(rows, n, done, p', brackets[i], mb);
      done := done + {(brackets[i], mb)};
      p' := TouchPair(rows, n, done, p', brackets[i], ALL_BUCKET);
      done := done + {(brackets[i], ALL_BUCKET)};
      i := i + 1;
    }
    assert brackets[..|brackets|] == brackets;
    RowDone(rows, n, done, p');
  }

  // ----- The cells in plain terms -----

  /** The row qualifies for the cell: both ages within 1 s, 5 s or any; the minute before settlement,
      the fifteenth and earlier ones together, or any; an EV of at least `x` cents, never below zero, or,
      in slot 31, a flip under $1. */
  predicate QualifiesFor(r: Row, k: CellKey) {
    && r.direction == k.d
    && (|| (k.bracket == 0 && r.highAge <= 1.0 && r.lowAge <= 1.0)
        || (k.bracket == 1 && r.highAge <= 5.0 && r.lowAge <= 5.0)
        || k.bracket == 2)
    && (|| (k.bucket < 14 && 60.0 * k.bucket as real <= r.tMinus < 60.0 * k.bucket as real + 60.0)
        || (k.bucket == 14 && r.tMinus >= 840.0)
        || k.bucket == 15)
    && (|| (0 <= k.x <= 30 && r.ev >= 0.0 && r.ev * 100.0 + 0.000000001 >= k.x as real)
        || (k.x == 31 && r.direction == Flip && r.C < 1.0))
  }

  /** Row `i` counts in the cell: of the cell's quintile, and the first of its window to qualify. */
  ghost predicate CountsIn(rows: seq<Row>, k: CellKey, i: nat) {
    && i < |rows| && rows[i].quintile == k.quintile && QualifiesFor(rows[i], k)
    && forall j :: 0 <= j < i && rows[j].closeTime == rows[i].closeTime ==> !QualifiesFor(rows[j], k)
  }

  ghost function CountsAt(rows: seq<Row>, k: CellKey): nat -> bool {
    (i: nat) => CountsIn(rows, k, i)
  }

  ghost function RowAt(rows: seq<Row>): (nat, Row) -> bool {
    (i: nat, r: Row) => i < |rows| && r == rows[i]
  }

  /** The cell holds the number, the payoffs and the pins of the rows that count in it. */
  ghost predicate CellTells(rows: seq<Row>, k: CellKey, c: Cell) {
    exists at: seq<nat>, counted: seq<Row> ::
      && Lists(|rows|, CountsAt(rows, k), RowAt(rows), at, counted)
      && c.n == |counted|
      && c.pay == Sum((r: Row) => r.payoff, counted)
      && c.pins == |set i | 0 <= i < |counted| && counted[i].pin|
  }

  lemma FloorAtLeast(v: real, n: int)
    ensures v.Floor >= n <==> v >= n as real
  {}

  lemma BucketIff(r: Row, bucket: int)
    ensures InBucket(r, bucket) <==>
              || (bucket < 14 && 60.0 * bucket as real <= r.tMinus < 60.0 * bucket as real + 60.0)
              || (bucket == 14 && r.tMinus >= 840.0)
              || bucket == 15
  {
    FloorAtLeast(r.tMinus / 60.0, bucket);
    FloorAtLeast(r.tMinus / 60.0, bucket + 1);
    FloorAtLeast(r.tMinus / 60.0, 14);
  }

  lemma ReachesIff(r: Row, x: int)
    ensures Reaches(r, x) <==>
              || (0 <= x <= 30 && r.ev >= 0.0 && r.ev * 100.0 + 0.000000001 >= x as real)
              || (x == 31 && r.direction == Flip && r.C < 1.0)
  {
    FloorAtLeast(r.ev * 100.0 + 0.000000001, x);
  }

  lemma QualifiesIff(r: Row, k: CellKey)
    ensures QualifiesFor(r, k) <==> r.direction == k.d && Enters(r, k.bracket, k.bucket, k.x)
  {
    BucketIff(r, k.bucket);
    ReachesIff(r, k.x);
  }

  lemma CountsIff(rows: seq<Row>, i: nat, k: CellKey)
    requires i < |rows|
    ensures CountsIn(rows, k, i) <==> FirstInto(rows, i, k)
  {
    forall j | 0 <= j <= i
      ensures QualifiesFor(rows[j], k) <==> rows[j].direction == k.d && Enters(rows[j], k.bracket, k.bucket, k.x)
    {
      QualifiesIff(rows[j], k);
    }
  }

  lemma {:induction false} NaiveIsListed(rows: seq<Row>, n: nat, k: CellKey) returns (at: seq<nat>, counted: seq<Row>)
    requires n <= |rows|
    ensures Lists(n, CountsAt(rows, k), RowAt(rows), at, counted)
    ensures NaiveCell(rows, n, k) ==
              Cell(|counted|, Sum((r: Row) => r.payoff, counted), |Filter((r: Row) => r.pin, counted)|)
  {
    if n == 0 {
      at, counted := [], [];
    } else {
      at, counted := NaiveIsListed(rows, n - 1, k);
      CountsIff(rows, n - 1, k);
      if FirstInto(rows, n - 1, k) {
        ListsMore(n - 1, CountsAt(rows, k), RowAt(rows), at, counted, rows[n - 1]);
        SumSnoc((r: Row) => r.payoff, counted, rows[n - 1]);
        FilterSnoc((r: Row) => r.pin, counted, rows[n - 1]);
        at, counted := at + [n - 1], counted + [rows[n - 1]];
      } else {
        ListsSame(n - 1, CountsAt(rows, k), RowAt(rows), at, counted);
      }
    }
  }

  lemma NaiveTells(rows: seq<Row>, k: CellKey)
    ensures CellTells(rows, k, NaiveCell(rows, |rows|, k))
  {
    var at, counted := NaiveIsListed(rows, |rows|, k);
    FilterCount((r: Row) => r.pin, counted);
    assert Kept((r: Row) => r.pin, counted) == set i | 0 <= i < |counted| && counted[i].pin;
  }

  /** The compressed one-pass aggregation computes exactly the naive cells. */
  method Aggregate(rows: seq<Row>) returns (cells: map<CellKey, Cell>)
    ensures forall k: CellKey :: At(cells, k) == NaiveCell(rows, |rows|, k)
    ensures forall k: CellKey :: CellTells(rows, k, if k in cells then cells[k] else Cell(0, 0.0, 0))
  {
    var p := Pass(map[], {}, map[]);
    var n := 0;
    while n < |rows|
      invariant 0 <= n <= |rows|
      invariant Bounded(p) && MemoryOk(rows, n, {}, p) && CellsOk(rows, n, {}, p)
    {
      p := FoldRow(rows, n, p);
      n := n + 1;
    }
    cells := p.cells;
    forall k: CellKey
      ensures At(cells, k) == NaiveCell(rows, |rows|, k)
    {
      assert At(p.cells, k) == NaiveCell(rows, Limit(|rows|, {}, k.bracket, k.bucket), k);
    }
    forall k: CellKey
      ensures CellTells(rows, k, if k in cells then cells[k] else Cell(0, 0.0, 0))
    {
      NaiveTells(rows, k);
      assert At(cells, k) == NaiveCell(rows, |rows|, k);
    }
  }

  // ----- Cells as sets of windows -----

  predicate SameWindow(a: Row, b: Row) {
    a.direction == b.direction && a.closeTime == b.closeTime
  }

  /** A window's rows of one direction all carry one quintile. */
  ghost predicate OneQuintile(rows: seq<Row>) {
    forall i, j :: 0 <= i < j < |rows| && SameWindow(rows[i], rows[j]) ==> rows[i].quintile == rows[j].quintile
  }

  predicate ReachesCell(r: Row, k: CellKey) {
    r.direction == k.d && r.quintile == k.quintile && Enters(r, k.bracket, k.bucket, k.x)
  }

  /** The windows with some row that qualifies for the cell. */
  ghost function ReachedBy(rows: seq<Row>, n: nat, k: CellKey): set<CloseTime>
    requires n <= |rows|
  {
    set i | 0 <= i < n && ReachesCell(rows[i], k) :: rows[i].closeTime
  }

  lemma FirstIffNew(rows: seq<Row>, i: nat, k: CellKey)
    requires i < |rows| && OneQuintile(rows) && ReachesCell(rows[i], k)
    ensures FirstInto(rows, i, k) <==> rows[i].closeTime !in ReachedBy(rows, i, k)
  {
    var key := CoverKey(k.d, k.bracket, rows[i].closeTime, k.bucket);
    if Entered(rows, i, key, k.x) {
      var j :| 0 <= j < i && rows[j].direction == key.d && rows[j].closeTime == key.ct
               && Enters(rows[j], key.bracket, key.bucket, k.x);
      assert SameWindow(rows[j], rows[i]);
      assert rows[j].closeTime in ReachedBy(rows, i, k);
    }
  }

  lemma ReachedStep(rows: seq<Row>, i: nat, k: CellKey)
    requires i < |rows|
    ensures ReachedBy(rows, i + 1, k)
              == ReachedBy(rows, i, k) + if ReachesCell(rows[i], k) then {rows[i].closeTime} else {}
  {}

  lemma AddedCount(s: set<CloseTime>, ct: CloseTime)
    ensures |s + {ct}| == |s| + if ct in s then 0 else 1
  {
    assert ct in s ==> s + {ct} == s;
  }

  lemma CountStep(rows: seq<Row>, i: nat, k: CellKey, before: set<CloseTime>)
    requires i < |rows| && OneQuintile(rows) && before == ReachedBy(rows, i, k)
    ensures |ReachedBy(rows, i + 1, k)| == |before| + if FirstInto(rows, i, k) then 1 else 0
  {
    ReachedStep(rows, i, k);
    if ReachesCell(rows[i], k) {
      FirstIffNew(rows, i, k);
      AddedCount(before, rows[i].closeTime);
    } else {
      assert before + {} == before;
    }
  }

  lemma {:induction false} CellCountsReached(rows: seq<Row>, n: nat, k: CellKey)
    requires n <= |rows| && OneQuintile(rows)
    ensures NaiveCell(rows, n, k).n == |ReachedBy(rows, n, k)|
  {
    if n == 0 {
      assert ReachedBy(rows, 0, k) == {};
    } else {
      CellCountsReached(rows, n - 1, k);
      CountStep(rows, n - 1, k, ReachedBy(rows, n - 1, k));
    }
  }

  /** A cell counts exactly the windows that ever qualify for it. */
  lemma CellCountsWindows(rows: seq<Row>, k: CellKey)
    requires OneQuintile(rows)
    ensures NaiveCell(rows, |rows|, k).n == |ReachedBy(rows, |rows|, k)|
  {
    CellCountsReached(rows, |rows|, k);
  }

  lemma SubsetCount(a: set<CloseTime>, b: set<CloseTime>)
    requires a <= b
    ensures |a| <= |b|
  {
    assert |b| == |a| + |b - a| by {
      assert b == a + (b - a);
    }
  }

  /** If every row entering `k` also enters `k'`, the count of `k` is at most that of `k'`. */
  lemma CountsGrow(rows: seq<Row>, k: CellKey, k': CellKey)
    requires OneQuintile(rows) && k.d == k'.d && k.quintile == k'.quintile
    requires forall i :: 0 <= i < |rows| && Enters(rows[i], k.bracket, k.bucket, k.x) ==>
               Enters(rows[i], k'.bracket, k'.bucket, k'.x)
    ensures NaiveCell(rows, |rows|, k).n <= NaiveCell(rows, |rows|, k').n
  {
    CellCountsWindows(rows, k);
    CellCountsWindows(rows, k');
    SubsetCount(ReachedBy(rows, |rows|, k), ReachedBy(rows, |rows|, k'));
  }

  /** Counts fall as the margin rises, rise with the freshness bracket, and no minute holds more
      windows than the whole window bucket. */
  lemma CountsAreMonotone(rows: seq<Row>, k: CellKey, x: int, bracket: int)
    requires OneQuintile(rows)
    ensures 0 <= x <= k.x <= TOP_X ==>
              NaiveCell(rows, |rows|, k).n <= NaiveCell(rows, |rows|, k.(x := x)).n
    ensures 0 <= k.bracket <= bracket <= 2 ==>
              NaiveCell(rows, |rows|, k).n <= NaiveCell(rows, |rows|, k.(bracket := bracket)).n
    ensures NaiveCell(rows, |rows|, k).n <= NaiveCell(rows, |rows|, k.(bucket := ALL_BUCKET)).n
  {
    if 0 <= x <= k.x <= TOP_X {
      CountsGrow(rows, k, k.(x := x));
    }
    if 0 <= k.bracket <= bracket <= 2 {
      CountsGrow(rows, k, k.(bracket := bracket));
    }
    CountsGrow(rows, k, k.(bucket := ALL_BUCKET));
  }

  /** The windows of minutes 0..m-1, and the sum of their counts. */
  ghost function MinutesSum(rows: seq<Row>, k: CellKey, m: nat): nat {
    if m == 0 then 0
    else MinutesSum(rows, k, m - 1) + NaiveCell(rows, |rows|, k.(bucket := m - 1)).n
  }

  ghost function MinutesUnion(rows: seq<Row>, k: CellKey, m: nat): set<CloseTime> {
    if m == 0 then {}
    else MinutesUnion(rows, k, m - 1) + ReachedBy(rows, |rows|, k.(bucket := m - 1))
  }

  lemma UnionCount(a: set<CloseTime>, b: set<CloseTime>)
    ensures |a + b| <= |a| + |b|
  {
    assert a + b == a + (b - a);
    SubsetCount(b - a, b);
  }

  lemma {:induction false} UnionBelowSum(rows: seq<Row>, k: CellKey, m: nat)
    requires OneQuintile(rows)
    ensures |MinutesUnion(rows, k, m)| <= MinutesSum(rows, k, m)
  {
    if m == 0 {
    } else {
      UnionBelowSum(rows, k, m - 1);
      UnionCount(MinutesUnion(rows, k, m - 1), ReachedBy(rows, |rows|, k.(bucket := m - 1)));
      CellCountsWindows(rows, k.(bucket := m - 1));
    }
  }

  lemma {:induction false} InUnion(rows: seq<Row>, k: CellKey, m: nat, b: nat)
    requires b < m
    ensures ReachedBy(rows, |rows|, k.(bucket := b)) <= MinutesUnion(rows, k, m)
  {
    if b < m - 1 {
      InUnion(rows, k, m - 1, b);
    }
  }

  lemma ReachedInMinute(rows: seq<Row>, k: CellKey, ct: CloseTime) returns (b: nat)
    requires k.bucket == ALL_BUCKET && ct in ReachedBy(rows, |rows|, k)
    requires forall i :: 0 <= i < |rows| ==> rows[i].tMinus >= 0.0
    ensures b <= 14 && ct in ReachedBy(rows, |rows|, k.(bucket := b))
  {
    var i :| 0 <= i < |rows| && ReachesCell(rows[i], k) && rows[i].closeTime == ct;
    b := MinuteBucket(rows[i].tMinus);
    assert ReachesCell(rows[i], k.(bucket := b));
  }

  /** Every window counted in ALL is counted in some minute. */
  lemma AllBelowMinutes(rows: seq<Row>, k: CellKey)
    requires OneQuintile(rows) && k.bucket == ALL_BUCKET
    requires forall i :: 0 <= i < |rows| ==> rows[i].tMinus >= 0.0
    ensures NaiveCell(rows, |rows|, k).n <= MinutesSum(rows, k, 15)
  {
    CellCountsWindows(rows, k);
    UnionBelowSum(rows, k, 15);
    forall ct | ct in ReachedBy(rows, |rows|, k)
      ensures ct in MinutesUnion(rows, k, 15)
    {
      var b := ReachedInMinute(rows, k, ct);
      InUnion(rows, k, 15, b);
    }
    SubsetCount(ReachedBy(rows, |rows|, k), MinutesUnion(rows, k, 15));
  }

  /** On EVs written with six decimals the margin test is exactly "at least x cents": the
      tolerance only absorbs float error. */
  lemma MarginIsExact(r: Row, millionths: int, x: int)
    requires r.ev == millionths as real / 1000000.0 && 0 <= x <= TOP_X
    ensures Reaches(r, x) <==> r.ev >= x as real / 100.0
  {
    assert r.ev * 100.0 == millionths as real / 10000.0;
    if millionths >= 10000 * x {
      assert r.ev * 100.0 + 0.000000001 >= x as real;
    } else {
      assert millionths + 1 <= 10000 * x;
      assert r.ev * 100.0 + 0.000000001 < x as real;
    }
  }
}
