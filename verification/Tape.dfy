/** The tape walk (sim/tape_sim.py): one window, one direction.

    Two streams of prints, one for each leg of the pair, are merged in time order. A SAME print
    is a fill on the side being bought and sets the price carried for its leg. An OPP print is
    an opposite-side fill whose implied bid can only refute a carried price. A moment is a SAME
    fill inside the last fifteen minutes while the other leg is live. */
module Tape {
  import opened Sequences

  const WINDOW_S := 900.0

  datatype Leg = High | Low
  datatype Kind = Same | Opp

  /** One entry of a leg's stream: for an OPP print `price` is the implied bid. */
  datatype Tick = Tick(ts: real, kind: Kind, price: real)

  datatype Print = Print(ts: real, leg: Leg, kind: Kind, price: real)

  function Other(leg: Leg): Leg {
    if leg.High? then Low else High
  }

  // ----- Merging the two streams -----

  function Tag(leg: Leg, ticks: seq<Tick>): (prints: seq<Print>)
    ensures |prints| == |ticks|
  {
    seq(|ticks|, i requires 0 <= i < |ticks| => Print(ticks[i].ts, leg, ticks[i].kind, ticks[i].price))
  }

  /** The sort key order: time first, and at one instant OPP before SAME. */
  predicate Precedes(a: Print, b: Print) {
    a.ts < b.ts || (a.ts == b.ts && (a.kind.Opp? || b.kind.Same?))
  }

  predicate Sorted(m: seq<Print>) {
    forall i, j :: 0 <= i < j < |m| ==> Precedes(m[i], m[j])
  }

  /** Put `x` after every print it does not strictly precede: one step of a stable sort. */
  function Insert(m: seq<Print>, x: Print): (r: seq<Print>)
    ensures multiset(r) == multiset(m) + multiset{x}
  {
    if m == [] || Precedes(m[|m| - 1], x) then
      m + [x]
    else
      var r := Insert(m[..|m| - 1], x) + [m[|m| - 1]];
      assert m == m[..|m| - 1] + [m[|m| - 1]];
      r
  }

  function Sort(m: seq<Print>): (r: seq<Print>)
    ensures multiset(r) == multiset(m)
  {
    if m == [] then
      []
    else
      assert m == m[..|m| - 1] + [m[|m| - 1]];
      Insert(Sort(m[..|m| - 1]), m[|m| - 1])
  }

  predicate IsSame(p: Print) {
    p.kind.Same?
  }

  /** The prints the walk scans: tagged, optionally without OPP prints, sorted, none after `T`. */
  function Merged(T: real, high: seq<Tick>, low: seq<Tick>, refute: bool): seq<Print> {
    var all := Tag(High, high) + Tag(Low, low);
    var kept := if refute then all else Filter(IsSame, all);
    Filter((p: Print) => p.ts <= T, Sort(kept))
  }

  lemma {:induction false} InsertKeepsSorted(m: seq<Print>, x: Print)
    requires Sorted(m)
    ensures Sorted(Insert(m, x))
  {
    if m != [] && !Precedes(m[|m| - 1], x) {
      var m', last := m[..|m| - 1], m[|m| - 1];
      InsertKeepsSorted(m', x);
      var r := Insert(m', x);
      forall i | 0 <= i < |r|
        ensures Precedes(r[i], last)
      {
        assert r[i] in multiset(r);
        assert r[i] in m' || r[i] == x;
      }
    }
  }

  lemma {:induction false} SortIsSorted(m: seq<Print>)
    ensures Sorted(Sort(m))
  {
    if m == [] {
    } else {
      SortIsSorted(m[..|m| - 1]);
      InsertKeepsSorted(Sort(m[..|m| - 1]), m[|m| - 1]);
    }
  }

  lemma KeptPrecedes(keep: Print -> bool, m: seq<Print>, x: Print)
    requires Sorted(m) && (m == [] || Precedes(m[|m| - 1], x))
    ensures var f := Filter(keep, m); f == [] || Precedes(f[|f| - 1], x)
  {
    var f := Filter(keep, m);
    if f != [] {
      var y := f[|f| - 1];
      FilterMembers(keep, m, y);
      var i :| 0 <= i < |m| && m[i] == y;
      assert i < |m| - 1 ==> Precedes(y, m[|m| - 1]);
    }
  }

  /** Dropping prints before or after inserting makes no difference: the sort is stable. */
  lemma {:induction false} FilterInsert(keep: Print -> bool, m: seq<Print>, x: Print)
    requires Sorted(m)
    ensures Filter(keep, Insert(m, x)) == if keep(x) then Insert(Filter(keep, m), x) else Filter(keep, m)
  {
    if m == [] || Precedes(m[|m| - 1], x) {
      FilterSnoc(keep, m, x);
      KeptPrecedes(keep, m, x);
    } else {
      var m', last := m[..|m| - 1], m[|m| - 1];
      FilterInsert(keep, m', x);
      FilterSnoc(keep, Insert(m', x), last);
      if keep(last) && keep(x) {
        assert (Filter(keep, m') + [last])[..|Filter(keep, m')|] == Filter(keep, m');
      }
    }
  }

  lemma {:induction false} FilterSort(keep: Print -> bool, m: seq<Print>)
    ensures Filter(keep, Sort(m)) == Sort(Filter(keep, m))
  {
    if m == [] {
    } else {
      var m', x := m[..|m| - 1], m[|m| - 1];
      FilterSort(keep, m');
      SortIsSorted(m');
      FilterInsert(keep, Sort(m'), x);
      if keep(x) {
        assert (Filter(keep, m') + [x])[..|Filter(keep, m')|] == Filter(keep, m');
      }
    }
  }

  lemma {:induction false} FilterKeepsSorted(keep: Print -> bool, m: seq<Print>)
    requires Sorted(m)
    ensures Sorted(Filter(keep, m))
  {
    if m == [] {
    } else {
      var m' := m[..|m| - 1];
      FilterKeepsSorted(keep, m');
      var f := Filter(keep, m');
      forall i | 0 <= i < |f|
        ensures Precedes(f[i], m[|m| - 1])
      {
        FilterMembers(keep, m', f[i]);
      }
    }
  }

  /** The walk's hypotheses on its merged prints: sorted, and none after settlement. */
  ghost predicate Chronicle(T: real, m: seq<Print>) {
    Sorted(m) && forall i :: 0 <= i < |m| ==> m[i].ts <= T
  }

  lemma MergedIsChronicle(T: real, high: seq<Tick>, low: seq<Tick>, refute: bool)
    ensures Chronicle(T, Merged(T, high, low, refute))
  {
    var all := Tag(High, high) + Tag(Low, low);
    var kept := if refute then all else Filter(IsSame, all);
    SortIsSorted(kept);
    FilterKeepsSorted((p: Print) => p.ts <= T, Sort(kept));
    var m := Merged(T, high, low, refute);
    forall i | 0 <= i < |m|
      ensures m[i].ts <= T
    {
      FilterMembers((p: Print) => p.ts <= T, Sort(kept), m[i]);
    }
  }

  /** Turning refutation off scans exactly the SAME prints of the full scan, in its order. */
  lemma MergedWithoutRefutation(T: real, high: seq<Tick>, low: seq<Tick>)
    ensures Merged(T, high, low, false) == Filter(IsSame, Merged(T, high, low, true))
  {
    var all := Tag(High, high) + Tag(Low, low);
    FilterSort(IsSame, all);
    FilterCommutes(IsSame, (p: Print) => p.ts <= T, Sort(all));
  }

  // ----- What a moment is -----

  /** What a walk is told: settlement time, fair values, what the pair settles at, the staleness bound
      and what a pair of prices costs. Nothing here depends on the cost law. */
  datatype Terms = Terms(
    T: real, fair: real, fairLin: real, settle: real, staleness: real, cost: (real, real) -> real)

  datatype Event = Event(
    tMinus: real, fillSide: Leg, highPrice: real, lowPrice: real, highAge: real, lowAge: real,
    C: real, fair: real, fairLin: real, ev: real, evLin: real, payoff: real, hardFloor: bool,
    dwell: real)

  /** The position of the last SAME print on `leg` before position `i`, or -1. */
  ghost function Latest(m: seq<Print>, i: nat, leg: Leg): (k: int)
    requires i <= |m|
    ensures -1 <= k < i
    ensures k >= 0 ==> m[k].leg == leg && m[k].kind.Same?
    ensures forall j :: k < j < i && m[j].leg == leg ==> m[j].kind.Opp?
  {
    if i == 0 then -1
    else if m[i - 1].leg == leg && m[i - 1].kind.Same? then i - 1
    else Latest(m, i - 1, leg)
  }

  /** An OPP print after `k` and before `i` reached the price paid at `k`. */
  ghost predicate Refuted(m: seq<Print>, k: nat, i: nat)
    requires k < i <= |m|
  {
    exists j :: k < j < i && m[j].leg == m[k].leg && m[j].kind.Opp? && m[j].price >= m[k].price
  }

  ghost predicate Live(m: seq<Print>, i: nat, leg: Leg, now: real, staleness: real)
    requires i <= |m|
  {
    var k := Latest(m, i, leg);
    k >= 0 && now - m[k].ts <= staleness && !Refuted(m, k, i)
  }

  ghost predicate IsMoment(w: Terms, m: seq<Print>, i: nat)
    requires i < |m|
  {
    && m[i].kind.Same?
    && m[i].ts >= w.T - WINDOW_S
    && Live(m, i, Other(m[i].leg), m[i].ts, w.staleness)
  }

  /** A print that ends the state in which `hp` and `lp` are carried. */
  predicate Ends(p: Print, hp: real, lp: real) {
    p.kind.Same? || p.price >= if p.leg.High? then hp else lp
  }

  /** The time of the first print from `j` on that ends the carried state, or `T`. */
  function EndTime(m: seq<Print>, j: nat, hp: real, lp: real, T: real): real
    requires j <= |m|
    decreases |m| - j
  {
    if j == |m| then T
    else if Ends(m[j], hp, lp) then m[j].ts
    else EndTime(m, j + 1, hp, lp, T)
  }

  function Min(a: real, b: real): real {
    if a <= b then a else b
  }

  datatype Carry = Carry(ts: real, price: real)

  /** The event of a fill while `h` and `l` are carried and the state ends at `end`. */
  function EventOf(w: Terms, fill: Print, h: Carry, l: Carry, end: real): Event {
    var C := w.cost(h.price, l.price);
    var stop := Min(Min(end, Min(h.ts, l.ts) + w.staleness), w.T);
    Event(
      w.T - fill.ts, fill.leg, h.price, l.price, fill.ts - h.ts, fill.ts - l.ts,
      C, w.fair, w.fairLin, w.fair - C, w.fairLin - C, w.settle - C, C < 1.0,
      stop - fill.ts)
  }

  /** The price carried for `leg` after `i` prints. */
  ghost function Held(m: seq<Print>, i: nat, leg: Leg): Carry
    requires i <= |m| && Latest(m, i, leg) >= 0
  {
    var k := Latest(m, i, leg);
    Carry(m[k].ts, m[k].price)
  }

  /** The event of the moment at `i`: both legs at their latest SAME prices. */
  ghost function EventAt(w: Terms, m: seq<Print>, i: nat): Event
    requires i < |m| && IsMoment(w, m, i)
  {
    var h, l := Held(m, i + 1, High), Held(m, i + 1, Low);
    EventOf(w, m[i], h, l, EndTime(m, i + 1, h.price, l.price, w.T))
  }

  /** The events of the moments before position `n`, in order. */
  ghost function Moments(w: Terms, m: seq<Print>, n: nat): seq<Event>
    requires n <= |m|
  {
    if n == 0 then []
    else if IsMoment(w, m, n - 1) then Moments(w, m, n - 1) + [EventAt(w, m, n - 1)]
    else Moments(w, m, n - 1)
  }

  ghost function Walk(w: Terms, m: seq<Print>): seq<Event> {
    Moments(w, m, |m|)
  }

  // ----- The scan -----

  /** What the scan knows of one leg after `i` prints. A refutation seen only once the carried
      price was stale is not recorded. */
  ghost predicate LegState(m: seq<Print>, i: nat, leg: Leg, staleness: real, carried: Option<Carry>, refuted: bool)
    requires i <= |m|
  {
    var k := Latest(m, i, leg);
    && carried == (if k < 0 then None else Some(Held(m, i, leg)))
    && (refuted ==> k >= 0 && Refuted(m, k, i))
    && (k >= 0 && Refuted(m, k, i) && !refuted ==>
          exists j :: k < j < i && m[j].ts - m[k].ts > staleness)
  }

  predicate LiveNow(carried: Option<Carry>, refuted: bool, now: real, staleness: real) {
    carried.Some? && !refuted && now - carried.value.ts <= staleness
  }

  /** The scan's own liveness test agrees with the declarative one, so the staleness guard on
      recording a refutation is never observed. */
  lemma LiveNowIsLive(m: seq<Print>, i: nat, leg: Leg, staleness: real, carried: Option<Carry>, refuted: bool, now: real)
    requires i <= |m| && LegState(m, i, leg, staleness, carried, refuted)
    requires forall j :: 0 <= j < i ==> m[j].ts <= now
    ensures LiveNow(carried, refuted, now, staleness) <==> Live(m, i, leg, now, staleness)
  {}

  lemma StepOpp(m: seq<Print>, i: nat, leg: Leg, staleness: real, carried: Option<Carry>, refuted: bool)
    requires i < |m| && LegState(m, i, leg, staleness, carried, refuted)
    requires m[i].kind.Opp?
    ensures LegState(m, i + 1, leg, staleness, carried,
                     refuted || (m[i].leg == leg && LiveNow(carried, refuted, m[i].ts, staleness)
                                 && m[i].price >= carried.value.price))
  {
    var k := Latest(m, i, leg);
    assert Latest(m, i + 1, leg) == k;
    if k >= 0 {
      assert Refuted(m, k, i) ==> Refuted(m, k, i + 1);
      if Refuted(m, k, i + 1) && !Refuted(m, k, i) {
        assert m[i].leg == leg && m[i].price >= m[k].price;
      }
    }
  }

  lemma StepSame(m: seq<Print>, i: nat, leg: Leg, staleness: real, carried: Option<Carry>, refuted: bool)
    requires i < |m| && LegState(m, i, leg, staleness, carried, refuted)
    requires m[i].kind.Same?
    ensures m[i].leg == leg ==> LegState(m, i + 1, leg, staleness, Some(Carry(m[i].ts, m[i].price)), false)
    ensures m[i].leg != leg ==> LegState(m, i + 1, leg, staleness, carried, refuted)
  {
    var k := Latest(m, i, leg);
    if m[i].leg != leg && k >= 0 {
      assert Latest(m, i + 1, leg) == k;
      assert Refuted(m, k, i + 1) <==> Refuted(m, k, i);
    }
  }

  /** A moment's two legs are never older than the staleness bound and never end in the past. */
  lemma EndTimeIsLate(m: seq<Print>, j: nat, hp: real, lp: real, T: real, bound: real)
    requires j <= |m| && bound <= T
    requires forall x :: j <= x < |m| ==> bound <= m[x].ts
    ensures bound <= EndTime(m, j, hp, lp, T)
    decreases |m| - j
  {
    if j < |m| && !Ends(m[j], hp, lp) {
      EndTimeIsLate(m, j + 1, hp, lp, T, bound);
    }
  }

  /** At a moment the filling leg is carried from the moment itself, the other leg from before. */
  lemma MomentLegs(w: Terms, m: seq<Print>, i: nat)
    requires i < |m| && IsMoment(w, m, i)
    ensures Latest(m, i + 1, m[i].leg) == i
    ensures Latest(m, i + 1, Other(m[i].leg)) == Latest(m, i, Other(m[i].leg)) >= 0
    ensures Latest(m, i + 1, High) >= 0 && Latest(m, i + 1, Low) >= 0
  {}

  /** Every event lies in the last fifteen minutes, has no leg older than the staleness bound,
      and dwells for a time that is never negative and never passes settlement. */
  lemma MomentBounds(w: Terms, m: seq<Print>, i: nat)
    requires Chronicle(w.T, m) && i < |m| && IsMoment(w, m, i)
    ensures var e := EventAt(w, m, i);
            && 0.0 <= e.highAge <= w.staleness && 0.0 <= e.lowAge <= w.staleness
            && 0.0 <= e.tMinus <= WINDOW_S && 0.0 <= e.dwell <= e.tMinus
  {
    MomentLegs(w, m, i);
    var h, l := Held(m, i + 1, High), Held(m, i + 1, Low);
    assert h.ts <= m[i].ts && l.ts <= m[i].ts;
    EndTimeIsLate(m, i + 1, h.price, l.price, w.T, m[i].ts);
  }

  /** How many prints the look-ahead from `j` inspects, the one that ends it included. */
  ghost function Scanned(m: seq<Print>, j: nat, hp: real, lp: real): (n: nat)
    requires j <= |m|
    ensures j + n <= |m|
    decreases |m| - j
  {
    if j == |m| then 0
    else if Ends(m[j], hp, lp) then 1
    else 1 + Scanned(m, j + 1, hp, lp)
  }

  ghost function MomentScan(w: Terms, m: seq<Print>, i: nat): nat
    requires i < |m| && IsMoment(w, m, i)
  {
    Scanned(m, i + 1, Held(m, i + 1, High).price, Held(m, i + 1, Low).price)
  }

  ghost function TotalScan(w: Terms, m: seq<Print>, n: nat): nat
    requires n <= |m|
  {
    if n == 0 then 0
    else TotalScan(w, m, n - 1) + if IsMoment(w, m, n - 1) then MomentScan(w, m, n - 1) else 0
  }

  /** The look-ahead of one moment. `inspected` counts the prints it reads. */
  method FindEnd(m: seq<Print>, start: nat, hp: real, lp: real, T: real) returns (boundary: real, ghost inspected: nat)
    requires start <= |m|
    ensures boundary == EndTime(m, start, hp, lp, T)
    ensures inspected == Scanned(m, start, hp, lp)
  {
    boundary, inspected := T, 0;
    var j := start;
    while j < |m|
      invariant start <= j <= |m|
      invariant boundary == T
      invariant EndTime(m, start, hp, lp, T) == EndTime(m, j, hp, lp, T)
      invariant Scanned(m, start, hp, lp) == inspected + Scanned(m, j, hp, lp)
    {
      inspected := inspected + 1;
      if m[j].kind.Same? {
        boundary := m[j].ts;
        return;
      }
      var carriedPrice := if m[j].leg.High? then hp else lp;
      if m[j].price >= carriedPrice {
        boundary := m[j].ts;
        return;
      }
      j := j + 1;
    }
  }

  datatype Summary = Summary(
    nEvents: nat, nEvPlus: nat, evPlusSeconds: real, firstEvPlus: Option<Event>,
    nHardFloor: nat, hardFloorSeconds: real, firstHardFloor: Option<Event>, minC: Option<real>)

  predicate IsEvPlus(e: Event) {
    e.ev > 0.0
  }

  predicate IsHardFloor(e: Event) {
    e.hardFloor
  }

  function First(events: seq<Event>): Option<Event> {
    if events == [] then None else Some(events[0])
  }

  function Dwell(e: Event): real {
    e.dwell
  }

  function MinC(events: seq<Event>): Option<real> {
    if events == [] then
      None
    else
      var e, rest := events[|events| - 1], MinC(events[..|events| - 1]);
      if rest.None? then Some(e.C) else Some(Min(rest.value, e.C))
  }

  function Summarize(events: seq<Event>): Summary {
    var plus, floor := Filter(IsEvPlus, events), Filter(IsHardFloor, events);
    Summary(|events|, |plus|, Sum(Dwell, plus), First(plus),
            |floor|, Sum(Dwell, floor), First(floor), MinC(events))
  }

  /** A dictionary keyed by the two legs. */
  datatype PerLeg<A> = PerLeg(high: A, low: A) {
    function At(leg: Leg): A {
      if leg.High? then high else low
    }

    function Set(leg: Leg, a: A): PerLeg<A> {
      if leg.High? then PerLeg(a, low) else PerLeg(high, a)
    }
  }

  type Carried = PerLeg<Option<Carry>>
  type Marks = PerLeg<bool>

  /** The scan's two dictionaries after `i` prints. */
  ghost predicate ScanState(m: seq<Print>, i: nat, staleness: real, carried: Carried, refuted: Marks)
    requires i <= |m|
  {
    && LegState(m, i, High, staleness, carried.high, refuted.high)
    && LegState(m, i, Low, staleness, carried.low, refuted.low)
  }

  /** Whether an OPP print kills the price its leg carries. */
  predicate Kills(p: Print, staleness: real, carried: Carried, refuted: Marks) {
    LiveNow(carried.At(p.leg), refuted.At(p.leg), p.ts, staleness) && p.price >= carried.At(p.leg).value.price
  }

  lemma ScanOpp(m: seq<Print>, i: nat, staleness: real, carried: Carried, refuted: Marks)
    requires i < |m| && ScanState(m, i, staleness, carried, refuted) && m[i].kind.Opp?
    ensures ScanState(m, i + 1, staleness, carried,
                      if Kills(m[i], staleness, carried, refuted) then refuted.Set(m[i].leg, true) else refuted)
  {
    StepOpp(m, i, High, staleness, carried.high, refuted.high);
    StepOpp(m, i, Low, staleness, carried.low, refuted.low);
  }

  lemma ScanSame(m: seq<Print>, i: nat, staleness: real, carried: Carried, refuted: Marks)
    requires i < |m| && ScanState(m, i, staleness, carried, refuted) && m[i].kind.Same?
    ensures ScanState(m, i + 1, staleness, carried.Set(m[i].leg, Some(Carry(m[i].ts, m[i].price))),
                      refuted.Set(m[i].leg, false))
  {
    StepSame(m, i, High, staleness, carried.high, refuted.high);
    StepSame(m, i, Low, staleness, carried.low, refuted.low);
  }

  /** The scan's test for a moment is the declared one. */
  lemma ScanFindsMoment(w: Terms, m: seq<Print>, i: nat, carried: Carried, refuted: Marks)
    requires Chronicle(w.T, m) && i < |m| && m[i].kind.Same?
    requires ScanState(m, i, w.staleness, carried, refuted)
    ensures var other := Other(m[i].leg);
            IsMoment(w, m, i) <==>
              m[i].ts >= w.T - WINDOW_S && LiveNow(carried.At(other), refuted.At(other), m[i].ts, w.staleness)
  {
    var other := Other(m[i].leg);
    LiveNowIsLive(m, i, other, w.staleness, carried.At(other), refuted.At(other), m[i].ts);
  }

  /** Price one moment. The clamp on a negative dwell is kept and never taken. */
  method PriceMoment(w: Terms, m: seq<Print>, i: nat, h: Carry, l: Carry) returns (e: Event, ghost inspected: nat)
    requires Chronicle(w.T, m) && i < |m| && IsMoment(w, m, i)
    requires Latest(m, i + 1, High) >= 0 && h == Held(m, i + 1, High)
    requires Latest(m, i + 1, Low) >= 0 && l == Held(m, i + 1, Low)
    ensures e == EventAt(w, m, i)
    ensures Observes(w, m, i, e) && Valued(w, e) && Dwells(w, m, i, e)
    ensures inspected == MomentScan(w, m, i)
  {
    MomentBounds(w, m, i);
    MomentIsObserved(w, m, i);
    var C := w.cost(h.price, l.price);
    var expiry := Min(h.ts, l.ts) + w.staleness;
    var boundary;
    boundary, inspected := FindEnd(m, i + 1, h.price, l.price, w.T);
    var dwell := Min(Min(boundary, expiry), w.T) - m[i].ts;
    if dwell < 0.0 {
      dwell := 0.0;
    }
    e := Event(
      w.T - m[i].ts, m[i].leg, h.price, l.price, m[i].ts - h.ts, m[i].ts - l.ts,
      C, w.fair, w.fairLin, w.fair - C, w.fairLin - C, w.settle - C, C < 1.0, dwell);
  }

  /** The walk's whole state: the two dictionaries and the events so far. */
  datatype Scan = Scan(carried: Carried, refuted: Marks, events: seq<Event>)

  ghost predicate ScanInvariant(w: Terms, m: seq<Print>, i: nat, s: Scan, inspected: nat)
    requires i <= |m|
  {
    && ScanState(m, i, w.staleness, s.carried, s.refuted)
    && s.events == Moments(w, m, i)
    && inspected == TotalScan(w, m, i)
  }

  /** A fill that has just been carried is priced when the other leg is live. */
  method JudgeFill(w: Terms, m: seq<Print>, i: nat, carried: Carried, refuted: Marks, events: seq<Event>, ghost inspected: nat)
    returns (events': seq<Event>, ghost inspected': nat)
    requires Chronicle(w.T, m) && i < |m| && m[i].kind.Same? && ScanState(m, i + 1, w.staleness, carried, refuted)
    requires var other := Other(m[i].leg);
             IsMoment(w, m, i) <==>
               m[i].ts >= w.T - WINDOW_S && LiveNow(carried.At(other), refuted.At(other), m[i].ts, w.staleness)
    requires events == Moments(w, m, i) && inspected == TotalScan(w, m, i)
    ensures events' == Moments(w, m, i + 1) && inspected' == TotalScan(w, m, i + 1)
  {
    events', inspected' := events, inspected;
    var other := Other(m[i].leg);
    if m[i].ts >= w.T - WINDOW_S && LiveNow(carried.At(other), refuted.At(other), m[i].ts, w.staleness) {
      MomentLegs(w, m, i);
      var e;
      ghost var steps;
      e, steps := PriceMoment(w, m, i, carried.high.value, carried.low.value);
      events', inspected' := events + [e], inspected + steps;
    }
  }

  method Advance(w: Terms, m: seq<Print>, i: nat, s: Scan, ghost inspected: nat) returns (s': Scan, ghost inspected': nat)
    requires Chronicle(w.T, m) && i < |m| && ScanInvariant(w, m, i, s, inspected)
    ensures ScanInvariant(w, m, i + 1, s', inspected')
  {
    var p := m[i];
    s', inspected' := s, inspected;
    if p.kind.Opp? {
      ScanOpp(m, i, w.staleness, s.carried, s.refuted);
      if Kills(p, w.staleness, s.carried, s.refuted) {
        s' := s.(refuted := s.refuted.Set(p.leg, true));
      }
    } else {
      ScanSame(m, i, w.staleness, s.carried, s.refuted);
      ScanFindsMoment(w, m, i, s.carried, s.refuted);
      var carried, refuted := s.carried.Set(p.leg, Some(Carry(p.ts, p.price))), s.refuted.Set(p.leg, false);
      var events;
      events, inspected' := JudgeFill(w, m, i, carried, refuted, s.events, inspected);
      s' := Scan(carried, refuted, events);
    }
  }

  // ----- The walk in plain terms -----

  /** `k` is the last fill on `leg` up to and including position `i`. */
  ghost predicate LastFill(m: seq<Print>, i: nat, leg: Leg, k: nat)
    requires i < |m|
  {
    && k <= i && m[k].leg == leg && m[k].kind == Same
    && forall j :: k < j <= i ==> m[j].leg != leg || m[j].kind == Opp
  }

  /** A fill inside the last 900 seconds meets a price of the other leg that is young enough and that no
      opposite print has reached since. */
  ghost predicate Occurs(w: Terms, m: seq<Print>, i: nat)
    requires i < |m|
  {
    && m[i].kind == Same && m[i].ts >= w.T - 900.0
    && exists k :: 0 <= k < i && m[k].leg != m[i].leg && LastFill(m, i, m[k].leg, k) && m[i].ts - m[k].ts <= w.staleness
         && forall j :: k < j < i && m[j].leg == m[k].leg && m[j].kind == Opp ==> m[j].price < m[k].price
  }

  /** The event is that of position `i`: who filled, when, at which two prices of which age. */
  ghost predicate Observes(w: Terms, m: seq<Print>, i: nat, e: Event) {
    && i < |m| && m[i].kind == Same && e.fillSide == m[i].leg && e.tMinus == w.T - m[i].ts
    && (exists k :: 0 <= k <= i && LastFill(m, i, High, k) && e.highPrice == m[k].price && e.highAge == m[i].ts - m[k].ts)
    && (exists k :: 0 <= k <= i && LastFill(m, i, Low, k) && e.lowPrice == m[k].price && e.lowAge == m[i].ts - m[k].ts)
  }

  /** What the event says the pair costs, is worth and pays. */
  predicate Valued(w: Terms, e: Event) {
    && e.C == w.cost(e.highPrice, e.lowPrice)
    && e.fair == w.fair && e.ev == w.fair - e.C
    && e.fairLin == w.fairLin && e.evLin == w.fairLin - e.C
    && e.payoff == w.settle - e.C
    && (e.hardFloor <==> e.C < 1.0)
  }

  /** The print changes the state that carries `hp` and `lp`: a fill, or an opposite print that
      reaches the carried price of its leg. */
  predicate Changes(p: Print, hp: real, lp: real) {
    || p.kind == Same
    || (p.leg == High && p.price >= hp)
    || (p.leg == Low && p.price >= lp)
  }

  /** The event dwells until its state changes, a leg grows too old or the pair settles, and no longer. */
  ghost predicate Dwells(w: Terms, m: seq<Print>, i: nat, e: Event)
    requires i < |m|
  {
    var end := m[i].ts + e.dwell;
    && (forall x :: i < x < |m| && m[x].ts < end ==> !Changes(m[x], e.highPrice, e.lowPrice))
    && e.highAge + e.dwell <= w.staleness && e.lowAge + e.dwell <= w.staleness && end <= w.T
    && (|| end == w.T || e.highAge + e.dwell == w.staleness || e.lowAge + e.dwell == w.staleness
        || exists x :: i < x < |m| && m[x].ts == end && Changes(m[x], e.highPrice, e.lowPrice))
  }

  ghost function OccursAt(w: Terms, m: seq<Print>): nat -> bool {
    (i: nat) => i < |m| && Occurs(w, m, i)
  }

  ghost function ToldAt(w: Terms, m: seq<Print>): (nat, Event) -> bool {
    (i: nat, e: Event) => i < |m| && Observes(w, m, i, e) && Valued(w, e) && Dwells(w, m, i, e)
  }

  /** The events are those of exactly the positions where one occurs, in order. */
  ghost predicate FollowsTape(w: Terms, m: seq<Print>, n: nat, at: seq<nat>, events: seq<Event>) {
    Lists(n, OccursAt(w, m), ToldAt(w, m), at, events)
  }

  lemma LatestIsLastFill(m: seq<Print>, i: nat, leg: Leg)
    requires i < |m| && Latest(m, i + 1, leg) >= 0
    ensures LastFill(m, i, leg, Latest(m, i + 1, leg))
  {}

  lemma OccursIff(w: Terms, m: seq<Print>, i: nat)
    requires i < |m|
    ensures Occurs(w, m, i) <==> IsMoment(w, m, i)
  {
    if m[i].kind.Same? {
      var other := Other(m[i].leg);
      var k := Latest(m, i, other);
      if IsMoment(w, m, i) {
        assert m[k].leg == other && LastFill(m, i, m[k].leg, k);
        forall j | k < j < i && m[j].leg == m[k].leg && m[j].kind == Opp
          ensures m[j].price < m[k].price
        {}
      }
      if Occurs(w, m, i) {
        var x :| 0 <= x < i && m[x].leg != m[i].leg && LastFill(m, i, m[x].leg, x) && m[i].ts - m[x].ts <= w.staleness
          && forall j :: x < j < i && m[j].leg == m[x].leg && m[j].kind == Opp ==> m[j].price < m[x].price;
        assert m[x].leg == other;
        assert x <= k && k <= x;
      }
    }
  }

  lemma {:induction false} EndTimeIsFirst(m: seq<Print>, j: nat, hp: real, lp: real, T: real)
    requires Chronicle(T, m) && j <= |m|
    ensures var end := EndTime(m, j, hp, lp, T);
            && (forall x :: j <= x < |m| && m[x].ts < end ==> !Changes(m[x], hp, lp))
            && (end == T || exists x :: j <= x < |m| && m[x].ts == end && Changes(m[x], hp, lp))
    decreases |m| - j
  {
    if j < |m| && !Ends(m[j], hp, lp) {
      EndTimeIsFirst(m, j + 1, hp, lp, T);
    }
  }

  lemma StateDwells(w: Terms, m: seq<Print>, i: nat, h: Carry, l: Carry, e: Event)
    requires Chronicle(w.T, m) && i < |m|
    requires e == EventOf(w, m[i], h, l, EndTime(m, i + 1, h.price, l.price, w.T))
    ensures Valued(w, e) && Dwells(w, m, i, e)
  {
    EndTimeIsFirst(m, i + 1, h.price, l.price, w.T);
  }

  lemma MomentIsObserved(w: Terms, m: seq<Print>, i: nat)
    requires Chronicle(w.T, m) && i < |m| && IsMoment(w, m, i)
    ensures var e := EventAt(w, m, i); Observes(w, m, i, e) && Valued(w, e) && Dwells(w, m, i, e)
  {
    MomentLegs(w, m, i);
    LatestIsLastFill(m, i, High);
    LatestIsLastFill(m, i, Low);
    StateDwells(w, m, i, Held(m, i + 1, High), Held(m, i + 1, Low), EventAt(w, m, i));
  }

  lemma MomentOccurs(w: Terms, m: seq<Print>, i: nat)
    requires Chronicle(w.T, m) && i < |m|
    ensures OccursAt(w, m)(i) <==> IsMoment(w, m, i)
    ensures IsMoment(w, m, i) ==> ToldAt(w, m)(i, EventAt(w, m, i))
  {
    OccursIff(w, m, i);
    if IsMoment(w, m, i) {
      MomentIsObserved(w, m, i);
    }
  }

  lemma FollowsMore(w: Terms, m: seq<Print>, i: nat, occurs: nat -> bool, told: (nat, Event) -> bool, at: seq<nat>)
    returns (at': seq<nat>)
    requires i < |m| && Lists(i, occurs, told, at, Moments(w, m, i))
    requires occurs(i) <==> IsMoment(w, m, i)
    requires IsMoment(w, m, i) ==> told(i, EventAt(w, m, i))
    ensures Lists(i + 1, occurs, told, at', Moments(w, m, i + 1))
  {
    if IsMoment(w, m, i) {
      ListsMore(i, occurs, told, at, Moments(w, m, i), EventAt(w, m, i));
      at' := at + [i];
    } else {
      ListsSame(i, occurs, told, at, Moments(w, m, i));
      at' := at;
    }
  }

  /** The declared moments are the events of the tape in plain terms. */
  lemma {:induction false} MomentsFollowTape(w: Terms, m: seq<Print>, n: nat) returns (at: seq<nat>)
    requires Chronicle(w.T, m) && n <= |m|
    ensures FollowsTape(w, m, n, at, Moments(w, m, n))
  {
    if n == 0 {
      at := [];
    } else {
      at := MomentsFollowTape(w, m, n - 1);
      MomentOccurs(w, m, n - 1);
      at := FollowsMore(w, m, n - 1, OccursAt(w, m), ToldAt(w, m), at);
    }
  }

  // ----- The merge in plain terms -----

  /** Time order, and at one instant every opposite print before every fill. */
  ghost predicate InOrder(m: seq<Print>) {
    forall i, j :: 0 <= i < j < |m| ==>
      m[i].ts < m[j].ts || (m[i].ts == m[j].ts && (m[i].kind == Opp || m[j].kind == Same))
  }

  /** The prints of the two streams, HIGH first, each in its own order. */
  function BothLegs(high: seq<Tick>, low: seq<Tick>): seq<Print> {
    seq(|high| + |low|, i requires 0 <= i < |high| + |low| =>
      if i < |high| then Print(high[i].ts, High, high[i].kind, high[i].price)
      else Print(low[i - |high|].ts, Low, low[i - |high|].kind, low[i - |high|].price))
  }

  function AtInstant(ts: real, kind: Kind): Print -> bool {
    (p: Print) => p.ts == ts && p.kind == kind
  }

  /** The merge: in order, and at each instant up to `T` it holds exactly the prints of each kind, HIGH
      first and each stream in its own order; nothing after `T`, no opposite print without refutation. */
  ghost predicate IsMerge(T: real, high: seq<Tick>, low: seq<Tick>, refute: bool, m: seq<Print>) {
    && InOrder(m)
    && (forall ts: real, kind: Kind {:trigger AtInstant(ts, kind)} ::
          Filter(AtInstant(ts, kind), m) ==
            if ts <= T && (refute || kind == Same) then Filter(AtInstant(ts, kind), BothLegs(high, low)) else [])
  }

  lemma {:induction false} SortOfInstant(m: seq<Print>, ts: real, kind: Kind)
    requires forall i :: 0 <= i < |m| ==> m[i].ts == ts && m[i].kind == kind
    ensures Sort(m) == m
  {
    if m == [] {
    } else {
      var n := |m| - 1;
      SortOfInstant(m[..n], ts, kind);
      InsertLast(m[..n], m[n]);
      assert m == m[..n] + [m[n]];
    }
  }

  lemma InsertLast(m: seq<Print>, x: Print)
    requires m == [] || Precedes(m[|m| - 1], x)
    ensures Insert(m, x) == m + [x]
  {}

  lemma {:induction false} FilterNothing(keep: Print -> bool, m: seq<Print>)
    requires forall i :: 0 <= i < |m| ==> !keep(m[i])
    ensures Filter(keep, m) == []
  {
    if m == [] {
    } else {
      FilterNothing(keep, m[..|m| - 1]);
    }
  }

  /** Filtering by something that every kept element has changes nothing. */
  lemma {:induction false} FilterWithin(inner: Print -> bool, outer: Print -> bool, m: seq<Print>)
    requires forall p :: inner(p) ==> outer(p)
    ensures Filter(inner, Filter(outer, m)) == Filter(inner, m)
  {
    if m == [] {
    } else {
      var m', x := m[..|m| - 1], m[|m| - 1];
      FilterWithin(inner, outer, m');
      if outer(x) {
        FilterSnoc(inner, Filter(outer, m'), x);
      }
    }
  }

  lemma InstantOfSort(m: seq<Print>, ts: real, kind: Kind)
    ensures Filter(AtInstant(ts, kind), Sort(m)) == Filter(AtInstant(ts, kind), m)
  {
    var keep := AtInstant(ts, kind);
    FilterSort(keep, m);
    forall i | 0 <= i < |Filter(keep, m)|
      ensures Filter(keep, m)[i].ts == ts && Filter(keep, m)[i].kind == kind
    {
      FilterMembers(keep, m, Filter(keep, m)[i]);
    }
    SortOfInstant(Filter(keep, m), ts, kind);
  }

  lemma InstantOfMerged(T: real, high: seq<Tick>, low: seq<Tick>, refute: bool, ts: real, kind: Kind)
    ensures Filter(AtInstant(ts, kind), Merged(T, high, low, refute)) ==
              if ts <= T && (refute || kind == Same) then Filter(AtInstant(ts, kind), BothLegs(high, low)) else []
  {
    var keep := AtInstant(ts, kind);
    var all := Tag(High, high) + Tag(Low, low);
    assert all == BothLegs(high, low);
    var kept := if refute then all else Filter(IsSame, all);
    var m := Merged(T, high, low, refute);
    if ts > T {
      forall i | 0 <= i < |m|
        ensures !keep(m[i])
      {
        FilterMembers((p: Print) => p.ts <= T, Sort(kept), m[i]);
      }
      FilterNothing(keep, m);
    } else {
      FilterWithin(keep, (p: Print) => p.ts <= T, Sort(kept));
      InstantOfSort(kept, ts, kind);
      if !refute {
        if kind == Same {
          FilterWithin(keep, IsSame, all);
        } else {
          forall i | 0 <= i < |kept|
            ensures !keep(kept[i])
          {
            FilterMembers(IsSame, all, kept[i]);
          }
          FilterNothing(keep, kept);
        }
      }
    }
  }

  lemma MergedIsMerge(T: real, high: seq<Tick>, low: seq<Tick>, refute: bool)
    ensures IsMerge(T, high, low, refute, Merged(T, high, low, refute))
  {
    MergedIsChronicle(T, high, low, refute);
    forall ts: real, kind: Kind {:trigger AtInstant(ts, kind)}
      ensures Filter(AtInstant(ts, kind), Merged(T, high, low, refute)) ==
                if ts <= T && (refute || kind == Same) then Filter(AtInstant(ts, kind), BothLegs(high, low)) else []
    {
      InstantOfMerged(T, high, low, refute, ts, kind);
    }
  }

  // ----- What a summary holds -----

  /** The first event of a filter, read off the whole walk. */
  ghost predicate IsFirst(keep: Event -> bool, events: seq<Event>, first: Option<Event>) {
    if first.None? then forall i :: 0 <= i < |events| ==> !keep(events[i])
    else exists k :: 0 <= k < |events| && keep(events[k]) && first.value == events[k]
                     && forall j :: 0 <= j < k ==> !keep(events[j])
  }

  lemma FirstIsFirst(keep: Event -> bool, events: seq<Event>)
    ensures IsFirst(keep, events, First(Filter(keep, events)))
  {
    if Filter(keep, events) == [] {
      forall i | 0 <= i < |events|
        ensures !keep(events[i])
      {
        FilterMembers(keep, events, events[i]);
      }
    } else {
      var k := FilterFirst(keep, events);
    }
  }

  lemma {:induction false} MinCIsLeast(events: seq<Event>)
    ensures MinC(events).Some? <==> events != []
    ensures events != [] ==>
              (exists i :: 0 <= i < |events| && events[i].C == MinC(events).value)
              && forall i :: 0 <= i < |events| ==> MinC(events).value <= events[i].C
  {
    if events == [] {
    } else {
      var rest := events[..|events| - 1];
      MinCIsLeast(rest);
      forall i | 0 <= i < |events|
        ensures MinC(events).value <= events[i].C
      {
        if i < |rest| {
          assert MinC(rest).value <= rest[i].C;
        }
      }
      if rest != [] && MinC(rest).value <= events[|events| - 1].C {
        var i :| 0 <= i < |rest| && rest[i].C == MinC(rest).value;
        assert events[i].C == MinC(events).value;
      } else {
        assert events[|events| - 1].C == MinC(events).value;
      }
    }
  }

  /** A summary counts the events with positive EV and those under $1, adds up their dwell, names the
      first of each, and holds the least cost, which some event has. */
  ghost predicate SummaryTells(events: seq<Event>, s: Summary) {
    && s.nEvents == |events|
    && s.nEvPlus == |set i | 0 <= i < |events| && events[i].ev > 0.0|
    && s.nHardFloor == |set i | 0 <= i < |events| && events[i].hardFloor|
    && IsFirst((e: Event) => e.ev > 0.0, events, s.firstEvPlus)
    && IsFirst((e: Event) => e.hardFloor, events, s.firstHardFloor)
    && s.evPlusSeconds == Sum((e: Event) => if e.ev > 0.0 then e.dwell else 0.0, events)
    && s.hardFloorSeconds == Sum((e: Event) => if e.hardFloor then e.dwell else 0.0, events)
    && (if events == [] then s.minC == None
        else s.minC.Some? && (exists i :: 0 <= i < |events| && events[i].C == s.minC.value)
             && forall i :: 0 <= i < |events| ==> s.minC.value <= events[i].C)
  }

  lemma EvPlusTells(events: seq<Event>)
    ensures |Filter(IsEvPlus, events)| == |set i | 0 <= i < |events| && events[i].ev > 0.0|
    ensures IsFirst((e: Event) => e.ev > 0.0, events, First(Filter(IsEvPlus, events)))
    ensures Sum(Dwell, Filter(IsEvPlus, events)) == Sum((e: Event) => if e.ev > 0.0 then e.dwell else 0.0, events)
  {
    FilterSum(IsEvPlus, Dwell, (e: Event) => if e.ev > 0.0 then e.dwell else 0.0, events);
    FilterCount(IsEvPlus, events);
    assert Kept(IsEvPlus, events) == set i | 0 <= i < |events| && events[i].ev > 0.0;
    FirstIsFirst(IsEvPlus, events);
  }

  lemma HardFloorTells(events: seq<Event>)
    ensures |Filter(IsHardFloor, events)| == |set i | 0 <= i < |events| && events[i].hardFloor|
    ensures IsFirst((e: Event) => e.hardFloor, events, First(Filter(IsHardFloor, events)))
    ensures Sum(Dwell, Filter(IsHardFloor, events)) == Sum((e: Event) => if e.hardFloor then e.dwell else 0.0, events)
  {
    FilterSum(IsHardFloor, Dwell, (e: Event) => if e.hardFloor then e.dwell else 0.0, events);
    FilterCount(IsHardFloor, events);
    assert Kept(IsHardFloor, events) == set i | 0 <= i < |events| && events[i].hardFloor;
    FirstIsFirst(IsHardFloor, events);
  }

  lemma SummaryIsExact(events: seq<Event>)
    ensures SummaryTells(events, Summarize(events))
  {
    EvPlusTells(events);
    HardFloorTells(events);
    MinCIsLeast(events);
  }

  /** The walk. Its events are exactly the declared moments of the merged prints. */
  method WalkDirection(w: Terms, high: seq<Tick>, low: seq<Tick>, refute: bool)
    returns (events: seq<Event>, summary: Summary, ghost inspected: nat)
    ensures events == Walk(w, Merged(w.T, high, low, refute))
    ensures summary == Summarize(events)
    ensures var m := Merged(w.T, high, low, refute); inspected == TotalScan(w, m, |m|)
    ensures exists m, at :: IsMerge(w.T, high, low, refute, m) && FollowsTape(w, m, |m|, at, events)
    ensures SummaryTells(events, summary)
  {
    var m := Merged(w.T, high, low, refute);
    MergedIsMerge(w.T, high, low, refute);
    MergedIsChronicle(w.T, high, low, refute);
    var s := Scan(PerLeg(None, None), PerLeg(false, false), []);
    inspected := 0;
    var i := 0;
    while i < |m|
      invariant 0 <= i <= |m|
      invariant ScanInvariant(w, m, i, s, inspected)
    {
      s, inspected := Advance(w, m, i, s, inspected);
      i := i + 1;
    }
    events, summary := s.events, Summarize(s.events);
    ghost var at := MomentsFollowTape(w, m, |m|);
    SummaryIsExact(events);
  }
}
