/** Dwell accounting of the tape walk: the intervals credited to successive events do not
    overlap, so no bucket can collect more than the window's 900 seconds, and finding where they
    end costs a single pass over the prints. */
module DwellTime {
  import opened Sequences
  import opened Tape

  /** The time of the first SAME print from `j` on, or `T`. */
  function NextFill(m: seq<Print>, j: nat, T: real): real
    requires j <= |m|
    decreases |m| - j
  {
    if j == |m| then T
    else if m[j].kind.Same? then m[j].ts
    else NextFill(m, j + 1, T)
  }

  lemma {:induction false} NextFillIsLate(m: seq<Print>, j: nat, T: real, bound: real)
    requires j <= |m| && bound <= T
    requires forall x :: j <= x < |m| ==> bound <= m[x].ts
    ensures bound <= NextFill(m, j, T)
    decreases |m| - j
  {
    if j < |m| && !m[j].kind.Same? {
      NextFillIsLate(m, j + 1, T, bound);
    }
  }

  lemma {:induction false} EndsByNextFill(m: seq<Print>, j: nat, hp: real, lp: real, T: real)
    requires Chronicle(T, m) && j <= |m|
    ensures EndTime(m, j, hp, lp, T) <= NextFill(m, j, T)
    decreases |m| - j
  {
    if j < |m| && !m[j].kind.Same? {
      if Ends(m[j], hp, lp) {
        NextFillIsLate(m, j, T, m[j].ts);
      } else {
        EndsByNextFill(m, j + 1, hp, lp, T);
      }
    }
  }

  lemma EventEndsBy(w: Terms, fill: Print, h: Carry, l: Carry, end: real)
    ensures fill.ts + EventOf(w, fill, h, l, end).dwell <= end
  {}

  lemma MomentEnds(w: Terms, m: seq<Print>, i: nat)
    requires Chronicle(w.T, m) && i < |m| && IsMoment(w, m, i)
    ensures m[i].ts + EventAt(w, m, i).dwell <= NextFill(m, i + 1, w.T)
  {
    StateEnds(w, m, i, EventAt(w, m, i), Held(m, i + 1, High), Held(m, i + 1, Low));
  }

  lemma StateEnds(w: Terms, m: seq<Print>, i: nat, e: Event, h: Carry, l: Carry)
    requires Chronicle(w.T, m) && i < |m|
    requires e == EventOf(w, m[i], h, l, EndTime(m, i + 1, h.price, l.price, w.T))
    ensures m[i].ts + e.dwell <= NextFill(m, i + 1, w.T)
  {
    EventEndsBy(w, m[i], h, l, EndTime(m, i + 1, h.price, l.price, w.T));
    EndsByNextFill(m, i + 1, h.price, l.price, w.T);
  }

  /** The interval of an event, counted in seconds before settlement, ends at this many seconds. */
  function EndsAt(e: Event): real {
    e.tMinus - e.dwell
  }

  ghost predicate Disjoint(events: seq<Event>) {
    forall a, b :: 0 <= a < b < |events| ==> EndsAt(events[a]) >= events[b].tMinus
  }

  ghost predicate AllEndBy(events: seq<Event>, tMinus: real) {
    forall a :: 0 <= a < |events| ==> EndsAt(events[a]) >= tMinus
  }

  lemma {:induction false} MomentsDisjoint(w: Terms, m: seq<Print>, n: nat)
    requires Chronicle(w.T, m) && n <= |m|
    ensures Disjoint(Moments(w, m, n))
    ensures AllEndBy(Moments(w, m, n), w.T - NextFill(m, n, w.T))
  {
    if n == 0 {
    } else {
      MomentsDisjoint(w, m, n - 1);
      if m[n - 1].kind.Same? {
        NextFillIsLate(m, n, w.T, m[n - 1].ts);
      }
      if IsMoment(w, m, n - 1) {
        MomentEnds(w, m, n - 1);
      }
    }
  }

  /** In time order, each event's interval ends before the next one's begins, and all of them
      lie inside the last fifteen minutes. */
  lemma DwellIntervalsAreDisjoint(w: Terms, high: seq<Tick>, low: seq<Tick>, refute: bool)
    ensures var events := Walk(w, Merged(w.T, high, low, refute));
            && Disjoint(events)
            && (forall a :: 0 <= a < |events| ==>
                  0.0 <= EndsAt(events[a]) <= events[a].tMinus <= WINDOW_S)
  {
    var m := Merged(w.T, high, low, refute);
    MergedIsChronicle(w.T, high, low, refute);
    MomentsDisjoint(w, m, |m|);
    MomentsInWindow(w, m, |m|);
  }

  lemma {:induction false} MomentsInWindow(w: Terms, m: seq<Print>, n: nat)
    requires Chronicle(w.T, m) && n <= |m|
    ensures forall a :: 0 <= a < |Moments(w, m, n)| ==>
              var e := Moments(w, m, n)[a]; 0.0 <= EndsAt(e) <= e.tMinus <= WINDOW_S
  {
    if n == 0 {
    } else {
      MomentsInWindow(w, m, n - 1);
      if IsMoment(w, m, n - 1) {
        MomentBounds(w, m, n - 1);
      }
    }
  }

  /** Disjoint intervals inside a window cannot sum to more than the window. */
  lemma {:induction false} DisjointSum(keep: Event -> bool, events: seq<Event>)
    requires Disjoint(events)
    requires forall a :: 0 <= a < |events| ==> EndsAt(events[a]) <= events[a].tMinus <= WINDOW_S
    ensures 0.0 <= Sum(Dwell, Filter(keep, events)) <=
              if events == [] then 0.0 else WINDOW_S - EndsAt(events[|events| - 1])
  {
    if events == [] {
    } else {
      var rest, e := events[..|events| - 1], events[|events| - 1];
      DisjointSum(keep, rest);
      if keep(e) {
        SumSnoc(Dwell, Filter(keep, rest), e);
      }
    }
  }

  /** The EV+ seconds and the hard-floor seconds of a window are each between 0 and 900. */
  lemma SecondsAreBounded(w: Terms, high: seq<Tick>, low: seq<Tick>, refute: bool)
    ensures var s := Summarize(Walk(w, Merged(w.T, high, low, refute)));
            0.0 <= s.evPlusSeconds <= WINDOW_S && 0.0 <= s.hardFloorSeconds <= WINDOW_S
  {
    var events := Walk(w, Merged(w.T, high, low, refute));
    DwellIntervalsAreDisjoint(w, high, low, refute);
    DisjointSum(IsEvPlus, events);
    DisjointSum(IsHardFloor, events);
  }

  // ----- The cost of the look-ahead -----

  /** The last position a look-ahead from `j` can reach: the next SAME print or the end. */
  function Reach(m: seq<Print>, j: nat): (k: nat)
    requires j <= |m| && m != []
    ensures k < |m|
    decreases |m| - j
  {
    if j == |m| then |m| - 1
    else if m[j].kind.Same? then j
    else Reach(m, j + 1)
  }

  lemma {:induction false} ScanStaysInReach(m: seq<Print>, j: nat, hp: real, lp: real)
    requires j <= |m| && m != []
    ensures j + Scanned(m, j, hp, lp) <= Reach(m, j) + 1
    ensures j <= Reach(m, j) + 1
    decreases |m| - j
  {
    if j < |m| && !m[j].kind.Same? {
      ScanStaysInReach(m, j + 1, hp, lp);
    }
  }

  lemma {:induction false} ScansTile(w: Terms, m: seq<Print>, n: nat)
    requires n <= |m| && m != []
    ensures TotalScan(w, m, n) <= Reach(m, n)
  {
    if n == 0 {
    } else {
      ScansTile(w, m, n - 1);
      ScanStaysInReach(m, n, 0.0, 0.0);
      if IsMoment(w, m, n - 1) {
        ScanStaysInReach(m, n, Held(m, n, High).price, Held(m, n, Low).price);
      }
    }
  }

  /** All look-aheads of a walk together inspect fewer prints than there are. */
  lemma LookAheadIsLinear(w: Terms, m: seq<Print>)
    requires m != []
    ensures TotalScan(w, m, |m|) < |m|
  {
    ScansTile(w, m, |m|);
  }

  // ----- Dwell is the lifetime of the carried state -----

  /** An event's interval is exactly the life of the state it was priced in: until it ends no print
      changes that state, both legs stay young enough and settlement has not come; and it ends
      because one of these three gives out. */
  lemma DwellIsLifetime(w: Terms, m: seq<Print>, i: nat)
    requires Chronicle(w.T, m) && i < |m| && IsMoment(w, m, i)
    ensures var e := EventAt(w, m, i);
            var end := m[i].ts + e.dwell;
            && (forall x :: i < x < |m| && m[x].ts < end ==> !Ends(m[x], e.highPrice, e.lowPrice))
            && e.highAge + e.dwell <= w.staleness && e.lowAge + e.dwell <= w.staleness && end <= w.T
            && (|| end == w.T || e.highAge + e.dwell == w.staleness || e.lowAge + e.dwell == w.staleness
                || exists x :: i < x < |m| && m[x].ts == end && Ends(m[x], e.highPrice, e.lowPrice))
  {
    MomentLegs(w, m, i);
    var h, l := Held(m, i + 1, High), Held(m, i + 1, Low);
    EndTimeIsFirst(m, i + 1, h.price, l.price, w.T);
  }
}
