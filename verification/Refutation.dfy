/** What refutation by opposite prints changes in a walk: it only removes events and shortens
    dwell (the before/after comparison of sim/tape_sim.py). */
module Refutation {
  import opened Sequences
  import opened Tape

  /** The number of SAME prints before position `i`: where `m[i]` sits once OPP prints are gone. */
  ghost function Place(m: seq<Print>, i: nat): nat
    requires i <= |m|
  {
    if i == 0 then 0 else Place(m, i - 1) + if m[i - 1].kind.Same? then 1 else 0
  }

  lemma {:induction false} PlaceCounts(m: seq<Print>, i: nat)
    requires i <= |m|
    ensures Place(m, i) == |Filter(IsSame, m[..i])|
  {
    if i == 0 {
    } else {
      PlaceCounts(m, i - 1);
      assert m[..i][..i - 1] == m[..i - 1];
    }
  }

  lemma PlaceSplits(m: seq<Print>, i: nat)
    requires i <= |m|
    ensures Place(m, i) <= |Filter(IsSame, m)|
    ensures Filter(IsSame, m)[Place(m, i)..] == Filter(IsSame, m[i..])
  {
    PlaceCounts(m, i);
    assert m == m[..i] + m[i..];
    FilterConcat(IsSame, m[..i], m[i..]);
  }

  lemma PlaceWithin(m: seq<Print>, i: nat)
    requires i <= |m|
    ensures Place(m, i) <= |Filter(IsSame, m)|
  {
    PlaceSplits(m, i);
  }

  lemma PlaceHolds(m: seq<Print>, i: nat)
    requires i < |m| && m[i].kind.Same?
    ensures Place(m, i) < |Filter(IsSame, m)|
    ensures Filter(IsSame, m)[Place(m, i)] == m[i]
  {
    PlaceSplits(m, i);
    FirstKept(m[i..]);
  }

  lemma FirstKept(m: seq<Print>)
    requires m != [] && m[0].kind.Same?
    ensures Filter(IsSame, m) != [] && Filter(IsSame, m)[0] == m[0]
  {
    assert m == [m[0]] + m[1..];
    FilterConcat(IsSame, [m[0]], m[1..]);
    assert Filter(IsSame, [m[0]]) == [m[0]];
  }

  /** Both scans carry the same prices at corresponding positions. */
  lemma {:induction false} LatestAgrees(m: seq<Print>, i: nat, leg: Leg)
    requires i <= |m|
    ensures Place(m, i) <= |Filter(IsSame, m)|
    ensures var k := Latest(m, i, leg);
            Latest(Filter(IsSame, m), Place(m, i), leg) == if k < 0 then -1 else Place(m, k)
  {
    PlaceWithin(m, i);
    if i > 0 {
      LatestAgrees(m, i - 1, leg);
      if m[i - 1].kind.Same? {
        PlaceHolds(m, i - 1);
      }
    }
  }

  lemma NothingRefuted(m: seq<Print>, k: nat, i: nat)
    requires k < i <= |Filter(IsSame, m)|
    ensures !Refuted(Filter(IsSame, m), k, i)
  {
    var f := Filter(IsSame, m);
    forall j | k < j < i
      ensures f[j].kind.Same?
    {
      FilterMembers(IsSame, m, f[j]);
    }
  }

  /** A moment survives refutation exactly when no OPP print has reached the price carried by
      the leg that did not fill. */
  lemma SurvivesIff(w: Terms, m: seq<Print>, i: nat)
    requires i < |m| && m[i].kind.Same?
    ensures Place(m, i) < |Filter(IsSame, m)|
    ensures var k := Latest(m, i, Other(m[i].leg));
            IsMoment(w, m, i) <==>
              IsMoment(w, Filter(IsSame, m), Place(m, i)) && k >= 0 && !Refuted(m, k, i)
  {
    var other := Other(m[i].leg);
    PlaceHolds(m, i);
    LatestAgrees(m, i, other);
    var k := Latest(m, i, other);
    if k >= 0 {
      PlaceHolds(m, k);
      NothingRefuted(m, Place(m, k), Place(m, i));
    }
  }

  lemma {:induction false} EndTimeGrows(m: seq<Print>, j: nat, hp: real, lp: real, T: real)
    requires Chronicle(T, m) && j <= |m|
    ensures Place(m, j) <= |Filter(IsSame, m)|
    ensures EndTime(m, j, hp, lp, T) <= EndTime(Filter(IsSame, m), Place(m, j), hp, lp, T)
    decreases |m| - j
  {
    var f := Filter(IsSame, m);
    PlaceSplits(m, j);
    if j == |m| {
      assert m[j..] == [];
    } else {
      if m[j].kind.Same? {
        PlaceHolds(m, j);
      } else if Ends(m[j], hp, lp) {
        forall x | Place(m, j) <= x < |f|
          ensures m[j].ts <= f[x].ts
        {
          assert f[x] == f[Place(m, j)..][x - Place(m, j)];
          FilterMembers(IsSame, m[j..], f[x]);
          assert f[x] in m[j..];
        }
        EndTimeIsLate(f, Place(m, j), hp, lp, T, m[j].ts);
      } else {
        EndTimeGrows(m, j + 1, hp, lp, T);
      }
    }
  }

  /** `a` is `b` with a dwell that may have been cut short, and nothing else changed. */
  predicate Shortened(a: Event, b: Event) {
    a == b.(dwell := a.dwell) && a.dwell <= b.dwell
  }

  lemma LaterEndShortens(w: Terms, fill: Print, h: Carry, l: Carry, end: real, end': real)
    requires end <= end'
    ensures Shortened(EventOf(w, fill, h, l, end), EventOf(w, fill, h, l, end'))
  {}

  lemma HeldAgrees(m: seq<Print>, i: nat, leg: Leg)
    requires i <= |m| && Latest(m, i, leg) >= 0
    ensures Place(m, i) <= |Filter(IsSame, m)| && Latest(Filter(IsSame, m), Place(m, i), leg) >= 0
    ensures Held(Filter(IsSame, m), Place(m, i), leg) == Held(m, i, leg)
  {
    LatestAgrees(m, i, leg);
    PlaceHolds(m, Latest(m, i, leg));
  }

  lemma EventWhileHeld(w: Terms, m: seq<Print>, i: nat, h: Carry, l: Carry)
    requires i < |m| && IsMoment(w, m, i)
    requires Latest(m, i + 1, High) >= 0 && h == Held(m, i + 1, High)
    requires Latest(m, i + 1, Low) >= 0 && l == Held(m, i + 1, Low)
    ensures EventAt(w, m, i) == EventOf(w, m[i], h, l, EndTime(m, i + 1, h.price, l.price, w.T))
  {}

  /** Two moments of one fill in the same carried state differ only in how long that state lasts. */
  lemma SameStateShortens(w: Terms, m: seq<Print>, i: nat, f: seq<Print>, p: nat, h: Carry, l: Carry)
    requires i < |m| && IsMoment(w, m, i) && p < |f| && IsMoment(w, f, p) && f[p] == m[i]
    requires Latest(m, i + 1, High) >= 0 && Latest(m, i + 1, Low) >= 0
    requires Latest(f, p + 1, High) >= 0 && Latest(f, p + 1, Low) >= 0
    requires h == Held(m, i + 1, High) == Held(f, p + 1, High) && l == Held(m, i + 1, Low) == Held(f, p + 1, Low)
    requires EndTime(m, i + 1, h.price, l.price, w.T) <= EndTime(f, p + 1, h.price, l.price, w.T)
    ensures Shortened(EventAt(w, m, i), EventAt(w, f, p))
  {
    EventWhileHeld(w, m, i, h, l);
    EventWhileHeld(w, f, p, h, l);
    LaterEndShortens(w, m[i], h, l, EndTime(m, i + 1, h.price, l.price, w.T), EndTime(f, p + 1, h.price, l.price, w.T));
  }

  /** After a fill both scans hold the same prices at corresponding positions. */
  lemma FilteredState(m: seq<Print>, f: seq<Print>, i: nat, leg: Leg)
    requires i < |m| && m[i].kind.Same? && f == Filter(IsSame, m) && Latest(m, i + 1, leg) >= 0
    ensures Place(m, i) < |f| && f[Place(m, i)] == m[i] && Latest(f, Place(m, i) + 1, leg) >= 0
    ensures Held(f, Place(m, i) + 1, leg) == Held(m, i + 1, leg)
  {
    PlaceHolds(m, i);
    HeldAgrees(m, i + 1, leg);
  }

  lemma FilteredEnd(m: seq<Print>, f: seq<Print>, i: nat, hp: real, lp: real, T: real)
    requires Chronicle(T, m) && i < |m| && m[i].kind.Same? && f == Filter(IsSame, m)
    ensures Place(m, i) < |f|
    ensures EndTime(m, i + 1, hp, lp, T) <= EndTime(f, Place(m, i) + 1, hp, lp, T)
  {
    EndTimeGrows(m, i + 1, hp, lp, T);
  }

  lemma EventShortened(w: Terms, m: seq<Print>, f: seq<Print>, i: nat)
    requires Chronicle(w.T, m) && i < |m| && IsMoment(w, m, i) && f == Filter(IsSame, m)
    ensures Place(m, i) < |f| && IsMoment(w, f, Place(m, i))
    ensures Shortened(EventAt(w, m, i), EventAt(w, f, Place(m, i)))
  {
    SurvivesIff(w, m, i);
    MomentLegs(w, m, i);
    FilteredState(m, f, i, High);
    FilteredState(m, f, i, Low);
    var h, l := Held(m, i + 1, High), Held(m, i + 1, Low);
    FilteredEnd(m, f, i, h.price, l.price, w.T);
    SameStateShortens(w, m, i, f, Place(m, i), h, l);
  }

  /** `a` is a subsequence of `b`, by way of the increasing positions `at`, with each kept
      event at most shortened. */
  ghost predicate Thins(a: seq<Event>, b: seq<Event>, at: seq<nat>) {
    && |at| == |a|
    && (forall k :: 0 <= k < |at| ==> at[k] < |b| && Shortened(a[k], b[at[k]]))
    && (forall j, k :: 0 <= j < k < |at| ==> at[j] < at[k])
  }

  lemma ThinsStep(a: seq<Event>, b: seq<Event>, at: seq<nat>, x: Event, y: Event)
    requires Thins(a, b, at)
    ensures Thins(a, b + [y], at)
    ensures Shortened(x, y) ==> Thins(a + [x], b + [y], at + [|b|])
  {}

  lemma {:induction false} MomentsThin(w: Terms, m: seq<Print>, f: seq<Print>, n: nat) returns (at: seq<nat>)
    requires Chronicle(w.T, m) && n <= |m| && f == Filter(IsSame, m)
    ensures Place(m, n) <= |f| && Thins(Moments(w, m, n), Moments(w, f, Place(m, n)), at)
  {
    PlaceWithin(m, n);
    if n == 0 {
      at := [];
    } else {
      at := MomentsThin(w, m, f, n - 1);
      if m[n - 1].kind.Opp? {
        OppStep(w, m, n - 1);
      } else {
        at := StepThins(w, m, f, n - 1, Place(m, n - 1), at);
      }
    }
  }

  /** An OPP print makes no moment and is not there without refutation. */
  lemma OppStep(w: Terms, m: seq<Print>, i: nat)
    requires i < |m| && m[i].kind.Opp?
    ensures Place(m, i + 1) == Place(m, i) && Moments(w, m, i + 1) == Moments(w, m, i)
  {}

  lemma StepThins(w: Terms, m: seq<Print>, f: seq<Print>, i: nat, p: nat, at: seq<nat>) returns (at': seq<nat>)
    requires Chronicle(w.T, m) && i < |m| && m[i].kind.Same? && f == Filter(IsSame, m) && p == Place(m, i) < |f|
    requires Thins(Moments(w, m, i), Moments(w, f, p), at)
    ensures Place(m, i + 1) == p + 1 && Thins(Moments(w, m, i + 1), Moments(w, f, p + 1), at')
  {
    SurvivesIff(w, m, i);
    at' := at;
    if IsMoment(w, f, p) {
      var y := EventAt(w, f, p);
      if IsMoment(w, m, i) {
        EventShortened(w, m, f, i);
        ThinsStep(Moments(w, m, i), Moments(w, f, p), at, EventAt(w, m, i), y);
        at' := at + [|Moments(w, f, p)|];
      } else {
        ThinsStep(Moments(w, m, i), Moments(w, f, p), at, y, y);
      }
    }
  }

  /** Refutation only removes: the walk with refutation on is a subsequence of the walk with it
      off, equal in every field except a dwell that is no larger. */
  lemma RefutationOnlyRemoves(w: Terms, high: seq<Tick>, low: seq<Tick>) returns (at: seq<nat>)
    ensures Thins(Walk(w, Merged(w.T, high, low, true)), Walk(w, Merged(w.T, high, low, false)), at)
  {
    var m := Merged(w.T, high, low, true);
    MergedIsChronicle(w.T, high, low, true);
    MergedWithoutRefutation(w.T, high, low);
    at := MomentsThin(w, m, Filter(IsSame, m), |m|);
    PlaceCounts(m, |m|);
    assert m[..|m|] == m;
  }

  // ----- What the comparison reports -----

  ghost predicate KeptByShortening(keep: Event -> bool) {
    forall a: Event, b: Event :: Shortened(a, b) ==> keep(a) == keep(b)
  }

  lemma ThinsBoth(a: seq<Event>, b: seq<Event>, at: seq<nat>)
    requires Thins(a, b, at) && a != [] && at[|at| - 1] == |b| - 1
    ensures Thins(a[..|a| - 1], b[..|b| - 1], at[..|at| - 1])
    ensures Shortened(a[|a| - 1], b[|b| - 1])
  {}

  lemma ThinsRest(a: seq<Event>, b: seq<Event>, at: seq<nat>)
    requires Thins(a, b, at) && b != [] && (a != [] ==> at[|at| - 1] != |b| - 1)
    ensures Thins(a, b[..|b| - 1], at)
  {}

  lemma LastEventCounts(keep: Event -> bool, a: seq<Event>)
    requires a != []
    ensures var before, x := Filter(keep, a[..|a| - 1]), a[|a| - 1];
            && |Filter(keep, a)| == |before| + (if keep(x) then 1 else 0)
            && Sum(Dwell, Filter(keep, a)) == Sum(Dwell, before) + (if keep(x) then x.dwell else 0.0)
  {
    var before, x := Filter(keep, a[..|a| - 1]), a[|a| - 1];
    if keep(x) {
      SumSnoc(Dwell, before, x);
    }
  }

  lemma {:induction false} ThinningCounts(keep: Event -> bool, a: seq<Event>, b: seq<Event>, at: seq<nat>)
    requires Thins(a, b, at) && KeptByShortening(keep)
    requires forall i :: 0 <= i < |b| ==> b[i].dwell >= 0.0
    ensures |Filter(keep, a)| <= |Filter(keep, b)|
    ensures Sum(Dwell, Filter(keep, a)) <= Sum(Dwell, Filter(keep, b))
    decreases |b|
  {
    if b == [] {
    } else {
      LastEventCounts(keep, b);
      if a != [] && at[|at| - 1] == |b| - 1 {
        ThinsBoth(a, b, at);
        ThinningCounts(keep, a[..|a| - 1], b[..|b| - 1], at[..|at| - 1]);
        LastEventCounts(keep, a);
      } else {
        ThinsRest(a, b, at);
        ThinningCounts(keep, a, b[..|b| - 1], at);
      }
    }
  }

  lemma {:induction false} WalkDwells(w: Terms, m: seq<Print>, n: nat)
    requires Chronicle(w.T, m) && n <= |m|
    ensures forall i :: 0 <= i < |Moments(w, m, n)| ==> Moments(w, m, n)[i].dwell >= 0.0
  {
    if n == 0 {
    } else {
      WalkDwells(w, m, n - 1);
      if IsMoment(w, m, n - 1) {
        MomentBounds(w, m, n - 1);
      }
    }
  }

  /** Thinning lowers every count and every total the summaries hold. */
  lemma ThinningSummary(a: seq<Event>, b: seq<Event>, at: seq<nat>)
    requires Thins(a, b, at)
    requires forall i :: 0 <= i < |b| ==> b[i].dwell >= 0.0
    ensures Summarize(a).nEvents <= Summarize(b).nEvents
    ensures Summarize(a).nEvPlus <= Summarize(b).nEvPlus
    ensures Summarize(a).evPlusSeconds <= Summarize(b).evPlusSeconds
    ensures Summarize(a).nHardFloor <= Summarize(b).nHardFloor
    ensures Summarize(a).hardFloorSeconds <= Summarize(b).hardFloorSeconds
  {
    ThinningCounts(IsEvPlus, a, b, at);
    ThinningCounts(IsHardFloor, a, b, at);
    ThinningCounts(_ => true, a, b, at);
    FilterAll(a);
    FilterAll(b);
  }

  lemma {:induction false} FilterAll(a: seq<Event>)
    ensures Filter(_ => true, a) == a
  {
    if a == [] {
    } else {
      FilterAll(a[..|a| - 1]);
    }
  }

  /** Every count and every second the before/after comparison reports satisfies after <= before. */
  lemma RefutationDelta(w: Terms, high: seq<Tick>, low: seq<Tick>)
    ensures var after := Summarize(Walk(w, Merged(w.T, high, low, true)));
            var before := Summarize(Walk(w, Merged(w.T, high, low, false)));
            && after.nEvents <= before.nEvents
            && after.nEvPlus <= before.nEvPlus && after.evPlusSeconds <= before.evPlusSeconds
            && after.nHardFloor <= before.nHardFloor && after.hardFloorSeconds <= before.hardFloorSeconds
  {
    var a, b := Walk(w, Merged(w.T, high, low, true)), Walk(w, Merged(w.T, high, low, false));
    var at := RefutationOnlyRemoves(w, high, low);
    MergedIsChronicle(w.T, high, low, false);
    WalkDwells(w, Merged(w.T, high, low, false), |Merged(w.T, high, low, false)|);
    ThinningSummary(a, b, at);
  }
}
