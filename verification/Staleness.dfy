/** How the staleness horizon changes a walk: a tighter horizon is an exact filter on the events
    of a looser one (the 60 s and 5 s passes of sim/tape_sim.py). */
module Staleness {
  import opened Sequences
  import opened Tape
  import opened Refutation

  function Max(a: real, b: real): real {
    if a >= b then a else b
  }

  /** Both leg ages of the event fit the horizon. */
  predicate Fits(staleness: real, e: Event) {
    e.highAge <= staleness && e.lowAge <= staleness
  }

  /** The event with its dwell cut where its older fill leaves the horizon. */
  function Cut(staleness: real, e: Event): Event {
    e.(dwell := Min(e.dwell, staleness - Max(e.highAge, e.lowAge)))
  }

  /** Keep the events that fit, each one cut. */
  function Tighten(staleness: real, events: seq<Event>): seq<Event> {
    if events == [] then []
    else
      var rest, e := Tighten(staleness, events[..|events| - 1]), events[|events| - 1];
      if Fits(staleness, e) then rest + [Cut(staleness, e)] else rest
  }

  lemma CutIsExact(w: Terms, s: real, fill: Print, h: Carry, l: Carry, end: real)
    requires s <= w.staleness
    ensures EventOf(w.(staleness := s), fill, h, l, end) == Cut(s, EventOf(w, fill, h, l, end))
  {}

  lemma MomentFits(w: Terms, s: real, m: seq<Print>, i: nat)
    requires Chronicle(w.T, m) && i < |m| && s <= w.staleness
    ensures IsMoment(w.(staleness := s), m, i) <==> IsMoment(w, m, i) && Fits(s, EventAt(w, m, i))
    ensures IsMoment(w.(staleness := s), m, i) ==>
              EventAt(w.(staleness := s), m, i) == Cut(s, EventAt(w, m, i))
  {
    if IsMoment(w, m, i) {
      MomentLegs(w, m, i);
      var h, l := Held(m, i + 1, High), Held(m, i + 1, Low);
      CutIsExact(w, s, m[i], h, l, EndTime(m, i + 1, h.price, l.price, w.T));
      var k := Latest(m, i, Other(m[i].leg));
      assert m[k].ts <= m[i].ts;
    }
  }

  lemma {:induction false} MomentsTighten(w: Terms, s: real, m: seq<Print>, n: nat)
    requires Chronicle(w.T, m) && n <= |m| && s <= w.staleness
    ensures Moments(w.(staleness := s), m, n) == Tighten(s, Moments(w, m, n))
  {
    if n == 0 {
    } else {
      MomentsTighten(w, s, m, n - 1);
      MomentFits(w, s, m, n - 1);
      var before := Moments(w, m, n - 1);
      if IsMoment(w, m, n - 1) {
        assert (before + [EventAt(w, m, n - 1)])[..|before|] == before;
      }
    }
  }

  /** For any horizon `s` no longer than the walk's own, walking with `s` gives exactly the
      events whose two leg ages are at most `s`, each dwelling until the earlier of its old end
      and the moment its older fill is `s` old. */
  lemma StalenessIsExactFilter(w: Terms, s: real, high: seq<Tick>, low: seq<Tick>, refute: bool)
    requires s <= w.staleness
    ensures var m := Merged(w.T, high, low, refute);
            Walk(w.(staleness := s), m) == Tighten(s, Walk(w, m))
  {
    var m := Merged(w.T, high, low, refute);
    MergedIsChronicle(w.T, high, low, refute);
    MomentsTighten(w, s, m, |m|);
  }

  lemma {:induction false} TightenThins(s: real, events: seq<Event>) returns (at: seq<nat>)
    ensures Thins(Tighten(s, events), events, at)
  {
    if events == [] {
      at := [];
    } else {
      var rest, e := events[..|events| - 1], events[|events| - 1];
      at := TightenThins(s, rest);
      ThinsStep(Tighten(s, rest), rest, at, Cut(s, e), e);
      assert events == rest + [e];
      if Fits(s, e) {
        at := at + [|rest|];
      }
    }
  }

  /** The tighter pass is a lower bound on every count and every second of the looser one. */
  lemma TighterPassIsLowerBound(w: Terms, s: real, high: seq<Tick>, low: seq<Tick>, refute: bool)
    requires s <= w.staleness
    ensures var m := Merged(w.T, high, low, refute);
            var tight, loose := Summarize(Walk(w.(staleness := s), m)), Summarize(Walk(w, m));
            && tight.nEvents <= loose.nEvents
            && tight.nEvPlus <= loose.nEvPlus && tight.evPlusSeconds <= loose.evPlusSeconds
            && tight.nHardFloor <= loose.nHardFloor && tight.hardFloorSeconds <= loose.hardFloorSeconds
  {
    var m := Merged(w.T, high, low, refute);
    var a, b := Walk(w.(staleness := s), m), Walk(w, m);
    StalenessIsExactFilter(w, s, high, low, refute);
    MergedIsChronicle(w.T, high, low, refute);
    WalkDwells(w, m, |m|);
    var at := TightenThins(s, b);
    ThinningSummary(a, b, at);
  }
}
