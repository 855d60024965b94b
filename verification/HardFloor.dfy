/** The "enter at the first hard-floor moment" policy (sim/tape_sim.py): what a pass banks for certain,
    what it realizes, and how the guaranteed floors are distributed. */
module HardFloor {
  import opened Sequences
  import opened Settlement
  import opened Tape
  import opened Policy
  import opened TapeRows

  /** One entered window: the cost and the realized payoff of its first hard-floor moment. */
  datatype FloorEntry = FloorEntry(C: real, payoff: real, pin: bool)

  /** The floor that is banked whether the pair pins or escapes. */
  function Guaranteed(e: FloorEntry): real {
    1.0 - e.C
  }

  function Realized(e: FloorEntry): real {
    e.payoff
  }

  predicate IsPin(e: FloorEntry) {
    e.pin
  }

  /** The windows that have a hard-floor moment, each entered at its first one. */
  function FloorEntries(sums: seq<Summary>, pins: seq<bool>): seq<FloorEntry>
    requires |sums| == |pins|
  {
    if sums == [] then []
    else
      var n := |sums| - 1;
      var rest, first := FloorEntries(sums[..n], pins[..n]), sums[n].firstHardFloor;
      if first.None? then rest else rest + [FloorEntry(first.value.C, first.value.payoff, pins[n])]
  }

  // ----- The report -----

  const SUB_TICK := 0.01
  const FLOOR_BOUNDS := [0.0, 0.01, 0.05, 0.10, 0.25]

  predicate InFloorBucket(b: nat, e: FloorEntry)
    requires b < |FLOOR_BOUNDS|
  {
    FLOOR_BOUNDS[b] <= Guaranteed(e) && (b + 1 < |FLOOR_BOUNDS| ==> Guaranteed(e) < FLOOR_BOUNDS[b + 1])
  }

  /** How many floors lie in each of the five bands. */
  function Histogram(entries: seq<FloorEntry>): (h: seq<nat>)
    ensures |h| == |FLOOR_BOUNDS|
  {
    seq(|FLOOR_BOUNDS|, b requires 0 <= b < |FLOOR_BOUNDS| => CountIn(entries, b))
  }

  function CountIn(entries: seq<FloorEntry>, b: nat): nat
    requires b < |FLOOR_BOUNDS|
  {
    if entries == [] then 0
    else CountIn(entries[..|entries| - 1], b) + if InFloorBucket(b, entries[|entries| - 1]) then 1 else 0
  }

  predicate IsSubTick(e: FloorEntry) {
    Guaranteed(e) < SUB_TICK
  }

  datatype FloorPolicy = FloorPolicy(
    nEntered: nat, nPins: nat, nEscapes: nat, guaranteed: real, realized: real, nSubTick: nat, histogram: seq<nat>)

  function HardFloorPolicy(entries: seq<FloorEntry>): FloorPolicy {
    var pins := |Filter(IsPin, entries)|;
    FloorPolicy(|entries|, pins, |entries| - pins, Sum(Guaranteed, entries), Sum(Realized, entries),
                |Filter(IsSubTick, entries)|, Histogram(entries))
  }

  // ----- What the entries of a pass are -----

  /** A hard floor is positive, and a pin pays exactly one dollar more than it. */
  predicate Riskless(e: FloorEntry) {
    Guaranteed(e) > 0.0 && Realized(e) == Guaranteed(e) + if e.pin then 1.0 else 0.0
  }

  ghost predicate AllRiskless(entries: seq<FloorEntry>) {
    forall i :: 0 <= i < |entries| ==> Riskless(entries[i])
  }

  function Pins(ws: seq<Eligible>): (pins: seq<bool>)
    ensures |pins| == |ws|
  {
    seq(|ws|, i requires 0 <= i < |ws| => ws[i].outcome.Pin?)
  }

  /** The hard-floor entries of a pass: the flip walks of its windows. */
  ghost function PassEntries(ws: seq<Eligible>, staleness: real, refute: bool): seq<FloorEntry>
    requires AllWalkable(ws)
  {
    FloorEntries(Summaries(Flip, ws, staleness, refute), Pins(ws))
  }

  /** The summary's first hard-floor event, if there is one, is riskless for a window that pins or not. */
  predicate FloorIsRiskless(s: Summary, pin: bool) {
    s.firstHardFloor.Some? ==>
      Riskless(FloorEntry(s.firstHardFloor.value.C, s.firstHardFloor.value.payoff, pin))
  }

  lemma FirstFloorIsRiskless(events: seq<Event>, settle: real, pin: bool)
    requires settle == if pin then 2.0 else 1.0
    requires forall i :: 0 <= i < |events| ==>
               events[i].payoff == settle - events[i].C && (events[i].hardFloor <==> events[i].C < 1.0)
    ensures FloorIsRiskless(Summarize(events), pin)
  {
    var floor := Filter(IsHardFloor, events);
    if floor != [] {
      FilterMembers(IsHardFloor, events, floor[0]);
    }
  }

  lemma WindowFloorIsRiskless(w: Eligible, staleness: real, refute: bool)
    requires Walkable(w)
    ensures FloorIsRiskless(Summarize(DirectionEvents(Flip, w, staleness, refute)), w.outcome.Pin?)
  {
    var terms, m := TermsFor(Flip, w, staleness), DirectionMerged(Flip, w, refute);
    MomentsPriced(terms, m, |m|);
    FirstFloorIsRiskless(DirectionEvents(Flip, w, staleness, refute), terms.settle, w.outcome.Pin?);
  }

  lemma {:induction false} EntriesAreRiskless(sums: seq<Summary>, pins: seq<bool>)
    requires |sums| == |pins| && forall i :: 0 <= i < |sums| ==> FloorIsRiskless(sums[i], pins[i])
    ensures AllRiskless(FloorEntries(sums, pins))
  {
    if sums == [] {
    } else {
      var n := |sums| - 1;
      EntriesAreRiskless(sums[..n], pins[..n]);
      assert FloorIsRiskless(sums[n], pins[n]);
    }
  }

  /** Every entry of a pass is riskless: its floor is positive whatever happens, and a pin adds $1. */
  lemma PassIsRiskless(ws: seq<Eligible>, staleness: real, refute: bool)
    requires AllWalkable(ws)
    ensures AllRiskless(PassEntries(ws, staleness, refute))
  {
    var sums := Summaries(Flip, ws, staleness, refute);
    forall i | 0 <= i < |sums|
      ensures FloorIsRiskless(sums[i], Pins(ws)[i])
    {
      WindowFloorIsRiskless(ws[i], staleness, refute);
    }
    EntriesAreRiskless(sums, Pins(ws));
  }

  // ----- What the report adds up to -----

  /** The realized total is the guaranteed total and one dollar for each pin. */
  lemma {:induction false} BonusIsPins(entries: seq<FloorEntry>)
    requires AllRiskless(entries)
    ensures Sum(Realized, entries) == Sum(Guaranteed, entries) + |Filter(IsPin, entries)| as real
    ensures Sum(Guaranteed, entries) >= 0.0 && (entries != [] ==> Sum(Guaranteed, entries) > 0.0)
    ensures |Filter(IsPin, entries)| <= |entries|
  {
    if entries == [] {
    } else {
      BonusIsPins(entries[..|entries| - 1]);
      assert Riskless(entries[|entries| - 1]);
    }
  }

  function CountSum(counts: seq<nat>): nat {
    if counts == [] then 0 else CountSum(counts[..|counts| - 1]) + counts[|counts| - 1]
  }

  lemma OneBand(e: FloorEntry)
    requires Guaranteed(e) > 0.0
    ensures (if InFloorBucket(0, e) then 1 else 0) + (if InFloorBucket(1, e) then 1 else 0)
              + (if InFloorBucket(2, e) then 1 else 0) + (if InFloorBucket(3, e) then 1 else 0)
              + (if InFloorBucket(4, e) then 1 else 0) == 1
    ensures IsSubTick(e) <==> InFloorBucket(0, e)
  {}

  lemma {:induction false} BandsCover(entries: seq<FloorEntry>)
    requires AllRiskless(entries)
    ensures CountIn(entries, 0) + CountIn(entries, 1) + CountIn(entries, 2) + CountIn(entries, 3) + CountIn(entries, 4)
              == |entries|
    ensures CountIn(entries, 0) == |Filter(IsSubTick, entries)|
  {
    if entries == [] {
    } else {
      BandsCover(entries[..|entries| - 1]);
      assert Riskless(entries[|entries| - 1]);
      OneBand(entries[|entries| - 1]);
    }
  }

  lemma SumOfFive(h: seq<nat>)
    requires |h| == 5
    ensures CountSum(h) == h[0] + h[1] + h[2] + h[3] + h[4]
  {
    assert CountSum(h[..1]) == h[0];
    assert h[..2][..1] == h[..1];
    assert CountSum(h[..2]) == h[0] + h[1];
    assert h[..3][..2] == h[..2];
    assert CountSum(h[..3]) == h[0] + h[1] + h[2];
    assert h[..4][..3] == h[..3];
    assert CountSum(h[..4]) == h[0] + h[1] + h[2] + h[3];
  }

  /** Over any pass the report adds up: realized is guaranteed plus the pins, the guaranteed total is
      positive as soon as a window is entered, the five bands hold each entered window once, and the
      first band is the sub-tick count. */
  lemma PolicyAddsUp(ws: seq<Eligible>, staleness: real, refute: bool)
    requires AllWalkable(ws)
    ensures var p := HardFloorPolicy(PassEntries(ws, staleness, refute));
            && p.realized == p.guaranteed + p.nPins as real
            && p.nPins + p.nEscapes == p.nEntered
            && p.guaranteed >= 0.0 && (p.nEntered > 0 ==> p.guaranteed > 0.0)
            && CountSum(p.histogram) == p.nEntered && p.histogram[0] == p.nSubTick
  {
    var entries := PassEntries(ws, staleness, refute);
    PassIsRiskless(ws, staleness, refute);
    BonusIsPins(entries);
    BandsCover(entries);
    SumOfFive(Histogram(entries));
  }

  // ----- The report in plain terms -----

  /** The walk has an event under $1. */
  ghost predicate HasFloor(walk: seq<Event>) {
    exists k :: 0 <= k < |walk| && walk[k].C < 1.0
  }

  /** `C` is what the first such event costs. */
  ghost predicate FirstFloor(walk: seq<Event>, C: real) {
    C < 1.0 && exists k :: 0 <= k < |walk| && walk[k].C == C && forall j :: 0 <= j < k ==> walk[j].C >= 1.0
  }

  ghost function FloorAt(walks: seq<seq<Event>>): nat -> bool {
    (i: nat) => i < |walks| && HasFloor(walks[i])
  }

  /** The entry of a window is made at the first such event, and pays $2 on a pin, else $1, less its cost. */
  ghost predicate IsFloorEntry(w: Eligible, walk: seq<Event>, e: FloorEntry) {
    && FirstFloor(walk, e.C) && (e.pin <==> w.outcome == Pin)
    && e.payoff == (if w.outcome == Pin then 2.0 else 1.0) - e.C
  }

  ghost function FloorEntryAt(ws: seq<Eligible>, walks: seq<seq<Event>>): (nat, FloorEntry) -> bool {
    (i: nat, e: FloorEntry) => i < |ws| && i < |walks| && IsFloorEntry(ws[i], walks[i], e)
  }

  /** The entries of a pass: one for each window whose flip walk has an event under $1, in order. */
  ghost predicate EntersAtFloor(ws: seq<Eligible>, staleness: real, refute: bool, entries: seq<FloorEntry>) {
    exists walks: seq<seq<Event>>, at: seq<nat> ::
      && |walks| == |ws| && (forall i :: 0 <= i < |ws| ==> Follows(Flip, ws[i], staleness, refute, walks[i]))
      && Lists(|ws|, FloorAt(walks), FloorEntryAt(ws, walks), at, entries)
  }

  ghost function FloorsFrom(entries: seq<FloorEntry>, lo: real): set<int> {
    set i | 0 <= i < |entries| && 1.0 - entries[i].C >= lo
  }

  /** How many floors lie in each of the five bands from $0, $0.01, $0.05, $0.10 and $0.25 on. */
  ghost predicate HistogramTells(entries: seq<FloorEntry>, h: seq<nat>) {
    && |h| == 5
    && h[0] == |FloorsFrom(entries, 0.0) - FloorsFrom(entries, 0.01)|
    && h[1] == |FloorsFrom(entries, 0.01) - FloorsFrom(entries, 0.05)|
    && h[2] == |FloorsFrom(entries, 0.05) - FloorsFrom(entries, 0.10)|
    && h[3] == |FloorsFrom(entries, 0.10) - FloorsFrom(entries, 0.25)|
    && h[4] == |FloorsFrom(entries, 0.25)|
  }

  /** What the policy's report says of its entries. */
  ghost predicate PolicyTells(entries: seq<FloorEntry>, p: FloorPolicy) {
    && p.nEntered == |entries|
    && p.nPins == |set i | 0 <= i < |entries| && entries[i].pin|
    && p.nEscapes == |set i | 0 <= i < |entries| && !entries[i].pin|
    && p.guaranteed == Sum((e: FloorEntry) => 1.0 - e.C, entries)
    && p.realized == Sum((e: FloorEntry) => e.payoff, entries)
    && p.nSubTick == |set i | 0 <= i < |entries| && 1.0 - entries[i].C < 0.01|
    && HistogramTells(entries, p.histogram)
  }

  lemma {:induction false} BandIsCounted(entries: seq<FloorEntry>, b: nat)
    requires b < 5
    ensures CountIn(entries, b) == |set i | 0 <= i < |entries| && InFloorBucket(b, entries[i])|
  {
    var all := set i | 0 <= i < |entries| && InFloorBucket(b, entries[i]);
    if entries == [] {
      assert all == {};
    } else {
      var rest, n := entries[..|entries| - 1], |entries| - 1;
      BandIsCounted(rest, b);
      var before := set i | 0 <= i < |rest| && InFloorBucket(b, rest[i]);
      assert all == before + if InFloorBucket(b, entries[n]) then {n} else {};
    }
  }

  lemma HistogramIsTold(entries: seq<FloorEntry>)
    ensures HistogramTells(entries, Histogram(entries))
  {
    forall b: nat | b < 5
      ensures CountIn(entries, b) == |set i | 0 <= i < |entries| && InFloorBucket(b, entries[i])|
    {
      BandIsCounted(entries, b);
    }
    assert (set i | 0 <= i < |entries| && InFloorBucket(0, entries[i])) ==
           FloorsFrom(entries, 0.0) - FloorsFrom(entries, 0.01);
    assert (set i | 0 <= i < |entries| && InFloorBucket(1, entries[i])) ==
           FloorsFrom(entries, 0.01) - FloorsFrom(entries, 0.05);
    assert (set i | 0 <= i < |entries| && InFloorBucket(2, entries[i])) ==
           FloorsFrom(entries, 0.05) - FloorsFrom(entries, 0.10);
    assert (set i | 0 <= i < |entries| && InFloorBucket(3, entries[i])) ==
           FloorsFrom(entries, 0.10) - FloorsFrom(entries, 0.25);
    assert (set i | 0 <= i < |entries| && InFloorBucket(4, entries[i])) == FloorsFrom(entries, 0.25);
  }

  lemma {:induction false} SumsArePlain(entries: seq<FloorEntry>)
    ensures Sum(Guaranteed, entries) == Sum((e: FloorEntry) => 1.0 - e.C, entries)
    ensures Sum(Realized, entries) == Sum((e: FloorEntry) => e.payoff, entries)
  {
    if entries == [] {
    } else {
      SumsArePlain(entries[..|entries| - 1]);
    }
  }

  lemma EscapesAreCounted(entries: seq<FloorEntry>)
    ensures |Filter(IsPin, entries)| == |set i | 0 <= i < |entries| && entries[i].pin|
    ensures |entries| - |Filter(IsPin, entries)| == |set i | 0 <= i < |entries| && !entries[i].pin|
  {
    var escapes := (e: FloorEntry) => !e.pin;
    FilterCount(IsPin, entries);
    FilterCount(escapes, entries);
    FilterSplits(IsPin, escapes, entries);
    assert Kept(IsPin, entries) == set i | 0 <= i < |entries| && entries[i].pin;
    assert Kept(escapes, entries) == set i | 0 <= i < |entries| && !entries[i].pin;
  }

  /** The report says what its entries say. */
  lemma PolicyIsTold(entries: seq<FloorEntry>)
    ensures PolicyTells(entries, HardFloorPolicy(entries))
  {
    EscapesAreCounted(entries);
    SumsArePlain(entries);
    FilterCount(IsSubTick, entries);
    assert Kept(IsSubTick, entries) == set i | 0 <= i < |entries| && 1.0 - entries[i].C < 0.01;
    HistogramIsTold(entries);
  }

  /** The summary of a window's flip walk enters it at its first event under $1, if there is one. */
  ghost predicate EntersAsPlain(w: Eligible, walk: seq<Event>, s: Summary) {
    && (s.firstHardFloor.Some? <==> HasFloor(walk))
    && (s.firstHardFloor.Some? ==>
          IsFloorEntry(w, walk, FloorEntry(s.firstHardFloor.value.C, s.firstHardFloor.value.payoff, w.outcome.Pin?)))
  }

  lemma FirstFloorEntry(w: Eligible, staleness: real, refute: bool)
    requires Walkable(w)
    ensures var events := DirectionEvents(Flip, w, staleness, refute);
            EntersAsPlain(w, events, Summarize(events))
  {
    var terms, m := TermsFor(Flip, w, staleness), DirectionMerged(Flip, w, refute);
    MomentsPriced(terms, m, |m|);
    FirstFloorOf(w, DirectionEvents(Flip, w, staleness, refute));
  }

  lemma FirstFloorOf(w: Eligible, events: seq<Event>)
    requires forall i :: 0 <= i < |events| ==>
               var e := events[i];
               e.payoff == (if w.outcome.Pin? then 2.0 else 1.0) - e.C && (e.hardFloor <==> e.C < 1.0)
    ensures EntersAsPlain(w, events, Summarize(events))
  {
    FirstIsFirst(IsHardFloor, events);
  }

  ghost function EntersBy(sums: seq<Summary>): nat -> bool {
    (i: nat) => i < |sums| && sums[i].firstHardFloor.Some?
  }

  ghost function EntryBy(sums: seq<Summary>, pins: seq<bool>): (nat, FloorEntry) -> bool {
    (i: nat, e: FloorEntry) =>
      && i < |sums| && i < |pins| && sums[i].firstHardFloor.Some?
      && e == FloorEntry(sums[i].firstHardFloor.value.C, sums[i].firstHardFloor.value.payoff, pins[i])
  }

  lemma {:induction false} EntriesAreListed(sums: seq<Summary>, pins: seq<bool>, n: nat) returns (at: seq<nat>)
    requires |sums| == |pins| && n <= |sums|
    ensures Lists(n, EntersBy(sums), EntryBy(sums, pins), at, FloorEntries(sums[..n], pins[..n]))
  {
    if n == 0 {
      at := [];
    } else {
      var i := n - 1;
      at := EntriesAreListed(sums, pins, i);
      assert sums[..n][..i] == sums[..i] && pins[..n][..i] == pins[..i];
      var before, first := FloorEntries(sums[..i], pins[..i]), sums[i].firstHardFloor;
      if first.Some? {
        ListsMore(i, EntersBy(sums), EntryBy(sums, pins), at, before, FloorEntry(first.value.C, first.value.payoff, pins[i]));
        at := at + [i];
      } else {
        ListsSame(i, EntersBy(sums), EntryBy(sums, pins), at, before);
      }
    }
  }

  lemma EntriesArePlain(ws: seq<Eligible>, walks: seq<seq<Event>>, sums: seq<Summary>) returns (at: seq<nat>)
    requires |walks| == |ws| == |sums| && forall i :: 0 <= i < |ws| ==> EntersAsPlain(ws[i], walks[i], sums[i])
    ensures Lists(|ws|, FloorAt(walks), FloorEntryAt(ws, walks), at, FloorEntries(sums, Pins(ws)))
  {
    var pins := Pins(ws);
    at := EntriesAreListed(sums, pins, |ws|);
    assert sums[..|ws|] == sums && pins[..|ws|] == pins;
    ListsImply(|ws|, EntersBy(sums), EntryBy(sums, pins), FloorAt(walks), FloorEntryAt(ws, walks), at,
               FloorEntries(sums, pins));
  }

  lemma EntersFrom(ws: seq<Eligible>, staleness: real, refute: bool, walks: seq<seq<Event>>, at: seq<nat>,
                   entries: seq<FloorEntry>)
    requires |walks| == |ws| && forall i :: 0 <= i < |ws| ==> Follows(Flip, ws[i], staleness, refute, walks[i])
    requires Lists(|ws|, FloorAt(walks), FloorEntryAt(ws, walks), at, entries)
    ensures EntersAtFloor(ws, staleness, refute, entries)
  {}

  /** The entries of a pass are those of its flip walks, and the report says what they say. */
  lemma PassEntersAtFloor(ws: seq<Eligible>, staleness: real, refute: bool)
    requires AllWalkable(ws)
    ensures var entries := PassEntries(ws, staleness, refute);
            EntersAtFloor(ws, staleness, refute, entries) && PolicyTells(entries, HardFloorPolicy(entries))
  {
    var walks := seq(|ws|, i requires 0 <= i < |ws| => DirectionEvents(Flip, ws[i], staleness, refute));
    var sums := Summaries(Flip, ws, staleness, refute);
    forall i | 0 <= i < |ws|
      ensures Follows(Flip, ws[i], staleness, refute, walks[i]) && EntersAsPlain(ws[i], walks[i], sums[i])
    {
      DirectionIsWalked(Flip, ws[i], staleness, refute);
      FirstFloorEntry(ws[i], staleness, refute);
    }
    var at := EntriesArePlain(ws, walks, sums);
    EntersFrom(ws, staleness, refute, walks, at, PassEntries(ws, staleness, refute));
    PolicyIsTold(PassEntries(ws, staleness, refute));
  }

  // ----- Which windows are entered -----

  function CountFloored(sums: seq<Summary>): nat {
    if sums == [] then 0 else CountFloored(sums[..|sums| - 1]) + if sums[|sums| - 1].nHardFloor > 0 then 1 else 0
  }

  ghost predicate FirstMatchesCount(s: Summary) {
    s.firstHardFloor.Some? <==> s.nHardFloor > 0
  }

  lemma {:induction false} EntriesCountFloored(sums: seq<Summary>, pins: seq<bool>)
    requires |sums| == |pins| && forall i :: 0 <= i < |sums| ==> FirstMatchesCount(sums[i])
    ensures |FloorEntries(sums, pins)| == CountFloored(sums)
  {
    if sums == [] {
    } else {
      var n := |sums| - 1;
      EntriesCountFloored(sums[..n], pins[..n]);
      assert FirstMatchesCount(sums[n]);
    }
  }

  lemma {:induction false} FlooredShrinks(a: seq<Summary>, b: seq<Summary>)
    requires |a| == |b| && forall i :: 0 <= i < |a| ==> SumsNoMore(a[i], b[i])
    ensures CountFloored(a) <= CountFloored(b)
  {
    if a == [] {
    } else {
      var n := |a| - 1;
      FlooredShrinks(a[..n], b[..n]);
      assert SumsNoMore(a[n], b[n]);
    }
  }

  lemma PassCountsFloored(ws: seq<Eligible>, staleness: real, refute: bool)
    requires AllWalkable(ws)
    ensures |PassEntries(ws, staleness, refute)| == CountFloored(Summaries(Flip, ws, staleness, refute))
  {
    EntriesCountFloored(Summaries(Flip, ws, staleness, refute), Pins(ws));
  }

  /** Exactly the windows with a hard-floor event are entered; neither refutation nor a tighter
      staleness bound enters more of them. */
  lemma EnteredShrinks(ws: seq<Eligible>, s: real, staleness: real, refute: bool)
    requires AllWalkable(ws) && s <= staleness
    ensures |PassEntries(ws, staleness, true)| <= |PassEntries(ws, staleness, false)|
    ensures |PassEntries(ws, s, refute)| <= |PassEntries(ws, staleness, refute)|
  {
    forall i | 0 <= i < |ws|
      ensures SumsNoMore(Summaries(Flip, ws, staleness, true)[i], Summaries(Flip, ws, staleness, false)[i])
      ensures SumsNoMore(Summaries(Flip, ws, s, refute)[i], Summaries(Flip, ws, staleness, refute)[i])
    {
      WindowCompares(Flip, ws[i], s, staleness, refute);
    }
    FlooredShrinks(Summaries(Flip, ws, staleness, true), Summaries(Flip, ws, staleness, false));
    FlooredShrinks(Summaries(Flip, ws, s, refute), Summaries(Flip, ws, staleness, refute));
    PassCountsFloored(ws, staleness, true);
    PassCountsFloored(ws, staleness, false);
    PassCountsFloored(ws, s, refute);
    PassCountsFloored(ws, staleness, refute);
  }
}
