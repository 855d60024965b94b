/** Settlement geometry of the corridor pair (sim/census.py, sim/tape_sim.py).

    A 15-minute market with strike A and an hourly market with strike K settle on one print, px. The
    higher line is H and the lower is L. The strangle buys YES on H and NO on L; the flip buys
    NO on H and YES on L. */
module Settlement {

  datatype Outcome = Pin | Escape
  datatype Side = Yes | No
  datatype StrikeType = GreaterOrEqual | Greater | Unexpected
  datatype Settled<+A> = Settled(value: A) | IntegrityError

  /** The settled side of a market with this strike rule. */
  function RecomputeResult(rule: StrikeType, px: real, strike: real): Settled<Side> {
    match rule
    case GreaterOrEqual => Settled(if px >= strike then Yes else No)
    case Greater => Settled(if px > strike then Yes else No)
    case Unexpected => IntegrityError
  }

  /** PIN when neither strangle leg pays, ESCAPE when one does; both paying is impossible. */
  function ClassifyOutcome(h: Side, l: Side): Settled<Outcome> {
    if h.Yes? && l.No? then IntegrityError
    else if h.No? && l.Yes? then Settled(Pin)
    else Settled(Escape)
  }

  /** The flip's payout in dollars: NO on H plus YES on L. A payout of 0 is refused. */
  function FlipPayout(h: Side, l: Side): Settled<int> {
    var payout := (if h.No? then 1 else 0) + (if l.Yes? then 1 else 0);
    if payout == 0 then IntegrityError else Settled(payout)
  }

  /** The strangle's settlement as the walk credits it. */
  function StranglePayout(outcome: Outcome): int {
    if outcome.Pin? then 0 else 1
  }

  /** What holding one contract of `held` pays in a market that settled `result`. */
  function Pays(held: Side, result: Side): int {
    if held == result then 1 else 0
  }

  function Result15(px: real, A: real): Side {
    if px >= A then Yes else No
  }

  function Result1H(px: real, K: real): Side {
    if px > K then Yes else No
  }

  /** The settled side of the higher line: the 15-minute market when A is above K. */
  function HighResult(px: real, A: real, K: real): Side {
    if A > K then Result15(px, A) else Result1H(px, K)
  }

  function LowResult(px: real, A: real, K: real): Side {
    if A > K then Result1H(px, K) else Result15(px, A)
  }

  /** The print is inside the corridor. The hourly strike belongs to the corridor only when it
      is the upper line, the anchor only when it is the lower one. */
  predicate InCorridor(px: real, A: real, K: real) {
    if A > K then K < px < A else A <= px <= K
  }

  /** For one print, the recomputed results never reach the impossible
      branch, the outcome is a pin exactly inside the corridor, the flip pays $2 on a pin and $1
      on an escape, and strangle and flip together always settle at $2. */
  lemma CorridorGeometry(px: real, A: real, K: real)
    ensures RecomputeResult(GreaterOrEqual, px, A) == Settled(Result15(px, A))
    ensures RecomputeResult(Greater, px, K) == Settled(Result1H(px, K))
    ensures var h, l := HighResult(px, A, K), LowResult(px, A, K);
            var outcome := ClassifyOutcome(h, l);
            && outcome == Settled(if InCorridor(px, A, K) then Pin else Escape)
            && FlipPayout(h, l) == Settled(if InCorridor(px, A, K) then 2 else 1)
            && Pays(Yes, h) + Pays(No, l) == StranglePayout(outcome.value)
            && Pays(No, h) + Pays(Yes, l) == FlipPayout(h, l).value
            && StranglePayout(outcome.value) + FlipPayout(h, l).value == 2
  {}

  /** The half-open pin regions written in the box documentation, [K, A) and [A, K). */
  predicate DocumentedPinRegion(px: real, A: real, K: real) {
    if A > K then K <= px < A else A <= px < K
  }

  /** They differ from what settles in exactly one point: a print on the hourly strike. */
  lemma DocumentedRegionDiffersOnlyAtStrike(px: real, A: real, K: real)
    requires A != K
    ensures DocumentedPinRegion(px, A, K) != InCorridor(px, A, K) <==> px == K
  {}
}
