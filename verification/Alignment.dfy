/** Matching batch response slots to submitted legs (pilot/service/executor.py) and the price
    normalisation applied to each (pilot/service/orders/envelope.py). */
module Alignment {
  import opened Sequences
  import opened Settlement

  /** A client order id, known by identity. A blank id on the wire is `None`. */
  type Cid = int

  datatype Fault = PostException | HttpStatus(code: int) | Refused | NoMatchingSlot | VenueError

  datatype Response = Response(
    cid: Option<Cid>, fill: real, price: Option<real>, rawPrice: Option<real>, fault: Option<Fault>, noFill: bool)

  datatype Leg = Leg(ticker: string, side: Side, count: int, cid: Cid, exchangeIndex: Option<int>)

  function NoFill(cid: Cid, fault: Fault): Response {
    Response(Some(cid), 0.0, None, None, Some(fault), true)
  }

  /** Put the reported price into the side's own space, always from the raw venue price. */
  function Normalize(r: Response, side: Side): Response {
    var raw := if r.rawPrice.Some? then r.rawPrice else r.price;
    if raw.None? then r
    else r.(price := Some(if side.No? then 1.0 - raw.value else raw.value), rawPrice := raw)
  }

  /** Normalising again, to either side, is the same as normalising once to that side; nothing but
      the price is touched. */
  lemma NormalizeIsIdempotent(r: Response, first: Side, side: Side)
    ensures Normalize(Normalize(r, first), side) == Normalize(r, side)
    ensures Normalize(r, side) == r.(price := Normalize(r, side).price, rawPrice := Normalize(r, side).rawPrice)
    ensures r.rawPrice.None? && r.price.Some? ==>
              Normalize(r, No).price.value + Normalize(r, Yes).price.value == 1.0
    ensures Tells(side, r, Normalize(r, side)) && Normalize(r, side).cid == r.cid
  {}

  /** The last slot before `n` that carries `cid`. */
  function LastSlot(parsed: seq<Response>, n: nat, cid: Cid): (k: Option<nat>)
    requires n <= |parsed|
    ensures k.Some? ==> k.value < n && parsed[k.value].cid == Some(cid)
    ensures forall j :: 0 <= j < n && parsed[j].cid == Some(cid) ==> k.Some? && j <= k.value
  {
    if n == 0 then None
    else if parsed[n - 1].cid == Some(cid) then Some(n - 1)
    else LastSlot(parsed, n - 1, cid)
  }

  /** The slots that carry no id, in order. */
  function Anonymous(parsed: seq<Response>, n: nat): (a: seq<nat>)
    requires n <= |parsed|
    ensures forall i :: 0 <= i < |a| ==> a[i] < n && parsed[a[i]].cid.None?
    ensures forall i, j :: 0 <= i < j < |a| ==> a[i] < a[j]
  {
    if n == 0 then []
    else if parsed[n - 1].cid.None? then Anonymous(parsed, n - 1) + [n - 1]
    else Anonymous(parsed, n - 1)
  }

  /** Leg `i` finds a slot under its own id: some slot carries it and no earlier leg took it. */
  predicate Claims(legs: seq<Leg>, parsed: seq<Response>, i: nat)
    requires i < |legs|
  {
    LastSlot(parsed, |parsed|, legs[i].cid).Some? && forall j :: 0 <= j < i ==> legs[j].cid != legs[i].cid
  }

  /** How many of the legs before `i` had to wait for an anonymous slot. */
  function Waiting(legs: seq<Leg>, parsed: seq<Response>, i: nat): nat
    requires i <= |legs|
  {
    if i == 0 then 0
    else Waiting(legs, parsed, i - 1) + if Claims(legs, parsed, i - 1) then 0 else 1
  }

  /** The slot leg `i` is answered from: its own, else the next anonymous one, else none. */
  function SlotFor(legs: seq<Leg>, parsed: seq<Response>, i: nat): (slot: Option<nat>)
    requires i < |legs|
    ensures slot.Some? ==> slot.value < |parsed|
  {
    var anon, w := Anonymous(parsed, |parsed|), Waiting(legs, parsed, i);
    if Claims(legs, parsed, i) then LastSlot(parsed, |parsed|, legs[i].cid)
    else if w < |anon| then Some(anon[w])
    else None
  }

  function Answer(legs: seq<Leg>, parsed: seq<Response>, i: nat): Response
    requires i < |legs|
  {
    var slot := SlotFor(legs, parsed, i);
    if slot.None? then NoFill(legs[i].cid, NoMatchingSlot)
    else Normalize(parsed[slot.value].(cid := Some(legs[i].cid)), legs[i].side)
  }

  /** The ids still in the dictionary once the legs before `i` have popped theirs. */
  ghost predicate Unpopped(legs: seq<Leg>, parsed: seq<Response>, i: nat, byCid: map<Cid, nat>)
    requires i <= |legs|
  {
    forall c: Cid ::
      && (c in byCid <==> LastSlot(parsed, |parsed|, c).Some? && forall j :: 0 <= j < i ==> legs[j].cid != c)
      && (c in byCid ==> LastSlot(parsed, |parsed|, c) == Some(byCid[c]))
  }

  method IndexSlots(legs: seq<Leg>, parsed: seq<Response>) returns (byCid: map<Cid, nat>, leftover: seq<nat>)
    ensures Unpopped(legs, parsed, 0, byCid)
    ensures leftover == Anonymous(parsed, |parsed|)
  {
    byCid, leftover := map[], [];
    for k := 0 to |parsed|
      invariant forall c: Cid :: c in byCid <==> LastSlot(parsed, k, c).Some?
      invariant forall c: Cid :: c in byCid ==> LastSlot(parsed, k, c) == Some(byCid[c])
      invariant leftover == Anonymous(parsed, k)
    {
      if parsed[k].cid.Some? {
        byCid := byCid[parsed[k].cid.value := k];
      } else {
        leftover := leftover + [k];
      }
    }
  }

  lemma Pop(legs: seq<Leg>, parsed: seq<Response>, i: nat, byCid: map<Cid, nat>)
    requires i < |legs| && Unpopped(legs, parsed, i, byCid)
    ensures legs[i].cid in byCid <==> Claims(legs, parsed, i)
    ensures legs[i].cid in byCid ==> SlotFor(legs, parsed, i) == Some(byCid[legs[i].cid])
    ensures Unpopped(legs, parsed, i + 1, byCid - {legs[i].cid})
  {}

  /** What is left of the anonymous slots once the legs before `i` are answered. */
  function Leftover(legs: seq<Leg>, parsed: seq<Response>, i: nat): seq<nat>
    requires i <= |legs|
  {
    var anon, w := Anonymous(parsed, |parsed|), Waiting(legs, parsed, i);
    if w <= |anon| then anon[w..] else []
  }

  lemma TakeLeftover(legs: seq<Leg>, parsed: seq<Response>, i: nat)
    requires i < |legs|
    ensures var l := Leftover(legs, parsed, i);
            if Claims(legs, parsed, i) then Leftover(legs, parsed, i + 1) == l
            else
              && SlotFor(legs, parsed, i) == (if l == [] then None else Some(l[0]))
              && Leftover(legs, parsed, i + 1) == if l == [] then [] else l[1..]
  {}

  /** Answer leg `i`, popping its slot from the dictionary or from the anonymous ones. */
  method AlignOne(legs: seq<Leg>, parsed: seq<Response>, i: nat, byCid: map<Cid, nat>, leftover: seq<nat>)
    returns (r: Response, byCid': map<Cid, nat>, leftover': seq<nat>)
    requires i < |legs| && Unpopped(legs, parsed, i, byCid) && leftover == Leftover(legs, parsed, i)
    ensures r == Answer(legs, parsed, i)
    ensures Unpopped(legs, parsed, i + 1, byCid') && leftover' == Leftover(legs, parsed, i + 1)
  {
    Pop(legs, parsed, i, byCid);
    TakeLeftover(legs, parsed, i);
    var leg := legs[i];
    byCid', leftover' := byCid - {leg.cid}, leftover;
    if leg.cid in byCid {
      var slot := parsed[byCid[leg.cid]];
      assert slot.(cid := Some(leg.cid)) == slot;
      r := Normalize(slot, leg.side);
    } else if leftover != [] {
      r := Normalize(parsed[leftover[0]].(cid := Some(leg.cid)), leg.side);
      leftover' := leftover[1..];
    } else {
      r := NoFill(leg.cid, NoMatchingSlot);
    }
  }

  function Answers(legs: seq<Leg>, parsed: seq<Response>): (out: seq<Response>)
    ensures |out| == |legs|
  {
    seq(|legs|, i requires 0 <= i < |legs| => Answer(legs, parsed, i))
  }

  // ----- The alignment in plain terms -----

  /** `r` tells `leg` what the slot says: its fill, fault and mark, and its venue price, read as one less
      that price for a NO leg. */
  ghost predicate Tells(side: Side, slot: Response, r: Response) {
    && r.fill == slot.fill && r.fault == slot.fault && r.noFill == slot.noFill
    && (slot.rawPrice == None && slot.price == None ==> r.rawPrice == None && r.price == None)
    && (slot.rawPrice != None || slot.price != None ==>
          var raw := if slot.rawPrice != None then slot.rawPrice.value else slot.price.value;
          r.rawPrice == Some(raw) && r.price == Some(if side == No then 1.0 - raw else raw))
  }

  /** Nothing filled, at no price. */
  ghost predicate Unfilled(leg: Leg, fault: Fault, r: Response) {
    r == Response(Some(leg.cid), 0.0, None, None, Some(fault), true)
  }

  /** Leg `i` owns slot `k`: the last slot with its id, which no earlier leg has. */
  ghost predicate Owns(legs: seq<Leg>, parsed: seq<Response>, i: nat, k: nat) {
    && i < |legs| && k < |parsed| && parsed[k].cid == Some(legs[i].cid)
    && (forall j :: k < j < |parsed| ==> parsed[j].cid != Some(legs[i].cid))
    && (forall j :: 0 <= j < i ==> legs[j].cid != legs[i].cid)
  }

  ghost predicate Queues(legs: seq<Leg>, parsed: seq<Response>, i: nat) {
    forall k :: 0 <= k < |parsed| ==> !Owns(legs, parsed, i, k)
  }

  ghost function QueuedBefore(legs: seq<Leg>, parsed: seq<Response>, i: nat): set<int> {
    set j: int | 0 <= j < i && Queues(legs, parsed, j)
  }

  ghost function NamelessBefore(parsed: seq<Response>, k: nat): set<int>
    requires k <= |parsed|
  {
    set j: int | 0 <= j < k && parsed[j].cid == None
  }

  /** A leg without a slot of its own takes the nameless slot with its own place in the queue. */
  ghost predicate Draws(legs: seq<Leg>, parsed: seq<Response>, i: nat, k: nat) {
    && k < |parsed| && Queues(legs, parsed, i) && parsed[k].cid == None
    && |NamelessBefore(parsed, k)| == |QueuedBefore(legs, parsed, i)|
  }

  /** The answer of leg `i`: from its own slot, else from the nameless one it draws, else none. */
  ghost predicate Aligned(legs: seq<Leg>, parsed: seq<Response>, i: nat, r: Response)
    requires i < |legs|
  {
    && r.cid == Some(legs[i].cid)
    && (|| (exists k :: 0 <= k < |parsed| && (Owns(legs, parsed, i, k) || Draws(legs, parsed, i, k))
                          && Tells(legs[i].side, parsed[k], r))
        || (Queues(legs, parsed, i) && |NamelessBefore(parsed, |parsed|)| <= |QueuedBefore(legs, parsed, i)|
            && Unfilled(legs[i], NoMatchingSlot, r)))
  }

  lemma ClaimsIff(legs: seq<Leg>, parsed: seq<Response>, i: nat)
    requires i < |legs|
    ensures Claims(legs, parsed, i) <==> !Queues(legs, parsed, i)
    ensures Claims(legs, parsed, i) ==> Owns(legs, parsed, i, LastSlot(parsed, |parsed|, legs[i].cid).value)
  {
    var k := LastSlot(parsed, |parsed|, legs[i].cid);
    if Claims(legs, parsed, i) {
      assert Owns(legs, parsed, i, k.value);
    }
  }

  lemma {:induction false} WaitingCounts(legs: seq<Leg>, parsed: seq<Response>, i: nat)
    requires i <= |legs|
    ensures Waiting(legs, parsed, i) == |QueuedBefore(legs, parsed, i)|
  {
    if i == 0 {
      assert QueuedBefore(legs, parsed, 0) == {};
    } else {
      WaitingCounts(legs, parsed, i - 1);
      ClaimsIff(legs, parsed, i - 1);
      assert QueuedBefore(legs, parsed, i) ==
               QueuedBefore(legs, parsed, i - 1) + if Queues(legs, parsed, i - 1) then {i - 1} else {};
    }
  }

  lemma NamelessStep(parsed: seq<Response>, n: nat)
    requires n < |parsed|
    ensures |NamelessBefore(parsed, n + 1)| == |NamelessBefore(parsed, n)| + if parsed[n].cid == None then 1 else 0
  {
    assert NamelessBefore(parsed, n + 1) == NamelessBefore(parsed, n) + if parsed[n].cid == None then {n} else {};
  }

  lemma {:induction false} AnonymousCounts(parsed: seq<Response>, n: nat)
    requires n <= |parsed|
    ensures |Anonymous(parsed, n)| == |NamelessBefore(parsed, n)|
    ensures forall w :: 0 <= w < |Anonymous(parsed, n)| ==> |NamelessBefore(parsed, Anonymous(parsed, n)[w])| == w
  {
    if n == 0 {
      assert NamelessBefore(parsed, 0) == {};
    } else {
      AnonymousCounts(parsed, n - 1);
      NamelessStep(parsed, n - 1);
    }
  }

  lemma NormalizedTells(slot: Response, cid: Cid, side: Side)
    ensures Tells(side, slot, Normalize(slot.(cid := Some(cid)), side))
    ensures Tells(side, slot, Normalize(slot, side)) && Normalize(slot, side).cid == slot.cid
  {}

  /** Every declared answer is the plain one. */
  lemma AnswerIsAligned(legs: seq<Leg>, parsed: seq<Response>, i: nat)
    requires i < |legs|
    ensures Aligned(legs, parsed, i, Answer(legs, parsed, i))
  {
    ClaimsIff(legs, parsed, i);
    WaitingCounts(legs, parsed, i);
    AnonymousCounts(parsed, |parsed|);
    var slot := SlotFor(legs, parsed, i);
    if slot.Some? {
      NormalizedTells(parsed[slot.value], legs[i].cid, legs[i].side);
      assert Owns(legs, parsed, i, slot.value) || Draws(legs, parsed, i, slot.value);
    }
  }

  /** One response per leg, in leg order, each answered from its declared slot. */
  method AlignBatch(legs: seq<Leg>, parsed: seq<Response>) returns (out: seq<Response>)
    ensures out == Answers(legs, parsed)
    ensures |out| == |legs| && forall i :: 0 <= i < |legs| ==> Aligned(legs, parsed, i, out[i])
  {
    var byCid, leftover := IndexSlots(legs, parsed);
    out := [];
    ghost var goal := Answers(legs, parsed);
    for i := 0 to |legs|
      invariant out == goal[..i]
      invariant Unpopped(legs, parsed, i, byCid) && leftover == Leftover(legs, parsed, i)
    {
      var r;
      r, byCid, leftover := AlignOne(legs, parsed, i, byCid, leftover);
      assert goal[..i + 1] == goal[..i] + [r];
      out := out + [r];
    }
    forall i | 0 <= i < |legs|
      ensures Aligned(legs, parsed, i, out[i])
    {
      AnswerIsAligned(legs, parsed, i);
    }
  }

  // ----- What alignment promises -----

  lemma AnswerNamesLeg(legs: seq<Leg>, parsed: seq<Response>, i: nat)
    requires i < |legs|
    ensures Answer(legs, parsed, i).cid == Some(legs[i].cid)
  {}

  lemma {:induction false} WaitingGrows(legs: seq<Leg>, parsed: seq<Response>, i: nat, j: nat)
    requires i < j <= |legs|
    ensures Waiting(legs, parsed, i) <= Waiting(legs, parsed, j)
    ensures !Claims(legs, parsed, i) ==> Waiting(legs, parsed, i) < Waiting(legs, parsed, j)
  {
    if i + 1 < j {
      WaitingGrows(legs, parsed, i, j - 1);
    }
  }

  /** No slot answers two legs. */
  lemma SlotsUsedOnce(legs: seq<Leg>, parsed: seq<Response>, i: nat, j: nat)
    requires i < j < |legs|
    requires SlotFor(legs, parsed, i).Some?
    ensures SlotFor(legs, parsed, i) != SlotFor(legs, parsed, j)
  {
    WaitingGrows(legs, parsed, i, j);
  }

  /** When every leg is answered under its own distinct id by exactly one slot, each leg gets that
      slot, whatever the order of the slots. */
  lemma EchoedIdsAlign(legs: seq<Leg>, parsed: seq<Response>, i: nat, k: nat)
    requires i < |legs| && k < |parsed|
    requires forall a, b :: 0 <= a < b < |legs| ==> legs[a].cid != legs[b].cid
    requires parsed[k].cid == Some(legs[i].cid)
    requires forall other :: 0 <= other < |parsed| && parsed[other].cid == Some(legs[i].cid) ==> other == k
    ensures Answer(legs, parsed, i) == Normalize(parsed[k], legs[i].side)
  {
    assert LastSlot(parsed, |parsed|, legs[i].cid) == Some(k);
    assert Claims(legs, parsed, i);
    assert parsed[k].(cid := Some(legs[i].cid)) == parsed[k];
  }

  /** When the exchange echoes no id at all, slots answer legs in order. */
  lemma AnonymousAlignsInOrder(legs: seq<Leg>, parsed: seq<Response>, i: nat)
    requires forall k :: 0 <= k < |parsed| ==> parsed[k].cid.None?
    requires i < |legs|
    ensures SlotFor(legs, parsed, i) == if i < |parsed| then Some(i) else None
  {
    AllAnonymous(parsed, |parsed|);
    AllWait(legs, parsed, i);
  }

  lemma {:induction false} AllAnonymous(parsed: seq<Response>, n: nat)
    requires n <= |parsed| && forall k :: 0 <= k < |parsed| ==> parsed[k].cid.None?
    ensures |Anonymous(parsed, n)| == n && forall i :: 0 <= i < n ==> Anonymous(parsed, n)[i] == i
  {
    if n == 0 {
    } else {
      AllAnonymous(parsed, n - 1);
    }
  }

  lemma {:induction false} AllWait(legs: seq<Leg>, parsed: seq<Response>, i: nat)
    requires i <= |legs| && forall k :: 0 <= k < |parsed| ==> parsed[k].cid.None?
    ensures Waiting(legs, parsed, i) == i
    ensures i < |legs| ==> !Claims(legs, parsed, i)
  {
    if i == 0 {
    } else {
      AllWait(legs, parsed, i - 1);
    }
  }
}
