/** The order executor (pilot/service/executor.py): the only path to the order endpoint. A chain of
    gates, then budget reservation, a journaled intent, one POST and journaled responses. */
module Execution {
  import opened Sequences
  import opened Settlement
  import opened Alignment

  datatype Purpose = Entry | RebalanceBuy | RebalanceSell | Flatten

  datatype Intent = Intent(window: int, purpose: Purpose, legs: seq<Leg>, tMinus: Option<real>)

  datatype Config = Config(
    maxContracts: int, prefixes: seq<string>, cutoff: real, budget: nat, tokensPerEntry: nat)

  /** How a response body reads as a single and as a batch response; a garbled one cannot be read. */
  datatype Body = Garbled | Body(one: Response, many: seq<Response>)

  /** What a dispatch meets: an envelope that cannot be built, a POST that raises, or a reply. */
  datatype Reply = Unbuildable | Raised | Replied(status: Option<int>, body: Body)

  /** How a dispatch ends: it raises before anything is posted, it raises on the reply's body, or
      every leg has its response. */
  datatype Ending = Unsent | Unread | Answered(responses: seq<Response>)

  datatype Refusal =
    StopNonFlatten | NotArmed | CapViolation | NoExchangeIndex | TooLate | AlreadyEntered | SingleFlight | BudgetExhausted

  datatype Result = Result(intent: Intent, responses: seq<Response>, refused: Option<Refusal>, status: Option<int>)

  datatype Record = IntentRecord(intent: Intent) | NoRouteRecord(intent: Intent) | ResponseRecord(response: Response)

  // ----- The gates -----

  /** A call as the gates see it. */
  datatype Call = Call(intent: Intent, tMinus: Option<real>, stop: bool, armed: bool)

  predicate Authorized(c: Call) {
    if c.stop then c.intent.purpose.Flatten? else c.armed
  }

  predicate LegWithinCaps(cfg: Config, leg: Leg) {
    0 < leg.count <= cfg.maxContracts && exists i :: 0 <= i < |cfg.prefixes| && cfg.prefixes[i] <= leg.ticker
  }

  predicate WithinCaps(cfg: Config, intent: Intent) {
    forall i :: 0 <= i < |intent.legs| ==> LegWithinCaps(cfg, intent.legs[i])
  }

  predicate IsRouted(intent: Intent) {
    forall i :: 0 <= i < |intent.legs| ==> intent.legs[i].exchangeIndex.Some?
  }

  predicate InTime(cfg: Config, c: Call) {
    c.tMinus.Some? ==> c.tMinus.value >= cfg.cutoff
  }

  /** The gates that do not depend on what was dispatched before. */
  predicate Permitted(cfg: Config, c: Call) {
    Authorized(c) && WithinCaps(cfg, c.intent) && IsRouted(c.intent) && InTime(cfg, c)
  }

  type FlightKey = (int, Side, Purpose)

  function FlightKeys(intent: Intent): set<FlightKey> {
    set i | 0 <= i < |intent.legs| :: (intent.window, intent.legs[i].side, intent.purpose)
  }

  function Used(tokens: map<int, nat>, window: int): nat {
    if window in tokens then tokens[window] else 0
  }

  function Cost(cfg: Config, intent: Intent): nat {
    cfg.tokensPerEntry * |intent.legs|
  }

  /** The first gate that refuses a call, in the order they are tried. */
  function Verdict(cfg: Config, c: Call, inflight: set<FlightKey>, entered: set<int>, tokens: map<int, nat>): Option<Refusal> {
    if c.stop && !c.intent.purpose.Flatten? then Some(StopNonFlatten)
    else if !c.stop && !c.armed then Some(NotArmed)
    else if !WithinCaps(cfg, c.intent) then Some(CapViolation)
    else if !IsRouted(c.intent) then Some(NoExchangeIndex)
    else if c.tMinus.Some? && c.tMinus.value < cfg.cutoff then Some(TooLate)
    else if c.intent.purpose.Entry? && c.intent.window in entered then Some(AlreadyEntered)
    else if FlightKeys(c.intent) * inflight != {} then Some(SingleFlight)
    else if Used(tokens, c.intent.window) + Cost(cfg, c.intent) > cfg.budget then Some(BudgetExhausted)
    else None
  }

  // ----- One dispatch -----

  function NoFills(legs: seq<Leg>, fault: Fault): (out: seq<Response>)
    ensures |out| == |legs|
  {
    seq(|legs|, i requires 0 <= i < |legs| => NoFill(legs[i].cid, fault))
  }

  /** A reply accepted by its status whose body cannot be read. */
  predicate UnreadableReply(reply: Reply) {
    reply.Replied? && reply.body.Garbled? && (reply.status.Some? ==> 200 <= reply.status.value < 300)
  }

  /** How a dispatch that meets `reply` ends. */
  function EndingOf(intent: Intent, reply: Reply): (e: Ending)
    ensures e.Answered? ==> |e.responses| == |intent.legs|
    ensures e.Unsent? <==> reply.Unbuildable?
    ensures e.Unread? <==> UnreadableReply(reply)
  {
    if reply.Unbuildable? then
      Unsent
    else if reply.Raised? then
      Answered(NoFills(intent.legs, PostException))
    else if reply.status.Some? && (reply.status.value == 429 || reply.status.value >= 500) then
      Answered(NoFills(intent.legs, HttpStatus(reply.status.value)))
    else if reply.status.Some? && (reply.status.value < 200 || reply.status.value >= 300) then
      Answered(NoFills(intent.legs, HttpStatus(reply.status.value)))
    else if reply.body.Garbled? then
      Unread
    else if |intent.legs| == 1 then
      Answered([Normalize(reply.body.one, intent.legs[0].side)])
    else
      Answered(Answers(intent.legs, reply.body.many))
  }

  /** The HTTP status a dispatch that returned reports. */
  function StatusOf(reply: Reply): Option<int> {
    if reply.Replied? then reply.status else None
  }

  // ----- The trace of a run -----

  /** Everything observable: journal writes, POSTs, and how each dispatch ended. */
  datatype Note =
    | Wrote(record: Record) | Posted(call: Call)
    | Returned(intent: Intent) | Crashed(intent: Intent) | Dropped(intent: Intent)

  function Writes(responses: seq<Response>): seq<Note> {
    seq(|responses|, i requires 0 <= i < |responses| => Wrote(ResponseRecord(responses[i])))
  }

  function RefusalNotes(c: Call, why: Refusal): seq<Note> {
    (if why.NoExchangeIndex? then [Wrote(NoRouteRecord(c.intent))] else []) +
    [Wrote(IntentRecord(c.intent))] + Writes(NoFills(c.intent.legs, Refused))
  }

  function DispatchNotes(c: Call, e: Ending): seq<Note> {
    [Wrote(IntentRecord(c.intent))] + SendNotes(c, e) + [EndNote(c, e)]
  }

  /** The POST and the journaled responses of a dispatch. */
  function SendNotes(c: Call, e: Ending): seq<Note> {
    match e
    case Unsent => []
    case Unread => [Posted(c)]
    case Answered(responses) => [Posted(c)] + Writes(responses)
  }

  function EndNote(c: Call, e: Ending): Note {
    match e
    case Unsent => Dropped(c.intent)
    case Unread => Crashed(c.intent)
    case Answered(_) => Returned(c.intent)
  }

  /** The journal is the trace with only its writes kept. */
  function Journal(trace: seq<Note>): seq<Record> {
    if trace == [] then []
    else
      var rest, note := Journal(trace[..|trace| - 1]), trace[|trace| - 1];
      if note.Wrote? then rest + [note.record] else rest
  }

  datatype Measure = LegsPosted | LegsDropped | LegsCharged | EntriesPosted | EntriesReturned | EntriesCrashed

  function Weight(k: Measure, window: int, note: Note): nat {
    match note
    case Wrote(_) => 0
    case Posted(c) =>
      if c.intent.window != window then 0
      else if k.LegsPosted? || k.LegsCharged? then |c.intent.legs|
      else if k.EntriesPosted? && c.intent.purpose.Entry? then 1
      else 0
    case Returned(i) => if k.EntriesReturned? && i.window == window && i.purpose.Entry? then 1 else 0
    case Crashed(i) => if k.EntriesCrashed? && i.window == window && i.purpose.Entry? then 1 else 0
    case Dropped(i) => if (k.LegsDropped? || k.LegsCharged?) && i.window == window then |i.legs| else 0
  }

  function Tally(k: Measure, window: int, trace: seq<Note>): nat {
    if trace == [] then 0 else Tally(k, window, trace[..|trace| - 1]) + Weight(k, window, trace[|trace| - 1])
  }

  lemma {:induction false} TallyConcat(k: Measure, window: int, a: seq<Note>, b: seq<Note>)
    ensures Tally(k, window, a + b) == Tally(k, window, a) + Tally(k, window, b)
  {
    if b == [] {
      assert a + b == a;
    } else {
      TallyConcat(k, window, a, b[..|b| - 1]);
      assert (a + b)[..|a + b| - 1] == a + b[..|b| - 1];
    }
  }

  lemma TallyOne(k: Measure, window: int, note: Note)
    ensures Tally(k, window, [note]) == Weight(k, window, note)
  {
    assert [note][..0] == [];
  }

  lemma {:induction false} TallyWrites(k: Measure, window: int, notes: seq<Note>)
    requires forall i :: 0 <= i < |notes| ==> notes[i].Wrote?
    ensures Tally(k, window, notes) == 0
  {
    if notes == [] {
    } else {
      TallyWrites(k, window, notes[..|notes| - 1]);
    }
  }

  lemma TallyRefusal(k: Measure, window: int, c: Call, why: Refusal)
    ensures Tally(k, window, RefusalNotes(c, why)) == 0
  {
    TallyWrites(k, window, RefusalNotes(c, why));
  }

  lemma TallyDispatch(k: Measure, window: int, c: Call, e: Ending)
    ensures var mine, entry := c.intent.window == window, c.intent.window == window && c.intent.purpose.Entry?;
            Tally(k, window, DispatchNotes(c, e)) ==
              match k
              case LegsPosted => if mine && !e.Unsent? then |c.intent.legs| else 0
              case LegsDropped => if mine && e.Unsent? then |c.intent.legs| else 0
              case LegsCharged => if mine then |c.intent.legs| else 0
              case EntriesPosted => if entry && !e.Unsent? then 1 else 0
              case EntriesReturned => if entry && e.Answered? then 1 else 0
              case EntriesCrashed => if entry && e.Unread? then 1 else 0
  {
    var head, send, end := [Wrote(IntentRecord(c.intent))], SendNotes(c, e), [EndNote(c, e)];
    TallyOne(k, window, head[0]);
    TallySend(k, window, c, e);
    TallyOne(k, window, end[0]);
    TallyConcat(k, window, head, send);
    TallyConcat(k, window, head + send, end);
  }

  lemma TallySend(k: Measure, window: int, c: Call, e: Ending)
    ensures Tally(k, window, SendNotes(c, e)) == if e.Unsent? then 0 else Weight(k, window, Posted(c))
  {
    TallyOne(k, window, Posted(c));
    if e.Answered? {
      TallyWrites(k, window, Writes(e.responses));
      TallyConcat(k, window, [Posted(c)], Writes(e.responses));
    }
  }

  /** Every charged leg was posted or dropped before its POST. */
  lemma {:induction false} ChargedLegs(window: int, trace: seq<Note>)
    ensures Tally(LegsCharged, window, trace) == Tally(LegsPosted, window, trace) + Tally(LegsDropped, window, trace)
  {
    if trace == [] {
    } else {
      ChargedLegs(window, trace[..|trace| - 1]);
    }
  }

  // ----- What every run keeps -----

  /** Every POST comes right after its own journaled intent, and passed the gates. */
  ghost predicate Orderly(cfg: Config, trace: seq<Note>) {
    forall i :: 0 <= i < |trace| && trace[i].Posted? ==>
      i > 0 && trace[i - 1] == Wrote(IntentRecord(trace[i].call.intent)) && Permitted(cfg, trace[i].call)
  }

  /** The books agree with the trace: tokens are charged per leg within the budget, and a window is
      marked entered exactly when one of its entries has returned. */
  ghost predicate Accounted(cfg: Config, trace: seq<Note>, entered: set<int>, tokens: map<int, nat>) {
    && (forall w: int :: Used(tokens, w) == cfg.tokensPerEntry * Tally(LegsCharged, w, trace))
    && (forall w: int :: Used(tokens, w) <= cfg.budget)
    && (forall w: int :: w in entered <==> Tally(EntriesReturned, w, trace) == 1)
    && (forall w: int :: Tally(EntriesReturned, w, trace) <= 1)
    && (forall w: int :: Tally(EntriesPosted, w, trace) ==
                         Tally(EntriesReturned, w, trace) + Tally(EntriesCrashed, w, trace))
  }

  lemma RefusalKeepsOrder(cfg: Config, trace: seq<Note>, c: Call, why: Refusal)
    requires Orderly(cfg, trace)
    ensures Orderly(cfg, trace + RefusalNotes(c, why))
  {}

  lemma DispatchKeepsOrder(cfg: Config, trace: seq<Note>, c: Call, e: Ending)
    requires Orderly(cfg, trace) && Permitted(cfg, c)
    ensures Orderly(cfg, trace + DispatchNotes(c, e))
  {
    var notes, all := DispatchNotes(c, e), trace + DispatchNotes(c, e);
    forall i | 0 <= i < |all| && all[i].Posted?
      ensures i > 0 && all[i - 1] == Wrote(IntentRecord(all[i].call.intent)) && Permitted(cfg, all[i].call)
    {
      if i < |trace| {
        assert trace[i].Posted?;
      } else {
        OnePost(c, e, i - |trace|);
      }
    }
  }

  /** The only POST of a dispatch stands right after the journaled intent. */
  lemma OnePost(c: Call, e: Ending, i: nat)
    requires i < |DispatchNotes(c, e)| && DispatchNotes(c, e)[i].Posted?
    ensures i == 1 && DispatchNotes(c, e)[0] == Wrote(IntentRecord(c.intent)) && DispatchNotes(c, e)[1] == Posted(c)
  {
    var send := SendNotes(c, e);
    if 1 <= i <= |send| {
      assert DispatchNotes(c, e)[i] == send[i - 1];
    }
  }

  lemma RefusalKeepsAccounts(cfg: Config, trace: seq<Note>, entered: set<int>, tokens: map<int, nat>, c: Call, why: Refusal)
    requires Accounted(cfg, trace, entered, tokens)
    ensures Accounted(cfg, trace + RefusalNotes(c, why), entered, tokens)
  {
    forall k: Measure, w: int
      ensures Tally(k, w, trace + RefusalNotes(c, why)) == Tally(k, w, trace)
    {
      TallyConcat(k, w, trace, RefusalNotes(c, why));
      TallyRefusal(k, w, c, why);
    }
  }

  lemma DispatchTrace(t: seq<Note>, c: Call, e: Ending)
    ensures t + DispatchNotes(c, e) ==
              t + [Wrote(IntentRecord(c.intent))] + SendNotes(c, e) + [EndNote(c, e)]
  {}

  /** The books after a dispatch: tokens reserved whatever happens, the entry marked only when the
      dispatch returned. */
  function EnteredAfter(entered: set<int>, c: Call, e: Ending): set<int> {
    if c.intent.purpose.Entry? && e.Answered? then entered + {c.intent.window} else entered
  }

  function TokensAfter(cfg: Config, tokens: map<int, nat>, c: Call): map<int, nat> {
    tokens[c.intent.window := Used(tokens, c.intent.window) + Cost(cfg, c.intent)]
  }

  lemma Distribute(t: nat, a: nat, b: nat)
    ensures t * (a + b) == t * a + t * b
  {}

  lemma ChargePerLeg(cfg: Config, trace: seq<Note>, tokens: map<int, nat>, c: Call, e: Ending, w: int)
    requires Used(tokens, w) == cfg.tokensPerEntry * Tally(LegsCharged, w, trace)
    ensures Used(TokensAfter(cfg, tokens, c), w) ==
              cfg.tokensPerEntry * Tally(LegsCharged, w, trace + DispatchNotes(c, e))
  {
    TallyConcat(LegsCharged, w, trace, DispatchNotes(c, e));
    TallyDispatch(LegsCharged, w, c, e);
    Distribute(cfg.tokensPerEntry, Tally(LegsCharged, w, trace), |c.intent.legs|);
  }

  lemma EntryMarks(trace: seq<Note>, c: Call, e: Ending, w: int)
    ensures var all, entry := trace + DispatchNotes(c, e), c.intent.window == w && c.intent.purpose.Entry?;
            && Tally(EntriesReturned, w, all) == Tally(EntriesReturned, w, trace) + (if entry && e.Answered? then 1 else 0)
            && Tally(EntriesCrashed, w, all) == Tally(EntriesCrashed, w, trace) + (if entry && e.Unread? then 1 else 0)
            && Tally(EntriesPosted, w, all) == Tally(EntriesPosted, w, trace) + (if entry && !e.Unsent? then 1 else 0)
  {
    TallyConcat(EntriesReturned, w, trace, DispatchNotes(c, e));
    TallyConcat(EntriesCrashed, w, trace, DispatchNotes(c, e));
    TallyConcat(EntriesPosted, w, trace, DispatchNotes(c, e));
    TallyDispatch(EntriesReturned, w, c, e);
    TallyDispatch(EntriesCrashed, w, c, e);
    TallyDispatch(EntriesPosted, w, c, e);
  }

  lemma DispatchKeepsAccounts(cfg: Config, trace: seq<Note>, entered: set<int>, tokens: map<int, nat>, c: Call,
                              e: Ending)
    requires Accounted(cfg, trace, entered, tokens)
    requires Used(tokens, c.intent.window) + Cost(cfg, c.intent) <= cfg.budget
    requires c.intent.purpose.Entry? ==> c.intent.window !in entered
    ensures Accounted(cfg, trace + DispatchNotes(c, e), EnteredAfter(entered, c, e), TokensAfter(cfg, tokens, c))
  {
    var all, entered', tokens' := trace + DispatchNotes(c, e), EnteredAfter(entered, c, e), TokensAfter(cfg, tokens, c);
    forall w: int
      ensures Used(tokens', w) == cfg.tokensPerEntry * Tally(LegsCharged, w, all)
      ensures Used(tokens', w) <= cfg.budget
    {
      ChargePerLeg(cfg, trace, tokens, c, e, w);
    }
    forall w: int
      ensures w in entered' <==> Tally(EntriesReturned, w, all) == 1
      ensures Tally(EntriesReturned, w, all) <= 1
      ensures Tally(EntriesPosted, w, all) == Tally(EntriesReturned, w, all) + Tally(EntriesCrashed, w, all)
    {
      EntryMarks(trace, c, e, w);
    }
  }

  /** In every accounted run a window posts at most one entry, plus one for each of its entries
      whose reply could not be read. The tokens charged are those of its posted and dropped legs,
      within the budget. */
  lemma EntriesAreBounded(cfg: Config, trace: seq<Note>, entered: set<int>, tokens: map<int, nat>, w: int)
    requires Accounted(cfg, trace, entered, tokens)
    ensures Tally(EntriesPosted, w, trace) <= 1 + Tally(EntriesCrashed, w, trace)
    ensures Used(tokens, w) == cfg.tokensPerEntry * (Tally(LegsPosted, w, trace) + Tally(LegsDropped, w, trace)) <= cfg.budget
  {
    assert Used(tokens, w) <= cfg.budget;
    ChargedLegs(w, trace);
  }

  /** After an entry, the same call passes the gates again exactly when its envelope could not be
      built, or its reply was accepted and cannot be read, and the budget covers it twice. Only in
      the second case was an order posted: that is the way to a second entry. */
  lemma SecondEntryIff(cfg: Config, c: Call, entered: set<int>, tokens: map<int, nat>, reply: Reply)
    requires c.intent.purpose.Entry? && Verdict(cfg, c, {}, entered, tokens).None?
    ensures var e := EndingOf(c.intent, reply);
            var again := Verdict(cfg, c, {}, EnteredAfter(entered, c, e), TokensAfter(cfg, tokens, c)).None?;
            var room := Used(tokens, c.intent.window) + 2 * Cost(cfg, c.intent) <= cfg.budget;
            && (again <==> (reply.Unbuildable? || UnreadableReply(reply)) && room)
            && (again && Posted(c) in DispatchNotes(c, e) <==> UnreadableReply(reply) && room)
  {
    var e := EndingOf(c.intent, reply);
    if e.Unsent? {
      assert DispatchNotes(c, e) == [Wrote(IntentRecord(c.intent)), Dropped(c.intent)];
    } else {
      assert DispatchNotes(c, e)[1] == Posted(c);
    }
  }

  // The shipped configuration, and a pair that a reply with status 200 and no readable body answers.
  const DEFAULT_CONFIG := Config(2, ["KXBTC15M", "KXBTCD"], 1.0, 200, 10)
  const PAIR := [Leg("KXBTCD", Yes, 1, 1, Some(0)), Leg("KXBTC15M", No, 1, 2, Some(0))]
  const ENTRY_CALL := Call(Intent(0, Entry, PAIR, Some(300.0)), Some(300.0), false, true)
  const EMPTY_OK := Replied(Some(200), Garbled)

  /** The second entry is reachable from a fresh executor: the first call is posted, its reply cannot
      be read, and the same call is posted again. */
  lemma GarbledReplyPostsTwice()
    ensures var e := EndingOf(ENTRY_CALL.intent, EMPTY_OK);
            && Verdict(DEFAULT_CONFIG, ENTRY_CALL, {}, {}, map[]).None?
            && Verdict(DEFAULT_CONFIG, ENTRY_CALL, {}, EnteredAfter({}, ENTRY_CALL, e),
                       TokensAfter(DEFAULT_CONFIG, map[], ENTRY_CALL)).None?
            && Tally(EntriesPosted, 0, DispatchNotes(ENTRY_CALL, e) + DispatchNotes(ENTRY_CALL, e)) == 2
  {
    var e := EndingOf(ENTRY_CALL.intent, EMPTY_OK);
    assert DEFAULT_CONFIG.prefixes[0] <= PAIR[1].ticker && DEFAULT_CONFIG.prefixes[1] <= PAIR[0].ticker;
    assert WithinCaps(DEFAULT_CONFIG, ENTRY_CALL.intent);
    SecondEntryIff(DEFAULT_CONFIG, ENTRY_CALL, {}, map[], EMPTY_OK);
    TallyDispatch(EntriesPosted, 0, ENTRY_CALL, e);
    TallyConcat(EntriesPosted, 0, DispatchNotes(ENTRY_CALL, e), DispatchNotes(ENTRY_CALL, e));
  }

  /** The gates let a call through exactly when all of them would. */
  lemma VerdictIff(cfg: Config, c: Call, inflight: set<FlightKey>, entered: set<int>, tokens: map<int, nat>)
    ensures Verdict(cfg, c, inflight, entered, tokens).None? <==>
              && Permitted(cfg, c)
              && !(c.intent.purpose.Entry? && c.intent.window in entered)
              && FlightKeys(c.intent) * inflight == {}
              && Used(tokens, c.intent.window) + Cost(cfg, c.intent) <= cfg.budget
  {}

  lemma {:induction false} JournalConcat(a: seq<Note>, b: seq<Note>)
    ensures Journal(a + b) == Journal(a) + Journal(b)
  {
    if b == [] {
      assert a + b == a;
    } else {
      JournalConcat(a, b[..|b| - 1]);
      assert (a + b)[..|a + b| - 1] == a + b[..|b| - 1];
    }
  }

  /** The response records of a list of responses. */
  function ResponseRecords(responses: seq<Response>): seq<Record> {
    seq(|responses|, i requires 0 <= i < |responses| => ResponseRecord(responses[i]))
  }

  lemma {:induction false} JournalWrites(responses: seq<Response>)
    ensures Journal(Writes(responses)) == ResponseRecords(responses)
  {
    if responses == [] {
    } else {
      var rest, notes := responses[..|responses| - 1], Writes(responses);
      JournalWrites(rest);
      assert notes[..|notes| - 1] == Writes(rest);
      assert ResponseRecords(responses) == ResponseRecords(rest) + [ResponseRecord(responses[|responses| - 1])];
    }
  }

  lemma JournalOne(note: Note)
    ensures Journal([note]) == if note.Wrote? then [note.record] else []
  {
    assert [note][..0] == [];
  }

  /** A refused call journals its intent and one refusal per leg. */
  lemma RefusalJournals(c: Call, why: Refusal)
    ensures Journal(RefusalNotes(c, why)) ==
              (if why.NoExchangeIndex? then [NoRouteRecord(c.intent)] else []) +
              [IntentRecord(c.intent)] + ResponseRecords(NoFills(c.intent.legs, Refused))
  {
    var route := if why.NoExchangeIndex? then [Wrote(NoRouteRecord(c.intent))] else [];
    var rest := Writes(NoFills(c.intent.legs, Refused));
    JournalWrites(NoFills(c.intent.legs, Refused));
    JournalOne(Wrote(IntentRecord(c.intent)));
    JournalOne(Wrote(NoRouteRecord(c.intent)));
    JournalConcat(route, [Wrote(IntentRecord(c.intent))]);
    JournalConcat(route + [Wrote(IntentRecord(c.intent))], rest);
  }

  /** A dispatch that returns journals its intent and then one response per leg; one that raises
      journals only its intent. */
  lemma DispatchJournals(c: Call, e: Ending)
    ensures Journal(DispatchNotes(c, e)) ==
              [IntentRecord(c.intent)] + if e.Answered? then ResponseRecords(e.responses) else []
  {
    var head, send, end := [Wrote(IntentRecord(c.intent))], SendNotes(c, e), [EndNote(c, e)];
    JournalOne(head[0]);
    JournalSend(c, e);
    JournalOne(end[0]);
    JournalConcat(head, send);
    JournalConcat(head + send, end);
  }

  lemma JournalSend(c: Call, e: Ending)
    ensures Journal(SendNotes(c, e)) == if e.Answered? then ResponseRecords(e.responses) else []
  {
    JournalOne(Posted(c));
    if e.Answered? {
      JournalWrites(e.responses);
      JournalConcat([Posted(c)], Writes(e.responses));
    }
  }

  /** What every run keeps: the journal is the trace's writes, POSTs are orderly, books agree. */
  ghost predicate Sound(cfg: Config, trace: seq<Note>, entered: set<int>, tokens: map<int, nat>, journal: seq<Record>) {
    journal == Journal(trace) && Orderly(cfg, trace) && Accounted(cfg, trace, entered, tokens)
  }

  lemma RefusalIsSound(cfg: Config, trace: seq<Note>, entered: set<int>, tokens: map<int, nat>, journal: seq<Record>,
                       c: Call, why: Refusal)
    requires Sound(cfg, trace, entered, tokens, journal)
    ensures Sound(cfg, trace + RefusalNotes(c, why), entered, tokens, journal + Journal(RefusalNotes(c, why)))
  {
    JournalConcat(trace, RefusalNotes(c, why));
    RefusalKeepsOrder(cfg, trace, c, why);
    RefusalKeepsAccounts(cfg, trace, entered, tokens, c, why);
  }

  lemma DispatchIsSound(cfg: Config, trace: seq<Note>, entered: set<int>, tokens: map<int, nat>, journal: seq<Record>,
                        c: Call, e: Ending)
    requires Sound(cfg, trace, entered, tokens, journal)
    requires Verdict(cfg, c, {}, entered, tokens).None?
    ensures Sound(cfg, trace + DispatchNotes(c, e), EnteredAfter(entered, c, e), TokensAfter(cfg, tokens, c),
                  journal + Journal(DispatchNotes(c, e)))
  {
    VerdictIff(cfg, c, {}, entered, tokens);
    JournalConcat(trace, DispatchNotes(c, e));
    DispatchKeepsOrder(cfg, trace, c, e);
    DispatchKeepsAccounts(cfg, trace, entered, tokens, c, e);
  }

  // ----- A call in plain terms -----

  /** Not one to `maxContracts` contracts, or a ticker that starts with none of the prefixes. */
  ghost predicate OverCap(cfg: Config, leg: Leg) {
    || leg.count < 1 || leg.count > cfg.maxContracts
    || forall p :: p in cfg.prefixes ==> |p| > |leg.ticker| || leg.ticker[..|p|] != p
  }

  /** What the gates answer while nothing is in flight: the first reason that applies, in this order. */
  ghost predicate Gated(cfg: Config, c: Call, entered: set<int>, tokens: map<int, nat>, why: Option<Refusal>) {
    var i := c.intent;
    var foreign := c.stop && i.purpose != Flatten;
    var unarmed := !c.stop && !c.armed;
    var capped := exists leg :: leg in i.legs && OverCap(cfg, leg);
    var unrouted := exists leg :: leg in i.legs && leg.exchangeIndex == None;
    var late := c.tMinus != None && c.tMinus.value < cfg.cutoff;
    var again := i.purpose == Entry && i.window in entered;
    var spent := (if i.window in tokens then tokens[i.window] else 0) + cfg.tokensPerEntry * |i.legs| > cfg.budget;
    match why
    case Some(StopNonFlatten) => foreign
    case Some(NotArmed) => unarmed
    case Some(CapViolation) => !foreign && !unarmed && capped
    case Some(NoExchangeIndex) => !foreign && !unarmed && !capped && unrouted
    case Some(TooLate) => !foreign && !unarmed && !capped && !unrouted && late
    case Some(AlreadyEntered) => !foreign && !unarmed && !capped && !unrouted && !late && again
    case Some(SingleFlight) => false
    case Some(BudgetExhausted) => !foreign && !unarmed && !capped && !unrouted && !late && !again && spent
    case None => !foreign && !unarmed && !capped && !unrouted && !late && !again && !spent
  }

  ghost predicate AllUnfilled(legs: seq<Leg>, fault: Fault, out: seq<Response>) {
    |out| == |legs| && forall i :: 0 <= i < |legs| ==> Unfilled(legs[i], fault, out[i])
  }

  /** The status is none or one of 200 to 299. */
  predicate StatusIsFine(status: Option<int>) {
    status == None || 200 <= status.value <= 299
  }

  /** How a dispatch ends. A POST that raised and a status outside 200 to 299 fill nothing; a readable
      reply answers a lone leg by itself and several legs by alignment. */
  ghost predicate EndsAs(intent: Intent, reply: Reply, e: Ending) {
    match reply
    case Unbuildable => e == Unsent
    case Raised => e.Answered? && AllUnfilled(intent.legs, PostException, e.responses)
    case Replied(status, body) =>
      if !StatusIsFine(status) then e.Answered? && AllUnfilled(intent.legs, HttpStatus(status.value), e.responses)
      else if body == Garbled then e == Unread
      else
        && e.Answered? && |e.responses| == |intent.legs|
        && (|intent.legs| == 1 ==>
              Tells(intent.legs[0].side, body.one, e.responses[0]) && e.responses[0].cid == body.one.cid)
        && (|intent.legs| != 1 ==>
              forall i :: 0 <= i < |intent.legs| ==> Aligned(intent.legs, body.many, i, e.responses[i]))
  }

  /** The journal grew by `head` and then one record for each response. */
  ghost predicate Journaled(journal: seq<Record>, head: seq<Record>, responses: seq<Response>, journal': seq<Record>) {
    && |journal'| == |journal| + |head| + |responses|
    && journal'[..|journal|] == journal && journal'[|journal|..|journal| + |head|] == head
    && forall i :: 0 <= i < |responses| ==> journal'[|journal| + |head| + i] == ResponseRecord(responses[i])
  }

  /** A refused call fills nothing, is journaled leg by leg and leaves the books alone. */
  ghost predicate RefusedAs(c: Call, why: Refusal, journal: seq<Record>, journal': seq<Record>, result: Option<Result>) {
    && result.Some? && result.value == Result(c.intent, result.value.responses, Some(why), None)
    && AllUnfilled(c.intent.legs, Refused, result.value.responses)
    && Journaled(journal, (if why == NoExchangeIndex then [NoRouteRecord(c.intent)] else []) + [IntentRecord(c.intent)],
                 result.value.responses, journal')
  }

  /** A dispatched call is journaled before its responses and returns them all, or raises. */
  ghost predicate DispatchedAs(c: Call, reply: Reply, e: Ending, journal: seq<Record>, journal': seq<Record>,
                               result: Option<Result>)
  {
    && EndsAs(c.intent, reply, e)
    && result == (if !e.Answered? then None
                  else Some(Result(c.intent, e.responses, None, if reply.Replied? then reply.status else None)))
    && Journaled(journal, [IntentRecord(c.intent)], if e.Answered? then e.responses else [], journal')
  }

  /** Tokens are charged for every leg; the window is marked by an entry that returned. */
  ghost predicate Booked(cfg: Config, c: Call, e: Ending, entered: set<int>, entered': set<int>,
                         tokens: map<int, nat>, tokens': map<int, nat>)
  {
    var window := c.intent.window;
    && entered' == entered + (if c.intent.purpose == Entry && e.Answered? then {window} else {})
    && tokens' == tokens[window := (if window in tokens then tokens[window] else 0) + cfg.tokensPerEntry * |c.intent.legs|]
  }

  /** The call was posted once, right after its intent was written, or not at all. */
  ghost predicate PostedOnce(c: Call, sent: bool, trace: seq<Note>, trace': seq<Note>) {
    && trace <= trace'
    && (sent ==>
          |trace'| >= |trace| + 2 && trace'[|trace|] == Wrote(IntentRecord(c.intent)) && trace'[|trace| + 1] == Posted(c))
    && forall i :: |trace| <= i < |trace'| && trace'[i].Posted? ==> sent && i == |trace| + 1
  }

  lemma OverCapIff(cfg: Config, leg: Leg)
    ensures OverCap(cfg, leg) <==> !LegWithinCaps(cfg, leg)
  {
    if i :| 0 <= i < |cfg.prefixes| && cfg.prefixes[i] <= leg.ticker {
      assert cfg.prefixes[i] in cfg.prefixes;
    }
  }

  lemma VerdictIsGated(cfg: Config, c: Call, entered: set<int>, tokens: map<int, nat>)
    ensures Gated(cfg, c, entered, tokens, Verdict(cfg, c, {}, entered, tokens))
  {
    forall leg: Leg
      ensures OverCap(cfg, leg) <==> !LegWithinCaps(cfg, leg)
    {
      OverCapIff(cfg, leg);
    }
  }

  lemma EndingIsPlain(intent: Intent, reply: Reply)
    ensures EndsAs(intent, reply, EndingOf(intent, reply))
  {
    if reply.Replied? && reply.body.Body? {
      if |intent.legs| == 1 {
        NormalizedTells(reply.body.one, 0, intent.legs[0].side);
      }
      forall i | 0 <= i < |intent.legs|
        ensures Aligned(intent.legs, reply.body.many, i, Answer(intent.legs, reply.body.many, i))
      {
        AnswerIsAligned(intent.legs, reply.body.many, i);
      }
    }
  }

  lemma RefusalIsPlain(c: Call, why: Refusal, trace: seq<Note>, journal: seq<Record>)
    ensures RefusedAs(c, why, journal, journal + Journal(RefusalNotes(c, why)),
                      Some(Result(c.intent, NoFills(c.intent.legs, Refused), Some(why), None)))
    ensures PostedOnce(c, false, trace, trace + RefusalNotes(c, why))
  {
    RefusalJournals(c, why);
  }

  lemma DispatchIsPlain(c: Call, reply: Reply, trace: seq<Note>, journal: seq<Record>)
    ensures var e := EndingOf(c.intent, reply);
            DispatchedAs(c, reply, e, journal, journal + Journal(DispatchNotes(c, e)),
                         if e.Answered? then Some(Result(c.intent, e.responses, None, StatusOf(reply))) else None)
  {
    EndingIsPlain(c.intent, reply);
    DispatchJournals(c, EndingOf(c.intent, reply));
  }

  lemma DispatchPostsOnce(c: Call, e: Ending, trace: seq<Note>)
    ensures PostedOnce(c, e != Unsent, trace, trace + DispatchNotes(c, e))
  {
    var notes := DispatchNotes(c, e);
    var all := trace + notes;
    forall i | |trace| <= i < |all| && all[i].Posted?
      ensures e != Unsent && i == |trace| + 1
    {
      OnePost(c, e, i - |trace|);
    }
    if e != Unsent {
      assert SendNotes(c, e)[0] == Posted(c);
      assert notes[1] == Posted(c);
    }
  }

  /** The call the gates see: the time to settlement given, else the intent's own. */
  function CallOf(intent: Intent, tMinus: Option<real>, stop: bool, armed: bool): Call {
    Call(intent, if tMinus.Some? then tMinus else intent.tMinus, stop, armed)
  }

  /** A run's books, journal and trace. */
  datatype Books = Books(entered: set<int>, tokens: map<int, nat>, journal: seq<Record>, trace: seq<Note>)

  ghost predicate Outcome(cfg: Config, c: Call, reply: Reply, b: Books, b': Books, result: Option<Result>,
                          why: Option<Refusal>, e: Ending)
  {
    && Gated(cfg, c, b.entered, b.tokens, why)
    && (why.Some? ==>
          && b'.entered == b.entered && b'.tokens == b.tokens
          && RefusedAs(c, why.value, b.journal, b'.journal, result) && PostedOnce(c, false, b.trace, b'.trace))
    && (why.None? ==>
          && Booked(cfg, c, e, b.entered, b'.entered, b.tokens, b'.tokens)
          && DispatchedAs(c, reply, e, b.journal, b'.journal, result) && PostedOnce(c, e != Unsent, b.trace, b'.trace))
  }

  /** What one call does: it is refused for the first reason that applies, and the books stay as they
      were, or it is dispatched. */
  ghost predicate Executed(cfg: Config, c: Call, reply: Reply, b: Books, b': Books, result: Option<Result>) {
    exists why, e :: Outcome(cfg, c, reply, b, b', result, why, e)
  }

  lemma RefusalExecutes(cfg: Config, c: Call, reply: Reply, b: Books, b': Books, why: Refusal)
    requires Verdict(cfg, c, {}, b.entered, b.tokens) == Some(why)
    requires b' == Books(b.entered, b.tokens, b.journal + Journal(RefusalNotes(c, why)), b.trace + RefusalNotes(c, why))
    ensures Executed(cfg, c, reply, b, b', Some(Result(c.intent, NoFills(c.intent.legs, Refused), Some(why), None)))
  {
    VerdictIsGated(cfg, c, b.entered, b.tokens);
    RefusalIsPlain(c, why, b.trace, b.journal);
    assert Outcome(cfg, c, reply, b, b', Some(Result(c.intent, NoFills(c.intent.legs, Refused), Some(why), None)),
                   Some(why), Unsent);
  }

  lemma DispatchBooks(cfg: Config, c: Call, e: Ending, entered: set<int>, tokens: map<int, nat>)
    ensures Booked(cfg, c, e, entered, EnteredAfter(entered, c, e), tokens, TokensAfter(cfg, tokens, c))
  {}

  lemma DispatchExecutes(cfg: Config, c: Call, reply: Reply, b: Books, b': Books)
    requires Verdict(cfg, c, {}, b.entered, b.tokens) == None
    requires var e := EndingOf(c.intent, reply);
             b' == Books(EnteredAfter(b.entered, c, e), TokensAfter(cfg, b.tokens, c),
                         b.journal + Journal(DispatchNotes(c, e)), b.trace + DispatchNotes(c, e))
    ensures var e := EndingOf(c.intent, reply);
            Executed(cfg, c, reply, b, b',
                     if e.Answered? then Some(Result(c.intent, e.responses, None, StatusOf(reply))) else None)
  {
    var e := EndingOf(c.intent, reply);
    VerdictIsGated(cfg, c, b.entered, b.tokens);
    DispatchBooks(cfg, c, e, b.entered, b.tokens);
    DispatchIsPlain(c, reply, b.trace, b.journal);
    DispatchPostsOnce(c, e, b.trace);
    assert Outcome(cfg, c, reply, b, b',
                   if e.Answered? then Some(Result(c.intent, e.responses, None, StatusOf(reply))) else None, None, e);
  }

  /** A readable body: a lone leg's own response, or a batch aligned with its legs. */
  method ReadBody(legs: seq<Leg>, body: Body) returns (out: seq<Response>)
    requires body.Body?
    ensures out == if |legs| == 1 then [Normalize(body.one, legs[0].side)] else Answers(legs, body.many)
  {
    if |legs| == 1 {
      out := [Normalize(body.one, legs[0].side)];
    } else {
      out := AlignBatch(legs, body.many);
    }
  }

  // ----- The executor -----

  class Executor {
    const cfg: Config
    var armed: bool
    var inflight: set<FlightKey>
    var entered: set<int>
    var tokens: map<int, nat>
    var dispatchCount: nat
    var refusalCount: nat
    var journal: seq<Record>
    ghost var trace: seq<Note>

    /** Between calls nothing is in flight and books, journal and trace agree. */
    ghost predicate Valid()
      reads this
    {
      inflight == {} && Sound(cfg, trace, entered, tokens, journal)
    }

    ghost function Snap(): Books
      reads this
    {
      Books(entered, tokens, journal, trace)
    }

    constructor (cfg: Config, armed: bool)
      ensures Valid() && this.cfg == cfg && this.armed == armed && trace == []
    {
      this.cfg, this.armed := cfg, armed;
      inflight, entered, tokens := {}, {}, map[];
      dispatchCount, refusalCount, journal, trace := 0, 0, [], [];
    }

    method SetArmed(value: bool)
      requires Valid()
      modifies this`armed
      ensures Valid() && armed == value
    {
      armed := value;
    }

    /** Append one record to the journal. */
    method Append(record: Record)
      modifies this`journal, this`trace
      ensures journal == old(journal) + [record] && trace == old(trace) + [Wrote(record)]
    {
      journal := journal + [record];
      trace := trace + [Wrote(record)];
    }

    method JournalResponses(responses: seq<Response>)
      modifies this`journal, this`trace
      ensures journal == old(journal) + ResponseRecords(responses)
      ensures trace == old(trace) + Writes(responses)
    {
      ghost var records, notes := ResponseRecords(responses), Writes(responses);
      for i := 0 to |responses|
        invariant journal == old(journal) + records[..i] && trace == old(trace) + notes[..i]
      {
        Append(ResponseRecord(responses[i]));
        assert records[..i + 1] == records[..i] + [records[i]] && notes[..i + 1] == notes[..i] + [notes[i]];
      }
    }

    /** Refuse a call: journal it with one no-fill per leg. */
    method Refuse(c: Call, why: Refusal) returns (result: Result)
      modifies this`journal, this`refusalCount, this`trace
      ensures journal == old(journal) + Journal(RefusalNotes(c, why))
      ensures trace == old(trace) + RefusalNotes(c, why)
      ensures refusalCount == old(refusalCount) + 1
      ensures result == Result(c.intent, NoFills(c.intent.legs, Refused), Some(why), None)
    {
      RefusalJournals(c, why);
      refusalCount := refusalCount + 1;
      if why.NoExchangeIndex? {
        Append(NoRouteRecord(c.intent));
      }
      Append(IntentRecord(c.intent));
      var responses := NoFills(c.intent.legs, Refused);
      JournalResponses(responses);
      result := Result(c.intent, responses, Some(why), None);
    }

    /** Build the envelope, POST once and read the reply; either end may raise. */
    method Dispatch(c: Call, reply: Reply) returns (e: Ending)
      modifies this`journal, this`trace
      ensures e == EndingOf(c.intent, reply) && EndsAs(c.intent, reply, e)
      ensures journal == old(journal) + if e.Answered? then ResponseRecords(e.responses) else []
      ensures trace == old(trace) + SendNotes(c, e)
    {
      EndingIsPlain(c.intent, reply);
      var legs := c.intent.legs;
      if reply.Unbuildable? {
        return Unsent;
      }
      trace := trace + [Posted(c)];
      var out;
      if reply.Raised? {
        out := NoFills(legs, PostException);
      } else if reply.status.Some? && (reply.status.value == 429 || reply.status.value >= 500) {
        out := NoFills(legs, HttpStatus(reply.status.value));
      } else if reply.status.Some? && (reply.status.value < 200 || reply.status.value >= 300) {
        out := NoFills(legs, HttpStatus(reply.status.value));
      } else if reply.body.Garbled? {
        return Unread;
      } else {
        out := ReadBody(legs, reply.body);
      }
      JournalResponses(out);
      return Answered(out);
    }

    /** Dispatch a call that passed the gates. */
    method Commit(c: Call, reply: Reply) returns (e: Ending)
      requires inflight == {}
      modifies this`journal, this`trace, this`inflight, this`entered, this`tokens, this`dispatchCount
      ensures e == EndingOf(c.intent, reply) && inflight == {}
      ensures journal == old(journal) + Journal(DispatchNotes(c, e))
      ensures trace == old(trace) + DispatchNotes(c, e)
      ensures entered == EnteredAfter(old(entered), c, e) && tokens == TokensAfter(cfg, old(tokens), c)
      ensures dispatchCount == old(dispatchCount) + if e.Answered? then 1 else 0
    {
      var keys := FlightKeys(c.intent);
      tokens := TokensAfter(cfg, tokens, c);
      inflight := inflight + keys;
      e := Send(c, reply);
      inflight := inflight - keys;
      DispatchJournals(c, e);
      DispatchTrace(old(trace), c, e);
      Conclude(c, e);
    }

    /** Journal the intent, then dispatch. */
    method Send(c: Call, reply: Reply) returns (e: Ending)
      modifies this`journal, this`trace
      ensures e == EndingOf(c.intent, reply)
      ensures journal == old(journal) + ([IntentRecord(c.intent)] + if e.Answered? then ResponseRecords(e.responses) else [])
      ensures trace == old(trace) + [Wrote(IntentRecord(c.intent))] + SendNotes(c, e)
    {
      Append(IntentRecord(c.intent));
      e := Dispatch(c, reply);
    }

    /** After a dispatch: an entry marks its window, unless the dispatch raised. */
    method Conclude(c: Call, e: Ending)
      modifies this`entered, this`dispatchCount, this`trace
      ensures entered == EnteredAfter(old(entered), c, e)
      ensures dispatchCount == old(dispatchCount) + if e.Answered? then 1 else 0
      ensures trace == old(trace) + [EndNote(c, e)]
    {
      trace := trace + [EndNote(c, e)];
      if !e.Answered? {
        return;
      }
      if c.intent.purpose.Entry? {
        entered := entered + {c.intent.window};
      }
      dispatchCount := dispatchCount + 1;
    }

    /** A call that a gate refuses. */
    method Decline(c: Call, why: Refusal, reply: Reply) returns (result: Result)
      requires Valid() && Verdict(cfg, c, {}, entered, tokens) == Some(why)
      modifies this`journal, this`refusalCount, this`trace
      ensures Valid()
      ensures trace == old(trace) + RefusalNotes(c, why) && refusalCount == old(refusalCount) + 1
      ensures result == Result(c.intent, NoFills(c.intent.legs, Refused), Some(why), None)
      ensures Executed(cfg, c, reply, old(Snap()), Snap(), Some(result))
    {
      ghost var before := Snap();
      RefusalIsSound(cfg, trace, entered, tokens, journal, c, why);
      result := Refuse(c, why);
      RefusalExecutes(cfg, c, reply, before, Snap(), why);
    }

    /** A call that every gate lets through. */
    method Proceed(c: Call, reply: Reply) returns (result: Option<Result>)
      requires Valid() && Verdict(cfg, c, {}, entered, tokens) == None
      modifies this`journal, this`trace, this`inflight, this`entered, this`tokens, this`dispatchCount
      ensures Valid()
      ensures var e := EndingOf(c.intent, reply);
              && trace == old(trace) + DispatchNotes(c, e)
              && entered == EnteredAfter(old(entered), c, e) && tokens == TokensAfter(cfg, old(tokens), c)
              && dispatchCount == old(dispatchCount) + (if e.Answered? then 1 else 0)
              && result == if e.Answered? then Some(Result(c.intent, e.responses, None, StatusOf(reply))) else None
      ensures Executed(cfg, c, reply, old(Snap()), Snap(), result)
    {
      ghost var before := Snap();
      DispatchIsSound(cfg, trace, entered, tokens, journal, c, EndingOf(c.intent, reply));
      var e := Commit(c, reply);
      result := if e.Answered? then Some(Result(c.intent, e.responses, None, StatusOf(reply))) else None;
      DispatchExecutes(cfg, c, reply, before, Snap());
    }

    /** The one entry point. A call refused by a gate is journaled and never posted; any other call
        is posted exactly once, unless its envelope cannot be built. None stands for an exception
        that propagates to the caller. */
    method Execute(intent: Intent, tMinus: Option<real>, stop: bool, reply: Reply) returns (result: Option<Result>)
      requires Valid()
      modifies this
      ensures Valid() && armed == old(armed)
      ensures var c := Call(intent, if tMinus.Some? then tMinus else intent.tMinus, stop, old(armed));
              var verdict := Verdict(cfg, c, {}, old(entered), old(tokens));
              var e := EndingOf(intent, reply);
              if verdict.Some? then
                && trace == old(trace) + RefusalNotes(c, verdict.value)
                && entered == old(entered) && tokens == old(tokens)
                && refusalCount == old(refusalCount) + 1 && dispatchCount == old(dispatchCount)
                && result == Some(Result(intent, NoFills(intent.legs, Refused), verdict, None))
              else
                && trace == old(trace) + DispatchNotes(c, e)
                && entered == EnteredAfter(old(entered), c, e) && tokens == TokensAfter(cfg, old(tokens), c)
                && refusalCount == old(refusalCount)
                && dispatchCount == old(dispatchCount) + (if e.Answered? then 1 else 0)
                && result == if e.Answered? then Some(Result(intent, e.responses, None, StatusOf(reply))) else None
      ensures Executed(cfg, CallOf(intent, tMinus, stop, old(armed)), reply, old(Snap()), Snap(), result)
    {
      var c := CallOf(intent, tMinus, stop, armed);
      var verdict := Verdict(cfg, c, inflight, entered, tokens);
      if verdict.Some? {
        var refused := Decline(c, verdict.value, reply);
        return Some(refused);
      }
      result := Proceed(c, reply);
    }
  }
}
