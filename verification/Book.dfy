/** The order-book mirror (pilot/service/book.py): full-depth bids of one market rebuilt from
    snapshots and deltas, with a fail-closed suspect flag and asks derived by the binary identity. */
module Book {
  import opened Sequences
  import BoxSelection

  datatype BidSide = YesBids | NoBids

  /** One wire entry of a snapshot; unparseable numbers are None. */
  datatype RawLevel = NotAPair | RawPair(price: Option<real>, size: Option<real>)

  datatype Message =
    | Snapshot(yes: seq<RawLevel>, no: seq<RawLevel>)
    | Delta(side: Option<BidSide>, price: Option<real>, delta: Option<real>)
    | Invalidate

  predicate Malformed(m: Message) {
    m.Delta? && (m.side.None? || m.price.None? || m.delta.None?)
  }

  // ----- The pointwise meaning of a message history -----

  predicate Sets(l: RawLevel, price: real) {
    l.RawPair? && l.price == Some(price) && l.size.Some? && l.size.value > 0.0
  }

  /** The size a snapshot gives a price: that of its last positive entry, else nothing. */
  function LevelSize(levels: seq<RawLevel>, price: real): real {
    if levels == [] then 0.0
    else if Sets(levels[|levels| - 1], price) then levels[|levels| - 1].size.value
    else LevelSize(levels[..|levels| - 1], price)
  }

  function Levels(m: Message, side: BidSide): seq<RawLevel>
    requires m.Snapshot?
  {
    if side.YesBids? then m.yes else m.no
  }

  /** The size resting at a price after the history: what the last snapshot gave it, moved by each
      later delta at that price and cut at zero. */
  function SizeAfter(history: seq<Message>, side: BidSide, price: real): (size: real)
    ensures size >= 0.0
  {
    if history == [] then 0.0
    else
      var before, m := SizeAfter(history[..|history| - 1], side, price), history[|history| - 1];
      match m
      case Snapshot(_, _) => SnapshotSizeNonnegative(Levels(m, side), price); LevelSize(Levels(m, side), price)
      case Delta(_, _, _) =>
        if !Malformed(m) && m.side.value == side && m.price.value == price
        then (if before + m.delta.value <= 0.0 then 0.0 else before + m.delta.value)
        else before
      case Invalidate => before
  }

  lemma {:induction false} SnapshotSizeNonnegative(levels: seq<RawLevel>, price: real)
    ensures LevelSize(levels, price) >= 0.0
  {
    if levels == [] {
    } else {
      SnapshotSizeNonnegative(levels[..|levels| - 1], price);
    }
  }

  /** A malformed delta or an invalidation. */
  predicate Sours(m: Message) {
    Malformed(m) || m.Invalidate?
  }

  /** A snapshot has been seen, and nothing has soured the book since the last one. */
  ghost predicate Trusted(history: seq<Message>) {
    exists i :: 0 <= i < |history| && history[i].Snapshot? && forall j :: i < j < |history| ==> !Sours(history[j])
  }

  function CountMalformed(history: seq<Message>): nat {
    |Filter(Malformed, history)|
  }

  // ----- The mirror -----

  type Bids = map<real, real>

  function Get(book: Bids, price: real): real {
    if price in book then book[price] else 0.0
  }

  predicate Positive(book: Bids) {
    forall p :: p in book ==> book[p] > 0.0
  }

  ghost predicate Mirrors(book: Bids, history: seq<Message>, side: BidSide) {
    Positive(book) && forall p: real :: Get(book, p) == SizeAfter(history, side, p)
  }

  method ParseLevels(levels: seq<RawLevel>) returns (book: Bids)
    ensures Positive(book) && forall p: real :: Get(book, p) == LevelSize(levels, p)
    ensures forall p: real :: SnapshotSays(levels, p, if p in book then book[p] else 0.0)
  {
    book := map[];
    for i := 0 to |levels|
      invariant Positive(book) && forall p: real :: Get(book, p) == LevelSize(levels[..i], p)
    {
      assert levels[..i + 1][..i] == levels[..i];
      var l := levels[i];
      if l.RawPair? && l.price.Some? && l.size.Some? && l.size.value > 0.0 {
        book := book[l.price.value := l.size.value];
      }
    }
    assert levels[..|levels|] == levels;
    forall p: real
      ensures SnapshotSays(levels, p, if p in book then book[p] else 0.0)
    {
      LevelIsSaid(levels, p);
      assert Get(book, p) == LevelSize(levels, p);
    }
  }

  /** Move one level, dropping it when nothing is left. */
  function Move(book: Bids, price: real, delta: real): Bids {
    if Get(book, price) + delta <= 0.0 then book - {price} else book[price := Get(book, price) + delta]
  }

  lemma MoveMirrors(book: Bids, history: seq<Message>, m: Message, side: BidSide)
    requires Mirrors(book, history, side) && m.Delta?
    ensures Mirrors(if !Malformed(m) && m.side.value == side then Move(book, m.price.value, m.delta.value) else book,
                    history + [m], side)
  {
    Snoc(history, m);
    var book' := if !Malformed(m) && m.side.value == side then Move(book, m.price.value, m.delta.value) else book;
    forall p: real
      ensures Get(book', p) == SizeAfter(history + [m], side, p)
    {
      assert Get(book, p) == SizeAfter(history, side, p);
    }
  }

  lemma TrustStep(history: seq<Message>, m: Message)
    ensures Trusted(history + [m]) <==> m.Snapshot? || (Trusted(history) && !Sours(m))
  {
    var all := history + [m];
    Snoc(history, m);
    if m.Snapshot? {
      assert all[|history|].Snapshot?;
    }
    if Trusted(history) && !Sours(m) {
      var i :| 0 <= i < |history| && history[i].Snapshot? && forall j :: i < j < |history| ==> !Sours(history[j]);
      assert all[i].Snapshot? && forall j :: i < j < |all| ==> !Sours(all[j]);
    }
    if Trusted(all) && !m.Snapshot? {
      var i :| 0 <= i < |all| && all[i].Snapshot? && forall j :: i < j < |all| ==> !Sours(all[j]);
      assert history[i].Snapshot? && forall j :: i < j < |history| ==> !Sours(all[j]) && all[j] == history[j];
      assert !Sours(all[|history|]);
    }
  }

  datatype Level = Level(price: real, size: real)

  datatype TopOfBook = TopOfBook(
    yesBid: Option<Level>, yesAsk: Option<Level>, noBid: Option<Level>, noAsk: Option<Level>, suspect: bool)

  /** The best bid of a history: the highest price at which anything rests, with its size. */
  ghost predicate IsBest(history: seq<Message>, side: BidSide, best: Option<Level>) {
    if best.None? then
      forall p: real :: SizeAfter(history, side, p) == 0.0
    else
      && best.value.size == SizeAfter(history, side, best.value.price) > 0.0
      && forall p: real :: SizeAfter(history, side, p) > 0.0 ==> p <= best.value.price
  }

  lemma NonEmpty(s: set<real>)
    requires s != {}
    ensures exists p :: p in s
  {
    assert (forall p: real :: p !in s) ==> s == {};
  }

  method BestBid(book: Bids) returns (best: Option<Level>)
    requires Positive(book)
    ensures best.None? ==> book == map[]
    ensures best.Some? ==> best.value.price in book && best.value.size == book[best.value.price]
    ensures best.Some? ==> forall p :: p in book ==> p <= best.value.price
  {
    best := None;
    var left := book.Keys;
    while left != {}
      invariant left <= book.Keys
      invariant best.None? ==> left == book.Keys
      invariant best.Some? ==> best.value.price in book && best.value.size == book[best.value.price]
      invariant best.Some? ==> forall p :: p in book && p !in left ==> p <= best.value.price
      decreases |left|
    {
      NonEmpty(left);
      var p :| p in left;
      left := left - {p};
      if best.None? || p > best.value.price {
        best := Some(Level(p, book[p]));
      }
    }
  }

  /** The ask on one side, from the best bid on the other. */
  function DerivedAsk(opposite: Option<Level>): Option<Level> {
    if opposite.None? then None else Some(Level(1.0 - opposite.value.price, opposite.value.size))
  }

  // ----- The book in plain terms -----

  /** Entry `k` is the last one that gives this price a size above zero. */
  ghost predicate LastEntry(levels: seq<RawLevel>, price: real, k: nat) {
    && k < |levels| && GivesSize(levels[k], price)
    && forall j :: k < j < |levels| ==> !GivesSize(levels[j], price)
  }

  predicate GivesSize(l: RawLevel, price: real) {
    l.RawPair? && l.price == Some(price) && l.size != None && l.size.value > 0.0
  }

  /** What a snapshot side says of a price. */
  ghost predicate SnapshotSays(levels: seq<RawLevel>, price: real, size: real) {
    || (exists k: nat :: LastEntry(levels, price, k) && size == levels[k].size.value)
    || ((forall k :: 0 <= k < |levels| ==> !GivesSize(levels[k], price)) && size == 0.0)
  }

  /** How one message takes the size resting at a price from `before` to `after`. */
  ghost predicate Moves(m: Message, side: BidSide, price: real, before: real, after: real) {
    match m
    case Snapshot(yes, no) => SnapshotSays(if side == YesBids then yes else no, price, after)
    case Delta(s, p, d) =>
      if s == Some(side) && p == Some(price) && d != None then
        after == if before + d.value > 0.0 then before + d.value else 0.0
      else after == before
    case Invalidate => after == before
  }

  /** `sizes` is the size resting at a price before the first message and after each one. */
  ghost predicate Traces(history: seq<Message>, side: BidSide, price: real, sizes: seq<real>) {
    && |sizes| == |history| + 1 && sizes[0] == 0.0
    && forall i, j :: 0 <= i < |history| && j == i + 1 ==> Moves(history[i], side, price, sizes[i], sizes[j])
  }

  /** What rests at a price after the history. */
  ghost predicate Rests(history: seq<Message>, side: BidSide, price: real, size: real) {
    exists sizes :: Traces(history, side, price, sizes) && sizes[|history|] == size
  }

  /** The best bid: the highest price at which anything rests, with what rests there. */
  ghost predicate BestTells(history: seq<Message>, side: BidSide, best: Option<Level>) {
    match best
    case None => forall price: real :: Rests(history, side, price, 0.0)
    case Some(l) =>
      && l.size > 0.0 && Rests(history, side, l.price, l.size)
      && forall price: real :: price > l.price ==> Rests(history, side, price, 0.0)
  }

  /** An ask is one less the best bid of the other side, for the same size. */
  predicate AskTells(opposite: Option<Level>, ask: Option<Level>) {
    && (ask == None <==> opposite == None)
    && (ask != None ==> ask.value.price == 1.0 - opposite.value.price && ask.value.size == opposite.value.size)
  }

  /** No invalidation, and no delta with a part missing. */
  predicate IsSound(m: Message) {
    m != Invalidate && (m.Delta? ==> m.side != None && m.price != None && m.delta != None)
  }

  /** The book is not suspect: there was a snapshot, and every message since is sound. */
  ghost predicate TrustTells(history: seq<Message>) {
    exists i :: 0 <= i < |history| && history[i].Snapshot? && forall j :: i < j < |history| ==> IsSound(history[j])
  }

  /** What the top of book says of the history. */
  ghost predicate TopTells(history: seq<Message>, top: TopOfBook) {
    && BestTells(history, YesBids, top.yesBid) && BestTells(history, NoBids, top.noBid)
    && AskTells(top.noBid, top.yesAsk) && AskTells(top.yesBid, top.noAsk)
    && (top.suspect <==> !TrustTells(history))
  }

  lemma {:induction false} LevelIsSaid(levels: seq<RawLevel>, price: real)
    ensures SnapshotSays(levels, price, LevelSize(levels, price))
  {
    if levels == [] {
    } else {
      var n := |levels| - 1;
      if Sets(levels[n], price) {
        assert LastEntry(levels, price, n);
      } else {
        LevelIsSaid(levels[..n], price);
        if k: nat :| LastEntry(levels[..n], price, k) && LevelSize(levels[..n], price) == levels[..n][k].size.value {
          assert LastEntry(levels, price, k);
        } else {
          forall k | 0 <= k < |levels|
            ensures !GivesSize(levels[k], price)
          {
            assert k < n ==> levels[..n][k] == levels[k];
          }
        }
      }
    }
  }

  lemma SizeMoves(history: seq<Message>, m: Message, side: BidSide, price: real)
    ensures Moves(m, side, price, SizeAfter(history, side, price), SizeAfter(history + [m], side, price))
  {
    Snoc(history, m);
    if m.Snapshot? {
      LevelIsSaid(Levels(m, side), price);
    }
  }

  lemma TraceOn(history: seq<Message>, m: Message, side: BidSide, price: real, sizes: seq<real>, size: real)
    requires Traces(history, side, price, sizes) && Moves(m, side, price, sizes[|history|], size)
    ensures Traces(history + [m], side, price, sizes + [size])
  {
    var all, history' := sizes + [size], history + [m];
    forall i, j | 0 <= i < |history'| && j == i + 1
      ensures Moves(history'[i], side, price, all[i], all[j])
    {
      if i < |history| {
        assert Moves(history[i], side, price, sizes[i], sizes[j]);
      }
    }
  }

  /** What the declared sizes say rests is what rests. */
  lemma {:induction false} SizeRests(history: seq<Message>, side: BidSide, price: real)
    ensures Rests(history, side, price, SizeAfter(history, side, price))
  {
    if history == [] {
      assert Traces(history, side, price, [0.0]);
    } else {
      var before, m := history[..|history| - 1], history[|history| - 1];
      SizeRests(before, side, price);
      var sizes :| Traces(before, side, price, sizes) && sizes[|before|] == SizeAfter(before, side, price);
      SizeMoves(before, m, side, price);
      TraceOn(before, m, side, price, sizes, SizeAfter(before + [m], side, price));
      assert history == before + [m];
    }
  }

  lemma NothingRests(history: seq<Message>, side: BidSide, price: real)
    requires SizeAfter(history, side, price) == 0.0
    ensures Rests(history, side, price, 0.0)
  {
    SizeRests(history, side, price);
  }

  lemma BestIsTold(history: seq<Message>, side: BidSide, best: Option<Level>)
    requires IsBest(history, side, best)
    ensures BestTells(history, side, best)
  {
    if best.None? {
      forall price: real
        ensures Rests(history, side, price, 0.0)
      {
        NothingRests(history, side, price);
      }
    } else {
      SizeRests(history, side, best.value.price);
      forall price: real | price > best.value.price
        ensures Rests(history, side, price, 0.0)
      {
        assert SizeAfter(history, side, price) >= 0.0;
        NothingRests(history, side, price);
      }
    }
  }

  lemma TrustIsTold(history: seq<Message>)
    ensures Trusted(history) <==> TrustTells(history)
  {
    if i :| 0 <= i < |history| && history[i].Snapshot? && forall j :: i < j < |history| ==> IsSound(history[j]) {
      assert forall j :: i < j < |history| ==> !Sours(history[j]);
    }
    if i :| 0 <= i < |history| && history[i].Snapshot? && forall j :: i < j < |history| ==> !Sours(history[j]) {
      assert forall j :: i < j < |history| ==> IsSound(history[j]);
    }
  }

  class BookMirror {
    var yesBids: Bids
    var noBids: Bids
    var suspect: bool
    var malformedCount: nat
    ghost var history: seq<Message>

    /** The mirror refines its message history, price by price. */
    ghost predicate Valid()
      reads this
    {
      && Mirrors(yesBids, history, YesBids) && Mirrors(noBids, history, NoBids)
      && (suspect <==> !Trusted(history))
      && malformedCount == CountMalformed(history)
    }

    constructor ()
      ensures Valid() && history == [] && suspect
    {
      yesBids, noBids, suspect, malformedCount, history := map[], map[], true, 0, [];
    }

    method ApplySnapshot(yes: seq<RawLevel>, no: seq<RawLevel>)
      requires Valid()
      modifies this
      ensures Valid() && history == old(history) + [Snapshot(yes, no)] && !suspect && malformedCount == old(malformedCount)
    {
      var m := Snapshot(yes, no);
      Snoc(history, m);
      TrustStep(history, m);
      FilterSnoc(Malformed, history, m);
      yesBids := ParseLevels(yes);
      noBids := ParseLevels(no);
      suspect := false;
      history := history + [m];
    }

    method ApplyDelta(side: Option<BidSide>, price: Option<real>, delta: Option<real>)
      requires Valid()
      modifies this
      ensures Valid() && history == old(history) + [Delta(side, price, delta)]
      ensures Malformed(Delta(side, price, delta)) ==> suspect
      ensures malformedCount == old(malformedCount) + if side == None || price == None || delta == None then 1 else 0
    {
      ghost var m := Delta(side, price, delta);
      TrustStep(history, m);
      FilterSnoc(Malformed, history, m);
      MoveMirrors(yesBids, history, m, YesBids);
      MoveMirrors(noBids, history, m, NoBids);
      if side.None? || price.None? || delta.None? {
        malformedCount := malformedCount + 1;
        suspect := true;
      } else if side.value.YesBids? {
        yesBids := Move(yesBids, price.value, delta.value);
      } else {
        noBids := Move(noBids, price.value, delta.value);
      }
      history := history + [m];
    }

    method MarkSuspect()
      requires Valid()
      modifies this
      ensures Valid() && history == old(history) + [Invalidate] && suspect && malformedCount == old(malformedCount)
    {
      Snoc(history, Invalidate);
      TrustStep(history, Invalidate);
      FilterSnoc(Malformed, history, Invalidate);
      suspect := true;
      history := history + [Invalidate];
    }

    /** The four best quotes and the flag, in terms of the history alone. */
    method Top() returns (top: TopOfBook)
      requires Valid()
      ensures IsBest(history, YesBids, top.yesBid) && IsBest(history, NoBids, top.noBid)
      ensures top.yesAsk == DerivedAsk(top.noBid) && top.noAsk == DerivedAsk(top.yesBid)
      ensures top.suspect <==> !Trusted(history)
      ensures TopTells(history, top)
    {
      var yb := BestBid(yesBids);
      var nb := BestBid(noBids);
      BestIs(yesBids, history, YesBids, yb);
      BestIs(noBids, history, NoBids, nb);
      BestIsTold(history, YesBids, yb);
      BestIsTold(history, NoBids, nb);
      TrustIsTold(history);
      top := TopOfBook(yb, DerivedAsk(nb), nb, DerivedAsk(yb), suspect);
    }
  }

  lemma BestIs(book: Bids, history: seq<Message>, side: BidSide, best: Option<Level>)
    requires Mirrors(book, history, side)
    requires best.None? ==> book == map[]
    requires best.Some? ==> best.value.price in book && best.value.size == book[best.value.price]
    requires best.Some? ==> forall p :: p in book ==> p <= best.value.price
    ensures IsBest(history, side, best)
  {
    forall p: real
      ensures SizeAfter(history, side, p) > 0.0 <==> p in book
    {
      assert Get(book, p) == SizeAfter(history, side, p);
    }
    if best.Some? {
      assert Get(book, best.value.price) == SizeAfter(history, side, best.value.price);
    }
  }

  /** What the box reads from a top of book. */
  function BoxTop(top: TopOfBook): BoxSelection.Top {
    BoxSelection.Top(
      if top.yesBid.Some? then Some(top.yesBid.value.price) else None,
      if top.yesAsk.Some? then Some(top.yesAsk.value.price) else None, top.suspect)
  }

  /** With derived asks, both sides have one spread, and the NO quotes the box derives from the YES
      quotes are the book's own NO quotes. */
  lemma DerivedQuotesAgree(top: TopOfBook)
    requires top.yesAsk == DerivedAsk(top.noBid) && top.noAsk == DerivedAsk(top.yesBid)
    requires top.yesBid.Some? && top.noBid.Some?
    ensures top.yesAsk.value.price - top.yesBid.value.price == top.noAsk.value.price - top.noBid.value.price
    ensures 1.0 - BoxTop(top).yesBid.value == top.noAsk.value.price
    ensures 1.0 - BoxTop(top).yesAsk.value == top.noBid.value.price
    ensures BoxTop(TopOfBook(top.noBid, top.noAsk, top.yesBid, top.yesAsk, top.suspect))
              == BoxSelection.MirrorTop(BoxTop(top))
  {}
}
