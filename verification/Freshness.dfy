/** The readers of a pass cannot see its staleness bound. Both the policy (sim/unseal_runner15.py) and
    the freshest bracket of the surface (claudes-corner/viz/aggregate.py) look only at rows whose legs
    are at most a second old, so passes at any two bounds above that agree for them. */
module Freshness {
  import opened Sequences
  import opened Tape
  import opened Policy
  import opened TapeRows
  import Settlement
  import Staleness
  import Surface

  /** The oldest leg that a written row can still show as fresh. */
  const FRESH_LIMIT := 1.0005

  // ----- The rows -----

  lemma {:induction false} TightenKeepsFresh(d: Direction, w: Eligible, s: real, events: seq<Event>)
    requires s >= FRESH_LIMIT
    ensures Filter(Fresh, RowsOf(d, w, Staleness.Tighten(s, events))) == Filter(Fresh, RowsOf(d, w, events))
  {
    if events == [] {
    } else {
      var rest, e := events[..|events| - 1], events[|events| - 1];
      assert events == rest + [e];
      TightenKeepsFresh(d, w, s, rest);
      FreshSnoc(d, w, rest, e);
      if Staleness.Fits(s, e) {
        FreshSnoc(d, w, Staleness.Tighten(s, rest), Staleness.Cut(s, e));
        CutIsWrittenAlike(d, w, s, e);
      } else {
        FreshnessIsRounded(d, w, e);
      }
    }
  }

  lemma FreshSnoc(d: Direction, w: Eligible, events: seq<Event>, e: Event)
    ensures Filter(Fresh, RowsOf(d, w, events + [e]))
              == Filter(Fresh, RowsOf(d, w, events)) + if Fresh(RowOf(d, w, e)) then [RowOf(d, w, e)] else []
  {
    assert RowsOf(d, w, events + [e]) == RowsOf(d, w, events) + [RowOf(d, w, e)];
    FilterSnoc(Fresh, RowsOf(d, w, events), RowOf(d, w, e));
  }

  /** The dwell is not among the columns that the readers see. */
  lemma CutIsWrittenAlike(d: Direction, w: Eligible, s: real, e: Event)
    ensures RowOf(d, w, Staleness.Cut(s, e)) == RowOf(d, w, e)
  {}

  lemma DirectionKeepsFresh(d: Direction, w: Eligible, s: real, staleness: real, refute: bool)
    requires Walkable(w) && FRESH_LIMIT <= s <= staleness
    ensures Filter(Fresh, RowsOf(d, w, DirectionEvents(d, w, s, refute)))
              == Filter(Fresh, RowsOf(d, w, DirectionEvents(d, w, staleness, refute)))
  {
    var terms := TermsFor(d, w, staleness);
    StreamsAgree(w.hTrades, Settlement.Yes, HighSide(d));
    StreamsAgree(w.lTrades, Settlement.Yes, LowSide(d));
    var high, low := LegStream(HighSide(d), w.hTrades).value, LegStream(LowSide(d), w.lTrades).value;
    Staleness.StalenessIsExactFilter(terms, s, high, low, refute);
    TightenKeepsFresh(d, w, s, DirectionEvents(d, w, staleness, refute));
  }

  lemma WindowKeepsFresh(w: Eligible, s: real, staleness: real, refute: bool)
    requires Walkable(w) && FRESH_LIMIT <= s <= staleness
    ensures Filter(Fresh, RowsFor(w, s, refute)) == Filter(Fresh, RowsFor(w, staleness, refute))
  {
    DirectionKeepsFresh(Strangle, w, s, staleness, refute);
    DirectionKeepsFresh(Flip, w, s, staleness, refute);
    FilterConcat(Fresh, RowsOf(Strangle, w, DirectionEvents(Strangle, w, s, refute)),
                 RowsOf(Flip, w, DirectionEvents(Flip, w, s, refute)));
    FilterConcat(Fresh, RowsOf(Strangle, w, DirectionEvents(Strangle, w, staleness, refute)),
                 RowsOf(Flip, w, DirectionEvents(Flip, w, staleness, refute)));
  }

  lemma {:induction false} PassKeepsFresh(ws: seq<Eligible>, s: real, staleness: real, refute: bool)
    requires AllWalkable(ws) && FRESH_LIMIT <= s <= staleness
    ensures Filter(Fresh, AllRows(ws, s, refute)) == Filter(Fresh, AllRows(ws, staleness, refute))
  {
    if ws == [] {
    } else {
      var n := |ws| - 1;
      var rest, w := ws[..n], ws[n];
      assert ws[..n + 1] == ws && AllWalkable(rest);
      PassKeepsFresh(rest, s, staleness, refute);
      AllRowsSnoc(ws, n, s, refute);
      AllRowsSnoc(ws, n, staleness, refute);
      WindowKeepsFresh(w, s, staleness, refute);
      FilterConcat(Fresh, AllRows(rest, s, refute), RowsFor(w, s, refute));
      FilterConcat(Fresh, AllRows(rest, staleness, refute), RowsFor(w, staleness, refute));
    }
  }

  // ----- The policy -----

  lemma {:induction false} FirstIsAmongFresh(src: Source, w: seq<Row>)
    ensures FirstFor(src, w) == FirstFor(src, Filter(Fresh, w))
  {
    if w == [] {
    } else {
      var rest, r := w[..|w| - 1], w[|w| - 1];
      FirstIsAmongFresh(src, rest);
      if Fresh(r) {
        FirstForSnoc(src, Filter(Fresh, rest), r);
      }
    }
  }

  /** The entry of a window, if it has rows at all. */
  function EntryOf(w: seq<Row>): Option<Entry> {
    if w == [] then None else Winner(w)
  }

  lemma EntryIsAmongFresh(a: seq<Row>, b: seq<Row>)
    requires Filter(Fresh, a) == Filter(Fresh, b)
    requires a != [] && b != [] ==> a[0].quintile == b[0].quintile
    ensures EntryOf(a) == EntryOf(b)
  {
    FirstIsAmongFresh(Q1Strangle, a);
    FirstIsAmongFresh(SubDollarFlip, a);
    FirstIsAmongFresh(Q5Flip, a);
    FirstIsAmongFresh(Q1Strangle, b);
    FirstIsAmongFresh(SubDollarFlip, b);
    FirstIsAmongFresh(Q5Flip, b);
  }

  lemma WindowEntryIgnoresStaleness(w: Eligible, s: real, staleness: real, refute: bool)
    requires Walkable(w) && FRESH_LIMIT <= s <= staleness
    ensures EntryOf(RowsFor(w, s, refute)) == EntryOf(RowsFor(w, staleness, refute))
  {
    WindowKeepsFresh(w, s, staleness, refute);
    WindowRowsStamped(w, s, refute);
    WindowRowsStamped(w, staleness, refute);
    EntryIsAmongFresh(RowsFor(w, s, refute), RowsFor(w, staleness, refute));
  }

  /** The labels of the blocks that are not empty. */
  ghost function NonEmpty(blocks: seq<seq<Row>>, cts: seq<CloseTime>): seq<CloseTime>
    requires |blocks| == |cts|
  {
    if blocks == [] then []
    else
      var n := |blocks| - 1;
      NonEmpty(blocks[..n], cts[..n]) + if blocks[n] == [] then [] else [cts[n]]
  }

  lemma {:induction false} WindowsAreNonEmpty(blocks: seq<seq<Row>>, cts: seq<CloseTime>)
    requires Labelled(blocks, cts)
    ensures Windows(Concat(blocks)) == NonEmpty(blocks, cts)
  {
    if blocks == [] {
    } else {
      var n := |blocks| - 1;
      WindowsAreNonEmpty(blocks[..n], cts[..n]);
      ConcatIsContiguous(blocks[..n], cts[..n]);
      AppendWindow(Concat(blocks[..n]), blocks[n], cts[n]);
    }
  }

  /** The entries of a list of windows, given what each of them enters. */
  function EntriesOf(burned: set<CloseTime>, cts: seq<CloseTime>, entries: seq<Option<Entry>>): seq<Entry>
    requires |cts| == |entries|
  {
    if cts == [] then []
    else
      var n := |cts| - 1;
      EntriesOf(burned, cts[..n], entries[..n])
        + if cts[n] in burned || entries[n].None? then [] else [entries[n].value]
  }

  function BlockEntries(blocks: seq<seq<Row>>): (e: seq<Option<Entry>>)
    ensures |e| == |blocks|
  {
    seq(|blocks|, i requires 0 <= i < |blocks| => EntryOf(blocks[i]))
  }

  lemma {:induction false} WinnersAreEntries(burned: set<CloseTime>, rows: seq<Row>, blocks: seq<seq<Row>>, cts: seq<CloseTime>)
    requires |blocks| == |cts|
    requires forall i :: 0 <= i < |cts| ==> Policy.WindowRows(rows, cts[i]) == blocks[i]
    ensures Winners(burned, NonEmpty(blocks, cts), rows) == EntriesOf(burned, cts, BlockEntries(blocks))
  {
    if blocks == [] {
    } else {
      var n := |blocks| - 1;
      WinnersAreEntries(burned, rows, blocks[..n], cts[..n]);
      assert BlockEntries(blocks)[..n] == BlockEntries(blocks[..n]);
      var before := NonEmpty(blocks[..n], cts[..n]);
      if blocks[n] == [] {
        assert NonEmpty(blocks, cts) == before;
      } else {
        WinnersSnoc(burned, before, cts[n], rows);
      }
    }
  }

  lemma PassEntries(burned: set<CloseTime>, ws: seq<Eligible>, staleness: real, refute: bool)
    requires AllWalkable(ws) && Distinct(Closes(ws))
    ensures BatchReport(burned, AllRows(ws, staleness, refute)).entries
              == EntriesOf(burned, Closes(ws), BlockEntries(RowBlocks(ws, staleness, refute)))
  {
    var rows, blocks := AllRows(ws, staleness, refute), RowBlocks(ws, staleness, refute);
    TapeIsContiguous(ws, staleness, refute);
    PassIsLabelled(ws, staleness, refute);
    WindowsAreNonEmpty(blocks, Closes(ws));
    WinnersAreEntries(burned, rows, blocks, Closes(ws));
  }

  /** The policy cannot see the staleness bound: at any bound above the fresh limit a pass leads to
      the same entries, in the same order. */
  lemma PolicyIgnoresStaleness(burned: set<CloseTime>, ws: seq<Eligible>, s: real, staleness: real, refute: bool)
    requires AllWalkable(ws) && Distinct(Closes(ws)) && FRESH_LIMIT <= s <= staleness
    ensures BatchReport(burned, AllRows(ws, s, refute)).entries
              == BatchReport(burned, AllRows(ws, staleness, refute)).entries
  {
    PassEntries(burned, ws, s, refute);
    PassEntries(burned, ws, staleness, refute);
    var a, b := RowBlocks(ws, s, refute), RowBlocks(ws, staleness, refute);
    forall i | 0 <= i < |ws|
      ensures BlockEntries(a)[i] == BlockEntries(b)[i]
    {
      WindowEntryIgnoresStaleness(ws[i], s, staleness, refute);
    }
    assert BlockEntries(a) == BlockEntries(b);
  }

  // ----- The surface -----

  lemma {:induction false} CellReadsPrefix(rows: seq<Row>, n: nat, k: Surface.CellKey)
    requires n <= |rows|
    ensures Surface.NaiveCell(rows, n, k) == Surface.NaiveCell(rows[..n], n, k)
    decreases n
  {
    if n == 0 {
    } else {
      CellReadsPrefix(rows, n - 1, k);
      CellReadsPrefix(rows[..n], n - 1, k);
      assert rows[..n][..n - 1] == rows[..n - 1];
      var key := Surface.CoverKey(k.d, k.bracket, rows[n - 1].closeTime, k.bucket);
      EnteredReadsPrefix(rows, n - 1, n, key, k.x);
    }
  }

  lemma EnteredReadsPrefix(rows: seq<Row>, m: nat, n: nat, key: Surface.CoverKey, x: int)
    requires m <= n <= |rows|
    ensures Surface.Entered(rows, m, key, x) <==> Surface.Entered(rows[..n], m, key, x)
  {
    var cut := rows[..n];
    assert forall j :: 0 <= j < m ==> rows[j] == cut[j];
  }

  lemma EnteredAmongFresh(rows: seq<Row>, key: Surface.CoverKey, x: int)
    requires key.bracket == 0
    ensures Surface.Entered(rows, |rows|, key, x) <==>
              Surface.Entered(Filter(Fresh, rows), |Filter(Fresh, rows)|, key, x)
  {
    var f := Filter(Fresh, rows);
    if Surface.Entered(rows, |rows|, key, x) {
      var j :| 0 <= j < |rows| && rows[j].direction == key.d && rows[j].closeTime == key.ct
               && Surface.Enters(rows[j], key.bracket, key.bucket, x);
      FilterMembers(Fresh, rows, rows[j]);
      var i :| 0 <= i < |f| && f[i] == rows[j];
    }
    if Surface.Entered(f, |f|, key, x) {
      var j :| 0 <= j < |f| && f[j].direction == key.d && f[j].closeTime == key.ct
               && Surface.Enters(f[j], key.bracket, key.bucket, x);
      FilterMembers(Fresh, rows, f[j]);
      var i :| 0 <= i < |rows| && rows[i] == f[j];
    }
  }

  /** The freshest bracket reads only the fresh rows. */
  lemma {:induction false} CellIsAmongFresh(rows: seq<Row>, k: Surface.CellKey)
    requires k.bracket == 0
    ensures var f := Filter(Fresh, rows);
            Surface.NaiveCell(rows, |rows|, k) == Surface.NaiveCell(f, |f|, k)
  {
    if rows == [] {
    } else {
      var n := |rows| - 1;
      var rest, r, f := rows[..n], rows[n], Filter(Fresh, rows);
      CellIsAmongFresh(rest, k);
      CellReadsPrefix(rows, n, k);
      if Fresh(r) {
        var f' := Filter(Fresh, rest);
        Snoc(f', r);
        CellReadsPrefix(f, |f'|, k);
        var key := Surface.CoverKey(k.d, k.bracket, r.closeTime, k.bucket);
        EnteredAmongFresh(rest, key, k.x);
        EnteredReadsPrefix(rows, n, n, key, k.x);
        EnteredReadsPrefix(f, |f'|, |f'|, key, k.x);
      }
    }
  }

  /** Nor can the freshest bracket of the surface see the staleness bound. */
  lemma SurfaceIgnoresStaleness(ws: seq<Eligible>, s: real, staleness: real, refute: bool, k: Surface.CellKey)
    requires AllWalkable(ws) && FRESH_LIMIT <= s <= staleness && k.bracket == 0
    ensures var a, b := AllRows(ws, s, refute), AllRows(ws, staleness, refute);
            Surface.NaiveCell(a, |a|, k) == Surface.NaiveCell(b, |b|, k)
  {
    PassKeepsFresh(ws, s, staleness, refute);
    CellIsAmongFresh(AllRows(ws, s, refute), k);
    CellIsAmongFresh(AllRows(ws, staleness, refute), k);
  }
}
