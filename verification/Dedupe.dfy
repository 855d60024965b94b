/** Ledger deduplication (tools/dedupe_v33_ledger.py): one window row per close time, the last one,
    in the slot of the first; backfill rows and rows without a close time pass through. */
module Dedupe {
  import opened Sequences

  type Close = int

  /** A ledger row. `body` stands for every field not named here. */
  datatype Row = Row(modeBackfill: bool, backfillOf: bool, close: Option<Close>, body: int, flushedAt: int, recordCount: int)

  /** The row without the two fields that vary between respawns. */
  datatype Key = Key(modeBackfill: bool, backfillOf: bool, close: Option<Close>, body: int)

  predicate IsBackfill(r: Row) {
    r.modeBackfill || r.backfillOf
  }

  function CompareKey(r: Row): Key {
    Key(r.modeBackfill, r.backfillOf, r.close, r.body)
  }

  predicate LacksClose(r: Row) {
    !IsBackfill(r) && r.close.None?
  }

  predicate IsWindow(r: Row) {
    !IsBackfill(r) && r.close.Some?
  }

  predicate IsWindowOf(r: Row, ct: Close) {
    !IsBackfill(r) && r.close == Some(ct)
  }

  // ----- What the output is -----

  /** A row opens a slot unless it is a later window row of a close time already seen. */
  predicate OpensSlot(rows: seq<Row>, i: nat)
    requires i < |rows|
  {
    IsWindow(rows[i]) ==> forall j :: 0 <= j < i ==> !IsWindowOf(rows[j], rows[i].close.value)
  }

  /** The slot number of row `i`: how many rows before it open one. */
  function Slot(rows: seq<Row>, i: nat): nat
    requires i <= |rows|
  {
    if i == 0 then 0 else Slot(rows, i - 1) + if OpensSlot(rows, i - 1) then 1 else 0
  }

  /** The last window row of `ct` before `n`, or -1. */
  function LastOf(rows: seq<Row>, n: nat, ct: Close): (k: int)
    requires n <= |rows|
    ensures -1 <= k < n
    ensures k >= 0 ==> IsWindowOf(rows[k], ct)
    ensures forall j :: k < j < n ==> !IsWindowOf(rows[j], ct)
  {
    if n == 0 then -1 else if IsWindowOf(rows[n - 1], ct) then n - 1 else LastOf(rows, n - 1, ct)
  }

  /** What row `i`'s slot holds after `n` rows. */
  function Holds(rows: seq<Row>, n: nat, i: nat): Row
    requires i < n <= |rows|
  {
    if IsWindow(rows[i]) then rows[LastOf(rows, n, rows[i].close.value)] else rows[i]
  }

  /** `out` is the collapse of the first `n` rows: one entry per slot, in order, each holding the
      last window row of its close time, or the untouched row it was opened by. */
  ghost predicate Collapses(rows: seq<Row>, n: nat, out: seq<Row>)
    requires n <= |rows|
  {
    && |out| == Slot(rows, n)
    && forall i :: 0 <= i < n && OpensSlot(rows, i) ==> Slot(rows, i) < |out| && out[Slot(rows, i)] == Holds(rows, n, i)
  }

  lemma {:induction false} SlotsGrow(rows: seq<Row>, i: nat, j: nat)
    requires i < j <= |rows|
    ensures Slot(rows, i) + (if OpensSlot(rows, i) then 1 else 0) <= Slot(rows, j)
  {
    if i + 1 < j {
      SlotsGrow(rows, i, j - 1);
    }
  }

  /** Every slot is opened by exactly one row. */
  lemma {:induction false} SlotOpener(rows: seq<Row>, n: nat, s: nat) returns (i: nat)
    requires n <= |rows| && s < Slot(rows, n)
    ensures i < n && OpensSlot(rows, i) && Slot(rows, i) == s
  {
    if OpensSlot(rows, n - 1) && Slot(rows, n - 1) == s {
      i := n - 1;
    } else {
      i := SlotOpener(rows, n - 1, s);
    }
  }

  /** The first window row of `ct` before `n`, when there is one. */
  lemma {:induction false} FirstOf(rows: seq<Row>, n: nat, ct: Close) returns (i: nat)
    requires n <= |rows| && LastOf(rows, n, ct) >= 0
    ensures i < n && IsWindowOf(rows[i], ct) && OpensSlot(rows, i)
  {
    if LastOf(rows, n - 1, ct) >= 0 {
      i := FirstOf(rows, n - 1, ct);
    } else {
      i := n - 1;
    }
  }

  // ----- Counts and conflicts -----

  datatype Stats = Stats(read: nat, uniqueClose: nat, removed: nat, noClose: nat, backfill: nat, written: nat)

  /** Two window rows of this close time differ by more than the ignored fields. */
  ghost predicate Conflicting(rows: seq<Row>, n: nat, ct: Close)
    requires n <= |rows|
  {
    exists i, j :: 0 <= i < j < n && IsWindowOf(rows[i], ct) && IsWindowOf(rows[j], ct)
                   && CompareKey(rows[i]) != CompareKey(rows[j])
  }

  /** The distinct keys seen for `ct`. */
  ghost predicate Variants(rows: seq<Row>, n: nat, ct: Close, keys: seq<Key>)
    requires n <= |rows|
  {
    && (forall a, b :: 0 <= a < b < |keys| ==> keys[a] != keys[b])
    && (forall i :: 0 <= i < n && IsWindowOf(rows[i], ct) ==> CompareKey(rows[i]) in keys)
    && (forall k :: k in keys ==> exists i :: 0 <= i < n && IsWindowOf(rows[i], ct) && CompareKey(rows[i]) == k)
  }

  lemma TwoKeysConflict(rows: seq<Row>, n: nat, ct: Close, keys: seq<Key>)
    requires n <= |rows| && Variants(rows, n, ct, keys) && |keys| > 1
    ensures Conflicting(rows, n, ct)
  {
    assert keys[0] in keys && keys[1] in keys;
    var i :| 0 <= i < n && IsWindowOf(rows[i], ct) && CompareKey(rows[i]) == keys[0];
    var j :| 0 <= j < n && IsWindowOf(rows[j], ct) && CompareKey(rows[j]) == keys[1];
    assert i != j;
  }

  lemma ConflictHasTwoKeys(rows: seq<Row>, n: nat, ct: Close, keys: seq<Key>)
    requires n <= |rows| && Variants(rows, n, ct, keys) && Conflicting(rows, n, ct)
    ensures |keys| > 1
  {
    var i, j :| 0 <= i < j < n && IsWindowOf(rows[i], ct) && IsWindowOf(rows[j], ct)
                && CompareKey(rows[i]) != CompareKey(rows[j]);
    assert CompareKey(rows[i]) in keys && CompareKey(rows[j]) in keys;
  }

  lemma VariantsConflict(rows: seq<Row>, n: nat, ct: Close, keys: seq<Key>)
    requires n <= |rows| && Variants(rows, n, ct, keys)
    ensures |keys| > 1 <==> Conflicting(rows, n, ct)
  {
    if |keys| > 1 {
      TwoKeysConflict(rows, n, ct, keys);
    } else if Conflicting(rows, n, ct) {
      ConflictHasTwoKeys(rows, n, ct, keys);
    }
  }

  // ----- The pass -----

  /** The slots known after `n` rows. */
  ghost predicate SlotsKnown(rows: seq<Row>, n: nat, slot: map<Close, nat>)
    requires n <= |rows|
  {
    && (forall ct: Close :: ct in slot <==> LastOf(rows, n, ct) >= 0)
    && (forall i :: 0 <= i < n && IsWindow(rows[i]) && OpensSlot(rows, i) && rows[i].close.value in slot ==>
          slot[rows[i].close.value] == Slot(rows, i))
  }

  lemma CollapseAppend(rows: seq<Row>, n: nat, out: seq<Row>)
    requires n < |rows| && Collapses(rows, n, out) && OpensSlot(rows, n)
    ensures Collapses(rows, n + 1, out + [rows[n]])
  {
    forall i | 0 <= i < n + 1 && OpensSlot(rows, i)
      ensures Slot(rows, i) < |out| + 1 && (out + [rows[n]])[Slot(rows, i)] == Holds(rows, n + 1, i)
    {
      if i < n {
        SlotsGrow(rows, i, n);
        if IsWindow(rows[i]) {
          assert !IsWindowOf(rows[n], rows[i].close.value);
        }
      }
    }
  }

  lemma CollapseReplace(rows: seq<Row>, n: nat, out: seq<Row>, f: nat)
    requires n < |rows| && Collapses(rows, n, out) && IsWindow(rows[n]) && !OpensSlot(rows, n)
    requires f < n && OpensSlot(rows, f) && IsWindowOf(rows[f], rows[n].close.value)
    ensures Slot(rows, f) < |out| && Collapses(rows, n + 1, out[Slot(rows, f) := rows[n]])
  {
    var out' := out[Slot(rows, f) := rows[n]];
    forall i | 0 <= i < n + 1 && OpensSlot(rows, i)
      ensures Slot(rows, i) < |out'| && out'[Slot(rows, i)] == Holds(rows, n + 1, i)
    {
      SlotsGrow(rows, i, n);
      if i < f {
        SlotsGrow(rows, i, f);
      } else if f < i {
        SlotsGrow(rows, f, i);
      }
      if IsWindow(rows[i]) && i != f {
        assert rows[i].close != rows[f].close;
      }
    }
  }

  /** Remember one more key for a close time. */
  function Remember(variants: map<Close, seq<Key>>, ct: Close, k: Key): map<Close, seq<Key>> {
    var seen := if ct in variants then variants[ct] else [];
    variants[ct := if k in seen then seen else seen + [k]]
  }

  ghost predicate VariantsKnown(rows: seq<Row>, n: nat, variants: map<Close, seq<Key>>)
    requires n <= |rows|
  {
    forall ct: Close :: Variants(rows, n, ct, if ct in variants then variants[ct] else [])
  }

  lemma VariantsStep(rows: seq<Row>, n: nat, variants: map<Close, seq<Key>>)
    requires n < |rows| && VariantsKnown(rows, n, variants)
    ensures VariantsKnown(rows, n + 1,
                          if IsWindow(rows[n]) then Remember(variants, rows[n].close.value, CompareKey(rows[n]))
                          else variants)
  {
    var r := rows[n];
    var variants' := if IsWindow(r) then Remember(variants, r.close.value, CompareKey(r)) else variants;
    forall ct: Close
      ensures Variants(rows, n + 1, ct, if ct in variants' then variants'[ct] else [])
    {
      var seen := if ct in variants then variants[ct] else [];
      assert Variants(rows, n, ct, seen);
      if IsWindowOf(r, ct) {
        var keys := variants'[ct];
        forall k | k in keys
          ensures exists i :: 0 <= i < n + 1 && IsWindowOf(rows[i], ct) && CompareKey(rows[i]) == k
        {
          if k !in seen {
            assert k == CompareKey(rows[n]);
          }
        }
      }
    }
  }

  lemma SlotKeys(rows: seq<Row>, n: nat, slot: map<Close, nat>)
    requires n < |rows| && SlotsKnown(rows, n, slot) && IsWindow(rows[n])
    ensures var slot' := slot[rows[n].close.value := Slot(rows, n)];
            forall x: Close :: x in slot' <==> LastOf(rows, n + 1, x) >= 0
  {
    var slot' := slot[rows[n].close.value := Slot(rows, n)];
    forall x: Close
      ensures x in slot' <==> LastOf(rows, n + 1, x) >= 0
    {
      assert x in slot <==> LastOf(rows, n, x) >= 0;
    }
  }

  lemma SlotValue(rows: seq<Row>, n: nat, slot: map<Close, nat>, i: nat)
    requires n < |rows| && SlotsKnown(rows, n, slot) && IsWindow(rows[n]) && rows[n].close.value !in slot
    requires i <= n && IsWindow(rows[i]) && OpensSlot(rows, i)
    requires rows[i].close.value in slot[rows[n].close.value := Slot(rows, n)]
    ensures slot[rows[n].close.value := Slot(rows, n)][rows[i].close.value] == Slot(rows, i)
  {
    var ct := rows[n].close.value;
    if i < n {
      NotSeen(rows, n, slot, ct, i);
      SlotKnown(rows, n, slot, i);
    }
  }

  lemma NotSeen(rows: seq<Row>, n: nat, slot: map<Close, nat>, ct: Close, i: nat)
    requires n <= |rows| && SlotsKnown(rows, n, slot) && ct !in slot && i < n
    ensures !IsWindowOf(rows[i], ct)
  {
    assert LastOf(rows, n, ct) < 0;
  }

  lemma SlotKnown(rows: seq<Row>, n: nat, slot: map<Close, nat>, i: nat)
    requires n <= |rows| && SlotsKnown(rows, n, slot)
    requires i < n && IsWindow(rows[i]) && OpensSlot(rows, i) && rows[i].close.value in slot
    ensures slot[rows[i].close.value] == Slot(rows, i)
  {}

  lemma SlotOpened(rows: seq<Row>, n: nat, slot: map<Close, nat>)
    requires n < |rows| && SlotsKnown(rows, n, slot) && IsWindow(rows[n]) && rows[n].close.value !in slot
    ensures OpensSlot(rows, n) && SlotsKnown(rows, n + 1, slot[rows[n].close.value := Slot(rows, n)])
  {
    assert LastOf(rows, n, rows[n].close.value) < 0;
    SlotKeys(rows, n, slot);
    forall i | 0 <= i < n + 1 && IsWindow(rows[i]) && OpensSlot(rows, i)
               && rows[i].close.value in slot[rows[n].close.value := Slot(rows, n)]
      ensures slot[rows[n].close.value := Slot(rows, n)][rows[i].close.value] == Slot(rows, i)
    {
      SlotValue(rows, n, slot, i);
    }
  }

  lemma SlotReused(rows: seq<Row>, n: nat, slot: map<Close, nat>) returns (f: nat)
    requires n < |rows| && SlotsKnown(rows, n, slot) && IsWindow(rows[n]) && rows[n].close.value in slot
    ensures f < n && OpensSlot(rows, f) && IsWindowOf(rows[f], rows[n].close.value)
    ensures slot[rows[n].close.value] == Slot(rows, f) && !OpensSlot(rows, n)
    ensures SlotsKnown(rows, n + 1, slot)
  {
    f := FirstOf(rows, n, rows[n].close.value);
  }

  lemma SlotPassed(rows: seq<Row>, n: nat, slot: map<Close, nat>)
    requires n < |rows| && SlotsKnown(rows, n, slot) && !IsWindow(rows[n])
    ensures SlotsKnown(rows, n + 1, slot)
  {}

  /** Put a window row in its close time's slot, opening one if there is none. */
  method PlaceWindow(rows: seq<Row>, n: nat, out: seq<Row>, slot: map<Close, nat>)
    returns (out': seq<Row>, slot': map<Close, nat>)
    requires n < |rows| && IsWindow(rows[n]) && Collapses(rows, n, out) && SlotsKnown(rows, n, slot)
    ensures Collapses(rows, n + 1, out') && SlotsKnown(rows, n + 1, slot')
    ensures |out'| - |out| == |slot'| - |slot| <= 1
  {
    var r, ct := rows[n], rows[n].close.value;
    if ct in slot {
      ghost var f := SlotReused(rows, n, slot);
      CollapseReplace(rows, n, out, f);
      out', slot' := out[slot[ct] := r], slot;
    } else {
      SlotOpened(rows, n, slot);
      CollapseAppend(rows, n, out);
      out', slot' := out + [r], slot[ct := |out|];
    }
  }

  /** The dictionaries and counters of the pass. */
  datatype Pass = Pass(out: seq<Row>, slot: map<Close, nat>, variants: map<Close, seq<Key>>, noClose: nat, backfill: nat)

  ghost predicate PassAt(rows: seq<Row>, n: nat, p: Pass)
    requires n <= |rows|
  {
    && Collapses(rows, n, p.out) && SlotsKnown(rows, n, p.slot) && VariantsKnown(rows, n, p.variants)
    && |p.out| == |p.slot| + p.noClose + p.backfill <= n
    && p.backfill == |Filter(IsBackfill, rows[..n])| && p.noClose == |Filter(LacksClose, rows[..n])|
  }

  lemma CountsStep(rows: seq<Row>, n: nat)
    requires n < |rows|
    ensures |Filter(IsBackfill, rows[..n + 1])| == |Filter(IsBackfill, rows[..n])| + if IsBackfill(rows[n]) then 1 else 0
    ensures |Filter(LacksClose, rows[..n + 1])| == |Filter(LacksClose, rows[..n])| + if LacksClose(rows[n]) then 1 else 0
  {
    assert rows[..n + 1] == rows[..n] + [rows[n]];
    FilterSnoc(IsBackfill, rows[..n], rows[n]);
    FilterSnoc(LacksClose, rows[..n], rows[n]);
  }

  /** A row that is no window row is appended and counted under its kind. */
  lemma PassesThrough(rows: seq<Row>, n: nat, p: Pass)
    requires n < |rows| && PassAt(rows, n, p) && !IsWindow(rows[n])
    ensures PassAt(rows, n + 1,
                   if IsBackfill(rows[n]) then p.(out := p.out + [rows[n]], backfill := p.backfill + 1)
                   else p.(out := p.out + [rows[n]], noClose := p.noClose + 1))
  {
    CountsStep(rows, n);
    VariantsStep(rows, n, p.variants);
    CollapseAppend(rows, n, p.out);
    SlotPassed(rows, n, p.slot);
  }

  method TakeRow(rows: seq<Row>, n: nat, p: Pass) returns (p': Pass)
    requires n < |rows| && PassAt(rows, n, p)
    ensures PassAt(rows, n + 1, p')
  {
    var r := rows[n];
    if IsWindow(r) {
      CountsStep(rows, n);
      VariantsStep(rows, n, p.variants);
      var out, slot := PlaceWindow(rows, n, p.out, p.slot);
      p' := p.(out := out, slot := slot, variants := Remember(p.variants, r.close.value, CompareKey(r)));
    } else {
      PassesThrough(rows, n, p);
      p' := p.(out := p.out + [r]);
      if IsBackfill(r) {
        p' := p'.(backfill := p.backfill + 1);
      } else {
        p' := p'.(noClose := p.noClose + 1);
      }
    }
  }

  // ----- The pass in plain terms -----

  /** The row is no backfill and names its close time. */
  predicate ForWindow(r: Row, ct: Close) {
    !r.modeBackfill && !r.backfillOf && r.close == Some(ct)
  }

  /** Row `i` gets a place in the output, unless an earlier row is for the same window. */
  ghost predicate Stays(rows: seq<Row>, i: nat) {
    && i < |rows|
    && forall ct: Close, j :: ForWindow(rows[i], ct) && 0 <= j < i ==> !ForWindow(rows[j], ct)
  }

  /** What stands in the place of row `i`: the last row for the same window, or the row itself. */
  ghost predicate StandsFor(rows: seq<Row>, i: nat, r: Row) {
    && i < |rows|
    && ((forall ct: Close :: !ForWindow(rows[i], ct)) ==> r == rows[i])
    && (forall ct: Close :: ForWindow(rows[i], ct) ==>
          exists k :: 0 <= k < |rows| && r == rows[k] && ForWindow(rows[k], ct)
                      && forall j :: k < j < |rows| ==> !ForWindow(rows[j], ct))
  }

  ghost function StaysAt(rows: seq<Row>): nat -> bool {
    (i: nat) => Stays(rows, i)
  }

  ghost function StandsAt(rows: seq<Row>): (nat, Row) -> bool {
    (i: nat, r: Row) => StandsFor(rows, i, r)
  }

  /** The output, its counts and the conflicts: two rows for one window with different bodies. */
  ghost predicate Deduped(rows: seq<Row>, out: seq<Row>, stats: Stats, conflicts: set<Close>) {
    && (exists at :: Lists(|rows|, StaysAt(rows), StandsAt(rows), at, out))
    && stats.read == |rows| && stats.written == |out| && stats.removed == |rows| - |out|
    && stats.uniqueClose ==
         |set i | 0 <= i < |rows| && !rows[i].modeBackfill && !rows[i].backfillOf && rows[i].close != None ::
            rows[i].close.value|
    && stats.noClose ==
         |set i | 0 <= i < |rows| && !rows[i].modeBackfill && !rows[i].backfillOf && rows[i].close == None|
    && stats.backfill == |set i | 0 <= i < |rows| && (rows[i].modeBackfill || rows[i].backfillOf)|
    && forall ct: Close :: ct in conflicts <==>
         exists i, j ::
                0 <= i < j < |rows| && ForWindow(rows[i], ct) && ForWindow(rows[j], ct) && rows[i].body != rows[j].body
  }

  lemma StaysIff(rows: seq<Row>, i: nat)
    requires i < |rows|
    ensures Stays(rows, i) <==> OpensSlot(rows, i)
    ensures StandsFor(rows, i, Holds(rows, |rows|, i))
  {
    if IsWindow(rows[i]) {
      var k := LastOf(rows, |rows|, rows[i].close.value);
      assert ForWindow(rows[i], rows[i].close.value);
      assert rows[k] == Holds(rows, |rows|, i);
    }
  }

  lemma {:induction false} OutIsListed(rows: seq<Row>, out: seq<Row>, n: nat) returns (at: seq<nat>)
    requires Collapses(rows, |rows|, out) && n <= |rows| && Slot(rows, n) <= |out|
    ensures Lists(n, StaysAt(rows), StandsAt(rows), at, out[..Slot(rows, n)])
  {
    if n == 0 {
      at := [];
    } else {
      var i, s := n - 1, Slot(rows, n - 1);
      at := OutIsListed(rows, out, i);
      StaysIff(rows, i);
      if OpensSlot(rows, i) {
        ListsMore(i, StaysAt(rows), StandsAt(rows), at, out[..s], out[s]);
        assert out[..s + 1] == out[..s] + [out[s]];
        at := at + [i];
      } else {
        ListsSame(i, StaysAt(rows), StandsAt(rows), at, out[..s]);
      }
    }
  }

  lemma ConflictIff(rows: seq<Row>, ct: Close)
    ensures Conflicting(rows, |rows|, ct) <==>
              exists i, j ::
                0 <= i < j < |rows| && ForWindow(rows[i], ct) && ForWindow(rows[j], ct) && rows[i].body != rows[j].body
  {
    if Conflicting(rows, |rows|, ct) {
      var i, j :| 0 <= i < j < |rows| && IsWindowOf(rows[i], ct) && IsWindowOf(rows[j], ct)
                  && CompareKey(rows[i]) != CompareKey(rows[j]);
      assert ForWindow(rows[i], ct) && ForWindow(rows[j], ct) && rows[i].body != rows[j].body;
    }
    if i, j :| 0 <= i < j < |rows| && ForWindow(rows[i], ct) && ForWindow(rows[j], ct) && rows[i].body != rows[j].body {
      assert IsWindowOf(rows[i], ct) && IsWindowOf(rows[j], ct) && CompareKey(rows[i]) != CompareKey(rows[j]);
    }
  }

  lemma CountsArePlain(rows: seq<Row>, slot: map<Close, nat>)
    requires SlotsKnown(rows, |rows|, slot)
    ensures |slot| ==
              |set i | 0 <= i < |rows| && !rows[i].modeBackfill && !rows[i].backfillOf && rows[i].close != None ::
                 rows[i].close.value|
    ensures |Filter(LacksClose, rows)| ==
              |set i | 0 <= i < |rows| && !rows[i].modeBackfill && !rows[i].backfillOf && rows[i].close == None|
    ensures |Filter(IsBackfill, rows)| == |set i | 0 <= i < |rows| && (rows[i].modeBackfill || rows[i].backfillOf)|
  {
    FilterCount(LacksClose, rows);
    FilterCount(IsBackfill, rows);
    assert Kept(LacksClose, rows) ==
           set i | 0 <= i < |rows| && !rows[i].modeBackfill && !rows[i].backfillOf && rows[i].close == None;
    assert Kept(IsBackfill, rows) == set i | 0 <= i < |rows| && (rows[i].modeBackfill || rows[i].backfillOf);
    var closes := set i | 0 <= i < |rows| && !rows[i].modeBackfill && !rows[i].backfillOf && rows[i].close != None ::
                    rows[i].close.value;
    forall ct: Close
      ensures ct in slot <==> ct in closes
    {
      assert ct in slot <==> LastOf(rows, |rows|, ct) >= 0;
      if i :| 0 <= i < |rows| && !rows[i].modeBackfill && !rows[i].backfillOf && rows[i].close == Some(ct) {
        assert IsWindowOf(rows[i], ct);
      }
    }
    assert slot.Keys == closes;
  }

  lemma PassIsDeduped(rows: seq<Row>, p: Pass, conflicts: set<Close>)
    requires PassAt(rows, |rows|, p) && forall ct: Close :: ct in conflicts <==> Conflicting(rows, |rows|, ct)
    ensures Deduped(rows, p.out, Stats(|rows|, |p.slot|, |rows| - |p.out|, p.noClose, p.backfill, |p.out|), conflicts)
  {
    var at := OutIsListed(rows, p.out, |rows|);
    assert p.out[..Slot(rows, |rows|)] == p.out;
    assert rows[..|rows|] == rows;
    CountsArePlain(rows, p.slot);
    forall ct: Close
      ensures ct in conflicts <==>
                exists i, j ::
                0 <= i < j < |rows| && ForWindow(rows[i], ct) && ForWindow(rows[j], ct) && rows[i].body != rows[j].body
    {
      ConflictIff(rows, ct);
    }
  }

  /** The pass: the output collapses the rows, the counts add up, and the conflicts are exactly
      the close times with two genuinely different window rows. */
  method DedupeRows(rows: seq<Row>) returns (out: seq<Row>, stats: Stats, conflicts: set<Close>)
    ensures Collapses(rows, |rows|, out)
    ensures stats.read == |rows| == stats.written + stats.removed && stats.written == |out|
    ensures stats.written == stats.uniqueClose + stats.noClose + stats.backfill
    ensures stats.backfill == |Filter(IsBackfill, rows)| && stats.noClose == |Filter(LacksClose, rows)|
    ensures forall ct: Close :: ct in conflicts <==> Conflicting(rows, |rows|, ct)
    ensures Deduped(rows, out, stats, conflicts)
  {
    var p := Pass([], map[], map[], 0, 0);
    for n := 0 to |rows|
      invariant PassAt(rows, n, p)
    {
      p := TakeRow(rows, n, p);
    }
    assert rows[..|rows|] == rows;
    conflicts := FindConflicts(rows, p.variants);
    PassIsDeduped(rows, p, conflicts);
    out := p.out;
    stats := Stats(|rows|, |p.slot|, |rows| - |out|, p.noClose, p.backfill, |out|);
  }

  method FindConflicts(rows: seq<Row>, variants: map<Close, seq<Key>>) returns (conflicts: set<Close>)
    requires VariantsKnown(rows, |rows|, variants)
    ensures forall ct: Close :: ct in conflicts <==> Conflicting(rows, |rows|, ct)
  {
    conflicts := set ct | ct in variants && |variants[ct]| > 1;
    forall ct: Close
      ensures ct in conflicts <==> Conflicting(rows, |rows|, ct)
    {
      VariantsConflict(rows, |rows|, ct, if ct in variants then variants[ct] else []);
    }
  }

  // ----- Idempotence -----

  ghost predicate DistinctWindows(rows: seq<Row>) {
    forall i, j :: 0 <= i < j < |rows| && IsWindow(rows[i]) && IsWindow(rows[j]) ==> rows[i].close != rows[j].close
  }

  lemma HoldsKind(rows: seq<Row>, n: nat, i: nat)
    requires i < n <= |rows|
    ensures IsWindow(Holds(rows, n, i)) <==> IsWindow(rows[i])
    ensures IsWindow(rows[i]) ==> Holds(rows, n, i).close == rows[i].close
  {}

  /** The output never holds two window rows of one close time. */
  lemma CollapseIsDistinct(rows: seq<Row>, out: seq<Row>)
    requires Collapses(rows, |rows|, out)
    ensures DistinctWindows(out)
  {
    forall a, b | 0 <= a < b < |out| && IsWindow(out[a]) && IsWindow(out[b])
      ensures out[a].close != out[b].close
    {
      var i := SlotOpener(rows, |rows|, a);
      var j := SlotOpener(rows, |rows|, b);
      HoldsKind(rows, |rows|, i);
      HoldsKind(rows, |rows|, j);
      if j < i {
        SlotsGrow(rows, j, i);
      }
      assert i != j;
    }
  }

  lemma {:induction false} DistinctSlots(rows: seq<Row>, n: nat)
    requires DistinctWindows(rows) && n <= |rows|
    ensures Slot(rows, n) == n
  {
    if n == 0 {
    } else {
      DistinctSlots(rows, n - 1);
    }
  }

  /** A ledger without duplicate window rows is left exactly as it is. */
  lemma CleanLedgerIsFixed(rows: seq<Row>, out: seq<Row>)
    requires DistinctWindows(rows) && Collapses(rows, |rows|, out)
    ensures out == rows
  {
    DistinctSlots(rows, |rows|);
    forall i | 0 <= i < |rows|
      ensures out[i] == rows[i]
    {
      DistinctSlots(rows, i);
      OnlyWindow(rows, i);
    }
  }

  lemma OnlyWindow(rows: seq<Row>, i: nat)
    requires DistinctWindows(rows) && i < |rows|
    ensures OpensSlot(rows, i) && Holds(rows, |rows|, i) == rows[i]
  {}

  lemma CleanLedgerHasNoConflict(rows: seq<Row>, ct: Close)
    requires DistinctWindows(rows)
    ensures !Conflicting(rows, |rows|, ct)
  {}

  /** A second run removes nothing and reports no conflict. */
  lemma DedupeIsIdempotent(rows: seq<Row>, out: seq<Row>, again: seq<Row>)
    requires Collapses(rows, |rows|, out) && Collapses(out, |out|, again)
    ensures again == out
    ensures forall ct: Close :: !Conflicting(out, |out|, ct)
  {
    CollapseIsDistinct(rows, out);
    CleanLedgerIsFixed(out, again);
    forall ct: Close
      ensures !Conflicting(out, |out|, ct)
    {
      CleanLedgerHasNoConflict(out, ct);
    }
  }

  /** Backfill rows and rows without a close time survive untouched and in order. */
  lemma PassthroughSurvives(rows: seq<Row>, out: seq<Row>, i: nat, j: nat)
    requires Collapses(rows, |rows|, out) && i < j < |rows| && !IsWindow(rows[i]) && !IsWindow(rows[j])
    ensures Slot(rows, i) < Slot(rows, j) < |out| && out[Slot(rows, i)] == rows[i] && out[Slot(rows, j)] == rows[j]
  {
    SlotsGrow(rows, i, j);
  }
}
