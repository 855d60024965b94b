/** Journal rotation (pilot/service/journal_io.py): closed raw journals are compressed through a
    temporary file, an atomic rename and a best-effort delete. Any wake may be cut at any step. */
module Rotation {
  import opened Sequences

  datatype Stem = Summary | Window(id: int)

  datatype Content = Content(bytes: seq<int>)

  /** A compressed file: a partial one cannot be read, a whole one gives its content back. */
  datatype Gz = Partial | Whole(content: Content)

  /** The journal directory: `s.jsonl`, `s.jsonl.gz` and `s.jsonl.gz.tmp` for each stem. */
  datatype Dir = Dir(raw: map<Stem, Content>, gz: map<Stem, Gz>, tmp: map<Stem, Gz>)

  // ----- The file-system steps of one compression -----

  function OpenTmp(d: Dir, s: Stem): Dir {
    d.(tmp := d.tmp[s := Partial])
  }

  function FillTmp(d: Dir, s: Stem): Dir
    requires s in d.raw
  {
    d.(tmp := d.tmp[s := Whole(d.raw[s])])
  }

  function Promote(d: Dir, s: Stem): Dir
    requires s in d.tmp
  {
    d.(gz := d.gz[s := d.tmp[s]], tmp := d.tmp - {s})
  }

  function RemoveTmp(d: Dir, s: Stem): Dir {
    d.(tmp := d.tmp - {s})
  }

  function RemoveRaw(d: Dir, s: Stem): Dir {
    d.(raw := d.raw - {s})
  }

  /** A delete that may fail and is then ignored. */
  predicate BestEffort(before: Dir, removed: Dir, after: Dir) {
    after == before || after == removed
  }

  // ----- The crash protocol -----

  /** Where the running wake is; a crash forgets it. */
  datatype Phase = Idle | Writing(s: Stem) | Written(s: Stem) | Promoted(s: Stem)

  datatype World = World(dir: Dir, phase: Phase, original: map<Stem, Content>)

  predicate Compressible(d: Dir, s: Stem) {
    s != Summary && s in d.raw && s !in d.gz
  }

  /** One atomic step: of the running wake, of a crash, or of the journal writer. The writer never
      flushes a stem that rotation has already copied (`FlushIsKeptIff` says why). */
  ghost predicate Next(w: World, w': World) {
    || (w'.original == w.original && (RotationStep(w, w') || (w' == w.(phase := Idle))))
    || (exists s, c :: Flushes(w, w', s, c))
  }

  ghost predicate RotationStep(w: World, w': World) {
    match w.phase
    case Idle =>
      || (exists s :: Compressible(w.dir, s) && w'.dir == OpenTmp(w.dir, s) && w'.phase == Writing(s))
      || (exists s :: s != Summary && s in w.dir.raw && s in w.dir.gz && w'.phase == Idle
                      && BestEffort(w.dir, RemoveRaw(w.dir, s), w'.dir))
    case Writing(s) =>
      || (s in w.dir.raw && w'.dir == FillTmp(w.dir, s) && w'.phase == Written(s))
      || (w'.phase == Idle && BestEffort(w.dir, RemoveTmp(w.dir, s), w'.dir))
    case Written(s) =>
      || (s in w.dir.tmp && w'.dir == Promote(w.dir, s) && w'.phase == Promoted(s))
      || (w'.phase == Idle && BestEffort(w.dir, RemoveTmp(w.dir, s), w'.dir))
    case Promoted(s) =>
      w'.phase == Idle && BestEffort(w.dir, RemoveRaw(w.dir, s), w'.dir)
  }

  predicate Flushes(w: World, w': World, s: Stem, c: Content) {
    && s !in w.dir.gz && w.phase != Written(s)
    && w' == w.(dir := w.dir.(raw := w.dir.raw[s := c]), original := w.original[s := c])
  }

  /** Nothing is lost: every stem flushed so far is there raw or whole in `.gz`, and every copy
      there is holds what was flushed last. */
  ghost predicate Safe(w: World) {
    && (forall s :: s in w.original <==> s in w.dir.raw || s in w.dir.gz)
    && (forall s :: s in w.dir.raw && s in w.original ==> w.dir.raw[s] == w.original[s])
    && (forall s :: s in w.dir.gz && s in w.original ==> w.dir.gz[s] == Whole(w.original[s]))
    && (w.phase.Writing? ==> w.phase.s in w.dir.raw && w.phase.s !in w.dir.gz)
    && (w.phase.Written? ==> w.phase.s in w.dir.raw && w.phase.s !in w.dir.gz
                             && w.phase.s in w.dir.tmp && w.dir.tmp[w.phase.s] == Whole(w.dir.raw[w.phase.s]))
    && (w.phase.Promoted? ==> w.phase.s in w.dir.gz)
  }

  lemma StepIsSafe(w: World, w': World)
    requires Safe(w) && w'.original == w.original && RotationStep(w, w')
    ensures Safe(w')
  {}

  lemma FlushIsSafe(w: World, w': World, s: Stem, c: Content)
    requires Safe(w) && Flushes(w, w', s, c)
    ensures Safe(w')
  {}

  ghost predicate IsRun(run: seq<World>) {
    forall i :: 0 <= i < |run| - 1 ==> Next(run[i], run[i + 1])
  }

  /** Rotation is crash-safe: along any run of wakes, crashes and flushes, from a safe directory,
      every state is safe. */
  lemma {:induction false} RunIsSafe(run: seq<World>, n: nat)
    requires IsRun(run) && n < |run| && Safe(run[0])
    ensures Safe(run[n])
  {
    if n == 0 {
    } else {
      RunIsSafe(run, n - 1);
      var w, w' := run[n - 1], run[n];
      assert Next(run[n - 1], run[n - 1 + 1]);
      if w'.original == w.original && RotationStep(w, w') {
        StepIsSafe(w, w');
      } else if w' != w.(phase := Idle) {
        var s, c :| Flushes(w, w', s, c);
        FlushIsSafe(w, w', s, c);
      }
    }
  }

  // ----- What a reader sees -----

  datatype Form = Raw | Compressed

  /** The reader's choice for each stem: the raw journal wins over its `.gz`. */
  function Chosen(d: Dir): map<Stem, Form> {
    map s | s in d.raw.Keys + d.gz.Keys && s != Summary :: if s in d.raw then Raw else Compressed
  }

  /** Reading a chosen journal. A partial `.gz` reads as nothing. */
  function Read(d: Dir, s: Stem): Option<Content> {
    if s in d.raw then Some(d.raw[s])
    else if s in d.gz && d.gz[s].Whole? then Some(d.gz[s].content)
    else None
  }

  /** In a safe directory the readers list every flushed journal once and read what was flushed. */
  lemma ReadersSeeOriginals(w: World)
    requires Safe(w)
    ensures Chosen(w.dir).Keys == w.original.Keys - {Summary}
    ensures forall s :: s in w.original ==> Read(w.dir, s) == Some(w.original[s])
  {}

  /** The two scans of the source: `.gz` files first, then raw ones overwrite. */
  method JournalPaths(d: Dir, gzs: seq<Stem>, raws: seq<Stem>) returns (chosen: map<Stem, Form>)
    requires forall s :: s in gzs <==> s in d.gz
    requires forall s :: s in raws <==> s in d.raw
    ensures chosen == Chosen(d)
    ensures forall s :: s in chosen <==> s != Summary && (s in d.raw || s in d.gz)
    ensures forall s :: s in chosen ==> chosen[s] == if s in d.raw then Raw else Compressed
  {
    chosen := map[];
    for i := 0 to |gzs|
      invariant forall s :: s in chosen <==> s in gzs[..i] && s != Summary
      invariant forall s :: s in chosen ==> chosen[s] == Compressed
    {
      if gzs[i] != Summary && gzs[i] !in chosen {
        chosen := chosen[gzs[i] := Compressed];
      }
    }
    assert gzs[..|gzs|] == gzs;
    for i := 0 to |raws|
      invariant forall s :: s in chosen <==> (s in gzs || s in raws[..i]) && s != Summary
      invariant forall s :: s in chosen ==> chosen[s] == if s in raws[..i] then Raw else Compressed
    {
      if raws[i] != Summary {
        chosen := chosen[raws[i] := Raw];
      }
    }
    assert raws[..|raws|] == raws;
  }

  /** The world after a writer flushes `c` for `s` without asking what rotation has done with it. */
  function FlushAnyway(w: World, s: Stem, c: Content): World {
    w.(dir := w.dir.(raw := w.dir.raw[s := c]), original := w.original[s := c])
  }

  /** Rotation has already taken its copy of `s`: it stands in `.gz`, or whole in the temporary file
      that the running wake is about to rename. */
  predicate Taken(w: World, s: Stem) {
    s in w.dir.gz || w.phase == Written(s)
  }

  /** The flush is harmless: no copy was taken yet, or the content is the one flushed before. */
  predicate Harmless(w: World, s: Stem, c: Content) {
    Taken(w, s) ==> s in w.original && w.original[s] == c
  }

  /** In any phase of rotation a flush leaves a safe world, and so is kept in every later run, if and
      only if it is harmless. */
  lemma FlushIsSafeIff(w: World, s: Stem, c: Content)
    requires Safe(w)
    ensures Safe(FlushAnyway(w, s, c)) <==> Harmless(w, s, c)
  {
    var w' := FlushAnyway(w, s, c);
    assert s in w'.original && w'.original[s] == c;
    if s in w.dir.gz {
      assert w.dir.gz[s] == Whole(w.original[s]);
    }
  }

  /** Steps and crashes of rotation alone, without the writer. */
  ghost predicate IsQuiet(run: seq<World>) {
    forall i :: 0 <= i < |run| - 1 ==> QuietStep(run[i], run[i + 1])
  }

  ghost predicate QuietStep(w: World, w': World) {
    w'.original == w.original && (RotationStep(w, w') || w' == w.(phase := Idle))
  }

  /** Somewhere in the quiet run a reader of `s` no longer gets `c`. */
  ghost predicate Loses(run: seq<World>, s: Stem, c: Content) {
    exists i :: 0 <= i < |run| && Read(run[i].dir, s) != Some(c)
  }

  lemma {:induction false} QuietKeepsOriginal(run: seq<World>, n: nat)
    requires IsQuiet(run) && n < |run|
    ensures run[n].original == run[0].original
  {
    if n == 0 {
    } else {
      QuietKeepsOriginal(run, n - 1);
      assert QuietStep(run[n - 1], run[n - 1 + 1]);
    }
  }

  lemma HarmlessIsKept(w: World, s: Stem, c: Content, run: seq<World>)
    requires Safe(w) && Harmless(w, s, c)
    requires IsQuiet(run) && run != [] && run[0] == FlushAnyway(w, s, c)
    ensures !Loses(run, s, c)
  {
    FlushIsSafeIff(w, s, c);
    assert IsRun(run) by {
      forall i | 0 <= i < |run| - 1
        ensures Next(run[i], run[i + 1])
      {
        assert QuietStep(run[i], run[i + 1]);
      }
    }
    forall i | 0 <= i < |run|
      ensures Read(run[i].dir, s) == Some(c)
    {
      RunIsSafe(run, i);
      QuietKeepsOriginal(run, i);
      ReadersSeeOriginals(run[i]);
    }
  }

  /** A harmful flush is lost within two steps: the next sweep deletes the raw journal beside its `.gz`,
      or the running wake renames its older copy into place and then deletes the raw journal. */
  lemma HarmfulIsLost(w: World, s: Stem, c: Content) returns (run: seq<World>)
    requires Safe(w) && !Harmless(w, s, c) && s != Summary
    ensures IsQuiet(run) && run != [] && run[0] == FlushAnyway(w, s, c) && Loses(run, s, c)
  {
    var w' := FlushAnyway(w, s, c);
    if s in w.dir.gz {
      var idle := w'.(phase := Idle);
      var after := idle.(dir := RemoveRaw(idle.dir, s));
      assert BestEffort(idle.dir, RemoveRaw(idle.dir, s), after.dir);
      assert RotationStep(idle, after);
      run := [w', idle, after];
      assert Read(after.dir, s) == Some(w.original[s]);
    } else {
      var promoted := w'.(dir := Promote(w'.dir, s), phase := Promoted(s));
      var after := promoted.(dir := RemoveRaw(promoted.dir, s), phase := Idle);
      assert RotationStep(w', promoted);
      assert BestEffort(promoted.dir, RemoveRaw(promoted.dir, s), after.dir);
      assert RotationStep(promoted, after);
      run := [w', promoted, after];
      assert Read(after.dir, s) == Some(w.original[s]);
    }
    assert Read(run[2].dir, s) != Some(c);
  }

  /** What a flush puts at risk, in any phase of rotation: its content is read back throughout every
      run that follows if and only if the flush is harmless. The code compares nothing when it clears a
      raw journal, and takes no lock against the writer. */
  lemma FlushIsKeptIff(w: World, s: Stem, c: Content)
    requires Safe(w) && s != Summary
    ensures (forall run :: IsQuiet(run) && run != [] && run[0] == FlushAnyway(w, s, c) ==> !Loses(run, s, c))
              <==> Harmless(w, s, c)
  {
    if Harmless(w, s, c) {
      forall run | IsQuiet(run) && run != [] && run[0] == FlushAnyway(w, s, c)
        ensures !Loses(run, s, c)
      {
        HarmlessIsKept(w, s, c, run);
      }
    } else {
      var run := HarmfulIsLost(w, s, c);
    }
  }

  /** The loss happens: flush, compress with the delete failing, flush again, and the next sweep
      removes the only copy of the second flush. */
  lemma SecondFlushIsLost()
    ensures var s, first, second := Window(0), Content([1]), Content([2]);
            var w := World(Dir(map[s := first], map[s := Whole(first)], map[]), Idle, map[s := first]);
            var w' := FlushAnyway(w, s, second);
            Safe(w) && RotationStep(w', w'.(dir := RemoveRaw(w'.dir, s)))
            && Read(w'.dir, s) == Some(second) && Read(RemoveRaw(w'.dir, s), s) == Some(first)
  {
    var s, first, second := Window(0), Content([1]), Content([2]);
    var w := World(Dir(map[s := first], map[s := Whole(first)], map[]), Idle, map[s := first]);
    var w' := FlushAnyway(w, s, second);
    assert BestEffort(w'.dir, RemoveRaw(w'.dir, s), RemoveRaw(w'.dir, s));
  }

  /** It happens to a stem that has no `.gz` yet, too: a flush between the end of the copy and the
      rename is gone once the wake has renamed and deleted. */
  lemma FlushDuringRotationIsLost()
    ensures var s, first, second := Window(0), Content([1]), Content([2]);
            var w := World(Dir(map[s := first], map[], map[s := Whole(first)]), Written(s), map[s := first]);
            var w1 := FlushAnyway(w, s, second);
            var w2 := w1.(dir := Promote(w1.dir, s), phase := Promoted(s));
            var w3 := w2.(dir := RemoveRaw(w2.dir, s), phase := Idle);
            && Safe(w) && s !in w.dir.gz && RotationStep(w1, w2) && RotationStep(w2, w3)
            && Read(w1.dir, s) == Some(second) && Read(w3.dir, s) == Some(first)
  {
    var s, first, second := Window(0), Content([1]), Content([2]);
    var w := World(Dir(map[s := first], map[], map[s := Whole(first)]), Written(s), map[s := first]);
    var w1 := FlushAnyway(w, s, second);
    var w2 := w1.(dir := Promote(w1.dir, s), phase := Promoted(s));
    assert BestEffort(w2.dir, RemoveRaw(w2.dir, s), RemoveRaw(w2.dir, s));
  }

  // ----- One wake -----

  /** How far one compression gets: it may fail while copying, at the rename, or when the finished
      `.gz` is sized, before the raw journal is deleted. */
  datatype Fate = FailsCopy | FailsRename | FailsSize | Compresses

  /** What the operating system answers for one file: whether its age can be read and is large
      enough, whether time is left, how compressing goes, and whether deletes go through. */
  datatype Outcome = Outcome(statOk: bool, aged: bool, inTime: bool, fate: Fate, cleaned: bool, removed: bool)

  datatype Report = Report(rotated: seq<Stem>, kept: seq<Stem>, errors: seq<Stem>, deferred: nat, scanned: nat)

  predicate Good(o: Outcome) {
    o.statOk && o.inTime && o.fate.Compresses? && o.removed
  }

  /** The file is waiting to be compressed: closed, old enough and without a `.gz`. */
  predicate Waits(gz: map<Stem, Gz>, skip: set<Stem>, s: Stem, o: Outcome) {
    s != Summary && s !in skip && s !in gz && o.aged
  }

  function Backlog(gz: map<Stem, Gz>, skip: set<Stem>, names: seq<Stem>, outcomes: seq<Outcome>, n: nat): nat
    requires n <= |names| == |outcomes|
  {
    if n == 0 then 0
    else Backlog(gz, skip, names, outcomes, n - 1) + if Waits(gz, skip, names[n - 1], outcomes[n - 1]) then 1 else 0
  }

  function Scanned(names: seq<Stem>, n: nat): nat
    requires n <= |names|
  {
    if n == 0 then 0 else Scanned(names, n - 1) + if names[n - 1] == Summary then 0 else 1
  }

  function Min(a: nat, b: nat): nat {
    if a <= b then a else b
  }

  /** How one file changes the report of a sweep; `full` says that the bound is reached and
      `hasGz` that the file's `.gz` is already there. */
  function Tally(hasGz: bool, skip: set<Stem>, full: bool, s: Stem, o: Outcome, r: Report): Report {
    var counted := r.(scanned := r.scanned + 1);
    if s == Summary then r
    else if s in skip || hasGz then counted.(kept := r.kept + [s])
    else if !o.statOk then counted.(errors := r.errors + [s])
    else if !o.aged then counted.(kept := r.kept + [s])
    else if full || !o.inTime then counted.(deferred := r.deferred + 1)
    else if o.fate.Compresses? then counted.(rotated := r.rotated + [s])
    else counted.(errors := r.errors + [s])
  }

  predicate AllGood(outcomes: seq<Outcome>) {
    forall i :: 0 <= i < |outcomes| ==> Good(outcomes[i])
  }

  /** The report after `n` files: everything scanned is accounted for once, the bound holds, and a
      sweep without failures has rotated as much of the backlog as the bound allows. */
  ghost predicate Accounted(gz: map<Stem, Gz>, skip: set<Stem>, maxFiles: nat, names: seq<Stem>,
                            outcomes: seq<Outcome>, n: nat, r: Report)
    requires n <= |names| == |outcomes|
  {
    && r.scanned == Scanned(names, n) == |r.rotated| + |r.kept| + |r.errors| + r.deferred
    && |r.rotated| <= maxFiles
    && (AllGood(outcomes) ==>
          var backlog := Backlog(gz, skip, names, outcomes, n);
          |r.rotated| == Min(maxFiles, backlog) && r.deferred == backlog - |r.rotated| && r.errors == [])
  }

  lemma TallyAccounts(gz: map<Stem, Gz>, skip: set<Stem>, maxFiles: nat, names: seq<Stem>,
                      outcomes: seq<Outcome>, n: nat, r: Report)
    requires n < |names| == |outcomes| && Accounted(gz, skip, maxFiles, names, outcomes, n, r)
    ensures Accounted(gz, skip, maxFiles, names, outcomes, n + 1,
                      Tally(names[n] in gz, skip, |r.rotated| >= maxFiles, names[n], outcomes[n], r))
  {
    assert AllGood(outcomes) ==> Good(outcomes[n]);
  }

  /** The journals that a sweep would compress once they are old enough. */
  function Waiting(d: Dir, skip: set<Stem>): set<Stem> {
    set s | s in d.raw && s != Summary && s !in skip && s !in d.gz
  }

  /** A sweep that started in `d0` has dealt with the first `i` names and left the rest alone. */
  ghost predicate Progress(d0: Dir, d: Dir, names: seq<Stem>, outcomes: seq<Outcome>, i: nat, rotated: seq<Stem>)
    requires i <= |names| == |outcomes|
  {
    && d.raw.Keys <= d0.raw.Keys
    && (forall j :: i <= j < |names| ==> names[j] in d.raw && (names[j] in d.gz <==> names[j] in d0.gz))
    && (forall s :: s in rotated ==> s in names[..i] && s in d.gz)
    && (AllGood(outcomes) ==> forall s :: s in rotated ==> s !in d.raw)
  }

  /** What a sweep has rotated: each of it once, and each of it was waiting; nothing compressed is
      ever removed. */
  ghost predicate Rotates(d0: Dir, d: Dir, skip: set<Stem>, rotated: seq<Stem>) {
    && d0.gz.Keys <= d.gz.Keys
    && (forall s :: s in rotated ==> s in Waiting(d0, skip))
    && (forall i, j :: 0 <= i < j < |rotated| ==> rotated[i] != rotated[j])
  }

  /** What one file of a sweep adds to that. */
  ghost predicate OneRotation(d: Dir, d': Dir, skip: set<Stem>, s: Stem, rotated: seq<Stem>, rotated': seq<Stem>) {
    && d.gz.Keys <= d'.gz.Keys
    && (rotated' == rotated || (rotated' == rotated + [s] && s in Waiting(d, skip)))
  }

  lemma RotatesStep(d0: Dir, d: Dir, d': Dir, names: seq<Stem>, outcomes: seq<Outcome>, i: nat, skip: set<Stem>,
                    rotated: seq<Stem>, rotated': seq<Stem>)
    requires i < |names| == |outcomes| && Progress(d0, d, names, outcomes, i, rotated)
    requires forall i, j :: 0 <= i < j < |names| ==> names[i] != names[j]
    requires Rotates(d0, d, skip, rotated) && OneRotation(d, d', skip, names[i], rotated, rotated')
    ensures Rotates(d0, d', skip, rotated')
  {
    assert names[i] !in names[..i];
    assert names[i] !in rotated;
  }

  /** What one file of a sweep may change. */
  ghost predicate OneFile(d: Dir, d': Dir, s: Stem, o: Outcome, rotated: seq<Stem>, rotated': seq<Stem>) {
    && (forall x :: x != s ==> (x in d'.raw <==> x in d.raw) && (x in d'.gz <==> x in d.gz))
    && (s in d'.raw ==> s in d.raw)
    && (rotated' == rotated || (rotated' == rotated + [s] && s in d'.gz && (o.removed ==> s !in d'.raw)))
  }

  lemma ProgressStep(d0: Dir, d: Dir, d': Dir, names: seq<Stem>, outcomes: seq<Outcome>, i: nat,
                     rotated: seq<Stem>, rotated': seq<Stem>)
    requires i < |names| == |outcomes| && Progress(d0, d, names, outcomes, i, rotated)
    requires forall i, j :: 0 <= i < j < |names| ==> names[i] != names[j]
    requires OneFile(d, d', names[i], outcomes[i], rotated, rotated')
    ensures Progress(d0, d', names, outcomes, i + 1, rotated')
  {
    assert names[..i + 1] == names[..i] + [names[i]];
    assert names[i] !in names[..i];
    assert AllGood(outcomes) ==> Good(outcomes[i]);
  }

  /** A finished sweep: what was rotated was raw before and is compressed now, and when nothing
      failed it is gone from the raw journals. */
  lemma SweepShrinks(d0: Dir, d: Dir, names: seq<Stem>, outcomes: seq<Outcome>, rotated: seq<Stem>)
    requires |names| == |outcomes| && Progress(d0, d, names, outcomes, |names|, rotated)
    requires forall s :: s in names <==> s in d0.raw
    ensures forall s :: s in rotated ==> s in d.gz && s in d0.raw
    ensures AllGood(outcomes) && rotated != [] ==> d.raw.Keys < d0.raw.Keys
  {
    assert names[..|names|] == names;
    if rotated != [] {
      assert rotated[0] in rotated;
    }
  }

  predicate AllAged(outcomes: seq<Outcome>) {
    forall i :: 0 <= i < |outcomes| ==> outcomes[i].aged
  }

  lemma SubsetCount(a: set<Stem>, b: set<Stem>)
    requires a <= b
    ensures |a| <= |b|
  {
    assert b == a + (b - a);
  }

  lemma {:induction false} DistinctCount(s: seq<Stem>)
    requires forall i, j :: 0 <= i < j < |s| ==> s[i] != s[j]
    ensures |set x | x in s| == |s|
  {
    if s == [] {
      assert (set x | x in s) == {};
    } else {
      var rest, last := s[..|s| - 1], s[|s| - 1];
      DistinctCount(rest);
      assert last !in rest;
      assert (set x | x in s) == (set x | x in rest) + {last};
    }
  }

  /** A sweep without failures leaves waiting only what it did not rotate. */
  lemma SweepDrains(d0: Dir, d: Dir, skip: set<Stem>, rotated: seq<Stem>)
    requires Rotates(d0, d, skip, rotated) && d.raw.Keys <= d0.raw.Keys
    requires forall s :: s in rotated ==> s !in d.raw
    ensures Waiting(d, skip) <= Waiting(d0, skip) && |Waiting(d, skip)| + |rotated| <= |Waiting(d0, skip)|
  {
    var gone := set s | s in rotated;
    DistinctCount(rotated);
    assert gone !! Waiting(d, skip);
    SubsetCount(gone + Waiting(d, skip), Waiting(d0, skip));
  }

  /** The names before `n` that wait. */
  ghost function WaitingAmong(d: Dir, skip: set<Stem>, names: seq<Stem>, n: nat): set<Stem>
    requires n <= |names|
  {
    set s | s in names[..n] && s in Waiting(d, skip)
  }

  lemma {:induction false} BacklogCounts(d: Dir, skip: set<Stem>, names: seq<Stem>, outcomes: seq<Outcome>, n: nat)
    requires n <= |names| == |outcomes| && AllAged(outcomes)
    requires forall s :: s in names ==> s in d.raw
    requires forall i, j :: 0 <= i < j < |names| ==> names[i] != names[j]
    ensures Backlog(d.gz, skip, names, outcomes, n) == |WaitingAmong(d, skip, names, n)|
  {
    if n == 0 {
      assert WaitingAmong(d, skip, names, 0) == {};
    } else {
      BacklogCounts(d, skip, names, outcomes, n - 1);
      WaitingStep(d, skip, names, n - 1);
      assert Waits(d.gz, skip, names[n - 1], outcomes[n - 1]) <==> names[n - 1] in Waiting(d, skip);
    }
  }

  lemma WaitingStep(d: Dir, skip: set<Stem>, names: seq<Stem>, n: nat)
    requires n < |names|
    requires forall i, j :: 0 <= i < j < |names| ==> names[i] != names[j]
    ensures |WaitingAmong(d, skip, names, n + 1)|
              == |WaitingAmong(d, skip, names, n)| + if names[n] in Waiting(d, skip) then 1 else 0
  {
    var s, before := names[n], WaitingAmong(d, skip, names, n);
    assert names[..n + 1] == names[..n] + [s];
    assert s !in before by {
      assert s !in names[..n];
    }
    if s in Waiting(d, skip) {
      assert WaitingAmong(d, skip, names, n + 1) == before + {s};
    } else {
      assert WaitingAmong(d, skip, names, n + 1) == before;
    }
  }

  lemma BacklogIsWaiting(d: Dir, skip: set<Stem>, names: seq<Stem>, outcomes: seq<Outcome>)
    requires |names| == |outcomes| && AllAged(outcomes)
    requires forall s :: s in names <==> s in d.raw
    requires forall i, j :: 0 <= i < j < |names| ==> names[i] != names[j]
    ensures Backlog(d.gz, skip, names, outcomes, |names|) == |Waiting(d, skip)|
  {
    BacklogCounts(d, skip, names, outcomes, |names|);
    assert names[..|names|] == names;
    assert WaitingAmong(d, skip, names, |names|) == Waiting(d, skip);
  }

  /** `files` journals, or all of them, are off the backlog. */
  ghost predicate Drained(d0: Dir, d: Dir, skip: set<Stem>, files: nat) {
    Waiting(d, skip) == {} || |Waiting(d, skip)| + files <= |Waiting(d0, skip)|
  }

  lemma DrainStep(d0: Dir, d: Dir, d': Dir, skip: set<Stem>, i: nat, maxFiles: nat)
    requires Drained(d0, d, skip, i * maxFiles) && Waiting(d', skip) <= Waiting(d, skip)
    requires |Waiting(d', skip)| + Min(maxFiles, |Waiting(d, skip)|) <= |Waiting(d, skip)|
    ensures Drained(d0, d', skip, (i + 1) * maxFiles)
  {
    assert (i + 1) * maxFiles == i * maxFiles + maxFiles;
  }

  // ----- A sweep in plain terms -----

  /** What a sweep does with one file. */
  datatype Treatment = Ignored | Kept | Cleared | Failed | Deferred | Rotated

  /** How a file is treated: `hasGz` says that its `.gz` was there before, `full` that the bound was reached. */
  predicate TreatedAs(hasGz: bool, skip: set<Stem>, full: bool, s: Stem, o: Outcome, t: Treatment) {
    match t
    case Ignored => s == Summary
    case Kept => s != Summary && (s in skip || (!hasGz && o.statOk && !o.aged))
    case Cleared => s != Summary && s !in skip && hasGz
    case Failed => s != Summary && s !in skip && !hasGz && (!o.statOk || (o.aged && !full && o.inTime && o.fate != Compresses))
    case Deferred => s != Summary && s !in skip && !hasGz && o.statOk && o.aged && (full || !o.inTime)
    case Rotated => s != Summary && s !in skip && !hasGz && o.statOk && o.aged && !full && o.inTime && o.fate == Compresses
  }

  /** Compressing was tried. */
  predicate Tried(o: Outcome, t: Treatment) {
    t == Rotated || (t == Failed && o.statOk)
  }

  /** What a treatment leaves of a file `s` that stood in `d`. The raw journal goes only when it is cleared or
      rotated and the delete goes through; the `.gz` comes with the rename, also when its size cannot be
      read; a temporary file stays only when the copy or the rename fails and its delete does too. */
  ghost predicate Leaves(d: Dir, d': Dir, s: Stem, o: Outcome, t: Treatment)
    requires s in d.raw
  {
    && (s in d'.raw <==> !((t == Cleared || t == Rotated) && o.removed))
    && (s in d'.raw ==> d'.raw[s] == d.raw[s])
    && (if Tried(o, t) && (o.fate == Compresses || o.fate == FailsSize) then s in d'.gz && d'.gz[s] == Whole(d.raw[s])
        else (s in d'.gz <==> s in d.gz) && (s in d.gz ==> d'.gz[s] == d.gz[s]))
    && (if Tried(o, t) then s in d'.tmp <==> (o.fate == FailsCopy || o.fate == FailsRename) && !o.cleaned
        else s in d'.tmp <==> s in d.tmp)
  }

  /** Nothing of the stem changed. */
  ghost predicate Untouched(d: Dir, d': Dir, s: Stem) {
    && (s in d'.raw <==> s in d.raw) && (s in d.raw && s in d'.raw ==> d'.raw[s] == d.raw[s])
    && (s in d'.gz <==> s in d.gz) && (s in d.gz && s in d'.gz ==> d'.gz[s] == d.gz[s])
    && (s in d'.tmp <==> s in d.tmp)
  }

  ghost function TreatedWith(ts: seq<Treatment>, kinds: set<Treatment>): nat -> bool {
    (i: nat) => i < |ts| && ts[i] in kinds
  }

  ghost function NameAt(names: seq<Stem>): (nat, Stem) -> bool {
    (i: nat, s: Stem) => i < |names| && s == names[i]
  }

  /** `list` names the files treated in one of these ways, in order. */
  ghost predicate Names(names: seq<Stem>, ts: seq<Treatment>, kinds: set<Treatment>, list: seq<Stem>) {
    exists at :: Lists(|ts|, TreatedWith(ts, kinds), NameAt(names), at, list)
  }

  ghost function Positions(ts: seq<Treatment>, kinds: set<Treatment>): set<nat> {
    set i: nat | i < |ts| && ts[i] in kinds
  }

  /** The report of the files treated so far. */
  ghost predicate Tells(names: seq<Stem>, ts: seq<Treatment>, r: Report) {
    && Names(names, ts, {Rotated}, r.rotated)
    && Names(names, ts, {Kept, Cleared}, r.kept)
    && Names(names, ts, {Failed}, r.errors)
    && r.deferred == |Positions(ts, {Deferred})|
    && r.scanned == |Positions(ts, {Kept, Cleared, Failed, Deferred, Rotated})|
  }

  /** The files before `|ts|` were treated as `ts` says, each by its first applicable rule with the bound
      reached once `maxFiles` files before it were rotated, and no other file was touched. */
  ghost predicate Treats(d: Dir, d': Dir, skip: set<Stem>, maxFiles: nat, names: seq<Stem>, outcomes: seq<Outcome>,
                         ts: seq<Treatment>)
  {
    && |ts| <= |names| == |outcomes|
    && (forall i :: 0 <= i < |ts| ==>
          && TreatedAs(names[i] in d.gz, skip, |Positions(ts[..i], {Rotated})| >= maxFiles, names[i], outcomes[i], ts[i])
          && names[i] in d.raw && Leaves(d, d', names[i], outcomes[i], ts[i]))
    && (forall s :: s !in names[..|ts|] ==> Untouched(d, d', s))
  }

  /** A whole sweep. */
  ghost predicate Swept(d: Dir, d': Dir, skip: set<Stem>, maxFiles: nat, names: seq<Stem>, outcomes: seq<Outcome>, r: Report) {
    exists ts :: |ts| == |names| && Treats(d, d', skip, maxFiles, names, outcomes, ts) && Tells(names, ts, r)
  }

  /** What one treated file adds to the report. */
  predicate Adds(s: Stem, t: Treatment, r: Report, r': Report) {
    && r'.rotated == r.rotated + (if t == Rotated then [s] else [])
    && r'.kept == r.kept + (if t == Kept || t == Cleared then [s] else [])
    && r'.errors == r.errors + (if t == Failed then [s] else [])
    && r'.deferred == r.deferred + (if t == Deferred then 1 else 0)
    && r'.scanned == r.scanned + (if t != Ignored then 1 else 0)
  }

  function TreatmentOf(hasGz: bool, skip: set<Stem>, full: bool, s: Stem, o: Outcome): (t: Treatment)
    ensures TreatedAs(hasGz, skip, full, s, o, t)
  {
    if s == Summary then Ignored
    else if s in skip then Kept
    else if hasGz then Cleared
    else if !o.statOk then Failed
    else if !o.aged then Kept
    else if full || !o.inTime then Deferred
    else if o.fate.Compresses? then Rotated
    else Failed
  }

  lemma TallyAdds(hasGz: bool, skip: set<Stem>, full: bool, s: Stem, o: Outcome, r: Report)
    ensures Adds(s, TreatmentOf(hasGz, skip, full, s, o), r, Tally(hasGz, skip, full, s, o, r))
  {}

  lemma NamesMore(names: seq<Stem>, ts: seq<Treatment>, kinds: set<Treatment>, list: seq<Stem>, t: Treatment)
    requires |ts| < |names| && Names(names, ts, kinds, list)
    ensures Names(names, ts + [t], kinds, list + if t in kinds then [names[|ts|]] else [])
  {
    var at :| Lists(|ts|, TreatedWith(ts, kinds), NameAt(names), at, list);
    ListsAgree(|ts|, TreatedWith(ts, kinds), TreatedWith(ts + [t], kinds), NameAt(names), at, list);
    if t in kinds {
      ListsMore(|ts|, TreatedWith(ts + [t], kinds), NameAt(names), at, list, names[|ts|]);
    } else {
      ListsSame(|ts|, TreatedWith(ts + [t], kinds), NameAt(names), at, list);
      assert list + [] == list;
    }
  }

  lemma CountsMore(ts: seq<Treatment>, kinds: set<Treatment>, t: Treatment)
    ensures |Positions(ts + [t], kinds)| == |Positions(ts, kinds)| + if t in kinds then 1 else 0
  {
    assert Positions(ts + [t], kinds) == Positions(ts, kinds) + if t in kinds then {|ts|} else {};
  }

  lemma TellsMore(names: seq<Stem>, ts: seq<Treatment>, r: Report, t: Treatment, r': Report)
    requires |ts| < |names| && Tells(names, ts, r) && Adds(names[|ts|], t, r, r')
    ensures Tells(names, ts + [t], r')
  {
    NamesMore(names, ts, {Rotated}, r.rotated, t);
    NamesMore(names, ts, {Kept, Cleared}, r.kept, t);
    NamesMore(names, ts, {Failed}, r.errors, t);
    CountsMore(ts, {Deferred}, t);
    CountsMore(ts, {Kept, Cleared, Failed, Deferred, Rotated}, t);
  }

  lemma RotatedCount(names: seq<Stem>, ts: seq<Treatment>, r: Report)
    requires Tells(names, ts, r)
    ensures |r.rotated| == |Positions(ts, {Rotated})|
  {
    var at :| Lists(|ts|, TreatedWith(ts, {Rotated}), NameAt(names), at, r.rotated);
    ListsCount(|ts|, TreatedWith(ts, {Rotated}), NameAt(names), at, r.rotated);
    assert Positions(ts, {Rotated}) == set i: nat | i < |ts| && TreatedWith(ts, {Rotated})(i);
  }

  lemma UntouchedOn(d0: Dir, d: Dir, d': Dir, s: Stem)
    requires Untouched(d0, d, s) && Untouched(d, d', s)
    ensures Untouched(d0, d', s)
  {}

  lemma LeavesOn(d0: Dir, d: Dir, d': Dir, s: Stem, o: Outcome, t: Treatment)
    requires s in d0.raw && Leaves(d0, d, s, o, t) && Untouched(d, d', s)
    ensures Leaves(d0, d', s, o, t)
  {}

  lemma LeavesAfter(d0: Dir, d: Dir, d': Dir, s: Stem, o: Outcome, t: Treatment)
    requires s in d0.raw && s in d.raw && Untouched(d0, d, s) && Leaves(d, d', s, o, t)
    ensures Leaves(d0, d', s, o, t)
  {}

  /** One more file is treated and the others are left alone. */
  lemma TreatsMore(d0: Dir, d: Dir, d': Dir, skip: set<Stem>, maxFiles: nat, names: seq<Stem>, outcomes: seq<Outcome>,
                   ts: seq<Treatment>, t: Treatment)
    requires Treats(d0, d, skip, maxFiles, names, outcomes, ts) && |ts| < |names|
    requires forall i, j :: 0 <= i < j < |names| ==> names[i] != names[j]
    requires var s := names[|ts|];
             && s in d0.raw && s in d.raw
             && TreatedAs(s in d0.gz, skip, |Positions(ts, {Rotated})| >= maxFiles, s, outcomes[|ts|], t)
             && Leaves(d, d', s, outcomes[|ts|], t) && forall x :: x != s ==> Untouched(d, d', x)
    ensures Treats(d0, d', skip, maxFiles, names, outcomes, ts + [t])
  {
    var n, all := |ts|, ts + [t];
    assert names[..n + 1] == names[..n] + [names[n]];
    assert names[n] !in names[..n];
    LeavesAfter(d0, d, d', names[n], outcomes[n], t);
    forall i | 0 <= i < |all|
      ensures TreatedAs(names[i] in d0.gz, skip, |Positions(all[..i], {Rotated})| >= maxFiles, names[i], outcomes[i], all[i])
      ensures names[i] in d0.raw && Leaves(d0, d', names[i], outcomes[i], all[i])
    {
      assert all[..i] == ts[..i];
      if i < n {
        LeavesOn(d0, d, d', names[i], outcomes[i], ts[i]);
      } else {
        assert ts[..n] == ts;
      }
    }
    forall s | s !in names[..n + 1]
      ensures Untouched(d0, d', s)
    {
      UntouchedOn(d0, d, d', s);
    }
  }

  lemma TellsNothing(names: seq<Stem>)
    ensures Tells(names, [], Report([], [], [], 0, 0))
  {
    forall kinds: set<Treatment>
      ensures Names(names, [], kinds, []) && Positions([], kinds) == {}
    {
      assert Lists(0, TreatedWith([], kinds), NameAt(names), [], []);
    }
  }

  /** Where a sweep stands after `|ts|` files. */
  ghost predicate Sweeping(d0: Dir, d: Dir, skip: set<Stem>, maxFiles: nat, names: seq<Stem>, outcomes: seq<Outcome>,
                           ts: seq<Treatment>, r: Report)
  {
    && Treats(d0, d, skip, maxFiles, names, outcomes, ts) && Tells(names, ts, r)
    && Progress(d0, d, names, outcomes, |ts|, r.rotated) && Rotates(d0, d, skip, r.rotated)
    && Accounted(d0.gz, skip, maxFiles, names, outcomes, |ts|, r)
  }

  /** What one file of a sweep does to the directory. */
  ghost predicate Treated(d: Dir, d': Dir, skip: set<Stem>, full: bool, s: Stem, o: Outcome, r: Report, r': Report)
    requires s in d.raw
  {
    && r' == Tally(s in d.gz, skip, full, s, o, r)
    && Leaves(d, d', s, o, TreatmentOf(s in d.gz, skip, full, s, o)) && forall x :: x != s ==> Untouched(d, d', x)
  }

  lemma TreatedChanges(d: Dir, d': Dir, skip: set<Stem>, full: bool, s: Stem, o: Outcome, r: Report, r': Report)
    requires s in d.raw && Treated(d, d', skip, full, s, o, r, r')
    ensures OneFile(d, d', s, o, r.rotated, r'.rotated) && OneRotation(d, d', skip, s, r.rotated, r'.rotated)
  {
    forall x | x != s
      ensures (x in d'.raw <==> x in d.raw) && (x in d'.gz <==> x in d.gz)
    {
      assert Untouched(d, d', x);
    }
  }

  lemma TreatsOn(d0: Dir, d: Dir, d': Dir, skip: set<Stem>, maxFiles: nat, names: seq<Stem>, outcomes: seq<Outcome>,
                 ts: seq<Treatment>, t: Treatment, r: Report, r': Report)
    requires |ts| < |names| == |outcomes| && Treats(d0, d, skip, maxFiles, names, outcomes, ts) && Tells(names, ts, r)
    requires forall i, j :: 0 <= i < j < |names| ==> names[i] != names[j]
    requires names[|ts|] in d0.raw && (names[|ts|] in d.gz <==> names[|ts|] in d0.gz)
    requires names[|ts|] in d.raw && Treated(d, d', skip, |r.rotated| >= maxFiles, names[|ts|], outcomes[|ts|], r, r')
    requires t == TreatmentOf(names[|ts|] in d.gz, skip, |r.rotated| >= maxFiles, names[|ts|], outcomes[|ts|])
    ensures Treats(d0, d', skip, maxFiles, names, outcomes, ts + [t]) && Tells(names, ts + [t], r')
  {
    RotatedCount(names, ts, r);
    TallyAdds(names[|ts|] in d.gz, skip, |r.rotated| >= maxFiles, names[|ts|], outcomes[|ts|], r);
    TellsMore(names, ts, r, t, r');
    TreatsMore(d0, d, d', skip, maxFiles, names, outcomes, ts, t);
  }

  lemma CountsOn(d0: Dir, d: Dir, d': Dir, skip: set<Stem>, maxFiles: nat, names: seq<Stem>, outcomes: seq<Outcome>,
                 i: nat, r: Report, r': Report)
    requires i < |names| == |outcomes| && Progress(d0, d, names, outcomes, i, r.rotated)
    requires Rotates(d0, d, skip, r.rotated) && Accounted(d0.gz, skip, maxFiles, names, outcomes, i, r)
    requires forall i, j :: 0 <= i < j < |names| ==> names[i] != names[j]
    requires names[i] in d.raw && Treated(d, d', skip, |r.rotated| >= maxFiles, names[i], outcomes[i], r, r')
    ensures Progress(d0, d', names, outcomes, i + 1, r'.rotated) && Rotates(d0, d', skip, r'.rotated)
    ensures Accounted(d0.gz, skip, maxFiles, names, outcomes, i + 1, r')
  {
    TreatedChanges(d, d', skip, |r.rotated| >= maxFiles, names[i], outcomes[i], r, r');
    TallyAccounts(d0.gz, skip, maxFiles, names, outcomes, i, r);
    RotatesStep(d0, d, d', names, outcomes, i, skip, r.rotated, r'.rotated);
    ProgressStep(d0, d, d', names, outcomes, i, r.rotated, r'.rotated);
  }

  lemma SweepOn(d0: Dir, d: Dir, d': Dir, skip: set<Stem>, maxFiles: nat, names: seq<Stem>, outcomes: seq<Outcome>,
                ts: seq<Treatment>, r: Report, r': Report) returns (ts': seq<Treatment>)
    requires |ts| < |names| == |outcomes| && Sweeping(d0, d, skip, maxFiles, names, outcomes, ts, r)
    requires forall i, j :: 0 <= i < j < |names| ==> names[i] != names[j]
    requires names[|ts|] in d0.raw
    requires names[|ts|] in d.raw && Treated(d, d', skip, |r.rotated| >= maxFiles, names[|ts|], outcomes[|ts|], r, r')
    ensures |ts'| == |ts| + 1 && Sweeping(d0, d', skip, maxFiles, names, outcomes, ts', r')
  {
    var t := TreatmentOf(names[|ts|] in d.gz, skip, |r.rotated| >= maxFiles, names[|ts|], outcomes[|ts|]);
    TreatsOn(d0, d, d', skip, maxFiles, names, outcomes, ts, t, r, r');
    CountsOn(d0, d, d', skip, maxFiles, names, outcomes, |ts|, r, r');
    ts' := ts + [t];
  }

  class JournalDir {
    var dir: Dir
    ghost var original: map<Stem, Content>
    ghost var run: seq<World>

    /** Between operations the object stands, idle, at the end of a run of the crash protocol that
        started from a safe directory. */
    ghost predicate Valid()
      reads this
    {
      At(World(dir, Idle, original))
    }

    ghost predicate At(w: World)
      reads this
    {
      run != [] && IsRun(run) && Safe(run[0]) && run[|run| - 1] == w
    }

    lemma NothingIsLost()
      requires Valid()
      ensures Safe(World(dir, Idle, original))
    {
      RunIsSafe(run, |run| - 1);
    }

    /** A wake that finds directory `d`, perhaps left by a crash. */
    constructor (d: Dir, ghost flushed: map<Stem, Content>)
      requires Safe(World(d, Idle, flushed))
      ensures Valid() && dir == d && original == flushed
    {
      dir, original := d, flushed;
      run := [World(d, Idle, flushed)];
    }

    /** Record that the protocol moved from `w` to `w'`. */
    ghost method Record(w: World, w': World)
      requires At(w) && Next(w, w')
      modifies this`run
      ensures At(w') && run == old(run) + [w']
    {
      run := run + [w'];
    }

    /** The journal writer rewrites the raw journal of a stem that has no `.gz`. */
    method Flush(s: Stem, c: Content)
      requires Valid() && s !in dir.gz
      modifies this
      ensures Valid() && dir == old(dir).(raw := old(dir).raw[s := c]) && original == old(original)[s := c]
    {
      ghost var w := World(dir, Idle, original);
      dir := dir.(raw := dir.raw[s := c]);
      original := original[s := c];
      assert Flushes(w, World(dir, Idle, original), s, c);
      Record(w, World(dir, Idle, original));
    }

    /** Compress one journal: write the temporary file, rename it over `.gz`, delete the raw one. */
    method GzipOne(s: Stem, o: Outcome) returns (ok: bool)
      requires Valid() && Compressible(dir, s)
      modifies this`dir, this`run
      ensures Valid() && ok == o.fate.Compresses?
      ensures dir.gz == if ok || o.fate.FailsSize? then old(dir.gz)[s := Whole(old(dir.raw)[s])] else old(dir.gz)
      ensures dir.raw == if ok && o.removed then old(dir.raw) - {s} else old(dir.raw)
      ensures s in dir.tmp <==> (o.fate.FailsCopy? || o.fate.FailsRename?) && !o.cleaned
      ensures forall x :: x != s ==> (x in dir.tmp <==> x in old(dir.tmp))
    {
      ghost var w0 := World(dir, Idle, original);
      dir := OpenTmp(dir, s);
      ghost var w1 := World(dir, Writing(s), original);
      Record(w0, w1);
      if o.fate.FailsCopy? {
        Abandon(s, o, w1);
        return false;
      }
      dir := FillTmp(dir, s);
      ghost var w2 := World(dir, Written(s), original);
      Record(w1, w2);
      if o.fate.FailsRename? {
        Abandon(s, o, w2);
        return false;
      }
      dir := Promote(dir, s);
      ghost var w3 := World(dir, Promoted(s), original);
      Record(w2, w3);
      if o.fate.Compresses? && o.removed {
        dir := RemoveRaw(dir, s);
      }
      Record(w3, World(dir, Idle, original));
      return o.fate.Compresses?;
    }

    /** A failed compression removes its temporary file if it can. */
    method Abandon(s: Stem, o: Outcome, ghost w: World)
      requires At(w) && w.dir == dir && w.original == original
      requires w.phase == Writing(s) || w.phase == Written(s)
      modifies this`dir, this`run
      ensures Valid() && dir.raw == old(dir.raw) && dir.gz == old(dir.gz)
      ensures dir.tmp == if o.cleaned then old(dir.tmp) - {s} else old(dir.tmp)
    {
      if o.cleaned {
        dir := RemoveTmp(dir, s);
      }
      Record(w, World(dir, Idle, original));
    }

    /** One file of a sweep. It touches no other file. */
    method RotateOne(s: Stem, skip: set<Stem>, full: bool, o: Outcome, r: Report) returns (r': Report)
      requires Valid() && s in dir.raw
      modifies this`dir, this`run
      ensures Valid()
      ensures Treated(old(dir), dir, skip, full, s, o, r, r')
    {
      if s == Summary {
        return r;
      }
      r' := r.(scanned := r.scanned + 1);
      if s in skip {
        return r'.(kept := r'.kept + [s]);
      }
      if s in dir.gz {
        ghost var w := World(dir, Idle, original);
        if o.removed {
          dir := RemoveRaw(dir, s);
        }
        Record(w, World(dir, Idle, original));
        return r'.(kept := r'.kept + [s]);
      }
      if !o.statOk {
        return r'.(errors := r'.errors + [s]);
      }
      if !o.aged {
        return r'.(kept := r'.kept + [s]);
      }
      if full || !o.inTime {
        return r'.(deferred := r'.deferred + 1);
      }
      var ok := GzipOne(s, o);
      if ok {
        return r'.(rotated := r'.rotated + [s]);
      }
      return r'.(errors := r'.errors + [s]);
    }

    /** Take the listed journals one after another. */
    method Sweep(names: seq<Stem>, skip: set<Stem>, maxFiles: nat, outcomes: seq<Outcome>) returns (r: Report)
      requires Valid() && |outcomes| == |names|
      requires forall s :: s in names <==> s in dir.raw
      requires forall i, j :: 0 <= i < j < |names| ==> names[i] != names[j]
      modifies this`dir, this`run
      ensures Valid() && Progress(old(dir), dir, names, outcomes, |names|, r.rotated)
      ensures Rotates(old(dir), dir, skip, r.rotated)
      ensures Accounted(old(dir.gz), skip, maxFiles, names, outcomes, |names|, r)
      ensures Swept(old(dir), dir, skip, maxFiles, names, outcomes, r)
    {
      ghost var d0, ts: seq<Treatment> := dir, [];
      r := Report([], [], [], 0, 0);
      TellsNothing(names);
      for i := 0 to |names|
        invariant Valid() && |ts| == i && Sweeping(d0, dir, skip, maxFiles, names, outcomes, ts, r)
      {
        ghost var d, before := dir, r;
        r := RotateOne(names[i], skip, |r.rotated| >= maxFiles, outcomes[i], r);
        ts := SweepOn(d0, d, dir, skip, maxFiles, names, outcomes, ts, before, r);
      }
    }

    /** A bounded sweep over the raw journals listed in `names`. Every scanned file is rotated,
        kept, deferred or in error, at most `maxFiles` are rotated, and nothing is lost. When no
        step fails, as much of the backlog as the bound allows is rotated and gone from the raw
        journals. */
    method Rotate(names: seq<Stem>, skip: set<Stem>, maxFiles: nat, outcomes: seq<Outcome>) returns (r: Report)
      requires Valid() && |outcomes| == |names|
      requires forall s :: s in names <==> s in dir.raw
      requires forall i, j :: 0 <= i < j < |names| ==> names[i] != names[j]
      modifies this`dir, this`run
      ensures Valid()
      ensures Swept(old(dir), dir, skip, maxFiles, names, outcomes, r)
      ensures Accounted(old(dir.gz), skip, maxFiles, names, outcomes, |names|, r)
      ensures forall s :: s in r.rotated ==> s in dir.gz && s in old(dir.raw)
      ensures dir.raw.Keys <= old(dir.raw.Keys)
      ensures AllGood(outcomes) ==> forall s :: s in r.rotated ==> s !in dir.raw
      ensures AllGood(outcomes) && maxFiles > 0 && Backlog(old(dir.gz), skip, names, outcomes, |names|) > 0 ==>
                dir.raw.Keys < old(dir.raw.Keys)
      ensures AllGood(outcomes) && AllAged(outcomes) ==>
                && Waiting(dir, skip) <= Waiting(old(dir), skip)
                && |Waiting(dir, skip)| + Min(maxFiles, |Waiting(old(dir), skip)|) <= |Waiting(old(dir), skip)|
    {
      ghost var d0 := dir;
      r := Sweep(names, skip, maxFiles, outcomes);
      SweepShrinks(d0, dir, names, outcomes, r.rotated);
      if AllGood(outcomes) && AllAged(outcomes) {
        SweepDrains(d0, dir, skip, r.rotated);
        BacklogIsWaiting(d0, skip, names, outcomes);
      }
    }

    /** The raw journals, in some order. */
    method List() returns (names: seq<Stem>)
      ensures forall s :: s in names <==> s in dir.raw
      ensures forall i, j :: 0 <= i < j < |names| ==> names[i] != names[j]
    {
      names := [];
      var left := dir.raw.Keys;
      while left != {}
        invariant left <= dir.raw.Keys
        invariant forall s :: s in names <==> s in dir.raw && s !in left
        invariant forall i, j :: 0 <= i < j < |names| ==> names[i] != names[j]
      {
        var s :| s in left;
        names, left := names + [s], left - {s};
      }
    }

    /** Wake after wake without failures or new journals. Each one takes `maxFiles` off the backlog, so
        enough of them leave nothing that waits. */
    method Drain(skip: set<Stem>, maxFiles: nat, wakes: nat)
      requires Valid()
      modifies this`dir, this`run
      ensures Valid() && Waiting(dir, skip) <= Waiting(old(dir), skip)
      ensures wakes * maxFiles >= |Waiting(old(dir), skip)| ==> Waiting(dir, skip) == {}
    {
      ghost var d0 := dir;
      for i := 0 to wakes
        invariant Valid() && Waiting(dir, skip) <= Waiting(d0, skip)
        invariant Drained(d0, dir, skip, i * maxFiles)
      {
        var names := List();
        var outcomes := seq(|names|, _ => Outcome(true, true, true, Compresses, true, true));
        ghost var d := dir;
        var r := Rotate(names, skip, maxFiles, outcomes);
        DrainStep(d0, d, dir, skip, i, maxFiles);
      }
    }
  }
}
