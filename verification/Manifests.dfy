/** From the bytes of the MANIFEST to the version (VersionSet::LogAndApply, WriteSnapshot and Recover in
    db/version_set.cc): a MANIFEST cut at any byte recovers the version of a moment of the run. */
module Manifests {
  import opened Keys
  import opened Files
  import opened VersionBuilder
  import opened LogFormat
  import LogReader
  import opened Lsm
  import opened Durability
  import opened Runs
  import opened Tables
  import V = VersionEdits

  // ----------------------------------------------------------- what is logged

  ghost predicate Spells(bytes: Bytes, k: InternalKey) {
    Parses(bytes) && ParseKey(bytes) == k
  }

  /** The metadata of a file, as an edit records it. */
  ghost predicate Describes(m: V.FileMeta, f: File) {
    m.number == f.number && m.fileSize == f.size && Spells(m.smallest, f.smallest) && Spells(m.largest, f.largest)
  }

  /** The record says which files an edit removes and adds. */
  ghost predicate Logs(r: V.LoggedEdit, e: Edit) {
    && (forall d :: d in r.deletedFiles <==> d in e.deleted) && |r.newFiles| == |e.added|
    && forall i | 0 <= i < |e.added| :: r.newFiles[i].0 == e.added[i].0 && Describes(r.newFiles[i].1, e.added[i].1)
  }

  ghost predicate LogsAll(rs: seq<V.LoggedEdit>, edits: seq<Edit>) {
    |rs| == |edits| && forall i | 0 <= i < |rs| :: Logs(rs[i], edits[i])
  }

  /** The three numbers recovery asks for. */
  predicate HasNumbers(n: V.Numbers) {
    n.nextFile.Some? && n.logNumber.Some? && n.lastSequence.Some?
  }

  /** A record with the numbers that LogAndApply puts into it; there is no previous log. */
  ghost predicate Counted(r: V.LoggedEdit, next: nat, log: nat, last: nat) {
    && r.nextFileNumber == Some(next) && r.logNumber == Some(log) && r.lastSequence == Some(last)
    && (r.prevLogNumber.Some? ==> r.prevLogNumber.value == 0)
  }

  /** A snapshot record has none. */
  ghost predicate Uncounted(r: V.LoggedEdit) {
    r.nextFileNumber == None && r.logNumber == None && r.lastSequence == None && r.prevLogNumber == None
  }

  /** The first records: those of `NewDB`, or those of an opening. */
  ghost predicate LogsOpening(rs: seq<V.LoggedEdit>, start: Start, s: State) {
    match start
    case NewDb(_) => |rs| == 1 && Logs(rs[0], NEW_DB) && Counted(rs[0], 2, 0, 0)
    case Reopened(log, _, before, tables) =>
      && |rs| == 2 && Logs(rs[0], Snapshot(before)) && Uncounted(rs[0])
      && Logs(rs[1], TablesEdit(tables)) && Counted(rs[1], s.nextFile, log, s.last)
  }

  /** The records of the MANIFEST after `k` steps of a run. */
  ghost predicate LogsRun(rs: seq<V.LoggedEdit>, start: Start, states: seq<State>, actions: seq<Action>, k: nat)
    requires k <= |actions| < |states|
  {
    if k == 0 then LogsOpening(rs, start, states[0])
    else
      var more := EditOf(states[k - 1], actions[k - 1]);
      if more == [] then LogsRun(rs, start, states, actions, k - 1)
      else
        && rs != [] && LogsRun(rs[..|rs| - 1], start, states, actions, k - 1)
        && Logs(rs[|rs| - 1], more[0])
        && Counted(rs[|rs| - 1], states[k].nextFile, MinLog(start, states, actions, k), states[k].last)
  }

  /** Nothing has happened since the last record. */
  ghost predicate JustLogged(states: seq<State>, actions: seq<Action>, k: nat)
    requires k <= |actions| < |states|
  {
    k == 0 || EditOf(states[k - 1], actions[k - 1]) != []
  }

  /** No step from `j` to `n` logged anything. */
  ghost predicate Quiet(states: seq<State>, actions: seq<Action>, j: nat, n: nat)
    requires j <= n <= |actions| < |states|
  {
    forall i | j <= i < n :: EditOf(states[i], actions[i]) == []
  }

  lemma LogsAppend(rs: seq<V.LoggedEdit>, before: seq<Edit>, more: seq<Edit>, edits: seq<Edit>)
    requires edits == before + more && |more| <= 1
    requires if more == [] then LogsAll(rs, before)
             else rs != [] && LogsAll(rs[..|rs| - 1], before) && Logs(rs[|rs| - 1], more[0])
    ensures LogsAll(rs, edits)
  {
  }

  lemma {:induction false} LogsManifest(rs: seq<V.LoggedEdit>, start: Start, states: seq<State>, actions: seq<Action>, k: nat)
    requires Run(states, actions) && k < |states| && LogsRun(rs, start, states, actions, k)
    ensures LogsAll(rs, Manifest(start, states, actions, k))
    decreases k
  {
    if k == 0 {
      LogsFirst(rs, start, states, actions, k);
    } else {
      var before, more := Manifest(start, states, actions, k - 1), EditOf(states[k - 1], actions[k - 1]);
      LogsOneAtMost(states, actions, k - 1);
      var fewer := if more == [] then rs else rs[..|rs| - 1];
      LogsManifest(fewer, start, states, actions, k - 1);
      LogsAppend(rs, before, more, Manifest(start, states, actions, k));
    }
  }

  lemma LogsFirst(rs: seq<V.LoggedEdit>, start: Start, states: seq<State>, actions: seq<Action>, k: nat)
    requires k == 0 <= |actions| < |states| && LogsRun(rs, start, states, actions, k)
    ensures LogsAll(rs, Manifest(start, states, actions, k))
  {
  }

  lemma LogsOneAtMost(states: seq<State>, actions: seq<Action>, k: nat)
    requires Run(states, actions) && k < |actions|
    ensures |EditOf(states[k], actions[k])| <= 1
  {
    var s, a, t := StepOf(states, actions, k);
    StepAddsBelow(s, a, t);
  }

  lemma {:induction false} LogsAtLeast(rs: seq<V.LoggedEdit>, start: Start, states: seq<State>, actions: seq<Action>, k: nat)
    requires k <= |actions| < |states| && LogsRun(rs, start, states, actions, k)
    ensures |rs| >= |FirstEdits(start)|
    decreases k
  {
    if k > 0 {
      var fewer := if EditOf(states[k - 1], actions[k - 1]) == [] then rs else rs[..|rs| - 1];
      LogsAtLeast(fewer, start, states, actions, k - 1);
    }
  }

  /** The first `k` records, from those of the opening on, are those of a moment of the run; all of them
      are those of the last one that logged anything. */
  lemma {:induction false} LogsPrefix(rs: seq<V.LoggedEdit>, start: Start, states: seq<State>, actions: seq<Action>,
                                      n: nat, k: nat)
    returns (j: nat)
    requires n <= |actions| < |states| && LogsRun(rs, start, states, actions, n) && |FirstEdits(start)| <= k <= |rs|
    ensures j <= n && LogsRun(rs[..k], start, states, actions, j) && JustLogged(states, actions, j)
    ensures k == |rs| ==> Quiet(states, actions, j, n)
    decreases n
  {
    if n == 0 || (k == |rs| && EditOf(states[n - 1], actions[n - 1]) != []) {
      j := n;
      assert rs[..k] == rs;
    } else if EditOf(states[n - 1], actions[n - 1]) == [] {
      j := LogsPrefix(rs, start, states, actions, n - 1, k);
    } else {
      j := LogsPrefix(rs[..|rs| - 1], start, states, actions, n - 1, k);
      assert rs[..|rs| - 1][..k] == rs[..k];
    }
  }

  // ------------------------------------------------------------------ numbers

  lemma LastCounts(rs: seq<V.LoggedEdit>, next: nat, log: nat, last: nat)
    requires rs != [] && Counted(rs[|rs| - 1], next, log, last)
    ensures var n := V.NumbersOf(rs); n.nextFile == Some(next) && n.logNumber == Some(log) && n.lastSequence == Some(last)
  {
  }

  lemma NoneCounts(rs: seq<V.LoggedEdit>)
    requires |rs| <= 1 && forall i | 0 <= i < |rs| :: Uncounted(rs[i])
    ensures V.NumbersOf(rs) == V.Numbers(None, None, None, None)
  {
    if rs != [] {
      assert rs[..|rs| - 1] == [];
    }
  }

  /** What the records of a moment give: a next file number above all files, the least log number needed,
      and the last sequence number. */
  lemma NumbersAt(rs: seq<V.LoggedEdit>, start: Start, states: seq<State>, actions: seq<Action>, k: nat)
    requires Run(states, actions) && Starts(start, states[0]) && k < |states|
    requires LogsRun(rs, start, states, actions, k) && JustLogged(states, actions, k)
    ensures var n := V.NumbersOf(rs);
            && HasNumbers(n) && n.logNumber.value == MinLog(start, states, actions, k)
            && n.lastSequence.value == states[k].last
            && forall l, f | 0 <= l < NUM_LEVELS && f in states[k].levels[l] :: f.number < n.nextFile.value
  {
    RunNumbers(states, actions, k);
    if k == 0 && start.NewDb? {
      LastCounts(rs, 2, 0, 0);
      assert forall l: nat | l < NUM_LEVELS :: states[k].levels[l] == [];
    } else {
      LastCounts(rs, states[k].nextFile, MinLog(start, states, actions, k), states[k].last);
    }
  }

  /** No record names a previous log. */
  lemma {:induction false} NoPreviousLog(rs: seq<V.LoggedEdit>, start: Start, states: seq<State>, actions: seq<Action>, k: nat)
    requires k <= |actions| < |states| && LogsRun(rs, start, states, actions, k)
    ensures var n := V.NumbersOf(rs); n.prevLogNumber.Some? ==> n.prevLogNumber.value == 0
    decreases k
  {
    if k == 0 {
      if |rs| == 2 {
        NoneCounts(rs[..1]);
      } else {
        NoneCounts(rs[..0]);
      }
    } else {
      var fewer := if EditOf(states[k - 1], actions[k - 1]) == [] then rs else rs[..|rs| - 1];
      NoPreviousLog(fewer, start, states, actions, k - 1);
    }
  }

  /** Before the records of the opening are all there, recovery fails. */
  lemma {:induction false} TooFew(rs: seq<V.LoggedEdit>, start: Start, states: seq<State>, actions: seq<Action>, n: nat, k: nat)
    requires n <= |actions| < |states| && LogsRun(rs, start, states, actions, n)
    requires k < |FirstEdits(start)| && k <= |rs|
    ensures !HasNumbers(V.NumbersOf(rs[..k]))
    decreases n
  {
    LogsAtLeast(rs, start, states, actions, n);
    if n == 0 {
      NoneCounts(rs[..k]);
    } else {
      var fewer := if EditOf(states[n - 1], actions[n - 1]) == [] then rs else rs[..|rs| - 1];
      LogsAtLeast(fewer, start, states, actions, n - 1);
      TooFew(fewer, start, states, actions, n - 1, k);
      assert fewer[..k] == rs[..k];
    }
  }

  // ------------------------------------------------------------- table files

  /** The entries of the table files, by number. */
  type Directory = map<nat, seq<Entry>>

  ghost predicate HasFiles(dir: Directory, e: Edit) {
    forall p | p in e.added :: p.1.number in dir && dir[p.1.number] == p.1.entries
  }

  ghost predicate HasAll(dir: Directory, edits: seq<Edit>) {
    forall e | e in edits :: HasFiles(dir, e)
  }

  ghost predicate HasLevels(dir: Directory, levels: Levels) {
    forall l, f | 0 <= l < NUM_LEVELS && f in levels[l] :: f.number in dir && dir[f.number] == f.entries
  }

  ghost predicate DirectoryOk(dir: Directory, s: State, edits: seq<Edit>) {
    HasAll(dir, edits) && (forall n | n in dir :: n < s.nextFile) && HasLevels(dir, s.levels)
  }

  function WithFiles(dir: Directory, added: seq<(nat, File)>): Directory {
    if added == [] then dir
    else WithFiles(dir, added[..|added| - 1])[added[|added| - 1].1.number := added[|added| - 1].1.entries]
  }

  lemma {:induction false} WithFilesIs(dir: Directory, added: seq<(nat, File)>)
    requires DistinctNumbers(added)
    ensures forall p | p in added :: p.1.number in WithFiles(dir, added) && WithFiles(dir, added)[p.1.number] == p.1.entries
    ensures forall n :: n in WithFiles(dir, added) <==> n in dir || exists p :: p in added && p.1.number == n
    ensures forall n | n in dir && forall p | p in added :: p.1.number != n :: WithFiles(dir, added)[n] == dir[n]
  {
    if added != [] {
      var n := |added| - 1;
      WithFilesIs(dir, added[..n]);
      assert added == added[..n] + [added[n]];
    }
  }

  /** In every run a file number stands for one file, so the table files exist that every logged
      edit speaks of. */
  lemma DirectoryExists(start: Start, states: seq<State>, actions: seq<Action>, k: nat)
    returns (dir: Directory)
    requires Run(states, actions) && Starts(start, states[0]) && k < |states|
    ensures DirectoryOk(dir, states[k], Manifest(start, states, actions, k))
  {
    var dir0 := FirstDirectory(start, states, actions, 0);
    var edits;
    dir, edits := DirectoryUpTo(dir0, FirstEdits(start), start, states, actions, k);
  }

  lemma {:induction false} DirectoryUpTo(first: Directory, firstEdits: seq<Edit>, start: Start, states: seq<State>,
                                         actions: seq<Action>, k: nat)
    returns (dir: Directory, edits: seq<Edit>)
    requires Run(states, actions) && k < |states| && firstEdits == FirstEdits(start)
    requires DirectoryOk(first, states[0], firstEdits)
    ensures edits == Manifest(start, states, actions, k) && DirectoryOk(dir, states[k], edits)
  {
    if k == 0 {
      dir, edits := first, firstEdits;
    } else {
      var dir0, before := DirectoryUpTo(first, firstEdits, start, states, actions, k - 1);
      edits := before + EditOf(states[k - 1], actions[k - 1]);
      dir := OneMoreStep(dir0, states, actions, k - 1, before, edits);
    }
  }

  lemma FirstDirectory(start: Start, states: seq<State>, actions: seq<Action>, k: nat) returns (dir: Directory)
    requires Run(states, actions) && k == 0 && Starts(start, states[k])
    ensures DirectoryOk(dir, states[k], Manifest(start, states, actions, k))
  {
    RunNumbers(states, actions, k);
    match start
    case NewDb(_) =>
      dir := map[];
      NoFiles();
    case Reopened(_, next, before, tables) =>
      var s0 := StateFound(start, states[k]);
      dir := SnapshotDirectory(s0);
      TablesAddBelow(start, states[k]);
      DirectoryStep(dir, s0, states[k], [Snapshot(before)], TablesEdit(tables));
      dir := WithFiles(dir, TablesEdit(tables).added);
      assert FirstEdits(start) == [Snapshot(before)] + [TablesEdit(tables)];
  }

  lemma SnapshotDirectory(s: State) returns (dir: Directory)
    requires NumbersOk(s) && SortedLevels(s.levels)
    ensures DirectoryOk(dir, s, [Snapshot(s.levels)])
  {
    var added := SnapshotFiles(s.levels, NUM_LEVELS);
    SnapshotFresh(s, s.levels, NUM_LEVELS);
    SnapshotHasAll(s.levels, NUM_LEVELS);
    dir := WithFiles(map[], added);
    WithFilesIs(map[], added);
    forall l, f | 0 <= l < NUM_LEVELS && f in s.levels[l]
      ensures f.number in dir && dir[f.number] == f.entries
    {
      assert (l, f) in added;
    }
  }

  lemma NoFiles()
    ensures DirectoryOk(map[], Init(), [NEW_DB])
  {
    assert forall l | 0 <= l < NUM_LEVELS :: Init().levels[l] == [];
  }

  lemma OneMoreStep(dir: Directory, states: seq<State>, actions: seq<Action>, k: nat, edits: seq<Edit>, longer: seq<Edit>)
    returns (dir1: Directory)
    requires Run(states, actions) && k < |actions| && DirectoryOk(dir, states[k], edits)
    requires longer == edits + EditOf(states[k], actions[k])
    ensures DirectoryOk(dir1, states[k + 1], longer)
  {
    var s, a, t := StepOf(states, actions, k);
    dir1 := NextDirectory(dir, s, a, t, edits, longer);
  }

  lemma NextDirectory(dir: Directory, s: State, a: Action, t: State, edits: seq<Edit>, longer: seq<Edit>)
    returns (dir1: Directory)
    requires NumbersOk(s) && NumbersOk(t) && SortedLevels(t.levels) && Next(s, a, t) && DirectoryOk(dir, s, edits)
    requires longer == edits + EditOf(s, a)
    ensures DirectoryOk(dir1, t, longer)
  {
    StepAddsBelow(s, a, t);
    if EditOf(s, a) == [] {
      dir1 := dir;
      assert longer == edits;
    } else {
      var e := EditOf(s, a)[0];
      assert longer == edits + [e];
      dir1 := WithFiles(dir, e.added);
      DirectoryStep(dir, s, t, edits, e);
    }
  }

  lemma DirectoryStep(dir: Directory, s: State, t: State, edits: seq<Edit>, e: Edit)
    requires DirectoryOk(dir, s, edits) && AddsBelow(s, t, e) && Installed(s.levels, e, t.levels) && s.nextFile <= t.nextFile
    ensures DirectoryOk(WithFiles(dir, e.added), t, edits + [e])
  {
    var dir1 := WithFiles(dir, e.added);
    WithFilesIs(dir, e.added);
    forall n | n in dir
      ensures dir1[n] == dir[n]
    {
      forall p | p in e.added && p.1.number == n
        ensures dir[n] == p.1.entries
      {
        var l :| 0 <= l < NUM_LEVELS && p.1 in s.levels[l];
      }
    }
    forall l, f | 0 <= l < NUM_LEVELS && f in t.levels[l]
      ensures f.number in dir1 && dir1[f.number] == f.entries
    {
      if (l, f) !in e.added {
        assert f in s.levels[l];
      }
    }
  }

  // ---------------------------------------------------------------- resolving

  /** A file as recovery knows it: its metadata, with what the directory has under its number. */
  function Filled(dir: Directory, f: File): File {
    f.(entries := if f.number in dir then dir[f.number] else [])
  }

  function FilledFiles(dir: Directory, files: seq<File>): seq<File> {
    seq(|files|, i requires 0 <= i < |files| => Filled(dir, files[i]))
  }

  function FilledLevels(dir: Directory, levels: Levels): Levels {
    seq(NUM_LEVELS, l requires 0 <= l < NUM_LEVELS => FilledFiles(dir, levels[l]))
  }

  function FilledEdit(dir: Directory, e: Edit): Edit {
    Edit(e.deleted, seq(|e.added|, i requires 0 <= i < |e.added| => (e.added[i].0, Filled(dir, e.added[i].1))))
  }

  function FilledEdits(dir: Directory, edits: seq<Edit>): seq<Edit> {
    seq(|edits|, i requires 0 <= i < |edits| => FilledEdit(dir, edits[i]))
  }

  /** When the files are all there, their entries are. */
  lemma FilledIsSame(dir: Directory, levels: Levels)
    requires HasLevels(dir, levels)
    ensures FilledLevels(dir, levels) == levels
  {
    forall l: nat | l < NUM_LEVELS
      ensures FilledLevels(dir, levels)[l] == levels[l]
    {
      forall i | 0 <= i < |levels[l]|
        ensures Filled(dir, levels[l][i]) == levels[l][i]
      {
        assert levels[l][i] in levels[l];
      }
    }
  }

  lemma InFilledEdit(dir: Directory, e: Edit, l: nat, x: File)
    ensures (l, x) in FilledEdit(dir, e).added <==> exists f :: (l, f) in e.added && x == Filled(dir, f)
  {
    var filled := FilledEdit(dir, e);
    if (l, x) in filled.added {
      var i :| 0 <= i < |filled.added| && filled.added[i] == (l, x);
      assert e.added[i] == (l, e.added[i].1) && e.added[i] in e.added;
    }
    if f :| (l, f) in e.added && x == Filled(dir, f) {
      var i :| 0 <= i < |e.added| && e.added[i] == (l, f);
      assert filled.added[i] == (l, x);
    }
  }

  lemma FilledPairs(dir: Directory, e: Edit)
    ensures (set p | p in FilledEdit(dir, e).added :: (p.0, p.1.number)) == set p | p in e.added :: (p.0, p.1.number)
    ensures WfEdit(e) ==> WfEdit(FilledEdit(dir, e))
  {
    var filled := FilledEdit(dir, e);
    forall p | p in e.added
      ensures (p.0, Filled(dir, p.1)) in filled.added
    {
      InFilledEdit(dir, e, p.0, Filled(dir, p.1));
    }
    forall q | q in filled.added
      ensures exists p :: p in e.added && q.0 == p.0 && q.1.number == p.1.number
    {
      InFilledEdit(dir, e, q.0, q.1);
    }
  }

  lemma FilledFresh(dir: Directory, e: Edit, used: set<(nat, nat)>)
    requires AddsFresh(used, e)
    ensures AddsFresh(used, FilledEdit(dir, e))
  {
    var filled := FilledEdit(dir, e);
    forall q | q in filled.added
      ensures (q.0, q.1.number) !in used
    {
      InFilledEdit(dir, e, q.0, q.1);
    }
  }

  /** The builder takes the edits with the entries the directory has, as it takes the logged ones. */
  lemma {:induction false} FilledWf(dir: Directory, edits: seq<Edit>)
    requires WfEdits(EMPTY, edits)
    ensures WfEdits(EMPTY, FilledEdits(dir, edits)) && Used(EMPTY, FilledEdits(dir, edits)) == Used(EMPTY, edits)
  {
    if edits != [] {
      var n := |edits| - 1;
      FilledWf(dir, edits[..n]);
      FilledPairs(dir, edits[n]);
      FilledFresh(dir, edits[n], Used(EMPTY, edits[..n]));
      assert FilledEdits(dir, edits)[..n] == FilledEdits(dir, edits[..n]);
    }
  }

  lemma LiveMore(edits: seq<Edit>, l: nat, x: File)
    requires edits != [] && l < NUM_LEVELS
    ensures var n := |edits| - 1;
            x in Live(EMPTY, edits, l) <==>
            (x in Live(EMPTY, edits[..n], l) && (l, x.number) !in edits[n].deleted) || (l, x) in edits[n].added
  {
    assert x in AddedAt(edits[|edits| - 1], l) <==> (l, x) in edits[|edits| - 1].added;
  }

  /** Live after all, and filled. */
  ghost predicate FilledLive(dir: Directory, edits: seq<Edit>, l: nat, x: File)
    requires l < NUM_LEVELS
  {
    exists f :: f in Live(EMPTY, edits, l) && x == Filled(dir, f)
  }

  lemma {:induction false} LiveIsFilled(dir: Directory, edits: seq<Edit>, l: nat, x: File)
    requires l < NUM_LEVELS
    ensures x in Live(EMPTY, FilledEdits(dir, edits), l) <==> FilledLive(dir, edits, l, x)
  {
    if edits == [] {
      EmptyManifest(l);
    } else {
      var n := |edits| - 1;
      var filled := FilledEdits(dir, edits);
      LiveIsFilled(dir, edits[..n], l, x);
      assert filled[..n] == FilledEdits(dir, edits[..n]);
      LiveMore(filled, l, x);
      InFilledEdit(dir, edits[n], l, x);
      forall f
        ensures f in Live(EMPTY, edits, l) <==>
                (f in Live(EMPTY, edits[..n], l) && (l, f.number) !in edits[n].deleted) || (l, f) in edits[n].added
      {
        LiveMore(edits, l, f);
      }
    }
  }

  lemma FilledSorted(dir: Directory, files: seq<File>)
    requires SortedFiles(files)
    ensures SortedFiles(FilledFiles(dir, files))
    ensures forall x :: x in FilledFiles(dir, files) <==> exists f :: f in files && x == Filled(dir, f)
  {
    var filled := FilledFiles(dir, files);
    forall i, j | 0 <= i < j < |filled|
      ensures Before(filled[i], filled[j])
    {
      assert Before(files[i], files[j]);
    }
    forall x
      ensures x in filled <==> exists f :: f in files && x == Filled(dir, f)
    {
      if f :| f in files && x == Filled(dir, f) {
        var i :| 0 <= i < |files| && files[i] == f;
        assert filled[i] == x;
      }
    }
  }

  /** A logged edit, with what the directory has under the numbers it names. */
  method Resolve(dir: Directory, r: V.LoggedEdit, ghost e: Edit) returns (x: Edit)
    requires Logs(r, e)
    ensures x == FilledEdit(dir, e)
  {
    var deleted: set<(nat, nat)> := {};
    for i := 0 to |r.deletedFiles|
      invariant forall d :: d in deleted <==> d in r.deletedFiles[..i]
    {
      assert r.deletedFiles[..i + 1] == r.deletedFiles[..i] + [r.deletedFiles[i]];
      deleted := deleted + {r.deletedFiles[i]};
    }
    assert r.deletedFiles[..|r.deletedFiles|] == r.deletedFiles;
    var added: seq<(nat, File)> := [];
    for i := 0 to |r.newFiles|
      invariant added == FilledEdit(dir, e).added[..i]
    {
      var m := r.newFiles[i].1;
      assert Describes(m, e.added[i].1);
      var f := File(m.number, m.fileSize, ParseKey(m.smallest), ParseKey(m.largest), []);
      added := added + [(r.newFiles[i].0, Filled(dir, f))];
    }
    assert deleted == e.deleted;
    x := Edit(deleted, added);
  }

  method ResolveAll(dir: Directory, got: seq<V.LoggedEdit>, ghost rs: seq<V.LoggedEdit>, ghost all: seq<Edit>)
    returns (edits: seq<Edit>)
    requires LogsAll(rs, all) && got <= rs
    ensures edits == FilledEdits(dir, all[..|got|])
  {
    edits := [];
    for i := 0 to |got|
      invariant edits == FilledEdits(dir, all[..i])
    {
      assert Logs(rs[i], all[i]);
      var e := Resolve(dir, got[i], all[i]);
      edits := edits + [e];
    }
  }

  // ----------------------------------------------------------------- recovery

  /** The version of moment `j`, as far as the directory has its files. */
  lemma RecoveredLevels(dir: Directory, start: Start, states: seq<State>, actions: seq<Action>, j: nat, v: Levels)
    requires Run(states, actions) && Starts(start, states[0]) && j < |states| && SortedLevels(v)
    requires forall l, x | 0 <= l < NUM_LEVELS ::
               x in v[l] <==> x in Live(EMPTY, FilledEdits(dir, Manifest(start, states, actions, j)), l)
    ensures v == FilledLevels(dir, states[j].levels)
  {
    var edits, levels := Manifest(start, states, actions, j), states[j].levels;
    ManifestIsLive(start, states, actions, j);
    RunNumbers(states, actions, j);
    forall l: nat | l < NUM_LEVELS
      ensures v[l] == FilledFiles(dir, levels[l])
    {
      LevelIsFilled(dir, edits, levels[l], l, v[l]);
    }
  }

  lemma LevelIsFilled(dir: Directory, edits: seq<Edit>, files: seq<File>, l: nat, r: seq<File>)
    requires l < NUM_LEVELS && SortedFiles(files) && SortedFiles(r)
    requires forall x :: x in files <==> x in Live(EMPTY, edits, l)
    requires forall x :: x in r <==> x in Live(EMPTY, FilledEdits(dir, edits), l)
    ensures r == FilledFiles(dir, files)
  {
    FilledSorted(dir, files);
    forall x
      ensures x in r <==> x in FilledFiles(dir, files)
    {
      LiveIsFilled(dir, edits, l, x);
    }
    SortedFilesEqual(r, FilledFiles(dir, files));
  }

  lemma ManifestWf(dir: Directory, start: Start, states: seq<State>, actions: seq<Action>, j: nat)
    requires Run(states, actions) && Starts(start, states[0]) && j < |states|
    ensures WfEdits(EMPTY, FilledEdits(dir, Manifest(start, states, actions, j)))
  {
    ManifestIsLive(start, states, actions, j);
    FilledWf(dir, Manifest(start, states, actions, j));
  }

  /** The records read are those of moment `j`, and the levels those of that moment. */
  ghost predicate RecoversMoment(dir: Directory, rs: seq<V.LoggedEdit>, start: Start, states: seq<State>, actions: seq<Action>,
                                 j: nat, v: Levels) {
    && j <= |actions| < |states| && LogsRun(rs, start, states, actions, j) && JustLogged(states, actions, j)
    && v == FilledLevels(dir, states[j].levels)
  }

  /** Recovers the version from the bytes of a MANIFEST, cut anywhere, of a new database or of a reopened
      one. It succeeds as soon as the records of the opening are there; then it gives the version, the
      numbers and the least log number of a moment of the run, that of the last record there. An uncut
      MANIFEST gives those of now. Table files are not looked at; for a version whose files are all in
      the directory it is that version. */
  method RecoverManifest(crc: Checksum, file: Bytes, name: Bytes, dir: Directory, ghost rs: seq<V.LoggedEdit>,
                         ghost start: Start, ghost states: seq<State>, ghost actions: seq<Action>)
    returns (v: Levels, numbers: V.Numbers, ok: bool, ghost k: nat, ghost j: nat)
    requires Run(states, actions) && Starts(start, states[0]) && LogsRun(rs, start, states, actions, |actions|)
    requires V.Named(rs, name) && forall i | 0 <= i < |rs| :: V.EditFits(rs[i])
    requires file <= LogBytes(crc, 0, V.Records(rs))
    ensures LogReader.WholeRecords(crc, V.Records(rs), |file|, k) && numbers == V.NumbersOf(rs[..k])
    ensures (ok <==> HasNumbers(numbers)) && (ok <==> k >= |FirstEdits(start)|)
    ensures ok ==> RecoversMoment(dir, rs[..k], start, states, actions, j, v)
    ensures ok && HasLevels(dir, states[j].levels) ==> v == states[j].levels
    ensures ok ==> numbers.logNumber.value == MinLog(start, states, actions, j) && numbers.lastSequence.value == states[j].last
    ensures ok && numbers.prevLogNumber.Some? ==> numbers.prevLogNumber.value == 0
    ensures ok ==> forall l, f | 0 <= l < NUM_LEVELS && f in states[j].levels[l] :: f.number < numbers.nextFile.value
    ensures file == LogBytes(crc, 0, V.Records(rs)) ==> ok && Quiet(states, actions, j, |actions|)
  {
    var got;
    got, numbers, ok := V.ReadManifest(crc, file, name, rs);
    k, j := |got|, 0;
    WholeManifest(crc, rs, k, file);
    LogsAtLeast(rs, start, states, actions, |actions|);
    v := EMPTY;
    if !ok {
      MustBeFew(rs, start, states, actions, k);
      return;
    }
    if k < |FirstEdits(start)| {
      TooFew(rs, start, states, actions, |actions|, k);
    }
    j := LogsPrefix(rs, start, states, actions, |actions|, k);
    NumbersAt(rs[..k], start, states, actions, j);
    NoPreviousLog(rs[..k], start, states, actions, j);
    v := VersionAt(dir, got, start, states, actions, j);
    if HasLevels(dir, states[j].levels) {
      FilledIsSame(dir, states[j].levels);
    }
  }

  /** Failure means that a record of the opening is missing. */
  lemma MustBeFew(rs: seq<V.LoggedEdit>, start: Start, states: seq<State>, actions: seq<Action>, k: nat)
    requires Run(states, actions) && Starts(start, states[0]) && LogsRun(rs, start, states, actions, |actions|)
    requires k <= |rs| && !HasNumbers(V.NumbersOf(rs[..k]))
    ensures k < |FirstEdits(start)|
  {
    if k >= |FirstEdits(start)| {
      var j := LogsPrefix(rs, start, states, actions, |actions|, k);
      NumbersAt(rs[..k], start, states, actions, j);
    }
  }

  method VersionAt(dir: Directory, got: seq<V.LoggedEdit>, ghost start: Start, ghost states: seq<State>,
                   ghost actions: seq<Action>, ghost j: nat)
    returns (v: Levels)
    requires Run(states, actions) && Starts(start, states[0]) && j < |states| && LogsRun(got, start, states, actions, j)
    ensures v == FilledLevels(dir, states[j].levels)
  {
    ghost var all := Manifest(start, states, actions, j);
    LogsManifest(got, start, states, actions, j);
    var edits := ResolveAll(dir, got, got, all);
    assert all[..|got|] == all;
    ManifestWf(dir, start, states, actions, j);
    v := Replay(edits);
    RecoveredLevels(dir, start, states, actions, j, v);
  }

  lemma WholeManifest(crc: Checksum, rs: seq<V.LoggedEdit>, k: nat, file: Bytes)
    requires LogReader.WholeRecords(crc, V.Records(rs), |file|, k)
    ensures file == LogBytes(crc, 0, V.Records(rs)) ==> k == |rs|
  {
    if k < |rs| {
      LogReader.LongerLog(crc, V.Records(rs), k + 1);
    }
  }
}
