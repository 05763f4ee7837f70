/** Opening a database after a crash (DBImpl::Recover and DB::Open in db/db_impl.cc): the version of the
    MANIFEST, with the logs replayed on top of it, answers every lookup as the writes that reached tables
    and logs did. */
module Reopening {
  import opened Keys
  import opened Files
  import opened VersionBuilder
  import opened Lsm
  import opened Durability
  import opened Runs
  import opened DbImpl
  import opened LogFormat
  import LogReader
  import Comparators
  import opened Recovery
  import opened WriteLogs
  import opened Manifests
  import opened Replaying
  import V = VersionEdits

  // ------------------------------------------------------------ what a crash leaves

  /** The MANIFEST of the run, cut anywhere. */
  ghost predicate ManifestLeft(crc: Checksum, file: Bytes, name: Bytes, rs: seq<V.LoggedEdit>, start: Start,
                               states: seq<State>, actions: seq<Action>) {
    && |actions| < |states| && LogsRun(rs, start, states, actions, |actions|)
    && V.Named(rs, name) && (forall i | 0 <= i < |rs| :: V.EditFits(rs[i]))
    && file <= LogBytes(crc, 0, V.Records(rs))
  }

  /** Table files keep their contents for as long as they are there. Opening looks for their numbers
      only; no log stands in for a table that has gone. */
  ghost predicate TablesLeft(dir: Directory, files: LogFiles, states: seq<State>) {
    forall k, l, f | 0 <= k < |states| && 0 <= l < NUM_LEVELS && f in states[k].levels[l] && Listed(dir, files, f.number) ::
      f.number in dir && dir[f.number] == f.entries
  }

  /** Some file has this number. */
  predicate Listed(dir: Directory, files: LogFiles, number: nat) {
    number in dir || number in files
  }

  /** A crash after the last step of a run. */
  ghost predicate Crash(crc: Checksum, manifest: Bytes, name: Bytes, dir: Directory, files: LogFiles, rs: seq<V.LoggedEdit>,
                        logs: seq<Log>, first: Log, start: Start, states: seq<State>, actions: seq<Action>) {
    && Durable(states, actions) && Starts(start, states[0]) && OpensWith(start, first, states[0])
    && LogsHold(logs, first, states, actions, |actions|)
    && ManifestLeft(crc, manifest, name, rs, start, states, actions) && TablesLeft(dir, files, states)
    && LogsLeft(crc, files, logs, start)
  }

  // --------------------------------------------------------------------- the version

  /** The state that the MANIFEST of moment `s` describes. */
  function BaseState(s: State, nextFile: nat): State
    requires Counts(s)
  {
    State([], None, s.levels, nextFile, s.last, [], s.history[..FlushedAt(s)], s.horizon)
  }

  lemma BaseIsRecoverable(s: State, nextFile: nat)
    requires Recoverable(s) && forall l, f | 0 <= l < NUM_LEVELS && f in s.levels[l] :: f.number < nextFile
    ensures Recoverable(BaseState(s, nextFile))
  {
    var a, b := FilesOnly(s), BaseState(s, nextFile);
    assert forall e, d :: At(b, e, d) <==> At(a, e, d);
    SameContents(a, b);
    EmptyIsRecoverable(b);
  }

  /** Whether the number of every file of a version is listed. */
  method AllPresent(dir: Directory, files: LogFiles, levels: Levels) returns (ok: bool)
    ensures ok <==> forall l, f | 0 <= l < NUM_LEVELS && f in levels[l] :: Listed(dir, files, f.number)
  {
    for l := 0 to NUM_LEVELS
      invariant forall m, f | 0 <= m < l && f in levels[m] :: Listed(dir, files, f.number)
    {
      for i := 0 to |levels[l]|
        invariant forall j | 0 <= j < i :: Listed(dir, files, levels[l][j].number)
      {
        if !Listed(dir, files, levels[l][i].number) {
          assert levels[l][i] in levels[l];
          return false;
        }
      }
    }
    ok := true;
  }

  /** The files looked for are the ones of the moment recovered. */
  lemma PresentIsSame(dir: Directory, files: LogFiles, states: seq<State>, j: nat)
    requires TablesLeft(dir, files, states) && j < |states|
    ensures (forall l, x | 0 <= l < NUM_LEVELS && x in FilledLevels(dir, states[j].levels)[l] :: Listed(dir, files, x.number))
            <==> HasLevels(dir, states[j].levels)
  {
    var levels := states[j].levels;
    var filled := FilledLevels(dir, levels);
    forall l: nat, f | l < NUM_LEVELS && f in levels[l]
      ensures Filled(dir, f) in filled[l]
    {
      var i :| 0 <= i < |levels[l]| && levels[l][i] == f;
      assert filled[l][i] == Filled(dir, f);
    }
    forall l: nat, x | l < NUM_LEVELS && x in filled[l]
      ensures exists f :: f in levels[l] && x.number == f.number
    {
      var i :| 0 <= i < |filled[l]| && filled[l][i] == x;
      assert levels[l][i] in levels[l];
    }
    if forall l, x | 0 <= l < NUM_LEVELS && x in filled[l] :: Listed(dir, files, x.number) {
      forall l, f | 0 <= l < NUM_LEVELS && f in levels[l]
        ensures f.number in dir && dir[f.number] == f.entries
      {
        assert Listed(dir, files, Filled(dir, f).number);
      }
    }
  }

  // ------------------------------------------------------------------ the new version

  lemma TablesAreFresh(s: State, tables: seq<File>, next: nat)
    requires NumbersOk(s) && SortedLevels(s.levels) && NewTables(tables, s.nextFile, next)
    ensures WfEdit(TablesEdit(tables)) && AddsFresh(Used(s.levels, []), TablesEdit(tables))
  {
    TableNumbers(tables, s.nextFile, next);
    var e := TablesEdit(tables);
    forall p | p in e.added
      ensures p.0 == 0 && p.1 in tables
    {
    }
  }

  /** A version and an edit determine the next version. */
  lemma OneVersion(base: Levels, e: Edit, v: Levels, w: Levels)
    requires Installed(base, e, v) && Installed(base, e, w)
    ensures v == w
  {
    forall l: nat | l < NUM_LEVELS
      ensures v[l] == w[l]
    {
      forall x: File
        ensures x in v[l] <==> x in w[l]
      {
        var after := (x in base[l] && (l, x.number) !in e.deleted) || (l, x) in e.added;
        assert x in v[l] <==> after;
        assert x in w[l] <==> after;
      }
      SortedFilesEqual(v[l], w[l]);
    }
  }

  /** Installs what was replayed: the memtable, and all recovered tables by one edit. */
  method InstallReplay(db: DBImpl, r: Replay, last: nat, nextFile: nat, ghost s: State, ghost es: seq<Entry>, ghost t: State)
    requires db.Valid() && db.Model() == s && s.mem == [] && s.imm == None && s.snapshots == []
    requires Replays(s, r, es, t) && r.nextFile <= nextFile && last < MAX_SEQUENCE
    requires last == if s.last < r.maxSequence then r.maxSequence else s.last
    modifies db
    ensures db.Valid() && db.Model() == t.(nextFile := nextFile, last := last) && Recoverable(db.Model())
  {
    TablesAreFresh(s, r.tables, r.nextFile);
    ghost var u := t.(nextFile := nextFile, last := last);
    CountersKeepRecoverable(t, u);
    db.LogAndApply(TablesEdit(r.tables));
    OneVersion(s.levels, TablesEdit(r.tables), db.levels, t.levels);
    db.mem, db.nextFile, db.lastSequence, db.history := r.mem, nextFile, last, t.history;
    assert db.Model() == u;
  }

  // -------------------------------------------------------------------- the opening

  /** What the logs of the run tell a replay on top of moment `j`. */
  lemma LogsForReplay(crc: Checksum, files: LogFiles, logs: seq<Log>, first: Log, start: Start, states: seq<State>,
                      actions: seq<Action>, j: nat)
    returns (n: nat)
    requires Durable(states, actions) && Starts(start, states[0]) && OpensWith(start, first, states[0]) && j < |states|
    requires LogsHold(logs, first, states, actions, |actions|) && LogsLeft(crc, files, logs, start)
    ensures Recoverable(states[j]) && FlushedAt(states[j]) <= |states[|actions|].history|
    ensures var end, h := states[|actions|], FlushedAt(states[j]);
            && states[j].history[..h] == end.history[..h]
            && Pending(logs, n, MinLog(start, states, actions, j), end.history[h..])
            && Replayable(states[j].history[..h], logs, n, end.nextFile, end.last)
  {
    var last := |actions|;
    RunKeepsRecoverable(states, actions, j);
    RunKeepsInv(states, actions, last);
    RunExtends(states, actions, j, last);
    LogsAreOk(logs, first, start, states, actions, last);
    n := PendingLogs(logs, first, start, states, actions, j, last);
    SplitHistory(states[j].history, states[last].history, FlushedAt(states[j]));
  }

  lemma SplitHistory(a: seq<Entry>, b: seq<Entry>, h: nat)
    requires a <= b && h <= |a|
    ensures a[..h] == b[..h] && b[..h] + b[h..] == b
  {
  }

  lemma MinFromStart(start: Start, states: seq<State>, actions: seq<Action>, k: nat)
    requires Run(states, actions) && Starts(start, states[0]) && k < |states|
    ensures MinLog(start, states, actions, k) >= start.log || (start.NewDb? && MinLog(start, states, actions, k) == 0)
  {
    MinUpTo(start, states, actions, k);
  }

  ghost predicate MinOk(start: Start, current: nat, min: nat, next: nat) {
    start.log <= current < next && (min >= start.log || (start.NewDb? && min == 0))
  }

  lemma {:induction false} MinUpTo(start: Start, states: seq<State>, actions: seq<Action>, k: nat)
    requires Run(states, actions) && k < |states|
    ensures start.log < states[0].nextFile ==>
              MinOk(start, CurrentLog(start, states, actions, k), MinLog(start, states, actions, k), states[k].nextFile)
  {
    if k > 0 {
      MinUpTo(start, states, actions, k - 1);
      var s, a, t := StepOf(states, actions, k - 1);
      NextFileGrows(s, a, t);
    }
  }

  lemma NextFileGrows(s: State, a: Action, t: State)
    requires Next(s, a, t)
    ensures s.nextFile <= t.nextFile && (a.SwitchMemtable? ==> s.nextFile < t.nextFile)
  {
    match a
    case Write(ops) => WriteKeepsLevels(s, ops);
    case _ =>
  }

  lemma OpenedStarts(r: Replay, es: seq<Entry>, s: State, t: State, end: State, log: Log)
    requires Replays(s, r, es, t) && NumbersOk(s) && SortedLevels(s.levels) && log.number < end.nextFile
    requires end == t.(nextFile := end.nextFile, last := end.last) && r.nextFile <= end.nextFile && r.maxSequence <= end.last
    requires BatchesBelow(log.batches, r.maxSequence) && |r.mem| <= |t.history|
    requires EntriesOf(AllAdds(log.batches)) == t.history[|t.history| - |r.mem|..]
    ensures Starts(Reopened(log.number, s.nextFile, s.levels, r.tables), end)
    ensures OpensWith(Reopened(log.number, s.nextFile, s.levels, r.tables), log, end)
  {
    TableNumbers(r.tables, s.nextFile, r.nextFile);
  }

  /** What is left after a crash: what was in the tables of moment `j`, and the kept entries of the logs
      needed since then, those from number `n` of the list on. */
  ghost predicate Survives(crc: Checksum, files: LogFiles, logs: seq<Log>, start: Start, states: seq<State>,
                           actions: seq<Action>, j: nat, n: nat, kept: Kept, history: seq<Entry>) {
    && j <= |actions| < |states| && Counts(states[j])
    && n < |logs| && MinIs(logs, n, MinLog(start, states, actions, j)) && KeptRecords(crc, files, logs, n, kept)
    && history == states[j].history[..FlushedAt(states[j])] + KeptEntries(logs, n, kept)
  }

  /** Replays the logs on top of the version of moment `j`, and opens. */
  method ReplayAndOpen(crc: Checksum, v: Levels, numbers: V.Numbers, files: LogFiles, paranoid: bool, full: seq<Add> -> bool,
                       sizeOf: seq<Entry> -> nat, reuse: bool, ghost logs: seq<Log>, ghost first: Log, ghost start: Start,
                       ghost states: seq<State>, ghost actions: seq<Action>, ghost j: nat)
    returns (db: DBImpl, ghost n: nat, ghost kept: Kept, ghost again: Start, ghost log: Log)
    requires Durable(states, actions) && Starts(start, states[0]) && OpensWith(start, first, states[0]) && j < |states|
    requires LogsHold(logs, first, states, actions, |actions|) && LogsLeft(crc, files, logs, start)
    requires HasNumbers(numbers) && v == states[j].levels
    requires numbers.logNumber.value == MinLog(start, states, actions, j) && numbers.lastSequence.value == states[j].last
    requires numbers.prevLogNumber.Some? ==> numbers.prevLogNumber.value == 0
    requires forall l, f | 0 <= l < NUM_LEVELS && f in v[l] :: f.number < numbers.nextFile.value
    ensures fresh(db) && db.Valid() && Survives(crc, files, logs, start, states, actions, j, n, kept, db.history)
    ensures Recoverable(db.Model()) && Starts(again, db.Model()) && OpensWith(again, log, db.Model())
    ensures states[j].last <= db.lastSequence
  {
    n := LogsForReplay(crc, files, logs, first, start, states, actions, j);
    MinFromStart(start, states, actions, j);
    ghost var s, end := BaseState(states[j], numbers.nextFile.value + 1), states[|actions|];
    BaseIsRecoverable(states[j], numbers.nextFile.value + 1);
    var prev := if numbers.prevLogNumber.Some? then numbers.prevLogNumber.value else 0;
    var selected := SelectLogs(files, numbers.logNumber.value, prev);
    SelectedAre(crc, files, logs, start, numbers.logNumber.value, n, selected);
    var r, ok, reused;
    ghost var t, es;
    r, ok, reused, kept, es, log, t := ReplayLogs(crc, files, selected, paranoid, full, sizeOf, reuse, numbers.nextFile.value + 1,
                                            logs, start, n, end.nextFile, end.last, s);
    db := new DBImpl.Recovered([], v, numbers.nextFile.value + 1, numbers.lastSequence.value, s.history, s.horizon);
    again, log := Open(db, r, reused, log, s, es, t);
  }

  /** The end of an opening: the counters, the tables, and a new log if none goes on being used. */
  method Open(db: DBImpl, r: Replay, reused: Option<nat>, ghost log: Log, ghost s: State, ghost es: seq<Entry>, ghost t: State)
    returns (ghost again: Start, ghost log1: Log)
    requires db.Valid() && db.Model() == s && s.mem == [] && s.imm == None && s.snapshots == []
    requires Replays(s, r, es, t) && GoesOn(log, reused, r, t.history) && r.maxSequence < MAX_SEQUENCE
    modifies db
    ensures db.Valid() && Recoverable(db.Model()) && db.history == s.history + es && s.last <= db.lastSequence
    ensures Starts(again, db.Model()) && OpensWith(again, log1, db.Model())
  {
    var last := if db.lastSequence < r.maxSequence then r.maxSequence else db.lastSequence;
    var nextFile := if reused.Some? then r.nextFile else r.nextFile + 1;
    log1 := if reused.Some? then log else Log(r.nextFile, []);
    InstallReplay(db, r, last, nextFile, s, es, t);
    OpenedStarts(r, es, s, t, db.Model(), log1);
    again := Reopened(log1.number, s.nextFile, s.levels, r.tables);
  }

  /** Opens a database after a crash at any point of a run: the MANIFEST and each log may be cut at any
      byte, and logs may be missing. It opens exactly if the records with which the MANIFEST began are
      there and no table of the version they and the later ones give is missing. Then it has the version
      of a moment `j`, and on top of it, of each log needed since then, the whole records. It is again a
      database from which a run may start. */
  method Reopen(crc: Checksum, manifest: Bytes, name: Bytes, dir: Directory, files: LogFiles, paranoid: bool,
                full: seq<Add> -> bool, sizeOf: seq<Entry> -> nat, reuse: bool,
                ghost rs: seq<V.LoggedEdit>, ghost logs: seq<Log>, ghost first: Log, ghost start: Start,
                ghost states: seq<State>, ghost actions: seq<Action>)
    returns (db: Option<DBImpl>, ghost k: nat, ghost j: nat, ghost n: nat, ghost kept: Kept, ghost again: Start, ghost log: Log)
    requires Crash(crc, manifest, name, dir, files, rs, logs, first, start, states, actions)
    ensures LogReader.WholeRecords(crc, V.Records(rs), |manifest|, k)
    ensures k < |FirstEdits(start)| ==> db.None?
    ensures k >= |FirstEdits(start)| ==>
              && j <= |actions| && LogsRun(rs[..k], start, states, actions, j) && JustLogged(states, actions, j)
              && (db.Some? <==> HasLevels(dir, states[j].levels))
    ensures manifest == LogBytes(crc, 0, V.Records(rs)) ==> k >= |FirstEdits(start)| && Quiet(states, actions, j, |actions|)
    ensures db.Some? ==>
              && fresh(db.value) && db.value.Valid() && states[j].last <= db.value.lastSequence
              && Survives(crc, files, logs, start, states, actions, j, n, kept, db.value.history)
              && Recoverable(db.value.Model()) && Starts(again, db.value.Model()) && OpensWith(again, log, db.value.Model())
  {
    db, n, kept, again, log := None, 0, map[], start, first;
    var v, numbers, ok;
    v, numbers, ok, k, j := RecoverManifest(crc, manifest, name, dir, rs, start, states, actions);
    if !ok {
      return;
    }
    PresentIsSame(dir, files, states, j);
    var present := AllPresent(dir, files, v);
    if present {
      var impl;
      impl, n, kept, again, log := ReplayAndOpen(crc, v, numbers, files, paranoid, full, sizeOf, reuse, logs, first, start,
                                               states, actions, j);
      db := Some(impl);
    }
  }

  // ------------------------------------------------------------------------- reads

  /** Every log that is needed is there, to the last byte. */
  ghost predicate LogsWhole(crc: Checksum, files: LogFiles, logs: seq<Log>, n: nat) {
    forall i | n <= i < |logs| ::
      logs[i].number in files && files[logs[i].number] == LogBytes(crc, 0, Records(logs[i].batches))
  }

  lemma WholeLog(crc: Checksum, files: LogFiles, log: Log, kept: Kept)
    requires log.number in kept && KeptOf(crc, files, log, kept[log.number])
    requires files[log.number] == LogBytes(crc, 0, Records(log.batches))
    ensures log.batches[..CountOf(kept, log)] == log.batches
  {
    if kept[log.number] < |log.batches| {
      LogReader.LongerLog(crc, Records(log.batches), kept[log.number] + 1);
    }
  }

  /** Nothing is flushed while nothing is logged. */
  lemma {:induction false} QuietKeepsFlushed(states: seq<State>, actions: seq<Action>, j: nat, k: nat)
    requires Durable(states, actions) && j <= k <= |actions| && Quiet(states, actions, j, k)
    ensures Recoverable(states[j]) && Recoverable(states[k])
    ensures FlushedAt(states[k]) == FlushedAt(states[j]) && states[k].levels == states[j].levels
  {
    RunKeepsRecoverable(states, actions, j);
    RunKeepsRecoverable(states, actions, k);
    if j < k {
      QuietKeepsFlushed(states, actions, j, k - 1);
      assert TakesStep(states, actions, k - 1);
      QuietStep(states[k - 1], actions[k - 1], states[k]);
    }
  }

  lemma QuietStep(s: State, a: Action, t: State)
    requires Next(s, a, t) && EditOf(s, a) == [] && Counts(s) && Counts(t)
    ensures FlushedAt(t) == FlushedAt(s) && t.levels == s.levels
  {
    match a
    case Write(ops) => WriteCounts(s, ops);
    case _ =>
  }

  /** The last entry for a user key decides. */
  function Latest(history: seq<Entry>, user: UserKey): Option<Bytes> {
    if history == [] then None
    else if history[|history| - 1].key.user == user then ValueOf(Some(history[|history| - 1]))
    else Latest(history[..|history| - 1], user)
  }

  lemma {:induction false} LookupIsLatest(history: seq<Entry>, user: UserKey, n: nat)
    requires forall e | e in history :: e.key.seqno <= n
    ensures HistoryLookup(history, user, n) == Latest(history, user)
  {
    if history != [] {
      LookupIsLatest(history[..|history| - 1], user, n);
    }
  }

  /** The same for operations on byte keys: the last operation on a key decides. */
  function OpsLookup(adds: seq<Add>, key: Bytes): Option<Bytes> {
    if adds == [] then None
    else
      var op := adds[|adds| - 1].op;
      if op.key == key then (if op.Put? then Some(op.value) else None) else OpsLookup(adds[..|adds| - 1], key)
  }

  lemma {:induction false} LookupIsOps(adds: seq<Add>, key: Bytes)
    ensures Latest(EntriesOf(adds), Comparators.ByteRank(key)) == OpsLookup(adds, key)
  {
    if adds != [] {
      var last := |adds| - 1;
      Comparators.BeforeIsRank(adds[last].op.key, key);
      LookupIsOps(adds[..last], key);
      assert EntriesOf(adds)[..last] == EntriesOf(adds[..last]);
    }
  }

  lemma SameSplit(logs: seq<Log>, m: nat, n: nat, min: nat)
    requires m < |logs| && n <= |logs| && MinIs(logs, m, min) && MinIs(logs, n, min)
    ensures m == n
  {
    assert logs[m].number >= min;
    assert n < |logs| ==> (logs[n].number >= min <==> n >= m);
  }

  /** What was in tables at moment `j` and what the logs needed since then hold is everything written. */
  lemma LoggedSince(logs: seq<Log>, first: Log, start: Start, states: seq<State>, actions: seq<Action>, j: nat, n: nat)
    requires Run(states, actions) && Starts(start, states[0]) && OpensWith(start, first, states[0]) && j < |states|
    requires LogsHold(logs, first, states, actions, |actions|)
    requires n <= |logs| && MinIs(logs, n, MinLog(start, states, actions, j))
    ensures Counts(states[j]) && n < |logs|
    ensures states[j].history[..FlushedAt(states[j])] + LogEntries(logs, n) == states[|actions|].history
  {
    var m := PendingLogs(logs, first, start, states, actions, j, |actions|);
    SameSplit(logs, m, n, MinLog(start, states, actions, j));
    RunExtends(states, actions, j, |actions|);
    SplitHistory(states[j].history, states[|actions|].history, FlushedAt(states[j]));
  }

  /** With the needed logs whole, nothing written is lost. */
  lemma NothingLost(crc: Checksum, files: LogFiles, logs: seq<Log>, first: Log, start: Start, states: seq<State>,
                    actions: seq<Action>, j: nat, n: nat, kept: Kept, left: seq<Entry>)
    requires Run(states, actions) && Starts(start, states[0]) && OpensWith(start, first, states[0])
    requires LogsHold(logs, first, states, actions, |actions|)
    requires Survives(crc, files, logs, start, states, actions, j, n, kept, left)
    requires LogsWhole(crc, files, logs, n)
    ensures left == states[|actions|].history
  {
    LoggedSince(logs, first, start, states, actions, j, n);
    WholeIsKept(crc, files, logs, n, kept);
  }

  lemma {:induction false} WholeIsKept(crc: Checksum, files: LogFiles, logs: seq<Log>, n: nat, kept: Kept)
    requires KeptRecords(crc, files, logs, n, kept) && LogsWhole(crc, files, logs, n)
    ensures KeptEntries(logs, n, kept) == LogEntries(logs, n)
  {
    if |logs| > n {
      WholeIsKept(crc, files, logs[..|logs| - 1], n, kept);
      WholeLog(crc, files, logs[|logs| - 1], kept);
    }
  }

  /** With all needed logs whole but for the end of the last one, what is left is a prefix of what was
      written. */
  lemma PrefixIsLeft(crc: Checksum, files: LogFiles, logs: seq<Log>, first: Log, start: Start, states: seq<State>,
                     actions: seq<Action>, j: nat, n: nat, kept: Kept, left: seq<Entry>)
    requires Run(states, actions) && Starts(start, states[0]) && OpensWith(start, first, states[0])
    requires LogsHold(logs, first, states, actions, |actions|)
    requires Survives(crc, files, logs, start, states, actions, j, n, kept, left)
    requires LogsWhole(crc, files, logs[..|logs| - 1], n)
    ensures left <= states[|actions|].history
  {
    LoggedSince(logs, first, start, states, actions, j, n);
    SurvivesPrefix(crc, files, logs, n, kept, states[j].history[..FlushedAt(states[j])], left);
  }

  lemma SurvivesPrefix(crc: Checksum, files: LogFiles, logs: seq<Log>, n: nat, kept: Kept, base: seq<Entry>, left: seq<Entry>)
    requires n < |logs| && KeptRecords(crc, files, logs, n, kept) && LogsWhole(crc, files, logs[..|logs| - 1], n)
    requires left == base + KeptEntries(logs, n, kept)
    ensures left <= base + LogEntries(logs, n)
  {
    KeptIsPrefix(crc, files, logs, n, kept);
    PrefixJoin(base, KeptEntries(logs, n, kept), LogEntries(logs, n));
  }

  lemma PrefixJoin(a: seq<Entry>, b: seq<Entry>, c: seq<Entry>)
    requires b <= c
    ensures a + b <= a + c
  {
  }

  lemma KeptIsPrefix(crc: Checksum, files: LogFiles, logs: seq<Log>, n: nat, kept: Kept)
    requires KeptRecords(crc, files, logs, n, kept) && n < |logs| && LogsWhole(crc, files, logs[..|logs| - 1], n)
    ensures KeptEntries(logs, n, kept) <= LogEntries(logs, n)
  {
    var rest, batches := logs[..|logs| - 1], logs[|logs| - 1].batches;
    var k := CountOf(kept, logs[|logs| - 1]);
    WholeIsKept(crc, files, rest, n, kept);
    EntriesPrefix(batches, k);
    PrefixJoin(LogEntries(rest, n), EntriesOf(AllAdds(batches[..k])), EntriesOf(AllAdds(batches)));
  }

  lemma EntriesPrefix(batches: seq<Batch>, k: nat)
    requires k <= |batches|
    ensures EntriesOf(AllAdds(batches[..k])) <= EntriesOf(AllAdds(batches))
  {
    AddsPrefix(batches, k);
    PrefixEntries(AllAdds(batches[..k]), AllAdds(batches));
  }

  /** After a crash, a reopened database answers every lookup as the writes that were in its tables, and
      those that wholly reached a log, do: the last of them on a key decides. If MANIFEST and logs are
      whole, it answers as before the crash. */
  method GetAfterCrash(crc: Checksum, manifest: Bytes, name: Bytes, dir: Directory, files: LogFiles, paranoid: bool,
                       full: seq<Add> -> bool, sizeOf: seq<Entry> -> nat, reuse: bool, key: Bytes,
                       ghost rs: seq<V.LoggedEdit>, ghost logs: seq<Log>, ghost first: Log, ghost start: Start,
                       ghost states: seq<State>, ghost actions: seq<Action>)
    returns (opens: bool, value: Option<Bytes>, ghost j: nat, ghost n: nat, ghost kept: Kept, ghost left: seq<Entry>)
    requires Crash(crc, manifest, name, dir, files, rs, logs, first, start, states, actions)
    ensures manifest == LogBytes(crc, 0, V.Records(rs)) && HasLevels(dir, states[|actions|].levels) ==> opens
    ensures opens ==> Survives(crc, files, logs, start, states, actions, j, n, kept, left)
    ensures opens ==> value == Latest(left, Comparators.ByteRank(key))
    ensures opens && LogsWhole(crc, files, logs, n) ==>
              value == HistoryLookup(states[|actions|].history, Comparators.ByteRank(key), states[|actions|].last)
  {
    var db;
    ghost var k, again, log;
    db, k, j, n, kept, again, log :=
      Reopen(crc, manifest, name, dir, files, paranoid, full, sizeOf, reuse, rs, logs, first, start, states, actions);
    opens, value, left := db.Some?, None, [];
    if manifest == LogBytes(crc, 0, V.Records(rs)) {
      QuietKeepsFlushed(states, actions, j, |actions|);
    }
    if db.Some? {
      left := db.value.history;
      value := db.value.Get(Comparators.ByteRank(key), None);
      LookupIsLatest(db.value.history, Comparators.ByteRank(key), db.value.lastSequence);
      if LogsWhole(crc, files, logs, n) {
        NothingLost(crc, files, logs, first, start, states, actions, j, n, kept, db.value.history);
        RunKeepsInv(states, actions, |actions|);
        LookupIsLatest(states[|actions|].history, Comparators.ByteRank(key), states[|actions|].last);
      }
    }
  }
}
