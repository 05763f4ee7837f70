/** Every run of the database: the invariant, reads at snapshots, and the MANIFEST. */
module Runs {
  import opened Keys
  import opened Files
  import opened Inputs
  import opened VersionBuilder
  import opened Compaction
  import opened Lsm
  import opened LsmCompaction
  import opened LsmReads
  import opened Durability

  datatype Action =
    | Write(ops: seq<(Kind, UserKey, Bytes)>)
    | SwitchMemtable
    | FlushMemtable(level: nat, file: File)
    | MoveFile(c: Rewrite)
    | Compact(c: Rewrite, input: seq<Entry>)
    | TakeSnapshot
    | ReleaseSnapshot(index: nat)

  /** One step. A compaction must not expose an older value. */
  ghost predicate Next(s: State, a: Action, t: State) {
    match a
    case Write(ops) => s.last + |ops| < MAX_SEQUENCE && t == WriteBatch(s, ops)
    case SwitchMemtable => s.imm == None && t == Switch(s)
    case FlushMemtable(level, file) => Flush(s, t, level, file)
    case MoveFile(c) => MovedAsIs(s, t, c)
    case Compact(c, input) =>
      Compacted(s, t, c, input, OldestSnapshot(s)) && !Resurrects(s, c, OldestSnapshot(s))
      && (forall o | o in c.outputs :: o.number >= s.nextFile)
    case TakeSnapshot => t == s.(snapshots := s.snapshots + [s.last])
    case ReleaseSnapshot(i) => i < |s.snapshots| && t == s.(snapshots := s.snapshots[..i] + s.snapshots[i + 1..])
  }

  /** The steps from an opening on: of a new database, or of one that was closed or crashed. */
  ghost predicate Run(states: seq<State>, actions: seq<Action>) {
    && |states| == |actions| + 1 && (forall s | StartsIn(states, s) :: Recoverable(s))
    && forall i | 0 <= i < |actions| :: TakesStep(states, actions, i)
  }

  ghost predicate StartsIn(states: seq<State>, s: State) {
    states != [] && s == states[0]
  }

  ghost predicate TakesStep(states: seq<State>, actions: seq<Action>, i: nat)
    requires |states| == |actions| + 1 && i < |actions|
  {
    Next(states[i], actions[i], states[i + 1])
  }

  /** The history of `t` goes on from that of `s`, with larger sequence numbers. */
  ghost predicate Extends(s: State, t: State) {
    && s.history <= t.history && s.last <= t.last
    && forall i | |s.history| <= i < |t.history| :: s.last < t.history[i].key.seqno
  }

  lemma NextKeepsInv(s: State, a: Action, t: State)
    requires Inv(s) && Next(s, a, t)
    ensures Inv(t) && Extends(s, t) && s.horizon <= t.horizon
  {
    match a
    case TakeSnapshot =>
      TakeKeepsOrder(s, t);
      SnapshotsKeepInv(s, t);
    case ReleaseSnapshot(i) =>
      ReleaseKeepsOrder(s, t, i);
      SnapshotsKeepInv(s, t);
    case _ =>
      RestKeepsInv(s, a, t);
  }

  lemma TakeKeepsOrder(s: State, t: State)
    requires SnapshotsOk(s) && t == s.(snapshots := s.snapshots + [s.last])
    ensures SnapshotsOk(t)
  {
    assert forall i | 0 <= i < |s.snapshots| :: s.snapshots[i] in s.snapshots && t.snapshots[i] == s.snapshots[i];
  }

  lemma ReleaseKeepsOrder(s: State, t: State, k: nat)
    requires SnapshotsOk(s) && k < |s.snapshots|
    requires t == s.(snapshots := s.snapshots[..k] + s.snapshots[k + 1..])
    ensures SnapshotsOk(t)
  {
    assert forall i | 0 <= i < |t.snapshots| :: t.snapshots[i] == s.snapshots[if i < k then i else i + 1];
    assert forall n | n in t.snapshots :: n in s.snapshots;
  }

  lemma RestKeepsInv(s: State, a: Action, t: State)
    requires Inv(s) && Next(s, a, t) && !a.TakeSnapshot? && !a.ReleaseSnapshot?
    ensures Inv(t) && Extends(s, t) && s.horizon <= t.horizon
  {
    match a
    case Write(ops) =>
      WriteBatchKeepsInv(s, ops);
      WriteExtends(s, ops);
    case SwitchMemtable => SwitchKeepsInv(s);
    case FlushMemtable(level, file) => FlushKeepsInv(s, t, level, file);
    case MoveFile(c) => MoveKeepsInv(s, t, c);
    case Compact(c, input) =>
      CompactionKeepsInv(s, t, c, input, OldestSnapshot(s));
  }

  lemma {:induction false} WriteExtends(s: State, ops: seq<(Kind, UserKey, Bytes)>)
    ensures Extends(s, WriteBatch(s, ops)) && WriteBatch(s, ops).horizon == s.horizon
    decreases ops
  {
    if ops != [] {
      var t := WriteEntry(s, ops[0].0, ops[0].1, ops[0].2);
      WriteExtends(t, ops[1..]);
      ExtendsOn(s, t, WriteBatch(s, ops));
    }
  }

  lemma ExtendsOn(a: State, b: State, c: State)
    requires Extends(a, b) && Extends(b, c)
    ensures Extends(a, c)
  {
    assert forall i | |a.history| <= i < |b.history| :: c.history[i] == b.history[i];
  }

  lemma {:induction false} RunKeepsInv(states: seq<State>, actions: seq<Action>, k: nat)
    requires Run(states, actions) && k < |states|
    ensures Inv(states[k])
  {
    if k == 0 {
      assert StartsIn(states, states[k]);
    } else {
      RunKeepsInv(states, actions, k - 1);
      assert TakesStep(states, actions, k - 1);
      NextKeepsInv(states[k - 1], actions[k - 1], states[k]);
    }
  }

  /** In every reachable state, the newest stored entry for a key at a live snapshot, or at
      the last sequence number, is what the history says. */
  lemma ReadsAreHistory(states: seq<State>, actions: seq<Action>, k: nat, user: UserKey, n: nat, r: Option<Entry>)
    requires Run(states, actions) && k < |states|
    requires n in states[k].snapshots || n == states[k].last
    requires Newest(states[k], user, n, r)
    ensures ValueOf(r) == HistoryLookup(states[k].history, user, n)
  {
    RunKeepsInv(states, actions, k);
  }

  lemma {:induction false} LookupIgnoresNewer(h: seq<Entry>, g: seq<Entry>, user: UserKey, n: nat)
    requires h <= g && forall i | |h| <= i < |g| :: n < g[i].key.seqno
    ensures HistoryLookup(g, user, n) == HistoryLookup(h, user, n)
  {
    if |h| < |g| {
      var rest := g[..|g| - 1];
      assert forall i | 0 <= i < |rest| :: rest[i] == g[i];
      LookupIgnoresNewer(h, rest, user, n);
    } else {
      assert h == g;
    }
  }

  lemma {:induction false} RunExtends(states: seq<State>, actions: seq<Action>, i: nat, j: nat)
    requires Run(states, actions) && i <= j < |states|
    ensures Extends(states[i], states[j])
  {
    if i < j {
      RunExtends(states, actions, i, j - 1);
      StepExtends(states, actions, j - 1);
      ExtendsOn(states[i], states[j - 1], states[j]);
    }
  }

  lemma StepExtends(states: seq<State>, actions: seq<Action>, k: nat)
    requires Run(states, actions) && k < |actions|
    ensures Extends(states[k], states[k + 1])
  {
    RunKeepsInv(states, actions, k);
    assert TakesStep(states, actions, k);
    NextKeepsInv(states[k], actions[k], states[k + 1]);
  }

  /** A snapshot taken in state `i` and still held in state `j` reads what it read when it was
      taken, whatever was written, flushed or compacted between. */
  lemma SnapshotIsStable(states: seq<State>, actions: seq<Action>, i: nat, j: nat, user: UserKey,
                         r: Option<Entry>, q: Option<Entry>)
    requires Run(states, actions) && i <= j < |states|
    requires states[i].last in states[j].snapshots
    requires Newest(states[i], user, states[i].last, r) && Newest(states[j], user, states[i].last, q)
    ensures ValueOf(r) == ValueOf(q)
  {
    ReadsAreHistory(states, actions, i, user, states[i].last, r);
    ReadsAreHistory(states, actions, j, user, states[i].last, q);
    RunExtends(states, actions, i, j);
    RunKeepsInv(states, actions, j);
    LookupIgnoresNewer(states[i].history, states[j].history, user, states[i].last);
  }

  // ---------------------------------------------------------------- durability

  /** Seen from the files alone, too, a compaction exposes no older value. */
  ghost predicate DurableStep(s: State, a: Action) {
    match a
    case Compact(c, input) => Counts(s) && c.level + 1 < NUM_LEVELS && !Resurrects(FilesOnly(s), c, OldestSnapshot(s))
    case _ => true
  }

  ghost predicate Durable(states: seq<State>, actions: seq<Action>) {
    Run(states, actions) && forall i | 0 <= i < |actions| :: DurableStep(states[i], actions[i])
  }

  /** After a step, memory may be lost without harm exactly if the step was durable. */
  lemma NextKeepsRecoverable(s: State, a: Action, t: State)
    requires Recoverable(s) && Next(s, a, t)
    ensures Recoverable(t) <==> DurableStep(s, a)
  {
    match a
    case Write(ops) => WriteKeepsRecoverable(s, ops);
    case SwitchMemtable => SwitchKeepsRecoverable(s);
    case FlushMemtable(level, file) => FlushKeepsRecoverable(s, t, level, file);
    case MoveFile(c) => MoveKeepsRecoverable(s, t, c);
    case Compact(c, input) =>
      OldestIsLeast(s);
      CompactionKeepsRecoverable(s, t, c, input, OldestSnapshot(s));
    case TakeSnapshot =>
      TakeKeepsOrder(s, t);
      SnapshotsKeepRecoverable(s, t);
    case ReleaseSnapshot(i) =>
      ReleaseKeepsOrder(s, t, i);
      SnapshotsKeepRecoverable(s, t);
  }

  lemma OldestIsLeast(s: State)
    requires SnapshotsOk(s)
    ensures forall n | n in s.snapshots :: OldestSnapshot(s) <= n
  {
  }

  /** Throughout a run of durable steps the files alone are a valid database, that of the flushed part of
      the history. */
  lemma {:induction false} RunKeepsRecoverable(states: seq<State>, actions: seq<Action>, k: nat)
    requires Durable(states, actions) && k < |states|
    ensures Recoverable(states[k])
  {
    if k == 0 {
      assert StartsIn(states, states[k]);
    } else {
      RunKeepsRecoverable(states, actions, k - 1);
      assert TakesStep(states, actions, k - 1) && DurableStep(states[k - 1], actions[k - 1]);
      NextKeepsRecoverable(states[k - 1], actions[k - 1], states[k]);
    }
  }

  /** The second input of a compaction ends between user keys. */
  ghost predicate ClosedStep(s: State, a: Action) {
    match a
    case Compact(c, input) => c.level + 1 < NUM_LEVELS && NoBoundaryLeft(s.levels[c.level + 1], c.inputs1)
    case _ => true
  }

  lemma ClosedIsDurable(s: State, a: Action, t: State)
    requires Recoverable(s) && Next(s, a, t) && ClosedStep(s, a)
    ensures DurableStep(s, a) && Recoverable(t)
  {
    ClosedExposesNothing(s, a, t);
    NextKeepsRecoverable(s, a, t);
  }

  lemma ClosedExposesNothing(s: State, a: Action, t: State)
    requires Recoverable(s) && Next(s, a, t) && ClosedStep(s, a)
    ensures DurableStep(s, a)
  {
    match a
    case Compact(c, input) =>
      CompactChooses(s, c, input, t);
      BoundaryClosedIsDurable(s, c, OldestSnapshot(s));
    case _ =>
  }

  lemma CompactChooses(s: State, c: Rewrite, input: seq<Entry>, t: State)
    requires Next(s, Compact(c, input), t)
    ensures ChosenInputs(s, c)
  {
  }

  lemma {:induction false} ClosedKeepsRecoverable(states: seq<State>, actions: seq<Action>, k: nat)
    requires Run(states, actions) && (forall i | 0 <= i < |actions| :: ClosedStep(states[i], actions[i])) && k < |states|
    ensures Recoverable(states[k])
  {
    if k == 0 {
      assert StartsIn(states, states[k]);
    } else {
      ClosedKeepsRecoverable(states, actions, k - 1);
      assert TakesStep(states, actions, k - 1);
      ClosedIsDurable(states[k - 1], actions[k - 1], states[k]);
    }
  }

  /** It is enough to check the chosen inputs of every compaction. */
  lemma ClosedRunIsDurable(states: seq<State>, actions: seq<Action>)
    requires Run(states, actions) && forall i | 0 <= i < |actions| :: ClosedStep(states[i], actions[i])
    ensures Durable(states, actions)
  {
    forall i | 0 <= i < |actions|
      ensures DurableStep(states[i], actions[i])
    {
      ClosedKeepsRecoverable(states, actions, i);
      assert TakesStep(states, actions, i);
      ClosedIsDurable(states[i], actions[i], states[i + 1]);
    }
  }

  // ------------------------------------------------------------------ MANIFEST

  /** The edit a step logs, if any. */
  function EditOf(s: State, a: Action): seq<Edit> {
    match a
    case FlushMemtable(level, file) => [Edit({}, if ImmEntries(s) == [] then [] else [(level, file)])]
    case MoveFile(c) => [RewriteEdit(c)]
    case Compact(c, input) => [RewriteEdit(c)]
    case _ => []
  }

  /** What a new database logs first: an edit without files. */
  const NEW_DB := Edit({}, [])

  /** What an opening finds and does. A new database has a log. Another has the version its MANIFEST
      gave, whose files have numbers below `next`, and the tables recovered from its logs. */
  datatype Start = NewDb(log: nat) | Reopened(log: nat, next: nat, before: Levels, tables: seq<File>)

  /** The edit of an opening: the recovered tables, at level 0. */
  function TablesEdit(tables: seq<File>): Edit {
    Edit({}, seq(|tables|, i requires 0 <= i < |tables| => (0, tables[i])))
  }

  ghost predicate Starts(start: Start, s: State) {
    && start.log < s.nextFile && s.imm == None
    && match start
       case NewDb(_) => s == Init()
       case Reopened(_, next, before, tables) =>
         && next <= s.nextFile && NumbersOk(StateFound(start, s))
         && Installed(before, TablesEdit(tables), s.levels) && SortedLevels(before)
         && (forall f | f in tables :: next <= f.number < s.nextFile)
         && forall i, j | 0 <= i < j < |tables| :: tables[i].number != tables[j].number
  }

  /** The state before the recovered tables were added. */
  ghost function StateFound(start: Start, s: State): State
    requires start.Reopened?
  {
    s.(levels := start.before, nextFile := start.next)
  }

  /** How the MANIFEST in use begins: as `NewDB` wrote it, or as the opening did, with every file of the
      version found and then the edit of the opening. */
  ghost function FirstEdits(start: Start): seq<Edit> {
    match start
    case NewDb(_) => [NEW_DB]
    case Reopened(_, _, before, tables) => [Snapshot(before), TablesEdit(tables)]
  }

  /** The edits logged by the opening and by the first `k` steps. */
  ghost function Manifest(start: Start, states: seq<State>, actions: seq<Action>, k: nat): (edits: seq<Edit>)
    requires k <= |actions| <= |states|
    ensures edits != []
  {
    if k == 0 then FirstEdits(start)
    else Manifest(start, states, actions, k - 1) + EditOf(states[k - 1], actions[k - 1])
  }

  /** A live file was never before at a deeper level, and all numbers used are below the next. */
  ghost predicate NumbersGoDown(s: State, used: set<(nat, nat)>) {
    && (forall p | p in used :: p.1 < s.nextFile)
    && forall p, l, f | p in used && 0 <= l < NUM_LEVELS && f in s.levels[l] && f.number == p.1 :: p.0 <= l
  }

  ghost predicate ManifestOk(s: State, edits: seq<Edit>) {
    && WfEdits(EMPTY, edits) && NumbersGoDown(s, Used(EMPTY, edits))
    && forall l, x | 0 <= l < NUM_LEVELS :: x in s.levels[l] <==> x in Live(EMPTY, edits, l)
  }

  lemma LogKeepsLive(s: State, t: State, edits: seq<Edit>, e: Edit, l: nat)
    requires l < NUM_LEVELS && forall x :: x in s.levels[l] <==> x in Live(EMPTY, edits, l)
    requires Installed(s.levels, e, t.levels)
    ensures forall x :: x in t.levels[l] <==> x in Live(EMPTY, edits + [e], l)
  {
    var all := edits + [e];
    assert all[..|all| - 1] == edits;
    assert forall x :: x in AddedAt(e, l) <==> (l, x) in e.added;
  }

  /** An added file is new, or comes from a shallower level it leaves. */
  ghost predicate AddsBelow(s: State, t: State, e: Edit) {
    && (forall p | p in e.added :: p.1.number < t.nextFile)
    && (forall i, j | 0 <= i < j < |e.added| :: e.added[i].1.number != e.added[j].1.number)
    && forall p | p in e.added ::
         || p.1.number >= s.nextFile
         || (exists l :: 0 <= l < NUM_LEVELS && l < p.0 && p.1 in s.levels[l] && (l, p.1.number) in e.deleted)
  }

  lemma LogEdit(s: State, t: State, edits: seq<Edit>, e: Edit)
    requires NumbersOk(s) && NumbersOk(t) && ManifestOk(s, edits) && WfEdit(e)
    requires Installed(s.levels, e, t.levels) && s.nextFile <= t.nextFile && AddsBelow(s, t, e)
    ensures ManifestOk(t, edits + [e])
  {
    var used := Used(EMPTY, edits);
    forall p | p in e.added
      ensures (p.0, p.1.number) !in used
    {
      if p.1.number < s.nextFile {
        var l :| 0 <= l < NUM_LEVELS && l < p.0 && p.1 in s.levels[l] && (l, p.1.number) in e.deleted;
      }
    }
    OneMoreEdit(EMPTY, edits, e);
    forall l | 0 <= l < NUM_LEVELS
      ensures forall x :: x in t.levels[l] <==> x in Live(EMPTY, edits + [e], l)
    {
      LogKeepsLive(s, t, edits, e, l);
    }
    LogKeepsNumbers(s, t, used, e);
  }

  lemma LogKeepsNumbers(s: State, t: State, used: set<(nat, nat)>, e: Edit)
    requires NumbersOk(t) && NumbersGoDown(s, used) && WfEdit(e)
    requires Installed(s.levels, e, t.levels) && s.nextFile <= t.nextFile && AddsBelow(s, t, e)
    ensures NumbersGoDown(t, used + set p | p in e.added :: (p.0, p.1.number))
  {
    var newPairs := set p | p in e.added :: (p.0, p.1.number);
    forall q, l, f | q in used + newPairs && 0 <= l < NUM_LEVELS && f in t.levels[l] && f.number == q.1
      ensures q.0 <= l
    {
      if q in newPairs {
        var p :| p in e.added && q == (p.0, p.1.number);
        assert p.1 in t.levels[p.0];
        OneFile(t, p.0, l, p.1, f);
      } else if (l, f) in e.added {
        var m :| 0 <= m < NUM_LEVELS && m < l && f in s.levels[m] && (m, f.number) in e.deleted;
      }
    }
  }

  lemma NextKeepsManifest(s: State, a: Action, t: State, edits: seq<Edit>)
    requires NumbersOk(s) && NumbersOk(t) && SortedLevels(t.levels) && Next(s, a, t) && ManifestOk(s, edits)
    ensures ManifestOk(t, edits + EditOf(s, a))
  {
    match a
    case FlushMemtable(level, file) =>
      LogFlush(s, t, edits, level, file);
    case MoveFile(c) => LogRewrite(s, t, edits, c);
    case Compact(c, input) => LogRewrite(s, t, edits, c);
    case Write(ops) =>
      WriteKeepsLevels(s, ops);
      SameLevelsManifest(s, t, edits);
      assert edits + EditOf(s, a) == edits;
    case _ =>
      SameLevelsManifest(s, t, edits);
      assert edits + EditOf(s, a) == edits;
  }

  lemma SameLevelsManifest(s: State, t: State, edits: seq<Edit>)
    requires ManifestOk(s, edits) && t.levels == s.levels && t.nextFile >= s.nextFile
    ensures ManifestOk(t, edits)
  {
  }

  lemma LogFlush(s: State, t: State, edits: seq<Edit>, level: nat, file: File)
    requires NumbersOk(s) && NumbersOk(t) && SortedLevels(t.levels) && ManifestOk(s, edits) && Flush(s, t, level, file)
    ensures ManifestOk(t, edits + EditOf(s, FlushMemtable(level, file)))
  {
    FlushAddsBelow(s, t, level, file);
    LogEdit(s, t, edits, FlushEdit(s, level, file));
  }

  function FlushEdit(s: State, level: nat, file: File): Edit {
    EditOf(s, FlushMemtable(level, file))[0]
  }

  lemma {:induction false} WriteKeepsLevels(s: State, ops: seq<(Kind, UserKey, Bytes)>)
    ensures WriteBatch(s, ops).levels == s.levels && WriteBatch(s, ops).nextFile == s.nextFile
    decreases ops
  {
    if ops != [] {
      WriteKeepsLevels(WriteEntry(s, ops[0].0, ops[0].1, ops[0].2), ops[1..]);
    }
  }

  lemma LogRewrite(s: State, t: State, edits: seq<Edit>, c: Rewrite)
    requires NumbersOk(s) && NumbersOk(t) && ManifestOk(s, edits) && Rewritten(s, t, c)
    ensures ManifestOk(t, edits + [RewriteEdit(c)])
  {
    RewriteAddsBelow(s, t, c);
    LogEdit(s, t, edits, RewriteEdit(c));
  }

  lemma DisjointDiffer(files: seq<File>, i: nat, j: nat)
    requires WfFiles(files) && Disjoint(files) && i < j < |files|
    requires forall o, p | o in files && p in files && o.number == p.number :: o == p
    ensures files[i].number != files[j].number
  {
    RangeNotEmpty(files[i]);
    assert Less(files[i].largest, files[j].smallest);
  }

  lemma RunNumbers(states: seq<State>, actions: seq<Action>, k: nat)
    requires Run(states, actions) && k < |states|
    ensures NumbersOk(states[k]) && SortedLevels(states[k].levels)
  {
    RunKeepsInv(states, actions, k);
  }

  /** All files of a version, each once. */
  lemma {:induction false} SnapshotFresh(s: State, v: Levels, n: nat)
    requires n <= NUM_LEVELS && v == s.levels && NumbersOk(s) && SortedLevels(v)
    ensures DistinctNumbers(SnapshotFiles(v, n))
  {
    if n > 0 {
      var before, files := SnapshotFiles(v, n - 1), v[n - 1];
      var last: seq<(nat, File)> := seq(|files|, i requires 0 <= i < |files| => (n - 1, files[i]));
      SnapshotFresh(s, v, n - 1);
      SnapshotHasAll(v, n - 1);
      assert SnapshotFiles(v, n) == before + last;
      LevelFresh(s, n - 1, before, last);
    }
  }

  ghost predicate DistinctNumbers(added: seq<(nat, File)>) {
    forall i, j | 0 <= i < j < |added| :: added[i].1.number != added[j].1.number
  }

  lemma LevelFresh(s: State, l: nat, before: seq<(nat, File)>, last: seq<(nat, File)>)
    requires l < NUM_LEVELS && NumbersOk(s) && SortedFiles(s.levels[l]) && DistinctNumbers(before)
    requires forall p | p in before :: p.0 < l && p.1 in s.levels[p.0]
    requires |last| == |s.levels[l]| && forall k | 0 <= k < |last| :: last[k] == (l, s.levels[l][k])
    ensures DistinctNumbers(before + last)
  {
    forall i, j | 0 <= i < |before| && 0 <= j < |last|
      ensures before[i].1.number != last[j].1.number
    {
      assert before[i] in before;
      if before[i].1.number == last[j].1.number {
        OneFile(s, before[i].0, l, before[i].1, last[j].1);
      }
    }
    forall i, j | 0 <= i < j < |last|
      ensures last[i].1.number != last[j].1.number
    {
      assert Before(last[i].1, last[j].1);
      if last[i].1.number == last[j].1.number {
        OneFile(s, l, l, last[i].1, last[j].1);
      }
    }
  }

  lemma EmptyManifest(l: nat)
    requires l < NUM_LEVELS
    ensures EMPTY[l] == [] && Live(EMPTY, [], l) == {} && Used(EMPTY, []) == {} && WfEdits(EMPTY, [])
  {
    assert forall m: nat | m < NUM_LEVELS :: EMPTY[m] == [];
  }

  /** A snapshot record alone gives the version. */
  lemma SnapshotManifest(s: State)
    requires NumbersOk(s) && SortedLevels(s.levels)
    ensures ManifestOk(s, [Snapshot(s.levels)])
  {
    var v := s.levels;
    var e := Snapshot(v);
    SnapshotHasAll(v, NUM_LEVELS);
    SnapshotFresh(s, v, NUM_LEVELS);
    FirstEdit(e);
    forall l: nat | l < NUM_LEVELS
      ensures forall x :: x in v[l] <==> x in Live(EMPTY, [e], l)
    {
      SnapshotIsBase(EMPTY, v, [e], l);
      assert [e][1..] == [];
    }
    SnapshotNumbers(s, e, Used(EMPTY, [e]));
  }

  lemma FirstEdit(e: Edit)
    requires WfEdit(e) && DistinctNumbers(e.added)
    ensures WfEdits(EMPTY, [e]) && Used(EMPTY, [e]) == set p | p in e.added :: (p.0, p.1.number)
  {
    EmptyManifest(0);
    assert AddsFresh({}, e);
    OneMoreEdit(EMPTY, [], e);
    assert [] + [e] == [e];
  }

  lemma SnapshotNumbers(s: State, e: Edit, used: set<(nat, nat)>)
    requires NumbersOk(s) && used == set p | p in e.added :: (p.0, p.1.number)
    requires forall p | p in e.added :: p.0 < NUM_LEVELS && p.1 in s.levels[p.0]
    ensures NumbersGoDown(s, used)
  {
    forall q, l, f | q in used && 0 <= l < NUM_LEVELS && f in s.levels[l] && f.number == q.1
      ensures q.0 <= l
    {
      var p :| p in e.added && q == (p.0, p.1.number);
      OneFile(s, p.0, l, p.1, f);
    }
  }

  lemma FirstManifest(start: Start, s: State)
    requires Starts(start, s) && NumbersOk(s) && SortedLevels(s.levels)
    ensures ManifestOk(s, FirstEdits(start))
  {
    match start
    case NewDb(_) => InitManifest();
    case Reopened(_, next, before, tables) =>
      var s0, e := StateFound(start, s), TablesEdit(tables);
      SnapshotManifest(s0);
      TablesAddBelow(start, s);
      LogEdit(s0, s, [Snapshot(before)], e);
      assert FirstEdits(start) == [Snapshot(before)] + [e];
  }

  lemma TablesAddBelow(start: Start, s: State)
    requires start.Reopened? && Starts(start, s)
    ensures AddsBelow(StateFound(start, s), s, TablesEdit(start.tables)) && WfEdit(TablesEdit(start.tables))
  {
    var e := TablesEdit(start.tables);
    forall p | p in e.added
      ensures p.0 == 0 && p.1 in start.tables
    {
    }
  }

  lemma InitManifest()
    ensures ManifestOk(Init(), [NEW_DB])
  {
    var first := [NEW_DB];
    assert first[..0] == [];
    forall l: nat | l < NUM_LEVELS
      ensures EMPTY[l] == [] && Live(EMPTY, first, l) == {}
    {
      assert EMPTY[l] == [] && Live(EMPTY, first[..0], l) == {};
    }
    assert Used(EMPTY, first) == {};
  }

  lemma StepOf(states: seq<State>, actions: seq<Action>, k: nat) returns (s: State, a: Action, t: State)
    requires Run(states, actions) && k < |actions|
    ensures s == states[k] && a == actions[k] && t == states[k + 1]
    ensures NumbersOk(s) && NumbersOk(t) && SortedLevels(t.levels) && Next(s, a, t)
  {
    s, a, t := states[k], actions[k], states[k + 1];
    RunKeepsInv(states, actions, k);
    RunKeepsInv(states, actions, k + 1);
    assert TakesStep(states, actions, k);
  }

  /** In every run, the logged edits are ones the builder accepts, and replaying them gives
      the live file lists. */
  lemma ManifestIsLive(start: Start, states: seq<State>, actions: seq<Action>, k: nat)
    requires Run(states, actions) && Starts(start, states[0]) && k < |states|
    ensures ManifestOk(states[k], Manifest(start, states, actions, k))
  {
    RunNumbers(states, actions, 0);
    FirstManifest(start, states[0]);
    var edits := ManifestUpTo(FirstEdits(start), start, states, actions, k);
  }

  lemma {:induction false} ManifestUpTo(first: seq<Edit>, start: Start, states: seq<State>, actions: seq<Action>, k: nat)
    returns (edits: seq<Edit>)
    requires Run(states, actions) && first == FirstEdits(start) && k < |states|
    ensures edits == Manifest(start, states, actions, k)
    ensures ManifestOk(states[0], first) ==> ManifestOk(states[k], edits)
  {
    if k == 0 {
      edits := first;
    } else {
      var before := ManifestUpTo(first, start, states, actions, k - 1);
      edits := before + EditOf(states[k - 1], actions[k - 1]);
      ManifestStep(states, actions, k - 1, before, edits);
    }
  }

  lemma ManifestStep(states: seq<State>, actions: seq<Action>, k: nat, edits: seq<Edit>, longer: seq<Edit>)
    requires Run(states, actions) && k < |actions| && longer == edits + EditOf(states[k], actions[k])
    ensures ManifestOk(states[k], edits) ==> ManifestOk(states[k + 1], longer)
  {
    var s, a, t := StepOf(states, actions, k);
    if ManifestOk(s, edits) {
      NextKeepsManifest(s, a, t, edits);
    }
  }

  lemma ManifestGivesLevels(start: Start, states: seq<State>, actions: seq<Action>, k: nat, v: Levels)
    requires Run(states, actions) && Starts(start, states[0]) && k < |states| && SortedLevels(v)
    requires forall l, x | 0 <= l < NUM_LEVELS :: x in v[l] <==> x in Live(EMPTY, Manifest(start, states, actions, k), l)
    ensures v == states[k].levels
  {
    var s := states[k];
    ManifestIsLive(start, states, actions, k);
    RunNumbers(states, actions, k);
    forall l | 0 <= l < NUM_LEVELS
      ensures v[l] == s.levels[l]
    {
      SortedFilesEqual(v[l], s.levels[l]);
    }
  }

  /** Recovery from the edits logged by the opening and the first `k` steps of any run rebuilds the
      version that was live then. */
  method RecoverVersion(edits: seq<Edit>, ghost start: Start, ghost states: seq<State>, ghost actions: seq<Action>, ghost k: nat)
    returns (v: Levels)
    requires Run(states, actions) && Starts(start, states[0]) && k < |states|
    requires edits == Manifest(start, states, actions, k)
    ensures v == states[k].levels
  {
    assert WfEdits(EMPTY, edits) by {
      ManifestIsLive(start, states, actions, k);
    }
    v := Replay(edits);
    ManifestGivesLevels(start, states, actions, k, v);
  }

  // -------------------------------------------------------------- log numbers

  /** The log being written after `k` steps; a new one begins with each memtable. */
  function CurrentLog(start: Start, states: seq<State>, actions: seq<Action>, k: nat): nat
    requires k <= |actions| <= |states|
  {
    if k == 0 then start.log
    else if actions[k - 1].SwitchMemtable? then states[k - 1].nextFile
    else CurrentLog(start, states, actions, k - 1)
  }

  /** The number the MANIFEST gives after `k` steps: no log below it is needed. */
  function MinLog(start: Start, states: seq<State>, actions: seq<Action>, k: nat): nat
    requires k <= |actions| <= |states|
  {
    if k == 0 then (if start.NewDb? then 0 else start.log)
    else if actions[k - 1].FlushMemtable? then CurrentLog(start, states, actions, k - 1)
    else MinLog(start, states, actions, k - 1)
  }

  // ----------------------------------------------------------- file numbers

  /** A step adds new files, or files it takes from a shallower level. */
  lemma StepAddsBelow(s: State, a: Action, t: State)
    requires NumbersOk(s) && NumbersOk(t) && SortedLevels(t.levels) && Next(s, a, t)
    ensures s.nextFile <= t.nextFile
    ensures EditOf(s, a) == [] ==> t.levels == s.levels
    ensures forall e | e in EditOf(s, a) :: AddsBelow(s, t, e) && Installed(s.levels, e, t.levels)
    ensures |EditOf(s, a)| <= 1
  {
    match a
    case Write(ops) => WriteKeepsLevels(s, ops);
    case FlushMemtable(level, file) => FlushAddsBelow(s, t, level, file);
    case MoveFile(c) => RewriteAddsBelow(s, t, c);
    case Compact(c, input) => RewriteAddsBelow(s, t, c);
    case _ =>
  }

  lemma FlushAddsBelow(s: State, t: State, level: nat, file: File)
    requires Flush(s, t, level, file) && SortedLevels(t.levels)
    ensures s.nextFile <= t.nextFile && WfEdit(FlushEdit(s, level, file))
    ensures AddsBelow(s, t, FlushEdit(s, level, file)) && Installed(s.levels, FlushEdit(s, level, file), t.levels)
  {
  }

  lemma RewriteAddsBelow(s: State, t: State, c: Rewrite)
    requires NumbersOk(s) && Rewritten(s, t, c)
    ensures AddsBelow(s, t, RewriteEdit(c)) && WfEdit(RewriteEdit(c))
  {
    InputsAreFiles(s, c);
    AddedOnce(c);
  }

  /** A rewrite adds each of its outputs once, one level down. */
  lemma AddedOnce(c: Rewrite)
    requires WfFiles(c.outputs) && Disjoint(c.outputs)
    requires forall o, p | o in c.outputs && p in c.outputs && o.number == p.number :: o == p
    ensures forall p | p in RewriteEdit(c).added :: p.0 == c.level + 1 && p.1 in c.outputs
    ensures var added := RewriteEdit(c).added;
            forall i, j | 0 <= i < j < |added| :: added[i].1.number != added[j].1.number
  {
    forall i, j | 0 <= i < j < |c.outputs|
      ensures c.outputs[i].number != c.outputs[j].number
    {
      DisjointDiffer(c.outputs, i, j);
    }
  }
}
