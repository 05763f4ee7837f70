/** The LSM tree as a state machine: memtable, immutable memtable and seven levels of files,
    and what every write, switch, flush, move and compaction keeps. */
module Lsm {
  import opened Keys
  import opened Files
  import opened Inputs
  import opened VersionBuilder
  import opened Compaction

  /** `last` is the last sequence number used. `history` lists everything ever written that no crash
      has lost, oldest first; `horizon` is the largest oldest snapshot any compaction has used. These
      two only serve the specification. */
  datatype State = State(mem: seq<Entry>, imm: Option<seq<Entry>>, levels: Levels, nextFile: nat, last: nat,
                         snapshots: seq<nat>, history: seq<Entry>, horizon: nat)

  function ImmEntries(s: State): seq<Entry> {
    if s.imm.Some? then s.imm.value else []
  }

  /** `e` is stored at depth `d`: 0 memtable, 1 immutable memtable, 2 + l level l. */
  ghost predicate At(s: State, e: Entry, d: nat) {
    || (d == 0 && e in s.mem)
    || (d == 1 && e in ImmEntries(s))
    || (2 <= d < 2 + NUM_LEVELS && InFiles(s.levels[d - 2], e))
  }

  ghost predicate In(s: State, e: Entry) {
    exists d :: At(s, e, d)
  }

  ghost predicate Newer(e: Entry, f: Entry) {
    e.key.user == f.key.user ==> e.key.seqno > f.key.seqno
  }

  // ----------------------------------------------------------------- invariant

  ghost predicate LevelsOk(s: State) {
    && SortedLevels(s.levels)
    && forall l | 0 <= l < NUM_LEVELS :: LevelOk(l, s.levels[l])
  }

  ghost predicate NumbersOk(s: State) {
    && (forall l, f | 0 <= l < NUM_LEVELS && f in s.levels[l] :: f.number < s.nextFile)
    && (forall l, m, f, g | SameNumber(f, g) && 0 <= l < NUM_LEVELS && 0 <= m < NUM_LEVELS ::
          f in s.levels[l] && g in s.levels[m] ==> l == m && f == g)
  }

  ghost predicate SameNumber(f: File, g: File) {
    f.number == g.number
  }

  lemma OneFile(s: State, l: nat, m: nat, f: File, g: File)
    requires NumbersOk(s) && l < NUM_LEVELS && m < NUM_LEVELS && f in s.levels[l] && g in s.levels[m]
    requires f.number == g.number
    ensures l == m && f == g
  {
    assert SameNumber(f, g);
  }

  /** For one user key, shallower places hold newer entries. */
  ghost predicate DepthOrder(s: State) {
    forall e, f, d1, d2 {:trigger Newer(e, f), At(s, e, d1), At(s, f, d2)} ::
      At(s, e, d1) && At(s, f, d2) && d1 < d2 ==> Newer(e, f)
  }

  /** At level 0, files with larger numbers hold newer entries. */
  ghost predicate Level0Order(files: seq<File>) {
    forall f, g, e, x | f in files && g in files && f.number > g.number && e in f.entries && x in g.entries ::
      Newer(e, x)
  }

  /** Sequence numbers rise; a crash may leave gaps. */
  ghost predicate Rising(history: seq<Entry>) {
    forall i, j | 0 <= i < j < |history| :: history[i].key.seqno < history[j].key.seqno
  }

  ghost predicate HistoryOk(s: State) {
    && s.last < MAX_SEQUENCE && Rising(s.history) && (forall e | e in s.history :: e.key.seqno <= s.last)
    && (forall e, d | At(s, e, d) :: e in s.history)
  }

  lemma OneSeqno(history: seq<Entry>, x: Entry, y: Entry)
    requires Rising(history) && x in history && y in history && x.key.seqno == y.key.seqno
    ensures x == y
  {
    var i :| 0 <= i < |history| && history[i] == x;
    var j :| 0 <= j < |history| && history[j] == y;
    assert i == j;
  }

  ghost predicate Shape(s: State) {
    && Sorted(s.mem) && Sorted(ImmEntries(s))
    && LevelsOk(s) && NumbersOk(s) && DepthOrder(s) && Level0Order(s.levels[0]) && HistoryOk(s)
  }

  /** Live snapshots, oldest first, are never below the horizon. */
  ghost predicate SnapshotsOk(s: State) {
    && s.horizon <= s.last && (forall n | n in s.snapshots :: s.horizon <= n <= s.last)
    && forall i, j | 0 <= i < j < |s.snapshots| :: s.snapshots[i] <= s.snapshots[j]
  }

  /** The oldest sequence number a reader may still ask for. */
  function OldestSnapshot(s: State): nat {
    if s.snapshots == [] then s.last else s.snapshots[0]
  }

  // --------------------------------------------------------------------- reads

  function ValueOf(r: Option<Entry>): Option<Bytes> {
    if r.Some? && r.value.key.kind == Value then Some(r.value.value) else None
  }

  ghost predicate Newest(s: State, user: UserKey, snapshot: nat, r: Option<Entry>) {
    match r
    case None => forall e, d | At(s, e, d) :: !Visible(e, user, snapshot)
    case Some(x) => In(s, x) && Visible(x, user, snapshot)
                    && forall e, d | At(s, e, d) && Visible(e, user, snapshot) :: e.key.seqno <= x.key.seqno
  }

  /** The specification of a read: scan everything ever written, newest first. */
  function HistoryLookup(history: seq<Entry>, user: UserKey, snapshot: nat): Option<Bytes> {
    if history == [] then None
    else
      var e := history[|history| - 1];
      if e.key.user == user && e.key.seqno <= snapshot then ValueOf(Some(e))
      else HistoryLookup(history[..|history| - 1], user, snapshot)
  }

  /** Whatever entry is newest in the tree gives the value of the history. */
  ghost predicate ReadsAgree(s: State) {
    forall user, snapshot, r | s.horizon <= snapshot && Newest(s, user, snapshot, r) ::
      ValueOf(r) == HistoryLookup(s.history, user, snapshot)
  }

  ghost predicate Inv(s: State) {
    Shape(s) && SnapshotsOk(s) && ReadsAgree(s)
  }

  /** A new database: its MANIFEST and its first log took the numbers before 4. */
  function Init(): State {
    State([], None, [[], [], [], [], [], [], []], 4, 0, [], [], 0)
  }

  lemma InitInv()
    ensures Inv(Init())
  {
    var s := Init();
    assert forall l | 0 <= l < NUM_LEVELS :: s.levels[l] == [];
    assert forall e, d :: !At(s, e, d);
    assert LevelsOk(s) && NumbersOk(s) && DepthOrder(s) && HistoryOk(s);
    assert forall r, u, n | Newest(s, u, n, r) :: r == None;
  }

  /** Steps that only move entries keep every read. */
  lemma SameContents(s: State, t: State)
    requires ReadsAgree(s) && t.history == s.history && t.horizon >= s.horizon
    requires forall e :: In(t, e) <==> In(s, e)
    ensures ReadsAgree(t)
  {
    forall user, snapshot, r | t.horizon <= snapshot && Newest(t, user, snapshot, r)
      ensures ValueOf(r) == HistoryLookup(t.history, user, snapshot)
    {
      forall e, d | At(s, e, d)
        ensures In(t, e)
      {
        assert In(s, e);
      }
      assert Newest(s, user, snapshot, r);
    }
  }

  // --------------------------------------------------------------------- write

  function WriteEntry(s: State, kind: Kind, user: UserKey, value: Bytes): State {
    Appended(s, NewEntry(s, kind, user, value))
  }

  function NewEntry(s: State, kind: Kind, user: UserKey, value: Bytes): Entry {
    Entry(InternalKey(user, s.last + 1, kind), value)
  }

  /** One more entry in the memtable; the last sequence number never falls. */
  function Appended(s: State, e: Entry): State {
    s.(mem := Insert(s.mem, e), history := s.history + [e], last := if e.key.seqno > s.last then e.key.seqno else s.last)
  }

  /** `e` is newer than everything written before. */
  ghost predicate ComesNext(s: State, e: Entry) {
    e.key.seqno < MAX_SEQUENCE && forall x | x in s.history :: x.key.seqno < e.key.seqno
  }

  lemma WriteContents(s: State, e: Entry)
    requires Sorted(s.mem) && HistoryOk(s) && ComesNext(s, e)
    ensures Sorted(Insert(s.mem, e))
    ensures forall x :: x in Insert(s.mem, e) <==> x in s.mem || x == e
    ensures forall x, d | At(s, x, d) :: x.key.seqno < e.key.seqno
  {
    forall x | x in s.mem
      ensures x.key != e.key
    {
      assert At(s, x, 0);
    }
    InsertSorted(s.mem, e);
  }

  lemma WriteKeepsShape(s: State, t: State, e: Entry)
    requires Shape(s) && ComesNext(s, e) && t == Appended(s, e)
    ensures Shape(t)
    ensures forall x, d :: At(t, x, d) <==> At(s, x, d) || (x == e && d == 0)
  {
    WriteContents(s, e);
    assert forall x, d :: At(t, x, d) <==> At(s, x, d) || (x == e && d == 0);
    RisingMore(s, t, e);
  }

  lemma RisingMore(s: State, t: State, e: Entry)
    requires HistoryOk(s) && ComesNext(s, e) && t == Appended(s, e)
    requires forall x, d :: At(t, x, d) <==> At(s, x, d) || (x == e && d == 0)
    ensures HistoryOk(t)
  {
    assert e in t.history;
    forall i, j | 0 <= i < j < |t.history|
      ensures t.history[i].key.seqno < t.history[j].key.seqno
    {
      assert s.history[i] in s.history;
    }
  }

  lemma WriteKeepsReads(s: State, t: State, e: Entry, user: UserKey, snapshot: nat, r: Option<Entry>)
    requires HistoryOk(s) && ReadsAgree(s) && s.horizon <= snapshot && ComesNext(s, e)
    requires t.history == s.history + [e] && Newest(t, user, snapshot, r)
    requires forall x, d :: At(t, x, d) <==> At(s, x, d) || (x == e && d == 0)
    ensures ValueOf(r) == HistoryLookup(t.history, user, snapshot)
  {
    assert t.history[..|t.history| - 1] == s.history;
    assert At(t, e, 0);
    if Visible(e, user, snapshot) {
      assert r.Some? && In(t, r.value) && r.value.key.seqno >= e.key.seqno;
    } else {
      assert r.Some? ==> In(s, r.value);
      assert Newest(s, user, snapshot, r);
    }
  }

  lemma AppendedKeepsInv(s: State, e: Entry)
    requires Inv(s) && ComesNext(s, e)
    ensures Inv(Appended(s, e))
  {
    var t := Appended(s, e);
    WriteKeepsShape(s, t, e);
    forall u, snapshot, r | t.horizon <= snapshot && Newest(t, u, snapshot, r)
      ensures ValueOf(r) == HistoryLookup(t.history, u, snapshot)
    {
      WriteKeepsReads(s, t, e, u, snapshot, r);
    }
  }

  lemma WriteEntryKeepsInv(s: State, kind: Kind, user: UserKey, value: Bytes)
    requires Inv(s) && s.last + 1 < MAX_SEQUENCE
    ensures Inv(WriteEntry(s, kind, user, value))
  {
    AppendedKeepsInv(s, NewEntry(s, kind, user, value));
  }

  /** A batch is applied operation by operation, with consecutive sequence numbers. */
  function WriteBatch(s: State, ops: seq<(Kind, UserKey, Bytes)>): State
    decreases ops
  {
    if ops == [] then s
    else WriteBatch(WriteEntry(s, ops[0].0, ops[0].1, ops[0].2), ops[1..])
  }

  lemma {:induction false} WriteBatchKeepsInv(s: State, ops: seq<(Kind, UserKey, Bytes)>)
    requires Inv(s) && s.last + |ops| < MAX_SEQUENCE
    ensures Inv(WriteBatch(s, ops)) && WriteBatch(s, ops).last == s.last + |ops|
    decreases ops
  {
    if ops != [] {
      WriteEntryKeepsInv(s, ops[0].0, ops[0].1, ops[0].2);
      WriteBatchKeepsInv(WriteEntry(s, ops[0].0, ops[0].1, ops[0].2), ops[1..]);
    }
  }

  // -------------------------------------------------------- switch and flush

  /** The memtable is frozen; its successor gets a new log, which takes a file number. */
  function Switch(s: State): State {
    s.(imm := Some(s.mem), mem := [], nextFile := s.nextFile + 1)
  }

  lemma SwitchKeepsInv(s: State)
    requires Inv(s) && s.imm == None
    ensures Inv(Switch(s))
  {
    var t := Switch(s);
    assert forall e, d :: At(t, e, d) <==> (if d == 1 then At(s, e, 0) else d != 0 && At(s, e, d));
    SameContents(s, t) by {
      assert forall e, d: nat | At(s, e, d) :: d != 1 && At(t, e, if d == 0 then 1 else d);
    }
  }

  /** The immutable memtable becomes table `f` of level `level`; an empty one leaves no table. */
  ghost predicate Flush(s: State, t: State, level: nat, f: File) {
    && s.imm.Some?
    && t == s.(imm := None, levels := t.levels, nextFile := s.nextFile + 1)
    && if s.imm.value == [] then t.levels == s.levels
       else
         && WfFile(f) && f.entries == s.imm.value && f.number == s.nextFile
         && level <= MAX_MEM_COMPACT_LEVEL
         && (level > 0 ==> forall l | 0 <= l <= level :: !SomeOverlap(s.levels[l], f.smallest.user, f.largest.user))
         && Installed(s.levels, Edit({}, [(level, f)]), t.levels)
  }

  lemma FlushMembers(s: State, t: State, level: nat, f: File)
    requires Flush(s, t, level, f) && s.imm.value != []
    ensures forall l, x | 0 <= l < NUM_LEVELS :: x in t.levels[l] <==> x in s.levels[l] || (l == level && x == f)
    ensures forall e, d: nat :: At(t, e, d) <==> d != 1 && (At(s, e, d) || (d == level + 2 && At(s, e, 1)))
  {
    var edit := Edit({}, [(level, f)]);
    forall l: nat, x | l < NUM_LEVELS
      ensures x in t.levels[l] <==> x in s.levels[l] || (l == level && x == f)
    {
      assert (l, x) in edit.added <==> l == level && x == f;
    }
    forall e, d: nat
      ensures At(t, e, d) <==> d != 1 && (At(s, e, d) || (d == level + 2 && At(s, e, 1)))
    {
      if 2 <= d < 2 + NUM_LEVELS {
        AddedFile(s.levels[d - 2], t.levels[d - 2], d - 2 == level, f, e);
      }
    }
  }

  lemma AddedFile(a: seq<File>, b: seq<File>, adds: bool, f: File, e: Entry)
    requires forall x :: x in b <==> x in a || (adds && x == f)
    ensures InFiles(b, e) <==> InFiles(a, e) || (adds && e in f.entries)
  {
    if InFiles(a, e) {
      var x :| x in a && e in x.entries;
      assert x in b;
    }
    if adds {
      assert f in b;
    }
  }

  /** A file sorted list of pairwise disjoint files is disjoint in list order. */
  lemma DisjointFromPairs(files: seq<File>)
    requires SortedFiles(files) && WfFiles(files)
    requires forall f, g | f in files && g in files && f != g :: Apart(f, g)
    ensures Disjoint(files) && Distinct(files)
  {
    forall i, j | 0 <= i < j < |files|
      ensures files[i] != files[j] && Less(files[i].largest, files[j].smallest)
    {
      assert Before(files[i], files[j]);
      RangeNotEmpty(files[i]);
      RangeNotEmpty(files[j]);
      assert Apart(files[i], files[j]);
    }
  }

  ghost predicate Apart(f: File, g: File) {
    Less(f.largest, g.smallest) || Less(g.largest, f.smallest)
  }

  lemma LevelApart(files: seq<File>, f: File, g: File)
    requires WfFiles(files) && Disjoint(files) && f in files && g in files && f != g
    ensures Apart(f, g)
  {
    DisjointOrder(files, f, g);
  }

  lemma FlushKeepsLevels(s: State, t: State, level: nat, f: File)
    requires Shape(s) && Flush(s, t, level, f) && s.imm.value != []
    ensures LevelsOk(t) && NumbersOk(t)
  {
    FlushMembers(s, t, level, f);
    forall l | 0 <= l < NUM_LEVELS
      ensures LevelOk(l, t.levels[l])
    {
      assert LevelOk(l, s.levels[l]);
      if l > 0 {
        forall x, y | x in t.levels[l] && y in t.levels[l] && x != y
          ensures Apart(x, y)
        {
          if x in s.levels[l] && y in s.levels[l] {
            LevelApart(s.levels[l], x, y);
          } else if x in s.levels[l] {
            NoOverlapApart(s.levels[l], x, f);
          } else if y in s.levels[l] {
            NoOverlapApart(s.levels[l], y, f);
          }
        }
        DisjointFromPairs(t.levels[l]);
      }
    }
  }

  lemma NoOverlapApart(files: seq<File>, g: File, f: File)
    requires g in files && !SomeOverlap(files, f.smallest.user, f.largest.user)
    ensures Apart(g, f) && (g.largest.user < f.smallest.user || f.largest.user < g.smallest.user)
  {
    assert !Overlaps(g, Some(f.smallest.user), Some(f.largest.user));
  }

  lemma FlushKeepsOrder(s: State, t: State, level: nat, f: File)
    requires Shape(s) && Flush(s, t, level, f) && s.imm.value != []
    ensures DepthOrder(t) && Level0Order(t.levels[0])
  {
    FlushMembers(s, t, level, f);
    forall e, x, d1: nat, d2: nat | At(t, e, d1) && At(t, x, d2) && d1 < d2
      ensures Newer(e, x)
    {
      if At(s, x, d2) {
        assert At(s, e, d1) || At(s, e, 1);
      } else if d1 == 0 {
        assert At(s, x, 1);
      } else {
        // x comes from the memtable and e is shallower on disk: their files do not overlap
        assert At(s, e, d1);
        var g :| g in s.levels[d1 - 2] && e in g.entries;
        NoOverlapApart(s.levels[d1 - 2], g, f);
        EntryInRange(g, e);
        EntryInRange(f, x);
      }
    }
    forall a, b, e, x | a in t.levels[0] && b in t.levels[0] && a.number > b.number && e in a.entries && x in b.entries
      ensures Newer(e, x)
    {
      assert b in s.levels[0];
      if a == f {
        assert At(s, e, 1) && At(s, x, 2);
      }
    }
  }

  lemma FlushKeepsInv(s: State, t: State, level: nat, f: File)
    requires Inv(s) && Flush(s, t, level, f)
    ensures Inv(t)
  {
    if s.imm.value == [] {
      assert forall e, d :: At(t, e, d) <==> At(s, e, d);
      SameContents(s, t);
    } else {
      FlushMembers(s, t, level, f);
      FlushKeepsLevels(s, t, level, f);
      FlushKeepsOrder(s, t, level, f);
      SameContents(s, t) by {
        assert forall e, d: nat | At(s, e, d) :: At(t, e, if d == 1 then level + 2 else d);
      }
    }
  }
}
