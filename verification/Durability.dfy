/** What is left when memory is lost: the files alone are a valid database, the one of all writes that
    had been flushed. */
module Durability {
  import opened Keys
  import opened Files
  import opened Inputs
  import opened VersionBuilder
  import opened Compaction
  import opened Lsm
  import opened LsmCompaction
  import opened LsmReads

  /** Every entry in memory is one of the last of the history. */
  ghost predicate Counts(s: State) {
    |s.mem| + |ImmEntries(s)| <= |s.history|
  }

  /** How much of the history has left the memtable, and how much has been flushed. */
  function FrozenAt(s: State): nat
    requires Counts(s)
  {
    |s.history| - |s.mem|
  }

  function FlushedAt(s: State): nat
    requires Counts(s)
  {
    |s.history| - |s.mem| - |ImmEntries(s)|
  }

  function WithoutMem(s: State): State
    requires Counts(s)
  {
    s.(mem := [], history := s.history[..FrozenAt(s)])
  }

  function FilesOnly(s: State): State
    requires Counts(s)
  {
    s.(mem := [], imm := None, history := s.history[..FlushedAt(s)])
  }

  /** The invariant holds now, and holds of what a crash leaves, with the immutable memtable or
      without it. */
  ghost predicate Recoverable(s: State) {
    Inv(s) && Counts(s) && Inv(WithoutMem(s)) && Inv(FilesOnly(s))
  }

  lemma InitIsRecoverable()
    ensures Recoverable(Init())
  {
    InitInv();
    assert WithoutMem(Init()) == Init() && FilesOnly(Init()) == Init();
  }

  // --------------------------------------------------------------------- steps

  /** Only the counters have gone up. */
  lemma CountersKeepInv(s: State, t: State)
    requires Inv(s) && t == s.(last := t.last, nextFile := t.nextFile)
    requires s.last <= t.last < MAX_SEQUENCE && s.nextFile <= t.nextFile
    ensures Inv(t)
  {
    assert forall e, d :: At(t, e, d) <==> At(s, e, d);
    SameContents(s, t);
  }

  lemma {:induction false} WriteCounts(s: State, ops: seq<(Kind, UserKey, Bytes)>)
    ensures var t := WriteBatch(s, ops);
            && t == s.(mem := t.mem, history := t.history, last := s.last + |ops|)
            && s.history <= t.history && |t.history| == |s.history| + |ops| && |t.mem| == |s.mem| + |ops|
    decreases ops
  {
    if ops != [] {
      WriteCounts(WriteEntry(s, ops[0].0, ops[0].1, ops[0].2), ops[1..]);
    }
  }

  lemma WriteKeepsRecoverable(s: State, ops: seq<(Kind, UserKey, Bytes)>)
    requires Recoverable(s) && s.last + |ops| < MAX_SEQUENCE
    ensures Recoverable(WriteBatch(s, ops)) && FlushedAt(WriteBatch(s, ops)) == FlushedAt(s)
  {
    var t := WriteBatch(s, ops);
    WriteCounts(s, ops);
    WriteBatchKeepsInv(s, ops);
    assert WithoutMem(t) == WithoutMem(s).(last := t.last);
    assert FilesOnly(t) == FilesOnly(s).(last := t.last);
    CountersKeepInv(WithoutMem(s), WithoutMem(t));
    CountersKeepInv(FilesOnly(s), FilesOnly(t));
  }

  lemma SwitchKeepsRecoverable(s: State)
    requires Recoverable(s) && s.imm == None
    ensures Recoverable(Switch(s))
  {
    var t := Switch(s);
    SwitchKeepsInv(s);
    assert WithoutMem(t) == t;
    assert FilesOnly(t) == FilesOnly(s).(nextFile := t.nextFile);
    CountersKeepInv(FilesOnly(s), FilesOnly(t));
  }

  lemma FlushKeepsRecoverable(s: State, t: State, level: nat, f: File)
    requires Recoverable(s) && Flush(s, t, level, f)
    ensures Recoverable(t)
  {
    FlushKeepsInv(s, t, level, f);
    assert FilesOnly(t) == WithoutMem(t);
    FlushKeepsInv(WithoutMem(s), WithoutMem(t), level, f);
  }

  lemma MoveKeepsRecoverable(s: State, t: State, c: Rewrite)
    requires Recoverable(s) && MovedAsIs(s, t, c)
    ensures Recoverable(t)
  {
    MoveKeepsInv(s, t, c);
    MoveKeepsInv(WithoutMem(s), WithoutMem(t), c);
    MoveKeepsInv(FilesOnly(s), FilesOnly(t), c);
  }

  lemma SnapshotsKeepRecoverable(s: State, t: State)
    requires Recoverable(s) && t == s.(snapshots := t.snapshots) && SnapshotsOk(t)
    ensures Recoverable(t)
  {
    SnapshotsKeepInv(s, t);
    SnapshotsKeepInv(WithoutMem(s), WithoutMem(t));
    SnapshotsKeepInv(FilesOnly(s), FilesOnly(t));
  }

  lemma SnapshotsKeepInv(s: State, t: State)
    requires Inv(s) && t == s.(snapshots := t.snapshots)
    requires SnapshotsOk(t)
    ensures Inv(t)
  {
    assert forall e, d :: At(t, e, d) <==> At(s, e, d);
    SameContents(s, t);
  }

  // --------------------------------------------------------------- compactions

  /** The less there is above, the more a compaction exposes. */
  lemma ExposedWithLess(s: State, less: State, c: Rewrite, snapshot: nat)
    requires c.level + 1 < NUM_LEVELS && less.levels == s.levels && Resurrects(s, c, snapshot)
    requires forall e, d | At(less, e, d) :: At(s, e, d)
    ensures Resurrects(less, c, snapshot)
  {
    var x, y :| Exposes(s, c, snapshot, x, y);
    assert Exposes(less, c, snapshot, x, y);
  }

  lemma LessIsStored(s: State, e: Entry, d: nat)
    requires Counts(s)
    ensures At(FilesOnly(s), e, d) ==> At(WithoutMem(s), e, d)
    ensures At(WithoutMem(s), e, d) ==> At(s, e, d)
  {
  }

  /** A compaction that exposes nothing when only the files count exposes nothing at all. */
  lemma FilesDecide(s: State, c: Rewrite, snapshot: nat)
    requires Counts(s) && c.level + 1 < NUM_LEVELS && !Resurrects(FilesOnly(s), c, snapshot)
    ensures !Resurrects(WithoutMem(s), c, snapshot) && !Resurrects(s, c, snapshot)
  {
    forall e, d: nat
      ensures At(FilesOnly(s), e, d) ==> At(WithoutMem(s), e, d)
      ensures At(WithoutMem(s), e, d) ==> At(s, e, d)
    {
      LessIsStored(s, e, d);
    }
    if Resurrects(s, c, snapshot) {
      ExposedWithLess(s, FilesOnly(s), c, snapshot);
    }
    if Resurrects(WithoutMem(s), c, snapshot) {
      ExposedWithLess(WithoutMem(s), FilesOnly(s), c, snapshot);
    }
  }

  /** The condition is again the second input's: it ends between user keys. */
  lemma BoundaryClosedIsDurable(s: State, c: Rewrite, snapshot: nat)
    requires Recoverable(s) && ChosenInputs(s, c) && NoBoundaryLeft(s.levels[c.level + 1], c.inputs1)
    ensures !Resurrects(FilesOnly(s), c, snapshot)
  {
    BoundaryClosedIsSafe(FilesOnly(s), c, snapshot);
  }

  /** `u` has the memory and the history of `less`, and the rest of `t`. */
  ghost predicate WithLess(t: State, less: State, u: State) {
    u == t.(mem := less.mem, imm := less.imm, history := less.history)
  }

  lemma LessAfter(s: State, t: State)
    requires Counts(s) && t == s.(levels := t.levels, nextFile := t.nextFile, horizon := t.horizon)
    ensures WithLess(t, s, t) && Counts(t)
    ensures WithLess(t, WithoutMem(s), WithoutMem(t)) && WithLess(t, FilesOnly(s), FilesOnly(t))
  {
  }

  /** The same compaction, when only some of the state is left. */
  lemma CompactedWithLess(s: State, t: State, less: State, u: State, c: Rewrite, input: seq<Entry>, snapshot: nat)
    requires Compacted(s, t, c, input, snapshot) && forall n | n in s.snapshots :: snapshot <= n
    requires WithLess(s, less, less) && WithLess(t, less, u) && Inv(less)
    ensures Inv(u) <==> !Resurrects(less, c, snapshot)
  {
    assert forall e :: IsKept(less, c, input, snapshot, e) <==> IsKept(s, c, input, snapshot, e);
    assert Compacted(less, u, c, input, snapshot);
    CompactionKeepsInv(less, u, c, input, snapshot);
  }

  /** A compaction keeps a database one that survives crashes exactly when, seen from the files alone, it
      exposes no older value. */
  lemma CompactionKeepsRecoverable(s: State, t: State, c: Rewrite, input: seq<Entry>, snapshot: nat)
    requires Recoverable(s) && Compacted(s, t, c, input, snapshot) && forall n | n in s.snapshots :: snapshot <= n
    ensures Recoverable(t) <==> !Resurrects(FilesOnly(s), c, snapshot)
  {
    LessAfter(s, t);
    LessAfter(s, s);
    CompactedWithLess(s, t, s, t, c, input, snapshot);
    CompactedWithLess(s, t, WithoutMem(s), WithoutMem(t), c, input, snapshot);
    CompactedWithLess(s, t, FilesOnly(s), FilesOnly(t), c, input, snapshot);
    Together(s, t, c, snapshot);
  }

  lemma Together(s: State, t: State, c: Rewrite, snapshot: nat)
    requires Counts(s) && Counts(t) && c.level + 1 < NUM_LEVELS
    requires Inv(t) <==> !Resurrects(s, c, snapshot)
    requires Inv(WithoutMem(t)) <==> !Resurrects(WithoutMem(s), c, snapshot)
    requires Inv(FilesOnly(t)) <==> !Resurrects(FilesOnly(s), c, snapshot)
    ensures Recoverable(t) <==> !Resurrects(FilesOnly(s), c, snapshot)
  {
    if !Resurrects(FilesOnly(s), c, snapshot) {
      FilesDecide(s, c, snapshot);
    }
  }
}
