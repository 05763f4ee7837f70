/** The database object (db/db_impl.cc, db/memtable.cc, Version::Get): every method is a step of
    the state machine, and reads return what the history says. */
module DbImpl {
  import opened Keys
  import opened Files
  import opened Inputs
  import opened VersionBuilder
  import opened Compaction
  import opened Lsm
  import opened LsmCompaction
  import opened LsmReads
  import opened Runs
  import Cursors
  import Merger

  // -------------------------------------------------------------------- lookup

  function InsertNewest(files: seq<File>, f: File): seq<File> {
    if files == [] || f.number > files[0].number then [f] + files
    else [files[0]] + InsertNewest(files[1..], f)
  }

  /** Newest file first. */
  function SortNewest(files: seq<File>): seq<File> {
    if files == [] then [] else InsertNewest(SortNewest(files[1..]), files[0])
  }

  ghost predicate NewestFirst(files: seq<File>) {
    forall i, j | 0 <= i < j < |files| :: files[i].number >= files[j].number
  }

  lemma {:induction false} InsertNewestIs(files: seq<File>, f: File)
    requires NewestFirst(files)
    ensures NewestFirst(InsertNewest(files, f))
    ensures forall g :: g in InsertNewest(files, f) <==> g in files || g == f
  {
    if files != [] && f.number <= files[0].number {
      InsertNewestIs(files[1..], f);
      var r := InsertNewest(files[1..], f);
      assert forall g | g in r :: files[0].number >= g.number;
    }
  }

  lemma {:induction false} SortNewestIs(files: seq<File>)
    ensures NewestFirst(SortNewest(files))
    ensures forall g :: g in SortNewest(files) <==> g in files
  {
    if files != [] {
      SortNewestIs(files[1..]);
      InsertNewestIs(SortNewest(files[1..]), files[0]);
    }
  }

  /** Level 0: every file whose range has the key, newest file first, stopping at a hit. */
  method GetFromLevel0(files: seq<File>, user: UserKey, snapshot: nat) returns (r: Option<Entry>)
    requires WfFiles(files) && Level0Order(files)
    requires forall f, g | f in files && g in files && f.number == g.number :: f == g
    ensures NewestIn(files, user, snapshot, r)
  {
    var tmp: seq<File> := [];
    for i := 0 to |files|
      invariant forall f :: f in tmp <==> f in files[..i] && Covers(f, user)
    {
      assert files[..i + 1] == files[..i] + [files[i]];
      if user >= files[i].smallest.user && user <= files[i].largest.user {
        tmp := tmp + [files[i]];
      }
    }
    assert files[..|files|] == files;
    SortNewestIs(tmp);
    tmp := SortNewest(tmp);
    for i := 0 to |tmp|
      invariant forall j, e | 0 <= j < i && e in tmp[j].entries :: !Visible(e, user, snapshot)
    {
      assert tmp[i] in tmp && WfFile(tmp[i]);
      var x := Find(tmp[i].entries, user, snapshot);
      FindIsNewest(tmp[i].entries, user, snapshot);
      if x.Some? {
        HitIsNewest(files, tmp, i, user, snapshot, x.value);
        return x;
      }
    }
    forall e | InFiles(files, e)
      ensures !Visible(e, user, snapshot)
    {
      var f :| f in files && e in f.entries;
      EntryInRange(f, e);
    }
    r := None;
  }

  lemma HitIsNewest(files: seq<File>, tmp: seq<File>, i: nat, user: UserKey, snapshot: nat, x: Entry)
    requires WfFiles(files) && Level0Order(files) && NewestFirst(tmp) && i < |tmp|
    requires forall f, g | f in files && g in files && f.number == g.number :: f == g
    requires forall f :: f in tmp <==> f in files && Covers(f, user)
    requires forall j, e | 0 <= j < i && e in tmp[j].entries :: !Visible(e, user, snapshot)
    requires IsNewest(tmp[i].entries, user, snapshot, Some(x))
    ensures NewestIn(files, user, snapshot, Some(x))
  {
    assert tmp[i] in tmp;
    forall e | InFiles(files, e) && Visible(e, user, snapshot)
      ensures e.key.seqno <= x.key.seqno
    {
      var f :| f in files && e in f.entries;
      EntryInRange(f, e);
      assert f in tmp;
      var j :| 0 <= j < |tmp| && tmp[j] == f;
      if i < j && tmp[j].number != tmp[i].number {
        assert Newer(x, e);
      }
    }
  }

  ghost predicate LevelsOrdered(levels: Levels) {
    forall l, m, e, f | 0 <= l < m < NUM_LEVELS && InFiles(levels[l], e) && InFiles(levels[m], f) :: Newer(e, f)
  }

  ghost predicate NewestInLevels(levels: Levels, user: UserKey, snapshot: nat, r: Option<Entry>) {
    match r
    case None => forall l, e | 0 <= l < NUM_LEVELS && InFiles(levels[l], e) :: !Visible(e, user, snapshot)
    case Some(x) =>
      && (exists l :: 0 <= l < NUM_LEVELS && InFiles(levels[l], x)) && Visible(x, user, snapshot)
      && forall l, e | 0 <= l < NUM_LEVELS && InFiles(levels[l], e) && Visible(e, user, snapshot) :: e.key.seqno <= x.key.seqno
  }

  /** Level by level, stopping at the first level with a hit. */
  method VersionGet(levels: Levels, user: UserKey, snapshot: nat) returns (r: Option<Entry>)
    requires forall l | 0 <= l < NUM_LEVELS :: LevelOk(l, levels[l])
    requires LevelsOrdered(levels) && Level0Order(levels[0])
    requires forall f, g | f in levels[0] && g in levels[0] && f.number == g.number :: f == g
    ensures NewestInLevels(levels, user, snapshot, r)
  {
    for level := 0 to NUM_LEVELS
      invariant forall l, e | 0 <= l < level && InFiles(levels[l], e) :: !Visible(e, user, snapshot)
    {
      assert LevelOk(level, levels[level]);
      if level == 0 {
        r := GetFromLevel0(levels[0], user, snapshot);
      } else {
        r := GetFromLevel(levels[level], user, snapshot);
      }
      if r.Some? {
        FirstLevelWins(levels, level, user, snapshot, r.value);
        return;
      }
    }
    r := None;
  }

  lemma FirstLevelWins(levels: Levels, level: nat, user: UserKey, snapshot: nat, x: Entry)
    requires level < NUM_LEVELS && LevelsOrdered(levels)
    requires forall l, e | 0 <= l < level && InFiles(levels[l], e) :: !Visible(e, user, snapshot)
    requires NewestIn(levels[level], user, snapshot, Some(x))
    ensures NewestInLevels(levels, user, snapshot, Some(x))
  {
    forall l, e | 0 <= l < NUM_LEVELS && InFiles(levels[l], e) && Visible(e, user, snapshot)
      ensures e.key.seqno <= x.key.seqno
    {
      if level < l {
        assert Newer(x, e);
      }
    }
  }

  lemma ShapeForGet(s: State)
    requires Shape(s)
    ensures forall l | 0 <= l < NUM_LEVELS :: LevelOk(l, s.levels[l])
    ensures LevelsOrdered(s.levels) && Level0Order(s.levels[0])
    ensures forall f, g | f in s.levels[0] && g in s.levels[0] && f.number == g.number :: f == g
  {
    forall f, g | f in s.levels[0] && g in s.levels[0] && f.number == g.number
      ensures f == g
    {
      OneFile(s, 0, 0, f, g);
    }
    forall l, m, e, f | 0 <= l < m < NUM_LEVELS && InFiles(s.levels[l], e) && InFiles(s.levels[m], f)
      ensures Newer(e, f)
    {
      assert At(s, e, l + 2) && At(s, f, m + 2);
    }
  }

  /** Memtable, then immutable memtable, then files: the first hit is the newest entry. */
  lemma MemHit(s: State, d: nat, run: seq<Entry>, user: UserKey, snapshot: nat, x: Entry)
    requires DepthOrder(s) && IsNewest(run, user, snapshot, Some(x))
    requires (d == 0 && run == s.mem) || (d == 1 && run == ImmEntries(s) && IsNewest(s.mem, user, snapshot, None))
    ensures Newest(s, user, snapshot, Some(x))
  {
    assert At(s, x, d);
    forall e, m | At(s, e, m) && Visible(e, user, snapshot)
      ensures e.key.seqno <= x.key.seqno
    {
      if d < m {
        assert Newer(x, e);
      }
    }
  }

  lemma FileHit(s: State, user: UserKey, snapshot: nat, r: Option<Entry>)
    requires NewestInLevels(s.levels, user, snapshot, r)
    requires IsNewest(s.mem, user, snapshot, None) && IsNewest(ImmEntries(s), user, snapshot, None)
    ensures Newest(s, user, snapshot, r)
  {
    if r.Some? {
      var l :| 0 <= l < NUM_LEVELS && InFiles(s.levels[l], r.value);
      assert At(s, r.value, l + 2);
    }
  }

  // -------------------------------------------------------------------- object

  /** The files two levels down that meet the range of a compaction. */
  function Grandparents(levels: Levels, level: nat, start: InternalKey, limit: InternalKey): seq<File> {
    if level + 2 < NUM_LEVELS then Select(levels[level + 2], Some(start.user), Some(limit.user)) else []
  }

  /** One input file can go down as it is: nothing to merge, and not too much below. */
  ghost predicate IsTrivial(levels: Levels, level: nat, inputs0: seq<File>, inputs1: seq<File>, maxGrandparent: nat) {
    && |inputs0| == 1 && inputs1 == []
    && TotalFileSize(Grandparents(levels, level, inputs0[0].smallest, inputs0[0].largest)) <= maxGrandparent
  }

  /** Sizes and cut points, which decide how much one compaction takes and where outputs end. */
  datatype Limits = Limits(expand: nat, grandparents: nat, outputFile: nat,
                           written: seq<Entry> -> nat, sizeOf: seq<Entry> -> nat)

  function CutsOf(input: seq<Entry>, grandparents: seq<File>, limits: Limits): Cuts {
    Cuts(input, grandparents, limits.grandparents, limits.written, limits.outputFile, limits.sizeOf)
  }

  /** The files two levels down that meet the range of both inputs. */
  ghost predicate AreGrandparents(levels: Levels, level: nat, inputs0: seq<File>, inputs1: seq<File>, files: seq<File>) {
    exists start, limit :: IsRange(inputs0 + inputs1, start, limit) && files == Grandparents(levels, level, start, limit)
  }

  ghost predicate InputsFollow(s: State, level: nat, seed: seq<File>, expandLimit: nat, c: Rewrite,
                               first: seq<File>, grown: seq<File>) {
    level + 1 < NUM_LEVELS
    && Follow(level, s.levels[level], s.levels[level + 1], seed, expandLimit, c.inputs0, c.inputs1, first, grown)
  }

  /** An automatic compaction of a trivial first input moves it; any other rewrites its inputs, and its
      outputs end where the limits say. */
  ghost predicate MovedOrCompacted(s: State, manual: bool, limits: Limits, c: Rewrite, t: State) {
    if !manual && IsTrivial(s.levels, c.level, c.inputs0, c.inputs1, limits.grandparents) then MovedAsIs(s, t, c)
    else exists input, grandparents :: RewrittenBy(s, limits, c, input, grandparents, t)
  }

  ghost predicate RewrittenBy(s: State, limits: Limits, c: Rewrite, input: seq<Entry>, grandparents: seq<File>, t: State) {
    && CompactStep(s, c, input, t) && AreGrandparents(s.levels, c.level, c.inputs0, c.inputs1, grandparents)
    && CutRightly(CutsOf(input, grandparents, limits), c.outputs)
  }

  /** A compaction with the inputs that follow from a seed. */
  ghost predicate CompactedFrom(s: State, level: nat, seed: seq<File>, manual: bool, limits: Limits, c: Rewrite, t: State) {
    && c.level == level && (exists first, grown :: InputsFollow(s, level, seed, limits.expand, c, first, grown))
    && MovedOrCompacted(s, manual, limits, c, t)
  }

  /** In the range of no output of a compaction do more bytes of the grandparents end than a trivial
      move may meet. */
  lemma OutputsOverlapFew(s: State, limits: Limits, c: Rewrite, input: seq<Entry>, grandparents: seq<File>, t: State, o: File)
    requires RewrittenBy(s, limits, c, input, grandparents, t) && o in c.outputs
    ensures o.entries != []
    ensures SizeBetween(grandparents, Passed(grandparents, o.entries[0].key),
                        Passed(grandparents, o.entries[|o.entries| - 1].key)) <= limits.grandparents
  {
    var p := CutsOf(input, grandparents, limits);
    var k :| 0 <= k < |c.outputs| && c.outputs[k] == o;
    assert CutInTime(p, c.outputs[k]);
    forall e | e in o.entries
      ensures e in input
    {
      assert InFiles(c.outputs, e) && IsKept(s, c, input, OldestSnapshot(s), e);
      KeptIs(s.levels, c.level, input, OldestSnapshot(s), |input|);
    }
    OverlapsFew(p, o);
  }

  lemma OneOperation(s: State, ops: seq<(Kind, UserKey, Bytes)>, i: nat)
    requires i < |ops|
    ensures WriteBatch(s, ops[i..]) == WriteBatch(WriteEntry(s, ops[i].0, ops[i].1, ops[i].2), ops[i + 1..])
  {
    assert ops[i..][1..] == ops[i + 1..];
  }

  class DBImpl {
    var mem: seq<Entry>
    var imm: Option<seq<Entry>>
    var levels: Levels
    var nextFile: nat
    var snapshots: seq<nat>
    var lastSequence: nat
    ghost var history: seq<Entry>
    ghost var horizon: nat

    ghost function Model(): State
      reads this
    {
      State(mem, imm, levels, nextFile, lastSequence, snapshots, history, horizon)
    }

    ghost predicate Valid()
      reads this
    {
      Inv(Model())
    }

    constructor ()
      ensures Valid() && Model() == Init()
    {
      mem, imm, levels, nextFile, snapshots, lastSequence := [], None, [[], [], [], [], [], [], []], 4, [], 0;
      history, horizon := [], 0;
      new;
      InitInv();
    }

    /** What an opening has recovered. */
    constructor Recovered(mem: seq<Entry>, levels: Levels, nextFile: nat, lastSequence: nat, ghost history: seq<Entry>,
                          ghost horizon: nat)
      requires Inv(State(mem, None, levels, nextFile, lastSequence, [], history, horizon))
      ensures Valid() && Model() == State(mem, None, levels, nextFile, lastSequence, [], history, horizon)
    {
      this.mem, this.imm, this.levels, this.nextFile, this.lastSequence := mem, None, levels, nextFile, lastSequence;
      this.snapshots, this.history, this.horizon := [], history, horizon;
    }

    /** A read at a live snapshot, or at the last sequence number. */
    method Get(user: UserKey, snapshot: Option<nat>) returns (r: Option<Bytes>)
      requires Valid() && (snapshot.Some? ==> snapshot.value in snapshots)
      ensures r == HistoryLookup(history, user, if snapshot.Some? then snapshot.value else lastSequence)
    {
      var n := if snapshot.Some? then snapshot.value else lastSequence;
      ghost var s := Model();
      var found := Find(mem, user, n);
      FindIsNewest(mem, user, n);
      if found.Some? {
        MemHit(s, 0, mem, user, n, found.value);
      } else {
        var frozen := if imm.Some? then imm.value else [];
        found := Find(frozen, user, n);
        FindIsNewest(frozen, user, n);
        if found.Some? {
          MemHit(s, 1, frozen, user, n, found.value);
        } else {
          ShapeForGet(s);
          found := VersionGet(levels, user, n);
          FileHit(s, user, n, found);
        }
      }
      r := ValueOf(found);
    }

    method Write(ops: seq<(Kind, UserKey, Bytes)>)
      requires Valid() && lastSequence + |ops| < MAX_SEQUENCE
      modifies this
      ensures Valid() && Model() == WriteBatch(old(Model()), ops)
      ensures Next(old(Model()), Action.Write(ops), Model())
    {
      WriteBatchKeepsInv(Model(), ops);
      InsertInto(ops);
    }

    /** Inserts the operations into the memtable, at consecutive sequence numbers. */
    method InsertInto(ops: seq<(Kind, UserKey, Bytes)>)
      modifies this`mem, this`history, this`lastSequence
      ensures Model() == WriteBatch(old(Model()), ops)
    {
      ghost var s, target := Model(), WriteBatch(Model(), ops);
      for i := 0 to |ops|
        invariant s == Model() && WriteBatch(s, ops[i..]) == target
      {
        var (kind, user, value) := ops[i];
        var e := Entry(InternalKey(user, lastSequence + 1, kind), value);
        OneOperation(s, ops, i);
        s := WriteEntry(s, kind, user, value);
        mem, history, lastSequence := Insert(mem, e), history + [e], lastSequence + 1;
      }
    }

    method SwitchMemtable()
      requires Valid() && imm == None
      modifies this
      ensures Valid() && Next(old(Model()), Action.SwitchMemtable, Model())
    {
      SwitchKeepsInv(Model());
      imm, mem, nextFile := Some(mem), [], nextFile + 1;
    }

    method GetSnapshot() returns (n: nat)
      requires Valid()
      modifies this
      ensures Valid() && Next(old(Model()), TakeSnapshot, Model()) && n == lastSequence
    {
      n := lastSequence;
      snapshots := snapshots + [n];
      NextKeepsInv(old(Model()), TakeSnapshot, Model());
    }

    method ReleaseSnapshot(i: nat)
      requires Valid() && i < |snapshots|
      modifies this
      ensures Valid() && Next(old(Model()), Action.ReleaseSnapshot(i), Model())
    {
      snapshots := snapshots[..i] + snapshots[i + 1..];
      NextKeepsInv(old(Model()), Action.ReleaseSnapshot(i), Model());
    }

    method LogAndApply(edit: Edit)
      requires SortedLevels(levels) && WfEdit(edit) && AddsFresh(Used(levels, []), edit)
      modifies this`levels
      ensures Installed(old(levels), edit, levels)
    {
      var builder := new Builder(levels);
      builder.Apply(edit);
      levels := builder.SaveTo();
      assert builder.applied == [edit] && [edit][..0] == [];
      forall l, x | 0 <= l < NUM_LEVELS
        ensures x in levels[l] <==> (x in old(levels)[l] && (l, x.number) !in edit.deleted) || (l, x) in edit.added
      {
        assert Live(old(levels), [], l) == set y | y in old(levels)[l];
        assert x in AddedAt(edit, l) <==> (l, x) in edit.added;
      }
    }

    /** The immutable memtable becomes a table. */
    method CompactMemTable(size: nat, maxGrandparent: nat) returns (ghost level: nat, ghost file: File)
      requires Valid() && imm.Some?
      modifies this
      ensures Valid() && Next(old(Model()), FlushMemtable(level, file), Model())
      ensures old(imm).value != [] ==>
                && file.size == size
                && IsPickedLevel(old(levels), file.smallest.user, file.largest.user, maxGrandparent, level)
    {
      level, file := WriteLevel0Table(size, Some(maxGrandparent));
    }

    /** Writes the immutable memtable out as a table: at the level it is picked, or, when there is
        no version to pick from, at level 0. */
    method WriteLevel0Table(size: nat, maxGrandparent: Option<nat>) returns (ghost level: nat, ghost file: File)
      requires Valid() && imm.Some?
      modifies this`imm, this`levels, this`nextFile
      ensures Valid() && Next(old(Model()), FlushMemtable(level, file), Model())
      ensures maxGrandparent.None? ==> level == 0
      ensures old(imm).value != [] ==> file.size == size
      ensures old(imm).value != [] && maxGrandparent.Some? ==>
                IsPickedLevel(old(levels), file.smallest.user, file.largest.user, maxGrandparent.value, level)
    {
      ghost var s := Model();
      var run := imm.value;
      level, file := 0, File(0, 0, InternalKey(0.0, 0, Value), InternalKey(0.0, 0, Value), []);
      if run != [] {
        var f := File(nextFile, size, run[0].key, run[|run| - 1].key, run);
        MemtableFile(s, f);
        var l := 0;
        if maxGrandparent.Some? {
          l := PickLevelForMemTableOutput(levels, f.smallest.user, f.largest.user, maxGrandparent.value);
        }
        FreshFlush(s, l, f);
        LogAndApply(Edit({}, [(l, f)]));
        level, file := l, f;
      }
      imm, nextFile := None, nextFile + 1;
      FlushKeepsInv(s, Model(), level, file);
    }

    /** An automatic compaction of a non-empty level: of the first file after the pointer. */
    method BackgroundCompaction(level: nat, pointer: Option<InternalKey>, limits: Limits)
      returns (ghost c: Rewrite, ghost seed: seq<File>)
      requires Valid() && level + 1 < NUM_LEVELS && levels[level] != []
      modifies this
      ensures exists i :: 0 <= i < |old(levels)[level]| && IsPicked(old(levels)[level], pointer, i)
                          && SeedOf(level, old(levels)[level], old(levels)[level][i], seed)
      ensures CompactedFrom(old(Model()), level, seed, false, limits, c, Model())
      ensures CompactionStep(old(Model()), c, Model())
      ensures NoBoundaryLeft(old(levels)[level + 1], c.inputs1) ==> Valid()
    {
      LevelsAreOk(Model());
      var picked := PickCompaction(level, levels[level], pointer);
      seed := picked;
      c := RunCompaction(level, picked, false, limits);
    }

    /** A manual compaction of a user-key range; none when no file meets it. */
    method CompactRangeAt(level: nat, begin: Option<UserKey>, end: Option<UserKey>, maxFileSize: nat, limits: Limits)
      returns (done: bool, ghost c: Rewrite, ghost seed: seq<File>)
      requires Valid() && level + 1 < NUM_LEVELS
      modifies this
      ensures done <==> forall f | f in old(levels)[level] :: !Overlaps(f, begin, end)
      ensures done ==> Model() == old(Model()) && Valid()
      ensures !done ==> RangeSeed(level, old(levels)[level], begin, end, maxFileSize, seed)
      ensures !done ==> CompactedFrom(old(Model()), level, seed, true, limits, c, Model())
      ensures !done ==> CompactionStep(old(Model()), c, Model())
      ensures !done && NoBoundaryLeft(old(levels)[level + 1], c.inputs1) ==> Valid()
    {
      LevelsAreOk(Model());
      c, seed := Rewrite(level, [], [], []), [];
      var chosen := CompactRange(level, levels[level], begin, end, maxFileSize);
      done := chosen.None?;
      if chosen.Some? {
        seed := chosen.value;
        c := RunCompaction(level, chosen.value, true, limits);
      }
    }

    method RunCompaction(level: nat, seed: seq<File>, manual: bool, limits: Limits) returns (ghost c: Rewrite)
      requires Valid() && level + 1 < NUM_LEVELS && Seed(level, levels[level], seed)
      modifies this
      ensures CompactedFrom(old(Model()), level, seed, manual, limits, c, Model())
      ensures CompactionStep(old(Model()), c, Model())
      ensures NoBoundaryLeft(old(levels)[level + 1], c.inputs1) ==> Valid()
    {
      ghost var s, t := Model(), Model();
      LevelsAreOk(s);
      ghost var first, grown;
      var inputs0, inputs1, pointer;
      inputs0, inputs1, pointer, first, grown :=
        SetupOtherInputs(level, levels[level], levels[level + 1], seed, limits.expand);
      c, t := MoveOrCompact(s, inputs0, inputs1, level, manual, limits);
      assert InputsFollow(s, level, seed, limits.expand, c, first, grown);
      CompactionStepKeeps(s, c, t);
    }

    method MoveOrCompact(ghost s: State, inputs0: seq<File>, inputs1: seq<File>, level: nat, manual: bool, limits: Limits)
      returns (ghost c: Rewrite, ghost t: State)
      requires s == Model() && Inv(s) && level + 1 < NUM_LEVELS
      requires ValidInputs(level, levels[level], levels[level + 1], inputs0, inputs1)
      modifies this`levels, this`nextFile, this`horizon
      ensures t == Model() && c == Rewrite(level, inputs0, inputs1, c.outputs)
      ensures MovedOrCompacted(s, manual, limits, c, t) && CompactionStep(s, c, t)
    {
      var grandparents := FindGrandparents(level, inputs0, inputs1);
      var trivial := IsTrivialMove(level, inputs0, inputs1, grandparents, limits.grandparents);
      if !manual && trivial {
        c, t := MoveFile(s, inputs0, inputs1, level);
      } else {
        ghost var input;
        c, input, t := CompactFiles(s, inputs0, inputs1, grandparents, level, limits);
        assert RewrittenBy(s, limits, c, input, grandparents, t);
      }
    }

    method FindGrandparents(level: nat, inputs0: seq<File>, inputs1: seq<File>) returns (files: seq<File>)
      requires level + 1 < NUM_LEVELS && inputs0 != []
      ensures AreGrandparents(levels, level, inputs0, inputs1, files)
    {
      files := [];
      var start, limit := GetRange(inputs0 + inputs1);
      if level + 2 < NUM_LEVELS {
        ghost var lo, hi;
        files, lo, hi := GetOverlappingInputs(level + 2, levels[level + 2], Some(start.user), Some(limit.user));
      }
      assert files == Grandparents(levels, level, start, limit);
    }

    /** One first input, no second one, and not too much two levels down in its range. */
    method IsTrivialMove(level: nat, inputs0: seq<File>, inputs1: seq<File>, grandparents: seq<File>, maxGrandparent: nat)
      returns (r: bool)
      requires level + 1 < NUM_LEVELS && inputs0 != [] && AreGrandparents(levels, level, inputs0, inputs1, grandparents)
      ensures r <==> IsTrivial(levels, level, inputs0, inputs1, maxGrandparent)
      ensures r <==>
              && |inputs0| == 1 && inputs1 == []
              && (level + 2 < NUM_LEVELS ==>
                    var f := inputs0[0];
                    TotalFileSize(Select(levels[level + 2], Some(f.smallest.user), Some(f.largest.user))) <= maxGrandparent)
    {
      r := |inputs0| == 1 && |inputs1| == 0 && TotalFileSize(grandparents) <= maxGrandparent;
    }

    method MoveFile(ghost s: State, inputs0: seq<File>, inputs1: seq<File>, level: nat)
      returns (ghost c: Rewrite, ghost t: State)
      requires s == Model() && LevelsOk(s) && NumbersOk(s) && level + 1 < NUM_LEVELS && |inputs0| == 1 && inputs1 == []
      requires ValidInputs(level, levels[level], levels[level + 1], inputs0, inputs1)
      modifies this`levels
      ensures t == Model() && c == Rewrite(level, inputs0, inputs1, inputs0) && MovedAsIs(s, t, c)
    {
      var rewrite := Rewrite(level, inputs0, inputs1, inputs0);
      ReadyToMove(s, rewrite);
      t := MoveInputs(s, rewrite);
      c := rewrite;
    }

    method MoveInputs(ghost s: State, c: Rewrite) returns (ghost t: State)
      requires s == Model() && ReadyToApply(s, c) && MovesDown(s, c)
      modifies this`levels
      ensures t == Model() && MovedAsIs(s, t, c)
    {
      LogAndApply(RewriteEdit(c));
      t := Model();
    }

    method CompactFiles(ghost s: State, inputs0: seq<File>, inputs1: seq<File>, grandparents: seq<File>, level: nat,
                        limits: Limits)
      returns (ghost c: Rewrite, ghost input: seq<Entry>, ghost t: State)
      requires s == Model() && Shape(s) && SnapshotsOk(s) && level + 1 < NUM_LEVELS
      requires ValidInputs(level, levels[level], levels[level + 1], inputs0, inputs1)
      modifies this`levels, this`nextFile, this`horizon
      ensures t == Model() && c == Rewrite(level, inputs0, inputs1, c.outputs) && CompactStep(s, c, input, t)
      ensures CutRightly(CutsOf(input, grandparents, limits), c.outputs)
    {
      var oldest := if snapshots == [] then lastSequence else snapshots[0];
      var outputs;
      outputs, input := CompactionOutputs(s, level, inputs0, inputs1, grandparents, levels, oldest, nextFile, limits);
      var rewrite := Rewrite(level, inputs0, inputs1, outputs);
      t := InstallCompactionResults(s, rewrite, oldest, input);
      c := rewrite;
    }

    method InstallCompactionResults(ghost s: State, c: Rewrite, oldest: nat, ghost input: seq<Entry>)
      returns (ghost t: State)
      requires s == Model() && ReadyToInstall(s, c, input) && oldest == OldestSnapshot(s)
      modifies this`levels, this`nextFile, this`horizon
      ensures t == Model() && CompactStep(s, c, input, t)
    {
      LogAndApply(RewriteEdit(c));
      nextFile := nextFile + |c.outputs|;
      horizon := oldest;
      t := Model();
      InstallStep(s, c, input, t);
    }
  }

  /** The merged inputs, with dropped entries left out, as new files. */
  method CompactionOutputs(ghost s: State, level: nat, inputs0: seq<File>, inputs1: seq<File>, grandparents: seq<File>,
                           levels: Levels, oldest: nat, nextFile: nat, limits: Limits)
    returns (outputs: seq<File>, ghost input: seq<Entry>)
    requires Shape(s) && SnapshotsOk(s) && ChosenInputs(s, Rewrite(level, inputs0, inputs1, []))
    requires levels == s.levels && oldest == OldestSnapshot(s) && nextFile == s.nextFile
    ensures var c := Rewrite(level, inputs0, inputs1, outputs);
            ReadyToInstall(s, c, input)
    ensures CutRightly(CutsOf(input, grandparents, limits), outputs)
  {
    var run := MergeInputs(s, level, inputs0, inputs1);
    input := run;
    assert MergedInput(Rewrite(level, inputs0, inputs1, []), input);
    InputBounds(s, Rewrite(level, inputs0, inputs1, []), input);
    LevelsAreOk(s);
    OldestBounds(s);
    var cursor := new BaseLevelCursor(level, levels);
    var overlaps := new GrandparentCursor(grandparents, limits.grandparents);
    outputs := DoCompactionWork(cursor, overlaps, CutsOf(run, grandparents, limits), oldest, nextFile);
    OutputsAreReady(s, Rewrite(level, inputs0, inputs1, outputs), input);
  }

  lemma OutputsAreReady(s: State, c: Rewrite, input: seq<Entry>)
    requires Shape(s) && SnapshotsOk(s) && ChosenInputs(s, c) && MergedInput(c.(outputs := []), input)
    requires Outputs(c.outputs, s.nextFile, [], Kept(s.levels, c.level, input, OldestSnapshot(s), |input|))
    ensures ReadyToInstall(s, c, input)
  {
    OldestBounds(s);
    assert MergedInput(c, input) by {
      assert forall e :: FromInputs(c, e) <==> FromInputs(c.(outputs := []), e);
    }
    OutputsAreKept(s, c, input, OldestSnapshot(s));
    FreshRewrite(s, c);
  }

  ghost predicate Merged(s: State, c: Rewrite, input: seq<Entry>) {
    && NewNumbers(s, c) && (forall o | o in c.outputs :: s.nextFile <= o.number < s.nextFile + |c.outputs|)
    && (forall e :: InFiles(c.outputs, e) <==> IsKept(s, c, input, OldestSnapshot(s), e))
    && (forall e | InFiles(c.outputs, e) :: FromInputs(c, e))
  }

  lemma OldestBounds(s: State)
    requires SnapshotsOk(s) && HistoryOk(s)
    ensures s.horizon <= OldestSnapshot(s) <= s.last < MAX_SEQUENCE
    ensures forall n | n in s.snapshots :: OldestSnapshot(s) <= n
  {
    assert s.snapshots != [] ==> s.snapshots[0] in s.snapshots;
  }

  ghost predicate ReadyToInstall(s: State, c: Rewrite, input: seq<Entry>) {
    && s.horizon <= OldestSnapshot(s) <= s.last
    && ChosenInputs(s, c) && MergedInput(c, input) && Merged(s, c, input) && ReadyToApply(s, c)
  }

  /** The edit of a rewrite is one the version builder takes. */
  ghost predicate ReadyToApply(s: State, c: Rewrite) {
    SortedLevels(s.levels) && WfEdit(RewriteEdit(c)) && AddsFresh(Used(s.levels, []), RewriteEdit(c))
  }

  ghost predicate MovesDown(s: State, c: Rewrite) {
    && ChosenInputs(s, c) && NewNumbers(s, c) && c.outputs == c.inputs0 && |c.inputs0| == 1 && c.inputs1 == []
    && forall o | o in c.outputs :: o.number < s.nextFile
  }

  lemma ReadyToMove(s: State, c: Rewrite)
    requires LevelsOk(s) && NumbersOk(s) && ChosenInputs(s, c)
    requires c.outputs == c.inputs0 && |c.inputs0| == 1 && c.inputs1 == []
    ensures ReadyToApply(s, c) && MovesDown(s, c)
  {
    MoveOutputs(s, c);
    FreshRewrite(s, c);
  }

  lemma InstallStep(s: State, c: Rewrite, input: seq<Entry>, t: State)
    requires ReadyToInstall(s, c, input)
    requires Installed(s.levels, RewriteEdit(c), t.levels)
    requires t == s.(levels := t.levels, nextFile := s.nextFile + |c.outputs|, horizon := OldestSnapshot(s))
    ensures CompactStep(s, c, input, t)
  {
  }

  lemma MemtableFile(s: State, f: File)
    requires Shape(s) && s.imm.Some? && s.imm.value != [] && f.entries == s.imm.value
    requires f.smallest == f.entries[0].key && f.largest == f.entries[|f.entries| - 1].key
    ensures WfFile(f) && SortedLevels(s.levels) && forall l | 0 <= l < NUM_LEVELS :: LevelOk(l, s.levels[l])
  {
    forall e | e in f.entries
      ensures e.key.seqno <= MAX_SEQUENCE
    {
      assert At(s, e, 1);
    }
  }

  lemma FreshFlush(s: State, level: nat, f: File)
    requires NumbersOk(s) && level < NUM_LEVELS && f.number == s.nextFile
    ensures WfEdit(Edit({}, [(level, f)])) && AddsFresh(Used(s.levels, []), Edit({}, [(level, f)]))
  {
  }

  // --------------------------------------------------------------- compactions

  ghost predicate CompactStep(s: State, c: Rewrite, input: seq<Entry>, t: State) {
    Compacted(s, t, c, input, OldestSnapshot(s)) && forall o | o in c.outputs :: o.number >= s.nextFile
  }

  /** A compaction as the code does it, whether or not its second input ends between user keys. */
  ghost predicate CompactionStep(s: State, c: Rewrite, t: State) {
    c.level + 1 < NUM_LEVELS && (MovedAsIs(s, t, c) || exists input :: CompactStep(s, c, input, t))
  }

  lemma CompactionStepKeeps(s: State, c: Rewrite, t: State)
    requires Inv(s) && CompactionStep(s, c, t)
    ensures NoBoundaryLeft(s.levels[c.level + 1], c.inputs1) ==> Inv(t)
  {
    if MovedAsIs(s, t, c) {
      MoveKeepsInv(s, t, c);
    } else if NoBoundaryLeft(s.levels[c.level + 1], c.inputs1) {
      var input :| CompactStep(s, c, input, t);
      BoundaryClosedIsSafe(s, c, OldestSnapshot(s));
      NextKeepsInv(s, Compact(c, input), t);
    }
  }

  lemma LevelsAreOk(s: State)
    requires LevelsOk(s)
    ensures SortedLevels(s.levels) && forall l | 0 <= l < NUM_LEVELS :: LevelOk(l, s.levels[l])
    ensures forall l | 1 <= l < NUM_LEVELS :: WfFiles(s.levels[l]) && Disjoint(s.levels[l])
  {
    assert forall l | 1 <= l < NUM_LEVELS :: LevelOk(l, s.levels[l]);
  }

  ghost predicate NewNumbers(s: State, c: Rewrite) {
    && WfFiles(c.outputs) && Disjoint(c.outputs)
    && (forall o | o in c.outputs :: o.number >= s.nextFile || o in c.inputs0)
    && (forall o, p | o in c.outputs && p in c.outputs && o.number == p.number :: o == p)
  }

  lemma FreshRewrite(s: State, c: Rewrite)
    requires LevelsOk(s) && NumbersOk(s) && ChosenInputs(s, c) && NewNumbers(s, c)
    ensures SortedLevels(s.levels) && WfEdit(RewriteEdit(c)) && AddsFresh(Used(s.levels, []), RewriteEdit(c))
  {
    InputsAreFiles(s, c);
    AddedOnce(c);
    forall p | p in RewriteEdit(c).added
      ensures (p.0, p.1.number) !in Used(s.levels, [])
    {
      FreshAt(s, c, p.0, p.1);
    }
  }

  lemma FreshAt(s: State, c: Rewrite, l: nat, o: File)
    requires NumbersOk(s) && NewNumbers(s, c) && l == c.level + 1 < NUM_LEVELS && o in c.outputs
    requires forall f | f in c.inputs0 :: f in s.levels[c.level]
    ensures (l, o.number) !in Used(s.levels, [])
  {
    NotAtNextLevel(s, c, o);
    NotUsed(s.levels, l, o.number);
  }

  lemma NotUsed(levels: Levels, l: nat, number: nat)
    requires l < NUM_LEVELS && forall g | g in levels[l] :: g.number != number
    ensures (l, number) !in Used(levels, [])
  {
  }

  lemma NotAtNextLevel(s: State, c: Rewrite, o: File)
    requires NumbersOk(s) && NewNumbers(s, c) && c.level + 1 < NUM_LEVELS && o in c.outputs
    requires forall f | f in c.inputs0 :: f in s.levels[c.level]
    ensures forall g | g in s.levels[c.level + 1] :: g.number != o.number
  {
    forall g | g in s.levels[c.level + 1]
      ensures g.number != o.number
    {
      if g.number == o.number {
        OneFile(s, c.level, c.level + 1, o, g);
      }
    }
  }

  lemma MoveOutputs(s: State, c: Rewrite)
    requires LevelsOk(s) && NumbersOk(s) && ChosenInputs(s, c) && c.outputs == c.inputs0 && |c.inputs0| == 1
    ensures NewNumbers(s, c) && forall o | o in c.outputs :: o.number < s.nextFile
  {
    assert LevelOk(c.level, s.levels[c.level]);
    InputsAreFiles(s, c);
    assert forall o | o in c.inputs0 :: o == c.inputs0[0];
  }

  lemma OutputsAreKept(s: State, c: Rewrite, input: seq<Entry>, snapshot: nat)
    requires MergedInput(c, input) && snapshot == OldestSnapshot(s)
    requires Outputs(c.outputs, s.nextFile, [], Kept(s.levels, c.level, input, snapshot, |input|))
    ensures Merged(s, c, input)
  {
    InConcat(c.outputs);
    KeptIs(s.levels, c.level, input, snapshot, |input|);
  }

  lemma InputBounds(s: State, c: Rewrite, input: seq<Entry>)
    requires HistoryOk(s) && ChosenInputs(s, c) && MergedInput(c, input)
    ensures forall e | e in input :: e.key.seqno <= MAX_SEQUENCE
  {
    InputsAreFiles(s, c);
    forall e | e in input
      ensures e in s.history
    {
      InputsAreIn(s, c, e);
      assert At(s, e, c.level + 2) || At(s, e, c.level + 3);
    }
  }

  // ------------------------------------------------------------- merged inputs

  lemma {:induction false} ConcatSorted(files: seq<File>)
    requires WfFiles(files) && Disjoint(files)
    ensures Sorted(Concat(files))
  {
    if files != [] {
      var n := |files| - 1;
      ConcatSorted(files[..n]);
      InConcat(files[..n]);
      assert WfFile(files[n]);
      forall e, x | e in Concat(files[..n]) && x in files[n].entries
        ensures Less(e.key, x.key)
      {
        var f :| f in files[..n] && e in f.entries;
        var i :| 0 <= i < n && files[i] == f;
        EntryInRange(f, e);
        EntryInRange(files[n], x);
      }
      SortedAppend(Concat(files[..n]), files[n].entries);
    }
  }

  lemma SortedAppend(a: seq<Entry>, b: seq<Entry>)
    requires Sorted(a) && Sorted(b) && forall e, x | e in a && x in b :: Less(e.key, x.key)
    ensures Sorted(a + b)
  {
    forall i, j | 0 <= i < j < |a + b|
      ensures Less((a + b)[i].key, (a + b)[j].key)
    {
      if i < |a| <= j {
        assert a[i] in a && b[j - |a|] in b;
      }
    }
  }

  /** One run per level-0 file, one run for all files of a deeper level. */
  function InputRuns(level: nat, inputs: seq<File>): seq<seq<Entry>> {
    if inputs == [] then []
    else if level == 0 then seq(|inputs|, i requires 0 <= i < |inputs| => inputs[i].entries)
    else [Concat(inputs)]
  }

  lemma RunsOfLevel(level: nat, inputs: seq<File>)
    requires WfFiles(inputs) && (level > 0 ==> Disjoint(inputs))
    ensures forall i | 0 <= i < |InputRuns(level, inputs)| :: Sorted(InputRuns(level, inputs)[i])
    ensures forall e :: Merger.InSome(InputRuns(level, inputs), e) <==> InFiles(inputs, e)
  {
    var runs := InputRuns(level, inputs);
    if level == 0 {
      assert forall i | 0 <= i < |runs| :: inputs[i] in inputs && runs[i] == inputs[i].entries;
      forall e
        ensures Merger.InSome(runs, e) <==> InFiles(inputs, e)
      {
        FileRuns(inputs, runs, e);
      }
    } else {
      ConcatSorted(inputs);
      InConcat(inputs);
      assert inputs != [] ==> runs[0] == Concat(inputs);
    }
  }

  lemma FileRuns(inputs: seq<File>, runs: seq<seq<Entry>>, e: Entry)
    requires |runs| == |inputs| && forall i | 0 <= i < |runs| :: runs[i] == inputs[i].entries
    ensures Merger.InSome(runs, e) <==> InFiles(inputs, e)
  {
    if InFiles(inputs, e) {
      var f :| f in inputs && e in f.entries;
      var i :| 0 <= i < |inputs| && inputs[i] == f;
      assert e in runs[i];
    }
  }

  /** The run `i` of level-0 inputs is file `i`; deeper levels have a single run. */
  lemma RunsDiffer(s: State, level: nat, inputs: seq<File>, i: nat, j: nat, e: Entry, x: Entry)
    requires Shape(s) && level < NUM_LEVELS && (level == 0 ==> Distinct(inputs)) && forall f | f in inputs :: f in s.levels[level]
    requires i < j < |InputRuns(level, inputs)|
    requires e in InputRuns(level, inputs)[i] && x in InputRuns(level, inputs)[j]
    ensures e.key != x.key
  {
    assert inputs[i] in inputs && inputs[j] in inputs;
    KeysDiffer(s, level, level, inputs[i], inputs[j], e, x);
  }

  lemma KeysDiffer(s: State, l: nat, m: nat, f: File, g: File, e: Entry, x: Entry)
    requires Shape(s) && l < NUM_LEVELS && m < NUM_LEVELS && f in s.levels[l] && g in s.levels[m]
    requires e in f.entries && x in g.entries && (l != m || f != g)
    ensures e.key != x.key
  {
    assert At(s, e, l + 2) && At(s, x, m + 2);
    DistinctSeqnos(s, e, x);
    if e == x {
      OnePlace(s, l, m, f, g, e);
    }
  }

  lemma AcrossDiffer(s: State, c: Rewrite, e: Entry, x: Entry)
    requires Shape(s) && c.level + 1 < NUM_LEVELS && InFiles(c.inputs0, e) && InFiles(c.inputs1, x)
    requires forall f | f in c.inputs0 :: f in s.levels[c.level]
    requires forall f | f in c.inputs1 :: f in s.levels[c.level + 1]
    ensures e.key != x.key
  {
    var f :| f in c.inputs0 && e in f.entries;
    var g :| g in c.inputs1 && x in g.entries;
    KeysDiffer(s, c.level, c.level + 1, f, g, e, x);
  }

  lemma LevelRunsDistinct(s: State, level: nat, inputs: seq<File>)
    requires Shape(s) && level < NUM_LEVELS && forall f | f in inputs :: f in s.levels[level]
    requires WfFiles(inputs) && if level == 0 then Distinct(inputs) else Disjoint(inputs)
    ensures Merger.DistinctRuns(InputRuns(level, inputs))
  {
    var runs := InputRuns(level, inputs);
    RunsOfLevel(level, inputs);
    forall i: nat, j: nat | i < j < |runs|
      ensures Merger.KeysDiffer(runs[i], runs[j])
    {
      forall e: Entry, x: Entry | e in runs[i] && x in runs[j]
        ensures e.key != x.key
      {
        RunsDiffer(s, level, inputs, i, j, e, x);
      }
    }
  }

  lemma RunsAreDistinct(s: State, c: Rewrite)
    requires Shape(s) && ChosenInputs(s, c)
    ensures Merger.DistinctRuns(InputRuns(c.level, c.inputs0) + InputRuns(c.level + 1, c.inputs1))
  {
    InputsShape(s, c);
    RunsOfLevel(c.level, c.inputs0);
    RunsOfLevel(c.level + 1, c.inputs1);
    LevelRunsDistinct(s, c.level, c.inputs0);
    LevelRunsDistinct(s, c.level + 1, c.inputs1);
    InputsDiffer(s, c);
    Merger.AppendRuns(InputRuns(c.level, c.inputs0), InputRuns(c.level + 1, c.inputs1));
  }

  lemma InputsDiffer(s: State, c: Rewrite)
    requires Shape(s) && ChosenInputs(s, c)
    ensures forall e, x | InFiles(c.inputs0, e) && InFiles(c.inputs1, x) :: e.key != x.key
  {
    InputsShape(s, c);
    forall e, x | InFiles(c.inputs0, e) && InFiles(c.inputs1, x)
      ensures e.key != x.key
    {
      AcrossDiffer(s, c, e, x);
    }
  }

  lemma RunsHaveInputs(s: State, c: Rewrite)
    requires LevelsOk(s) && ChosenInputs(s, c)
    ensures forall e :: FromInputs(c, e) <==> Merger.InSome(InputRuns(c.level, c.inputs0) + InputRuns(c.level + 1, c.inputs1), e)
  {
    InputsShape(s, c);
    RunsOfLevel(c.level, c.inputs0);
    RunsOfLevel(c.level + 1, c.inputs1);
    forall e
      ensures FromInputs(c, e) <==> Merger.InSome(InputRuns(c.level, c.inputs0) + InputRuns(c.level + 1, c.inputs1), e)
    {
      InEither(InputRuns(c.level, c.inputs0), InputRuns(c.level + 1, c.inputs1), e);
    }
  }

  lemma InEither(a: seq<seq<Entry>>, b: seq<seq<Entry>>, e: Entry)
    ensures Merger.InSome(a + b, e) <==> Merger.InSome(a, e) || Merger.InSome(b, e)
  {
    if i :| 0 <= i < |b| && e in b[i] {
      assert e in (a + b)[|a| + i];
    }
    if i :| 0 <= i < |a| && e in a[i] {
      assert e in (a + b)[i];
    }
  }

  lemma InputsShape(s: State, c: Rewrite)
    requires LevelsOk(s) && ChosenInputs(s, c)
    ensures WfFiles(c.inputs0) && WfFiles(c.inputs1) && Distinct(c.inputs0)
    ensures c.level > 0 ==> Disjoint(c.inputs0)
    ensures Disjoint(c.inputs1)
    ensures forall f | f in c.inputs0 :: f in s.levels[c.level]
    ensures forall f | f in c.inputs1 :: f in s.levels[c.level + 1]
  {
    assert LevelOk(c.level, s.levels[c.level]) && LevelOk(c.level + 1, s.levels[c.level + 1]);
    InputsAreFiles(s, c);
    if c.inputs1 != [] {
      SecondInputSeed(s, c);
    }
  }

  /** Drives a merging iterator over all inputs from front to back. */
  method MergeInputs(ghost s: State, level: nat, inputs0: seq<File>, inputs1: seq<File>) returns (input: seq<Entry>)
    requires Shape(s) && ChosenInputs(s, Rewrite(level, inputs0, inputs1, []))
    ensures MergedInput(Rewrite(level, inputs0, inputs1, []), input)
  {
    RunsAreDistinct(s, Rewrite(level, inputs0, inputs1, []));
    RunsHaveInputs(s, Rewrite(level, inputs0, inputs1, []));
    var runs := InputRuns(level, inputs0) + InputRuns(level + 1, inputs1);
    Merger.UnionIs(runs);
    input := MergeRuns(runs);
  }

  method Children(runs: seq<seq<Entry>>) returns (children: seq<Cursors.Cursor>)
    requires forall i | 0 <= i < |runs| :: Sorted(runs[i])
    ensures |children| == |runs|
    ensures forall j | 0 <= j < |runs| :: fresh(children[j]) && children[j].Valid() && children[j].entries == runs[j]
    ensures forall j, k | 0 <= j < k < |children| :: children[j] != children[k]
  {
    children := [];
    for i := 0 to |runs|
      invariant |children| == i
      invariant forall j | 0 <= j < i :: fresh(children[j]) && children[j].Valid() && children[j].entries == runs[j]
      invariant forall j, k | 0 <= j < k < i :: children[j] != children[k]
    {
      var child := new Cursors.Cursor(runs[i]);
      children := children + [child];
    }
  }

  method MergeRuns(runs: seq<seq<Entry>>) returns (input: seq<Entry>)
    requires Merger.DistinctRuns(runs) && Merger.IsUnion(Merger.Union(runs), runs)
    ensures input == Merger.Union(runs)
  {
    var children := Children(runs);
    assert runs == seq(|children|, i requires 0 <= i < |children| => children[i].entries);
    ghost var merged := Merger.Union(runs);
    var merger := new Merger.MergingIterator(children, merged);
    input := ReadAll(merger);
  }

  method ReadAll(merger: Merger.MergingIterator) returns (input: seq<Entry>)
    requires merger.Valid()
    modifies merger, merger.children
    ensures input == merger.merged
  {
    merger.SeekToFirst();
    input := [];
    while merger.AtEntry()
      invariant merger.Valid() && merger.pos <= |merger.merged| && input == merger.merged[..merger.pos]
      decreases |merger.merged| - merger.pos
    {
      var e := merger.Current();
      input := input + [e];
      merger.Next();
    }
  }

  // --------------------------------------------------------------------- scans

  /** Everything stored, as one sorted run: what the iterator of a whole database merges. */
  ghost predicate AllEntries(s: State, es: seq<Entry>) {
    Sorted(es) && forall e :: e in es <==> In(s, e)
  }

  /** A lookup in the merged run of everything stored is a lookup in the history. */
  lemma ScanIsHistory(s: State, es: seq<Entry>, user: UserKey, n: nat)
    requires Inv(s) && AllEntries(s, es) && (n in s.snapshots || n == s.last)
    ensures ValueOf(Find(es, user, n)) == HistoryLookup(s.history, user, n)
  {
    FindIsNewest(es, user, n);
    var r := Find(es, user, n);
    forall e, d | At(s, e, d) && Visible(e, user, n)
      ensures r.Some? && e.key.seqno <= r.value.key.seqno
    {
      assert In(s, e);
    }
    assert Newest(s, user, n, r);
  }
}
