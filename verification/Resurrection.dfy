/** A run of the database whose next compaction, with the inputs LevelDB chooses, brings a deleted
    value back: a read that answered "not found" answers the old value afterwards. */
module Resurrection {
  import opened Keys
  import opened Files
  import opened Inputs
  import opened VersionBuilder
  import opened Compaction
  import opened Lsm
  import opened LsmCompaction
  import opened LsmReads
  import opened Durability
  import opened Runs
  import DbImpl

  // ---------------------------------------------------------------------- sizes

  /** The least size limit of an output file (`max_file_size` is at least 1 MB). */
  const LIMIT := 0x10_0000

  /** The user key at rank 5 is longer than a block, so that each of its entries ends one. */
  function KeyLength(user: UserKey): nat {
    if user == 5.0 then 2048 else 1
  }

  /** Keys, tags and values, without what blocks add to them. */
  function SizeOf(es: seq<Entry>): nat {
    if es == [] then 0
    else SizeOf(es[..|es| - 1]) + KeyLength(es[|es| - 1].key.user) + 8 + |es[|es| - 1].value|
  }

  /** An output is finished with the entry that reaches the limit. */
  ghost predicate CutAtLimit(o: File) {
    SizeOf(o.entries) >= LIMIT && forall n: nat | n < |o.entries| :: SizeOf(o.entries[..n]) < LIMIT
  }

  // ------------------------------------------------------------------- the run

  const BIG_VALUE: Bytes := seq(LIMIT - 1024, i => 0)

  const FIRST := Entry(InternalKey(1.0, 1, Value), [1])
  const BIG := Entry(InternalKey(1.0, 2, Value), BIG_VALUE)
  const WRITTEN := Entry(InternalKey(5.0, 3, Value), [2])
  const DELETED := Entry(InternalKey(5.0, 4, Deletion), [])
  const LAST := Entry(InternalKey(1.0, 5, Value), [3])

  function FileOf(number: nat, es: seq<Entry>): File
    requires es != []
  {
    File(number, SizeOf(es), es[0].key, es[|es| - 1].key, es)
  }

  /** The first two tables and the two they are compacted into; the third table, and what is left at
      the end. */
  const BASE := FileOf(5, [FIRST])
  const WHOLE := FileOf(7, [BIG, DELETED, WRITTEN])
  const LOWER := FileOf(8, [BIG, DELETED])
  /** Continues the user key at which LOWER ends. */
  const REST := FileOf(9, [WRITTEN])
  const UPPER := FileOf(11, [LAST])
  const MERGED := FileOf(12, [LAST])

  /** Levels 1 and 2; the others stay empty. */
  function Tree(a: seq<File>, b: seq<File>): Levels {
    [[], a, b, [], [], [], []]
  }

  const OPS := [(Value, 1.0, BIG_VALUE), (Value, 5.0, [2])]

  const OLD := [FIRST, BIG, WRITTEN]
  const NEW := [FIRST, BIG, WRITTEN, DELETED]
  const ALL := [FIRST, BIG, WRITTEN, DELETED, LAST]

  const STATES := [
    Init(),
    State([FIRST], None, Tree([], []), 4, 1, [], [FIRST], 0),
    State([], Some([FIRST]), Tree([], []), 5, 1, [], [FIRST], 0),
    State([], None, Tree([], [BASE]), 6, 1, [], [FIRST], 0),
    State([BIG, WRITTEN], None, Tree([], [BASE]), 6, 3, [], OLD, 0),
    State([BIG, WRITTEN], None, Tree([], [BASE]), 6, 3, [3], OLD, 0),
    State([BIG, DELETED, WRITTEN], None, Tree([], [BASE]), 6, 4, [3], NEW, 0),
    State([], Some([BIG, DELETED, WRITTEN]), Tree([], [BASE]), 7, 4, [3], NEW, 0),
    State([], None, Tree([WHOLE], [BASE]), 8, 4, [3], NEW, 0),
    State([], None, Tree([], [LOWER, REST]), 10, 4, [3], NEW, 3),
    State([], None, Tree([], [LOWER, REST]), 10, 4, [], NEW, 3),
    State([LAST], None, Tree([], [LOWER, REST]), 10, 5, [], ALL, 3),
    State([], Some([LAST]), Tree([], [LOWER, REST]), 11, 5, [], ALL, 3),
    SPLIT
  ]

  const SPLIT := State([], None, Tree([UPPER], [LOWER, REST]), 12, 5, [], ALL, 3)

  const AFTER := State([], None, Tree([], [MERGED, REST]), 13, 5, [], ALL, 5)

  /** Under the snapshot at 3 the deletion and the value it deletes both stay, and the outputs are cut
      between them. */
  const CUT := Rewrite(1, [WHOLE], [BASE], [LOWER, REST])
  const CUT_INPUT := [BIG, FIRST, DELETED, WRITTEN]

  /** Without snapshots; the second input stops short of REST. */
  const CHOSEN := Rewrite(1, [UPPER], [LOWER], [MERGED])
  const CHOSEN_INPUT := [LAST, BIG, DELETED]

  const ACTIONS := [
    Write([(Value, 1.0, [1])]),
    SwitchMemtable,
    FlushMemtable(2, BASE),
    Write(OPS),
    TakeSnapshot,
    Write([(Deletion, 5.0, [])]),
    SwitchMemtable,
    FlushMemtable(1, WHOLE),
    Compact(CUT, CUT_INPUT),
    ReleaseSnapshot(0),
    Write([(Value, 1.0, [3])]),
    SwitchMemtable,
    FlushMemtable(1, UPPER)
  ]

  // ---------------------------------------------------------------------- steps

  lemma FilesAreValid()
    ensures WfFile(BASE) && WfFile(WHOLE) && WfFile(LOWER) && WfFile(REST) && WfFile(UPPER) && WfFile(MERGED)
  {
    assert Less(BIG.key, DELETED.key) && Less(DELETED.key, WRITTEN.key) && Less(BIG.key, WRITTEN.key);
  }

  lemma TreeInstalled(a0: seq<File>, b0: seq<File>, e: Edit, a: seq<File>, b: seq<File>)
    requires SortedFiles(a) && SortedFiles(b) && forall p | p in e.added :: p.0 == 1 || p.0 == 2
    requires forall x :: x in a <==> (x in a0 && (1, x.number) !in e.deleted) || (1, x) in e.added
    requires forall x :: x in b <==> (x in b0 && (2, x.number) !in e.deleted) || (2, x) in e.added
    ensures Installed(Tree(a0, b0), e, Tree(a, b))
  {
    var v, w := Tree(a, b), Tree(a0, b0);
    assert v[1] == a && v[2] == b && w[1] == a0 && w[2] == b0;
    forall l: nat | l < NUM_LEVELS && l != 1 && l != 2
      ensures v[l] == [] && w[l] == []
    {
    }
    forall l: nat | l < NUM_LEVELS
      ensures SortedFiles(v[l])
    {
      assert l != 1 && l != 2 ==> v[l] == [];
    }
  }

  lemma OneWrite(s: State, kind: Kind, user: UserKey, value: Bytes)
    ensures WriteBatch(s, [(kind, user, value)]) == WriteEntry(s, kind, user, value)
  {
    var ops := [(kind, user, value)];
    assert ops[1..] == [];
  }

  lemma EmptyInsert(e: Entry)
    ensures Insert([], e) == [e]
  {
  }

  lemma FirstWrite()
    ensures WriteBatch(STATES[0], [(Value, 1.0, [1])]) == STATES[1]
  {
    OneWrite(STATES[0], Value, 1.0, [1]);
    EmptyInsert(FIRST);
  }

  lemma SecondWrite()
    ensures WriteBatch(STATES[3], OPS) == STATES[4]
  {
    WriteTwo(STATES[3], 1.0, BIG_VALUE, 5.0, [2], BIG, WRITTEN);
    assert [FIRST] + [BIG, WRITTEN] == OLD;
  }

  lemma WriteTwo(s: State, user: UserKey, value: Bytes, user1: UserKey, value1: Bytes, e: Entry, e1: Entry)
    requires s.mem == [] && user < user1
    requires e == NewEntry(s, Value, user, value) && e1 == Entry(InternalKey(user1, s.last + 2, Value), value1)
    ensures WriteBatch(s, [(Value, user, value), (Value, user1, value1)])
         == s.(mem := [e, e1], history := s.history + [e, e1], last := s.last + 2)
  {
    var ops := [(Value, user, value), (Value, user1, value1)];
    assert ops[1..] == [(Value, user1, value1)];
    EmptyInsert(e);
    var t := WriteEntry(s, Value, user, value);
    OneWrite(t, Value, user1, value1);
    InsertAfter(e, e1);
    assert s.history + [e] + [e1] == s.history + [e, e1];
  }

  lemma InsertAfter(e: Entry, e1: Entry)
    requires Less(e.key, e1.key)
    ensures Insert([e], e1) == [e, e1]
  {
    assert [e][1..] == [];
  }

  lemma ThirdWrite()
    ensures WriteBatch(STATES[5], [(Deletion, 5.0, [])]) == STATES[6]
  {
    OneWrite(STATES[5], Deletion, 5.0, []);
    var mem := [BIG, WRITTEN];
    assert mem[1..] == [WRITTEN] && LowerBound([WRITTEN], DELETED.key) == 0;
    assert LowerBound(mem, DELETED.key) == 1;
    assert Insert(mem, DELETED) == [BIG, DELETED, WRITTEN];
  }

  lemma FourthWrite()
    ensures WriteBatch(STATES[10], [(Value, 1.0, [3])]) == STATES[11]
  {
    OneWrite(STATES[10], Value, 1.0, [3]);
    EmptyInsert(LAST);
  }

  lemma FirstFlush()
    ensures Flush(STATES[2], STATES[3], 2, BASE)
  {
    FilesAreValid();
    TreeInstalled([], [], Edit({}, [(2, BASE)]), [], [BASE]);
    var v := Tree([], []);
    assert forall l: nat | l <= 2 :: v[l] == [];
  }

  lemma SecondFlush()
    ensures Flush(STATES[7], STATES[8], 1, WHOLE)
  {
    FilesAreValid();
    TreeInstalled([], [BASE], Edit({}, [(1, WHOLE)]), [WHOLE], [BASE]);
    var v := Tree([], [BASE]);
    assert forall l: nat | l <= 1 :: v[l] == [];
  }

  lemma ThirdFlush()
    ensures Flush(STATES[12], STATES[13], 1, UPPER)
  {
    FilesAreValid();
    TreeInstalled([], [LOWER, REST], Edit({}, [(1, UPPER)]), [UPPER], [LOWER, REST]);
    var v := Tree([], [LOWER, REST]);
    assert forall l: nat | l <= 1 :: v[l] == [];
  }

  // ---------------------------------------------------------- first compaction

  lemma OneFileIsSeed(f: File)
    requires WfFile(f)
    ensures Seed(1, [f], [f]) && IsRange([f], f.smallest, f.largest)
    ensures NoBoundaryLeft([f], [f])
  {
    assert f in [f];
    RangeNotEmpty(f);
  }

  lemma CutIsChosen()
    ensures ChosenInputs(STATES[8], CUT)
  {
    FilesAreValid();
    OneFileIsSeed(WHOLE);
    OneIsSelected(BASE, WHOLE);
  }

  lemma OneIsSelected(f: File, g: File)
    requires Overlaps(f, Some(g.smallest.user), Some(g.largest.user))
    ensures Select([f], Some(g.smallest.user), Some(g.largest.user)) == [f]
  {
    assert [f][..0] == [];
  }

  /** The older value of the first key is shadowed below the snapshot; nothing else goes. */
  lemma CutKeeps(e: Entry)
    ensures IsKept(STATES[8], CUT, CUT_INPUT, 3, e) <==> e in [BIG, DELETED, WRITTEN]
  {
    var input := CUT_INPUT;
    assert Less(BIG.key, FIRST.key) && Less(FIRST.key, DELETED.key) && Less(DELETED.key, WRITTEN.key);
    assert Sorted(input);
    KeptMeaning(STATES[8].levels, 1, input, 3, e);
    assert BIG in input && Visible(BIG, 1.0, 3);
    assert Shadowed(input, 3, FIRST);
  }

  lemma CutEntries(e: Entry)
    ensures InFiles([LOWER, REST], e) <==> e in [BIG, DELETED, WRITTEN]
    ensures FromInputs(CUT, e) <==> e in CUT_INPUT
  {
    assert LOWER in [LOWER, REST] && REST in [LOWER, REST] && WHOLE in [WHOLE] && BASE in [BASE];
    assert FIRST in BASE.entries && BIG in WHOLE.entries && DELETED in WHOLE.entries && WRITTEN in WHOLE.entries;
    assert BIG in LOWER.entries && DELETED in LOWER.entries && WRITTEN in REST.entries;
  }

  lemma CutEdit()
    ensures Installed(Tree([WHOLE], [BASE]), RewriteEdit(CUT), Tree([], [LOWER, REST]))
  {
    var e := RewriteEdit(CUT);
    assert e.added == [(2, LOWER), (2, REST)] && WHOLE in CUT.inputs0 && BASE in CUT.inputs1;
    assert (1, WHOLE.number) in e.deleted && (2, BASE.number) in e.deleted;
    TreeInstalled([WHOLE], [BASE], e, [], [LOWER, REST]);
  }

  lemma NothingDeep(s: State, a: seq<File>, b: seq<File>, user: UserKey)
    requires s.levels == Tree(a, b)
    ensures BaseLevel(s.levels, 1, user)
  {
    assert forall l: nat | 3 <= l < NUM_LEVELS :: s.levels[l] == [];
  }

  lemma CutCompacts()
    ensures Compacted(STATES[8], STATES[9], CUT, CUT_INPUT, 3)
  {
    var s, t := STATES[8], STATES[9];
    FilesAreValid();
    CutIsChosen();
    CutEdit();
    forall e
      ensures InFiles(CUT.outputs, e) <==> IsKept(s, CUT, CUT_INPUT, 3, e)
      ensures InFiles(CUT.outputs, e) ==> FromInputs(CUT, e)
      ensures FromInputs(CUT, e) <==> e in CUT_INPUT
    {
      CutKeeps(e);
      CutEntries(e);
    }
    assert Less(BIG.key, FIRST.key) && Less(FIRST.key, DELETED.key) && Less(DELETED.key, WRITTEN.key);
    assert OutputsOk(s, t, CUT);
  }

  lemma FirstCompaction()
    ensures Next(STATES[8], ACTIONS[8], STATES[9])
  {
    CutCompacts();
    forall x, y
      ensures !Exposes(STATES[8], CUT, 3, x, y)
    {
      assert STATES[8].levels[2] == CUT.inputs1;
    }
  }

  /** The first compaction is one that rewrites, and its first output ends with the entry that reaches
      the size limit. */
  lemma FirstIsRewrite(maxGrandparent: nat)
    ensures !DbImpl.IsTrivial(STATES[8].levels, 1, CUT.inputs0, CUT.inputs1, maxGrandparent)
    ensures CutAtLimit(LOWER) && !CutAtLimit(REST)
    ensures forall f | f in [BASE, WHOLE, LOWER, REST, UPPER, MERGED] :: f.size == SizeOf(f.entries)
  {
    SizeOne(BIG);
    SizeOne(WRITTEN);
    var es := [BIG, DELETED];
    assert es[..0] == [] && es[..1] == [BIG];
  }

  lemma SizeOne(e: Entry)
    ensures SizeOf([e]) == KeyLength(e.key.user) + 8 + |e.value|
  {
    assert [e][..0] == [];
  }

  lemma StepTaken(i: nat)
    requires i < |ACTIONS|
    ensures Next(STATES[i], ACTIONS[i], STATES[i + 1])
  {
    if i == 0 {
      FirstWrite();
    } else if i == 2 {
      FirstFlush();
    } else if i == 3 {
      SecondWrite();
    } else if i == 5 {
      ThirdWrite();
    } else if i == 7 {
      SecondFlush();
    } else if i == 8 {
      FirstCompaction();
    } else if i == 10 {
      FourthWrite();
    } else if i == 12 {
      ThirdFlush();
    } else {
      SmallStep(i);
    }
  }

  lemma SmallStep(i: nat)
    requires i == 1 || i == 4 || i == 6 || i == 9 || i == 11
    ensures Next(STATES[i], ACTIONS[i], STATES[i + 1])
  {
    assert [3][..0] + [3][1..] == [];
  }

  /** The steps are ones a new database takes. */
  lemma ARun()
    ensures Run(STATES, ACTIONS) && STATES[0] == Init() && STATES[|ACTIONS|] == SPLIT
  {
    InitIsRecoverable();
    forall i: nat | i < |ACTIONS|
      ensures Next(STATES[i], ACTIONS[i], STATES[i + 1])
    {
      StepTaken(i);
    }
  }

  lemma SplitIsReached()
    ensures Inv(SPLIT)
  {
    ARun();
    RunKeepsInv(STATES, ACTIONS, |ACTIONS|);
  }

  // --------------------------------------------------------- second compaction

  lemma ChosenIsChosen()
    ensures ChosenInputs(SPLIT, CHOSEN)
  {
    FilesAreValid();
    OneFileIsSeed(UPPER);
    var files := [LOWER, REST];
    assert files[..1] == [LOWER];
    OneIsSelected(LOWER, UPPER);
    assert Select(files, Some(1.0), Some(1.0)) == [LOWER];
  }

  lemma Contents(e: Entry, d: nat)
    ensures At(SPLIT, e, d) <==> (d == 3 && e == LAST) || (d == 4 && (e == BIG || e == DELETED || e == WRITTEN))
  {
    assert UPPER in SPLIT.levels[1] && LOWER in SPLIT.levels[2] && REST in SPLIT.levels[2];
    assert LAST in UPPER.entries && BIG in LOWER.entries && DELETED in LOWER.entries && WRITTEN in REST.entries;
  }

  lemma ValueIsExposed()
    ensures Exposes(SPLIT, CHOSEN, 5, DELETED, WRITTEN)
  {
    assert DELETED in LOWER.entries && LOWER in CHOSEN.inputs1;
    assert InFiles(CHOSEN.inputs1, DELETED);
    assert REST in SPLIT.levels[2] && REST !in CHOSEN.inputs1 && WRITTEN in REST.entries;
    NothingDeep(SPLIT, [UPPER], [LOWER, REST], 5.0);
    forall e, d: nat | At(SPLIT, e, d)
      ensures e.key.user == 5.0 ==> e.key.seqno <= 4
    {
      Contents(e, d);
    }
    forall z | Remains(SPLIT, CHOSEN, z)
      ensures z == WRITTEN
    {
      var g :| g in SPLIT.levels[2] && g !in CHOSEN.inputs1 && z in g.entries;
      assert g == REST;
    }
  }

  lemma MergedEntries(e: Entry)
    ensures FromInputs(CHOSEN, e) <==> e in CHOSEN_INPUT
    ensures InFiles([MERGED], e) <==> e == LAST
  {
    assert UPPER in [UPPER] && LOWER in [LOWER] && MERGED in [MERGED];
    assert LAST in UPPER.entries && BIG in LOWER.entries && DELETED in LOWER.entries && LAST in MERGED.entries;
  }

  /** The old value of 1.0 is shadowed, and the deletion marker has nothing two levels down. */
  lemma OnlyLastIsKept(e: Entry)
    ensures IsKept(SPLIT, CHOSEN, CHOSEN_INPUT, 5, e) <==> e == LAST
  {
    var input := CHOSEN_INPUT;
    assert Less(LAST.key, BIG.key) && Less(BIG.key, DELETED.key) && Less(LAST.key, DELETED.key);
    assert Sorted(input);
    KeptMeaning(SPLIT.levels, 1, input, 5, e);
    assert LAST in input && Visible(LAST, 1.0, 5);
    assert Shadowed(input, 5, BIG);
    NothingDeep(SPLIT, [UPPER], [LOWER, REST], 5.0);
  }

  lemma ChosenEdit()
    ensures Installed(SPLIT.levels, RewriteEdit(CHOSEN), AFTER.levels)
  {
    var e := RewriteEdit(CHOSEN);
    assert e.added == [(2, MERGED)] && UPPER in CHOSEN.inputs0 && LOWER in CHOSEN.inputs1;
    assert (1, UPPER.number) in e.deleted && (2, LOWER.number) in e.deleted && (2, REST.number) !in e.deleted;
    TreeInstalled([UPPER], [LOWER, REST], e, [], [MERGED, REST]);
  }

  lemma SecondCompaction()
    ensures Compacted(SPLIT, AFTER, CHOSEN, CHOSEN_INPUT, 5)
  {
    FilesAreValid();
    ChosenIsChosen();
    ChosenEdit();
    forall e
      ensures InFiles(CHOSEN.outputs, e) <==> IsKept(SPLIT, CHOSEN, CHOSEN_INPUT, 5, e)
      ensures FromInputs(CHOSEN, e) <==> e in CHOSEN_INPUT
      ensures InFiles(CHOSEN.outputs, e) ==> FromInputs(CHOSEN, e)
    {
      OnlyLastIsKept(e);
      MergedEntries(e);
    }
    assert Less(LAST.key, BIG.key) && Less(BIG.key, DELETED.key) && Less(LAST.key, DELETED.key);
  }

  /** The history says that 5.0 has been deleted. */
  lemma Lookup()
    ensures HistoryLookup(ALL, 5.0, 5) == None
  {
    assert ALL[..4] == NEW;
    assert HistoryLookup(NEW, 5.0, 5) == ValueOf(Some(DELETED));
  }

  /** A run of a new database ends in SPLIT, and the compaction LevelDB then chooses leads to AFTER.
      Before it, a read of 5.0 finds the deletion, as the history says; after it, it finds the value that
      had been deleted. The second input does not end between user keys. Neither compaction has a single
      file to move, and the output that ends within a user key ends where it reaches the size limit. */
  lemma DeletedValueReturns(maxGrandparent: nat)
    ensures Run(STATES, ACTIONS) && STATES[0] == Init() && STATES[|ACTIONS|] == SPLIT
    ensures Compacted(SPLIT, AFTER, CHOSEN, CHOSEN_INPUT, OldestSnapshot(SPLIT))
    ensures Newest(SPLIT, 5.0, 5, Some(DELETED)) && ValueOf(Some(DELETED)) == None == HistoryLookup(AFTER.history, 5.0, 5)
    ensures Newest(AFTER, 5.0, 5, Some(WRITTEN)) && ValueOf(Some(WRITTEN)) == Some([2])
    ensures !NoBoundaryLeft(SPLIT.levels[2], CHOSEN.inputs1) && Resurrects(SPLIT, CHOSEN, 5)
    ensures !DbImpl.IsTrivial(STATES[8].levels, 1, CUT.inputs0, CUT.inputs1, maxGrandparent) && CutAtLimit(LOWER)
    ensures !DbImpl.IsTrivial(SPLIT.levels, 1, CHOSEN.inputs0, CHOSEN.inputs1, maxGrandparent)
  {
    ARun();
    ReadsDiffer();
    NotClosed();
    SecondCompaction();
    Lookup();
    ValueIsExposed();
    FirstIsRewrite(maxGrandparent);
  }

  lemma ReadsDiffer()
    ensures Newest(SPLIT, 5.0, 5, Some(DELETED)) && Newest(AFTER, 5.0, 5, Some(WRITTEN))
  {
    SplitIsReached();
    SecondCompaction();
    ValueIsExposed();
    ResurrectedRead(SPLIT, AFTER, CHOSEN, CHOSEN_INPUT, 5, DELETED, WRITTEN);
  }

  lemma NotClosed()
    ensures !NoBoundaryLeft(SPLIT.levels[2], CHOSEN.inputs1)
  {
    assert LOWER in CHOSEN.inputs1 && IsLargestKey(CHOSEN.inputs1, DELETED.key);
    assert REST in SPLIT.levels[2] && IsBoundary(REST, DELETED.key);
  }
}
