/** Moves and compactions as steps of the LSM state machine: shape, reads, and exactly when
    dropping entries keeps every read. */
module LsmCompaction {
  import opened Keys
  import opened Files
  import opened Inputs
  import opened VersionBuilder
  import opened Compaction
  import opened Lsm

  /** Files of `level` and `level + 1` replaced by new files of `level + 1`. */
  datatype Rewrite = Rewrite(level: nat, inputs0: seq<File>, inputs1: seq<File>, outputs: seq<File>)

  ghost predicate FromInputs(c: Rewrite, e: Entry) {
    InFiles(c.inputs0, e) || InFiles(c.inputs1, e)
  }

  function RewriteEdit(c: Rewrite): Edit {
    Edit((set f | f in c.inputs0 :: (c.level, f.number)) + (set f | f in c.inputs1 :: (c.level + 1, f.number)),
         seq(|c.outputs|, i requires 0 <= i < |c.outputs| => (c.level + 1, c.outputs[i])))
  }

  ghost predicate ChosenInputs(s: State, c: Rewrite) {
    c.level + 1 < NUM_LEVELS
    && ValidInputs(c.level, s.levels[c.level], s.levels[c.level + 1], c.inputs0, c.inputs1)
  }

  ghost predicate OutputsOk(s: State, t: State, c: Rewrite) {
    && WfFiles(c.outputs) && Disjoint(c.outputs)
    && (forall e | InFiles(c.outputs, e) :: FromInputs(c, e))
    && (forall o | o in c.outputs :: o.number < t.nextFile && (o.number >= s.nextFile || o in c.inputs0))
    && (forall o, p | o in c.outputs && p in c.outputs && o.number == p.number :: o == p)
  }

  ghost predicate Rewritten(s: State, t: State, c: Rewrite) {
    && ChosenInputs(s, c) && OutputsOk(s, t, c)
    && t == s.(levels := t.levels, nextFile := t.nextFile, horizon := t.horizon)
    && t.nextFile >= s.nextFile
    && Installed(s.levels, RewriteEdit(c), t.levels)
  }

  // --------------------------------------------------------------- membership

  lemma InputsAreFiles(s: State, c: Rewrite)
    requires ChosenInputs(s, c)
    ensures forall f | f in c.inputs0 :: f in s.levels[c.level]
    ensures forall f | f in c.inputs1 :: f in s.levels[c.level + 1]
  {
    var a, b :| IsRange(c.inputs0, a, b) && c.inputs1 == Select(s.levels[c.level + 1], Some(a.user), Some(b.user));
    InSelect(s.levels[c.level + 1], Some(a.user), Some(b.user));
  }

  /** What each level holds after the rewrite. */
  ghost predicate Member(s: State, c: Rewrite, l: nat, x: File)
    requires l < NUM_LEVELS
  {
    || (x in s.levels[l] && !(l == c.level && x in c.inputs0) && !(l == c.level + 1 && x in c.inputs1))
    || (l == c.level + 1 && x in c.outputs)
  }

  /** The rewrite in terms of members only. */
  ghost predicate Moved(s: State, t: State, c: Rewrite) {
    && c.level + 1 < NUM_LEVELS && t.mem == s.mem && t.imm == s.imm
    && (forall l, x | 0 <= l < NUM_LEVELS :: x in t.levels[l] <==> Member(s, c, l, x))
    && (forall f | f in c.inputs0 :: f in s.levels[c.level])
    && (forall f | f in c.inputs1 :: f in s.levels[c.level + 1])
    && (forall e | InFiles(c.outputs, e) :: FromInputs(c, e))
  }

  lemma RewriteMembers(s: State, t: State, c: Rewrite)
    requires NumbersOk(s) && Rewritten(s, t, c)
    ensures Moved(s, t, c)
  {
    InputsAreFiles(s, c);
    forall l: nat, x | l < NUM_LEVELS
      ensures x in t.levels[l] <==> Member(s, c, l, x)
    {
      EditAdds(c, l, x);
      if x in s.levels[l] {
        EditDeletes(s, c, l, x);
      }
    }
  }

  lemma EditAdds(c: Rewrite, l: nat, x: File)
    ensures (l, x) in RewriteEdit(c).added <==> l == c.level + 1 && x in c.outputs
  {
    var e := RewriteEdit(c);
    if l == c.level + 1 && x in c.outputs {
      var i :| 0 <= i < |c.outputs| && c.outputs[i] == x;
      assert e.added[i] == (l, x);
    }
  }

  lemma EditDeletes(s: State, c: Rewrite, l: nat, x: File)
    requires NumbersOk(s) && c.level + 1 < NUM_LEVELS && l < NUM_LEVELS && x in s.levels[l]
    requires forall f | f in c.inputs0 :: f in s.levels[c.level]
    requires forall f | f in c.inputs1 :: f in s.levels[c.level + 1]
    ensures (l, x.number) in RewriteEdit(c).deleted <==> (l == c.level && x in c.inputs0) || (l == c.level + 1 && x in c.inputs1)
  {
    forall f | f in c.inputs0 + c.inputs1
      ensures SameNumber(f, x) <==> f.number == x.number
    {
    }
  }

  /** `e` is in a file of the compacted level that is not an input. */
  ghost predicate InLeftover(files: seq<File>, inputs: seq<File>, e: Entry) {
    exists g :: g in files && g !in inputs && e in g.entries
  }

  /** Where entries come from: deeper places gain only entries of the first input. */
  lemma RewriteAt(s: State, t: State, c: Rewrite, e: Entry, d: nat)
    requires Moved(s, t, c) && At(t, e, d)
    ensures CameFrom(s, c, e, d)
  {
    if d >= 2 {
      LevelEntry(s, c, d - 2, t.levels[d - 2], e);
    }
  }

  lemma LevelEntry(s: State, c: Rewrite, l: nat, files: seq<File>, e: Entry)
    requires c.level + 1 < NUM_LEVELS && l < NUM_LEVELS && InFiles(files, e)
    requires forall x | x in files :: Member(s, c, l, x)
    requires forall f | f in c.inputs0 :: f in s.levels[c.level]
    requires forall f | f in c.inputs1 :: f in s.levels[c.level + 1]
    requires forall x | InFiles(c.outputs, x) :: FromInputs(c, x)
    ensures InFiles(s.levels[l], e) || (l == c.level + 1 && InFiles(s.levels[c.level], e) && InFiles(c.inputs0, e))
    ensures l == c.level ==> InLeftover(s.levels[c.level], c.inputs0, e)
  {
    var x :| x in files && e in x.entries;
    assert Member(s, c, l, x);
    if l == c.level + 1 && x in c.outputs {
      assert InFiles(c.outputs, e) && FromInputs(c, e);
    }
  }

  // -------------------------------------------------------------------- levels

  /** A file of the next level outside the inputs lies entirely before or after all inputs. */
  lemma LeftoverAside(s: State, c: Rewrite, g: File)
    requires LevelsOk(s) && ChosenInputs(s, c) && g in s.levels[c.level + 1] && g !in c.inputs1
    ensures (forall e | FromInputs(c, e) :: Less(g.largest, e.key)) || (forall e | FromInputs(c, e) :: Less(e.key, g.smallest))
    ensures forall e | InFiles(c.inputs0, e) :: !Covers(g, e.key.user)
  {
    ChosenFiles(s, c);
    Aside(s.levels[c.level + 1], c, g);
  }

  lemma ChosenFiles(s: State, c: Rewrite)
    requires LevelsOk(s) && ChosenInputs(s, c)
    ensures WfFiles(s.levels[c.level + 1]) && Disjoint(s.levels[c.level + 1]) && WfFiles(c.inputs0)
    ensures Covers1(c.inputs0, s.levels[c.level + 1], c.inputs1)
  {
    assert LevelOk(c.level + 1, s.levels[c.level + 1]);
    assert WfFiles(s.levels[c.level]) by { assert LevelOk(c.level, s.levels[c.level]); }
    SeedWf(c.level, s.levels[c.level], c.inputs0);
  }

  lemma SeedWf(level: nat, files: seq<File>, chosen: seq<File>)
    requires WfFiles(files) && Seed(level, files, chosen)
    ensures WfFiles(chosen)
  {
  }

  lemma Aside(files: seq<File>, c: Rewrite, g: File)
    requires WfFiles(files) && Disjoint(files) && WfFiles(c.inputs0) && Covers1(c.inputs0, files, c.inputs1)
    requires g in files && g !in c.inputs1
    ensures (forall e | FromInputs(c, e) :: Less(g.largest, e.key)) || (forall e | FromInputs(c, e) :: Less(e.key, g.smallest))
    ensures forall e | InFiles(c.inputs0, e) :: !Covers(g, e.key.user)
  {
    var a, b :| IsRange(c.inputs0, a, b) && c.inputs1 == Select(files, Some(a.user), Some(b.user));
    InSelect(files, Some(a.user), Some(b.user));
    forall e | FromInputs(c, e)
      ensures if g.largest.user < a.user then Less(g.largest, e.key) else Less(e.key, g.smallest)
    {
      if InFiles(c.inputs0, e) {
        AsideFirst(c.inputs0, g, a, b, e);
      } else {
        AsideSecond(files, c.inputs1, g, a, b, e);
      }
    }
    forall e | InFiles(c.inputs0, e)
      ensures !Covers(g, e.key.user)
    {
      AsideFirst(c.inputs0, g, a, b, e);
    }
  }

  lemma AsideFirst(inputs0: seq<File>, g: File, a: InternalKey, b: InternalKey, e: Entry)
    requires WfFile(g) && WfFiles(inputs0) && IsRange(inputs0, a, b) && InFiles(inputs0, e)
    requires !Overlaps(g, Some(a.user), Some(b.user))
    ensures if g.largest.user < a.user then Less(g.largest, e.key) else Less(e.key, g.smallest)
    ensures !Covers(g, e.key.user)
  {
    var f :| f in inputs0 && e in f.entries;
    EntryInRange(f, e);
    RangeNotEmpty(g);
  }

  lemma AsideSecond(files: seq<File>, inputs1: seq<File>, g: File, a: InternalKey, b: InternalKey, e: Entry)
    requires WfFiles(files) && Disjoint(files) && g in files && InFiles(inputs1, e)
    requires !Overlaps(g, Some(a.user), Some(b.user))
    requires forall f | f in inputs1 :: f in files && Overlaps(f, Some(a.user), Some(b.user))
    ensures if g.largest.user < a.user then Less(g.largest, e.key) else Less(e.key, g.smallest)
  {
    var f :| f in inputs1 && e in f.entries;
    EntryInRange(f, e);
    RangeNotEmpty(f);
    RangeNotEmpty(g);
    DisjointOrder(files, f, g);
  }

  lemma OutputRange(s: State, t: State, c: Rewrite, o: File)
    requires OutputsOk(s, t, c) && o in c.outputs
    ensures exists e :: FromInputs(c, e) && e.key == o.smallest
    ensures exists e :: FromInputs(c, e) && e.key == o.largest
  {
    assert InFiles(c.outputs, o.entries[0]) && InFiles(c.outputs, o.entries[|o.entries| - 1]);
  }

  lemma RewriteLevels(s: State, t: State, c: Rewrite)
    requires LevelsOk(s) && NumbersOk(s) && Rewritten(s, t, c)
    ensures LevelsOk(t) && NumbersOk(t)
  {
    RewriteMembers(s, t, c);
    InputsAreFiles(s, c);
    forall l | 0 <= l < NUM_LEVELS
      ensures LevelOk(l, t.levels[l])
    {
      assert LevelOk(l, s.levels[l]);
      assert WfFiles(t.levels[l]) by {
        assert forall x | x in t.levels[l] :: Member(s, c, l, x);
      }
      if l > 0 {
        forall x, y | x in t.levels[l] && y in t.levels[l] && x != y
          ensures Apart(x, y)
        {
          MembersApart(s, t, c, l, x, y);
        }
        DisjointFromPairs(t.levels[l]);
      }
    }
    RewriteNumbers(s, t, c);
  }

  lemma RewriteNumbers(s: State, t: State, c: Rewrite)
    requires NumbersOk(s) && Rewritten(s, t, c)
    ensures NumbersOk(t)
  {
    RewriteMembers(s, t, c);
    InputsAreFiles(s, c);
    assert forall l, x | 0 <= l < NUM_LEVELS && x in t.levels[l] :: Member(s, c, l, x);
  }

  lemma MembersApart(s: State, t: State, c: Rewrite, l: nat, x: File, y: File)
    requires LevelsOk(s) && Rewritten(s, t, c) && 0 < l < NUM_LEVELS
    requires Member(s, c, l, x) && Member(s, c, l, y) && x != y
    ensures Apart(x, y)
  {
    assert LevelOk(l, s.levels[l]);
    if l == c.level + 1 && x in c.outputs {
      if y in c.outputs {
        LevelApart(c.outputs, x, y);
      } else {
        LeftoverAside(s, c, y);
        OutputRange(s, t, c, x);
      }
    } else if l == c.level + 1 && y in c.outputs {
      LeftoverAside(s, c, x);
      OutputRange(s, t, c, y);
    } else {
      LevelApart(s.levels[l], x, y);
    }
  }

  // --------------------------------------------------------------------- order

  lemma MovedIsOlder(history: seq<Entry>, files: seq<File>, inputs: seq<File>, e: Entry, x: Entry)
    requires Rising(history) && e in history && x in history
    requires ClosedForOlder(files, inputs) && InLeftover(files, inputs, e) && InFiles(inputs, x)
    ensures Newer(e, x)
  {
    var f :| f in inputs && x in f.entries;
    var g :| g in files && g !in inputs && e in g.entries;
    if e.key.user == x.key.user && e.key.seqno == x.key.seqno {
      OneSeqno(history, e, x);
    }
    assert e.key.user == x.key.user ==> Less(e.key, x.key);
  }

  lemma FirstInputClosed(s: State, c: Rewrite)
    requires LevelsOk(s) && ChosenInputs(s, c)
    ensures ClosedForOlder(s.levels[c.level], c.inputs0)
    ensures forall f | f in c.inputs0 :: f in s.levels[c.level]
  {
    assert LevelOk(c.level, s.levels[c.level]);
    SeedIsClosed(c.level, s.levels[c.level], c.inputs0);
  }

  lemma PairOrder(s: State, t: State, c: Rewrite, e: Entry, d1: nat, x: Entry, d2: nat)
    requires DepthOrder(s) && HistoryOk(s) && Moved(s, t, c)
    requires ClosedForOlder(s.levels[c.level], c.inputs0)
    requires At(t, e, d1) && At(t, x, d2) && d1 < d2
    ensures Newer(e, x)
  {
    RewriteAt(s, t, c, e, d1);
    RewriteAt(s, t, c, x, d2);
    OrderOfPlaces(s, c, e, d1, x, d2);
  }

  /** `d` is where `e` was, or one place below the first input it was in. */
  ghost predicate CameFrom(s: State, c: Rewrite, e: Entry, d: nat) {
    && (At(s, e, d) || (d == c.level + 3 && At(s, e, c.level + 2) && InFiles(c.inputs0, e)))
    && (d == c.level + 2 ==> c.level < NUM_LEVELS && InLeftover(s.levels[c.level], c.inputs0, e))
  }

  lemma OrderOfPlaces(s: State, c: Rewrite, e: Entry, d1: nat, x: Entry, d2: nat)
    requires DepthOrder(s) && HistoryOk(s) && c.level < NUM_LEVELS && ClosedForOlder(s.levels[c.level], c.inputs0)
    requires CameFrom(s, c, e, d1) && CameFrom(s, c, x, d2) && d1 < d2
    ensures Newer(e, x)
  {
    if !At(s, x, d2) && d1 == c.level + 2 {
      assert At(s, e, d1);
      MovedIsOlder(s.history, s.levels[c.level], c.inputs0, e, x);
    }
  }

  lemma RewriteOrder(s: State, t: State, c: Rewrite)
    requires Shape(s) && Rewritten(s, t, c)
    ensures DepthOrder(t) && Level0Order(t.levels[0])
  {
    FirstInputClosed(s, c);
    RewriteMembers(s, t, c);
    forall e, x, d1: nat, d2: nat | At(t, e, d1) && At(t, x, d2) && d1 < d2
      ensures Newer(e, x)
    {
      PairOrder(s, t, c, e, d1, x, d2);
    }
    assert forall f | f in t.levels[0] :: Member(s, c, 0, f) && f in s.levels[0];
  }

  lemma RewriteKeepsShape(s: State, t: State, c: Rewrite)
    requires Shape(s) && Rewritten(s, t, c)
    ensures Shape(t)
  {
    RewriteLevels(s, t, c);
    RewriteOrder(s, t, c);
    RewriteMembers(s, t, c);
    forall e, d: nat | At(t, e, d)
      ensures e in t.history
    {
      RewriteAt(s, t, c, e, d);
    }
  }
}
