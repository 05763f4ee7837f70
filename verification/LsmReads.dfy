/** What a compaction does to reads: exactly which compactions keep every one of them. */
module LsmReads {
  import opened Keys
  import opened Files
  import opened Inputs
  import opened VersionBuilder
  import opened Compaction
  import opened Lsm
  import opened LsmCompaction

  /** The sequence the merging iterator over all input files yields. */
  ghost predicate MergedInput(c: Rewrite, input: seq<Entry>) {
    Sorted(input) && forall e :: e in input <==> FromInputs(c, e)
  }

  ghost predicate IsKept(s: State, c: Rewrite, input: seq<Entry>, snapshot: nat, e: Entry) {
    e in Kept(s.levels, c.level, input, snapshot, |input|)
  }

  /** A compaction with oldest snapshot `snapshot`. */
  ghost predicate Compacted(s: State, t: State, c: Rewrite, input: seq<Entry>, snapshot: nat) {
    && Rewritten(s, t, c) && MergedInput(c, input)
    && (forall e :: InFiles(c.outputs, e) <==> IsKept(s, c, input, snapshot, e))
    && t.horizon == snapshot && s.horizon <= snapshot <= s.last
  }

  /** Moving files without looking inside. */
  ghost predicate MovedAsIs(s: State, t: State, c: Rewrite) {
    && Rewritten(s, t, c) && c.outputs == c.inputs0 && c.inputs1 == [] && t.horizon == s.horizon
  }

  // ------------------------------------------------------------------ contents

  lemma InputsAreIn(s: State, c: Rewrite, e: Entry)
    requires c.level + 1 < NUM_LEVELS && FromInputs(c, e)
    requires forall f | f in c.inputs0 :: f in s.levels[c.level]
    requires forall f | f in c.inputs1 :: f in s.levels[c.level + 1]
    ensures InFiles(c.inputs0, e) ==> At(s, e, c.level + 2)
    ensures InFiles(c.inputs1, e) ==> At(s, e, c.level + 3)
  {
  }

  /** Entries outside the inputs stay; inputs stay exactly when they reach an output. */
  lemma SurvivorsIn(s: State, t: State, c: Rewrite, e: Entry)
    requires Moved(s, t, c) && In(s, e) && (FromInputs(c, e) ==> InFiles(c.outputs, e))
    ensures In(t, e)
  {
    if InFiles(c.outputs, e) {
      var o :| o in c.outputs && e in o.entries;
      assert Member(s, c, c.level + 1, o);
      assert At(t, e, c.level + 3);
    } else {
      var d: nat :| At(s, e, d);
      if d >= 2 {
        var f :| f in s.levels[d - 2] && e in f.entries;
        assert Member(s, c, d - 2, f);
        assert f in t.levels[d - 2];
      }
      assert At(t, e, d);
    }
  }

  lemma OnePlace(s: State, l: nat, m: nat, f: File, g: File, e: Entry)
    requires Shape(s) && l < NUM_LEVELS && m < NUM_LEVELS && f in s.levels[l] && g in s.levels[m]
    requires e in f.entries && e in g.entries
    ensures l == m && f == g
  {
    assert At(s, e, l + 2) && At(s, e, m + 2);
    assert !Newer(e, e);
    assert !SameNumber(f, g) || (l == m && f == g);
    if l == m && f != g {
      assert LevelOk(l, s.levels[l]);
      if l != 0 {
        DisjointOrder(s.levels[l], f, g);
        EntryInRange(f, e);
        EntryInRange(g, e);
      }
    }
  }

  lemma NotInMemory(s: State, l: nat, f: File, e: Entry)
    requires DepthOrder(s) && l < NUM_LEVELS && f in s.levels[l] && e in f.entries
    ensures !At(s, e, 0) && !At(s, e, 1)
  {
    assert At(s, e, l + 2);
    assert !Newer(e, e);
  }

  lemma DroppedGoneAt(s: State, t: State, c: Rewrite, l: nat, f: File, e: Entry, d: nat)
    requires Shape(s) && Moved(s, t, c) && e in f.entries && !InFiles(c.outputs, e)
    requires l < NUM_LEVELS && f in s.levels[l]
    requires (l == c.level && f in c.inputs0) || (l == c.level + 1 && f in c.inputs1)
    ensures !At(t, e, d)
  {
    if d < 2 {
      NotInMemory(s, l, f, e);
      assert At(t, e, d) ==> At(s, e, d);
    } else if d < 2 + NUM_LEVELS {
      forall x | x in t.levels[d - 2]
        ensures e !in x.entries
      {
        assert Member(s, c, d - 2, x);
        if e in x.entries && x !in c.outputs {
          OnePlace(s, l, d - 2, f, x, e);
        }
      }
    }
  }

  lemma DroppedGone(s: State, t: State, c: Rewrite, e: Entry)
    requires Shape(s) && Moved(s, t, c) && FromInputs(c, e) && !InFiles(c.outputs, e)
    ensures !In(t, e)
  {
    var l := if InFiles(c.inputs0, e) then c.level else c.level + 1;
    var f :| f in (if l == c.level then c.inputs0 else c.inputs1) && e in f.entries;
    forall d: nat
      ensures !At(t, e, d)
    {
      DroppedGoneAt(s, t, c, l, f, e, d);
    }
  }

  // --------------------------------------------------------------------- reads

  /** The compaction is about to expose an older value: it drops the deletion marker `x`, the
      newest entry of its user key, while `y` stays in the next level outside the inputs. */
  ghost predicate Exposes(s: State, c: Rewrite, snapshot: nat, x: Entry, y: Entry)
    requires c.level + 1 < NUM_LEVELS
  {
    && FromInputs(c, x) && x.key.kind == Deletion && x.key.seqno <= snapshot
    && BaseLevel(s.levels, c.level, x.key.user)
    && (forall e, d | At(s, e, d) && Visible(e, x.key.user, snapshot) :: e.key.seqno <= x.key.seqno)
    && Remains(s, c, y) && y.key.kind == Value && Visible(y, x.key.user, snapshot)
    && (forall z | Remains(s, c, z) && Visible(z, x.key.user, snapshot) :: z.key.seqno <= y.key.seqno)
  }

  ghost predicate Remains(s: State, c: Rewrite, e: Entry)
    requires c.level + 1 < NUM_LEVELS
  {
    InLeftover(s.levels[c.level + 1], c.inputs1, e)
  }

  ghost predicate Resurrects(s: State, c: Rewrite, snapshot: nat)
    requires c.level + 1 < NUM_LEVELS
  {
    exists x, y :: Exposes(s, c, snapshot, x, y)
  }

  ghost predicate ReadsPreserved(s: State, t: State, snapshot: nat) {
    forall user, n, r, q | snapshot <= n && Newest(s, user, n, r) && Newest(t, user, n, q) ::
      ValueOf(r) == ValueOf(q)
  }

  /** Below an input entry, and outside the inputs, there is only what remains of the next
      level and what is deeper. */
  lemma OlderPlaces(s: State, t: State, c: Rewrite, x: Entry, g: Entry, d: nat)
    requires DepthOrder(s) && HistoryOk(s) && Moved(s, t, c)
    requires ClosedForOlder(s.levels[c.level], c.inputs0)
    requires FromInputs(c, x) && !FromInputs(c, g) && At(t, g, d)
    requires g.key.user == x.key.user && g.key.seqno < x.key.seqno
    ensures d >= c.level + 3 && At(s, g, d)
    ensures d == c.level + 3 ==> Remains(s, c, g)
  {
    RewriteAt(s, t, c, g, d);
    InputsAreIn(s, c, x);
    OlderIsDeeper(s, c, x, g, d);
    if d == c.level + 3 {
      var f :| f in s.levels[c.level + 1] && g in f.entries;
      assert f !in c.inputs1;
    }
  }

  lemma OlderIsDeeper(s: State, c: Rewrite, x: Entry, g: Entry, d: nat)
    requires DepthOrder(s) && HistoryOk(s) && c.level < NUM_LEVELS && ClosedForOlder(s.levels[c.level], c.inputs0)
    requires CameFrom(s, c, g, d) && !InFiles(c.inputs0, g) && !Newer(g, x)
    requires (At(s, x, c.level + 2) && InFiles(c.inputs0, x)) || At(s, x, c.level + 3)
    ensures d >= c.level + 3 && At(s, g, d)
  {
    if d == c.level + 2 && InFiles(c.inputs0, x) {
      MovedIsOlder(s.history, s.levels[c.level], c.inputs0, g, x);
    }
  }

  lemma NothingDeeper(s: State, level: nat, g: Entry, d: nat)
    requires LevelsOk(s) && BaseLevel(s.levels, level, g.key.user) && level + 4 <= d
    ensures !At(s, g, d)
  {
    if At(s, g, d) {
      assert LevelOk(d - 2, s.levels[d - 2]);
      var f :| f in s.levels[d - 2] && g in f.entries;
      EntryInRange(f, g);
      assert Covers(f, g.key.user);
    }
  }

  lemma HiddenIsDropped(s: State, t: State, c: Rewrite, input: seq<Entry>, snapshot: nat, x: Entry, g: Entry)
    requires MergedInput(c, input) && UniqueSeqnos(input)
    requires forall e :: InFiles(c.outputs, e) <==> IsKept(s, c, input, snapshot, e)
    requires FromInputs(c, x) && Visible(x, g.key.user, snapshot) && g.key.seqno < x.key.seqno
    ensures !InFiles(c.outputs, g)
  {
    KeptMeaning(s.levels, c.level, input, snapshot, g);
    assert x in input;
  }

  /** What lies below an unshadowed marker about to be dropped is only what remains of the
      next level. */
  lemma OlderSurvivors(s: State, t: State, c: Rewrite, input: seq<Entry>, snapshot: nat, x: Entry, g: Entry)
    requires Shape(s) && Compacted(s, t, c, input, snapshot)
    requires FromInputs(c, x) && x.key.seqno <= snapshot && BaseLevel(s.levels, c.level, x.key.user)
    requires In(t, g) && g.key.user == x.key.user && g.key.seqno < x.key.seqno
    ensures Remains(s, c, g)
  {
    RewriteMembers(s, t, c);
    InputUnique(s, c, input);
    HiddenIsDropped(s, t, c, input, snapshot, x, g);
    if FromInputs(c, g) {
      DroppedGone(s, t, c, g);
    }
    FirstInputClosed(s, c);
    var d: nat :| At(t, g, d);
    OlderPlaces(s, t, c, x, g, d);
    if d > c.level + 3 {
      NothingDeeper(s, c.level, g, d);
    }
  }

  lemma InputUnique(s: State, c: Rewrite, input: seq<Entry>)
    requires HistoryOk(s) && c.level + 1 < NUM_LEVELS && MergedInput(c, input)
    requires forall f | f in c.inputs0 :: f in s.levels[c.level]
    requires forall f | f in c.inputs1 :: f in s.levels[c.level + 1]
    ensures UniqueSeqnos(input)
  {
    forall e | e in input
      ensures e in s.history
    {
      InputsAreIn(s, c, e);
      assert At(s, e, c.level + 2) || At(s, e, c.level + 3);
    }
  }

  lemma RemainsIn(s: State, t: State, c: Rewrite, e: Entry)
    requires Moved(s, t, c) && Remains(s, c, e)
    ensures In(t, e)
  {
    var g :| g in s.levels[c.level + 1] && g !in c.inputs1 && e in g.entries;
    assert Member(s, c, c.level + 1, g);
    assert At(t, e, c.level + 3);
  }

  lemma SubsetIn(s: State, t: State, c: Rewrite, e: Entry)
    requires Moved(s, t, c) && In(t, e)
    ensures In(s, e)
  {
    var d: nat :| At(t, e, d);
    RewriteAt(s, t, c, e, d);
  }

  /** A newest entry that gets dropped is a deletion marker with nothing deeper. */
  lemma DroppedMarker(s: State, t: State, c: Rewrite, input: seq<Entry>, snapshot: nat, n: nat, x: Entry)
    requires HistoryOk(s) && Moved(s, t, c) && MergedInput(c, input) && snapshot <= n
    requires forall e :: InFiles(c.outputs, e) <==> IsKept(s, c, input, snapshot, e)
    requires Newest(s, x.key.user, n, Some(x)) && FromInputs(c, x) && !InFiles(c.outputs, x)
    ensures x.key.kind == Deletion && x.key.seqno <= snapshot && BaseLevel(s.levels, c.level, x.key.user)
  {
    InputUnique(s, c, input);
    UnshadowedNewest(s, c, input, snapshot, n, x);
    KeptMeaning(s.levels, c.level, input, snapshot, x);
  }

  lemma DroppedRead(s: State, t: State, c: Rewrite, input: seq<Entry>, snapshot: nat, n: nat, x: Entry, y: Entry)
    requires Shape(s) && Compacted(s, t, c, input, snapshot) && !Resurrects(s, c, snapshot)
    requires snapshot <= n && Newest(s, x.key.user, n, Some(x)) && Newest(t, x.key.user, n, Some(y))
    requires FromInputs(c, x) && !InFiles(c.outputs, x)
    ensures y.key.kind == Deletion
  {
    RewriteMembers(s, t, c);
    DroppedMarker(s, t, c, input, snapshot, n, x);
    DroppedGone(s, t, c, x);
    SubsetIn(s, t, c, y);
    DistinctSeqnos(s, x, y);
    OlderSurvivors(s, t, c, input, snapshot, x, y);
    ExposedValue(s, t, c, snapshot, n, x, y);
  }

  lemma KeptRead(s: State, t: State, c: Rewrite, user: UserKey, n: nat, r: Option<Entry>, q: Option<Entry>)
    requires HistoryOk(s) && Moved(s, t, c) && Newest(s, user, n, r) && Newest(t, user, n, q)
    requires r.Some? ==> !FromInputs(c, r.value) || InFiles(c.outputs, r.value)
    ensures r == q
  {
    if q.Some? {
      SubsetIn(s, t, c, q.value);
    }
    if r.Some? {
      SurvivorsIn(s, t, c, r.value);
      DistinctSeqnos(s, r.value, q.value);
    }
  }

  lemma ReadsPreservedAt(s: State, t: State, c: Rewrite, input: seq<Entry>, snapshot: nat,
                         user: UserKey, n: nat, r: Option<Entry>, q: Option<Entry>)
    requires Shape(s) && Compacted(s, t, c, input, snapshot) && !Resurrects(s, c, snapshot)
    requires snapshot <= n && Newest(s, user, n, r) && Newest(t, user, n, q)
    ensures ValueOf(r) == ValueOf(q)
  {
    RewriteMembers(s, t, c);
    if r.Some? && FromInputs(c, r.value) && !InFiles(c.outputs, r.value) {
      DroppedMarker(s, t, c, input, snapshot, n, r.value);
      if q.Some? {
        DroppedRead(s, t, c, input, snapshot, n, r.value, q.value);
      }
    } else {
      KeptRead(s, t, c, user, n, r, q);
    }
  }

  lemma DistinctSeqnos(s: State, x: Entry, y: Entry)
    requires HistoryOk(s) && In(s, x) && In(s, y)
    ensures x.key.seqno == y.key.seqno ==> x == y
  {
    assert x in s.history && y in s.history;
  }

  lemma UnshadowedNewest(s: State, c: Rewrite, input: seq<Entry>, snapshot: nat, n: nat, x: Entry)
    requires c.level + 1 < NUM_LEVELS && MergedInput(c, input) && snapshot <= n
    requires forall f | f in c.inputs0 :: f in s.levels[c.level]
    requires forall f | f in c.inputs1 :: f in s.levels[c.level + 1]
    requires Newest(s, x.key.user, n, Some(x))
    ensures !Shadowed(input, snapshot, x)
  {
    forall d | d in input && Visible(d, x.key.user, snapshot)
      ensures d.key.seqno <= x.key.seqno
    {
      InputsAreIn(s, c, d);
      assert At(s, d, c.level + 2) || At(s, d, c.level + 3);
    }
  }

  lemma ExposedValue(s: State, t: State, c: Rewrite, snapshot: nat, n: nat, x: Entry, y: Entry)
    requires Moved(s, t, c) && snapshot <= n && Remains(s, c, y) && !Resurrects(s, c, snapshot)
    requires FromInputs(c, x) && x.key.kind == Deletion && x.key.seqno <= snapshot
    requires BaseLevel(s.levels, c.level, x.key.user)
    requires Newest(s, x.key.user, n, Some(x)) && Newest(t, x.key.user, n, Some(y)) && y.key.seqno < x.key.seqno
    ensures y.key.kind == Deletion
  {
    forall z | Remains(s, c, z) && Visible(z, x.key.user, snapshot)
      ensures z.key.seqno <= y.key.seqno
    {
      RemainsIn(s, t, c, z);
    }
    assert !Exposes(s, c, snapshot, x, y);
  }

  lemma ResurrectedRead(s: State, t: State, c: Rewrite, input: seq<Entry>, snapshot: nat, x: Entry, y: Entry)
    requires Shape(s) && Compacted(s, t, c, input, snapshot) && Exposes(s, c, snapshot, x, y)
    ensures Newest(s, x.key.user, snapshot, Some(x)) && Newest(t, x.key.user, snapshot, Some(y))
  {
    RewriteMembers(s, t, c);
    InputsAreIn(s, c, x);
    assert At(s, x, c.level + 2) || At(s, x, c.level + 3);
    InputUnique(s, c, input);
    assert Newest(s, x.key.user, snapshot, Some(x));
    KeptMeaning(s.levels, c.level, input, snapshot, x);
    DroppedGone(s, t, c, x);
    RemainsIn(s, t, c, y);
    forall e, d | At(t, e, d) && Visible(e, x.key.user, snapshot)
      ensures e.key.seqno <= y.key.seqno
    {
      assert In(t, e);
      SubsetIn(s, t, c, e);
      DistinctSeqnos(s, x, e);
      OlderSurvivors(s, t, c, input, snapshot, x, e);
    }
  }

  /** A compaction keeps every read at or above its oldest snapshot exactly when it exposes no
      older value. */
  lemma CompactionPreservesReads(s: State, t: State, c: Rewrite, input: seq<Entry>, snapshot: nat)
    requires Shape(s) && Compacted(s, t, c, input, snapshot)
    ensures ReadsPreserved(s, t, snapshot) <==> !Resurrects(s, c, snapshot)
  {
    if Resurrects(s, c, snapshot) {
      ResurrectionBreaksReads(s, t, c, input, snapshot);
    } else {
      forall user, n, r, q | snapshot <= n && Newest(s, user, n, r) && Newest(t, user, n, q)
        ensures ValueOf(r) == ValueOf(q)
      {
        ReadsPreservedAt(s, t, c, input, snapshot, user, n, r, q);
      }
    }
  }

  lemma ResurrectionBreaksReads(s: State, t: State, c: Rewrite, input: seq<Entry>, snapshot: nat)
    requires Shape(s) && Compacted(s, t, c, input, snapshot) && Resurrects(s, c, snapshot)
    ensures !ReadsPreserved(s, t, snapshot)
  {
    var x, y :| Exposes(s, c, snapshot, x, y);
    ResurrectedRead(s, t, c, input, snapshot, x, y);
    BrokenRead(s, t, snapshot, x.key.user, x, y);
  }

  lemma BrokenRead(s: State, t: State, snapshot: nat, user: UserKey, x: Entry, y: Entry)
    requires Newest(s, user, snapshot, Some(x)) && Newest(t, user, snapshot, Some(y))
    requires x.key.kind == Deletion && y.key.kind == Value
    ensures !ReadsPreserved(s, t, snapshot)
  {
    assert ValueOf(Some(x)) != ValueOf(Some(y));
  }

  /** A check on the chosen files that rules the failure out: the second input, like the
      first, ends between user keys. */
  lemma BoundaryClosedIsSafe(s: State, c: Rewrite, snapshot: nat)
    requires Shape(s) && ChosenInputs(s, c)
    requires NoBoundaryLeft(s.levels[c.level + 1], c.inputs1)
    ensures !Resurrects(s, c, snapshot)
  {
    if c.inputs1 != [] {
      assert LevelOk(c.level + 1, s.levels[c.level + 1]);
      SecondInputSeed(s, c);
      SeedIsClosed(c.level + 1, s.levels[c.level + 1], c.inputs1);
    }
    forall x, y | Exposes(s, c, snapshot, x, y)
      ensures false
    {
      NotExposed(s, c, snapshot, x, y);
    }
  }

  lemma NotExposed(s: State, c: Rewrite, snapshot: nat, x: Entry, y: Entry)
    requires LevelsOk(s) && HistoryOk(s) && ChosenInputs(s, c)
    requires ClosedForOlder(s.levels[c.level + 1], c.inputs1)
    ensures !Exposes(s, c, snapshot, x, y)
  {
    if Exposes(s, c, snapshot, x, y) {
      if InFiles(c.inputs0, x) {
        NotBelowFirst(s, c, x, y);
      } else {
        InputsAreFiles(s, c);
        InputsAreIn(s, c, x);
        NotBelowSecond(s, c, snapshot, x, y);
      }
    }
  }

  lemma NotBelowFirst(s: State, c: Rewrite, x: Entry, y: Entry)
    requires LevelsOk(s) && ChosenInputs(s, c) && InFiles(c.inputs0, x) && Remains(s, c, y)
    ensures x.key.user != y.key.user
  {
    var g :| g in s.levels[c.level + 1] && g !in c.inputs1 && y in g.entries;
    LeftoverAside(s, c, g);
    assert LevelOk(c.level + 1, s.levels[c.level + 1]);
    EntryInRange(g, y);
  }

  lemma NotBelowSecond(s: State, c: Rewrite, snapshot: nat, x: Entry, y: Entry)
    requires HistoryOk(s) && c.level + 1 < NUM_LEVELS && ClosedForOlder(s.levels[c.level + 1], c.inputs1)
    requires InFiles(c.inputs1, x) && At(s, x, c.level + 3)
    ensures !Exposes(s, c, snapshot, x, y)
  {
    if Remains(s, c, y) && x.key.user == y.key.user && x.key.kind == Deletion && y.key.kind == Value {
      assert At(s, y, c.level + 3);
      DistinctSeqnos(s, x, y);
      if y.key.seqno <= x.key.seqno {
        MarkerNotAbove(s.levels[c.level + 1], c.inputs1, x, y);
      }
    }
  }

  lemma MarkerNotAbove(files: seq<File>, inputs: seq<File>, x: Entry, y: Entry)
    requires ClosedForOlder(files, inputs) && InFiles(inputs, x) && InLeftover(files, inputs, y)
    requires x.key.user == y.key.user && y.key.seqno <= x.key.seqno && x.key.kind == Deletion && y.key.kind == Value
    ensures x.key.seqno == y.key.seqno
  {
    var f :| f in inputs && x in f.entries;
    var g :| g in files && g !in inputs && y in g.entries;
    assert Less(y.key, x.key);
  }

  lemma SecondInputSeed(s: State, c: Rewrite)
    requires LevelsOk(s) && ChosenInputs(s, c) && c.inputs1 != []
    ensures Seed(c.level + 1, s.levels[c.level + 1], c.inputs1)
  {
    var files := s.levels[c.level + 1];
    assert LevelOk(c.level + 1, files);
    var a, b :| IsRange(c.inputs0, a, b) && c.inputs1 == Select(files, Some(a.user), Some(b.user));
    SelectionIsSeed(c.level + 1, files, Some(a.user), Some(b.user));
  }

  // ------------------------------------------------------------------ invariant

  lemma {:induction false} NewestOf(s: State, user: UserKey, n: nat, k: nat) returns (r: Option<Entry>)
    requires k <= |s.history|
    ensures match r
            case None => forall i | 0 <= i < k :: !(In(s, s.history[i]) && Visible(s.history[i], user, n))
            case Some(x) => In(s, x) && Visible(x, user, n)
                            && forall i | 0 <= i < k && In(s, s.history[i]) && Visible(s.history[i], user, n) ::
                                 s.history[i].key.seqno <= x.key.seqno
  {
    if k == 0 {
      r := None;
    } else {
      r := NewestOf(s, user, n, k - 1);
      var e := s.history[k - 1];
      if In(s, e) && Visible(e, user, n) && (r.None? || r.value.key.seqno < e.key.seqno) {
        r := Some(e);
      }
    }
  }

  lemma NewestExists(s: State, user: UserKey, n: nat) returns (r: Option<Entry>)
    requires HistoryOk(s)
    ensures Newest(s, user, n, r)
  {
    r := NewestOf(s, user, n, |s.history|);
    forall e, d | At(s, e, d) && Visible(e, user, n)
      ensures r.Some? && e.key.seqno <= r.value.key.seqno
    {
      assert In(s, e);
      var i :| 0 <= i < |s.history| && s.history[i] == e;
    }
  }

  /** Hence the database invariant survives a compaction exactly when it exposes nothing. */
  lemma CompactionKeepsInv(s: State, t: State, c: Rewrite, input: seq<Entry>, snapshot: nat)
    requires Inv(s) && Compacted(s, t, c, input, snapshot)
    requires forall n | n in s.snapshots :: snapshot <= n
    ensures Inv(t) <==> !Resurrects(s, c, snapshot)
  {
    RewriteKeepsShape(s, t, c);
    CompactionPreservesReads(s, t, c, input, snapshot);
    if ReadsPreserved(s, t, snapshot) {
      forall user, n, q | t.horizon <= n && Newest(t, user, n, q)
        ensures ValueOf(q) == HistoryLookup(t.history, user, n)
      {
        var r := NewestExists(s, user, n);
      }
    }
  }

  lemma MoveKeepsInv(s: State, t: State, c: Rewrite)
    requires Inv(s) && MovedAsIs(s, t, c)
    ensures Inv(t)
  {
    RewriteKeepsShape(s, t, c);
    RewriteMembers(s, t, c);
    forall e
      ensures In(t, e) <==> In(s, e)
    {
      if In(s, e) {
        SurvivorsIn(s, t, c, e);
      }
      if In(t, e) {
        SubsetIn(s, t, c, e);
      }
    }
    SameContents(s, t);
  }
}
