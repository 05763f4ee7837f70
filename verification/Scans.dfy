/** A scan of the whole database (NewInternalIterator in db/db_impl.cc, AddIterators in
    db/version_set.cc, DBIter on top) shows exactly the map the write history defines. */
module Scans {
  import opened Keys
  import opened Files
  import opened Inputs
  import opened VersionBuilder
  import opened Compaction
  import opened Lsm
  import opened Runs
  import opened DbImpl
  import Merger
  import DbIter

  /** The children for depth `d`: a memtable, one run per level-0 file, or one run per level. */
  function RunsAt(s: State, d: nat): seq<seq<Entry>>
    requires d < 2 + NUM_LEVELS
  {
    if d == 0 then [s.mem]
    else if d == 1 then (if s.imm.Some? then [s.imm.value] else [])
    else InputRuns(d - 2, s.levels[d - 2])
  }

  function RunsAbove(s: State, d: nat): seq<seq<Entry>>
    requires d <= 2 + NUM_LEVELS
  {
    if d == 0 then [] else RunsAbove(s, d - 1) + RunsAt(s, d - 1)
  }

  lemma RunsAtDepth(s: State, d: nat)
    requires Shape(s) && d < 2 + NUM_LEVELS
    ensures Merger.DistinctRuns(RunsAt(s, d))
    ensures forall e :: Merger.InSome(RunsAt(s, d), e) <==> At(s, e, d)
  {
    if d < 2 {
      assert |RunsAt(s, d)| <= 1;
      assert d == 0 ==> RunsAt(s, d)[0] == s.mem;
      assert d == 1 && s.imm.Some? ==> RunsAt(s, d)[0] == ImmEntries(s);
    } else {
      LevelFilesOk(s, d - 2);
      RunsOfLevel(d - 2, s.levels[d - 2]);
      LevelRunsDistinct(s, d - 2, s.levels[d - 2]);
    }
  }

  lemma LevelFilesOk(s: State, l: nat)
    requires LevelsOk(s) && l < NUM_LEVELS
    ensures WfFiles(s.levels[l]) && Distinct(s.levels[l]) && (l > 0 ==> Disjoint(s.levels[l]))
  {
    assert LevelOk(l, s.levels[l]);
  }

  lemma {:induction false} RunsAboveHold(s: State, d: nat)
    requires Shape(s) && d <= 2 + NUM_LEVELS
    ensures forall e :: Merger.InSome(RunsAbove(s, d), e) <==> exists k: nat :: k < d && At(s, e, k)
  {
    if d > 0 {
      RunsAboveHold(s, d - 1);
      RunsAtDepth(s, d - 1);
      forall e
        ensures Merger.InSome(RunsAbove(s, d), e) <==> exists k: nat :: k < d && At(s, e, k)
      {
        InEither(RunsAbove(s, d - 1), RunsAt(s, d - 1), e);
      }
    }
  }

  lemma {:induction false} RunsAboveDistinct(s: State, d: nat)
    requires Shape(s) && d <= 2 + NUM_LEVELS
    ensures Merger.DistinctRuns(RunsAbove(s, d))
  {
    if d > 0 {
      RunsAboveDistinct(s, d - 1);
      RunsAtDepth(s, d - 1);
      RunsBelowDiffer(s, d - 1);
      Merger.AppendRuns(RunsAbove(s, d - 1), RunsAt(s, d - 1));
    }
  }

  lemma RunsBelowDiffer(s: State, d: nat)
    requires Shape(s) && d < 2 + NUM_LEVELS
    ensures forall e, x | Merger.InSome(RunsAbove(s, d), e) && Merger.InSome(RunsAt(s, d), x) :: e.key != x.key
  {
    RunsAboveHold(s, d);
    RunsAtDepth(s, d);
    forall e, x | Merger.InSome(RunsAbove(s, d), e) && Merger.InSome(RunsAt(s, d), x)
      ensures e.key != x.key
    {
      var k: nat :| k < d && At(s, e, k);
      DepthsDiffer(s, e, k, x, d);
    }
  }

  lemma DepthsDiffer(s: State, e: Entry, d1: nat, x: Entry, d2: nat)
    requires DepthOrder(s) && At(s, e, d1) && At(s, x, d2) && d1 < d2
    ensures e.key != x.key
  {
    assert Newer(e, x);
  }

  /** The children together hold everything stored. */
  lemma AllRuns(s: State)
    requires Shape(s)
    ensures var runs := RunsAbove(s, 2 + NUM_LEVELS);
            Merger.IsUnion(Merger.Union(runs), runs) && AllEntries(s, Merger.Union(runs))
  {
    var runs := RunsAbove(s, 2 + NUM_LEVELS);
    RunsAboveHold(s, 2 + NUM_LEVELS);
    RunsAboveDistinct(s, 2 + NUM_LEVELS);
    Merger.UnionIs(runs);
    forall e
      ensures e in Merger.Union(runs) <==> In(s, e)
    {
      assert e in Merger.Union(runs) <==> Merger.InSome(runs, e);
      assert forall k: nat | At(s, e, k) :: k < 2 + NUM_LEVELS;
    }
  }

  method InternalRuns(db: DBImpl) returns (list: seq<seq<Entry>>)
    ensures list == RunsAbove(db.Model(), 2 + NUM_LEVELS)
  {
    ghost var s := db.Model();
    list := [db.mem];
    if db.imm.Some? {
      list := list + [db.imm.value];
    }
    assert RunsAbove(s, 1) == RunsAt(s, 0) == [db.mem];
    assert list == RunsAbove(s, 2);
    for level := 0 to NUM_LEVELS
      invariant list == RunsAbove(s, 2 + level)
    {
      list := list + InputRuns(level, db.levels[level]);
    }
  }

  /** Opens an iterator on memtables and files; it stands on no entry. */
  method NewInternalIterator(db: DBImpl) returns (iter: Merger.MergingIterator)
    requires Shape(db.Model())
    ensures fresh(iter) && iter.Valid() && iter.pos == |iter.merged| && AllEntries(db.Model(), iter.merged)
    ensures forall i | 0 <= i < |iter.children| :: fresh(iter.children[i])
  {
    var list := InternalRuns(db);
    AllRuns(db.Model());
    var children := Children(list);
    ghost var merged := Merger.Union(list);
    assert list == seq(|children|, i requires 0 <= i < |children| => children[i].entries);
    iter := new Merger.MergingIterator(children, merged);
  }

  // ----------------------------------------------------------------- the user's rows

  ghost function RowAt(es: seq<Entry>, n: nat, k: nat): (UserKey, Bytes)
    requires k < |DbIter.View(es, n, |es|)|
  {
    var i := DbIter.View(es, n, |es|)[k];
    DbIter.ViewIs(es, n, |es|);
    assert i in DbIter.View(es, n, |es|);
    (es[i].key.user, es[i].value)
  }

  /** Some row of the view is this one. */
  ghost predicate Shown(es: seq<Entry>, n: nat, user: UserKey, value: Bytes) {
    exists k :: 0 <= k < |DbIter.View(es, n, |es|)| && RowAt(es, n, k) == (user, value)
  }

  /** The view shows exactly what lookups find. */
  lemma ShownIsFound(es: seq<Entry>, n: nat, user: UserKey, value: Bytes)
    requires Sorted(es)
    ensures Shown(es, n, user, value) <==> ValueOf(Find(es, user, n)) == Some(value)
  {
    var view := DbIter.View(es, n, |es|);
    DbIter.ViewIs(es, n, |es|);
    if Shown(es, n, user, value) {
      var k :| 0 <= k < |view| && RowAt(es, n, k) == (user, value);
      assert view[k] in view;
      DbIter.ViewIsLookup(es, n, view[k]);
    }
    if ValueOf(Find(es, user, n)) == Some(value) {
      var i := LowerBound(es, LookupKey(user, n));
      DbIter.ViewIsLookup(es, n, i);
      assert i in view;
      var k :| 0 <= k < |view| && view[k] == i;
      assert RowAt(es, n, k) == (user, value);
    }
  }

  /** The rows of the view are exactly the keys the history gives a value, with their values. */
  ghost predicate IsHistoryView(es: seq<Entry>, n: nat, history: seq<Entry>) {
    Sorted(es) && forall user, value :: Shown(es, n, user, value) <==> HistoryLookup(history, user, n) == Some(value)
  }

  lemma HistoryView(s: State, es: seq<Entry>, n: nat)
    requires Inv(s) && Sorted(es) && AllEntries(s, es) && (n in s.snapshots || n == s.last)
    ensures IsHistoryView(es, n, s.history)
  {
    forall user, value
      ensures Shown(es, n, user, value) <==> HistoryLookup(s.history, user, n) == Some(value)
    {
      ShownIsFound(es, n, user, value);
      ScanIsHistory(s, es, user, n);
    }
  }

  /** The user's iterator on the whole database, at a live snapshot or at the last sequence
      number: it moves over the live merging iterator, and its rows are what the history says. */
  method NewIterator(db: DBImpl, snapshot: Option<nat>) returns (iter: DbIter.DBIter)
    requires db.Valid() && (snapshot.Some? ==> snapshot.value in db.snapshots)
    ensures iter.Valid() && !iter.valid && fresh(iter) && fresh(iter.iter)
    ensures forall i | 0 <= i < |iter.iter.children| :: fresh(iter.iter.children[i])
    ensures var n := if snapshot.Some? then snapshot.value else db.lastSequence;
            iter.sequence == n && IsHistoryView(iter.iter.merged, n, db.history)
  {
    var n := if snapshot.Some? then snapshot.value else db.lastSequence;
    var internal := NewInternalIterator(db);
    HistoryView(db.Model(), internal.merged, n);
    iter := new DbIter.DBIter(internal, n);
  }

  // -------------------------------------------------------------------- whole scans

  /** Strictly increasing user keys. */
  ghost predicate Increasing(rows: seq<(UserKey, Bytes)>) {
    forall i, j | 0 <= i < j < |rows| :: rows[i].0 < rows[j].0
  }

  /** The rows of the view from number `k` on. */
  ghost predicate RowsFrom(es: seq<Entry>, n: nat, k: nat, rows: seq<(UserKey, Bytes)>) {
    k + |rows| <= |DbIter.View(es, n, |es|)| && forall i | 0 <= i < |rows| :: rows[i] == RowAt(es, n, k + i)
  }

  lemma RowsAreHistory(es: seq<Entry>, n: nat, rows: seq<(UserKey, Bytes)>, history: seq<Entry>)
    requires IsHistoryView(es, n, history) && RowsFrom(es, n, 0, rows) && |rows| == |DbIter.View(es, n, |es|)|
    ensures Increasing(rows)
    ensures forall user, value :: (user, value) in rows <==> HistoryLookup(history, user, n) == Some(value)
  {
    forall i, j | 0 <= i < j < |rows|
      ensures rows[i].0 < rows[j].0
    {
      DbIter.ViewIsSorted(es, n, i, j);
    }
    forall user, value
      ensures (user, value) in rows <==> Shown(es, n, user, value)
    {
      if Shown(es, n, user, value) {
        var k :| 0 <= k < |rows| && RowAt(es, n, k) == (user, value);
        assert rows[k] == (user, value);
      }
    }
  }

  lemma RowBefore(es: seq<Entry>, n: nat, k: nat, row: (UserKey, Bytes), rows: seq<(UserKey, Bytes)>)
    requires RowsFrom(es, n, k + 1, rows) && row == RowAt(es, n, k)
    ensures RowsFrom(es, n, k, [row] + rows)
  {
  }

  /** The row the iterator is at. */
  method CurrentRow(iter: DbIter.DBIter) returns (row: (UserKey, Bytes))
    requires iter.Valid() && iter.valid
    ensures iter.pos < |iter.FullView()| && row == RowAt(iter.iter.merged, iter.sequence, iter.pos)
  {
    iter.RankBound(iter.pos);
    row := (iter.Key(), iter.ValueShown());
  }

  /** Iterating the whole database at a live snapshot (or at the last sequence number) lists, in
      key order, exactly the keys the history gives a value, each with that value. */
  method Scan(db: DBImpl, snapshot: Option<nat>) returns (rows: seq<(UserKey, Bytes)>)
    requires db.Valid() && (snapshot.Some? ==> snapshot.value in db.snapshots)
    ensures Increasing(rows)
    ensures var n := if snapshot.Some? then snapshot.value else db.lastSequence;
            forall user, value :: (user, value) in rows <==> HistoryLookup(db.history, user, n) == Some(value)
  {
    ghost var history := db.history;
    var iter := NewIterator(db, snapshot);
    rows := ReadForward(iter);
    RowsAreHistory(iter.iter.merged, iter.sequence, rows, history);
  }

  method ReadForward(iter: DbIter.DBIter) returns (rows: seq<(UserKey, Bytes)>)
    requires iter.Valid()
    modifies iter, iter.iter, iter.iter.children
    ensures RowsFrom(iter.iter.merged, iter.sequence, 0, rows) && |rows| == |iter.FullView()|
  {
    iter.SeekToFirst();
    rows := [];
    while iter.valid
      invariant iter.Valid() && |rows| == iter.pos && RowsFrom(iter.iter.merged, iter.sequence, 0, rows)
      decreases |iter.FullView()| - iter.pos
    {
      var row := CurrentRow(iter);
      rows := rows + [row];
      iter.Next();
    }
  }

  /** Iterating from the last key back to the first lists the same rows. */
  method ReverseScan(db: DBImpl, snapshot: Option<nat>) returns (rows: seq<(UserKey, Bytes)>)
    requires db.Valid() && (snapshot.Some? ==> snapshot.value in db.snapshots)
    ensures Increasing(rows)
    ensures var n := if snapshot.Some? then snapshot.value else db.lastSequence;
            forall user, value :: (user, value) in rows <==> HistoryLookup(db.history, user, n) == Some(value)
  {
    ghost var history := db.history;
    var iter := NewIterator(db, snapshot);
    rows := ReadBackward(iter);
    RowsAreHistory(iter.iter.merged, iter.sequence, rows, history);
  }

  method ReadBackward(iter: DbIter.DBIter) returns (rows: seq<(UserKey, Bytes)>)
    requires iter.Valid()
    modifies iter, iter.iter, iter.iter.children
    ensures RowsFrom(iter.iter.merged, iter.sequence, 0, rows) && |rows| == |iter.FullView()|
  {
    iter.SeekToLast();
    rows := [];
    ghost var left: nat := |iter.FullView()|;
    while iter.valid
      invariant iter.Valid() && left == (if iter.valid then iter.pos + 1 else 0)
      invariant left + |rows| == |iter.FullView()| && RowsFrom(iter.iter.merged, iter.sequence, left, rows)
      decreases left
    {
      var row := CurrentRow(iter);
      RowBefore(iter.iter.merged, iter.sequence, iter.pos, row, rows);
      rows, left := [row] + rows, left - 1;
      iter.Prev();
    }
  }
}
