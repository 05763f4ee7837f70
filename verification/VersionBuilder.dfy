/** Version edits and the builder that applies them to a version (db/version_set.cc). */
module VersionBuilder {
  import opened Keys
  import opened Files

  /** A version: the file list of each level. */
  type Levels = v: seq<seq<File>> | |v| == NUM_LEVELS witness [[], [], [], [], [], [], []]

  /** A version edit: (level, number) pairs to delete and (level, file) pairs to add. */
  datatype Edit = Edit(deleted: set<(nat, nat)>, added: seq<(nat, File)>)

  /** The order of a level's file list: by smallest key, ties by file number. */
  predicate Before(a: File, b: File) {
    Less(a.smallest, b.smallest) || (a.smallest == b.smallest && a.number < b.number)
  }

  ghost predicate SortedFiles(files: seq<File>) {
    forall i, j | 0 <= i < j < |files| :: Before(files[i], files[j])
  }

  ghost predicate SortedLevels(v: Levels) {
    forall l | 0 <= l < NUM_LEVELS :: SortedFiles(v[l])
  }

  lemma BeforeIsTotal(a: File, b: File)
    requires a.number != b.number
    ensures Before(a, b) || Before(b, a)
  {
    LessIsTotal(a.smallest, b.smallest);
  }

  ghost predicate WfEdit(e: Edit) {
    && (forall p | p in e.deleted :: p.0 < NUM_LEVELS)
    && (forall p | p in e.added :: p.0 < NUM_LEVELS)
  }

  /** `v` is the version obtained from `base` by one edit. */
  ghost predicate Installed(base: Levels, e: Edit, v: Levels) {
    SortedLevels(v)
    && forall l, x | 0 <= l < NUM_LEVELS ::
         x in v[l] <==> (x in base[l] && (l, x.number) !in e.deleted) || (l, x) in e.added
  }

  // ---------------------------------------------------------------- live files

  ghost function AddedAt(e: Edit, l: nat): set<File> {
    set p | p in e.added && p.0 == l :: p.1
  }

  /** The files of level `l` after applying the edits one version at a time. */
  ghost function Live(base: Levels, edits: seq<Edit>, l: nat): set<File>
    requires l < NUM_LEVELS
  {
    if edits == [] then set x | x in base[l]
    else
      var e := edits[|edits| - 1];
      (set x | x in Live(base, edits[..|edits| - 1], l) && (l, x.number) !in e.deleted) + AddedAt(e, l)
  }

  /** The (level, number) pairs ever used. */
  ghost function Used(base: Levels, edits: seq<Edit>): set<(nat, nat)> {
    if edits == [] then set l, x | 0 <= l < NUM_LEVELS && x in base[l] :: (l, x.number)
    else
      var e := edits[|edits| - 1];
      Used(base, edits[..|edits| - 1]) + set p | p in e.added :: (p.0, p.1.number)
  }

  /** An edit adds only pairs that were never used before, each once. */
  ghost predicate AddsFresh(used: set<(nat, nat)>, e: Edit) {
    && (forall p | p in e.added :: (p.0, p.1.number) !in used)
    && (forall i, j | 0 <= i < j < |e.added| ::
          (e.added[i].0, e.added[i].1.number) != (e.added[j].0, e.added[j].1.number))
  }

  /** Each edit is well formed and adds pairs fresh for the edits before it. */
  ghost predicate WfEdits(base: Levels, edits: seq<Edit>) {
    edits == [] ||
    var n := |edits| - 1;
    WfEdits(base, edits[..n]) && WfEdit(edits[n]) && AddsFresh(Used(base, edits[..n]), edits[n])
  }

  lemma OneMoreEdit(base: Levels, edits: seq<Edit>, e: Edit)
    requires WfEdits(base, edits) && WfEdit(e) && AddsFresh(Used(base, edits), e)
    ensures WfEdits(base, edits + [e])
    ensures Used(base, edits + [e]) == Used(base, edits) + set p | p in e.added :: (p.0, p.1.number)
  {
    assert (edits + [e])[..|edits|] == edits;
  }

  lemma {:induction false} EachEditOk(base: Levels, edits: seq<Edit>, i: nat)
    requires WfEdits(base, edits) && i < |edits|
    ensures WfEdit(edits[i]) && AddsFresh(Used(base, edits[..i]), edits[i])
  {
    var n := |edits| - 1;
    if i < n {
      EachEditOk(base, edits[..n], i);
      assert edits[..n][..i] == edits[..i];
    }
  }

  // ------------------------------------------------------------------- builder

  /** Insertion into the builder's ordered set of added files. */
  function InsertFile(files: seq<File>, f: File): seq<File> {
    if files == [] || Before(f, files[0]) then [f] + files
    else if Before(files[0], f) then [files[0]] + InsertFile(files[1..], f)
    else files
  }

  lemma {:induction false} InsertFileKeepsOrder(files: seq<File>, f: File)
    requires SortedFiles(files)
    requires forall x | x in files :: x.number != f.number
    ensures SortedFiles(InsertFile(files, f))
    ensures forall x :: x in InsertFile(files, f) <==> x in files || x == f
  {
    if files == [] || Before(f, files[0]) {
    } else {
      BeforeIsTotal(f, files[0]);
      InsertFileKeepsOrder(files[1..], f);
      var r := InsertFile(files[1..], f);
      assert forall x | x in r :: Before(files[0], x);
    }
  }

  lemma {:induction false} SortedFilesEqual(a: seq<File>, b: seq<File>)
    requires SortedFiles(a) && SortedFiles(b)
    requires forall x :: x in a <==> x in b
    ensures a == b
  {
    assert a != [] ==> a[0] in a;
    assert b != [] ==> b[0] in b;
    if a != [] && b != [] {
      assert a[0] in b && b[0] in a;
      var i :| 0 <= i < |b| && b[i] == a[0];
      var j :| 0 <= j < |a| && a[j] == b[0];
      assert a[0] == b[0];
      assert forall x :: x in a <==> x == a[0] || x in a[1..];
      assert forall x :: x in b <==> x == b[0] || x in b[1..];
      assert a[0] !in a[1..] && b[0] !in b[1..];
      SortedFilesEqual(a[1..], b[1..]);
      assert a == [a[0]] + a[1..] && b == [b[0]] + b[1..];
    }
  }

  /** What a builder knows of one level after `edits`. */
  ghost predicate Tracks(base: Levels, edits: seq<Edit>, l: nat, added: seq<File>, deleted: set<nat>) {
    && l < NUM_LEVELS && SortedFiles(added)
    && (forall x | x in added :: (l, x.number) in Used(base, edits))
    && (forall x, y | x in base[l] && y in added :: x.number != y.number)
    && (forall x :: x in Live(base, edits, l) <==> (x in base[l] || x in added) && x.number !in deleted)
  }

  /** What the first `i` additions of `e` do to one level. */
  ghost predicate AddedSoFar(e: Edit, i: nat, l: nat, added0: seq<File>, deleted0: set<nat>,
                             added: seq<File>, deleted: set<nat>) {
    && i <= |e.added| && SortedFiles(added)
    && (forall x :: x in added <==> x in added0 || (l, x) in e.added[..i])
    && (forall n: nat :: n in deleted <==> n in deleted0 && forall p | p in e.added[..i] && p.0 == l :: p.1.number != n)
  }

  lemma AddOne(e: Edit, i: nat, l: nat, added0: seq<File>, deleted0: set<nat>, added: seq<File>,
               deleted: set<nat>, used: set<(nat, nat)>)
    requires i < |e.added| && AddedSoFar(e, i, l, added0, deleted0, added, deleted)
    requires AddsFresh(used, e) && forall x | x in added0 :: (l, x.number) in used
    ensures var (m, f) := e.added[i];
            if m == l then AddedSoFar(e, i + 1, l, added0, deleted0, InsertFile(added, f), deleted - {f.number})
            else AddedSoFar(e, i + 1, l, added0, deleted0, added, deleted)
  {
    var (m, f) := e.added[i];
    assert e.added[..i + 1] == e.added[..i] + [(m, f)];
    assert e.added[i] in e.added;
    if m == l {
      InsertFileKeepsOrder(added, f);
    }
  }

  lemma ApplyKeepsLevel(base: Levels, edits: seq<Edit>, e: Edit, l: nat, added0: seq<File>, deleted0: set<nat>,
                        deletedMid: set<nat>, added: seq<File>, deleted: set<nat>)
    requires Tracks(base, edits, l, added0, deleted0) && AddsFresh(Used(base, edits), e)
    requires forall n: nat :: n in deletedMid <==> n in deleted0 || (l, n) in e.deleted
    requires AddedSoFar(e, |e.added|, l, added0, deletedMid, added, deleted)
    ensures Tracks(base, edits + [e], l, added, deleted)
  {
    var all := edits + [e];
    assert all[..|all| - 1] == edits && e.added[..|e.added|] == e.added;
    assert forall x :: x in AddedAt(e, l) <==> (l, x) in e.added;
    forall x | x in base[l]
      ensures (l, x.number) in Used(base, edits)
    {
      BaseIsUsed(base, edits, l, x);
    }
  }

  class Builder {
    const base: Levels
    var deleted: seq<set<nat>>
    var added: seq<seq<File>>
    ghost var applied: seq<Edit>

    ghost predicate Valid()
      reads this
    {
      && SortedLevels(base) && WfEdits(base, applied)
      && |deleted| == |added| == NUM_LEVELS
      && forall l | 0 <= l < NUM_LEVELS :: Tracks(base, applied, l, added[l], deleted[l])
    }

    constructor (base: Levels)
      requires SortedLevels(base)
      ensures Valid() && this.base == base && applied == []
    {
      this.base := base;
      deleted := seq(NUM_LEVELS, i => {});
      added := seq(NUM_LEVELS, i => []);
      applied := [];
    }

    method Apply(e: Edit)
      requires Valid() && WfEdit(e) && AddsFresh(Used(base, applied), e)
      modifies this
      ensures Valid() && applied == old(applied) + [e]
    {
      MarkDeleted(e);
      ghost var deletedMid := deleted;
      AddFiles(e, Used(base, applied));
      forall l | 0 <= l < NUM_LEVELS
        ensures Tracks(base, applied + [e], l, added[l], deleted[l])
      {
        ApplyKeepsLevel(base, applied, e, l, old(added[l]), old(deleted[l]), deletedMid[l], added[l], deleted[l]);
      }
      OneMoreEdit(base, applied, e);
      applied := applied + [e];
    }

    method AddFiles(e: Edit, ghost used: set<(nat, nat)>)
      requires |deleted| == |added| == NUM_LEVELS && WfEdit(e) && AddsFresh(used, e)
      requires forall l | 0 <= l < NUM_LEVELS :: SortedFiles(added[l])
      requires forall l, x | 0 <= l < NUM_LEVELS && x in added[l] :: (l, x.number) in used
      modifies this`deleted, this`added
      ensures |deleted| == |added| == NUM_LEVELS
      ensures forall l | 0 <= l < NUM_LEVELS ::
        AddedSoFar(e, |e.added|, l, old(added[l]), old(deleted[l]), added[l], deleted[l])
    {
      for i := 0 to |e.added|
        invariant |deleted| == |added| == NUM_LEVELS
        invariant forall l | 0 <= l < NUM_LEVELS ::
          AddedSoFar(e, i, l, old(added[l]), old(deleted[l]), added[l], deleted[l])
      {
        ghost var added1, deleted1 := added, deleted;
        var (level, f) := e.added[i];
        assert e.added[i] in e.added;
        deleted := deleted[level := deleted[level] - {f.number}];
        added := added[level := InsertFile(added[level], f)];
        forall l | 0 <= l < NUM_LEVELS
          ensures AddedSoFar(e, i + 1, l, old(added[l]), old(deleted[l]), added[l], deleted[l])
        {
          AddOne(e, i, l, old(added[l]), old(deleted[l]), added1[l], deleted1[l], used);
        }
      }
    }

    method MarkDeleted(e: Edit)
      requires |deleted| == NUM_LEVELS && WfEdit(e)
      modifies this`deleted
      ensures |deleted| == NUM_LEVELS
      ensures forall l, n: nat | 0 <= l < NUM_LEVELS :: n in deleted[l] <==> n in old(deleted[l]) || (l, n) in e.deleted
    {
      var todo := e.deleted;
      while todo != {}
        invariant todo <= e.deleted && |deleted| == NUM_LEVELS
        invariant forall l, n: nat | 0 <= l < NUM_LEVELS ::
          n in deleted[l] <==> n in old(deleted[l]) || (l, n) in e.deleted - todo
        decreases todo
      {
        var p :| p in todo;
        deleted := deleted[p.0 := deleted[p.0] + {p.1}];
        todo := todo - {p};
      }
    }

    /** Merges base files and added files of every level, leaving out deleted ones. */
    method SaveTo() returns (v: Levels)
      requires Valid()
      ensures SortedLevels(v)
      ensures forall l, x | 0 <= l < NUM_LEVELS :: x in v[l] <==> x in Live(base, applied, l)
    {
      var r: seq<seq<File>> := [];
      for l := 0 to NUM_LEVELS
        invariant |r| == l
        invariant forall m | 0 <= m < l :: SortedFiles(r[m])
        invariant forall m, x | 0 <= m < l :: x in r[m] <==> x in Live(base, applied, m)
      {
        assert Tracks(base, applied, l, added[l], deleted[l]);
        var files := MergeLevel(base[l], added[l], deleted[l]);
        r := r + [files];
      }
      v := r;
    }
  }

  lemma {:induction false} BaseIsUsed(base: Levels, edits: seq<Edit>, l: nat, x: File)
    requires l < NUM_LEVELS && x in base[l]
    ensures (l, x.number) in Used(base, edits)
  {
    if edits != [] {
      BaseIsUsed(base, edits[..|edits| - 1], l, x);
    }
  }

  /** The merge has consumed `base[..b]` and `added[..i]`, and everything left comes later. */
  ghost predicate Merging(v: seq<File>, base: seq<File>, b: nat, added: seq<File>, i: nat, deleted: set<nat>) {
    && b <= |base| && i <= |added| && SortedFiles(v)
    && (forall x :: x in v <==> (x in base[..b] || x in added[..i]) && x.number !in deleted)
    && (forall x, j | x in v && b <= j < |base| :: Before(x, base[j]))
    && (forall x, j | x in v && i <= j < |added| :: Before(x, added[j]))
  }

  /** Appending the next base file, when it precedes the next added file. */
  lemma TakeBase(v: seq<File>, base: seq<File>, b: nat, added: seq<File>, i: nat, deleted: set<nat>)
    requires Merging(v, base, b, added, i, deleted) && b < |base|
    requires SortedFiles(base) && SortedFiles(added)
    requires i < |added| ==> Before(base[b], added[i])
    ensures Merging(MaybeAddFile(v, base[b], deleted), base, b + 1, added, i, deleted)
  {
    assert base[..b + 1] == base[..b] + [base[b]];
    if i < |added| {
      forall j | i <= j < |added|
        ensures Before(base[b], added[j])
      {
        assert i < j ==> Before(added[i], added[j]);
      }
    }
  }

  /** Appending the next added file, when it precedes the next base file. */
  lemma TakeAdded(v: seq<File>, base: seq<File>, b: nat, added: seq<File>, i: nat, deleted: set<nat>)
    requires Merging(v, base, b, added, i, deleted) && i < |added|
    requires SortedFiles(base) && SortedFiles(added)
    requires b < |base| ==> Before(added[i], base[b])
    ensures Merging(MaybeAddFile(v, added[i], deleted), base, b, added, i + 1, deleted)
  {
    assert added[..i + 1] == added[..i] + [added[i]];
    if b < |base| {
      forall j | b <= j < |base|
        ensures Before(added[i], base[j])
      {
        assert b < j ==> Before(base[b], base[j]);
      }
    }
  }

  method MergeLevel(base: seq<File>, added: seq<File>, deleted: set<nat>) returns (v: seq<File>)
    requires SortedFiles(base) && SortedFiles(added)
    requires forall x, y | x in base && y in added :: x.number != y.number
    ensures SortedFiles(v)
    ensures forall x :: x in v <==> (x in base || x in added) && x.number !in deleted
  {
    v := [];
    var b: nat := 0;
    for i := 0 to |added|
      invariant Merging(v, base, b, added, i, deleted)
    {
      while b < |base| && !Before(added[i], base[b])
        invariant Merging(v, base, b, added, i, deleted)
      {
        BeforeIsTotal(added[i], base[b]);
        TakeBase(v, base, b, added, i, deleted);
        v := MaybeAddFile(v, base[b], deleted);
        b := b + 1;
      }
      TakeAdded(v, base, b, added, i, deleted);
      v := MaybeAddFile(v, added[i], deleted);
    }
    while b < |base|
      invariant Merging(v, base, b, added, |added|, deleted)
    {
      TakeBase(v, base, b, added, |added|, deleted);
      v := MaybeAddFile(v, base[b], deleted);
      b := b + 1;
    }
    assert base[..b] == base && added[..|added|] == added;
  }

  function MaybeAddFile(v: seq<File>, f: File, deleted: set<nat>): seq<File> {
    if f.number in deleted then v else v + [f]
  }

  // -------------------------------------------------------------------- replay

  /** Version by version: `chain[i + 1]` is `chain[i]` after `edits[i]`. */
  ghost predicate Chain(chain: seq<Levels>, edits: seq<Edit>) {
    |chain| == |edits| + 1 && SortedLevels(chain[0])
    && forall i | 0 <= i < |edits| :: Installed(chain[i], edits[i], chain[i + 1])
  }

  lemma {:induction false} ChainIsLive(chain: seq<Levels>, edits: seq<Edit>, l: nat)
    requires Chain(chain, edits) && l < NUM_LEVELS
    ensures SortedFiles(chain[|edits|][l])
    ensures forall x :: x in chain[|edits|][l] <==> x in Live(chain[0], edits, l)
  {
    if edits != [] {
      var k := |edits| - 1;
      ChainIsLive(chain[..|edits|], edits[..k], l);
      assert chain[..|edits|][k] == chain[k];
      assert Installed(chain[k], edits[k], chain[k + 1]);
      assert forall x :: x in AddedAt(edits[k], l) <==> (l, x) in edits[k].added;
    }
  }

  /** The edit written first to a new MANIFEST: every file of the current version. */
  ghost function Snapshot(v: Levels): Edit {
    Edit({}, SnapshotFiles(v, NUM_LEVELS))
  }

  ghost function SnapshotFiles(v: Levels, n: nat): seq<(nat, File)>
    requires n <= NUM_LEVELS
  {
    if n == 0 then [] else SnapshotFiles(v, n - 1) + seq(|v[n - 1]|, i requires 0 <= i < |v[n - 1]| => (n - 1, v[n - 1][i]))
  }

  lemma {:induction false} SnapshotHasAll(v: Levels, n: nat)
    requires n <= NUM_LEVELS
    ensures forall l: nat, x :: (l, x) in SnapshotFiles(v, n) <==> l < n && x in v[l]
  {
    if n > 0 {
      SnapshotHasAll(v, n - 1);
      var s := seq(|v[n - 1]|, i requires 0 <= i < |v[n - 1]| => (n - 1, v[n - 1][i]));
      assert SnapshotFiles(v, n) == SnapshotFiles(v, n - 1) + s;
      forall l: nat, x
        ensures (l, x) in s <==> l == n - 1 && x in v[l]
      {
        if l == n - 1 && x in v[l] {
          var i :| 0 <= i < |v[l]| && v[l][i] == x;
          assert s[i] == (l, x);
        }
      }
    }
  }

  const EMPTY: Levels := [[], [], [], [], [], [], []]

  /** All records go through one builder. */
  method Replay(edits: seq<Edit>) returns (v: Levels)
    requires WfEdits(EMPTY, edits)
    ensures SortedLevels(v)
    ensures forall l, x | 0 <= l < NUM_LEVELS :: x in v[l] <==> x in Live(EMPTY, edits, l)
  {
    var builder := new Builder(EMPTY);
    for i := 0 to |edits|
      invariant builder.Valid() && fresh(builder) && builder.base == EMPTY && builder.applied == edits[..i]
    {
      assert edits[..i + 1] == edits[..i] + [edits[i]];
      EachEditOk(EMPTY, edits, i);
      builder.Apply(edits[i]);
    }
    assert edits[..|edits|] == edits;
    v := builder.SaveTo();
  }

  /** Reading back a MANIFEST (a snapshot record, then one record per edit) into one builder
      gives exactly the version that was live, for every history of edits. */
  method Recover(records: seq<Edit>, ghost chain: seq<Levels>) returns (v: Levels)
    requires |records| >= 1 && Chain(chain, records[1..]) && records[0] == Snapshot(chain[0])
    requires WfEdits(EMPTY, records)
    ensures v == chain[|records| - 1]
  {
    v := Replay(records);
    forall l: nat | l < NUM_LEVELS
      ensures v[l] == chain[|records| - 1][l]
    {
      ChainIsLive(chain, records[1..], l);
      SnapshotIsBase(EMPTY, chain[0], records, l);
      SortedFilesEqual(v[l], chain[|records| - 1][l]);
    }
  }

  lemma {:induction false} SnapshotIsBase(empty: Levels, v: Levels, records: seq<Edit>, l: nat)
    requires |records| >= 1 && records[0] == Snapshot(v) && l < NUM_LEVELS
    requires forall m | 0 <= m < NUM_LEVELS :: empty[m] == []
    ensures Live(empty, records, l) == Live(v, records[1..], l)
  {
    if |records| == 1 {
      SnapshotHasAll(v, NUM_LEVELS);
      assert records[..0] == [];
      assert forall x :: x in AddedAt(records[0], l) <==> (l, x) in records[0].added;
      assert Live(empty, records[..0], l) == {};
    } else {
      var n := |records| - 1;
      SnapshotIsBase(empty, v, records[..n], l);
      assert records[..n][1..] == records[1..][..n - 1];
    }
  }
}
