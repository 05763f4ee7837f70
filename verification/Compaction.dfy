/** One compaction: which entries are dropped, and how the rest is cut into output files
    (db/db_impl.cc, db/version_set.cc). */
module Compaction {
  import opened Keys
  import opened Files
  import opened VersionBuilder
  import Inputs

  /** No file two or more levels below the compaction has `user` in its range. */
  ghost predicate BaseLevel(levels: Levels, level: nat, user: UserKey) {
    forall l, f | level + 2 <= l < NUM_LEVELS && f in levels[l] :: !Covers(f, user)
  }

  ghost predicate Dropped(levels: Levels, level: nat, input: seq<Entry>, snapshot: nat, i: nat)
    requires i < |input|
  {
    || (i > 0 && input[i - 1].key.user == input[i].key.user && input[i - 1].key.seqno <= snapshot)
    || (input[i].key.kind == Deletion && input[i].key.seqno <= snapshot && BaseLevel(levels, level, input[i].key.user))
  }

  /** What is left of the first `n` input entries. */
  ghost function Kept(levels: Levels, level: nat, input: seq<Entry>, snapshot: nat, n: nat): seq<Entry>
    requires n <= |input|
  {
    if n == 0 then []
    else
      Kept(levels, level, input, snapshot, n - 1)
      + if Dropped(levels, level, input, snapshot, n - 1) then [] else [input[n - 1]]
  }

  /** A sequence number belongs to one entry. */
  ghost predicate UniqueSeqnos(es: seq<Entry>) {
    forall d, e | d in es && e in es && d.key.seqno == e.key.seqno :: d == e
  }

  /** A newer entry of the same user key is visible at `snapshot`. */
  ghost predicate Shadowed(input: seq<Entry>, snapshot: nat, e: Entry) {
    exists d :: d in input && Visible(d, e.key.user, snapshot) && d.key.seqno > e.key.seqno
  }

  /** The two drop rules in terms of what readers see: an entry goes exactly when a newer one
      hides it from the oldest snapshot, or when it is a deletion marker visible there with
      nothing below it. */
  lemma KeptMeaning(levels: Levels, level: nat, input: seq<Entry>, snapshot: nat, e: Entry)
    requires Sorted(input) && UniqueSeqnos(input)
    ensures e in Kept(levels, level, input, snapshot, |input|) <==>
            && e in input && !Shadowed(input, snapshot, e)
            && !(e.key.kind == Deletion && e.key.seqno <= snapshot && BaseLevel(levels, level, e.key.user))
  {
    KeptIs(levels, level, input, snapshot, |input|);
    forall i | 0 <= i < |input| && input[i] == e
      ensures Dropped(levels, level, input, snapshot, i) <==>
              || Shadowed(input, snapshot, e)
              || (e.key.kind == Deletion && e.key.seqno <= snapshot && BaseLevel(levels, level, e.key.user))
    {
      ShadowedAt(input, snapshot, i);
    }
  }

  /** An entry is shadowed exactly when the entry just before it is one of the same user key
      visible at the snapshot. */
  lemma ShadowedAt(input: seq<Entry>, snapshot: nat, i: nat)
    requires Sorted(input) && UniqueSeqnos(input) && i < |input|
    ensures Shadowed(input, snapshot, input[i]) <==>
            i > 0 && input[i - 1].key.user == input[i].key.user && input[i - 1].key.seqno <= snapshot
  {
    if Shadowed(input, snapshot, input[i]) {
      var d :| d in input && Visible(d, input[i].key.user, snapshot) && d.key.seqno > input[i].key.seqno;
      var j :| 0 <= j < |input| && input[j] == d;
      assert Less(input[j].key, input[i].key) && j < i;
      assert j < i - 1 ==> Less(input[j].key, input[i - 1].key);
      assert i > 0 ==> Less(input[i - 1].key, input[i].key);
    } else if i > 0 {
      assert Less(input[i - 1].key, input[i].key);
      assert input[i - 1] in input && input[i] in input;
    }
  }

  lemma {:induction false} KeptIs(levels: Levels, level: nat, input: seq<Entry>, snapshot: nat, n: nat)
    requires n <= |input|
    ensures forall e :: e in Kept(levels, level, input, snapshot, n) <==>
              exists i | 0 <= i < n :: input[i] == e && !Dropped(levels, level, input, snapshot, i)
  {
    if n > 0 {
      KeptIs(levels, level, input, snapshot, n - 1);
    }
  }

  lemma {:induction false} KeptSorted(levels: Levels, level: nat, input: seq<Entry>, snapshot: nat, n: nat)
    requires n <= |input| && Sorted(input)
    ensures Sorted(Kept(levels, level, input, snapshot, n))
  {
    if n > 0 {
      KeptSorted(levels, level, input, snapshot, n - 1);
      KeptIs(levels, level, input, snapshot, n - 1);
      var k := Kept(levels, level, input, snapshot, n - 1);
      forall i | 0 <= i < |k|
        ensures Less(k[i].key, input[n - 1].key)
      {
        assert k[i] in k;
      }
    }
  }

  /** The cursor over deeper levels that one compaction carries from key to key. */
  class BaseLevelCursor {
    const level: nat
    const levels: Levels
    const levelPtrs: array<nat>
    ghost var last: Option<UserKey>

    ghost predicate Valid()
      reads this, levelPtrs
    {
      && levelPtrs.Length == NUM_LEVELS
      && (forall l | 1 <= l < NUM_LEVELS :: WfFiles(levels[l]) && Disjoint(levels[l]))
      && forall l | level + 2 <= l < NUM_LEVELS :: PtrOk(levels[l], levelPtrs[l], last)
    }

    constructor (level: nat, levels: Levels)
      requires forall l | 1 <= l < NUM_LEVELS :: WfFiles(levels[l]) && Disjoint(levels[l])
      ensures Valid() && fresh(levelPtrs) && last == None
      ensures this.level == level && this.levels == levels
    {
      this.level, this.levels := level, levels;
      levelPtrs := new nat[NUM_LEVELS](i => 0);
      last := None;
    }

    /** For keys asked about in nondecreasing order, the answer of a full scan. */
    method IsBaseLevelForKey(user: UserKey) returns (r: bool)
      requires Valid() && (last.Some? ==> last.value <= user)
      modifies this`last, levelPtrs
      ensures Valid() && last == Some(user)
      ensures r <==> BaseLevel(levels, level, user)
    {
      last := Some(user);
      assert forall l | level + 2 <= l < NUM_LEVELS :: PtrOk(levels[l], levelPtrs[l], old(last));
      var l := level + 2;
      while l < NUM_LEVELS
        invariant Valid() && last == Some(user) && level + 2 <= l
        invariant forall m, f | level + 2 <= m < l && m < NUM_LEVELS && f in levels[m] :: !Covers(f, user)
      {
        var ptr := levelPtrs[l];
        while ptr < |levels[l]| && user > levels[l][ptr].largest.user
          invariant PtrOk(levels[l], ptr, last)
        {
          ptr := ptr + 1;
        }
        levelPtrs[l] := ptr;
        if ptr < |levels[l]| {
          if user >= levels[l][ptr].smallest.user {
            assert Covers(levels[l][ptr], user);
            return false;
          }
        }
        PastKey(levels[l], ptr, user);
        l := l + 1;
      }
      r := true;
    }
  }

  /** Every file before the pointer ends before the last key asked about. */
  ghost predicate PtrOk(files: seq<File>, ptr: nat, last: Option<UserKey>) {
    ptr <= |files| && forall i | 0 <= i < ptr :: last.Some? && files[i].largest.user < last.value
  }

  lemma PastKey(files: seq<File>, ptr: nat, user: UserKey)
    requires WfFiles(files) && Disjoint(files) && PtrOk(files, ptr, Some(user))
    requires ptr < |files| ==> user < files[ptr].smallest.user
    ensures forall f | f in files :: !Covers(f, user)
  {
    forall f | f in files
      ensures !Covers(f, user)
    {
      var i :| 0 <= i < |files| && files[i] == f;
      if ptr <= i {
        DisjointRanges(files, ptr, i);
      }
    }
  }

  /** The entries of consecutive output files. */
  function Concat(files: seq<File>): seq<Entry> {
    if files == [] then [] else Concat(files[..|files| - 1]) + files[|files| - 1].entries
  }

  lemma {:induction false} InConcat(files: seq<File>)
    ensures forall e :: e in Concat(files) <==> InFiles(files, e)
  {
    if files != [] {
      var n := |files| - 1;
      InConcat(files[..n]);
      forall e
        ensures e in Concat(files) <==> InFiles(files, e)
      {
        if InFiles(files, e) {
          var f :| f in files && e in f.entries;
          assert f in files[..n] || f == files[n];
        }
        if e in Concat(files) {
          if InFiles(files[..n], e) {
            var f :| f in files[..n] && e in f.entries;
            assert f in files;
          } else {
            assert files[n] in files;
          }
        }
      }
    }
  }

  /** Output files under construction: their entries are a sorted run cut into pieces. */
  ghost predicate Outputs(outputs: seq<File>, first: nat, current: seq<Entry>, run: seq<Entry>) {
    && run == Concat(outputs) + current
    && WfFiles(outputs) && Disjoint(outputs)
    && forall i | 0 <= i < |outputs| :: outputs[i].number == first + i
  }

  lemma ExtendCurrent(outputs: seq<File>, first: nat, current: seq<Entry>, run: seq<Entry>, e: Entry)
    requires Outputs(outputs, first, current, run)
    ensures Outputs(outputs, first, current + [e], run + [e])
  {
    assert Concat(outputs) + (current + [e]) == Concat(outputs) + current + [e];
  }

  /** The entries not yet in a file come after every finished file. */
  lemma FinishedBefore(outputs: seq<File>, current: seq<Entry>)
    requires WfFiles(outputs) && current != [] && Sorted(Concat(outputs) + current)
    ensures forall g | g in outputs :: Less(g.largest, current[0].key)
  {
    var c := Concat(outputs);
    InConcat(outputs);
    forall g | g in outputs
      ensures Less(g.largest, current[0].key)
    {
      var x := g.entries[|g.entries| - 1];
      assert InFiles(outputs, x);
      var i :| 0 <= i < |c| && c[i] == x;
      assert (c + current)[i] == x && (c + current)[|c|] == current[0];
    }
  }

  lemma PieceOfRun(prefix: seq<Entry>, current: seq<Entry>)
    requires Sorted(prefix + current)
    ensures Sorted(current) && forall e | e in current :: e in prefix + current
  {
    var run := prefix + current;
    assert forall i | 0 <= i < |current| :: current[i] == run[|prefix| + i];
  }

  lemma FinishOutput(outputs: seq<File>, first: nat, current: seq<Entry>, run: seq<Entry>, f: File)
    requires Outputs(outputs, first, current, run) && current != [] && Sorted(run)
    requires forall e | e in run :: e.key.seqno <= MAX_SEQUENCE
    requires f.entries == current && f.number == first + |outputs|
    requires f.smallest == current[0].key && f.largest == current[|current| - 1].key
    ensures Outputs(outputs + [f], first, [], run)
  {
    FinishedBefore(outputs, current);
    PieceOfRun(Concat(outputs), current);
    AppendFile(outputs, f);
    assert Concat(outputs + [f]) + [] == run;
  }

  lemma AppendFile(outputs: seq<File>, f: File)
    requires WfFiles(outputs) && Disjoint(outputs) && WfFile(f) && forall g | g in outputs :: Less(g.largest, f.smallest)
    ensures WfFiles(outputs + [f]) && Disjoint(outputs + [f]) && Concat(outputs + [f]) == Concat(outputs) + f.entries
  {
    var all := outputs + [f];
    assert all[..|all| - 1] == outputs;
    forall i, j | 0 <= i < j < |all|
      ensures Less(all[i].largest, all[j].smallest)
    {
      assert all[i] == outputs[i] && outputs[i] in outputs;
    }
  }

  // ------------------------------------------------ overlap with the grandparents

  /** Number of leading files that end before a key. */
  function Passed(files: seq<File>, key: InternalKey): (n: nat)
    ensures n <= |files| && forall i | 0 <= i < n :: Less(files[i].largest, key)
    ensures n < |files| ==> !Less(files[n].largest, key)
  {
    if files == [] || !Less(files[0].largest, key) then 0 else 1 + Passed(files[1..], key)
  }

  /** More files end before a later key. */
  lemma PassedRises(files: seq<File>, a: InternalKey, b: InternalKey)
    requires !Less(b, a)
    ensures Passed(files, a) <= Passed(files, b)
  {
    var m, n := Passed(files, a), Passed(files, b);
    if n < m {
      assert Less(files[n].largest, a);
      LessIsOrder(files[n].largest, a, b);
      LessIsTotal(a, b);
    }
  }

  /** The size of the files from number `a` up to number `b`. */
  function SizeBetween(files: seq<File>, a: nat, b: nat): nat {
    if a <= b <= |files| then Inputs.TotalFileSize(files[a..b]) else 0
  }

  lemma OneMoreSize(files: seq<File>, a: nat, b: nat)
    requires a <= b < |files|
    ensures SizeBetween(files, a, b + 1) == SizeBetween(files, a, b) + files[b].size
  {
    assert files[a..b + 1][..b - a] == files[a..b];
  }

  lemma LessSize(files: seq<File>, a: nat, b: nat, c: nat)
    requires a <= b <= c <= |files|
    ensures SizeBetween(files, b, c) <= SizeBetween(files, a, c)
  {
    assert files[a..c] == files[a..b] + files[b..c];
    Inputs.TotalAppend(files[a..b], files[b..c]);
  }

  /** Where counting begins for entry `i`: at the last stop before it, or after the first entry. */
  ghost function CountFrom(files: seq<File>, limit: nat, input: seq<Entry>, i: nat): nat
    requires i <= |input|
    decreases i, 0
  {
    if i == 0 then 0
    else if i == 1 || StopsBefore(files, limit, input, i - 1) then Passed(files, input[i - 1].key)
    else CountFrom(files, limit, input, i - 1)
  }

  /** Too many bytes of the grandparents have been passed since then. */
  ghost predicate StopsBefore(files: seq<File>, limit: nat, input: seq<Entry>, i: nat)
    requires i < |input|
    decreases i, 1
  {
    i > 0 && SizeBetween(files, CountFrom(files, limit, input, i), Passed(files, input[i].key)) > limit
  }

  lemma {:induction false} CountsFromPassed(files: seq<File>, limit: nat, input: seq<Entry>, i: nat)
    requires Sorted(input) && 0 < i <= |input|
    ensures CountFrom(files, limit, input, i) <= Passed(files, input[i - 1].key)
    decreases i
  {
    if i > 1 && !StopsBefore(files, limit, input, i - 1) {
      CountsFromPassed(files, limit, input, i - 1);
      LessIsTotal(input[i - 2].key, input[i - 1].key);
      assert Less(input[i - 2].key, input[i - 1].key);
      PassedRises(files, input[i - 2].key, input[i - 1].key);
    }
  }

  /** Without a stop in between, counting goes on. */
  lemma {:induction false} CountGoesOn(files: seq<File>, limit: nat, input: seq<Entry>, a: nat, b: nat)
    requires 0 < a <= b <= |input| && forall j | a <= j < b :: !StopsBefore(files, limit, input, j)
    ensures CountFrom(files, limit, input, b) == CountFrom(files, limit, input, a)
    decreases b
  {
    if a < b {
      CountGoesOn(files, limit, input, a, b - 1);
    }
  }

  /** From one entry to a later one, with no stop after the first, not too much has been passed. */
  lemma FewPassed(files: seq<File>, limit: nat, input: seq<Entry>, a: nat, b: nat)
    requires Sorted(input) && a <= b < |input| && forall j | a < j <= b :: !StopsBefore(files, limit, input, j)
    ensures SizeBetween(files, Passed(files, input[a].key), Passed(files, input[b].key)) <= limit
  {
    if a < b {
      CountGoesOn(files, limit, input, a + 1, b);
      CountsFromPassed(files, limit, input, a + 1);
      assert Less(input[a].key, input[b].key) && !StopsBefore(files, limit, input, b);
      LessIsTotal(input[a].key, input[b].key);
      PassedRises(files, input[a].key, input[b].key);
      LessSize(files, CountFrom(files, limit, input, b), Passed(files, input[a].key), Passed(files, input[b].key));
    } else {
      assert files[Passed(files, input[a].key)..Passed(files, input[a].key)] == [];
    }
  }

  /** Follows the entries of a compaction through the grandparents. */
  class GrandparentCursor {
    const grandparents: seq<File>
    const limit: nat
    var index: nat
    var seenKey: bool
    var overlappedBytes: nat
    ghost var from: nat
    ghost var last: Option<InternalKey>

    ghost predicate Valid()
      reads this
    {
      && from <= index <= |grandparents| && overlappedBytes == SizeBetween(grandparents, from, index)
      && (if seenKey then last.Some? && index == Passed(grandparents, last.value) else last.None? && index == 0)
    }

    constructor (grandparents: seq<File>, limit: nat)
      ensures Valid() && this.grandparents == grandparents && this.limit == limit && last == None && from == 0
    {
      this.grandparents, this.limit := grandparents, limit;
      index, seenKey, overlappedBytes := 0, false, 0;
      from, last := 0, None;
      NothingBetween(grandparents, 0);
    }

    /** For keys asked about in order: whether more than the limit ends between the last stop, or the
        first key, and this key. */
    method ShouldStopBefore(key: InternalKey) returns (stop: bool)
      requires Valid() && (last.Some? ==> !Less(key, last.value))
      modifies this
      ensures Valid() && last == Some(key)
      ensures stop <==> old(last).Some? && SizeBetween(grandparents, old(from), Passed(grandparents, key)) > limit
      ensures from == if stop || old(last).None? then Passed(grandparents, key) else old(from)
    {
      if last.Some? {
        PassedRises(grandparents, last.value, key);
      }
      Advance(key);
      ghost var start := if seenKey then from else index;
      NothingBetween(grandparents, index);
      seenKey, last, from := true, Some(key), start;
      stop := overlappedBytes > limit;
      if stop {
        overlappedBytes, from := 0, index;
      }
    }

    /** Passes the files that end before the key. */
    method Advance(key: InternalKey)
      requires Valid() && index <= Passed(grandparents, key)
      modifies this`index, this`overlappedBytes
      ensures index == Passed(grandparents, key)
      ensures overlappedBytes == if seenKey then SizeBetween(grandparents, from, index) else 0
    {
      NothingBetween(grandparents, index);
      while index < |grandparents| && Less(grandparents[index].largest, key)
        invariant from <= index <= Passed(grandparents, key)
        invariant overlappedBytes == if seenKey then SizeBetween(grandparents, from, index) else 0
      {
        if seenKey {
          OneMoreSize(grandparents, from, index);
          overlappedBytes := overlappedBytes + grandparents[index].size;
        }
        index := index + 1;
      }
    }
  }

  // ------------------------------------------------------ where outputs end

  /** What decides where outputs end: the grandparents and how much of them one output may overlap;
      how much is written once some entries are added, and how much may be; and the size of the file
      they end up in. */
  datatype Cuts = Cuts(input: seq<Entry>, grandparents: seq<File>, overlap: nat, written: seq<Entry> -> nat, limit: nat,
                       sizeOf: seq<Entry> -> nat)

  ghost predicate StopsAt(p: Cuts, j: nat) {
    j < |p.input| && StopsBefore(p.grandparents, p.overlap, p.input, j)
  }

  /** No more than the limit of grandparents ends between the first entry of an output and its last. */
  lemma OverlapsFew(p: Cuts, f: File)
    requires Sorted(p.input) && CutInTime(p, f) && forall e | e in f.entries :: e in p.input
    ensures SizeBetween(p.grandparents, Passed(p.grandparents, f.entries[0].key),
                        Passed(p.grandparents, f.entries[|f.entries| - 1].key)) <= p.overlap
  {
    var first, last := f.entries[0], f.entries[|f.entries| - 1];
    assert first in f.entries && last in f.entries;
    var a :| 0 <= a < |p.input| && p.input[a] == first;
    var b :| 0 <= b < |p.input| && p.input[b] == last;
    if a <= b {
      forall j | a < j <= b
        ensures !StopsBefore(p.grandparents, p.overlap, p.input, j)
      {
        NoStopWithin(p, f, a, j, b);
      }
      FewPassed(p.grandparents, p.overlap, p.input, a, b);
    } else {
      LessIsTotal(last.key, first.key);
      PassedRises(p.grandparents, last.key, first.key);
      NothingBetween(p.grandparents, Passed(p.grandparents, first.key));
    }
  }

  lemma NoStopWithin(p: Cuts, f: File, a: nat, j: nat, b: nat)
    requires Sorted(p.input) && CutInTime(p, f) && a < j <= b < |p.input|
    requires p.input[a] == f.entries[0] && p.input[b] == f.entries[|f.entries| - 1]
    ensures !StopsBefore(p.grandparents, p.overlap, p.input, j)
  {
    assert Less(p.input[a].key, p.input[j].key) && (j < b ==> Less(p.input[j].key, p.input[b].key));
    LessIsTotal(p.input[j].key, p.input[b].key);
    assert !StopsAt(p, j);
  }

  lemma NothingBetween(files: seq<File>, n: nat)
    requires n <= |files|
    ensures SizeBetween(files, n, n) == 0
  {
    assert files[n..n] == [];
  }

  /** A file never goes on past the limit, nor past an entry the loop stops before. */
  ghost predicate CutInTime(p: Cuts, f: File) {
    && f.entries != [] && f.size == p.sizeOf(f.entries)
    && (forall n | 0 < n < |f.entries| :: p.written(f.entries[..n]) < p.limit)
    && forall j: nat | StopsAt(p, j) ::
         Less(f.entries[|f.entries| - 1].key, p.input[j].key) || !Less(f.entries[0].key, p.input[j].key)
  }

  /** The loop stops before entry `j`, which comes after all of the file. */
  ghost predicate StopsAfter(p: Cuts, f: File, j: nat)
    requires f.entries != []
  {
    StopsAt(p, j) && Less(f.entries[|f.entries| - 1].key, p.input[j].key)
  }

  /** Nor does it end early: it is full, or the loop stops before an entry up to the next output. */
  ghost predicate MayEnd(p: Cuts, f: File, next: Entry) {
    f.entries != []
    && (p.written(f.entries) >= p.limit || exists j: nat :: StopsAfter(p, f, j) && !Less(next.key, p.input[j].key))
  }

  ghost predicate CutRightly(p: Cuts, outputs: seq<File>) {
    && (forall k | 0 <= k < |outputs| :: CutInTime(p, outputs[k]))
    && (forall k | 0 < k < |outputs| :: MayEnd(p, outputs[k - 1], outputs[k].entries[0]))
  }

  /** The output under construction: made of entries before number `n`, below the limit, and begun
      no earlier than the last stop before number `m`. */
  ghost predicate Growing(p: Cuts, n: nat, m: nat, current: seq<Entry>) {
    && (forall k | 0 < k <= |current| :: p.written(current[..k]) < p.limit)
    && (forall e, j | e in current && n <= j < |p.input| :: Less(e.key, p.input[j].key))
    && forall j: nat | current != [] && j < m && StopsAt(p, j) :: !Less(current[0].key, p.input[j].key)
  }

  /** The last finished output may end before whatever comes next. */
  ghost predicate Ended(p: Cuts, m: nat, f: File) {
    f.entries != []
    && (p.written(f.entries) >= p.limit || exists j: nat :: j < m && StopsAfter(p, f, j))
  }

  ghost predicate CutSoFar(p: Cuts, n: nat, m: nat, outputs: seq<File>, current: seq<Entry>) {
    && CutRightly(p, outputs) && Growing(p, n, m, current)
    && (outputs != [] ==> if current == [] then Ended(p, m, outputs[|outputs| - 1])
                          else MayEnd(p, outputs[|outputs| - 1], current[0]))
  }

  /** A finished output is cut in time. */
  lemma Finished(p: Cuts, n: nat, m: nat, outputs: seq<File>, current: seq<Entry>, f: File)
    requires CutRightly(p, outputs) && current != [] && f.entries == current && f.size == p.sizeOf(current)
    requires forall k | 0 < k < |current| :: p.written(current[..k]) < p.limit
    requires forall e, j | e in current && n <= j < |p.input| :: Less(e.key, p.input[j].key)
    requires forall j: nat | j < m && StopsAt(p, j) :: !Less(current[0].key, p.input[j].key)
    requires n <= m && (outputs != [] ==> MayEnd(p, outputs[|outputs| - 1], current[0]))
    ensures CutRightly(p, outputs + [f])
  {
    assert CutInTime(p, f);
    var more := outputs + [f];
    assert forall k | 0 <= k < |outputs| :: more[k] == outputs[k];
  }

  /** Before entry `n` the output ends, if the loop stops there. */
  lemma StopHere(p: Cuts, n: nat, outputs: seq<File>, current: seq<Entry>, f: File)
    requires n < |p.input| && CutSoFar(p, n, n, outputs, current) && StopsAt(p, n) && current != []
    requires f.entries == current && f.size == p.sizeOf(current)
    ensures CutSoFar(p, n, n + 1, outputs + [f], [])
  {
    Finished(p, n, n, outputs, current, f);
    assert current[|current| - 1] in current;
    assert StopsAfter(p, f, n);
  }

  lemma NoStop(p: Cuts, n: nat, outputs: seq<File>, current: seq<Entry>)
    requires n < |p.input| && CutSoFar(p, n, n, outputs, current) && (StopsAt(p, n) ==> current == [])
    ensures CutSoFar(p, n, n + 1, outputs, current)
  {
  }

  lemma EntryDropped(p: Cuts, n: nat, outputs: seq<File>, current: seq<Entry>)
    requires n < |p.input| && CutSoFar(p, n, n + 1, outputs, current)
    ensures CutSoFar(p, n + 1, n + 1, outputs, current)
  {
  }

  /** One more entry; the output ends here if that makes it full. */
  lemma EntryKept(p: Cuts, n: nat, outputs: seq<File>, current: seq<Entry>)
    requires Sorted(p.input) && n < |p.input| && CutSoFar(p, n, n + 1, outputs, current)
    ensures var more := current + [p.input[n]];
            if p.written(more) < p.limit then CutSoFar(p, n + 1, n + 1, outputs, more)
            else forall f: File | f.entries == more && f.size == p.sizeOf(more) :: CutSoFar(p, n + 1, n + 1, outputs + [f], [])
  {
    var more := current + [p.input[n]];
    assert forall k | 0 < k <= |current| :: more[..k] == current[..k];
    assert more[..|more|] == more;
    assert outputs != [] ==> MayEnd(p, outputs[|outputs| - 1], more[0]);
    if p.written(more) >= p.limit {
      forall f: File | f.entries == more && f.size == p.sizeOf(more)
        ensures CutSoFar(p, n + 1, n + 1, outputs + [f], [])
      {
        Finished(p, n + 1, n + 1, outputs, more, f);
      }
    }
  }

  method FinishCompactionOutputFile(outputs: seq<File>, first: nat, current: seq<Entry>, ghost run: seq<Entry>,
                                    sizeOf: seq<Entry> -> nat) returns (r: seq<File>)
    requires Outputs(outputs, first, current, run) && current != [] && Sorted(run)
    requires forall e | e in run :: e.key.seqno <= MAX_SEQUENCE
    ensures Outputs(r, first, [], run)
    ensures |r| == |outputs| + 1 && r[..|outputs|] == outputs
    ensures r[|outputs|].entries == current && r[|outputs|].size == sizeOf(current)
  {
    var f := File(first + |outputs|, sizeOf(current), current[0].key, current[|current| - 1].key, current);
    FinishOutput(outputs, first, current, run, f);
    r := outputs + [f];
  }

  /** Whether the loop drops entry `i`, from what it remembers of the previous entry. */
  method ShouldDrop(cursor: BaseLevelCursor, input: seq<Entry>, snapshot: nat, i: nat, lastSequenceForKey: nat)
    returns (drop: bool)
    requires cursor.Valid() && i < |input| && (cursor.last.Some? ==> cursor.last.value <= input[i].key.user)
    requires lastSequenceForKey == if i > 0 && input[i - 1].key.user == input[i].key.user
                                   then input[i - 1].key.seqno else MAX_SEQUENCE
    requires snapshot < MAX_SEQUENCE
    modifies cursor`last, cursor.levelPtrs
    ensures cursor.Valid() && (cursor.last.Some? ==> cursor.last.value <= input[i].key.user)
    ensures drop <==> Dropped(cursor.levels, cursor.level, input, snapshot, i)
  {
    var e := input[i];
    drop := false;
    if lastSequenceForKey <= snapshot {
      drop := true;
    } else if e.key.kind == Deletion && e.key.seqno <= snapshot {
      drop := cursor.IsBaseLevelForKey(e.key.user);
    }
  }

  /** The loop before entry `i`: what is left of the entries so far is in the outputs and in the one
      under construction, cut where they should be. */
  ghost predicate Working(levels: Levels, level: nat, p: Cuts, snapshot: nat, first: nat, i: nat, m: nat,
                          outputs: seq<File>, current: seq<Entry>)
    requires i <= |p.input|
  {
    Outputs(outputs, first, current, Kept(levels, level, p.input, snapshot, i)) && CutSoFar(p, i, m, outputs, current)
  }

  ghost predicate InputOk(p: Cuts) {
    Sorted(p.input) && forall e | e in p.input :: e.key.seqno <= MAX_SEQUENCE
  }

  /** The compaction loop. */
  method DoCompactionWork(cursor: BaseLevelCursor, overlaps: GrandparentCursor, p: Cuts, snapshot: nat, nextFile: nat)
    returns (outputs: seq<File>)
    requires cursor.Valid() && cursor.last == None && InputOk(p) && snapshot < MAX_SEQUENCE
    requires Follows(overlaps, p, 0)
    modifies cursor`last, cursor.levelPtrs, overlaps
    ensures Outputs(outputs, nextFile, [], Kept(cursor.levels, cursor.level, p.input, snapshot, |p.input|))
    ensures CutRightly(p, outputs)
  {
    outputs := [];
    var current: seq<Entry> := [];
    var currentUserKey: Option<UserKey> := None;
    var lastSequenceForKey := MAX_SEQUENCE;
    var input := p.input;
    for i := 0 to |input|
      invariant cursor.Valid()
      invariant cursor.last.Some? ==> i > 0 && cursor.last.value <= input[i - 1].key.user
      invariant i == 0 ==> currentUserKey == None
      invariant i > 0 ==> currentUserKey == Some(input[i - 1].key.user) && lastSequenceForKey == input[i - 1].key.seqno
      invariant Follows(overlaps, p, i)
      invariant Working(cursor.levels, cursor.level, p, snapshot, nextFile, i, i, outputs, current)
    {
      var stop := StopsHere(overlaps, p, i);
      outputs, current := StopBefore(cursor.levels, cursor.level, p, snapshot, nextFile, i, stop, outputs, current);
      if currentUserKey != Some(input[i].key.user) {
        currentUserKey := Some(input[i].key.user);
        lastSequenceForKey := MAX_SEQUENCE;
      }
      KeysRise(p, i);
      var drop := ShouldDrop(cursor, input, snapshot, i, lastSequenceForKey);
      lastSequenceForKey := input[i].key.seqno;
      outputs, current := Write(cursor.levels, cursor.level, p, snapshot, nextFile, i, outputs, current, drop);
    }
    outputs := FinishLast(cursor.levels, cursor.level, p, snapshot, nextFile, outputs, current);
  }

  lemma KeysRise(p: Cuts, i: nat)
    requires InputOk(p) && i < |p.input|
    ensures i > 0 ==> p.input[i - 1].key.user <= p.input[i].key.user
  {
    assert i > 0 ==> Less(p.input[i - 1].key, p.input[i].key);
  }

  /** The cursor has been asked about all entries before entry `i`. */
  ghost predicate Follows(overlaps: GrandparentCursor, p: Cuts, i: nat)
    requires i <= |p.input|
    reads overlaps
  {
    && overlaps.Valid() && overlaps.grandparents == p.grandparents && overlaps.limit == p.overlap
    && overlaps.last == (if i == 0 then None else Some(p.input[i - 1].key))
    && overlaps.from == CountFrom(p.grandparents, p.overlap, p.input, i)
  }

  method StopsHere(overlaps: GrandparentCursor, p: Cuts, i: nat) returns (stop: bool)
    requires InputOk(p) && i < |p.input| && Follows(overlaps, p, i)
    modifies overlaps
    ensures Follows(overlaps, p, i + 1) && (stop <==> StopsAt(p, i))
  {
    assert i > 0 ==> Less(p.input[i - 1].key, p.input[i].key);
    if i > 0 {
      LessIsTotal(p.input[i - 1].key, p.input[i].key);
    }
    stop := overlaps.ShouldStopBefore(p.input[i].key);
  }

  /** Finishes the output under construction if the loop stops before entry `i`. */
  method StopBefore(ghost levels: Levels, ghost level: nat, p: Cuts, ghost snapshot: nat, first: nat, i: nat, stop: bool,
                    outputs0: seq<File>, current0: seq<Entry>) returns (outputs: seq<File>, current: seq<Entry>)
    requires i < |p.input| && (stop <==> StopsAt(p, i))
    requires InputOk(p) && i < |p.input| && Working(levels, level, p, snapshot, first, i, i, outputs0, current0)
    ensures Working(levels, level, p, snapshot, first, i, i + 1, outputs, current)
  {
    outputs, current := outputs0, current0;
    if stop && current != [] {
      RunFits(levels, level, p.input, snapshot, i);
      outputs := FinishCompactionOutputFile(outputs, first, current, Kept(levels, level, p.input, snapshot, i), p.sizeOf);
      StopHere(p, i, outputs0, current0, outputs[|outputs0|]);
      assert outputs == outputs0 + [outputs[|outputs0|]];
      current := [];
    } else {
      NoStop(p, i, outputs, current);
    }
  }

  /** Adds entry `i` unless it is dropped, and finishes the output if it is big enough. */
  method Write(ghost levels: Levels, ghost level: nat, p: Cuts, ghost snapshot: nat, first: nat, i: nat,
               outputs0: seq<File>, current0: seq<Entry>, drop: bool) returns (outputs: seq<File>, current: seq<Entry>)
    requires InputOk(p) && i < |p.input| && Working(levels, level, p, snapshot, first, i, i + 1, outputs0, current0)
    requires drop <==> Dropped(levels, level, p.input, snapshot, i)
    ensures Working(levels, level, p, snapshot, first, i + 1, i + 1, outputs, current)
  {
    outputs, current := outputs0, current0;
    ghost var run := Kept(levels, level, p.input, snapshot, i);
    if drop {
      EntryDropped(p, i, outputs, current);
      assert run + [] == run;
    } else {
      var e := p.input[i];
      ExtendCurrent(outputs0, first, current0, run, e);
      EntryKept(p, i, outputs0, current0);
      current := current0 + [e];
      if p.written(current) >= p.limit {
        RunFits(levels, level, p.input, snapshot, i + 1);
        outputs := FinishCompactionOutputFile(outputs0, first, current, run + [e], p.sizeOf);
        assert outputs == outputs0 + [outputs[|outputs0|]];
        current := [];
      }
    }
  }

  method FinishLast(ghost levels: Levels, ghost level: nat, p: Cuts, ghost snapshot: nat, first: nat,
                    outputs0: seq<File>, current: seq<Entry>) returns (outputs: seq<File>)
    requires InputOk(p) && Working(levels, level, p, snapshot, first, |p.input|, |p.input|, outputs0, current)
    ensures Outputs(outputs, first, [], Kept(levels, level, p.input, snapshot, |p.input|)) && CutRightly(p, outputs)
  {
    outputs := outputs0;
    if current != [] {
      RunFits(levels, level, p.input, snapshot, |p.input|);
      ghost var run := Kept(levels, level, p.input, snapshot, |p.input|);
      outputs := FinishCompactionOutputFile(outputs0, first, current, run, p.sizeOf);
      Finished(p, |p.input|, |p.input|, outputs0, current, outputs[|outputs0|]);
      assert outputs == outputs0 + [outputs[|outputs0|]];
    }
  }

  lemma RunFits(levels: Levels, level: nat, input: seq<Entry>, snapshot: nat, n: nat)
    requires n <= |input| && Sorted(input)
    requires forall e | e in input :: e.key.seqno <= MAX_SEQUENCE
    ensures Sorted(Kept(levels, level, input, snapshot, n))
    ensures forall e | e in Kept(levels, level, input, snapshot, n) :: e.key.seqno <= MAX_SEQUENCE
  {
    KeptSorted(levels, level, input, snapshot, n);
    KeptIs(levels, level, input, snapshot, n);
  }
}
