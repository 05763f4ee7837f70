/** Table files and the searches over the file list of one level (db/version_set.cc). */
module Files {
  import opened Keys

  const NUM_LEVELS := 7
  const MAX_MEM_COMPACT_LEVEL := 2

  /** A table file: its metadata together with the entries it holds. */
  datatype File = File(number: nat, size: nat, smallest: InternalKey, largest: InternalKey,
                       entries: seq<Entry>)

  ghost predicate WfFile(f: File) {
    && f.entries != [] && Sorted(f.entries)
    && f.smallest == f.entries[0].key && f.largest == f.entries[|f.entries| - 1].key
    && forall e | e in f.entries :: e.key.seqno <= MAX_SEQUENCE
  }

  ghost predicate WfFiles(files: seq<File>) {
    forall f | f in files :: WfFile(f)
  }

  lemma EntryInRange(f: File, e: Entry)
    requires WfFile(f) && e in f.entries
    ensures !Less(e.key, f.smallest) && !Less(f.largest, e.key)
    ensures f.smallest.user <= e.key.user <= f.largest.user
  {
    var i :| 0 <= i < |f.entries| && f.entries[i] == e;
  }

  /** What levels above 0 keep: file ranges are sorted and disjoint as internal keys. Two
      neighbours may still share a user key. */
  ghost predicate Disjoint(files: seq<File>) {
    forall i, j | 0 <= i < j < |files| :: Less(files[i].largest, files[j].smallest)
  }

  ghost predicate InFiles(files: seq<File>, e: Entry) {
    exists f :: f in files && e in f.entries
  }

  /** An absent bound is before (or after) every user key. */
  predicate AfterFile(user: Option<UserKey>, f: File) {
    user.Some? && user.value > f.largest.user
  }

  predicate BeforeFile(user: Option<UserKey>, f: File) {
    user.Some? && user.value < f.smallest.user
  }

  predicate Overlaps(f: File, lo: Option<UserKey>, hi: Option<UserKey>) {
    !AfterFile(lo, f) && !BeforeFile(hi, f)
  }

  predicate Covers(f: File, user: UserKey) {
    f.smallest.user <= user <= f.largest.user
  }

  lemma DisjointRanges(files: seq<File>, i: nat, j: nat)
    requires WfFiles(files) && Disjoint(files) && i <= j < |files|
    ensures files[i].smallest.user <= files[j].smallest.user
    ensures files[i].largest.user <= files[j].largest.user
    ensures i < j ==> files[i].largest.user <= files[j].smallest.user
    ensures i < j ==> Less(files[i].smallest, files[j].smallest) && Less(files[i].largest, files[j].largest)
  {
    RangeNotEmpty(files[i]);
    RangeNotEmpty(files[j]);
  }

  lemma RangeNotEmpty(f: File)
    requires WfFile(f)
    ensures !Less(f.largest, f.smallest) && f.smallest.user <= f.largest.user
    ensures f.largest.seqno <= MAX_SEQUENCE
  {
    assert f.entries[0] in f.entries;
    assert f.entries[|f.entries| - 1] in f.entries;
    EntryInRange(f, f.entries[0]);
  }

  /** Binary search for the first file whose largest key is at or after `key`. */
  method FindFile(files: seq<File>, key: InternalKey) returns (right: nat)
    requires WfFiles(files) && Disjoint(files)
    ensures right <= |files|
    ensures forall i | 0 <= i < right :: Less(files[i].largest, key)
    ensures forall i | right <= i < |files| :: !Less(files[i].largest, key)
  {
    var left := 0;
    right := |files|;
    while left < right
      invariant 0 <= left <= right <= |files|
      invariant forall i | 0 <= i < left :: Less(files[i].largest, key)
      invariant forall i | right <= i < |files| :: !Less(files[i].largest, key)
    {
      var mid := (left + right) / 2;
      forall i | 0 <= i < |files|
        ensures i < mid ==> Less(files[i].largest, files[mid].largest)
        ensures mid < i ==> Less(files[mid].largest, files[i].largest)
      {
        if i < mid { DisjointRanges(files, i, mid); }
        if mid < i { DisjointRanges(files, mid, i); }
      }
      if Less(files[mid].largest, key) {
        left := mid + 1;
      } else {
        right := mid;
      }
    }
  }

  /** Whether some file meets the user-key range; binary search when the files are disjoint. */
  method SomeFileOverlapsRange(disjointSorted: bool, files: seq<File>,
                               lo: Option<UserKey>, hi: Option<UserKey>) returns (r: bool)
    requires WfFiles(files) && (disjointSorted ==> Disjoint(files))
    ensures r <==> exists f :: f in files && Overlaps(f, lo, hi)
  {
    if !disjointSorted {
      for i := 0 to |files|
        invariant forall j | 0 <= j < i :: !Overlaps(files[j], lo, hi)
      {
        if AfterFile(lo, files[i]) || BeforeFile(hi, files[i]) {
        } else {
          assert files[i] in files && Overlaps(files[i], lo, hi);
          return true;
        }
      }
      return false;
    }
    var index: nat := 0;
    if lo.Some? {
      index := FindFile(files, InternalKey(lo.value, MAX_SEQUENCE, Value));
    }
    forall i | 0 <= i < |files|
      ensures i < index <==> AfterFile(lo, files[i])
      ensures index <= i ==> files[index].smallest.user <= files[i].smallest.user
    {
      RangeNotEmpty(files[i]);
      if index <= i { DisjointRanges(files, index, i); }
    }
    if index >= |files| {
      return false;
    }
    r := !BeforeFile(hi, files[index]);
    assert r ==> Overlaps(files[index], lo, hi);
  }

  ghost predicate NewestIn(files: seq<File>, user: UserKey, snapshot: nat, r: Option<Entry>) {
    match r
    case None => forall e | InFiles(files, e) :: !Visible(e, user, snapshot)
    case Some(x) => InFiles(files, x) && Visible(x, user, snapshot)
                    && forall e | InFiles(files, e) && Visible(e, user, snapshot) :: e.key.seqno <= x.key.seqno
  }

  /** Lookup in one level above 0: one binary search, one file read. */
  method GetFromLevel(files: seq<File>, user: UserKey, snapshot: nat) returns (r: Option<Entry>)
    requires WfFiles(files) && Disjoint(files)
    ensures NewestIn(files, user, snapshot, r)
  {
    var index := FindFile(files, LookupKey(user, snapshot));
    forall i, e | 0 <= i < |files| && e in files[i].entries && Visible(e, user, snapshot)
      ensures index <= i && files[index].smallest.user <= user
      ensures index < i ==> exists x :: x in files[index].entries && Visible(x, user, snapshot)
                                        && e.key.seqno <= x.key.seqno
    {
      EntryInRange(files[i], e);
      assert !Less(e.key, LookupKey(user, snapshot));
      DisjointRanges(files, index, i);
      if index < i {
        assert WfFile(files[index]);
        var x := files[index].entries[|files[index].entries| - 1];
        assert x in files[index].entries;
        assert Less(x.key, e.key) && !Less(x.key, LookupKey(user, snapshot));
      }
    }
    if index >= |files| || user < files[index].smallest.user {
      r := None;
    } else {
      assert WfFile(files[index]);
      r := Find(files[index].entries, user, snapshot);
      FindIsNewest(files[index].entries, user, snapshot);
    }
  }
}
