/** Choice of compaction inputs and of the level for a flushed memtable (db/version_set.cc). */
module Inputs {
  import opened Keys
  import opened Files

  // ------------------------------------------------------- overlapping inputs

  /** The files meeting a user-key range, in list order. */
  function Select(files: seq<File>, lo: Option<UserKey>, hi: Option<UserKey>): seq<File> {
    if files == [] then []
    else
      var n := |files| - 1;
      Select(files[..n], lo, hi) + if Overlaps(files[n], lo, hi) then [files[n]] else []
  }

  lemma {:induction false} InSelect(files: seq<File>, lo: Option<UserKey>, hi: Option<UserKey>)
    ensures forall f :: f in Select(files, lo, hi) <==> f in files && Overlaps(f, lo, hi)
  {
    if files != [] {
      InSelect(files[..|files| - 1], lo, hi);
    }
  }

  lemma {:induction false} SelectKeepsOrder(files: seq<File>, lo: Option<UserKey>, hi: Option<UserKey>)
    ensures Disjoint(files) ==> Disjoint(Select(files, lo, hi))
    ensures Distinct(files) ==> Distinct(Select(files, lo, hi))
  {
    if files != [] {
      var n := |files| - 1;
      SelectKeepsOrder(files[..n], lo, hi);
      InSelect(files[..n], lo, hi);
      var r := Select(files[..n], lo, hi);
      forall i | 0 <= i < |r|
        ensures Disjoint(files) ==> Less(r[i].largest, files[n].smallest)
        ensures Distinct(files) ==> r[i] != files[n]
      {
        assert r[i] in files[..n];
      }
    }
  }

  ghost predicate Distinct(files: seq<File>) {
    forall i, j | 0 <= i < j < |files| :: files[i] != files[j]
  }

  /** Range (a, b) contains range (lo, hi). */
  ghost predicate Wider(a: Option<UserKey>, b: Option<UserKey>, lo: Option<UserKey>, hi: Option<UserKey>) {
    (a.Some? ==> lo.Some? && a.value <= lo.value) && (b.Some? ==> hi.Some? && hi.value <= b.value)
  }

  ghost predicate Within(f: File, lo: Option<UserKey>, hi: Option<UserKey>) {
    (lo.Some? ==> lo.value <= f.smallest.user) && (hi.Some? ==> f.largest.user <= hi.value)
  }

  /** Every file that meets the range lies inside it. */
  ghost predicate ClosedRange(files: seq<File>, lo: Option<UserKey>, hi: Option<UserKey>) {
    forall f | f in files && Overlaps(f, lo, hi) :: Within(f, lo, hi)
  }

  /** The least closed range around a range. */
  ghost predicate LeastClosed(files: seq<File>, begin: Option<UserKey>, end: Option<UserKey>,
                              lo: Option<UserKey>, hi: Option<UserKey>) {
    ClosedRange(files, lo, hi) && Wider(lo, hi, begin, end) && InEveryClosed(files, begin, end, lo, hi)
  }

  ghost predicate InEveryClosed(files: seq<File>, begin: Option<UserKey>, end: Option<UserKey>,
                                lo: Option<UserKey>, hi: Option<UserKey>) {
    forall a, b | ClosedRange(files, a, b) && Wider(a, b, begin, end) :: Wider(a, b, lo, hi)
  }

  /** A file that meets the range belongs to every closed range around it. */
  lemma WidenedIsInEvery(files: seq<File>, begin: Option<UserKey>, end: Option<UserKey>, lo: Option<UserKey>,
                         hi: Option<UserKey>, f: File, a: Option<UserKey>, b: Option<UserKey>)
    requires InEveryClosed(files, begin, end, lo, hi) && f in files && Overlaps(f, lo, hi)
    requires (a == lo && b == Some(f.largest.user)) || (b == hi && a == Some(f.smallest.user))
    ensures InEveryClosed(files, begin, end, a, b)
  {
    forall c, d | ClosedRange(files, c, d) && Wider(c, d, begin, end)
      ensures Wider(c, d, a, b)
    {
      assert Wider(c, d, lo, hi);
      assert Overlaps(f, c, d);
      assert Within(f, c, d);
    }
  }

  /** The range whose files are taken for a range asked for: at level 0, where files overlap, the
      least closed one around it. */
  ghost predicate TakenRange(level: nat, files: seq<File>, begin: Option<UserKey>, end: Option<UserKey>,
                             lo: Option<UserKey>, hi: Option<UserKey>) {
    if level == 0 then LeastClosed(files, begin, end, lo, hi) else lo == begin && hi == end
  }

  /** How many files stick out of the range: the measure of the restarts at level 0. */
  ghost function Outside(files: seq<File>, lo: Option<UserKey>, hi: Option<UserKey>): nat {
    if files == [] then 0
    else
      Outside(files[1..], lo, hi)
      + (if lo.Some? && files[0].smallest.user < lo.value then 1 else 0)
      + (if hi.Some? && files[0].largest.user > hi.value then 1 else 0)
  }

  method GetOverlappingInputs(level: nat, files: seq<File>, begin: Option<UserKey>, end: Option<UserKey>)
    returns (inputs: seq<File>, ghost lo: Option<UserKey>, ghost hi: Option<UserKey>)
    ensures inputs == Select(files, lo, hi) && TakenRange(level, files, begin, end, lo, hi)
  {
    var userBegin, userEnd := begin, end;
    var i: nat := 0;
    inputs := [];
    while i < |files|
      invariant i <= |files|
      invariant inputs == Select(files[..i], userBegin, userEnd)
      invariant Wider(userBegin, userEnd, begin, end)
      invariant userBegin.Some? == begin.Some? && userEnd.Some? == end.Some?
      invariant level > 0 ==> userBegin == begin && userEnd == end
      invariant level == 0 ==> ClosedRange(files[..i], userBegin, userEnd)
      invariant InEveryClosed(files, begin, end, userBegin, userEnd)
      decreases Outside(files, userBegin, userEnd), |files| - i
    {
      var f := files[i];
      assert files[..i + 1][..i] == files[..i];
      i := i + 1;
      if userBegin.Some? && f.largest.user < userBegin.value {
      } else if userEnd.Some? && f.smallest.user > userEnd.value {
      } else {
        inputs := inputs + [f];
        if level == 0 {
          assert f in files && Overlaps(f, userBegin, userEnd);
          if userBegin.Some? && f.smallest.user < userBegin.value {
            Restart(files, f, userBegin, userEnd, Some(f.smallest.user), userEnd);
            WidenedIsInEvery(files, begin, end, userBegin, userEnd, f, Some(f.smallest.user), userEnd);
            userBegin := Some(f.smallest.user);
            inputs := [];
            i := 0;
          } else if userEnd.Some? && f.largest.user > userEnd.value {
            Restart(files, f, userBegin, userEnd, userBegin, Some(f.largest.user));
            WidenedIsInEvery(files, begin, end, userBegin, userEnd, f, userBegin, Some(f.largest.user));
            userEnd := Some(f.largest.user);
            inputs := [];
            i := 0;
          }
        }
      }
    }
    assert files[..i] == files;
    lo, hi := userBegin, userEnd;
  }

  lemma {:induction false} Restart(files: seq<File>, f: File, lo: Option<UserKey>, hi: Option<UserKey>,
                                   a: Option<UserKey>, b: Option<UserKey>)
    requires f in files
    requires || (lo.Some? && f.smallest.user < lo.value && a == Some(f.smallest.user) && b == hi)
             || (hi.Some? && f.largest.user > hi.value && b == Some(f.largest.user) && a == lo)
    ensures Outside(files, a, b) < Outside(files, lo, hi)
  {
    if f == files[0] {
      RestartRest(files[1..], lo, hi, a, b);
    } else {
      Restart(files[1..], f, lo, hi, a, b);
    }
  }

  lemma {:induction false} RestartRest(files: seq<File>, lo: Option<UserKey>, hi: Option<UserKey>,
                                       a: Option<UserKey>, b: Option<UserKey>)
    requires Wider(a, b, lo, hi)
    ensures Outside(files, a, b) <= Outside(files, lo, hi)
  {
    if files != [] {
      RestartRest(files[1..], lo, hi, a, b);
    }
  }

  lemma {:induction false} SelectMonotone(files: seq<File>, lo: Option<UserKey>, hi: Option<UserKey>,
                                          a: Option<UserKey>, b: Option<UserKey>)
    requires Wider(a, b, lo, hi)
    ensures |Select(files, lo, hi)| <= |Select(files, a, b)|
    ensures |Select(files, lo, hi)| == |Select(files, a, b)| ==> Select(files, lo, hi) == Select(files, a, b)
  {
    if files != [] {
      SelectMonotone(files[..|files| - 1], lo, hi, a, b);
    }
  }

  // --------------------------------------------------------- boundary inputs

  ghost predicate IsLargestKey(files: seq<File>, key: InternalKey) {
    && (exists f :: f in files && f.largest == key)
    && forall f | f in files :: !Less(key, f.largest)
  }

  method FindLargestKey(files: seq<File>) returns (key: Option<InternalKey>)
    ensures match key case None => files == [] case Some(k) => IsLargestKey(files, k)
  {
    if files == [] {
      return None;
    }
    var largest := files[0].largest;
    for i := 1 to |files|
      invariant exists f :: f in files && f.largest == largest
      invariant forall j | 0 <= j < i :: !Less(largest, files[j].largest)
    {
      if Less(largest, files[i].largest) {
        largest := files[i].largest;
        assert files[i] in files;
      }
    }
    key := Some(largest);
  }

  /** A file that continues the user key at which `key` ends. */
  predicate IsBoundary(f: File, key: InternalKey) {
    Less(key, f.smallest) && f.smallest.user == key.user
  }

  method FindSmallestBoundaryFile(files: seq<File>, key: InternalKey) returns (r: Option<File>)
    ensures match r
            case None => forall f | f in files :: !IsBoundary(f, key)
            case Some(b) => IsNextBoundary(files, key, b)
  {
    r := None;
    for i := 0 to |files|
      invariant match r
                case None => forall j | 0 <= j < i :: !IsBoundary(files[j], key)
                case Some(b) => b in files && IsBoundary(b, key)
                                && forall j | 0 <= j < i && IsBoundary(files[j], key) :: !Less(files[j].smallest, b.smallest)
    {
      var f := files[i];
      if Less(key, f.smallest) && f.smallest.user == key.user {
        if r.None? || Less(f.smallest, r.value.smallest) {
          r := Some(f);
        }
      }
    }
  }

  /** No gaps: a file between two chosen files is chosen. */
  ghost predicate Convex(files: seq<File>, chosen: seq<File>) {
    forall f, g, h | f in chosen && h in chosen && g in files :: Between(f, g, h) ==> g in chosen
  }

  ghost predicate Between(f: File, g: File, h: File) {
    !Less(g.smallest, f.smallest) && !Less(h.smallest, g.smallest)
  }

  /** Chosen files share no user key with the others. */
  ghost predicate Isolated(files: seq<File>, chosen: seq<File>) {
    forall f, g | f in chosen && g in files && g !in chosen ::
      f.largest.user < g.smallest.user || g.largest.user < f.smallest.user
  }

  /** The boundary file with the smallest key. */
  ghost predicate IsNextBoundary(files: seq<File>, key: InternalKey, b: File) {
    b in files && IsBoundary(b, key) && forall f | f in files && IsBoundary(f, key) :: !Less(f.smallest, b.smallest)
  }

  /** `r` is the chosen files and then one boundary file after the other. */
  ghost predicate Continued(files: seq<File>, chosen: seq<File>, r: seq<File>) {
    if |r| <= |chosen| then r == chosen
    else
      var n := |r| - 1;
      Continued(files, chosen, r[..n]) && exists key :: IsLargestKey(r[..n], key) && IsNextBoundary(files, key, r[n])
  }

  ghost predicate NoBoundaryLeft(files: seq<File>, chosen: seq<File>) {
    forall k, g | IsLargestKey(chosen, k) && g in files :: !IsBoundary(g, k)
  }

  /** A seed: how the first input of a compaction is chosen, before boundary files. */
  ghost predicate Seed(level: nat, files: seq<File>, chosen: seq<File>) {
    && chosen != [] && Distinct(chosen) && (forall f | f in chosen :: f in files)
    && if level == 0 then Isolated(files, chosen) else Convex(files, chosen) && Disjoint(chosen)
  }

  ghost predicate LevelOk(level: nat, files: seq<File>) {
    WfFiles(files) && Distinct(files) && (level > 0 ==> Disjoint(files))
  }

  lemma DisjointOrder(files: seq<File>, f: File, g: File)
    requires WfFiles(files) && Disjoint(files) && f in files && g in files
    ensures f == g || Less(f.largest, g.smallest) || Less(g.largest, f.smallest)
    ensures Less(f.smallest, g.smallest) ==> Less(f.largest, g.smallest)
  {
    var i :| 0 <= i < |files| && files[i] == f;
    var j :| 0 <= j < |files| && files[j] == g;
    RangeNotEmpty(f);
    RangeNotEmpty(g);
  }

  lemma AddingBoundaryKeepsSeed(level: nat, files: seq<File>, chosen: seq<File>, key: InternalKey, b: File)
    requires LevelOk(level, files) && Seed(level, files, chosen) && IsLargestKey(chosen, key)
    requires IsNextBoundary(files, key, b)
    ensures level > 0 && b !in chosen && Seed(level, files, chosen + [b]) && IsLargestKey(chosen + [b], b.largest)
  {
    RangeNotEmpty(b);
    var m :| m in chosen && m.largest == key;
    RangeNotEmpty(m);
    assert b !in chosen;
    assert level > 0;
    forall f, g, h | f in chosen + [b] && h in chosen + [b] && g in files && Between(f, g, h)
      ensures g in chosen + [b]
    {
      BetweenIsChosen(files, chosen, key, m, b, f, g, h);
    }
    assert b in chosen + [b];
    forall f | f in chosen
      ensures Less(f.largest, b.smallest) && !Less(b.largest, f.largest)
    {
    }
  }

  lemma BetweenIsChosen(files: seq<File>, chosen: seq<File>, key: InternalKey, m: File, b: File, f: File, g: File, h: File)
    requires WfFiles(files) && Disjoint(files) && Convex(files, chosen) && IsLargestKey(chosen, key)
    requires m in chosen && m in files && m.largest == key && b in files && IsBoundary(b, key)
    requires forall x | x in files && IsBoundary(x, key) :: !Less(x.smallest, b.smallest)
    requires f in chosen + [b] && h in chosen + [b] && g in files && Between(f, g, h)
    ensures g in chosen + [b]
  {
    DisjointOrder(files, g, b);
    DisjointOrder(files, g, m);
    RangeNotEmpty(g);
    if f in chosen && h !in chosen && g != b {
      assert Less(g.smallest, b.smallest);
      assert Less(m.largest, g.smallest) ==> IsBoundary(g, key);
      assert Between(f, g, m);
    }
  }

  /** Extends the inputs until no file of the level continues their last user key. */
  method AddBoundaryInputs(ghost level: nat, files: seq<File>, chosen: seq<File>) returns (r: seq<File>)
    requires LevelOk(level, files) && (chosen != [] ==> Seed(level, files, chosen))
    ensures chosen <= r && Continued(files, chosen, r) && NoBoundaryLeft(files, r)
    ensures if chosen == [] then r == [] else Seed(level, files, r)
  {
    r := chosen;
    var largest := FindLargestKey(chosen);
    if largest.None? {
      return;
    }
    var key := largest.value;
    var more := true;
    while more
      invariant chosen <= r && Continued(files, chosen, r) && Seed(level, files, r) && IsLargestKey(r, key)
      invariant !more ==> forall f | f in files :: !IsBoundary(f, key)
      decreases more, |files| - |r|
    {
      var b := FindSmallestBoundaryFile(files, key);
      if b.Some? {
        AddingBoundaryKeepsSeed(level, files, r, key, b.value);
        DistinctSubset(r + [b.value], files);
        OneMoreBoundary(files, chosen, r, key, b.value);
        r := r + [b.value];
        key := b.value.largest;
      } else {
        more := false;
      }
    }
    forall k, g | IsLargestKey(r, k) && g in files
      ensures !IsBoundary(g, k)
    {
      LessIsTotal(k, key);
    }
  }

  lemma OneMoreBoundary(files: seq<File>, chosen: seq<File>, r: seq<File>, key: InternalKey, b: File)
    requires chosen <= r && Continued(files, chosen, r) && IsLargestKey(r, key) && IsNextBoundary(files, key, b)
    ensures Continued(files, chosen, r + [b])
  {
    assert (r + [b])[..|r|] == r;
  }

  lemma {:induction false} DistinctSubset(a: seq<File>, b: seq<File>)
    requires Distinct(a) && forall f | f in a :: f in b
    ensures |a| <= |b|
  {
    if a != [] {
      assert a[0] in b;
      var i :| 0 <= i < |b| && b[i] == a[0];
      var rest := b[..i] + b[i + 1..];
      forall f | f in a[1..]
        ensures f in rest
      {
        assert f in a && f != a[0];
        var j :| 0 <= j < |b| && b[j] == f;
        assert rest[if j < i then j else j - 1] == f;
      }
      DistinctSubset(a[1..], rest);
    }
  }

  /** Every older entry of a chosen entry's user key, at this level, is chosen too. */
  ghost predicate ClosedForOlder(files: seq<File>, chosen: seq<File>) {
    forall f, g, e, x | f in chosen && e in f.entries && g in files && g !in chosen && x in g.entries ::
      e.key.user == x.key.user ==> Less(x.key, e.key)
  }

  lemma SeedIsClosed(level: nat, files: seq<File>, chosen: seq<File>)
    requires LevelOk(level, files) && Seed(level, files, chosen) && NoBoundaryLeft(files, chosen)
    ensures ClosedForOlder(files, chosen)
  {
    forall f, g, e, x | f in chosen && e in f.entries && g in files && g !in chosen && x in g.entries
                        && e.key.user == x.key.user
      ensures Less(x.key, e.key)
    {
      EntryInRange(f, e);
      EntryInRange(g, x);
      assert level > 0;
      DisjointOrder(files, f, g);
      var k := LargestOf(chosen);
      var m :| m in chosen && m.largest == k;
      RangeNotEmpty(m);
      RangeNotEmpty(g);
      DisjointOrder(files, m, g);
      assert Less(f.largest, g.smallest) ==> Between(f, g, m) || IsBoundary(g, k);
    }
  }

  lemma {:induction false} LargestOf(files: seq<File>) returns (key: InternalKey)
    requires files != []
    ensures IsLargestKey(files, key)
  {
    if |files| == 1 {
      key := files[0].largest;
      assert files[0] in files;
    } else {
      var n := |files| - 1;
      var k := LargestOf(files[..n]);
      key := if Less(k, files[n].largest) then files[n].largest else k;
      assert files == files[..n] + [files[n]];
      assert files[n] in files;
    }
  }

  // ------------------------------------------------------------ all the inputs

  ghost predicate IsRange(files: seq<File>, smallest: InternalKey, largest: InternalKey) {
    && (exists f :: f in files && f.smallest == smallest) && (exists f :: f in files && f.largest == largest)
    && forall f | f in files :: !Less(f.smallest, smallest) && !Less(largest, f.largest)
  }

  method GetRange(inputs: seq<File>) returns (smallest: InternalKey, largest: InternalKey)
    requires inputs != []
    ensures IsRange(inputs, smallest, largest)
  {
    smallest, largest := inputs[0].smallest, inputs[0].largest;
    for i := 1 to |inputs|
      invariant exists f :: f in inputs && f.smallest == smallest
      invariant exists f :: f in inputs && f.largest == largest
      invariant forall j | 0 <= j < i :: !Less(inputs[j].smallest, smallest) && !Less(largest, inputs[j].largest)
    {
      var f := inputs[i];
      assert f in inputs;
      if Less(f.smallest, smallest) {
        smallest := f.smallest;
      }
      if Less(largest, f.largest) {
        largest := f.largest;
      }
    }
  }

  function TotalFileSize(files: seq<File>): nat {
    if files == [] then 0 else TotalFileSize(files[..|files| - 1]) + files[|files| - 1].size
  }

  lemma {:induction false} TotalAppend(a: seq<File>, b: seq<File>)
    ensures TotalFileSize(a + b) == TotalFileSize(a) + TotalFileSize(b)
    ensures TotalFileSize([]) == 0 && forall f :: TotalFileSize([f]) == f.size
  {
    forall f: File
      ensures TotalFileSize([f]) == f.size
    {
      assert [f][..0] == [];
    }
    if b == [] {
      assert a + b == a;
    } else {
      var n := |b| - 1;
      TotalAppend(a, b[..n]);
      assert (a + b)[..|a + b| - 1] == a + b[..n];
    }
  }

  /** Files of the next level that meet the range of the first input. */
  ghost predicate Covers1(inputs0: seq<File>, files1: seq<File>, inputs1: seq<File>) {
    exists s, l :: IsRange(inputs0, s, l) && inputs1 == Select(files1, Some(s.user), Some(l.user))
  }

  ghost predicate ValidInputs(level: nat, files0: seq<File>, files1: seq<File>, inputs0: seq<File>, inputs1: seq<File>) {
    Seed(level, files0, inputs0) && NoBoundaryLeft(files0, inputs0) && Covers1(inputs0, files1, inputs1)
  }

  lemma SelectionIsSeed(level: nat, files: seq<File>, lo: Option<UserKey>, hi: Option<UserKey>)
    requires LevelOk(level, files) && Select(files, lo, hi) != []
    requires level == 0 ==> ClosedRange(files, lo, hi)
    ensures Seed(level, files, Select(files, lo, hi))
  {
    InSelect(files, lo, hi);
    SelectKeepsOrder(files, lo, hi);
    var chosen := Select(files, lo, hi);
    if level > 0 {
      forall f, g, h | f in chosen && h in chosen && g in files && Between(f, g, h)
        ensures g in chosen
      {
        DisjointOrder(files, f, g);
        DisjointOrder(files, g, h);
        RangeNotEmpty(f);
        RangeNotEmpty(g);
        RangeNotEmpty(h);
      }
    } else {
      forall f, g | f in chosen && g in files && g !in chosen
        ensures f.largest.user < g.smallest.user || g.largest.user < f.smallest.user
      {
        RangeNotEmpty(g);
      }
    }
  }

  /** What the first input may grow to: everything at the level that meets the range of both inputs,
      and its boundary files. */
  ghost predicate IsGrown(level: nat, files: seq<File>, first: seq<File>, second: seq<File>, grown: seq<File>) {
    exists s, l, selected ::
      IsRange(first + second, s, l) && IsTaken(level, files, s, l, selected) && Continued(files, selected, grown)
  }

  /** The files taken for the user keys from `s` to `l`. */
  ghost predicate IsTaken(level: nat, files: seq<File>, s: InternalKey, l: InternalKey, selected: seq<File>) {
    exists lo, hi :: TakenRange(level, files, Some(s.user), Some(l.user), lo, hi) && selected == Select(files, lo, hi)
  }

  /** It does grow if it gets more files, stays below the limit, and meets as many files of the next level. */
  ghost predicate Grows(files1: seq<File>, first: seq<File>, second: seq<File>, grown: seq<File>, expandLimit: nat) {
    && second != [] && |grown| > |first| && TotalFileSize(second) + TotalFileSize(grown) < expandLimit
    && MeetsAsMany(files1, grown, |second|)
  }

  ghost predicate MeetsAsMany(files1: seq<File>, files: seq<File>, n: nat) {
    exists s, l :: IsRange(files, s, l) && |Select(files1, Some(s.user), Some(l.user))| == n
  }

  /** The inputs that follow from a seed. */
  ghost predicate Follow(level: nat, files0: seq<File>, files1: seq<File>, seed: seq<File>, expandLimit: nat,
                         inputs0: seq<File>, inputs1: seq<File>, first: seq<File>, grown: seq<File>) {
    && Continued(files0, seed, first) && NoBoundaryLeft(files0, first) && Covers1(first, files1, inputs1)
    && (inputs1 != [] ==> IsGrown(level, files0, first, inputs1, grown) && NoBoundaryLeft(files0, grown))
    && inputs0 == if Grows(files1, first, inputs1, grown, expandLimit) then grown else first
  }

  /** From a seed to both inputs of a compaction, growing the first input when that does not
      change the second. */
  method SetupOtherInputs(level: nat, files0: seq<File>, files1: seq<File>, seed: seq<File>, expandLimit: nat)
    returns (inputs0: seq<File>, inputs1: seq<File>, pointer: InternalKey, ghost first: seq<File>, ghost grown: seq<File>)
    requires LevelOk(level, files0) && LevelOk(level + 1, files1) && Seed(level, files0, seed)
    ensures ValidInputs(level, files0, files1, inputs0, inputs1)
    ensures Follow(level, files0, files1, seed, expandLimit, inputs0, inputs1, first, grown)
    // the next compaction of the level starts after the largest key of this one
    ensures exists smallest :: IsRange(inputs0, smallest, pointer)
    // growing loses no input
    ensures forall f | f in seed :: f in inputs0
  {
    inputs0 := AddBoundaryInputs(level, files0, seed);
    first, grown := inputs0, [];
    var smallest, largest := GetRange(inputs0);
    ghost var lo, hi;
    inputs1, lo, hi := GetOverlappingInputs(level + 1, files1, Some(smallest.user), Some(largest.user));
    assert Covers1(inputs0, files1, inputs1);
    if inputs1 != [] {
      inputs0, inputs1, smallest, largest, grown :=
        ExpandInputs(level, files0, files1, inputs0, inputs1, smallest, largest, expandLimit);
      assert seed <= first && forall f | f in seed :: f in first;
    }
    pointer := largest;
  }

  method ExpandInputs(level: nat, files0: seq<File>, files1: seq<File>, first: seq<File>, second: seq<File>,
                      smallest: InternalKey, largest: InternalKey, expandLimit: nat)
    returns (inputs0: seq<File>, inputs1: seq<File>, start: InternalKey, limit: InternalKey, ghost grown: seq<File>)
    requires LevelOk(level, files0) && LevelOk(level + 1, files1)
    requires ValidInputs(level, files0, files1, first, second) && IsRange(first, smallest, largest)
    requires second == Select(files1, Some(smallest.user), Some(largest.user)) && second != []
    ensures ValidInputs(level, files0, files1, inputs0, inputs1)
    ensures inputs1 == second && forall f | f in first :: f in inputs0
    ensures IsRange(inputs0, start, limit)
    ensures IsGrown(level, files0, first, second, grown) && NoBoundaryLeft(files0, grown)
    ensures inputs0 == if Grows(files1, first, second, grown, expandLimit) then grown else first
  {
    inputs0, inputs1, start, limit := first, second, smallest, largest;
    var expanded0 := GrowInputs(level, files0, first, second);
    grown := expanded0;
    if |expanded0| > |first| && TotalFileSize(second) + TotalFileSize(expanded0) < expandLimit {
      var asMany, expanded1, newStart, newLimit := MeetNext(level, files1, expanded0, |second|);
      if asMany {
        SameSecondInput(files1, first, expanded0, smallest, largest, newStart, newLimit);
        inputs0, inputs1, start, limit := expanded0, expanded1, newStart, newLimit;
      }
    }
  }

  /** The next level's files that a first input meets, and whether they are as many as given. */
  method MeetNext(level: nat, files1: seq<File>, files: seq<File>, n: nat)
    returns (r: bool, next: seq<File>, start: InternalKey, limit: InternalKey)
    requires files != []
    ensures IsRange(files, start, limit) && next == Select(files1, Some(start.user), Some(limit.user))
    ensures r == (|next| == n) == MeetsAsMany(files1, files, n)
  {
    start, limit := GetRange(files);
    ghost var lo, hi;
    next, lo, hi := GetOverlappingInputs(level + 1, files1, Some(start.user), Some(limit.user));
    SameRange(files1, files, start, limit, n);
    r := |next| == n;
  }

  /** Files have one range. */
  lemma SameRange(files1: seq<File>, files: seq<File>, start: InternalKey, limit: InternalKey, n: nat)
    requires IsRange(files, start, limit)
    ensures MeetsAsMany(files1, files, n) <==> |Select(files1, Some(start.user), Some(limit.user))| == n
  {
    forall s, l | IsRange(files, s, l)
      ensures s == start && l == limit
    {
      LessIsTotal(s, start);
      LessIsTotal(l, limit);
    }
  }

  /** Everything at the level inside the range of both inputs, and its boundary files. */
  method GrowInputs(level: nat, files: seq<File>, first: seq<File>, second: seq<File>) returns (grown: seq<File>)
    requires LevelOk(level, files) && first != [] && forall f | f in first :: f in files
    ensures Seed(level, files, grown) && NoBoundaryLeft(files, grown) && IsGrown(level, files, first, second, grown)
    ensures forall f | f in first :: f in grown
  {
    var all := first + second;
    assert first[0] in all;
    var start, limit := GetRange(all);
    var selected, lo, hi := GetOverlappingInputs(level, files, Some(start.user), Some(limit.user));
    CoversFirst(files, first, all, start, limit, lo, hi);
    SelectionIsSeed(level, files, lo, hi);
    grown := AddBoundaryInputs(level, files, selected);
    assert IsTaken(level, files, start, limit, selected);
    assert forall f | f in selected :: f in grown;
  }

  lemma SameSecondInput(files: seq<File>, first: seq<File>, grown: seq<File>, smallest: InternalKey,
                        largest: InternalKey, newStart: InternalKey, newLimit: InternalKey)
    requires IsRange(first, smallest, largest) && IsRange(grown, newStart, newLimit)
    requires forall f | f in first :: f in grown
    requires |Select(files, Some(newStart.user), Some(newLimit.user))|
          == |Select(files, Some(smallest.user), Some(largest.user))|
    ensures Select(files, Some(newStart.user), Some(newLimit.user))
         == Select(files, Some(smallest.user), Some(largest.user))
  {
    SelectMonotone(files, Some(smallest.user), Some(largest.user), Some(newStart.user), Some(newLimit.user));
  }

  lemma CoversFirst(files: seq<File>, first: seq<File>, all: seq<File>, start: InternalKey, limit: InternalKey,
                    lo: Option<UserKey>, hi: Option<UserKey>)
    requires WfFiles(files) && first != [] && forall f | f in first :: f in files && f in all
    requires IsRange(all, start, limit) && Wider(lo, hi, Some(start.user), Some(limit.user))
    ensures forall f | f in first :: f in Select(files, lo, hi)
    ensures Select(files, lo, hi) != []
  {
    InSelect(files, lo, hi);
    forall f | f in first
      ensures f in Select(files, lo, hi)
    {
      RangeNotEmpty(f);
    }
    assert first[0] in first;
  }

  /** The first input of an automatic compaction: the first file after the level's compaction
      pointer, wrapping around; at level 0 everything that overlaps it. */
  method PickCompaction(level: nat, files: seq<File>, pointer: Option<InternalKey>) returns (seed: seq<File>)
    requires LevelOk(level, files) && files != []
    ensures Seed(level, files, seed)
    ensures exists i :: 0 <= i < |files| && IsPicked(files, pointer, i) && SeedOf(level, files, files[i], seed)
  {
    seed := [];
    for i := 0 to |files|
      invariant seed == [] && forall j | 0 <= j < i :: !AfterPointer(pointer, files[j])
    {
      if AfterPointer(pointer, files[i]) {
        seed := SeedFromFile(level, files, files[i]);
        assert IsPicked(files, pointer, i);
        return;
      }
    }
    seed := SeedFromFile(level, files, files[0]);
    assert IsPicked(files, pointer, 0);
  }

  predicate AfterPointer(pointer: Option<InternalKey>, f: File) {
    pointer.None? || Less(pointer.value, f.largest)
  }

  /** File `i` is the first after the pointer, or the first of all when none is after it. */
  ghost predicate IsPicked(files: seq<File>, pointer: Option<InternalKey>, i: nat)
    requires i < |files|
  {
    || (AfterPointer(pointer, files[i]) && forall j | 0 <= j < i :: !AfterPointer(pointer, files[j]))
    || (i == 0 && forall f | f in files :: !AfterPointer(pointer, f))
  }

  /** The picked file; at level 0 everything that meets the least closed range around it. */
  ghost predicate SeedOf(level: nat, files: seq<File>, picked: File, seed: seq<File>) {
    if level == 0 then IsTaken(0, files, picked.smallest, picked.largest, seed) else seed == [picked]
  }

  /** The inputs that follow from one picked file, for a size or a seek compaction. */
  method SeedFromFile(level: nat, files: seq<File>, picked: File) returns (seed: seq<File>)
    requires LevelOk(level, files) && picked in files
    ensures Seed(level, files, seed) && picked in seed && SeedOf(level, files, picked, seed)
  {
    seed := [picked];
    if level == 0 {
      var smallest, largest := GetRange(seed);
      ghost var lo, hi;
      RangeNotEmpty(picked);
      seed, lo, hi := GetOverlappingInputs(0, files, Some(smallest.user), Some(largest.user));
      InSelect(files, lo, hi);
      assert Overlaps(picked, lo, hi);
      SelectionIsSeed(0, files, lo, hi);
    } else {
      forall g | g in files && Between(picked, g, picked)
        ensures g == picked
      {
        DisjointOrder(files, g, picked);
        RangeNotEmpty(g);
        RangeNotEmpty(picked);
      }
    }
  }

  /** The first input of a manual compaction of a user-key range. At level 0 it is everything that
      meets the least overlap-closed range around it; deeper, the files that meet it, cut after the
      one that reaches the size limit. */
  method CompactRange(level: nat, files: seq<File>, begin: Option<UserKey>, end: Option<UserKey>, limit: nat)
    returns (seed: Option<seq<File>>)
    requires LevelOk(level, files)
    ensures seed.None? <==> forall f | f in files :: !Overlaps(f, begin, end)
    ensures seed.Some? ==> Seed(level, files, seed.value) && RangeSeed(level, files, begin, end, limit, seed.value)
    ensures level > 0 && seed.Some? ==> forall f | f in seed.value :: f in files && Overlaps(f, begin, end)
  {
    var inputs;
    ghost var lo, hi;
    inputs, lo, hi := GetOverlappingInputs(level, files, begin, end);
    NoneSelected(files, begin, end, lo, hi);
    if inputs == [] {
      return None;
    }
    SelectionIsSeed(level, files, lo, hi);
    if level > 0 {
      inputs := CutAtLimit(inputs, limit);
      CutIsSeed(level, files, begin, end, limit, inputs);
    }
    seed := Some(inputs);
  }

  /** At level 0 everything that meets the least closed range around the range; deeper, the first of
      the files that meet it. */
  ghost predicate RangeSeed(level: nat, files: seq<File>, begin: Option<UserKey>, end: Option<UserKey>, limit: nat,
                            seed: seq<File>) {
    if level == 0 then exists lo, hi :: LeastClosed(files, begin, end, lo, hi) && seed == Select(files, lo, hi)
    else IsCut(Select(files, begin, end), limit, seed)
  }

  /** The least closed range around a range is empty exactly when the range is. */
  lemma NoneSelected(files: seq<File>, begin: Option<UserKey>, end: Option<UserKey>, lo: Option<UserKey>, hi: Option<UserKey>)
    requires Wider(lo, hi, begin, end)
    requires ClosedRange(files, begin, end) ==> Wider(begin, end, lo, hi)
    ensures Select(files, lo, hi) == [] <==> forall f | f in files :: !Overlaps(f, begin, end)
  {
    InSelect(files, lo, hi);
    var chosen := Select(files, lo, hi);
    if chosen != [] {
      var f := chosen[0];
      assert f in files && Overlaps(f, lo, hi);
      assert ClosedRange(files, begin, end) ==> Overlaps(f, begin, end);
    }
  }

  lemma CutIsSeed(level: nat, files: seq<File>, begin: Option<UserKey>, end: Option<UserKey>, limit: nat, cut: seq<File>)
    requires level > 0 && LevelOk(level, files) && IsCut(Select(files, begin, end), limit, cut)
    ensures Seed(level, files, cut)
    ensures forall f | f in cut :: f in files && Overlaps(f, begin, end)
  {
    SelectionIsSeed(level, files, begin, end);
    PrefixIsSeed(level, files, Select(files, begin, end), cut);
    InSelect(files, begin, end);
  }

  /** The first files, up to the one with which their sizes reach the limit. */
  ghost predicate IsCut(files: seq<File>, limit: nat, cut: seq<File>) {
    && cut <= files && cut != []
    && (cut == files || TotalFileSize(cut) >= limit)
    && forall n | 0 < n < |cut| :: TotalFileSize(files[..n]) < limit
  }

  method CutAtLimit(files: seq<File>, limit: nat) returns (cut: seq<File>)
    requires files != []
    ensures IsCut(files, limit, cut)
  {
    var total := 0;
    for i := 0 to |files|
      invariant total == TotalFileSize(files[..i])
      invariant forall n | 0 < n <= i :: TotalFileSize(files[..n]) < limit
    {
      assert files[..i + 1][..i] == files[..i];
      total := total + files[i].size;
      if total >= limit {
        return files[..i + 1];
      }
    }
    cut := files;
  }

  lemma PrefixIsSeed(level: nat, files: seq<File>, chosen: seq<File>, prefix: seq<File>)
    requires level > 0 && LevelOk(level, files) && Seed(level, files, chosen)
    requires prefix != [] && prefix <= chosen
    ensures Seed(level, files, prefix)
  {
    forall f, g, h | f in prefix && h in prefix && g in files && Between(f, g, h)
      ensures g in prefix
    {
      assert f in chosen && h in chosen && g in chosen;
      var j :| 0 <= j < |chosen| && chosen[j] == g;
      var k :| 0 <= k < |prefix| && prefix[k] == h;
      RangeNotEmpty(g);
      RangeNotEmpty(h);
      assert chosen[k] == h && j <= k;
      assert prefix[j] == g;
    }
  }

  // --------------------------------------------------- level for a flushed memtable

  ghost predicate SomeOverlap(files: seq<File>, lo: UserKey, hi: UserKey) {
    exists f :: f in files && Overlaps(f, Some(lo), Some(hi))
  }

  /** As deep as it may go: past no level that it meets, and past none whose second next level has too
      much in its range. */
  ghost predicate IsPickedLevel(levels: seq<seq<File>>, lo: UserKey, hi: UserKey, maxGrandparent: nat, level: nat)
    requires |levels| == NUM_LEVELS
  {
    && level <= MAX_MEM_COMPACT_LEVEL
    && (level > 0 ==> forall l | 0 <= l <= level :: !SomeOverlap(levels[l], lo, hi))
    && (forall l | 2 <= l < level + 2 :: TotalFileSize(Select(levels[l], Some(lo), Some(hi))) <= maxGrandparent)
    // and no shallower than it has to be
    && (level < MAX_MEM_COMPACT_LEVEL ==>
          || SomeOverlap(levels[0], lo, hi) || SomeOverlap(levels[level + 1], lo, hi)
          || TotalFileSize(Select(levels[level + 2], Some(lo), Some(hi))) > maxGrandparent)
  }

  /** Pushes a new table past levels it does not meet, up to level 2. */
  method PickLevelForMemTableOutput(levels: seq<seq<File>>, lo: UserKey, hi: UserKey, maxGrandparent: nat)
    returns (level: nat)
    requires |levels| == NUM_LEVELS && forall l | 0 <= l < NUM_LEVELS :: LevelOk(l, levels[l])
    ensures IsPickedLevel(levels, lo, hi, maxGrandparent, level)
  {
    level := 0;
    var overlap := SomeFileOverlapsRange(false, levels[0], Some(lo), Some(hi));
    if !overlap {
      while level < MAX_MEM_COMPACT_LEVEL
        invariant level <= MAX_MEM_COMPACT_LEVEL
        invariant forall l | 0 <= l <= level :: !SomeOverlap(levels[l], lo, hi)
        invariant forall l | 2 <= l < level + 2 :: TotalFileSize(Select(levels[l], Some(lo), Some(hi))) <= maxGrandparent
      {
        overlap := SomeFileOverlapsRange(true, levels[level + 1], Some(lo), Some(hi));
        if overlap {
          break;
        }
        if level + 2 < NUM_LEVELS {
          var overlaps, _, _ := GetOverlappingInputs(level + 2, levels[level + 2], Some(lo), Some(hi));
          if TotalFileSize(overlaps) > maxGrandparent {
            break;
          }
        }
        level := level + 1;
      }
    }
  }
}
