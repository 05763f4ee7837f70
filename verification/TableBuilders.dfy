/** Building a table file (table/table_builder.cc): data blocks, filter, index, footer. */
module TableBuilders {
  import opened Keys
  import opened Coding
  import opened LogFormat
  import opened BlockFormat
  import opened Comparators
  import opened Filters
  import opened TableFormat

  // ---------------------------------------------------------------------- state

  /** The comparator, all entries, where they are cut into blocks, and where and how each block is stored. */
  datatype Shape = Shape(cmp: Order, es: seq<KV>, bounds: seq<nat>, handles: seq<Handle>, marks: seq<seq<nat>>)

  ghost predicate Rising(rank: Bytes -> real, es: seq<KV>) {
    forall i, j | 0 <= i < j < |es| :: rank(es[i].key) < rank(es[j].key)
  }

  ghost predicate Cuts(s: Shape) {
    && |s.bounds| == |s.handles| + 1 && |s.marks| == |s.handles| && s.bounds[0] == 0
    && (forall i, j | 0 <= i < j <= |s.handles| :: s.bounds[i] < s.bounds[j])
    && (forall i | 0 <= i <= |s.handles| :: s.bounds[i] <= |s.es|)
  }

  function Block(s: Shape, i: nat): seq<KV>
    requires Cuts(s) && i < |s.handles|
  {
    s.es[s.bounds[i]..s.bounds[i + 1]]
  }

  ghost predicate BlockHeld(crc: Checksum, file: Bytes, s: Shape, i: nat)
    requires Cuts(s) && i < |s.handles|
  {
    IsMarks(s.marks[i], |Block(s, i)|) && Holds(crc, file, s.handles[i], BlockBytes(Block(s, i), s.marks[i]))
  }

  ghost predicate DataOk(crc: Checksum, file: Bytes, s: Shape) {
    Rising(s.cmp.rank, s.es) && Cuts(s) && forall i | 0 <= i < |s.handles| :: BlockHeld(crc, file, s, i)
  }

  /** The index entry of block `i` has a key between its last key and the first key after it. */
  ghost predicate IndexEntry(s: Shape, index: seq<KV>, i: nat)
    requires Cuts(s) && i < |s.handles| && i < |index|
  {
    assert s.bounds[i] < s.bounds[i + 1];
    && s.bounds[i + 1] < |s.es|
    && index[i] == KV(s.cmp.separator(s.es[s.bounds[i + 1] - 1].key, s.es[s.bounds[i + 1]].key), HandleBytes(s.handles[i]))
  }

  /** Every stored block has its index entry, but the last one may be waiting for the next key. */
  ghost predicate IndexOk(s: Shape, index: seq<KV>, pending: bool, handle: Handle)
    requires Cuts(s)
  {
    && |index| + (if pending then 1 else 0) == |s.handles|
    && (forall i | 0 <= i < |index| :: IndexEntry(s, index, i))
    && (pending ==> handle == s.handles[|index|] && s.bounds[|s.handles|] == |s.es|)
  }

  /** The keys of block `i` are in its filter. */
  ghost predicate Filtered(s: Shape, i: nat, groups: seq<seq<Bytes>>, pending: seq<Bytes>)
    requires Cuts(s) && i < |s.handles|
  {
    forall j | s.bounds[i] <= j < s.bounds[i + 1] :: Kept(groups, pending, s.handles[i].offset / 2048, s.es[j].key)
  }

  ghost predicate FilterOk(s: Shape, offset: nat, groups: seq<seq<Bytes>>, pending: seq<Bytes>)
    requires Cuts(s)
  {
    && |groups| == offset / 2048 && (forall i | 0 <= i < |s.handles| :: Filtered(s, i, groups, pending))
    && forall j | s.bounds[|s.handles|] <= j < |s.es| :: s.es[j].key in pending
  }

  /** The entries not yet stored. */
  ghost predicate IsOpen(s: Shape, open: seq<KV>)
    requires Cuts(s)
  {
    && s.bounds[|s.handles|] + |open| == |s.es|
    && forall i | 0 <= i < |open| :: open[i] == s.es[s.bounds[|s.handles|] + i]
  }

  /** The keys gathered for filters, if there are to be any. */
  datatype Gathered = NoFilter | Gathered(groups: seq<seq<Bytes>>, pending: seq<Bytes>)

  /** The file, the entries still open, the index, and the keys for filters. */
  datatype Core = Core(crc: Checksum, file: Bytes, s: Shape, open: seq<KV>, index: seq<KV>, pending: bool, handle: Handle,
                       keys: Gathered)

  ghost predicate CoreOk(c: Core) {
    && DataOk(c.crc, c.file, c.s) && IsOpen(c.s, c.open) && IndexOk(c.s, c.index, c.pending, c.handle)
    && (c.keys.Gathered? ==> FilterOk(c.s, |c.file|, c.keys.groups, c.keys.pending))
  }

  ghost function StartCore(crc: Checksum, cmp: Order, keys: Gathered): (c: Core)
    requires keys.Gathered? ==> keys == Gathered([], [])
    ensures CoreOk(c) && c == Core(crc, [], Shape(cmp, [], [0], [], []), [], [], false, Handle(0, 0), keys)
  {
    Core(crc, [], Shape(cmp, [], [0], [], []), [], [], false, Handle(0, 0), keys)
  }

  // ------------------------------------------------------------ adding an entry

  function Plus(s: Shape, kv: KV): Shape {
    s.(es := s.es + [kv])
  }

  lemma PlusData(crc: Checksum, file: Bytes, s: Shape, kv: KV, open: seq<KV>)
    requires DataOk(crc, file, s) && Rising(s.cmp.rank, s.es + [kv])
    ensures DataOk(crc, file, Plus(s, kv)) && (IsOpen(s, open) ==> IsOpen(Plus(s, kv), open + [kv]))
  {
    forall i | 0 <= i < |s.handles|
      ensures BlockHeld(crc, file, Plus(s, kv), i)
    {
      assert Block(Plus(s, kv), i) == Block(s, i);
      assert BlockHeld(crc, file, s, i);
    }
  }

  lemma PlusIndex(s: Shape, kv: KV, index: seq<KV>, pending: bool, handle: Handle)
    requires Cuts(s) && IndexOk(s, index, pending, handle)
    ensures IndexOk(Plus(s, kv), MoreIndex(s, kv.key, index, pending, handle), false, handle)
  {
    var index1 := MoreIndex(s, kv.key, index, pending, handle);
    forall i | 0 <= i < |index1|
      ensures IndexEntry(Plus(s, kv), index1, i)
    {
      if i < |index| {
        assert IndexEntry(s, index, i);
        PlusIndexEntry(s, kv, index, index1, i);
      } else {
        PlusLastEntry(s, kv, index, handle);
      }
    }
  }

  /** The index, with the entry that was waiting for the next key. */
  function MoreIndex(s: Shape, key: Bytes, index: seq<KV>, pending: bool, handle: Handle): seq<KV>
  {
    if pending then index + [KV(s.cmp.separator(LastKey(s.es), key), HandleBytes(handle))] else index
  }

  lemma PlusLastEntry(s: Shape, kv: KV, index: seq<KV>, handle: Handle)
    requires Cuts(s) && IndexOk(s, index, true, handle)
    ensures s.es != []
    ensures IndexEntry(Plus(s, kv), MoreIndex(s, kv.key, index, true, handle), |index|)
  {
    assert s.bounds[0] < s.bounds[|s.handles|];
    assert Plus(s, kv).es[|s.es| - 1] == s.es[|s.es| - 1] && Plus(s, kv).es[|s.es|] == kv;
  }

  lemma PlusIndexEntry(s: Shape, kv: KV, index: seq<KV>, index1: seq<KV>, i: nat)
    requires Cuts(s) && index <= index1
    requires i < |s.handles| && i < |index| && IndexEntry(s, index, i)
    ensures IndexEntry(Plus(s, kv), index1, i)
  {
  }

  /** One more entry; it completes the index entry of a block just stored. */
  function AfterAdd(c: Core, kv: KV): Core {
    c.(s := Plus(c.s, kv), open := c.open + [kv], index := MoreIndex(c.s, kv.key, c.index, c.pending, c.handle), pending := false,
       keys := MoreKeys(c.keys, kv.key))
  }

  ghost function PlusCore(c: Core, kv: KV): (d: Core)
    requires CoreOk(c) && Rising(c.s.cmp.rank, c.s.es + [kv])
    ensures CoreOk(d) && d == AfterAdd(c, kv)
  {
    PlusData(c.crc, c.file, c.s, kv, c.open);
    PlusIndex(c.s, kv, c.index, c.pending, c.handle);
    if c.keys.Gathered? then
      PlusFilter(c.s, kv, |c.file|, c.keys.groups, c.keys.pending);
      AfterAdd(c, kv)
    else
      AfterAdd(c, kv)
  }

  lemma PlusIs(s: Shape, kv: KV)
    ensures Plus(s, kv).cmp == s.cmp && |Plus(s, kv).es| == |s.es| + 1 && LastKey(Plus(s, kv).es) == kv.key
  {
  }

  function MoreKeys(keys: Gathered, key: Bytes): Gathered {
    if keys.Gathered? then Gathered(keys.groups, keys.pending + [key]) else keys
  }

  lemma PlusFilter(s: Shape, kv: KV, offset: nat, groups: seq<seq<Bytes>>, pending: seq<Bytes>)
    requires Cuts(s) && FilterOk(s, offset, groups, pending)
    ensures FilterOk(Plus(s, kv), offset, groups, pending + [kv.key])
  {
    forall i | 0 <= i < |s.handles|
      ensures Filtered(Plus(s, kv), i, groups, pending + [kv.key])
    {
      assert Filtered(s, i, groups, pending);
    }
  }

  // ------------------------------------------------------------ storing a block

  function Stored(s: Shape, h: Handle, m: seq<nat>): Shape {
    s.(bounds := s.bounds + [|s.es|], handles := s.handles + [h], marks := s.marks + [m])
  }

  lemma StoredData(crc: Checksum, file: Bytes, s: Shape, open: seq<KV>, h: Handle, m: seq<nat>, file1: Bytes)
    requires DataOk(crc, file, s) && IsOpen(s, open) && open != [] && file <= file1
    requires Cuts(Stored(s, h, m)) && BlockHeld(crc, file1, Stored(s, h, m), |s.handles|)
    ensures DataOk(crc, file1, Stored(s, h, m)) && IsOpen(Stored(s, h, m), [])
  {
    var s1, more := Stored(s, h, m), file1[|file|..];
    StoredCuts(s, open, h, m);
    assert file + more == file1;
    OldBlocksHeld(crc, file, more, s, s1);
  }

  lemma NewBlockHeld(crc: Checksum, file: Bytes, s: Shape, open: seq<KV>, m: seq<nat>, contents: Bytes)
    requires Cuts(s) && IsOpen(s, open) && open != [] && IsMarks(m, |open|) && contents == BlockBytes(open, m)
    ensures var s1 := Stored(s, Handle(|file|, |contents|), m);
            Cuts(s1) && BlockHeld(crc, file + contents + Trailer(crc, contents), s1, |s.handles|)
  {
    StoredCuts(s, open, Handle(|file|, |contents|), m);
    HoldsNew(crc, file, contents);
  }

  lemma OldBlocksHeld(crc: Checksum, file: Bytes, more: Bytes, s: Shape, s1: Shape)
    requires Cuts(s) && Cuts(s1) && |s1.handles| >= |s.handles| && forall i | 0 <= i < |s.handles| :: BlockHeld(crc, file, s, i)
    requires forall i | 0 <= i < |s.handles| :: Block(s1, i) == Block(s, i)
    requires s.handles <= s1.handles && s.marks <= s1.marks
    ensures forall i | 0 <= i < |s.handles| :: BlockHeld(crc, file + more, s1, i)
  {
    forall i | 0 <= i < |s.handles|
      ensures BlockHeld(crc, file + more, s1, i)
    {
      assert BlockHeld(crc, file, s, i);
      HeldAgain(crc, file, more, s, s1, i);
    }
  }

  lemma StoredCuts(s: Shape, open: seq<KV>, h: Handle, m: seq<nat>)
    requires Cuts(s) && IsOpen(s, open) && open != []
    ensures Cuts(Stored(s, h, m)) && Block(Stored(s, h, m), |s.handles|) == open
    ensures forall i | 0 <= i < |s.handles| :: Block(Stored(s, h, m), i) == Block(s, i)
  {
  }

  lemma HeldAgain(crc: Checksum, file: Bytes, more: Bytes, s: Shape, s1: Shape, i: nat)
    requires Cuts(s) && Cuts(s1) && i < |s.handles| && i < |s1.handles| && BlockHeld(crc, file, s, i)
    requires Block(s1, i) == Block(s, i) && s1.handles[i] == s.handles[i] && s1.marks[i] == s.marks[i]
    ensures BlockHeld(crc, file + more, s1, i)
  {
    HoldsMore(crc, file, more, s.handles[i], BlockBytes(Block(s, i), s.marks[i]));
  }

  lemma StoredIndex(s: Shape, h: Handle, m: seq<nat>, index: seq<KV>, handle: Handle)
    requires Cuts(s) && s.bounds[|s.handles|] < |s.es| && IndexOk(s, index, false, handle)
    ensures Cuts(Stored(s, h, m)) && IndexOk(Stored(s, h, m), index, true, h)
  {
    MoreCuts(s, h, m);
    forall i | 0 <= i < |index|
      ensures IndexEntry(Stored(s, h, m), index, i)
    {
      assert IndexEntry(s, index, i);
      SameEntry(s, Stored(s, h, m), index, i);
    }
  }

  lemma MoreCuts(s: Shape, h: Handle, m: seq<nat>)
    requires Cuts(s) && s.bounds[|s.handles|] < |s.es|
    ensures var t := Stored(s, h, m);
            && Cuts(t) && t.es == s.es && t.bounds[|t.handles|] == |t.es| && |t.handles| == |s.handles| + 1
            && t.handles[|s.handles|] == h && (forall i | 0 <= i < |s.handles| :: t.handles[i] == s.handles[i])
            && forall i | 0 <= i <= |s.handles| :: t.bounds[i] == s.bounds[i]
  {
  }

  lemma SameEntry(s: Shape, t: Shape, index: seq<KV>, i: nat)
    requires Cuts(s) && Cuts(t) && t.es == s.es && t.cmp == s.cmp && i < |s.handles| && i < |t.handles| && i < |index|
    requires t.handles[i] == s.handles[i] && t.bounds[i + 1] == s.bounds[i + 1] && IndexEntry(s, index, i)
    ensures IndexEntry(t, index, i)
  {
  }

  /** The open entries stored as a block at the end of the file. */
  function AfterStore(c: Core, m: seq<nat>): Core
    requires IsMarks(m, |c.open|)
  {
    var contents := BlockBytes(c.open, m);
    var file := c.file + contents + Trailer(c.crc, contents);
    var h := Handle(|c.file|, |contents|);
    Core(c.crc, file, Stored(c.s, h, m), [], c.index, true, h, AfterStart(c.keys, |file|))
  }

  ghost function StoredCore(c: Core, m: seq<nat>): (d: Core)
    requires CoreOk(c) && c.open != [] && IsMarks(m, |c.open|)
    ensures CoreOk(d) && d == AfterStore(c, m) && !c.pending
    ensures c.keys.Gathered? ==> |c.keys.groups| <= |d.file| / 2048
  {
    var contents := BlockBytes(c.open, m);
    var h := Handle(|c.file|, |contents|);
    var d := AfterStore(c, m);
    NewBlockHeld(c.crc, c.file, c.s, c.open, m, contents);
    StoredData(c.crc, c.file, c.s, c.open, h, m, d.file);
    StoredIndex(c.s, h, m, c.index, c.handle);
    if c.keys.Gathered? then
      FilesGrow(|c.file|, |d.file|);
      StartIsStarted(c.keys, |d.file|);
      StoredFilter(c.s, h, m, |d.file|, c.keys.groups, c.keys.pending, d.keys.groups, d.keys.pending);
      d
    else
      d
  }

  lemma FilesGrow(n: nat, m: nat)
    requires n <= m
    ensures n / 2048 <= m / 2048
  {
  }

  /** What starting the filters of a block at `offset` does to the keys: the waiting keys go
      into the next filter, and further new filters have no keys. */
  function AfterStart(keys: Gathered, offset: nat): Gathered {
    if keys.NoFilter? || offset / 2048 <= |keys.groups| then keys
    else Gathered(keys.groups + [keys.pending] + seq(offset / 2048 - |keys.groups| - 1, i => []), [])
  }

  lemma StartIsStarted(keys: Gathered, offset: nat)
    requires keys.Gathered? && |keys.groups| <= offset / 2048
    ensures var keys1 := AfterStart(keys, offset);
            |keys1.groups| == offset / 2048 && Started(keys.groups, keys.pending, keys1.groups, keys1.pending)
  {
  }

  lemma StartedIsStart(keys: Gathered, keys1: Gathered, offset: nat)
    requires keys.Gathered? && keys1.Gathered? && |keys.groups| <= offset / 2048 == |keys1.groups|
    requires Started(keys.groups, keys.pending, keys1.groups, keys1.pending)
    ensures keys1 == AfterStart(keys, offset)
  {
    if |keys1.groups| > |keys.groups| {
      assert keys1.groups == AfterStart(keys, offset).groups;
    }
  }

  lemma StoredFilter(s: Shape, h: Handle, m: seq<nat>, offset1: nat, groups: seq<seq<Bytes>>, pending: seq<Bytes>,
                     groups1: seq<seq<Bytes>>, pending1: seq<Bytes>)
    requires Cuts(s) && s.bounds[|s.handles|] < |s.es| && FilterOk(s, h.offset, groups, pending)
    requires Started(groups, pending, groups1, pending1) && |groups1| == offset1 / 2048
    ensures Cuts(Stored(s, h, m)) && FilterOk(Stored(s, h, m), offset1, groups1, pending1)
  {
    var s1, n := Stored(s, h, m), |s.handles|;
    forall i | 0 <= i <= n
      ensures Filtered(s1, i, groups1, pending1)
    {
      assert i < n ==> Filtered(s, i, groups, pending);
      forall j | s1.bounds[i] <= j < s1.bounds[i + 1]
        ensures Kept(groups1, pending1, s1.handles[i].offset / 2048, s.es[j].key)
      {
        assert Kept(groups, pending, s1.handles[i].offset / 2048, s.es[j].key);
        KeptByStart(groups, pending, groups1, pending1, s1.handles[i].offset / 2048, s.es[j].key);
      }
    }
  }

  // -------------------------------------------------------------- whole tables

  /** The bytes of "filter.". */
  const FILTER_PREFIX: Bytes := [102, 105, 108, 116, 101, 114, 46]

  /** What a table file holds, and where. */
  datatype Layout = Layout(s: Shape, index: seq<KV>, indexMarks: seq<nat>, indexHandle: Handle,
                           meta: seq<KV>, metaMarks: seq<nat>, metaHandle: Handle,
                           groups: seq<seq<Bytes>>, filterHandle: Handle)

  /** A filter policy and its name. */
  datatype Named = Named(name: Bytes, policy: Policy)

  /** All entries are in blocks, and every block has its index entry. */
  ghost predicate BlocksOk(crc: Checksum, file: Bytes, t: Layout) {
    && DataOk(crc, file, t.s) && t.s.bounds[|t.s.handles|] == |t.s.es| && |t.index| == |t.s.handles|
    && forall i | 0 <= i < |t.index| :: t.index[i] == KV(IndexKey(t.s, i), HandleBytes(t.s.handles[i]))
  }

  /** The key the index has for block `i`: not before its last key, and before the next key. */
  function IndexKey(s: Shape, i: nat): Bytes
    requires Cuts(s) && i < |s.handles|
  {
    assert s.bounds[i] < s.bounds[i + 1];
    var last := s.es[s.bounds[i + 1] - 1].key;
    if s.bounds[i + 1] < |s.es| then s.cmp.separator(last, s.es[s.bounds[i + 1]].key) else s.cmp.successor(last)
  }

  /** The filter block, if there is one, has the keys of every block. */
  ghost predicate MetaOk(crc: Checksum, filter: Option<Named>, file: Bytes, t: Layout)
    requires Cuts(t.s)
  {
    match filter
    case None => t.meta == []
    case Some(f) =>
      && t.meta == [KV(FILTER_PREFIX + f.name, HandleBytes(t.filterHandle))]
      && Holds(crc, file, t.filterHandle, FilterBlock(f.policy, t.groups))
      && forall i | 0 <= i < |t.s.handles| :: InFilter(t.s, i, t.groups)
  }

  ghost predicate InFilter(s: Shape, i: nat, groups: seq<seq<Bytes>>)
    requires Cuts(s) && i < |s.handles|
  {
    var g := s.handles[i].offset / 2048;
    g < |groups| && forall j | s.bounds[i] <= j < s.bounds[i + 1] :: s.es[j].key in groups[g]
  }

  ghost predicate IsTable(crc: Checksum, filter: Option<Named>, file: Bytes, t: Layout) {
    && BlocksOk(crc, file, t) && MetaOk(crc, filter, file, t)
    && IsMarks(t.indexMarks, |t.index|) && Holds(crc, file, t.indexHandle, BlockBytes(t.index, t.indexMarks))
    && IsMarks(t.metaMarks, |t.meta|) && Holds(crc, file, t.metaHandle, BlockBytes(t.meta, t.metaMarks))
    && EndsWith(file, FooterBytes(t.metaHandle, t.indexHandle))
  }

  lemma DataLater(crc: Checksum, file: Bytes, file1: Bytes, s: Shape)
    requires DataOk(crc, file, s) && file <= file1
    ensures DataOk(crc, file1, s)
  {
    assert file1 == file + file1[|file|..];
    OldBlocksHeld(crc, file, file1[|file|..], s, s);
  }

  /** The index, with the entry of the last block. */
  function FinalIndex(c: Core): seq<KV>
  {
    if c.pending then c.index + [KV(c.s.cmp.successor(LastKey(c.s.es)), HandleBytes(c.handle))] else c.index
  }

  /** With no entries open, the index lacks only the entry of the last block. */
  lemma IndexDone(c: Core)
    requires CoreOk(c) && c.open == []
    ensures |FinalIndex(c)| == |c.s.handles| && c.s.bounds[|c.s.handles|] == |c.s.es|
    ensures forall i | 0 <= i < |FinalIndex(c)| :: FinalIndex(c)[i] == KV(IndexKey(c.s, i), HandleBytes(c.s.handles[i]))
  {
    var index := FinalIndex(c);
    forall i | 0 <= i < |index|
      ensures index[i] == KV(IndexKey(c.s, i), HandleBytes(c.s.handles[i]))
    {
      if i < |c.index| {
        KeyOfEntry(c.s, c.index, i);
      } else {
        KeyOfLast(c.s, i);
      }
    }
  }

  lemma KeyOfEntry(s: Shape, index: seq<KV>, i: nat)
    requires Cuts(s) && i < |s.handles| && i < |index| && IndexEntry(s, index, i)
    ensures index[i] == KV(IndexKey(s, i), HandleBytes(s.handles[i]))
  {
  }

  lemma KeyOfLast(s: Shape, i: nat)
    requires Cuts(s) && i + 1 == |s.handles| && s.bounds[i + 1] == |s.es|
    ensures IndexKey(s, i) == s.cmp.successor(LastKey(s.es))
  {
  }

  lemma FilterDone(c: Core)
    requires CoreOk(c) && c.open == [] && c.keys.Gathered?
    ensures forall i | 0 <= i < |c.s.handles| :: InFilter(c.s, i, FinalGroups(c.keys))
  {
    forall i | 0 <= i < |c.s.handles|
      ensures InFilter(c.s, i, FinalGroups(c.keys))
    {
      assert Filtered(c.s, i, c.keys.groups, c.keys.pending);
      assert c.s.bounds[i] < c.s.bounds[i + 1];
      assert Kept(c.keys.groups, c.keys.pending, c.s.handles[i].offset / 2048, c.s.es[c.s.bounds[i]].key);
    }
  }

  /** Filter, metaindex and index were written one after the other, up to `f1`, `f2` and `f3`. */
  ghost predicate TailOk(filter: Option<Named>, c: Core, f1: Bytes, f2: Bytes, f3: Bytes, t: Layout)
  {
    && t.s == c.s && c.file <= f1 <= f2 <= f3 && t.index == FinalIndex(c) && (filter.Some? <==> c.keys.Gathered?)
    && (filter.Some? ==>
          && t.groups == FinalGroups(c.keys) && t.meta == [KV(FILTER_PREFIX + filter.value.name, HandleBytes(t.filterHandle))]
          && Holds(c.crc, f1, t.filterHandle, FilterBlock(filter.value.policy, t.groups)))
    && (filter.None? ==> t.meta == [])
    && IsMarks(t.metaMarks, |t.meta|) && Holds(c.crc, f2, t.metaHandle, BlockBytes(t.meta, t.metaMarks))
    && IsMarks(t.indexMarks, |t.index|) && Holds(c.crc, f3, t.indexHandle, BlockBytes(t.index, t.indexMarks))
  }

  lemma TailMakesTable(filter: Option<Named>, c: Core, f1: Bytes, f2: Bytes, f3: Bytes, t: Layout)
    requires CoreOk(c) && c.open == [] && TailOk(filter, c, f1, f2, f3, t)
    ensures IsTable(c.crc, filter, f3 + FooterBytes(t.metaHandle, t.indexHandle), t)
  {
    var file := f3 + FooterBytes(t.metaHandle, t.indexHandle);
    IndexDone(c);
    DataLater(c.crc, c.file, file, c.s);
    HoldsLater(c.crc, f2, file, t.metaHandle, BlockBytes(t.meta, t.metaMarks));
    HoldsLater(c.crc, f3, file, t.indexHandle, BlockBytes(t.index, t.indexMarks));
    if filter.Some? {
      FilterDone(c);
      HoldsLater(c.crc, f1, file, t.filterHandle, FilterBlock(filter.value.policy, t.groups));
    }
    assert EndsWith(file, FooterBytes(t.metaHandle, t.indexHandle));
  }

  function FinalGroups(keys: Gathered): seq<seq<Bytes>>
    requires keys.Gathered?
  {
    if keys.pending == [] then keys.groups else keys.groups + [keys.pending]
  }

  // --------------------------------------------------------------------- builder

  /** The filter block builder of a new table, if there is a filter policy. */
  method FirstFilters(filter: Option<Named>) returns (block: FilterBlockBuilder?)
    ensures block == null <==> filter.None?
    ensures block != null ==> fresh(block) && block.Valid() && block.policy == filter.value.policy
    ensures block != null ==> block.groups == [] && block.pending == []
  {
    block := null;
    if filter.Some? {
      block := new FilterBlockBuilder(filter.value.policy);
      block.StartBlock(0);
    }
  }

  /** A block of its entries, with the restarts of the interval, decides whether they stay open. */
  ghost predicate StoredWhenFull(interval: nat, blockSize: nat, es: seq<KV>, open: seq<KV>) {
    exists size: nat :: HasSize(interval, es, size) && open == if size >= blockSize then [] else es
  }

  class TableBuilder {
    const cmp: Order
    const blockSize: nat
    const crc: Checksum
    var file: Bytes
    var offset: nat
    const dataBlock: BlockBuilder
    const indexBlock: BlockBuilder
    const filterBlock: FilterBlockBuilder?
    const filterName: Bytes
    var lastKey: Bytes
    var numEntries: nat
    var pendingIndexEntry: bool
    var pendingHandle: Handle
    ghost var core: Core

    ghost function Repr(): set<object> {
      {this, dataBlock, indexBlock} + if filterBlock == null then {} else {filterBlock}
    }

    /** All entries added. */
    ghost function Entries(): seq<KV>
      reads this
    {
      core.s.es
    }

    ghost predicate Valid()
      reads Repr()
    {
      Linked() && CoreOk(core)
    }

    /** The fields are those of `core`. */
    ghost predicate Linked()
      reads Repr()
    {
      FieldsOf(core)
    }

    ghost predicate FieldsOf(c: Core)
      reads Repr()
    {
      && dataBlock != indexBlock && dataBlock.Valid() && indexBlock.Valid() && (filterBlock != null ==> filterBlock.Valid())
      && c == Core(crc, file, c.s, dataBlock.entries, indexBlock.entries, pendingIndexEntry, pendingHandle, Keys())
      && c.s.cmp == cmp && offset == |file| && numEntries == |c.s.es| && lastKey == LastKey(c.s.es)
    }

    ghost function Keys(): Gathered
      reads filterBlock
    {
      if filterBlock == null then NoFilter else Gathered(filterBlock.groups, filterBlock.pending)
    }

    ghost function FilterUsed(): Option<Named> {
      if filterBlock == null then None else Some(Named(filterName, filterBlock.policy))
    }

    constructor (cmp: Order, blockSize: nat, restartInterval: nat, crc: Checksum, filter: Option<Named>)
      requires restartInterval >= 1
      // which makes it valid, as any start is
      ensures Linked() && core == StartCore(crc, cmp, if filter.None? then NoFilter else Gathered([], []))
      ensures fresh(dataBlock) && fresh(indexBlock) && (filterBlock != null ==> fresh(filterBlock))
      ensures this.cmp == cmp && this.blockSize == blockSize && this.crc == crc && FilterUsed() == filter
      ensures dataBlock.interval == restartInterval && indexBlock.interval == 1
    {
      ghost var c := StartCore(crc, cmp, if filter.None? then NoFilter else Gathered([], []));
      this.cmp, this.blockSize, this.crc, file, offset := cmp, blockSize, crc, [], 0;
      var block := FirstFilters(filter);
      dataBlock := new BlockBuilder(restartInterval);
      indexBlock := new BlockBuilder(1);
      filterBlock, filterName := block, if filter.Some? then filter.value.name else [];
      lastKey, numEntries, pendingIndexEntry, pendingHandle := [], 0, false, Handle(0, 0);
      core := c;
    }

    /** Adds an entry after all others. The open block is stored once it has the size of a block. */
    method Add(key: Bytes, value: Bytes)
      requires Valid() && Rising(cmp.rank, Entries() + [KV(key, value)])
      modifies Repr()
      ensures Valid() && Entries() == old(Entries()) + [KV(key, value)]
      ensures StoredWhenFull(dataBlock.interval, blockSize, old(core.open) + [KV(key, value)], core.open)
    {
      AddEntry(key, value, PlusCore(core, KV(key, value)));
      BlockHasSize();
      if dataBlock.CurrentSizeEstimate() >= blockSize {
        Flush();
      }
    }

    lemma BlockHasSize()
      requires Linked()
      ensures HasSize(dataBlock.interval, core.open, dataBlock.CurrentSizeEstimate())
    {
      dataBlock.SizeIs();
    }

    method AddEntry(key: Bytes, value: Bytes, ghost more: Core)
      requires Linked() && more == AfterAdd(core, KV(key, value))
      modifies this`lastKey, this`numEntries, this`core, this`pendingIndexEntry, indexBlock, dataBlock, filterBlock
      ensures Linked() && core == more
    {
      AddToBlocks(key, value, core, more);
      core := more;
    }

    method AddToBlocks(key: Bytes, value: Bytes, ghost c: Core, ghost more: Core)
      requires FieldsOf(c) && more == AfterAdd(c, KV(key, value))
      modifies this`lastKey, this`numEntries, this`pendingIndexEntry, indexBlock, dataBlock, filterBlock
      ensures FieldsOf(more)
    {
      AddIndexEntry(key, c);
      ghost var indexed := c.(index := MoreIndex(c.s, key, c.index, c.pending, c.handle), pending := false);
      AddFilterKey(key, indexed);
      AddData(key, value, indexed.(keys := MoreKeys(indexed.keys, key)), more);
    }

    method AddFilterKey(key: Bytes, ghost c: Core)
      requires FieldsOf(c)
      modifies filterBlock
      ensures FieldsOf(c.(keys := MoreKeys(c.keys, key)))
    {
      if filterBlock != null {
        filterBlock.AddKey(key);
      }
    }

    /** The entry goes to the open block. */
    method AddData(key: Bytes, value: Bytes, ghost c: Core, ghost more: Core)
      requires FieldsOf(c) && more == c.(s := Plus(c.s, KV(key, value)), open := c.open + [KV(key, value)])
      modifies this`lastKey, this`numEntries, dataBlock
      ensures FieldsOf(more)
    {
      PlusIs(c.s, KV(key, value));
      dataBlock.Add(key, value);
      lastKey, numEntries := key, numEntries + 1;
    }

    /** The index entry of a block just stored, now that the key after it is known. */
    method AddIndexEntry(key: Bytes, ghost c: Core)
      requires FieldsOf(c)
      modifies this`pendingIndexEntry, indexBlock
      ensures FieldsOf(c.(index := MoreIndex(c.s, key, c.index, c.pending, c.handle), pending := false))
    {
      if pendingIndexEntry {
        var separator := cmp.separator(lastKey, key);
        indexBlock.Add(separator, HandleBytes(pendingHandle));
        pendingIndexEntry := false;
      }
    }

    /** Stores the entries gathered so far as a data block. */
    method Flush()
      requires Valid()
      modifies Repr()
      ensures Valid() && Entries() == old(Entries()) && core.open == []
    {
      dataBlock.HasInterval();
      if dataBlock.Empty() {
        return;
      }
      StoreBlock(StoredCore(core, dataBlock.marks));
    }

    method StoreBlock(ghost more: Core)
      requires Linked() && IsMarks(dataBlock.marks, |core.open|) && more == AfterStore(core, dataBlock.marks)
      requires core.keys.Gathered? ==> |core.keys.groups| <= |more.file| / 2048
      modifies this`file, this`offset, this`pendingHandle, this`pendingIndexEntry, this`core, dataBlock, filterBlock
      ensures Linked() && core == more
    {
      WriteData(more);
      StartFilter();
    }

    /** The open entries go to the file; their index entry waits for the next key. */
    method WriteData(ghost more: Core)
      requires dataBlock.Valid()
      modifies this`file, this`offset, this`pendingHandle, this`pendingIndexEntry, this`core, dataBlock
      ensures dataBlock.Valid() && dataBlock.entries == []
      ensures var contents := BlockBytes(old(dataBlock.entries), old(dataBlock.marks));
              && pendingHandle == Handle(old(offset), |contents|) && pendingIndexEntry && core == more
              && file == old(file) + contents + Trailer(crc, contents) && offset == old(offset) + |file| - |old(file)|
    {
      pendingHandle := WriteBlock(dataBlock);
      pendingIndexEntry, core := true, more;
    }

    method StartFilter()
      requires filterBlock != null ==> filterBlock.Valid() && |filterBlock.groups| <= offset / 2048
      modifies filterBlock
      ensures filterBlock != null ==> filterBlock.Valid()
      ensures Keys() == AfterStart(old(Keys()), offset)
    {
      if filterBlock != null {
        ghost var keys := Keys();
        filterBlock.StartBlock(offset);
        StartedIsStart(keys, Keys(), offset);
      }
    }

    /** Writes what is still open, then filter, metaindex, index and footer. */
    method Finish() returns (ghost t: Layout)
      requires Valid()
      modifies Repr()
      ensures IsTable(crc, FilterUsed(), file, t) && t.s.cmp == cmp && t.s.es == old(Entries())
    {
      Flush();
      ghost var c := core;
      dataBlock.HasInterval();
      ghost var f1, f2, f3;
      f1, f2, f3, t := FinishTail(c);
      TailMakesTable(FilterUsed(), c, f1, f2, f3, t);
    }

    method FinishTail(ghost c: Core) returns (ghost f1: Bytes, ghost f2: Bytes, ghost f3: Bytes, ghost t: Layout)
      requires Linked() && c == core && dataBlock.interval >= 1
      modifies this`file, this`offset, this`pendingIndexEntry, indexBlock, filterBlock
      ensures TailOk(FilterUsed(), c, f1, f2, f3, t) && file == f3 + FooterBytes(t.metaHandle, t.indexHandle)
    {
      var filterHandle, metaHandle, indexHandle: Handle;
      ghost var groups, meta, metaMarks, index, indexMarks;
      filterHandle, groups := FinishFilter(c);
      f1 := file;
      metaHandle, meta, metaMarks := FinishMeta(filterHandle);
      f2 := file;
      indexHandle, index, indexMarks := FinishIndex(c);
      f3 := file;
      file := file + FooterBytes(metaHandle, indexHandle);
      offset := offset + |FooterBytes(metaHandle, indexHandle)|;
      t := Layout(c.s, index, indexMarks, indexHandle, meta, metaMarks, metaHandle, groups, filterHandle);
    }

    method FinishFilter(ghost c: Core) returns (handle: Handle, ghost groups: seq<seq<Bytes>>)
      requires offset == |file| && (filterBlock != null ==> filterBlock.Valid()) && c.keys == Keys()
      modifies this`file, this`offset, filterBlock
      ensures old(file) <= file && offset == |file|
      ensures filterBlock != null ==>
                groups == FinalGroups(c.keys) && Holds(crc, file, handle, FilterBlock(filterBlock.policy, groups))
    {
      handle, groups := Handle(0, 0), [];
      if filterBlock != null {
        var contents := filterBlock.Finish();
        groups := filterBlock.groups;
        HoldsNew(crc, file, contents);
        handle := WriteRawBlock(contents);
      }
    }

    /** The metaindex block: where the filter block is. */
    method FinishMeta(filterHandle: Handle) returns (handle: Handle, ghost meta: seq<KV>, ghost marks: seq<nat>)
      requires offset == |file| && dataBlock.interval >= 1
      modifies this`file, this`offset
      ensures old(file) <= file && offset == |file|
      ensures meta == if filterBlock == null then [] else [KV(FILTER_PREFIX + filterName, HandleBytes(filterHandle))]
      ensures IsMarks(marks, |meta|) && Holds(crc, file, handle, BlockBytes(meta, marks))
    {
      var block := new BlockBuilder(dataBlock.interval);
      if filterBlock != null {
        block.Add(FILTER_PREFIX + filterName, HandleBytes(filterHandle));
      }
      block.HasInterval();
      meta, marks := block.entries, block.marks;
      HoldsNew(crc, file, BlockBytes(meta, marks));
      handle := WriteBlock(block);
    }

    method FinishIndex(ghost c: Core) returns (handle: Handle, ghost index: seq<KV>, ghost marks: seq<nat>)
      requires offset == |file| && indexBlock.Valid()
      requires c.index == indexBlock.entries && c.pending == pendingIndexEntry && c.handle == pendingHandle
      requires c.s.cmp == cmp && LastKey(c.s.es) == lastKey
      modifies this`file, this`offset, this`pendingIndexEntry, indexBlock
      ensures old(file) <= file && offset == |file|
      ensures index == FinalIndex(c) && IsMarks(marks, |index|) && Holds(crc, file, handle, BlockBytes(index, marks))
    {
      if pendingIndexEntry {
        var successor := cmp.successor(lastKey);
        indexBlock.Add(successor, HandleBytes(pendingHandle));
        pendingIndexEntry := false;
      }
      indexBlock.HasInterval();
      index, marks := indexBlock.entries, indexBlock.marks;
      HoldsNew(crc, file, BlockBytes(index, marks));
      handle := WriteBlock(indexBlock);
    }

    method WriteBlock(block: BlockBuilder) returns (handle: Handle)
      requires block.Valid()
      modifies this`file, this`offset, block
      ensures block.Valid() && block.entries == []
      ensures handle == Handle(old(offset), |BlockBytes(old(block.entries), old(block.marks))|)
      ensures file == old(file) + BlockBytes(old(block.entries), old(block.marks))
                      + Trailer(crc, BlockBytes(old(block.entries), old(block.marks)))
      ensures offset == old(offset) + |file| - |old(file)|
    {
      var raw := block.Finish();
      handle := WriteRawBlock(raw);
      block.Reset();
    }

    method WriteRawBlock(contents: Bytes) returns (handle: Handle)
      modifies this`file, this`offset
      ensures handle == Handle(old(offset), |contents|)
      ensures file == old(file) + contents + Trailer(crc, contents)
      ensures offset == old(offset) + |file| - |old(file)|
    {
      handle := Handle(offset, |contents|);
      file := file + contents;
      file := file + [0] + Fixed(Mask(crc(contents + [0])), 4);
      offset := offset + |contents| + TRAILER;
    }
  }
}
