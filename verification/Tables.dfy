/** Reading a table file (table/table.cc): a lookup finds the first entry at or after its key,
    if that entry is for the same user key. */
module Tables {
  import opened Keys
  import opened Coding
  import opened LogFormat
  import opened BlockFormat
  import Blocks
  import opened Comparators
  import opened Filters
  import opened TableFormat
  import opened TableBuilders

  // -------------------------------------------------------------- seeking a block

  /** Number of leading entries below the target. */
  function FirstAt(rank: Bytes -> real, es: seq<KV>, target: Bytes): (n: nat)
    ensures n <= |es| && forall i | 0 <= i < n :: rank(es[i].key) < rank(target)
    ensures n < |es| ==> rank(es[n].key) >= rank(target)
  {
    if es == [] || rank(es[0].key) >= rank(target) then 0 else 1 + FirstAt(rank, es[1..], target)
  }

  function EntryAt(es: seq<KV>, n: nat): Option<KV> {
    if n < |es| then Some(es[n]) else None
  }

  lemma FirstAtIs(rank: Bytes -> real, es: seq<KV>, target: Bytes, n: nat)
    requires n <= |es| && forall i | 0 <= i < |es| :: i < n <==> rank(es[i].key) < rank(target)
    ensures FirstAt(rank, es, target) == n
  {
    var m := FirstAt(rank, es, target);
    assert m < |es| ==> !(rank(es[m].key) < rank(target));
    assert n < |es| ==> !(rank(es[n].key) < rank(target));
  }

  method SeekBlock(data: Bytes, rank: Bytes -> real, target: Bytes, ghost es: seq<KV>, ghost marks: seq<nat>)
    returns (r: Option<KV>)
    requires Blocks.IsBlockOf(data, es, marks) && Rising(rank, es)
    ensures r == EntryAt(es, FirstAt(rank, es, target))
  {
    var found := Blocks.Open(data, es, marks);
    var iter := new Blocks.BlockIter(data, found.value.0, found.value.1, rank, es, marks);
    iter.Seek(target);
    FirstAtIs(rank, es, target, iter.pos);
    r := None;
    if iter.AtEntry() {
      r := Some(KV(iter.key, iter.Value()));
    }
  }

  // -------------------------------------------------------------------- locating

  /** The index key of block `i` separates it from what follows. */
  ghost predicate SeparatesAt(rank: Bytes -> real, s: Shape, index: seq<KV>, i: nat)
    requires Cuts(s) && i < |s.handles| && i < |index|
  {
    && s.bounds[i] < s.bounds[i + 1] <= |s.es|
    && rank(s.es[s.bounds[i + 1] - 1].key) <= rank(index[i].key)
    && (s.bounds[i + 1] < |s.es| ==> rank(index[i].key) < rank(s.es[s.bounds[i + 1]].key))
  }

  ghost predicate Separates(rank: Bytes -> real, s: Shape, index: seq<KV>) {
    Cuts(s) && Rising(rank, s.es) && |index| == |s.handles| && forall i | 0 <= i < |index| :: SeparatesAt(rank, s, index, i)
  }

  ghost predicate IndexIs(s: Shape, index: seq<KV>)
    requires Cuts(s)
  {
    |index| == |s.handles| && forall i | 0 <= i < |index| :: index[i] == KV(IndexKey(s, i), HandleBytes(s.handles[i]))
  }

  lemma IndexSeparates(s: Shape, index: seq<KV>)
    requires Cuts(s) && Rising(s.cmp.rank, s.es) && IndexIs(s, index)
    ensures Separates(s.cmp.rank, s, index)
  {
    forall i | 0 <= i < |index|
      ensures SeparatesAt(s.cmp.rank, s, index, i)
    {
      IndexKeySeparates(s, index, i);
    }
  }

  lemma IndexKeySeparates(s: Shape, index: seq<KV>, i: nat)
    requires Cuts(s) && Rising(s.cmp.rank, s.es) && i < |s.handles| && i < |index| && index[i].key == IndexKey(s, i)
    ensures SeparatesAt(s.cmp.rank, s, index, i)
  {
    assert s.bounds[i] < s.bounds[i + 1];
    var b := s.bounds[i + 1];
    if b < |s.es| {
      assert SeparatorOk(s.cmp, s.es[b - 1].key, s.es[b].key);
    } else {
      assert SuccessorOk(s.cmp, s.es[b - 1].key);
    }
  }

  lemma IndexRises(rank: Bytes -> real, s: Shape, index: seq<KV>)
    requires Separates(rank, s, index)
    ensures Rising(rank, index)
  {
    forall i, j | 0 <= i < j < |index|
      ensures rank(index[i].key) < rank(index[j].key)
    {
      assert SeparatesAt(rank, s, index, i) && SeparatesAt(rank, s, index, j);
      assert s.bounds[i + 1] <= s.bounds[j] < s.bounds[j + 1];
    }
  }

  /** Past the last index key there are no entries. */
  lemma PastTheEnd(rank: Bytes -> real, s: Shape, index: seq<KV>, k: Bytes)
    requires Separates(rank, s, index) && s.bounds[|s.handles|] == |s.es| && FirstAt(rank, index, k) == |index|
    ensures FirstAt(rank, s.es, k) == |s.es|
  {
    if s.es != [] {
      assert SeparatesAt(rank, s, index, |index| - 1);
      assert rank(index[|index| - 1].key) < rank(k);
    }
  }

  /** The block the index points to begins at or before the first entry from `k` on. */
  lemma NotBeforeBlock(rank: Bytes -> real, s: Shape, index: seq<KV>, k: Bytes, i: nat)
    requires Separates(rank, s, index) && i == FirstAt(rank, index, k) < |index|
    ensures s.bounds[i] <= FirstAt(rank, s.es, k)
  {
    if i > 0 {
      assert SeparatesAt(rank, s, index, i - 1);
      assert rank(index[i - 1].key) < rank(k);
    }
  }

  /** Looking in that block finds the entry, or the entry is in a later block. */
  lemma InBlock(rank: Bytes -> real, s: Shape, index: seq<KV>, k: Bytes, i: nat)
    requires Separates(rank, s, index) && i == FirstAt(rank, index, k) < |index|
    ensures s.bounds[i] <= FirstAt(rank, s.es, k)
    ensures EntryAt(Block(s, i), FirstAt(rank, Block(s, i), k))
         == if FirstAt(rank, s.es, k) < s.bounds[i + 1] then Some(s.es[FirstAt(rank, s.es, k)]) else None
  {
    NotBeforeBlock(rank, s, index, k, i);
    assert SeparatesAt(rank, s, index, i);
    FirstInSlice(rank, s.es, k, s.bounds[i], s.bounds[i + 1]);
  }

  lemma FirstInSlice(rank: Bytes -> real, es: seq<KV>, k: Bytes, b: nat, e: nat)
    requires Rising(rank, es) && b <= e <= |es| && b <= FirstAt(rank, es, k)
    ensures var n := FirstAt(rank, es, k);
            EntryAt(es[b..e], FirstAt(rank, es[b..e], k)) == if n < e then Some(es[n]) else None
  {
    var n, block := FirstAt(rank, es, k), es[b..e];
    var m := if n < e then n - b else |block|;
    forall j | 0 <= j < |block|
      ensures j < m <==> rank(block[j].key) < rank(k)
    {
      BeforeFirst(rank, es, k, b + j);
    }
    FirstAtIs(rank, block, k, m);
  }

  lemma BeforeFirst(rank: Bytes -> real, es: seq<KV>, k: Bytes, i: nat)
    requires Rising(rank, es) && i < |es|
    ensures i < FirstAt(rank, es, k) <==> rank(es[i].key) < rank(k)
  {
    var n := FirstAt(rank, es, k);
    assert n < i ==> rank(es[n].key) < rank(es[i].key);
  }

  /** An entry in a later block than the one the index points to does not count for `k`. */
  lemma LaterIsOther(s: Shape, index: seq<KV>, k: Bytes, i: nat, n: nat)
    requires Cuts(s) && Rising(s.cmp.rank, s.es) && i < |s.handles| && i < |index| && index[i].key == IndexKey(s, i)
    requires s.bounds[i + 1] <= n < |s.es|
    requires s.cmp.rank(s.es[s.bounds[i + 1] - 1].key) < s.cmp.rank(k) <= s.cmp.rank(index[i].key)
    ensures s.cmp.user(s.es[n].key) != s.cmp.user(k)
  {
    assert s.bounds[i] < s.bounds[i + 1];
    var b := s.bounds[i + 1];
    assert HidesNothing(s.cmp, s.es[b - 1].key, s.es[b].key, k, s.es[n].key);
  }

  // --------------------------------------------------------------------- answers

  /** What a lookup in a table may answer: the first entry from `k` on, and that entry for sure if
      it counts for `k`. */
  ghost predicate IsAnswer(c: Comparator, es: seq<KV>, k: Bytes, r: Option<KV>) {
    var n := FirstAt(c.rank, es, k);
    && (r.Some? ==> r == EntryAt(es, n))
    && (n < |es| && c.user(es[n].key) == c.user(k) ==> r == Some(es[n]))
  }

  /** The entry, if not in block `i`, does not count for `k`. */
  lemma OnlyInBlock(s: Shape, index: seq<KV>, k: Bytes, i: nat)
    requires Cuts(s) && Rising(s.cmp.rank, s.es) && IndexIs(s, index) && i == FirstAt(s.cmp.rank, index, k) < |index|
    ensures var n := FirstAt(s.cmp.rank, s.es, k);
            && s.bounds[i] <= n && (s.bounds[i + 1] <= n < |s.es| ==> s.cmp.user(s.es[n].key) != s.cmp.user(k))
            && EntryAt(Block(s, i), FirstAt(s.cmp.rank, Block(s, i), k)) == if n < s.bounds[i + 1] then Some(s.es[n]) else None
  {
    var n := FirstAt(s.cmp.rank, s.es, k);
    IndexSeparates(s, index);
    InBlock(s.cmp.rank, s, index, k, i);
    assert SeparatesAt(s.cmp.rank, s, index, i);
    if s.bounds[i + 1] <= n < |s.es| {
      LaterIsOther(s, index, k, i, n);
    }
  }

  lemma BlockAnswers(s: Shape, index: seq<KV>, k: Bytes, i: nat)
    requires Cuts(s) && Rising(s.cmp.rank, s.es) && IndexIs(s, index) && i == FirstAt(s.cmp.rank, index, k) < |index|
    ensures IsAnswer(s.cmp, s.es, k, EntryAt(Block(s, i), FirstAt(s.cmp.rank, Block(s, i), k)))
  {
    OnlyInBlock(s, index, k, i);
  }

  lemma EndAnswers(s: Shape, index: seq<KV>, k: Bytes)
    requires Cuts(s) && Rising(s.cmp.rank, s.es) && IndexIs(s, index) && FirstAt(s.cmp.rank, index, k) == |index|
    requires s.bounds[|s.handles|] == |s.es|
    ensures IsAnswer(s.cmp, s.es, k, None)
  {
    IndexSeparates(s, index);
    PastTheEnd(s.cmp.rank, s, index, k);
  }

  /** A filter that says no is right about the entries that count. */
  lemma FilterAnswers(p: Policy, groups: seq<seq<Bytes>>, s: Shape, index: seq<KV>, k: Bytes, i: nat)
    requires Cuts(s) && Rising(s.cmp.rank, s.es) && IndexIs(s, index) && i == FirstAt(s.cmp.rank, index, k) < |index|
    requires Suits(p, s.cmp) && InFilter(s, i, groups) && !BlockMayMatch(p, groups, s.handles[i].offset, k)
    ensures IsAnswer(s.cmp, s.es, k, None)
  {
    var n := FirstAt(s.cmp.rank, s.es, k);
    OnlyInBlock(s, index, k, i);
    if s.bounds[i] <= n < s.bounds[i + 1] {
      KeptIsMatched(p, groups, s, i, n, k);
    }
  }

  /** The filter policy tells apart only keys that the lookups tell apart. */
  ghost predicate Suits(p: Policy, c: Comparator) {
    IsPolicy(p) && forall a, b | c.user(a) == c.user(b) :: p.hash(a) == p.hash(b)
  }

  lemma KeptIsMatched(p: Policy, groups: seq<seq<Bytes>>, s: Shape, i: nat, n: nat, k: Bytes)
    requires Cuts(s) && i < |s.handles| && s.bounds[i] <= n < s.bounds[i + 1] && Suits(p, s.cmp)
    requires InFilter(s, i, groups) && !BlockMayMatch(p, groups, s.handles[i].offset, k)
    ensures s.cmp.user(s.es[n].key) != s.cmp.user(k)
  {
    var g, kept := s.handles[i].offset / 2048, s.es[n].key;
    assert kept in groups[g];
    var j: nat :| j < |groups[g]| && groups[g][j] == kept;
    if s.cmp.user(kept) == s.cmp.user(k) {
      BloomMatches(p, groups[g], j, k);
    }
  }

  // ----------------------------------------------------------------------- table

  /** Handles are 64-bit, and offsets inside a block 32-bit. */
  ghost predicate Fits(built: Option<Named>, file: Bytes, t: Layout) {
    && |file| < TWO_64 && t.indexHandle.size < TWO_32 && t.metaHandle.size < TWO_32
    && (built.Some? ==> t.filterHandle.size < TWO_32)
    && forall i | 0 <= i < |t.s.handles| :: t.s.handles[i].size < TWO_32
  }

  /** No block of a table below 4 GB is too long. */
  lemma SmallFits(crc: Checksum, built: Option<Named>, file: Bytes, t: Layout)
    requires IsTable(crc, built, file, t) && |file| < TWO_32
    ensures Fits(built, file, t)
  {
    forall i | 0 <= i < |t.s.handles|
      ensures t.s.handles[i].size < TWO_32
    {
      assert BlockHeld(crc, file, t.s, i);
    }
  }

  /** A filter policy is known by its name. */
  ghost predicate SameNameSamePolicy(a: Option<Named>, b: Option<Named>) {
    a.Some? && b.Some? && a.value.name == b.value.name ==> a.value.policy == b.value.policy
  }

  method ReadBlockAt(crc: Checksum, file: Bytes, verify: bool, handleValue: Bytes, ghost h: Handle, ghost contents: Bytes)
    returns (r: Option<Bytes>)
    requires IsHandle(h) && handleValue == HandleBytes(h) && Holds(crc, file, h, contents)
    ensures r == Some(contents)
  {
    HandleRoundTrip(h, []);
    assert HandleBytes(h) + [] == HandleBytes(h);
    var handle, rest := DecodeHandle(handleValue);
    r := ReadBlock(crc, file, verify, handle.value);
  }

  class Table {
    const cmp: Order
    const crc: Checksum
    const file: Bytes
    const verify: bool
    var indexBlock: Bytes
    var filter: FilterBlockReader?
    ghost const built: Option<Named>
    ghost const t: Layout

    ghost predicate IsOpen() {
      && IsTable(crc, built, file, t) && Fits(built, file, t)
      && Separates(t.s.cmp.rank, t.s, t.index) && t.s.cmp == cmp
    }

    ghost predicate Valid()
      reads this
    {
      && IsOpen() && indexBlock == BlockBytes(t.index, t.indexMarks)
      && (filter != null ==> built.Some? && filter.Valid() && FilterIs(filter.policy, filter.filters) && filter.Reads())
    }

    ghost predicate FilterIs(policy: Policy, filters: seq<Bytes>)
      requires built.Some?
    {
      policy == built.value.policy && filters == FiltersOf(policy, t.groups)
    }

    /** Opens a finished table, with its filter if it was built with the policy of that name. */
    constructor Open(cmp: Order, crc: Checksum, file: Bytes, verify: bool, policy: Option<Named>,
                     ghost built: Option<Named>, ghost t: Layout)
      requires IsTable(crc, built, file, t) && Fits(built, file, t) && SameNameSamePolicy(policy, built) && t.s.cmp == cmp
      ensures Valid() && this.t == t && this.built == built
    {
      this.cmp, this.crc, this.file, this.verify := cmp, crc, file, verify;
      this.built, this.t := built, t;
      HandlesFit(crc, built, file, t);
      IndexSeparates(t.s, t.index);
      var footer := ReadFooter(file);
      var index := ReadBlock(crc, file, verify, footer.value.1);
      indexBlock := index.value;
      filter := null;
      new;
      if policy.Some? {
        ReadMeta(footer.value.0, policy.value);
      }
    }

    /** Looks for a filter of the policy's name. */
    method ReadMeta(metaHandle: Handle, policy: Named)
      requires Valid() && metaHandle == t.metaHandle && SameNameSamePolicy(Some(policy), built)
      modifies this`filter
      ensures Valid()
    {
      var meta := ReadBlock(crc, file, verify, metaHandle);
      var key := FILTER_PREFIX + policy.name;
      var entry := SeekBlock(meta.value, ByteRank, key, t.meta, t.metaMarks);
      if entry.Some? && entry.value.key == key {
        SameName(FILTER_PREFIX, policy.name, built.value.name);
        var contents := ReadBlockAt(crc, file, verify, entry.value.value, t.filterHandle, FilterBlock(policy.policy, t.groups));
        FilterBlockIsLayout(policy.policy, t.groups, contents.value);
        filter := new FilterBlockReader(policy.policy, contents.value,
                                        FiltersOf(policy.policy, t.groups), StartsOf(policy.policy, t.groups));
      }
    }

    /** The entry at or after `k` in the block the index points to, unless the filter rules it out. */
    method InternalGet(k: Bytes) returns (r: Option<KV>)
      requires Valid() && (built.Some? ==> Suits(built.value.policy, cmp))
      ensures IsAnswer(cmp, t.s.es, k, r)
    {
      ghost var i := FirstAt(cmp.rank, t.index, k);
      IndexRises(cmp.rank, t.s, t.index);
      var entry := SeekBlock(indexBlock, cmp.rank, k, t.index, t.indexMarks);
      if entry.None? {
        EndAnswers(t.s, t.index, k);
        return None;
      }
      var mayMatch := FilterMayMatch(entry.value.value, k, i);
      if !mayMatch {
        FilterAnswers(built.value.policy, t.groups, t.s, t.index, k, i);
        return None;
      }
      r := GetFromBlock(entry.value.value, k, i);
      BlockAnswers(t.s, t.index, k, i);
    }

    method FilterMayMatch(handleValue: Bytes, k: Bytes, ghost i: nat) returns (r: bool)
      requires Valid() && i < |t.s.handles| && handleValue == HandleBytes(t.s.handles[i])
      ensures r || (built.Some? && InFilter(t.s, i, t.groups)
                    && !BlockMayMatch(built.value.policy, t.groups, t.s.handles[i].offset, k))
    {
      HandlesFit(crc, built, file, t);
      HandleRoundTrip(t.s.handles[i], []);
      assert handleValue + [] == handleValue;
      var handle, rest := DecodeHandle(handleValue);
      r := true;
      if filter != null && handle.Some? {
        r := filter.KeyMayMatch(handle.value.offset, k);
        FilterMeaning(built.value.policy, t.groups, handle.value.offset, k);
      }
    }

    method GetFromBlock(handleValue: Bytes, k: Bytes, ghost i: nat) returns (r: Option<KV>)
      requires Valid() && i < |t.s.handles| && handleValue == HandleBytes(t.s.handles[i])
      ensures r == EntryAt(Block(t.s, i), FirstAt(cmp.rank, Block(t.s, i), k))
    {
      HandlesFit(crc, built, file, t);
      assert BlockHeld(crc, file, t.s, i);
      BlockOpens(crc, file, t.s, i);
      var block := ReadBlockAt(crc, file, verify, handleValue, t.s.handles[i], BlockBytes(Block(t.s, i), t.s.marks[i]));
      r := SeekBlock(block.value, cmp.rank, k, Block(t.s, i), t.s.marks[i]);
    }
  }

  lemma FilterMeaning(p: Policy, groups: seq<seq<Bytes>>, blockOffset: nat, k: Bytes)
    ensures var g := blockOffset / 2048;
            BlockMayMatch(p, groups, blockOffset, k) <==> (g < |groups| ==> MayMatch(p, k, FiltersOf(p, groups)[g]))
  {
  }

  lemma SameName(prefix: Bytes, a: Bytes, b: Bytes)
    ensures prefix + a == prefix + b ==> a == b
  {
    assert (prefix + a)[|prefix|..] == a && (prefix + b)[|prefix|..] == b;
  }

  /** Every data block can be searched once it is read. */
  lemma BlockOpens(crc: Checksum, file: Bytes, s: Shape, i: nat)
    requires Cuts(s) && i < |s.handles| && BlockHeld(crc, file, s, i) && Rising(s.cmp.rank, s.es)
    requires s.handles[i].size < TWO_32
    ensures Blocks.IsBlockOf(BlockBytes(Block(s, i), s.marks[i]), Block(s, i), s.marks[i])
    ensures Rising(s.cmp.rank, Block(s, i))
  {
  }

  lemma HandlesFit(crc: Checksum, built: Option<Named>, file: Bytes, t: Layout)
    requires IsTable(crc, built, file, t) && Fits(built, file, t)
    ensures IsHandle(t.indexHandle) && IsHandle(t.metaHandle) && (built.Some? ==> IsHandle(t.filterHandle))
    ensures forall i | 0 <= i < |t.s.handles| :: IsHandle(t.s.handles[i])
  {
    HandleFits(crc, file, t.indexHandle, BlockBytes(t.index, t.indexMarks));
    HandleFits(crc, file, t.metaHandle, BlockBytes(t.meta, t.metaMarks));
    if built.Some? {
      HandleFits(crc, file, t.filterHandle, FilterBlock(built.value.policy, t.groups));
    }
    forall i | 0 <= i < |t.s.handles|
      ensures IsHandle(t.s.handles[i])
    {
      assert BlockHeld(crc, file, t.s, i);
      HandleFits(crc, file, t.s.handles[i], BlockBytes(Block(t.s, i), t.s.marks[i]));
    }
  }

  lemma HandleFits(crc: Checksum, file: Bytes, h: Handle, contents: Bytes)
    requires Holds(crc, file, h, contents) && |file| < TWO_64
    ensures IsHandle(h)
  {
  }

  // --------------------------------------------------------------------- theorem

  /** What a lookup returns once the user key has been compared. */
  function Found(c: Comparator, es: seq<KV>, k: Bytes): Option<KV> {
    var n := FirstAt(c.rank, es, k);
    if n < |es| && c.user(es[n].key) == c.user(k) then Some(es[n]) else None
  }

  lemma RisingPrefix(rank: Bytes -> real, es: seq<KV>, i: nat)
    requires Rising(rank, es) && i < |es|
    ensures es[..i] + [KV(es[i].key, es[i].value)] == es[..i + 1] && Rising(rank, es[..i + 1])
  {
  }

  /** Builds a table file of the entries. */
  method Build(cmp: Order, es: seq<KV>, blockSize: nat, restartInterval: nat, crc: Checksum, filter: Option<Named>)
    returns (file: Bytes, ghost t: Layout)
    requires Rising(cmp.rank, es) && restartInterval >= 1
    ensures IsTable(crc, filter, file, t) && t.s.cmp == cmp && t.s.es == es
  {
    var builder := new TableBuilder(cmp, blockSize, restartInterval, crc, filter);
    AddAll(builder, es);
    t := builder.Finish();
    file := builder.file;
  }

  method AddAll(builder: TableBuilder, es: seq<KV>)
    requires builder.Valid() && builder.Entries() == [] && Rising(builder.cmp.rank, es)
    modifies builder.Repr()
    ensures builder.Valid() && builder.Entries() == es
  {
    for i := 0 to |es|
      invariant builder.Valid() && builder.Entries() == es[..i]
    {
      RisingPrefix(builder.cmp.rank, es, i);
      builder.Add(es[i].key, es[i].value);
    }
    assert es[..|es|] == es;
  }

  /** Opens a table file and looks up the first entry from `k` on, if it counts for `k`. */
  method OpenAndGet(cmp: Order, crc: Checksum, file: Bytes, verify: bool, policy: Option<Named>, k: Bytes,
                    ghost built: Option<Named>, ghost t: Layout) returns (r: Option<KV>)
    requires IsTable(crc, built, file, t) && Fits(built, file, t) && SameNameSamePolicy(policy, built) && t.s.cmp == cmp
    requires built.Some? ==> Suits(built.value.policy, cmp)
    ensures r == Found(cmp, t.s.es, k)
  {
    var table := new Table.Open(cmp, crc, file, verify, policy, built, t);
    r := table.InternalGet(k);
    if r.Some? && cmp.user(r.value.key) != cmp.user(k) {
      r := None;
    }
  }

  // ------------------------------------------------- tables as runs of entries

  /** Filters of internal keys look at the user key only. */
  function OfUserKey(p: Policy): Policy {
    Policy(p.bitsPerKey, p.probes, (k: Bytes) => p.hash(UserPart(k)))
  }

  lemma UserFilterSuits(p: Policy)
    requires IsPolicy(p)
    ensures Suits(OfUserKey(p), InternalOrder())
  {
  }

  ghost predicate Parses(k: Bytes) {
    IsInternal(k) && TagOf(k) % 256 <= 1
  }

  function ParseKey(k: Bytes): InternalKey
    requires IsInternal(k)
  {
    InternalKey(ByteRank(UserOf(k)), TagOf(k) / 256, if TagOf(k) % 256 == 1 then Value else Deletion)
  }

  function ParseEntry(kv: KV): Entry
    requires IsInternal(kv.key)
  {
    Entry(ParseKey(kv.key), kv.value)
  }

  ghost predicate IsRunOf(rank: Bytes -> real, es: seq<KV>, run: seq<Entry>) {
    && |run| == |es| && (forall i | 0 <= i < |es| :: Parses(es[i].key) && run[i] == ParseEntry(es[i]))
    && forall a, b | Parses(a) && Parses(b) :: SameOrder(rank, a, b)
  }

  ghost predicate SameOrder(rank: Bytes -> real, a: Bytes, b: Bytes)
    requires Parses(a) && Parses(b)
  {
    Less(ParseKey(a), ParseKey(b)) <==> rank(a) < rank(b)
  }

  lemma ParsedOrder(a: Bytes, b: Bytes)
    requires Parses(a) && Parses(b)
    ensures SameOrder(InternalRank, a, b)
  {
    InternalRankIsOrder(a, b);
    BeforeIsRank(UserOf(a), UserOf(b));
    assert ParseKey(a).Tag() == TagOf(a) && ParseKey(b).Tag() == TagOf(b);
  }

  lemma RunIsSorted(rank: Bytes -> real, es: seq<KV>, run: seq<Entry>)
    requires Rising(rank, es) && IsRunOf(rank, es, run)
    ensures Sorted(run)
  {
    forall i, j | 0 <= i < j < |es|
      ensures Less(run[i].key, run[j].key)
    {
      assert SameOrder(rank, es[i].key, es[j].key);
    }
  }

  lemma SameFirst(rank: Bytes -> real, es: seq<KV>, run: seq<Entry>, k: Bytes)
    requires Rising(rank, es) && IsRunOf(rank, es, run) && Parses(k)
    ensures LowerBound(run, ParseKey(k)) == FirstAt(rank, es, k)
  {
    var n := FirstAt(rank, es, k);
    forall i | 0 <= i < |es|
      ensures Less(run[i].key, ParseKey(k)) <==> i < n
    {
      assert SameOrder(rank, es[i].key, k);
      assert n <= i ==> rank(es[n].key) <= rank(es[i].key);
    }
    LowerBoundIs(run, ParseKey(k), n);
  }

  lemma ParsedLookup(user: Bytes, snapshot: nat)
    requires snapshot <= MAX_SEQUENCE
    ensures var k := Encode(user, LookupKey(ByteRank(user), snapshot).Tag());
            Parses(k) && UserOf(k) == user && ParseKey(k) == LookupKey(ByteRank(user), snapshot)
  {
    EncodeParts(user, LookupKey(ByteRank(user), snapshot).Tag());
  }

  /** A lookup in a table of internal keys answers as a lookup in the sorted run of its entries. */
  lemma TableIsRun(es: seq<KV>, run: seq<Entry>, user: Bytes, snapshot: nat)
    requires Rising(InternalRank, es) && snapshot <= MAX_SEQUENCE && |run| == |es|
    requires forall i | 0 <= i < |es| :: Parses(es[i].key) && run[i] == ParseEntry(es[i])
    ensures Sorted(run)
    ensures Find(run, ByteRank(user), snapshot)
         == match Found(InternalOrder(), es, Encode(user, LookupKey(ByteRank(user), snapshot).Tag()))
            case None => None
            case Some(kv) => if IsInternal(kv.key) then Some(ParseEntry(kv)) else None
  {
    var k := Encode(user, LookupKey(ByteRank(user), snapshot).Tag());
    ParsedLookup(user, snapshot);
    forall a, b | Parses(a) && Parses(b)
      ensures SameOrder(InternalRank, a, b)
    {
      ParsedOrder(a, b);
    }
    RunIsSorted(InternalRank, es, run);
    SameFirst(InternalRank, es, run, k);
    var n := FirstAt(InternalRank, es, k);
    if n < |es| {
      BeforeIsRank(UserOf(es[n].key), user);
    }
  }

  /** Looks up a user key at a snapshot in a table file of internal keys, built and opened with the
      filter policy for user keys: the answer of the sorted run of its entries. */
  method FindInTable(crc: Checksum, file: Bytes, verify: bool, policy: Option<Named>, user: Bytes, snapshot: nat,
                     ghost p: Policy, ghost built: Option<Named>, ghost t: Layout, ghost run: seq<Entry>)
    returns (r: Option<Entry>)
    requires IsTable(crc, built, file, t) && Fits(built, file, t) && SameNameSamePolicy(policy, built) && t.s.cmp == InternalOrder()
    requires built.Some? ==> IsPolicy(p) && built.value.policy == OfUserKey(p)
    requires snapshot <= MAX_SEQUENCE && |run| == |t.s.es|
    requires forall i | 0 <= i < |run| :: Parses(t.s.es[i].key) && run[i] == ParseEntry(t.s.es[i])
    ensures r == Find(run, ByteRank(user), snapshot)
  {
    if built.Some? {
      UserFilterSuits(p);
    }
    var k := Encode(user, LookupKey(ByteRank(user), snapshot).Tag());
    var found := OpenAndGet(InternalOrder(), crc, file, verify, policy, k, built, t);
    TableIsRun(t.s.es, run, user, snapshot);
    FoundIsEntry(t.s.es, k);
    r := if found.Some? then Some(ParseEntry(found.value)) else None;
  }

  lemma FoundIsEntry(es: seq<KV>, k: Bytes)
    ensures Found(InternalOrder(), es, k).Some? ==> Found(InternalOrder(), es, k).value in es
  {
  }

  /** Builds a table file of internal keys, with the filter policy for user keys or none, and looks up a
      user key at a snapshot in it: the answer of the sorted run of the entries. */
  method BuildAndFind(crc: Checksum, es: seq<KV>, blockSize: nat, restartInterval: nat, filter: Option<Named>, verify: bool,
                      user: Bytes, snapshot: nat, ghost p: Policy, ghost run: seq<Entry>)
    returns (file: Bytes, r: Option<Entry>)
    requires Rising(InternalRank, es) && restartInterval >= 1 && snapshot <= MAX_SEQUENCE
    requires filter.Some? ==> IsPolicy(p) && filter.value.policy == OfUserKey(p)
    requires |run| == |es| && forall i | 0 <= i < |es| :: Parses(es[i].key) && run[i] == ParseEntry(es[i])
    ensures Sorted(run) && (|file| < TWO_32 ==> r == Find(run, ByteRank(user), snapshot))
  {
    r := None;
    ghost var t;
    file, t := Build(InternalOrder(), es, blockSize, restartInterval, crc, filter);
    TableIsRun(es, run, user, snapshot);
    if |file| < TWO_32 {
      SmallFits(crc, filter, file, t);
      r := FindInTable(crc, file, verify, filter, user, snapshot, p, filter, t, run);
    }
  }
}
