/** Bloom filters (util/bloom.cc) and the filter block of a table (table/filter_block.cc). */
module Filters {
  import opened Keys
  import opened Coding
  import opened Bits
  import opened BlockFormat
  import opened Sequences

  /** Bits per key, probes per key, and the hash of a key. */
  datatype Policy = Policy(bitsPerKey: nat, probes: byte, hash: Bytes -> uint32)

  ghost predicate IsPolicy(p: Policy) {
    1 <= p.probes <= 30
  }

  // ----------------------------------------------------------------------- bits

  predicate BitAt(bits: Bytes, p: nat)
    requires p < 8 * |bits|
  {
    HasBit(bits[p / 8], p % 8)
  }

  function WithBit(bits: Bytes, p: nat): (r: Bytes)
    requires p < 8 * |bits|
    ensures |r| == |bits|
  {
    assert TwoTo(4) == 16 && TwoTo(8) == 16 * TwoTo(4);
    SetBitFits(bits[p / 8], p % 8, 8);
    bits[p / 8 := SetBit(bits[p / 8], p % 8)]
  }

  lemma WithBitIs(bits: Bytes, p: nat, q: nat)
    requires p < 8 * |bits| && q < 8 * |bits|
    ensures BitAt(WithBit(bits, p), q) <==> BitAt(bits, q) || q == p
  {
    SetBitIs(bits[p / 8], p % 8, q % 8);
  }

  // --------------------------------------------------------------- Bloom filters

  /** Rotate right by 17 bits. */
  function Delta(h: uint32): uint32 {
    h / 0x2_0000 + h % 0x2_0000 * 0x8000
  }

  /** The hash after `j` steps of double hashing. */
  function Probe(h: uint32, j: nat): uint32 {
    if j == 0 then h else (Probe(h, j - 1) + Delta(h)) % TWO_32
  }

  /** Bit `i` comes from bit `i + 17`, around the end. */
  lemma DeltaRotates(h: uint32, i: nat)
    requires i < 32
    ensures HasBit(Delta(h), i) <==> HasBit(h, (i + 17) % 32)
  {
    RotationPowers();
    var low, high := h % 0x2_0000, h / 0x2_0000;
    HasBitJoin(low, high, 17, (i + 17) % 32);
    HasBitJoin(high, low, 15, i);
  }

  /** Double hashing: probe `j` is `j` deltas past the hash, modulo 2^32. */
  lemma {:induction false} ProbeIs(h: uint32, j: nat)
    ensures Probe(h, j) == (h + j * Delta(h)) % TWO_32
  {
    if j > 0 {
      ProbeIs(h, j - 1);
      OneMoreDelta(h, Delta(h), j);
    }
  }

  lemma OneMoreDelta(h: nat, d: nat, j: nat)
    requires j > 0
    ensures ((h + (j - 1) * d) % TWO_32 + d) % TWO_32 == (h + j * d) % TWO_32
  {
    var a := h + (j - 1) * d;
    assert a + d == h + j * d;
    AddModulo(a, d);
  }

  lemma AddModulo(a: nat, b: nat)
    ensures (a % TWO_32 + b) % TWO_32 == (a + b) % TWO_32
  {
  }

  /** The first `n` probes of a hash, set. */
  function WithProbes(bits: Bytes, h: uint32, n: nat): (r: Bytes)
    requires bits != []
    ensures |r| == |bits|
  {
    if n == 0 then bits else WithBit(WithProbes(bits, h, n - 1), Probe(h, n - 1) % (8 * |bits|))
  }

  function WithKeys(p: Policy, bits: Bytes, keys: seq<Bytes>, n: nat): (r: Bytes)
    requires bits != [] && n <= |keys|
    ensures |r| == |bits|
  {
    if n == 0 then bits else WithProbes(WithKeys(p, bits, keys, n - 1), p.hash(keys[n - 1]), p.probes)
  }

  function FilterSize(p: Policy, n: nat): (size: nat)
    ensures size >= 8
  {
    var bits := n * p.bitsPerKey;
    ((if bits < 64 then 64 else bits) + 7) / 8
  }

  /** The filter of some keys. */
  function Bloom(p: Policy, keys: seq<Bytes>): Bytes {
    WithKeys(p, Zeros(FilterSize(p, |keys|)), keys, |keys|) + [p.probes]
  }

  predicate HasProbes(bits: Bytes, h: uint32, n: nat)
    requires bits != []
  {
    forall j: nat | j < n :: BitAt(bits, Probe(h, j) % (8 * |bits|))
  }

  /** What a filter answers for a key. */
  predicate MayMatch(p: Policy, key: Bytes, filter: Bytes) {
    && |filter| >= 2
    && (filter[|filter| - 1] > 30 || HasProbes(filter[..|filter| - 1], p.hash(key), filter[|filter| - 1]))
  }

  ghost predicate IsProbe(h: uint32, n: nat, size: nat, q: nat)
    requires size > 0
  {
    exists j: nat :: j < n && Probe(h, j) % (8 * size) == q
  }

  lemma {:induction false} ProbesAre(bits: Bytes, h: uint32, n: nat, q: nat)
    requires bits != [] && q < 8 * |bits|
    ensures BitAt(WithProbes(bits, h, n), q) <==> BitAt(bits, q) || IsProbe(h, n, |bits|, q)
  {
    if n > 0 {
      ProbesAre(bits, h, n - 1, q);
      WithBitIs(WithProbes(bits, h, n - 1), Probe(h, n - 1) % (8 * |bits|), q);
    }
  }

  /** A bit of a filter is set exactly when it is a probe of one of its keys. */
  lemma {:induction false} BloomBits(p: Policy, keys: seq<Bytes>, size: nat, n: nat, q: nat)
    requires size > 0 && n <= |keys| && q < 8 * size
    ensures BitAt(WithKeys(p, Zeros(size), keys, n), q)
       <==> exists i: nat :: i < n && IsProbe(p.hash(keys[i]), p.probes, size, q)
  {
    if n > 0 {
      BloomBits(p, keys, size, n - 1, q);
      ProbesAre(WithKeys(p, Zeros(size), keys, n - 1), p.hash(keys[n - 1]), p.probes, q);
    } else {
      ZeroHasNoBit(q % 8);
    }
  }

  lemma {:induction false} ZeroHasNoBit(i: nat)
    ensures !HasBit(0, i)
  {
    if i > 0 {
      ZeroHasNoBit(i - 1);
    }
  }

  /** No false negatives: a filter matches every key that hashes like one of its keys. */
  lemma BloomMatches(p: Policy, keys: seq<Bytes>, i: nat, key: Bytes)
    requires IsPolicy(p) && i < |keys| && p.hash(key) == p.hash(keys[i])
    ensures MayMatch(p, key, Bloom(p, keys))
  {
    var filter, size := Bloom(p, keys), FilterSize(p, |keys|);
    var bits := WithKeys(p, Zeros(size), keys, |keys|);
    assert filter[..|filter| - 1] == bits;
    forall j: nat | j < p.probes
      ensures BitAt(bits, Probe(p.hash(key), j) % (8 * size))
    {
      var q := Probe(p.hash(key), j) % (8 * size);
      assert IsProbe(p.hash(keys[i]), p.probes, size, q);
      BloomBits(p, keys, size, |keys|, q);
    }
  }

  /** A filter answers yes exactly for the keys all of whose probes are probes of its keys. */
  lemma BloomAnswers(p: Policy, keys: seq<Bytes>, key: Bytes)
    requires IsPolicy(p)
    ensures MayMatch(p, key, Bloom(p, keys)) <==>
            forall j: nat | j < p.probes :: Shared(p, keys, p.hash(key), j)
  {
    var size := FilterSize(p, |keys|);
    var bits := WithKeys(p, Zeros(size), keys, |keys|);
    var filter := Bloom(p, keys);
    assert filter[..|filter| - 1] == bits && filter[|filter| - 1] == p.probes;
    forall j: nat
      ensures BitAt(bits, Probe(p.hash(key), j) % (8 * size)) <==> Shared(p, keys, p.hash(key), j)
    {
      BloomBits(p, keys, size, |keys|, Probe(p.hash(key), j) % (8 * size));
    }
    assert MayMatch(p, key, filter) <==> HasProbes(bits, p.hash(key), p.probes);
  }

  /** Probe `j` of a hash is one of the probes of a key. */
  ghost predicate Shared(p: Policy, keys: seq<Bytes>, h: uint32, j: nat) {
    var size := FilterSize(p, |keys|);
    exists i: nat :: i < |keys| && IsProbe(p.hash(keys[i]), p.probes, size, Probe(h, j) % (8 * size))
  }

  /** What any filter answers: no if it is too short, yes if its last byte is no number of probes the
      code makes, and otherwise whether each probe finds its bit. */
  lemma MayMatchIs(p: Policy, key: Bytes, filter: Bytes)
    ensures |filter| < 2 ==> !MayMatch(p, key, filter)
    ensures |filter| >= 2 && filter[|filter| - 1] > 30 ==> MayMatch(p, key, filter)
    ensures |filter| >= 2 && filter[|filter| - 1] <= 30 ==>
              (MayMatch(p, key, filter) <==> forall j: nat | j < filter[|filter| - 1] ::
                 FindsBit(filter, p.hash(key), j))
  {
    if |filter| >= 2 && filter[|filter| - 1] <= 30 {
      var bits, h := filter[..|filter| - 1], p.hash(key);
      forall j: nat
        ensures FindsBit(filter, h, j) <==> BitAt(bits, Probe(h, j) % (8 * |bits|))
      {
        ProbeIs(h, j);
      }
    }
  }

  /** Probe `j` of a hash is set: `j` rotated hashes past the hash, modulo 2^32. */
  ghost predicate FindsBit(filter: Bytes, h: uint32, j: nat)
    requires |filter| >= 2
  {
    var bits := filter[..|filter| - 1];
    BitAt(bits, (h + j * Delta(h)) % TWO_32 % (8 * |bits|))
  }

  /** As many bytes as the bits per key call for, at least 8, and the number of probes. */
  lemma BloomSize(p: Policy, keys: seq<Bytes>)
    ensures var n := |Bloom(p, keys)| - 1;
            && n >= 8 && 8 * n >= |keys| * p.bitsPerKey && (n > 8 ==> 8 * (n - 1) < |keys| * p.bitsPerKey)
            && Bloom(p, keys)[n] == p.probes
  {
  }

  /** Appends the filter of `keys` to `dst`. */
  method CreateFilter(p: Policy, keys: seq<Bytes>, dst0: Bytes) returns (dst: Bytes)
    ensures dst == dst0 + Bloom(p, keys)
  {
    var bits := |keys| * p.bitsPerKey;
    if bits < 64 {
      bits := 64;
    }
    var bytes := (bits + 7) / 8;
    bits := bytes * 8;
    var table := Zeros(bytes);
    for i := 0 to |keys|
      invariant table == WithKeys(p, Zeros(bytes), keys, i)
    {
      var h := p.hash(keys[i]);
      var delta := Delta(h);
      for j := 0 to p.probes
        invariant h == Probe(p.hash(keys[i]), j)
        invariant table == WithProbes(WithKeys(p, Zeros(bytes), keys, i), p.hash(keys[i]), j)
      {
        table := WithBit(table, h % bits);
        h := (h + delta) % TWO_32;
      }
    }
    dst := dst0 + table + [p.probes];
  }

  method FilterMatches(p: Policy, key: Bytes, filter: Bytes) returns (r: bool)
    ensures r == MayMatch(p, key, filter)
  {
    var len := |filter|;
    if len < 2 {
      return false;
    }
    var table, bits, k := filter[..len - 1], 8 * (len - 1), filter[len - 1];
    if k > 30 {
      return true;
    }
    var h := p.hash(key);
    var delta := Delta(h);
    for j := 0 to k
      invariant h == Probe(p.hash(key), j) && HasProbes(table, p.hash(key), j)
    {
      if !BitAt(table, h % bits) {
        return false;
      }
      h := (h + delta) % TWO_32;
    }
    r := true;
  }

  // ----------------------------------------------------------------- filter block

  const BASE_LG: byte := 11

  /** One filter for the keys of each 2 KB of data blocks; none for no keys. */
  function Filter(p: Policy, keys: seq<Bytes>): Bytes {
    if keys == [] then [] else Bloom(p, keys)
  }

  function FilterBytes(p: Policy, groups: seq<seq<Bytes>>, n: nat): Bytes
    requires n <= |groups|
  {
    if n == 0 then [] else FilterBytes(p, groups, n - 1) + Filter(p, groups[n - 1])
  }

  function FilterOffsets(p: Policy, groups: seq<seq<Bytes>>): seq<nat> {
    seq(|groups|, i requires 0 <= i < |groups| => |FilterBytes(p, groups, i)|)
  }

  function FilterBlock(p: Policy, groups: seq<seq<Bytes>>): Bytes {
    Assemble(FilterBytes(p, groups, |groups|), FilterOffsets(p, groups))
  }

  function Assemble(filters: Bytes, offsets: seq<nat>): Bytes {
    filters + FixedAll(offsets) + Fixed(|filters|, 4) + [BASE_LG]
  }

  lemma {:induction false} FilterBytesExtends(p: Policy, groups: seq<seq<Bytes>>, more: seq<Bytes>, n: nat)
    requires n <= |groups|
    ensures FilterBytes(p, groups + [more], n) == FilterBytes(p, groups, n)
  {
    if n > 0 {
      FilterBytesExtends(p, groups, more, n - 1);
    }
  }

  lemma OffsetsExtend(p: Policy, groups: seq<seq<Bytes>>, more: seq<Bytes>)
    ensures FilterOffsets(p, groups + [more]) == FilterOffsets(p, groups) + [|FilterBytes(p, groups, |groups|)|]
    ensures FilterBytes(p, groups + [more], |groups| + 1) == FilterBytes(p, groups, |groups|) + Filter(p, more)
  {
    FilterBytesExtends(p, groups, more, |groups|);
    forall i: nat | i < |groups|
      ensures |FilterBytes(p, groups + [more], i)| == |FilterBytes(p, groups, i)|
    {
      FilterBytesExtends(p, groups, more, i);
    }
  }

  function Starts(keys: seq<Bytes>): seq<nat> {
    seq(|keys|, i requires 0 <= i < |keys| => |Flat(keys[..i])|)
  }

  lemma StartsExtend(keys: seq<Bytes>, key: Bytes)
    ensures Flat(keys + [key]) == Flat(keys) + key && Starts(keys + [key]) == Starts(keys) + [|Flat(keys)|]
  {
    var more := keys + [key];
    assert more[..|keys|] == keys;
    assert forall i | 0 <= i < |keys| :: more[..i] == keys[..i];
  }

  /** Key `i` is what the flattened keys hold from its start to the next. */
  lemma {:induction false} FlatAt(keys: seq<Bytes>, i: nat)
    requires i < |keys|
    ensures |Flat(keys[..i])| + |keys[i]| == |Flat(keys[..i + 1])| <= |Flat(keys)|
    ensures Flat(keys)[|Flat(keys[..i])|..|Flat(keys[..i + 1])|] == keys[i]
  {
    var n := |keys| - 1;
    assert keys[..i + 1][..i] == keys[..i];
    if i < n {
      FlatAt(keys[..n], i);
      assert keys[..n][..i] == keys[..i] && keys[..n][..i + 1] == keys[..i + 1];
    } else {
      assert keys[..i + 1] == keys;
    }
  }

  /** Cuts flattened keys apart where they start. */
  method SplitKeys(keys: Bytes, ends: seq<nat>, ghost all: seq<Bytes>) returns (tmpKeys: seq<Bytes>)
    requires keys == Flat(all) && ends == Starts(all) + [|keys|]
    ensures tmpKeys == all
  {
    tmpKeys := [];
    assert all[..|all|] == all;
    for i := 0 to |ends| - 1
      invariant tmpKeys == all[..i]
    {
      FlatAt(all, i);
      tmpKeys := tmpKeys + [keys[ends[i]..ends[i + 1]]];
    }
  }

  /** The waiting keys went into the next filter, and further new filters have no keys. */
  ghost predicate Started(groups0: seq<seq<Bytes>>, pending0: seq<Bytes>, groups: seq<seq<Bytes>>, pending: seq<Bytes>) {
    if |groups| == |groups0| then groups == groups0 && pending == pending0 else
    && pending == [] && groups0 + [pending0] <= groups
    && forall i | |groups0| < i < |groups| :: groups[i] == []
  }

  class FilterBlockBuilder {
    const policy: Policy
    var keys: Bytes
    var start: seq<nat>
    var result: Bytes
    var filterOffsets: seq<nat>
    /** The keys of each filter made so far, and those waiting for the next. */
    ghost var groups: seq<seq<Bytes>>
    ghost var pending: seq<Bytes>

    ghost predicate Valid()
      reads this
    {
      && keys == Flat(pending) && start == Starts(pending)
      && result == FilterBytes(policy, groups, |groups|) && filterOffsets == FilterOffsets(policy, groups)
    }

    constructor (policy: Policy)
      ensures Valid() && this.policy == policy && groups == [] && pending == []
    {
      this.policy := policy;
      keys, start, result, filterOffsets := [], [], [], [];
      groups, pending := [], [];
    }

    method StartBlock(blockOffset: nat)
      requires Valid() && blockOffset / 2048 >= |groups|
      modifies this
      ensures Valid() && |groups| == blockOffset / 2048 && Started(old(groups), old(pending), groups, pending)
    {
      var filterIndex := blockOffset / 2048;
      while filterIndex > |filterOffsets|
        invariant Valid() && |groups| <= filterIndex && Started(old(groups), old(pending), groups, pending)
        decreases filterIndex - |groups|
      {
        GenerateFilter();
      }
    }

    method AddKey(key: Bytes)
      requires Valid()
      modifies this
      ensures Valid() && pending == old(pending) + [key] && groups == old(groups)
    {
      StartsExtend(pending, key);
      start := start + [|keys|];
      keys := keys + key;
      pending := pending + [key];
    }

    method Finish() returns (contents: Bytes)
      requires Valid()
      modifies this
      ensures contents == FilterBlock(policy, groups)
      ensures groups == if old(pending) == [] then old(groups) else old(groups) + [old(pending)]
    {
      if start != [] {
        GenerateFilter();
      }
      var arrayOffset := |result|;
      result := AppendOffsets(result, filterOffsets);
      result := result + Fixed(arrayOffset, 4);
      result := result + [BASE_LG];
      contents := result;
    }

    method GenerateFilter()
      requires Valid()
      modifies this
      ensures Valid() && groups == old(groups) + [old(pending)] && pending == []
    {
      OffsetsExtend(policy, groups, pending);
      var numKeys := |start|;
      if numKeys == 0 {
        filterOffsets := filterOffsets + [|result|];
        groups, pending := groups + [pending], [];
        return;
      }
      var tmpKeys := SplitKeys(keys, start + [|keys|], pending);
      var longer := CreateFilter(policy, tmpKeys, result);
      Filtered(longer);
    }

    /** Takes the filter made of the waiting keys. */
    method Filtered(longer: Bytes)
      requires Valid() && longer == FilterBytes(policy, groups + [pending], |groups| + 1)
      modifies this
      ensures Valid() && groups == old(groups) + [old(pending)] && pending == []
    {
      OffsetsExtend(policy, groups, pending);
      filterOffsets, result, groups := filterOffsets + [|result|], longer, groups + [pending];
      keys, start, pending := [], [], [];
    }
  }

  // ---------------------------------------------------------------------- reader

  ghost predicate IsFilterBlock(p: Policy, groups: seq<seq<Bytes>>, contents: Bytes) {
    contents == FilterBlock(p, groups) && |FilterBytes(p, groups, |groups|)| < TWO_32
  }

  lemma {:induction false} FilterBytesRise(p: Policy, groups: seq<seq<Bytes>>, i: nat, j: nat)
    requires i <= j <= |groups|
    ensures FilterBytes(p, groups, i) <= FilterBytes(p, groups, j)
  {
    if i < j {
      FilterBytesRise(p, groups, i, j - 1);
    }
  }

  /** Where filter `i` begins. */
  function FilterStart(p: Policy, groups: seq<seq<Bytes>>, i: nat): nat
    requires i <= |groups|
  {
    |FilterBytes(p, groups, i)|
  }

  lemma FilterAt(p: Policy, groups: seq<seq<Bytes>>, i: nat)
    requires i < |groups|
    ensures FilterStart(p, groups, i) <= FilterStart(p, groups, i + 1) <= FilterStart(p, groups, |groups|)
    ensures FilterBytes(p, groups, |groups|)[FilterStart(p, groups, i)..FilterStart(p, groups, i + 1)] == Filter(p, groups[i])
  {
    FilterBytesRise(p, groups, i + 1, |groups|);
    var a, b, all := FilterBytes(p, groups, i), FilterBytes(p, groups, i + 1), FilterBytes(p, groups, |groups|);
    assert all[|a|..|b|] == b[|a|..|b|];
  }

  /** The answer of a filter block: what the filter for the 2 KB of that offset says, no for a
      filter of no keys, and yes past the last filter. */
  predicate BlockMayMatch(p: Policy, groups: seq<seq<Bytes>>, blockOffset: nat, key: Bytes) {
    var i := blockOffset / 2048;
    i < |groups| ==> groups[i] != [] && MayMatch(p, key, Bloom(p, groups[i]))
  }

  /** Shift right by `lg` bits. */
  function IndexOf(offset: nat, lg: nat): nat
    decreases lg
  {
    if lg == 0 then offset else IndexOf(offset / 2, lg - 1)
  }

  lemma IndexIs(offset: nat)
    ensures IndexOf(offset, BASE_LG) == offset / 2048
  {
  }

  /** What the reader relies on: where each filter begins and ends, written after the filters. */
  ghost predicate FilterLayout(contents: Bytes, filters: seq<Bytes>, starts: seq<nat>) {
    && |starts| == |filters| + 1 && |contents| == starts[|filters|] + 4 * |filters| + 5
    && contents[|contents| - 1] == BASE_LG
    && (forall i: nat | i <= |filters| :: WordIs(contents, starts[|filters|] + 4 * i, starts[i]))
    && forall i: nat | i < |filters| :: CutIs(contents, starts[i], starts[i + 1], starts[|filters|], filters[i])
  }

  ghost predicate WordIs(contents: Bytes, at: nat, value: nat) {
    at + 5 <= |contents| && FromFixed(contents[at..at + 4]) == value
  }

  ghost predicate CutIs(contents: Bytes, start: nat, limit: nat, end: nat, filter: Bytes) {
    start <= limit <= end <= |contents| && contents[start..limit] == filter
  }

  function FiltersOf(p: Policy, groups: seq<seq<Bytes>>): seq<Bytes> {
    seq(|groups|, i requires 0 <= i < |groups| => Filter(p, groups[i]))
  }

  function StartsOf(p: Policy, groups: seq<seq<Bytes>>): seq<nat> {
    seq(|groups| + 1, i requires 0 <= i <= |groups| => FilterStart(p, groups, i))
  }

  lemma CutOfFilter(p: Policy, groups: seq<seq<Bytes>>, i: nat)
    requires i < |groups|
    ensures var starts := StartsOf(p, groups);
            CutIs(FilterBytes(p, groups, |groups|), starts[i], starts[i + 1], starts[|groups|], Filter(p, groups[i]))
  {
    FilterAt(p, groups, i);
  }

  lemma FilterBlockIsLayout(p: Policy, groups: seq<seq<Bytes>>, contents: Bytes)
    requires IsFilterBlock(p, groups, contents)
    ensures FilterLayout(contents, FiltersOf(p, groups), StartsOf(p, groups))
  {
    var parts, starts := FiltersOf(p, groups), StartsOf(p, groups);
    forall i: nat | i < |parts|
      ensures CutIs(FilterBytes(p, groups, |groups|), starts[i], starts[i + 1], starts[|parts|], parts[i])
    {
      CutOfFilter(p, groups, i);
    }
    assert FilterOffsets(p, groups) == starts[..|parts|];
    AssembledIsLayout(FilterBytes(p, groups, |groups|), parts, starts);
  }

  lemma AssembledIsLayout(all: Bytes, parts: seq<Bytes>, starts: seq<nat>)
    requires |starts| == |parts| + 1 && |all| == starts[|parts|] < TWO_32
    requires forall i: nat | i < |parts| :: CutIs(all, starts[i], starts[i + 1], |all|, parts[i])
    ensures FilterLayout(Assemble(all, starts[..|parts|]), parts, starts)
  {
    var contents, offsets := Assemble(all, starts[..|parts|]), starts[..|parts|];
    forall i: nat | i <= |parts|
      ensures WordIs(contents, |all| + 4 * i, starts[i])
    {
      assert i < |parts| ==> CutIs(all, starts[i], starts[i + 1], |all|, parts[i]);
      AssembledWord(all, offsets, i, starts[i]);
    }
    forall i: nat | i < |parts|
      ensures CutIs(contents, starts[i], starts[i + 1], |all|, parts[i])
    {
      AssembledFront(all, offsets, starts[i], starts[i + 1], parts[i]);
    }
  }

  lemma AssembledWord(all: Bytes, offsets: seq<nat>, i: nat, value: nat)
    requires i <= |offsets| && value == (if i < |offsets| then offsets[i] else |all|) < TWO_32
    ensures WordIs(Assemble(all, offsets), |all| + 4 * i, value)
  {
    WordAt(all, FixedAll(offsets), Fixed(|all|, 4), BASE_LG, 4 * i);
    if i < |offsets| {
      FixedAt(offsets, i);
    }
    Fixed32(value);
  }

  lemma AssembledFront(all: Bytes, offsets: seq<nat>, a: nat, b: nat, part: Bytes)
    requires CutIs(all, a, b, |all|, part)
    ensures CutIs(Assemble(all, offsets), a, b, |all|, part)
  {
    AppendKeepsCut(all, FixedAll(offsets) + Fixed(|all|, 4) + [BASE_LG], a, b);
    assert Assemble(all, offsets) == all + (FixedAll(offsets) + Fixed(|all|, 4) + [BASE_LG]);
  }

  lemma AppendKeepsCut(s: Bytes, t: Bytes, a: nat, b: nat)
    requires a <= b <= |s|
    ensures (s + t)[a..b] == s[a..b]
  {
  }

  lemma WordAt(filters: Bytes, words: Bytes, last: Bytes, lg: byte, i: nat)
    requires |last| == 4
    ensures var s := filters + words + last + [lg];
            && (i + 4 <= |words| ==> s[|filters| + i..|filters| + i + 4] == words[i..i + 4])
            && (i == |words| ==> s[|filters| + i..|filters| + i + 4] == last)
  {
    var s := filters + words + last + [lg];
    var t := words + last + [lg];
    assert s == filters + t;
    if i + 4 <= |words| {
      assert t[i..i + 4] == words[i..i + 4];
    }
  }

  class FilterBlockReader {
    const policy: Policy
    const data: Bytes
    const offset: nat
    const num: nat
    const baseLg: nat
    ghost const filters: seq<Bytes>
    ghost const starts: seq<nat>

    ghost predicate Valid() {
      num > 0 ==> offset + 4 * num + 5 <= |data|
    }

    ghost predicate Reads() {
      FilterLayout(data, filters, starts) && offset == starts[|filters|] && num == |filters| && baseLg == BASE_LG as nat
    }

    /** Any contents will do; a finished filter block is understood. */
    constructor (policy: Policy, contents: Bytes, ghost filters: seq<Bytes>, ghost starts: seq<nat>)
      ensures Valid() && this.policy == policy && this.filters == filters
      ensures FilterLayout(contents, filters, starts) ==> Reads()
    {
      this.policy, data, offset, num, baseLg := policy, contents, 0, 0, 0;
      this.filters, this.starts := filters, starts;
      var n := |contents|;
      if n >= 5 {
        baseLg := contents[n - 1];
        var lastWord := FromFixed(contents[n - 5..n - 1]);
        if lastWord <= n - 5 {
          offset, num := lastWord, (n - 5 - lastWord) / 4;
        }
      }
      assert FilterLayout(contents, filters, starts) ==> WordIs(contents, n - 5, starts[|filters|]);
    }

    /** Whether the data block at an offset may hold the key. */
    method KeyMayMatch(blockOffset: nat, key: Bytes) returns (r: bool)
      requires Valid()
      ensures Reads() ==> r == (blockOffset / 2048 < |filters| ==> MayMatch(policy, key, filters[blockOffset / 2048]))
    {
      var index := IndexOf(blockOffset, baseLg);
      IndexIs(blockOffset);
      if index < num {
        assert Reads() ==>
          WordIs(data, offset + 4 * index, starts[index]) && WordIs(data, offset + 4 * (index + 1), starts[index + 1]);
        assert Reads() ==> CutIs(data, starts[index], starts[index + 1], offset, filters[index]);
        var start := FromFixed(data[offset + index * 4..offset + index * 4 + 4]);
        var limit := FromFixed(data[offset + index * 4 + 4..offset + index * 4 + 8]);
        if start <= limit && limit <= offset {
          r := FilterMatches(policy, key, data[start..limit]);
          return;
        } else if start == limit {
          return false;
        }
      }
      r := true;
    }
  }

  /** The key is among those of filter `index`, made or still to be made. */
  ghost predicate Kept(groups: seq<seq<Bytes>>, pending: seq<Bytes>, index: nat, key: Bytes) {
    index <= |groups| && key in if index < |groups| then groups[index] else pending
  }

  lemma KeptByStart(groups0: seq<seq<Bytes>>, pending0: seq<Bytes>, groups: seq<seq<Bytes>>, pending: seq<Bytes>,
                    index: nat, key: Bytes)
    requires Started(groups0, pending0, groups, pending) && Kept(groups0, pending0, index, key)
    ensures Kept(groups, pending, index, key)
  {
    if |groups| != |groups0| {
      assert groups[index] == (groups0 + [pending0])[index];
    }
  }

  /** A key kept to the end is in the filter block of the finished builder. */
  lemma KeptMatches(p: Policy, groups: seq<seq<Bytes>>, pending: seq<Bytes>, blockOffset: nat, kept: Bytes, key: Bytes)
    requires IsPolicy(p) && Kept(groups, pending, blockOffset / 2048, kept) && p.hash(key) == p.hash(kept)
    ensures BlockMayMatch(p, if pending == [] then groups else groups + [pending], blockOffset, key)
  {
    var all, index := if pending == [] then groups else groups + [pending], blockOffset / 2048;
    var i: nat :| i < |all[index]| && all[index][i] == kept;
    BloomMatches(p, all[index], i, key);
  }

  /** Every key of every data block matches the filter block built along with them. */
  method BuildAndMatch(p: Policy, offsets: seq<nat>, blocks: seq<seq<Bytes>>, b: nat, i: nat)
    returns (contents: Bytes, r: bool)
    requires IsPolicy(p) && |offsets| == |blocks| && b < |blocks| && i < |blocks[b]|
    requires forall j, k | 0 <= j <= k < |offsets| :: offsets[j] <= offsets[k]
    ensures |contents| < TWO_32 ==> r
  {
    var builder := new FilterBlockBuilder(p);
    var key := blocks[b][i];
    ghost var index := offsets[b] / 2048;
    for j := 0 to |blocks|
      invariant fresh(builder) && builder.Valid() && |builder.groups| <= (if j == 0 then 0 else offsets[j - 1]) / 2048
      invariant b < j ==> Kept(builder.groups, builder.pending, index, key)
    {
      assert j > 0 ==> offsets[j - 1] / 2048 <= offsets[j] / 2048;
      AddBlock(builder, offsets[j], blocks[j], index, key);
    }
    contents, r := FinishAndMatch(builder, offsets[b], key);
  }

  /** Adds a block; no key that was kept is lost. */
  method AddBlock(builder: FilterBlockBuilder, offset: nat, keys: seq<Bytes>, ghost index: nat, ghost key: Bytes)
    requires builder.Valid() && |builder.groups| <= offset / 2048
    modifies builder
    ensures builder.Valid() && |builder.groups| == offset / 2048
    ensures old(Kept(builder.groups, builder.pending, index, key)) || (key in keys && index == offset / 2048)
            ==> Kept(builder.groups, builder.pending, index, key)
  {
    ghost var groups, pending := builder.groups, builder.pending;
    builder.StartBlock(offset);
    if Kept(groups, pending, index, key) {
      KeptByStart(groups, pending, builder.groups, builder.pending, index, key);
    }
    AddKeys(builder, keys, index, key);
  }

  /** Adds the keys of one block. */
  method AddKeys(builder: FilterBlockBuilder, keys: seq<Bytes>, ghost index: nat, ghost key: Bytes)
    requires builder.Valid()
    modifies builder
    ensures builder.Valid() && builder.groups == old(builder.groups)
    ensures old(Kept(builder.groups, builder.pending, index, key)) || (key in keys && index == |builder.groups|)
            ==> Kept(builder.groups, builder.pending, index, key)
  {
    for k := 0 to |keys|
      invariant builder.Valid() && builder.groups == old(builder.groups)
      invariant old(Kept(builder.groups, builder.pending, index, key)) || (key in keys[..k] && index == |builder.groups|)
                ==> Kept(builder.groups, builder.pending, index, key)
    {
      assert keys[..k + 1] == keys[..k] + [keys[k]];
      builder.AddKey(keys[k]);
    }
    assert keys[..|keys|] == keys;
  }

  method FinishAndMatch(builder: FilterBlockBuilder, blockOffset: nat, key: Bytes) returns (contents: Bytes, r: bool)
    requires builder.Valid() && IsPolicy(builder.policy) && Kept(builder.groups, builder.pending, blockOffset / 2048, key)
    modifies builder
    ensures |contents| < TWO_32 ==> r
  {
    KeptMatches(builder.policy, builder.groups, builder.pending, blockOffset, key, key);
    contents := builder.Finish();
    r := ReadAndMatch(builder.policy, contents, blockOffset, key, builder.groups);
  }

  method ReadAndMatch(p: Policy, contents: Bytes, blockOffset: nat, key: Bytes, ghost groups: seq<seq<Bytes>>)
    returns (r: bool)
    requires contents == FilterBlock(p, groups)
    ensures |contents| < TWO_32 ==> r == BlockMayMatch(p, groups, blockOffset, key)
  {
    ghost var filters := FiltersOf(p, groups);
    if |contents| < TWO_32 {
      FilterBlockIsLayout(p, groups, contents);
    }
    var reader := new FilterBlockReader(p, contents, filters, StartsOf(p, groups));
    r := reader.KeyMayMatch(blockOffset, key);
    assert blockOffset / 2048 < |groups| ==> filters[blockOffset / 2048] == Filter(p, groups[blockOffset / 2048]);
  }
}
