/** The layout of a block (table/block_builder.cc): prefix-compressed entries, then the offsets
    of the restart points, as a function of the entries. */
module BlockFormat {
  import opened Keys
  import opened Coding

  datatype KV = KV(key: Bytes, value: Bytes)

  /** Length of the longest common prefix. */
  function Common(a: Bytes, b: Bytes): (n: nat)
    ensures n <= |a| && n <= |b| && a[..n] == b[..n]
    ensures n < |a| && n < |b| ==> a[n] != b[n]
  {
    if a != [] && b != [] && a[0] == b[0] then
      var m := Common(a[1..], b[1..]);
      assert a[..m + 1] == [a[0]] + a[1..][..m] && b[..m + 1] == [b[0]] + b[1..][..m];
      m + 1
    else 0
  }

  /** The entries at which compression restarts: the first, and some of the others, in order. */
  ghost predicate IsMarks(marks: seq<nat>, n: nat) {
    && marks != [] && marks[0] == 0
    && (forall k | 0 < k < |marks| :: marks[k] < n)
    && forall j, k | 0 <= j < k < |marks| :: marks[j] < marks[k]
  }

  function Shared(es: seq<KV>, marks: seq<nat>, i: nat): (n: nat)
    requires i < |es|
    ensures n <= |es[i].key| && (i > 0 ==> n <= |es[i - 1].key| && es[i - 1].key[..n] == es[i].key[..n])
    ensures i == 0 || i in marks ==> n == 0
  {
    if i == 0 || i in marks then 0 else Common(es[i - 1].key, es[i].key)
  }

  function Header(shared: nat, nonShared: nat, valueLength: nat): Bytes {
    Varint(shared) + Varint(nonShared) + Varint(valueLength)
  }

  function EntryBytes(es: seq<KV>, marks: seq<nat>, i: nat): Bytes
    requires i < |es|
  {
    Piece(es[i], Shared(es, marks, i))
  }

  /** An entry without the first `n` bytes of its key. */
  function Piece(e: KV, n: nat): Bytes
    requires n <= |e.key|
  {
    Header(n, |e.key| - n, |e.value|) + e.key[n..] + e.value
  }

  /** The first `n` entries. */
  function Data(es: seq<KV>, marks: seq<nat>, n: nat): Bytes
    requires n <= |es|
  {
    if n == 0 then [] else Data(es, marks, n - 1) + EntryBytes(es, marks, n - 1)
  }

  function Offset(es: seq<KV>, marks: seq<nat>, i: nat): nat
    requires i <= |es|
  {
    |Data(es, marks, i)|
  }

  function FixedAll(ns: seq<nat>): (b: Bytes)
    ensures |b| == 4 * |ns|
  {
    if ns == [] then [] else FixedAll(ns[..|ns| - 1]) + Fixed(ns[|ns| - 1], 4)
  }

  function RestartOffsets(es: seq<KV>, marks: seq<nat>): seq<nat>
    requires forall k | 0 <= k < |marks| :: marks[k] <= |es|
  {
    seq(|marks|, k requires 0 <= k < |marks| => Offset(es, marks, marks[k]))
  }

  /** A whole block. */
  function BlockBytes(es: seq<KV>, marks: seq<nat>): Bytes
    requires IsMarks(marks, |es|)
  {
    assert forall k | 0 <= k < |marks| :: marks[k] <= |es|;
    Data(es, marks, |es|) + FixedAll(RestartOffsets(es, marks)) + Fixed(|marks|, 4)
  }

  // -------------------------------------------------------------------- offsets

  lemma HeaderSize(a: nat, b: nat, c: nat)
    ensures |Header(a, b, c)| >= 3
  {
  }

  lemma {:induction false} OffsetsRise(es: seq<KV>, marks: seq<nat>, i: nat, j: nat)
    requires i <= j <= |es|
    ensures Offset(es, marks, i) <= Offset(es, marks, j) && (i < j ==> Offset(es, marks, i) < Offset(es, marks, j))
    ensures Data(es, marks, i) <= Data(es, marks, j)
  {
    if i < j {
      OffsetsRise(es, marks, i, j - 1);
      var n := Shared(es, marks, j - 1);
      HeaderSize(n, |es[j - 1].key| - n, |es[j - 1].value|);
    }
  }

  /** Even a key that shares most of its bytes is no longer than the block up to its entry. */
  lemma {:induction false} KeyFits(es: seq<KV>, marks: seq<nat>, i: nat)
    requires i < |es|
    ensures |es[i].key| + |es[i].value| <= Offset(es, marks, i + 1)
  {
    var n := Shared(es, marks, i);
    HeaderSize(n, |es[i].key| - n, |es[i].value|);
    assert Offset(es, marks, i + 1) >= Offset(es, marks, i) + (|es[i].key| - n) + |es[i].value|;
    if i > 0 {
      KeyFits(es, marks, i - 1);
    }
  }

  /** Entry `i` is what the block holds from its offset to the next. */
  lemma EntryBytesAt(es: seq<KV>, marks: seq<nat>, i: nat)
    requires i < |es|
    ensures Offset(es, marks, i + 1) <= Offset(es, marks, |es|)
    ensures Data(es, marks, |es|)[Offset(es, marks, i)..Offset(es, marks, i + 1)] == EntryBytes(es, marks, i)
    ensures Offset(es, marks, i + 1) == Offset(es, marks, i) + |EntryBytes(es, marks, i)|
  {
    OffsetsRise(es, marks, i + 1, |es|);
    var d, d1 := Data(es, marks, i), Data(es, marks, i + 1);
    assert d1 == d + EntryBytes(es, marks, i);
    assert Data(es, marks, |es|)[..|d1|] == d1;
    assert d1[|d|..] == EntryBytes(es, marks, i);
  }

  /** More entries, and restart points among them, leave the first ones as they are. */
  lemma {:induction false} DataExtends(es: seq<KV>, marks: seq<nat>, more: seq<KV>, marks1: seq<nat>, n: nat)
    requires n <= |es| && forall i: nat | i < n :: i in marks1 <==> i in marks
    ensures Data(es + more, marks1, n) == Data(es, marks, n)
  {
    if n > 0 {
      DataExtends(es, marks, more, marks1, n - 1);
      assert EntryBytes(es + more, marks1, n - 1) == EntryBytes(es, marks, n - 1);
    }
  }

  lemma {:induction false} FixedAt(ns: seq<nat>, k: nat)
    requires k < |ns|
    ensures FixedAll(ns)[4 * k..4 * k + 4] == Fixed(ns[k], 4)
  {
    var n := |ns| - 1;
    if k < n {
      FixedAt(ns[..n], k);
      assert FixedAll(ns)[4 * k..4 * k + 4] == FixedAll(ns[..n])[4 * k..4 * k + 4];
    }
  }

  // ------------------------------------------------------------------- decoding

  /** Reading the header of an entry gives back the three lengths, and leaves the rest. */
  lemma HeaderRoundTrip(a: nat, b: nat, c: nat, rest: Bytes)
    requires a < TWO_32 && b < TWO_32 && c < TWO_32
    ensures ParseHeader(Header(a, b, c) + rest) == Some((a, b, c, rest))
  {
    Powers();
    var input := Header(a, b, c) + rest;
    HeaderParts(Varint(a), Varint(b), Varint(c), rest);
    VarintRoundTrip(a, Varint(b) + (Varint(c) + rest), 5);
    VarintRoundTrip(b, Varint(c) + rest, 5);
    VarintRoundTrip(c, rest, 5);
  }

  lemma HeaderParts(a: Bytes, b: Bytes, c: Bytes, rest: Bytes)
    ensures a + b + c + rest == a + (b + (c + rest))
  {
  }

  /** Three varints, and what follows. */
  function ParseHeader(input: Bytes): Option<(nat, nat, nat, Bytes)> {
    match ParseVarint(input, 5)
    case None => None
    case Some((a, r1)) =>
      (match ParseVarint(r1, 5)
       case None => None
       case Some((b, r2)) =>
         (match ParseVarint(r2, 5)
          case None => None
          case Some((c, r3)) => Some((a % TWO_32, b % TWO_32, c % TWO_32, r3))))
  }

  // -------------------------------------------------------------------- builder

  lemma TakeMore(ns: seq<nat>, i: nat)
    requires i < |ns|
    ensures FixedAll(ns[..i + 1]) == FixedAll(ns[..i]) + Fixed(ns[i], 4)
  {
    assert ns[..i + 1][..i] == ns[..i];
  }

  method AppendOffsets(dst0: Bytes, offsets: seq<nat>) returns (dst: Bytes)
    ensures dst == dst0 + FixedAll(offsets)
  {
    dst := dst0;
    for i := 0 to |offsets|
      invariant dst == dst0 + FixedAll(offsets[..i])
    {
      TakeMore(offsets, i);
      dst := dst + Fixed(offsets[i], 4);
    }
    assert offsets[..|offsets|] == offsets;
  }

  /** All of a builder's state, and the entries it stands for. */
  datatype Progress = Progress(interval: nat, buffer: Bytes, restarts: seq<nat>, counter: nat, lastKey: Bytes,
                               entries: seq<KV>, marks: seq<nat>)

  ghost predicate ProgressOk(p: Progress) {
    && MarksOk(p.interval, p.marks, |p.entries|, p.counter)
    && p.buffer == Data(p.entries, p.marks, |p.entries|)
    && p.restarts == RestartOffsets(p.entries, p.marks)
    && p.lastKey == LastKey(p.entries)
  }

  /** The states of a builder that stand for its entries. */
  type Building = p: Progress | ProgressOk(p) ghost witness Start(1)

  ghost function Start(interval: nat): (p: Progress)
    requires interval >= 1
    ensures ProgressOk(p)
  {
    assert RestartOffsets([], [0]) == [0];
    Progress(interval, [], [0], 0, [], [], [0])
  }

  class BlockBuilder {
    const interval: nat
    var buffer: Bytes
    var restarts: seq<nat>
    var counter: nat
    var lastKey: Bytes
    ghost var entries: seq<KV>
    ghost var marks: seq<nat>
    ghost var progress: Building

    ghost predicate Valid()
      reads this
    {
      progress == Progress(interval, buffer, restarts, counter, lastKey, entries, marks)
    }

    constructor (interval: nat)
      requires interval >= 1
      ensures Valid() && entries == [] && this.interval == interval
    {
      this.interval := interval;
      buffer, restarts, counter, lastKey := [], [0], 0, [];
      entries, marks := [], [0];
      progress := Start(interval);
    }

    method Add(key: Bytes, value: Bytes)
      requires Valid()
      modifies this
      ensures Valid() && entries == old(entries) + [KV(key, value)]
    {
      var shared: nat := 0;
      if counter < interval {
        shared := CommonPrefix(lastKey, key);
      } else {
        restarts := restarts + [|buffer|];
        marks := marks + [|entries|];
        counter := 0;
      }
      buffer := buffer + Piece(KV(key, value), shared);
      lastKey := lastKey[..shared] + key[shared..];
      counter := counter + 1;
      entries := entries + [KV(key, value)];
      ghost var grown := Progress(interval, buffer, restarts, counter, lastKey, entries, marks);
      AddedOk(progress, KV(key, value), shared, marks, grown);
      progress := grown;
    }

    method Reset()
      requires interval >= 1
      modifies this
      ensures Valid() && entries == []
    {
      buffer, restarts, counter, lastKey := [], [0], 0, [];
      entries, marks := [], [0];
      progress := Start(interval);
    }

    function CurrentSizeEstimate(): nat
      reads this
    {
      |buffer| + 4 * |restarts| + 4
    }

    predicate Empty()
      reads this
    {
      buffer == []
    }

    lemma HasInterval()
      requires Valid()
      ensures interval >= 1 && IsMarks(marks, |entries|)
      ensures Empty() ==> entries == []
    {
      var p := progress;
      OffsetsRise(p.entries, p.marks, 0, |p.entries|);
    }

    /** Restarts are where they should be, and the estimate is the size of the finished block. */
    lemma SizeIs()
      requires Valid()
      ensures MarksOk(interval, marks, |entries|, counter) && |BlockBytes(entries, marks)| == CurrentSizeEstimate()
      ensures HasSize(interval, entries, CurrentSizeEstimate())
    {
      var p := progress;
      assert |RestartOffsets(p.entries, p.marks)| == |p.marks|;
    }

    /** The block of all entries, with a restart every `interval` entries. */
    method Finish() returns (block: Bytes)
      requires Valid()
      modifies this`buffer
      ensures MarksOk(interval, marks, |entries|, counter) && block == BlockBytes(entries, marks)
      ensures |block| == old(CurrentSizeEstimate())
    {
      HasInterval();
      SizeIs();
      buffer := AppendOffsets(buffer, restarts);
      buffer := buffer + Fixed(|restarts|, 4);
      block := buffer;
    }
  }

  /** The size of a block of these entries, with restarts at the interval. */
  ghost predicate HasSize(interval: nat, es: seq<KV>, size: nat) {
    exists marks, counter :: MarksOk(interval, marks, |es|, counter) && |BlockBytes(es, marks)| == size
  }

  /** Restart points come every `interval` entries; the last is `counter` entries back. */
  ghost predicate MarksOk(interval: nat, marks: seq<nat>, n: nat, counter: nat) {
    && interval >= 1 && IsMarks(marks, n) && (forall k | 0 <= k < |marks| :: marks[k] <= n)
    && marks[|marks| - 1] + counter == n && counter <= interval
    && forall k | 0 < k < |marks| :: Spaced(interval, marks, k)
  }

  ghost predicate Spaced(interval: nat, marks: seq<nat>, k: nat)
    requires 0 < k < |marks|
  {
    marks[k] == marks[k - 1] + interval
  }

  function LastKey(es: seq<KV>): Bytes {
    if es == [] then [] else es[|es| - 1].key
  }

  /** One more entry, with or without a new restart point before it. */
  lemma AddedOk(p: Building, e: KV, shared: nat, marks: seq<nat>, q: Progress)
    requires if p.counter >= p.interval then shared == 0 && marks == p.marks + [|p.entries|]
             else shared == Common(p.lastKey, e.key) && marks == p.marks
    requires q == Progress(p.interval, p.buffer + Piece(e, shared),
                           if p.counter >= p.interval then p.restarts + [|p.buffer|] else p.restarts,
                           if p.counter >= p.interval then 1 else p.counter + 1,
                           p.lastKey[..shared] + e.key[shared..], p.entries + [e], marks)
    ensures ProgressOk(q)
  {
    assert MarksOk(q.interval, marks, |q.entries|, q.counter) by {
      AddSpacing(p.interval, p.marks, marks, |p.entries|, p.counter);
    }
    assert q.restarts == RestartOffsets(q.entries, marks) by {
      AddOffsets(p.entries, p.marks, e, marks);
    }
    assert q.buffer == Data(q.entries, marks, |q.entries|) by {
      AddData(p.entries, p.marks, e, marks, shared);
    }
    NewLastKey(p.entries, e, shared);
  }

  lemma AddSpacing(interval: nat, ms: seq<nat>, marks: seq<nat>, n: nat, counter: nat)
    requires MarksOk(interval, ms, n, counter)
    requires marks == if counter == interval then ms + [n] else ms
    ensures MarksOk(interval, marks, n + 1, if counter == interval then 1 else counter + 1)
  {
    forall k | 0 < k < |marks|
      ensures Spaced(interval, marks, k)
    {
      assert k < |ms| ==> Spaced(interval, ms, k);
    }
  }

  lemma NewLastKey(es: seq<KV>, e: KV, shared: nat)
    requires shared <= |LastKey(es)| && shared <= |e.key| && LastKey(es)[..shared] == e.key[..shared]
    ensures LastKey(es)[..shared] + e.key[shared..] == e.key == LastKey(es + [e])
  {
  }

  lemma CommonIs(a: Bytes, b: Bytes, n: nat)
    requires n <= |a| && n <= |b| && a[..n] == b[..n] && (n < |a| && n < |b| ==> a[n] != b[n])
    ensures Common(a, b) == n
  {
    var m := Common(a, b);
    assert forall i | 0 <= i < n :: a[i] == a[..n][i] && b[i] == b[..n][i];
    assert forall i | 0 <= i < m :: a[i] == a[..m][i] && b[i] == b[..m][i];
  }

  method CommonPrefix(a: Bytes, b: Bytes) returns (shared: nat)
    ensures shared == Common(a, b)
  {
    shared := 0;
    var minLength := if |a| < |b| then |a| else |b|;
    while shared < minLength && a[shared] == b[shared]
      invariant shared <= minLength && a[..shared] == b[..shared]
    {
      shared := shared + 1;
    }
    CommonIs(a, b, shared);
  }

  lemma AddMarks(es: seq<KV>, ms: seq<nat>, e: KV, marks: seq<nat>)
    requires IsMarks(ms, |es|) && (marks == ms || (marks == ms + [|es|] && es != []))
    ensures IsMarks(marks, |es| + 1)
    ensures forall k | 0 <= k < |marks| :: marks[k] <= |es|
    ensures forall i: nat | i < |es| :: i in marks <==> i in ms
    ensures |es| in marks <==> marks != ms || es == []
  {
    if marks != ms {
      assert marks[|ms|] == |es|;
    }
  }

  lemma AddOffsets(es: seq<KV>, ms: seq<nat>, e: KV, marks: seq<nat>)
    requires IsMarks(ms, |es|) && (marks == ms || (marks == ms + [|es|] && es != []))
    ensures forall k | 0 <= k < |marks| :: marks[k] <= |es|
    ensures RestartOffsets(es + [e], marks)
         == RestartOffsets(es, ms) + if marks == ms then [] else [|Data(es, ms, |es|)|]
  {
    AddMarks(es, ms, e, marks);
    forall k | 0 <= k < |marks|
      ensures Offset(es + [e], marks, marks[k]) == Offset(es, ms, marks[k])
    {
      DataExtends(es, ms, [e], marks, marks[k]);
    }
  }

  lemma AddShared(es: seq<KV>, e: KV, marks: seq<nat>, shared: nat)
    requires |es| in marks || es == [] ==> shared == 0
    requires |es| !in marks && es != [] ==> shared == Common(es[|es| - 1].key, e.key)
    ensures Shared(es + [e], marks, |es|) == shared
  {
  }

  lemma AddData(es: seq<KV>, ms: seq<nat>, e: KV, marks: seq<nat>, shared: nat)
    requires IsMarks(ms, |es|) && (marks == ms || (marks == ms + [|es|] && es != []))
    requires shared == if marks != ms then 0 else Common(if es == [] then [] else es[|es| - 1].key, e.key)
    ensures Data(es + [e], marks, |es| + 1)
         == Data(es, ms, |es|) + Piece(e, shared)
  {
    AddMarks(es, ms, e, marks);
    DataExtends(es, ms, [e], marks, |es|);
    AddShared(es, e, marks, shared);
  }
}
