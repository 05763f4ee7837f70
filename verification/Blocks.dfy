/** Reading a block (table/block.cc): the iterator over its bytes is a cursor on its entries. */
module Blocks {
  import opened Keys
  import opened Coding
  import opened BlockFormat

  /** An entry header and the room after it, as the decoder checks them: the three lengths and
      the size of the header. */
  function Decode(input: Bytes): Option<(nat, nat, nat, nat)> {
    match ParseHeader(input)
    case None => None
    case Some((shared, nonShared, valueLength, rest)) =>
      if |rest| % TWO_32 < (nonShared + valueLength) % TWO_32 || |rest| > |input| then None
      else Some((shared, nonShared, valueLength, |input| - |rest|))
  }

  /** Decoding where an entry begins gives the entry. */
  lemma DecodePiece(e: KV, n: nat, input: Bytes, rest: Bytes)
    requires n <= |e.key| < TWO_32 && input == Piece(e, n) + rest && |input| < TWO_32
    ensures var m := |Piece(e, n)| - |e.value|;
            var k := |e.key| - n;
            && k <= m && Decode(input) == Some((n, k, |e.value|, m - k))
            && input[m - k..m] == e.key[n..] && input[m..|Piece(e, n)|] == e.value
  {
    var k, v := e.key[n..], e.value;
    var header := Header(n, |k|, |v|);
    FourParts(header, k, v, rest);
    DecodeHeader(n, |k|, |v|, k + v + rest);
  }

  lemma DecodeHeader(a: nat, b: nat, c: nat, rest: Bytes)
    requires a < TWO_32 && b + c <= |rest| && |Header(a, b, c)| + |rest| < TWO_32
    ensures Decode(Header(a, b, c) + rest) == Some((a, b, c, |Header(a, b, c)|))
  {
    HeaderRoundTrip(a, b, c, rest);
  }

  lemma FourParts(a: Bytes, b: Bytes, c: Bytes, d: Bytes)
    ensures var s := a + b + c + d;
            s == a + (b + c + d) && s[|a|..|a| + |b|] == b && s[|a| + |b|..|a| + |b| + |c|] == c
  {
  }

  /** The fast path: three bytes below 128. */
  lemma OneByteEach(input: Bytes)
    requires |input| >= 3 && input[0] < 128 && input[1] < 128 && input[2] < 128
    ensures ParseHeader(input) == Some((input[0] as nat, input[1] as nat, input[2] as nat, input[3..]))
  {
    assert input[1..][1..] == input[2..] && input[2..][1..] == input[3..];
  }

  ghost predicate IsBlockOf(data: Bytes, es: seq<KV>, marks: seq<nat>) {
    IsMarks(marks, |es|) && data == BlockBytes(es, marks) && |data| < TWO_32
  }

  /** Opens a block: where its restart array begins, and how many restart points it has. */
  method Open(data: Bytes, ghost es: seq<KV>, ghost marks: seq<nat>) returns (r: Option<(nat, nat)>)
    ensures IsBlockOf(data, es, marks) ==> r == Some((Offset(es, marks, |es|), |marks|))
    // any contents: the array and its length at the end have to fit
    ensures r.Some? ==> r.value.0 + 4 * r.value.1 + 4 == |data| && FromFixed(data[|data| - 4..]) == r.value.1
    ensures r.None? ==> |data| < 4 || 4 * FromFixed(data[|data| - 4..]) + 4 > |data|
  {
    if IsBlockOf(data, es, marks) {
      BlockTail(es, marks, data);
    }
    if |data| < 4 {
      return None;
    }
    var n := FromFixed(data[|data| - 4..]);
    if n > (|data| - 4) / 4 {
      return None;
    }
    r := Some((|data| - (1 + n) * 4, n));
  }

  lemma BlockTail(es: seq<KV>, marks: seq<nat>, data: Bytes)
    requires IsBlockOf(data, es, marks)
    ensures |data| == Offset(es, marks, |es|) + 4 * |marks| + 4 && FromFixed(data[|data| - 4..]) == |marks|
    ensures data[..Offset(es, marks, |es|)] == Data(es, marks, |es|)
  {
    assert data[|data| - 4..] == Fixed(|marks|, 4);
    Fixed32(|marks|);
  }

  lemma RestartAt(es: seq<KV>, marks: seq<nat>, data: Bytes, k: nat)
    requires IsBlockOf(data, es, marks) && k < |marks|
    ensures marks[k] <= |es|
    ensures var p := Offset(es, marks, |es|) + 4 * k;
            p + 4 <= |data| && FromFixed(data[p..p + 4]) == Offset(es, marks, marks[k])
  {
    var offsets := RestartOffsets(es, marks);
    OffsetFits(es, marks, data, k);
    FixedAt(offsets, k);
    MiddleAt(data, Data(es, marks, |es|), FixedAll(offsets), Fixed(|marks|, 4), 4 * k);
    Fixed32(offsets[k]);
  }

  lemma OffsetFits(es: seq<KV>, marks: seq<nat>, data: Bytes, k: nat)
    requires IsBlockOf(data, es, marks) && k < |marks|
    ensures marks[k] <= |es| && RestartOffsets(es, marks)[k] == Offset(es, marks, marks[k]) < TWO_32
  {
    OffsetsRise(es, marks, marks[k], |es|);
  }

  lemma MiddleAt(data: Bytes, a: Bytes, b: Bytes, c: Bytes, i: nat)
    requires data == a + b + c && i + 4 <= |b|
    ensures |a| + i + 4 <= |data| && data[|a| + i..|a| + i + 4] == b[i..i + 4]
  {
    var s := a + b + c;
    assert s[|a|..|a| + |b|] == b;
    SubSlice(s, |a|, |a| + |b|, i, i + 4);
  }

  // --------------------------------------------------------------------- layout

  /** Where entries begin, and how much of each key is shared: what the iterator relies on. */
  datatype Layout = Layout(es: seq<KV>, marks: seq<nat>, offsets: seq<nat>, shared: seq<nat>)

  ghost predicate Shape(l: Layout, restarts: nat) {
    && IsMarks(l.marks, |l.es|) && |l.offsets| == |l.es| + 1 && |l.shared| == |l.es| && l.offsets[|l.es|] == restarts
    && (forall i, j | 0 <= i < j <= |l.es| :: l.offsets[i] < l.offsets[j])
    && (forall i | 0 <= i < |l.es| :: l.shared[i] <= |l.es[i].key|)
  }

  /** Entry `i` decodes to itself, given what it shares with the one before. */
  ghost predicate EntryOk(data: Bytes, restarts: nat, l: Layout, i: nat)
    requires Shape(l, restarts) && i < |l.es|
  {
    && DecodesTo(data, restarts, l.es[i], l.shared[i], l.offsets[i], l.offsets[i + 1])
    && (i in l.marks || i == 0 ==> l.shared[i] == 0)
    && (i > 0 ==> l.shared[i] <= |l.es[i - 1].key| && l.es[i - 1].key[..l.shared[i]] + l.es[i].key[l.shared[i]..] == l.es[i].key)
  }

  /** From `a` to `b`, the block holds entry `e` without the first `n` bytes of its key. */
  ghost predicate DecodesTo(data: Bytes, restarts: nat, e: KV, n: nat, a: nat, b: nat)
    requires n <= |e.key|
  {
    var nonShared := |e.key| - n;
    && a + nonShared + |e.value| <= b <= restarts <= |data|
    && Decode(data[a..restarts]) == Some((n, nonShared, |e.value|, b - |e.value| - nonShared - a))
    && data[b - |e.value| - nonShared..b - |e.value|] == e.key[n..]
    && data[b - |e.value|..b] == e.value
  }

  /** What is decoded at an entry, with the prefix it shares, is the entry. */
  lemma EntryRead(data: Bytes, restarts: nat, l: Layout, i: nat, key: Bytes)
    requires LayoutOk(data, restarts, l) && i < |l.es|
    requires l.shared[i] <= |key| && key[..l.shared[i]] + l.es[i].key[l.shared[i]..] == l.es[i].key
    ensures l.offsets[i] <= restarts <= |data|
    ensures match Decode(data[l.offsets[i]..restarts])
            case None => false
            case Some((shared, nonShared, valueLength, header)) =>
              var q := l.offsets[i] + header;
              && shared <= |key| && q + nonShared + valueLength == l.offsets[i + 1] <= restarts
              && key[..shared] + data[q..q + nonShared] == l.es[i].key && valueLength == |l.es[i].value|
  {
    assert EntryOk(data, restarts, l, i);
  }

  ghost predicate RestartOk(data: Bytes, restarts: nat, l: Layout, k: nat)
    requires Shape(l, restarts) && k < |l.marks|
  {
    && l.marks[k] <= |l.es| && restarts + 4 * k + 4 <= |data|
    && FromFixed(data[restarts + 4 * k..restarts + 4 * k + 4]) == l.offsets[l.marks[k]]
  }

  ghost predicate LayoutOk(data: Bytes, restarts: nat, l: Layout) {
    && Shape(l, restarts) && restarts <= |data|
    && (forall i | 0 <= i < |l.es| :: EntryOk(data, restarts, l, i))
    && forall k | 0 <= k < |l.marks| :: RestartOk(data, restarts, l, k)
  }

  function LayoutOf(es: seq<KV>, marks: seq<nat>): Layout {
    Layout(es, marks, seq(|es| + 1, i requires 0 <= i <= |es| => Offset(es, marks, i)),
           seq(|es|, i requires 0 <= i < |es| => Shared(es, marks, i)))
  }

  lemma LayoutShape(es: seq<KV>, marks: seq<nat>)
    requires IsMarks(marks, |es|)
    ensures Shape(LayoutOf(es, marks), Offset(es, marks, |es|))
  {
    forall i, j | 0 <= i < j <= |es|
      ensures Offset(es, marks, i) < Offset(es, marks, j)
    {
      OffsetsRise(es, marks, i, j);
    }
  }

  /** A finished block has the layout its entries call for. */
  lemma BlockIsLayout(data: Bytes, es: seq<KV>, marks: seq<nat>)
    requires IsBlockOf(data, es, marks)
    ensures LayoutOk(data, Offset(es, marks, |es|), LayoutOf(es, marks))
  {
    var l, restarts := LayoutOf(es, marks), Offset(es, marks, |es|);
    LayoutShape(es, marks);
    BlockTail(es, marks, data);
    forall i | 0 <= i < |es|
      ensures EntryOk(data, restarts, l, i)
    {
      EntryIsOk(data, es, marks, i);
    }
    forall k | 0 <= k < |marks|
      ensures RestartOk(data, restarts, l, k)
    {
      RestartAt(es, marks, data, k);
    }
  }

  lemma EntryIsOk(data: Bytes, es: seq<KV>, marks: seq<nat>, i: nat)
    requires IsBlockOf(data, es, marks) && i < |es|
    ensures Shape(LayoutOf(es, marks), Offset(es, marks, |es|))
    ensures EntryOk(data, Offset(es, marks, |es|), LayoutOf(es, marks), i)
  {
    LayoutShape(es, marks);
    EntryDecodes(data, es, marks, i);
    EntryOkOf(data, Offset(es, marks, |es|), es, marks, i);
  }

  lemma EntryOkOf(data: Bytes, restarts: nat, es: seq<KV>, marks: seq<nat>, i: nat)
    requires Shape(LayoutOf(es, marks), restarts) && i < |es|
    requires DecodesTo(data, restarts, es[i], Shared(es, marks, i), Offset(es, marks, i), Offset(es, marks, i + 1))
    ensures EntryOk(data, restarts, LayoutOf(es, marks), i)
  {
    LayoutAt(es, marks, LayoutOf(es, marks), i);
    SharedIsPrefix(es, marks, i);
    EntryOkFrom(data, restarts, LayoutOf(es, marks), i);
  }

  lemma LayoutAt(es: seq<KV>, marks: seq<nat>, l: Layout, i: nat)
    requires i < |es| && l == LayoutOf(es, marks)
    ensures && l.es == es && l.marks == marks && |l.offsets| == |es| + 1 && |l.shared| == |es|
            && l.offsets[i] == Offset(es, marks, i) && l.offsets[i + 1] == Offset(es, marks, i + 1)
            && l.shared[i] == Shared(es, marks, i)
  {
  }

  lemma SharedIsPrefix(es: seq<KV>, marks: seq<nat>, i: nat)
    requires i < |es|
    ensures i in marks || i == 0 ==> Shared(es, marks, i) == 0
    ensures i > 0 ==> Shared(es, marks, i) <= |es[i - 1].key|
                      && es[i - 1].key[..Shared(es, marks, i)] == es[i].key[..Shared(es, marks, i)]
  {
  }

  lemma EntryOkFrom(data: Bytes, restarts: nat, l: Layout, i: nat)
    requires Shape(l, restarts) && i < |l.es|
    requires DecodesTo(data, restarts, l.es[i], l.shared[i], l.offsets[i], l.offsets[i + 1])
    requires i in l.marks || i == 0 ==> l.shared[i] == 0
    requires i > 0 ==> l.shared[i] <= |l.es[i - 1].key| && l.es[i - 1].key[..l.shared[i]] == l.es[i].key[..l.shared[i]]
    ensures EntryOk(data, restarts, l, i)
  {
    var n, key := l.shared[i], l.es[i].key;
    assert key[..n] + key[n..] == key;
  }

  lemma EntryDecodes(data: Bytes, es: seq<KV>, marks: seq<nat>, i: nat)
    requires IsBlockOf(data, es, marks) && i < |es|
    ensures DecodesTo(data, Offset(es, marks, |es|), es[i], Shared(es, marks, i), Offset(es, marks, i), Offset(es, marks, i + 1))
  {
    var restarts, a, b := Offset(es, marks, |es|), Offset(es, marks, i), Offset(es, marks, i + 1);
    EntryTail(data, es, marks, i);
    KeyFits(es, marks, i);
    PieceDecodes(data, restarts, es[i], Shared(es, marks, i), a, b);
  }

  lemma PieceDecodes(data: Bytes, restarts: nat, e: KV, n: nat, a: nat, b: nat)
    requires n <= |e.key| && |e.key| <= b && a <= b <= restarts <= |data| < TWO_32
    requires data[a..restarts] == Piece(e, n) + data[b..restarts]
    ensures DecodesTo(data, restarts, e, n, a, b)
  {
    var size := |Piece(e, n)|;
    assert a + size == b by {
      assert |data[a..restarts]| == restarts - a && |data[b..restarts]| == restarts - b;
    }
    DecodePiece(e, n, data[a..restarts], data[b..restarts]);
    EntryCut(data, restarts, a, size - |e.value|, |e.key| - n, size, e, n);
  }

  lemma EntryTail(data: Bytes, es: seq<KV>, marks: seq<nat>, i: nat)
    requires IsBlockOf(data, es, marks) && i < |es|
    ensures var restarts, a, b := Offset(es, marks, |es|), Offset(es, marks, i), Offset(es, marks, i + 1);
            a <= b <= restarts <= |data| && data[a..restarts] == EntryBytes(es, marks, i) + data[b..restarts]
  {
    var restarts, a, b := Offset(es, marks, |es|), Offset(es, marks, i), Offset(es, marks, i + 1);
    BlockTail(es, marks, data);
    EntryBytesAt(es, marks, i);
    Slices(data, restarts, a, b);
  }

  lemma EntryCut(data: Bytes, restarts: nat, a: nat, m: nat, k: nat, size: nat, e: KV, n: nat)
    requires n <= |e.key| && a + size <= restarts <= |data| && k == |e.key| - n && k <= m && size == m + |e.value|
    requires Decode(data[a..restarts]) == Some((n, k, |e.value|, m - k))
    requires data[a..restarts][m - k..m] == e.key[n..] && data[a..restarts][m..size] == e.value
    ensures DecodesTo(data, restarts, e, n, a, a + size)
  {
    SubSlice(data, a, restarts, m - k, m);
    SubSlice(data, a, restarts, m, size);
  }

  // ------------------------------------------------------------------- iterator

  class BlockIter {
    const data: Bytes
    const restarts: nat
    const numRestarts: nat
    const rank: Bytes -> real
    var current: nat
    var restartIndex: nat
    var key: Bytes
    var valuePos: nat
    var valueLength: nat
    ghost const layout: Layout
    /** The entry shown; the number of entries when the iterator is not valid. */
    ghost var pos: nat

    ghost predicate IsBlock() {
      LayoutOk(data, restarts, layout) && numRestarts == |layout.marks|
    }

    /** How many entries the block has. */
    ghost function Count(): nat {
      |layout.es|
    }

    /** The restart point is at or before entry `i`, and none after it is. */
    ghost predicate RestartFor(i: nat)
      reads this
    {
      && restartIndex < |layout.marks| && layout.marks[restartIndex] <= i
      && (restartIndex + 1 < |layout.marks| ==> i <= layout.marks[restartIndex + 1])
    }

    ghost predicate AtValue(i: nat)
      requires IsBlock() && i < Count()
      reads this
    {
      && current == layout.offsets[i] && key == layout.es[i].key && valueLength == |layout.es[i].value|
      && valuePos + valueLength == layout.offsets[i + 1]
    }

    ghost predicate Valid()
      reads this
    {
      && IsBlock() && pos <= Count()
      && (if pos < Count() then AtValue(pos) && RestartFor(pos) else current == restarts && restartIndex == numRestarts)
    }

    constructor (data: Bytes, restarts: nat, numRestarts: nat, rank: Bytes -> real, ghost es: seq<KV>, ghost marks: seq<nat>)
      requires IsBlockOf(data, es, marks) && restarts == Offset(es, marks, |es|) && numRestarts == |marks|
      ensures Valid() && this.rank == rank && layout.es == es && pos == |es|
    {
      this.data, this.restarts, this.numRestarts, this.rank := data, restarts, numRestarts, rank;
      layout := LayoutOf(es, marks);
      current, restartIndex, key, valuePos, valueLength := restarts, numRestarts, [], 0, 0;
      pos := |es|;
      BlockIsLayout(data, es, marks);
    }

    predicate AtEntry()
      reads this
    {
      current < restarts
    }

    /** The value shown, cut out of the block. */
    function Value(): (v: Bytes)
      requires Valid() && AtEntry()
      reads this
      ensures pos < Count() && v == layout.es[pos].value
    {
      assert EntryOk(data, restarts, layout, pos);
      data[valuePos..valuePos + valueLength]
    }

    method GetRestartPoint(index: nat) returns (offset: nat)
      requires IsBlock() && index < numRestarts
      ensures layout.marks[index] <= Count() && offset == layout.offsets[layout.marks[index]]
    {
      assert RestartOk(data, restarts, layout, index);
      offset := FromFixed(data[restarts + 4 * index..restarts + 4 * index + 4]);
    }

    method DecodeEntry(p: nat) returns (r: Option<(nat, nat, nat, nat)>)
      requires p <= restarts <= |data|
      ensures r == Decode(data[p..restarts])
    {
      var input := data[p..restarts];
      if |input| < 3 {
        ShortInput(input);
        return None;
      }
      var shared, nonShared, valueLength: nat := input[0], input[1], input[2];
      var rest := input[3..];
      if shared < 128 && nonShared < 128 && valueLength < 128 {
        OneByteEach(input);
      } else {
        var v: Option<nat>;
        v, rest := GetVarint32(input);
        if v.None? {
          return None;
        }
        shared := v.value;
        v, rest := GetVarint32(rest);
        if v.None? {
          return None;
        }
        nonShared := v.value;
        v, rest := GetVarint32(rest);
        if v.None? {
          return None;
        }
        valueLength := v.value;
      }
      if |rest| % TWO_32 < (nonShared + valueLength) % TWO_32 {
        return None;
      }
      r := Some((shared, nonShared, valueLength, |input| - |rest|));
    }

    // ---------------------------------------------------------------- moving

    /** Ready to parse entry `i`: the last value ends where it begins, and its shared prefix is
        in `key`. */
    ghost predicate ReadyFor(i: nat)
      reads this
    {
      && IsBlock() && i <= Count() && valuePos + valueLength == layout.offsets[i]
      && (i < Count() ==>
            && restartIndex < |layout.marks| && layout.marks[restartIndex] <= i
            && layout.shared[i] <= |key| && key[..layout.shared[i]] + layout.es[i].key[layout.shared[i]..] == layout.es[i].key)
    }

    method SeekToRestartPoint(index: nat)
      requires IsBlock() && index < numRestarts
      modifies this`key, this`restartIndex, this`valuePos, this`valueLength
      ensures layout.marks[index] <= Count() && ReadyFor(layout.marks[index]) && restartIndex == index
    {
      key := [];
      restartIndex := index;
      valuePos := GetRestartPoint(index);
      valueLength := 0;
      WholeKey(layout.marks[index]);
    }

    /** The entry at a restart point shares nothing. */
    lemma WholeKey(i: nat)
      requires IsBlock() && i in layout.marks && i <= Count()
      ensures i < Count() ==> layout.shared[i] == 0 && [] + layout.es[i].key[0..] == layout.es[i].key
    {
      if i < Count() {
        assert EntryOk(data, restarts, layout, i);
      }
    }

    method ParseNextKey(ghost i: nat) returns (more: bool)
      requires ReadyFor(i)
      modifies this`current, this`key, this`restartIndex, this`valuePos, this`valueLength, this`pos
      ensures Valid() && pos == i && more == (i < Count())
    {
      current := valuePos + valueLength;
      pos := i;
      if current >= restarts {
        current := restarts;
        restartIndex := numRestarts;
        return false;
      }
      EntryRead(data, restarts, layout, i, key);
      var p := DecodeEntry(current);
      // an entry of a finished block decodes, so the branch that reports corruption is not taken
      assert p.Some? && p.value.0 <= |key|;
      var (shared, nonShared, valueLen, header) := p.value;
      TakeEntry(i, shared, nonShared, valueLen, current + header);
      more := true;
    }

    /** Stands at the entry just decoded, whose own bytes are at `q`. */
    method TakeEntry(ghost i: nat, shared: nat, nonShared: nat, valueLen: nat, q: nat)
      requires IsBlock() && i < Count() && current == layout.offsets[i]
      requires restartIndex < |layout.marks| && layout.marks[restartIndex] <= i
      requires shared <= |key| && q + nonShared + valueLen == layout.offsets[i + 1] <= |data|
      requires key[..shared] + data[q..q + nonShared] == layout.es[i].key && valueLen == |layout.es[i].value|
      modifies this`key, this`restartIndex, this`valuePos, this`valueLength
      ensures AtValue(i) && RestartFor(i)
    {
      key := key[..shared] + data[q..q + nonShared];
      valuePos, valueLength := q + nonShared, valueLen;
      AdvanceRestart(i);
    }

    /** Moves on to the last restart point before the current entry. */
    method AdvanceRestart(ghost i: nat)
      requires IsBlock() && i < Count() && current == layout.offsets[i]
      requires restartIndex < |layout.marks| && layout.marks[restartIndex] <= i
      modifies this`restartIndex
      ensures RestartFor(i)
    {
      while restartIndex + 1 < numRestarts
        invariant restartIndex < |layout.marks| && layout.marks[restartIndex] <= i
        decreases numRestarts - restartIndex
      {
        var next := GetRestartPoint(restartIndex + 1);
        if next >= current {
          return;
        }
        restartIndex := restartIndex + 1;
      }
    }

    /** After an entry has been parsed, the next one can be. */
    lemma ReadyForNext()
      requires Valid() && pos < Count()
      ensures ReadyFor(pos + 1)
    {
      if pos + 1 < Count() {
        assert EntryOk(data, restarts, layout, pos + 1);
      }
    }

    method Next()
      requires Valid() && AtEntry()
      modifies this
      ensures Valid() && pos == old(pos) + 1
    {
      ReadyForNext();
      var more := ParseNextKey(pos + 1);
    }

    method SeekToFirst()
      requires Valid()
      modifies this
      ensures Valid() && pos == 0
    {
      SeekToRestartPoint(0);
      var more := ParseNextKey(0);
    }

    /** Scans from entry `from`, ready to be parsed, to the last entry that ends by `limit`. */
    method SkipTo(ghost from: nat, ghost last: nat, limit: nat)
      requires ReadyFor(from) && (from < Count() ==> from <= last < Count() && limit == layout.offsets[last + 1])
      modifies this
      ensures Valid() && pos == if from < Count() then last else Count()
    {
      var more := ParseNextKey(from);
      while more && valuePos + valueLength < limit
        invariant Valid() && more == (from < Count())
        invariant if from < Count() then pos <= last else pos == Count()
        decreases last - pos
      {
        ReadyForNext();
        more := ParseNextKey(pos + 1);
      }
    }

    method SeekToLast()
      requires Valid()
      modifies this
      ensures Valid() && pos == if Count() == 0 then 0 else Count() - 1
    {
      SeekToRestartPoint(numRestarts - 1);
      SkipTo(layout.marks[|layout.marks| - 1], if Count() == 0 then 0 else Count() - 1, restarts);
    }

    method Prev()
      requires Valid() && AtEntry()
      modifies this
      ensures Valid() && pos == if old(pos) == 0 then Count() else old(pos) - 1
    {
      var original := current;
      var offset := GetRestartPoint(restartIndex);
      while offset >= original
        invariant Valid() && pos == old(pos) < Count() && current == original
        invariant restartIndex < |layout.marks| && offset == layout.offsets[layout.marks[restartIndex]]
        decreases restartIndex
      {
        if restartIndex == 0 {
          current := restarts;
          restartIndex := numRestarts;
          pos := Count();
          return;
        }
        restartIndex := restartIndex - 1;
        offset := GetRestartPoint(restartIndex);
      }
      ghost var p := pos;
      SeekToRestartPoint(restartIndex);
      SkipTo(layout.marks[restartIndex], p - 1, original);
    }

    // --------------------------------------------------------------- seeking

    ghost predicate Increasing() {
      forall i, j | 0 <= i < j < |layout.es| :: rank(layout.es[i].key) < rank(layout.es[j].key)
    }

    /** Lands on the first entry whose key is not below the target. */
    method Seek(target: Bytes)
      requires Valid() && Increasing()
      modifies this
      ensures Valid()
      ensures forall i | 0 <= i < Count() :: i < pos <==> rank(layout.es[i].key) < rank(target)
    {
      var left, right := 0, numRestarts - 1;
      while left < right
        invariant 0 <= left <= right < numRestarts && Valid()
        invariant left > 0 ==> layout.marks[left] < Count() && rank(layout.es[layout.marks[left]].key) < rank(target)
      {
        var mid := (left + right + 1) / 2;
        var midKey := KeyAtRestart(mid);
        if rank(midKey) < rank(target) {
          left := mid;
        } else {
          right := mid - 1;
        }
      }
      SeekToRestartPoint(left);
      ScanTo(layout.marks[left], target);
    }

    /** The key at a restart point, which is stored whole. */
    method KeyAtRestart(index: nat) returns (k: Bytes)
      requires IsBlock() && 0 < index < numRestarts
      ensures layout.marks[index] < Count() && k == layout.es[layout.marks[index]].key
    {
      var offset := GetRestartPoint(index);
      WholeKey(layout.marks[index]);
      assert EntryOk(data, restarts, layout, layout.marks[index]);
      var p := DecodeEntry(offset);
      assert p.Some? && p.value.0 == 0;
      k := data[offset + p.value.3..offset + p.value.3 + p.value.1];
    }

    /** The linear part of a search. */
    method ScanTo(ghost from: nat, target: Bytes)
      requires ReadyFor(from) && Increasing()
      requires from > 0 ==> from < Count() && rank(layout.es[from].key) < rank(target)
      modifies this
      ensures Valid()
      ensures forall i | 0 <= i < Count() :: i < pos <==> rank(layout.es[i].key) < rank(target)
    {
      var more := ParseNextKey(from);
      while more && rank(key) < rank(target)
        invariant Valid() && more == (pos < Count()) && pos >= from
        invariant forall i | 0 <= i < pos :: rank(layout.es[i].key) < rank(target)
        decreases Count() - pos
      {
        ReadyForNext();
        more := ParseNextKey(pos + 1);
      }
    }
  }

  /** Builds a block from entries and reads it back from front to back. */
  method BuildAndRead(es: seq<KV>, interval: nat, rank: Bytes -> real) returns (block: Bytes, got: seq<KV>)
    requires interval >= 1
    ensures |block| < TWO_32 ==> got == es
  {
    got := [];
    var builder := new BlockBuilder(interval);
    for i := 0 to |es|
      invariant builder.Valid() && fresh(builder) && builder.entries == es[..i]
    {
      assert es[..i + 1] == es[..i] + [KV(es[i].key, es[i].value)];
      builder.Add(es[i].key, es[i].value);
    }
    assert es[..|es|] == es;
    ghost var marks := builder.marks;
    block := builder.Finish();
    if |block| < TWO_32 {
      var found := Open(block, es, marks);
      var iter := new BlockIter(block, found.value.0, found.value.1, rank, es, marks);
      got := ReadBlock(iter);
    }
  }

  method ReadBlock(iter: BlockIter) returns (got: seq<KV>)
    requires iter.Valid()
    modifies iter
    ensures got == iter.layout.es
  {
    iter.SeekToFirst();
    got := [];
    while iter.AtEntry()
      invariant iter.Valid() && iter.pos <= |iter.layout.es| && got == iter.layout.es[..iter.pos]
      decreases iter.Count() - iter.pos
    {
      got := got + [KV(iter.key, iter.Value())];
      iter.Next();
    }
  }

  lemma Slices(s: Bytes, end: nat, a: nat, b: nat)
    requires a <= b <= end <= |s|
    ensures s[..end][a..b] == s[a..b] && s[a..end] == s[a..b] + s[b..end]
    ensures s[b..end] == s[a..end][b - a..]
  {
  }

  lemma SubSlice(s: Bytes, a: nat, end: nat, lo: nat, hi: nat)
    requires a <= end <= |s| && lo <= hi <= end - a
    ensures s[a..end][lo..hi] == s[a + lo..a + hi]
  {
    var t := s[a..end];
    assert forall i | 0 <= i < hi - lo :: t[lo..hi][i] == t[lo + i] && t[lo + i] == s[a + (lo + i)];
  }

  lemma ShortInput(input: Bytes)
    requires |input| < 3
    ensures ParseHeader(input) == None
  {
  }
}
