/** How log records are framed (db/log_format.h, util/crc32c.h), as a specification: records
    are split into frames, and frames are laid out in 32 KB blocks. */
module LogFormat {
  import opened Keys
  import opened Coding
  import opened Bits

  const BLOCK: nat := 32768
  const HEADER: nat := 7

  const FULL: byte := 1
  const FIRST: byte := 2
  const MIDDLE: byte := 3
  const LAST: byte := 4

  /** The checksum of a byte string; any function will do. */
  type Checksum = Bytes -> uint32

  // ------------------------------------------------------------------ checksum

  const MASK_DELTA: nat := 0xa282ead8

  /** Rotates right by 15 bits and adds a constant. */
  function Mask(crc: uint32): uint32 {
    (crc / 0x8000 + crc % 0x8000 * 0x2_0000 + MASK_DELTA) % TWO_32
  }

  /** Once the constant is taken off, bit `i` is bit `i + 15`, around the end. */
  lemma MaskRotates(crc: uint32, i: nat)
    requires i < 32
    ensures HasBit((Mask(crc) - MASK_DELTA) % TWO_32, i) <==> HasBit(crc, (i + 15) % 32)
  {
    RotationPowers();
    var low, high := crc % 0x8000, crc / 0x8000;
    assert (Mask(crc) - MASK_DELTA) % TWO_32 == high + low * 0x2_0000;
    HasBitJoin(low, high, 15, (i + 15) % 32);
    HasBitJoin(high, low, 17, i);
  }

  function Unmask(masked: uint32): uint32 {
    var rot := (masked - MASK_DELTA) % TWO_32;
    rot / 0x2_0000 + rot % 0x2_0000 * 0x8000
  }

  lemma UnmaskInvertsMask(crc: uint32)
    ensures Unmask(Mask(crc)) == crc
  {
    var rot := crc / 0x8000 + crc % 0x8000 * 0x2_0000;
    assert rot < TWO_32;
    assert (Mask(crc) - MASK_DELTA) % TWO_32 == rot;
    assert rot / 0x2_0000 == crc % 0x8000 && rot % 0x2_0000 == crc / 0x8000;
  }

  // -------------------------------------------------------------------- frames

  /** A physical record, after `pad` bytes that fill up the block before it. */
  datatype Frame = Frame(pad: nat, kind: byte, data: Bytes)

  function Header(crc: Checksum, kind: byte, data: Bytes): (h: Bytes)
    requires |data| < 0x1_0000
    ensures |h| == HEADER
  {
    Fixed(Mask(crc([kind] + data)), 4) + [|data| % 256, |data| / 256, kind]
  }

  function FrameBytes(crc: Checksum, f: Frame): (b: Bytes)
    requires |f.data| < 0x1_0000
    ensures |b| == Size(f)
  {
    Zeros(f.pad) + Header(crc, f.kind, f.data) + f.data
  }

  function Size(f: Frame): nat {
    f.pad + HEADER + |f.data|
  }

  /** Bytes left at the end of a block that cannot hold a header. */
  function Padding(off: nat): nat
    requires off < BLOCK
  {
    if BLOCK - off < HEADER then BLOCK - off else 0
  }

  /** Where in its block the header of the next frame goes. */
  function Start(off: nat): (s: nat)
    requires off < BLOCK
    ensures s + HEADER <= BLOCK && s == (off + Padding(off)) % BLOCK
  {
    if BLOCK - off < HEADER then 0 else off
  }

  /** How much of `data` the frame at `off` takes. */
  function Room(off: nat, data: Bytes): (n: nat)
    requires off < BLOCK
    ensures n <= |data| && n < 0x1_0000
  {
    var avail := BLOCK - Start(off) - HEADER;
    if |data| < avail then |data| else avail
  }

  function KindOf(begin: bool, end: bool): byte {
    if begin && end then FULL else if begin then FIRST else if end then LAST else MIDDLE
  }

  function FirstFrame(off: nat, data: Bytes, begin: bool): (f: Frame)
    requires off < BLOCK
    ensures |f.data| < 0x1_0000
  {
    var n := Room(off, data);
    Frame(Padding(off), KindOf(begin, n == |data|), data[..n])
  }

  function After(off: nat, f: Frame): (r: nat)
    ensures r < BLOCK
  {
    (off + Size(f)) % BLOCK
  }

  /** The frames of one record, or of the rest of one. */
  function Split(off: nat, data: Bytes, begin: bool): seq<Frame>
    requires off < BLOCK
    decreases |data|, if BLOCK - off == HEADER then 1 else 0
  {
    var f := FirstFrame(off, data, begin);
    var rest := data[|f.data|..];
    if rest == [] then [f]
    else [f] + Split(After(off, f), rest, false)
  }

  /** The frames fit: each in one block, after the padding its place calls for. */
  ghost predicate Placed(off: nat, frames: seq<Frame>)
    requires off < BLOCK
    decreases frames
  {
    frames == []
    || (&& frames[0].pad == Padding(off) && Start(off) + HEADER + |frames[0].data| <= BLOCK
        && FULL <= frames[0].kind <= LAST
        && Placed(After(off, frames[0]), frames[1..]))
  }

  ghost predicate Small(frames: seq<Frame>) {
    forall f | f in frames :: |f.data| < 0x1_0000
  }

  function FramesBytes(crc: Checksum, frames: seq<Frame>): Bytes
    requires Small(frames)
  {
    if frames == [] then [] else FrameBytes(crc, frames[0]) + FramesBytes(crc, frames[1..])
  }

  lemma {:induction false} PlacedIsSmall(off: nat, frames: seq<Frame>)
    requires off < BLOCK && Placed(off, frames)
    ensures Small(frames)
    decreases frames
  {
    if frames != [] {
      PlacedIsSmall(After(off, frames[0]), frames[1..]);
    }
  }

  function EndOf(off: nat, frames: seq<Frame>): (r: nat)
    requires off < BLOCK
    ensures r < BLOCK
    decreases frames
  {
    if frames == [] then off else EndOf(After(off, frames[0]), frames[1..])
  }

  /** The frames of a sequence of records written from block offset `off` on. */
  function AllFrames(off: nat, records: seq<Bytes>): seq<Frame>
    requires off < BLOCK
    decreases records
  {
    if records == [] then []
    else
      var fs := Split(off, records[0], true);
      fs + AllFrames(EndOf(off, fs), records[1..])
  }

  lemma {:induction false} SplitIsPlaced(off: nat, data: Bytes, begin: bool)
    requires off < BLOCK
    ensures Placed(off, Split(off, data, begin))
    decreases |data|, if BLOCK - off == HEADER then 1 else 0
  {
    var f := FirstFrame(off, data, begin);
    var rest := data[|f.data|..];
    if rest != [] {
      SplitIsPlaced(After(off, f), rest, false);
      assert Split(off, data, begin)[1..] == Split(After(off, f), rest, false);
    }
  }

  /** The kind of frame `i` of `n` frames of a record, or of the rest of one. */
  ghost predicate KindAt(begin: bool, frames: seq<Frame>, i: nat)
    requires i < |frames|
  {
    frames[i].kind == KindOf(begin && i == 0, i == |frames| - 1)
  }

  /** The data of frames, put together. */
  function DataOf(frames: seq<Frame>): Bytes {
    if frames == [] then [] else frames[0].data + DataOf(frames[1..])
  }

  /** Every frame but the last ends with its block. */
  ghost predicate FillBlocks(off: nat, frames: seq<Frame>)
    requires off < BLOCK
    decreases frames
  {
    |frames| <= 1 || (Start(off) + HEADER + |frames[0].data| == BLOCK && FillBlocks(0, frames[1..]))
  }

  /** A record is cut only where a block ends; its frames say which is the first and the last, and
      hold the record. */
  lemma {:induction false} SplitFills(off: nat, data: Bytes, begin: bool)
    requires off < BLOCK
    ensures var fs := Split(off, data, begin);
            fs != [] && DataOf(fs) == data && FillBlocks(off, fs) && forall i | 0 <= i < |fs| :: KindAt(begin, fs, i)
    decreases |data|, if BLOCK - off == HEADER then 1 else 0
  {
    var f := FirstFrame(off, data, begin);
    var rest := data[|f.data|..];
    var fs := Split(off, data, begin);
    if rest == [] {
      assert DataOf(fs[1..]) == [] && f.data == data;
    } else {
      assert |f.data| < |data| && Start(off) + HEADER + |f.data| == BLOCK;
      assert After(off, f) == 0;
      SplitFills(0, rest, false);
      var more := Split(0, rest, false);
      assert fs[1..] == more && fs[0] == f;
      assert forall i | 0 < i < |fs| :: fs[i] == more[i - 1] && KindAt(false, more, i - 1);
    }
  }

  lemma {:induction false} PlacedAppend(off: nat, a: seq<Frame>, b: seq<Frame>)
    requires off < BLOCK && Placed(off, a) && Placed(EndOf(off, a), b)
    ensures Placed(off, a + b)
    decreases a
  {
    if a == [] {
      assert a + b == b;
    } else {
      PlacedAppend(After(off, a[0]), a[1..], b);
      assert (a + b)[1..] == a[1..] + b && (a + b)[0] == a[0];
    }
  }

  lemma {:induction false} AllArePlaced(off: nat, records: seq<Bytes>)
    requires off < BLOCK
    ensures Placed(off, AllFrames(off, records))
    ensures Small(AllFrames(off, records))
    decreases records
  {
    if records != [] {
      var fs := Split(off, records[0], true);
      SplitIsPlaced(off, records[0], true);
      AllArePlaced(EndOf(off, fs), records[1..]);
      PlacedAppend(off, fs, AllFrames(EndOf(off, fs), records[1..]));
    }
    PlacedIsSmall(off, AllFrames(off, records));
  }

  lemma {:induction false} FramesAppend(crc: Checksum, a: seq<Frame>, b: seq<Frame>)
    requires Small(a) && Small(b) && Small(a + b)
    ensures FramesBytes(crc, a + b) == FramesBytes(crc, a) + FramesBytes(crc, b)
  {
    if a == [] {
      assert a + b == b;
    } else {
      assert (a + b)[0] == a[0] && (a + b)[1..] == a[1..] + b;
      FramesAppend(crc, a[1..], b);
    }
  }

  lemma Advance(off: nat, m: nat, n: nat)
    ensures ((off + m) % BLOCK + n) % BLOCK == (off + (m + n)) % BLOCK
  {
  }

  lemma {:induction false} OffsetOf(crc: Checksum, off: nat, frames: seq<Frame>)
    requires off < BLOCK && Small(frames)
    ensures EndOf(off, frames) == (off + |FramesBytes(crc, frames)|) % BLOCK
    decreases frames
  {
    if frames != [] {
      Advance(off, Size(frames[0]), |FramesBytes(crc, frames[1..])|);
      OffsetOf(crc, After(off, frames[0]), frames[1..]);
    }
  }

  /** The bytes that `records` take in a log, from block offset `off` on. */
  function LogBytes(crc: Checksum, off: nat, records: seq<Bytes>): Bytes
    requires off < BLOCK
  {
    AllArePlaced(off, records);
    FramesBytes(crc, AllFrames(off, records))
  }

  /** The bytes of one record, or of the rest of one. */
  function RecordBytes(crc: Checksum, off: nat, data: Bytes, begin: bool): Bytes
    requires off < BLOCK
    decreases |data|, if BLOCK - off == HEADER then 1 else 0
  {
    var f := FirstFrame(off, data, begin);
    var rest := data[|f.data|..];
    if rest == [] then FrameBytes(crc, f)
    else FrameBytes(crc, f) + RecordBytes(crc, After(off, f), rest, false)
  }

  lemma {:induction false} RecordIsFrames(crc: Checksum, off: nat, data: Bytes, begin: bool)
    requires off < BLOCK
    ensures Small(Split(off, data, begin))
    ensures RecordBytes(crc, off, data, begin) == FramesBytes(crc, Split(off, data, begin))
    decreases |data|, if BLOCK - off == HEADER then 1 else 0
  {
    var f := FirstFrame(off, data, begin);
    var rest := data[|f.data|..];
    var fs := Split(off, data, begin);
    SplitIsPlaced(off, data, begin);
    PlacedIsSmall(off, fs);
    if rest == [] {
      assert fs[1..] == [];
      assert FramesBytes(crc, fs) == FrameBytes(crc, f) + FramesBytes(crc, []);
    } else {
      RecordIsFrames(crc, After(off, f), rest, false);
      assert fs[1..] == Split(After(off, f), rest, false);
    }
  }

  lemma {:induction false} EndAppend(off: nat, a: seq<Frame>, b: seq<Frame>)
    requires off < BLOCK
    ensures EndOf(off, a + b) == EndOf(EndOf(off, a), b)
    decreases a
  {
    if a == [] {
      assert a + b == b;
    } else {
      assert (a + b)[0] == a[0] && (a + b)[1..] == a[1..] + b;
      EndAppend(After(off, a[0]), a[1..], b);
    }
  }

  lemma {:induction false} AllFramesAppend(off: nat, a: seq<Bytes>, b: seq<Bytes>)
    requires off < BLOCK
    ensures AllFrames(off, a + b) == AllFrames(off, a) + AllFrames(EndOf(off, AllFrames(off, a)), b)
    decreases a
  {
    if a == [] {
      assert a + b == b;
    } else {
      var fs := Split(off, a[0], true);
      var next := EndOf(off, fs);
      assert (a + b)[0] == a[0] && (a + b)[1..] == a[1..] + b;
      var mid := AllFrames(next, a[1..]);
      AllFramesAppend(next, a[1..], b);
      EndAppend(off, fs, mid);
      assert fs + (mid + AllFrames(EndOf(next, mid), b)) == (fs + mid) + AllFrames(EndOf(next, mid), b);
    }
  }

  /** Records one after the other: the second part starts where the first ended. */
  lemma LogAppend(crc: Checksum, off: nat, a: seq<Bytes>, b: seq<Bytes>)
    requires off < BLOCK
    ensures LogBytes(crc, off, a + b)
         == LogBytes(crc, off, a) + LogBytes(crc, (off + |LogBytes(crc, off, a)|) % BLOCK, b)
  {
    var fs := AllFrames(off, a);
    var more := AllFrames(EndOf(off, fs), b);
    LogEnds(crc, off, a);
    LogIs(crc, off, a + b);
    LogIs(crc, EndOf(off, fs), b);
    AllFramesAppend(off, a, b);
    AllArePlaced(off, a);
    AllArePlaced(EndOf(off, fs), b);
    FramesAppend(crc, fs, more);
  }

  lemma LogIs(crc: Checksum, off: nat, records: seq<Bytes>)
    requires off < BLOCK
    ensures Small(AllFrames(off, records)) && LogBytes(crc, off, records) == FramesBytes(crc, AllFrames(off, records))
  {
    AllArePlaced(off, records);
  }

  /** The log ends where its last frame does. */
  lemma LogEnds(crc: Checksum, off: nat, records: seq<Bytes>)
    requires off < BLOCK
    ensures Small(AllFrames(off, records)) && LogBytes(crc, off, records) == FramesBytes(crc, AllFrames(off, records))
    ensures EndOf(off, AllFrames(off, records)) == (off + |LogBytes(crc, off, records)|) % BLOCK
  {
    AllArePlaced(off, records);
    OffsetOf(crc, off, AllFrames(off, records));
  }

  lemma LogOfOne(crc: Checksum, off: nat, data: Bytes)
    requires off < BLOCK
    ensures LogBytes(crc, off, [data]) == RecordBytes(crc, off, data, true)
  {
    var fs := Split(off, data, true);
    assert AllFrames(EndOf(off, fs), []) == [];
    assert [data][1..] == [] && fs + [] == fs;
    assert AllFrames(off, [data]) == fs;
    RecordIsFrames(crc, off, data, true);
  }
}
