/** Appending records to a log (db/log_writer.cc). */
module LogWriter {
  import opened Keys
  import opened Coding
  import opened LogFormat
  import opened Sequences

  class Writer {
    const crc: Checksum
    /** The bytes of the file so far. */
    var dest: Bytes
    var blockOffset: nat

    ghost predicate Valid()
      reads this
    {
      blockOffset <= BLOCK && |dest| % BLOCK == blockOffset % BLOCK
    }

    /** Starts, or reopens, a log that already holds `contents`. */
    constructor (crc: Checksum, contents: Bytes)
      ensures Valid() && this.crc == crc && dest == contents
    {
      this.crc, dest, blockOffset := crc, contents, |contents| % BLOCK;
    }

    /** Writes the frames of one record, from wherever the file ends. */
    method AddRecord(slice: Bytes)
      requires Valid()
      modifies this
      ensures Valid() && dest == old(dest) + LogBytes(crc, |old(dest)| % BLOCK, [slice])
    {
      LogOfOne(crc, |dest| % BLOCK, slice);
      var left := slice;
      var begin, more := true, true;
      while more
        invariant Valid()
        invariant dest + (if more then RecordBytes(crc, |dest| % BLOCK, left, begin) else [])
               == old(dest) + RecordBytes(crc, |old(dest)| % BLOCK, slice, true)
        decreases more, |left|, BLOCK - blockOffset
      {
        left, more := WriteFragment(left, begin);
        begin := false;
      }
    }

    /** One round of the loop: as much of what is left as fits the block. */
    method WriteFragment(left0: Bytes, begin: bool) returns (left: Bytes, more: bool)
      requires Valid()
      modifies this
      ensures Valid()
      ensures dest + (if more then RecordBytes(crc, |dest| % BLOCK, left, false) else [])
           == old(dest) + RecordBytes(crc, |old(dest)| % BLOCK, left0, begin)
      ensures more ==> |left| < |left0| || (|left| == |left0| && blockOffset > old(blockOffset))
    {
      ghost var start := dest;
      FillTrailer();
      var avail := BLOCK - blockOffset - HEADER;
      var fragmentLength := if |left0| < avail then |left0| else avail;
      var end := |left0| == fragmentLength;
      var kind := if begin && end then FULL else if begin then FIRST else if end then LAST else MIDDLE;
      ghost var f := Frame(|dest| - |start|, kind, left0[..fragmentLength]);
      assert FirstFrame(|start| % BLOCK, left0, begin) == f;
      PaddedFrame(crc, f, start);
      EmitPhysicalRecord(kind, left0[..fragmentLength]);
      RecordStep(crc, left0, begin, start, dest);
      left := left0[fragmentLength..];
      more := |left| > 0;
    }

    /** Fills up a block that cannot hold another header. */
    method FillTrailer()
      requires Valid()
      modifies this
      ensures Valid() && blockOffset == Start(|old(dest)| % BLOCK)
      ensures dest == old(dest) + Zeros(Padding(|old(dest)| % BLOCK))
    {
      assert |dest| % BLOCK == if blockOffset == BLOCK then 0 else blockOffset;
      assert dest == dest + Zeros(0);
      var leftover := BLOCK - blockOffset;
      if leftover < HEADER {
        if leftover > 0 {
          dest := dest + Zeros(leftover);
        }
        blockOffset := 0;
      }
    }

    method EmitPhysicalRecord(kind: byte, data: Bytes)
      requires blockOffset + HEADER + |data| <= BLOCK && |dest| % BLOCK == blockOffset % BLOCK
      modifies this
      ensures Valid() && blockOffset == old(blockOffset) + HEADER + |data|
      ensures dest == old(dest) + (Header(crc, kind, data) + data)
    {
      dest := dest + Header(crc, kind, data);
      dest := dest + data;
      assert dest == old(dest) + (Header(crc, kind, data) + data);
      SameOffset(|old(dest)|, blockOffset, HEADER + |data|);
      blockOffset := blockOffset + HEADER + |data|;
    }
  }

  /** The first frame of a record and, if any data is left, the record that continues it. */
  lemma RecordStep(crc: Checksum, data: Bytes, begin: bool, start: Bytes, written: Bytes)
    requires written == start + FrameBytes(crc, FirstFrame(|start| % BLOCK, data, begin))
    ensures var rest := data[Room(|start| % BLOCK, data)..];
            start + RecordBytes(crc, |start| % BLOCK, data, begin)
            == written + if rest == [] then [] else RecordBytes(crc, |written| % BLOCK, rest, false)
  {
    var off := |start| % BLOCK;
    var f := FirstFrame(off, data, begin);
    var rest := data[|f.data|..];
    FrameAdvances(crc, start, f, written);
    RecordUnfold(crc, off, data, begin);
    Regroup(start, FrameBytes(crc, f), if rest == [] then [] else RecordBytes(crc, After(off, f), rest, false));
  }

  lemma FrameAdvances(crc: Checksum, start: Bytes, f: Frame, written: Bytes)
    requires |f.data| < 0x1_0000 && written == start + FrameBytes(crc, f)
    ensures |written| % BLOCK == After(|start| % BLOCK, f)
  {
    Advance(|start|, 0, Size(f));
  }

  lemma RecordUnfold(crc: Checksum, off: nat, data: Bytes, begin: bool)
    requires off < BLOCK
    ensures var f := FirstFrame(off, data, begin);
            var rest := data[|f.data|..];
            && |f.data| == Room(off, data)
            && RecordBytes(crc, off, data, begin)
               == FrameBytes(crc, f) + if rest == [] then [] else RecordBytes(crc, After(off, f), rest, false)
  {
    var f := FirstFrame(off, data, begin);
    assert FrameBytes(crc, f) + [] == FrameBytes(crc, f);
  }

  lemma SameOffset(a: nat, b: nat, n: nat)
    requires a % BLOCK == b % BLOCK
    ensures (a + n) % BLOCK == (b + n) % BLOCK
  {
    Advance(a, 0, n);
    Advance(b, 0, n);
  }

  lemma PaddedFrame(crc: Checksum, f: Frame, start: Bytes)
    requires |f.data| < 0x1_0000
    ensures (start + Zeros(f.pad)) + (Header(crc, f.kind, f.data) + f.data) == start + FrameBytes(crc, f)
  {
    Join(start, Zeros(f.pad), Header(crc, f.kind, f.data), f.data);
  }

  lemma Join(a: Bytes, b: Bytes, c: Bytes, d: Bytes)
    ensures (a + b) + (c + d) == a + ((b + c) + d)
    ensures d == [] ==> a + (b + c) == (a + b) + c
  {
  }

  method WriteSession(writer: Writer, records: seq<Bytes>, ghost before: seq<Bytes>)
    requires writer.Valid() && writer.dest == LogBytes(writer.crc, 0, before)
    modifies writer
    ensures writer.Valid() && writer.dest == LogBytes(writer.crc, 0, before + records)
  {
    assert before + records[..0] == before;
    for j := 0 to |records|
      invariant writer.Valid() && writer.dest == LogBytes(writer.crc, 0, before + records[..j])
    {
      LogAppend(writer.crc, 0, before + records[..j], [records[j]]);
      assert before + records[..j + 1] == before + records[..j] + [records[j]];
      writer.AddRecord(records[j]);
    }
    assert records[..|records|] == records;
  }

  /** Any sequence of records through any number of reopened writers gives one log. */
  method WriteLog(crc: Checksum, sessions: seq<seq<Bytes>>) returns (file: Bytes)
    ensures file == LogBytes(crc, 0, Flat(sessions))
  {
    file := [];
    for i := 0 to |sessions|
      invariant file == LogBytes(crc, 0, Flat(sessions[..i]))
    {
      var writer := new Writer(crc, file);
      WriteSession(writer, sessions[i], Flat(sessions[..i]));
      file := writer.dest;
      assert sessions[..i + 1][..i] == sessions[..i];
    }
    assert sessions[..|sessions|] == sessions;
  }
}
