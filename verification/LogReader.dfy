/** Reading a log back (db/log_reader.cc), from any byte prefix of it. */
module LogReader {
  import opened Keys
  import opened Coding
  import opened LogFormat
  import opened Sequences

  const EOF: nat := 5
  const BAD_RECORD: nat := 6

  /** The two length bytes of a header. */
  function Length(header: Bytes): nat
    requires |header| >= HEADER
  {
    header[4] as int + header[5] as int * 256
  }

  lemma HeaderParts(crc: Checksum, kind: byte, data: Bytes)
    requires |data| < 0x1_0000
    ensures var h := Header(crc, kind, data);
            Length(h) == |data| && h[6] == kind && Unmask32(h[..4]) == crc([kind] + data)
  {
    var c := crc([kind] + data);
    UnmaskFixed(Mask(c));
    UnmaskInvertsMask(c);
    assert Header(crc, kind, data)[..4] == Fixed(Mask(c), 4);
  }

  lemma UnmaskFixed(m: uint32)
    ensures Unmask32(Fixed(m, 4)) == Unmask(m)
  {
    Fixed32(m);
    UnmaskOf(Fixed(m, 4), m);
  }

  lemma UnmaskOf(b: Bytes, m: uint32)
    requires |b| == 4 && FromFixed(b) == m
    ensures Unmask32(b) == Unmask(m)
  {
    SmallRemainder(m);
  }

  lemma SmallRemainder(m: uint32)
    ensures m % TWO_32 == m
  {
  }

  /** The checksum stored in the first four bytes of a header. */
  function Unmask32(b: Bytes): uint32
    requires |b| == 4
  {
    Unmask(FromFixed(b) % TWO_32)
  }

  /** What a prefix of a frame and its successors shows of the frame. */
  lemma FrameAt(crc: Checksum, f: Frame, rest: Bytes, tail: Bytes)
    requires |f.data| < 0x1_0000 && tail <= FrameBytes(crc, f) + rest
    ensures |tail| >= f.pad + HEADER ==> tail[f.pad..f.pad + HEADER] == Header(crc, f.kind, f.data)
    ensures |tail| >= Size(f) ==> tail[f.pad + HEADER..Size(f)] == f.data && tail[Size(f)..] <= rest
  {
    var whole := Zeros(f.pad) + Header(crc, f.kind, f.data) + f.data + rest;
    assert whole[f.pad..f.pad + HEADER] == Header(crc, f.kind, f.data);
    assert whole[f.pad + HEADER..Size(f)] == f.data && whole[Size(f)..] == rest;
    assert tail == whole[..|tail|];
  }

  /** The next frame, seen from a buffer that starts at its header and ends at the end of a
      block or of the file. */
  lemma NextFrame(crc: Checksum, file: Bytes, pos: nat, end: nat, f: Frame, rest: Bytes)
    requires pos <= |file| && |f.data| < 0x1_0000 && file[pos..] <= FrameBytes(crc, f) + rest
    requires f.pad == Padding(pos % BLOCK) && Start(pos % BLOCK) + HEADER + |f.data| <= BLOCK
    requires pos + f.pad + HEADER <= end <= |file| && (end == |file| || end % BLOCK == 0)
    ensures file[pos + f.pad..pos + f.pad + HEADER] == Header(crc, f.kind, f.data)
    ensures if pos + Size(f) <= |file| then
              && pos + Size(f) <= end
              && file[pos + f.pad + HEADER..pos + Size(f)] == f.data
              && file[pos + Size(f)..] <= rest
            else end == |file| && end % BLOCK != 0
  {
    var start := pos + f.pad;
    var tail := file[pos..];
    FrameAt(crc, f, rest, tail);
    assert tail[f.pad..f.pad + HEADER] == file[start..start + HEADER];
    StartIs(pos);
    FrameInBlock(start, end, HEADER + |f.data|);
    if pos + Size(f) <= |file| {
      assert tail[f.pad + HEADER..Size(f)] == file[start + HEADER..pos + Size(f)];
      assert tail[Size(f)..] == file[pos + Size(f)..];
    }
  }

  lemma StartIs(pos: nat)
    ensures (pos + Padding(pos % BLOCK)) % BLOCK == Start(pos % BLOCK)
  {
  }

  /** `at` is `pos`, or the start of a block just after the trailer at `pos`. */
  ghost predicate HeaderFrom(pos: nat, at: nat) {
    at == pos || (at == pos + Padding(pos % BLOCK) && at % BLOCK == 0)
  }

  lemma TrailerSkipped(pos: nat, at: nat, end: nat)
    requires HeaderFrom(pos, at) && end % BLOCK == 0 && at <= end < at + HEADER
    ensures HeaderFrom(pos, end)
  {
  }

  lemma NoTrailer(pos: nat, at: nat, end: nat, eof: bool)
    requires HeaderFrom(pos, at) && at + HEADER <= end
    requires if eof then end - at <= end % BLOCK else end % BLOCK == 0 && end - at <= BLOCK
    ensures at == pos + Padding(pos % BLOCK)
  {
  }

  lemma FrameInBlock(start: nat, end: nat, n: nat)
    requires start % BLOCK + n <= BLOCK
    ensures end % BLOCK == 0 && start < end ==> start + n <= end
  {
  }

  lemma ShownHeader(file: Bytes, buffer: Bytes, end: nat, header: Bytes, data: Bytes)
    requires HEADER <= |buffer| <= end <= |file| && buffer == file[end - |buffer|..end]
    requires |header| == HEADER && file[end - |buffer|..end - |buffer| + HEADER] == header
    ensures buffer[..HEADER] == header && buffer[..4] == header[..4] && Length(buffer) == Length(header)
    ensures buffer[6] == header[6]
    ensures HEADER + |data| <= |buffer| ==>
              && buffer[HEADER..HEADER + |data|] == file[end - |buffer| + HEADER..end - |buffer| + HEADER + |data|]
              && (buffer[HEADER..HEADER + |data|] == data ==> buffer[6..HEADER + |data|] == [header[6]] + data)
  {
    assert buffer[..HEADER] == header;
    assert forall i | 0 <= i < HEADER :: buffer[i] == buffer[..HEADER][i];
    assert buffer[..4] == header[..4];
    if HEADER + |data| <= |buffer| {
      assert buffer[6..HEADER + |data|] == [buffer[6]] + buffer[HEADER..HEADER + |data|];
    }
  }

  lemma BlockStep(start: nat, n: nat)
    requires start % BLOCK == 0 && n <= BLOCK
    ensures (start + n) % BLOCK == if n == BLOCK then 0 else n
  {
  }

  // --------------------------------------------------------- any bytes at all

  /** What one attempt to read a fragment gives: its kind and data, where reading goes on, and how
      many times corruption was reported. */
  datatype Step = Step(kind: nat, fragment: Bytes, end: nat, reports: nat)

  /** Where the block of position `at` ends, or the file does. */
  function BlockEnd(length: nat, at: nat): nat {
    var end := at - at % BLOCK + BLOCK;
    if end < length then end else length
  }

  /** From position `pos` of any file. A header that does not fit means the end. Lengths past the end of
      the block are reported, unless the file ends in that block. A header of zeros, and a
      fragment whose checksum is wrong, end the block. */
  ghost predicate Physical(crc: Checksum, checksum: bool, file: Bytes, pos: nat, s: Step) {
    var at := pos + Padding(pos % BLOCK);
    if at + HEADER > |file| then s == Step(EOF, [], |file|, 0)
    else
      var end, n, kind := BlockEnd(|file|, at), Length(file[at..at + HEADER]), file[at + 6];
      if at + HEADER + n > end then
        s == if end % BLOCK == 0 then Step(BAD_RECORD, [], end, 1) else Step(EOF, [], end, 0)
      else if kind == 0 && n == 0 then s == Step(BAD_RECORD, [], end, 0)
      else if checksum && crc(file[at + 6..at + HEADER + n]) != Unmask32(file[at..at + 4]) then
        s == Step(BAD_RECORD, [], end, 1)
      else s == Step(kind, file[at + HEADER..at + HEADER + n], at + HEADER + n, 0)
  }

  lemma BufferEnd(filePos: nat, buffered: nat, eof: bool, length: nat)
    requires HEADER <= buffered <= filePos <= length
    requires if eof then filePos == length && buffered <= filePos % BLOCK else filePos % BLOCK == 0 && buffered <= BLOCK
    ensures BlockEnd(length, filePos - buffered) == filePos && (eof <==> filePos % BLOCK != 0)
  {
    var read := if eof then filePos % BLOCK else BLOCK;
    BlockStart(filePos, eof);
    BlockStep(filePos - read, read - buffered);
  }

  lemma BlockStart(filePos: nat, eof: bool)
    requires eof || (filePos > 0 && filePos % BLOCK == 0)
    ensures var read := if eof then filePos % BLOCK else BLOCK; filePos >= read && (filePos - read) % BLOCK == 0
  {
  }

  lemma BufferHeader(file: Bytes, filePos: nat, buffer: Bytes)
    requires HEADER <= |buffer| <= filePos <= |file| && buffer == file[filePos - |buffer|..filePos]
    ensures var at := filePos - |buffer|;
            Length(file[at..at + HEADER]) == Length(buffer) && file[at + 6] == buffer[6] && file[at..at + 4] == buffer[..4]
  {
  }

  /** Attempts one after the other from `pos` on. */
  ghost predicate Attempts(crc: Checksum, checksum: bool, file: Bytes, pos: nat, steps: seq<Step>) {
    forall i | 0 <= i < |steps| :: AttemptAt(crc, checksum, file, pos, steps, i)
  }

  ghost predicate AttemptAt(crc: Checksum, checksum: bool, file: Bytes, pos: nat, steps: seq<Step>, i: nat)
    requires i < |steps|
  {
    Physical(crc, checksum, file, if i == 0 then pos else steps[i - 1].end, steps[i])
  }

  function Fragments(steps: seq<Step>): Bytes {
    if steps == [] then [] else Fragments(steps[..|steps| - 1]) + steps[|steps| - 1].fragment
  }

  /** The attempts from number `i` on have read a first fragment and then only middle ones. */
  ghost predicate Inside(steps: seq<Step>, i: nat) {
    i < |steps| && steps[i].kind == FIRST as nat && forall j | i < j < |steps| :: steps[j].kind == MIDDLE as nat
  }

  /** The last attempt completes a record: one in a single fragment, or one whose other fragments come
      just before the last one. */
  ghost predicate Completes(steps: seq<Step>, record: Bytes) {
    steps != [] && EndsRecord(steps[..|steps| - 1], steps[|steps| - 1], record)
  }

  ghost predicate EndsRecord(before: seq<Step>, x: Step, record: Bytes) {
    || (x.kind == FULL as nat && record == x.fragment)
    || (x.kind == LAST as nat && exists i: nat :: Inside(before, i) && record == Fragments(before[i..]) + x.fragment)
  }

  ghost predicate AtEnd(steps: seq<Step>) {
    steps != [] && steps[|steps| - 1].kind == EOF
  }

  /** No attempt ended the reading. */
  ghost predicate NoneEnds(steps: seq<Step>) {
    forall n | 0 <= n < |steps| :: !EndsAt(steps, n)
  }

  ghost predicate EndsAt(steps: seq<Step>, n: nat)
    requires n < |steps|
  {
    steps[n].kind == EOF || exists record :: EndsRecord(steps[..n], steps[n], record)
  }

  /** What has been collected of a record. */
  ghost predicate Collected(steps: seq<Step>, inside: bool, scratch: Bytes) {
    if inside then exists i: nat :: Inside(steps, i) && scratch == Fragments(steps[i..]) else forall i: nat :: !Inside(steps, i)
  }

  /** What the reader makes of one more fragment. */
  ghost predicate Assembled(x: Step, scratch0: Bytes, inside0: bool, record: Option<Bytes>, scratch: Bytes, inside: bool) {
    if x.kind == FULL as nat then record == Some(x.fragment)
    else if x.kind == FIRST as nat then record == None && inside && scratch == x.fragment
    else if x.kind == MIDDLE as nat then record == None && inside == inside0 && (inside ==> scratch == scratch0 + x.fragment)
    else if x.kind == LAST as nat then
      if inside0 then record == Some(scratch0 + x.fragment) else record == None && !inside
    else record == None && (x.kind != EOF ==> !inside)
  }

  /** How many times corruption is reported then: data without a start, or that loses its end. */
  function ReportsOf(x: Step, scratch0: Bytes, inside0: bool): nat {
    if x.kind == FULL as nat || x.kind == FIRST as nat then if inside0 && scratch0 != [] then 1 else 0
    else if x.kind == MIDDLE as nat || x.kind == LAST as nat then if inside0 then 0 else 1
    else if x.kind == EOF then 0
    else if x.kind == BAD_RECORD then if inside0 then 1 else 0
    else 1
  }

  function Reports(steps: seq<Step>): nat {
    if steps == [] then 0 else Reports(steps[..|steps| - 1]) + steps[|steps| - 1].reports
  }

  lemma AssembledIs(steps: seq<Step>, x: Step, scratch0: Bytes, inside0: bool,
                    record: Option<Bytes>, scratch: Bytes, inside: bool)
    requires Collected(steps, inside0, scratch0) && Assembled(x, scratch0, inside0, record, scratch, inside)
    ensures record.Some? ==> EndsRecord(steps, x, record.value)
    ensures record.None? ==> forall r :: !EndsRecord(steps, x, r)
    ensures record.None? && x.kind != EOF ==> Collected(steps + [x], inside, scratch)
  {
    if record.None? && x.kind != EOF {
      if x.kind == FIRST as nat {
        assert Inside(steps + [x], |steps|);
        assert (steps + [x])[|steps|..] == [x] && [x][..0] == [] && Fragments([x]) == x.fragment;
      } else if x.kind == MIDDLE as nat && inside0 {
        MoreInside(steps, x, scratch0);
      } else {
        NotInside(steps, x);
      }
    }
  }

  lemma AttemptsMore(crc: Checksum, checksum: bool, file: Bytes, pos: nat, steps: seq<Step>, x: Step)
    requires Attempts(crc, checksum, file, pos, steps)
    requires Physical(crc, checksum, file, if steps == [] then pos else steps[|steps| - 1].end, x)
    ensures Attempts(crc, checksum, file, pos, steps + [x])
  {
    var more := steps + [x];
    forall i | 0 <= i < |more|
      ensures AttemptAt(crc, checksum, file, pos, more, i)
    {
      assert i < |steps| ==> AttemptAt(crc, checksum, file, pos, steps, i);
    }
  }

  lemma NoneEndsMore(steps: seq<Step>, x: Step)
    requires NoneEnds(steps) && x.kind != EOF && forall r :: !EndsRecord(steps, x, r)
    ensures NoneEnds(steps + [x])
  {
    var more := steps + [x];
    forall n | 0 <= n < |more|
      ensures !EndsAt(more, n)
    {
      if n < |steps| {
        assert more[..n] == steps[..n] && !EndsAt(steps, n);
      } else {
        assert more[..n] == steps;
      }
    }
  }

  lemma MoreInside(steps: seq<Step>, x: Step, scratch: Bytes)
    requires Collected(steps, true, scratch) && x.kind == MIDDLE as nat
    ensures Collected(steps + [x], true, scratch + x.fragment)
  {
    var i: nat :| Inside(steps, i) && scratch == Fragments(steps[i..]);
    assert Inside(steps + [x], i);
    assert (steps + [x])[i..] == steps[i..] + [x];
    assert (steps[i..] + [x])[..|steps| - i] == steps[i..];
  }

  lemma NotInside(steps: seq<Step>, x: Step)
    requires x.kind != FIRST as nat && (x.kind != MIDDLE as nat || forall i: nat :: !Inside(steps, i))
    ensures forall i: nat :: !Inside(steps + [x], i)
  {
    forall i: nat
      ensures !Inside(steps + [x], i)
    {
      InsideBefore(steps, x, i);
    }
  }

  lemma InsideBefore(steps: seq<Step>, x: Step, i: nat)
    ensures Inside(steps + [x], i) ==>
              if i < |steps| then Inside(steps, i) && x.kind == MIDDLE as nat else x.kind == FIRST as nat
  {
    var more := steps + [x];
    assert more[|steps|] == x && forall j | 0 <= j < |steps| :: more[j] == steps[j];
  }

  /** The bytes a buffer shows of the file. */
  lemma BufferBytes(file: Bytes, filePos: nat, buffer: Bytes, n: nat)
    requires HEADER + n <= |buffer| <= filePos <= |file| && buffer == file[filePos - |buffer|..filePos]
    ensures var at := filePos - |buffer|;
            && buffer[6..HEADER + n] == file[at + 6..at + HEADER + n]
            && buffer[HEADER..HEADER + n] == file[at + HEADER..at + HEADER + n]
  {
    SliceOfSlice(file, filePos - |buffer|, filePos, 6, HEADER + n);
    SliceOfSlice(file, filePos - |buffer|, filePos, HEADER, HEADER + n);
  }

  /** What parsing makes of a buffer, and what it leaves of it. */
  ghost predicate ParsedAs(crc: Checksum, checksum: bool, eof: bool, before: Bytes, after: Bytes,
                           kind: nat, fragment: Bytes, reports: int)
    requires |before| >= HEADER
  {
    var n := Length(before);
    if HEADER + n > |before| then
      after == [] && fragment == [] && if eof then kind == EOF && reports == 0 else kind == BAD_RECORD && reports == 1
    else if before[6] == 0 && n == 0 then after == [] && fragment == [] && kind == BAD_RECORD && reports == 0
    else if checksum && crc(before[6..HEADER + n]) != Unmask32(before[..4]) then
      after == [] && fragment == [] && kind == BAD_RECORD && reports == 1
    else kind == before[6] && fragment == before[HEADER..HEADER + n] && after == before[HEADER + n..] && reports == 0
  }

  lemma ParsedIsPhysical(crc: Checksum, checksum: bool, file: Bytes, filePos: nat, eof: bool, pos: nat,
                         before: Bytes, after: Bytes, kind: nat, fragment: Bytes, reports: nat)
    requires HEADER <= |before| <= filePos <= |file| && before == file[filePos - |before|..filePos]
    requires if eof then filePos == |file| && |before| <= filePos % BLOCK else filePos % BLOCK == 0 && |before| <= BLOCK
    requires filePos - |before| == pos + Padding(pos % BLOCK) && |after| <= filePos
    requires ParsedAs(crc, checksum, eof, before, after, kind, fragment, reports)
    ensures Physical(crc, checksum, file, pos, Step(kind, fragment, filePos - |after|, reports))
  {
    BufferEnd(filePos, |before|, eof, |file|);
    BufferHeader(file, filePos, before);
    if HEADER + Length(before) <= |before| {
      BufferBytes(file, filePos, before, Length(before));
    }
  }

  lemma SliceOfSlice(s: Bytes, lo: nat, hi: nat, a: nat, b: nat)
    requires lo <= hi <= |s| && a <= b <= hi - lo
    ensures s[lo..hi][a..b] == s[lo + a..lo + b]
  {
    var t := s[lo..hi];
    assert |t[a..b]| == |s[lo + a..lo + b]| && forall i | a <= i < b :: t[i] == s[lo + i];
  }

  class Reader {
    const crc: Checksum
    const checksum: bool
    const file: Bytes
    /** How much of the file has been read into the buffer, block by block. */
    var filePos: nat
    var buffer: Bytes
    var eof: bool
    /** How many times corruption was reported. */
    var corruptions: nat

    ghost predicate Valid()
      reads this
    {
      && |buffer| <= filePos <= |file| && buffer == file[filePos - |buffer|..filePos]
      && (eof ==> filePos == |file| && |buffer| <= filePos % BLOCK)
      && (!eof ==> filePos % BLOCK == 0 && |buffer| <= BLOCK)
    }

    /** Position of the first byte not consumed. */
    ghost function Pos(): nat
      requires Valid()
      reads this
    {
      filePos - |buffer|
    }

    constructor (crc: Checksum, file: Bytes, checksum: bool)
      ensures Valid() && Pos() == 0 && corruptions == 0
      ensures this.crc == crc && this.file == file && this.checksum == checksum
    {
      this.crc, this.file, this.checksum := crc, file, checksum;
      filePos, buffer, eof, corruptions := 0, [], false, 0;
    }

    /** Reads the next block, or what there is of it. */
    method FillBuffer()
      requires Valid() && !eof
      modifies this`filePos, this`buffer, this`eof
      ensures Valid() && Pos() == old(filePos)
      ensures eof || filePos > old(filePos)
    {
      var n := if |file| - filePos < BLOCK then |file| - filePos else BLOCK;
      BlockStep(filePos, n);
      buffer := file[filePos..filePos + n];
      filePos := filePos + n;
      if |buffer| < BLOCK {
        eof := true;
      }
    }

    /** From position `pos` on, the file is a prefix of `frames`. */
    ghost predicate FramesFrom(pos: nat, frames: seq<Frame>) {
      pos <= |file| && Small(frames) && Placed(pos % BLOCK, frames) && file[pos..] <= FramesBytes(crc, frames)
    }

    /** What reading one frame from `pos` gives. */
    ghost predicate ReadFrom(pos: nat, frames: seq<Frame>, kind: nat, fragment: Bytes)
      requires Valid()
      reads this
    {
      if frames != [] && pos + Size(frames[0]) <= |file| then
        && kind == frames[0].kind && fragment == frames[0].data
        && Pos() == pos + Size(frames[0]) && FramesFrom(Pos(), frames[1..])
      else kind == EOF && Pos() == |file|
    }

    method ReadPhysicalRecord(ghost frames: seq<Frame>) returns (kind: nat, fragment: Bytes)
      requires Valid()
      modifies this
      ensures Valid() && Pos() >= old(Pos()) && corruptions >= old(corruptions)
      ensures kind == EOF || Pos() > old(Pos())
      // of any file
      ensures Physical(crc, checksum, file, old(Pos()), Step(kind, fragment, Pos(), corruptions - old(corruptions)))
      // and of a prefix of a log
      ensures FramesFrom(old(Pos()), frames) ==>
                corruptions == old(corruptions) && ReadFrom(old(Pos()), frames, kind, fragment)
    {
      ghost var pos := Pos();
      var more := NextHeader();
      if !more {
        NothingLeft(frames, pos);
        return EOF, [];
      }
      kind, fragment := ReadShown(pos, frames);
    }

    /** Reads the fragment whose header the buffer shows. */
    method ReadShown(ghost pos: nat, ghost frames: seq<Frame>) returns (kind: nat, fragment: Bytes)
      requires Valid() && |buffer| >= HEADER && Pos() == pos + Padding(pos % BLOCK)
      modifies this`buffer, this`corruptions
      ensures Valid() && Pos() >= old(Pos()) && corruptions >= old(corruptions)
      ensures kind == EOF || Pos() > old(Pos())
      ensures Physical(crc, checksum, file, pos, Step(kind, fragment, Pos(), corruptions - old(corruptions)))
      ensures FramesFrom(pos, frames) ==> corruptions == old(corruptions) && ReadFrom(pos, frames, kind, fragment)
    {
      ghost var f := if frames != [] then frames[0] else Frame(0, 0, []);
      NextShown(pos, frames, f);
      ghost var whole, before, reports := HEADER + |f.data| <= |buffer|, buffer, corruptions;
      kind, fragment := ParseRecord(f);
      ParsedIsPhysical(crc, checksum, file, filePos, eof, pos, before, buffer, kind, fragment, corruptions - reports);
      Parsed(FramesFrom(pos, frames), pos, frames, f, whole, kind, fragment);
    }

    /** The frame the buffer shows, if the file is a prefix of `frames`. */
    lemma NextShown(pos: nat, frames: seq<Frame>, f: Frame)
      requires Valid() && (frames != [] ==> f == frames[0]) && |buffer| >= HEADER && Pos() == pos + Padding(pos % BLOCK)
      ensures FramesFrom(pos, frames) ==>
                && frames != [] && Shows(f) && f.pad == Padding(pos % BLOCK)
                && if HEADER + |f.data| <= |buffer| then
                     pos + Size(f) <= |file| && FramesFrom(pos + Size(f), frames[1..])
                   else pos + Size(f) > |file|
    {
      if FramesFrom(pos, frames) {
        BufferShows(pos, frames, f);
      }
    }

    lemma Parsed(shown: bool, pos: nat, frames: seq<Frame>, f: Frame, whole: bool, kind: nat, fragment: Bytes)
      requires Valid()
      requires shown ==>
                 && frames != [] && f == frames[0]
                 && if whole then
                      && pos + Size(f) <= |file| && FramesFrom(pos + Size(f), frames[1..])
                      && kind == f.kind && fragment == f.data && Pos() == pos + Size(f)
                    else pos + Size(f) > |file| && kind == EOF && Pos() == |file|
      ensures shown ==> ReadFrom(pos, frames, kind, fragment)
    {
    }

    /** Gets a whole header into the buffer, past the trailer of a block. */
    method NextHeader() returns (more: bool)
      requires Valid()
      modifies this`filePos, this`buffer, this`eof
      ensures Valid() && Pos() >= old(Pos())
      ensures more ==> |buffer| >= HEADER && Pos() == old(Pos()) + Padding(old(Pos()) % BLOCK)
      ensures !more ==> Pos() == |file| < old(Pos()) + Padding(old(Pos()) % BLOCK) + HEADER
    {
      ghost var pos := Pos();
      while |buffer| < HEADER
        invariant Valid() && pos <= Pos() && HeaderFrom(pos, Pos())
        decreases |file| - filePos, !eof
      {
        if !eof {
          // the last read was a full block, so this is a trailer to skip
          TrailerSkipped(pos, Pos(), filePos);
          buffer := [];
          FillBuffer();
        } else {
          buffer := [];
          return false;
        }
      }
      NoTrailer(pos, Pos(), filePos, eof);
      more := true;
    }

    lemma NothingLeft(frames: seq<Frame>, pos: nat)
      requires Valid() && Pos() == |file| < pos + Padding(pos % BLOCK) + HEADER
      ensures FramesFrom(pos, frames) ==> ReadFrom(pos, frames, EOF, [])
    {
    }

    /** Where a header is expected, the buffer shows the next frame: all of it, or the file ends
        within it. */
    lemma BufferShows(pos: nat, frames: seq<Frame>, f: Frame)
      requires Valid() && |buffer| >= HEADER && Pos() == pos + Padding(pos % BLOCK) && FramesFrom(pos, frames)
      requires frames != [] ==> f == frames[0]
      ensures frames != [] && Shows(f) && f.pad == Padding(pos % BLOCK)
      ensures if HEADER + |f.data| <= |buffer| then
                pos + Size(f) <= |file| && FramesFrom(pos + Size(f), frames[1..])
              else pos + Size(f) > |file|
    {
      assert |file[pos..]| > 0;
      NextFrame(crc, file, pos, filePos, f, FramesBytes(crc, frames[1..]));
      Advance(pos, 0, Size(f));
      FrameShows(pos, f);
    }

    /** A header in the file, and the data after it as far as they go, are what the buffer shows. */
    lemma FrameShows(pos: nat, f: Frame)
      requires Valid() && |buffer| >= HEADER && Pos() == pos + f.pad && |f.data| < 0x1_0000 && f.kind != 0
      requires file[Pos()..Pos() + HEADER] == Header(crc, f.kind, f.data)
      requires if pos + Size(f) <= |file| then
                 pos + Size(f) <= filePos && file[Pos() + HEADER..pos + Size(f)] == f.data
               else filePos == |file| && filePos % BLOCK != 0
      ensures Shows(f) && (HEADER + |f.data| <= |buffer| <==> pos + Size(f) <= |file|)
    {
      HeaderParts(crc, f.kind, f.data);
      ShownHeader(file, buffer, filePos, Header(crc, f.kind, f.data), f.data);
    }

    /** The buffer starts with frame `f`, or with what the file has of it. */
    ghost predicate Shows(f: Frame)
      requires |buffer| >= HEADER
      reads this
    {
      && Length(buffer) == |f.data| && buffer[6] == f.kind && buffer[6] != 0
      && if HEADER + |f.data| <= |buffer| then
           && buffer[HEADER..HEADER + |f.data|] == f.data
           && crc(buffer[6..HEADER + |f.data|]) == Unmask32(buffer[..4])
         else eof
    }

    method ParseRecord(ghost f: Frame) returns (kind: nat, fragment: Bytes)
      requires Valid() && |buffer| >= HEADER
      modifies this`buffer, this`corruptions
      ensures Valid() && Pos() >= old(Pos()) && corruptions >= old(corruptions)
      ensures kind == EOF || Pos() > old(Pos())
      ensures ParsedAs(crc, checksum, eof, old(buffer), buffer, kind, fragment, corruptions - old(corruptions))
      ensures old(Shows(f)) ==>
                && corruptions == old(corruptions)
                && if HEADER + |f.data| <= |old(buffer)| then
                     kind == f.kind && fragment == f.data && Pos() == old(Pos()) + HEADER + |f.data|
                   else kind == EOF && Pos() == |file|
    {
      var header := buffer;
      var length := Length(header);
      var typ := header[6];
      if HEADER + length > |buffer| {
        buffer := [];
        if !eof {
          corruptions := corruptions + 1;
          return BAD_RECORD, [];
        }
        return EOF, [];
      }
      if typ == 0 && length == 0 {
        buffer := [];
        return BAD_RECORD, [];
      }
      if checksum && crc(header[6..HEADER + length]) != Unmask32(header[..4]) {
        buffer := [];
        corruptions := corruptions + 1;
        return BAD_RECORD, [];
      }
      buffer := buffer[HEADER + length..];
      return typ, header[HEADER..HEADER + length];
    }

    // ------------------------------------------------------- logical records

    /** The frames from `pos` on, inside a record of which `data` is still to come. */
    ghost function Rest(pos: nat, begin: bool, data: Bytes, records: seq<Bytes>): seq<Frame> {
      var fs := Split(pos % BLOCK, data, begin);
      fs + AllFrames(EndOf(pos % BLOCK, fs), records)
    }

    ghost function RecordEnd(pos: nat, begin: bool, data: Bytes): nat {
      pos + |RecordBytes(crc, pos % BLOCK, data, begin)|
    }

    /** From `pos` on, the file is a prefix of a log of `records`. */
    ghost predicate Holds(pos: nat, records: seq<Bytes>) {
      FramesFrom(pos, AllFrames(pos % BLOCK, records))
    }

    /** The part of the current record still to come after one more frame. */
    lemma FrameRead(pos: nat, begin: bool, data: Bytes, records: seq<Bytes>, kind: nat, fragment: Bytes)
      requires Valid() && FramesFrom(pos, Rest(pos, begin, data, records))
      requires ReadFrom(pos, Rest(pos, begin, data, records), kind, fragment)
      ensures if kind == EOF then Pos() == |file| < RecordEnd(pos, begin, data)
              else
                && |fragment| <= |data| && fragment == data[..|fragment|]
                && kind == KindOf(begin, fragment == data)
                && if fragment == data then RecordEnd(pos, begin, data) == Pos() <= |file| && Holds(Pos(), records)
                   else
                     && RecordEnd(pos, begin, data) == RecordEnd(Pos(), false, data[|fragment|..])
                     && FramesFrom(Pos(), Rest(Pos(), false, data[|fragment|..], records))
    {
      var off := pos % BLOCK;
      var f := FirstFrame(off, data, begin);
      var left := data[|f.data|..];
      RestStep(pos, begin, data, records);
      RecordSize(pos, begin, data);
      if pos + Size(f) <= |file| {
        assert f.data == data ==> left == [];
        assert left == [] ==> f.data == data;
      }
    }

    lemma RestStep(pos: nat, begin: bool, data: Bytes, records: seq<Bytes>)
      ensures var f := FirstFrame(pos % BLOCK, data, begin);
              var left := data[|f.data|..];
              var next := pos + Size(f);
              && Rest(pos, begin, data, records) != [] && Rest(pos, begin, data, records)[0] == f
              && Rest(pos, begin, data, records)[1..]
                 == if left == [] then AllFrames(next % BLOCK, records) else Rest(next, false, left, records)
    {
      var off := pos % BLOCK;
      var f := FirstFrame(off, data, begin);
      var left := data[|f.data|..];
      var fs, next := Split(off, data, begin), pos + Size(f);
      Advance(pos, 0, Size(f));
      assert next % BLOCK == After(off, f);
      SplitStep(off, data, begin);
      TailOf(fs, AllFrames(EndOf(off, fs), records));
      RestTail(next, left, records, fs[1..]);
    }

    lemma SplitStep(off: nat, data: Bytes, begin: bool)
      requires off < BLOCK
      ensures var f := FirstFrame(off, data, begin);
              var left := data[|f.data|..];
              var fs := Split(off, data, begin);
              && fs != [] && fs[0] == f && fs[1..] == (if left == [] then [] else Split(After(off, f), left, false))
              && EndOf(off, fs) == EndOf(After(off, f), fs[1..])
    {
    }

    lemma TailOf(a: seq<Frame>, b: seq<Frame>)
      requires a != []
      ensures (a + b)[0] == a[0] && (a + b)[1..] == a[1..] + b
    {
    }

    lemma RestTail(pos: nat, left: Bytes, records: seq<Bytes>, fs: seq<Frame>)
      requires fs == if left == [] then [] else Split(pos % BLOCK, left, false)
      ensures fs + AllFrames(EndOf(pos % BLOCK, fs), records)
           == if left == [] then AllFrames(pos % BLOCK, records) else Rest(pos, false, left, records)
    {
      assert [] + AllFrames(pos % BLOCK, records) == AllFrames(pos % BLOCK, records);
    }

    lemma RecordSize(pos: nat, begin: bool, data: Bytes)
      ensures var f := FirstFrame(pos % BLOCK, data, begin);
              var left := data[|f.data|..];
              RecordEnd(pos, begin, data)
              == if left == [] then pos + Size(f) else RecordEnd(pos + Size(f), false, left)
      ensures RecordEnd(pos, begin, data) >= pos + Size(FirstFrame(pos % BLOCK, data, begin))
    {
      var off := pos % BLOCK;
      var f := FirstFrame(off, data, begin);
      var left := data[|f.data|..];
      Advance(pos, 0, Size(f));
      assert (pos + Size(f)) % BLOCK == After(off, f);
      if left == [] {
        assert RecordBytes(crc, off, data, begin) == FrameBytes(crc, f);
      } else {
        assert RecordBytes(crc, off, data, begin) == FrameBytes(crc, f) + RecordBytes(crc, After(off, f), left, false);
      }
    }

    /** At position `pos` inside the record that started at `begin`: what has been read of it
        and what is to come. */
    ghost predicate MidwayAt(begin: nat, records: seq<Bytes>, inside: bool, scratch: Bytes, data: Bytes, pos: nat) {
      if records == [] then !inside && pos == |file|
      else
        && FramesFrom(pos, Rest(pos, !inside, data, records[1..]))
        && (if inside then scratch + data else data) == records[0]
        && RecordEnd(pos, !inside, data) == RecordEnd(begin, true, records[0])
    }

    ghost predicate Midway(begin: nat, records: seq<Bytes>, inside: bool, scratch: Bytes, data: Bytes)
      requires Valid()
      reads this
    {
      MidwayAt(begin, records, inside, scratch, data, Pos())
    }

    /** What reading the next record, from `begin` on, gives. */
    ghost predicate RecordRead(begin: nat, records: seq<Bytes>, record: Option<Bytes>)
      requires Valid()
      reads this
    {
      if records != [] && RecordEnd(begin, true, records[0]) <= |file| then
        record == Some(records[0]) && Pos() == RecordEnd(begin, true, records[0]) && Holds(Pos(), records[1..])
      else record == None && Pos() == |file|
    }

    lemma MidwayStep(begin: nat, records: seq<Bytes>, inside: bool, scratch: Bytes, data: Bytes, pos: nat,
                     kind: nat, fragment: Bytes)
      requires Valid() && MidwayAt(begin, records, inside, scratch, data, pos)
      requires ReadFrom(pos, if records == [] then [] else Rest(pos, !inside, data, records[1..]), kind, fragment)
      ensures kind == EOF ==> RecordRead(begin, records, None)
      ensures kind != EOF ==>
                && |fragment| <= |data| && kind == KindOf(!inside, fragment == data)
                && if fragment == data then RecordRead(begin, records, Some(if inside then scratch + fragment else fragment))
                   else Midway(begin, records, true, if inside then scratch + fragment else fragment, data[|fragment|..])
    {
      if records != [] {
        FrameRead(pos, !inside, data, records[1..], kind, fragment);
        if kind != EOF && fragment != data {
          assert fragment + data[|fragment|..] == data;
          Regroup(scratch, fragment, data[|fragment|..]);
        }
      }
    }

    lemma MidwayStart(begin: nat, records: seq<Bytes>)
      requires Valid() && begin <= |file| && Holds(begin, records)
      ensures MidwayAt(begin, records, false, [], if records != [] then records[0] else [], begin)
    {
      assert records == [] ==> |file[begin..]| == 0;
    }

    /** The attempts made so far from `pos` on, none of which ended the reading. */
    ghost predicate Reading(pos: nat, steps: seq<Step>)
      requires Valid()
      reads this
    {
      && Attempts(crc, checksum, file, pos, steps) && NoneEnds(steps)
      && Pos() == if steps == [] then pos else steps[|steps| - 1].end
    }

    /** The next record that the file has, whatever is in it. */
    ghost predicate ReadsRecord(pos: nat, steps: seq<Step>, record: Option<Bytes>)
      requires Valid()
      reads this
    {
      && steps != [] && Attempts(crc, checksum, file, pos, steps) && NoneEnds(steps[..|steps| - 1])
      && Pos() == steps[|steps| - 1].end
      && if record.Some? then Completes(steps, record.value) else AtEnd(steps) && forall r :: !Completes(steps, r)
    }

    lemma OneMoreStep(pos: nat, pos0: nat, steps: seq<Step>, x: Step, scratch0: Bytes, inside0: bool,
                      record: Option<Bytes>, scratch: Bytes, inside: bool)
      requires Valid() && Attempts(crc, checksum, file, pos, steps) && NoneEnds(steps)
      requires pos0 == (if steps == [] then pos else steps[|steps| - 1].end)
      requires Physical(crc, checksum, file, pos0, x) && Pos() == x.end
      requires Collected(steps, inside0, scratch0) && Assembled(x, scratch0, inside0, record, scratch, inside)
      ensures var more := steps + [x];
              && Reports(more) == Reports(steps) + x.reports
              && if record.None? && x.kind != EOF then Reading(pos, more) && Collected(more, inside, scratch)
                 else ReadsRecord(pos, more, record)
    {
      var more := steps + [x];
      assert more[..|steps|] == steps && more[|steps|] == x;
      AssembledIs(steps, x, scratch0, inside0, record, scratch, inside);
      AttemptsMore(crc, checksum, file, pos, steps, x);
      if record.None? && x.kind != EOF {
        NoneEndsMore(steps, x);
      }
    }

    /** The next whole record, if there is one. A log cut anywhere gives the records that end
        before the cut, and reports nothing. */
    method ReadRecord(ghost records: seq<Bytes>) returns (record: Option<Bytes>, ghost steps: seq<Step>)
      requires Valid()
      modifies this
      ensures Valid() && Pos() >= old(Pos()) && (record.Some? ==> Pos() > old(Pos()))
      // of any file
      ensures ReadsRecord(old(Pos()), steps, record) && corruptions >= old(corruptions) + Reports(steps)
      // and of a prefix of a log
      ensures Holds(old(Pos()), records) ==>
                corruptions == old(corruptions) && RecordRead(old(Pos()), records, record)
    {
      var scratch: Bytes := [];
      var inFragmentedRecord := false;
      ghost var ok := Holds(Pos(), records);
      ghost var data := if records != [] then records[0] else [];
      if ok {
        MidwayStart(Pos(), records);
      }
      var more := true;
      record, steps := None, [];
      while more
        invariant Valid() && Pos() >= old(Pos()) && (record.Some? ==> Pos() > old(Pos()))
        invariant corruptions >= old(corruptions) + Reports(steps)
        invariant if more then Reading(old(Pos()), steps) && Collected(steps, inFragmentedRecord, scratch)
                  else ReadsRecord(old(Pos()), steps, record)
        invariant ok ==> corruptions == old(corruptions)
        invariant ok && more ==> Midway(old(Pos()), records, inFragmentedRecord, scratch, data)
        invariant ok && !more ==> RecordRead(old(Pos()), records, record)
        decreases more, |file| - Pos()
      {
        record, scratch, inFragmentedRecord, more, data, steps :=
          ReadFragment(old(Pos()), records, ok, data, scratch, inFragmentedRecord, steps);
      }
    }

    /** One round of the loop: one fragment more, which may complete a record. */
    method ReadFragment(ghost begin: nat, ghost records: seq<Bytes>, ghost ok: bool, ghost data0: Bytes,
                        scratch0: Bytes, inside0: bool, ghost steps0: seq<Step>)
      returns (record: Option<Bytes>, scratch: Bytes, inside: bool, more: bool, ghost data: Bytes, ghost steps: seq<Step>)
      requires Valid() && (ok ==> Midway(begin, records, inside0, scratch0, data0))
      requires Reading(begin, steps0) && Collected(steps0, inside0, scratch0)
      modifies this
      ensures Valid() && Pos() >= old(Pos()) && (more || record.Some? ==> Pos() > old(Pos())) && (more ==> record == None)
      ensures corruptions >= old(corruptions) && corruptions - old(corruptions) >= Reports(steps) - Reports(steps0)
      ensures if more then Reading(begin, steps) && Collected(steps, inside, scratch) else ReadsRecord(begin, steps, record)
      ensures ok ==> corruptions == old(corruptions)
      ensures ok ==> if more then Midway(begin, records, inside, scratch, data) else RecordRead(begin, records, record)
    {
      ghost var pos, reports := Pos(), corruptions;
      ghost var frames := if records == [] then [] else Rest(pos, !inside0, data0, records[1..]);
      var kind, fragment := ReadPhysicalRecord(frames);
      ghost var x := Step(kind, fragment, Pos(), corruptions - reports);
      data := data0;
      if ok {
        MidwayStep(begin, records, inside0, scratch0, data0, pos, kind, fragment);
        if kind != EOF {
          data := data0[|fragment|..];
        }
      }
      record, scratch, inside, more, steps := TakeFragment(kind, fragment, scratch0, inside0, begin, pos, steps0, x);
    }

    method TakeFragment(kind: nat, fragment: Bytes, scratch0: Bytes, inside0: bool, ghost begin: nat, ghost pos: nat,
                        ghost steps0: seq<Step>, ghost x: Step)
      returns (record: Option<Bytes>, scratch: Bytes, inside: bool, more: bool, ghost steps: seq<Step>)
      requires Valid() && x.kind == kind && x.fragment == fragment && x.end == Pos()
      requires Attempts(crc, checksum, file, begin, steps0) && NoneEnds(steps0)
      requires pos == (if steps0 == [] then begin else steps0[|steps0| - 1].end)
      requires Physical(crc, checksum, file, pos, x) && Collected(steps0, inside0, scratch0)
      modifies this`corruptions
      ensures Valid() && Assembled(x, scratch0, inside0, record, scratch, inside) && more == (record.None? && kind != EOF)
      ensures corruptions == old(corruptions) + ReportsOf(x, scratch0, inside0) && Reports(steps) == Reports(steps0) + x.reports
      ensures if more then Reading(begin, steps) && Collected(steps, inside, scratch) else ReadsRecord(begin, steps, record)
    {
      record, scratch, inside := Assemble(kind, fragment, scratch0, inside0, x);
      more := record.None? && kind != EOF;
      steps := steps0 + [x];
      OneMoreStep(begin, pos, steps0, x, scratch0, inside0, record, scratch, inside);
    }

    /** What the reader makes of one more fragment: a record that ends with it, or else what it has
        collected so far. */
    method Assemble(kind: nat, fragment: Bytes, scratch0: Bytes, inside0: bool, ghost x: Step)
      returns (record: Option<Bytes>, scratch: Bytes, inside: bool)
      requires x.kind == kind && x.fragment == fragment
      modifies this`corruptions
      ensures Assembled(x, scratch0, inside0, record, scratch, inside)
      ensures corruptions == old(corruptions) + ReportsOf(x, scratch0, inside0)
      ensures var collected := if inside0 then scratch0 + fragment else fragment;
              && (kind == KindOf(!inside0, true) ==> record == Some(collected) && corruptions == old(corruptions))
              && (kind == KindOf(!inside0, false) ==>
                    record == None && inside && scratch == collected && corruptions == old(corruptions))
              && (kind == EOF ==> record == None && corruptions == old(corruptions))
    {
      var reported := 0;
      record, scratch, inside := None, scratch0, inside0;
      if kind == FULL as nat {
        if inside && scratch != [] {
          reported := 1;
        }
        record := Some(fragment);
      } else if kind == FIRST as nat {
        if inside && scratch != [] {
          reported := 1;
        }
        scratch, inside := fragment, true;
      } else if kind == MIDDLE as nat {
        if !inside {
          reported := 1;
        } else {
          scratch := scratch + fragment;
        }
      } else if kind == LAST as nat {
        if !inside {
          reported := 1;
        } else {
          record := Some(scratch + fragment);
        }
      } else if kind == EOF {
      } else if kind == BAD_RECORD {
        if inside {
          scratch, inside, reported := [], false, 1;
        }
      } else {
        scratch, inside, reported := [], false, 1;
      }
      corruptions := corruptions + reported;
    }
  }

  /** `k` is the number of records that lie wholly within the first `n` bytes of a log. */
  ghost predicate WholeRecords(crc: Checksum, records: seq<Bytes>, n: nat, k: nat) {
    && k <= |records| && |LogBytes(crc, 0, records[..k])| <= n
    && (k < |records| ==> |LogBytes(crc, 0, records[..k + 1])| > n)
  }

  lemma LongerLog(crc: Checksum, records: seq<Bytes>, k: nat)
    requires k <= |records|
    ensures |LogBytes(crc, 0, records[..k])| <= |LogBytes(crc, 0, records)|
  {
    assert records == records[..k] + records[k..];
    LogAppend(crc, 0, records[..k], records[k..]);
  }

  /** The record after the first `k`, if whole, ends where the first `k + 1` end. */
  lemma NextRecordEnd(crc: Checksum, records: seq<Bytes>, k: nat)
    requires k < |records|
    ensures var n := |LogBytes(crc, 0, records[..k])|;
            |LogBytes(crc, 0, records[..k + 1])| == n + |RecordBytes(crc, n % BLOCK, records[k], true)|
  {
    LogAppend(crc, 0, records[..k], [records[k]]);
    LogOfOne(crc, |LogBytes(crc, 0, records[..k])| % BLOCK, records[k]);
    assert records[..k + 1] == records[..k] + [records[k]];
  }

  /** A reader in front of record `k`. */
  ghost predicate InFrontOf(reader: Reader, records: seq<Bytes>, k: nat)
    reads reader
  {
    && reader.Valid() && k <= |records| && reader.corruptions == 0
    && reader.Pos() == |LogBytes(reader.crc, 0, records[..k])| && reader.Holds(reader.Pos(), records[k..])
  }

  lemma StartsBefore(reader: Reader, records: seq<Bytes>)
    requires reader.Valid() && reader.Pos() == 0 && reader.corruptions == 0
    requires reader.file <= LogBytes(reader.crc, 0, records)
    ensures InFrontOf(reader, records, 0)
  {
    assert reader.Holds(0, records) by {
      AllArePlaced(0, records);
      DropNone(reader.file);
    }
    assert records[0..] == records && LogBytes(reader.crc, 0, records[..0]) == [] by {
      DropNone(records);
      EmptyLog(reader.crc, 0);
    }
  }

  lemma DropNone<T>(s: seq<T>)
    ensures s[0..] == s && s[..0] == []
  {
  }

  lemma EmptyLog(crc: Checksum, off: nat)
    requires off < BLOCK
    ensures LogBytes(crc, off, []) == []
  {
  }

  /** Reading one record in front of record `k`: it is record `k`, or the file ends within it. */
  method ReadNext(reader: Reader, ghost records: seq<Bytes>, ghost k: nat) returns (record: Option<Bytes>)
    requires reader.Valid()
    modifies reader
    ensures reader.Valid() && reader.Pos() >= old(reader.Pos()) && (record.Some? ==> reader.Pos() > old(reader.Pos()))
    ensures old(InFrontOf(reader, records, k)) ==>
              match record
              case Some(r) => k < |records| && r == records[k] && InFrontOf(reader, records, k + 1)
              case None => reader.corruptions == 0 && WholeRecords(reader.crc, records, |reader.file|, k)
  {
    ghost var rest := if k <= |records| then records[k..] else [];
    ghost var pos := reader.Pos();
    if k < |records| {
      NextRecordEnd(reader.crc, records, k);
      assert rest[1..] == records[k + 1..];
    }
    ghost var steps;
    record, steps := reader.ReadRecord(rest);
  }

  /** Reads a log, cut at any byte, from front to back: exactly the records that lie wholly before
      the cut, in order, and no corruption. */
  method ReadLog(crc: Checksum, checksum: bool, file: Bytes, ghost records: seq<Bytes>)
    returns (got: seq<Bytes>, corruptions: nat)
    requires file <= LogBytes(crc, 0, records)
    ensures WholeRecords(crc, records, |file|, |got|) && got == records[..|got|] && corruptions == 0
  {
    var reader := new Reader(crc, file, checksum);
    StartsBefore(reader, records);
    got := [];
    var more := true;
    while more
      invariant |got| <= |records| && got == records[..|got|]
      invariant reader.Valid() && reader.crc == crc && reader.file == file && reader.corruptions == 0
      invariant if more then InFrontOf(reader, records, |got|) else WholeRecords(crc, records, |file|, |got|)
      decreases more, |file| - reader.Pos()
    {
      var record := ReadNext(reader, records, |got|);
      if record.Some? {
        got := got + [record.value];
      } else {
        more := false;
      }
    }
    corruptions := reader.corruptions;
  }
}
