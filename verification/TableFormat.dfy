/** Table files (table/format.cc): block handles, the footer, and stored blocks. */
module TableFormat {
  import opened Keys
  import opened Coding
  import opened LogFormat
  import opened Sequences

  const MAGIC_LOW: nat := 0x8b80fb57
  const MAGIC_HIGH: nat := 0xdb477524
  const MAX_HANDLE: nat := 20
  const FOOTER: nat := 48
  const TRAILER: nat := 5

  /** Where a stored block begins, and its size without the trailer. */
  datatype Handle = Handle(offset: nat, size: nat)

  predicate IsHandle(h: Handle) {
    h.offset < TWO_64 && h.size < TWO_64
  }

  function HandleBytes(h: Handle): Bytes {
    Varint(h.offset) + Varint(h.size)
  }

  function ParseHandle(input: Bytes): Option<(Handle, Bytes)> {
    match ParseVarint(input, 10)
    case None => None
    case Some((offset, r1)) =>
      (match ParseVarint(r1, 10)
       case None => None
       case Some((size, r2)) => Some((Handle(offset % TWO_64, size % TWO_64), r2)))
  }

  lemma HandleRoundTrip(h: Handle, rest: Bytes)
    requires IsHandle(h)
    ensures ParseHandle(HandleBytes(h) + rest) == Some((h, rest)) && |HandleBytes(h)| <= MAX_HANDLE
  {
    Powers();
    Regroup(Varint(h.offset), Varint(h.size), rest);
    VarintRoundTrip(h.offset, Varint(h.size) + rest, 10);
    VarintRoundTrip(h.size, rest, 10);
  }

  method DecodeHandle(input: Bytes) returns (r: Option<Handle>, rest: Bytes)
    ensures match ParseHandle(input) case None => r == None case Some((h, after)) => r == Some(h) && rest == after
  {
    var offset, after := GetVarint64(input);
    if offset.None? {
      return None, input;
    }
    var size;
    size, rest := GetVarint64(after);
    r := if size.Some? then Some(Handle(offset.value, size.value)) else None;
  }

  // --------------------------------------------------------------------- footer

  function FooterBytes(meta: Handle, index: Handle): Bytes {
    var handles := HandleBytes(meta) + HandleBytes(index);
    handles + Zeros(if |handles| < 2 * MAX_HANDLE then 2 * MAX_HANDLE - |handles| else 0)
    + Fixed(MAGIC_LOW, 4) + Fixed(MAGIC_HIGH, 4)
  }

  /** Reads the footer at the end of a file: where the two top blocks are. It fails exactly when the
      file does not end in a footer. */
  method ReadFooter(file: Bytes) returns (r: Option<(Handle, Handle)>)
    ensures r.Some? ==> |file| >= FOOTER && FooterIs(file[|file| - FOOTER..], r.value.0, r.value.1)
    ensures r.None? ==> |file| < FOOTER || NoFooter(file[|file| - FOOTER..])
    ensures forall meta, index | IsHandle(meta) && IsHandle(index) && EndsWith(file, FooterBytes(meta, index)) ::
              r == Some((meta, index))
  {
    forall meta, index | IsHandle(meta) && IsHandle(index) && EndsWith(file, FooterBytes(meta, index))
      ensures |file| >= FOOTER && FooterIs(file[|file| - FOOTER..], meta, index)
    {
      FooterRoundTrip(meta, index);
    }
    if |file| < FOOTER {
      return None;
    }
    var input := file[|file| - FOOTER..];
    if FromFixed(input[40..44]) != MAGIC_LOW || FromFixed(input[44..48]) != MAGIC_HIGH {
      return None;
    }
    var meta, rest := DecodeHandle(input);
    if meta.None? {
      return None;
    }
    var index, after := DecodeHandle(rest);
    r := if index.Some? then Some((meta.value, index.value)) else None;
  }

  ghost predicate EndsWith(s: Bytes, tail: Bytes) {
    |tail| <= |s| && s[|s| - |tail|..] == tail
  }

  ghost predicate FooterIs(input: Bytes, meta: Handle, index: Handle) {
    && |input| == FOOTER && FromFixed(input[40..44]) == MAGIC_LOW && FromFixed(input[44..48]) == MAGIC_HIGH
    && ParseHandle(input).Some? && ParseHandle(input).value.0 == meta
    && ParseHandle(ParseHandle(input).value.1).Some? && ParseHandle(ParseHandle(input).value.1).value.0 == index
  }

  ghost predicate NoFooter(input: Bytes) {
    forall meta, index :: !FooterIs(input, meta, index)
  }

  lemma FooterRoundTrip(meta: Handle, index: Handle)
    requires IsHandle(meta) && IsHandle(index)
    ensures |FooterBytes(meta, index)| == FOOTER && FooterIs(FooterBytes(meta, index), meta, index)
  {
    var handles := HandleBytes(meta) + HandleBytes(index);
    HandleRoundTrip(index, []);
    HandleRoundTrip(meta, HandleBytes(index));
    var pad := Zeros(2 * MAX_HANDLE - |handles|);
    FooterParts(HandleBytes(meta), HandleBytes(index), pad, Fixed(MAGIC_LOW, 4), Fixed(MAGIC_HIGH, 4));
    var rest := pad + Fixed(MAGIC_LOW, 4) + Fixed(MAGIC_HIGH, 4);
    HandleRoundTrip(index, rest);
    HandleRoundTrip(meta, HandleBytes(index) + rest);
    Fixed32(MAGIC_LOW);
    Fixed32(MAGIC_HIGH);
  }

  lemma FooterParts(a: Bytes, b: Bytes, pad: Bytes, low: Bytes, high: Bytes)
    requires |a| + |b| + |pad| == 40 && |low| == |high| == 4
    ensures var s := a + b + pad + low + high;
            s == a + (b + (pad + low + high)) && s[40..44] == low && s[44..48] == high
  {
  }

  // -------------------------------------------------------------- stored blocks

  /** Kind of compression (none), and the masked checksum of block and kind. */
  function Trailer(crc: Checksum, contents: Bytes): (t: Bytes)
    ensures |t| == TRAILER
  {
    [0] + Fixed(Mask(crc(contents + [0])), 4)
  }

  ghost predicate Holds(crc: Checksum, file: Bytes, h: Handle, contents: Bytes) {
    && h.size == |contents| && h.offset + h.size + TRAILER <= |file|
    && file[h.offset..h.offset + h.size + TRAILER] == contents + Trailer(crc, contents)
  }

  lemma HoldsMore(crc: Checksum, file: Bytes, more: Bytes, h: Handle, contents: Bytes)
    requires Holds(crc, file, h, contents)
    ensures Holds(crc, file + more, h, contents)
  {
  }

  lemma HoldsLater(crc: Checksum, file: Bytes, file1: Bytes, h: Handle, contents: Bytes)
    requires Holds(crc, file, h, contents) && file <= file1
    ensures Holds(crc, file1, h, contents)
  {
    assert file1 == file + file1[|file|..];
    HoldsMore(crc, file, file1[|file|..], h, contents);
  }

  lemma HoldsNew(crc: Checksum, file: Bytes, contents: Bytes)
    ensures Holds(crc, file + contents + Trailer(crc, contents), Handle(|file|, |contents|), contents)
  {
  }

  /** What is stored where a handle points is all there, and its checksum agrees if asked for. */
  ghost predicate Readable(crc: Checksum, file: Bytes, verify: bool, h: Handle) {
    && h.offset + h.size + TRAILER <= |file|
    && (verify ==>
          var kind := h.offset + h.size;
          crc(file[h.offset..kind + 1]) == Unmask(FromFixed(file[kind + 1..kind + 5]) % TWO_32))
  }

  /** Reads a stored block; compressed blocks cannot be read without the compression library. */
  method ReadBlock(crc: Checksum, file: Bytes, verify: bool, h: Handle) returns (r: Option<Bytes>)
    ensures r == if Readable(crc, file, verify, h) && file[h.offset + h.size] == 0
                 then Some(file[h.offset..h.offset + h.size]) else None
    ensures forall contents | Holds(crc, file, h, contents) :: r == Some(contents)
  {
    var n := h.size;
    var contents := Read(file, h.offset, n + TRAILER);
    if |contents| != n + TRAILER {
      return None;
    }
    SameBytes(file, h.offset, n);
    if verify {
      var stored := FromFixed(contents[n + 1..n + 5]) % TWO_32;
      if crc(contents[..n + 1]) != Unmask(stored) {
        HeldIsReadable(crc, file, verify, h);
        return None;
      }
    }
    HeldIsReadable(crc, file, verify, h);
    if contents[n] == 0 {
      return Some(contents[..n]);
    }
    return None;
  }

  lemma SameBytes(file: Bytes, offset: nat, n: nat)
    requires offset + n + TRAILER <= |file|
    ensures var contents := file[offset..offset + n + TRAILER];
            && contents[..n] == file[offset..offset + n] && contents[n] == file[offset + n]
            && contents[..n + 1] == file[offset..offset + n + 1]
            && contents[n + 1..n + 5] == file[offset + n + 1..offset + n + 5]
  {
  }

  /** A block that was stored can be read, whether or not its checksum is asked for. */
  lemma HeldIsReadable(crc: Checksum, file: Bytes, verify: bool, h: Handle)
    requires h.offset + h.size + TRAILER <= |file|
    ensures forall contents | Holds(crc, file, h, contents) :: ReadsAs(crc, file, verify, h, contents)
  {
    forall contents | Holds(crc, file, h, contents)
      ensures ReadsAs(crc, file, verify, h, contents)
    {
      HeldReads(crc, file, verify, h, contents);
    }
  }

  ghost predicate ReadsAs(crc: Checksum, file: Bytes, verify: bool, h: Handle, contents: Bytes) {
    Readable(crc, file, verify, h) && file[h.offset + h.size] == 0 && file[h.offset..h.offset + h.size] == contents
  }

  lemma HeldReads(crc: Checksum, file: Bytes, verify: bool, h: Handle, contents: Bytes)
    requires Holds(crc, file, h, contents)
    ensures ReadsAs(crc, file, verify, h, contents)
  {
    SameBytes(file, h.offset, h.size);
    TrailerChecks(crc, contents);
    TrailerOf(crc, contents, file[h.offset..h.offset + h.size + TRAILER]);
  }

  lemma TrailerOf(crc: Checksum, data: Bytes, s: Bytes)
    requires s == data + Trailer(crc, data)
    ensures s[|data|] == 0 && s[..|data|] == data
  {
  }

  /** What a file read returns: less than asked for only at the end of the file. */
  function Read(file: Bytes, offset: nat, n: nat): Bytes {
    if offset > |file| then [] else if offset + n > |file| then file[offset..] else file[offset..offset + n]
  }

  lemma TrailerChecks(crc: Checksum, data: Bytes)
    ensures var s, n := data + Trailer(crc, data), |data|;
            FromFixed(s[n + 1..n + 5]) < TWO_32 && Unmask(FromFixed(s[n + 1..n + 5])) == crc(s[..n + 1])
  {
    var s, n := data + Trailer(crc, data), |data|;
    assert s[..n + 1] == data + [0];
    assert s[n + 1..n + 5] == Fixed(Mask(crc(data + [0])), 4);
    Fixed32(Mask(crc(data + [0])));
    UnmaskInvertsMask(crc(data + [0]));
  }
}
