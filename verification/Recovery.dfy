/** Crash recovery from a write log (RecoverLogFile in db/db_impl.cc): a log cut at any byte
    recovers to a prefix of the logged batches. */
module Recovery {
  import opened Keys
  import opened Coding
  import opened LogFormat
  import LogWriter
  import opened LogReader
  import Batches
  import opened Sequences

  datatype Batch = Batch(seqno: nat, ops: seq<Batches.Op>)

  /** One entry added to a memtable. */
  datatype Add = Add(seqno: nat, op: Batches.Op)

  predicate Encodable(b: Batch) {
    b.seqno < TWO_64 && |b.ops| < 0x8000_0000 && Batches.AllFit(b.ops)
  }

  predicate AllEncodable(batches: seq<Batch>) {
    forall b | b in batches :: Encodable(b)
  }

  function Records(batches: seq<Batch>): (r: seq<Bytes>)
    ensures |r| == |batches|
  {
    seq(|batches|, i requires 0 <= i < |batches| => Batches.Encoded(batches[i].seqno, batches[i].ops))
  }

  /** What inserting a batch adds: its operations under consecutive sequence numbers. */
  function AddsOf(b: Batch): (r: seq<Add>)
    ensures |r| == |b.ops|
  {
    seq(|b.ops|, i requires 0 <= i < |b.ops| => Add(b.seqno + i, b.ops[i]))
  }

  function AllAdds(batches: seq<Batch>): seq<Add> {
    if batches == [] then [] else AllAdds(batches[..|batches| - 1]) + AddsOf(batches[|batches| - 1])
  }

  /** Sequence number of the last operation of a batch, in 64 bits. */
  function LastSeq(b: Batch): nat {
    (b.seqno + |b.ops| - 1) % TWO_64
  }

  function MaxSeq(batches: seq<Batch>, start: nat): nat {
    if batches == [] then start
    else
      var m := MaxSeq(batches[..|batches| - 1], start);
      var last := LastSeq(batches[|batches| - 1]);
      if last > m then last else m
  }

  /** What recovery leaves: memtables written out as tables, and the one still in memory. */
  datatype Recovered = Recovered(tables: seq<seq<Add>>, mem: seq<Add>, maxSequence: nat, ok: bool)

  /** The handler: each operation goes in under the next number. */
  method NumberOps(sequence: nat, ops: seq<Batches.Op>) returns (adds: seq<Add>)
    ensures adds == AddsOf(Batch(sequence, ops))
  {
    adds := [];
    for i := 0 to |ops|
      invariant |adds| == i && forall j | 0 <= j < i :: adds[j] == Add(sequence + j, ops[j])
    {
      adds := adds + [Add(sequence + i, ops[i])];
    }
  }

  method InsertInto(record: Bytes, ghost b: Batch) returns (adds: seq<Add>, status: Batches.Status, lastSeq: nat)
    requires |record| >= Batches.HEADER
    ensures Encodable(b) && record == Batches.Encoded(b.seqno, b.ops) ==>
              status == Batches.Ok && adds == AddsOf(b) && lastSeq == LastSeq(b)
  {
    var batch := new Batches.WriteBatch();
    batch.rep := record;
    var handled;
    status, handled := batch.Replay(b.seqno, b.ops);
    var sequence, count := batch.Sequence(), batch.Count();
    if batch.Holds(b.seqno, b.ops) {
      assert sequence == b.seqno && count == |b.ops| by {
        batch.Parts(b.seqno, b.ops);
      }
    }
    adds := NumberOps(sequence, handled);
    lastSeq := (sequence + count - 1) % TWO_64;
  }

  /** What is recovered after `k` whole batches. */
  ghost predicate RecoveredTo(batches: seq<Batch>, k: nat, start: nat, r: Recovered) {
    && k <= |batches| && r.ok && r.maxSequence == MaxSeq(batches[..k], start)
    && Flat(r.tables) + r.mem == AllAdds(batches[..k])
  }

  /** What is recovered from the first `n` bytes of a log of `batches`: those that end there. */
  ghost predicate RecoversPrefix(crc: Checksum, batches: seq<Batch>, n: nat, start: nat, r: Recovered) {
    exists k: nat :: WholeRecords(crc, Records(batches), n, k) && RecoveredTo(batches, k, start, r)
  }

  /** A memtable is written out with the batch that makes it full, and only then. */
  ghost predicate WrittenWhenFull(full: seq<Add> -> bool, batches: seq<Batch>, r: Recovered) {
    && (forall i | 0 <= i < |r.tables| :: JustFull(full, batches, r.tables[i]))
    && (r.mem == [] || !full(r.mem))
  }

  ghost predicate JustFull(full: seq<Add> -> bool, batches: seq<Batch>, table: seq<Add>) {
    full(table) && exists mem, b :: FilledBy(full, batches, mem, b, table)
  }

  ghost predicate FilledBy(full: seq<Add> -> bool, batches: seq<Batch>, mem: seq<Add>, b: Batch, table: seq<Add>) {
    b in batches && table == mem + AddsOf(b) && (mem == [] || !full(mem))
  }

  lemma WrittenOne(full: seq<Add> -> bool, batches: seq<Batch>, r: Recovered, b: Batch, r1: Recovered)
    requires WrittenWhenFull(full, batches, r) && b in batches
    requires var mem := r.mem + AddsOf(b);
             if full(mem) then r1.tables == r.tables + [mem] && r1.mem == [] else r1.tables == r.tables && r1.mem == mem
    ensures WrittenWhenFull(full, batches, r1)
  {
    var mem := r.mem + AddsOf(b);
    if full(mem) {
      assert FilledBy(full, batches, r.mem, b, mem);
      assert forall i | 0 <= i < |r.tables| :: r1.tables[i] == r.tables[i];
    }
  }

  lemma OneMore(batches: seq<Batch>, k: nat, start: nat)
    requires k < |batches|
    ensures AllAdds(batches[..k + 1]) == AllAdds(batches[..k]) + AddsOf(batches[k])
    ensures MaxSeq(batches[..k + 1], start)
         == if LastSeq(batches[k]) > MaxSeq(batches[..k], start) then LastSeq(batches[k]) else MaxSeq(batches[..k], start)
  {
    assert batches[..k + 1][..k] == batches[..k];
  }

  lemma RecoverOne(batches: seq<Batch>, k: nat, start: nat, r: Recovered, r1: Recovered)
    requires RecoveredTo(batches, k, start, r) && k < |batches|
    requires var mem := r.mem + AddsOf(batches[k]);
             (r1.tables == r.tables && r1.mem == mem) || (r1.tables == r.tables + [mem] && r1.mem == [])
    requires r1.ok && r1.maxSequence == if LastSeq(batches[k]) > r.maxSequence then LastSeq(batches[k]) else r.maxSequence
    ensures RecoveredTo(batches, k + 1, start, r1)
  {
    OneMore(batches, k, start);
    Regroup(Flat(r.tables), r.mem, AddsOf(batches[k]));
    FlatMore(r.tables, r.mem + AddsOf(batches[k]));
  }

  /** The record is the encoded batch `k`, after the first `k` have been recovered. */
  ghost predicate IsNext(batches: seq<Batch>, k: nat, start: nat, r: Recovered, record: Bytes) {
    && k < |batches| && Encodable(batches[k]) && record == Batches.Encoded(batches[k].seqno, batches[k].ops)
    && RecoveredTo(batches, k, start, r)
  }

  /** Replays one record: its batch goes into the memtable, which may then be written out. */
  method RecoverRecord(record: Bytes, r: Recovered, paranoid: bool, full: seq<Add> -> bool,
                       ghost batches: seq<Batch>, ghost k: nat, ghost start: nat) returns (r1: Recovered)
    ensures IsNext(batches, k, start, r, record) ==> RecoveredTo(batches, k + 1, start, r1)
    ensures IsNext(batches, k, start, r, record) && WrittenWhenFull(full, batches, r) ==> WrittenWhenFull(full, batches, r1)
  {
    if |record| < Batches.HEADER {
      r1 := r.(ok := r.ok && !paranoid);
      return;
    }
    ghost var b := if k < |batches| then batches[k] else Batch(0, []);
    var adds, status, lastSeq := InsertInto(record, b);
    r1 := r.(mem := r.mem + adds);
    if status != Batches.Ok && paranoid {
      r1 := r1.(ok := false);
      return;
    }
    if lastSeq > r1.maxSequence {
      r1 := r1.(maxSequence := lastSeq);
    }
    if full(r1.mem) {
      r1 := r1.(tables := r1.tables + [r1.mem], mem := []);
    }
    if IsNext(batches, k, start, r, record) {
      RecoverOne(batches, k, start, r, r1);
      if WrittenWhenFull(full, batches, r) {
        WrittenOne(full, batches, r, b, r1);
      }
    }
  }

  ghost predicate IsLogPrefix(crc: Checksum, file: Bytes, batches: seq<Batch>) {
    AllEncodable(batches) && file <= LogBytes(crc, 0, Records(batches))
  }

  /** The reader stands in front of record `k`, and the first `k` batches have been recovered. */
  ghost predicate Replaying(reader: Reader, batches: seq<Batch>, k: nat, start: nat, r: Recovered)
    reads reader
  {
    InFrontOf(reader, Records(batches), k) && RecoveredTo(batches, k, start, r)
  }

  lemma StartsReplaying(reader: Reader, batches: seq<Batch>, start: nat)
    requires reader.Valid() && reader.Pos() == 0 && reader.corruptions == 0 && IsLogPrefix(reader.crc, reader.file, batches)
    ensures Replaying(reader, batches, 0, start, Recovered([], [], start, true))
  {
    StartsBefore(reader, Records(batches));
    assert batches[..0] == [];
  }

  /** Replays a log; `full` says when a memtable is written out. */
  method RecoverLogFile(crc: Checksum, file: Bytes, paranoid: bool, maxSequence0: nat, full: seq<Add> -> bool,
                        ghost batches: seq<Batch>)
    returns (r: Recovered)
    ensures IsLogPrefix(crc, file, batches) ==> RecoversPrefix(crc, batches, |file|, maxSequence0, r)
    ensures IsLogPrefix(crc, file, batches) ==> WrittenWhenFull(full, batches, r)
  {
    var reader := new Reader(crc, file, true);
    ghost var k: nat := 0;
    r := Recovered([], [], maxSequence0, true);
    if IsLogPrefix(crc, file, batches) {
      StartsReplaying(reader, batches, maxSequence0);
    }
    while true
      invariant reader.Valid() && fresh(reader)
      invariant IsLogPrefix(crc, file, batches) ==> Replaying(reader, batches, k, maxSequence0, r)
      invariant IsLogPrefix(crc, file, batches) ==> WrittenWhenFull(full, batches, r)
      decreases |file| - reader.Pos()
    {
      var record := ReadNext(reader, Records(batches), k);
      if paranoid && reader.corruptions > 0 {
        r := r.(ok := false);
      }
      if record.None? || !r.ok {
        return;
      }
      if IsLogPrefix(crc, file, batches) {
        assert IsNext(batches, k, maxSequence0, r, record.value);
      }
      r := RecoverRecord(record.value, r, paranoid, full, batches, k, maxSequence0);
      k := k + 1;
    }
  }

  // ------------------------------------------------------- what the prefix means

  /** Batches as the write path numbers them: each starts where the one before it ended. */
  ghost predicate Consecutive(batches: seq<Batch>, first: nat) {
    0 < first && forall i | 0 <= i < |batches| :: batches[i].seqno == first + |AllAdds(batches[..i])|
  }

  /** Recovered entries carry the numbers they were logged with, one after the other, and the
      largest number is that of the last entry, or the starting value if that is larger. */
  lemma {:induction false} RecoveredNumbers(batches: seq<Batch>, first: nat, start: nat)
    requires Consecutive(batches, first) && first + |AllAdds(batches)| <= TWO_64
    ensures forall i | 0 <= i < |AllAdds(batches)| :: AllAdds(batches)[i].seqno == first + i
    ensures batches != [] || start >= first - 1 ==>
              MaxSeq(batches, start) == if first + |AllAdds(batches)| - 1 > start then first + |AllAdds(batches)| - 1 else start
  {
    if batches != [] {
      var n := |batches| - 1;
      ConsecutivePrefix(batches, first, n);
      RecoveredNumbers(batches[..n], first, start);
      LastNumber(batches[n], first + |AllAdds(batches[..n])|);
    }
  }

  lemma ConsecutivePrefix(batches: seq<Batch>, first: nat, k: nat)
    requires Consecutive(batches, first) && k <= |batches|
    ensures Consecutive(batches[..k], first)
  {
    assert forall i | 0 <= i < k :: batches[..k][..i] == batches[..i];
  }

  lemma LastNumber(b: Batch, seqno: nat)
    requires b.seqno == seqno > 0 && seqno + |b.ops| <= TWO_64
    ensures LastSeq(b) == seqno + |b.ops| - 1
  {
  }

  /** Writing batches to a log, losing everything after byte `cut`, and recovering: exactly the
      batches that were wholly written before the cut. */
  method CrashAndRecover(crc: Checksum, batches: seq<Batch>, cut: nat, paranoid: bool, maxSequence0: nat,
                         full: seq<Add> -> bool)
    returns (r: Recovered)
    requires AllEncodable(batches)
    ensures RecoversPrefix(crc, batches, cut, maxSequence0, r) && WrittenWhenFull(full, batches, r)
  {
    var file := CrashedLog(crc, batches, cut);
    r := RecoverLogFile(crc, file, paranoid, maxSequence0, full, batches);
    ghost var k: nat :| WholeRecords(crc, Records(batches), |file|, k) && RecoveredTo(batches, k, maxSequence0, r);
    CutLog(crc, Records(batches), cut, |file|, k);
  }

  /** What is left of a log of `batches` when everything after byte `cut` is lost. */
  method CrashedLog(crc: Checksum, batches: seq<Batch>, cut: nat) returns (file: Bytes)
    requires AllEncodable(batches)
    ensures IsLogPrefix(crc, file, batches)
    ensures |file| == cut || (cut > |file| && file == LogBytes(crc, 0, Records(batches)))
  {
    var records := Records(batches);
    file := LogWriter.WriteLog(crc, [records]);
    OneSession(records);
    if cut < |file| {
      file := file[..cut];
    }
  }

  lemma OneSession(records: seq<Bytes>)
    ensures Flat([records]) == records
  {
    var one := [records];
    assert one[..0] == [] && Flat(one[..0]) == [];
  }

  lemma CutLog(crc: Checksum, records: seq<Bytes>, cut: nat, n: nat, k: nat)
    requires WholeRecords(crc, records, n, k) && (n == cut || (cut > n && n == |LogBytes(crc, 0, records)|))
    ensures WholeRecords(crc, records, cut, k)
  {
    if n < cut && k < |records| {
      LongerLog(crc, records, k + 1);
    }
  }
}
