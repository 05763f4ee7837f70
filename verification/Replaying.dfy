/** Replaying write logs into a recovered version (DBImpl::Recover and RecoverLogFile in db/db_impl.cc):
    memtables that fill up become tables at level 0, and the invariant survives. */
module Replaying {
  import opened Keys
  import opened Files
  import opened VersionBuilder
  import opened Lsm
  import opened Durability
  import opened Runs
  import opened DbImpl
  import opened Coding
  import opened LogFormat
  import opened Sequences
  import LogReader
  import Comparators
  import Batches
  import opened Recovery
  import opened WriteLogs

  // ------------------------------------------------------------------- replaying

  /** The memtable after inserting entries one by one. */
  function MemOf(run: seq<Entry>, es: seq<Entry>): seq<Entry> {
    if es == [] then run else Insert(MemOf(run, es[..|es| - 1]), es[|es| - 1])
  }

  function AppendAll(s: State, es: seq<Entry>): State {
    if es == [] then s else Appended(AppendAll(s, es[..|es| - 1]), es[|es| - 1])
  }

  /** Entries that may follow a history. */
  ghost predicate Follow(history: seq<Entry>, es: seq<Entry>, bound: nat) {
    Rising(history + es) && forall e | e in es :: e.key.seqno <= bound
  }

  lemma FollowPrefix(history: seq<Entry>, es: seq<Entry>, first: seq<Entry>, rest: seq<Entry>, bound: nat)
    requires Follow(history, es, bound) && first + rest <= es
    ensures Follow(history, first, bound) && Follow(history + first, rest, bound)
  {
    var all := history + es;
    assert history + first == all[..|history| + |first|];
    assert history + first + rest == all[..|history| + |first| + |rest|];
    assert forall e | e in first :: e in first + rest;
    assert forall e | e in rest :: e in first + rest;
    assert forall e | e in first + rest :: e in es;
  }

  lemma {:induction false} AppendAllIs(s: State, es: seq<Entry>, bound: nat)
    requires Inv(s) && Follow(s.history, es, bound) && s.last <= bound < MAX_SEQUENCE
    ensures var t := AppendAll(s, es);
            && Inv(t) && s.last <= t.last <= bound
            && t == s.(mem := MemOf(s.mem, es), history := s.history + es, last := t.last)
            && |t.mem| == |s.mem| + |es|
  {
    if es == [] {
      assert s.history + es == s.history;
    } else {
      var n := |es| - 1;
      var t := AppendAll(s, es[..n]);
      FollowPrefix(s.history, es, es[..n], [es[n]], bound);
      AppendAllIs(s, es[..n], bound);
      AppendedIs(t, es[n], bound);
      Regroup(s.history, es[..n], [es[n]]);
      assert es[..n] + [es[n]] == es;
    }
  }

  lemma AppendedIs(t: State, e: Entry, bound: nat)
    requires Inv(t) && Follow(t.history, [e], bound) && t.last <= bound < MAX_SEQUENCE
    ensures var u := Appended(t, e);
            && Inv(u) && t.last <= u.last <= bound && |u.mem| == |t.mem| + 1
            && u == t.(mem := Insert(t.mem, e), history := t.history + [e], last := u.last)
  {
    LastFollows(t, e, bound);
    AppendedKeepsInv(t, e);
    assert e in [e];
  }

  lemma LastFollows(t: State, e: Entry, bound: nat)
    requires Follow(t.history, [e], bound) && bound < MAX_SEQUENCE
    ensures ComesNext(t, e)
  {
    var all := t.history + [e];
    assert all[|t.history|] == e && e in [e];
    forall x | x in t.history
      ensures x.key.seqno < e.key.seqno
    {
      var i :| 0 <= i < |t.history| && t.history[i] == x;
      assert all[i] == x;
    }
  }

  // ------------------------------------------------------------ tables at level 0

  function TableOf(number: nat, size: nat, run: seq<Entry>): File
    requires run != []
  {
    File(number, size, run[0].key, run[|run| - 1].key, run)
  }

  function AddedAtZero(levels: Levels, f: File): Levels {
    levels[0 := InsertFile(levels[0], f)]
  }

  lemma AddedAtZeroIs(s: State, f: File)
    requires NumbersOk(s) && SortedLevels(s.levels) && s.nextFile <= f.number
    ensures SortedLevels(AddedAtZero(s.levels, f))
    ensures forall l, x | 0 <= l < NUM_LEVELS :: x in AddedAtZero(s.levels, f)[l] <==> x in s.levels[l] || (l == 0 && x == f)
  {
    InsertFileKeepsOrder(s.levels[0], f);
  }

  /** A memtable written out during the replay: its entries go to the history, its table to level 0. */
  function WithTable(s: State, es: seq<Entry>, f: File): State {
    AppendAll(s, es).(mem := [], levels := AddedAtZero(s.levels, f), nextFile := f.number + 1)
  }

  lemma TableFlushes(w: State, f: File, t: State)
    requires Inv(w) && w.imm.Some? && w.imm.value != [] && w.nextFile == f.number
    requires f.entries == w.imm.value && f.smallest == f.entries[0].key && f.largest == f.entries[|f.entries| - 1].key
    requires t == w.(imm := None, levels := AddedAtZero(w.levels, f), nextFile := f.number + 1)
    ensures Inv(t)
  {
    MemtableFile(w, f);
    AddedAtZeroIs(w, f);
    forall l: nat, x | l < NUM_LEVELS
      ensures x in t.levels[l] <==> x in w.levels[l] || (l, x) in Edit({}, [(0, f)]).added
    {
    }
    FlushKeepsInv(w, t, 0, f);
  }

  lemma WithTableKeepsInv(s: State, es: seq<Entry>, bound: nat, f: File)
    requires Inv(s) && s.mem == [] && s.imm == None && es != []
    requires Follow(s.history, es, bound) && s.last <= bound < MAX_SEQUENCE
    requires s.nextFile <= f.number && f.entries == MemOf([], es)
    requires f.entries != [] ==> f.smallest == f.entries[0].key && f.largest == f.entries[|f.entries| - 1].key
    ensures var t := WithTable(s, es, f);
            && Inv(t) && s.last <= t.last <= bound
            && t == s.(levels := AddedAtZero(s.levels, f), nextFile := f.number + 1, last := t.last, history := s.history + es)
  {
    var full := AppendAll(s, es);
    AppendAllIs(s, es, bound);
    SwitchKeepsInv(full);
    var w := Switch(full).(nextFile := f.number);
    NextFileKeepsInv(Switch(full), w, full);
    TableFlushes(w, f, WithTable(s, es, f));
  }

  lemma NextFileKeepsInv(s: State, t: State, full: State)
    requires Inv(s) && t == s.(nextFile := t.nextFile) && s == Switch(full) && NumbersOk(full) && full.nextFile <= t.nextFile
    ensures Inv(t)
  {
    assert forall e, d :: At(t, e, d) <==> At(s, e, d);
    SameContents(s, t);
  }

  // ---------------------------------------------------------------- what is replayed

  /** What a replay has made so far: tables, perhaps a memtable to go on with, and the counters. */
  datatype Replay = Replay(tables: seq<File>, mem: seq<Entry>, nextFile: nat, maxSequence: nat)

  /** The tables have numbers of their own. */
  ghost predicate NewTables(tables: seq<File>, from: nat, next: nat) {
    from <= next && if tables == [] then true
    else
      var n := |tables| - 1;
      tables[n].number < next && NewTables(tables[..n], from, tables[n].number)
  }

  lemma {:induction false} TableNumbers(tables: seq<File>, from: nat, next: nat)
    requires NewTables(tables, from, next)
    ensures forall f | f in tables :: from <= f.number < next
    ensures forall i, j | 0 <= i < j < |tables| :: tables[i].number < tables[j].number
  {
    if tables != [] {
      var n := |tables| - 1;
      TableNumbers(tables[..n], from, tables[n].number);
      assert forall f | f in tables :: f in tables[..n] || f == tables[n];
      assert forall i | 0 <= i < n :: tables[i] in tables[..n];
    }
  }

  /** `t` is the state that replaying `es` on `s` has led to. */
  ghost predicate Replays(s: State, r: Replay, es: seq<Entry>, t: State) {
    && Recoverable(t) && s.last <= t.last && (t.last <= s.last || t.last <= r.maxSequence)
    && t == s.(mem := r.mem, levels := t.levels, nextFile := r.nextFile, last := t.last, history := s.history + es)
    && s.imm == None && NewTables(r.tables, s.nextFile, r.nextFile) && Installed(s.levels, TablesEdit(r.tables), t.levels)
  }

  /** With nothing in memory, nothing can be lost. */
  lemma EmptyIsRecoverable(t: State)
    requires Inv(t) && t.mem == [] && t.imm == None
    ensures Recoverable(t)
  {
    assert WithoutMem(t) == t && FilesOnly(t) == t;
  }

  lemma MoreTables(before: Levels, tables: seq<File>, s: State, f: File)
    requires Installed(before, TablesEdit(tables), s.levels) && NumbersOk(s) && s.nextFile <= f.number
    ensures Installed(before, TablesEdit(tables + [f]), AddedAtZero(s.levels, f))
  {
    AddedAtZeroIs(s, f);
    forall l: nat, x | l < NUM_LEVELS
      ensures (l, x) in TablesEdit(tables + [f]).added <==> (l, x) in TablesEdit(tables).added || (l == 0 && x == f)
    {
      var a, b := TablesEdit(tables).added, TablesEdit(tables + [f]).added;
      assert b == a + [(0, f)];
    }
  }

  /** The larger of what has been used and what has been replayed. */
  function Bound(t: State, r: Replay): nat {
    if t.last > r.maxSequence then t.last else r.maxSequence
  }

  lemma TableReplays(s: State, r: Replay, es: seq<Entry>, t: State, more: seq<Entry>, f: File)
    requires Replays(s, r, es, t) && r.mem == [] && more != [] && f.number == r.nextFile
    requires Follow(t.history, more, r.maxSequence) && r.maxSequence < MAX_SEQUENCE
    requires f.entries == MemOf([], more)
    requires f.entries != [] ==> f.smallest == f.entries[0].key && f.largest == f.entries[|f.entries| - 1].key
    ensures Replays(s, r.(tables := r.tables + [f], nextFile := f.number + 1), es + more, WithTable(t, more, f))
  {
    var u := WithTable(t, more, f);
    WithTableKeepsInv(t, more, Bound(t, r), f);
    EmptyIsRecoverable(u);
    ReplaysMore(s, r, es, t, more, f, u);
  }

  lemma ReplaysMore(s: State, r: Replay, es: seq<Entry>, t: State, more: seq<Entry>, f: File, u: State)
    requires Replays(s, r, es, t) && f.number == r.nextFile && Recoverable(u) && t.last <= u.last <= Bound(t, r)
    requires u == t.(levels := AddedAtZero(t.levels, f), nextFile := f.number + 1, last := u.last, history := t.history + more)
    ensures Replays(s, r.(tables := r.tables + [f], nextFile := f.number + 1), es + more, u)
  {
    MoreTables(s.levels, r.tables, t, f);
    Regroup(s.history, es, more);
    assert (r.tables + [f])[..|r.tables|] == r.tables;
  }

  /** Inserts operations into a fresh memtable. */
  method FillMemtable(adds: seq<Add>) returns (run: seq<Entry>)
    ensures run == MemOf([], EntriesOf(adds)) && |run| == |adds|
  {
    run := [];
    for i := 0 to |adds|
      invariant run == MemOf([], EntriesOf(adds[..i])) && |run| == i
    {
      assert EntriesOf(adds[..i + 1])[..i] == EntriesOf(adds[..i]);
      run := Insert(run, EntryOf(adds[i]));
    }
    assert adds[..|adds|] == adds;
  }

  /** Writes a memtable out during the replay; an empty one only takes a number. */
  method ReplayTable(r: Replay, adds: seq<Add>, sizeOf: seq<Entry> -> nat, ghost s: State, ghost es: seq<Entry>, ghost t: State)
    returns (r1: Replay, ghost t1: State)
    requires Replays(s, r, es, t) && r.mem == []
    requires Follow(t.history, EntriesOf(adds), r.maxSequence) && r.maxSequence < MAX_SEQUENCE
    ensures Replays(s, r1, es + EntriesOf(adds), t1) && r1.mem == [] && r1.maxSequence == r.maxSequence
  {
    var run := FillMemtable(adds);
    if run == [] {
      r1 := r.(nextFile := r.nextFile + 1);
      t1 := t.(nextFile := r1.nextFile);
      EmptyReplays(s, r, es, t);
    } else {
      var f := TableOf(r.nextFile, sizeOf(run), run);
      r1 := r.(tables := r.tables + [f], nextFile := r.nextFile + 1);
      t1 := WithTable(t, EntriesOf(adds), f);
      TableReplays(s, r, es, t, EntriesOf(adds), f);
    }
  }

  lemma EmptyReplays(s: State, r: Replay, es: seq<Entry>, t: State)
    requires Replays(s, r, es, t) && r.mem == []
    ensures Replays(s, r.(nextFile := r.nextFile + 1), es + [], t.(nextFile := r.nextFile + 1))
  {
    var u := t.(nextFile := r.nextFile + 1);
    CountersKeepInv(t, u);
    EmptyIsRecoverable(u);
    assert es + [] == es;
  }

  /** Keeps the memtable of the last log. */
  method ReplayMem(r: Replay, adds: seq<Add>, ghost s: State, ghost es: seq<Entry>, ghost t: State)
    returns (r1: Replay, ghost t1: State)
    requires Replays(s, r, es, t) && r.mem == []
    requires Follow(t.history, EntriesOf(adds), r.maxSequence) && r.maxSequence < MAX_SEQUENCE
    ensures Replays(s, r1, es + EntriesOf(adds), t1) && r1.maxSequence == r.maxSequence && |r1.mem| == |adds|
  {
    var run := FillMemtable(adds);
    r1 := r.(mem := run);
    t1 := AppendAll(t, EntriesOf(adds));
    MemReplays(s, r, es, t, EntriesOf(adds));
  }

  lemma MemReplays(s: State, r: Replay, es: seq<Entry>, t: State, more: seq<Entry>)
    requires Replays(s, r, es, t) && r.mem == []
    requires Follow(t.history, more, r.maxSequence) && r.maxSequence < MAX_SEQUENCE
    ensures Replays(s, r.(mem := MemOf([], more)), es + more, AppendAll(t, more))
  {
    var u := AppendAll(t, more);
    AppendAllIs(t, more, Bound(t, r));
    KeptIsRecoverable(t, more, u);
    Regroup(s.history, es, more);
    ReplaysMem(s, r, es, t, more, u);
  }

  lemma ReplaysMem(s: State, r: Replay, es: seq<Entry>, t: State, more: seq<Entry>, u: State)
    requires Replays(s, r, es, t) && Recoverable(u) && t.last <= u.last <= Bound(t, r)
    requires u == t.(mem := u.mem, history := t.history + more, last := u.last) && t.history + more == s.history + (es + more)
    ensures Replays(s, r.(mem := u.mem), es + more, u)
  {
  }

  lemma KeptIsRecoverable(t: State, more: seq<Entry>, u: State)
    requires Recoverable(t) && t.mem == [] && t.imm == None && Inv(u) && t.last <= u.last && |u.mem| == |more|
    requires u == t.(mem := u.mem, history := t.history + more, last := u.last)
    ensures Recoverable(u)
  {
    assert u.history[..|t.history|] == t.history;
    assert WithoutMem(u) == t.(last := u.last) && FilesOnly(u) == t.(last := u.last);
    CountersKeepInv(t, t.(last := u.last));
  }

  // ------------------------------------------------------------------- one log

  lemma {:induction false} MaxSeqCovers(batches: seq<Batch>, k: nat, start: nat, last: nat)
    requires k <= |batches| && BatchesBelow(batches, last) && last < MAX_SEQUENCE
    ensures start <= MaxSeq(batches[..k], start) <= (if start > last then start else last)
    ensures forall a | a in AllAdds(batches[..k]) :: a.seqno <= MaxSeq(batches[..k], start)
    ensures BatchesBelow(batches[..k], MaxSeq(batches[..k], start))
  {
    if k > 0 {
      MaxSeqCovers(batches, k - 1, start, last);
      OneMore(batches, k - 1, start);
      assert batches[k - 1] in batches;
      LastOfBatch(batches[k - 1], last);
      assert batches[..k] == batches[..k - 1] + [batches[k - 1]];
    }
  }

  lemma LastOfBatch(b: Batch, last: nat)
    requires 0 < b.seqno && b.seqno + |b.ops| <= last + 1 && last < MAX_SEQUENCE
    ensures LastSeq(b) <= last && b.seqno + |b.ops| == LastSeq(b) + 1
    ensures forall a | a in AddsOf(b) :: a.seqno <= LastSeq(b)
  {
    assert LastSeq(b) == b.seqno + |b.ops| - 1;
  }

  lemma {:induction false} AddsPrefix(batches: seq<Batch>, k: nat)
    requires k <= |batches|
    ensures AllAdds(batches[..k]) <= AllAdds(batches)
  {
    if k < |batches| {
      var rest := batches[..|batches| - 1];
      AddsPrefix(rest, k);
      assert rest[..k] == batches[..k];
    } else {
      assert batches[..k] == batches;
    }
  }

  /** The entries of the first `k` batches may be replayed when those of all may. */
  lemma PrefixFollows(history: seq<Entry>, batches: seq<Batch>, k: nat, start: nat, last: nat)
    requires k <= |batches| && BatchesBelow(batches, last) && last < MAX_SEQUENCE
    requires Rising(history + EntriesOf(AllAdds(batches)))
    ensures Follow(history, EntriesOf(AllAdds(batches[..k])), MaxSeq(batches[..k], start))
  {
    MaxSeqCovers(batches, k, start, last);
    AddsPrefix(batches, k);
    var all, some := AllAdds(batches), AllAdds(batches[..k]);
    assert history + EntriesOf(some) == (history + EntriesOf(all))[..|history| + |some|];
    forall e | e in EntriesOf(some)
      ensures e.key.seqno <= MaxSeq(batches[..k], start)
    {
      var i :| 0 <= i < |some| && EntriesOf(some)[i] == e;
      assert some[i] in some;
    }
  }

  lemma {:induction false} FlatPrefix(tables: seq<seq<Add>>, i: nat)
    requires i <= |tables|
    ensures Flat(tables[..i]) <= Flat(tables)
  {
    if i < |tables| {
      var rest := tables[..|tables| - 1];
      FlatPrefix(rest, i);
      assert rest[..i] == tables[..i];
    } else {
      assert tables[..i] == tables;
    }
  }

  /** The next table continues those before it. */
  lemma TablePart(tables: seq<seq<Add>>, mem: seq<Add>, i: nat)
    requires i < |tables|
    ensures EntriesOf(Flat(tables[..i])) + EntriesOf(tables[i]) == EntriesOf(Flat(tables[..i + 1]))
    ensures EntriesOf(Flat(tables[..i])) + EntriesOf(tables[i]) <= EntriesOf(Flat(tables) + mem)
  {
    FlatNext(tables, i);
    FlatPrefix(tables, i + 1);
    EntriesJoin(Flat(tables[..i]), tables[i]);
    PrefixEntries(Flat(tables[..i + 1]), Flat(tables) + mem);
  }

  lemma FlatNext(tables: seq<seq<Add>>, i: nat)
    requires i < |tables|
    ensures Flat(tables[..i + 1]) == Flat(tables[..i]) + tables[i]
  {
    assert tables[..i + 1][..i] == tables[..i];
  }

  lemma PrefixEntries(part: seq<Add>, adds: seq<Add>)
    requires part <= adds
    ensures EntriesOf(part) <= EntriesOf(adds)
  {
  }

  lemma PartFollows(h: seq<Entry>, all: seq<Entry>, done: seq<Entry>, part: seq<Entry>, history: seq<Entry>, bound: nat)
    requires Follow(h, all, bound) && done + part <= all && history == h + done
    ensures Follow(history, part, bound)
  {
    FollowPrefix(h, all, done, part, bound);
  }

  /** Writes out the memtables that were full, in order. */
  method ReplayTables(r: Replay, tables: seq<seq<Add>>, sizeOf: seq<Entry> -> nat, ghost mem: seq<Add>,
                      ghost s: State, ghost es: seq<Entry>, ghost t: State)
    returns (r1: Replay, ghost t1: State)
    requires Replays(s, r, es, t) && r.mem == [] && r.maxSequence < MAX_SEQUENCE
    requires Follow(t.history, EntriesOf(Flat(tables) + mem), r.maxSequence)
    ensures Replays(s, r1, es + EntriesOf(Flat(tables)), t1) && r1.mem == [] && r1.maxSequence == r.maxSequence
  {
    r1, t1 := r, t;
    ghost var done := [];
    assert es + done == es && tables[..0] == [];
    for i := 0 to |tables|
      invariant done == EntriesOf(Flat(tables[..i])) && r1.mem == [] && r1.maxSequence == r.maxSequence
      invariant Replays(s, r1, es + done, t1) && t1.history == t.history + done
    {
      TablePart(tables, mem, i);
      PartFollows(t.history, EntriesOf(Flat(tables) + mem), done, EntriesOf(tables[i]), t1.history, r.maxSequence);
      ghost var before := t1;
      r1, t1 := ReplayTable(r1, tables[i], sizeOf, s, es + done, t1);
      Regroup(es, done, EntriesOf(tables[i]));
      Regroup(t.history, done, EntriesOf(tables[i]));
      HistoryOfReplay(s, es, done, EntriesOf(tables[i]), t, t1);
      done := done + EntriesOf(tables[i]);
    }
    assert tables[..|tables|] == tables;
  }

  lemma HistoryOfReplay(s: State, es: seq<Entry>, done: seq<Entry>, part: seq<Entry>, t: State, t1: State)
    requires t.history == s.history + es && t1.history == s.history + (es + done + part)
    ensures t1.history == t.history + (done + part)
  {
    Regroup(es, done, part);
    Regroup(s.history, es, done + part);
  }

  /** Replays one log, cut anywhere, up to its `k` whole records. What was still in the memtable becomes
      a table too, unless the log goes on being used. */
  method ReplayLog(crc: Checksum, file: Bytes, paranoid: bool, full: seq<Add> -> bool, sizeOf: seq<Entry> -> nat, reuse: bool,
                   r: Replay, ghost batches: seq<Batch>, ghost last: nat, ghost s: State, ghost es: seq<Entry>, ghost t: State)
    returns (r1: Replay, ok: bool, reused: bool, ghost k: nat, ghost t1: State)
    requires Replays(s, r, es, t) && r.mem == [] && r.maxSequence <= last < MAX_SEQUENCE
    requires IsLogPrefix(crc, file, batches) && BatchesBelow(batches, last)
    requires Rising(t.history + EntriesOf(AllAdds(batches)))
    ensures ok && LogReader.WholeRecords(crc, Records(batches), |file|, k)
    ensures Replays(s, r1, es + EntriesOf(AllAdds(batches[..k])), t1) && r1.maxSequence <= last
    ensures if reused then reuse && |r1.mem| == |AllAdds(batches[..k])| else r1.mem == []
    ensures BatchesBelow(batches[..k], r1.maxSequence)
  {
    var rec := RecoverLogFile(crc, file, paranoid, r.maxSequence, full, batches);
    k :| LogReader.WholeRecords(crc, Records(batches), |file|, k) && RecoveredTo(batches, k, r.maxSequence, rec);
    ok := rec.ok;
    MaxSeqCovers(batches, k, r.maxSequence, last);
    PrefixFollows(t.history, batches, k, r.maxSequence, last);
    r1 := r.(maxSequence := rec.maxSequence);
    r1, t1 := ReplayTables(r1, rec.tables, sizeOf, rec.mem, s, es, t);
    MemFollows(s, es, t, rec, t1);
    reused := reuse && |rec.tables| == 0;
    ghost var done := EntriesOf(Flat(rec.tables));
    if reused {
      r1, t1 := ReplayMem(r1, rec.mem, s, es + done, t1);
    } else if rec.mem != [] {
      r1, t1 := ReplayTable(r1, rec.mem, sizeOf, s, es + done, t1);
    }
    EntriesJoin(Flat(rec.tables), rec.mem);
    Regroup(es, done, EntriesOf(rec.mem));
    NoneLeft(es + done, rec.mem);
  }

  lemma NoneLeft(es: seq<Entry>, mem: seq<Add>)
    ensures mem == [] ==> es + EntriesOf(mem) == es
  {
  }

  lemma MemFollows(s: State, es: seq<Entry>, t: State, rec: Recovered, t1: State)
    requires t.history == s.history + es && t1.history == s.history + (es + EntriesOf(Flat(rec.tables)))
    requires Follow(t.history, EntriesOf(Flat(rec.tables) + rec.mem), rec.maxSequence)
    ensures Follow(t1.history, EntriesOf(rec.mem), rec.maxSequence)
  {
    var done, part := EntriesOf(Flat(rec.tables)), EntriesOf(rec.mem);
    EntriesJoin(Flat(rec.tables), rec.mem);
    Regroup(s.history, es, done);
    PartFollows(t.history, done + part, done, part, t1.history, rec.maxSequence);
  }

  // -------------------------------------------------------------- several logs

  /** The files of a directory that are logs, by number. */
  type LogFiles = map<nat, Bytes>

  predicate Ascending(numbers: seq<nat>) {
    numbers == [] || ((forall n | n in numbers[1..] :: numbers[0] < n) && Ascending(numbers[1..]))
  }

  function InsertNumber(numbers: seq<nat>, n: nat): seq<nat> {
    if numbers == [] || n < numbers[0] then [n] + numbers else [numbers[0]] + InsertNumber(numbers[1..], n)
  }

  lemma {:induction false} InsertNumberIs(numbers: seq<nat>, n: nat)
    requires Ascending(numbers) && n !in numbers
    ensures Ascending(InsertNumber(numbers, n)) && forall m :: m in InsertNumber(numbers, n) <==> m in numbers || m == n
  {
    if numbers == [] || n < numbers[0] {
      assert ([n] + numbers)[1..] == numbers;
      assert forall m | m in numbers :: m == numbers[0] || m in numbers[1..];
    } else {
      InsertNumberIs(numbers[1..], n);
      var rest := InsertNumber(numbers[1..], n);
      assert ([numbers[0]] + rest)[1..] == rest;
    }
  }

  /** The logs the MANIFEST asks for, in the order in which they were written. */
  method SelectLogs(files: LogFiles, minLog: nat, prevLog: nat) returns (numbers: seq<nat>)
    ensures Ascending(numbers) && forall n :: n in numbers <==> n in files && (n >= minLog || n == prevLog)
  {
    numbers := [];
    var todo := files.Keys;
    while todo != {}
      invariant todo <= files.Keys && Ascending(numbers)
      invariant forall n :: n in numbers <==> n in files.Keys - todo && (n >= minLog || n == prevLog)
      decreases todo
    {
      var n :| n in todo;
      if n >= minLog || n == prevLog {
        InsertNumberIs(numbers, n);
        numbers := InsertNumber(numbers, n);
      }
      todo := todo - {n};
    }
  }

  /** How many batches are kept of each log, by log number; of a log not in it, none. */
  type Kept = map<nat, nat>

  function CountOf(kept: Kept, log: Log): (k: nat)
    ensures k <= |log.batches|
  {
    if log.number in kept && kept[log.number] <= |log.batches| then kept[log.number] else 0
  }

  /** The entries kept of the logs from number `n` of the list on. */
  function KeptEntries(logs: seq<Log>, n: nat, kept: Kept): seq<Entry> {
    if |logs| <= n then []
    else
      var log := logs[|logs| - 1];
      KeptEntries(logs[..|logs| - 1], n, kept) + EntriesOf(AllAdds(log.batches[..CountOf(kept, log)]))
  }

  /** What is kept of a log: exactly its whole records. */
  ghost predicate KeptOf(crc: Checksum, files: LogFiles, log: Log, k: nat) {
    && log.number in files && k <= |log.batches|
    && LogReader.WholeRecords(crc, Records(log.batches), |files[log.number]|, k)
  }

  /** Of every log from number `n` on its whole records are kept, or nothing when its file is gone. */
  ghost predicate KeptRecords(crc: Checksum, files: LogFiles, logs: seq<Log>, n: nat, kept: Kept) {
    forall i | n <= i < |logs| ::
      if logs[i].number in files then logs[i].number in kept && KeptOf(crc, files, logs[i], kept[logs[i].number])
      else logs[i].number !in kept
  }

  /** So far only logs of the list are kept of. */
  ghost predicate KeptSome(crc: Checksum, files: LogFiles, logs: seq<Log>, kept: Kept) {
    forall g | g in logs && g.number in kept :: KeptOf(crc, files, g, kept[g.number])
  }

  /** The numbers to replay are those of the logs from number `n` on that have a file. */
  ghost predicate Selects(files: LogFiles, logs: seq<Log>, n: nat, numbers: seq<nat>) {
    && (forall x | x in numbers :: x in files && exists q :: n <= q < |logs| && logs[q].number == x)
    && forall q | n <= q < |logs| && logs[q].number in files :: logs[q].number in numbers
  }

  /** `rest` is still to be replayed, after all those done. */
  ghost predicate Progress(numbers: seq<nat>, rest: seq<nat>, kept: Kept) {
    && Ascending(rest) && (forall x :: x in numbers <==> x in kept || x in rest)
    && forall x, y | x in kept && y in rest :: x < y
  }

  lemma {:induction false} NumbersRise(logs: seq<Log>, next: nat, i: nat, j: nat)
    requires RisingNumbers(logs, next) && i < j < |logs|
    ensures logs[i].number < logs[j].number
  {
    if j == |logs| - 1 {
      NumberBelow(logs, next, i);
    } else {
      NumbersRise(logs[..|logs| - 1], logs[|logs| - 1].number, i, j);
    }
  }

  lemma {:induction false} OtherKept(logs: seq<Log>, next: nat, n: nat, kept: Kept, x: nat, k: nat)
    requires RisingNumbers(logs, next) && next <= x
    ensures KeptEntries(logs, n, kept[x := k]) == KeptEntries(logs, n, kept)
  {
    if |logs| > n {
      var last := |logs| - 1;
      OtherKept(logs[..last], logs[last].number, n, kept, x, k);
      assert CountOf(kept[x := k], logs[last]) == CountOf(kept, logs[last]);
    }
  }

  /** Keeping batches of one more log, later than all others kept of, appends their entries. */
  lemma {:induction false} KeepOne(logs: seq<Log>, next: nat, n: nat, kept: Kept, q: nat, k: nat)
    requires RisingNumbers(logs, next) && n <= q < |logs| && k <= |logs[q].batches|
    requires forall x | x in kept :: x < logs[q].number
    ensures KeptEntries(logs, n, kept[logs[q].number := k])
         == KeptEntries(logs, n, kept) + EntriesOf(AllAdds(logs[q].batches[..k]))
  {
    var last, x := |logs| - 1, logs[q].number;
    var fewer, log := logs[..last], logs[last];
    if q == last {
      OtherKept(fewer, x, n, kept, x, k);
      NoBatches(log.batches, KeptEntries(fewer, n, kept));
    } else {
      NumbersRise(logs, next, q, last);
      KeepOne(fewer, log.number, n, kept, q, k);
      NoBatches(log.batches, KeptEntries(fewer, n, kept));
      NoBatches(log.batches, KeptEntries(fewer, n, kept[x := k]));
    }
  }

  lemma NoBatches(batches: seq<Batch>, es: seq<Entry>)
    ensures es + EntriesOf(AllAdds(batches[..0])) == es
  {
  }

  // ------------------------------------------------- kept entries and the history

  lemma {:induction false} LogEntriesPrefix(logs: seq<Log>, n: nat, m: nat)
    requires m <= |logs|
    ensures LogEntries(logs[..m], n) <= LogEntries(logs, n)
  {
    if m < |logs| {
      var fewer := logs[..|logs| - 1];
      LogEntriesPrefix(fewer, n, m);
      assert fewer[..m] == logs[..m];
    } else {
      assert logs[..m] == logs;
    }
  }

  lemma EntriesOfLog(logs: seq<Log>, n: nat, m: nat)
    requires n <= m < |logs|
    ensures LogEntries(logs[..m + 1], n) == LogEntries(logs[..m], n) + EntriesOf(AllAdds(logs[m].batches))
  {
    LastEntries(logs[..m + 1], logs[..m], n);
    assert logs[..m + 1][..m] == logs[..m];
  }

  lemma BatchEntriesIn(batches: seq<Batch>, k: nat)
    requires k <= |batches|
    ensures forall e | e in EntriesOf(AllAdds(batches[..k])) :: e in EntriesOf(AllAdds(batches))
  {
    AddsPrefix(batches, k);
    var some, all := AllAdds(batches[..k]), AllAdds(batches);
    forall e | e in EntriesOf(some)
      ensures e in EntriesOf(all)
    {
      var i :| 0 <= i < |some| && EntriesOf(some)[i] == e;
      assert EntriesOf(all)[i] == e;
    }
  }

  /** What is kept is part of what was logged. */
  lemma {:induction false} KeptAreLogged(logs: seq<Log>, n: nat, kept: Kept)
    ensures forall e | e in KeptEntries(logs, n, kept) :: e in LogEntries(logs, n)
  {
    if |logs| > n {
      var log := logs[|logs| - 1];
      KeptAreLogged(logs[..|logs| - 1], n, kept);
      BatchEntriesIn(log.batches, CountOf(kept, log));
    }
  }

  /** What is kept of logs before number `q` was logged before it. */
  lemma {:induction false} KeptAreEarlier(logs: seq<Log>, next: nat, n: nat, q: nat, kept: Kept, x: nat)
    requires RisingNumbers(logs, next) && q <= |logs| && (forall y | y in kept :: y < x)
    requires q < |logs| ==> x <= logs[q].number
    ensures forall e | e in KeptEntries(logs, n, kept) :: e in LogEntries(logs[..q], n)
  {
    if q == |logs| {
      KeptAreLogged(logs, n, kept);
      assert logs[..q] == logs;
    } else if |logs| > n {
      var last := |logs| - 1;
      var fewer, log := logs[..last], logs[last];
      if q < last {
        NumbersRise(logs, next, q, last);
      }
      KeptAreEarlier(fewer, log.number, n, q, kept, x);
      assert fewer[..q] == logs[..q];
      NoBatches(log.batches, KeptEntries(fewer, n, kept));
    }
  }

  /** The next log's entries come after the kept ones of the logs before it. */
  lemma NextLogFollows(h: seq<Entry>, logs: seq<Log>, next: nat, n: nat, q: nat, kept: Kept, es: seq<Entry>, history: seq<Entry>)
    requires RisingNumbers(logs, next) && n <= q < |logs| && Rising(h + LogEntries(logs, n))
    requires es == KeptEntries(logs, n, kept) && history == h + es && Rising(history)
    requires forall y | y in kept :: y < logs[q].number
    ensures Rising(history + EntriesOf(AllAdds(logs[q].batches)))
  {
    KeptAreEarlier(logs, next, n, q, kept, logs[q].number);
    LogFollows(h, logs, n, q, es, history);
  }

  lemma LogFollows(h: seq<Entry>, logs: seq<Log>, n: nat, q: nat, es: seq<Entry>, history: seq<Entry>)
    requires n <= q < |logs| && Rising(h + LogEntries(logs, n)) && history == h + es && Rising(history)
    requires forall e | e in es :: e in LogEntries(logs[..q], n)
    ensures Rising(history + EntriesOf(AllAdds(logs[q].batches)))
  {
    var before, part := LogEntries(logs[..q], n), EntriesOf(AllAdds(logs[q].batches));
    EntriesOfLog(logs, n, q);
    LogEntriesPrefix(logs, n, q + 1);
    RisingPart(h, before, part, LogEntries(logs, n));
    RisingJoin(h, before, part, es, history);
  }

  lemma RisingPart(h: seq<Entry>, before: seq<Entry>, part: seq<Entry>, all: seq<Entry>)
    requires Rising(h + all) && before + part <= all
    ensures Rising(h + (before + part))
  {
    assert h + (before + part) == (h + all)[..|h| + |before + part|];
  }

  lemma RisingJoin(h: seq<Entry>, before: seq<Entry>, part: seq<Entry>, kept: seq<Entry>, history: seq<Entry>)
    requires Rising(h + (before + part)) && history == h + kept && Rising(history) && forall e | e in kept :: e in before
    ensures Rising(history + part)
  {
    var all := h + (before + part);
    forall x, y | x in history && y in part
      ensures x.key.seqno < y.key.seqno
    {
      assert x in h + before;
      var i :| 0 <= i < |h + before| && (h + before)[i] == x;
      var j :| 0 <= j < |part| && part[j] == y;
      assert all[i] == x && all[|h| + |before| + j] == y;
    }
    TwoRise(history, part, all, |h| + |before|);
  }

  lemma TwoRise(a: seq<Entry>, b: seq<Entry>, all: seq<Entry>, n: nat)
    requires Rising(a) && Rising(all) && n + |b| == |all| && all[n..] == b
    requires forall x, y | x in a && y in b :: x.key.seqno < y.key.seqno
    ensures Rising(a + b)
  {
    forall i, j | 0 <= i < j < |a + b|
      ensures (a + b)[i].key.seqno < (a + b)[j].key.seqno
    {
      if i >= |a| {
        assert (a + b)[i] == all[n + i - |a|] && (a + b)[j] == all[n + j - |a|];
      } else if j >= |a| {
        assert a[i] in a && b[j - |a|] in b;
      }
    }
  }

  // ----------------------------------------------------------------- all the logs

  /** The log files a crash leaves: those of the run, cut anywhere or missing, and perhaps older ones. */
  ghost predicate LogsLeft(crc: Checksum, files: LogFiles, logs: seq<Log>, start: Start) {
    && 0 !in files && (start.NewDb? ==> forall x | x in files :: x >= start.log)
    && (forall x | x in files && x >= start.log :: exists g :: g in logs && g.number == x)
    && forall g | g in logs && g.number in files :: IsLogPrefix(crc, files[g.number], g.batches)
  }

  /** The logs selected are those needed that have a file. */
  lemma SelectedAre(crc: Checksum, files: LogFiles, logs: seq<Log>, start: Start, min: nat, n: nat, numbers: seq<nat>)
    requires LogsLeft(crc, files, logs, start) && MinIs(logs, n, min) && n <= |logs|
    requires min >= start.log || (start.NewDb? && min == 0)
    requires forall x :: x in numbers <==> x in files && (x >= min || x == 0)
    ensures Selects(files, logs, n, numbers)
  {
    forall x | x in numbers
      ensures exists q :: n <= q < |logs| && logs[q].number == x
    {
      var g :| g in logs && g.number == x;
      var q :| 0 <= q < |logs| && logs[q] == g;
    }
  }

  /** What the replay of all logs needs to know of them. */
  ghost predicate Replayable(h: seq<Entry>, logs: seq<Log>, n: nat, next: nat, last: nat) {
    && RisingNumbers(logs, next) && LogsBelow(logs, last) && last < MAX_SEQUENCE && Rising(h + LogEntries(logs, n))
  }

  /** The next log to replay. */
  lemma NextLog(crc: Checksum, files: LogFiles, logs: seq<Log>, start: Start, h: seq<Entry>, history: seq<Entry>, n: nat,
                numbers: seq<nat>, rest: seq<nat>, kept: Kept, es: seq<Entry>, next: nat, last: nat)
    returns (q: nat)
    requires LogsLeft(crc, files, logs, start) && Replayable(h, logs, n, next, last) && Selects(files, logs, n, numbers)
    requires Progress(numbers, rest, kept) && rest != []
    requires es == KeptEntries(logs, n, kept) && history == h + es && Rising(history)
    ensures n <= q < |logs| && logs[q].number == rest[0] && rest[0] in files && forall y | y in kept :: y < rest[0]
    ensures IsLogPrefix(crc, files[rest[0]], logs[q].batches) && BatchesBelow(logs[q].batches, last)
    ensures Rising(history + EntriesOf(AllAdds(logs[q].batches)))
  {
    assert rest[0] in rest && rest[0] in numbers;
    q :| n <= q < |logs| && logs[q].number == rest[0];
    assert logs[q] in logs;
    NextLogFollows(h, logs, next, n, q, kept, es, history);
  }

  lemma ProgressOn(numbers: seq<nat>, rest: seq<nat>, kept: Kept, k: nat)
    requires Progress(numbers, rest, kept) && rest != []
    ensures Progress(numbers, rest[1..], kept[rest[0] := k])
  {
    assert forall x :: x in rest <==> x == rest[0] || x in rest[1..];
  }

  lemma KeptSomeMore(crc: Checksum, files: LogFiles, logs: seq<Log>, next: nat, kept: Kept, q: nat, k: nat)
    requires KeptSome(crc, files, logs, kept) && RisingNumbers(logs, next) && q < |logs| && KeptOf(crc, files, logs[q], k)
    ensures KeptSome(crc, files, logs, kept[logs[q].number := k])
  {
    forall g | g in logs && g.number == logs[q].number
      ensures g == logs[q]
    {
      var i :| 0 <= i < |logs| && logs[i] == g;
      if i < q {
        NumbersRise(logs, next, i, q);
      }
      if q < i {
        NumbersRise(logs, next, q, i);
      }
    }
  }

  /** When none is left, all are kept of. */
  lemma AllKept(crc: Checksum, files: LogFiles, logs: seq<Log>, n: nat, numbers: seq<nat>, kept: Kept)
    requires KeptSome(crc, files, logs, kept) && Selects(files, logs, n, numbers) && Progress(numbers, [], kept)
    ensures KeptRecords(crc, files, logs, n, kept)
  {
    forall i | n <= i < |logs|
      ensures if logs[i].number in files then logs[i].number in kept && KeptOf(crc, files, logs[i], kept[logs[i].number])
              else logs[i].number !in kept
    {
      assert logs[i] in logs;
      assert logs[i].number in numbers <==> logs[i].number in kept || logs[i].number in [];
    }
  }

  lemma NothingReplayed(s: State)
    requires Recoverable(s) && s.mem == [] && s.imm == None
    ensures Replays(s, Replay([], [], s.nextFile, 0), [], s)
  {
    assert s.history + [] == s.history;
  }

  /** Higher counters do no harm. */
  lemma CountersKeepRecoverable(s: State, t: State)
    requires Recoverable(s) && t == s.(last := t.last, nextFile := t.nextFile)
    requires s.last <= t.last < MAX_SEQUENCE && s.nextFile <= t.nextFile
    ensures Recoverable(t)
  {
    CountersKeepInv(s, t);
    CountersKeepInv(WithoutMem(s), WithoutMem(t));
    CountersKeepInv(FilesOnly(s), FilesOnly(t));
  }

  lemma NextFileReplays(s: State, r: Replay, es: seq<Entry>, t: State, next: nat)
    requires Replays(s, r, es, t) && r.nextFile <= next
    ensures Replays(s, r.(nextFile := next), es, t.(nextFile := next))
  {
    CountersKeepRecoverable(t, t.(nextFile := next));
  }

  /** No file made from now on has the number of a log that was found. */
  method MarkFileNumberUsed(r: Replay, number: nat, ghost s: State, ghost es: seq<Entry>, ghost t: State)
    returns (r1: Replay, ghost t1: State)
    requires Replays(s, r, es, t)
    ensures Replays(s, r1, es, t1) && r1 == r.(nextFile := if r.nextFile <= number then number + 1 else r.nextFile)
  {
    r1, t1 := r, t;
    if r.nextFile <= number {
      NextFileReplays(s, r, es, t, number + 1);
      r1, t1 := r.(nextFile := number + 1), t.(nextFile := number + 1);
    }
  }

  /** The log that goes on being used holds what is in the memtable. */
  ghost predicate GoesOn(log: Log, reused: Option<nat>, r: Replay, history: seq<Entry>) {
    && (reused.Some? ==> log.number == reused.value < r.nextFile) && (reused.None? ==> log.batches == [])
    && BatchesBelow(log.batches, r.maxSequence) && |r.mem| <= |history|
    && EntriesOf(AllAdds(log.batches)) == history[|history| - |r.mem|..]
  }

  lemma GoesOnWith(number: nat, batches: seq<Batch>, r: Replay, es: seq<Entry>, t: State, s: State)
    requires BatchesBelow(batches, r.maxSequence) && |r.mem| == |AllAdds(batches)| && number < r.nextFile
    requires t.history == s.history + (es + EntriesOf(AllAdds(batches)))
    ensures GoesOn(Log(number, batches), Some(number), r, t.history)
  {
    Regroup(s.history, es, EntriesOf(AllAdds(batches)));
  }

  /** Replays the selected logs in order. Of each, exactly the whole records are kept; the last one may
      go on being used. */
  method ReplayLogs(crc: Checksum, files: LogFiles, numbers: seq<nat>, paranoid: bool, full: seq<Add> -> bool,
                    sizeOf: seq<Entry> -> nat, reuse: bool, nextFile: nat, ghost logs: seq<Log>, ghost start: Start,
                    ghost n: nat, ghost next: nat, ghost last: nat, ghost s: State)
    returns (r: Replay, ok: bool, reused: Option<nat>, ghost kept: Kept, ghost es: seq<Entry>, ghost log: Log, ghost t: State)
    requires Recoverable(s) && s.mem == [] && s.imm == None && nextFile == s.nextFile
    requires LogsLeft(crc, files, logs, start) && Replayable(s.history, logs, n, next, last)
    requires Ascending(numbers) && Selects(files, logs, n, numbers)
    ensures ok && KeptRecords(crc, files, logs, n, kept) && es == KeptEntries(logs, n, kept)
    ensures Replays(s, r, es, t) && r.maxSequence <= last
    ensures GoesOn(log, reused, r, t.history)
  {
    r, ok, reused, kept, es, log, t := Replay([], [], nextFile, 0), true, None, map[], [], Log(0, []), s;
    NothingReplayed(s);
    NothingKept(logs, n);
    var rest := numbers;
    while rest != []
      invariant ok && r.maxSequence <= last && (|rest| > 0 ==> r.mem == [] && reused == None)
      invariant KeptSome(crc, files, logs, kept) && Progress(numbers, rest, kept) && es == KeptEntries(logs, n, kept)
      invariant Replays(s, r, es, t) && GoesOn(log, reused, r, t.history)
      decreases |rest|
    {
      r, ok, reused, kept, es, log, t :=
        ReplayNext(crc, files, numbers, rest, paranoid, full, sizeOf, reuse, r, logs, start, n, next, last, s, kept, es, t);
      rest := rest[1..];
    }
    AllKept(crc, files, logs, n, numbers, kept);
  }

  lemma {:induction false} NothingKept(logs: seq<Log>, n: nat)
    ensures KeptEntries(logs, n, map[]) == []
  {
    if |logs| > n {
      NothingKept(logs[..|logs| - 1], n);
    }
  }

  /** Replays the first of the remaining logs. */
  method ReplayNext(crc: Checksum, files: LogFiles, ghost numbers: seq<nat>, rest: seq<nat>, paranoid: bool,
                    full: seq<Add> -> bool, sizeOf: seq<Entry> -> nat, reuse: bool, r: Replay, ghost logs: seq<Log>,
                    ghost start: Start, ghost n: nat, ghost next: nat, ghost last: nat, ghost s: State, ghost kept: Kept,
                    ghost es: seq<Entry>, ghost t: State)
    returns (r1: Replay, ok: bool, reused: Option<nat>, ghost kept1: Kept, ghost es1: seq<Entry>, ghost log: Log, ghost t1: State)
    requires LogsLeft(crc, files, logs, start) && Replayable(s.history, logs, n, next, last)
    requires Selects(files, logs, n, numbers) && Progress(numbers, rest, kept) && rest != []
    requires KeptSome(crc, files, logs, kept) && es == KeptEntries(logs, n, kept)
    requires Replays(s, r, es, t) && r.mem == [] && r.maxSequence <= last
    ensures ok && KeptSome(crc, files, logs, kept1) && Progress(numbers, rest[1..], kept1)
    ensures Replays(s, r1, es1, t1) && es1 == KeptEntries(logs, n, kept1) && r1.maxSequence <= last
    ensures GoesOn(log, reused, r1, t1.history) && (|rest| > 1 ==> r1.mem == [] && reused == None)
  {
    ghost var q := NextLog(crc, files, logs, start, s.history, t.history, n, numbers, rest, kept, es, next, last);
    ghost var k;
    r1, ok, reused, k, log, t1 := TakeLog(crc, files[rest[0]], rest[0], paranoid, full, sizeOf, reuse && |rest| == 1, r,
                                          logs[q].batches, last, s, es, t);
    es1 := es + EntriesOf(AllAdds(logs[q].batches[..k]));
    kept1 := kept[rest[0] := k];
    KeepOne(logs, next, n, kept, q, k);
    KeptSomeMore(crc, files, logs, next, kept, q, k);
    ProgressOn(numbers, rest, kept, k);
  }

  /** Replays the log with number `x`. */
  method TakeLog(crc: Checksum, file: Bytes, x: nat, paranoid: bool, full: seq<Add> -> bool, sizeOf: seq<Entry> -> nat,
                 reuse: bool, r: Replay, ghost batches: seq<Batch>, ghost last: nat, ghost s: State, ghost es: seq<Entry>,
                 ghost t: State)
    returns (r1: Replay, ok: bool, reused: Option<nat>, ghost k: nat, ghost log: Log, ghost t1: State)
    requires Replays(s, r, es, t) && r.mem == [] && r.maxSequence <= last < MAX_SEQUENCE
    requires IsLogPrefix(crc, file, batches) && BatchesBelow(batches, last)
    requires Rising(t.history + EntriesOf(AllAdds(batches)))
    ensures ok && k <= |batches| && LogReader.WholeRecords(crc, Records(batches), |file|, k)
    ensures Replays(s, r1, es + EntriesOf(AllAdds(batches[..k])), t1) && r1.maxSequence <= last
    ensures GoesOn(log, reused, r1, t1.history) && (!reuse ==> r1.mem == [] && reused == None)
  {
    var goesOn;
    r1, ok, goesOn, k, t1 := ReplayLog(crc, file, paranoid, full, sizeOf, reuse, r, batches, last, s, es, t);
    r1, t1 := MarkFileNumberUsed(r1, x, s, es + EntriesOf(AllAdds(batches[..k])), t1);
    if goesOn {
      reused, log := Some(x), Log(x, batches[..k]);
      GoesOnWith(x, batches[..k], r1, es, t1, s);
    } else {
      reused, log := None, Log(0, []);
      NothingGoesOn(r1, t1.history);
    }
  }

  lemma NothingGoesOn(r: Replay, history: seq<Entry>)
    requires r.mem == []
    ensures GoesOn(Log(0, []), None, r, history)
  {
  }
}
