/** The log files a run writes (DBImpl::Write and MakeRoomForWrite in db/db_impl.cc): those the MANIFEST
    asks for hold exactly the writes that are in no table. */
module WriteLogs {
  import opened Keys
  import opened Files
  import opened VersionBuilder
  import opened Lsm
  import opened LsmCompaction
  import opened Durability
  import opened Runs
  import opened Recovery
  import opened Coding
  import Comparators
  import Batches

  // ------------------------------------------------------- operations and entries

  function KindOf(op: Batches.Op): Kind {
    if op.Put? then Value else Deletion
  }

  /** The tag of an operation in a batch is the kind in the trailer of its key. */
  lemma TagIsKind(op: Batches.Op)
    ensures Batches.OpBytes(op)[0] as nat == KindOf(op).Code()
  {
  }

  function ValueBytes(op: Batches.Op): Bytes {
    if op.Put? then op.value else []
  }

  function EntryOf(a: Add): Entry {
    Entry(InternalKey(Comparators.ByteRank(a.op.key), a.seqno, KindOf(a.op)), ValueBytes(a.op))
  }

  function EntriesOf(adds: seq<Add>): seq<Entry> {
    seq(|adds|, i requires 0 <= i < |adds| => EntryOf(adds[i]))
  }

  function OpOf(a: Add): (Kind, UserKey, Bytes) {
    (KindOf(a.op), Comparators.ByteRank(a.op.key), ValueBytes(a.op))
  }

  function OpsOf(adds: seq<Add>): seq<(Kind, UserKey, Bytes)> {
    seq(|adds|, i requires 0 <= i < |adds| => OpOf(adds[i]))
  }

  lemma EntriesJoin(a: seq<Add>, b: seq<Add>)
    ensures EntriesOf(a + b) == EntriesOf(a) + EntriesOf(b)
  {
  }

  /** Numbered one after the other. */
  ghost predicate Numbered(adds: seq<Add>, first: nat) {
    forall i | 0 <= i < |adds| :: adds[i].seqno == first + i
  }

  /** A batch appends its entries to the history. */
  lemma {:induction false} WriteAppends(s: State, adds: seq<Add>)
    requires Numbered(adds, s.last + 1)
    ensures WriteBatch(s, OpsOf(adds)).history == s.history + EntriesOf(adds)
    decreases adds
  {
    var ops := OpsOf(adds);
    if adds != [] {
      var t := WriteEntry(s, ops[0].0, ops[0].1, ops[0].2);
      FirstAdd(adds);
      WriteAppends(t, adds[1..]);
      assert s.history + [EntryOf(adds[0])] + EntriesOf(adds[1..]) == s.history + EntriesOf(adds);
    }
  }

  lemma FirstAdd(adds: seq<Add>)
    requires adds != []
    ensures OpsOf(adds)[0] == OpOf(adds[0]) && OpsOf(adds)[1..] == OpsOf(adds[1..])
    ensures EntriesOf(adds) == [EntryOf(adds[0])] + EntriesOf(adds[1..])
  {
  }

  // ------------------------------------------------------------------ log files

  datatype Log = Log(number: nat, batches: seq<Batch>)

  /** All log files after `k` steps, oldest first: a write appends one record to the last, and a new
      memtable starts a new one. The run begins with one log. */
  ghost predicate LogsHold(logs: seq<Log>, first: Log, states: seq<State>, actions: seq<Action>, k: nat)
    requires k <= |actions| < |states|
    decreases k
  {
    if k == 0 then logs == [first]
    else if actions[k - 1].Write? then
      exists before: seq<Log>, b: Batch ::
        && LogsHold(before, first, states, actions, k - 1) && before != [] && logs == WithRecord(before, b)
        && b.seqno == states[k - 1].last + 1 && OpsOf(AddsOf(b)) == actions[k - 1].ops
    else if actions[k - 1].SwitchMemtable? then
      && logs != [] && logs[|logs| - 1] == Log(states[k - 1].nextFile, [])
      && LogsHold(logs[..|logs| - 1], first, states, actions, k - 1)
    else LogsHold(logs, first, states, actions, k - 1)
  }

  /** One more record at the end of the last log. */
  function WithRecord(logs: seq<Log>, b: Batch): seq<Log>
    requires logs != []
  {
    var n := |logs| - 1;
    logs[..n] + [Log(logs[n].number, logs[n].batches + [b])]
  }

  /** The entries of the logs from number `from` on in the list. */
  function LogEntries(logs: seq<Log>, from: nat): seq<Entry> {
    if |logs| <= from then [] else LogEntries(logs[..|logs| - 1], from) + EntriesOf(AllAdds(logs[|logs| - 1].batches))
  }

  /** The log that an opening goes on with: empty, or what it holds is still in memory. */
  ghost predicate OpensWith(start: Start, first: Log, s: State) {
    && start.log == first.number && Counts(s) && s.imm == None && BatchesBelow(first.batches, s.last)
    && EntriesOf(AllAdds(first.batches)) == s.history[FlushedAt(s)..]
  }

  /** The numbers of the batches are not beyond the last sequence number. */
  ghost predicate BatchesBelow(batches: seq<Batch>, last: nat) {
    forall b | b in batches :: 0 < b.seqno && b.seqno + |b.ops| <= last + 1
  }

  ghost predicate LogsBelow(logs: seq<Log>, last: nat) {
    forall g | g in logs :: BatchesBelow(g.batches, last)
  }

  /** Log numbers rise, up to below `next`. */
  ghost predicate RisingNumbers(logs: seq<Log>, next: nat) {
    logs == [] || (logs[|logs| - 1].number < next && RisingNumbers(logs[..|logs| - 1], logs[|logs| - 1].number))
  }

  lemma {:induction false} NumberBelow(logs: seq<Log>, next: nat, i: nat)
    requires RisingNumbers(logs, next) && i < |logs|
    ensures logs[i].number < next && (i < |logs| - 1 ==> logs[i].number < logs[|logs| - 1].number)
  {
    if i < |logs| - 1 {
      NumberBelow(logs[..|logs| - 1], logs[|logs| - 1].number, i);
    }
  }

  /** Where the logs of what is in memory begin. */
  function FirstPending(logs: seq<Log>, s: State): int {
    |logs| - if s.imm == None then 1 else 2
  }

  /** The memtable is in the last log, the immutable one in the log before it. */
  ghost predicate LogsOk(logs: seq<Log>, s: State, current: nat, min: nat) {
    && Counts(s) && FirstPending(logs, s) >= 0 && RisingNumbers(logs, s.nextFile) && LogsBelow(logs, s.last)
    && current == logs[|logs| - 1].number && MinIs(logs, FirstPending(logs, s), min)
    && LogEntries(logs, |logs| - 1) == s.history[FrozenAt(s)..]
    && LogEntries(logs, FirstPending(logs, s)) == s.history[FlushedAt(s)..]
  }

  /** `min` separates the logs before number `n` of the list from the others. */
  ghost predicate MinIs(logs: seq<Log>, n: int, min: nat) {
    forall i | 0 <= i < |logs| :: logs[i].number >= min <==> i >= n
  }

  // ----------------------------------------------------------------- the steps

  lemma LastEntries(logs: seq<Log>, rest: seq<Log>, from: nat)
    requires logs != [] && rest == logs[..|logs| - 1] && from <= |rest|
    ensures LogEntries(logs, from) == LogEntries(rest, from) + EntriesOf(AllAdds(logs[|logs| - 1].batches))
  {
  }

  lemma OneMoreBatch(batches: seq<Batch>, b: Batch)
    ensures EntriesOf(AllAdds(batches + [b])) == EntriesOf(AllAdds(batches)) + EntriesOf(AddsOf(b))
  {
    assert (batches + [b])[..|batches|] == batches;
    EntriesJoin(AllAdds(batches), AddsOf(b));
  }

  lemma EntriesWithRecord(logs: seq<Log>, b: Batch, from: nat)
    requires logs != [] && from < |logs|
    ensures LogEntries(WithRecord(logs, b), from) == LogEntries(logs, from) + EntriesOf(AddsOf(b))
  {
    var rest, last := logs[..|logs| - 1], logs[|logs| - 1];
    LastEntries(logs, rest, from);
    LastEntries(WithRecord(logs, b), rest, from);
    OneMoreBatch(last.batches, b);
  }

  lemma EntriesWithLog(logs: seq<Log>, number: nat, from: nat)
    requires from <= |logs|
    ensures LogEntries(logs + [Log(number, [])], from) == LogEntries(logs, from)
  {
    LastEntries(logs + [Log(number, [])], logs, from);
  }

  lemma NumbersWithRecord(logs: seq<Log>, b: Batch)
    requires logs != []
    ensures var more := WithRecord(logs, b);
            |more| == |logs| && forall i | 0 <= i < |logs| :: more[i].number == logs[i].number
  {
  }

  lemma BelowMore(logs: seq<Log>, b: Batch, last: nat, more: nat)
    requires logs != [] && LogsBelow(logs, last) && last <= more && 0 < b.seqno && b.seqno + |b.ops| <= more + 1
    ensures LogsBelow(WithRecord(logs, b), more)
  {
    var n := |logs| - 1;
    var longer := WithRecord(logs, b);
    forall g | g in longer
      ensures BatchesBelow(g.batches, more)
    {
      assert g in logs || g == longer[n];
      assert logs[n] in logs;
    }
  }

  lemma WriteKeepsLogs(logs: seq<Log>, s: State, t: State, b: Batch, current: nat, min: nat)
    requires LogsOk(logs, s, current, min) && b.seqno == s.last + 1 && t == WriteBatch(s, OpsOf(AddsOf(b)))
    ensures LogsOk(WithRecord(logs, b), t, current, min)
  {
    var more, last, n := WithRecord(logs, b), |logs| - 1, FirstPending(logs, s);
    WriteCounts(s, OpsOf(AddsOf(b)));
    NumbersWithRecord(logs, b);
    BelowMore(logs, b, s.last, t.last);
    RecordIsHistory(logs, s, t, b, last, FrozenAt(s));
    RecordIsHistory(logs, s, t, b, n, FlushedAt(s));
    NumbersSame(logs, b, n, min, s.nextFile);
    SameShape(more, s, t, last, n, current, min);
  }

  lemma SameShape(more: seq<Log>, s: State, t: State, last: nat, n: nat, current: nat, min: nat)
    requires Counts(s) && Counts(t) && t.imm == s.imm && t.nextFile == s.nextFile
    requires FrozenAt(t) == FrozenAt(s) && FlushedAt(t) == FlushedAt(s)
    requires |more| == last + 1 && n == FirstPending(more, s) && current == more[last].number
    requires RisingNumbers(more, s.nextFile) && LogsBelow(more, t.last) && MinIs(more, n, min)
    requires LogEntries(more, last) == t.history[FrozenAt(s)..] && LogEntries(more, n) == t.history[FlushedAt(s)..]
    ensures LogsOk(more, t, current, min)
  {
  }

  lemma RecordIsHistory(logs: seq<Log>, s: State, t: State, b: Batch, n: nat, h: nat)
    requires b.seqno == s.last + 1 && t == WriteBatch(s, OpsOf(AddsOf(b)))
    requires n < |logs| && h <= |s.history| && LogEntries(logs, n) == s.history[h..]
    ensures h <= |t.history| && LogEntries(WithRecord(logs, b), n) == t.history[h..]
  {
    WriteAppends(s, AddsOf(b));
    EntriesWithRecord(logs, b, n);
    SuffixMore(s.history, EntriesOf(AddsOf(b)), h);
  }

  lemma SuffixMore(h: seq<Entry>, more: seq<Entry>, n: nat)
    requires n <= |h|
    ensures (h + more)[n..] == h[n..] + more
  {
  }

  lemma NumbersSame(logs: seq<Log>, b: Batch, n: int, min: nat, next: nat)
    requires logs != [] && RisingNumbers(logs, next) && MinIs(logs, n, min)
    ensures RisingNumbers(WithRecord(logs, b), next) && MinIs(WithRecord(logs, b), n, min)
  {
    NumbersWithRecord(logs, b);
    assert WithRecord(logs, b)[..|logs| - 1] == logs[..|logs| - 1];
  }

  lemma SwitchKeepsLogs(logs: seq<Log>, s: State, current: nat, min: nat)
    requires LogsOk(logs, s, current, min) && s.imm == None
    ensures LogsOk(logs + [Log(s.nextFile, [])], Switch(s), s.nextFile, min)
  {
    var t, more := Switch(s), logs + [Log(s.nextFile, [])];
    EntriesWithLog(logs, s.nextFile, |logs|);
    EntriesWithLog(logs, s.nextFile, FirstPending(logs, s));
    NoEntries(logs);
    NumbersMore(logs, s.nextFile, FirstPending(logs, s), min);
    SwitchShape(more, s, t, |logs|, FirstPending(logs, s), min);
  }

  lemma SwitchShape(more: seq<Log>, s: State, t: State, last: nat, n: nat, min: nat)
    requires Counts(s) && t == Switch(s) && s.imm == None && |more| == last + 1 && n == last - 1
    requires more[last] == Log(s.nextFile, []) && LogsBelow(more[..last], s.last)
    requires RisingNumbers(more, t.nextFile) && MinIs(more, n, min)
    requires LogEntries(more, last) == [] && LogEntries(more, n) == s.history[FlushedAt(s)..]
    ensures LogsOk(more, t, s.nextFile, min)
  {
    assert forall g | g in more :: g in more[..last] || g == more[last];
  }

  lemma NoEntries(logs: seq<Log>)
    ensures LogEntries(logs, |logs|) == []
  {
  }

  lemma NumbersMore(logs: seq<Log>, next: nat, n: nat, min: nat)
    requires RisingNumbers(logs, next) && MinIs(logs, n, min) && n < |logs|
    ensures RisingNumbers(logs + [Log(next, [])], next + 1) && MinIs(logs + [Log(next, [])], n, min)
  {
    var more := logs + [Log(next, [])];
    assert more[..|logs|] == logs;
    assert logs[|logs| - 1].number >= min;
  }

  lemma FlushKeepsLogs(logs: seq<Log>, s: State, t: State, current: nat, min: nat, level: nat, f: File)
    requires LogsOk(logs, s, current, min) && Flush(s, t, level, f)
    ensures LogsOk(logs, t, current, current)
  {
    forall i | 0 <= i < |logs|
      ensures logs[i].number >= current <==> i >= |logs| - 1
    {
      NumberBelow(logs, s.nextFile, i);
    }
    RisingWider(logs, s.nextFile, t.nextFile);
  }

  lemma RisingWider(logs: seq<Log>, next: nat, more: nat)
    requires RisingNumbers(logs, next) && next <= more
    ensures RisingNumbers(logs, more)
  {
  }

  lemma OtherKeepsLogs(logs: seq<Log>, s: State, t: State, current: nat, min: nat)
    requires LogsOk(logs, s, current, min) && s.nextFile <= t.nextFile
    requires t.mem == s.mem && t.imm == s.imm && t.history == s.history && t.last == s.last
    ensures LogsOk(logs, t, current, min)
  {
    RisingWider(logs, s.nextFile, t.nextFile);
  }

  lemma LogsStep(before: seq<Log>, logs: seq<Log>, start: Start, states: seq<State>, actions: seq<Action>, k: nat)
    requires Run(states, actions) && k < |actions| && AfterStep(before, logs, states, actions, k)
    ensures OkAfter(before, start, states, actions, k) ==> OkAfter(logs, start, states, actions, k + 1)
  {
    var s, a, t := StepOf(states, actions, k);
    var current, min := CurrentLog(start, states, actions, k), MinLog(start, states, actions, k);
    var current1, min1 := CurrentLog(start, states, actions, k + 1), MinLog(start, states, actions, k + 1);
    if LogsOk(before, s, current, min) {
      NextLogs(before, logs, s, a, t, current, min, current1, min1);
    }
  }

  lemma NextLogs(before: seq<Log>, logs: seq<Log>, s: State, a: Action, t: State, current: nat, min: nat,
                 current1: nat, min1: nat)
    requires LogsOk(before, s, current, min) && Next(s, a, t) && StepLogs(before, logs, s, a)
    requires current1 == if a.SwitchMemtable? then s.nextFile else current
    requires min1 == if a.FlushMemtable? then current else min
    ensures LogsOk(logs, t, current1, min1)
  {
    match a
    case Write(ops) =>
      var b :| logs == WithRecord(before, b) && b.seqno == s.last + 1 && OpsOf(AddsOf(b)) == ops;
      WriteKeepsLogs(before, s, t, b, current, min);
    case SwitchMemtable => SwitchKeepsLogs(before, s, current, min);
    case FlushMemtable(level, file) => FlushKeepsLogs(before, s, t, current, min, level, file);
    case _ => OtherKeepsLogs(before, s, t, current, min);
  }

  ghost predicate StepLogs(before: seq<Log>, logs: seq<Log>, s: State, a: Action) {
    match a
    case Write(ops) =>
      before != [] && exists b: Batch :: logs == WithRecord(before, b) && b.seqno == s.last + 1 && OpsOf(AddsOf(b)) == ops
    case SwitchMemtable => logs == before + [Log(s.nextFile, [])]
    case _ => logs == before
  }

  /** What one step does to the logs. */
  ghost predicate AfterStep(before: seq<Log>, logs: seq<Log>, states: seq<State>, actions: seq<Action>, k: nat)
    requires k < |actions| < |states|
  {
    StepLogs(before, logs, states[k], actions[k])
  }

  lemma LogsBefore(logs: seq<Log>, first: Log, states: seq<State>, actions: seq<Action>, k: nat) returns (before: seq<Log>)
    requires k < |actions| < |states| && LogsHold(logs, first, states, actions, k + 1)
    ensures LogsHold(before, first, states, actions, k) && AfterStep(before, logs, states, actions, k)
  {
    match actions[k]
    case Write(ops) =>
      var b: Batch;
      before, b :| LogsHold(before, first, states, actions, k) && before != [] && logs == WithRecord(before, b)
                   && b.seqno == states[k].last + 1 && OpsOf(AddsOf(b)) == ops;
    case SwitchMemtable =>
      before := logs[..|logs| - 1];
      assert logs == before + [logs[|logs| - 1]];
    case _ => before := logs;
  }

  lemma FirstLogs(first: Log, start: Start, states: seq<State>, actions: seq<Action>, k: nat)
    requires Run(states, actions) && k == 0 && Starts(start, states[k]) && OpensWith(start, first, states[k])
    ensures LogsOk([first], states[k], CurrentLog(start, states, actions, k), MinLog(start, states, actions, k))
  {
    FirstAtStart(start, states[k], first.number);
    FirstIsOk(first, states[k], MinLog(start, states, actions, k));
  }

  lemma FirstIsOk(first: Log, s: State, min: nat)
    requires Counts(s) && s.imm == None && BatchesBelow(first.batches, s.last)
    requires EntriesOf(AllAdds(first.batches)) == s.history[FlushedAt(s)..] && min <= first.number < s.nextFile
    ensures LogsOk([first], s, first.number, min)
  {
    OneLog(first, 0);
  }

  lemma OneLog(first: Log, from: nat)
    requires from == 0
    ensures LogEntries([first], from) == EntriesOf(AllAdds(first.batches))
  {
    NoEntries([]);
    LastEntries([first], [], from);
  }

  lemma FirstAtStart(start: Start, s: State, number: nat)
    requires Starts(start, s) && number == start.log
    ensures number < s.nextFile && number >= (if start.NewDb? then 0 else start.log)
  {
  }

  /** After `k` steps: the memtable is in the last log, the immutable one in the log before it, and the
      log number of the MANIFEST tells these from the obsolete ones. */
  lemma LogsAreOk(logs: seq<Log>, first: Log, start: Start, states: seq<State>, actions: seq<Action>, k: nat)
    requires Run(states, actions) && Starts(start, states[0]) && OpensWith(start, first, states[0])
    requires k < |states| && LogsHold(logs, first, states, actions, k)
    ensures LogsOk(logs, states[k], CurrentLog(start, states, actions, k), MinLog(start, states, actions, k))
  {
    FirstLogs(first, start, states, actions, 0);
    LogsUpTo(logs, first, start, states, actions, k);
  }

  /** What `LogsOk` says after `k` steps. */
  ghost predicate OkAfter(logs: seq<Log>, start: Start, states: seq<State>, actions: seq<Action>, k: nat)
    requires k <= |actions| < |states|
  {
    LogsOk(logs, states[k], CurrentLog(start, states, actions, k), MinLog(start, states, actions, k))
  }

  lemma {:induction false} LogsUpTo(logs: seq<Log>, first: Log, start: Start, states: seq<State>, actions: seq<Action>, k: nat)
    requires Run(states, actions) && k < |states| && LogsHold(logs, first, states, actions, k)
    ensures OkAfter([first], start, states, actions, 0) ==> OkAfter(logs, start, states, actions, k)
    decreases k
  {
    if k > 0 {
      var before := LogsBefore(logs, first, states, actions, k - 1);
      LogsUpTo(before, first, start, states, actions, k - 1);
      LogsStep(before, logs, start, states, actions, k - 1);
    }
  }

  // --------------------------------------------------------- from then until now

  /** The logs with numbers from `min` on are the last ones of the list, and hold `h`. */
  ghost predicate Pending(logs: seq<Log>, n: nat, min: nat, h: seq<Entry>) {
    n < |logs| && MinIs(logs, n, min) && LogEntries(logs, n) == h
  }

  lemma PendingStep(before: seq<Log>, logs: seq<Log>, s: State, a: Action, t: State, n: nat, min: nat, h: nat)
    requires Next(s, a, t) && StepLogs(before, logs, s, a) && RisingNumbers(before, s.nextFile)
    requires h <= |s.history| && Pending(before, n, min, s.history[h..])
    ensures h <= |t.history| && Pending(logs, n, min, t.history[h..])
  {
    match a
    case Write(ops) =>
      var b :| logs == WithRecord(before, b) && b.seqno == s.last + 1 && OpsOf(AddsOf(b)) == ops;
      NumbersWithRecord(before, b);
      RecordIsHistory(before, s, t, b, n, h);
    case SwitchMemtable =>
      EntriesWithLog(before, s.nextFile, n);
      NumbersMore(before, s.nextFile, n, min);
    case _ =>
  }

  /** `Pending` after `k` steps. */
  ghost predicate PendingAfter(logs: seq<Log>, n: nat, min: nat, states: seq<State>, k: nat, h: nat)
    requires k < |states|
  {
    h <= |states[k].history| && Pending(logs, n, min, states[k].history[h..])
  }

  ghost predicate StepTo(before: seq<Log>, logs: seq<Log>, first: Log, states: seq<State>, actions: seq<Action>, k: nat)
    requires 0 < k <= |actions| < |states|
  {
    LogsHold(before, first, states, actions, k - 1) && AfterStep(before, logs, states, actions, k - 1)
  }

  /** From `earlier`, the logs after `j` steps, to `logs`, those after `k`. */
  ghost predicate Leads(earlier: seq<Log>, logs: seq<Log>, first: Log, states: seq<State>, actions: seq<Action>,
                        j: nat, k: nat)
    requires j <= k <= |actions| < |states|
    decreases k
  {
    if j == k then earlier == logs
    else exists before ::
           StepTo(before, logs, first, states, actions, k) && Leads(earlier, before, first, states, actions, j, k - 1)
  }

  lemma {:induction false} LogsAt(logs: seq<Log>, first: Log, states: seq<State>, actions: seq<Action>, j: nat, k: nat)
    returns (earlier: seq<Log>)
    requires j <= k <= |actions| < |states| && LogsHold(logs, first, states, actions, k)
    ensures LogsHold(earlier, first, states, actions, j) && Leads(earlier, logs, first, states, actions, j, k)
    decreases k
  {
    if j == k {
      earlier := logs;
    } else {
      var before := LogsBefore(logs, first, states, actions, k - 1);
      earlier := LogsAt(before, first, states, actions, j, k - 1);
      assert StepTo(before, logs, first, states, actions, k);
    }
  }

  /** What is pending after `j` steps is pending after `k`, with what came between. */
  lemma {:induction false} PendingUpTo(earlier: seq<Log>, logs: seq<Log>, first: Log, start: Start, states: seq<State>,
                                       actions: seq<Action>, j: nat, k: nat, n: nat, min: nat, h: nat)
    requires Run(states, actions) && j <= k < |states| && Leads(earlier, logs, first, states, actions, j, k)
    ensures OkAfter([first], start, states, actions, 0) && PendingAfter(earlier, n, min, states, j, h) ==>
              PendingAfter(logs, n, min, states, k, h)
    decreases k
  {
    if j < k {
      var before :| StepTo(before, logs, first, states, actions, k)
                    && Leads(earlier, before, first, states, actions, j, k - 1);
      PendingUpTo(earlier, before, first, start, states, actions, j, k - 1, n, min, h);
      PendingOver(before, logs, first, start, states, actions, k, n, min, h);
    }
  }

  lemma PendingOver(before: seq<Log>, logs: seq<Log>, first: Log, start: Start, states: seq<State>, actions: seq<Action>,
                    k: nat, n: nat, min: nat, h: nat)
    requires Run(states, actions) && 0 < k < |states| && StepTo(before, logs, first, states, actions, k)
    ensures OkAfter([first], start, states, actions, 0) && PendingAfter(before, n, min, states, k - 1, h) ==>
              PendingAfter(logs, n, min, states, k, h)
  {
    LogsUpTo(before, first, start, states, actions, k - 1);
    if OkAfter([first], start, states, actions, 0) {
      OnePendingStep(before, logs, start, states, actions, k - 1, n, min, h);
    }
  }

  lemma OnePendingStep(before: seq<Log>, logs: seq<Log>, start: Start, states: seq<State>, actions: seq<Action>, k: nat,
                    n: nat, min: nat, h: nat)
    requires Run(states, actions) && k < |actions| && AfterStep(before, logs, states, actions, k)
    requires OkAfter(before, start, states, actions, k)
    ensures PendingAfter(before, n, min, states, k, h) ==> PendingAfter(logs, n, min, states, k + 1, h)
  {
    var s, a, t := StepOf(states, actions, k);
    if PendingAfter(before, n, min, states, k, h) {
      PendingStep(before, logs, s, a, t, n, min, h);
    }
  }

  /** The logs of now that the MANIFEST of moment `j` asks for are the last ones of the list, and hold
      exactly what has been written and was not in a table at moment `j`. */
  lemma PendingLogs(logs: seq<Log>, first: Log, start: Start, states: seq<State>, actions: seq<Action>, j: nat, k: nat)
    returns (n: nat)
    requires Run(states, actions) && Starts(start, states[0]) && OpensWith(start, first, states[0])
    requires j <= k < |states| && LogsHold(logs, first, states, actions, k)
    ensures Counts(states[j]) && FlushedAt(states[j]) <= |states[k].history|
    ensures Pending(logs, n, MinLog(start, states, actions, j), states[k].history[FlushedAt(states[j])..])
  {
    FirstLogs(first, start, states, actions, 0);
    var earlier := LogsAt(logs, first, states, actions, j, k);
    LogsUpTo(earlier, first, start, states, actions, j);
    n := PendingNow(earlier, start, states, actions, j);
    var min := MinLog(start, states, actions, j);
    PendingUpTo(earlier, logs, first, start, states, actions, j, k, n, min, FlushedAt(states[j]));
  }

  lemma PendingNow(logs: seq<Log>, start: Start, states: seq<State>, actions: seq<Action>, j: nat) returns (n: nat)
    requires j <= |actions| < |states| && OkAfter(logs, start, states, actions, j)
    ensures Counts(states[j])
    ensures PendingAfter(logs, n, MinLog(start, states, actions, j), states, j, FlushedAt(states[j]))
  {
    n := FirstPending(logs, states[j]);
  }

  /** A new database, whether its MANIFEST is the one `NewDB` wrote or the one its first opening began,
      is one from which a run may start. */
  lemma NewDatabaseStarts(start: Start, log: Log)
    requires log == Log(3, []) && (start == NewDb(3) || start == Reopened(3, 3, EMPTY, []))
    ensures Recoverable(Init()) && Starts(start, Init()) && OpensWith(start, log, Init())
  {
    InitIsRecoverable();
    if start.Reopened? {
      NothingInstalled();
    }
  }

  lemma NothingInstalled()
    ensures EMPTY == Init().levels && SortedLevels(EMPTY) && Installed(EMPTY, TablesEdit([]), EMPTY)
    ensures NumbersOk(Init().(levels := EMPTY, nextFile := 3))
  {
    assert forall l: nat | l < NUM_LEVELS :: EMPTY[l] == [];
  }
}
