/** The writer queue (Write and BuildBatchGroup in db/db_impl.cc): the writer at the front logs a
    group of queued batches while others keep arriving. */
module GroupCommit {
  import opened Keys
  import Batches

  /** A queued write; without a batch it only forces a memtable switch. */
  datatype Writer = Writer(batch: Option<seq<Batches.Op>>, sync: bool)

  /** How far the leader got. */
  datatype Outcome = Committed | AppendFailed | SyncFailed | InsertFailed

  /** One attempt to log a group: its first sequence number, its writers and their operations. */
  datatype Attempt = Attempt(seqno: nat, ids: seq<nat>, ops: seq<Batches.Op>, sync: bool, outcome: Outcome)

  /** What a writer was told, and by which leader. */
  datatype Ack = Ack(ok: bool, leader: nat)

  datatype Phase =
    | Free
    | Logging(n: nat)
    | Finishing(n: nat, ok: bool, last: nat)

  /** Writers are numbered in order of arrival; those not yet acknowledged are the queue. */
  datatype State = State(arrived: seq<Writer>, acks: seq<Ack>, phase: Phase, attempts: seq<Attempt>,
                         lastSequence: nat, bgError: bool)

  function Queue(s: State): seq<Writer> {
    if |s.acks| <= |s.arrived| then s.arrived[|s.acks|..] else []
  }

  // ----------------------------------------------------------------- the group

  function ByteSize(batch: seq<Batches.Op>): nat {
    Batches.HEADER + |Batches.OpsBytes(batch)|
  }

  function GroupSize(ws: seq<Writer>): nat {
    if ws == [] then 0
    else
      var w := ws[|ws| - 1];
      GroupSize(ws[..|ws| - 1]) + if w.batch.Some? then ByteSize(w.batch.value) else 0
  }

  function MaxSize(size: nat): nat {
    if size <= 0x2_0000 then size + 0x2_0000 else 0x10_0000
  }

  /** The group cannot take writer `i` of the queue. */
  ghost predicate Stops(ws: seq<Writer>, i: nat)
    requires 0 < i < |ws|
  {
    (ws[i].sync && !ws[0].sync) || (ws[i].batch.Some? && GroupSize(ws[..i + 1]) > MaxSize(GroupSize(ws[..1])))
  }

  /** The group is everything up to the first writer it cannot take. */
  ghost predicate IsGroup(ws: seq<Writer>, n: nat) {
    1 <= n <= |ws| && NoneStops(ws, n) && (n < |ws| ==> Stops(ws, n))
  }

  /** None of the writers after the first, up to writer `n`, stops the group. */
  ghost predicate NoneStops(ws: seq<Writer>, n: nat)
    requires n <= |ws|
    decreases n
  {
    n <= 1 || (NoneStops(ws, n - 1) && !Stops(ws, n - 1))
  }

  function OpsOf(ws: seq<Writer>): seq<Batches.Op> {
    if ws == [] then []
    else
      var w := ws[|ws| - 1];
      if w.batch.Some? then OpsOf(ws[..|ws| - 1]) + w.batch.value else OpsOf(ws[..|ws| - 1])
  }

  /** The numbers of those of the writers from `lo` to `hi` that have a batch. */
  function Batched(arrived: seq<Writer>, lo: nat, hi: nat): seq<nat>
    requires lo <= hi <= |arrived|
  {
    if lo == hi then []
    else if arrived[hi - 1].batch.Some? then Batched(arrived, lo, hi - 1) + [hi - 1]
    else Batched(arrived, lo, hi - 1)
  }

  /** The operations of the writers with these numbers, in order. */
  function OpsOfIds(arrived: seq<Writer>, ids: seq<nat>): seq<Batches.Op> {
    if ids == [] then []
    else
      var id := ids[|ids| - 1];
      OpsOfIds(arrived, ids[..|ids| - 1])
      + if id < |arrived| && arrived[id].batch.Some? then arrived[id].batch.value else []
  }

  /** A writer of the group after the leader has a batch. */
  ghost predicate TakesMore(ws: seq<Writer>, n: nat) {
    exists i :: 0 < i < n <= |ws| && ws[i].batch.Some?
  }

  /** Sync writes never join a group whose leader is not one. Batches join a leader of at most 128 KB
      up to 128 KB more, and a larger one up to 1 MB in all. */
  ghost predicate WithinLimits(ws: seq<Writer>, n: nat)
    requires ws != [] && ws[0].batch.Some? && 1 <= n <= |ws|
  {
    var leader := ByteSize(ws[0].batch.value);
    && (forall i | 0 < i < n :: ws[i].sync ==> ws[0].sync)
    && (leader <= 128 * 1024 ==> GroupSize(ws[..n]) <= leader + 128 * 1024)
    && (leader > 128 * 1024 && TakesMore(ws, n) ==> GroupSize(ws[..n]) <= 1024 * 1024)
  }

  /** Whoever may join does. */
  ghost predicate TakesAll(ws: seq<Writer>, n: nat)
    requires ws != [] && ws[0].batch.Some? && 1 <= n <= |ws|
  {
    n < |ws| && (ws[n].sync ==> ws[0].sync) ==>
      var leader, size := ByteSize(ws[0].batch.value), GroupSize(ws[..n + 1]);
      ws[n].batch.Some? && if leader <= 128 * 1024 then size > leader + 128 * 1024 else size > 1024 * 1024
  }

  lemma {:induction false} GroupFits(ws: seq<Writer>, n: nat)
    requires ws != [] && ws[0].batch.Some? && 1 <= n <= |ws| && NoneStops(ws, n)
    ensures WithinLimits(ws, n) && (!TakesMore(ws, n) ==> GroupSize(ws[..n]) == ByteSize(ws[0].batch.value))
    decreases n
  {
    if n == 1 {
      FirstOnly(ws);
    } else {
      GroupFits(ws, n - 1);
      JoinsWithin(ws, n - 1);
    }
  }

  lemma JoinsWithin(ws: seq<Writer>, n: nat)
    requires 1 <= n < |ws| && ws[0].batch.Some? && !Stops(ws, n)
    requires WithinLimits(ws, n) && (!TakesMore(ws, n) ==> GroupSize(ws[..n]) == ByteSize(ws[0].batch.value))
    ensures WithinLimits(ws, n + 1) && (!TakesMore(ws, n + 1) ==> GroupSize(ws[..n + 1]) == ByteSize(ws[0].batch.value))
  {
    FirstOnly(ws);
    OneMore(ws, n);
    TakesOneMore(ws, n);
  }

  lemma TakesOneMore(ws: seq<Writer>, n: nat)
    requires 1 <= n < |ws|
    ensures TakesMore(ws, n + 1) <==> TakesMore(ws, n) || ws[n].batch.Some?
  {
  }

  /** The size of a group is that of the batch it makes, and one more header for each batch taken in. */
  lemma {:induction false} GroupSizeIs(ws: seq<Writer>)
    ensures GroupSize(ws) == |Batches.OpsBytes(OpsOf(ws))| + Batches.HEADER * |Batched(ws, 0, |ws|)|
  {
    if ws != [] {
      var n := |ws| - 1;
      GroupSizeIs(ws[..n]);
      BatchedFront(ws, n, n);
      OpsBytesOf(ws);
    }
  }

  lemma {:induction false} BatchedFront(ws: seq<Writer>, n: nat, k: nat)
    requires k <= n <= |ws|
    ensures Batched(ws[..n], 0, k) == Batched(ws, 0, k)
    decreases k
  {
    if k > 0 {
      BatchedFront(ws, n, k - 1);
    }
  }

  lemma OpsBytesOf(ws: seq<Writer>)
    requires ws != []
    ensures var w, front := ws[|ws| - 1], OpsOf(ws[..|ws| - 1]);
            |Batches.OpsBytes(OpsOf(ws))|
            == |Batches.OpsBytes(front)| + if w.batch.Some? then |Batches.OpsBytes(w.batch.value)| else 0
  {
    var w := ws[|ws| - 1];
    if w.batch.Some? {
      Batches.OpsBytesAppend(OpsOf(ws[..|ws| - 1]), w.batch.value);
    }
  }

  /** Appends batches to the leader's until a writer stops the group. */
  method BuildBatchGroup(ws: seq<Writer>) returns (n: nat, result: seq<Batches.Op>)
    requires ws != [] && ws[0].batch.Some?
    ensures IsGroup(ws, n) && result == OpsOf(ws[..n])
    ensures WithinLimits(ws, n) && TakesAll(ws, n)
  {
    FirstOnly(ws);
    result := ws[0].batch.value;
    var size := ByteSize(result);
    var maxSize := LimitFor(size);
    n := 1;
    while n < |ws|
      invariant 1 <= n <= |ws| && NoneStops(ws, n) && maxSize == MaxSize(GroupSize(ws[..1]))
      invariant result == OpsOf(ws[..n]) && size == GroupSize(ws[..n])
    {
      var stop;
      stop, size, result := AddToGroup(ws, n, maxSize, size, result);
      if stop {
        break;
      }
      n := n + 1;
    }
    GroupFits(ws, n);
  }

  method LimitFor(size: nat) returns (maxSize: nat)
    ensures maxSize == MaxSize(size)
  {
    maxSize := 0x10_0000;
    if size <= 0x2_0000 {
      maxSize := size + 0x2_0000;
    }
  }

  /** One round of the loop: writer `n` joins, or stops the group. */
  method AddToGroup(ws: seq<Writer>, n: nat, maxSize: nat, size: nat, result: seq<Batches.Op>)
    returns (stop: bool, newSize: nat, newResult: seq<Batches.Op>)
    requires 0 < n < |ws| && maxSize == MaxSize(GroupSize(ws[..1]))
    requires result == OpsOf(ws[..n]) && size == GroupSize(ws[..n])
    ensures stop <==> Stops(ws, n)
    ensures if stop then newResult == result else newResult == OpsOf(ws[..n + 1]) && newSize == GroupSize(ws[..n + 1])
  {
    OneMore(ws, n);
    var w := ws[n];
    stop, newSize, newResult := false, size, result;
    if w.sync && !ws[0].sync {
      stop := true;
    } else if w.batch.Some? {
      newSize := size + ByteSize(w.batch.value);
      if newSize > maxSize {
        stop := true;
      } else {
        newResult := result + w.batch.value;
      }
    }
  }

  lemma OneMore(ws: seq<Writer>, n: nat)
    requires n < |ws|
    ensures GroupSize(ws[..n + 1]) == GroupSize(ws[..n]) + if ws[n].batch.Some? then ByteSize(ws[n].batch.value) else 0
    ensures OpsOf(ws[..n + 1]) == if ws[n].batch.Some? then OpsOf(ws[..n]) + ws[n].batch.value else OpsOf(ws[..n])
  {
    assert ws[..n + 1][..n] == ws[..n];
  }

  /** The operations of a group are those of its writers' batches, in order. */
  lemma {:induction false} OpsOfAppend(a: seq<Writer>, b: seq<Writer>)
    ensures OpsOf(a + b) == OpsOf(a) + OpsOf(b)
    ensures forall w: Writer :: OpsOf([w]) == if w.batch.Some? then w.batch.value else []
  {
    forall w: Writer
      ensures OpsOf([w]) == if w.batch.Some? then w.batch.value else []
    {
      assert [w][..0] == [];
    }
    if b == [] {
      assert a + b == a;
    } else {
      var n := |b| - 1;
      OpsOfAppend(a, b[..n]);
      assert (a + b)[..|a + b| - 1] == a + b[..n];
    }
  }

  /** So are those of the writers with given numbers. */
  lemma {:induction false} OpsOfIdsIs(arrived: seq<Writer>, ids: seq<nat>)
    requires forall i | 0 <= i < |ids| :: ids[i] < |arrived|
    ensures OpsOfIds(arrived, ids) == OpsOf(seq(|ids|, i requires 0 <= i < |ids| => arrived[ids[i]]))
  {
    if ids != [] {
      var n := |ids| - 1;
      OpsOfIdsIs(arrived, ids[..n]);
      var ws := seq(|ids|, i requires 0 <= i < |ids| => arrived[ids[i]]);
      assert ws[..n] == seq(n, i requires 0 <= i < n => arrived[ids[..n][i]]);
    }
  }

  lemma FirstOnly(ws: seq<Writer>)
    requires ws != [] && ws[0].batch.Some?
    ensures OpsOf(ws[..1]) == ws[0].batch.value && GroupSize(ws[..1]) == ByteSize(ws[0].batch.value)
  {
    assert ws[..1][..0] == [];
  }

  // ------------------------------------------------------------------ the steps

  datatype Action =
    | Enqueue(w: Writer)
    /** The front writer finds no room, or an earlier error. */
    | NoRoom
    | Lead(n: nat)
    | Log(outcome: Outcome)
    | Finish

  ghost predicate Next(s: State, a: Action, t: State) {
    var queue := Queue(s);
    match a
    case Enqueue(w) => t == s.(arrived := s.arrived + [w])
    case NoRoom =>
      s.phase.Free? && queue != [] && t == s.(phase := Finishing(1, false, s.lastSequence))
    case Lead(n) =>
      && s.phase.Free? && queue != [] && !s.bgError
      && if queue[0].batch.None? then t == s.(phase := Finishing(1, true, s.lastSequence))
         else IsGroup(queue, n) && t == s.(phase := Logging(n))
    case Log(outcome) =>
      && s.phase.Logging? && 0 < s.phase.n <= |queue|
      && (outcome == SyncFailed ==> queue[0].sync)
      && var ops := OpsOf(queue[..s.phase.n]);
         var ids := Batched(s.arrived, |s.acks|, |s.acks| + s.phase.n);
         t == s.(attempts := s.attempts + [Attempt(s.lastSequence + 1, ids, ops, queue[0].sync, outcome)],
                 phase := Finishing(s.phase.n, outcome == Committed, s.lastSequence + |ops|),
                 bgError := s.bgError || outcome == SyncFailed)
    case Finish =>
      && s.phase.Finishing? && s.phase.n <= |queue|
      && t == s.(acks := s.acks + seq(s.phase.n, i => Ack(s.phase.ok, |s.acks|)),
                 lastSequence := s.phase.last, phase := Free)
  }

  // -------------------------------------------------------------- the invariant

  function LastOf(attempts: seq<Attempt>): int {
    if attempts == [] then 0 else attempts[|attempts| - 1].seqno - 1 + |attempts[|attempts| - 1].ops|
  }

  /** The writers that have been acknowledged, or are about to be. */
  function Decided(s: State): nat {
    |s.acks| + if s.phase.Finishing? then s.phase.n else 0
  }

  function StatusOf(s: State, id: nat): bool
    requires id < Decided(s)
  {
    if id < |s.acks| then s.acks[id].ok else s.phase.ok
  }

  function LeaderOf(s: State, id: nat): nat
    requires id < Decided(s)
  {
    if id < |s.acks| then s.acks[id].leader else |s.acks|
  }

  /** Attempt `k` logs writer `id`. */
  ghost predicate Logs(s: State, k: nat, id: nat) {
    k < |s.attempts| && id in s.attempts[k].ids
  }

  /** The groups follow one another in order of arrival, and within a group so do the writers. */
  ghost predicate Ordered(attempts: seq<Attempt>) {
    forall k, l, i, j | 0 <= k <= l < |attempts| && 0 <= i < |attempts[k].ids| && 0 <= j < |attempts[l].ids| ::
      k < l || i < j ==> attempts[k].ids[i] < attempts[l].ids[j]
  }

  /** What an attempt says of a writer it logs. */
  ghost predicate LoggedOk(s: State, a: Attempt, id: nat) {
    && id < Decided(s) <= |s.arrived| && s.arrived[id].batch.Some?
    && (StatusOf(s, id) <==> a.outcome == Committed) && (s.arrived[id].sync ==> a.sync)
  }

  /** Attempts number their operations one after the other, from 1; each logs the batches of its
      writers; none follows a failed sync. */
  ghost predicate AttemptOk(s: State, k: nat)
    requires k < |s.attempts|
  {
    var a := s.attempts[k];
    && a.seqno == 1 + LastOf(s.attempts[..k])
    && (forall j | 0 <= j < |a.ids| :: LoggedOk(s, a, a.ids[j]))
    && a.ops == OpsOfIds(s.arrived, a.ids)
    && (a.outcome == SyncFailed ==> k == |s.attempts| - 1 && s.bgError)
  }

  ghost predicate AttemptsOk(s: State) {
    Ordered(s.attempts) && forall k | 0 <= k < |s.attempts| :: AttemptOk(s, k)
  }

  ghost predicate AckOk(s: State, id: nat)
    requires id < Decided(s)
  {
    && LeaderOf(s, id) <= id < |s.arrived|
    && StatusOf(s, id) == StatusOf(s, LeaderOf(s, id))
    && (s.arrived[id].sync ==> s.arrived[LeaderOf(s, id)].sync)
    && (StatusOf(s, id) && s.arrived[id].batch.Some? ==> exists k :: Logs(s, k, id))
  }

  ghost predicate AcksOk(s: State) {
    forall id: nat | id < Decided(s) :: AckOk(s, id)
  }

  ghost predicate PhaseOk(s: State) {
    && |s.acks| <= |s.arrived|
    && match s.phase
       case Free => LastOf(s.attempts) == s.lastSequence
       case Logging(n) => LastOf(s.attempts) == s.lastSequence && !s.bgError && IsGroupOf(Queue(s), n)
       case Finishing(n, ok, last) => LastOf(s.attempts) == last && s.lastSequence <= last && 1 <= n <= |Queue(s)|
  }

  /** What stays true of a group when more writers arrive. */
  ghost predicate IsGroupOf(ws: seq<Writer>, n: nat) {
    1 <= n <= |ws| && forall i | 0 <= i < n :: ws[i].sync ==> ws[0].sync
  }

  ghost predicate Inv(s: State) {
    PhaseOk(s) && AttemptsOk(s) && AcksOk(s)
  }

  function Init(): State {
    State([], [], Free, [], 0, false)
  }

  /** Increasing numbers from `lo` up to `hi`. */
  ghost predicate Rising(ids: seq<nat>, lo: nat, hi: nat) {
    && (forall i | 0 <= i < |ids| :: lo <= ids[i] < hi)
    && (forall i, j | 0 <= i < j < |ids| :: ids[i] < ids[j])
  }

  ghost predicate HaveBatches(arrived: seq<Writer>, ids: seq<nat>) {
    forall i | 0 <= i < |ids| :: ids[i] < |arrived| && arrived[ids[i]].batch.Some?
  }

  lemma {:induction false} BatchedIs(arrived: seq<Writer>, lo: nat, hi: nat)
    requires lo <= hi <= |arrived|
    ensures Rising(Batched(arrived, lo, hi), lo, hi) && HaveBatches(arrived, Batched(arrived, lo, hi))
  {
    if lo < hi {
      BatchedIs(arrived, lo, hi - 1);
      RisingAppend(arrived, Batched(arrived, lo, hi - 1), lo, hi - 1);
    }
  }

  lemma RisingAppend(arrived: seq<Writer>, ids: seq<nat>, lo: nat, x: nat)
    requires Rising(ids, lo, x) && HaveBatches(arrived, ids) && lo <= x < |arrived|
    ensures Rising(ids, lo, x + 1) && Rising(ids + [x], lo, x + 1)
    ensures arrived[x].batch.Some? ==> HaveBatches(arrived, ids + [x])
  {
  }

  lemma {:induction false} BatchedHas(arrived: seq<Writer>, lo: nat, hi: nat, id: nat)
    requires lo <= id < hi <= |arrived| && arrived[id].batch.Some?
    ensures id in Batched(arrived, lo, hi)
  {
    if id < hi - 1 {
      BatchedHas(arrived, lo, hi - 1, id);
    }
  }

  lemma {:induction false} BatchedOps(arrived: seq<Writer>, lo: nat, hi: nat)
    requires lo <= hi <= |arrived|
    ensures OpsOfIds(arrived, Batched(arrived, lo, hi)) == OpsOf(arrived[lo..hi])
  {
    if lo < hi {
      BatchedOps(arrived, lo, hi - 1);
      OpsOfSlice(arrived, lo, hi);
      BatchedStep(arrived, lo, hi, OpsOf(arrived[lo..hi - 1]));
    }
  }

  lemma BatchedStep(arrived: seq<Writer>, lo: nat, hi: nat, before: seq<Batches.Op>)
    requires lo < hi <= |arrived| && before == OpsOfIds(arrived, Batched(arrived, lo, hi - 1))
    ensures OpsOfIds(arrived, Batched(arrived, lo, hi))
         == if arrived[hi - 1].batch.Some? then before + arrived[hi - 1].batch.value else before
  {
    OneMoreId(arrived, Batched(arrived, lo, hi - 1), hi - 1);
  }

  lemma OpsOfSlice(arrived: seq<Writer>, lo: nat, hi: nat)
    requires lo < hi <= |arrived|
    ensures var w := arrived[hi - 1];
            OpsOf(arrived[lo..hi])
            == if w.batch.Some? then OpsOf(arrived[lo..hi - 1]) + w.batch.value else OpsOf(arrived[lo..hi - 1])
  {
    OpsOfLast(arrived[lo..hi - 1], arrived[hi - 1]);
    assert arrived[lo..hi] == arrived[lo..hi - 1] + [arrived[hi - 1]];
  }

  lemma OpsOfLast(ws: seq<Writer>, w: Writer)
    ensures OpsOf(ws + [w]) == if w.batch.Some? then OpsOf(ws) + w.batch.value else OpsOf(ws)
  {
    assert (ws + [w])[..|ws|] == ws;
  }

  lemma OneMoreId(arrived: seq<Writer>, ids: seq<nat>, id: nat)
    requires id < |arrived|
    ensures arrived[id].batch.Some? ==> OpsOfIds(arrived, ids + [id]) == OpsOfIds(arrived, ids) + arrived[id].batch.value
  {
    assert (ids + [id])[..|ids|] == ids;
  }

  lemma {:induction false} OpsOfIdsGrows(arrived: seq<Writer>, more: seq<Writer>, ids: seq<nat>)
    requires forall i | 0 <= i < |ids| :: ids[i] < |arrived|
    ensures OpsOfIds(arrived + more, ids) == OpsOfIds(arrived, ids)
  {
    if ids != [] {
      OpsOfIdsGrows(arrived, more, ids[..|ids| - 1]);
    }
  }

  /** An attempt stays as it is while nothing already decided changes. */
  lemma AttemptStays(s: State, t: State, k: nat)
    requires k < |s.attempts| && AttemptOk(s, k) && s.attempts <= t.attempts && s.arrived <= t.arrived
    requires Decided(s) <= Decided(t) <= |t.arrived| && forall id | 0 <= id < Decided(s) :: StatusOf(t, id) == StatusOf(s, id)
    requires (s.attempts == t.attempts && (s.bgError ==> t.bgError)) || !s.bgError
    ensures AttemptOk(t, k)
  {
    var a := s.attempts[k];
    assert t.attempts[..k] == s.attempts[..k];
    forall j | 0 <= j < |a.ids|
      ensures LoggedOk(t, a, a.ids[j]) && a.ids[j] < |s.arrived|
    {
      assert LoggedOk(s, a, a.ids[j]);
    }
    assert t.arrived == s.arrived + t.arrived[|s.arrived|..];
    OpsOfIdsGrows(s.arrived, t.arrived[|s.arrived|..], a.ids);
  }

  /** A step that makes no attempt and changes nothing decided. */
  lemma DecidedStays(s: State, t: State)
    requires Inv(s) && PhaseOk(t) && t.attempts == s.attempts && s.arrived <= t.arrived && t.bgError == s.bgError
    requires Decided(s) == Decided(t)
    requires forall id | 0 <= id < Decided(s) :: StatusOf(t, id) == StatusOf(s, id) && LeaderOf(t, id) == LeaderOf(s, id)
    ensures Inv(t)
  {
    forall k | 0 <= k < |t.attempts|
      ensures AttemptOk(t, k)
    {
      AttemptStays(s, t, k);
    }
    forall id: nat | id < Decided(t)
      ensures AckOk(t, id)
    {
      assert AckOk(s, id);
      AckStays(s, t, id);
    }
  }

  lemma EnqueueKeeps(s: State, w: Writer, t: State)
    requires Inv(s) && Next(s, Enqueue(w), t)
    ensures Inv(t)
  {
    assert Queue(t) == Queue(s) + [w];
    DecidedStays(s, t);
  }

  lemma AckStays(s: State, t: State, id: nat)
    requires id < Decided(s) && AckOk(s, id) && id < Decided(t) && s.arrived <= t.arrived && s.attempts <= t.attempts
    requires LeaderOf(t, id) == LeaderOf(s, id) && StatusOf(t, id) == StatusOf(s, id)
    requires StatusOf(t, LeaderOf(s, id)) == StatusOf(s, LeaderOf(s, id))
    ensures AckOk(t, id)
  {
    if StatusOf(s, id) && s.arrived[id].batch.Some? {
      var k :| Logs(s, k, id);
      assert Logs(t, k, id);
    }
  }

  lemma LogKeeps(s: State, outcome: Outcome, t: State)
    requires Inv(s) && Next(s, Log(outcome), t)
    ensures Inv(t)
  {
    LogKeepsAcks(s, outcome, t);
    LogNewAttempt(s, outcome, t);
    LogOldAttempts(s, outcome, t);
    LogKeepsOrder(s, outcome, t);
  }

  lemma LogOldAttempts(s: State, outcome: Outcome, t: State)
    requires PhaseOk(s) && AttemptsOk(s) && Next(s, Log(outcome), t)
    ensures forall k | 0 <= k < |s.attempts| :: AttemptOk(t, k)
  {
    forall k | 0 <= k < |s.attempts|
      ensures AttemptOk(t, k)
    {
      AttemptStays(s, t, k);
    }
  }

  lemma LogKeepsAcks(s: State, outcome: Outcome, t: State)
    requires PhaseOk(s) && AcksOk(s) && Next(s, Log(outcome), t)
    ensures AcksOk(t)
  {
    forall id: nat | id < Decided(t)
      ensures AckOk(t, id)
    {
      if id < |s.acks| {
        LogKeepsAck(s, outcome, t, id);
      } else {
        LogNewAck(s, outcome, t, id);
      }
    }
  }

  lemma LogKeepsAck(s: State, outcome: Outcome, t: State, id: nat)
    requires PhaseOk(s) && AcksOk(s) && Next(s, Log(outcome), t) && id < |s.acks|
    ensures AckOk(t, id)
  {
    assert AckOk(s, id);
    AckStays(s, t, id);
  }

  /** A member of the group just logged. */
  lemma LogNewAck(s: State, outcome: Outcome, t: State, id: nat)
    requires PhaseOk(s) && Next(s, Log(outcome), t) && |s.acks| <= id < Decided(t)
    ensures AckOk(t, id)
  {
    var lo, hi := |s.acks|, |s.acks| + s.phase.n;
    assert s.arrived[id] == Queue(s)[id - lo] && s.arrived[lo] == Queue(s)[0];
    if s.arrived[id].batch.Some? {
      BatchedHas(s.arrived, lo, hi, id);
      assert Logs(t, |s.attempts|, id);
    }
  }

  lemma LogNewAttempt(s: State, outcome: Outcome, t: State)
    requires PhaseOk(s) && Next(s, Log(outcome), t)
    ensures AttemptOk(t, |s.attempts|)
  {
    var lo, hi := |s.acks|, |s.acks| + s.phase.n;
    var a := t.attempts[|s.attempts|];
    assert t.attempts[..|s.attempts|] == s.attempts;
    assert a.ops == OpsOfIds(t.arrived, a.ids) by {
      assert Queue(s)[..s.phase.n] == s.arrived[lo..hi];
      BatchedOps(s.arrived, lo, hi);
    }
    NewAttemptLogs(s, outcome, t);
  }

  lemma NewAttemptLogs(s: State, outcome: Outcome, t: State)
    requires PhaseOk(s) && Next(s, Log(outcome), t)
    ensures var a := t.attempts[|s.attempts|]; forall j | 0 <= j < |a.ids| :: LoggedOk(t, a, a.ids[j])
  {
    var a := t.attempts[|s.attempts|];
    BatchedIs(s.arrived, |s.acks|, |s.acks| + s.phase.n);
    forall j | 0 <= j < |a.ids|
      ensures LoggedOk(t, a, a.ids[j])
    {
      NewlyLogged(s, outcome, t, a.ids[j]);
    }
  }

  lemma NewlyLogged(s: State, outcome: Outcome, t: State, id: nat)
    requires PhaseOk(s) && Next(s, Log(outcome), t)
    requires |s.acks| <= id < |s.acks| + s.phase.n && s.arrived[id].batch.Some?
    ensures LoggedOk(t, t.attempts[|s.attempts|], id)
  {
    assert s.arrived[id] == Queue(s)[id - |s.acks|];
  }

  lemma LogKeepsOrder(s: State, outcome: Outcome, t: State)
    requires PhaseOk(s) && AttemptsOk(s) && Next(s, Log(outcome), t)
    ensures Ordered(t.attempts)
  {
    var n, lo := |s.attempts|, |s.acks|;
    BatchedIs(s.arrived, lo, lo + s.phase.n);
    forall k, i | 0 <= k < n && 0 <= i < |s.attempts[k].ids|
      ensures s.attempts[k].ids[i] < lo
    {
      assert AttemptOk(s, k) && LoggedOk(s, s.attempts[k], s.attempts[k].ids[i]);
    }
    AppendOrdered(s.attempts, t.attempts[n], lo);
  }

  lemma AppendOrdered(attempts: seq<Attempt>, a: Attempt, lo: nat)
    requires Ordered(attempts)
    requires forall k, i | 0 <= k < |attempts| && 0 <= i < |attempts[k].ids| :: attempts[k].ids[i] < lo
    requires exists hi :: Rising(a.ids, lo, hi)
    ensures Ordered(attempts + [a])
  {
  }

  lemma FinishKeeps(s: State, t: State)
    requires Inv(s) && Next(s, Finish, t)
    ensures Inv(t)
  {
    assert forall id: nat | id < |s.acks| :: t.acks[id] == s.acks[id];
    assert forall id: nat | |s.acks| <= id < |t.acks| :: t.acks[id] == Ack(s.phase.ok, |s.acks|);
    DecidedStays(s, t);
  }

  /** The leader alone is decided, without logging anything. */
  lemma DecideAlone(s: State, t: State)
    requires Inv(s) && s.phase.Free? && Queue(s) != [] && t.phase.Finishing?
    requires t == s.(phase := Finishing(1, t.phase.ok, s.lastSequence))
    requires t.phase.ok ==> Queue(s)[0].batch.None?
    ensures Inv(t)
  {
    forall k | 0 <= k < |t.attempts|
      ensures AttemptOk(t, k)
    {
      AttemptStays(s, t, k);
    }
    forall id: nat | id < Decided(t)
      ensures AckOk(t, id)
    {
      if id < |s.acks| {
        assert AckOk(s, id);
        AckStays(s, t, id);
      }
    }
  }

  lemma NextKeepsInv(s: State, a: Action, t: State)
    requires Inv(s) && Next(s, a, t)
    ensures Inv(t) && s.lastSequence <= t.lastSequence && s.acks <= t.acks && s.attempts <= t.attempts
  {
    match a
    case Enqueue(w) => EnqueueKeeps(s, w, t);
    case NoRoom => DecideAlone(s, t);
    case Lead(n) =>
      if Queue(s)[0].batch.None? {
        DecideAlone(s, t);
      } else {
        LeadKeeps(s, n, t);
      }
    case Log(outcome) => LogKeeps(s, outcome, t);
    case Finish => FinishKeeps(s, t);
  }

  lemma LeadKeeps(s: State, n: nat, t: State)
    requires Inv(s) && Next(s, Lead(n), t) && Queue(s)[0].batch.Some?
    ensures Inv(t)
  {
    GroupSyncs(Queue(s), n);
    DecidedStays(s, t);
  }

  lemma {:induction false} GroupSyncs(ws: seq<Writer>, n: nat)
    requires 1 <= n <= |ws| && NoneStops(ws, n)
    ensures IsGroupOf(ws, n)
    decreases n
  {
    if n > 1 {
      GroupSyncs(ws, n - 1);
    }
  }

  // ------------------------------------------------------------------ all runs

  ghost predicate Run(states: seq<State>, actions: seq<Action>) {
    && |states| == |actions| + 1 && states[0] == Init()
    && forall i | 0 <= i < |actions| :: TakesStep(states, actions, i)
  }

  ghost predicate TakesStep(states: seq<State>, actions: seq<Action>, i: nat)
    requires |states| == |actions| + 1 && i < |actions|
  {
    Next(states[i], actions[i], states[i + 1])
  }

  lemma StepKeepsInv(states: seq<State>, actions: seq<Action>, i: nat)
    requires Run(states, actions) && i < |actions| && Inv(states[i])
    ensures Inv(states[i + 1])
    ensures states[i].lastSequence <= states[i + 1].lastSequence && states[i].acks <= states[i + 1].acks
  {
    assert TakesStep(states, actions, i);
    NextKeepsInv(states[i], actions[i], states[i + 1]);
  }

  lemma {:induction false} RunKeepsInv(states: seq<State>, actions: seq<Action>, k: nat)
    requires Run(states, actions) && k < |states|
    ensures Inv(states[k])
  {
    if k > 0 {
      RunKeepsInv(states, actions, k - 1);
      StepKeepsInv(states, actions, k - 1);
    }
  }

  /** All writers logged so far, in log order. */
  function LoggedIds(attempts: seq<Attempt>): seq<nat> {
    if attempts == [] then [] else LoggedIds(attempts[..|attempts| - 1]) + attempts[|attempts| - 1].ids
  }

  lemma {:induction false} LoggedIdsRise(attempts: seq<Attempt>, bound: nat)
    requires Ordered(attempts)
    requires forall k, i | 0 <= k < |attempts| && 0 <= i < |attempts[k].ids| :: attempts[k].ids[i] < bound
    ensures Rising(LoggedIds(attempts), 0, bound)
  {
    if attempts != [] {
      var n := |attempts| - 1;
      var last := attempts[n].ids;
      var first := if last == [] then bound else last[0];
      assert forall k | 0 <= k < n :: attempts[..n][k] == attempts[k];
      LoggedIdsRise(attempts[..n], first);
      var before := LoggedIds(attempts[..n]);
      assert forall i | 0 <= i < |before| :: before[i] < first;
    }
  }

  lemma {:induction false} InLoggedIds(attempts: seq<Attempt>, k: nat, id: nat)
    requires k < |attempts| && id in attempts[k].ids
    ensures id in LoggedIds(attempts)
  {
    if k < |attempts| - 1 {
      InLoggedIds(attempts[..|attempts| - 1], k, id);
    }
  }

  /** In every run, every writer with a batch that was told success is logged exactly once, in
      order of arrival, in an attempt that committed; no other order and no repetition occurs. */
  lemma LoggedOnceInOrder(states: seq<State>, actions: seq<Action>, k: nat)
    requires Run(states, actions) && k < |states|
    ensures var s := states[k];
            && Rising(LoggedIds(s.attempts), 0, |s.arrived|)
            && (forall id | 0 <= id < |s.acks| && id < |s.arrived| && s.acks[id].ok && s.arrived[id].batch.Some? ::
                  id in LoggedIds(s.attempts))
  {
    RunKeepsInv(states, actions, k);
    var s := states[k];
    forall m, i | 0 <= m < |s.attempts| && 0 <= i < |s.attempts[m].ids|
      ensures s.attempts[m].ids[i] < |s.arrived|
    {
      assert AttemptOk(s, m) && LoggedOk(s, s.attempts[m], s.attempts[m].ids[i]);
    }
    LoggedIdsRise(s.attempts, |s.arrived|);
    forall id: nat | id < |s.acks| && id < |s.arrived| && s.acks[id].ok && s.arrived[id].batch.Some?
      ensures id in LoggedIds(s.attempts)
    {
      assert AckOk(s, id);
      var m :| Logs(s, m, id);
      InLoggedIds(s.attempts, m, id);
    }
  }

  /** In every run, attempts take consecutive sequence ranges, whatever became of them; what each
      logs is the batches of its writers one after the other; only the last attempt can have failed
      to sync. */
  lemma RangesAreConsecutive(states: seq<State>, actions: seq<Action>, k: nat, m: nat)
    requires Run(states, actions) && k < |states| && m < |states[k].attempts|
    ensures var s := states[k];
            && s.attempts[m].seqno == 1 + (if m == 0 then 0 else s.attempts[m - 1].seqno - 1 + |s.attempts[m - 1].ops|)
            && s.attempts[m].ops == OpsOfIds(s.arrived, s.attempts[m].ids)
            && (m + 1 < |s.attempts| ==> s.attempts[m].outcome != SyncFailed)
  {
    RunKeepsInv(states, actions, k);
    assert AttemptOk(states[k], m);
  }

  /** In every run, a writer is told what its leader was told; a writer that asked for a sync is
      led by one that asked for it too; and a writer with a batch is told success exactly when an
      attempt that logged it committed, which was synced if the writer asked for it. */
  lemma AcksAreHonest(states: seq<State>, actions: seq<Action>, k: nat, id: nat)
    requires Run(states, actions) && k < |states| && id < |states[k].acks|
    ensures var s := states[k];
            id < |s.arrived| && s.acks[id].leader <= id
            && s.acks[id].ok == s.acks[s.acks[id].leader].ok
            && (s.arrived[id].sync ==> s.arrived[s.acks[id].leader].sync)
            && (s.arrived[id].batch.Some? ==> (s.acks[id].ok <==> exists m: nat :: CommittedBy(s, m, id)))
  {
    RunKeepsInv(states, actions, k);
    var s := states[k];
    assert AckOk(s, id);
    forall m: nat | Logs(s, m, id)
      ensures LoggedOk(s, s.attempts[m], id)
    {
      var ids := s.attempts[m].ids;
      var j :| 0 <= j < |ids| && ids[j] == id;
      assert AttemptOk(s, m) && LoggedOk(s, s.attempts[m], s.attempts[m].ids[j]);
    }
    if s.acks[id].ok && s.arrived[id].batch.Some? {
      var m: nat :| Logs(s, m, id);
      assert CommittedBy(s, m, id);
    }
  }

  ghost predicate CommittedBy(s: State, m: nat, id: nat) {
    Logs(s, m, id) && s.attempts[m].outcome == Committed && (id < |s.arrived| && s.arrived[id].sync ==> s.attempts[m].sync)
  }

  /** In every run, the last sequence number never goes down, and no acknowledgement is taken back. */
  lemma {:induction false} NothingTakenBack(states: seq<State>, actions: seq<Action>, j: nat, k: nat)
    requires Run(states, actions) && j <= k < |states|
    ensures states[j].lastSequence <= states[k].lastSequence && states[j].acks <= states[k].acks
  {
    if j < k {
      NothingTakenBack(states, actions, j, k - 1);
      RunKeepsInv(states, actions, k - 1);
      StepKeepsInv(states, actions, k - 1);
    }
  }

  // ------------------------------------------------------------------ the object

  class WriteQueue {
    var writers: seq<Writer>
    var phase: Phase
    var group: seq<Batches.Op>
    var lastSequence: nat
    var bgError: bool
    ghost var arrived: seq<Writer>
    ghost var acks: seq<Ack>
    ghost var attempts: seq<Attempt>

    ghost function Model(): State
      reads this
    {
      State(arrived, acks, phase, attempts, lastSequence, bgError)
    }

    ghost predicate Valid()
      reads this
    {
      && Inv(Model()) && writers == Queue(Model())
      && (phase.Logging? ==> group == OpsOf(writers[..phase.n]))
    }

    constructor ()
      ensures Valid() && Model() == Init()
    {
      writers, phase, group, lastSequence, bgError := [], Free, [], 0, false;
      arrived, acks, attempts := [], [], [];
    }

    method Enqueue(w: Writer)
      requires Valid()
      modifies this
      ensures Valid() && Next(old(Model()), Action.Enqueue(w), Model())
    {
      writers, arrived := writers + [w], arrived + [w];
      assert phase.Logging? ==> writers[..phase.n] == old(writers)[..phase.n];
      NextKeepsInv(old(Model()), Action.Enqueue(w), Model());
    }

    /** The front writer takes the lead; `room` is whether the memtable has room for it. */
    method Lead(room: bool) returns (ghost a: Action)
      requires Valid() && phase.Free? && writers != [] && (bgError ==> !room)
      modifies this
      ensures Valid() && Next(old(Model()), a, Model()) && if room then a.Lead? else a == NoRoom
    {
      if !room {
        a := NoRoom;
        phase := Finishing(1, false, lastSequence);
      } else if writers[0].batch.None? {
        a := Action.Lead(1);
        phase := Finishing(1, true, lastSequence);
      } else {
        var n;
        n, group := BuildBatchGroup(writers);
        a := Action.Lead(n);
        phase := Logging(n);
      }
      NextKeepsInv(old(Model()), a, Model());
    }

    /** Appends the group to the log and applies it; `outcome` is how that went. */
    method LogGroup(outcome: Outcome)
      requires Valid() && phase.Logging? && (outcome == SyncFailed ==> writers[0].sync)
      modifies this
      ensures Valid() && Next(old(Model()), Log(outcome), Model())
    {
      ghost var ids := Batched(arrived, |acks|, |acks| + phase.n);
      attempts := attempts + [Attempt(lastSequence + 1, ids, group, writers[0].sync, outcome)];
      if outcome == SyncFailed {
        bgError := true;
      }
      phase := Finishing(phase.n, outcome == Committed, lastSequence + |group|);
      NextKeepsInv(old(Model()), Log(outcome), Model());
    }

    /** Pops the whole group off the queue, giving every member the status of the group. */
    method FinishGroup()
      requires Valid() && phase.Finishing?
      modifies this
      ensures Valid() && Next(old(Model()), Finish, Model())
    {
      var n, ok, popped := phase.n, phase.ok, 0;
      ghost var leader := |acks|;
      while popped < n
        invariant 0 <= popped <= n <= |old(writers)| && writers == old(writers)[popped..]
        invariant acks == old(acks) + seq(popped, i => Ack(ok, leader))
        modifies this`writers, this`acks
      {
        writers := writers[1..];
        acks := acks + [Ack(ok, leader)];
        popped := popped + 1;
        assert acks == old(acks) + seq(popped, i => Ack(ok, leader));
      }
      lastSequence := phase.last;
      phase := Free;
      assert Model().acks == old(acks) + seq(n, i => Ack(ok, |old(acks)|));
      NextKeepsInv(old(Model()), Finish, Model());
    }
  }
}
