/** The database iterator (db/db_iter.cc) over a sorted run of internal entries acts as a
    cursor on the visible user keys, across every change of direction. */
module DbIter {
  import opened Keys
  import opened Cursors
  import Merger

  /** Entry `i` is what a reader at `snapshot` sees for its user key. */
  ghost predicate VisibleAt(es: seq<Entry>, snapshot: nat, i: nat) {
    && i < |es| && es[i].key.kind == Value && es[i].key.seqno <= snapshot
    && forall j | 0 <= j < i && es[j].key.user == es[i].key.user :: es[j].key.seqno > snapshot
  }

  /** The indices below `n` of visible entries: the user's view, in key order. */
  ghost function View(es: seq<Entry>, snapshot: nat, n: nat): (v: seq<nat>)
    requires n <= |es|
    ensures forall k | 0 <= k < |v| :: v[k] < n
  {
    if n == 0 then []
    else View(es, snapshot, n - 1) + if VisibleAt(es, snapshot, n - 1) then [n - 1] else []
  }

  lemma {:induction false} ViewIs(es: seq<Entry>, snapshot: nat, n: nat)
    requires n <= |es|
    ensures forall i: nat :: i in View(es, snapshot, n) <==> i < n && VisibleAt(es, snapshot, i)
    ensures forall k, l | 0 <= k < l < |View(es, snapshot, n)| :: View(es, snapshot, n)[k] < View(es, snapshot, n)[l]
  {
    if n > 0 {
      ViewIs(es, snapshot, n - 1);
    }
  }

  /** The view shows an entry exactly when a point lookup of its user key finds it, as a value. */
  lemma ViewIsLookup(es: seq<Entry>, snapshot: nat, i: nat)
    requires Sorted(es) && i < |es|
    ensures VisibleAt(es, snapshot, i) <==>
            es[i].key.kind == Value && Find(es, es[i].key.user, snapshot) == Some(es[i])
  {
    var key := LookupKey(es[i].key.user, snapshot);
    var n := LowerBound(es, key);
    forall j | 0 <= j < |es| && es[j].key.user == es[i].key.user
      ensures es[j].key.seqno <= snapshot <==> n <= j
    {
      assert n < j ==> Less(es[n].key, es[j].key);
      assert j < n ==> Less(es[j].key, key);
    }
    if n < |es| && n < i {
      assert Less(es[n].key, es[i].key);
    }
  }

  /** The view is in strictly increasing order of user keys. */
  lemma ViewIsSorted(es: seq<Entry>, snapshot: nat, k: nat, l: nat)
    requires Sorted(es) && k < l < |View(es, snapshot, |es|)|
    ensures es[View(es, snapshot, |es|)[k]].key.user < es[View(es, snapshot, |es|)[l]].key.user
  {
    var v := View(es, snapshot, |es|);
    ViewIs(es, snapshot, |es|);
    assert v[k] in v && v[l] in v;
    assert Less(es[v[k]].key, es[v[l]].key);
  }

  /** The position in the view of the first visible entry from index `i` on. */
  ghost function Rank(es: seq<Entry>, snapshot: nat, i: nat): (r: nat)
    requires i <= |es|
  {
    |View(es, snapshot, i)|
  }

  lemma {:induction false} RankOf(es: seq<Entry>, snapshot: nat, i: nat, n: nat)
    requires i <= n <= |es|
    ensures Rank(es, snapshot, i) <= Rank(es, snapshot, n)
    ensures View(es, snapshot, n)[..Rank(es, snapshot, i)] == View(es, snapshot, i)
    ensures i < n && VisibleAt(es, snapshot, i) ==>
              Rank(es, snapshot, i) < Rank(es, snapshot, n) && View(es, snapshot, n)[Rank(es, snapshot, i)] == i
  {
    if i < n {
      RankOf(es, snapshot, i, n - 1);
    }
  }

  ghost predicate NoneVisible(es: seq<Entry>, snapshot: nat, i: nat, n: nat)
    requires n <= |es|
  {
    forall v | i <= v < n :: !VisibleAt(es, snapshot, v)
  }

  lemma {:induction false} RankGap(es: seq<Entry>, snapshot: nat, i: nat, n: nat)
    requires i <= n <= |es| && NoneVisible(es, snapshot, i, n)
    ensures Rank(es, snapshot, i) == Rank(es, snapshot, n)
  {
    if i < n {
      RankGap(es, snapshot, i, n - 1);
    }
  }

  /** What the skip key says about the entries from index `p` on, when the first visible entry
      wanted is the first from index `from` on. */
  ghost predicate Skips(es: seq<Entry>, snapshot: nat, p: nat, from: nat, skipping: bool, skip: UserKey) {
    // entries hidden by one already passed are skipped
    && (forall j, i | 0 <= j < p <= i < |es| && es[j].key.user == es[i].key.user && es[j].key.seqno <= snapshot ::
          skipping && es[i].key.user <= skip)
    // the only entries before `from` not newer than the snapshot are visible ones, and skipped
    && (forall i | p <= i < from && i < |es| && es[i].key.seqno <= snapshot ::
          VisibleAt(es, snapshot, i) && skipping && es[i].key.user <= skip)
    // visible entries from `from` on are still ahead, and not skipped
    && (forall v | from <= v && VisibleAt(es, snapshot, v) :: p <= v && (skipping ==> skip < es[v].key.user))
  }

  /** One round of the forward loop: it stops exactly at a visible entry that is wanted, and
      otherwise keeps what the skip key says. */
  lemma SkipStep(es: seq<Entry>, snapshot: nat, p: nat, from: nat, skipping: bool, skip: UserKey)
    requires Sorted(es) && p < |es| && Skips(es, snapshot, p, from, skipping, skip)
    ensures es[p].key.seqno > snapshot ==> Skips(es, snapshot, p + 1, from, skipping, skip)
    ensures es[p].key.seqno <= snapshot && es[p].key.kind == Deletion ==>
              Skips(es, snapshot, p + 1, from, true, es[p].key.user)
    ensures es[p].key.seqno <= snapshot && es[p].key.kind == Value ==>
              if skipping && es[p].key.user <= skip then Skips(es, snapshot, p + 1, from, skipping, skip)
              else from <= p && VisibleAt(es, snapshot, p)
  {
    forall i | p < i < |es|
      ensures es[p].key.user <= es[i].key.user
    {
      assert Less(es[p].key, es[i].key);
    }
    forall j | 0 <= j < p
      ensures es[j].key.user <= es[p].key.user
    {
      assert Less(es[j].key, es[p].key);
    }
  }

  datatype Direction = Forward | Reverse

  class DBIter {
    const iter: Merger.MergingIterator
    const sequence: nat
    var savedKey: UserKey
    var savedValue: Bytes
    var direction: Direction
    var valid: bool
    /** The position in the view; its length when the iterator is not valid. */
    ghost var pos: nat

    ghost function FullView(): seq<nat> {
      View(iter.merged, sequence, |iter.merged|)
    }

    ghost predicate Valid()
      reads this, iter, iter.children
    {
      && iter.Valid() && pos <= |FullView()| && (valid <==> pos < |FullView()|)
      && (valid && direction == Forward ==> iter.pos == FullView()[pos])
      && (valid && direction == Reverse ==> Behind(FullView()[pos]))
    }

    /** In reverse, the inner iterator is before all visible entries of the current key; entries
        newer than the snapshot may lie between it and the entry shown. */
    ghost predicate Behind(m: nat)
      reads this, iter, iter.children
    {
      && AfterIter() <= m < |iter.merged| && savedKey == iter.merged[m].key.user && savedValue == iter.merged[m].value
      && (iter.AtEntry() ==> iter.pos < |iter.merged| && StopsBefore(iter.merged[iter.pos], sequence, savedKey))
      && forall i | AfterIter() <= i < m :: iter.merged[i].key.seqno > sequence
    }

    constructor (iter: Merger.MergingIterator, sequence: nat)
      requires iter.Valid()
      ensures Valid() && !valid && this.iter == iter && this.sequence == sequence
    {
      this.iter, this.sequence := iter, sequence;
      savedKey, savedValue, direction, valid := 0.0, [], Forward, false;
      pos := |View(iter.merged, sequence, |iter.merged|)|;
    }

    function Key(): UserKey
      requires Valid() && valid
      reads this, iter, iter.children
      ensures Key() == iter.merged[FullView()[pos]].key.user
    {
      if direction == Forward then
        RankBound(pos);
        iter.Current().key.user
      else savedKey
    }

    function ValueShown(): Bytes
      requires Valid() && valid
      reads this, iter, iter.children
      ensures ValueShown() == iter.merged[FullView()[pos]].value
    {
      if direction == Forward then
        RankBound(pos);
        iter.Current().value
      else savedValue
    }

    lemma RankBound(p: nat)
      requires p < |FullView()|
      ensures FullView()[p] < |iter.merged| && VisibleAt(iter.merged, sequence, FullView()[p])
      ensures Rank(iter.merged, sequence, FullView()[p]) == p
    {
      var es, n := iter.merged, |iter.merged|;
      var view := View(es, sequence, n);
      ViewIs(es, sequence, n);
      assert view[p] in view;
      RankOf(es, sequence, view[p], n);
      assert view[Rank(es, sequence, view[p])] == view[p];
    }

    /** Moves forward to the first visible entry from index `from` on. */
    method FindNextUserEntry(skipping0: bool, skip0: UserKey, ghost from: nat)
      requires iter.Valid() && iter.AtEntry() && direction == Forward && from <= |iter.merged|
      requires Skips(iter.merged, sequence, iter.pos, from, skipping0, skip0)
      modifies this`valid, this`pos, this`savedKey, iter, iter.children
      ensures Valid() && direction == Forward && pos == Rank(iter.merged, sequence, from)
    {
      var skipping, skip, found := skipping0, skip0, false;
      ghost var es := iter.merged;
      while !found && iter.AtEntry()
        invariant direction == Forward && if found then Valid() else iter.Valid()
        invariant if found then pos == Rank(es, sequence, from) else Skips(es, sequence, iter.pos, from, skipping, skip)
        decreases !found, |es| - iter.pos
      {
        found, skipping, skip := FindRound(skipping, skip, from);
      }
      if !found {
        valid, savedKey := false, 0.0;
        RankGap(es, sequence, from, |es|);
        pos := |FullView()|;
      }
    }

    /** One round of the forward loop: it shows the entry at hand, or passes it. */
    method FindRound(skipping0: bool, skip0: UserKey, ghost from: nat)
      returns (found: bool, skipping: bool, skip: UserKey)
      requires iter.Valid() && iter.AtEntry() && direction == Forward && from <= |iter.merged|
      requires Skips(iter.merged, sequence, iter.pos, from, skipping0, skip0)
      modifies this`valid, this`pos, this`savedKey, iter, iter.children
      ensures if found then Valid() && pos == Rank(iter.merged, sequence, from)
              else iter.Valid() && iter.pos > old(iter.pos) && Skips(iter.merged, sequence, iter.pos, from, skipping, skip)
    {
      var e := iter.Current();
      SkipStep(iter.merged, sequence, iter.pos, from, skipping0, skip0);
      found, skipping, skip := false, skipping0, skip0;
      if e.key.seqno <= sequence && e.key.kind == Deletion {
        skip, skipping := e.key.user, true;
      } else if e.key.seqno <= sequence && !(skipping && e.key.user <= skip) {
        found := true;
        Show(from);
        return;
      }
      iter.Next();
    }

    /** Shows the entry the inner iterator is at, the first visible one from index `from` on. */
    method Show(ghost from: nat)
      requires iter.Valid() && iter.AtEntry() && direction == Forward && from <= iter.pos
      requires VisibleAt(iter.merged, sequence, iter.pos)
      requires NoneVisible(iter.merged, sequence, from, iter.pos)
      modifies this`valid, this`pos, this`savedKey
      ensures Valid() && direction == Forward && pos == Rank(iter.merged, sequence, from)
    {
      ghost var es := iter.merged;
      RankGap(es, sequence, from, iter.pos);
      RankOf(es, sequence, iter.pos, |es|);
      valid, savedKey := true, 0.0;
      pos := Rank(es, sequence, iter.pos);
    }

    method Seek(target: UserKey)
      requires Valid() && sequence <= MAX_SEQUENCE
      modifies this, iter, iter.children
      ensures Valid() && direction == Forward
      ensures forall k | 0 <= k < |FullView()| :: k < pos <==> iter.merged[FullView()[k]].key.user < target
    {
      direction, savedValue := Forward, [];
      iter.Seek(LookupKey(target, sequence));
      ghost var es, from := iter.merged, iter.pos;
      SeekSkips(es, sequence, target);
      if iter.AtEntry() {
        FindNextUserEntry(false, savedKey, from);
      } else {
        valid := false;
        pos := |FullView()|;
      }
      forall k | 0 <= k < |FullView()|
        ensures k < pos <==> es[FullView()[k]].key.user < target
      {
        RankBound(k);
        RankOf(es, sequence, from, |es|);
        var i := FullView()[k];
        if i < from {
          RankOf(es, sequence, i, from);
        } else {
          RankOf(es, sequence, from, i);
        }
      }
    }

    method SeekToFirst()
      requires Valid()
      modifies this, iter, iter.children
      ensures Valid() && direction == Forward && pos == 0
    {
      direction, savedValue := Forward, [];
      iter.SeekToFirst();
      if iter.AtEntry() {
        FindNextUserEntry(false, savedKey, 0);
      } else {
        valid := false;
        pos := 0;
      }
    }

    method Next()
      requires Valid() && valid
      modifies this, iter, iter.children
      ensures Valid() && pos == old(pos) + 1
    {
      ghost var m := FullView()[pos];
      RankBound(pos);
      RankOf(iter.merged, sequence, m, m + 1);
      FaceForward(m);
      FindNextUserEntry(true, savedKey, m + 1);
    }

    /** Stands at or before the entry shown, ready to skip the entries of its user key. */
    method FaceForward(ghost m: nat)
      requires iter.Valid() && VisibleAt(iter.merged, sequence, m)
      requires if direction == Forward then iter.AtEntry() && iter.pos == m else Behind(m)
      modifies this`direction, this`savedKey, iter, iter.children
      ensures iter.Valid() && iter.AtEntry() && direction == Forward
      ensures Skips(iter.merged, sequence, iter.pos, m + 1, true, savedKey)
    {
      if direction == Reverse {
        TurnForward(m);
      } else {
        BeforeVisible(iter.merged, sequence, m);
        savedKey := iter.Current().key.user;
      }
      NextSkips(iter.merged, sequence, iter.pos, m);
    }

    /** From the reverse position, back to where the entries of the current key begin. */
    method TurnForward(ghost m: nat)
      requires iter.Valid() && Behind(m) && VisibleAt(iter.merged, sequence, m)
      modifies this`direction, iter, iter.children
      ensures iter.Valid() && direction == Forward && iter.AtEntry() && iter.pos <= m
      ensures savedKey == iter.merged[m].key.user
      ensures forall i | iter.pos <= i < m :: iter.merged[i].key.seqno > sequence
      ensures forall j | 0 <= j < iter.pos && iter.merged[j].key.seqno <= sequence :: iter.merged[j].key.user < savedKey
    {
      direction := Forward;
      BeforeVisible(iter.merged, sequence, m);
      if !iter.AtEntry() {
        iter.SeekToFirst();
      } else {
        iter.Next();
      }
    }

    method SeekToLast()
      requires Valid()
      modifies this, iter, iter.children
      ensures Valid() && pos == Back(|FullView()|, |FullView()|)
    {
      direction, savedValue := Reverse, [];
      iter.SeekToLast();
      FindPrevUserEntry(|iter.merged|);
    }

    method Prev()
      requires Valid() && valid
      modifies this, iter, iter.children
      ensures Valid() && pos == Back(|FullView()|, old(pos))
    {
      ghost var m := FullView()[pos];
      RankBound(pos);
      if direction == Forward {
        TurnBack(m);
        if !iter.AtEntry() {
          valid := false;
          savedKey, savedValue := 0.0, [];
          RankGap(iter.merged, sequence, 0, m);
          pos := |FullView()|;
          return;
        }
        direction := Reverse;
      }
      RankGap(iter.merged, sequence, AfterIter(), m);
      FindPrevUserEntry(AfterIter());
    }

    /** From the forward position, back to before the entries of the current key. */
    method TurnBack(ghost m: nat)
      requires iter.Valid() && iter.AtEntry() && iter.pos == m && VisibleAt(iter.merged, sequence, m)
      modifies this`savedKey, iter, iter.children
      ensures iter.Valid() && AfterIter() <= m
      ensures NoneVisible(iter.merged, sequence, AfterIter(), m)
    {
      ghost var es := iter.merged;
      savedKey := iter.Current().key.user;
      StepBack();
      while iter.AtEntry() && iter.Current().key.user >= savedKey
        invariant iter.Valid() && AfterIter() <= m && savedKey == es[m].key.user
        invariant NoneVisible(es, sequence, AfterIter(), m)
        decreases AfterIter()
      {
        HiddenBefore(es, sequence, iter.pos, m);
        StepBack();
      }
    }

    /** Moves backward to the last visible entry below index `q`, just after which the inner
        iterator stands. */
    method FindPrevUserEntry(ghost q: nat)
      requires iter.Valid() && direction == Reverse && q <= |iter.merged|
      requires if iter.AtEntry() then q == iter.pos + 1 else q == 0
      modifies this`valid, this`pos, this`savedKey, this`savedValue, this`direction, iter, iter.children
      ensures Valid() && Rank(iter.merged, sequence, q) <= |FullView()|
      ensures pos == Back(|FullView()|, Rank(iter.merged, sequence, q))
    {
      var valueType;
      ghost var saved;
      valueType, saved := ScanBackward(q);
      ShowSaved(q, valueType, saved);
    }

    /** Shows what the backward loop holds when it has stopped. */
    method ShowSaved(ghost q: nat, valueType: Kind, ghost saved: Saved)
      requires iter.Valid() && direction == Reverse && Scanned(iter.merged, sequence, AfterIter(), q, saved)
      requires valueType == saved.kind && savedKey == saved.user && savedValue == saved.value
      requires iter.AtEntry() ==> Stops(iter.Current(), sequence, saved)
      modifies this`valid, this`pos, this`savedKey, this`savedValue, this`direction
      ensures Valid() && Rank(iter.merged, sequence, q) <= |FullView()|
      ensures pos == Back(|FullView()|, Rank(iter.merged, sequence, q))
    {
      ghost var es := iter.merged;
      SavedShows(es, sequence, AfterIter(), q, saved);
      if valueType == Deletion {
        valid, direction := false, Forward;
        savedKey, savedValue := 0.0, [];
        pos := |FullView()|;
      } else {
        valid := true;
        pos := Rank(es, sequence, saved.at);
      }
    }

    /** The index just after the inner iterator; 0 when it ran off the front. */
    ghost function AfterIter(): nat
      reads iter, iter.children
    {
      if iter.AtEntry() then iter.pos + 1 else 0
    }

    /** The backward loop: it stops before the entries of the value it holds. */
    method ScanBackward(ghost q: nat) returns (valueType: Kind, ghost saved: Saved)
      requires iter.Valid() && AfterIter() == q
      modifies this`savedKey, this`savedValue, iter, iter.children
      ensures iter.Valid() && Scanned(iter.merged, sequence, AfterIter(), q, saved)
      ensures valueType == saved.kind && savedKey == saved.user && savedValue == saved.value
      ensures iter.AtEntry() ==> Stops(iter.Current(), sequence, saved)
    {
      valueType := Deletion;
      saved := Saved(Deletion, savedKey, savedValue, 0);
      var more := true;
      while more && iter.AtEntry()
        invariant iter.Valid()
        invariant valueType == saved.kind && savedKey == saved.user && savedValue == saved.value
        invariant Scanned(iter.merged, sequence, AfterIter(), q, saved)
        invariant !more ==> iter.AtEntry() && Stops(iter.Current(), sequence, saved)
        decreases more, AfterIter()
      {
        more, valueType, saved := ScanRound(q, valueType, saved);
      }
    }

    /** One round of the backward loop, unless it stops at the entry at hand. */
    method ScanRound(ghost q: nat, was: Kind, ghost saved: Saved)
      returns (more: bool, valueType: Kind, ghost now: Saved)
      requires iter.Valid() && iter.AtEntry() && Scanned(iter.merged, sequence, AfterIter(), q, saved)
      requires was == saved.kind && savedKey == saved.user && savedValue == saved.value
      modifies this`savedKey, this`savedValue, iter, iter.children
      ensures iter.Valid() && Scanned(iter.merged, sequence, AfterIter(), q, now)
      ensures valueType == now.kind && savedKey == now.user && savedValue == now.value
      ensures if more then AfterIter() < old(AfterIter()) else iter.AtEntry() && Stops(iter.Current(), sequence, now)
    {
      var e := iter.Current();
      more, valueType, now := true, was, saved;
      if e.key.seqno <= sequence && was != Deletion && e.key.user < savedKey {
        more := false;
        return;
      }
      ScanStep(iter.merged, sequence, iter.pos, q, saved);
      valueType, now := Save(e, was, iter.pos, saved);
      StepBack();
    }

    method StepBack()
      requires iter.Valid() && iter.AtEntry()
      modifies iter, iter.children
      ensures iter.Valid() && AfterIter() == old(iter.pos)
    {
      iter.Prev();
    }

    /** Holds the entry if the snapshot sees it. */
    method Save(e: Entry, was: Kind, ghost p: nat, ghost saved: Saved) returns (valueType: Kind, ghost now: Saved)
      requires was == saved.kind && savedKey == saved.user && savedValue == saved.value
      modifies this`savedKey, this`savedValue
      ensures now == AfterRound(e, p, sequence, saved)
      ensures valueType == now.kind && savedKey == now.user && savedValue == now.value
    {
      valueType, now := was, AfterRound(e, p, sequence, saved);
      if e.key.seqno <= sequence {
        valueType := e.key.kind;
        if valueType == Deletion {
          savedKey, savedValue := 0.0, [];
        } else {
          savedKey, savedValue := e.key.user, e.value;
        }
      }
    }
  }

  /** What the backward scan holds: a value and its place, or nothing after a deletion. */
  datatype Saved = Saved(kind: Kind, user: UserKey, value: Bytes, at: nat)

  ghost predicate Stops(e: Entry, snapshot: nat, saved: Saved) {
    saved.kind == Value && StopsBefore(e, snapshot, saved.user)
  }

  ghost predicate StopsBefore(e: Entry, snapshot: nat, user: UserKey) {
    e.key.seqno <= snapshot && e.key.user < user
  }

  /** What is held after entry `e` at index `p`. */
  ghost function AfterRound(e: Entry, p: nat, snapshot: nat, saved: Saved): Saved {
    if e.key.seqno > snapshot then saved
    else if e.key.kind == Deletion then Saved(Deletion, 0.0, [], 0)
    else Saved(Value, e.key.user, e.value, p)
  }

  /** The backward scan has read the entries from `p` up to `q`: a value it holds is the
      earliest entry read that is not newer than the snapshot, and everything visible that it
      read is that entry. */
  ghost predicate Scanned(es: seq<Entry>, snapshot: nat, p: nat, q: nat, saved: Saved) {
    && p <= q <= |es|
    && (saved.kind == Deletion ==>
          forall v | p <= v < q :: es[v].key.seqno <= snapshot ==> PassedDeletion(es, snapshot, p, v))
    && (saved.kind == Value ==>
          && p <= saved.at < q && es[saved.at] == Entry(InternalKey(saved.user, es[saved.at].key.seqno, Value), saved.value)
          && es[saved.at].key.seqno <= snapshot
          && (forall i | p <= i < saved.at :: es[i].key.seqno > snapshot)
          && forall v | saved.at < v < q && es[v].key.seqno <= snapshot ::
               es[v].key.user == saved.user || PassedDeletion(es, snapshot, p, v))
  }

  /** A deletion marker not newer than the snapshot, at or before `v`, hides the entry `v`. */
  ghost predicate PassedDeletion(es: seq<Entry>, snapshot: nat, p: nat, v: nat)
    requires v < |es|
  {
    exists j :: p <= j <= v && es[j].key.user == es[v].key.user && es[j].key.seqno <= snapshot && es[j].key.kind == Deletion
  }

  /** One round of the backward loop that does not stop. */
  lemma ScanStep(es: seq<Entry>, snapshot: nat, p: nat, q: nat, saved: Saved)
    requires Sorted(es) && p < q && Scanned(es, snapshot, p + 1, q, saved) && !Stops(es[p], snapshot, saved)
    ensures Scanned(es, snapshot, p, q, AfterRound(es[p], p, snapshot, saved))
  {
    if es[p].key.seqno > snapshot {
      ScanNewer(es, snapshot, p, q, saved);
    } else if es[p].key.kind == Deletion {
      ScanDeletion(es, snapshot, p, q, saved);
    } else {
      ScanValue(es, snapshot, p, q, saved);
    }
  }

  /** An entry newer than the snapshot changes nothing. */
  lemma ScanNewer(es: seq<Entry>, snapshot: nat, p: nat, q: nat, saved: Saved)
    requires p < q && Scanned(es, snapshot, p + 1, q, saved) && es[p].key.seqno > snapshot
    ensures Scanned(es, snapshot, p, q, saved)
  {
    assert forall v | p < v < q && PassedDeletion(es, snapshot, p + 1, v) :: PassedDeletion(es, snapshot, p, v);
  }

  /** A deletion marker clears what was saved. */
  lemma ScanDeletion(es: seq<Entry>, snapshot: nat, p: nat, q: nat, saved: Saved)
    requires Sorted(es) && p < q && Scanned(es, snapshot, p + 1, q, saved) && !Stops(es[p], snapshot, saved)
    requires es[p].key.seqno <= snapshot && es[p].key.kind == Deletion
    ensures Scanned(es, snapshot, p, q, Saved(Deletion, 0.0, [], 0))
  {
    forall v | p <= v < q && es[v].key.seqno <= snapshot
      ensures PassedDeletion(es, snapshot, p, v)
    {
      if p < v {
        PassedEntry(es, snapshot, p, q, saved, v);
      }
    }
  }

  /** A value takes the place of what was saved. */
  lemma ScanValue(es: seq<Entry>, snapshot: nat, p: nat, q: nat, saved: Saved)
    requires Sorted(es) && p < q && Scanned(es, snapshot, p + 1, q, saved) && !Stops(es[p], snapshot, saved)
    requires es[p].key.seqno <= snapshot && es[p].key.kind == Value
    ensures Scanned(es, snapshot, p, q, Saved(Value, es[p].key.user, es[p].value, p))
  {
    forall v | p < v < q && es[v].key.seqno <= snapshot
      ensures es[v].key.user == es[p].key.user || PassedDeletion(es, snapshot, p, v)
    {
      PassedEntry(es, snapshot, p, q, saved, v);
    }
  }

  /** An entry the scan has passed shares the user key of entry `p`, or a marker hides it. */
  lemma PassedEntry(es: seq<Entry>, snapshot: nat, p: nat, q: nat, saved: Saved, v: nat)
    requires Sorted(es) && p < v < q && Scanned(es, snapshot, p + 1, q, saved)
    requires es[p].key.seqno <= snapshot && !Stops(es[p], snapshot, saved) && es[v].key.seqno <= snapshot
    ensures es[v].key.user == es[p].key.user || PassedDeletion(es, snapshot, p, v)
  {
    if PassedDeletion(es, snapshot, p + 1, v) {
      assert PassedDeletion(es, snapshot, p, v);
    } else {
      assert saved.kind == Value && Less(es[p].key, es[saved.at].key);
      assert es[v].key.user == saved.user;
    }
  }

  lemma ScanResult(es: seq<Entry>, snapshot: nat, p: nat, q: nat, saved: Saved)
    requires Sorted(es) && Scanned(es, snapshot, p, q, saved)
    requires p == 0 || (p - 1 < |es| && Stops(es[p - 1], snapshot, saved))
    ensures saved.kind == Deletion ==> Rank(es, snapshot, q) == 0
    ensures saved.kind == Value ==> VisibleAt(es, snapshot, saved.at) && Rank(es, snapshot, q) == Rank(es, snapshot, saved.at) + 1
  {
    ScanHides(es, snapshot, p, q, saved);
    if saved.kind == Deletion {
      RankGap(es, snapshot, 0, q);
    } else {
      ScanVisible(es, snapshot, p, q, saved);
      RankOf(es, snapshot, saved.at, saved.at + 1);
      RankGap(es, snapshot, saved.at + 1, q);
    }
  }

  /** Where the backward scan stops, the entry held is the last visible one before where it began,
      and the scan stands before all entries of its user key that the snapshot sees. */
  lemma SavedShows(es: seq<Entry>, snapshot: nat, p: nat, q: nat, saved: Saved)
    requires Sorted(es) && Scanned(es, snapshot, p, q, saved)
    requires p == 0 || (p - 1 < |es| && Stops(es[p - 1], snapshot, saved))
    ensures var view := View(es, snapshot, |es|);
            && Rank(es, snapshot, q) <= |view| && (saved.kind == Deletion ==> Rank(es, snapshot, q) == 0)
            && (saved.kind == Value ==>
                  var r := Rank(es, snapshot, saved.at);
                  && Rank(es, snapshot, q) == r + 1 && r < |view| && view[r] == saved.at
                  && saved.user == es[saved.at].key.user && saved.value == es[saved.at].value
                  && p <= saved.at && forall i | p <= i < saved.at :: es[i].key.seqno > snapshot)
  {
    RankOf(es, snapshot, q, |es|);
    ScanResult(es, snapshot, p, q, saved);
    if saved.kind == Value {
      RankOf(es, snapshot, saved.at, |es|);
    }
  }

  /** Nothing visible lies between the entry saved, if any, and where the scan began. */
  lemma ScanHides(es: seq<Entry>, snapshot: nat, p: nat, q: nat, saved: Saved)
    requires Scanned(es, snapshot, p, q, saved)
    ensures forall v | (if saved.kind == Value then saved.at < v else p <= v) && v < q :: !VisibleAt(es, snapshot, v)
  {
    forall v: nat | (if saved.kind == Value then saved.at < v else p <= v) && v < q
      ensures !VisibleAt(es, snapshot, v)
    {
      if PassedDeletion(es, snapshot, p, v) {
        var j :| p <= j <= v && es[j].key.user == es[v].key.user && es[j].key.seqno <= snapshot && es[j].key.kind == Deletion;
        Hides(es, snapshot, j, v);
      } else if es[v].key.seqno <= snapshot {
        Hides(es, snapshot, saved.at, v);
      }
    }
  }

  lemma Hides(es: seq<Entry>, snapshot: nat, j: nat, v: nat)
    requires j <= v < |es| && es[j].key.user == es[v].key.user && es[j].key.seqno <= snapshot
    ensures VisibleAt(es, snapshot, v) ==> j == v && es[j].key.kind == Value
  {
  }

  lemma ScanVisible(es: seq<Entry>, snapshot: nat, p: nat, q: nat, saved: Saved)
    requires Sorted(es) && Scanned(es, snapshot, p, q, saved) && saved.kind == Value
    requires p == 0 || (p - 1 < |es| && es[p - 1].key.user < saved.user)
    ensures VisibleAt(es, snapshot, saved.at)
  {
    forall j | 0 <= j < p
      ensures es[j].key.user < es[saved.at].key.user
    {
      assert j < p - 1 ==> Less(es[j].key, es[p - 1].key);
    }
  }

  /** Entries before a visible one with its user key, or a greater one, are not visible. */
  lemma HiddenBefore(es: seq<Entry>, snapshot: nat, p: nat, m: nat)
    requires Sorted(es) && p < m < |es| && VisibleAt(es, snapshot, m) && es[p].key.user >= es[m].key.user
    ensures !VisibleAt(es, snapshot, p)
    ensures NoneVisible(es, snapshot, p + 1, m) ==> NoneVisible(es, snapshot, p, m)
  {
    BeforeVisible(es, snapshot, m);
  }

  /** Entries before a visible one that are not newer than the snapshot have smaller user keys. */
  lemma BeforeVisible(es: seq<Entry>, snapshot: nat, m: nat)
    requires Sorted(es) && VisibleAt(es, snapshot, m)
    ensures forall j | 0 <= j < m && es[j].key.seqno <= snapshot :: es[j].key.user < es[m].key.user
    ensures forall j | 0 <= j < m && es[j].key.user >= es[m].key.user :: !VisibleAt(es, snapshot, j)
  {
    forall j | 0 <= j < m
      ensures es[j].key.user <= es[m].key.user
    {
      assert Less(es[j].key, es[m].key);
    }
  }

  lemma SeekSkips(es: seq<Entry>, snapshot: nat, target: UserKey)
    requires Sorted(es)
    ensures var p := LowerBound(es, LookupKey(target, snapshot));
            && (forall skip :: Skips(es, snapshot, p, p, false, skip))
            && forall v: nat | VisibleAt(es, snapshot, v) :: v < p <==> es[v].key.user < target
  {
    var p := LowerBound(es, LookupKey(target, snapshot));
    forall i | p <= i < |es|
      ensures !Less(es[i].key, LookupKey(target, snapshot))
    {
      assert p < i ==> Less(es[p].key, es[i].key);
    }
  }

  /** Stepping on from the visible entry `m`, from anywhere the reverse scan may have left the
      inner iterator. */
  lemma NextSkips(es: seq<Entry>, snapshot: nat, p: nat, m: nat)
    requires Sorted(es) && VisibleAt(es, snapshot, m) && p <= m
    requires forall i | p <= i < m :: es[i].key.seqno > snapshot
    requires forall j | 0 <= j < p && es[j].key.seqno <= snapshot :: es[j].key.user < es[m].key.user
    ensures Skips(es, snapshot, p, m + 1, true, es[m].key.user)
  {
    forall i | m < i < |es|
      ensures es[m].key.user <= es[i].key.user
    {
      assert Less(es[m].key, es[i].key);
    }
    forall i | p <= i < m
      ensures es[i].key.user <= es[m].key.user
    {
      assert Less(es[i].key, es[m].key);
    }
  }
}
