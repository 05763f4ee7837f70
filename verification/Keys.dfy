/** Internal keys, entries and sorted runs of entries.

    The user comparator is arbitrary in LevelDB. User keys are a countable set, and every
    total order on a countable set embeds in the real line, so a user key is modelled by its
    rank there: two keys compare equal exactly when their ranks are equal. */
module Keys {
  type byte = b: int | 0 <= b < 256
  type Bytes = seq<byte>

  datatype Option<+T> = None | Some(value: T)

  type UserKey = real

  const MAX_SEQUENCE: nat := 0xFF_FFFF_FFFF_FFFF

  datatype Kind = Deletion | Value {
    function Code(): nat { if Value? then 1 else 0 }
  }

  datatype InternalKey = InternalKey(user: UserKey, seqno: nat, kind: Kind) {
    /** The packed trailer of an encoded internal key. */
    function Tag(): nat { seqno * 256 + kind.Code() }
  }

  datatype Entry = Entry(key: InternalKey, value: Bytes)

  /** Increasing user key, then decreasing trailer. */
  predicate Less(a: InternalKey, b: InternalKey) {
    a.user < b.user || (a.user == b.user && a.Tag() > b.Tag())
  }

  lemma LessIsTotal(a: InternalKey, b: InternalKey)
    ensures Less(a, b) || Less(b, a) || a == b
    ensures Less(a, b) ==> !Less(b, a) && a != b
  {
    assert a.Tag() == b.Tag() ==> a.seqno == b.seqno && a.kind == b.kind;
  }

  /** Any two keys compare one way, and comparisons chain: a strict total order. */
  lemma LessIsOrder(a: InternalKey, b: InternalKey, c: InternalKey)
    ensures if Less(a, b) then !Less(b, a) && a != b else if a == b then !Less(b, a) else Less(b, a)
    ensures Less(a, b) && Less(b, c) ==> Less(a, c)
  {
    LessIsTotal(a, b);
  }

  /** The key that sorts before every entry of `user` visible at `snapshot`. */
  function LookupKey(user: UserKey, snapshot: nat): InternalKey {
    InternalKey(user, snapshot, Value)
  }

  ghost predicate Sorted(es: seq<Entry>) {
    forall i, j | 0 <= i < j < |es| :: Less(es[i].key, es[j].key)
  }

  /** Number of leading entries below `target`; in a sorted run, the index of the first entry
      at or after it. */
  function LowerBound(es: seq<Entry>, target: InternalKey): (n: nat)
    ensures n <= |es|
    ensures forall i | 0 <= i < n :: Less(es[i].key, target)
    ensures n < |es| ==> !Less(es[n].key, target)
  {
    if es == [] || !Less(es[0].key, target) then 0
    else 1 + LowerBound(es[1..], target)
  }

  lemma LowerBoundIs(es: seq<Entry>, target: InternalKey, n: nat)
    requires n <= |es|
    requires forall i | 0 <= i < n :: Less(es[i].key, target)
    requires forall i | n <= i < |es| :: !Less(es[i].key, target)
    ensures LowerBound(es, target) == n
  {
    var m := LowerBound(es, target);
    assert m < |es| ==> !Less(es[m].key, target);
    assert n < |es| ==> !Less(es[n].key, target);
  }

  ghost predicate Visible(e: Entry, user: UserKey, snapshot: nat) {
    e.key.user == user && e.key.seqno <= snapshot
  }

  /** `r` is the newest entry of `es` for `user` not newer than `snapshot`, if there is one. */
  ghost predicate IsNewest(es: seq<Entry>, user: UserKey, snapshot: nat, r: Option<Entry>) {
    match r
    case None => forall e | e in es :: !Visible(e, user, snapshot)
    case Some(x) => x in es && Visible(x, user, snapshot)
                    && forall e | e in es && Visible(e, user, snapshot) :: e.key.seqno <= x.key.seqno
  }

  /** Point lookup in one run: seek, then compare the user key of the entry found. */
  function Find(es: seq<Entry>, user: UserKey, snapshot: nat): Option<Entry> {
    var n := LowerBound(es, LookupKey(user, snapshot));
    if n < |es| && es[n].key.user == user then Some(es[n]) else None
  }

  lemma FindIsNewest(es: seq<Entry>, user: UserKey, snapshot: nat)
    requires Sorted(es)
    ensures IsNewest(es, user, snapshot, Find(es, user, snapshot))
  {
    var n := LowerBound(es, LookupKey(user, snapshot));
    forall e | e in es && Visible(e, user, snapshot)
      ensures n < |es| && es[n].key.user == user && e.key.seqno <= es[n].key.seqno
    {
      var i :| 0 <= i < |es| && es[i] == e;
      assert !Less(e.key, LookupKey(user, snapshot));
      assert n <= i;
      assert n < i ==> Less(es[n].key, e.key);
    }
  }

  /** Insertion into a sorted run. */
  function Insert(es: seq<Entry>, e: Entry): seq<Entry> {
    var n := LowerBound(es, e.key);
    es[..n] + [e] + es[n..]
  }

  lemma InsertSorted(es: seq<Entry>, e: Entry)
    requires Sorted(es)
    requires forall x | x in es :: x.key != e.key
    ensures Sorted(Insert(es, e))
    ensures forall x :: x in Insert(es, e) <==> x in es || x == e
  {
    var n := LowerBound(es, e.key);
    forall i | n <= i < |es|
      ensures Less(e.key, es[i].key)
    {
      LessIsTotal(e.key, es[n].key);
      assert es[n] in es;
    }
    PutBetween(es, n, e);
    assert es == es[..n] + es[n..];
  }

  lemma PutBetween(es: seq<Entry>, n: nat, e: Entry)
    requires Sorted(es) && n <= |es|
    requires (forall i | 0 <= i < n :: Less(es[i].key, e.key)) && forall i | n <= i < |es| :: Less(e.key, es[i].key)
    ensures Sorted(es[..n] + [e] + es[n..])
  {
    var r := es[..n] + [e] + es[n..];
    assert forall i | 0 <= i < |r| :: r[i] == if i < n then es[i] else if i == n then e else es[i - 1];
  }

  /** Sorted runs with the same entries are equal. */
  lemma {:induction false} SortedRunsEqual(a: seq<Entry>, b: seq<Entry>)
    requires Sorted(a) && Sorted(b)
    requires forall e :: e in a <==> e in b
    ensures a == b
  {
    assert a != [] ==> a[0] in a;
    assert b != [] ==> b[0] in b;
    if a != [] && b != [] {
      assert a[0] in b && b[0] in a;
      var i :| 0 <= i < |b| && b[i] == a[0];
      var j :| 0 <= j < |a| && a[j] == b[0];
      assert a[0] == b[0];
      forall e
        ensures e in a[1..] <==> e in b[1..]
      {
        if e in a[1..] {
          var m :| 0 <= m < |a[1..]| && a[1..][m] == e;
          assert a[m + 1] in b;
          var k :| 0 <= k < |b| && b[k] == e;
          assert k != 0 && b[1..][k - 1] == e;
        }
        if e in b[1..] {
          var m :| 0 <= m < |b[1..]| && b[1..][m] == e;
          assert b[m + 1] in a;
          var k :| 0 <= k < |a| && a[k] == e;
          assert k != 0 && a[1..][k - 1] == e;
        }
      }
      SortedRunsEqual(a[1..], b[1..]);
      assert a == [a[0]] + a[1..] && b == [b[0]] + b[1..];
    }
  }
}
