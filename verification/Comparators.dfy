/** Byte-string keys: the bytewise order, internal keys under it, and the shortened keys of an
    index block (util/comparator.cc, db/dbformat.cc). */
module Comparators {
  import opened Keys
  import opened Coding
  import opened BlockFormat

  const SEEK_TAG: nat := MAX_SEQUENCE * 256 + 1
  const TAG_SIZE: nat := 8

  // ------------------------------------------------------------- bytewise order

  /** The first difference decides; a proper prefix is smaller. */
  predicate Smaller(a: Bytes, b: Bytes) {
    if a == [] || b == [] then a == [] && b != []
    else if a[0] != b[0] then a[0] < b[0]
    else Smaller(a[1..], b[1..])
  }

  /** A string as a fraction in base 257, so that the real order is the bytewise order; `tail`
      breaks ties between equal strings. */
  function RankWith(s: Bytes, tail: real): (r: real)
    requires 0.0 <= tail < 1.0
    ensures 0.0 <= r < 1.0
  {
    if s == [] then tail / 257.0 else ((s[0] as int + 1) as real + RankWith(s[1..], tail)) / 257.0
  }

  function ByteRank(s: Bytes): UserKey {
    RankWith(s, 0.0)
  }

  lemma {:induction false} RankIsOrder(a: Bytes, x: real, b: Bytes, y: real)
    requires 0.0 <= x < 1.0 && 0.0 <= y < 1.0
    ensures RankWith(a, x) < RankWith(b, y) <==> Smaller(a, b) || (a == b && x < y)
    ensures RankWith(a, x) == RankWith(b, y) <==> a == b && x == y
  {
    if a != [] && b != [] {
      RankIsOrder(a[1..], x, b[1..], y);
      assert a[0] == b[0] && a[1..] == b[1..] ==> a == [a[0]] + a[1..] == [b[0]] + b[1..] == b;
    }
  }

  lemma BeforeIsRank(a: Bytes, b: Bytes)
    ensures Smaller(a, b) <==> ByteRank(a) < ByteRank(b)
    ensures a == b <==> ByteRank(a) == ByteRank(b)
  {
    RankIsOrder(a, 0.0, b, 0.0);
  }

  /** Where two strings first differ decides. */
  lemma {:induction false} BeforeAt(a: Bytes, b: Bytes, n: nat)
    requires n <= |a| && n < |b| && a[..n] == b[..n] && (n < |a| ==> a[n] < b[n])
    ensures Smaller(a, b)
  {
    if n > 0 {
      assert a[0] == a[..n][0] && b[0] == b[..n][0];
      assert a[1..][..n - 1] == a[..n][1..] && b[1..][..n - 1] == b[..n][1..];
      BeforeAt(a[1..], b[1..], n - 1);
    }
  }

  // ------------------------------------------------------------ shortening keys

  function Separator(start: Bytes, limit: Bytes): Bytes {
    var n := Common(start, limit);
    if n < |start| && n < |limit| && start[n] < 255 && start[n] + 1 < limit[n]
    then start[..n] + [start[n] + 1]
    else start
  }

  /** The separator lies from `start` on, and before a `limit` that `start` lies before. */
  lemma SeparatorIsBetween(start: Bytes, limit: Bytes)
    ensures var r := Separator(start, limit);
            |r| <= |start| && (r != start ==> Smaller(start, r) && Smaller(r, limit))
  {
    var r, n := Separator(start, limit), Common(start, limit);
    if r != start {
      assert start[..n] == r[..n] == limit[..n];
      BeforeAt(start, r, n);
      BeforeAt(r, limit, n);
    }
  }

  /** When the separator is another string, and how long it is then. */
  lemma SeparatorShortens(start: Bytes, limit: Bytes)
    ensures var n, r := Common(start, limit), Separator(start, limit);
            && (r != start <==> n < |start| && n < |limit| && start[n] as int + 1 < limit[n] as int)
            && (r != start ==> |r| == n + 1)
  {
    var n, r := Common(start, limit), Separator(start, limit);
    assert r != start ==> r[n] == start[n] + 1;
    if n < |start| && n < |limit| && start[n] as int + 1 < limit[n] as int {
      assert r[n] != start[n];
    }
  }

  /** Then it is a shortest of all strings between the two, and the first of those. */
  lemma SeparatorIsShortest(start: Bytes, limit: Bytes, s: Bytes)
    requires Separator(start, limit) != start && Smaller(start, s) && Smaller(s, limit)
    ensures var r := Separator(start, limit); |r| < |s| || (|r| == |s| && !Smaller(s, r))
  {
    SeparatorShortens(start, limit);
    var n, r := Common(start, limit), Separator(start, limit);
    BetweenAgrees(start, limit, s, n);
    if |s| == n + 1 && Smaller(s, r) {
      AfterAt(start, s, n);
      AfterAt(s, r, n);
    }
  }

  /** What lies between two strings starts as they both do, and goes on. */
  lemma {:induction false} BetweenAgrees(start: Bytes, limit: Bytes, s: Bytes, n: nat)
    requires n <= |start| && n <= |limit| && start[..n] == limit[..n] && Smaller(start, s) && Smaller(s, limit)
    ensures n < |s| && s[..n] == start[..n]
    decreases n
  {
    if n > 0 {
      assert start[..n][0] == limit[..n][0] && start[1..][..n - 1] == start[..n][1..] && limit[1..][..n - 1] == limit[..n][1..];
      BetweenAgrees(start[1..], limit[1..], s[1..], n - 1);
      assert s[..n] == [s[0]] + s[1..][..n - 1] && start[..n] == [start[0]] + start[1..][..n - 1];
    }
  }

  /** Two strings that agree up to byte `n`, the last of both, or go on. */
  lemma {:induction false} AfterAt(a: Bytes, b: Bytes, n: nat)
    requires n < |a| && |b| == n + 1 && a[..n] == b[..n] && Smaller(a, b)
    ensures a[n] < b[n]
    decreases n
  {
    if n > 0 {
      assert a[..n][0] == b[..n][0] && a[1..][..n - 1] == a[..n][1..] && b[1..][..n - 1] == b[..n][1..];
      AfterAt(a[1..], b[1..], n - 1);
    }
  }

  method FindShortestSeparator(start: Bytes, limit: Bytes) returns (r: Bytes)
    ensures r == Separator(start, limit)
  {
    r := start;
    var diff := CommonPrefix(start, limit);
    if diff < |start| && diff < |limit| {
      var b := start[diff];
      if b < 255 && b + 1 < limit[diff] {
        r := r[diff := b + 1];
        r := r[..diff + 1];
      }
    }
  }

  /** Number of leading 255 bytes. */
  function Full(key: Bytes): (n: nat)
    ensures n <= |key| && (n < |key| ==> key[n] < 255) && forall i | 0 <= i < n :: key[i] == 255
  {
    if key != [] && key[0] == 255 then 1 + Full(key[1..]) else 0
  }

  function Successor(key: Bytes): Bytes {
    var n := Full(key);
    if n < |key| then key[..n] + [key[n] + 1] else key
  }

  lemma SuccessorIsAfter(key: Bytes)
    ensures var r := Successor(key); |r| <= |key| && (r != key ==> Smaller(key, r))
  {
    var r, n := Successor(key), Full(key);
    if r != key {
      assert key[..n] == r[..n];
      BeforeAt(key, r, n);
    }
  }

  /** It is another string unless all bytes are 255, and then a shortest of all strings after the
      key, and the first of those. */
  lemma SuccessorIsShortest(key: Bytes, s: Bytes)
    requires Smaller(key, s)
    ensures Successor(key) == key <==> forall i | 0 <= i < |key| :: key[i] == 255
    ensures Successor(key) != key ==>
              var r := Successor(key); |r| < |s| || (|r| == |s| && !Smaller(s, r))
  {
    var r, n := Successor(key), Full(key);
    if n < |key| {
      assert r[n] != key[n];
      AfterFull(key, s, n);
      if |s| == n + 1 && Smaller(s, r) {
        AfterAt(key, s, n);
        AfterAt(s, r, n);
      }
    }
  }

  /** What comes after leading 255 bytes has them too, and goes on. */
  lemma {:induction false} AfterFull(key: Bytes, s: Bytes, n: nat)
    requires n <= |key| && (forall i | 0 <= i < n :: key[i] == 255) && Smaller(key, s)
    ensures n < |s| && s[..n] == key[..n]
    decreases n
  {
    if n > 0 {
      AfterFull(key[1..], s[1..], n - 1);
      assert s[..n] == [s[0]] + s[1..][..n - 1] && key[..n] == [key[0]] + key[1..][..n - 1];
    }
  }

  method FindShortSuccessor(key: Bytes) returns (r: Bytes)
    ensures r == Successor(key)
  {
    r := key;
    for i := 0 to |key|
      invariant r == key && forall j | 0 <= j < i :: key[j] == 255
    {
      if key[i] != 255 {
        r := r[i := key[i] + 1];
        r := r[..i + 1];
        assert Full(key) == i;
        return;
      }
    }
  }

  // --------------------------------------------------------------- internal keys

  /** User key, then eight bytes of sequence number and kind. */
  predicate IsInternal(k: Bytes) {
    |k| >= TAG_SIZE
  }

  function UserOf(k: Bytes): Bytes
    requires IsInternal(k)
  {
    k[..|k| - TAG_SIZE]
  }

  function TagOf(k: Bytes): (tag: nat)
    requires IsInternal(k)
    ensures tag < TWO_64
  {
    FromFixedBound(k[|k| - TAG_SIZE..]);
    Power256Of8();
    FromFixed(k[|k| - TAG_SIZE..])
  }

  lemma {:induction false} FromFixedBound(b: Bytes)
    ensures FromFixed(b) < Power256(|b|)
  {
    if b != [] {
      FromFixedBound(b[1..]);
    }
  }

  lemma Power256Of8()
    ensures Power256(8) == TWO_64
  {
    assert Power256(2) == 0x1_0000 && Power256(4) == 0x1_0000 * Power256(2);
    assert Power256(6) == 0x1_0000 * Power256(4) && Power256(8) == 0x1_0000 * Power256(6);
  }

  function Encode(user: Bytes, tag: nat): Bytes {
    user + Fixed(tag, TAG_SIZE)
  }

  lemma EncodeParts(user: Bytes, tag: nat)
    requires tag < TWO_64
    ensures IsInternal(Encode(user, tag)) && UserOf(Encode(user, tag)) == user && TagOf(Encode(user, tag)) == tag
  {
    assert Encode(user, tag)[|user|..] == Fixed(tag, TAG_SIZE);
    Fixed64(tag);
  }

  /** User key up, tag down. */
  predicate InternalBefore(a: Bytes, b: Bytes)
    requires IsInternal(a) && IsInternal(b)
  {
    Smaller(UserOf(a), UserOf(b)) || (UserOf(a) == UserOf(b) && TagOf(a) > TagOf(b))
  }

  /** Later tags come first, so the tail of the rank falls as the tag rises. */
  function TagRank(tag: nat): (r: real)
    requires tag < TWO_64
    ensures 0.0 <= r < 1.0
  {
    (TWO_64 - 1 - tag) as real / (TWO_64 as real)
  }

  function InternalRank(k: Bytes): real {
    if IsInternal(k) then RankWith(UserOf(k), TagRank(TagOf(k))) else 0.0
  }

  lemma InternalRankIsOrder(a: Bytes, b: Bytes)
    requires IsInternal(a) && IsInternal(b)
    ensures InternalBefore(a, b) <==> InternalRank(a) < InternalRank(b)
  {
    RankIsOrder(UserOf(a), TagRank(TagOf(a)), UserOf(b), TagRank(TagOf(b)));
  }

  method InternalCompare(a: Bytes, b: Bytes) returns (r: int)
    requires IsInternal(a) && IsInternal(b)
    ensures r < 0 <==> InternalBefore(a, b)
    ensures r > 0 <==> InternalBefore(b, a)
  {
    r := Compare(UserOf(a), UserOf(b));
    BeforeIsRank(UserOf(a), UserOf(b));
    BeforeIsRank(UserOf(b), UserOf(a));
    if r == 0 {
      var aNum, bNum := FromFixed(a[|a| - TAG_SIZE..]), FromFixed(b[|b| - TAG_SIZE..]);
      if aNum > bNum {
        r := -1;
      } else if aNum < bNum {
        r := 1;
      }
    }
  }

  method Compare(a: Bytes, b: Bytes) returns (r: int)
    ensures r < 0 <==> Smaller(a, b)
    ensures r > 0 <==> Smaller(b, a)
    ensures r == 0 <==> a == b
  {
    var n := CommonPrefix(a, b);
    BeforeIsRank(a, b);
    BeforeIsRank(b, a);
    if n < |a| && n < |b| {
      r := a[n] as int - b[n] as int;
      if r < 0 {
        BeforeAt(a, b, n);
      } else {
        BeforeAt(b, a, n);
      }
    } else if n == |a| && n == |b| {
      r := 0;
      assert a == a[..n] && b == b[..n];
    } else if n == |a| {
      r := -1;
      BeforeAt(a, b, n);
    } else {
      r := 1;
      BeforeAt(b, a, n);
    }
  }

  function InternalSeparator(start: Bytes, limit: Bytes): (r: Bytes)
    ensures IsInternal(start) ==> IsInternal(r)
  {
    if !IsInternal(start) || !IsInternal(limit) then start else
    var tmp := Separator(UserOf(start), UserOf(limit));
    if |tmp| < |UserOf(start)| && Smaller(UserOf(start), tmp) then Encode(tmp, SEEK_TAG) else start
  }

  function InternalSuccessor(key: Bytes): (r: Bytes)
    ensures IsInternal(key) ==> IsInternal(r)
  {
    if !IsInternal(key) then key else
    var tmp := Successor(UserOf(key));
    if |tmp| < |UserOf(key)| && Smaller(UserOf(key), tmp) then Encode(tmp, SEEK_TAG) else key
  }

  method FindInternalSeparator(start: Bytes, limit: Bytes) returns (r: Bytes)
    requires IsInternal(start) && IsInternal(limit)
    ensures r == InternalSeparator(start, limit)
  {
    var tmp := FindShortestSeparator(UserOf(start), UserOf(limit));
    var order := Compare(UserOf(start), tmp);
    r := if |tmp| < |UserOf(start)| && order < 0 then tmp + Fixed(SEEK_TAG, TAG_SIZE) else start;
  }

  method FindInternalSuccessor(key: Bytes) returns (r: Bytes)
    requires IsInternal(key)
    ensures r == InternalSuccessor(key)
  {
    var tmp := FindShortSuccessor(UserOf(key));
    var order := Compare(UserOf(key), tmp);
    r := if |tmp| < |UserOf(key)| && order < 0 then tmp + Fixed(SEEK_TAG, TAG_SIZE) else key;
  }

  /** An internal key is shortened exactly when its user key gets shorter; then it comes before all
      entries of the shorter user key. */
  lemma InternalShortens(start: Bytes, limit: Bytes)
    requires IsInternal(start) && IsInternal(limit)
    ensures var user, r := Separator(UserOf(start), UserOf(limit)), InternalSeparator(start, limit);
            if |user| < |UserOf(start)| then |r| < |start| && UserOf(r) == user && TagOf(r) == SEEK_TAG else r == start
    ensures var user, r := Successor(UserOf(start)), InternalSuccessor(start);
            if |user| < |UserOf(start)| then |r| < |start| && UserOf(r) == user && TagOf(r) == SEEK_TAG else r == start
  {
    SeparatorIsBetween(UserOf(start), UserOf(limit));
    EncodeParts(Separator(UserOf(start), UserOf(limit)), SEEK_TAG);
    SuccessorIsAfter(UserOf(start));
    EncodeParts(Successor(UserOf(start)), SEEK_TAG);
  }

  // ------------------------------------------------------- what tables rely on

  /** A comparator as tables use it: the order as a rank, shortened keys, and the part of a key
      that lookups compare. */
  datatype Comparator = Comparator(rank: Bytes -> real, separator: (Bytes, Bytes) -> Bytes, successor: Bytes -> Bytes,
                                   user: Bytes -> Bytes)

  ghost predicate SeparatorOk(c: Comparator, start: Bytes, limit: Bytes) {
    c.rank(start) < c.rank(limit) ==> c.rank(start) <= c.rank(c.separator(start, limit)) < c.rank(limit)
  }

  ghost predicate SuccessorOk(c: Comparator, key: Bytes) {
    c.rank(key) <= c.rank(c.successor(key))
  }

  /** Between `start` and its separator there is no key for which an entry from `limit` on counts. */
  ghost predicate HidesNothing(c: Comparator, start: Bytes, limit: Bytes, k: Bytes, e: Bytes) {
    c.rank(start) < c.rank(limit) <= c.rank(e) && c.rank(start) < c.rank(k) <= c.rank(c.separator(start, limit))
    ==> c.user(k) != c.user(e)
  }

  ghost predicate Contract(c: Comparator) {
    && (forall start, limit :: SeparatorOk(c, start, limit))
    && (forall key :: SuccessorOk(c, key))
    && (forall start, limit, k, e :: HidesNothing(c, start, limit, k, e))
  }

  type Order = c: Comparator | Contract(c) witness BytewiseOrder()

  /** Plain byte strings, compared whole. */
  function BytewiseOrder(): (c: Comparator)
    ensures Contract(c)
  {
    BytewiseContract();
    Bytewise()
  }

  function Bytewise(): Comparator {
    Comparator(ByteRank, Separator, Successor, (k: Bytes) => k)
  }

  lemma BytewiseContract()
    ensures Contract(Bytewise())
  {
    var c := Bytewise();
    forall start, limit
      ensures SeparatorOk(c, start, limit)
    {
      SeparatorIsBetween(start, limit);
      BeforeIsRank(start, Separator(start, limit));
      BeforeIsRank(Separator(start, limit), limit);
    }
    forall key
      ensures SuccessorOk(c, key)
    {
      SuccessorIsAfter(key);
      BeforeIsRank(key, Successor(key));
    }
    forall start, limit, k, e
      ensures HidesNothing(c, start, limit, k, e)
    {
      assert SeparatorOk(c, start, limit);
    }
  }

  /** Internal keys, of which lookups compare the user key. */
  function InternalOrder(): (c: Order)
    ensures c == Internal()
  {
    InternalContract();
    Internal()
  }

  function Internal(): Comparator {
    Comparator(InternalRank, InternalSeparator, InternalSuccessor, UserPart)
  }

  function UserPart(k: Bytes): Bytes {
    if IsInternal(k) then UserOf(k) else k
  }

  // ---------------------------------------------------- under any user comparator

  /** A user comparator: its order, as a rank that leaves room for a tail in [0, 1), which every total
      order of byte strings has; and its shortened keys. */
  datatype UserComparator = UserComparator(rankWith: (Bytes, real) -> real, separator: (Bytes, Bytes) -> Bytes,
                                           successor: Bytes -> Bytes)

  predicate UserBefore(u: UserComparator, a: Bytes, b: Bytes) {
    u.rankWith(a, 0.0) < u.rankWith(b, 0.0)
  }

  ghost predicate RanksAt(u: UserComparator, a: Bytes, x: real, b: Bytes, y: real) {
    0.0 <= x < 1.0 && 0.0 <= y < 1.0 ==>
      0.0 <= u.rankWith(a, x) && (u.rankWith(a, x) < u.rankWith(b, y) <==> UserBefore(u, a, b) || (a == b && x < y))
  }

  /** A separator of keys in order lies between them; equal keys are not changed. */
  ghost predicate SeparatesAt(u: UserComparator, start: Bytes, limit: Bytes) {
    var r := u.separator(start, limit);
    (start == limit ==> r == start) && (UserBefore(u, start, limit) ==> !UserBefore(u, r, start) && UserBefore(u, r, limit))
  }

  ghost predicate SucceedsAt(u: UserComparator, key: Bytes) {
    !UserBefore(u, u.successor(key), key)
  }

  /** What LevelDB asks of a user comparator. */
  ghost predicate UserContract(u: UserComparator) {
    && (forall a, x, b, y :: RanksAt(u, a, x, b, y))
    && (forall start, limit :: SeparatesAt(u, start, limit))
    && (forall key :: SucceedsAt(u, key))
  }

  function RankOf(u: UserComparator, k: Bytes): real {
    if IsInternal(k) then u.rankWith(UserOf(k), TagRank(TagOf(k))) else 0.0
  }

  function SeparatorOf(u: UserComparator, start: Bytes, limit: Bytes): (r: Bytes) {
    if !IsInternal(start) || !IsInternal(limit) then start else
    var tmp := u.separator(UserOf(start), UserOf(limit));
    if |tmp| < |UserOf(start)| && UserBefore(u, UserOf(start), tmp) then Encode(tmp, SEEK_TAG) else start
  }

  function SuccessorOf(u: UserComparator, key: Bytes): (r: Bytes) {
    if !IsInternal(key) then key else
    var tmp := u.successor(UserOf(key));
    if |tmp| < |UserOf(key)| && UserBefore(u, UserOf(key), tmp) then Encode(tmp, SEEK_TAG) else key
  }

  /** The internal key comparator over a user comparator. */
  function InternalOf(u: UserComparator): Comparator {
    Comparator(k => RankOf(u, k), (start, limit) => SeparatorOf(u, start, limit), k => SuccessorOf(u, k), UserPart)
  }

  lemma RankOfIs(u: UserComparator, a: Bytes, b: Bytes)
    requires UserContract(u) && IsInternal(a) && IsInternal(b)
    ensures 0.0 <= RankOf(u, a)
    ensures RankOf(u, a) < RankOf(u, b) <==> UserBefore(u, UserOf(a), UserOf(b)) || (UserOf(a) == UserOf(b) && TagOf(a) > TagOf(b))
  {
    assert RanksAt(u, UserOf(a), TagRank(TagOf(a)), UserOf(b), TagRank(TagOf(b)));
  }

  lemma SeparatorOfIsBetween(u: UserComparator, start: Bytes, limit: Bytes)
    requires UserContract(u) && IsInternal(start) && IsInternal(limit) && RankOf(u, start) < RankOf(u, limit)
    ensures RankOf(u, start) <= RankOf(u, SeparatorOf(u, start, limit)) < RankOf(u, limit)
  {
    var r := SeparatorOf(u, start, limit);
    var tmp := u.separator(UserOf(start), UserOf(limit));
    if r != start {
      assert SeparatesAt(u, UserOf(start), UserOf(limit));
      EncodeParts(tmp, SEEK_TAG);
      RankOfIs(u, start, limit);
      RankOfIs(u, start, r);
      RankOfIs(u, r, limit);
    }
  }

  lemma SuccessorOfIsAfter(u: UserComparator, key: Bytes)
    requires UserContract(u) && IsInternal(key)
    ensures RankOf(u, key) <= RankOf(u, SuccessorOf(u, key))
  {
    var r := SuccessorOf(u, key);
    if r != key {
      EncodeParts(u.successor(UserOf(key)), SEEK_TAG);
      RankOfIs(u, key, r);
    }
  }

  /** A key after `start` and up to the separator has no entry from `limit` on: a lookup that
      the index sends to the block ending with `start` misses nothing in later blocks. */
  lemma SeparatorHidesNothing(u: UserComparator, start: Bytes, limit: Bytes, k: Bytes, e: Bytes)
    requires UserContract(u) && IsInternal(start) && IsInternal(limit) && IsInternal(k) && IsInternal(e)
    requires RankOf(u, start) < RankOf(u, limit) <= RankOf(u, e)
    requires RankOf(u, start) < RankOf(u, k) <= RankOf(u, SeparatorOf(u, start, limit))
    ensures UserOf(k) != UserOf(e)
  {
    var r, tmp := SeparatorOf(u, start, limit), u.separator(UserOf(start), UserOf(limit));
    assert SeparatesAt(u, UserOf(start), UserOf(limit));
    EncodeParts(tmp, SEEK_TAG);
    RankOfIs(u, start, limit);
    RankOfIs(u, r, k);
    RankOfIs(u, e, limit);
  }

  /** Internal keys meet the contract of a comparator whatever the user comparator is. */
  lemma InternalContractOf(u: UserComparator)
    requires UserContract(u)
    ensures Contract(InternalOf(u))
  {
    var c := InternalOf(u);
    forall start, limit
      ensures SeparatorOk(c, start, limit)
    {
      if IsInternal(start) && IsInternal(limit) && RankOf(u, start) < RankOf(u, limit) {
        SeparatorOfIsBetween(u, start, limit);
      }
    }
    forall key
      ensures SuccessorOk(c, key)
    {
      if IsInternal(key) {
        SuccessorOfIsAfter(u, key);
      }
    }
    forall start, limit, k, e
      ensures HidesNothing(c, start, limit, k, e)
    {
      HiddenAt(u, start, limit, k, e);
    }
  }

  lemma HiddenAt(u: UserComparator, start: Bytes, limit: Bytes, k: Bytes, e: Bytes)
    requires UserContract(u)
    ensures HidesNothing(InternalOf(u), start, limit, k, e)
  {
    if IsInternal(start) && IsInternal(limit) {
      RankOfIs(u, start, limit);
      if IsInternal(k) && IsInternal(e) && RankOf(u, start) < RankOf(u, limit) <= RankOf(u, e)
         && RankOf(u, start) < RankOf(u, k) <= RankOf(u, SeparatorOf(u, start, limit)) {
        SeparatorHidesNothing(u, start, limit, k, e);
      }
    }
  }

  // ------------------------------------------------------- and under the bytewise one

  function BytewiseUser(): UserComparator {
    UserComparator((s, x) => if 0.0 <= x < 1.0 then RankWith(s, x) else 0.0, Separator, Successor)
  }

  lemma BytewiseUserContract()
    ensures UserContract(BytewiseUser())
  {
    var u := BytewiseUser();
    forall a, x, b, y
      ensures RanksAt(u, a, x, b, y)
    {
      if 0.0 <= x < 1.0 && 0.0 <= y < 1.0 {
        RankIsOrder(a, x, b, y);
        RankIsOrder(a, 0.0, b, 0.0);
      }
    }
    forall start, limit
      ensures SeparatesAt(u, start, limit)
    {
      SeparatorIsBetween(start, limit);
      BeforeIsRank(start, Separator(start, limit));
      BeforeIsRank(Separator(start, limit), start);
      BeforeIsRank(Separator(start, limit), limit);
    }
    forall key
      ensures SucceedsAt(u, key)
    {
      SuccessorIsAfter(key);
      BeforeIsRank(key, Successor(key));
    }
  }

  lemma BytewiseIs(start: Bytes, limit: Bytes)
    ensures RankOf(BytewiseUser(), start) == InternalRank(start)
    ensures SeparatorOf(BytewiseUser(), start, limit) == InternalSeparator(start, limit)
    ensures SuccessorOf(BytewiseUser(), start) == InternalSuccessor(start)
  {
    if IsInternal(start) && IsInternal(limit) {
      BeforeIsRank(UserOf(start), Separator(UserOf(start), UserOf(limit)));
    }
    if IsInternal(start) {
      BeforeIsRank(UserOf(start), Successor(UserOf(start)));
    }
  }

  /** The shortened key separates the two. */
  lemma InternalSeparatorIsBetween(start: Bytes, limit: Bytes)
    requires IsInternal(start) && IsInternal(limit) && InternalRank(start) < InternalRank(limit)
    ensures InternalRank(start) <= InternalRank(InternalSeparator(start, limit)) < InternalRank(limit)
  {
    BytewiseUserContract();
    BytewiseIs(start, limit);
    BytewiseIs(limit, start);
    BytewiseIs(InternalSeparator(start, limit), limit);
    SeparatorOfIsBetween(BytewiseUser(), start, limit);
  }

  lemma InternalContract()
    ensures Contract(Internal())
  {
    var c, d := Internal(), InternalOf(BytewiseUser());
    BytewiseUserContract();
    InternalContractOf(BytewiseUser());
    forall start, limit
      ensures d.rank(start) == c.rank(start) && d.separator(start, limit) == c.separator(start, limit)
      ensures d.successor(start) == c.successor(start)
    {
      BytewiseIs(start, limit);
    }
    forall start, limit
      ensures SeparatorOk(c, start, limit)
    {
      assert SeparatorOk(d, start, limit);
    }
    forall key
      ensures SuccessorOk(c, key)
    {
      BytewiseIs(key, key);
      BytewiseIs(c.successor(key), key);
      assert SuccessorOk(d, key);
    }
    forall start, limit, k, e
      ensures HidesNothing(c, start, limit, k, e)
    {
      assert HidesNothing(d, start, limit, k, e);
    }
  }
}
