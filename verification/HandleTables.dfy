/** The hash table of a cache shard (HandleTable in util/cache.cc): chained buckets that act as a
    map from keys to handles, also while the table grows. */
module HandleTables {
  import opened Keys

  type Key = Bytes

  /** A chain element: a key and the number of the handle stored under it. */
  datatype Item = Item(key: Key, id: nat)

  /** 4, 8, 16 and so on, which makes masking a hash the same as taking its remainder. */
  predicate IsLength(n: nat) {
    n == 4 || (n > 4 && n % 2 == 0 && IsLength(n / 2))
  }

  class HandleTable {
    const hash: Key -> nat
    var buckets: seq<seq<Item>>
    var elems: nat
    ghost var contents: map<Key, nat>

    ghost predicate Valid()
      reads this
    {
      Consistent() && elems <= |buckets|
    }

    /** The chains are the map; there may be more elements than chains, until the table grows. */
    ghost predicate Consistent()
      reads this
    {
      IsLength(|buckets|) && Holds(hash, buckets, contents) && elems == |contents|
    }

    constructor (hash: Key -> nat)
      ensures Valid() && contents == map[] && this.hash == hash
    {
      this.hash := hash;
      buckets, elems, contents := [[], [], [], []], 0, map[];
    }

    /** The place of `key` in its chain; the end of the chain if it is not there. */
    method FindPointer(key: Key) returns (b: nat, i: nat)
      requires Valid()
      ensures b < |buckets| && b == hash(key) % |buckets| && i <= |buckets[b]|
      ensures if key in contents then i < |buckets[b]| && buckets[b][i] == Item(key, contents[key]) else i == |buckets[b]|
    {
      b, i := hash(key) % |buckets|, 0;
      while i < |buckets[b]| && buckets[b][i].key != key
        invariant i <= |buckets[b]| && forall j | 0 <= j < i :: buckets[b][j].key != key
      {
        i := i + 1;
      }
      if key in contents {
        assert Item(key, contents[key]) in buckets[b];
      }
    }

    method Lookup(key: Key) returns (r: Option<nat>)
      requires Valid()
      ensures r == if key in contents then Some(contents[key]) else None
    {
      var b, i := FindPointer(key);
      r := if i < |buckets[b]| then Some(buckets[b][i].id) else None;
    }

    /** Puts the item in the place of the one with its key, if any, which is returned. */
    method Insert(item: Item) returns (previous: Option<nat>)
      requires Valid()
      modifies this
      ensures Valid() && contents == old(contents)[item.key := item.id]
      ensures previous == if item.key in old(contents) then Some(old(contents)[item.key]) else None
    {
      var b, i := FindPointer(item.key);
      ReplaceKeeps(hash, buckets, contents, item, b, i);
      if i < |buckets[b]| {
        previous := Some(buckets[b][i].id);
        buckets := buckets[b := buckets[b][i := item]];
        contents := contents[item.key := item.id];
      } else {
        previous := None;
        buckets := buckets[b := buckets[b] + [item]];
        contents := contents[item.key := item.id];
        elems := elems + 1;
        if elems > |buckets| {
          Resize();
        }
      }
    }

    method Remove(key: Key) returns (r: Option<nat>)
      requires Valid()
      modifies this
      ensures Valid() && contents == old(contents) - {key}
      ensures r == if key in old(contents) then Some(old(contents)[key]) else None
    {
      var b, i := FindPointer(key);
      if i < |buckets[b]| {
        RemoveKeeps(hash, buckets, contents, key, b, i);
        r := Some(buckets[b][i].id);
        buckets := buckets[b := buckets[b][..i] + buckets[b][i + 1..]];
        contents := contents - {key};
        elems := elems - 1;
      } else {
        r := None;
        AbsentStays(contents, key);
      }
    }

    /** Moves every item to the front of its chain in a table of a fitting size. */
    method Resize()
      requires Consistent()
      modifies this`buckets
      ensures Valid()
    {
      var newLength := NewLength(elems);
      var newList: seq<seq<Item>> := seq(newLength, i => []);
      EmptyHolds(hash, newLength);
      var count: nat := 0;
      ghost var moved: map<Key, nat> := map[];
      for i := 0 to |buckets|
        invariant |newList| == newLength && count == |moved| && Holds(hash, newList, moved)
        invariant unchanged(this) && Moving(hash, buckets, contents, moved, i, 0)
      {
        newList, count, moved := MoveChain(i, newList, count, moved);
      }
      AllMoved(hash, buckets, contents, moved);
      assert count == elems;
      buckets := newList;
    }

    method MoveChain(i: nat, newList0: seq<seq<Item>>, count0: nat, ghost moved0: map<Key, nat>)
      returns (newList: seq<seq<Item>>, count: nat, ghost moved: map<Key, nat>)
      requires Consistent() && i < |buckets|
      requires Holds(hash, newList0, moved0) && count0 == |moved0| && Moving(hash, buckets, contents, moved0, i, 0)
      ensures |newList| == |newList0| && Holds(hash, newList, moved) && count == |moved|
      ensures Moving(hash, buckets, contents, moved, i + 1, 0)
    {
      newList, count, moved := newList0, count0, moved0;
      var chain := buckets[i];
      for j := 0 to |chain|
        invariant |newList| == |newList0| && count == |moved| && Holds(hash, newList, moved)
        invariant Moving(hash, buckets, contents, moved, i, j)
      {
        var item := chain[j];
        var b := hash(item.key) % |newList|;
        MoveOne(hash, buckets, contents, moved, i, j, newList);
        newList := newList[b := [item] + newList[b]];
        moved := moved[item.key := item.id];
        count := count + 1;
      }
    }
  }

  method NewLength(elems: nat) returns (n: nat)
    ensures IsLength(n) && (n > 4 ==> n / 2 < elems) && elems <= n
  {
    n := 4;
    while n < elems
      invariant IsLength(n) && (n > 4 ==> n / 2 < elems)
    {
      n := n * 2;
    }
  }

  lemma EmptyHolds(hash: Key -> nat, n: nat)
    requires n > 0
    ensures Holds(hash, seq(n, i => []), map[])
  {
    var bs: seq<seq<Item>> := seq(n, i => []);
    assert forall b | 0 <= b < |bs| :: bs[b] == [];
  }

  ghost predicate DistinctChain(chain: seq<Item>) {
    forall i, j | 0 <= i < j < |chain| :: chain[i].key != chain[j].key
  }

  /** The chains hold exactly the items of `m`, each in its bucket. */
  ghost predicate Holds(hash: Key -> nat, buckets: seq<seq<Item>>, m: map<Key, nat>) {
    && |buckets| > 0
    && (forall b | 0 <= b < |buckets| :: DistinctChain(buckets[b]))
    && (forall b, i | 0 <= b < |buckets| && 0 <= i < |buckets[b]| :: InPlace(hash, |buckets|, m, b, buckets[b][i]))
    && forall key | key in m :: Item(key, m[key]) in buckets[hash(key) % |buckets|]
  }

  ghost predicate InPlace(hash: Key -> nat, length: nat, m: map<Key, nat>, b: nat, item: Item)
    requires length > 0
  {
    hash(item.key) % length == b && item.key in m && m[item.key] == item.id
  }

  lemma ReplaceKeeps(hash: Key -> nat, buckets: seq<seq<Item>>, m: map<Key, nat>, item: Item, b: nat, i: nat)
    requires Holds(hash, buckets, m) && b < |buckets| && b == hash(item.key) % |buckets| && i <= |buckets[b]|
    requires if item.key in m then i < |buckets[b]| && buckets[b][i] == Item(item.key, m[item.key]) else i == |buckets[b]|
    ensures var chain := if i < |buckets[b]| then buckets[b][i := item] else buckets[b] + [item];
            Holds(hash, buckets[b := chain], m[item.key := item.id])
  {
    var chain := if i < |buckets[b]| then buckets[b][i := item] else buckets[b] + [item];
    assert chain[i] == item;
    forall j | 0 <= j < |buckets[b]| && j != i
      ensures buckets[b][j].key != item.key
    {
      assert InPlace(hash, |buckets|, m, b, buckets[b][j]);
    }
    ChainKeeps(hash, buckets, m, m[item.key := item.id], b, chain, item.key);
  }

  lemma RemoveKeeps(hash: Key -> nat, buckets: seq<seq<Item>>, m: map<Key, nat>, key: Key, b: nat, i: nat)
    requires Holds(hash, buckets, m) && b < |buckets| && b == hash(key) % |buckets|
    requires key in m && i < |buckets[b]| && buckets[b][i] == Item(key, m[key])
    ensures Holds(hash, buckets[b := buckets[b][..i] + buckets[b][i + 1..]], m - {key})
    ensures |m - {key}| == |m| - 1
  {
    var chain := buckets[b][..i] + buckets[b][i + 1..];
    SmallerMap(m, key);
    forall j | 0 <= j < |buckets[b]| && j != i
      ensures buckets[b][j] in chain
    {
      assert chain[if j < i then j else j - 1] == buckets[b][j];
    }
    ChainKeeps(hash, buckets, m, m - {key}, b, chain, key);
  }

  lemma AbsentStays(m: map<Key, nat>, key: Key)
    requires key !in m
    ensures m - {key} == m
  {
  }

  lemma SmallerMap(m: map<Key, nat>, key: Key)
    requires key in m
    ensures |m - {key}| == |m| - 1
  {
    assert m == (m - {key})[key := m[key]];
  }

  /** Replacing one chain, when only the binding of one key changes. */
  lemma ChainKeeps(hash: Key -> nat, buckets: seq<seq<Item>>, m: map<Key, nat>, m1: map<Key, nat>, b: nat,
                   chain: seq<Item>, key: Key)
    requires Holds(hash, buckets, m) && b < |buckets| && b == hash(key) % |buckets|
    requires forall k | k != key :: (k in m1 <==> k in m) && (k in m ==> m1[k] == m[k])
    requires DistinctChain(chain)
    requires forall i | 0 <= i < |chain| :: chain[i] in buckets[b] || (chain[i].key == key && key in m1 && m1[key] == chain[i].id)
    requires forall i | 0 <= i < |chain| && chain[i].key == key :: key in m1 && m1[key] == chain[i].id
    requires key in m1 ==> Item(key, m1[key]) in chain
    requires forall i | 0 <= i < |buckets[b]| && buckets[b][i].key != key :: buckets[b][i] in chain
    ensures Holds(hash, buckets[b := chain], m1)
  {
    var bs := buckets[b := chain];
    forall c, i | 0 <= c < |bs| && 0 <= i < |bs[c]|
      ensures InPlace(hash, |bs|, m1, c, bs[c][i])
    {
      if c != b {
        assert InPlace(hash, |buckets|, m, c, buckets[c][i]);
      } else if chain[i].key != key {
        var j :| 0 <= j < |buckets[b]| && buckets[b][j] == chain[i];
        assert InPlace(hash, |buckets|, m, b, buckets[b][j]);
      }
    }
    forall k | k in m1
      ensures Item(k, m1[k]) in bs[hash(k) % |bs|]
    {
      if k != key {
        assert Item(k, m[k]) in buckets[hash(k) % |buckets|];
      }
    }
  }

  // ------------------------------------------------------------------ resizing

  /** Buckets before `i`, and the first `j` items of bucket `i`, have been moved. */
  ghost predicate Moving(hash: Key -> nat, buckets: seq<seq<Item>>, m: map<Key, nat>, moved: map<Key, nat>, i: nat, j: nat) {
    && i <= |buckets| && (i < |buckets| ==> j <= |buckets[i]|) && (i == |buckets| ==> j == 0)
    && (forall k | k in moved :: k in m && moved[k] == m[k])
    && forall b, p | 0 <= b < |buckets| && 0 <= p < |buckets[b]| ::
         buckets[b][p].key in moved <==> b < i || (b == i && p < j)
  }

  lemma MoveOne(hash: Key -> nat, buckets: seq<seq<Item>>, m: map<Key, nat>, moved: map<Key, nat>, i: nat, j: nat,
                newList: seq<seq<Item>>)
    requires Holds(hash, buckets, m) && Holds(hash, newList, moved) && Moving(hash, buckets, m, moved, i, j)
    requires i < |buckets| && j < |buckets[i]|
    ensures var item := buckets[i][j];
            var b := hash(item.key) % |newList|;
            && item.key !in moved && Holds(hash, newList[b := [item] + newList[b]], moved[item.key := item.id])
            && Moving(hash, buckets, m, moved[item.key := item.id], i, j + 1)
  {
    var item := buckets[i][j];
    var b := hash(item.key) % |newList|;
    var chain := [item] + newList[b];
    forall p | 0 <= p < |newList[b]|
      ensures newList[b][p].key != item.key && newList[b][p] in chain
    {
      assert InPlace(hash, |newList|, moved, b, newList[b][p]);
      assert chain[p + 1] == newList[b][p];
    }
    assert chain[0] == item;
    ChainKeeps(hash, newList, moved, moved[item.key := item.id], b, chain, item.key);
    assert InPlace(hash, |buckets|, m, i, item);
    forall c, p | 0 <= c < |buckets| && 0 <= p < |buckets[c]| && buckets[c][p].key == item.key
      ensures c == i && p == j
    {
      assert InPlace(hash, |buckets|, m, c, buckets[c][p]);
      assert DistinctChain(buckets[i]);
    }
  }

  lemma AllMoved(hash: Key -> nat, buckets: seq<seq<Item>>, m: map<Key, nat>, moved: map<Key, nat>)
    requires Holds(hash, buckets, m) && Moving(hash, buckets, m, moved, |buckets|, 0)
    ensures moved == m
  {
    forall k | k in m
      ensures k in moved
    {
      var b := hash(k) % |buckets|;
      assert Item(k, m[k]) in buckets[b];
      var p :| 0 <= p < |buckets[b]| && buckets[b][p] == Item(k, m[k]);
    }
  }
}
