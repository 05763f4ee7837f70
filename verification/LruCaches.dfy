/** One shard of the LRU cache (LRUCache in util/cache.cc): reference counts, the two lists, the
    table, the charge in use, and what is evicted. */
module LruCaches {
  import opened Keys
  import opened HandleTables

  datatype Handle = Handle(key: Key, charge: nat, refs: nat, inCache: bool)

  /** The fields of a shard other than its table. `ext` counts the references clients hold;
      `deleted` lists the handles passed to their deleter, in order. */
  datatype Core = Core(usage: int, handles: map<nat, Handle>, lru: seq<nat>, inUse: seq<nat>, nextId: nat,
                       ext: map<nat, nat>, deleted: seq<nat>)

  function Without(ids: seq<nat>, id: nat): seq<nat> {
    if ids == [] then [] else if ids[0] == id then ids[1..] else [ids[0]] + Without(ids[1..], id)
  }

  ghost predicate NoDuplicates(ids: seq<nat>) {
    forall i, j | 0 <= i < j < |ids| :: ids[i] != ids[j]
  }

  lemma {:induction false} WithoutIs(ids: seq<nat>, id: nat)
    requires NoDuplicates(ids)
    ensures NoDuplicates(Without(ids, id)) && forall x :: x in Without(ids, id) <==> x in ids && x != id
  {
    if ids != [] {
      WithoutIs(ids[1..], id);
      assert forall x :: x in ids <==> x == ids[0] || x in ids[1..];
      assert forall i | 0 <= i < |ids| - 1 :: ids[1..][i] == ids[i + 1];
      assert ids[0] !in ids[1..];
      NoDuplicatesFront(ids[0], Without(ids[1..], id));
    }
  }

  /** `rest` is the list with `id` cut out of it. */
  ghost predicate CutOut(ids: seq<nat>, id: nat, rest: seq<nat>) {
    if id in ids then exists i :: 0 <= i < |ids| && ids[i] == id && rest == ids[..i] + ids[i + 1..] else rest == ids
  }

  /** Only `id` goes; the order of the others stays. */
  lemma WithoutCuts(ids: seq<nat>, id: nat)
    requires NoDuplicates(ids)
    ensures CutOut(ids, id, Without(ids, id))
  {
    if id in ids {
      var i :| 0 <= i < |ids| && ids[i] == id;
      WithoutAt(ids, id, i);
    } else {
      WithoutAbsent(ids, id);
    }
  }

  lemma {:induction false} WithoutAt(ids: seq<nat>, id: nat, i: nat)
    requires i < |ids| && ids[i] == id && forall j | 0 <= j < i :: ids[j] != id
    ensures Without(ids, id) == ids[..i] + ids[i + 1..]
    decreases i
  {
    if i > 0 {
      WithoutAt(ids[1..], id, i - 1);
      FirstBack(ids, i);
    }
  }

  lemma FirstBack(ids: seq<nat>, i: nat)
    requires 0 < i < |ids|
    ensures [ids[0]] + (ids[1..][..i - 1] + ids[1..][i..]) == ids[..i] + ids[i + 1..]
  {
  }

  lemma NoDuplicatesFront(x: nat, ids: seq<nat>)
    requires NoDuplicates(ids) && x !in ids
    ensures NoDuplicates([x] + ids)
  {
  }

  lemma NoDuplicatesBack(ids: seq<nat>, x: nat)
    requires NoDuplicates(ids) && x !in ids
    ensures NoDuplicates(ids + [x]) && forall y :: y in ids + [x] <==> y in ids || y == x
  {
  }

  /** What the handles listed add to the usage. */
  function Charges(handles: map<nat, Handle>, ids: seq<nat>): int {
    if ids == [] then 0
    else (if ids[0] in handles then handles[ids[0]].charge else 0) + Charges(handles, ids[1..])
  }

  lemma {:induction false} ChargesWithout(handles: map<nat, Handle>, ids: seq<nat>, id: nat)
    requires id in ids && id in handles
    ensures Charges(handles, Without(ids, id)) == Charges(handles, ids) - handles[id].charge
  {
    if ids[0] != id {
      ChargesWithout(handles, ids[1..], id);
      assert ([ids[0]] + Without(ids[1..], id))[1..] == Without(ids[1..], id);
    }
  }

  lemma {:induction false} ChargesAppend(handles: map<nat, Handle>, ids: seq<nat>, id: nat)
    requires id in handles
    ensures Charges(handles, ids + [id]) == Charges(handles, ids) + handles[id].charge
  {
    if ids != [] {
      ChargesAppend(handles, ids[1..], id);
      assert (ids + [id])[1..] == ids[1..] + [id];
    } else {
      assert (ids + [id])[1..] == [];
    }
  }

  /** Charges do not change with reference counts, nor with handles not listed. */
  lemma {:induction false} ChargesSame(a: map<nat, Handle>, b: map<nat, Handle>, ids: seq<nat>)
    requires forall id | id in ids :: id in a && id in b && a[id].charge == b[id].charge
    ensures Charges(a, ids) == Charges(b, ids)
  {
    if ids != [] {
      ChargesSame(a, b, ids[1..]);
    }
  }

  // ------------------------------------------------------------------ invariant

  /** Reference counts are those of clients plus one for the cache; each cached handle is in the
      list its count calls for, and in no other. */
  ghost predicate ListsOk(c: Core) {
    && c.ext.Keys == c.handles.Keys
    && (forall id | id in c.handles ::
          id < c.nextId && c.handles[id].refs >= 1
          && c.handles[id].refs == c.ext[id] + if c.handles[id].inCache then 1 else 0)
    && NoDuplicates(c.lru) && NoDuplicates(c.inUse)
    && (forall id :: id in c.lru <==> id in c.handles && c.handles[id].inCache && c.handles[id].refs == 1)
    && (forall id :: id in c.inUse <==> id in c.handles && c.handles[id].inCache && c.handles[id].refs > 1)
  }

  ghost predicate UsageOk(c: Core) {
    c.usage == Charges(c.handles, c.lru) + Charges(c.handles, c.inUse)
  }

  /** Every handle ever made is alive, or was deleted exactly once. */
  ghost predicate DeletedOk(c: Core) {
    && NoDuplicates(c.deleted)
    && forall id: nat :: id in c.deleted <==> id < c.nextId && id !in c.handles
  }

  /** The table maps keys to the cached handles, all but the one just taken out of it. */
  ghost predicate TableOk(c: Core, contents: map<Key, nat>, out: Option<nat>) {
    && (forall id | id in c.handles && c.handles[id].inCache ::
          out == Some(id) || (c.handles[id].key in contents && contents[c.handles[id].key] == id))
    && (forall key | key in contents ::
          contents[key] in c.handles && c.handles[contents[key]].inCache && c.handles[contents[key]].key == key
          && out != Some(contents[key]))
    && (out.Some? ==> out.value in c.handles && c.handles[out.value].inCache)
  }

  ghost predicate CoreOk(c: Core, contents: map<Key, nat>, out: Option<nat>) {
    ListsOk(c) && UsageOk(c) && DeletedOk(c) && TableOk(c, contents, out)
  }

  // ----------------------------------------------------------------- small steps

  /** A client takes a reference. */
  function Ref(c: Core, id: nat): Core
    requires id in c.handles && id in c.ext
  {
    var h := c.handles[id];
    var moved := h.refs == 1 && h.inCache;
    c.(lru := if moved then Without(c.lru, id) else c.lru,
       inUse := if moved then c.inUse + [id] else c.inUse,
       handles := c.handles[id := h.(refs := h.refs + 1)],
       ext := c.ext[id := c.ext[id] + 1])
  }

  /** A reference goes away; `ext` says whose it was. */
  function Unref(c: Core, id: nat, ext: map<nat, nat>): Core
    requires id in c.handles && c.handles[id].refs > 0
  {
    var h := c.handles[id].(refs := c.handles[id].refs - 1);
    if h.refs == 0 then
      c.(handles := c.handles - {id}, ext := ext - {id}, deleted := c.deleted + [id])
    else if h.inCache && h.refs == 1 then
      c.(handles := c.handles[id := h], ext := ext, inUse := Without(c.inUse, id), lru := c.lru + [id])
    else c.(handles := c.handles[id := h], ext := ext)
  }

  /** A client gives its reference back. */
  function Released(c: Core, id: nat): Core
    requires id in c.handles && c.handles[id].refs > 0 && id in c.ext && c.ext[id] > 0
  {
    Unref(c, id, c.ext[id := c.ext[id] - 1])
  }

  /** A handle already out of the table leaves its list, the usage, and the cache. */
  function TakenOut(c: Core, id: nat): Core
    requires id in c.handles && c.handles[id].refs > 0
  {
    var h := c.handles[id];
    var c1 := c.(lru := Without(c.lru, id), inUse := Without(c.inUse, id), usage := c.usage - h.charge,
                 handles := c.handles[id := h.(inCache := false)]);
    Unref(c1, id, c.ext)
  }

  /** A new handle, held by its client and, unless nothing is cached, by the cache. */
  function Added(c: Core, key: Key, charge: nat, cached: bool): Core {
    var id := c.nextId;
    c.(handles := c.handles[id := Handle(key, charge, if cached then 2 else 1, cached)],
       ext := c.ext[id := 1], nextId := id + 1,
       inUse := if cached then c.inUse + [id] else c.inUse,
       usage := if cached then c.usage + charge else c.usage)
  }

  lemma RefKeeps(c: Core, contents: map<Key, nat>, id: nat)
    requires CoreOk(c, contents, None) && id in c.handles
    ensures CoreOk(Ref(c, id), contents, None)
  {
    RefLists(c, id);
    RefUsage(c, id);
  }

  lemma RefLists(c: Core, id: nat)
    requires ListsOk(c) && id in c.handles
    ensures ListsOk(Ref(c, id))
  {
    if c.handles[id].refs == 1 && c.handles[id].inCache {
      WithoutIs(c.lru, id);
      NoDuplicatesBack(c.inUse, id);
    }
  }

  lemma RefUsage(c: Core, id: nat)
    requires ListsOk(c) && UsageOk(c) && id in c.handles
    ensures UsageOk(Ref(c, id))
  {
    var t := Ref(c, id);
    if c.handles[id].refs == 1 && c.handles[id].inCache {
      WithoutIs(c.lru, id);
      ChargesWithout(c.handles, c.lru, id);
      ChargesAppend(c.handles, c.inUse, id);
    }
    ChargesSame(c.handles, t.handles, t.lru);
    ChargesSame(c.handles, t.handles, t.inUse);
  }

  /** From `c` to `d`, a client has taken one more reference to a handle, which is not, or no longer,
      among the unused ones. Nothing else is different. */
  ghost predicate Taken(c: Core, id: nat, d: Core) {
    && id in c.handles && id in c.ext
    && d.handles == c.handles[id := c.handles[id].(refs := c.handles[id].refs + 1)]
    && d.ext == c.ext[id := c.ext[id] + 1]
    && id !in d.lru && CutOut(c.lru, id, d.lru)
    && d.inUse == (if id in c.lru then c.inUse + [id] else c.inUse)
    && d.usage == c.usage && d.nextId == c.nextId && d.deleted == c.deleted
  }

  lemma RefIs(c: Core, id: nat)
    requires ListsOk(c) && id in c.handles
    ensures Taken(c, id, Ref(c, id))
  {
    RefOrder(c, id, Ref(c, id).lru);
  }

  lemma RefOrder(c: Core, id: nat, lru: seq<nat>)
    requires NoDuplicates(c.lru) && lru == if id in c.lru then Without(c.lru, id) else c.lru
    ensures id !in lru && CutOut(c.lru, id, lru)
  {
    WithoutIs(c.lru, id);
    WithoutCuts(c.lru, id);
  }

  lemma ReleasedKeeps(c: Core, contents: map<Key, nat>, id: nat)
    requires CoreOk(c, contents, None) && id in c.handles && c.ext[id] > 0
    ensures CoreOk(Released(c, id), contents, None)
  {
    ReleasedLists(c, id);
    ReleasedUsage(c, id);
    ReleasedDeleted(c, id);
  }

  /** From `c` to `d`, a client has given a reference back. The last one turns a cached handle into
      the most recently used one, and sends any other to its deleter. Nothing else is different. */
  ghost predicate GivenBack(c: Core, id: nat, d: Core) {
    && id in c.handles && id in c.ext && c.handles[id].refs > 0 && c.ext[id] > 0
    && d.usage == c.usage && d.nextId == c.nextId
    && if c.ext[id] > 1 || c.handles[id].inCache then
         && d.handles == c.handles[id := c.handles[id].(refs := c.handles[id].refs - 1)]
         && d.ext == c.ext[id := c.ext[id] - 1] && d.deleted == c.deleted
         && if c.ext[id] > 1 then d.lru == c.lru && d.inUse == c.inUse
            else d.lru == c.lru + [id] && id !in d.inUse && CutOut(c.inUse, id, d.inUse)
       else
         && d.handles == c.handles - {id} && d.ext == c.ext - {id} && d.deleted == c.deleted + [id]
         && d.lru == c.lru && d.inUse == c.inUse
  }

  lemma ReleasedIs(c: Core, id: nat)
    requires ListsOk(c) && id in c.handles && c.ext[id] > 0
    ensures GivenBack(c, id, Released(c, id))
  {
    WithoutIs(c.inUse, id);
    WithoutCuts(c.inUse, id);
    assert c.ext[id := c.ext[id] - 1] - {id} == c.ext - {id};
  }

  lemma ReleasedDeleted(c: Core, id: nat)
    requires ListsOk(c) && DeletedOk(c) && id in c.handles && c.ext[id] > 0
    ensures DeletedOk(Released(c, id))
  {
    NoDuplicatesBack(c.deleted, id);
  }

  lemma ReleasedLists(c: Core, id: nat)
    requires ListsOk(c) && id in c.handles && c.ext[id] > 0
    ensures ListsOk(Released(c, id))
  {
    if c.handles[id].refs == 2 && c.handles[id].inCache {
      WithoutIs(c.inUse, id);
      NoDuplicatesBack(c.lru, id);
    }
  }

  lemma ReleasedUsage(c: Core, id: nat)
    requires ListsOk(c) && UsageOk(c) && id in c.handles && c.ext[id] > 0
    ensures UsageOk(Released(c, id))
  {
    var t := Released(c, id);
    if c.handles[id].refs == 2 && c.handles[id].inCache {
      WithoutIs(c.inUse, id);
      ChargesWithout(c.handles, c.inUse, id);
      ChargesAppend(c.handles, c.lru, id);
    }
    ChargesSame(c.handles, t.handles, t.lru);
    ChargesSame(c.handles, t.handles, t.inUse);
  }

  lemma TakenOutKeeps(c: Core, contents: map<Key, nat>, id: nat)
    requires CoreOk(c, contents, Some(id))
    ensures CoreOk(TakenOut(c, id), contents, None)
    ensures TakenOut(c, id).deleted == if c.ext[id] == 0 then c.deleted + [id] else c.deleted
    ensures TakenOut(c, id).lru == Without(c.lru, id)
  {
    TakenOutLists(c, id);
    TakenOutUsage(c, id);
    TakenOutDeleted(c, id);
    TakenOutTable(c, contents, id);
  }

  /** From `c` to `d`, a handle has left the cache: it is in no list, its charge is no longer counted,
      and it is deleted now if no client holds it. Nothing else is different. */
  ghost predicate LeftCache(c: Core, id: nat, d: Core) {
    && id in c.handles && id in c.ext && c.handles[id].refs > 0
    && d.usage == c.usage - c.handles[id].charge && d.nextId == c.nextId
    && id !in d.lru && CutOut(c.lru, id, d.lru) && id !in d.inUse && CutOut(c.inUse, id, d.inUse)
    && if c.ext[id] == 0 then
         d.handles == c.handles - {id} && d.ext == c.ext - {id} && d.deleted == c.deleted + [id]
       else
         && d.handles == c.handles[id := c.handles[id].(inCache := false, refs := c.handles[id].refs - 1)]
         && d.ext == c.ext && d.deleted == c.deleted
  }

  lemma TakenOutIs(c: Core, id: nat)
    requires ListsOk(c) && id in c.handles && c.handles[id].inCache
    ensures LeftCache(c, id, TakenOut(c, id))
  {
    TakenOutOrder(c, id);
    TakenOutFields(c, id);
  }

  lemma TakenOutFields(c: Core, id: nat)
    requires id in c.handles && id in c.ext && c.handles[id].refs == c.ext[id] + 1
    requires id !in Without(c.lru, id) && CutOut(c.lru, id, Without(c.lru, id))
    requires id !in Without(c.inUse, id) && CutOut(c.inUse, id, Without(c.inUse, id))
    ensures LeftCache(c, id, TakenOut(c, id))
  {
    var h := c.handles[id];
    assert c.handles[id := h.(inCache := false)] - {id} == c.handles - {id};
  }

  lemma TakenOutOrder(c: Core, id: nat)
    requires NoDuplicates(c.lru) && NoDuplicates(c.inUse)
    ensures id !in Without(c.lru, id) && CutOut(c.lru, id, Without(c.lru, id))
    ensures id !in Without(c.inUse, id) && CutOut(c.inUse, id, Without(c.inUse, id))
  {
    WithoutIs(c.lru, id);
    WithoutCuts(c.lru, id);
    WithoutIs(c.inUse, id);
    WithoutCuts(c.inUse, id);
  }

  lemma TakenOutDeleted(c: Core, id: nat)
    requires ListsOk(c) && DeletedOk(c) && id in c.handles && c.handles[id].inCache
    ensures DeletedOk(TakenOut(c, id))
    ensures TakenOut(c, id).deleted == if c.ext[id] == 0 then c.deleted + [id] else c.deleted
  {
    NoDuplicatesBack(c.deleted, id);
  }

  lemma TakenOutTable(c: Core, contents: map<Key, nat>, id: nat)
    requires ListsOk(c) && TableOk(c, contents, Some(id))
    ensures TableOk(TakenOut(c, id), contents, None)
  {
  }

  lemma TakenOutLists(c: Core, id: nat)
    requires ListsOk(c) && id in c.handles && c.handles[id].inCache
    ensures ListsOk(TakenOut(c, id)) && TakenOut(c, id).lru == Without(c.lru, id)
  {
    WithoutIs(c.lru, id);
    WithoutIs(c.inUse, id);
  }

  lemma TakenOutUsage(c: Core, id: nat)
    requires ListsOk(c) && UsageOk(c) && id in c.handles && c.handles[id].inCache
    ensures UsageOk(TakenOut(c, id))
  {
    var t := TakenOut(c, id);
    WithoutIs(c.lru, id);
    WithoutIs(c.inUse, id);
    if id in c.lru {
      ChargesWithout(c.handles, c.lru, id);
      WithoutAbsent(c.inUse, id);
    } else {
      ChargesWithout(c.handles, c.inUse, id);
      WithoutAbsent(c.lru, id);
    }
    ChargesSame(c.handles, t.handles, t.lru);
    ChargesSame(c.handles, t.handles, t.inUse);
  }

  lemma {:induction false} WithoutAbsent(ids: seq<nat>, id: nat)
    requires id !in ids
    ensures Without(ids, id) == ids
  {
    if ids != [] {
      WithoutAbsent(ids[1..], id);
    }
  }

  lemma AddedKeeps(c: Core, contents: map<Key, nat>, key: Key, charge: nat, cached: bool)
    requires CoreOk(c, contents, None)
    ensures cached ==> CoreOk(Added(c, key, charge, cached), contents[key := c.nextId],
                              if key in contents then Some(contents[key]) else None)
    ensures !cached ==> CoreOk(Added(c, key, charge, cached), contents, None)
  {
    AddedLists(c, key, charge, cached);
    AddedUsage(c, key, charge, cached);
    AddedDeleted(c, key, charge, cached);
    AddedTable(c, contents, key, charge, cached);
  }

  lemma AddedLists(c: Core, key: Key, charge: nat, cached: bool)
    requires ListsOk(c)
    ensures ListsOk(Added(c, key, charge, cached))
  {
    if cached {
      NoDuplicatesBack(c.inUse, c.nextId);
    }
  }

  lemma AddedUsage(c: Core, key: Key, charge: nat, cached: bool)
    requires ListsOk(c) && UsageOk(c)
    ensures UsageOk(Added(c, key, charge, cached))
  {
    var t := Added(c, key, charge, cached);
    ChargesSame(c.handles, t.handles, c.lru);
    ChargesSame(c.handles, t.handles, c.inUse);
    if cached {
      ChargesAppend(t.handles, c.inUse, c.nextId);
    }
  }

  lemma AddedDeleted(c: Core, key: Key, charge: nat, cached: bool)
    requires ListsOk(c) && DeletedOk(c)
    ensures DeletedOk(Added(c, key, charge, cached))
  {
  }

  lemma AddedTable(c: Core, contents: map<Key, nat>, key: Key, charge: nat, cached: bool)
    requires ListsOk(c) && TableOk(c, contents, None)
    ensures var t := Added(c, key, charge, cached);
            if cached then TableOk(t, contents[key := c.nextId], if key in contents then Some(contents[key]) else None)
            else TableOk(t, contents, None)
  {
  }

  // ------------------------------------------------------------------ evictions

  /** `d` is what is left of `c` once its `k` least recently used handles are gone, oldest first. */
  ghost predicate Evicted(c: Core, contents: map<Key, nat>, d: Core, contents1: map<Key, nat>, k: nat) {
    && k <= |c.lru| && d.lru == c.lru[k..] && d.deleted == c.deleted + c.lru[..k] && d.inUse == c.inUse
    && d.nextId == c.nextId && d.usage == c.usage - Charges(c.handles, c.lru[..k])
    && (forall id :: id in d.handles <==> id in c.handles && id !in c.lru[..k])
    && (forall id | id in d.handles :: d.handles[id] == c.handles[id])
    && (forall key :: key in contents1 <==> key in contents && contents[key] !in c.lru[..k])
    && (forall key | key in contents1 :: contents1[key] == contents[key])
  }

  /** No more than needed: before the last eviction the usage was over the capacity. */
  ghost predicate Needed(c: Core, capacity: nat, k: nat) {
    k <= |c.lru| && forall j | 0 <= j < k :: c.usage - Charges(c.handles, c.lru[..j]) > capacity
  }

  lemma EvictStep(c: Core, contents: map<Key, nat>, d: Core, contents1: map<Key, nat>, k: nat, limit: nat, all: bool)
    requires Evicted(c, contents, d, contents1, k) && d.lru != [] && (all || d.usage > limit)
    requires all || Needed(c, limit, k)
    ensures k < |c.lru| && (all || Needed(c, limit, k + 1)) && |c.lru| - k == |d.lru|
  {
    NeededMore(c, limit, k, d.usage);
  }

  lemma NeededMore(c: Core, limit: nat, k: nat, usage: int)
    requires k < |c.lru| && usage == c.usage - Charges(c.handles, c.lru[..k])
    ensures Needed(c, limit, k) && usage > limit ==> Needed(c, limit, k + 1)
  {
  }

  lemma EvictOne(c: Core, contents: map<Key, nat>, d: Core, contents1: map<Key, nat>, k: nat)
    requires CoreOk(c, contents, None) && CoreOk(d, contents1, None)
    requires Evicted(c, contents, d, contents1, k) && k < |c.lru|
    ensures var id := c.lru[k];
            && d.lru[0] == id && id in d.handles && d.handles[id].key in contents1 && contents1[d.handles[id].key] == id
            && d.ext[id] == 0
            && Evicted(c, contents, TakenOut(d, id), contents1 - {d.handles[id].key}, k + 1)
  {
    var id := c.lru[k];
    assert d.lru[0] == id && id in c.lru && id in d.lru;
    TakenOldest(d);
    EvictedTable(c, contents, d, contents1, k);
    EvictedMore(c, contents, d, contents1, k, TakenOut(d, id));
  }

  lemma EvictedMore(c: Core, contents: map<Key, nat>, d: Core, contents1: map<Key, nat>, k: nat, t: Core)
    requires Evicted(c, contents, d, contents1, k) && k < |c.lru| && c.lru[k] in d.handles
    requires var id := c.lru[k];
             && t.lru == d.lru[1..] && t.inUse == d.inUse && t.deleted == d.deleted + [id] && t.nextId == d.nextId
             && t.usage == d.usage - d.handles[id].charge && t.handles == d.handles - {id}
             && forall key :: key in contents && contents[key] == id <==> key == d.handles[id].key
    ensures Evicted(c, contents, t, contents1 - {d.handles[c.lru[k]].key}, k + 1)
  {
    EvictedLists(c, k, c.lru[k]);
  }

  lemma EvictedLists(c: Core, k: nat, id: nat)
    requires k < |c.lru| && id == c.lru[k] && id in c.handles
    ensures c.lru[k..][1..] == c.lru[k + 1..] && c.deleted + c.lru[..k] + [id] == c.deleted + c.lru[..k + 1]
    ensures forall x :: x in c.lru[..k + 1] <==> x in c.lru[..k] || x == id
    ensures Charges(c.handles, c.lru[..k + 1]) == Charges(c.handles, c.lru[..k]) + c.handles[id].charge
  {
    assert c.lru[..k + 1] == c.lru[..k] + [id];
    ChargesAppend(c.handles, c.lru[..k], id);
  }

  lemma EvictedTable(c: Core, contents: map<Key, nat>, d: Core, contents1: map<Key, nat>, k: nat)
    requires TableOk(c, contents, None) && TableOk(d, contents1, None) && Evicted(c, contents, d, contents1, k) && k < |c.lru|
    requires c.lru[k] in d.handles && d.handles[c.lru[k]].inCache && c.lru[k] in c.handles
    ensures var id := c.lru[k];
            && d.handles[id].key in contents1 && contents1[d.handles[id].key] == id
            && forall key :: key in contents && contents[key] == id <==> key == d.handles[id].key
  {
  }

  lemma TakenOldest(d: Core)
    requires ListsOk(d) && d.lru != []
    ensures var id := d.lru[0]; var t := TakenOut(d, id);
            && d.ext[id] == 0 && d.handles[id].inCache
            && t.lru == d.lru[1..] && t.inUse == d.inUse && t.deleted == d.deleted + [id] && t.nextId == d.nextId
            && t.usage == d.usage - d.handles[id].charge && t.handles == d.handles - {id}
  {
    var id := d.lru[0];
    assert id in d.lru && id !in d.inUse;
    WithoutAbsent(d.inUse, id);
    var h := d.handles[id];
    assert d.handles[id := h.(inCache := false)] - {id} == d.handles - {id};
  }

  lemma EmptyOk(c: Core, contents: map<Key, nat>)
    requires c.usage == 0 && c.handles.Keys == {} && c.ext.Keys == {} && c.lru == c.inUse == c.deleted == [] && c.nextId == 0
    requires contents.Keys == {}
    ensures CoreOk(c, contents, None)
  {
  }

  /** The shard after a lookup. */
  function Found(c: Core, contents: map<Key, nat>, key: Key): Core
    requires CoreOk(c, contents, None)
  {
    if key in contents then Ref(c, contents[key]) else c
  }

  lemma FoundIs(c: Core, contents: map<Key, nat>, key: Key)
    requires CoreOk(c, contents, None)
    ensures CoreOk(Found(c, contents, key), contents, None)
    ensures if key in contents then Taken(c, contents[key], Found(c, contents, key)) else Found(c, contents, key) == c
  {
    if key in contents {
      RefKeeps(c, contents, contents[key]);
      RefIs(c, contents[key]);
    }
  }

  // ------------------------------------------------------------------ the object

  class LRUCache {
    const capacity: nat
    const table: HandleTable
    var usage: int
    var handles: map<nat, Handle>
    var lru: seq<nat>
    var inUse: seq<nat>
    var nextId: nat
    ghost var ext: map<nat, nat>
    ghost var deleted: seq<nat>

    ghost function Shard(): Core
      reads this
    {
      Core(usage, handles, lru, inUse, nextId, ext, deleted)
    }

    ghost predicate Valid()
      reads this, table
    {
      table.Valid() && CoreOk(Shard(), table.contents, None)
    }

    constructor (capacity: nat, hash: Key -> nat)
      ensures Valid() && table.contents == map[] && fresh(table) && this.capacity == capacity && table.hash == hash
    {
      this.capacity := capacity;
      table := new HandleTable(hash);
      usage, handles, lru, inUse, nextId := 0, map[], [], [], 0;
      ext, deleted := map[], [];
      new;
      EmptyOk(Shard(), table.contents);
    }

    /** Moves a handle to the in-use list when it gains its only outside reference. */
    method TakeRef(id: nat)
      requires id in handles && id in ext
      modifies this`handles, this`lru, this`inUse, this`ext
      ensures Shard() == Ref(old(Shard()), id)
    {
      var h := handles[id];
      if h.refs == 1 && h.inCache {
        lru := Without(lru, id);
        inUse := inUse + [id];
      }
      handles := handles[id := h.(refs := h.refs + 1)];
      ext := ext[id := ext[id] + 1];
    }

    /** Drops a reference; `newExt` is what clients hold afterwards. */
    method DropRef(id: nat, ghost newExt: map<nat, nat>)
      requires id in handles && handles[id].refs > 0
      modifies this`handles, this`lru, this`inUse, this`ext, this`deleted
      ensures Shard() == Unref(old(Shard()), id, newExt)
    {
      var h := handles[id].(refs := handles[id].refs - 1);
      if h.refs == 0 {
        handles := handles - {id};
        ext, deleted := newExt - {id}, deleted + [id];
      } else {
        handles := handles[id := h];
        ext := newExt;
        if h.inCache && h.refs == 1 {
          inUse := Without(inUse, id);
          lru := lru + [id];
        }
      }
    }

    method FinishErase(id: nat)
      requires id in handles && handles[id].refs > 0
      modifies this`handles, this`lru, this`inUse, this`ext, this`deleted, this`usage
      ensures Shard() == TakenOut(old(Shard()), id)
    {
      var h := handles[id];
      lru := Without(lru, id);
      inUse := Without(inUse, id);
      handles := handles[id := h.(inCache := false)];
      usage := usage - h.charge;
      DropRef(id, ext);
    }

    /** The cached handle of a key, with one more reference held by the client. */
    method Lookup(key: Key) returns (r: Option<nat>)
      requires Valid()
      modifies this`handles, this`lru, this`inUse, this`ext
      ensures Valid() && table.contents == old(table.contents)
      ensures r == if key in table.contents then Some(table.contents[key]) else None
      ensures if r.Some? then Taken(old(Shard()), r.value, Shard()) else Shard() == old(Shard())
    {
      FoundIs(Shard(), table.contents, key);
      r := LookupAndRef(key, Found(Shard(), table.contents, key));
    }

    method LookupAndRef(key: Key, ghost d: Core) returns (r: Option<nat>)
      requires Valid() && d == Found(Shard(), table.contents, key)
      modifies this`handles, this`lru, this`inUse, this`ext
      ensures r == if key in table.contents then Some(table.contents[key]) else None
      ensures Shard() == d
    {
      r := table.Lookup(key);
      if r.Some? {
        TakeRef(r.value);
      }
    }

    /** A client gives a reference back. The last one turns a cached handle into the most recently
        used one, and sends any other to its deleter. */
    method Release(id: nat)
      requires Valid() && id in ext && ext[id] > 0
      modifies this`handles, this`lru, this`inUse, this`ext, this`deleted
      ensures Valid() && table.contents == old(table.contents)
      ensures GivenBack(old(Shard()), id, Shard())
    {
      ReleasedKeeps(Shard(), table.contents, id);
      ReleasedIs(Shard(), id);
      DropRef(id, ext[id := ext[id] - 1]);
    }

    /** A key leaves the cache; its handle is deleted now, or when its last client lets go. */
    method Erase(key: Key)
      requires Valid()
      modifies this, table
      ensures Valid() && table.contents == old(table.contents) - {key}
      ensures if key in old(table.contents) then LeftCache(old(Shard()), old(table.contents)[key], Shard())
              else Shard() == old(Shard())
    {
      ErasedKeeps(Shard(), table.contents, key);
      RemoveAndErase(key);
    }

    method RemoveAndErase(key: Key)
      requires table.Valid() && (key in table.contents ==> Referenced(Shard(), table.contents[key]))
      modifies this, table
      ensures table.Valid() && table.contents == old(table.contents) - {key}
      ensures Shard() == Erased(old(Shard()), old(table.contents), key)
    {
      var e := table.Remove(key);
      if e.Some? {
        FinishErase(e.value);
      }
    }

    method EvictOldest(ghost c: Core, ghost contents: map<Key, nat>, ghost k: nat)
      requires Valid() && CoreOk(c, contents, None) && Evicted(c, contents, Shard(), table.contents, k) && lru != []
      modifies this, table
      ensures Valid() && Evicted(c, contents, Shard(), table.contents, k + 1)
    {
      ghost var before := table.contents;
      EvictOne(c, contents, Shard(), before, k);
      ErasedKeeps(Shard(), before, handles[lru[0]].key);
      RemoveAndErase(handles[lru[0]].key);
    }

    /** Drops everything no client holds. */
    method Prune()
      requires Valid()
      modifies this, table
      ensures Valid() && lru == [] && inUse == old(inUse) && deleted == old(deleted) + old(lru)
      ensures Evicted(old(Shard()), old(table.contents), Shard(), table.contents, |old(lru)|)
      ensures forall key :: key in table.contents <==> key in old(table.contents) && old(table.contents)[key] in inUse
    {
      ghost var c, contents := Shard(), table.contents;
      ghost var k := EvictDown(c, contents, 0, true);
      AllEvicted(c, contents, Shard(), table.contents, k);
    }

    /** Evicts, oldest first, while the usage is over the capacity, or to the last. */
    method EvictDown(ghost c: Core, ghost contents: map<Key, nat>, limit: nat, all: bool) returns (ghost k: nat)
      requires Valid() && c == Shard() && contents == table.contents
      modifies this, table
      ensures Valid()
      ensures Evicted(c, contents, Shard(), table.contents, k)
      ensures lru == [] || (!all && usage <= limit)
      ensures !all ==> Needed(c, limit, k)
    {
      k := 0;
      NothingEvicted(c, contents);
      while (all || usage > limit) && lru != []
        invariant Valid()
        invariant Evicted(c, contents, Shard(), table.contents, k)
        invariant all || Needed(c, limit, k)
        decreases |c.lru| - k
      {
        EvictStep(c, contents, Shard(), table.contents, k, limit, all);
        EvictOldest(c, contents, k);
        k := k + 1;
      }
    }

    /** A new handle for a key, held by the client; what it replaces leaves the cache, and then the
        least recently used handles go until the usage fits, no more than needed. */
    method Insert(key: Key, charge: nat) returns (id: nat)
      requires Valid()
      modifies this, table
      ensures Valid() && id == old(nextId) && id in ext && ext[id] == 1
      ensures usage <= capacity || lru == []
      ensures var cached := capacity > 0;
              var (c, contents) := Placed(old(Shard()), old(table.contents), key, charge, cached);
              && Inserted(old(Shard()), old(table.contents), key, charge, cached, c, contents)
              && exists k :: Evicted(c, contents, Shard(), table.contents, k) && Needed(c, capacity, k)
    {
      PlacedIs(Shard(), table.contents, key, charge, capacity > 0);
      id := Place(key, charge);
      ghost var c, contents := Shard(), table.contents;
      ghost var k := EvictDown(c, contents, capacity, false);
      HeldHandle(c, contents, Shard(), table.contents, k, id);
    }

    method Place(key: Key, charge: nat) returns (id: nat)
      requires Valid()
      modifies this, table
      ensures Valid() && id == old(nextId) && id in ext && ext[id] == 1
      ensures (Shard(), table.contents) == Placed(old(Shard()), old(table.contents), key, charge, capacity > 0)
    {
      ghost var c0, contents0 := Shard(), table.contents;
      AddedKeeps(c0, contents0, key, charge, capacity > 0);
      PlacedKeeps(c0, contents0, key, charge, capacity > 0);
      id := nextId;
      AddHandle(key, charge);
      if capacity > 0 {
        var previous := table.Insert(Item(key, id));
        if previous.Some? {
          FinishErase(previous.value);
        }
      }
    }

    method AddHandle(key: Key, charge: nat)
      modifies this
      ensures Shard() == Added(old(Shard()), key, charge, capacity > 0)
    {
      var id := nextId;
      handles := handles[id := Handle(key, charge, if capacity > 0 then 2 else 1, capacity > 0)];
      nextId := nextId + 1;
      ext := ext[id := 1];
      if capacity > 0 {
        inUse := inUse + [id];
        usage := usage + charge;
      }
    }
  }

  lemma AllEvicted(c: Core, contents: map<Key, nat>, d: Core, contents1: map<Key, nat>, k: nat)
    requires CoreOk(c, contents, None) && CoreOk(d, contents1, None) && Evicted(c, contents, d, contents1, k) && d.lru == []
    ensures d.deleted == c.deleted + c.lru
    ensures forall key :: key in contents1 <==> key in contents && contents[key] in c.inUse
  {
    assert k == |c.lru| && c.lru[..k] == c.lru;
  }

  /** The shard once a new handle is in and the one it replaces is out. */
  function Placed(c: Core, contents: map<Key, nat>, key: Key, charge: nat, cached: bool): (Core, map<Key, nat>)
    requires CoreOk(c, contents, None)
  {
    AddedKeeps(c, contents, key, charge, cached);
    var c1 := Added(c, key, charge, cached);
    if !cached then (c1, contents)
    else (if key in contents then TakenOut(c1, contents[key]) else c1, contents[key := c.nextId])
  }

  /** From `c` to `d`, a new handle is there, held by its client and by the cache. */
  ghost predicate NewHandle(c: Core, key: Key, charge: nat, cached: bool, d: Core) {
    && d.nextId == c.nextId + 1 && d.lru == c.lru && d.deleted == c.deleted
    && d.handles == c.handles[c.nextId := Handle(key, charge, if cached then 2 else 1, cached)]
    && d.ext == c.ext[c.nextId := 1]
    && d.inUse == c.inUse + (if cached then [c.nextId] else [])
    && d.usage == c.usage + if cached then charge else 0
  }

  /** What an insertion does before it evicts: a new handle comes in, and what it replaces goes out. */
  ghost predicate Inserted(c: Core, contents: map<Key, nat>, key: Key, charge: nat, cached: bool,
                           d: Core, contents1: map<Key, nat>) {
    && contents1 == (if cached then contents[key := c.nextId] else contents)
    && if cached && key in contents then exists a :: NewHandle(c, key, charge, cached, a) && LeftCache(a, contents[key], d)
       else NewHandle(c, key, charge, cached, d)
  }

  lemma PlacedIs(c: Core, contents: map<Key, nat>, key: Key, charge: nat, cached: bool)
    requires CoreOk(c, contents, None)
    ensures var (d, contents1) := Placed(c, contents, key, charge, cached);
            Inserted(c, contents, key, charge, cached, d, contents1)
  {
    AddedKeeps(c, contents, key, charge, cached);
    var a := Added(c, key, charge, cached);
    assert NewHandle(c, key, charge, cached, a);
    if cached && key in contents {
      TakenOutIs(a, contents[key]);
    }
  }

  lemma PlacedKeeps(c: Core, contents: map<Key, nat>, key: Key, charge: nat, cached: bool)
    requires CoreOk(c, contents, None)
    ensures var (d, contents1) := Placed(c, contents, key, charge, cached);
            CoreOk(d, contents1, None) && c.nextId in d.ext && d.ext[c.nextId] == 1
  {
    AddedKeeps(c, contents, key, charge, cached);
    if cached && key in contents {
      var added, replaced := Added(c, key, charge, cached), contents[key];
      TakenOutKeeps(added, contents[key := c.nextId], replaced);
      assert replaced != c.nextId;
      OthersStay(added, replaced, c.nextId);
    }
  }

  lemma OthersStay(c: Core, id: nat, other: nat)
    requires id in c.handles && c.handles[id].refs > 0 && other in c.ext && other != id
    ensures other in TakenOut(c, id).ext && TakenOut(c, id).ext[other] == c.ext[other]
  {
  }

  ghost predicate Referenced(c: Core, id: nat) {
    id in c.handles && c.handles[id].refs > 0
  }

  /** The shard once a key is out of its table. */
  function Erased(c: Core, contents: map<Key, nat>, key: Key): Core
    requires key in contents ==> Referenced(c, contents[key])
  {
    if key in contents then TakenOut(c, contents[key]) else c
  }

  lemma ErasedKeeps(c: Core, contents: map<Key, nat>, key: Key)
    requires CoreOk(c, contents, None)
    ensures key in contents ==> Referenced(c, contents[key])
    ensures CoreOk(Erased(c, contents, key), contents - {key}, None)
    ensures if key in contents then LeftCache(c, contents[key], Erased(c, contents, key)) else Erased(c, contents, key) == c
  {
    if key in contents {
      TakenOutIs(c, contents[key]);
      OutOfTable(c, contents, key);
      TakenOutKeeps(c, contents - {key}, contents[key]);
    } else {
      assert contents - {key} == contents;
    }
  }

  lemma OutOfTable(c: Core, contents: map<Key, nat>, key: Key)
    requires CoreOk(c, contents, None) && key in contents
    ensures CoreOk(c, contents - {key}, Some(contents[key]))
  {
  }

  lemma NothingEvicted(c: Core, contents: map<Key, nat>)
    ensures Evicted(c, contents, c, contents, 0) && Needed(c, 0, 0)
  {
    assert c.lru[..0] == [] && c.deleted + [] == c.deleted;
  }

  lemma HeldHandle(c: Core, contents: map<Key, nat>, d: Core, contents1: map<Key, nat>, k: nat, id: nat)
    requires CoreOk(c, contents, None) && CoreOk(d, contents1, None) && Evicted(c, contents, d, contents1, k)
    requires id in c.ext && c.ext[id] == 1
    ensures id in d.ext && d.ext[id] == 1
  {
    assert id !in c.lru;
    assert forall x | x in c.lru[..k] :: x in c.lru;
  }
}
