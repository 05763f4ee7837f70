/** The skip list (db/skiplist.h): every single pointer store of an insertion keeps each level
    a sorted sublist of the level below, and readers that run between the stores miss nothing
    that was there when they began. Nodes live in an arena and are named by their index. */
module SkipLists {
  import opened Keys

  type Key = real

  const MAX_HEIGHT: nat := 12
  const HEAD: int := 0
  const NULL: int := -1

  datatype Node = Node(key: Key, next: seq<int>)

  /** `up[b]` is the number of levels node `b` has been linked into; it serves the proof. */
  datatype List = List(nodes: seq<Node>, maxHeight: nat, up: seq<nat>)

  ghost predicate Linked(s: List, i: nat, b: int) {
    0 < b < |s.nodes| && b < |s.up| && i < s.up[b]
  }

  /** Node `a` is one whose link at level `i` readers may follow. */
  ghost predicate OnLevel(s: List, i: nat, a: int) {
    a == HEAD || Linked(s, i, a)
  }

  ghost predicate Behind(s: List, a: int, b: int)
    requires 0 <= a < |s.nodes| && 0 <= b < |s.nodes|
  {
    a == HEAD || s.nodes[a].key < s.nodes[b].key
  }

  /** `p` is the first node after `a` among those linked into level `i`. */
  ghost predicate IsNext(s: List, i: nat, a: int, p: int)
    requires 0 <= a < |s.nodes|
  {
    if p == NULL then forall b | Linked(s, i, b) :: !Behind(s, a, b)
    else
      && Linked(s, i, p) && Behind(s, a, p)
      && forall b | Linked(s, i, b) && Behind(s, a, b) :: s.nodes[p].key <= s.nodes[b].key
  }

  ghost predicate Heights(s: List) {
    && 0 < |s.nodes| == |s.up| && 1 <= s.maxHeight <= MAX_HEIGHT
    && |s.nodes[HEAD].next| == MAX_HEIGHT
    && forall b | 0 < b < |s.nodes| :: s.up[b] <= |s.nodes[b].next| <= s.maxHeight
  }

  ghost predicate Links(s: List)
    requires Heights(s)
  {
    forall i, a | 0 <= i < MAX_HEIGHT && OnLevel(s, i, a) :: IsNext(s, i, a, s.nodes[a].next[i])
  }

  ghost predicate DistinctKeys(s: List)
    requires Heights(s)
  {
    forall a, b | Linked(s, 0, a) && Linked(s, 0, b) && a != b :: s.nodes[a].key != s.nodes[b].key
  }

  ghost predicate Ok(s: List) {
    Heights(s) && Links(s) && DistinctKeys(s)
  }

  ghost function KeySet(s: List): set<Key>
    requires Heights(s)
  {
    set b | 0 < b < |s.nodes| && Linked(s, 0, b) :: s.nodes[b].key
  }

  // -------------------------------------------------------------- walking a level

  ghost function Later(s: List, a: int): set<int>
    requires 0 <= a < |s.nodes|
  {
    set b | 0 < b < |s.nodes| && Behind(s, a, b)
  }

  lemma NextIsLater(s: List, i: nat, a: int)
    requires Ok(s) && i < MAX_HEIGHT && OnLevel(s, i, a) && s.nodes[a].next[i] != NULL
    ensures Linked(s, i, s.nodes[a].next[i]) && Later(s, s.nodes[a].next[i]) < Later(s, a)
  {
    var p := s.nodes[a].next[i];
    assert IsNext(s, i, a, p);
    assert p in Later(s, a) && p !in Later(s, p);
  }

  /** The nodes reached from `a` by following links at level `i`. */
  ghost function Walk(s: List, i: nat, a: int): seq<int>
    requires Ok(s) && i < MAX_HEIGHT && OnLevel(s, i, a)
    decreases Later(s, a)
  {
    var p := s.nodes[a].next[i];
    assert IsNext(s, i, a, p);
    if p == NULL then []
    else
      NextIsLater(s, i, a);
      [p] + Walk(s, i, p)
  }

  /** The walk from the head visits exactly the linked nodes, in increasing order of keys. */
  lemma {:induction false} WalkIsSorted(s: List, i: nat, a: int)
    requires Ok(s) && i < MAX_HEIGHT && OnLevel(s, i, a)
    ensures forall b :: b in Walk(s, i, a) <==> Linked(s, i, b) && Behind(s, a, b)
    ensures forall j, k | 0 <= j < k < |Walk(s, i, a)| ::
              Linked(s, i, Walk(s, i, a)[j]) && Linked(s, i, Walk(s, i, a)[k])
              && s.nodes[Walk(s, i, a)[j]].key < s.nodes[Walk(s, i, a)[k]].key
    decreases Later(s, a)
  {
    var p := s.nodes[a].next[i];
    assert IsNext(s, i, a, p);
    if p != NULL {
      NextIsLater(s, i, a);
      WalkIsSorted(s, i, p);
      forall b
        ensures b in Walk(s, i, a) <==> Linked(s, i, b) && Behind(s, a, b)
      {
        if Linked(s, i, b) && Behind(s, a, b) && b != p {
          assert Linked(s, 0, b) && Linked(s, 0, p);
        }
      }
    }
  }

  // ------------------------------------------------------------------ the writer

  /** `p` is the last node before `key` on level `i`. */
  ghost predicate IsPrev(s: List, i: nat, p: int, key: Key) {
    && 0 <= p < |s.nodes| && OnLevel(s, i, p) && (p != HEAD ==> s.nodes[p].key < key)
    && forall b | Linked(s, i, b) && Behind(s, p, b) :: key < s.nodes[b].key
  }

  datatype Writer =
    | Idle
    | Raising(key: Key, height: nat, prev: seq<int>)
    /** Node `x` is linked below level `i`; `ready` when its own link at level `i` is set. */
    | Linking(x: int, height: nat, prev: seq<int>, i: nat, ready: bool)

  ghost predicate NoSuchKey(s: List, x: int, key: Key) {
    forall b | Linked(s, 0, b) && b != x :: s.nodes[b].key != key
  }

  /** Every node but `x` is linked into all its levels. */
  ghost predicate AllLinked(s: List, x: int) {
    forall b | 0 < b < |s.nodes| && b < |s.up| && b != x :: s.up[b] == |s.nodes[b].next| >= 1
  }

  ghost predicate WriterOk(s: List, w: Writer) {
    match w
    case Idle => AllLinked(s, NULL)
    case Raising(key, height, prev) =>
      && AllLinked(s, NULL) && 1 <= height <= MAX_HEIGHT && |prev| == MAX_HEIGHT && NoSuchKey(s, NULL, key)
      && forall i | 0 <= i < height :: IsPrev(s, i, prev[i], key)
    case Linking(x, height, prev, i, ready) =>
      && AllLinked(s, x) && 0 < x < |s.nodes| == |s.up| && s.up[x] == i < height == |s.nodes[x].next| && |prev| == MAX_HEIGHT
      && height <= MAX_HEIGHT && NoSuchKey(s, x, s.nodes[x].key)
      && (forall j | i <= j < height :: IsPrev(s, j, prev[j], s.nodes[x].key))
      && (ready ==> 0 <= prev[i] < |s.nodes| && i < |s.nodes[prev[i]].next| && s.nodes[x].next[i] == s.nodes[prev[i]].next[i])
  }

  /** The insertion, one store to shared memory at a time. */
  ghost predicate WriterStep(s: List, w: Writer, s1: List, w1: Writer) {
    match w
    case Idle => s1 == s && w1.Raising? && WriterOk(s, w1)
    case Raising(key, height, prev) =>
      && s1 == RaiseAndAllocate(s, key, height)
      && w1 == Linking(|s.nodes|, height, prev, 0, false)
    case Linking(x, height, prev, i, ready) =>
      WriterOk(s, w) && Heights(s) &&
      if !ready then
        prev[i] < |s.nodes| && i < |s.nodes[prev[i]].next|
        && s1 == Prepare(s, x, prev[i], i) && w1 == w.(ready := true)
      else
        i < |s.nodes[prev[i]].next|
        && s1 == Publish(s, x, prev[i], i)
        && w1 == if i + 1 == height then Idle else w.(i := i + 1, ready := false)
  }

  /** A new maximum height, if needed, and a node nobody can see yet. */
  function RaiseAndAllocate(s: List, key: Key, height: nat): List {
    List(s.nodes + [Node(key, seq(height, i => NULL))], if height > s.maxHeight then height else s.maxHeight, s.up + [0])
  }

  function SetNext(nodes: seq<Node>, a: int, i: nat, p: int): seq<Node>
    requires 0 <= a < |nodes| && i < |nodes[a].next|
  {
    nodes[a := Node(nodes[a].key, nodes[a].next[i := p])]
  }

  function Prepare(s: List, x: int, p: int, i: nat): List
    requires 0 <= x < |s.nodes| && 0 <= p < |s.nodes| && i < |s.nodes[x].next| && i < |s.nodes[p].next|
  {
    s.(nodes := SetNext(s.nodes, x, i, s.nodes[p].next[i]))
  }

  function Publish(s: List, x: int, p: int, i: nat): List
    requires 0 <= p < |s.nodes| && i < |s.nodes[p].next| && 0 <= x < |s.up|
  {
    s.(nodes := SetNext(s.nodes, p, i, x), up := s.up[x := i + 1])
  }

  /** Nodes are never removed, unlinked or given another key. */
  ghost predicate Grows(s: List, t: List) {
    && |s.nodes| <= |t.nodes| && |s.nodes| == |s.up| && |t.nodes| == |t.up|
    && forall b | 0 <= b < |s.nodes| :: t.nodes[b].key == s.nodes[b].key && s.up[b] <= t.up[b]
  }

  lemma AllocateKeeps(s: List, key: Key, height: nat)
    requires Ok(s) && 1 <= height <= MAX_HEIGHT
    ensures var t := RaiseAndAllocate(s, key, height);
            Ok(t) && Grows(s, t) && forall i: nat, b :: Linked(t, i, b) <==> Linked(s, i, b)
  {
    var t := RaiseAndAllocate(s, key, height);
    assert forall b | 0 <= b < |s.nodes| :: t.nodes[b] == s.nodes[b] && t.up[b] == s.up[b];
    assert forall i: nat, b :: Linked(t, i, b) <==> Linked(s, i, b);
    forall i: nat, a | i < MAX_HEIGHT && OnLevel(t, i, a)
      ensures IsNext(t, i, a, t.nodes[a].next[i])
    {
      assert IsNext(s, i, a, s.nodes[a].next[i]);
    }
  }

  lemma PrepareKeeps(s: List, x: int, p: int, i: nat)
    requires Ok(s) && 0 < x < |s.nodes| && s.up[x] <= i < |s.nodes[x].next| && OnLevel(s, i, p) && i < MAX_HEIGHT
    ensures var t := Prepare(s, x, p, i);
            Ok(t) && Grows(s, t) && forall j: nat, b :: Linked(t, j, b) <==> Linked(s, j, b)
  {
    var t := Prepare(s, x, p, i);
    assert forall j: nat, b :: Linked(t, j, b) <==> Linked(s, j, b);
    forall j: nat, a | j < MAX_HEIGHT && OnLevel(t, j, a)
      ensures IsNext(t, j, a, t.nodes[a].next[j])
    {
      assert IsNext(s, j, a, s.nodes[a].next[j]);
    }
  }

  /** The store that publishes `x` at level `i`: the level gains `x` in its place. */
  lemma PublishKeeps(s: List, x: int, p: int, i: nat)
    requires Ok(s) && 0 < x < |s.nodes| && s.up[x] == i < |s.nodes[x].next| && i < MAX_HEIGHT
    requires IsPrev(s, i, p, s.nodes[x].key) && s.nodes[x].next[i] == s.nodes[p].next[i]
    requires NoSuchKey(s, x, s.nodes[x].key)
    ensures var t := Publish(s, x, p, i);
            Ok(t) && Grows(s, t)
            && forall j: nat, b :: Linked(t, j, b) <==> Linked(s, j, b) || (j == i && b == x)
  {
    var t := Publish(s, x, p, i);
    assert p != x;
    assert forall j: nat, b :: Linked(t, j, b) <==> Linked(s, j, b) || (j == i && b == x);
    assert IsNext(s, i, p, s.nodes[p].next[i]);
    forall j: nat, a | j < MAX_HEIGHT && OnLevel(t, j, a)
      ensures IsNext(t, j, a, t.nodes[a].next[j])
    {
      if j == i {
        PublishedNext(s, x, p, i, a);
      } else {
        assert IsNext(s, j, a, s.nodes[a].next[j]);
        OtherLevelStays(s, x, p, i, j, a);
      }
    }
  }

  lemma OtherLevelStays(s: List, x: int, p: int, i: nat, j: nat, a: int)
    requires Ok(s) && 0 < x < |s.nodes| && s.up[x] == i < |s.nodes[x].next| && i < MAX_HEIGHT
    requires IsPrev(s, i, p, s.nodes[x].key) && p != x && j != i && j < MAX_HEIGHT
    requires OnLevel(Publish(s, x, p, i), j, a) && OnLevel(s, j, a) && IsNext(s, j, a, s.nodes[a].next[j])
    ensures var t := Publish(s, x, p, i); IsNext(t, j, a, t.nodes[a].next[j])
  {
    var t := Publish(s, x, p, i);
    assert forall b :: Linked(t, j, b) <==> Linked(s, j, b);
    assert forall b | Linked(s, j, b) :: Behind(t, a, b) <==> Behind(s, a, b);
  }

  lemma PublishedNext(s: List, x: int, p: int, i: nat, a: int)
    requires Ok(s) && 0 < x < |s.nodes| && s.up[x] == i < |s.nodes[x].next| && i < MAX_HEIGHT
    requires IsPrev(s, i, p, s.nodes[x].key) && s.nodes[x].next[i] == s.nodes[p].next[i]
    requires OnLevel(Publish(s, x, p, i), i, a)
    ensures var t := Publish(s, x, p, i); IsNext(t, i, a, t.nodes[a].next[i])
  {
    var t := Publish(s, x, p, i);
    var q := s.nodes[p].next[i];
    assert p != x && IsNext(s, i, p, q);
    assert forall b :: Linked(t, i, b) <==> Linked(s, i, b) || b == x;
    if a != x && a != p {
      var r := s.nodes[a].next[i];
      assert IsNext(s, i, a, r);
      if Behind(s, a, x) {
        assert p != HEAD;
        assert Linked(s, i, p) && (a != HEAD ==> Linked(s, 0, a) && Linked(s, 0, p));
      }
    }
  }

  lemma WriterStepKeeps(s: List, w: Writer, s1: List, w1: Writer)
    requires Ok(s) && WriterOk(s, w) && WriterStep(s, w, s1, w1)
    ensures Ok(s1) && WriterOk(s1, w1) && Grows(s, s1)
  {
    match w
    case Idle =>
    case Raising(key, height, prev) =>
      AllocateKeeps(s, key, height);
      StartLinking(s, key, height, prev);
    case Linking(x, height, prev, i, ready) =>
      if !ready {
        PrepareKeeps(s, x, prev[i], i);
        PrevsStay(s, s1, x, i, height, prev);
      } else {
        PublishKeeps(s, x, prev[i], i);
        PrevsStay(s, s1, x, i + 1, height, prev);
      }
  }

  lemma StartLinking(s: List, key: Key, height: nat, prev: seq<int>)
    requires Ok(s) && WriterOk(s, Raising(key, height, prev))
    ensures WriterOk(RaiseAndAllocate(s, key, height), Linking(|s.nodes|, height, prev, 0, false))
  {
    var t := RaiseAndAllocate(s, key, height);
    AllocateKeeps(s, key, height);
    assert forall i | 0 <= i < height :: IsPrev(s, i, prev[i], key);
  }

  lemma PrevsStay(s: List, t: List, x: int, i: nat, height: nat, prev: seq<int>)
    requires Ok(s) && Grows(s, t) && 0 < x < |s.nodes| && |s.nodes| == |t.nodes| && height <= |prev|
    requires forall j: nat, b | j >= i :: Linked(t, j, b) <==> Linked(s, j, b)
    requires forall j | i <= j < height :: IsPrev(s, j, prev[j], s.nodes[x].key)
    ensures forall j | i <= j < height :: IsPrev(t, j, prev[j], t.nodes[x].key)
  {
    forall j | i <= j < height
      ensures IsPrev(t, j, prev[j], t.nodes[x].key)
    {
      assert IsPrev(s, j, prev[j], s.nodes[x].key);
    }
  }

  // ---------------------------------------------------------------- the readers

  /** A search for the nodes around `target` (no target: the end of the list), as all three
      search loops do it. `present` is what was linked when it began. */
  datatype Reader =
    | Searching(target: Option<Key>, x: int, level: nat, present: set<int>)
    | Done(target: Option<Key>, x: int, next: int, present: set<int>)

  predicate IsBefore(s: List, b: int, target: Option<Key>)
    requires 0 <= b < |s.nodes|
  {
    target.None? || s.nodes[b].key < target.value
  }

  ghost predicate AllPresent(s: List, present: set<int>) {
    forall b | b in present :: Linked(s, 0, b)
  }

  ghost predicate ReaderOk(s: List, r: Reader) {
    && AllPresent(s, r.present)
    && match r
       case Searching(target, x, level, _) =>
         level < MAX_HEIGHT && OnLevel(s, level, x) && (x != HEAD ==> IsBefore(s, x, target))
       case Done(target, x, next, present) => FoundAround(s, target, x, next, present)
  }

  /** `x` is before the target, `next` is not, and no present node lies between them. */
  ghost predicate FoundAround(s: List, target: Option<Key>, x: int, next: int, present: set<int>) {
    && 0 < |s.nodes| && AllPresent(s, present)
    && (x != HEAD ==> Linked(s, 0, x) && IsBefore(s, x, target))
    && (next != NULL ==> Linked(s, 0, next) && !IsBefore(s, next, target))
    && forall b | b in present ::
         if IsBefore(s, b, target) then x != HEAD && s.nodes[b].key <= s.nodes[x].key
         else next != NULL && s.nodes[next].key <= s.nodes[b].key
  }

  /** A search begins at any level: it may have read a maximum height long out of date. */
  ghost predicate Begin(s: List, r: Reader) {
    && r.Searching? && r.x == HEAD && r.level < MAX_HEIGHT
    && forall b :: b in r.present <==> Linked(s, 0, b)
  }

  /** One load of a link, and what the reader does with it. */
  function ReaderStep(s: List, r: Reader): Reader
    requires r.Searching? && 0 <= r.x < |s.nodes| && r.level < |s.nodes[r.x].next|
    requires var p := s.nodes[r.x].next[r.level]; p == NULL || 0 <= p < |s.nodes|
  {
    var next := s.nodes[r.x].next[r.level];
    if next != NULL && IsBefore(s, next, r.target) then Searching(r.target, next, r.level, r.present)
    else if r.level == 0 then Done(r.target, r.x, next, r.present)
    else Searching(r.target, r.x, r.level - 1, r.present)
  }

  lemma ReaderCanStep(s: List, r: Reader)
    requires Ok(s) && ReaderOk(s, r) && r.Searching?
    ensures 0 <= r.x < |s.nodes| && r.level < |s.nodes[r.x].next|
    ensures var p := s.nodes[r.x].next[r.level]; p == NULL || Linked(s, r.level, p)
  {
    assert IsNext(s, r.level, r.x, s.nodes[r.x].next[r.level]);
  }

  lemma ReaderStepKeeps(s: List, r: Reader)
    requires Ok(s) && ReaderOk(s, r) && r.Searching?
    ensures 0 <= r.x < |s.nodes| && r.level < |s.nodes[r.x].next|
    ensures var p := s.nodes[r.x].next[r.level]; (p == NULL || 0 <= p < |s.nodes|) && ReaderOk(s, ReaderStep(s, r))
  {
    ReaderCanStep(s, r);
    assert IsNext(s, r.level, r.x, s.nodes[r.x].next[r.level]);
  }

  lemma GrowthKeepsReader(s: List, t: List, r: Reader)
    requires Grows(s, t) && 0 < |s.nodes| && ReaderOk(s, r)
    ensures ReaderOk(t, r)
  {
    assert forall i: nat, b | Linked(s, i, b) :: Linked(t, i, b) && t.nodes[b].key == s.nodes[b].key;
  }

  // ------------------------------------------------------------------- all runs

  /** One writer and any number of readers. */
  datatype System = System(list: List, writer: Writer, readers: seq<Reader>)

  ghost predicate SystemOk(y: System) {
    Ok(y.list) && WriterOk(y.list, y.writer) && forall r | r in y.readers :: ReaderOk(y.list, r)
  }

  ghost predicate Step(y: System, z: System) {
    || (WriterStep(y.list, y.writer, z.list, z.writer) && z.readers == y.readers)
    || (z.list == y.list && z.writer == y.writer && ReadersStep(y.list, y.readers, z.readers))
  }

  ghost predicate ReadersStep(s: List, rs: seq<Reader>, rs1: seq<Reader>) {
    || (exists r :: Begin(s, r) && rs1 == rs + [r])
    || (exists i :: 0 <= i < |rs| && StepsTo(s, rs[i], rs1, rs, i))
  }

  ghost predicate StepsTo(s: List, r: Reader, rs1: seq<Reader>, rs: seq<Reader>, i: int) {
    && 0 <= i < |rs| && r.Searching? && 0 <= r.x < |s.nodes| && r.level < |s.nodes[r.x].next|
    && (var p := s.nodes[r.x].next[r.level]; p == NULL || 0 <= p < |s.nodes|)
    && rs1 == rs[i := ReaderStep(s, r)]
  }

  lemma StepKeepsOk(y: System, z: System)
    requires SystemOk(y) && Step(y, z)
    ensures SystemOk(z) && Grows(y.list, z.list)
  {
    if WriterStep(y.list, y.writer, z.list, z.writer) && z.readers == y.readers {
      WriterStepKeeps(y.list, y.writer, z.list, z.writer);
      forall r | r in z.readers
        ensures ReaderOk(z.list, r)
      {
        GrowthKeepsReader(y.list, z.list, r);
      }
    } else {
      forall r | r in y.readers && r.Searching?
        ensures 0 <= r.x < |y.list.nodes| && r.level < |y.list.nodes[r.x].next|
        ensures var p := y.list.nodes[r.x].next[r.level];
                (p == NULL || 0 <= p < |y.list.nodes|) && ReaderOk(y.list, ReaderStep(y.list, r))
      {
        ReaderStepKeeps(y.list, r);
      }
    }
  }

  function Empty(): List {
    List([Node(0.0, seq(MAX_HEIGHT, i => NULL))], 1, [MAX_HEIGHT])
  }

  ghost predicate Run(ys: seq<System>) {
    && ys != [] && ys[0] == System(Empty(), Idle, [])
    && forall i | 0 <= i < |ys| - 1 :: Step(ys[i], ys[i + 1])
  }

  lemma {:induction false} RunIsOk(ys: seq<System>, k: nat)
    requires Run(ys) && k < |ys|
    ensures SystemOk(ys[k])
  {
    if k == 0 {
      assert forall i: nat, b :: !Linked(Empty(), i, b);
    } else {
      RunIsOk(ys, k - 1);
      StepKeepsOk(ys[k - 1], ys[k]);
    }
  }

  /** In every run, at every point between two stores: each level walked from the head is sorted
      and holds exactly the nodes linked there, and those are linked on the level below. */
  lemma LevelsAreSorted(ys: seq<System>, k: nat, i: nat)
    requires Run(ys) && k < |ys| && i < MAX_HEIGHT
    ensures Ok(ys[k].list)
    ensures var s := ys[k].list;
            var walk := Walk(s, i, HEAD);
            && (forall b :: b in walk <==> Linked(s, i, b))
            && (forall j, l | 0 <= j < l < |walk| ::
                  Linked(s, i, walk[j]) && Linked(s, i, walk[l]) && s.nodes[walk[j]].key < s.nodes[walk[l]].key)
            && (i > 0 ==> forall b | b in walk :: b in Walk(s, i - 1, HEAD))
  {
    RunIsOk(ys, k);
    var s := ys[k].list;
    WalkIsSorted(s, i, HEAD);
    if i > 0 {
      WalkIsSorted(s, i - 1, HEAD);
    }
  }

  /** In every run, a finished search, however its loads interleave with stores, has found the
      nodes around its target and skipped none that was there when it began. */
  lemma SearchSkipsNothing(ys: seq<System>, k: nat, r: Reader)
    requires Run(ys) && k < |ys| && r in ys[k].readers && r.Done?
    ensures FoundAround(ys[k].list, r.target, r.x, r.next, r.present)
  {
    RunIsOk(ys, k);
  }

  // ------------------------------------------------------------------ the object

  class SkipList {
    var nodes: seq<Node>
    var maxHeight: nat
    ghost var up: seq<nat>

    ghost function Model(): List
      reads this
    {
      List(nodes, maxHeight, up)
    }

    ghost predicate Valid()
      reads this
    {
      Ok(Model()) && AllLinked(Model(), NULL)
    }

    ghost function Contents(): set<Key>
      requires Valid()
      reads this
    {
      KeySet(Model())
    }

    constructor ()
      ensures Valid() && Contents() == {}
    {
      nodes, maxHeight, up := [Node(0.0, seq(MAX_HEIGHT, i => NULL))], 1, [MAX_HEIGHT];
      new;
      assert forall i: nat, b :: !Linked(Model(), i, b);
    }

    predicate KeyIsAfterNode(key: Key, n: int)
      requires n == NULL || 0 <= n < |nodes|
      reads this
    {
      n != NULL && nodes[n].key < key
    }

    /** The first node at or after `key`, and the last node before it on every level in use. */
    method FindGreaterOrEqual(key: Key) returns (r: int, prev: seq<int>)
      requires Valid()
      ensures r == NULL || Linked(Model(), 0, r)
      ensures if r == NULL then forall k | k in Contents() :: k < key
              else nodes[r].key in Contents() && key <= nodes[r].key && forall k | k in Contents() && key <= k :: nodes[r].key <= k
      ensures |prev| == MAX_HEIGHT && forall i | 0 <= i < maxHeight :: PrevOrEqual(Model(), i, prev[i], key)
    {
      ghost var s := Model();
      var x: int := HEAD;
      var level: nat := maxHeight - 1;
      prev := seq(MAX_HEIGHT, i => NULL);
      while true
        invariant level < maxHeight && |prev| == MAX_HEIGHT
        invariant OnLevel(s, level, x) && (x != HEAD ==> nodes[x].key < key)
        invariant forall i | level < i < maxHeight :: PrevOrEqual(s, i, prev[i], key)
        decreases level, Later(s, x)
      {
        var next := nodes[x].next[level];
        assert IsNext(s, level, x, next);
        if KeyIsAfterNode(key, next) {
          NextIsLater(s, level, x);
          x := next;
        } else {
          prev := prev[level := x];
          assert PrevOrEqual(s, level, x, key);
          if level == 0 {
            AroundKeys(s, x, next, key);
            return next, prev;
          }
          level := level - 1;
        }
      }
    }

    /** The last node before `key`; the head if there is none. */
    method FindLessThan(key: Key) returns (x: int)
      requires Valid()
      ensures OnLevel(Model(), 0, x)
      ensures if x == HEAD then forall k | k in Contents() :: key <= k
              else nodes[x].key in Contents() && nodes[x].key < key && forall k | k in Contents() && k < key :: k <= nodes[x].key
    {
      ghost var s := Model();
      x := HEAD;
      var level: nat := maxHeight - 1;
      while true
        invariant level < maxHeight
        invariant OnLevel(s, level, x) && (x != HEAD ==> nodes[x].key < key)
        decreases level, Later(s, x)
      {
        var next := nodes[x].next[level];
        assert IsNext(s, level, x, next);
        if next == NULL || nodes[next].key >= key {
          if level == 0 {
            AroundKeys(s, x, next, key);
            return;
          }
          level := level - 1;
        } else {
          NextIsLater(s, level, x);
          x := next;
        }
      }
    }

    /** The last node of the list; the head if the list is empty. */
    method FindLast() returns (x: int)
      requires Valid()
      ensures OnLevel(Model(), 0, x)
      ensures if x == HEAD then Contents() == {}
              else nodes[x].key in Contents() && forall k | k in Contents() :: k <= nodes[x].key
    {
      ghost var s := Model();
      x := HEAD;
      var level: nat := maxHeight - 1;
      while true
        invariant level < maxHeight && OnLevel(s, level, x)
        decreases level, Later(s, x)
      {
        var next := nodes[x].next[level];
        assert IsNext(s, level, x, next);
        if next == NULL {
          if level == 0 {
            return;
          }
          level := level - 1;
        } else {
          NextIsLater(s, level, x);
          x := next;
        }
      }
    }

    method Contains(key: Key) returns (r: bool)
      requires Valid()
      ensures r <==> key in Contents()
    {
      var x, prev := FindGreaterOrEqual(key);
      r := x != NULL && nodes[x].key == key;
    }

    /** Links a new node of the given height into the list, level by level from the bottom. Every
        store is a step of the writer above. */
    method Insert(key: Key, height: nat)
      requires Valid() && key !in Contents() && 1 <= height <= MAX_HEIGHT
      modifies this
      ensures Valid() && Contents() == old(Contents()) + {key}
      // a node that is on as many levels as asked for, and every other node on as many as before
      ensures |nodes| == |old(nodes)| + 1 && nodes[|old(nodes)|].key == key && up == old(up) + [height]
    {
      ghost var s0 := Model();
      var found, prev := FindGreaterOrEqual(key);
      prev := PrevsAbove(key, prev, height);
      ghost var w := Raising(key, height, prev);
      PrevsFound(s0, w);
      AllocateKeeps(s0, key, height);
      if height > maxHeight {
        maxHeight := height;
      }
      var x := |nodes|;
      nodes, up := nodes + [Node(key, seq(height, i => NULL))], up + [0];
      WriterStepKeeps(s0, w, Model(), Linking(x, height, prev, 0, false));
      for i := 0 to height
        invariant Inserting(s0, Model(), x, key, height, prev, i)
      {
        LinkLevel(s0, x, key, height, prev, i);
      }
      KeysGrow(s0, Model(), x);
    }

    /** Levels not in use yet start at the head. */
    method PrevsAbove(key: Key, prev0: seq<int>, height: nat) returns (prev: seq<int>)
      requires Valid() && height <= MAX_HEIGHT
      requires |prev0| == MAX_HEIGHT && forall i | 0 <= i < maxHeight :: PrevOrEqual(Model(), i, prev0[i], key)
      ensures |prev| == MAX_HEIGHT && forall i | 0 <= i < height :: PrevOrEqual(Model(), i, prev[i], key)
    {
      prev := prev0;
      if height > maxHeight {
        for i := maxHeight to height
          invariant |prev| == MAX_HEIGHT
          invariant forall j | 0 <= j < i :: PrevOrEqual(Model(), j, prev[j], key)
        {
          assert forall b :: !Linked(Model(), i, b);
          prev := prev[i := HEAD];
        }
      }
    }

    method LinkLevel(ghost s0: List, x: int, key: Key, height: nat, prev: seq<int>, i: nat)
      requires Inserting(s0, Model(), x, key, height, prev, i) && i < height
      modifies this
      ensures Inserting(s0, Model(), x, key, height, prev, i + 1)
    {
      LinkBoth(s0, Model(), x, key, height, prev, i);
      nodes := SetNext(nodes, x, i, nodes[prev[i]].next[i]);
      nodes := SetNext(nodes, prev[i], i, x);
      up := up[x := i + 1];
    }
  }

  /** A position in a list: a linked node, or none. */
  class Iterator {
    const list: SkipList
    var node: int

    ghost predicate Valid()
      reads this, list
    {
      list.Valid() && (node == NULL || Linked(list.Model(), 0, node))
    }

    /** The key shown; no key when the iterator is past either end. */
    function Shown(): Option<Key>
      requires node == NULL || 0 <= node < |list.nodes|
      reads this, list
    {
      if node == NULL then None else Some(list.nodes[node].key)
    }

    constructor (list: SkipList)
      requires list.Valid()
      ensures Valid() && this.list == list && node == NULL
    {
      this.list, node := list, NULL;
    }

    method Seek(target: Key)
      requires Valid()
      modifies this
      ensures Valid() && IsLeast(Shown(), set k | k in list.Contents() && k >= target)
    {
      var prev;
      node, prev := list.FindGreaterOrEqual(target);
    }

    method SeekToFirst()
      requires Valid()
      modifies this
      ensures Valid() && IsLeast(Shown(), list.Contents())
    {
      node := list.nodes[HEAD].next[0];
      assert IsNext(list.Model(), 0, HEAD, node);
    }

    method SeekToLast()
      requires Valid()
      modifies this
      ensures Valid() && IsGreatest(Shown(), list.Contents())
    {
      node := list.FindLast();
      if node == HEAD {
        node := NULL;
      }
    }

    method Next()
      requires Valid() && node != NULL
      modifies this
      ensures Valid() && IsLeast(Shown(), set k | k in list.Contents() && k > old(Shown().value))
    {
      ghost var before := node;
      node := list.nodes[node].next[0];
      NextIsLeast(list.Model(), before);
    }

    method Prev()
      requires Valid() && node != NULL
      modifies this
      ensures Valid() && IsGreatest(Shown(), set k | k in list.Contents() && k < old(Shown().value))
    {
      node := list.FindLessThan(list.nodes[node].key);
      if node == HEAD {
        node := NULL;
      }
    }
  }

  lemma NextIsLeast(s: List, a: int)
    requires Ok(s) && Linked(s, 0, a)
    ensures var p := s.nodes[a].next[0];
            (p != NULL ==> Linked(s, 0, p))
            && IsLeast(if p == NULL then None else Some(s.nodes[p].key), set k | k in KeySet(s) && k > s.nodes[a].key)
  {
    var p := s.nodes[a].next[0];
    assert IsNext(s, 0, a, p);
    forall k | k in KeySet(s) && k > s.nodes[a].key
      ensures p != NULL && s.nodes[p].key <= k
    {
      var b :| 0 < b < |s.nodes| && Linked(s, 0, b) && s.nodes[b].key == k;
      assert Behind(s, a, b);
    }
    assert p != NULL ==> s.nodes[p].key in KeySet(s);
  }

  ghost predicate IsLeast(r: Option<Key>, keys: set<Key>) {
    match r
    case None => keys == {}
    case Some(k) => k in keys && forall x | x in keys :: k <= x
  }

  ghost predicate IsGreatest(r: Option<Key>, keys: set<Key>) {
    match r
    case None => keys == {}
    case Some(k) => k in keys && forall x | x in keys :: x <= k
  }

  /** Node `x` with `key` is linked below level `i`, and nothing else has changed since `s0`. */
  ghost predicate Inserting(s0: List, s: List, x: int, key: Key, height: nat, prev: seq<int>, i: nat) {
    && Ok(s) && Grows(s0, s) && 0 < x == |s0.nodes| && |s.nodes| == x + 1 && s.nodes[x].key == key && s.up == s0.up + [i]
    && WriterOk(s, if i == height then Idle else Linking(x, height, prev, i, false))
    && forall b :: Linked(s, 0, b) <==> Linked(s0, 0, b) || (i > 0 && b == x)
  }

  ghost predicate PrevOrEqual(s: List, i: nat, p: int, key: Key) {
    && 0 <= p < |s.nodes| && OnLevel(s, i, p) && (p != HEAD ==> s.nodes[p].key < key)
    && forall b | Linked(s, i, b) && Behind(s, p, b) :: key <= s.nodes[b].key
  }

  lemma AroundKeys(s: List, x: int, next: int, key: Key)
    requires Ok(s) && OnLevel(s, 0, x) && IsNext(s, 0, x, next) && (x != HEAD ==> s.nodes[x].key < key)
    requires next != NULL ==> key <= s.nodes[next].key
    ensures next != NULL ==> s.nodes[next].key in KeySet(s)
    ensures x != HEAD ==> s.nodes[x].key in KeySet(s)
    ensures forall k | k in KeySet(s) :: if k < key then x != HEAD && k <= s.nodes[x].key
                                       else next != NULL && s.nodes[next].key <= k
  {
  }

  lemma PrevsFound(s: List, w: Writer)
    requires Ok(s) && AllLinked(s, NULL) && w.Raising? && 1 <= w.height <= MAX_HEIGHT && |w.prev| == MAX_HEIGHT
    requires w.key !in KeySet(s) && forall i | 0 <= i < w.height :: PrevOrEqual(s, i, w.prev[i], w.key)
    ensures WriterOk(s, w)
  {
    forall i, b | 0 <= i < w.height && Linked(s, i, b)
      ensures s.nodes[b].key != w.key
    {
      assert s.nodes[b].key in KeySet(s);
    }
  }

  /** One store of the linking loop. */
  lemma LinkStep(s: List, w: Writer)
    requires Ok(s) && WriterOk(s, w) && w.Linking?
    ensures 0 <= w.prev[w.i] < |s.nodes| && w.i < |s.nodes[w.prev[w.i]].next|
    ensures var p := w.prev[w.i];
            var t := if w.ready then Publish(s, w.x, p, w.i) else Prepare(s, w.x, p, w.i);
            var w1 := if !w.ready then w.(ready := true)
                      else if w.i + 1 == w.height then Idle else w.(i := w.i + 1, ready := false);
            && WriterStep(s, w, t, w1) && Ok(t) && WriterOk(t, w1) && Grows(s, t)
            && forall b :: Linked(t, 0, b) <==> Linked(s, 0, b) || (w.ready && w.i == 0 && b == w.x)
  {
    var p := w.prev[w.i];
    assert IsPrev(s, w.i, p, s.nodes[w.x].key);
    var t := if w.ready then Publish(s, w.x, p, w.i) else Prepare(s, w.x, p, w.i);
    var w1 := if !w.ready then w.(ready := true)
              else if w.i + 1 == w.height then Idle else w.(i := w.i + 1, ready := false);
    WriterStepKeeps(s, w, t, w1);
  }

  /** Both stores of one level. */
  lemma LinkBoth(s0: List, s: List, x: int, key: Key, height: nat, prev: seq<int>, i: nat)
    requires Inserting(s0, s, x, key, height, prev, i) && i < height
    ensures 0 <= prev[i] < |s.nodes| && i < |s.nodes[prev[i]].next| && i < |s.nodes[x].next|
    ensures var t := Prepare(s, x, prev[i], i);
            i < |t.nodes[prev[i]].next| && Inserting(s0, Publish(t, x, prev[i], i), x, key, height, prev, i + 1)
  {
    var w := Linking(x, height, prev, i, false);
    LinkStep(s, w);
    LinkStep(Prepare(s, x, prev[i], i), w.(ready := true));
  }

  lemma KeysGrow(s: List, t: List, x: int)
    requires Heights(s) && Heights(t) && Grows(s, t) && 0 < x < |t.nodes|
    requires forall b :: Linked(t, 0, b) <==> Linked(s, 0, b) || b == x
    ensures KeySet(t) == KeySet(s) + {t.nodes[x].key}
  {
    forall k
      ensures k in KeySet(t) <==> k in KeySet(s) || k == t.nodes[x].key
    {
      if k in KeySet(s) {
        var b :| 0 < b < |s.nodes| && Linked(s, 0, b) && s.nodes[b].key == k;
        assert Linked(t, 0, b) && t.nodes[b].key == k;
      }
      assert Linked(t, 0, x);
    }
  }
}
