/** The merging iterator (table/merger.cc) acts as a cursor on the sorted union of its
    children, in both directions. */
module Merger {
  import opened Keys
  import opened Cursors

  ghost predicate InSome(runs: seq<seq<Entry>>, e: Entry) {
    exists i :: 0 <= i < |runs| && e in runs[i]
  }

  /** `merged` is the sorted union of the runs, whose keys are pairwise distinct. */
  ghost predicate IsUnion(merged: seq<Entry>, runs: seq<seq<Entry>>) {
    Sorted(merged) && DistinctRuns(runs) && forall e :: e in merged <==> InSome(runs, e)
  }

  ghost predicate DistinctRuns(runs: seq<seq<Entry>>) {
    && (forall i | 0 <= i < |runs| :: Sorted(runs[i]))
    && forall i, j | 0 <= i < j < |runs| :: KeysDiffer(runs[i], runs[j])
  }

  ghost predicate KeysDiffer(a: seq<Entry>, b: seq<Entry>) {
    forall e, f | e in a && f in b :: e.key != f.key
  }

  function InsertAll(es: seq<Entry>, run: seq<Entry>): seq<Entry> {
    if run == [] then es else Insert(InsertAll(es, run[..|run| - 1]), run[|run| - 1])
  }

  function Union(runs: seq<seq<Entry>>): seq<Entry> {
    if runs == [] then [] else InsertAll(Union(runs[..|runs| - 1]), runs[|runs| - 1])
  }

  lemma {:induction false} InsertAllKeeps(es: seq<Entry>, run: seq<Entry>)
    requires Sorted(es) && Sorted(run)
    requires forall e, f | e in es && f in run :: e.key != f.key
    ensures Sorted(InsertAll(es, run))
    ensures forall e :: e in InsertAll(es, run) <==> e in es || e in run
  {
    if run != [] {
      var n := |run| - 1;
      var rest := run[..n];
      LastOfRun(run);
      InsertAllKeeps(es, rest);
      InsertSorted(InsertAll(es, rest), run[n]);
    }
  }

  lemma LastOfRun(run: seq<Entry>)
    requires Sorted(run) && run != []
    ensures var n := |run| - 1;
            Sorted(run[..n]) && (forall e :: e in run <==> e in run[..n] || e == run[n])
            && forall e | e in run[..n] :: e.key != run[n].key
  {
    var n := |run| - 1;
    assert run == run[..n] + [run[n]];
    forall e | e in run[..n]
      ensures e.key != run[n].key
    {
      var i :| 0 <= i < n && run[..n][i] == e;
      assert Less(run[i].key, run[n].key);
    }
  }

  lemma {:induction false} UnionIs(runs: seq<seq<Entry>>)
    requires DistinctRuns(runs)
    ensures IsUnion(Union(runs), runs)
  {
    if runs != [] {
      var n := |runs| - 1;
      DistinctPrefix(runs);
      UnionIs(runs[..n]);
      UnionStep(Union(runs[..n]), runs);
    }
  }

  lemma DistinctPrefix(runs: seq<seq<Entry>>)
    requires runs != [] && DistinctRuns(runs)
    ensures DistinctRuns(runs[..|runs| - 1])
  {
    var rest := runs[..|runs| - 1];
    forall i: nat, j: nat | i < j < |rest|
      ensures KeysDiffer(rest[i], rest[j])
    {
      assert rest[i] == runs[i] && rest[j] == runs[j];
    }
  }

  lemma AppendRuns(a: seq<seq<Entry>>, b: seq<seq<Entry>>)
    requires DistinctRuns(a) && DistinctRuns(b)
    requires forall e, x | InSome(a, e) && InSome(b, x) :: e.key != x.key
    ensures DistinctRuns(a + b)
  {
    forall i: nat, j: nat | i < j < |a + b|
      ensures KeysDiffer((a + b)[i], (a + b)[j])
    {
      if j < |a| {
        assert KeysDiffer(a[i], a[j]);
      } else if i < |a| {
        forall e, x | e in a[i] && x in b[j - |a|]
          ensures e.key != x.key
        {
          assert InSome(a, e) && InSome(b, x);
        }
      } else {
        assert KeysDiffer(b[i - |a|], b[j - |a|]);
      }
    }
  }

  lemma UnionStep(union: seq<Entry>, runs: seq<seq<Entry>>)
    requires runs != [] && DistinctRuns(runs) && IsUnion(union, runs[..|runs| - 1])
    ensures IsUnion(InsertAll(union, runs[|runs| - 1]), runs)
  {
    var n := |runs| - 1;
    LastRunDiffers(runs, union);
    InsertAllKeeps(union, runs[n]);
    forall e
      ensures e in InsertAll(union, runs[n]) <==> InSome(runs, e)
    {
      InOneMore(runs, runs[..n], runs[n], e);
    }
  }

  lemma LastRunDiffers(runs: seq<seq<Entry>>, union: seq<Entry>)
    requires runs != [] && DistinctRuns(runs) && IsUnion(union, runs[..|runs| - 1])
    ensures forall e, f | e in union && f in runs[|runs| - 1] :: e.key != f.key
  {
    var rest := runs[..|runs| - 1];
    forall e, f | e in union && f in runs[|runs| - 1]
      ensures e.key != f.key
    {
      var i :| 0 <= i < |rest| && e in rest[i];
      assert e in runs[i] && KeysDiffer(runs[i], runs[|runs| - 1]);
    }
  }

  lemma InOneMore(runs: seq<seq<Entry>>, rest: seq<seq<Entry>>, last: seq<Entry>, e: Entry)
    requires runs == rest + [last]
    ensures InSome(runs, e) <==> e in last || InSome(rest, e)
  {
    assert runs[|rest|] == last;
    assert forall i | 0 <= i < |rest| :: runs[i] == rest[i];
  }

  /** How many entries of a run come before position `p` of the union. */
  ghost function CountBefore(run: seq<Entry>, merged: seq<Entry>, p: nat): (n: nat)
    requires p <= |merged|
    ensures n <= |run|
  {
    if p < |merged| then LowerBound(run, merged[p].key) else |run|
  }

  lemma IndexInRun(run: seq<Entry>, e: Entry)
    requires Sorted(run) && e in run
    ensures LowerBound(run, e.key) < |run| && run[LowerBound(run, e.key)] == e
  {
    var i :| 0 <= i < |run| && run[i] == e;
    assert !Less(e.key, e.key);
    LowerBoundIs(run, e.key, i);
  }

  lemma IndexInMerged(merged: seq<Entry>, e: Entry) returns (p: nat)
    requires e in merged
    ensures p < |merged| && merged[p] == e
  {
    p :| 0 <= p < |merged| && merged[p] == e;
  }

  /** The run that holds position `p` is there; every other run is already past it. */
  lemma OwnerOf(merged: seq<Entry>, runs: seq<seq<Entry>>, p: nat) returns (k: nat)
    requires IsUnion(merged, runs) && p < |merged|
    ensures k < |runs|
    ensures var n := CountBefore(runs[k], merged, p); n < |runs[k]| && runs[k][n] == merged[p]
    ensures forall i | 0 <= i < |runs| && i != k :: merged[p] !in runs[i]
  {
    assert merged[p] in merged && InSome(runs, merged[p]);
    k :| 0 <= k < |runs| && merged[p] in runs[k];
    IndexInRun(runs[k], merged[p]);
  }

  lemma RankOrder(merged: seq<Entry>, q: nat, p: nat)
    requires Sorted(merged) && q < |merged| && p < |merged|
    ensures q < p <==> Less(merged[q].key, merged[p].key)
    ensures q == p <==> merged[q] == merged[p]
  {
    assert p < q ==> Less(merged[p].key, merged[q].key);
    assert !Less(merged[p].key, merged[p].key);
  }

  /** Counting in a run agrees with positions in the union. */
  lemma CountedIff(merged: seq<Entry>, run: seq<Entry>, p: nat, j: nat, q: nat)
    requires Sorted(merged) && Sorted(run) && p <= |merged| && j < |run|
    requires q < |merged| && merged[q] == run[j]
    ensures j < CountBefore(run, merged, p) <==> q < p
  {
    if p < |merged| {
      var n := CountBefore(run, merged, p);
      RankOrder(merged, q, p);
      assert n < j ==> Less(run[n].key, run[j].key);
    }
  }

  lemma CountIs(merged: seq<Entry>, runs: seq<seq<Entry>>, p: nat, i: nat, n: nat)
    requires IsUnion(merged, runs) && p <= |merged| && i < |runs| && n <= |runs[i]|
    requires forall j, q | 0 <= j < |runs[i]| && 0 <= q < |merged| && merged[q] == runs[i][j] :: j < n <==> q < p
    ensures CountBefore(runs[i], merged, p) == n
  {
    var c := CountBefore(runs[i], merged, p);
    if c < |runs[i]| {
      assert runs[i][c] in runs[i];
      var q := IndexInMerged(merged, runs[i][c]);
      CountedIff(merged, runs[i], p, c, q);
    }
    if n < |runs[i]| {
      assert runs[i][n] in runs[i];
      var q := IndexInMerged(merged, runs[i][n]);
      CountedIff(merged, runs[i], p, n, q);
    }
  }

  /** The first entry of a run not before position `p` is at or after it. */
  lemma NextOfRun(merged: seq<Entry>, runs: seq<seq<Entry>>, p: nat, i: nat)
    requires IsUnion(merged, runs) && p <= |merged| && i < |runs| && CountBefore(runs[i], merged, p) < |runs[i]|
    ensures p < |merged|
    ensures var e := runs[i][CountBefore(runs[i], merged, p)]; e == merged[p] || Less(merged[p].key, e.key)
  {
    var n := CountBefore(runs[i], merged, p);
    assert runs[i][n] in runs[i];
    var q := IndexInMerged(merged, runs[i][n]);
    CountedIff(merged, runs[i], p, n, q);
    RankOrder(merged, p, q);
  }

  /** The last entry of a run before position `p` is at or before position `p - 1`. */
  lemma PrevOfRun(merged: seq<Entry>, runs: seq<seq<Entry>>, p: nat, i: nat)
    requires IsUnion(merged, runs) && p <= |merged| && i < |runs| && CountBefore(runs[i], merged, p) > 0
    ensures p > 0
    ensures var e := runs[i][CountBefore(runs[i], merged, p) - 1];
            e == merged[p - 1] || Less(e.key, merged[p - 1].key)
  {
    var n := CountBefore(runs[i], merged, p);
    assert runs[i][n - 1] in runs[i];
    var q := IndexInMerged(merged, runs[i][n - 1]);
    CountedIff(merged, runs[i], p, n - 1, q);
    RankOrder(merged, q, p - 1);
  }

  /** One position further, only the run that owned it has moved. */
  lemma CountStep(merged: seq<Entry>, runs: seq<seq<Entry>>, p: nat, i: nat)
    requires IsUnion(merged, runs) && p < |merged| && i < |runs|
    ensures CountBefore(runs[i], merged, p + 1)
         == CountBefore(runs[i], merged, p) + if merged[p] in runs[i] then 1 else 0
  {
    var n := CountBefore(runs[i], merged, p);
    var m := if merged[p] in runs[i] then n + 1 else n;
    if merged[p] in runs[i] {
      IndexInRun(runs[i], merged[p]);
    }
    forall j, q | 0 <= j < |runs[i]| && 0 <= q < |merged| && merged[q] == runs[i][j]
      ensures j < m <==> q < p + 1
    {
      CountedIff(merged, runs[i], p, j, q);
      RankOrder(merged, q, p);
      if j != n && n < |runs[i]| {
        RankOrder(runs[i], j, n);
      }
    }
    CountIs(merged, runs, p + 1, i, m);
  }

  lemma CountOfSeek(merged: seq<Entry>, runs: seq<seq<Entry>>, target: InternalKey, i: nat)
    requires IsUnion(merged, runs) && i < |runs|
    ensures LowerBound(runs[i], target) == CountBefore(runs[i], merged, LowerBound(merged, target))
  {
    var p := LowerBound(merged, target);
    var n := LowerBound(runs[i], target);
    forall j, q | 0 <= j < |runs[i]| && 0 <= q < |merged| && merged[q] == runs[i][j]
      ensures j < n <==> q < p
    {
      if p < |merged| {
        RankOrder(merged, q, p);
      }
      if n < |runs[i]| {
        RankOrder(runs[i], j, n);
      }
    }
    CountIs(merged, runs, p, i, n);
  }

  lemma CountAtFront(merged: seq<Entry>, runs: seq<seq<Entry>>, i: nat)
    requires IsUnion(merged, runs) && i < |runs|
    ensures CountBefore(runs[i], merged, 0) == 0
  {
    if CountBefore(runs[i], merged, 0) > 0 {
      PrevOfRun(merged, runs, 0, i);
    }
  }

  datatype Direction = Forward | Reverse

  /** Where a child stands while the iterator is at position `p`: at its first entry from `p` on
      when moving forward, at its last entry before `p` when moving backward. */
  ghost function ChildPos(run: seq<Entry>, merged: seq<Entry>, p: nat, direction: Direction): nat
    requires p <= |merged|
  {
    var n := CountBefore(run, merged, p);
    if direction == Forward then n else Back(|run|, n)
  }

  class MergingIterator {
    const children: seq<Cursor>
    var current: int
    var direction: Direction
    ghost const merged: seq<Entry>
    /** The position in `merged`; |merged| when the iterator is not valid. */
    ghost var pos: nat

    ghost function Runs(): seq<seq<Entry>> {
      seq(|children|, i requires 0 <= i < |children| => children[i].entries)
    }

    ghost predicate Merges() {
      IsUnion(merged, Runs())
    }

    ghost predicate ChildrenOk()
      reads this, children
    {
      && (forall i, j | 0 <= i < j < |children| :: children[i] != children[j])
      && forall i | 0 <= i < |children| :: children[i].Valid()
    }

    ghost predicate Valid()
      reads this, children
    {
      && Merges() && ChildrenOk() && pos <= |merged|
      && (pos == |merged| ==> current == -1)
      && (pos < |merged| ==>
            && 0 <= current < |children|
            && children[current].AtEntry() && children[current].Current() == merged[pos]
            && forall i | 0 <= i < |children| && i != current ::
                 children[i].pos == ChildPos(children[i].entries, merged, pos, direction))
    }

    constructor (children: seq<Cursor>, ghost merged: seq<Entry>)
      requires forall i | 0 <= i < |children| :: children[i].Valid()
      requires forall i, j | 0 <= i < j < |children| :: children[i] != children[j]
      requires IsUnion(merged, seq(|children|, i requires 0 <= i < |children| => children[i].entries))
      ensures Valid() && this.children == children && this.merged == merged && pos == |merged|
    {
      this.children, this.merged := children, merged;
      current, direction, pos := -1, Forward, |merged|;
    }

    predicate AtEntry()
      reads this
    {
      current != -1
    }

    /** The entry shown, which is the entry of the union at the current position. */
    function Current(): (e: Entry)
      requires Valid() && AtEntry()
      reads this, children
      ensures pos < |merged| && e == merged[pos]
    {
      children[current].Current()
    }

    ghost predicate ChildrenAt(p: nat, d: Direction)
      requires p <= |merged|
      reads this, children
    {
      forall i | 0 <= i < |children| :: children[i].pos == ChildPos(children[i].entries, merged, p, d)
    }

    method FindSmallest(ghost p: nat)
      requires Merges() && ChildrenOk() && p <= |merged| && ChildrenAt(p, Forward)
      modifies this`current, this`pos
      ensures pos == p
      ensures if p == |merged| then current == -1
              else 0 <= current < |children| && children[current].AtEntry() && children[current].Current() == merged[p]
    {
      ghost var owner := FirstFrom(p);
      current, pos := -1, p;
      for i := 0 to |children|
        invariant pos == p && -1 <= current < i
        invariant forall j | 0 <= j < |children| && children[j].AtEntry() ::
          p < |merged| && if j == owner then children[j].Current() == merged[p]
                          else Less(merged[p].key, children[j].Current().key)
        invariant current != -1 ==> children[current].AtEntry()
        invariant p < |merged| && owner < i ==> current == owner
      {
        if children[i].AtEntry() {
          if current == -1 {
            current := i;
          } else if Less(children[i].Current().key, children[current].Current().key) {
            current := i;
          }
        }
      }
    }

    /** With every child at its first entry from `p` on, one child holds entry `p` and the
        others are past it. */
    lemma FirstFrom(p: nat) returns (owner: int)
      requires Merges() && ChildrenOk() && p <= |merged| && ChildrenAt(p, Forward)
      ensures p < |merged| ==> 0 <= owner < |children| && children[owner].AtEntry()
      ensures forall j | 0 <= j < |children| && children[j].AtEntry() ::
                p < |merged| && if j == owner then children[j].Current() == merged[p]
                                else Less(merged[p].key, children[j].Current().key)
    {
      owner := -1;
      if p < |merged| {
        owner := OwnerOf(merged, Runs(), p);
      }
      forall j | 0 <= j < |children| && children[j].AtEntry()
        ensures p < |merged| && if j == owner then children[j].Current() == merged[p]
                                else Less(merged[p].key, children[j].Current().key)
      {
        NextOfRun(merged, Runs(), p, j);
        assert children[j].Current() in Runs()[j];
      }
    }

    method FindLargest(ghost p: nat)
      requires Merges() && ChildrenOk() && p <= |merged| && ChildrenAt(p, Reverse)
      modifies this`current, this`pos
      ensures pos == Back(|merged|, p)
      ensures if p == 0 then current == -1
              else 0 <= current < |children| && children[current].AtEntry() && children[current].Current() == merged[p - 1]
    {
      ghost var owner := LastBefore(p);
      current, pos := -1, Back(|merged|, p);
      for i := |children| downto 0
        invariant pos == Back(|merged|, p) && (current == -1 || i <= current < |children|)
        invariant forall j | 0 <= j < |children| && children[j].AtEntry() ::
          p > 0 && if j == owner then children[j].Current() == merged[p - 1]
                   else Less(children[j].Current().key, merged[p - 1].key)
        invariant current != -1 ==> children[current].AtEntry()
        invariant p > 0 && owner >= i ==> current == owner
      {
        if children[i].AtEntry() {
          if current == -1 {
            current := i;
          } else if Less(children[current].Current().key, children[i].Current().key) {
            current := i;
          }
        }
      }
    }

    lemma LastBefore(p: nat) returns (owner: int)
      requires Merges() && ChildrenOk() && p <= |merged| && ChildrenAt(p, Reverse)
      ensures p > 0 ==> 0 <= owner < |children| && children[owner].AtEntry()
      ensures forall j | 0 <= j < |children| && children[j].AtEntry() ::
                p > 0 && if j == owner then children[j].Current() == merged[p - 1]
                         else Less(children[j].Current().key, merged[p - 1].key)
    {
      owner := -1;
      if p > 0 {
        owner := OwnerOf(merged, Runs(), p - 1);
        CountStep(merged, Runs(), p - 1, owner);
      }
      forall j | 0 <= j < |children| && children[j].AtEntry()
        ensures p > 0 && if j == owner then children[j].Current() == merged[p - 1]
                         else Less(children[j].Current().key, merged[p - 1].key)
      {
        PrevOfRun(merged, Runs(), p, j);
        assert children[j].Current() in Runs()[j];
      }
    }

    /** The key shown occurs in the current child only. */
    lemma KeyIsOwn(i: nat)
      requires Merges() && ChildrenOk() && 0 <= current < |children| && children[current].AtEntry()
      requires i < |children| && i != current
      ensures forall e | e in children[i].entries :: e.key != children[current].Current().key
    {
      var runs := Runs();
      assert children[current].Current() in runs[current];
      assert forall e | e in children[i].entries :: e in runs[i];
    }

    /** Puts every child but the current one where direction `d` wants it. */
    method Reposition(d: Direction)
      requires Valid() && AtEntry()
      modifies set i | 0 <= i < |children| && i != current :: children[i]
      ensures ChildrenOk() && children[current].pos == old(children[current].pos)
      ensures forall i | 0 <= i < |children| && i != current ::
                children[i].pos == ChildPos(children[i].entries, merged, pos, d)
    {
      var target := Current().key;
      for i := 0 to |children|
        invariant ChildrenOk()
        invariant forall j | 0 <= j < i && j != current ::
          children[j].pos == ChildPos(children[j].entries, merged, pos, d)
      {
        if i != current {
          KeyIsOwn(i);
          var child := children[i];
          child.Seek(target);
          if d == Forward {
            if child.AtEntry() && child.Current().key == target {
              child.Next();
            }
          } else {
            if child.AtEntry() {
              child.Prev();
            } else {
              child.SeekToLast();
            }
          }
        }
      }
    }

    lemma CurrentCount()
      requires Merges() && ChildrenOk() && pos < |merged| && 0 <= current < |children|
      requires children[current].AtEntry() && children[current].Current() == merged[pos]
      ensures children[current].pos == CountBefore(children[current].entries, merged, pos)
    {
      var run := children[current].entries;
      IndexInRun(run, merged[pos]);
      RankOrder(run, children[current].pos, LowerBound(run, merged[pos].key));
    }

    method SeekToFirst()
      requires Valid()
      modifies this`current, this`pos, this`direction, children
      ensures Valid() && pos == 0
    {
      for i := 0 to |children|
        invariant ChildrenOk()
        invariant forall j | 0 <= j < i :: children[j].pos == ChildPos(children[j].entries, merged, 0, Forward)
      {
        CountAtFront(merged, Runs(), i);
        children[i].SeekToFirst();
      }
      FindSmallest(0);
      direction := Forward;
    }

    method SeekToLast()
      requires Valid()
      modifies this`current, this`pos, this`direction, children
      ensures Valid() && pos == Back(|merged|, |merged|)
    {
      for i := 0 to |children|
        invariant ChildrenOk()
        invariant forall j | 0 <= j < i :: children[j].pos == ChildPos(children[j].entries, merged, |merged|, Reverse)
      {
        children[i].SeekToLast();
      }
      FindLargest(|merged|);
      StepBackward(|merged|);
      direction := Reverse;
    }

    method Seek(target: InternalKey)
      requires Valid()
      modifies this`current, this`pos, this`direction, children
      ensures Valid() && pos == LowerBound(merged, target)
    {
      ghost var p := LowerBound(merged, target);
      for i := 0 to |children|
        invariant ChildrenOk()
        invariant forall j | 0 <= j < i :: children[j].pos == ChildPos(children[j].entries, merged, p, Forward)
      {
        CountOfSeek(merged, Runs(), target, i);
        children[i].Seek(target);
      }
      FindSmallest(p);
      direction := Forward;
    }

    method Next()
      requires Valid() && AtEntry()
      modifies this`current, this`pos, this`direction, children
      ensures Valid() && pos == old(pos) + 1
    {
      Turn(Forward);
      StepCurrentForward();
      FindSmallest(pos + 1);
    }

    /** Changes direction, unless the iterator already moves that way. */
    method Turn(d: Direction)
      requires Valid() && AtEntry()
      modifies this`direction, set i | 0 <= i < |children| && i != current :: children[i]
      ensures ChildrenOk() && direction == d && children[current].AtEntry() && children[current].Current() == merged[pos]
      ensures forall i | 0 <= i < |children| && i != current ::
                children[i].pos == ChildPos(children[i].entries, merged, pos, d)
    {
      if direction != d {
        Reposition(d);
        direction := d;
      }
    }

    method StepCurrentForward()
      requires Merges() && ChildrenOk() && pos < |merged| && 0 <= current < |children| && children[current].AtEntry()
      requires children[current].Current() == merged[pos]
      requires forall i | 0 <= i < |children| && i != current ::
                 children[i].pos == ChildPos(children[i].entries, merged, pos, Forward)
      modifies children[current]
      ensures ChildrenOk() && ChildrenAt(pos + 1, Forward)
    {
      forall i: nat | i < |children|
        ensures CountBefore(children[i].entries, merged, pos + 1)
             == CountBefore(children[i].entries, merged, pos) + if i == current then 1 else 0
      {
        StepForward(i);
      }
      CurrentCount();
      children[current].Next();
    }

    method Prev()
      requires Valid() && AtEntry()
      modifies this`current, this`pos, this`direction, children
      ensures Valid() && pos == Back(|merged|, old(pos))
    {
      Turn(Reverse);
      CurrentCount();
      ghost var p := pos;
      StepCurrentBack();
      FindLargest(p);
      StepBackward(p);
    }

    method StepCurrentBack()
      requires Merges() && ChildrenOk() && pos < |merged| && 0 <= current < |children| && children[current].AtEntry()
      requires forall i | 0 <= i < |children| && i != current ::
                 children[i].pos == ChildPos(children[i].entries, merged, pos, Reverse)
      requires children[current].pos == CountBefore(children[current].entries, merged, pos)
      modifies children[current]
      ensures ChildrenOk() && ChildrenAt(pos, Reverse)
    {
      children[current].Prev();
    }

    lemma StepForward(i: nat)
      requires Merges() && ChildrenOk() && pos < |merged| && 0 <= current < |children| && children[current].AtEntry()
      requires children[current].Current() == merged[pos] && i < |children|
      ensures CountBefore(children[i].entries, merged, pos + 1)
           == CountBefore(children[i].entries, merged, pos) + if i == current then 1 else 0
    {
      CountStep(merged, Runs(), pos, i);
      if i != current {
        KeyIsOwn(i);
      }
    }

    /** Children at their last entry before `p` are, but for the one now shown, at their last
        entry before `p - 1` as well. */
    lemma StepBackward(p: nat)
      requires Merges() && ChildrenOk() && p <= |merged| && ChildrenAt(p, Reverse)
      requires p > 0 ==> 0 <= current < |children| && children[current].AtEntry()
                         && children[current].Current() == merged[p - 1]
      ensures p > 0 ==> forall i | 0 <= i < |children| && i != current ::
                children[i].pos == ChildPos(children[i].entries, merged, p - 1, Reverse)
    {
      if p > 0 {
        forall i | 0 <= i < |children| && i != current
          ensures children[i].pos == ChildPos(children[i].entries, merged, p - 1, Reverse)
        {
          CountStep(merged, Runs(), p - 1, i);
          KeyIsOwn(i);
        }
      }
    }
  }
}
