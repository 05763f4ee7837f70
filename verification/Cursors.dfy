/** The iterator interface over one sorted run: what memtable, table and level iterators
    present to the iterators built on them. */
module Cursors {
  import opened Keys

  /** Index of the entry before index `n`; running off the front is the end position. */
  function Back(count: nat, n: nat): nat
    requires n <= count
  {
    if n == 0 then count else n - 1
  }

  class Cursor {
    const entries: seq<Entry>
    var pos: nat

    ghost predicate Valid()
      reads this
    {
      pos <= |entries| && Sorted(entries)
    }

    predicate AtEntry()
      reads this
    {
      pos < |entries|
    }

    function Current(): Entry
      requires AtEntry()
      reads this
    {
      entries[pos]
    }

    constructor (entries: seq<Entry>)
      requires Sorted(entries)
      ensures Valid() && this.entries == entries && pos == |entries|
    {
      this.entries := entries;
      pos := |entries|;
    }

    method SeekToFirst()
      requires Valid()
      modifies this
      ensures Valid() && pos == 0
    {
      pos := 0;
    }

    method SeekToLast()
      requires Valid()
      modifies this
      ensures Valid() && pos == Back(|entries|, |entries|)
    {
      pos := if entries == [] then 0 else |entries| - 1;
    }

    method Seek(target: InternalKey)
      requires Valid()
      modifies this
      ensures Valid() && pos == LowerBound(entries, target)
    {
      pos := LowerBound(entries, target);
    }

    method Next()
      requires Valid() && AtEntry()
      modifies this
      ensures Valid() && pos == old(pos) + 1
    {
      pos := pos + 1;
    }

    method Prev()
      requires Valid() && AtEntry()
      modifies this
      ensures Valid() && pos == Back(|entries|, old(pos))
    {
      pos := if pos == 0 then |entries| else pos - 1;
    }
  }
}
