/** The two-level iterator (table/two_level_iterator.cc): an index over blocks acts as a cursor
    on their concatenation, skipping empty blocks in both directions. */
module TwoLevel {
  import opened Keys
  import opened Cursors

  function Flatten(blocks: seq<seq<Entry>>): seq<Entry> {
    if blocks == [] then [] else Flatten(blocks[..|blocks| - 1]) + blocks[|blocks| - 1]
  }

  /** Where block `k` starts in the concatenation. */
  function Offset(blocks: seq<seq<Entry>>, k: nat): nat
    requires k <= |blocks|
  {
    |Flatten(blocks[..k])|
  }

  lemma {:induction false} OffsetStep(blocks: seq<seq<Entry>>, k: nat)
    requires k < |blocks|
    ensures Offset(blocks, k + 1) == Offset(blocks, k) + |blocks[k]|
    ensures Offset(blocks, 0) == 0
  {
    assert blocks[..k + 1][..k] == blocks[..k];
  }

  lemma {:induction false} OffsetMonotone(blocks: seq<seq<Entry>>, k: nat, l: nat)
    requires k <= l <= |blocks|
    ensures Offset(blocks, k) <= Offset(blocks, l) <= |Flatten(blocks)|
    ensures Offset(blocks, |blocks|) == |Flatten(blocks)|
    decreases |blocks| - k
  {
    assert blocks[..|blocks|] == blocks;
    if k < l {
      OffsetStep(blocks, k);
      OffsetMonotone(blocks, k + 1, l);
    } else if l < |blocks| {
      OffsetStep(blocks, l);
      OffsetMonotone(blocks, l + 1, |blocks|);
    }
  }

  lemma {:induction false} FlattenAt(blocks: seq<seq<Entry>>, k: nat, j: nat)
    requires k < |blocks| && j < |blocks[k]|
    ensures Offset(blocks, k) + j < |Flatten(blocks)|
    ensures Flatten(blocks)[Offset(blocks, k) + j] == blocks[k][j]
  {
    var n := |blocks| - 1;
    if k < n {
      assert blocks[..n][..k] == blocks[..k];
      FlattenAt(blocks[..n], k, j);
    }
  }

  /** Every index into the concatenation lies in one block. */
  lemma {:induction false} BlockOf(blocks: seq<seq<Entry>>, g: nat) returns (k: nat, j: nat)
    requires g < |Flatten(blocks)|
    ensures k < |blocks| && j < |blocks[k]| && g == Offset(blocks, k) + j
  {
    var n := |blocks| - 1;
    if g < |Flatten(blocks[..n])| {
      k, j := BlockOf(blocks[..n], g);
      assert blocks[..n][..k] == blocks[..k];
    } else {
      k, j := n, g - |Flatten(blocks[..n])|;
    }
  }

  /** Index key `i` separates block `i` from the blocks after it. */
  ghost predicate Separated(index: seq<Entry>, blocks: seq<seq<Entry>>) {
    && |index| == |blocks| && Sorted(index) && Sorted(Flatten(blocks))
    && (forall i, e | 0 <= i < |blocks| && e in blocks[i] :: !Less(index[i].key, e.key))
    && forall i, j, e | 0 <= i < j < |blocks| && e in blocks[j] :: Less(index[i].key, e.key)
  }

  lemma BlockSorted(blocks: seq<seq<Entry>>, k: nat)
    requires Sorted(Flatten(blocks)) && k < |blocks|
    ensures Sorted(blocks[k])
  {
    forall i, j | 0 <= i < j < |blocks[k]|
      ensures Less(blocks[k][i].key, blocks[k][j].key)
    {
      FlattenAt(blocks, k, i);
      FlattenAt(blocks, k, j);
    }
  }

  /** Seeking the index, then the block it names, finds the right place in the concatenation. */
  lemma SeekPlace(index: seq<Entry>, blocks: seq<seq<Entry>>, target: InternalKey)
    requires Separated(index, blocks)
    ensures var i := LowerBound(index, target);
            LowerBound(Flatten(blocks), target)
            == if i < |blocks| then Offset(blocks, i) + LowerBound(blocks[i], target) else |Flatten(blocks)|
  {
    var i := LowerBound(index, target);
    var flat := Flatten(blocks);
    var n := if i < |blocks| then Offset(blocks, i) + LowerBound(blocks[i], target) else |flat|;
    if i < |blocks| {
      OffsetMonotone(blocks, i + 1, |blocks|);
      OffsetStep(blocks, i);
    }
    forall g | 0 <= g < |flat|
      ensures g < n <==> Less(flat[g].key, target)
    {
      var k, j := BlockOf(blocks, g);
      FlattenAt(blocks, k, j);
      assert blocks[k][j] in blocks[k];
      if k < i {
        assert Less(index[k].key, target);
        assert !Less(index[k].key, flat[g].key);
        if i < |blocks| {
          OffsetStep(blocks, k);
          OffsetMonotone(blocks, k + 1, i);
        }
      } else if k == i {
        BlockSorted(blocks, k);
        var m := LowerBound(blocks[k], target);
        assert m < j ==> Less(blocks[k][m].key, blocks[k][j].key);
        assert j < m ==> Less(blocks[k][j].key, target);
      } else {
        assert Less(index[i].key, flat[g].key);
        OffsetStep(blocks, i);
        OffsetMonotone(blocks, i + 1, k);
      }
    }
    LowerBoundIs(flat, target, n);
  }

  class TwoLevelIterator {
    const index: Cursor
    const blocks: seq<seq<Entry>>
    var data: Cursor?
    /** Which block `data` reads; its handle in the source. */
    var dataBlock: nat
    ghost var pos: nat

    ghost predicate IndexOk()
      reads this, index
    {
      index.Valid() && Separated(index.entries, blocks)
    }

    ghost predicate DataOk()
      reads this, data
    {
      data != null ==> data.Valid() && dataBlock < |blocks| && data.entries == blocks[dataBlock]
    }

    ghost predicate Valid()
      reads this, index, data
    {
      && IndexOk() && DataOk() && data != index
      && pos <= |Flatten(blocks)|
      && (data == null ==> pos == |Flatten(blocks)|)
      && (data != null ==> data.AtEntry() && index.pos == dataBlock && pos == Offset(blocks, dataBlock) + data.pos)
    }

    predicate AtEntry()
      reads this, data
    {
      data != null && data.AtEntry()
    }

    function Current(): (e: Entry)
      requires Valid() && AtEntry()
      reads this, index, data
      ensures pos < |Flatten(blocks)| && e == Flatten(blocks)[pos]
    {
      FlattenAt(blocks, dataBlock, data.pos);
      data.Current()
    }

    constructor (index: Cursor, blocks: seq<seq<Entry>>)
      requires index.Valid() && Separated(index.entries, blocks)
      ensures Valid() && this.index == index && this.blocks == blocks && pos == |Flatten(blocks)|
    {
      this.index, this.blocks, data, dataBlock := index, blocks, null, 0;
      pos := |Flatten(blocks)|;
    }

    /** Points `data` at the block the index names, keeping it when it already reads it. */
    method InitDataBlock()
      requires IndexOk() && DataOk() && data != index
      modifies this`data, this`dataBlock
      ensures IndexOk() && DataOk() && data != index && (data == old(data) || data == null || fresh(data))
      ensures if index.AtEntry() then data != null && dataBlock == index.pos else data == null
    {
      if !index.AtEntry() {
        data := null;
      } else if data != null && dataBlock == index.pos {
      } else {
        BlockSorted(blocks, index.pos);
        data := new Cursor(blocks[index.pos]);
        dataBlock := index.pos;
      }
    }

    method SkipEmptyDataBlocksForward(ghost p: nat)
      requires IndexOk() && DataOk() && data != index && p <= |Flatten(blocks)|
      requires if index.AtEntry() then data != null && dataBlock == index.pos && p == Offset(blocks, dataBlock) + data.pos
               else data == null && p == |Flatten(blocks)|
      modifies this`data, this`dataBlock, this`pos, index, data
      ensures Valid() && pos == p && (data == old(data) || data == null || fresh(data))
    {
      while data == null || !data.AtEntry()
        invariant IndexOk() && DataOk() && data != index
        invariant data == old(data) || data == null || fresh(data)
        invariant if index.AtEntry() then data != null && dataBlock == index.pos && p == Offset(blocks, dataBlock) + data.pos
                  else data == null && p == |Flatten(blocks)|
        decreases |blocks| - index.pos, data != null
      {
        if !index.AtEntry() {
          data := null;
          break;
        }
        OffsetStep(blocks, index.pos);
        OffsetMonotone(blocks, index.pos + 1, |blocks|);
        index.Next();
        InitDataBlock();
        if data != null {
          data.SeekToFirst();
        }
      }
      pos := p;
    }

    /** Before the first entry of the current block means the last entry of an earlier one. */
    method SkipEmptyDataBlocksBackward(ghost p: nat)
      requires IndexOk() && DataOk() && data != index && p <= |Flatten(blocks)|
      requires if index.AtEntry()
               then data != null && dataBlock == index.pos
                    && (if data.AtEntry() then p == Offset(blocks, dataBlock) + data.pos + 1 else p == Offset(blocks, dataBlock))
               else data == null && p == 0
      modifies this`data, this`dataBlock, this`pos, index, data
      ensures Valid() && pos == Back(|Flatten(blocks)|, p) && (data == old(data) || data == null || fresh(data))
    {
      while data == null || !data.AtEntry()
        invariant IndexOk() && DataOk() && data != index
        invariant data == old(data) || data == null || fresh(data)
        invariant if index.AtEntry()
                  then data != null && dataBlock == index.pos
                       && (if data.AtEntry() then p == Offset(blocks, dataBlock) + data.pos + 1 else p == Offset(blocks, dataBlock))
                  else data == null && p == 0
        decreases if index.AtEntry() then index.pos + 1 else 0, data != null
      {
        if !index.AtEntry() {
          data := null;
          break;
        }
        if index.pos > 0 {
          OffsetStep(blocks, index.pos - 1);
        }
        OffsetStep(blocks, index.pos);
        index.Prev();
        InitDataBlock();
        if data != null {
          data.SeekToLast();
        }
      }
      if data != null {
        FlattenAt(blocks, dataBlock, data.pos);
      }
      pos := Back(|Flatten(blocks)|, p);
    }

    method Seek(target: InternalKey)
      requires Valid()
      modifies this`data, this`dataBlock, this`pos, index, data
      ensures Valid() && pos == LowerBound(Flatten(blocks), target)
      ensures data == old(data) || data == null || fresh(data)
    {
      index.Seek(target);
      InitDataBlock();
      if data != null {
        data.Seek(target);
      }
      SeekPlace(index.entries, blocks, target);
      SkipEmptyDataBlocksForward(LowerBound(Flatten(blocks), target));
    }

    method SeekToFirst()
      requires Valid()
      modifies this`data, this`dataBlock, this`pos, index, data
      ensures Valid() && pos == 0
      ensures data == old(data) || data == null || fresh(data)
    {
      index.SeekToFirst();
      InitDataBlock();
      if data != null {
        data.SeekToFirst();
      }
      OffsetMonotone(blocks, 0, |blocks|);
      SkipEmptyDataBlocksForward(0);
    }

    method SeekToLast()
      requires Valid()
      modifies this`data, this`dataBlock, this`pos, index, data
      ensures Valid() && pos == Back(|Flatten(blocks)|, |Flatten(blocks)|)
      ensures data == old(data) || data == null || fresh(data)
    {
      index.SeekToLast();
      InitDataBlock();
      if data != null {
        data.SeekToLast();
        OffsetStep(blocks, dataBlock);
      }
      OffsetMonotone(blocks, 0, |blocks|);
      SkipEmptyDataBlocksBackward(|Flatten(blocks)|);
    }

    method Next()
      requires Valid() && AtEntry()
      modifies this`data, this`dataBlock, this`pos, index, data
      ensures Valid() && pos == old(pos) + 1
      ensures data == old(data) || data == null || fresh(data)
    {
      FlattenAt(blocks, dataBlock, data.pos);
      ghost var p := pos + 1;
      data.Next();
      SkipEmptyDataBlocksForward(p);
    }

    method Prev()
      requires Valid() && AtEntry()
      modifies this`data, this`dataBlock, this`pos, index, data
      ensures Valid() && pos == Back(|Flatten(blocks)|, old(pos))
      ensures data == old(data) || data == null || fresh(data)
    {
      FlattenAt(blocks, dataBlock, data.pos);
      ghost var p := pos;
      data.Prev();
      SkipEmptyDataBlocksBackward(p);
    }
  }
}
