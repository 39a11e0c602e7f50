/** TwoLevelIterator (table/two_level_iterator.cc) is a cursor over the
    concatenation of its blocks, empty blocks skipped. */
module TwoLevel {
  import opened Options
  import opened Keys
  import opened Version
  import opened Cursor

  // ----- the concatenation

  function Flat(blocks: seq<seq<Entry>>): seq<Entry> {
    if blocks == [] then [] else Flat(blocks[..|blocks| - 1]) + blocks[|blocks| - 1]
  }

  /** Where block `i` starts in the concatenation. */
  function Offset(blocks: seq<seq<Entry>>, i: nat): nat
    requires i <= |blocks|
  {
    if i == 0 then 0 else Offset(blocks, i - 1) + |blocks[i - 1]|
  }

  lemma {:induction false} FlatPrefix(blocks: seq<seq<Entry>>, i: nat)
    requires i <= |blocks|
    ensures |Flat(blocks[..i])| == Offset(blocks, i) && Flat(blocks[..i]) <= Flat(blocks)
    decreases |blocks|, i
  {
    if i > 0 {
      FlatPrefix(blocks, i - 1);
      assert blocks[..i][..i - 1] == blocks[..i - 1];
    }
    if i < |blocks| {
      var n := |blocks| - 1;
      FlatPrefix(blocks[..n], i);
      assert blocks[..n][..i] == blocks[..i];
    } else {
      assert blocks[..i] == blocks;
    }
  }

  lemma FlatAt(blocks: seq<seq<Entry>>, i: nat, q: nat)
    requires i < |blocks| && q < |blocks[i]|
    ensures Offset(blocks, i) + q < |Flat(blocks)| && Flat(blocks)[Offset(blocks, i) + q] == blocks[i][q]
  {
    FlatPrefix(blocks, i);
    FlatPrefix(blocks, i + 1);
    assert blocks[..i + 1][..i] == blocks[..i];
    assert Flat(blocks[..i + 1]) == Flat(blocks[..i]) + blocks[i];
  }

  /** The index key of a block is at or after its entries and before later ones. */
  ghost predicate IndexOk(index: seq<Entry>, blocks: seq<seq<Entry>>) {
    && |index| == |blocks| && SortedKeys(index)
    && (forall i :: 0 <= i < |blocks| ==> SortedKeys(blocks[i]))
    && (forall i, q :: 0 <= i < |blocks| && 0 <= q < |blocks[i]| ==> AtMost(blocks[i][q].key, index[i].key))
    && forall i, j, q :: 0 <= i < j < |blocks| && 0 <= q < |blocks[j]| ==> Less(index[i].key, blocks[j][q].key)
  }

  lemma {:induction false} SeekIndexIs(es: seq<Entry>, target: InternalKey, p: nat)
    requires p <= |es| && (forall j :: 0 <= j < p ==> Less(es[j].key, target))
    requires p < |es| ==> !Less(es[p].key, target)
    ensures SeekIndex(es, target) == p
  {
  }

  lemma Locate(blocks: seq<seq<Entry>>, m: nat) returns (i: nat, q: nat)
    requires m < |Flat(blocks)|
    ensures i < |blocks| && q < |blocks[i]| && m == Offset(blocks, i) + q && Flat(blocks)[m] == blocks[i][q]
  {
    i := 0;
    FlatPrefix(blocks, |blocks|);
    assert blocks[..|blocks|] == blocks;
    while i < |blocks| && Offset(blocks, i + 1) <= m
      invariant i <= |blocks| && Offset(blocks, i) <= m
    {
      i := i + 1;
    }
    q := m - Offset(blocks, i);
    FlatAt(blocks, i, q);
  }

  /** Entries of block `j` in the concatenation compared with an index key. */
  lemma {:induction false} FlatSide(index: seq<Entry>, blocks: seq<seq<Entry>>, i: nat, target: InternalKey, m: nat)
    requires IndexOk(index, blocks) && i <= |blocks| && m < |Flat(blocks)|
    requires forall j :: 0 <= j < i ==> Less(index[j].key, target)
    requires i < |blocks| ==> !Less(index[i].key, target)
    ensures m < Offset(blocks, i) ==> Less(Flat(blocks)[m].key, target)
    ensures i < |blocks| && m >= Offset(blocks, i + 1) ==> !Less(Flat(blocks)[m].key, target)
  {
    var j, q := Locate(blocks, m);
    if m < Offset(blocks, i) {
      OffsetMonotone(blocks, i, j);
    } else if i < |blocks| && m >= Offset(blocks, i + 1) {
      OffsetMonotone(blocks, j + 1, i + 1);
    }
  }

  lemma {:induction false} OffsetMonotone(blocks: seq<seq<Entry>>, i: nat, j: nat)
    requires i <= |blocks| && j <= |blocks|
    ensures i <= j ==> Offset(blocks, i) <= Offset(blocks, j)
    decreases j
  {
    if i < j {
      OffsetMonotone(blocks, i, j - 1);
    }
  }

  lemma {:induction false} SeekInBlock(index: seq<Entry>, blocks: seq<seq<Entry>>, target: InternalKey, i: nat)
    requires IndexOk(index, blocks) && i == SeekIndex(index, target) && i < |blocks|
    ensures SeekIndex(Flat(blocks), target) == Offset(blocks, i) + SeekIndex(blocks[i], target)
  {
    var flat, q := Flat(blocks), SeekIndex(blocks[i], target);
    FlatPrefix(blocks, i);
    FlatPrefix(blocks, i + 1);
    forall m | 0 <= m < Offset(blocks, i) + q ensures Less(flat[m].key, target) {
      FlatSide(index, blocks, i, target, m);
      if m >= Offset(blocks, i) {
        FlatAt(blocks, i, m - Offset(blocks, i));
      }
    }
    if Offset(blocks, i) + q < |flat| {
      FlatSide(index, blocks, i, target, Offset(blocks, i) + q);
      if q < |blocks[i]| {
        FlatAt(blocks, i, q);
      }
    }
    SeekIndexIs(flat, target, Offset(blocks, i) + q);
  }

  /** Seeking the index, then the block, is seeking the concatenation. */
  lemma {:induction false} SeekFlat(index: seq<Entry>, blocks: seq<seq<Entry>>, target: InternalKey)
    requires IndexOk(index, blocks)
    ensures var i := SeekIndex(index, target);
      SeekIndex(Flat(blocks), target)
        == if i < |blocks| then Offset(blocks, i) + SeekIndex(blocks[i], target) else |Flat(blocks)|
  {
    var i: nat := SeekIndex(index, target);
    if i < |blocks| {
      SeekInBlock(index, blocks, target, i);
    } else {
      var flat := Flat(blocks);
      FlatPrefix(blocks, |blocks|);
      assert blocks[..|blocks|] == blocks;
      forall m | 0 <= m < |flat| ensures Less(flat[m].key, target) {
        FlatSide(index, blocks, i, target, m);
      }
      SeekIndexIs(flat, target, |flat|);
    }
  }

  // ----- the iterator

  /** Blocks under index keys that fit them. */
  datatype Indexing = Indexing(keys: seq<Entry>, blocks: seq<seq<Entry>>)

  type Indexed = t: Indexing | IndexOk(t.keys, t.blocks) witness Indexing([], [])

  /** `data` is over the block at `dataHandle`, if any is open. */
  class TwoLevelIterator {
    const content: Indexed
    var index: Walk
    var data: Option<Walk>
    var dataHandle: nat
    ghost var pos: nat

    /** The data iterator, if any, reads the block the index iterator stands at. */
    ghost predicate Base()
      reads this
    {
      && index.es == content.keys && index.pos <= |content.blocks|
      && (data.Some? ==>
            && index.Valid() && dataHandle == index.pos
            && data.value.es == content.blocks[dataHandle] && data.value.pos <= |data.value.es|)
    }

    ghost predicate Inv()
      reads this
    {
      && Base() && pos <= |Flat(content.blocks)|
      && (data.None? ==> pos == |Flat(content.blocks)|)
      && (data.Some? ==> data.value.Valid() && pos == Offset(content.blocks, dataHandle) + data.value.pos)
    }

    constructor (content: Indexed)
      ensures Inv() && !Valid() && this.content == content
    {
      this.content := content;
      index := Walk(content.keys, |content.keys|);
      data := None;
      dataHandle := 0;
      pos := |Flat(content.blocks)|;
    }

    predicate Valid()
      reads this
    {
      data.Some? && data.value.Valid()
    }

    function Get(): (e: Entry)
      requires Inv() && Valid()
      reads this
      ensures pos < |Flat(content.blocks)| && e == Flat(content.blocks)[pos]
    {
      FlatAt(content.blocks, dataHandle, data.value.pos);
      data.value.es[data.value.pos]
    }

    /** Opens the block the index stands at, unless it is open already. */
    method InitDataBlock()
      requires index.es == content.keys && index.pos <= |content.blocks|
      requires data.Some? ==>
        dataHandle < |content.blocks| && data.value.es == content.blocks[dataHandle]
          && data.value.pos <= |data.value.es|
      modifies this`data, this`dataHandle
      ensures Base() && (data.Some? <==> index.Valid())
    {
      if !index.Valid() {
        data := None;
      } else if data.Some? && index.pos == dataHandle {
        // already open
      } else {
        dataHandle := index.pos;
        data := Some(Walk(content.blocks[index.pos], |content.blocks[index.pos]|));
      }
    }

    method SkipEmptyDataBlocksForward(ghost p: nat)
      requires Base() && (data.Some? <==> index.Valid())
      requires p == if data.Some? then Offset(content.blocks, dataHandle) + data.value.pos else |Flat(content.blocks)|
      modifies this
      ensures Inv() && pos == p
    {
      while data.None? || !data.value.Valid()
        invariant Base() && (data.Some? <==> index.Valid())
        invariant p == if data.Some? then Offset(content.blocks, dataHandle) + data.value.pos
          else |Flat(content.blocks)|
        decreases |content.blocks| - index.pos, data.Some?
      {
        if !index.Valid() {
          data := None;
          pos := p;
          return;
        }
        ghost var i := index.pos;
        index := index.Next();
        InitDataBlock();
        FlatPrefix(content.blocks, i + 1);
        assert content.blocks[..|content.blocks|] == content.blocks;
        if data.Some? {
          data := Some(data.value.First());
        }
      }
      pos := p;
      FlatAt(content.blocks, dataHandle, data.value.pos);
    }

    /** `p` is the boundary behind which the iterator is looking for an entry. */
    method SkipEmptyDataBlocksBackward(ghost p: nat)
      requires Base() && (data.Some? <==> index.Valid())
      requires data.Some? && data.value.Valid() ==> p == Offset(content.blocks, dataHandle) + data.value.pos + 1
      requires data.Some? && !data.value.Valid() ==> p == Offset(content.blocks, dataHandle)
      requires data.None? ==> p == 0
      modifies this
      ensures Inv() && pos == if p == 0 then |Flat(content.blocks)| else p - 1
    {
      while data.None? || !data.value.Valid()
        invariant Base() && (data.Some? <==> index.Valid())
        invariant data.Some? && data.value.Valid() ==> p == Offset(content.blocks, dataHandle) + data.value.pos + 1
        invariant data.Some? && !data.value.Valid() ==> p == Offset(content.blocks, dataHandle)
        invariant data.None? ==> p == 0
        decreases if index.Valid() then index.pos + 1 else 0
      {
        if !index.Valid() {
          data := None;
          pos := |Flat(content.blocks)|;
          return;
        }
        index := index.Prev();
        InitDataBlock();
        if data.Some? {
          data := Some(data.value.Last());
        }
      }
      pos := p - 1;
      FlatAt(content.blocks, dataHandle, data.value.pos);
    }

    method Seek(target: InternalKey)
      requires Inv()
      modifies this
      ensures Inv() && pos == SeekIndex(Flat(content.blocks), target)
    {
      SeekFlat(content.keys, content.blocks, target);
      index := index.Sought(target);
      InitDataBlock();
      if data.Some? {
        data := Some(data.value.Sought(target));
      }
      SkipEmptyDataBlocksForward(SeekIndex(Flat(content.blocks), target));
    }

    method SeekToFirst()
      requires Inv()
      modifies this
      ensures Inv() && pos == 0
    {
      index := index.First();
      InitDataBlock();
      if data.Some? {
        data := Some(data.value.First());
      }
      SkipEmptyDataBlocksForward(0);
    }

    method SeekToLast()
      requires Inv()
      modifies this
      ensures Inv() && pos == if Flat(content.blocks) == [] then 0 else |Flat(content.blocks)| - 1
    {
      index := index.Last();
      InitDataBlock();
      if data.Some? {
        data := Some(data.value.Last());
      }
      FlatPrefix(content.blocks, |content.blocks|);
      assert content.blocks[..|content.blocks|] == content.blocks;
      SkipEmptyDataBlocksBackward(|Flat(content.blocks)|);
    }

    method Next()
      requires Inv() && Valid()
      modifies this
      ensures Inv() && pos == old(pos) + 1
    {
      data := Some(data.value.Next());
      SkipEmptyDataBlocksForward(pos + 1);
    }

    method Prev()
      requires Inv() && Valid()
      modifies this
      ensures Inv() && pos == if old(pos) == 0 then |Flat(content.blocks)| else old(pos) - 1
    {
      data := Some(data.value.Prev());
      SkipEmptyDataBlocksBackward(pos);
    }
  }
}
