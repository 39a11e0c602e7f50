/** Tables: the builder, which shortens the keys of its index and feeds a filter, and
    the point lookup that reads one block. */
module Tables {
  import opened Options
  import opened Coding
  import opened Comparators
  import Filters

  datatype Entry = Entry(key: Internal, value: Bytes)

  /** An index entry names a data block by its file offset. */
  datatype IndexEntry = IndexEntry(key: Internal, handle: nat)

  /** A finished data block. */
  datatype DataBlock = DataBlock(offset: nat, entries: seq<Entry>)

  /** What a table file holds. Block contents are found by offset. */
  datatype TableFile = TableFile(blocks: map<nat, seq<Entry>>, index: seq<IndexEntry>, filter: Option<Bytes>)

  /** Keys strictly increase. */
  ghost predicate Increasing(es: seq<Entry>) {
    |es| < 2 || (InternalBefore(es[|es| - 2].key, es[|es| - 1].key) && Increasing(es[..|es| - 1]))
  }

  lemma {:induction false} IncreasingAt(es: seq<Entry>, i: nat, j: nat)
    requires Increasing(es) && i < j < |es|
    ensures InternalBefore(es[i].key, es[j].key)
  {
    var front := es[..|es| - 1];
    if j < |es| - 1 {
      IncreasingAt(front, i, j);
    } else if i < |es| - 2 {
      IncreasingAt(front, i, |es| - 2);
      InternalTransitive(es[i].key, es[|es| - 2].key, es[j].key);
    }
  }

  /** Part of an increasing sequence. */
  lemma {:induction false} IncreasingPart(es: seq<Entry>, lo: nat, hi: nat)
    requires Increasing(es) && lo <= hi <= |es|
    ensures Increasing(es[lo..hi])
    decreases hi
  {
    if hi >= lo + 2 {
      IncreasingPart(es, lo, hi - 1);
      IncreasingAt(es, hi - 2, hi - 1);
      assert es[lo..hi][..hi - 1 - lo] == es[lo..hi - 1];
    }
  }

  function Flatten(bs: seq<DataBlock>): seq<Entry> {
    if bs == [] then [] else Flatten(bs[..|bs| - 1]) + bs[|bs| - 1].entries
  }

  function UserKeys(es: seq<Entry>): (r: seq<Bytes>)
    ensures |r| == |es| && forall i :: 0 <= i < |es| ==> r[i] == es[i].key.user
  {
    if es == [] then [] else UserKeys(es[..|es| - 1]) + [es[|es| - 1].key.user]
  }

  function Last(b: DataBlock): Internal
    requires b.entries != []
  {
    b.entries[|b.entries| - 1].key
  }

  /** The index entry of block `i` separates it from what follows; `next` is the first
      key after the last block, if there is one yet. */
  ghost predicate Indexed(bs: seq<DataBlock>, i: nat, e: IndexEntry, next: Option<Internal>)
    requires i < |bs|
  {
    && bs[i].entries != [] && e.handle == bs[i].offset
    && if i + 1 < |bs| then bs[i + 1].entries != [] && Separates(Last(bs[i]), e.key, bs[i + 1].entries[0].key)
       else if next.Some? then Separates(Last(bs[i]), e.key, next.value)
       else StandsFor(Last(bs[i]), e.key)
  }

  ghost predicate IndexOk(bs: seq<DataBlock>, index: seq<IndexEntry>, next: Option<Internal>)
    decreases |index|
  {
    index == [] ||
    (|index| <= |bs| && Indexed(bs, |index| - 1, index[|index| - 1], next) && IndexOk(bs, index[..|index| - 1], next))
  }

  lemma {:induction false} IndexAt(bs: seq<DataBlock>, index: seq<IndexEntry>, next: Option<Internal>, i: nat)
    requires IndexOk(bs, index, next) && i < |index|
    ensures i < |bs| && Indexed(bs, i, index[i], next)
    decreases |index|
  {
    if i < |index| - 1 {
      IndexAt(bs, index[..|index| - 1], next, i);
    }
  }

  /** Blocks are not empty and stored in file order where their offsets say. */
  ghost predicate Stored(bs: seq<DataBlock>, blocks: map<nat, seq<Entry>>, end: nat) {
    bs == [] ||
    (var b := bs[|bs| - 1];
     && b.entries != [] && b.offset < end && b.offset in blocks && blocks[b.offset] == b.entries
     && Stored(bs[..|bs| - 1], blocks, b.offset))
  }

  lemma {:induction false} StoredAt(bs: seq<DataBlock>, blocks: map<nat, seq<Entry>>, end: nat, i: nat)
    requires Stored(bs, blocks, end) && i < |bs|
    ensures bs[i].entries != [] && bs[i].offset < end && bs[i].offset in blocks && blocks[bs[i].offset] == bs[i].entries
  {
    if i < |bs| - 1 {
      StoredAt(bs[..|bs| - 1], blocks, bs[|bs| - 1].offset, i);
    }
  }

  /** Writing behind the stored blocks leaves them. */
  lemma StillStored(
    bs: seq<DataBlock>, blocks: map<nat, seq<Entry>>, end: nat, offset: nat, data: seq<Entry>)
    requires Stored(bs, blocks, end) && end <= offset
    ensures Stored(bs, blocks[offset := data], end)
  {
    if bs != [] {
      StillStored(bs[..|bs| - 1], blocks, bs[|bs| - 1].offset, offset, data);
    }
  }

  function FilterBlocks(bs: seq<DataBlock>): (r: seq<Filters.Block>)
    ensures |r| == |bs| && forall i :: 0 <= i < |bs| ==> r[i] == Filters.Block(bs[i].offset, UserKeys(bs[i].entries))
  {
    if bs == [] then []
    else FilterBlocks(bs[..|bs| - 1]) + [Filters.Block(bs[|bs| - 1].offset, UserKeys(bs[|bs| - 1].entries))]
  }

  /** No key of a block is missed by the filter at the block's offset. */
  ghost predicate FilterOk(bs: seq<DataBlock>, policy: Filters.Policy, filter: Bytes) {
    forall i, k :: 0 <= i < |bs| && 0 <= k < |bs[i].entries| ==>
      Filters.MayMatch(policy, filter, bs[i].offset, bs[i].entries[k].key.user)
  }

  /** The file is a table of these blocks. */
  ghost predicate IsTable(t: TableFile, bs: seq<DataBlock>, policy: Filters.Policy) {
    && Increasing(Flatten(bs)) && |t.index| == |bs| && IndexOk(bs, t.index, None)
    && (exists end :: Stored(bs, t.blocks, end))
    && (t.filter.Some? ==> FilterOk(bs, policy, t.filter.value))
  }

  // ----- lookup

  /** The first entry not before `k`. */
  function FirstNotBefore(es: seq<Entry>, k: Internal): (j: nat)
    ensures j <= |es|
    ensures forall i :: 0 <= i < j ==> InternalBefore(es[i].key, k)
    ensures j < |es| ==> !InternalBefore(es[j].key, k)
  {
    if es == [] then 0
    else if FirstNotBefore(es[..|es| - 1], k) < |es| - 1 then FirstNotBefore(es[..|es| - 1], k)
    else if InternalBefore(es[|es| - 1].key, k) then |es| else |es| - 1
  }

  function IndexSeek(index: seq<IndexEntry>, k: Internal): (j: nat)
    ensures j <= |index|
    ensures forall i :: 0 <= i < j ==> InternalBefore(index[i].key, k)
    ensures j < |index| ==> !InternalBefore(index[j].key, k)
  {
    if index == [] then 0
    else if IndexSeek(index[..|index| - 1], k) < |index| - 1 then IndexSeek(index[..|index| - 1], k)
    else if InternalBefore(index[|index| - 1].key, k) then |index| else |index| - 1
  }

  lemma {:induction false} FirstIs(es: seq<Entry>, k: Internal, j: nat)
    requires j <= |es| && (j < |es| ==> !InternalBefore(es[j].key, k))
    requires forall i :: 0 <= i < j ==> InternalBefore(es[i].key, k)
    ensures FirstNotBefore(es, k) == j
  {
  }

  /** Position of block `i` in the flattened entries. */
  function Start(bs: seq<DataBlock>, i: nat): nat
    requires i <= |bs|
  {
    |Flatten(bs[..i])|
  }

  lemma {:induction false} FlattenPrefix(bs: seq<DataBlock>, i: nat)
    requires i <= |bs|
    ensures Start(bs, i) <= |Flatten(bs)| && Flatten(bs)[..Start(bs, i)] == Flatten(bs[..i])
  {
    if i < |bs| {
      var front := bs[..|bs| - 1];
      FlattenPrefix(front, i);
      assert front[..i] == bs[..i];
    } else {
      assert bs[..i] == bs;
    }
  }

  lemma {:induction false} FlattenAt(bs: seq<DataBlock>, i: nat, k: nat)
    requires i < |bs| && k < |bs[i].entries|
    ensures Start(bs, i + 1) == Start(bs, i) + |bs[i].entries| <= |Flatten(bs)|
    ensures Flatten(bs)[Start(bs, i) + k] == bs[i].entries[k]
  {
    FlattenPrefix(bs, i + 1);
    assert bs[..i + 1][..i] == bs[..i];
    assert Flatten(bs)[Start(bs, i) + k] == Flatten(bs[..i + 1])[Start(bs, i) + k];
  }

  /** Whatever holds of every entry of the first blocks holds of the flattened prefix. */
  lemma {:induction false} PrefixBefore(bs: seq<DataBlock>, n: nat, k: Internal)
    requires n <= |bs|
    requires forall i, m :: 0 <= i < n && 0 <= m < |bs[i].entries| ==> InternalBefore(bs[i].entries[m].key, k)
    ensures Start(bs, n) <= |Flatten(bs)|
    ensures forall x :: 0 <= x < Start(bs, n) ==> InternalBefore(Flatten(bs)[x].key, k)
  {
    if n == 0 {
      FlattenPrefix(bs, 0);
    } else {
      PrefixBefore(bs, n - 1, k);
      FlattenPrefix(bs, n);
      FlattenPrefix(bs, n - 1);
      assert bs[..n][..n - 1] == bs[..n - 1];
      forall x | Start(bs, n - 1) <= x < Start(bs, n) ensures InternalBefore(Flatten(bs)[x].key, k) {
        FlattenAt(bs, n - 1, x - Start(bs, n - 1));
      }
    }
  }

  /** Within a table's block keys increase too. */
  lemma {:induction false} BlockIncreasing(bs: seq<DataBlock>, i: nat)
    requires i < |bs| && Increasing(Flatten(bs))
    ensures Increasing(bs[i].entries)
  {
    var es, all := bs[i].entries, Flatten(bs);
    FlattenPrefix(bs, i + 1);
    assert bs[..i + 1][..i] == bs[..i];
    IncreasingPart(all, Start(bs, i), Start(bs, i + 1));
    assert all[Start(bs, i)..Start(bs, i + 1)] == all[..Start(bs, i + 1)][Start(bs, i)..] == es;
  }

  lemma NotAfterChain(a: Internal, b: Internal, k: Internal)
    requires (a == b || InternalBefore(a, b)) && InternalBefore(b, k)
    ensures InternalBefore(a, k)
  {
    if a != b {
      InternalTransitive(a, b, k);
    }
  }

  /** A block whose index key is before `k` has only entries before `k`. */
  lemma SkippedBlock(
    t: TableFile, bs: seq<DataBlock>, policy: Filters.Policy, k: Internal, i: nat, m: nat)
    requires IsTable(t, bs, policy) && i < |bs| && m < |bs[i].entries| && InternalBefore(t.index[i].key, k)
    ensures InternalBefore(bs[i].entries[m].key, k)
  {
    IndexAt(bs, t.index, None, i);
    BlockIncreasing(bs, i);
    var last := Last(bs[i]);
    if m < |bs[i].entries| - 1 {
      IncreasingAt(bs[i].entries, m, |bs[i].entries| - 1);
    }
    NotAfterChain(last, t.index[i].key, k);
    NotAfterChain(bs[i].entries[m].key, last, k);
  }

  /** When the block that the index leads to has no entry from `k` on, the next block
      begins with a later user key. */
  lemma NextBlockBeyond(
    t: TableFile, bs: seq<DataBlock>, policy: Filters.Policy, k: Internal, b: nat)
    requires IsTable(t, bs, policy) && b + 1 < |bs| && !InternalBefore(t.index[b].key, k)
    requires bs[b].entries != [] && InternalBefore(Last(bs[b]), k)
    ensures bs[b + 1].entries != [] && bs[b + 1].entries[0].key.user != k.user
    ensures !InternalBefore(bs[b + 1].entries[0].key, k)
  {
    IndexAt(bs, t.index, None, b);
    var sep, first := t.index[b].key, bs[b + 1].entries[0].key;
    InternalTrichotomy(sep, k);
    if sep == Last(bs[b]) {
      assert false;
    } else {
      UserBeyond(k, sep, first);
    }
  }

  lemma UserBeyond(k: Internal, sep: Internal, first: Internal)
    requires !InternalBefore(sep, k) && Before(sep.user, first.user)
    ensures k.user != first.user && !InternalBefore(first, k)
  {
    InternalTrichotomy(sep, k);
    Trichotomy(k.user, first.user);
    if Before(k.user, sep.user) {
      Transitive(k.user, sep.user, first.user);
    }
    Irreflexive(k.user);
  }

  /** Everything in the blocks before the one the index leads to is before `k`. */
  lemma {:induction false} EarlierBlocks(t: TableFile, bs: seq<DataBlock>, policy: Filters.Policy, k: Internal, b: nat)
    requires IsTable(t, bs, policy) && b == IndexSeek(t.index, k) <= |bs|
    ensures forall i, m :: 0 <= i < b && 0 <= m < |bs[i].entries| ==> InternalBefore(bs[i].entries[m].key, k)
  {
    forall i, m | 0 <= i < b && 0 <= m < |bs[i].entries| ensures InternalBefore(bs[i].entries[m].key, k) {
      SkippedBlock(t, bs, policy, k, i, m);
    }
  }

  /** Where the search of the one block ends is where a search of everything would. */
  lemma {:induction false} FoundInBlock(
    t: TableFile, bs: seq<DataBlock>, policy: Filters.Policy, k: Internal, b: nat, pos: nat)
    requires IsTable(t, bs, policy) && b == IndexSeek(t.index, k) < |bs|
    requires pos == FirstNotBefore(bs[b].entries, k) < |bs[b].entries|
    ensures var j := FirstNotBefore(Flatten(bs), k);
            j < |Flatten(bs)| && Flatten(bs)[j] == bs[b].entries[pos]
  {
    var es := Flatten(bs);
    EarlierBlocks(t, bs, policy, k, b);
    PrefixBefore(bs, b, k);
    FlattenAt(bs, b, pos);
    forall x | Start(bs, b) <= x < Start(bs, b) + pos ensures InternalBefore(es[x].key, k) {
      FlattenAt(bs, b, x - Start(bs, b));
    }
    FirstIs(es, k, Start(bs, b) + pos);
  }

  /** When it ends at the end of the block, what follows is for a later user key. */
  lemma {:induction false} MissedInBlock(t: TableFile, bs: seq<DataBlock>, policy: Filters.Policy, k: Internal, b: nat)
    requires IsTable(t, bs, policy) && b == IndexSeek(t.index, k) < |bs|
    requires FirstNotBefore(bs[b].entries, k) == |bs[b].entries|
    ensures var j := FirstNotBefore(Flatten(bs), k);
            j < |Flatten(bs)| ==> Flatten(bs)[j].key.user != k.user
  {
    var es := Flatten(bs);
    EarlierBlocks(t, bs, policy, k, b);
    PrefixBefore(bs, b + 1, k);
    IndexAt(bs, t.index, None, b);
    if b + 1 < |bs| {
      NextBlockBeyond(t, bs, policy, k, b);
      FlattenAt(bs, b + 1, 0);
      FirstIs(es, k, Start(bs, b + 1));
    } else {
      assert bs[..b + 1] == bs;
      FirstIs(es, k, |es|);
    }
  }

  lemma {:induction false} BeyondIndex(t: TableFile, bs: seq<DataBlock>, policy: Filters.Policy, k: Internal)
    requires IsTable(t, bs, policy) && IndexSeek(t.index, k) == |bs|
    ensures FirstNotBefore(Flatten(bs), k) == |Flatten(bs)|
  {
    EarlierBlocks(t, bs, policy, k, |bs|);
    PrefixBefore(bs, |bs|, k);
    assert bs[..|bs|] == bs;
    FirstIs(Flatten(bs), k, |Flatten(bs)|);
  }

  /** A key the filter rules out is not in the block. */
  lemma FilteredOut(
    t: TableFile, bs: seq<DataBlock>, policy: Filters.Policy, k: Internal, b: nat, pos: nat)
    requires IsTable(t, bs, policy) && b < |bs| && t.filter.Some? && pos < |bs[b].entries|
    requires !Filters.MayMatch(policy, t.filter.value, bs[b].offset, k.user)
    ensures bs[b].entries[pos].key.user != k.user
  {
  }

  /** Table::InternalGet: the entry handed to the callback is the first one from `k` on
      in the whole table; it may be missed only when it is for another user key. */
  method InternalGet(t: TableFile, policy: Filters.Policy, k: Internal, ghost bs: seq<DataBlock>)
    returns (r: Option<Entry>)
    requires IsTable(t, bs, policy)
    ensures var es := Flatten(bs);
            var j := FirstNotBefore(es, k);
            && (r.Some? ==> j < |es| && r.value == es[j])
            && (j < |es| && es[j].key.user == k.user ==> r == Some(es[j]))
  {
    r := None;
    var b := IndexSeek(t.index, k);
    if b < |t.index| {
      IndexAt(bs, t.index, None, b);
      ghost var end: nat :| Stored(bs, t.blocks, end);
      StoredAt(bs, t.blocks, end, b);
      ghost var expected := FirstNotBefore(bs[b].entries, k);
      if expected < |bs[b].entries| {
        FoundInBlock(t, bs, policy, k, b, expected);
      } else {
        MissedInBlock(t, bs, policy, k, b);
      }
      var handle := t.index[b].handle;
      if t.filter.Some? && !Filters.MayMatch(policy, t.filter.value, handle, k.user) {
        if expected < |bs[b].entries| {
          FilteredOut(t, bs, policy, k, b, expected);
        }
      } else {
        var block := t.blocks[handle];
        var pos := FirstNotBefore(block, k);
        if pos < |block| {
          r := Some(block[pos]);
        }
      }
    } else {
      BeyondIndex(t, bs, policy, k);
    }
  }

  /** If the table has an entry for the target's user key that is not newer than the
      target, the first entry from the target on is the newest such entry. */
  lemma {:induction false} FirstIsNewest(es: seq<Entry>, k: Internal, i: nat)
    requires Increasing(es) && i < |es| && es[i].key.user == k.user && es[i].key.tag <= k.tag
    ensures var j := FirstNotBefore(es, k);
            && j <= i && es[j].key.user == k.user && es[i].key.tag <= es[j].key.tag <= k.tag
  {
    var j := FirstNotBefore(es, k);
    Irreflexive(k.user);
    assert !InternalBefore(es[i].key, k);
    if j < i {
      IncreasingAt(es, j, i);
      InternalTrichotomy(es[j].key, k);
      Trichotomy(es[j].key.user, k.user);
    }
  }

  // ----- the builder

  function FirstKey(es: seq<Entry>): Option<Internal> {
    if es == [] then None else Some(es[0].key)
  }

  /** TableBuilder::Rep. `pending` says that the index entry of the last block waits for
      the first key of the next; `handle` is that block's. */
  datatype Rep = Rep(
    offset: nat, data: seq<Entry>, index: seq<IndexEntry>, lastKey: Internal,
    pending: bool, handle: nat, blocks: map<nat, seq<Entry>>)

  /** The builder agrees with the blocks written so far. */
  ghost predicate BuilderOk(done: seq<DataBlock>, r: Rep) {
    && Increasing(Flatten(done) + r.data) && Stored(done, r.blocks, r.offset)
    && IndexOk(done, r.index, FirstKey(r.data))
    && (if r.pending then r.data == [] && done != [] && r.handle == done[|done| - 1].offset && |r.index| == |done| - 1
        else |r.index| == |done| && (done != [] ==> r.data != []))
    && (r.data != [] ==> r.lastKey == r.data[|r.data| - 1].key)
    && (r.pending ==> done[|done| - 1].entries != [] && r.lastKey == Last(done[|done| - 1]))
  }

  lemma {:induction false} IncreasingMore(es: seq<Entry>, e: Entry)
    requires Increasing(es) && (es != [] ==> InternalBefore(es[|es| - 1].key, e.key))
    ensures Increasing(es + [e])
  {
    assert (es + [e])[..|es|] == es;
  }

  /** The last block's index entry is added when the next key is known. */
  lemma {:induction false} IndexGrows(
    done: seq<DataBlock>, index: seq<IndexEntry>, e: IndexEntry, next: Option<Internal>)
    requires IndexOk(done, index, None) && |index| == |done| - 1 && Indexed(done, |done| - 1, e, next)
    ensures IndexOk(done, index + [e], next)
  {
    IndexWeaker(done, index, None, next);
    assert (index + [e])[..|index|] == index;
  }

  /** What follows the last block does not matter to the blocks before. */
  lemma {:induction false} IndexWeaker(
    done: seq<DataBlock>, index: seq<IndexEntry>, next: Option<Internal>, next': Option<Internal>)
    requires IndexOk(done, index, next) && |index| < |done|
    ensures IndexOk(done, index, next')
    decreases |index|
  {
    if index != [] {
      IndexWeaker(done, index[..|index| - 1], next, next');
    }
  }

  lemma {:induction false} LastOfFlat(done: seq<DataBlock>)
    requires done != [] && done[|done| - 1].entries != []
    ensures Flatten(done) != [] && Flatten(done)[|Flatten(done)| - 1].key == Last(done[|done| - 1])
  {
  }

  lemma {:induction false} FilterCovers(
    done: seq<DataBlock>, last: Filters.Block, policy: Filters.Policy, contents: Bytes, blocks: seq<Filters.Block>)
    requires blocks == FilterBlocks(done) + [last]
    requires forall i, k :: 0 <= i < |blocks| && k in blocks[i].keys ==>
      Filters.MayMatch(policy, contents, blocks[i].offset, k)
    ensures FilterOk(done, policy, contents)
  {
    forall i, k | 0 <= i < |done| && 0 <= k < |done[i].entries|
      ensures Filters.MayMatch(policy, contents, done[i].offset, done[i].entries[k].key.user)
    {
      assert blocks[i] == FilterBlocks(done)[i];
      assert UserKeys(done[i].entries)[k] in blocks[i].keys;
    }
  }

  /** A finished block takes the place of the pending entries in what the index knows. */
  lemma {:induction false} FlushKeepsIndex(done: seq<DataBlock>, index: seq<IndexEntry>, offset: nat, data: seq<Entry>)
    requires data != [] && IndexOk(done, index, Some(data[0].key)) && |index| == |done|
    ensures IndexOk(done + [DataBlock(offset, data)], index, None)
  {
    IndexBlockAdded(done, index, Some(data[0].key), DataBlock(offset, data));
  }

  lemma {:induction false} IndexBlockAdded(
    done: seq<DataBlock>, index: seq<IndexEntry>, next: Option<Internal>, b: DataBlock)
    requires IndexOk(done, index, next) && b.entries != [] && next == Some(b.entries[0].key)
    ensures IndexOk(done + [b], index, None)
    decreases |index|
  {
    if index != [] {
      IndexBlockAdded(done, index[..|index| - 1], next, b);
    }
  }

  function Added(r: Rep, index: seq<IndexEntry>, e: Entry): Rep {
    r.(data := r.data + [e], index := index, lastKey := e.key, pending := false)
  }

  function Flushed(r: Rep, size: nat): Rep {
    r.(
      offset := r.offset + size + 5, data := [], pending := true, handle := r.offset,
      blocks := r.blocks[r.offset := r.data])
  }

  /** The index with the entry that was waiting for `key`. */
  ghost predicate IndexFor(r: Rep, key: Internal, index: seq<IndexEntry>) {
    if r.pending then
      |index| == |r.index| + 1 && index[..|r.index|] == r.index && index[|r.index|].handle == r.handle
      && Separates(r.lastKey, index[|r.index|].key, key)
    else index == r.index
  }

  /** Once the index entry of the last block is in, an entry may be added. */
  lemma {:induction false} AddOk(done: seq<DataBlock>, r: Rep, e: Entry, index: seq<IndexEntry>)
    requires BuilderOk(done, r)
    requires var es := Flatten(done) + r.data;
             es != [] ==> InternalBefore(es[|es| - 1].key, e.key)
    requires IndexFor(r, e.key, index)
    ensures BuilderOk(done, Added(r, index, e))
    ensures Flatten(done) + (r.data + [e]) == (Flatten(done) + r.data) + [e]
  {
    IncreasingMore(Flatten(done) + r.data, e);
    assert Flatten(done) + (r.data + [e]) == (Flatten(done) + r.data) + [e];
    if r.pending {
      assert index == r.index + [index[|r.index|]];
      IndexGrows(done, r.index, index[|r.index|], Some(e.key));
    } else {
      if r.data == [] {
        assert r.index == [];
      } else {
        assert (r.data + [e])[0] == r.data[0];
      }
    }
  }

  lemma {:induction false} FlushOk(done: seq<DataBlock>, r: Rep, size: nat)
    requires BuilderOk(done, r) && r.data != []
    ensures var done' := done + [DataBlock(r.offset, r.data)];
            && Flatten(done') == Flatten(done) + r.data && Flatten(done') + [] == Flatten(done')
            && BuilderOk(done', Flushed(r, size))
  {
    var done' := done + [DataBlock(r.offset, r.data)];
    assert done'[..|done|] == done;
    assert Flatten(done') + [] == Flatten(done');
    FlushKeepsIndex(done, r.index, r.offset, r.data);
    StillStored(done, r.blocks, r.offset, r.offset, r.data);
  }

  lemma {:induction false} UserKeysMore(es: seq<Entry>, e: Entry)
    ensures UserKeys(es + [e]) == UserKeys(es) + [e.key.user]
  {
    assert (es + [e])[..|es|] == es;
  }

  lemma {:induction false} FilterBlocksMore(bs: seq<DataBlock>, b: DataBlock)
    ensures FilterBlocks(bs + [b]) == FilterBlocks(bs) + [Filters.Block(b.offset, UserKeys(b.entries))]
  {
    assert (bs + [b])[..|bs|] == bs;
  }

  class TableBuilder {
    const policy: Filters.Policy
    const filterBlock: Filters.FilterBlockBuilder?
    var rep: Rep
    ghost var done: seq<DataBlock>

    ghost predicate Valid()
      reads this, filterBlock
    {
      BuilderOk(done, rep) && (filterBlock != null ==> FilterFollows())
    }

    /** The filter has seen the same blocks. */
    ghost predicate FilterFollows()
      requires filterBlock != null
      reads this, filterBlock
    {
      && filterBlock.Valid() && filterBlock.policy == policy
      && filterBlock.blocks == FilterBlocks(done) + [Filters.Block(rep.offset, UserKeys(rep.data))]
    }

    ghost function Entries(): seq<Entry>
      reads this
    {
      Flatten(done) + rep.data
    }

    constructor (policy: Filters.Policy, filtered: bool)
      ensures Valid() && Entries() == [] && this.policy == policy && (filterBlock != null <==> filtered)
      ensures filterBlock != null ==> fresh(filterBlock)
    {
      this.policy := policy;
      rep := Rep(0, [], [], Internal([], 0), false, 0, map[]);
      done := [];
      var filter: Filters.FilterBlockBuilder? := null;
      if filtered {
        filter := new Filters.FilterBlockBuilder(policy);
        filter.StartBlock(0);
      }
      filterBlock := filter;
    }

    /** Keys must be added in increasing order. `full` says that the block has reached
        its size, `size` how many bytes it takes in the file. */
    method Add(key: Internal, value: Bytes, full: bool, size: nat)
      requires Valid()
      requires Entries() != [] ==> InternalBefore(Entries()[|Entries()| - 1].key, key)
      modifies this, filterBlock
      ensures Valid() && Entries() == old(Entries()) + [Entry(key, value)]
      ensures rep.data == if full then [] else old(rep.data) + [Entry(key, value)]
    {
      var index := EmitIndexEntry(rep, key);
      Append(Entry(key, value), index);
      if full {
        Flush(size);
      }
    }

    method Append(e: Entry, index: seq<IndexEntry>)
      requires Valid() && IndexFor(rep, e.key, index)
      requires Entries() != [] ==> InternalBefore(Entries()[|Entries()| - 1].key, e.key)
      modifies this`rep, filterBlock
      ensures Valid() && Entries() == old(Entries()) + [e] && rep.data == old(rep.data) + [e]
    {
      var r := rep;
      AddOk(done, r, e, index);
      UserKeysMore(r.data, e);
      if filterBlock != null {
        filterBlock.AddKey(e.key.user);
      }
      rep := Added(r, index, e);
    }

    static method EmitIndexEntry(r: Rep, key: Internal) returns (index: seq<IndexEntry>)
      ensures IndexFor(r, key, index)
    {
      index := r.index;
      if r.pending {
        var separator := InternalSeparator(r.lastKey, key);
        index := index + [IndexEntry(separator, r.handle)];
      }
    }

    method Flush(size: nat)
      requires Valid()
      modifies this, filterBlock
      ensures Valid() && Entries() == old(Entries()) && rep.data == []
      ensures rep.pending <==> Entries() != []
      ensures old(rep.data) == [] ==> rep == old(rep) && done == old(done)
      ensures old(rep.data) != [] ==>
        && rep.offset == old(rep.offset) + size + 5
        && done == old(done) + [DataBlock(old(rep.offset), old(rep.data))]
    {
      var r := rep;
      if r.data == [] {
        if done != [] {
          LastOfFlat(done);
        }
        return;
      }
      FlushOk(done, r, size);
      FilterBlocksMore(done, DataBlock(r.offset, r.data));
      rep := Flushed(r, size);
      done := done + [DataBlock(r.offset, r.data)];
      if filterBlock != null {
        filterBlock.StartBlock(rep.offset);
      }
    }

    /** The filter is complete only if its offsets fit in 32 bits. */
    method Finish(size: nat) returns (t: TableFile)
      requires Valid()
      modifies this, filterBlock
      ensures Flatten(done) == old(Entries())
      ensures IsTable(t.(filter := None), done, policy) && (t.filter.Some? <==> filterBlock != null)
      ensures filterBlock != null && |filterBlock.result| < WORD32 ==> IsTable(t, done, policy)
    {
      Flush(size);
      var r := rep;
      var filter := None;
      if filterBlock != null {
        var contents := filterBlock.Finish();
        filter := Some(contents);
        if |filterBlock.result| < WORD32 {
          FilterCovers(done, Filters.Block(r.offset, UserKeys([])), policy, contents, filterBlock.blocks);
        }
      }
      var index := FinishIndex();
      assert Flatten(done) + [] == Flatten(done);
      t := TableFile(r.blocks, index, filter);
    }

    /** The entry of the last block gets a key that needs no successor. */
    method FinishIndex() returns (index: seq<IndexEntry>)
      requires BuilderOk(done, rep) && rep.data == []
      ensures |index| == |done| && IndexOk(done, index, None)
    {
      index := rep.index;
      if rep.pending {
        var successor := InternalSuccessor(rep.lastKey);
        IndexGrows(done, index, IndexEntry(successor, rep.handle), None);
        index := index + [IndexEntry(successor, rep.handle)];
      }
    }
  }
}
