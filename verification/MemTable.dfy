/** The memtable (db/memtable.cc): entries are byte strings with their keys in front,
    and the skip list that holds them compares them by these keys. */
module MemTables {
  import opened Options
  import opened Coding
  import opened Comparators
  import SkipLists

  datatype Item = Item(key: Internal, value: Bytes)

  datatype Answer = Found(value: Bytes) | Deleted | Missing

  const TYPE_DELETION: nat := 0
  const TYPE_VALUE: nat := 1
  const MAX_SEQUENCE: nat := 0xff_ffff_ffff_ffff

  // ----- entries

  predicate KeyFits(key: Internal) {
    |key.user| + 8 < WORD32 && key.tag < WORD64
  }

  predicate ItemFits(item: Item) {
    KeyFits(item.key) && |item.value| < WORD32
  }

  /** A length-prefixed internal key. */
  function KeyBytes(key: Internal): Bytes {
    Varint(|key.user| + 8) + (key.user + Fixed(key.tag, 8))
  }

  function EntryBytes(item: Item): Bytes {
    KeyBytes(item.key) + LengthPrefixed(item.value)
  }

  /** The key at the start of an entry or of a lookup key, and what follows it. */
  function GetKey(entry: Bytes): Option<(Internal, Bytes)> {
    match GetVarint32(entry)
    case None => None
    case Some((size, rest)) =>
      if 8 <= size <= |rest| then Some((Internal(rest[..size - 8], FromFixed(rest[size - 8..size])), rest[size..]))
        else None
  }

  lemma KeySlices(user: Bytes, tag: Bytes, rest: Bytes)
    ensures var s := user + tag + rest;
            && s[..|user|] == user && s[|user|..|user| + |tag|] == tag && s[|user| + |tag|..] == rest
  {
  }

  lemma KeyRoundTrip(key: Internal, rest: Bytes)
    requires KeyFits(key)
    ensures GetKey(KeyBytes(key) + rest) == Some((key, rest))
  {
    var body := key.user + Fixed(key.tag, 8);
    assert KeyBytes(key) + rest == Varint(|key.user| + 8) + (body + rest);
    Varint32RoundTrip(|key.user| + 8, body + rest);
    KeySlices(key.user, Fixed(key.tag, 8), rest);
    Fixed64RoundTrip(key.tag);
  }

  /** What was added can be read back from the entry. */
  lemma EntryRoundTrip(item: Item)
    requires ItemFits(item)
    ensures GetKey(EntryBytes(item)) == Some((item.key, LengthPrefixed(item.value)))
    ensures GetLengthPrefixed(LengthPrefixed(item.value)) == Some((item.value, []))
  {
    KeyRoundTrip(item.key, LengthPrefixed(item.value));
    assert LengthPrefixed(item.value) + [] == LengthPrefixed(item.value);
    LengthPrefixedRoundTrip(item.value, []);
  }

  /** MemTable::KeyComparator, on entries or lookup keys. */
  predicate EntryBefore(a: Bytes, b: Bytes) {
    && GetKey(a).Some? && GetKey(b).Some?
    && InternalBefore(GetKey(a).value.0, GetKey(b).value.0)
  }

  /** What the skip list is searched by: an entry, or a lookup key. */
  predicate IsKeyed(b: Bytes) {
    GetKey(b).Some? && GetKey(b).value.0.tag < WORD64
  }

  type Keyed = b: Bytes | IsKeyed(b)
    ghost witness (KeyIsKeyed(Internal([], 0), []); KeyBytes(Internal([], 0)) + [])

  lemma KeyIsKeyed(key: Internal, rest: Bytes)
    requires KeyFits(key)
    ensures IsKeyed(KeyBytes(key) + rest)
  {
    KeyRoundTrip(key, rest);
  }

  lemma EntryIsKeyed(item: Item)
    requires ItemFits(item)
    ensures IsKeyed(EntryBytes(item)) && GetKey(EntryBytes(item)) == Some((item.key, LengthPrefixed(item.value)))
  {
    EntryRoundTrip(item);
  }

  ghost function KeyRank(b: Keyed): real {
    InternalRank(GetKey(b).value.0)
  }

  lemma KeyRankOrder(a: Keyed, b: Keyed)
    ensures EntryBefore(a, b) <==> KeyRank(a) < KeyRank(b)
  {
    InternalRankOrder(GetKey(a).value.0, GetKey(b).value.0);
  }

  /** LookupKey: the first key at which a read of `user` at sequence `s` may find something. */
  function SeekKey(user: Bytes, s: nat): Internal {
    Internal(user, s * 256 + TYPE_VALUE)
  }

  function LookupKey(user: Bytes, s: nat): Bytes {
    KeyBytes(SeekKey(user, s))
  }

  // ----- what a memtable means

  /** Written at or before sequence `s` for `user`. */
  predicate Candidate(item: Item, user: Bytes, s: nat) {
    item.key.user == user && item.key.tag <= s * 256 + TYPE_VALUE
  }

  ghost predicate Newest(items: seq<Item>, user: Bytes, s: nat, item: Item) {
    && item in items && Candidate(item, user, s)
    && forall i :: 0 <= i < |items| && Candidate(items[i], user, s) ==> items[i].key.tag <= item.key.tag
  }

  function Meaning(item: Item): Answer {
    if item.key.tag % 256 == TYPE_VALUE then Found(item.value)
    else if item.key.tag % 256 == TYPE_DELETION then Deleted else Missing
  }

  ghost predicate Sorted(items: seq<Item>) {
    forall i, j :: 0 <= i < j < |items| ==> InternalBefore(items[i].key, items[j].key)
  }

  ghost predicate AreEntries(table: seq<Bytes>, items: seq<Item>) {
    |table| == |items| && forall i :: 0 <= i < |items| ==> ItemFits(items[i]) && table[i] == EntryBytes(items[i])
  }

  /** The first item from the seek key on, if it is the user's, is the newest candidate. */
  lemma FirstIsNewest(items: seq<Item>, user: Bytes, s: nat, p: nat)
    requires Sorted(items) && p <= |items|
    requires forall i :: 0 <= i < p ==> InternalBefore(items[i].key, SeekKey(user, s))
    requires p < |items| ==> !InternalBefore(items[p].key, SeekKey(user, s))
    ensures p < |items| && items[p].key.user == user ==> Newest(items, user, s, items[p])
    ensures p == |items| || items[p].key.user != user ==> forall i :: 0 <= i < |items| ==> !Candidate(items[i], user, s)
  {
    forall i | 0 <= i < |items| && Candidate(items[i], user, s)
      ensures p <= i && items[p].key.user == user && items[i].key.tag <= items[p].key.tag
    {
      if i < p {
        Irreflexive(user);
        assert false;
      }
      if p < i {
        Between(items[p].key, items[i].key, SeekKey(user, s));
      }
    }
  }

  /** A key not before the seek key and before one of the same user is the user's too. */
  lemma Between(a: Internal, b: Internal, seek: Internal)
    requires InternalBefore(a, b) && !InternalBefore(a, seek) && b.user == seek.user
    ensures a.user == seek.user
  {
    Irreflexive(seek.user);
  }

  /** `item` was put somewhere among the items. */
  ghost predicate Inserted(items: seq<Item>, item: Item, items': seq<Item>) {
    exists p: nat :: InsertedAt(items, p, item, items')
  }

  ghost predicate InsertedAt(items: seq<Item>, p: nat, item: Item, items': seq<Item>) {
    p <= |items| && items' == items[..p] + [item] + items[p..]
  }

  /** The ranks of entries are those of their keys, so entries in the list's order have
      their keys in order. */
  lemma RankedSorted(table: seq<Keyed>, items: seq<Item>)
    requires AreEntries(table, items)
    requires forall i, j :: 0 <= i < j < |table| ==> KeyRank(table[i]) < KeyRank(table[j])
    ensures Sorted(items)
  {
    forall i, j | 0 <= i < j < |items| ensures InternalBefore(items[i].key, items[j].key) {
      EntryIsKeyed(items[i]);
      EntryIsKeyed(items[j]);
      InternalRankOrder(items[i].key, items[j].key);
    }
  }

  lemma NewRank(table: seq<Keyed>, items: seq<Item>, item: Item, buf: Keyed)
    requires AreEntries(table, items) && ItemFits(item) && buf == EntryBytes(item)
    requires forall i :: 0 <= i < |items| ==> items[i].key != item.key
    ensures forall i :: 0 <= i < |table| ==> KeyRank(table[i]) != KeyRank(buf)
  {
    EntryIsKeyed(item);
    forall i | 0 <= i < |table| ensures KeyRank(table[i]) != KeyRank(buf) {
      EntryIsKeyed(items[i]);
      InternalRankOrder(items[i].key, item.key);
    }
  }

  /** Where a seek comes to in the list is where it comes to among the items. */
  lemma SeekSplits(table: seq<Keyed>, items: seq<Item>, p: nat, target: Keyed, key: Internal)
    requires AreEntries(table, items) && p <= |items| && key == GetKey(target).value.0
    requires forall i :: 0 <= i < p ==> KeyRank(table[i]) < KeyRank(target)
    requires forall i :: p <= i < |table| ==> KeyRank(table[i]) >= KeyRank(target)
    ensures forall i :: 0 <= i < p ==> InternalBefore(items[i].key, key)
    ensures p < |items| ==> !InternalBefore(items[p].key, key)
  {
    forall i | 0 <= i < |items| ensures InternalBefore(items[i].key, key) <==> i < p {
      EntryIsKeyed(items[i]);
      InternalRankOrder(items[i].key, key);
    }
  }

  lemma InsertedEntries(
    table: seq<Keyed>, items: seq<Item>, p: nat, item: Item, buf: Keyed, table': seq<Keyed>)
    requires AreEntries(table, items) && ItemFits(item) && buf == EntryBytes(item)
    requires SkipLists.IsInsert(table, p, buf, table')
    ensures AreEntries(table', PutAt(items, p, item)) && Inserted(items, item, PutAt(items, p, item))
  {
    assert InsertedAt(items, p, item, PutAt(items, p, item));
  }

  function PutAt(items: seq<Item>, p: nat, item: Item): seq<Item>
    requires p <= |items|
  {
    items[..p] + [item] + items[p..]
  }

  class MemTable {
    const table: SkipLists.SkipList<Keyed>
    ghost var items: seq<Item>

    ghost predicate Valid()
      reads this, table, table.nodes
    {
      && table.Valid() && (forall b: Keyed {:trigger KeyRank(b)} :: table.rank(b) == KeyRank(b))
      && AreEntries(table.Contents(), items)
    }

    constructor ()
      ensures Valid() && items == [] && fresh(table) && fresh(table.nodes)
    {
      forall a: Keyed, b: Keyed ensures EntryBefore(a, b) <==> KeyRank(a) < KeyRank(b) {
        KeyRankOrder(a, b);
      }
      KeyIsKeyed(Internal([], 0), []);
      var any := KeyBytes(Internal([], 0)) + [];
      table := new SkipLists.SkipList((a: Keyed, b: Keyed) => EntryBefore(a, b), any, (b: Keyed) => KeyRank(b));
      items := [];
    }

    lemma ItemsSorted()
      requires Valid()
      ensures Sorted(items)
    {
      table.ContentsSorted();
      RankedSorted(table.Contents(), items);
    }

    lemma NewInTable(buf: Keyed, item: Item)
      requires Valid() && ItemFits(item) && buf == EntryBytes(item)
      requires forall i :: 0 <= i < |items| ==> items[i].key != item.key
      ensures forall i :: 0 <= i < |table.Contents()| ==> table.rank(table.Contents()[i]) != table.rank(buf)
    {
      NewRank(table.Contents(), items, item, buf);
      forall i | 0 <= i < |table.Contents()| ensures table.rank(table.Contents()[i]) != table.rank(buf) {
        assert KeyRank(table.Contents()[i]) != KeyRank(buf);
      }
    }

    /** table_.Insert(buf) */
    method InsertBytes(buf: Keyed, height: nat) returns (ghost p: nat)
      requires table.Valid() && 1 <= height <= SkipLists.MAX_HEIGHT
      requires forall i :: 0 <= i < |table.Contents()| ==> table.rank(table.Contents()[i]) != table.rank(buf)
      modifies table, table.nodes
      ensures table.Valid() && forall n :: n in table.nodes && n !in old(table.nodes) ==> fresh(n)
      ensures p <= old(|table.Contents()|) && SkipLists.IsInsert(old(table.Contents()), p, buf, table.Contents())
    {
      p := SkipLists.Position(table.nodes, table.rank(buf)) - 1;
      table.Insert(buf, height);
    }

    method InsertEntry(buf: Keyed, height: nat, ghost item: Item)
      requires Valid() && ItemFits(item) && buf == EntryBytes(item) && 1 <= height <= SkipLists.MAX_HEIGHT
      requires forall i :: 0 <= i < |table.Contents()| ==> table.rank(table.Contents()[i]) != table.rank(buf)
      modifies this, table, table.nodes
      ensures Valid() && forall n :: n in table.nodes && n !in old(table.nodes) ==> fresh(n)
      ensures Inserted(old(items), item, items)
    {
      ghost var before := table.Contents();
      ghost var p := InsertBytes(buf, height);
      InsertedEntries(before, items, p, item, buf, table.Contents());
      items := PutAt(items, p, item);
    }

    /** Sequence numbers are never used twice, so the key is new; any height will do. */
    method Add(s: nat, kind: nat, user: Bytes, value: Bytes, height: nat)
      requires Valid() && s <= MAX_SEQUENCE && kind < 256 && ItemFits(Item(Internal(user, s * 256 + kind), value))
      requires 1 <= height <= SkipLists.MAX_HEIGHT
      requires forall i :: 0 <= i < |items| ==> items[i].key != Internal(user, s * 256 + kind)
      modifies this, table, table.nodes
      ensures Valid() && forall n :: n in table.nodes && n !in old(table.nodes) ==> fresh(n)
      ensures Inserted(old(items), Item(Internal(user, s * 256 + kind), value), items)
    {
      ghost var item := Item(Internal(user, s * 256 + kind), value);
      var buf := Varint(|user| + 8) + (user + Fixed(s * 256 + kind, 8));
      buf := buf + (Varint(|value|) + value);
      EntryIsKeyed(item);
      NewInTable(buf, item);
      InsertEntry(buf, height, item);
    }

    /** iter.Seek(memkey) */
    method SeekEntry(memkey: Keyed, ghost key: Internal) returns (entry: Option<Bytes>, ghost p: nat)
      requires Valid() && GetKey(memkey).value.0 == key
      ensures p <= |items| && (entry.Some? <==> p < |items|)
      ensures p < |items| ==> entry == Some(EntryBytes(items[p]))
      ensures forall i :: 0 <= i < p ==> InternalBefore(items[i].key, key)
      ensures p < |items| ==> !InternalBefore(items[p].key, key)
    {
      var iter := new SkipLists.Iterator(table);
      iter.Seek(memkey);
      p := iter.pos;
      SeekSplits(table.Contents(), items, p, memkey, key);
      if iter.node == null {
        return None, p;
      }
      assert iter.node.key == table.Contents()[p];
      return Some(iter.node.key), p;
    }

    /** The newest entry for the user key that is not newer than `s` decides. */
    method Get(user: Bytes, s: nat) returns (r: Answer)
      requires Valid() && s <= MAX_SEQUENCE && |user| + 8 < WORD32
      ensures (forall i :: 0 <= i < |items| ==> !Candidate(items[i], user, s)) ==> r == Missing
      ensures forall item :: Newest(items, user, s, item) ==> r == Meaning(item)
    {
      var memkey := LookupKey(user, s);
      assert memkey + [] == memkey;
      KeyRoundTrip(SeekKey(user, s), []);
      ghost var p;
      var entry;
      entry, p := SeekEntry(memkey, SeekKey(user, s));
      ItemsSorted();
      FirstIsNewest(items, user, s, p);
      if entry.Some? {
        EntryRoundTrip(items[p]);
        var (key, rest) := GetKey(entry.value).value;
        if key.user == user {
          NewestIsOne(items, user, s, items[p]);
          if key.tag % 256 == TYPE_VALUE {
            return Found(GetLengthPrefixed(rest).value.0);
          } else if key.tag % 256 == TYPE_DELETION {
            return Deleted;
          }
        }
      }
      return Missing;
    }
  }

  lemma NewestIsOne(items: seq<Item>, user: Bytes, s: nat, item: Item)
    requires Sorted(items) && Newest(items, user, s, item)
    ensures forall other :: Newest(items, user, s, other) ==> other == item
  {
    forall other | Newest(items, user, s, other) ensures other == item {
      var i :| 0 <= i < |items| && items[i] == item;
      var j :| 0 <= j < |items| && items[j] == other;
      Irreflexive(user);
      assert other.key == item.key;
      if i < j {
        assert InternalBefore(items[i].key, items[j].key);
      } else if j < i {
        assert InternalBefore(items[j].key, items[i].key);
      }
    }
  }
}
