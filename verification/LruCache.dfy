/** One shard of the LRU cache: reference-counted handles, the list of those in use and
    the list of those that may be evicted, oldest first. */
module LruCaches {
  import opened Options
  import opened Coding
  import opened HandleTables

  /** `lru` and `inUse` are the two lists from oldest to newest; `deleted` records the
      calls of deleters. */
  datatype State = State(
    capacity: nat, usage: int, handles: map<Id, Handle>, lru: seq<Id>, inUse: seq<Id>,
    table: Table, deleted: seq<Id>, nextId: Id)

  ghost function InCache(s: State): set<Id> {
    set id | id in s.handles && s.handles[id].inCache
  }

  /** References held by clients. */
  function ClientRefs(s: State, id: Id): int {
    if id in s.handles then s.handles[id].refs - (if s.handles[id].inCache then 1 else 0) else 0
  }

  function Charge(handles: map<Id, Handle>, l: seq<Id>): nat {
    if l == [] then 0 else Charge(handles, l[1..]) + (if l[0] in handles then handles[l[0]].charge else 0)
  }

  /** An entry in the cache is on exactly one list: on `lru` if only the cache refers to
      it, else on `inUse`. Other entries are on neither. */
  ghost predicate ListsOk(s: State) {
    && Distinct(s.lru) && Distinct(s.inUse)
    && (forall id :: id in s.lru <==> id in s.handles && s.handles[id].inCache && s.handles[id].refs == 1)
    && (forall id :: id in s.inUse <==> id in s.handles && s.handles[id].inCache && s.handles[id].refs >= 2)
    && (forall id :: id in s.handles ==> s.handles[id].refs >= 1)
  }

  /** Every handle ever made is alive or was deleted, once. */
  ghost predicate DeletedOk(s: State) {
    && Distinct(s.deleted) && s.nextId >= 0
    && (forall id :: id in s.handles ==> 0 <= id < s.nextId && id !in s.deleted)
    && (forall id :: id in s.deleted ==> 0 <= id < s.nextId)
    && (forall id :: 0 <= id < s.nextId ==> id in s.handles || id in s.deleted)
  }

  ghost predicate UsageOk(s: State) {
    s.usage == Charge(s.handles, s.lru) + Charge(s.handles, s.inUse)
  }

  ghost predicate Core(s: State) {
    ListsOk(s) && DeletedOk(s) && UsageOk(s)
  }

  ghost predicate Inv(s: State) {
    Core(s) && TableOk(s.table, s.handles, InCache(s))
  }

  // ----- lists

  /** LRU_Remove */
  function Without(l: seq<Id>, e: Id): (r: seq<Id>)
    ensures forall id :: id in r <==> id in l && id != e
  {
    if l == [] then [] else if l[0] == e then Without(l[1..], e) else [l[0]] + Without(l[1..], e)
  }

  /** The elements of `l` that have the key, or those that have not. */
  function WithKey(l: seq<Id>, handles: map<Id, Handle>, key: Bytes, hash: nat, has: bool): seq<Id> {
    if l == [] then []
    else (if Matches(handles, l[0], key, hash) == has then [l[0]] else []) + WithKey(l[1..], handles, key, hash, has)
  }

  lemma {:induction false} NoneWithKey(l: seq<Id>, handles: map<Id, Handle>, key: Bytes, hash: nat)
    requires forall id :: id in l ==> !Matches(handles, id, key, hash)
    ensures WithKey(l, handles, key, hash, false) == l && WithKey(l, handles, key, hash, true) == []
  {
    if l != [] {
      NoneWithKey(l[1..], handles, key, hash);
    }
  }

  lemma {:induction false} OneWithKey(l: seq<Id>, handles: map<Id, Handle>, key: Bytes, hash: nat, e: Id)
    requires Distinct(l) && Matches(handles, e, key, hash)
    requires forall id :: id in l && Matches(handles, id, key, hash) ==> id == e
    ensures WithKey(l, handles, key, hash, false) == Without(l, e)
    ensures WithKey(l, handles, key, hash, true) == if e in l then [e] else []
  {
    if l != [] {
      TailDistinct(l);
      OneWithKey(l[1..], handles, key, hash, e);
    }
  }

  lemma {:induction false} SameWithKey(l: seq<Id>, a: map<Id, Handle>, b: map<Id, Handle>, key: Bytes, hash: nat)
    requires forall id :: id in l ==> Matches(a, id, key, hash) == Matches(b, id, key, hash)
    ensures WithKey(l, a, key, hash, true) == WithKey(l, b, key, hash, true)
    ensures WithKey(l, a, key, hash, false) == WithKey(l, b, key, hash, false)
  {
    if l != [] {
      SameWithKey(l[1..], a, b, key, hash);
    }
  }

  /** Inserting a key: what may be evicted besides it, and what it ends at once. */
  function Unused(s: State, key: Bytes, hash: nat): seq<Id> {
    if s.capacity > 0 then WithKey(s.lru, s.handles, key, hash, false) else s.lru
  }

  function Replaced(s: State, key: Bytes, hash: nat): seq<Id> {
    if s.capacity > 0 then WithKey(s.lru, s.handles, key, hash, true) else []
  }

  ghost predicate SameCharges(s: State, s': State, e: Id) {
    forall id :: id in s'.handles && id != e ==> id in s.handles && s'.handles[id].charge == s.handles[id].charge
  }

  /** Of the `unused` entries, oldest first, `n` were evicted, and no more than needed. */
  ghost predicate Evicted(unused: seq<Id>, n: nat, handles: map<Id, Handle>, deleted: seq<Id>, s: State) {
    && n <= |unused| && s.lru == unused[n..] && s.deleted == deleted + unused[..n]
    && (n > 0 ==> unused[n - 1] in handles && s.usage + handles[unused[n - 1]].charge > s.capacity)
  }

  lemma ConsDistinct(x: Id, l: seq<Id>)
    requires Distinct(l) && x !in l
    ensures Distinct([x] + l)
  {
  }

  lemma TailDistinct(l: seq<Id>)
    requires Distinct(l) && l != []
    ensures Distinct(l[1..]) && l[0] !in l[1..]
  {
  }

  lemma {:induction false} WithoutDistinct(l: seq<Id>, e: Id)
    requires Distinct(l)
    ensures Distinct(Without(l, e))
  {
    if l != [] {
      TailDistinct(l);
      var rest := Without(l[1..], e);
      WithoutDistinct(l[1..], e);
      if l[0] == e {
        assert Without(l, e) == rest;
      } else {
        ConsDistinct(l[0], rest);
        assert Without(l, e) == [l[0]] + rest;
      }
    }
  }

  lemma {:induction false} WithoutCharge(handles: map<Id, Handle>, l: seq<Id>, e: Id)
    requires Distinct(l) && e in handles
    ensures Charge(handles, Without(l, e)) == Charge(handles, l) - (if e in l then handles[e].charge else 0)
  {
    if l != [] {
      WithoutCharge(handles, l[1..], e);
      assert l[0] !in l[1..];
      if l[0] != e {
        assert ([l[0]] + Without(l[1..], e))[1..] == Without(l[1..], e);
      }
    }
  }

  lemma {:induction false} AppendCharge(handles: map<Id, Handle>, l: seq<Id>, e: Id)
    requires e in handles
    ensures Charge(handles, l + [e]) == Charge(handles, l) + handles[e].charge
  {
    if l == [] {
      assert [e][1..] == [];
    } else {
      assert (l + [e])[1..] == l[1..] + [e];
      AppendCharge(handles, l[1..], e);
    }
  }

  lemma {:induction false} SameCharge(a: map<Id, Handle>, b: map<Id, Handle>, l: seq<Id>)
    requires forall id :: id in l ==> (id in a <==> id in b) && (id in a ==> a[id].charge == b[id].charge)
    ensures Charge(a, l) == Charge(b, l)
  {
    if l != [] {
      var x := l[0];
      assert x in l;
      assert x in a <==> x in b;
      assert x in a ==> a[x].charge == b[x].charge;
      SameCharge(a, b, l[1..]);
      assert Charge(a, l) == Charge(a, l[1..]) + (if x in a then a[x].charge else 0);
      assert Charge(b, l) == Charge(b, l[1..]) + (if x in b then b[x].charge else 0);
    }
  }

  // ----- references

  function Ref(s: State, e: Id): State
    requires e in s.handles
  {
    var h := s.handles[e];
    var s1 := if h.refs == 1 && h.inCache then s.(lru := Without(s.lru, e), inUse := s.inUse + [e]) else s;
    s1.(handles := s.handles[e := h.(refs := h.refs + 1)])
  }

  function Unref(s: State, e: Id): State
    requires e in s.handles && s.handles[e].refs > 0
  {
    var h := s.handles[e].(refs := s.handles[e].refs - 1);
    if h.refs == 0 then s.(handles := s.handles - {e}, deleted := s.deleted + [e])
    else
      var s1 := s.(handles := s.handles[e := h]);
      if h.inCache && h.refs == 1 then s1.(inUse := Without(s.inUse, e), lru := s.lru + [e]) else s1
  }

  /** The entry, which has already left the hash table, leaves its list. */
  function Detached(s: State, e: Id): State
    requires e in s.handles
  {
    s.(lru := Without(s.lru, e), inUse := Without(s.inUse, e),
       handles := s.handles[e := s.handles[e].(inCache := false)], usage := s.usage - s.handles[e].charge)
  }

  function FinishErase(s: State, e: Id): State
    requires e in s.handles && s.handles[e].refs > 0
  {
    Unref(Detached(s, e), e)
  }

  /** Nothing but `e` changes in the eyes of clients and of the hash table. */
  ghost predicate OthersSame(s: State, s': State, e: Id) {
    && (forall id :: id != e ==> (id in s'.handles <==> id in s.handles))
    && (forall id :: id != e && id in s.handles && id in s'.handles ==> s'.handles[id] == s.handles[id])
  }

  lemma RefOk(s: State, e: Id)
    requires Core(s) && e in s.handles
    ensures Core(Ref(s, e)) && OthersSame(s, Ref(s, e), e) && InCache(Ref(s, e)) == InCache(s)
    ensures ClientRefs(Ref(s, e), e) == ClientRefs(s, e) + 1
  {
    RefUsage(s, e);
    if s.handles[e].refs == 1 && s.handles[e].inCache {
      WithoutDistinct(s.lru, e);
    }
  }

  lemma RefUsage(s: State, e: Id)
    requires ListsOk(s) && UsageOk(s) && e in s.handles
    ensures UsageOk(Ref(s, e))
  {
    var s', h := Ref(s, e), s.handles[e];
    SameCharge(s.handles, s'.handles, s'.lru);
    SameCharge(s.handles, s'.handles, s'.inUse);
    if h.refs == 1 && h.inCache {
      WithoutCharge(s.handles, s.lru, e);
      AppendCharge(s.handles, s.inUse, e);
    }
  }

  lemma UnrefLists(s: State, e: Id)
    requires ListsOk(s) && e in s.handles && ClientRefs(s, e) > 0
    ensures ListsOk(Unref(s, e))
  {
    if s.handles[e].inCache && s.handles[e].refs == 2 {
      WithoutDistinct(s.inUse, e);
    }
  }

  lemma UnrefUsage(s: State, e: Id)
    requires ListsOk(s) && UsageOk(s) && e in s.handles && ClientRefs(s, e) > 0
    ensures UsageOk(Unref(s, e))
  {
    var s', h := Unref(s, e), s.handles[e];
    SameCharge(s.handles, s'.handles, s'.lru);
    SameCharge(s.handles, s'.handles, s'.inUse);
    if h.inCache && h.refs == 2 {
      WithoutCharge(s.handles, s.inUse, e);
      AppendCharge(s.handles, s.lru, e);
    }
  }

  lemma UnrefOk(s: State, e: Id)
    requires Core(s) && e in s.handles && ClientRefs(s, e) > 0
    ensures Core(Unref(s, e)) && OthersSame(s, Unref(s, e), e) && InCache(Unref(s, e)) == InCache(s)
    ensures ClientRefs(Unref(s, e), e) == ClientRefs(s, e) - 1
    ensures e in Unref(s, e).handles <==> s.handles[e].refs > 1
  {
    UnrefLists(s, e);
    UnrefUsage(s, e);
  }

  lemma DetachedOk(s: State, e: Id)
    requires Core(s) && e in InCache(s)
    ensures Core(Detached(s, e)) && OthersSame(s, Detached(s, e), e) && InCache(Detached(s, e)) == InCache(s) - {e}
    ensures ClientRefs(Detached(s, e), e) == ClientRefs(s, e) + 1
  {
    WithoutDistinct(s.lru, e);
    WithoutDistinct(s.inUse, e);
    DetachedUsage(s, e);
  }

  lemma DetachedUsage(s: State, e: Id)
    requires ListsOk(s) && UsageOk(s) && e in InCache(s)
    ensures UsageOk(Detached(s, e))
  {
    var s' := Detached(s, e);
    WithoutCharge(s.handles, s.lru, e);
    WithoutCharge(s.handles, s.inUse, e);
    SameCharge(s.handles, s'.handles, s'.lru);
    SameCharge(s.handles, s'.handles, s'.inUse);
  }

  lemma {:induction false} FinishEraseOk(s: State, e: Id)
    requires Core(s) && e in InCache(s)
    ensures var s' := FinishErase(s, e);
            && Core(s') && OthersSame(s, s', e) && InCache(s') == InCache(s) - {e}
            && ClientRefs(s', e) == ClientRefs(s, e) && s'.lru == Without(s.lru, e)
            && s'.usage == s.usage - s.handles[e].charge && (e in s'.handles <==> ClientRefs(s, e) > 0)
  {
    DetachedOk(s, e);
    UnrefOk(Detached(s, e), e);
  }

  ghost predicate SameKeys(a: map<Id, Handle>, b: map<Id, Handle>, members: set<Id>) {
    forall id :: id in members ==> id in a && id in b && a[id].key == b[id].key && a[id].hash == b[id].hash
  }

  /** The hash table looks at keys and hashes only. */
  lemma TableSame(t: Table, a: map<Id, Handle>, b: map<Id, Handle>, members: set<Id>)
    requires TableOk(t, a, members) && SameKeys(a, b, members)
    ensures TableOk(t, b, members)
  {
    forall x, y | x in members && y in members && x in b && Matches(b, y, b[x].key, b[x].hash) ensures x == y {
      assert Matches(a, y, a[x].key, a[x].hash);
    }
    forall id | id in members ensures id in b.Keys {
      assert id in a;
    }
  }

  /** An entry that has left the table leaves the cache. */
  lemma EraseOk(s: State, e: Id, table: Table)
    requires Core(s) && e in InCache(s) && TableOk(table, s.handles, InCache(s) - {e})
    ensures Inv(FinishErase(s, e).(table := table)) && OthersSame(s, FinishErase(s, e), e)
    ensures InCache(FinishErase(s, e)) == InCache(s) - {e}
    ensures forall id :: ClientRefs(FinishErase(s, e), id) == ClientRefs(s, id)
  {
    var s' := FinishErase(s, e);
    FinishEraseOk(s, e);
    TableSame(table, s.handles, s'.handles, InCache(s) - {e});
    assert InCache(s'.(table := table)) == InCache(s');
  }

  /** An entry that leaves the table for its key: its place on the lists, its deletion. */
  lemma {:induction false} LruWithKey(s: State, members: set<Id>, key: Bytes, hash: nat, e: Id)
    requires ListsOk(s) && TableOk(s.table, s.handles, members) && forall id :: id in s.lru ==> id in members
    requires e in InCache(s) && e in members && Matches(s.handles, e, key, hash)
    ensures FinishErase(s, e).lru == WithKey(s.lru, s.handles, key, hash, false)
    ensures FinishErase(s, e).deleted == s.deleted + WithKey(s.lru, s.handles, key, hash, true)
  {
    forall id | id in s.lru && Matches(s.handles, id, key, hash) ensures id == e {
      assert Matches(s.handles, id, s.handles[e].key, s.handles[e].hash);
    }
    OneWithKey(s.lru, s.handles, key, hash, e);
  }

  // ----- the cache

  class LRUCache {
    var s: State

    ghost predicate Valid()
      reads this
    {
      Inv(s)
    }

    constructor (capacity: nat)
      ensures Valid() && s.capacity == capacity && s.handles == map[] && s.deleted == [] && s.nextId == 0
    {
      s := State(capacity, 0, map[], [], [], Table([[], [], [], []], 0), [], 0);
      new;
      assert Pow(2, 1) == 2 && Pow(2, 2) == 4;
    }

    method Lookup(key: Bytes, hash: nat) returns (r: Option<Id>)
      requires Valid()
      modifies this
      ensures Valid() && InCache(s) == InCache(old(s)) && s.usage == old(s).usage && s.deleted == old(s).deleted
      ensures r.Some? <==> exists id :: id in InCache(old(s)) && Matches(old(s).handles, id, key, hash)
      ensures r.Some? ==> r.value in InCache(s) && Matches(s.handles, r.value, key, hash)
      ensures forall id :: ClientRefs(s, id) == ClientRefs(old(s), id) + (if r == Some(id) then 1 else 0)
      ensures s.lru == (if r.Some? then Without(old(s).lru, r.value) else old(s).lru) && s.capacity == old(s).capacity
    {
      r := HandleTables.Lookup(s.table, s.handles, key, hash, InCache(s));
      if r.Some? {
        if r.value !in s.lru {
          WithoutAbsent(s.lru, r.value);
        }
        RefOk(s, r.value);
        TableSame(s.table, s.handles, Ref(s, r.value).handles, InCache(s));
        s := Ref(s, r.value);
      }
    }

    /** A client gives back a handle. The last one out of a cached entry makes it the
        newest that may be evicted; of one no longer cached, it runs the deleter. */
    method Release(e: Id)
      requires Valid() && ClientRefs(s, e) > 0
      modifies this
      ensures Valid() && InCache(s) == InCache(old(s)) && s.usage == old(s).usage
      ensures forall id :: ClientRefs(s, id) == ClientRefs(old(s), id) - (if id == e then 1 else 0)
      ensures s.deleted == old(s).deleted + (if e !in InCache(old(s)) && ClientRefs(old(s), e) == 1 then [e] else [])
      ensures s.lru == old(s).lru + (if e in InCache(old(s)) && ClientRefs(old(s), e) == 1 then [e] else [])
      ensures s.capacity == old(s).capacity
    {
      UnrefOk(s, e);
      TableSame(s.table, s.handles, Unref(s, e).handles, InCache(s));
      s := Unref(s, e);
    }

    /** A new entry replaces the one with its key; then the oldest unused entries go
        until the rest fits. With capacity zero nothing is cached. */
    method Insert(key: Bytes, hash: nat, charge: nat) returns (e: Id)
      requires Valid()
      modifies this
      ensures Valid() && e == old(s).nextId && e in s.handles && s.capacity == old(s).capacity
      ensures s.handles[e] == NewHandle(key, hash, charge, s.capacity)
      ensures s.usage <= s.capacity || s.lru == []
      ensures forall id :: ClientRefs(s, id) == if id == e then 1 else ClientRefs(old(s), id)
      ensures InCache(s) <= InCache(old(s)) + {e} && (s.capacity > 0 ==> e in InCache(s))
      ensures exists n :: Evicted(
        Unused(old(s), key, hash), n, old(s).handles, old(s).deleted + Replaced(old(s), key, hash), s)
    {
      var entered;
      entered, e := MakeEntry(s, NewHandle(key, hash, charge, s.capacity));
      assert e !in entered.lru;
      var next, n := EvictToFit(entered);
      EvictedSame(s, entered, e, n, next);
      s := next;
    }

    /** The eviction loop of Insert. */
    static method EvictToFit(s: State) returns (now: State, ghost n: nat)
      requires Inv(s)
      ensures Inv(now) && now.capacity == s.capacity && (now.usage <= now.capacity || now.lru == [])
      ensures InCache(now) <= InCache(s) && forall id :: ClientRefs(now, id) == ClientRefs(s, id)
      ensures Evicted(s.lru, n, s.handles, s.deleted, now) && Kept(s, now, n)
    {
      now, n := s, 0;
      while now.usage > now.capacity && now.lru != []
        invariant Inv(now) && now.capacity == s.capacity && SameRefs(s, now)
        invariant Evicted(s.lru, n, s.handles, s.deleted, now) && Kept(s, now, n)
        decreases |now.lru|
      {
        var next := EvictOldest(now);
        OneMore(s, now, next, n);
        now := next;
        n := n + 1;
      }
    }

    /** No client notices, and nothing new is in the cache. */
    static ghost predicate SameRefs(s: State, now: State) {
      InCache(now) <= InCache(s) && forall id :: ClientRefs(now, id) == ClientRefs(s, id)
    }

    /** Whatever is not among the first `n` evictable entries is as it was. */
    static ghost predicate Kept(s: State, now: State, n: nat) {
      n <= |s.lru| && forall id :: id in s.handles && id !in s.lru[..n] ==>
        id in now.handles && now.handles[id] == s.handles[id]
    }

    static lemma OneMore(s: State, now: State, next: State, n: nat)
      requires ListsOk(s) && Evicted(s.lru, n, s.handles, s.deleted, now) && Kept(s, now, n) && now.lru != []
      requires now.lru[0] in now.handles && OthersSame(now, next, now.lru[0]) && next.lru == now.lru[1..]
      requires next.deleted == now.deleted + [now.lru[0]] && next.capacity == now.capacity < now.usage
      requires next.usage == now.usage - now.handles[now.lru[0]].charge
      ensures Evicted(s.lru, n + 1, s.handles, s.deleted, next) && Kept(s, next, n + 1)
    {
      var x := s.lru[n];
      assert x == now.lru[0] && x in s.lru && x !in s.lru[..n];
      assert s.lru[..n + 1] == s.lru[..n] + [x];
    }

    static lemma EvictedSame(s: State, entered: State, e: Id, n: nat, next: State)
      requires e !in entered.lru && SameCharges(s, entered, e)
      requires Evicted(entered.lru, n, entered.handles, entered.deleted, next)
      ensures Evicted(entered.lru, n, s.handles, entered.deleted, next)
    {
      if n > 0 {
        var x := entered.lru[n - 1];
        assert x in entered.lru && x != e && x in entered.handles;
        assert x in s.handles && s.handles[x].charge == entered.handles[x].charge;
      }
    }

    /** The handle is made and, unless caching is off, entered everywhere. */
    static method MakeEntry(s: State, h: Handle) returns (next: State, e: Id)
      requires Inv(s) && h == NewHandle(h.key, h.hash, h.charge, s.capacity)
      ensures Inv(next) && next.capacity == s.capacity && e == s.nextId && e in next.handles && next.handles[e] == h
      ensures InCache(next) <= InCache(s) + {e} && (s.capacity > 0 ==> e in InCache(next))
      ensures forall id :: ClientRefs(next, id) == if id == e then 1 else ClientRefs(s, id)
      ensures next.lru == Unused(s, h.key, h.hash) && next.deleted == s.deleted + Replaced(s, h.key, h.hash)
      ensures SameCharges(s, next, e)
    {
      e := s.nextId;
      AddedOk(s, h);
      next := Added(s, h);
      TableSame(s.table, s.handles, next.handles, InCache(s));
      if h.inCache {
        SameWithKey(s.lru, s.handles, next.handles, h.key, h.hash);
        next := Enter(next, e, InCache(s));
      }
    }

    /** table_.Insert, and the end of the entry whose place was taken. */
    static method Enter(s: State, e: Id, ghost others: set<Id>) returns (s': State)
      requires Core(s) && TableOk(s.table, s.handles, others) && InCache(s) == others + {e}
      requires e in s.handles && e !in others && s.handles[e].refs > 1
      ensures Inv(s') && s'.capacity == s.capacity && InCache(s') <= InCache(s)
      ensures e in InCache(s') && s'.handles[e] == s.handles[e] && SameCharges(s, s', e)
      ensures forall id :: ClientRefs(s', id) == ClientRefs(s, id)
      ensures s'.lru == WithKey(s.lru, s.handles, s.handles[e].key, s.handles[e].hash, false)
      ensures s'.deleted == s.deleted + WithKey(s.lru, s.handles, s.handles[e].key, s.handles[e].hash, true)
    {
      assert e !in s.lru;
      var table, old' := HandleTables.Insert(s.table, s.handles, e, others);
      if old'.Some? {
        LruWithKey(s, others, s.handles[e].key, s.handles[e].hash, old'.value);
        TakenOver(s, e, others, old'.value, table);
        s' := FinishErase(s, old'.value).(table := table);
      } else {
        s' := s.(table := table);
        assert InCache(s') == InCache(s);
        NoneWithKey(s.lru, s.handles, s.handles[e].key, s.handles[e].hash);
      }
    }

    static lemma TakenOver(s: State, e: Id, others: set<Id>, victim: Id, table: Table)
      requires Core(s) && InCache(s) == others + {e} && e in s.handles && e !in others && victim in others
      requires TableOk(table, s.handles, others - {victim} + {e})
      ensures var s' := FinishErase(s, victim).(table := table);
              && Inv(s') && InCache(s') == InCache(s) - {victim} && e in s'.handles && s'.handles[e] == s.handles[e]
              && SameCharges(s, s', e)
              && forall id :: ClientRefs(s', id) == ClientRefs(s, id)
    {
      assert others - {victim} + {e} == InCache(s) - {victim};
      EraseOk(s, victim, table);
    }

    /** The oldest entry that no client uses leaves the cache and is deleted. */
    static method EvictOldest(s: State) returns (s': State)
      requires Inv(s) && s.lru != []
      ensures Inv(s') && s'.capacity == s.capacity
      ensures s'.lru == s.lru[1..] && s'.inUse == s.inUse && s'.deleted == s.deleted + [s.lru[0]]
      ensures OthersSame(s, s', s.lru[0]) && s.lru[0] !in s'.handles && s.lru[0] in s.handles
      ensures ClientRefs(s, s.lru[0]) == 0
      ensures InCache(s') == InCache(s) - {s.lru[0]} && s'.usage == s.usage - s.handles[s.lru[0]].charge
      ensures forall id :: ClientRefs(s', id) == ClientRefs(s, id)
    {
      var oldest := s.lru[0];
      assert oldest in s.lru;
      var h := s.handles[oldest];
      var table, erased := HandleTables.Remove(s.table, s.handles, h.key, h.hash, InCache(s));
      assert Matches(s.handles, oldest, h.key, h.hash);
      EraseOk(s, oldest, table);
      WithoutFirst(s.lru);
      WithoutAbsent(s.inUse, oldest);
      s' := FinishErase(s, oldest).(table := table);
    }

    method Erase(key: Bytes, hash: nat)
      requires Valid()
      modifies this
      ensures Valid()
      ensures forall id :: id in InCache(s) <==> id in InCache(old(s)) && !Matches(old(s).handles, id, key, hash)
      ensures forall id :: ClientRefs(s, id) == ClientRefs(old(s), id)
      ensures s.lru == WithKey(old(s).lru, old(s).handles, key, hash, false) && s.capacity == old(s).capacity
      ensures s.deleted == old(s).deleted + WithKey(old(s).lru, old(s).handles, key, hash, true)
    {
      s := EraseEntry(s, key, hash);
    }

    static method EraseEntry(s: State, key: Bytes, hash: nat) returns (s': State)
      requires Inv(s)
      ensures Inv(s') && forall id :: id in InCache(s') <==> id in InCache(s) && !Matches(s.handles, id, key, hash)
      ensures forall id :: ClientRefs(s', id) == ClientRefs(s, id)
      ensures s'.lru == WithKey(s.lru, s.handles, key, hash, false) && s'.capacity == s.capacity
      ensures s'.deleted == s.deleted + WithKey(s.lru, s.handles, key, hash, true)
    {
      s' := s;
      ghost var members := InCache(s);
      var table, r := HandleTables.Remove(s.table, s.handles, key, hash, members);
      if r.None? {
        NoneWithKey(s.lru, s.handles, key, hash);
      } else {
        LruWithKey(s, members, key, hash, r.value);
        EraseOk(s, r.value, table);
        s' := FinishErase(s, r.value).(table := table);
        forall id | id in members && Matches(s.handles, id, key, hash) ensures id == r.value {
          assert Matches(s.handles, id, s.handles[r.value].key, s.handles[r.value].hash);
        }
      }
    }

    /** Everything that no client uses is dropped. */
    method Prune()
      requires Valid()
      modifies this
      ensures Valid() && s.lru == [] && s.deleted == old(s).deleted + old(s).lru && s.inUse == old(s).inUse
      ensures s.capacity == old(s).capacity
      ensures forall id :: ClientRefs(s, id) == ClientRefs(old(s), id)
    {
      var now := s;
      while now.lru != []
        invariant Inv(now) && s == old(s) && now.capacity == s.capacity && now.deleted + now.lru == s.deleted + s.lru
        invariant now.inUse == s.inUse
        invariant forall id :: ClientRefs(now, id) == ClientRefs(s, id)
        decreases |now.lru|
      {
        now := EvictOldest(now);
      }
      assert now.deleted + [] == now.deleted;
      s := now;
    }
  }

  function NewHandle(key: Bytes, hash: nat, charge: nat, capacity: nat): Handle {
    Handle(key, hash, charge, capacity > 0, if capacity > 0 then 2 else 1)
  }

  function Added(s: State, h: Handle): State {
    s.(handles := s.handles[s.nextId := h], nextId := s.nextId + 1,
       inUse := if h.inCache then s.inUse + [s.nextId] else s.inUse,
       usage := if h.inCache then s.usage + h.charge else s.usage)
  }

  lemma AddedOk(s: State, h: Handle)
    requires Core(s) && h.refs == (if h.inCache then 2 else 1)
    ensures Core(Added(s, h)) && OthersSame(s, Added(s, h), s.nextId) && s.nextId !in s.handles
    ensures InCache(Added(s, h)) == if h.inCache then InCache(s) + {s.nextId} else InCache(s)
  {
    var s' := Added(s, h);
    SameCharge(s.handles, s'.handles, s.lru);
    SameCharge(s.handles, s'.handles, s.inUse);
    if h.inCache {
      AppendCharge(s'.handles, s.inUse, s.nextId);
    }
  }

  lemma {:induction false} WithoutAbsent(l: seq<Id>, e: Id)
    requires e !in l
    ensures Without(l, e) == l
  {
    if l != [] {
      WithoutAbsent(l[1..], e);
    }
  }

  lemma {:induction false} WithoutFirst(l: seq<Id>)
    requires l != [] && Distinct(l)
    ensures Without(l, l[0]) == l[1..]
  {
    assert l[0] !in l[1..];
    WithoutAbsent(l[1..], l[0]);
  }
}
