/** The cache's own hash table: chains of handles, resized as it grows. */
module HandleTables {
  import opened Options
  import opened Coding

  /** Handles are named by numbers that are never used again. */
  type Id = int

  datatype Handle = Handle(key: Bytes, hash: nat, charge: nat, inCache: bool, refs: nat)

  /** `list` has a chain for every bucket. */
  datatype Table = Table(list: seq<seq<Id>>, elems: nat)

  predicate Matches(handles: map<Id, Handle>, id: Id, key: Bytes, hash: nat) {
    id in handles && handles[id].hash == hash && handles[id].key == key
  }

  ghost predicate IsPowerOfTwo(n: nat) {
    exists k: nat :: n == Pow(2, k)
  }

  ghost predicate Distinct(l: seq<Id>) {
    forall i, j :: 0 <= i < j < |l| ==> l[i] != l[j]
  }

  /** Bucket of a hash: the low bits, as the length is a power of two. */
  function Slot(hash: nat, length: nat): (r: nat)
    requires length > 0
    ensures r < length
  {
    hash % length
  }

  /** Every chain holds each of its members once, in the bucket of its hash. */
  ghost predicate ChainsOk(list: seq<seq<Id>>, handles: map<Id, Handle>, members: set<Id>) {
    && |list| > 0 && members <= handles.Keys
    && (forall b :: 0 <= b < |list| ==> Distinct(list[b]))
    && (forall b, id :: 0 <= b < |list| && id in list[b] ==> id in members && Slot(handles[id].hash, |list|) == b)
    && (forall id :: id in members ==> id in list[Slot(handles[id].hash, |list|)])
  }

  ghost predicate UniqueKeys(handles: map<Id, Handle>, members: set<Id>) {
    forall x, y ::
      x in members && y in members && x in handles && Matches(handles, y, handles[x].key, handles[x].hash) ==>
      x == y
  }

  ghost predicate TableOk(t: Table, handles: map<Id, Handle>, members: set<Id>) {
    ChainsOk(t.list, handles, members) && UniqueKeys(handles, members) && t.elems == |members| && IsPowerOfTwo(|t.list|)
  }

  /** FindPointer within one chain: the index of the match, or the end. */
  method FindPointer(chain: seq<Id>, handles: map<Id, Handle>, key: Bytes, hash: nat) returns (i: nat)
    ensures i <= |chain| && (i < |chain| ==> Matches(handles, chain[i], key, hash))
    ensures forall k :: 0 <= k < i ==> !Matches(handles, chain[k], key, hash)
  {
    i := 0;
    while i < |chain| && !Matches(handles, chain[i], key, hash)
      invariant 0 <= i <= |chain| && forall k :: 0 <= k < i ==> !Matches(handles, chain[k], key, hash)
    {
      i := i + 1;
    }
  }

  method Lookup(t: Table, handles: map<Id, Handle>, key: Bytes, hash: nat, ghost members: set<Id>)
    returns (r: Option<Id>)
    requires TableOk(t, handles, members)
    ensures r.Some? ==> r.value in members && Matches(handles, r.value, key, hash)
    ensures r.None? ==> forall id :: id in members ==> !Matches(handles, id, key, hash)
  {
    var chain := t.list[Slot(hash, |t.list|)];
    var i := FindPointer(chain, handles, key, hash);
    if i < |chain| {
      r := Some(chain[i]);
    } else {
      r := None;
      NoneMatches(t, handles, members, key, hash, chain);
    }
  }

  /** A new handle takes the place of the one with its key, which is returned. */
  method Insert(t: Table, handles: map<Id, Handle>, h: Id, ghost members: set<Id>) returns (t': Table, old': Option<Id>)
    requires TableOk(t, handles, members) && h in handles && h !in members
    ensures old'.Some? ==> old'.value in members && Matches(handles, old'.value, handles[h].key, handles[h].hash)
    ensures old'.None? ==> forall id :: id in members ==> !Matches(handles, id, handles[h].key, handles[h].hash)
    ensures TableOk(t', handles, (if old'.Some? then members - {old'.value} else members) + {h})
  {
    var b := Slot(handles[h].hash, |t.list|);
    var chain := t.list[b];
    var i := FindPointer(chain, handles, handles[h].key, handles[h].hash);
    if i < |chain| {
      old' := Some(chain[i]);
      t' := t.(list := t.list[b := chain[i := h]]);
      ReplacedOk(t.list, handles, members, h, b, i, t'.list);
      assert |members - {chain[i]} + {h}| == |members|;
    } else {
      old' := None;
      NoneMatches(t, handles, members, handles[h].key, handles[h].hash, chain);
      t' := Table(t.list[b := chain + [h]], t.elems + 1);
      AppendedOk(t.list, handles, members, h, b, t'.list);
      assert |members + {h}| == |members| + 1;
      if t'.elems > |t'.list| {
        t' := Resize(t', handles, members + {h});
      }
    }
  }

  lemma NoneMatches(
    t: Table, handles: map<Id, Handle>, members: set<Id>, key: Bytes, hash: nat, chain: seq<Id>)
    requires TableOk(t, handles, members) && chain == t.list[Slot(hash, |t.list|)]
    requires forall k :: 0 <= k < |chain| ==> !Matches(handles, chain[k], key, hash)
    ensures forall id :: id in members ==> !Matches(handles, id, key, hash)
  {
    forall id | id in members ensures !Matches(handles, id, key, hash) {
      assert id in t.list[Slot(handles[id].hash, |t.list|)];
    }
  }

  lemma ReplacedOk(
    list: seq<seq<Id>>, handles: map<Id, Handle>, members: set<Id>, h: Id, b: nat, i: nat, list': seq<seq<Id>>)
    requires ChainsOk(list, handles, members) && h in handles && h !in members
    requires b < |list| && b == Slot(handles[h].hash, |list|) && i < |list[b]| && list' == list[b := list[b][i := h]]
    ensures ChainsOk(list', handles, members - {list[b][i]} + {h})
  {
    var chain, chain' := list[b], list'[b];
    var old' := chain[i];
    forall id | id in chain' ensures id == h || (id in chain && id != old') {
      var k :| 0 <= k < |chain'| && chain'[k] == id;
      assert k != i ==> chain[k] == id;
    }
    forall id | id in chain && id != old' ensures id in chain' {
      var k :| 0 <= k < |chain| && chain[k] == id;
      assert chain'[k] == id;
    }
    assert chain'[i] == h && old' in list[b];
    assert Distinct(chain');
    assert Slot(handles[old'].hash, |list|) == b;
    var members' := members - {old'} + {h};
    forall c, id | 0 <= c < |list'| && id in list'[c] ensures id in members' && Slot(handles[id].hash, |list'|) == c {
      assert if c == b then id == h || id in list[b] else id in list[c];
    }
  }

  lemma AppendedOk(
    list: seq<seq<Id>>, handles: map<Id, Handle>, members: set<Id>, h: Id, b: nat, list': seq<seq<Id>>)
    requires ChainsOk(list, handles, members) && h in handles && h !in members
    requires b < |list| && b == Slot(handles[h].hash, |list|) && list' == list[b := list[b] + [h]]
    ensures ChainsOk(list', handles, members + {h})
  {
    assert forall id :: id in list'[b] <==> id in list[b] || id == h;
  }

  /** Removes and returns the handle with the key. */
  method Remove(t: Table, handles: map<Id, Handle>, key: Bytes, hash: nat, ghost members: set<Id>)
    returns (t': Table, r: Option<Id>)
    requires TableOk(t, handles, members)
    ensures r.Some? ==> r.value in members && Matches(handles, r.value, key, hash)
    ensures r.None? ==> forall id :: id in members ==> !Matches(handles, id, key, hash)
    ensures TableOk(t', handles, if r.Some? then members - {r.value} else members)
  {
    var b := Slot(hash, |t.list|);
    var chain := t.list[b];
    var i := FindPointer(chain, handles, key, hash);
    if i < |chain| {
      r := Some(chain[i]);
      var e := chain[i];
      assert e in t.list[b];
      t' := Table(t.list[b := chain[..i] + chain[i + 1..]], t.elems - 1);
      RemovedOk(t.list, handles, members, b, i, t'.list);
      assert |members - {e}| == |members| - 1;
    } else {
      NoneMatches(t, handles, members, key, hash, chain);
      r := None;
      t' := t;
    }
  }

  lemma RemovedOk(
    list: seq<seq<Id>>, handles: map<Id, Handle>, members: set<Id>, b: nat, i: nat, list': seq<seq<Id>>)
    requires ChainsOk(list, handles, members) && b < |list| && i < |list[b]|
    requires list' == list[b := list[b][..i] + list[b][i + 1..]]
    ensures ChainsOk(list', handles, members - {list[b][i]})
  {
    var chain, chain' := list[b], list'[b];
    forall id ensures id in chain' <==> id in chain && id != chain[i] {
      if id in chain' {
        var k :| 0 <= k < |chain'| && chain'[k] == id;
        assert chain[if k < i then k else k + 1] == id;
      }
      if id in chain && id != chain[i] {
        var k :| 0 <= k < |chain| && chain[k] == id;
        assert chain'[if k < i then k else k - 1] == id;
      }
    }
    assert chain[i] in list[b];
    forall x, y | 0 <= x < y < |chain'| ensures chain'[x] != chain'[y] {
      assert chain'[x] == chain[if x < i then x else x + 1] && chain'[y] == chain[if y < i then y else y + 1];
    }
    assert Slot(handles[chain[i]].hash, |list|) == b;
    var members' := members - {chain[i]};
    forall c, id | 0 <= c < |list'| && id in list'[c] ensures id in members' && Slot(handles[id].hash, |list'|) == c {
      assert id in list[c];
    }
  }

  // ----- resizing

  method Resize(t: Table, handles: map<Id, Handle>, ghost members: set<Id>) returns (t': Table)
    requires TableOk(t, handles, members)
    ensures TableOk(t', handles, members) && t'.elems == t.elems
    ensures |t'.list| >= t.elems && |t'.list| >= 4 && (|t'.list| == 4 || |t'.list| < 2 * t.elems)
  {
    var newLength := 4;
    assert Pow(2, 1) == 2 && Pow(2, 2) == 4;
    while newLength < t.elems
      invariant newLength >= 4 && IsPowerOfTwo(newLength) && (newLength == 4 || newLength < 2 * t.elems)
      decreases t.elems - newLength
    {
      ghost var k: nat :| newLength == Pow(2, k);
      assert Pow(2, k + 1) == 2 * newLength;
      newLength := newLength * 2;
    }
    var newList: seq<seq<Id>> := seq(newLength, _ => []);
    ghost var moved: set<Id> := {};
    var i := 0;
    while i < |t.list|
      invariant 0 <= i <= |t.list| && |newList| == newLength
      invariant ChainsOk(newList, handles, moved)
      invariant forall id :: id in moved <==> id in members && Slot(handles[id].hash, |t.list|) < i
    {
      newList, moved := MoveChain(t.list[i], newList, handles, moved, members, t.list, i);
      i := i + 1;
    }
    forall id ensures id in moved <==> id in members {
      assert id in members ==> Slot(handles[id].hash, |t.list|) < |t.list|;
    }
    assert moved == members;
    t' := Table(newList, t.elems);
  }

  /** Moves the handles of one chain, each to the front of its new one. */
  method MoveChain(
    chain: seq<Id>, list: seq<seq<Id>>, handles: map<Id, Handle>, ghost done: set<Id>, ghost members: set<Id>,
                   ghost from: seq<seq<Id>>, ghost i: nat)
    returns (list': seq<seq<Id>>, ghost moved: set<Id>)
    requires ChainsOk(from, handles, members) && i < |from| && chain == from[i]
    requires ChainsOk(list, handles, done)
    requires forall id :: id in done <==> id in members && Slot(handles[id].hash, |from|) < i
    ensures |list'| == |list| && ChainsOk(list', handles, moved)
    ensures forall id :: id in moved <==> id in members && Slot(handles[id].hash, |from|) < i + 1
  {
    list', moved := list, done;
    var j := 0;
    while j < |chain|
      invariant 0 <= j <= |chain| && |list'| == |list| && ChainsOk(list', handles, moved)
      invariant forall id :: id in moved <==> id in done || id in chain[..j]
    {
      var h := chain[j];
      assert h in from[i];
      assert h !in chain[..j];
      var b := Slot(handles[h].hash, |list'|);
      PrependedOk(list', handles, moved, h, b, list'[b := [h] + list'[b]]);
      list' := list'[b := [h] + list'[b]];
      moved := moved + {h};
      assert chain[..j + 1] == chain[..j] + [h];
      j := j + 1;
    }
    assert chain[..|chain|] == chain;
    forall id ensures id in moved <==> id in members && Slot(handles[id].hash, |from|) < i + 1 {
      if id in members && Slot(handles[id].hash, |from|) == i {
        assert id in from[i];
      }
    }
  }

  lemma PrependedOk(
    list: seq<seq<Id>>, handles: map<Id, Handle>, members: set<Id>, h: Id, b: nat, list': seq<seq<Id>>)
    requires ChainsOk(list, handles, members) && h in handles && h !in members
    requires b < |list| && b == Slot(handles[h].hash, |list|) && list' == list[b := [h] + list[b]]
    ensures ChainsOk(list', handles, members + {h})
  {
    assert forall id :: id in list'[b] <==> id in list[b] || id == h;
  }
}
