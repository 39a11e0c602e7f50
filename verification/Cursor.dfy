/** A positioned cursor over a sorted sequence of entries: the contract every
    internal iterator of the tower refines. */
module Cursor {
  import opened Keys
  import opened Version

  /** The first index whose key is not before `target`. */
  function SeekIndex(es: seq<Entry>, target: InternalKey): (i: nat)
    ensures i <= |es|
    ensures forall j :: 0 <= j < i ==> Less(es[j].key, target)
    ensures i < |es| ==> !Less(es[i].key, target)
  {
    if es == [] || !Less(es[0].key, target) then 0
    else 1 + SeekIndex(es[1..], target)
  }

  /** A cursor as a value: another iterator's own part. */
  datatype Walk = Walk(es: seq<Entry>, pos: nat) {
    predicate Valid() {
      pos < |es|
    }

    function First(): Walk {
      this.(pos := 0)
    }

    function Last(): Walk {
      this.(pos := if es == [] then 0 else |es| - 1)
    }

    function Sought(target: InternalKey): Walk {
      this.(pos := SeekIndex(es, target))
    }

    function Next(): Walk {
      this.(pos := pos + 1)
    }

    function Prev(): Walk {
      this.(pos := if pos == 0 then |es| else pos - 1)
    }
  }

  /** Not positioned when `pos` is past the end. */
  class SeqCursor {
    const es: seq<Entry>
    var pos: nat

    constructor (es: seq<Entry>)
      ensures this.es == es && pos == |es|
    {
      this.es := es;
      pos := |es|;
    }

    predicate Valid()
      reads this
    {
      pos < |es|
    }

    method SeekToFirst()
      modifies this`pos
      ensures pos == 0
    {
      pos := 0;
    }

    method SeekToLast()
      modifies this`pos
      ensures pos == if es == [] then 0 else |es| - 1
    {
      pos := if es == [] then 0 else |es| - 1;
    }

    method Seek(target: InternalKey)
      modifies this`pos
      ensures pos == SeekIndex(es, target)
    {
      pos := SeekIndex(es, target);
    }

    method Next()
      requires Valid()
      modifies this`pos
      ensures pos == old(pos) + 1
    {
      pos := pos + 1;
    }

    /** Stepping before the first entry leaves the cursor unpositioned. */
    method Prev()
      requires Valid()
      modifies this`pos
      ensures pos == if old(pos) == 0 then |es| else old(pos) - 1
    {
      pos := if pos == 0 then |es| else pos - 1;
    }
  }
}
