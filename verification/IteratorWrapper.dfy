/** IteratorWrapper (table/iterator_wrapper.h): an iterator with its validity and its key
    kept at hand. What is wrapped is a cursor over one memtable or table, or the two-level
    iterator of a sorted level. */
module IteratorWrappers {
  import opened Keys
  import opened Version
  import opened Cursor
  import opened TwoLevel

  datatype Wrapped = Single(cursor: SeqCursor) | Level(tables: TwoLevelIterator)

  /** What the wrapped iterator is over. */
  ghost function Content(iter: Wrapped): seq<Entry>
    reads match iter case Single(c) => {c} case Level(_) => {}
  {
    match iter
    case Single(c) => c.es
    case Level(t) => Flat(t.content.blocks)
  }

  class IteratorWrapper {
    const iter: Wrapped
    ghost const es: seq<Entry>
    ghost var pos: nat
    var valid: bool
    var key: InternalKey

    ghost function Inner(): object {
      match iter
      case Single(c) => c
      case Level(t) => t
    }

    /** The wrapped iterator stands at `pos`. */
    ghost predicate Stands()
      reads this, Inner()
    {
      match iter
      case Single(c) => c.es == es && c.pos == pos
      case Level(t) => t.Inv() && Flat(t.content.blocks) == es && t.pos == pos
    }

    ghost predicate Ok()
      reads this, Inner()
    {
      Stands() && pos <= |es| && (valid <==> pos < |es|) && (valid ==> key == es[pos].key)
    }

    constructor (iter: Wrapped)
      requires iter.Single? ==> iter.cursor.pos <= |iter.cursor.es|
      requires iter.Level? ==> iter.tables.Inv()
      ensures Ok() && this.iter == iter && es == Content(iter)
    {
      this.iter := iter;
      es := Content(iter);
      pos := match iter case Single(c) => c.pos case Level(t) => t.pos;
      valid := false;
      key := InternalKey(0, 0, KIND_VALUE);
      new;
      Update();
    }

    /** Keeps validity and key of the wrapped iterator. */
    method Update()
      requires Stands() && pos <= |es|
      modifies this`valid, this`key
      ensures Ok()
    {
      match iter
      case Single(c) =>
        valid := c.Valid();
        if valid {
          key := c.es[c.pos].key;
        }
      case Level(t) =>
        valid := t.Valid();
        if valid {
          key := t.Get().key;
        }
    }

    predicate Valid()
      reads this
    {
      valid
    }

    function Value(): (v: string)
      requires Ok() && Valid()
      reads this, Inner()
      ensures v == es[pos].value
    {
      match iter
      case Single(c) => c.es[c.pos].value
      case Level(t) => t.Get().value
    }

    method SeekToFirst()
      requires Ok()
      modifies this`pos, this`valid, this`key, Inner()
      ensures Ok() && pos == 0
    {
      match iter {
        case Single(c) => c.SeekToFirst();
        case Level(t) => t.SeekToFirst();
      }
      pos := 0;
      Update();
    }

    method SeekToLast()
      requires Ok()
      modifies this`pos, this`valid, this`key, Inner()
      ensures Ok() && pos == if es == [] then 0 else |es| - 1
    {
      match iter {
        case Single(c) => c.SeekToLast();
        case Level(t) => t.SeekToLast();
      }
      pos := if es == [] then 0 else |es| - 1;
      Update();
    }

    method Seek(target: InternalKey)
      requires Ok()
      modifies this`pos, this`valid, this`key, Inner()
      ensures Ok() && pos == SeekIndex(es, target)
    {
      match iter {
        case Single(c) => c.Seek(target);
        case Level(t) => t.Seek(target);
      }
      pos := SeekIndex(es, target);
      Update();
    }

    method Next()
      requires Ok() && Valid()
      modifies this`pos, this`valid, this`key, Inner()
      ensures Ok() && pos == old(pos) + 1
    {
      match iter {
        case Single(c) => c.Next();
        case Level(t) => t.Next();
      }
      pos := pos + 1;
      Update();
    }

    /** Stepping before the first entry leaves the iterator unpositioned. */
    method Prev()
      requires Ok() && Valid()
      modifies this`pos, this`valid, this`key, Inner()
      ensures Ok() && pos == if old(pos) == 0 then |es| else old(pos) - 1
    {
      match iter {
        case Single(c) => c.Prev();
        case Level(t) => t.Prev();
      }
      pos := if pos == 0 then |es| else pos - 1;
      Update();
    }
  }
}
