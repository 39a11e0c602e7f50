/** The bitmap in which the nanopb decoder notes the required fields it has seen. */
module PbRequired {
  import opened Coding
  import opened PbMessages
  import opened PbCommon
  import Filters

  /** fields_seen[2]: bit `r` is set for the indices in `bits`. */
  ghost predicate Holds(words: seq<nat>, bits: set<nat>) {
    && |words| == 2 && words[0] < WORD32 && words[1] < WORD32
    && forall r :: 0 <= r < MAX_REQUIRED_FIELDS ==> (Filters.TestBit(words[r / 32], r % 32) <==> r in bits)
  }

  lemma WordBound()
    ensures Pow(2, 32) == WORD32
  {
    assert Pow(2, 2) == 4 && Pow(2, 4) == 16 && Pow(2, 6) == 64 && Pow(2, 8) == 0x100;
    assert Pow(2, 10) == 0x400 && Pow(2, 12) == 0x1000 && Pow(2, 14) == 0x4000 && Pow(2, 16) == 0x1_0000;
    assert Pow(2, 18) == 0x4_0000 && Pow(2, 20) == 0x10_0000 && Pow(2, 22) == 0x40_0000 && Pow(2, 24) == 0x100_0000;
    assert Pow(2, 26) == 0x400_0000 && Pow(2, 28) == 0x1000_0000 && Pow(2, 30) == 0x4000_0000;
  }

  ghost predicate LowBits(x: nat, n: nat) {
    forall b :: 0 <= b < n ==> Filters.TestBit(x, b)
  }

  ghost predicate NoneBetween(x: nat, n: nat, m: nat) {
    forall b :: n <= b < m ==> !Filters.TestBit(x, b)
  }

  ghost predicate Among(bits: set<nat>, lo: nat, hi: nat) {
    forall r :: lo <= r < hi ==> r in bits
  }

  lemma LowBitsHalf(x: nat, n: nat)
    requires n > 0
    ensures LowBits(x, n) <==> x % 2 == 1 && LowBits(x / 2, n - 1)
  {
    if LowBits(x, n) {
      forall b | 0 <= b < n - 1 ensures Filters.TestBit(x / 2, b) {
        assert Filters.TestBit(x, b + 1);
      }
      assert Filters.TestBit(x, 0);
    }
    if x % 2 == 1 && LowBits(x / 2, n - 1) {
      forall b | 0 <= b < n ensures Filters.TestBit(x, b) {
        assert b == 0 || Filters.TestBit(x / 2, b - 1);
      }
    }
  }

  /** Comparing a word with n ones says whether its low n bits are set and no others. */
  lemma {:induction false} Ones(x: nat, n: nat, m: nat)
    requires n <= m && x < Pow(2, m) && NoneBetween(x, n, m)
    ensures x == Pow(2, n) - 1 <==> LowBits(x, n)
  {
    if n == 0 {
      Zero(x, m);
    } else {
      forall b | n - 1 <= b < m - 1 ensures !Filters.TestBit(x / 2, b) {
        assert !Filters.TestBit(x, b + 1);
      }
      Ones(x / 2, n - 1, m - 1);
      LowBitsHalf(x, n);
    }
  }

  lemma {:induction false} Zero(x: nat, m: nat)
    requires x < Pow(2, m) && NoneBetween(x, 0, m)
    ensures x == 0
  {
    if m > 0 {
      assert !Filters.TestBit(x, 0);
      forall b | 0 <= b < m - 1 ensures !Filters.TestBit(x / 2, b) {
        assert !Filters.TestBit(x, b + 1);
      }
      Zero(x / 2, m - 1);
    }
  }

  method MarkSeen(fieldsSeen: array<nat>, index: nat, ghost bits: set<nat>)
    requires index < MAX_REQUIRED_FIELDS && Holds(fieldsSeen[..], bits)
    modifies fieldsSeen
    ensures Holds(fieldsSeen[..], bits + {index})
  {
    ghost var before := fieldsSeen[..];
    var word, bit := index / 32, index % 32;
    WordBound();
    Filters.SetBitFits(fieldsSeen[word], bit, 32);
    fieldsSeen[word] := Filters.SetBit(fieldsSeen[word], bit);
    forall r | 0 <= r < MAX_REQUIRED_FIELDS
      ensures Filters.TestBit(fieldsSeen[..][r / 32], r % 32) <==> r in bits + {index}
    {
      Filters.BitIsSet(before[word], bit, r % 32);
    }
  }

  /** Whole words first, then the remaining bits. */
  method AllSeen(fieldsSeen: array<nat>, count: nat, ghost bits: set<nat>) returns (ok: bool)
    requires count <= MAX_REQUIRED_FIELDS && Holds(fieldsSeen[..], bits) && forall r :: r in bits ==> r < count
    ensures ok <==> forall r :: 0 <= r < count ==> r in bits
  {
    ghost var words := fieldsSeen[..];
    var i := 0;
    while i < count / 32
      invariant i <= count / 32 && words == fieldsSeen[..]
      invariant forall r :: 0 <= r < 32 * i ==> r in bits
    {
      WholeWord(words, bits, i);
      if fieldsSeen[i] != 0xffff_ffff {
        return false;
      }
      i := i + 1;
    }
    if count % 32 != 0 {
      LastWord(words, bits, count);
      if fieldsSeen[count / 32] != Pow(2, count % 32) - 1 {
        return false;
      }
    }
    return true;
  }

  lemma WholeWord(words: seq<nat>, bits: set<nat>, i: nat)
    requires Holds(words, bits) && i < 2
    ensures words[i] == 0xffff_ffff <==> Among(bits, 32 * i, 32 * i + 32)
  {
    WordBound();
    Ones(words[i], 32, 32);
    SameBits(words, bits, i, 32);
  }

  lemma {:induction false} LastWord(words: seq<nat>, bits: set<nat>, count: nat)
    requires Holds(words, bits) && count < MAX_REQUIRED_FIELDS && forall r :: r in bits ==> r < count
    ensures words[count / 32] == Pow(2, count % 32) - 1 <==> Among(bits, count / 32 * 32, count)
  {
    var i := count / 32;
    forall b | count % 32 <= b < 32 ensures !Filters.TestBit(words[i], b) {
      var r := 32 * i + b;
      assert r / 32 == i && r % 32 == b;
    }
    WordBound();
    Ones(words[i], count % 32, 32);
    SameBits(words, bits, i, count % 32);
  }

  lemma {:induction false} SameBit(words: seq<nat>, bits: set<nat>, i: nat, b: nat)
    requires Holds(words, bits) && i < 2 && b < 32
    ensures Filters.TestBit(words[i], b) <==> 32 * i + b in bits
  {
    var r := 32 * i + b;
    assert r / 32 == i && r % 32 == b;
  }

  lemma SameBits(words: seq<nat>, bits: set<nat>, i: nat, n: nat)
    requires Holds(words, bits) && i < 2 && n <= 32
    ensures LowBits(words[i], n) <==> Among(bits, 32 * i, 32 * i + n)
  {
    if LowBits(words[i], n) {
      forall r | 32 * i <= r < 32 * i + n ensures r in bits {
        SameBit(words, bits, i, r - 32 * i);
        assert Filters.TestBit(words[i], r - 32 * i);
      }
    }
    if Among(bits, 32 * i, 32 * i + n) {
      forall b | 0 <= b < n ensures Filters.TestBit(words[i], b) {
        SameBit(words, bits, i, b);
        assert 32 * i + b in bits;
      }
    }
  }

  // ----- required fields and their indices

  /** The indices of the required fields among those seen. */
  ghost function IndicesOf(fields: seq<Field>, seen: set<nat>): set<nat> {
    set i | i in seen && i < |fields| && fields[i].htype.Required? && RequiredBefore(fields, i) < MAX_REQUIRED_FIELDS
      :: RequiredBefore(fields, i)
  }

  lemma {:induction false} BeforeGrows(fields: seq<Field>, i: nat, j: nat)
    requires i < j <= |fields| && fields[i].htype.Required?
    ensures RequiredBefore(fields, i) < RequiredBefore(fields, j)
  {
    if i < j - 1 {
      BeforeGrows(fields, i, j - 1);
    }
  }

  lemma FieldWithIndex(fields: seq<Field>, n: nat, r: nat) returns (i: nat)
    requires n <= |fields| && r < RequiredBefore(fields, n)
    ensures i < n && fields[i].htype.Required? && RequiredBefore(fields, i) == r
  {
    if r < RequiredBefore(fields, n - 1) {
      i := FieldWithIndex(fields, n - 1, r);
    } else {
      i := n - 1;
    }
  }

  function Counted(fields: seq<Field>): nat {
    var n := RequiredBefore(fields, |fields|);
    if n < MAX_REQUIRED_FIELDS then n else MAX_REQUIRED_FIELDS
  }

  /** Bit by bit and field by field it is the same question. */
  lemma MissingByIndex(fields: seq<Field>, seen: set<nat>)
    ensures NoneMissing(fields, seen) <==> forall r :: 0 <= r < Counted(fields) ==> r in IndicesOf(fields, seen)
    ensures forall r :: r in IndicesOf(fields, seen) ==> r < Counted(fields)
  {
    forall i | 0 <= i < |fields| && fields[i].htype.Required?
      ensures RequiredBefore(fields, i) < RequiredBefore(fields, |fields|)
    {
      BeforeGrows(fields, i, |fields|);
    }
    if NoneMissing(fields, seen) {
      forall r | 0 <= r < Counted(fields) ensures r in IndicesOf(fields, seen) {
        var i := FieldWithIndex(fields, |fields|, r);
        assert i in seen;
      }
    }
    if forall r :: 0 <= r < Counted(fields) ==> r in IndicesOf(fields, seen) {
      forall i | 0 <= i < |fields| && fields[i].htype.Required? && RequiredBefore(fields, i) < MAX_REQUIRED_FIELDS
        ensures i in seen
      {
        assert RequiredBefore(fields, i) in IndicesOf(fields, seen);
        var j :| j in seen && j < |fields| && fields[j].htype.Required?
          && RequiredBefore(fields, j) == RequiredBefore(fields, i);
        SameIndex(fields, i, j);
      }
    }
  }

  lemma {:induction false} SameIndex(fields: seq<Field>, i: nat, j: nat)
    requires i < |fields| && j < |fields| && fields[i].htype.Required? && fields[j].htype.Required?
    requires RequiredBefore(fields, i) == RequiredBefore(fields, j)
    ensures i == j
  {
    if i < j {
      BeforeGrows(fields, i, j);
    } else if j < i {
      BeforeGrows(fields, j, i);
    }
  }

  lemma {:induction false} IndexSeen(fields: seq<Field>, seen: set<nat>, i: nat)
    requires i < |fields|
    ensures IndicesOf(fields, seen + {i})
         == if fields[i].htype.Required? && RequiredBefore(fields, i) < MAX_REQUIRED_FIELDS
            then IndicesOf(fields, seen) + {RequiredBefore(fields, i)} else IndicesOf(fields, seen)
  {
  }

  /** The number of required fields is found by going to the end of the descriptor. */
  method CountRequired(iter: FieldIter) returns (count: nat)
    requires iter.Valid()
    modifies iter
    ensures iter.Valid() && count == Counted(iter.fields)
  {
    count := 0;
    if iter.fields == [] {
      return;
    }
    var more, last := true, Optional;
    while more
      invariant iter.Valid()
      invariant !more ==>
        count == RequiredBefore(iter.fields, |iter.fields| - 1) && last == iter.fields[|iter.fields| - 1].htype
      decreases if more then |iter.fields| - iter.pos else -1
    {
      count := iter.requiredFieldIndex;
      last := iter.fields[iter.pos].htype;
      more := iter.Next();
    }
    if last.Required? {
      count := count + 1;
    }
    if count > MAX_REQUIRED_FIELDS {
      count := MAX_REQUIRED_FIELDS;
    }
  }
}
