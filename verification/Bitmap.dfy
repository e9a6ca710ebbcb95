/** The bitmap of lib/kernel/bitmap.c: bits packed into 32-bit words, seen from outside
    as a sequence of booleans. */
module Bitmap {
  import opened Basics
  import opened BitTricks

  // ----- words -----

  const ELEM_BITS: nat := 32

  /** An element of the array. */
  type Word = w: int | 0 <= w < 0x1_0000_0000

  /** `(elem_type) 1 << (bit_idx % ELEM_BITS)`. */
  function BitMask(idx: nat): Word {
    WordRange();
    PowGrows(idx % ELEM_BITS, ELEM_BITS);
    Pow2(idx % ELEM_BITS)
  }

  lemma WordRange()
    ensures Pow2(ELEM_BITS) == 0x1_0000_0000
  {
    PowValues();
  }

  function ElemIdx(idx: nat): nat { idx / ELEM_BITS }

  function ElemCnt(bits: nat): nat { (bits + ELEM_BITS - 1) / ELEM_BITS }

  /** `bits[idx] | mask`. */
  function Marked(w: Word, idx: nat): Word {
    WordRange();
    OrBound(w, BitMask(idx), ELEM_BITS);
    Or(w, BitMask(idx))
  }

  /** `bits[idx] & ~mask`. */
  function Cleared(w: Word, idx: nat): Word {
    WordRange();
    AndBound(w, Not(BitMask(idx), ELEM_BITS));
    And(w, Not(BitMask(idx), ELEM_BITS))
  }

  /** Setting, clearing and testing one bit of a word. */
  lemma WordBits(w: Word, idx: nat, k: nat)
    requires k < ELEM_BITS
    ensures BitAt(Marked(w, idx), k) <==> k == idx % ELEM_BITS || BitAt(w, k)
    ensures BitAt(Cleared(w, idx), k) <==> k != idx % ELEM_BITS && BitAt(w, k)
    ensures And(w, BitMask(idx)) != 0 <==> BitAt(w, idx % ELEM_BITS)
  {
    WordRange();
    hide BitAt, And, Or, Not, Pow2;
    var m := BitMask(idx);
    OrBit(w, m, k);
    PowBit(idx % ELEM_BITS, k);
    AndBit(w, Not(m, ELEM_BITS), k);
    NotBit(m, ELEM_BITS, k);
    TestBit(w, idx % ELEM_BITS);
  }

  lemma IndexInBounds(idx: nat, bits: nat)
    requires idx < bits
    ensures ElemIdx(idx) < ElemCnt(bits)
  {
  }

  lemma SameBit(i: nat, j: nat)
    requires ElemIdx(i) == ElemIdx(j) && i % ELEM_BITS == j % ELEM_BITS
    ensures i == j
  {
  }

  // ----- runs of equal bits -----

  /** `cnt` bits from `i` on, all equal to `v`. */
  predicate Run(b: seq<bool>, i: nat, cnt: nat, v: bool) {
    i + cnt <= |b| && forall k :: i <= k < i + cnt ==> b[k] == v
  }

  function Filled(b: seq<bool>, start: nat, cnt: nat, v: bool): (r: seq<bool>)
    requires start + cnt <= |b|
    ensures |r| == |b|
    ensures forall k :: 0 <= k < |b| ==> r[k] == if start <= k < start + cnt then v else b[k]
  {
    seq(|b|, k requires 0 <= k < |b| => if start <= k < start + cnt then v else b[k])
  }

  function Count(b: seq<bool>, v: bool): nat {
    if b == [] then 0 else (if b[0] == v then 1 else 0) + Count(b[1..], v)
  }

  class Bitmap {
    const bitCnt: nat
    const bits: array<Word>

    ghost predicate Valid()
      reads this, bits
    {
      bits.Length == ElemCnt(bitCnt)
    }

    /** The bit numbered `i`. */
    ghost predicate At(i: nat)
      reads this, bits
      requires Valid() && i < bitCnt
    {
      IndexInBounds(i, bitCnt);
      BitAt(bits[ElemIdx(i)], i % ELEM_BITS)
    }

    ghost function Bits(): (b: seq<bool>)
      reads this, bits
      requires Valid()
      ensures |b| == bitCnt
      ensures forall i :: 0 <= i < bitCnt ==> b[i] == At(i)
    {
      seq(bitCnt, i requires 0 <= i < bitCnt && Valid() reads this, bits => At(i))
    }

    constructor (cnt: nat)
      ensures Valid() && fresh(bits) && bitCnt == cnt && Bits() == seq(cnt, _ => false)
    {
      bitCnt := cnt;
      bits := new Word[ElemCnt(cnt)](_ => 0);
      new;
      forall i: nat | i < cnt ensures !At(i) {
        IndexInBounds(i, cnt);
        ZeroBit(i % ELEM_BITS);
      }
    }

    /** `bitmap_test`. */
    method Test(idx: nat) returns (r: bool)
      requires Valid() && idx < bitCnt
      ensures r == Bits()[idx]
    {
      IndexInBounds(idx, bitCnt);
      WordBits(bits[ElemIdx(idx)], idx, 0);
      r := And(bits[ElemIdx(idx)], BitMask(idx)) != 0;
    }

    /** `bitmap_mark`. */
    method Mark(idx: nat)
      requires Valid() && idx < bitCnt
      modifies bits
      ensures Valid() && Bits() == old(Bits())[idx := true]
    {
      hide BitAt, Marked;
      IndexInBounds(idx, bitCnt);
      bits[ElemIdx(idx)] := Marked(bits[ElemIdx(idx)], idx);
      forall i | 0 <= i < bitCnt ensures At(i) == (i == idx || old(At(i))) {
        IndexInBounds(i, bitCnt);
        WordBits(old(bits[ElemIdx(idx)]), idx, i % ELEM_BITS);
        if ElemIdx(i) == ElemIdx(idx) && i % ELEM_BITS == idx % ELEM_BITS { SameBit(i, idx); }
      }
    }

    /** `bitmap_reset`. */
    method Reset(idx: nat)
      requires Valid() && idx < bitCnt
      modifies bits
      ensures Valid() && Bits() == old(Bits())[idx := false]
    {
      hide BitAt, Cleared;
      IndexInBounds(idx, bitCnt);
      bits[ElemIdx(idx)] := Cleared(bits[ElemIdx(idx)], idx);
      forall i | 0 <= i < bitCnt ensures At(i) == (i != idx && old(At(i))) {
        IndexInBounds(i, bitCnt);
        WordBits(old(bits[ElemIdx(idx)]), idx, i % ELEM_BITS);
        if ElemIdx(i) == ElemIdx(idx) && i % ELEM_BITS == idx % ELEM_BITS { SameBit(i, idx); }
      }
    }

    /** `bitmap_set`. */
    method Set(idx: nat, v: bool)
      requires Valid() && idx < bitCnt
      modifies bits
      ensures Valid() && Bits() == old(Bits())[idx := v]
    {
      if v {
        Mark(idx);
      } else {
        Reset(idx);
      }
    }

    /** `bitmap_set_multiple`. */
    method SetMultiple(start: nat, cnt: nat, v: bool)
      requires Valid() && start + cnt <= bitCnt
      modifies bits
      ensures Valid() && Bits() == Filled(old(Bits()), start, cnt, v)
    {
      var i := 0;
      while i < cnt
        invariant i <= cnt && Valid()
        invariant Bits() == Filled(old(Bits()), start, i, v)
      {
        Set(start + i, v);
        i := i + 1;
      }
    }

    /** `bitmap_contains`. */
    method Contains(start: nat, cnt: nat, v: bool) returns (r: bool)
      requires Valid() && start + cnt <= bitCnt
      ensures r == !Run(Bits(), start, cnt, !v)
    {
      var i := 0;
      while i < cnt
        invariant i <= cnt && Run(Bits(), start, i, !v)
      {
        var b := Test(start + i);
        if b == v {
          assert Bits()[start + i] != !v;
          return true;
        }
        i := i + 1;
      }
      return false;
    }

    /** `bitmap_count`. */
    method CountBits(start: nat, cnt: nat, v: bool) returns (n: nat)
      requires Valid() && start + cnt <= bitCnt
      ensures n == Count(Bits()[start..start + cnt], v)
    {
      hide Count, BitAt;
      n := 0;
      var i := 0;
      CountNone(Bits(), start, v);
      while i < cnt
        invariant i <= cnt && n == Count(Bits()[start..start + i], v)
      {
        var b := Test(start + i);
        CountMore(Bits(), start, start + i, v);
        if b == v {
          n := n + 1;
        }
        i := i + 1;
      }
    }

    /** `bitmap_scan`: the least start of a run, or none at all. */
    method Scan(start: nat, cnt: nat, v: bool) returns (r: Option<nat>)
      requires Valid() && start <= bitCnt
      ensures r.Some? ==> start <= r.value && Run(Bits(), r.value, cnt, v)
      ensures forall i :: start <= i && (r.Some? ==> i < r.value) ==> !Run(Bits(), i, cnt, v)
    {
      if cnt <= bitCnt {
        var last := bitCnt - cnt;
        var i := start;
        while i <= last
          invariant start <= i
          invariant forall k :: start <= k < i ==> !Run(Bits(), k, cnt, v)
        {
          var c := Contains(i, cnt, !v);
          if !c {
            return Some(i);
          }
          i := i + 1;
        }
      }
      return None;
    }

    /** `bitmap_scan_and_flip`. */
    method ScanAndFlip(start: nat, cnt: nat, v: bool) returns (r: Option<nat>)
      requires Valid() && start <= bitCnt
      modifies bits
      ensures Valid()
      ensures r.Some? ==> start <= r.value && Run(old(Bits()), r.value, cnt, v)
      ensures forall i :: start <= i && (r.Some? ==> i < r.value) ==> !Run(old(Bits()), i, cnt, v)
      ensures Bits() == if r.Some? then Filled(old(Bits()), r.value, cnt, !v) else old(Bits())
    {
      ghost var b := Bits();
      r := Scan(start, cnt, v);
      assert Bits() == b;
      if r.Some? {
        SetMultiple(r.value, cnt, !v);
      }
    }
  }

  lemma {:induction false} CountLast(b: seq<bool>, x: bool, v: bool)
    ensures Count(b + [x], v) == Count(b, v) + (if x == v then 1 else 0)
  {
    if b != [] {
      CountLast(b[1..], x, v);
      assert (b + [x])[1..] == b[1..] + [x];
    }
  }

  lemma CountNone(b: seq<bool>, i: nat, v: bool)
    requires i <= |b|
    ensures Count(b[i..i], v) == 0
  {
  }

  lemma CountMore(b: seq<bool>, i: nat, j: nat, v: bool)
    requires i <= j < |b|
    ensures Count(b[i..j + 1], v) == Count(b[i..j], v) + (if b[j] == v then 1 else 0)
  {
    hide Count;
    assert b[i..j + 1] == b[i..j] + [b[j]];
    CountLast(b[i..j], b[j], v);
  }
}
