/** Byte-addressed memory with 32-bit words, and the doubly linked lists of
    lib/kernel/list.c as they lie in it: a list element holds the address of its
    predecessor in its first word and that of its successor in its second. */
module MemList {
  import opened Basics

  type Mem = nat -> Byte

  const WORD_LIMIT: nat := 0x1_0000_0000

  // ----- words -----

  function Load(m: Mem, a: nat): (v: nat)
    ensures v < WORD_LIMIT
  {
    m(a) + 0x100 * m(a + 1) + 0x1_0000 * m(a + 2) + 0x100_0000 * m(a + 3)
  }

  function StoreWord(m: Mem, a: nat, v: nat): Mem
    requires v < WORD_LIMIT
  {
    (x: nat) =>
      if x == a then v % 0x100
      else if x == a + 1 then v / 0x100 % 0x100
      else if x == a + 2 then v / 0x1_0000 % 0x100
      else if x == a + 3 then v / 0x100_0000
      else m(x)
  }

  lemma LoadStored(m: Mem, a: nat, v: nat)
    requires v < WORD_LIMIT
    ensures Load(StoreWord(m, a, v), a) == v
  {
    var w := v / 0x100;
    assert v == 0x100 * w + v % 0x100;
    assert v / 0x1_0000 == w / 0x100 && v / 0x100_0000 == w / 0x100 / 0x100;
    assert w == 0x100 * (w / 0x100) + w % 0x100;
  }

  lemma LoadElsewhere(m: Mem, a: nat, v: nat, b: nat)
    requires v < WORD_LIMIT && (a + 4 <= b || b + 4 <= a)
    ensures Load(StoreWord(m, a, v), b) == Load(m, b)
  {
  }

  /** The bytes from `a` on are the same in both. */
  ghost predicate SameBytes(m: Mem, m': Mem, a: nat, n: nat) {
    forall x: nat :: a <= x < a + n ==> m'(x) == m(x)
  }

  lemma SameLoad(m: Mem, m': Mem, a: nat)
    requires SameBytes(m, m', a, 4)
    ensures Load(m', a) == Load(m, a)
  {
  }

  // ----- lists -----

  /** Nodes of eight bytes that do not overlap. */
  ghost predicate Spaced(c: seq<nat>) {
    && (forall i :: 0 <= i < |c| ==> c[i] + 8 <= WORD_LIMIT)
    && (forall i, j :: 0 <= i < |c| && 0 <= j < |c| && i != j ==> c[i] + 8 <= c[j] || c[j] + 8 <= c[i])
  }

  /** Node `i` and the next one point at each other. */
  ghost predicate Linked(m: Mem, c: seq<nat>, i: nat)
    requires i + 1 < |c|
  {
    Load(m, c[i] + 4) == c[i + 1] && Load(m, c[i + 1]) == c[i]
  }

  /** The list from a head sentinel to a tail sentinel, with links that mirror each other. */
  ghost predicate MemLinked(m: Mem, c: seq<nat>) {
    |c| >= 2 && Spaced(c) && forall i: nat :: i < |c| - 1 ==> Linked(m, c, i)
  }

  ghost predicate InNode(c: seq<nat>, x: nat) {
    exists i :: 0 <= i < |c| && c[i] <= x < c[i] + 8
  }

  /** Nothing outside these nodes differs. */
  ghost predicate OnlyNodes(m: Mem, m': Mem, c: seq<nat>) {
    forall x: nat :: !InNode(c, x) ==> m'(x) == m(x)
  }

  /** `list_insert`. */
  function InsertLinks(m: Mem, before: nat, e: nat): Mem
    requires before < WORD_LIMIT && e < WORD_LIMIT
  {
    var p := Load(m, before);
    StoreWord(StoreWord(StoreWord(StoreWord(m, e, p), e + 4, before), p + 4, e), before, e)
  }

  /** `list_remove`. */
  function RemoveLinks(m: Mem, e: nat): Mem {
    var p, n := Load(m, e), Load(m, e + 4);
    StoreWord(StoreWord(m, p + 4, n), n, p)
  }

  /** Four stores at places that do not overlap, and what is read afterwards. */
  lemma LoadAfterInsert(m: Mem, before: nat, e: nat, p: nat, x: nat)
    requires before < WORD_LIMIT && e < WORD_LIMIT && p == Load(m, before)
    requires before + 8 <= e || e + 8 <= before
    requires p + 8 <= e || e + 8 <= p
    requires p + 8 <= before || before + 8 <= p
    requires x == e || x == e + 4 || x == p + 4 || x == before
      || (Clear(x, e) && Clear(x, e + 4) && Clear(x, p + 4) && Clear(x, before))
    ensures Load(InsertLinks(m, before, e), x) ==
      if x == e then p else if x == e + 4 then before else if x == p + 4 then e else if x == before then e
      else Load(m, x)
  {
    hide Load, StoreWord;
    var m1 := StoreWord(m, e, p);
    var m2 := StoreWord(m1, e + 4, before);
    var m3 := StoreWord(m2, p + 4, e);
    ReadBack(m, e, p, x);
    ReadBack(m1, e + 4, before, x);
    ReadBack(m2, p + 4, e, x);
    ReadBack(m3, before, e, x);
  }

  predicate Clear(x: nat, a: nat) { x + 4 <= a || a + 4 <= x }

  lemma ReadBack(m: Mem, a: nat, v: nat, x: nat)
    requires v < WORD_LIMIT && (x == a || Clear(x, a))
    ensures Load(StoreWord(m, a, v), x) == if x == a then v else Load(m, x)
  {
    if x == a {
      LoadStored(m, a, v);
    } else {
      LoadElsewhere(m, a, v, x);
    }
  }

  ghost predicate ClearOf(c: seq<nat>, e: nat) {
    e + 8 <= WORD_LIMIT && forall i :: 0 <= i < |c| ==> c[i] + 8 <= e || e + 8 <= c[i]
  }

  lemma InsertSpaced(c: seq<nat>, i: nat, e: nat)
    requires Spaced(c) && ClearOf(c, e) && i <= |c|
    ensures Spaced(c[..i] + [e] + c[i..])
  {
  }

  /** The words of a link that an insertion leaves alone. */
  lemma LinkAfterInsert(m: Mem, c: seq<nat>, i: nat, e: nat, k: nat)
    requires Spaced(c) && 0 < i < |c| && ClearOf(c, e) && k + 1 < |c| && k + 1 != i && Load(m, c[i]) == c[i - 1]
    ensures Load(InsertLinks(m, c[i], e), c[k] + 4) == Load(m, c[k] + 4)
    ensures Load(InsertLinks(m, c[i], e), c[k + 1]) == Load(m, c[k + 1])
  {
    hide Load, InsertLinks;
    LoadAfterInsert(m, c[i], e, c[i - 1], c[k] + 4);
    LoadAfterInsert(m, c[i], e, c[i - 1], c[k + 1]);
  }

  lemma InsertLinked(m: Mem, c: seq<nat>, i: nat, e: nat, k: nat, c': seq<nat>)
    requires MemLinked(m, c) && 0 < i < |c| && ClearOf(c, e) && k < |c| && c' == c[..i] + [e] + c[i..]
    ensures Linked(InsertLinks(m, c[i], e), c', k)
  {
    hide Load, InsertLinks;
    assert Linked(m, c, i - 1);
    if k + 1 < i {
      assert Linked(m, c, k);
      LinkAfterInsert(m, c, i, e, k);
    } else if k + 1 == i {
      LoadAfterInsert(m, c[i], e, c[i - 1], c[i - 1] + 4);
      LoadAfterInsert(m, c[i], e, c[i - 1], e);
    } else if k == i {
      LoadAfterInsert(m, c[i], e, c[i - 1], e + 4);
      LoadAfterInsert(m, c[i], e, c[i - 1], c[i]);
    } else {
      assert Linked(m, c, k - 1);
      LinkAfterInsert(m, c, i, e, k - 1);
    }
  }

  /** `list_insert` in memory: the links mirror with the element in its place, and only
      nodes of the list and the new one are written. */
  lemma MemInsert(m: Mem, c: seq<nat>, i: nat, e: nat, c': seq<nat>)
    requires MemLinked(m, c) && 0 < i < |c| && ClearOf(c, e) && c' == c[..i] + [e] + c[i..]
    ensures MemLinked(InsertLinks(m, c[i], e), c') && OnlyNodes(m, InsertLinks(m, c[i], e), c')
  {
    hide Linked, InsertLinks;
    var m' := InsertLinks(m, c[i], e);
    InsertSpaced(c, i, e);
    forall k: nat | k < |c'| - 1 ensures Linked(m', c', k) {
      InsertLinked(m, c, i, e, k, c');
    }
    InsertOnly(m, c, i, e);
  }

  lemma InsertOnly(m: Mem, c: seq<nat>, i: nat, e: nat)
    requires MemLinked(m, c) && 0 < i < |c| && ClearOf(c, e)
    ensures OnlyNodes(m, InsertLinks(m, c[i], e), c[..i] + [e] + c[i..])
  {
    var c' := c[..i] + [e] + c[i..];
    assert Linked(m, c, i - 1);
    hide Load;
    assert c'[i - 1] == c[i - 1] && c'[i] == e && c'[i + 1] == c[i];
  }

  lemma LoadAfterRemove(m: Mem, e: nat, p: nat, n: nat, x: nat)
    requires p == Load(m, e) && n == Load(m, e + 4) && (p + 8 <= n || n + 8 <= p)
    requires x == p + 4 || x == n || (Clear(x, p + 4) && Clear(x, n))
    ensures Load(RemoveLinks(m, e), x) == if x == p + 4 then n else if x == n then p else Load(m, x)
  {
    hide Load, StoreWord;
    ReadBack(m, p + 4, n, x);
    ReadBack(StoreWord(m, p + 4, n), n, p, x);
  }

  lemma LinkAfterRemove(m: Mem, c: seq<nat>, i: nat, k: nat)
    requires Spaced(c) && 0 < i < |c| - 1 && k + 1 < |c| && k != i && k + 1 != i
    requires Load(m, c[i]) == c[i - 1] && Load(m, c[i] + 4) == c[i + 1]
    ensures Load(RemoveLinks(m, c[i]), c[k] + 4) == Load(m, c[k] + 4)
    ensures Load(RemoveLinks(m, c[i]), c[k + 1]) == Load(m, c[k + 1])
  {
    hide Load, RemoveLinks;
    LoadAfterRemove(m, c[i], c[i - 1], c[i + 1], c[k] + 4);
    LoadAfterRemove(m, c[i], c[i - 1], c[i + 1], c[k + 1]);
  }

  lemma RemoveLinked(m: Mem, c: seq<nat>, i: nat, k: nat, c': seq<nat>)
    requires MemLinked(m, c) && 0 < i < |c| - 1 && k < |c| - 2 && c' == c[..i] + c[i + 1..]
    ensures Linked(RemoveLinks(m, c[i]), c', k)
  {
    hide Load, RemoveLinks;
    assert Linked(m, c, i - 1) && Linked(m, c, i);
    if k + 1 == i {
      LoadAfterRemove(m, c[i], c[i - 1], c[i + 1], c[i - 1] + 4);
      LoadAfterRemove(m, c[i], c[i - 1], c[i + 1], c[i + 1]);
    } else {
      var j := if k < i then k else k + 1;
      assert Linked(m, c, j);
      LinkAfterRemove(m, c, i, j);
    }
  }

  /** `list_remove` in memory. */
  lemma MemRemove(m: Mem, c: seq<nat>, i: nat, c': seq<nat>)
    requires MemLinked(m, c) && 0 < i < |c| - 1 && c' == c[..i] + c[i + 1..]
    ensures MemLinked(RemoveLinks(m, c[i]), c') && OnlyNodes(m, RemoveLinks(m, c[i]), c')
  {
    hide Linked, RemoveLinks;
    var m' := RemoveLinks(m, c[i]);
    forall k: nat | k < |c'| - 1 ensures Linked(m', c', k) {
      RemoveLinked(m, c, i, k, c');
    }
    RemoveOnly(m, c, i);
  }

  lemma RemoveOnly(m: Mem, c: seq<nat>, i: nat)
    requires MemLinked(m, c) && 0 < i < |c| - 1
    ensures OnlyNodes(m, RemoveLinks(m, c[i]), c[..i] + c[i + 1..])
  {
    var c' := c[..i] + c[i + 1..];
    assert Linked(m, c, i - 1) && Linked(m, c, i);
    hide Load;
    assert c'[i - 1] == c[i - 1] && c'[i] == c[i + 1];
  }

  // ----- what stays -----

  /** Nodes that are apart from those written. */
  ghost predicate NodesApart(c: seq<nat>, d: seq<nat>) {
    forall i, j :: 0 <= i < |c| && 0 <= j < |d| ==> c[i] + 8 <= d[j] || d[j] + 8 <= c[i]
  }

  lemma NodeKept(m: Mem, m': Mem, c: seq<nat>, e: nat)
    requires OnlyNodes(m, m', c) && forall i :: 0 <= i < |c| ==> c[i] + 8 <= e || e + 8 <= c[i]
    ensures Load(m', e) == Load(m, e) && Load(m', e + 4) == Load(m, e + 4)
  {
    hide Load;
    SameLoad(m, m', e);
    SameLoad(m, m', e + 4);
  }

  lemma OtherListKept(m: Mem, m': Mem, c: seq<nat>, d: seq<nat>)
    requires OnlyNodes(m, m', c) && NodesApart(c, d) && MemLinked(m, d)
    ensures MemLinked(m', d)
  {
    hide Load, OnlyNodes;
    forall i: nat | i < |d| - 1 ensures Linked(m', d, i) {
      assert Linked(m, d, i);
      NodeKept(m, m', c, d[i]);
      NodeKept(m, m', c, d[i + 1]);
    }
  }
}
