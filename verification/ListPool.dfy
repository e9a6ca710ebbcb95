/** Several intrusive lists over one pool of elements.  Each named node owns a single
    element, which can be on one list at a time; the lists are doubly linked chains between
    sentinels, and every operation keeps all of them linked and apart from each other. */
module ListPool {
  import opened Basics
  import opened LinkedList

  /** The elements of the named nodes. */
  ghost function Elems<N>(elemOf: map<N, Elem>, names: seq<N>): (c: seq<Elem>)
    requires forall i :: 0 <= i < |names| ==> names[i] in elemOf
    ensures |c| == |names| && forall i :: 0 <= i < |c| ==> c[i] == elemOf[names[i]]
  {
    if names == [] then [] else [elemOf[names[0]]] + Elems(elemOf, names[1..])
  }

  lemma ElemsInsert<N>(elemOf: map<N, Elem>, names: seq<N>, i: nat, n: N)
    requires (forall k :: 0 <= k < |names| ==> names[k] in elemOf) && n in elemOf && i <= |names|
    ensures Elems(elemOf, names[..i] + [n] + names[i..])
      == Elems(elemOf, names)[..i] + [elemOf[n]] + Elems(elemOf, names)[i..]
  {
  }

  lemma ElemsRemove<N>(elemOf: map<N, Elem>, names: seq<N>, i: nat)
    requires (forall k :: 0 <= k < |names| ==> names[k] in elemOf) && i < |names|
    ensures Elems(elemOf, names[..i] + names[i + 1..])
      == Elems(elemOf, names)[..i] + Elems(elemOf, names)[i + 1..]
  {
  }

  // ----- which element is where -----

  datatype Layout<!L, !N> = Layout(heads: map<L, Elem>, tails: map<L, Elem>, elemOf: map<N, Elem>,
                                   nodeOf: map<Elem, N>, content: map<L, seq<N>>)

  /** Each node has its own element. */
  ghost predicate Named<L(!new), N(!new)>(y: Layout<L, N>, repr: set<Elem>) {
    && (forall n :: n in y.elemOf ==> y.elemOf[n] in y.nodeOf && y.nodeOf[y.elemOf[n]] == n && y.elemOf[n] in repr)
    && (forall id, i :: id in y.content && 0 <= i < |y.content[id]| ==> y.content[id][i] in y.elemOf)
  }

  /** Each list has its own sentinels. */
  ghost predicate Sentinels<L(!new), N>(y: Layout<L, N>, repr: set<Elem>) {
    && y.heads.Keys == y.content.Keys
    && y.tails.Keys == y.content.Keys
    && (forall id :: id in y.heads ==> y.heads[id] in repr && y.heads[id] !in y.nodeOf)
    && (forall id :: id in y.tails ==> y.tails[id] in repr && y.tails[id] !in y.nodeOf)
  }

  ghost function Chain<L(!new), N(!new)>(y: Layout<L, N>, repr: set<Elem>, id: L): (c: seq<Elem>)
    requires Named(y, repr) && Sentinels(y, repr) && id in y.content
    ensures forall i :: 0 <= i < |c| ==> c[i] in repr
  {
    [y.heads[id]] + Elems(y.elemOf, y.content[id]) + [y.tails[id]]
  }

  ghost predicate AllApart<L(!new), N(!new)>(y: Layout<L, N>, repr: set<Elem>)
    requires Named(y, repr) && Sentinels(y, repr)
  {
    forall id, id' :: id in y.content && id' in y.content && id != id' ==>
      Apart(Chain(y, repr, id), Chain(y, repr, id'))
  }

  ghost predicate Shape<L(!new), N(!new)>(y: Layout<L, N>, repr: set<Elem>) {
    Named(y, repr) && Sentinels(y, repr) && AllApart(y, repr)
  }

  /** A node that is not on a list has its element outside that list's chain. */
  lemma Elsewhere<L(!new), N(!new)>(y: Layout<L, N>, repr: set<Elem>, n: N, id: L)
    requires Named(y, repr) && Sentinels(y, repr) && n in y.elemOf && id in y.content && n !in y.content[id]
    ensures y.elemOf[n] !in Chain(y, repr, id)
  {
    var c := Chain(y, repr, id);
    forall i | 0 <= i < |c| ensures c[i] != y.elemOf[n] {
      if 0 < i < |c| - 1 {
        assert c[i] == y.elemOf[y.content[id][i - 1]];
      }
    }
  }

  ghost function Put<L, N>(y: Layout<L, N>, id: L, names: seq<N>): Layout<L, N> {
    y.(content := y.content[id := names])
  }

  lemma PutNamed<L(!new), N(!new)>(y: Layout<L, N>, repr: set<Elem>, id: L, names: seq<N>)
    requires Named(y, repr) && Sentinels(y, repr) && id in y.content
    requires forall i :: 0 <= i < |names| ==> names[i] in y.elemOf
    ensures var y' := Put(y, id, names);
      && Named(y', repr) && Sentinels(y', repr)
      && forall id' :: id' in y.content && id' != id ==> Chain(y', repr, id') == Chain(y, repr, id')
  {
    hide Elems;
  }

  lemma WrapInsert(h: Elem, m: seq<Elem>, t: Elem, p: nat, e: Elem)
    requires p <= |m|
    ensures Inserted([h] + m + [t], p + 1, e) == [h] + (m[..p] + [e] + m[p..]) + [t]
  {
    var c := [h] + m + [t];
    assert c[..p + 1] == [h] + m[..p] && c[p + 1..] == m[p..] + [t];
  }

  lemma WrapRemove(h: Elem, m: seq<Elem>, t: Elem, p: nat)
    requires p < |m|
    ensures Removed([h] + m + [t], p + 1) == [h] + (m[..p] + m[p + 1..]) + [t]
  {
    var c := [h] + m + [t];
    assert c[..p + 1] == [h] + m[..p] && c[p + 2..] == m[p + 1..] + [t];
  }

  lemma ChainOfInsert<L(!new), N(!new)>(y: Layout<L, N>, repr: set<Elem>, id: L, p: nat, n: N)
    requires Named(y, repr) && Sentinels(y, repr) && id in y.content && n in y.elemOf && p <= |y.content[id]|
    ensures var y' := Put(y, id, y.content[id][..p] + [n] + y.content[id][p..]);
      && Named(y', repr) && Sentinels(y', repr)
      && |Chain(y, repr, id)| == |y.content[id]| + 2
      && Chain(y', repr, id) == Inserted(Chain(y, repr, id), p + 1, y.elemOf[n])
      && forall id' :: id' in y.content && id' != id ==> Chain(y', repr, id') == Chain(y, repr, id')
  {
    hide Elems;
    var names := y.content[id];
    PutNamed(y, repr, id, names[..p] + [n] + names[p..]);
    hide Named, Sentinels;
    ElemsInsert(y.elemOf, names, p, n);
    WrapInsert(y.heads[id], Elems(y.elemOf, names), y.tails[id], p, y.elemOf[n]);
  }

  lemma ChainOfRemove<L(!new), N(!new)>(y: Layout<L, N>, repr: set<Elem>, id: L, p: nat)
    requires Named(y, repr) && Sentinels(y, repr) && id in y.content && p < |y.content[id]|
    ensures var y' := Put(y, id, y.content[id][..p] + y.content[id][p + 1..]);
      && Named(y', repr) && Sentinels(y', repr)
      && |Chain(y, repr, id)| == |y.content[id]| + 2
      && Chain(y', repr, id) == Removed(Chain(y, repr, id), p + 1)
      && forall id' :: id' in y.content && id' != id ==> Chain(y', repr, id') == Chain(y, repr, id')
  {
    hide Elems;
    var names := y.content[id];
    PutNamed(y, repr, id, names[..p] + names[p + 1..]);
    hide Named, Sentinels;
    ElemsRemove(y.elemOf, names, p);
    WrapRemove(y.heads[id], Elems(y.elemOf, names), y.tails[id], p);
  }

  /** Changing one chain so that it stays apart from the others. */
  lemma OneChanged<L(!new), N(!new)>(y: Layout<L, N>, y': Layout<L, N>, repr: set<Elem>, id: L)
    requires Shape(y, repr) && Named(y', repr) && Sentinels(y', repr) && id in y.content
    requires y'.content.Keys == y.content.Keys
    requires forall id' :: id' in y.content && id' != id ==> Chain(y', repr, id') == Chain(y, repr, id')
    requires forall id' :: id' in y.content && id' != id ==> Apart(Chain(y', repr, id), Chain(y, repr, id'))
    ensures Shape(y', repr)
  {
    hide Named, Sentinels, Chain;
    forall a, b | a in y'.content && b in y'.content && a != b ensures Apart(Chain(y', repr, a), Chain(y', repr, b)) {
      if b == id {
        assert Apart(Chain(y', repr, id), Chain(y, repr, a));
      } else if a != id {
        assert Apart(Chain(y, repr, a), Chain(y, repr, b));
      }
    }
  }

  lemma ApartInserted(c: seq<Elem>, i: nat, e: Elem, d: seq<Elem>)
    requires i <= |c| && Apart(c, d) && e !in d
    ensures Apart(Inserted(c, i, e), d)
  {
  }

  lemma ApartRemoved(c: seq<Elem>, i: nat, d: seq<Elem>)
    requires i < |c| && Apart(c, d)
    ensures Apart(Removed(c, i), d)
  {
  }

  lemma ShapeInsert<L(!new), N(!new)>(y: Layout<L, N>, repr: set<Elem>, id: L, p: nat, n: N)
    requires Shape(y, repr) && id in y.content && n in y.elemOf && p <= |y.content[id]|
    requires forall id' :: id' in y.content ==> n !in y.content[id']
    ensures Shape(Put(y, id, y.content[id][..p] + [n] + y.content[id][p..]), repr)
  {
    hide Chain;
    var y' := Put(y, id, y.content[id][..p] + [n] + y.content[id][p..]);
    ChainOfInsert(y, repr, id, p, n);
    forall id' | id' in y.content && id' != id ensures Apart(Chain(y', repr, id), Chain(y, repr, id')) {
      Elsewhere(y, repr, n, id');
      ChainEnds(y, repr, id);
      ApartInserted(Chain(y, repr, id), p + 1, y.elemOf[n], Chain(y, repr, id'));
    }
    OneChanged(y, y', repr, id);
  }

  lemma ChainEnds<L(!new), N(!new)>(y: Layout<L, N>, repr: set<Elem>, id: L)
    requires Named(y, repr) && Sentinels(y, repr) && id in y.content
    ensures |Chain(y, repr, id)| == |y.content[id]| + 2
    ensures Chain(y, repr, id)[0] == y.heads[id] && Chain(y, repr, id)[|y.content[id]| + 1] == y.tails[id]
  {
  }

  lemma ShapeRemove<L(!new), N(!new)>(y: Layout<L, N>, repr: set<Elem>, id: L, p: nat)
    requires Shape(y, repr) && id in y.content && p < |y.content[id]|
    ensures Shape(Put(y, id, y.content[id][..p] + y.content[id][p + 1..]), repr)
  {
    hide Chain;
    var y' := Put(y, id, y.content[id][..p] + y.content[id][p + 1..]);
    ChainOfRemove(y, repr, id, p);
    ChainEnds(y, repr, id);
    forall id' | id' in y.content && id' != id ensures Apart(Chain(y', repr, id), Chain(y, repr, id')) {
      ApartRemoved(Chain(y, repr, id), p + 1, Chain(y, repr, id'));
    }
    OneChanged(y, y', repr, id);
  }

  // ----- the lists -----

  class Lists<L(==, !new), N(==, !new)> {
    var heads: map<L, Elem>
    var tails: map<L, Elem>
    var elemOf: map<N, Elem>          // the element inside a node
    var nodeOf: map<Elem, N>          // `list_entry`
    ghost var content: map<L, seq<N>> // the names on each list, in order
    ghost var repr: set<Elem>

    ghost function View(): Layout<L, N>
      reads this
    {
      Layout(heads, tails, elemOf, nodeOf, content)
    }

    ghost function ChainOf(id: L): seq<Elem>
      requires Named(View(), repr) && Sentinels(View(), repr) && id in content
      reads this
    {
      Chain(View(), repr, id)
    }

    ghost predicate AllLinked()
      requires Named(View(), repr) && Sentinels(View(), repr)
      reads this, repr
    {
      forall id :: id in content ==> Linked(ChainOf(id))
    }

    /** All lists are well linked, and no element is on two of them. */
    ghost predicate Valid()
      reads this, repr
    {
      Shape(View(), repr) && AllLinked()
    }

    /** The node is on no list. */
    ghost predicate Loose(n: N)
      reads this
    {
      n in elemOf && forall id :: id in content ==> n !in content[id]
    }

    constructor ()
      ensures Valid() && content == map[] && elemOf == map[] && repr == {}
    {
      heads, tails, elemOf, nodeOf, content, repr := map[], map[], map[], map[], map[], {};
    }

    /** `list_insert` of a loose node at position `p` of a list. */
    method InsertAt(id: L, before: Elem, n: N, ghost p: nat)
      requires Valid() && id in content && Loose(n) && p <= |content[id]|
      requires p + 1 < |ChainOf(id)| && before == ChainOf(id)[p + 1]
      modifies `content, repr
      ensures Valid() && content == old(content)[id := old(content)[id][..p] + [n] + old(content)[id][p..]]
    {
      hide Linked, Chain, AllApart, Elems, Sentinels;
      ghost var y, c, names := View(), ChainOf(id), content[id];
      ShapeInsert(y, repr, id, p, n);
      ChainOfInsert(y, repr, id, p, n);
      Elsewhere(y, repr, n, id);
      var e := elemOf[n];
      forall id' | id' in content && id' != id ensures Untouched(ChainOf(id'), c + [e]) {
        Elsewhere(y, repr, n, id');
        OtherChain(y, repr, id, id');
      }
      ghost var c' := Inserted(c, p + 1, e);
      Insert(before, e, c, p + 1, c');
      content := content[id := names[..p] + [n] + names[p..]];
      assert View() == Put(y, id, content[id]);
    }

    /** `list_push_back`. */
    method PushBack(id: L, n: N)
      requires Valid() && id in content && Loose(n)
      modifies `content, repr
      ensures Valid() && content == old(content)[id := old(content)[id] + [n]]
    {
      hide AllApart, Linked, Chain;
      ghost var names := content[id];
      ChainEnds(View(), repr, id);
      InsertAt(id, tails[id], n, |names|);
      assert names[..|names|] + [n] + names[|names|..] == names + [n];
    }

    /** `list_push_front`. */
    method PushFront(id: L, n: N)
      requires Valid() && id in content && Loose(n)
      modifies `content, repr
      ensures Valid() && content == old(content)[id := [n] + old(content)[id]]
    {
      ghost var names := content[id];
      LinkAt(ChainOf(id), 0);
      InsertAt(id, heads[id].next, n, 0);
      assert names[..0] + [n] + names[0..] == [n] + names;
    }

    /** `list_remove` of the node at position `p`. */
    method RemoveAt(id: L, n: N, ghost p: nat)
      requires Valid() && id in content && p < |content[id]| && n == content[id][p]
      modifies `content, repr
      ensures Valid() && content == old(content)[id := old(content)[id][..p] + old(content)[id][p + 1..]]
    {
      hide Linked, Chain, AllApart, Elems, Named, Sentinels;
      ghost var y, c, names := View(), ChainOf(id), content[id];
      ShapeRemove(y, repr, id, p);
      ChainOfRemove(y, repr, id, p);
      ElemAt(y, repr, id, p);
      forall id' | id' in content && id' != id ensures Untouched(ChainOf(id'), c) {
        OtherChain(y, repr, id, id');
      }
      var following := Remove(elemOf[n], c, p + 1, Removed(c, p + 1));
      content := content[id := names[..p] + names[p + 1..]];
      assert View() == Put(y, id, content[id]);
    }

    /** `list_pop_front`. */
    method PopFront(id: L) returns (n: N)
      requires Valid() && id in content && content[id] != []
      modifies `content, repr
      ensures Valid() && n == old(content)[id][0] && content == old(content)[id := old(content)[id][1..]]
    {
      hide Shape, Named, Sentinels, Linked;
      ghost var names := content[id];
      n := First(id);
      RemoveAt(id, n, 0);
      assert names[..0] + names[0 + 1..] == names[1..];
    }

    /** `list_empty`. */
    method IsEmpty(id: L) returns (r: bool)
      requires Valid() && id in content
      ensures r <==> content[id] == []
    {
      LinkAt(ChainOf(id), 0);
      r := heads[id].next == tails[id];
      if content[id] != [] {
        ElemAt(View(), repr, id, 0);
      }
    }

    /** The node of the element at `list_begin`. */
    method First(id: L) returns (n: N)
      requires Valid() && id in content && content[id] != []
      ensures n == content[id][0]
    {
      LinkAt(ChainOf(id), 0);
      ElemAt(View(), repr, id, 0);
      n := nodeOf[heads[id].next];
    }

    /** The node of the element at `list_next`, or none at `list_end`. */
    method Following(id: L, n: N, ghost p: nat) returns (r: Option<N>)
      requires Valid() && id in content && p < |content[id]| && n == content[id][p]
      ensures r == if p + 1 < |content[id]| then Some(content[id][p + 1]) else None
    {
      ElemAt(View(), repr, id, p);
      LinkAt(ChainOf(id), p + 1);
      var e := elemOf[n].next;
      if p + 1 < |content[id]| {
        ElemAt(View(), repr, id, p + 1);
      }
      r := if e == tails[id] then None else Some(nodeOf[e]);
    }

    /** `list_begin`, or none if the list is empty. */
    method Begin(id: L) returns (r: Option<N>)
      requires Valid() && id in content
      ensures r == if content[id] != [] then Some(content[id][0]) else None
    {
      hide Shape, Linked;
      var empty := IsEmpty(id);
      if empty {
        return None;
      }
      var n := First(id);
      return Some(n);
    }

    /** The element at a place of a list, counting the head and the tail. */
    ghost function At(id: L, p: nat): Elem
      requires Valid() && id in content && p <= |content[id]| + 1
      reads this, repr
    {
      ChainEnds(View(), repr, id);
      ChainOf(id)[p]
    }

    /** `list_head`. */
    method HeadOf(id: L) returns (e: Elem)
      requires Valid() && id in content
      ensures e == At(id, 0)
    {
      hide Linked, AllApart, Chain;
      ChainEnds(View(), repr, id);
      e := heads[id];
    }

    /** `list_next` from the head or a node, and the node there, if it is not `list_end`. */
    method Step(id: L, e: Elem, ghost p: nat) returns (r: Elem, n: Option<N>)
      requires Valid() && id in content && p <= |content[id]| && e == At(id, p)
      ensures r == At(id, p + 1)
      ensures n == if p < |content[id]| then Some(content[id][p]) else None
    {
      hide AllApart, Chain;
      ChainEnds(View(), repr, id);
      LinkAt(ChainOf(id), p);
      hide Linked;
      if p < |content[id]| {
        ElemAt(View(), repr, id, p);
      }
      r := e.next;
      n := if r == tails[id] then None else Some(nodeOf[r]);
    }

    /** `list_begin` as an element, and the node there. */
    method BeginElem(id: L) returns (e: Elem, n: Option<N>)
      requires Valid() && id in content
      ensures e == At(id, 1) && n == if content[id] != [] then Some(content[id][0]) else None
    {
      hide Shape, Linked, At;
      var h := HeadOf(id);
      e, n := Step(id, h, 0);
    }

    /** `list_init` of a list in use: its nodes are on no list any more. */
    method Reset(id: L)
      requires Valid() && id in content
      modifies `content, repr
      ensures Valid() && content == old(content)[id := []]
    {
      hide Linked, Chain, AllApart, Elems, Named;
      ghost var y, c := View(), ChainOf(id);
      ShapeReset(y, repr, id);
      ChainEnds(y, repr, id);
      var h, t := heads[id], tails[id];
      hide Sentinels;
      forall id' | id' in content && id' != id ensures Untouched(ChainOf(id'), [h, t]) {
        OtherChain(y, repr, id, id');
        UntouchedEnds(ChainOf(id'), c);
      }
      EndsDiffer(c);
      JoinEnds(h, t);
      content := content[id := []];
      assert View() == Put(y, id, []);
    }

    /** Lists without nodes go, with the memory of their sentinels. */
    method Drop(ids: set<L>)
      requires Valid() && forall id :: id in ids && id in content ==> content[id] == []
      modifies this
      ensures Valid() && content == old(content) - ids && elemOf == old(elemOf) && repr == old(repr)
    {
      hide Linked, Chain, Elems, Named, Sentinels, AllApart;
      ghost var y := View();
      ShapeDrop(y, repr, ids);
      heads, tails, content := heads - ids, tails - ids, content - ids;
      assert View() == Less(y, ids);
    }

    lemma SamePlace(id: L, p: nat, id': L, q: nat)
      requires Valid() && id in content && p < |content[id]| && id' in content && q < |content[id']|
      requires content[id][p] == content[id'][q]
      ensures id == id' && p == q
    {
      hide Elems, Chain;
      ElemAt(View(), repr, id, p);
      ElemAt(View(), repr, id', q);
      if id == id' {
        IndexUnique(ChainOf(id), p + 1, q + 1);
      }
    }

    /** A node is at one place of one list. */
    lemma OnlyPlace(id: L, p: nat)
      requires Valid() && id in content && p < |content[id]|
      ensures content[id][p] in elemOf
      ensures forall id', q: nat :: id' in content && q < |content[id']| && content[id'][q] == content[id][p] ==>
        id' == id && q == p
    {
      ElemAt(View(), repr, id, p);
      hide Valid;
      forall id', q: nat | id' in content && q < |content[id']| && content[id'][q] == content[id][p]
        ensures id' == id && q == p
      {
        SamePlace(id, p, id', q);
      }
    }

    /** `list_init` of a new list. */
    method AddList(id: L)
      requires Valid() && id !in content
      modifies this
      ensures Valid() && content == old(content)[id := []] && elemOf == old(elemOf)
      ensures old(repr) <= repr && fresh(repr - old(repr))
    {
      hide Shape, Chain, Linked;
      ghost var y := View();
      var h, t := NewPair();
      NewList(y, repr, id, h, t);
      hide Named, Sentinels;
      heads, tails, content := heads[id := h], tails[id := t], content[id := []];
      repr := repr + {h, t};
      assert View() == WithList(y, id, h, t);
    }

    /** The element of a new node. */
    method AddNode(n: N)
      requires Valid() && n !in elemOf
      modifies this
      ensures Valid() && Loose(n) && content == old(content) && elemOf.Keys == old(elemOf.Keys) + {n}
      ensures old(repr) <= repr && fresh(repr - old(repr))
    {
      hide Shape, Chain, Linked;
      ghost var y := View();
      var e := new Elem();
      NewNode(y, repr, n, e);
      elemOf, nodeOf := elemOf[n := e], nodeOf[e := n];
      repr := repr + {e};
      assert View() == WithNode(y, n, e);
    }
  }

  /** Two sentinels with nothing between them. */
  method NewPair() returns (h: Elem, t: Elem)
    ensures fresh(h) && fresh(t) && h != t && Linked([h, t])
  {
    h := new Elem();
    t := new Elem();
    h.next, t.prev := t, h;
  }

  /** The two stores of `list_init` on sentinels that have their null links. */
  method JoinEnds(h: Elem, t: Elem)
    requires h != t && h.prev == null && t.next == null
    modifies h, t
    ensures Linked([h, t])
  {
    h.next, t.prev := t, h;
  }

  lemma EndsDiffer(c: seq<Elem>)
    requires Linked(c)
    ensures c[0] != c[|c| - 1] && c[0].prev == null && c[|c| - 1].next == null
  {
  }

  lemma ResetChains<L(!new), N(!new)>(y: Layout<L, N>, repr: set<Elem>, id: L)
    requires Named(y, repr) && Sentinels(y, repr) && id in y.content
    ensures var y' := Put(y, id, []);
      && Named(y', repr) && Sentinels(y', repr) && Chain(y', repr, id) == [y.heads[id], y.tails[id]]
      && forall id' :: id' in y.content && id' != id ==> Chain(y', repr, id') == Chain(y, repr, id')
  {
    PutNamed(y, repr, id, []);
    assert Elems(y.elemOf, []) == [];
    hide Elems, Named, Sentinels;
  }

  lemma ShapeReset<L(!new), N(!new)>(y: Layout<L, N>, repr: set<Elem>, id: L)
    requires Shape(y, repr) && id in y.content
    ensures var y' := Put(y, id, []);
      && Shape(y', repr) && Chain(y', repr, id) == [y.heads[id], y.tails[id]]
      && forall id' :: id' in y.content && id' != id ==> Chain(y', repr, id') == Chain(y, repr, id')
  {
    hide Chain, Named;
    var y' := Put(y, id, []);
    ResetChains(y, repr, id);
    ChainEnds(y, repr, id);
    hide Sentinels;
    forall id' | id' in y.content && id' != id ensures Apart(Chain(y', repr, id), Chain(y, repr, id')) {
      EndsApart(Chain(y, repr, id), Chain(y, repr, id'), y.heads[id], y.tails[id]);
    }
    OneChanged(y, y', repr, id);
  }

  lemma EndsApart(c: seq<Elem>, d: seq<Elem>, h: Elem, t: Elem)
    requires Apart(c, d) && |c| >= 2 && h == c[0] && t == c[|c| - 1]
    ensures Apart([h, t], d)
  {
  }

  ghost function Less<L, N>(y: Layout<L, N>, ids: set<L>): Layout<L, N> {
    y.(heads := y.heads - ids, tails := y.tails - ids, content := y.content - ids)
  }

  lemma ShapeDrop<L(!new), N(!new)>(y: Layout<L, N>, repr: set<Elem>, ids: set<L>)
    requires Shape(y, repr)
    ensures var y' := Less(y, ids);
      Shape(y', repr) && forall id :: id in y'.content ==> Chain(y', repr, id) == Chain(y, repr, id)
  {
    hide Elems;
    var y' := Less(y, ids);
    assert y'.heads.Keys == y'.content.Keys && y'.tails.Keys == y'.content.Keys;
    assert Named(y', repr) && Sentinels(y', repr);
    forall id | id in y'.content ensures Chain(y', repr, id) == Chain(y, repr, id) {
    }
    hide Chain, Named, Sentinels;
    forall a, b | a in y'.content && b in y'.content && a != b ensures Apart(Chain(y', repr, a), Chain(y', repr, b)) {
      assert Apart(Chain(y, repr, a), Chain(y, repr, b));
    }
  }

  ghost function WithList<L, N>(y: Layout<L, N>, id: L, h: Elem, t: Elem): Layout<L, N> {
    y.(heads := y.heads[id := h], tails := y.tails[id := t], content := y.content[id := []])
  }

  lemma NewList<L(!new), N(!new)>(y: Layout<L, N>, repr: set<Elem>, id: L, h: Elem, t: Elem)
    requires Shape(y, repr) && id !in y.content && h !in repr && t !in repr && h !in y.nodeOf && t !in y.nodeOf
    ensures var y', repr' := WithList(y, id, h, t), repr + {h, t};
      && Shape(y', repr') && Chain(y', repr', id) == [h, t]
      && forall id' :: id' in y.content ==> Chain(y', repr', id') == Chain(y, repr, id')
  {
    var y', repr' := WithList(y, id, h, t), repr + {h, t};
    NewListChains(y, repr, id, h, t);
    hide Chain, Named, Sentinels, Apart;
    forall a, b | a in y'.content && b in y'.content && a != b ensures Apart(Chain(y', repr', a), Chain(y', repr', b)) {
      if a == id {
        ApartFresh(Chain(y, repr, b), repr, h, t);
      } else if b == id {
        ApartFresh(Chain(y, repr, a), repr, h, t);
      } else {
        assert Apart(Chain(y, repr, a), Chain(y, repr, b));
      }
    }
  }

  lemma ApartFresh(c: seq<Elem>, repr: set<Elem>, h: Elem, t: Elem)
    requires (forall i :: 0 <= i < |c| ==> c[i] in repr) && h !in repr && t !in repr
    ensures Apart(c, [h, t]) && Apart([h, t], c)
  {
  }

  lemma NewListChains<L(!new), N(!new)>(y: Layout<L, N>, repr: set<Elem>, id: L, h: Elem, t: Elem)
    requires Named(y, repr) && Sentinels(y, repr)
    requires id !in y.content && h !in repr && t !in repr && h !in y.nodeOf && t !in y.nodeOf
    ensures var y', repr' := WithList(y, id, h, t), repr + {h, t};
      && Named(y', repr') && Sentinels(y', repr') && Chain(y', repr', id) == [h, t]
      && forall id' :: id' in y.content ==> Chain(y', repr', id') == Chain(y, repr, id')
  {
    assert Elems(y.elemOf, []) == [];
    hide Elems;
  }

  ghost function WithNode<L, N>(y: Layout<L, N>, n: N, e: Elem): Layout<L, N> {
    y.(elemOf := y.elemOf[n := e], nodeOf := y.nodeOf[e := n])
  }

  lemma SameElems<N>(elemOf: map<N, Elem>, n: N, e: Elem, names: seq<N>)
    requires (forall k :: 0 <= k < |names| ==> names[k] in elemOf) && n !in elemOf
    ensures Elems(elemOf[n := e], names) == Elems(elemOf, names)
  {
  }

  lemma NewNode<L(!new), N(!new)>(y: Layout<L, N>, repr: set<Elem>, n: N, e: Elem)
    requires Shape(y, repr) && n !in y.elemOf && e !in repr && e !in y.nodeOf
    ensures var y', repr' := WithNode(y, n, e), repr + {e};
      && Shape(y', repr')
      && (forall id :: id in y.content ==> Chain(y', repr', id) == Chain(y, repr, id))
      && (forall id :: id in y.content ==> n !in y.content[id])
  {
    hide Elems;
    var y', repr' := WithNode(y, n, e), repr + {e};
    assert Named(y', repr') && Sentinels(y', repr');
    forall id | id in y.content ensures Chain(y', repr', id) == Chain(y, repr, id) {
      SameElems(y.elemOf, n, e, y.content[id]);
    }
  }

  lemma ElemAt<L(!new), N(!new)>(y: Layout<L, N>, repr: set<Elem>, id: L, p: nat)
    requires Named(y, repr) && Sentinels(y, repr) && id in y.content && p < |y.content[id]|
    ensures |Chain(y, repr, id)| == |y.content[id]| + 2
    ensures y.content[id][p] in y.elemOf && Chain(y, repr, id)[p + 1] == y.elemOf[y.content[id][p]]
    ensures Chain(y, repr, id)[p + 1] in y.nodeOf && y.nodeOf[Chain(y, repr, id)[p + 1]] == y.content[id][p]
    ensures Chain(y, repr, id)[p + 1] != y.tails[id]
  {
  }

  ghost predicate Untouched(c: seq<Elem>, changed: seq<Elem>) {
    forall i :: 0 <= i < |c| ==> c[i] !in changed
  }

  lemma UntouchedEnds(c: seq<Elem>, d: seq<Elem>)
    requires Untouched(c, d) && |d| >= 2
    ensures Untouched(c, [d[0], d[|d| - 1]])
  {
  }

  lemma OtherChain<L(!new), N(!new)>(y: Layout<L, N>, repr: set<Elem>, id: L, id': L)
    requires Shape(y, repr) && id in y.content && id' in y.content && id != id'
    ensures Untouched(Chain(y, repr, id'), Chain(y, repr, id))
  {
    hide Chain;
    assert Apart(Chain(y, repr, id), Chain(y, repr, id'));
  }
}
