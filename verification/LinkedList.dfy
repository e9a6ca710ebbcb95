/** The doubly linked list of lib/kernel/list.c: elements between two sentinels, with
    links rewritten in place.  A ghost sequence names the elements from the head to the
    tail; every operation is specified by what it does to that sequence. */
module LinkedList {

  class Elem {
    var prev: Elem?
    var next: Elem?

    constructor ()
      ensures prev == null && next == null
    {
      prev, next := null, null;
    }
  }

  ghost predicate Distinct(c: seq<Elem>) {
    forall i, j :: 0 <= i < j < |c| ==> c[i] != c[j]
  }

  /** `c` runs from a head to a tail, and `next` and `prev` mirror each other. */
  ghost predicate Linked(c: seq<Elem>)
    reads c
  {
    && |c| >= 2
    && Distinct(c)
    && c[0].prev == null
    && c[|c| - 1].next == null
    && (forall i {:trigger c[i].next} :: 0 <= i < |c| - 1 ==> c[i].next == c[i + 1])
    && (forall i {:trigger c[i].prev} :: 0 < i < |c| ==> c[i].prev == c[i - 1])
  }

  /** The neighbours of element `i`. */
  lemma LinkAt(c: seq<Elem>, i: nat)
    requires Linked(c) && i < |c|
    ensures i > 0 ==> c[i].prev == c[i - 1]
    ensures i < |c| - 1 ==> c[i].next == c[i + 1]
  {
  }

  lemma IndexUnique(c: seq<Elem>, i: nat, j: nat)
    requires Distinct(c) && i < |c| && j < |c| && c[i] == c[j]
    ensures i == j
  {
  }

  // ----- insertion and removal -----

  ghost function Inserted(c: seq<Elem>, i: nat, e: Elem): seq<Elem>
    requires i <= |c|
  {
    c[..i] + [e] + c[i..]
  }

  /** `list_insert`: `elem` goes just before `before`. */
  method Insert(before: Elem, elem: Elem, ghost c: seq<Elem>, ghost i: nat, ghost c': seq<Elem>)
    requires Linked(c) && 0 < i < |c| && c[i] == before && elem !in c && c' == Inserted(c, i, elem)
    modifies c, elem
    ensures Linked(c')
  {
    assert before.prev == c[i - 1];
    elem.prev := before.prev;
    elem.next := before;
    before.prev.next := elem;
    before.prev := elem;
  }

  ghost function Removed(c: seq<Elem>, i: nat): seq<Elem>
    requires i < |c|
  {
    c[..i] + c[i + 1..]
  }

  /** `list_remove`: returns the element that followed. */
  method Remove(elem: Elem, ghost c: seq<Elem>, ghost i: nat, ghost c': seq<Elem>) returns (following: Elem)
    requires Linked(c) && 0 < i < |c| - 1 && c[i] == elem && c' == Removed(c, i)
    modifies c
    ensures Linked(c') && following == c[i + 1]
    ensures elem.prev == old(elem.prev) && elem.next == old(elem.next)
  {
    assert elem.next == c[i + 1] && elem.prev == c[i - 1];
    elem.prev.next := elem.next;
    elem.next.prev := elem.prev;
    following := elem.next;
  }

  // ----- splice -----

  /** Elements `j` up to `k` moved just before element `i`. */
  ghost function Moved(c: seq<Elem>, i: nat, j: nat, k: nat): seq<Elem>
    requires j <= k <= |c| && i <= |c| && (i <= j || k <= i)
  {
    if i <= j then c[..i] + c[j..k] + c[i..j] + c[k..]
    else c[..j] + c[k..i] + c[j..k] + c[i..]
  }

  /** Elements linked to each other, whatever is at the ends. */
  ghost predicate Segment(s: seq<Elem>)
    reads s
  {
    && Distinct(s)
    && (forall i {:trigger s[i].next} :: 0 <= i < |s| - 1 ==> s[i].next == s[i + 1])
    && (forall i {:trigger s[i].prev} :: 0 < i < |s| ==> s[i].prev == s[i - 1])
  }

  ghost predicate Apart(c: seq<Elem>, d: seq<Elem>) {
    forall i, j :: 0 <= i < |c| && 0 <= j < |d| ==> c[i] != d[j]
  }

  /** Cleanly remove a segment from its list. */
  method Detach(first: Elem, end: Elem, ghost c: seq<Elem>, ghost j: nat, ghost k: nat)
    requires Linked(c) && 0 < j < k < |c| && c[j] == first && c[k - 1] == end
    modifies c[j - 1], c[k]
    ensures Linked(Rest(c, j, k)) && Segment(c[j..k])
    ensures c[j - 1].prev == old(c[j - 1].prev) && c[k].next == old(c[k].next)
  {
    assert first.prev == c[j - 1] && end.next == c[k];
    first.prev.next := end.next;
    end.next.prev := first.prev;
    ghost var r := Rest(c, j, k);
    assert forall i :: j <= i < |r| ==> r[i] == c[i + (k - j)];
  }

  /** Put a segment into a list. */
  method Attach(before: Elem, first: Elem, end: Elem, ghost c: seq<Elem>, ghost i: nat, ghost s: seq<Elem>,
                ghost c': seq<Elem>)
    requires Linked(c) && 0 < i < |c| && c[i] == before
    requires Segment(s) && s != [] && s[0] == first && s[|s| - 1] == end
    requires Apart(c, s)
    requires c' == c[..i] + s + c[i..]
    modifies c[i - 1], before, first, end
    ensures Linked(c')
  {
    assert before.prev == c[i - 1];
    first.prev := before.prev;
    end.next := before;
    before.prev.next := first;
    before.prev := end;
  }

  /** The chain without the segment, and the place in it where the segment goes. */
  ghost function Rest(c: seq<Elem>, j: nat, k: nat): seq<Elem>
    requires j <= k <= |c|
  {
    c[..j] + c[k..]
  }

  ghost function Place(i: nat, j: nat, k: nat): int { if k <= i then i - (k - j) else i }

  lemma PlaceInRest(c: seq<Elem>, i: nat, j: nat, k: nat)
    requires 0 < i < |c| && 0 < j < k < |c| && (i < j || k <= i) && Distinct(c)
    ensures 0 < Place(i, j, k) < |Rest(c, j, k)| && Rest(c, j, k)[Place(i, j, k)] == c[i]
    ensures Apart(Rest(c, j, k), c[j..k])
  {
  }

  lemma MovedSequence(c: seq<Elem>, i: nat, j: nat, k: nat)
    requires 0 < i < |c| && 0 < j <= k < |c| && (i < j || k <= i)
    ensures var r := Rest(c, j, k); var at := Place(i, j, k);
      0 <= at <= |r| && r[..at] + c[j..k] + r[at..] == Moved(c, i, j, k)
    ensures j == k ==> Moved(c, i, j, k) == c
  {
    var r := c[..j] + c[k..];
    if i < j {
      assert r[..i] == c[..i] && r[i..] == c[i..j] + c[k..];
    } else {
      var at := i - (k - j);
      assert r[..at] == c[..j] + c[k..i] && r[at..] == c[i..];
    }
  }

  /** `list_splice` within one list: elements `j` up to `k` go before element `i`. */
  method Splice(before: Elem, first: Elem, last: Elem, ghost c: seq<Elem>, ghost i: nat, ghost j: nat, ghost k: nat,
                ghost c': seq<Elem>)
    requires Linked(c) && 0 < i < |c| && 0 < j <= k < |c| && (i < j || k <= i)
    requires c[i] == before && c[j] == first && c[k] == last
    requires c' == Moved(c, i, j, k)
    modifies c
    ensures Linked(c')
  {
    MovedSequence(c, i, j, k);
    if first == last {
      IndexUnique(c, j, k);
    } else {
      SpliceSome(before, first, last, c, i, j, k, c');
    }
  }

  method SpliceSome(before: Elem, first: Elem, last: Elem, ghost c: seq<Elem>, ghost i: nat, ghost j: nat, ghost k: nat,
                    ghost c': seq<Elem>)
    requires Linked(c) && 0 < i < |c| && 0 < j < k < |c| && (i < j || k <= i)
    requires c[i] == before && c[j] == first && c[k] == last
    requires var r := Rest(c, j, k); var at := Place(i, j, k);
      0 <= at <= |r| && c' == r[..at] + c[j..k] + r[at..]
    modifies c
    ensures Linked(c')
  {
    PlaceInRest(c, i, j, k);
    LinkAt(c, k);
    var end := last.prev;
    Detach(first, end, c, j, k);
    Attach(before, first, end, Rest(c, j, k), Place(i, j, k), c[j..k], c');
  }

  /** `list_splice` between two lists: elements `j` up to `k` of chain `d` leave it and go
      before element `i` of chain `c`. */
  method SpliceAcross(before: Elem, first: Elem, last: Elem,
                      ghost c: seq<Elem>, ghost i: nat, ghost d: seq<Elem>, ghost j: nat, ghost k: nat)
    requires Linked(c) && 0 < i < |c| && Linked(d) && 0 < j <= k < |d| && Apart(c, d)
    requires c[i] == before && d[j] == first && d[k] == last
    modifies c, d
    ensures Linked(c[..i] + d[j..k] + c[i..]) && Linked(d[..j] + d[k..])
  {
    if first == last {
      IndexUnique(d, j, k);
      assert c[..i] + d[j..k] + c[i..] == c && d[..j] + d[k..] == d;
    } else {
      LinkAt(d, k);
      var end := last.prev;
      Detach(first, end, d, j, k);
      Attach(before, first, end, c, i, d[j..k], c[..i] + d[j..k] + c[i..]);
    }
  }
}
