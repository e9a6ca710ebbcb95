/** `list_reverse` and `list_unique` of lib/kernel/list.c. */
module ListUnique {
  import opened MergeRuns
  import opened LinkedList
  import opened ListSort

  // ----- reversing -----

  ghost function Reversed<T>(s: seq<T>): (r: seq<T>)
    ensures |r| == |s|
  {
    seq(|s|, i requires 0 <= i < |s| => s[|s| - 1 - i])
  }

  /** Elements 1 up to `i` of the chain have their links exchanged, the others do not. */
  ghost predicate Turned(c: seq<Elem>, i: nat)
    reads c
  {
    && 1 <= i < |c|
    && (forall j {:trigger c[j].next} :: 0 < j < i ==> c[j].next == c[j - 1])
    && (forall j {:trigger c[j].prev} :: 0 < j < i ==> c[j].prev == c[j + 1])
    && (forall j {:trigger c[j].next} :: i <= j < |c| - 1 ==> c[j].next == c[j + 1])
    && (forall j {:trigger c[j].prev} :: i <= j < |c| ==> c[j].prev == c[j - 1])
    && c[0].prev == null && c[0].next == c[1] && c[|c| - 1].next == null
  }

  /** The loop of `list_reverse`. */
  method TurnAll(head: Elem, tail: Elem, ghost c: seq<Elem>)
    requires Linked(c) && c[0] == head && c[|c| - 1] == tail
    modifies c
    ensures Turned(c, |c| - 1)
  {
    var e := head.next;
    ghost var i := 1;
    while e != tail
      invariant Turned(c, i) && e == c[i]
      decreases |c| - i
    {
      e.prev, e.next := e.next, e.prev;
      i := i + 1;
      e := e.prev;
    }
    IndexUnique(c, i, |c| - 1);
  }

  /** The two exchanges after the loop. */
  method TurnEnds(head: Elem, tail: Elem, ghost c: seq<Elem>, ghost n: seq<Elem>)
    requires c == [head] + n + [tail] && n != [] && Distinct(c) && Turned(c, |c| - 1)
    modifies c
    ensures Linked([head] + Reversed(n) + [tail])
  {
    ghost var m := |c|;
    assert c[m - 1] == tail && c[0] == head;
    var first, last := tail.prev, head.next;
    assert first == c[m - 2] && last == c[1];
    head.next, tail.prev := first, last;
    first.prev, last.next := last.next, first.prev;
    ghost var c' := [head] + Reversed(n) + [tail];
    assert forall j :: 0 < j < m - 1 ==> c'[j] == c[m - 1 - j];
  }

  method Reverse(l: List)
    requires l.Valid()
    modifies l, l.Chain()
    ensures l.Valid() && l.nodes == Reversed(old(l.nodes))
  {
    LinkAt(l.Chain(), 0);
    if l.head.next != l.tail {
      TurnAll(l.head, l.tail, l.Chain());
      TurnEnds(l.head, l.tail, l.Chain(), l.nodes);
      l.nodes := Reversed(l.nodes);
    }
  }

  // ----- removing duplicates -----

  /** What stays and what goes of `x` and the elements behind it: an element goes if it is
      equivalent to the last one that stays. */
  ghost function Kept<T>(less: (T, T) -> bool, x: T, rest: seq<T>): seq<T>
    decreases |rest|
  {
    if rest == [] then [x]
    else if Equivalent(less, x, rest[0]) then Kept(less, x, rest[1..])
    else [x] + Kept(less, rest[0], rest[1..])
  }

  ghost function Gone<T>(less: (T, T) -> bool, x: T, rest: seq<T>): seq<T>
    decreases |rest|
  {
    if rest == [] then []
    else if Equivalent(less, x, rest[0]) then [rest[0]] + Gone(less, x, rest[1..])
    else Gone(less, rest[0], rest[1..])
  }

  ghost function Survivors<T>(less: (T, T) -> bool, s: seq<T>): seq<T> {
    if s == [] then [] else Kept(less, s[0], s[1..])
  }

  ghost function Duplicates<T>(less: (T, T) -> bool, s: seq<T>): seq<T> {
    if s == [] then [] else Gone(less, s[0], s[1..])
  }

  /** Nothing is lost. */
  lemma {:induction false} KeptPlusGone<T>(less: (T, T) -> bool, x: T, rest: seq<T>)
    ensures multiset(Kept(less, x, rest)) + multiset(Gone(less, x, rest)) == multiset([x] + rest)
    decreases |rest|
  {
    if rest != [] {
      KeptStep(less, x, rest);
      hide Kept, Gone;
      var r, t := rest[0], rest[1..];
      assert rest == [r] + t;
      ConsMultiset(r, t);
      ConsMultiset(x, rest);
      if Equivalent(less, x, r) {
        KeptPlusGone(less, x, t);
        ConsMultiset(x, t);
        ConsMultiset(r, Gone(less, x, t));
        Regroup(multiset(Kept(less, x, t)), multiset(Gone(less, x, t)), multiset{x}, multiset{r}, multiset(t));
      } else {
        KeptPlusGone(less, r, t);
        ConsMultiset(x, Kept(less, r, t));
        Regroup(multiset(Kept(less, r, t)), multiset(Gone(less, r, t)), multiset{r}, multiset{x}, multiset(t));
      }
    }
  }

  lemma Regroup<T>(k: multiset<T>, g: multiset<T>, a: multiset<T>, b: multiset<T>, t: multiset<T>)
    requires k + g == a + t
    ensures k + (b + g) == a + (b + t) && (b + k) + g == b + (a + t)
  {
    assert k + (b + g) == b + (k + g);
    assert (b + k) + g == b + (k + g);
  }

  lemma ConsMultiset<T>(x: T, s: seq<T>)
    ensures multiset([x] + s) == multiset{x} + multiset(s)
  {
  }

  lemma KeptStep<T>(less: (T, T) -> bool, x: T, rest: seq<T>)
    requires rest != []
    ensures var r, t := rest[0], rest[1..];
      if Equivalent(less, x, r) then
        Kept(less, x, rest) == Kept(less, x, t) && Gone(less, x, rest) == [r] + Gone(less, x, t)
      else
        Kept(less, x, rest) == [x] + Kept(less, r, t) && Gone(less, x, rest) == Gone(less, r, t)
  {
  }

  /** No two neighbours that stay are equivalent. */
  ghost predicate NoEqualNeighbours<T>(less: (T, T) -> bool, s: seq<T>) {
    forall i {:trigger s[i]} :: 0 <= i < |s| - 1 ==> !Equivalent(less, s[i], s[i + 1])
  }

  lemma {:induction false} KeptNeighbours<T>(less: (T, T) -> bool, x: T, rest: seq<T>)
    ensures Kept(less, x, rest) != [] && Kept(less, x, rest)[0] == x
    ensures NoEqualNeighbours(less, Kept(less, x, rest))
    decreases |rest|
  {
    if rest != [] {
      if Equivalent(less, x, rest[0]) {
        KeptNeighbours(less, x, rest[1..]);
      } else {
        KeptNeighbours(less, rest[0], rest[1..]);
      }
    }
  }

  /** One more element stays exactly if it is not equivalent to the last one that stayed. */
  lemma {:induction false} KeptNext<T>(less: (T, T) -> bool, x: T, rest: seq<T>, y: T)
    ensures var kept := Kept(less, x, rest);
      && kept != []
      && Kept(less, x, []) == [x] && Gone(less, x, []) == []
      && if Equivalent(less, kept[|kept| - 1], y) then
           Kept(less, x, rest + [y]) == kept && Gone(less, x, rest + [y]) == Gone(less, x, rest) + [y]
         else Kept(less, x, rest + [y]) == kept + [y] && Gone(less, x, rest + [y]) == Gone(less, x, rest)
    decreases |rest|
  {
    KeptStep(less, x, rest + [y]);
    if rest == [] {
      assert rest + [y] == [y];
      assert Kept(less, x, [y][1..]) == [x] && Kept(less, y, [y][1..]) == [y];
    } else {
      KeptStep(less, x, rest);
      assert (rest + [y])[1..] == rest[1..] + [y];
      KeptNext(less, if Equivalent(less, x, rest[0]) then x else rest[0], rest[1..], y);
    }
  }

  ghost predicate StrictlySorted<T>(less: (T, T) -> bool, s: seq<T>) {
    forall i, j :: 0 <= i < j < |s| ==> less(s[i], s[j])
  }

  lemma {:induction false} KeptMembers<T>(less: (T, T) -> bool, x: T, rest: seq<T>)
    ensures forall y :: y in Kept(less, x, rest) ==> y in [x] + rest
    decreases |rest|
  {
    if rest != [] {
      assert rest == [rest[0]] + rest[1..];
      KeptMembers(less, if Equivalent(less, x, rest[0]) then x else rest[0], rest[1..]);
    }
  }

  /** Everything has an equivalent among what stays. */
  lemma {:induction false} KeptCovers<T>(less: (T, T) -> bool, x: T, rest: seq<T>, y: T)
    requires y in [x] + rest && !less(y, y)
    ensures exists z :: z in Kept(less, x, rest) && Equivalent(less, y, z)
    decreases |rest|
  {
    KeptNeighbours(less, x, rest);
    if y == x {
      assert Kept(less, x, rest)[0] in Kept(less, x, rest);
    } else if Equivalent(less, x, rest[0]) {
      if y == rest[0] {
        assert Kept(less, x, rest)[0] in Kept(less, x, rest);
      } else {
        assert y in rest[1..];
        KeptCovers(less, x, rest[1..], y);
      }
    } else {
      assert [rest[0]] + rest[1..] == rest;
      KeptCovers(less, rest[0], rest[1..], y);
      var z :| z in Kept(less, rest[0], rest[1..]) && Equivalent(less, y, z);
      assert z in Kept(less, x, rest);
    }
  }

  lemma SkipSecond<T>(less: (T, T) -> bool, s: seq<T>)
    requires |s| >= 2 && Sorted(less, s) && StrictWeakOrder(less, s)
    ensures Sorted(less, [s[0]] + s[2..]) && StrictWeakOrder(less, [s[0]] + s[2..])
    ensures Sorted(less, s[1..]) && StrictWeakOrder(less, s[1..])
  {
    var t := [s[0]] + s[2..];
    assert forall i :: 0 < i < |t| ==> t[i] == s[i + 1];
    forall y | y in t ensures y in s {
      var i :| 0 <= i < |t| && t[i] == y;
    }
  }

  /** On a sorted list, what stays is strictly increasing. */
  lemma {:induction false} KeptStrict<T>(less: (T, T) -> bool, x: T, rest: seq<T>)
    requires StrictWeakOrder(less, [x] + rest) && Sorted(less, [x] + rest)
    ensures StrictlySorted(less, Kept(less, x, rest))
    decreases |rest|
  {
    if rest != [] {
      var s, r := [x] + rest, rest[0];
      SkipSecond(less, s);
      assert s[2..] == rest[1..] && s[1..] == rest == [r] + rest[1..];
      if Equivalent(less, x, r) {
        KeptStrict(less, x, rest[1..]);
      } else {
        KeptStrict(less, r, rest[1..]);
        KeptMembers(less, r, rest[1..]);
        forall y | y in Kept(less, r, rest[1..]) ensures less(x, y) {
          Above(less, s, y);
        }
      }
    }
  }

  lemma Above<T>(less: (T, T) -> bool, s: seq<T>, y: T)
    requires |s| >= 2 && Sorted(less, s) && StrictWeakOrder(less, s) && !Equivalent(less, s[0], s[1]) && y in s[1..]
    ensures less(s[0], y)
  {
    var i :| 1 <= i < |s| && s[i] == y;
    assert s[0] in s && s[1] in s && y in s;
    assert i > 1 ==> !less(y, s[1]);
  }

  /** `list_remove` from this list. */
  method RemoveAt(l: List, elem: Elem, ghost p: nat)
    requires l.Valid() && p < |l.nodes| && l.nodes[p] == elem
    modifies l, l.Chain()
    ensures l.Valid() && l.nodes == old(l.nodes)[..p] + old(l.nodes)[p + 1..]
  {
    ghost var n, c := l.nodes, l.Chain();
    assert c[p + 1] == elem;
    assert Removed(c, p + 1) == [l.head] + (n[..p] + n[p + 1..]) + [l.tail];
    var following := Remove(elem, c, p + 1, Removed(c, p + 1));
    l.nodes := n[..p] + n[p + 1..];
  }

  ghost predicate Disjoint(l: List, d: List?)
    reads l, d
  {
    d != null ==> l != d && forall e :: e in l.Chain() ==> e !in d.Chain()
  }

  /** Two lists without a common element, all within `all`; the second may be absent. */
  ghost predicate Pair(l: List, d: List?, all: set<Elem>)
    reads l, d, all
  {
    && Disjoint(l, d)
    && (forall e :: e in l.Chain() ==> e in all)
    && l.Valid()
    && (d != null ==> (forall e :: e in d.Chain() ==> e in all) && d.Valid())
  }

  /** One duplicate goes from one list to the end of the other, if there is one. */
  method MoveToEnd(l: List, d: List?, elem: Elem, ghost p: nat, ghost all: set<Elem>)
    requires Pair(l, d, all) && p < |l.nodes| && l.nodes[p] == elem
    modifies l, d, all
    ensures Pair(l, d, all) && l.nodes == old(l.nodes)[..p] + old(l.nodes)[p + 1..]
    ensures d != null ==> d.nodes == old(d.nodes) + [elem]
  {
    ghost var c := l.Chain();
    assert c[p + 1] == elem;
    RemovedMembers(c, p + 1);
    hide Distinct;
    if d == null {
      RemoveAt(l, elem, p);
      assert l.Chain() == Removed(c, p + 1);
    } else {
      ghost var dc := d.Chain();
      assert forall i :: 0 <= i < |dc| ==> dc[i] !in c;
      RemoveAt(l, elem, p);
      ghost var lc := l.Chain();
      assert lc == Removed(c, p + 1);
      assert d.Chain() == dc && Linked(dc);
      d.PushBack(elem);
      assert l.Chain() == lc;
      assert d.Chain() == [d.head] + (old(d.nodes) + [elem]) + [d.tail];
      JoinMembers(d.head, old(d.nodes), elem, d.tail);
    }
  }

  lemma RemovedMembers(c: seq<Elem>, i: nat)
    requires Distinct(c) && i < |c|
    ensures forall e :: e in Removed(c, i) ==> e in c && e != c[i]
  {
  }

  lemma JoinMembers(h: Elem, n: seq<Elem>, e: Elem, t: Elem)
    ensures forall x :: x in [h] + (n + [e]) + [t] <==> x in [h] + n + [t] || x == e
  {
  }

  /** What `list_unique` still has to do from position `p` on. */
  ghost predicate Halfway(less: (Elem, Elem) -> bool, s: seq<Elem>, n: seq<Elem>, p: nat) {
    && p < |n|
    && n[..p] + Kept(less, n[p], n[p + 1..]) == Survivors(less, s)
  }

  lemma HalfwayDrop(less: (Elem, Elem) -> bool, s: seq<Elem>, n: seq<Elem>, p: nat, n': seq<Elem>)
    requires Halfway(less, s, n, p) && p + 1 < |n| && Equivalent(less, n[p], n[p + 1])
    requires n' == n[..p + 1] + n[p + 2..]
    ensures Halfway(less, s, n', p)
    ensures Gone(less, n[p], n[p + 1..]) == [n[p + 1]] + Gone(less, n'[p], n'[p + 1..])
  {
    KeptStep(less, n[p], n[p + 1..]);
    hide Kept, Gone, Survivors;
    assert n[p + 1..][1..] == n[p + 2..] == n'[p + 1..];
    assert n'[..p] == n[..p];
  }

  lemma HalfwayKeep(less: (Elem, Elem) -> bool, s: seq<Elem>, n: seq<Elem>, p: nat)
    requires Halfway(less, s, n, p) && p + 1 < |n| && !Equivalent(less, n[p], n[p + 1])
    ensures Halfway(less, s, n, p + 1)
    ensures Gone(less, n[p], n[p + 1..]) == Gone(less, n[p + 1], n[p + 2..])
  {
    KeptStep(less, n[p], n[p + 1..]);
    hide Kept, Gone, Survivors;
    assert n[p + 1..][1..] == n[p + 2..];
    assert n[..p + 1] == n[..p] + [n[p]];
    assert n[..p] + ([n[p]] + Kept(less, n[p + 1], n[p + 2..])) == n[..p + 1] + Kept(less, n[p + 1], n[p + 2..]);
  }

  /** `list_unique` is at position `p` of the list: `elem` stays, `following` comes next. */
  ghost predicate AtElem(l: List, elem: Elem, following: Elem, p: nat)
    reads l
  {
    p < |l.nodes| && elem == l.nodes[p] && following == l.Chain()[p + 2]
  }

  /** One test of the loop of `list_unique`. */
  method UniqueStep(l: List, d: List?, less: (Elem, Elem) -> bool, elem: Elem, following: Elem,
                    ghost s: seq<Elem>, ghost p: nat, ghost all: set<Elem>) returns (elem': Elem, ghost p': nat)
    requires Pair(l, d, all) && AtElem(l, elem, following, p) && p + 1 < |l.nodes| && Halfway(less, s, l.nodes, p)
    modifies l, d, all
    ensures Pair(l, d, all) && p' < |l.nodes| && Halfway(less, s, l.nodes, p') && elem' == l.nodes[p']
    ensures |l.nodes| - p' < old(|l.nodes|) - p
    ensures d != null ==>
      d.nodes + Gone(less, l.nodes[p'], l.nodes[p' + 1..]) ==
      old(d.nodes) + Gone(less, old(l.nodes)[p], old(l.nodes)[p + 1..])
  {
    hide Kept, Gone, Pair;
    ghost var n := l.nodes;
    elem', p' := elem, p;
    if !less(elem, following) && !less(following, elem) {
      HalfwayDrop(less, s, n, p, n[..p + 1] + n[p + 2..]);
      MoveToEnd(l, d, following, p + 1, all);
    } else {
      HalfwayKeep(less, s, n, p);
      elem', p' := following, p + 1;
    }
  }

  /** `list_next` within the list. */
  method NextOf(l: List, elem: Elem, ghost p: nat) returns (following: Elem)
    requires l.Valid() && p < |l.nodes| && elem == l.nodes[p]
    ensures AtElem(l, elem, following, p)
    ensures following == l.tail <==> p + 1 == |l.nodes|
  {
    LinkAt(l.Chain(), p + 1);
    following := elem.next;
    assert following == l.tail ==> p + 2 == |l.nodes| + 1 by {
      if following == l.tail {
        IndexUnique(l.Chain(), p + 2, |l.nodes| + 1);
      }
    }
  }

  /** `list_unique`: of each stretch of equivalent neighbours the first stays; the others are
      appended in order to the list for duplicates, if there is one. */
  method Unique(l: List, d: List?, less: (Elem, Elem) -> bool)
    requires l.Valid() && (d != null ==> d.Valid()) && Disjoint(l, d)
    modifies l, l.Chain(), d, if d != null then d.Chain() else []
    ensures l.Valid() && l.nodes == Survivors(less, old(l.nodes))
    ensures d != null ==> d.Valid() && d.nodes == old(d.nodes) + Duplicates(less, old(l.nodes))
  {
    hide Kept, Gone;
    LinkAt(l.Chain(), 0);
    if l.head.next == l.tail {
      IndexUnique(l.Chain(), 1, |l.nodes| + 1);
      return;
    }
    var elem := l.head.next;
    ghost var s := l.nodes;
    ghost var all := (set e | e in l.Chain()) + if d != null then (set e | e in d.Chain()) else {};
    UniqueLoop(l, d, less, elem, s, all);
  }

  method UniqueLoop(l: List, d: List?, less: (Elem, Elem) -> bool, first: Elem, ghost s: seq<Elem>,
                    ghost all: set<Elem>)
    requires Pair(l, d, all) && s != [] && l.nodes == s && first == s[0]
    modifies l, d, all
    ensures l.Valid() && l.nodes == Survivors(less, s)
    ensures d != null ==> d.Valid() && d.nodes == old(d.nodes) + Duplicates(less, s)
  {
    hide Kept, Gone, Survivors, Halfway, Pair;
    HalfwayStart(less, s);
    var elem := first;
    ghost var p: nat := 0;
    ghost var goal := if d != null then d.nodes + Duplicates(less, s) else [];
    var following := NextInPair(l, d, elem, p, all);
    while following != l.tail
      invariant Pair(l, d, all) && Halfway(less, s, l.nodes, p) && AtElem(l, elem, following, p)
      invariant following == l.tail <==> p + 1 == |l.nodes|
      invariant d != null ==> d.nodes + Gone(less, l.nodes[p], l.nodes[p + 1..]) == goal
      decreases |l.nodes| - p
    {
      elem, p := UniqueStep(l, d, less, elem, following, s, p, all);
      following := NextInPair(l, d, elem, p, all);
    }
    HalfwayEnd(less, s, l.nodes, p);
    PairParts(l, d, all);
  }

  method NextInPair(l: List, d: List?, elem: Elem, ghost p: nat, ghost all: set<Elem>) returns (following: Elem)
    requires Pair(l, d, all) && p < |l.nodes| && elem == l.nodes[p]
    ensures AtElem(l, elem, following, p)
    ensures following == l.tail <==> p + 1 == |l.nodes|
  {
    following := NextOf(l, elem, p);
  }

  lemma PairParts(l: List, d: List?, all: set<Elem>)
    requires Pair(l, d, all)
    ensures l.Valid() && (d != null ==> d.Valid())
  {
  }

  lemma HalfwayStart(less: (Elem, Elem) -> bool, s: seq<Elem>)
    requires s != []
    ensures Halfway(less, s, s, 0) && Duplicates(less, s) == Gone(less, s[0], s[1..])
  {
  }

  lemma HalfwayEnd(less: (Elem, Elem) -> bool, s: seq<Elem>, n: seq<Elem>, p: nat)
    requires Halfway(less, s, n, p) && p + 1 == |n|
    ensures n == Survivors(less, s) && Gone(less, n[p], n[p + 1..]) == []
  {
    assert n[p + 1..] == [];
    LastKept(less, n[p]);
    assert n == n[..p] + [n[p]];
  }

  lemma LastKept(less: (Elem, Elem) -> bool, x: Elem)
    ensures Kept(less, x, []) == [x] && Gone(less, x, []) == []
  {
  }
}
