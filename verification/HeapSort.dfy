/** Heapsort and binary search of lib/stdlib.c.  Heap positions count from 1, as in the
    source; an element is moved as a whole rather than byte by byte. */
module HeapSort {
  import opened Basics

  /** `cmp` is a strcmp()-type comparison of a total preorder. */
  ghost predicate TotalPreorder<T(!new)>(cmp: (T, T) -> int) {
    && (forall a, b :: cmp(a, b) > 0 <==> cmp(b, a) < 0)
    && (forall a, b, c :: cmp(a, b) <= 0 && cmp(b, c) <= 0 ==> cmp(a, c) <= 0)
  }

  ghost predicate Sorted<T>(cmp: (T, T) -> int, s: seq<T>) {
    forall j, k :: 0 <= j < k < |s| ==> cmp(s[j], s[k]) <= 0
  }

  // ----- heaps -----

  /** Position `j` is in the subtree of `i`. */
  ghost predicate Sub(i: nat, j: nat)
    decreases j
  {
    j == i || (j > i && Sub(i, j / 2))
  }

  /** Position `c`, if it is among the first `cnt`, is not above position `q`. */
  ghost predicate Below<T>(cmp: (T, T) -> int, s: seq<T>, cnt: nat, c: nat, q: nat)
    requires cnt <= |s|
  {
    1 <= c <= cnt && 1 <= q <= |s| ==> cmp(s[c - 1], s[q - 1]) <= 0
  }

  /** The subtree of `i` is a heap: nobody is above its parent. */
  ghost predicate HeapAt<T>(cmp: (T, T) -> int, s: seq<T>, i: nat, cnt: nat)
    requires cnt <= |s|
  {
    forall c: nat :: c != i && Sub(i, c) ==> Below(cmp, s, cnt, c, c / 2)
  }

  /** All positions from `lo` on are above their children. */
  ghost predicate HeapFrom<T>(cmp: (T, T) -> int, s: seq<T>, lo: nat, cnt: nat)
    requires cnt <= |s|
  {
    forall c: nat :: lo <= c / 2 ==> Below(cmp, s, cnt, c, c / 2)
  }

  /** The subtree of `i` is a heap but for the element at `p`, whose children are not above
      its parent. */
  ghost predicate Sifting<T>(cmp: (T, T) -> int, s: seq<T>, i: nat, p: nat, cnt: nat)
    requires cnt <= |s|
  {
    && 1 <= i <= p <= cnt && Sub(i, p)
    && (forall c: nat :: c != i && c / 2 != p && Sub(i, c) ==> Below(cmp, s, cnt, c, c / 2))
    && (p != i ==> Below(cmp, s, cnt, 2 * p, p / 2) && Below(cmp, s, cnt, 2 * p + 1, p / 2))
  }

  ghost function Swapped<T>(s: seq<T>, i: nat, j: nat): seq<T>
    requires 1 <= i <= |s| && 1 <= j <= |s|
  {
    s[i - 1 := s[j - 1]][j - 1 := s[i - 1]]
  }

  /** `max` is the position of the largest among `p` and its children. */
  ghost predicate Largest<T>(cmp: (T, T) -> int, s: seq<T>, p: nat, cnt: nat, max: nat)
    requires 1 <= p <= cnt <= |s|
  {
    && (max == p || max == 2 * p || max == 2 * p + 1) && max <= cnt
    && Below(cmp, s, cnt, p, max) && Below(cmp, s, cnt, 2 * p, max) && Below(cmp, s, cnt, 2 * p + 1, max)
  }

  lemma EdgeStep<T>(cmp: (T, T) -> int, s: seq<T>, i: nat, p: nat, cnt: nat, max: nat, c: nat)
    requires cnt <= |s| && Sifting(cmp, s, i, p, cnt) && Largest(cmp, s, p, cnt, max) && max != p
    requires c != i && Sub(i, c) && c / 2 != max
    ensures Below(cmp, Swapped(s, p, max), cnt, c, c / 2)
  {
    assert max / 2 == p;
    if c == p {
      assert Below(cmp, s, cnt, max, p / 2);
    } else if c / 2 == p {
      assert Below(cmp, s, cnt, c, max);
    } else {
      assert Below(cmp, s, cnt, c, c / 2);
    }
  }

  /** One step of `heapify`. */
  lemma SiftStep<T>(cmp: (T, T) -> int, s: seq<T>, i: nat, p: nat, cnt: nat, max: nat)
    requires cnt <= |s| && Sifting(cmp, s, i, p, cnt) && Largest(cmp, s, p, cnt, max) && max != p
    ensures Sifting(cmp, Swapped(s, p, max), i, max, cnt)
  {
    assert max / 2 == p && Sub(i, max);
    forall c: nat | c != i && c / 2 != max && Sub(i, c)
      ensures Below(cmp, Swapped(s, p, max), cnt, c, c / 2)
    {
      EdgeStep(cmp, s, i, p, cnt, max, c);
    }
    forall c: nat | c / 2 == max ensures Below(cmp, Swapped(s, p, max), cnt, c, p) {
      assert Sub(i, c);
      assert Below(cmp, s, cnt, c, c / 2);
    }
  }

  lemma SiftDone<T>(cmp: (T, T) -> int, s: seq<T>, i: nat, p: nat, cnt: nat)
    requires cnt <= |s| && Sifting(cmp, s, i, p, cnt) && Largest(cmp, s, p, cnt, p)
    ensures HeapAt(cmp, s, i, cnt)
  {
    forall c: nat | c != i && Sub(i, c) ensures Below(cmp, s, cnt, c, c / 2) {
      if c / 2 == p {
        assert c == 2 * p || c == 2 * p + 1;
      }
    }
  }

  /** The root of a heap is its largest element. */
  lemma {:induction false} RootIsMax<T(!new)>(cmp: (T, T) -> int, s: seq<T>, cnt: nat, k: nat)
    requires TotalPreorder(cmp) && 1 <= k <= cnt <= |s| && HeapFrom(cmp, s, 1, cnt)
    ensures cmp(s[k - 1], s[0]) <= 0
  {
    if k == 1 {
      assert cmp(s[0], s[0]) <= 0;
    } else {
      RootIsMax(cmp, s, cnt, k / 2);
      assert Below(cmp, s, cnt, k, k / 2);
    }
  }

  lemma {:induction false} SubSplit(i: nat, c: nat)
    requires i >= 1 && Sub(i, c) && c != i
    ensures Sub(2 * i, c) || Sub(2 * i + 1, c)
    decreases c
  {
    if c / 2 != i {
      SubSplit(i, c / 2);
    }
  }

  /** If both child subtrees are heaps, only the top can be out of place. */
  lemma SiftStart<T>(cmp: (T, T) -> int, s: seq<T>, i: nat, cnt: nat)
    requires 1 <= i <= cnt <= |s| && HeapAt(cmp, s, 2 * i, cnt) && HeapAt(cmp, s, 2 * i + 1, cnt)
    ensures Sifting(cmp, s, i, i, cnt)
  {
    forall c: nat | c != i && c / 2 != i && Sub(i, c) ensures Below(cmp, s, cnt, c, c / 2) {
      SubSplit(i, c);
    }
  }

  // ----- permutations -----

  /** The first `cnt` elements are permuted, the others stay. */
  ghost predicate Permuted<T>(s: seq<T>, t: seq<T>, cnt: nat) {
    && cnt <= |s| == |t|
    && multiset(s[..cnt]) == multiset(t[..cnt])
    && s[cnt..] == t[cnt..]
  }

  lemma SwapPermutes<T>(s: seq<T>, cnt: nat, i: nat, j: nat)
    requires 1 <= i <= cnt <= |s| && 1 <= j <= cnt
    ensures Permuted(s, Swapped(s, i, j), cnt)
  {
    var u := s[..cnt];
    assert Swapped(s, i, j)[..cnt] == u[i - 1 := u[j - 1]][j - 1 := u[i - 1]];
  }

  lemma PermutedTrans<T>(s: seq<T>, t: seq<T>, u: seq<T>, cnt: nat)
    requires Permuted(s, t, cnt) && Permuted(t, u, cnt)
    ensures Permuted(s, u, cnt)
  {
  }

  lemma PermutedMore<T>(s: seq<T>, t: seq<T>, cnt: nat, more: nat)
    requires Permuted(s, t, cnt) && cnt <= more <= |s|
    ensures Permuted(s, t, more)
  {
    assert s[..more] == s[..cnt] + s[cnt..][..more - cnt];
    assert t[..more] == t[..cnt] + t[cnt..][..more - cnt];
    assert s[more..] == s[cnt..][more - cnt..];
    assert t[more..] == t[cnt..][more - cnt..];
  }

  // ----- the methods -----

  /** `do_swap`. */
  method Swap<T>(a: array<T>, i: nat, j: nat)
    requires 1 <= i <= a.Length && 1 <= j <= a.Length
    modifies a
    ensures a[..] == Swapped(old(a[..]), i, j)
  {
    a[i - 1], a[j - 1] := a[j - 1], a[i - 1];
  }

  /** Outside the subtree of `i` within the first `cnt`, nothing changed. */
  ghost predicate SameOutside<T>(s: seq<T>, t: seq<T>, i: nat, cnt: nat) {
    && |s| == |t|
    && forall c: nat :: 1 <= c <= |s| && !(Sub(i, c) && c <= cnt) ==> t[c - 1] == s[c - 1]
  }

  /** The choice in `heapify`. */
  method FindLargest<T(!new)>(a: array<T>, p: nat, cnt: nat, cmp: (T, T) -> int) returns (max: nat)
    requires TotalPreorder(cmp) && 1 <= p <= cnt <= a.Length
    ensures Largest(cmp, a[..], p, cnt, max)
  {
    var left, right := 2 * p, 2 * p + 1;
    max := p;
    if left <= cnt && cmp(a[left - 1], a[max - 1]) > 0 {
      max := left;
    }
    if right <= cnt && cmp(a[right - 1], a[max - 1]) > 0 {
      max := right;
    }
  }

  /** `heapify`: if both child subtrees of `i` are heaps, the subtree of `i` becomes one. */
  method Heapify<T(!new)>(a: array<T>, i: nat, cnt: nat, cmp: (T, T) -> int)
    requires TotalPreorder(cmp) && 1 <= i <= cnt <= a.Length
    requires HeapAt(cmp, a[..], 2 * i, cnt) && HeapAt(cmp, a[..], 2 * i + 1, cnt)
    modifies a
    ensures HeapAt(cmp, a[..], i, cnt)
    ensures Permuted(old(a[..]), a[..], cnt) && SameOutside(old(a[..]), a[..], i, cnt)
  {
    hide Sifting, HeapAt, TotalPreorder, Largest, Below, Permuted, SameOutside;
    ghost var s0 := a[..];
    SiftStart(cmp, a[..], i, cnt);
    NothingMoved(s0, i, cnt);
    var p := i;
    while true
      invariant 1 <= p <= cnt && Sifting(cmp, a[..], i, p, cnt)
      invariant Permuted(s0, a[..], cnt) && SameOutside(s0, a[..], i, cnt)
      decreases cnt - p
    {
      ghost var s := a[..];
      var max := FindLargest(a, p, cnt, cmp);
      LargestRange(cmp, s, p, cnt, max);
      if max == p {
        SiftDone(cmp, s, i, p, cnt);
        return;
      }
      SiftStep(cmp, s, i, p, cnt, max);
      StepFrame(cmp, s0, s, i, p, cnt, max);
      Swap(a, p, max);
      p := max;
    }
  }

  lemma NothingMoved<T>(s: seq<T>, i: nat, cnt: nat)
    requires cnt <= |s|
    ensures Permuted(s, s, cnt) && SameOutside(s, s, i, cnt)
  {
  }

  lemma LargestRange<T>(cmp: (T, T) -> int, s: seq<T>, p: nat, cnt: nat, max: nat)
    requires 1 <= p <= cnt <= |s| && Largest(cmp, s, p, cnt, max)
    ensures p <= max <= cnt
  {
  }

  lemma StepFrame<T>(cmp: (T, T) -> int, s0: seq<T>, s: seq<T>, i: nat, p: nat, cnt: nat, max: nat)
    requires cnt <= |s| && Sifting(cmp, s, i, p, cnt) && Largest(cmp, s, p, cnt, max) && max != p
    requires Permuted(s0, s, cnt) && SameOutside(s0, s, i, cnt)
    ensures Permuted(s0, Swapped(s, p, max), cnt) && SameOutside(s0, Swapped(s, p, max), i, cnt)
  {
    assert max / 2 == p && Sub(i, max);
    SwapPermutes(s, cnt, p, max);
    PermutedTrans(s0, s, Swapped(s, p, max), cnt);
  }

  // ----- building the heap -----

  lemma {:induction false} SubAbove(i: nat, c: nat)
    requires Sub(i, c)
    ensures c >= i && (c != i ==> c / 2 >= i)
    decreases c
  {
    if c != i {
      SubAbove(i, c / 2);
    }
  }

  lemma ChildHeaps<T>(cmp: (T, T) -> int, s: seq<T>, i: nat, cnt: nat)
    requires 1 <= i && cnt <= |s| && HeapFrom(cmp, s, i + 1, cnt)
    ensures HeapAt(cmp, s, 2 * i, cnt) && HeapAt(cmp, s, 2 * i + 1, cnt)
  {
    forall h: nat, c: nat | (h == 2 * i || h == 2 * i + 1) && c != h && Sub(h, c)
      ensures Below(cmp, s, cnt, c, c / 2)
    {
      SubAbove(h, c);
    }
  }

  lemma HeapGrows<T>(cmp: (T, T) -> int, s: seq<T>, t: seq<T>, i: nat, cnt: nat)
    requires 1 <= i && cnt <= |s| && HeapFrom(cmp, s, i + 1, cnt) && SameOutside(s, t, i, cnt)
    requires HeapAt(cmp, t, i, cnt)
    ensures HeapFrom(cmp, t, i, cnt)
  {
    forall c: nat | i <= c / 2 ensures Below(cmp, t, cnt, c, c / 2) {
      if !Sub(i, c) {
        assert !Sub(i, c / 2);
        assert Below(cmp, s, cnt, c, c / 2);
      }
    }
  }

  /** The first loop of `sort`. */
  method BuildHeap<T(!new)>(a: array<T>, cmp: (T, T) -> int)
    requires TotalPreorder(cmp)
    modifies a
    ensures HeapFrom(cmp, a[..], 1, a.Length) && Permuted(old(a[..]), a[..], a.Length)
  {
    ghost var s0 := a[..];
    NothingMoved(s0, 1, a.Length);
    var i: nat := a.Length / 2;
    while i > 0
      invariant i <= a.Length / 2 && HeapFrom(cmp, a[..], i + 1, a.Length)
      invariant Permuted(s0, a[..], a.Length)
    {
      hide HeapFrom, HeapAt, TotalPreorder, Permuted, SameOutside;
      ghost var s := a[..];
      ChildHeaps(cmp, s, i, a.Length);
      Heapify(a, i, a.Length, cmp);
      HeapGrows(cmp, s, a[..], i, a.Length);
      PermutedTrans(s0, s, a[..], a.Length);
      i := i - 1;
    }
  }

  // ----- taking the heap down -----

  /** From position `m` on, nobody is below an element before it. */
  ghost predicate SortedFrom<T>(cmp: (T, T) -> int, s: seq<T>, m: nat) {
    forall j, k :: 0 <= j < k < |s| && m <= k ==> cmp(s[j], s[k]) <= 0
  }

  /** Swapping the largest element to the end of the heap. */
  lemma ShrinkSorted<T(!new)>(cmp: (T, T) -> int, s: seq<T>, i: nat)
    requires TotalPreorder(cmp) && 1 < i <= |s| && HeapFrom(cmp, s, 1, i) && SortedFrom(cmp, s, i)
    ensures SortedFrom(cmp, Swapped(s, 1, i), i - 1)
  {
    var t := Swapped(s, 1, i);
    forall j, k | 0 <= j < k < |t| && i - 1 <= k ensures cmp(t[j], t[k]) <= 0 {
      if k == i - 1 {
        RootIsMax(cmp, s, i, if j == 0 then i else j + 1);
      } else {
        assert cmp(s[0], s[k]) <= 0 && cmp(s[i - 1], s[k]) <= 0;
      }
    }
  }

  /** Below the root, the smaller heap is still in order. */
  lemma ShrinkHeap<T>(cmp: (T, T) -> int, s: seq<T>, i: nat)
    requires 1 < i <= |s| && HeapFrom(cmp, s, 1, i)
    ensures HeapFrom(cmp, Swapped(s, 1, i), 2, i - 1)
  {
    forall c: nat | 2 <= c / 2 ensures Below(cmp, Swapped(s, 1, i), i - 1, c, c / 2) {
      assert Below(cmp, s, i, c, c / 2);
    }
  }

  /** Permuting the heap keeps the sorted rest. */
  lemma PermuteSorted<T>(cmp: (T, T) -> int, s: seq<T>, t: seq<T>, m: nat)
    requires Permuted(s, t, m) && SortedFrom(cmp, s, m)
    ensures SortedFrom(cmp, t, m)
  {
    forall j, k | 0 <= j < k < |t| && m <= k ensures cmp(t[j], t[k]) <= 0 {
      assert t[k] == t[m..][k - m] == s[k];
      if j < m {
        assert t[j] in multiset(t[..m]);
        assert t[j] in multiset(s[..m]);
        var j' :| 0 <= j' < m && s[j'] == t[j];
      } else {
        assert t[j] == t[m..][j - m] == s[j];
      }
    }
  }

  /** The body of the second loop of `sort`. */
  method TakeLargest<T(!new)>(a: array<T>, i: nat, cmp: (T, T) -> int)
    requires TotalPreorder(cmp) && 1 < i <= a.Length
    requires HeapFrom(cmp, a[..], 1, i) && SortedFrom(cmp, a[..], i)
    modifies a
    ensures HeapFrom(cmp, a[..], 1, i - 1) && SortedFrom(cmp, a[..], i - 1)
    ensures Permuted(old(a[..]), a[..], a.Length)
  {
    hide HeapFrom, HeapAt, TotalPreorder, Permuted, SameOutside, SortedFrom, Swapped;
    ghost var s0 := a[..];
    ShrinkSorted(cmp, s0, i);
    ShrinkHeap(cmp, s0, i);
    SwapPermutes(s0, a.Length, 1, i);
    Swap(a, 1, i);
    ghost var s := a[..];
    ghost var m: nat := i - 1;
    ChildHeaps(cmp, s, 1, m);
    Heapify(a, 1, i - 1, cmp);
    HeapGrows(cmp, s, a[..], 1, m);
    PermuteSorted(cmp, s, a[..], m);
    PermutedMore(s, a[..], m, a.Length);
    PermutedTrans(s0, s, a[..], a.Length);
  }

  /** `sort`. */
  method Sort<T(!new)>(a: array<T>, cmp: (T, T) -> int)
    requires TotalPreorder(cmp)
    modifies a
    ensures Sorted(cmp, a[..]) && multiset(a[..]) == multiset(old(a[..]))
  {
    ghost var s0 := a[..];
    BuildHeap(a, cmp);
    var i: nat := a.Length;
    while i > 1
      invariant i <= a.Length && HeapFrom(cmp, a[..], 1, i) && SortedFrom(cmp, a[..], i)
      invariant Permuted(s0, a[..], a.Length)
    {
      hide HeapFrom, TotalPreorder, Permuted, SortedFrom;
      ghost var s := a[..];
      TakeLargest(a, i, cmp);
      PermutedTrans(s0, s, a[..], a.Length);
      i := i - 1;
    }
    assert s0[..a.Length] == s0 && a[..][..a.Length] == a[..];
  }

  // ----- searching -----

  /** `binary_search`: a match exactly if there is one. */
  method BinarySearch<T(!new)>(key: T, a: array<T>, cmp: (T, T) -> int) returns (r: Option<nat>)
    requires TotalPreorder(cmp) && Sorted(cmp, a[..])
    ensures r.Some? ==> r.value < a.Length && cmp(key, a[r.value]) == 0
    ensures r.None? ==> forall k :: 0 <= k < a.Length ==> cmp(key, a[k]) != 0
  {
    var first, last := 0, a.Length;
    while first < last
      invariant first <= last <= a.Length
      invariant forall k :: 0 <= k < first ==> cmp(key, a[k]) > 0
      invariant forall k :: last <= k < a.Length ==> cmp(key, a[k]) < 0
    {
      var middle := first + (last - first) / 2;
      var c := cmp(key, a[middle]);
      Sides(cmp, key, a[..], middle);
      if c < 0 {
        last := middle;
      } else if c > 0 {
        first := middle + 1;
      } else {
        return Some(middle);
      }
    }
    return None;
  }

  lemma Sides<T(!new)>(cmp: (T, T) -> int, key: T, s: seq<T>, m: nat)
    requires TotalPreorder(cmp) && Sorted(cmp, s) && m < |s|
    ensures cmp(key, s[m]) < 0 ==> forall k :: m <= k < |s| ==> cmp(key, s[k]) < 0
    ensures cmp(key, s[m]) > 0 ==> forall k :: 0 <= k <= m ==> cmp(key, s[k]) > 0
  {
    forall k | 0 <= k < |s|
      ensures m <= k && cmp(key, s[m]) < 0 ==> cmp(key, s[k]) < 0
      ensures k <= m && cmp(key, s[m]) > 0 ==> cmp(key, s[k]) > 0
    {
      var x, y := s[m], s[k];
      assert m < k ==> cmp(x, y) <= 0;
      assert k < m ==> cmp(y, x) <= 0;
      assert cmp(x, y) <= 0 && cmp(y, key) <= 0 ==> cmp(x, key) <= 0;
      assert cmp(key, y) <= 0 && cmp(y, x) <= 0 ==> cmp(key, x) <= 0;
    }
  }
}
