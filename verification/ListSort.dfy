/** The ordered operations of lib/kernel/list.c on linked lists: `list_sort` and
    `list_insert_ordered`, with the insertions and removals at the ends. */
module ListSort {
  import opened MergeRuns
  import opened LinkedList

  // ----- runs and merging, in place -----

  lemma RunStep<T>(less: (T, T) -> bool, c: seq<T>, i: nat, p: nat, j: nat)
    requires i < p < j <= |c| && !less(c[p], c[p - 1])
    ensures RunLength(less, c[p - 1..j]) == 1 + RunLength(less, c[p..j])
  {
    assert c[p - 1..j][1..] == c[p..j];
  }

  /** `find_end_of_run`: the end of the first run in elements `i` up to `j`. */
  method FindEndOfRun(a: Elem, b: Elem, less: (Elem, Elem) -> bool, ghost c: seq<Elem>, ghost i: nat, ghost j: nat)
    returns (e: Elem)
    requires Linked(c) && 0 < i < j < |c| && c[i] == a && c[j] == b
    ensures e == c[i + RunLength(less, c[i..j])]
  {
    LinkAt(c, i);
    e := a.next;
    ghost var p := i + 1;
    while e != b && !less(e, e.prev)
      invariant i < p <= j && e == c[p]
      invariant RunLength(less, c[i..j]) == p - 1 - i + RunLength(less, c[p - 1..j])
      decreases j - p
    {
      RunStep(less, c, i, p, j);
      e := e.next;
      p := p + 1;
    }
    LinkAt(c, p);
    if e == b {
      IndexUnique(c, p, j);
    }
  }

  /** While elements `lo` up to `hi` of `c0` are being merged around `m`: elements up to
      `p` are in place, those from `p` to `q` and from `q` to `hi` are still to be merged. */
  ghost predicate Merging(less: (Elem, Elem) -> bool, c0: seq<Elem>, lo: nat, m: nat, hi: nat,
                          c: seq<Elem>, p: nat, q: nat) {
    && 0 < lo <= m <= hi < |c0| && lo <= p <= q <= hi
    && |c| == |c0| && c[..lo] == c0[..lo] && c[hi..] == c0[hi..]
    && c[lo..p] + Merge(less, c[p..q], c[q..hi]) == Merge(less, c0[lo..m], c0[m..hi])
    && (forall i :: 0 <= i < |c| ==> c[i] in c0)
  }

  lemma MergingStart(less: (Elem, Elem) -> bool, c: seq<Elem>, lo: nat, m: nat, hi: nat)
    requires 0 < lo <= m <= hi < |c|
    ensures Merging(less, c, lo, m, hi, c, lo, m)
  {
    assert c[lo..lo] + Merge(less, c[lo..m], c[m..hi]) == Merge(less, c[lo..m], c[m..hi]);
  }

  lemma MergeTakesLeft<T>(less: (T, T) -> bool, a: seq<T>, b: seq<T>)
    requires a != [] && b != [] && !less(b[0], a[0])
    ensures Merge(less, a, b) == [a[0]] + Merge(less, a[1..], b)
  {
  }

  lemma MergeTakesRight<T>(less: (T, T) -> bool, a: seq<T>, b: seq<T>)
    requires a != [] && b != [] && less(b[0], a[0])
    ensures Merge(less, a, b) == [b[0]] + Merge(less, a, b[1..])
  {
  }

  /** The left element stays where it is. */
  lemma MergingStays(less: (Elem, Elem) -> bool, c0: seq<Elem>, lo: nat, m: nat, hi: nat, c: seq<Elem>, p: nat, q: nat)
    requires Merging(less, c0, lo, m, hi, c, p, q) && p < q < hi && !less(c[q], c[p])
    ensures Merging(less, c0, lo, m, hi, c, p + 1, q)
  {
    hide Merge;
    MergeTakesLeft(less, c[p..q], c[q..hi]);
    assert c[p..q][1..] == c[p + 1..q];
    assert c[lo..p + 1] == c[lo..p] + [c[p]];
  }

  lemma MovedOne(c: seq<Elem>, p: nat, q: nat)
    requires p < q < |c|
    ensures var d := Moved(c, p, q, q + 1);
      && |d| == |c|
      && d[..p] == c[..p] && d[p] == c[q] && d[p + 1..q + 1] == c[p..q] && d[q + 1..] == c[q + 1..]
  {
  }

  lemma MovedMembers(c: seq<Elem>, d: seq<Elem>, p: nat, q: nat, c0: seq<Elem>)
    requires p < q < |c| == |d| && d == Moved(c, p, q, q + 1) && forall i :: 0 <= i < |c| ==> c[i] in c0
    ensures forall i :: 0 <= i < |d| ==> d[i] in c0
  {
    forall i | 0 <= i < |d| ensures d[i] in c0 {
      assert d[i] == if i < p || q < i then c[i] else if i == p then c[q] else c[i - 1];
    }
  }

  lemma MovedPoints(c: seq<Elem>, p: nat, q: nat, hi: nat)
    requires p < q < hi < |c|
    ensures var d := Moved(c, p, q, q + 1);
      |d| == |c| && d[p + 1] == c[p] && d[q + 1] == c[q + 1] && d[hi] == c[hi]
  {
  }

  /** The right element overtakes what is left of the first run. */
  lemma MergingMoves(less: (Elem, Elem) -> bool, c0: seq<Elem>, lo: nat, m: nat, hi: nat, c: seq<Elem>, p: nat, q: nat)
    requires Merging(less, c0, lo, m, hi, c, p, q) && p < q < hi && less(c[q], c[p])
    ensures Merging(less, c0, lo, m, hi, Moved(c, p, q, q + 1), p + 1, q + 1)
  {
    hide Merge;
    MergeTakesRight(less, c[p..q], c[q..hi]);
    var d := Moved(c, p, q, q + 1);
    MovedOne(c, p, q);
    MovedMembers(c, d, p, q, c0);
    MovedSlices(c, d, lo, p, q, hi);
    assert c[q..hi][1..] == c[q + 1..hi];
  }

  lemma MovedSlices(c: seq<Elem>, d: seq<Elem>, lo: nat, p: nat, q: nat, hi: nat)
    requires lo <= p < q < hi <= |c| && |d| == |c|
    requires d[..p] == c[..p] && d[p] == c[q] && d[q + 1..] == c[q + 1..]
    ensures d[..lo] == c[..lo] && d[hi..] == c[hi..]
    ensures d[lo..p + 1] == c[lo..p] + [c[q]] && d[q + 1..hi] == c[q + 1..hi]
  {
    assert d[..lo] == d[..p][..lo] && c[..lo] == c[..p][..lo];
    assert d[hi..] == d[q + 1..][hi - q - 1..] && c[hi..] == c[q + 1..][hi - q - 1..];
    assert d[lo..p] == d[..p][lo..] && c[lo..p] == c[..p][lo..];
    assert d[q + 1..hi] == d[q + 1..][..hi - q - 1] && c[q + 1..hi] == c[q + 1..][..hi - q - 1];
  }

  lemma MergingEnds(less: (Elem, Elem) -> bool, c0: seq<Elem>, lo: nat, m: nat, hi: nat, c: seq<Elem>, p: nat, q: nat)
    requires Merging(less, c0, lo, m, hi, c, p, q) && (p == q || q == hi)
    ensures MergedAt(less, c0, lo, m, hi, c)
  {
    assert c[lo..hi] == c[lo..p] + c[p..q] + c[q..hi];
  }

  /** The right element is taken out and put before the left one. */
  method Overtake(a0: Elem, a1b0: Elem, less: (Elem, Elem) -> bool, ghost c0: seq<Elem>, ghost lo: nat, ghost m: nat,
                  ghost hi: nat, ghost c: seq<Elem>, ghost p: nat, ghost q: nat)
    returns (b: Elem, ghost d: seq<Elem>)
    requires Linked(c) && Merging(less, c0, lo, m, hi, c, p, q) && p < q < hi && less(c[q], c[p])
    requires a0 == c[p] && a1b0 == c[q]
    modifies c
    ensures Linked(d) && Merging(less, c0, lo, m, hi, d, p + 1, q + 1)
    ensures d[p + 1] == a0 && d[q + 1] == b && d[hi] == c[hi]
  {
    d := Moved(c, p, q, q + 1);
    MovedPoints(c, p, q, hi);
    MergingMoves(less, c0, lo, m, hi, c, p, q);
    b := MoveBefore(a0, a1b0, c, p, q, d);
  }

  method MoveBefore(a0: Elem, a1b0: Elem, ghost c: seq<Elem>, ghost p: nat, ghost q: nat, ghost d: seq<Elem>)
    returns (b: Elem)
    requires Linked(c) && 0 < p < q < |c| - 1 && a0 == c[p] && a1b0 == c[q]
    requires d == Moved(c, p, q, q + 1)
    modifies c
    ensures Linked(d) && b == c[q + 1]
  {
    LinkAt(c, q);
    b := a1b0.next;
    LinkAt(c, q + 1);
    Splice(a0, b.prev, b, c, p, q, q + 1, d);
  }

  /** `d` is `c` with elements `i` up to `m` and `m` up to `j` merged. */
  ghost predicate MergedAt(less: (Elem, Elem) -> bool, c: seq<Elem>, i: nat, m: nat, j: nat, d: seq<Elem>) {
    && 0 < i <= m <= j < |c| == |d|
    && d[..i] == c[..i] && d[i..j] == Merge(less, c[i..m], c[m..j]) && d[j..] == c[j..]
  }

  /** `inplace_merge`: elements `lo` up to `m` with elements `m` up to `hi`. */
  method InplaceMerge(a0': Elem, a1b0': Elem, b1: Elem, less: (Elem, Elem) -> bool,
                      ghost c0: seq<Elem>, ghost lo: nat, ghost m: nat, ghost hi: nat)
    returns (ghost c: seq<Elem>)
    requires Linked(c0) && 0 < lo < m < hi < |c0|
    requires a0' == c0[lo] && a1b0' == c0[m] && b1 == c0[hi]
    modifies c0
    ensures MergedAt(less, c0, lo, m, hi, c) && Linked(c)
  {
    hide Merge;
    var a0, a1b0 := a0', a1b0';
    c := c0;
    ghost var p, q := lo, m;
    MergingStart(less, c, lo, m, hi);
    while a0 != a1b0 && a1b0 != b1
      invariant Merging(less, c0, lo, m, hi, c, p, q) && Linked(c)
      invariant a0 == c[p] && a1b0 == c[q] && b1 == c[hi]
      decreases hi - p
    {
      if !less(a1b0, a0) {
        MergingStays(less, c0, lo, m, hi, c, p, q);
        LinkAt(c, p);
        a0 := a0.next;
        p := p + 1;
      } else {
        a1b0, c := Overtake(a0, a1b0, less, c0, lo, m, hi, c, p, q);
        p, q := p + 1, q + 1;
      }
    }
    MergingEnds(less, c0, lo, m, hi, c, p, q);
  }

  // ----- list_sort -----

  lemma SliceOfSlice<T>(c: seq<T>, i: nat, j: nat, a: nat, b: nat)
    requires i <= j <= |c| && a <= b <= j - i
    ensures c[i..j][a..b] == c[i + a..i + b]
  {
    forall k | 0 <= k < b - a ensures c[i..j][a..b][k] == c[i + a..i + b][k] {
      assert c[i..j][a..b][k] == c[i..j][a + k] == c[i + a + k];
    }
  }

  lemma JoinSlices<T>(c: seq<T>, d: seq<T>, i: nat, j: nat, k: nat)
    requires i <= j <= k <= |c| && k <= |d| && c[i..j] == d[i..j] && c[j..k] == d[j..k]
    ensures c[i..k] == d[i..k]
  {
    assert c[i..k] == c[i..j] + c[j..k] && d[i..k] == d[i..j] + d[j..k];
  }

  /** In the middle of a pass towards the chain `final`: elements before `i` are done and
      `rest` is as it was. */
  ghost predicate Passing(less: (Elem, Elem) -> bool, c0: seq<Elem>, c: seq<Elem>, i: nat, k: nat, rest: seq<Elem>,
                          final: seq<Elem>) {
    && 0 < i <= k && |c| == |c0| == |final| == k + 1 && |rest| == k - i
    && c[k] == c0[k] == final[k]
    && c[0..i] == final[0..i] && c[i..k] == rest && final[i..k] == Pass(less, rest)
    && (forall x :: 0 <= x < |c| ==> c[x] in c0)
  }

  lemma Framed<T>(h: T, n: seq<T>, t: T)
    ensures var c := [h] + n + [t];
      |c| == |n| + 2 && c[0..1] == [h] && c[1..|n| + 1] == n && c[|n| + 1] == t
  {
  }

  lemma PassingStart(less: (Elem, Elem) -> bool, n: seq<Elem>, head: Elem, tail: Elem)
    ensures var c := [head] + n + [tail];
      Passing(less, c, c, 1, |n| + 1, n, [head] + Pass(less, n) + [tail])
  {
    hide Pass;
    PassElements(less, n);
    Framed(head, n, tail);
    Framed(head, Pass(less, n), tail);
  }

  /** Where the next one or two runs end. */
  lemma PassingRuns(less: (Elem, Elem) -> bool, c0: seq<Elem>, c: seq<Elem>, i: nat, k: nat, rest: seq<Elem>,
                    final: seq<Elem>)
    returns (r: nat, e: nat)
    requires Passing(less, c0, c, i, k, rest, final) && i < k
    ensures r == RunLength(less, rest) && e == TwoRuns(less, rest) && 0 < r <= e <= |rest|
    ensures r == RunLength(less, c[i..k])
    ensures r < |rest| ==> r < e && e - r == RunLength(less, c[i + r..k])
    ensures r < |rest| ==> PassCount(less, rest) == 1 + PassCount(less, rest[e..])
    ensures r == |rest| ==> PassCount(less, rest) == 1
  {
    r, e := RunLength(less, rest), TwoRuns(less, rest);
    SliceOfSlice(c, i, k, r, k - i);
  }

  lemma MergedMembers(less: (Elem, Elem) -> bool, c: seq<Elem>, i: nat, m: nat, j: nat, d: seq<Elem>, c0: seq<Elem>)
    requires MergedAt(less, c, i, m, j, d) && forall x :: 0 <= x < |c| ==> c[x] in c0
    ensures forall x :: 0 <= x < |d| ==> d[x] in c0
  {
    MergeElements(less, c[i..m], c[m..j]);
    SameElements(d[i..j], c[i..m], c[m..j]);
    forall x | 0 <= x < |d| ensures d[x] in c0 {
      assert x < i ==> d[x] == d[..i][x];
      assert i <= x < j ==> d[x] in d[i..j];
      assert j <= x ==> d[x] == d[j..][x - j];
    }
  }

  lemma SubSlices(c: seq<Elem>, w: seq<Elem>, i: nat, r: nat, e: nat)
    requires r <= e <= |w| && i + |w| <= |c| && c[i..i + |w|] == w
    ensures c[i..i + r] == w[..r] && c[i + r..i + e] == w[r..e] && c[i + e..i + |w|] == w[e..]
  {
    SliceOfSlice(c, i, i + |w|, 0, r);
    SliceOfSlice(c, i, i + |w|, r, e);
    SliceOfSlice(c, i, i + |w|, e, |w|);
  }

  lemma PassSplit(less: (Elem, Elem) -> bool, f: seq<Elem>, i: nat, j: nat, k: nat, rest: seq<Elem>)
    requires i <= j <= k <= |f| && |rest| == k - i && f[i..k] == Pass(less, rest)
    requires RunLength(less, rest) < |rest| && j - i == TwoRuns(less, rest)
    ensures f[i..j] == MergedRuns(less, rest) && f[j..k] == Pass(less, rest[j - i..])
  {
    hide RunLength, MergedRuns, TwoRuns;
    MergedElements(less, rest);
    AppendParts(f[i..k], MergedRuns(less, rest), Pass(less, rest[j - i..]));
    SliceOfSlice(f, i, k, 0, j - i);
    SliceOfSlice(f, i, k, j - i, k - i);
  }

  lemma AppendParts<T>(s: seq<T>, a: seq<T>, b: seq<T>)
    requires s == a + b
    ensures s[0..|a|] == a && s[|a|..|s|] == b
  {
  }

  /** The part of the chain behind the merged runs is untouched. */
  lemma BehindMerged(less: (Elem, Elem) -> bool, c: seq<Elem>, i: nat, m: nat, j: nat, k: nat, d: seq<Elem>)
    requires MergedAt(less, c, i, m, j, d) && |c| == k + 1
    ensures d[j..k] == c[j..k] && d[k] == c[k] && d[j] == c[j] && d[0..i] == c[0..i]
  {
    SliceOfSlice(c, j, k + 1, 0, k - j);
    SliceOfSlice(d, j, k + 1, 0, k - j);
    assert d[k] == d[j..][k - j] && c[k] == c[j..][k - j];
    assert d[j] == d[j..][0] && c[j] == c[j..][0];
  }

  lemma PassingStep(less: (Elem, Elem) -> bool, c0: seq<Elem>, c: seq<Elem>, k: nat, rest: seq<Elem>, final: seq<Elem>,
                    i: nat, m: nat, j: nat, r: nat, e: nat, d: seq<Elem>)
    requires Passing(less, c0, c, i, k, rest, final)
    requires r == RunLength(less, rest) < |rest| && e == TwoRuns(less, rest)
    requires m == i + r && j == i + e && MergedAt(less, c, i, m, j, d)
    ensures Passing(less, c0, d, j, k, rest[e..], final) && d[j] == c[j]
  {
    hide Merge, Pass, RunLength, TwoRuns;
    MergedMembers(less, c, i, m, j, d, c0);
    BehindMerged(less, c, i, m, j, k, d);
    SubSlices(c, rest, i, r, e);
    PassSplit(less, final, i, j, k, rest);
    JoinSlices(d, final, 0, i, j);
  }

  lemma PassingEnd(less: (Elem, Elem) -> bool, c0: seq<Elem>, c: seq<Elem>, i: nat, k: nat, rest: seq<Elem>,
                   final: seq<Elem>)
    requires Passing(less, c0, c, i, k, rest, final) && RunLength(less, rest) == |rest|
    ensures c == final
  {
    JoinSlices(c, final, 0, i, k);
    assert c == c[0..k] + [c[k]] && final == final[0..k] + [final[k]];
  }

  lemma EmptyRest(less: (Elem, Elem) -> bool)
    ensures RunLength(less, []) == 0 && PassCount(less, []) == 0
  {
  }

  /** One iteration of a pass: the next two runs are found and merged, or the next run is
      the last one. */
  method MergeNextRuns(a0: Elem, tail: Elem, less: (Elem, Elem) -> bool, ghost c0: seq<Elem>, ghost c: seq<Elem>,
                       ghost i: nat, ghost k: nat, ghost rest: seq<Elem>, ghost final: seq<Elem>)
    returns (last: bool, b1: Elem, ghost d: seq<Elem>, ghost j: nat, ghost rest': seq<Elem>)
    requires Passing(less, c0, c, i, k, rest, final) && Linked(c) && i < k && a0 == c[i] && tail == c[k]
    modifies c0
    ensures Passing(less, c0, d, j, k, rest', final) && Linked(d)
    ensures last ==> rest' == rest && RunLength(less, rest) == |rest| && PassCount(less, rest) == 1
    ensures !last ==> b1 == d[j] && |rest'| < |rest| && PassCount(less, rest) == 1 + PassCount(less, rest')
  {
    hide Merge, Pass, RunLength, TwoRuns, MergedRuns, PassCount;
    ghost var r, e := PassingRuns(less, c0, c, i, k, rest, final);
    ghost var m := i + r;
    last, b1, d, j, rest' := false, tail, c, i, rest;
    var a1b0 := FindEndOfRun(a0, tail, less, c, i, k);
    if a1b0 == tail {
      IndexUnique(c, m, k);
      last := true;
    } else {
      b1 := FindEndOfRun(a1b0, tail, less, c, m, k);
      j := i + e;
      d := InplaceMerge(a0, a1b0, b1, less, c, i, m, j);
      PassingStep(less, c0, c, k, rest, final, i, m, j, r, e, d);
      rest' := rest[e..];
    }
  }

  /** The inner loop of `list_sort`: adjacent runs are merged two by two. */
  method MergeRunPairs(begin: Elem, tail: Elem, less: (Elem, Elem) -> bool,
                       ghost c0: seq<Elem>, ghost k: nat, ghost n: seq<Elem>, ghost final: seq<Elem>)
    returns (outputRuns: nat)
    requires Passing(less, c0, c0, 1, k, n, final) && Linked(c0) && begin == c0[1] && tail == c0[k]
    modifies c0
    ensures Linked(final) && outputRuns == PassCount(less, n)
  {
    hide Merge, Pass, RunLength, TwoRuns, MergedRuns, PassCount;
    EmptyRest(less);
    var a0 := begin;
    ghost var c, i: nat, rest := c0, 1, n;
    outputRuns := 0;
    while a0 != tail
      invariant Passing(less, c0, c, i, k, rest, final) && Linked(c)
      invariant a0 == c[i] && tail == c[k]
      invariant outputRuns + PassCount(less, rest) == PassCount(less, n)
      decreases |rest|
    {
      outputRuns := outputRuns + 1;
      var last;
      last, a0, c, i, rest := MergeNextRuns(a0, tail, less, c0, c, i, k, rest, final);
      if last {
        break;
      }
    }
    PassingEnd(less, c0, c, i, k, rest, final);
  }

  /** The loop of `list_insert_ordered`: the first element greater than `elem`, or the
      tail. */
  method FindGreater(begin: Elem, tail: Elem, elem: Elem, less: (Elem, Elem) -> bool, ghost c: seq<Elem>,
                     ghost n: seq<Elem>)
    returns (e: Elem, ghost p: nat)
    requires Linked(c) && |c| == |n| + 2 && c[1..|n| + 1] == n && begin == c[1] && tail == c[|n| + 1]
    ensures p <= |n| && e == c[p + 1]
    ensures forall i :: 0 <= i < p ==> !less(elem, n[i])
    ensures p < |n| ==> less(elem, n[p])
  {
    e, p := begin, 0;
    while e != tail && !less(elem, e)
      invariant p <= |n| && e == c[p + 1]
      invariant forall i :: 0 <= i < p ==> !less(elem, n[i])
      decreases |n| - p
    {
      LinkAt(c, p + 1);
      assert c[1..|n| + 1][p] == e;
      e := e.next;
      p := p + 1;
    }
    if e == tail {
      IndexUnique(c, p + 1, |n| + 1);
    } else {
      assert c[1..|n| + 1][p] == e;
    }
  }

  class List {
    const head: Elem
    const tail: Elem
    ghost var nodes: seq<Elem>

    ghost function Chain(): seq<Elem>
      reads this
    {
      [head] + nodes + [tail]
    }

    ghost predicate Valid()
      reads this, Chain()
    {
      Linked(Chain())
    }

    /** `list_init`. */
    constructor ()
      ensures Valid() && nodes == [] && fresh(head) && fresh(tail)
    {
      head := new Elem();
      tail := new Elem();
      nodes := [];
      new;
      head.next := tail;
      tail.prev := head;
    }

    /** One pass of `list_sort`. */
    method MergePass(less: (Elem, Elem) -> bool) returns (outputRuns: nat)
      requires Valid()
      modifies this, Chain()
      ensures Valid() && nodes == Pass(less, old(nodes)) && outputRuns == PassCount(less, old(nodes))
    {
      hide Pass, PassCount;
      LinkAt(Chain(), 0);
      PassingStart(less, nodes, head, tail);
      outputRuns :=
        MergeRunPairs(head.next, tail, less, Chain(), |nodes| + 1, nodes, [head] + Pass(less, nodes) + [tail]);
      nodes := Pass(less, nodes);
    }

    /** `list_sort`: passes until one writes a single run.  The list stays well linked, its
        elements are sorted, and equivalent ones keep their order. */
    method Sort(less: (Elem, Elem) -> bool)
      requires Valid() && StrictWeakOrder(less, nodes)
      modifies this, Chain()
      ensures Valid() && Sorted(less, nodes) && StableRearrangement(less, old(nodes), nodes)
    {
      hide Pass, PassCount, Runs;
      ghost var prev := nodes;
      var outputRuns := MergePass(less);
      PassOutcome(less, prev, outputRuns);
      while outputRuns > 1
        invariant Valid() && StrictWeakOrder(less, nodes) && StableRearrangement(less, old(nodes), nodes)
        invariant Runs(less, nodes) <= outputRuns
        invariant outputRuns <= 1 ==> Sorted(less, nodes)
        decreases outputRuns
      {
        prev := nodes;
        ChainMembers(head, nodes, old(nodes), tail);
        outputRuns := MergePass(less);
        PassOutcome(less, prev, outputRuns);
        StableTrans(less, old(nodes), prev, nodes);
      }
    }

    /** `list_insert` into this list, as element `p`. */
    method InsertAt(before: Elem, elem: Elem, ghost p: nat)
      requires Valid() && elem !in Chain() && p <= |nodes| && before == Chain()[p + 1]
      modifies this, Chain(), elem
      ensures Valid() && nodes == old(nodes)[..p] + [elem] + old(nodes)[p..]
    {
      InsertedChain(head, nodes, tail, p, elem);
      Insert(before, elem, Chain(), p + 1, [head] + (nodes[..p] + [elem] + nodes[p..]) + [tail]);
      nodes := nodes[..p] + [elem] + nodes[p..];
    }

    /** `list_push_front`, `list_push_back`. */
    method PushFront(elem: Elem)
      requires Valid() && elem !in Chain()
      modifies this, Chain(), elem
      ensures Valid() && nodes == [elem] + old(nodes)
    {
      LinkAt(Chain(), 0);
      InsertAt(head.next, elem, 0);
      assert nodes == [elem] + old(nodes);
    }

    method PushBack(elem: Elem)
      requires Valid() && elem !in Chain()
      modifies this, Chain(), elem
      ensures Valid() && nodes == old(nodes) + [elem]
    {
      InsertAt(tail, elem, |nodes|);
      assert nodes == old(nodes) + [elem];
    }

    /** `list_pop_front`. */
    method PopFront() returns (front: Elem)
      requires Valid() && nodes != []
      modifies this, Chain()
      ensures Valid() && nodes == old(nodes)[1..] && front == old(nodes)[0]
    {
      LinkAt(Chain(), 0);
      front := head.next;
      var following := Remove(front, Chain(), 1, [head] + nodes[1..] + [tail]);
      nodes := nodes[1..];
    }

    /** `list_insert_ordered`: behind everything that is not greater. */
    method InsertOrdered(elem: Elem, less: (Elem, Elem) -> bool) returns (ghost p: nat)
      requires Valid() && elem !in Chain()
      requires Sorted(less, nodes) && StrictWeakOrder(less, nodes + [elem])
      modifies this, Chain(), elem
      ensures Valid() && p <= |old(nodes)| && nodes == old(nodes)[..p] + [elem] + old(nodes)[p..]
      ensures Sorted(less, nodes)
      ensures forall i :: 0 <= i < p ==> !less(elem, old(nodes)[i])
      ensures p < |old(nodes)| ==> less(elem, old(nodes)[p])
    {
      LinkAt(Chain(), 0);
      Framed(head, nodes, tail);
      var e;
      e, p := FindGreater(head.next, tail, elem, less, Chain(), nodes);
      InsertedSorted(less, nodes, elem, p);
      InsertAt(e, elem, p);
    }
  }

  lemma InsertedChain(h: Elem, n: seq<Elem>, t: Elem, p: nat, x: Elem)
    requires p <= |n|
    ensures Inserted([h] + n + [t], p + 1, x) == [h] + (n[..p] + [x] + n[p..]) + [t]
  {
    var c := [h] + n + [t];
    assert c[..p + 1] == [h] + n[..p] && c[p + 1..] == n[p..] + [t];
  }

  lemma InsertedSorted<T>(less: (T, T) -> bool, n: seq<T>, x: T, p: nat)
    requires Sorted(less, n) && StrictWeakOrder(less, n + [x]) && p <= |n|
    requires forall i :: 0 <= i < p ==> !less(x, n[i])
    requires p < |n| ==> less(x, n[p])
    ensures Sorted(less, n[..p] + [x] + n[p..])
  {
    var s, all := n[..p] + [x] + n[p..], n + [x];
    forall i | p <= i < |n| ensures !less(n[i], x) {
      assert n[p] in all && n[i] in all && x in all;
      assert i > p ==> !less(n[i], n[p]);
    }
    forall i, j | 0 <= i < j < |s| ensures !less(s[j], s[i]) {
      assert j > p ==> s[j] == n[j - 1];
      assert i > p ==> s[i] == n[i - 1];
    }
  }

  lemma ChainMembers(h: Elem, n: seq<Elem>, n0: seq<Elem>, t: Elem)
    requires multiset(n) == multiset(n0)
    ensures forall i :: 0 <= i < |n| + 2 ==> ([h] + n + [t])[i] in [h] + n0 + [t]
  {
    SameElements(n, n0, []);
    var c := [h] + n + [t];
    forall i | 0 <= i < |c| ensures c[i] in [h] + n0 + [t] {
      assert i == 0 || i == |n| + 1 || c[i] in n;
    }
  }

  /** What one pass achieves. */
  lemma PassOutcome(less: (Elem, Elem) -> bool, n: seq<Elem>, outputRuns: nat)
    requires StrictWeakOrder(less, n) && outputRuns == PassCount(less, n)
    ensures StableRearrangement(less, n, Pass(less, n)) && StrictWeakOrder(less, Pass(less, n))
    ensures Runs(less, Pass(less, n)) <= outputRuns && outputRuns == (Runs(less, n) + 1) / 2
    ensures outputRuns <= 1 ==> Sorted(less, Pass(less, n))
  {
    PassIsStable(less, n);
    RearrangedOrder(less, n, Pass(less, n));
    PassLeavesRuns(less, n);
    PassCountsHalf(less, n);
    if outputRuns <= 1 {
      LastPassSorts(less, n);
    }
  }
}
