/** Natural merge sort on sequences: what one pass of `list_sort` does to the order of
    the elements, without the links. */
module MergeRuns {

  /** `less` is a strict weak order on the elements of `s`. */
  ghost predicate StrictWeakOrder<T>(less: (T, T) -> bool, s: seq<T>) {
    && (forall a, b :: a in s && b in s && less(a, b) ==> !less(b, a))
    && (forall a, b, c :: a in s && b in s && c in s && !less(a, b) && !less(b, c) ==> !less(a, c))
  }

  ghost predicate Sorted<T>(less: (T, T) -> bool, s: seq<T>) {
    forall i, j :: 0 <= i < j < |s| ==> !less(s[j], s[i])
  }

  predicate Equivalent<T>(less: (T, T) -> bool, a: T, b: T) { !less(a, b) && !less(b, a) }

  /** The elements equivalent to `x`, in order. */
  ghost function Class<T>(less: (T, T) -> bool, s: seq<T>, x: T): seq<T> {
    if s == [] then []
    else (if Equivalent(less, s[0], x) then [s[0]] else []) + Class(less, s[1..], x)
  }

  /** A permutation that keeps the order of equivalent elements. */
  ghost predicate StableRearrangement<T>(less: (T, T) -> bool, s: seq<T>, t: seq<T>) {
    multiset(s) == multiset(t) && forall x :: x in s ==> Class(less, t, x) == Class(less, s, x)
  }

  // ----- the operations -----

  /** `inplace_merge` on two sequences. */
  ghost function Merge<T>(less: (T, T) -> bool, a: seq<T>, b: seq<T>): seq<T>
    decreases |a| + |b|
  {
    if a == [] then b
    else if b == [] then a
    else if !less(b[0], a[0]) then [a[0]] + Merge(less, a[1..], b)
    else [b[0]] + Merge(less, a, b[1..])
  }

  /** Length of the first run of nondecreasing elements: `find_end_of_run`. */
  ghost function RunLength<T>(less: (T, T) -> bool, s: seq<T>): (n: nat)
    ensures n <= |s| && (s != [] ==> n > 0)
  {
    if |s| <= 1 then |s| else if less(s[1], s[0]) then 1 else 1 + RunLength(less, s[1..])
  }

  /** Length of the first two runs together. */
  ghost function TwoRuns<T>(less: (T, T) -> bool, s: seq<T>): (n: nat)
    ensures RunLength(less, s) <= n <= |s|
  {
    RunLength(less, s) + RunLength(less, s[RunLength(less, s)..])
  }

  /** The first two runs merged. */
  ghost function MergedRuns<T>(less: (T, T) -> bool, s: seq<T>): seq<T> {
    var n := RunLength(less, s);
    Merge(less, s[..n], s[n..TwoRuns(less, s)])
  }

  /** Number of natural runs. */
  ghost function Runs<T>(less: (T, T) -> bool, s: seq<T>): nat
    decreases |s|
  {
    if s == [] then 0 else 1 + Runs(less, s[RunLength(less, s)..])
  }

  /** One pass of `list_sort`. */
  ghost function Pass<T>(less: (T, T) -> bool, s: seq<T>): seq<T>
    decreases |s|
  {
    if RunLength(less, s) == |s| then s
    else MergedRuns(less, s) + Pass(less, s[TwoRuns(less, s)..])
  }

  /** `output_run_cnt` of that pass. */
  ghost function PassCount<T>(less: (T, T) -> bool, s: seq<T>): nat
    decreases |s|
  {
    if s == [] then 0
    else if RunLength(less, s) == |s| then 1
    else 1 + PassCount(less, s[TwoRuns(less, s)..])
  }

  // ----- order -----

  lemma {:induction false} RunIsSorted<T>(less: (T, T) -> bool, s: seq<T>)
    requires StrictWeakOrder(less, s)
    ensures Sorted(less, s[..RunLength(less, s)])
  {
    var n := RunLength(less, s);
    if |s| > 1 && !less(s[1], s[0]) {
      RunIsSorted(less, s[1..]);
      forall i, j | 0 <= i < j < n ensures !less(s[j], s[i]) {
        assert s[1..][..n - 1][j - 1] == s[j];
        assert i > 0 ==> s[1..][..n - 1][i - 1] == s[i];
        if i == 0 && j > 1 {
          assert s[1..][..n - 1][0] == s[1];
          assert !less(s[j], s[1]) && !less(s[1], s[0]);
        }
      }
    }
  }

  lemma {:induction false} MergeElements<T>(less: (T, T) -> bool, a: seq<T>, b: seq<T>)
    ensures multiset(Merge(less, a, b)) == multiset(a) + multiset(b)
    ensures |Merge(less, a, b)| == |a| + |b|
    decreases |a| + |b|
  {
    if a != [] && b != [] {
      if !less(b[0], a[0]) {
        MergeElements(less, a[1..], b);
        assert a == [a[0]] + a[1..];
      } else {
        MergeElements(less, a, b[1..]);
        assert b == [b[0]] + b[1..];
      }
    }
  }

  lemma SameElements<T>(s: seq<T>, a: seq<T>, b: seq<T>)
    requires multiset(s) == multiset(a) + multiset(b)
    ensures forall x :: x in s <==> x in a || x in b
  {
    forall x ensures x in s <==> x in a || x in b {
      assert x in s <==> x in multiset(s);
      assert x in a <==> x in multiset(a);
      assert x in b <==> x in multiset(b);
    }
  }

  lemma SortedCons<T>(less: (T, T) -> bool, x: T, s: seq<T>)
    requires Sorted(less, s) && forall y :: y in s ==> !less(y, x)
    ensures Sorted(less, [x] + s)
  {
  }

  lemma {:induction false} MergeIsSorted<T>(less: (T, T) -> bool, a: seq<T>, b: seq<T>)
    requires StrictWeakOrder(less, a + b) && Sorted(less, a) && Sorted(less, b)
    ensures Sorted(less, Merge(less, a, b))
    decreases |a| + |b|
  {
    if a != [] && b != [] {
      if !less(b[0], a[0]) {
        MergeIsSorted(less, a[1..], b);
        MergeBound(less, a, b, a[0]);
        MergeAbove(less, a[1..], b, a[0]);
        SortedCons(less, a[0], Merge(less, a[1..], b));
      } else {
        MergeIsSorted(less, a, b[1..]);
        MergeBound(less, a, b, b[0]);
        MergeAbove(less, a, b[1..], b[0]);
        SortedCons(less, b[0], Merge(less, a, b[1..]));
      }
    }
  }

  /** Nothing in the merge is below a lower bound of both inputs. */
  lemma MergeAbove<T>(less: (T, T) -> bool, a: seq<T>, b: seq<T>, x: T)
    requires forall y :: y in a || y in b ==> !less(y, x)
    ensures forall y :: y in Merge(less, a, b) ==> !less(y, x)
  {
    MergeElements(less, a, b);
    SameElements(Merge(less, a, b), a, b);
  }

  lemma MergeBound<T>(less: (T, T) -> bool, a: seq<T>, b: seq<T>, x: T)
    requires StrictWeakOrder(less, a + b) && Sorted(less, a) && Sorted(less, b) && a != [] && b != []
    requires x in a + b && !less(a[0], x) && !less(b[0], x)
    ensures forall y :: y in a || y in b ==> !less(y, x)
  {
    forall y | y in a || y in b ensures !less(y, x) {
      if y in a {
        var i :| 0 <= i < |a| && a[i] == y;
        assert a[0] in a + b && a[i] in a + b;
        assert i > 0 ==> !less(a[i], a[0]);
      } else {
        var i :| 0 <= i < |b| && b[i] == y;
        assert b[0] in a + b && b[i] in a + b;
        assert i > 0 ==> !less(b[i], b[0]);
      }
    }
  }

  // ----- stability -----

  lemma {:induction false} ClassConcat<T>(less: (T, T) -> bool, s: seq<T>, t: seq<T>, x: T)
    ensures Class(less, s + t, x) == Class(less, s, x) + Class(less, t, x)
  {
    if s == [] {
      assert s + t == t;
    } else {
      ClassConcat(less, s[1..], t, x);
      assert (s + t)[0] == s[0] && (s + t)[1..] == s[1..] + t;
    }
  }

  lemma {:induction false} ClassEmpty<T>(less: (T, T) -> bool, s: seq<T>, x: T)
    requires forall y :: y in s ==> !Equivalent(less, y, x)
    ensures Class(less, s, x) == []
  {
    if s != [] {
      ClassEmpty(less, s[1..], x);
    }
  }

  lemma {:induction false} MergeIsStable<T>(less: (T, T) -> bool, a: seq<T>, b: seq<T>, x: T)
    requires StrictWeakOrder(less, a + b + [x]) && Sorted(less, a) && Sorted(less, b)
    ensures Class(less, Merge(less, a, b), x) == Class(less, a, x) + Class(less, b, x)
    decreases |a| + |b|
  {
    if a != [] && b != [] {
      if !less(b[0], a[0]) {
        MergeIsStable(less, a[1..], b, x);
      } else {
        MergeIsStable(less, a, b[1..], x);
        if Equivalent(less, b[0], x) {
          OvertakenAreOther(less, a, b, x);
          ClassEmpty(less, a, x);
        }
      }
    }
  }

  /** An element that overtakes `a` is equivalent to none of it. */
  lemma OvertakenAreOther<T>(less: (T, T) -> bool, a: seq<T>, b: seq<T>, x: T)
    requires StrictWeakOrder(less, a + b + [x]) && Sorted(less, a) && a != [] && b != []
    requires less(b[0], a[0]) && Equivalent(less, b[0], x)
    ensures forall y :: y in a ==> !Equivalent(less, y, x)
  {
    var s := a + b + [x];
    forall y | y in a ensures !Equivalent(less, y, x) {
      var i :| 0 <= i < |a| && a[i] == y;
      assert a[0] in s && y in s && b[0] in s && x in s;
      assert i > 0 ==> !less(y, a[0]);
    }
  }

  // ----- the number of runs -----

  lemma {:induction false} RunsAfterSorted<T>(less: (T, T) -> bool, a: seq<T>, b: seq<T>)
    requires Sorted(less, a) && a != []
    ensures Runs(less, a + b) <= 1 + Runs(less, b)
    decreases |a|
  {
    var s := a + b;
    if |a| == 1 {
      if b != [] {
        assert s[1..] == b;
        if !less(b[0], a[0]) {
          assert s[RunLength(less, s)..] == b[RunLength(less, b)..];
        }
      }
    } else {
      RunsAfterSorted(less, a[1..], b);
      assert s[1..] == a[1..] + b;
      assert s[RunLength(less, s)..] == s[1..][RunLength(less, s[1..])..];
    }
  }

  lemma TwoRunsCounted<T>(less: (T, T) -> bool, s: seq<T>)
    requires RunLength(less, s) < |s|
    ensures Runs(less, s) == 2 + Runs(less, s[TwoRuns(less, s)..])
  {
    var n := RunLength(less, s);
    assert s[n..][RunLength(less, s[n..])..] == s[TwoRuns(less, s)..];
  }

  /** A pass over r runs counts ceil(r / 2) runs... */
  lemma {:induction false} PassCountsHalf<T>(less: (T, T) -> bool, s: seq<T>)
    ensures PassCount(less, s) == (Runs(less, s) + 1) / 2
    decreases |s|
  {
    if RunLength(less, s) < |s| {
      TwoRunsCounted(less, s);
      PassCountsHalf(less, s[TwoRuns(less, s)..]);
    } else if s != [] {
      assert s[RunLength(less, s)..] == [];
    }
  }

  lemma MergedIsSorted<T>(less: (T, T) -> bool, s: seq<T>)
    requires StrictWeakOrder(less, s)
    ensures Sorted(less, s[..RunLength(less, s)])
    ensures Sorted(less, s[RunLength(less, s)..TwoRuns(less, s)])
    ensures Sorted(less, MergedRuns(less, s))
  {
    var n := RunLength(less, s);
    RunIsSorted(less, s);
    RunIsSorted(less, s[n..]);
    assert s[n..][..RunLength(less, s[n..])] == s[n..TwoRuns(less, s)];
    PartOrder(less, s, s[..n] + s[n..TwoRuns(less, s)]);
    MergeIsSorted(less, s[..n], s[n..TwoRuns(less, s)]);
  }

  lemma PartOrder<T>(less: (T, T) -> bool, s: seq<T>, t: seq<T>)
    requires StrictWeakOrder(less, s) && forall x :: x in t ==> x in s
    ensures StrictWeakOrder(less, t)
  {
  }

  lemma MergedElements<T>(less: (T, T) -> bool, s: seq<T>)
    ensures |MergedRuns(less, s)| == TwoRuns(less, s)
    ensures multiset(MergedRuns(less, s)) == multiset(s[..TwoRuns(less, s)])
  {
    var n := RunLength(less, s);
    MergeElements(less, s[..n], s[n..TwoRuns(less, s)]);
    assert s[..TwoRuns(less, s)] == s[..n] + s[n..TwoRuns(less, s)];
  }

  /** ... and leaves at most as many. */
  lemma {:induction false} PassLeavesRuns<T>(less: (T, T) -> bool, s: seq<T>)
    requires StrictWeakOrder(less, s)
    ensures Runs(less, Pass(less, s)) <= PassCount(less, s)
    decreases |s|
  {
    if RunLength(less, s) < |s| {
      var rest := s[TwoRuns(less, s)..];
      PassLeavesRuns(less, rest);
      MergedIsSorted(less, s);
      MergedElements(less, s);
      RunsAfterSorted(less, MergedRuns(less, s), Pass(less, rest));
    } else if s != [] {
      assert s[RunLength(less, s)..] == [];
    }
  }

  // ----- one pass, and the last pass -----

  lemma {:induction false} PassElements<T>(less: (T, T) -> bool, s: seq<T>)
    ensures multiset(Pass(less, s)) == multiset(s) && |Pass(less, s)| == |s|
    decreases |s|
  {
    if RunLength(less, s) < |s| {
      hide MergedRuns;
      var n := TwoRuns(less, s);
      var merged, more := MergedRuns(less, s), Pass(less, s[n..]);
      assert Pass(less, s) == merged + more;
      PassElements(less, s[n..]);
      MergedElements(less, s);
      hide Pass, RunLength, TwoRuns;
      assert s == s[..n] + s[n..];
      JoinElements(merged, more, s[..n], s[n..]);
    }
  }

  lemma JoinElements<T>(a: seq<T>, b: seq<T>, c: seq<T>, d: seq<T>)
    requires multiset(a) == multiset(c) && multiset(b) == multiset(d)
    ensures multiset(a + b) == multiset(c + d)
  {
  }

  lemma MergedClass<T>(less: (T, T) -> bool, s: seq<T>, x: T)
    requires StrictWeakOrder(less, s + [x])
    ensures Class(less, MergedRuns(less, s), x) == Class(less, s[..TwoRuns(less, s)], x)
  {
    var n := RunLength(less, s);
    var a, b := s[..n], s[n..TwoRuns(less, s)];
    PartOrder(less, s + [x], s);
    PartOrder(less, s + [x], a + b + [x]);
    MergedIsSorted(less, s);
    MergeIsStable(less, a, b, x);
    ClassConcat(less, a, b, x);
    assert s[..TwoRuns(less, s)] == a + b;
  }

  lemma {:induction false} PassClass<T>(less: (T, T) -> bool, s: seq<T>, x: T)
    requires StrictWeakOrder(less, s + [x])
    ensures Class(less, Pass(less, s), x) == Class(less, s, x)
    decreases |s|
  {
    if RunLength(less, s) < |s| {
      hide Class, MergedRuns, StrictWeakOrder;
      var e := TwoRuns(less, s);
      MergedClass(less, s, x);
      PartOrder(less, s + [x], s[e..] + [x]);
      PassClass(less, s[e..], x);
      ClassConcat(less, MergedRuns(less, s), Pass(less, s[e..]), x);
      ClassConcat(less, s[..e], s[e..], x);
      assert s == s[..e] + s[e..];
    }
  }

  lemma PassIsStable<T>(less: (T, T) -> bool, s: seq<T>)
    requires StrictWeakOrder(less, s)
    ensures StableRearrangement(less, s, Pass(less, s))
  {
    PassElements(less, s);
    forall x | x in s ensures Class(less, Pass(less, s), x) == Class(less, s, x) {
      PartOrder(less, s, s + [x]);
      PassClass(less, s, x);
    }
  }

  lemma StableTrans<T>(less: (T, T) -> bool, r: seq<T>, s: seq<T>, t: seq<T>)
    requires StableRearrangement(less, r, s) && StableRearrangement(less, s, t)
    ensures StableRearrangement(less, r, t)
  {
    SameElements(r, s, []);
  }

  lemma RearrangedOrder<T>(less: (T, T) -> bool, s: seq<T>, t: seq<T>)
    requires StrictWeakOrder(less, s) && multiset(s) == multiset(t)
    ensures StrictWeakOrder(less, t)
  {
    SameElements(t, s, []);
  }

  /** A pass that writes at most one run leaves a sorted sequence. */
  lemma LastPassSorts<T>(less: (T, T) -> bool, s: seq<T>)
    requires StrictWeakOrder(less, s) && PassCount(less, s) <= 1
    ensures Sorted(less, Pass(less, s))
  {
    MergedIsSorted(less, s);
    if RunLength(less, s) == |s| {
      assert s[..RunLength(less, s)] == s;
    } else {
      assert s[TwoRuns(less, s)..] == [];
      assert Pass(less, s) == MergedRuns(less, s);
    }
  }

  // ----- what stability means for two places -----

  ghost predicate NoRepeat<T>(s: seq<T>) { forall i, j :: 0 <= i < j < |s| ==> s[i] != s[j] }

  lemma {:induction false} ClassNoRepeat<T>(less: (T, T) -> bool, s: seq<T>, x: T)
    requires NoRepeat(s)
    ensures NoRepeat(Class(less, s, x)) && forall y :: y in Class(less, s, x) ==> y in s
  {
    if s != [] {
      ClassNoRepeat(less, s[1..], x);
      assert s[0] !in s[1..];
      assert forall y :: y in s[1..] ==> y in s;
    }
  }

  /** The place of element `i` among the elements equivalent to `x`. */
  lemma ClassPlace<T>(less: (T, T) -> bool, s: seq<T>, x: T, i: nat)
    requires i < |s| && Equivalent(less, s[i], x)
    ensures |Class(less, s[..i + 1], x)| == |Class(less, s[..i], x)| + 1 <= |Class(less, s, x)|
    ensures Class(less, s, x)[|Class(less, s[..i], x)|] == s[i]
  {
    assert s[..i + 1] == s[..i] + [s[i]] && s == s[..i + 1] + s[i + 1..];
    ClassConcat(less, s[..i], [s[i]], x);
    ClassConcat(less, s[..i + 1], s[i + 1..], x);
  }

  lemma ClassGrows<T>(less: (T, T) -> bool, s: seq<T>, x: T, i: nat, j: nat)
    requires i <= j <= |s|
    ensures |Class(less, s[..i], x)| <= |Class(less, s[..j], x)|
  {
    assert s[..j] == s[..i] + s[i..j];
    ClassConcat(less, s[..i], s[i..j], x);
  }

  /** A stable rearrangement of distinct elements keeps any two equivalent ones in order. */
  lemma StableKeepsOrder<T>(less: (T, T) -> bool, s: seq<T>, t: seq<T>, i: nat, j: nat, p: nat, q: nat)
    requires StableRearrangement(less, s, t) && NoRepeat(s)
    requires i < j < |t| && Equivalent(less, t[i], t[j]) && Equivalent(less, t[j], t[j])
    requires p < |s| && q < |s| && s[p] == t[i] && s[q] == t[j]
    ensures p < q
  {
    var x := t[j];
    assert x in s;
    ClassNoRepeat(less, s, x);
    ClassPlace(less, t, x, i);
    ClassPlace(less, t, x, j);
    ClassGrows(less, t, x, i + 1, j);
    ClassPlace(less, s, x, p);
    ClassPlace(less, s, x, q);
    if q <= p {
      ClassGrows(less, s, x, q, p);
    }
  }
}
