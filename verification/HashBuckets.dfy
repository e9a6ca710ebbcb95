/** Buckets of a hash table as sequences: what placing, moving and removing elements keeps. */
module HashBuckets {
  import opened Basics
  import opened BitTricks
  import opened MergeRuns

  /** What the caller's functions must be: a strict weak order, and a hash that does not
      tell equal elements apart. */
  ghost predicate Lawful<E(!new)>(hash: E -> nat, less: (E, E) -> bool) {
    && (forall a, b :: less(a, b) ==> !less(b, a))
    && (forall a, b, c :: !less(a, b) && !less(b, c) ==> !less(a, c))
    && (forall a, b :: Equivalent(less, a, b) ==> hash(a) == hash(b))
  }

  // ----- buckets -----

  /** Each element is in the bucket that its hash selects. */
  ghost predicate Placed<E>(hash: E -> nat, bs: seq<seq<E>>) {
    forall i, e :: 0 <= i < |bs| && e in bs[i] ==> hash(e) % |bs| == i
  }

  ghost predicate Unequal<E>(less: (E, E) -> bool, b: seq<E>) {
    forall j, k :: 0 <= j < k < |b| ==> !Equivalent(less, b[j], b[k])
  }

  ghost predicate AllUnequal<E>(less: (E, E) -> bool, bs: seq<seq<E>>) {
    forall i :: 0 <= i < |bs| ==> Unequal(less, bs[i])
  }

  ghost predicate Holds<E>(bs: seq<seq<E>>, e: E) {
    exists i :: 0 <= i < |bs| && e in bs[i]
  }

  /** All elements, bucket by bucket. */
  ghost function Flatten<E>(bs: seq<seq<E>>): seq<E> {
    if bs == [] then [] else bs[0] + Flatten(bs[1..])
  }

  ghost function Members<E>(s: seq<E>): set<E> { set e | e in s }

  lemma {:induction false} FlattenHolds<E>(bs: seq<seq<E>>, e: E)
    ensures e in Flatten(bs) <==> Holds(bs, e)
  {
    if bs != [] {
      FlattenHolds(bs[1..], e);
      if e in bs[0] {
        assert Holds(bs, e);
      }
      if Holds(bs[1..], e) {
        var i :| 0 <= i < |bs[1..]| && e in bs[1..][i];
        assert e in bs[i + 1];
      }
      if Holds(bs, e) {
        var i :| 0 <= i < |bs| && e in bs[i];
        if i > 0 {
          assert e in bs[1..][i - 1];
        }
      }
    }
  }

  /** Splitting the buckets at `i` splits the elements. */
  lemma {:induction false} FlattenSplit<E>(bs: seq<seq<E>>, i: nat)
    requires i < |bs|
    ensures Flatten(bs) == Flatten(bs[..i]) + bs[i] + Flatten(bs[i + 1..])
  {
    if i > 0 {
      FlattenSplit(bs[1..], i - 1);
      assert bs[1..][i - 1 + 1..] == bs[i + 1..];
      assert bs[..i][1..] == bs[1..][..i - 1];
    }
  }

  /** The elements of a table with one bucket replaced. */
  lemma FlattenUpdate<E>(bs: seq<seq<E>>, i: nat, b: seq<E>)
    requires i < |bs|
    ensures Flatten(bs[i := b]) == Flatten(bs[..i]) + b + Flatten(bs[i + 1..])
  {
    var bs' := bs[i := b];
    FlattenSplit(bs', i);
    assert bs'[..i] == bs[..i] && bs'[i + 1..] == bs[i + 1..];
  }

  // ----- no two elements are equal -----

  /** Elements of different buckets are not equal, so no two of a table are. */
  lemma TableUnequal<E(!new)>(hash: E -> nat, less: (E, E) -> bool, bs: seq<seq<E>>)
    requires Lawful(hash, less) && Placed(hash, bs) && AllUnequal(less, bs)
    ensures Unequal(less, Flatten(bs))
  {
    PartUnequal(hash, less, bs, 0);
    assert bs[0..] == bs;
  }

  lemma {:induction false} PartUnequal<E(!new)>(hash: E -> nat, less: (E, E) -> bool, bs: seq<seq<E>>, i: nat)
    requires Lawful(hash, less) && Placed(hash, bs) && AllUnequal(less, bs) && i <= |bs|
    ensures Unequal(less, Flatten(bs[i..]))
    decreases |bs| - i
  {
    if i < |bs| {
      PartUnequal(hash, less, bs, i + 1);
      var rest := Flatten(bs[i + 1..]);
      assert bs[i..][1..] == bs[i + 1..];
      forall x, y | x in bs[i] && y in rest ensures !Equivalent(less, x, y) {
        FlattenHolds(bs[i + 1..], y);
        var j :| 0 <= j < |bs[i + 1..]| && y in bs[i + 1..][j];
        assert y in bs[i + 1 + j];
      }
      JoinUnequal(less, bs[i], rest);
    }
  }

  lemma JoinUnequal<E>(less: (E, E) -> bool, a: seq<E>, b: seq<E>)
    requires Unequal(less, a) && Unequal(less, b)
    requires forall x, y :: x in a && y in b ==> !Equivalent(less, x, y)
    ensures Unequal(less, a + b)
  {
    var s := a + b;
    forall j, k | 0 <= j < k < |s| ensures !Equivalent(less, s[j], s[k]) {
      if j < |a| <= k {
        assert s[j] in a && s[k] in b;
      }
    }
  }

  lemma {:induction false} UnequalSize<E>(less: (E, E) -> bool, s: seq<E>)
    requires Unequal(less, s) && forall e :: e in s ==> Equivalent(less, e, e)
    ensures |Members(s)| == |s|
  {
    if s == [] {
      assert Members(s) == {};
    } else {
      UnequalSize(less, s[1..]);
      assert Members(s) == {s[0]} + Members(s[1..]);
      assert s[0] !in s[1..];
    }
  }

  // ----- one element in or out -----

  lemma MaskSelects(h: nat, n: nat)
    requires IsPow2(n)
    ensures n > 0 && And(h, n - 1) == h % n
  {
    var k: nat :| n == Pow2(k);
    MaskIsMod(h, k);
  }

  /** An element equal to `e` can only be in the bucket of `e`. */
  lemma OnlyInBucket<E(!new)>(hash: E -> nat, less: (E, E) -> bool, bs: seq<seq<E>>, i: nat, e: E)
    requires Lawful(hash, less) && Placed(hash, bs) && i < |bs| && i == hash(e) % |bs|
    requires forall x :: x in bs[i] ==> !Equivalent(less, x, e)
    ensures forall x :: x in Members(Flatten(bs)) ==> !Equivalent(less, x, e)
  {
    forall x | x in Flatten(bs) ensures !Equivalent(less, x, e) {
      FlattenHolds(bs, x);
      var j :| 0 <= j < |bs| && x in bs[j];
    }
  }

  /** Pushing an element in front of its bucket. */
  lemma Pushed<E(!new)>(hash: E -> nat, less: (E, E) -> bool, bs: seq<seq<E>>, i: nat, e: E)
    requires Lawful(hash, less) && Placed(hash, bs) && AllUnequal(less, bs) && i < |bs| && i == hash(e) % |bs|
    requires forall x :: x in bs[i] ==> !Equivalent(less, x, e)
    ensures var bs' := bs[i := [e] + bs[i]];
      && Placed(hash, bs') && AllUnequal(less, bs')
      && |Flatten(bs')| == |Flatten(bs)| + 1
      && Members(Flatten(bs')) == Members(Flatten(bs)) + {e}
  {
    FlattenSplit(bs, i);
    FlattenUpdate(bs, i, [e] + bs[i]);
    hide Flatten;
    forall x | x in [e] ensures forall y :: y in bs[i] ==> !Equivalent(less, x, y) {
    }
    JoinUnequal(less, [e], bs[i]);
  }

  /** Taking the element at position `j` out of a bucket. */
  lemma Removed<E(!new)>(hash: E -> nat, less: (E, E) -> bool, bs: seq<seq<E>>, i: nat, j: nat)
    requires Lawful(hash, less) && Placed(hash, bs) && AllUnequal(less, bs) && i < |bs| && j < |bs[i]|
    ensures var bs' := bs[i := bs[i][..j] + bs[i][j + 1..]];
      && Placed(hash, bs') && AllUnequal(less, bs')
      && |Flatten(bs')| + 1 == |Flatten(bs)|
      && Members(Flatten(bs')) == Members(Flatten(bs)) - {bs[i][j]}
      && bs[i][j] in Members(Flatten(bs))
  {
    var b := bs[i];
    var b' := b[..j] + b[j + 1..];
    TableUnequal(hash, less, bs);
    FlattenSplit(bs, i);
    FlattenUpdate(bs, i, b');
    var pre, post := Flatten(bs[..i]), Flatten(bs[i + 1..]);
    hide Flatten;
    CutOut(less, pre, b, j, post);
  }

  lemma CutOut<E>(less: (E, E) -> bool, pre: seq<E>, b: seq<E>, j: nat, post: seq<E>)
    requires j < |b| && Unequal(less, pre + b + post) && forall e :: Equivalent(less, e, e)
    ensures Members(pre + (b[..j] + b[j + 1..]) + post) == Members(pre + b + post) - {b[j]}
  {
    var s := pre + b + post;
    var n := |pre| + j;
    assert s[n] == b[j];
    assert pre + (b[..j] + b[j + 1..]) + post == s[..n] + s[n + 1..];
    forall e ensures e in s[..n] + s[n + 1..] <==> e in s && e != s[n] {
      if e in s && e != s[n] {
        var k :| 0 <= k < |s| && s[k] == e;
        assert if k < n then s[..n][k] == e else s[n + 1..][k - n - 1] == e;
      }
    }
  }

  // ----- the table -----

  const MIN_BUCKETS: nat := 4
  const BEST_ELEMS_PER_BUCKET: nat := 2

  ghost predicate Wf<E(!new)>(hash: E -> nat, less: (E, E) -> bool, bs: seq<seq<E>>) {
    Lawful(hash, less) && |bs| >= MIN_BUCKETS && IsPow2(|bs|) && Placed(hash, bs) && AllUnequal(less, bs)
  }

  /** The answer of a search: an element of `s` equal to `e`, or that there is none. */
  ghost predicate Found<E(!new)>(less: (E, E) -> bool, s: set<E>, e: E, r: Option<E>) {
    match r
    case Some(x) => x in s && Equivalent(less, x, e)
    case None => forall x :: x in s ==> !Equivalent(less, x, e)
  }

  lemma FlattenGrow<E>(bs: seq<seq<E>>, i: nat)
    requires i < |bs|
    ensures Flatten(bs[..i + 1]) == Flatten(bs[..i]) + bs[i]
  {
    FlattenSplit(bs[..i + 1], i);
    assert bs[..i + 1][..i] == bs[..i];
  }

  lemma EmptyUnequal<E>(less: (E, E) -> bool, bs: seq<seq<E>>)
    requires forall i :: 0 <= i < |bs| ==> bs[i] == []
    ensures AllUnequal(less, bs)
  {
  }

  /** Pairwise unequal elements: each is there exactly once. */
  lemma {:induction false} EachOnce<E>(less: (E, E) -> bool, s: seq<E>)
    requires Unequal(less, s) && forall e :: e in s ==> Equivalent(less, e, e)
    ensures multiset(s) == multiset(Members(s))
  {
    if s == [] {
      assert Members(s) == {};
    } else {
      EachOnce(less, s[1..]);
      assert s == [s[0]] + s[1..];
      assert Members(s) == {s[0]} + Members(s[1..]);
      assert s[0] !in s[1..];
    }
  }

  /** Each element of a table is there exactly once. */
  lemma OneEach<E(!new)>(hash: E -> nat, less: (E, E) -> bool, bs: seq<seq<E>>)
    requires Lawful(hash, less) && Placed(hash, bs) && AllUnequal(less, bs)
    ensures multiset(Flatten(bs)) == multiset(Members(Flatten(bs)))
  {
    hide Flatten;
    TableUnequal(hash, less, bs);
    EachOnce(less, Flatten(bs));
  }

  lemma WfParts<E(!new)>(hash: E -> nat, less: (E, E) -> bool, bs: seq<seq<E>>)
    requires Wf(hash, less, bs)
    ensures Lawful(hash, less) && IsPow2(|bs|) && Placed(hash, bs) && AllUnequal(less, bs)
  {
  }

  /** What the search of one bucket says about the table. */
  lemma BucketAnswer<E(!new)>(hash: E -> nat, less: (E, E) -> bool, bs: seq<seq<E>>, i: nat, e: E, j: Option<nat>)
    requires Lawful(hash, less) && Placed(hash, bs) && i < |bs| && i == hash(e) % |bs|
    requires j.Some? ==> j.value < |bs[i]| && Equivalent(less, bs[i][j.value], e)
    requires j.None? ==> forall x :: x in bs[i] ==> !Equivalent(less, x, e)
    ensures Found(less, Members(Flatten(bs)), e, if j.Some? then Some(bs[i][j.value]) else None)
  {
    if j.Some? {
      assert Holds(bs, bs[i][j.value]);
      FlattenHolds(bs, bs[i][j.value]);
    } else {
      OnlyInBucket(hash, less, bs, i, e);
    }
  }

  lemma OthersUnequal<E(!new)>(hash: E -> nat, less: (E, E) -> bool, b: seq<E>, j: nat, e: E)
    requires Lawful(hash, less) && Unequal(less, b) && j < |b| && Equivalent(less, b[j], e)
    ensures forall x :: x in b[..j] + b[j + 1..] ==> !Equivalent(less, x, e)
  {
    forall k | 0 <= k < |b| && k != j ensures !Equivalent(less, b[k], e) {
      assert !Equivalent(less, b[k], b[j]);
    }
  }

  // ----- moving the elements -----

  /** The first `c` elements of `flat` are in the buckets. */
  ghost predicate Spread<E(!new)>(hash: E -> nat, less: (E, E) -> bool, bs: seq<seq<E>>, flat: seq<E>, c: nat) {
    && c <= |flat|
    && Placed(hash, bs) && AllUnequal(less, bs)
    && |Flatten(bs)| == c
    && Members(Flatten(bs)) == Members(flat[..c])
  }

  lemma SpreadNone<E(!new)>(hash: E -> nat, less: (E, E) -> bool, bs: seq<seq<E>>, flat: seq<E>)
    requires Flatten(bs) == [] && forall i :: 0 <= i < |bs| ==> bs[i] == []
    ensures Spread(hash, less, bs, flat, 0)
  {
  }

  lemma SpreadAll<E(!new)>(hash: E -> nat, less: (E, E) -> bool, bs: seq<seq<E>>, flat: seq<E>)
    requires Spread(hash, less, bs, flat, |flat|)
    ensures Placed(hash, bs) && AllUnequal(less, bs) && |Flatten(bs)| == |flat|
    ensures Members(Flatten(bs)) == Members(flat)
  {
    assert flat[..|flat|] == flat;
  }

  lemma SpreadStep<E(!new)>(hash: E -> nat, less: (E, E) -> bool, bs: seq<seq<E>>, flat: seq<E>, c: nat, i: nat)
    requires Lawful(hash, less) && Unequal(less, flat) && c < |flat| && Spread(hash, less, bs, flat, c)
    requires i < |bs| && i == hash(flat[c]) % |bs|
    ensures Spread(hash, less, bs[i := [flat[c]] + bs[i]], flat, c + 1)
  {
    forall x | x in bs[i] ensures !Equivalent(less, x, flat[c]) {
      assert Holds(bs, x);
      FlattenHolds(bs, x);
      assert x in Members(flat[..c]);
    }
    Pushed(hash, less, bs, i, flat[c]);
    assert flat[..c + 1] == flat[..c] + [flat[c]];
  }

  /** The elements of bucket `i` follow those of the buckets before. */
  lemma FlattenStep<E>(bs: seq<seq<E>>, i: nat)
    requires i < |bs|
    ensures |Flatten(bs[..i + 1])| == |Flatten(bs[..i])| + |bs[i]| <= |Flatten(bs)|
    ensures forall j :: 0 <= j < |bs[i]| ==> Flatten(bs)[|Flatten(bs[..i])| + j] == bs[i][j]
  {
    FlattenSplit(bs, i);
    FlattenSplit(bs[..i + 1], i);
    assert bs[..i + 1][..i] == bs[..i];
  }

  lemma {:induction false} EmptyFlatten<E>(bs: seq<seq<E>>)
    requires forall i :: 0 <= i < |bs| ==> bs[i] == []
    ensures Flatten(bs) == []
  {
    if bs != [] {
      EmptyFlatten(bs[1..]);
    }
  }

  // ----- the ideal number of buckets -----

  /** The loop of `rehash`: the largest power of two up to `n`. */
  method RoundToPow2(n: nat) returns (p: nat)
    requires n > 0
    ensures IsPow2(p) && p <= n < 2 * p
  {
    p := n;
    while TurnOffLeast(p) != 0
      invariant 0 < p <= n
      invariant forall k: nat :: Pow2(k) <= n ==> Pow2(k) <= p
      decreases p
    {
      LowestBit(p);
      p := TurnOffLeast(p);
    }
    LowestBit(p);
    ghost var k: nat :| p == Pow2(k);
    assert Pow2(k + 1) == 2 * p;
  }

  /** There are less than four elements for each bucket, and not less than two unless there are
      only four buckets. */
  predicate Balanced(elems: nat, buckets: nat) { elems < 4 * buckets && (buckets == 4 || 2 * buckets <= elems) }

  /** The bucket count that `rehash` wants for `elems` elements. */
  method IdealCount(elems: nat) returns (p: nat)
    ensures IsPow2(p) && p >= 4 && Balanced(elems, p)
  {
    var n := elems / BEST_ELEMS_PER_BUCKET;
    if n < MIN_BUCKETS {
      n := MIN_BUCKETS;
    }
    p := RoundToPow2(n);
    if p < MIN_BUCKETS {
      SmallPow2(p);
    }
  }

  lemma SmallPow2(p: nat)
    requires IsPow2(p)
    ensures p < 4 ==> 2 * p <= 4
  {
    var k: nat :| p == Pow2(k);
    if k >= 2 {
      assert Pow2(k) == 4 * Pow2(k - 2);
    }
  }
}
