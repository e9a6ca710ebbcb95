/** The chained hash table of lib/kernel/hash.c, with its buckets as doubly linked lists of
    the elements themselves.  It refines a finite set with one element per class of
    equivalent elements. */
module HashTable {
  import opened Basics
  import opened BitTricks
  import opened MergeRuns
  import opened HashBuckets
  import LinkedList
  import opened ListPool

  /** The lists of one array of buckets. */
  datatype BucketId = Bucket(block: nat, index: nat)

  ghost predicate Laid<E>(content: map<BucketId, seq<E>>, block: nat, n: nat) {
    forall b :: b in content <==> b.block == block && b.index < n
  }

  ghost predicate Covers<E>(content: map<BucketId, seq<E>>, block: nat, n: nat) {
    forall i: nat :: i < n ==> Bucket(block, i) in content
  }

  ghost function BucketsOf<E>(content: map<BucketId, seq<E>>, block: nat, n: nat): (bs: seq<seq<E>>)
    requires Covers(content, block, n)
    ensures |bs| == n && forall i: nat :: i < n ==> bs[i] == content[Bucket(block, i)]
  {
    seq(n, i requires 0 <= i < n => content[Bucket(block, i)])
  }

  /** One bucket has changed. */
  lemma BucketChanged<E>(content: map<BucketId, seq<E>>, block: nat, n: nat, i: nat, b: seq<E>)
    requires Covers(content, block, n) && i < n
    ensures var content' := content[Bucket(block, i) := b];
      Covers(content', block, n) && BucketsOf(content', block, n) == BucketsOf(content, block, n)[i := b]
    ensures Laid(content, block, n) ==> Laid(content[Bucket(block, i) := b], block, n)
  {
  }

  /** An element with no equal in its bucket is in no bucket. */
  lemma NotInTable<E(!new)>(hash: E -> nat, less: (E, E) -> bool, content: map<BucketId, seq<E>>, block: nat, n: nat,
                            i: nat, e: E)
    requires Laid(content, block, n) && Covers(content, block, n) && n > 0 && i == hash(e) % n
    requires Lawful(hash, less) && Placed(hash, BucketsOf(content, block, n))
    requires forall x :: x in content[Bucket(block, i)] ==> !Equivalent(less, x, e)
    ensures forall b :: b in content ==> e !in content[b]
  {
    forall b | b in content ensures e !in content[b] {
      assert BucketsOf(content, block, n)[b.index] == content[b];
    }
  }

  lemma EmptyTable<E(!new)>(hash: E -> nat, less: (E, E) -> bool, bs: seq<seq<E>>)
    requires Lawful(hash, less) && |bs| >= MIN_BUCKETS && IsPow2(|bs|) && forall i :: 0 <= i < |bs| ==> bs[i] == []
    ensures Wf(hash, less, bs) && Flatten(bs) == []
  {
    EmptyFlatten(bs);
    EmptyUnequal(less, bs);
  }

  // ----- moving to another array of buckets -----

  /** The buckets from bucket `i`, element `j`, on are still to be moved. */
  ghost predicate Moving<E>(content: map<BucketId, seq<E>>, olds: seq<seq<E>>, from: nat, to: nat, n: nat, i: nat,
                            j: nat)
    requires i < |olds| ==> j <= |olds[i]|
  {
    && from != to
    && (forall b :: b in content <==> (b.block == from && b.index < |olds|) || (b.block == to && b.index < n))
    && Covers(content, from, |olds|) && Covers(content, to, n)
    && (forall k: nat :: k < |olds| ==>
         content[Bucket(from, k)] == if k < i then [] else if k == i then olds[k][j..] else olds[k])
  }

  ghost function Moved<E>(content: map<BucketId, seq<E>>, from: BucketId, to: BucketId, e: E): map<BucketId, seq<E>>
    requires from in content && to in content && content[from] != []
  {
    content[from := content[from][1..]][to := [e] + content[to]]
  }

  lemma MovingStep<E>(content: map<BucketId, seq<E>>, olds: seq<seq<E>>, from: nat, to: nat, n: nat, i: nat, j: nat,
                      x: nat)
    requires i < |olds| && j < |olds[i]| && x < n && Moving(content, olds, from, to, n, i, j)
    ensures content[Bucket(from, i)] == olds[i][j..] && olds[i][j..][1..] == olds[i][j + 1..]
    ensures var content' := Moved(content, Bucket(from, i), Bucket(to, x), olds[i][j]);
      && Moving(content', olds, from, to, n, i, j + 1)
      && BucketsOf(content', to, n) == BucketsOf(content, to, n)[x := [olds[i][j]] + BucketsOf(content, to, n)[x]]
  {
    assert olds[i][j..][1..] == olds[i][j + 1..];
  }

  lemma MovingNext<E>(content: map<BucketId, seq<E>>, olds: seq<seq<E>>, from: nat, to: nat, n: nat, i: nat)
    requires i < |olds| && Moving(content, olds, from, to, n, i, |olds[i]|)
    ensures Moving(content, olds, from, to, n, i + 1, 0)
  {
  }

  lemma MovingCovers<E>(content: map<BucketId, seq<E>>, olds: seq<seq<E>>, from: nat, to: nat, n: nat, i: nat)
    requires Moving(content, olds, from, to, n, i, 0)
    ensures Covers(content, from, |olds|) && Covers(content, to, n)
  {
  }

  lemma LooseAfter<L(!new), E(!new)>(content: map<L, seq<E>>, content': map<L, seq<E>>, id: L, e: E)
    requires id in content && content[id] != [] && content' == content[id := content[id][1..]]
    requires forall b, q: nat :: b in content && q < |content[b]| && content[b][q] == e ==> b == id && q == 0
    ensures forall b :: b in content' ==> e !in content'[b]
  {
    forall b, q: nat | b in content' && q < |content'[b]| ensures content'[b][q] != e {
      var q' := if b == id then q + 1 else q;
      assert content[b][q'] == content'[b][q];
    }
  }

  class Table<E(!new, ==)> {
    const hash: E -> nat
    const less: (E, E) -> bool
    const lists: Lists<BucketId, E>
    var elemCnt: nat
    var bucketCnt: nat
    var block: nat                    // which array of buckets is in use

    ghost function Buckets(): seq<seq<E>>
      requires Covers(lists.content, block, bucketCnt)
      reads this, lists
    {
      BucketsOf(lists.content, block, bucketCnt)
    }

    /** The bucket lists are linked; what they hold is a hash table. */
    ghost predicate Valid()
      reads this, lists, lists.repr
    {
      && lists.Valid()
      && Laid(lists.content, block, bucketCnt) && Covers(lists.content, block, bucketCnt)
      && Wf(hash, less, Buckets()) && elemCnt == |Flatten(Buckets())|
    }

    ghost function Contents(): set<E>
      requires Covers(lists.content, block, bucketCnt)
      reads this, lists
    {
      Members(Flatten(Buckets()))
    }

    /** `hash_init`, when it gets the memory for the buckets. */
    constructor (hash: E -> nat, less: (E, E) -> bool)
      requires Lawful(hash, less)
      ensures Valid() && Contents() == {} && bucketCnt == MIN_BUCKETS && this.hash == hash && this.less == less
      ensures fresh(lists) && fresh(lists.repr)
    {
      hide Lists.Valid, Lawful;
      this.hash := hash;
      this.less := less;
      lists := new Lists();
      elemCnt := 0;
      bucketCnt := MIN_BUCKETS;
      block := 0;
      new;
      AddBuckets(0, MIN_BUCKETS);
      assert IsPow2(4) by { assert Pow2(2) == 4; }
      EmptyTable(hash, less, Buckets());
    }

    /** The loop of `list_init` over a new array of buckets. */
    method AddBuckets(block: nat, n: nat)
      requires lists.Valid() && forall b :: b in lists.content ==> b.block != block
      modifies lists
      ensures lists.Valid() && lists.elemOf == old(lists.elemOf)
      ensures forall b :: b in lists.content <==> b in old(lists.content) || (b.block == block && b.index < n)
      ensures forall b :: b in lists.content ==>
        lists.content[b] == if b in old(lists.content) then old(lists.content)[b] else []
      ensures old(lists.repr) <= lists.repr && fresh(lists.repr - old(lists.repr))
    {
      hide Lists.Valid;
      var i := 0;
      while i < n
        invariant i <= n && lists.Valid() && lists.elemOf == old(lists.elemOf)
        invariant forall b :: b in lists.content <==> b in old(lists.content) || (b.block == block && b.index < i)
        invariant forall b :: b in lists.content ==>
          lists.content[b] == if b in old(lists.content) then old(lists.content)[b] else []
        invariant old(lists.repr) <= lists.repr && fresh(lists.repr - old(lists.repr))
      {
        lists.AddList(Bucket(block, i));
        i := i + 1;
      }
    }

    /** The links of a new element. */
    method Own(e: E)
      requires lists.Valid()
      modifies lists
      ensures lists.Valid() && e in lists.elemOf && lists.content == old(lists.content)
      ensures old(lists.repr) <= lists.repr && fresh(lists.repr - old(lists.repr))
    {
      hide Shape;
      if e !in lists.elemOf {
        lists.AddNode(e);
      }
    }

    /** `find_bucket`. */
    method FindBucket(e: E) returns (i: nat)
      requires IsPow2(bucketCnt)
      ensures i < bucketCnt && i == hash(e) % bucketCnt
    {
      hide IsPow2;
      MaskSelects(hash(e), bucketCnt);
      i := And(hash(e), bucketCnt - 1);
    }

    /** `find_elem`: the element and its place in the bucket. */
    method FindElem(i: nat, e: E) returns (r: Option<E>, ghost p: nat)
      requires lists.Valid() && Bucket(block, i) in lists.content
      ensures var b := lists.content[Bucket(block, i)];
        && (r.Some? ==> p < |b| && r.value == b[p] && Equivalent(less, b[p], e))
        && (r.None? ==> forall x :: x in b ==> !Equivalent(less, x, e))
    {
      hide Lists.Valid;
      ghost var b := lists.content[Bucket(block, i)];
      p := 0;
      r := lists.Begin(Bucket(block, i));
      while r.Some?
        invariant p <= |b| && r == if p < |b| then Some(b[p]) else None
        invariant forall k :: 0 <= k < p ==> !Equivalent(less, b[k], e)
        decreases |b| - p
      {
        if !less(r.value, e) && !less(e, r.value) {
          return;
        }
        r := lists.Following(Bucket(block, i), r.value, p);
        p := p + 1;
      }
    }

    /** `insert_elem`. */
    method InsertElem(i: nat, e: E)
      requires Valid() && i < bucketCnt && i == hash(e) % bucketCnt
      requires forall x :: x in Buckets()[i] ==> !Equivalent(less, x, e)
      modifies this, lists, lists.repr
      ensures Valid() && Contents() == old(Contents()) + {e} && bucketCnt == old(bucketCnt)
      ensures old(lists.repr) <= lists.repr && fresh(lists.repr - old(lists.repr))
    {
      hide Lists.Valid, Flatten, Placed, AllUnequal, Lawful, BucketsOf, Laid, IsPow2;
      Pushed(hash, less, Buckets(), i, e);
      NotInTable(hash, less, lists.content, block, bucketCnt, i, e);
      BucketChanged(lists.content, block, bucketCnt, i, [e] + lists.content[Bucket(block, i)]);
      Own(e);
      elemCnt := elemCnt + 1;
      lists.PushFront(Bucket(block, i), e);
    }

    /** `remove_elem`. */
    method RemoveElem(i: nat, e: E, ghost p: nat)
      requires Valid() && i < bucketCnt && p < |Buckets()[i]| && e == Buckets()[i][p]
      modifies this, lists, lists.repr
      ensures Valid() && Contents() == old(Contents()) - {e} && bucketCnt == old(bucketCnt)
      ensures Buckets()[i] == old(Buckets()[i][..p] + Buckets()[i][p + 1..])
      ensures e in old(Contents()) && lists.repr == old(lists.repr)
    {
      hide Lists.Valid, Flatten, Placed, AllUnequal, Lawful, BucketsOf, Laid, IsPow2;
      ghost var b := lists.content[Bucket(block, i)];
      HashBuckets.Removed(hash, less, Buckets(), i, p);
      BucketChanged(lists.content, block, bucketCnt, i, b[..p] + b[p + 1..]);
      elemCnt := elemCnt - 1;
      lists.RemoveAt(Bucket(block, i), e, p);
    }

    /** `hash_find`. */
    method Find(e: E) returns (r: Option<E>)
      requires Valid()
      ensures Found(less, Contents(), e, r)
    {
      hide Lists.Valid, Placed, AllUnequal, Lawful, Flatten, IsPow2;
      var i := FindBucket(e);
      ghost var p: nat;
      r, p := FindElem(i, e);
      BucketAnswer(hash, less, Buckets(), i, e, if r.Some? then Some(p) else None);
    }

    /** The body of the inner loop of `rehash`: an element leaves its bucket while the bucket
        is walked. */
    method MoveElem(from: nat, i: nat, e: E, ghost olds: seq<seq<E>>, ghost j: nat, ghost flat: seq<E>, ghost c: nat)
      returns (next: Option<E>)
      requires lists.Valid() && Lawful(hash, less) && IsPow2(bucketCnt) && Unequal(less, flat) && c < |flat|
      requires i < |olds| && j < |olds[i]| && e == olds[i][j] == flat[c]
      requires Moving(lists.content, olds, from, block, bucketCnt, i, j)
      requires Spread(hash, less, Buckets(), flat, c)
      modifies lists`content, lists.repr
      ensures lists.Valid() && Moving(lists.content, olds, from, block, bucketCnt, i, j + 1)
      ensures Spread(hash, less, Buckets(), flat, c + 1)
      ensures next == if j + 1 < |olds[i]| then Some(olds[i][j + 1]) else None
    {
      hide Lists.Valid, Lawful, IsPow2, Unequal, Spread, BucketsOf;
      var x := FindBucket(e);
      MovingStep(lists.content, olds, from, block, bucketCnt, i, j, x);
      SpreadStep(hash, less, Buckets(), flat, c, x);
      next := lists.Following(Bucket(from, i), e, 0);
      Unlink(from, i, e);
      lists.PushFront(Bucket(block, x), e);
    }

    /** `list_remove` of the first element of a bucket, which is then on no list. */
    method Unlink(from: nat, i: nat, e: E)
      requires lists.Valid() && Bucket(from, i) in lists.content
      requires lists.content[Bucket(from, i)] != [] && lists.content[Bucket(from, i)][0] == e
      modifies lists`content, lists.repr
      ensures lists.Valid() && lists.Loose(e)
      ensures lists.content == old(lists.content)[Bucket(from, i) := old(lists.content)[Bucket(from, i)][1..]]
    {
      hide Lists.Valid;
      ghost var content := lists.content;
      var id := Bucket(from, i);
      lists.OnlyPlace(id, 0);
      lists.RemoveAt(id, e, 0);
      assert content[id][..0] + content[id][0 + 1..] == content[id][1..];
      LooseAfter(content, lists.content, id, e);
    }

    /** The inner loop of `rehash`. */
    method MoveBucket(from: nat, i: nat, ghost olds: seq<seq<E>>, ghost flat: seq<E>, ghost c: nat)
      requires lists.Valid() && Lawful(hash, less) && IsPow2(bucketCnt) && Unequal(less, flat)
      requires i < |olds| && c + |olds[i]| <= |flat| && forall j :: 0 <= j < |olds[i]| ==> olds[i][j] == flat[c + j]
      requires Moving(lists.content, olds, from, block, bucketCnt, i, 0)
      requires Spread(hash, less, Buckets(), flat, c)
      modifies lists`content, lists.repr
      ensures lists.Valid() && Moving(lists.content, olds, from, block, bucketCnt, i + 1, 0)
      ensures Spread(hash, less, Buckets(), flat, c + |olds[i]|)
    {
      hide Lists.Valid, Lawful, IsPow2, Unequal, Spread, BucketsOf;
      assert olds[i][0..] == olds[i];
      var elem := lists.Begin(Bucket(from, i));
      ghost var j := 0;
      while elem.Some?
        invariant j <= |olds[i]| && elem == if j < |olds[i]| then Some(olds[i][j]) else None
        invariant lists.Valid() && Moving(lists.content, olds, from, block, bucketCnt, i, j)
        invariant Spread(hash, less, Buckets(), flat, c + j)
        decreases |olds[i]| - j
      {
        elem := MoveElem(from, i, elem.value, olds, j, flat, c + j);
        j := j + 1;
      }
      MovingNext(lists.content, olds, from, block, bucketCnt, i);
    }

    /** The outer loop of `rehash`. */
    method MoveAll(from: nat, cnt: nat, ghost olds: seq<seq<E>>)
      requires lists.Valid() && Lawful(hash, less) && IsPow2(bucketCnt) && cnt == |olds|
      requires Moving(lists.content, olds, from, block, bucketCnt, 0, 0)
      requires Unequal(less, Flatten(olds)) && Spread(hash, less, Buckets(), Flatten(olds), 0)
      modifies lists`content, lists.repr
      ensures lists.Valid() && Moving(lists.content, olds, from, block, bucketCnt, cnt, 0)
      ensures Spread(hash, less, Buckets(), Flatten(olds), |Flatten(olds)|)
    {
      hide Lists.Valid, Lawful, IsPow2, Unequal, Spread, BucketsOf, Moving, Flatten;
      MovingCovers(lists.content, olds, from, block, bucketCnt, 0);
      EmptyFlatten(olds[..0]);
      ghost var flat := Flatten(olds);
      var i := 0;
      while i < cnt
        invariant i <= cnt && lists.Valid() && Moving(lists.content, olds, from, block, bucketCnt, i, 0)
        invariant Covers(lists.content, block, bucketCnt) && |Flatten(olds[..i])| <= |flat|
        invariant Spread(hash, less, Buckets(), flat, |Flatten(olds[..i])|)
      {
        FlattenStep(olds, i);
        MoveBucket(from, i, olds, flat, |Flatten(olds[..i])|);
        i := i + 1;
        MovingCovers(lists.content, olds, from, block, bucketCnt, i);
      }
      assert olds[..i] == olds;
    }

    /** The end of `rehash`: the old array of buckets goes. */
    method DropBuckets(from: nat, cnt: nat, ghost olds: seq<seq<E>>)
      requires lists.Valid() && cnt == |olds| && Moving(lists.content, olds, from, block, bucketCnt, cnt, 0)
      modifies lists
      ensures lists.Valid() && Laid(lists.content, block, bucketCnt) && Covers(lists.content, block, bucketCnt)
      ensures Buckets() == old(Buckets()) && lists.repr == old(lists.repr)
    {
      hide Lists.Valid;
      lists.Drop(set i: nat | i < cnt :: Bucket(from, i));
    }

    /** `rehash`: the same elements in the ideal number of buckets, if there is memory. */
    method Rehash(mem: bool)
      requires Valid()
      modifies this, lists, lists.repr
      ensures Valid() && Contents() == old(Contents()) && elemCnt == old(elemCnt)
      ensures mem ==> Balanced(elemCnt, bucketCnt)
      ensures !mem ==> Buckets() == old(Buckets())
      ensures old(lists.repr) <= lists.repr && fresh(lists.repr - old(lists.repr))
    {
      hide Lists.Valid, Placed, AllUnequal, Lawful, Unequal, IsPow2, Laid, Moving, BucketsOf;
      var n := IdealCount(elemCnt);
      if n == bucketCnt || !mem {
        return;
      }
      ghost var olds := Buckets();
      TableUnequal(hash, less, olds);
      var from, cnt := block, bucketCnt;
      Install(n, olds);
      MoveAll(from, cnt, olds);
      DropBuckets(from, cnt, olds);
      SpreadAll(hash, less, Buckets(), Flatten(olds));
    }

    /** New empty buckets are put in the place of the old ones, which keep the elements. */
    method Install(n: nat, ghost olds: seq<seq<E>>)
      requires lists.Valid() && Laid(lists.content, block, bucketCnt) && Covers(lists.content, block, bucketCnt)
      requires olds == Buckets()
      modifies this, lists
      ensures lists.Valid() && bucketCnt == n && elemCnt == old(elemCnt)
      ensures Moving(lists.content, olds, old(block), block, n, 0, 0)
      ensures Spread(hash, less, Buckets(), Flatten(olds), 0)
      ensures old(lists.repr) <= lists.repr && fresh(lists.repr - old(lists.repr))
    {
      hide Lists.Valid, Spread, Flatten;
      AddBuckets(block + 1, n);
      block, bucketCnt := block + 1, n;
      assert forall k :: 0 <= k < |olds| ==> olds[k][0..] == olds[k];
      EmptyFlatten(Buckets());
      SpreadNone(hash, less, Buckets(), Flatten(olds));
    }

    /** `hash_insert`. */
    method Insert(e: E, mem: bool) returns (r: Option<E>)
      requires Valid()
      modifies this, lists, lists.repr
      ensures Valid() && Found(less, old(Contents()), e, r)
      ensures Contents() == if r.Some? then old(Contents()) else old(Contents()) + {e}
      ensures mem ==> Balanced(elemCnt, bucketCnt)
      ensures old(lists.repr) <= lists.repr && fresh(lists.repr - old(lists.repr))
    {
      hide Lists.Valid, Wf, Flatten, Laid, BucketsOf;
      WfParts(hash, less, Buckets());
      var i := FindBucket(e);
      ghost var p: nat;
      r, p := FindElem(i, e);
      BucketAnswer(hash, less, Buckets(), i, e, if r.Some? then Some(p) else None);
      if r.None? {
        InsertElem(i, e);
      }
      Rehash(mem);
    }

    /** `hash_replace`. */
    method Replace(e: E, mem: bool) returns (r: Option<E>)
      requires Valid()
      modifies this, lists, lists.repr
      ensures Valid() && Found(less, old(Contents()), e, r)
      ensures Contents() == (if r.Some? then old(Contents()) - {r.value} else old(Contents())) + {e}
      ensures mem ==> Balanced(elemCnt, bucketCnt)
      ensures old(lists.repr) <= lists.repr && fresh(lists.repr - old(lists.repr))
    {
      hide Lists.Valid, Wf, Flatten, Laid, BucketsOf;
      WfParts(hash, less, Buckets());
      var i := FindBucket(e);
      ghost var p: nat;
      r, p := FindElem(i, e);
      BucketAnswer(hash, less, Buckets(), i, e, if r.Some? then Some(p) else None);
      if r.Some? {
        OthersUnequal(hash, less, Buckets()[i], p, e);
        RemoveElem(i, r.value, p);
      }
      InsertElem(i, e);
      Rehash(mem);
    }

    /** `hash_delete`. */
    method Delete(e: E, mem: bool) returns (r: Option<E>)
      requires Valid()
      modifies this, lists, lists.repr
      ensures Valid() && Found(less, old(Contents()), e, r)
      ensures Contents() == if r.Some? then old(Contents()) - {r.value} else old(Contents())
      ensures r.Some? && mem ==> Balanced(elemCnt, bucketCnt)
      ensures old(lists.repr) <= lists.repr && fresh(lists.repr - old(lists.repr))
    {
      hide Lists.Valid, Wf, Flatten, Laid, BucketsOf;
      WfParts(hash, less, Buckets());
      var i := FindBucket(e);
      ghost var p: nat;
      r, p := FindElem(i, e);
      BucketAnswer(hash, less, Buckets(), i, e, if r.Some? then Some(p) else None);
      if r.Some? {
        RemoveElem(i, r.value, p);
        Rehash(mem);
      }
    }

    /** The number of elements is the number of classes, no two elements are equal. */
    lemma OnePerClass()
      requires Valid()
      ensures |Contents()| == elemCnt
      ensures forall x, y :: x in Contents() && y in Contents() && x != y ==> !Equivalent(less, x, y)
    {
      hide Lists.Valid, Laid, BucketsOf, Flatten, Placed;
      TableUnequal(hash, less, Buckets());
      UnequalSize(less, Flatten(Buckets()));
    }

    /** The inner loop of `hash_clear`: the elements of one bucket, in order. */
    method Drain(i: nat) returns (gone: seq<E>)
      requires lists.Valid() && Bucket(block, i) in lists.content
      modifies lists`content, lists.repr
      ensures lists.Valid() && gone == old(lists.content[Bucket(block, i)])
      ensures lists.content == old(lists.content)[Bucket(block, i) := []]
    {
      hide Lists.Valid;
      gone := [];
      var id := Bucket(block, i);
      ghost var b, c := lists.content[id], lists.content;
      var empty := lists.IsEmpty(id);
      while !empty
        invariant lists.Valid() && id in lists.content && lists.content == c[id := lists.content[id]]
        invariant gone + lists.content[id] == b && (empty <==> lists.content[id] == [])
        decreases |lists.content[id]|
      {
        ghost var rest := lists.content[id];
        assert gone + rest == gone + [rest[0]] + rest[1..];
        var e := lists.PopFront(id);
        gone := gone + [e];
        empty := lists.IsEmpty(id);
      }
    }

    /** The body of the loop of `hash_clear`. */
    method ClearBucket(i: nat, destroy: bool) returns (gone: seq<E>)
      requires lists.Valid() && Bucket(block, i) in lists.content
      modifies lists`content, lists.repr
      ensures lists.Valid() && gone == if destroy then old(lists.content[Bucket(block, i)]) else []
      ensures lists.content == old(lists.content)[Bucket(block, i) := []]
    {
      hide Lists.Valid;
      gone := [];
      if destroy {
        gone := Drain(i);
      }
      lists.Reset(Bucket(block, i));
    }

    /** `hash_clear`; `gone` lists the calls of the destructor, which sees each element
        exactly once. */
    method Clear(destroy: bool) returns (gone: seq<E>)
      requires Valid()
      modifies this, lists`content, lists.repr
      ensures Valid() && Contents() == {} && bucketCnt == old(bucketCnt)
      ensures multiset(gone) == if destroy then multiset(old(Contents())) else multiset{}
    {
      hide Lists.Valid, Flatten, Unequal, BucketsOf, Placed, AllUnequal, IsPow2, Laid;
      ghost var olds := Buckets();
      OneEach(hash, less, olds);
      hide Lawful;
      gone := [];
      var i := 0;
      assert olds[..0] == [];
      EmptyFlatten(olds[..0]);
      while i < bucketCnt
        invariant i <= bucketCnt == |olds| && block == old(block) && lists.Valid()
        invariant Laid(lists.content, block, bucketCnt) && Covers(lists.content, block, bucketCnt)
        invariant forall k: nat :: k < bucketCnt ==>
          lists.content[Bucket(block, k)] == if k < i then [] else olds[k]
        invariant gone == if destroy then Flatten(olds[..i]) else []
      {
        FlattenGrow(olds, i);
        BucketChanged(lists.content, block, bucketCnt, i, []);
        var more := ClearBucket(i, destroy);
        gone := gone + more;
        i := i + 1;
      }
      assert olds[..i] == olds;
      elemCnt := 0;
      EmptyTable(hash, less, Buckets());
    }
  }

  /** `hash_init`; none when there is no memory for the buckets. */
  method HashInit<E(!new, ==)>(hash: E -> nat, less: (E, E) -> bool, mem: bool) returns (r: Option<Table<E>>)
    requires Lawful(hash, less)
    ensures r.Some? <==> mem
    ensures r.Some? ==> var t := r.value;
      && t.Valid() && t.Contents() == {} && t.bucketCnt == MIN_BUCKETS && t.hash == hash && t.less == less
      && fresh(t) && fresh(t.lists) && fresh(t.lists.repr)
  {
    hide Lists.Valid, Lawful, Flatten, Laid;
    if !mem {
      return None;
    }
    var t := new Table(hash, less);
    return Some(t);
  }

  // ----- iteration -----

  /** The elements from a place of one bucket on. */
  ghost function After<E>(bs: seq<seq<E>>, bucket: nat, pos: nat): seq<E>
    requires bucket < |bs| && pos <= |bs[bucket]|
  {
    bs[bucket][pos..] + Flatten(bs[bucket + 1..])
  }

  lemma AfterFirst<E>(bs: seq<seq<E>>)
    requires |bs| > 0
    ensures After(bs, 0, 0) == Flatten(bs)
  {
  }

  lemma AfterElem<E>(bs: seq<seq<E>>, bucket: nat, pos: nat)
    requires bucket < |bs| && pos < |bs[bucket]|
    ensures After(bs, bucket, pos) != [] && After(bs, bucket, pos)[0] == bs[bucket][pos]
    ensures After(bs, bucket, pos)[1..] == After(bs, bucket, pos + 1)
  {
    hide Flatten;
  }

  lemma AfterBucket<E>(bs: seq<seq<E>>, bucket: nat)
    requires bucket < |bs|
    ensures bucket + 1 < |bs| ==> After(bs, bucket, |bs[bucket]|) == After(bs, bucket + 1, 0)
    ensures bucket + 1 == |bs| ==> After(bs, bucket, |bs[bucket]|) == []
  {
  }

  class Iterator<E(!new, ==)> {
    const table: Table<E>
    var bucket: nat
    var elem: LinkedList.Elem
    ghost var pos: nat                // 0 at the head of the bucket's list

    ghost predicate Valid()
      reads this, table, table.lists, table.lists.repr
    {
      && table.Valid() && bucket < table.bucketCnt && pos <= |table.Buckets()[bucket]|
      && elem == table.lists.At(Bucket(table.block, bucket), pos)
    }

    /** The elements that are still to come. */
    ghost function Rest(): seq<E>
      requires Valid()
      reads this, table, table.lists, table.lists.repr
    {
      After(table.Buckets(), bucket, pos)
    }

    /** `hash_first`. */
    constructor (table: Table<E>)
      requires table.Valid()
      ensures Valid() && this.table == table && Rest() == Flatten(table.Buckets())
    {
      hide Lists.Valid, Placed, AllUnequal, Lawful, IsPow2, Flatten, After, Laid, Lists.At;
      AfterFirst(table.Buckets());
      var e := table.lists.HeadOf(Bucket(table.block, 0));
      this.table := table;
      bucket := 0;
      elem := e;
      pos := 0;
    }

    /** `hash_next`. */
    method Next() returns (r: Option<E>)
      requires Valid()
      modifies this
      ensures r.None? <==> old(Rest()) == []
      ensures r.Some? ==> Valid() && r.value == old(Rest()[0]) && Rest() == old(Rest()[1..])
    {
      hide Lists.Valid, Wf, Flatten, After, Laid, Lists.At, BucketsOf;
      ghost var bs, rest := table.Buckets(), Rest();
      elem, r := table.lists.Step(Bucket(table.block, bucket), elem, pos);
      while r.None?
        invariant bucket < table.bucketCnt && pos <= |bs[bucket]| && After(bs, bucket, pos) == rest
        invariant elem == table.lists.At(Bucket(table.block, bucket), pos + 1)
        invariant r == if pos < |bs[bucket]| then Some(bs[bucket][pos]) else None
        decreases table.bucketCnt - bucket
      {
        AfterBucket(bs, bucket);
        bucket := bucket + 1;
        if bucket >= table.bucketCnt {
          return None;
        }
        pos := 0;
        elem, r := table.lists.BeginElem(Bucket(table.block, bucket));
      }
      AfterElem(bs, bucket, pos);
      pos := pos + 1;
    }
  }

  /** The iteration idiom visits each element exactly once. */
  method Visit<E(!new, ==)>(table: Table<E>) returns (seen: seq<E>)
    requires table.Valid()
    ensures multiset(seen) == multiset(table.Contents()) && |seen| == table.elemCnt
  {
    hide Flatten, Unequal, Members, Wf, After, Lists.Valid, Laid, BucketsOf;
    var i := new Iterator(table);
    ghost var all := Flatten(table.Buckets());
    VisitedOnce(table);
    seen := [];
    var e := i.Next();
    while e.Some?
      invariant i.table == table && |seen| <= |all| && seen == all[..|seen|]
      invariant e.Some? ==> |seen| < |all| && e.value == all[|seen|] && i.Valid() && i.Rest() == all[|seen| + 1..]
      invariant e.None? ==> |seen| == |all|
      decreases |all| - |seen|
    {
      ghost var k := |seen|;
      SliceStep(all, k);
      seen := seen + [e.value];
      e := i.Next();
    }
    assert all[..|all|] == all;
  }

  lemma SliceStep<E>(all: seq<E>, k: nat)
    requires k < |all|
    ensures all[..k + 1] == all[..k] + [all[k]]
    ensures k + 1 < |all| ==> all[k + 1..][0] == all[k + 1] && all[k + 1..][1..] == all[k + 2..]
  {
  }

  lemma VisitedOnce<E(!new)>(table: Table<E>)
    requires table.Valid()
    ensures multiset(Flatten(table.Buckets())) == multiset(table.Contents())
  {
    hide Lists.Valid, Flatten, BucketsOf;
    OneEach(table.hash, table.less, table.Buckets());
  }
}
