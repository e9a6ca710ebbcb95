/** The bookkeeping of threads/malloc.c: arenas, free lists and live blocks, and what every
    operation on them keeps.  Addresses are numbers. */
module BlockStore {
  import opened BitTricks
  import opened PageAllocator

  const ARENA_SIZE: nat := 12        // sizeof (struct arena)
  const DESC_CNT: nat := 7

  type Desc = d: nat | d < DESC_CNT

  /** The descriptors that `malloc_init` sets up: powers of two from 16, below half a page. */
  const SIZES: seq<nat> := [16, 32, 64, 128, 256, 512, 1024]

  function BlockSize(d: Desc): nat { SIZES[d] }

  function PerArena(d: Desc): nat {
    (PGSIZE - ARENA_SIZE) / BlockSize(d)
  }

  datatype Arena = Small(desc: Desc, freeCnt: nat) | Big(pages: nat)

  /** `live` maps each block that the caller holds to the size the caller asked for. */
  datatype Store = Store(arenas: map<nat, Arena>, free: seq<seq<nat>>, live: map<nat, nat>)

  function RoundDown(b: nat): nat { b - b % PGSIZE }

  /** `arena_to_block`. */
  function Slot(a: nat, d: Desc, i: nat): nat { a + ARENA_SIZE + i * BlockSize(d) }

  function Extent(x: Arena): nat { if x.Small? then 1 else x.pages }

  ghost predicate IsSlot(a: nat, d: Desc, b: nat) {
    exists i: nat :: i < PerArena(d) && b == Slot(a, d, i)
  }

  /** `b` is a block of a small arena of descriptor `d`. */
  ghost predicate IsSmall(arenas: map<nat, Arena>, d: Desc, b: nat) {
    && RoundDown(b) in arenas
    && arenas[RoundDown(b)].Small?
    && arenas[RoundDown(b)].desc == d
    && IsSlot(RoundDown(b), d, b)
  }

  ghost predicate IsBig(arenas: map<nat, Arena>, b: nat) {
    RoundDown(b) in arenas && arenas[RoundDown(b)].Big? && b == RoundDown(b) + ARENA_SIZE
  }

  ghost predicate IsBlock(arenas: map<nat, Arena>, b: nat) {
    IsBig(arenas, b) || exists d: Desc :: IsSmall(arenas, d, b)
  }

  /** Bytes of a block that its holder may use: `block_size`. */
  function Usable(x: Arena): int {
    if x.Small? then BlockSize(x.desc) else PGSIZE * x.pages - ARENA_SIZE
  }

  // ----- the invariant -----

  ghost predicate ArenaOk(a: nat, x: Arena) {
    && a > 0 && a % PGSIZE == 0
    && (x.Small? ==> x.freeCnt <= PerArena(x.desc))
    && (x.Big? ==> x.pages > 0)
  }

  predicate Apart(a: nat, n: nat, a': nat, n': nat) {
    a + PGSIZE * n <= a' || a' + PGSIZE * n' <= a
  }

  ghost predicate Arenas(arenas: map<nat, Arena>) {
    && (forall a :: a in arenas ==> ArenaOk(a, arenas[a]))
    && (forall a, a' :: a in arenas && a' in arenas && a != a' ==>
         Apart(a, Extent(arenas[a]), a', Extent(arenas[a'])))
  }

  predicate Distinct(s: seq<nat>) {
    forall i, j :: 0 <= i < j < |s| ==> s[i] != s[j]
  }

  /** Each block of a small arena is either live or on its descriptor's list exactly once,
      and nothing else is on a list. */
  ghost predicate FreeLists(st: Store) {
    && |st.free| == DESC_CNT
    && (forall d: Desc :: Distinct(st.free[d]))
    && (forall d: Desc, b: nat :: b in st.free[d] <==> IsSmall(st.arenas, d, b) && b !in st.live)
  }

  /** Live blocks are blocks; each big arena's block is live. */
  ghost predicate LiveBlocks(st: Store) {
    && (forall b :: b in st.live ==> IsBlock(st.arenas, b))
    && (forall b :: IsBig(st.arenas, b) ==> b in st.live)
  }

  function FreeIn(list: seq<nat>, a: nat): set<nat> {
    set b | b in list && RoundDown(b) == a
  }

  /** `free_cnt` is the number of the arena's blocks on the list. */
  ghost predicate Counted(st: Store)
    requires |st.free| == DESC_CNT
  {
    forall a :: a in st.arenas && st.arenas[a].Small? ==>
      st.arenas[a].freeCnt == |FreeIn(st.free[st.arenas[a].desc], a)|
  }

  /** The page rounding of a big request leaves `size_t`. */
  predicate Wraps(size: nat) {
    size + ARENA_SIZE + PGSIZE - 1 > SIZE_MAX
  }

  /** A live block is as large as asked for, exactly if the request did not wrap. */
  ghost predicate Sized(st: Store) {
    forall b :: b in st.live && RoundDown(b) in st.arenas ==>
      (st.live[b] <= Usable(st.arenas[RoundDown(b)]) <==> !Wraps(st.live[b]))
  }

  ghost predicate Inv(st: Store) {
    Arenas(st.arenas) && FreeLists(st) && LiveBlocks(st) && Counted(st) && Sized(st)
  }

  /** No arena is wholly free. */
  ghost predicate AtRest(arenas: map<nat, Arena>) {
    forall a :: a in arenas && arenas[a].Small? ==> arenas[a].freeCnt < PerArena(arenas[a].desc)
  }

  // ----- slots -----

  lemma SlotBounds(a: nat, d: Desc, i: nat)
    requires i < PerArena(d) && a % PGSIZE == 0
    ensures a + ARENA_SIZE <= Slot(a, d, i)
    ensures Slot(a, d, i) + BlockSize(d) <= a + PGSIZE
    ensures RoundDown(Slot(a, d, i)) == a
  {
    var s, n := BlockSize(d), PerArena(d);
    assert n * s <= PGSIZE - ARENA_SIZE;
    assert i * s + s <= n * s by { MulMono(i + 1, n, s); }
  }

  lemma SlotsApart(a: nat, d: Desc, i: nat, j: nat)
    requires i < j
    ensures Slot(a, d, i) + BlockSize(d) <= Slot(a, d, j)
  {
    MulMono(i + 1, j, BlockSize(d));
  }

  /** The checks in `block_to_arena` never fail for a block. */
  lemma BlockAligned(arenas: map<nat, Arena>, b: nat)
    requires Arenas(arenas) && IsBlock(arenas, b)
    ensures var x := arenas[RoundDown(b)];
      && RoundDown(b) + ARENA_SIZE <= b
      && b + Usable(x) <= RoundDown(b) + PGSIZE * Extent(x)
      && (x.Small? ==> (b % PGSIZE - ARENA_SIZE) % BlockSize(x.desc) == 0)
      && (x.Big? ==> b % PGSIZE == ARENA_SIZE)
  {
    var a := RoundDown(b);
    assert ArenaOk(a, arenas[a]);
    if arenas[a].Small? {
      var d := arenas[a].desc;
      var i: nat :| i < PerArena(d) && b == Slot(a, d, i);
      SlotBounds(a, d, i);
      assert b % PGSIZE - ARENA_SIZE == i * BlockSize(d);
      Remainder(i * BlockSize(d), BlockSize(d), i, 0);
    }
  }

  // ----- live blocks do not overlap -----

  /** Two blocks occupy disjoint bytes. */
  lemma BlocksDisjoint(arenas: map<nat, Arena>, b: nat, c: nat)
    requires Arenas(arenas) && IsBlock(arenas, b) && IsBlock(arenas, c) && b != c
    ensures b + Usable(arenas[RoundDown(b)]) <= c || c + Usable(arenas[RoundDown(c)]) <= b
  {
    BlockAligned(arenas, b);
    BlockAligned(arenas, c);
    var a := RoundDown(b);
    if a == RoundDown(c) && arenas[a].Small? {
      var d := arenas[a].desc;
      var i: nat :| i < PerArena(d) && b == Slot(a, d, i);
      var j: nat :| j < PerArena(d) && c == Slot(a, d, j);
      if i < j {
        SlotsApart(a, d, i, j);
      } else {
        SlotsApart(a, d, j, i);
      }
    }
  }

  /** Live blocks are pairwise disjoint, past their arena's header and inside it, and as
      large as asked for. */
  lemma LiveDisjoint(st: Store, b: nat, c: nat)
    requires Inv(st) && b in st.live && c in st.live && b != c
    requires !Wraps(st.live[b]) && !Wraps(st.live[c])
    ensures b + st.live[b] <= c || c + st.live[c] <= b
    ensures RoundDown(b) + ARENA_SIZE <= b
    ensures b + st.live[b] <= RoundDown(b) + PGSIZE * Extent(st.arenas[RoundDown(b)])
  {
    BlocksDisjoint(st.arenas, b, c);
    BlockAligned(st.arenas, b);
  }

  // ----- the slots of one arena -----

  function Slots(a: nat, d: Desc): seq<nat> {
    seq(PerArena(d), i requires 0 <= i => Slot(a, d, i))
  }

  lemma SlotsAreSlots(a: nat, d: Desc, b: nat)
    ensures b in Slots(a, d) <==> IsSlot(a, d, b)
  {
    if IsSlot(a, d, b) {
      var i: nat :| i < PerArena(d) && b == Slot(a, d, i);
      assert Slots(a, d)[i] == b;
    }
  }

  lemma SlotsDistinct(a: nat, d: Desc)
    ensures Distinct(Slots(a, d))
  {
    forall i, j | 0 <= i < j < PerArena(d) ensures Slots(a, d)[i] != Slots(a, d)[j] {
      SlotsApart(a, d, i, j);
    }
  }

  ghost function Elements(s: seq<nat>): set<nat> { set b | b in s }

  lemma {:induction false} DistinctSize(s: seq<nat>)
    requires Distinct(s)
    ensures |Elements(s)| == |s|
  {
    if s == [] {
      assert Elements(s) == {};
    } else {
      assert Elements(s) == {s[0]} + Elements(s[1..]);
      DistinctSize(s[1..]);
    }
  }

  lemma AllInArena(a: nat, d: Desc)
    requires a % PGSIZE == 0
    ensures FreeIn(Slots(a, d), a) == Elements(Slots(a, d))
    ensures |FreeIn(Slots(a, d), a)| == PerArena(d)
    ensures forall b :: b in Slots(a, d) ==> RoundDown(b) == a
  {
    forall i: nat | i < PerArena(d) ensures RoundDown(Slots(a, d)[i]) == a {
      SlotBounds(a, d, i);
    }
    SlotsDistinct(a, d);
    DistinctSize(Slots(a, d));
  }

  // ----- a new arena -----

  ghost predicate Room(arenas: map<nat, Arena>, a: nat, n: nat) {
    && a !in arenas && a > 0 && a % PGSIZE == 0
    && forall a' :: a' in arenas ==> Apart(a, n, a', Extent(arenas[a']))
  }

  ghost function WithArena(st: Store, a: nat, d: Desc): Store
    requires d < |st.free|
  {
    st.(arenas := st.arenas[a := Small(d, PerArena(d))], free := st.free[d := Slots(a, d)])
  }

  lemma AddArenaLists(st: Store, a: nat, d: Desc)
    requires FreeLists(st) && LiveBlocks(st) && st.free[d] == [] && a !in st.arenas && a % PGSIZE == 0
    ensures FreeLists(WithArena(st, a, d)) && LiveBlocks(WithArena(st, a, d))
  {
    var st' := WithArena(st, a, d);
    SlotsDistinct(a, d);
    AllInArena(a, d);
    hide RoundDown, IsSlot, Slots, FreeIn, Elements;
    forall e: Desc, b: nat ensures b in st'.free[e] <==> IsSmall(st'.arenas, e, b) && b !in st'.live {
      if RoundDown(b) == a {
        SlotsAreSlots(a, d, b);
        assert b !in st.live && b !in st.free[e];
      } else {
        assert b !in Slots(a, d);
        assert IsSmall(st'.arenas, e, b) <==> IsSmall(st.arenas, e, b);
      }
    }
    SameBlocks(st, st');
  }

  lemma AddArenaCounts(st: Store, a: nat, d: Desc)
    requires FreeLists(st) && Counted(st) && st.free[d] == [] && a !in st.arenas && a % PGSIZE == 0
    ensures Counted(WithArena(st, a, d))
  {
    AllInArena(a, d);
    hide RoundDown, IsSlot, Slots;
    forall a' ensures a' != a ==> |FreeIn(Slots(a, d), a')| == |FreeIn(st.free[d], a')| {
      assert FreeIn(st.free[d], a') == {};
      assert a' != a ==> FreeIn(Slots(a, d), a') == {};
    }
    assert FreeIn(Slots(a, d), a) == FreeIn(WithArena(st, a, d).free[d], a);
  }

  lemma AddArena(st: Store, a: nat, d: Desc)
    requires Inv(st) && st.free[d] == [] && Room(st.arenas, a, 1)
    ensures Inv(WithArena(st, a, d))
  {
    hide FreeLists, Counted, RoundDown, BlockSize, PerArena, Slots, IsSlot;
    AddArenaLists(st, a, d);
    AddArenaCounts(st, a, d);
  }

  // ----- taking a block and putting it back -----

  /** Block `b` of the arena at `a`, at the head of its list, is handed out. */
  ghost function Taken(st: Store, a: nat, b: nat, size: nat): Store
    requires a in st.arenas && st.arenas[a].Small? && st.arenas[a].freeCnt > 0
    requires st.arenas[a].desc < |st.free| && st.free[st.arenas[a].desc] != []
  {
    var d := st.arenas[a].desc;
    Store(st.arenas[a := Small(d, st.arenas[a].freeCnt - 1)], st.free[d := st.free[d][1..]], st.live[b := size])
  }

  /** The head of a free list is a block whose arena counts it. */
  lemma HeadCounted(st: Store, d: Desc)
    requires FreeLists(st) && Counted(st) && st.free[d] != []
    ensures var b := st.free[d][0];
      && IsSmall(st.arenas, d, b) && b !in st.live && st.arenas[RoundDown(b)].freeCnt > 0
  {
    var b := st.free[d][0];
    assert b in st.free[d];
    assert b in FreeIn(st.free[d], RoundDown(b));
  }

  lemma Tail(s: seq<nat>, a: nat)
    requires Distinct(s) && s != []
    ensures forall b :: b in s[1..] <==> b in s && b != s[0]
    ensures RoundDown(s[0]) == a ==> FreeIn(s, a) == FreeIn(s[1..], a) + {s[0]}
    ensures RoundDown(s[0]) != a ==> FreeIn(s, a) == FreeIn(s[1..], a)
    ensures s[0] !in FreeIn(s[1..], a)
  {
    hide RoundDown;
    assert s == [s[0]] + s[1..];
  }

  lemma TakeLists(st: Store, d: Desc, a: nat, b: nat, size: nat)
    requires FreeLists(st) && LiveBlocks(st) && st.free[d] != [] && b == st.free[d][0] && a == RoundDown(b)
    requires IsSmall(st.arenas, d, b) && st.arenas[a].freeCnt > 0
    ensures FreeLists(Taken(st, a, b, size)) && LiveBlocks(Taken(st, a, b, size))
  {
    Tail(st.free[d], a);
    hide RoundDown, IsSlot, FreeIn;
    var st' := Taken(st, a, b, size);
    forall e: Desc, c: nat ensures c in st'.free[e] <==> IsSmall(st'.arenas, e, c) && c !in st'.live {
      assert IsSmall(st'.arenas, e, c) <==> IsSmall(st.arenas, e, c);
    }
    SameBlocks(st, st');
  }

  /** Blocks stay blocks as long as the arenas keep their descriptors. */
  lemma SameBlocks(st: Store, st': Store)
    requires LiveBlocks(st)
    requires forall d: Desc, b :: IsSmall(st.arenas, d, b) ==> IsSmall(st'.arenas, d, b)
    requires forall b :: IsBig(st.arenas, b) <==> IsBig(st'.arenas, b)
    requires forall b :: b in st'.live && b !in st.live ==> IsBlock(st'.arenas, b)
    requires forall b :: b in st.live && b !in st'.live ==> !IsBig(st.arenas, b)
    ensures LiveBlocks(st')
  {
    hide IsSmall, IsBig;
  }

  lemma TakeCounts(st: Store, d: Desc, a: nat, b: nat, size: nat)
    requires FreeLists(st) && Counted(st) && st.free[d] != [] && b == st.free[d][0] && a == RoundDown(b)
    requires IsSmall(st.arenas, d, b) && st.arenas[a].freeCnt > 0
    ensures Counted(Taken(st, a, b, size))
  {
    hide RoundDown, IsSlot, FreeIn;
    forall a' ensures a' != a ==> FreeIn(st.free[d], a') == FreeIn(st.free[d][1..], a') {
      Tail(st.free[d], a');
    }
    Tail(st.free[d], a);
  }

  /** A free count in its range keeps the arenas. */
  lemma Recount(arenas: map<nat, Arena>, a: nat, n: nat)
    requires Arenas(arenas) && a in arenas && arenas[a].Small?
    requires n <= PerArena(arenas[a].desc) || n <= arenas[a].freeCnt
    ensures Arenas(arenas[a := Small(arenas[a].desc, n)])
  {
    hide Apart, PerArena;
    assert ArenaOk(a, arenas[a]);
  }

  lemma SmallNeverWraps(d: Desc, size: nat)
    requires size <= BlockSize(d)
    ensures !Wraps(size)
  {
  }

  lemma TakenSized(st: Store, d: Desc, a: nat, b: nat, size: nat)
    requires Sized(st) && |st.free| == DESC_CNT && st.free[d] != [] && a == RoundDown(b) && IsSmall(st.arenas, d, b)
    requires st.arenas[a].freeCnt > 0 && size <= BlockSize(d) && !Wraps(size)
    ensures Sized(Taken(st, a, b, size))
  {
    hide RoundDown, IsSlot, Wraps, BlockSize;
  }

  lemma PutSized(st: Store, d: Desc, a: nat, b: nat)
    requires Sized(st) && |st.free| == DESC_CNT && a == RoundDown(b) && IsSmall(st.arenas, d, b)
    ensures Sized(PutBack(st, a, b))
  {
    hide RoundDown, IsSlot, Wraps, BlockSize;
  }

  lemma Take(st: Store, d: Desc, a: nat, b: nat, size: nat)
    requires Inv(st) && st.free[d] != [] && b == st.free[d][0] && a == RoundDown(b) && size <= BlockSize(d)
    ensures IsSmall(st.arenas, d, b) && st.arenas[a].freeCnt > 0
    ensures Inv(Taken(st, a, b, size))
  {
    hide RoundDown, IsSlot, LiveBlocks, Counted, Arenas, Sized, PerArena;
    HeadCounted(st, d);
    TakeLists(st, d, a, b, size);
    TakeCounts(st, d, a, b, size);
    Recount(st.arenas, a, st.arenas[a].freeCnt - 1);
    SmallNeverWraps(d, size);
    TakenSized(st, d, a, b, size);
  }

  ghost function PutBack(st: Store, a: nat, b: nat): Store
    requires a in st.arenas && st.arenas[a].Small? && st.arenas[a].desc < |st.free|
  {
    var d := st.arenas[a].desc;
    Store(st.arenas[a := Small(d, st.arenas[a].freeCnt + 1)], st.free[d := [b] + st.free[d]], st.live - {b})
  }

  lemma PutLists(st: Store, d: Desc, a: nat, b: nat)
    requires FreeLists(st) && LiveBlocks(st) && b in st.live && IsSmall(st.arenas, d, b) && a == RoundDown(b)
    ensures FreeLists(PutBack(st, a, b)) && LiveBlocks(PutBack(st, a, b))
  {
    hide RoundDown, IsSlot;
    var st' := PutBack(st, a, b);
    forall e: Desc, c: nat ensures c in st'.free[e] <==> IsSmall(st'.arenas, e, c) && c !in st'.live {
      assert IsSmall(st'.arenas, e, c) <==> IsSmall(st.arenas, e, c);
    }
    SameBlocks(st, st');
  }

  lemma PutCounts(st: Store, d: Desc, a: nat, b: nat)
    requires FreeLists(st) && Counted(st) && b in st.live && IsSmall(st.arenas, d, b) && a == RoundDown(b)
    ensures Counted(PutBack(st, a, b))
  {
    hide RoundDown, IsSlot, FreeIn;
    var list := [b] + st.free[d];
    assert list[1..] == st.free[d];
    forall a' ensures a' != a ==> FreeIn(list, a') == FreeIn(st.free[d], a') {
      Tail(list, a');
    }
    Tail(list, a);
  }

  lemma Put(st: Store, d: Desc, a: nat, b: nat)
    requires Inv(st) && b in st.live && IsSmall(st.arenas, d, b) && a == RoundDown(b)
    requires st.arenas[a].freeCnt < PerArena(d)
    ensures Inv(PutBack(st, a, b))
  {
    hide RoundDown, IsSlot, LiveBlocks, Counted, Arenas, Sized, PerArena;
    PutLists(st, d, a, b);
    PutCounts(st, d, a, b);
    Recount(st.arenas, a, st.arenas[a].freeCnt + 1);
    PutSized(st, d, a, b);
  }

  // ----- dropping a wholly free arena -----

  lemma {:induction false} SubsetSize(s: set<nat>, t: set<nat>)
    requires s <= t
    ensures |s| <= |t|
  {
    if s != {} {
      var x :| x in s;
      SubsetSize(s - {x}, t - {x});
    }
  }

  lemma SubsetFull(s: set<nat>, t: set<nat>)
    requires s <= t && |s| == |t|
    ensures s == t
  {
    if s != t {
      var x :| x in t && x !in s;
      SubsetSize(s, t - {x});
    }
  }

  /** A full free count means that every slot of the arena is on the list. */
  lemma AllFree(st: Store, a: nat)
    requires Inv(st) && a in st.arenas && st.arenas[a].Small?
    requires st.arenas[a].freeCnt == PerArena(st.arenas[a].desc)
    ensures FreeIn(st.free[st.arenas[a].desc], a) == Elements(Slots(a, st.arenas[a].desc))
  {
    var d := st.arenas[a].desc;
    AllInArena(a, d);
    hide RoundDown, IsSlot, Slots, Apart;
    forall b | b in FreeIn(st.free[d], a) ensures b in Slots(a, d) {
      SlotsAreSlots(a, d, b);
    }
    SubsetFull(FreeIn(st.free[d], a), Elements(Slots(a, d)));
  }

  /** No arena at rest is wholly free: each holds a live block. */
  lemma ArenaInUse(st: Store, a: nat)
    requires Inv(st) && AtRest(st.arenas) && a in st.arenas
    ensures exists b :: b in st.live && RoundDown(b) == a
  {
    hide RoundDown, IsSlot, Slots, Apart;
    assert ArenaOk(a, st.arenas[a]);
    if st.arenas[a].Big? {
      BigArena(a);
      assert IsBig(st.arenas, a + ARENA_SIZE);
    } else {
      var d := st.arenas[a].desc;
      AllInArena(a, d);
      if forall b :: b in Slots(a, d) ==> b in st.free[d] {
        SubsetSize(FreeIn(Slots(a, d), a), FreeIn(st.free[d], a));
      } else {
        var b :| b in Slots(a, d) && b !in st.free[d];
        SlotsAreSlots(a, d, b);
        assert IsSmall(st.arenas, d, b);
      }
    }
  }

  ghost predicate Purged(list: seq<nat>, a: nat, list': seq<nat>) {
    && Distinct(list')
    && forall b :: b in list' <==> b in list && RoundDown(b) != a
  }

  ghost function WithoutArena(st: Store, a: nat, d: Desc, list': seq<nat>): Store
    requires d < |st.free|
  {
    st.(arenas := st.arenas - {a}, free := st.free[d := list'])
  }

  /** No live block lies in a wholly free arena. */
  lemma NoneLive(st: Store, a: nat)
    requires Inv(st) && a in st.arenas && st.arenas[a].Small?
    requires st.arenas[a].freeCnt == PerArena(st.arenas[a].desc)
    ensures forall b :: b in st.live ==> RoundDown(b) != a
  {
    var d := st.arenas[a].desc;
    AllFree(st, a);
    hide RoundDown, IsSlot, Slots, Apart;
    forall b | b in st.live ensures RoundDown(b) != a {
      SlotsAreSlots(a, d, b);
      assert b in Slots(a, d) ==> b in FreeIn(st.free[d], a);
    }
  }

  lemma DropLists(st: Store, a: nat, d: Desc, list': seq<nat>)
    requires FreeLists(st) && LiveBlocks(st) && a in st.arenas && st.arenas[a].Small? && st.arenas[a].desc == d
    requires (forall b :: b in st.live ==> RoundDown(b) != a) && Purged(st.free[d], a, list')
    ensures FreeLists(WithoutArena(st, a, d, list')) && LiveBlocks(WithoutArena(st, a, d, list'))
  {
    hide RoundDown, IsSlot;
    var st' := WithoutArena(st, a, d, list');
    forall e: Desc, b: nat ensures b in st'.free[e] <==> IsSmall(st'.arenas, e, b) && b !in st'.live {
      assert RoundDown(b) != a ==> (IsSmall(st'.arenas, e, b) <==> IsSmall(st.arenas, e, b));
    }
    forall b | b in st'.live ensures IsBlock(st'.arenas, b) {
      if !IsBig(st.arenas, b) {
        var e: Desc :| IsSmall(st.arenas, e, b);
        assert IsSmall(st'.arenas, e, b);
      }
    }
  }

  lemma DropCounts(st: Store, a: nat, d: Desc, list': seq<nat>)
    requires |st.free| == DESC_CNT && Counted(st) && Purged(st.free[d], a, list')
    ensures Counted(WithoutArena(st, a, d, list'))
  {
    hide RoundDown;
    forall a' ensures a' != a ==> FreeIn(list', a') == FreeIn(st.free[d], a') {
    }
  }

  lemma DropArena(st: Store, a: nat, list': seq<nat>)
    requires Inv(st) && a in st.arenas && st.arenas[a].Small?
    requires st.arenas[a].freeCnt == PerArena(st.arenas[a].desc)
    requires Purged(st.free[st.arenas[a].desc], a, list')
    ensures Inv(WithoutArena(st, a, st.arenas[a].desc, list'))
  {
    NoneLive(st, a);
    DropLists(st, a, st.arenas[a].desc, list');
    DropCounts(st, a, st.arenas[a].desc, list');
    hide RoundDown, FreeLists, LiveBlocks, Counted, Apart;
  }

  // ----- big blocks -----

  ghost function WithBig(st: Store, a: nat, n: nat, size: nat): Store {
    st.(arenas := st.arenas[a := Big(n)], live := st.live[a + ARENA_SIZE := size])
  }

  lemma BigArena(a: nat)
    requires a % PGSIZE == 0
    ensures RoundDown(a + ARENA_SIZE) == a
  {
  }

  lemma AddBig(st: Store, a: nat, n: nat, size: nat)
    requires Inv(st) && n > 0 && Room(st.arenas, a, n)
    requires size <= PGSIZE * n - ARENA_SIZE <==> !Wraps(size)
    ensures Inv(WithBig(st, a, n, size))
  {
    hide RoundDown, LiveBlocks, Apart, Wraps, Arenas, Sized, IsSmall;
    BigArena(a);
    AddBigLists(st, a, n, size);
    AddBigLive(st, a, n, size);
    AddBigArenas(st.arenas, a, n);
    AddBigSized(st, a, n, size);
    assert Counted(WithBig(st, a, n, size));
  }

  lemma AddBigArenas(arenas: map<nat, Arena>, a: nat, n: nat)
    requires Arenas(arenas) && n > 0 && Room(arenas, a, n)
    ensures Arenas(arenas[a := Big(n)])
  {
    forall a' | a' in arenas ensures Apart(a', Extent(arenas[a']), a, n) {
      assert Apart(a, n, a', Extent(arenas[a']));
    }
  }

  lemma AddBigSized(st: Store, a: nat, n: nat, size: nat)
    requires Sized(st) && LiveBlocks(st) && a !in st.arenas && RoundDown(a + ARENA_SIZE) == a
    requires size <= PGSIZE * n - ARENA_SIZE <==> !Wraps(size)
    ensures Sized(WithBig(st, a, n, size))
  {
    hide RoundDown, IsSlot, Wraps;
  }

  lemma AddBigLists(st: Store, a: nat, n: nat, size: nat)
    requires FreeLists(st) && LiveBlocks(st) && a !in st.arenas && RoundDown(a + ARENA_SIZE) == a
    ensures FreeLists(WithBig(st, a, n, size))
  {
    hide RoundDown, IsSlot;
    var st' := WithBig(st, a, n, size);
    forall e: Desc, b: nat ensures b in st'.free[e] <==> IsSmall(st'.arenas, e, b) && b !in st'.live {
      assert IsSmall(st'.arenas, e, b) <==> IsSmall(st.arenas, e, b);
    }
  }

  lemma AddBigLive(st: Store, a: nat, n: nat, size: nat)
    requires LiveBlocks(st) && a !in st.arenas && RoundDown(a + ARENA_SIZE) == a
    ensures LiveBlocks(WithBig(st, a, n, size))
  {
    hide RoundDown, IsSlot;
    var st' := WithBig(st, a, n, size);
    assert IsBig(st'.arenas, a + ARENA_SIZE);
    forall b | b in st.live ensures IsBlock(st'.arenas, b) {
      if !IsBig(st.arenas, b) {
        var e: Desc :| IsSmall(st.arenas, e, b);
        assert IsSmall(st'.arenas, e, b);
      }
    }
    forall b | IsBig(st'.arenas, b) ensures b in st'.live {
      assert b != a + ARENA_SIZE ==> IsBig(st.arenas, b);
    }
  }

  ghost function WithoutBig(st: Store, a: nat, b: nat): Store {
    st.(arenas := st.arenas - {a}, live := st.live - {b})
  }

  lemma DropBigLists(st: Store, a: nat, b: nat)
    requires FreeLists(st) && LiveBlocks(st) && IsBig(st.arenas, b) && a == RoundDown(b)
    ensures FreeLists(WithoutBig(st, a, b)) && LiveBlocks(WithoutBig(st, a, b))
  {
    hide RoundDown, IsSlot;
    var st' := WithoutBig(st, a, b);
    forall e: Desc, c: nat ensures c in st'.free[e] <==> IsSmall(st'.arenas, e, c) && c !in st'.live {
      assert IsSmall(st'.arenas, e, c) <==> IsSmall(st.arenas, e, c);
    }
    forall c | c in st'.live ensures IsBlock(st'.arenas, c) {
      if IsBig(st.arenas, c) {
        assert IsBig(st'.arenas, c);
      } else {
        var e: Desc :| IsSmall(st.arenas, e, c);
        assert IsSmall(st'.arenas, e, c);
      }
    }
    forall c | IsBig(st'.arenas, c) ensures c in st'.live {
      assert IsBig(st.arenas, c);
    }
  }

  lemma DropBig(st: Store, a: nat, b: nat)
    requires Inv(st) && IsBig(st.arenas, b) && a == RoundDown(b)
    ensures Inv(WithoutBig(st, a, b))
  {
    hide RoundDown, LiveBlocks, Apart, BlockSize, PerArena, IsSlot, IsSmall;
    DropBigLists(st, a, b);
    assert Counted(WithoutBig(st, a, b));
  }
}
