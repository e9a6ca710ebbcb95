/** What each step of threads/malloc.c does to the allocator's state and to memory. */
module MallocSteps {
  import opened Basics
  import opened Bitmap
  import opened PageAllocator
  import opened BlockStore
  import opened MemList
  import opened HeapMemory

  // ----- pages behind the arenas -----

  /** Page ranges without a common page have no common byte. */
  lemma RangesApart(base: nat, a: nat, n: nat, a': nat, n': nat)
    requires PgOfs(base) == 0 && PgOfs(a) == 0 && PgOfs(a') == 0
    requires PgNo(base) <= PgNo(a) && PgNo(base) <= PgNo(a') && n > 0 && n' > 0
    requires Range(PgNo(a) - PgNo(base), n) !! Range(PgNo(a') - PgNo(base), n')
    ensures Apart(a, n, a', n')
  {
    var i: nat, j: nat := PgNo(a) - PgNo(base), PgNo(a') - PgNo(base);
    assert i in Range(i, n) && j in Range(j, n');
    assert j in Range(i, n) <==> i <= j < i + n;
    assert i in Range(j, n') <==> j <= i < j + n';
  }

  lemma ApartRanges(base: nat, a: nat, n: nat, a': nat, n': nat)
    requires PgOfs(base) == 0 && PgOfs(a) == 0 && PgOfs(a') == 0
    requires PgNo(base) <= PgNo(a) && PgNo(base) <= PgNo(a') && Apart(a, n, a', n')
    ensures Range(PgNo(a) - PgNo(base), n) !! Range(PgNo(a') - PgNo(base), n')
  {
  }

  /** Page `i` of the pool belongs to an arena. */
  ghost predicate Owned(arenas: map<nat, Arena>, base: nat, i: nat) {
    exists a :: a in arenas && PgNo(a) <= PgNo(base) + i < PgNo(a) + Extent(arenas[a])
  }

  /** Each held page belongs to an arena or to another part of the kernel, not to both. */
  ghost predicate Accounted(arenas: map<nat, Arena>, base: nat, held: set<nat>, clients: set<nat>) {
    && (forall i :: i in clients ==> i in held && !Owned(arenas, base, i))
    && (forall i :: i in held ==> i in clients || Owned(arenas, base, i))
  }

  /** The held pages of the pool are those of the arenas and those of the clients. */
  ghost predicate Backed(arenas: map<nat, Arena>, base: nat, pages: nat, held: set<nat>, clients: set<nat>) {
    && (forall a :: a in arenas ==> HeldPages(base, pages, held, a, Extent(arenas[a])))
    && Accounted(arenas, base, held, clients)
  }

  /** Pages have been granted that no arena stands on yet. */
  ghost predicate Granted(arenas: map<nat, Arena>, base: nat, pages: nat, held: set<nat>, clients: set<nat>,
                          a: nat, n: nat) {
    && HeldPages(base, pages, held, a, n)
    && Backed(arenas, base, pages, held - Range(PgNo(a) - PgNo(base), n), clients)
  }

  lemma GrantedNow(arenas: map<nat, Arena>, base: nat, pages: nat, held: set<nat>, held': set<nat>, clients: set<nat>,
                   a: nat, n: nat)
    requires Backed(arenas, base, pages, held, clients) && PageFromPool(base, pages, a)
    requires PgNo(a) - PgNo(base) + n <= pages && Range(PgNo(a) - PgNo(base), n) !! held
    requires held' == held + Range(PgNo(a) - PgNo(base), n)
    ensures Granted(arenas, base, pages, held', clients, a, n)
  {
    hide Backed;
    assert held' - Range(PgNo(a) - PgNo(base), n) == held;
  }

  lemma RoomIsNew(arenas: map<nat, Arena>, a: nat, n: nat)
    requires Room(arenas, a, n)
    ensures a !in arenas
  {
  }

  /** An arena is set up on the granted pages. */
  lemma NewBacked(arenas: map<nat, Arena>, a: nat, x: Arena, base: nat, pages: nat, held: set<nat>, clients: set<nat>)
    requires Granted(arenas, base, pages, held, clients, a, Extent(x)) && a !in arenas
    ensures Backed(arenas[a := x], base, pages, held, clients)
  {
    NewHeld(arenas, a, x, base, pages, held, clients);
    NewAccounted(arenas, a, x, base, pages, held, clients);
  }

  lemma NewHeld(arenas: map<nat, Arena>, a: nat, x: Arena, base: nat, pages: nat, held: set<nat>, clients: set<nat>)
    requires Granted(arenas, base, pages, held, clients, a, Extent(x)) && a !in arenas
    ensures var arenas' := arenas[a := x];
      forall a' :: a' in arenas' ==> HeldPages(base, pages, held, a', Extent(arenas'[a']))
  {
    hide Accounted, PgNo, Range;
  }

  lemma NewAccounted(arenas: map<nat, Arena>, a: nat, x: Arena, base: nat, pages: nat, held: set<nat>,
                     clients: set<nat>)
    requires Granted(arenas, base, pages, held, clients, a, Extent(x)) && a !in arenas
    ensures Accounted(arenas[a := x], base, held, clients)
  {
    hide PgNo;
    var r := Range(PgNo(a) - PgNo(base), Extent(x));
    forall i: nat ensures Owned(arenas[a := x], base, i) <==> Owned(arenas, base, i) || i in r {
      OwnedWith(arenas, a, x, base, i);
    }
  }

  lemma OwnedWith(arenas: map<nat, Arena>, a: nat, x: Arena, base: nat, i: nat)
    requires a !in arenas && PgNo(base) <= PgNo(a)
    ensures Owned(arenas[a := x], base, i) <==> Owned(arenas, base, i) || i in Range(PgNo(a) - PgNo(base), Extent(x))
  {
    hide PgNo;
    var arenas' := arenas[a := x];
    if Owned(arenas, base, i) {
      var a' :| a' in arenas && PgNo(a') <= PgNo(base) + i < PgNo(a') + Extent(arenas[a']);
      assert a' in arenas' && arenas'[a'] == arenas[a'];
    }
    if i in Range(PgNo(a) - PgNo(base), Extent(x)) {
      assert a in arenas' && PgNo(a) <= PgNo(base) + i < PgNo(a) + Extent(arenas'[a]);
    }
  }

  /** New pages of the pool are apart from all arenas. */
  lemma GrantedRoom(arenas: map<nat, Arena>, base: nat, pages: nat, held: set<nat>, clients: set<nat>,
                    addr: nat, n: nat)
    requires Arenas(arenas) && Backed(arenas, base, pages, held, clients) && PgOfs(base) == 0
    requires PageFromPool(base, pages, addr) && PgOfs(addr) == 0 && addr > 0 && n > 0
    requires Range(PgNo(addr) - PgNo(base), n) !! held
    ensures Room(arenas, addr, n)
  {
    hide Apart, PgNo, Range, Accounted;
    forall a | a in arenas ensures Apart(addr, n, a, Extent(arenas[a])) {
      assert ArenaOk(a, arenas[a]);
      assert HeldPages(base, pages, held, a, Extent(arenas[a]));
      RangesApart(base, addr, n, a, Extent(arenas[a]));
    }
    if addr in arenas {
      NotApart(addr, n, Extent(arenas[addr]));
    }
  }

  lemma NotApart(a: nat, n: nat, n': nat)
    requires n > 0 && n' > 0
    ensures !Apart(a, n, a, n')
  {
  }

  /** Releasing the pages of one arena leaves those of the others, and no page behind. */
  lemma ReleasedBacked(arenas: map<nat, Arena>, a: nat, base: nat, pages: nat, held: set<nat>, clients: set<nat>)
    requires Arenas(arenas) && Backed(arenas, base, pages, held, clients) && PgOfs(base) == 0 && a in arenas
    ensures PageFromPool(base, pages, a)
    ensures Backed(arenas - {a}, base, pages, held - Range(PgNo(a) - PgNo(base), Extent(arenas[a])), clients)
  {
    hide Apart, PgNo, Range, Accounted;
    assert HeldPages(base, pages, held, a, Extent(arenas[a]));
    forall a' | a' in arenas && a' != a
      ensures HeldPages(base, pages, held - Range(PgNo(a) - PgNo(base), Extent(arenas[a])), a', Extent(arenas[a']))
      ensures Range(PgNo(a) - PgNo(base), Extent(arenas[a])) !! Range(PgNo(a') - PgNo(base), Extent(arenas[a']))
    {
      assert HeldPages(base, pages, held, a', Extent(arenas[a']));
      assert ArenaOk(a, arenas[a]) && ArenaOk(a', arenas[a']);
      ApartRanges(base, a, Extent(arenas[a]), a', Extent(arenas[a']));
    }
    ReleasedAccounted(arenas, a, base, held, clients);
  }

  lemma ReleasedHeld(arenas: map<nat, Arena>, a: nat, base: nat, pages: nat, held: set<nat>, clients: set<nat>)
    requires Arenas(arenas) && Backed(arenas, base, pages, held, clients) && a in arenas
    ensures HeldPages(base, pages, held, a, Extent(arenas[a])) && PgOfs(a) == 0 && a > 0 && Extent(arenas[a]) > 0
    ensures PgNo(base) <= PgNo(a)
  {
    assert HeldPages(base, pages, held, a, Extent(arenas[a])) && ArenaOk(a, arenas[a]);
  }

  lemma ReleasedAccounted(arenas: map<nat, Arena>, a: nat, base: nat, held: set<nat>, clients: set<nat>)
    requires Accounted(arenas, base, held, clients) && a in arenas
    requires forall a' :: a' in arenas ==> PgNo(base) <= PgNo(a')
    requires forall a' :: a' in arenas && a' != a ==>
      Range(PgNo(a) - PgNo(base), Extent(arenas[a])) !! Range(PgNo(a') - PgNo(base), Extent(arenas[a']))
    ensures Accounted(arenas - {a}, base, held - Range(PgNo(a) - PgNo(base), Extent(arenas[a])), clients)
  {
    hide PgNo, Range;
    var less, r := arenas - {a}, Range(PgNo(a) - PgNo(base), Extent(arenas[a]));
    forall i: nat ensures Owned(arenas, base, i) <==> Owned(less, base, i) || i in r {
      assert less[a := arenas[a]] == arenas;
      OwnedWith(less, a, arenas[a], base, i);
    }
    forall i: nat | i in r ensures !Owned(less, base, i) {
      NotOwned(less, base, i, r);
    }
  }

  lemma NotOwned(arenas: map<nat, Arena>, base: nat, i: nat, r: set<nat>)
    requires i in r && forall a :: a in arenas ==> PgNo(base) <= PgNo(a)
    requires forall a :: a in arenas ==> r !! Range(PgNo(a) - PgNo(base), Extent(arenas[a]))
    ensures !Owned(arenas, base, i)
  {
    hide PgNo;
    forall a | a in arenas ensures !(PgNo(a) <= PgNo(base) + i < PgNo(a) + Extent(arenas[a])) {
      assert i !in Range(PgNo(a) - PgNo(base), Extent(arenas[a]));
    }
  }

  // ----- the allocator -----

  /** There are no `n` free pages in a row. */
  ghost predicate NoRun(bits: seq<bool>, n: nat) {
    forall i: nat :: !Run(bits, i, n, false)
  }

  /** The descriptor that serves a small request. */
  ghost predicate Smallest(d: Desc, size: nat) {
    size <= BlockSize(d) && forall e: nat :: e < d ==> BlockSize(e) < size
  }

  /** The block is one of the smallest descriptor that is large enough, or a big one of the
      pages the request needs. */
  ghost predicate ServedFrom(arenas: map<nat, Arena>, b: nat, size: nat) {
    && RoundDown(b) in arenas
    && match arenas[RoundDown(b)]
       case Small(d, _) => Smallest(d, size)
       case Big(n) => size > BlockSize(DESC_CNT - 1) && n == PagesFor(size)
  }

  lemma SmallNeedsOne(d: nat, size: nat)
    requires d <= DESC_CNT && (d < DESC_CNT ==> size <= BlockSize(d))
    requires forall e: nat :: e < d ==> BlockSize(e) < size
    ensures d < DESC_CNT <==> size <= BlockSize(DESC_CNT - 1)
    ensures d < DESC_CNT ==> PagesFor(size) == 1 && Smallest(d, size)
    ensures forall e: Desc :: Smallest(e, size) ==> e == d
  {
  }

  /** The pages a request needs, as `size_t` arithmetic computes them. */
  function PagesFor(size: nat): nat {
    if size <= BlockSize(DESC_CNT - 1) then 1
    else (size + ARENA_SIZE + PGSIZE - 1) % (SIZE_MAX + 1) / PGSIZE
  }

  /** The pages hold the request and the arena header exactly if the sum did not wrap. */
  lemma PagesSuffice(size: nat)
    requires BlockSize(DESC_CNT - 1) < size <= SIZE_MAX
    ensures size <= PGSIZE * PagesFor(size) - ARENA_SIZE <==> !Wraps(size)
    ensures !Wraps(size) ==> PagesFor(size) > 0
  {
  }

  /** The largest request wraps: it gets one page, too small for it. */
  lemma WrappedRequest()
    ensures Wraps(SIZE_MAX) && PagesFor(SIZE_MAX) == 1 && PGSIZE * 1 - ARENA_SIZE < SIZE_MAX
  {
  }

  /** `block_size` of a live block. */
  ghost function SizeOf(st: Store, b: nat): nat
    requires Settled(st) && b in st.live
  {
    LiveSmall(st, b);
    Usable(st.arenas[RoundDown(b)])
  }

  // ----- requests and answers -----

  /** An answer to a request: a new block apart from all live ones, or nothing. */
  ghost predicate Answered(st: Store, st': Store, size: nat, r: Option<nat>) {
    && (r.None? ==> st' == st)
    && (r.Some? ==> r.value !in st.live && st'.live == st.live[r.value := size])
    && KeepsSizes(st, st')
  }

  ghost predicate Settled(st: Store) {
    Inv(st) && AtRest(st.arenas)
  }

  lemma InvArenas(st: Store)
    requires Settled(st)
    ensures Arenas(st.arenas) && |st.free| == DESC_CNT
  {
  }

  lemma NothingChanged(st: Store)
    ensures KeepsSizes(st, st)
  {
  }

  lemma BigStep(st: Store, a: nat, n: nat, size: nat)
    requires Settled(st) && n > 0 && Room(st.arenas, a, n)
    requires size <= PGSIZE * n - ARENA_SIZE <==> !Wraps(size)
    ensures Settled(WithBig(st, a, n, size))
    ensures Answered(st, WithBig(st, a, n, size), size, Some(a + ARENA_SIZE))
  {
    hide RoundDown, IsSlot, Apart, FreeLists, Counted, Sized, Arenas;
    AddBig(st, a, n, size);
    BigArena(a);
  }

  lemma TakeStep(st: Store, d: Desc, a: nat, b: nat, size: nat)
    requires Inv(st) && st.free[d] != [] && b == st.free[d][0] && a == RoundDown(b) && size <= BlockSize(d)
    requires AtRest(st.arenas - {a})
    ensures IsSmall(st.arenas, d, b) && st.arenas[a].freeCnt > 0
    ensures Settled(Taken(st, a, b, size))
    ensures Answered(st, Taken(st, a, b, size), size, Some(b))
  {
    hide RoundDown, IsSlot, KeepsSizes, AtRest;
    HeadCounted(st, d);
    Take(st, d, a, b, size);
    TakenRest(st, d, a);
    RecountKeeps(st, Taken(st, a, b, size), a);
  }

  lemma TakenRest(st: Store, d: Desc, a: nat)
    requires Arenas(st.arenas) && AtRest(st.arenas - {a})
    requires a in st.arenas && st.arenas[a].Small? && st.arenas[a].desc == d && st.arenas[a].freeCnt > 0
    ensures AtRest(st.arenas[a := Small(d, st.arenas[a].freeCnt - 1)])
  {
    hide Apart, PerArena;
    assert ArenaOk(a, st.arenas[a]);
    assert forall a' :: a' in st.arenas && a' != a ==> a' in st.arenas - {a};
  }

  /** A change of a free count changes no block size. */
  lemma RecountKeeps(st: Store, st': Store, a: nat)
    requires a in st.arenas && st.arenas[a].Small? && a in st'.arenas && st'.arenas[a].Small?
    requires st'.arenas == st.arenas[a := Small(st.arenas[a].desc, st'.arenas[a].freeCnt)]
    ensures KeepsSizes(st, st')
  {
    hide RoundDown;
  }

  lemma RestStep(st: Store, d: Desc, size: nat)
    requires Settled(st) && st.free[d] != [] && size <= BlockSize(d)
    ensures var b := st.free[d][0]; var a := RoundDown(b);
      && a in st.arenas && st.arenas[a].Small? && st.arenas[a].desc == d && st.arenas[a].freeCnt > 0
      && Settled(Taken(st, a, b, size))
      && Answered(st, Taken(st, a, b, size), size, Some(b))
  {
    InvArenas(st);
    hide Inv, RoundDown, IsSlot;
    var b := st.free[d][0];
    TakeStep(st, d, RoundDown(b), b, size);
  }

  /** A new arena's first block is handed out. */
  lemma NewArenaStep(st: Store, a: nat, d: Desc, b: nat, size: nat)
    requires Settled(st) && st.free[d] == [] && Room(st.arenas, a, 1) && size <= BlockSize(d)
    requires b == Slot(a, d, 0)
    ensures Inv(WithArena(st, a, d)) && WithArena(st, a, d).free[d] != [] && WithArena(st, a, d).free[d][0] == b
    ensures RoundDown(b) == a && PerArena(d) > 0
    ensures Settled(Taken(WithArena(st, a, d), a, b, size))
    ensures Answered(st, Taken(WithArena(st, a, d), a, b, size), size, Some(b))
  {
    AddArena(st, a, d);
    FirstSlot(a, d);
    var st1 := WithArena(st, a, d);
    assert st1.arenas - {a} == st.arenas;
    TakeStep(st1, d, a, b, size);
    hide RoundDown, IsSlot, Apart, FreeLists, Counted, Sized, LiveBlocks, Slots;
  }

  lemma FirstSlot(a: nat, d: Desc)
    requires a % PGSIZE == 0
    ensures PerArena(d) > 0 && Slots(a, d)[0] == Slot(a, d, 0) && RoundDown(Slot(a, d, 0)) == a
  {
    SlotBounds(a, d, 0);
  }

  // ----- giving back -----

  ghost predicate Released(st: Store, st': Store, b: nat) {
    st'.live == st.live - {b} && KeepsSizes(st, st')
  }

  lemma DropBigStep(st: Store, a: nat, b: nat)
    requires Settled(st) && b in st.live && a == RoundDown(b) && a in st.arenas && st.arenas[a].Big?
    ensures Settled(WithoutBig(st, a, b)) && Released(st, WithoutBig(st, a, b), b)
  {
    DropBig(st, a, b);
    hide IsSlot, RoundDown, FreeLists, Counted, Sized, Apart;
  }

  lemma LiveSmall(st: Store, b: nat)
    requires Inv(st) && b in st.live
    ensures RoundDown(b) in st.arenas
    ensures st.arenas[RoundDown(b)].Small? ==> IsSmall(st.arenas, st.arenas[RoundDown(b)].desc, b)
  {
    hide IsSlot, RoundDown, FreeLists, Counted, Sized, Arenas;
  }

  /** A block goes back on its list; its arena stays or is wholly free. */
  lemma PutStep(st: Store, d: Desc, a: nat, b: nat)
    requires Settled(st) && b in st.live && a == RoundDown(b) && IsSmall(st.arenas, d, b)
    ensures Inv(PutBack(st, a, b)) && Released(st, PutBack(st, a, b), b)
    ensures AtRest(PutBack(st, a, b).arenas - {a})
    ensures PutBack(st, a, b).arenas[a].freeCnt <= PerArena(d)
    ensures PutBack(st, a, b).arenas[a].freeCnt < PerArena(d) ==> Settled(PutBack(st, a, b))
  {
    Put(st, d, a, b);
    hide IsSlot, RoundDown, FreeLists, Counted, Sized, Apart, LiveBlocks;
  }

  lemma DropStep(st: Store, a: nat, list: seq<nat>)
    requires Inv(st) && a in st.arenas && st.arenas[a].Small? && AtRest(st.arenas - {a})
    requires st.arenas[a].freeCnt == PerArena(st.arenas[a].desc)
    requires Purged(st.free[st.arenas[a].desc], a, list)
    ensures Settled(WithoutArena(st, a, st.arenas[a].desc, list))
    ensures KeepsSizes(st, WithoutArena(st, a, st.arenas[a].desc, list))
  {
    NoneLive(st, a);
    DropArena(st, a, list);
    hide IsSlot, RoundDown, FreeLists, Counted, Sized, Apart, LiveBlocks;
  }

  lemma KeepsTrans(st: Store, st1: Store, st2: Store, b: nat)
    requires Released(st, st1, b) && KeepsSizes(st1, st2) && st2.live == st1.live
    ensures Released(st, st2, b)
  {
    hide RoundDown, Usable;
  }

  /** A distinct list without the element at one place. */
  lemma CutElements(s: seq<nat>, p: nat)
    requires Distinct(s) && p < |s|
    ensures Distinct(s[..p] + s[p + 1..])
    ensures forall b :: b in s[..p] + s[p + 1..] <==> b in s && b != s[p]
  {
    var t := s[..p] + s[p + 1..];
    forall b ensures b in t <==> b in s && b != s[p] {
      if b in s && b != s[p] {
        var k :| 0 <= k < |s| && s[k] == b;
        assert t[if k < p then k else k - 1] == b;
      }
    }
  }

  /** Removing all slots of a wholly free arena leaves the blocks of other arenas. */
  lemma PurgedBySlots(st: Store, a: nat, list: seq<nat>)
    requires Inv(st) && a in st.arenas && st.arenas[a].Small?
    requires st.arenas[a].freeCnt == PerArena(st.arenas[a].desc)
    requires Distinct(list)
    requires forall b :: b in list <==> b in st.free[st.arenas[a].desc] && b !in Slots(a, st.arenas[a].desc)
    ensures Purged(st.free[st.arenas[a].desc], a, list)
  {
    var d := st.arenas[a].desc;
    AllFree(st, a);
    hide RoundDown, Slots, IsSlot, FreeLists, Counted, Sized, Apart, LiveBlocks;
    forall b ensures b in list <==> b in st.free[d] && RoundDown(b) != a {
      assert b in FreeIn(st.free[d], a) <==> b in Elements(Slots(a, d));
    }
  }

  lemma InvParts(st: Store)
    requires Inv(st)
    ensures Arenas(st.arenas) && |st.free| == DESC_CNT && forall d: Desc :: Distinct(st.free[d])
  {
  }

  lemma AllFreeParts(st: Store, a: nat)
    requires Inv(st) && a in st.arenas && st.arenas[a].Small?
    requires st.arenas[a].freeCnt == PerArena(st.arenas[a].desc)
    ensures forall b :: b in Slots(a, st.arenas[a].desc) ==> b in st.free[st.arenas[a].desc]
  {
    var d := st.arenas[a].desc;
    AllFree(st, a);
    hide Slots, IsSlot, RoundDown;
    forall b | b in Slots(a, d) ensures b in st.free[d] {
      assert b in Elements(Slots(a, d));
    }
  }

  // ----- bytes -----

  /** `memset`. */
  function Fill(m: Mem, start: nat, n: nat, c: Byte): Mem {
    (x: nat) => if start <= x < start + n then c else m(x)
  }

  lemma FillRegion(m: Mem, start: nat, n: nat, c: Byte)
    ensures OnlyRegion(m, Fill(m, start, n, c), start, n)
  {
  }

  /** `memcpy`. */
  function Copy(m: Mem, dst: nat, src: nat, n: nat): Mem {
    (x: nat) => if dst <= x < dst + n then m(src + (x - dst)) else m(x)
  }

  lemma CopyRegion(m: Mem, dst: nat, src: nat, n: nat, room: nat)
    requires n <= room
    ensures OnlyRegion(m, Copy(m, dst, src, n), dst, room)
    ensures Bytes(Copy(m, dst, src, n), dst, n) == Bytes(m, src, n)
  {
  }

  function Min(a: nat, b: nat): nat { if a < b then a else b }

  ghost function Bytes(m: Mem, b: nat, n: nat): seq<Byte> {
    seq(n, (k: nat) => m(b + k))
  }

  lemma SameIsEqual(m: Mem, m': Mem, b: nat, n: nat, k: nat)
    requires SameBytes(m, m', b, n) && k <= n
    ensures Bytes(m', b, k) == Bytes(m, b, k)
  {
  }

  /** Every block that is live before and after keeps its bytes, all that `block_size` counts. */
  ghost predicate BytesKept(m: Mem, m': Mem, st: Store, st': Store)
    requires Settled(st)
  {
    forall b :: b in st.live && b in st'.live ==> Bytes(m', b, SizeOf(st, b)) == Bytes(m, b, SizeOf(st, b))
  }

  lemma LiveBytes(m: Mem, m': Mem, st: Store, b: nat, k: nat)
    requires Settled(st) && LiveSame(m, m', st) && b in st.live && k <= SizeOf(st, b)
    ensures Bytes(m', b, k) == Bytes(m, b, k)
  {
    hide RoundDown, Inv, Usable, AtRest;
    LiveSmall(st, b);
    assert SameBytes(m, m', b, SizeOf(st, b));
    SameIsEqual(m, m', b, SizeOf(st, b), k);
  }

  lemma MallocBytes(m: Mem, m': Mem, st: Store, st': Store)
    requires Settled(st) && LiveSame(m, m', st)
    ensures BytesKept(m, m', st, st')
  {
    hide LiveSame, Settled, SizeOf, Bytes;
    forall b | b in st.live ensures Bytes(m', b, SizeOf(st, b)) == Bytes(m, b, SizeOf(st, b)) {
      LiveBytes(m, m', st, b, SizeOf(st, b));
    }
  }

  lemma FreeBytes(m: Mem, m': Mem, st: Store, st': Store)
    requires Settled(st) && Settled(st') && LiveSame(m, m', st') && KeepsSizes(st, st')
    ensures BytesKept(m, m', st, st')
  {
    hide LiveSame, Settled, SizeOf, Bytes, KeepsSizes;
    forall b | b in st.live && b in st'.live ensures Bytes(m', b, SizeOf(st, b)) == Bytes(m, b, SizeOf(st, b)) {
      SizeKept(st, st', b);
      LiveBytes(m, m', st', b, SizeOf(st, b));
    }
  }

  lemma SizeKept(st: Store, st1: Store, p: nat)
    requires Settled(st) && Settled(st1) && KeepsSizes(st, st1) && p in st.live && p in st1.live
    ensures SizeOf(st1, p) == SizeOf(st, p)
  {
    LiveSmall(st, p);
    hide Inv, RoundDown;
  }

  lemma KeepsLive(st: Store, st1: Store, st2: Store, p: nat)
    requires KeepsSizes(st, st1) && KeepsSizes(st1, st2)
    requires st2.live == st1.live - {p} && st.live.Keys <= st1.live.Keys
    ensures KeepsSizes(st, st2)
  {
    hide RoundDown, Usable;
  }

  lemma BigPlace(arenas: map<nat, Arena>, a: nat, n: nat, size: nat)
    requires Room(arenas, a, n) && size > BlockSize(DESC_CNT - 1) && n == PagesFor(size)
    ensures ServedFrom(arenas[a := Big(n)], a + ARENA_SIZE, size)
  {
    BigArena(a);
    hide RoundDown, PagesFor;
  }

  function Behind(s: seq<nat>): seq<nat> { if s == [] then [] else s[1..] }

  /** A small request takes the first block of its list, or of a new arena if the list is empty. */
  ghost predicate TookFirst(st: Store, st': Store, d: Desc, b: nat) {
    && |st.free| == DESC_CNT
    && st'.free == st.free[d := Behind(if st.free[d] != [] then st.free[d] else Slots(RoundDown(b), d))]
    && b == if st.free[d] != [] then st.free[d][0] else Slot(RoundDown(b), d, 0)
  }

  /** A small block goes to the front of its list, and its arena goes exactly if it is wholly
      free then; a big block's arena goes. */
  ghost predicate WentBack(st: Store, st': Store, b: nat) {
    && |st.free| == |st'.free| == DESC_CNT && RoundDown(b) in st.arenas
    && match st.arenas[RoundDown(b)]
       case Small(d, cnt) =>
         && (RoundDown(b) in st'.arenas <==> cnt + 1 < PerArena(d))
         && (RoundDown(b) in st'.arenas ==> st'.free == st.free[d := [b] + st.free[d]])
         && (RoundDown(b) !in st'.arenas ==>
               st'.free == st.free[d := st'.free[d]] && Purged(st.free[d], RoundDown(b), st'.free[d]))
       case Big(_) => RoundDown(b) !in st'.arenas && st'.free == st.free
  }

  /** The bytes of a freed block are 0xcc, but for the link of its free list. */
  ghost predicate Wiped(m: Mem, b: nat, n: nat) {
    forall x: nat :: b + 8 <= x < b + n ==> m(x) == 0xcc
  }

  lemma FillWipes(m: Mem, b: nat, n: nat)
    ensures Wiped(Fill(m, b, n, 0xcc), b, n)
  {
  }

  ghost predicate AllBytes(m: Mem, a: nat, n: nat, c: Byte) {
    forall x: nat :: a <= x < a + n ==> m(x) == c
  }

  lemma FillFills(m: Mem, a: nat, n: nat, c: Byte)
    ensures AllBytes(Fill(m, a, n, c), a, n, c)
  {
  }

  lemma WipedPart(m: Mem, a: nat, len: nat, b: nat, n: nat)
    requires AllBytes(m, a, len, 0xcc) && a <= b && b + n <= a + len
    ensures Wiped(m, b, n)
  {
  }

  lemma BlockInPage(st: Store, d: Desc, b: nat)
    requires Settled(st) && IsSmall(st.arenas, d, b)
    ensures RoundDown(b) <= b && b + BlockSize(d) <= RoundDown(b) + PGSIZE
  {
    BlockAligned(st.arenas, b);
  }

  lemma BigPlaced(st: Store, a: nat, b: nat)
    requires Settled(st) && b in st.live && a == RoundDown(b) && a in st.arenas && st.arenas[a].Big?
    ensures b == a + ARENA_SIZE && |st.free| == DESC_CNT && st.arenas[a].pages > 0
  {
    LivePlace(st, a, b);
    BigHasPages(st, a);
    InvParts(st);
    hide Inv, AtRest;
  }

  lemma WentBackDropped(st: Store, st': Store, d: Desc, b: nat)
    requires |st.free| == DESC_CNT && RoundDown(b) in st.arenas && st.arenas[RoundDown(b)].Small?
    requires st.arenas[RoundDown(b)].desc == d && st.arenas[RoundDown(b)].freeCnt + 1 == PerArena(d)
    requires RoundDown(b) !in st'.arenas && |st'.free| == DESC_CNT
    requires st'.free == st.free[d := [b] + st.free[d]][d := st'.free[d]]
    requires Purged([b] + st.free[d], RoundDown(b), st'.free[d])
    ensures WentBack(st, st', b)
  {
    hide RoundDown, PerArena, Distinct;
  }

  // ----- bookkeeping in memory -----

  /** The allocator between two calls: its state satisfies the invariant and memory holds it. */
  ghost predicate HeapOk(m: Mem, descs: nat, st: Store) {
    Settled(st) && Located(descs, st.arenas) && Mirrors(m, descs, st)
  }

  /** The block is at a multiple of the block size from the end of the header. */
  predicate Aligned(b: nat, size: nat) {
    size > 0 && (b % PGSIZE - ARENA_SIZE) % size == 0
  }

  /** The assertions of `block_to_arena` hold, and the header says what the block is. */
  lemma BlockToArena(m: Mem, descs: nat, st: Store, a: nat, b: nat, ptr: nat)
    requires HeapOk(m, descs, st) && b in st.live && a == RoundDown(b) && ptr == Load(m, a + 4)
    ensures a != 0 && Load(m, a) == ARENA_MAGIC && a in st.arenas && ptr == DescPtr(descs, st.arenas[a])
    ensures ptr != 0 ==> Aligned(b, Load(m, ptr)) && st.arenas[a].Small? && IsSmall(st.arenas, st.arenas[a].desc, b)
    ensures ptr != 0 ==> Load(m, ptr) == BlockSize(st.arenas[a].desc)
    ensures ptr == 0 ==> b % PGSIZE == ARENA_SIZE && st.arenas[a].Big? && Load(m, a + 8) == st.arenas[a].pages
  {
    hide RoundDown, Inv, AtRest, MemLinked, FreeLinks, Aligned, IsSmall, BlockSize, PerArena, Load;
    LiveSmall(st, b);
    LivePlace(st, a, b);
    assert Header(m, descs, a, st.arenas[a]);
  }

  lemma LivePlace(st: Store, a: nat, b: nat)
    requires Inv(st) && b in st.live && a == RoundDown(b) && a in st.arenas
    ensures a > 0
    ensures st.arenas[a].Small? ==> Aligned(b, BlockSize(st.arenas[a].desc))
    ensures st.arenas[a].Big? ==> b % PGSIZE == ARENA_SIZE
  {
    hide FreeLists, Counted, Sized, IsBlock;
    assert ArenaOk(a, st.arenas[a]);
    BlockAligned(st.arenas, b);
  }

  /** Pages of the kernel pool are above the descriptors. */
  lemma PoolRange(base: nat, pages: nat, limit: nat, descs: nat, held: set<nat>, a: nat, n: nat)
    requires PgOfs(base) == 0 && PgOfs(a) == 0 && HeldPages(base, pages, held, a, n)
    requires PageAddr(base, pages) <= limit <= WORD_LIMIT && descs + DESCS_SIZE <= base
    ensures InRange(descs, a, n)
  {
  }

  lemma FreedRoom(arenas: map<nat, Arena>, a: nat)
    requires Arenas(arenas) && a in arenas
    ensures Room(arenas - {a}, a, Extent(arenas[a])) && a % PGSIZE == 0
  {
    assert ArenaOk(a, arenas[a]);
    hide Apart;
    forall a' | a' in arenas - {a} ensures Apart(a, Extent(arenas[a]), a', Extent((arenas - {a})[a'])) {
    }
  }

  lemma LocatedLess(descs: nat, arenas: map<nat, Arena>, a: nat)
    requires Located(descs, arenas)
    ensures Located(descs, arenas - {a})
    ensures a in arenas ==> descs + DESCS_SIZE <= a
  {
    hide InRange;
    if a in arenas {
      assert InRange(descs, a, Extent(arenas[a]));
      AboveTable(descs, a, Extent(arenas[a]));
    }
  }

  lemma AboveTable(descs: nat, a: nat, n: nat)
    requires InRange(descs, a, n)
    ensures descs + DESCS_SIZE <= a
  {
  }

  /** The blocks of an arena are off the list: memory holds the state without the arena. */
  lemma DropMirror(m0: Mem, m: Mem, descs: nat, st: Store, a: nat, d: Desc, blocks: seq<nat>)
    requires Half(m, descs, st, d, blocks) && LiveSame(m0, m, st)
    ensures Mirrors(m, descs, WithoutArena(st, a, d, blocks)) && LiveSame(m0, m, WithoutArena(st, a, d, blocks))
  {
    hide MemLinked, Table, Header, SameBytes, Usable, RoundDown;
  }

  lemma DropBigMirror(m: Mem, descs: nat, st: Store, a: nat, b: nat)
    requires Mirrors(m, descs, st)
    ensures Mirrors(m, descs, WithoutBig(st, a, b))
  {
    hide MemLinked, Table, Header;
  }

  /** The fill of a block before it goes on its list. */
  lemma FillStep(m: Mem, m': Mem, descs: nat, st: Store, a: nat, b: nat, d: Desc)
    requires Inv(st) && Located(descs, st.arenas) && Mirrors(m, descs, st)
    requires b in st.live && a == RoundDown(b) && IsSmall(st.arenas, d, b) && OnlyRegion(m, m', b, BlockSize(d))
    ensures |st.free| == DESC_CNT && Mirrors(m', descs, st) && LiveSame(m, m', PutBack(st, a, b)) && b < WORD_LIMIT
  {
    LiveFits(st, descs, b);
    hide Inv, RoundDown, BlockSize, Located, OnlyRegion, SameBytes, LiveSame, KeepsSizes, IsSlot;
    hide Table, Headers, FreeLinks;
    BlockFillKeeps(st, descs, b, m, m');
    PutKeeps(st, a, b);
    LiveSameSub(m, m', PutBack(st, a, b), Without(st, b));
  }

  lemma LiveFits(st: Store, descs: nat, b: nat)
    requires Inv(st) && Located(descs, st.arenas) && b in st.live
    ensures b < WORD_LIMIT
  {
    hide FreeLists, Counted, Sized, RoundDown, IsBlock;
    LiveIsAbove(st, descs, b);
  }

  lemma PutKeeps(st: Store, a: nat, b: nat)
    requires a in st.arenas && st.arenas[a].Small? && st.arenas[a].desc < |st.free|
    ensures KeepsSizes(PutBack(st, a, b), Without(st, b))
  {
    hide RoundDown, BlockSize;
  }

  // ----- resizing -----

  datatype Resized = Block(addr: nat) | Nothing | Overrun(addr: nat)

  /** The copy of `realloc` runs past the end of the new block. */
  predicate Overruns(oldSize: nat, size: nat) {
    Wraps(size) && oldSize > PGSIZE - ARENA_SIZE
  }

  /** Memory as an overrunning copy of `n` bytes leaves it: until then it held the bookkeeping,
      and every live block its bytes. */
  ghost predicate Overran(m0: Mem, st0: Store, m': Mem, descs: nat, st: Store, p: nat, r: nat, n: nat)
    requires Settled(st0)
  {
    exists m: Mem :: HeapOk(m, descs, st) && BytesKept(m0, m, st0, st) && m' == Copy(m, r, p, n)
  }

  /** What a granted request has room for. */
  ghost predicate HasRoom(room: int, size: nat) {
    (exists d: Desc :: Smallest(d, size) && room == BlockSize(d))
    || (size > BlockSize(DESC_CNT - 1) && PagesFor(size) > 0 && room == PGSIZE * PagesFor(size) - ARENA_SIZE)
  }

  /** The copy runs past the end exactly if the request wrapped and the old block is larger
      than what one page has room for. */
  lemma OverrunExactly(room: int, size: nat, oldSize: nat)
    requires HasRoom(room, size) && size <= SIZE_MAX
    ensures room >= 0 && (Min(size, oldSize) > room <==> Overruns(oldSize, size))
  {
    if exists d: Desc :: Smallest(d, size) && room == BlockSize(d) {
      var d: Desc :| Smallest(d, size) && room == BlockSize(d);
      assert size <= 1024;
    } else {
      PagesSuffice(size);
      if Wraps(size) {
        WrappedPages(size);
      }
    }
  }

  lemma WrappedPages(size: nat)
    requires Wraps(size) && size <= SIZE_MAX
    ensures PagesFor(size) <= 1 && size > PGSIZE
  {
  }

  /** A block of two pages resized to the largest size: 4084 bytes are there for 8180. */
  lemma OverrunExample()
    ensures HasRoom(4084, SIZE_MAX) && Usable(Big(2)) == 8180 && Min(SIZE_MAX, 8180) > 4084
  {
    WrappedRequest();
  }

  /** Such a copy destroys the header of an arena on the next page. */
  lemma OverrunDestroys(m: Mem, descs: nat, st: Store, a: nat, src: nat, n: nat)
    requires a + PGSIZE in st.arenas && n >= PGSIZE - ARENA_SIZE + 4
    requires Load(m, src + PGSIZE - ARENA_SIZE) != ARENA_MAGIC
    ensures !Mirrors(Copy(m, a + ARENA_SIZE, src, n), descs, st)
  {
    var m' := Copy(m, a + ARENA_SIZE, src, n);
    assert Load(m', a + PGSIZE) == Load(m, src + PGSIZE - ARENA_SIZE);
    assert !Header(m', descs, a + PGSIZE, st.arenas[a + PGSIZE]);
  }

  lemma RoomServed(arenas: map<nat, Arena>, b: nat, size: nat)
    requires ServedFrom(arenas, b, size) && (arenas[RoundDown(b)].Big? ==> arenas[RoundDown(b)].pages > 0)
    ensures HasRoom(Usable(arenas[RoundDown(b)]), size)
  {
    hide RoundDown, PagesFor;
  }

  /** The bytes of `realloc`: those of the new block are the first of the old one, all blocks
      but these two keep theirs. */
  ghost predicate Moved(st: Store, m: Mem, m': Mem, p: nat, r: nat, n: nat)
    requires Settled(st)
  {
    && Bytes(m', r, n) == Bytes(m, p, n)
    && forall b :: b in st.live && b != p ==> Bytes(m', b, SizeOf(st, b)) == Bytes(m, b, SizeOf(st, b))
  }

  // ----- steps of the methods -----

  lemma HeapParts(m: Mem, descs: nat, st: Store)
    requires HeapOk(m, descs, st)
    ensures Arenas(st.arenas) && |st.free| == DESC_CNT && Table(m, descs)
    ensures 0 < descs && descs + DESCS_SIZE <= WORD_LIMIT
  {
    hide Inv, Load;
    InvArenas(st);
  }

  lemma EmptyInv(descs: nat, m: Mem, free: seq<seq<nat>>)
    requires |free| == DESC_CNT && (forall d: Desc :: free[d] == []) && (forall d: Desc :: Entry(m, descs, d))
    requires 0 < descs && descs + DESCS_SIZE <= WORD_LIMIT
    ensures HeapOk(m, descs, Store(map[], free, map[]))
  {
    hide Entry, Mirrors;
    EmptyHeap(m, descs, free);
  }

  /** One round of the loop of `malloc_init`. */
  lemma InitStep(m: Mem, descs: nat, d: Desc)
    requires descs + DESCS_SIZE <= WORD_LIMIT && forall e: Desc :: e < d ==> Entry(m, descs, e)
    ensures 0 < BlockSize(d) < WORD_LIMIT && DescAddr(descs, d) + DESC_SIZE <= WORD_LIMIT
    ensures forall e: Desc :: e <= d ==> Entry(InitDesc(m, DescAddr(descs, d), BlockSize(d)), descs, e)
  {
    hide Entry, InitDesc, OnlyRegion;
    InitEntry(m, descs, d);
    InitRegion(m, DescAddr(descs, d), BlockSize(d));
    forall e: Desc | e < d ensures Entry(InitDesc(m, DescAddr(descs, d), BlockSize(d)), descs, e) {
      EntryKept(m, InitDesc(m, DescAddr(descs, d), BlockSize(d)), descs, e, d);
    }
  }

  lemma PageFillOk(st: Store, descs: nat, a: nat, n: nat, m: Mem, m': Mem)
    requires HeapOk(m, descs, st) && Room(st.arenas, a, n) && descs + DESCS_SIZE <= a
    requires OnlyRegion(m, m', a, PGSIZE * n)
    ensures HeapOk(m', descs, st) && LiveSame(m, m', st)
  {
    hide Inv, Located, Mirrors, Room, LiveSame, OnlyRegion, AtRest;
    PageFillKeeps(st, descs, a, n, m, m');
  }

  /** The last steps of `malloc` in a state at rest. */
  lemma TakeOk(m: Mem, m': Mem, descs: nat, st: Store, d: Desc, b: nat, size: nat)
    requires HeapOk(m, descs, st) && st.free[d] != [] && b == st.free[d][0] && size <= BlockSize(d)
    requires IsSmall(st.arenas, d, b) && st.arenas[RoundDown(b)].freeCnt > 0
    requires Located(descs, Taken(st, RoundDown(b), b, size).arenas)
    requires Mirrors(m', descs, Taken(st, RoundDown(b), b, size))
    ensures HeapOk(m', descs, Taken(st, RoundDown(b), b, size))
    ensures Answered(st, Taken(st, RoundDown(b), b, size), size, Some(b))
  {
    hide Inv, RoundDown, IsSlot, Located, Mirrors, AtRest, KeepsSizes, BlockSize;
    RestStep(st, d, size);
  }

  lemma SmallBacked(arenas: map<nat, Arena>, a: nat, d: Desc, n: nat, base: nat, pages: nat, held: set<nat>,
                    clients: set<nat>)
    requires Backed(arenas, base, pages, held, clients) && a in arenas && arenas[a].Small?
    ensures Backed(arenas[a := Small(d, n)], base, pages, held, clients)
  {
    hide HeldPages, PgNo;
    forall i: nat ensures Owned(arenas[a := Small(d, n)], base, i) <==> Owned(arenas, base, i) {
      SameOwned(arenas, a, d, n, base, i);
    }
  }

  lemma SameOwned(arenas: map<nat, Arena>, a: nat, d: Desc, n: nat, base: nat, i: nat)
    requires a in arenas && arenas[a].Small?
    ensures Owned(arenas[a := Small(d, n)], base, i) <==> Owned(arenas, base, i)
  {
    hide PgNo;
    var arenas' := arenas[a := Small(d, n)];
    assert forall a' :: a' in arenas ==> a' in arenas' && Extent(arenas'[a']) == Extent(arenas[a']);
    if Owned(arenas, base, i) {
      var a' :| a' in arenas && PgNo(a') <= PgNo(base) + i < PgNo(a') + Extent(arenas[a']);
      assert a' in arenas' && PgNo(a') <= PgNo(base) + i < PgNo(a') + Extent(arenas'[a']);
    }
    if Owned(arenas', base, i) {
      var a' :| a' in arenas' && PgNo(a') <= PgNo(base) + i < PgNo(a') + Extent(arenas'[a']);
      assert a' in arenas && PgNo(a') <= PgNo(base) + i < PgNo(a') + Extent(arenas[a']);
    }
  }

  /** `list_pop_front` and the decrement at the end of `malloc`. */
  lemma PopStep(m: Mem, m': Mem, descs: nat, st: Store, d: Desc, a: nat, b: nat, size: nat)
    requires Inv(st) && Located(descs, st.arenas) && Mirrors(m, descs, st) && size <= BlockSize(d)
    requires st.free[d] != [] && b == st.free[d][0] && a == RoundDown(b) && m' == RemoveLinks(m, b)
    ensures Load(m, ListHead(descs, d) + 4) == b && IsSmall(st.arenas, d, b)
    ensures 0 < st.arenas[a].freeCnt == Load(m', a + 8)
    ensures Located(descs, Taken(st, a, b, size).arenas)
    ensures Mirrors(StoreWord(m', a + 8, Load(m', a + 8) - 1), descs, Taken(st, a, b, size))
    ensures LiveSame(m, StoreWord(m', a + 8, Load(m', a + 8) - 1), st)
  {
    hide Inv, RoundDown, MemLinked, StoreWord, RemoveLinks, Load, Table, Located, LiveSame, BlockSize;
    TakeMirror(st, descs, d, a, b, size, m);
    TakeLink(st, descs, d, m);
    FirstInMemory(m, descs, d, st.free[d]);
    assert Header(m', descs, a, st.arenas[a]);
    SameExtents(descs, st.arenas, a, st.arenas[a].freeCnt - 1);
  }

  /** A new arena has been set up and its first block taken. */
  lemma FirstTaken(m: Mem, m1: Mem, m2: Mem, descs: nat, st: Store, a: nat, d: Desc, b: nat, size: nat)
    requires HeapOk(m, descs, st) && st.free[d] == [] && Room(st.arenas, a, 1) && size <= BlockSize(d)
    requires b == Slot(a, d, 0) && PerArena(d) > 0 && Slots(a, d) != []
    requires LiveSame(m, m1, WithArena(st, a, d)) && LiveSame(m1, m2, WithArena(st, a, d))
    requires Located(descs, Taken(WithArena(st, a, d), a, b, size).arenas)
    requires Mirrors(m2, descs, Taken(WithArena(st, a, d), a, b, size))
    ensures HeapOk(m2, descs, Taken(WithArena(st, a, d), a, b, size)) && LiveSame(m, m2, st)
    ensures Answered(st, Taken(WithArena(st, a, d), a, b, size), size, Some(b))
  {
    hide Inv, AtRest, RoundDown, BlockSize, PerArena, Slots, LiveSame, Mirrors, Located, Apart;
    HeapParts(m, descs, st);
    NewArenaStep(st, a, d, b, size);
    LiveSameTrans(m, m1, m2, WithArena(st, a, d));
    NewArenaKeeps(st, a, d);
    LiveSameSub(m, m2, st, WithArena(st, a, d));
  }

  lemma FirstOfNew(st: Store, a: nat, d: Desc, b: nat)
    requires |st.free| == DESC_CNT && st.free[d] == [] && Room(st.arenas, a, 1) && b == Slot(a, d, 0)
    ensures Slots(a, d) != [] && TookFirst(st, st.(free := st.free[d := Slots(a, d)[1..]]), d, b)
  {
    FirstSlot(a, d);
  }

  lemma NewArenaKeeps(st: Store, a: nat, d: Desc)
    requires |st.free| == DESC_CNT && a !in st.arenas
    ensures KeepsSizes(st, WithArena(st, a, d))
  {
    hide RoundDown, Slots, PerArena, BlockSize;
  }

  lemma ServedSmall(arenas: map<nat, Arena>, d: Desc, b: nat, size: nat)
    requires Smallest(d, size)
    requires RoundDown(b) in arenas && arenas[RoundDown(b)].Small? && arenas[RoundDown(b)].desc == d
    ensures ServedFrom(arenas, b, size)
  {
    hide RoundDown, Smallest;
  }

  lemma LiveSameRefl(m: Mem, st: Store)
    ensures LiveSame(m, m, st)
  {
    hide RoundDown, Usable;
  }

  lemma NothingAnswered(st: Store, size: nat)
    ensures Answered(st, st, size, None)
  {
    NothingChanged(st);
    hide KeepsSizes;
  }

  lemma TableCount(m: Mem, descs: nat, d: Desc)
    requires Table(m, descs)
    ensures Load(m, DescAddr(descs, d)) == BlockSize(d) && Load(m, DescAddr(descs, d) + 4) == PerArena(d)
  {
  }

  /** `list_empty` and `list_begin` of a free list. */
  lemma ListReads(m: Mem, descs: nat, st: Store, d: Desc)
    requires HeapOk(m, descs, st)
    ensures |st.free| == DESC_CNT && (Load(m, ListHead(descs, d) + 4) == ListTail(descs, d) <==> st.free[d] == [])
  {
    hide Inv, MemLinked, Load, Table, Headers, AtRest;
    FirstInMemory(m, descs, d, st.free[d]);
  }

  lemma HalfTable(m: Mem, descs: nat, st: Store, d: Desc, blocks: seq<nat>)
    requires Half(m, descs, st, d, blocks)
    ensures Load(m, DescAddr(descs, d)) == BlockSize(d) && Load(m, DescAddr(descs, d) + 4) == PerArena(d)
  {
    hide Headers, MemLinked, Load;
  }

  /** The list and the count after the insertion of a block in front. */
  lemma PutOk(m: Mem, m': Mem, descs: nat, st: Store, d: Desc, a: nat, b: nat)
    requires Settled(st) && Located(descs, st.arenas) && Mirrors(m, descs, st) && b < WORD_LIMIT
    requires b in st.live && IsSmall(st.arenas, d, b) && a == RoundDown(b)
    requires m' == InsertLinks(m, Load(m, ListHead(descs, d) + 4), b)
    ensures Load(m', a + 8) == st.arenas[a].freeCnt && Load(m', a + 8) + 1 < WORD_LIMIT
    ensures Located(descs, PutBack(st, a, b).arenas)
    ensures Mirrors(StoreWord(m', a + 8, Load(m', a + 8) + 1), descs, PutBack(st, a, b))
    ensures LiveSame(m, StoreWord(m', a + 8, Load(m', a + 8) + 1), PutBack(st, a, b))
  {
    hide Inv, RoundDown, MemLinked, StoreWord, InsertLinks, Load, Table, Located, LiveSame, IsSlot, PerArena, FreeLinks;
    PutMirror(st, descs, d, a, b, m);
    PutLink(st, descs, d, b, m);
    assert Header(m', descs, a, st.arenas[a]);
    SameExtents(descs, st.arenas, a, st.arenas[a].freeCnt + 1);
  }

  /** The stores that put a block on its list leave the rest of the block as it is. */
  lemma PutKeepsBody(m: Mem, m': Mem, descs: nat, st: Store, d: Desc, a: nat, b: nat, cnt: nat)
    requires Settled(st) && Located(descs, st.arenas) && Mirrors(m, descs, st) && b < WORD_LIMIT && cnt < WORD_LIMIT
    requires b in st.live && IsSmall(st.arenas, d, b) && a == RoundDown(b)
    requires m' == InsertLinks(m, Load(m, ListHead(descs, d) + 4), b)
    ensures Wiped(m, b, BlockSize(d)) ==> Wiped(StoreWord(m', a + 8, cnt), b, BlockSize(d))
  {
    if Wiped(m, b, BlockSize(d)) {
      InsertKeepsBody(m, m', descs, st, d, b);
      InvParts(st);
      NodeInArena(st, d, b);
      CountRegion(m', a, cnt);
      hide Inv, Located, Mirrors, IsSmall, RoundDown, StoreWord, InsertLinks, Load, AtRest, BlockSize;
      var m2 := StoreWord(m', a + 8, cnt);
      assert forall x: nat :: b + 8 <= x < b + BlockSize(d) ==> m2(x) == m'(x);
    }
  }

  lemma InsertKeepsBody(m: Mem, m': Mem, descs: nat, st: Store, d: Desc, b: nat)
    requires Settled(st) && Located(descs, st.arenas) && Mirrors(m, descs, st) && b < WORD_LIMIT
    requires b in st.live && IsSmall(st.arenas, d, b)
    requires m' == InsertLinks(m, Load(m, ListHead(descs, d) + 4), b) && Wiped(m, b, BlockSize(d))
    ensures Wiped(m', b, BlockSize(d))
  {
    hide Inv, RoundDown, InsertLinks, Load, Located, AtRest, BlockSize, IsSmall, OnlyNodes, FreeChain, AllNodes;
    hide FreeLists, Arenas, Table, Headers, MemLinked, Wiped, SameBytes;
    InvLists(st);
    AtLeast16(d);
    var c := FreeChain(descs, d, st.free[d]);
    FreeNodes(st, descs, d);
    var c' := InsertWrites(m, m', descs, st, d, b, c);
    NodesOffBody(st, descs, d, b, c');
    OutsideNodes(m, m', c', b + 8, BlockSize(d) - 8);
    WipedSame(m, m', b, BlockSize(d));
  }

  lemma AtLeast16(d: Desc)
    ensures BlockSize(d) >= 16
  {
  }

  lemma WipedSame(m: Mem, m': Mem, b: nat, size: nat)
    requires Wiped(m, b, size) && size >= 8 && SameBytes(m, m', b + 8, size - 8)
    ensures Wiped(m', b, size)
  {
  }

  lemma InvLists(st: Store)
    requires Inv(st)
    ensures Arenas(st.arenas) && FreeLists(st) && |st.free| == DESC_CNT
  {
  }

  lemma InsertWrites(m: Mem, m': Mem, descs: nat, st: Store, d: Desc, b: nat, c: seq<nat>) returns (c': seq<nat>)
    requires Arenas(st.arenas) && Located(descs, st.arenas) && b < WORD_LIMIT && b in st.live
    requires IsSmall(st.arenas, d, b) && AllNodes(st, descs, d, c)
    requires d < |st.free| && c == FreeChain(descs, d, st.free[d]) && MemLinked(m, c)
    requires m' == InsertLinks(m, Load(m, ListHead(descs, d) + 4), b)
    ensures OnlyNodes(m, m', c') && forall i :: 0 <= i < |c'| ==> c'[i] == b || Node(st, descs, d, c'[i])
  {
    hide RoundDown, InsertLinks, MemLinked, Load, Located, Arenas, OnlyNodes, IsSmall, Node, ClearOf;
    NotOnChain(st, descs, d, b, c);
    FirstInMemory(m, descs, d, st.free[d]);
    BlockApartFromList(st, descs, d, b, c);
    c' := c[..1] + [b] + c[1..];
    MemInsert(m, c, 1, b, c');
  }

  lemma NotOnChain(st: Store, descs: nat, d: Desc, b: nat, c: seq<nat>)
    requires Arenas(st.arenas) && Located(descs, st.arenas) && b in st.live
    requires IsSmall(st.arenas, d, b) && AllNodes(st, descs, d, c)
    ensures b !in c
  {
    SmallIsAbove(st, descs, d, b);
    hide Arenas, Located, IsSmall;
    forall i | 0 <= i < |c| ensures c[i] != b {
      assert Node(st, descs, d, c[i]);
    }
  }

  lemma NodesOffBody(st: Store, descs: nat, d: Desc, b: nat, c: seq<nat>)
    requires Arenas(st.arenas) && Located(descs, st.arenas) && IsSmall(st.arenas, d, b)
    requires forall i :: 0 <= i < |c| ==> c[i] == b || Node(st, descs, d, c[i])
    ensures forall i :: 0 <= i < |c| ==> c[i] + 8 <= b + 8 || b + BlockSize(d) <= c[i]
  {
    hide Arenas, Located, IsSmall, Node, BlockSize;
    forall i | 0 <= i < |c| ensures c[i] + 8 <= b + 8 || b + BlockSize(d) <= c[i] {
      if c[i] != b {
        BodyVsNode(st, descs, d, b, c[i]);
      }
    }
  }

  lemma BodyVsNode(st: Store, descs: nat, d: Desc, b: nat, n: nat)
    requires Arenas(st.arenas) && Located(descs, st.arenas) && IsSmall(st.arenas, d, b)
    requires Node(st, descs, d, n) && n != b
    ensures BlockSize(d) >= 8 && (n + 8 <= b || b + BlockSize(d) <= n)
  {
    SmallIsAbove(st, descs, d, b);
    if IsSmall(st.arenas, d, n) {
      BlocksDisjoint(st.arenas, b, n);
    }
  }

  /** The blocks on the list after `i` rounds of the removal. */
  ghost predicate Remain(st: Store, a: nat, d: Desc, i: nat, blocks: seq<nat>)
    requires d < |st.free| && i <= PerArena(d)
  {
    && Blocks(st, d, blocks) && Distinct(blocks)
    && forall b :: b in blocks <==> b in st.free[d] && b !in Slots(a, d)[..i]
  }

  lemma StartUnlink(m: Mem, descs: nat, st: Store, a: nat, d: Desc)
    requires Inv(st) && Mirrors(m, descs, st)
    ensures |st.free| == DESC_CNT && Half(m, descs, st, d, st.free[d]) && LiveSame(m, m, st)
    ensures Remain(st, a, d, 0, st.free[d])
    ensures Load(m, DescAddr(descs, d)) == BlockSize(d) && Load(m, DescAddr(descs, d) + 4) == PerArena(d)
  {
    hide MemLinked, Load, IsSmall, LiveBlocks, Counted, Sized, Arenas, PerArena;
    FreeBlocks(st, d);
    HalfIsMirror(m, descs, st, d);
    LiveSameRefl(m, st);
  }

  /** One round: the slot is on the list, and leaves it. */
  lemma UnlinkStep(m0: Mem, m: Mem, descs: nat, st: Store, a: nat, d: Desc, i: nat, blocks: seq<nat>) returns (p: nat)
    requires Inv(st) && Located(descs, st.arenas) && i < PerArena(d)
    requires a in st.arenas && st.arenas[a].Small? && st.arenas[a].desc == d && st.arenas[a].freeCnt == PerArena(d)
    requires Half(m, descs, st, d, blocks) && Remain(st, a, d, i, blocks) && LiveSame(m0, m, st)
    ensures p < |blocks| && blocks[p] == Slot(a, d, i)
    ensures Remain(st, a, d, i + 1, blocks[..p] + blocks[p + 1..])
    ensures Half(RemoveLinks(m, Slot(a, d, i)), descs, st, d, blocks[..p] + blocks[p + 1..])
    ensures LiveSame(m0, RemoveLinks(m, Slot(a, d, i)), st)
  {
    hide RoundDown, PerArena, BlockSize, MemLinked, Load, RemoveLinks, LiveSame, Blocks, Half, Located, Distinct;
    hide Counted, Sized;
    AllFreeParts(st, a);
    SlotsDistinct(a, d);
    p := SlotListed(st, a, d, i, blocks);
    HalfRemove(st, descs, d, m, blocks, p);
    LiveSameTrans(m0, m, RemoveLinks(m, blocks[p]), st);
    CutElements(blocks, p);
    RemainStep(st, a, d, i, blocks, p);
  }

  lemma SlotListed(st: Store, a: nat, d: Desc, i: nat, blocks: seq<nat>) returns (p: nat)
    requires d < |st.free| && i < PerArena(d) && Remain(st, a, d, i, blocks)
    requires Distinct(Slots(a, d)) && forall b :: b in Slots(a, d) ==> b in st.free[d]
    ensures p < |blocks| && blocks[p] == Slot(a, d, i)
  {
    var s := Slots(a, d);
    assert s[i] == Slot(a, d, i) && s[i] !in s[..i];
    p :| p < |blocks| && blocks[p] == s[i];
  }

  lemma RemainStep(st: Store, a: nat, d: Desc, i: nat, blocks: seq<nat>, p: nat)
    requires d < |st.free| && i < PerArena(d) && Remain(st, a, d, i, blocks) && p < |blocks|
    requires blocks[p] == Slot(a, d, i) && Blocks(st, d, blocks[..p] + blocks[p + 1..])
    ensures Remain(st, a, d, i + 1, blocks[..p] + blocks[p + 1..])
  {
    hide PerArena, Blocks, BlockSize;
    CutElements(blocks, p);
    hide Distinct;
    var s := Slots(a, d);
    assert s[..i + 1] == s[..i] + [s[i]] && s[i] == blocks[p];
  }

  lemma EndUnlink(m0: Mem, m: Mem, descs: nat, st: Store, a: nat, d: Desc, blocks: seq<nat>)
    requires Inv(st) && a in st.arenas && st.arenas[a].Small? && st.arenas[a].desc == d
    requires st.arenas[a].freeCnt == PerArena(d) && LiveSame(m0, m, st)
    requires Half(m, descs, st, d, blocks) && d < |st.free| && Remain(st, a, d, PerArena(d), blocks)
    ensures Purged(st.free[d], a, blocks)
    ensures Mirrors(m, descs, WithoutArena(st, a, d, blocks)) && LiveSame(m0, m, WithoutArena(st, a, d, blocks))
  {
    hide Inv, PerArena, Blocks, BlockSize, Half, LiveSame, Mirrors, Distinct, Purged, RoundDown;
    assert Slots(a, d)[..PerArena(d)] == Slots(a, d);
    PurgedBySlots(st, a, blocks);
    DropMirror(m0, m, descs, st, a, d, blocks);
  }

  lemma LessKeeps(st: Store, st': Store, a: nat)
    requires st'.arenas == st.arenas - {a} && st'.live == st.live
    ensures KeepsSizes(st', st)
  {
    hide RoundDown, Usable;
  }

  lemma HeaderReads(m: Mem, descs: nat, st: Store, a: nat, d: Desc)
    requires Mirrors(m, descs, st) && a in st.arenas && st.arenas[a].Small? && st.arenas[a].desc == d
    ensures Load(m, a + 8) == st.arenas[a].freeCnt && Load(m, DescAddr(descs, d) + 4) == PerArena(d)
  {
    hide FreeLinks, Load;
    assert Header(m, descs, a, st.arenas[a]);
  }

  /** A block that stays live stays of the same kind. */
  lemma ServedKept(st: Store, st': Store, b: nat, size: nat)
    requires Settled(st) && Settled(st') && KeepsSizes(st, st') && b in st.live && b in st'.live
    requires ServedFrom(st.arenas, b, size)
    ensures ServedFrom(st'.arenas, b, size)
  {
    hide RoundDown, Inv, AtRest, PagesFor, Smallest;
    LiveSmall(st', b);
    BigHasPages(st, RoundDown(b));
    BigHasPages(st', RoundDown(b));
    SizesDiffer(st.arenas[RoundDown(b)], st'.arenas[RoundDown(b)]);
  }

  /** The usable size of an arena's block tells which kind of arena it is. */
  lemma SizesDiffer(x: Arena, y: Arena)
    requires Usable(x) == Usable(y) && (x.Big? ==> x.pages > 0) && (y.Big? ==> y.pages > 0)
    ensures x.Small? && y.Small? ==> x.desc == y.desc
    ensures x.Big? ==> y == x
    ensures x.Small? ==> y.Small?
  {
  }

  lemma SizeIs(st: Store, a: nat, b: nat)
    requires Settled(st) && b in st.live && a == RoundDown(b) && a in st.arenas
    ensures SizeOf(st, b) ==
      if st.arenas[a].Small? then BlockSize(st.arenas[a].desc) else PGSIZE * st.arenas[a].pages - ARENA_SIZE
  {
    hide Inv, RoundDown;
    LiveSmall(st, b);
  }

  lemma NoOverrun()
    ensures forall n: nat :: !Overruns(n, 0)
  {
  }

  lemma PrefixBytes(m: Mem, m': Mem, b: nat, b': nat, n: nat, k: nat)
    requires Bytes(m', b', n) == Bytes(m, b, n) && k <= n
    ensures Bytes(m', b', k) == Bytes(m, b, k)
  {
    forall j: nat | j < k ensures Bytes(m', b', k)[j] == Bytes(m, b, k)[j] {
      assert Bytes(m', b', n)[j] == Bytes(m, b, n)[j];
    }
  }

  lemma WithoutBytes(m: Mem, m': Mem, st: Store, r: nat, b: nat)
    requires Settled(st) && LiveSame(m, m', Without(st, r)) && b in st.live && b != r
    ensures Bytes(m', b, SizeOf(st, b)) == Bytes(m, b, SizeOf(st, b))
  {
    hide RoundDown, Inv, Usable, AtRest;
    LiveSmall(st, b);
    assert b in Without(st, r).live;
    assert SameBytes(m, m', b, SizeOf(st, b));
    SameIsEqual(m, m', b, SizeOf(st, b), SizeOf(st, b));
  }

  /** The copy of `realloc` when it fits. */
  lemma CopyStep(m: Mem, m': Mem, descs: nat, st: Store, p: nat, r: nat, n: nat)
    requires HeapOk(m, descs, st) && r in st.live && n <= SizeOf(st, r) && m' == Copy(m, r, p, n)
    ensures HeapOk(m', descs, st) && LiveSame(m, m', Without(st, r)) && Bytes(m', r, n) == Bytes(m, p, n)
  {
    hide Inv, RoundDown, Located, Mirrors, LiveSame, Bytes, Copy, OnlyRegion, AtRest;
    CopyRegion(m, r, p, n, SizeOf(st, r));
    LiveSmall(st, r);
    BlockFillKeeps(st, descs, r, m, m');
  }

  /** The steps of `realloc` together: a new block, the copy, the release. */
  lemma Finish(m: Mem, m1: Mem, m2: Mem, m3: Mem, st: Store, st1: Store, st2: Store, p: nat, r: nat, n: nat, size: nat)
    requires Settled(st) && Settled(st1) && p in st.live && Answered(st, st1, size, Some(r)) && Released(st1, st2, p)
    requires BytesKept(m, m1, st, st1) && LiveSame(m1, m2, Without(st1, r)) && BytesKept(m2, m3, st1, st2)
    requires n <= SizeOf(st, p) && n <= SizeOf(st1, r) && Bytes(m2, r, n) == Bytes(m1, p, n)
    ensures KeepsSizes(st, st2) && Moved(st, m, m3, p, r, n)
  {
    hide Inv, AtRest, KeepsSizes, Bytes, LiveSame, SizeOf, Settled;
    KeepsLive(st, st1, st2, p);
    PrefixBytes(m, m1, p, p, SizeOf(st, p), n);
    PrefixBytes(m2, m3, r, r, SizeOf(st1, r), n);
    forall b | b in st.live && b != p ensures Bytes(m3, b, SizeOf(st, b)) == Bytes(m, b, SizeOf(st, b)) {
      SizeKept(st, st1, b);
      WithoutBytes(m1, m2, st1, r, b);
    }
  }

  /** The room of the new block, against the size of the old one. */
  lemma NewRoom(st: Store, r: nat, size: nat, oldSize: nat)
    requires Settled(st) && r in st.live && ServedFrom(st.arenas, r, size) && size <= SIZE_MAX
    ensures Min(size, oldSize) > SizeOf(st, r) <==> Overruns(oldSize, size)
  {
    hide Inv, RoundDown, AtRest, PagesFor, Overruns, ServedFrom;
    LiveSmall(st, r);
    BigHasPages(st, RoundDown(r));
    RoomServed(st.arenas, r, size);
    OverrunExactly(SizeOf(st, r), size, oldSize);
  }

  lemma BigHasPages(st: Store, a: nat)
    requires Inv(st) && a in st.arenas
    ensures st.arenas[a].Big? ==> st.arenas[a].pages > 0
  {
    assert ArenaOk(a, st.arenas[a]);
  }

  lemma LiveNonzero(st: Store, b: nat)
    requires Settled(st) && b in st.live
    ensures b != 0
  {
    LiveSmall(st, b);
    LivePlace(st, RoundDown(b), b);
    hide Inv, Aligned, AtRest;
  }

  lemma OkSettled(m: Mem, descs: nat, st: Store)
    requires HeapOk(m, descs, st)
    ensures Settled(st)
  {
  }

  /** Pages of the user pool are apart from all arenas. */
  lemma UserRoom(arenas: map<nat, Arena>, base: nat, pages: nat, held: set<nat>, clients: set<nat>, userBase: nat,
                 userPages: nat, addr: nat, n: nat)
    requires Arenas(arenas) && Backed(arenas, base, pages, held, clients) && PgOfs(base) == 0 && PgOfs(userBase) == 0
    requires 0 < base && PageAddr(base, pages) <= userBase
    requires PageFromPool(userBase, userPages, addr) && PgOfs(addr) == 0 && n > 0
    ensures Room(arenas, addr, n)
  {
    forall a | a in arenas ensures Apart(addr, n, a, Extent(arenas[a])) && a != addr {
      assert HeldPages(base, pages, held, a, Extent(arenas[a])) && ArenaOk(a, arenas[a]);
    }
  }

  lemma PoolsAbove(base: nat, pages: nat, userBase: nat, userPages: nat, addr: nat)
    requires PgOfs(base) == 0 && PgOfs(userBase) == 0 && PgOfs(addr) == 0 && PageAddr(base, pages) <= userBase
    requires PageFromPool(base, pages, addr) || PageFromPool(userBase, userPages, addr)
    ensures base <= addr
  {
  }

  /** A grant to a client. */
  lemma ClientGranted(arenas: map<nat, Arena>, base: nat, pages: nat, held: set<nat>, held': set<nat>,
                      clients: set<nat>, addr: nat, n: nat)
    requires Arenas(arenas) && Backed(arenas, base, pages, held, clients) && PgOfs(base) == 0
    requires PageFromPool(base, pages, addr) && PgOfs(addr) == 0 && addr > 0 && n > 0
    requires Range(PgNo(addr) - PgNo(base), n) !! held && held' == held + Range(PgNo(addr) - PgNo(base), n)
    ensures Room(arenas, addr, n) && Backed(arenas, base, pages, held', clients + Range(PgNo(addr) - PgNo(base), n))
  {
    GrantedRoom(arenas, base, pages, held, clients, addr, n);
    hide Range, PgNo, Apart;
    forall a | a in arenas ensures HeldPages(base, pages, held', a, Extent(arenas[a])) {
      assert HeldPages(base, pages, held, a, Extent(arenas[a]));
    }
    forall i: nat | i in Range(PgNo(addr) - PgNo(base), n) ensures !Owned(arenas, base, i) {
      ApartNotOwned(arenas, addr, n, base, i);
    }
  }

  lemma ApartNotOwned(arenas: map<nat, Arena>, addr: nat, n: nat, base: nat, i: nat)
    requires Arenas(arenas) && PgOfs(base) == 0 && Room(arenas, addr, n) && PgNo(base) <= PgNo(addr)
    requires forall a :: a in arenas ==> PgNo(base) <= PgNo(a)
    requires i in Range(PgNo(addr) - PgNo(base), n)
    ensures !Owned(arenas, base, i)
  {
    var r := Range(PgNo(addr) - PgNo(base), n);
    hide Apart, PgNo, Range;
    forall a | a in arenas ensures r !! Range(PgNo(a) - PgNo(base), Extent(arenas[a])) {
      assert ArenaOk(a, arenas[a]);
      ApartRanges(base, addr, n, a, Extent(arenas[a]));
    }
    NotOwned(arenas, base, i, r);
  }

  /** The release of pages that hold no arena. */
  lemma ClientBacked(arenas: map<nat, Arena>, addr: nat, n: nat, base: nat, pages: nat, held: set<nat>,
                     clients: set<nat>)
    requires Arenas(arenas) && Backed(arenas, base, pages, held, clients) && PgOfs(base) == 0 && Room(arenas, addr, n)
    requires PgNo(base) <= PgNo(addr)
    ensures var r := Range(PgNo(addr) - PgNo(base), n); Backed(arenas, base, pages, held - r, clients - r)
  {
    hide Apart, PgNo, Range, Accounted;
    var r := Range(PgNo(addr) - PgNo(base), n);
    forall a | a in arenas
      ensures HeldPages(base, pages, held - r, a, Extent(arenas[a]))
    {
      assert HeldPages(base, pages, held, a, Extent(arenas[a])) && ArenaOk(a, arenas[a]);
      ApartRanges(base, addr, n, a, Extent(arenas[a]));
    }
    LessAccounted(arenas, base, held, clients, r);
  }

  lemma LessAccounted(arenas: map<nat, Arena>, base: nat, held: set<nat>, clients: set<nat>, r: set<nat>)
    requires Accounted(arenas, base, held, clients)
    ensures Accounted(arenas, base, held - r, clients - r)
  {
    hide Owned;
  }

  /** When nothing is live, no page is held but those of the clients. */
  lemma NothingHeld(st: Store, base: nat, pages: nat, held: set<nat>, clients: set<nat>)
    requires Settled(st) && Backed(st.arenas, base, pages, held, clients) && st.live == map[]
    ensures st.arenas == map[] && held == clients
  {
    assert st.arenas == map[] by {
      hide Inv, RoundDown;
      if a :| a in st.arenas {
        ArenaInUse(st, a);
      }
    }
    hide PgNo;
  }
}
