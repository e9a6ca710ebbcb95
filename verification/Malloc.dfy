/** The block allocator of threads/malloc.c on top of the page allocator. */
module Malloc {
  import opened Basics
  import opened Bitmap
  import opened PageAllocator
  import opened BlockStore
  import opened MemList
  import opened HeapMemory
  import opened MallocSteps

  class Heap {
    const pages: Allocator
    const descs: nat                  // address of the descriptor table
    var mem: Mem
    ghost var arenas: map<nat, Arena>
    ghost var free: seq<seq<nat>>
    ghost var live: map<nat, nat>
    ghost var clients: set<nat>       // pages of the kernel pool that others hold

    ghost function View(): Store
      reads this
    {
      Store(arenas, free, live)
    }

    ghost predicate PagesHeld()
      reads this, pages.kernel
    {
      Backed(arenas, pages.kernel.base, pages.kernel.used.bitCnt, pages.kernel.held.Keys, clients)
    }

    ghost predicate Valid()
      reads this, pages, pages.kernel, pages.kernel.used, pages.kernel.used.bits
      reads pages.user, pages.user.used, pages.user.used.bits
    {
      pages.Valid() && descs + DESCS_SIZE <= pages.kernel.base && PagesHeld() && HeapOk(mem, descs, View())
    }

    /** `malloc_init`. */
    constructor (pages: Allocator, descs: nat, start: Mem)
      requires pages.Valid() && 0 < descs && descs + DESCS_SIZE <= pages.kernel.base
      ensures Valid() && this.pages == pages && this.descs == descs && live == map[] && arenas == map[]
      ensures clients == pages.kernel.held.Keys
    {
      hide Entry, InitDesc, Pool.Holding, HeapOk;
      var m, d, size := start, 0, 16;
      while size < PGSIZE / 2
        invariant d <= DESC_CNT && size == if d < DESC_CNT then BlockSize(d) else PGSIZE / 2
        invariant forall e: Desc :: e < d ==> Entry(m, descs, e)
        decreases PGSIZE - size
      {
        InitStep(m, descs, d);
        m := InitDesc(m, DescAddr(descs, d), size);
        d := d + 1;
        size := size * 2;
      }
      this.pages := pages;
      this.descs := descs;
      mem := m;
      arenas := map[];
      free := seq(DESC_CNT, _ => []);
      live := map[];
      clients := pages.kernel.held.Keys;
      EmptyInv(descs, m, seq(DESC_CNT, _ => []));
    }

    /** A call of `palloc_get_multiple` for the kernel pool. */
    method GetPages(n: nat) returns (a: Option<nat>)
      requires pages.Valid() && descs + DESCS_SIZE <= pages.kernel.base && PagesHeld() && Arenas(arenas)
      modifies pages`grants, pages.kernel, pages.kernel.used.bits
      ensures pages.Valid() && (a.None? ==> PagesHeld())
      ensures a.Some? ==> n > 0 && Room(arenas, a.value, n) && InRange(descs, a.value, n)
      ensures a.Some? ==>
        Granted(arenas, pages.kernel.base, pages.kernel.used.bitCnt, pages.kernel.held.Keys, clients, a.value, n)
      ensures a.None? && n > 0 ==> NoRun(old(pages.kernel.used.Bits()), n)
    {
      hide Pool.Holding, Chosen, Room, Backed, Granted, InRange, Arenas;
      ghost var held := pages.kernel.held;
      var r := pages.GetMultiple(false, false, n);
      if r.Pages? {
        GrantedRoom(arenas, pages.kernel.base, pages.kernel.used.bitCnt, held.Keys, clients, r.addr, n);
        GrantedNow(arenas, pages.kernel.base, pages.kernel.used.bitCnt, held.Keys, pages.kernel.held.Keys, clients,
                   r.addr, n);
        PoolRange(pages.kernel.base, pages.kernel.used.bitCnt, pages.user.base, descs, pages.kernel.held.Keys,
                  r.addr, n);
        return Some(r.addr);
      }
      return None;
    }

    /** A call of `palloc_free_multiple` for the pages of an arena that is no longer in use. */
    method FreePages(a: nat, n: nat, ghost arenas0: map<nat, Arena>)
      requires pages.Valid() && HeapOk(mem, descs, View()) && Arenas(arenas0) && a in arenas0
      requires Backed(arenas0, pages.kernel.base, pages.kernel.used.bitCnt, pages.kernel.held.Keys, clients)
      requires arenas == arenas0 - {a} && n == Extent(arenas0[a]) && descs + DESCS_SIZE <= a
      modifies this`mem, pages.kernel, pages.kernel.used.bits, pages.user, pages.user.used.bits
      ensures pages.Valid() && PagesHeld() && HeapOk(mem, descs, View())
      ensures LiveSame(old(mem), mem, View()) && pages.user.held == old(pages.user.held)
      ensures AllBytes(mem, a, PGSIZE * n, 0xcc)
    {
      hide HeapOk, LiveSame, Room, Fill, OnlyRegion, Pool.Holding, Apart, AllBytes, Backed;
      FillFills(mem, a, PGSIZE * n, 0xcc);
      ghost var held := pages.kernel.held;
      FreedRoom(arenas0, a);
      FillRegion(mem, a, PGSIZE * n, 0xcc);
      PageFillOk(View(), descs, a, n, mem, Fill(mem, a, PGSIZE * n, 0xcc));
      ReleasedBacked(arenas0, a, pages.kernel.base, pages.kernel.used.bitCnt, pages.kernel.held.Keys, clients);
      PoolsApart(pages.kernel.base, pages.kernel.used.bitCnt, pages.user.base, pages.user.used.bitCnt, a);
      ReleasedHeld(arenas0, a, pages.kernel.base, pages.kernel.used.bitCnt, held.Keys, clients);
      hide PgNo, PgOfs, PageAddr, HeldPages, PageFromPool, Range;
      mem := Fill(mem, a, PGSIZE * n, 0xcc);
      pages.FreeMultiple(a, n);
      assert pages.kernel.held.Keys == held.Keys - Range(PgNo(a) - PgNo(pages.kernel.base), n);
    }

    /** The search loop of `malloc`: the smallest descriptor that is large enough. */
    method FindDesc(size: nat) returns (d: nat)
      requires Table(mem, descs)
      ensures d <= DESC_CNT
      ensures forall e: nat :: e < d ==> BlockSize(e) < size
      ensures d < DESC_CNT ==> size <= BlockSize(d)
    {
      hide Load;
      d := 0;
      while d < DESC_CNT
        invariant d <= DESC_CNT
        invariant forall e: nat :: e < d ==> BlockSize(e) < size
      {
        if Load(mem, DescAddr(descs, d)) >= size {
          return;
        }
        d := d + 1;
      }
    }

    /** The big-block branch of `malloc`. */
    method GetBig(size: nat) returns (r: Option<nat>)
      requires Valid() && BlockSize(DESC_CNT - 1) < size <= SIZE_MAX
      modifies this`mem, this`arenas, this`live, pages`grants, pages.kernel, pages.kernel.used.bits
      ensures Valid()
      ensures Answered(old(View()), View(), size, r) && LiveSame(old(mem), mem, old(View()))
      ensures r.Some? ==> ServedFrom(arenas, r.value, size)
      ensures r.None? && PagesFor(size) > 0 ==> NoRun(old(pages.kernel.used.Bits()), PagesFor(size))
    {
      hide HeapOk, Room, InRange, PagesFor, BlockSize, Granted, NoRun, Backed, ServedFrom, LiveSame, Answered;
      hide Pool.Holding;
      HeapParts(mem, descs, View());
      NothingAnswered(View(), size);
      LiveSameRefl(mem, View());
      var n := PagesFor(size);
      var a := GetPages(n);
      if a.None? {
        return None;
      }
      InstallBig(a.value, n, size);
      return Some(a.value + ARENA_SIZE);
    }

    /** The header of a big block is written. */
    method InstallBig(a: nat, n: nat, size: nat)
      requires HeapOk(mem, descs, View()) && BlockSize(DESC_CNT - 1) < size <= SIZE_MAX
      requires n == PagesFor(size) > 0 && Room(arenas, a, n) && InRange(descs, a, n)
      requires Granted(arenas, pages.kernel.base, pages.kernel.used.bitCnt, pages.kernel.held.Keys, clients, a, n)
      modifies this`mem, this`arenas, this`live
      ensures HeapOk(mem, descs, View()) && PagesHeld() && ServedFrom(arenas, a + ARENA_SIZE, size)
      ensures Answered(old(View()), View(), size, Some(a + ARENA_SIZE)) && LiveSame(old(mem), mem, old(View()))
    {
      hide KeepsSizes, Room, PagesFor, BlockSize, Granted, Backed, ServedFrom, Wraps, Inv, AtRest;
      hide Mirrors, Located, InRange, LiveSame, StoreHeader;
      PagesSuffice(size);
      BigStep(View(), a, n, size);
      BigPlace(arenas, a, n, size);
      RoomIsNew(arenas, a, n);
      NewBacked(arenas, a, Big(n), pages.kernel.base, pages.kernel.used.bitCnt, pages.kernel.held.Keys, clients);
      BigHeader(View(), descs, a, n, size, mem);
      mem := StoreHeader(mem, a, 0, n);
      arenas := arenas[a := Big(n)];
      live := live[a + ARENA_SIZE := size];
    }

    /** The header of a new arena is written; the list of its blocks is yet to be linked. */
    method StartArena(a: nat, d: Desc)
      requires HeapOk(mem, descs, View()) && free[d] == [] && Room(arenas, a, 1) && InRange(descs, a, 1)
      modifies this`mem, this`arenas, this`free
      ensures old(|free|) == DESC_CNT && View() == WithArena(old(View()), a, d)
      ensures Half(mem, descs, View(), d, []) && LiveSame(old(mem), mem, View()) && Located(descs, arenas)
    {
      hide Inv, AtRest, Room, InRange, Load, StoreHeader, MemLinked, Headers, Table, Slots;
      hide FreeLinks, Half, LiveSame, RoundDown, PerArena, BlockSize;
      HeapParts(mem, descs, View());
      ArenaHeader(View(), descs, a, d, mem);
      assert Load(mem, DescAddr(descs, d) + 4) == PerArena(d) by {
        TableCount(mem, descs, d);
      }
      mem := StoreHeader(mem, a, DescAddr(descs, d), Load(mem, DescAddr(descs, d) + 4));
      arenas := arenas[a := Small(d, PerArena(d))];
      free := free[d := Slots(a, d)];
    }

    /** The loop of `malloc` that puts the blocks of a new arena on the list. */
    method LinkSlots(a: nat, d: Desc)
      requires Inv(View()) && Located(descs, arenas) && Half(mem, descs, View(), d, [])
      requires a in arenas && arenas[a].Small? && arenas[a].desc == d && free[d] == Slots(a, d)
      modifies this`mem
      ensures Mirrors(mem, descs, View()) && LiveSame(old(mem), mem, View())
    {
      hide Inv, Load, InsertLinks, MemLinked, LiveSame, Located, RoundDown, PerArena, BlockSize;
      hide Table, Headers, Half, FreeLinks;
      var i := 0;
      LiveSameRefl(mem, View());
      HalfTable(mem, descs, View(), d, []);
      while i < Load(mem, DescAddr(descs, d) + 4)
        invariant i <= PerArena(d) && Half(mem, descs, View(), d, Slots(a, d)[..i]) && LiveSame(old(mem), mem, View())
        invariant Load(mem, DescAddr(descs, d)) == BlockSize(d) && Load(mem, DescAddr(descs, d) + 4) == PerArena(d)
        decreases PerArena(d) - i
      {
        var b := a + ARENA_SIZE + i * Load(mem, DescAddr(descs, d));
        SlotPush(View(), descs, a, d, i, mem);
        LiveSameTrans(old(mem), mem, InsertLinks(mem, ListTail(descs, d), b), View());
        mem := InsertLinks(mem, ListTail(descs, d), b);
        i := i + 1;
        HalfTable(mem, descs, View(), d, Slots(a, d)[..i]);
      }
      assert Slots(a, d)[..i] == Slots(a, d);
      assert |free| == DESC_CNT by { InvParts(View()); }
      HalfIsMirror(mem, descs, View(), d);
    }

    /** The end of `malloc`: the first block of the free list is handed out. */
    method PopBlock(d: Desc, size: nat) returns (b: nat)
      requires Inv(View()) && Located(descs, arenas) && Mirrors(mem, descs, View())
      requires free[d] != [] && size <= BlockSize(d) && PagesHeld()
      modifies this`mem, this`arenas, this`free, this`live
      ensures b == old(free[d][0]) && IsSmall(old(arenas), d, b) && old(arenas)[RoundDown(b)].freeCnt > 0
      ensures View() == Taken(old(View()), RoundDown(b), b, size) && PagesHeld()
      ensures Located(descs, arenas) && Mirrors(mem, descs, View()) && LiveSame(old(mem), mem, old(View()))
    {
      hide Inv, Located, RoundDown, BlockSize, Load, StoreWord, RemoveLinks, LiveSame, Backed, IsSlot;
      hide Table, Headers, FreeLinks;
      ghost var st, m := View(), mem;
      PopStep(mem, RemoveLinks(mem, free[d][0]), descs, st, d, RoundDown(free[d][0]), free[d][0], size);
      b := Load(mem, ListHead(descs, d) + 4);
      mem := RemoveLinks(mem, b);
      var a := RoundDown(b);
      mem := StoreWord(mem, a + 8, Load(mem, a + 8) - 1);
      SmallBacked(arenas, a, d, arenas[a].freeCnt - 1,
                  pages.kernel.base, pages.kernel.used.bitCnt, pages.kernel.held.Keys, clients);
      free := free[d := free[d][1..]];
      arenas := arenas[a := Small(d, arenas[a].freeCnt - 1)];
      live := live[b := size];
    }

    /** The first block of a new arena. */
    method FromNewArena(a: nat, d: Desc, size: nat) returns (b: nat)
      requires HeapOk(mem, descs, View()) && Smallest(d, size) && free[d] == []
      requires Room(arenas, a, 1) && InRange(descs, a, 1)
      requires Granted(arenas, pages.kernel.base, pages.kernel.used.bitCnt, pages.kernel.held.Keys, clients, a, 1)
      modifies this`mem, this`arenas, this`free, this`live
      ensures HeapOk(mem, descs, View()) && PagesHeld() && ServedFrom(arenas, b, size)
      ensures Answered(old(View()), View(), size, Some(b)) && LiveSame(old(mem), mem, old(View()))
      ensures TookFirst(old(View()), View(), d, b)
    {
      hide Inv, AtRest, Room, InRange, Mirrors, Located, LiveSame, RoundDown, BlockSize, PerArena, Slots, Half;
      hide Granted, Backed, IsSlot, ServedFrom, Answered;
      ghost var st, m := View(), mem;
      NewArenaStep(st, a, d, Slot(a, d, 0), size);
      RoomIsNew(arenas, a, 1);
      NewBacked(arenas, a, Small(d, PerArena(d)), pages.kernel.base, pages.kernel.used.bitCnt,
                pages.kernel.held.Keys, clients);
      StartArena(a, d);
      ghost var m1 := mem;
      LinkSlots(a, d);
      LiveSameTrans(m, m1, mem, View());
      ghost var m2 := mem;
      b := PopBlock(d, size);
      FirstTaken(m, m2, mem, descs, st, a, d, b, size);
      FirstOfNew(st, a, d, b);
      ServedSmall(arenas, d, b, size);
    }

    method FromList(d: Desc, size: nat) returns (b: nat)
      requires HeapOk(mem, descs, View()) && PagesHeld() && Smallest(d, size) && free[d] != []
      modifies this`mem, this`arenas, this`free, this`live
      ensures HeapOk(mem, descs, View()) && PagesHeld() && ServedFrom(arenas, b, size)
      ensures Answered(old(View()), View(), size, Some(b)) && LiveSame(old(mem), mem, old(View()))
      ensures TookFirst(old(View()), View(), d, b)
    {
      hide Inv, AtRest, Mirrors, Located, LiveSame, RoundDown, BlockSize, Backed, IsSlot, ServedFrom, Answered;
      ghost var st, m := View(), mem;
      InvParts(st);
      b := PopBlock(d, size);
      TakeOk(m, mem, descs, st, d, b, size);
      ServedSmall(arenas, d, b, size);
    }

    /** The small-block branch of `malloc`. */
    method GetSmall(d: Desc, size: nat) returns (r: Option<nat>)
      requires Valid() && Smallest(d, size)
      modifies this`mem, this`arenas, this`free, this`live, pages`grants, pages.kernel, pages.kernel.used.bits
      ensures Valid()
      ensures Answered(old(View()), View(), size, r) && LiveSame(old(mem), mem, old(View()))
      ensures r.Some? ==> ServedFrom(arenas, r.value, size)
      ensures r.None? ==> old(free[d]) == [] && NoRun(old(pages.kernel.used.Bits()), 1)
      ensures r.Some? ==> TookFirst(old(View()), View(), d, r.value)
    {
      hide HeapOk, KeepsSizes, Room, InRange, Granted, NoRun, Backed, ServedFrom, Smallest, Pool.Holding, LiveSame;
      hide TookFirst;
      hide Answered, Load;
      HeapParts(mem, descs, View());
      ListReads(mem, descs, View(), d);
      if Load(mem, ListHead(descs, d) + 4) == ListTail(descs, d) {
        var a := GetPages(1);
        if a.None? {
          LiveSameRefl(mem, View());
          NothingAnswered(View(), size);
          return None;
        }
        var b := FromNewArena(a.value, d, size);
        return Some(b);
      }
      var b := FromList(d, size);
      return Some(b);
    }

    /** `malloc`.  It fails only if there is no free block of that size and it cannot get the
        pages that the request needs. */
    method Malloc(size: nat) returns (r: Option<nat>)
      requires Valid() && size <= SIZE_MAX
      modifies this`mem, this`arenas, this`free, this`live, pages`grants, pages.kernel, pages.kernel.used.bits
      ensures Valid()
      ensures Answered(old(View()), View(), size, r)
      ensures BytesKept(old(mem), mem, old(View()), View())
      ensures size == 0 ==> r.None?
      ensures r.Some? ==> ServedFrom(arenas, r.value, size)
      ensures r.Some? ==> forall d: Desc :: Smallest(d, size) ==> TookFirst(old(View()), View(), d, r.value)
      ensures r.Some? && BlockSize(DESC_CNT - 1) < size ==> free == old(free)
      ensures r.None? && size > 0 ==> forall d: Desc :: Smallest(d, size) ==> old(free[d]) == []
      ensures r.None? && size > 0 && PagesFor(size) > 0 ==>
        NoRun(old(pages.kernel.used.Bits()), PagesFor(size))
    {
      hide Inv, AtRest, NoRun, BlockSize, PagesFor, Backed, ServedFrom, Located, Mirrors, LiveSame, BytesKept, Answered;
      hide TookFirst;
      hide Pool.Holding, Table;
      HeapParts(mem, descs, View());
      ghost var st, m := View(), mem;
      if size == 0 {
        LiveSameRefl(mem, View());
        MallocBytes(m, mem, st, View());
        NothingAnswered(View(), size);
        return None;
      }
      var d := FindDesc(size);
      SmallNeedsOne(d, size);
      if d == DESC_CNT {
        r := GetBig(size);
      } else {
        r := GetSmall(d, size);
      }
      MallocBytes(m, mem, st, View());
    }

    /** A small block goes to the front of its list. */
    method LinkFront(a: nat, b: nat, desc: nat, ghost d: Desc)
      requires Settled(View()) && Located(descs, arenas) && Mirrors(mem, descs, View()) && desc == DescAddr(descs, d)
      requires PagesHeld() && b in live && a == RoundDown(b) && IsSmall(arenas, d, b) && b < WORD_LIMIT
      modifies this`mem, this`arenas, this`free, this`live
      ensures old(|free|) == DESC_CNT && View() == PutBack(old(View()), a, b) && PagesHeld()
      ensures Located(descs, arenas) && Mirrors(mem, descs, View()) && LiveSame(old(mem), mem, View())
      ensures old(Wiped(mem, b, BlockSize(d))) ==> Wiped(mem, b, BlockSize(d))
    {
      hide Inv, AtRest, Located, LiveSame, RoundDown, IsSlot, Backed, Load, StoreWord, InsertLinks, Table, Headers;
      hide FreeLinks, Wiped, BlockSize, PerArena, WithoutArena;
      PutOk(mem, InsertLinks(mem, Load(mem, desc + 12), b), descs, View(), d, a, b);
      PutKeepsBody(mem, InsertLinks(mem, Load(mem, desc + 12), b), descs, View(), d, a, b, arenas[a].freeCnt + 1);
      mem := InsertLinks(mem, Load(mem, desc + 12), b);
      mem := StoreWord(mem, a + 8, Load(mem, a + 8) + 1);
      SmallBacked(arenas, a, d, arenas[a].freeCnt + 1,
                  pages.kernel.base, pages.kernel.used.bitCnt, pages.kernel.held.Keys, clients);
      free := free[d := [b] + free[d]];
      arenas := arenas[a := Small(d, arenas[a].freeCnt + 1)];
      live := live - {b};
    }

    /** A small block is cleared before it goes on its list. */
    method PutFront(a: nat, b: nat, desc: nat, ghost d: Desc)
      requires HeapOk(mem, descs, View()) && PagesHeld() && b in live && a == RoundDown(b) && IsSmall(arenas, d, b)
      requires desc == DescAddr(descs, d) && Load(mem, desc) == BlockSize(d)
      modifies this`mem, this`arenas, this`free, this`live
      ensures old(|free|) == DESC_CNT && View() == PutBack(old(View()), a, b) && PagesHeld()
      ensures Located(descs, arenas) && Mirrors(mem, descs, View()) && LiveSame(old(mem), mem, View())
      ensures Wiped(mem, b, BlockSize(d))
    {
      hide Inv, AtRest, Located, Mirrors, LiveSame, RoundDown, BlockSize, Wiped, Fill, OnlyRegion, IsSlot, Backed, Load;
      ghost var st, m := View(), mem;
      FillRegion(mem, b, Load(mem, desc), 0xcc);
      mem := Fill(mem, b, Load(mem, desc), 0xcc);
      FillStep(m, mem, descs, st, a, b, d);
      FillWipes(m, b, BlockSize(d));
      ghost var m1 := mem;
      LinkFront(a, b, desc, d);
      LiveSameTrans(m, m1, mem, PutBack(st, a, b));
    }

    /** The loop of `free` that takes the blocks of a wholly free arena off the list. */
    method UnlinkSlots(a: nat, ghost d: Desc, desc: nat)
      requires Inv(View()) && Located(descs, arenas) && Mirrors(mem, descs, View()) && desc == DescAddr(descs, d)
      requires a in arenas && arenas[a].Small? && arenas[a].desc == d && arenas[a].freeCnt == PerArena(d)
      modifies this`mem, this`arenas, this`free
      ensures old(|free|) == DESC_CNT && d < |free| && View() == WithoutArena(old(View()), a, d, free[d])
      ensures Purged(old(free[d]), a, free[d])
      ensures Mirrors(mem, descs, View()) && LiveSame(old(mem), mem, View())
    {
      hide Inv, Load, RemoveLinks, MemLinked, LiveSame, Located, RoundDown, PerArena, BlockSize, Mirrors, Purged;
      hide Table, Headers, Half, FreeLinks, Blocks, Distinct, Remain;
      ghost var st, m := View(), mem;
      StartUnlink(m, descs, st, a, d);
      ghost var blocks := free[d];
      var i := 0;
      while i < Load(mem, desc + 4)
        invariant i <= PerArena(d) && Half(mem, descs, st, d, blocks) && LiveSame(m, mem, st)
        invariant View() == st && Remain(st, a, d, i, blocks)
        invariant Load(mem, desc) == BlockSize(d) && Load(mem, desc + 4) == PerArena(d)
        decreases PerArena(d) - i
      {
        var b := a + ARENA_SIZE + i * Load(mem, desc);
        ghost var p := UnlinkStep(m, mem, descs, st, a, d, i, blocks);
        mem := RemoveLinks(mem, b);
        blocks := blocks[..p] + blocks[p + 1..];
        i := i + 1;
        HalfTable(mem, descs, st, d, blocks);
      }
      EndUnlink(m, mem, descs, st, a, d, blocks);
      arenas := arenas - {a};
      free := free[d := blocks];
    }

    /** A wholly free arena goes back to the page allocator. */
    method DropWhole(a: nat, ghost d: Desc, desc: nat)
      requires pages.Valid() && PagesHeld() && Inv(View()) && Located(descs, arenas) && Mirrors(mem, descs, View())
      requires desc == DescAddr(descs, d) && a in arenas && arenas[a].Small? && arenas[a].desc == d
      requires arenas[a].freeCnt == PerArena(d) && AtRest(arenas - {a})
      modifies this`mem, this`arenas, this`free, pages.kernel, pages.kernel.used.bits, pages.user, pages.user.used.bits
      ensures pages.Valid() && PagesHeld() && HeapOk(mem, descs, View())
      ensures live == old(live) && KeepsSizes(old(View()), View()) && LiveSame(old(mem), mem, View())
      ensures KeepsSizes(View(), old(View())) && pages.user.held == old(pages.user.held)
      ensures arenas == old(arenas) - {a} && |free| == old(|free|) == DESC_CNT && free == old(free)[d := free[d]]
      ensures Purged(old(free[d]), a, free[d])
      ensures AllBytes(mem, a, PGSIZE, 0xcc)
    {
      hide Inv, AtRest, Located, LiveSame, RoundDown, PerArena, Mirrors, Purged, Backed, KeepsSizes, Pool.Holding;
      hide AllBytes;
      ghost var st, m := View(), mem;
      assert Arenas(arenas) by { InvParts(st); }
      UnlinkSlots(a, d, desc);
      ghost var m1 := mem;
      DropStep(st, a, free[d]);
      LocatedLess(descs, st.arenas, a);
      LessKeeps(st, View(), a);
      FreePages(a, 1, st.arenas);
      LiveSameTrans(m, m1, mem, View());
    }

    /** The small-block branch of `free`. */
    method FreeSmall(a: nat, b: nat, desc: nat, ghost d: Desc)
      requires Valid() && b in live && a == RoundDown(b) && IsSmall(arenas, d, b)
      requires desc == DescAddr(descs, d) && Load(mem, desc) == BlockSize(d)
      modifies this`mem, this`arenas, this`free, this`live
      modifies pages.kernel, pages.kernel.used.bits, pages.user, pages.user.used.bits
      ensures Valid() && Released(old(View()), View(), b) && LiveSame(old(mem), mem, View())
      ensures WentBack(old(View()), View(), b) && Wiped(mem, b, BlockSize(d)) && pages.user.held == old(pages.user.held)
    {
      hide Inv, AtRest, Located, LiveSame, RoundDown, PerArena, Mirrors, Backed, KeepsSizes, Pool.Holding, BlockSize;
      hide Load, IsSlot, Purged, Wiped, AllBytes;
      BlockInPage(View(), d, b);
      ghost var st, m := View(), mem;
      PutStep(st, d, a, b);
      PutFront(a, b, desc, d);
      ghost var st1, m1 := View(), mem;
      HeaderReads(mem, descs, View(), a, d);
      if Load(mem, a + 8) >= Load(mem, desc + 4) {
        assert Load(mem, a + 8) == Load(mem, desc + 4);
        DropWhole(a, d, desc);
        LiveSameSub(m, m1, View(), st1);
        LiveSameTrans(m, m1, mem, View());
        KeepsTrans(st, st1, View(), b);
        WentBackDropped(st, View(), d, b);
        WipedPart(mem, a, PGSIZE, b, BlockSize(d));
      }
    }

    /** The big-block branch of `free`. */
    method FreeBig(a: nat, b: nat, n: nat)
      requires Valid() && b in live && a == RoundDown(b) && a in arenas && arenas[a].Big? && n == arenas[a].pages
      modifies this`mem, this`arenas, this`live
      modifies pages.kernel, pages.kernel.used.bits, pages.user, pages.user.used.bits
      ensures Valid() && Released(old(View()), View(), b) && LiveSame(old(mem), mem, View())
      ensures WentBack(old(View()), View(), b) && pages.user.held == old(pages.user.held)
      ensures n > 0 && Wiped(mem, b, PGSIZE * n - ARENA_SIZE)
    {
      hide Inv, AtRest, KeepsSizes, RoundDown, Located, LiveSame, Mirrors, Backed, Pool.Holding, Wiped;
      hide AllBytes;
      BigPlaced(View(), a, b);
      ghost var st := View();
      DropBigStep(st, a, b);
      assert Arenas(arenas) by { InvParts(st); }
      LocatedLess(descs, arenas, a);
      DropBigMirror(mem, descs, st, a, b);
      live := live - {b};
      arenas := arenas - {a};
      FreePages(a, n, st.arenas);
      WipedPart(mem, a, PGSIZE * n, b, PGSIZE * n - ARENA_SIZE);
    }

    /** `free`: the block goes; the others keep their place, their size and their bytes. */
    method Free(p: nat)
      requires Valid() && (p == 0 || p in live)
      modifies this`mem, this`arenas, this`free, this`live
      modifies pages.kernel, pages.kernel.used.bits, pages.user, pages.user.used.bits
      ensures Valid()
      ensures p == 0 ==> View() == old(View()) && mem == old(mem)
      ensures p != 0 ==> Released(old(View()), View(), p) && WentBack(old(View()), View(), p)
      ensures p != 0 ==> Wiped(mem, p, old(SizeOf(View(), p)))
      ensures BytesKept(old(mem), mem, old(View()), View()) && pages.user.held == old(pages.user.held)
    {
      hide Inv, AtRest, KeepsSizes, Backed, RoundDown, LiveSame, Mirrors, Located, BytesKept, Load, BlockSize;
      hide WentBack, Wiped;
      hide Pool.Holding;
      ghost var st, m := View(), mem;
      if p == 0 {
        LiveSameRefl(mem, st);
        MallocBytes(m, m, st, st);
        return;
      }
      var a := RoundDown(p);
      var desc := Load(mem, a + 4);
      BlockToArena(mem, descs, st, a, p, desc);
      SizeIs(st, a, p);
      if desc != 0 {
        FreeSmall(a, p, desc, st.arenas[a].desc);
      } else {
        FreeBig(a, p, Load(mem, a + 8));
      }
      FreeBytes(m, mem, st, View());
    }

    /** `block_size`. */
    method BlockSizeOf(b: nat) returns (n: nat)
      requires HeapOk(mem, descs, View()) && b in live
      ensures n == SizeOf(View(), b)
    {
      hide Inv, AtRest, RoundDown, Mirrors, Located, Load, BlockSize, Aligned, IsSmall;
      var a := RoundDown(b);
      var desc := Load(mem, a + 4);
      BlockToArena(mem, descs, View(), a, b, desc);
      var n' := if desc != 0 then Load(mem, desc) else PGSIZE * Load(mem, a + 8) - b % PGSIZE;
      SizeIs(View(), a, b);
      n := n';
    }

    /** The copy of `realloc` and the release of the old block. */
    method Move(p: nat, q: nat, size: nat, ghost st: Store, ghost m: Mem) returns (r: Resized)
      requires Valid() && size <= SIZE_MAX && Settled(st) && p in st.live && Answered(st, View(), size, Some(q))
      requires BytesKept(m, mem, st, View()) && ServedFrom(arenas, q, size)
      modifies this`mem, this`arenas, this`free, this`live
      modifies pages.kernel, pages.kernel.used.bits, pages.user, pages.user.used.bits
      ensures r == if Overruns(SizeOf(st, p), size) then Overrun(q) else Block(q)
      ensures r.Overrun? ==> View() == old(View())
      ensures r.Overrun? ==> Overran(m, st, mem, descs, View(), p, q, Min(size, SizeOf(st, p)))
      ensures r.Block? ==> Valid() && q !in st.live && live == st.live[q := size] - {p} && KeepsSizes(st, View())
      ensures r.Block? ==> Moved(st, m, mem, p, q, Min(size, SizeOf(st, p))) && ServedFrom(arenas, q, size)
    {
      hide Inv, AtRest, KeepsSizes, Backed, Mirrors, Located, BytesKept, Moved, ServedFrom, LiveSame, Pool.Holding;
      hide Overruns, SizeOf, Copy, Settled, Bytes;
      ghost var st1, m1 := View(), mem;
      SizeKept(st, st1, p);
      LiveNonzero(st, p);
      var oldSize := BlockSizeOf(p);
      var room := BlockSizeOf(q);
      var n := Min(size, oldSize);
      NewRoom(st1, q, size, oldSize);
      if n > room {
        mem := Copy(mem, q, p, n);
        return Overrun(q);
      }
      CopyStep(mem, Copy(mem, q, p, n), descs, st1, p, q, n);
      mem := Copy(mem, q, p, n);
      ghost var m2 := mem;
      Free(p);
      Finish(m, m1, m2, mem, st, st1, View(), p, q, n, size);
      ServedKept(st1, View(), q, size);
      return Block(q);
    }

    /** `realloc`.  An overrun is where the copy writes past the new block; the model ends with
        the copy then. */
    method Realloc(p: nat, size: nat) returns (r: Resized)
      requires Valid() && size <= SIZE_MAX && (p == 0 || p in live)
      modifies this`mem, this`arenas, this`free, this`live
      modifies pages`grants, pages.kernel, pages.kernel.used.bits, pages.user, pages.user.used.bits
      ensures r.Overrun? ==> p != 0 && Overruns(old(SizeOf(View(), p)), size)
      ensures r.Overrun? ==> Answered(old(View()), View(), size, Some(r.addr))
      ensures r.Overrun? ==>
        Overran(old(mem), old(View()), mem, descs, View(), p, r.addr, Min(size, old(SizeOf(View(), p))))
      ensures p != 0 && Overruns(old(SizeOf(View(), p)), size) ==> !r.Block?
      ensures !r.Overrun? ==> Valid()
      ensures size == 0 ==> r.Nothing?
      ensures size == 0 && p != 0 ==> Released(old(View()), View(), p)
      ensures r.Nothing? ==> BytesKept(old(mem), mem, old(View()), View())
      ensures r.Nothing? && (p == 0 || size != 0) ==> View() == old(View())
      ensures r.Nothing? && size > 0 ==> forall d: Desc :: Smallest(d, size) ==> old(free[d]) == []
      ensures r.Nothing? && size > 0 && PagesFor(size) > 0 ==>
        NoRun(old(pages.kernel.used.Bits()), PagesFor(size))
      ensures r.Block? ==> ServedFrom(arenas, r.addr, size)
      ensures r.Block? && p == 0 ==>
        Answered(old(View()), View(), size, Some(r.addr)) && BytesKept(old(mem), mem, old(View()), View())
      ensures r.Block? && p != 0 ==> r.addr !in old(live) && live == old(live)[r.addr := size] - {p}
      ensures r.Block? && p != 0 ==> KeepsSizes(old(View()), View())
      ensures r.Block? && p != 0 ==>
        Moved(old(View()), old(mem), mem, p, r.addr, Min(size, old(SizeOf(View(), p))))
    {
      hide Inv, AtRest, KeepsSizes, Backed, Mirrors, Located, BytesKept, Moved, ServedFrom, PagesFor, NoRun;
      hide Pool.Holding;
      hide Overruns, SizeOf, Wraps;
      if size == 0 {
        NoOverrun();
        Free(p);
        return Nothing;
      }
      ghost var st, m := View(), mem;
      var q := Malloc(size);
      if q.None? {
        return Nothing;
      }
      if p == 0 {
        return Block(q.value);
      }
      r := Move(p, q.value, size, st, m);
    }

    /** No page is lost: when nothing is live, the pool holds only the pages of others. */
    lemma NoLeak()
      requires Valid() && live == map[]
      ensures arenas == map[] && pages.kernel.held.Keys == clients
    {
      hide Pool.Holding, Backed, Located, Mirrors;
      NothingHeld(View(), pages.kernel.base, pages.kernel.used.bitCnt, pages.kernel.held.Keys, clients);
    }

    // ----- the rest of the kernel -----

    /** A request for pages by another part of the kernel. */
    method ClientGet(fromUser: bool, mustSucceed: bool, cnt: nat) returns (r: Answer)
      requires Valid()
      modifies this`clients, pages`grants, pages.PoolOf(fromUser), pages.PoolOf(fromUser).used.bits
      ensures Valid() && View() == old(View()) && mem == old(mem)
      ensures r.Pages? && !fromUser ==> PageFromPool(pages.kernel.base, pages.kernel.used.bitCnt, r.addr)
      ensures clients == if r.Pages? && !fromUser
                         then old(clients) + Range(PgNo(r.addr) - PgNo(pages.kernel.base), cnt) else old(clients)
      ensures r.Pages? ==> cnt > 0 && PgOfs(r.addr) == 0 && Room(arenas, r.addr, cnt)
      ensures Served(pages.mode, old(pages.PoolOf(fromUser).View()), pages.PoolOf(fromUser).View(), cnt, mustSucceed,
                     old(pages.grants), r)
    {
      hide Pool.Holding, HeapOk, Chosen, Room, Backed, Granted;
      HeapParts(mem, descs, View());
      ghost var held := pages.kernel.held;
      r := pages.GetMultiple(fromUser, mustSucceed, cnt);
      if r.Pages? {
        if fromUser {
          UserRoom(arenas, pages.kernel.base, pages.kernel.used.bitCnt, pages.kernel.held.Keys, clients,
                   pages.user.base, pages.user.used.bitCnt, r.addr, cnt);
        } else {
          ClientGranted(arenas, pages.kernel.base, pages.kernel.used.bitCnt, held.Keys, pages.kernel.held.Keys, clients,
                        r.addr, cnt);
          clients := clients + Range(PgNo(r.addr) - PgNo(pages.kernel.base), cnt);
        }
      }
    }

    /** A release of pages by another part of the kernel, which holds them. */
    method ClientFree(addr: nat, cnt: nat)
      requires Valid() && PgOfs(addr) == 0 && addr != 0 && cnt != 0 && Room(arenas, addr, cnt)
      requires HeldPages(pages.kernel.base, pages.kernel.used.bitCnt, pages.kernel.held.Keys, addr, cnt)
        || HeldPages(pages.user.base, pages.user.used.bitCnt, pages.user.held.Keys, addr, cnt)
      modifies this`mem, this`clients, pages.kernel, pages.kernel.used.bits, pages.user, pages.user.used.bits
      ensures Valid() && View() == old(View()) && BytesKept(old(mem), mem, old(View()), View())
      ensures clients == if PageFromPool(pages.kernel.base, pages.kernel.used.bitCnt, addr)
                         then old(clients) - Range(PgNo(addr) - PgNo(pages.kernel.base), cnt) else old(clients)
      ensures AllBytes(mem, addr, PGSIZE * cnt, 0xcc)
      ensures pages.user.held == if PageFromPool(pages.user.base, pages.user.used.bitCnt, addr)
                                 then old(pages.user.held) - Range(PgNo(addr) - PgNo(pages.user.base), cnt)
                                 else old(pages.user.held)
    {
      hide Pool.Holding, HeapOk, Room, Fill, OnlyRegion, LiveSame, BytesKept, Range, Backed, AllBytes;
      FillFills(mem, addr, PGSIZE * cnt, 0xcc);
      HeapParts(mem, descs, View());
      PoolsAbove(pages.kernel.base, pages.kernel.used.bitCnt, pages.user.base, pages.user.used.bitCnt, addr);
      FillRegion(mem, addr, PGSIZE * cnt, 0xcc);
      PageFillOk(View(), descs, addr, cnt, mem, Fill(mem, addr, PGSIZE * cnt, 0xcc));
      OkSettled(mem, descs, View());
      MallocBytes(mem, Fill(mem, addr, PGSIZE * cnt, 0xcc), View(), View());
      mem := Fill(mem, addr, PGSIZE * cnt, 0xcc);
      ClientBacked(arenas, addr, cnt, pages.kernel.base, pages.kernel.used.bitCnt, pages.kernel.held.Keys, clients);
      if PageFromPool(pages.kernel.base, pages.kernel.used.bitCnt, addr) {
        clients := clients - Range(PgNo(addr) - PgNo(pages.kernel.base), cnt);
      }
      pages.FreeMultiple(addr, cnt);
    }

    /** A write to a live block by its owner. */
    method ClientStore(b: nat, k: nat, v: Byte)
      requires Valid() && b in live && k < SizeOf(View(), b)
      modifies this`mem
      ensures Valid() && mem(b + k) == v && View() == old(View())
      ensures forall c :: c in live && c != b ==>
        Bytes(mem, c, SizeOf(View(), c)) == Bytes(old(mem), c, SizeOf(View(), c))
    {
      hide Inv, AtRest, RoundDown, Located, Mirrors, LiveSame, Bytes, Pool.Holding, Backed;
      ghost var st, m := View(), mem;
      mem := Fill(mem, b + k, 1, v);
      LiveSmall(st, b);
      BlockFillKeeps(st, descs, b, m, mem);
      forall c | c in live && c != b ensures Bytes(mem, c, SizeOf(st, c)) == Bytes(m, c, SizeOf(st, c)) {
        WithoutBytes(m, mem, st, b, c);
      }
    }
  }

  /** `palloc_init` and `malloc_init` at boot, with the descriptors in the kernel image below the
      managed memory; none stands for the panic of `palloc_init`. */
  method BootHeap(ramPages: nat, userLimit: nat, descs: nat, start: Mem) returns (r: Option<Heap>)
    requires LOW_PAGES <= ramPages <= 0x4_0000
    requires 0 < descs && descs + DESCS_SIZE <= PHYS_BASE + LOW_PAGES * PGSIZE
    ensures r.None? <==>
      || BitmapPages(UserPages(ramPages, userLimit)) > UserPages(ramPages, userLimit)
      || BitmapPages(KernelPages(ramPages, userLimit)) > KernelPages(ramPages, userLimit)
    ensures r.Some? ==> var h := r.value;
      && h.Valid() && h.live == map[] && h.clients == {} && fresh(h) && fresh(h.pages)
      && fresh(h.pages.kernel) && fresh(h.pages.kernel.used.bits)
      && fresh(h.pages.user) && fresh(h.pages.user.used.bits)
  {
    hide Pool.Holding, HeapOk, UserPages, KernelPages, BitmapPages;
    var pages := PallocInit(ramPages, userLimit);
    if pages.None? {
      return None;
    }
    var h := new Heap(pages.value, descs, start);
    return Some(h);
  }
}
