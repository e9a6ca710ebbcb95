/** The block allocator's bookkeeping as it lies in memory: the descriptor table, the arena
    headers, and the free lists threaded through the free blocks themselves. */
module HeapMemory {
  import opened PageAllocator
  import opened BlockStore
  import opened MemList

  const DESC_SIZE: nat := 48            // sizeof (struct desc)
  const DESCS_SIZE: nat := 480          // descs[10]
  const ARENA_MAGIC: nat := 0x9a54_8eed

  function DescAddr(descs: nat, d: Desc): nat { descs + DESC_SIZE * d }

  /** The sentinels of a descriptor's free list. */
  function ListHead(descs: nat, d: Desc): nat { DescAddr(descs, d) + 8 }

  function ListTail(descs: nat, d: Desc): nat { DescAddr(descs, d) + 16 }

  function FreeChain(descs: nat, d: Desc, blocks: seq<nat>): seq<nat> {
    [ListHead(descs, d)] + blocks + [ListTail(descs, d)]
  }

  /** The words of an arena header: the descriptor, null for a big block, and the count. */
  function DescPtr(descs: nat, x: Arena): nat { if x.Small? then DescAddr(descs, x.desc) else 0 }

  function Cnt(x: Arena): nat { if x.Small? then x.freeCnt else x.pages }

  // ----- what memory holds -----

  ghost predicate Table(m: Mem, descs: nat) {
    forall d: Desc :: Load(m, DescAddr(descs, d)) == BlockSize(d) && Load(m, DescAddr(descs, d) + 4) == PerArena(d)
  }

  ghost predicate Header(m: Mem, descs: nat, a: nat, x: Arena) {
    Load(m, a) == ARENA_MAGIC && Load(m, a + 4) == DescPtr(descs, x) && Load(m, a + 8) == Cnt(x)
  }

  ghost predicate Headers(m: Mem, descs: nat, arenas: map<nat, Arena>) {
    forall a :: a in arenas ==> Header(m, descs, a, arenas[a])
  }

  ghost predicate FreeLinks(m: Mem, descs: nat, free: seq<seq<nat>>)
    requires |free| == DESC_CNT
  {
    forall d: Desc :: MemLinked(m, FreeChain(descs, d, free[d]))
  }

  /** Memory holds the bookkeeping. */
  ghost predicate Mirrors(m: Mem, descs: nat, st: Store) {
    |st.free| == DESC_CNT && Table(m, descs) && Headers(m, descs, st.arenas) && FreeLinks(m, descs, st.free)
  }

  /** The descriptors are in static memory below the arenas; all addresses are words. */
  ghost predicate Located(descs: nat, arenas: map<nat, Arena>) {
    && descs > 0
    && descs + DESCS_SIZE <= WORD_LIMIT
    && forall a :: a in arenas ==> InRange(descs, a, Extent(arenas[a]))
  }

  ghost predicate InRange(descs: nat, a: nat, n: nat) {
    descs + DESCS_SIZE <= a && a + PGSIZE * n <= WORD_LIMIT
  }

  // ----- what a write leaves alone -----

  /** The bytes of every live block are the same. */
  ghost predicate LiveSame(m: Mem, m': Mem, st: Store) {
    forall b :: b in st.live && RoundDown(b) in st.arenas && Usable(st.arenas[RoundDown(b)]) >= 0 ==>
      SameBytes(m, m', b, Usable(st.arenas[RoundDown(b)]))
  }

  /** A list node of descriptor `d`: a sentinel, or a block that is not live. */
  ghost predicate Node(st: Store, descs: nat, d: Desc, n: nat) {
    n == ListHead(descs, d) || n == ListTail(descs, d) || (IsSmall(st.arenas, d, n) && n !in st.live)
  }

  ghost predicate AllNodes(st: Store, descs: nat, d: Desc, c: seq<nat>) {
    forall i :: 0 <= i < |c| ==> Node(st, descs, d, c[i])
  }

  /** Where a block's node lies. */
  lemma NodeInArena(st: Store, d: Desc, b: nat)
    requires Arenas(st.arenas) && IsSmall(st.arenas, d, b)
    ensures var a := RoundDown(b);
      a + ARENA_SIZE <= b && b + 16 <= a + PGSIZE && ArenaOk(a, st.arenas[a])
  {
    var a := RoundDown(b);
    assert ArenaOk(a, st.arenas[a]);
    var i: nat :| i < PerArena(d) && b == Slot(a, d, i);
    SlotBounds(a, d, i);
  }

  lemma NodeVsHeader(st: Store, descs: nat, d: Desc, n: nat, a: nat)
    requires Arenas(st.arenas) && Located(descs, st.arenas) && Node(st, descs, d, n) && a in st.arenas
    ensures n + 8 <= a || a + ARENA_SIZE <= n
  {
    assert ArenaOk(a, st.arenas[a]) && InRange(descs, a, Extent(st.arenas[a]));
    if n != ListHead(descs, d) && n != ListTail(descs, d) {
      NodeInArena(st, d, n);
      var a' := RoundDown(n);
      if a' != a {
        assert Apart(a, Extent(st.arenas[a]), a', Extent(st.arenas[a']));
      }
    }
  }

  lemma NodeVsTable(st: Store, descs: nat, d: Desc, n: nat, e: Desc)
    requires Arenas(st.arenas) && Located(descs, st.arenas) && Node(st, descs, d, n)
    ensures n + 8 <= DescAddr(descs, e) || DescAddr(descs, e) + 8 <= n
  {
    if n != ListHead(descs, d) && n != ListTail(descs, d) {
      NodeInArena(st, d, n);
      assert InRange(descs, RoundDown(n), 1);
    }
  }

  lemma NodeVsLive(st: Store, descs: nat, d: Desc, n: nat, b: nat)
    requires Arenas(st.arenas) && LiveBlocks(st) && Located(descs, st.arenas) && Node(st, descs, d, n) && b in st.live
    ensures n + 8 <= b || b + Usable(st.arenas[RoundDown(b)]) <= n
  {
    assert IsBlock(st.arenas, b);
    BlockAligned(st.arenas, b);
    if n == ListHead(descs, d) || n == ListTail(descs, d) {
      assert InRange(descs, RoundDown(b), Extent(st.arenas[RoundDown(b)]));
    } else {
      BlocksDisjoint(st.arenas, n, b);
      assert Usable(st.arenas[RoundDown(n)]) >= 16;
    }
  }

  /** Two nodes do not overlap. */
  lemma NodeVsNode(st: Store, descs: nat, d: Desc, n: nat, e: Desc, n': nat)
    requires Arenas(st.arenas) && Located(descs, st.arenas)
    requires Node(st, descs, d, n) && Node(st, descs, e, n') && n != n'
    ensures n + 8 <= n' || n' + 8 <= n
    ensures n + 8 <= WORD_LIMIT
  {
    if n != ListHead(descs, d) && n != ListTail(descs, d) {
      NodeInArena(st, d, n);
      assert InRange(descs, RoundDown(n), 1);
    }
    if n' != ListHead(descs, e) && n' != ListTail(descs, e) {
      NodeInArena(st, e, n');
      assert InRange(descs, RoundDown(n'), 1);
    }
    if IsSmall(st.arenas, d, n) && IsSmall(st.arenas, e, n') {
      BlocksDisjoint(st.arenas, n, n');
    }
  }

  lemma SentinelsApart(descs: nat, d: Desc, e: Desc)
    ensures d != e ==> ListHead(descs, d) != ListHead(descs, e) && ListTail(descs, d) != ListTail(descs, e)
    ensures ListHead(descs, d) != ListTail(descs, e)
  {
  }

  lemma HeaderSame(m: Mem, m': Mem, descs: nat, a: nat, x: Arena)
    requires SameBytes(m, m', a, ARENA_SIZE) && Header(m, descs, a, x)
    ensures Header(m', descs, a, x)
  {
    hide Load;
    SameLoad(m, m', a);
    SameLoad(m, m', a + 4);
    SameLoad(m, m', a + 8);
  }

  lemma TableSame(m: Mem, m': Mem, descs: nat)
    requires Table(m, descs) && forall e: Desc :: SameBytes(m, m', DescAddr(descs, e), 8)
    ensures Table(m', descs)
  {
    hide Load, BlockSize, PerArena;
    forall e: Desc
      ensures Load(m', DescAddr(descs, e)) == BlockSize(e) && Load(m', DescAddr(descs, e) + 4) == PerArena(e)
    {
      assert SameBytes(m, m', DescAddr(descs, e), 8);
      SameLoad(m, m', DescAddr(descs, e));
      SameLoad(m, m', DescAddr(descs, e) + 4);
    }
  }

  /** Bytes that no node covers are the same. */
  lemma OutsideNodes(m: Mem, m': Mem, c: seq<nat>, lo: nat, n: nat)
    requires OnlyNodes(m, m', c) && forall i :: 0 <= i < |c| ==> c[i] + 8 <= lo || lo + n <= c[i]
    ensures SameBytes(m, m', lo, n)
  {
  }

  /** Writing nodes of one list leaves the table, the headers and the live blocks. */
  lemma ListWriteKeeps(st: Store, descs: nat, d: Desc, m: Mem, m': Mem, c: seq<nat>)
    requires Arenas(st.arenas) && LiveBlocks(st) && Located(descs, st.arenas)
    requires AllNodes(st, descs, d, c) && OnlyNodes(m, m', c)
    ensures Table(m, descs) ==> Table(m', descs)
    ensures Headers(m, descs, st.arenas) ==> Headers(m', descs, st.arenas)
    ensures LiveSame(m, m', st)
  {
    hide Arenas, LiveBlocks, Located, Node, OnlyNodes, RoundDown, Header, SameBytes;
    forall e: Desc ensures SameBytes(m, m', DescAddr(descs, e), 8) {
      forall i | 0 <= i < |c| ensures c[i] + 8 <= DescAddr(descs, e) || DescAddr(descs, e) + 8 <= c[i] {
        NodeVsTable(st, descs, d, c[i], e);
      }
      OutsideNodes(m, m', c, DescAddr(descs, e), 8);
    }
    if Table(m, descs) {
      TableSame(m, m', descs);
    }
    hide Table;
    forall a | a in st.arenas && Headers(m, descs, st.arenas) ensures Header(m', descs, a, st.arenas[a]) {
      forall i | 0 <= i < |c| ensures c[i] + 8 <= a || a + ARENA_SIZE <= c[i] {
        NodeVsHeader(st, descs, d, c[i], a);
      }
      OutsideNodes(m, m', c, a, ARENA_SIZE);
      HeaderSame(m, m', descs, a, st.arenas[a]);
    }
    forall b | b in st.live && RoundDown(b) in st.arenas && Usable(st.arenas[RoundDown(b)]) >= 0
      ensures SameBytes(m, m', b, Usable(st.arenas[RoundDown(b)]))
    {
      forall i | 0 <= i < |c| ensures c[i] + 8 <= b || b + Usable(st.arenas[RoundDown(b)]) <= c[i] {
        NodeVsLive(st, descs, d, c[i], b);
      }
      OutsideNodes(m, m', c, b, Usable(st.arenas[RoundDown(b)]));
    }
  }

  /** ... and the other lists. */
  lemma ListWriteOthers(st: Store, descs: nat, d: Desc, m: Mem, m': Mem, c: seq<nat>, e: Desc, c': seq<nat>)
    requires Arenas(st.arenas) && Located(descs, st.arenas) && d != e
    requires AllNodes(st, descs, d, c) && OnlyNodes(m, m', c)
    requires AllNodes(st, descs, e, c') && MemLinked(m, c')
    ensures MemLinked(m', c')
  {
    forall i, j | 0 <= i < |c| && 0 <= j < |c'| ensures c[i] + 8 <= c'[j] || c'[j] + 8 <= c[i] {
      SentinelsApart(descs, d, e);
      DifferentNodes(st, descs, d, c[i], e, c'[j]);
    }
    OtherListKept(m, m', c, c');
  }

  lemma DifferentNodes(st: Store, descs: nat, d: Desc, n: nat, e: Desc, n': nat)
    requires Arenas(st.arenas) && Located(descs, st.arenas) && d != e
    requires Node(st, descs, d, n) && Node(st, descs, e, n')
    ensures n + 8 <= n' || n' + 8 <= n
  {
    SentinelsApart(descs, d, e);
    SentinelsApart(descs, e, d);
    if IsSmall(st.arenas, d, n) {
      SmallIsAbove(st, descs, d, n);
    }
    if IsSmall(st.arenas, e, n') {
      SmallIsAbove(st, descs, e, n');
    }
    if n != n' {
      NodeVsNode(st, descs, d, n, e, n');
    }
  }

  lemma SmallIsAbove(st: Store, descs: nat, d: Desc, n: nat)
    requires Arenas(st.arenas) && Located(descs, st.arenas) && IsSmall(st.arenas, d, n)
    ensures descs + DESCS_SIZE <= n
  {
    NodeInArena(st, d, n);
    assert InRange(descs, RoundDown(n), 1);
  }

  /** The nodes of a free list. */
  lemma FreeNodes(st: Store, descs: nat, d: Desc)
    requires FreeLists(st)
    ensures AllNodes(st, descs, d, FreeChain(descs, d, st.free[d]))
  {
    hide IsSmall;
    var c := FreeChain(descs, d, st.free[d]);
    forall i | 0 <= i < |c| ensures Node(st, descs, d, c[i]) {
      if 0 < i < |c| - 1 {
        assert c[i] == st.free[d][i - 1];
        assert c[i] in st.free[d];
      }
    }
  }

  /** A block that is not on the list is apart from its nodes. */
  lemma BlockApartFromList(st: Store, descs: nat, d: Desc, b: nat, c: seq<nat>)
    requires Arenas(st.arenas) && Located(descs, st.arenas) && AllNodes(st, descs, d, c)
    requires IsSmall(st.arenas, d, b) && b !in c
    ensures ClearOf(c, b)
  {
    NodeInArena(st, d, b);
    assert InRange(descs, RoundDown(b), 1);
    forall i | 0 <= i < |c| ensures c[i] + 8 <= b || b + 8 <= c[i] {
      assert c[i] in c;
      if c[i] == ListHead(descs, d) || c[i] == ListTail(descs, d) {
      } else {
        BlocksDisjoint(st.arenas, b, c[i]);
      }
    }
  }

  // ----- headers -----

  ghost predicate OnlyRegion(m: Mem, m': Mem, lo: nat, n: nat) {
    forall x: nat :: !(lo <= x < lo + n) ==> m'(x) == m(x)
  }

  /** The three stores of a header. */
  function StoreHeader(m: Mem, a: nat, ptr: nat, cnt: nat): Mem
    requires ptr < WORD_LIMIT && cnt < WORD_LIMIT
  {
    StoreWord(StoreWord(StoreWord(m, a, ARENA_MAGIC), a + 4, ptr), a + 8, cnt)
  }

  lemma HeaderStored(m: Mem, descs: nat, a: nat, x: Arena)
    requires DescPtr(descs, x) < WORD_LIMIT && Cnt(x) < WORD_LIMIT
    ensures Header(StoreHeader(m, a, DescPtr(descs, x), Cnt(x)), descs, a, x)
    ensures OnlyRegion(m, StoreHeader(m, a, DescPtr(descs, x), Cnt(x)), a, ARENA_SIZE)
  {
    HeaderRegion(m, a, DescPtr(descs, x), Cnt(x));
    hide Load, StoreWord;
    var ptr, cnt := DescPtr(descs, x), Cnt(x);
    var m1 := StoreWord(m, a, ARENA_MAGIC);
    var m2 := StoreWord(m1, a + 4, ptr);
    ReadBack(m, a, ARENA_MAGIC, a);
    ReadBack(m1, a + 4, ptr, a);
    ReadBack(m1, a + 4, ptr, a + 4);
    ReadBack(m2, a + 8, cnt, a);
    ReadBack(m2, a + 8, cnt, a + 4);
    ReadBack(m2, a + 8, cnt, a + 8);
  }

  lemma HeaderRegion(m: Mem, a: nat, ptr: nat, cnt: nat)
    requires ptr < WORD_LIMIT && cnt < WORD_LIMIT
    ensures OnlyRegion(m, StoreHeader(m, a, ptr, cnt), a, ARENA_SIZE)
  {
  }

  /** A store of the count alone. */
  lemma CountStored(m: Mem, descs: nat, a: nat, x: Arena, cnt: nat)
    requires Header(m, descs, a, x) && x.Small? && cnt < WORD_LIMIT
    ensures Header(StoreWord(m, a + 8, cnt), descs, a, Small(x.desc, cnt))
    ensures OnlyRegion(m, StoreWord(m, a + 8, cnt), a, ARENA_SIZE)
  {
    CountRegion(m, a, cnt);
    hide Load, StoreWord;
    ReadBack(m, a + 8, cnt, a);
    ReadBack(m, a + 8, cnt, a + 4);
    ReadBack(m, a + 8, cnt, a + 8);
  }

  lemma CountRegion(m: Mem, a: nat, cnt: nat)
    requires cnt < WORD_LIMIT
    ensures OnlyRegion(m, StoreWord(m, a + 8, cnt), a, ARENA_SIZE)
  {
  }

  /** A place for a header: that of an arena, or of one that could be added. */
  ghost predicate Spot(descs: nat, arenas: map<nat, Arena>, a: nat) {
    a % PGSIZE == 0 && descs + DESCS_SIZE <= a && (a in arenas || Room(arenas, a, 1))
  }

  lemma SpotVsArena(descs: nat, arenas: map<nat, Arena>, a: nat, a': nat)
    requires Arenas(arenas) && Spot(descs, arenas, a) && a' in arenas && a != a'
    ensures a + PGSIZE <= a' || a' + PGSIZE * Extent(arenas[a']) <= a
  {
    assert ArenaOk(a', arenas[a']);
    if a in arenas {
      assert ArenaOk(a, arenas[a]);
      assert Apart(a, Extent(arenas[a]), a', Extent(arenas[a']));
    } else {
      assert Apart(a, 1, a', Extent(arenas[a']));
    }
  }

  lemma NodeVsSpot(st: Store, descs: nat, d: Desc, n: nat, a: nat)
    requires Arenas(st.arenas) && Located(descs, st.arenas) && Node(st, descs, d, n) && Spot(descs, st.arenas, a)
    ensures n + 8 <= a || a + ARENA_SIZE <= n
  {
    if n != ListHead(descs, d) && n != ListTail(descs, d) {
      NodeInArena(st, d, n);
      if RoundDown(n) != a {
        SpotVsArena(descs, st.arenas, a, RoundDown(n));
      }
    }
  }

  lemma LiveVsSpot(st: Store, descs: nat, a: nat, b: nat)
    requires Arenas(st.arenas) && LiveBlocks(st) && Spot(descs, st.arenas, a) && b in st.live
    ensures b + Usable(st.arenas[RoundDown(b)]) <= a || a + ARENA_SIZE <= b
  {
    assert IsBlock(st.arenas, b);
    BlockAligned(st.arenas, b);
    if RoundDown(b) != a {
      SpotVsArena(descs, st.arenas, a, RoundDown(b));
    }
  }

  lemma ListKeptOutside(m: Mem, m': Mem, lo: nat, n: nat, c: seq<nat>)
    requires OnlyRegion(m, m', lo, n) && MemLinked(m, c)
    requires forall i :: 0 <= i < |c| ==> c[i] + 8 <= lo || lo + n <= c[i]
    ensures MemLinked(m', c)
  {
    hide Load, OnlyRegion;
    forall i: nat | i < |c| - 1 ensures MemList.Linked(m', c, i) {
      assert MemList.Linked(m, c, i);
      RegionLoad(m, m', lo, n, c[i]);
      RegionLoad(m, m', lo, n, c[i + 1]);
    }
  }

  lemma RegionLoad(m: Mem, m': Mem, lo: nat, n: nat, e: nat)
    requires OnlyRegion(m, m', lo, n) && (e + 8 <= lo || lo + n <= e)
    ensures Load(m', e) == Load(m, e) && Load(m', e + 4) == Load(m, e + 4)
  {
  }

  /** Writing a header leaves the table, the lists, the other headers and the live blocks. */
  lemma HeaderWriteKeeps(st: Store, descs: nat, m: Mem, m': Mem, a: nat)
    requires Arenas(st.arenas) && LiveBlocks(st) && FreeLists(st) && Located(descs, st.arenas)
    requires Spot(descs, st.arenas, a) && OnlyRegion(m, m', a, ARENA_SIZE)
    ensures Table(m, descs) ==> Table(m', descs)
    ensures FreeLinks(m, descs, st.free) ==> FreeLinks(m', descs, st.free)
    ensures forall a' :: a' in st.arenas && a' != a && Header(m, descs, a', st.arenas[a']) ==>
      Header(m', descs, a', st.arenas[a'])
    ensures LiveSame(m, m', st)
  {
    hide Arenas, LiveBlocks, IsSmall, Located, Node, RoundDown, Header, MemLinked, Load;
    if Table(m, descs) {
      TableSame(m, m', descs);
    }
    hide Table;
    forall d: Desc | FreeLinks(m, descs, st.free) ensures MemLinked(m', FreeChain(descs, d, st.free[d])) {
      var c := FreeChain(descs, d, st.free[d]);
      FreeNodes(st, descs, d);
      forall i | 0 <= i < |c| ensures c[i] + 8 <= a || a + ARENA_SIZE <= c[i] {
        NodeVsSpot(st, descs, d, c[i], a);
      }
      ListKeptOutside(m, m', a, ARENA_SIZE, c);
    }
    forall a' | a' in st.arenas && a' != a && Header(m, descs, a', st.arenas[a'])
      ensures Header(m', descs, a', st.arenas[a'])
    {
      SpotVsArena(descs, st.arenas, a, a');
      ArenaHasPage(st.arenas, a');
      HeaderSame(m, m', descs, a', st.arenas[a']);
    }
    forall b | b in st.live && RoundDown(b) in st.arenas && Usable(st.arenas[RoundDown(b)]) >= 0
      ensures SameBytes(m, m', b, Usable(st.arenas[RoundDown(b)]))
    {
      LiveVsSpot(st, descs, a, b);
    }
  }

  lemma ArenaHasPage(arenas: map<nat, Arena>, a: nat)
    requires Arenas(arenas) && a in arenas
    ensures Extent(arenas[a]) >= 1
  {
    assert ArenaOk(a, arenas[a]);
  }

  // ----- one list in motion -----

  /** Memory holds the bookkeeping, except that the list of `d` holds these blocks. */
  ghost predicate Half(m: Mem, descs: nat, st: Store, d: Desc, blocks: seq<nat>) {
    && |st.free| == DESC_CNT && Table(m, descs) && Headers(m, descs, st.arenas)
    && MemLinked(m, FreeChain(descs, d, blocks))
    && forall e: Desc :: e != d ==> MemLinked(m, FreeChain(descs, e, st.free[e]))
  }

  lemma HalfIsMirror(m: Mem, descs: nat, st: Store, d: Desc)
    requires |st.free| == DESC_CNT
    ensures Half(m, descs, st, d, st.free[d]) <==> Mirrors(m, descs, st)
  {
    hide MemLinked, Table, Headers;
  }

  ghost predicate Blocks(st: Store, d: Desc, blocks: seq<nat>) {
    forall i :: 0 <= i < |blocks| ==> IsSmall(st.arenas, d, blocks[i]) && blocks[i] !in st.live
  }

  lemma ChainNodes(st: Store, descs: nat, d: Desc, blocks: seq<nat>)
    requires Blocks(st, d, blocks)
    ensures AllNodes(st, descs, d, FreeChain(descs, d, blocks))
  {
    hide IsSmall;
    var c := FreeChain(descs, d, blocks);
    assert forall i :: 0 < i < |c| - 1 ==> c[i] == blocks[i - 1];
  }

  /** What a write to the nodes of one list comes to. */
  lemma HalfWrite(st: Store, descs: nat, d: Desc, m: Mem, m': Mem, blocks: seq<nat>, blocks': seq<nat>)
    requires Arenas(st.arenas) && LiveBlocks(st) && FreeLists(st) && Located(descs, st.arenas)
    requires Half(m, descs, st, d, blocks) && Blocks(st, d, blocks')
    requires MemLinked(m', FreeChain(descs, d, blocks')) && OnlyNodes(m, m', FreeChain(descs, d, blocks'))
    ensures Half(m', descs, st, d, blocks') && LiveSame(m, m', st)
  {
    hide Arenas, LiveBlocks, IsSmall, Located, MemLinked, Table, Headers, OnlyNodes, FreeChain, LiveSame, Blocks;
    var c' := FreeChain(descs, d, blocks');
    ChainNodes(st, descs, d, blocks');
    ListWriteKeeps(st, descs, d, m, m', c');
    forall e: Desc | e != d ensures MemLinked(m', FreeChain(descs, e, st.free[e])) {
      FreeNodes(st, descs, e);
      ListWriteOthers(st, descs, d, m, m', c', e, FreeChain(descs, e, st.free[e]));
    }
  }

  lemma ChainInsert(descs: nat, d: Desc, blocks: seq<nat>, p: nat, b: nat)
    requires p <= |blocks|
    ensures var c := FreeChain(descs, d, blocks);
      FreeChain(descs, d, blocks[..p] + [b] + blocks[p..]) == c[..p + 1] + [b] + c[p + 1..]
  {
    var c := FreeChain(descs, d, blocks);
    assert c[..p + 1] == [ListHead(descs, d)] + blocks[..p] && c[p + 1..] == blocks[p..] + [ListTail(descs, d)];
  }

  lemma ChainRemove(descs: nat, d: Desc, blocks: seq<nat>, p: nat)
    requires p < |blocks|
    ensures var c := FreeChain(descs, d, blocks);
      c[p + 1] == blocks[p] && FreeChain(descs, d, blocks[..p] + blocks[p + 1..]) == c[..p + 1] + c[p + 2..]
  {
    var c := FreeChain(descs, d, blocks);
    assert c[..p + 1] == [ListHead(descs, d)] + blocks[..p] && c[p + 2..] == blocks[p + 1..] + [ListTail(descs, d)];
  }

  /** `list_insert` of a block that is not live, at position `p` of its list. */
  lemma HalfInsert(st: Store, descs: nat, d: Desc, m: Mem, blocks: seq<nat>, p: nat, b: nat, before: nat)
    requires Arenas(st.arenas) && LiveBlocks(st) && FreeLists(st) && Located(descs, st.arenas)
    requires Half(m, descs, st, d, blocks) && Blocks(st, d, blocks) && p <= |blocks|
    requires IsSmall(st.arenas, d, b) && b !in st.live && b !in blocks
    requires before == FreeChain(descs, d, blocks)[p + 1]
    ensures before < WORD_LIMIT && b < WORD_LIMIT
    ensures var blocks' := blocks[..p] + [b] + blocks[p..];
      && Blocks(st, d, blocks')
      && Half(InsertLinks(m, before, b), descs, st, d, blocks') && LiveSame(m, InsertLinks(m, before, b), st)
  {
    hide Arenas, LiveBlocks, IsSmall, Located, Table, Headers, OnlyNodes, LiveSame, InsertLinks, MemList.Linked;
    var c, blocks' := FreeChain(descs, d, blocks), blocks[..p] + [b] + blocks[p..];
    ChainNodes(st, descs, d, blocks);
    SmallIsAbove(st, descs, d, b);
    assert b !in c;
    BlockApartFromList(st, descs, d, b, c);
    ChainInsert(descs, d, blocks, p, b);
    MemInsert(m, c, p + 1, b, FreeChain(descs, d, blocks'));
    HalfWrite(st, descs, d, m, InsertLinks(m, before, b), blocks, blocks');
  }

  /** `list_remove` of the block at position `p`. */
  lemma HalfRemove(st: Store, descs: nat, d: Desc, m: Mem, blocks: seq<nat>, p: nat)
    requires Arenas(st.arenas) && LiveBlocks(st) && FreeLists(st) && Located(descs, st.arenas)
    requires Half(m, descs, st, d, blocks) && Blocks(st, d, blocks) && p < |blocks|
    ensures var blocks' := blocks[..p] + blocks[p + 1..];
      && Blocks(st, d, blocks')
      && Half(RemoveLinks(m, blocks[p]), descs, st, d, blocks') && LiveSame(m, RemoveLinks(m, blocks[p]), st)
  {
    hide Arenas, LiveBlocks, IsSmall, Located, Table, Headers, OnlyNodes, LiveSame, RemoveLinks, MemLinked;
    var c, blocks' := FreeChain(descs, d, blocks), blocks[..p] + blocks[p + 1..];
    ChainRemove(descs, d, blocks, p);
    MemRemove(m, c, p + 1, FreeChain(descs, d, blocks'));
    HalfWrite(st, descs, d, m, RemoveLinks(m, blocks[p]), blocks, blocks');
  }

  /** What the list reads as: its first block, or the tail if it is empty. */
  lemma FirstInMemory(m: Mem, descs: nat, d: Desc, blocks: seq<nat>)
    requires MemLinked(m, FreeChain(descs, d, blocks))
    ensures Load(m, ListHead(descs, d) + 4) == (if blocks == [] then ListTail(descs, d) else blocks[0])
    ensures blocks != [] ==> blocks[0] != ListTail(descs, d)
  {
    hide Load;
    var c := FreeChain(descs, d, blocks);
    assert MemList.Linked(m, c, 0);
    if blocks != [] {
      assert c[1] == blocks[0] && c[|c| - 1] == ListTail(descs, d);
    }
  }

  // ----- the steps of the allocator -----

  lemma LiveSameTrans(m: Mem, m1: Mem, m2: Mem, st: Store)
    requires LiveSame(m, m1, st) && LiveSame(m1, m2, st)
    ensures LiveSame(m, m2, st)
  {
    hide RoundDown, Usable;
  }

  /** The blocks that stay live keep their size. */
  ghost predicate KeepsSizes(st: Store, st': Store) {
    forall b :: b in st.live && b in st'.live && RoundDown(b) in st.arenas ==>
      RoundDown(b) in st'.arenas && Usable(st'.arenas[RoundDown(b)]) == Usable(st.arenas[RoundDown(b)])
  }

  lemma LiveSameSub(m: Mem, m': Mem, st: Store, st': Store)
    requires LiveSame(m, m', st') && KeepsSizes(st, st') && forall b :: b in st.live ==> b in st'.live
    ensures LiveSame(m, m', st)
  {
    hide RoundDown, Usable;
  }

  lemma SameExtents(descs: nat, arenas: map<nat, Arena>, a: nat, n: nat)
    requires Located(descs, arenas) && a in arenas && arenas[a].Small?
    ensures Located(descs, arenas[a := Small(arenas[a].desc, n)])
    ensures Spot(descs, arenas[a := Small(arenas[a].desc, n)], a) <==> a % PGSIZE == 0
  {
    assert InRange(descs, a, 1);
  }

  /** A list has changed; the store of the new count completes the step. */
  lemma CountStep(st: Store, st': Store, descs: nat, d: Desc, blocks: seq<nat>, m: Mem, a: nat, n: nat)
    requires Half(m, descs, st, d, blocks) && Located(descs, st.arenas) && n < WORD_LIMIT
    requires a in st.arenas && st.arenas[a].Small? && st.arenas[a].desc == d
    requires st'.arenas == st.arenas[a := Small(d, n)] && st'.free == st.free[d := blocks] && Inv(st')
    ensures Mirrors(StoreWord(m, a + 8, n), descs, st') && LiveSame(m, StoreWord(m, a + 8, n), st')
  {
    hide LiveSame, MemLinked, Table, Header, RoundDown, IsSmall, StoreWord, Sized, Counted, LiveBlocks, Apart;
    var m' := StoreWord(m, a + 8, n);
    assert Header(m, descs, a, st.arenas[a]);
    CountStored(m, descs, a, st.arenas[a], n);
    assert ArenaOk(a, st'.arenas[a]);
    SameExtents(descs, st.arenas, a, n);
    HeaderWriteKeeps(st', descs, m, m', a);
    forall e: Desc ensures MemLinked(m, FreeChain(descs, e, st'.free[e])) {
    }
    forall a' | a' in st'.arenas ensures Header(m', descs, a', st'.arenas[a']) {
      if a' != a {
        assert Header(m, descs, a', st.arenas[a']);
      }
    }
  }

  lemma FreeBlocks(st: Store, d: Desc)
    requires FreeLists(st)
    ensures Blocks(st, d, st.free[d])
  {
    hide IsSmall;
  }

  lemma TakenKeeps(st: Store, d: Desc, a: nat, b: nat, size: nat)
    requires a in st.arenas && st.arenas[a].Small? && st.arenas[a].desc == d && st.arenas[a].freeCnt > 0
    requires |st.free| == DESC_CNT && st.free[d] != []
    ensures KeepsSizes(st, Taken(st, a, b, size))
    ensures forall c :: c in st.live ==> c in Taken(st, a, b, size).live
  {
    hide RoundDown;
  }

  lemma TakeLink(st: Store, descs: nat, d: Desc, m: Mem)
    requires Inv(st) && Located(descs, st.arenas) && Mirrors(m, descs, st) && st.free[d] != []
    ensures Half(RemoveLinks(m, st.free[d][0]), descs, st, d, st.free[d][1..])
    ensures LiveSame(m, RemoveLinks(m, st.free[d][0]), st)
  {
    hide LiveSame, Half, Arenas, IsSmall, Sized, Counted, LiveBlocks, RemoveLinks, Located, Mirrors, Blocks;
    var blocks := st.free[d];
    HalfIsMirror(m, descs, st, d);
    FreeBlocks(st, d);
    HalfRemove(st, descs, d, m, blocks, 0);
    assert blocks[..0] + blocks[0 + 1..] == blocks[1..];
  }

  /** The end of `malloc`: the first block leaves the list, the count goes down. */
  lemma TakeMirror(st: Store, descs: nat, d: Desc, a: nat, b: nat, size: nat, m: Mem)
    requires Inv(st) && Located(descs, st.arenas) && Mirrors(m, descs, st)
    requires st.free[d] != [] && b == st.free[d][0] && a == RoundDown(b) && size <= BlockSize(d)
    ensures IsSmall(st.arenas, d, b) && 0 < st.arenas[a].freeCnt < WORD_LIMIT
    ensures Mirrors(StoreWord(RemoveLinks(m, b), a + 8, st.arenas[a].freeCnt - 1), descs, Taken(st, a, b, size))
    ensures LiveSame(m, StoreWord(RemoveLinks(m, b), a + 8, st.arenas[a].freeCnt - 1), st)
  {
    hide LiveSame, Half, Arenas, FreeLists, Sized, Counted, LiveBlocks, StoreWord, RemoveLinks, KeepsSizes, Located,
      RoundDown, IsSlot, BlockSize, Mirrors;
    Take(st, d, a, b, size);
    CountFits(st.arenas, a);
    TakeLink(st, descs, d, m);
    var m1, n := RemoveLinks(m, b), st.arenas[a].freeCnt - 1;
    SizeOfFree(st);
    CountStep(st, Taken(st, a, b, size), descs, d, st.free[d][1..], m1, a, n);
    TakenKeeps(st, d, a, b, size);
    LiveSameSub(m1, StoreWord(m1, a + 8, n), st, Taken(st, a, b, size));
    LiveSameTrans(m, m1, StoreWord(m1, a + 8, n), st);
  }

  lemma SizeOfFree(st: Store)
    requires FreeLists(st)
    ensures |st.free| == DESC_CNT
  {
  }

  lemma CountFits(arenas: map<nat, Arena>, a: nat)
    requires Arenas(arenas) && a in arenas && arenas[a].Small?
    ensures arenas[a].freeCnt < WORD_LIMIT && a % PGSIZE == 0
  {
    assert ArenaOk(a, arenas[a]);
  }

  // ----- filling a region -----

  ghost predicate Outside(x: nat, n: nat, lo: nat, len: nat) { x + n <= lo || lo + len <= x }

  /** A write to a region without bookkeeping keeps the bookkeeping. */
  lemma RegionKeeps(st: Store, descs: nat, lo: nat, len: nat, m: Mem, m': Mem)
    requires FreeLists(st) && OnlyRegion(m, m', lo, len) && Mirrors(m, descs, st)
    requires descs + DESCS_SIZE <= lo
    requires forall a :: a in st.arenas ==> Outside(a, ARENA_SIZE, lo, len)
    requires forall d: Desc, n :: Node(st, descs, d, n) ==> Outside(n, 8, lo, len)
    ensures Mirrors(m', descs, st)
  {
    hide IsSmall, Node, MemLinked, Header, Load;
    TableSame(m, m', descs);
    hide Table;
    forall a | a in st.arenas ensures Header(m', descs, a, st.arenas[a]) {
      assert Outside(a, ARENA_SIZE, lo, len);
      HeaderSame(m, m', descs, a, st.arenas[a]);
    }
    forall d: Desc ensures MemLinked(m', FreeChain(descs, d, st.free[d])) {
      var c := FreeChain(descs, d, st.free[d]);
      FreeNodes(st, descs, d);
      forall i | 0 <= i < |c| ensures c[i] + 8 <= lo || lo + len <= c[i] {
        assert Node(st, descs, d, c[i]);
        assert Outside(c[i], 8, lo, len);
      }
      ListKeptOutside(m, m', lo, len, c);
    }
  }

  function Without(st: Store, b: nat): Store { st.(live := st.live - {b}) }

  /** The fill of a live block. */
  lemma BlockFillKeeps(st: Store, descs: nat, b: nat, m: Mem, m': Mem)
    requires Inv(st) && Located(descs, st.arenas) && Mirrors(m, descs, st) && b in st.live
    requires RoundDown(b) in st.arenas && Usable(st.arenas[RoundDown(b)]) >= 0
    requires OnlyRegion(m, m', b, Usable(st.arenas[RoundDown(b)]))
    ensures Mirrors(m', descs, st) && LiveSame(m, m', Without(st, b))
  {
    hide Mirrors, RoundDown, IsSmall, Node, FreeLists, Arenas, LiveBlocks, Located, Counted, Sized;
    var len := Usable(st.arenas[RoundDown(b)]);
    LiveIsAbove(st, descs, b);
    forall a | a in st.arenas ensures Outside(a, ARENA_SIZE, b, len) {
      ArenaIsSpot(descs, st.arenas, a);
      LiveVsSpot(st, descs, a, b);
    }
    forall d: Desc, n | Node(st, descs, d, n) ensures Outside(n, 8, b, len) {
      NodeVsLive(st, descs, d, n, b);
    }
    RegionKeeps(st, descs, b, len, m, m');
    forall c | c in st.live && c != b && RoundDown(c) in st.arenas && Usable(st.arenas[RoundDown(c)]) >= 0
      ensures SameBytes(m, m', c, Usable(st.arenas[RoundDown(c)]))
    {
      LiveApart(st, b, c);
    }
  }

  lemma LiveApart(st: Store, b: nat, c: nat)
    requires Arenas(st.arenas) && LiveBlocks(st) && b in st.live && c in st.live && b != c
    ensures b + Usable(st.arenas[RoundDown(b)]) <= c || c + Usable(st.arenas[RoundDown(c)]) <= b
  {
    BlocksDisjoint(st.arenas, b, c);
  }

  lemma LiveIsAbove(st: Store, descs: nat, b: nat)
    requires Arenas(st.arenas) && LiveBlocks(st) && Located(descs, st.arenas) && b in st.live
    ensures RoundDown(b) in st.arenas && descs + DESCS_SIZE <= b && Usable(st.arenas[RoundDown(b)]) >= 16
    ensures b + Usable(st.arenas[RoundDown(b)]) <= WORD_LIMIT
  {
    assert IsBlock(st.arenas, b);
    BlockAligned(st.arenas, b);
    assert InRange(descs, RoundDown(b), Extent(st.arenas[RoundDown(b)]));
    assert ArenaOk(RoundDown(b), st.arenas[RoundDown(b)]);
  }

  lemma ArenaIsSpot(descs: nat, arenas: map<nat, Arena>, a: nat)
    requires Arenas(arenas) && Located(descs, arenas) && a in arenas
    ensures Spot(descs, arenas, a)
  {
    assert ArenaOk(a, arenas[a]) && InRange(descs, a, Extent(arenas[a]));
  }

  /** The fill of pages that hold no arena. */
  lemma PageFillKeeps(st: Store, descs: nat, a: nat, n: nat, m: Mem, m': Mem)
    requires Inv(st) && Located(descs, st.arenas) && Mirrors(m, descs, st)
    requires Room(st.arenas, a, n) && descs + DESCS_SIZE <= a && OnlyRegion(m, m', a, PGSIZE * n)
    ensures Mirrors(m', descs, st) && LiveSame(m, m', st)
  {
    hide Mirrors, RoundDown, IsSmall, Node, FreeLists, Arenas, LiveBlocks, Located, Counted, Sized;
    forall a' | a' in st.arenas ensures Outside(a', ARENA_SIZE, a, PGSIZE * n) {
      assert Apart(a, n, a', Extent(st.arenas[a']));
      ArenaHasPage(st.arenas, a');
    }
    forall d: Desc, b | Node(st, descs, d, b) ensures Outside(b, 8, a, PGSIZE * n) {
      NodeVsPages(st, descs, d, b, a, n);
    }
    RegionKeeps(st, descs, a, PGSIZE * n, m, m');
    forall b | b in st.live && RoundDown(b) in st.arenas && Usable(st.arenas[RoundDown(b)]) >= 0
      ensures SameBytes(m, m', b, Usable(st.arenas[RoundDown(b)]))
    {
      LiveVsPages(st, b, a, n);
    }
  }

  lemma NodeVsPages(st: Store, descs: nat, d: Desc, b: nat, a: nat, n: nat)
    requires Arenas(st.arenas) && Node(st, descs, d, b) && Room(st.arenas, a, n) && descs + DESCS_SIZE <= a
    ensures Outside(b, 8, a, PGSIZE * n)
  {
    if b != ListHead(descs, d) && b != ListTail(descs, d) {
      NodeInArena(st, d, b);
      assert Apart(a, n, RoundDown(b), Extent(st.arenas[RoundDown(b)]));
    }
  }

  lemma LiveVsPages(st: Store, b: nat, a: nat, n: nat)
    requires Arenas(st.arenas) && LiveBlocks(st) && b in st.live && Room(st.arenas, a, n)
    ensures b + Usable(st.arenas[RoundDown(b)]) <= a || a + PGSIZE * n <= b
  {
    assert IsBlock(st.arenas, b);
    BlockAligned(st.arenas, b);
    assert Apart(a, n, RoundDown(b), Extent(st.arenas[RoundDown(b)]));
  }

  // ----- putting a block back -----

  /** The block is on its list again, its arena does not count it yet. */
  ghost function Listed(st: Store, d: Desc, b: nat): Store
    requires d < |st.free|
  {
    Store(st.arenas, st.free[d := [b] + st.free[d]], st.live - {b})
  }

  lemma ListedLists(st: Store, d: Desc, a: nat, b: nat)
    requires FreeLists(st) && LiveBlocks(st) && b in st.live && IsSmall(st.arenas, d, b) && a == RoundDown(b)
    ensures FreeLists(Listed(st, d, b)) && LiveBlocks(Listed(st, d, b))
    ensures KeepsSizes(PutBack(st, a, b), Listed(st, d, b))
  {
    hide RoundDown, IsSlot;
    PutLists(st, d, a, b);
    var st', st1 := PutBack(st, a, b), Listed(st, d, b);
    forall e: Desc, c: nat ensures c in st1.free[e] <==> IsSmall(st1.arenas, e, c) && c !in st1.live {
      assert IsSmall(st'.arenas, e, c) <==> IsSmall(st.arenas, e, c);
    }
    SameBlocks(st, st1);
  }

  lemma PutLink(st: Store, descs: nat, d: Desc, b: nat, m: Mem)
    requires Inv(st) && Located(descs, st.arenas) && Mirrors(m, descs, st) && b in st.live && IsSmall(st.arenas, d, b)
    ensures var first := Load(m, ListHead(descs, d) + 4); var st1 := Listed(st, d, b);
      && b < WORD_LIMIT
      && Half(InsertLinks(m, first, b), descs, st1, d, [b] + st.free[d])
      && LiveSame(m, InsertLinks(m, first, b), st1)
  {
    hide LiveSame, Sized, Counted, RoundDown, IsSlot, InsertLinks, MemLinked, Load, Table, Headers, Located, Arenas;
    var st1, blocks, first := Listed(st, d, b), st.free[d], Load(m, ListHead(descs, d) + 4);
    ListedLists(st, d, RoundDown(b), b);
    FirstInMemory(m, descs, d, blocks);
    FreeBlocks(st, d);
    assert Half(m, descs, st1, d, blocks);
    assert first == FreeChain(descs, d, blocks)[1];
    HalfInsert(st1, descs, d, m, blocks, 0, b, first);
    assert blocks[..0] + [b] + blocks[0..] == [b] + blocks;
  }

  /** `free` of a small block: it joins the front of the list, the count goes up. */
  lemma PutMirror(st: Store, descs: nat, d: Desc, a: nat, b: nat, m: Mem)
    requires Inv(st) && Located(descs, st.arenas) && Mirrors(m, descs, st)
    requires b in st.live && IsSmall(st.arenas, d, b) && a == RoundDown(b) && st.arenas[a].freeCnt < PerArena(d)
    ensures b < WORD_LIMIT && st.arenas[a].freeCnt + 1 < WORD_LIMIT
    ensures var m' := StoreWord(InsertLinks(m, Load(m, ListHead(descs, d) + 4), b), a + 8, st.arenas[a].freeCnt + 1);
      Mirrors(m', descs, PutBack(st, a, b)) && LiveSame(m, m', PutBack(st, a, b))
  {
    hide LiveSame, Half, Arenas, Sized, Counted, LiveBlocks, StoreWord, InsertLinks, KeepsSizes, Located,
      RoundDown, IsSlot, Mirrors, Load;
    PutLink(st, descs, d, b, m);
    Put(st, d, a, b);
    ListedLists(st, d, a, b);
    PerArenaSmall(d);
    var m1, n := InsertLinks(m, Load(m, ListHead(descs, d) + 4), b), st.arenas[a].freeCnt + 1;
    var st1, st' := Listed(st, d, b), PutBack(st, a, b);
    CountStep(st1, st', descs, d, [b] + st.free[d], m1, a, n);
    LiveSameSub(m, m1, st', st1);
    LiveSameTrans(m, m1, StoreWord(m1, a + 8, n), st');
  }

  lemma PerArenaSmall(d: Desc)
    ensures PerArena(d) < 0x1000
  {
  }

  // ----- a new arena -----

  /** The header of a new arena is written; its list is still empty. */
  lemma ArenaHeader(st: Store, descs: nat, a: nat, d: Desc, m: Mem)
    requires Inv(st) && Located(descs, st.arenas) && Mirrors(m, descs, st) && st.free[d] == []
    requires Room(st.arenas, a, 1) && InRange(descs, a, 1)
    ensures DescAddr(descs, d) < WORD_LIMIT && PerArena(d) < WORD_LIMIT
    ensures var m', st' := StoreHeader(m, a, DescAddr(descs, d), PerArena(d)), WithArena(st, a, d);
      Half(m', descs, st', d, []) && LiveSame(m, m', st') && Located(descs, st'.arenas)
  {
    hide Sized, Counted, RoundDown, MemLinked, Table, Header, StoreHeader, Slots, Usable, Apart;
    PerArenaSmall(d);
    var m', st', x := StoreHeader(m, a, DescAddr(descs, d), PerArena(d)), WithArena(st, a, d), Small(d, PerArena(d));
    HeaderStored(m, descs, a, x);
    HeaderWriteKeeps(st, descs, m, m', a);
    forall a' | a' in st'.arenas ensures Header(m', descs, a', st'.arenas[a']) {
      if a' != a {
        assert Header(m, descs, a', st.arenas[a']);
      }
    }
    forall b | b in st'.live && RoundDown(b) in st'.arenas && Usable(st'.arenas[RoundDown(b)]) >= 0
      ensures SameBytes(m, m', b, Usable(st'.arenas[RoundDown(b)]))
    {
      assert IsBlock(st.arenas, b);
    }
  }

  /** One round of the loop that fills the list. */
  lemma SlotPush(st: Store, descs: nat, a: nat, d: Desc, i: nat, m: Mem)
    requires Inv(st) && Located(descs, st.arenas) && i < PerArena(d)
    requires a in st.arenas && st.arenas[a].Small? && st.arenas[a].desc == d && st.free[d] == Slots(a, d)
    requires Half(m, descs, st, d, Slots(a, d)[..i])
    ensures ListTail(descs, d) < WORD_LIMIT && Slot(a, d, i) < WORD_LIMIT
    ensures var m' := InsertLinks(m, ListTail(descs, d), Slot(a, d, i));
      Half(m', descs, st, d, Slots(a, d)[..i + 1]) && LiveSame(m, m', st)
  {
    hide Sized, Counted, RoundDown, IsSmall, MemLinked, Table, Headers, InsertLinks, Half, Located, Arenas, LiveSame;
    hide LiveBlocks;
    var slots := Slots(a, d);
    var blocks, b := slots[..i], slots[i];
    FreeBlocks(st, d);
    assert b in slots;
    SlotsDistinct(a, d);
    assert slots[..i + 1] == blocks[..i] + [b] + blocks[i..];
    HalfInsert(st, descs, d, m, blocks, i, b, FreeChain(descs, d, blocks)[i + 1]);
  }

  // ----- a big block -----

  lemma BigHeader(st: Store, descs: nat, a: nat, n: nat, size: nat, m: Mem)
    requires Inv(st) && Located(descs, st.arenas) && Mirrors(m, descs, st)
    requires n > 0 && Room(st.arenas, a, n) && InRange(descs, a, n)
    ensures n < WORD_LIMIT
    ensures var m', st' := StoreHeader(m, a, 0, n), WithBig(st, a, n, size);
      Mirrors(m', descs, st') && LiveSame(m, m', st) && Located(descs, st'.arenas)
  {
    hide Sized, Counted, RoundDown, MemLinked, Table, Header, StoreHeader, Usable, LiveSame;
    var m', st' := StoreHeader(m, a, 0, n), WithBig(st, a, n, size);
    RoomForOne(st.arenas, a, n);
    HeaderStored(m, descs, a, Big(n));
    HeaderWriteKeeps(st, descs, m, m', a);
    hide Apart;
    forall a' | a' in st'.arenas ensures Header(m', descs, a', st'.arenas[a']) {
      if a' != a {
        assert Header(m, descs, a', st.arenas[a']);
      }
    }
  }

  lemma RoomForOne(arenas: map<nat, Arena>, a: nat, n: nat)
    requires Room(arenas, a, n) && n > 0
    ensures Room(arenas, a, 1)
  {
    forall a' | a' in arenas ensures Apart(a, 1, a', Extent(arenas[a'])) {
      assert Apart(a, n, a', Extent(arenas[a']));
    }
  }

  // ----- the descriptor table -----

  /** A descriptor of `malloc_init`, with the `list_init` of its free list. */
  function InitDesc(m: Mem, desc: nat, size: nat): Mem
    requires 0 < size < WORD_LIMIT && desc + DESC_SIZE <= WORD_LIMIT
  {
    QuotientSmall(size);
    var m1 := StoreWord(StoreWord(m, desc, size), desc + 4, (PGSIZE - ARENA_SIZE) / size);
    StoreWord(StoreWord(StoreWord(StoreWord(m1, desc + 8, 0), desc + 12, desc + 16), desc + 16, desc + 8), desc + 20, 0)
  }

  lemma QuotientSmall(size: nat)
    requires size > 0
    ensures 0 <= (PGSIZE - ARENA_SIZE) / size < WORD_LIMIT
  {
    var x := PGSIZE - ARENA_SIZE;
    QuotientBound(x, size, x / size, x % size);
  }

  lemma Multiples(k: int, s: int)
    requires s > 0
    ensures k >= 1 ==> k * s >= s
    ensures k <= -1 ==> k * s < 0
  {
  }

  lemma QuotientBound(x: nat, s: nat, q: int, r: nat)
    requires s > 0 && x == q * s + r && r < s
    ensures 0 <= q <= x
  {
    Multiples(q, s);
    Multiples(s, if q > 0 then q else 1);
  }

  ghost predicate Entry(m: Mem, descs: nat, d: Desc) {
    && Load(m, DescAddr(descs, d)) == BlockSize(d) && Load(m, DescAddr(descs, d) + 4) == PerArena(d)
    && MemLinked(m, FreeChain(descs, d, []))
  }

  lemma InitRegion(m: Mem, desc: nat, size: nat)
    requires 0 < size < WORD_LIMIT && desc + DESC_SIZE <= WORD_LIMIT
    ensures OnlyRegion(m, InitDesc(m, desc, size), desc, DESC_SIZE)
  {
  }

  lemma InitWords(m: Mem, desc: nat, size: nat)
    requires 0 < size < WORD_LIMIT && desc + DESC_SIZE <= WORD_LIMIT
    ensures var m' := InitDesc(m, desc, size);
      && Load(m', desc) == size && Load(m', desc + 4) == (PGSIZE - ARENA_SIZE) / size
      && Load(m', desc + 12) == desc + 16 && Load(m', desc + 16) == desc + 8
  {
    hide Load, StoreWord;
    QuotientSmall(size);
    var q := (PGSIZE - ARENA_SIZE) / size;
    var m1 := StoreWord(m, desc, size);
    var m2 := StoreWord(m1, desc + 4, q);
    var m3 := StoreWord(m2, desc + 8, 0);
    var m4 := StoreWord(m3, desc + 12, desc + 16);
    var m5 := StoreWord(m4, desc + 16, desc + 8);
    forall x: nat | x == desc || x == desc + 4 || x == desc + 12 || x == desc + 16
      ensures Load(InitDesc(m, desc, size), x) ==
        if x == desc then size else if x == desc + 4 then q else if x == desc + 12 then desc + 16 else desc + 8
    {
      ReadBack(m, desc, size, x);
      ReadBack(m1, desc + 4, q, x);
      ReadBack(m2, desc + 8, 0, x);
      ReadBack(m3, desc + 12, desc + 16, x);
      ReadBack(m4, desc + 16, desc + 8, x);
      ReadBack(m5, desc + 20, 0, x);
    }
  }

  lemma InitEntry(m: Mem, descs: nat, d: Desc)
    requires descs + DESCS_SIZE <= WORD_LIMIT
    ensures BlockSize(d) < WORD_LIMIT
    ensures Entry(InitDesc(m, DescAddr(descs, d), BlockSize(d)), descs, d)
  {
    var m' := InitDesc(m, DescAddr(descs, d), BlockSize(d));
    InitWords(m, DescAddr(descs, d), BlockSize(d));
    hide Load, InitDesc;
    assert MemList.Linked(m', FreeChain(descs, d, []), 0);
  }

  lemma EntryKept(m: Mem, m': Mem, descs: nat, d: Desc, e: Desc)
    requires Entry(m, descs, d) && d != e && OnlyRegion(m, m', DescAddr(descs, e), DESC_SIZE)
    ensures Entry(m', descs, d)
  {
    hide Load, MemLinked, OnlyRegion;
    RegionLoad(m, m', DescAddr(descs, e), DESC_SIZE, DescAddr(descs, d));
    ListKeptOutside(m, m', DescAddr(descs, e), DESC_SIZE, FreeChain(descs, d, []));
  }

  /** Before the first request. */
  lemma EmptyHeap(m: Mem, descs: nat, free: seq<seq<nat>>)
    requires (forall d: Desc :: Entry(m, descs, d)) && |free| == DESC_CNT && forall d: Desc :: free[d] == []
    ensures Mirrors(m, descs, Store(map[], free, map[]))
  {
    hide Load, MemLinked, BlockSize, PerArena;
    forall d: Desc
      ensures Load(m, DescAddr(descs, d)) == BlockSize(d) && Load(m, DescAddr(descs, d) + 4) == PerArena(d)
      ensures MemLinked(m, FreeChain(descs, d, free[d]))
    {
      assert Entry(m, descs, d) && free[d] == [];
    }
  }
}
