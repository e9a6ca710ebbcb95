/** The page allocator of threads/palloc.c over a bitmap: first, next and best fit, two
    pools, and which page is held by which grant. */
module PageAllocator {
  import opened Basics
  import opened B = Bitmap

  const PGSIZE: nat := 4096
  const SIZE_MAX: nat := 0xFFFF_FFFF

  // ----- holes -----

  /** A maximal run of free pages. */
  predicate Hole(b: seq<bool>, i: nat, len: nat) {
    && len > 0
    && Run(b, i, len, false)
    && (i == 0 || b[i - 1])
    && (i + len == |b| || b[i + len])
  }

  /** Two holes that share a page are the same. */
  lemma HoleUnique(b: seq<bool>, i: nat, m: nat, j: nat, n: nat, p: nat)
    requires Hole(b, i, m) && Hole(b, j, n) && i <= p < i + m && j <= p < j + n
    ensures i == j && m == n
  {
  }

  /** Every run of free pages lies in a hole. */
  lemma RunInHole(b: seq<bool>, i: nat, cnt: nat) returns (s: nat, len: nat)
    requires cnt > 0 && Run(b, i, cnt, false)
    ensures Hole(b, s, len) && s <= i && i + cnt <= s + len
  {
    s, len := i, cnt;
    while s > 0 && !b[s - 1]
      invariant s <= i && s + len == i + cnt && Run(b, s, len, false)
    {
      s, len := s - 1, len + 1;
    }
    while s + len < |b| && !b[s + len]
      invariant s <= i && i + cnt <= s + len && Run(b, s, len, false) && (s == 0 || b[s - 1])
      decreases |b| - (s + len)
    {
      len := len + 1;
    }
  }

  /** The lowest fit at or after `start`. */
  ghost predicate LowestFrom(b: seq<bool>, start: nat, cnt: nat, r: Option<nat>) {
    && (r.Some? ==> start <= r.value && Run(b, r.value, cnt, false))
    && (forall i :: start <= i && (r.Some? ==> i < r.value) ==> !Run(b, i, cnt, false))
  }

  /** The leftmost of the shortest holes with at least `cnt` pages. */
  ghost predicate IsBestFit(b: seq<bool>, cnt: nat, r: Option<nat>, len: nat) {
    && (r.Some? ==> Hole(b, r.value, len) && cnt <= len)
    && (forall s: nat, n: nat :: Hole(b, s, n) && cnt <= n ==>
          r.Some? && (len < n || (len == n && r.value <= s)))
  }

  /** First fit and best fit fail together, exactly when there is no room anywhere. */
  lemma FailTogether(b: seq<bool>, cnt: nat, first: Option<nat>, best: Option<nat>, len: nat)
    requires cnt > 0 && LowestFrom(b, 0, cnt, first) && IsBestFit(b, cnt, best, len)
    ensures first.None? <==> best.None?
    ensures first.None? <==> forall i: nat :: !Run(b, i, cnt, false)
  {
    if first.Some? {
      var s, n := RunInHole(b, first.value, cnt);
      assert Hole(b, s, n) && cnt <= n;
    }
    if best.Some? {
      assert Run(b, best.value, cnt, false);
    }
  }

  // ----- one pool -----

  /** What the search so far says about the holes before `idx`. */
  ghost predicate BestBefore(b: seq<bool>, cnt: nat, idx: nat, best: Option<nat>, size: nat) {
    && (best.Some? ==> Hole(b, best.value, size) && cnt <= size && best.value < idx)
    && (forall s: nat, n: nat :: Hole(b, s, n) && s < idx && cnt <= n ==>
          best.Some? && (size < n || (size == n && best.value <= s)))
  }

  lemma BestDone(b: seq<bool>, cnt: nat, idx: nat, best: Option<nat>, size: nat)
    requires BestBefore(b, cnt, idx, best, size)
    requires (best.Some? && size == cnt) || forall s: nat, n: nat :: Hole(b, s, n) ==> s < idx
    ensures IsBestFit(b, cnt, best, size)
  {
  }

  /** One more hole looked at. */
  lemma BestStep(b: seq<bool>, cnt: nat, idx: nat, best: Option<nat>, size: nat, start: nat, n: nat,
                 best': Option<nat>, size': nat)
    requires BestBefore(b, cnt, idx, best, size) && Hole(b, start, n) && idx <= start
    requires forall k :: idx <= k < start ==> b[k]
    requires if cnt <= n && (best.None? || n < size) then best' == Some(start) && size' == n
             else best' == best && size' == size
    ensures BestBefore(b, cnt, start + n, best', size')
  {
    forall s: nat, m: nat | Hole(b, s, m) && s < start + n && cnt <= m
      ensures best'.Some? && (size' < m || (size' == m && best'.value <= s))
    {
      assert !b[s];
      if idx <= s {
        HoleUnique(b, s, m, start, n, s);
      }
    }
  }

  datatype Mode = FirstFit | NextFit | BestFit | Buddy

  /** Which free run a request for `cnt` pages gets under each policy. */
  ghost predicate Chosen(mode: Mode, b: seq<bool>, cursor: nat, cnt: nat, r: Option<nat>) {
    match mode
    case NextFit =>
      LowestFrom(b, cursor, cnt, r) || (LowestFrom(b, cursor, cnt, None) && LowestFrom(b, 0, cnt, r))
    case BestFit => exists len: nat :: IsBestFit(b, cnt, r, len)
    case _ => LowestFrom(b, 0, cnt, r)
  }

  predicate Within(k: nat, i: nat, cnt: nat) { i <= k < i + cnt }

  ghost function Range(i: nat, cnt: nat): set<nat> { set k: nat | k < i + cnt && Within(k, i, cnt) }

  /** Next fit goes on behind the pages it granted, from the start at the end of the pool. */
  function CursorAfter(mode: Mode, cursor: nat, pages: nat, r: Option<nat>, cnt: nat): nat {
    if mode != NextFit || r.None? then cursor
    else if r.value + cnt >= pages then 0
    else r.value + cnt
  }

  class Pool {
    const used: Bitmap
    const base: nat
    var cursor: nat               // next_fit_start_idx
    ghost var held: map<nat, nat> // page index to the number of its grant

    ghost predicate Valid()
      reads this, used, used.bits
    {
      && used.Valid()
      && used.bitCnt < SIZE_MAX
      && (cursor == 0 || cursor < used.bitCnt)
    }

    constructor (base: nat, pages: nat)
      requires pages < SIZE_MAX
      ensures Holding() && this.base == base && used.bitCnt == pages && cursor == 0 && held == map[]
      ensures fresh(used) && fresh(used.bits) && used.Bits() == seq(pages, _ => false)
    {
      used := new Bitmap(pages);
      this.base := base;
      cursor := 0;
      held := map[];
    }

    /** The set bits are exactly the held pages. */
    ghost predicate Holding()
      reads this, used, used.bits
    {
      && Valid()
      && (forall i :: i in held ==> i < used.bitCnt)
      && (forall i: nat :: i < used.bitCnt ==> (used.Bits()[i] <==> i in held))
    }

    /** `find_first_fit`. */
    method FindFirstFit(cnt: nat) returns (r: Option<nat>)
      requires Valid()
      modifies used.bits
      ensures Valid() && LowestFrom(old(used.Bits()), 0, cnt, r)
      ensures used.Bits() == if r.Some? then Filled(old(used.Bits()), r.value, cnt, true) else old(used.Bits())
    {
      r := used.ScanAndFlip(0, cnt, false);
    }

    /** `find_next_fit`: the lowest fit from the cursor on, else the lowest of all; the
        cursor moves behind the grant, or to 0 at the end of the pool. */
    method FindNextFit(cnt: nat) returns (r: Option<nat>)
      requires Valid()
      modifies this`cursor, used.bits
      ensures Valid()
      ensures LowestFrom(old(used.Bits()), old(cursor), cnt, r)
        || (LowestFrom(old(used.Bits()), old(cursor), cnt, None) && LowestFrom(old(used.Bits()), 0, cnt, r))
      ensures r.None? ==> forall i: nat :: !Run(old(used.Bits()), i, cnt, false)
      ensures used.Bits() == if r.Some? then Filled(old(used.Bits()), r.value, cnt, true) else old(used.Bits())
      ensures cursor == if r.None? then old(cursor) else if r.value + cnt < used.bitCnt then r.value + cnt else 0
    {
      ghost var b := used.Bits();
      r := used.Scan(cursor, cnt, false);
      assert used.Bits() == b;
      if r.None? {
        r := used.Scan(0, cnt, false);
        assert used.Bits() == b;
      }
      if r.Some? {
        used.SetMultiple(r.value, cnt, true);
        cursor := if r.value + cnt >= used.bitCnt then 0 else r.value + cnt;
      }
    }

    /** The inner loop of `find_best_fit`. */
    method HoleLength(start: nat) returns (n: nat)
      requires Valid() && start < used.bitCnt && !used.Bits()[start]
      requires start == 0 || used.Bits()[start - 1]
      ensures Hole(used.Bits(), start, n)
    {
      n := 0;
      var i := start;
      while i < used.bitCnt
        invariant i == start + n <= used.bitCnt && Run(used.Bits(), start, n, false)
      {
        var taken := used.Test(i);
        if taken {
          break;
        }
        n, i := n + 1, i + 1;
      }
    }

    /** The first hole at or after `idx`. */
    method NextHole(idx: nat) returns (free: Option<nat>, n: nat)
      requires Valid() && idx < used.bitCnt && (idx > 0 ==> used.Bits()[idx])
      ensures free.None? ==> forall s: nat, m: nat :: Hole(used.Bits(), s, m) ==> s < idx
      ensures free.Some? ==> idx <= free.value && Hole(used.Bits(), free.value, n)
      ensures free.Some? ==> forall k :: idx <= k < free.value ==> used.Bits()[k]
    {
      n := 0;
      free := used.Scan(idx, 1, false);
      assert LowestFrom(used.Bits(), idx, 1, free);
      if free.None? {
        NoMoreHoles(used.Bits(), idx);
      } else {
        LowestIsBoundary(used.Bits(), idx, free.value);
        n := HoleLength(free.value);
      }
    }

    /** The search loop of `find_best_fit`. */
    method SearchBest(cnt: nat) returns (r: Option<nat>, ghost len: nat)
      requires Valid() && cnt > 0
      ensures IsBestFit(used.Bits(), cnt, r, len)
    {
      ghost var b := used.Bits();
      r := None;
      var size: nat := SIZE_MAX;
      var idx: nat := 0;
      while idx < used.bitCnt
        invariant idx <= used.bitCnt
        invariant BestBefore(b, cnt, idx, r, size) && (r.None? ==> size == SIZE_MAX)
        invariant 0 < idx < used.bitCnt ==> b[idx]
      {
        var free, n := NextHole(idx);
        if free.None? {
          break;
        }
        ghost var r', size' := r, size;
        if n >= cnt && n < size {
          r, size := Some(free.value), n;
        }
        BestStep(b, cnt, idx, r', size', free.value, n, r, size);
        idx := free.value + n;
        if r == Some(free.value) && n == cnt {
          break;
        }
      }
      BestDone(b, cnt, idx, r, size);
      len := size;
    }

    /** `find_best_fit`. */
    method FindBestFit(cnt: nat) returns (r: Option<nat>, ghost len: nat)
      requires Valid() && cnt > 0
      modifies used.bits
      ensures Valid() && IsBestFit(old(used.Bits()), cnt, r, len)
      ensures used.Bits() == if r.Some? then Filled(old(used.Bits()), r.value, cnt, true) else old(used.Bits())
    {
      r, len := SearchBest(cnt);
      if r.Some? {
        used.SetMultiple(r.value, cnt, true);
      }
    }

    /** The search of `palloc_get_multiple` under the current policy. */
    method Choose(mode: Mode, cnt: nat) returns (r: Option<nat>)
      requires Valid() && cnt > 0
      modifies this`cursor, used.bits
      ensures Valid() && Chosen(mode, old(used.Bits()), old(cursor), cnt, r)
      ensures cursor == CursorAfter(mode, old(cursor), used.bitCnt, r, cnt)
      ensures r.None? ==> used.Bits() == old(used.Bits())
      ensures r.None? ==> forall i: nat :: !Run(old(used.Bits()), i, cnt, false)
      ensures r.Some? ==> Run(old(used.Bits()), r.value, cnt, false)
      ensures r.Some? ==> used.Bits() == Filled(old(used.Bits()), r.value, cnt, true)
    {
      ghost var b := used.Bits();
      match mode {
        case NextFit => r := FindNextFit(cnt);
        case BestFit =>
          ghost var len;
          r, len := FindBestFit(cnt);
          BestFailure(b, cnt, r, len);
        case _ => r := FindFirstFit(cnt);
      }
    }

    /** The body of `palloc_get_multiple` under the pool's lock, for grant `g`. */
    method Grant(mode: Mode, cnt: nat, ghost g: nat) returns (r: Option<nat>)
      requires Holding() && cnt > 0
      modifies this, used.bits
      ensures Holding() && Chosen(mode, old(used.Bits()), old(cursor), cnt, r)
      ensures cursor == CursorAfter(mode, old(cursor), used.bitCnt, r, cnt)
      ensures r.None? ==> used.Bits() == old(used.Bits()) && held == old(held)
      ensures r.None? ==> forall i: nat :: !Run(old(used.Bits()), i, cnt, false)
      ensures r.Some? ==> r.value + cnt <= used.bitCnt && Range(r.value, cnt) !! old(held).Keys
      ensures r.Some? ==> held == old(held) + map k | k in Range(r.value, cnt) :: g
    {
      r := Choose(mode, cnt);
      if r.Some? {
        held := held + map k | k in Range(r.value, cnt) :: g;
      }
    }

    ghost predicate GrantedBefore(g: nat)
      reads this
    {
      forall i :: i in held ==> held[i] < g
    }

    ghost function View(): PoolView
      requires Valid()
      reads this, used, used.bits
    {
      PoolView(base, used.Bits(), cursor, held)
    }

    /** Held and free pages make up the pool. */
    lemma Conservation()
      requires Holding()
      ensures |held| + Count(used.Bits(), false) == used.bitCnt
    {
      HeldPlusFree(used.Bits(), held.Keys);
    }

    /** `palloc_get_multiple` on this pool. */
    method Serve(mode: Mode, mustSucceed: bool, cnt: nat, ghost g: nat) returns (r: Answer)
      requires Holding() && PgOfs(base) == 0 && GrantedBefore(g)
      modifies this, used.bits
      ensures Holding() && GrantedBefore(g + 1)
      ensures Served(mode, old(View()), View(), cnt, mustSucceed, g, r)
    {
      hide Chosen, Run, PageAddr, PgNo;
      if cnt == 0 {
        return Null;
      }
      ghost var v := View();
      var idx := Grant(mode, cnt, g);
      if idx.Some? {
        GrantServed(mode, v, View(), idx.value, cnt, mustSucceed, g);
        return Pages(PageAddr(base, idx.value));
      }
      return if mustSucceed then Panic else Null;
    }

    /** The body of `palloc_free_multiple` under the pool's lock. */
    method Release(idx: nat, cnt: nat)
      requires Holding() && idx + cnt <= used.bitCnt && Range(idx, cnt) <= held.Keys
      modifies this, used.bits
      ensures Holding() && held == old(held) - Range(idx, cnt) && cursor == old(cursor)
    {
      used.SetMultiple(idx, cnt, false);
      held := held - Range(idx, cnt);
    }
  }

  lemma BestFailure(b: seq<bool>, cnt: nat, r: Option<nat>, len: nat)
    requires IsBestFit(b, cnt, r, len) && cnt > 0
    ensures r.None? ==> forall i: nat :: !Run(b, i, cnt, false)
    ensures r.Some? ==> Run(b, r.value, cnt, false)
  {
    if i: nat :| Run(b, i, cnt, false) {
      var s, n := RunInHole(b, i, cnt);
    }
  }

  lemma NoMoreHoles(b: seq<bool>, idx: nat)
    requires LowestFrom(b, idx, 1, None)
    ensures forall s: nat, n: nat :: Hole(b, s, n) ==> s < idx
  {
    forall s: nat, n: nat | Hole(b, s, n) ensures s < idx {
      assert Run(b, s, 1, false);
    }
  }

  lemma LowestIsBoundary(b: seq<bool>, idx: nat, f: nat)
    requires LowestFrom(b, idx, 1, Some(f)) && (0 < idx < |b| ==> b[idx]) && idx < |b|
    ensures f < |b| && !b[f] && (f == 0 || b[f - 1])
    ensures forall k :: idx <= k < f ==> b[k]
  {
    forall k | idx <= k < f ensures b[k] {
      assert !Run(b, k, 1, false);
    }
  }

  // ----- conservation -----

  /** The set and the clear bits make up the map. */
  lemma {:induction false} HeldPlusFree(b: seq<bool>, pages: set<nat>)
    requires forall i: nat :: i in pages <==> i < |b| && b[i]
    ensures |pages| + Count(b, false) == |b|
    decreases |b|
  {
    if b == [] {
      assert pages == {};
    } else {
      var n := |b| - 1;
      var front := b[..n];
      assert b == front + [b[n]];
      CountLast(front, b[n], false);
      HeldPlusFree(front, pages - {n});
    }
  }

  // ----- addresses -----

  const PHYS_BASE: nat := 0xC000_0000
  const BITMAP_SIZE: nat := 8        // sizeof (struct bitmap)

  function PgNo(addr: nat): nat { addr / PGSIZE }

  function PgOfs(addr: nat): nat { addr % PGSIZE }

  /** The fewest units of `unit` that hold `n`. */
  ghost predicate Fewest(units: nat, unit: nat, n: nat) { unit * units >= n && unit * units < n + unit }

  lemma BitmapFits(pages: nat, r: nat)
    requires r == (BITMAP_SIZE + 4 * ElemCnt(pages) + PGSIZE - 1) / PGSIZE
    ensures forall words: nat :: Fewest(words, 32, pages) ==> Fewest(r, 4096, 8 + 4 * words)
  {
    forall words: nat | Fewest(words, 32, pages) ensures Fewest(r, 4096, 8 + 4 * words) {
      FewestWords(words, pages);
      FewestPages(8 + 4 * words);
      hide ElemCnt, Fewest;
    }
  }

  lemma FewestWords(words: nat, pages: nat)
    requires Fewest(words, 32, pages)
    ensures words == ElemCnt(pages)
  {
  }

  lemma FewestPages(n: nat)
    ensures Fewest((n + PGSIZE - 1) / PGSIZE, 4096, n)
  {
  }

  /** Pages taken at the start of a pool by its own bitmap: a header of two words, and a word for
      each 32 pages begun. */
  function BitmapPages(pages: nat): (r: nat)
    ensures forall words: nat :: Fewest(words, 32, pages) ==> Fewest(r, 4096, 8 + 4 * words)
  {
    var n := (BITMAP_SIZE + 4 * ElemCnt(pages) + PGSIZE - 1) / PGSIZE;
    BitmapFits(pages, n);
    n
  }

  /** `page_from_pool`, for a pool of `pages` pages at `base`. */
  predicate PageFromPool(base: nat, pages: nat, page: nat) {
    PgNo(base) <= PgNo(page) < PgNo(base) + pages
  }

  function PageAddr(base: nat, i: nat): nat { base + PGSIZE * i }

  /** Every page of a pool maps back to its pool and index. */
  lemma AddressRoundTrip(base: nat, pages: nat, i: nat)
    requires PgOfs(base) == 0 && i < pages
    ensures PageFromPool(base, pages, PageAddr(base, i)) && PgNo(PageAddr(base, i)) - PgNo(base) == i
    ensures PgOfs(PageAddr(base, i)) == 0
  {
  }

  /** No page belongs to two pools that follow each other in memory. */
  lemma PoolsApart(base: nat, pages: nat, other: nat, others: nat, page: nat)
    requires PgOfs(base) == 0 && PgOfs(other) == 0 && PageAddr(base, pages) <= other
    ensures !(PageFromPool(base, pages, page) && PageFromPool(other, others, page))
  {
  }

  /** The `cnt` pages from address `addr` on are among the pages `held` of a pool. */
  ghost predicate HeldPages(base: nat, pages: nat, held: set<nat>, addr: nat, cnt: nat) {
    && PageFromPool(base, pages, addr)
    && PgNo(addr) - PgNo(base) + cnt <= pages
    && Range(PgNo(addr) - PgNo(base), cnt) <= held
  }

  datatype Answer = Pages(addr: nat) | Null | Panic

  datatype PoolView = PoolView(base: nat, bits: seq<bool>, cursor: nat, held: map<nat, nat>)

  /** What a request for `cnt` pages answers: an address that maps back to a run of pages
      that the mode selects and no live grant holds, all now held by grant `g`; or a
      failure, only if no run of `cnt` free pages exists, that changes nothing. */
  ghost predicate Served(mode: Mode, v: PoolView, v': PoolView, cnt: nat, mustSucceed: bool, g: nat, r: Answer) {
    match r
    case Pages(addr) =>
      && cnt > 0 && PgOfs(addr) == 0 && PageFromPool(v.base, |v.bits|, addr)
      && ServedAt(mode, v, v', PgNo(addr) - PgNo(v.base), cnt, g)
      && addr == PageAddr(v.base, PgNo(addr) - PgNo(v.base))
    case _ =>
      && v' == v
      && (r.Panic? <==> cnt > 0 && mustSucceed)
      && (cnt > 0 ==> forall i: nat :: !Run(v.bits, i, cnt, false))
  }

  ghost predicate ServedAt(mode: Mode, v: PoolView, v': PoolView, i: nat, cnt: nat, g: nat) {
    && i + cnt <= |v.bits|
    && Chosen(mode, v.bits, v.cursor, cnt, Some(i))
    && Range(i, cnt) !! v.held.Keys
    && v'.held == v.held + (map k | k in Range(i, cnt) :: g)
    && v'.cursor == if mode != NextFit then v.cursor else if i + cnt < |v.bits| then i + cnt else 0
  }

  lemma GrantServed(mode: Mode, v: PoolView, v': PoolView, i: nat, cnt: nat, mustSucceed: bool, g: nat)
    requires ServedAt(mode, v, v', i, cnt, g) && cnt > 0 && PgOfs(v.base) == 0
    ensures Served(mode, v, v', cnt, mustSucceed, g, Pages(PageAddr(v.base, i)))
  {
    hide ServedAt, PgNo, PageAddr;
    InPool(mode, v, v', i, cnt, g);
    AddressRoundTrip(v.base, |v.bits|, i);
  }

  lemma InPool(mode: Mode, v: PoolView, v': PoolView, i: nat, cnt: nat, g: nat)
    requires ServedAt(mode, v, v', i, cnt, g)
    ensures i + cnt <= |v.bits|
  {
  }

  const LOW_PAGES: nat := 256        // the first megabyte is not managed

  /** Half of the free memory goes to user programs, up to the limit. */
  function UserPages(ramPages: nat, userLimit: nat): (r: nat)
    requires LOW_PAGES <= ramPages
    ensures r <= userLimit && 2 * r <= ramPages - 256
    ensures r == userLimit || ramPages - 256 <= 2 * r + 1
  {
    var half := (ramPages - LOW_PAGES) / 2;
    if half > userLimit then userLimit else half
  }

  function KernelPages(ramPages: nat, userLimit: nat): (r: nat)
    requires LOW_PAGES <= ramPages
    ensures UserPages(ramPages, userLimit) + r == ramPages - 256
  {
    ramPages - LOW_PAGES - UserPages(ramPages, userLimit)
  }

  /** A pool of `pages` pages at `base` takes all of `all` pages from `start` on, its bitmap first. */
  ghost predicate PoolAt(start: nat, all: nat, base: nat, pages: nat) {
    && pages + BitmapPages(all) == all
    && base == start + 4096 * BitmapPages(all)
  }

  /** The kernel pool starts at 1 MB, the user pool behind it, and no page is left over. */
  ghost predicate LaidOut(ramPages: nat, userLimit: nat, kernelBase: nat, kernelPages: nat, userBase: nat,
                          userPages: nat)
    requires LOW_PAGES <= ramPages
  {
    && PoolAt(0xC010_0000, KernelPages(ramPages, userLimit), kernelBase, kernelPages)
    && PoolAt(kernelBase + 4096 * kernelPages, UserPages(ramPages, userLimit), userBase, userPages)
    && userBase + 4096 * userPages == 0xC000_0000 + 4096 * ramPages
  }

  /** The two pools, each behind its bitmap, follow each other. */
  lemma Layout(start: nat, kernelPages: nat, kernelMap: nat, userPages: nat, userMap: nat)
    requires PgOfs(start) == 0 && kernelMap <= kernelPages && userMap <= userPages
    ensures PgOfs(start + kernelMap * PGSIZE) == 0
    ensures PgOfs(start + kernelPages * PGSIZE + userMap * PGSIZE) == 0
    ensures PageAddr(start + kernelMap * PGSIZE, kernelPages - kernelMap) == start + kernelPages * PGSIZE
    ensures PageAddr(start + kernelPages * PGSIZE + userMap * PGSIZE, userPages - userMap)
      == start + (kernelPages + userPages) * PGSIZE
  {
  }

  lemma LayoutHolds(ramPages: nat, userLimit: nat)
    requires LOW_PAGES <= ramPages
    ensures var u, k := UserPages(ramPages, userLimit), KernelPages(ramPages, userLimit);
      var um, km := BitmapPages(u), BitmapPages(k);
      var start := PHYS_BASE + LOW_PAGES * PGSIZE;
      um <= u && km <= k ==>
        LaidOut(ramPages, userLimit, start + km * PGSIZE, k - km, start + k * PGSIZE + um * PGSIZE, u - um)
  {
    hide BitmapPages, UserPages, KernelPages;
  }

  class Allocator {
    const kernel: Pool
    const user: Pool
    var mode: Mode
    ghost var grants: nat

    ghost predicate Valid()
      reads this, kernel, kernel.used, kernel.used.bits, user, user.used, user.used.bits
    {
      && kernel != user && kernel.used != user.used && kernel.used.bits != user.used.bits
      && kernel.Holding() && user.Holding()
      && PgOfs(kernel.base) == 0 && PgOfs(user.base) == 0
      && 0 < kernel.base && PageAddr(kernel.base, kernel.used.bitCnt) <= user.base
      && PageAddr(user.base, user.used.bitCnt) <= 0x1_0000_0000
      && kernel.GrantedBefore(grants) && user.GrantedBefore(grants)
    }

    /** The pools that `init_pool` sets up when their bitmaps fit. */
    constructor (ramPages: nat, userLimit: nat)
      requires LOW_PAGES <= ramPages <= 0x4_0000
      requires BitmapPages(UserPages(ramPages, userLimit)) <= UserPages(ramPages, userLimit)
      requires BitmapPages(KernelPages(ramPages, userLimit)) <= KernelPages(ramPages, userLimit)
      ensures Valid() && kernel.held == map[] && user.held == map[] && mode == FirstFit
      ensures LaidOut(ramPages, userLimit, kernel.base, kernel.used.bitCnt, user.base, user.used.bitCnt)
      ensures kernel.cursor == 0 && user.cursor == 0
      ensures fresh(kernel) && fresh(kernel.used) && fresh(kernel.used.bits)
      ensures fresh(user) && fresh(user.used) && fresh(user.used.bits)
    {
      var start := PHYS_BASE + LOW_PAGES * PGSIZE;
      var userPages := UserPages(ramPages, userLimit);
      var kernelPages := KernelPages(ramPages, userLimit);
      var kernelMap, userMap := BitmapPages(kernelPages), BitmapPages(userPages);
      Layout(start, kernelPages, kernelMap, userPages, userMap);
      LayoutHolds(ramPages, userLimit);
      hide BitmapPages, UserPages, KernelPages, PgOfs, PageAddr, Run, LaidOut, Pool.Holding;
      kernel := new Pool(start + kernelMap * PGSIZE, kernelPages - kernelMap);
      user := new Pool(start + kernelPages * PGSIZE + userMap * PGSIZE, userPages - userMap);
      mode := FirstFit;
      grants := 0;
    }

    /** `palloc_set_mode`. */
    method SetMode(m: Mode)
      requires Valid()
      modifies `mode
      ensures Valid() && mode == m
    {
      mode := m;
    }

    function PoolOf(fromUser: bool): Pool { if fromUser then user else kernel }

    /** `palloc_get_multiple`: a new grant never shares a page with a live one; a request
        fails only if no run of that many free pages exists. */
    method GetMultiple(fromUser: bool, mustSucceed: bool, cnt: nat) returns (r: Answer)
      requires Valid()
      modifies `grants, PoolOf(fromUser), PoolOf(fromUser).used.bits
      ensures Valid() && mode == old(mode)
      ensures Served(mode, old(PoolOf(fromUser).View()), PoolOf(fromUser).View(), cnt, mustSucceed, old(grants), r)
    {
      hide Chosen, Run;
      if fromUser {
        r := user.Serve(mode, mustSucceed, cnt, grants);
      } else {
        r := kernel.Serve(mode, mustSucceed, cnt, grants);
      }
      grants := grants + 1;
    }

    /** `palloc_free_multiple`. */
    method FreeMultiple(pages: nat, cnt: nat)
      requires Valid() && PgOfs(pages) == 0
      requires pages != 0 && cnt != 0 ==>
        HeldPages(kernel.base, kernel.used.bitCnt, kernel.held.Keys, pages, cnt)
        || HeldPages(user.base, user.used.bitCnt, user.held.Keys, pages, cnt)
      modifies kernel, kernel.used.bits, user, user.used.bits
      ensures Valid()
      ensures kernel.held == if pages != 0 && cnt != 0 && PageFromPool(kernel.base, kernel.used.bitCnt, pages)
                             then old(kernel.held) - Range(PgNo(pages) - PgNo(kernel.base), cnt)
                             else old(kernel.held)
      ensures user.held == if pages != 0 && cnt != 0 && PageFromPool(user.base, user.used.bitCnt, pages)
                           then old(user.held) - Range(PgNo(pages) - PgNo(user.base), cnt)
                           else old(user.held)
      ensures kernel.cursor == old(kernel.cursor) && user.cursor == old(user.cursor)
    {
      if pages == 0 || cnt == 0 {
        return;
      }
      PoolsApart(kernel.base, kernel.used.bitCnt, user.base, user.used.bitCnt, pages);
      if PageFromPool(kernel.base, kernel.used.bitCnt, pages) {
        kernel.Release(PgNo(pages) - PgNo(kernel.base), cnt);
      } else {
        user.Release(PgNo(pages) - PgNo(user.base), cnt);
      }
    }

    /** `palloc_get_page_index`. */
    method GetPageIndex(page: nat) returns (i: nat)
      requires Valid()
      ensures forall k: nat :: k < kernel.used.bitCnt && page == PageAddr(kernel.base, k) ==> i == k
      ensures forall k: nat :: k < user.used.bitCnt && page == PageAddr(user.base, k) ==> i == k
      ensures !PageFromPool(kernel.base, kernel.used.bitCnt, page) ==>
        !PageFromPool(user.base, user.used.bitCnt, page) ==> i == 0
    {
      PoolsApart(kernel.base, kernel.used.bitCnt, user.base, user.used.bitCnt, page);
      if PageFromPool(kernel.base, kernel.used.bitCnt, page) {
        i := PgNo(page) - PgNo(kernel.base);
      } else if PageFromPool(user.base, user.used.bitCnt, page) {
        i := PgNo(page) - PgNo(user.base);
      } else {
        i := 0;
      }
    }
  }

  /** `palloc_init`: none stands for the panic of `init_pool` when a pool is too small for its
      own bitmap. */
  method PallocInit(ramPages: nat, userLimit: nat) returns (r: Option<Allocator>)
    requires LOW_PAGES <= ramPages <= 0x4_0000
    ensures r.None? <==>
      || BitmapPages(UserPages(ramPages, userLimit)) > UserPages(ramPages, userLimit)
      || BitmapPages(KernelPages(ramPages, userLimit)) > KernelPages(ramPages, userLimit)
    ensures r.Some? ==> var a := r.value;
      && a.Valid() && a.kernel.held == map[] && a.user.held == map[] && a.mode == FirstFit
      && LaidOut(ramPages, userLimit, a.kernel.base, a.kernel.used.bitCnt, a.user.base, a.user.used.bitCnt)
      && a.kernel.cursor == 0 && a.user.cursor == 0
      && fresh(a) && fresh(a.kernel) && fresh(a.kernel.used) && fresh(a.kernel.used.bits)
      && fresh(a.user) && fresh(a.user.used) && fresh(a.user.used.bits)
  {
    hide UserPages, KernelPages, BitmapPages, Pool.Holding;
    if BitmapPages(KernelPages(ramPages, userLimit)) > KernelPages(ramPages, userLimit) {
      return None;
    }
    if BitmapPages(UserPages(ramPages, userLimit)) > UserPages(ramPages, userLimit) {
      return None;
    }
    var a := new Allocator(ramPages, userLimit);
    return Some(a);
  }
}
