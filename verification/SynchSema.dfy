/** Semaphores over every interleaving: the value is the balance of ups and downs, and
    no wakeup is lost although a woken thread can be overtaken before it tests the
    value again. */
module SynchSema {
  import opened Basics
  import opened SynchModel

  // ----- wait lists -----

  /** Wait lists hold threads that went to sleep on that semaphore, once each. */
  predicate WaitLists(y: Synch) {
    && (forall s :: s in y.waiters ==> NoDup(y.waiters[s]))
    && (forall s, t :: s in y.waiters && t in y.waiters[s] ==> t in y.pc && SleepsOn(y.pc[t]) == Some(s))
  }

  lemma TailNoDup<T>(q: seq<T>)
    requires q != [] && NoDup(q)
    ensures NoDup(q[1..])
    ensures forall x :: x in q[1..] <==> x in q && x != q[0]
  {
    forall x | x in q && x != q[0] ensures x in q[1..] {
      var i :| 0 <= i < |q| && q[i] == x;
      assert q[1..][i - 1] == x;
    }
  }

  lemma PushNoDup<T>(q: seq<T>, y: T)
    requires NoDup(q) && y !in q
    ensures NoDup(q + [y])
    ensures forall x :: x in q + [y] <==> x in q || x == y
  {
  }

  lemma LocalShape(y: Synch, t: Tid, p: Pc)
    requires UpPlan(p).None? && DownPlan(p).None?
    ensures LocalEffect(y, t, p).waiters == y.waiters && LocalEffect(y, t, p).pc == y.pc
    ensures SleepsOn(LocalNext(y, p)).None? && SleepsOn(p).None?
  {
    LocalNextAwake(y, p);
    hide LocalNext, SleepsOn, UpPlan, DownPlan;
  }

  lemma LocalNextAwake(y: Synch, p: Pc)
    requires UpPlan(p).None? && DownPlan(p).None?
    ensures SleepsOn(LocalNext(y, p)).None? && SleepsOn(p).None?
  {
  }

  lemma LocalCreators(y: Synch, t: Tid, p: Pc)
    ensures LocalEffect(y, t, p).hist.creatorOf == y.hist.creatorOf
  {
  }

  lemma FrameLists(y: Synch, y': Synch, t: Tid, p: Pc)
    requires WaitLists(y) && (t in y.pc ==> Awake(y, t))
    requires y'.waiters == y.waiters && y'.pc == y.pc[t := p]
    ensures WaitLists(y')
  {
  }

  lemma SleepKeepsLists(y: Synch, t: Tid, plan: Plan)
    requires WaitLists(y) && Awake(y, t) && DownPlan(y.pc[t]) == Some(plan)
    ensures WaitLists(At(PushWaiter(y, plan.sema, t), t, plan.asleep))
  {
    assert t !in Waiters(y, plan.sema);
    PushNoDup(Waiters(y, plan.sema), t);
  }

  lemma RaiseKeepsLists(y: Synch, s: SemaId)
    requires WaitLists(y)
    ensures WaitLists(Raise(y, s))
  {
    if Waiters(y, s) != [] {
      TailNoDup(Waiters(y, s));
    }
  }

  lemma RegionKeepsLists(y: Synch, t: Tid)
    requires WaitLists(y) && Awake(y, t)
    ensures WaitLists(Region(y, t))
  {
    var p := y.pc[t];
    if UpPlan(p).Some? {
      var s := UpPlan(p).value.sema;
      RaiseKeepsLists(y, s);
      FrameLists(Raise(y, s), Region(y, t), t, UpPlan(p).value.next);
    } else if DownPlan(p).Some? {
      if Value(y, DownPlan(p).value.sema) == 0 {
        SleepKeepsLists(y, t, DownPlan(p).value);
      } else {
        FrameLists(y, Region(y, t), t, DownPlan(p).value.next);
      }
    } else {
      LocalShape(y, t, p);
      FrameLists(y, Region(y, t), t, LocalNext(y, p));
    }
  }

  lemma MoveKeepsLists(y: Synch, m: Move)
    requires WaitLists(y) && CanMove(y, m)
    ensures WaitLists(DoMove(y, m))
  {
    match m
    case IntrUp(id) => RaiseKeepsLists(y, Plain(id));
    case IntrTryDown(_) =>
    case Invoke(t, op) =>
    case Do(t) => RegionKeepsLists(y, t);
  }

  // ----- the balance -----

  /** value = initial + completed ups - completed downs. */
  ghost predicate Balanced(y: Synch) {
    forall s :: Value(y, s) + Downs(y, s) == Initial(y, s) + Ups(y, s)
  }

  /** The `cond_wait` entry a thread at `p` is concerned with. */
  function EntryOf(p: Pc): Option<WaitId> {
    match p
    case Drop(_, w) => w
    case Release(_, w) => w
    case Sleep(w, _, _) => Some(w)
    case Post(w, _, _) => Some(w)
    case _ => None
  }

  predicate Untouched(y: Synch, s: SemaId) {
    s !in y.value && s !in y.hist.ups && s !in y.hist.downs
  }

  /** No semaphore of a `cond_wait` call yet to come has been used. */
  ghost predicate Fresh(y: Synch) {
    && (forall t :: t in y.pc && EntryOf(y.pc[t]).Some? ==> EntryOf(y.pc[t]).value < y.nextWaiter)
    && (forall c, w :: c in y.queue && w in y.queue[c] ==> w < y.nextWaiter)
    && (forall w :: y.nextWaiter <= w ==> Untouched(y, Private(w)))
  }

  lemma AtFresh(y: Synch, t: Tid, p: Pc)
    requires Fresh(y) && (EntryOf(p).Some? ==> EntryOf(p).value < y.nextWaiter)
    ensures Fresh(At(y, t, p))
  {
  }

  lemma RaiseFresh(y: Synch, s: SemaId)
    requires Fresh(y) && (s.Private? ==> s.waiter < y.nextWaiter)
    ensures Fresh(Raise(y, s))
  {
  }

  lemma TryTakeFresh(y: Synch, s: SemaId)
    requires Fresh(y) && (s.Private? ==> s.waiter < y.nextWaiter)
    ensures Fresh(TryTake(y, s))
  {
  }

  lemma EntryFresh(y: Synch, c: CondId, t: Tid)
    requires Fresh(y)
    ensures Fresh(PushEntry(y, c, t))
  {
  }

  lemma PopFresh(y: Synch, c: CondId)
    requires Fresh(y) && Queue(y, c) != []
    ensures Fresh(PopEntry(y, c))
  {
    assert forall w :: w in Queue(y, c)[1..] ==> w in y.queue[c];
  }

  lemma HolderFresh(y: Synch, y': Synch)
    requires Fresh(y) && y'.pc == y.pc && y'.queue == y.queue && y'.nextWaiter == y.nextWaiter
    requires y'.value == y.value && y'.hist.ups == y.hist.ups && y'.hist.downs == y.hist.downs
    ensures Fresh(y')
  {
  }

  lemma LocalFresh(y: Synch, t: Tid, p: Pc)
    requires Fresh(y)
    ensures Fresh(LocalEffect(y, t, p))
    ensures LocalEffect(y, t, p).nextWaiter >= y.nextWaiter
  {
    hide Fresh, LocalEffect, Value;
    if p.TryDown? || p.TryAcquire? {
      LocalTry(y, t, p);
      TryTakeFresh(y, if p.TryDown? then Plain(p.id) else OfLock(p.lock));
    } else if p.Enqueue? || p.Signal? {
      LocalEntry(y, t, p);
      if p.Enqueue? {
        EntryFresh(y, p.cond, t);
      } else if Queue(y, p.cond) != [] {
        PopFresh(y, p.cond);
      }
    } else {
      LocalHolder(y, t, p);
      HolderFresh(y, LocalEffect(y, t, p));
    }
  }

  lemma LocalNextFresh(y: Synch, t: Tid, p: Pc)
    requires Fresh(y) && UpPlan(p).None? && DownPlan(p).None?
    requires EntryOf(p).Some? ==> EntryOf(p).value < y.nextWaiter
    ensures EntryOf(LocalNext(y, p)).Some? ==> EntryOf(LocalNext(y, p)).value < LocalEffect(y, t, p).nextWaiter
  {
    if p.Signal? && Queue(y, p.cond) != [] {
      assert Queue(y, p.cond)[0] in y.queue[p.cond];
    }
  }

  /** The entries that a region is concerned with are not new. */
  lemma PlanFresh(y: Synch, t: Tid, plan: Plan)
    requires Fresh(y) && t in y.pc && (UpPlan(y.pc[t]) == Some(plan) || DownPlan(y.pc[t]) == Some(plan))
    ensures plan.sema.Private? ==> plan.sema.waiter < y.nextWaiter
    ensures EntryOf(plan.asleep).Some? ==> EntryOf(plan.asleep).value < y.nextWaiter
    ensures EntryOf(plan.next).Some? ==> EntryOf(plan.next).value < y.nextWaiter
  {
    assert EntryOf(y.pc[t]).Some? ==> EntryOf(y.pc[t]).value < y.nextWaiter;
    hide Fresh;
  }

  lemma DownFresh(y: Synch, t: Tid, plan: Plan)
    requires Fresh(y) && t in y.pc && DownPlan(y.pc[t]) == Some(plan)
    ensures Fresh(DownRegion(y, t, plan))
  {
    PlanFresh(y, t, plan);
    hide Fresh, DownPlan, EntryOf, Value;
    if Value(y, plan.sema) == 0 {
      HolderFresh(y, PushWaiter(y, plan.sema, t));
      AtFresh(PushWaiter(y, plan.sema, t), t, plan.asleep);
    } else {
      TryTakeFresh(y, plan.sema);
      AtFresh(Take(y, plan.sema), t, plan.next);
    }
  }

  lemma RegionFresh(y: Synch, t: Tid)
    requires Fresh(y) && t in y.pc
    ensures Fresh(Region(y, t))
  {
    hide Fresh, Region, UpPlan, DownPlan, DownRegion, EntryOf, LocalEffect, LocalNext, Value;
    var p := y.pc[t];
    if UpPlan(p).Some? {
      UpRegionIs(y, t);
      PlanFresh(y, t, UpPlan(p).value);
      RaiseFresh(y, UpPlan(p).value.sema);
      AtFresh(Raise(y, UpPlan(p).value.sema), t, UpPlan(p).value.next);
    } else if DownPlan(p).Some? {
      DownRegionIs(y, t);
      DownFresh(y, t, DownPlan(p).value);
    } else {
      LocalRegionIs(y, t);
      EntryKnown(y, t);
      LocalFresh(y, t, p);
      LocalNextFresh(y, t, p);
      AtFresh(LocalEffect(y, t, p), t, LocalNext(y, p));
    }
  }

  lemma EntryKnown(y: Synch, t: Tid)
    requires Fresh(y) && t in y.pc
    ensures EntryOf(y.pc[t]).Some? ==> EntryOf(y.pc[t]).value < y.nextWaiter
  {
  }

  lemma MoveKeepsFresh(y: Synch, m: Move)
    requires Fresh(y) && CanMove(y, m)
    ensures Fresh(DoMove(y, m))
  {
    hide Fresh;
    match m
    case IntrUp(id) => RaiseFresh(y, Plain(id));
    case IntrTryDown(id) => TryTakeFresh(y, Plain(id));
    case Invoke(t, op) =>
      if op.ThreadCreate? {
        AtFresh(y, op.thread, Born(None));
        AtFresh(At(y, op.thread, Born(None)), t, Start(op.thread));
        HolderFresh(At(At(y, op.thread, Born(None)), t, Start(op.thread)), Call(y, t, op));
      } else {
        AtFresh(y, t, Entry(y, op));
      }
    case Do(t) => RegionFresh(y, t);
  }

  lemma BalanceFrame(y: Synch, y': Synch)
    requires Balanced(y)
    requires y'.value == y.value && y'.hist.ups == y.hist.ups && y'.hist.downs == y.hist.downs
    requires y'.hist.initial == y.hist.initial
    ensures Balanced(y')
  {
    forall s ensures Value(y', s) + Downs(y', s) == Initial(y', s) + Ups(y', s) {
      assert Value(y, s) + Downs(y, s) == Initial(y, s) + Ups(y, s);
    }
  }

  lemma RaiseBalance(y: Synch, s0: SemaId)
    requires Balanced(y)
    ensures Balanced(Raise(y, s0))
  {
    forall s
      ensures Value(Raise(y, s0), s) + Downs(Raise(y, s0), s) == Initial(Raise(y, s0), s) + Ups(Raise(y, s0), s)
    {
      assert Value(y, s) + Downs(y, s) == Initial(y, s) + Ups(y, s);
    }
  }

  lemma TryTakeBalance(y: Synch, s0: SemaId)
    requires Balanced(y)
    ensures Balanced(TryTake(y, s0))
  {
    if Value(y, s0) > 0 {
      TakeBalance(y, s0);
    }
  }

  lemma TakeBalance(y: Synch, s0: SemaId)
    requires Balanced(y) && Value(y, s0) > 0
    ensures Balanced(Take(y, s0))
  {
    var z := Take(y, s0);
    forall s ensures Value(z, s) + Downs(z, s) == Initial(z, s) + Ups(z, s) {
      assert Value(y, s) + Downs(y, s) == Initial(y, s) + Ups(y, s);
    }
  }

  lemma EntryBalance(y: Synch, c: CondId, t: Tid)
    requires Balanced(y) && Fresh(y)
    ensures Balanced(PushEntry(y, c, t))
  {
    var z := PushEntry(y, c, t);
    assert Untouched(y, Private(y.nextWaiter));
    forall s ensures Value(z, s) + Downs(z, s) == Initial(z, s) + Ups(z, s) {
      assert Value(y, s) + Downs(y, s) == Initial(y, s) + Ups(y, s);
    }
  }

  lemma LocalBalance(y: Synch, t: Tid, p: Pc)
    requires Balanced(y) && Fresh(y)
    ensures Balanced(LocalEffect(y, t, p))
  {
    hide Balanced, Fresh, LocalEffect, TryTake, PushEntry;
    if p.TryDown? || p.TryAcquire? {
      LocalTry(y, t, p);
      TryTakeBalance(y, if p.TryDown? then Plain(p.id) else OfLock(p.lock));
    } else if p.Enqueue? || p.Signal? {
      LocalEntry(y, t, p);
      if p.Enqueue? {
        EntryBalance(y, p.cond, t);
      } else {
        BalanceFrame(y, LocalEffect(y, t, p));
      }
    } else {
      LocalHolder(y, t, p);
      BalanceFrame(y, LocalEffect(y, t, p));
    }
  }

  lemma DownBalance(y: Synch, t: Tid, plan: Plan)
    requires Balanced(y)
    ensures Balanced(DownRegion(y, t, plan))
  {
    hide Balanced, Value;
    if Value(y, plan.sema) == 0 {
      BalanceFrame(y, DownRegion(y, t, plan));
    } else {
      TakeBalance(y, plan.sema);
      BalanceFrame(Take(y, plan.sema), DownRegion(y, t, plan));
    }
  }

  lemma RegionBalance(y: Synch, t: Tid)
    requires Balanced(y) && Fresh(y) && t in y.pc
    ensures Balanced(Region(y, t))
  {
    hide Balanced, Fresh, Region, UpPlan, DownPlan, DownRegion, LocalEffect, LocalNext;
    var p := y.pc[t];
    if UpPlan(p).Some? {
      UpRegionIs(y, t);
      RaiseBalance(y, UpPlan(p).value.sema);
      BalanceFrame(Raise(y, UpPlan(p).value.sema), Region(y, t));
    } else if DownPlan(p).Some? {
      DownRegionIs(y, t);
      DownBalance(y, t, DownPlan(p).value);
    } else {
      LocalRegionIs(y, t);
      LocalBalance(y, t, p);
      BalanceFrame(LocalEffect(y, t, p), Region(y, t));
    }
  }

  lemma MoveKeepsBalance(y: Synch, m: Move)
    requires Balanced(y) && Fresh(y) && CanMove(y, m)
    ensures Balanced(DoMove(y, m))
  {
    match m
    case IntrUp(id) => RaiseBalance(y, Plain(id));
    case IntrTryDown(id) => TryTakeBalance(y, Plain(id));
    case Invoke(t, op) => BalanceFrame(y, Call(y, t, op));
    case Do(t) => RegionBalance(y, t);
  }

  // ----- no lost wakeup -----

  /** Threads popped by `sema_up` that have not tested the loop condition again. */
  function Woken(y: Synch, s: SemaId): set<Tid> {
    set t | t in y.pc && SleepsOn(y.pc[t]) == Some(s) && t !in Waiters(y, s)
  }

  predicate NoLostAt(y: Synch, s: SemaId) {
    Waiters(y, s) != [] ==> Value(y, s) <= |Woken(y, s)|
  }

  ghost predicate NoLostWakeup(y: Synch) { forall s :: NoLostAt(y, s) }

  /** `sema_up` turns the first waiter into a woken thread. */
  lemma RaiseWoken(y: Synch, s0: SemaId, s: SemaId)
    requires WaitLists(y)
    ensures Woken(Raise(y, s0), s) ==
      if s == s0 && Waiters(y, s) != [] then Woken(y, s) + {Waiters(y, s)[0]} else Woken(y, s)
    ensures Waiters(y, s) != [] ==> Waiters(y, s)[0] !in Woken(y, s)
  {
    hide SleepsOn, NoDup;
    if Waiters(y, s0) != [] {
      TailNoDup(Waiters(y, s0));
    }
  }

  lemma RaiseNoLost(y: Synch, s0: SemaId, s: SemaId)
    requires WaitLists(y) && NoLostAt(y, s)
    ensures NoLostAt(Raise(y, s0), s)
  {
    RaiseWoken(y, s0, s);
  }

  /** A thread that has just tested the loop condition leaves the woken ones. */
  lemma TestWoken(y: Synch, y': Synch, t: Tid, s0: SemaId, s: SemaId, p: Pc)
    requires t in y.pc && (SleepsOn(y.pc[t]).None? || SleepsOn(y.pc[t]) == Some(s0)) && SleepsOn(p).None?
    requires y'.waiters == y.waiters && y'.pc == y.pc[t := p]
    ensures Woken(y', s) == if s == s0 then Woken(y, s) - {t} else Woken(y, s)
  {
  }

  lemma TakeNoLost(y: Synch, t: Tid, plan: Plan, s: SemaId)
    requires t in y.pc && DownPlan(y.pc[t]) == Some(plan) && Value(y, plan.sema) > 0 && NoLostAt(y, s)
    ensures NoLostAt(At(Take(y, plan.sema), t, plan.next), s)
  {
    TestWoken(y, At(Take(y, plan.sema), t, plan.next), t, plan.sema, s, plan.next);
  }

  lemma SleepNoLost(y: Synch, t: Tid, plan: Plan, s: SemaId)
    requires t in y.pc && DownPlan(y.pc[t]) == Some(plan) && Value(y, plan.sema) == 0 && NoLostAt(y, s)
    ensures NoLostAt(At(PushWaiter(y, plan.sema, t), t, plan.asleep), s)
  {
    if s != plan.sema {
      assert Woken(At(PushWaiter(y, plan.sema, t), t, plan.asleep), s) == Woken(y, s);
    }
  }

  /** A step that tests no semaphore, of a thread that is not a woken one, and raises
      no value. */
  lemma OtherNoLost(y: Synch, y': Synch, t: Tid, p: Pc, s: SemaId)
    requires (t in y.pc ==> SleepsOn(y.pc[t]).None?) && SleepsOn(p).None? && NoLostAt(y, s)
    requires y'.waiters == y.waiters && y'.pc == y.pc[t := p] && Value(y', s) <= Value(y, s)
    ensures NoLostAt(y', s)
  {
    assert Woken(y', s) == Woken(y, s);
  }

  lemma LocalValue(y: Synch, t: Tid, p: Pc, s: SemaId)
    ensures Value(LocalEffect(y, t, p), s) <= Value(y, s)
  {
  }

  lemma RegionNoLost(y: Synch, t: Tid, s: SemaId)
    requires WaitLists(y) && NoLostAt(y, s) && Awake(y, t)
    ensures NoLostAt(Region(y, t), s)
  {
    var p := y.pc[t];
    if UpPlan(p).Some? {
      var s0 := UpPlan(p).value.sema;
      RaiseNoLost(y, s0, s);
      OtherNoLost(Raise(y, s0), Region(y, t), t, UpPlan(p).value.next, s);
    } else if DownPlan(p).Some? {
      if Value(y, DownPlan(p).value.sema) == 0 {
        SleepNoLost(y, t, DownPlan(p).value, s);
      } else {
        TakeNoLost(y, t, DownPlan(p).value, s);
      }
    } else {
      LocalShape(y, t, p);
      LocalValue(y, t, p, s);
      OtherNoLost(y, Region(y, t), t, LocalNext(y, p), s);
    }
  }

  lemma CallNoLost(y: Synch, t: Tid, op: Op, s: SemaId)
    requires NoLostAt(y, s) && t in y.pc && y.pc[t].User? && Allowed(y, t, op)
    ensures NoLostAt(Call(y, t, op), s)
  {
    if op.ThreadCreate? {
      OtherNoLost(y, At(y, op.thread, Born(None)), op.thread, Born(None), s);
      OtherNoLost(At(y, op.thread, Born(None)), Call(y, t, op), t, Start(op.thread), s);
    } else {
      OtherNoLost(y, Call(y, t, op), t, Entry(y, op), s);
    }
  }

  lemma MoveKeepsNoLost(y: Synch, m: Move)
    requires WaitLists(y) && NoLostWakeup(y) && CanMove(y, m)
    ensures NoLostWakeup(DoMove(y, m))
  {
    forall s ensures NoLostAt(DoMove(y, m), s) {
      assert NoLostAt(y, s);
      match m
      case IntrUp(id) => RaiseNoLost(y, Plain(id), s);
      case IntrTryDown(id) =>
      case Invoke(t, op) => CallNoLost(y, t, op, s);
      case Do(t) => RegionNoLost(y, t, s);
    }
  }
}
