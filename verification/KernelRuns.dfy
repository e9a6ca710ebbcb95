/** The theorems about every run of the kernel model, from boot on. */
module KernelRuns {
  import opened Basics
  import opened SynchModel
  import opened SynchSema
  import opened SynchLock
  import opened SynchCond
  import opened SchedModel
  import opened SchedInv

  ghost predicate SynchInv(y: Synch) {
    WaitLists(y) && Fresh(y) && Balanced(y) && NoLostWakeup(y) && Locks(y) && Conds(y)
  }

  ghost predicate Inv(k: State) { Sched(k) && SynchInv(k.sync) }

  lemma MoveKeepsSynch(y: Synch, m: Move)
    requires SynchInv(y) && CanMove(y, m)
    ensures SynchInv(DoMove(y, m))
  {
    MoveKeepsLists(y, m);
    MoveKeepsFresh(y, m);
    MoveKeepsBalance(y, m);
    MoveKeepsNoLost(y, m);
    MoveKeepsLocks(y, m);
    MoveKeepsConds(y, m);
  }

  /** The synchronisation move an event makes; preemption and exit make none. */
  function MoveOf(k: State, e: Event): Option<Move> {
    match e
    case Begin(op) => Some(Invoke(k.cur, op))
    case Advance => Some(Do(k.cur))
    case HandlerUp(id) => Some(IntrUp(id))
    case HandlerTryDown(id) => Some(IntrTryDown(id))
    case _ => None
  }

  /** The scheduler only chooses among the moves of the primitives. */
  lemma EventIsMove(k: State, e: Event)
    requires Sched(k) && Enabled(k, e)
    ensures MoveOf(k, e).None? ==> Apply(k, e).sync == k.sync
    ensures MoveOf(k, e).Some? ==>
      CanMove(k.sync, MoveOf(k, e).value) && Apply(k, e).sync == DoMove(k.sync, MoveOf(k, e).value)
  {
    hide Sched, Region, Call, Raise, TryTake, UpPlan, DownPlan, Value, Awake, Allowed;
    SchedAwake(k);
  }

  lemma SchedAwake(k: State)
    requires Sched(k)
    ensures Awake(k.sync, k.cur)
  {
    CurrentAwake(k);
  }

  lemma ApplyKeeps(k: State, e: Event)
    requires Inv(k) && Enabled(k, e)
    ensures Inv(Apply(k, e))
  {
    ApplyKeepsSched(k, e);
    EventIsMove(k, e);
    if MoveOf(k, e).Some? {
      MoveKeepsSynch(k.sync, MoveOf(k, e).value);
    }
  }

  lemma BootLocks(initial: map<nat, nat>, started: nat)
    ensures Locks(Boot(initial, started))
  {
    forall l ensures ExclusiveAt(Boot(initial, started), l) {
      assert Owners(Boot(initial, started), l) == {};
    }
  }

  lemma BootSynch(initial: map<nat, nat>, started: nat)
    ensures SynchInv(Boot(initial, started))
  {
    BootLocks(initial, started);
    var y := Boot(initial, started);
    assert Conds(y);
    assert Balanced(y) && Fresh(y);
  }

  lemma BootInv(initial: map<nat, nat>, started: nat)
    ensures Inv(BootState(initial, started))
  {
    BootSynch(initial, started);
    hide SynchInv;
    assert Sched(BootState(initial, started));
  }

  lemma {:induction false} RunKeeps(k: State, es: seq<Event>)
    requires Inv(k) && Legal(k, es)
    ensures Inv(Run(k, es))
    decreases |es|
  {
    if es != [] {
      ApplyKeeps(k, es[0]);
      RunKeeps(Apply(k, es[0]), es[1..]);
    }
  }

  /** A state that some run from boot reaches. */
  ghost predicate Reachable(k: State) {
    exists initial: map<nat, nat>, started: nat, es: seq<Event> ::
      Legal(BootState(initial, started), es) && Run(BootState(initial, started), es) == k
  }

  lemma ReachableInv(k: State)
    requires Reachable(k)
    ensures Inv(k)
  {
    var initial, started, es :| Legal(BootState(initial, started), es) && Run(BootState(initial, started), es) == k;
    BootInv(initial, started);
    RunKeeps(BootState(initial, started), es);
  }

  // ----- threads and lists -----

  /** The one list element of a thread is on one list only, and the status tells which;
      exactly one thread is running. */
  lemma ElemOnOneList(k: State, t: Tid, s: SemaId, r: SemaId)
    requires Reachable(k)
    ensures t in k.ready ==> t in k.status && k.status[t].Ready? && t !in Waiters(k.sync, s) && k.idle != Some(t)
    ensures t in Waiters(k.sync, s) ==> t in k.status && k.status[t].Blocked?
    ensures t in Waiters(k.sync, s) && t in Waiters(k.sync, r) ==> s == r
    ensures NoDup(k.ready) && NoDup(Waiters(k.sync, s))
    ensures t in k.status && k.status[t].Ready? && k.idle != Some(t) ==> t in k.ready
    ensures k.cur in k.status && (t in k.status ==> (k.status[t].Running? <==> t == k.cur))
  {
    hide Reachable, Fresh, Balanced, NoLostWakeup, Locks, Conds;
    ReachableInv(k);
    if t in Waiters(k.sync, s) && t in Waiters(k.sync, r) {
      assert SleepsOn(k.sync.pc[t]) == Some(s);
    }
  }

  // ----- semaphores -----

  lemma ValueIsBalance(k: State, s: SemaId)
    requires Reachable(k)
    ensures Value(k.sync, s) == Initial(k.sync, s) + Ups(k.sync, s) - Downs(k.sync, s)
  {
    ReachableInv(k);
    assert Balanced(k.sync);
    assert Value(k.sync, s) + Downs(k.sync, s) == Initial(k.sync, s) + Ups(k.sync, s);
  }

  lemma NonEmptySet<T>(s: set<T>) returns (x: T)
    requires |s| > 0
    ensures x in s
  {
    x :| x in s;
  }

  /** A semaphore with sleepers is worth no more than its woken threads, so a positive
      value with sleepers always has a thread on its way to take it. */
  lemma WokenIsPending(k: State, s: SemaId) returns (t: Option<Tid>)
    requires Reachable(k) && Waiters(k.sync, s) != []
    ensures Value(k.sync, s) <= |Woken(k.sync, s)|
    ensures Value(k.sync, s) > 0 ==> t.Some? && t.value in k.status && t.value in k.sync.pc
    ensures Value(k.sync, s) > 0 ==> SleepsOn(k.sync.pc[t.value]) == Some(s)
    ensures Value(k.sync, s) > 0 ==> t.value in k.ready || t.value == k.cur
  {
    ReachableInv(k);
    assert NoLostAt(k.sync, s);
    t := None;
    if Value(k.sync, s) > 0 {
      var u := NonEmptySet(Woken(k.sync, s));
      WokenIsRunnable(k, s, u);
      t := Some(u);
    }
  }

  lemma WokenIsRunnable(k: State, s: SemaId, t: Tid)
    requires Sched(k) && t in Woken(k.sync, s)
    ensures t in k.status && (t in k.ready || t == k.cur)
  {
  }

  // ----- waiters in order -----

  /** Only `sema_up` takes a waiter away, and it takes the first; newcomers join the end. */
  predicate InOrder(y: Synch, y': Synch, s: SemaId) {
    || (Ups(y', s) == Ups(y, s) && Waiters(y, s) <= Waiters(y', s))
    || (Ups(y', s) == Ups(y, s) + 1 && Waiters(y', s) == if Waiters(y, s) == [] then [] else Waiters(y, s)[1..])
  }

  lemma LocalInOrder(y: Synch, t: Tid, p: Pc, s: SemaId)
    ensures InOrder(y, LocalEffect(y, t, p), s)
  {
  }

  lemma RaiseInOrder(y: Synch, r: SemaId, s: SemaId)
    ensures InOrder(y, Raise(y, r), s)
  {
  }

  lemma DownInOrder(y: Synch, t: Tid, plan: Plan, s: SemaId)
    ensures InOrder(y, DownRegion(y, t, plan), s)
  {
  }

  lemma MoveInOrder(y: Synch, m: Move, s: SemaId)
    requires CanMove(y, m)
    ensures InOrder(y, DoMove(y, m), s)
  {
    hide UpPlan, DownPlan, LocalEffect, LocalNext, Raise, DownRegion, Value;
    match m {
      case Do(t) =>
        var p := y.pc[t];
        if UpPlan(p).Some? {
          RaiseInOrder(y, UpPlan(p).value.sema, s);
        } else if DownPlan(p).Some? {
          DownInOrder(y, t, DownPlan(p).value, s);
        } else {
          LocalInOrder(y, t, p, s);
        }
      case IntrUp(id) => RaiseInOrder(y, Plain(id), s);
      case _ =>
    }
  }

  /** The thread leaves the wait list at some point of the run. */
  ghost predicate LeavesList(k: State, es: seq<Event>, t: Tid, s: SemaId)
    requires Legal(k, es)
    decreases |es|
  {
    t !in Waiters(k.sync, s) || (es != [] && LeavesList(Apply(k, es[0]), es[1..], t, s))
  }

  lemma EventInOrder(k: State, e: Event, s: SemaId)
    requires Sched(k) && Enabled(k, e)
    ensures InOrder(k.sync, Apply(k, e).sync, s)
  {
    EventIsMove(k, e);
    if MoveOf(k, e).Some? {
      hide Apply, DoMove, Sched, Enabled;
      MoveInOrder(k.sync, MoveOf(k, e).value, s);
    }
  }

  /** Waiters are woken in the order of their arrival: the one at position p is off the list
      by the (p + 1)-th `sema_up` at the latest, whoever calls it. */
  lemma {:induction false} WokenInOrder(k: State, es: seq<Event>, s: SemaId, p: nat)
    requires Inv(k) && Legal(k, es) && p < |Waiters(k.sync, s)|
    requires Ups(Run(k, es).sync, s) > Ups(k.sync, s) + p
    ensures LeavesList(k, es, Waiters(k.sync, s)[p], s)
    decreases |es|
  {
    hide Sched, WaitLists, Fresh, Balanced, NoLostWakeup, Locks, Conds, Enabled;
    if es != [] {
      var k', t := Apply(k, es[0]), Waiters(k.sync, s)[p];
      ApplyKeeps(k, es[0]);
      EventInOrder(k, es[0], s);
      if t in Waiters(k'.sync, s) {
        if Ups(k'.sync, s) == Ups(k.sync, s) {
          WokenInOrder(k', es[1..], s, p);
        } else if p > 0 {
          WokenInOrder(k', es[1..], s, p - 1);
        } else {
          HeadGone(k.sync, s);
        }
      }
    }
  }

  lemma HeadGone(y: Synch, s: SemaId)
    requires WaitLists(y) && Waiters(y, s) != []
    ensures Waiters(y, s)[0] !in Waiters(y, s)[1..]
  {
  }

  // ----- locks -----

  /** Mutual exclusion, counted through the semaphore; a recorded holder is the owner. */
  lemma MutualExclusion(k: State, l: LockId, t: Tid, u: Tid)
    requires Reachable(k)
    ensures Value(k.sync, OfLock(l)) + |Owners(k.sync, l)| == 1
    ensures Critical(k.sync, t, l) && Critical(k.sync, u, l) ==> t == u
    ensures l in k.sync.holder ==> Owners(k.sync, l) == {k.sync.holder[l]}
  {
    ReachableInv(k);
    assert ExclusiveAt(k.sync, l);
    if Critical(k.sync, t, l) && Critical(k.sync, u, l) {
      OwnerIsUnique(k.sync, l, t, u);
    }
    if l in k.sync.holder {
      OwnerIsUnique(k.sync, l, k.sync.holder[l], k.sync.holder[l]);
    }
  }

  /** The queue of a condition variable is never worked on by two threads at once. */
  lemma QueueIsProtected(k: State, c: CondId, t: Tid, u: Tid)
    requires Reachable(k) && AtQueue(k.sync, t, c) && AtQueue(k.sync, u, c)
    ensures t == u && Holds(k.sync, c.lock, t)
  {
    hide Reachable, Sched, WaitLists, Fresh, Balanced, NoLostWakeup, Conds;
    ReachableInv(k);
    assert HolderMatches(k.sync, t, k.sync.pc[t]) && HolderMatches(k.sync, u, k.sync.pc[u]);
  }

  /** The next region of `t` reads or writes the queue of `c`. */
  predicate AtQueue(y: Synch, t: Tid, c: CondId) {
    t in y.pc && (y.pc[t] == Enqueue(c) || (y.pc[t].Signal? && y.pc[t].cond == c)
                  || (y.pc[t].Broadcast? && y.pc[t].cond == c))
  }

  // ----- condition variables -----

  /** An entry's token exists in at most one place; while it is queued or being posted,
      the waiter is still inside `cond_wait`, so its stack frame is alive. */
  lemma TokenInOnePlace(k: State, w: WaitId)
    requires Reachable(k) && w < k.sync.nextWaiter
    ensures One(IsQueued(k.sync, w)) + |Posters(k.sync, w)| + Value(k.sync, Private(w)) <= 1
    ensures IsQueued(k.sync, w) || Posters(k.sync, w) != {} || Value(k.sync, Private(w)) > 0 ==> IsWaiting(k.sync, w)
  {
    ReachableInv(k);
    assert ConservedAt(k.sync, w);
    assert Posters(k.sync, w) != {} ==> |Posters(k.sync, w)| > 0;
  }

  /** A signal that lands before the waiter sleeps is kept for it: the waiter is never
      left asleep with its token delivered, and its next test succeeds. */
  lemma SignalIsKept(k: State, w: WaitId)
    requires Reachable(k) && w < k.sync.nextWaiter && Value(k.sync, Private(w)) > 0
    ensures IsWaiting(k.sync, w) && Value(k.sync, Private(w)) == 1
    ensures var t := k.sync.hist.waiterOf[w];
      && t in k.status && (t in k.ready || t == k.cur)
      && (k.sync.pc[t].Sleep? ==> Region(k.sync, t).pc[t] == Acquire(k.sync.pc[t].lock, false))
  {
    hide Reachable, WaitLists, Fresh, Balanced, NoLostWakeup, Locks, Region, Sched;
    ReachableInv(k);
    assert ConservedAt(k.sync, w);
    hide ConservedAt;
    NotAsleepWithToken(k.sync, w);
    var t := k.sync.hist.waiterOf[w];
    assert EntryMatches(k.sync, t, k.sync.pc[t]);
    hide Conds;
    NotParked(k, t, w);
    if k.sync.pc[t].Sleep? {
      DownRegionIs(k.sync, t);
    }
  }

  /** A thread inside `cond_wait` that is on no wait list can run. */
  lemma NotParked(k: State, t: Tid, w: WaitId)
    requires Sched(k) && t in k.sync.pc && InWait(k.sync.pc[t], w) && Waiters(k.sync, Private(w)) == []
    ensures t in k.status && (t in k.ready || t == k.cur)
  {
    hide WaitLists, WaitersBlocked, Starting, NoDup;
    assert !IsIdlePc(k.sync.pc[t]) && !k.sync.pc[t].User?;
    assert !Parked(k.sync, t, k.sync.pc[t]);
  }

  lemma OneSleeper(y: Synch, w: WaitId, t: Tid, u: Tid)
    requires Conds(y) && t in y.pc && u in y.pc
    requires SleepsOn(y.pc[t]) == Some(Private(w)) && SleepsOn(y.pc[u]) == Some(Private(w))
    ensures t == u
  {
    assert EntryMatches(y, u, y.pc[u]) && EntryMatches(y, t, y.pc[t]);
  }

  lemma NotAsleepWithToken(y: Synch, w: WaitId)
    requires SynchInv(y) && Value(y, Private(w)) > 0
    ensures Waiters(y, Private(w)) == []
  {
    if Waiters(y, Private(w)) != [] {
      assert NoLostAt(y, Private(w));
      var u := NonEmptySet(Woken(y, Private(w)));
      var t := Waiters(y, Private(w))[0];
      assert t in y.waiters[Private(w)];
      OneSleeper(y, w, t, u);
    }
  }

  /** `lock_acquire`, `lock_try_acquire` and `cond_wait` return with the lock held. */
  lemma ReturnsHolding(k: State, l: LockId)
    requires Reachable(k) && PcOf(k, k.cur) == Hold(l) && Enabled(k, Advance)
    ensures Holds(Apply(k, Advance).sync, l, k.cur) && PcOf(Apply(k, Advance), k.cur).User?
    ensures Owners(Apply(k, Advance).sync, l) == {k.cur}
  {
    hide Reachable, Sched, WaitLists, Fresh, Balanced, NoLostWakeup, Conds, Locks;
    ReachableInv(k);
    ApplyKeeps(k, Advance);
    OwnerIsUnique(Apply(k, Advance).sync, l, k.cur, k.cur);
  }

  /** Inside `lock_acquire` on `l`, or inside a `cond_wait` that gives up `l` and takes it
      again. */
  predicate WillHold(p: Pc, l: LockId) {
    || (p.Enqueue? && p.cond.lock == l)
    || (p.Drop? && p.lock == l && p.wait.Some?)
    || (p.Release? && p.lock == l && p.wait.Some?)
    || (p.Sleep? && p.lock == l)
    || (p.Acquire? && p.lock == l)
    || p == Hold(l)
  }

  lemma WillHoldStep(y: Synch, t: Tid, l: LockId)
    requires t in y.pc && WillHold(y.pc[t], l)
    ensures t in Region(y, t).pc
    ensures WillHold(Region(y, t).pc[t], l) || (Region(y, t).pc[t].User? && Holds(Region(y, t), l, t))
  {
    hide Region, Raise, PushWaiter, Value;
    var p := y.pc[t];
    if p.Release? {
      UpRegionIs(y, t);
    } else if p.Sleep? || p.Acquire? {
      DownRegionIs(y, t);
      hide LocalEffect, LocalNext;
    } else {
      LocalRegionIs(y, t);
      hide PushEntry;
    }
  }

  lemma OthersKeepPc(y: Synch, m: Move, t: Tid)
    requires CanMove(y, m) && t in y.pc && !y.pc[t].User? && m != Do(t)
    ensures t in DoMove(y, m).pc && DoMove(y, m).pc[t] == y.pc[t]
  {
    hide Region, Value, Waiters, Entry;
    if m.Do? {
      OthersKeepPlace(y, m.thread, t);
    }
  }

  lemma WillHoldEvent(k: State, e: Event, t: Tid, l: LockId)
    requires Sched(k) && Enabled(k, e) && t in k.sync.pc && WillHold(k.sync.pc[t], l)
    ensures var y' := Apply(k, e).sync;
      t in y'.pc && (WillHold(y'.pc[t], l) || (y'.pc[t].User? && Holds(y', l, t)))
  {
    EventIsMove(k, e);
    hide Sched, Enabled, Apply, Region, Call, Raise;
    if MoveOf(k, e) == Some(Do(t)) {
      WillHoldStep(k.sync, t, l);
    } else if MoveOf(k, e).Some? {
      OthersKeepPc(k.sync, MoveOf(k, e).value, t);
    }
  }

  /** The run ends with the thread's first return to user code. */
  predicate FirstReturn(k: State, es: seq<Event>, t: Tid)
    requires Legal(k, es)
    decreases |es|
  {
    && es != []
    && if PcOf(Apply(k, es[0]), t).User? then |es| == 1 else FirstReturn(Apply(k, es[0]), es[1..], t)
  }

  /** Whatever happens between a thread's entry into `lock_acquire` or `cond_wait` and its
      return, it returns with the lock held, and it alone holds it. */
  lemma {:induction false} WaitReturnsHolding(k: State, es: seq<Event>, t: Tid, l: LockId)
    requires Inv(k) && Legal(k, es) && t in k.sync.pc && WillHold(k.sync.pc[t], l) && FirstReturn(k, es, t)
    ensures Holds(Run(k, es).sync, l, t) && Owners(Run(k, es).sync, l) == {t}
    decreases |es|
  {
    hide Sched, WaitLists, Fresh, Balanced, NoLostWakeup, Locks, Conds, Enabled, Apply, WillHold;
    var k' := Apply(k, es[0]);
    ApplyKeeps(k, es[0]);
    WillHoldEvent(k, es[0], t, l);
    if PcOf(k', t).User? {
      NotUser(PcOf(k', t), l);
      OwnerIsUnique(k'.sync, l, t, t);
      assert Run(k, es) == k';
    } else {
      WaitReturnsHolding(k', es[1..], t, l);
    }
  }

  lemma NotUser(p: Pc, l: LockId)
    ensures WillHold(p, l) ==> !p.User?
  {
  }

  /** Entries are signalled in the order of their arrival, each at most once. */
  lemma SignalledInOrder(k: State, c: CondId)
    requires Reachable(k)
    ensures Signalled(k.sync, c) <= Enqueued(k.sync, c)
    ensures Enqueued(k.sync, c) == Signalled(k.sync, c) + Queue(k.sync, c)
    ensures NoDup(Signalled(k.sync, c))
  {
    ReachableInv(k);
    assert FifoAt(k.sync, c);
  }

  // ----- broadcast -----

  lemma LocalGrowsEnqueued(y: Synch, t: Tid, p: Pc, c: CondId)
    ensures Enqueued(y, c) <= Enqueued(LocalEffect(y, t, p), c)
  {
  }

  lemma MoveGrowsEnqueued(y: Synch, m: Move, c: CondId)
    requires CanMove(y, m)
    ensures Enqueued(y, c) <= Enqueued(DoMove(y, m), c)
  {
    if m.Do? {
      LocalGrowsEnqueued(y, m.thread, y.pc[m.thread], c);
    }
  }

  lemma {:induction false} RunGrowsEnqueued(k: State, es: seq<Event>, c: CondId)
    requires Inv(k) && Legal(k, es)
    ensures Enqueued(k.sync, c) <= Enqueued(Run(k, es).sync, c)
    decreases |es|
  {
    if es != [] {
      ApplyKeeps(k, es[0]);
      EventIsMove(k, es[0]);
      if MoveOf(k, es[0]).Some? {
        MoveGrowsEnqueued(k.sync, MoveOf(k, es[0]).value, c);
      }
      RunGrowsEnqueued(Apply(k, es[0]), es[1..], c);
    }
  }

  lemma BroadcastDone(y: Synch, y2: Synch, t: Tid, c: CondId)
    requires FifoAt(y, c) && Conds(y2) && Enqueued(y, c) <= Enqueued(y2, c)
    requires t in y2.pc && y2.pc[t] == Broadcast(c, |Enqueued(y, c)|) && Queue(y2, c) == []
    ensures Signalled(y2, c) == Signalled(y, c) + Queue(y, c)
  {
    assert EntryMatches(y2, t, y2.pc[t]);
    assert FifoAt(y2, c);
  }

  /** When the loop of `cond_broadcast` ends, exactly the entries that were queued at the
      call have been signalled since. */
  lemma BroadcastSignalsAll(k: State, c: CondId, es: seq<Event>)
    requires Reachable(k) && Enabled(k, Begin(CondBroadcast(c)))
    requires Legal(Apply(k, Begin(CondBroadcast(c))), es)
    requires var k2 := Run(Apply(k, Begin(CondBroadcast(c))), es);
      PcOf(k2, k.cur) == Broadcast(c, |Enqueued(k.sync, c)|) && Queue(k2.sync, c) == []
    ensures var k2 := Run(Apply(k, Begin(CondBroadcast(c))), es);
      Signalled(k2.sync, c) == Signalled(k.sync, c) + Queue(k.sync, c)
  {
    ReachableInv(k);
    assert FifoAt(k.sync, c);
    var k1 := Apply(k, Begin(CondBroadcast(c)));
    ApplyKeeps(k, Begin(CondBroadcast(c)));
    RunKeeps(k1, es);
    RunGrowsEnqueued(k1, es, c);
    BroadcastDone(k.sync, Run(k1, es).sync, k.cur, c);
  }

  predicate InBroadcast(p: Pc, c: CondId) {
    || (p.Broadcast? && p.cond == c)
    || (p.Signal? && p.cond == c && p.upto.Some?)
    || (p.Post? && p.cond == c && p.upto.Some?)
  }

  /** What is left to do of a broadcast, in regions of its own thread. */
  function Left(y: Synch, p: Pc): nat {
    match p
    case Broadcast(c, _) => 3 * |Queue(y, c)| + 1
    case Signal(c, _) => 3 * |Queue(y, c)|
    case Post(_, c, _) => 3 * |Queue(y, c)| + 2
    case _ => 0
  }

  lemma OthersKeepQueue(y: Synch, u: Tid, c: CondId)
    requires u in y.pc && !AtQueue(y, u, c)
    ensures Queue(Region(y, u), c) == Queue(y, c)
  {
    hide Region, UpPlan, DownPlan, LocalNext, Value;
    var p := y.pc[u];
    if UpPlan(p).Some? {
      UpRegionIs(y, u);
    } else if DownPlan(p).Some? {
      DownRegionIs(y, u);
    } else {
      LocalRegionIs(y, u);
      LocalQueue(y, u, p, c);
    }
  }

  lemma LocalQueue(y: Synch, u: Tid, p: Pc, c: CondId)
    requires (p.Enqueue? || p.Signal?) ==> p.cond != c
    ensures Queue(LocalEffect(y, u, p), c) == Queue(y, c)
  {
    hide LocalEffect, Value;
    if p.TryDown? || p.TryAcquire? {
      LocalTry(y, u, p);
    } else if p.Enqueue? || p.Signal? {
      LocalEntry(y, u, p);
    } else {
      LocalHolder(y, u, p);
    }
  }

  lemma BroadcastRegion(y: Synch, t: Tid, c: CondId)
    requires t in y.pc && InBroadcast(y.pc[t], c) && EntryMatches(y, t, y.pc[t])
    ensures Region(y, t).pc[t].User? || (InBroadcast(Region(y, t).pc[t], c)
      && Left(Region(y, t), Region(y, t).pc[t]) < Left(y, y.pc[t]))
    ensures Region(y, t).pc[t].User? ==> y.pc[t].Broadcast? && Queue(y, c) == []
  {
    hide Region, Value;
    if y.pc[t].Post? {
      UpRegionIs(y, t);
      hide LocalEffect, LocalNext;
    } else {
      LocalRegionIs(y, t);
    }
  }

  lemma OthersLeaveBroadcast(y: Synch, m: Move, t: Tid, c: CondId)
    requires Locks(y) && CanMove(y, m) && t in y.pc && InBroadcast(y.pc[t], c) && m != Do(t)
    ensures t in DoMove(y, m).pc && DoMove(y, m).pc[t] == y.pc[t] && Queue(DoMove(y, m), c) == Queue(y, c)
  {
    hide Locks, Region, Value, InBroadcast;
    match m
    case Do(u) =>
      OthersOffQueue(y, t, u, c);
      OthersKeepQueue(y, u, c);
      OthersKeepPlace(y, u, t);
    case Invoke(_, _) => BroadcastIsBusy(y.pc[t], c);
    case _ =>
  }

  lemma BroadcastIsBusy(p: Pc, c: CondId)
    ensures InBroadcast(p, c) ==> !p.User?
  {
  }

  lemma LeftSame(y: Synch, y': Synch, p: Pc, c: CondId)
    requires InBroadcast(p, c) && Queue(y', c) == Queue(y, c)
    ensures Left(y', p) == Left(y, p)
  {
  }

  /** While a thread broadcasts, nobody else is at the queue. */
  lemma OthersOffQueue(y: Synch, t: Tid, u: Tid, c: CondId)
    requires Locks(y) && t in y.pc && u in y.pc && t != u && InBroadcast(y.pc[t], c)
    ensures !AtQueue(y, u, c)
  {
    hide ExclusiveAt;
    assert HolderMatches(y, t, y.pc[t]) && HolderMatches(y, u, y.pc[u]);
  }

  lemma OthersKeepPlace(y: Synch, u: Tid, t: Tid)
    requires u in y.pc && t in y.pc && u != t
    ensures t in Region(y, u).pc && Region(y, u).pc[t] == y.pc[t]
  {
    hide Region, UpPlan, DownPlan, LocalEffect, LocalNext, Value;
    if UpPlan(y.pc[u]).Some? {
      UpRegionIs(y, u);
    } else if DownPlan(y.pc[u]).Some? {
      DownRegionIs(y, u);
    } else {
      LocalRegionIs(y, u);
      LocalShape(y, u, y.pc[u]);
    }
  }

  /** A broadcast ends: every region of its own thread brings it closer to the end and
      nobody else touches the queue or its place in the code meanwhile. */
  lemma BroadcastAdvances(k: State, e: Event, t: Tid, c: CondId)
    requires Inv(k) && Enabled(k, e) && t in k.sync.pc && InBroadcast(k.sync.pc[t], c)
    ensures var y' := Apply(k, e).sync;
      && t in y'.pc
      && (MoveOf(k, e) == Some(Do(t)) ==>
            y'.pc[t].User? || (InBroadcast(y'.pc[t], c) && Left(y', y'.pc[t]) < Left(k.sync, k.sync.pc[t])))
      && (MoveOf(k, e) != Some(Do(t)) ==> y'.pc[t] == k.sync.pc[t] && Queue(y', c) == Queue(k.sync, c))
      && (MoveOf(k, e) != Some(Do(t)) ==> Left(y', y'.pc[t]) == Left(k.sync, k.sync.pc[t]))
  {
    hide Sched, WaitLists, Fresh, Balanced, NoLostWakeup, Locks, Apply, Region, EntryMatches, Enabled, Call, Raise;
    hide TryTake, InBroadcast, Awake;
    EventIsMove(k, e);
    if MoveOf(k, e) == Some(Do(t)) {
      assert EntryMatches(k.sync, t, k.sync.pc[t]);
      hide Conds;
      BroadcastRegion(k.sync, t, c);
      RegionKeepsThread(k.sync, t);
    } else if MoveOf(k, e).Some? {
      OthersLeaveBroadcast(k.sync, MoveOf(k, e).value, t, c);
      LeftSame(k.sync, Apply(k, e).sync, k.sync.pc[t], c);
    }
  }

  lemma RegionKeepsThread(y: Synch, t: Tid)
    requires t in y.pc
    ensures t in Region(y, t).pc
  {
    hide UpPlan, DownPlan, LocalEffect, LocalNext, Value;
  }

  /** The regions that thread `t` executes along a run. */
  function MovesBy(k: State, es: seq<Event>, t: Tid): nat
    requires Legal(k, es)
    decreases |es|
  {
    if es == [] then 0
    else One(MoveOf(k, es[0]) == Some(Do(t))) + MovesBy(Apply(k, es[0]), es[1..], t)
  }

  /** At some point of the run the thread is back in user code. */
  predicate Returns(k: State, es: seq<Event>, t: Tid)
    requires Legal(k, es)
    decreases |es|
  {
    PcOf(k, t).User? || (es != [] && Returns(Apply(k, es[0]), es[1..], t))
  }

  /** `cond_broadcast` ends: in every run in which its thread executes as many regions as
      are left, the thread returns. */
  lemma {:induction false} BroadcastEnds(k: State, es: seq<Event>, t: Tid, c: CondId)
    requires Inv(k) && Legal(k, es) && t in k.sync.pc && InBroadcast(k.sync.pc[t], c)
    requires MovesBy(k, es, t) > Left(k.sync, k.sync.pc[t])
    ensures Returns(k, es, t)
    decreases |es|
  {
    hide Sched, SynchInv, Enabled, Apply, Left;
    if es != [] {
      var k' := Apply(k, es[0]);
      ApplyKeeps(k, es[0]);
      BroadcastAdvances(k, es[0], t, c);
      if !PcOf(k', t).User? {
        BroadcastEnds(k', es[1..], t, c);
      }
    }
  }

  lemma LocalEnqueued(y: Synch, u: Tid, p: Pc, c: CondId)
    requires p.Enqueue? ==> p.cond != c
    ensures Enqueued(LocalEffect(y, u, p), c) == Enqueued(y, c)
  {
    hide LocalEffect, Value;
    if p.TryDown? || p.TryAcquire? {
      LocalTry(y, u, p);
    } else if p.Enqueue? || p.Signal? {
      LocalEntry(y, u, p);
    } else {
      LocalHolder(y, u, p);
    }
  }

  /** Only `cond_wait` adds an entry. */
  lemma RegionEnqueued(y: Synch, u: Tid, c: CondId)
    requires u in y.pc && y.pc[u] != Enqueue(c)
    ensures Enqueued(Region(y, u), c) == Enqueued(y, c)
  {
    hide Region, UpPlan, DownPlan, LocalNext, LocalEffect, Value;
    var p := y.pc[u];
    if UpPlan(p).Some? {
      UpRegionIs(y, u);
    } else if DownPlan(p).Some? {
      DownRegionIs(y, u);
    } else {
      LocalRegionIs(y, u);
      LocalEnqueued(y, u, p, c);
    }
  }

  /** The loop test that ends a broadcast finds an empty queue and signals nothing. */
  lemma LastTest(y: Synch, t: Tid, c: CondId)
    requires FifoAt(y, c) && t in y.pc && y.pc[t].Broadcast? && Queue(y, c) == []
    ensures Signalled(Region(y, t), c) == Enqueued(y, c)
  {
    hide Region, Value;
    LocalRegionIs(y, t);
  }

  /** During a broadcast no entry joins; when its thread returns, all have been signalled. */
  lemma BroadcastStep(k: State, e: Event, t: Tid, c: CondId)
    requires Inv(k) && Enabled(k, e) && t in k.sync.pc && InBroadcast(k.sync.pc[t], c)
    ensures var y' := Apply(k, e).sync;
      && t in y'.pc && (y'.pc[t].User? || InBroadcast(y'.pc[t], c))
      && (if y'.pc[t].User? then Signalled(y', c) == Enqueued(k.sync, c) else Enqueued(y', c) == Enqueued(k.sync, c))
  {
    hide Sched, SynchInv, Apply, Enabled, CanMove, DoMove, InBroadcast, Left, Queue, Enqueued, Signalled;
    BroadcastAdvances(k, e, t, c);
    BroadcastIsBusy(k.sync.pc[t], c);
    EventIsMove(k, e);
    if MoveOf(k, e).Some? {
      MoveInBroadcast(k.sync, MoveOf(k, e).value, t, c);
    }
  }

  lemma MoveInBroadcast(y: Synch, m: Move, t: Tid, c: CondId)
    requires SynchInv(y) && CanMove(y, m) && t in y.pc && InBroadcast(y.pc[t], c)
    ensures Enqueued(DoMove(y, m), c) == Enqueued(y, c)
    ensures m == Do(t) && t in DoMove(y, m).pc && DoMove(y, m).pc[t].User? ==>
      Signalled(DoMove(y, m), c) == Enqueued(y, c)
  {
    hide WaitLists, Fresh, Balanced, NoLostWakeup, Locks, Region, EntryMatches, FifoAt, InBroadcast, Allowed, Value;
    assert EntryMatches(y, t, y.pc[t]) && FifoAt(y, c);
    hide Conds;
    if m.Do? {
      StepInBroadcast(y, m.thread, t, c);
    }
  }

  lemma StepInBroadcast(y: Synch, u: Tid, t: Tid, c: CondId)
    requires Locks(y) && u in y.pc && t in y.pc && InBroadcast(y.pc[t], c)
    requires EntryMatches(y, t, y.pc[t]) && FifoAt(y, c)
    ensures Enqueued(Region(y, u), c) == Enqueued(y, c)
    ensures u == t && t in Region(y, t).pc && Region(y, t).pc[t].User? ==> Signalled(Region(y, t), c) == Enqueued(y, c)
  {
    hide Locks, Region, EntryMatches, FifoAt;
    if u != t {
      OthersOffQueue(y, t, u, c);
    }
    RegionEnqueued(y, u, c);
    if u == t {
      BroadcastRegion(y, t, c);
      RegionKeepsThread(y, t);
      if Region(y, t).pc[t].User? {
        LastTest(y, t, c);
      }
    }
  }

  lemma {:induction false} BroadcastRun(k: State, es: seq<Event>, t: Tid, c: CondId)
    requires Inv(k) && Legal(k, es) && t in k.sync.pc && InBroadcast(k.sync.pc[t], c) && FirstReturn(k, es, t)
    ensures Signalled(Run(k, es).sync, c) == Enqueued(k.sync, c)
    decreases |es|
  {
    hide Sched, SynchInv, Enabled, Apply, InBroadcast;
    var k' := Apply(k, es[0]);
    ApplyKeeps(k, es[0]);
    BroadcastStep(k, es[0], t, c);
    if PcOf(k', t).User? {
      assert Run(k, es) == k';
      BroadcastIsBusy(PcOf(k', t), c);
    } else {
      BroadcastRun(k', es[1..], t, c);
    }
  }

  /** From its call to its return, whatever happens meanwhile, `cond_broadcast` signals exactly
      the entries that were queued at the call. */
  lemma BroadcastReturns(k: State, c: CondId, es: seq<Event>)
    requires Reachable(k) && Enabled(k, Begin(CondBroadcast(c)))
    requires Legal(Apply(k, Begin(CondBroadcast(c))), es) && FirstReturn(Apply(k, Begin(CondBroadcast(c))), es, k.cur)
    ensures var k2 := Run(Apply(k, Begin(CondBroadcast(c))), es);
      Signalled(k2.sync, c) == Signalled(k.sync, c) + Queue(k.sync, c)
  {
    hide Reachable, Sched, WaitLists, Fresh, Balanced, NoLostWakeup, Locks;
    ReachableInv(k);
    assert FifoAt(k.sync, c);
    ApplyKeeps(k, Begin(CondBroadcast(c)));
    hide SynchInv, FifoAt;
    BroadcastRun(Apply(k, Begin(CondBroadcast(c))), es, k.cur, c);
  }

  // ----- no assertion fails -----

  /** What `sema_up` on `s` unblocks is a blocked thread. */
  predicate Unblockable(k: State, s: SemaId) {
    FirstWaiter(k.sync, s).Some? ==>
      var u := FirstWaiter(k.sync, s).value; u in k.status && k.status[u].Blocked?
  }

  /** The ASSERTs met inside the primitives and the scheduler, beyond those that check the
      caller: `thread_unblock` is applied to a blocked thread, `lock_release` inside
      `cond_wait` to a lock that is held, `lock_acquire` inside it to one that is not, and
      `cond_signal` inside `cond_broadcast` runs with the lock held. */
  predicate AssertionsHold(k: State, p: Pc) {
    && (UpPlan(p).Some? ==> Unblockable(k, UpPlan(p).value.sema))
    && (p.Start? ==> p.thread in k.status && k.status[p.thread].Blocked?)
    && (p.Drop? ==> Holds(k.sync, p.lock, k.cur))
    && (p.Sleep? || p.Acquire? || p.TryAcquire? ==> !Holds(k.sync, p.lock, k.cur))
    && (p.Signal? ==> Holds(k.sync, p.cond.lock, k.cur))
  }

  /** The same for `sema_up` in an interrupt handler, on any semaphore. */
  lemma HandlerUnblocks(k: State, s: SemaId)
    requires Sched(k)
    ensures Unblockable(k, s)
  {
  }

  lemma NoAssertionFails(k: State, s: SemaId)
    requires Reachable(k)
    ensures k.cur in k.sync.pc && AssertionsHold(k, k.sync.pc[k.cur])
    ensures Unblockable(k, s)
  {
    hide Reachable, WaitLists, Fresh, Balanced, NoLostWakeup, Conds, ExclusiveAt, Unblockable, UpPlan;
    ReachableInv(k);
    HandlerUnblocks(k, s);
    assert k.cur in k.sync.pc;
    var p := k.sync.pc[k.cur];
    assert HolderMatches(k.sync, k.cur, p);
    if p.Start? {
      StartFacts(k, p.thread);
    }
    hide Sched, Locks;
    if UpPlan(p).Some? {
      HandlerUnblocks(k, UpPlan(p).value.sema);
    }
  }

  /** The event calls `schedule`. */
  predicate Switches(k: State, e: Event)
    requires Enabled(k, e)
  {
    match e
    case Tick => k.ticks + 1 >= TIME_SLICE
    case Yield => true
    case Exit => true
    case Advance =>
      var p := k.sync.pc[k.cur];
      p.IdleLoop? || (DownPlan(p).Some? && Value(k.sync, DownPlan(p).value.sema) == 0)
    case _ => false
  }

  /** The state in which such an event calls `schedule`. */
  function AtSchedule(k: State, e: Event): State
    requires Enabled(k, e) && Switches(k, e)
  {
    match e
    case Exit => SetStatus(k, k.cur, Dying)
    case Advance => SetStatus(k.(sync := Region(k.sync, k.cur)), k.cur, Blocked)
    case _ => Yielding(k)
  }

  lemma AtScheduleShape(k: State, e: Event)
    requires Enabled(k, e) && Switches(k, e)
    ensures Apply(k, e) == Schedule(AtSchedule(k, e))
  {
  }

  lemma AsleepShape(k: State)
    requires Enabled(k, Advance) && Switches(k, Advance) && !k.sync.pc[k.cur].IdleLoop?
    ensures AtSchedule(k, Advance) == Asleep(k, DownPlan(k.sync.pc[k.cur]).value)
  {
  }

  lemma BlockingLeaves(k: State)
    requires Sched(k) && Enabled(k, Advance) && Switches(k, Advance)
    ensures Leaving(AtSchedule(k, Advance))
  {
    hide Sched, Leaving, Value, Schedule;
    var p := k.sync.pc[k.cur];
    if p.IdleLoop? {
      LocalKeeps(k, p);
      IdleBlockKeeps(k.(sync := Region(k.sync, k.cur)));
    } else {
      AsleepShape(k);
      hide AtSchedule, Region, Asleep;
      SleepKeeps(k, DownPlan(p).value);
    }
  }

  lemma AtScheduleLeaves(k: State, e: Event)
    requires Sched(k) && Enabled(k, e) && Switches(k, e)
    ensures Leaving(AtSchedule(k, e)) && Apply(k, e) == Schedule(AtSchedule(k, e))
  {
    hide Sched, Leaving, Apply, Schedule, Region, Value, DownPlan;
    AtScheduleShape(k, e);
    SchedTicks(k);
    match e
    case Exit => ExitKeeps(k);
    case Advance => BlockingLeaves(k);
    case _ => YieldKeeps(k);
  }

  /** `schedule` always finds a thread: when the ready list is empty, `idle_thread` has
      been recorded; and a thread that exits is not the one chosen. */
  lemma ScheduleFindsThread(k: State, e: Event)
    requires Reachable(k) && Enabled(k, e) && Switches(k, e)
    ensures Apply(k, e) == Schedule(AtSchedule(k, e))
    ensures AtSchedule(k, e).ready != [] || AtSchedule(k, e).idle == Some(IDLE)
    ensures NextThread(AtSchedule(k, e)) in k.status
    ensures e.Exit? ==> NextThread(AtSchedule(k, e)) != k.cur
  {
    ReachableInv(k);
    AtScheduleLeaves(k, e);
    NextThreadExists(AtSchedule(k, e));
  }

  // ----- bounded waiting -----

  /** How long a ready thread may still wait: its position counts in time slices. */
  function Delay(k: State, p: nat): int { p * TIME_SLICE + (TIME_SLICE - k.ticks) }

  predicate Charged(k: State, e: Event)
    requires Enabled(k, e)
  {
    e.Tick? || Switches(k, e)
  }

  lemma UnchargedKeepsPlace(k: State, e: Event, p: nat)
    requires Sched(k) && Enabled(k, e) && !Switches(k, e) && p < |k.ready|
    ensures var k' := Apply(k, e);
      p < |k'.ready| && k'.ready[p] == k.ready[p] && k'.ticks == k.ticks + (if e.Tick? then 1 else 0)
  {
    hide Sched, Region, Call, Raise, TryTake, Schedule, UpPlan, DownPlan, Value, Waiters;
  }

  lemma SwitchAdvances(k: State, m: State, p: nat)
    requires p < |k.ready| && k.ready <= m.ready
    ensures p == 0 ==> Schedule(m).cur == k.ready[p]
    ensures p > 0 ==> p - 1 < |Schedule(m).ready| && Schedule(m).ready[p - 1] == k.ready[p]
    ensures Schedule(m).ticks == 0
  {
  }

  lemma ReadyAtSchedule(k: State, e: Event)
    requires Enabled(k, e) && Switches(k, e)
    ensures k.ready <= AtSchedule(k, e).ready
  {
    hide Region, Value, DownPlan;
  }

  /** Every tick and every switch brings a ready thread nearer to the processor. */
  lemma DelayDecreases(k: State, e: Event, p: nat)
    requires Sched(k) && Enabled(k, e) && p < |k.ready|
    ensures var k' := Apply(k, e);
      || k'.cur == k.ready[p]
      || exists q: nat :: q < |k'.ready| && k'.ready[q] == k.ready[p]
           && Delay(k', q) + One(Charged(k, e)) <= Delay(k, p)
  {
    assert k.ticks < TIME_SLICE;
    hide Sched, Leaving, Apply, Schedule, Enabled, Switches;
    var k' := Apply(k, e);
    if Switches(k, e) {
      AtScheduleLeaves(k, e);
      ReadyAtSchedule(k, e);
      SwitchAdvances(k, AtSchedule(k, e), p);
      if p > 0 {
        assert k'.ready[p - 1] == k.ready[p] && Delay(k', p - 1) + One(Charged(k, e)) <= Delay(k, p);
      }
    } else {
      UnchargedKeepsPlace(k, e, p);
      assert k'.ready[p] == k.ready[p] && Delay(k', p) + One(Charged(k, e)) <= Delay(k, p);
    }
  }

  /** Timer ticks and switches along a run. */
  function Charges(k: State, es: seq<Event>): nat
    requires Legal(k, es)
    decreases |es|
  {
    if es == [] then 0 else One(Charged(k, es[0])) + Charges(Apply(k, es[0]), es[1..])
  }

  /** The thread gets the processor at some point of the run. */
  predicate GetsProcessor(k: State, es: seq<Event>, t: Tid)
    requires Legal(k, es)
    decreases |es|
  {
    k.cur == t || (es != [] && GetsProcessor(Apply(k, es[0]), es[1..], t))
  }

  /** Bounded waiting under round robin: in any run with that many ticks and switches,
      the thread at position p of the ready list is dispatched. */
  lemma {:induction false} BoundedWaiting(k: State, es: seq<Event>, p: nat)
    requires Sched(k) && Legal(k, es) && p < |k.ready|
    requires Charges(k, es) >= Delay(k, p)
    ensures GetsProcessor(k, es, k.ready[p])
    decreases |es|
  {
    if es != [] {
      var k' := Apply(k, es[0]);
      ApplyKeepsSched(k, es[0]);
      DelayDecreases(k, es[0], p);
      if k'.cur != k.ready[p] {
        var q: nat :| q < |k'.ready| && k'.ready[q] == k.ready[p]
                      && Delay(k', q) + One(Charged(k, es[0])) <= Delay(k, p);
        BoundedWaiting(k', es[1..], q);
      }
    }
  }
}
