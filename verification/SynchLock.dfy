/** Locks over every interleaving: at most one thread is between the decrement in
    `lock_acquire` and the increment in `lock_release`, although `holder` is stored
    after the one and cleared before the other. */
module SynchLock {
  import opened Basics
  import opened SynchModel

  /** Thread `t` is between the decrement and the increment of the semaphore of `l`. */
  predicate Critical(y: Synch, t: Tid, l: LockId) {
    t in y.pc && (Holds(y, l, t) || y.pc[t] == Hold(l) || (y.pc[t].Release? && y.pc[t].lock == l))
  }

  function Owners(y: Synch, l: LockId): set<Tid> {
    set t | t in y.pc && Critical(y, t, l)
  }

  /** A lock is free, or has one owner. */
  predicate ExclusiveAt(y: Synch, l: LockId) {
    Value(y, OfLock(l)) + |Owners(y, l)| == 1
  }

  /** What a thread's place in the code says about `holder`. */
  predicate HolderMatches(y: Synch, t: Tid, p: Pc) {
    match p
    case Drop(l, _) => Holds(y, l, t)
    case Enqueue(c) => Holds(y, c.lock, t)
    case Signal(c, _) => Holds(y, c.lock, t)
    case Post(_, c, _) => Holds(y, c.lock, t)
    case Broadcast(c, _) => Holds(y, c.lock, t)
    case Acquire(l, _) => !Holds(y, l, t)
    case TryAcquire(l) => !Holds(y, l, t)
    case Hold(l) => !Holds(y, l, t)
    case Release(l, _) => !Holds(y, l, t)
    case Sleep(_, l, _) => !Holds(y, l, t)
    case _ => true
  }

  ghost predicate Locks(y: Synch) {
    && (forall l :: ExclusiveAt(y, l))
    && (forall t :: t in y.pc ==> HolderMatches(y, t, y.pc[t]))
    && (forall l :: l in y.holder ==> y.holder[l] in y.pc)
  }

  // ----- consequences -----

  lemma SetOfOne<T>(s: set<T>, a: T, b: T)
    requires |s| <= 1 && a in s && b in s
    ensures a == b
  {
    assert |s - {a}| == |s| - 1;
  }

  /** Mutual exclusion. */
  lemma OwnerIsUnique(y: Synch, l: LockId, t: Tid, u: Tid)
    requires Locks(y) && Critical(y, t, l) && Critical(y, u, l)
    ensures t == u && Owners(y, l) == {t} && Value(y, OfLock(l)) == 0
  {
    assert ExclusiveAt(y, l);
    SetOfOne(Owners(y, l), t, u);
    forall x | x in Owners(y, l) ensures x == t {
      SetOfOne(Owners(y, l), t, x);
    }
    assert Owners(y, l) == {t};
  }

  /** A free lock has no owner and no recorded holder. */
  lemma FreeLock(y: Synch, l: LockId)
    requires Locks(y) && Value(y, OfLock(l)) > 0
    ensures Owners(y, l) == {} && l !in y.holder && Value(y, OfLock(l)) == 1
  {
    assert ExclusiveAt(y, l);
    if l in y.holder {
      OwnerIsUnique(y, l, y.holder[l], y.holder[l]);
    }
  }

  // ----- every move keeps the locks -----

  predicate Quiet(p: Pc) { !p.Hold? && !p.Release? }

  /** A step of one thread that leaves `holder` alone. */
  lemma SameHolders(y: Synch, y': Synch, t: Tid, p: Pc)
    requires Locks(y) && HolderMatches(y, t, p) && y'.holder == y.holder && y'.pc == y.pc[t := p]
    ensures forall u :: u in y'.pc ==> HolderMatches(y', u, y'.pc[u])
    ensures forall l :: l in y'.holder ==> y'.holder[l] in y'.pc
  {
    hide ExclusiveAt;
    forall u | u in y'.pc ensures HolderMatches(y', u, y'.pc[u]) {
      assert u != t ==> HolderMatches(y, u, y.pc[u]);
    }
  }

  /** A step that changes no lock. */
  lemma QuietMove(y: Synch, y': Synch, t: Tid, p: Pc)
    requires Locks(y) && Quiet(p) && (t in y.pc ==> Quiet(y.pc[t])) && HolderMatches(y, t, p)
    requires y'.holder == y.holder && y'.pc == y.pc[t := p]
    requires forall l :: Value(y', OfLock(l)) == Value(y, OfLock(l))
    ensures Locks(y')
  {
    SameHolders(y, y', t, p);
    hide HolderMatches, Value;
    forall l ensures ExclusiveAt(y', l) {
      assert ExclusiveAt(y, l);
      assert Owners(y', l) == Owners(y, l);
    }
  }

  /** The decrement in `lock_acquire`. */
  lemma TakeLock(y: Synch, t: Tid, l: LockId)
    requires Locks(y) && t in y.pc && Quiet(y.pc[t]) && Value(y, OfLock(l)) > 0
    ensures Locks(At(Take(y, OfLock(l)), t, Hold(l)))
  {
    var y' := At(Take(y, OfLock(l)), t, Hold(l));
    FreeLock(y, l);
    SameHolders(y, y', t, Hold(l));
    hide HolderMatches, Owners;
    forall m ensures ExclusiveAt(y', m) {
      assert ExclusiveAt(y, m);
      TakeOwners(y, y', t, l, m);
    }
  }

  lemma TakeOwners(y: Synch, y': Synch, t: Tid, l: LockId, m: LockId)
    requires t in y.pc && Quiet(y.pc[t]) && y'.holder == y.holder && y'.pc == y.pc[t := Hold(l)]
    ensures Owners(y', m) == if m == l then Owners(y, m) + {t} else Owners(y, m)
  {
  }

  /** Storing `holder`. */
  lemma StoreHolder(y: Synch, t: Tid, l: LockId)
    requires Locks(y) && t in y.pc && y.pc[t] == Hold(l)
    ensures Locks(At(y.(holder := y.holder[l := t]), t, User))
  {
    var y' := At(y.(holder := y.holder[l := t]), t, User);
    NoHolder(y, t, l);
    hide Value;
    forall m ensures ExclusiveAt(y', m) {
      assert ExclusiveAt(y, m);
      StoreOwners(y, y', t, l, m);
    }
    hide ExclusiveAt;
    forall u | u in y'.pc ensures HolderMatches(y', u, y'.pc[u]) {
      assert u != t ==> HolderMatches(y, u, y.pc[u]) && !Critical(y, u, l);
    }
  }

  lemma StoreOwners(y: Synch, y': Synch, t: Tid, l: LockId, m: LockId)
    requires t in y.pc && y.pc[t] == Hold(l) && l !in y.holder
    requires y'.holder == y.holder[l := t] && y'.pc == y.pc[t := User]
    ensures Owners(y', m) == Owners(y, m)
  {
  }

  /** Until it is stored, the lock has no recorded holder, and nobody else is inside. */
  lemma NoHolder(y: Synch, t: Tid, l: LockId)
    requires Locks(y) && t in y.pc && y.pc[t] == Hold(l)
    ensures l !in y.holder && forall u :: u in y.pc && u != t ==> !Critical(y, u, l)
  {
    hide Value;
    OwnerIsUnique(y, l, t, t);
    forall u | u in y.pc && u != t ensures !Critical(y, u, l) {
      assert u !in Owners(y, l);
    }
    assert HolderMatches(y, t, y.pc[t]);
    assert l in y.holder ==> Critical(y, y.holder[l], l);
  }

  /** Clearing `holder`. */
  lemma ClearHolder(y: Synch, t: Tid, l: LockId, w: Option<WaitId>)
    requires Locks(y) && t in y.pc && y.pc[t] == Drop(l, w)
    ensures Locks(At(y.(holder := y.holder - {l}), t, Release(l, w)))
  {
    var y' := At(y.(holder := y.holder - {l}), t, Release(l, w));
    forall m ensures ExclusiveAt(y', m) {
      assert ExclusiveAt(y, m);
      assert Owners(y', m) == Owners(y, m);
    }
    forall u | u in y'.pc ensures HolderMatches(y', u, y'.pc[u]) {
      assert u != t ==> HolderMatches(y, u, y.pc[u]);
    }
  }

  /** The increment in `lock_release`. */
  lemma RaiseLock(y: Synch, t: Tid, l: LockId, w: Option<WaitId>, p: Pc)
    requires Locks(y) && t in y.pc && y.pc[t] == Release(l, w) && (p.User? || (p.Sleep? && p.lock == l))
    ensures Locks(At(Raise(y, OfLock(l)), t, p))
  {
    var y' := At(Raise(y, OfLock(l)), t, p);
    OwnerIsUnique(y, l, t, t);
    assert HolderMatches(y, t, y.pc[t]);
    SameHolders(y, y', t, p);
    hide HolderMatches, Owners;
    forall m ensures ExclusiveAt(y', m) {
      assert ExclusiveAt(y, m);
      RaiseOwners(y, y', t, l, w, p, m);
    }
  }

  lemma RaiseOwners(y: Synch, y': Synch, t: Tid, l: LockId, w: Option<WaitId>, p: Pc, m: LockId)
    requires t in y.pc && y.pc[t] == Release(l, w) && Quiet(p) && y'.holder == y.holder && y'.pc == y.pc[t := p]
    requires !Holds(y, l, t)
    ensures Owners(y', m) == if m == l then Owners(y, m) - {t} else Owners(y, m)
  {
  }

  lemma UpLocks(y: Synch, t: Tid, plan: Plan)
    requires Locks(y) && t in y.pc && UpPlan(y.pc[t]) == Some(plan)
    ensures Locks(At(Raise(y, plan.sema), t, plan.next))
  {
    if y.pc[t].Release? {
      RaiseLock(y, t, y.pc[t].lock, y.pc[t].wait, plan.next);
    } else {
      assert HolderMatches(y, t, y.pc[t]);
      QuietMove(y, At(Raise(y, plan.sema), t, plan.next), t, plan.next);
    }
  }

  lemma DownLocks(y: Synch, t: Tid, plan: Plan)
    requires Locks(y) && t in y.pc && DownPlan(y.pc[t]) == Some(plan)
    ensures Locks(DownRegion(y, t, plan))
  {
    assert HolderMatches(y, t, y.pc[t]);
    if Value(y, plan.sema) == 0 {
      QuietMove(y, DownRegion(y, t, plan), t, plan.asleep);
    } else if y.pc[t].Acquire? {
      TakeLock(y, t, y.pc[t].lock);
    } else {
      QuietMove(y, DownRegion(y, t, plan), t, plan.next);
    }
  }

  predicate TouchesLock(p: Pc) { p.TryAcquire? || p.Hold? || p.Drop? }

  lemma LocalSame(y: Synch, t: Tid, p: Pc)
    requires !TouchesLock(p)
    ensures LocalEffect(y, t, p).holder == y.holder && LocalEffect(y, t, p).pc == y.pc
    ensures forall l :: Value(LocalEffect(y, t, p), OfLock(l)) == Value(y, OfLock(l))
  {
  }

  lemma LocalNextHolder(y: Synch, t: Tid, p: Pc)
    requires UpPlan(p).None? && DownPlan(p).None? && !TouchesLock(p) && HolderMatches(y, t, p)
    ensures HolderMatches(y, t, LocalNext(y, p)) && Quiet(LocalNext(y, p)) && Quiet(p)
  {
  }

  lemma LocalLocks(y: Synch, t: Tid, p: Pc)
    requires Locks(y) && t in y.pc && y.pc[t] == p && UpPlan(p).None? && DownPlan(p).None?
    ensures Locks(At(LocalEffect(y, t, p), t, LocalNext(y, p)))
  {
    assert HolderMatches(y, t, p);
    if TouchesLock(p) {
      OwnLocks(y, t, p);
    } else {
      hide Locks, HolderMatches, Value, LocalEffect, LocalNext, UpPlan, DownPlan;
      LocalSame(y, t, p);
      LocalNextHolder(y, t, p);
      QuietMove(y, At(LocalEffect(y, t, p), t, LocalNext(y, p)), t, LocalNext(y, p));
    }
  }

  lemma OwnLocks(y: Synch, t: Tid, p: Pc)
    requires Locks(y) && t in y.pc && y.pc[t] == p && TouchesLock(p)
    ensures Locks(At(LocalEffect(y, t, p), t, LocalNext(y, p)))
  {
    hide Locks;
    match p
    case TryAcquire(l) =>
      if Value(y, OfLock(l)) > 0 { TakeLock(y, t, l); } else { QuietMove(y, At(y, t, User), t, User); }
    case Hold(l) => StoreHolder(y, t, l);
    case Drop(l, w) => ClearHolder(y, t, l, w);
  }

  lemma RegionLocks(y: Synch, t: Tid)
    requires Locks(y) && t in y.pc
    ensures Locks(Region(y, t))
  {
    hide Locks, Region, UpPlan, DownPlan, DownRegion, LocalEffect, LocalNext, Value;
    var p := y.pc[t];
    if UpPlan(p).Some? {
      UpRegionIs(y, t);
      UpLocks(y, t, UpPlan(p).value);
    } else if DownPlan(p).Some? {
      DownRegionIs(y, t);
      DownLocks(y, t, DownPlan(p).value);
    } else {
      LocalRegionIs(y, t);
      LocalLocks(y, t, p);
    }
  }

  lemma CallLocks(y: Synch, t: Tid, op: Op)
    requires Locks(y) && t in y.pc && y.pc[t].User? && Allowed(y, t, op)
    ensures Locks(Call(y, t, op))
  {
    hide Locks;
    if op.ThreadCreate? {
      QuietMove(y, At(y, op.thread, Born(None)), op.thread, Born(None));
      QuietMove(At(y, op.thread, Born(None)), Call(y, t, op), t, Start(op.thread));
    } else {
      QuietMove(y, Call(y, t, op), t, Entry(y, op));
    }
  }

  lemma MoveKeepsLocks(y: Synch, m: Move)
    requires Locks(y) && CanMove(y, m)
    ensures Locks(DoMove(y, m))
  {
    hide Locks, Region, Call, Allowed;
    match m
    case IntrUp(id) => IntrLocks(y, Raise(y, Plain(id)));
    case IntrTryDown(id) => IntrLocks(y, TryTake(y, Plain(id)));
    case Invoke(t, op) => CallLocks(y, t, op);
    case Do(t) => RegionLocks(y, t);
  }

  lemma IntrLocks(y: Synch, y': Synch)
    requires Locks(y) && y'.holder == y.holder && y'.pc == y.pc
    requires forall l :: Value(y', OfLock(l)) == Value(y, OfLock(l))
    ensures Locks(y')
  {
    forall l ensures ExclusiveAt(y', l) {
      assert ExclusiveAt(y, l);
      assert Owners(y', l) == Owners(y, l);
    }
    forall u | u in y'.pc ensures HolderMatches(y', u, y'.pc[u]) {
      assert HolderMatches(y, u, y.pc[u]);
    }
  }
}
