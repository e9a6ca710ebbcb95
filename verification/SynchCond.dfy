/** Condition variables over every interleaving: every entry of `cond_wait` is worth
    exactly one token, which is on the queue, in the hands of a signaller or in the
    private semaphore until the waiter takes it; entries are signalled in order. */
module SynchCond {
  import opened Basics
  import opened SynchModel
  import opened SynchSema
  import opened SynchLock

  /** A thread at `p` is inside `cond_wait` with entry `w` and has not got its token. */
  predicate InWait(p: Pc, w: WaitId) { EntryOf(p) == Some(w) && !p.Post? }

  /** Threads that popped `w` and are about to raise its semaphore. */
  function Posters(y: Synch, w: WaitId): set<Tid> {
    set t | t in y.pc && y.pc[t].Post? && y.pc[t].waiter == w
  }

  predicate IsQueued(y: Synch, w: WaitId) {
    w in y.hist.condOf && w in Queue(y, y.hist.condOf[w])
  }

  predicate IsWaiting(y: Synch, w: WaitId) {
    w in y.hist.waiterOf && y.hist.waiterOf[w] in y.pc && InWait(y.pc[y.hist.waiterOf[w]], w)
  }

  function One(b: bool): nat { if b then 1 else 0 }

  /** The token of entry `w` is in exactly one place until the waiter takes it. */
  predicate ConservedAt(y: Synch, w: WaitId) {
    One(IsQueued(y, w)) + |Posters(y, w)| + Value(y, Private(w)) == One(IsWaiting(y, w))
  }

  /** Entries leave in the order in which they came, each once. */
  predicate FifoAt(y: Synch, c: CondId) {
    && Enqueued(y, c) == Signalled(y, c) + Queue(y, c)
    && NoDup(Enqueued(y, c))
    && forall w :: w in Enqueued(y, c) ==> w < y.nextWaiter && w in y.hist.condOf && y.hist.condOf[w] == c
  }

  predicate MarkMatches(y: Synch, c: CondId, upto: Option<nat>) {
    upto.Some? ==> upto.value == |Enqueued(y, c)|
  }

  /** What a thread's place in the code says about the entry it is concerned with. */
  predicate EntryMatches(y: Synch, t: Tid, p: Pc) {
    match p
    case Drop(l, Some(w)) => EntryOwned(y, t, w, l)
    case Release(l, Some(w)) => EntryOwned(y, t, w, l)
    case Sleep(w, l, _) => EntryOwned(y, t, w, l)
    case Post(w, c, upto) => w < y.nextWaiter && MarkMatches(y, c, upto)
    case Signal(c, upto) => MarkMatches(y, c, upto) && (upto.Some? ==> Queue(y, c) != [])
    case Broadcast(c, mark) => MarkMatches(y, c, Some(mark))
    case _ => true
  }

  predicate EntryOwned(y: Synch, t: Tid, w: WaitId, l: LockId) {
    && w < y.nextWaiter
    && w in y.hist.waiterOf && y.hist.waiterOf[w] == t
    && w in y.hist.condOf && y.hist.condOf[w].lock == l
  }

  ghost predicate Conds(y: Synch) {
    && (forall w: WaitId :: w < y.nextWaiter ==> ConservedAt(y, w))
    && (forall c :: FifoAt(y, c))
    && (forall t :: t in y.pc ==> EntryMatches(y, t, y.pc[t]))
  }

  // ----- every move keeps the conditions -----

  predicate SameConds(y: Synch, y': Synch) {
    && y'.queue == y.queue && y'.nextWaiter == y.nextWaiter
    && y'.hist.enqueued == y.hist.enqueued && y'.hist.signalled == y.hist.signalled
    && y'.hist.waiterOf == y.hist.waiterOf && y'.hist.condOf == y.hist.condOf
  }

  /** A step of a thread that stays with the same entry, if any. */
  lemma QuietConds(y: Synch, y': Synch, t: Tid, p: Pc)
    requires Conds(y) && SameConds(y, y') && y'.pc == y.pc[t := p]
    requires forall w: WaitId :: Value(y', Private(w)) == Value(y, Private(w))
    requires EntryMatches(y, t, p) && !p.Post?
    requires if t in y.pc then EntryOf(p) == EntryOf(y.pc[t]) && !y.pc[t].Post? else EntryOf(p).None?
    ensures Conds(y')
  {
    forall w: WaitId | w < y'.nextWaiter ensures ConservedAt(y', w) {
      assert ConservedAt(y, w);
      assert Posters(y', w) == Posters(y, w);
      assert IsWaiting(y', w) == IsWaiting(y, w);
    }
    forall c ensures FifoAt(y', c) {
      assert FifoAt(y, c);
    }
    forall u | u in y'.pc ensures EntryMatches(y', u, y'.pc[u]) {
      assert u != t ==> EntryMatches(y, u, y.pc[u]);
    }
  }

  lemma IntrConds(y: Synch, y': Synch)
    requires Conds(y) && SameConds(y, y') && y'.pc == y.pc
    requires forall w: WaitId :: Value(y', Private(w)) == Value(y, Private(w))
    ensures Conds(y')
  {
    forall w: WaitId | w < y'.nextWaiter ensures ConservedAt(y', w) {
      assert ConservedAt(y, w);
      assert Posters(y', w) == Posters(y, w);
    }
    forall c ensures FifoAt(y', c) {
      assert FifoAt(y, c);
    }
    forall u | u in y'.pc ensures EntryMatches(y', u, y'.pc[u]) {
      assert EntryMatches(y, u, y.pc[u]);
    }
  }

  lemma PlainConds(y: Synch, id: nat)
    requires Conds(y)
    ensures Conds(Raise(y, Plain(id))) && Conds(TryTake(y, Plain(id)))
  {
    hide Conds;
    IntrConds(y, Raise(y, Plain(id)));
    IntrConds(y, TryTake(y, Plain(id)));
  }

  /** `sema_up` on the private semaphore hands the token over. */
  lemma PostConds(y: Synch, t: Tid, w0: WaitId, c0: CondId, upto: Option<nat>)
    requires Conds(y) && t in y.pc && y.pc[t] == Post(w0, c0, upto)
    ensures Conds(At(Raise(y, Private(w0)), t, AfterSignal(c0, upto)))
  {
    var y' := At(Raise(y, Private(w0)), t, AfterSignal(c0, upto));
    assert EntryMatches(y, t, y.pc[t]);
    forall w: WaitId | w < y'.nextWaiter ensures ConservedAt(y', w) {
      assert ConservedAt(y, w);
      PostConserves(y, t, w0, c0, upto, w);
    }
    forall c ensures FifoAt(y', c) {
      assert FifoAt(y, c);
    }
    forall u | u in y'.pc ensures EntryMatches(y', u, y'.pc[u]) {
      assert u != t ==> EntryMatches(y, u, y.pc[u]);
    }
  }

  lemma PostConserves(y: Synch, t: Tid, w0: WaitId, c0: CondId, upto: Option<nat>, w: WaitId)
    requires t in y.pc && y.pc[t] == Post(w0, c0, upto) && ConservedAt(y, w)
    ensures ConservedAt(At(Raise(y, Private(w0)), t, AfterSignal(c0, upto)), w)
  {
    var y' := At(Raise(y, Private(w0)), t, AfterSignal(c0, upto));
    SameWaiting(y, y', t, w);
    hide IsWaiting, InWait;
    assert Posters(y', w) == if w == w0 then Posters(y, w) - {t} else Posters(y, w);
    assert w == w0 ==> t in Posters(y, w);
  }

  /** The waiter takes its token. */
  lemma TakeConds(y: Synch, t: Tid, w0: WaitId, l: LockId, slept: bool)
    requires Conds(y) && t in y.pc && y.pc[t] == Sleep(w0, l, slept) && Value(y, Private(w0)) > 0
    ensures Conds(At(Take(y, Private(w0)), t, Acquire(l, false)))
  {
    var y' := At(Take(y, Private(w0)), t, Acquire(l, false));
    assert EntryMatches(y, t, y.pc[t]);
    forall w: WaitId | w < y'.nextWaiter ensures ConservedAt(y', w) {
      assert ConservedAt(y, w);
      assert Posters(y', w) == Posters(y, w);
      assert IsWaiting(y', w) == (w != w0 && IsWaiting(y, w));
    }
    forall c ensures FifoAt(y', c) {
      assert FifoAt(y, c);
    }
    forall u | u in y'.pc ensures EntryMatches(y', u, y'.pc[u]) {
      assert u != t ==> EntryMatches(y, u, y.pc[u]);
    }
  }

  function Joined(y: Synch, t: Tid, c0: CondId): Synch {
    At(PushEntry(y, c0, t), t, Drop(c0.lock, Some(y.nextWaiter)))
  }

  /** A thread joins the queue. */
  lemma EnqueueConds(y: Synch, t: Tid, c0: CondId)
    requires Conds(y) && Fresh(y) && Locks(y) && t in y.pc && y.pc[t] == Enqueue(c0)
    ensures Conds(Joined(y, t, c0))
  {
    var y' := Joined(y, t, c0);
    forall w: WaitId | w < y'.nextWaiter ensures ConservedAt(y', w) {
      if w == y.nextWaiter {
        NewEntryConserves(y, t, c0);
      } else {
        assert ConservedAt(y, w);
        OldEntryConserves(y, t, c0, w);
      }
    }
    forall c ensures FifoAt(y', c) {
      assert FifoAt(y, c);
      EnqueueFifo(y, t, c0, c);
    }
    forall u | u in y'.pc ensures EntryMatches(y', u, y'.pc[u]) {
      EnqueueEntries(y, t, c0, u);
    }
  }

  lemma EnqueueFifo(y: Synch, t: Tid, c0: CondId, c: CondId)
    requires FifoAt(y, c)
    ensures FifoAt(Joined(y, t, c0), c)
  {
    if c == c0 {
      PushNoDup(Enqueued(y, c), y.nextWaiter);
    }
  }

  lemma NewEntryConserves(y: Synch, t: Tid, c0: CondId)
    requires Fresh(y) && t in y.pc && y.pc[t] == Enqueue(c0)
    ensures ConservedAt(Joined(y, t, c0), y.nextWaiter)
  {
    var y', w := Joined(y, t, c0), y.nextWaiter;
    NoPosters(y, w);
    hide Fresh;
    assert Posters(y', w) == Posters(y, w);
    assert IsQueued(y', w) && IsWaiting(y', w) && Value(y', Private(w)) == 0;
  }

  lemma NoPosters(y: Synch, w: WaitId)
    requires Fresh(y) && y.nextWaiter <= w
    ensures Posters(y, w) == {}
  {
    assert forall u :: u in y.pc && EntryOf(y.pc[u]).Some? ==> EntryOf(y.pc[u]).value < y.nextWaiter;
  }

  /** A thread that is concerned with no entry before the step, or with the same, changes no wait. */
  lemma SameWaiting(y: Synch, y': Synch, t: Tid, w: WaitId)
    requires t in y.pc && t in y'.pc && y'.pc == y.pc[t := y'.pc[t]] && InWait(y'.pc[t], w) == InWait(y.pc[t], w)
    requires w in y'.hist.waiterOf <==> w in y.hist.waiterOf
    requires w in y.hist.waiterOf ==> y'.hist.waiterOf[w] == y.hist.waiterOf[w]
    ensures IsWaiting(y', w) == IsWaiting(y, w)
  {
    hide InWait;
  }

  lemma OldEntryConserves(y: Synch, t: Tid, c0: CondId, w: WaitId)
    requires ConservedAt(y, w) && w < y.nextWaiter && t in y.pc && y.pc[t] == Enqueue(c0)
    ensures ConservedAt(Joined(y, t, c0), w)
  {
    var y' := Joined(y, t, c0);
    SameWaiting(y, y', t, w);
    hide IsWaiting, InWait;
    assert Posters(y', w) == Posters(y, w);
    assert IsQueued(y', w) == IsQueued(y, w);
  }

  /** Nobody else is at work on the queue: its lock is held. */
  lemma EnqueueEntries(y: Synch, t: Tid, c0: CondId, u: Tid)
    requires Conds(y) && Locks(y) && t in y.pc && y.pc[t] == Enqueue(c0) && u in y.pc
    ensures EntryMatches(Joined(y, t, c0), u, Joined(y, t, c0).pc[u])
  {
    assert HolderMatches(y, t, y.pc[t]);
    assert HolderMatches(y, u, y.pc[u]);
    assert EntryMatches(y, u, y.pc[u]);
  }

  function Popped(y: Synch, t: Tid, c0: CondId, upto: Option<nat>): Synch
    requires Queue(y, c0) != []
  {
    At(PopEntry(y, c0), t, Post(Queue(y, c0)[0], c0, upto))
  }

  /** `cond_signal` takes the first entry. */
  lemma PopConds(y: Synch, t: Tid, c0: CondId, upto: Option<nat>)
    requires Conds(y) && Locks(y) && t in y.pc && y.pc[t] == Signal(c0, upto) && Queue(y, c0) != []
    ensures Conds(Popped(y, t, c0, upto))
  {
    hide ConservedAt, FifoAt, EntryMatches, Locks, Queue;
    var y' := Popped(y, t, c0, upto);
    assert FifoAt(y, c0);
    forall w: WaitId | w < y'.nextWaiter ensures ConservedAt(y', w) {
      assert ConservedAt(y, w);
      PopConserves(y, t, c0, upto, w);
    }
    forall c ensures FifoAt(y', c) {
      assert FifoAt(y, c);
      PopFifo(y, t, c0, upto, c);
    }
    forall u | u in y'.pc ensures EntryMatches(y', u, y'.pc[u]) {
      PopEntries(y, t, c0, upto, u);
    }
  }

  lemma PopFifo(y: Synch, t: Tid, c0: CondId, upto: Option<nat>, c: CondId)
    requires Queue(y, c0) != [] && FifoAt(y, c)
    ensures FifoAt(Popped(y, t, c0, upto), c)
  {
  }

  lemma PopEntries(y: Synch, t: Tid, c0: CondId, upto: Option<nat>, u: Tid)
    requires Conds(y) && Locks(y) && t in y.pc && y.pc[t] == Signal(c0, upto) && Queue(y, c0) != [] && u in y.pc
    ensures EntryMatches(Popped(y, t, c0, upto), u, Popped(y, t, c0, upto).pc[u])
  {
    assert HolderMatches(y, t, y.pc[t]);
    assert HolderMatches(y, u, y.pc[u]);
    assert EntryMatches(y, u, y.pc[u]);
    if u == t {
      assert FifoAt(y, c0);
      assert Queue(y, c0)[0] in Enqueued(y, c0);
    }
  }

  lemma PopConserves(y: Synch, t: Tid, c0: CondId, upto: Option<nat>, w: WaitId)
    requires t in y.pc && y.pc[t] == Signal(c0, upto) && Queue(y, c0) != []
    requires FifoAt(y, c0) && ConservedAt(y, w)
    ensures ConservedAt(Popped(y, t, c0, upto), w)
  {
    var w0 := Queue(y, c0)[0];
    var y' := Popped(y, t, c0, upto);
    SameWaiting(y, y', t, w);
    hide IsWaiting, InWait;
    assert Posters(y', w) == if w == w0 then Posters(y, w) + {t} else Posters(y, w);
    assert w0 in Enqueued(y, c0);
    QueueNoDup(y, c0);
    TailNoDup(Queue(y, c0));
    assert IsQueued(y', w) == (IsQueued(y, w) && w != w0);
  }

  lemma QueueNoDup(y: Synch, c: CondId)
    requires FifoAt(y, c)
    ensures NoDup(Queue(y, c))
  {
    var n := |Signalled(y, c)|;
    forall i, j | 0 <= i < j < |Queue(y, c)| ensures Queue(y, c)[i] != Queue(y, c)[j] {
      assert Enqueued(y, c)[n + i] == Queue(y, c)[i] && Enqueued(y, c)[n + j] == Queue(y, c)[j];
    }
  }

  lemma UpConds(y: Synch, t: Tid, plan: Plan)
    requires Conds(y) && t in y.pc && UpPlan(y.pc[t]) == Some(plan)
    ensures Conds(At(Raise(y, plan.sema), t, plan.next))
  {
    assert EntryMatches(y, t, y.pc[t]);
    if y.pc[t].Post? {
      PostConds(y, t, y.pc[t].waiter, y.pc[t].cond, y.pc[t].upto);
    } else {
      QuietConds(y, At(Raise(y, plan.sema), t, plan.next), t, plan.next);
    }
  }

  lemma DownConds(y: Synch, t: Tid, plan: Plan)
    requires Conds(y) && t in y.pc && DownPlan(y.pc[t]) == Some(plan)
    ensures Conds(DownRegion(y, t, plan))
  {
    assert EntryMatches(y, t, y.pc[t]);
    if Value(y, plan.sema) == 0 {
      QuietConds(y, DownRegion(y, t, plan), t, plan.asleep);
    } else if y.pc[t].Sleep? {
      TakeConds(y, t, y.pc[t].waiter, y.pc[t].lock, y.pc[t].slept);
    } else {
      QuietConds(y, DownRegion(y, t, plan), t, plan.next);
    }
  }

  predicate TouchesQueue(y: Synch, p: Pc) {
    p.Enqueue? || (p.Signal? && Queue(y, p.cond) != [])
  }

  lemma LocalSame(y: Synch, t: Tid, p: Pc)
    requires !TouchesQueue(y, p)
    ensures SameConds(y, LocalEffect(y, t, p)) && LocalEffect(y, t, p).pc == y.pc
    ensures forall w: WaitId :: Value(LocalEffect(y, t, p), Private(w)) == Value(y, Private(w))
  {
    hide LocalEffect;
    if p.TryDown? || p.TryAcquire? {
      LocalTry(y, t, p);
    } else if p.Signal? {
      LocalEntry(y, t, p);
    } else {
      LocalHolder(y, t, p);
    }
  }

  lemma LocalNextEntry(y: Synch, t: Tid, p: Pc)
    requires UpPlan(p).None? && DownPlan(p).None? && !TouchesQueue(y, p) && EntryMatches(y, t, p)
    ensures EntryMatches(y, t, LocalNext(y, p)) && EntryOf(LocalNext(y, p)) == EntryOf(p)
    ensures !LocalNext(y, p).Post? && !p.Post?
  {
  }

  lemma LocalConds(y: Synch, t: Tid, p: Pc)
    requires Conds(y) && Fresh(y) && Locks(y)
    requires t in y.pc && y.pc[t] == p && UpPlan(p).None? && DownPlan(p).None?
    ensures Conds(At(LocalEffect(y, t, p), t, LocalNext(y, p)))
  {
    assert EntryMatches(y, t, p);
    if p.Enqueue? {
      EnqueueConds(y, t, p.cond);
    } else if TouchesQueue(y, p) {
      PopConds(y, t, p.cond, p.upto);
    } else {
      LocalSame(y, t, p);
      LocalNextEntry(y, t, p);
      QuietConds(y, At(LocalEffect(y, t, p), t, LocalNext(y, p)), t, LocalNext(y, p));
    }
  }

  lemma RegionConds(y: Synch, t: Tid)
    requires Conds(y) && Fresh(y) && Locks(y) && t in y.pc
    ensures Conds(Region(y, t))
  {
    hide Conds, Fresh, Locks, Region, UpPlan, DownPlan, DownRegion, LocalEffect, LocalNext;
    var p := y.pc[t];
    if UpPlan(p).Some? {
      UpRegionIs(y, t);
      UpConds(y, t, UpPlan(p).value);
    } else if DownPlan(p).Some? {
      DownRegionIs(y, t);
      DownConds(y, t, DownPlan(p).value);
    } else {
      LocalRegionIs(y, t);
      LocalConds(y, t, p);
    }
  }

  lemma CallConds(y: Synch, t: Tid, op: Op)
    requires Conds(y) && t in y.pc && y.pc[t].User? && Allowed(y, t, op)
    ensures Conds(Call(y, t, op))
  {
    if op.ThreadCreate? {
      QuietConds(y, At(y, op.thread, Born(None)), op.thread, Born(None));
      QuietConds(At(y, op.thread, Born(None)), Call(y, t, op), t, Start(op.thread));
    } else {
      QuietConds(y, Call(y, t, op), t, Entry(y, op));
    }
  }

  lemma MoveKeepsConds(y: Synch, m: Move)
    requires Conds(y) && Fresh(y) && Locks(y) && CanMove(y, m)
    ensures Conds(DoMove(y, m))
  {
    hide Conds, Fresh, Locks, Region, Call, Allowed, Raise, TryTake;
    match m
    case IntrUp(id) => PlainConds(y, id);
    case IntrTryDown(id) => PlainConds(y, id);
    case Invoke(t, op) => CallConds(y, t, op);
    case Do(t) => RegionConds(y, t);
  }
}
