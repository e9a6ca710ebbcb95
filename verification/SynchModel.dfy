/** The synchronisation primitives of threads/synch.c as a step system.

    A step is one region that runs with interrupts off, or one plain store or list
    operation made with them on.  Each thread carries a program counter that says
    which region of which primitive it executes next.  This module does not say
    which thread runs when: any thread that is not asleep may make the next move.
    SchedModel restricts the moves to those of the running thread. */
module SynchModel {
  import opened Basics

  type Tid = nat
  type LockId = nat
  type WaitId = nat

  /** A condition variable is associated with a single lock. */
  datatype CondId = Cond(id: nat, lock: LockId)

  /** The three roles a semaphore plays: used directly, inside a lock, or as the
      private semaphore of one `cond_wait` call. */
  datatype SemaId = Plain(id: nat) | OfLock(lock: LockId) | Private(waiter: WaitId)

  /** Where a thread stands.  `slept` tells that the thread has been put on the wait
      list by an earlier test of the same `while (sema->value == 0)` loop. */
  datatype Pc =
    | User                                          // outside the primitives
    | Born(entry: Option<nat>)                      // kernel_thread() not entered yet
    | Down(id: nat, slept: bool)                    // sema_down
    | Up(id: nat)                                   // sema_up
    | TryDown(id: nat)                              // sema_try_down
    | Acquire(lock: LockId, slept: bool)            // lock_acquire, in sema_down
    | TryAcquire(lock: LockId)                      // lock_try_acquire
    | Hold(lock: LockId)                            // about to store holder
    | Drop(lock: LockId, wait: Option<WaitId>)      // about to clear holder
    | Release(lock: LockId, wait: Option<WaitId>)   // lock_release, before sema_up
    | Enqueue(cond: CondId)                         // cond_wait, before list_push_back
    | Sleep(waiter: WaitId, lock: LockId, slept: bool)             // cond_wait, in sema_down
    | Signal(cond: CondId, upto: Option<nat>)                      // cond_signal
    | Post(waiter: WaitId, cond: CondId, upto: Option<nat>)        // cond_signal, before sema_up
    | Broadcast(cond: CondId, mark: nat)                           // cond_broadcast loop test
    | Start(thread: Tid)                            // thread_create, before thread_unblock
    | SetIdle(id: nat) | IdleUp(id: nat) | IdleLoop // idle

  /** What has happened so far; no step looks at it. */
  datatype History = History(
    initial: map<nat, nat>,                 // initial values of the plain semaphores
    ups: map<SemaId, nat>,                  // completed sema_up calls
    downs: map<SemaId, nat>,                // completed decrements
    enqueued: map<CondId, seq<WaitId>>,     // cond_wait entries, in order
    signalled: map<CondId, seq<WaitId>>,    // entries taken by cond_signal, in order
    waiterOf: map<WaitId, Tid>,
    condOf: map<WaitId, CondId>,
    creatorOf: map<Tid, Tid>
  )

  datatype Synch = Synch(
    pc: map<Tid, Pc>,
    value: map<SemaId, nat>,
    waiters: map<SemaId, seq<Tid>>,
    holder: map<LockId, Tid>,
    queue: map<CondId, seq<WaitId>>,
    nextWaiter: WaitId,
    hist: History
  )

  // ----- reading the state -----

  function Get<K, V>(m: map<K, V>, key: K, default: V): V {
    if key in m then m[key] else default
  }

  function Initial(y: Synch, s: SemaId): nat {
    match s
    case Plain(id) => Get(y.hist.initial, id, 0)
    case OfLock(_) => 1
    case Private(_) => 0
  }

  function Value(y: Synch, s: SemaId): nat { Get(y.value, s, Initial(y, s)) }

  function Waiters(y: Synch, s: SemaId): seq<Tid> { Get(y.waiters, s, []) }

  function Queue(y: Synch, c: CondId): seq<WaitId> { Get(y.queue, c, []) }

  function Ups(y: Synch, s: SemaId): nat { Get(y.hist.ups, s, 0) }

  function Downs(y: Synch, s: SemaId): nat { Get(y.hist.downs, s, 0) }

  function Enqueued(y: Synch, c: CondId): seq<WaitId> { Get(y.hist.enqueued, c, []) }

  function Signalled(y: Synch, c: CondId): seq<WaitId> { Get(y.hist.signalled, c, []) }

  predicate Holds(y: Synch, l: LockId, t: Tid) { l in y.holder && y.holder[l] == t }

  predicate NoDup<T(==)>(s: seq<T>) {
    forall i, j :: 0 <= i < j < |s| ==> s[i] != s[j]
  }

  /** The semaphore whose wait list a thread at `p` was put on, if it was. */
  function SleepsOn(p: Pc): Option<SemaId> {
    match p
    case Down(id, true) => Some(Plain(id))
    case Acquire(l, true) => Some(OfLock(l))
    case Sleep(w, _, true) => Some(Private(w))
    case _ => None
  }

  /** The thread is not on a wait list. */
  predicate Awake(y: Synch, t: Tid) {
    t in y.pc && (SleepsOn(y.pc[t]).Some? ==> t !in Waiters(y, SleepsOn(y.pc[t]).value))
  }

  // ----- elementary effects -----

  function At(y: Synch, t: Tid, p: Pc): Synch { y.(pc := y.pc[t := p]) }

  function Take(y: Synch, s: SemaId): Synch
    requires Value(y, s) > 0
  {
    y.(value := y.value[s := Value(y, s) - 1],
       hist := y.hist.(downs := y.hist.downs[s := Downs(y, s) + 1]))
  }

  function TryTake(y: Synch, s: SemaId): Synch {
    if Value(y, s) > 0 then Take(y, s) else y
  }

  function PushWaiter(y: Synch, s: SemaId, t: Tid): Synch {
    y.(waiters := y.waiters[s := Waiters(y, s) + [t]])
  }

  /** `sema_up`: pop the first waiter, if any, and increment. */
  function Raise(y: Synch, s: SemaId): Synch {
    y.(waiters := if Waiters(y, s) == [] then y.waiters else y.waiters[s := Waiters(y, s)[1..]],
       value := y.value[s := Value(y, s) + 1],
       hist := y.hist.(ups := y.hist.ups[s := Ups(y, s) + 1]))
  }

  /** `sema_init (&waiter.semaphore, 0)` and the `list_push_back` of `cond_wait`. */
  function PushEntry(y: Synch, c: CondId, t: Tid): Synch {
    var w := y.nextWaiter;
    y.(value := y.value[Private(w) := 0],
       queue := y.queue[c := Queue(y, c) + [w]],
       nextWaiter := w + 1,
       hist := y.hist.(enqueued := y.hist.enqueued[c := Enqueued(y, c) + [w]],
                       waiterOf := y.hist.waiterOf[w := t],
                       condOf := y.hist.condOf[w := c]))
  }

  /** The `list_pop_front (&cond->waiters)` of `cond_signal`. */
  function PopEntry(y: Synch, c: CondId): Synch
    requires Queue(y, c) != []
  {
    y.(queue := y.queue[c := Queue(y, c)[1..]],
       hist := y.hist.(signalled := y.hist.signalled[c := Signalled(y, c) + [Queue(y, c)[0]]]))
  }

  // ----- the regions of the primitives -----

  datatype Plan = Plan(sema: SemaId, asleep: Pc, next: Pc)

  /** Where `cond_signal` returns to: its caller or the loop of `cond_broadcast`. */
  function AfterSignal(c: CondId, upto: Option<nat>): Pc {
    if upto.None? then User else Broadcast(c, upto.value)
  }

  /** The places that call `sema_down`: the semaphore, where the thread is while it
      sleeps, and where it goes on after the decrement. */
  function DownPlan(p: Pc): Option<Plan> {
    match p
    case Down(id, _) => Some(Plan(Plain(id), Down(id, true), User))
    case Acquire(l, _) => Some(Plan(OfLock(l), Acquire(l, true), Hold(l)))
    case Sleep(w, l, _) => Some(Plan(Private(w), Sleep(w, l, true), Acquire(l, false)))
    case _ => None
  }

  /** The places that call `sema_up`. */
  function UpPlan(p: Pc): Option<Plan> {
    match p
    case Up(id) => Some(Plan(Plain(id), p, User))
    case Release(l, None) => Some(Plan(OfLock(l), p, User))
    case Release(l, Some(w)) => Some(Plan(OfLock(l), p, Sleep(w, l, false)))
    case Post(w, c, upto) => Some(Plan(Private(w), p, AfterSignal(c, upto)))
    case IdleUp(id) => Some(Plan(Plain(id), p, IdleLoop))
    case _ => None
  }

  /** One test of the loop in `sema_down`: go to sleep, or decrement and go on. */
  function DownRegion(y: Synch, t: Tid, plan: Plan): Synch {
    if Value(y, plan.sema) == 0 then At(PushWaiter(y, plan.sema, t), t, plan.asleep)
    else At(Take(y, plan.sema), t, plan.next)
  }

  /** What a region that neither sleeps nor wakes does... */
  function LocalEffect(y: Synch, t: Tid, p: Pc): Synch {
    match p
    case TryDown(id) => TryTake(y, Plain(id))
    case TryAcquire(l) => TryTake(y, OfLock(l))
    case Hold(l) => y.(holder := y.holder[l := t])
    case Drop(l, _) => y.(holder := y.holder - {l})
    case Enqueue(c) => PushEntry(y, c, t)
    case Signal(c, _) => if Queue(y, c) == [] then y else PopEntry(y, c)
    case _ => y
  }

  /** ... and where the thread goes on from there. */
  function LocalNext(y: Synch, p: Pc): Pc {
    match p
    case TryDown(_) => User
    case TryAcquire(l) => if Value(y, OfLock(l)) > 0 then Hold(l) else User
    case Hold(_) => User
    case Drop(l, w) => Release(l, w)
    case Enqueue(c) => Drop(c.lock, Some(y.nextWaiter))
    case Signal(c, upto) => if Queue(y, c) == [] then AfterSignal(c, upto) else Post(Queue(y, c)[0], c, upto)
    case Broadcast(c, mark) => if Queue(y, c) == [] then User else Signal(c, Some(mark))
    case Born(entry) => if entry.None? then User else SetIdle(entry.value)
    case Start(_) => User
    case SetIdle(id) => IdleUp(id)
    case _ => p
  }

  /** The effect of the region that thread `t` executes next. */
  function Region(y: Synch, t: Tid): Synch
    requires t in y.pc
  {
    var p := y.pc[t];
    if UpPlan(p).Some? then At(Raise(y, UpPlan(p).value.sema), t, UpPlan(p).value.next)
    else if DownPlan(p).Some? then DownRegion(y, t, DownPlan(p).value)
    else At(LocalEffect(y, t, p), t, LocalNext(y, p))
  }

  /** The three kinds of region. */
  lemma UpRegionIs(y: Synch, t: Tid)
    requires t in y.pc && UpPlan(y.pc[t]).Some?
    ensures var plan := UpPlan(y.pc[t]).value; Region(y, t) == At(Raise(y, plan.sema), t, plan.next)
  {
  }

  lemma DownRegionIs(y: Synch, t: Tid)
    requires t in y.pc && DownPlan(y.pc[t]).Some?
    ensures UpPlan(y.pc[t]).None? && Region(y, t) == DownRegion(y, t, DownPlan(y.pc[t]).value)
  {
  }

  lemma LocalRegionIs(y: Synch, t: Tid)
    requires t in y.pc && UpPlan(y.pc[t]).None? && DownPlan(y.pc[t]).None?
    ensures Region(y, t) == At(LocalEffect(y, t, y.pc[t]), t, LocalNext(y, y.pc[t]))
  {
  }

  /** What the regions that neither sleep nor wake come to. */
  lemma LocalTry(y: Synch, t: Tid, p: Pc)
    requires p.TryDown? || p.TryAcquire?
    ensures LocalEffect(y, t, p) == TryTake(y, if p.TryDown? then Plain(p.id) else OfLock(p.lock))
  {
  }

  lemma LocalEntry(y: Synch, t: Tid, p: Pc)
    requires p.Enqueue? || p.Signal?
    ensures LocalEffect(y, t, p) ==
      if p.Enqueue? then PushEntry(y, p.cond, t) else if Queue(y, p.cond) == [] then y else PopEntry(y, p.cond)
  {
  }

  lemma LocalHolder(y: Synch, t: Tid, p: Pc)
    requires !p.TryDown? && !p.TryAcquire? && !p.Enqueue? && !p.Signal?
    ensures LocalEffect(y, t, p) == y.(holder := LocalEffect(y, t, p).holder)
  {
  }

  // ----- calls -----

  datatype Op =
    | SemaDown(id: nat) | SemaUp(id: nat) | SemaTryDown(id: nat)
    | LockAcquire(lock: LockId) | LockTryAcquire(lock: LockId) | LockRelease(lock: LockId)
    | CondWait(cond: CondId) | CondSignal(cond: CondId) | CondBroadcast(cond: CondId)
    | ThreadCreate(thread: Tid)

  /** What the ASSERTs at the entry of the primitives and their documentation ask. */
  predicate Allowed(y: Synch, t: Tid, op: Op) {
    match op
    case LockAcquire(l) => !Holds(y, l, t)
    case LockTryAcquire(l) => !Holds(y, l, t)
    case LockRelease(l) => Holds(y, l, t)
    case CondWait(c) => Holds(y, c.lock, t)
    case CondSignal(c) => Holds(y, c.lock, t)
    case CondBroadcast(c) => Holds(y, c.lock, t)
    case ThreadCreate(u) => u !in y.pc
    case _ => true
  }

  function Entry(y: Synch, op: Op): Pc {
    match op
    case SemaDown(id) => Down(id, false)
    case SemaUp(id) => Up(id)
    case SemaTryDown(id) => TryDown(id)
    case LockAcquire(l) => Acquire(l, false)
    case LockTryAcquire(l) => TryAcquire(l)
    case LockRelease(l) => Drop(l, None)
    case CondWait(c) => Enqueue(c)
    case CondSignal(c) => Signal(c, None)
    case CondBroadcast(c) => Broadcast(c, |Enqueued(y, c)|)
    case ThreadCreate(u) => Start(u)
  }

  function Call(y: Synch, t: Tid, op: Op): Synch {
    if op.ThreadCreate? then
      At(At(y, op.thread, Born(None)), t, Start(op.thread)).(
        hist := y.hist.(creatorOf := y.hist.creatorOf[op.thread := t]))
    else At(y, t, Entry(y, op))
  }

  // ----- moves -----

  datatype Move =
    | Do(thread: Tid)             // a thread executes its next region
    | Invoke(thread: Tid, op: Op) // a thread in user code calls a primitive
    | IntrUp(id: nat)             // sema_up in an interrupt handler
    | IntrTryDown(id: nat)        // sema_try_down in an interrupt handler

  predicate CanMove(y: Synch, m: Move) {
    match m
    case Do(t) => Awake(y, t) && !y.pc[t].User?
    case Invoke(t, op) => t in y.pc && y.pc[t].User? && Allowed(y, t, op)
    case IntrUp(_) => true
    case IntrTryDown(_) => true
  }

  function DoMove(y: Synch, m: Move): Synch
    requires CanMove(y, m)
  {
    match m
    case Do(t) => Region(y, t)
    case Invoke(t, op) => Call(y, t, op)
    case IntrUp(id) => Raise(y, Plain(id))
    case IntrTryDown(id) => TryTake(y, Plain(id))
  }

  /** Two threads at boot: the initial one, and the future idle thread, which will
      signal the plain semaphore `started`. */
  const INITIAL: Tid := 0
  const IDLE: Tid := 1

  function Boot(initial: map<nat, nat>, started: nat): Synch {
    Synch(map[INITIAL := User, IDLE := Born(Some(started))], map[], map[], map[], map[], 0,
          History(initial, map[], map[], map[], map[], map[], map[], map[]))
  }
}
