/** What a call of a primitive does from its call to its return.  The reference is a script:
    the changes that the calling thread makes, in order.  Whatever the other threads, the
    interrupts and the scheduler do meanwhile, the caller's own steps follow the script. */
module KernelCalls {
  import opened Basics
  import opened SynchModel
  import opened SynchSema
  import opened SynchLock
  import opened SynchCond
  import opened SchedModel
  import opened SchedInv
  import opened KernelRuns

  // ----- scripts -----

  datatype Act =
    | Decrement(sema: SemaId)
    | Increment(sema: SemaId)                   // and the first waiter is woken
    | Store(lock: LockId)                       // holder = thread_current ()
    | Clear(lock: LockId)                       // holder = NULL
    | Join(cond: CondId, waiter: WaitId)        // a new entry at the end of the queue
    | Leave(cond: CondId, waiter: WaitId)       // the first entry is taken

  /** A step that changes nothing but the thread's place and the wait lists. */
  predicate Silent(y: Synch, y': Synch) {
    y' == y.(pc := y'.pc, waiters := y'.waiters)
  }

  /** The step makes this change and no other. */
  predicate Did(y: Synch, y': Synch, t: Tid, a: Act) {
    match a
    case Decrement(s) =>
      && Value(y, s) > 0
      && y' == y.(pc := y'.pc, value := y.value[s := Value(y, s) - 1],
                  hist := y.hist.(downs := y.hist.downs[s := Downs(y, s) + 1]))
    case Increment(s) =>
      && y' == y.(pc := y'.pc, waiters := y'.waiters, value := y.value[s := Value(y, s) + 1],
                  hist := y.hist.(ups := y.hist.ups[s := Ups(y, s) + 1]))
      && Waiters(y', s) == (if Waiters(y, s) == [] then [] else Waiters(y, s)[1..])
    case Store(l) => l !in y.holder && y' == y.(pc := y'.pc, holder := y.holder[l := t])
    case Clear(l) => Holds(y, l, t) && y' == y.(pc := y'.pc, holder := y.holder - {l})
    case Join(c, w) =>
      && w == y.nextWaiter && y'.nextWaiter == w + 1 && Value(y', Private(w)) == 0
      && Queue(y', c) == Queue(y, c) + [w] && Enqueued(y', c) == Enqueued(y, c) + [w]
      && w in y'.hist.waiterOf && y'.hist.waiterOf[w] == t
      && y' == y.(pc := y'.pc, value := y.value[Private(w) := 0], queue := y.queue[c := Queue(y', c)],
                  nextWaiter := y'.nextWaiter, hist := y'.hist)
      && y'.hist.ups == y.hist.ups && y'.hist.downs == y.hist.downs && y'.hist.signalled == y.hist.signalled
    case Leave(c, w) =>
      && Queue(y, c) != [] && w == Queue(y, c)[0] && Signalled(y', c) == Signalled(y, c) + [w]
      && y' == y.(pc := y'.pc, queue := y.queue[c := Queue(y, c)[1..]],
                  hist := y.hist.(signalled := y.hist.signalled[c := Signalled(y', c)]))
  }

  /** What is left of a script after a step: it made the first change, or none. */
  predicate Follows(y: Synch, y': Synch, t: Tid, todo: seq<Act>, rest: seq<Act>) {
    || (Silent(y, y') && rest == todo)
    || (todo != [] && Did(y, y', t, todo[0]) && rest == todo[1..])
  }

  datatype Change = Change(before: Synch, after: Synch)

  /** The steps of thread `t` itself along a run. */
  function OwnSteps(k: State, es: seq<Event>, t: Tid): seq<Change>
    requires Legal(k, es)
    decreases |es|
  {
    if es == [] then []
    else if MoveOf(k, es[0]) == Some(Do(t)) then
      [Change(k.sync, Apply(k, es[0]).sync)] + OwnSteps(Apply(k, es[0]), es[1..], t)
    else OwnSteps(Apply(k, es[0]), es[1..], t)
  }

  /** The steps carry out the script, up to the rest of it. */
  ghost predicate Performs(steps: seq<Change>, t: Tid, todo: seq<Act>, rest: seq<Act>)
    decreases |steps|
  {
    if steps == [] then todo == rest
    else exists mid :: Follows(steps[0].before, steps[0].after, t, todo, mid) && Performs(steps[1..], t, mid, rest)
  }

  // ----- the scripts of the primitives -----

  function Taking(l: LockId): seq<Act> { [Decrement(OfLock(l)), Store(l)] }

  function Giving(l: LockId): seq<Act> { [Clear(l), Increment(OfLock(l))] }

  /** `cond_wait` after its entry `w` has joined the queue. */
  function Waiting(l: LockId, w: WaitId): seq<Act> { Giving(l) + [Decrement(Private(w))] + Taking(l) }

  /** The entries are taken and their private semaphores raised, one after the other. */
  function Posting(c: CondId, q: seq<WaitId>): seq<Act> {
    if q == [] then [] else [Leave(c, q[0]), Increment(Private(q[0]))] + Posting(c, q[1..])
  }

  function FirstOf(q: seq<WaitId>): seq<WaitId> { if q == [] then [] else q[..1] }

  /** What a thread at `p` has still to do, where that is known from its place. */
  function Todo(y: Synch, p: Pc): seq<Act> {
    match p
    case Down(id, _) => [Decrement(Plain(id))]
    case Up(id) => [Increment(Plain(id))]
    case Acquire(l, _) => Taking(l)
    case Hold(l) => [Store(l)]
    case Drop(l, None) => Giving(l)
    case Drop(l, Some(w)) => Waiting(l, w)
    case Release(l, None) => [Increment(OfLock(l))]
    case Release(l, Some(w)) => [Increment(OfLock(l)), Decrement(Private(w))] + Taking(l)
    case Sleep(w, l, _) => [Decrement(Private(w))] + Taking(l)
    case Signal(c, None) => Posting(c, FirstOf(Queue(y, c)))
    case Signal(c, Some(_)) => Posting(c, Queue(y, c))
    case Post(w, c, None) => [Increment(Private(w))]
    case Post(w, c, Some(_)) => [Increment(Private(w))] + Posting(c, Queue(y, c))
    case Broadcast(c, _) => Posting(c, Queue(y, c))
    case Born(Some(id)) => [Increment(Plain(id))]
    case SetIdle(id) => [Increment(Plain(id))]
    case IdleUp(id) => [Increment(Plain(id))]
    case _ => []
  }

  /** The places whose script is known: the try calls look at a value first, and `cond_wait`
      learns its entry when it joins the queue. */
  predicate Known(p: Pc) { !p.TryDown? && !p.TryAcquire? && !p.Enqueue? }

  /** The queue whose contents the script speaks of. */
  predicate Watches(p: Pc, c: CondId) {
    || (p.Signal? && p.cond == c)
    || (p.Broadcast? && p.cond == c)
    || (p.Post? && p.cond == c)
  }

  // ----- one step -----

  lemma UpFollows(y: Synch, t: Tid)
    requires t in y.pc && UpPlan(y.pc[t]).Some? && EntryMatches(y, t, y.pc[t])
    ensures var y' := Region(y, t);
      t in y'.pc && Known(y'.pc[t]) && Follows(y, y', t, Todo(y, y.pc[t]), Todo(y', y'.pc[t]))
  {
    var p := y.pc[t];
    var plan := UpPlan(p).value;
    UpRegionIs(y, t);
    hide Region, Value, Follows, Posting;
    var y' := Region(y, t);
    RaiseDid(y, y', t, plan.sema, plan.next);
    UpTodo(y, y', p, plan);
    FollowsFirst(y, y', t, Todo(y, p), Todo(y', plan.next));
  }

  lemma RaiseDid(y: Synch, y': Synch, t: Tid, s: SemaId, p: Pc)
    requires y' == At(Raise(y, s), t, p)
    ensures Did(y, y', t, Increment(s)) && y'.queue == y.queue
  {
    hide Value;
  }

  lemma UpTodo(y: Synch, y': Synch, p: Pc, plan: Plan)
    requires UpPlan(p) == Some(plan) && y'.queue == y.queue
    ensures Todo(y, p) == [Increment(plan.sema)] + Todo(y', plan.next) && Known(plan.next)
  {
    hide Posting;
  }

  lemma FollowsFirst(y: Synch, y': Synch, t: Tid, todo: seq<Act>, rest: seq<Act>)
    requires todo != [] && Did(y, y', t, todo[0]) && todo == [todo[0]] + rest
    ensures Follows(y, y', t, todo, rest)
  {
    hide Did;
    assert todo[1..] == rest;
  }

  lemma DownFollows(y: Synch, t: Tid)
    requires t in y.pc && DownPlan(y.pc[t]).Some?
    ensures var y' := Region(y, t);
      t in y'.pc && Known(y'.pc[t]) && Follows(y, y', t, Todo(y, y.pc[t]), Todo(y', y'.pc[t]))
  {
    var p := y.pc[t];
    var plan := DownPlan(p).value;
    DownRegionIs(y, t);
    hide Region, Value;
    var y' := Region(y, t);
    DownTodo(y, y', p, plan);
    if Value(y, plan.sema) == 0 {
      assert Silent(y, y');
    } else {
      assert Did(y, y', t, Decrement(plan.sema));
      hide Did, Silent;
      FollowsFirst(y, y', t, Todo(y, p), Todo(y', plan.next));
    }
  }

  lemma DownTodo(y: Synch, y': Synch, p: Pc, plan: Plan)
    requires DownPlan(p) == Some(plan)
    ensures Todo(y, p) == [Decrement(plan.sema)] + Todo(y', plan.next) && Todo(y', plan.asleep) == Todo(y, p)
    ensures Known(plan.next) && Known(plan.asleep)
  {
  }

  lemma LockFollows(y: Synch, t: Tid, p: Pc)
    requires Locks(y) && t in y.pc && y.pc[t] == p && (p.Hold? || p.Drop?)
    ensures var y' := At(LocalEffect(y, t, p), t, LocalNext(y, p));
      Known(y'.pc[t]) && Follows(y, y', t, Todo(y, p), Todo(y', y'.pc[t]))
  {
    var y' := At(LocalEffect(y, t, p), t, LocalNext(y, p));
    assert HolderMatches(y, t, p);
    if p.Hold? {
      NoHolder(y, t, p.lock);
      hide Locks;
      assert Did(y, y', t, Store(p.lock));
    } else {
      hide Locks;
      assert Did(y, y', t, Clear(p.lock));
    }
    hide Did, Silent, Follows;
    FollowsFirst(y, y', t, Todo(y, p), Todo(y', y'.pc[t]));
  }

  lemma SignalFollows(y: Synch, t: Tid, p: Pc)
    requires t in y.pc && y.pc[t] == p && p.Signal? && Queue(y, p.cond) != []
    ensures var y' := At(LocalEffect(y, t, p), t, LocalNext(y, p));
      Known(y'.pc[t]) && Follows(y, y', t, Todo(y, p), Todo(y', y'.pc[t]))
  {
    var y', c, q := At(LocalEffect(y, t, p), t, LocalNext(y, p)), p.cond, Queue(y, p.cond);
    LeaveDid(y, y', t, p, c);
    PostingFirst(c, FirstOf(q));
    PostingFirst(c, q);
    hide Did, Silent, Follows, Posting, LocalEffect;
    FollowsFirst(y, y', t, Todo(y, p), Todo(y', y'.pc[t]));
  }

  lemma LeaveDid(y: Synch, y': Synch, t: Tid, p: Pc, c: CondId)
    requires p.Signal? && p.cond == c && Queue(y, c) != [] && y' == At(LocalEffect(y, t, p), t, LocalNext(y, p))
    ensures Did(y, y', t, Leave(c, Queue(y, c)[0])) && Queue(y', c) == Queue(y, c)[1..]
  {
    hide LocalNext;
  }

  lemma PostingFirst(c: CondId, q: seq<WaitId>)
    ensures q != [] ==> Posting(c, q) == [Leave(c, q[0])] + ([Increment(Private(q[0]))] + Posting(c, q[1..]))
    ensures q == [] ==> Posting(c, q) == []
    ensures |q| == 1 ==> Posting(c, q[1..]) == []
  {
  }

  /** The places where the step changes nothing. */
  predicate Passive(y: Synch, p: Pc) {
    || (p.Signal? && Queue(y, p.cond) == [])
    || p.Broadcast? || p.Born? || p.Start? || p.SetIdle? || p.IdleLoop? || p.User?
  }

  lemma PassiveFollows(y: Synch, t: Tid, p: Pc)
    requires t in y.pc && y.pc[t] == p && Passive(y, p)
    ensures var y' := At(LocalEffect(y, t, p), t, LocalNext(y, p));
      Known(y'.pc[t]) && Follows(y, y', t, Todo(y, p), Todo(y', y'.pc[t]))
  {
    var y' := At(LocalEffect(y, t, p), t, LocalNext(y, p));
    assert LocalEffect(y, t, p) == y;
    hide LocalEffect, Did;
    assert Silent(y, y');
    hide Silent;
  }

  /** One step of the thread follows its script. */
  lemma StepFollows(y: Synch, t: Tid)
    requires Locks(y) && t in y.pc && Known(y.pc[t]) && EntryMatches(y, t, y.pc[t])
    ensures var y' := Region(y, t);
      t in y'.pc && Known(y'.pc[t]) && Follows(y, y', t, Todo(y, y.pc[t]), Todo(y', y'.pc[t]))
  {
    hide Locks, Region, EntryMatches, Follows, Todo, LocalEffect, LocalNext;
    var p := y.pc[t];
    if UpPlan(p).Some? {
      UpFollows(y, t);
    } else if DownPlan(p).Some? {
      DownFollows(y, t);
    } else {
      LocalRegionIs(y, t);
      LocalShape(y, t, p);
      if p.Hold? || p.Drop? {
        LockFollows(y, t, p);
      } else if Passive(y, p) {
        PassiveFollows(y, t, p);
      } else {
        SignalFollows(y, t, p);
      }
    }
  }

  /** While a thread is inside `cond_signal` or `cond_broadcast`, nobody else is at the queue. */
  lemma OffQueue(y: Synch, t: Tid, u: Tid, c: CondId)
    requires Locks(y) && t in y.pc && u in y.pc && t != u && Watches(y.pc[t], c)
    ensures !AtQueue(y, u, c)
  {
    hide ExclusiveAt;
    assert HolderMatches(y, t, y.pc[t]) && HolderMatches(y, u, y.pc[u]);
  }

  lemma SameTodo(y: Synch, y': Synch, p: Pc)
    requires forall c :: Watches(p, c) ==> Queue(y', c) == Queue(y, c)
    ensures Todo(y', p) == Todo(y, p)
  {
    hide Posting;
    if p.Signal? || p.Broadcast? || p.Post? {
      assert Watches(p, p.cond);
    }
  }

  /** A step of anyone else leaves the script alone. */
  lemma OthersLeaveTodo(y: Synch, m: Move, t: Tid)
    requires Locks(y) && CanMove(y, m) && t in y.pc && !y.pc[t].User? && m != Do(t)
    ensures var y' := DoMove(y, m);
      t in y'.pc && y'.pc[t] == y.pc[t] && Todo(y', y.pc[t]) == Todo(y, y.pc[t])
  {
    hide Locks, Todo, Region, Call, Raise, TryTake;
    OthersKeepPc(y, m, t);
    forall c | Watches(y.pc[t], c) ensures Queue(DoMove(y, m), c) == Queue(y, c) {
      OthersKeepWatched(y, m, t, c);
    }
    SameTodo(y, DoMove(y, m), y.pc[t]);
  }

  lemma OthersKeepWatched(y: Synch, m: Move, t: Tid, c: CondId)
    requires Locks(y) && CanMove(y, m) && t in y.pc && !y.pc[t].User? && m != Do(t) && Watches(y.pc[t], c)
    ensures Queue(DoMove(y, m), c) == Queue(y, c)
  {
    hide Locks, Region, Watches, Value, Entry, Waiters;
    if m.Do? {
      OffQueue(y, t, m.thread, c);
      OthersKeepQueue(y, m.thread, c);
    }
  }

  // ----- whole calls -----

  /** The event in terms of the script: the thread's own step follows it, any other leaves it. */
  lemma EventFollows(k: State, e: Event, t: Tid)
    requires Inv(k) && Enabled(k, e) && t in k.sync.pc && !k.sync.pc[t].User? && Known(k.sync.pc[t])
    ensures var y, y' := k.sync, Apply(k, e).sync;
      && t in y'.pc && Known(y'.pc[t])
      && (MoveOf(k, e) == Some(Do(t)) ==> Follows(y, y', t, Todo(y, y.pc[t]), Todo(y', y'.pc[t])))
      && (MoveOf(k, e) != Some(Do(t)) ==> y'.pc[t] == y.pc[t] && Todo(y', y'.pc[t]) == Todo(y, y.pc[t]))
  {
    hide Sched, WaitLists, Fresh, Balanced, NoLostWakeup, Locks, EntryMatches, Apply, Enabled, Follows, Todo, Region;
    EventIsMove(k, e);
    assert EntryMatches(k.sync, t, k.sync.pc[t]);
    hide Conds, Known, Call, Raise, TryTake;
    if MoveOf(k, e) == Some(Do(t)) {
      StepFollows(k.sync, t);
    } else if MoveOf(k, e).Some? {
      OthersLeaveTodo(k.sync, MoveOf(k, e).value, t);
    }
  }

  /** Along every run on which the thread does not return to user code before the end, its own
      steps carry out its script up to what is left of it. */
  lemma {:induction false} RunPerforms(k: State, es: seq<Event>, t: Tid)
    requires Inv(k) && Legal(k, es) && t in k.sync.pc && Known(k.sync.pc[t]) && Busy(k, es, t)
    ensures var k2 := Run(k, es);
      t in k2.sync.pc && Performs(OwnSteps(k, es, t), t, Todo(k.sync, k.sync.pc[t]), Todo(k2.sync, k2.sync.pc[t]))
    decreases |es|
  {
    hide Sched, SynchInv, Enabled, Apply, Todo, Known, Follows;
    if es != [] {
      var k' := Apply(k, es[0]);
      ApplyKeeps(k, es[0]);
      EventFollows(k, es[0], t);
      RunPerforms(k', es[1..], t);
      if MoveOf(k, es[0]) == Some(Do(t)) {
        PerformsOne(k.sync, k'.sync, OwnSteps(k', es[1..], t), t, Todo(k.sync, k.sync.pc[t]),
                    Todo(k'.sync, k'.sync.pc[t]), Todo(Run(k, es).sync, Run(k, es).sync.pc[t]));
      }
    }
  }

  lemma PerformsOne(y: Synch, y': Synch, steps: seq<Change>, t: Tid, todo: seq<Act>, mid: seq<Act>, rest: seq<Act>)
    requires Follows(y, y', t, todo, mid) && Performs(steps, t, mid, rest)
    ensures Performs([Change(y, y')] + steps, t, todo, rest)
  {
    hide Follows;
    var all := [Change(y, y')] + steps;
    assert all[1..] == steps && all[0] == Change(y, y');
  }

  /** The thread is outside user code until the last state of the run. */
  predicate Busy(k: State, es: seq<Event>, t: Tid)
    requires Legal(k, es)
    decreases |es|
  {
    es == [] || (!PcOf(k, t).User? && Busy(Apply(k, es[0]), es[1..], t))
  }

  lemma {:induction false} ReturnIsBusy(k: State, es: seq<Event>, t: Tid)
    requires Legal(k, es) && !PcOf(k, t).User? && FirstReturn(k, es, t)
    ensures Busy(k, es, t) && PcOf(Run(k, es), t).User?
    decreases |es|
  {
    hide Enabled, Apply;
    if !PcOf(Apply(k, es[0]), t).User? {
      ReturnIsBusy(Apply(k, es[0]), es[1..], t);
    } else {
      assert es[1..] == [];
    }
  }

  /** From a call in a reachable state to the caller's first return to user code. */
  ghost predicate WholeCall(k: State, op: Op, es: seq<Event>) {
    && Reachable(k) && Enabled(k, Begin(op)) && Legal(Apply(k, Begin(op)), es)
    && FirstReturn(Apply(k, Begin(op)), es, k.cur)
  }

  /** The caller's own steps of a call, and the state in which it returns. */
  ghost function StepsOf(k: State, op: Op, es: seq<Event>): seq<Change>
    requires WholeCall(k, op, es)
  {
    OwnSteps(Apply(k, Begin(op)), es, k.cur)
  }

  ghost function Returned(k: State, op: Op, es: seq<Event>): State
    requires WholeCall(k, op, es)
  {
    Run(Apply(k, Begin(op)), es)
  }

  lemma CallStarts(k: State, op: Op, es: seq<Event>)
    requires WholeCall(k, op, es)
    ensures var k1 := Apply(k, Begin(op));
      && Inv(k1) && k.cur in k1.sync.pc && k1.cur == k.cur && !PcOf(k1, k.cur).User?
      && k1.sync.queue == k.sync.queue && k1.sync.hist.enqueued == k.sync.hist.enqueued
      && Busy(k1, es, k.cur) && PcOf(Run(k1, es), k.cur).User?
  {
    hide Reachable, Inv;
    ReachableInv(k);
    ApplyKeeps(k, Begin(op));
    ReturnIsBusy(Apply(k, Begin(op)), es, k.cur);
  }

  /** The primitives whose changes are known at the call. */
  predicate Scripted(op: Op) {
    op.SemaDown? || op.SemaUp? || op.LockAcquire? || op.LockRelease? || op.CondSignal? || op.CondBroadcast?
  }

  /** What the primitives are for: `sema_down` and `sema_up` change one value once;
      `lock_acquire` takes the unit of the lock's semaphore and records the holder;
      `lock_release` clears the holder and gives the unit back; `cond_signal` takes the first
      entry of the queue, if there is one, and raises its semaphore; `cond_broadcast` does
      that for all of them in order. */
  function Script(y: Synch, op: Op): seq<Act>
    requires Scripted(op)
  {
    match op
    case SemaDown(id) => [Decrement(Plain(id))]
    case SemaUp(id) => [Increment(Plain(id))]
    case LockAcquire(l) => [Decrement(OfLock(l)), Store(l)]
    case LockRelease(l) => [Clear(l), Increment(OfLock(l))]
    case CondSignal(c) => Posting(c, FirstOf(Queue(y, c)))
    case CondBroadcast(c) => Posting(c, Queue(y, c))
  }

  /** From call to return the caller makes exactly the changes of the script, in that order,
      whatever happens meanwhile. */
  lemma CallPerforms(k: State, op: Op, es: seq<Event>)
    requires WholeCall(k, op, es) && Scripted(op)
    ensures Performs(StepsOf(k, op, es), k.cur, Script(k.sync, op), [])
  {
    var k1 := Apply(k, Begin(op));
    CallStarts(k, op, es);
    CallTodo(k, op);
    hide Reachable, Inv, Apply, Enabled, Todo, Performs;
    RunPerforms(k1, es, k.cur);
    UserIsDone(Run(k1, es).sync, Run(k1, es).sync.pc[k.cur]);
  }

  lemma CallTodo(k: State, op: Op)
    requires Enabled(k, Begin(op)) && Scripted(op)
    ensures var k1 := Apply(k, Begin(op));
      Known(k1.sync.pc[k.cur]) && Todo(k1.sync, k1.sync.pc[k.cur]) == Script(k.sync, op)
  {
    hide Posting;
  }

  lemma UserIsDone(y: Synch, p: Pc)
    requires p.User?
    ensures Todo(y, p) == []
  {
  }

  // ----- how often -----

  function Times(acts: seq<Act>, a: Act): nat {
    if acts == [] then 0 else One(acts[0] == a) + Times(acts[1..], a)
  }

  lemma TwoTimes(a: Act, b: Act, x: Act)
    ensures Times([a, b], x) == One(a == x) + One(b == x) && Times([], x) == 0
  {
    assert [a, b][1..] == [b];
    assert [b][1..] == [];
    assert Times([b], x) == One(b == x);
  }

  /** The decrements and increments of one semaphore in the steps. */
  function DownsBy(steps: seq<Change>, s: SemaId): int {
    if steps == [] then 0 else Downs(steps[0].after, s) - Downs(steps[0].before, s) + DownsBy(steps[1..], s)
  }

  function UpsBy(steps: seq<Change>, s: SemaId): int {
    if steps == [] then 0 else Ups(steps[0].after, s) - Ups(steps[0].before, s) + UpsBy(steps[1..], s)
  }

  lemma {:induction false} PerformsTimes(steps: seq<Change>, t: Tid, todo: seq<Act>, rest: seq<Act>, s: SemaId)
    requires Performs(steps, t, todo, rest)
    ensures DownsBy(steps, s) + Times(rest, Decrement(s)) == Times(todo, Decrement(s))
    ensures UpsBy(steps, s) + Times(rest, Increment(s)) == Times(todo, Increment(s))
    decreases |steps|
  {
    hide Follows;
    if steps != [] {
      var mid :| Follows(steps[0].before, steps[0].after, t, todo, mid) && Performs(steps[1..], t, mid, rest);
      PerformsTimes(steps[1..], t, mid, rest, s);
      FollowsTimes(steps[0].before, steps[0].after, t, todo, mid, s);
    }
  }

  lemma FollowsTimes(y: Synch, y': Synch, t: Tid, todo: seq<Act>, rest: seq<Act>, s: SemaId)
    requires Follows(y, y', t, todo, rest)
    ensures Downs(y', s) - Downs(y, s) + Times(rest, Decrement(s)) == Times(todo, Decrement(s))
    ensures Ups(y', s) - Ups(y, s) + Times(rest, Increment(s)) == Times(todo, Increment(s))
  {
    hide Did, Silent;
    if Silent(y, y') && rest == todo {
      SilentCounts(y, y', s);
    } else {
      DidCounts(y, y', t, todo[0], s);
    }
  }

  lemma SilentCounts(y: Synch, y': Synch, s: SemaId)
    requires Silent(y, y')
    ensures Downs(y', s) == Downs(y, s) && Ups(y', s) == Ups(y, s)
  {
  }

  lemma DidCounts(y: Synch, y': Synch, t: Tid, a: Act, s: SemaId)
    requires Did(y, y', t, a)
    ensures Downs(y', s) == Downs(y, s) + One(a == Decrement(s)) && Ups(y', s) == Ups(y, s) + One(a == Increment(s))
  {
    hide Value, Waiters, Queue, Enqueued, Signalled, Holds;
    if a.Decrement? || a.Increment? {
    } else if a.Join? {
    } else {
    }
  }

  /** `sema_down` decrements its semaphore once and no other, and raises none; `sema_up` the
      other way round. */
  lemma SemaCalls(k: State, op: Op, es: seq<Event>, s: SemaId)
    requires WholeCall(k, op, es) && (op.SemaDown? || op.SemaUp?)
    ensures DownsBy(StepsOf(k, op, es), s) == One(op.SemaDown? && s == Plain(op.id))
    ensures UpsBy(StepsOf(k, op, es), s) == One(op.SemaUp? && s == Plain(op.id))
  {
    hide WholeCall, Performs;
    CallPerforms(k, op, es);
    PerformsTimes(StepsOf(k, op, es), k.cur, Script(k.sync, op), [], s);
  }

  // ----- locks -----

  /** `lock_acquire` returns with the lock held by the caller alone, after taking one unit of
      its semaphore and of no other. */
  lemma AcquireReturns(k: State, l: LockId, es: seq<Event>, s: SemaId)
    requires WholeCall(k, LockAcquire(l), es)
    ensures var k2 := Returned(k, LockAcquire(l), es); Holds(k2.sync, l, k.cur) && Owners(k2.sync, l) == {k.cur}
    ensures DownsBy(StepsOf(k, LockAcquire(l), es), s) == One(s == OfLock(l))
    ensures UpsBy(StepsOf(k, LockAcquire(l), es), s) == 0
  {
    hide Reachable, Performs, Inv, Apply, Enabled, Times;
    CallPerforms(k, LockAcquire(l), es);
    PerformsTimes(StepsOf(k, LockAcquire(l), es), k.cur, Script(k.sync, LockAcquire(l)), [], s);
    CallStarts(k, LockAcquire(l), es);
    CallFacts(k, LockAcquire(l), es);
    TwoTimes(Decrement(OfLock(l)), Store(l), Decrement(s));
    TwoTimes(Decrement(OfLock(l)), Store(l), Increment(s));
    WaitReturnsHolding(Apply(k, Begin(LockAcquire(l))), es, k.cur, l);
  }

  /** `lock_release` returns with the lock given up, after raising its semaphore once and no
      other. */
  lemma ReleaseReturns(k: State, l: LockId, es: seq<Event>, s: SemaId)
    requires WholeCall(k, LockRelease(l), es)
    ensures k.cur !in Owners(Returned(k, LockRelease(l), es).sync, l)
    ensures UpsBy(StepsOf(k, LockRelease(l), es), s) == One(s == OfLock(l))
    ensures DownsBy(StepsOf(k, LockRelease(l), es), s) == 0
  {
    hide Reachable, Performs, Inv, Apply, Enabled, Times;
    CallPerforms(k, LockRelease(l), es);
    PerformsTimes(StepsOf(k, LockRelease(l), es), k.cur, Script(k.sync, LockRelease(l)), [], s);
    CallStarts(k, LockRelease(l), es);
    CallFacts(k, LockRelease(l), es);
    TwoTimes(Clear(l), Increment(OfLock(l)), Decrement(s));
    TwoTimes(Clear(l), Increment(OfLock(l)), Increment(s));
    GivenUp(Apply(k, Begin(LockRelease(l))), es, k.cur, l);
  }

  lemma CallFacts(k: State, op: Op, es: seq<Event>)
    requires WholeCall(k, op, es)
    ensures var k1 := Apply(k, Begin(op)); Legal(k1, es) && FirstReturn(k1, es, k.cur)
    ensures op.LockAcquire? ==> WillHold(Apply(k, Begin(op)).sync.pc[k.cur], op.lock)
    ensures op.LockRelease? ==> GivesUp(Apply(k, Begin(op)).sync.pc[k.cur], op.lock)
    ensures op.SemaTryDown? ==> Apply(k, Begin(op)).sync.pc[k.cur] == TryDown(op.id)
    ensures op.LockTryAcquire? ==> Apply(k, Begin(op)).sync.pc[k.cur] == TryAcquire(op.lock)
  {
    hide Reachable;
  }

  predicate GivesUp(p: Pc, l: LockId) {
    (p.Drop? || p.Release?) && p.lock == l && p.wait.None?
  }

  lemma {:induction false} GivenUp(k: State, es: seq<Event>, t: Tid, l: LockId)
    requires Inv(k) && Legal(k, es) && t in k.sync.pc && GivesUp(k.sync.pc[t], l) && FirstReturn(k, es, t)
    ensures t !in Owners(Run(k, es).sync, l)
    decreases |es|
  {
    hide Sched, SynchInv, Enabled, Apply, GivesUp;
    var k' := Apply(k, es[0]);
    ApplyKeeps(k, es[0]);
    GivesUpEvent(k, es[0], t, l);
    if PcOf(k', t).User? {
      assert Run(k, es) == k';
    } else {
      GivenUp(k', es[1..], t, l);
    }
  }

  lemma GivesUpEvent(k: State, e: Event, t: Tid, l: LockId)
    requires Inv(k) && Enabled(k, e) && t in k.sync.pc && GivesUp(k.sync.pc[t], l)
    ensures var y' := Apply(k, e).sync;
      t in y'.pc && if y'.pc[t].User? then t !in Owners(y', l) else GivesUp(y'.pc[t], l)
  {
    hide Sched, WaitLists, Fresh, Balanced, NoLostWakeup, Conds, Apply, Enabled, Region, Call, Raise, TryTake;
    EventIsMove(k, e);
    assert HolderMatches(k.sync, t, k.sync.pc[t]);
    hide Locks;
    if MoveOf(k, e) == Some(Do(t)) {
      GivesUpStep(k.sync, t, l);
    } else if MoveOf(k, e).Some? {
      OthersKeepPc(k.sync, MoveOf(k, e).value, t);
    }
  }

  lemma GivesUpStep(y: Synch, t: Tid, l: LockId)
    requires t in y.pc && GivesUp(y.pc[t], l) && HolderMatches(y, t, y.pc[t])
    ensures var y' := Region(y, t);
      t in y'.pc && if y'.pc[t].User? then t !in Owners(y', l) else GivesUp(y'.pc[t], l)
  {
    hide Region;
    if y.pc[t].Release? {
      UpRegionIs(y, t);
    } else {
      LocalRegionIs(y, t);
    }
  }

  // ----- condition variables -----

  /** `cond_signal` takes the first entry that was queued at the call, if there was one, and
      raises that entry's semaphore; nothing else leaves the queue meanwhile. */
  lemma SignalReturns(k: State, c: CondId, es: seq<Event>)
    requires WholeCall(k, CondSignal(c), es)
    ensures Performs(StepsOf(k, CondSignal(c), es), k.cur,
                     if Queue(k.sync, c) == [] then []
                     else [Leave(c, Queue(k.sync, c)[0]), Increment(Private(Queue(k.sync, c)[0]))], [])
  {
    hide WholeCall, Performs;
    CallPerforms(k, CondSignal(c), es);
    PostingFirst(c, FirstOf(Queue(k.sync, c)));
    hide Posting;
    if Queue(k.sync, c) != [] {
      var w := Queue(k.sync, c)[0];
      assert Script(k.sync, CondSignal(c)) == [Leave(c, w), Increment(Private(w))];
    }
  }

  lemma JoinDid(y: Synch, t: Tid, c: CondId)
    requires t in y.pc && y.pc[t] == Enqueue(c)
    ensures var y' := Region(y, t);
      && t in y'.pc && y'.pc[t] == Drop(c.lock, Some(y.nextWaiter))
      && Did(y, y', t, Join(c, y.nextWaiter)) && y.nextWaiter in Enqueued(y', c)
  {
    hide Region;
    LocalRegionIs(y, t);
    hide LocalEffect, LocalNext;
    LocalEntry(y, t, Enqueue(c));
    NextOfEnqueue(y, c);
  }

  lemma NextOfEnqueue(y: Synch, c: CondId)
    ensures LocalNext(y, Enqueue(c)) == Drop(c.lock, Some(y.nextWaiter))
  {
  }

  /** The steps of `cond_wait`, with the entry that it gets. */
  lemma {:induction false} WaitPerforms(k: State, es: seq<Event>, t: Tid, c: CondId) returns (w: WaitId)
    requires Inv(k) && Legal(k, es) && t in k.sync.pc && k.sync.pc[t] == Enqueue(c)
    requires Busy(k, es, t) && PcOf(Run(k, es), t).User?
    ensures Performs(OwnSteps(k, es, t), t, [Join(c, w)] + Waiting(c.lock, w), [])
    ensures w in Signalled(Run(k, es).sync, c)
    decreases |es|
  {
    hide Sched, SynchInv, Enabled, Apply, Performs, Waiting, Did;
    assert es != [];
    var k' := Apply(k, es[0]);
    ApplyKeeps(k, es[0]);
    EventIsMove(k, es[0]);
    if MoveOf(k, es[0]) == Some(Do(t)) {
      w := k.sync.nextWaiter;
      JoinDid(k.sync, t, c);
      Joining(k, k', es, t, c, w);
    } else {
      hide DoMove, CanMove;
      if MoveOf(k, es[0]).Some? {
        OthersKeepPc(k.sync, MoveOf(k, es[0]).value, t);
      }
      w := WaitPerforms(k', es[1..], t, c);
    }
  }

  lemma Joining(k: State, k': State, es: seq<Event>, t: Tid, c: CondId, w: WaitId)
    requires es != [] && Legal(k, es) && k' == Apply(k, es[0]) && MoveOf(k, es[0]) == Some(Do(t)) && Inv(k')
    requires Did(k.sync, k'.sync, t, Join(c, w)) && t in k'.sync.pc && k'.sync.pc[t] == Drop(c.lock, Some(w))
    requires w in Enqueued(k'.sync, c) && Busy(k, es, t) && PcOf(Run(k, es), t).User?
    ensures Performs(OwnSteps(k, es, t), t, [Join(c, w)] + Waiting(c.lock, w), [])
    ensures w in Signalled(Run(k, es).sync, c)
  {
    hide Inv, Enabled, Apply, Performs, Did, Follows;
    RunPerforms(k', es[1..], t);
    UserIsDone(Run(k', es[1..]).sync, PcOf(Run(k', es[1..]), t));
    FollowsFirst(k.sync, k'.sync, t, [Join(c, w)] + Waiting(c.lock, w), Waiting(c.lock, w));
    PerformsOne(k.sync, k'.sync, OwnSteps(k', es[1..], t), t,
                [Join(c, w)] + Waiting(c.lock, w), Waiting(c.lock, w), []);
    WaitSignalled(k', es[1..], t, c, w);
  }

  lemma LocalGrowsSignalled(y: Synch, t: Tid, p: Pc, c: CondId)
    ensures Signalled(y, c) <= Signalled(LocalEffect(y, t, p), c)
  {
    hide LocalEffect, Value;
    if p.TryDown? || p.TryAcquire? {
      LocalTry(y, t, p);
    } else if p.Enqueue? || p.Signal? {
      LocalEntry(y, t, p);
    } else {
      LocalHolder(y, t, p);
    }
  }

  lemma MoveGrowsSignalled(y: Synch, m: Move, c: CondId)
    requires CanMove(y, m)
    ensures Signalled(y, c) <= Signalled(DoMove(y, m), c)
  {
    hide UpPlan, DownPlan, LocalEffect, LocalNext, Value, Entry, Waiters;
    if m.Do? {
      LocalGrowsSignalled(y, m.thread, y.pc[m.thread], c);
    }
  }

  /** A waiter that gets its token has been signalled. */
  lemma TokenMeansSignalled(y: Synch, c: CondId, w: WaitId)
    requires Conds(y) && w in Enqueued(y, c) && Value(y, Private(w)) > 0
    ensures w in Signalled(y, c)
  {
    assert FifoAt(y, c);
    assert ConservedAt(y, w);
    hide Conds;
    assert !IsQueued(y, w);
  }

  lemma WaitStep(y: Synch, t: Tid, c: CondId, w: WaitId)
    requires Conds(y) && t in y.pc && InWait(y.pc[t], w) && w in Enqueued(y, c)
    ensures var y' := Region(y, t); t in y'.pc && (InWait(y'.pc[t], w) || w in Signalled(y, c))
  {
    hide Conds, Region, Value, Enqueued, Signalled;
    var p := y.pc[t];
    if p.Release? {
      UpRegionIs(y, t);
    } else if p.Sleep? {
      DownRegionIs(y, t);
      if Value(y, Private(w)) > 0 {
        TokenMeansSignalled(y, c, w);
      }
    } else {
      LocalRegionIs(y, t);
    }
  }

  lemma WaitEvent(k: State, e: Event, t: Tid, c: CondId, w: WaitId)
    requires Inv(k) && Enabled(k, e) && t in k.sync.pc && InWait(k.sync.pc[t], w) && w in Enqueued(k.sync, c)
    ensures var y' := Apply(k, e).sync;
      t in y'.pc && w in Enqueued(y', c) && (InWait(y'.pc[t], w) || w in Signalled(y', c))
  {
    hide Sched, WaitLists, Fresh, Balanced, NoLostWakeup, Locks, Conds, Apply, Enabled, Enqueued, Signalled, Region;
    hide Call, Raise, TryTake;
    EventIsMove(k, e);
    WaitIsBusy(k.sync.pc[t], w);
    if MoveOf(k, e).Some? {
      var m := MoveOf(k, e).value;
      MoveGrowsEnqueued(k.sync, m, c);
      MoveGrowsSignalled(k.sync, m, c);
      hide InWait;
      if m == Do(t) {
        WaitStep(k.sync, t, c, w);
      } else {
        OthersKeepPc(k.sync, m, t);
      }
    }
  }

  lemma WaitIsBusy(p: Pc, w: WaitId)
    ensures InWait(p, w) ==> !p.User?
  {
  }

  lemma {:induction false} RunGrowsSignalled(k: State, es: seq<Event>, c: CondId)
    requires Inv(k) && Legal(k, es)
    ensures Signalled(k.sync, c) <= Signalled(Run(k, es).sync, c)
    decreases |es|
  {
    hide Inv, Apply, Enabled, DoMove, CanMove, Signalled;
    if es != [] {
      ApplyKeeps(k, es[0]);
      assert Sched(k) by { InvSched(k); }
      EventIsMove(k, es[0]);
      if MoveOf(k, es[0]).Some? {
        MoveGrowsSignalled(k.sync, MoveOf(k, es[0]).value, c);
      }
      RunGrowsSignalled(Apply(k, es[0]), es[1..], c);
    }
  }

  lemma InvSched(k: State)
    requires Inv(k)
    ensures Sched(k)
  {
  }

  /** A waiter returns only after its entry has been signalled. */
  lemma {:induction false} WaitSignalled(k: State, es: seq<Event>, t: Tid, c: CondId, w: WaitId)
    requires Inv(k) && Legal(k, es) && t in k.sync.pc && InWait(k.sync.pc[t], w) && w in Enqueued(k.sync, c)
    requires PcOf(Run(k, es), t).User?
    ensures w in Signalled(Run(k, es).sync, c)
    decreases |es|
  {
    hide Inv, Apply, Enabled, InWait, Signalled, Enqueued;
    WaitIsBusy(k.sync.pc[t], w);
    if es != [] {
      var k' := Apply(k, es[0]);
      ApplyKeeps(k, es[0]);
      WaitEvent(k, es[0], t, c, w);
      if w in Signalled(k'.sync, c) {
        RunGrowsSignalled(k', es[1..], c);
      } else {
        WaitSignalled(k', es[1..], t, c, w);
      }
    }
  }

  /** `cond_wait` joins the queue with one entry, gives up the lock, waits for its own
      semaphore and takes the lock again, in that order; it returns with the lock held by the
      caller alone, and only after its entry has been signalled. */
  lemma WaitReturns(k: State, c: CondId, es: seq<Event>) returns (w: WaitId)
    requires WholeCall(k, CondWait(c), es)
    ensures var l := c.lock;
      Performs(StepsOf(k, CondWait(c), es), k.cur,
               [Join(c, w), Clear(l), Increment(OfLock(l)), Decrement(Private(w)), Decrement(OfLock(l)), Store(l)], [])
    ensures var k2 := Returned(k, CondWait(c), es);
      Holds(k2.sync, c.lock, k.cur) && Owners(k2.sync, c.lock) == {k.cur} && w in Signalled(k2.sync, c)
  {
    hide Reachable, Inv, Performs, Apply;
    CallStarts(k, CondWait(c), es);
    WaitEntry(k, c);
    hide Enabled;
    w := WaitPerforms(Apply(k, Begin(CondWait(c))), es, k.cur, c);
    WaitReturnsHolding(Apply(k, Begin(CondWait(c))), es, k.cur, c.lock);
    var l := c.lock;
    assert [Join(c, w)] + Waiting(l, w) ==
      [Join(c, w), Clear(l), Increment(OfLock(l)), Decrement(Private(w)), Decrement(OfLock(l)), Store(l)];
  }

  lemma WaitEntry(k: State, c: CondId)
    requires Enabled(k, Begin(CondWait(c)))
    ensures Apply(k, Begin(CondWait(c))).sync.pc[k.cur] == Enqueue(c)
  {
  }

  // ----- the calls that do not wait -----

  lemma TryStep(y: Synch, t: Tid)
    requires t in y.pc && (y.pc[t].TryDown? || y.pc[t].TryAcquire?)
    ensures var y', s := Region(y, t), if y.pc[t].TryDown? then Plain(y.pc[t].id) else OfLock(y.pc[t].lock);
      && t in y'.pc && (if Value(y, s) > 0 then Did(y, y', t, Decrement(s)) else Silent(y, y'))
      && (if y.pc[t].TryAcquire? && Value(y, s) > 0 then y'.pc[t] == Hold(y.pc[t].lock) else y'.pc[t] == User)
      && y'.holder == y.holder
  {
    hide Region;
    LocalRegionIs(y, t);
    LocalTry(y, t, y.pc[t]);
  }

  /** The steps of a try call: the first looks at the value and takes a unit exactly if it is
      positive. */
  lemma {:induction false} TryPerforms(k: State, es: seq<Event>, t: Tid, s: SemaId)
    requires Inv(k) && Legal(k, es) && t in k.sync.pc && FirstReturn(k, es, t)
    requires (s.Plain? && k.sync.pc[t] == TryDown(s.id)) || (s.OfLock? && k.sync.pc[t] == TryAcquire(s.lock))
    ensures var steps, y2 := OwnSteps(k, es, t), Run(k, es).sync;
      && steps != []
      && (Value(steps[0].before, s) == 0 ==> |steps| == 1 && Silent(steps[0].before, steps[0].after))
      && (Value(steps[0].before, s) > 0 ==>
            Performs(steps, t, if s.OfLock? then Taking(s.lock) else [Decrement(s)], []))
      && (s.OfLock? ==> (Holds(y2, s.lock, t) <==> Value(steps[0].before, s) > 0))
      && (s.OfLock? ==> (Owners(y2, s.lock) == {t} <==> Value(steps[0].before, s) > 0))
    decreases |es|
  {
    hide Sched, SynchInv, Enabled, Apply, Performs, Did, Silent, Value, Owners;
    var k' := Apply(k, es[0]);
    ApplyKeeps(k, es[0]);
    EventIsMove(k, es[0]);
    if MoveOf(k, es[0]) == Some(Do(t)) {
      TryStep(k.sync, t);
      TryEnds(k, k', es, t, s);
    } else {
      hide DoMove, CanMove;
      if MoveOf(k, es[0]).Some? {
        OthersKeepPc(k.sync, MoveOf(k, es[0]).value, t);
      }
      TryPerforms(k', es[1..], t, s);
    }
  }

  lemma TryEnds(k: State, k': State, es: seq<Event>, t: Tid, s: SemaId)
    requires es != [] && Legal(k, es) && k' == Apply(k, es[0]) && MoveOf(k, es[0]) == Some(Do(t)) && Inv(k) && Inv(k')
    requires t in k.sync.pc && t in k'.sync.pc && FirstReturn(k, es, t) && k'.sync.holder == k.sync.holder
    requires (s.Plain? && k.sync.pc[t] == TryDown(s.id)) || (s.OfLock? && k.sync.pc[t] == TryAcquire(s.lock))
    requires if Value(k.sync, s) > 0 then Did(k.sync, k'.sync, t, Decrement(s)) else Silent(k.sync, k'.sync)
    requires if s.OfLock? && Value(k.sync, s) > 0 then k'.sync.pc[t] == Hold(s.lock) else k'.sync.pc[t] == User
    ensures var steps, y2 := OwnSteps(k, es, t), Run(k, es).sync;
      && steps != [] && steps[0].before == k.sync
      && (Value(k.sync, s) == 0 ==> |steps| == 1 && Silent(steps[0].before, steps[0].after))
      && (Value(k.sync, s) > 0 ==> Performs(steps, t, if s.OfLock? then Taking(s.lock) else [Decrement(s)], []))
      && (s.OfLock? ==> (Holds(y2, s.lock, t) <==> Value(k.sync, s) > 0))
      && (s.OfLock? ==> (Owners(y2, s.lock) == {t} <==> Value(k.sync, s) > 0))
  {
    hide Sched, SynchInv, Enabled, Apply, Performs, Did, Silent, Value, Owners, Follows;
    if s.OfLock? && Value(k.sync, s) > 0 {
      var rest := [Store(s.lock)];
      ReturnIsBusy(k', es[1..], t);
      RunPerforms(k', es[1..], t);
      UserIsDone(Run(k', es[1..]).sync, PcOf(Run(k', es[1..]), t));
      FollowsFirst(k.sync, k'.sync, t, Taking(s.lock), rest);
      PerformsOne(k.sync, k'.sync, OwnSteps(k', es[1..], t), t, Taking(s.lock), rest, []);
      WaitReturnsHolding(k', es[1..], t, s.lock);
    } else {
      assert es[1..] == [] && OwnSteps(k', es[1..], t) == [];
      TryFails(k, k', t, s);
      if Value(k.sync, s) > 0 {
        FollowsFirst(k.sync, k'.sync, t, [Decrement(s)], []);
        PerformsOne(k.sync, k'.sync, [], t, [Decrement(s)], [], []) by { NothingLeft(t); }
      }
    }
  }

  lemma NothingLeft(t: Tid)
    ensures Performs([], t, [], [])
  {
  }

  /** A thread that tries to take a lock and fails does not own it. */
  lemma TryFails(k: State, k': State, t: Tid, s: SemaId)
    requires Inv(k) && t in k.sync.pc && k'.sync.holder == k.sync.holder && t in k'.sync.pc
    requires s.OfLock? ==> k.sync.pc[t] == TryAcquire(s.lock) && k'.sync.pc[t] == User
    ensures s.OfLock? ==> !Holds(k'.sync, s.lock, t) && t !in Owners(k'.sync, s.lock)
  {
    hide Sched, WaitLists, Fresh, Balanced, NoLostWakeup, Conds, ExclusiveAt;
    assert HolderMatches(k.sync, t, k.sync.pc[t]);
  }

  /** `sema_try_down` makes one step, which takes a unit exactly if the value is positive then. */
  lemma TryDownReturns(k: State, id: nat, es: seq<Event>)
    requires WholeCall(k, SemaTryDown(id), es)
    ensures var steps, s := StepsOf(k, SemaTryDown(id), es), Plain(id);
      && steps != []
      && (Value(steps[0].before, s) == 0 ==> |steps| == 1 && Silent(steps[0].before, steps[0].after))
      && (Value(steps[0].before, s) > 0 ==> Performs(steps, k.cur, [Decrement(s)], []))
  {
    hide Reachable, Inv, Apply, Enabled, Performs, Silent, Value, Owners;
    CallStarts(k, SemaTryDown(id), es);
    CallFacts(k, SemaTryDown(id), es);
    TryPerforms(Apply(k, Begin(SemaTryDown(id))), es, k.cur, Plain(id));
  }

  /** `lock_try_acquire` takes the lock like `lock_acquire` if it is free when it looks, and
      changes nothing otherwise; it returns with the lock held exactly in the first case. */
  lemma TryAcquireReturns(k: State, l: LockId, es: seq<Event>)
    requires WholeCall(k, LockTryAcquire(l), es)
    ensures var steps, s, y2 := StepsOf(k, LockTryAcquire(l), es), OfLock(l), Returned(k, LockTryAcquire(l), es).sync;
      && steps != []
      && (Value(steps[0].before, s) == 0 ==> |steps| == 1 && Silent(steps[0].before, steps[0].after))
      && (Value(steps[0].before, s) > 0 ==> Performs(steps, k.cur, [Decrement(s), Store(l)], []))
      && (Holds(y2, l, k.cur) <==> Value(steps[0].before, s) > 0)
      && (Owners(y2, l) == {k.cur} <==> Value(steps[0].before, s) > 0)
  {
    hide Reachable, Inv, Apply, Enabled, Performs, Silent, Value, Owners;
    CallStarts(k, LockTryAcquire(l), es);
    CallFacts(k, LockTryAcquire(l), es);
    TryPerforms(Apply(k, Begin(LockTryAcquire(l))), es, k.cur, OfLock(l));
  }

  // ----- threads -----

  /** `thread_create` returns with the new thread at the end of the ready list, not started. */
  lemma CreateReturns(k: State, u: Tid, es: seq<Event>)
    requires WholeCall(k, ThreadCreate(u), es)
    ensures var k2 := Returned(k, ThreadCreate(u), es);
      && u in k2.status && k2.status[u].Ready? && u in k2.sync.pc && k2.sync.pc[u] == Born(None)
      && k2.ready != [] && k2.ready[|k2.ready| - 1] == u
  {
    CallStarts(k, ThreadCreate(u), es);
    hide Reachable, Inv;
    CreateRun(Apply(k, Begin(ThreadCreate(u))), es, k.cur, u);
  }

  lemma {:induction false} CreateRun(k: State, es: seq<Event>, t: Tid, u: Tid)
    requires Inv(k) && Legal(k, es) && t in k.sync.pc && k.sync.pc[t] == Start(u) && FirstReturn(k, es, t)
    ensures var k2 := Run(k, es);
      && u in k2.status && k2.status[u].Ready? && u in k2.sync.pc && k2.sync.pc[u] == Born(None)
      && k2.ready != [] && k2.ready[|k2.ready| - 1] == u
    decreases |es|
  {
    hide Sched, SynchInv, Enabled, Apply;
    var k' := Apply(k, es[0]);
    ApplyKeeps(k, es[0]);
    EventIsMove(k, es[0]);
    if MoveOf(k, es[0]) == Some(Do(t)) {
      StartStep(k, es[0], t, u);
      assert Run(k, es) == k';
    } else {
      hide DoMove, CanMove;
      if MoveOf(k, es[0]).Some? {
        OthersKeepPc(k.sync, MoveOf(k, es[0]).value, t);
      }
      CreateRun(k', es[1..], t, u);
    }
  }

  lemma StartStep(k: State, e: Event, t: Tid, u: Tid)
    requires Sched(k) && Enabled(k, e) && MoveOf(k, e) == Some(Do(t)) && t in k.sync.pc && k.sync.pc[t] == Start(u)
    ensures var k2 := Apply(k, e);
      && PcOf(k2, t).User?
      && u in k2.status && k2.status[u].Ready? && u in k2.sync.pc && k2.sync.pc[u] == Born(None)
      && k2.ready != [] && k2.ready[|k2.ready| - 1] == u
  {
    StartFacts(k, u);
    hide Sched, Region;
    LocalRegionIs(k.sync, t);
  }

  /** The idle thread raises the semaphore that `thread_start` waits for once, before it
      enters its loop. */
  lemma IdleStarts(initial: map<nat, nat>, started: nat, es: seq<Event>)
    requires Legal(BootState(initial, started), es)
    ensures var k := Run(BootState(initial, started), es);
      && IDLE in k.sync.pc
      && Performs(OwnSteps(BootState(initial, started), es, IDLE), IDLE, [Increment(Plain(started))],
                  if k.sync.pc[IDLE].IdleLoop? then [] else [Increment(Plain(started))])
  {
    hide Inv, Performs, Todo, IdlePlace, Known;
    var b := BootState(initial, started);
    BootInv(initial, started);
    assert b.sync.pc[IDLE] == Born(Some(started));
    hide BootState;
    BornIdle(started);
    IdleTodo(b.sync, b.sync.pc[IDLE], started);
    IdleBusy(b, es, started);
    RunPerforms(b, es, IDLE);
    var k := Run(b, es);
    IdleTodo(k.sync, k.sync.pc[IDLE], started);
  }

  lemma BornIdle(started: nat)
    ensures IdlePlace(Born(Some(started)), started) && Known(Born(Some(started)))
  {
  }

  lemma IdleTodo(y: Synch, p: Pc, started: nat)
    requires IdlePlace(p, started)
    ensures Todo(y, p) == if p.IdleLoop? then [] else [Increment(Plain(started))]
  {
  }

  predicate IdlePlace(p: Pc, started: nat) {
    p == Born(Some(started)) || p == SetIdle(started) || p == IdleUp(started) || p == IdleLoop
  }

  lemma {:induction false} IdleBusy(k: State, es: seq<Event>, started: nat)
    requires Inv(k) && Legal(k, es) && IDLE in k.sync.pc && IdlePlace(k.sync.pc[IDLE], started)
    ensures Busy(k, es, IDLE) && var k2 := Run(k, es); IDLE in k2.sync.pc && IdlePlace(k2.sync.pc[IDLE], started)
    decreases |es|
  {
    hide Sched, SynchInv, Enabled, Apply, IdlePlace;
    IdleIsBusy(k.sync.pc[IDLE], started);
    if es != [] {
      ApplyKeeps(k, es[0]);
      EventIsMove(k, es[0]);
      if MoveOf(k, es[0]) == Some(Do(IDLE)) {
        IdleStep(k.sync, started);
      } else if MoveOf(k, es[0]).Some? {
        hide DoMove, CanMove;
        OthersKeepPc(k.sync, MoveOf(k, es[0]).value, IDLE);
      }
      IdleBusy(Apply(k, es[0]), es[1..], started);
    }
  }

  lemma IdleIsBusy(p: Pc, started: nat)
    requires IdlePlace(p, started)
    ensures !p.User?
  {
  }

  lemma IdleStep(y: Synch, started: nat)
    requires IDLE in y.pc && IdlePlace(y.pc[IDLE], started)
    ensures IDLE in Region(y, IDLE).pc && IdlePlace(Region(y, IDLE).pc[IDLE], started)
  {
    hide Region;
    if y.pc[IDLE].IdleUp? {
      UpRegionIs(y, IDLE);
    } else {
      LocalRegionIs(y, IDLE);
    }
  }

  // ----- what can happen next -----

  /** In every reachable state the current thread can go on: inside a primitive with its next
      region, in user code with any call whose assertions hold, with `thread_yield` or with
      `thread_exit`.  Interrupts come in between unless the thread has just been resumed inside
      `sema_down` or has not entered `kernel_thread` yet. */
  lemma CanGoOn(k: State)
    requires Reachable(k)
    ensures k.cur in k.sync.pc
    ensures Enabled(k, Advance) <==> !k.sync.pc[k.cur].User?
    ensures Enabled(k, Yield) <==> k.sync.pc[k.cur].User?
    ensures Enabled(k, Exit) <==> k.sync.pc[k.cur].User?
    ensures forall id: nat :: k.sync.pc[k.cur].User? ==>
      Enabled(k, Begin(SemaDown(id))) && Enabled(k, Begin(SemaUp(id))) && Enabled(k, Begin(SemaTryDown(id)))
    ensures forall l: LockId :: k.sync.pc[k.cur].User? ==>
      && (Enabled(k, Begin(LockAcquire(l))) <==> !Holds(k.sync, l, k.cur))
      && (Enabled(k, Begin(LockTryAcquire(l))) <==> !Holds(k.sync, l, k.cur))
      && (Enabled(k, Begin(LockRelease(l))) <==> Holds(k.sync, l, k.cur))
    ensures forall c: CondId :: k.sync.pc[k.cur].User? ==>
      && (Enabled(k, Begin(CondWait(c))) <==> Holds(k.sync, c.lock, k.cur))
      && (Enabled(k, Begin(CondSignal(c))) <==> Holds(k.sync, c.lock, k.cur))
      && (Enabled(k, Begin(CondBroadcast(c))) <==> Holds(k.sync, c.lock, k.cur))
    ensures forall u: Tid :: k.sync.pc[k.cur].User? ==> (Enabled(k, Begin(ThreadCreate(u))) <==> u !in k.sync.pc)
    ensures Enabled(k, Tick) <==> SleepsOn(k.sync.pc[k.cur]).None? && !k.sync.pc[k.cur].Born?
    ensures forall id: nat :: Enabled(k, HandlerUp(id)) && Enabled(k, HandlerTryDown(id)) <==> Enabled(k, Tick)
  {
    hide Reachable, SynchInv, SleepsOn, Enabled, Allowed, Holds;
    ReachableInv(k);
    hide Sched;
    OwnMoves(k);
    SemaMoves(k);
    LockMoves(k);
    CondMoves(k);
    CreateMoves(k);
  }

  lemma OwnMoves(k: State)
    requires k.cur in k.sync.pc
    ensures Enabled(k, Advance) <==> !k.sync.pc[k.cur].User?
    ensures Enabled(k, Yield) <==> k.sync.pc[k.cur].User?
    ensures Enabled(k, Exit) <==> k.sync.pc[k.cur].User?
    ensures Enabled(k, Tick) <==> SleepsOn(k.sync.pc[k.cur]).None? && !k.sync.pc[k.cur].Born?
    ensures forall id: nat :: Enabled(k, HandlerUp(id)) && Enabled(k, HandlerTryDown(id)) <==> Enabled(k, Tick)
  {
    hide SleepsOn, Allowed;
  }

  lemma SemaMoves(k: State)
    requires k.cur in k.sync.pc
    ensures forall id: nat :: k.sync.pc[k.cur].User? ==>
      Enabled(k, Begin(SemaDown(id))) && Enabled(k, Begin(SemaUp(id))) && Enabled(k, Begin(SemaTryDown(id)))
  {
    hide Holds;
  }

  lemma LockMoves(k: State)
    requires k.cur in k.sync.pc
    ensures forall l: LockId :: k.sync.pc[k.cur].User? ==>
      && (Enabled(k, Begin(LockAcquire(l))) <==> !Holds(k.sync, l, k.cur))
      && (Enabled(k, Begin(LockTryAcquire(l))) <==> !Holds(k.sync, l, k.cur))
      && (Enabled(k, Begin(LockRelease(l))) <==> Holds(k.sync, l, k.cur))
  {
    hide Holds;
  }

  lemma CondMoves(k: State)
    requires k.cur in k.sync.pc
    ensures forall c: CondId :: k.sync.pc[k.cur].User? ==>
      && (Enabled(k, Begin(CondWait(c))) <==> Holds(k.sync, c.lock, k.cur))
      && (Enabled(k, Begin(CondSignal(c))) <==> Holds(k.sync, c.lock, k.cur))
      && (Enabled(k, Begin(CondBroadcast(c))) <==> Holds(k.sync, c.lock, k.cur))
  {
    hide Holds;
  }

  lemma CreateMoves(k: State)
    requires k.cur in k.sync.pc
    ensures forall u: Tid :: k.sync.pc[k.cur].User? ==> (Enabled(k, Begin(ThreadCreate(u))) <==> u !in k.sync.pc)
  {
    hide Holds;
  }

  /** A thread that has exited never gets the processor again. */
  lemma {:induction false} ExitIsFinal(k: State, es: seq<Event>, t: Tid)
    requires Inv(k) && Legal(k, es) && t in k.status && k.status[t].Dying?
    ensures !GetsProcessor(k, es, t)
    decreases |es|
  {
    hide SynchInv, Enabled, Apply;
    NotCurrent(k, t);
    hide Sched;
    if es != [] {
      ApplyKeeps(k, es[0]);
      StaysDying(k, es[0], t);
      ExitIsFinal(Apply(k, es[0]), es[1..], t);
    }
  }

  lemma NotCurrent(k: State, t: Tid)
    requires Sched(k) && t in k.status && k.status[t].Dying?
    ensures k.cur != t
  {
  }

  lemma StaysDying(k: State, e: Event, t: Tid)
    requires Inv(k) && Enabled(k, e) && t in k.status && k.status[t].Dying?
    ensures t in Apply(k, e).status && Apply(k, e).status[t].Dying?
  {
    hide SynchInv;
    if Switches(k, e) {
      AtScheduleLeaves(k, e);
      NextThreadStatus(AtSchedule(k, e));
      DyingAtSchedule(k, e, t);
      hide Apply, Switches, Enabled, AtSchedule;
    } else {
      DyingUnswitched(k, e, t);
    }
  }

  lemma DyingAtSchedule(k: State, e: Event, t: Tid)
    requires Sched(k) && Enabled(k, e) && Switches(k, e) && t in k.status && k.status[t].Dying?
    ensures var m := AtSchedule(k, e); t in m.status && m.status[t].Dying? && t != IDLE
  {
    NotCurrent(k, t);
    hide Region, Value;
  }

  lemma DyingUnswitched(k: State, e: Event, t: Tid)
    requires Sched(k) && Enabled(k, e) && !Switches(k, e) && t in k.status && k.status[t].Dying?
    ensures t in Apply(k, e).status && Apply(k, e).status[t].Dying?
  {
    hide Region, Raise, TryTake, Call, Schedule, Step;
    match e
    case HandlerUp(id) => HandlerUnblocks(k, Plain(id));
    case Advance => DyingStep(k, t);
    case _ => hide Sched;
  }

  lemma DyingStep(k: State, t: Tid)
    requires Sched(k) && Enabled(k, Advance) && !Switches(k, Advance) && t in k.status && k.status[t].Dying?
    ensures t in Step(k).status && Step(k).status[t].Dying?
  {
    hide Region, Raise, TryTake, Call, Schedule;
    var p := k.sync.pc[k.cur];
    if UpPlan(p).Some? {
      HandlerUnblocks(k, UpPlan(p).value.sema);
    } else if p.Start? {
      StartFacts(k, p.thread);
    }
    hide Sched;
  }

  /** `thread_exit` gives the processor to another thread for good. */
  lemma ExitReturnsNever(k: State, es: seq<Event>)
    requires Reachable(k) && Enabled(k, Exit) && Legal(Apply(k, Exit), es)
    ensures !GetsProcessor(Apply(k, Exit), es, k.cur)
  {
    hide Reachable, Legal, GetsProcessor;
    ReachableInv(k);
    ApplyKeeps(k, Exit);
    DyingAfterExit(k);
    ExitIsFinal(Apply(k, Exit), es, k.cur);
  }

  lemma DyingAfterExit(k: State)
    requires Inv(k) && Enabled(k, Exit)
    ensures k.cur in Apply(k, Exit).status && Apply(k, Exit).status[k.cur].Dying?
  {
    hide SynchInv;
    AtScheduleLeaves(k, Exit);
    NextThreadStatus(AtSchedule(k, Exit));
    hide Leaving;
  }

  /** The current thread goes to the end of the ready list, unless it is the idle thread, and the
      first ready thread runs with a new time slice. */
  predicate HandsOver(k: State, k': State) {
    && k'.cur == (if k.ready != [] then k.ready[0] else k.cur)
    && k'.ready == (if k.ready == [] then []
                    else k.ready[1..] + if k.idle == Some(k.cur) then [] else [k.cur])
    && k'.ticks == 0 && k'.sync == k.sync && k'.idle == k.idle
  }

  /** The fourth tick of a time slice preempts the thread, the others only count;
      `thread_yield` hands over at once. */
  lemma SliceIsFour(k: State, e: Event)
    requires Reachable(k) && Enabled(k, e)
    ensures e.Tick? && k.ticks < 3 ==> Apply(k, e) == k.(ticks := k.ticks + 1)
    ensures e.Tick? && k.ticks >= 3 ==> HandsOver(k, Apply(k, e))
    ensures e.Yield? ==> HandsOver(k, Apply(k, e))
    ensures k.ticks <= 3
  {
    hide Reachable, SynchInv, Region, Call, Raise, TryTake;
    ReachableInv(k);
    TicksInSlice(k);
    hide Sched, Enabled;
  }

  lemma TicksInSlice(k: State)
    requires Sched(k)
    ensures k.ticks <= 3
  {
  }

  // ----- calls end -----

  /** The regions until the thread is back in user code, if every test of a semaphore finds a
      unit. */
  function RegionsLeft(y: Synch, p: Pc): nat {
    match p
    case Acquire(_, _) => 2
    case TryAcquire(_) => 2
    case Drop(_, w) => if w.None? then 2 else 5
    case Release(_, w) => if w.None? then 1 else 4
    case Enqueue(_) => 6
    case Sleep(_, _, _) => 3
    case Signal(_, None) => 2
    case Post(_, _, None) => 1
    case Signal(_, Some(_)) => Left(y, p)
    case Post(_, _, Some(_)) => Left(y, p)
    case Broadcast(_, _) => Left(y, p)
    case User => 0
    case _ => 1
  }

  /** Inside a call of a primitive. */
  predicate InCall(p: Pc) {
    !p.User? && !p.Born? && !p.SetIdle? && !p.IdleUp? && !p.IdleLoop?
  }

  /** The next region is a test in `sema_down` that finds no unit. */
  predicate FindsNone(y: Synch, p: Pc) {
    DownPlan(p).Some? && Value(y, DownPlan(p).value.sema) == 0
  }

  predicate Broadcasts(p: Pc) {
    p.Broadcast? || (p.Signal? && p.upto.Some?) || (p.Post? && p.upto.Some?)
  }

  lemma RegionAdvances(y: Synch, t: Tid)
    requires t in y.pc && InCall(y.pc[t]) && !Broadcasts(y.pc[t])
    ensures var y' := Region(y, t);
      && t in y'.pc
      && (FindsNone(y, y.pc[t]) ==> InCall(y'.pc[t]) && RegionsLeft(y', y'.pc[t]) == RegionsLeft(y, y.pc[t]))
      && (!FindsNone(y, y.pc[t]) && !y'.pc[t].User? ==>
            InCall(y'.pc[t]) && RegionsLeft(y', y'.pc[t]) < RegionsLeft(y, y.pc[t]))
  {
    hide Value, LocalEffect, Raise, Take, PushWaiter;
  }

  lemma LeftElsewhere(y: Synch, y': Synch, p: Pc)
    requires !Broadcasts(p)
    ensures RegionsLeft(y', p) == RegionsLeft(y, p)
  {
  }

  lemma BroadcastCond(p: Pc)
    requires Broadcasts(p)
    ensures InBroadcast(p, p.cond) && InCall(p) && DownPlan(p).None?
    ensures forall y: Synch :: RegionsLeft(y, p) == Left(y, p)
  {
    hide Left;
  }

  lemma InBroadcastIs(p: Pc, c: CondId)
    requires InBroadcast(p, c)
    ensures Broadcasts(p) && p.cond == c
  {
  }

  /** A region of the thread brings its call nearer to the end unless it is a test that finds
      no unit; nothing else moves it. */
  lemma CallAdvances(k: State, e: Event, t: Tid)
    requires Inv(k) && Enabled(k, e) && t in k.sync.pc && InCall(k.sync.pc[t])
    ensures var y, y' := k.sync, Apply(k, e).sync;
      && t in y'.pc
      && (MoveOf(k, e) == Some(Do(t)) && !FindsNone(y, y.pc[t]) && !y'.pc[t].User? ==>
            InCall(y'.pc[t]) && RegionsLeft(y', y'.pc[t]) < RegionsLeft(y, y.pc[t]))
      && (MoveOf(k, e) != Some(Do(t)) || FindsNone(y, y.pc[t]) ==>
            InCall(y'.pc[t]) && RegionsLeft(y', y'.pc[t]) == RegionsLeft(y, y.pc[t]))
  {
    hide SynchInv, Apply, Enabled, Region, Left, RegionsLeft, Call, Raise, TryTake, FindsNone, Broadcasts, InBroadcast;
    var p := k.sync.pc[t];
    if Broadcasts(p) {
      BroadcastCall(k, e, t);
    } else {
      EventIsMove(k, e);
      hide Sched;
      var y' := Apply(k, e).sync;
      if MoveOf(k, e) == Some(Do(t)) {
        RegionAdvances(k.sync, t);
      } else if MoveOf(k, e).Some? {
        OthersKeepPc(k.sync, MoveOf(k, e).value, t);
        LeftElsewhere(k.sync, y', p);
      }
    }
  }

  lemma BroadcastCall(k: State, e: Event, t: Tid)
    requires Inv(k) && Enabled(k, e) && t in k.sync.pc && Broadcasts(k.sync.pc[t])
    ensures var y, y' := k.sync, Apply(k, e).sync;
      && t in y'.pc && !FindsNone(y, y.pc[t])
      && (MoveOf(k, e) == Some(Do(t)) && !y'.pc[t].User? ==>
            InCall(y'.pc[t]) && RegionsLeft(y', y'.pc[t]) < RegionsLeft(y, y.pc[t]))
      && (MoveOf(k, e) != Some(Do(t)) ==>
            InCall(y'.pc[t]) && RegionsLeft(y', y'.pc[t]) == RegionsLeft(y, y.pc[t]))
  {
    hide Inv, Apply, Enabled, Left, RegionsLeft, InCall, InBroadcast;
    var p, y' := k.sync.pc[t], Apply(k, e).sync;
    BroadcastCond(p);
    BroadcastAdvances(k, e, t, p.cond);
    if MoveOf(k, e) == Some(Do(t)) && !y'.pc[t].User? {
      InBroadcastIs(y'.pc[t], p.cond);
      BroadcastCond(y'.pc[t]);
    }
  }

  /** The regions of thread `t` along a run, without the tests that find no unit. */
  function Progress(k: State, es: seq<Event>, t: Tid): nat
    requires Legal(k, es)
    decreases |es|
  {
    if es == [] then 0
    else One(MoveOf(k, es[0]) == Some(Do(t)) && !FindsNone(k.sync, PcOf(k, t))) + Progress(Apply(k, es[0]), es[1..], t)
  }

  lemma {:induction false} CallEnds(k: State, es: seq<Event>, t: Tid)
    requires Inv(k) && Legal(k, es) && t in k.sync.pc && InCall(k.sync.pc[t])
    requires Progress(k, es, t) > RegionsLeft(k.sync, k.sync.pc[t])
    ensures Returns(k, es, t)
    decreases |es|
  {
    hide Sched, SynchInv, Enabled, Apply, RegionsLeft, InCall, FindsNone;
    if es != [] {
      var k' := Apply(k, es[0]);
      ApplyKeeps(k, es[0]);
      CallAdvances(k, es[0], t);
      if !PcOf(k', t).User? {
        CallEnds(k', es[1..], t);
      }
    }
  }

  /** The regions of a call in which every test of a semaphore finds a unit. */
  function CallLength(y: Synch, op: Op): nat {
    match op
    case LockAcquire(_) => 2
    case LockTryAcquire(_) => 2
    case LockRelease(_) => 2
    case CondWait(_) => 6
    case CondSignal(_) => 2
    case CondBroadcast(c) => 3 * |Queue(y, c)| + 1
    case _ => 1
  }

  /** Every call returns once its thread has executed more regions than that, apart from the
      tests that found no unit. */
  lemma CallReturns(k: State, op: Op, es: seq<Event>)
    requires Reachable(k) && Enabled(k, Begin(op)) && Legal(Apply(k, Begin(op)), es)
    requires Progress(Apply(k, Begin(op)), es, k.cur) > CallLength(k.sync, op)
    ensures Returns(Apply(k, Begin(op)), es, k.cur)
  {
    hide Reachable, Inv, Progress, Returns, Legal;
    ReachableInv(k);
    ApplyKeeps(k, Begin(op));
    CallBegins(k, op);
    hide Apply, Enabled, RegionsLeft, InCall, CallLength;
    CallEnds(Apply(k, Begin(op)), es, k.cur);
  }

  lemma CallBegins(k: State, op: Op)
    requires Enabled(k, Begin(op))
    ensures var y := Apply(k, Begin(op)).sync;
      k.cur in y.pc && InCall(y.pc[k.cur]) && RegionsLeft(y, y.pc[k.cur]) == CallLength(k.sync, op)
  {
    hide Allowed, Get, Step, Schedule, Unblocks, Raise, TryTake, Enqueued;
  }
}
