/** The kernel with its lists in place.  Each thread has one list element, which links it
    into the ready list or into the wait list of one semaphore; each call of `cond_wait` has
    an element in the list of its condition variable.  The events of the step system are
    carried out on these links, and all lists stay well linked and apart from each other. */
module KernelObject {
  import opened Basics
  import opened SynchModel
  import opened SchedModel
  import opened SchedInv
  import opened KernelRuns
  import opened ListPool

  /** The lists that thread elements can be on. */
  datatype ListId = ReadyId | WaitersOf(sema: SemaId)

  /** The linked lists hold what the step system says. */
  ghost predicate Represents(content: map<ListId, seq<Tid>>, ready: seq<Tid>, waiters: map<SemaId, seq<Tid>>) {
    && ReadyId in content && content[ReadyId] == ready
    && (forall s :: WaitersOf(s) in content <==> s in waiters)
    && (forall s :: s in waiters ==> content[WaitersOf(s)] == waiters[s])
  }

  /** The thread is on no list of the step system. */
  ghost predicate OffLists(ready: seq<Tid>, waiters: map<SemaId, seq<Tid>>, t: Tid) {
    t !in ready && forall s :: s in waiters ==> t !in waiters[s]
  }

  lemma OffIsLoose(tl: Lists<ListId, Tid>, ready: seq<Tid>, waiters: map<SemaId, seq<Tid>>, t: Tid)
    requires Represents(tl.content, ready, waiters) && OffLists(ready, waiters, t) && t in tl.elemOf
    ensures tl.Loose(t)
  {
    forall id | id in tl.content ensures t !in tl.content[id] {
      assert id == ReadyId || tl.content[id] == waiters[id.sema];
    }
  }

  /** The two halves of `sema_up`. */
  function Popped(y: Synch, s: SemaId): Synch {
    if Waiters(y, s) == [] then y else y.(waiters := y.waiters[s := Waiters(y, s)[1..]])
  }

  function Bumped(y: Synch, s: SemaId): Synch {
    y.(value := y.value[s := Value(y, s) + 1], hist := y.hist.(ups := y.hist.ups[s := Ups(y, s) + 1]))
  }

  lemma RaiseParts(y: Synch, s: SemaId)
    ensures Raise(y, s) == Bumped(Popped(y, s), s)
  {
    hide Value, Ups, Waiters;
    PoppedSame(y, s);
    if Waiters(y, s) == [] {
      BothUpdates(y, y.waiters, y.value[s := Value(y, s) + 1], y.hist.(ups := y.hist.ups[s := Ups(y, s) + 1]));
    } else {
      BothUpdates(y, y.waiters[s := Waiters(y, s)[1..]], y.value[s := Value(y, s) + 1],
                  y.hist.(ups := y.hist.ups[s := Ups(y, s) + 1]));
    }
  }

  lemma BothUpdates(y: Synch, waiters: map<SemaId, seq<Tid>>, value: map<SemaId, nat>, hist: History)
    ensures y.(waiters := waiters, value := value, hist := hist) ==
      y.(waiters := waiters).(value := value, hist := hist)
    ensures waiters == y.waiters ==> y.(waiters := waiters) == y
  {
  }

  lemma PoppedSame(y: Synch, s: SemaId)
    ensures Value(Popped(y, s), s) == Value(y, s) && Ups(Popped(y, s), s) == Ups(y, s)
  {
    hide Waiters;
  }

  /** The first waiter, if there is one, is a blocked thread that is on no other list. */
  ghost predicate CanWake(k: State, s: SemaId) {
    Waiters(k.sync, s) != [] ==>
      var t := Waiters(k.sync, s)[0];
      && t in k.sync.pc && t in k.status && k.status[t] == Blocked
      && OffLists(k.ready, k.sync.waiters[s := Waiters(k.sync, s)[1..]], t)
  }

  /** `thread_create` is about to unblock a blocked thread that is on no list. */
  ghost predicate CanStart(k: State, t: Tid) {
    t in k.sync.pc && t in k.status && k.status[t] == Blocked && OffLists(k.ready, k.sync.waiters, t)
  }

  lemma LocalKeepsPcs(y: Synch, t: Tid, p: Pc)
    ensures LocalEffect(y, t, p).pc == y.pc && LocalEffect(y, t, p).waiters == y.waiters
  {
  }

  lemma StepLocal(k: State, p: Pc)
    requires k.cur in k.sync.pc && k.sync.pc[k.cur] == p && UpPlan(p).None? && DownPlan(p).None?
    ensures var k1 := k.(sync := Region(k.sync, k.cur));
      Step(k) == if p.Start? then Unblock(k1, p.thread)
                 else if p.SetIdle? then k1.(idle := Some(k.cur))
                 else if p.IdleLoop? then BlockCurrent(k1) else k1
  {
  }

  lemma StepDown(k: State, plan: Plan)
    requires k.cur in k.sync.pc && DownPlan(k.sync.pc[k.cur]) == Some(plan)
    ensures var k1 := k.(sync := DownRegion(k.sync, k.cur, plan));
      Step(k) == if Value(k.sync, plan.sema) == 0 then BlockCurrent(k1) else k1
  {
  }

  /** The running thread is on no list. */
  lemma RunningOff(k: State)
    requires Inv(k)
    ensures k.cur in k.sync.pc && OffLists(k.ready, k.sync.waiters, k.cur)
  {
    hide SynchInv;
  }

  lemma FirstCanWake(k: State, s: SemaId)
    requires Inv(k)
    ensures CanWake(k, s)
  {
    hide SynchInv;
    if Waiters(k.sync, s) != [] {
      var t := Waiters(k.sync, s)[0];
      assert t in k.sync.waiters[s];
      forall r | r in k.sync.waiters && r != s ensures t !in k.sync.waiters[r] {
        assert SleepsOn(k.sync.pc[t]) == Some(s);
      }
    }
  }

  /** What the next region finds: the thread it unblocks is blocked and on no other list,
      and there is a thread to run if it blocks. */
  lemma StepReady(k: State)
    requires Inv(k) && !PcOf(k, k.cur).User?
    ensures var p := PcOf(k, k.cur);
      && (UpPlan(p).Some? ==> CanWake(k, UpPlan(p).value.sema))
      && (p.Start? ==> CanStart(k, p.thread))
      && (DownPlan(p).Some? || p.IdleLoop? ==> k.ready != [] || k.idle.Some?)
  {
    hide SynchInv, CanWake, Sched, UpPlan, DownPlan;
    var p := PcOf(k, k.cur);
    if UpPlan(p).Some? {
      FirstCanWake(k, UpPlan(p).value.sema);
    }
    if p.Start? {
      CreatedOff(k, p.thread);
    }
    if DownPlan(p).Some? || p.IdleLoop? {
      NotIdleOrReady(k, p);
    }
  }

  lemma CreatedOff(k: State, t: Tid)
    requires Sched(k) && PcOf(k, k.cur) == Start(t)
    ensures CanStart(k, t)
  {
    StartFacts(k, t);
    hide OneRunning, WaitersBlocked, BlockedWhere, Starting, IdleThread, NoDup;
  }

  /** A thread that can block is not the only one. */
  lemma NotIdleOrReady(k: State, p: Pc)
    requires Sched(k) && p == PcOf(k, k.cur) && (DownPlan(p).Some? || p.IdleLoop?)
    ensures k.ready != [] || k.idle.Some?
  {
    hide WaitersBlocked, Starting, NoDup;
  }

  lemma ExitFindsThread(k: State)
    requires Inv(k) && PcOf(k, k.cur).User?
    ensures k.ready != [] || k.idle.Some?
  {
    hide SynchInv;
  }

  /** The thread's element is between the sentinels of a list. */
  ghost predicate InList(tl: Lists<ListId, Tid>, t: Tid, id: ListId)
    requires tl.Valid() && t in tl.elemOf
    reads tl, tl.repr
  {
    id in tl.content && tl.elemOf[t] in tl.ChainOf(id)
  }

  lemma InListByName(tl: Lists<ListId, Tid>, t: Tid, id: ListId)
    requires tl.Valid() && t in tl.elemOf
    ensures InList(tl, t, id) <==> id in tl.content && t in tl.content[id]
  {
    hide AllApart;
    if id in tl.content {
      if t in tl.content[id] {
        var i :| 0 <= i < |tl.content[id]| && tl.content[id][i] == t;
        ElemAt(tl.View(), tl.repr, id, i);
      } else {
        Elsewhere(tl.View(), tl.repr, t, id);
      }
    }
  }

  lemma WhereListed(k: State, t: Tid, s: SemaId, r: SemaId)
    requires Inv(k) && t in k.sync.pc
    ensures t in k.status
    ensures t in k.ready <==> k.status[t] == Ready && k.idle != Some(t)
    ensures t in Waiters(k.sync, s) ==> k.status[t] == Blocked
    ensures t in Waiters(k.sync, s) && t in Waiters(k.sync, r) ==> s == r
  {
    hide SynchInv;
    if t in Waiters(k.sync, s) && t in Waiters(k.sync, r) {
      assert SleepsOn(k.sync.pc[t]) == Some(s);
    }
  }

  lemma CreateCall(y: Synch, t: Tid, u: Tid)
    ensures Call(y, t, ThreadCreate(u)) == y.(pc := y.pc[u := Born(None)][t := Start(u)],
      hist := y.hist.(creatorOf := y.hist.creatorOf[u := t]))
  {
  }

  lemma UpRegion(k: State, plan: Plan)
    requires k.cur in k.sync.pc && UpPlan(k.sync.pc[k.cur]) == Some(plan)
    ensures Raised(k, plan.sema).sync == Raise(k.sync, plan.sema)
    ensures Region(k.sync, k.cur) == At(Raise(k.sync, plan.sema), k.cur, plan.next)
  {
  }

  lemma ListKeys<L(!new), N(!new)>(l: Lists<L, N>)
    requires l.Valid()
    ensures l.heads.Keys == l.content.Keys
  {
  }

  /** All lists of the kernel are well linked and apart from each other, and hold what the
      step system says; every thread has its element. */
  ghost predicate Wired(tl: Lists<ListId, Tid>, el: Lists<CondId, WaitId>, ready: seq<Tid>,
                        waiters: map<SemaId, seq<Tid>>, tids: set<Tid>, nextWaiter: nat)
    reads tl, tl.repr, el, el.repr
  {
    && tl.Valid() && el.Valid() && tl.repr !! el.repr
    && Represents(tl.content, ready, waiters)
    && tids == tl.elemOf.Keys
    && (forall w :: w in el.elemOf ==> w < nextWaiter)
  }

  lemma WaitListKey(tl: Lists<ListId, Tid>, el: Lists<CondId, WaitId>, ready: seq<Tid>,
                    waiters: map<SemaId, seq<Tid>>, tids: set<Tid>, nextWaiter: nat, s: SemaId)
    requires Wired(tl, el, ready, waiters, tids, nextWaiter)
    ensures WaitersOf(s) in tl.heads <==> s in waiters
  {
    ListKeys(tl);
  }

  class Kernel {
    const threads: Lists<ListId, Tid>    // ready_list and the semaphores' waiters
    const entries: Lists<CondId, WaitId> // the conditions' waiters
    var status: map<Tid, Status>
    var cur: Tid
    var idle: Option<Tid>
    var ticks: nat
    var pc: map<Tid, Pc>
    var value: map<SemaId, nat>
    var holder: map<LockId, Tid>
    var nextWaiter: WaitId
    var initial: map<nat, nat>
    var hist: History
    ghost var ready: seq<Tid>
    ghost var waiters: map<SemaId, seq<Tid>>

    ghost function Sync(): Synch
      reads this, entries
    {
      Synch(pc, value, waiters, holder, entries.content, nextWaiter, hist)
    }

    ghost function View(): State
      reads this, entries
    {
      State(status, cur, ready, idle, ticks, Sync())
    }

    ghost predicate Linked()
      reads this, threads, threads.repr, entries, entries.repr
    {
      Wired(threads, entries, ready, waiters, pc.Keys, nextWaiter) && hist.initial == initial
    }

    /** The lists are well linked and apart, and the state is one that a run can reach. */
    ghost predicate Valid()
      reads this, threads, threads.repr, entries, entries.repr
    {
      Linked() && Inv(View())
    }

    // ----- the lists -----

    /** `list_empty (&ready_list)`. */
    method NoReady() returns (r: bool)
      requires Linked()
      ensures r <==> ready == []
    {
      hide Lists.Valid;
      r := threads.IsEmpty(ReadyId);
    }

    /** `list_pop_front (&ready_list)`. */
    method PopReady() returns (t: Tid)
      requires Linked() && ready != []
      modifies `ready, threads`content, threads.repr
      ensures Linked() && t == old(ready)[0] && ready == old(ready)[1..]
    {
      hide Lists.Valid;
      t := threads.PopFront(ReadyId);
      ready := ready[1..];
    }

    /** `list_push_back (&ready_list, &t->elem)`. */
    method PushReady(t: Tid)
      requires Linked() && OffLists(ready, waiters, t) && t in pc
      modifies `ready, threads`content, threads.repr
      ensures Linked() && ready == old(ready) + [t]
    {
      hide Lists.Valid;
      OffIsLoose(threads, ready, waiters, t);
      threads.PushBack(ReadyId, t);
      ready := ready + [t];
    }

    /** The `list_init` of `sema_init`, made up for when the list is first needed. */
    method NewWaitList(s: SemaId)
      requires Linked() && WaitersOf(s) !in threads.heads
      modifies `waiters, threads
      ensures Linked() && s !in old(waiters) && waiters == old(waiters)[s := []]
      ensures old(threads.repr) <= threads.repr && fresh(threads.repr - old(threads.repr))
    {
      hide Lists.Valid;
      ListKeys(threads);
      threads.AddList(WaitersOf(s));
      waiters := waiters[s := []];
    }

    method EnsureWaitList(s: SemaId)
      requires Linked()
      modifies `waiters, threads
      ensures Linked() && waiters == old(waiters)[s := Get(old(waiters), s, [])]
      ensures old(threads.repr) <= threads.repr && fresh(threads.repr - old(threads.repr))
    {
      hide Wired;
      WaitListKey(threads, entries, ready, waiters, pc.Keys, nextWaiter, s);
      if WaitersOf(s) !in threads.heads {
        NewWaitList(s);
      }
    }

    method JoinWaitList(s: SemaId, t: Tid)
      requires Linked() && OffLists(ready, waiters, t) && t in pc && s in waiters
      modifies `waiters, threads`content, threads.repr
      ensures Linked() && waiters == old(waiters)[s := old(waiters)[s] + [t]]
    {
      hide Lists.Valid;
      OffIsLoose(threads, ready, waiters, t);
      threads.PushBack(WaitersOf(s), t);
      waiters := waiters[s := waiters[s] + [t]];
    }

    /** `list_push_back (&sema->waiters, &t->elem)`. */
    method PushWaiting(s: SemaId, t: Tid)
      requires Linked() && OffLists(ready, waiters, t) && t in pc
      modifies `waiters, threads, threads.repr
      ensures Linked() && waiters == old(waiters)[s := Get(old(waiters), s, []) + [t]]
      ensures old(threads.repr) <= threads.repr && fresh(threads.repr - old(threads.repr))
    {
      hide Wired;
      EnsureWaitList(s);
      JoinWaitList(s, t);
    }

    /** `list_empty (&sema->waiters)`. */
    method NoWaiting(s: SemaId) returns (r: bool)
      requires Linked()
      ensures r <==> Waiters(Sync(), s) == []
    {
      hide Lists.Valid;
      WaitListKey(threads, entries, ready, waiters, pc.Keys, nextWaiter, s);
      r := true;
      if WaitersOf(s) in threads.heads {
        r := threads.IsEmpty(WaitersOf(s));
      }
    }

    /** `list_pop_front (&sema->waiters)`. */
    method PopWaiting(s: SemaId) returns (t: Tid)
      requires Linked() && s in waiters && waiters[s] != []
      modifies `waiters, threads`content, threads.repr
      ensures Linked() && t == old(waiters)[s][0] && waiters == old(waiters)[s := old(waiters)[s][1..]]
    {
      hide Lists.Valid;
      t := threads.PopFront(WaitersOf(s));
      waiters := waiters[s := waiters[s][1..]];
    }

    /** The same for the entries of a condition variable. */
    method NoEntries(c: CondId) returns (r: bool)
      requires Linked()
      ensures r <==> Queue(Sync(), c) == []
    {
      hide Lists.Valid;
      ListKeys(entries);
      r := true;
      if c in entries.heads {
        r := entries.IsEmpty(c);
      }
    }

    method PopEntry(c: CondId) returns (w: WaitId)
      requires Linked() && Queue(Sync(), c) != []
      modifies entries`content, entries.repr
      ensures Linked() && w == old(Queue(Sync(), c))[0]
      ensures entries.content == old(entries.content)[c := old(Queue(Sync(), c))[1..]]
    {
      hide Lists.Valid;
      w := entries.PopFront(c);
    }

    method EnsureEntryList(c: CondId)
      requires Linked()
      modifies entries
      ensures Linked() && entries.content == old(entries.content)[c := old(Queue(Sync(), c))]
      ensures old(entries.repr) <= entries.repr && fresh(entries.repr - old(entries.repr))
    {
      hide Lists.Valid;
      ListKeys(entries);
      if c !in entries.heads {
        entries.AddList(c);
      }
    }

    method JoinEntryList(c: CondId)
      requires Linked() && c in entries.content
      modifies `nextWaiter, entries, entries.repr
      ensures Linked() && nextWaiter == old(nextWaiter) + 1
      ensures entries.content == old(entries.content)[c := old(entries.content)[c] + [old(nextWaiter)]]
      ensures old(entries.repr) <= entries.repr && fresh(entries.repr - old(entries.repr))
    {
      hide Lists.Valid;
      entries.AddNode(nextWaiter);
      entries.PushBack(c, nextWaiter);
      nextWaiter := nextWaiter + 1;
    }

    method PushEntry(c: CondId)
      requires Linked()
      modifies `nextWaiter, entries, entries.repr
      ensures Linked() && nextWaiter == old(nextWaiter) + 1
      ensures entries.content == old(entries.content)[c := old(Queue(Sync(), c)) + [old(nextWaiter)]]
      ensures old(entries.repr) <= entries.repr && fresh(entries.repr - old(entries.repr))
    {
      hide Wired;
      EnsureEntryList(c);
      JoinEntryList(c);
    }

    // ----- thread.c -----

    /** `next_thread_to_run`. */
    method NextToRun() returns (next: Tid)
      requires Linked() && (ready != [] || idle.Some?)
      modifies `ready, threads`content, threads.repr
      ensures Linked() && next == NextThread(old(View()))
      ensures ready == if old(ready) != [] then old(ready)[1..] else []
    {
      hide Wired;
      var empty := NoReady();
      if empty {
        next := idle.value;
      } else {
        next := PopReady();
      }
    }

    /** `schedule` and `thread_schedule_tail`. */
    method Schedule()
      requires Linked() && (ready != [] || idle.Some?)
      modifies `status, `cur, `ticks, `ready, threads`content, threads.repr
      ensures Linked() && View() == SchedModel.Schedule(old(View()))
    {
      hide Wired;
      cur := NextToRun();
      status := status[cur := Running];
      ticks := 0;
    }

    method ThreadBlock()
      requires Linked() && (ready != [] || idle.Some?)
      modifies `status, `cur, `ticks, `ready, threads`content, threads.repr
      ensures Linked() && View() == BlockCurrent(old(View()))
    {
      hide Wired, SchedModel.Schedule;
      status := status[cur := Blocked];
      Schedule();
    }

    method ThreadUnblock(t: Tid)
      requires Linked() && t in pc && t in status && status[t] == Blocked && OffLists(ready, waiters, t)
      modifies `status, `ready, threads`content, threads.repr
      ensures Linked() && View() == Unblock(old(View()), t)
    {
      hide Wired;
      PushReady(t);
      status := status[t := Ready];
    }

    method ThreadYield()
      requires Linked() && cur in pc && OffLists(ready, waiters, cur)
      modifies `status, `cur, `ticks, `ready, threads`content, threads.repr
      ensures Linked() && View() == YieldCurrent(old(View()))
    {
      hide Wired, SchedModel.Schedule;
      if idle != Some(cur) {
        PushReady(cur);
      }
      status := status[cur := Ready];
      Schedule();
    }

    method ThreadExit()
      requires Linked() && (ready != [] || idle.Some?)
      modifies `status, `cur, `ticks, `ready, threads`content, threads.repr
      ensures Linked() && View() == ExitCurrent(old(View()))
    {
      hide Wired, SchedModel.Schedule;
      status := status[cur := Dying];
      Schedule();
    }

    /** The timer interrupt: `thread_tick` and the end of `intr_handler`. */
    method TimerTick()
      requires Linked() && cur in pc && OffLists(ready, waiters, cur)
      modifies `status, `cur, `ticks, `ready, threads`content, threads.repr
      ensures Linked() && View() == SchedModel.TimerTick(old(View()))
    {
      hide Wired, YieldCurrent;
      ticks := ticks + 1;
      if ticks >= TIME_SLICE {
        ThreadYield();
      }
    }

    // ----- synch.c -----

    function Initially(s: SemaId): nat
      reads this
    {
      match s
      case Plain(id) => Get(initial, id, 0)
      case OfLock(_) => 1
      case Private(_) => 0
    }

    function Current(s: SemaId): nat
      reads this, entries
      requires hist.initial == initial
      ensures Current(s) == Value(Sync(), s)
    {
      Get(value, s, Initially(s))
    }

    method Decrement(s: SemaId)
      requires Linked() && Value(Sync(), s) > 0
      modifies `value, `hist
      ensures Linked() && Sync() == Take(old(Sync()), s)
    {
      hide Wired;
      value := value[s := Current(s) - 1];
      hist := hist.(downs := hist.downs[s := Get(hist.downs, s, 0) + 1]);
    }

    method Increment(s: SemaId)
      requires Linked()
      modifies `value, `hist
      ensures Linked() && Sync() == Bumped(old(Sync()), s)
    {
      hide Wired, Value, Current;
      value := value[s := Current(s) + 1];
      hist := hist.(ups := hist.ups[s := Get(hist.ups, s, 0) + 1]);
    }

    /** The body of the loop in `sema_down`. */
    method GoToSleep(plan: Plan)
      requires Linked() && cur in pc && OffLists(ready, waiters, cur) && (ready != [] || idle.Some?)
      modifies `status, `cur, `ticks, `ready, `waiters, `pc, threads, threads.repr
      ensures Linked()
      ensures View() ==
        BlockCurrent(old(View()).(sync := At(PushWaiter(old(Sync()), plan.sema, old(cur)), old(cur), plan.asleep)))
      ensures old(threads.repr) <= threads.repr && fresh(threads.repr - old(threads.repr))
    {
      hide Wired, BlockCurrent;
      assert pc[cur := plan.asleep].Keys == pc.Keys;
      PushWaiting(plan.sema, cur);
      pc := pc[cur := plan.asleep];
      ThreadBlock();
    }

    /** What follows the loop in `sema_down`. */
    method GoOn(plan: Plan)
      requires Linked() && cur in pc && Value(Sync(), plan.sema) > 0
      modifies `value, `hist, `pc
      ensures Linked() && Sync() == At(Take(old(Sync()), plan.sema), cur, plan.next)
    {
      hide Wired, Value;
      assert pc[cur := plan.next].Keys == pc.Keys;
      Decrement(plan.sema);
      pc := pc[cur := plan.next];
    }

    /** One test of the loop in `sema_down`. */
    method SemaDown(plan: Plan)
      requires Linked() && cur in pc && OffLists(ready, waiters, cur) && (ready != [] || idle.Some?)
      modifies this, threads, threads.repr
      ensures Linked()
      ensures old(Value(Sync(), plan.sema)) == 0 ==>
        View() == BlockCurrent(old(View()).(sync := DownRegion(old(Sync()), old(cur), plan)))
      ensures old(Value(Sync(), plan.sema)) > 0 ==>
        View() == old(View()).(sync := DownRegion(old(Sync()), old(cur), plan))
      ensures old(threads.repr) <= threads.repr && fresh(threads.repr - old(threads.repr))
    {
      hide Wired, Value, BlockCurrent, Take, PushWaiter;
      if Current(plan.sema) == 0 {
        GoToSleep(plan);
      } else {
        GoOn(plan);
      }
    }

    method SemaTryDown(s: SemaId) returns (success: bool)
      requires Linked()
      modifies `value, `hist
      ensures Linked() && Sync() == TryTake(old(Sync()), s)
      ensures success == (old(Value(Sync(), s)) > 0)
    {
      hide Wired, Value;
      success := Current(s) > 0;
      if success {
        Decrement(s);
      }
    }

    /** The `list_empty` test of `sema_up` with its branch. */
    method WakeFirst(s: SemaId)
      requires Linked() && CanWake(View(), s)
      modifies `status, `ready, `waiters, threads`content, threads.repr
      ensures Linked()
      ensures View() == Unblocks(old(View()).(sync := Popped(old(Sync()), s)), FirstWaiter(old(Sync()), s))
    {
      hide Wired;
      var empty := NoWaiting(s);
      if !empty {
        var t := PopWaiting(s);
        ThreadUnblock(t);
      }
    }

    method SemaUp(s: SemaId)
      requires Linked() && CanWake(View(), s)
      modifies `status, `ready, `waiters, `value, `hist, threads`content, threads.repr
      ensures Linked() && View() == Raised(old(View()), s)
    {
      hide Wired, Value, Raise, CanWake;
      RaiseParts(Sync(), s);
      WakeFirst(s);
      Increment(s);
    }

    /** `cond_wait` up to `lock_release`. */
    method CondEnqueue(c: CondId)
      requires Linked()
      modifies `value, `nextWaiter, `hist, entries, entries.repr
      ensures Linked() && Sync() == SynchModel.PushEntry(old(Sync()), c, cur)
      ensures old(entries.repr) <= entries.repr && fresh(entries.repr - old(entries.repr))
    {
      hide Wired;
      var w := nextWaiter;
      PushEntry(c);
      value := value[Private(w) := 0];
      hist := hist.(enqueued := hist.enqueued[c := Get(hist.enqueued, c, []) + [w]],
                    waiterOf := hist.waiterOf[w := cur], condOf := hist.condOf[w := c]);
    }

    /** `cond_signal` up to the `sema_up` of the first waiter, if there is one. */
    method SignalFirst(c: CondId, upto: Option<nat>) returns (next: Pc)
      requires Linked()
      modifies `hist, entries`content, entries.repr
      ensures Linked() && Sync() == LocalEffect(old(Sync()), cur, Signal(c, upto))
      ensures next == LocalNext(old(Sync()), Signal(c, upto))
    {
      hide Wired, AfterSignal;
      LocalEntry(Sync(), cur, Signal(c, upto));
      hide LocalEffect;
      var empty := NoEntries(c);
      if empty {
        next := AfterSignal(c, upto);
      } else {
        var w := PopEntry(c);
        hist := hist.(signalled := hist.signalled[c := Get(hist.signalled, c, []) + [w]]);
        next := Post(w, c, upto);
      }
    }

    /** The regions of the lock operations, and `sema_try_down`. */
    method PerformLock(p: Pc) returns (next: Pc)
      requires Linked() && (p.TryDown? || p.TryAcquire? || p.Hold? || p.Drop?)
      modifies `value, `holder, `hist
      ensures Linked() && Sync() == LocalEffect(old(Sync()), cur, p) && next == LocalNext(old(Sync()), p)
    {
      hide Wired, Value, TryTake;
      match p {
        case TryDown(id) =>
          var ok := SemaTryDown(Plain(id));
          next := User;
        case TryAcquire(l) =>
          var ok := SemaTryDown(OfLock(l));
          next := if ok then Hold(l) else User;
        case Hold(l) =>
          holder := holder[l := cur];
          next := User;
        case Drop(l, w) =>
          holder := holder - {l};
          next := Release(l, w);
      }
    }

    /** The regions of the condition variables. */
    method PerformCond(p: Pc) returns (next: Pc)
      requires Linked() && (p.Enqueue? || p.Signal? || p.Broadcast?)
      modifies `value, `nextWaiter, `hist, entries, entries.repr
      ensures Linked() && Sync() == LocalEffect(old(Sync()), cur, p) && next == LocalNext(old(Sync()), p)
      ensures old(entries.repr) <= entries.repr && fresh(entries.repr - old(entries.repr))
    {
      hide Wired, Value, TryTake, SynchModel.PushEntry, SynchModel.PopEntry;
      match p {
        case Enqueue(c) =>
          next := Drop(c.lock, Some(nextWaiter));
          CondEnqueue(c);
        case Signal(c, upto) => next := SignalFirst(c, upto);
        case Broadcast(c, mark) =>
          var empty := NoEntries(c);
          next := if empty then User else Signal(c, Some(mark));
      }
    }

    /** What a region that neither sleeps nor wakes does, and where the thread goes on. */
    method Perform(p: Pc) returns (next: Pc)
      requires Linked()
      modifies `value, `holder, `nextWaiter, `hist, entries, entries.repr
      ensures Linked() && Sync() == LocalEffect(old(Sync()), cur, p) && next == LocalNext(old(Sync()), p)
      ensures old(entries.repr) <= entries.repr && fresh(entries.repr - old(entries.repr))
    {
      hide Wired;
      if p.TryDown? || p.TryAcquire? || p.Hold? || p.Drop? {
        hide LocalEffect, LocalNext;
        next := PerformLock(p);
      } else if p.Enqueue? || p.Signal? || p.Broadcast? {
        hide LocalEffect, LocalNext;
        next := PerformCond(p);
      } else {
        next := match p
          case Born(entry) => if entry.None? then User else SetIdle(entry.value)
          case Start(_) => User
          case SetIdle(id) => IdleUp(id)
          case _ => p;
      }
    }

    /** Regions that neither sleep nor wake. */
    method Local(p: Pc)
      requires Linked() && cur in pc && pc[cur] == p && UpPlan(p).None? && DownPlan(p).None?
      modifies `pc, `value, `holder, `nextWaiter, `hist, entries, entries.repr
      ensures Linked() && Sync() == Region(old(Sync()), cur) && pc.Keys == old(pc.Keys)
      ensures old(entries.repr) <= entries.repr && fresh(entries.repr - old(entries.repr))
    {
      hide Wired, LocalEffect, LocalNext;
      var next := Perform(p);
      assert pc[cur := next].Keys == pc.Keys;
      LocalKeepsPcs(old(Sync()), cur, p);
      pc := pc[cur := next];
    }

    method AdvanceUp(plan: Plan)
      requires Linked() && cur in pc && UpPlan(pc[cur]) == Some(plan) && CanWake(View(), plan.sema)
      modifies `status, `ready, `waiters, `value, `hist, `pc, threads`content, threads.repr
      ensures Linked() && View() == Step(old(View()))
    {
      hide Wired, CanWake, Step, Raised;
      UpShape(View(), plan);
      UpRegion(View(), plan);
      assert pc[cur := plan.next].Keys == pc.Keys;
      SemaUp(plan.sema);
      pc := pc[cur := plan.next];
    }

    method AdvanceLocal(p: Pc)
      requires Linked() && cur in pc && pc[cur] == p && UpPlan(p).None? && DownPlan(p).None?
      requires p.Start? ==> CanStart(View(), p.thread)
      requires p.IdleLoop? ==> ready != [] || idle.Some?
      modifies this, threads`content, threads.repr, entries, entries.repr
      ensures Linked() && View() == Step(old(View()))
      ensures old(entries.repr) <= entries.repr && fresh(entries.repr - old(entries.repr))
    {
      hide Wired, Region, BlockCurrent, Unblock, Step, UpPlan, DownPlan;
      StepLocal(View(), p);
      Local(p);
      if p.Start? {
        ThreadUnblock(p.thread);
      } else if p.SetIdle? {
        idle := Some(cur);
      } else if p.IdleLoop? {
        ThreadBlock();
      }
    }

    /** One region of the current thread. */
    method Advance()
      requires Valid() && Enabled(View(), Event.Advance)
      modifies this, threads, threads.repr, entries, entries.repr
      ensures Linked() && View() == Step(old(View()))
      ensures old(threads.repr) <= threads.repr && fresh(threads.repr - old(threads.repr))
      ensures old(entries.repr) <= entries.repr && fresh(entries.repr - old(entries.repr))
    {
      hide Wired, Inv, CanWake, CanStart, Region, DownRegion, BlockCurrent, OffLists;
      var p := pc[cur];
      RunningOff(View());
      StepReady(View());
      if UpPlan(p).Some? {
        AdvanceUp(UpPlan(p).value);
      } else if DownPlan(p).Some? {
        StepDown(View(), DownPlan(p).value);
        hide Step, UpPlan, DownPlan;
        SemaDown(DownPlan(p).value);
      } else {
        hide Step;
        AdvanceLocal(p);
      }
    }

    /** `thread_create` up to `thread_unblock`. */
    method Create(t: Tid)
      requires Linked() && cur in pc && t !in pc
      modifies `pc, `status, `hist, threads
      ensures Linked() && Sync() == Call(old(Sync()), cur, ThreadCreate(t)) && status == old(status)[t := Blocked]
      ensures old(threads.repr) <= threads.repr && fresh(threads.repr - old(threads.repr))
    {
      hide Wired, Call;
      AddThread(t);
      status := status[t := Blocked];
      CreateCall(old(Sync()), cur, t);
      pc := pc[cur := Start(t)];
      hist := hist.(creatorOf := hist.creatorOf[t := cur]);
    }

    method AddThread(t: Tid)
      requires Linked() && cur in pc && t !in pc
      modifies `pc, threads
      ensures Linked() && pc == old(pc)[t := Born(None)]
      ensures pc[cur := Start(t)].Keys == pc.Keys
      ensures old(threads.repr) <= threads.repr && fresh(threads.repr - old(threads.repr))
    {
      hide Lists.Valid, Represents;
      threads.AddNode(t);
      pc := pc[t := Born(None)];
    }

    /** A primitive is called by user code. */
    method Begin(op: Op)
      requires Linked() && cur in pc && (op.ThreadCreate? ==> op.thread !in pc)
      modifies `pc, `status, `hist, threads
      ensures Linked() && Sync() == Call(old(Sync()), cur, op)
      ensures status == if op.ThreadCreate? then old(status)[op.thread := Blocked] else old(status)
      ensures old(threads.repr) <= threads.repr && fresh(threads.repr - old(threads.repr))
    {
      hide Wired;
      if op.ThreadCreate? {
        Create(op.thread);
      } else {
        var next := Entry(Synch(pc, value, map[], holder, map[], nextWaiter, hist), op);
        assert pc[cur := next].Keys == pc.Keys;
        pc := pc[cur := next];
      }
    }

    /** The events that switch threads. */
    method HandleSwitch(e: Event)
      requires Valid() && Enabled(View(), e) && (e.Tick? || e.Yield? || e.Exit?)
      modifies `status, `cur, `ticks, `ready, threads`content, threads.repr
      ensures Linked() && View() == Apply(old(View()), e)
    {
      hide Wired, Inv, YieldCurrent, ExitCurrent, OffLists;
      ghost var k := View();
      RunningOff(k);
      match e {
        case Tick => TimerTick();
        case Yield => ThreadYield();
        case Exit =>
          ExitFindsThread(k);
          ThreadExit();
      }
    }

    /** The semaphore operations of interrupt handlers. */
    method HandleIntr(e: Event)
      requires Valid() && Enabled(View(), e) && (e.HandlerUp? || e.HandlerTryDown?)
      modifies `status, `ready, `waiters, `value, `hist, threads`content, threads.repr
      ensures Linked() && View() == Apply(old(View()), e)
    {
      hide Wired, Inv, CanWake, Raise, TryTake, FirstWaiter;
      match e {
        case HandlerUp(id) =>
          FirstCanWake(View(), Plain(id));
          SemaUp(Plain(id));
        case HandlerTryDown(id) => var ok := SemaTryDown(Plain(id));
      }
    }

    /** Any event of a run, in any reachable state: it has the effect that the step system
        says, and all lists stay well linked and apart. */
    method Handle(e: Event)
      requires Valid() && Enabled(View(), e)
      modifies this, threads, threads.repr, entries, entries.repr
      ensures Valid() && View() == Apply(old(View()), e)
      ensures old(threads.repr) <= threads.repr && fresh(threads.repr - old(threads.repr))
      ensures old(entries.repr) <= entries.repr && fresh(entries.repr - old(entries.repr))
    {
      hide Wired, Inv, Step, Call;
      ghost var k := View();
      if e.Begin? {
        Begin(e.op);
      } else if e.Advance? {
        Advance();
      } else {
        hide Apply, Enabled;
        if e.Tick? || e.Yield? || e.Exit? {
          HandleSwitch(e);
        } else {
          HandleIntr(e);
        }
      }
      ApplyKeeps(k, e);
    }

    /** A whole run, event by event on the links. */
    method HandleAll(es: seq<Event>)
      requires Valid() && Legal(View(), es)
      modifies this, threads, threads.repr, entries, entries.repr
      ensures Valid() && View() == Run(old(View()), es)
      ensures old(threads.repr) <= threads.repr && fresh(threads.repr - old(threads.repr))
      ensures old(entries.repr) <= entries.repr && fresh(entries.repr - old(entries.repr))
    {
      hide Wired, Inv, Apply, Enabled;
      var i := 0;
      while i < |es|
        invariant i <= |es| && Valid() && Legal(View(), es[i..])
        invariant Run(View(), es[i..]) == Run(old(View()), es)
        invariant old(threads.repr) <= threads.repr && fresh(threads.repr - old(threads.repr))
        invariant old(entries.repr) <= entries.repr && fresh(entries.repr - old(entries.repr))
      {
        assert es[i..][1..] == es[i + 1..];
        Handle(es[i]);
        i := i + 1;
      }
    }

    /** The dual use of a thread's element: it is linked into the ready list exactly while the
        thread is ready and not the idle thread, into a semaphore's list exactly while the
        thread is one of its waiters, which is then blocked, and never into two lists. */
    lemma OneElement(t: Tid, s: SemaId, r: SemaId)
      requires Valid() && t in pc
      ensures t in threads.elemOf && t in status
      ensures InList(threads, t, ReadyId) <==> status[t] == Ready && idle != Some(t)
      ensures InList(threads, t, WaitersOf(s)) <==> t in Waiters(Sync(), s)
      ensures InList(threads, t, WaitersOf(s)) ==> status[t] == Blocked && !InList(threads, t, ReadyId)
      ensures InList(threads, t, WaitersOf(s)) && InList(threads, t, WaitersOf(r)) ==> s == r
    {
      hide Lists.Valid;
      InListByName(threads, t, ReadyId);
      InListByName(threads, t, WaitersOf(s));
      InListByName(threads, t, WaitersOf(r));
      WhereListed(View(), t, s, r);
    }

    /** `thread_init`, then `thread_start` up to the creation of the idle thread. */
    constructor (initial: map<nat, nat>, started: nat)
      ensures Valid() && View() == BootState(initial, started)
      ensures fresh(threads) && fresh(threads.repr) && fresh(entries) && fresh(entries.repr)
    {
      hide Inv, Lists.Valid, BootState;
      var tl := BootLists();
      threads := tl;
      entries := new Lists();
      var boot := BootState(initial, started);
      status, cur, idle, ticks := boot.status, boot.cur, boot.idle, boot.ticks;
      pc, value, holder, nextWaiter, hist :=
        boot.sync.pc, boot.sync.value, boot.sync.holder, boot.sync.nextWaiter, boot.sync.hist;
      this.initial := initial;
      ready, waiters := boot.ready, boot.sync.waiters;
      new;
      BootInv(initial, started);
      BootParts(initial, started);
    }
  }

  /** Every run from boot can be carried out on the links. */
  method RunFromBoot(initial: map<nat, nat>, started: nat, es: seq<Event>) returns (k: Kernel)
    requires Legal(BootState(initial, started), es)
    ensures fresh(k) && k.Valid() && k.View() == Run(BootState(initial, started), es)
  {
    hide Wired, Inv, BootState, Kernel.Valid;
    k := new Kernel(initial, started);
    k.HandleAll(es);
  }

  lemma BootParts(initial: map<nat, nat>, started: nat)
    ensures var b := BootState(initial, started);
      && b.ready == [IDLE] && b.sync.waiters == map[] && b.sync.queue == map[]
      && b.sync.pc.Keys == {INITIAL, IDLE} && b.sync.hist.initial == initial
  {
  }

  /** The ready list with the future idle thread on it. */
  method BootLists() returns (tl: Lists<ListId, Tid>)
    ensures fresh(tl) && fresh(tl.repr) && tl.Valid()
    ensures tl.content.Keys == {ReadyId} && tl.content[ReadyId] == [IDLE] && tl.elemOf.Keys == {INITIAL, IDLE}
  {
    hide Lists.Valid;
    tl := new Lists();
    tl.AddNode(INITIAL);
    tl.AddNode(IDLE);
    tl.AddList(ReadyId);
    assert tl.content.Keys == {ReadyId};
    tl.PushBack(ReadyId, IDLE);
  }
}
