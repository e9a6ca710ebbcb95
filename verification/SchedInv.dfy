/** What every step of the scheduler keeps: the dual use of `elem` is sound, there is
    exactly one running thread, and the idle thread never enters the ready list. */
module SchedInv {
  import opened Basics
  import opened SynchModel
  import opened SynchSema
  import opened SchedModel

  predicate IsIdlePc(p: Pc) {
    p.SetIdle? || p.IdleUp? || p.IdleLoop? || (p.Born? && p.entry.Some?)
  }

  /** Exactly the current thread is running. */
  predicate OneRunning(k: State) {
    && k.status.Keys == k.sync.pc.Keys
    && k.cur in k.status
    && forall t :: t in k.status ==> (k.status[t].Running? <==> t == k.cur)
  }

  /** The ready list holds every ready thread but the recorded idle thread, once. */
  predicate ReadyList(k: State) {
    && NoDup(k.ready)
    && (forall t :: t in k.ready ==> t in k.status && k.status[t].Ready? && k.idle != Some(t))
    && (forall t :: t in k.status && k.status[t].Ready? && k.idle != Some(t) ==> t in k.ready)
  }

  /** Anything on a wait list is blocked. */
  predicate WaitersBlocked(k: State) {
    forall s, t :: s in k.sync.waiters && t in k.sync.waiters[s] ==> t in k.status && k.status[t].Blocked?
  }

  /** Where a blocked thread is found: on a wait list, or it is the idle thread in its
      loop, or `thread_create` has not made it ready yet.  A dying thread is outside the
      primitives. */
  predicate Parked(y: Synch, t: Tid, p: Pc) {
    || (SleepsOn(p).Some? && SleepsOn(p).value in y.waiters && t in y.waiters[SleepsOn(p).value])
    || (t == IDLE && p.IdleLoop?)
    || (t != IDLE && p.Born?)
  }

  predicate BlockedWhere(k: State) {
    && (forall t :: t in k.status && k.status[t].Blocked? && t in k.sync.pc ==> Parked(k.sync, t, k.sync.pc[t]))
    && (forall t :: t in k.status && k.status[t].Dying? && t in k.sync.pc ==> k.sync.pc[t].User?)
  }

  /** `thread_create` is about to unblock a thread of its own, which is blocked. */
  predicate Starting(k: State) {
    forall u :: u in k.sync.pc && k.sync.pc[u].Start? ==> StartMatches(k, u, k.sync.pc[u].thread)
  }

  predicate StartMatches(k: State, u: Tid, t: Tid) {
    && t in k.status && k.status[t].Blocked?
    && t in k.sync.pc && k.sync.pc[t] == Born(None)
    && t in k.sync.hist.creatorOf && k.sync.hist.creatorOf[t] == u
  }

  /** `idle_thread` is recorded exactly when the idle thread has stored it. */
  predicate IdleThread(k: State) {
    && IDLE in k.sync.pc
    && (forall t :: t in k.sync.pc ==> (IsIdlePc(k.sync.pc[t]) <==> t == IDLE))
    && k.idle == (if k.sync.pc[IDLE].Born? || k.sync.pc[IDLE].SetIdle? then None else Some(IDLE))
    && IDLE in k.status && !k.status[IDLE].Dying?
  }

  predicate Sched(k: State) {
    && OneRunning(k)
    && ReadyList(k)
    && WaitLists(k.sync)
    && WaitersBlocked(k)
    && BlockedWhere(k)
    && Starting(k)
    && IdleThread(k)
    && k.ticks < TIME_SLICE
  }

  /** The scheduler invariant at the entry of `schedule`: no thread is running. */
  predicate Leaving(k: State) {
    && k.status.Keys == k.sync.pc.Keys
    && (forall t :: t in k.status ==> !k.status[t].Running?)
    && ReadyList(k)
    && WaitLists(k.sync)
    && WaitersBlocked(k)
    && BlockedWhere(k)
    && Starting(k)
    && IdleThread(k)
  }

  // ----- schedule -----

  /** `next_thread_to_run` never returns a null thread. */
  lemma NextThreadExists(k: State)
    requires Leaving(k)
    ensures k.ready != [] || k.idle == Some(IDLE)
    ensures NextThread(k) in k.status
    ensures k.ready == [] ==> NextThread(k) == IDLE
  {
  }

  lemma ScheduleReady(k: State)
    requires Leaving(k)
    ensures ReadyList(Schedule(k)) && OneRunning(Schedule(k))
  {
    NextThreadExists(k);
    if k.ready != [] {
      TailNoDup(k.ready);
    }
  }

  /** The next thread is ready, or it is the idle thread. */
  lemma NextThreadStatus(k: State)
    requires Leaving(k)
    ensures NextThread(k) in k.status && (k.status[NextThread(k)].Ready? || NextThread(k) == IDLE)
  {
    hide WaitLists, WaitersBlocked, BlockedWhere, Starting;
    NextThreadExists(k);
  }

  lemma ScheduleLists(k: State)
    requires Leaving(k)
    ensures WaitersBlocked(Schedule(k)) && BlockedWhere(Schedule(k))
  {
    hide ReadyList, Starting, IdleThread, Parked, NextThread, WaitLists;
    NextThreadStatus(k);
    IdleNeverWaits(k);
    assert forall s, t :: s in k.sync.waiters && t in k.sync.waiters[s] ==> t != NextThread(k);
  }

  /** The idle thread is on no wait list. */
  lemma IdleNeverWaits(k: State)
    requires WaitLists(k.sync) && IdleThread(k)
    ensures forall s :: s in k.sync.waiters ==> IDLE !in k.sync.waiters[s]
  {
    forall s | s in k.sync.waiters ensures IDLE !in k.sync.waiters[s] {
      assert IsIdlePc(k.sync.pc[IDLE]);
    }
  }

  lemma ScheduleRest(k: State)
    requires Leaving(k)
    ensures Starting(Schedule(k)) && IdleThread(Schedule(k))
  {
    NextThreadStatus(k);
    hide ReadyList, WaitLists, WaitersBlocked, BlockedWhere, NextThread;
    assert IsIdlePc(k.sync.pc[IDLE]);
  }

  lemma ScheduleKeeps(k: State)
    requires Leaving(k)
    ensures Sched(Schedule(k))
  {
    hide Leaving, OneRunning, ReadyList, WaitersBlocked, BlockedWhere, Starting, IdleThread, NextThread;
    assert WaitLists(k.sync) by { LeavingLists(k); }
    ScheduleReady(k);
    ScheduleLists(k);
    ScheduleRest(k);
  }

  lemma LeavingLists(k: State)
    requires Leaving(k)
    ensures WaitLists(k.sync)
  {
  }

  /** The current thread gives up the processor with a new status, off the ready list. */
  lemma StopsRunning(k: State, s: Status)
    requires OneRunning(k) && ReadyList(k) && WaitersBlocked(k) && Starting(k) && IdleThread(k)
    requires (s.Blocked? || s.Dying?) && (s.Dying? ==> k.cur != IDLE)
    ensures var m := SetStatus(k, k.cur, s);
      && m.status.Keys == m.sync.pc.Keys && (forall t :: t in m.status ==> !m.status[t].Running?)
      && ReadyList(m) && WaitersBlocked(m) && Starting(m) && IdleThread(m)
  {
    hide ReadyList, WaitersBlocked, Starting, IdleThread;
    StopsReady(k, s);
    StopsRest(k, s);
  }

  lemma StopsReady(k: State, s: Status)
    requires OneRunning(k) && ReadyList(k) && (s.Blocked? || s.Dying?)
    ensures ReadyList(SetStatus(k, k.cur, s))
  {
    hide NoDup;
  }

  lemma StopsRest(k: State, s: Status)
    requires OneRunning(k) && WaitersBlocked(k) && Starting(k) && IdleThread(k)
    requires (s.Blocked? || s.Dying?) && (s.Dying? ==> k.cur != IDLE)
    ensures var m := SetStatus(k, k.cur, s); WaitersBlocked(m) && Starting(m) && IdleThread(m)
  {
    hide IsIdlePc;
  }

  lemma YieldKeeps(k: State)
    requires Sched(k.(ticks := 0))
    ensures Leaving(Yielding(k)) && Sched(YieldCurrent(k))
  {
    YieldLeaves(k);
    hide Leaving, Schedule;
    ScheduleKeeps(Yielding(k));
  }

  lemma YieldLeaves(k: State)
    requires Sched(k.(ticks := 0))
    ensures Leaving(Yielding(k))
  {
    hide OneRunning, ReadyList, WaitLists, WaitersBlocked, BlockedWhere, Starting, IdleThread;
    var m := k.(ticks := 0);
    assert Yielding(k).status == Yielding(m).status && Yielding(k).ready == Yielding(m).ready;
    YieldReady(m);
    YieldLists(m);
    YieldRest(m);
    SameParts(Yielding(m), Yielding(k));
  }

  lemma YieldReady(k: State)
    requires OneRunning(k) && ReadyList(k)
    ensures Yielding(k).status.Keys == k.sync.pc.Keys
    ensures forall t :: t in Yielding(k).status ==> !Yielding(k).status[t].Running?
    ensures ReadyList(Yielding(k))
  {
    assert k.cur !in k.ready;
    PushNoDup(k.ready, k.cur);
    hide NoDup;
  }

  lemma YieldLists(k: State)
    requires OneRunning(k) && WaitersBlocked(k) && BlockedWhere(k)
    ensures WaitersBlocked(Yielding(k)) && BlockedWhere(Yielding(k))
  {
    hide Parked;
  }

  lemma YieldRest(k: State)
    requires OneRunning(k) && Starting(k) && IdleThread(k)
    ensures Starting(Yielding(k)) && IdleThread(Yielding(k))
  {
    hide IsIdlePc;
  }

  /** The parts of the invariant do not look at the current thread or its ticks. */
  lemma SameParts(k: State, k': State)
    requires k'.status == k.status && k'.ready == k.ready && k'.idle == k.idle && k'.sync == k.sync
    ensures ReadyList(k) ==> ReadyList(k')
    ensures WaitersBlocked(k) && BlockedWhere(k) ==> WaitersBlocked(k') && BlockedWhere(k')
    ensures Starting(k) && IdleThread(k) ==> Starting(k') && IdleThread(k')
  {
    hide NoDup, IsIdlePc, Parked;
  }

  lemma ExitKeeps(k: State)
    requires Sched(k) && PcOf(k, k.cur).User?
    ensures Leaving(SetStatus(k, k.cur, Dying)) && Sched(ExitCurrent(k))
  {
    var m := SetStatus(k, k.cur, Dying);
    assert k.cur != IDLE by { hide OneRunning, ReadyList, WaitLists, WaitersBlocked, BlockedWhere, Starting; }
    StopsRunning(k, Dying);
    assert BlockedWhere(m) by { hide ReadyList, WaitLists, WaitersBlocked, Starting, IdleThread, Parked; }
    hide OneRunning, ReadyList, WaitLists, WaitersBlocked, BlockedWhere, Starting, IdleThread, Schedule;
    ScheduleKeeps(m);
  }

  lemma IdleBlockKeeps(k: State)
    requires Sched(k) && PcOf(k, k.cur).IdleLoop?
    ensures Leaving(SetStatus(k, k.cur, Blocked)) && Sched(BlockCurrent(k))
  {
    var m := SetStatus(k, k.cur, Blocked);
    StopsRunning(k, Blocked);
    assert BlockedWhere(m) by { hide ReadyList, WaitLists, WaitersBlocked, Starting; }
    hide OneRunning, ReadyList, WaitLists, WaitersBlocked, BlockedWhere, Starting, IdleThread, Schedule;
    ScheduleKeeps(m);
  }

  // ----- moving inside the primitives -----

  predicate SameCreators(y: Synch, y': Synch) { y'.hist.creatorOf == y.hist.creatorOf }

  lemma MoveOnLists(k: State, y: Synch, p: Pc)
    requires OneRunning(k) && WaitLists(k.sync) && WaitersBlocked(k) && BlockedWhere(k)
    requires y.waiters == k.sync.waiters && y.pc == k.sync.pc[k.cur := p] && SameCreators(k.sync, y)
    ensures WaitLists(y) && WaitersBlocked(k.(sync := y)) && BlockedWhere(k.(sync := y))
  {
  }

  lemma MoveOnRest(k: State, y: Synch, p: Pc)
    requires OneRunning(k) && Starting(k) && IdleThread(k) && y.pc == k.sync.pc[k.cur := p] && SameCreators(k.sync, y)
    requires !p.Start? && !p.Born?
    requires IsIdlePc(p) <==> k.cur == IDLE
    requires k.cur == IDLE ==> (p.SetIdle? <==> k.idle.None?)
    ensures Starting(k.(sync := y)) && IdleThread(k.(sync := y))
  {
  }

  /** The current thread moves on; the wait lists stay. */
  lemma MoveOnKeeps(k: State, y: Synch, p: Pc)
    requires Sched(k) && y.waiters == k.sync.waiters && y.pc == k.sync.pc[k.cur := p] && SameCreators(k.sync, y)
    requires !p.Start? && !p.Born?
    requires IsIdlePc(p) <==> k.cur == IDLE
    requires k.cur == IDLE ==> (p.SetIdle? <==> k.idle.None?)
    ensures Sched(k.(sync := y))
  {
    MoveOnLists(k, y, p);
    MoveOnRest(k, y, p);
    MoveOnReady(k, y, p);
    hide OneRunning, ReadyList, WaitLists, WaitersBlocked, BlockedWhere, Starting, IdleThread;
  }

  lemma MoveOnReady(k: State, y: Synch, p: Pc)
    requires OneRunning(k) && ReadyList(k) && k.cur in k.sync.pc && y.pc == k.sync.pc[k.cur := p]
    ensures OneRunning(k.(sync := y)) && ReadyList(k.(sync := y))
  {
    hide NoDup;
  }

  /** `idle_thread = thread_current ()`. */
  lemma SetIdleKeeps(k: State, y: Synch, id: nat)
    requires Sched(k) && PcOf(k, k.cur) == SetIdle(id)
    requires y.waiters == k.sync.waiters && y.pc == k.sync.pc[k.cur := IdleUp(id)] && SameCreators(k.sync, y)
    ensures Sched(k.(sync := y, idle := Some(k.cur)))
  {
    MoveOnLists(k, y, IdleUp(id));
    MoveOnReady(k, y, IdleUp(id));
    SetIdleRest(k, y, id);
    hide WaitLists, WaitersBlocked, BlockedWhere, Starting, IdleThread, NoDup;
  }

  lemma SetIdleRest(k: State, y: Synch, id: nat)
    requires OneRunning(k) && ReadyList(k) && Starting(k) && IdleThread(k) && PcOf(k, k.cur) == SetIdle(id)
    requires y.pc == k.sync.pc[k.cur := IdleUp(id)] && SameCreators(k.sync, y)
    ensures k.cur == IDLE && k.idle.None?
    ensures Starting(k.(sync := y, idle := Some(k.cur))) && IdleThread(k.(sync := y, idle := Some(k.cur)))
  {
    hide NoDup;
    assert IsIdlePc(k.sync.pc[k.cur]);
  }

  /** The current thread appended to a wait list in `sema_down`, before `schedule`. */
  function Asleep(k: State, plan: Plan): State {
    SetStatus(k.(sync := At(PushWaiter(k.sync, plan.sema, k.cur), k.cur, plan.asleep)), k.cur, Blocked)
  }

  lemma AsleepLists(k: State, plan: Plan)
    requires OneRunning(k) && WaitLists(k.sync) && WaitersBlocked(k) && BlockedWhere(k)
    requires k.cur in k.sync.pc && DownPlan(k.sync.pc[k.cur]) == Some(plan)
    ensures WaitLists(Asleep(k, plan).sync) && WaitersBlocked(Asleep(k, plan)) && BlockedWhere(Asleep(k, plan))
  {
    CurrentAwake(k);
    SleepKeepsLists(k.sync, k.cur, plan);
    AsleepBlocked(k, plan);
    AsleepWhere(k, plan);
    hide WaitLists, WaitersBlocked, BlockedWhere, OneRunning, Asleep;
  }

  lemma CurrentAwake(k: State)
    requires OneRunning(k) && WaitersBlocked(k) && k.cur in k.sync.pc
    ensures Awake(k.sync, k.cur)
  {
  }

  lemma AsleepBlocked(k: State, plan: Plan)
    requires OneRunning(k) && WaitersBlocked(k)
    ensures WaitersBlocked(Asleep(k, plan))
  {
  }

  lemma AsleepWhere(k: State, plan: Plan)
    requires OneRunning(k) && BlockedWhere(k) && k.cur in k.sync.pc && DownPlan(k.sync.pc[k.cur]) == Some(plan)
    ensures BlockedWhere(Asleep(k, plan))
  {
    var m := Asleep(k, plan);
    SleepPlace(k.sync.pc[k.cur], plan);
    hide DownPlan;
    forall t | t in m.status && m.status[t].Blocked? && t in m.sync.pc ensures Parked(m.sync, t, m.sync.pc[t]) {
      assert t != k.cur ==> Parked(k.sync, t, k.sync.pc[t]);
    }
  }

  lemma SleepPlace(p: Pc, plan: Plan)
    requires DownPlan(p) == Some(plan)
    ensures SleepsOn(plan.asleep) == Some(plan.sema)
  {
  }

  lemma AsleepReady(k: State, plan: Plan)
    requires OneRunning(k) && ReadyList(k)
    ensures ReadyList(Asleep(k, plan))
    ensures forall t :: t in Asleep(k, plan).status ==> !Asleep(k, plan).status[t].Running?
  {
  }

  lemma AsleepRest(k: State, plan: Plan)
    requires OneRunning(k) && Starting(k) && IdleThread(k)
    requires k.cur in k.sync.pc && DownPlan(k.sync.pc[k.cur]) == Some(plan)
    ensures Starting(Asleep(k, plan)) && IdleThread(Asleep(k, plan))
  {
  }

  lemma SleepKeeps(k: State, plan: Plan)
    requires Sched(k) && k.cur in k.sync.pc && DownPlan(k.sync.pc[k.cur]) == Some(plan)
    ensures Leaving(Asleep(k, plan)) && Sched(Schedule(Asleep(k, plan)))
  {
    AsleepLists(k, plan);
    AsleepReady(k, plan);
    AsleepRest(k, plan);
    assert Asleep(k, plan).status.Keys == Asleep(k, plan).sync.pc.Keys;
    hide OneRunning, ReadyList, WaitLists, WaitersBlocked, BlockedWhere, Starting, IdleThread, Schedule, Asleep;
    hide DownPlan;
    ScheduleKeeps(Asleep(k, plan));
  }

  /** `sema_up` before the caller moves on. */
  function Raised(k: State, s: SemaId): State {
    Unblocks(k.(sync := Raise(k.sync, s)), FirstWaiter(k.sync, s))
  }

  lemma RaisedReady(k: State, s: SemaId)
    requires OneRunning(k) && ReadyList(k) && WaitersBlocked(k)
    requires WaitLists(k.sync) && IdleThread(k)
    ensures ReadyList(Raised(k, s)) && OneRunning(Raised(k, s))
  {
    if Waiters(k.sync, s) != [] {
      var t := Waiters(k.sync, s)[0];
      assert t in k.sync.waiters[s];
      IdleNeverWaits(k);
      hide WaitersBlocked, WaitLists;
      ReadyAgain(k.(sync := Raise(k.sync, s)), t);
    }
  }

  /** A blocked thread other than the idle one joins the ready list. */
  lemma ReadyAgain(k: State, t: Tid)
    requires OneRunning(k) && ReadyList(k) && t in k.status && k.status[t].Blocked? && k.idle != Some(t)
    ensures OneRunning(Unblock(k, t)) && ReadyList(Unblock(k, t))
  {
    PushNoDup(k.ready, t);
    hide NoDup;
  }

  /** The thread taken from one wait list is on no other. */
  lemma RaisedLists(k: State, s: SemaId)
    requires WaitLists(k.sync) && WaitersBlocked(k)
    ensures WaitLists(Raised(k, s).sync) && WaitersBlocked(Raised(k, s))
  {
    RaiseKeepsLists(k.sync, s);
    if Waiters(k.sync, s) != [] {
      TailNoDup(Waiters(k.sync, s));
      var t := Waiters(k.sync, s)[0];
      assert t in k.sync.waiters[s];
      assert SleepsOn(k.sync.pc[t]) == Some(s);
      forall r | r in k.sync.waiters && t in k.sync.waiters[r] ensures r == s {
        assert SleepsOn(k.sync.pc[t]) == Some(r);
      }
    }
  }

  lemma RaisedBlocked(k: State, s: SemaId)
    requires WaitLists(k.sync) && WaitersBlocked(k) && BlockedWhere(k)
    ensures BlockedWhere(Raised(k, s))
  {
    if Waiters(k.sync, s) != [] {
      TailNoDup(Waiters(k.sync, s));
    }
  }

  lemma RaisedRest(k: State, s: SemaId)
    requires WaitLists(k.sync) && WaitersBlocked(k) && Starting(k) && IdleThread(k)
    ensures Starting(Raised(k, s)) && IdleThread(Raised(k, s))
  {
    hide IsIdlePc;
    if Waiters(k.sync, s) != [] {
      var t := Waiters(k.sync, s)[0];
      assert t in k.sync.waiters[s] && SleepsOn(k.sync.pc[t]) == Some(s);
      IdleNeverWaits(k);
      hide WaitersBlocked, WaitLists, Raise;
      assert k.sync.pc[t] != Born(None);
      WakeRest(k, Raise(k.sync, s), t);
    }
  }

  lemma WakeRest(k: State, y: Synch, t: Tid)
    requires Starting(k) && IdleThread(k) && t in k.sync.pc && t != IDLE && k.sync.pc[t] != Born(None)
    requires y.pc == k.sync.pc && SameCreators(k.sync, y)
    ensures Starting(Unblock(k.(sync := y), t)) && IdleThread(Unblock(k.(sync := y), t))
  {
    hide IsIdlePc;
  }

  lemma RaisedKeeps(k: State, s: SemaId)
    requires Sched(k)
    ensures Sched(Raised(k, s))
  {
    RaisedReady(k, s);
    RaisedLists(k, s);
    RaisedBlocked(k, s);
    RaisedRest(k, s);
    hide OneRunning, ReadyList, WaitLists, WaitersBlocked, BlockedWhere, Starting, IdleThread, FirstWaiter, Raise;
  }

  lemma UpShape(k: State, plan: Plan)
    requires k.cur in k.sync.pc && UpPlan(k.sync.pc[k.cur]) == Some(plan)
    ensures Step(k) == Raised(k, plan.sema).(sync := Region(k.sync, k.cur))
  {
  }

  lemma UpNext(k: State, plan: Plan)
    requires OneRunning(k) && IdleThread(k) && k.cur in k.sync.pc && UpPlan(k.sync.pc[k.cur]) == Some(plan)
    ensures IsIdlePc(plan.next) <==> k.cur == IDLE
    ensures !plan.next.Start? && !plan.next.Born? && !plan.next.SetIdle? && (k.cur == IDLE ==> k.idle.Some?)
  {
  }

  lemma UpKeeps(k: State, plan: Plan)
    requires Sched(k) && k.cur in k.sync.pc && UpPlan(k.sync.pc[k.cur]) == Some(plan)
    ensures Sched(Step(k))
  {
    RaisedKeeps(k, plan.sema);
    UpNext(k, plan);
    UpShape(k, plan);
    UpRegionIs(k.sync, k.cur);
    hide Sched, Step, UpPlan, Region, FirstWaiter, IsIdlePc;
    MoveOnKeeps(Raised(k, plan.sema), Region(k.sync, k.cur), plan.next);
  }

  lemma DownKeeps(k: State, plan: Plan)
    requires Sched(k) && k.cur in k.sync.pc && DownPlan(k.sync.pc[k.cur]) == Some(plan)
    ensures Sched(Step(k))
  {
    DownShape(k, plan);
    DownRegionIs(k.sync, k.cur);
    if Value(k.sync, plan.sema) == 0 {
      SleepKeeps(k, plan);
    } else {
      DownNext(k, plan);
      hide Sched, Step, DownPlan, Region, Value, IsIdlePc, Schedule;
      MoveOnKeeps(k, Region(k.sync, k.cur), plan.next);
    }
  }

  lemma DownShape(k: State, plan: Plan)
    requires k.cur in k.sync.pc && DownPlan(k.sync.pc[k.cur]) == Some(plan)
    ensures Step(k) ==
      if Value(k.sync, plan.sema) == 0 then Schedule(Asleep(k, plan)) else k.(sync := Region(k.sync, k.cur))
  {
    hide Value, Schedule;
  }

  lemma DownNext(k: State, plan: Plan)
    requires OneRunning(k) && IdleThread(k) && k.cur in k.sync.pc && DownPlan(k.sync.pc[k.cur]) == Some(plan)
    ensures k.cur != IDLE && !IsIdlePc(plan.next) && !plan.next.Start? && !plan.next.Born?
  {
    assert !IsIdlePc(k.sync.pc[k.cur]);
  }

  // ----- every step -----

  lemma LocalKeeps(k: State, p: Pc)
    requires Sched(k) && k.cur in k.sync.pc && k.sync.pc[k.cur] == p && UpPlan(p).None? && DownPlan(p).None?
    requires !p.User? && !p.Start? && !p.SetIdle?
    ensures Sched(k.(sync := Region(k.sync, k.cur)))
  {
    LocalShape(k.sync, k.cur, p);
    LocalCreators(k.sync, k.cur, p);
    LocalRegionIs(k.sync, k.cur);
    LocalNextIdle(k, p);
    hide Sched, Region, LocalEffect, LocalNext, UpPlan, DownPlan, IsIdlePc, SleepsOn;
    MoveOnKeeps(k, Region(k.sync, k.cur), LocalNext(k.sync, p));
  }

  lemma LocalNextIdle(k: State, p: Pc)
    requires IdleThread(k) && k.cur in k.sync.pc && k.sync.pc[k.cur] == p && UpPlan(p).None? && DownPlan(p).None?
    requires !p.User? && !p.Start? && !p.SetIdle?
    ensures var next := LocalNext(k.sync, p);
      && !next.Start? && !next.Born? && (IsIdlePc(next) <==> k.cur == IDLE)
      && (k.cur == IDLE ==> (next.SetIdle? <==> k.idle.None?))
  {
    assert IsIdlePc(p) <==> k.cur == IDLE;
  }

  lemma StartRunning(k: State, u: Tid, y: Synch)
    requires Sched(k) && PcOf(k, k.cur) == Start(u)
    requires y.waiters == k.sync.waiters && y.pc == k.sync.pc[k.cur := User] && SameCreators(k.sync, y)
    ensures OneRunning(Unblock(k.(sync := y), u)) && ReadyList(Unblock(k.(sync := y), u))
    ensures IdleThread(Unblock(k.(sync := y), u))
  {
    hide OneRunning, ReadyList, WaitLists, WaitersBlocked, BlockedWhere, Starting, IdleThread;
    StartFacts(k, u);
    MoveOnReady(k, y, User);
    ReadyAgain(k.(sync := y), u);
    StartIdle(k, u, y);
  }

  lemma StartFacts(k: State, u: Tid)
    requires Sched(k) && PcOf(k, k.cur) == Start(u)
    ensures k.cur in k.sync.pc && k.cur != IDLE && u != IDLE && k.idle != Some(u)
    ensures u in k.status && k.status[u].Blocked? && u in k.sync.pc && k.sync.pc[u] == Born(None)
  {
    hide ReadyList, WaitLists, WaitersBlocked, BlockedWhere;
    assert k.cur in k.sync.pc;
    assert StartMatches(k, k.cur, u);
    assert !IsIdlePc(k.sync.pc[u]) && !IsIdlePc(k.sync.pc[k.cur]);
  }

  lemma StartIdle(k: State, u: Tid, y: Synch)
    requires IdleThread(k) && k.cur in k.sync.pc && k.cur != IDLE && u != IDLE && y.pc == k.sync.pc[k.cur := User]
    ensures IdleThread(Unblock(k.(sync := y), u))
  {
  }

  lemma StartLists(k: State, u: Tid, y: Synch)
    requires OneRunning(k) && WaitLists(k.sync) && WaitersBlocked(k) && BlockedWhere(k) && Starting(k)
    requires PcOf(k, k.cur) == Start(u)
    requires y.waiters == k.sync.waiters && y.pc == k.sync.pc[k.cur := User] && SameCreators(k.sync, y)
    ensures WaitLists(y) && WaitersBlocked(Unblock(k.(sync := y), u)) && BlockedWhere(Unblock(k.(sync := y), u))
  {
    assert k.cur in k.sync.pc && StartMatches(k, k.cur, u);
    MoveOnLists(k, y, User);
    hide Starting, OneRunning;
    StartedLists(k.(sync := y), u);
  }

  lemma StartedLists(k: State, u: Tid)
    requires WaitLists(k.sync) && WaitersBlocked(k) && BlockedWhere(k) && u in k.sync.pc && k.sync.pc[u] == Born(None)
    ensures WaitersBlocked(Unblock(k, u)) && BlockedWhere(Unblock(k, u))
  {
    hide NoDup, Parked;
  }

  lemma StartRest(k: State, u: Tid, y: Synch)
    requires OneRunning(k) && Starting(k) && PcOf(k, k.cur) == Start(u)
    requires y.pc == k.sync.pc[k.cur := User] && SameCreators(k.sync, y)
    ensures Starting(Unblock(k.(sync := y), u))
  {
  }

  /** The `thread_unblock` at the end of `thread_create`. */
  lemma StartKeeps(k: State, u: Tid, y: Synch)
    requires Sched(k) && PcOf(k, k.cur) == Start(u)
    requires y.waiters == k.sync.waiters && y.pc == k.sync.pc[k.cur := User] && SameCreators(k.sync, y)
    ensures Sched(Unblock(k.(sync := y), u))
  {
    StartRunning(k, u, y);
    StartLists(k, u, y);
    StartRest(k, u, y);
  }

  lemma StepKeepsSched(k: State)
    requires Sched(k) && !PcOf(k, k.cur).User?
    ensures Sched(Step(k))
  {
    assert k.cur in k.sync.pc;
    hide Sched, UpPlan, DownPlan;
    var p := PcOf(k, k.cur);
    if UpPlan(p).Some? {
      UpKeeps(k, UpPlan(p).value);
    } else if DownPlan(p).Some? {
      DownKeeps(k, DownPlan(p).value);
    } else {
      OwnStepKeeps(k, p);
    }
  }

  lemma OwnStepKeeps(k: State, p: Pc)
    requires Sched(k) && k.cur in k.sync.pc && k.sync.pc[k.cur] == p && !p.User? && UpPlan(p).None? && DownPlan(p).None?
    ensures Sched(Step(k))
  {
    hide Sched, Region, LocalEffect, Schedule;
    LocalRegionIs(k.sync, k.cur);
    LocalShape(k.sync, k.cur, p);
    LocalCreators(k.sync, k.cur, p);
    if p.Start? {
      StartKeeps(k, p.thread, Region(k.sync, k.cur));
    } else if p.SetIdle? {
      SetIdleKeeps(k, Region(k.sync, k.cur), p.id);
    } else {
      LocalKeeps(k, p);
      if p.IdleLoop? {
        IdleBlockKeeps(k.(sync := Region(k.sync, k.cur)));
      }
    }
  }

  function Created(k: State, u: Tid): State {
    SetStatus(k.(sync := Call(k.sync, k.cur, ThreadCreate(u))), u, Blocked)
  }

  lemma CreateLists(k: State, u: Tid)
    requires OneRunning(k) && WaitLists(k.sync) && WaitersBlocked(k) && BlockedWhere(k) && IdleThread(k)
    requires u !in k.sync.pc && Awake(k.sync, k.cur)
    ensures OneRunning(Created(k, u)) && WaitLists(Created(k, u).sync)
    ensures WaitersBlocked(Created(k, u)) && BlockedWhere(Created(k, u))
  {
    CreateWaits(k, u);
    CreateRunning(k, u);
    CreateWhere(k, u);
    hide OneRunning, WaitLists, WaitersBlocked, BlockedWhere, IdleThread, Created;
  }

  lemma CreateWaits(k: State, u: Tid)
    requires WaitLists(k.sync) && u !in k.sync.pc && Awake(k.sync, k.cur)
    ensures WaitLists(Created(k, u).sync)
  {
    hide NoDup, SleepsOn;
    FrameLists(k.sync, At(k.sync, u, Born(None)), u, Born(None));
    FrameLists(At(k.sync, u, Born(None)), Created(k, u).sync, k.cur, Start(u));
  }

  lemma CreateRunning(k: State, u: Tid)
    requires OneRunning(k) && u !in k.sync.pc
    ensures OneRunning(Created(k, u))
  {
  }

  lemma CreateWhere(k: State, u: Tid)
    requires OneRunning(k) && WaitersBlocked(k) && BlockedWhere(k) && IdleThread(k) && u !in k.sync.pc
    ensures WaitersBlocked(Created(k, u)) && BlockedWhere(Created(k, u))
  {
    hide IsIdlePc;
  }

  lemma CreateReady(k: State, u: Tid)
    requires OneRunning(k) && ReadyList(k) && u !in k.sync.pc
    ensures ReadyList(Created(k, u))
  {
  }

  lemma CreateRest(k: State, u: Tid)
    requires OneRunning(k) && Starting(k) && IdleThread(k)
    requires u !in k.sync.pc && PcOf(k, k.cur).User?
    ensures Starting(Created(k, u)) && IdleThread(Created(k, u))
  {
  }

  lemma CallKeepsSched(k: State, op: Op)
    requires Sched(k) && PcOf(k, k.cur).User? && Allowed(k.sync, k.cur, op)
    ensures Sched(Apply(k, Begin(op)))
  {
    if op.ThreadCreate? {
      CreateLists(k, op.thread);
      CreateReady(k, op.thread);
      CreateRest(k, op.thread);
      hide OneRunning, ReadyList, WaitLists, WaitersBlocked, BlockedWhere, Starting, IdleThread;
    } else {
      MoveOnKeeps(k, Call(k.sync, k.cur, op), Entry(k.sync, op));
    }
  }

  lemma TickKeeps(k: State)
    requires Sched(k)
    ensures Sched(TimerTick(k))
  {
    if k.ticks + 1 >= TIME_SLICE {
      YieldKeeps(k.(ticks := k.ticks + 1));
    }
  }

  lemma ApplyKeepsSched(k: State, e: Event)
    requires Sched(k) && Enabled(k, e)
    ensures Sched(Apply(k, e))
  {
    hide Sched, Step, Call, TimerTick, YieldCurrent, ExitCurrent, Raise, TryTake, FirstWaiter, Allowed, SleepsOn;
    SchedTicks(k);
    match e
    case Begin(op) => CallKeepsSched(k, op);
    case Advance => StepKeepsSched(k);
    case Tick => TickKeeps(k);
    case Yield => YieldKeeps(k);
    case Exit => ExitKeeps(k);
    case HandlerUp(id) => RaisedKeeps(k, Plain(id));
    case HandlerTryDown(id) => TryTakeKeeps(k, Plain(id));
  }

  lemma SchedTicks(k: State)
    requires Sched(k)
    ensures Sched(k.(ticks := 0))
  {
    hide WaitLists, NoDup, Parked, IsIdlePc;
  }

  lemma TryTakeKeeps(k: State, s: SemaId)
    requires Sched(k)
    ensures Sched(k.(sync := TryTake(k.sync, s)))
  {
    SameSync(k, TryTake(k.sync, s));
  }

  lemma SameSync(k: State, y: Synch)
    requires Sched(k) && y.pc == k.sync.pc && y.waiters == k.sync.waiters && y.hist.creatorOf == k.sync.hist.creatorOf
    ensures Sched(k.(sync := y))
  {
    hide NoDup, IsIdlePc, SleepsOn;
  }
}
