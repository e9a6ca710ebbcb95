/** The scheduler of threads/thread.c on top of the synchronisation primitives: which
    thread makes the next move, the FIFO ready list, the idle thread and the time
    slice.  A run is a list of events, so a statement about every event list is a
    statement about every interleaving on one processor. */
module SchedModel {
  import opened Basics
  import opened SynchModel

  datatype Status = Running | Ready | Blocked | Dying

  datatype State = State(
    status: map<Tid, Status>,
    cur: Tid,                  // the thread whose stack is in use
    ready: seq<Tid>,           // ready_list
    idle: Option<Tid>,         // idle_thread
    ticks: nat,                // thread_ticks
    sync: Synch
  )

  const TIME_SLICE: nat := 4

  function PcOf(k: State, t: Tid): Pc { Get(k.sync.pc, t, User) }

  /** A thread that resumes inside `thread_block` or that has not entered
      `kernel_thread` yet still runs with interrupts off. */
  predicate InterruptsOn(k: State) {
    SleepsOn(PcOf(k, k.cur)).None? && !PcOf(k, k.cur).Born?
  }

  // ----- scheduling -----

  function SetStatus(k: State, t: Tid, s: Status): State { k.(status := k.status[t := s]) }

  /** `next_thread_to_run`; the last case is a null `idle_thread`. */
  function NextThread(k: State): Tid {
    if k.ready != [] then k.ready[0] else if k.idle.Some? then k.idle.value else k.cur
  }

  /** `schedule` with `thread_schedule_tail`, once the current status has changed. */
  function Schedule(k: State): State {
    k.(status := k.status[NextThread(k) := Running],
       ready := if k.ready != [] then k.ready[1..] else [],
       cur := NextThread(k),
       ticks := 0)
  }

  function BlockCurrent(k: State): State { Schedule(SetStatus(k, k.cur, Blocked)) }

  function Unblock(k: State, t: Tid): State {
    k.(status := k.status[t := Ready], ready := k.ready + [t])
  }

  function Unblocks(k: State, ts: Option<Tid>): State {
    if ts.None? then k else Unblock(k, ts.value)
  }

  /** `thread_yield` up to its call of `schedule`. */
  function Yielding(k: State): State {
    k.(status := k.status[k.cur := Ready],
       ready := if k.idle == Some(k.cur) then k.ready else k.ready + [k.cur])
  }

  function YieldCurrent(k: State): State { Schedule(Yielding(k)) }

  function ExitCurrent(k: State): State { Schedule(SetStatus(k, k.cur, Dying)) }

  /** `thread_tick` and the end of `intr_handler`. */
  function TimerTick(k: State): State {
    if k.ticks + 1 >= TIME_SLICE then YieldCurrent(k.(ticks := k.ticks + 1))
    else k.(ticks := k.ticks + 1)
  }

  // ----- one region of the current thread -----

  /** The thread that `sema_up` on `s` unblocks. */
  function FirstWaiter(y: Synch, s: SemaId): Option<Tid> {
    if Waiters(y, s) == [] then None else Some(Waiters(y, s)[0])
  }

  function Step(k: State): State
    requires k.cur in k.sync.pc
  {
    var p := k.sync.pc[k.cur];
    var k1 := k.(sync := Region(k.sync, k.cur));
    if UpPlan(p).Some? then Unblocks(k1, FirstWaiter(k.sync, UpPlan(p).value.sema))
    else if DownPlan(p).Some? then
      if Value(k.sync, DownPlan(p).value.sema) == 0 then BlockCurrent(k1) else k1
    else
      match p
      case Start(u) => Unblock(k1, u)
      case SetIdle(_) => k1.(idle := Some(k.cur))
      case IdleLoop => BlockCurrent(k1)
      case _ => k1
  }

  // ----- events and runs -----

  datatype Event =
    | Begin(op: Op)             // user code of the current thread calls a primitive
    | Advance                   // the current thread executes its next region
    | Tick                      // timer interrupt
    | Yield | Exit              // thread_yield, thread_exit
    | HandlerUp(id: nat)        // sema_up in an interrupt handler
    | HandlerTryDown(id: nat)   // sema_try_down in an interrupt handler

  predicate Enabled(k: State, e: Event) {
    && k.cur in k.sync.pc
    && match e
       case Begin(op) => k.sync.pc[k.cur].User? && Allowed(k.sync, k.cur, op)
       case Advance => !k.sync.pc[k.cur].User?
       case Tick => InterruptsOn(k)
       case Yield => k.sync.pc[k.cur].User?
       case Exit => k.sync.pc[k.cur].User?
       case HandlerUp(_) => InterruptsOn(k)
       case HandlerTryDown(_) => InterruptsOn(k)
  }

  function Apply(k: State, e: Event): State
    requires Enabled(k, e)
  {
    match e
    case Begin(op) =>
      var k1 := k.(sync := Call(k.sync, k.cur, op));
      if op.ThreadCreate? then SetStatus(k1, op.thread, Blocked) else k1
    case Advance => Step(k)
    case Tick => TimerTick(k)
    case Yield => YieldCurrent(k)
    case Exit => ExitCurrent(k)
    case HandlerUp(id) =>
      Unblocks(k.(sync := Raise(k.sync, Plain(id))), FirstWaiter(k.sync, Plain(id)))
    case HandlerTryDown(id) => k.(sync := TryTake(k.sync, Plain(id)))
  }

  /** After `thread_init` and the `thread_create` of `thread_start`: the initial thread
      runs and the future idle thread is ready. */
  function BootState(initial: map<nat, nat>, started: nat): State {
    State(map[INITIAL := Running, IDLE := Ready], INITIAL, [IDLE], None, 0, Boot(initial, started))
  }

  predicate Legal(k: State, es: seq<Event>)
    decreases |es|
  {
    es == [] || (Enabled(k, es[0]) && Legal(Apply(k, es[0]), es[1..]))
  }

  function Run(k: State, es: seq<Event>): State
    requires Legal(k, es)
    decreases |es|
  {
    if es == [] then k else Run(Apply(k, es[0]), es[1..])
  }
}
