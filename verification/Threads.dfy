/** The single-CPU kernel as a step system: the scheduler (thread/thread.c), binary
semaphores and re-entrant locks (thread/sync.c) and the disk-completion handshake
(device/ide.c).

One action is what the CPU does without being interruptible: a whole interrupts-off
section, or a single access to a lock field outside such a section. A timer or disk
interrupt may come between any two actions unless the running thread is inside
`sema_down`'s loop, where interrupts are off. Every `ASSERT` of the code is evaluated
in the action that executes it; a failing one sets `panicked`, and nothing runs after. */
module Threads {
  import opened Basics

  type Tid = nat

  datatype Status = RUNNING | READY | BLOCKED | WAITING | HANGING

  /** A channel's own lock is told apart from all the other locks of the kernel. */
  datatype LockId = Plain(n: nat) | Channel(c: nat)

  /** A semaphore belongs to a lock, or is the `disk_done` of a channel. */
  datatype SemaId = OfLock(l: LockId) | DiskDone(c: nat)

  /** What a thread will execute next. `Run` is code outside the modelled functions. */
  datatype Pc =
    | Run
    | AcqTest(l: LockId)    // lock_acquire: compare holder with the running thread
    | AcqAgain(l: LockId)   // lock_acquire: holder_repeat_nr++
    | Down(s: SemaId)       // sema_down: about to turn interrupts off
    | Retest(s: SemaId)     // sema_down: back from thread_block, interrupts off
    | AcqHolder(l: LockId)  // lock_acquire: holder = running thread
    | AcqCount(l: LockId)   // lock_acquire: ASSERT(holder_repeat_nr == 0); set to 1
    | RelTest(l: LockId)    // lock_release: ASSERT(holder == running thread); test count
    | RelAgain(l: LockId)   // lock_release: holder_repeat_nr--
    | RelHolder(l: LockId)  // lock_release: ASSERT(holder_repeat_nr == 1); holder = NULL
    | RelCount(l: LockId)   // lock_release: holder_repeat_nr = 0
    | RelUp(l: LockId)      // lock_release: sema_up

  /** `held[l]` counts the returned `lock_acquire(l)` calls of the thread that no
  `lock_release(l)` has undone: it is the program's nesting depth, not a kernel field. */
  datatype Thread = Thread(status: Status, pc: Pc, held: multiset<LockId>)

  datatype Sema = Sema(value: nat, waiters: seq<Tid>)

  datatype Lock = Lock(holder: Option<Tid>, repeat: nat)

  /** `issued`, `ups` and `downs` count commands sent, interrupts that raised
  `disk_done`, and completed waits; the kernel itself keeps only `expecting`. */
  datatype Chan = Chan(expecting: bool, issued: nat, ups: nat, downs: nat)

  datatype State = State(
    threads: map<Tid, Thread>,  // thread_all_list
    cur: Tid,                   // running_thread()
    idle: Tid,                  // idle_thread
    ready: seq<Tid>,            // thread_ready_list
    semas: map<SemaId, Sema>,
    locks: map<LockId, Lock>,
    chans: map<nat, Chan>,
    panicked: bool)

  datatype Action =
    | Tick                      // timer interrupt that reschedules
    | Irq(c: nat)               // interrupt from channel c
    | Yield                     // thread_yield
    | IdleBlock                 // idle: thread_block(TASK_BLOCKED)
    | Block(status: Status)     // thread_block from sys_wait or sys_exit
    | Wake(t: Tid)              // thread_unblock from sys_exit
    | Create(t: Tid)            // thread_start, process_execute, sys_fork
    | Reap(t: Tid)              // thread_exit(t, false)
    | Exit                      // thread_exit(running_thread(), true)
    | Acquire(l: LockId)        // call lock_acquire
    | Release(l: LockId)        // call lock_release
    | Command(c: nat)           // cmd_out, followed by sema_down(&disk_done)
    | Advance                   // next action of the function being executed

  // ---------------------------------------------------------------------------
  // Interrupts-off sections
  // ---------------------------------------------------------------------------

  function Fail(k: State): State {
    k.(panicked := true)
  }

  function SetThread(k: State, t: Tid, th: Thread): State {
    k.(threads := k.threads[t := th])
  }

  function SetStatus(k: State, t: Tid, s: Status): State
    requires t in k.threads
  {
    SetThread(k, t, k.threads[t].(status := s))
  }

  function SetPc(k: State, pc: Pc): State
    requires k.cur in k.threads
  {
    SetThread(k, k.cur, k.threads[k.cur].(pc := pc))
  }

  /** thread_unblock */
  function Unblock(k: State, t: Tid): State
    requires t in k.threads
  {
    if k.threads[t].status == RUNNING || k.threads[t].status == READY || t in k.ready then Fail(k)
    else SetStatus(k, t, READY).(ready := [t] + k.ready)
  }

  /** The second half of schedule: wake idle if nobody is ready, then run the first
  thread of the ready list. */
  function SwitchIn(k: State): State
    requires k.idle in k.threads
    requires forall t :: t in k.ready ==> t in k.threads
  {
    var k1 := if k.ready == [] then Unblock(k, k.idle) else k;
    if k1.ready == [] then Fail(k1)
    else SetStatus(k1, k1.ready[0], RUNNING).(cur := k1.ready[0], ready := k1.ready[1..])
  }

  /** schedule */
  function Schedule(k: State): State
    requires k.cur in k.threads && k.idle in k.threads
    requires forall t :: t in k.ready ==> t in k.threads
  {
    if k.threads[k.cur].status != RUNNING then SwitchIn(k)
    else if k.cur in k.ready then Fail(k)
    else SwitchIn(SetStatus(k, k.cur, READY).(ready := k.ready + [k.cur]))
  }

  /** thread_block */
  function BlockCurrent(k: State, s: Status): State
    requires k.cur in k.threads && k.idle in k.threads
    requires forall t :: t in k.ready ==> t in k.threads
  {
    Schedule(SetStatus(k, k.cur, s))
  }

  /** thread_yield */
  function YieldCurrent(k: State): State
    requires k.cur in k.threads && k.idle in k.threads
    requires forall t :: t in k.ready ==> t in k.threads
  {
    if k.cur in k.ready then Fail(k)
    else Schedule(SetStatus(k, k.cur, READY).(ready := k.ready + [k.cur]))
  }

  function SetSema(k: State, s: SemaId, sema: Sema): State {
    k.(semas := k.semas[s := sema])
  }

  /** sema_up */
  function SemaUp(k: State, s: SemaId): State
    requires s in k.semas
    requires forall t :: t in k.semas[s].waiters ==> t in k.threads
  {
    var Sema(value, waiters) := k.semas[s];
    if value != 0 then Fail(k)
    else if waiters == [] then SetSema(k, s, Sema(1, []))
    else SetSema(Unblock(k, waiters[0]), s, Sema(1, waiters[1..]))
  }

  /** Where the caller of sema_down goes on. */
  function AfterDown(s: SemaId): Pc {
    match s
    case OfLock(l) => AcqHolder(l)
    case DiskDone(_) => Run
  }

  /** One iteration of sema_down's loop. */
  function SemaDown(k: State, s: SemaId): State
    requires s in k.semas && k.cur in k.threads && k.idle in k.threads
    requires forall t :: t in k.ready ==> t in k.threads
  {
    var Sema(value, waiters) := k.semas[s];
    if value == 0 then
      if k.cur in waiters then Fail(k)
      else BlockCurrent(SetSema(SetPc(k, Retest(s)), s, Sema(0, waiters + [k.cur])), BLOCKED)
    else if value - 1 != 0 then Fail(k)
    else
      var k1 := SetPc(SetSema(k, s, Sema(value - 1, waiters)), AfterDown(s));
      if s.DiskDone? && s.c in k.chans
      then k1.(chans := k.chans[s.c := k.chans[s.c].(downs := k.chans[s.c].downs + 1)])
      else k1
  }

  /** intr_hd_handler */
  function DiskInterrupt(k: State, c: nat): State
    requires c in k.chans && DiskDone(c) in k.semas
    requires forall t :: t in k.semas[DiskDone(c)].waiters ==> t in k.threads
  {
    var ch := k.chans[c];
    if !ch.expecting then k
    else SemaUp(k.(chans := k.chans[c := ch.(expecting := false, ups := ch.ups + 1)]), DiskDone(c))
  }

  // ---------------------------------------------------------------------------
  // lock_acquire and lock_release, one field access at a time
  // ---------------------------------------------------------------------------

  function SetLock(k: State, l: LockId, lock: Lock): State {
    k.(locks := k.locks[l := lock])
  }

  function SetHeld(k: State, l: LockId, n: nat): State
    requires k.cur in k.threads
  {
    SetThread(k, k.cur, k.threads[k.cur].(held := k.threads[k.cur].held[l := n], pc := Run))
  }

  function LockStep(k: State, l: LockId): State
    requires k.cur in k.threads && l in k.locks && OfLock(l) in k.semas
    requires forall t :: t in k.semas[OfLock(l)].waiters ==> t in k.threads
  {
    var Lock(holder, repeat) := k.locks[l];
    var th := k.threads[k.cur];
    match th.pc
    case AcqTest(_) => SetPc(k, if holder != Some(k.cur) then Down(OfLock(l)) else AcqAgain(l))
    case AcqAgain(_) => SetHeld(SetLock(k, l, Lock(holder, repeat + 1)), l, th.held[l] + 1)
    case AcqHolder(_) => SetPc(SetLock(k, l, Lock(Some(k.cur), repeat)), AcqCount(l))
    case AcqCount(_) =>
      if repeat != 0 then Fail(k)
      else SetHeld(SetLock(k, l, Lock(holder, 1)), l, th.held[l] + 1)
    case RelTest(_) =>
      if holder != Some(k.cur) then Fail(k)
      else SetPc(k, if repeat > 1 then RelAgain(l) else RelHolder(l))
    case RelAgain(_) =>
      if repeat == 0 || th.held[l] == 0 then Fail(k)
      else SetHeld(SetLock(k, l, Lock(holder, repeat - 1)), l, th.held[l] - 1)
    case RelHolder(_) =>
      if repeat != 1 || th.held[l] == 0 then Fail(k)
      else SetPc(SetHeld(SetLock(k, l, Lock(None, repeat)), l, th.held[l] - 1), RelCount(l))
    case RelCount(_) => SetPc(SetLock(k, l, Lock(holder, 0)), RelUp(l))
    case RelUp(_) => SemaUp(SetPc(k, Run), OfLock(l))
    case _ => k
  }

  // ---------------------------------------------------------------------------
  // Runs
  // ---------------------------------------------------------------------------

  predicate InterruptsOn(pc: Pc) {
    !pc.Retest?
  }

  /** Every queue names registered threads only; ids in use exist. */
  ghost predicate Linked(k: State) {
    && k.cur in k.threads && k.idle in k.threads
    && (forall t :: t in k.ready ==> t in k.threads)
    && (forall s, t :: s in k.semas && t in k.semas[s].waiters ==> t in k.threads)
    && (forall l :: l in k.locks <==> OfLock(l) in k.semas)
    && (forall c :: c in k.chans <==> DiskDone(c) in k.semas)
    && (forall c :: c in k.chans ==> Channel(c) in k.locks)
  }

  predicate PcKnown(k: State, pc: Pc) {
    match pc
    case Run => true
    case Down(s) => s in k.semas
    case Retest(s) => s in k.semas
    case _ => pc.l in k.locks
  }

  /** What the code asks of its callers: only a holder releases, only the holder of a
  channel's lock issues commands to it, a thread that ends holds no lock, and the idle
  thread does nothing but block itself. */
  ghost predicate Enabled(k: State, a: Action) {
    && !k.panicked && Linked(k)
    && var me := k.threads[k.cur];
       match a
       case Tick => InterruptsOn(me.pc)
       case Irq(c) => c in k.chans && InterruptsOn(me.pc)
       case Yield => me.pc == Run
       case IdleBlock => k.cur == k.idle
       case Block(s) =>
         && me.pc == Run && k.cur != k.idle
         && (s == WAITING || (s == HANGING && me.held == multiset{}))
       case Wake(t) => me.pc == Run && t in k.threads && k.threads[t].status == WAITING
       case Create(t) => me.pc == Run && t !in k.threads
       case Reap(t) => me.pc == Run && t in k.threads && k.threads[t].status == HANGING
       case Exit => me.pc == Run && k.cur != k.idle && me.held == multiset{}
       case Acquire(l) => me.pc == Run && k.cur != k.idle && l in k.locks
       case Release(l) => me.pc == Run && l in k.locks && me.held[l] > 0
       case Command(c) => me.pc == Run && c in k.chans && me.held[Channel(c)] > 0
       case Advance => me.pc != Run && PcKnown(k, me.pc)
  }

  function Apply(k: State, a: Action): State
    requires Enabled(k, a)
  {
    match a
    case Tick => Schedule(k)
    case Irq(c) => DiskInterrupt(k, c)
    case Yield => YieldCurrent(k)
    case IdleBlock => BlockCurrent(k, BLOCKED)
    case Block(s) => BlockCurrent(k, s)
    case Wake(t) => Unblock(k, t)
    case Create(t) =>
      if t in k.ready then Fail(k)
      else SetThread(k, t, Thread(READY, Run, multiset{})).(ready := k.ready + [t])
    case Reap(t) => k.(threads := k.threads - {t}, ready := Without<Tid>(k.ready, t))
    case Exit =>
      var k1 := k.(threads := k.threads - {k.cur}, ready := Without<Tid>(k.ready, k.cur));
      SwitchIn(k1)
    case Acquire(l) => SetPc(k, AcqTest(l))
    case Release(l) => SetPc(k, RelTest(l))
    case Command(c) =>
      var ch := k.chans[c];
      SetPc(k.(chans := k.chans[c := ch.(expecting := true, issued := ch.issued + 1)]),
            Down(DiskDone(c)))
    case Advance =>
      var pc := k.threads[k.cur].pc;
      if pc.Down? || pc.Retest? then SemaDown(k, pc.s) else LockStep(k, pc.l)
  }

  /** After start-up: every lock free, no disk command outstanding, `main` running and
  the threads created before it in the ready list. */
  ghost predicate Init(k: State) {
    && Linked(k) && !k.panicked
    && k.idle != k.cur
    && NoDup(k.ready) && k.cur !in k.ready
    && (forall t :: t in k.threads ==> t == k.cur || t in k.ready)
    && (forall t :: t in k.threads ==>
          k.threads[t] == Thread(if t == k.cur then RUNNING else READY, Run, multiset{}))
    && (forall l :: l in k.locks ==> k.locks[l] == Lock(None, 0) && k.semas[OfLock(l)] == Sema(1, []))
    && (forall c :: c in k.chans ==> k.chans[c] == Chan(false, 0, 0, 0) && k.semas[DiskDone(c)] == Sema(0, []))
  }

  /** `run` is a sequence of actions that can be executed one after the other. */
  ghost predicate Legal(k: State, run: seq<Action>)
    decreases |run|
  {
    run == [] || (Enabled(k, run[0]) && Legal(Apply(k, run[0]), run[1..]))
  }

  function Exec(k: State, run: seq<Action>): State
    requires Legal(k, run)
    decreases |run|
  {
    if run == [] then k else Exec(Apply(k, run[0]), run[1..])
  }
}
