/** The functions of thread/thread.c and thread/sync.c as they update the kernel's
variables in place. Each is proved against the action of the step system it performs;
every ASSERT of the code appears as an assertion. */
module Kernels {
  import opened Basics
  import opened Threads
  import opened ThreadEffects
  import opened ThreadSafety
  import opened ThreadQueues

  class Kernel {
    const queues: Queues                 // thread_ready_list and the wait queues
    var threads: map<Tid, Thread>
    var cur: Tid
    var idle: Tid
    var values: map<SemaId, nat>         // the values of the semaphores
    var locks: map<LockId, Lock>
    var chans: map<nat, Chan>
    ghost var semas: map<SemaId, Sema>   // value and waiting threads

    /** Nobody waits yet. */
    constructor (queues: Queues, threads: map<Tid, Thread>, cur: Tid, idle: Tid, values: map<SemaId, nat>,
                 locks: map<LockId, Lock>, chans: map<nat, Chan>)
      requires queues.Valid() && Ready in queues.ids && (forall t :: t in threads ==> t in queues.tag)
      requires forall s :: s in values <==> Wait(s) in queues.ids
      requires forall s :: s in values ==> queues.ids[Wait(s)] == []
      ensures Valid() && this.queues == queues
      ensures Abs() == State(threads, cur, idle, queues.ids[Ready], semas, locks, chans, false)
      ensures semas.Keys == values.Keys && forall s :: s in semas ==> semas[s] == Sema(values[s], [])
    {
      this.queues, this.threads, this.cur, this.idle := queues, threads, cur, idle;
      this.values, this.locks, this.chans := values, locks, chans;
      semas := map s | s in values :: Sema(values[s], []);
    }

    /** The queues of the model are the lists, and every thread has a link. */
    ghost predicate Tied()
      reads this, queues
    {
      && this !in queues.repr && Ready in queues.ids && Ready in queues.lists && semas.Keys == values.Keys
      && (forall s :: s in semas <==> Wait(s) in queues.ids) && (forall s :: s in semas ==> Wait(s) in queues.lists)
      && (forall s :: s in semas ==> semas[s] == Sema(values[s], queues.ids[Wait(s)]))
      && (forall t :: t in threads ==> t in queues.tag)
    }

    /** The lists are well formed, and each links the threads that wait there. */
    ghost predicate Valid()
      reads this, queues, queues.repr
    {
      queues.Valid() && Tied()
    }

    ghost function Abs(): State
      reads this, queues
    {
      State(threads, cur, idle, if Ready in queues.ids then queues.ids[Ready] else [], semas, locks, chans, false)
    }

    lemma OnNone(t: Tid)
      requires Tied() && OffQueues(Abs(), t)
      ensures forall q :: q in queues.ids ==> t !in queues.ids[q]
    {
      forall q | q in queues.ids ensures t !in queues.ids[q] {
        if q.Wait? {
          assert q.s in semas;
        }
      }
    }

    /** thread_unblock */
    method ThreadUnblock(t: Tid)
      requires Valid() && t in threads && !Awake(threads[t].status) && OffQueues(Abs(), t)
      modifies this`threads, queues`ids, queues.repr
      ensures Valid() && Unblocks(old(Abs()), Abs(), t)
      ensures Moves(old(Abs()), Abs(), old(cur), [t] + old(Abs()).ready, map[t := READY])
    {
      hide Queues.Valid;
      var status := threads[t].status;
      assert status == BLOCKED || status == WAITING || status == HANGING;
      if status != READY {
        var found := queues.Find(Ready, t);
        assert !found;
        OnNone(t);
        queues.Push(Ready, t);
        threads := threads[t := threads[t].(status := READY)];
      }
    }

    /** schedule */
    method ScheduleNext()
      requires Valid() && CanSchedule(Abs())
      modifies this`threads, this`cur, queues`ids, queues.repr
      ensures Valid() && Schedules(old(Abs()), Abs())
    {
      hide Queues.Valid, CanSchedule, OffQueues, Tied;
      ghost var k := Abs();
      ScheduleIs(k);
      TiedParts();
      if threads[cur].status == RUNNING {
        AppendReady();
      }
      var none := queues.Empty(Ready);
      TiedParts();
      if none {
        ThreadUnblock(idle);
      }
      RunFirst();
    }

    lemma TiedParts()
      requires Tied()
      ensures Ready in queues.ids && Ready in queues.lists
    {
    }

    /** The current thread goes to the end of the ready list. */
    method AppendReady()
      requires Valid() && cur in threads && OffQueues(Abs(), cur)
      modifies this`threads, queues`ids, queues.repr
      ensures Valid()
      ensures var k := old(Abs()); Abs() == SetStatus(k, k.cur, READY).(ready := k.ready + [k.cur])
    {
      hide Queues.Valid;
      var found := queues.Find(Ready, cur);
      assert !found;
      OnNone(cur);
      queues.Append(Ready, cur);
      threads := threads[cur := threads[cur].(status := READY)];
    }

    /** The end of schedule: the first thread of the ready list runs. */
    method RunFirst()
      requires Valid() && Abs().ready != [] && Abs().ready[0] in threads
      modifies this`threads, this`cur, queues`ids, queues.repr
      ensures Valid()
      ensures var k := old(Abs()); Abs() == SetStatus(k, k.ready[0], RUNNING).(cur := k.ready[0], ready := k.ready[1..])
    {
      hide Queues.Valid;
      var none := queues.Empty(Ready);
      assert !none;
      var next := queues.Pop(Ready);
      threads := threads[next := threads[next].(status := RUNNING)];
      cur := next;
    }

    /** thread_block */
    method ThreadBlock(status: Status)
      requires Valid() && CanBlock(Abs(), status)
      modifies this`threads, this`cur, queues`ids, queues.repr
      ensures Valid() && Blocks(old(Abs()), Abs(), status)
      ensures HandsOver(old(Abs()), Abs(), old(Abs()).ready, status)
    {
      hide Queues.Valid, CanBlock, CanSchedule, Schedule, HandsOver, Schedulable;
      BlockIs(Abs(), status);
      BlockCurrentEffect(Abs(), status);
      assert status == BLOCKED || status == WAITING || status == HANGING;
      threads := threads[cur := threads[cur].(status := status)];
      ScheduleNext();
    }

    /** thread_yield */
    method ThreadYield()
      requires Valid() && CanYield(Abs())
      modifies this`threads, this`cur, queues`ids, queues.repr
      ensures Valid() && Yields(old(Abs()), Abs())
      ensures HandsOver(old(Abs()), Abs(), old(Abs()).ready + [old(cur)], READY)
    {
      hide Queues.Valid, CanYield, CanSchedule, Schedule, OffQueues, HandsOver;
      YieldIs(Abs());
      AppendReady();
      ScheduleNext();
    }

    lemma SemaParts(s: SemaId)
      requires Tied() && s in semas
      ensures this !in queues.repr && s in values && Wait(s) in queues.ids && Wait(s) in queues.lists
      ensures semas[s] == Sema(values[s], queues.ids[Wait(s)])
    {
    }

    /** sema_up */
    method Up(s: SemaId)
      requires Valid() && s in values && s in semas && values[s] == 0 && WaitersExact(Abs()) && ReadyExact(Abs())
      modifies this`threads, this`values, this`semas, queues`ids, queues.repr
      ensures Valid() && Ups(old(Abs()), Abs(), s)
    {
      hide Queues.Valid, Tied, WaitersExact, ReadyExact, OffQueues;
      SemaParts(s);
      UpIs(Abs(), s);
      assert values[s] == 0;
      var none := queues.Empty(Wait(s));
      if !none {
        var t := PopWaiter(s);
        ThreadUnblock(t);
      }
      SetValue(s, values[s] + 1);
      assert values[s] == 1;
    }

    method SetValue(s: SemaId, value: nat)
      requires Valid() && s in values && s in semas
      modifies this`values, this`semas
      ensures Valid() && values == old(values)[s := value]
      ensures Abs() == SetSema(old(Abs()), s, old(semas)[s].(value := value))
    {
      hide Queues.Valid;
      values := values[s := value];
      semas := semas[s := semas[s].(value := value)];
    }

    /** The current thread's own record. */
    method SetCurrent(th: Thread)
      requires Valid() && cur in threads
      modifies this`threads
      ensures Valid() && Abs() == SetThread(old(Abs()), cur, th)
    {
      hide Queues.Valid;
      threads := threads[cur := th];
    }

    method SetFields(l: LockId, lock: Lock)
      requires Valid()
      modifies this`locks
      ensures Valid() && Abs() == SetLock(old(Abs()), l, lock)
    {
      hide Queues.Valid;
      locks := locks[l := lock];
    }

    method PopWaiter(s: SemaId) returns (t: Tid)
      requires Valid() && s in semas && semas[s].waiters != []
      modifies this`semas, queues`ids, queues.repr
      ensures Valid() && t == old(semas)[s].waiters[0]
      ensures Abs() == SetSema(old(Abs()), s, old(semas)[s].(waiters := old(semas)[s].waiters[1..]))
    {
      hide Queues.Valid;
      t := queues.Pop(Wait(s));
      semas := semas[s := semas[s].(waiters := queues.ids[Wait(s)])];
    }

    method AppendWaiter(s: SemaId)
      requires Valid() && s in semas && cur in threads && OffQueues(Abs(), cur)
      modifies this`semas, queues`ids, queues.repr
      ensures Valid()
      ensures Abs() == SetSema(old(Abs()), s, old(semas)[s].(waiters := old(semas)[s].waiters + [cur]))
    {
      hide Queues.Valid;
      var found := queues.Find(Wait(s), cur);
      assert !found;
      OnNone(cur);
      queues.Append(Wait(s), cur);
      semas := semas[s := semas[s].(waiters := queues.ids[Wait(s)])];
    }

    /** One pass through sema_down's loop: `taken` tells whether it was the last. */
    method DownPass(s: SemaId) returns (taken: bool)
      requires Valid() && CanDown(Abs(), s)
      modifies this`threads, this`cur, this`values, this`semas, this`chans, queues`ids, queues.repr
      ensures Valid() && Downs(old(Abs()), Abs(), s)
      ensures s in old(values) && taken == (old(values)[s] != 0)
    {
      hide Queues.Valid, Tied, CanDown, CanBlock, BlockCurrent, OffQueues;
      DownIs(Abs(), s);
      SemaParts(s);
      taken := values[s] != 0;
      if !taken {
        AppendWaiter(s);
        SetCurrent(threads[cur].(pc := Retest(s)));
        ThreadBlock(BLOCKED);
      } else {
        SetValue(s, values[s] - 1);
        assert values[s] == 0;
        SetCurrent(threads[cur].(pc := AfterDown(s)));
        CountDown(s);
      }
    }

    /** The interrupts a driver took notice of. */
    method CountDown(s: SemaId)
      requires Valid()
      modifies this`chans
      ensures Valid()
      ensures var k := old(Abs());
              Abs() == if s.DiskDone? && s.c in k.chans
                       then k.(chans := k.chans[s.c := k.chans[s.c].(downs := k.chans[s.c].downs + 1)]) else k
    {
      hide Queues.Valid;
      if s.DiskDone? && s.c in chans {
        chans := chans[s.c := chans[s.c].(downs := chans[s.c].downs + 1)];
      }
    }

    /** intr_hd_handler */
    method DiskHandler(c: nat)
      requires Valid() && CanAnswer(Abs(), c)
      modifies this`threads, this`values, this`semas, this`chans, queues`ids, queues.repr
      ensures Valid() && Answers(old(Abs()), Abs(), c)
    {
      hide CanAnswer, SemaUp, Queues.Valid, WaitersExact, ReadyExact;
      AnswerIs(Abs(), c);
      SemaParts(DiskDone(c));
      if chans[c].expecting {
        chans := chans[c := chans[c].(expecting := false, ups := chans[c].ups + 1)];
        Up(DiskDone(c));
      }
    }

    /** The actions of lock_acquire and lock_release on the lock's own fields. */
    method LockFields(ghost owner: Option<Tid>)
      requires Valid() && cur in threads && PcOk(threads[cur])
      requires var pc := threads[cur].pc; !pc.Run? && !pc.Down? && !pc.Retest? && !pc.RelUp?
      requires var l := threads[cur].pc.l;
               l in locks && OfLock(l) in semas && LockOk(Abs(), l, owner)
      requires forall t :: t in semas[OfLock(threads[cur].pc.l)].waiters ==> t in threads
      modifies this`threads, this`locks
      ensures Valid()
      ensures var l := old(threads[cur].pc.l);
              Abs() == LockStep(old(Abs()), l) && !LockStep(old(Abs()), l).panicked
    {
      hide Queues.Valid, Tied;
      assert Owned(cur, threads[cur], threads[cur].pc.l).Some? ==> owner == Some(cur);
      var th := threads[cur];
      var l := th.pc.l;
      var lock := locks[l];
      match th.pc
      case AcqTest(_) =>
        SetCurrent(th.(pc := if lock.holder != Some(cur) then Down(OfLock(l)) else AcqAgain(l)));
      case AcqAgain(_) =>
        SetFields(l, lock.(repeat := lock.repeat + 1));
        SetCurrent(th.(held := th.held[l := th.held[l] + 1], pc := Run));
      case AcqHolder(_) =>
        SetFields(l, lock.(holder := Some(cur)));
        SetCurrent(th.(pc := AcqCount(l)));
      case AcqCount(_) =>
        assert lock.repeat == 0;
        SetFields(l, lock.(repeat := 1));
        SetCurrent(th.(held := th.held[l := th.held[l] + 1], pc := Run));
      case RelTest(_) =>
        assert lock.holder == Some(cur);
        SetCurrent(th.(pc := if lock.repeat > 1 then RelAgain(l) else RelHolder(l)));
      case RelAgain(_) =>
        SetFields(l, lock.(repeat := lock.repeat - 1));
        SetCurrent(th.(held := th.held[l := th.held[l] - 1], pc := Run));
      case RelHolder(_) =>
        assert lock.repeat == 1;
        SetFields(l, lock.(holder := None));
        SetCurrent(th.(held := th.held[l := th.held[l] - 1], pc := RelCount(l)));
      case RelCount(_) =>
        SetFields(l, lock.(repeat := 0));
        SetCurrent(th.(pc := RelUp(l)));
    }
  }

  // ---------------------------------------------------------------------------
  // The steps, and when they can be made
  // ---------------------------------------------------------------------------

  /** The thread is on no queue. */
  ghost predicate OffQueues(k: State, t: Tid) {
    t !in k.ready && forall s :: s in k.semas ==> t !in k.semas[s].waiters
  }

  ghost predicate Unblocks(k: State, k': State, t: Tid) {
    t in k.threads && k' == Unblock(k, t) && !k'.panicked
  }

  ghost predicate Scheduling(k: State) {
    k.cur in k.threads && k.idle in k.threads && forall t :: t in k.ready ==> t in k.threads
  }

  ghost predicate Schedules(k: State, k': State) {
    Scheduling(k) && k' == Schedule(k) && !k'.panicked
  }

  ghost predicate Blocks(k: State, k': State, status: Status) {
    Scheduling(k) && k' == BlockCurrent(k, status) && !k'.panicked
  }

  ghost predicate Yields(k: State, k': State) {
    Scheduling(k) && k' == YieldCurrent(k) && !k'.panicked
  }

  ghost predicate Ups(k: State, k': State, s: SemaId) {
    s in k.semas && (forall t :: t in k.semas[s].waiters ==> t in k.threads) && k' == SemaUp(k, s) && !k'.panicked
  }

  ghost predicate Downs(k: State, k': State, s: SemaId) {
    Scheduling(k) && s in k.semas && k' == SemaDown(k, s) && !k'.panicked
  }

  ghost predicate Answers(k: State, k': State, c: nat) {
    && c in k.chans && DiskDone(c) in k.semas && (forall t :: t in k.semas[DiskDone(c)].waiters ==> t in k.threads)
    && k' == DiskInterrupt(k, c) && !k'.panicked
  }

  /** The ready list is right; the current thread, if it runs, and idle, if it may be needed,
  are on no queue. */
  ghost predicate CanSchedule(k: State) {
    && Scheduling(k) && (forall t :: t in k.ready ==> k.threads[t].status == READY)
    && (k.threads[k.cur].status == RUNNING ==> OffQueues(k, k.cur))
    && (k.ready == [] && k.threads[k.cur].status != RUNNING ==> !Awake(k.threads[k.idle].status) && OffQueues(k, k.idle))
  }

  ghost predicate CanBlock(k: State, status: Status) {
    && OnlyRunning(k, k.cur) && k.idle in k.threads && ReadyExact(k) && !Awake(status) && (k.cur == k.idle ==> status == BLOCKED)
    && (Awake(k.threads[k.idle].status) || k.threads[k.idle].status == BLOCKED)
    && forall s :: s in k.semas ==> k.idle !in k.semas[s].waiters
  }

  ghost predicate CanYield(k: State) {
    && OnlyRunning(k, k.cur) && k.idle in k.threads && ReadyExact(k)
    && forall s :: s in k.semas ==> k.cur !in k.semas[s].waiters
  }

  ghost predicate CanDown(k: State, s: SemaId) {
    && OnlyRunning(k, k.cur) && ReadyExact(k) && WaitersExact(k) && AtDown(k, s) && k.semas[s].value <= 1
    && k.idle in k.threads && k.idle != k.cur && (Awake(k.threads[k.idle].status) || k.threads[k.idle].status == BLOCKED)
    && forall r :: r in k.semas ==> k.idle !in k.semas[r].waiters
  }

  ghost predicate CanAnswer(k: State, c: nat) {
    Shape(k) && c in k.chans && DiskDone(c) in k.semas && (k.chans[c].expecting ==> k.semas[DiskDone(c)].value == 0)
  }

  lemma ScheduleIs(k: State)
    requires CanSchedule(k)
    ensures Scheduling(k) && (k.threads[k.cur].status == RUNNING ==> OffQueues(k, k.cur))
    ensures var k1 := if k.threads[k.cur].status == RUNNING then SetStatus(k, k.cur, READY).(ready := k.ready + [k.cur]) else k;
            && k1.idle in k1.threads && (k1.ready == [] ==> !Awake(k1.threads[k1.idle].status) && OffQueues(k1, k1.idle))
            && (forall t :: t in k1.ready ==> t in k1.threads)
            && Schedule(k) == SwitchIn(k1) && !SwitchIn(k1).panicked == !k.panicked
  {
  }

  lemma BlockIs(k: State, status: Status)
    requires CanBlock(k, status)
    ensures Scheduling(k) && !Awake(status) && CanSchedule(SetStatus(k, k.cur, status))
    ensures !k.panicked ==> Schedulable(SetStatus(k, k.cur, status))
  {
    hide NoDup;
  }

  lemma YieldIs(k: State)
    requires CanYield(k)
    ensures Scheduling(k) && OffQueues(k, k.cur) && CanSchedule(SetStatus(k, k.cur, READY).(ready := k.ready + [k.cur]))
    ensures YieldCurrent(k) == Schedule(SetStatus(k, k.cur, READY).(ready := k.ready + [k.cur]))
    ensures !k.panicked ==> HandsOver(k, YieldCurrent(k), k.ready + [k.cur], READY)
  {
    hide NoDup, SwitchIn, HandsOver;
    if !k.panicked {
      SwitchAfter(k, SetStatus(k, k.cur, READY).(ready := k.ready + [k.cur]), READY);
    }
  }

  /** The first waiter is blocked, and waits nowhere else. */
  lemma UpIs(k: State, s: SemaId)
    requires WaitersExact(k) && ReadyExact(k) && s in k.semas && k.semas[s].value == 0
    ensures forall t :: t in k.semas[s].waiters ==> t in k.threads
    ensures k.semas[s].waiters != [] ==>
              var t := k.semas[s].waiters[0];
              && t in k.threads && k.threads[t].status == BLOCKED
              && OffQueues(SetSema(k, s, k.semas[s].(waiters := k.semas[s].waiters[1..])), t)
  {
    if k.semas[s].waiters != [] {
      var t := k.semas[s].waiters[0];
      assert t in k.semas[s].waiters;
    }
  }

  lemma DownIs(k: State, s: SemaId)
    requires CanDown(k, s)
    ensures Scheduling(k) && s in k.semas && k.semas[s].value <= 1 && OffQueues(k, k.cur) && k.cur !in k.semas[s].waiters
    ensures CanBlock(SetSema(SetPc(k, Retest(s)), s, Sema(k.semas[s].value, k.semas[s].waiters + [k.cur])), BLOCKED)
  {
    hide NoDup;
    assert forall t :: t in k.semas[s].waiters + [k.cur] <==> t in k.semas[s].waiters || t == k.cur;
  }

  lemma AnswerIs(k: State, c: nat)
    requires CanAnswer(k, c)
    ensures c in k.chans && DiskDone(c) in k.semas && (k.chans[c].expecting ==> k.semas[DiskDone(c)].value == 0)
    ensures forall t :: t in k.semas[DiskDone(c)].waiters ==> t in k.threads
    ensures var k1 := k.(chans := k.chans[c := k.chans[c].(expecting := false, ups := k.chans[c].ups + 1)]);
            ReadyExact(k1) && WaitersExact(k1)
  {
    hide Shape;
    ShapeQueues(k, c);
  }

  /** In every state that the invariant allows, the conditions of the steps hold. */
  lemma AlwaysReady(k: State, ow: Owners)
    requires Inv(k, ow)
    ensures (k.cur != k.idle ==> CanBlock(k, WAITING) && CanBlock(k, HANGING)) && CanYield(k)
    ensures k.cur == k.idle ==> CanBlock(k, BLOCKED)
    ensures forall s :: AtDown(k, s) ==> CanDown(k, s)
    ensures var pc := k.threads[k.cur].pc; pc.RelUp? ==> OfLock(pc.l) in k.semas && k.semas[OfLock(pc.l)].value == 0
    ensures forall c :: c in k.chans ==> CanAnswer(k, c)
  {
    hide LockOk, PcOk, DiskOk;
    forall s | s in k.semas ensures k.semas[s].value <= 1 {
      Binary(k, ow, s);
    }
    ReleaseReady(k, ow);
    forall c | c in k.chans ensures k.chans[c].expecting ==> k.semas[DiskDone(c)].value == 0 {
      AnswerReady(k, ow, c);
    }
  }

  lemma Binary(k: State, ow: Owners, s: SemaId)
    requires Inv(k, ow) && s in k.semas
    ensures k.semas[s].value <= 1
  {
    hide PcOk, WaitersExact, ReadyExact, WakesOk;
    match s
    case OfLock(l) => assert LockOk(k, l, ow[l]);
    case DiskDone(c) => assert DiskOk(k, c, ow[Channel(c)]);
  }

  lemma ReleaseReady(k: State, ow: Owners)
    requires Inv(k, ow)
    ensures var pc := k.threads[k.cur].pc; pc.RelUp? ==> OfLock(pc.l) in k.semas && k.semas[OfLock(pc.l)].value == 0
  {
    hide WaitersExact, ReadyExact, WakesOk, DisksOk;
    var pc := k.threads[k.cur].pc;
    if pc.RelUp? {
      assert LockOk(k, pc.l, ow[pc.l]);
      assert Owned(k.cur, k.threads[k.cur], pc.l).Some?;
    }
  }

  lemma AnswerReady(k: State, ow: Owners, c: nat)
    requires Inv(k, ow) && c in k.chans
    ensures DiskDone(c) in k.semas && (k.chans[c].expecting ==> k.semas[DiskDone(c)].value == 0)
  {
    hide PcOk, WaitersExact, ReadyExact, WakesOk, LocksOk;
    assert DiskOk(k, c, ow[Channel(c)]);
  }
}
