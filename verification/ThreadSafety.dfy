/** What every run of the kernel's step system keeps. */
module ThreadSafety {
  import opened Basics
  import opened Threads

  predicate Awake(s: Status) {
    s == READY || s == RUNNING
  }

  // ---------------------------------------------------------------------------
  // The invariant
  // ---------------------------------------------------------------------------

  /** The ready list holds exactly the READY threads, each once. */
  ghost predicate ReadyExact(k: State) {
    && NoDup(k.ready)
    && (forall t :: t in k.ready <==> t in k.threads && k.threads[t].status == READY)
  }

  /** The wait queues hold exactly the threads blocked in sema_down, each once. */
  ghost predicate WaitersExact(k: State) {
    && (forall s :: s in k.semas ==> NoDup(k.semas[s].waiters))
    && (forall s, t :: s in k.semas && t in k.semas[s].waiters ==>
          t in k.threads && k.threads[t].status == BLOCKED && k.threads[t].pc == Retest(s))
    && (forall t :: t in k.threads && k.threads[t].status == BLOCKED && t != k.idle ==>
          var pc := k.threads[t].pc;
          pc.Retest? && pc.s in k.semas && t in k.semas[pc.s].waiters)
  }

  ghost predicate IdsOk(k: State) {
    && (forall l :: l in k.locks <==> OfLock(l) in k.semas)
    && (forall c :: c in k.chans <==> DiskDone(c) in k.semas)
    && (forall c :: c in k.chans ==> Channel(c) in k.locks)
  }

  /** How deep a thread is nested in the lock its next action is about. */
  predicate DepthOk(pc: Pc, held: multiset<LockId>) {
    match pc
    case Run => true
    case AcqTest(_) => true
    case AcqAgain(l) => held[l] > 0
    case RelTest(l) => held[l] > 0
    case RelAgain(l) => held[l] > 1
    case RelHolder(l) => held[l] == 1
    case Down(s) => if s.OfLock? then held[s.l] == 0 else held[Channel(s.c)] > 0
    case Retest(s) => if s.OfLock? then held[s.l] == 0 else held[Channel(s.c)] > 0
    case AcqHolder(l) => held[l] == 0
    case AcqCount(l) => held[l] == 0
    case RelCount(l) => held[l] == 0
    case RelUp(l) => held[l] == 0
  }

  predicate PcOk(th: Thread) {
    DepthOk(th.pc, th.held)
  }

  ghost predicate ThreadsOk(k: State) {
    && (forall t :: t in k.threads ==> PcKnown(k, k.threads[t].pc) && PcOk(k.threads[t]))
    && (forall t :: t in k.threads && (k.threads[t].status == WAITING || k.threads[t].status == HANGING) ==>
          k.threads[t].pc == Run && t != k.idle)
    && (forall t :: t in k.threads && k.threads[t].status == HANGING ==>
          k.threads[t].held == multiset{})
    && k.idle in k.threads
    && k.threads[k.idle].pc == Run && k.threads[k.idle].held == multiset{}
  }

  /** A thread owns lock `l` from the moment sema_down took its semaphore until sema_up
  gives it back; meanwhile it determines what the lock's fields contain. */
  function Fields(t: Tid, pc: Pc, depth: nat, l: LockId): Option<Lock> {
    if depth > 0 then Some(Lock(Some(t), depth))
    else if pc == AcqHolder(l) || pc == RelUp(l) then Some(Lock(None, 0))
    else if pc == AcqCount(l) then Some(Lock(Some(t), 0))
    else if pc == RelCount(l) then Some(Lock(None, 1))
    else None
  }

  function Owned(t: Tid, th: Thread, l: LockId): Option<Lock> {
    Fields(t, th.pc, th.held[l], l)
  }

  ghost predicate LockOk(k: State, l: LockId, owner: Option<Tid>)
    requires l in k.locks && OfLock(l) in k.semas
  {
    && (k.semas[OfLock(l)].value == if owner == None then 1 else 0)
    && (forall t :: t in k.threads && Owned(t, k.threads[t], l).Some? ==> owner == Some(t))
    && match owner
       case None => k.locks[l] == Lock(None, 0)
       case Some(t) => t in k.threads && Owned(t, k.threads[t], l) == Some(k.locks[l])
  }

  predicate Waiting(pc: Pc, c: nat) {
    (pc.Down? || pc.Retest?) && pc.s == DiskDone(c)
  }

  predicate InFlight(th: Thread, c: nat) {
    Waiting(th.pc, c)
  }

  function Bit(b: bool): nat {
    if b then 1 else 0
  }

  ghost predicate DiskOk(k: State, c: nat, owner: Option<Tid>)
    requires c in k.chans && DiskDone(c) in k.semas
  {
    var Chan(expecting, issued, ups, downs) := k.chans[c];
    var value := k.semas[DiskDone(c)].value;
    && issued == ups + Bit(expecting)
    && ups == downs + value
    && (value + Bit(expecting) ==
        if owner.Some? && owner.value in k.threads && InFlight(k.threads[owner.value], c) then 1 else 0)
  }

  ghost predicate WakeOk(k: State, s: SemaId)
    requires s in k.semas
  {
    k.semas[s].value > 0 && k.semas[s].waiters != [] ==>
      exists t :: t in k.threads && k.threads[t].pc == Retest(s) && Awake(k.threads[t].status)
  }

  type Owners = map<LockId, Option<Tid>>

  ghost predicate LocksOk(k: State, ow: Owners)
    requires IdsOk(k)
  {
    forall l :: l in k.locks ==> l in ow && LockOk(k, l, ow[l])
  }

  ghost predicate DisksOk(k: State, ow: Owners)
    requires IdsOk(k)
  {
    forall c :: c in k.chans ==> Channel(c) in ow && DiskOk(k, c, ow[Channel(c)])
  }

  ghost predicate WakesOk(k: State) {
    forall s :: s in k.semas ==> WakeOk(k, s)
  }

  /** Everything but who is running; it also holds in the middle of schedule. */
  ghost predicate Core(k: State, ow: Owners) {
    && !k.panicked && IdsOk(k)
    && ReadyExact(k) && WaitersExact(k) && ThreadsOk(k)
    && LocksOk(k, ow) && DisksOk(k, ow) && WakesOk(k)
  }

  ghost predicate OnlyRunning(k: State, t: Tid) {
    && t in k.threads && k.threads[t].status == RUNNING
    && forall u :: u in k.threads && k.threads[u].status == RUNNING ==> u == t
  }

  ghost predicate NoneRunning(k: State) {
    forall u :: u in k.threads ==> k.threads[u].status != RUNNING
  }

  ghost predicate Inv(k: State, ow: Owners) {
    Core(k, ow) && OnlyRunning(k, k.cur)
  }

  // ---------------------------------------------------------------------------
  // Scheduling
  // ---------------------------------------------------------------------------

  /** Only statuses changed: between READY and RUNNING, or of a thread outside the
  modelled functions; the idle thread may also be blocked. */
  ghost predicate OnlyScheduled(k: State, k': State) {
    && k' == k.(threads := k'.threads, cur := k'.cur, ready := k'.ready)
    && k'.threads.Keys == k.threads.Keys
    && (forall t :: t in k.threads ==>
          k'.threads[t] == k.threads[t].(status := k'.threads[t].status))
    && (forall t :: t in k.threads && t != k.idle ==>
          k'.threads[t].status == k.threads[t].status
          || (Awake(k.threads[t].status) && Awake(k'.threads[t].status))
          || (&& k.threads[t].pc == Run
              && k.threads[t].status != BLOCKED && k'.threads[t].status != BLOCKED
              && (k'.threads[t].status == HANGING ==> k.threads[t].held == multiset{})))
    && k.idle in k.threads && (Awake(k'.threads[k.idle].status) || k'.threads[k.idle].status == BLOCKED)
  }

  /** No thread but `t` changed its place or its holdings. */
  ghost predicate PcMoved(k: State, k': State, t: Tid) {
    && k'.threads.Keys == k.threads.Keys
    && (forall u :: u in k.threads && u != t ==>
          k'.threads[u].pc == k.threads[u].pc && k'.threads[u].held == k.threads[u].held)
    && k'.semas.Keys == k.semas.Keys && k'.locks.Keys == k.locks.Keys && k'.chans.Keys == k.chans.Keys
    && t in k.threads
  }

  /** Nothing LockOk looks at changed for lock `l`. */
  ghost predicate LockSame(k: State, k': State, t: Tid, l: LockId)
    requires PcMoved(k, k', t) && IdsOk(k) && IdsOk(k') && l in k.locks
  {
    && k'.locks[l] == k.locks[l]
    && k'.semas[OfLock(l)].value == k.semas[OfLock(l)].value
    && Owned(t, k'.threads[t], l) == Owned(t, k.threads[t], l)
  }

  lemma LockFrame(k: State, k': State, t: Tid, l: LockId, owner: Option<Tid>)
    requires IdsOk(k) && IdsOk(k') && PcMoved(k, k', t) && l in k.locks && LockSame(k, k', t, l)
    requires LockOk(k, l, owner)
    ensures LockOk(k', l, owner)
  {
    hide Fields, IdsOk;
  }

  /** A step of `t` that leaves every lock but `x` alone. */
  lemma LocksFrame(k: State, k': State, t: Tid, x: Option<LockId>, ow: Owners, ow': Owners)
    requires IdsOk(k) && IdsOk(k') && PcMoved(k, k', t) && LocksOk(k, ow)
    requires x.Some? ==> x.value in k.locks && x.value in ow' && LockOk(k', x.value, ow'[x.value])
    requires forall l :: l in k.locks && Some(l) != x ==> l in ow' && ow'[l] == ow[l] && LockSame(k, k', t, l)
    ensures LocksOk(k', ow')
  {
    hide LockOk, Owned, LockSame;
    forall l | l in k'.locks ensures l in ow' && LockOk(k', l, ow'[l]) {
      if Some(l) != x {
        assert LockOk(k, l, ow[l]);
        LockFrame(k, k', t, l, ow[l]);
      }
    }
  }

  /** Nothing DiskOk looks at changed for channel `c`; the owner of its lock may have
  changed between nobody and `t`. */
  ghost predicate DiskSame(k: State, k': State, t: Tid, c: nat, owner: Option<Tid>, owner': Option<Tid>)
    requires PcMoved(k, k', t) && IdsOk(k) && IdsOk(k') && c in k.chans
  {
    && k'.chans[c] == k.chans[c]
    && k'.semas[DiskDone(c)].value == k.semas[DiskDone(c)].value
    && InFlight(k'.threads[t], c) == InFlight(k.threads[t], c)
    && (owner == owner' || (!InFlight(k.threads[t], c) && (owner == None || owner == Some(t))
                            && (owner' == None || owner' == Some(t))))
  }

  /** A step of `t` that leaves every channel but `x` alone. */
  lemma DisksFrame(k: State, k': State, t: Tid, x: Option<nat>, ow: Owners, ow': Owners)
    requires IdsOk(k) && IdsOk(k') && PcMoved(k, k', t) && DisksOk(k, ow)
    requires x.Some? ==> x.value in k.chans && Channel(x.value) in ow' && DiskOk(k', x.value, ow'[Channel(x.value)])
    requires forall c :: c in k.chans && Some(c) != x ==>
               Channel(c) in ow' && DiskSame(k, k', t, c, ow[Channel(c)], ow'[Channel(c)])
    ensures DisksOk(k', ow')
  {
    forall c | c in k'.chans ensures Channel(c) in ow' && DiskOk(k', c, ow'[Channel(c)]) {
      if Some(c) != x {
        assert DiskOk(k, c, ow[Channel(c)]);
        assert DiskSame(k, k', t, c, ow[Channel(c)], ow'[Channel(c)]);
      }
    }
  }

  lemma WakesKept(k: State, k': State)
    requires WakesOk(k) && OnlyScheduled(k, k') && k.threads[k.idle].pc == Run
    ensures WakesOk(k')
  {
    forall s | s in k.semas ensures WakeOk(k', s) {
      assert WakeOk(k, s);
      if k.semas[s].value > 0 && k.semas[s].waiters != [] {
        var t :| t in k.threads && k.threads[t].pc == Retest(s) && Awake(k.threads[t].status);
        assert k'.threads[t].pc == Retest(s);
      }
    }
  }

  lemma WaitersKept(k: State, k': State)
    requires WaitersExact(k) && OnlyScheduled(k, k') && k.threads[k.idle].pc == Run
    ensures WaitersExact(k')
  {
  }

  lemma ThreadsKept(k: State, k': State)
    requires ThreadsOk(k) && OnlyScheduled(k, k')
    ensures ThreadsOk(k')
  {
    forall t | t in k.threads ensures PcKnown(k', k'.threads[t].pc) && PcOk(k'.threads[t]) {
      assert PcKnown(k, k.threads[t].pc) && PcOk(k.threads[t]);
    }
  }

  lemma LocksKept(k: State, k': State, ow: Owners)
    requires IdsOk(k) && LocksOk(k, ow) && OnlyScheduled(k, k')
    ensures LocksOk(k', ow)
  {
    LocksFrame(k, k', k.idle, None, ow, ow);
  }

  lemma DisksKept(k: State, k': State, ow: Owners)
    requires IdsOk(k) && DisksOk(k, ow) && OnlyScheduled(k, k')
    ensures DisksOk(k', ow)
  {
    DisksFrame(k, k', k.idle, None, ow, ow);
  }

  lemma OnlyScheduledKeeps(k: State, k': State, ow: Owners)
    requires Core(k, ow) && OnlyScheduled(k, k') && ReadyExact(k')
    ensures Core(k', ow)
  {
    LocksKept(k, k', ow);
    DisksKept(k, k', ow);
    WakesKept(k, k');
    WaitersKept(k, k');
    ThreadsKept(k, k');
  }

  /** schedule always finds a thread: if the ready list is empty, idle is blocked. */
  lemma SwitchShape(k: State)
    requires !k.panicked && ReadyExact(k) && NoneRunning(k) && k.idle in k.threads
    requires Awake(k.threads[k.idle].status) || k.threads[k.idle].status == BLOCKED
    ensures var k' := SwitchIn(k); ReadyExact(k') && OnlyRunning(k', k'.cur) && OnlyScheduled(k, k')
  {
    var k1 := if k.ready == [] then Unblock(k, k.idle) else k;
    if k.ready == [] {
      IdleReady(k);
    }
    RunFirst(k1);
    hide ReadyExact, OnlyRunning, NoDup;
    var first := k1.ready[0];
    assert SwitchIn(k) == SetStatus(k1, first, RUNNING).(cur := first, ready := k1.ready[1..]);
  }

  lemma IdleReady(k: State)
    requires !k.panicked && ReadyExact(k) && NoneRunning(k) && k.idle in k.threads && k.ready == []
    requires Awake(k.threads[k.idle].status) || k.threads[k.idle].status == BLOCKED
    ensures var k1 := Unblock(k, k.idle);
            && k1 == SetStatus(k, k.idle, READY).(ready := [k.idle])
            && k.threads[k.idle].status == BLOCKED && ReadyExact(k1) && NoneRunning(k1)
  {
    assert k.idle !in k.ready;
  }

  lemma RunFirst(k: State)
    requires ReadyExact(k) && NoneRunning(k) && k.ready != []
    ensures var r := k.ready;
            && r[0] in k.threads && k.threads[r[0]].status == READY
            && var k' := SetStatus(k, r[0], RUNNING).(cur := r[0], ready := r[1..]);
               ReadyExact(k') && OnlyRunning(k', r[0])
  {
    var r := k.ready;
    assert r == [r[0]] + r[1..];
    assert forall t :: t in r <==> t == r[0] || t in r[1..];
    assert r[0] !in r[1..];
  }

  lemma SwitchInOk(k: State, ow: Owners)
    requires Core(k, ow) && NoneRunning(k)
    ensures Inv(SwitchIn(k), ow)
  {
    SwitchShape(k);
    OnlyScheduledKeeps(k, SwitchIn(k), ow);
  }

  lemma ScheduleOk(k: State, ow: Owners)
    requires Inv(k, ow)
    ensures Inv(Schedule(k), ow) && Inv(YieldCurrent(k), ow)
  {
    hide LocksOk, DisksOk, WaitersExact, LockOk, PcOk, PcKnown, Unblock, SwitchIn, IdsOk;
    var k1 := SetStatus(k, k.cur, READY).(ready := k.ready + [k.cur]);
    OnlyScheduledKeeps(k, k1, ow);
    SwitchInOk(k1, ow);
  }

  lemma BlockShape(k: State, s: Status)
    requires ReadyExact(k) && OnlyRunning(k, k.cur) && k.threads[k.cur].pc == Run
    requires k.idle in k.threads && k.threads[k.idle].pc == Run
    requires Awake(k.threads[k.idle].status) || k.threads[k.idle].status == BLOCKED
    requires if k.cur == k.idle then s == BLOCKED
             else s == WAITING || (s == HANGING && k.threads[k.cur].held == multiset{})
    ensures var k' := SetStatus(k, k.cur, s); OnlyScheduled(k, k') && ReadyExact(k') && NoneRunning(k')
  {
  }

  lemma BlockOk(k: State, ow: Owners, s: Status)
    requires Inv(k, ow) && k.threads[k.cur].pc == Run
    requires if k.cur == k.idle then s == BLOCKED
             else s == WAITING || (s == HANGING && k.threads[k.cur].held == multiset{})
    ensures Inv(BlockCurrent(k, s), ow)
  {
    var k1 := SetStatus(k, k.cur, s);
    BlockShape(k, s);
    OnlyScheduledKeeps(k, k1, ow);
    SwitchInOk(k1, ow);
  }

  lemma WakeUpShape(k: State, t: Tid)
    requires ReadyExact(k) && OnlyRunning(k, k.cur) && t in k.threads && k.threads[t].status == WAITING
    requires t != k.idle && k.threads[t].pc == Run && k.idle in k.threads
    requires Awake(k.threads[k.idle].status) || k.threads[k.idle].status == BLOCKED
    ensures var k' := Unblock(k, t); OnlyScheduled(k, k') && ReadyExact(k') && OnlyRunning(k', k.cur)
  {
  }

  lemma WakeUpOk(k: State, ow: Owners, t: Tid)
    requires Inv(k, ow) && t in k.threads && k.threads[t].status == WAITING
    ensures Inv(Unblock(k, t), ow)
  {
    WakeUpShape(k, t);
    OnlyScheduledKeeps(k, Unblock(k, t), ow);
  }

  // ---------------------------------------------------------------------------
  // Threads come and go
  // ---------------------------------------------------------------------------

  predicate Fresh(th: Thread) {
    th.pc == Run && th.held == multiset{}
  }

  /** `k'` has the threads of `k` and perhaps `t`, which does not use any lock. */
  ghost predicate OneMore(k: State, k': State, t: Tid) {
    && k' == k.(threads := k'.threads, cur := k'.cur, ready := k'.ready)
    && t !in k.threads && k'.threads.Keys == k.threads.Keys + {t}
    && (forall u :: u in k.threads ==> k'.threads[u] == k.threads[u])
    && Fresh(k'.threads[t]) && k'.threads[t].status != BLOCKED
    && k.idle in k.threads
  }

  lemma CreateLocks(k: State, k': State, t: Tid, ow: Owners)
    requires IdsOk(k) && OneMore(k, k', t)
    requires LocksOk(k, ow) && DisksOk(k, ow)
    ensures LocksOk(k', ow) && DisksOk(k', ow)
  {
    hide LockOk, DiskOk;
    forall l | l in k.locks ensures LockOk(k', l, ow[l]) {
      assert LockOk(k, l, ow[l]);
      CreateLock(k, k', t, l, ow[l]);
    }
    forall c | c in k.chans ensures DiskOk(k', c, ow[Channel(c)]) {
      assert DiskOk(k, c, ow[Channel(c)]);
      CreateDisk(k, k', t, c, ow[Channel(c)]);
    }
  }

  lemma CreateLock(k: State, k': State, t: Tid, l: LockId, owner: Option<Tid>)
    requires OneMore(k, k', t) && l in k.locks && OfLock(l) in k.semas && LockOk(k, l, owner)
    ensures LockOk(k', l, owner)
  {
  }

  lemma CreateDisk(k: State, k': State, t: Tid, c: nat, owner: Option<Tid>)
    requires OneMore(k, k', t) && c in k.chans && DiskDone(c) in k.semas && DiskOk(k, c, owner)
    ensures DiskOk(k', c, owner)
  {
  }

  lemma ReapLocks(k: State, k': State, t: Tid, ow: Owners)
    requires IdsOk(k) && OneMore(k, k', t)
    requires LocksOk(k', ow) && DisksOk(k', ow)
    ensures LocksOk(k, ow) && DisksOk(k, ow)
  {
    hide LockOk, DiskOk;
    forall l | l in k.locks ensures LockOk(k, l, ow[l]) {
      assert LockOk(k', l, ow[l]);
      ReapLock(k, k', t, l, ow[l]);
    }
    forall c | c in k.chans ensures DiskOk(k, c, ow[Channel(c)]) {
      assert DiskOk(k', c, ow[Channel(c)]);
      ReapDisk(k, k', t, c, ow[Channel(c)]);
    }
  }

  lemma ReapLock(k: State, k': State, t: Tid, l: LockId, owner: Option<Tid>)
    requires OneMore(k, k', t) && l in k.locks && OfLock(l) in k.semas && LockOk(k', l, owner)
    ensures LockOk(k, l, owner)
  {
  }

  lemma ReapDisk(k: State, k': State, t: Tid, c: nat, owner: Option<Tid>)
    requires OneMore(k, k', t) && c in k.chans && DiskDone(c) in k.semas && DiskOk(k', c, owner)
    ensures DiskOk(k, c, owner)
  {
  }

  lemma CreateWakes(k: State, k': State, t: Tid)
    requires OneMore(k, k', t)
    ensures WakesOk(k) <==> WakesOk(k')
  {
    forall s | s in k.semas ensures WakeOk(k, s) <==> WakeOk(k', s) {
      if u :| u in k.threads && k.threads[u].pc == Retest(s) && Awake(k.threads[u].status) {
        assert k'.threads[u] == k.threads[u];
      }
    }
  }

  lemma CreateWaiters(k: State, k': State, t: Tid)
    requires OneMore(k, k', t) && WaitersExact(k)
    ensures WaitersExact(k')
  {
  }

  lemma CreateThreads(k: State, k': State, t: Tid)
    requires OneMore(k, k', t) && k'.threads[t].status == READY && ThreadsOk(k)
    ensures ThreadsOk(k')
  {
    forall u | u in k'.threads ensures PcKnown(k', k'.threads[u].pc) && PcOk(k'.threads[u]) {
      assert u != t ==> PcKnown(k, k.threads[u].pc) && PcOk(k.threads[u]);
    }
  }

  lemma ReapWaiters(k: State, k': State, t: Tid)
    requires OneMore(k, k', t) && WaitersExact(k')
    ensures WaitersExact(k)
  {
    hide NoDup;
  }

  lemma ReapThreads(k: State, k': State, t: Tid)
    requires OneMore(k, k', t)
    requires WaitersExact(k') && ThreadsOk(k')
    ensures WaitersExact(k) && ThreadsOk(k)
  {
    ReapWaiters(k, k', t);
    hide WaitersExact, DepthOk;
    forall u | u in k.threads ensures PcKnown(k, k.threads[u].pc) && PcOk(k.threads[u]) {
      assert PcKnown(k', k'.threads[u].pc) && PcOk(k'.threads[u]);
    }
  }

  lemma CreateOk(k: State, ow: Owners, t: Tid)
    requires Inv(k, ow) && Enabled(k, Create(t))
    ensures Inv(Apply(k, Create(t)), ow)
  {
    hide Core, Enabled, Apply, LocksOk, DisksOk, WakesOk, WaitersExact, ReadyExact, ThreadsOk, OneMore;
    CoreParts(k, ow);
    var k' := Apply(k, Create(t));
    CreateIs(k, t);
    CreateLocks(k, k', t, ow);
    CreateWaiters(k, k', t);
    CreateThreads(k, k', t);
    CreateWakes(k, k', t);
    CoreWhole(k', ow);
  }

  lemma CoreParts(k: State, ow: Owners)
    requires Core(k, ow)
    ensures !k.panicked && IdsOk(k) && ReadyExact(k) && WaitersExact(k) && ThreadsOk(k)
    ensures LocksOk(k, ow) && DisksOk(k, ow) && WakesOk(k)
  {
  }

  lemma CoreWhole(k: State, ow: Owners)
    requires !k.panicked && IdsOk(k) && ReadyExact(k) && WaitersExact(k) && ThreadsOk(k)
    requires LocksOk(k, ow) && DisksOk(k, ow) && WakesOk(k)
    ensures Core(k, ow)
  {
  }

  lemma CreateIs(k: State, t: Tid)
    requires Enabled(k, Create(t)) && ReadyExact(k) && OnlyRunning(k, k.cur)
    ensures var k' := Apply(k, Create(t));
            && OneMore(k, k', t) && k'.threads[t].status == READY && ReadyExact(k') && OnlyRunning(k', k'.cur)
            && !k'.panicked && (IdsOk(k) ==> IdsOk(k'))
  {
  }

  lemma RemoveOk(k: State, ow: Owners, t: Tid)
    requires Core(k, ow) && t in k.threads && t != k.idle
    requires Fresh(k.threads[t]) && k.threads[t].status != BLOCKED
    ensures Core(k.(threads := k.threads - {t}, ready := Without<Tid>(k.ready, t)), ow)
  {
    hide Core, LocksOk, DisksOk, WakesOk, WaitersExact, ReadyExact, ThreadsOk, OneMore;
    CoreParts(k, ow);
    IdleKnown(k);
    var k' := k.(threads := k.threads - {t}, ready := Without<Tid>(k.ready, t));
    RemoveIs(k, t);
    ReapLocks(k', k, t, ow);
    ReapThreads(k', k, t);
    CreateWakes(k', k, t);
    CoreWhole(k', ow);
  }

  lemma IdleKnown(k: State)
    requires ThreadsOk(k)
    ensures k.idle in k.threads
  {
  }

  lemma RemoveIs(k: State, t: Tid)
    requires ReadyExact(k) && IdsOk(k) && t in k.threads && k.idle in k.threads && t != k.idle
    requires Fresh(k.threads[t]) && k.threads[t].status != BLOCKED
    ensures var k' := k.(threads := k.threads - {t}, ready := Without<Tid>(k.ready, t));
            OneMore(k', k, t) && ReadyExact(k') && IdsOk(k')
  {
    hide NoDup, ReadyExact;
    RemoveReady(k, t);
  }

  lemma RemoveReady(k: State, t: Tid)
    requires ReadyExact(k) && t in k.threads
    ensures ReadyExact(k.(threads := k.threads - {t}, ready := Without<Tid>(k.ready, t)))
  {
    hide NoDup;
  }

  // ---------------------------------------------------------------------------
  // Semaphores
  // ---------------------------------------------------------------------------

  /** `k'` differs from `k` in the current thread's place and holdings, and in fields
  of semaphores, locks and channels other than the wait queues. */
  ghost predicate Moved(k: State, k': State) {
    && OnlyRunning(k, k.cur) && PcMoved(k, k', k.cur)
    && (forall u :: u in k.threads ==> k'.threads[u].status == k.threads[u].status)
    && k'.cur == k.cur && k'.idle == k.idle && k'.ready == k.ready && k'.panicked == k.panicked
    && (forall s :: s in k.semas ==> k'.semas[s].waiters == k.semas[s].waiters)
  }

  lemma MovedQueues(k: State, k': State)
    requires Moved(k, k') && ReadyExact(k) && WaitersExact(k)
    ensures ReadyExact(k') && WaitersExact(k') && OnlyRunning(k', k.cur)
  {
  }

  lemma MovedThreads(k: State, k': State)
    requires Moved(k, k') && ThreadsOk(k)
    requires PcKnown(k', k'.threads[k.cur].pc) && PcOk(k'.threads[k.cur])
    requires k.cur == k.idle ==> Fresh(k'.threads[k.cur])
    ensures ThreadsOk(k')
  {
    forall u | u in k'.threads ensures PcKnown(k', k'.threads[u].pc) && PcOk(k'.threads[u]) {
      assert u != k.cur ==> PcKnown(k, k.threads[u].pc) && PcOk(k.threads[u]);
    }
  }

  /** No wakeup is lost if every semaphore either keeps its value and is not the one
  the current thread was woken for, or has become 0. */
  lemma MovedWakes(k: State, k': State)
    requires Moved(k, k') && WakesOk(k)
    requires forall s :: s in k.semas ==>
               || k'.semas[s].value == 0
               || (k'.semas[s].value == k.semas[s].value && k.threads[k.cur].pc != Retest(s))
    ensures WakesOk(k')
  {
    forall s | s in k'.semas ensures WakeOk(k', s) {
      assert WakeOk(k, s);
      if k'.semas[s].value > 0 && k'.semas[s].waiters != [] {
        var u :| u in k.threads && k.threads[u].pc == Retest(s) && Awake(k.threads[u].status);
        assert k'.threads[u].pc == Retest(s);
      }
    }
  }

  lemma MovedOk(k: State, k': State, ow: Owners, ow': Owners)
    requires Inv(k, ow) && Moved(k, k') && IdsOk(k')
    requires PcKnown(k', k'.threads[k.cur].pc) && PcOk(k'.threads[k.cur])
    requires k.cur == k.idle ==> Fresh(k'.threads[k.cur])
    requires LocksOk(k', ow') && DisksOk(k', ow') && WakesOk(k')
    ensures Inv(k', ow')
  {
    MovedQueues(k, k');
    MovedThreads(k, k');
  }

  // ---------------------------------------------------------------------------
  // Locks
  // ---------------------------------------------------------------------------

  /** Outside the sections that own a lock or wait for the disk or were woken. */
  predicate Outside(pc: Pc) {
    pc.Run? || pc.AcqTest? || pc.AcqAgain? || pc.RelTest? || pc.RelAgain? || pc.RelHolder? || (pc.Down? && pc.s.OfLock?)
  }

  /** Places that make no difference to what a lock's fields contain. */
  predicate NoFields(pc: Pc) {
    !pc.AcqHolder? && !pc.AcqCount? && !pc.RelCount? && !pc.RelUp?
  }

  lemma SameFields(k: State, k': State, ow: Owners)
    requires k.cur in k.threads && IdsOk(k) && IdsOk(k') && LocksOk(k, ow) && PcMoved(k, k', k.cur)
    requires NoFields(k.threads[k.cur].pc) && NoFields(k'.threads[k.cur].pc)
    requires k'.threads[k.cur].held == k.threads[k.cur].held
    requires k'.locks == k.locks && forall l :: l in k.locks ==> k'.semas[OfLock(l)].value == k.semas[OfLock(l)].value
    ensures LocksOk(k', ow)
  {
    LocksFrame(k, k', k.cur, None, ow, ow);
  }

  lemma GoLocks(k: State, ow: Owners, pc: Pc)
    requires k.cur in k.threads && IdsOk(k) && LocksOk(k, ow)
    requires Outside(k.threads[k.cur].pc) && Outside(pc)
    ensures LocksOk(SetPc(k, pc), ow)
  {
    SameFields(k, SetPc(k, pc), ow);
  }

  lemma GoDisks(k: State, ow: Owners, pc: Pc)
    requires k.cur in k.threads && IdsOk(k) && DisksOk(k, ow)
    requires Outside(k.threads[k.cur].pc) && Outside(pc)
    ensures DisksOk(SetPc(k, pc), ow)
  {
    DisksFrame(k, SetPc(k, pc), k.cur, None, ow, ow);
  }

  lemma GoWakes(k: State, pc: Pc)
    requires OnlyRunning(k, k.cur) && WakesOk(k)
    requires Outside(k.threads[k.cur].pc)
    ensures Moved(k, SetPc(k, pc)) && WakesOk(SetPc(k, pc))
  {
    MovedWakes(k, SetPc(k, pc));
  }

  /** Calls, and the two tests: no lock field changes. */
  lemma GoOk(k: State, ow: Owners, pc: Pc)
    requires Inv(k, ow) && k.cur != k.idle
    requires Outside(k.threads[k.cur].pc) && Outside(pc)
    requires PcKnown(k, pc) && PcOk(k.threads[k.cur].(pc := pc))
    ensures Inv(SetPc(k, pc), ow)
  {
    GoLocks(k, ow, pc);
    GoDisks(k, ow, pc);
    GoWakes(k, pc);
    MovedOk(k, SetPc(k, pc), ow, ow);
  }

  /** The owner of `l` goes on as `th`, with the lock fields that belong to it. */
  function OwnerStep(k: State, l: LockId, th: Thread): State
    requires Owned(k.cur, th, l).Some?
  {
    SetThread(SetLock(k, l, Owned(k.cur, th, l).value), k.cur, th)
  }

  predicate StepOf(t: Tid, was: Thread, th: Thread, l: LockId) {
    && Owned(t, was, l).Some? && Owned(t, th, l).Some?
    && th == was.(pc := th.pc, held := was.held[l := th.held[l]])
    && !was.pc.Run? && !was.pc.Down? && !was.pc.Retest? && was.pc.l == l
    && !th.pc.Down? && !th.pc.Retest? && (th.pc.Run? || th.pc.l == l)
  }

  lemma OwnerLock(k: State, l: LockId, th: Thread, owner: Option<Tid>)
    requires k.cur in k.threads && l in k.locks && OfLock(l) in k.semas && LockOk(k, l, owner)
    requires StepOf(k.cur, k.threads[k.cur], th, l)
    ensures owner == Some(k.cur) && LockOk(OwnerStep(k, l, th), l, owner)
  {
  }

  lemma OwnsSame(t: Tid, was: Thread, th: Thread, l: LockId, m: LockId)
    requires StepOf(t, was, th, l) && m != l
    ensures Owned(t, th, m) == Owned(t, was, m)
  {
  }

  lemma OwnerLocks(k: State, ow: Owners, l: LockId, th: Thread)
    requires k.cur in k.threads && IdsOk(k) && LocksOk(k, ow)
    requires l in k.locks && StepOf(k.cur, k.threads[k.cur], th, l)
    ensures IdsOk(OwnerStep(k, l, th)) && LocksOk(OwnerStep(k, l, th), ow)
  {
    hide LockOk, Fields, DepthOk;
    var k' := OwnerStep(k, l, th);
    assert LockOk(k, l, ow[l]);
    OwnerLock(k, l, th, ow[l]);
    forall m | m in k.locks && m != l ensures Owned(k.cur, th, m) == Owned(k.cur, k.threads[k.cur], m) {
      OwnsSame(k.cur, k.threads[k.cur], th, l, m);
    }
    LocksFrame(k, k', k.cur, Some(l), ow, ow);
  }

  lemma OwnerDisks(k: State, ow: Owners, l: LockId, th: Thread)
    requires k.cur in k.threads && IdsOk(k) && DisksOk(k, ow)
    requires l in k.locks && StepOf(k.cur, k.threads[k.cur], th, l)
    ensures DisksOk(OwnerStep(k, l, th), ow)
  {
    DisksFrame(k, OwnerStep(k, l, th), k.cur, None, ow, ow);
  }

  lemma OwnerWakes(k: State, l: LockId, th: Thread)
    requires OnlyRunning(k, k.cur) && WakesOk(k)
    requires l in k.locks && StepOf(k.cur, k.threads[k.cur], th, l)
    ensures Moved(k, OwnerStep(k, l, th)) && WakesOk(OwnerStep(k, l, th))
  {
    MovedWakes(k, OwnerStep(k, l, th));
  }

  /** A step of the owner of `l` on the fields of `l`. */
  lemma OwnerStepOk(k: State, ow: Owners, l: LockId, th: Thread)
    requires Inv(k, ow) && k.cur != k.idle && l in k.locks
    requires StepOf(k.cur, k.threads[k.cur], th, l) && PcOk(th)
    ensures Inv(OwnerStep(k, l, th), ow)
  {
    OwnerLocks(k, ow, l, th);
    OwnerDisks(k, ow, l, th);
    OwnerWakes(k, l, th);
    MovedOk(k, OwnerStep(k, l, th), ow, ow);
  }

  /** Where the owner of a lock goes on after its next action on the lock's fields. */
  function NextThread(th: Thread): Thread
    requires th.pc.AcqAgain? || th.pc.AcqHolder? || th.pc.AcqCount? || th.pc.RelAgain? || th.pc.RelHolder? || th.pc.RelCount?
    requires PcOk(th)
  {
    var l := th.pc.l;
    match th.pc
    case AcqAgain(_) => th.(held := th.held[l := th.held[l] + 1], pc := Run)
    case AcqHolder(_) => th.(pc := AcqCount(l))
    case AcqCount(_) => th.(held := th.held[l := 1], pc := Run)
    case RelAgain(_) => th.(held := th.held[l := th.held[l] - 1], pc := Run)
    case RelHolder(_) => th.(held := th.held[l := 0], pc := RelCount(l))
    case RelCount(_) => th.(pc := RelUp(l))
  }

  /** No ASSERT of lock_acquire or lock_release fires for the owner. */
  lemma LockStepIs(k: State)
    requires k.cur in k.threads
    requires var pc := k.threads[k.cur].pc;
             pc.AcqAgain? || pc.AcqHolder? || pc.AcqCount? || pc.RelAgain? || pc.RelHolder? || pc.RelCount?
    requires var l := k.threads[k.cur].pc.l; l in k.locks && OfLock(l) in k.semas && LockOk(k, l, Some(k.cur))
    requires forall t :: t in k.semas[OfLock(k.threads[k.cur].pc.l)].waiters ==> t in k.threads
    requires PcOk(k.threads[k.cur])
    ensures var th := k.threads[k.cur];
            && StepOf(k.cur, th, NextThread(th), th.pc.l) && PcOk(NextThread(th))
            && LockStep(k, th.pc.l) == OwnerStep(k, th.pc.l, NextThread(th))
  {
    var th := k.threads[k.cur];
    var th' := NextThread(th);
    var l := th.pc.l;
    assert th'.held == th.held[l := th'.held[l]];
  }

  /** The tests of lock_acquire and lock_release are decided by the nesting depth. */
  lemma LockTestIs(k: State, owner: Option<Tid>)
    requires k.cur in k.threads && (k.threads[k.cur].pc.AcqTest? || k.threads[k.cur].pc.RelTest?)
    requires var l := k.threads[k.cur].pc.l; l in k.locks && OfLock(l) in k.semas && LockOk(k, l, owner)
    requires forall t :: t in k.semas[OfLock(k.threads[k.cur].pc.l)].waiters ==> t in k.threads
    requires PcOk(k.threads[k.cur])
    ensures var th := k.threads[k.cur];
            var l := th.pc.l;
            var pc := if th.pc.AcqTest? then (if th.held[l] == 0 then Down(OfLock(l)) else AcqAgain(l))
                      else (if th.held[l] > 1 then RelAgain(l) else RelHolder(l));
            LockStep(k, l) == SetPc(k, pc) && DepthOk(pc, th.held)
  {
    assert owner != Some(k.cur) ==> Owned(k.cur, k.threads[k.cur], k.threads[k.cur].pc.l) == None;
  }

  lemma AtLock(k: State, ow: Owners)
    requires Inv(k, ow)
    requires var pc := k.threads[k.cur].pc; !pc.Run? && !pc.Down? && !pc.Retest?
    ensures var l := k.threads[k.cur].pc.l;
            && k.cur != k.idle && PcOk(k.threads[k.cur])
            && l in k.locks && OfLock(l) in k.semas && l in ow && LockOk(k, l, ow[l])
            && (Owned(k.cur, k.threads[k.cur], l).Some? ==> ow[l] == Some(k.cur))
            && (forall t :: t in k.semas[OfLock(l)].waiters ==> t in k.threads)
  {
    hide WakesOk, ReadyExact, Owned, PcOk, NoDup, InFlight;
    assert PcKnown(k, k.threads[k.cur].pc);
  }

  /** Every action of lock_acquire and lock_release but the two on the semaphore. */
  lemma LockStepOk(k: State, ow: Owners)
    requires Inv(k, ow) && Linked(k)
    requires var pc := k.threads[k.cur].pc; !pc.Run? && !pc.Down? && !pc.Retest? && !pc.RelUp?
    ensures k.threads[k.cur].pc.l in k.locks && Inv(LockStep(k, k.threads[k.cur].pc.l), ow)
  {
    AtLock(k, ow);
    var th := k.threads[k.cur];
    var l := th.pc.l;
    if th.pc.AcqTest? {
      LockTestIs(k, ow[l]);
      GoOk(k, ow, if th.held[l] == 0 then Down(OfLock(l)) else AcqAgain(l));
    } else if th.pc.RelTest? {
      LockTestIs(k, ow[l]);
      GoOk(k, ow, if th.held[l] > 1 then RelAgain(l) else RelHolder(l));
    } else {
      LockStepIs(k);
      OwnerStepOk(k, ow, l, NextThread(th));
    }
  }

  // ---------------------------------------------------------------------------
  // sema_down
  // ---------------------------------------------------------------------------

  ghost predicate AtDown(k: State, s: SemaId) {
    && k.cur in k.threads && s in k.semas
    && (k.threads[k.cur].pc == Down(s) || k.threads[k.cur].pc == Retest(s))
    && PcOk(k.threads[k.cur])
  }

  /** The state in which sema_down leaves the CPU to another thread. */
  function Enqueued(k: State, s: SemaId): State
    requires s in k.semas && k.cur in k.threads
  {
    SetStatus(SetSema(SetPc(k, Retest(s)), s, Sema(0, k.semas[s].waiters + [k.cur])), k.cur, BLOCKED)
  }

  lemma EnqueuedReady(k: State, s: SemaId)
    requires AtDown(k, s) && OnlyRunning(k, k.cur) && ReadyExact(k)
    ensures ReadyExact(Enqueued(k, s)) && NoneRunning(Enqueued(k, s))
  {
  }

  lemma AppendNew(q: seq<Tid>, t: Tid)
    requires NoDup(q) && t !in q
    ensures NoDup(q + [t]) && forall u :: u in q + [t] <==> u in q || u == t
  {
  }

  lemma EnqueuedWaiters(k: State, s: SemaId)
    requires AtDown(k, s) && k.cur != k.idle && OnlyRunning(k, k.cur) && WaitersExact(k)
    ensures k.cur !in k.semas[s].waiters && WaitersExact(Enqueued(k, s))
  {
    hide NoDup;
    AppendNew(k.semas[s].waiters, k.cur);
  }

  lemma EnqueuedThreads(k: State, s: SemaId)
    requires AtDown(k, s) && k.cur != k.idle && ThreadsOk(k)
    ensures ThreadsOk(Enqueued(k, s))
  {
    var k' := Enqueued(k, s);
    forall u | u in k'.threads ensures PcKnown(k', k'.threads[u].pc) && PcOk(k'.threads[u]) {
      assert u != k.cur ==> PcKnown(k, k.threads[u].pc) && PcOk(k.threads[u]);
    }
  }

  lemma EnqueuedLocks(k: State, s: SemaId, ow: Owners)
    requires AtDown(k, s) && k.semas[s].value == 0 && IdsOk(k) && LocksOk(k, ow)
    ensures LocksOk(Enqueued(k, s), ow)
  {
    hide Core, LocksOk, LockOk, PcOk, PcMoved;
    SameFields(k, Enqueued(k, s), ow);
  }

  lemma EnqueuedDisks(k: State, s: SemaId, ow: Owners)
    requires AtDown(k, s) && k.semas[s].value == 0 && IdsOk(k) && DisksOk(k, ow)
    ensures DisksOk(Enqueued(k, s), ow)
  {
    DisksFrame(k, Enqueued(k, s), k.cur, None, ow, ow);
  }

  lemma EnqueuedWakes(k: State, s: SemaId)
    requires AtDown(k, s) && WakesOk(k)
    ensures WakesOk(Enqueued(k, s))
  {
    var k' := Enqueued(k, s);
    forall r | r in k'.semas ensures WakeOk(k', r) {
      assert WakeOk(k, r);
      if k'.semas[r].value > 0 && k'.semas[r].waiters != [] {
        var u :| u in k.threads && k.threads[u].pc == Retest(r) && Awake(k.threads[u].status);
        assert k'.threads[u] == k.threads[u];
      }
    }
  }

  /** sema_down when the semaphore is taken. */
  lemma SemaDownBlocks(k: State, ow: Owners, s: SemaId)
    requires Inv(k, ow) && AtDown(k, s) && k.semas[s].value == 0
    ensures Inv(SemaDown(k, s), ow)
  {
    EnqueuedReady(k, s);
    EnqueuedWaiters(k, s);
    EnqueuedThreads(k, s);
    EnqueuedLocks(k, s, ow);
    EnqueuedDisks(k, s, ow);
    EnqueuedWakes(k, s);
    assert IdsOk(Enqueued(k, s));
    SwitchInOk(Enqueued(k, s), ow);
  }

  /** The state after sema_down took the semaphore of lock `l`. */
  function Taken(k: State, l: LockId): State
    requires OfLock(l) in k.semas && k.cur in k.threads
  {
    SetPc(SetSema(k, OfLock(l), Sema(0, k.semas[OfLock(l)].waiters)), AcqHolder(l))
  }

  lemma TakenLock(k: State, l: LockId, owner: Option<Tid>)
    requires l in k.locks && AtDown(k, OfLock(l)) && LockOk(k, l, owner) && k.semas[OfLock(l)].value != 0
    ensures k.semas[OfLock(l)].value == 1 && owner == None && LockOk(Taken(k, l), l, Some(k.cur))
  {
  }

  lemma TakenOwnsSame(t: Tid, th: Thread, l: LockId, m: LockId)
    requires (th.pc == Down(OfLock(l)) || th.pc == Retest(OfLock(l))) && m != l
    ensures Owned(t, th.(pc := AcqHolder(l)), m) == Owned(t, th, m)
  {
  }

  lemma TakenLocks(k: State, l: LockId, ow: Owners)
    requires IdsOk(k) && LocksOk(k, ow) && AtDown(k, OfLock(l)) && k.semas[OfLock(l)].value != 0
    ensures k.semas[OfLock(l)].value == 1 && ow[l] == None
    ensures LocksOk(Taken(k, l), ow[l := Some(k.cur)])
  {
    hide LockOk, Fields, DepthOk;
    var k' := Taken(k, l);
    assert LockOk(k, l, ow[l]);
    TakenLock(k, l, ow[l]);
    forall m | m in k.locks && m != l ensures LockSame(k, k', k.cur, m) {
      TakenOwnsSame(k.cur, k.threads[k.cur], l, m);
    }
    LocksFrame(k, k', k.cur, Some(l), ow, ow[l := Some(k.cur)]);
  }

  lemma TakenDisks(k: State, l: LockId, ow: Owners)
    requires IdsOk(k) && DisksOk(k, ow) && AtDown(k, OfLock(l)) && l in ow && ow[l] == None
    ensures DisksOk(Taken(k, l), ow[l := Some(k.cur)])
  {
    DisksFrame(k, Taken(k, l), k.cur, None, ow, ow[l := Some(k.cur)]);
  }

  lemma TakenWakes(k: State, l: LockId)
    requires OnlyRunning(k, k.cur) && WakesOk(k) && AtDown(k, OfLock(l))
    ensures Moved(k, Taken(k, l)) && WakesOk(Taken(k, l))
  {
    MovedWakes(k, Taken(k, l));
  }

  /** sema_down when a lock's semaphore is free: the caller owns the lock. */
  lemma SemaDownTakes(k: State, ow: Owners, l: LockId)
    requires Inv(k, ow) && AtDown(k, OfLock(l)) && k.semas[OfLock(l)].value != 0
    ensures Inv(SemaDown(k, OfLock(l)), ow[l := Some(k.cur)])
  {
    TakenLocks(k, l, ow);
    TakenDisks(k, l, ow);
    TakenWakes(k, l);
    assert l in k.locks;
    assert SemaDown(k, OfLock(l)) == Taken(k, l);
    assert IdsOk(Taken(k, l));
    MovedOk(k, Taken(k, l), ow, ow[l := Some(k.cur)]);
  }

  // ---------------------------------------------------------------------------
  // sema_up
  // ---------------------------------------------------------------------------

  /** What sema_up changes. */
  ghost predicate Upped(k: State, k': State, s: SemaId) {
    && s in k.semas && k.semas[s].value == 0 && k'.semas.Keys == k.semas.Keys && k'.semas[s].value == 1
    && (forall r :: r in k.semas && r != s ==> k'.semas[r] == k.semas[r])
    && k' == k.(threads := k'.threads, ready := k'.ready, semas := k'.semas)
    && k'.threads.Keys == k.threads.Keys
    && (forall t :: t in k.threads ==>
          k'.threads[t].pc == k.threads[t].pc && k'.threads[t].held == k.threads[t].held)
    && (forall t :: t in k.threads ==>
          || k'.threads[t].status == k.threads[t].status
          || (k.threads[t].status == BLOCKED && k'.threads[t].status == READY))
  }

  lemma UpReady(k: State, s: SemaId)
    requires s in k.semas && k.semas[s].value == 0
    requires ReadyExact(k) && WaitersExact(k) && OnlyRunning(k, k.cur)
    ensures var k' := SemaUp(k, s); Upped(k, k', s) && ReadyExact(k') && OnlyRunning(k', k.cur)
    ensures var k' := SemaUp(k, s);
            var q := k.semas[s].waiters;
            if q == [] then k'.semas[s].waiters == [] && k'.threads == k.threads
            else k'.semas[s].waiters == q[1..] && q[0] in k.threads
                 && k'.threads == k.threads[q[0] := k.threads[q[0]].(status := READY)]
  {
    FirstWaiter(k, s);
    hide ReadyExact, WaitersExact, NoDup, Upped, OnlyRunning;
    var q := k.semas[s].waiters;
    if q == [] {
      UppedAlone(k, s);
    } else {
      PushReady(k, q[0]);
      UppedFirst(k, s);
    }
  }

  lemma FirstWaiter(k: State, s: SemaId)
    requires s in k.semas && WaitersExact(k)
    ensures (forall t :: t in k.semas[s].waiters ==> t in k.threads)
    ensures var q := k.semas[s].waiters; q != [] ==> k.threads[q[0]].status == BLOCKED
  {
    var q := k.semas[s].waiters;
    assert q != [] ==> q[0] in q;
  }

  lemma UppedAlone(k: State, s: SemaId)
    requires s in k.semas && k.semas[s].value == 0 && k.semas[s].waiters == [] && ReadyExact(k) && OnlyRunning(k, k.cur)
    ensures var k' := SemaUp(k, s);
            Upped(k, k', s) && ReadyExact(k') && OnlyRunning(k', k.cur) && k'.semas[s].waiters == [] && k'.threads == k.threads
  {
  }

  lemma UppedFirst(k: State, s: SemaId)
    requires s in k.semas && k.semas[s].value == 0 && (forall t :: t in k.semas[s].waiters ==> t in k.threads)
    requires var q := k.semas[s].waiters; q != [] && q[0] in k.threads && k.threads[q[0]].status == BLOCKED && q[0] !in k.ready
    requires var q := k.semas[s].waiters; var k1 := SetStatus(k, q[0], READY).(ready := [q[0]] + k.ready);
             ReadyExact(k1) && OnlyRunning(k1, k.cur)
    ensures var k' := SemaUp(k, s); var q := k.semas[s].waiters;
            && Upped(k, k', s) && ReadyExact(k') && OnlyRunning(k', k.cur) && k'.semas[s].waiters == q[1..]
            && k'.threads == k.threads[q[0] := k.threads[q[0]].(status := READY)]
  {
    hide NoDup;
  }

  lemma PushReady(k: State, w: Tid)
    requires ReadyExact(k) && OnlyRunning(k, k.cur) && w in k.threads && k.threads[w].status == BLOCKED
    ensures w !in k.ready
    ensures var k' := SetStatus(k, w, READY).(ready := [w] + k.ready); ReadyExact(k') && OnlyRunning(k', k.cur)
  {
  }

  lemma UpWaiters(k: State, k': State, s: SemaId)
    requires WaitersExact(k) && Upped(k, k', s) && k.idle in k.threads && k.threads[k.idle].pc == Run
    requires var q := k.semas[s].waiters;
             if q == [] then k'.semas[s].waiters == [] && k'.threads == k.threads
             else k'.semas[s].waiters == q[1..] && q[0] in k.threads
                  && k'.threads == k.threads[q[0] := k.threads[q[0]].(status := READY)]
    ensures WaitersExact(k')
  {
    var q := k.semas[s].waiters;
    if q != [] {
      var w := q[0];
      assert forall t :: t in q <==> t == w || t in q[1..];
      assert w in q && k.threads[w].pc == Retest(s);
      forall r | r in k'.semas ensures NoDup(k'.semas[r].waiters) && w !in k'.semas[r].waiters {
        assert NoDup(k.semas[r].waiters);
      }
      forall r, t | r in k'.semas && t in k'.semas[r].waiters
        ensures t in k'.threads && k'.threads[t].status == BLOCKED && k'.threads[t].pc == Retest(r)
      {
        assert t in k.semas[r].waiters && t != w;
      }
    }
  }

  lemma UpThreads(k: State, k': State, s: SemaId)
    requires ThreadsOk(k) && Upped(k, k', s)
    ensures ThreadsOk(k')
  {
    forall t | t in k'.threads ensures PcKnown(k', k'.threads[t].pc) && PcOk(k'.threads[t]) {
      assert PcKnown(k, k.threads[t].pc) && PcOk(k.threads[t]);
    }
  }

  /** If threads still wait after sema_up, the one it popped is on its way. */
  lemma UpWakes(k: State, s: SemaId)
    requires s in k.semas && k.semas[s].value == 0
    requires ReadyExact(k) && WaitersExact(k) && WakesOk(k) && OnlyRunning(k, k.cur)
    ensures WakesOk(SemaUp(k, s))
  {
    var k' := SemaUp(k, s);
    UpReady(k, s);
    forall r | r in k'.semas ensures WakeOk(k', r) {
      assert WakeOk(k, r);
      if r == s {
        if k.semas[s].waiters != [] {
          var w := k.semas[s].waiters[0];
          assert w in k.semas[s].waiters;
          assert k'.threads[w].pc == Retest(s) && k'.threads[w].status == READY;
        }
      } else if k'.semas[r].value > 0 && k'.semas[r].waiters != [] {
        var u :| u in k.threads && k.threads[u].pc == Retest(r) && Awake(k.threads[u].status);
        assert k'.threads[u].pc == Retest(r);
      }
    }
  }

  /** All of the invariant that does not say who owns what. */
  ghost predicate Shape(k: State) {
    !k.panicked && IdsOk(k) && ReadyExact(k) && WaitersExact(k) && ThreadsOk(k) && WakesOk(k) && OnlyRunning(k, k.cur)
  }

  lemma UpShape(k: State, s: SemaId)
    requires Shape(k) && s in k.semas && k.semas[s].value == 0
    ensures Shape(SemaUp(k, s)) && Upped(k, SemaUp(k, s), s)
  {
    var k' := SemaUp(k, s);
    UpReady(k, s);
    UpWaiters(k, k', s);
    UpThreads(k, k', s);
    UpWakes(k, s);
    UppedIds(k, k', s);
  }

  lemma UppedIds(k: State, k': State, s: SemaId)
    requires IdsOk(k) && Upped(k, k', s)
    ensures IdsOk(k')
  {
  }

  lemma RunIs(k: State)
    requires OnlyRunning(k, k.cur) && k.threads[k.cur].pc.RelUp? && k.cur != k.idle
    ensures var k1 := SetPc(k, Run);
            && Moved(k, k1) && PcKnown(k1, k1.threads[k.cur].pc) && PcOk(k1.threads[k.cur])
            && k1.semas == k.semas && (IdsOk(k) ==> IdsOk(k1))
  {
  }

  /** The state before lock_release's sema_up, seen from outside that section. */
  lemma BeforeRelUp(k: State, ow: Owners)
    requires Inv(k, ow) && k.threads[k.cur].pc.RelUp? && k.cur != k.idle
    ensures Shape(SetPc(k, Run))
  {
    hide Core, LocksOk, DisksOk, WakesOk, WaitersExact, ReadyExact, ThreadsOk, Moved;
    CoreParts(k, ow);
    var k1 := SetPc(k, Run);
    RunIs(k);
    MovedQueues(k, k1);
    MovedThreads(k, k1);
    MovedWakes(k, k1);
  }

  lemma RelUpStep(k: State, l: LockId)
    requires k.cur in k.threads && l in k.locks && OfLock(l) in k.semas && k.threads[k.cur].pc == RelUp(l)
    requires k.threads[k.cur].held[l] == 0 && LockOk(k, l, Some(k.cur))
    requires forall t :: t in k.semas[OfLock(l)].waiters ==> t in k.threads
    ensures LockStep(k, l) == SemaUp(SetPc(k, Run), OfLock(l)) && k.semas[OfLock(l)].value == 0
  {
  }

  lemma RelUpLock(k: State, k': State, l: LockId, owner: Option<Tid>)
    requires k.cur in k.threads && l in k.locks && OfLock(l) in k.semas && LockOk(k, l, owner)
    requires k.threads[k.cur].pc == RelUp(l) && k.threads[k.cur].held[l] == 0
    requires Upped(SetPc(k, Run), k', OfLock(l))
    ensures owner == Some(k.cur) && LockOk(k', l, None)
  {
    assert Owned(k.cur, k.threads[k.cur], l).Some?;
  }

  lemma RunOwnsSame(t: Tid, th: Thread, m: LockId)
    requires th.pc.RelUp? && th.pc.l != m
    ensures Owned(t, th.(pc := Run), m) == Owned(t, th, m)
  {
  }

  lemma RelUpLocks(k: State, k': State, ow: Owners, l: LockId)
    requires k.cur in k.threads && IdsOk(k) && IdsOk(k') && LocksOk(k, ow)
    requires l in k.locks && k.threads[k.cur].pc == RelUp(l) && k.threads[k.cur].held[l] == 0
    requires Upped(SetPc(k, Run), k', OfLock(l))
    ensures ow[l] == Some(k.cur) && LocksOk(k', ow[l := None])
  {
    hide LockOk, Fields, DepthOk;
    RelUpLock(k, k', l, ow[l]);
    forall m | m in k.locks && m != l ensures LockSame(k, k', k.cur, m) {
      RunOwnsSame(k.cur, k.threads[k.cur], m);
    }
    LocksFrame(k, k', k.cur, Some(l), ow, ow[l := None]);
  }

  lemma ChannelsOwned(k: State, ow: Owners)
    requires IdsOk(k) && DisksOk(k, ow)
    ensures forall c :: c in k.chans ==> Channel(c) in ow
  {
    hide DiskOk;
  }

  lemma RunNotInFlight(a: Thread, b: Thread)
    requires a.pc.RelUp? && b.pc == Run
    ensures forall c :: !InFlight(a, c) && !InFlight(b, c)
  {
  }

  lemma RelUpDisks(k: State, k': State, ow: Owners, l: LockId)
    requires k.cur in k.threads && IdsOk(k) && IdsOk(k') && DisksOk(k, ow)
    requires k.threads[k.cur].pc == RelUp(l) && l in ow && ow[l] == Some(k.cur)
    requires Upped(SetPc(k, Run), k', OfLock(l))
    ensures DisksOk(k', ow[l := None])
  {
    hide DiskOk, DisksOk, InFlight;
    ChannelsOwned(k, ow);
    RunNotInFlight(k.threads[k.cur], k'.threads[k.cur]);
    DisksFrame(k, k', k.cur, None, ow, ow[l := None]);
  }

  /** The last action of lock_release gives the lock up; its ASSERTs hold. */
  lemma RelUpOk(k: State, ow: Owners)
    requires Inv(k, ow) && Linked(k) && k.threads[k.cur].pc.RelUp?
    ensures var l := k.threads[k.cur].pc.l; l in k.locks && Inv(LockStep(k, l), ow[l := None])
  {
    AtLock(k, ow);
    BeforeRelUp(k, ow);
    var l := k.threads[k.cur].pc.l;
    RelUpStep(k, l);
    UpShape(SetPc(k, Run), OfLock(l));
    RelUpLocks(k, LockStep(k, l), ow, l);
    RelUpDisks(k, LockStep(k, l), ow, l);
  }

  // ---------------------------------------------------------------------------
  // The disk
  // ---------------------------------------------------------------------------

  function Commanded(k: State, c: nat): State
    requires c in k.chans && k.cur in k.threads
  {
    var ch := k.chans[c];
    SetPc(k.(chans := k.chans[c := ch.(expecting := true, issued := ch.issued + 1)]), Down(DiskDone(c)))
  }

  lemma CommandDisks(k: State, ow: Owners, c: nat)
    requires k.cur in k.threads && IdsOk(k) && DisksOk(k, ow)
    requires c in k.chans && k.threads[k.cur].pc == Run && ow[Channel(c)] == Some(k.cur)
    ensures IdsOk(Commanded(k, c)) && DisksOk(Commanded(k, c), ow)
  {
    var k' := Commanded(k, c);
    assert DiskOk(k, c, ow[Channel(c)]);
    assert DiskOk(k', c, ow[Channel(c)]);
    DisksFrame(k, k', k.cur, Some(c), ow, ow);
  }

  lemma HoldsIt(k: State, l: LockId, owner: Option<Tid>)
    requires l in k.locks && OfLock(l) in k.semas && LockOk(k, l, owner) && k.cur in k.threads && k.threads[k.cur].held[l] > 0
    ensures owner == Some(k.cur)
  {
    assert Owned(k.cur, k.threads[k.cur], l).Some?;
  }

  lemma CommandLocks(k: State, ow: Owners, c: nat)
    requires k.cur in k.threads && IdsOk(k) && LocksOk(k, ow)
    requires c in k.chans && k.threads[k.cur].pc == Run && k.threads[k.cur].held[Channel(c)] > 0
    ensures ow[Channel(c)] == Some(k.cur) && LocksOk(Commanded(k, c), ow)
  {
    hide Fields, LockOk;
    assert LockOk(k, Channel(c), ow[Channel(c)]);
    HoldsIt(k, Channel(c), ow[Channel(c)]);
    SameFields(k, Commanded(k, c), ow);
  }

  lemma CommandWakes(k: State, c: nat)
    requires OnlyRunning(k, k.cur) && WakesOk(k) && c in k.chans && k.threads[k.cur].pc == Run
    ensures Moved(k, Commanded(k, c)) && WakesOk(Commanded(k, c))
  {
    MovedWakes(k, Commanded(k, c));
  }

  lemma CommandOk(k: State, ow: Owners, c: nat)
    requires Inv(k, ow) && c in k.chans && k.threads[k.cur].pc == Run && k.threads[k.cur].held[Channel(c)] > 0
    ensures Inv(Commanded(k, c), ow)
  {
    CommandLocks(k, ow, c);
    CommandDisks(k, ow, c);
    CommandWakes(k, c);
    MovedOk(k, Commanded(k, c), ow, ow);
  }

  /** The state after sema_down(&disk_done) took the semaphore. */
  function Done(k: State, c: nat): State
    requires c in k.chans && DiskDone(c) in k.semas && k.cur in k.threads
  {
    SetPc(SetSema(k, DiskDone(c), Sema(0, k.semas[DiskDone(c)].waiters)), Run)
      .(chans := k.chans[c := k.chans[c].(downs := k.chans[c].downs + 1)])
  }

  lemma HolderOwns(k: State, l: LockId, owner: Option<Tid>, c: nat)
    requires l == Channel(c) && l in k.locks && OfLock(l) in k.semas && AtDown(k, DiskDone(c)) && LockOk(k, l, owner)
    ensures owner == Some(k.cur)
  {
    assert Owned(k.cur, k.threads[k.cur], l).Some?;
  }

  lemma DoneLocks(k: State, ow: Owners, c: nat)
    requires IdsOk(k) && LocksOk(k, ow) && AtDown(k, DiskDone(c))
    ensures ow[Channel(c)] == Some(k.cur) && IdsOk(Done(k, c)) && LocksOk(Done(k, c), ow)
  {
    hide Fields, DepthOk, LockOk;
    assert LockOk(k, Channel(c), ow[Channel(c)]);
    HolderOwns(k, Channel(c), ow[Channel(c)], c);
    var k' := Done(k, c);
    assert PcMoved(k, k', k.cur) && IdsOk(k');
    SameFields(k, k', ow);
  }

  lemma DoneDisks(k: State, ow: Owners, c: nat)
    requires IdsOk(k) && DisksOk(k, ow) && AtDown(k, DiskDone(c)) && IdsOk(Done(k, c))
    requires k.semas[DiskDone(c)].value != 0 && ow[Channel(c)] == Some(k.cur)
    ensures k.semas[DiskDone(c)].value == 1 && DisksOk(Done(k, c), ow)
  {
    assert DiskOk(k, c, ow[Channel(c)]);
    assert DiskOk(Done(k, c), c, ow[Channel(c)]);
    DisksFrame(k, Done(k, c), k.cur, Some(c), ow, ow);
  }

  lemma DoneWakes(k: State, c: nat)
    requires IdsOk(k) && OnlyRunning(k, k.cur) && WakesOk(k) && AtDown(k, DiskDone(c))
    ensures Moved(k, Done(k, c)) && WakesOk(Done(k, c))
  {
    MovedWakes(k, Done(k, c));
  }

  lemma DoneIs(k: State, c: nat)
    requires AtDown(k, DiskDone(c)) && k.semas[DiskDone(c)].value == 1 && c in k.chans && k.idle in k.threads
    requires forall t :: t in k.ready ==> t in k.threads
    ensures SemaDown(k, DiskDone(c)) == Done(k, c)
  {
  }

  /** sema_down(&disk_done) after the interrupt. */
  lemma SemaDownDone(k: State, ow: Owners, c: nat)
    requires Inv(k, ow) && Linked(k) && AtDown(k, DiskDone(c)) && k.semas[DiskDone(c)].value != 0
    ensures Inv(SemaDown(k, DiskDone(c)), ow)
  {
    DoneLocks(k, ow, c);
    DoneDisks(k, ow, c);
    DoneWakes(k, c);
    DoneIs(k, c);
    MovedOk(k, Done(k, c), ow, ow);
  }

  /** The interrupt handler's state before its sema_up. */
  function Answered(k: State, c: nat): State
    requires c in k.chans
  {
    k.(chans := k.chans[c := k.chans[c].(expecting := false, ups := k.chans[c].ups + 1)])
  }

  lemma AnsweredThreads(k: State, c: nat)
    requires ThreadsOk(k) && c in k.chans
    ensures ThreadsOk(Answered(k, c))
  {
    var k' := Answered(k, c);
    forall t | t in k'.threads ensures PcKnown(k', k'.threads[t].pc) && PcOk(k'.threads[t]) {
      assert PcKnown(k, k.threads[t].pc);
    }
  }

  lemma AnsweredWakes(k: State, c: nat)
    requires WakesOk(k) && c in k.chans
    ensures WakesOk(Answered(k, c))
  {
    forall s | s in k.semas ensures WakeOk(Answered(k, c), s) {
      assert WakeOk(k, s);
    }
  }

  lemma AnsweredShape(k: State, c: nat)
    requires Shape(k) && c in k.chans
    ensures Shape(Answered(k, c))
  {
    hide Core, ThreadsOk;
    AnsweredThreads(k, c);
    AnsweredWakes(k, c);
  }

  lemma ShapeQueues(k: State, c: nat)
    requires Shape(k) && c in k.chans
    ensures DiskDone(c) in k.semas && ReadyExact(Answered(k, c)) && WaitersExact(Answered(k, c))
    ensures forall t :: t in k.semas[DiskDone(c)].waiters ==> t in k.threads
  {
    AnsweredShape(k, c);
  }

  lemma IrqDisks(k: State, k': State, ow: Owners, c: nat)
    requires k.cur in k.threads && IdsOk(k) && IdsOk(k') && DisksOk(k, ow)
    requires c in k.chans && k.chans[c].expecting && Upped(Answered(k, c), k', DiskDone(c))
    ensures DisksOk(k', ow)
  {
    assert DiskOk(k, c, ow[Channel(c)]);
    assert DiskOk(k', c, ow[Channel(c)]);
    DisksFrame(k, k', k.cur, Some(c), ow, ow);
  }

  lemma IrqLocks(k: State, k': State, ow: Owners, c: nat)
    requires k.cur in k.threads && IdsOk(k) && IdsOk(k') && LocksOk(k, ow)
    requires c in k.chans && Upped(Answered(k, c), k', DiskDone(c))
    ensures LocksOk(k', ow)
  {
    hide LockOk, Fields;
    LocksFrame(k, k', k.cur, None, ow, ow);
  }

  /** intr_hd_handler's sema_up finds disk_done at 0, whatever was interrupted. */
  lemma IrqOk(k: State, ow: Owners, c: nat)
    requires Inv(k, ow) && Linked(k) && c in k.chans
    ensures Inv(DiskInterrupt(k, c), ow)
  {
    if k.chans[c].expecting {
      assert DiskOk(k, c, ow[Channel(c)]);
      AnsweredShape(k, c);
      UpShape(Answered(k, c), DiskDone(c));
      var k' := SemaUp(Answered(k, c), DiskDone(c));
      IrqDisks(k, k', ow, c);
      IrqLocks(k, k', ow, c);
    }
  }

  // ---------------------------------------------------------------------------
  // Every run
  // ---------------------------------------------------------------------------

  lemma AdvanceOk(k: State, ow: Owners) returns (ow': Owners)
    requires Inv(k, ow) && Enabled(k, Advance)
    ensures Inv(Apply(k, Advance), ow')
  {
    var pc := k.threads[k.cur].pc;
    ow' := ow;
    if pc.Down? || pc.Retest? {
      assert AtDown(k, pc.s);
      if k.semas[pc.s].value == 0 {
        SemaDownBlocks(k, ow, pc.s);
      } else if pc.s.OfLock? {
        SemaDownTakes(k, ow, pc.s.l);
        ow' := ow[pc.s.l := Some(k.cur)];
      } else {
        SemaDownDone(k, ow, pc.s.c);
      }
    } else if pc.RelUp? {
      RelUpOk(k, ow);
      ow' := ow[pc.l := None];
    } else {
      LockStepOk(k, ow);
    }
  }

  lemma ExitOk(k: State, ow: Owners)
    requires Inv(k, ow) && Enabled(k, Exit)
    ensures Inv(Apply(k, Exit), ow)
  {
    RemoveOk(k, ow, k.cur);
    SwitchInOk(k.(threads := k.threads - {k.cur}, ready := Without<Tid>(k.ready, k.cur)), ow);
  }

  lemma ReapOk(k: State, ow: Owners, t: Tid)
    requires Inv(k, ow) && Enabled(k, Reap(t))
    ensures Inv(Apply(k, Reap(t)), ow)
  {
    hide ReadyExact, LockOk, PcOk, PcKnown, NoDup, InFlight, Unblock, SwitchIn, Schedule;
    RemoveOk(k, ow, t);
  }

  lemma SchedulingOk(k: State, ow: Owners, a: Action)
    requires Inv(k, ow) && Enabled(k, a)
    requires a.Tick? || a.Yield? || a.IdleBlock? || a.Block? || a.Wake? || a.Create? || a.Reap? || a.Exit?
    ensures Inv(Apply(k, a), ow)
  {
    match a
    case Tick => ScheduleOk(k, ow);
    case Yield => ScheduleOk(k, ow);
    case IdleBlock => BlockOk(k, ow, BLOCKED);
    case Block(s) => BlockOk(k, ow, s);
    case Wake(t) => WakeUpOk(k, ow, t);
    case Create(t) => CreateOk(k, ow, t);
    case Reap(t) => ReapOk(k, ow, t);
    case Exit => ExitOk(k, ow);
  }

  lemma CallOk(k: State, ow: Owners, a: Action)
    requires Inv(k, ow) && Enabled(k, a) && (a.Acquire? || a.Release?)
    ensures Inv(Apply(k, a), ow)
  {
    assert a.Release? ==> k.threads[k.cur].held != multiset{};
    assert k.cur != k.idle;
    GoOk(k, ow, if a.Acquire? then AcqTest(a.l) else RelTest(a.l));
  }

  lemma DiskOpOk(k: State, ow: Owners, a: Action)
    requires Inv(k, ow) && Enabled(k, a) && (a.Command? || a.Irq?)
    ensures Inv(Apply(k, a), ow)
  {
    hide Core, OnlyRunning;
    if a.Command? {
      CommandOk(k, ow, a.c);
      assert Apply(k, a) == Commanded(k, a.c);
    } else {
      IrqOk(k, ow, a.c);
    }
  }

  lemma StepOk(k: State, ow: Owners, a: Action) returns (ow': Owners)
    requires Inv(k, ow) && Enabled(k, a)
    ensures Inv(Apply(k, a), ow')
  {
    if a.Advance? {
      ow' := AdvanceOk(k, ow);
    } else {
      ow' := ow;
      if a.Acquire? || a.Release? {
        CallOk(k, ow, a);
      } else if a.Command? || a.Irq? {
        DiskOpOk(k, ow, a);
      } else {
        SchedulingOk(k, ow, a);
      }
    }
  }

  lemma InitOk(k: State)
    requires Init(k)
    ensures Inv(k, map l | l in k.locks :: None)
  {
    forall s | s in k.semas ensures k.semas[s].waiters == [] {
      assert s == if s.OfLock? then OfLock(s.l) else DiskDone(s.c);
    }
  }

  lemma {:induction false} RunOk(k: State, ow: Owners, run: seq<Action>) returns (ow': Owners)
    requires Inv(k, ow) && Legal(k, run)
    ensures Inv(Exec(k, run), ow')
    decreases |run|
  {
    ow' := ow;
    if run != [] {
      ow' := StepOk(k, ow, run[0]);
      ow' := RunOk(Apply(k, run[0]), ow', run[1..]);
    }
  }

  lemma Reached(k0: State, run: seq<Action>) returns (ow: Owners)
    requires Init(k0) && Legal(k0, run)
    ensures Inv(Exec(k0, run), ow)
  {
    InitOk(k0);
    ow := RunOk(k0, map l | l in k0.locks :: None, run);
  }
}
