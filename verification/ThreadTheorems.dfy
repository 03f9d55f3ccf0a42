/** The properties of the scheduler, semaphores, locks and disk handshake, stated for
every state that any run from start-up reaches. */
module ThreadTheorems {
  import opened Basics
  import opened Threads
  import opened ThreadSafety

  /** After start-up: the threads main (running), init and idle, one lock, two channels. */
  function Boot(): State {
    State(map[0 := Thread(RUNNING, Run, multiset{}), 1 := Thread(READY, Run, multiset{}), 2 := Thread(READY, Run, multiset{})],
          0, 2, [1, 2],
          map[OfLock(Plain(0)) := Sema(1, []), OfLock(Channel(0)) := Sema(1, []), OfLock(Channel(1)) := Sema(1, []),
              DiskDone(0) := Sema(0, []), DiskDone(1) := Sema(0, [])],
          map[Plain(0) := Lock(None, 0), Channel(0) := Lock(None, 0), Channel(1) := Lock(None, 0)],
          map[0 := Chan(false, 0, 0, 0), 1 := Chan(false, 0, 0, 0)], false)
  }

  lemma BootIsLinked()
    ensures Linked(Boot())
  {
    var k := Boot();
    assert k.semas.Keys == {OfLock(Plain(0)), OfLock(Channel(0)), OfLock(Channel(1)), DiskDone(0), DiskDone(1)};
    assert k.locks.Keys == {Plain(0), Channel(0), Channel(1)} && k.chans.Keys == {0, 1};
  }

  lemma BootIsInit()
    ensures Init(Boot())
  {
    hide Linked;
    BootIsLinked();
  }

  /** No ASSERT or PANIC of the scheduler, semaphore, lock or disk-interrupt code fires. */
  lemma NoAssertFires(k0: State, run: seq<Action>)
    requires Init(k0) && Legal(k0, run)
    ensures !Exec(k0, run).panicked
  {
    var ow := Reached(k0, run);
  }

  lemma NotAnother(k: State, l: LockId, t: Tid, u: Tid)
    requires l in k.locks && OfLock(l) in k.semas && LockOk(k, l, Some(t)) && u in k.threads && u != t
    ensures k.threads[u].held[l] == 0
  {
    assert Owned(u, k.threads[u], l) == None;
  }

  /** At most one thread is between a returned lock_acquire and its matching final
  lock_release; there the lock names that thread and counts its nesting depth. */
  lemma MutualExclusion(k0: State, run: seq<Action>, l: LockId, t: Tid)
    requires Init(k0) && Legal(k0, run)
    requires var k := Exec(k0, run); l in k.locks && t in k.threads && k.threads[t].held[l] > 0
    ensures var k := Exec(k0, run);
            && k.locks[l] == Lock(Some(t), k.threads[t].held[l])
            && OfLock(l) in k.semas && k.semas[OfLock(l)].value == 0
            && forall u :: u in k.threads && u != t ==> k.threads[u].held[l] == 0
  {
    var k := Exec(k0, run);
    var ow := Reached(k0, run);
    assert LockOk(k, l, ow[l]);
    assert Owned(t, k.threads[t], l).Some?;
    forall u | u in k.threads && u != t ensures k.threads[u].held[l] == 0 {
      NotAnother(k, l, t, u);
    }
  }

  /** A lock is never lost: its semaphore is 1 and its fields are clear, or there is
  exactly one thread that owns it and will give it back. */
  lemma FreeOrOwned(k0: State, run: seq<Action>, l: LockId)
    requires Init(k0) && Legal(k0, run) && l in Exec(k0, run).locks
    ensures var k := Exec(k0, run);
            && OfLock(l) in k.semas
            && if k.semas[OfLock(l)].value == 1 then
                 && k.locks[l] == Lock(None, 0)
                 && forall t :: t in k.threads ==> Owned(t, k.threads[t], l) == None
               else
                 && k.semas[OfLock(l)].value == 0
                 && exists t :: && t in k.threads && Owned(t, k.threads[t], l) == Some(k.locks[l])
                                && forall u :: u in k.threads && Owned(u, k.threads[u], l).Some? ==> u == t
  {
    var k := Exec(k0, run);
    var ow := Reached(k0, run);
    assert LockOk(k, l, ow[l]);
    if ow[l].Some? {
      assert Owned(ow[l].value, k.threads[ow[l].value], l) == Some(k.locks[l]);
    }
  }

  /** A thread's one list element is on at most one queue. */
  ghost predicate OneQueueEach(k: State) {
    && (forall s, t :: s in k.semas && t in k.semas[s].waiters ==> t !in k.ready && t != k.cur)
    && (forall r, s, t :: r in k.semas && s in k.semas && t in k.semas[r].waiters && t in k.semas[s].waiters ==> r == s)
    && k.cur !in k.ready
  }

  lemma ExactQueuesAreDisjoint(k: State)
    requires ReadyExact(k) && WaitersExact(k) && OnlyRunning(k, k.cur)
    ensures OneQueueEach(k)
  {
    forall r, s, t | r in k.semas && s in k.semas && t in k.semas[r].waiters && t in k.semas[s].waiters
      ensures r == s
    {
      assert k.threads[t].pc == Retest(r) && k.threads[t].pc == Retest(s);
    }
  }

  /** Exactly one thread runs, the ready list is a duplicate-free list of exactly the
  READY threads, each wait queue a duplicate-free list of exactly the threads blocked
  on it, and schedule can always fall back on the idle thread. */
  lemma QueuesMatchStatuses(k0: State, run: seq<Action>)
    requires Init(k0) && Legal(k0, run)
    ensures var k := Exec(k0, run);
            && OnlyRunning(k, k.cur) && ReadyExact(k) && WaitersExact(k) && OneQueueEach(k)
            && k.idle in k.threads
            && (k.ready == [] && k.cur != k.idle ==> k.threads[k.idle].status == BLOCKED)
  {
    var k := Exec(k0, run);
    var ow := Reached(k0, run);
    ExactQueuesAreDisjoint(k);
    assert k.ready == [] ==> k.idle !in k.ready;
  }

  /** No wakeup is lost: if a semaphore is up while threads wait for it, a thread that
  sema_up already popped is runnable inside sema_down's loop and will test it. */
  lemma NoLostWakeup(k0: State, run: seq<Action>, s: SemaId)
    requires Init(k0) && Legal(k0, run) && s in Exec(k0, run).semas
    requires var k := Exec(k0, run); k.semas[s].value > 0 && k.semas[s].waiters != []
    ensures var k := Exec(k0, run);
            exists t :: && t in k.threads && k.threads[t].pc == Retest(s)
                        && t !in k.semas[s].waiters && (t in k.ready || t == k.cur)
  {
    var k := Exec(k0, run);
    var ow := Reached(k0, run);
    assert WakeOk(k, s);
    var t :| t in k.threads && k.threads[t].pc == Retest(s) && Awake(k.threads[t].status);
    assert t !in k.semas[s].waiters && (t in k.ready || t == k.cur);
  }

  /** Issued commands, interrupts and completed waits of a channel, given whether a
  command is in flight. */
  ghost predicate Paired(k: State, c: nat, inFlight: bool)
    requires c in k.chans && DiskDone(c) in k.semas
  {
    var Chan(expecting, issued, ups, downs) := k.chans[c];
    var value := k.semas[DiskDone(c)].value;
    if inFlight then issued == downs + 1 && ups == downs + value && value == Bit(!expecting)
    else issued == ups == downs && value == 0 && !expecting
  }

  lemma InFlightOwns(k: State, ow: Owners, c: nat, t: Tid)
    requires Inv(k, ow) && c in k.chans && t in k.threads && InFlight(k.threads[t], c)
    ensures k.threads[t].held[Channel(c)] > 0 && ow[Channel(c)] == Some(t)
  {
    assert LockOk(k, Channel(c), ow[Channel(c)]);
    assert PcOk(k.threads[t]);
    assert Owned(t, k.threads[t], Channel(c)).Some?;
  }

  /** Disk commands and interrupts pair up: at most one command of a channel is in
  flight, by the thread that holds the channel's lock; while none is, as many
  interrupts raised `disk_done`, and as many waits on it returned, as commands were
  issued; while one is, its interrupt is still expected or has raised `disk_done`. */
  lemma CommandsPairWithInterrupts(k0: State, run: seq<Action>, c: nat)
    requires Init(k0) && Legal(k0, run) && c in Exec(k0, run).chans
    ensures var k := Exec(k0, run);
            && DiskDone(c) in k.semas
            && (Paired(k, c, true) || Paired(k, c, false))
            && (Paired(k, c, true) <==> exists t :: t in k.threads && InFlight(k.threads[t], c))
            && (forall t, u :: t in k.threads && u in k.threads && InFlight(k.threads[t], c) && InFlight(k.threads[u], c) ==> t == u)
            && (forall t :: t in k.threads && InFlight(k.threads[t], c) ==> k.threads[t].held[Channel(c)] > 0)
  {
    var k := Exec(k0, run);
    var ow := Reached(k0, run);
    assert DiskOk(k, c, ow[Channel(c)]);
    forall t | t in k.threads && InFlight(k.threads[t], c)
      ensures k.threads[t].held[Channel(c)] > 0 && ow[Channel(c)] == Some(t)
    {
      InFlightOwns(k, ow, c, t);
    }
  }
}
