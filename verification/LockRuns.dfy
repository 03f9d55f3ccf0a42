/** lock_acquire and lock_release from call to return: what a thread that is not interrupted
leaves behind, and that releasing undoes acquiring. */
module LockRuns {
  import opened Basics
  import opened Threads
  import opened ThreadSafety
  import opened ThreadEffects

  /** `k` with the current thread at `pc` and holding lock `l` to depth `depth`, the lock's
  fields, and the value of its semaphore. */
  function With(k: State, l: LockId, pc: Pc, depth: nat, lock: Lock, value: nat): State
    requires k.cur in k.threads && OfLock(l) in k.semas
  {
    k.(threads := k.threads[k.cur := k.threads[k.cur].(pc := pc, held := k.threads[k.cur].held[l := depth])],
       locks := k.locks[l := lock],
       semas := k.semas[OfLock(l) := Sema(value, k.semas[OfLock(l)].waiters)])
  }

  /** A good state in which the current thread may use lock `l`. */
  ghost predicate Able(k: State, l: LockId) {
    && !k.panicked && Linked(k) && k.cur in k.threads && k.cur != k.idle && k.threads[k.cur].pc == Run
    && l in k.locks && OfLock(l) in k.semas && k.semas[OfLock(l)].value <= 1
    && forall t :: t in k.semas[OfLock(l)].waiters ==> t in k.threads
  }

  lemma WithLinked(k: State, l: LockId, pc: Pc, depth: nat, lock: Lock, value: nat)
    requires Able(k, l)
    ensures Linked(With(k, l, pc, depth, lock, value))
  {
    var k' := With(k, l, pc, depth, lock, value);
    forall s, t | s in k'.semas && t in k'.semas[s].waiters ensures t in k'.threads {
      assert s in k.semas && t in k.semas[s].waiters;
    }
  }

  /** The state is its own view. */
  lemma WithSame(k: State, l: LockId)
    requires Able(k, l)
    ensures With(k, l, Run, k.threads[k.cur].held[l], k.locks[l], k.semas[OfLock(l)].value) == k
  {
    var th := k.threads[k.cur];
    assert th.held[l := th.held[l]] == th.held;
    assert k.threads[k.cur := th] == k.threads;
  }

  lemma WithTwice(k: State, l: LockId, pc: Pc, depth: nat, lock: Lock, value: nat, pc': Pc, depth': nat, lock': Lock, value': nat)
    requires Able(k, l)
    ensures var k1 := With(k, l, pc, depth, lock, value);
            k1.cur in k1.threads && OfLock(l) in k1.semas && With(k1, l, pc', depth', lock', value') == With(k, l, pc', depth', lock', value')
  {
    var held := k.threads[k.cur].held;
    assert held[l := depth][l := depth'] == held[l := depth'];
  }

  lemma DepthTwice(held: multiset<LockId>, l: LockId, d: nat, e: nat)
    ensures held[l := d][l := e] == held[l := e] && held[l := d][l] == d
  {
  }

  /** One step of lock_acquire on the lock's own fields. */
  lemma AcquireStep(k: State, l: LockId, pc: Pc, depth: nat, lock: Lock, value: nat)
    requires Able(k, l)
    requires pc == AcqTest(l) || pc == AcqAgain(l) || pc == AcqHolder(l) || (pc == AcqCount(l) && lock.repeat == 0)
    ensures var k0 := With(k, l, pc, depth, lock, value);
            && Enabled(k0, Advance)
            && Apply(k0, Advance) ==
               match pc
               case AcqTest(_) => With(k, l, if lock.holder != Some(k.cur) then Down(OfLock(l)) else AcqAgain(l), depth, lock, value)
               case AcqAgain(_) => With(k, l, Run, depth + 1, lock.(repeat := lock.repeat + 1), value)
               case AcqHolder(_) => With(k, l, AcqCount(l), depth, lock.(holder := Some(k.cur)), value)
               case _ => With(k, l, Run, depth + 1, lock.(repeat := 1), value)
  {
    hide Linked;
    WithLinked(k, l, pc, depth, lock, value);
    DepthTwice(k.threads[k.cur].held, l, depth, depth + 1);
  }

  /** One step of lock_release on the lock's own fields. */
  lemma ReleaseStep(k: State, l: LockId, pc: Pc, depth: nat, lock: Lock, value: nat)
    requires Able(k, l) && depth > 0
    requires (pc == RelTest(l) && lock.holder == Some(k.cur)) || (pc == RelAgain(l) && lock.repeat > 0) || (pc == RelHolder(l) && lock.repeat == 1)
    ensures var k0 := With(k, l, pc, depth, lock, value);
            && Enabled(k0, Advance)
            && Apply(k0, Advance) ==
               match pc
               case RelTest(_) => With(k, l, if lock.repeat > 1 then RelAgain(l) else RelHolder(l), depth, lock, value)
               case RelAgain(_) => With(k, l, Run, depth - 1, lock.(repeat := lock.repeat - 1), value)
               case _ => With(k, l, RelCount(l), depth - 1, lock.(holder := None), value)
  {
    hide Linked;
    WithLinked(k, l, pc, depth, lock, value);
    DepthTwice(k.threads[k.cur].held, l, depth, depth - 1);
  }

  lemma ClearStep(k: State, l: LockId, depth: nat, lock: Lock, value: nat)
    requires Able(k, l)
    ensures var k0 := With(k, l, RelCount(l), depth, lock, value);
            Enabled(k0, Advance) && Apply(k0, Advance) == With(k, l, RelUp(l), depth, lock.(repeat := 0), value)
  {
    hide Linked;
    WithLinked(k, l, RelCount(l), depth, lock, value);
  }

  /** sema_down on a free lock. */
  lemma TakeStep(k: State, l: LockId, depth: nat, lock: Lock)
    requires Able(k, l)
    ensures var k0 := With(k, l, Down(OfLock(l)), depth, lock, 1);
            Enabled(k0, Advance) && Apply(k0, Advance) == With(k, l, AcqHolder(l), depth, lock, 0)
  {
    hide Linked;
    WithLinked(k, l, Down(OfLock(l)), depth, lock, 1);
  }

  /** The first waiter is popped and made ready, in front of the ready list. */
  ghost predicate FirstWaiterWoken(k: State, k': State, l: LockId)
    requires OfLock(l) in k.semas && k.semas[OfLock(l)].waiters != []
  {
    var Sema(value, waiters) := k.semas[OfLock(l)];
    Moves(k.(semas := k.semas[OfLock(l) := Sema(value, waiters[1..])]), k', k.cur, [waiters[0]] + k.ready, map[waiters[0] := READY])
  }

  /** sema_up of a lock. */
  lemma GiveStep(k: State, l: LockId, depth: nat, lock: Lock)
    requires Able(k, l)
    requires var w := k.semas[OfLock(l)].waiters; w != [] ==> !Awake(k.threads[w[0]].status) && w[0] !in k.ready && w[0] != k.cur
    ensures var k0, k1 := With(k, l, RelUp(l), depth, lock, 0), With(k, l, Run, depth, lock, 1);
            && Enabled(k0, Advance)
            && if k.semas[OfLock(l)].waiters == [] then Apply(k0, Advance) == k1 else FirstWaiterWoken(k1, Apply(k0, Advance), l)
  {
    hide Linked;
    WithLinked(k, l, RelUp(l), depth, lock, 0);
  }

  // ---------------------------------------------------------------------------
  // From call to return
  // ---------------------------------------------------------------------------

  /** The thread runs on inside the function it called. */
  function Advances(n: nat): seq<Action> {
    if n == 0 then [] else [Advance] + Advances(n - 1)
  }

  lemma Ahead(k: State, k1: State, a: Action, run: seq<Action>)
    requires Enabled(k, a) && Apply(k, a) == k1 && Legal(k1, run)
    ensures Legal(k, [a] + run) && Exec(k, [a] + run) == Exec(k1, run)
  {
    hide Enabled, Apply;
    assert ([a] + run)[1..] == run;
  }

  lemma {:induction false} LegalConcat(k: State, a: seq<Action>, b: seq<Action>)
    requires Legal(k, a) && Legal(Exec(k, a), b)
    ensures Legal(k, a + b) && Exec(k, a + b) == Exec(Exec(k, a), b)
    decreases |a|
  {
    hide Enabled, Apply;
    if a == [] {
      assert a + b == b;
    } else {
      LegalConcat(Apply(k, a[0]), a[1..], b);
      assert (a + b)[1..] == a[1..] + b;
    }
  }

  /** The lock of a thread outside the lock functions: it holds it and the fields say so; or
  it does not, and the lock is free or somebody else's. */
  lemma LockIs(k: State, ow: Owners, l: LockId)
    requires Inv(k, ow) && Linked(k) && l in k.locks && k.cur != k.idle && k.threads[k.cur].pc == Run
    ensures Able(k, l)
    ensures var d := k.threads[k.cur].held[l];
            && (d > 0 ==> k.locks[l] == Lock(Some(k.cur), d) && k.semas[OfLock(l)].value == 0)
            && (d == 0 ==> k.locks[l].holder != Some(k.cur))
            && (k.semas[OfLock(l)].value == 1 ==> d == 0 && k.locks[l] == Lock(None, 0))
  {
    hide DisksOk, WakesOk, WaitersExact, ReadyExact, ThreadsOk;
    assert LockOk(k, l, ow[l]);
    assert Owned(k.cur, k.threads[k.cur], l) == if k.threads[k.cur].held[l] > 0 then Some(Lock(Some(k.cur), k.threads[k.cur].held[l])) else None;
    if ow[l].Some? {
      HolderIs(k, l, ow[l]);
    }
  }

  lemma HolderIs(k: State, l: LockId, owner: Option<Tid>)
    requires l in k.locks && OfLock(l) in k.semas && LockOk(k, l, owner) && owner.Some?
    ensures k.locks[l].holder == None || k.locks[l].holder == owner
  {
  }

  lemma Called(k: State, l: LockId, pc: Pc)
    requires Able(k, l)
    ensures SetPc(k, pc) == With(k, l, pc, k.threads[k.cur].held[l], k.locks[l], k.semas[OfLock(l)].value)
  {
    var held := k.threads[k.cur].held;
    assert held[l := held[l]] == held;
  }

  /** A thread that holds a lock gets it again without waiting, one level deeper. */
  lemma AcquireAgain(k: State, ow: Owners, l: LockId)
    requires Inv(k, ow) && Enabled(k, Acquire(l)) && k.threads[k.cur].held[l] > 0
    ensures var d := k.threads[k.cur].held[l]; var run := [Acquire(l)] + Advances(2);
            Legal(k, run) && OfLock(l) in k.semas && Exec(k, run) == With(k, l, Run, d + 1, Lock(Some(k.cur), d + 1), 0)
  {
    hide Inv, Linked, LockStep, SemaDown, With;
    LockIs(k, ow, l);
    var d, lock := k.threads[k.cur].held[l], k.locks[l];
    Called(k, l, AcqTest(l));
    var k1, k2, k3 := With(k, l, AcqTest(l), d, lock, 0), With(k, l, AcqAgain(l), d, lock, 0), With(k, l, Run, d + 1, Lock(Some(k.cur), d + 1), 0);
    AcquireStep(k, l, AcqTest(l), d, lock, 0);
    AcquireStep(k, l, AcqAgain(l), d, lock, 0);
    Ahead(k2, k3, Advance, Advances(0));
    Ahead(k1, k2, Advance, Advances(1));
    Ahead(k, k1, Acquire(l), Advances(2));
  }

  /** A free lock is taken without waiting, and named and counted once. */
  lemma AcquireFree(k: State, ow: Owners, l: LockId)
    requires Inv(k, ow) && Enabled(k, Acquire(l)) && OfLock(l) in k.semas && k.semas[OfLock(l)].value == 1
    ensures var run := [Acquire(l)] + Advances(4);
            Legal(k, run) && Exec(k, run) == With(k, l, Run, 1, Lock(Some(k.cur), 1), 0)
  {
    hide Inv, Linked, LockStep, SemaDown, With;
    LockIs(k, ow, l);
    var free, mine := Lock(None, 0), Lock(Some(k.cur), 0);
    Called(k, l, AcqTest(l));
    var k1, k2, k3 := With(k, l, AcqTest(l), 0, free, 1), With(k, l, Down(OfLock(l)), 0, free, 1), With(k, l, AcqHolder(l), 0, free, 0);
    var k4, k5 := With(k, l, AcqCount(l), 0, mine, 0), With(k, l, Run, 1, Lock(Some(k.cur), 1), 0);
    AcquireStep(k, l, AcqTest(l), 0, free, 1);
    TakeStep(k, l, 0, free);
    AcquireStep(k, l, AcqHolder(l), 0, free, 0);
    AcquireStep(k, l, AcqCount(l), 0, mine, 0);
    Ahead(k4, k5, Advance, Advances(0));
    Ahead(k3, k4, Advance, Advances(1));
    Ahead(k2, k3, Advance, Advances(2));
    Ahead(k1, k2, Advance, Advances(3));
    Ahead(k, k1, Acquire(l), Advances(4));
  }

  /** The thread is last in the wait queue of the lock. */
  function Queued(k: State, l: LockId): State
    requires k.cur in k.threads && OfLock(l) in k.semas
  {
    var Sema(value, waiters) := k.semas[OfLock(l)];
    k.(threads := k.threads[k.cur := k.threads[k.cur].(pc := Retest(OfLock(l)))],
       semas := k.semas[OfLock(l) := Sema(value, waiters + [k.cur])])
  }

  /** A lock of another thread is waited for: the caller is last in its queue, blocked, and
  the CPU goes to the first ready thread or to idle. */
  lemma AcquireTaken(k: State, ow: Owners, l: LockId)
    requires Inv(k, ow) && Enabled(k, Acquire(l)) && OfLock(l) in k.semas
    requires k.semas[OfLock(l)].value == 0 && k.threads[k.cur].held[l] == 0
    ensures var run := [Acquire(l)] + Advances(2);
            Legal(k, run) && HandsOver(Queued(k, l), Exec(k, run), k.ready, BLOCKED)
  {
    hide Inv, Linked, LockStep, SemaDown, With, HandsOver;
    LockIs(k, ow, l);
    var lock := k.locks[l];
    Called(k, l, AcqTest(l));
    Called(k, l, Down(OfLock(l)));
    var k1, k2 := With(k, l, AcqTest(l), 0, lock, 0), SetPc(k, Down(OfLock(l)));
    AcquireStep(k, l, AcqTest(l), 0, lock, 0);
    WithLinked(k, l, Down(OfLock(l)), 0, lock, 0);
    WaitStep(k, ow, l);
    Ahead(k2, Apply(k2, Advance), Advance, Advances(0));
    Ahead(k1, k2, Advance, Advances(1));
    Ahead(k, k1, Acquire(l), Advances(2));
  }

  lemma WaitStep(k: State, ow: Owners, l: LockId)
    requires Inv(k, ow) && Able(k, l) && k.semas[OfLock(l)].value == 0 && Linked(SetPc(k, Down(OfLock(l))))
    ensures var k2 := SetPc(k, Down(OfLock(l)));
            Enabled(k2, Advance) && HandsOver(Queued(k, l), Apply(k2, Advance), k.ready, BLOCKED)
  {
    hide Inv, Linked, HandsOver, BlockCurrent;
    RunningParts(k, ow);
    NotWaiting(k, ow, l);
    BlockCurrentEffect(Queued(k, l), BLOCKED);
    var k2 := SetPc(k, Down(OfLock(l)));
    assert SetPc(k2, Retest(OfLock(l))) == SetPc(k, Retest(OfLock(l)));
  }

  lemma NotWaiting(k: State, ow: Owners, l: LockId)
    requires Inv(k, ow) && OfLock(l) in k.semas
    ensures k.cur !in k.semas[OfLock(l)].waiters
    ensures var w := k.semas[OfLock(l)].waiters; w != [] ==> w[0] in k.threads && !Awake(k.threads[w[0]].status) && w[0] !in k.ready && w[0] != k.cur
  {
    hide LocksOk, DisksOk, WakesOk, ThreadsOk, NoDup;
    var w := k.semas[OfLock(l)].waiters;
    assert w != [] ==> w[0] in w;
  }

  /** A nested release goes one level up and keeps the lock. */
  lemma ReleaseNested(k: State, ow: Owners, l: LockId)
    requires Inv(k, ow) && Enabled(k, Release(l)) && k.cur != k.idle && k.threads[k.cur].held[l] > 1
    ensures var d := k.threads[k.cur].held[l]; var run := [Release(l)] + Advances(2);
            Legal(k, run) && OfLock(l) in k.semas && Exec(k, run) == With(k, l, Run, d - 1, Lock(Some(k.cur), d - 1), 0)
  {
    hide Inv, Linked, LockStep, SemaDown, With;
    LockIs(k, ow, l);
    var d, lock := k.threads[k.cur].held[l], k.locks[l];
    Called(k, l, RelTest(l));
    var k1, k2, k3 := With(k, l, RelTest(l), d, lock, 0), With(k, l, RelAgain(l), d, lock, 0), With(k, l, Run, d - 1, Lock(Some(k.cur), d - 1), 0);
    ReleaseStep(k, l, RelTest(l), d, lock, 0);
    ReleaseStep(k, l, RelAgain(l), d, lock, 0);
    Ahead(k2, k3, Advance, Advances(0));
    Ahead(k1, k2, Advance, Advances(1));
    Ahead(k, k1, Release(l), Advances(2));
  }

  /** The last release frees the lock, and makes its first waiter ready if there is one. */
  lemma ReleaseLast(k: State, ow: Owners, l: LockId)
    requires Inv(k, ow) && Enabled(k, Release(l)) && k.cur != k.idle && k.threads[k.cur].held[l] == 1
    ensures var run := [Release(l)] + Advances(4);
            && Legal(k, run) && OfLock(l) in k.semas
            && var free := With(k, l, Run, 0, Lock(None, 0), 1);
               if k.semas[OfLock(l)].waiters == [] then Exec(k, run) == free
               else OfLock(l) in free.semas && free.semas[OfLock(l)].waiters != [] && FirstWaiterWoken(free, Exec(k, run), l)
  {
    hide Inv, Linked, LockStep, SemaDown, SemaUp, With, FirstWaiterWoken;
    LockIs(k, ow, l);
    NotWaiting(k, ow, l);
    WithWaiters(k, l);
    var lock := k.locks[l];
    Called(k, l, RelTest(l));
    var k1, k2, k3 := With(k, l, RelTest(l), 1, lock, 0), With(k, l, RelHolder(l), 1, lock, 0), With(k, l, RelCount(l), 0, Lock(None, 1), 0);
    var k4 := With(k, l, RelUp(l), 0, Lock(None, 0), 0);
    ReleaseStep(k, l, RelTest(l), 1, lock, 0);
    ReleaseStep(k, l, RelHolder(l), 1, lock, 0);
    ClearStep(k, l, 0, Lock(None, 1), 0);
    GiveStep(k, l, 0, Lock(None, 0));
    Ahead(k4, Apply(k4, Advance), Advance, Advances(0));
    Ahead(k3, k4, Advance, Advances(1));
    Ahead(k2, k3, Advance, Advances(2));
    Ahead(k1, k2, Advance, Advances(3));
    Ahead(k, k1, Release(l), Advances(4));
  }

  lemma WithWaiters(k: State, l: LockId)
    requires Able(k, l)
    ensures var k' := With(k, l, Run, 0, Lock(None, 0), 1);
            OfLock(l) in k'.semas && k'.semas[OfLock(l)].waiters == k.semas[OfLock(l)].waiters
  {
  }

  /** Releasing what was acquired restores the whole state: at any depth if the thread had the
  lock already, and otherwise if it was free and nobody waited. */
  lemma ReleaseUndoesAcquire(k: State, ow: Owners, l: LockId) returns (run: seq<Action>)
    requires Inv(k, ow) && Enabled(k, Acquire(l)) && OfLock(l) in k.semas
    requires k.threads[k.cur].held[l] > 0 || k.semas[OfLock(l)] == Sema(1, [])
    ensures run != [] && run[0] == Acquire(l) && Release(l) in run && Legal(k, run) && Exec(k, run) == k
  {
    hide Inv, Linked, With;
    LockIs(k, ow, l);
    WithSame(k, l);
    var d := k.threads[k.cur].held[l];
    var a, b := [Acquire(l)] + Advances(if d > 0 then 2 else 4), [Release(l)] + Advances(if d > 0 then 2 else 4);
    var lock := Lock(Some(k.cur), d + 1);
    if d > 0 {
      AcquireAgain(k, ow, l);
    } else {
      AcquireFree(k, ow, l);
    }
    var k1 := With(k, l, Run, d + 1, lock, 0);
    WithParts(k, l, d + 1, lock);
    WithLinked(k, l, Run, d + 1, lock, 0);
    var ow1 := RunOk(k, ow, a);
    LockIs(k1, ow1, l);
    if d > 0 {
      ReleaseNested(k1, ow1, l);
      WithTwice(k, l, Run, d + 1, lock, 0, Run, d, Lock(Some(k.cur), d), 0);
    } else {
      ReleaseLast(k1, ow1, l);
      WithTwice(k, l, Run, d + 1, lock, 0, Run, 0, Lock(None, 0), 1);
    }
    LegalConcat(k, a, b);
    run := a + b;
    assert b[0] == Release(l) && b[0] in b;
  }

  lemma WithParts(k: State, l: LockId, depth: nat, lock: Lock)
    requires Able(k, l)
    ensures var k' := With(k, l, Run, depth, lock, 0);
            && !k'.panicked && k'.cur == k.cur && k'.idle == k.idle && k'.cur in k'.threads && k'.threads[k'.cur].pc == Run
            && k'.threads[k'.cur].held[l] == depth && l in k'.locks && OfLock(l) in k'.semas
            && k'.semas[OfLock(l)].waiters == k.semas[OfLock(l)].waiters
  {
  }

  // ---------------------------------------------------------------------------
  // A disk command
  // ---------------------------------------------------------------------------

  lemma NoneInFlight(k: State, ow: Owners, c: nat)
    requires Inv(k, ow) && Enabled(k, Command(c))
    ensures k.cur in k.threads && DiskDone(c) in k.semas && k.semas[DiskDone(c)] == Sema(0, [])
    ensures var ch := k.chans[c]; !ch.expecting && ch.issued == ch.ups == ch.downs
  {
    hide ReadyExact, WakesOk, ThreadsOk, NoDup;
    assert LockOk(k, Channel(c), ow[Channel(c)]);
    assert Owned(k.cur, k.threads[k.cur], Channel(c)).Some?;
    assert DiskOk(k, c, ow[Channel(c)]);
    var w := k.semas[DiskDone(c)].waiters;
    if w != [] {
      WaiterInFlight(k, ow, c, w[0]);
    }
  }

  lemma WaiterInFlight(k: State, ow: Owners, c: nat, t: Tid)
    requires Inv(k, ow) && c in k.chans && DiskDone(c) in k.semas && t in k.semas[DiskDone(c)].waiters
    ensures t in k.threads && InFlight(k.threads[t], c) && ow[Channel(c)] == Some(t)
  {
    hide ReadyExact, WakesOk, DisksOk, NoDup;
    assert k.threads[t].pc == Retest(DiskDone(c)) && PcOk(k.threads[t]);
    assert LockOk(k, Channel(c), ow[Channel(c)]);
    assert Owned(t, k.threads[t], Channel(c)).Some?;
  }

  /** A command whose interrupt comes before the driver waits for it: one more command, one
  interrupt and one completed wait, and nothing else changes. */
  lemma CommandAnswered(k: State, ow: Owners, c: nat)
    requires Inv(k, ow) && Enabled(k, Command(c))
    ensures var run := [Command(c), Irq(c), Advance]; var n := k.chans[c].issued + 1;
            Legal(k, run) && Exec(k, run) == k.(chans := k.chans[c := Chan(false, n, n, n)])
  {
    hide Inv, Linked, SemaUp, SemaDown;
    NoneInFlight(k, ow, c);
    var n := k.chans[c].issued;
    var k1 := Apply(k, Command(c));
    assert k1 == SetPc(k.(chans := k.chans[c := Chan(true, n + 1, n, n)]), Down(DiskDone(c)));
    var k2 := SetPc(k.(chans := k.chans[c := Chan(false, n + 1, n + 1, n)], semas := k.semas[DiskDone(c) := Sema(1, [])]), Down(DiskDone(c)));
    InterruptComes(k, c, n);
    var k3 := k.(chans := k.chans[c := Chan(false, n + 1, n + 1, n + 1)]);
    WaitReturns(k, c, n + 1);
    Ahead(k2, k3, Advance, []);
    Ahead(k1, k2, Irq(c), [Advance]);
    Ahead(k, k1, Command(c), [Irq(c), Advance]);
    assert [Irq(c)] + [Advance] == [Irq(c), Advance] && [Command(c)] + [Irq(c), Advance] == [Command(c), Irq(c), Advance];
  }

  lemma InterruptComes(k: State, c: nat, n: nat)
    requires Linked(k) && !k.panicked && c in k.chans && k.semas[DiskDone(c)] == Sema(0, [])
    ensures var k1 := SetPc(k.(chans := k.chans[c := Chan(true, n + 1, n, n)]), Down(DiskDone(c)));
            && Enabled(k1, Irq(c))
            && Apply(k1, Irq(c)) ==
               SetPc(k.(chans := k.chans[c := Chan(false, n + 1, n + 1, n)], semas := k.semas[DiskDone(c) := Sema(1, [])]), Down(DiskDone(c)))
  {
    var k1 := SetPc(k.(chans := k.chans[c := Chan(true, n + 1, n, n)]), Down(DiskDone(c)));
    assert Linked(k1);
  }

  lemma WaitReturns(k: State, c: nat, n: nat)
    requires Linked(k) && !k.panicked && k.threads[k.cur].pc == Run && c in k.chans && k.semas[DiskDone(c)] == Sema(0, []) && n > 0
    ensures var k2 := SetPc(k.(chans := k.chans[c := Chan(false, n, n, n - 1)], semas := k.semas[DiskDone(c) := Sema(1, [])]), Down(DiskDone(c)));
            Enabled(k2, Advance) && Apply(k2, Advance) == k.(chans := k.chans[c := Chan(false, n, n, n)])
  {
    var k2 := SetPc(k.(chans := k.chans[c := Chan(false, n, n, n - 1)], semas := k.semas[DiskDone(c) := Sema(1, [])]), Down(DiskDone(c)));
    forall s, t | s in k2.semas && t in k2.semas[s].waiters ensures t in k2.threads {
      assert s in k.semas && t in k.semas[s].waiters;
    }
    assert Linked(k2);
    assert k.threads[k.cur := k.threads[k.cur].(pc := Run)] == k.threads;
    assert k.semas[DiskDone(c) := Sema(0, [])] == k.semas;
  }
}
