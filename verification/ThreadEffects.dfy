/** What the scheduling steps leave behind, field by field: who runs, who is ready and in
which order, and which statuses changed. */
module ThreadEffects {
  import opened Basics
  import opened Threads
  import opened ThreadSafety

  /** From `k` to `k'` the running thread, the ready list and the statuses in `changed` became
  what is given, and nothing else changed. */
  ghost predicate Moves(k: State, k': State, cur: Tid, ready: seq<Tid>, changed: map<Tid, Status>) {
    && k' == k.(threads := k'.threads, cur := cur, ready := ready)
    && k'.threads.Keys == k.threads.Keys
    && forall t :: t in k.threads ==>
         k'.threads[t] == k.threads[t].(status := if t in changed then changed[t] else k.threads[t].status)
  }

  /** The CPU goes to the first of `queue`, or to idle if there is none; the old current thread
  is left with `status`. */
  ghost predicate HandsOver(k: State, k': State, queue: seq<Tid>, status: Status) {
    if queue == [] then Moves(k, k', k.idle, [], map[k.cur := status, k.idle := RUNNING])
    else Moves(k, k', queue[0], queue[1..], map[k.cur := status, queue[0] := RUNNING])
  }

  /** schedule has somebody to run: every ready thread exists, and if there is none idle
  sleeps. */
  ghost predicate Schedulable(k: State) {
    && !k.panicked && k.cur in k.threads && k.idle in k.threads && (forall t :: t in k.ready ==> t in k.threads)
    && (k.ready == [] ==> !Awake(k.threads[k.idle].status))
  }

  lemma SwitchEffect(k: State)
    requires Schedulable(k)
    ensures var next, rest := if k.ready == [] then k.idle else k.ready[0], if k.ready == [] then [] else k.ready[1..];
            Moves(k, SwitchIn(k), next, rest, map[next := RUNNING])
  {
  }

  /** First a status and the ready list change, then the CPU goes to the first ready thread. */
  lemma SwitchAfter(k: State, k1: State, s: Status)
    requires k.cur in k.threads && k1 == SetStatus(k, k.cur, s).(ready := k1.ready) && Schedulable(k1)
    ensures HandsOver(k, SwitchIn(k1), k1.ready, s)
  {
    hide SwitchIn, Moves, SetStatus;
    SwitchEffect(k1);
    if k1.ready == [] {
      MovesAfter(k, k1, SwitchIn(k1), s, k1.idle, []);
    } else {
      MovesAfter(k, k1, SwitchIn(k1), s, k1.ready[0], k1.ready[1..]);
    }
  }

  lemma MovesAfter(k: State, k1: State, k2: State, s: Status, next: Tid, rest: seq<Tid>)
    requires k.cur in k.threads && k1 == SetStatus(k, k.cur, s).(ready := k1.ready)
    requires Moves(k1, k2, next, rest, map[next := RUNNING])
    ensures k1.idle == k.idle && Moves(k, k2, next, rest, map[k.cur := s, next := RUNNING])
  {
    forall t | t in k.threads ensures k2.threads[t].pc == k.threads[t].pc && k2.threads[t].held == k.threads[t].held {
      assert t in k1.threads;
    }
  }

  /** thread_block leaves the caller with the status it asked for, and the CPU to the first
  ready thread or to idle. */
  lemma BlockCurrentEffect(k: State, s: Status)
    requires k.cur in k.threads && Schedulable(SetStatus(k, k.cur, s)) && s != RUNNING
    ensures HandsOver(k, BlockCurrent(k, s), k.ready, s)
  {
    hide SwitchIn, HandsOver;
    SwitchAfter(k, SetStatus(k, k.cur, s), s);
  }

  /** What the invariant says about a running thread and about idle. */
  lemma RunningParts(k: State, ow: Owners)
    requires Inv(k, ow)
    ensures !k.panicked && k.cur in k.threads && k.idle in k.threads && k.cur !in k.ready && k.threads[k.cur].status == RUNNING
    ensures forall t :: t in k.ready ==> t in k.threads
    ensures k.ready == [] && k.cur != k.idle ==> k.threads[k.idle].status == BLOCKED
  {
    hide LocksOk, DisksOk, WakesOk, WaitersExact, NoDup;
    assert k.ready == [] ==> k.idle !in k.ready;
  }

  /** A caller of thread_block in any state of the invariant. */
  lemma BlockEffect(k: State, ow: Owners, s: Status)
    requires Inv(k, ow) && Enabled(k, Block(s))
    ensures var k' := Apply(k, Block(s));
            && HandsOver(k, k', k.ready, s)
            && k'.cur != k.cur && k.cur in k'.threads && k'.threads[k.cur].status == s && k.cur !in k'.ready
  {
    hide Inv, Linked, BlockCurrent;
    RunningParts(k, ow);
    BlockCurrentEffect(k, s);
  }

  /** The idle thread blocks itself, and runs on if nobody else is ready. */
  lemma IdleBlockEffect(k: State, ow: Owners)
    requires Inv(k, ow) && Enabled(k, IdleBlock)
    ensures HandsOver(k, Apply(k, IdleBlock), k.ready, BLOCKED)
  {
    hide Inv, Linked, BlockCurrent, HandsOver;
    RunningParts(k, ow);
    BlockCurrentEffect(k, BLOCKED);
  }

  /** A timer tick and thread_yield put the caller at the end of the ready list. */
  lemma YieldEffect(k: State, ow: Owners)
    requires Inv(k, ow)
    ensures Enabled(k, Yield) ==> HandsOver(k, Apply(k, Yield), k.ready + [k.cur], READY)
    ensures Enabled(k, Tick) ==> HandsOver(k, Apply(k, Tick), k.ready + [k.cur], READY)
  {
    hide Inv, Linked, HandsOver, SwitchIn;
    RunningParts(k, ow);
    SwitchAfter(k, SetStatus(k, k.cur, READY).(ready := k.ready + [k.cur]), READY);
  }

  /** thread_unblock puts the thread in front of the ready list. */
  lemma WakeEffect(k: State, ow: Owners, t: Tid)
    requires Inv(k, ow) && Enabled(k, Wake(t))
    ensures Moves(k, Apply(k, Wake(t)), k.cur, [t] + k.ready, map[t := READY])
  {
    hide Inv, Linked;
    NotReady(k, ow, t);
  }

  /** A new thread is READY and last in the ready list, and nothing else changes. */
  lemma CreateEffect(k: State, ow: Owners, t: Tid)
    requires Inv(k, ow) && Enabled(k, Create(t))
    ensures var k' := Apply(k, Create(t));
            && k'.threads.Keys == k.threads.Keys + {t} && k'.threads[t] == Thread(READY, Run, multiset{})
            && k' == k.(threads := k'.threads, ready := k.ready + [t])
            && forall u :: u in k.threads ==> k'.threads[u] == k.threads[u]
  {
    hide LocksOk, DisksOk, WakesOk, WaitersExact, NoDup;
  }

  /** Reaping a thread takes exactly that thread away. */
  lemma ReapEffect(k: State, ow: Owners, t: Tid)
    requires Inv(k, ow) && Enabled(k, Reap(t))
    ensures Apply(k, Reap(t)) == k.(threads := k.threads - {t})
  {
    hide Inv, Without;
    NotReady(k, ow, t);
    WithoutAbsent(k.ready, t);
  }

  lemma NotReady(k: State, ow: Owners, t: Tid)
    requires Inv(k, ow) && t in k.threads && k.threads[t].status != READY
    ensures t !in k.ready
  {
    hide LocksOk, DisksOk, WakesOk, WaitersExact, NoDup;
  }

  lemma {:induction false} WithoutAbsent(s: seq<Tid>, t: Tid)
    requires t !in s
    ensures Without<Tid>(s, t) == s
    decreases |s|
  {
    if s != [] {
      WithoutAbsent(s[1..], t);
      assert s == [s[0]] + s[1..];
    }
  }

  /** A thread that ends leaves the CPU as one that blocks does, and is gone. */
  lemma ExitEffect(k: State, ow: Owners)
    requires Inv(k, ow) && Enabled(k, Exit)
    ensures var k', next := Apply(k, Exit), if k.ready == [] then k.idle else k.ready[0];
            && k'.cur == next && k'.ready == (if k.ready == [] then [] else k.ready[1..])
            && k' == k.(threads := k'.threads, cur := k'.cur, ready := k'.ready)
            && k'.threads.Keys == k.threads.Keys - {k.cur} && next in k'.threads
            && forall t :: t in k'.threads ==>
                 k'.threads[t] == if t == next then k.threads[t].(status := RUNNING) else k.threads[t]
  {
    hide Inv, Without, Linked;
    RunningParts(k, ow);
    WithoutAbsent(k.ready, k.cur);
  }
}
