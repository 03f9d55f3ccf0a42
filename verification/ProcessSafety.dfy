/** What every run of fork, exit and wait keeps. */
module ProcessSafety {
  import opened Basics
  import opened Bitmaps
  import opened Processes

  // ---------------------------------------------------------------------------
  // The invariant
  // ---------------------------------------------------------------------------

  /** thread_all_list names each registered process once. */
  ghost predicate Registered(k: State) {
    && NoDup(k.all) && (forall p :: p in k.all <==> p in k.procs)
    && INIT in k.procs && k.procs[INIT].parent == NO_PARENT
    && k.procs[INIT].status != Hanging && k.procs[INIT].phase != Exiting
  }

  predicate Leaving(x: Proc) {
    x.status == Hanging || x.phase == Exiting
  }

  /** A parent is a registered process that has not started to exit. */
  ghost predicate ParentOk(procs: map<Pid, Proc>, p: Pid)
    requires p in procs
  {
    var q := procs[p].parent;
    q == NO_PARENT || (q >= 0 && q != p && q in procs && !Leaving(procs[q]))
  }

  ghost predicate Family(k: State) {
    forall p :: p in k.procs ==> ParentOk(k.procs, p)
  }

  /** The pid a process has taken and not registered, or unregistered and not given back. */
  function Hand(x: Proc): Option<Pid> {
    if x.phase.Forking? || x.phase.Releasing? then Some(x.phase.child) else None
  }

  ghost predicate InHand(procs: map<Pid, Proc>, c: Pid) {
    exists p :: p in procs && Hand(procs[p]) == Some(c)
  }

  /** A pid's bit is set exactly while the pid is registered, in somebody's hand or lost. */
  ghost predicate BitsMatch(k: State) {
    forall i: nat :: i < |k.bits| ==>
      (k.bits[i] <==> i + 1 in k.procs || i + 1 in k.lost || InHand(k.procs, i + 1))
  }

  /** It is only one of these, in one hand. */
  ghost predicate OneUse(k: State) {
    && (forall p :: p in k.procs ==> 1 <= p <= |k.bits| && p !in k.lost)
    && (forall p :: p in k.procs && Hand(k.procs[p]).Some? ==>
          var c := Hand(k.procs[p]).value; 1 <= c <= |k.bits| && c !in k.procs && c !in k.lost)
    && (forall p, q :: p in k.procs && q in k.procs && Hand(k.procs[p]).Some? && Hand(k.procs[p]) == Hand(k.procs[q]) ==> p == q)
  }

  ghost predicate PidsExact(k: State) {
    BitsMatch(k) && OneUse(k)
  }

  /** Blocked processes are in sys_wait with a child, or at the end of sys_exit. */
  ghost predicate BlockedOk(k: State) {
    && (forall p :: p in k.procs && k.procs[p].status != Alive ==> k.procs[p].phase == Run)
    && (forall p :: p in k.procs && Leaving(k.procs[p]) ==> k.procs[p].parent != NO_PARENT)
    && (forall p :: p in k.procs && k.procs[p].status == Waiting ==> exists c :: IsChild(k.procs, p, c))
  }

  /** A process waits although a child is ready to be reaped. */
  ghost predicate Overslept(k: State, p: Pid) {
    p in k.procs && k.procs[p].status == Waiting && exists c :: IsChild(k.procs, p, c) && k.procs[c].status == Hanging
  }

  ghost predicate NoneOversleeps(k: State) {
    forall p :: p != INIT ==> !Overslept(k, p)
  }

  ghost predicate UidsOk(k: State) {
    && (forall p :: p in k.procs ==> k.procs[p].uid < k.next)
    && (forall p, q :: p in k.procs && q in k.procs && k.procs[p].uid == k.procs[q].uid ==> p == q)
    && (forall e :: e in k.log ==> e.uid < k.next)
  }

  /** Exits and deliveries happen at most once per process, a delivery after the exit. */
  ghost predicate LogOk(log: seq<Event>) {
    && (forall i, j :: 0 <= i < j < |log| && log[i].uid == log[j].uid ==> log[i].Exited? && log[j].Delivered?)
    && (forall j :: 0 <= j < |log| && log[j].Delivered? ==>
          exists i :: 0 <= i < j && log[i].Exited? && log[i].uid == log[j].uid && log[j].value == Int8(log[i].value))
  }

  /** A process is logged exactly when it has started to exit, and its exit status is
  still to be delivered. */
  ghost predicate PendingOk(k: State) {
    && (forall p, e :: p in k.procs && e in k.log && e.uid == k.procs[p].uid ==>
          e.Exited? && Leaving(k.procs[p]) && k.procs[p].exitStatus == Int8(e.value))
    && (forall p :: p in k.procs && Leaving(k.procs[p]) ==> exists e :: e in k.log && e.uid == k.procs[p].uid)
  }

  ghost predicate Inv(k: State) {
    && !k.panicked && Registered(k) && Family(k) && PidsExact(k) && BlockedOk(k) && NoneOversleeps(k)
    && UidsOk(k) && LogOk(k.log) && PendingOk(k)
  }

  lemma InitOk(k: State)
    requires Init(k)
    ensures Inv(k)
  {
    forall c: nat ensures !InHand(k.procs, c) {
    }
  }

  // ---------------------------------------------------------------------------
  // Steps that only move one process along
  // ---------------------------------------------------------------------------

  /** Only the phase of `p` changed, and it is Run or fork's and wait's. */
  ghost predicate Moves(k: State, k': State, p: Pid) {
    && p in k.procs && p in k'.procs && k'.procs == k.procs[p := k.procs[p].(phase := k'.procs[p].phase)]
    && k'.all == k.all && k'.next == k.next && k'.log == k.log
    && k.procs[p].status == Alive && k.procs[p].phase != Exiting && k'.procs[p].phase != Exiting
  }

  lemma MoveFamily(k: State, k': State, p: Pid)
    requires Moves(k, k', p) && Registered(k) && Family(k)
    ensures Registered(k') && Family(k')
  {
    hide NoDup;
    assert k'.procs.Keys == k.procs.Keys;
    forall q | q in k'.procs ensures ParentOk(k'.procs, q) {
      assert ParentOk(k.procs, q);
    }
  }

  lemma MoveBlocked(k: State, k': State, p: Pid)
    requires Moves(k, k', p) && BlockedOk(k) && NoneOversleeps(k)
    ensures BlockedOk(k') && NoneOversleeps(k')
  {
    forall q, c ensures IsChild(k'.procs, q, c) <==> IsChild(k.procs, q, c) {
    }
    forall q | q in k'.procs && k'.procs[q].status == Waiting ensures exists c :: IsChild(k'.procs, q, c) {
      var c :| IsChild(k.procs, q, c);
      assert IsChild(k'.procs, q, c);
    }
    forall q | q != INIT ensures !Overslept(k', q) {
      assert !Overslept(k, q);
    }
  }

  lemma MoveKeeps(k: State, k': State, p: Pid)
    requires Moves(k, k', p) && Registered(k) && Family(k) && BlockedOk(k) && NoneOversleeps(k)
    ensures Registered(k') && Family(k') && BlockedOk(k') && NoneOversleeps(k')
  {
    hide Moves, Registered, Family, BlockedOk, NoneOversleeps;
    MoveFamily(k, k', p);
    MoveBlocked(k, k', p);
  }

  lemma MoveKeepsLog(k: State, k': State, p: Pid)
    requires Moves(k, k', p) && UidsOk(k) && PendingOk(k)
    ensures UidsOk(k') && PendingOk(k')
  {
  }

  lemma NoPidLeft(bits: seq<bool>)
    ensures FirstFit(bits, 1) == None <==> forall i :: 0 <= i < |bits| ==> bits[i]
    ensures FirstFit(bits, 1).Some? ==> FirstFit(bits, 1).value < |bits| && !bits[FirstFit(bits, 1).value]
  {
    if FirstFit(bits, 1) == None {
      forall i: nat | i < |bits| ensures bits[i] {
        assert !Clear(bits, i, 1);
      }
    } else {
      var i := FirstFit(bits, 1).value;
      assert Clear(bits, i, 1) && !bits[i];
    }
  }

  lemma ForkPidOk(k: State, p: Pid)
    requires Inv(k) && p in k.procs && k.procs[p].status == Alive && k.procs[p].phase == Run
    ensures var k' := ForkPidStep(k, p); k'.panicked || Inv(k')
    ensures ForkPidStep(k, p).panicked <==> forall i :: 0 <= i < |k.bits| ==> k.bits[i]
  {
    hide LogOk, FirstFit, BitsMatch, OneUse, Registered, Family, BlockedOk, NoneOversleeps, UidsOk, PendingOk;
    NoPidLeft(k.bits);
    var k' := ForkPidStep(k, p);
    if !k'.panicked {
      MoveKeeps(k, k', p);
      MoveKeepsLog(k, k', p);
      TakePid(k, k', p, FirstFit(k.bits, 1).value + 1);
    }
  }

  lemma TakePid(k: State, k': State, p: Pid, c: Pid)
    requires PidsExact(k) && p in k.procs && k.procs[p].phase == Run && 1 <= c <= |k.bits| && !k.bits[c - 1]
    requires k' == SetPhase(k, p, Forking(c)).(bits := k.bits[c - 1 := true])
    ensures PidsExact(k')
  {
    assert k'.procs.Keys == k.procs.Keys;
    assert Hand(k'.procs[p]) == Some(c);
    forall d: nat ensures InHand(k'.procs, d) <==> InHand(k.procs, d) || d == c {
      if InHand(k.procs, d) {
        var q :| q in k.procs && Hand(k.procs[q]) == Some(d);
        assert Hand(k'.procs[q]) == Some(d);
      }
      if q :| q in k'.procs && q != p && Hand(k'.procs[q]) == Some(d) {
        assert Hand(k.procs[q]) == Some(d);
      }
    }
  }

  /** `p` lets go of the pid in its hand, which is registered, lost or cleared instead. */
  ghost predicate LetsGo(k: State, k': State, p: Pid, c: Pid) {
    && p in k.procs && p in k'.procs && Hand(k.procs[p]) == Some(c) && Hand(k'.procs[p]) == None
    && (k'.procs.Keys == k.procs.Keys || k'.procs.Keys == k.procs.Keys + {c})
    && (forall q :: q in k'.procs && q != p && q != c ==> k'.procs[q] == k.procs[q])
    && (c in k'.procs && c != p ==> Hand(k'.procs[c]) == None)
    && (k'.lost == k.lost || (k'.lost == k.lost + {c} && c !in k'.procs))
    && |k'.bits| == |k.bits|
    && forall i: nat :: i < |k.bits| ==> k'.bits[i] == if i == c - 1 then c in k'.procs || c in k'.lost else k.bits[i]
  }

  lemma LetGoHands(k: State, k': State, p: Pid, c: Pid)
    requires OneUse(k) && LetsGo(k, k', p, c)
    ensures forall d: nat :: InHand(k'.procs, d) <==> InHand(k.procs, d) && d != c
  {
    forall d: nat ensures InHand(k'.procs, d) <==> InHand(k.procs, d) && d != c {
      if InHand(k.procs, d) && d != c {
        var q :| q in k.procs && Hand(k.procs[q]) == Some(d);
        assert q != p && q != c && Hand(k'.procs[q]) == Some(d);
      }
      if q :| q in k'.procs && Hand(k'.procs[q]) == Some(d) {
        assert q != p && q != c && Hand(k.procs[q]) == Some(d);
      }
    }
  }

  lemma LetGoPids(k: State, k': State, p: Pid, c: Pid)
    requires PidsExact(k) && LetsGo(k, k', p, c)
    ensures PidsExact(k')
  {
    LetGoHands(k, k', p, c);
    hide InHand;
  }

  lemma ForkFailOk(k: State, p: Pid)
    requires Inv(k) && p in k.procs && k.procs[p].status == Alive && k.procs[p].phase.Forking?
    ensures Inv(SetPhase(k, p, Run).(lost := k.lost + {k.procs[p].phase.child}))
  {
    hide LogOk, Registered, Family, BlockedOk, NoneOversleeps, UidsOk, PendingOk;
    var c := k.procs[p].phase.child;
    var k' := SetPhase(k, p, Run).(lost := k.lost + {c});
    assert Hand(k.procs[p]) == Some(c);
    assert InHand(k.procs, c);
    MoveKeeps(k, k', p);
    MoveKeepsLog(k, k', p);
    LetGoPids(k, k', p, c);
  }

  lemma ReleaseOk(k: State, p: Pid)
    requires Inv(k) && p in k.procs && k.procs[p].status == Alive && k.procs[p].phase.Releasing?
    ensures Inv(ReleaseStep(k, p))
  {
    hide LogOk, BitsMatch, Registered, Family, BlockedOk, NoneOversleeps, UidsOk, PendingOk;
    var c := k.procs[p].phase.child;
    assert Hand(k.procs[p]) == Some(c);
    var k' := ReleaseStep(k, p);
    MoveKeeps(k, k', p);
    MoveKeepsLog(k, k', p);
    LetGoPids(k, k', p, c);
  }

  // ---------------------------------------------------------------------------
  // The child enters the lists
  // ---------------------------------------------------------------------------

  ghost predicate Adds(k: State, k': State, p: Pid, c: Pid) {
    && p in k.procs && k.procs[p].status == Alive && k.procs[p].phase == Run && c !in k.procs && c != p
    && k' == k.(procs := k.procs[c := Proc(p, Alive, Run, 0, k.next)], all := k.all + [c], next := k.next + 1, bits := k'.bits)
  }

  lemma AddFamily(k: State, k': State, p: Pid, c: Pid)
    requires Adds(k, k', p, c) && Registered(k) && Family(k)
    ensures Registered(k') && Family(k')
  {
    assert forall q :: q in k'.all <==> q in k.all || q == c;
    assert c !in k.all;
    forall q | q in k'.procs ensures ParentOk(k'.procs, q) {
      assert q != c ==> ParentOk(k.procs, q);
    }
  }

  lemma AddBlocked(k: State, k': State, p: Pid, c: Pid)
    requires Adds(k, k', p, c) && BlockedOk(k) && NoneOversleeps(k)
    ensures BlockedOk(k') && NoneOversleeps(k')
  {
    forall q | q in k'.procs && k'.procs[q].status == Waiting ensures exists d :: IsChild(k'.procs, q, d) {
      var d :| IsChild(k.procs, q, d);
      assert IsChild(k'.procs, q, d);
    }
    forall q | q != INIT ensures !Overslept(k', q) {
      assert !Overslept(k, q);
      forall d | IsChild(k'.procs, q, d) && k'.procs[d].status == Hanging ensures IsChild(k.procs, q, d) {
      }
    }
  }

  lemma AddLog(k: State, k': State, p: Pid, c: Pid)
    requires Adds(k, k', p, c) && UidsOk(k) && PendingOk(k)
    ensures UidsOk(k') && PendingOk(k')
  {
  }

  lemma ForkDoneIs(k: State, p: Pid, c: Pid)
    requires PidsExact(k) && Registered(k) && p in k.procs && k.procs[p].status == Alive && k.procs[p].phase == Forking(c)
    ensures var k1 := SetPhase(k, p, Run); var k' := ForkDoneStep(k, p);
            && Moves(k, k1, p) && Adds(k1, k', p, c) && LetsGo(k, k', p, c)
            && k'.panicked == k.panicked && k'.log == k.log
  {
    hide NoDup;
    assert Hand(k.procs[p]) == Some(c);
    assert InHand(k.procs, c);
    assert c !in k.all;
  }

  lemma ForkDoneOk(k: State, p: Pid)
    requires Inv(k) && p in k.procs && k.procs[p].status == Alive && k.procs[p].phase.Forking?
    ensures Inv(ForkDoneStep(k, p))
  {
    hide LogOk, Family, BlockedOk, NoneOversleeps, UidsOk, PendingOk, Registered, PidsExact, Adds, LetsGo, Moves, ForkDoneStep;
    var c := k.procs[p].phase.child;
    ForkDoneIs(k, p, c);
    var k1 := SetPhase(k, p, Run);
    var k' := ForkDoneStep(k, p);
    MoveKeeps(k, k1, p);
    MoveKeepsLog(k, k1, p);
    AddFamily(k1, k', p, c);
    AddBlocked(k1, k', p, c);
    AddLog(k1, k', p, c);
    LetGoPids(k, k', p, c);
  }

  // ---------------------------------------------------------------------------
  // sys_exit
  // ---------------------------------------------------------------------------

  ghost predicate Exits(k: State, k': State, p: Pid, value: int) {
    && p in k.procs && k.procs[p].status == Alive && k.procs[p].phase == Run && p != INIT
    && k.procs[p].parent != NO_PARENT && k' == ExitStep(k, p, value)
  }

  lemma ExitFamily(k: State, k': State, p: Pid, value: int)
    requires Exits(k, k', p, value) && Registered(k) && Family(k)
    ensures Registered(k') && Family(k')
  {
    hide NoDup;
    assert k'.procs.Keys == k.procs.Keys;
    assert ParentOk(k.procs, p);
    forall q | q in k'.procs ensures ParentOk(k'.procs, q) {
      assert ParentOk(k.procs, q);
    }
  }

  lemma ExitChildren(k: State, k': State, p: Pid, value: int, q: Pid, c: Pid)
    requires Exits(k, k', p, value) && Family(k)
    ensures IsChild(k'.procs, q, c) <==> q != p && (IsChild(k.procs, q, c) || (q == INIT && IsChild(k.procs, p, c)))
  {
    assert ParentOk(k.procs, p);
  }

  lemma ExitBlocked(k: State, k': State, p: Pid, value: int)
    requires Exits(k, k', p, value) && Family(k) && BlockedOk(k) && NoneOversleeps(k)
    ensures BlockedOk(k') && NoneOversleeps(k')
  {
    forall q | q in k'.procs && k'.procs[q].status == Waiting ensures exists c :: IsChild(k'.procs, q, c) {
      var c :| IsChild(k.procs, q, c);
      ExitChildren(k, k', p, value, q, c);
    }
    forall q | q != INIT ensures !Overslept(k', q) {
      assert !Overslept(k, q);
      forall c | IsChild(k'.procs, q, c) && k'.procs[c].status == Hanging ensures IsChild(k.procs, q, c) {
        ExitChildren(k, k', p, value, q, c);
      }
    }
  }

  lemma ExitPids(k: State, k': State, p: Pid, value: int)
    requires Exits(k, k', p, value) && PidsExact(k)
    ensures PidsExact(k')
  {
    assert k'.procs.Keys == k.procs.Keys;
    forall q | q in k.procs ensures Hand(k'.procs[q]) == Hand(k.procs[q]) {
    }
    SameHands(k, k');
  }

  lemma SameHands(k: State, k': State)
    requires PidsExact(k) && k'.bits == k.bits && k'.lost == k.lost && k'.procs.Keys == k.procs.Keys
    requires forall q :: q in k.procs ==> Hand(k'.procs[q]) == Hand(k.procs[q])
    ensures PidsExact(k')
  {
    forall c: nat ensures InHand(k'.procs, c) <==> InHand(k.procs, c) {
    }
  }

  lemma LogGrows(log: seq<Event>, e: Event)
    requires LogOk(log)
    requires forall x :: x in log && x.uid == e.uid ==> x.Exited? && e.Delivered?
    requires e.Delivered? ==> exists x :: x in log && x.Exited? && x.uid == e.uid && e.value == Int8(x.value)
    ensures LogOk(log + [e])
  {
    var r := log + [e];
    forall j | 0 <= j < |r| && r[j].Delivered?
      ensures exists i :: 0 <= i < j && r[i].Exited? && r[i].uid == r[j].uid && r[j].value == Int8(r[i].value)
    {
      if j < |log| {
        assert log[j].Delivered?;
        var i :| 0 <= i < j && log[i].Exited? && log[i].uid == log[j].uid && log[j].value == Int8(log[i].value);
        assert r[i] == log[i];
      } else {
        var x :| x in log && x.Exited? && x.uid == e.uid && e.value == Int8(x.value);
        var i :| 0 <= i < |log| && log[i] == x;
        assert r[i] == x;
      }
    }
    forall i, j | 0 <= i < j < |r| && r[i].uid == r[j].uid ensures r[i].Exited? && r[j].Delivered? {
      assert r[i] == log[i];
      if j == |log| {
        assert log[i] in log;
      }
    }
  }

  /** What the log and the statuses show of a process that begins to exit. */
  ghost predicate ExitSeen(k: State, k': State, p: Pid, value: int) {
    && p in k.procs && !Leaving(k.procs[p]) && k'.procs.Keys == k.procs.Keys && k'.next == k.next
    && k'.log == k.log + [Exited(k.procs[p].uid, value)]
    && forall q :: q in k.procs ==>
         && k'.procs[q].uid == k.procs[q].uid && (Leaving(k'.procs[q]) <==> Leaving(k.procs[q]) || q == p)
         && k'.procs[q].exitStatus == if q == p then Int8(value) else k.procs[q].exitStatus
  }

  lemma ExitIsSeen(k: State, k': State, p: Pid, value: int)
    requires Exits(k, k', p, value)
    ensures ExitSeen(k, k', p, value)
  {
    hide Int8;
  }

  lemma ExitUids(k: State, k': State, p: Pid, value: int)
    requires ExitSeen(k, k', p, value) && UidsOk(k)
    ensures UidsOk(k')
  {
    hide Int8, Leaving;
  }

  lemma ExitPending(k: State, k': State, p: Pid, value: int)
    requires ExitSeen(k, k', p, value) && UidsOk(k) && PendingOk(k)
    ensures PendingOk(k')
  {
    hide Int8, Leaving;
    var e := Exited(k.procs[p].uid, value);
    assert forall x :: x in k'.log <==> x in k.log || x == e;
    forall q | q in k'.procs && Leaving(k'.procs[q]) ensures exists x :: x in k'.log && x.uid == k'.procs[q].uid {
      if q == p {
        assert e in k'.log;
      } else {
        var x :| x in k.log && x.uid == k.procs[q].uid;
        assert x in k'.log;
      }
    }
  }

  lemma ExitLog(k: State, k': State, p: Pid, value: int)
    requires Exits(k, k', p, value) && UidsOk(k) && LogOk(k.log) && PendingOk(k)
    ensures UidsOk(k') && LogOk(k'.log) && PendingOk(k')
  {
    hide LogOk, Int8, Exits, Leaving, UidsOk;
    ExitIsSeen(k, k', p, value);
    ExitUids(k, k', p, value);
    ExitPending(k, k', p, value);
    LogGrows(k.log, Exited(k.procs[p].uid, value));
  }

  lemma ExitOk(k: State, p: Pid, value: int)
    requires Inv(k) && p in k.procs && Exits(k, ExitStep(k, p, value), p, value)
    ensures Inv(ExitStep(k, p, value))
  {
    hide LogOk, Family, BlockedOk, NoneOversleeps, UidsOk, PendingOk, Registered, PidsExact, Exits;
    var k' := ExitStep(k, p, value);
    ExitFamily(k, k', p, value);
    ExitBlocked(k, k', p, value);
    ExitPids(k, k', p, value);
    ExitLog(k, k', p, value);
    ExitNoPanic(k, k', p, value);
  }

  lemma ExitNoPanic(k: State, k': State, p: Pid, value: int)
    requires Exits(k, k', p, value) && !k.panicked
    ensures !k'.panicked
  {
  }

  /** The rest of sys_exit: the parent exists; it is woken if it waits. */
  ghost predicate Hangs(k: State, k': State, p: Pid, q: Pid) {
    && p in k.procs && q in k.procs && q in k'.procs && p != q && k.procs[p].status == Alive && k.procs[p].phase == Exiting
    && k.procs[p].parent == q && !Leaving(k.procs[q])
    && k' == k.(procs := k.procs[q := k.procs[q].(status := k'.procs[q].status)][p := k.procs[p].(status := Hanging, phase := Run)])
    && k'.procs[q].status == if k.procs[q].status == Waiting then Alive else k.procs[q].status
  }

  lemma HangsIs(k: State, p: Pid)
    requires Family(k) && BlockedOk(k) && p in k.procs && k.procs[p].status == Alive && k.procs[p].phase == Exiting
    ensures var q := k.procs[p].parent; q >= 0 && Hangs(k, HangStep(k, p), p, q)
  {
    assert ParentOk(k.procs, p);
  }

  lemma HangFamily(k: State, k': State, p: Pid, q: Pid)
    requires Hangs(k, k', p, q) && Registered(k) && Family(k)
    ensures Registered(k') && Family(k')
  {
    hide NoDup;
    assert k'.procs.Keys == k.procs.Keys;
    forall r | r in k'.procs ensures ParentOk(k'.procs, r) {
      assert ParentOk(k.procs, r);
    }
  }

  lemma HangBlocked(k: State, k': State, p: Pid, q: Pid)
    requires Hangs(k, k', p, q) && BlockedOk(k) && NoneOversleeps(k)
    ensures BlockedOk(k') && NoneOversleeps(k')
  {
    forall r, c ensures IsChild(k'.procs, r, c) <==> IsChild(k.procs, r, c) {
    }
    forall r | r in k'.procs && k'.procs[r].status == Waiting ensures exists c :: IsChild(k'.procs, r, c) {
      var c :| IsChild(k.procs, r, c);
      assert IsChild(k'.procs, r, c);
    }
    forall r | r != INIT ensures !Overslept(k', r) {
      assert !Overslept(k, r);
    }
  }

  lemma HangRest(k: State, k': State, p: Pid, q: Pid)
    requires Hangs(k, k', p, q) && PidsExact(k) && UidsOk(k) && PendingOk(k)
    ensures PidsExact(k') && UidsOk(k') && PendingOk(k')
  {
    hide BitsMatch, OneUse;
    assert k'.procs.Keys == k.procs.Keys;
    forall r | r in k.procs ensures Hand(k'.procs[r]) == Hand(k.procs[r]) {
    }
    SameHands(k, k');
    forall r | r in k.procs
      ensures k'.procs[r].uid == k.procs[r].uid && k'.procs[r].exitStatus == k.procs[r].exitStatus
      ensures Leaving(k'.procs[r]) == Leaving(k.procs[r])
    {
    }
  }

  lemma HangOk(k: State, p: Pid)
    requires Inv(k) && p in k.procs && k.procs[p].status == Alive && k.procs[p].phase == Exiting
    ensures Inv(HangStep(k, p))
  {
    hide LogOk, Family, BlockedOk, NoneOversleeps, UidsOk, PendingOk, Registered, PidsExact;
    var k' := HangStep(k, p);
    HangsIs(k, p);
    var q := k.procs[p].parent;
    HangFamily(k, k', p, q);
    HangBlocked(k, k', p, q);
    HangRest(k, k', p, q);
  }

  // ---------------------------------------------------------------------------
  // sys_wait
  // ---------------------------------------------------------------------------

  ghost predicate Reaps(k: State, k': State, p: Pid, c: Pid) {
    && p in k.procs && c in k.procs && p != c && k.procs[p].status == Alive && k.procs[p].phase == Run
    && k.procs[c].parent == p && k.procs[c].status == Hanging
    && k' == k.(procs := (k.procs - {c})[p := k.procs[p].(phase := Releasing(c))], all := Without<Pid>(k.all, c),
                log := k.log + [Delivered(k.procs[c].uid, k.procs[c].exitStatus, k.procs[p].uid)])
  }

  lemma ReapFamily(k: State, k': State, p: Pid, c: Pid)
    requires Reaps(k, k', p, c) && Registered(k) && Family(k)
    ensures Registered(k') && Family(k')
  {
    hide NoDup;
    assert forall q :: q in k'.procs <==> q in k.procs && q != c;
    forall r | r in k'.procs ensures ParentOk(k'.procs, r) {
      assert ParentOk(k.procs, r);
    }
  }

  lemma ReapBlocked(k: State, k': State, p: Pid, c: Pid)
    requires Reaps(k, k', p, c) && BlockedOk(k) && NoneOversleeps(k)
    ensures BlockedOk(k') && NoneOversleeps(k')
  {
    forall r, d ensures IsChild(k'.procs, r, d) <==> IsChild(k.procs, r, d) && d != c {
    }
    forall r | r in k'.procs && k'.procs[r].status == Waiting ensures exists d :: IsChild(k'.procs, r, d) {
      var d :| IsChild(k.procs, r, d);
      assert IsChild(k'.procs, r, d);
    }
    forall r | r != INIT ensures !Overslept(k', r) {
      assert !Overslept(k, r);
    }
  }

  lemma ReapHands(k: State, k': State, p: Pid, c: Pid)
    requires Reaps(k, k', p, c) && BlockedOk(k)
    ensures forall d: nat :: InHand(k'.procs, d) <==> InHand(k.procs, d) || d == c
  {
    assert Hand(k'.procs[p]) == Some(c);
    forall d: nat ensures InHand(k'.procs, d) <==> InHand(k.procs, d) || d == c {
      if InHand(k.procs, d) {
        var q :| q in k.procs && Hand(k.procs[q]) == Some(d);
        assert q != p && q != c && Hand(k'.procs[q]) == Some(d);
      }
      if q :| q in k'.procs && q != p && Hand(k'.procs[q]) == Some(d) {
        assert Hand(k.procs[q]) == Some(d);
      }
    }
  }

  lemma ReapPids(k: State, k': State, p: Pid, c: Pid)
    requires Reaps(k, k', p, c) && BlockedOk(k) && PidsExact(k)
    ensures PidsExact(k')
  {
    hide InHand, BlockedOk;
    ReapHands(k, k', p, c);
    forall q | q in k'.procs && q != p ensures k'.procs[q] == k.procs[q] {
    }
  }

  lemma ReapLog(k: State, k': State, p: Pid, c: Pid)
    requires Reaps(k, k', p, c) && UidsOk(k) && LogOk(k.log) && PendingOk(k)
    ensures UidsOk(k') && LogOk(k'.log) && PendingOk(k')
  {
    hide LogOk;
    var e := Delivered(k.procs[c].uid, k.procs[c].exitStatus, k.procs[p].uid);
    assert Leaving(k.procs[c]);
    LogGrows(k.log, e);
    assert forall x :: x in k'.log <==> x in k.log || x == e;
    forall q | q in k'.procs
      ensures q in k.procs && q != c && k'.procs[q].uid == k.procs[q].uid && k'.procs[q].exitStatus == k.procs[q].exitStatus
      ensures Leaving(k'.procs[q]) == Leaving(k.procs[q])
    {
    }
  }

  lemma ReapOk(k: State, k': State, p: Pid, c: Pid)
    requires Inv(k) && Reaps(k, k', p, c)
    ensures Inv(k')
  {
    hide LogOk, Family, BlockedOk, NoneOversleeps, UidsOk, PendingOk, Registered, PidsExact;
    ReapFamily(k, k', p, c);
    ReapBlocked(k, k', p, c);
    ReapPids(k, k', p, c);
    ReapLog(k, k', p, c);
  }

  ghost predicate Sleeps(k: State, k': State, p: Pid) {
    && p in k.procs && k.procs[p].status == Alive && k.procs[p].phase == Run
    && (exists c :: IsChild(k.procs, p, c))
    && (forall c :: IsChild(k.procs, p, c) ==> k.procs[c].status != Hanging)
    && k' == k.(procs := k.procs[p := k.procs[p].(status := Waiting)])
  }

  lemma SleepFamily(k: State, k': State, p: Pid)
    requires Sleeps(k, k', p) && Registered(k) && Family(k)
    ensures Registered(k') && Family(k')
  {
    hide NoDup;
    assert k'.procs.Keys == k.procs.Keys;
    forall r | r in k'.procs ensures ParentOk(k'.procs, r) {
      assert ParentOk(k.procs, r);
    }
  }

  lemma SleepBlocked(k: State, k': State, p: Pid)
    requires Sleeps(k, k', p) && BlockedOk(k) && NoneOversleeps(k)
    ensures BlockedOk(k') && NoneOversleeps(k')
  {
    forall r, c ensures IsChild(k'.procs, r, c) <==> IsChild(k.procs, r, c) {
    }
    forall r | r in k'.procs && k'.procs[r].status == Waiting ensures exists c :: IsChild(k'.procs, r, c) {
      var c :| IsChild(k.procs, r, c);
      assert IsChild(k'.procs, r, c);
    }
    forall r | r != INIT ensures !Overslept(k', r) {
      assert !Overslept(k, r);
    }
  }

  lemma SleepRest(k: State, k': State, p: Pid)
    requires Sleeps(k, k', p) && PidsExact(k) && UidsOk(k) && PendingOk(k)
    ensures PidsExact(k') && UidsOk(k') && PendingOk(k')
  {
    hide BitsMatch, OneUse;
    assert k'.procs.Keys == k.procs.Keys;
    forall r | r in k.procs ensures Hand(k'.procs[r]) == Hand(k.procs[r]) {
    }
    SameHands(k, k');
    forall r | r in k.procs
      ensures k'.procs[r].uid == k.procs[r].uid && k'.procs[r].exitStatus == k.procs[r].exitStatus
      ensures Leaving(k'.procs[r]) == Leaving(k.procs[r])
    {
    }
    hide PidsExact, Leaving;
  }

  lemma WaitOk(k: State, p: Pid)
    requires Inv(k) && p in k.procs && k.procs[p].status == Alive && k.procs[p].phase == Run
    ensures Inv(WaitStep(k, p))
  {
    hide LogOk, Family, BlockedOk, NoneOversleeps, UidsOk, PendingOk, PidsExact, NoDup;
    var k' := WaitStep(k, p);
    var r := FirstChild(k.all, k.procs, p, true);
    if r.Some? {
      ReapOk(k, k', p, r.value);
    } else if FirstChild(k.all, k.procs, p, false).Some? {
      assert IsChild(k.procs, p, FirstChild(k.all, k.procs, p, false).value);
      assert Sleeps(k, k', p);
      SleepFamily(k, k', p);
      SleepBlocked(k, k', p);
      SleepRest(k, k', p);
    }
  }

  // ---------------------------------------------------------------------------
  // Runs
  // ---------------------------------------------------------------------------

  /** The two ways a step can stop the machine, which a caller can see beforehand: all
  pids are in use, or a process without a parent calls exit. */
  ghost predicate Fatal(k: State, p: Pid, a: Action)
    requires p in k.procs
  {
    || (a == ForkPid && forall i :: 0 <= i < |k.bits| ==> k.bits[i])
    || (a.Exit? && k.procs[p].parent == NO_PARENT)
  }

  /** A step panics exactly when it is fatal; otherwise it keeps the invariant. In
  particular sys_exit always finds its parent. */
  lemma StepOk(k: State, p: Pid, a: Action)
    requires Inv(k) && Enabled(k, p, a)
    ensures Apply(k, p, a).panicked <==> Fatal(k, p, a)
    ensures !Fatal(k, p, a) ==> Inv(Apply(k, p, a))
  {
    hide LogOk, Family, BlockedOk, NoneOversleeps, UidsOk, PendingOk, Registered, PidsExact,
      HangStep, WaitStep, ForkDoneStep, ReleaseStep, ForkPidStep;
    match a
    case ForkPid => ForkPidOk(k, p);
    case ForkFail => ForkFailOk(k, p);
    case ForkDone => ForkDoneOk(k, p);
    case Exit(value) =>
      if !Fatal(k, p, a) {
        ExitOk(k, p, value);
      }
    case Hang => HangOk(k, p);
    case Wait => WaitOk(k, p);
    case Release => ReleaseOk(k, p);
  }

  lemma {:induction false} RunOk(k: State, run: seq<Step>)
    requires Inv(k) && Legal(k, run) && !Exec(k, run).panicked
    ensures Inv(Exec(k, run))
    decreases |run|
  {
    hide Inv, Apply, Enabled;
    if run != [] {
      var k1 := Apply(k, run[0].p, run[0].a);
      StepOk(k, run[0].p, run[0].a);
      if k1.panicked {
        StuckWhenPanicked(k1, run[1..]);
      } else {
        RunOk(k1, run[1..]);
      }
    }
  }

  lemma StuckWhenPanicked(k: State, run: seq<Step>)
    requires Legal(k, run) && k.panicked
    ensures Exec(k, run) == k
  {
  }
}
