/** The properties of fork, exit and wait, for every state that any run reaches. */
module ProcessTheorems {
  import opened Basics
  import opened Bitmaps
  import opened Processes
  import opened ProcessSafety

  /** The machine stops only for want of pids or because a process without a parent
  exits: sys_exit never looks up a parent that is gone, and no list ASSERT fires. */
  lemma StopsOnlyWhenFatal(k0: State, run: seq<Step>, p: Pid, a: Action)
    requires Init(k0) && Legal(k0, run) && Enabled(Exec(k0, run), p, a)
    ensures Apply(Exec(k0, run), p, a).panicked <==> Fatal(Exec(k0, run), p, a)
  {
    hide Inv, Apply, Fatal, Init;
    InitOk(k0);
    RunOk(k0, run);
    StepOk(Exec(k0, run), p, a);
  }

  /** Registered pids are distinct; a pid is free to be taken again exactly when it is
  neither registered, nor on its way in or out, nor lost in a failed fork. */
  lemma PidsAccountedFor(k0: State, run: seq<Step>)
    requires Init(k0) && Legal(k0, run) && !Exec(k0, run).panicked
    ensures var k := Exec(k0, run);
            && NoDup(k.all) && (forall p :: p in k.all <==> p in k.procs)
            && BitsMatch(k) && OneUse(k)
  {
    hide BitsMatch, OneUse;
    InitOk(k0);
    RunOk(k0, run);
  }

  /** Every parent is a registered process that has not begun to exit. */
  lemma ParentsExist(k0: State, run: seq<Step>, p: Pid)
    requires Init(k0) && Legal(k0, run) && !Exec(k0, run).panicked && p in Exec(k0, run).procs
    ensures var k := Exec(k0, run); ParentOk(k.procs, p)
    ensures var k := Exec(k0, run); Leaving(k.procs[p]) ==> k.procs[p].parent != NO_PARENT
  {
    hide ParentOk;
    InitOk(k0);
    RunOk(k0, run);
  }

  /** A process other than init never waits while a child is ready to be reaped, and
  never waits without a child. */
  lemma NobodyOversleeps(k0: State, run: seq<Step>, p: Pid)
    requires Init(k0) && Legal(k0, run) && !Exec(k0, run).panicked && p != INIT
    ensures !Overslept(Exec(k0, run), p)
    ensures var k := Exec(k0, run);
            p in k.procs && k.procs[p].status == Waiting ==> exists c :: IsChild(k.procs, p, c) && k.procs[c].status != Hanging
  {
    InitOk(k0);
    RunOk(k0, run);
    var k := Exec(k0, run);
    assert !Overslept(k, p);
    if p in k.procs && k.procs[p].status == Waiting {
      var c :| IsChild(k.procs, p, c);
      assert k.procs[c].status != Hanging;
    }
  }

  /** init begins to oversleep exactly by adopting a child that has already exited. */
  lemma InitOversleepsByAdoption(k: State, p: Pid, a: Action)
    requires Inv(k) && Enabled(k, p, a) && !Fatal(k, p, a) && !Overslept(k, INIT)
    ensures Overslept(Apply(k, p, a), INIT) <==>
              a.Exit? && k.procs[INIT].status == Waiting && exists c :: IsChild(k.procs, p, c) && k.procs[c].status == Hanging
  {
    var k' := Apply(k, p, a);
    StepOk(k, p, a);
    if a.Exit? {
      AdoptionOversleeps(k, p, a.value);
    } else if Overslept(k', INIT) {
      OtherStepsDont(k, p, a);
    }
  }

  lemma AdoptionOversleeps(k: State, p: Pid, value: int)
    requires Inv(k) && Enabled(k, p, Exit(value)) && k.procs[p].parent != NO_PARENT && !Overslept(k, INIT)
    ensures Overslept(ExitStep(k, p, value), INIT) <==>
              k.procs[INIT].status == Waiting && exists c :: IsChild(k.procs, p, c) && k.procs[c].status == Hanging
  {
    hide UidsOk, PendingOk, LogOk, PidsExact, BlockedOk, NoneOversleeps;
    var k' := ExitStep(k, p, value);
    assert Exits(k, k', p, value);
    if c :| IsChild(k.procs, p, c) && k.procs[c].status == Hanging {
      ExitChildren(k, k', p, value, INIT, c);
      assert k'.procs[c].status == Hanging;
    }
    if c :| IsChild(k'.procs, INIT, c) && k'.procs[c].status == Hanging {
      ExitChildren(k, k', p, value, INIT, c);
    }
  }

  /** What init could oversleep after the step it could have overslept before. */
  ghost predicate NothingNew(k: State, k': State) {
    Overslept(k', INIT) ==> Overslept(k, INIT)
  }

  lemma MoveNothingNew(k: State, k': State, p: Pid)
    requires Moves(k, k', p)
    ensures NothingNew(k, k')
  {
    forall c | IsChild(k'.procs, INIT, c) ensures IsChild(k.procs, INIT, c) {
    }
  }

  lemma ForkNothingNew(k: State, p: Pid)
    requires p in k.procs && k.procs[p].phase.Forking? && k.procs[p].phase.child !in k.procs && INIT in k.procs
    ensures NothingNew(k, ForkDoneStep(k, p))
  {
    var k' := ForkDoneStep(k, p);
    forall c | IsChild(k'.procs, INIT, c) && k'.procs[c].status == Hanging ensures IsChild(k.procs, INIT, c) {
    }
  }

  lemma HangNothingNew(k: State, p: Pid)
    requires Family(k) && BlockedOk(k) && p in k.procs && k.procs[p].status == Alive && k.procs[p].phase == Exiting
    ensures NothingNew(k, HangStep(k, p))
  {
    HangsIs(k, p);
    var k' := HangStep(k, p);
    hide HangStep, Family, BlockedOk;
    forall c | IsChild(k'.procs, INIT, c) ensures IsChild(k.procs, INIT, c) {
    }
  }

  lemma WaitNothingNew(k: State, p: Pid)
    requires Registered(k) && Family(k) && p in k.procs && k.procs[p].status == Alive
    ensures NothingNew(k, WaitStep(k, p))
  {
    hide NoDup, Family, Leaving;
    var k' := WaitStep(k, p);
    forall c | IsChild(k'.procs, INIT, c) ensures IsChild(k.procs, INIT, c) {
    }
  }

  lemma OtherStepsDont(k: State, p: Pid, a: Action)
    requires Inv(k) && Enabled(k, p, a) && !Fatal(k, p, a) && !Overslept(k, INIT) && !a.Exit?
    ensures !Overslept(Apply(k, p, a), INIT)
  {
    hide Overslept, HangStep, WaitStep, ForkDoneStep, UidsOk, PendingOk, LogOk, BitsMatch, Family, BlockedOk, NoneOversleeps;
    match a
    case ForkPid =>
      NoPidLeft(k.bits);
      MoveNothingNew(k, Apply(k, p, a), p);
    case ForkFail => MoveNothingNew(k, Apply(k, p, a), p);
    case ForkDone =>
      assert Hand(k.procs[p]).Some?;
      ForkNothingNew(k, p);
    case Exit(_) =>
    case Hang => HangNothingNew(k, p);
    case Wait => WaitNothingNew(k, p);
    case Release =>
      assert Hand(k.procs[p]).Some?;
      MoveNothingNew(k, Apply(k, p, a), p);
  }

  /** No exit status is reported twice, none is reported that was not given to exit, and
  what sys_wait reports is the value given to exit, cut to a signed byte. */
  lemma DeliveredOnce(k0: State, run: seq<Step>, j: nat)
    requires Init(k0) && Legal(k0, run) && !Exec(k0, run).panicked
    requires j < |Exec(k0, run).log| && Exec(k0, run).log[j].Delivered?
    ensures var log := Exec(k0, run).log;
            && (exists i :: 0 <= i < j && log[i].Exited? && log[i].uid == log[j].uid && log[j].value == Int8(log[i].value))
            && (forall i :: 0 <= i < |log| && i != j && log[i].Delivered? ==> log[i].uid != log[j].uid)
  {
    InitOk(k0);
    RunOk(k0, run);
  }

  /** In state `k`, process `p` has a child that hangs with what `e` reports. */
  ghost predicate Reports(k: State, p: Pid, e: Event) {
    && p in k.procs
    && exists c :: && IsChild(k.procs, p, c) && k.procs[c].status == Hanging
                   && e == Delivered(k.procs[c].uid, k.procs[c].exitStatus, k.procs[p].uid)
  }

  lemma ReportStep(k: State, p: Pid, a: Action, e: Event)
    requires Inv(k) && Enabled(k, p, a) && e.Delivered? && e !in k.log && e in Apply(k, p, a).log
    ensures a == Wait && Reports(k, p, e)
  {
    hide PidsExact, UidsOk, PendingOk, LogOk, NoneOversleeps, BlockedOk, Family;
    if a == Wait {
      var c := FirstChild(k.all, k.procs, p, true);
      assert c.Some? && IsChild(k.procs, p, c.value);
    }
  }

  lemma {:induction false} ReportRun(k: State, run: seq<Step>, e: Event) returns (n: nat)
    requires Inv(k) && Legal(k, run) && !Exec(k, run).panicked && e.Delivered? && e !in k.log && e in Exec(k, run).log
    ensures n < |run| && Legal(k, run[..n]) && run[n].a == Wait && Reports(Exec(k, run[..n]), run[n].p, e)
    decreases |run|
  {
    hide Inv, Apply, Enabled, Reports;
    var k1 := Apply(k, run[0].p, run[0].a);
    if e in k1.log {
      ReportStep(k, run[0].p, run[0].a, e);
      n := 0;
      assert run[..0] == [];
    } else {
      StepOk(k, run[0].p, run[0].a);
      if k1.panicked {
        StuckWhenPanicked(k1, run[1..]);
      }
      var i := ReportRun(k1, run[1..], e);
      n := i + 1;
      assert run[..n][0] == run[0] && run[..n][1..] == run[1..][..i];
    }
  }

  /** Every status that was delivered went to the process that was the parent of the exited
  one at that point of the run. */
  lemma DeliveredToParent(k0: State, run: seq<Step>, e: Event) returns (n: nat)
    requires Init(k0) && Legal(k0, run) && !Exec(k0, run).panicked && e.Delivered? && e in Exec(k0, run).log
    ensures n < |run| && Legal(k0, run[..n]) && run[n].a == Wait
    ensures var k := Exec(k0, run[..n]); var p := run[n].p;
            && p in k.procs
            && exists c :: && IsChild(k.procs, p, c) && k.procs[c].status == Hanging
                           && e == Delivered(k.procs[c].uid, k.procs[c].exitStatus, k.procs[p].uid)
  {
    InitOk(k0);
    assert k0.log == [];
    n := ReportRun(k0, run, e);
  }

  /** A process that exited and was not reaped is still registered, with its status. */
  lemma NoStatusIsLost(k0: State, run: seq<Step>, p: Pid)
    requires Init(k0) && Legal(k0, run) && !Exec(k0, run).panicked
    requires p in Exec(k0, run).procs && Exec(k0, run).procs[p].status == Hanging
    ensures var k := Exec(k0, run);
            && (exists i :: && 0 <= i < |k.log| && k.log[i].Exited? && k.log[i].uid == k.procs[p].uid
                            && k.procs[p].exitStatus == Int8(k.log[i].value))
            && (forall i :: 0 <= i < |k.log| && k.log[i].Delivered? ==> k.log[i].uid != k.procs[p].uid)
  {
    InitOk(k0);
    RunOk(k0, run);
    var k := Exec(k0, run);
    assert Leaving(k.procs[p]);
    var e :| e in k.log && e.uid == k.procs[p].uid;
    var i :| 0 <= i < |k.log| && k.log[i] == e;
    forall i | 0 <= i < |k.log| && k.log[i].uid == k.procs[p].uid ensures k.log[i].Exited? {
      assert k.log[i] in k.log;
    }
  }

  // ---------------------------------------------------------------------------
  // init does oversleep
  // ---------------------------------------------------------------------------

  lemma {:induction false} Then(k: State, run: seq<Step>, s: Step)
    requires Legal(k, run) && Enabled(Exec(k, run), s.p, s.a)
    ensures Legal(k, run + [s]) && Exec(k, run + [s]) == Apply(Exec(k, run), s.p, s.a)
    decreases |run|
  {
    hide Enabled, Apply;
    if run == [] {
      assert run + [s] == [s];
      assert [s][1..] == [];
    } else {
      Then(Apply(k, run[0].p, run[0].a), run[1..], s);
      assert (run + [s])[1..] == run[1..] + [s];
    }
  }

  /** init forked 2, 2 forked 3, and 3 has exited; init waits for 2, which is alive. */
  function Grandchild(): State {
    State(map[1 := Proc(-1, Waiting, Run, 0, 0), 2 := Proc(1, Alive, Run, 0, 1), 3 := Proc(2, Hanging, Run, 7, 2)],
          [1, 2, 3], [true, true, true], {}, 3, [Exited(2, 7)], false)
  }

  function Start(): State {
    State(map[1 := Proc(-1, Alive, Run, 0, 0)], [1], [true, false, false], {}, 1, [], false)
  }

  function TwoForks(): State {
    State(map[1 := Proc(-1, Alive, Run, 0, 0), 2 := Proc(1, Alive, Run, 0, 1), 3 := Proc(2, Alive, Run, 0, 2)],
          [1, 2, 3], [true, true, true], {}, 3, [], false)
  }

  /** init has forked once. */
  function OneFork(phase: Phase, bits: seq<bool>): State {
    State(map[1 := Proc(-1, Alive, Run, 0, 0), 2 := Proc(1, Alive, phase, 0, 1)], [1, 2], bits, {}, 2, [], false)
  }

  function Forking1(): State {
    Start().(procs := map[1 := Proc(-1, Alive, Forking(2), 0, 0)], bits := [true, true, false])
  }

  lemma FirstForks()
    ensures Init(Start()) && Enabled(Start(), 1, ForkPid) && Apply(Start(), 1, ForkPid) == Forking1()
    ensures Enabled(Forking1(), 1, ForkDone) && Apply(Forking1(), 1, ForkDone) == OneFork(Run, [true, true, false])
  {
    var k0 := Start();
    assert k0.bits[0] && !Clear(k0.bits, 0, 1) && Clear(k0.bits, 1, 1);
    assert Apply(k0, 1, ForkPid).procs == Forking1().procs;
    assert Apply(Forking1(), 1, ForkDone).procs == OneFork(Run, [true, true, false]).procs;
  }

  lemma SecondForks()
    ensures var k2 := OneFork(Run, [true, true, false]); var k3 := OneFork(Forking(3), [true, true, true]);
            && Enabled(k2, 2, ForkPid) && Apply(k2, 2, ForkPid) == k3
            && Enabled(k3, 2, ForkDone) && Apply(k3, 2, ForkDone) == TwoForks()
  {
    var k2, k3 := OneFork(Run, [true, true, false]), OneFork(Forking(3), [true, true, true]);
    assert k2.bits[0] && k2.bits[1] && !Clear(k2.bits, 0, 1) && !Clear(k2.bits, 1, 1) && Clear(k2.bits, 2, 1);
    assert Apply(k2, 2, ForkPid).procs == k3.procs;
    assert Apply(k3, 2, ForkDone).procs == TwoForks().procs;
  }

  lemma ReachTwoForks() returns (run: seq<Step>)
    ensures Init(Start()) && Legal(Start(), run) && Exec(Start(), run) == TwoForks()
  {
    FirstForks();
    SecondForks();
    Nothing(Start());
    hide *;
    Then(Start(), [], Step(1, ForkPid));
    Then(Start(), [] + [Step(1, ForkPid)], Step(1, ForkDone));
    run := [] + [Step(1, ForkPid)] + [Step(1, ForkDone)];
    Then(Start(), run, Step(2, ForkPid));
    Then(Start(), run + [Step(2, ForkPid)], Step(2, ForkDone));
    run := run + [Step(2, ForkPid)] + [Step(2, ForkDone)];
  }

  lemma Nothing(k: State)
    ensures Legal(k, []) && Exec(k, []) == k
  {
  }

  function Third(x: Proc, log: seq<Event>): State {
    TwoForks().(procs := TwoForks().procs[3 := x], log := log)
  }

  lemma ThirdExits()
    ensures var k5 := Third(Proc(2, Alive, Exiting, 7, 2), [Exited(2, 7)]);
            Enabled(TwoForks(), 3, Exit(7)) && Apply(TwoForks(), 3, Exit(7)) == k5
  {
    var k5 := Third(Proc(2, Alive, Exiting, 7, 2), [Exited(2, 7)]);
    assert Apply(TwoForks(), 3, Exit(7)).procs == k5.procs;
  }

  lemma ThirdHangs()
    ensures var k5 := Third(Proc(2, Alive, Exiting, 7, 2), [Exited(2, 7)]);
            Enabled(k5, 3, Hang) && Apply(k5, 3, Hang) == Third(Proc(2, Hanging, Run, 7, 2), [Exited(2, 7)])
  {
    var k5 := Third(Proc(2, Alive, Exiting, 7, 2), [Exited(2, 7)]);
    assert Apply(k5, 3, Hang).procs == Third(Proc(2, Hanging, Run, 7, 2), [Exited(2, 7)]).procs;
  }

  lemma FirstWaits()
    ensures var k6 := Third(Proc(2, Hanging, Run, 7, 2), [Exited(2, 7)]);
            Enabled(k6, 1, Wait) && Apply(k6, 1, Wait) == Grandchild()
  {
    var k6 := Third(Proc(2, Hanging, Run, 7, 2), [Exited(2, 7)]);
    assert FirstChild(k6.all, k6.procs, 1, true) == None;
    assert 2 in k6.all && IsChild(k6.procs, 1, 2);
    assert FirstChild(k6.all, k6.procs, 1, false).Some?;
    assert k6.procs[1] == Proc(-1, Alive, Run, 0, 0);
    assert WaitStep(k6, 1).procs == k6.procs[1 := Proc(-1, Waiting, Run, 0, 0)];
    assert k6.procs[1 := Proc(-1, Waiting, Run, 0, 0)] == Grandchild().procs;
  }

  lemma ReachGrandchild() returns (run: seq<Step>)
    ensures Legal(Start(), run) && Exec(Start(), run) == Grandchild()
  {
    hide *;
    run := ReachTwoForks();
    ThirdExits();
    ThirdHangs();
    FirstWaits();
    Then(Start(), run, Step(3, Exit(7)));
    Then(Start(), run + [Step(3, Exit(7))], Step(3, Hang));
    run := run + [Step(3, Exit(7))] + [Step(3, Hang)];
    Then(Start(), run, Step(1, Wait));
    run := run + [Step(1, Wait)];
  }

  /** A run in which init sleeps in sys_wait while an adopted child has already exited. */
  lemma InitCanOversleep() returns (run: seq<Step>)
    ensures Init(Start()) && Legal(Start(), run) && !Exec(Start(), run).panicked && Overslept(Exec(Start(), run), INIT)
  {
    hide *;
    run := ReachTwoForks();
    run := ReachGrandchild();
    SecondExits();
    Then(Start(), run, Step(2, Exit(0)));
    run := run + [Step(2, Exit(0))];
  }

  lemma SecondExits()
    ensures Enabled(Grandchild(), 2, Exit(0))
    ensures var k' := Apply(Grandchild(), 2, Exit(0)); !k'.panicked && Overslept(k', INIT)
  {
    var k' := Apply(Grandchild(), 2, Exit(0));
    assert IsChild(k'.procs, INIT, 3) && k'.procs[3].status == Hanging;
  }
}
