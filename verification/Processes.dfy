/** fork, exit and wait (userprog/fork.c, userprog/wait_exit.c, thread/thread.c) as steps of
a machine: each step is a stretch of code that no other process can interrupt, and any
process that is not blocked may take the next one. */
module Processes {
  import opened Basics
  import opened Bitmaps

  type Pid = nat

  const INIT: Pid := 1
  const NO_PARENT: int := -1

  /** READY and RUNNING are not told apart: either may run next. */
  datatype Status = Alive | Waiting | Hanging

  /** Where a process is between two stretches: in sys_fork after fork_pid, in sys_exit
  after its children were given to init, or in sys_wait before release_pid. */
  datatype Phase = Run | Forking(child: Pid) | Exiting | Releasing(child: Pid)

  /** `uid` tells apart processes that had the same pid one after the other. */
  datatype Proc = Proc(parent: int, status: Status, phase: Phase, exitStatus: int, uid: nat)

  /** What happened: sys_exit(value) of a process, sys_wait reporting it to another. */
  datatype Event = Exited(uid: nat, value: int) | Delivered(uid: nat, value: int, to: nat)

  /** `all` is thread_all_list; `lost` are the pids of failed forks, which nobody releases. */
  datatype State = State(
    procs: map<Pid, Proc>, all: seq<Pid>, bits: seq<bool>,
    lost: set<Pid>, next: nat, log: seq<Event>, panicked: bool)

  datatype Action =
    | ForkPid           // sys_fork up to fork_pid
    | ForkFail          // no page for the child's virtual bitmap
    | ForkDone          // the child enters the lists
    | Exit(value: int)  // sys_exit up to release_prog_resource
    | Hang              // the rest of sys_exit
    | Wait              // one iteration of sys_wait
    | Release           // release_pid, at the end of thread_exit

  /** Assignment to the int8_t exit_status. */
  function Int8(x: int): (r: int)
    ensures -128 <= r < 128 && (r - x) % 256 == 0
    ensures -128 <= x < 128 ==> r == x
  {
    (x + 128) % 256 - 128
  }

  /** list_traversal: the first process of the list with parent `p`, or the first such
  that is HANGING. */
  function FirstChild(all: seq<Pid>, procs: map<Pid, Proc>, p: Pid, hanging: bool): (r: Option<Pid>)
    requires forall q :: q in all ==> q in procs
    ensures r.Some? ==> r.value in all && IsChild(procs, p, r.value) && (hanging ==> procs[r.value].status == Hanging)
    ensures r == None ==> forall q :: q in all && IsChild(procs, p, q) ==> hanging && procs[q].status != Hanging
  {
    if all == [] then None
    else if IsChild(procs, p, all[0]) && (hanging ==> procs[all[0]].status == Hanging) then Some(all[0])
    else
      var r := FirstChild(all[1..], procs, p, hanging);
      assert forall q :: q in all ==> q == all[0] || q in all[1..];
      r
  }

  predicate IsChild(procs: map<Pid, Proc>, p: Pid, q: Pid) {
    q in procs && procs[q].parent == p
  }

  /** init_adopt_a_child on the whole list. */
  function Adopted(procs: map<Pid, Proc>, p: Pid): map<Pid, Proc> {
    map q | q in procs :: if procs[q].parent == p then procs[q].(parent := INIT) else procs[q]
  }

  function SetPhase(k: State, p: Pid, ph: Phase): State
    requires p in k.procs
  {
    k.(procs := k.procs[p := k.procs[p].(phase := ph)])
  }

  /** Only the code's own conditions: a process that is not blocked continues where it is;
  init never calls exit. */
  predicate Enabled(k: State, p: Pid, a: Action) {
    && !k.panicked && p in k.procs && k.procs[p].status == Alive
    && match a
       case ForkPid => k.procs[p].phase == Run
       case ForkFail => k.procs[p].phase.Forking?
       case ForkDone => k.procs[p].phase.Forking?
       case Exit(_) => k.procs[p].phase == Run && p != INIT
       case Hang => k.procs[p].phase == Exiting
       case Wait => k.procs[p].phase == Run && forall q :: q in k.all ==> q in k.procs
       case Release => k.procs[p].phase.Releasing?
  }

  /** allocate_pid; the ASSERT of bitmap_scan fails when all pids are in use. */
  function ForkPidStep(k: State, p: Pid): State
    requires p in k.procs
  {
    match FirstFit(k.bits, 1)
    case None => k.(panicked := true)
    case Some(i) => SetPhase(k, p, Forking(i + 1)).(bits := k.bits[i := true])
  }

  function ForkDoneStep(k: State, p: Pid): State
    requires p in k.procs && k.procs[p].phase.Forking?
  {
    var child := k.procs[p].phase.child;
    var k1 := SetPhase(k, p, Run);
    if child in k.all then k.(panicked := true)
    else k1.(procs := k1.procs[child := Proc(p, Alive, Run, 0, k.next)], all := k.all + [child], next := k.next + 1)
  }

  function ExitStep(k: State, p: Pid, value: int): State
    requires p in k.procs
  {
    if k.procs[p].parent == NO_PARENT then k.(panicked := true)
    else
      var me := k.procs[p].(exitStatus := Int8(value), phase := Exiting);
      k.(procs := Adopted(k.procs[p := me], p), log := k.log + [Exited(me.uid, value)])
  }

  /** A parent that pid2thread does not find would be a null dereference. */
  function HangStep(k: State, p: Pid): State
    requires p in k.procs
  {
    var q := k.procs[p].parent;
    if q < 0 || q !in k.procs then k.(panicked := true)
    else
      var k1 := if k.procs[q].status == Waiting then k.(procs := k.procs[q := k.procs[q].(status := Alive)]) else k;
      k1.(procs := k1.procs[p := k1.procs[p].(status := Hanging, phase := Run)])
  }

  function WaitStep(k: State, p: Pid): State
    requires p in k.procs && forall q :: q in k.all ==> q in k.procs
  {
    match FirstChild(k.all, k.procs, p, true)
    case Some(c) =>
      var child := k.procs[c];
      var k1 := k.(procs := k.procs - {c}, all := Without<Pid>(k.all, c));
      var me := k.procs[p].(phase := Releasing(c));
      k1.(procs := k1.procs[p := me], log := k.log + [Delivered(child.uid, child.exitStatus, me.uid)])
    case None =>
      if FirstChild(k.all, k.procs, p, false) == None then k  // returns -1
      else k.(procs := k.procs[p := k.procs[p].(status := Waiting)])
  }

  function ReleaseStep(k: State, p: Pid): State
    requires p in k.procs && k.procs[p].phase.Releasing?
  {
    var c := k.procs[p].phase.child;
    if 1 <= c <= |k.bits| then SetPhase(k, p, Run).(bits := k.bits[c - 1 := false])
    else k.(panicked := true)
  }

  function Apply(k: State, p: Pid, a: Action): State
    requires Enabled(k, p, a)
  {
    match a
    case ForkPid => ForkPidStep(k, p)
    case ForkFail => SetPhase(k, p, Run).(lost := k.lost + {k.procs[p].phase.child})
    case ForkDone => ForkDoneStep(k, p)
    case Exit(value) => ExitStep(k, p, value)
    case Hang => HangStep(k, p)
    case Wait => WaitStep(k, p)
    case Release => ReleaseStep(k, p)
  }

  /** After start-up: init and kernel threads, none with a parent. */
  ghost predicate Init(k: State) {
    && INIT in k.procs && k.lost == {} && k.log == [] && !k.panicked
    && NoDup(k.all) && (forall p :: p in k.all <==> p in k.procs)
    && (forall i :: 0 <= i < |k.bits| ==> (k.bits[i] <==> i + 1 in k.procs))
    && (forall p :: p in k.procs ==>
          && 1 <= p <= |k.bits| && k.procs[p].parent == NO_PARENT
          && k.procs[p].status == Alive && k.procs[p].phase == Run && k.procs[p].uid < k.next)
    && (forall p, q :: p in k.procs && q in k.procs && k.procs[p].uid == k.procs[q].uid ==> p == q)
  }

  datatype Step = Step(p: Pid, a: Action)

  predicate Legal(k: State, run: seq<Step>)
    decreases |run|
  {
    run == [] || (Enabled(k, run[0].p, run[0].a) && Legal(Apply(k, run[0].p, run[0].a), run[1..]))
  }

  function Exec(k: State, run: seq<Step>): State
    requires Legal(k, run)
    decreases |run|
  {
    if run == [] then k else Exec(Apply(k, run[0].p, run[0].a), run[1..])
  }
}
