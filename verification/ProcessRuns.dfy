/** fork, exit and wait from call to return: a child that is reaped leaves nothing behind but
its exit status, and orphans go to init. */
module ProcessRuns {
  import opened Basics
  import opened Bitmaps
  import opened Processes
  import opened ProcessSafety

  /** `c` is the lowest pid that is not in use. */
  ghost predicate LowestPid(k: State, c: Pid) {
    c > 0 && IsFirstFit(k.bits, 1, c - 1)
  }

  /** `k` with one more process, number `c`, last in the list. */
  function Plus(k: State, c: Pid, x: Proc, log: seq<Event>): State
    requires 1 <= c <= |k.bits|
  {
    k.(procs := k.procs[c := x], all := k.all + [c], bits := k.bits[c - 1 := true], next := k.next + 1, log := log)
  }

  /** Process `p` may call fork and wait, and no child of it is ready to be reaped. */
  ghost predicate Able(k: State, p: Pid) {
    && Inv(k) && p in k.procs && k.procs[p].status == Alive && k.procs[p].phase == Run
    && forall q :: IsChild(k.procs, p, q) ==> k.procs[q].status != Hanging
  }

  /** A pid that is not in use is nobody's, and nobody's parent. */
  lemma NewPid(k: State, c: Pid)
    requires Inv(k) && LowestPid(k, c)
    ensures 1 <= c <= |k.bits| && !k.bits[c - 1] && FirstFit(k.bits, 1) == Some(c - 1)
    ensures c !in k.procs && c !in k.all && c != INIT && forall q :: q in k.procs ==> k.procs[q].parent != c
  {
    hide NoDup, BlockedOk, NoneOversleeps, UidsOk, LogOk, PendingOk;
    FirstFitUnique(k.bits, 1, c - 1);
    assert !k.bits[c - 1];
    forall q | q in k.procs ensures k.procs[q].parent != c {
      assert ParentOk(k.procs, q);
    }
  }

  lemma Ahead(k: State, k1: State, p: Pid, a: Action, run: seq<Step>)
    requires Enabled(k, p, a) && Apply(k, p, a) == k1 && Legal(k1, run)
    ensures Legal(k, [Step(p, a)] + run) && Exec(k, [Step(p, a)] + run) == Exec(k1, run)
  {
    hide Enabled, Apply;
    assert ([Step(p, a)] + run)[1..] == run;
  }

  function Newborn(k: State, p: Pid): Proc {
    Proc(p, Alive, Run, 0, k.next)
  }

  /** fork: the child has the caller as parent, the lowest free pid, and is last in the list. */
  lemma ChildForked(k: State, p: Pid, c: Pid, run: seq<Step>)
    requires Able(k, p) && LowestPid(k, c) && 1 <= c <= |k.bits| && Legal(Plus(k, c, Newborn(k, p), k.log), run)
    ensures var r := [Step(p, ForkPid)] + ([Step(p, ForkDone)] + run);
            Legal(k, r) && Exec(k, r) == Exec(Plus(k, c, Newborn(k, p), k.log), run)
  {
    hide Legal, Exec, Inv;
    NewPid(k, c);
    var k1 := SetPhase(k, p, Forking(c)).(bits := k.bits[c - 1 := true]);
    var k2 := Plus(k, c, Newborn(k, p), k.log);
    NotPanicked(k);
    assert Apply(k, p, ForkPid) == k1;
    assert k1.procs[p := k1.procs[p].(phase := Run)] == k.procs;
    assert Apply(k1, p, ForkDone) == k2;
    Ahead(k1, k2, p, ForkDone, run);
    Ahead(k, k1, p, ForkPid, [Step(p, ForkDone)] + run);
  }

  lemma NotPanicked(k: State)
    requires Inv(k)
    ensures !k.panicked
  {
  }

  /** exit of a child without children, while its parent has status `asleep` or not: the parent
  is awake afterwards, and the child hangs with the status cut to a byte. */
  lemma ChildExits(k: State, p: Pid, c: Pid, v: int, asleep: bool, run: seq<Step>)
    requires Able(k, p) && LowestPid(k, c) && 1 <= c <= |k.bits|
    requires Legal(Plus(k, c, Proc(p, Hanging, Run, Int8(v), k.next), k.log + [Exited(k.next, v)]), run)
    ensures var k0 := Plus(k.(procs := k.procs[p := k.procs[p].(status := if asleep then Waiting else Alive)]), c, Newborn(k, p), k.log);
            var r := [Step(c, Exit(v))] + ([Step(c, Hang)] + run);
            && Legal(k0, r)
            && Exec(k0, r) == Exec(Plus(k, c, Proc(p, Hanging, Run, Int8(v), k.next), k.log + [Exited(k.next, v)]), run)
  {
    hide Legal, Exec, Inv;
    NewPid(k, c);
    NotPanicked(k);
    var kp := k.(procs := k.procs[p := k.procs[p].(status := if asleep then Waiting else Alive)]);
    var log := k.log + [Exited(k.next, v)];
    var k0 := Plus(kp, c, Newborn(k, p), k.log);
    var k1 := Plus(kp, c, Proc(p, Alive, Exiting, Int8(v), k.next), log);
    var k2 := Plus(k, c, Proc(p, Hanging, Run, Int8(v), k.next), log);
    assert Adopted(k1.procs, c) == k1.procs;
    assert k0.procs[c := k1.procs[c]] == k1.procs;
    assert Apply(k0, c, Exit(v)) == k1;
    assert k1.procs[p].(status := Alive) == k.procs[p];
    assert k1.procs[p := k.procs[p]][c := k2.procs[c]] == k2.procs;
    assert k1.procs[c := k2.procs[c]][p := k.procs[p]] == k2.procs;
    assert Apply(k1, c, Hang) == k2;
    Ahead(k1, k2, c, Hang, run);
    Ahead(k0, k1, c, Exit(v), [Step(c, Hang)] + run);
  }

  /** wait with one hanging child: the child is gone and its pid free. */
  lemma ChildReaped(k: State, p: Pid, c: Pid, v: int, log: seq<Event>)
    requires Able(k, p) && LowestPid(k, c) && 1 <= c <= |k.bits|
    ensures var k0 := Plus(k, c, Proc(p, Hanging, Run, v, k.next), log);
            var r := [Step(p, Wait)] + ([Step(p, Release)] + []);
            && Legal(k0, r)
            && Exec(k0, r) == k.(next := k.next + 1, log := log + [Delivered(k.next, v, k.procs[p].uid)])
  {
    hide Inv, FirstChild, Without;
    NewPid(k, c);
    ListedAre(k);
    var k0 := Plus(k, c, Proc(p, Hanging, Run, v, k.next), log);
    OnlyHanging(k, k0, p, c);
    AppendedGone(k.all, c);
    var end := log + [Delivered(k.next, v, k.procs[p].uid)];
    var k1 := k.(procs := k.procs[p := k.procs[p].(phase := Releasing(c))], bits := k.bits[c - 1 := true], next := k.next + 1, log := end);
    assert k0.procs - {c} == k.procs;
    assert Apply(k0, p, Wait) == k1;
    var k2 := k.(next := k.next + 1, log := end);
    assert k.bits[c - 1 := true][c - 1 := false] == k.bits;
    assert k1.procs[p := k.procs[p]] == k.procs;
    assert Apply(k1, p, Release) == k2;
    Ahead(k1, k2, p, Release, []);
    Ahead(k0, k1, p, Wait, [Step(p, Release)] + []);
  }

  lemma ListedAre(k: State)
    requires Inv(k)
    ensures !k.panicked && forall q :: q in k.all <==> q in k.procs
  {
  }

  lemma OnlyHanging(k: State, k0: State, p: Pid, c: Pid)
    requires Able(k, p) && p != c && (forall q :: q in k.all <==> q in k.procs) && c !in k.procs
    requires k0.all == k.all + [c] && c in k0.procs && k0.procs == k.procs[c := k0.procs[c]]
    requires IsChild(k0.procs, p, c) && k0.procs[c].status == Hanging
    ensures (forall q :: q in k0.all ==> q in k0.procs) && FirstChild(k0.all, k0.procs, p, true) == Some(c)
  {
    hide Inv;
    assert forall q :: q in k0.all ==> q in k0.procs;
    var r := FirstChild(k0.all, k0.procs, p, true);
    assert c in k0.all;
    assert r.Some? && r.value != c ==> IsChild(k.procs, p, r.value);
  }

  lemma {:induction false} AppendedGone(all: seq<Pid>, c: Pid)
    requires c !in all
    ensures Without<Pid>(all + [c], c) == all
    decreases |all|
  {
    if all == [] {
      assert all + [c] == [c] && [c][1..] == [];
    } else {
      assert (all + [c])[1..] == all[1..] + [c];
      AppendedGone(all[1..], c);
      assert all == [all[0]] + all[1..];
    }
  }

  /** A child that is forked, exits and is waited for leaves the whole state as it was, but for
  the events: its parent got the low byte of the value it gave to exit. */
  lemma WaitUndoesFork(k: State, p: Pid, c: Pid, v: int)
    requires Able(k, p) && LowestPid(k, c)
    ensures var run := [Step(p, ForkPid), Step(p, ForkDone), Step(c, Exit(v)), Step(c, Hang), Step(p, Wait), Step(p, Release)];
            && Legal(k, run)
            && Exec(k, run) == k.(next := k.next + 1, log := k.log + [Exited(k.next, v), Delivered(k.next, Int8(v), k.procs[p].uid)])
  {
    hide Inv, Apply, Enabled, Able, LowestPid, Plus, Legal, Exec;
    BothAre(k, p, c);
    var log := k.log + [Exited(k.next, v)];
    var r3 := [Step(p, Wait)] + ([Step(p, Release)] + []);
    var r2 := [Step(c, Exit(v))] + ([Step(c, Hang)] + r3);
    ChildReaped(k, p, c, Int8(v), log);
    ChildExits(k, p, c, v, false, r3);
    assert k.procs[p := k.procs[p].(status := Alive)] == k.procs;
    ChildForked(k, p, c, r2);
    assert [Step(p, ForkPid)] + ([Step(p, ForkDone)] + r2)
        == [Step(p, ForkPid), Step(p, ForkDone), Step(c, Exit(v)), Step(c, Hang), Step(p, Wait), Step(p, Release)];
    assert log + [Delivered(k.next, Int8(v), k.procs[p].uid)] == k.log + [Exited(k.next, v), Delivered(k.next, Int8(v), k.procs[p].uid)];
  }

  lemma BothAre(k: State, p: Pid, c: Pid)
    requires Able(k, p) && LowestPid(k, c)
    ensures p in k.procs && k.procs[p].status == Alive && 1 <= c <= |k.bits|
  {
    hide Inv;
    NewPid(k, c);
  }

  /** So it does if the parent waits first: it sleeps, and the exit wakes it. */
  lemma WaitUndoesForkAsleep(k: State, p: Pid, c: Pid, v: int)
    requires Able(k, p) && LowestPid(k, c)
    ensures var run := [Step(p, ForkPid), Step(p, ForkDone), Step(p, Wait), Step(c, Exit(v)), Step(c, Hang), Step(p, Wait), Step(p, Release)];
            && Legal(k, run)
            && Exec(k, run) == k.(next := k.next + 1, log := k.log + [Exited(k.next, v), Delivered(k.next, Int8(v), k.procs[p].uid)])
  {
    hide Inv, Apply, Enabled, Able, LowestPid, Plus, Legal, Exec;
    BothAre(k, p, c);
    var log := k.log + [Exited(k.next, v)];
    var r3 := [Step(p, Wait)] + ([Step(p, Release)] + []);
    var r2 := [Step(c, Exit(v))] + ([Step(c, Hang)] + r3);
    ChildReaped(k, p, c, Int8(v), log);
    ChildExits(k, p, c, v, true, r3);
    FallsAsleep(k, p, c);
    var kp := k.(procs := k.procs[p := k.procs[p].(status := Waiting)]);
    Ahead(Plus(k, c, Newborn(k, p), k.log), Plus(kp, c, Newborn(k, p), k.log), p, Wait, r2);
    ChildForked(k, p, c, [Step(p, Wait)] + r2);
    assert [Step(p, ForkPid)] + ([Step(p, ForkDone)] + ([Step(p, Wait)] + r2))
        == [Step(p, ForkPid), Step(p, ForkDone), Step(p, Wait), Step(c, Exit(v)), Step(c, Hang), Step(p, Wait), Step(p, Release)];
    assert log + [Delivered(k.next, Int8(v), k.procs[p].uid)] == k.log + [Exited(k.next, v), Delivered(k.next, Int8(v), k.procs[p].uid)];
  }

  /** wait with a child, but none to be reaped. */
  lemma FallsAsleep(k: State, p: Pid, c: Pid)
    requires Able(k, p) && LowestPid(k, c) && 1 <= c <= |k.bits|
    ensures var kp := k.(procs := k.procs[p := k.procs[p].(status := Waiting)]);
            var k0 := Plus(k, c, Newborn(k, p), k.log);
            Enabled(k0, p, Wait) && Apply(k0, p, Wait) == Plus(kp, c, Newborn(k, p), k.log)
  {
    hide Inv, FirstChild;
    NewPid(k, c);
    ListedAre(k);
    var k0 := Plus(k, c, Newborn(k, p), k.log);
    assert forall q :: q in k0.all ==> q in k0.procs;
    assert c in k0.all && IsChild(k0.procs, p, c);
    forall q | IsChild(k0.procs, p, q) ensures k0.procs[q].status != Hanging {
      assert q != c ==> IsChild(k.procs, p, q);
    }
    assert k.procs[c := Newborn(k, p)][p := k.procs[p].(status := Waiting)] == k.procs[p := k.procs[p].(status := Waiting)][c := Newborn(k, p)];
  }

  /** A process that exits hands exactly its own children to init, and keeps the low byte of
  the value for whoever waits for it. */
  lemma OrphansGoToInit(k: State, p: Pid, v: int)
    requires Inv(k) && Enabled(k, p, Exit(v)) && k.procs[p].parent != NO_PARENT
    ensures var k' := Apply(k, p, Exit(v));
            && !k'.panicked && k'.procs.Keys == k.procs.Keys && k' == k.(procs := k'.procs, log := k'.log)
            && k'.procs[p].exitStatus == Int8(v) && Leaving(k'.procs[p]) && k'.procs[p].parent == k.procs[p].parent
            && forall q :: q in k.procs && q != p ==>
                 k'.procs[q] == k.procs[q].(parent := if k.procs[q].parent == p then INIT else k.procs[q].parent)
  {
    hide NoDup, PidsExact, UidsOk, LogOk, PendingOk, BlockedOk, NoneOversleeps;
    assert ParentOk(k.procs, p);
  }
}
