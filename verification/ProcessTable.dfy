/** sys_exit and sys_wait as the code runs them: list traversals with callbacks, each
method proved to make exactly one step of the machine. */
module ProcessTables {
  import opened Basics
  import opened Bitmaps
  import opened Processes
  import opened ProcessSafety

  class ProcessTable {
    var procs: map<Pid, Proc>
    var all: seq<Pid>
    var bits: seq<bool>
    ghost var lost: set<Pid>
    ghost var next: nat
    ghost var log: seq<Event>

    ghost function Abs(): State
      reads this
    {
      State(procs, all, bits, lost, next, log, false)
    }

    /** list_traversal with find_child or find_hanging_child */
    method Traverse(p: Pid, hanging: bool) returns (r: Option<Pid>)
      requires forall q :: q in all ==> q in procs
      ensures r == FirstChild(all, procs, p, hanging)
    {
      var i := 0;
      assert all[0..] == all;
      while i < |all|
        invariant 0 <= i <= |all|
        invariant FirstChild(all, procs, p, hanging) == FirstChild(all[i..], procs, p, hanging)
      {
        var q := all[i];
        if procs[q].parent == p && (!hanging || procs[q].status == Hanging) {
          return Some(q);
        }
        assert all[i..][1..] == all[i + 1..];
        i := i + 1;
      }
      r := None;
    }

    /** list_traversal with init_adopt_a_child */
    method Adopt(p: Pid)
      requires forall q :: q in all <==> q in procs
      requires NoDup(all)
      modifies `procs
      ensures procs == Adopted(old(procs), p)
    {
      hide NoDup;
      var i := 0;
      while i < |all|
        invariant 0 <= i <= |all| && procs.Keys == old(procs).Keys
        invariant forall q :: q in procs ==>
                    procs[q] == if q in all[..i] && old(procs)[q].parent == p then old(procs)[q].(parent := INIT) else old(procs)[q]
      {
        var q := all[i];
        NextOf(all, i);
        if procs[q].parent == p {
          procs := procs[q := procs[q].(parent := INIT)];
        }
        i := i + 1;
      }
      assert all[..i] == all;
    }

    /** sys_exit up to release_prog_resource; a process without a parent is a PANIC. */
    method BeginExit(p: Pid, value: int)
      requires Inv(Abs()) && p in procs && procs[p].parent != NO_PARENT
      modifies `procs, `log
      ensures Abs() == ExitStep(old(Abs()), p, value)
    {
      hide Adopted;
      log := log + [Exited(procs[p].uid, value)];
      procs := procs[p := procs[p].(exitStatus := Int8(value), phase := Exiting)];
      Adopt(p);
    }

    /** The rest of sys_exit: the parent is found, woken if it waits, and the process
    hangs. */
    method EndExit(p: Pid)
      requires Inv(Abs()) && p in procs && procs[p].status == Alive && procs[p].phase == Exiting
      modifies `procs
      ensures Abs() == HangStep(old(Abs()), p)
    {
      hide PidsExact, UidsOk, PendingOk, LogOk, NoneOversleeps;
      HangsIs(Abs(), p);
      var q := procs[p].parent;
      assert q in procs;
      if procs[q].status == Waiting {
        procs := procs[q := procs[q].(status := Alive)];
      }
      procs := procs[p := procs[p].(status := Hanging, phase := Run)];
    }

    /** One iteration of sys_wait: `reaped` is the child and its status, `childless` the
    return of -1; otherwise the caller sleeps. */
    method WaitOnce(p: Pid) returns (reaped: Option<(Pid, int)>, childless: bool)
      requires Inv(Abs()) && p in procs && procs[p].status == Alive && procs[p].phase == Run
      modifies `procs, `all, `log
      ensures Abs() == WaitStep(old(Abs()), p)
      ensures childless <==> forall c :: !IsChild(old(procs), p, c)
      ensures reaped.Some? <==> exists c :: IsChild(old(procs), p, c) && old(procs)[c].status == Hanging
      ensures reaped.Some? ==>
                var (c, status) := reaped.value;
                && c in old(procs) && old(procs)[c].parent == p && old(procs)[c].status == Hanging
                && status == old(procs)[c].exitStatus && c !in procs
    {
      hide PidsExact, UidsOk, PendingOk, LogOk, NoneOversleeps, BlockedOk, Without, FirstChild;
      reaped, childless := None, false;
      var c := Traverse(p, true);
      if c.Some? {
        ghost var k := Abs();
        assert ParentOk(procs, c.value);
        reaped := Some((c.value, procs[c.value].exitStatus));
        log := log + [Delivered(procs[c.value].uid, procs[c.value].exitStatus, procs[p].uid)];
        all := Without<Pid>(all, c.value);
        procs := (procs - {c.value})[p := procs[p].(phase := Releasing(c.value))];
        return;
      }
      var child := Traverse(p, false);
      if child == None {
        childless := true;
      } else {
        procs := procs[p := procs[p].(status := Waiting)];
      }
    }
  }

  /** In a list without repetition the next element is a new one. */
  lemma NextOf(all: seq<Pid>, i: nat)
    requires NoDup(all) && i < |all|
    ensures all[i] !in all[..i] && all[..i + 1] == all[..i] + [all[i]]
  {
  }
}
