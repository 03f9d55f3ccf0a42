/** The intrusive doubly linked list of lib/kernel/list.c: links live inside the
elements, and a list consists of two sentinels. It refines a sequence of elements. */
module IntrusiveLists {
  import opened Basics

  /** `id` tells the structure the links are embedded in, which elem2entry computes. */
  class Elem {
    const id: nat
    var prev: Elem?
    var next: Elem?

    constructor (id: nat)
      ensures this.id == id && prev == null && next == null
    {
      this.id := id;
      prev, next := null, null;
    }
  }

  lemma SamePosition(s: seq<Elem>, i: nat, j: nat)
    requires NoDup(s) && i < |s| && j < |s| && s[i] == s[j]
    ensures i == j
  {
  }

  /** Following `next`, and backwards `prev`, visits exactly `s`. */
  ghost predicate Chained(s: seq<Elem>)
    reads s
  {
    forall i :: 0 <= i < |s| - 1 ==> s[i].next == s[i + 1] && s[i + 1].prev == s[i]
  }

  /** `s` with `e` put before its element number `at`. */
  function Inserted(s: seq<Elem>, at: nat, e: Elem): seq<Elem>
    requires at <= |s|
  {
    s[..at] + [e] + s[at..]
  }

  function Removed(s: seq<Elem>, at: nat): seq<Elem>
    requires at < |s|
  {
    s[..at] + s[at + 1..]
  }

  class List {
    const head: Elem
    const tail: Elem
    ghost var elems: seq<Elem>

    /** The whole chain, sentinels included. */
    ghost function Nodes(): seq<Elem>
      reads this
    {
      [head] + elems + [tail]
    }

    ghost predicate Valid()
      reads this, Nodes()
    {
      NoDup(Nodes()) && Chained(Nodes())
    }

    /** list_init */
    constructor ()
      ensures Valid() && elems == [] && fresh(head) && fresh(tail)
    {
      head := new Elem(0);
      tail := new Elem(0);
      elems := [];
      new;
      head.next := tail;
      tail.prev := head;
    }

    /** list_insert_before */
    method InsertBefore(before: Elem, e: Elem, ghost at: nat)
      requires Valid() && e !in Nodes()
      requires at <= |elems| && before == Nodes()[at + 1]
      modifies this`elems, e, before, Nodes()[at]
      ensures Valid() && elems == Inserted(old(elems), at, e)
    {
      ghost var nodes := Nodes();
      assert nodes[at] != before && before.prev == nodes[at] && nodes[at].next == before;
      before.prev.next := e;
      e.prev := before.prev;
      e.next := before;
      before.prev := e;
      elems := Inserted(elems, at, e);
      assert Nodes() == Inserted(nodes, at + 1, e);
      InsertChain(nodes, at + 1, e);
    }

    /** list_push */
    method Push(e: Elem)
      requires Valid() && e !in Nodes()
      modifies this`elems, e, head, Nodes()[1]
      ensures Valid() && elems == [e] + old(elems)
    {
      ghost var nodes := Nodes();
      assert head == nodes[0] && head.next == nodes[1];
      InsertBefore(head.next, e, 0);
    }

    /** list_append */
    method Append(e: Elem)
      requires Valid() && e !in Nodes()
      modifies this`elems, e, tail, Nodes()[|elems|]
      ensures Valid() && elems == old(elems) + [e]
    {
      assert tail == Nodes()[|elems| + 1];
      InsertBefore(tail, e, |elems|);
    }

    /** list_remove, which is given the element only */
    static method Remove(e: Elem, ghost list: List, ghost at: nat)
      requires list.Valid() && at < |list.elems| && e == list.elems[at]
      modifies list`elems, list.Nodes()[at], list.Nodes()[at + 2]
      ensures list.Valid() && list.elems == Removed(old(list.elems), at)
      ensures e.prev == old(e.prev) && e.next == old(e.next)
    {
      ghost var nodes := list.Nodes();
      assert e == nodes[at + 1];
      assert nodes[at].next == e && nodes[at + 1].next == nodes[at + 2] && e.prev == nodes[at];
      e.prev.next := e.next;
      e.next.prev := e.prev;
      list.elems := Removed(list.elems, at);
      assert list.Nodes() == Removed(nodes, at + 1);
      RemoveChain(nodes, at + 1);
    }

    /** list_pop */
    method Pop() returns (e: Elem)
      requires Valid() && elems != []
      modifies this`elems, head, Nodes()[2]
      ensures Valid() && e == old(elems)[0] && elems == old(elems)[1..]
    {
      ghost var nodes := Nodes();
      assert nodes[0].next == nodes[1] == elems[0];
      e := head.next;
      Remove(e, this, 0);
    }

    /** list_empty */
    method Empty() returns (r: bool)
      requires Valid()
      ensures r == (elems == [])
    {
      assert Nodes()[0].next == Nodes()[1];
      assert elems != [] ==> Nodes()[1] != Nodes()[|elems| + 1];
      r := head.next == tail;
    }

    /** elem_find */
    method Find(e: Elem) returns (r: bool)
      requires Valid()
      ensures r == (e in elems)
    {
      ghost var nodes := Nodes();
      assert head == nodes[0] && nodes[0].next == nodes[1];
      var x := head.next;
      ghost var i := 0;
      while x != tail
        invariant 0 <= i <= |elems| && x == nodes[i + 1]
        invariant e !in elems[..i]
        decreases |elems| - i
      {
        assert nodes[|elems| + 1] == tail;
        if x == e {
          return true;
        }
        assert nodes[i + 1].next == nodes[i + 2];
        x := x.next;
        i := i + 1;
      }
      SamePosition(nodes, i + 1, |elems| + 1);
      assert elems[..i] == elems;
      r := false;
    }

    /** list_len */
    method Length() returns (n: nat)
      requires Valid()
      ensures n == |elems|
    {
      ghost var nodes := Nodes();
      assert head == nodes[0] && nodes[0].next == nodes[1];
      var x := head.next;
      n := 0;
      while x != tail
        invariant 0 <= n <= |elems| && x == nodes[n + 1]
        decreases |elems| - n
      {
        assert nodes[|elems| + 1] == tail;
        assert nodes[n + 1].next == nodes[n + 2];
        n := n + 1;
        x := x.next;
      }
      SamePosition(nodes, n + 1, |elems| + 1);
    }

    /** list_traversal: the first element that satisfies the callback. */
    method Traverse(f: Elem -> bool) returns (r: Elem?)
      requires Valid()
      ensures r == null ==> forall e :: e in elems ==> !f(e)
      ensures r != null ==> exists i :: && 0 <= i < |elems| && r == elems[i] && f(elems[i])
                                        && forall j :: 0 <= j < i ==> !f(elems[j])
    {
      ghost var nodes := Nodes();
      assert head == nodes[0] && nodes[0].next == nodes[1];
      var x := head.next;
      ghost var i := 0;
      while x != tail
        invariant 0 <= i <= |elems| && x == nodes[i + 1]
        invariant forall j :: 0 <= j < i ==> !f(elems[j])
        decreases |elems| - i
      {
        assert nodes[|elems| + 1] == tail;
        assert i < |elems| && x == elems[i];
        if f(x) {
          return x;
        }
        assert nodes[i + 1].next == nodes[i + 2];
        x := x.next;
        i := i + 1;
      }
      SamePosition(nodes, i + 1, |elems| + 1);
      r := null;
    }
  }

  lemma InsertChain(s: seq<Elem>, at: nat, e: Elem)
    requires 0 < at < |s| && NoDup(s) && e !in s
    requires forall i :: 0 <= i < |s| - 1 && i != at - 1 ==> s[i].next == s[i + 1] && s[i + 1].prev == s[i]
    requires s[at - 1].next == e && e.prev == s[at - 1] && e.next == s[at] && s[at].prev == e
    ensures NoDup(Inserted(s, at, e)) && Chained(Inserted(s, at, e))
  {
    var r := Inserted(s, at, e);
    forall i | 0 <= i < |r| - 1 ensures r[i].next == r[i + 1] && r[i + 1].prev == r[i] {
      if i > at {
        assert s[i - 1].next == s[i] && s[i].prev == s[i - 1];
      }
    }
  }

  lemma RemoveChain(s: seq<Elem>, at: nat)
    requires 0 < at < |s| - 1 && NoDup(s)
    requires forall i :: 0 <= i < |s| - 1 && i != at - 1 && i != at ==> s[i].next == s[i + 1] && s[i + 1].prev == s[i]
    requires s[at - 1].next == s[at + 1] && s[at + 1].prev == s[at - 1]
    ensures NoDup(Removed(s, at)) && Chained(Removed(s, at))
  {
    var r := Removed(s, at);
    forall i | 0 <= i < |r| - 1 ensures r[i].next == r[i + 1] && r[i + 1].prev == r[i] {
      if i >= at {
        assert s[i + 1].next == s[i + 2] && s[i + 2].prev == s[i + 1];
      }
    }
  }

  predicate Apart(a: seq<Elem>, b: seq<Elem>) {
    forall i, j :: 0 <= i < |a| && 0 <= j < |b| ==> a[i] != b[j]
  }

  /** The queues of the kernel share one link per thread: sema_up moves the first waiter
  to the front of the ready list. Both lists stay well formed and apart. */
  method MoveFirst(from: List, to: List) returns (e: Elem)
    requires from.Valid() && to.Valid() && from != to && from.elems != []
    requires Apart(from.Nodes(), to.Nodes())
    modifies from`elems, to`elems, from.Nodes(), to.Nodes()
    ensures from.Valid() && to.Valid() && Apart(from.Nodes(), to.Nodes())
    ensures e == old(from.elems)[0] && from.elems == old(from.elems)[1..] && to.elems == [e] + old(to.elems)
  {
    ghost var a, b := from.Nodes(), to.Nodes();
    assert a[0] in a && a[2] in a && b[0] in b && b[1] in b;
    e := from.Pop();
    assert e == a[1] && e in a;
    ghost var a' := from.Nodes();
    assert a' == Removed(a, 1);
    assert e !in b && forall i :: 0 <= i < |a'| ==> a'[i] != e;
    to.Push(e);
    assert to.Nodes() == Inserted(b, 1, e);
  }
}
