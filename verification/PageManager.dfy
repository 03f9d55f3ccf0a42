/** The page allocator as the code runs it (kernel/memory.c, userprog/fork.c,
userprog/wait_exit.c): pools and tables updated in place, loop by loop, each method proved
to leave exactly the state the functions of Pages give. */
module PageManagers {
  import opened Basics
  import opened Bitmaps
  import opened Pages

  /** How a call ends; nothing is promised of the state after a failing ASSERT or after a
  write outside a bitmap. */
  datatype Result = Stopped | NoPages | At(v: nat)

  class PageManager {
    const kbase: nat
    const ubase: nat
    var kbits: seq<bool>
    var ubits: seq<bool>
    var spaces: map<Space, Tables>
    var page: map<nat, Page>

    function Abs(): Mem
      reads this
    {
      Mem(kbase, kbits, ubase, ubits, spaces, page)
    }

    /** palloc */
    method AllocFrame(user: bool) returns (r: Option<nat>)
      modifies `kbits, `ubits
      ensures match Palloc(old(Abs()), user)
              case None => r == None && Abs() == old(Abs())
              case Some((m, p)) => r == Some(p) && Abs() == m
    {
      var bit := FirstFit(if user then ubits else kbits, 1);
      if bit.None? {
        return None;
      }
      if user {
        ubits := ubits[bit.value := true];
        return Some(ubase + bit.value);
      } else {
        kbits := kbits[bit.value := true];
        return Some(kbase + bit.value);
      }
    }

    /** pfree, and free_a_phy_page, which is the same code */
    method FreeFrame(p: nat)
      requires InKernelPool(Abs(), p) || InUserPool(Abs(), p)
      requires kbase + |kbits| <= ubase
      modifies `kbits, `ubits
      ensures Abs() == Pfree(old(Abs()), p)
      ensures |kbits| == |old(kbits)| && |ubits| == |old(ubits)|
    {
      if p >= ubase {
        ubits := ubits[p - ubase := false];
      } else {
        kbits := kbits[p - kbase := false];
      }
    }

    /** page_table_add */
    method AddMapping(s: Space, v: nat, p: nat) returns (ok: bool)
      requires s in spaces
      modifies this
      ensures match TableAdd(old(Abs()), s, v, p)
              case None => !ok
              case Some(m) => ok && Abs() == m
      ensures ok ==> s in spaces
    {
      var t := spaces[s];
      if v / 1024 in t.dir {
        if v in t.pte {
          return false;
        }
        spaces := spaces[s := t.(pte := t.pte[v := p])];
      } else {
        var table := AllocFrame(false);
        if table.None? {
          return false;
        }
        var kept := map w | w in t.pte && w / 1024 != v / 1024 :: t.pte[w];
        spaces := spaces[s := t.(dir := t.dir[v / 1024 := table.value], pte := kept[v := p])];
      }
      ok := true;
    }

    /** The marking loops of vaddr_get and vaddr_remove. */
    method Mark(s: Space, i: nat, cnt: nat, value: bool)
      requires s in spaces && i + cnt <= |spaces[s].vbits|
      modifies `spaces
      ensures spaces == old(spaces)[s := old(spaces[s]).(vbits := SetRange(old(spaces[s].vbits), i, cnt, value))]
    {
      var n: nat := 0;
      while n < cnt
        invariant 0 <= n <= cnt && s in spaces
        invariant spaces == old(spaces)[s := spaces[s]]
        invariant spaces[s] == old(spaces[s]).(vbits := SetRange(old(spaces[s].vbits), i, n, value))
      {
        spaces := spaces[s := spaces[s].(vbits := spaces[s].vbits[i + n := value])];
        n := n + 1;
        assert spaces[s].vbits == SetRange(old(spaces[s].vbits), i, n, value);
      }
    }

    /** malloc_page, with vaddr_get; `beyond` is the bit the scan reads past the bitmap */
    method Allocate(s: Space, cnt: nat, beyond: bool) returns (r: Result)
      requires s in spaces
      modifies this
      ensures match MallocPage(old(Abs()), s, cnt, beyond)
              case Ok(m, v) => r == At(v) && Abs() == m
              case Null => r == NoPages && Abs() == old(Abs())
              case Panics => r == Stopped
              case Corrupts => r == Stopped
    {
      hide AddPages, ScanSpec, SetRange;
      if !(0 < cnt < 3840) {
        return Stopped;
      }
      var scan := ScanSpec(spaces[s].vbits, beyond, cnt);
      if scan.Panic? {
        return Stopped;
      }
      if scan.NotFound? {
        return NoPages;
      }
      var i := scan.start;
      if i + cnt > |spaces[s].vbits| {
        return Stopped;
      }
      Mark(s, i, cnt, true);
      var start := spaces[s].vstart + i;
      if s != KERNEL && start >= 0xc0000 - 1 {
        return Stopped;
      }
      var ok := MapPages(s, start, cnt);
      return if ok then At(start) else Stopped;
    }

    /** The mapping loop of malloc_page. */
    method MapPages(s: Space, start: nat, cnt: nat) returns (ok: bool)
      requires s in spaces
      modifies this
      ensures match AddPages(old(Abs()), s, start, cnt)
              case None => !ok
              case Some(m) => ok && Abs() == m
    {
      hide TableAdd, Palloc;
      var v: nat, left: nat := start, cnt;
      while left > 0
        invariant s in spaces && left <= cnt
        invariant AddPages(old(Abs()), s, start, cnt) == AddPages(Abs(), s, v, left)
      {
        var p := AllocFrame(s != KERNEL);
        if p.None? {
          return false;
        }
        var added := AddMapping(s, v, p.value);
        if !added {
          return false;
        }
        v, left := v + 1, left - 1;
      }
      ok := true;
    }

    /** mfree_page, with vaddr_remove */
    method Release(s: Space, start: nat, cnt: nat)
      requires Freeable(Abs(), s, start, cnt) && cnt >= 1
      requires spaces[s].vstart <= start && start + cnt <= spaces[s].vstart + |spaces[s].vbits|
      modifies this
      ensures Abs() == MfreePage(old(Abs()), s, start, cnt)
    {
      hide SetRange, Pfree, DropPages;
      var v: nat, n: nat := start, 0;
      DropKeepsTables(Abs(), s, start, cnt);
      while n < cnt
        invariant 0 <= n <= cnt && v == start + n
        invariant Freeable(Abs(), s, v, cnt - n)
        invariant DropPages(Abs(), s, v, cnt - n) == DropPages(old(Abs()), s, start, cnt)
      {
        assert v in spaces[s].pte;
        ghost var m := Abs();
        var t := spaces[s];
        FreeFrame(t.pte[v]);
        spaces := spaces[s := t.(pte := t.pte - {v})];
        DropOne(m, s, v, cnt - n);
        v, n := v + 1, n + 1;
      }
      DropNone(Abs(), s, v);
      Mark(s, start - spaces[s].vstart, cnt, false);
    }

    /** copy_body_stack3: bytes of the parent's virtual bitmap that are zero are skipped
    whole, the others bit by bit. */
    method CopyBody(child: Space, parent: Space) returns (ok: bool)
      requires child in spaces && parent in spaces && child != parent
      requires |spaces[parent].vbits| % 8 == 0
      modifies this
      ensures match CopyPages(old(Abs()), child, parent, 0)
              case None => !ok
              case Some(m) => ok && Abs() == m
    {
      hide TableAdd, Palloc, PageAt;
      var bytes, b := |spaces[parent].vbits| / 8, 0;
      while b < bytes
        invariant child in spaces && parent in spaces
        invariant 0 <= b <= bytes && |spaces[parent].vbits| == 8 * bytes
        invariant CopyPages(old(Abs()), child, parent, 0) == CopyPages(Abs(), child, parent, 8 * b)
      {
        if exists i :: 8 * b <= i < 8 * b + 8 && spaces[parent].vbits[i] {
          var bit := 0;
          while bit < 8
            invariant child in spaces && parent in spaces
            invariant 0 <= bit <= 8 && |spaces[parent].vbits| == 8 * bytes
            invariant CopyPages(old(Abs()), child, parent, 0) == CopyPages(Abs(), child, parent, 8 * b + bit)
          {
            if spaces[parent].vbits[8 * b + bit] {
              var copied := CopyOne(child, parent, spaces[parent].vstart + 8 * b + bit);
              if !copied {
                return false;
              }
            }
            bit := bit + 1;
          }
        } else {
          SkipClear(Abs(), child, parent, 8 * b, 8 * b + 8);
        }
        b := b + 1;
      }
      ok := true;
    }

    /** The body of the copying loop: through a kernel buffer, a new frame in the child. */
    method CopyOne(child: Space, parent: Space, v: nat) returns (ok: bool)
      requires child in spaces && parent in spaces && child != parent
      modifies this
      ensures ok ==> parent in spaces && child in spaces && spaces[parent] == old(spaces[parent])
      ensures ok <==> v in old(spaces[parent]).pte && Palloc(old(Abs()), true).Some?
                      && TableAdd(Palloc(old(Abs()), true).value.0, child, v, Palloc(old(Abs()), true).value.1).Some?
      ensures ok ==>
                var (m1, p) := Palloc(old(Abs()), true).value;
                var m2 := TableAdd(m1, child, v, p).value;
                Abs() == m2.(page := m2.page[p := PageAt(old(Abs()), old(spaces[parent]).pte[v])])
    {
      if v !in spaces[parent].pte {
        return false;
      }
      var buf := PageAt(Abs(), spaces[parent].pte[v]);
      var p := AllocFrame(true);
      if p.None? {
        return false;
      }
      ok := AddMapping(child, v, p.value);
      if ok {
        page := page[p.value := buf];
      }
    }

    /** The inner loop of release_prog_resource. */
    method ReleaseTable(s: Space, d: nat)
      requires InPools(Abs(), s)
      modifies `kbits, `ubits
      ensures Abs() == FreeTable(old(Abs()), s, d, 0)
    {
      hide Pfree;
      var e: nat := 0;
      while e < 1024
        invariant 0 <= e <= 1024 && InPools(Abs(), s)
        invariant FreeTable(old(Abs()), s, d, 0) == FreeTable(Abs(), s, d, e)
      {
        var v := d * 1024 + e;
        if v in spaces[s].pte {
          FreeFrame(spaces[s].pte[v]);
        }
        e := e + 1;
      }
    }

    /** The walk of release_prog_resource: every present entry of every present user table,
    then the table itself. */
    method ReleaseTables(s: Space)
      requires InPools(Abs(), s)
      modifies `kbits, `ubits
      ensures Abs() == FreeTables(old(Abs()), s, 0)
    {
      hide Pfree, FreeTable;
      var d: nat := 0;
      while d < 768
        invariant 0 <= d <= 768 && InPools(Abs(), s)
        invariant FreeTables(old(Abs()), s, 0) == FreeTables(Abs(), s, d)
      {
        if d in spaces[s].dir {
          ReleaseTable(s, d);
          FreeFrame(spaces[s].dir[d]);
        }
        d := d + 1;
      }
    }
  }

  lemma DropOne(m: Mem, s: Space, v: nat, cnt: nat)
    requires Freeable(m, s, v, cnt) && cnt > 0
    ensures v in m.spaces[s].pte
    ensures var m1 := SetSpace(Pfree(m, m.spaces[s].pte[v]), s, m.spaces[s].(pte := m.spaces[s].pte - {v}));
            Freeable(m1, s, v + 1, cnt - 1) && DropPages(m, s, v, cnt) == DropPages(m1, s, v + 1, cnt - 1)
  {
    hide SetRange;
    var t := m.spaces[s];
    assert v in t.pte;
    var m1 := SetSpace(Pfree(m, t.pte[v]), s, t.(pte := t.pte - {v}));
    assert forall w :: v + 1 <= w < v + cnt ==> w in t.pte && m1.spaces[s].pte[w] == t.pte[w];
  }

  lemma DropNone(m: Mem, s: Space, v: nat)
    requires Freeable(m, s, v, 0)
    ensures DropPages(m, s, v, 0) == m
  {
  }

  /** A run of clear bits adds nothing to the copy. */
  lemma {:induction false} SkipClear(m: Mem, child: Space, parent: Space, i: nat, j: nat)
    requires child in m.spaces && parent in m.spaces && child != parent
    requires i <= j <= |m.spaces[parent].vbits|
    requires forall k :: i <= k < j ==> !m.spaces[parent].vbits[k]
    ensures CopyPages(m, child, parent, i) == CopyPages(m, child, parent, j)
    decreases j - i
  {
    if i < j {
      SkipClear(m, child, parent, i + 1, j);
    }
  }
}
