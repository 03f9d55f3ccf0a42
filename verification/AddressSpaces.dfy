/** fork duplicates an address space, exit gives it back (userprog/fork.c,
userprog/wait_exit.c). */
module AddressSpaces {
  import opened Basics
  import opened Bitmaps
  import opened Pages
  import opened PageSafety
  import opened PageCounts

  // ---------------------------------------------------------------------------
  // fork
  // ---------------------------------------------------------------------------

  /** Space `c` is the only one that changed, and frames in use kept their contents. */
  ghost predicate OthersKept(m0: Mem, m: Mem, c: Space) {
    && c in m0.spaces && c in m.spaces
    && m == m0.(kbits := m.kbits, ubits := m.ubits, page := m.page, spaces := m0.spaces[c := m.spaces[c]])
    && |m.kbits| == |m0.kbits| && |m.ubits| == |m0.ubits|
    && (forall p: nat :: Used(m0, p) ==> Used(m, p) && PageAt(m, p) == PageAt(m0, p))
  }

  /** The child's pages are copies of the parent's pages below `bound`. */
  ghost predicate CopiedBelow(m0: Mem, m: Mem, c: Space, parent: Space, bound: nat) {
    && c in m.spaces && parent in m.spaces && parent in m0.spaces
    && (forall v :: v in m.spaces[c].pte <==> v in m.spaces[parent].pte && v < bound)
    && (forall v :: v in m.spaces[c].pte && v in m0.spaces[parent].pte ==>
          PageAt(m, m.spaces[c].pte[v]) == PageAt(m0, m0.spaces[parent].pte[v]))
  }

  ghost predicate Copying(m0: Mem, m: Mem, c: Space, parent: Space, i: nat) {
    && Frames(m, {}) && c != KERNEL && c != parent
    && OthersKept(m0, m, c) && parent in m0.spaces
    && VBitsExact(m0, parent) && parent != KERNEL
    && m.spaces[c].vstart == m0.spaces[c].vstart && m.spaces[c].vbits == m0.spaces[c].vbits
    && (forall d :: d in m.spaces[c].dir ==> d < 768)
    && CopiedBelow(m0, m, c, parent, m0.spaces[parent].vstart + i)
  }

  lemma ExtendedUsed(m: Mem, m': Mem, s: Space, v: nat, p: nat)
    requires Extended(m, m', s, v, 1) && v !in m.spaces[s].pte && Used(m, p)
    ensures Used(m', p)
  {
    if s2: nat, w: nat :| IsPage(m, s2, w, p) {
      assert IsPage(m', s2, w, p);
    } else {
      var s2: nat, d: nat :| IsTable(m, s2, d, p);
      assert IsTable(m', s2, d, p);
    }
  }

  lemma NewContents(m: Mem, p: nat, page: Page)
    requires Frames(m, {})
    ensures Frames(m.(page := m.page[p := page]), {})
    ensures forall q: nat :: Used(m.(page := m.page[p := page]), q) <==> Used(m, q)
  {
    SameSpaces(m, m.(page := m.page[p := page]));
  }

  lemma OthersKeptTrans(m0: Mem, m: Mem, m': Mem, c: Space)
    requires OthersKept(m0, m, c) && OthersKept(m, m', c)
    ensures OthersKept(m0, m', c)
  {
  }

  lemma CopyKeepsOthers(m: Mem, m2: Mem, c: Space, v: nat, p: nat, page: Page)
    requires Frames(m2, {}) && Extended(m, m2, c, v, 1) && m2.page == m.page
    requires v !in m.spaces[c].pte && !Used(m, p)
    ensures OthersKept(m, m2.(page := m2.page[p := page]), c) && Frames(m2.(page := m2.page[p := page]), {})
  {
    NewContents(m2, p, page);
    forall q: nat | Used(m, q) ensures Used(m2, q) && q != p {
      ExtendedUsed(m, m2, c, v, q);
    }
  }

  lemma NextPage(m0: Mem, m: Mem, c: Space, parent: Space, i: nat)
    requires Copying(m0, m, c, parent, i) && i < |m.spaces[parent].vbits| && m.spaces[parent].vbits[i]
    ensures var v := m.spaces[parent].vstart + i;
            v in m.spaces[parent].pte && v !in m.spaces[c].pte && v < 0xc0000
  {
  }

  /** One page of copy_body_stack3: allocate, map, and copy the contents. */
  lemma CopyStep(m0: Mem, m: Mem, c: Space, parent: Space, i: nat)
    requires Copying(m0, m, c, parent, i) && i < |m.spaces[parent].vbits| && m.spaces[parent].vbits[i]
    requires Palloc(m, true).Some?
    ensures var v := m.spaces[parent].vstart + i;
            var (m1, p) := Palloc(m, true).value;
            && v in m.spaces[parent].pte && c in m1.spaces
            && (TableAdd(m1, c, v, p).Some? ==>
                  var m2 := TableAdd(m1, c, v, p).value;
                  Copying(m0, m2.(page := m2.page[p := PageAt(m, m.spaces[parent].pte[v])]), c, parent, i + 1))
  {
    hide TableAdd, Palloc, OneUser, RightPool, BitsExact, Used;
    var v := m.spaces[parent].vstart + i;
    var (m1, p) := Palloc(m, true).value;
    NextPage(m0, m, c, parent, i);
    AddOnePage(m, c, v);
    PallocOk(m, true, {});
    if TableAdd(m1, c, v, p).Some? {
      var m2 := TableAdd(m1, c, v, p).value;
      TableAddIs(m, m1, c, v, p);
      var m3 := m2.(page := m2.page[p := PageAt(m, m.spaces[parent].pte[v])]);
      CopyKeepsOthers(m, m2, c, v, p, PageAt(m, m.spaces[parent].pte[v]));
      OthersKeptTrans(m0, m, m3, c);
      CopyContents(m0, m, m3, c, parent, i, p);
    }
  }

  lemma TableAddIs(m: Mem, m1: Mem, c: Space, v: nat, p: nat)
    requires Frames(m, {}) && c in m.spaces && v !in m.spaces[c].pte && c != KERNEL
    requires Palloc(m, true) == Some((m1, p)) && TableAdd(m1, c, v, p).Some?
    ensures var m2 := TableAdd(m1, c, v, p).value;
            && m2.page == m.page && m2.spaces[c].pte == m.spaces[c].pte[v := p]
  {
    PallocOk(m, true, {});
    assert {} + {p} == {p};
    TableAddOk(m1, c, v, p);
  }

  lemma CopyContents(m0: Mem, m: Mem, m3: Mem, c: Space, parent: Space, i: nat, p: nat)
    requires Copying(m0, m, c, parent, i) && c in m3.spaces && parent in m3.spaces
    requires m3.spaces[parent] == m.spaces[parent] && !Used(m, p)
    requires var v := m0.spaces[parent].vstart + i;
             && v in m.spaces[parent].pte
             && m3.spaces[c].pte == m.spaces[c].pte[v := p]
             && m3.page == m.page[p := PageAt(m, m.spaces[parent].pte[v])]
    ensures CopiedBelow(m0, m3, c, parent, m0.spaces[parent].vstart + i + 1)
  {
    var v := m0.spaces[parent].vstart + i;
    assert IsPage(m0, parent, v, m0.spaces[parent].pte[v]);
    assert Used(m0, m0.spaces[parent].pte[v]);
    forall w | w in m3.spaces[c].pte && w in m0.spaces[parent].pte
      ensures PageAt(m3, m3.spaces[c].pte[w]) == PageAt(m0, m0.spaces[parent].pte[w])
    {
      if w != v {
        assert IsPage(m, c, w, m.spaces[c].pte[w]);
      }
    }
  }

  lemma {:induction false} CopyPagesOk(m0: Mem, m: Mem, c: Space, parent: Space, i: nat)
    requires Copying(m0, m, c, parent, i) && i <= |m.spaces[parent].vbits| && CopyPages(m, c, parent, i).Some?
    ensures Copying(m0, CopyPages(m, c, parent, i).value, c, parent, |m.spaces[parent].vbits|)
    decreases |m.spaces[parent].vbits| - i
  {
    hide Palloc, TableAdd, PageAt, OneUser, RightPool, BitsExact, Used;
    var t := m.spaces[parent];
    if i < |t.vbits| {
      if !t.vbits[i] {
        assert t.vstart + i !in t.pte;
        CopyPagesOk(m0, m, c, parent, i + 1);
      } else {
        CopyStep(m0, m, c, parent, i);
        var v := t.vstart + i;
        var (m1, p) := Palloc(m, true).value;
        var m2 := TableAdd(m1, c, v, p).value;
        CopyPagesOk(m0, m2.(page := m2.page[p := PageAt(m, t.pte[v])]), c, parent, i + 1);
      }
    }
  }

  lemma EmptySpace(m: Mem, c: Space, t: Tables)
    requires MemOk(m) && c !in m.spaces && t.dir == map[] && t.pte == map[]
    ensures Frames(SetSpace(m, c, t), {}) && forall p: nat :: Used(SetSpace(m, c, t), p) <==> Used(m, p)
  {
    var m' := SetSpace(m, c, t);
    forall s2: nat, v2: nat, p2: nat ensures IsPage(m', s2, v2, p2) <==> IsPage(m, s2, v2, p2) {
    }
    forall s2: nat, d2: nat, p2: nat ensures IsTable(m', s2, d2, p2) <==> IsTable(m, s2, d2, p2) {
    }
    forall p2: nat ensures Used(m', p2) <==> Used(m, p2) {
    }
  }

  /** fork keeps the invariant. The child has the parent's pages, byte for byte, on
  frames that nothing else uses; the mappings of every other space and the contents of
  every frame that was in use are unchanged. */
  lemma ForkOk(m: Mem, parent: Space, c: Space)
    requires MemOk(m) && parent in m.spaces && parent != KERNEL && c !in m.spaces && c != KERNEL
    requires ForkSpace(m, parent, c).Some?
    ensures var m' := ForkSpace(m, parent, c).value;
            && MemOk(m') && c in m'.spaces
            && m' == m.(kbits := m'.kbits, ubits := m'.ubits, page := m'.page, spaces := m.spaces[c := m'.spaces[c]])
            && |m'.kbits| == |m.kbits| && |m'.ubits| == |m.ubits|
            && m'.spaces[c].pte.Keys == m.spaces[parent].pte.Keys
            && (forall v :: v in m.spaces[parent].pte ==>
                  && PageAt(m', m'.spaces[c].pte[v]) == PageAt(m, m.spaces[parent].pte[v])
                  && !Used(m, m'.spaces[c].pte[v]))
            && (forall p: nat :: Used(m, p) ==> PageAt(m', p) == PageAt(m, p))
  {
    var t := m.spaces[parent];
    var m0 := SetSpace(m, c, Tables(t.vstart, t.vbits, map[], map[]));
    EmptySpace(m, c, Tables(t.vstart, t.vbits, map[], map[]));
    assert VBitsExact(m, parent);
    assert Copying(m0, m0, c, parent, 0);
    CopyPagesOk(m0, m0, c, parent, 0);
    ForkResult(m, m0, ForkSpace(m, parent, c).value, parent, c);
  }

  lemma ForkVBits(m: Mem, m': Mem, parent: Space, c: Space)
    requires c !in m.spaces && parent in m.spaces && parent != KERNEL
    requires forall s :: s in m.spaces ==> VBitsExact(m, s)
    requires c in m'.spaces && m'.spaces == m.spaces[c := m'.spaces[c]]
    requires m'.spaces[c].vstart == m.spaces[parent].vstart && m'.spaces[c].vbits == m.spaces[parent].vbits
    requires forall d :: d in m'.spaces[c].dir ==> d < 768
    requires m'.spaces[c].pte.Keys == m.spaces[parent].pte.Keys
    ensures forall s :: s in m'.spaces ==> VBitsExact(m', s)
  {
    forall s | s in m'.spaces ensures VBitsExact(m', s) {
      assert VBitsExact(m, if s == c then parent else s);
    }
  }

  lemma ForkResult(m: Mem, m0: Mem, m': Mem, parent: Space, c: Space)
    requires MemOk(m) && parent in m.spaces && c !in m.spaces && parent != KERNEL
    requires m0 == SetSpace(m, c, Tables(m.spaces[parent].vstart, m.spaces[parent].vbits, map[], map[]))
    requires forall p: nat :: Used(m0, p) <==> Used(m, p)
    requires Copying(m0, m', c, parent, |m0.spaces[parent].vbits|)
    ensures MemOk(m') && m'.spaces == m.spaces[c := m'.spaces[c]]
    ensures m'.spaces[c].pte.Keys == m.spaces[parent].pte.Keys
    ensures forall v :: v in m.spaces[parent].pte ==>
              && PageAt(m', m'.spaces[c].pte[v]) == PageAt(m, m.spaces[parent].pte[v])
              && !Used(m, m'.spaces[c].pte[v])
    ensures forall p: nat :: Used(m, p) ==> PageAt(m', p) == PageAt(m, p)
  {
    assert m'.spaces == m.spaces[c := m'.spaces[c]];
    assert m'.spaces[c].pte.Keys == m.spaces[parent].pte.Keys;
    ForkVBits(m, m', parent, c);
    forall v | v in m.spaces[parent].pte ensures !Used(m, m'.spaces[c].pte[v]) {
      ChildFrameIsNew(m, m', c, v);
    }
  }

  lemma ChildFrameIsNew(m: Mem, m': Mem, c: Space, v: nat)
    requires c !in m.spaces && c in m'.spaces && m'.spaces == m.spaces[c := m'.spaces[c]] && OneUser(m')
    requires v in m'.spaces[c].pte
    ensures !Used(m, m'.spaces[c].pte[v])
  {
    var p := m'.spaces[c].pte[v];
    assert IsPage(m', c, v, p);
    forall s2: nat, v2: nat ensures !IsPage(m, s2, v2, p) {
      assert IsPage(m, s2, v2, p) ==> IsPage(m', s2, v2, p);
    }
    forall s2: nat, d2: nat ensures !IsTable(m, s2, d2, p) {
      assert IsTable(m, s2, d2, p) ==> IsTable(m', s2, d2, p);
    }
  }

  // ---------------------------------------------------------------------------
  // exit
  // ---------------------------------------------------------------------------

  ghost predicate UsedBy(m: Mem, s: Space, p: nat) {
    (exists v: nat :: IsPage(m, s, v, p)) || (exists d: nat :: IsTable(m, s, d, p))
  }

  /** Entry `e` or a later one of page table `d` of space `s` maps frame `p`. */
  ghost predicate InTable(m: Mem, s: Space, d: nat, e: nat, p: nat) {
    exists v: nat :: v / 1024 == d && e <= v % 1024 && IsPage(m, s, v, p)
  }

  lemma PfreeBits(m: Mem, p: nat, q: nat)
    requires InKernelPool(m, p) || InUserPool(m, p)
    requires m.kbase + |m.kbits| <= m.ubase
    ensures Allocated(Pfree(m, p), q) <==> Allocated(m, q) && q != p
  {
  }

  lemma {:induction false} FreeTableBits(m: Mem, s: Space, d: nat, e: nat, p: nat)
    requires InPools(m, s)
    ensures Allocated(FreeTable(m, s, d, e), p) <==> Allocated(m, p) && !InTable(m, s, d, e, p)
    decreases 1024 - e
  {
    if e < 1024 {
      var v := d * 1024 + e;
      assert v / 1024 == d && v % 1024 == e;
      var m1 := if v in m.spaces[s].pte then Pfree(m, m.spaces[s].pte[v]) else m;
      FreeTableBits(m1, s, d, e + 1, p);
      if v in m.spaces[s].pte {
        PfreeBits(m, m.spaces[s].pte[v], p);
      }
      assert InTable(m, s, d, e, p) <==> InTable(m1, s, d, e + 1, p) || IsPage(m, s, v, p) by {
        if w: nat :| w / 1024 == d && e <= w % 1024 && IsPage(m, s, w, p) {
          assert w == v || e + 1 <= w % 1024;
          assert IsPage(m1, s, w, p);
        }
        if w: nat :| w / 1024 == d && e + 1 <= w % 1024 && IsPage(m1, s, w, p) {
          assert IsPage(m, s, w, p);
        }
      }
    }
  }

  /** A page table at `d` or later, or an entry of one, of space `s` has frame `p`. */
  ghost predicate InTables(m: Mem, s: Space, d: nat, p: nat) {
    || (exists d': nat :: d <= d' < 768 && IsTable(m, s, d', p))
    || (exists d': nat :: d <= d' < 768 && s in m.spaces && d' in m.spaces[s].dir && InTable(m, s, d', 0, p))
  }

  lemma InTableSame(m: Mem, m': Mem, s: Space, d: nat, e: nat, p: nat)
    requires m'.spaces == m.spaces
    ensures InTable(m', s, d, e, p) <==> InTable(m, s, d, e, p)
  {
    if v: nat :| v / 1024 == d && e <= v % 1024 && IsPage(m, s, v, p) {
      assert IsPage(m', s, v, p);
    }
    if v: nat :| v / 1024 == d && e <= v % 1024 && IsPage(m', s, v, p) {
      assert IsPage(m, s, v, p);
    }
  }

  lemma InTablesStep(m: Mem, m': Mem, s: Space, d: nat, p: nat)
    requires m'.spaces == m.spaces && s in m.spaces && d < 768
    ensures InTables(m, s, d, p) <==>
              || InTables(m', s, d + 1, p)
              || (d in m.spaces[s].dir && (m.spaces[s].dir[d] == p || InTable(m, s, d, 0, p)))
  {
    forall d': nat ensures InTable(m', s, d', 0, p) <==> InTable(m, s, d', 0, p) {
      InTableSame(m, m', s, d', 0, p);
    }
    forall d': nat ensures IsTable(m', s, d', p) <==> IsTable(m, s, d', p) {
    }
    if InTables(m, s, d, p) {
      if d': nat :| d <= d' < 768 && IsTable(m, s, d', p) {
        assert d' == d || (d + 1 <= d' < 768 && IsTable(m', s, d', p));
      } else {
        var d': nat :| d <= d' < 768 && d' in m.spaces[s].dir && InTable(m, s, d', 0, p);
        assert d' == d || (d + 1 <= d' < 768 && d' in m'.spaces[s].dir && InTable(m', s, d', 0, p));
      }
    }
    if InTables(m', s, d + 1, p) {
      if d': nat :| d + 1 <= d' < 768 && IsTable(m', s, d', p) {
        assert d <= d' < 768 && IsTable(m, s, d', p);
      } else {
        var d': nat :| d + 1 <= d' < 768 && d' in m'.spaces[s].dir && InTable(m', s, d', 0, p);
        assert d <= d' < 768 && d' in m.spaces[s].dir && InTable(m, s, d', 0, p);
      }
    }
    if d in m.spaces[s].dir {
      assert m.spaces[s].dir[d] == p ==> d <= d < 768 && IsTable(m, s, d, p);
      assert InTable(m, s, d, 0, p) ==> d <= d < 768 && d in m.spaces[s].dir;
    }
  }

  lemma {:induction false} FreeTablesBits(m: Mem, s: Space, d: nat, p: nat)
    requires InPools(m, s)
    ensures Allocated(FreeTables(m, s, d), p) <==> Allocated(m, p) && !InTables(m, s, d, p)
    decreases 768 - d
  {
    if d < 768 {
      if d in m.spaces[s].dir {
        var m1 := FreeTable(m, s, d, 0);
        var m2 := Pfree(m1, m.spaces[s].dir[d]);
        FreeTablesBits(m2, s, d + 1, p);
        FreeTableBits(m, s, d, 0, p);
        PfreeBits(m1, m.spaces[s].dir[d], p);
        InTablesStep(m, m2, s, d, p);
      } else {
        FreeTablesBits(m, s, d + 1, p);
        InTablesStep(m, m, s, d, p);
      }
    }
  }

  lemma SpaceInPools(m: Mem, s: Space)
    requires Frames(m, {}) && s in m.spaces && s != KERNEL
    ensures InPools(m, s)
  {
    forall v | v in m.spaces[s].pte ensures InUserPool(m, m.spaces[s].pte[v]) {
      assert IsPage(m, s, v, m.spaces[s].pte[v]);
    }
    forall d | d in m.spaces[s].dir ensures InKernelPool(m, m.spaces[s].dir[d]) {
      assert IsTable(m, s, d, m.spaces[s].dir[d]);
    }
  }

  /** The walk over the user half of the directory finds every frame of the process. */
  lemma WalkFindsAll(m: Mem, s: Space, p: nat)
    requires Frames(m, {}) && s in m.spaces && s != KERNEL && VBitsExact(m, s)
    ensures InTables(m, s, 0, p) <==> UsedBy(m, s, p)
  {
    if v: nat :| IsPage(m, s, v, p) {
      assert v / 1024 in m.spaces[s].dir && v / 1024 < 768;
      assert 0 <= v % 1024;
      assert InTable(m, s, v / 1024, 0, p);
    }
    if d: nat :| IsTable(m, s, d, p) {
      assert 0 <= d < 768;
    }
  }

  lemma RemoveSpace(m: Mem, m': Mem, s: Space)
    requires MemOk(m) && s in m.spaces && m'.spaces == m.spaces - {s}
    requires m' == m.(kbits := m'.kbits, ubits := m'.ubits, spaces := m'.spaces)
    requires |m'.kbits| == |m.kbits| && |m'.ubits| == |m.ubits|
    requires forall p: nat :: Allocated(m', p) <==> Allocated(m, p) && !UsedBy(m, s, p)
    ensures MemOk(m')
  {
    forall s2: nat, v2: nat, p2: nat ensures IsPage(m', s2, v2, p2) <==> IsPage(m, s2, v2, p2) && s2 != s {
    }
    forall s2: nat, d2: nat, p2: nat ensures IsTable(m', s2, d2, p2) <==> IsTable(m, s2, d2, p2) && s2 != s {
    }
    forall p: nat | InKernelPool(m, p) || InUserPool(m, p) ensures Used(m', p) <==> Used(m, p) && !UsedBy(m, s, p) {
      OnlyOneSpace(m, m', s, p);
    }
    forall s2 | s2 in m'.spaces ensures VBitsExact(m', s2) {
      assert VBitsExact(m, s2);
    }
  }

  lemma OnlyOneSpace(m: Mem, m': Mem, s: Space, p: nat)
    requires OneUser(m) && (InKernelPool(m, p) || InUserPool(m, p)) && m.kbase + |m.kbits| <= m.ubase
    requires forall s2: nat, v2: nat :: IsPage(m', s2, v2, p) <==> IsPage(m, s2, v2, p) && s2 != s
    requires forall s2: nat, d2: nat :: IsTable(m', s2, d2, p) <==> IsTable(m, s2, d2, p) && s2 != s
    ensures Used(m', p) <==> Used(m, p) && !UsedBy(m, s, p)
  {
    if s2: nat, v2: nat :| IsPage(m, s2, v2, p) {
      assert s2 != s ==> IsPage(m', s2, v2, p);
    }
    if s2: nat, d2: nat :| IsTable(m, s2, d2, p) {
      assert s2 != s ==> IsTable(m', s2, d2, p);
    }
  }

  /** exit keeps the invariant: the page-table walk returns exactly the frames of the
  process, pages and page tables, to their pools. */
  lemma ExitOk(m: Mem, s: Space)
    requires MemOk(m) && s in m.spaces && s != KERNEL
    ensures InPools(m, s)
    ensures var m' := ExitSpace(m, s);
            && MemOk(m') && m'.spaces == m.spaces - {s}
            && m' == m.(kbits := m'.kbits, ubits := m'.ubits, spaces := m'.spaces)
            && |m'.kbits| == |m.kbits| && |m'.ubits| == |m.ubits|
            && forall p: nat :: Allocated(m', p) <==> Allocated(m, p) && !UsedBy(m, s, p)
  {
    SpaceInPools(m, s);
    assert VBitsExact(m, s);
    var m' := ExitSpace(m, s);
    forall p: nat ensures Allocated(m', p) <==> Allocated(m, p) && !UsedBy(m, s, p) {
      FreeTablesBits(m, s, 0, p);
      WalkFindsAll(m, s, p);
    }
    RemoveSpace(m, m', s);
  }

  lemma PoolsFollowSpaces(m: Mem, m': Mem)
    requires Frames(m, {}) && Frames(m', {}) && m'.spaces == m.spaces
    requires m' == m.(kbits := m'.kbits, ubits := m'.ubits, page := m'.page)
    requires |m'.kbits| == |m.kbits| && |m'.ubits| == |m.ubits|
    ensures m'.kbits == m.kbits && m'.ubits == m.ubits
  {
    SameSpaces(m, m');
    forall i | 0 <= i < |m.kbits| ensures m'.kbits[i] == m.kbits[i] {
      var p := m.kbase + i;
      assert InKernelPool(m, p) && InKernelPool(m', p);
      assert Allocated(m, p) == m.kbits[i] && Allocated(m', p) == m'.kbits[i];
    }
    forall i | 0 <= i < |m.ubits| ensures m'.ubits[i] == m.ubits[i] {
      var p := m.ubase + i;
      assert InUserPool(m, p) && InUserPool(m', p);
      assert Allocated(m, p) == m.ubits[i] && Allocated(m', p) == m'.ubits[i];
    }
  }

  /** A process that is forked and exits leaves both pools and all page tables as they
  were. */
  lemma ExitUndoesFork(m: Mem, parent: Space, c: Space)
    requires MemOk(m) && parent in m.spaces && parent != KERNEL && c !in m.spaces && c != KERNEL
    requires ForkSpace(m, parent, c).Some?
    ensures var m' := ForkSpace(m, parent, c).value;
            && InPools(m', c)
            && ExitSpace(m', c) == m.(page := m'.page)
  {
    ForkOk(m, parent, c);
    var m' := ForkSpace(m, parent, c).value;
    ExitOk(m', c);
    var m2 := ExitSpace(m', c);
    assert m2.spaces == m.spaces;
    PoolsFollowSpaces(m, m2);
  }

  // ---------------------------------------------------------------------------
  // Every run
  // ---------------------------------------------------------------------------

  /** create_user_vaddr_bitmap and create_page_dir: a process starts without pages, with a
  clear bitmap from USER_VADDR_START up to the kernel half. */
  function NewTables(): Tables {
    Tables(0x8048, seq(0xc0000 - 0x8048, _ => false), map[], map[])
  }

  lemma SpawnOk(m: Mem, s: Space)
    requires MemOk(m) && s !in m.spaces && s != KERNEL
    ensures MemOk(SetSpace(m, s, NewTables()))
  {
    EmptySpace(m, s, NewTables());
    hide Frames;
    var m' := SetSpace(m, s, NewTables());
    forall s2 | s2 in m'.spaces ensures VBitsExact(m', s2) {
      assert s2 != s ==> VBitsExact(m, s2);
    }
  }

  datatype Op =
    | Spawn(s: Space)
    | GetAPage(s: Space, v: nat)
    | Alloc(s: Space, cnt: nat, beyond: bool)
    | Free(s: Space, v: nat, cnt: nat)
    | Fork(parent: Space, child: Space)
    | Exit(s: Space)

  /** The operation does not end in a failing ASSERT, nor write outside a virtual bitmap
  (see CorruptsWhen); frees name mapped pages. */
  ghost predicate Enabled(m: Mem, op: Op) {
    match op
    case Spawn(s) => s !in m.spaces && s != KERNEL
    case GetAPage(s, v) => s in m.spaces && GetPage(m, s, v).Ok?
    case Alloc(s, cnt, beyond) =>
      s in m.spaces && (MallocPage(m, s, cnt, beyond).Ok? || MallocPage(m, s, cnt, beyond).Null?)
    case Free(s, v, cnt) =>
      && s in m.spaces && cnt > 0 && Freeable(m, s, v, cnt)
      && m.spaces[s].vstart <= v && v + cnt <= m.spaces[s].vstart + |m.spaces[s].vbits|
    case Fork(parent, child) =>
      && parent in m.spaces && child !in m.spaces && parent != KERNEL && child != KERNEL
      && ForkSpace(m, parent, child).Some?
    case Exit(s) => InPools(m, s) && s != KERNEL
  }

  function Apply(m: Mem, op: Op): Mem
    requires Enabled(m, op)
  {
    match op
    case Spawn(s) => SetSpace(m, s, NewTables())
    case GetAPage(s, v) => GetPage(m, s, v).m
    case Alloc(s, cnt, beyond) =>
      var r := MallocPage(m, s, cnt, beyond);
      if r.Ok? then r.m else m
    case Free(s, v, cnt) => MfreePage(m, s, v, cnt)
    case Fork(parent, child) => ForkSpace(m, parent, child).value
    case Exit(s) => ExitSpace(m, s)
  }

  ghost predicate Legal(m: Mem, run: seq<Op>)
    decreases |run|
  {
    run == [] || (Enabled(m, run[0]) && Legal(Apply(m, run[0]), run[1..]))
  }

  function Exec(m: Mem, run: seq<Op>): Mem
    requires Legal(m, run)
    decreases |run|
  {
    if run == [] then m else Exec(Apply(m, run[0]), run[1..])
  }

  lemma StepOk(m: Mem, op: Op)
    requires MemOk(m) && Enabled(m, op)
    ensures MemOk(Apply(m, op))
  {
    match op
    case Spawn(s) => SpawnOk(m, s);
    case GetAPage(s, v) => GetPageOk(m, s, v);
    case Alloc(s, cnt, beyond) =>
      if MallocPage(m, s, cnt, beyond).Ok? {
        MallocOk(m, s, cnt, beyond);
      }
    case Free(s, v, cnt) => MfreeOk(m, s, v, cnt);
    case Fork(parent, child) => ForkOk(m, parent, child);
    case Exit(s) => ExitOk(m, s);
  }

  /** The state mem_pool_init leaves: both pools empty, only the kernel's page tables,
  which lie below the pools. */
  ghost predicate Fresh(m: Mem) {
    && m.kbase + |m.kbits| <= m.ubase
    && (forall i :: 0 <= i < |m.kbits| ==> !m.kbits[i]) && (forall i :: 0 <= i < |m.ubits| ==> !m.ubits[i])
    && m.spaces.Keys == {KERNEL} && m.spaces[KERNEL].pte == map[]
    && (forall d :: d in m.spaces[KERNEL].dir ==> m.spaces[KERNEL].dir[d] < m.kbase)
    && (forall i :: 0 <= i < |m.spaces[KERNEL].vbits| ==> !m.spaces[KERNEL].vbits[i])
  }

  lemma FreshOk(m: Mem)
    requires Fresh(m)
    ensures MemOk(m)
  {
  }

  /** Over every run of processes that start, fork and exit, and of pages that are allocated
  and released: no two pages share a
  frame and no page's frame is a page table (OneUser), pages and page tables come from
  their pools (RightPool), a frame's bit is set exactly when it is in use, so nothing
  leaks (BitsExact), and a page is mapped exactly when its virtual bit is set. */
  lemma {:induction false} EveryRunKeepsPages(m: Mem, run: seq<Op>)
    requires (Fresh(m) || MemOk(m)) && Legal(m, run)
    ensures var m' := Exec(m, run);
            && OneUser(m') && RightPool(m') && BitsExact(m', {})
            && forall s :: s in m'.spaces ==> VBitsExact(m', s)
    decreases |run|
  {
    if Fresh(m) {
      FreshOk(m);
    }
    hide Apply, Enabled, OneUser, RightPool, BitsExact, Fresh, VBitsExact;
    if run != [] {
      StepOk(m, run[0]);
      EveryRunKeepsPages(Apply(m, run[0]), run[1..]);
    }
  }

  /** From start-up on processes can be started, can fork and exit; with two frames in either
  pool also a process that has its stack page, at the top of user memory. */
  lemma ProcessesAppear(m: Mem)
    requires Fresh(m)
    ensures Legal(m, [Spawn(1), Fork(1, 2), Exit(2)])
    ensures |m.kbits| >= 2 && |m.ubits| >= 2 ==> Legal(m, [Spawn(1), GetAPage(1, 0xbffff), Fork(1, 2), Exit(2)])
  {
    hide MemOk, Enabled, Apply, Legal, ForkSpace;
    var m1 := SetSpace(m, 1, NewTables());
    Spawned(m);
    ForkWhen(m1, 1, 2);
    assert Slots({}) == {};
    ForkAndExit(m1, 1, 2);
    LegalMore(m, Spawn(1), [Fork(1, 2), Exit(2)]);
    assert [Spawn(1)] + [Fork(1, 2), Exit(2)] == [Spawn(1), Fork(1, 2), Exit(2)];
    if |m.kbits| >= 2 && |m.ubits| >= 2 {
      AllClear(m.kbits);
      AllClear(m.ubits);
      var m2 := StackPage(m1);
      ForkAndExit(m2, 1, 2);
      LegalMore(m1, GetAPage(1, 0xbffff), [Fork(1, 2), Exit(2)]);
      var rest := [GetAPage(1, 0xbffff), Fork(1, 2), Exit(2)];
      assert [GetAPage(1, 0xbffff)] + [Fork(1, 2), Exit(2)] == rest;
      LegalMore(m, Spawn(1), rest);
      assert [Spawn(1)] + rest == [Spawn(1), GetAPage(1, 0xbffff), Fork(1, 2), Exit(2)];
    }
  }

  lemma Spawned(m: Mem)
    requires Fresh(m)
    ensures var m1 := SetSpace(m, 1, NewTables());
            && Enabled(m, Spawn(1)) && Apply(m, Spawn(1)) == m1
            && MemOk(m1) && 1 in m1.spaces && 2 !in m1.spaces && m1.spaces[1] == NewTables()
  {
    hide MemOk;
    FreshOk(m);
    SpawnOk(m, 1);
  }

  /** The first page of a new process, which can then be copied. */
  lemma StackPage(m1: Mem) returns (m2: Mem)
    requires MemOk(m1) && 1 in m1.spaces && 2 !in m1.spaces && m1.spaces[1] == NewTables()
    requires FreeCount(m1.kbits) >= 2 && FreeCount(m1.ubits) >= 2
    ensures Enabled(m1, GetAPage(1, 0xbffff)) && Apply(m1, GetAPage(1, 0xbffff)) == m2
    ensures MemOk(m2) && 1 in m2.spaces && 2 !in m2.spaces && ForkSpace(m2, 1, 2).Some?
  {
    hide MemOk, ForkSpace, FreeCount, GetPage;
    var v := 0xbffff;
    GetPageWhen(m1, 1, v);
    m2 := GetPage(m1, 1, v).m;
    GetPageOk(m1, 1, v);
    ForkWhen(m2, 1, 2);
    assert m2.spaces[1].pte.Keys == {v};
    assert Slots({v}) == {v / 1024};
  }

  lemma ForkAndExit(m: Mem, parent: Space, c: Space)
    requires MemOk(m) && parent in m.spaces && c !in m.spaces && parent != KERNEL && c != KERNEL && ForkSpace(m, parent, c).Some?
    ensures Legal(m, [Fork(parent, c), Exit(c)])
  {
    hide MemOk, ForkSpace;
    ForkOk(m, parent, c);
    var m2 := ForkSpace(m, parent, c).value;
    ExitOk(m2, c);
    LegalOne(m2, Exit(c));
    LegalMore(m, Fork(parent, c), [Exit(c)]);
    assert [Fork(parent, c)] + [Exit(c)] == [Fork(parent, c), Exit(c)];
  }

  lemma LegalOne(m: Mem, op: Op)
    requires Enabled(m, op)
    ensures Legal(m, [op])
  {
    hide Enabled, Apply;
    assert [op][1..] == [];
  }

  lemma LegalMore(m: Mem, op: Op, run: seq<Op>)
    requires Enabled(m, op) && Legal(Apply(m, op), run)
    ensures Legal(m, [op] + run)
  {
    hide Enabled, Apply;
    assert ([op] + run)[1..] == run;
  }
}
