/** What every sequence of page allocations, releases, forks and exits keeps. */
module PageSafety {
  import opened Basics
  import opened Bitmaps
  import opened Pages

  // ---------------------------------------------------------------------------
  // Who uses a frame
  // ---------------------------------------------------------------------------

  predicate IsPage(m: Mem, s: Space, v: nat, p: nat) {
    s in m.spaces && v in m.spaces[s].pte && m.spaces[s].pte[v] == p
  }

  predicate IsTable(m: Mem, s: Space, d: nat, p: nat) {
    s in m.spaces && d in m.spaces[s].dir && m.spaces[s].dir[d] == p
  }

  ghost predicate Used(m: Mem, p: nat) {
    (exists s: nat, v: nat :: IsPage(m, s, v, p)) || (exists s: nat, d: nat :: IsTable(m, s, d, p))
  }

  /** A frame has at most one user: no two pages share a frame, and no page's frame is
  also a page table. Tables below the pools were built before the pools existed. */
  ghost predicate OneUser(m: Mem) {
    && (forall s: nat, v: nat, s': nat, v': nat, p: nat :: IsPage(m, s, v, p) && IsPage(m, s', v', p) ==> s == s' && v == v')
    && (forall s: nat, d: nat, s': nat, d': nat, p: nat :: IsTable(m, s, d, p) && IsTable(m, s', d', p) && p >= m.kbase ==> s == s' && d == d')
    && (forall s: nat, v: nat, s': nat, d: nat, p: nat :: IsPage(m, s, v, p) ==> !IsTable(m, s', d, p))
  }

  /** Pages come from the pool of their space, tables from the kernel pool or from
  before, and every mapped page has a table. */
  ghost predicate RightPool(m: Mem) {
    && m.kbase + |m.kbits| <= m.ubase
    && (forall s: nat, v: nat, p: nat :: IsPage(m, s, v, p) ==>
          && (if s == KERNEL then InKernelPool(m, p) else InUserPool(m, p))
          && v / 1024 in m.spaces[s].dir)
    && (forall s: nat, d: nat, p: nat :: IsTable(m, s, d, p) ==> (s == KERNEL && p < m.kbase) || InKernelPool(m, p))
  }

  /** The pools' bits are exactly the frames in use, except for `extra`. */
  ghost predicate BitsExact(m: Mem, extra: set<nat>) {
    forall p: nat :: InKernelPool(m, p) || InUserPool(m, p) ==> (Allocated(m, p) <==> Used(m, p) || p in extra)
  }

  ghost predicate Frames(m: Mem, extra: set<nat>) {
    OneUser(m) && RightPool(m) && BitsExact(m, extra) && forall p: nat :: p in extra ==> !Used(m, p)
  }

  /** A page is mapped exactly when its bit in the space's virtual bitmap is set, and a
  process has pages and page tables below 0xc0000000 only. */
  ghost predicate VBitsExact(m: Mem, s: Space)
    requires s in m.spaces
  {
    var t := m.spaces[s];
    && (s != KERNEL ==> t.vstart + |t.vbits| <= 0xc0000 && forall d :: d in t.dir ==> d < 768)
    && (forall v :: v in t.pte ==> t.vstart <= v < t.vstart + |t.vbits|)
    && (forall i :: 0 <= i < |t.vbits| ==> (t.vbits[i] <==> t.vstart + i in t.pte))
  }

  ghost predicate MemOk(m: Mem) {
    Frames(m, {}) && forall s :: s in m.spaces ==> VBitsExact(m, s)
  }

  // ---------------------------------------------------------------------------
  // Allocation
  // ---------------------------------------------------------------------------

  lemma PallocOk(m: Mem, user: bool, extra: set<nat>)
    requires Frames(m, extra) && Palloc(m, user).Some?
    ensures var (m', p) := Palloc(m, user).value;
            && p !in extra && !Used(m, p) && (if user then InUserPool(m, p) else InKernelPool(m, p))
            && m' == m.(kbits := m'.kbits, ubits := m'.ubits)
            && |m'.kbits| == |m.kbits| && |m'.ubits| == |m.ubits|
            && Frames(m', extra + {p})
            && (user ==> m'.kbits == m.kbits) && (!user ==> m'.ubits == m.ubits)
  {
    var (m', p) := Palloc(m, user).value;
    assert !Allocated(m, p);
    SameSpaces(m, m');
  }

  /** Frames in use depend on the page tables only. */
  lemma SameSpaces(m: Mem, m': Mem)
    requires m'.spaces == m.spaces
    ensures forall s: nat, v: nat, p: nat :: IsPage(m', s, v, p) <==> IsPage(m, s, v, p)
    ensures forall s: nat, d: nat, p: nat :: IsTable(m', s, d, p) <==> IsTable(m, s, d, p)
    ensures forall p: nat :: Used(m', p) <==> Used(m, p)
  {
  }

  // ---------------------------------------------------------------------------
  // One more page, one more table
  // ---------------------------------------------------------------------------

  lemma AddPageOk(m: Mem, s: Space, v: nat, p: nat, extra: set<nat>)
    requires Frames(m, extra) && s in m.spaces && p in extra
    requires v !in m.spaces[s].pte && v / 1024 in m.spaces[s].dir
    requires if s == KERNEL then InKernelPool(m, p) else InUserPool(m, p)
    ensures Frames(SetSpace(m, s, m.spaces[s].(pte := m.spaces[s].pte[v := p])), extra - {p})
  {
    var m' := SetSpace(m, s, m.spaces[s].(pte := m.spaces[s].pte[v := p]));
    forall s2: nat, v2: nat, p2: nat ensures IsPage(m', s2, v2, p2) <==> IsPage(m, s2, v2, p2) || (s2 == s && v2 == v && p2 == p) {
    }
    forall s2: nat, d2: nat, p2: nat ensures IsTable(m', s2, d2, p2) <==> IsTable(m, s2, d2, p2) {
    }
    forall p2: nat ensures Used(m', p2) <==> Used(m, p2) || p2 == p {
      assert IsPage(m', s, v, p);
    }
  }

  lemma AddTableOk(m: Mem, s: Space, d: nat, p: nat, extra: set<nat>)
    requires Frames(m, extra) && s in m.spaces && p in extra
    requires d !in m.spaces[s].dir && InKernelPool(m, p)
    ensures Frames(SetSpace(m, s, m.spaces[s].(dir := m.spaces[s].dir[d := p])), extra - {p})
  {
    var m' := SetSpace(m, s, m.spaces[s].(dir := m.spaces[s].dir[d := p]));
    forall s2: nat, v2: nat, p2: nat ensures IsPage(m', s2, v2, p2) <==> IsPage(m, s2, v2, p2) {
    }
    forall s2: nat, d2: nat, p2: nat ensures IsTable(m', s2, d2, p2) <==> IsTable(m, s2, d2, p2) || (s2 == s && d2 == d && p2 == p) {
    }
    forall p2: nat ensures Used(m', p2) <==> Used(m, p2) || p2 == p {
      assert IsTable(m', s, d, p);
    }
  }

  /** What mapping pages in space `s` may change: its tables and, for new page tables,
  the kernel pool. */
  ghost predicate OnlyMaps(m: Mem, m': Mem, s: Space) {
    && s in m.spaces && s in m'.spaces
    && m' == m.(kbits := m'.kbits, ubits := m'.ubits, spaces := m.spaces[s := m'.spaces[s]])
    && |m'.kbits| == |m.kbits| && |m'.ubits| == |m.ubits|
    && m'.spaces[s].vstart == m.spaces[s].vstart && m'.spaces[s].vbits == m.spaces[s].vbits
    && (forall d :: d in m.spaces[s].dir ==> d in m'.spaces[s].dir && m'.spaces[s].dir[d] == m.spaces[s].dir[d])
  }

  lemma NoneInTable(m: Mem, s: Space, v: nat)
    requires s in m.spaces && RightPool(m) && v / 1024 !in m.spaces[s].dir
    ensures var t := m.spaces[s]; t.pte == map w | w in t.pte && w / 1024 != v / 1024 :: t.pte[w]
  {
    var t := m.spaces[s];
    forall w | w in t.pte ensures w / 1024 != v / 1024 {
      assert IsPage(m, s, w, t.pte[w]);
    }
  }

  /** page_table_add when the page table has to be created first. */
  lemma NewTableOk(m: Mem, s: Space, v: nat, p: nat)
    requires s in m.spaces && Frames(m, {p}) && v !in m.spaces[s].pte && v / 1024 !in m.spaces[s].dir
    requires if s == KERNEL then InKernelPool(m, p) else InUserPool(m, p)
    requires Palloc(m, false).Some?
    ensures var (m1, table) := Palloc(m, false).value;
            var t := m.spaces[s];
            && TableAdd(m, s, v, p) == Some(SetSpace(m1, s, t.(dir := t.dir[v / 1024 := table], pte := t.pte[v := p])))
            && Frames(TableAdd(m, s, v, p).value, {})
            && m1 == m.(kbits := m1.kbits) && |m1.kbits| == |m.kbits|
  {
    hide Palloc, BitsExact, OneUser, Used;
    PallocOk(m, false, {p});
    var t := m.spaces[s];
    var (m1, table) := Palloc(m, false).value;
    NoneInTable(m, s, v);
    AddTableOk(m1, s, v / 1024, table, {p} + {table});
    assert {p} + {table} - {table} == {p};
    var m2 := SetSpace(m1, s, t.(dir := t.dir[v / 1024 := table]));
    AddPageOk(m2, s, v, p, {p});
    assert {p} - {p} == {};
    var t' := t.(dir := t.dir[v / 1024 := table], pte := t.pte[v := p]);
    assert SetSpace(m2, s, t') == SetSpace(m1, s, t');
  }

  lemma TableAddOk(m: Mem, s: Space, v: nat, p: nat)
    requires s in m.spaces && Frames(m, {p}) && v !in m.spaces[s].pte
    requires if s == KERNEL then InKernelPool(m, p) else InUserPool(m, p)
    ensures match TableAdd(m, s, v, p)
            case None => v / 1024 !in m.spaces[s].dir && FirstFit(m.kbits, 1) == None
            case Some(m') =>
              && Frames(m', {}) && OnlyMaps(m, m', s) && m'.ubits == m.ubits
              && m'.spaces[s].pte == m.spaces[s].pte[v := p]
              && m'.spaces[s].dir.Keys == m.spaces[s].dir.Keys + {v / 1024}
  {
    var t := m.spaces[s];
    if v / 1024 in t.dir {
      AddPageOk(m, s, v, p, {p});
      assert {p} - {p} == {};
      assert t.dir.Keys == t.dir.Keys + {v / 1024};
    } else if Palloc(m, false).Some? {
      NewTableOk(m, s, v, p);
    }
  }

  // ---------------------------------------------------------------------------
  // malloc_page
  // ---------------------------------------------------------------------------

  /** `m'` has the mappings of `m` and the pages v .. v + cnt - 1 in space `s`. */
  ghost predicate Extended(m: Mem, m': Mem, s: Space, v: nat, cnt: nat) {
    && OnlyMaps(m, m', s)
    && (forall w: nat :: w in m'.spaces[s].pte <==> w in m.spaces[s].pte || v <= w < v + cnt)
    && (forall w: nat :: w in m.spaces[s].pte && !(v <= w < v + cnt) ==> m'.spaces[s].pte[w] == m.spaces[s].pte[w])
    && (forall d: nat :: d in m'.spaces[s].dir ==> d in m.spaces[s].dir || v / 1024 <= d <= (v + cnt - 1) / 1024)
  }

  lemma AddOnePage(m: Mem, s: Space, v: nat)
    requires s in m.spaces && Frames(m, {}) && v !in m.spaces[s].pte
    requires Palloc(m, s != KERNEL).Some?
    ensures var (m1, p) := Palloc(m, s != KERNEL).value;
            && s in m1.spaces
            && (TableAdd(m1, s, v, p).Some? ==>
                  Frames(TableAdd(m1, s, v, p).value, {}) && Extended(m, TableAdd(m1, s, v, p).value, s, v, 1))
  {
    PallocOk(m, s != KERNEL, {});
    var (m1, p) := Palloc(m, s != KERNEL).value;
    assert {} + {p} == {p};
    TableAddOk(m1, s, v, p);
  }

  lemma ExtendedTrans(m: Mem, m1: Mem, m': Mem, s: Space, v: nat, cnt: nat)
    requires cnt > 0 && Extended(m, m1, s, v, 1) && Extended(m1, m', s, v + 1, cnt - 1)
    ensures Extended(m, m', s, v, cnt)
  {
  }

  lemma {:induction false} AddPagesOk(m: Mem, s: Space, v: nat, cnt: nat)
    requires s in m.spaces && Frames(m, {})
    requires forall w :: v <= w < v + cnt ==> w !in m.spaces[s].pte
    requires AddPages(m, s, v, cnt).Some?
    ensures var m' := AddPages(m, s, v, cnt).value; Frames(m', {}) && Extended(m, m', s, v, cnt)
    decreases cnt
  {
    hide Palloc, TableAdd, OneUser, RightPool, BitsExact, Used;
    if cnt > 0 {
      AddOnePage(m, s, v);
      var (m1, p) := Palloc(m, s != KERNEL).value;
      var m2 := TableAdd(m1, s, v, p).value;
      assert AddPages(m, s, v, cnt) == AddPages(m2, s, v + 1, cnt - 1);
      AddPagesOk(m2, s, v + 1, cnt - 1);
      ExtendedTrans(m, m2, AddPages(m2, s, v + 1, cnt - 1).value, s, v, cnt);
    }
  }

  lemma MallocVBits(m: Mem, m': Mem, s: Space, i: nat, cnt: nat)
    requires s in m.spaces && VBitsExact(m, s) && 0 < cnt && i + cnt <= |m.spaces[s].vbits|
    requires var t := m.spaces[s];
             Extended(SetSpace(m, s, t.(vbits := SetRange(t.vbits, i, cnt, true))), m', s, t.vstart + i, cnt)
    ensures VBitsExact(m', s)
  {
  }

  lemma OtherVBits(m: Mem, m': Mem, s: Space)
    requires s in m.spaces && s in m'.spaces && m'.spaces == m.spaces[s := m'.spaces[s]]
    requires (forall s2 :: s2 in m.spaces ==> VBitsExact(m, s2)) && VBitsExact(m', s)
    ensures forall s2 :: s2 in m'.spaces ==> VBitsExact(m', s2)
  {
    forall s2 | s2 in m'.spaces ensures VBitsExact(m', s2) {
      assert s2 != s ==> VBitsExact(m, s2);
    }
  }

  /** The virtual bitmap of space `s` with the bits of pages v .. v + cnt - 1 set. */
  function Marked(m: Mem, s: Space, v: nat, cnt: nat): Mem
    requires s in m.spaces && m.spaces[s].vstart <= v && v + cnt <= m.spaces[s].vstart + |m.spaces[s].vbits|
  {
    var t := m.spaces[s];
    SetSpace(m, s, t.(vbits := SetRange(t.vbits, v - t.vstart, cnt, true)))
  }

  /** `v` is the lowest page of `cnt` pages in a row that space `s` does not use. */
  ghost predicate FirstFree(m: Mem, s: Space, v: nat, cnt: nat) {
    && s in m.spaces && 0 < cnt
    && var t := m.spaces[s];
       && t.vstart <= v && IsFirstFit(t.vbits, cnt, v - t.vstart)
       && forall w :: v <= w < v + cnt ==> w !in t.pte
  }

  lemma MallocIs(m: Mem, s: Space, cnt: nat, beyond: bool)
    requires s in m.spaces && VBitsExact(m, s) && MallocPage(m, s, cnt, beyond).Ok?
    ensures var Ok(m', v) := MallocPage(m, s, cnt, beyond);
            FirstFree(m, s, v, cnt) && AddPages(Marked(m, s, v, cnt), s, v, cnt) == Some(m')
  {
    hide AddPages, SetRange, ScanSpec;
    var Ok(m', v) := MallocPage(m, s, cnt, beyond);
    var t := m.spaces[s];
    ScanIsFirstFit(t.vbits, beyond, cnt);
    forall w | v <= w < v + cnt ensures w !in t.pte {
      assert !t.vbits[w - t.vstart];
    }
  }

  /** Space `s` does not use the `cnt` pages from `v` on. */
  ghost predicate AllFree(m: Mem, s: Space, v: nat, cnt: nat) {
    && s in m.spaces && 0 < cnt && m.spaces[s].vstart <= v && v + cnt <= m.spaces[s].vstart + |m.spaces[s].vbits|
    && forall w :: v <= w < v + cnt ==> w !in m.spaces[s].pte
  }

  lemma MarkAndAddOk(m: Mem, s: Space, v: nat, cnt: nat)
    requires MemOk(m) && AllFree(m, s, v, cnt) && AddPages(Marked(m, s, v, cnt), s, v, cnt).Some?
    ensures var m' := AddPages(Marked(m, s, v, cnt), s, v, cnt).value;
            MemOk(m') && Extended(Marked(m, s, v, cnt), m', s, v, cnt)
  {
    var m1 := Marked(m, s, v, cnt);
    SameTables(m, m1, s);
    AddPagesOk(m1, s, v, cnt);
    var m' := AddPages(m1, s, v, cnt).value;
    MallocVBits(m, m', s, v - m.spaces[s].vstart, cnt);
    OtherVBits(m, m', s);
  }

  /** malloc_page keeps the invariant; it maps the first run of free pages, which were
  not mapped before, and leaves every other mapping of every space alone. */
  lemma MallocOk(m: Mem, s: Space, cnt: nat, beyond: bool)
    requires MemOk(m) && s in m.spaces && MallocPage(m, s, cnt, beyond).Ok?
    ensures var Ok(m', v) := MallocPage(m, s, cnt, beyond);
            MemOk(m') && FirstFree(m, s, v, cnt) && Extended(Marked(m, s, v, cnt), m', s, v, cnt)
  {
    MallocIs(m, s, cnt, beyond);
    MarkAndAddOk(m, s, MallocPage(m, s, cnt, beyond).v, cnt);
  }

  /** malloc_page writes outside the virtual bitmap exactly when the scan overruns it. */
  lemma CorruptsWhen(m: Mem, s: Space, cnt: nat, beyond: bool)
    requires s in m.spaces && 0 < cnt < 3840
    ensures MallocPage(m, s, cnt, beyond) == Corrupts <==> Overruns(m.spaces[s].vbits, beyond, cnt)
  {
    hide AddPages, SetRange, Overruns, ScanSpec;
    ScanIsFirstFit(m.spaces[s].vbits, beyond, cnt);
    OverrunLeaves(m.spaces[s].vbits, beyond, cnt);
  }

  lemma OverrunLeaves(b: seq<bool>, beyond: bool, cnt: nat)
    ensures Overruns(b, beyond, cnt) ==> FirstFit(b, 1) != None && |b| + 1 - cnt >= 0
  {
  }

  /** get_a_page maps exactly the page it is given, which was not mapped, and keeps the
  invariant. */
  lemma GetPageOk(m: Mem, s: Space, v: nat)
    requires MemOk(m) && s in m.spaces && GetPage(m, s, v).Ok?
    ensures AllFree(m, s, v, 1) && MemOk(GetPage(m, s, v).m) && Extended(Marked(m, s, v, 1), GetPage(m, s, v).m, s, v, 1)
  {
    hide SetRange, Palloc, TableAdd;
    var t := m.spaces[s];
    var m1 := Marked(m, s, v, 1);
    if v in t.pte {
      MappedStops(m, m1, s, v);
    }
    MarkAndAddOk(m, s, v, 1);
  }

  lemma MappedStops(m: Mem, m1: Mem, s: Space, v: nat)
    requires Frames(m, {}) && s in m.spaces && v in m.spaces[s].pte && s in m1.spaces
    requires m1.spaces[s].pte == m.spaces[s].pte && m1.spaces[s].dir == m.spaces[s].dir
    ensures AddPages(m1, s, v, 1) == None
  {
    hide FirstFit;
    assert IsPage(m, s, v, m.spaces[s].pte[v]);
    assert v / 1024 in m.spaces[s].dir;
  }

  lemma SameTables(m: Mem, m': Mem, s: Space)
    requires Frames(m, {}) && s in m.spaces && s in m'.spaces
    requires m' == SetSpace(m, s, m.spaces[s].(vbits := m'.spaces[s].vbits))
    ensures Frames(m', {})
  {
    forall s2: nat, v2: nat, p2: nat ensures IsPage(m', s2, v2, p2) <==> IsPage(m, s2, v2, p2) {
    }
    forall s2: nat, d2: nat, p2: nat ensures IsTable(m', s2, d2, p2) <==> IsTable(m, s2, d2, p2) {
    }
    forall p2: nat ensures Used(m', p2) <==> Used(m, p2) {
    }
  }

  // ---------------------------------------------------------------------------
  // mfree_page
  // ---------------------------------------------------------------------------

  lemma DropPageOk(m: Mem, s: Space, v: nat)
    requires s in m.spaces && Frames(m, {}) && v in m.spaces[s].pte
    ensures var t := m.spaces[s];
            && (InKernelPool(m, t.pte[v]) || InUserPool(m, t.pte[v]))
            && Frames(SetSpace(Pfree(m, t.pte[v]), s, t.(pte := t.pte - {v})), {})
  {
    var t := m.spaces[s];
    var p := t.pte[v];
    assert IsPage(m, s, v, p);
    var m' := SetSpace(Pfree(m, p), s, t.(pte := t.pte - {v}));
    forall s2: nat, v2: nat, p2: nat ensures IsPage(m', s2, v2, p2) <==> IsPage(m, s2, v2, p2) && !(s2 == s && v2 == v) {
    }
    forall s2: nat, d2: nat, p2: nat ensures IsTable(m', s2, d2, p2) <==> IsTable(m, s2, d2, p2) {
    }
    forall p2: nat ensures Used(m', p2) <==> Used(m, p2) && p2 != p {
      if Used(m, p2) && p2 != p {
        if s2: nat, v2: nat :| IsPage(m, s2, v2, p2) {
          assert IsPage(m', s2, v2, p2);
        } else {
          var s2: nat, d2: nat :| IsTable(m, s2, d2, p2);
          assert IsTable(m', s2, d2, p2);
        }
      }
    }
  }

  lemma {:induction false} DropPagesOk(m: Mem, s: Space, v: nat, cnt: nat)
    requires s in m.spaces && Frames(m, {}) && forall w :: v <= w < v + cnt ==> w in m.spaces[s].pte
    ensures Freeable(m, s, v, cnt) && Frames(DropPages(m, s, v, cnt), {})
    decreases cnt
  {
    hide Pfree, OneUser, BitsExact, Used;
    forall w | v <= w < v + cnt ensures InKernelPool(m, m.spaces[s].pte[w]) || InUserPool(m, m.spaces[s].pte[w]) {
      assert IsPage(m, s, w, m.spaces[s].pte[w]);
    }
    if cnt > 0 {
      DropPageOk(m, s, v);
      var t := m.spaces[s];
      DropPagesOk(SetSpace(Pfree(m, t.pte[v]), s, t.(pte := t.pte - {v})), s, v + 1, cnt - 1);
    }
  }

  lemma MfreeVBits(m: Mem, s: Space, v: nat, cnt: nat)
    requires s in m.spaces && Freeable(m, s, v, cnt) && VBitsExact(m, s) && cnt > 0
    ensures var t := m.spaces[s];
            && t.vstart <= v && v + cnt <= t.vstart + |t.vbits|
            && MfreePage(m, s, v, cnt).spaces == m.spaces[s := MfreePage(m, s, v, cnt).spaces[s]]
            && VBitsExact(MfreePage(m, s, v, cnt), s)
  {
    assert v in m.spaces[s].pte && v + cnt - 1 in m.spaces[s].pte;
    DropKeepsTables(m, s, v, cnt);
  }

  /** mfree_page of mapped pages keeps the invariant. */
  lemma MfreeOk(m: Mem, s: Space, v: nat, cnt: nat)
    requires MemOk(m) && s in m.spaces && cnt > 0
    requires forall w :: v <= w < v + cnt ==> w in m.spaces[s].pte
    ensures var t := m.spaces[s];
            && Freeable(m, s, v, cnt) && t.vstart <= v && v + cnt <= t.vstart + |t.vbits|
            && MemOk(MfreePage(m, s, v, cnt))
  {
    DropPagesOk(m, s, v, cnt);
    MfreeVBits(m, s, v, cnt);
    DropKeepsTables(m, s, v, cnt);
    SameTables(DropPages(m, s, v, cnt), MfreePage(m, s, v, cnt), s);
    OtherVBits(m, MfreePage(m, s, v, cnt), s);
  }

  // ---------------------------------------------------------------------------
  // Freeing undoes allocating
  // ---------------------------------------------------------------------------

  /** The page table of directory slot `d` was created after `m`. */
  predicate NewTable(m: Mem, m': Mem, s: Space, d: nat, p: nat) {
    IsTable(m', s, d, p) && s in m.spaces && d !in m.spaces[s].dir
  }

  /** Two states with the same pages, whose tables differ by new ones only, have pools
  that differ by the frames of the new tables only. */
  lemma PoolsFollowTables(m: Mem, m': Mem, s: Space)
    requires Frames(m, {}) && Frames(m', {}) && OnlyMaps(m, m', s)
    requires m'.spaces[s].pte == m.spaces[s].pte
    ensures m'.ubits == m.ubits
    ensures forall p: nat :: InKernelPool(m, p) ==>
              (Allocated(m', p) <==> Allocated(m, p) || exists d: nat :: NewTable(m, m', s, d, p))
  {
    forall s2: nat, v2: nat, p2: nat ensures IsPage(m', s2, v2, p2) <==> IsPage(m, s2, v2, p2) {
    }
    forall s2: nat, d2: nat, p2: nat ensures IsTable(m', s2, d2, p2) <==> IsTable(m, s2, d2, p2) || (s2 == s && NewTable(m, m', s, d2, p2)) {
    }
    forall p2: nat ensures Used(m', p2) <==> Used(m, p2) || exists d: nat :: NewTable(m, m', s, d, p2) {
      if d: nat :| NewTable(m, m', s, d, p2) {
        assert IsTable(m', s, d, p2);
      }
    }
    forall i | 0 <= i < |m.ubits| ensures m'.ubits[i] == m.ubits[i] {
      var p := m.ubase + i;
      assert Allocated(m, p) <==> Used(m, p);
      assert Allocated(m', p) <==> Used(m', p);
      assert forall d: nat :: !NewTable(m, m', s, d, p);
    }
  }

  lemma MallocThenFreeTables(m: Mem, m': Mem, s: Space, v: nat, cnt: nat)
    requires s in m.spaces && VBitsExact(m, s) && FirstFree(m, s, v, cnt)
    requires Extended(Marked(m, s, v, cnt), m', s, v, cnt) && Freeable(m', s, v, cnt)
    ensures var m2 := MfreePage(m', s, v, cnt);
            && OnlyMaps(m, m2, s) && m2.spaces[s].pte == m.spaces[s].pte
            && m2.spaces[s].dir == m'.spaces[s].dir
  {
    DropKeepsTables(m', s, v, cnt);
    var t := m.spaces[s];
    var m2 := MfreePage(m', s, v, cnt);
    assert forall i :: 0 <= i < |t.vbits| ==> (v <= t.vstart + i < v + cnt ==> !t.vbits[i]);
    assert m2.spaces[s].vbits == t.vbits;
    assert m2.spaces[s].pte == t.pte;
    assert m2.spaces == m.spaces[s := m2.spaces[s]];
  }

  /** `m2` is `m` but for page tables of space `s` that were created meanwhile. */
  ghost predicate RestoredUpToTables(m: Mem, m2: Mem, s: Space) {
    && s in m.spaces && s in m2.spaces
    && m2 == m.(kbits := m2.kbits, spaces := m.spaces[s := m.spaces[s].(dir := m2.spaces[s].dir)])
    && |m2.kbits| == |m.kbits|
    && (forall p: nat :: InKernelPool(m, p) ==>
          (Allocated(m2, p) <==> Allocated(m, p) || exists d: nat :: NewTable(m, m2, s, d, p)))
    && (m2.spaces[s].dir.Keys == m.spaces[s].dir.Keys ==> m2 == m)
  }

  lemma FreeUndoesAdd(m: Mem, m': Mem, s: Space, v: nat, cnt: nat)
    requires MemOk(m) && MemOk(m') && FirstFree(m, s, v, cnt)
    requires Extended(Marked(m, s, v, cnt), m', s, v, cnt)
    ensures Freeable(m', s, v, cnt) && m'.spaces[s].vstart <= v && v + cnt <= m'.spaces[s].vstart + |m'.spaces[s].vbits|
    ensures MemOk(MfreePage(m', s, v, cnt)) && RestoredUpToTables(m, MfreePage(m', s, v, cnt), s)
  {
    MfreeOk(m', s, v, cnt);
    MallocThenFreeTables(m, m', s, v, cnt);
    var m2 := MfreePage(m', s, v, cnt);
    PoolsFollowTables(m, m2, s);
    assert m2.spaces[s] == m.spaces[s].(dir := m2.spaces[s].dir);
    if m2.spaces[s].dir.Keys == m.spaces[s].dir.Keys {
      SameDirSameState(m, m2, s);
    }
  }

  /** mfree_page of what malloc_page returned restores the virtual bitmap, every mapping
  and the user pool; the kernel pool keeps exactly the page tables that malloc_page had
  to create, and if it created none the whole state is as before. */
  lemma FreeUndoesMalloc(m: Mem, s: Space, cnt: nat, beyond: bool)
    requires MemOk(m) && s in m.spaces && MallocPage(m, s, cnt, beyond).Ok?
    ensures var Ok(m', v) := MallocPage(m, s, cnt, beyond);
            && Freeable(m', s, v, cnt) && m'.spaces[s].vstart <= v && v + cnt <= m'.spaces[s].vstart + |m'.spaces[s].vbits|
            && MemOk(MfreePage(m', s, v, cnt)) && RestoredUpToTables(m, MfreePage(m', s, v, cnt), s)
  {
    MallocOk(m, s, cnt, beyond);
    var Ok(m', v) := MallocPage(m, s, cnt, beyond);
    FreeUndoesAdd(m, m', s, v, cnt);
  }

  lemma SameDirSameState(m: Mem, m2: Mem, s: Space)
    requires OnlyMaps(m, m2, s) && m2.ubits == m.ubits && m2.spaces[s].pte == m.spaces[s].pte
    requires m2.spaces[s].dir.Keys == m.spaces[s].dir.Keys
    requires forall p: nat :: InKernelPool(m, p) ==>
               (Allocated(m2, p) <==> Allocated(m, p) || exists d: nat :: NewTable(m, m2, s, d, p))
    requires m.kbase + |m.kbits| <= m.ubase
    ensures m2 == m
  {
    assert m2.spaces[s].dir == m.spaces[s].dir;
    assert m2.spaces == m.spaces;
    forall i | 0 <= i < |m.kbits| ensures m2.kbits[i] == m.kbits[i] {
      assert InKernelPool(m, m.kbase + i);
      assert Allocated(m, m.kbase + i) == m.kbits[i] && Allocated(m2, m.kbase + i) == m2.kbits[i];
    }
    assert m2.kbits == m.kbits;
  }
}
