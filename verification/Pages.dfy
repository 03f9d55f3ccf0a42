/** Page allocation (kernel/memory.c): virtual and physical bitmaps tied together by page
tables, for the kernel and for every process.

Pages and frames are identified by their number: virtual page `v` starts at virtual
address 4096 * v, frame `p` at physical address 4096 * p. */
module Pages {
  import opened Basics
  import opened Bitmaps

  type Space = nat  // 0 is the kernel, any other number a process

  /** Page contents; the code only copies and clears whole pages. */
  type Page = seq<bv8>

  /** `dir` holds the present directory entries, `pte` the present table entries. */
  datatype Tables = Tables(vstart: nat, vbits: seq<bool>, dir: map<nat, nat>, pte: map<nat, nat>)

  datatype Mem = Mem(
    kbase: nat, kbits: seq<bool>,   // kernel_pool
    ubase: nat, ubits: seq<bool>,   // user_pool
    spaces: map<Space, Tables>,
    page: map<nat, Page>)           // contents of frames that were ever written

  const KERNEL: Space := 0

  // ---------------------------------------------------------------------------
  // Frames
  // ---------------------------------------------------------------------------

  predicate InKernelPool(m: Mem, p: nat) {
    m.kbase <= p < m.kbase + |m.kbits|
  }

  predicate InUserPool(m: Mem, p: nat) {
    m.ubase <= p < m.ubase + |m.ubits|
  }

  predicate Allocated(m: Mem, p: nat) {
    (InKernelPool(m, p) && m.kbits[p - m.kbase]) || (InUserPool(m, p) && m.ubits[p - m.ubase])
  }

  /** palloc: the pool is the kernel's or the user's; None is the failing ASSERT of
  bitmap_scan when the pool has no free frame. */
  function Palloc(m: Mem, user: bool): Option<(Mem, nat)> {
    match FirstFit(if user then m.ubits else m.kbits, 1)
    case None => None
    case Some(i) =>
      if user then Some((m.(ubits := m.ubits[i := true]), m.ubase + i))
      else Some((m.(kbits := m.kbits[i := true]), m.kbase + i))
  }

  /** pfree and free_a_phy_page: the pool is told from the address. */
  function Pfree(m: Mem, p: nat): Mem
    requires InKernelPool(m, p) || InUserPool(m, p)
    requires m.kbase + |m.kbits| <= m.ubase
  {
    if p >= m.ubase then m.(ubits := m.ubits[p - m.ubase := false])
    else m.(kbits := m.kbits[p - m.kbase := false])
  }

  // ---------------------------------------------------------------------------
  // Mappings
  // ---------------------------------------------------------------------------

  function SetSpace(m: Mem, s: Space, t: Tables): Mem {
    m.(spaces := m.spaces[s := t])
  }

  /** page_table_add: a missing page table is taken from the kernel pool and cleared.
  None is a failing ASSERT: the page is mapped already, or the kernel pool is empty. */
  function TableAdd(m: Mem, s: Space, v: nat, p: nat): Option<Mem>
    requires s in m.spaces
  {
    var t := m.spaces[s];
    if v / 1024 in t.dir then
      if v in t.pte then None
      else Some(SetSpace(m, s, t.(pte := t.pte[v := p])))
    else match Palloc(m, false)
         case None => None
         case Some((m1, table)) =>
           var kept := map w | w in t.pte && w / 1024 != v / 1024 :: t.pte[w];
           Some(SetSpace(m1, s, t.(dir := t.dir[v / 1024 := table], pte := kept[v := p])))
  }

  /** The loop of malloc_page: `cnt` frames for the pages from `v` on. */
  function AddPages(m: Mem, s: Space, v: nat, cnt: nat): Option<Mem>
    requires s in m.spaces
    decreases cnt
  {
    if cnt == 0 then Some(m)
    else match Palloc(m, s != KERNEL)
         case None => None
         case Some((m1, p)) =>
           match TableAdd(m1, s, v, p)
           case None => None
           case Some(m2) => AddPages(m2, s, v + 1, cnt - 1)
  }

  /** A failing ASSERT; a write outside the virtual bitmap, when the scan overran it;
  the NULL of a full virtual bitmap; or success. */
  datatype Outcome = Panics | Corrupts | Null | Ok(m: Mem, v: nat)

  /** malloc_page. `beyond` is the bit after the virtual bitmap, which the scan reads. */
  function MallocPage(m: Mem, s: Space, cnt: nat, beyond: bool): Outcome
    requires s in m.spaces
  {
    var t := m.spaces[s];
    if !(0 < cnt < 3840) then Panics
    else match ScanSpec(t.vbits, beyond, cnt)
         case Panic => Panics
         case NotFound => Null
         case Found(i) =>
           if i + cnt > |t.vbits| then Corrupts
           else if s != KERNEL && t.vstart + i >= 0xc0000 - 1 then Panics
           else match AddPages(SetSpace(m, s, t.(vbits := SetRange(t.vbits, i, cnt, true))), s, t.vstart + i, cnt)
                case None => Panics
                case Some(m') => Ok(m', t.vstart + i)
  }

  /** get_a_page: the page at `v`. A page mapped already, no frame left, or the kernel's first
  page is a failing ASSERT. A page outside the bitmap is a write outside of it: the index of
  one below is unsigned, so that the ASSERT on its sign never fails. */
  function GetPage(m: Mem, s: Space, v: nat): Outcome
    requires s in m.spaces
  {
    var t := m.spaces[s];
    if s == KERNEL && v == t.vstart then Panics
    else if !(t.vstart <= v < t.vstart + |t.vbits|) then Corrupts
    else match AddPages(SetSpace(m, s, t.(vbits := SetRange(t.vbits, v - t.vstart, 1, true))), s, v, 1)
         case None => Panics
         case Some(m') => Ok(m', v)
  }

  /** What mfree_page asserts of the pages it is given: each is mapped, to a frame of
  one of the pools. */
  ghost predicate Freeable(m: Mem, s: Space, v: nat, cnt: nat) {
    && s in m.spaces && m.kbase + |m.kbits| <= m.ubase
    && forall w :: v <= w < v + cnt ==>
         && w in m.spaces[s].pte
         && (InKernelPool(m, m.spaces[s].pte[w]) || InUserPool(m, m.spaces[s].pte[w]))
  }

  /** The loop of mfree_page: frames go back and table entries are cleared. */
  function DropPages(m: Mem, s: Space, v: nat, cnt: nat): Mem
    requires Freeable(m, s, v, cnt)
    decreases cnt
  {
    if cnt == 0 then m
    else
      var t := m.spaces[s];
      var m1 := SetSpace(Pfree(m, t.pte[v]), s, t.(pte := t.pte - {v}));
      assert forall w :: v + 1 <= w < v + cnt ==> w in t.pte && m1.spaces[s].pte[w] == t.pte[w];
      DropPages(m1, s, v + 1, cnt - 1)
  }

  /** mfree_page */
  function MfreePage(m: Mem, s: Space, v: nat, cnt: nat): (m': Mem)
    requires Freeable(m, s, v, cnt)
    requires m.spaces[s].vstart <= v && v + cnt <= m.spaces[s].vstart + |m.spaces[s].vbits|
  {
    DropKeepsTables(m, s, v, cnt);
    var m1 := DropPages(m, s, v, cnt);
    var t := m1.spaces[s];
    SetSpace(m1, s, t.(vbits := SetRange(t.vbits, v - t.vstart, cnt, false)))
  }

  /** Dropping pages changes the space's table entries and the pools, nothing else. */
  lemma {:induction false} DropKeepsTables(m: Mem, s: Space, v: nat, cnt: nat)
    requires Freeable(m, s, v, cnt)
    ensures var m' := DropPages(m, s, v, cnt);
            && m'.spaces.Keys == m.spaces.Keys
            && m' == m.(kbits := m'.kbits, ubits := m'.ubits, spaces := m.spaces[s := m'.spaces[s]])
            && |m'.kbits| == |m.kbits| && |m'.ubits| == |m.ubits|
            && m'.spaces[s] == m.spaces[s].(pte := m'.spaces[s].pte)
            && m'.spaces[s].pte == map w | w in m.spaces[s].pte && !(v <= w < v + cnt) :: m.spaces[s].pte[w]
    decreases cnt
  {
    var t := m.spaces[s];
    if cnt == 0 {
      assert t.pte == map w | w in t.pte && !(v <= w < v + cnt) :: t.pte[w];
    } else {
      var m1 := SetSpace(Pfree(m, t.pte[v]), s, t.(pte := t.pte - {v}));
      assert forall w :: v + 1 <= w < v + cnt ==> w in t.pte && m1.spaces[s].pte[w] == t.pte[w];
      DropKeepsTables(m1, s, v + 1, cnt - 1);
    }
  }

  // ---------------------------------------------------------------------------
  // fork and exit
  // ---------------------------------------------------------------------------

  function PageAt(m: Mem, p: nat): Page {
    if p in m.page then m.page[p] else []
  }

  /** copy_body_stack3 from bit `i` of the parent's virtual bitmap on: a frame for each
  page in use, mapped at the same address in the child, with the parent's contents. */
  function CopyPages(m: Mem, child: Space, parent: Space, i: nat): Option<Mem>
    requires child in m.spaces && parent in m.spaces && child != parent
    decreases |m.spaces[parent].vbits| - i
  {
    var t := m.spaces[parent];
    if i >= |t.vbits| then Some(m)
    else if !t.vbits[i] then CopyPages(m, child, parent, i + 1)
    else if t.vstart + i !in t.pte then None  // page fault on reading the parent's page
    else match Palloc(m, true)
         case None => None
         case Some((m1, p)) =>
           match TableAdd(m1, child, t.vstart + i, p)
           case None => None
           case Some(m2) =>
             CopyPages(m2.(page := m2.page[p := PageAt(m, t.pte[t.vstart + i])]), child, parent, i + 1)
  }

  /** The address space part of sys_fork: the child starts with a copy of the virtual
  bitmap and a page directory without user entries. */
  function ForkSpace(m: Mem, parent: Space, child: Space): Option<Mem>
    requires parent in m.spaces && child !in m.spaces
  {
    var t := m.spaces[parent];
    CopyPages(SetSpace(m, child, Tables(t.vstart, t.vbits, map[], map[])), child, parent, 0)
  }

  ghost predicate InPools(m: Mem, s: Space) {
    && s in m.spaces && m.kbase + |m.kbits| <= m.ubase
    && (forall v :: v in m.spaces[s].pte ==> InKernelPool(m, m.spaces[s].pte[v]) || InUserPool(m, m.spaces[s].pte[v]))
    && (forall d :: d in m.spaces[s].dir ==> InKernelPool(m, m.spaces[s].dir[d]) || InUserPool(m, m.spaces[s].dir[d]))
  }

  /** release_prog_resource, inner loop: the entries of table `d` from `e` on. */
  function FreeTable(m: Mem, s: Space, d: nat, e: nat): (m': Mem)
    requires InPools(m, s)
    ensures m' == m.(kbits := m'.kbits, ubits := m'.ubits)
    ensures |m'.kbits| == |m.kbits| && |m'.ubits| == |m.ubits|
    decreases 1024 - e
  {
    if e >= 1024 then m
    else
      var v := d * 1024 + e;
      FreeTable(if v in m.spaces[s].pte then Pfree(m, m.spaces[s].pte[v]) else m, s, d, e + 1)
  }

  /** release_prog_resource, outer loop: the user directory entries from `d` on. */
  function FreeTables(m: Mem, s: Space, d: nat): (m': Mem)
    requires InPools(m, s)
    ensures m' == m.(kbits := m'.kbits, ubits := m'.ubits)
    ensures |m'.kbits| == |m.kbits| && |m'.ubits| == |m.ubits|
    decreases 768 - d
  {
    if d >= 768 then m
    else if d in m.spaces[s].dir then FreeTables(Pfree(FreeTable(m, s, d, 0), m.spaces[s].dir[d]), s, d + 1)
    else FreeTables(m, s, d + 1)
  }

  /** The address space part of sys_exit; the directory itself is given up with it. */
  function ExitSpace(m: Mem, s: Space): Mem
    requires InPools(m, s)
  {
    var m1 := FreeTables(m, s, 0);
    m1.(spaces := m1.spaces - {s})
  }
}
