/** Two-level paging as the kernel sees it through the directory entry that points back
to the directory (kernel/memory.c, userprog/process.c). */
module Paging {
  import opened Basics

  /** Physical memory, one 32-bit word per aligned address. */
  type Memory = bv32 -> bv32

  function PdeIdx(addr: bv32): bv32 {
    (addr & 0xffc00000) >> 22
  }

  function PteIdx(addr: bv32): bv32 {
    (addr & 0x003ff000) >> 12
  }

  /** pte_ptr */
  function PtePtr(vaddr: bv32): bv32 {
    0xffc00000 + ((vaddr & 0xffc00000) >> 10) + PteIdx(vaddr) * 4
  }

  /** pde_ptr */
  function PdePtr(vaddr: bv32): bv32 {
    0xfffff000 + PdeIdx(vaddr) * 4
  }

  predicate Present(entry: bv32) {
    entry & 1 != 0
  }

  function Frame(entry: bv32): bv32 {
    entry & 0xfffff000
  }

  function EntryAddr(table: bv32, index: bv32): bv32 {
    table + index * 4
  }

  /** Where the processor finds the directory entry of `v`. */
  function PdeAddr(cr3: bv32, v: bv32): bv32 {
    EntryAddr(cr3, v >> 22)
  }

  /** Where the processor finds the table entry of `v`, given its directory entry. */
  function PteAddr(pde: bv32, v: bv32): bv32 {
    EntryAddr(Frame(pde), (v >> 12) & 0x3ff)
  }

  /** The byte of an entry's frame at the offset of `v`. */
  function InFrame(entry: bv32, v: bv32): bv32 {
    Frame(entry) + (v & 0xfff)
  }

  /** The hardware walk (section 4.3 of the Intel SDM, volume 3A) for 4-KByte pages:
  the physical address `v` translates to, or a page fault. */
  function Walk(mem: Memory, cr3: bv32, v: bv32): Option<bv32> {
    var pde := mem(PdeAddr(cr3, v));
    if !Present(pde) then None
    else
      var pte := mem(PteAddr(pde, v));
      if !Present(pte) then None
      else Some(InFrame(pte, v))
  }

  /** A load from virtual address `v`. */
  function Load(mem: Memory, cr3: bv32, v: bv32): Option<bv32> {
    match Walk(mem, cr3, v)
    case None => None
    case Some(p) => Some(mem(p))
  }

  /** addr_v2p, or a page fault. */
  function AddrV2P(mem: Memory, cr3: bv32, vaddr: bv32): Option<bv32> {
    match Load(mem, cr3, PtePtr(vaddr))
    case None => None
    case Some(pte) => Some(InFrame(pte, vaddr))
  }

  predicate Aligned(a: bv32) {
    a & 0xfff == 0
  }

  /** Entry 1023 of the directory is present and points to the directory. */
  predicate SelfMapped(mem: Memory, cr3: bv32) {
    Aligned(cr3) && Present(mem(cr3 + 0xffc)) && Frame(mem(cr3 + 0xffc)) == cr3
  }

  lemma PtePtrIndices(v: bv32)
    ensures PtePtr(v) >> 22 == 0x3ff
    ensures (PtePtr(v) >> 12) & 0x3ff == v >> 22
    ensures PtePtr(v) & 0xfff == ((v >> 12) & 0x3ff) * 4
  {
  }

  lemma PdePtrIndices(v: bv32)
    ensures PdePtr(v) >> 22 == 0x3ff
    ensures (PdePtr(v) >> 12) & 0x3ff == 0x3ff
    ensures PdePtr(v) & 0xfff == (v >> 22) * 4
  {
  }

  /** An address whose directory index is 1023 is looked up in the directory itself. */
  lemma SelfMapPde(cr3: bv32, a: bv32)
    requires a >> 22 == 0x3ff
    ensures PdeAddr(cr3, a) == cr3 + 0xffc
  {
  }

  lemma SelfMapPte(cr3: bv32, e: bv32, a: bv32, v: bv32)
    requires Frame(e) == cr3 && (a >> 12) & 0x3ff == v >> 22
    ensures PteAddr(e, a) == PdeAddr(cr3, v)
  {
    hide EntryAddr, Frame;
  }

  lemma WalkThroughSelfMap(mem: Memory, cr3: bv32, a: bv32, d: bv32)
    requires SelfMapped(mem, cr3) && PdeAddr(cr3, a) == cr3 + 0xffc && PteAddr(mem(cr3 + 0xffc), a) == d
    ensures Walk(mem, cr3, a) == if Present(mem(d)) then Some(InFrame(mem(d), a)) else None
  {
  }

  /** Through the self-map, pte_ptr(v) is the table entry that translates v; it faults
  exactly when the directory has no table for v. */
  lemma PtePtrReachesEntry(mem: Memory, cr3: bv32, v: bv32)
    requires SelfMapped(mem, cr3)
    ensures var pde := mem(PdeAddr(cr3, v));
            Walk(mem, cr3, PtePtr(v)) == if Present(pde) then Some(PteAddr(pde, v)) else None
  {
    PtePtrIndices(v);
    SelfMapPde(cr3, PtePtr(v));
    SelfMapPte(cr3, mem(cr3 + 0xffc), PtePtr(v), v);
    WalkThroughSelfMap(mem, cr3, PtePtr(v), PdeAddr(cr3, v));
  }

  /** Through the self-map, pde_ptr(v) is the directory entry that translates v. */
  lemma PdePtrReachesEntry(mem: Memory, cr3: bv32, v: bv32)
    requires SelfMapped(mem, cr3)
    ensures Walk(mem, cr3, PdePtr(v)) == Some(PdeAddr(cr3, v))
  {
    PdePtrIndices(v);
    SelfMapPde(cr3, PdePtr(v));
    SelfMapPte(cr3, mem(cr3 + 0xffc), PdePtr(v), 0xffc00000);
    SelfMapPde(cr3, 0xffc00000);
    WalkThroughSelfMap(mem, cr3, PdePtr(v), cr3 + 0xffc);
  }

  /** addr_v2p is the hardware translation of every mapped address; it faults exactly
  when the directory has no table, and for an absent table entry it returns the frame
  bits of that entry although the processor would fault. */
  lemma AddrV2PIsTheWalk(mem: Memory, cr3: bv32, v: bv32)
    requires SelfMapped(mem, cr3)
    ensures Walk(mem, cr3, v).Some? ==> AddrV2P(mem, cr3, v) == Walk(mem, cr3, v)
    ensures AddrV2P(mem, cr3, v) == None <==> !Present(mem(PdeAddr(cr3, v)))
    ensures AddrV2P(mem, cr3, v) == Walk(mem, cr3, v) <==>
              (Present(mem(PdeAddr(cr3, v))) ==> Present(mem(PteAddr(mem(PdeAddr(cr3, v)), v))))
  {
    hide InFrame, Present, EntryAddr, PtePtr, SelfMapped, Frame;
    PtePtrReachesEntry(mem, cr3, v);
  }

  /** create_page_dir: the kernel half of the current directory, read at 0xfffff000, and
  an own self-map entry; the user half is empty. `page` is the zeroed page that
  get_kernel_pages returned and `phys` what addr_v2p says of it. */
  method CreatePageDir(page: array<bv32>, current: seq<bv32>, phys: bv32)
    requires page.Length == 1024 && |current| == 1024 && Aligned(phys)
    requires forall i :: 0 <= i < 1024 ==> page[i] == 0
    modifies page
    ensures forall i :: 0 <= i < 768 ==> page[i] == 0
    ensures forall i :: 768 <= i < 1023 ==> page[i] == current[i]
    ensures Present(page[1023]) && Frame(page[1023]) == phys
  {
    for i := 0 to 256
      invariant forall j :: 0 <= j < 768 ==> page[j] == 0
      invariant forall j :: 768 <= j < 768 + i ==> page[j] == current[j]
    {
      page[0x300 + i] := current[0x300 + i];
    }
    page[1023] := phys | 4 | 2 | 1;
    EntryFields(phys);
  }

  lemma EntryFields(phys: bv32)
    requires Aligned(phys)
    ensures Present(phys | 4 | 2 | 1) && Frame(phys | 4 | 2 | 1) == phys
  {
  }

  /** A directory built by create_page_dir translates every kernel address below the
  self-map as the directory it was copied from, and no user address. */
  lemma KernelHalfShared(mem: Memory, cr3: bv32, cr3': bv32, dir: seq<bv32>, dir': seq<bv32>, v: bv32)
    requires |dir| == 1024 && |dir'| == 1024
    requires mem(PdeAddr(cr3, v)) == dir[(v >> 22) as int] && mem(PdeAddr(cr3', v)) == dir'[(v >> 22) as int]
    requires forall i :: 0 <= i < 768 ==> dir'[i] == 0
    requires forall i :: 768 <= i < 1023 ==> dir'[i] == dir[i]
    ensures v < 0xc0000000 ==> Walk(mem, cr3', v) == None
    ensures 0xc0000000 <= v < 0xffc00000 ==> Walk(mem, cr3', v) == Walk(mem, cr3, v)
  {
    HalfIndex(v);
  }

  lemma HalfIndex(v: bv32)
    ensures v < 0xc0000000 ==> (v >> 22) as int < 768
    ensures 0xc0000000 <= v < 0xffc00000 ==> 768 <= (v >> 22) as int < 1023
  {
    assert v < 0xc0000000 ==> v >> 22 < 0x300;
    assert 0xc0000000 <= v < 0xffc00000 ==> 0x300 <= v >> 22 < 0x3ff;
  }
}
