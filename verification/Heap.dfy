/** The heap (kernel/memory.c): small requests are blocks carved out of one-page arenas,
one free list per block size; larger ones are whole pages behind an arena header. */
module Heaps {
  import opened Basics
  import opened Pages
  import opened PageSafety

  // ---------------------------------------------------------------------------
  // Block layout
  // ---------------------------------------------------------------------------

  const CLASSES: nat := 7   // DESC_CNT
  const HEADER: nat := 12   // sizeof(struct arena)

  function BlockSize(c: nat): nat {
    if c == 0 then 16 else 2 * BlockSize(c - 1)
  }

  /** blocks_per_arena */
  function BlocksPer(c: nat): nat
    requires c < CLASSES
  {
    SizeBounds(c);
    (4096 - HEADER) / BlockSize(c)
  }

  lemma SizeBounds(c: nat)
    requires c < CLASSES
    ensures BlockSize(c) == [16, 32, 64, 128, 256, 512, 1024][c]
  {
    assert BlockSize(1) == 32 && BlockSize(2) == 64;
    assert BlockSize(3) == 128 && BlockSize(4) == 256;
    assert BlockSize(5) == 512 && BlockSize(6) == 1024;
  }

  /** arena2block: the address of block `i` of the arena in page `p`. */
  function Block(p: nat, c: nat, i: nat): nat {
    4096 * p + HEADER + i * BlockSize(c)
  }

  /** block2arena: the page an address lies in. */
  function PageOf(a: nat): nat {
    a / 4096
  }

  /** The blocks of an arena tile its page behind the header, so an address determines
  its page and its index. */
  lemma BlockLayout(p: nat, c: nat, i: nat)
    requires c < CLASSES && i < BlocksPer(c)
    ensures PageOf(Block(p, c, i)) == p
    ensures 4096 * p + HEADER <= Block(p, c, i) && Block(p, c, i) + BlockSize(c) <= 4096 * (p + 1)
  {
    SizeBounds(c);
    Product(i + 1, BlocksPer(c), BlockSize(c));
  }

  lemma Product(i: nat, n: nat, b: nat)
    requires i <= n && 0 < b && n == 4084 / b
    ensures i * b <= 4084
  {
    assert i * b <= n * b;
  }

  lemma BlocksApart(p: nat, c: nat, i: nat, j: nat)
    requires i < j
    ensures Block(p, c, i) + BlockSize(c) <= Block(p, c, j)
  {
    assert (i + 1) * BlockSize(c) <= j * BlockSize(c);
  }

  lemma IndexUnique(p: nat, c: nat, i: nat, j: nat)
    requires c < CLASSES && Block(p, c, i) == Block(p, c, j)
    ensures i == j
  {
    SizeBounds(c);
    if i < j {
      BlocksApart(p, c, i, j);
    } else if j < i {
      BlocksApart(p, c, j, i);
    }
  }

  /** The smallest block size that fits a request. */
  function ClassFor(size: nat, c: nat): (r: nat)
    requires c < CLASSES && size <= 1024
    ensures c <= r < CLASSES && size <= BlockSize(r)
    ensures forall d :: c <= d < r ==> BlockSize(d) < size
    decreases CLASSES - c
  {
    SizeBounds(c);
    if size <= BlockSize(c) then c
    else
      ClassFor(size, c + 1)
  }

  // ---------------------------------------------------------------------------
  // State
  // ---------------------------------------------------------------------------

  /** The header at the start of an arena. */
  datatype Arena = Large(pages: nat) | Small(class_: nat, count: nat)

  /** The heap of one address space: the free lists hold block addresses. */
  datatype Heap = Heap(mem: Mem, free: seq<seq<nat>>, arenas: map<nat, Arena>)

  ghost predicate IsBlock(p: nat, c: nat, a: nat)
    requires c < CLASSES
  {
    exists i: nat :: i < BlocksPer(c) && a == Block(p, c, i)
  }

  /** The indices of the free blocks of an arena. */
  function FreeIn(list: seq<nat>, p: nat, c: nat): set<nat>
    requires c < CLASSES
  {
    set i: nat | i < BlocksPer(c) && Block(p, c, i) in list
  }

  function Span(ar: Arena): nat {
    match ar case Large(n) => n case Small(_, _) => 1
  }

  /** Blocks handed out and not yet freed. */
  ghost predicate IsLive(h: Heap, a: nat) {
    && PageOf(a) in h.arenas && |h.free| == CLASSES
    && match h.arenas[PageOf(a)]
       case Large(_) => a == 4096 * PageOf(a) + HEADER
       case Small(c, _) => c < CLASSES && IsBlock(PageOf(a), c, a) && a !in h.free[c]
  }

  /** How many bytes belong to the block at `a`. */
  function Extent(h: Heap, a: nat): int
    requires PageOf(a) in h.arenas
  {
    match h.arenas[PageOf(a)]
    case Large(n) => 4096 * n - HEADER
    case Small(c, _) => BlockSize(c)
  }

  // ---------------------------------------------------------------------------
  // Invariant
  // ---------------------------------------------------------------------------

  /** Each free list holds blocks of arenas of its size, each once. */
  ghost predicate ListOk(list: seq<nat>, c: nat, arenas: map<nat, Arena>)
    requires c < CLASSES
  {
    && NoDup(list)
    && forall a :: a in list ==>
         && PageOf(a) in arenas && arenas[PageOf(a)].Small? && arenas[PageOf(a)].class_ == c
         && IsBlock(PageOf(a), c, a)
  }

  /** An arena's count is the number of its blocks in the free list. */
  ghost predicate CountOk(free: seq<seq<nat>>, p: nat, ar: Arena)
    requires |free| == CLASSES
  {
    match ar
    case Large(n) => n > 0
    case Small(c, count) => c < CLASSES && count == |FreeIn(free[c], p, c)|
  }

  ghost predicate Lists(h: Heap) {
    && |h.free| == CLASSES
    && (forall c: nat :: c < CLASSES ==> ListOk(h.free[c], c, h.arenas))
  }

  ghost predicate Counts(h: Heap)
    requires |h.free| == CLASSES
  {
    forall p :: p in h.arenas ==> CountOk(h.free, p, h.arenas[p])
  }

  /** Arenas lie in different pages, all mapped. */
  ghost predicate Placed(arenas: map<nat, Arena>, mapped: map<nat, nat>) {
    && (forall p, q :: p in arenas && q in arenas && p < q ==> p + Span(arenas[p]) <= q)
    && (forall p, w :: p in arenas && p <= w < p + Span(arenas[p]) ==> w in mapped)
  }

  ghost predicate HeapShape(h: Heap, s: Space) {
    && MemOk(h.mem) && s in h.mem.spaces
    && Lists(h) && Counts(h) && Placed(h.arenas, h.mem.spaces[s].pte)
  }

  /** Between calls no arena is entirely free: its page has gone back. */
  ghost predicate Busy(arenas: map<nat, Arena>) {
    forall p :: p in arenas && arenas[p].Small? ==>
                  arenas[p].class_ < CLASSES && arenas[p].count < BlocksPer(arenas[p].class_)
  }

  ghost predicate HeapOk(h: Heap, s: Space) {
    HeapShape(h, s) && Busy(h.arenas)
  }

  // ---------------------------------------------------------------------------
  // sys_malloc
  // ---------------------------------------------------------------------------

  /** The blocks of a new arena, in the order they are appended. */
  function AllBlocks(p: nat, c: nat, n: nat): (r: seq<nat>)
    ensures |r| == n && forall i :: 0 <= i < n ==> r[i] == Block(p, c, i)
  {
    seq(n, i requires i >= 0 => Block(p, c, i))
  }

  function NewArena(h: Heap, m: Mem, p: nat, c: nat): Heap
    requires |h.free| == CLASSES && c < CLASSES
  {
    Heap(m, h.free[c := h.free[c] + AllBlocks(p, c, BlocksPer(c))], h.arenas[p := Small(c, BlocksPer(c))])
  }

  predicate CanPop(h: Heap, c: nat) {
    && c < |h.free| && h.free[c] != []
    && var p := PageOf(h.free[c][0]); p in h.arenas && h.arenas[p].Small? && h.arenas[p].count > 0
  }

  /** list_pop and --cnt */
  function Pop(h: Heap, c: nat): Heap
    requires CanPop(h, c)
  {
    var p := PageOf(h.free[c][0]);
    var ar := h.arenas[p];
    h.(free := h.free[c := h.free[c][1..]], arenas := h.arenas[p := ar.(count := ar.count - 1)])
  }

  /** A failing ASSERT or a write outside the virtual bitmap; NULL; or a block. */
  datatype Reply = Stops | Nothing | Gives(h: Heap, a: nat)

  /** sys_malloc; `pool` is the size of the physical pool in bytes. */
  ghost function Malloc(h: Heap, s: Space, size: nat, pool: nat, beyond: bool): Reply
    requires HeapOk(h, s)
  {
    if !(0 < size < pool) then Nothing
    else if size > 1024 then
      var n := (size + HEADER + 4095) / 4096;
      match MallocPage(h.mem, s, n, beyond)
      case Panics => Stops
      case Corrupts => Stops
      case Null => Nothing
      case Ok(m, p) => Gives(h.(mem := m, arenas := h.arenas[p := Large(n)]), 4096 * p + HEADER)
    else
      var c := ClassFor(size, 0);
      if h.free[c] != [] then
        HeadCanPop(h, s, c);
        Gives(Pop(h, c), h.free[c][0])
      else match MallocPage(h.mem, s, 1, beyond)
           case Panics => Stops
           case Corrupts => Stops
           case Null => Nothing
           case Ok(m, p) =>
             var h1 := NewArena(h, m, p, c);
             NewCanPop(h, m, p, c);
             Gives(Pop(h1, c), h1.free[c][0])
  }

  lemma HeadCanPop(h: Heap, s: Space, c: nat)
    requires HeapShape(h, s) && c < CLASSES && h.free[c] != []
    ensures CanPop(h, c)
  {
    var a := h.free[c][0];
    assert a in h.free[c];
    var i: nat :| i < BlocksPer(c) && a == Block(PageOf(a), c, i);
    assert CountOk(h.free, PageOf(a), h.arenas[PageOf(a)]);
    assert i in FreeIn(h.free[c], PageOf(a), c);
  }

  lemma NewCanPop(h: Heap, m: Mem, p: nat, c: nat)
    requires |h.free| == CLASSES && c < CLASSES && h.free[c] == []
    ensures CanPop(NewArena(h, m, p, c), c) && NewArena(h, m, p, c).free[c][0] == Block(p, c, 0)
  {
    SizeBounds(c);
    BlockLayout(p, c, 0);
  }

  // ---------------------------------------------------------------------------
  // sys_free
  // ---------------------------------------------------------------------------

  /** The list without the elements of `out`. */
  function Minus(list: seq<nat>, out: set<nat>): (r: seq<nat>)
    ensures forall a :: a in r <==> a in list && a !in out
    ensures NoDup(list) ==> NoDup(r)
  {
    if list == [] then []
    else
      var r := Minus(list[1..], out);
      assert NoDup(list) ==> NoDup(list[1..]) && list[0] !in list[1..];
      if list[0] in out then r else [list[0]] + r
  }

  function BlockSet(p: nat, c: nat, n: nat): set<nat> {
    set i: nat | i < n :: Block(p, c, i)
  }

  /** list_append and ++cnt */
  function PutBack(h: Heap, a: nat): Heap
    requires |h.free| == CLASSES && PageOf(a) in h.arenas
    requires h.arenas[PageOf(a)].Small? && h.arenas[PageOf(a)].class_ < CLASSES
  {
    var Small(c, count) := h.arenas[PageOf(a)];
    h.(free := h.free[c := h.free[c] + [a]], arenas := h.arenas[PageOf(a) := Small(c, count + 1)])
  }

  /** sys_free of a live block. */
  ghost function Free(h: Heap, s: Space, a: nat): Heap
    requires HeapOk(h, s) && IsLive(h, a)
  {
    var p := PageOf(a);
    ArenaFreeable(h, s, p);
    match h.arenas[p]
    case Large(n) => h.(mem := MfreePage(h.mem, s, p, n), arenas := h.arenas - {p})
    case Small(c, count) =>
      var h1 := PutBack(h, a);
      if count + 1 != BlocksPer(c) then h1
      else Heap(MfreePage(h.mem, s, p, 1), h1.free[c := Minus(h1.free[c], BlockSet(p, c, BlocksPer(c)))], h.arenas - {p})
  }

  lemma ArenaFreeable(h: Heap, s: Space, p: nat)
    requires HeapShape(h, s) && p in h.arenas
    ensures var n := Span(h.arenas[p]); var t := h.mem.spaces[s];
            && n > 0 && Freeable(h.mem, s, p, n) && t.vstart <= p && p + n <= t.vstart + |t.vbits|
            && MemOk(MfreePage(h.mem, s, p, n))
  {
    assert CountOk(h.free, p, h.arenas[p]);
    MfreeOk(h.mem, s, p, Span(h.arenas[p]));
  }
}
