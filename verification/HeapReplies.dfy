/** How sys_malloc ends, in terms of the heap and of the pages that can be had. */
module HeapReplies {
  import opened Basics
  import opened Bitmaps
  import opened Pages
  import opened PageSafety
  import opened PageCounts
  import opened Heaps
  import opened HeapSafety

  /** `c` is the smallest block size that holds `size` bytes. */
  predicate SmallestClass(size: nat, c: nat) {
    c < CLASSES && size <= BlockSize(c) && forall d: nat :: d < c ==> BlockSize(d) < size
  }

  /** `n` is the smallest number of pages that hold `size` bytes behind a header. */
  ghost predicate LeastPages(size: nat, n: nat) {
    4096 * n - HEADER >= size && forall k: nat :: k < n ==> 4096 * k - HEADER < size
  }

  lemma OneClass(size: nat, c: nat)
    requires size <= 1024
    ensures SmallestClass(size, ClassFor(size, 0))
    ensures SmallestClass(size, c) ==> c == ClassFor(size, 0)
  {
  }

  lemma OneLeast(size: nat, n: nat)
    ensures LeastPages(size, (size + HEADER + 4095) / 4096)
    ensures LeastPages(size, n) ==> n == (size + HEADER + 4095) / 4096
  {
    var q := (size + HEADER + 4095) / 4096;
    assert 4096 * q - HEADER >= size && 4096 * (q - 1) - HEADER < size;
    assert n > q && LeastPages(size, n) ==> 4096 * q - HEADER < size;
  }

  /** A free block of the right size is there. */
  ghost predicate Stocked(h: Heap, size: nat) {
    |h.free| == CLASSES && exists c: nat :: SmallestClass(size, c) && h.free[c] != []
  }

  /** The request needs `n` new pages. */
  ghost predicate NeedsPages(h: Heap, size: nat, n: nat) {
    if size <= 1024 then n == 1 && !Stocked(h, size) else LeastPages(size, n)
  }

  /** sys_malloc gives a block exactly for a size within the pool when a free block of the
  smallest sufficient size is there or the pages the request needs can be allocated; it
  answers NULL exactly for other sizes or when no run of virtual pages is found. */
  lemma MallocReplies(h: Heap, s: Space, size: nat, pool: nat, beyond: bool)
    requires HeapOk(h, s)
    ensures var r := Malloc(h, s, size, pool, beyond);
            && (r.Gives? <==>
                  && 0 < size < pool
                  && ((size <= 1024 && Stocked(h, size)) || exists n: nat :: NeedsPages(h, size, n) && CanAllocate(h.mem, s, n)))
            && (r.Nothing? <==>
                  !(0 < size < pool) || exists n: nat :: NeedsPages(h, size, n) && NoRun(h.mem, s, n, beyond))
  {
    if 0 < size < pool {
      if size > 1024 {
        RepliesLarge(h, s, size, pool, beyond);
      } else {
        RepliesSmall(h, s, size, pool, beyond);
      }
    }
  }

  lemma RepliesLarge(h: Heap, s: Space, size: nat, pool: nat, beyond: bool)
    requires HeapOk(h, s) && 1024 < size < pool
    ensures var r := Malloc(h, s, size, pool, beyond);
            && (r.Gives? <==> exists n: nat :: NeedsPages(h, size, n) && CanAllocate(h.mem, s, n))
            && (r.Nothing? <==> exists n: nat :: NeedsPages(h, size, n) && NoRun(h.mem, s, n, beyond))
  {
    hide MallocPage, HeapShape, MemOk, CanAllocate, NoRun, LeastPages, Busy, VBitsExact;
    ShapeParts(h, s);
    GoodSpace(h.mem, s);
    var n := (size + HEADER + 4095) / 4096;
    forall k: nat ensures NeedsPages(h, size, k) <==> k == n {
      OneLeast(size, k);
    }
    MallocWhen(h.mem, s, n, beyond);
  }

  lemma RepliesSmall(h: Heap, s: Space, size: nat, pool: nat, beyond: bool)
    requires HeapOk(h, s) && 0 < size < pool && size <= 1024
    ensures var r := Malloc(h, s, size, pool, beyond);
            && (r.Gives? <==> Stocked(h, size) || exists n: nat :: NeedsPages(h, size, n) && CanAllocate(h.mem, s, n))
            && (r.Nothing? <==> exists n: nat :: NeedsPages(h, size, n) && NoRun(h.mem, s, n, beyond))
  {
    hide MallocPage, HeapShape, Pop, ClassFor, MemOk, CanAllocate, NoRun, Busy, CanPop, Stocked, NewArena, VBitsExact;
    ShapeParts(h, s);
    GoodSpace(h.mem, s);
    StockedIs(h, size);
    MallocWhen(h.mem, s, 1, beyond);
    assert NeedsPages(h, size, 1) <==> !Stocked(h, size);
  }

  lemma GoodSpace(m: Mem, s: Space)
    requires MemOk(m) && s in m.spaces
    ensures VBitsExact(m, s)
  {
  }

  lemma StockedIs(h: Heap, size: nat)
    requires |h.free| == CLASSES && size <= 1024
    ensures Stocked(h, size) <==> h.free[ClassFor(size, 0)] != []
  {
    hide ClassFor, SmallestClass;
    forall c: nat ensures SmallestClass(size, c) <==> c == ClassFor(size, 0) {
      OneClass(size, c);
    }
  }

  /** The first free block of the size is given, and no page changes hands. */
  ghost predicate FromStock(h: Heap, h': Heap, size: nat, a: nat) {
    && h'.mem == h.mem && h'.arenas.Keys == h.arenas.Keys && |h.free| == CLASSES
    && exists c: nat :: && SmallestClass(size, c) && h.free[c] != []
                        && a == h.free[c][0] && h'.free == h.free[c := h.free[c][1..]]
  }

  /** The first block of a new arena in the lowest unused page is given, and the others are
  free. */
  ghost predicate FromArena(h: Heap, h': Heap, s: Space, size: nat, a: nat) {
    var p := PageOf(a);
    && FirstFree(h.mem, s, p, 1) && a == 4096 * p + HEADER && |h.free| == CLASSES
    && exists c: nat :: && SmallestClass(size, c) && BlocksPer(c) > 0 && h'.arenas == h.arenas[p := Small(c, BlocksPer(c) - 1)]
                        && h'.free == h.free[c := AllBlocks(p, c, BlocksPer(c))[1..]]
  }

  /** The least number of pages is given, behind a header in the first of the lowest run. */
  ghost predicate FromPages(h: Heap, h': Heap, s: Space, size: nat, a: nat) {
    var p := PageOf(a);
    && a == 4096 * p + HEADER && h'.free == h.free
    && exists n: nat :: LeastPages(size, n) && FirstFree(h.mem, s, p, n) && h'.arenas == h.arenas[p := Large(n)]
  }

  /** What is given. */
  lemma MallocGives(h: Heap, s: Space, size: nat, pool: nat, beyond: bool)
    requires HeapOk(h, s) && Malloc(h, s, size, pool, beyond).Gives?
    ensures var Gives(h', a) := Malloc(h, s, size, pool, beyond);
            if size > 1024 then FromPages(h, h', s, size, a)
            else if Stocked(h, size) then FromStock(h, h', size, a)
            else FromArena(h, h', s, size, a)
  {
    hide MallocPage, HeapShape, MemOk, Busy, ClassFor, Stocked, SmallestClass, LeastPages, FirstFree, Block, BlocksPer;
    ShapeParts(h, s);
    if size > 1024 {
      var n := (size + HEADER + 4095) / 4096;
      OneLeast(size, n);
      MallocOk(h.mem, s, n, beyond);
    } else {
      var c := ClassFor(size, 0);
      StockedIs(h, size);
      OneClass(size, c);
      if h.free[c] == [] {
        MallocOk(h.mem, s, 1, beyond);
        ArenaGives(h, MallocPage(h.mem, s, 1, beyond).m, MallocPage(h.mem, s, 1, beyond).v, c);
      }
    }
  }

  lemma ArenaGives(h: Heap, m: Mem, p: nat, c: nat)
    requires |h.free| == CLASSES && c < CLASSES && h.free[c] == []
    ensures CanPop(NewArena(h, m, p, c), c)
    ensures var h1 := NewArena(h, m, p, c); var h' := Pop(h1, c);
            && PageOf(h1.free[c][0]) == p && h1.free[c][0] == 4096 * p + HEADER && BlocksPer(c) > 0
            && h'.arenas == h.arenas[p := Small(c, BlocksPer(c) - 1)]
            && h'.free == h.free[c := AllBlocks(p, c, BlocksPer(c))[1..]]
  {
    NewCanPop(h, m, p, c);
    BlockLayout(p, c, 0);
    assert h.free[c] + AllBlocks(p, c, BlocksPer(c)) == AllBlocks(p, c, BlocksPer(c));
  }
}
