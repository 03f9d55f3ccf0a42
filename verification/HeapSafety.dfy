/** What every run of sys_malloc and sys_free keeps. */
module HeapSafety {
  import opened Basics
  import opened Pages
  import opened PageSafety
  import opened Heaps

  // ---------------------------------------------------------------------------
  // Taking the first free block
  // ---------------------------------------------------------------------------

  /** `a` left the free list of its arena; nothing else about blocks changed. */
  lemma FreeInAfterPop(list: seq<nat>, c: nat, p: nat, i: nat)
    requires c < CLASSES && list != [] && NoDup(list) && i < BlocksPer(c) && list[0] == Block(p, c, i)
    ensures i in FreeIn(list, p, c) && FreeIn(list[1..], p, c) == FreeIn(list, p, c) - {i}
    ensures forall q: nat :: q != p ==> FreeIn(list[1..], q, c) == FreeIn(list, q, c)
  {
    assert list == [list[0]] + list[1..];
    forall j: nat | j < BlocksPer(c) ensures Block(p, c, j) in list[1..] <==> Block(p, c, j) in list && j != i {
      if Block(p, c, j) == list[0] {
        IndexUnique(p, c, i, j);
      }
    }
    forall q: nat | q != p ensures FreeIn(list[1..], q, c) == FreeIn(list, q, c) {
      forall j: nat | j < BlocksPer(c) ensures Block(q, c, j) in list[1..] <==> Block(q, c, j) in list {
        BlockLayout(p, c, i);
        BlockLayout(q, c, j);
      }
    }
  }

  lemma PopLists(h: Heap, c: nat)
    requires Lists(h) && c < CLASSES && CanPop(h, c)
    ensures Lists(Pop(h, c))
  {
    var h' := Pop(h, c);
    forall d: nat | d < CLASSES ensures ListOk(h'.free[d], d, h'.arenas) {
      assert ListOk(h.free[d], d, h.arenas);
    }
  }

  lemma PopCounts(h: Heap, c: nat)
    requires Lists(h) && Counts(h) && c < CLASSES && CanPop(h, c)
    ensures Counts(Pop(h, c))
  {
    var h' := Pop(h, c);
    var a := h.free[c][0];
    assert a in h.free[c] && ListOk(h.free[c], c, h.arenas);
    var i: nat :| i < BlocksPer(c) && a == Block(PageOf(a), c, i);
    FreeInAfterPop(h.free[c], c, PageOf(a), i);
    forall p | p in h'.arenas ensures CountOk(h'.free, p, h'.arenas[p]) {
      assert CountOk(h.free, p, h.arenas[p]);
    }
  }

  lemma SamePlaces(ar: map<nat, Arena>, ar': map<nat, Arena>, mapped: map<nat, nat>)
    requires Placed(ar, mapped) && ar'.Keys == ar.Keys && forall p :: p in ar ==> Span(ar'[p]) == Span(ar[p])
    ensures Placed(ar', mapped)
  {
  }

  lemma PopShape(h: Heap, s: Space, c: nat)
    requires HeapShape(h, s) && c < CLASSES && CanPop(h, c)
    ensures HeapShape(Pop(h, c), s)
  {
    PopLists(h, c);
    PopCounts(h, c);
    SamePlaces(h.arenas, Pop(h, c).arenas, h.mem.spaces[s].pte);
  }

  /** Live blocks after handing out `a`: one more, with the size of its class. */
  ghost predicate OneMoreLive(h: Heap, h': Heap, a: nat) {
    && IsLive(h', a) && !IsLive(h, a)
    && (forall b: nat :: b != a ==> (IsLive(h', b) <==> IsLive(h, b)))
    && (forall b: nat :: IsLive(h, b) ==> Extent(h', b) == Extent(h, b))
  }

  lemma PopLive(h: Heap, c: nat)
    requires Lists(h) && c < CLASSES && CanPop(h, c)
    ensures OneMoreLive(h, Pop(h, c), h.free[c][0]) && Extent(Pop(h, c), h.free[c][0]) == BlockSize(c)
  {
    var h' := Pop(h, c);
    var a := h.free[c][0];
    assert ListOk(h.free[c], c, h.arenas) && a in h.free[c];
    assert h.free[c] == [a] + h.free[c][1..];
    forall b: nat | b != a ensures IsLive(h', b) <==> IsLive(h, b) {
      if PageOf(b) in h.arenas {
        assert h'.arenas[PageOf(b)].Small? == h.arenas[PageOf(b)].Small?;
      }
    }
  }

  // ---------------------------------------------------------------------------
  // New arenas
  // ---------------------------------------------------------------------------

  ghost predicate NewPages(old_: map<nat, nat>, new_: map<nat, nat>, p: nat, n: nat) {
    && (forall w :: w in old_ ==> w in new_)
    && (forall w :: p <= w < p + n ==> w !in old_ && w in new_)
  }

  lemma MallocGivesNewPages(m: Mem, s: Space, n: nat, beyond: bool)
    requires MemOk(m) && s in m.spaces && MallocPage(m, s, n, beyond).Ok?
    ensures var Ok(m', p) := MallocPage(m, s, n, beyond);
            && n > 0 && MemOk(m') && s in m'.spaces
            && NewPages(m.spaces[s].pte, m'.spaces[s].pte, p, n)
  {
    hide MallocPage, MemOk;
    MallocOk(m, s, n, beyond);
  }

  lemma PlacedNew(ar: map<nat, Arena>, mapped: map<nat, nat>, mapped': map<nat, nat>, p: nat, a: Arena)
    requires Placed(ar, mapped) && NewPages(mapped, mapped', p, Span(a)) && Span(a) > 0
    requires forall q :: q in ar ==> Span(ar[q]) > 0
    ensures p !in ar && Placed(ar[p := a], mapped')
  {
    assert p !in mapped;
    forall q | q in ar ensures q != p && (q < p ==> q + Span(ar[q]) <= p) && (p < q ==> p + Span(a) <= q) {
      assert q in mapped;
      assert q <= p < q + Span(ar[q]) ==> p in mapped;
    }
  }

  lemma SpansPositive(h: Heap)
    requires |h.free| == CLASSES && Counts(h)
    ensures forall q :: q in h.arenas ==> Span(h.arenas[q]) > 0
  {
    forall q | q in h.arenas ensures Span(h.arenas[q]) > 0 {
      assert CountOk(h.free, q, h.arenas[q]);
    }
  }

  function Below(n: nat): (r: set<nat>)
    ensures |r| == n && forall i: nat :: i in r <==> i < n
  {
    if n == 0 then {} else Below(n - 1) + {n - 1}
  }

  lemma NewArenaLists(h: Heap, m: Mem, p: nat, c: nat)
    requires Lists(h) && c < CLASSES && h.free[c] == [] && p !in h.arenas
    ensures Lists(NewArena(h, m, p, c))
  {
    var h' := NewArena(h, m, p, c);
    forall d: nat | d < CLASSES ensures ListOk(h'.free[d], d, h'.arenas) {
      assert ListOk(h.free[d], d, h.arenas);
      if d == c {
        NewListOk(p, c, h'.arenas);
      }
    }
  }

  lemma NewListOk(p: nat, c: nat, arenas: map<nat, Arena>)
    requires c < CLASSES && p in arenas && arenas[p].Small? && arenas[p].class_ == c
    ensures ListOk([] + AllBlocks(p, c, BlocksPer(c)), c, arenas)
  {
    hide NoDup, IsBlock, Block, PageOf;
    var list := AllBlocks(p, c, BlocksPer(c));
    assert [] + list == list;
    NewNoDup(p, c, BlocksPer(c));
    forall a | a in list ensures PageOf(a) == p && IsBlock(p, c, a) {
      NewIsBlock(p, c, a);
    }
  }

  lemma NewNoDup(p: nat, c: nat, n: nat)
    requires c < CLASSES
    ensures NoDup(AllBlocks(p, c, n))
  {
    hide Block;
    var list := AllBlocks(p, c, n);
    forall i, j | 0 <= i < j < |list| ensures list[i] != list[j] {
      DistinctBlocks(p, c, i, j);
    }
  }

  lemma DistinctBlocks(p: nat, c: nat, i: nat, j: nat)
    requires c < CLASSES && i < j
    ensures Block(p, c, i) != Block(p, c, j)
  {
    SizeBounds(c);
    BlocksApart(p, c, i, j);
  }

  lemma NewIsBlock(p: nat, c: nat, a: nat)
    requires c < CLASSES && a in AllBlocks(p, c, BlocksPer(c))
    ensures PageOf(a) == p && IsBlock(p, c, a)
  {
    hide Block, PageOf;
    var i: nat :| i < BlocksPer(c) && a == AllBlocks(p, c, BlocksPer(c))[i];
    BlockLayout(p, c, i);
  }

  lemma NewArenaCounts(h: Heap, m: Mem, p: nat, c: nat)
    requires Lists(h) && Counts(h) && c < CLASSES && h.free[c] == [] && p !in h.arenas
    ensures Counts(NewArena(h, m, p, c))
  {
    var h' := NewArena(h, m, p, c);
    var list := AllBlocks(p, c, BlocksPer(c));
    assert [] + list == list;
    forall q | q in h'.arenas ensures CountOk(h'.free, q, h'.arenas[q]) {
      if q == p {
        AllFree(p, c);
      } else {
        assert CountOk(h.free, q, h.arenas[q]);
        NoneOfOther(p, q, c);
        assert FreeIn([], q, c) == {};
      }
    }
  }

  lemma AllFree(p: nat, c: nat)
    requires c < CLASSES
    ensures |FreeIn(AllBlocks(p, c, BlocksPer(c)), p, c)| == BlocksPer(c)
  {
    var list := AllBlocks(p, c, BlocksPer(c));
    assert forall i: nat :: i < BlocksPer(c) ==> list[i] in list;
    assert FreeIn(list, p, c) == Below(BlocksPer(c));
  }

  lemma NoneOfOther(p: nat, q: nat, c: nat)
    requires c < CLASSES && p != q
    ensures FreeIn(AllBlocks(p, c, BlocksPer(c)), q, c) == {}
  {
    var list := AllBlocks(p, c, BlocksPer(c));
    forall j: nat | j < BlocksPer(c) ensures Block(q, c, j) !in list {
      if Block(q, c, j) in list {
        var i: nat :| i < |list| && list[i] == Block(q, c, j);
        BlockLayout(p, c, i);
        BlockLayout(q, c, j);
      }
    }
  }

  lemma NewArenaShape(h: Heap, s: Space, m: Mem, p: nat, c: nat)
    requires HeapShape(h, s) && MemOk(m) && s in m.spaces && c < CLASSES && h.free[c] == []
    requires NewPages(h.mem.spaces[s].pte, m.spaces[s].pte, p, 1)
    ensures HeapShape(NewArena(h, m, p, c), s) && p !in h.arenas
  {
    hide MemOk;
    SpansPositive(h);
    PlacedNew(h.arenas, h.mem.spaces[s].pte, m.spaces[s].pte, p, Small(c, BlocksPer(c)));
    NewArenaLists(h, m, p, c);
    NewArenaCounts(h, m, p, c);
  }

  /** No block of a new arena is live yet. */
  lemma NewArenaLive(h: Heap, m: Mem, p: nat, c: nat)
    requires |h.free| == CLASSES && c < CLASSES && h.free[c] == [] && p !in h.arenas
    ensures var h' := NewArena(h, m, p, c);
            && (forall b: nat :: IsLive(h', b) <==> IsLive(h, b))
            && (forall b: nat :: IsLive(h, b) ==> Extent(h', b) == Extent(h, b))
  {
    var h' := NewArena(h, m, p, c);
    forall b: nat ensures IsLive(h', b) <==> IsLive(h, b) {
      if PageOf(b) == p && IsBlock(p, c, b) {
        var i: nat :| i < BlocksPer(c) && b == Block(p, c, i);
        assert AllBlocks(p, c, BlocksPer(c))[i] in h'.free[c];
      } else if IsLive(h, b) || IsLive(h', b) {
        assert PageOf(b) != p ==> h'.arenas[PageOf(b)] == h.arenas[PageOf(b)];
        if PageOf(b) != p && h.arenas[PageOf(b)].Small? && h.arenas[PageOf(b)].class_ == c {
          OtherPageNotNew(p, c, b);
        }
      }
    }
  }

  lemma OtherPageNotNew(p: nat, c: nat, b: nat)
    requires c < CLASSES && PageOf(b) != p
    ensures b !in AllBlocks(p, c, BlocksPer(c))
  {
    var list := AllBlocks(p, c, BlocksPer(c));
    if b in list {
      var i: nat :| i < |list| && list[i] == b;
      BlockLayout(p, c, i);
    }
  }

  lemma LargeShape(h: Heap, s: Space, m: Mem, p: nat, n: nat)
    requires HeapShape(h, s) && MemOk(m) && s in m.spaces && n > 0
    requires NewPages(h.mem.spaces[s].pte, m.spaces[s].pte, p, n)
    ensures p !in h.arenas && HeapShape(h.(mem := m, arenas := h.arenas[p := Large(n)]), s)
  {
    hide MemOk;
    SpansPositive(h);
    PlacedNew(h.arenas, h.mem.spaces[s].pte, m.spaces[s].pte, p, Large(n));
    var h' := h.(mem := m, arenas := h.arenas[p := Large(n)]);
    LargeLists(h, h', p);
    forall q | q in h'.arenas ensures CountOk(h'.free, q, h'.arenas[q]) {
      assert q != p ==> CountOk(h.free, q, h.arenas[q]);
    }
  }

  lemma LargeLists(h: Heap, h': Heap, p: nat)
    requires Lists(h) && h'.free == h.free && p !in h.arenas && p in h'.arenas && h'.arenas == h.arenas[p := h'.arenas[p]]
    ensures Lists(h')
  {
    forall c: nat | c < CLASSES ensures ListOk(h'.free[c], c, h'.arenas) {
      assert ListOk(h.free[c], c, h.arenas);
    }
  }

  lemma LargeLive(h: Heap, m: Mem, p: nat, n: nat)
    requires |h.free| == CLASSES && p !in h.arenas
    ensures var h' := h.(mem := m, arenas := h.arenas[p := Large(n)]);
            OneMoreLive(h, h', 4096 * p + HEADER) && Extent(h', 4096 * p + HEADER) == 4096 * n - HEADER
  {
    var h' := h.(mem := m, arenas := h.arenas[p := Large(n)]);
    assert PageOf(4096 * p + HEADER) == p;
    forall b: nat | b != 4096 * p + HEADER ensures IsLive(h', b) <==> IsLive(h, b) {
      if PageOf(b) != p && PageOf(b) in h.arenas {
        assert h'.arenas[PageOf(b)] == h.arenas[PageOf(b)];
      }
    }
  }

  lemma PopBusy(h: Heap, c: nat, p: nat)
    requires CanPop(h, c) && p == PageOf(h.free[c][0]) && Busy(h.arenas - {p})
    requires h.arenas[p].class_ < CLASSES && h.arenas[p].count <= BlocksPer(h.arenas[p].class_)
    ensures Busy(Pop(h, c).arenas)
  {
    forall q | q in h.arenas && q != p ensures q in h.arenas - {p} && (h.arenas - {p})[q] == h.arenas[q] {
    }
  }

  // ---------------------------------------------------------------------------
  // sys_malloc
  // ---------------------------------------------------------------------------

  /** What a successful sys_malloc promises. */
  ghost predicate Handed(h: Heap, s: Space, size: nat, r: Reply) {
    r.Gives? ==> HeapOk(r.h, s) && OneMoreLive(h, r.h, r.a) && Extent(r.h, r.a) >= size
  }

  lemma MallocLarge(h: Heap, s: Space, size: nat, pool: nat, beyond: bool)
    requires HeapOk(h, s) && 1024 < size < pool
    ensures Handed(h, s, size, Malloc(h, s, size, pool, beyond))
  {
    hide MallocPage, HeapShape, OneMoreLive;
    var n := (size + HEADER + 4095) / 4096;
    ShapeParts(h, s);
    var r := MallocPage(h.mem, s, n, beyond);
    if r.Ok? {
      MallocGivesNewPages(h.mem, s, n, beyond);
      LargeShape(h, s, r.m, r.v, n);
      LargeLive(h, r.m, r.v, n);
    }
  }

  lemma ShapeParts(h: Heap, s: Space)
    requires HeapShape(h, s)
    ensures MemOk(h.mem) && s in h.mem.spaces && Lists(h) && Counts(h)
  {
  }

  lemma MallocReused(h: Heap, s: Space, c: nat)
    requires HeapOk(h, s) && c < CLASSES && h.free[c] != []
    ensures CanPop(h, c) && HeapOk(Pop(h, c), s)
    ensures OneMoreLive(h, Pop(h, c), h.free[c][0]) && Extent(Pop(h, c), h.free[c][0]) == BlockSize(c)
  {
    HeadCanPop(h, s, c);
    PopShape(h, s, c);
    PopLive(h, c);
    var p := PageOf(h.free[c][0]);
    assert Busy(h.arenas - {p});
    PopBusy(h, c, p);
  }

  lemma MallocNew(h: Heap, s: Space, c: nat, m: Mem, p: nat)
    requires HeapOk(h, s) && c < CLASSES && h.free[c] == [] && MemOk(m) && s in m.spaces
    requires NewPages(h.mem.spaces[s].pte, m.spaces[s].pte, p, 1)
    ensures var h1 := NewArena(h, m, p, c);
            && CanPop(h1, c) && HeapOk(Pop(h1, c), s)
            && OneMoreLive(h, Pop(h1, c), h1.free[c][0]) && Extent(Pop(h1, c), h1.free[c][0]) == BlockSize(c)
  {
    hide MemOk;
    var h1 := NewArena(h, m, p, c);
    NewCanPop(h, m, p, c);
    NewArenaShape(h, s, m, p, c);
    NewArenaLive(h, m, p, c);
    PopShape(h1, s, c);
    PopLive(h1, c);
    BlockLayout(p, c, 0);
    assert h1.arenas - {p} == h.arenas;
    PopBusy(h1, c, p);
  }

  /** sys_malloc returns a block that was not live, large enough for the request, and
  leaves every live block and its size alone. */
  lemma MallocHands(h: Heap, s: Space, size: nat, pool: nat, beyond: bool)
    requires HeapOk(h, s)
    ensures Handed(h, s, size, Malloc(h, s, size, pool, beyond))
  {
    if 1024 < size < pool {
      MallocLarge(h, s, size, pool, beyond);
    } else if 0 < size < pool {
      MallocSmall(h, s, size, pool, beyond);
    }
  }

  lemma MallocSmall(h: Heap, s: Space, size: nat, pool: nat, beyond: bool)
    requires HeapOk(h, s) && 0 < size < pool && size <= 1024
    ensures Handed(h, s, size, Malloc(h, s, size, pool, beyond))
  {
    hide MallocPage, HeapShape, OneMoreLive, MemOk, ClassFor, Busy, Pop, NewArena, Extent;
    var c := ClassFor(size, 0);
    ShapeParts(h, s);
    if h.free[c] != [] {
      MallocReused(h, s, c);
    } else if MallocPage(h.mem, s, 1, beyond).Ok? {
      MallocGivesNewPages(h.mem, s, 1, beyond);
      MallocNew(h, s, c, MallocPage(h.mem, s, 1, beyond).m, MallocPage(h.mem, s, 1, beyond).v);
    }
  }

  // ---------------------------------------------------------------------------
  // sys_free
  // ---------------------------------------------------------------------------

  lemma FreeInAfterAppend(list: seq<nat>, c: nat, p: nat, i: nat)
    requires c < CLASSES && i < BlocksPer(c) && Block(p, c, i) !in list
    ensures i !in FreeIn(list, p, c) && FreeIn(list + [Block(p, c, i)], p, c) == FreeIn(list, p, c) + {i}
    ensures forall q: nat :: q != p ==> FreeIn(list + [Block(p, c, i)], q, c) == FreeIn(list, q, c)
  {
    var a := Block(p, c, i);
    forall j: nat | j < BlocksPer(c) ensures Block(p, c, j) in list + [a] <==> Block(p, c, j) in list || j == i {
      if Block(p, c, j) == a {
        IndexUnique(p, c, i, j);
      }
    }
    forall q: nat | q != p ensures FreeIn(list + [a], q, c) == FreeIn(list, q, c) {
      forall j: nat | j < BlocksPer(c) ensures Block(q, c, j) in list + [a] <==> Block(q, c, j) in list {
        BlockLayout(p, c, i);
        BlockLayout(q, c, j);
      }
    }
  }

  ghost predicate LiveSmall(h: Heap, a: nat) {
    IsLive(h, a) && h.arenas[PageOf(a)].Small?
  }

  lemma PutBackLists(h: Heap, a: nat)
    requires Lists(h) && LiveSmall(h, a)
    ensures Lists(PutBack(h, a))
  {
    var h' := PutBack(h, a);
    forall d: nat | d < CLASSES ensures ListOk(h'.free[d], d, h'.arenas) {
      assert ListOk(h.free[d], d, h.arenas);
    }
  }

  lemma PutBackCounts(h: Heap, a: nat)
    requires Lists(h) && Counts(h) && LiveSmall(h, a)
    ensures Counts(PutBack(h, a))
  {
    hide Block, FreeIn, BlocksPer, PageOf;
    var h' := PutBack(h, a);
    var c := h.arenas[PageOf(a)].class_;
    var i: nat :| i < BlocksPer(c) && a == Block(PageOf(a), c, i);
    FreeInAfterAppend(h.free[c], c, PageOf(a), i);
    forall p | p in h'.arenas ensures CountOk(h'.free, p, h'.arenas[p]) {
      assert CountOk(h.free, p, h.arenas[p]);
    }
  }

  lemma PutBackShape(h: Heap, s: Space, a: nat)
    requires HeapShape(h, s) && LiveSmall(h, a)
    ensures HeapShape(PutBack(h, a), s)
  {
    hide MemOk;
    PutBackLists(h, a);
    PutBackCounts(h, a);
    SamePlaces(h.arenas, PutBack(h, a).arenas, h.mem.spaces[s].pte);
  }

  /** An arena whose count is blocks_per_arena has every block in the free list. */
  lemma FullArena(h: Heap, p: nat)
    requires |h.free| == CLASSES && Counts(h) && p in h.arenas && h.arenas[p].Small? && h.arenas[p].class_ < CLASSES
    requires h.arenas[p].count == BlocksPer(h.arenas[p].class_)
    ensures var c := h.arenas[p].class_; forall i: nat :: i < BlocksPer(c) ==> Block(p, c, i) in h.free[c]
  {
    hide Block;
    var c := h.arenas[p].class_;
    assert CountOk(h.free, p, h.arenas[p]);
    SameSize(FreeIn(h.free[c], p, c), Below(BlocksPer(c)));
    forall i: nat | i < BlocksPer(c) ensures Block(p, c, i) in h.free[c] {
      assert i in FreeIn(h.free[c], p, c);
    }
  }

  lemma SameSize(a: set<nat>, b: set<nat>)
    requires a <= b && |a| == |b|
    ensures a == b
  {
    assert b == a + (b - a);
    assert |b - a| == |b| - |a|;
  }

  lemma BlocksInSet(p: nat, c: nat)
    requires c < CLASSES
    ensures forall a :: IsBlock(p, c, a) ==> a in BlockSet(p, c, BlocksPer(c))
  {
  }

  lemma EvictLists(h: Heap, h': Heap, p: nat, c: nat)
    requires Lists(h) && c < CLASSES && p in h.arenas && h.arenas[p].Small? && h.arenas[p].class_ == c
    requires h'.arenas == h.arenas - {p}
    requires h'.free == h.free[c := Minus(h.free[c], BlockSet(p, c, BlocksPer(c)))]
    ensures Lists(h')
  {
    hide PageOf, Block, IsBlock, BlockSet;
    BlocksInSet(p, c);
    forall d: nat | d < CLASSES ensures ListOk(h'.free[d], d, h'.arenas) {
      assert ListOk(h.free[d], d, h.arenas);
    }
  }

  lemma FreeInAfterEvict(list: seq<nat>, p: nat, q: nat, c: nat)
    requires c < CLASSES && p != q
    ensures FreeIn(Minus(list, BlockSet(p, c, BlocksPer(c))), q, c) == FreeIn(list, q, c)
  {
    forall j: nat | j < BlocksPer(c) ensures Block(q, c, j) !in BlockSet(p, c, BlocksPer(c)) {
      if Block(q, c, j) in BlockSet(p, c, BlocksPer(c)) {
        var i: nat :| i < BlocksPer(c) && Block(p, c, i) == Block(q, c, j);
        BlockLayout(p, c, i);
        BlockLayout(q, c, j);
      }
    }
  }

  lemma EvictCounts(h: Heap, h': Heap, p: nat, c: nat)
    requires |h.free| == CLASSES && Counts(h) && c < CLASSES && p in h.arenas
    requires h'.arenas == h.arenas - {p}
    requires h'.free == h.free[c := Minus(h.free[c], BlockSet(p, c, BlocksPer(c)))]
    ensures Counts(h')
  {
    forall q | q in h'.arenas ensures CountOk(h'.free, q, h'.arenas[q]) {
      assert CountOk(h.free, q, h.arenas[q]);
      FreeInAfterEvict(h.free[c], p, q, c);
    }
  }

  lemma PlacedLess(ar: map<nat, Arena>, mapped: map<nat, nat>, mapped': map<nat, nat>, p: nat)
    requires Placed(ar, mapped) && p in ar
    requires forall w :: w in mapped && !(p <= w < p + Span(ar[p])) ==> w in mapped'
    ensures Placed(ar - {p}, mapped')
  {
  }

  lemma MfreeUnmaps(m: Mem, s: Space, p: nat, n: nat)
    requires Freeable(m, s, p, n)
    requires m.spaces[s].vstart <= p && p + n <= m.spaces[s].vstart + |m.spaces[s].vbits|
    ensures var m' := MfreePage(m, s, p, n);
            && s in m'.spaces
            && forall w :: w in m'.spaces[s].pte <==> w in m.spaces[s].pte && !(p <= w < p + n)
  {
    DropKeepsTables(m, s, p, n);
  }

  lemma EvictShape(h: Heap, s: Space, p: nat, h': Heap)
    requires HeapShape(h, s) && p in h.arenas
    requires var n := Span(h.arenas[p]); var t := h.mem.spaces[s];
             Freeable(h.mem, s, p, n) && t.vstart <= p && p + n <= t.vstart + |t.vbits|
             && h'.mem == MfreePage(h.mem, s, p, n) && MemOk(h'.mem)
    requires h'.arenas == h.arenas - {p} && |h'.free| == CLASSES && Lists(h') && Counts(h')
    ensures HeapShape(h', s)
  {
    hide MemOk, Lists, Counts, MfreePage, Freeable;
    MfreeUnmaps(h.mem, s, p, Span(h.arenas[p]));
    PlacedLess(h.arenas, h.mem.spaces[s].pte, h'.mem.spaces[s].pte, p);
  }

  /** sys_free of a live block keeps the invariant. */
  lemma FreeKeeps(h: Heap, s: Space, a: nat)
    requires HeapOk(h, s) && IsLive(h, a)
    ensures HeapOk(Free(h, s, a), s)
  {
    hide MemOk, MfreePage, Freeable, HeapShape, Lists, Counts, IsLive, Minus, BlockSet;
    ShapeParts(h, s);
    AliveParts(h, a);
    var p := PageOf(a);
    var h' := Free(h, s, a);
    ArenaFreeable(h, s, p);
    if h.arenas[p].Large? {
      LargeGone(h, h', p);
      EvictShape(h, s, p, h');
    } else {
      PutBackShape(h, s, a);
      var h1 := PutBack(h, a);
      ShapeParts(h1, s);
      if h1.arenas[p].count == BlocksPer(h.arenas[p].class_) {
        EvictLists(h1, h', p, h.arenas[p].class_);
        EvictCounts(h1, h', p, h.arenas[p].class_);
        EvictShape(h1, s, p, h');
      }
    }
  }

  lemma LargeGone(h: Heap, h': Heap, p: nat)
    requires Lists(h) && Counts(h) && p in h.arenas && h.arenas[p].Large?
    requires h'.free == h.free && h'.arenas == h.arenas - {p}
    ensures Lists(h') && Counts(h')
  {
    forall c: nat | c < CLASSES ensures ListOk(h'.free[c], c, h'.arenas) {
      assert ListOk(h.free[c], c, h.arenas);
    }
    forall q | q in h'.arenas ensures CountOk(h'.free, q, h'.arenas[q]) {
      assert CountOk(h.free, q, h.arenas[q]);
    }
  }

  /** Live blocks after freeing `a`: one less. */
  ghost predicate OneLessLive(h: Heap, h': Heap, a: nat) {
    && (forall b: nat :: IsLive(h', b) <==> IsLive(h, b) && b != a)
    && (forall b: nat :: IsLive(h', b) ==> Extent(h', b) == Extent(h, b))
  }

  lemma PutBackLive(h: Heap, a: nat)
    requires |h.free| == CLASSES && LiveSmall(h, a)
    ensures OneLessLive(h, PutBack(h, a), a)
  {
    var h' := PutBack(h, a);
    forall b: nat ensures IsLive(h', b) <==> IsLive(h, b) && b != a {
      if PageOf(b) in h.arenas {
        assert h'.arenas[PageOf(b)].Small? == h.arenas[PageOf(b)].Small?;
      }
    }
  }

  lemma GoneLive(h: Heap, h': Heap, p: nat, c: nat)
    requires |h.free| == CLASSES && c < CLASSES && p in h.arenas && h.arenas[p].Small? && h.arenas[p].class_ == c
    requires h'.arenas == h.arenas - {p}
    requires h'.free == h.free[c := Minus(h.free[c], BlockSet(p, c, BlocksPer(c)))]
    requires forall i: nat :: i < BlocksPer(c) ==> Block(p, c, i) in h.free[c]
    ensures forall b: nat :: IsLive(h', b) <==> IsLive(h, b)
    ensures forall b: nat :: IsLive(h', b) ==> Extent(h', b) == Extent(h, b)
  {
    hide Block;
    forall b: nat ensures IsLive(h', b) <==> IsLive(h, b) {
      if PageOf(b) in h'.arenas && b in BlockSet(p, c, BlocksPer(c)) {
        var i: nat :| i < BlocksPer(c) && b == Block(p, c, i);
        BlockLayout(p, c, i);
      }
    }
  }

  lemma LargeGoneLive(h: Heap, h': Heap, a: nat)
    requires IsLive(h, a) && h.arenas[PageOf(a)].Large?
    requires h'.free == h.free && h'.arenas == h.arenas - {PageOf(a)}
    ensures OneLessLive(h, h', a)
  {
  }

  /** sys_free takes exactly `a` out of the live blocks. */
  lemma FreeReleases(h: Heap, s: Space, a: nat)
    requires HeapOk(h, s) && IsLive(h, a)
    ensures OneLessLive(h, Free(h, s, a), a)
  {
    hide MemOk, MfreePage, Freeable, IsLive;
    ShapeParts(h, s);
    AliveParts(h, a);
    var p := PageOf(a);
    var h' := Free(h, s, a);
    if h.arenas[p].Large? {
      LargeGoneLive(h, h', a);
    } else {
      var c := h.arenas[p].class_;
      PutBackLive(h, a);
      var h1 := PutBack(h, a);
      if h1.arenas[p].count == BlocksPer(c) {
        PutBackCounts(h, a);
        FullArena(h1, p);
        GoneLive(h1, h', p, c);
      }
    }
  }

  lemma AliveParts(h: Heap, a: nat)
    requires IsLive(h, a)
    ensures PageOf(a) in h.arenas && |h.free| == CLASSES
    ensures h.arenas[PageOf(a)].Small? ==> h.arenas[PageOf(a)].class_ < CLASSES
  {
  }

  /** The arena's page goes back exactly when its last live block is freed. */
  lemma PageGoesWithLastBlock(h: Heap, s: Space, a: nat)
    requires HeapOk(h, s) && IsLive(h, a)
    ensures PageOf(a) in Free(h, s, a).arenas <==> exists b: nat :: b != a && IsLive(h, b) && PageOf(b) == PageOf(a)
    ensures var h' := Free(h, s, a);
            s in h'.mem.spaces && (PageOf(a) in h'.mem.spaces[s].pte <==> PageOf(a) in h'.arenas)
  {
    hide Freeable, MfreePage, MemOk;
    var p := PageOf(a);
    var h' := Free(h, s, a);
    FreeKeeps(h, s, a);
    FreeReleases(h, s, a);
    ArenaFreeable(h, s, p);
    assert CountOk(h.free, p, h.arenas[p]);
    MfreeUnmaps(h.mem, s, p, Span(h.arenas[p]));
    if p in h'.arenas {
      var b := HasLive(h', s, p);
    }
  }

  /** Between calls every arena has a live block. */
  lemma HasLive(h: Heap, s: Space, p: nat) returns (b: nat)
    requires HeapOk(h, s) && p in h.arenas
    ensures IsLive(h, b) && PageOf(b) == p
  {
    hide MemOk;
    match h.arenas[p]
    case Large(_) => b := 4096 * p + HEADER;
    case Small(c, count) =>
      assert CountOk(h.free, p, h.arenas[p]);
      var i := Missing(FreeIn(h.free[c], p, c), BlocksPer(c));
      BlockLayout(p, c, i);
      b := Block(p, c, i);
  }

  lemma Missing(a: set<nat>, n: nat) returns (i: nat)
    requires (forall j :: j in a ==> j < n) && |a| < n
    ensures i < n && i !in a
  {
    var rest := Below(n) - a;
    assert Below(n) * a == a;
    assert |rest| == n - |a|;
    i :| i in rest;
  }

  // ---------------------------------------------------------------------------
  // Live blocks
  // ---------------------------------------------------------------------------

  /** A live block lies in mapped pages, behind every header. */
  lemma LiveInside(h: Heap, s: Space, a: nat)
    requires HeapOk(h, s) && IsLive(h, a)
    ensures var p := PageOf(a);
            && 4096 * p + HEADER <= a && a + Extent(h, a) <= 4096 * (p + Span(h.arenas[p]))
            && (forall w: nat :: a <= w < a + Extent(h, a) ==> PageOf(w) in h.mem.spaces[s].pte)
  {
    hide MemOk;
    var p := PageOf(a);
    if h.arenas[p].Small? {
      var c := h.arenas[p].class_;
      var i: nat :| i < BlocksPer(c) && a == Block(p, c, i);
      BlockLayout(p, c, i);
    }
    forall w: nat | a <= w < a + Extent(h, a) ensures PageOf(w) in h.mem.spaces[s].pte {
      assert p <= PageOf(w) < p + Span(h.arenas[p]);
    }
  }

  /** Two live blocks never overlap. */
  lemma LiveDisjoint(h: Heap, s: Space, a: nat, b: nat)
    requires HeapOk(h, s) && IsLive(h, a) && IsLive(h, b) && a < b
    ensures a + Extent(h, a) <= b
  {
    hide MemOk;
    var p := PageOf(a);
    LiveInside(h, s, a);
    LiveInside(h, s, b);
    if PageOf(b) == p {
      SamePageApart(h, a, b);
    } else {
      assert p < PageOf(b);
      assert p + Span(h.arenas[p]) <= PageOf(b);
    }
  }

  lemma SamePageApart(h: Heap, a: nat, b: nat)
    requires IsLive(h, a) && IsLive(h, b) && a < b && PageOf(a) == PageOf(b)
    ensures a + Extent(h, a) <= b
  {
    var p := PageOf(a);
    var c := h.arenas[p].class_;
    var i: nat :| i < BlocksPer(c) && a == Block(p, c, i);
    var j: nat :| j < BlocksPer(c) && b == Block(p, c, j);
    if j < i {
      BlocksApart(p, c, j, i);
    } else if i < j {
      BlocksApart(p, c, i, j);
    }
  }
}
