/** Runs of one heap among all other users of the page allocator, and the round trip. */
module HeapRuns {
  import opened Basics
  import opened Pages
  import opened PageSafety
  import opened Heaps
  import opened HeapSafety
  import A = AddressSpaces

  datatype Op =
    | Request(size: nat, pool: nat, beyond: bool)  // sys_malloc
    | Return(a: nat)                               // sys_free
    | Other(op: A.Op)                              // pages, forks and exits elsewhere

  /** Nobody else frees the pages of this heap's arenas, or ends its address space. */
  ghost predicate Leaves(h: Heap, s: Space, op: A.Op) {
    match op
    case Spawn(_) => true
    case GetAPage(_, _) => true
    case Alloc(_, _, _) => true
    case Free(s', v, cnt) =>
      s' == s ==> forall p :: p in h.arenas ==> v + cnt <= p || p + Span(h.arenas[p]) <= v
    case Fork(_, _) => true
    case Exit(s') => s' != s
  }

  /** Malloc and Free are defined for good heaps; no step leaves them (StepKeeps), so this
  excludes no run from a good heap. */
  ghost predicate Enabled(h: Heap, s: Space, op: Op) {
    && HeapOk(h, s)
    && match op
       case Request(size, pool, beyond) => !Malloc(h, s, size, pool, beyond).Stops?
       case Return(a) => IsLive(h, a)
       case Other(o) => A.Enabled(h.mem, o) && Leaves(h, s, o)
  }

  ghost function Apply(h: Heap, s: Space, op: Op): Heap
    requires Enabled(h, s, op)
  {
    match op
    case Request(size, pool, beyond) =>
      var r := Malloc(h, s, size, pool, beyond);
      if r.Gives? then r.h else h
    case Return(a) => Free(h, s, a)
    case Other(o) => h.(mem := A.Apply(h.mem, o))
  }

  ghost predicate Legal(h: Heap, s: Space, run: seq<Op>)
    decreases |run|
  {
    run == [] || (Enabled(h, s, run[0]) && Legal(Apply(h, s, run[0]), s, run[1..]))
  }

  ghost function Exec(h: Heap, s: Space, run: seq<Op>): Heap
    requires Legal(h, s, run)
    decreases |run|
  {
    if run == [] then h else Exec(Apply(h, s, run[0]), s, run[1..])
  }

  ghost predicate StillMapped(h: Heap, s: Space, m: Mem)
    requires s in h.mem.spaces
  {
    && s in m.spaces
    && forall p, w :: p in h.arenas && p <= w < p + Span(h.arenas[p]) && w in h.mem.spaces[s].pte ==> w in m.spaces[s].pte
  }

  lemma AllocKeepsMapped(h: Heap, s: Space, s': Space, cnt: nat, beyond: bool)
    requires MemOk(h.mem) && s in h.mem.spaces && s' in h.mem.spaces && MallocPage(h.mem, s', cnt, beyond).Ok?
    ensures StillMapped(h, s, MallocPage(h.mem, s', cnt, beyond).m)
  {
    hide MallocPage, MemOk;
    MallocOk(h.mem, s', cnt, beyond);
  }

  lemma SpawnKeepsMapped(h: Heap, s: Space, s': Space)
    requires s in h.mem.spaces && s' !in h.mem.spaces
    ensures StillMapped(h, s, SetSpace(h.mem, s', A.NewTables()))
  {
  }

  lemma GetKeepsMapped(h: Heap, s: Space, s': Space, v: nat)
    requires MemOk(h.mem) && s in h.mem.spaces && s' in h.mem.spaces && GetPage(h.mem, s', v).Ok?
    ensures StillMapped(h, s, GetPage(h.mem, s', v).m)
  {
    hide GetPage, MemOk;
    GetPageOk(h.mem, s', v);
  }

  lemma FreeKeepsMapped(h: Heap, s: Space, op: A.Op)
    requires s in h.mem.spaces && op.Free? && A.Enabled(h.mem, op) && Leaves(h, s, op)
    ensures StillMapped(h, s, A.Apply(h.mem, op))
  {
    DropKeepsTables(h.mem, op.s, op.v, op.cnt);
    MfreeUnmaps(h.mem, op.s, op.v, op.cnt);
  }

  lemma ForkKeepsMapped(h: Heap, s: Space, op: A.Op)
    requires MemOk(h.mem) && s in h.mem.spaces && op.Fork? && A.Enabled(h.mem, op)
    ensures StillMapped(h, s, A.Apply(h.mem, op))
  {
    hide MemOk, ForkSpace;
    A.ForkOk(h.mem, op.parent, op.child);
  }

  lemma ExitKeepsMapped(h: Heap, s: Space, op: A.Op)
    requires MemOk(h.mem) && s in h.mem.spaces && op.Exit? && A.Enabled(h.mem, op) && op.s != s
    ensures StillMapped(h, s, A.Apply(h.mem, op))
  {
    hide MemOk, ExitSpace, InPools;
    ExitParts(h.mem, op.s);
    A.ExitOk(h.mem, op.s);
  }

  lemma ExitParts(m: Mem, s: Space)
    requires InPools(m, s)
    ensures s in m.spaces
  {
  }

  lemma OtherKeepsMapped(h: Heap, s: Space, op: A.Op)
    requires MemOk(h.mem) && s in h.mem.spaces && A.Enabled(h.mem, op) && Leaves(h, s, op)
    ensures StillMapped(h, s, A.Apply(h.mem, op))
  {
    hide MemOk, StillMapped;
    match op
    case Spawn(s') => SpawnKeepsMapped(h, s, s');
    case GetAPage(s', v) => GetKeepsMapped(h, s, s', v);
    case Alloc(s', cnt, beyond) =>
      if MallocPage(h.mem, s', cnt, beyond).Ok? {
        AllocKeepsMapped(h, s, s', cnt, beyond);
      } else {
        SameMapped(h, s);
      }
    case Free(_, _, _) => FreeKeepsMapped(h, s, op);
    case Fork(_, _) => ForkKeepsMapped(h, s, op);
    case Exit(_) => ExitKeepsMapped(h, s, op);
  }

  lemma SameMapped(h: Heap, s: Space)
    requires s in h.mem.spaces
    ensures StillMapped(h, s, h.mem)
  {
  }

  lemma OtherKeeps(h: Heap, s: Space, op: A.Op)
    requires HeapOk(h, s) && A.Enabled(h.mem, op) && Leaves(h, s, op)
    ensures HeapOk(h.(mem := A.Apply(h.mem, op)), s)
    ensures forall a: nat :: IsLive(h.(mem := A.Apply(h.mem, op)), a) <==> IsLive(h, a)
  {
    hide MemOk, A.Apply, A.Enabled, Leaves, ListOk, CountOk;
    A.StepOk(h.mem, op);
    OtherKeepsMapped(h, s, op);
  }

  /** Every step keeps the heap good. */
  lemma StepKeeps(h: Heap, s: Space, op: Op)
    requires Enabled(h, s, op)
    ensures HeapOk(Apply(h, s, op), s)
  {
    match op
    case Request(size, pool, beyond) => MallocHands(h, s, size, pool, beyond);
    case Return(a) => FreeKeeps(h, s, a);
    case Other(o) => OtherKeeps(h, s, o);
  }

  /** block_desc_init: empty free lists, no arena. */
  lemma FreshHeap(m: Mem, s: Space)
    requires MemOk(m) && s in m.spaces
    ensures HeapOk(Heap(m, [[], [], [], [], [], [], []], map[]), s)
  {
    hide MemOk;
  }

  lemma {:induction false} RunKeeps(h: Heap, s: Space, run: seq<Op>)
    requires HeapOk(h, s) && Legal(h, s, run)
    ensures HeapOk(Exec(h, s, run), s)
    decreases |run|
  {
    hide Apply, Enabled, HeapOk;
    if run != [] {
      StepKeeps(h, s, run[0]);
      RunKeeps(Apply(h, s, run[0]), s, run[1..]);
    }
  }

  /** In every state any run reaches, live blocks are pairwise disjoint and lie in mapped
  pages behind the arena headers, and every page's frame is its own. */
  lemma EveryRunKeepsBlocks(h: Heap, s: Space, run: seq<Op>, a: nat, b: nat)
    requires HeapOk(h, s) && Legal(h, s, run) && a < b
    requires IsLive(Exec(h, s, run), a) && IsLive(Exec(h, s, run), b)
    ensures var h' := Exec(h, s, run);
            && a + Extent(h', a) <= b && 4096 * PageOf(a) + HEADER <= a
            && (forall w: nat :: a <= w < a + Extent(h', a) ==> s in h'.mem.spaces && PageOf(w) in h'.mem.spaces[s].pte)
            && OneUser(h'.mem)
  {
    hide Legal, Exec, IsLive, OneUser, Extent;
    RunKeeps(h, s, run);
    LiveDisjoint(Exec(h, s, run), s, a, b);
    LiveInside(Exec(h, s, run), s, a);
  }

  /** What the callers of sys_malloc hold: the addresses they got and did not return, with
  the sizes they asked for. */
  ghost function Ledger(h: Heap, s: Space, run: seq<Op>, held: map<nat, nat>): map<nat, nat>
    requires Legal(h, s, run)
    decreases |run|
  {
    if run == [] then held else Ledger(Apply(h, s, run[0]), s, run[1..], Entered(h, s, run[0], held))
  }

  ghost function Entered(h: Heap, s: Space, op: Op, held: map<nat, nat>): map<nat, nat>
    requires Enabled(h, s, op)
  {
    match op
    case Request(size, pool, beyond) =>
      var r := Malloc(h, s, size, pool, beyond);
      if r.Gives? then held[r.a := size] else held
    case Return(a) => held - {a}
    case Other(_) => held
  }

  /** The live blocks are exactly those held, each as large as was asked for. */
  ghost predicate Accounted(h: Heap, held: map<nat, nat>) {
    && (forall a: nat :: IsLive(h, a) <==> a in held)
    && (forall a :: a in held ==> IsLive(h, a) && Extent(h, a) >= held[a])
  }

  lemma StepAccounts(h: Heap, s: Space, op: Op, held: map<nat, nat>)
    requires Enabled(h, s, op) && Accounted(h, held)
    ensures Accounted(Apply(h, s, op), Entered(h, s, op, held))
  {
    hide Malloc, Free, IsLive, HeapOk, Extent;
    match op
    case Request(size, pool, beyond) => MallocHands(h, s, size, pool, beyond);
    case Return(a) => FreeReleases(h, s, a);
    case Other(o) =>
      OtherKeeps(h, s, o);
      SameExtents(h, h.(mem := A.Apply(h.mem, o)));
  }

  lemma SameExtents(h: Heap, h': Heap)
    requires h'.arenas == h.arenas
    ensures forall a: nat :: IsLive(h, a) ==> PageOf(a) in h.arenas && Extent(h', a) == Extent(h, a)
  {
  }

  /** After every run, a block is live if and only if sys_malloc returned it and sys_free did
  not take it back, and it has at least the size that was requested. */
  lemma {:induction false} EveryRunAccounts(h: Heap, s: Space, run: seq<Op>, held: map<nat, nat>)
    requires HeapOk(h, s) && Legal(h, s, run) && Accounted(h, held)
    ensures Accounted(Exec(h, s, run), Ledger(h, s, run, held))
    decreases |run|
  {
    hide Apply, Enabled, HeapOk, Accounted, Entered;
    if run != [] {
      StepKeeps(h, s, run[0]);
      StepAccounts(h, s, run[0], held);
      EveryRunAccounts(Apply(h, s, run[0]), s, run[1..], Entered(h, s, run[0], held));
    }
  }

  // ---------------------------------------------------------------------------
  // sys_free undoes sys_malloc
  // ---------------------------------------------------------------------------

  lemma RestoredRefl(m: Mem, s: Space)
    requires s in m.spaces
    ensures RestoredUpToTables(m, m, s)
  {
    assert m.spaces[s := m.spaces[s].(dir := m.spaces[s].dir)] == m.spaces;
  }

  /** The same arenas with the same free blocks, and the pages as before. */
  ghost predicate Undone(h: Heap, h2: Heap, s: Space) {
    && h2.arenas == h.arenas && |h2.free| == |h.free|
    && (forall c :: 0 <= c < |h.free| ==> multiset(h2.free[c]) == multiset(h.free[c]))
    && RestoredUpToTables(h.mem, h2.mem, s)
  }

  lemma UndoReused(h: Heap, s: Space, c: nat)
    requires HeapOk(h, s) && c < CLASSES && h.free[c] != [] && CanPop(h, c)
    requires HeapOk(Pop(h, c), s) && IsLive(Pop(h, c), h.free[c][0])
    ensures Undone(h, Free(Pop(h, c), s, h.free[c][0]), s)
  {
    hide MemOk, RestoredUpToTables, MfreePage, Freeable, IsBlock, Placed, Counts, IsLive, Minus, BlockSet, BlocksPer;
    RestoredRefl(h.mem, s);
    var a := h.free[c][0];
    assert ListOk(h.free[c], c, h.arenas) && a in h.free[c];
    assert h.free[c] == [a] + h.free[c][1..];
    var h2 := Free(Pop(h, c), s, a);
    assert h2.arenas == h.arenas;
  }

  lemma UndoLarge(h: Heap, s: Space, n: nat, beyond: bool)
    requires HeapOk(h, s) && MallocPage(h.mem, s, n, beyond).Ok?
    requires var Ok(m, p) := MallocPage(h.mem, s, n, beyond);
             var h' := h.(mem := m, arenas := h.arenas[p := Large(n)]);
             p !in h.arenas && HeapOk(h', s) && IsLive(h', 4096 * p + HEADER)
    ensures var Ok(m, p) := MallocPage(h.mem, s, n, beyond);
            Undone(h, Free(h.(mem := m, arenas := h.arenas[p := Large(n)]), s, 4096 * p + HEADER), s)
  {
    hide MemOk, RestoredUpToTables, MfreePage, Freeable, MallocPage, Lists, Counts, Placed, IsLive, Busy;
    FreeUndoesMalloc(h.mem, s, n, beyond);
    var Ok(m, p) := MallocPage(h.mem, s, n, beyond);
    assert PageOf(4096 * p + HEADER) == p;
    var h2 := Free(h.(mem := m, arenas := h.arenas[p := Large(n)]), s, 4096 * p + HEADER);
    assert h2.arenas == h.arenas;
  }

  /** Freeing the only live block of a new arena takes all its blocks off the list. */
  lemma NewListEmpties(p: nat, c: nat)
    requires c < CLASSES && BlocksPer(c) > 0
    ensures var list := AllBlocks(p, c, BlocksPer(c));
            Minus(list[1..] + [list[0]], BlockSet(p, c, BlocksPer(c))) == []
  {
    hide Block;
    var list := AllBlocks(p, c, BlocksPer(c));
    var turned := list[1..] + [list[0]];
    forall a | a in turned ensures a in BlockSet(p, c, BlocksPer(c)) {
      var i: nat :| i < |list| && list[i] == a;
      assert Block(p, c, i) in BlockSet(p, c, BlocksPer(c));
    }
    MinusAll(turned, BlockSet(p, c, BlocksPer(c)));
  }

  lemma {:induction false} MinusAll(list: seq<nat>, out: set<nat>)
    requires forall a :: a in list ==> a in out
    ensures Minus(list, out) == []
    decreases |list|
  {
    if list != [] {
      MinusAll(list[1..], out);
    }
  }

  lemma UndoNew(h: Heap, s: Space, c: nat, beyond: bool)
    requires HeapOk(h, s) && c < CLASSES && h.free[c] == [] && MallocPage(h.mem, s, 1, beyond).Ok?
    requires var Ok(m, p) := MallocPage(h.mem, s, 1, beyond);
             var h1 := NewArena(h, m, p, c);
             && p !in h.arenas && CanPop(h1, c) && h1.free[c][0] == Block(p, c, 0)
             && HeapOk(Pop(h1, c), s) && IsLive(Pop(h1, c), Block(p, c, 0))
    ensures var Ok(m, p) := MallocPage(h.mem, s, 1, beyond);
            Undone(h, Free(Pop(NewArena(h, m, p, c), c), s, Block(p, c, 0)), s)
  {
    hide MemOk, RestoredUpToTables, MfreePage, Freeable, MallocPage, Block, HeapShape, IsLive, Free, CanPop, NewArena, Pop;
    ShapeParts(h, s);
    FreeUndoesMalloc(h.mem, s, 1, beyond);
    var Ok(m, p) := MallocPage(h.mem, s, 1, beyond);
    FreeNew(h, s, c, m, p);
  }

  /** Freeing the first block of a new arena leaves the arenas and lists there were. */
  lemma FreeNew(h: Heap, s: Space, c: nat, m: Mem, p: nat)
    requires HeapOk(h, s) && c < CLASSES && h.free[c] == [] && s in m.spaces && Freeable(m, s, p, 1)
    requires m.spaces[s].vstart <= p && p + 1 <= m.spaces[s].vstart + |m.spaces[s].vbits|
    requires var h1 := NewArena(h, m, p, c);
             && p !in h.arenas && CanPop(h1, c) && h1.free[c][0] == Block(p, c, 0)
             && HeapOk(Pop(h1, c), s) && IsLive(Pop(h1, c), Block(p, c, 0))
    ensures Free(Pop(NewArena(h, m, p, c), c), s, Block(p, c, 0)) == h.(mem := MfreePage(m, s, p, 1))
  {
    hide MemOk, MfreePage, Freeable, Block, HeapShape, Busy, IsLive, BlockSize, PageOf;
    ShapeParts(h, s);
    BlocksAtLeastOne(c);
    BlockLayout(p, c, 0);
    NewListEmpties(p, c);
    var list := AllBlocks(p, c, BlocksPer(c));
    assert [] + list == list;
    var h2 := Free(Pop(NewArena(h, m, p, c), c), s, Block(p, c, 0));
    assert h2.arenas == h.arenas;
    assert h2.free == h.free;
  }

  lemma BlocksAtLeastOne(c: nat)
    requires c < CLASSES
    ensures BlocksPer(c) > 0
  {
    SizeBounds(c);
  }

  /** Freeing what sys_malloc just returned gives back the arenas, the free blocks and,
  but for page tables that had to be created, the pages. */
  lemma FreeUndoesMallocBlock(h: Heap, s: Space, size: nat, pool: nat, beyond: bool)
    requires HeapOk(h, s) && Malloc(h, s, size, pool, beyond).Gives?
    ensures var r := Malloc(h, s, size, pool, beyond);
            HeapOk(r.h, s) && IsLive(r.h, r.a) && Undone(h, Free(r.h, s, r.a), s)
  {
    hide MallocPage, HeapShape, Free, Undone, MemOk;
    MallocHands(h, s, size, pool, beyond);
    ShapeParts(h, s);
    if size > 1024 {
      var n := (size + HEADER + 4095) / 4096;
      MallocGivesNewPages(h.mem, s, n, beyond);
      LargeShape(h, s, MallocPage(h.mem, s, n, beyond).m, MallocPage(h.mem, s, n, beyond).v, n);
      UndoLarge(h, s, n, beyond);
    } else {
      var c := ClassFor(size, 0);
      if h.free[c] != [] {
        HeadCanPop(h, s, c);
        UndoReused(h, s, c);
      } else {
        var m, p := MallocPage(h.mem, s, 1, beyond).m, MallocPage(h.mem, s, 1, beyond).v;
        MallocGivesNewPages(h.mem, s, 1, beyond);
        NewArenaShape(h, s, m, p, c);
        NewCanPop(h, m, p, c);
        UndoNew(h, s, c, beyond);
      }
    }
  }
}
