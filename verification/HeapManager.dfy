/** sys_malloc and sys_free as the code runs them, on top of the page manager: the loops
over sizes and blocks, with the code's ASSERTs proved. */
module HeapManagers {
  import opened Basics
  import opened Pages
  import opened PageSafety
  import opened PageManagers
  import opened Heaps
  import opened HeapSafety

  class HeapManager {
    const s: Space
    const pages: PageManager
    var free: seq<seq<nat>>
    var arenas: map<nat, Arena>

    function Abs(): Heap
      reads this, pages
    {
      Heap(pages.Abs(), free, arenas)
    }

    /** The free lists start empty. */
    constructor (pages: PageManager, s: Space)
      requires MemOk(pages.Abs()) && s in pages.spaces
      ensures this.pages == pages && this.s == s
      ensures HeapOk(Abs(), s) && Abs().mem == old(pages.Abs())
      ensures forall a: nat :: !IsLive(Abs(), a)
    {
      this.pages, this.s := pages, s;
      free, arenas := seq(CLASSES, _ => []), map[];
    }

    /** sys_malloc */
    method Request(size: nat, pool: nat, beyond: bool) returns (r: Result)
      requires HeapOk(Abs(), s)
      modifies this, pages
      ensures match Malloc(old(Abs()), s, size, pool, beyond)
              case Stops => r == Stopped
              case Nothing => r == NoPages && Abs() == old(Abs())
              case Gives(h, a) => r == At(a) && Abs() == h
    {
      hide MallocPage, HeapShape, Pop, ClassFor;
      ShapeParts(Abs(), s);
      if !(0 < size < pool) {
        return NoPages;
      }
      if size > 1024 {
        var n := (size + HEADER + 4095) / 4096;
        r := pages.Allocate(s, n, beyond);
        if r.At? {
          arenas := arenas[r.v := Large(n)];
          r := At(4096 * r.v + HEADER);
        }
        return;
      }
      var c := FindClass(size);
      if free[c] == [] {
        r := pages.Allocate(s, 1, beyond);
        if !r.At? {
          return;
        }
        NewCanPop(old(Abs()), pages.Abs(), r.v, c);
        Carve(r.v, c);
      } else {
        HeadCanPop(Abs(), s, c);
      }
      var a := Take(c);
      r := At(a);
    }

    /** The search for the block size. */
    method FindClass(size: nat) returns (c: nat)
      requires size <= 1024
      ensures c == ClassFor(size, 0)
    {
      c := 0;
      while true
        invariant c < CLASSES && ClassFor(size, 0) == ClassFor(size, c)
        decreases CLASSES - c
      {
        if size <= BlockSize(c) {
          return;
        }
        SizeBounds(c);
        c := c + 1;
      }
    }

    /** A new page becomes an arena of blocks, none of which is in the list yet. */
    method Carve(p: nat, c: nat)
      requires c < CLASSES && |free| == CLASSES && free[c] == []
      modifies `free, `arenas
      ensures Abs() == NewArena(old(Abs()), old(pages.Abs()), p, c)
    {
      arenas := arenas[p := Small(c, BlocksPer(c))];
      ghost var lists := free;
      hide Block;
      assert lists[c] + AllBlocks(p, c, 0) == lists[c];
      for i := 0 to BlocksPer(c)
        invariant arenas == old(arenas)[p := Small(c, BlocksPer(c))]
        invariant |free| == CLASSES && free == lists[c := lists[c] + AllBlocks(p, c, i)]
      {
        forall j | 0 <= j < i ensures AllBlocks(p, c, i)[j] != Block(p, c, i) {
          DistinctBlocks(p, c, j, i);
        }
        assert Block(p, c, i) !in free[c];
        free := free[c := free[c] + [Block(p, c, i)]];
        assert lists[c] + AllBlocks(p, c, i) + [Block(p, c, i)] == lists[c] + AllBlocks(p, c, i + 1);
      }
    }

    /** list_pop, and one free block less in its arena */
    method Take(c: nat) returns (a: nat)
      requires CanPop(Abs(), c)
      modifies `free, `arenas
      ensures a == old(free[c][0]) && Abs() == Pop(old(Abs()), c)
    {
      a := free[c][0];
      free := free[c := free[c][1..]];
      arenas := arenas[PageOf(a) := Small(arenas[PageOf(a)].class_, arenas[PageOf(a)].count - 1)];
    }

    /** sys_free */
    method Return(a: nat)
      requires HeapOk(Abs(), s) && IsLive(Abs(), a)
      modifies this, pages
      ensures Abs() == Free(old(Abs()), s, a)
    {
      hide MemOk, MfreePage, Freeable, HeapShape, IsLive, BlocksPer;
      ghost var h := Abs();
      ShapeParts(h, s);
      AliveParts(h, a);
      var p := PageOf(a);
      ArenaFreeable(h, s, p);
      if arenas[p].Large? {
        pages.Release(s, p, arenas[p].pages);
        arenas := arenas - {p};
      } else {
        var c := arenas[p].class_;
        PutBackLists(h, a);
        PutBackCounts(h, a);
        free := free[c := free[c] + [a]];
        arenas := arenas[p := Small(c, arenas[p].count + 1)];
        assert Abs() == PutBack(h, a);
        if arenas[p].count == BlocksPer(c) {
          FullArena(Abs(), p);
          Withdraw(p, c);
          pages.Release(s, p, 1);
          arenas := arenas - {p};
          assert arenas == h.arenas - {p};
        }
      }
    }

    /** Every block of an entirely free arena is in the list, and leaves it. */
    method Withdraw(p: nat, c: nat)
      requires c < CLASSES && |free| == CLASSES
      requires forall i: nat :: i < BlocksPer(c) ==> Block(p, c, i) in free[c]
      modifies `free
      ensures free == old(free)[c := Minus(old(free[c]), BlockSet(p, c, BlocksPer(c)))]
    {
      hide Block, BlocksPer, Minus;
      MinusNothing(free[c]);
      assert BlockSet(p, c, 0) == {};
      for i := 0 to BlocksPer(c)
        invariant free == old(free)[c := Minus(old(free[c]), BlockSet(p, c, i))]
      {
        forall j: nat | j < i ensures Block(p, c, j) != Block(p, c, i) {
          DistinctBlocks(p, c, j, i);
        }
        assert Block(p, c, i) in free[c];
        MinusTwice(old(free[c]), BlockSet(p, c, i), {Block(p, c, i)});
        assert BlockSet(p, c, i + 1) == BlockSet(p, c, i) + {Block(p, c, i)};
        free := free[c := Minus(free[c], {Block(p, c, i)})];
      }
    }
  }

  lemma {:induction false} MinusNothing(list: seq<nat>)
    ensures Minus(list, {}) == list
  {
    if list != [] {
      MinusNothing(list[1..]);
    }
  }

  lemma {:induction false} MinusTwice(list: seq<nat>, a: set<nat>, b: set<nat>)
    ensures Minus(Minus(list, a), b) == Minus(list, a + b)
  {
    if list != [] {
      MinusTwice(list[1..], a, b);
      if list[0] !in a {
        assert Minus(list, a)[1..] == Minus(list[1..], a);
      }
    }
  }

  /** block_desc_init: the sizes double from 16 on. */
  method BlockDescInit() returns (sizes: array<nat>, per: array<nat>)
    ensures sizes.Length == CLASSES && per.Length == CLASSES
    ensures forall c: nat :: c < CLASSES ==> sizes[c] == BlockSize(c) && per[c] == BlocksPer(c)
  {
    sizes, per := new nat[CLASSES], new nat[CLASSES];
    var size := 16;
    for c := 0 to CLASSES
      invariant size == BlockSize(c)
      invariant forall d: nat :: d < c ==> sizes[d] == BlockSize(d) && per[d] == BlocksPer(d)
    {
      SizeBounds(c);
      sizes[c] := size;
      per[c] := (4096 - HEADER) / size;
      size := size * 2;
    }
  }
}
