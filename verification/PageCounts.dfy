/** When frames and page tables suffice: the exact conditions of the ends of malloc_page,
get_a_page and fork, in terms of free frames and missing page tables. */
module PageCounts {
  import opened Basics
  import opened Bitmaps
  import opened Pages
  import opened PageSafety

  /** The directory entries that a set of pages needs. */
  function Slots(pages: set<nat>): set<nat> {
    set v | v in pages :: v / 1024
  }

  /** The pages v .. v + cnt - 1. */
  function Run(v: nat, cnt: nat): (r: set<nat>)
    ensures forall w: nat :: w in r <==> v <= w < v + cnt
    ensures |r| == cnt
    decreases cnt
  {
    if cnt == 0 then {} else Run(v + 1, cnt - 1) + {v}
  }

  /** The page tables that have to be created before `pages` can be mapped. */
  function Missing(t: Tables, pages: set<nat>): nat {
    |Slots(pages) - t.dir.Keys|
  }

  /** The pools have `pages` frames for pages of space `s` and `tables` for page tables. */
  predicate Enough(m: Mem, s: Space, pages: nat, tables: nat) {
    if s == KERNEL then FreeCount(m.kbits) >= pages + tables
    else FreeCount(m.ubits) >= pages && FreeCount(m.kbits) >= tables
  }

  /** From `m` to `m'` exactly so many frames were taken. */
  predicate Took(m: Mem, m': Mem, s: Space, pages: nat, tables: nat) {
    if s == KERNEL then FreeCount(m'.kbits) == FreeCount(m.kbits) - pages - tables && m'.ubits == m.ubits
    else FreeCount(m'.ubits) == FreeCount(m.ubits) - pages && FreeCount(m'.kbits) == FreeCount(m.kbits) - tables
  }

  lemma PallocWhen(m: Mem, user: bool)
    ensures Palloc(m, user).Some? <==> FreeCount(if user then m.ubits else m.kbits) > 0
    ensures Palloc(m, user).Some? ==>
              var m' := Palloc(m, user).value.0;
              && m' == m.(kbits := m'.kbits, ubits := m'.ubits)
              && (if user then m'.kbits == m.kbits && FreeCount(m'.ubits) == FreeCount(m.ubits) - 1
                  else m'.ubits == m.ubits && FreeCount(m'.kbits) == FreeCount(m.kbits) - 1)
  {
    hide FreeCount;
    var bits := if user then m.ubits else m.kbits;
    match FirstFit(bits, 1)
    case Some(i) =>
      assert !bits[i];
      FreeAfterTake(bits, i);
    case None =>
      forall b | 0 <= b < |bits| ensures bits[b] {
        assert !Clear(bits, b, 1);
      }
      NoneFree(bits);
  }

  lemma TableAddWhen(m: Mem, s: Space, v: nat, p: nat)
    requires s in m.spaces && v !in m.spaces[s].pte
    ensures TableAdd(m, s, v, p).Some? <==> v / 1024 in m.spaces[s].dir || FreeCount(m.kbits) > 0
    ensures TableAdd(m, s, v, p).Some? ==>
              var t, m' := m.spaces[s], TableAdd(m, s, v, p).value;
              && s in m'.spaces && m'.spaces == m.spaces[s := m'.spaces[s]] && m'.ubits == m.ubits
              && FreeCount(m'.kbits) == FreeCount(m.kbits) - (if v / 1024 in t.dir then 0 else 1)
              && m'.spaces[s].dir.Keys == t.dir.Keys + {v / 1024}
              && forall w :: w in m'.spaces[s].pte ==> w in t.pte || w == v
  {
    hide FreeCount, Palloc;
    PallocWhen(m, false);
    var t := m.spaces[s];
    if v / 1024 in t.dir {
      assert t.dir.Keys == t.dir.Keys + {v / 1024};
    }
  }

  /** One more page needs a table if its directory entry is empty. */
  lemma OneMoreSlot(dir: set<nat>, pages: set<nat>, v: nat)
    ensures |Slots(pages + {v}) - dir| == |Slots(pages) - (dir + {v / 1024})| + (if v / 1024 in dir then 0 else 1)
  {
    var d := v / 1024;
    assert Slots(pages + {v}) == Slots(pages) + {d};
    if d in dir {
      assert Slots(pages) + {d} - dir == Slots(pages) - (dir + {d});
    } else {
      assert Slots(pages) + {d} - dir == Slots(pages) - (dir + {d}) + {d};
    }
  }

  // ---------------------------------------------------------------------------
  // malloc_page and get_a_page
  // ---------------------------------------------------------------------------

  /** From `m` to `m2` page `v` was mapped in space `s`; `pages` are still to come. */
  ghost predicate OneLess(m: Mem, m2: Mem, s: Space, v: nat, pages: set<nat>) {
    && s in m.spaces && s in m2.spaces && m2.spaces == m.spaces[s := m2.spaces[s]]
    && (forall w: nat :: w in m2.spaces[s].pte ==> w in m.spaces[s].pte || w == v)
    && (Enough(m, s, |pages| + 1, Missing(m.spaces[s], pages + {v})) <==> Enough(m2, s, |pages|, Missing(m2.spaces[s], pages)))
    && (forall m' :: Took(m2, m', s, |pages|, Missing(m2.spaces[s], pages)) ==>
          Took(m, m', s, |pages| + 1, Missing(m.spaces[s], pages + {v})))
  }

  /** One round of the mapping loop. */
  lemma OnePageWhen(m: Mem, s: Space, v: nat, pages: set<nat>)
    requires s in m.spaces && v !in m.spaces[s].pte
    ensures Palloc(m, s != KERNEL).Some? ==> s in Palloc(m, s != KERNEL).value.0.spaces
    ensures Enough(m, s, |pages| + 1, Missing(m.spaces[s], pages + {v})) ==>
              && Palloc(m, s != KERNEL).Some?
              && var (m1, p) := Palloc(m, s != KERNEL).value; TableAdd(m1, s, v, p).Some?
    ensures Palloc(m, s != KERNEL).Some? ==>
              var (m1, p) := Palloc(m, s != KERNEL).value;
              TableAdd(m1, s, v, p).Some? ==> OneLess(m, TableAdd(m1, s, v, p).value, s, v, pages)
  {
    hide FreeCount, Palloc, TableAdd, Slots;
    PallocWhen(m, s != KERNEL);
    OneMoreSlot(m.spaces[s].dir.Keys, pages, v);
    if Palloc(m, s != KERNEL).Some? {
      var (m1, p) := Palloc(m, s != KERNEL).value;
      TableAddWhen(m1, s, v, p);
    }
  }

  /** The mapping loop of malloc_page ends well exactly when the pools have a frame for every
  page and for every missing page table, and takes exactly these. */
  lemma {:induction false} AddPagesWhen(m: Mem, s: Space, v: nat, cnt: nat)
    requires s in m.spaces && forall w :: v <= w < v + cnt ==> w !in m.spaces[s].pte
    ensures AddPages(m, s, v, cnt).Some? <==> Enough(m, s, cnt, Missing(m.spaces[s], Run(v, cnt)))
    ensures AddPages(m, s, v, cnt).Some? ==>
              Took(m, AddPages(m, s, v, cnt).value, s, cnt, Missing(m.spaces[s], Run(v, cnt)))
    decreases cnt
  {
    hide Palloc, TableAdd, Enough, Took, Missing;
    if cnt == 0 {
      NothingNeeded(m, s, v);
    } else {
      assert |Run(v + 1, cnt - 1)| == cnt - 1;
      assert Run(v, cnt) == Run(v + 1, cnt - 1) + {v};
      OnePageWhen(m, s, v, Run(v + 1, cnt - 1));
      if Palloc(m, s != KERNEL).Some? {
        var (m1, p) := Palloc(m, s != KERNEL).value;
        if TableAdd(m1, s, v, p).Some? {
          var m2 := TableAdd(m1, s, v, p).value;
          AddPagesWhen(m2, s, v + 1, cnt - 1);
        }
      }
    }
  }

  lemma NothingNeeded(m: Mem, s: Space, v: nat)
    requires s in m.spaces
    ensures Missing(m.spaces[s], Run(v, 0)) == 0 && Enough(m, s, 0, 0) && Took(m, m, s, 0, 0)
  {
    hide FreeCount;
    assert Run(v, 0) == {};
    assert Slots({}) - m.spaces[s].dir.Keys == {};
  }

  /** `cnt` pages in a row are unused, the lowest such run starts where the space may have
  pages, and there are frames for it. */
  ghost predicate CanAllocate(m: Mem, s: Space, cnt: nat)
    requires s in m.spaces
  {
    var t := m.spaces[s];
    && 0 < cnt < 3840
    && exists i: nat :: && IsFirstFit(t.vbits, cnt, i) && (s != KERNEL ==> t.vstart + i < 0xbffff)
                        && Enough(m, s, cnt, Missing(t, Run(t.vstart + i, cnt)))
  }

  /** Some page is unused, but there is no run of `cnt` in the bits that the scan reads. */
  ghost predicate NoRun(m: Mem, s: Space, cnt: nat, beyond: bool)
    requires s in m.spaces
  {
    var b := m.spaces[s].vbits;
    0 < cnt < 3840 && !NoFit(b, 1) && NoFit(b + [beyond], cnt)
  }

  lemma FitIs(b: seq<bool>, cnt: nat)
    ensures NoFit(b, cnt) <==> FirstFit(b, cnt) == None
    ensures forall i: nat :: IsFirstFit(b, cnt, i) <==> FirstFit(b, cnt) == Some(i)
  {
    forall i: nat ensures IsFirstFit(b, cnt, i) <==> FirstFit(b, cnt) == Some(i) {
      FirstFitUnique(b, cnt, i);
    }
    FirstFitUnique(b, cnt, 0);
  }

  /** How malloc_page ends. It gives pages exactly when it can, and takes exactly the frames it
  needs; it answers NULL exactly when some page is unused but no run is found; it writes
  outside the bitmap exactly when the only run needs the bit behind it; and otherwise an
  ASSERT fails. */
  lemma MallocWhen(m: Mem, s: Space, cnt: nat, beyond: bool)
    requires s in m.spaces && VBitsExact(m, s)
    ensures var b, r := m.spaces[s].vbits, MallocPage(m, s, cnt, beyond);
            && (r.Ok? <==> CanAllocate(m, s, cnt))
            && (r.Null? <==> NoRun(m, s, cnt, beyond))
            && (r.Corrupts? <==> 0 < cnt < 3840 && !NoFit(b, 1) && NoFit(b, cnt) && !NoFit(b + [beyond], cnt))
    ensures MallocPage(m, s, cnt, beyond).Ok? ==>
              var Ok(m', v) := MallocPage(m, s, cnt, beyond);
              Took(m, m', s, cnt, Missing(m.spaces[s], Run(v, cnt)))
  {
    hide AddPages, SetRange, ScanSpec, Enough, Took, Missing, Run, NoFit, Clear, FirstFit, VBitsExact;
    if 0 < cnt < 3840 {
      ScanEnds(m.spaces[s].vbits, beyond, cnt);
      FitIs(m.spaces[s].vbits, cnt);
      if FirstFit(m.spaces[s].vbits, cnt).Some? {
        MarkedWhen(m, s, FirstFit(m.spaces[s].vbits, cnt).value, cnt);
      }
    }
  }

  lemma ScanEnds(b: seq<bool>, beyond: bool, cnt: nat)
    requires cnt > 0
    ensures ScanSpec(b, beyond, cnt).Panic? <==> NoFit(b, 1)
    ensures ScanSpec(b, beyond, cnt).NotFound? <==> !NoFit(b, 1) && NoFit(b + [beyond], cnt)
    ensures ScanSpec(b, beyond, cnt).Found? ==>
              if ScanSpec(b, beyond, cnt).start + cnt > |b| then NoFit(b, cnt)
              else FirstFit(b, cnt) == Some(ScanSpec(b, beyond, cnt).start)
    ensures FirstFit(b, cnt).Some? ==> !NoFit(b, 1) && !NoFit(b + [beyond], cnt)
  {
    hide FirstFit, NoFit, IsFirstFit, Overruns, ScanSpec, Clear;
    ScanIsFirstFit(b, beyond, cnt);
    FitIs(b, 1);
    FitIs(b, cnt);
    FitIs(b + [beyond], cnt);
    LongerFits(b, beyond, cnt);
    OverrunsWhen(b, beyond, cnt);
  }

  lemma LongerFits(b: seq<bool>, beyond: bool, cnt: nat)
    requires cnt > 0
    ensures !NoFit(b, cnt) ==> !NoFit(b, 1) && !NoFit(b + [beyond], cnt)
    ensures forall i: nat :: IsFirstFit(b, cnt, i) ==> i + cnt <= |b|
  {
    if s: nat :| Clear(b, s, cnt) {
      assert Clear(b, s, 1);
      ClearExtended(b, beyond, cnt, s);
    }
  }

  lemma OverrunsWhen(b: seq<bool>, beyond: bool, cnt: nat)
    requires cnt > 0
    ensures Overruns(b, beyond, cnt) <==> !NoFit(b, 1) && NoFit(b, cnt) && !NoFit(b + [beyond], cnt)
  {
    hide FirstFit;
    FitIs(b, 1);
    FitIs(b, cnt);
    forall s: nat ensures Clear(b + [beyond], s, cnt) <==> Clear(b, s, cnt) || (s + cnt == |b| + 1 && Clear(b, s, cnt - 1) && !beyond) {
      ClearExtended(b, beyond, cnt, s);
    }
    if Overruns(b, beyond, cnt) {
      assert Clear(b + [beyond], |b| + 1 - cnt, cnt);
    }
  }

  /** Marking and mapping the unused pages i .. i + cnt - 1 of the bitmap. */
  lemma MarkedWhen(m: Mem, s: Space, i: nat, cnt: nat)
    requires s in m.spaces && VBitsExact(m, s) && Clear(m.spaces[s].vbits, i, cnt)
    ensures var t := m.spaces[s];
            var m1 := SetSpace(m, s, t.(vbits := SetRange(t.vbits, i, cnt, true)));
            && (AddPages(m1, s, t.vstart + i, cnt).Some? <==> Enough(m, s, cnt, Missing(t, Run(t.vstart + i, cnt))))
            && (AddPages(m1, s, t.vstart + i, cnt).Some? ==>
                  Took(m, AddPages(m1, s, t.vstart + i, cnt).value, s, cnt, Missing(t, Run(t.vstart + i, cnt))))
  {
    hide AddPages, SetRange, FreeCount, Slots, Run, Missing, VBitsExact, Clear;
    var t := m.spaces[s];
    ClearUnused(m, s, i, cnt);
    var m1 := SetSpace(m, s, t.(vbits := SetRange(t.vbits, i, cnt, true)));
    AddPagesWhen(m1, s, t.vstart + i, cnt);
    SameDir(t, m1.spaces[s], Run(t.vstart + i, cnt));
  }

  lemma ClearUnused(m: Mem, s: Space, i: nat, cnt: nat)
    requires s in m.spaces && VBitsExact(m, s) && Clear(m.spaces[s].vbits, i, cnt)
    ensures i + cnt <= |m.spaces[s].vbits|
    ensures var t := m.spaces[s]; forall w :: t.vstart + i <= w < t.vstart + i + cnt ==> w !in t.pte
  {
    var t := m.spaces[s];
    forall w | t.vstart + i <= w < t.vstart + i + cnt ensures w !in t.pte {
      assert !t.vbits[w - t.vstart];
    }
  }

  lemma SameDir(t: Tables, t': Tables, pages: set<nat>)
    requires t'.dir == t.dir
    ensures Missing(t', pages) == Missing(t, pages)
  {
  }

  /** How get_a_page ends. */
  lemma GetPageWhen(m: Mem, s: Space, v: nat)
    requires MemOk(m) && s in m.spaces
    ensures var t, r := m.spaces[s], GetPage(m, s, v);
            && (r.Ok? <==>
                  && t.vstart <= v < t.vstart + |t.vbits| && (s == KERNEL ==> v != t.vstart)
                  && v !in t.pte && Enough(m, s, 1, if v / 1024 in t.dir then 0 else 1))
            && (r.Corrupts? <==> !(t.vstart <= v < t.vstart + |t.vbits|) && !(s == KERNEL && v == t.vstart))
            && !r.Null?
            && (r.Ok? ==> Took(m, r.m, s, 1, if v / 1024 in t.dir then 0 else 1))
  {
    hide SetRange, Palloc, TableAdd, AddPages, Enough, Took, Missing, Run, VBitsExact, Frames, Clear;
    var t := m.spaces[s];
    if t.vstart <= v < t.vstart + |t.vbits| {
      if v in t.pte {
        MappedStops(m, Marked(m, s, v, 1), s, v);
      } else {
        UnusedClear(m, s, v);
        MarkedWhen(m, s, v - t.vstart, 1);
        OneSlot(t, v);
      }
    }
  }

  lemma UnusedClear(m: Mem, s: Space, v: nat)
    requires s in m.spaces && VBitsExact(m, s) && v !in m.spaces[s].pte
    requires m.spaces[s].vstart <= v < m.spaces[s].vstart + |m.spaces[s].vbits|
    ensures Clear(m.spaces[s].vbits, v - m.spaces[s].vstart, 1)
  {
  }

  lemma OneSlot(t: Tables, v: nat)
    ensures Missing(t, Run(v, 1)) == if v / 1024 in t.dir then 0 else 1
  {
    assert Run(v, 1) == {v};
    assert Slots({v}) == {v / 1024};
    assert Slots({v}) - t.dir.Keys == if v / 1024 in t.dir then {} else {v / 1024};
  }

  // ---------------------------------------------------------------------------
  // fork
  // ---------------------------------------------------------------------------

  /** The pages of a space from page `b` on. */
  function PagesFrom(t: Tables, b: nat): set<nat> {
    set v | v in t.pte && v >= b
  }

  lemma NextFrom(t: Tables, b: nat)
    ensures PagesFrom(t, b) == PagesFrom(t, b + 1) + (if b in t.pte then {b} else {})
    ensures b in t.pte ==> |PagesFrom(t, b)| == |PagesFrom(t, b + 1)| + 1
  {
    assert b !in PagesFrom(t, b + 1);
  }

  ghost predicate ForkPart(m: Mem, c: Space, parent: Space, i: nat) {
    && c in m.spaces && parent in m.spaces && c != parent && c != KERNEL && VBitsExact(m, parent)
    && i <= |m.spaces[parent].vbits|
    && forall v :: v in m.spaces[parent].pte && v >= m.spaces[parent].vstart + i ==> v !in m.spaces[c].pte
  }

  lemma {:induction false} CopyPagesWhen(m: Mem, c: Space, parent: Space, i: nat)
    requires ForkPart(m, c, parent, i)
    ensures var rest := PagesFrom(m.spaces[parent], m.spaces[parent].vstart + i);
            && (CopyPages(m, c, parent, i).Some? <==> Enough(m, c, |rest|, Missing(m.spaces[c], rest)))
            && (CopyPages(m, c, parent, i).Some? ==>
                  Took(m, CopyPages(m, c, parent, i).value, c, |rest|, Missing(m.spaces[c], rest)))
    decreases |m.spaces[parent].vbits| - i
  {
    hide Palloc, TableAdd, PageAt, Enough, Took, Missing, PagesFrom;
    var t := m.spaces[parent];
    if i == |t.vbits| {
      LastPart(m, c, parent);
    } else {
      var v := t.vstart + i;
      NextFrom(t, v);
      if !t.vbits[i] {
        assert PagesFrom(t, v) == PagesFrom(t, v + 1);
        CopyPagesWhen(m, c, parent, i + 1);
      } else {
        assert v in t.pte;
        OnePageWhen(m, c, v, PagesFrom(t, v + 1));
        if Palloc(m, true).Some? {
          var (m1, p) := Palloc(m, true).value;
          if TableAdd(m1, c, v, p).Some? {
            var m2 := TableAdd(m1, c, v, p).value;
            var m3 := m2.(page := m2.page[p := PageAt(m, t.pte[v])]);
            SameCounts(m2, m3, c, PagesFrom(t, v + 1));
            CopyPagesWhen(m3, c, parent, i + 1);
          }
        }
      }
    }
  }

  lemma LastPart(m: Mem, c: Space, parent: Space)
    requires parent in m.spaces && ForkPart(m, c, parent, |m.spaces[parent].vbits|)
    ensures var rest := PagesFrom(m.spaces[parent], m.spaces[parent].vstart + |m.spaces[parent].vbits|);
            |rest| == 0 && Missing(m.spaces[c], rest) == 0 && Enough(m, c, 0, 0) && Took(m, m, c, 0, 0)
  {
    hide FreeCount;
    var rest := PagesFrom(m.spaces[parent], m.spaces[parent].vstart + |m.spaces[parent].vbits|);
    assert rest == {};
    assert Slots({}) - m.spaces[c].dir.Keys == {};
  }

  lemma SameCounts(m: Mem, m3: Mem, c: Space, pages: set<nat>)
    requires c in m.spaces && m3 == m.(page := m3.page)
    ensures Enough(m, c, |pages|, Missing(m.spaces[c], pages)) <==> Enough(m3, c, |pages|, Missing(m3.spaces[c], pages))
    ensures forall m' :: Took(m3, m', c, |pages|, Missing(m3.spaces[c], pages)) ==> Took(m, m', c, |pages|, Missing(m.spaces[c], pages))
  {
  }

  /** fork copies the address space exactly when the user pool has a frame for every page of
  the parent and the kernel pool one for every page table the parent's pages need, and takes
  exactly these. */
  lemma ForkWhen(m: Mem, parent: Space, c: Space)
    requires MemOk(m) && parent in m.spaces && c !in m.spaces && c != KERNEL
    ensures var t := m.spaces[parent];
            && (ForkSpace(m, parent, c).Some? <==>
                  FreeCount(m.ubits) >= |t.pte| && FreeCount(m.kbits) >= |Slots(t.pte.Keys)|)
            && (ForkSpace(m, parent, c).Some? ==>
                  var m' := ForkSpace(m, parent, c).value;
                  && FreeCount(m'.ubits) == FreeCount(m.ubits) - |t.pte|
                  && FreeCount(m'.kbits) == FreeCount(m.kbits) - |Slots(t.pte.Keys)|)
  {
    hide CopyPages, FreeCount, Slots;
    var t := m.spaces[parent];
    var m0 := SetSpace(m, c, Tables(t.vstart, t.vbits, map[], map[]));
    assert VBitsExact(m, parent);
    CopyPagesWhen(m0, c, parent, 0);
    assert PagesFrom(t, t.vstart) == t.pte.Keys;
    assert Slots(t.pte.Keys) - m0.spaces[c].dir.Keys == Slots(t.pte.Keys);
  }
}
