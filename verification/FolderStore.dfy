/** sync_dir_entry, delete_dir_entry and inode_release of a directory (fs/dir.c, fs/inode.c)
as the code runs them on the sectors and the block bitmap of a partition. */
module FolderStores {
  import opened Basics
  import opened Bitmaps
  import opened FileBlocks
  import opened FileStores
  import opened FolderBlocks
  import opened Folders
  import D = Directories
  import S = DirectoryStores

  /** delete_dir_entry returned true; it returned false; or it does not return. */
  datatype End = Finished | Absent | Endless

  /** The sectors sync_dir_entry takes: none, a block, or a table and a block. */
  function Wants(d: D.Dir): nat
    requires |d.blocks| == D.BLOCKS
  {
    var i := D.Room(d.blocks, 0);
    if i == D.DIRECT then 2 else if d.blocks[i].None? then 1 else 0
  }

  /** The sectors that sync_dir_entry makes unreachable. */
  ghost function Lost(d: D.Dir, f: Folder): set<nat>
    requires |d.blocks| == D.BLOCKS && Shape(f)
  {
    if D.CanInsert(d) then {} else Behind(f)
  }

  class FolderStore {
    const store: FileStore
    var nodes: map<nat, Node>

    constructor (store: FileStore, root: Node)
      ensures this.store == store && nodes == map[0 := root]
    {
      this.store := store;
      nodes := map[0 := root];
    }

    /** An entry goes into slot `j` of block `i`, which is sector `lba`. */
    method FillSlot(d: nat, i: nat, j: nat, lba: nat, e: D.Entry, ghost list: seq<nat>, ghost rest: set<nat>)
      requires d in nodes && FolderOk(store.Vol(), Folder(nodes[d], list), rest) && Storable(e)
      requires i < MAX_BLOCKS && j < 21 && lba == list[i] != 0 && lba < |store.disk|
      modifies `nodes, store`disk
      ensures d in nodes && nodes == old(nodes)[d := nodes[d]] && Shape(Folder(nodes[d], list))
      ensures FolderOk(store.Vol(), Folder(nodes[d], list), rest) && WroteIn(old(store.disk), store.disk, Taken(Folder(nodes[d], list)))
      ensures var dir := old(DirOf(store.disk, Folder(nodes[d], list)));
              DirOf(store.disk, Folder(nodes[d], list))
              == D.Dir(dir.blocks[i := Some(BlockOf(old(store.disk[lba]))[j := Some(e)])], dir.table, dir.size + 24)
    {
      hide FolderOk, BlockOf, EncodeEntry, DecodeEntry, DirOf, WroteIn;
      var buf := Patch(store.disk[lba], j, EncodeEntry(e));
      PatchBlock(store.disk[lba], j, EncodeEntry(e));
      DecodeEncodeEntry(e);
      WriteBlock(store.Vol(), Folder(nodes[d], list), rest, i, buf, nodes[d].size + 24);
      ShapeOf(store.Vol(), Folder(nodes[d], list), rest);
      DirParts(store.disk, Folder(nodes[d], list));
      store.disk := store.disk[lba := buf];
      nodes := nodes[d := nodes[d].(size := nodes[d].size + 24)];
    }

    /** Direct block `i` is missing: it is allocated and gets the entry. */
    method AddDirect(d: nat, i: nat, e: D.Entry, ghost list: seq<nat>, ghost rest: set<nat>) returns (ok: bool, ghost list': seq<nat>)
      requires d in nodes && FolderOk(store.Vol(), Folder(nodes[d], list), rest) && Storable(e)
      requires i < 12 && list[i] == 0
      modifies `nodes, store`disk, store`bits
      ensures ok <==> FreeCount(old(store.bits)) >= 1
      ensures ok ==> d in nodes && nodes == old(nodes)[d := nodes[d]] && Shape(Folder(nodes[d], list')) && |store.bits| == |old(store.bits)|
      ensures ok ==> FolderOk(store.Vol(), Folder(nodes[d], list'), rest)
      ensures ok ==> WroteIn(old(store.disk), store.disk, Taken(Folder(nodes[d], list')))
      ensures ok ==>
                var dir := old(DirOf(store.disk, Folder(nodes[d], list)));
                DirOf(store.disk, Folder(nodes[d], list')) == D.Dir(dir.blocks[i := Some(D.NewBlock(e))], dir.table, dir.size + 24)
    {
      hide FolderOk, BlockOf, EncodeEntry, FirstEntry, DirOf, WroteIn, Ours, FreeCount, D.NewBlock;
      ghost var f := Folder(nodes[d], list);
      ghost var v := store.Vol();
      ShapeOf(v, f, rest);
      DirParts(store.disk, f);
      list' := list;
      var lba := store.AllocBlock([], Taken(f) + rest);
      if lba.None? {
        return false, list';
      }
      assert [] + [lba.value] == [lba.value];
      NewDirect(v, store.Vol(), f, rest, i, lba.value, FirstEntry(e), nodes[d].size + 24);
      FirstEntryBlock(e);
      store.disk := store.disk[lba.value := FirstEntry(e)];
      nodes := nodes[d := Node(nodes[d].size + 24, nodes[d].sectors[i := lba.value])];
      list' := list[i := lba.value];
      ok := true;
    }

    /** All direct blocks are full: a table is allocated, and a block that gets the entry. */
    method AddTable(d: nat, e: D.Entry, all: array<nat>, ghost list: seq<nat>, ghost rest: set<nat>)
      returns (ok: bool, ghost list': seq<nat>)
      requires d in nodes && FolderOk(store.Vol(), Folder(nodes[d], list), rest) && Storable(e)
      requires all.Length == MAX_BLOCKS && all[..12] == list[..12] && forall i :: 12 <= i < MAX_BLOCKS ==> all[i] == 0
      modifies `nodes, store`disk, store`bits, all
      ensures ok <==> FreeCount(old(store.bits)) >= 2
      ensures ok ==> d in nodes && nodes == old(nodes)[d := nodes[d]] && Shape(Folder(nodes[d], list')) && |store.bits| == |old(store.bits)|
      ensures Shape(old(Folder(nodes[d], list)))
      ensures ok ==>
                var lost := Behind(old(Folder(nodes[d], list)));
                && FolderOk(store.Vol(), Folder(nodes[d], list'), rest + lost)
                && lost !! rest && lost !! Taken(Folder(nodes[d], list')) && InData(store.Vol(), lost)
      ensures ok ==> WroteIn(old(store.disk), store.disk, Taken(Folder(nodes[d], list')))
      ensures ok ==>
                var dir := old(DirOf(store.disk, Folder(nodes[d], list)));
                DirOf(store.disk, Folder(nodes[d], list'))
                == D.Dir(dir.blocks[..12] + [Some(D.NewBlock(e))] + seq(127, _ => None), true, dir.size + 24)
    {
      hide FolderOk, BlockOf, EncodeEntry, FirstEntry, DirOf, WroteIn, Ours, FreeCount, D.NewBlock, Encode, InData;
      ghost var f := Folder(nodes[d], list);
      ghost var v := store.Vol();
      ShapeOf(v, f, rest);
      DirParts(store.disk, f);
      BehindIn(v, f, rest);
      list' := list;
      var table := store.AllocBlock([], Taken(f) + rest);
      if table.None? {
        return false, list';
      }
      assert [] + [table.value] == [table.value];
      var lba := store.AllocBlock([table.value], Taken(f) + rest);
      if lba.None? {
        return false, list';
      }
      assert [table.value] + [lba.value] == [table.value, lba.value];
      all[12] := lba.value;
      list' := list[..12] + [lba.value] + ZeroTail();
      assert all[12..] == list'[12..];
      Folders.NewTable(v, store.Vol(), f, rest, table.value, lba.value, FirstEntry(e), nodes[d].size + 24);
      FirstEntryBlock(e);
      store.disk := store.disk[table.value := Encode(all[12..])];
      store.disk := store.disk[lba.value := FirstEntry(e)];
      nodes := nodes[d := Node(nodes[d].size + 24, nodes[d].sectors[12 := table.value])];
      DataSame(v, store.Vol(), Behind(f));
      ok := true;
    }

    /** sync_dir_entry: the first free slot of the direct blocks, else a new indirect table.
    It stops at bitmap_scan's ASSERT when the partition is full. The directory still owns
    exactly its sectors if and only if it had room in a direct block or no table; else the
    old table and its blocks are marked in the bitmap, and nothing leads to them. */
    method AddEntry(d: nat, e: D.Entry, ghost list: seq<nat>, ghost rest: set<nat>) returns (ok: bool, ghost list': seq<nat>)
      requires d in nodes && FolderOk(store.Vol(), Folder(nodes[d], list), rest) && Storable(e)
      modifies `nodes, store`disk, store`bits
      ensures Shape(old(Folder(nodes[d], list)))
      ensures ok <==> FreeCount(old(store.bits)) >= Wants(old(DirOf(store.disk, Folder(nodes[d], list))))
      ensures ok ==> d in nodes && nodes == old(nodes)[d := nodes[d]] && Shape(Folder(nodes[d], list')) && |store.bits| == |old(store.bits)|
      ensures ok ==> DirOf(store.disk, Folder(nodes[d], list')) == D.Insert(old(DirOf(store.disk, Folder(nodes[d], list))), e)
      ensures ok ==> WroteIn(old(store.disk), store.disk, Taken(Folder(nodes[d], list')))
      ensures ok ==>
                FolderOk(store.Vol(), Folder(nodes[d], list'),
                         rest + old(Lost(DirOf(store.disk, Folder(nodes[d], list)), Folder(nodes[d], list))))
      ensures ok ==>
                (FolderOk(store.Vol(), Folder(nodes[d], list'), rest) <==> D.CanInsert(old(DirOf(store.disk, Folder(nodes[d], list)))))
    {
      hide FolderOk, BlockOf, EncodeEntry, WroteIn, Ours, FreeCount, D.NewBlock, D.Room, D.Insert, D.CanInsert,
        Wants, DirOf, Lost, Leads, Behind, Taken;
      ghost var f := Folder(nodes[d], list);
      ShapeOf(store.Vol(), f, rest);
      ghost var dir := DirOf(store.disk, f);
      DirParts(store.disk, f);
      list' := list;
      var all := new nat[140](_ => 0);
      CopyDirect(d, all, list);
      var i := 0;
      while i < 12
        invariant 0 <= i <= 12 && D.Room(dir.blocks, 0) == D.Room(dir.blocks, i)
        invariant nodes == old(nodes) && store.Vol() == old(store.Vol()) && fresh(all)
        invariant all[..12] == list[..12] && forall j :: 12 <= j < MAX_BLOCKS ==> all[j] == 0
      {
        BlockAt(store.Vol(), f, rest, i);
        assert all[i] == all[..12][i] == list[i];
        if all[i] == 0 {
          RoomHere(dir.blocks, i);
          InsertNew(dir, e, i);
          NothingLost(dir, f, rest);
          ok, list' := AddDirect(d, i, e, list, rest);
          return;
        }
        var j := S.FreeSlot(BlockOf(store.disk[all[i]]));
        if j < 21 {
          RoomHere(dir.blocks, i);
          InsertInto(dir, e, i);
          NothingLost(dir, f, rest);
          FillSlot(d, i, j, all[i], e, list, rest);
          return true, list;
        }
        NoRoomHere(dir.blocks, i);
        i := i + 1;
      }
      RoomNowhere(dir.blocks);
      InsertBehind(dir, e);
      NothingBehind(store.Vol(), f, rest);
      ok, list' := AddTable(d, e, all, list, rest);
      if ok {
        TableLost(store.Vol(), dir, f, Folder(nodes[d], list'), rest);
      }
    }

    /** The addresses of all blocks, direct and indirect. */
    method Collect(d: nat, all: array<nat>, ghost list: seq<nat>, ghost rest: set<nat>)
      requires d in nodes && FolderOk(store.Vol(), Folder(nodes[d], list), rest)
      requires all.Length == MAX_BLOCKS && forall j :: 0 <= j < MAX_BLOCKS ==> all[j] == 0
      modifies all
      ensures all[..] == list
    {
      hide Ours, OnePosition, Taken;
      CopyDirect(d, all, list);
      if nodes[d].sectors[12] != 0 {
        store.LoadTable(all, nodes[d].sectors[12]);
        assert all[..] == all[..12] + all[12..];
        assert list == list[..12] + list[12..];
      } else {
        assert all[..] == all[..12] + all[12..];
        assert list == list[..12] + list[12..];
        assert all[12..] == list[12..];
      }
    }

    /** delete_dir_entry: clears the entry, or gives its block back if it was the only one
    and the block is not the first. In an indirect block the latter does not end. */
    method DeleteEntry(d: nat, ino: nat, ghost list: seq<nat>, ghost rest: set<nat>) returns (r: End, ghost list': seq<nat>)
      requires d in nodes && FolderOk(store.Vol(), Folder(nodes[d], list), rest) && Shape(Folder(nodes[d], list))
      requires D.DirOk(DirOf(store.disk, Folder(nodes[d], list)))
      modifies `nodes, store`disk, store`bits
      ensures old(DirOf(store.disk, Folder(nodes[d], list))).size >= D.ENTRY_SIZE
      ensures var deleted := D.Delete(old(DirOf(store.disk, Folder(nodes[d], list))), ino);
              && (r == Endless <==> deleted == D.Hangs) && (r == Absent <==> deleted == D.NotFound)
              && (r == Absent ==> nodes == old(nodes) && store.Vol() == old(store.Vol()))
              && (r == Finished ==>
                    && d in nodes && nodes == old(nodes)[d := nodes[d]] && Shape(Folder(nodes[d], list')) && |store.bits| == |old(store.bits)|
                    && DirOf(store.disk, Folder(nodes[d], list')) == deleted.d
                    && FolderOk(store.Vol(), Folder(nodes[d], list'), rest)
                    && WroteIn(old(store.disk), store.disk, Taken(Folder(nodes[d], list'))))
    {
      hide FolderOk, BlockOf, WroteIn, Ours, DirOf, D.DirOk, Taken, D.Delete, Leads, D.FileCount, D.HasDot, D.SlotWith;
      ghost var f := Folder(nodes[d], list);
      ghost var dir := DirOf(store.disk, f);
      DirParts(store.disk, f);
      D.NotEmpty(dir);
      list' := list;
      var all := new nat[140](_ => 0);
      Collect(d, all, list, rest);
      var i, found, count, first := Locate(d, ino, all, list, rest);
      if i == 140 {
        return Absent, list;
      }
      if count == 1 && !first {
        if i >= 12 {
          return Endless, list;
        }
        NotFirst(dir, i);
        list' := FreeBlockAt(d, i, all[i], list, rest);
        WroteNothing(store.disk, Taken(Folder(nodes[d], list')));
      } else {
        ClearSlot(d, i, found, all[i], list, rest);
      }
      r := Finished;
    }

    /** The loop over the blocks: where the entry is, how many files its block has, and
    whether that is the first block. */
    method Locate(d: nat, ino: nat, all: array<nat>, ghost list: seq<nat>, ghost rest: set<nat>)
      returns (i: nat, found: nat, count: nat, first: bool)
      requires d in nodes && FolderOk(store.Vol(), Folder(nodes[d], list), rest) && Shape(Folder(nodes[d], list))
      requires D.DirOk(DirOf(store.disk, Folder(nodes[d], list))) && DirOf(store.disk, Folder(nodes[d], list)).size >= 24
      requires all.Length == MAX_BLOCKS && all[..] == list
      ensures i <= 140
      ensures i == 140 ==> D.Delete(DirOf(store.disk, Folder(nodes[d], list)), ino) == D.NotFound
      ensures i < 140 ==>
                && found < 21 && all[i] == list[i] && 0 < list[i] < |store.disk|
                && var dir := DirOf(store.disk, Folder(nodes[d], list)); var b := BlockOf(store.disk[list[i]]);
                   && dir.blocks[i] == Some(b) && first == D.HasDot(b)
                   && D.Delete(dir, ino) ==
                        if count == 1 && !first then
                          if i < D.DIRECT then D.Gone(D.Dir(dir.blocks[i := None], dir.table, dir.size - 24)) else D.Hangs
                        else D.Gone(D.Dir(dir.blocks[i := Some(b[found := None])], dir.table, dir.size - 24))
    {
      hide FolderOk, BlockOf, DirOf, D.DirOk, D.BlockWith, D.Delete, D.FileCount, D.HasDot, D.SlotWith, Ours;
      ghost var f := Folder(nodes[d], list);
      ghost var dir := DirOf(store.disk, f);
      DirParts(store.disk, f);
      i, found, count, first := 0, 21, 0, false;
      while i < 140
        invariant i <= 140 && D.BlockWith(dir.blocks, ino, 0) == D.BlockWith(dir.blocks, ino, i)
      {
        BlockAt(store.Vol(), f, rest, i);
        assert all[i] == all[..][i] == list[i];
        if all[i] != 0 {
          S.OneWanted(dir, ino, i);
          found, count, first := S.Inspect(BlockOf(store.disk[all[i]]), ino);
          SlotBound(BlockOf(store.disk[all[i]]), ino);
          if found < 21 {
            FoundHere(dir, ino, i);
            return;
          }
        }
        NotHere(dir, ino, i);
        i := i + 1;
      }
      FoundNowhere(dir, ino);
    }

    /** The part of sys_mkdir that makes the directory: a block with the two dots. */
    method Make(d: nat, up: nat, ghost rest: set<nat>) returns (ok: bool, ghost list': seq<nat>)
      requires d !in nodes && d < WORD && up < WORD && Ours(store.Vol(), [], rest)
      modifies `nodes, store`disk, store`bits
      ensures ok <==> FreeCount(old(store.bits)) >= 1
      ensures ok ==> nodes.Keys == old(nodes).Keys + {d} && nodes - {d} == old(nodes)
      ensures ok ==> Shape(Folder(nodes[d], list')) && |store.bits| == |old(store.bits)|
      ensures ok ==> FolderOk(store.Vol(), Folder(nodes[d], list'), rest)
      ensures ok ==> WroteIn(old(store.disk), store.disk, Taken(Folder(nodes[d], list')))
      ensures ok ==> DirOf(store.disk, Folder(nodes[d], list')) == D.NewDir(d, up)
    {
      hide FolderOk, BlockOf, DotSector, DirOf, WroteIn, Ours, FreeCount, D.DotBlock, Taken;
      ghost var v := store.Vol();
      var lba := store.AllocBlock([], rest);
      list' := [];
      if lba.None? {
        return false, list';
      }
      assert [] + [lba.value] == [lba.value];
      NewFolder(v, store.Vol(), rest, lba.value, d, up);
      store.disk := store.disk[lba.value := DotSector(d, up)];
      nodes := nodes[d := Node(48, OneSector(lba.value))];
      list' := OneBlock(lba.value);
      assert nodes - {d} == old(nodes);
      ok := true;
    }

    /** inode_release: exactly the sectors of the directory become free, holes or not. The
    root is never released. */
    method Release(d: nat, ghost list: seq<nat>, ghost rest: set<nat>)
      requires d in nodes && FolderOk(store.Vol(), Folder(nodes[d], list), rest) && store.start in rest
      modifies `nodes, store`bits
      ensures nodes == old(nodes) - {d} && |store.bits| == |old(store.bits)| && Ours(store.Vol(), [], rest)
    {
      hide FolderOk, Ours, Blocks;
      ghost var f := Folder(nodes[d], list);
      ShapeOf(store.Vol(), f, rest);
      FolderPlace(store.Vol(), f, rest);
      var all := new nat[140](_ => 0);
      Collect(d, all, list, rest);
      var cnt := 12;
      if nodes[d].sectors[12] != 0 {
        cnt := 140;
        FreeOurs(store.Vol(), Taken(f) + rest, nodes[d].sectors[12]);
        store.bits := store.bits[nodes[d].sectors[12] - store.start := false];
        assert Taken(f) + rest - {nodes[d].sectors[12]} == rest + Blocks(list, 0);
      } else {
        assert Taken(f) + rest == rest + Blocks(list, 0);
      }
      FreeBlocks(all, cnt, list, rest);
      nodes := nodes - {d};
    }

    /** The last loop of inode_release. */
    method FreeBlocks(all: array<nat>, cnt: nat, ghost list: seq<nat>, ghost rest: set<nat>)
      requires all.Length == MAX_BLOCKS && all[..] == list && 12 <= cnt <= MAX_BLOCKS
      requires forall i :: cnt <= i < MAX_BLOCKS ==> list[i] == 0
      requires forall i, j :: 0 <= i < j < MAX_BLOCKS && list[i] != 0 ==> list[i] != list[j]
      requires Blocks(list, 0) !! rest && InData(store.Vol(), Blocks(list, 0)) && store.start !in Blocks(list, 0)
      requires Ours(store.Vol(), [], rest + Blocks(list, 0))
      modifies store`bits
      ensures |store.bits| == |old(store.bits)| && Ours(store.Vol(), [], rest)
    {
      hide Ours, Blocks;
      var i := 0;
      while i < cnt
        invariant 0 <= i <= cnt && |store.bits| == |old(store.bits)| && all[..] == list
        invariant Ours(store.Vol(), [], rest + Blocks(list, i))
      {
        BlocksStep(list, i);
        assert all[i] == all[..][i] == list[i];
        if all[i] != 0 {
          BlocksIn(list, i);
          FreeOurs(store.Vol(), rest + Blocks(list, i), all[i]);
          assert rest + Blocks(list, i) - {all[i]} == rest + Blocks(list, i + 1);
          store.bits := store.bits[all[i] - store.start := false];
        } else {
          assert rest + Blocks(list, i) == rest + Blocks(list, i + 1);
        }
        i := i + 1;
      }
      BlocksEnd(list, i);
      assert rest + Blocks(list, i) == rest;
    }

    method ClearSlot(d: nat, i: nat, j: nat, lba: nat, ghost list: seq<nat>, ghost rest: set<nat>)
      requires d in nodes && FolderOk(store.Vol(), Folder(nodes[d], list), rest) && nodes[d].size >= 24
      requires i < MAX_BLOCKS && j < 21 && lba == list[i] != 0 && lba < |store.disk|
      modifies `nodes, store`disk
      ensures d in nodes && nodes == old(nodes)[d := nodes[d]] && Shape(Folder(nodes[d], list))
      ensures FolderOk(store.Vol(), Folder(nodes[d], list), rest) && WroteIn(old(store.disk), store.disk, Taken(Folder(nodes[d], list)))
      ensures var dir := old(DirOf(store.disk, Folder(nodes[d], list)));
              && dir.size >= 24
              && DirOf(store.disk, Folder(nodes[d], list))
                 == D.Dir(dir.blocks[i := Some(BlockOf(old(store.disk[lba]))[j := None])], dir.table, dir.size - 24)
    {
      hide FolderOk, BlockOf, DecodeEntry, DirOf, WroteIn;
      var buf := Patch(store.disk[lba], j, ZeroEntry());
      PatchBlock(store.disk[lba], j, ZeroEntry());
      WriteBlock(store.Vol(), Folder(nodes[d], list), rest, i, buf, nodes[d].size - 24);
      ShapeOf(store.Vol(), Folder(nodes[d], list), rest);
      DirParts(store.disk, Folder(nodes[d], list));
      store.disk := store.disk[lba := buf];
      nodes := nodes[d := nodes[d].(size := nodes[d].size - 24)];
    }

    method FreeBlockAt(d: nat, i: nat, lba: nat, ghost list: seq<nat>, ghost rest: set<nat>) returns (ghost list': seq<nat>)
      requires d in nodes && FolderOk(store.Vol(), Folder(nodes[d], list), rest) && nodes[d].size >= 24
      requires 0 < i < 12 && lba == list[i] != 0
      modifies `nodes, store`bits
      ensures d in nodes && nodes == old(nodes)[d := nodes[d]] && Shape(Folder(nodes[d], list')) && |store.bits| == |old(store.bits)|
      ensures FolderOk(store.Vol(), Folder(nodes[d], list'), rest)
      ensures var dir := old(DirOf(store.disk, Folder(nodes[d], list)));
              dir.size >= 24 && DirOf(store.disk, Folder(nodes[d], list')) == D.Dir(dir.blocks[i := None], dir.table, dir.size - 24)
    {
      hide FolderOk, DirOf, Taken;
      ghost var f := Folder(nodes[d], list);
      FreeDirect(store.Vol(), f, rest, i, nodes[d].size - 24);
      ShapeOf(store.Vol(), f, rest);
      DirParts(store.disk, f);
      store.bits := store.bits[lba - store.start := false];
      nodes := nodes[d := Node(nodes[d].size - 24, nodes[d].sectors[i := 0])];
      list' := list[i := 0];
    }

    method CopyDirect(d: nat, all: array<nat>, ghost list: seq<nat>)
      requires d in nodes && |nodes[d].sectors| == 13 && |list| == MAX_BLOCKS && nodes[d].sectors[..12] == list[..12]
      requires all.Length == MAX_BLOCKS && forall j :: 0 <= j < MAX_BLOCKS ==> all[j] == 0
      modifies all
      ensures all[..12] == list[..12] && forall j :: 12 <= j < MAX_BLOCKS ==> all[j] == 0
    {
      for i := 0 to 12
        modifies all
        invariant forall j :: 0 <= j < i ==> all[j] == nodes[d].sectors[j]
        invariant forall j :: 12 <= j < MAX_BLOCKS ==> all[j] == 0
      {
        all[i] := nodes[d].sectors[i];
      }
      assert all[..12] == nodes[d].sectors[..12];
    }
  }

  function OneSector(x: nat): seq<nat> {
    [x, 0, 0, 0, 0, 0, 0, 0, 0, 0, 0, 0, 0]
  }

  function OneBlock(x: nat): seq<nat> {
    [x] + seq(139, _ => 0)
  }

  lemma OneBlockLeads(x: nat)
    ensures |OneBlock(x)| == MAX_BLOCKS && OneSector(x)[..12] == OneBlock(x)[..12]
  {
    forall i | 0 <= i < 12 ensures OneSector(x)[i] == OneBlock(x)[i] {
    }
  }

  lemma NewFolder(v: Volume, v1: Volume, rest: set<nat>, x: nat, self: nat, up: nat)
    requires Ours(v, [], rest) && v1 == v.(bits := v1.bits) && |v1.bits| == |v.bits| && Ours(v1, [x], rest) && self < WORD && up < WORD
    ensures x < |v.disk|
    ensures var v' := v1.(disk := v.disk[x := DotSector(self, up)]); var f := Folder(Node(48, OneSector(x)), OneBlock(x));
            Shape(f) && FolderOk(v', f, rest) && WroteIn(v.disk, v'.disk, Taken(f)) && DirOf(v'.disk, f) == D.NewDir(self, up)
  {
    hide BlockOf, D.DotBlock, DotSector;
    NewSector(v1, x, rest);
    var v' := v1.(disk := v.disk[x := DotSector(self, up)]);
    var f := Folder(Node(48, OneSector(x)), OneBlock(x));
    OneBlockLeads(x);
    assert f.list[0] == x;
    assert Taken(f) == {x};
    SameOurs(v1, v', rest + {x});
    assert Taken(f) + rest == rest + {x};
    DotSectorBlock(self, up);
    assert DirOf(v'.disk, f).blocks == D.NewDir(self, up).blocks;
  }

  lemma FolderPlace(v: Volume, f: Folder, rest: set<nat>)
    requires FolderOk(v, f, rest) && v.start in rest
    ensures Blocks(f.list, 0) !! rest && InData(v, Blocks(f.list, 0)) && v.start !in Blocks(f.list, 0)
    ensures f.node.sectors[12] != 0 ==>
              && v.start < f.node.sectors[12] < v.start + |v.bits|
              && f.node.sectors[12] !in Blocks(f.list, 0) && f.node.sectors[12] !in rest
    ensures f.node.sectors[12] == 0 ==> forall i :: 12 <= i < MAX_BLOCKS ==> f.list[i] == 0
    ensures forall i, j :: 0 <= i < j < MAX_BLOCKS && f.list[i] != 0 ==> f.list[i] != f.list[j]
  {
  }

  lemma BlocksStep(list: seq<nat>, i: nat)
    requires i < |list|
    ensures Blocks(list, i) == Blocks(list, i + 1) + if list[i] == 0 then {} else {list[i]}
  {
    forall x | x in Blocks(list, i + 1) ensures x in Blocks(list, i) {
      var k :| i + 1 <= k < |list| && list[k] != 0 && list[k] == x;
    }
  }

  lemma BlocksIn(list: seq<nat>, i: nat)
    requires i < |list| && list[i] != 0 && forall k :: i < k < |list| ==> list[k] != list[i]
    ensures list[i] in Blocks(list, 0) && list[i] !in Blocks(list, i + 1)
  {
  }

  lemma BlocksEnd(list: seq<nat>, i: nat)
    requires forall k :: i <= k < |list| ==> list[k] == 0
    ensures Blocks(list, i) == {}
  {
  }

  lemma FoundHere(d: D.Dir, ino: nat, i: nat)
    requires |d.blocks| == D.BLOCKS && d.size >= 24 && i < D.BLOCKS && D.BlockWith(d.blocks, ino, 0) == D.BlockWith(d.blocks, ino, i)
    requires d.blocks[i].Some? && D.SlotWith(d.blocks[i].value, ino, 0) < 21
    ensures var b := d.blocks[i].value;
            D.Delete(d, ino) ==
              if D.FileCount(b, 0) == 1 && !D.HasDot(b) then
                if i < D.DIRECT then D.Gone(D.Dir(d.blocks[i := None], d.table, d.size - 24)) else D.Hangs
              else D.Gone(D.Dir(d.blocks[i := Some(b[D.SlotWith(b, ino, 0) := None])], d.table, d.size - 24))
  {
    hide D.FileCount, D.HasDot;
    assert D.HasIno(d.blocks[i], ino);
  }

  lemma NotHere(d: D.Dir, ino: nat, i: nat)
    requires |d.blocks| == D.BLOCKS && i < D.BLOCKS && (d.blocks[i].None? || D.SlotWith(d.blocks[i].value, ino, 0) == 21)
    ensures D.BlockWith(d.blocks, ino, i) == D.BlockWith(d.blocks, ino, i + 1)
  {
  }

  lemma SlotBound(b: D.Block, ino: nat)
    ensures D.SlotWith(b, ino, 0) <= 21
  {
  }

  lemma WroteNothing(disk: seq<Sector>, w: set<nat>)
    ensures WroteIn(disk, disk, w)
  {
  }

  lemma FoundNowhere(d: D.Dir, ino: nat)
    requires |d.blocks| == D.BLOCKS && d.size >= 24 && D.BlockWith(d.blocks, ino, 0) == D.BlockWith(d.blocks, ino, D.BLOCKS)
    ensures D.Delete(d, ino) == D.NotFound
  {
  }

  lemma NotFirst(d: D.Dir, i: nat)
    requires D.DirOk(d) && i < D.BLOCKS && d.blocks[i].Some? && !D.HasDot(d.blocks[i].value)
    ensures i != 0
  {
  }

  ghost predicate InData(v: Volume, xs: set<nat>) {
    forall x :: x in xs ==> v.start <= x < v.start + |v.bits|
  }

  lemma DataSame(v: Volume, v': Volume, xs: set<nat>)
    requires InData(v, xs) && v'.start == v.start && |v'.bits| == |v.bits|
    ensures InData(v', xs)
  {
  }

  lemma BehindIn(v: Volume, f: Folder, rest: set<nat>)
    requires FolderOk(v, f, rest)
    ensures InData(v, Behind(f)) && Behind(f) <= Taken(f)
  {
    forall x | x in Blocks(f.list, 12) ensures x in Blocks(f.list, 0) {
      var k :| 12 <= k < |f.list| && f.list[k] != 0 && f.list[k] == x;
    }
  }

  lemma NothingBehind(v: Volume, f: Folder, rest: set<nat>)
    requires FolderOk(v, f, rest)
    ensures f.node.sectors[12] == 0 ==> Behind(f) == {}
  {
  }

  lemma ShapeOf(v: Volume, f: Folder, rest: set<nat>)
    requires FolderOk(v, f, rest)
    ensures Shape(f) && f.node.sectors[..12] == f.list[..12] && Ours(v, [], Taken(f) + rest)
  {
  }

  lemma DirParts(disk: seq<Sector>, f: Folder)
    requires Shape(f)
    ensures var d := DirOf(disk, f); |d.blocks| == D.BLOCKS && d.table == (f.node.sectors[12] != 0) && d.size == f.node.size
  {
  }

  lemma BlockAt(v: Volume, f: Folder, rest: set<nat>, i: nat)
    requires FolderOk(v, f, rest) && i < MAX_BLOCKS
    ensures f.list[i] < |v.disk|
    ensures DirOf(v.disk, f).blocks[i] == if f.list[i] == 0 then None else Some(BlockOf(v.disk[f.list[i]]))
  {
    hide BlockOf;
    if f.list[i] != 0 {
      InRange(v, f, rest, i);
    }
  }

  lemma RoomHere(blocks: seq<Option<D.Block>>, i: nat)
    requires |blocks| == D.BLOCKS && i < D.DIRECT && (blocks[i].None? || D.FirstFree(blocks[i].value, 0) < 21)
    ensures D.Room(blocks, i) == i
  {
  }

  lemma NoRoomHere(blocks: seq<Option<D.Block>>, i: nat)
    requires |blocks| == D.BLOCKS && i < D.DIRECT && blocks[i].Some? && D.FirstFree(blocks[i].value, 0) == 21
    ensures D.Room(blocks, i) == D.Room(blocks, i + 1)
  {
  }

  lemma RoomNowhere(blocks: seq<Option<D.Block>>)
    requires |blocks| == D.BLOCKS
    ensures D.Room(blocks, 12) == D.DIRECT
  {
  }

  lemma InsertNew(d: D.Dir, e: D.Entry, i: nat)
    requires |d.blocks| == D.BLOCKS && D.Room(d.blocks, 0) == i < D.DIRECT && d.blocks[i].None?
    ensures Wants(d) == 1 && D.Insert(d, e) == D.Dir(d.blocks[i := Some(D.NewBlock(e))], d.table, d.size + 24)
  {
    hide D.Room, D.NewBlock;
  }

  lemma InsertInto(d: D.Dir, e: D.Entry, i: nat)
    requires |d.blocks| == D.BLOCKS && D.Room(d.blocks, 0) == i < D.DIRECT && d.blocks[i].Some? && D.FirstFree(d.blocks[i].value, 0) < 21
    ensures var b := d.blocks[i].value;
            Wants(d) == 0 && D.Insert(d, e) == D.Dir(d.blocks[i := Some(b[D.FirstFree(b, 0) := Some(e)])], d.table, d.size + 24)
  {
    hide D.Room;
  }

  lemma InsertBehind(d: D.Dir, e: D.Entry)
    requires |d.blocks| == D.BLOCKS && D.Room(d.blocks, 0) == D.DIRECT
    ensures Wants(d) == 2
    ensures D.Insert(d, e) == D.Dir(d.blocks[..12] + [Some(D.NewBlock(e))] + seq(127, _ => None), true, d.size + 24)
  {
    hide D.Room, D.NewBlock;
  }

  lemma NothingLost(dir: D.Dir, f: Folder, rest: set<nat>)
    requires |dir.blocks| == D.BLOCKS && Shape(f) && D.Room(dir.blocks, 0) < D.DIRECT
    ensures D.CanInsert(dir) && Lost(dir, f) == {} && rest + Lost(dir, f) == rest
  {
  }

  lemma TableLost(v: Volume, dir: D.Dir, f: Folder, f': Folder, rest: set<nat>)
    requires |dir.blocks| == D.BLOCKS && Shape(f) && Shape(f') && D.Room(dir.blocks, 0) == D.DIRECT
    requires dir.table == (f.node.sectors[12] != 0) && (!dir.table ==> Behind(f) == {})
    requires FolderOk(v, f', rest + Behind(f)) && Behind(f) !! rest && Behind(f) !! Taken(f') && InData(v, Behind(f))
    ensures FolderOk(v, f', rest + Lost(dir, f)) && (FolderOk(v, f', rest) <==> D.CanInsert(dir))
  {
    hide FolderOk;
    if D.CanInsert(dir) {
      assert rest + Behind(f) == rest;
      assert rest + Lost(dir, f) == rest;
    } else {
      assert f.node.sectors[12] in Behind(f);
      assert InData(v, Behind(f));
      LeakBreaks(v, f', rest, Behind(f));
    }
  }
}
