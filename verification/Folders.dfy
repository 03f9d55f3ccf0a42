/** A directory on a partition: which sectors it owns, what it holds, and what writing an
entry, taking blocks and giving one back do to both. */
module Folders {
  import opened Basics
  import opened FileBlocks
  import opened FolderBlocks
  import D = Directories

  /** The inode of a directory, and its 140 block addresses, 0 for a missing block. */
  datatype Folder = Folder(node: Node, list: seq<nat>)

  predicate Shape(f: Folder) {
    |f.node.sectors| == 13 && |f.list| == MAX_BLOCKS
  }

  /** Inode and indirect table name exactly the addresses `list`. */
  ghost predicate Leads(f: Folder, disk: seq<Sector>) {
    && Shape(f) && f.node.sectors[..12] == f.list[..12]
    && (f.node.sectors[12] == 0 ==> forall i :: 12 <= i < MAX_BLOCKS ==> f.list[i] == 0)
    && (f.node.sectors[12] != 0 ==> f.node.sectors[12] < |disk| && Decode(disk[f.node.sectors[12]]) == f.list[12..])
  }

  /** Every sector is in one position: a block once, the table once. */
  ghost predicate OnePosition(f: Folder)
    requires Shape(f)
  {
    && (forall i, j :: 0 <= i < j < MAX_BLOCKS && f.list[i] != 0 ==> f.list[i] != f.list[j])
    && (f.node.sectors[12] != 0 ==> f.node.sectors[12] !in f.list)
  }

  ghost function Blocks(list: seq<nat>, from: nat): set<nat> {
    set i | from <= i < |list| && list[i] != 0 :: list[i]
  }

  ghost function Table(f: Folder): set<nat>
    requires Shape(f)
  {
    if f.node.sectors[12] == 0 then {} else {f.node.sectors[12]}
  }

  /** The sectors of the directory. */
  ghost function Taken(f: Folder): set<nat>
    requires Shape(f)
  {
    Table(f) + Blocks(f.list, 0)
  }

  /** The directory owns its sectors, `rest` is everybody else's, and the bitmap's bits are
  exactly these. The first data block is the first block of the root. */
  ghost predicate FolderOk(v: Volume, f: Folder, rest: set<nat>) {
    && Leads(f, v.disk) && OnePosition(f) && Ours(v, [], Taken(f) + rest)
    && Taken(f) !! rest && (forall x :: x in Taken(f) ==> v.start <= x < v.start + |v.bits|)
    && (v.start in Taken(f) ==> f.list[0] == v.start)
  }

  /** What the directory holds. */
  function BlockIn(disk: seq<Sector>, x: nat): Option<D.Block> {
    if x == 0 || x >= |disk| then None else Some(BlockOf(disk[x]))
  }

  ghost function DirOf(disk: seq<Sector>, f: Folder): D.Dir
    requires Shape(f)
  {
    D.Dir(seq(MAX_BLOCKS, i requires 0 <= i < MAX_BLOCKS => BlockIn(disk, f.list[i])), f.node.sectors[12] != 0, f.node.size)
  }

  /** Only sectors of `w` were written. */
  ghost predicate WroteIn(disk: seq<Sector>, disk': seq<Sector>, w: set<nat>) {
    |disk'| == |disk| && forall x: nat :: x < |disk| && x !in w ==> disk'[x] == disk[x]
  }

  lemma InRange(v: Volume, f: Folder, rest: set<nat>, i: nat)
    requires FolderOk(v, f, rest) && i < MAX_BLOCKS && f.list[i] != 0
    ensures f.list[i] in Taken(f) && v.start <= f.list[i] < v.start + |v.bits| <= |v.disk| && f.list[i] != f.node.sectors[12]
  {
    assert f.list[i] in Blocks(f.list, 0);
  }

  // ---------------------------------------------------------------------------
  // Writing an entry of a block
  // ---------------------------------------------------------------------------

  lemma WriteBlock(v: Volume, f: Folder, rest: set<nat>, i: nat, s: Sector, size: nat)
    requires FolderOk(v, f, rest) && i < MAX_BLOCKS && f.list[i] != 0
    ensures f.list[i] < |v.disk|
    ensures var v' := v.(disk := v.disk[f.list[i] := s]); var f' := f.(node := f.node.(size := size));
            && FolderOk(v', f', rest) && WroteIn(v.disk, v'.disk, Taken(f'))
            && DirOf(v'.disk, f') == D.Dir(DirOf(v.disk, f).blocks[i := Some(BlockOf(s))], f.node.sectors[12] != 0, size)
  {
    hide BlockOf, Ours;
    OursPlace(v, Taken(f) + rest);
    InRange(v, f, rest, i);
    var v' := v.(disk := v.disk[f.list[i] := s]);
    var f' := f.(node := f.node.(size := size));
    SameOurs(v, v', Taken(f) + rest);
    assert Taken(f') == Taken(f);
    assert DirOf(v'.disk, f').blocks == DirOf(v.disk, f).blocks[i := Some(BlockOf(s))];
  }

  lemma OursPlace(v: Volume, all: set<nat>)
    requires Ours(v, [], all)
    ensures v.start > 0 && v.start + |v.bits| <= |v.disk| <= 0x1_0000_0000 && v.start in all
  {
  }

  lemma SameOurs(v: Volume, v': Volume, all: set<nat>)
    requires Ours(v, [], all) && v'.start == v.start && v'.bits == v.bits && |v'.disk| == |v.disk|
    ensures Ours(v', [], all)
  {
  }

  // ---------------------------------------------------------------------------
  // Taking blocks
  // ---------------------------------------------------------------------------

  /** Direct block `i` was missing and becomes sector `x`. */
  lemma NewDirect(v: Volume, v1: Volume, f: Folder, rest: set<nat>, i: nat, x: nat, s: Sector, size: nat)
    requires FolderOk(v, f, rest) && i < 12 && f.list[i] == 0
    requires v1 == v.(bits := v1.bits) && |v1.bits| == |v.bits| && Ours(v1, [x], Taken(f) + rest)
    ensures x < |v.disk|
    ensures var v' := v1.(disk := v.disk[x := s]); var f' := Folder(Node(size, f.node.sectors[i := x]), f.list[i := x]);
            && Shape(f') && FolderOk(v', f', rest) && WroteIn(v.disk, v'.disk, Taken(f'))
            && DirOf(v'.disk, f') == D.Dir(DirOf(v.disk, f).blocks[i := Some(BlockOf(s))], f.node.sectors[12] != 0, size)
  {
    hide BlockOf;
    var v' := v1.(disk := v.disk[x := s]);
    var f' := Folder(Node(size, f.node.sectors[i := x]), f.list[i := x]);
    NewSector(v1, x, Taken(f) + rest);
    ListUpdate(f.list, i, x);
    assert Taken(f') == Taken(f) + {x};
    SameOurs(v1, v', Taken(f) + rest + {x});
    assert Taken(f') + rest == Taken(f) + rest + {x};
    forall k: nat | k < MAX_BLOCKS && f.list[k] != 0 ensures f.list[k] in Taken(f) {
      assert f.list[k] in Blocks(f.list, 0);
    }
    assert DirOf(v'.disk, f').blocks == DirOf(v.disk, f).blocks[i := Some(BlockOf(s))];
  }

  lemma NewSector(v: Volume, x: nat, all: set<nat>)
    requires Ours(v, [x], all)
    ensures x !in all && v.start < x < v.start + |v.bits| <= |v.disk| && Ours(v, [], all + {x})
  {
    assert x in [x];
  }

  lemma ListUpdate(list: seq<nat>, i: nat, x: nat)
    requires i < |list| && list[i] == 0 && x != 0
    ensures Blocks(list[i := x], 0) == Blocks(list, 0) + {x}
  {
    forall y | y in Blocks(list, 0) ensures y in Blocks(list[i := x], 0) {
      var k :| 0 <= k < |list| && list[k] != 0 && list[k] == y;
      assert list[i := x][k] == y;
    }
    assert list[i := x][i] == x;
  }

  /** The sectors that a new indirect table makes unreachable. */
  ghost function Behind(f: Folder): set<nat>
    requires Shape(f)
  {
    Table(f) + Blocks(f.list, 12)
  }

  function ZeroTail(): seq<nat> {
    seq(127, _ => 0)
  }

  /** A new table in sector `t`, with one block, sector `x`. What the directory owned behind
  its direct blocks stays marked in the bitmap, and nothing leads there. */
  lemma NewTable(v: Volume, v1: Volume, f: Folder, rest: set<nat>, t: nat, x: nat, s: Sector, size: nat)
    requires FolderOk(v, f, rest) && v1 == v.(bits := v1.bits) && |v1.bits| == |v.bits|
    requires Ours(v1, [t, x], Taken(f) + rest)
    ensures t < |v.disk| && x < |v.disk| && Behind(f) !! rest
    ensures var list' := f.list[..12] + [x] + ZeroTail(); |list'| == MAX_BLOCKS
    ensures var list' := f.list[..12] + [x] + ZeroTail();
            var v' := v1.(disk := v.disk[t := Encode(list'[12..])][x := s]); var f' := Folder(Node(size, f.node.sectors[12 := t]), list');
            && Shape(f') && FolderOk(v', f', rest + Behind(f)) && WroteIn(v.disk, v'.disk, Taken(f'))
            && Behind(f) !! Taken(f')
            && DirOf(v'.disk, f') == D.Dir(DirOf(v.disk, f).blocks[..12] + [Some(BlockOf(s))] + seq(127, _ => None), true, size)
  {
    hide BlockOf, Encode, Decode;
    TwoSectors(v1, t, x, Taken(f) + rest);
    var list' := f.list[..12] + [x] + ZeroTail();
    var f' := Folder(Node(size, f.node.sectors[12 := t]), list');
    var v' := v1.(disk := v.disk[t := Encode(list'[12..])][x := s]);
    DirectBlocks(f.list, x);
    assert Taken(f') == Blocks(f.list[..12], 0) + {t, x};
    SplitBlocks(f.list);
    assert Taken(f) == Blocks(f.list[..12], 0) + Behind(f);
    assert Taken(f') + (rest + Behind(f)) == Taken(f) + rest + {t, x};
    SameOurs(v1, v', Taken(f) + rest + {t, x});
    assert forall j :: 0 <= j < 128 ==> list'[12..][j] < 0x1_0000_0000;
    DecodeEncode(list'[12..]);
    DirectApart(f);
    NewTablePositions(f, f', t, x);
    NewTableDir(v.disk, v'.disk, f, f', t, x, s, size);
  }

  lemma TwoSectors(v: Volume, t: nat, x: nat, all: set<nat>)
    requires Ours(v, [t, x], all)
    ensures t != x && t !in all && x !in all && Ours(v, [], all + {t, x})
    ensures v.start < t < v.start + |v.bits| <= |v.disk| <= 0x1_0000_0000 && v.start < x < v.start + |v.bits|
  {
    var own := [t, x];
    assert t in own && x in own && own[0] != own[1];
  }

  lemma DirectBlocks(list: seq<nat>, x: nat)
    requires |list| == MAX_BLOCKS && x != 0
    ensures Blocks(list[..12] + [x] + ZeroTail(), 0) == Blocks(list[..12], 0) + {x}
  {
    var l := list[..12] + [x] + ZeroTail();
    assert l[12] == x;
    forall y | y in Blocks(list[..12], 0) ensures y in Blocks(l, 0) {
      var k :| 0 <= k < 12 && list[..12][k] != 0 && list[..12][k] == y;
      assert l[k] == y;
    }
    forall y | y in Blocks(l, 0) ensures y in Blocks(list[..12], 0) + {x} {
      var k :| 0 <= k < |l| && l[k] != 0 && l[k] == y;
      assert k < 12 ==> list[..12][k] == y;
    }
  }

  lemma SplitBlocks(list: seq<nat>)
    requires |list| == MAX_BLOCKS
    ensures Blocks(list, 0) == Blocks(list[..12], 0) + Blocks(list, 12)
  {
    forall y | y in Blocks(list, 0) ensures y in Blocks(list[..12], 0) + Blocks(list, 12) {
      var k :| 0 <= k < |list| && list[k] != 0 && list[k] == y;
      assert k < 12 ==> list[..12][k] == y;
    }
    forall y | y in Blocks(list[..12], 0) ensures y in Blocks(list, 0) {
      var k :| 0 <= k < 12 && list[..12][k] != 0 && list[..12][k] == y;
      assert list[k] == y;
    }
  }

  lemma DirectApart(f: Folder)
    requires Shape(f) && OnePosition(f)
    ensures Blocks(f.list[..12], 0) !! Behind(f)
  {
    forall y | y in Blocks(f.list[..12], 0) ensures y !in Behind(f) {
      var k :| 0 <= k < 12 && f.list[..12][k] != 0 && f.list[..12][k] == y;
      assert f.list[k] == y && y in f.list;
    }
  }

  lemma NewTablePositions(f: Folder, f': Folder, t: nat, x: nat)
    requires Shape(f) && OnePosition(f) && Shape(f') && t != 0 && x != 0 && t != x && t !in Taken(f) && x !in Taken(f)
    requires f'.node.sectors == f.node.sectors[12 := t] && f'.list == f.list[..12] + [x] + ZeroTail()
    ensures OnePosition(f')
  {
    forall i: nat | i < 12 ensures f'.list[i] == f.list[i] && (f.list[i] != 0 ==> f.list[i] != t && f.list[i] != x) {
      assert f.list[i] != 0 ==> f.list[i] in Blocks(f.list, 0);
    }
    assert t !in f'.list;
  }

  lemma NewTableDir(disk: seq<Sector>, disk': seq<Sector>, f: Folder, f': Folder, t: nat, x: nat, s: Sector, size: nat)
    requires Shape(f) && Shape(f') && |disk'| == |disk| && 0 < t < |disk| && 0 < x < |disk| && t !in Taken(f) && x !in Taken(f)
    requires disk'[x] == s && forall y: nat :: y < |disk| && y != t && y != x ==> disk'[y] == disk[y]
    requires f'.node == Node(size, f.node.sectors[12 := t]) && f'.list == f.list[..12] + [x] + ZeroTail()
    ensures DirOf(disk', f') == D.Dir(DirOf(disk, f).blocks[..12] + [Some(BlockOf(s))] + seq(127, _ => None), true, size)
  {
    hide BlockOf;
    var want := DirOf(disk, f).blocks[..12] + [Some(BlockOf(s))] + seq(127, _ => None);
    forall i: nat | i < MAX_BLOCKS ensures BlockIn(disk', f'.list[i]) == want[i] {
      if i < 12 {
        assert f'.list[i] == f.list[i];
        assert f.list[i] != 0 ==> f.list[i] in Blocks(f.list, 0);
      }
    }
    assert DirOf(disk', f').blocks == want;
  }

  /** Sectors that the bitmap marks and nobody owns: the bitmap is no longer exact. */
  lemma LeakBreaks(v: Volume, f: Folder, rest: set<nat>, lost: set<nat>)
    requires FolderOk(v, f, rest + lost) && lost !! rest && lost !! Taken(f) && lost != {}
    requires forall x :: x in lost ==> v.start <= x < v.start + |v.bits|
    ensures !FolderOk(v, f, rest)
  {
    var x :| x in lost;
    assert v.bits[x - v.start];
    assert v.start + (x - v.start) == x;
  }

  // ---------------------------------------------------------------------------
  // Giving a block back
  // ---------------------------------------------------------------------------

  lemma FreeDirect(v: Volume, f: Folder, rest: set<nat>, i: nat, size: nat)
    requires FolderOk(v, f, rest) && 0 < i < 12 && f.list[i] != 0
    ensures v.start <= f.list[i] < v.start + |v.bits|
    ensures var v' := v.(bits := v.bits[f.list[i] - v.start := false]);
            var f' := Folder(Node(size, f.node.sectors[i := 0]), f.list[i := 0]);
            && Shape(f') && FolderOk(v', f', rest) && Taken(f') == Taken(f) - {f.list[i]}
            && DirOf(v.disk, f') == D.Dir(DirOf(v.disk, f).blocks[i := None], f.node.sectors[12] != 0, size)
  {
    hide BlockOf;
    InRange(v, f, rest, i);
    var x := f.list[i];
    var v' := v.(bits := v.bits[x - v.start := false]);
    var f' := Folder(Node(size, f.node.sectors[i := 0]), f.list[i := 0]);
    assert x != v.start;
    ListLess(f.list, i);
    assert Taken(f') == Taken(f) - {x};
    FreeOurs(v, Taken(f) + rest, x);
    assert Taken(f') + rest == Taken(f) + rest - {x};
    assert DirOf(v.disk, f').blocks == DirOf(v.disk, f).blocks[i := None];
  }

  lemma ListLess(list: seq<nat>, i: nat)
    requires i < |list| && list[i] != 0 && forall k :: 0 <= k < |list| && k != i ==> list[k] != list[i]
    ensures Blocks(list[i := 0], 0) == Blocks(list, 0) - {list[i]}
  {
    forall y | y in Blocks(list, 0) && y != list[i] ensures y in Blocks(list[i := 0], 0) {
      var k :| 0 <= k < |list| && list[k] != 0 && list[k] == y;
      assert list[i := 0][k] == y;
    }
  }

  lemma FreeOurs(v: Volume, all: set<nat>, x: nat)
    requires Ours(v, [], all) && x in all && v.start < x < v.start + |v.bits|
    ensures Ours(v.(bits := v.bits[x - v.start := false]), [], all - {x})
  {
    var bits := v.bits[x - v.start := false];
    forall b: nat | b < |bits| ensures bits[b] <==> v.start + b in all - {x} {
      assert v.bits[b] <==> v.start + b in all;
    }
  }
}
