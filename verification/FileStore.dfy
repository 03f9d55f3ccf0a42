/** file_write, file_read and inode_release as the code runs them, proved against the
contents of files. */
module FileStores {
  import opened Basics
  import opened Bitmaps
  import opened FileBlocks

  /** A failing ASSERT, after which nothing is promised; -1; a copying loop that leaves the
  file's blocks because a 32-bit sum wrapped, likewise; or the bytes transferred. */
  datatype Result = Stopped | Failed | Runaway | Done(bytes: nat)

  const WORD: nat := 0x1_0000_0000

  /** How many sectors a written file of `size` bytes lacks to hold `count` more. */
  function Missing(size: nat, count: nat): nat {
    var has, will := size / 512 + 1, (size + count) / 512 + 1;
    will - has + if has <= 12 < will then 1 else 0
  }

  /** 32-bit addition. */
  function Plus(x: nat, y: nat): nat {
    (x + y) % WORD
  }

  /** How many bytes file_read sets out to copy. */
  function ToRead(size: nat, pos: nat, count: nat): nat {
    if Plus(pos, count) > size then (size - pos) % WORD else count
  }

  lemma ReadEnds(size: nat, pos: nat, count: nat)
    requires pos <= size && pos + count < WORD
    ensures Plus(pos, count) == pos + count
    ensures pos + ToRead(size, pos, count) == if pos + count > size then size else pos + count
  {
  }

  /** i_size - 1 in 32 bits, where file_write leaves the file position. */
  function LastByte(size: nat): nat {
    (size - 1) % WORD
  }

  /** The block and the place in it where byte `k` of a file lies. */
  function Sec(k: nat): nat {
    k / 512
  }

  function Off(k: nat): (r: nat)
    ensures r < 512
  {
    k % 512
  }

  /** How much fits into the block the end lies in. */
  function ChunkSize(size: nat, left: nat): nat {
    if left < 512 - Off(size) then left else 512 - Off(size)
  }

  /** The sectors file_write takes. */
  function Needed(list: seq<nat>, size: nat, count: nat): nat {
    (if list == [] then 1 else 0) + Missing(size, count)
  }

  class FileStore {
    const start: nat
    var bits: seq<bool>
    var disk: seq<Sector>
    var nodes: map<nat, Node>

    function Vol(): Volume
      reads this
    {
      Volume(start, bits, disk)
    }

    /** block_bitmap_alloc; None is the failing ASSERT of bitmap_scan. */
    method AllocBlock(ghost own: seq<nat>, ghost rest: set<nat>) returns (r: Option<nat>)
      requires Ours(Vol(), own, rest)
      modifies `bits
      ensures |bits| == |old(bits)|
      ensures r.Some? ==> Ours(Vol(), own + [r.value], rest) && start < r.value < |disk|
      ensures r.Some? <==> FreeCount(old(bits)) > 0
      ensures r.Some? ==> FreeCount(bits) == FreeCount(old(bits)) - 1
    {
      hide FreeCount;
      var bit := FirstFit(bits, 1);
      if bit.None? {
        forall b: nat | b < |bits| ensures bits[b] {
          assert !Clear(bits, b, 1);
        }
        NoneFree(bits);
        return None;
      }
      assert Clear(bits, bit.value, 1);
      TakeBlock(Vol(), own, rest, bit.value);
      FreeAfterTake(bits, bit.value);
      bits := bits[bit.value := true];
      return Some(start + bit.value);
    }

    /** The allocation loops of file_write: direct blocks go into the inode and the
    address table, indirect ones into the address table only. */
    method Extend(f: nat, all: array<nat>, from: nat, to: nat, ghost list: seq<nat>, ghost rest: set<nat>)
      returns (ok: bool, ghost list': seq<nat>)
      requires f in nodes && |nodes[f].sectors| == 13 && all.Length == MAX_BLOCKS && |list| == from <= to <= MAX_BLOCKS
      requires Ours(Vol(), Own(nodes[f].sectors, list), rest)
      requires nodes[f].sectors[..12] == Padded(list)[..12]
      requires all[12..] == Padded(list)[12..]
      modifies `bits, `nodes, all
      ensures ok ==> |list'| == to && list <= list' && |bits| == |old(bits)|
      ensures ok ==> f in nodes && nodes == old(nodes)[f := nodes[f]] && nodes[f].size == old(nodes[f].size)
      ensures ok ==> |nodes[f].sectors| == 13 && nodes[f].sectors[12] == old(nodes[f].sectors[12])
      ensures ok ==> nodes[f].sectors[..12] == Padded(list')[..12]
      ensures ok ==> Ours(Vol(), Own(nodes[f].sectors, list'), rest)
      ensures ok ==> all[12..] == Padded(list')[12..]
      ensures ok ==> forall i :: from <= i < to ==> all[i] == list'[i]
      ensures ok ==> forall i :: 0 <= i < from && i < 12 ==> all[i] == old(all[i])
      ensures ok <==> FreeCount(old(bits)) >= to - from
      ensures ok ==> FreeCount(bits) == FreeCount(old(bits)) - (to - from)
    {
      hide FreeCount, Ours;
      var i := from;
      list' := list;
      while i < to
        invariant from <= i <= to && |list'| == i && list <= list' && |bits| == |old(bits)|
        invariant f in nodes && nodes == old(nodes)[f := nodes[f]] && nodes[f].size == old(nodes[f].size)
        invariant |nodes[f].sectors| == 13 && nodes[f].sectors[12] == old(nodes[f].sectors[12])
        invariant nodes[f].sectors[..12] == Padded(list')[..12]
        invariant Ours(Vol(), Own(nodes[f].sectors, list'), rest)
        invariant all[12..] == Padded(list')[12..]
        invariant forall j :: from <= j < i ==> all[j] == list'[j]
        invariant forall j :: 0 <= j < from && j < 12 ==> all[j] == old(all[j])
        invariant FreeCount(bits) == FreeCount(old(bits)) - (i - from)
      {
        var lba := AllocBlock(Own(nodes[f].sectors, list'), rest);
        if lba.None? {
          return false, list';
        }
        assert Own(nodes[f].sectors, list') + [lba.value] == Own(nodes[f].sectors, list' + [lba.value]);
        if i < 12 {
          assert nodes[f].sectors[i] == nodes[f].sectors[..12][i] == 0;
          nodes := nodes[f := nodes[f].(sectors := nodes[f].sectors[i := lba.value])];
        }
        all[i] := lba.value;
        list' := list' + [lba.value];
        i := i + 1;
        assert nodes[f].sectors[..12] == Padded(list')[..12];
        assert all[12..] == Padded(list')[12..];
      }
      ok := true;
    }

    /** ide_read of the indirect table into the address table. */
    method LoadTable(all: array<nat>, lba: nat)
      requires all.Length == MAX_BLOCKS && lba < |disk|
      modifies all
      ensures all[12..] == Decode(disk[lba]) && all[..12] == old(all[..12])
    {
      var t := Decode(disk[lba]);
      forall j | 0 <= j < 128 {
        all[12 + j] := t[j];
      }
    }

    /** No block is missing: the address of the last one is enough. */
    method LastOnly(f: nat, all: array<nat>, ghost list: seq<nat>, ghost rest: set<nat>)
      requires f in nodes && FileOk(Vol(), nodes[f], list, rest) && list != []
      requires all.Length == MAX_BLOCKS && |list| == nodes[f].size / 512 + 1
      modifies all
      ensures all[|list| - 1] == list[|list| - 1]
    {
      hide Ours, Own, Decode;
      var has := nodes[f].size / 512 + 1;
      if has <= 12 {
        assert nodes[f].sectors[has - 1] == nodes[f].sectors[..12][has - 1];
        all[has - 1] := nodes[f].sectors[has - 1];
      } else {
        OwnInDisk(Vol(), nodes[f].sectors, list, rest);
        LoadTable(all, nodes[f].sectors[12]);
        assert all[has - 1] == all[12..][has - 13];
      }
    }

    /** file_write up to the copying loop: the addresses of all blocks the new bytes go to,
    after taking the blocks that are missing. */
    method Reserve(f: nat, count: nat, all: array<nat>, ghost list: seq<nat>, ghost rest: set<nat>)
      returns (ok: bool, ghost list': seq<nat>)
      requires f in nodes && FileOk(Vol(), nodes[f], list, rest) && list != []
      requires all.Length == MAX_BLOCKS && (forall i :: 0 <= i < MAX_BLOCKS ==> all[i] == 0)
      requires (nodes[f].size + count) / 512 + 1 <= MAX_BLOCKS
      modifies `bits, `nodes, `disk, all
      ensures ok ==> f in nodes && nodes == old(nodes)[f := nodes[f]] && nodes[f].size == old(nodes[f].size)
      ensures ok ==> Names(nodes[f].sectors, list', disk) && Ours(Vol(), Own(nodes[f].sectors, list'), rest)
      ensures ok ==> |list'| == (nodes[f].size + count) / 512 + 1 && list <= list'
      ensures ok ==> forall b :: nodes[f].size / 512 <= b < |list'| ==> all[b] == list'[b]
      ensures ok ==> |disk| == |old(disk)| && |bits| == |old(bits)|
      ensures ok ==> forall x :: 0 <= x < |disk| && x !in TableOf(nodes[f].sectors) ==> disk[x] == old(disk[x])
      ensures ok <==> FreeCount(old(bits)) >= Missing(old(nodes[f].size), count)
      ensures ok ==> FreeCount(bits) == FreeCount(old(bits)) - Missing(old(nodes[f].size), count)
    {
      hide Ours, FreeCount, Own, Decode;
      var has := nodes[f].size / 512 + 1;
      var will := (nodes[f].size + count) / 512 + 1;
      list' := list;
      assert nodes[f].sectors[..12] == Padded(list)[..12];
      if will == has {
        LastOnly(f, all, list, rest);
        ok := true;
      } else if will <= 12 {
        assert nodes[f].sectors[has - 1] == nodes[f].sectors[..12][has - 1];
        all[has - 1] := nodes[f].sectors[has - 1];
        assert all[12..] == Padded(list)[12..];
        ok, list' := Extend(f, all, has, will, list, rest);
      } else if has <= 12 {
        assert nodes[f].sectors[has - 1] == nodes[f].sectors[..12][has - 1];
        all[has - 1] := nodes[f].sectors[has - 1];
        ok := NewTable(f, list, rest);
        if ok {
          assert all[12..] == Padded(list)[12..];
          ok, list' := Extend(f, all, has, will, list, rest);
        }
        if ok {
          StoreTable(f, all, list', rest);
        }
      } else {
        OwnInDisk(Vol(), nodes[f].sectors, list, rest);
        LoadTable(all, nodes[f].sectors[12]);
        assert all[has - 1] == all[12..][has - 13];
        ok, list' := Extend(f, all, has, will, list, rest);
        if ok {
          assert all[has - 1] == all[12..][has - 13];
          StoreTable(f, all, list', rest);
        }
      }
    }

    /** One round of the copying loop: read the block if it may hold older bytes, splice
    the new ones in, write it back. */
    method WriteChunk(f: nat, all: array<nat>, piece: seq<Byte>, read: bool, ghost list: seq<nat>)
      requires f in nodes && |nodes[f].sectors| == 13 && Names(nodes[f].sectors, list, disk)
      requires InDisk(disk, list) && NoDup(list) && (nodes[f].sectors[12] != 0 ==> nodes[f].sectors[12] !in list)
      requires Sec(nodes[f].size) < |list| <= MAX_BLOCKS == all.Length && all[Sec(nodes[f].size)] == list[Sec(nodes[f].size)]
      requires Off(nodes[f].size) + |piece| <= 512 && (read || Off(nodes[f].size) == 0)
      modifies `nodes, `disk
      ensures f in nodes && nodes == old(nodes)[f := nodes[f]]
      ensures nodes[f] == old(nodes[f]).(size := old(nodes[f].size) + |piece|)
      ensures |disk| == |old(disk)| && Names(nodes[f].sectors, list, disk) && InDisk(disk, list)
      ensures forall x :: 0 <= x < |disk| && x !in list ==> disk[x] == old(disk[x])
      ensures nodes[f].size <= 512 * |list|
      ensures Content(disk, list, nodes[f].size) == Content(old(disk), list, old(nodes[f].size)) + piece
    {
      hide Names, Content, NoDup;
      var sec, off := Sec(nodes[f].size), Off(nodes[f].size);
      var lba := all[sec];
      var buf: Sector := seq(512, _ => 0);
      if read {
        buf := disk[lba];
      }
      assert buf[..off] == disk[lba][..off];
      ChunkAppends(disk, list, nodes[f].size, buf, piece);
      NamesFrame(nodes[f].sectors, list, disk, sec, Spliced(buf, off, piece));
      disk := disk[lba := Spliced(buf, off, piece)];
      nodes := nodes[f := nodes[f].(size := nodes[f].size + |piece|)];
    }

    /** The copying loop of file_write; only the first block can hold older bytes, so
    only it is read. `pos` is the new file position. */
    method WriteBytes(f: nat, data: seq<Byte>, all: array<nat>, ghost list: seq<nat>, ghost rest: set<nat>)
      returns (pos: nat)
      requires f in nodes && Names(nodes[f].sectors, list, disk) && Ours(Vol(), Own(nodes[f].sectors, list), rest)
      requires |list| == Sec(nodes[f].size + |data|) + 1 && all.Length == MAX_BLOCKS
      requires forall b :: Sec(nodes[f].size) <= b < |list| ==> all[b] == list[b]
      modifies `nodes, `disk
      ensures f in nodes && nodes == old(nodes)[f := nodes[f]]
      ensures nodes[f] == old(nodes[f]).(size := old(nodes[f].size) + |data|)
      ensures |disk| == |old(disk)| && Names(nodes[f].sectors, list, disk) && InDisk(disk, list)
      ensures forall x :: 0 <= x < |disk| && x !in list ==> disk[x] == old(disk[x])
      ensures Content(disk, list, nodes[f].size) == Content(old(disk), list, old(nodes[f].size)) + data
      ensures pos == LastByte(nodes[f].size)
    {
      hide Ours, Names, Own, Content, NoDup, Plus, LastByte, Sec, Off, ChunkSize, InDisk, Padded;
      NamesShape(nodes[f].sectors, list, disk);
      OwnInDisk(Vol(), nodes[f].sectors, list, rest);
      ghost var size := nodes[f].size;
      EndInBlocks(size, |data|, |list|);
      ghost var base := Content(disk, list, size);
      var written, first := 0, true;
      pos := LastByte(nodes[f].size);
      while written < |data|
        invariant 0 <= written <= |data| && f in nodes && nodes == old(nodes)[f := nodes[f]]
        invariant nodes[f] == old(nodes[f]).(size := size + written)
        invariant |disk| == |old(disk)| && Names(nodes[f].sectors, list, disk) && InDisk(disk, list)
        invariant forall x :: 0 <= x < |disk| && x !in list ==> disk[x] == old(disk[x])
        invariant nodes[f].size <= 512 * |list| && Content(disk, list, nodes[f].size) == base + data[..written]
        invariant first || written == |data| || Off(nodes[f].size) == 0
        invariant pos == LastByte(nodes[f].size)
      {
        var chunk := ChunkSize(nodes[f].size, |data| - written);
        ChunkFits(nodes[f].size, |data| - written);
        var piece := data[written..written + chunk];
        NextPiece(base, data, written, chunk);
        BlockOfEnd(size, written, |data|, |list|);
        PosMoves(nodes[f].size, chunk);
        WriteChunk(f, all, piece, first, list);
        first := false;
        pos := Plus(pos, chunk);
        written := written + chunk;
      }
      assert data[..written] == data;
    }

    /** The first block of a file that was never written. */
    method FirstBlock(f: nat, ghost list: seq<nat>, ghost rest: set<nat>) returns (ok: bool, ghost list': seq<nat>)
      requires f in nodes && FileOk(Vol(), nodes[f], list, rest)
      modifies `bits, `nodes
      ensures ok ==> f in nodes && nodes == old(nodes)[f := nodes[f]] && nodes[f].size == old(nodes[f].size)
      ensures ok ==> FileOk(Vol(), nodes[f], list', rest) && list' != [] && list <= list' && |bits| == |old(bits)|
      ensures ok <==> FreeCount(old(bits)) >= if list == [] then 1 else 0
      ensures ok ==> FreeCount(bits) == FreeCount(old(bits)) - if list == [] then 1 else 0
    {
      hide FreeCount, Ours;
      list' := list;
      OwnInDisk(Vol(), nodes[f].sectors, list, rest);
      assert nodes[f].sectors[0] == nodes[f].sectors[..12][0];
      assert nodes[f].sectors[0] == 0 <==> list == [];
      if nodes[f].sectors[0] == 0 {
        var lba := AllocBlock(Own(nodes[f].sectors, list), rest);
        if lba.None? {
          return false, list;
        }
        nodes := nodes[f := nodes[f].(sectors := nodes[f].sectors[0 := lba.value])];
        list' := [lba.value];
        assert Own(nodes[f].sectors, list') == Own(old(nodes[f].sectors), list) + [lba.value];
        assert nodes[f].sectors[..12] == Padded(list')[..12];
      }
      ok := true;
    }

    /** file_write: appends. It fails beyond 140 blocks, and stops at an ASSERT when the
    file would be exactly 140 blocks long or the partition is full. The test for 140 blocks
    is passed by a length so large that the sum wraps. */
    method FileWrite(f: nat, data: seq<Byte>, ghost list: seq<nat>, ghost rest: set<nat>)
      returns (r: Result, pos: nat, ghost list': seq<nat>)
      requires f in nodes && FileOk(Vol(), nodes[f], list, rest) && |data| < WORD
      modifies `bits, `nodes, `disk
      ensures r == Failed <==> Plus(old(nodes[f].size), |data|) > 71680
      ensures r == Runaway <==> old(nodes[f].size) + |data| >= WORD && Plus(old(nodes[f].size), |data|) <= 71680
      ensures r.Done? <==> old(nodes[f].size) + |data| < 71680 && FreeCount(old(bits)) >= Needed(list, old(nodes[f].size), |data|)
      ensures r == Failed ==> nodes == old(nodes) && disk == old(disk) && bits == old(bits)
      ensures r.Done? ==> f in nodes && nodes == old(nodes)[f := nodes[f]] && nodes[f].size == old(nodes[f].size) + |data|
      ensures r.Done? ==> r.bytes == |data| && pos == LastByte(nodes[f].size)
      ensures r.Done? ==> FileOk(Vol(), nodes[f], list', rest) && list <= list' && |disk| == |old(disk)| && |bits| == |old(bits)|
      ensures r.Done? ==> forall x :: 0 <= x < |disk| && x !in Own(nodes[f].sectors, list') ==> disk[x] == old(disk[x])
      ensures r.Done? ==> InDisk(disk, list') && InDisk(old(disk), list) && old(nodes[f].size) <= 512 * |list|
                          && nodes[f].size <= 512 * |list'|
      ensures r.Done? ==> Content(disk, list', nodes[f].size) == Content(old(disk), list, old(nodes[f].size)) + data
      ensures r.Done? ==> FreeCount(bits) == FreeCount(old(bits)) - Needed(list, old(nodes[f].size), |data|)
    {
      hide Ours, FreeCount, Names, Content, LastByte, NoDup;
      NamesShape(nodes[f].sectors, list, disk);
      list', pos := list, 0;
      if Plus(nodes[f].size, |data|) > 71680 {
        return Failed, pos, list;
      }
      if nodes[f].size + |data| >= WORD {
        return Runaway, pos, list;
      }
      ghost var size := nodes[f].size;
      OwnInDisk(Vol(), nodes[f].sectors, list, rest);
      var ok;
      ok, list' := FirstBlock(f, list, rest);
      if !ok || (nodes[f].size + |data|) / 512 + 1 > 140 {
        return Stopped, pos, list';
      }
      ghost var list1 := list';
      var all := new nat[140](_ => 0);
      ok, list' := Reserve(f, |data|, all, list1, rest);
      if !ok {
        return Stopped, pos, list';
      }
      ghost var disk1 := disk;
      NamesShape(nodes[f].sectors, list', disk);
      OwnInDisk(Vol(), nodes[f].sectors, list', rest);
      KeptContent(old(disk), disk1, list, list', size);
      pos := WriteBytes(f, data, all, list', rest);
      KeepsOurs(Volume(start, bits, disk1), disk, Own(nodes[f].sectors, list'), rest);
      r := Done(|data|);
    }

    /** The first part of file_read: the addresses of the blocks from `from` to `last`. */
    method Gather(f: nat, all: array<nat>, from: nat, last: nat, ghost list: seq<nat>, ghost rest: set<nat>)
      requires f in nodes && FileOk(Vol(), nodes[f], list, rest) && all.Length == MAX_BLOCKS
      requires from <= last && (last < |list| || (list == [] && last == 0))
      modifies all
      ensures forall b :: from <= b <= last && b < |list| ==> all[b] == list[b]
    {
      hide Ours;
      OwnInDisk(Vol(), nodes[f].sectors, list, rest);
      var sectors := nodes[f].sectors;
      assert forall i :: 0 <= i < 12 ==> sectors[i] == sectors[..12][i];
      if from == last {
        if last < 12 {
          all[last] := sectors[last];
        } else {
          LoadTable(all, sectors[12]);
          assert all[last] == all[12..][last - 12];
        }
      } else if last < 12 {
        for b := from to last + 1
          invariant forall i :: from <= i < b ==> all[i] == list[i]
        {
          all[b] := sectors[b];
        }
      } else {
        if from < 12 {
          for b := from to 12
            invariant forall i :: from <= i < b ==> all[i] == list[i]
          {
            all[b] := sectors[b];
          }
        }
        ghost var direct := all[..12];
        LoadTable(all, sectors[12]);
        forall b | from <= b <= last ensures all[b] == list[b] {
          if b < 12 {
            assert all[b] == all[..12][b] == direct[b];
          } else {
            assert all[b] == all[12..][b - 12];
          }
        }
      }
    }

    /** The copying loop of file_read. */
    method ReadBytes(f: nat, pos: nat, size: nat, all: array<nat>, ghost list: seq<nat>) returns (data: seq<Byte>)
      requires f in nodes && pos + size <= nodes[f].size <= 512 * |list| && InDisk(disk, list) && all.Length == MAX_BLOCKS
      requires |list| <= MAX_BLOCKS && (size == 0 || Sec(pos + size) < |list|)
      requires forall b :: Sec(pos) <= b <= Sec(pos + size) && b < |list| ==> all[b] == list[b]
      ensures data == Content(disk, list, nodes[f].size)[pos..pos + size]
    {
      hide Sec, Off, ChunkSize, Content;
      ghost var content := Content(disk, list, nodes[f].size);
      data := [];
      var at := pos;
      while |data| < size
        invariant pos <= at <= pos + size && |data| == at - pos
        invariant data == content[pos..at]
      {
        var chunk := ChunkSize(at, size - |data|);
        ChunkFits(at, size - |data|);
        BlockOfEnd(pos, |data|, size, Sec(pos + size) + 1);
        var buf := disk[all[Sec(at)]];
        var piece := buf[Off(at)..Off(at) + chunk];
        PieceIs(disk, list, nodes[f].size, at, chunk);
        NextSlice(content, pos, at, chunk);
        data := data + piece;
        at := at + chunk;
      }
    }

    /** file_read: the bytes from the file position on, at most `count` of them; -1 at the
    end of the file. An ASSERT stops it from reading the last two blocks of a file of
    maximal length. A position behind the end, or a count so large that the sum wraps, makes
    it copy more than the file has. */
    method FileRead(f: nat, pos: nat, count: nat, ghost list: seq<nat>, ghost rest: set<nat>)
      returns (r: Result, data: seq<Byte>, pos': nat)
      requires f in nodes && FileOk(Vol(), nodes[f], list, rest) && pos < WORD && count < WORD
      ensures var n := ToRead(nodes[f].size, pos, count);
              && (r == Failed <==> Plus(pos, count) > nodes[f].size == pos)
              && (r == Stopped <==> r != Failed && (pos >= 139 * 512 || Plus(pos, n) >= 139 * 512))
              && (r.Done? <==> r != Failed && r != Stopped && pos + n <= nodes[f].size)
              && (r.Done? ==>
                    && InDisk(disk, list) && nodes[f].size <= 512 * |list|
                    && r.bytes == n == |data| && pos' == pos + n
                    && data == Content(disk, list, nodes[f].size)[pos..pos + n])
    {
      hide Content, Ours, Names, Plus;
      NamesShape(nodes[f].sectors, list, disk);
      SizeBound(nodes[f].size, list);
      Difference(nodes[f].size, pos);
      data, pos' := [], pos;
      var size := count;
      if Plus(pos, count) > nodes[f].size {
        size := (nodes[f].size - pos) % WORD;
        if size == 0 {
          return Failed, data, pos';
        }
      }
      if !(pos / 512 < 139 && Plus(pos, size) / 512 < 139) {
        return Stopped, data, pos';
      }
      if pos + size > nodes[f].size {
        return Runaway, data, pos';
      }
      PlusSmall(pos, size);
      data := Transfer(f, pos, size, list, rest);
      pos' := pos + size;
      r := Done(size);
    }

    /** The addresses of the blocks, and the bytes in them. */
    method Transfer(f: nat, pos: nat, size: nat, ghost list: seq<nat>, ghost rest: set<nat>) returns (data: seq<Byte>)
      requires f in nodes && FileOk(Vol(), nodes[f], list, rest) && pos + size <= nodes[f].size && (pos + size) / 512 < 139
      ensures InDisk(disk, list) && nodes[f].size <= 512 * |list|
      ensures data == Content(disk, list, nodes[f].size)[pos..pos + size]
    {
      hide Content, Ours, Names;
      NamesShape(nodes[f].sectors, list, disk);
      var from, last := pos / 512, (pos + size) / 512;
      var all := new nat[140](_ => 0);
      Gather(f, all, from, last, list, rest);
      OwnInDisk(Vol(), nodes[f].sectors, list, rest);
      data := ReadBytes(f, pos, size, all, list);
    }

    /** The bit of one sector, which is never the root directory's, is cleared. */
    method FreeBlock(lba: nat, ghost own: seq<nat>, ghost rest: set<nat>)
      requires own != [] && lba == own[0] && Ours(Vol(), own, rest)
      modifies `bits
      ensures Ours(Vol(), own[1..], rest) && |bits| == |old(bits)|
      ensures FreeCount(bits) == FreeCount(old(bits)) + 1
    {
      GiveBack(Vol(), own, rest);
      var bit := lba - start;
      assert bit > 0;
      bits := bits[bit := false];
    }

    /** inode_release: exactly the sectors of the file become free. */
    method Release(f: nat, ghost list: seq<nat>, ghost rest: set<nat>)
      requires f in nodes && FileOk(Vol(), nodes[f], list, rest)
      modifies `bits, `nodes
      ensures nodes == old(nodes) - {f} && |bits| == |old(bits)|
      ensures Ours(Vol(), [], rest)
      ensures FreeCount(bits) == FreeCount(old(bits)) + |Own(old(nodes[f].sectors), list)|
    {
      hide Ours, FreeCount;
      var sectors := nodes[f].sectors;
      OwnInDisk(Vol(), sectors, list, rest);
      var all := new nat[140](_ => 0);
      for i := 0 to 12
        modifies all
        invariant forall j :: 0 <= j < i ==> all[j] == sectors[j]
        invariant forall j :: 12 <= j < 140 ==> all[j] == 0
      {
        all[i] := sectors[i];
      }
      var cnt := 12;
      assert all[..12] == sectors[..12];
      if sectors[12] != 0 {
        LoadTable(all, sectors[12]);
        cnt := 140;
        FreeBlock(sectors[12], Own(sectors, list), rest);
        assert Own(sectors, list)[1..] == list;
      } else {
        assert Own(sectors, list) == list;
      }
      AllIsPadded(all[..], sectors, list, disk);
      FreeAll(all, cnt, list, rest);
      nodes := nodes - {f};
    }

    /** The last loop of inode_release. */
    method FreeAll(all: array<nat>, cnt: nat, ghost list: seq<nat>, ghost rest: set<nat>)
      requires |list| <= cnt <= MAX_BLOCKS == all.Length && all[..] == Padded(list)
      requires forall i :: 0 <= i < |list| ==> list[i] != 0
      requires Ours(Vol(), list, rest)
      modifies `bits
      ensures |bits| == |old(bits)| && Ours(Vol(), [], rest)
      ensures FreeCount(bits) == FreeCount(old(bits)) + |list|
    {
      hide Ours, FreeCount;
      var i := 0;
      assert list[0..] == list;
      while i < cnt
        invariant 0 <= i <= cnt && |bits| == |old(bits)|
        invariant Ours(Vol(), if i <= |list| then list[i..] else [], rest)
        invariant FreeCount(bits) == FreeCount(old(bits)) + if i <= |list| then i else |list|
      {
        assert all[i] == all[..][i];
        if all[i] != 0 {
          FreeBlock(all[i], list[i..], rest);
          assert list[i..][1..] == list[i + 1..];
        } else {
          assert i == |list| ==> list[i..] == [];
        }
        i := i + 1;
      }
      assert i == |list| ==> list[i..] == [];
    }

    /** A sector for the indirect table of a file that has none. */
    method NewTable(f: nat, ghost list: seq<nat>, ghost rest: set<nat>) returns (ok: bool)
      requires f in nodes && |nodes[f].sectors| == 13 && nodes[f].sectors[12] == 0
      requires Ours(Vol(), Own(nodes[f].sectors, list), rest)
      modifies `bits, `nodes
      ensures ok ==> f in nodes && |nodes[f].sectors| == 13 && nodes[f].sectors[12] != 0 && |bits| == |old(bits)|
      ensures ok ==> nodes == old(nodes)[f := nodes[f]]
      ensures ok ==> nodes[f] == old(nodes[f]).(sectors := old(nodes[f]).sectors[12 := nodes[f].sectors[12]])
      ensures ok ==> Ours(Vol(), Own(nodes[f].sectors, list), rest)
      ensures ok <==> FreeCount(old(bits)) > 0
      ensures ok ==> FreeCount(bits) == FreeCount(old(bits)) - 1
    {
      hide FreeCount;
      assert Own(nodes[f].sectors, list) == list;
      var table := AllocBlock(Own(nodes[f].sectors, list), rest);
      if table.None? {
        return false;
      }
      nodes := nodes[f := nodes[f].(sectors := nodes[f].sectors[12 := table.value])];
      FirstLast(Vol(), list, table.value, rest);
      ok := true;
    }

    /** ide_write of the address table's indirect part. */
    method StoreTable(f: nat, all: array<nat>, ghost list: seq<nat>, ghost rest: set<nat>)
      requires f in nodes && |nodes[f].sectors| == 13 && nodes[f].sectors[12] != 0 && DIRECT < |list| <= MAX_BLOCKS
      requires Ours(Vol(), Own(nodes[f].sectors, list), rest) && nodes[f].sectors[..12] == Padded(list)[..12]
      requires all.Length == MAX_BLOCKS && all[12..] == Padded(list)[12..]
      modifies `disk
      ensures |disk| == |old(disk)| && Names(nodes[f].sectors, list, disk) && Ours(Vol(), Own(nodes[f].sectors, list), rest)
      ensures forall x :: 0 <= x < |disk| && x != nodes[f].sectors[12] ==> disk[x] == old(disk[x])
    {
      OwnInDisk(Vol(), nodes[f].sectors, list, rest);
      PaddedSmall(Vol(), nodes[f].sectors, list, rest);
      DecodeEncode(all[12..]);
      disk := disk[nodes[f].sectors[12] := Encode(all[12..])];
    }
  }

  lemma BlockOfEnd(size: nat, written: nat, count: nat, n: nat)
    requires written < count && n == Sec(size + count) + 1
    ensures Sec(size) <= Sec(size + written) < n
  {
  }

  lemma EndInBlocks(size: nat, count: nat, n: nat)
    requires n == Sec(size + count) + 1
    ensures size + count <= 512 * n
  {
  }

  lemma ChunkFits(size: nat, left: nat)
    requires left > 0
    ensures var c := ChunkSize(size, left);
            0 < c <= left && Off(size) + c <= 512 && (c == left || Off(size + c) == 0)
  {
  }

  lemma NextPiece(base: seq<Byte>, data: seq<Byte>, i: nat, n: nat)
    requires i + n <= |data|
    ensures base + data[..i] + data[i..i + n] == base + data[..i + n]
  {
  }

  /** Blocks behind the end, and a table that is not one of the blocks, leave the bytes
  alone. */
  lemma KeptContent(disk: seq<Sector>, disk': seq<Sector>, list: seq<nat>, list': seq<nat>, size: nat)
    requires InDisk(disk, list) && list <= list' && InDisk(disk', list') && |disk'| == |disk| && size <= 512 * |list|
    requires forall i :: 0 <= i < |list'| ==> disk'[list'[i]] == disk[list'[i]]
    ensures Content(disk', list', size) == Content(disk, list, size)
  {
    ContentFrame(disk, disk', list', size);
    ContentPrefix(disk, list, list', size);
  }

  lemma KeepsOurs(v: Volume, disk': seq<Sector>, own: seq<nat>, rest: set<nat>)
    requires Ours(v, own, rest) && |disk'| == |v.disk|
    ensures Ours(v.(disk := disk'), own, rest)
  {
  }

  lemma SizeBound(size: nat, list: seq<nat>)
    requires Sized(size, list) && |list| <= MAX_BLOCKS
    ensures size < 71680
  {
  }

  lemma Difference(size: nat, pos: nat)
    requires size < WORD && pos < WORD
    ensures (size - pos) % WORD == 0 <==> size == pos
  {
  }

  lemma PlusSmall(x: nat, y: nat)
    requires x + y < WORD
    ensures Plus(x, y) == x + y
  {
  }

  lemma NextSlice(s: seq<Byte>, from: nat, at: nat, n: nat)
    requires from <= at && at + n <= |s|
    ensures s[from..at] + s[at..at + n] == s[from..at + n]
  {
  }

  lemma PieceIs(disk: seq<Sector>, list: seq<nat>, size: nat, at: nat, chunk: nat)
    requires InDisk(disk, list) && at + chunk <= size <= 512 * |list| && Off(at) + chunk <= 512 && Sec(at) < |list|
    ensures disk[list[Sec(at)]][Off(at)..Off(at) + chunk] == Content(disk, list, size)[at..at + chunk]
  {
    var p := disk[list[Sec(at)]][Off(at)..Off(at) + chunk];
    var c := Content(disk, list, size)[at..at + chunk];
    forall k | 0 <= k < chunk ensures p[k] == c[k] {
      assert (at + k) / 512 == Sec(at) && (at + k) % 512 == Off(at) + k;
    }
  }

  lemma AllIsPadded(all: seq<nat>, sectors: seq<nat>, list: seq<nat>, disk: seq<Sector>)
    requires |all| == MAX_BLOCKS && Names(sectors, list, disk) && all[..12] == sectors[..12]
    requires sectors[12] != 0 ==> all[12..] == Decode(disk[sectors[12]])
    requires sectors[12] == 0 ==> forall j :: 12 <= j < MAX_BLOCKS ==> all[j] == 0
    ensures all == Padded(list)
  {
    forall j | 0 <= j < MAX_BLOCKS ensures all[j] == Padded(list)[j] {
      if j < 12 {
        assert all[j] == all[..12][j] && Padded(list)[j] == Padded(list)[..12][j];
      } else if sectors[12] != 0 {
        assert all[j] == all[12..][j - 12] && Padded(list)[j] == Padded(list)[12..][j - 12];
      }
    }
  }

  lemma GiveBack(v: Volume, own: seq<nat>, rest: set<nat>)
    requires own != [] && Ours(v, own, rest)
    ensures var b := own[0] - v.start;
            && 0 < b < |v.bits| && Ours(v.(bits := v.bits[b := false]), own[1..], rest)
            && FreeCount(v.bits[b := false]) == FreeCount(v.bits) + 1
  {
    var b := own[0] - v.start;
    assert own[0] in own;
    assert own == [own[0]] + own[1..];
    assert forall x :: x in own[1..] <==> x in own && x != own[0];
    FreeAfterTake(v.bits[b := false], b);
    assert v.bits[b := false][b := true] == v.bits;
  }

  lemma PosMoves(size: nat, chunk: nat)
    ensures Plus(LastByte(size), chunk) == LastByte(size + chunk)
  {
  }

  /** Writing a sector of the file keeps what the inode and its table name. */
  lemma NamesFrame(sectors: seq<nat>, list: seq<nat>, disk: seq<Sector>, i: nat, s: Sector)
    requires Names(sectors, list, disk) && i < |list| && list[i] < |disk|
    requires sectors[12] != 0 ==> sectors[12] !in list
    ensures Names(sectors, list, disk[list[i] := s])
  {
  }

  lemma NamesShape(sectors: seq<nat>, list: seq<nat>, disk: seq<Sector>)
    requires Names(sectors, list, disk)
    ensures |sectors| == 13 && |list| <= MAX_BLOCKS
  {
  }

  lemma OwnInDisk(v: Volume, sectors: seq<nat>, list: seq<nat>, rest: set<nat>)
    requires |sectors| == 13 && Ours(v, Own(sectors, list), rest)
    ensures InDisk(v.disk, list) && NoDup(list)
    ensures sectors[12] != 0 ==> sectors[12] < |v.disk| && sectors[12] !in list
    ensures forall i :: 0 <= i < |list| ==> list[i] != 0 && list[i] !in rest
  {
    var own := Own(sectors, list);
    var d := |TableOf(sectors)|;
    forall i | 0 <= i < |list| ensures list[i] == own[d + i] && own[d + i] in own {
    }
    if sectors[12] != 0 {
      assert own[0] == sectors[12] && own[0] in own;
    }
  }

  lemma PaddedSmall(v: Volume, sectors: seq<nat>, list: seq<nat>, rest: set<nat>)
    requires |sectors| == 13 && |list| <= MAX_BLOCKS && Ours(v, Own(sectors, list), rest)
    ensures forall i :: 0 <= i < MAX_BLOCKS ==> Padded(list)[i] < WORD
  {
    OwnInDisk(v, sectors, list, rest);
  }

  /** The order in which sectors are listed does not matter. */
  lemma FirstLast(v: Volume, list: seq<nat>, x: nat, rest: set<nat>)
    requires Ours(v, list + [x], rest)
    ensures Ours(v, [x] + list, rest)
  {
    var own, own' := list + [x], [x] + list;
    assert forall y :: y in own' <==> y in own;
    forall i, j | 0 <= i < j < |own'| ensures own'[i] != own'[j] {
      if i == 0 {
        assert own'[j] == own[j - 1] && own[|list|] == x;
      } else {
        assert own'[i] == own[i - 1] && own'[j] == own[j - 1];
      }
    }
  }
}
