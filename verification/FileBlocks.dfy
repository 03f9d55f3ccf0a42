/** Files as blocks (fs/file.c, fs/inode.c): twelve direct blocks and one table of 128
more, allocated from the partition's block bitmap. */
module FileBlocks {
  import opened Basics
  import opened Bitmaps

  type Byte = x: nat | x < 256

  /** One sector, which is also one block. */
  type Sector = s: seq<Byte> | |s| == 512 witness seq(512, _ => 0)

  const DIRECT: nat := 12
  const MAX_BLOCKS: nat := 140

  // ---------------------------------------------------------------------------
  // The indirect table: 128 little-endian 32-bit sector addresses
  // ---------------------------------------------------------------------------

  function ByteOf(x: nat, i: nat): Byte {
    if i == 0 then x % 256 else ByteOf(x / 256, i - 1)
  }

  function Word(b0: Byte, b1: Byte, b2: Byte, b3: Byte): nat {
    b0 + 256 * (b1 + 256 * (b2 + 256 * b3))
  }

  function Encode(t: seq<nat>): Sector
    requires |t| == 128
  {
    seq(512, i requires 0 <= i < 512 => ByteOf(t[i / 4], i % 4))
  }

  function Decode(s: Sector): (t: seq<nat>)
    ensures |t| == 128
  {
    seq(128, j requires 0 <= j < 128 => Word(s[4 * j], s[4 * j + 1], s[4 * j + 2], s[4 * j + 3]))
  }

  lemma WordOfBytes(x: nat)
    requires x < 0x1_0000_0000
    ensures Word(ByteOf(x, 0), ByteOf(x, 1), ByteOf(x, 2), ByteOf(x, 3)) == x
  {
    var y := x / 256;
    var z := y / 256;
    var w := z / 256;
    FourBytes(x, y, z, w);
    Recompose(x, y, z, w, x % 256, y % 256, z % 256, w);
  }

  lemma FourBytes(x: nat, y: nat, z: nat, w: nat)
    requires y == x / 256 && z == y / 256 && w == z / 256 && x < 0x1_0000_0000
    ensures ByteOf(x, 0) == x % 256 && ByteOf(x, 1) == y % 256 && ByteOf(x, 2) == z % 256 && ByteOf(x, 3) == w
  {
    assert ByteOf(x, 1) == ByteOf(y, 0);
    assert ByteOf(x, 2) == ByteOf(y, 1) == ByteOf(z, 0);
    assert ByteOf(x, 3) == ByteOf(y, 2) == ByteOf(z, 1) == ByteOf(w, 0);
    assert y < 0x100_0000;
    assert z < 0x1_0000;
  }

  lemma Recompose(x: nat, y: nat, z: nat, w: nat, b0: nat, b1: nat, b2: nat, b3: nat)
    requires x == b0 + 256 * y && y == b1 + 256 * z && z == b2 + 256 * w && w == b3
    ensures b0 + 256 * (b1 + 256 * (b2 + 256 * b3)) == x
  {
  }

  /** A table read back is the table written. */
  lemma DecodeEncode(t: seq<nat>)
    requires |t| == 128 && forall j :: 0 <= j < 128 ==> t[j] < 0x1_0000_0000
    ensures Decode(Encode(t)) == t
  {
    forall j | 0 <= j < 128 ensures Decode(Encode(t))[j] == t[j] {
      WordOfBytes(t[j]);
      assert (4 * j) / 4 == j && (4 * j + 1) / 4 == j && (4 * j + 2) / 4 == j && (4 * j + 3) / 4 == j;
    }
  }

  // ---------------------------------------------------------------------------
  // One file
  // ---------------------------------------------------------------------------

  datatype Node = Node(size: nat, sectors: seq<nat>)

  datatype Volume = Volume(start: nat, bits: seq<bool>, disk: seq<Sector>)

  /** The address table of a file with blocks `list`, padded with zeros. */
  function Padded(list: seq<nat>): (r: seq<nat>)
    requires |list| <= MAX_BLOCKS
    ensures |r| == MAX_BLOCKS && forall i :: 0 <= i < MAX_BLOCKS ==> r[i] == if i < |list| then list[i] else 0
  {
    list + seq(MAX_BLOCKS - |list|, _ => 0)
  }

  /** The inode and the indirect table on disk name exactly the blocks `list`. */
  ghost predicate Names(sectors: seq<nat>, list: seq<nat>, disk: seq<Sector>) {
    && |sectors| == 13 && |list| <= MAX_BLOCKS
    && sectors[..12] == Padded(list)[..12]
    && (sectors[12] == 0 <==> |list| <= DIRECT)
    && (|list| > DIRECT ==> sectors[12] < |disk| && Decode(disk[sectors[12]]) == Padded(list)[12..])
  }

  function TableOf(sectors: seq<nat>): seq<nat>
    requires |sectors| == 13
  {
    if sectors[12] == 0 then [] else [sectors[12]]
  }

  /** Every sector the file occupies: its indirect table and its blocks. */
  function Own(sectors: seq<nat>, list: seq<nat>): seq<nat>
    requires |sectors| == 13
  {
    TableOf(sectors) + list
  }

  /** A written file has the blocks up to the one its end lies in; a new one has none. */
  predicate Sized(size: nat, list: seq<nat>) {
    if list == [] then size == 0 else |list| == size / 512 + 1
  }

  /** `own` are distinct sectors of the data area that nobody else uses, and the bitmap
  knows them and the rest and no others. The first data block is the root directory's. */
  ghost predicate Ours(v: Volume, own: seq<nat>, rest: set<nat>) {
    && v.start > 0 && v.start + |v.bits| <= |v.disk| && |v.disk| <= 0x1_0000_0000
    && v.start in rest && NoDup(own)
    && (forall x :: x in own ==> x !in rest && v.start <= x < v.start + |v.bits|)
    && (forall b: nat :: b < |v.bits| ==> (v.bits[b] <==> v.start + b in rest || v.start + b in own))
  }

  ghost predicate FileOk(v: Volume, node: Node, list: seq<nat>, rest: set<nat>) {
    Names(node.sectors, list, v.disk) && Sized(node.size, list) && Ours(v, Own(node.sectors, list), rest)
  }

  predicate InDisk(disk: seq<Sector>, list: seq<nat>) {
    forall i :: 0 <= i < |list| ==> list[i] < |disk|
  }

  /** The bytes of a file. */
  function Content(disk: seq<Sector>, list: seq<nat>, size: nat): (r: seq<Byte>)
    requires size <= 512 * |list| && InDisk(disk, list)
    ensures |r| == size
  {
    seq(size, k requires 0 <= k < size => disk[list[k / 512]][k % 512])
  }

  // ---------------------------------------------------------------------------
  // Taking a block
  // ---------------------------------------------------------------------------

  /** block_bitmap_alloc: the sector taken was free, and is never the root directory's. */
  lemma TakeBlock(v: Volume, own: seq<nat>, rest: set<nat>, b: nat)
    requires Ours(v, own, rest) && b < |v.bits| && !v.bits[b]
    ensures Ours(v.(bits := v.bits[b := true]), own + [v.start + b], rest) && b != 0
  {
    var own' := own + [v.start + b];
    assert v.start + b !in own;
    assert forall x :: x in own' <==> x in own || x == v.start + b;
  }

  // ---------------------------------------------------------------------------
  // Writing and reading bytes
  // ---------------------------------------------------------------------------

  /** A sector with `chunk` copied in at `off`. */
  function Spliced(s: Sector, off: nat, chunk: seq<Byte>): Sector
    requires off + |chunk| <= 512
  {
    s[..off] + chunk + s[off + |chunk|..]
  }

  /** Overwriting the end of a file, block by block, appends. */
  lemma ChunkAppends(disk: seq<Sector>, list: seq<nat>, size: nat, s: Sector, chunk: seq<Byte>)
    requires size / 512 < |list| && NoDup(list) && InDisk(disk, list)
    requires size % 512 + |chunk| <= 512
    requires s[..size % 512] == disk[list[size / 512]][..size % 512]
    ensures Content(disk[list[size / 512] := Spliced(s, size % 512, chunk)], list, size + |chunk|)
            == Content(disk, list, size) + chunk
  {
    var q, off := size / 512, size % 512;
    var disk' := disk[list[q] := Spliced(s, off, chunk)];
    var r, e := Content(disk', list, size + |chunk|), Content(disk, list, size) + chunk;
    forall k | 0 <= k < size + |chunk| ensures r[k] == e[k] {
      if k < size {
        if k / 512 == q {
          assert disk'[list[q]][k % 512] == s[..off][k % 512];
          assert disk[list[q]][..off][k % 512] == disk[list[q]][k % 512];
        } else {
          assert list[k / 512] != list[q];
        }
      } else {
        assert k / 512 == q && k % 512 == off + (k - size);
        assert Spliced(s, off, chunk)[off + (k - size)] == chunk[k - size];
      }
    }
  }

  /** Content depends on the file's own blocks only. */
  lemma ContentFrame(disk: seq<Sector>, disk': seq<Sector>, list: seq<nat>, size: nat)
    requires size <= 512 * |list| && InDisk(disk, list) && |disk'| == |disk|
    requires forall i :: 0 <= i < |list| ==> disk'[list[i]] == disk[list[i]]
    ensures Content(disk', list, size) == Content(disk, list, size)
  {
  }

  /** More blocks behind the end do not change the content. */
  lemma ContentPrefix(disk: seq<Sector>, list: seq<nat>, list': seq<nat>, size: nat)
    requires size <= 512 * |list| && list <= list' && InDisk(disk, list')
    ensures InDisk(disk, list) && Content(disk, list', size) == Content(disk, list, size)
  {
    assert forall i :: 0 <= i < |list| ==> list[i] == list'[i];
  }
}
