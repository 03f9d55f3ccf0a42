/** Directories on sectors (fs/dir.c, fs/dir.h): 24-byte entries in the blocks that an inode
and its indirect table lead to, with holes where blocks were given back. */
module FolderBlocks {
  import opened Basics
  import opened FileBlocks
  import D = Directories

  // ---------------------------------------------------------------------------
  // struct dir_entry: 16 bytes of name, inode number, file type
  // ---------------------------------------------------------------------------

  /** A zero-terminated name. */
  function NameOf(b: seq<Byte>): string {
    if b == [] || b[0] == 0 then "" else [b[0] as char] + NameOf(b[1..])
  }

  predicate Plain(n: string) {
    forall i :: 0 <= i < |n| ==> 0 < n[i] as int < 256
  }

  function NameBytes(n: string, k: nat): seq<Byte>
    requires Plain(n)
  {
    seq(k, i requires 0 <= i < k => if i < |n| then n[i] as int else 0)
  }

  lemma {:induction false} NameBack(n: string, k: nat)
    requires Plain(n) && |n| <= k
    ensures NameOf(NameBytes(n, k)) == n
    decreases k
  {
    var b := NameBytes(n, k);
    if n != "" {
      assert b[1..] == NameBytes(n[1..], k - 1);
      NameBack(n[1..], k - 1);
      assert n == [n[0]] + n[1..];
    }
  }

  function WordBytes(x: nat): (b: seq<Byte>)
    ensures |b| == 4
  {
    [ByteOf(x, 0), ByteOf(x, 1), ByteOf(x, 2), ByteOf(x, 3)]
  }

  /** FT_REGULAR and FT_DIRECTORY; FT_UNKNOWN is 0. */
  function KindWord(kind: D.Kind): nat {
    if kind == D.Regular then 1 else 2
  }

  /** An entry that fits into its fields, with a byte left to end the name. */
  predicate Storable(e: D.Entry) {
    Plain(e.name) && |e.name| < 16 && e.ino < 0x1_0000_0000
  }

  function EncodeEntry(e: D.Entry): (b: seq<Byte>)
    requires Storable(e)
    ensures |b| == 24
  {
    NameBytes(e.name, 16) + WordBytes(e.ino) + WordBytes(KindWord(e.kind))
  }

  function DecodeEntry(b: seq<Byte>): Option<D.Entry>
    requires |b| == 24
  {
    var kind := Word(b[20], b[21], b[22], b[23]);
    if kind == 0 then None
    else Some(D.Entry(NameOf(b[..16]), Word(b[16], b[17], b[18], b[19]), if kind == 2 then D.Directory else D.Regular))
  }

  /** An entry read back is the entry written. */
  lemma DecodeEncodeEntry(e: D.Entry)
    requires Storable(e)
    ensures DecodeEntry(EncodeEntry(e)) == Some(e)
  {
    hide NameOf, NameBytes, ByteOf, Word;
    var b := EncodeEntry(e);
    assert |NameBytes(e.name, 16)| == 16 by {
      NameLength(e.name, 16);
    }
    assert b[..16] == NameBytes(e.name, 16);
    assert b[16..20] == WordBytes(e.ino) && b[20..] == WordBytes(KindWord(e.kind));
    assert b[16] == b[16..20][0] && b[17] == b[16..20][1] && b[18] == b[16..20][2] && b[19] == b[16..20][3];
    assert b[20] == b[20..][0] && b[21] == b[20..][1] && b[22] == b[20..][2] && b[23] == b[20..][3];
    NameBack(e.name, 16);
    WordOfBytes(e.ino);
    WordOfBytes(KindWord(e.kind));
  }

  lemma NameLength(n: string, k: nat)
    requires Plain(n)
    ensures |NameBytes(n, k)| == k
  {
  }

  /** A cleared entry is no entry. */
  function ZeroEntry(): (b: seq<Byte>)
    ensures |b| == 24 && DecodeEntry(b) == None
  {
    [0, 0, 0, 0, 0, 0, 0, 0, 0, 0, 0, 0, 0, 0, 0, 0, 0, 0, 0, 0, 0, 0, 0, 0]
  }

  // ---------------------------------------------------------------------------
  // A block of entries
  // ---------------------------------------------------------------------------

  function EntryAt(s: Sector, j: nat): Option<D.Entry>
    requires j < 21
  {
    DecodeEntry(s[24 * j..24 * j + 24])
  }

  function BlockOf(s: Sector): (b: D.Block)
    ensures forall j: nat :: j < 21 ==> b[j] == EntryAt(s, j)
  {
    var b: seq<Option<D.Entry>> := seq(21, j requires 0 <= j < 21 => EntryAt(s, j));
    b
  }

  /** The sector with the 24 bytes of entry `j` overwritten. */
  function Patch(s: Sector, j: nat, b: seq<Byte>): Sector
    requires j < 21 && |b| == 24
  {
    s[..24 * j] + b + s[24 * j + 24..]
  }

  lemma PatchBlock(s: Sector, j: nat, b: seq<Byte>)
    requires j < 21 && |b| == 24
    ensures BlockOf(Patch(s, j, b)) == BlockOf(s)[j := DecodeEntry(b)]
  {
    hide DecodeEntry;
    var s' := Patch(s, j, b);
    forall i: nat | i < 21 ensures EntryAt(s', i) == if i == j then DecodeEntry(b) else EntryAt(s, i) {
      PatchAt(s, j, b, i);
    }
    assert BlockOf(s') == BlockOf(s)[j := DecodeEntry(b)];
  }

  lemma PatchAt(s: Sector, j: nat, b: seq<Byte>, i: nat)
    requires j < 21 && |b| == 24 && i < 21
    ensures Patch(s, j, b)[24 * i..24 * i + 24] == if i == j then b else s[24 * i..24 * i + 24]
  {
    if i < j {
      assert 24 * i + 24 <= 24 * j;
    } else if i > j {
      assert 24 * j + 24 <= 24 * i;
    }
  }

  function Zeros(): Sector {
    var s: seq<Byte> := seq(512, _ => 0);
    s
  }

  function EmptyBlock(): D.Block {
    [None, None, None, None, None, None, None, None, None, None, None,
     None, None, None, None, None, None, None, None, None, None]
  }

  lemma ZeroSlice(j: nat)
    requires j < 21
    ensures DecodeEntry(Zeros()[24 * j..24 * j + 24]) == None
  {
    assert Zeros()[24 * j..24 * j + 24] == ZeroEntry();
  }

  lemma ZeroBlock()
    ensures BlockOf(Zeros()) == EmptyBlock()
  {
    hide Zeros, DecodeEntry;
    forall j: nat | j < 21 ensures EntryAt(Zeros(), j) == None {
      ZeroSlice(j);
    }
  }

  /** memset and memcpy of the first entry of a new block. */
  function FirstEntry(e: D.Entry): Sector
    requires Storable(e)
  {
    Patch(Zeros(), 0, EncodeEntry(e))
  }

  lemma FirstEntryBlock(e: D.Entry)
    requires Storable(e)
    ensures BlockOf(FirstEntry(e)) == D.NewBlock(e)
  {
    hide EncodeEntry, DecodeEntry, BlockOf;
    PatchBlock(Zeros(), 0, EncodeEntry(e));
    DecodeEncodeEntry(e);
    ZeroBlock();
    assert EmptyBlock()[0 := Some(e)] == D.NewBlock(e);
  }

  /** The block of a new directory. */
  function DotSector(self: nat, up: nat): Sector
    requires self < 0x1_0000_0000 && up < 0x1_0000_0000
  {
    Patch(Patch(Zeros(), 0, EncodeEntry(D.Entry(".", self, D.Directory))), 1, EncodeEntry(D.Entry("..", up, D.Directory)))
  }

  lemma DotSectorBlock(self: nat, up: nat)
    requires self < 0x1_0000_0000 && up < 0x1_0000_0000
    ensures BlockOf(DotSector(self, up)) == D.DotBlock(self, up)
  {
    hide EncodeEntry, DecodeEntry, BlockOf;
    var a, b := D.Entry(".", self, D.Directory), D.Entry("..", up, D.Directory);
    PatchBlock(Zeros(), 0, EncodeEntry(a));
    PatchBlock(Patch(Zeros(), 0, EncodeEntry(a)), 1, EncodeEntry(b));
    DecodeEncodeEntry(a);
    DecodeEncodeEntry(b);
    ZeroBlock();
    assert EmptyBlock()[0 := Some(a)][1 := Some(b)] == D.DotBlock(self, up);
  }
}
