/** The inode table on disk and the list of open inodes (fs/inode.c). */
module Inodes {
  import opened Basics
  import opened FileBlocks

  const INODE_SIZE: nat := 76     // sizeof(struct inode)
  const TABLE_SECTORS: nat := 608 // 4096 inodes
  const INODES: nat := 4096

  /** The fields of struct inode; `prev` and `next` are its list links. */
  datatype Inode = Inode(no: nat, size: nat, opens: nat, deny: bool, sectors: seq<nat>, prev: nat, next: nat)

  predicate Fits(n: Inode) {
    && n.no < 0x1_0000_0000 && n.size < 0x1_0000_0000 && n.opens < 0x1_0000_0000
    && n.prev < 0x1_0000_0000 && n.next < 0x1_0000_0000
    && |n.sectors| == 13 && forall i :: 0 <= i < 13 ==> n.sectors[i] < 0x1_0000_0000
  }

  // ---------------------------------------------------------------------------
  // Bytes of an inode
  // ---------------------------------------------------------------------------

  function Words(n: Inode): (r: seq<nat>)
    requires |n.sectors| == 13
    ensures |r| == 19
  {
    [n.no, n.size, n.opens, if n.deny then 1 else 0] + n.sectors + [n.prev, n.next]
  }

  function ToBytes(words: seq<nat>): (r: seq<Byte>)
    ensures |r| == 4 * |words|
  {
    seq(4 * |words|, i requires 0 <= i < 4 * |words| => ByteOf(words[i / 4], i % 4))
  }

  function FromBytes(b: seq<Byte>): (r: seq<nat>)
    requires |b| % 4 == 0
    ensures |r| == |b| / 4
  {
    seq(|b| / 4, j requires 0 <= j < |b| / 4 => Word(b[4 * j], b[4 * j + 1], b[4 * j + 2], b[4 * j + 3]))
  }

  lemma WordsBack(words: seq<nat>)
    requires forall j :: 0 <= j < |words| ==> words[j] < 0x1_0000_0000
    ensures FromBytes(ToBytes(words)) == words
  {
    hide ByteOf, Word;
    forall j | 0 <= j < |words| ensures FromBytes(ToBytes(words))[j] == words[j] {
      WordOfBytes(words[j]);
      assert (4 * j) / 4 == j && (4 * j + 1) / 4 == j && (4 * j + 2) / 4 == j && (4 * j + 3) / 4 == j;
    }
  }

  function Save(n: Inode): (r: seq<Byte>)
    requires |n.sectors| == 13
    ensures |r| == INODE_SIZE
  {
    ToBytes(Words(n))
  }

  function Restore(b: seq<Byte>): Inode
    requires |b| == INODE_SIZE
  {
    var w := FromBytes(b);
    Inode(w[0], w[1], w[2], w[3] != 0, w[4..17], w[17], w[18])
  }

  lemma RestoreSave(n: Inode)
    requires Fits(n)
    ensures Restore(Save(n)) == n
  {
    hide ToBytes, FromBytes;
    WordsBack(Words(n));
    assert Words(n)[4..17] == n.sectors;
  }

  // ---------------------------------------------------------------------------
  // Sectors as bytes
  // ---------------------------------------------------------------------------

  function Bytes(s: seq<Sector>): (r: seq<Byte>)
    ensures |r| == 512 * |s|
  {
    seq(512 * |s|, k requires 0 <= k < 512 * |s| => s[k / 512][k % 512])
  }

  /** `b` with `c` copied over it at `at`. */
  function Over(b: seq<Byte>, at: nat, c: seq<Byte>): (r: seq<Byte>)
    requires at + |c| <= |b|
    ensures |r| == |b|
  {
    b[..at] + c + b[at + |c|..]
  }

  lemma OverSame(b: seq<Byte>, at: nat, c: seq<Byte>)
    requires at + |c| <= |b|
    ensures Over(b, at, c)[at..at + |c|] == c
  {
  }

  lemma OverApart(b: seq<Byte>, at: nat, c: seq<Byte>, from: nat, to: nat)
    requires at + |c| <= |b| && from <= to <= |b| && (to <= at || at + |c| <= from)
    ensures Over(b, at, c)[from..to] == b[from..to]
  {
  }

  lemma ByteAt(s: seq<Sector>, i: nat, j: nat)
    requires i < |s| && j < 512
    ensures Bytes(s)[512 * i + j] == s[i][j]
  {
    assert (512 * i + j) / 512 == i && (512 * i + j) % 512 == j;
  }

  function Joined(a: seq<Byte>, b: seq<Byte>): seq<Byte> {
    a + b
  }

  /** Writing back one sector with bytes copied into it. */
  lemma OneSector(s: seq<Sector>, i: nat, off: nat, c: seq<Byte>)
    requires i < |s| && off + |c| <= 512
    ensures Bytes(s[i := Over(s[i], off, c)]) == Over(Bytes(s), 512 * i + off, c)
  {
    var s' := s[i := Over(s[i], off, c)];
    forall k | 0 <= k < 512 * |s| ensures Bytes(s')[k] == Over(Bytes(s), 512 * i + off, c)[k] {
      assert k == 512 * (k / 512) + k % 512;
    }
  }

  /** Writing back two sectors with bytes copied across their border. */
  lemma TwoSectors(s: seq<Sector>, i: nat, off: nat, c: seq<Byte>)
    requires i + 1 < |s| && off <= 512 < off + |c| <= 1024
    ensures var buf := Over(Joined(s[i], s[i + 1]), off, c);
            Bytes(s[i := buf[..512]][i + 1 := buf[512..]]) == Over(Bytes(s), 512 * i + off, c)
  {
    var buf := Over(Joined(s[i], s[i + 1]), off, c);
    var a, b := c[..512 - off], c[512 - off..];
    assert buf[..512] == Over(s[i], off, a);
    assert buf[512..] == Over(s[i + 1], 0, b);
    var s1 := s[i := buf[..512]];
    OneSector(s, i, off, a);
    OneSector(s1, i + 1, 0, b);
    assert Over(Over(Bytes(s), 512 * i + off, a), 512 * (i + 1), b) == Over(Bytes(s), 512 * i + off, c);
  }

  // ---------------------------------------------------------------------------
  // The table
  // ---------------------------------------------------------------------------

  /** The bytes of slot `n`. */
  function SlotBytes(s: seq<Sector>, n: nat): (r: seq<Byte>)
    requires |s| == TABLE_SECTORS && n < INODES
    ensures |r| == INODE_SIZE
  {
    Bytes(s)[INODE_SIZE * n..INODE_SIZE * n + INODE_SIZE]
  }

  /** The copy of an inode that inode_sync stores: what only matters in memory is cleared. */
  function Pure(n: Inode): Inode {
    n.(opens := 0, deny := false, prev := 0, next := 0)
  }

  /** `r` has number, size and block addresses of `node`, is open nowhere and on no list. */
  predicate StoredAs(r: Inode, node: Inode) {
    && r.no == node.no && r.size == node.size && r.sectors == node.sectors
    && r.opens == 0 && !r.deny && r.prev == 0 && r.next == 0
  }

  lemma PureIs(r: Inode, node: Inode)
    ensures StoredAs(r, node) <==> r == Pure(node)
  {
  }

  /** Slots do not overlap: writing one leaves the others alone. */
  lemma OtherSlots(s: seq<Sector>, s': seq<Sector>, m: nat, c: seq<Byte>, n: nat)
    requires |s| == TABLE_SECTORS == |s'| && m < INODES && n < INODES && |c| == INODE_SIZE
    requires Bytes(s') == Over(Bytes(s), INODE_SIZE * m, c)
    ensures SlotBytes(s', n) == if n == m then c else SlotBytes(s, n)
  {
    hide Bytes, Over;
    if n == m {
      OverSame(Bytes(s), INODE_SIZE * m, c);
    } else {
      assert n < m ==> INODE_SIZE * n + INODE_SIZE <= INODE_SIZE * m;
      assert m < n ==> INODE_SIZE * m + INODE_SIZE <= INODE_SIZE * n;
      OverApart(Bytes(s), INODE_SIZE * m, c, INODE_SIZE * n, INODE_SIZE * n + INODE_SIZE);
    }
  }

  /** inode_locate: sector, offset, and whether the inode lies in two sectors. */
  method Locate(no: nat) returns (sec: nat, off: nat, two: bool)
    requires no < INODES
    ensures 512 * sec + off == INODE_SIZE * no && off < 512
    ensures two <==> off + INODE_SIZE > 512
    ensures if two then sec + 1 < TABLE_SECTORS else sec < TABLE_SECTORS
  {
    var bytes := no * INODE_SIZE;
    sec, off := bytes / 512, bytes % 512;
    two := 512 - off < INODE_SIZE;
  }

  /** inode_sync: its uint8_t copy of the inode number selects the slot. */
  method Sync(s: seq<Sector>, node: Inode) returns (s': seq<Sector>)
    requires |s| == TABLE_SECTORS && |node.sectors| == 13
    ensures |s'| == TABLE_SECTORS
    ensures forall n: nat :: n < INODES ==>
              SlotBytes(s', n) == if n == node.no % 256 then Save(Pure(node)) else SlotBytes(s, n)
    ensures Fits(node) ==> StoredAs(Restore(SlotBytes(s', node.no % 256)), node)
  {
    hide Bytes, SlotBytes, Over, Save, Restore;
    var no := node.no % 256;
    var sec, off, two := Locate(no);
    var c := Save(Pure(node));
    if two {
      var buf := Over(Joined(s[sec], s[sec + 1]), off, c);
      TwoSectors(s, sec, off, c);
      s' := s[sec := buf[..512]][sec + 1 := buf[512..]];
    } else {
      OneSector(s, sec, off, c);
      s' := s[sec := Over(s[sec], off, c)];
    }
    forall n: nat | n < INODES ensures SlotBytes(s', n) == if n == no then c else SlotBytes(s, n) {
      OtherSlots(s, s', no, c, n);
    }
    if Fits(node) {
      RestoreSave(Pure(node));
    }
  }

  /** The reading part of inode_open. */
  method Load(s: seq<Sector>, no: nat) returns (n: Inode)
    requires |s| == TABLE_SECTORS && no < INODES
    ensures n == Restore(SlotBytes(s, no))
  {
    var sec, off, two := Locate(no);
    var buf: seq<Byte>;
    if two {
      buf := Joined(s[sec], s[sec + 1]);
    } else {
      buf := s[sec];
    }
    var c := buf[off..off + INODE_SIZE];
    forall k | 0 <= k < INODE_SIZE ensures c[k] == SlotBytes(s, no)[k] {
      if off + k < 512 {
        ByteAt(s, sec, off + k);
      } else {
        ByteAt(s, sec + 1, off + k - 512);
      }
    }
    assert c == SlotBytes(s, no);
    n := Restore(c);
  }

  ghost predicate Synced(s: seq<Sector>, s': seq<Sector>, node: Inode) {
    && |s| == TABLE_SECTORS == |s'| && |node.sectors| == 13
    && forall n: nat :: n < INODES ==> SlotBytes(s', n) == if n == node.no % 256 then Save(Pure(node)) else SlotBytes(s, n)
  }

  /** What inode_sync wrote, inode_open reads back, and no other inode changes, exactly
  when the number is below 256; otherwise the inode's own slot is not written and the
  slot of another inode is. */
  lemma SyncThenOpen(s: seq<Sector>, s': seq<Sector>, node: Inode)
    requires Synced(s, s', node) && Fits(node) && node.no < INODES
    requires !StoredAs(Restore(SlotBytes(s, node.no)), node)
    ensures StoredAs(Restore(SlotBytes(s', node.no)), node) <==> node.no < 256
    ensures node.no < 256 ==> forall n: nat :: n < INODES && n != node.no ==> SlotBytes(s', n) == SlotBytes(s, n)
    ensures StoredAs(Restore(SlotBytes(s', node.no % 256)), node)
  {
    hide SlotBytes, Restore, Save, Pure, StoredAs;
    PureFits(node);
    RestoreSave(Pure(node));
    PureIs(Pure(node), node);
  }

  lemma PureFits(node: Inode)
    requires Fits(node)
    ensures Fits(Pure(node))
  {
  }

  // ---------------------------------------------------------------------------
  // Open inodes
  // ---------------------------------------------------------------------------

  class OpenInode {
    const no: nat
    var opens: nat   // i_open_cnts

    constructor (no: nat)
      ensures this.no == no && opens == 1
    {
      this.no, opens := no, 1;
    }
  }

  predicate Distinct(list: seq<OpenInode>) {
    forall i, j :: 0 <= i < j < |list| ==> list[i].no != list[j].no
  }

  /** Each element counts the outstanding opens of its number. */
  ghost predicate Counted(list: seq<OpenInode>, held: map<nat, nat>)
    reads list
  {
    forall i :: 0 <= i < |list| ==> list[i].no in held && held[list[i].no] == list[i].opens > 0
  }

  ghost predicate Listed(list: seq<OpenInode>, n: nat) {
    exists i :: 0 <= i < |list| && list[i].no == n
  }

  ghost predicate Covers(list: seq<OpenInode>, held: map<nat, nat>) {
    forall n :: n in held ==> Listed(list, n)
  }

  /** The list part->open_inodes, first element first. */
  class OpenInodes {
    var list: seq<OpenInode>
    ghost var held: map<nat, nat>   // opens not yet closed, by inode number

    ghost predicate Valid()
      reads this, list
    {
      Distinct(list) && Counted(list, held) && Covers(list, held)
    }

    constructor ()
      ensures Valid() && held == map[]
    {
      list, held := [], map[];
    }

    /** The search of inode_open; the length of the list stands for not found. */
    method Find(no: nat) returns (i: nat)
      ensures i <= |list| && (i < |list| ==> list[i].no == no)
      ensures i == |list| ==> !Listed(list, no)
    {
      i := 0;
      while i < |list|
        invariant i <= |list| && forall j :: 0 <= j < i ==> list[j].no != no
      {
        if list[i].no == no {
          return;
        }
        i := i + 1;
      }
    }

    /** inode_open: everybody who has an inode open shares one object, which counts them. */
    method Open(no: nat) returns (x: OpenInode)
      requires Valid()
      modifies this, list
      ensures Valid() && x in list && x.no == no
      ensures held == old(held)[no := if no in old(held) then old(held)[no] + 1 else 1]
      ensures no in old(held) ==> x in old(list) && list == old(list)
      ensures no !in old(held) ==> fresh(x) && list == [x] + old(list)
    {
      var i := Find(no);
      if i < |list| {
        x := list[i];
        OnlyOne(list, i);
        x.opens := x.opens + 1;
        held := held[no := x.opens];
      } else {
        x := new OpenInode(no);
        NewFirst(list, x, held);
        list := [x] + list;
        held := held[no := 1];
      }
    }

    /** inode_close: the last close takes the inode off the list. */
    method Close(x: OpenInode, ghost at: nat)
      requires Valid() && at < |list| && list[at] == x
      modifies this, x
      ensures Valid()
      ensures if old(x.opens) > 1 then held == old(held)[x.no := old(held)[x.no] - 1] && list == old(list)
              else held == old(held) - {x.no} && list == old(list)[..at] + old(list)[at + 1..]
    {
      OnlyOne(list, at);
      x.opens := x.opens - 1;
      if x.opens == 0 {
        var i := Find(x.no);
        assert i == at;
        Dropped(list, at, held);
        list := list[..i] + list[i + 1..];
        held := held - {x.no};
      } else {
        held := held[x.no := x.opens];
      }
    }
  }

  lemma OnlyOne(list: seq<OpenInode>, at: nat)
    requires Distinct(list) && at < |list|
    ensures forall i :: 0 <= i < |list| && i != at ==> list[i] != list[at] && list[i].no != list[at].no
    ensures Listed(list, list[at].no)
  {
  }

  lemma NewFirst(list: seq<OpenInode>, x: OpenInode, held: map<nat, nat>)
    requires Distinct(list) && Covers(list, held) && !Listed(list, x.no)
    ensures Distinct([x] + list) && Covers([x] + list, held[x.no := 1]) && x.no !in held
  {
    var list' := [x] + list;
    forall n | n in held[x.no := 1] ensures Listed(list', n) {
      if n == x.no {
        assert list'[0].no == n;
      } else {
        assert Listed(list, n);
        var i :| 0 <= i < |list| && list[i].no == n;
        assert list'[i + 1].no == n;
      }
    }
  }

  lemma Dropped(list: seq<OpenInode>, at: nat, held: map<nat, nat>)
    requires Distinct(list) && Covers(list, held) && at < |list|
    ensures Distinct(list[..at] + list[at + 1..]) && Covers(list[..at] + list[at + 1..], held - {list[at].no})
  {
    var list' := list[..at] + list[at + 1..];
    assert forall i :: 0 <= i < |list'| ==> list'[i] == if i < at then list[i] else list[i + 1];
    forall n | n in held - {list[at].no} ensures Listed(list', n) {
      assert Listed(list, n);
      var i :| 0 <= i < |list| && list[i].no == n;
      assert if i < at then list'[i].no == n else list'[i - 1].no == n;
    }
  }
}
