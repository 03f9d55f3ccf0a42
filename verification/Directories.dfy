/** Directories (fs/dir.c): fixed-size entries, 21 to a block, in up to 12 direct and 128
indirect blocks; deleted entries leave holes, and a block left empty is given back. */
module Directories {
  import opened Basics

  datatype Kind = Regular | Directory

  datatype Entry = Entry(name: string, ino: nat, kind: Kind)

  /** A slot whose f_type is FT_UNKNOWN is None: unused slots are all zero. */
  type Block = b: seq<Option<Entry>> | |b| == 21 witness seq(21, _ => None)

  /** `blocks` are all 140 block pointers, None for address zero; `table` says that the
  indirect table exists. */
  datatype Dir = Dir(blocks: seq<Option<Block>>, table: bool, size: nat)

  const PER_BLOCK: nat := 21
  const DIRECT: nat := 12
  const BLOCKS: nat := 140
  const SLOTS: nat := 2940
  const ENTRY_SIZE: nat := 24

  // ---------------------------------------------------------------------------
  // The slots of a directory, in scan order
  // ---------------------------------------------------------------------------

  function In(b: Option<Block>, j: nat): Option<Entry>
    requires j < 21
  {
    if b.None? then None else b.value[j]
  }

  function Slot(blocks: seq<Option<Block>>, k: nat): Option<Entry>
    requires |blocks| == BLOCKS && k < SLOTS
  {
    In(blocks[k / 21], k % 21)
  }

  function Flat(blocks: seq<Option<Block>>): (r: seq<Option<Entry>>)
    requires |blocks| == BLOCKS
    ensures |r| == SLOTS && forall k: nat :: k < SLOTS ==> r[k] == Slot(blocks, k)
  {
    seq(SLOTS, k requires 0 <= k < SLOTS => Slot(blocks, k))
  }

  lemma SlotOf(blocks: seq<Option<Block>>, i: nat, j: nat)
    requires |blocks| == BLOCKS && i < BLOCKS && j < 21
    ensures 21 * i + j < SLOTS && Slot(blocks, 21 * i + j) == In(blocks[i], j)
  {
    assert (21 * i + j) / 21 == i && (21 * i + j) % 21 == j;
  }

  /** Replacing a block by one that differs in slot `j` replaces one slot. */
  lemma OneSlot(blocks: seq<Option<Block>>, i: nat, b: Option<Block>, j: nat)
    requires |blocks| == BLOCKS && i < BLOCKS && j < 21
    requires forall x: nat :: x < 21 && x != j ==> In(b, x) == In(blocks[i], x)
    ensures 21 * i + j < SLOTS && Slot(blocks, 21 * i + j) == In(blocks[i], j)
    ensures Flat(blocks[i := b]) == Flat(blocks)[21 * i + j := In(b, j)]
  {
    hide In;
    SlotOf(blocks, i, j);
    var blocks' := blocks[i := b];
    forall l: nat | l < SLOTS ensures Slot(blocks', l) == if l == 21 * i + j then In(b, j) else Slot(blocks, l) {
      assert l == 21 * (l / 21) + l % 21;
    }
  }

  /** The live entries in scan order. */
  function Live(flat: seq<Option<Entry>>): seq<Entry> {
    if flat == [] then [] else (if flat[0].None? then [] else [flat[0].value]) + Live(flat[1..])
  }

  /** A live entry other than . and .. */
  predicate IsFile(s: Option<Entry>) {
    s.Some? && !IsDot(s.value.name)
  }

  /** Two live slots have different names, and different inodes unless one is a dot. */
  ghost predicate Unique(flat: seq<Option<Entry>>) {
    && (forall k, l :: 0 <= k < l < |flat| && flat[k].Some? && flat[l].Some? ==> flat[k].value.name != flat[l].value.name)
    && (forall k, l :: 0 <= k < l < |flat| && IsFile(flat[k]) && IsFile(flat[l]) ==> flat[k].value.ino != flat[l].value.ino)
  }

  predicate HasDot(b: Block) {
    exists j :: 0 <= j < 21 && b[j].Some? && b[j].value.name == "."
  }

  ghost predicate HasDotDot(b: Block) {
    exists j :: 0 <= j < 21 && b[j].Some? && b[j].value.name == ".."
  }

  /** Only the first block has dots, and it has both. */
  ghost predicate DotsFirst(blocks: seq<Option<Block>>)
    requires |blocks| == BLOCKS
  {
    && (forall i, j :: 0 < i < BLOCKS && 0 <= j < 21 && In(blocks[i], j).Some? ==> !IsDot(In(blocks[i], j).value.name))
    && blocks[0].Some? && HasDot(blocks[0].value) && HasDotDot(blocks[0].value)
  }

  /** A block other than the first is given back when its last entry goes. */
  ghost predicate NoneEmpty(blocks: seq<Option<Block>>)
    requires |blocks| == BLOCKS
  {
    forall i :: 0 < i < BLOCKS && blocks[i].Some? ==> HasEntry(blocks[i].value)
  }

  ghost predicate HasEntry(b: Block) {
    exists j :: 0 <= j < 21 && b[j].Some?
  }

  /** An indirect table exists exactly when an indirect block has an entry. */
  ghost predicate TableOk(d: Dir)
    requires |d.blocks| == BLOCKS
  {
    && (!d.table ==> forall i :: DIRECT <= i < BLOCKS ==> d.blocks[i].None?)
    && (d.table ==> exists i: nat, j: nat :: DIRECT <= i < BLOCKS && j < 21 && In(d.blocks[i], j).Some?)
  }

  ghost predicate Named(flat: seq<Option<Entry>>) {
    forall k :: 0 <= k < |flat| && flat[k].Some? ==> flat[k].value.name != ""
  }

  ghost predicate DirOk(d: Dir) {
    && |d.blocks| == BLOCKS && Unique(Flat(d.blocks)) && Named(Flat(d.blocks))
    && d.size == ENTRY_SIZE * |Live(Flat(d.blocks))|
    && DotsFirst(d.blocks) && NoneEmpty(d.blocks) && TableOk(d)
  }

  // ---------------------------------------------------------------------------
  // The list of live entries
  // ---------------------------------------------------------------------------

  lemma {:induction false} LiveConcat(a: seq<Option<Entry>>, b: seq<Option<Entry>>)
    ensures Live(a + b) == Live(a) + Live(b)
    decreases |a|
  {
    if a == [] {
      assert a + b == b;
    } else {
      LiveConcat(a[1..], b);
      assert (a + b)[0] == a[0] && (a + b)[1..] == a[1..] + b;
      var first := if a[0].None? then [] else [a[0].value];
      assert Live(a) == first + Live(a[1..]) && Live(a + b) == first + Live(a[1..] + b);
      assert first + (Live(a[1..]) + Live(b)) == first + Live(a[1..]) + Live(b);
    }
  }

  /** Filling a hole, or making one, inserts or removes one entry and keeps the order. */
  lemma LiveUpdate(flat: seq<Option<Entry>>, k: nat, e: Entry)
    requires k < |flat| && flat[k] == None
    ensures Live(flat) == Live(flat[..k]) + Live(flat[k + 1..])
    ensures Live(flat[k := Some(e)]) == Live(flat[..k]) + [e] + Live(flat[k + 1..])
  {
    var f' := flat[k := Some(e)];
    assert flat == flat[..k] + ([flat[k]] + flat[k + 1..]);
    assert f' == flat[..k] + ([f'[k]] + flat[k + 1..]);
    LiveConcat(flat[..k], [flat[k]] + flat[k + 1..]);
    LiveConcat(flat[..k], [f'[k]] + flat[k + 1..]);
    assert ([flat[k]] + flat[k + 1..])[1..] == flat[k + 1..];
    assert ([f'[k]] + flat[k + 1..])[1..] == flat[k + 1..];
  }

  /** The entries of a directory as a finite map from names. */
  ghost predicate Maps(flat: seq<Option<Entry>>, m: map<string, Entry>) {
    && (forall n :: n in m ==> m[n].name == n && exists k :: 0 <= k < |flat| && flat[k] == Some(m[n]))
    && (forall k :: 0 <= k < |flat| && flat[k].Some? ==> flat[k].value.name in m && m[flat[k].value.name] == flat[k].value)
  }

  // ---------------------------------------------------------------------------
  // sync_dir_entry
  // ---------------------------------------------------------------------------

  function FirstFree(b: Block, j: nat): (r: nat)
    requires j <= 21
    ensures j <= r <= 21 && (r < 21 ==> b[r].None?) && forall i :: j <= i < r ==> b[i].Some?
    decreases 21 - j
  {
    if j == 21 || b[j].None? then j else FirstFree(b, j + 1)
  }

  predicate HasRoom(b: Option<Block>) {
    b.None? || FirstFree(b.value, 0) < 21
  }

  /** The first direct block that is missing or has a free slot. */
  function Room(blocks: seq<Option<Block>>, i: nat): (r: nat)
    requires |blocks| == BLOCKS && i <= DIRECT
    ensures i <= r <= DIRECT && (r < DIRECT ==> HasRoom(blocks[r])) && forall j :: i <= j < r ==> !HasRoom(blocks[j])
    decreases DIRECT - i
  {
    if i == DIRECT || HasRoom(blocks[i]) then i else Room(blocks, i + 1)
  }

  function NewBlock(e: Entry): Block {
    [Some(e), None, None, None, None, None, None, None, None, None, None,
     None, None, None, None, None, None, None, None, None, None]
  }

  /** sync_dir_entry looks at direct blocks only; when they are full it starts a new
  indirect table, whether or not there is one. */
  function Insert(d: Dir, e: Entry): Dir
    requires |d.blocks| == BLOCKS
  {
    var i := Room(d.blocks, 0);
    var size := d.size + ENTRY_SIZE;
    if i == DIRECT then Dir(d.blocks[..DIRECT] + [Some(NewBlock(e))] + seq(BLOCKS - DIRECT - 1, _ => None), true, size)
    else if d.blocks[i].None? then Dir(d.blocks[i := Some(NewBlock(e))], d.table, size)
    else
      var j := FirstFree(d.blocks[i].value, 0);
      Dir(d.blocks[i := Some(d.blocks[i].value[j := Some(e)])], d.table, size)
  }

  /** What a caller can see before inserting: a direct block has room, or there is no
  indirect table yet. */
  predicate CanInsert(d: Dir)
    requires |d.blocks| == BLOCKS
  {
    Room(d.blocks, 0) < DIRECT || !d.table
  }

  /** The slot the entry goes to. */
  function InsertAt(d: Dir): nat
    requires |d.blocks| == BLOCKS
  {
    var i := Room(d.blocks, 0);
    if i == DIRECT || d.blocks[i].None? then 21 * i else 21 * i + FirstFree(d.blocks[i].value, 0)
  }

  lemma InsertFlat(d: Dir, e: Entry)
    requires |d.blocks| == BLOCKS && CanInsert(d)
    requires !d.table ==> forall i :: DIRECT <= i < BLOCKS ==> d.blocks[i].None?
    ensures var k := InsertAt(d);
            && k < SLOTS && Slot(d.blocks, k) == None && |Insert(d, e).blocks| == BLOCKS
            && Flat(Insert(d, e).blocks) == Flat(d.blocks)[k := Some(e)]
  {
    hide Slot, Flat, NewBlock, HasRoom;
    var i := Room(d.blocks, 0);
    var d' := Insert(d, e);
    NewBlockSlots(e);
    if i == DIRECT {
      FreshTable(d, e);
      OneSlot(d.blocks, i, Some(NewBlock(e)), 0);
    } else if d.blocks[i].None? {
      OneSlot(d.blocks, i, Some(NewBlock(e)), 0);
    } else {
      FreeSlotFound(d.blocks[i]);
      var j := FirstFree(d.blocks[i].value, 0);
      OneSlot(d.blocks, i, Some(d.blocks[i].value[j := Some(e)]), j);
    }
  }

  lemma FreeSlotFound(b: Option<Block>)
    requires HasRoom(b) && b.Some?
    ensures FirstFree(b.value, 0) < 21
  {
  }

  lemma NewBlockSlots(e: Entry)
    ensures forall x: nat :: x < 21 ==> In(Some(NewBlock(e)), x) == if x == 0 then Some(e) else None
  {
  }

  lemma FreshTable(d: Dir, e: Entry)
    requires |d.blocks| == BLOCKS && Room(d.blocks, 0) == DIRECT
    requires forall i :: DIRECT <= i < BLOCKS ==> d.blocks[i].None?
    ensures Insert(d, e).blocks == d.blocks[DIRECT := Some(NewBlock(e))]
  {
    hide NewBlock;
  }

  // ---------------------------------------------------------------------------
  // delete_dir_entry
  // ---------------------------------------------------------------------------

  predicate Wanted(s: Option<Entry>, ino: nat) {
    IsFile(s) && s.value.ino == ino
  }

  function SlotWith(b: Block, ino: nat, j: nat): (r: nat)
    requires j <= 21
    ensures j <= r <= 21 && (r < 21 ==> Wanted(b[r], ino)) && forall i :: j <= i < r ==> !Wanted(b[i], ino)
    decreases 21 - j
  {
    if j == 21 || Wanted(b[j], ino) then j else SlotWith(b, ino, j + 1)
  }

  predicate HasIno(b: Option<Block>, ino: nat) {
    b.Some? && SlotWith(b.value, ino, 0) < 21
  }

  function BlockWith(blocks: seq<Option<Block>>, ino: nat, i: nat): (r: nat)
    requires |blocks| == BLOCKS && i <= BLOCKS
    ensures i <= r <= BLOCKS && (r < BLOCKS ==> HasIno(blocks[r], ino)) && forall j :: i <= j < r ==> !HasIno(blocks[j], ino)
    decreases BLOCKS - i
  {
    if i == BLOCKS || HasIno(blocks[i], ino) then i else BlockWith(blocks, ino, i + 1)
  }

  /** dir_entry_cnt: live entries of a block other than . and .. */
  function FileCount(b: Block, j: nat): nat
    requires j <= 21
    decreases 21 - j
  {
    if j == 21 then 0 else (if IsFile(b[j]) then 1 else 0) + FileCount(b, j + 1)
  }

  /** The loop that counts the indirect blocks never advances. */
  datatype Deleted = Gone(d: Dir) | NotFound | Hangs

  function Delete(d: Dir, ino: nat): Deleted
    requires |d.blocks| == BLOCKS && d.size >= ENTRY_SIZE
  {
    var i := BlockWith(d.blocks, ino, 0);
    if i == BLOCKS then NotFound
    else
      var b := d.blocks[i].value;
      if FileCount(b, 0) == 1 && !HasDot(b) then
        if i < DIRECT then Gone(d.(blocks := d.blocks[i := None], size := d.size - ENTRY_SIZE)) else Hangs
      else
        Gone(d.(blocks := d.blocks[i := Some(b[SlotWith(b, ino, 0) := None])], size := d.size - ENTRY_SIZE))
  }

  /** The file with inode `ino` is alone in an indirect block. */
  ghost predicate AloneBehind(d: Dir, ino: nat)
    requires |d.blocks| == BLOCKS
  {
    exists i: nat, j: nat :: && DIRECT <= i < BLOCKS && j < 21 && Wanted(In(d.blocks[i], j), ino)
                             && forall x: nat :: x < 21 && x != j ==> In(d.blocks[i], x) == None
  }

  function DeleteAt(d: Dir, ino: nat): nat
    requires |d.blocks| == BLOCKS && BlockWith(d.blocks, ino, 0) < BLOCKS
  {
    var i := BlockWith(d.blocks, ino, 0);
    21 * i + SlotWith(d.blocks[i].value, ino, 0)
  }

  lemma {:induction false} OneFile(b: Block, x: nat, j: nat)
    requires x <= j < 21 && IsFile(b[j])
    ensures FileCount(b, x) >= 1
    ensures FileCount(b, x) == 1 <==> forall y :: x <= y < 21 && y != j ==> !IsFile(b[y])
    decreases 21 - x
  {
    if x < j {
      OneFile(b, x + 1, j);
    } else {
      NoFile(b, x + 1);
    }
  }

  lemma {:induction false} NoFile(b: Block, x: nat)
    requires x <= 21
    ensures FileCount(b, x) == 0 <==> forall y :: x <= y < 21 ==> !IsFile(b[y])
    decreases 21 - x
  {
    if x < 21 {
      NoFile(b, x + 1);
    }
  }

  lemma DeleteFlat(d: Dir, ino: nat)
    requires |d.blocks| == BLOCKS && d.size >= ENTRY_SIZE && DotsFirst(d.blocks) && Delete(d, ino).Gone?
    ensures var k := DeleteAt(d, ino);
            && k < SLOTS && Wanted(Slot(d.blocks, k), ino) && |Delete(d, ino).d.blocks| == BLOCKS
            && Flat(Delete(d, ino).d.blocks) == Flat(d.blocks)[k := None]
  {
    hide Slot, Flat, Wanted;
    var i := BlockWith(d.blocks, ino, 0);
    var b := d.blocks[i].value;
    var j := SlotWith(b, ino, 0);
    WantedIsFile(b[j], ino);
    OneFile(b, 0, j);
    if FileCount(b, 0) == 1 && !HasDot(b) {
      forall x: nat | x < 21 && x != j ensures In(None, x) == In(d.blocks[i], x) {
        assert !IsFile(b[x]);
        assert i != 0;
      }
      OneSlot(d.blocks, i, None, j);
    } else {
      OneSlot(d.blocks, i, Some(b[j := None]), j);
    }
  }

  lemma WantedIsFile(s: Option<Entry>, ino: nat)
    requires Wanted(s, ino)
    ensures IsFile(s)
  {
  }

  // ---------------------------------------------------------------------------
  // Inserting and deleting update a map
  // ---------------------------------------------------------------------------

  /** An entry that may be inserted: not a dot, with a name and an inode of its own. */
  ghost predicate Fresh(flat: seq<Option<Entry>>, e: Entry) {
    && e.name != "" && !IsDot(e.name)
    && forall k :: 0 <= k < |flat| && flat[k].Some? ==>
         flat[k].value.name != e.name && (IsFile(flat[k]) ==> flat[k].value.ino != e.ino)
  }

  lemma InsertUnique(flat: seq<Option<Entry>>, k: nat, e: Entry)
    requires k < |flat| && flat[k] == None && Unique(flat) && Named(flat) && Fresh(flat, e)
    ensures Unique(flat[k := Some(e)]) && Named(flat[k := Some(e)])
    ensures |Live(flat[k := Some(e)])| == |Live(flat)| + 1
  {
    LiveUpdate(flat, k, e);
  }

  lemma DotsKept(blocks: seq<Option<Block>>, i: nat, b: Option<Block>, j: nat)
    requires |blocks| == BLOCKS && i < BLOCKS && j < 21 && DotsFirst(blocks) && (i == 0 ==> b.Some?)
    requires forall x: nat :: x < 21 && x != j ==> In(b, x) == In(blocks[i], x)
    requires In(b, j).Some? ==> !IsDot(In(b, j).value.name)
    requires In(blocks[i], j).Some? ==> !IsDot(In(blocks[i], j).value.name)
    ensures DotsFirst(blocks[i := b])
  {
    var blocks' := blocks[i := b];
    forall x, y | 0 < x < BLOCKS && 0 <= y < 21 && In(blocks'[x], y).Some? ensures !IsDot(In(blocks'[x], y).value.name) {
      assert In(blocks[x], y).Some? ==> !IsDot(In(blocks[x], y).value.name);
    }
    if i == 0 {
      var x :| 0 <= x < 21 && blocks[0].value[x].Some? && blocks[0].value[x].value.name == ".";
      assert x != j && In(b, x) == In(blocks[0], x);
      var y :| 0 <= y < 21 && blocks[0].value[y].Some? && blocks[0].value[y].value.name == "..";
      assert y != j && In(b, y) == In(blocks[0], y);
    }
  }

  lemma TableKept(d: Dir, i: nat, b: Option<Block>, d': Dir)
    requires |d.blocks| == BLOCKS && TableOk(d) && i < DIRECT && d'.blocks == d.blocks[i := b] && d'.table == d.table
    ensures TableOk(d')
  {
    if d.table {
      var x: nat, y: nat :| DIRECT <= x < BLOCKS && y < 21 && In(d.blocks[x], y).Some?;
      assert In(d'.blocks[x], y).Some?;
    }
  }

  lemma InsertDots(d: Dir, e: Entry)
    requires |d.blocks| == BLOCKS && DotsFirst(d.blocks) && TableOk(d) && CanInsert(d) && !IsDot(e.name)
    ensures |Insert(d, e).blocks| == BLOCKS && DotsFirst(Insert(d, e).blocks) && TableOk(Insert(d, e))
  {
    hide NewBlock, HasRoom;
    var i := Room(d.blocks, 0);
    var d' := Insert(d, e);
    NewBlockSlots(e);
    if i == DIRECT {
      FreshTable(d, e);
      DotsKept(d.blocks, DIRECT, Some(NewBlock(e)), 0);
      assert In(d'.blocks[DIRECT], 0) == Some(e);
    } else if d.blocks[i].None? {
      hide DotsFirst, TableOk;
      DotsKept(d.blocks, i, Some(NewBlock(e)), 0);
      TableKept(d, i, Some(NewBlock(e)), d');
    } else {
      hide DotsFirst, TableOk;
      FreeSlotFound(d.blocks[i]);
      var j := FirstFree(d.blocks[i].value, 0);
      DotsKept(d.blocks, i, Some(d.blocks[i].value[j := Some(e)]), j);
      TableKept(d, i, Some(d.blocks[i].value[j := Some(e)]), d');
    }
  }

  lemma InsertNoneEmpty(d: Dir, e: Entry)
    requires |d.blocks| == BLOCKS && NoneEmpty(d.blocks)
    ensures |Insert(d, e).blocks| == BLOCKS && NoneEmpty(Insert(d, e).blocks)
  {
    var i := Room(d.blocks, 0);
    var d' := Insert(d, e);
    assert HasEntry(NewBlock(e)) by {
      assert NewBlock(e)[0].Some?;
    }
    if i < DIRECT && d.blocks[i].Some? {
      var j := FirstFree(d.blocks[i].value, 0);
      assert d'.blocks[i].value[j].Some?;
    }
    hide NewBlock;
    forall x | 0 < x < BLOCKS && d'.blocks[x].Some? ensures HasEntry(d'.blocks[x].value) {
      assert x != i ==> d'.blocks[x] == d.blocks[x];
    }
  }

  /** sync_dir_entry keeps the directory well formed and fills one free slot. */
  lemma InsertKeeps(d: Dir, e: Entry)
    requires DirOk(d) && CanInsert(d) && Fresh(Flat(d.blocks), e)
    ensures DirOk(Insert(d, e))
  {
    hide Flat, Live, Unique, Named, DotsFirst, NoneEmpty, TableOk, Slot, NewBlock;
    InsertParts(d);
    InsertFlat(d, e);
    FlatAt(d.blocks, InsertAt(d));
    InsertUnique(Flat(d.blocks), InsertAt(d), e);
    InsertDots(d, e);
    InsertNoneEmpty(d, e);
  }

  lemma FlatAt(blocks: seq<Option<Block>>, k: nat)
    requires |blocks| == BLOCKS && k < SLOTS
    ensures |Flat(blocks)| == SLOTS && Flat(blocks)[k] == Slot(blocks, k)
  {
  }

  lemma InsertParts(d: Dir)
    requires DirOk(d)
    ensures !d.table ==> forall i :: DIRECT <= i < BLOCKS ==> d.blocks[i].None?
  {
  }

  lemma MapsUpdate(flat: seq<Option<Entry>>, k: nat, e: Entry, m: map<string, Entry>)
    requires k < |flat| && flat[k] == None && Maps(flat, m) && e.name !in m
    ensures Maps(flat[k := Some(e)], m[e.name := e])
  {
    var f', m' := flat[k := Some(e)], m[e.name := e];
    forall n | n in m' ensures m'[n].name == n && exists l :: 0 <= l < |f'| && f'[l] == Some(m'[n]) {
      if n == e.name {
        assert f'[k] == Some(m'[n]);
      } else {
        var l :| 0 <= l < |flat| && flat[l] == Some(m[n]);
        assert f'[l] == Some(m'[n]);
      }
    }
  }

  /** When all direct blocks are full and there is a table, a second one replaces it and
  every entry of the indirect blocks is lost. */
  lemma SecondTableLoses(d: Dir, e: Entry, m: map<string, Entry>)
    requires DirOk(d) && !CanInsert(d) && Maps(Flat(d.blocks), m) && e.name !in m
    ensures !Maps(Flat(Insert(d, e).blocks), m[e.name := e])
  {
    hide Flat, Slot, NewBlock, Live, Named;
    var d' := Insert(d, e);
    OnlyDirectLeft(d, e, 0);
    var i: nat, j: nat :| DIRECT <= i < BLOCKS && j < 21 && In(d.blocks[i], j).Some?;
    SlotOf(d.blocks, i, j);
    var l := 21 * i + j;
    FlatAt(d.blocks, l);
    var x := Flat(d.blocks)[l].value;
    var m' := m[e.name := e];
    assert x.name in m && m[x.name] == x && m'[x.name] == x;
    forall k: nat | k < SLOTS ensures Flat(d'.blocks)[k] != Some(x) {
      OnlyDirectLeft(d, e, k);
      FlatAt(d.blocks, k);
      FlatAt(d'.blocks, k);
      assert k != l ==> Flat(d.blocks)[k] != Some(x);
    }
  }

  lemma OnlyDirectLeft(d: Dir, e: Entry, k: nat)
    requires |d.blocks| == BLOCKS && !CanInsert(d) && k < SLOTS
    ensures |Insert(d, e).blocks| == BLOCKS
    ensures Slot(Insert(d, e).blocks, k) ==
              if k < DIRECT * 21 then Slot(d.blocks, k) else if k == DIRECT * 21 then Some(e) else None
  {
    NewBlockSlots(e);
    assert k / 21 == DIRECT ==> k == DIRECT * 21 + k % 21;
  }

  /** Inserting adds the entry to the directory, and changes nothing else, exactly when a
  direct block has room or there is no indirect table. */
  lemma InsertIsMapUpdate(d: Dir, e: Entry, m: map<string, Entry>)
    requires DirOk(d) && Maps(Flat(d.blocks), m) && e.name !in m
    ensures |Insert(d, e).blocks| == BLOCKS
    ensures Maps(Flat(Insert(d, e).blocks), m[e.name := e]) <==> CanInsert(d)
  {
    hide Flat, Maps, Slot, NewBlock, Unique, Live;
    if CanInsert(d) {
      InsertParts(d);
      InsertFlat(d, e);
      FlatAt(d.blocks, InsertAt(d));
      MapsUpdate(Flat(d.blocks), InsertAt(d), e, m);
    } else {
      OnlyDirectLeft(d, e, 0);
      SecondTableLoses(d, e, m);
    }
  }

  lemma LiveHas(flat: seq<Option<Entry>>, k: nat)
    requires k < |flat| && flat[k].Some?
    ensures |Live(flat)| >= 1
  {
    LiveUpdate(flat[k := None], k, flat[k].value);
    assert flat[k := None][k := flat[k]] == flat;
  }

  lemma NotEmpty(d: Dir)
    requires DirOk(d)
    ensures d.size >= ENTRY_SIZE
  {
    hide Flat, Slot, Live, Unique, Named;
    var j :| 0 <= j < 21 && d.blocks[0].value[j].Some? && d.blocks[0].value[j].value.name == ".";
    SlotOf(d.blocks, 0, j);
    FlatAt(d.blocks, j);
    LiveHas(Flat(d.blocks), j);
  }

  lemma DeleteUnique(flat: seq<Option<Entry>>, k: nat)
    requires k < |flat| && flat[k].Some? && Unique(flat) && Named(flat)
    ensures Unique(flat[k := None]) && Named(flat[k := None])
    ensures |Live(flat[k := None])| == |Live(flat)| - 1
  {
    LiveUpdate(flat[k := None], k, flat[k].value);
    assert flat[k := None][k := flat[k]] == flat;
  }

  lemma DeleteDots(d: Dir, ino: nat)
    requires |d.blocks| == BLOCKS && d.size >= ENTRY_SIZE && DotsFirst(d.blocks) && TableOk(d) && Delete(d, ino).Gone?
    ensures var d' := Delete(d, ino).d; |d'.blocks| == BLOCKS && DotsFirst(d'.blocks) && TableOk(d')
  {
    hide FileCount;
    var i := BlockWith(d.blocks, ino, 0);
    var b := d.blocks[i].value;
    var j := SlotWith(b, ino, 0);
    OneFile(b, 0, j);
    if FileCount(b, 0) == 1 && !HasDot(b) {
      forall x: nat | x < 21 && x != j ensures In(None, x) == In(d.blocks[i], x) {
        assert !IsFile(b[x]);
      }
      DotsKept(d.blocks, i, None, j);
      TableKept(d, i, None, Delete(d, ino).d);
    } else {
      DotsKept(d.blocks, i, Some(b[j := None]), j);
      if i < DIRECT {
        TableKept(d, i, Some(b[j := None]), Delete(d, ino).d);
      } else {
        AnotherStays(d, i, j);
      }
    }
  }

  lemma AnotherStays(d: Dir, i: nat, j: nat)
    requires |d.blocks| == BLOCKS && DIRECT <= i < BLOCKS && j < 21 && DotsFirst(d.blocks) && TableOk(d)
    requires d.blocks[i].Some? && IsFile(d.blocks[i].value[j])
    requires FileCount(d.blocks[i].value, 0) != 1 || HasDot(d.blocks[i].value)
    ensures TableOk(d.(blocks := d.blocks[i := Some(d.blocks[i].value[j := None])]))
  {
    var b := d.blocks[i].value;
    var d' := d.(blocks := d.blocks[i := Some(b[j := None])]);
    OneFile(b, 0, j);
    NoDotBehind(d.blocks, i);
    var y :| 0 <= y < 21 && y != j && IsFile(b[y]);
    assert In(d'.blocks[i], y).Some?;
  }

  lemma DeleteNoneEmpty(d: Dir, ino: nat)
    requires |d.blocks| == BLOCKS && d.size >= ENTRY_SIZE && DotsFirst(d.blocks) && NoneEmpty(d.blocks) && Delete(d, ino).Gone?
    ensures |Delete(d, ino).d.blocks| == BLOCKS && NoneEmpty(Delete(d, ino).d.blocks)
  {
    hide FileCount;
    var i := BlockWith(d.blocks, ino, 0);
    var b := d.blocks[i].value;
    var j := SlotWith(b, ino, 0);
    var d' := Delete(d, ino).d;
    OneFile(b, 0, j);
    if i > 0 && d'.blocks[i].Some? {
      NoDotBehind(d.blocks, i);
      var y :| 0 <= y < 21 && y != j && IsFile(b[y]);
      assert d'.blocks[i].value[y].Some?;
    }
    forall x | 0 < x < BLOCKS && d'.blocks[x].Some? ensures HasEntry(d'.blocks[x].value) {
      assert x != i ==> d'.blocks[x] == d.blocks[x];
    }
  }

  lemma NoDotBehind(blocks: seq<Option<Block>>, i: nat)
    requires |blocks| == BLOCKS && DotsFirst(blocks) && 0 < i < BLOCKS && blocks[i].Some?
    ensures !HasDot(blocks[i].value)
  {
    forall x | 0 <= x < 21 && blocks[i].value[x].Some? ensures blocks[i].value[x].value.name != "." {
      assert In(blocks[i], x).Some?;
    }
  }

  /** delete_dir_entry keeps the directory well formed. */
  lemma DeleteKeeps(d: Dir, ino: nat)
    requires DirOk(d)
    ensures d.size >= ENTRY_SIZE && (Delete(d, ino).Gone? ==> DirOk(Delete(d, ino).d))
  {
    hide Flat, Live, Unique, Named, DotsFirst, NoneEmpty, TableOk, Slot;
    NotEmpty(d);
    if Delete(d, ino).Gone? {
      DeleteFlat(d, ino);
      FlatAt(d.blocks, DeleteAt(d, ino));
      DeleteUnique(Flat(d.blocks), DeleteAt(d, ino));
      DeleteDots(d, ino);
      DeleteNoneEmpty(d, ino);
    }
  }

  /** The entries of a directory without the file with inode `ino`. */
  ghost function Unlinked(m: map<string, Entry>, ino: nat): map<string, Entry> {
    map n | n in m && (IsDot(n) || m[n].ino != ino) :: m[n]
  }

  lemma MapsRemove(flat: seq<Option<Entry>>, k: nat, ino: nat, m: map<string, Entry>)
    requires k < |flat| && Wanted(flat[k], ino) && Maps(flat, m) && Unique(flat)
    ensures Maps(flat[k := None], Unlinked(m, ino))
  {
    var f', m' := flat[k := None], Unlinked(m, ino);
    var e := flat[k].value;
    forall n | n in m' ensures exists l :: 0 <= l < |f'| && f'[l] == Some(m'[n]) {
      var l :| 0 <= l < |flat| && flat[l] == Some(m[n]);
      assert l != k && f'[l] == Some(m'[n]);
    }
    forall l | 0 <= l < |f'| && f'[l].Some? ensures f'[l].value.name in m' && m'[f'[l].value.name] == f'[l].value {
      assert l != k && flat[l] == f'[l];
      assert IsFile(flat[l]) ==> flat[l].value.ino != ino;
    }
  }

  lemma NoneFound(d: Dir, ino: nat, m: map<string, Entry>)
    requires |d.blocks| == BLOCKS && BlockWith(d.blocks, ino, 0) == BLOCKS && Maps(Flat(d.blocks), m)
    ensures Unlinked(m, ino) == m
  {
    forall n | n in m ensures IsDot(n) || m[n].ino != ino {
      var k :| 0 <= k < SLOTS && Flat(d.blocks)[k] == Some(m[n]);
      assert Slot(d.blocks, k) == In(d.blocks[k / 21], k % 21);
      assert !HasIno(d.blocks[k / 21], ino);
      assert d.blocks[k / 21].Some? && !Wanted(d.blocks[k / 21].value[k % 21], ino);
    }
  }

  /** Deleting removes the file with inode `ino` from the directory, dots excepted, and
  nothing else; it finds nothing exactly when there is no such file, and it never ends
  exactly when the file is alone in an indirect block. */
  lemma DeleteIsMapRemoval(d: Dir, ino: nat, m: map<string, Entry>)
    requires DirOk(d) && Maps(Flat(d.blocks), m)
    ensures d.size >= ENTRY_SIZE
    ensures Delete(d, ino).Gone? ==> |Delete(d, ino).d.blocks| == BLOCKS && Maps(Flat(Delete(d, ino).d.blocks), Unlinked(m, ino))
    ensures Delete(d, ino) == NotFound <==> Unlinked(m, ino) == m
    ensures Delete(d, ino) == Hangs <==> AloneBehind(d, ino)
  {
    NotEmpty(d);
    if Delete(d, ino).Gone? {
      DeleteMaps(d, ino, m);
    } else if Delete(d, ino) == NotFound {
      NoneFound(d, ino, m);
    } else {
      FoundInMap(d, ino, m);
    }
    HangsWhen(d, ino);
  }

  lemma DeleteMaps(d: Dir, ino: nat, m: map<string, Entry>)
    requires DirOk(d) && Maps(Flat(d.blocks), m) && d.size >= ENTRY_SIZE && Delete(d, ino).Gone?
    ensures |Delete(d, ino).d.blocks| == BLOCKS && Maps(Flat(Delete(d, ino).d.blocks), Unlinked(m, ino))
    ensures Unlinked(m, ino) != m
  {
    hide Flat, Slot, Live;
    DeleteFlat(d, ino);
    FlatAt(d.blocks, DeleteAt(d, ino));
    MapsRemove(Flat(d.blocks), DeleteAt(d, ino), ino, m);
    FoundInMap(d, ino, m);
  }

  lemma FoundInMap(d: Dir, ino: nat, m: map<string, Entry>)
    requires |d.blocks| == BLOCKS && Maps(Flat(d.blocks), m) && BlockWith(d.blocks, ino, 0) < BLOCKS
    ensures Unlinked(m, ino) != m
  {
    hide Flat, Slot, Live;
    var i := BlockWith(d.blocks, ino, 0);
    var j := SlotWith(d.blocks[i].value, ino, 0);
    SlotOf(d.blocks, i, j);
    FlatAt(d.blocks, 21 * i + j);
    var e := Flat(d.blocks)[21 * i + j].value;
    assert e.name in m && m[e.name] == e && e.name !in Unlinked(m, ino);
  }

  lemma HangsWhen(d: Dir, ino: nat)
    requires DirOk(d) && d.size >= ENTRY_SIZE
    ensures Delete(d, ino) == Hangs <==> AloneBehind(d, ino)
  {
    hide Live, Named, TableOk;
    if Delete(d, ino) == Hangs {
      var i := BlockWith(d.blocks, ino, 0);
      var b := d.blocks[i].value;
      var j := SlotWith(b, ino, 0);
      OneFile(b, 0, j);
      forall x: nat | x < 21 && x != j ensures In(d.blocks[i], x) == None {
        assert !IsFile(b[x]);
      }
      assert Wanted(In(d.blocks[i], j), ino);
    }
    if i: nat, j: nat :| && DIRECT <= i < BLOCKS && j < 21 && Wanted(In(d.blocks[i], j), ino)
                         && forall x: nat :: x < 21 && x != j ==> In(d.blocks[i], x) == None
    {
      LoneHangs(d, ino, i, j);
    }
  }

  lemma LoneHangs(d: Dir, ino: nat, i: nat, j: nat)
    requires DirOk(d) && d.size >= ENTRY_SIZE && DIRECT <= i < BLOCKS && j < 21 && Wanted(In(d.blocks[i], j), ino)
    requires forall x: nat :: x < 21 && x != j ==> In(d.blocks[i], x) == None
    ensures Delete(d, ino) == Hangs
  {
    hide Live, Named, TableOk;
    var b := d.blocks[i].value;
    OneFile(b, 0, j);
    forall x: nat | x < 21 && x != j ensures b[x] == None {
      assert In(d.blocks[i], x) == None;
    }
    assert !HasDot(b);
    assert HasIno(d.blocks[i], ino);
    var f := BlockWith(d.blocks, ino, 0);
    var g := SlotWith(d.blocks[f].value, ino, 0);
    SamePlace(d, ino, i, j, f, g);
  }

  lemma SamePlace(d: Dir, ino: nat, i: nat, j: nat, f: nat, g: nat)
    requires |d.blocks| == BLOCKS && Unique(Flat(d.blocks)) && i < BLOCKS && j < 21 && f < BLOCKS && g < 21
    requires Wanted(In(d.blocks[i], j), ino) && Wanted(In(d.blocks[f], g), ino)
    ensures i == f && j == g
  {
    hide Slot;
    SlotOf(d.blocks, i, j);
    SlotOf(d.blocks, f, g);
    var k, l := 21 * i + j, 21 * f + g;
    assert Flat(d.blocks)[k] == In(d.blocks[i], j) && Flat(d.blocks)[l] == In(d.blocks[f], g);
    assert k == l;
  }

  /** Deleting what was just inserted gives back the directory, unless the entry went to an
  indirect block: then it never ends. */
  lemma DeleteUndoesInsert(d: Dir, e: Entry)
    requires DirOk(d) && CanInsert(d) && Fresh(Flat(d.blocks), e)
    ensures |Insert(d, e).blocks| == BLOCKS
    ensures Delete(Insert(d, e), e.ino) == if Room(d.blocks, 0) < DIRECT then Gone(d) else Hangs
  {
    hide Flat, Live, Slot, NewBlock, HasRoom, Named, NoneEmpty, DotsFirst, Unique, Delete, FirstFree;
    var i := Room(d.blocks, 0);
    InsertKeeps(d, e);
    InsertParts(d);
    if i == DIRECT {
      FreshTable(d, e);
      UndoNew(d, e, i);
    } else if d.blocks[i].None? {
      UndoNew(d, e, i);
    } else {
      UndoSlot(d, e, i);
    }
  }

  lemma UndoNew(d: Dir, e: Entry, i: nat)
    requires |d.blocks| == BLOCKS && i == Room(d.blocks, 0) && d.blocks[i].None? && !IsDot(e.name)
    requires Insert(d, e).blocks == d.blocks[i := Some(NewBlock(e))] && Unique(Flat(Insert(d, e).blocks))
    ensures Delete(Insert(d, e), e.ino) == if i < DIRECT then Gone(d) else Hangs
  {
    hide Flat, NewBlock, HasRoom, Unique, FileCount, HasDot, BlockWith, SlotWith, FirstFree;
    var d' := Insert(d, e);
    NewBlockOnly(e);
    assert In(d'.blocks[i], 0) == Some(e);
    OnlyThere(d', e.ino, i, 0);
    assert d'.blocks[i := None] == d.blocks;
  }

  lemma UndoSlot(d: Dir, e: Entry, i: nat)
    requires |d.blocks| == BLOCKS && i == Room(d.blocks, 0) < DIRECT && d.blocks[i].Some? && !IsDot(e.name)
    requires DotsFirst(d.blocks) && NoneEmpty(d.blocks) && Unique(Flat(Insert(d, e).blocks))
    ensures Delete(Insert(d, e), e.ino) == Gone(d)
  {
    hide Flat, NewBlock, Unique, DotsFirst, NoneEmpty, FileCount, HasDot, BlockWith, SlotWith, FirstFree, HasRoom;
    var d' := Insert(d, e);
    var b := d.blocks[i].value;
    var j := FirstFree(b, 0);
    FreeSlotFound(d.blocks[i]);
    assert In(d'.blocks[i], j) == Some(e);
    OnlyThere(d', e.ino, i, j);
    NotTheOnlyOne(d, i, j, e);
    assert b[j := Some(e)][j := None] == b;
    assert d'.blocks[i := Some(b)] == d.blocks;
  }

  lemma NewBlockOnly(e: Entry)
    requires !IsDot(e.name)
    ensures NewBlock(e)[0] == Some(e) && FileCount(NewBlock(e), 0) == 1 && !HasDot(NewBlock(e))
  {
    NewBlockSlots(e);
    hide NewBlock;
    var b := NewBlock(e);
    forall x: nat | x < 21 ensures b[x] == if x == 0 then Some(e) else None {
      assert b[x] == In(Some(b), x);
    }
    OneFile(b, 0, 0);
  }

  lemma OnlyThere(d: Dir, ino: nat, i: nat, j: nat)
    requires |d.blocks| == BLOCKS && Unique(Flat(d.blocks)) && i < BLOCKS && j < 21 && Wanted(In(d.blocks[i], j), ino)
    ensures BlockWith(d.blocks, ino, 0) == i && SlotWith(d.blocks[i].value, ino, 0) == j
  {
    hide Flat, Slot;
    assert HasIno(d.blocks[i], ino);
    var f := BlockWith(d.blocks, ino, 0);
    var g := SlotWith(d.blocks[f].value, ino, 0);
    SamePlace(d, ino, i, j, f, g);
  }

  lemma NotTheOnlyOne(d: Dir, i: nat, j: nat, e: Entry)
    requires |d.blocks| == BLOCKS && DotsFirst(d.blocks) && NoneEmpty(d.blocks) && i < BLOCKS && d.blocks[i].Some? && j < 21
    requires d.blocks[i].value[j] == None && !IsDot(e.name)
    ensures var b := d.blocks[i].value[j := Some(e)]; FileCount(b, 0) != 1 || HasDot(b)
  {
    hide FileCount;
    var b0 := d.blocks[i].value;
    var b := b0[j := Some(e)];
    OneFile(b, 0, j);
    if i == 0 {
      var x :| 0 <= x < 21 && b0[x].Some? && b0[x].value.name == ".";
      assert b[x] == b0[x];
    } else {
      var x :| 0 <= x < 21 && b0[x].Some?;
      assert In(d.blocks[i], x).Some?;
      assert IsFile(b[x]);
    }
  }

  // ---------------------------------------------------------------------------
  // dir_remove
  // ---------------------------------------------------------------------------

  lemma TwoLive(flat: seq<Option<Entry>>, k: nat, l: nat, x: nat)
    requires k < |flat| && l < |flat| && k != l && flat[k].Some? && flat[l].Some? && |Live(flat)| == 2
    requires x < |flat| && x != k && x != l
    ensures flat[x].None?
  {
    hide Live;
    var f1 := flat[k := None];
    LiveUpdate(f1, k, flat[k].value);
    assert f1[k := flat[k]] == flat;
    var f2 := f1[l := None];
    LiveUpdate(f2, l, f1[l].value);
    assert f2[l := f1[l]] == f1;
    if f2[x].Some? {
      LiveHas(f2, x);
    }
  }

  /** dir_is_empty says so exactly when there are only the dots. */
  predicate IsEmptyDir(d: Dir) {
    d.size == 2 * ENTRY_SIZE
  }

  /** dir_remove's ASSERTs: an empty directory has its first block only, and no table. */
  lemma EmptyHasOneBlock(d: Dir)
    requires DirOk(d) && IsEmptyDir(d)
    ensures !d.table && forall i :: 1 <= i < BLOCKS ==> d.blocks[i].None?
  {
    hide Live, Flat, Slot, Unique, Named;
    var flat := Flat(d.blocks);
    var j :| 0 <= j < 21 && d.blocks[0].value[j].Some? && d.blocks[0].value[j].value.name == ".";
    var k :| 0 <= k < 21 && d.blocks[0].value[k].Some? && d.blocks[0].value[k].value.name == "..";
    SlotOf(d.blocks, 0, j);
    SlotOf(d.blocks, 0, k);
    FlatAt(d.blocks, j);
    FlatAt(d.blocks, k);
    forall i: nat, x: nat | 1 <= i < BLOCKS && x < 21 ensures In(d.blocks[i], x) == None {
      SlotOf(d.blocks, i, x);
      FlatAt(d.blocks, 21 * i + x);
      TwoLive(flat, j, k, 21 * i + x);
    }
    forall i | 1 <= i < BLOCKS ensures d.blocks[i].None? {
      NothingIn(d.blocks[i]);
    }
  }

  lemma NothingIn(b: Option<Block>)
    requires forall x: nat :: x < 21 ==> In(b, x) == None
    ensures b.Some? ==> !HasEntry(b.value)
  {
    forall x | 0 <= x < 21 && b.Some? ensures b.value[x].None? {
      assert In(b, x) == None;
    }
  }

  // ---------------------------------------------------------------------------
  // A new directory
  // ---------------------------------------------------------------------------

  function DotBlock(self: nat, up: nat): Block {
    [Some(Entry(".", self, Directory)), Some(Entry("..", up, Directory))] + seq(19, _ => None)
  }

  /** What sys_mkdir writes for a new directory, and partition_format for the root. */
  function NewDir(self: nat, up: nat): Dir {
    Dir([Some(DotBlock(self, up))] + seq(139, _ => None), false, 2 * ENTRY_SIZE)
  }

  lemma NewFlat(self: nat, up: nat)
    ensures Flat(NewDir(self, up).blocks) == DotBlock(self, up)[..2] + seq(SLOTS - 2, _ => None)
  {
    var blocks := NewDir(self, up).blocks;
    forall k: nat | k < SLOTS ensures Slot(blocks, k) == if k < 2 then DotBlock(self, up)[k] else None {
      assert k < 21 ==> k / 21 == 0 && k % 21 == k;
      assert k >= 21 ==> k / 21 > 0;
    }
  }

  /** A new directory is a good one, and holds its dots. */
  lemma NewDirOk(self: nat, up: nat)
    ensures DirOk(NewDir(self, up))
    ensures Maps(Flat(NewDir(self, up).blocks),
                 map["." := Entry(".", self, Directory), ".." := Entry("..", up, Directory)])
  {
    hide Flat;
    var flat := Flat(NewDir(self, up).blocks);
    var rest: seq<Option<Entry>> := seq(SLOTS - 2, _ => None);
    NewFlat(self, up);
    NoneLive(rest);
    LiveConcat(DotBlock(self, up)[..2], rest);
    assert flat[0] == DotBlock(self, up)[0] && flat[1] == DotBlock(self, up)[1];
    assert |Live(flat)| == 2;
    assert DotBlock(self, up)[0].value.name == ".";
  }

  lemma {:induction false} NoneLive(flat: seq<Option<Entry>>)
    requires forall k :: 0 <= k < |flat| ==> flat[k].None?
    ensures Live(flat) == []
    decreases |flat|
  {
    if flat != [] {
      NoneLive(flat[1..]);
    }
  }

  // ---------------------------------------------------------------------------
  // Runs
  // ---------------------------------------------------------------------------

  datatype Op = Add(e: Entry) | Remove(ino: nat)

  ghost predicate Allowed(d: Dir, op: Op) {
    && |d.blocks| == BLOCKS
    && match op
       case Add(e) => CanInsert(d) && Fresh(Flat(d.blocks), e)
       case Remove(ino) => d.size >= ENTRY_SIZE && Delete(d, ino) != Hangs
  }

  ghost function Apply(d: Dir, op: Op): Dir
    requires Allowed(d, op)
  {
    match op
    case Add(e) => Insert(d, e)
    case Remove(ino) => if Delete(d, ino).Gone? then Delete(d, ino).d else d
  }

  ghost predicate Legal(d: Dir, run: seq<Op>)
    decreases |run|
  {
    run == [] || (Allowed(d, run[0]) && Legal(Apply(d, run[0]), run[1..]))
  }

  ghost function Exec(d: Dir, run: seq<Op>): Dir
    requires Legal(d, run)
    decreases |run|
  {
    if run == [] then d else Exec(Apply(d, run[0]), run[1..])
  }

  ghost function MapAfter(m: map<string, Entry>, run: seq<Op>): map<string, Entry>
    decreases |run|
  {
    if run == [] then m
    else MapAfter(match run[0] case Add(e) => m[e.name := e] case Remove(ino) => Unlinked(m, ino), run[1..])
  }

  lemma FreshName(flat: seq<Option<Entry>>, e: Entry, m: map<string, Entry>)
    requires Fresh(flat, e) && Maps(flat, m)
    ensures e.name !in m
  {
  }

  /** After every run the directory holds exactly the entries that were inserted and not
  deleted, and its size counts them. */
  lemma {:induction false} EveryRunKeepsEntries(d: Dir, run: seq<Op>, m: map<string, Entry>)
    requires DirOk(d) && Maps(Flat(d.blocks), m) && Legal(d, run)
    ensures DirOk(Exec(d, run)) && Maps(Flat(Exec(d, run).blocks), MapAfter(m, run))
    ensures Exec(d, run).size == ENTRY_SIZE * |Live(Flat(Exec(d, run).blocks))|
    decreases |run|
  {
    hide Flat, Maps, Insert, Delete, Unlinked, Fresh, CanInsert, Live, Unique;
    if run != [] {
      match run[0]
      case Add(e) =>
        FreshName(Flat(d.blocks), e, m);
        InsertKeeps(d, e);
        InsertIsMapUpdate(d, e, m);
        EveryRunKeepsEntries(Insert(d, e), run[1..], m[e.name := e]);
      case Remove(ino) =>
        DeleteKeeps(d, ino);
        DeleteIsMapRemoval(d, ino, m);
        EveryRunKeepsEntries(Apply(d, run[0]), run[1..], Unlinked(m, ino));
    }
  }
}
