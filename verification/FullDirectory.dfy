/** A directory that is filled entry by entry: the 253rd goes to the first indirect block,
and the next insertion loses it, while its deletion never ends. */
module FullDirectory {
  import opened Basics
  import opened Directories

  const DIRECT_SLOTS: nat := 252

  /** Entry `k` of `all`, if there is one. */
  function Nth(all: seq<Entry>, k: nat): Option<Entry> {
    if k < |all| then Some(all[k]) else None
  }

  function Slots(all: seq<Entry>, k: nat): (b: Block)
    ensures forall j: nat :: j < 21 ==> b[j] == Nth(all, k + j)
  {
    var b: seq<Option<Entry>> := seq(21, j requires 0 <= j < 21 => Nth(all, k + j));
    b
  }

  function PackedBlock(all: seq<Entry>, i: nat): Option<Block> {
    if 21 * i < |all| then Some(Slots(all, 21 * i)) else None
  }

  /** The directory whose slots are the entries `all`, without holes. */
  function Packed(all: seq<Entry>): Dir {
    Dir(seq(BLOCKS, i requires 0 <= i < BLOCKS => PackedBlock(all, i)), |all| > DIRECT_SLOTS, ENTRY_SIZE * |all|)
  }

  lemma PackedIn(all: seq<Entry>, i: nat, j: nat)
    requires i < BLOCKS && j < 21
    ensures In(Packed(all).blocks[i], j) == Nth(all, 21 * i + j)
  {
  }

  lemma PackedFlat(all: seq<Entry>, k: nat)
    requires k < SLOTS
    ensures Flat(Packed(all).blocks)[k] == Nth(all, k)
  {
    PackedIn(all, k / 21, k % 21);
    assert k == 21 * (k / 21) + k % 21;
  }

  /** Blocks are filled one after the other. */
  lemma PackedRoom(all: seq<Entry>, i: nat)
    requires i < DIRECT
    ensures HasRoom(Packed(all).blocks[i]) <==> |all| < 21 * (i + 1)
    ensures 21 * i < |all| < 21 * (i + 1) ==> FirstFree(PackedBlock(all, i).value, 0) == |all| - 21 * i
  {
    if 21 * i < |all| {
      var b := PackedBlock(all, i).value;
      forall j: nat | j < 21 ensures b[j].None? <==> |all| <= 21 * i + j {
      }
      assert |all| < 21 * (i + 1) ==> b[|all| - 21 * i].None?;
    }
  }

  lemma RoomIs(all: seq<Entry>)
    ensures Room(Packed(all).blocks, 0) == if |all| < DIRECT_SLOTS then |all| / 21 else DIRECT
  {
    hide HasRoom;
    forall i: nat | i < DIRECT ensures HasRoom(Packed(all).blocks[i]) <==> |all| < 21 * (i + 1) {
      PackedRoom(all, i);
    }
    var r := Room(Packed(all).blocks, 0);
    assert r < DIRECT ==> |all| < 21 * (r + 1);
    assert r > 0 ==> !HasRoom(Packed(all).blocks[r - 1]);
    if |all| < DIRECT_SLOTS {
      var q := |all| / 21;
      assert HasRoom(Packed(all).blocks[q]);
      assert r <= q;
    }
  }

  /** Inserting puts the entry behind the last one. */
  lemma PackedInsert(all: seq<Entry>, e: Entry)
    requires |all| <= DIRECT_SLOTS
    ensures CanInsert(Packed(all)) && Insert(Packed(all), e) == Packed(all + [e])
  {
    hide HasRoom, Room, FirstFree;
    RoomIs(all);
    var d, d' := Packed(all), Packed(all + [e]);
    var q := |all| / 21;
    assert |all| == DIRECT_SLOTS ==> q == DIRECT;
    forall i: nat | i < BLOCKS && i != q ensures d'.blocks[i] == d.blocks[i] {
      OtherBlock(all, e, i);
    }
    LastBlock(all, e);
    if q < DIRECT {
      PackedRoom(all, q);
    }
    assert Insert(d, e).blocks == d'.blocks;
  }

  lemma OtherBlock(all: seq<Entry>, e: Entry, i: nat)
    requires i < BLOCKS && i != |all| / 21
    ensures PackedBlock(all + [e], i) == PackedBlock(all, i)
  {
    assert |all| == 21 * (|all| / 21) + |all| % 21;
    if 21 * i < |all| {
      forall j: nat | j < 21 ensures Slots(all + [e], 21 * i)[j] == Slots(all, 21 * i)[j] {
      }
      assert Slots(all + [e], 21 * i) == Slots(all, 21 * i);
    }
  }

  lemma LastBlock(all: seq<Entry>, e: Entry)
    ensures var q := |all| / 21;
            PackedBlock(all + [e], q) ==
              if |all| % 21 == 0 then Some(NewBlock(e)) else Some(PackedBlock(all, q).value[|all| % 21 := Some(e)])
  {
    var q := |all| / 21;
    assert |all| == 21 * q + |all| % 21;
    var b := PackedBlock(all + [e], q).value;
    forall j: nat | j < 21 ensures b[j] == if j == |all| % 21 then Some(e) else Nth(all, 21 * q + j) {
    }
    if |all| % 21 == 0 {
      NewBlockSlots(e);
      forall j: nat | j < 21 ensures b[j] == NewBlock(e)[j] {
        assert NewBlock(e)[j] == In(Some(NewBlock(e)), j);
      }
      assert b == NewBlock(e);
    } else {
      assert b == PackedBlock(all, q).value[|all| % 21 := Some(e)];
    }
  }

  // ---------------------------------------------------------------------------
  // Filling a new directory
  // ---------------------------------------------------------------------------

  function Dots(self: nat, up: nat): seq<Entry> {
    [Entry(".", self, Directory), Entry("..", up, Directory)]
  }

  lemma NewIsPacked(self: nat, up: nat)
    ensures NewDir(self, up) == Packed(Dots(self, up))
  {
    var d, p := NewDir(self, up), Packed(Dots(self, up));
    forall i: nat | i < BLOCKS ensures d.blocks[i] == p.blocks[i] {
      if i == 0 {
        assert d.blocks[0].value == Slots(Dots(self, up), 0);
      }
    }
    assert d.blocks == p.blocks;
  }

  /** Entries that can be inserted one after the other behind the first two. */
  ghost predicate Distinct(all: seq<Entry>) {
    && |all| >= 2 && (forall k :: 0 <= k < |all| ==> all[k].name != "" && (k < 2 <==> IsDot(all[k].name)))
    && (forall k, l :: 0 <= k < l < |all| ==> all[k].name != all[l].name)
    && (forall k, l :: 2 <= k < l < |all| ==> all[k].ino != all[l].ino)
  }

  lemma NextIsFresh(all: seq<Entry>, e: Entry)
    requires Distinct(all + [e]) && 2 <= |all| <= SLOTS
    ensures Fresh(Flat(Packed(all).blocks), e)
  {
    hide Flat;
    var flat := Flat(Packed(all).blocks);
    var r := all + [e];
    assert r[|all|] == e;
    forall k | 0 <= k < |flat| && flat[k].Some?
      ensures flat[k].value.name != e.name && (IsFile(flat[k]) ==> flat[k].value.ino != e.ino)
    {
      PackedFlat(all, k);
      assert r[k] == all[k] == flat[k].value;
    }
  }

  function Adds(es: seq<Entry>): seq<Op> {
    if es == [] then [] else [Add(es[0])] + Adds(es[1..])
  }

  /** Adding entries to a packed directory packs them behind the others, up to the first
  one in an indirect block. */
  lemma {:induction false} FillFrom(all: seq<Entry>, es: seq<Entry>)
    requires Distinct(all + es) && 2 <= |all| && |all + es| <= DIRECT_SLOTS + 1
    ensures Legal(Packed(all), Adds(es)) && Exec(Packed(all), Adds(es)) == Packed(all + es)
    decreases |es|
  {
    hide Flat, Insert, CanInsert, Fresh, Packed;
    if es == [] {
      assert all + es == all;
    } else {
      var e := es[0];
      assert all + [e] + es[1..] == all + es;
      DistinctFront(all + [e], es[1..]);
      PackedInsert(all, e);
      NextIsFresh(all, e);
      PackedShape(all);
      assert Adds(es)[0] == Add(e) && Adds(es)[1..] == Adds(es[1..]);
      FillFrom(all + [e], es[1..]);
    }
  }

  lemma PackedShape(all: seq<Entry>)
    ensures |Packed(all).blocks| == BLOCKS
  {
  }

  lemma DistinctFront(a: seq<Entry>, b: seq<Entry>)
    requires Distinct(a + b) && |a| >= 2
    ensures Distinct(a)
  {
    assert forall k :: 0 <= k < |a| ==> (a + b)[k] == a[k];
  }

  /** 251 insertions into a new directory succeed and leave a good directory. The next one
  would replace the indirect table, and deleting the last entry never ends. */
  lemma FullDirectoryFails(self: nat, up: nat, es: seq<Entry>)
    requires Distinct(Dots(self, up) + es) && |es| == DIRECT_SLOTS - 1
    ensures Legal(NewDir(self, up), Adds(es))
    ensures var d := Exec(NewDir(self, up), Adds(es));
            && DirOk(d) && !CanInsert(d) && d.size >= ENTRY_SIZE && Delete(d, es[|es| - 1].ino) == Hangs
  {
    hide Flat, Packed, DirOk, Delete, CanInsert, Maps;
    var all := Dots(self, up) + es;
    NewIsPacked(self, up);
    FillFrom(Dots(self, up), es);
    NewDirOk(self, up);
    EveryRunKeepsEntries(NewDir(self, up), Adds(es),
                         map["." := Entry(".", self, Directory), ".." := Entry("..", up, Directory)]);
    NotEmpty(Packed(all));
    LastAlone(all);
    HangsWhen(Packed(all), es[|es| - 1].ino);
  }

  lemma LastAlone(all: seq<Entry>)
    requires Distinct(all) && |all| == DIRECT_SLOTS + 1
    ensures |Packed(all).blocks| == BLOCKS && !CanInsert(Packed(all))
    ensures Wanted(In(Packed(all).blocks[DIRECT], 0), all[DIRECT_SLOTS].ino)
    ensures forall x: nat :: x < 21 && x != 0 ==> In(Packed(all).blocks[DIRECT], x) == None
  {
    RoomIs(all);
    forall x: nat | x < 21 ensures In(Packed(all).blocks[DIRECT], x) == Nth(all, DIRECT_SLOTS + x) {
      PackedIn(all, DIRECT, x);
    }
  }

  /** There are such entries: two-letter names, inodes from 1 on. */
  function Sample(i: nat): Entry
    requires i < 256
  {
    Entry([Letter(i / 16), Letter(i % 16)], i + 1, Directory)
  }

  function Letter(i: nat): char
    requires i < 16
  {
    'a' + i as char
  }

  function Samples(n: nat): seq<Entry>
    requires n <= 256
  {
    seq(n, i requires 0 <= i < n => Sample(i))
  }

  lemma SamplesDistinct(self: nat, up: nat, n: nat)
    requires n <= 256
    ensures Distinct(Dots(self, up) + Samples(n))
  {
    hide Sample;
    var all := Dots(self, up) + Samples(n);
    assert forall k :: 2 <= k < |all| ==> all[k] == Sample(k - 2);
    forall k, l | 2 <= k < l < |all| ensures all[k].name != all[l].name && all[k].ino != all[l].ino {
      SamplesDiffer(k - 2, l - 2);
    }
    forall k | 2 <= k < |all| ensures all[k].name != "" && !IsDot(all[k].name) {
      SampleIsName(k - 2);
    }
  }

  lemma SampleIsName(i: nat)
    requires i < 256
    ensures Sample(i).name != "" && !IsDot(Sample(i).name)
  {
    assert Sample(i).name[0] == Letter(i / 16) != '.';
  }

  lemma SamplesDiffer(i: nat, j: nat)
    requires i < j < 256
    ensures Sample(i).name != Sample(j).name && Sample(i).ino != Sample(j).ino
  {
    hide Letter;
    LettersDiffer(i / 16, j / 16);
    LettersDiffer(i % 16, j % 16);
    assert Sample(i).name[0] == Letter(i / 16) && Sample(i).name[1] == Letter(i % 16);
    assert Sample(j).name[0] == Letter(j / 16) && Sample(j).name[1] == Letter(j % 16);
  }

  lemma LettersDiffer(i: nat, j: nat)
    requires i < 16 && j < 16
    ensures Letter(i) == Letter(j) ==> i == j
  {
  }

  /** A run from a new directory to one whose next insertion loses an entry and in which a
  deletion never ends. */
  lemma RunToFull(self: nat, up: nat) returns (run: seq<Op>, ino: nat)
    ensures Legal(NewDir(self, up), run)
    ensures var d := Exec(NewDir(self, up), run);
            DirOk(d) && !CanInsert(d) && d.size >= ENTRY_SIZE && Delete(d, ino) == Hangs
  {
    hide NewDir, Delete, DirOk, CanInsert, Legal, Exec, Adds;
    var es := Samples(DIRECT_SLOTS - 1);
    SamplesDistinct(self, up, DIRECT_SLOTS - 1);
    FullDirectoryFails(self, up, es);
    run, ino := Adds(es), es[|es| - 1].ino;
  }
}
