/** search_dir_entry and dir_read as the code runs them, loops over blocks and over the slots
of a block, and the scans of one block in sync_dir_entry and delete_dir_entry. */
module DirectoryStores {
  import opened Basics
  import opened Directories

  /** The scan of a block for a slot with FT_UNKNOWN. */
  method FreeSlot(b: Block) returns (j: nat)
    ensures j == FirstFree(b, 0)
  {
    j := 0;
    while j < 21
      invariant j <= 21 && FirstFree(b, 0) == FirstFree(b, j)
    {
      if b[j].None? {
        return;
      }
      j := j + 1;
    }
  }

  /** The scan of a block: where the entry is, how many files there are, and whether
  this is the first block. The entry is found at most once. */
  method Inspect(b: Block, ino: nat) returns (found: nat, count: nat, first: bool)
    requires forall x, y :: 0 <= x < y < 21 ==> !(Wanted(b[x], ino) && Wanted(b[y], ino))
    ensures found == SlotWith(b, ino, 0) && count == FileCount(b, 0) && first == HasDot(b)
  {
    found, count, first := 21, 0, false;
    var j := 0;
    while j < 21
      invariant 0 <= j <= 21 && count + FileCount(b, j) == FileCount(b, 0)
      invariant first <==> exists x :: 0 <= x < j && b[x].Some? && b[x].value.name == "."
      invariant found < 21 ==> found < j && Wanted(b[found], ino) && found == SlotWith(b, ino, 0)
      invariant found >= 21 ==> found == 21 && SlotWith(b, ino, 0) == SlotWith(b, ino, j)
    {
      if b[j].Some? {
        if b[j].value.name == "." {
          first := true;
        } else if b[j].value.name != ".." {
          count := count + 1;
          if b[j].value.ino == ino {
            assert found == 21;
            found := j;
          }
        }
      }
      j := j + 1;
    }
  }

  class DirectoryStore {
    var blocks: seq<Option<Block>>
    var table: bool
    var size: nat

    function Abs(): Dir
      reads this
    {
      Dir(blocks, table, size)
    }

    /** search_dir_entry */
    method Search(name: string) returns (r: Option<Entry>)
      requires DirOk(Abs())
      ensures r.Some? ==> r.value.name == name && exists k: nat :: k < SLOTS && Slot(blocks, k) == r
      ensures r == None ==> forall k: nat :: k < SLOTS && Slot(blocks, k).Some? ==> Slot(blocks, k).value.name != name
      ensures forall m :: Maps(Flat(blocks), m) ==> r == if name in m then Some(m[name]) else None
    {
      hide Unique, Live, Named, DotsFirst, TableOk, Maps;
      var i := 0;
      while i < BLOCKS
        invariant 0 <= i <= BLOCKS
        invariant forall x, y :: 0 <= x < i && 0 <= y < 21 && In(blocks[x], y).Some? ==> In(blocks[x], y).value.name != name
      {
        if blocks[i].Some? {
          var b := blocks[i].value;
          var j := 0;
          while j < 21
            invariant 0 <= j <= 21
            invariant forall y :: 0 <= y < j && b[y].Some? ==> b[y].value.name != name
          {
            if b[j].Some? && b[j].value.name == name {
              SlotOf(blocks, i, j);
              forall m | Maps(Flat(blocks), m) ensures name in m && m[name] == b[j].value {
                MapsHit(blocks, m, 21 * i + j);
              }
              return b[j];
            }
            j := j + 1;
          }
        }
        i := i + 1;
      }
      forall m | Maps(Flat(blocks), m) ensures name !in m {
        MapsMiss(blocks, m, name);
      }
      r := None;
    }

    /** Reading from the start until nothing is returned lists every entry once. */
    method ReadAll() returns (all: seq<Entry>)
      requires DirOk(Abs())
      ensures all == Live(Flat(blocks))
    {
      hide Unique, Named, DotsFirst, TableOk, Flat, Live;
      all := [];
      var pos, more := 0, true;
      while more
        invariant pos == ENTRY_SIZE * |all| && |all| <= |Live(Flat(blocks))| && all == Live(Flat(blocks))[..|all|]
        invariant !more ==> |all| == |Live(Flat(blocks))|
        decreases |Live(Flat(blocks))| - |all|, more
      {
        var e;
        e, pos := Read(pos);
        if e.None? {
          more := false;
        } else {
          all := all + [e.value];
        }
      }
    }

    /** dir_read: the entry number pos / 24 in scan order. */
    method Read(pos: nat) returns (r: Option<Entry>, pos': nat)
      requires DirOk(Abs()) && pos % ENTRY_SIZE == 0
      ensures var live := Live(Flat(blocks));
              if pos / ENTRY_SIZE < |live| then r == Some(live[pos / ENTRY_SIZE]) && pos' == pos + ENTRY_SIZE
              else r == None && pos' == pos
    {
      hide Unique, Named, DotsFirst, Slot, Live;
      ghost var flat := Flat(blocks);
      var last := if table then BLOCKS else DIRECT;
      var cur := 0;
      var i := 0;
      assert flat[..0] == [];
      NoneLive(flat[..0]);
      while i < last
        invariant 0 <= i <= last
        invariant cur == ENTRY_SIZE * |Live(flat[..21 * i])| <= pos
      {
        if pos >= size {
          return None, pos;
        }
        if blocks[i].Some? {
          var b := blocks[i].value;
          var j := 0;
          while j < 21
            invariant 0 <= j <= 21
            invariant cur == ENTRY_SIZE * |Live(flat[..21 * i + j])| <= pos
          {
            SlotOf(blocks, i, j);
            LiveNext(flat, 21 * i + j);
            if b[j].Some? {
              if cur < pos {
                cur := cur + ENTRY_SIZE;
              } else {
                assert cur == pos;
                return b[j], pos + ENTRY_SIZE;
              }
            }
            j := j + 1;
          }
        } else {
          HoleLive(blocks, i);
        }
        i := i + 1;
      }
      RestEmpty(Abs(), last);
      r, pos' := None, pos;
    }
  }

  lemma MapsHit(blocks: seq<Option<Block>>, m: map<string, Entry>, k: nat)
    requires |blocks| == BLOCKS && Maps(Flat(blocks), m) && k < SLOTS && Slot(blocks, k).Some?
    ensures var e := Slot(blocks, k).value; e.name in m && m[e.name] == e
  {
    assert Flat(blocks)[k] == Slot(blocks, k);
  }

  lemma MapsMiss(blocks: seq<Option<Block>>, m: map<string, Entry>, name: string)
    requires |blocks| == BLOCKS && Maps(Flat(blocks), m)
    requires forall k: nat :: k < SLOTS && Slot(blocks, k).Some? ==> Slot(blocks, k).value.name != name
    ensures name !in m
  {
  }

  lemma {:induction false} LiveMembers(flat: seq<Option<Entry>>, e: Entry)
    ensures e in Live(flat) <==> Some(e) in flat
    decreases |flat|
  {
    if flat != [] {
      LiveMembers(flat[1..], e);
      assert flat == [flat[0]] + flat[1..];
    }
  }

  /** The list of live entries has every live slot's entry, under one name each. */
  lemma {:induction false} LiveExact(flat: seq<Option<Entry>>)
    requires Unique(flat)
    ensures forall e :: e in Live(flat) <==> Some(e) in flat
    ensures forall i, j :: 0 <= i < j < |Live(flat)| ==> Live(flat)[i].name != Live(flat)[j].name
    decreases |flat|
  {
    forall e ensures e in Live(flat) <==> Some(e) in flat {
      LiveMembers(flat, e);
    }
    if flat != [] {
      var rest := flat[1..];
      assert Unique(rest);
      LiveExact(rest);
      forall e | flat[0].Some? && e in Live(rest) ensures e.name != flat[0].value.name {
        LiveMembers(rest, e);
        var k :| 0 <= k < |rest| && rest[k] == Some(e);
        assert flat[k + 1] == rest[k];
      }
    }
  }

  lemma OneWanted(d: Dir, ino: nat, i: nat)
    requires DirOk(d) && i < BLOCKS && d.blocks[i].Some?
    ensures var b := d.blocks[i].value; forall x, y :: 0 <= x < y < 21 ==> !(Wanted(b[x], ino) && Wanted(b[y], ino))
  {
    var b := d.blocks[i].value;
    forall x, y | 0 <= x < y < 21 ensures !(Wanted(b[x], ino) && Wanted(b[y], ino)) {
      if Wanted(b[x], ino) && Wanted(b[y], ino) {
        SamePlace(d, ino, i, x, i, y);
      }
    }
  }

  /** One slot further: a live slot is the next live entry. */
  lemma LiveNext(flat: seq<Option<Entry>>, k: nat)
    requires k < |flat|
    ensures flat[k].None? ==> Live(flat[..k + 1]) == Live(flat[..k])
    ensures flat[k].Some? ==> Live(flat[..k + 1]) == Live(flat[..k]) + [flat[k].value]
    ensures flat[k].Some? ==> |Live(flat[..k])| < |Live(flat)| && Live(flat)[|Live(flat[..k])|] == flat[k].value
  {
    assert flat[..k + 1] == flat[..k] + [flat[k]];
    LiveConcat(flat[..k], [flat[k]]);
    assert flat == flat[..k + 1] + flat[k + 1..];
    LiveConcat(flat[..k + 1], flat[k + 1..]);
    assert [flat[k]][1..] == [];
  }

  lemma HoleLive(blocks: seq<Option<Block>>, i: nat)
    requires |blocks| == BLOCKS && i < BLOCKS && blocks[i].None?
    ensures Live(Flat(blocks)[..21 * i + 21]) == Live(Flat(blocks)[..21 * i])
  {
    hide Live;
    var flat := Flat(blocks);
    var hole := flat[21 * i..21 * i + 21];
    forall j: nat | j < 21 ensures hole[j].None? {
      SlotOf(blocks, i, j);
    }
    NoneLive(hole);
    assert flat[..21 * i + 21] == flat[..21 * i] + hole;
    LiveConcat(flat[..21 * i], hole);
  }

  lemma RestEmpty(d: Dir, last: nat)
    requires DirOk(d) && last == if d.table then BLOCKS else DIRECT
    ensures Live(Flat(d.blocks)) == Live(Flat(d.blocks)[..21 * last])
  {
    hide Live;
    var flat := Flat(d.blocks);
    var rest := flat[21 * last..];
    forall k | 0 <= k < |rest| ensures rest[k].None? {
      assert rest[k] == Slot(d.blocks, 21 * last + k);
    }
    NoneLive(rest);
    assert flat == flat[..21 * last] + rest;
    LiveConcat(flat[..21 * last], rest);
  }
}
