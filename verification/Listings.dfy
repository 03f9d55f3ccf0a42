/** The listing of a directory: what its slots mean to a path search, and how inserting and
deleting entries change it. */
module Listings {
  import opened Basics
  import opened Directories
  import opened Trees
  import C = TreeChanges

  ghost predicate NameAt(flat: seq<Option<Entry>>, k: int, n: string) {
    0 <= k < |flat| && flat[k].Some? && flat[k].value.name == n
  }

  ghost function NamesOf(flat: seq<Option<Entry>>): set<string> {
    set k | 0 <= k < |flat| && flat[k].Some? :: flat[k].value.name
  }

  ghost function EntryOf(flat: seq<Option<Entry>>, n: string): Entry
    requires n in NamesOf(flat)
  {
    NameSomewhere(flat, n);
    var k :| NameAt(flat, k, n);
    flat[k].value
  }

  lemma NameSomewhere(flat: seq<Option<Entry>>, n: string)
    requires n in NamesOf(flat)
    ensures exists k :: NameAt(flat, k, n)
  {
    var k :| 0 <= k < |flat| && flat[k].Some? && flat[k].value.name == n;
    assert NameAt(flat, k, n);
  }

  lemma SameSlot(flat: seq<Option<Entry>>, k: int, l: int, n: string)
    requires NamesUnique(flat) && NameAt(flat, k, n) && NameAt(flat, l, n)
    ensures k == l
  {
  }

  /** The entries by name. */
  ghost function EntriesOf(flat: seq<Option<Entry>>): map<string, Entry> {
    map n | n in NamesOf(flat) :: EntryOf(flat, n)
  }

  function LinkOf(e: Entry): Link {
    Link(e.ino, e.kind == Directory)
  }

  ghost function Links(m: map<string, Entry>): Listing {
    map n | n in m :: LinkOf(m[n])
  }

  ghost function ListingOf(d: Dir): Listing {
    if |d.blocks| == BLOCKS then Links(EntriesOf(Flat(d.blocks))) else map[]
  }

  lemma MapsOne(flat: seq<Option<Entry>>, m: map<string, Entry>)
    requires Maps(flat, m)
    ensures EntriesOf(flat) == m
  {
    forall n | n in m ensures n in NamesOf(flat) {
      var k :| 0 <= k < |flat| && flat[k] == Some(m[n]);
      assert flat[k].value.name in NamesOf(flat);
    }
    forall n | n in NamesOf(flat) ensures n in m && m[n] == EntryOf(flat, n) {
      var k :| 0 <= k < |flat| && flat[k].Some? && flat[k].value.name == n;
      assert NameAt(flat, k, n);
    }
  }

  ghost predicate NamesUnique(flat: seq<Option<Entry>>) {
    forall k, l :: 0 <= k < l < |flat| && flat[k].Some? && flat[l].Some? ==> flat[k].value.name != flat[l].value.name
  }

  lemma MapsSelf(flat: seq<Option<Entry>>)
    requires NamesUnique(flat)
    ensures Maps(flat, EntriesOf(flat))
  {
    var m := EntriesOf(flat);
    forall n | n in m ensures m[n].name == n && exists k :: 0 <= k < |flat| && flat[k] == Some(m[n]) {
      var k :| 0 <= k < |flat| && flat[k].Some? && flat[k].value.name == n;
      assert NameAt(flat, k, n);
      var l :| NameAt(flat, l, n) && m[n] == flat[l].value;
    }
    forall k | 0 <= k < |flat| && flat[k].Some? ensures flat[k].value.name in m && m[flat[k].value.name] == flat[k].value {
      var n := flat[k].value.name;
      assert n in NamesOf(flat) && NameAt(flat, k, n);
      var l :| NameAt(flat, l, n) && m[n] == flat[l].value;
      SameSlot(flat, k, l, n);
    }
  }

  lemma DirMaps(d: Dir)
    requires DirOk(d)
    ensures |d.blocks| == BLOCKS && Unique(Flat(d.blocks))
    ensures Maps(Flat(d.blocks), EntriesOf(Flat(d.blocks))) && ListingOf(d) == Links(EntriesOf(Flat(d.blocks)))
  {
    hide Flat, Maps, Live;
    assert NamesUnique(Flat(d.blocks));
    MapsSelf(Flat(d.blocks));
  }

  /** Inserting adds one link. */
  lemma ListingInsert(d: Dir, e: Entry)
    requires DirOk(d) && CanInsert(d) && e.name !in ListingOf(d)
    ensures ListingOf(Insert(d, e)) == ListingOf(d)[e.name := LinkOf(e)]
  {
    hide Flat, Maps, DirOk, CanInsert, Insert, EntriesOf;
    DirMaps(d);
    var m := EntriesOf(Flat(d.blocks));
    assert e.name !in m;
    InsertIsMapUpdate(d, e, m);
    MapsOne(Flat(Insert(d, e).blocks), m[e.name := e]);
  }

  /** The listing without the entries for `ino`, dots excepted. */
  ghost function Dropped(l: Listing, ino: nat): Listing {
    map n | n in l && (IsDot(n) || l[n].ino != ino) :: l[n]
  }

  lemma ListingDelete(d: Dir, ino: nat)
    requires DirOk(d)
    ensures d.size >= ENTRY_SIZE
    ensures Delete(d, ino).Gone? ==> ListingOf(Delete(d, ino).d) == Dropped(ListingOf(d), ino)
    ensures Delete(d, ino) == NotFound <==> Dropped(ListingOf(d), ino) == ListingOf(d)
  {
    hide Flat, Maps, DirOk, Delete, EntriesOf;
    DirMaps(d);
    var m := EntriesOf(Flat(d.blocks));
    DeleteIsMapRemoval(d, ino, m);
    assert Links(Unlinked(m, ino)) == Dropped(Links(m), ino);
    if Delete(d, ino).Gone? {
      MapsOne(Flat(Delete(d, ino).d.blocks), Unlinked(m, ino));
    }
    SameKeys(m, ino);
  }

  lemma SameKeys(m: map<string, Entry>, ino: nat)
    ensures Unlinked(m, ino) == m <==> Dropped(Links(m), ino) == Links(m)
  {
    assert Unlinked(m, ino) == m <==> Unlinked(m, ino).Keys == m.Keys;
    assert Dropped(Links(m), ino).Keys == Unlinked(m, ino).Keys;
    assert Links(m).Keys == m.Keys;
  }

  lemma ListingNew(self: nat, up: nat)
    ensures ListingOf(NewDir(self, up)) == map["." := Link(self, true), ".." := Link(up, true)]
  {
    hide Flat, Maps, EntriesOf;
    var m := map["." := Entry(".", self, Directory), ".." := Entry("..", up, Directory)];
    NewDirOk(self, up);
    MapsOne(Flat(NewDir(self, up).blocks), m);
    assert Links(m) == map["." := Link(self, true), ".." := Link(up, true)];
  }

  /** dir_is_empty goes by the size; it is right. */
  lemma ListingEmpty(d: Dir)
    requires DirOk(d)
    ensures IsEmptyDir(d) <==> C.IsEmpty(ListingOf(d))
  {
    hide Live, Flat, Slot, Maps, EntriesOf;
    var flat := Flat(d.blocks);
    DirMaps(d);
    var m := EntriesOf(flat);
    var j :| 0 <= j < 21 && d.blocks[0].value[j].Some? && d.blocks[0].value[j].value.name == ".";
    var k :| 0 <= k < 21 && d.blocks[0].value[k].Some? && d.blocks[0].value[k].value.name == "..";
    SlotOf(d.blocks, 0, j);
    SlotOf(d.blocks, 0, k);
    FlatAt(d.blocks, j);
    FlatAt(d.blocks, k);
    OnlyTwo(flat, j, k);
    OnlyDots(flat, j, k, m);
  }

  lemma OnlyDots(flat: seq<Option<Entry>>, j: nat, k: nat, m: map<string, Entry>)
    requires Unique(flat) && Maps(flat, m) && NameAt(flat, j, ".") && NameAt(flat, k, "..")
    ensures (forall x :: 0 <= x < |flat| && x != j && x != k ==> flat[x].None?) <==> C.IsEmpty(Links(m))
  {
    if forall x :: 0 <= x < |flat| && x != j && x != k ==> flat[x].None? {
      forall n | n in m ensures IsDot(n) {
        var x :| 0 <= x < |flat| && flat[x] == Some(m[n]);
      }
    }
    if C.IsEmpty(Links(m)) {
      forall x | 0 <= x < |flat| && flat[x].Some? ensures x == j || x == k {
        assert flat[x].value.name in Links(m);
      }
    }
  }

  lemma OnlyTwo(flat: seq<Option<Entry>>, j: nat, k: nat)
    requires j < |flat| && k < |flat| && j != k && flat[j].Some? && flat[k].Some?
    ensures |Live(flat)| == 2 <==> forall x :: 0 <= x < |flat| && x != j && x != k ==> flat[x].None?
  {
    hide Live;
    if |Live(flat)| == 2 {
      forall x | 0 <= x < |flat| && x != j && x != k ensures flat[x].None? {
        TwoLive(flat, j, k, x);
      }
    }
    if forall x :: 0 <= x < |flat| && x != j && x != k ==> flat[x].None? {
      var f1 := flat[j := None];
      LiveUpdate(f1, j, flat[j].value);
      assert f1[j := flat[j]] == flat;
      var f2 := f1[k := None];
      LiveUpdate(f2, k, f1[k].value);
      assert f2[k := f1[k]] == f1;
      NoneLive(f2);
    }
  }

  /** Starting a second indirect table takes a name out of the listing. */
  lemma ListingLoses(d: Dir, e: Entry) returns (n: string)
    requires DirOk(d) && !CanInsert(d) && e.name !in ListingOf(d)
    ensures n in ListingOf(d) && !IsDot(n) && n !in ListingOf(Insert(d, e))
    ensures forall m :: m in ListingOf(Insert(d, e)) && m != e.name ==> m in ListingOf(d) && ListingOf(Insert(d, e))[m] == ListingOf(d)[m]
    ensures e.name in ListingOf(Insert(d, e)) ==> ListingOf(Insert(d, e))[e.name] == LinkOf(e)
  {
    hide Flat, Slot, NewBlock, Live, Named, Maps, EntriesOf, Insert, Room;
    DirMaps(d);
    OnlyDirectLeft(d, e, 0);
    var flat, flat' := Flat(d.blocks), Flat(Insert(d, e).blocks);
    var i: nat, j: nat :| DIRECT <= i < BLOCKS && j < 21 && In(d.blocks[i], j).Some?;
    SlotOf(d.blocks, i, j);
    FlatAt(d.blocks, 21 * i + j);
    n := In(d.blocks[i], j).value.name;
    forall k: nat | k < SLOTS ensures flat'[k] == Replaced(flat, e)[k] {
      OnlyDirectLeft(d, e, k);
      FlatAt(d.blocks, k);
      FlatAt(Insert(d, e).blocks, k);
    }
    assert flat' == Replaced(flat, e);
    assert e.name !in EntriesOf(flat);
    ReplacedNames(flat, e, 21 * i + j);
    assert In(d.blocks[i], j).Some? ==> !IsDot(In(d.blocks[i], j).value.name);
  }

  /** What a second table leaves: the direct slots, and the new entry. */
  ghost function Replaced(flat: seq<Option<Entry>>, e: Entry): (r: seq<Option<Entry>>)
    requires |flat| == SLOTS
    ensures |r| == SLOTS
  {
    seq(SLOTS, k requires 0 <= k < SLOTS => if k < DIRECT * 21 then flat[k] else if k == DIRECT * 21 then Some(e) else None)
  }

  lemma ReplacedNames(flat: seq<Option<Entry>>, e: Entry, l: nat)
    requires |flat| == SLOTS && Unique(flat) && DIRECT * 21 <= l < SLOTS && flat[l].Some? && e.name !in EntriesOf(flat)
    ensures var m, m' := EntriesOf(flat), EntriesOf(Replaced(flat, e));
            && flat[l].value.name in m && flat[l].value.name !in m'
            && (forall n :: n in m' && n != e.name ==> n in m && m'[n] == m[n])
            && (e.name in m' ==> m'[e.name] == e)
  {
    hide EntriesOf;
    var flat' := Replaced(flat, e);
    var m, m' := EntriesOf(flat), EntriesOf(flat');
    MapsSelf(flat);
    forall k | 0 <= k < SLOTS && flat'[k].Some? && k != DIRECT * 21 ensures flat'[k] == flat[k] && k < DIRECT * 21 {
    }
    assert flat[l].value.name in m && m[flat[l].value.name] == flat[l].value;
    ReplacedUnique(flat, e, m);
    MapsSelf(flat');
    forall n | n in m' ensures n != flat[l].value.name
      ensures if n == e.name then m'[n] == e else n in m && m'[n] == m[n]
    {
      var k :| 0 <= k < SLOTS && flat'[k] == Some(m'[n]);
    }
  }

  lemma ReplacedUnique(flat: seq<Option<Entry>>, e: Entry, m: map<string, Entry>)
    requires |flat| == SLOTS && Unique(flat) && Maps(flat, m) && e.name !in m
    ensures NamesUnique(Replaced(flat, e))
  {
  }
}
