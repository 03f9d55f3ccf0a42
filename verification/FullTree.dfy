/** 252 calls of sys_mkdir in the root of a formatted partition: after 251 of them all is
well, and the next one takes a directory out of the tree. */
module FullTree {
  import opened Basics
  import opened Directories
  import opened Paths
  import opened Trees
  import opened Listings
  import opened InodeTrees
  import C = TreeChanges
  import F = FullDirectory

  function Entries(n: nat): seq<Entry>
    requires n <= 251
  {
    F.Dots(ROOT, ROOT) + F.Samples(n)
  }

  function SlotAt(n: nat, i: nat): Record
    requires n <= 251
  {
    if i == ROOT then Record(ROOT, Folder(F.Packed(Entries(n))))
    else if i <= n then Record(i, Folder(NewDir(i, ROOT)))
    else BLANK
  }

  /** The partition with `n` directories in the root. */
  function Grown(n: nat): Disk
    requires n <= 251
  {
    Disk(seq(INODES, i requires 0 <= i < INODES => SlotAt(n, i)), UpTo(n))
  }

  function UpTo(n: nat): (r: set<nat>)
    ensures forall i: nat :: i in r <==> i <= n
  {
    if n == 0 then {0} else UpTo(n - 1) + {n}
  }

  function PathOf(i: nat): string
    requires i < 256
  {
    "/" + F.Sample(i).name
  }

  lemma PathParsed(i: nat)
    requires i < 256
    ensures Components(PathOf(i)) == [F.Sample(i).name] && Absolute(PathOf(i)) && C.Last(PathOf(i)) == F.Sample(i).name
  {
    var n := F.Sample(i).name;
    assert Proper(n);
    ParseSlashed(n, "");
    assert PathOf(i) == "/" + n + "";
  }

  lemma NotListed(n: nat)
    requires n <= 251
    ensures F.Sample(n).name !in ListingOf(F.Packed(Entries(n)))
  {
    hide Flat, F.Packed, F.Samples;
    var all, e := Entries(n), F.Sample(n);
    F.PackedShape(all);
    var flat := Flat(F.Packed(all).blocks);
    F.SamplesDistinct(ROOT, ROOT, n + 1);
    MoreSamples(n);
    assert (all + [e])[|all|] == e;
    forall k | 0 <= k < |flat| && flat[k].Some? ensures flat[k].value.name != e.name {
      F.PackedFlat(all, k);
      assert (all + [e])[k] == all[k];
    }
    assert e.name !in NamesOf(flat);
  }

  lemma MoreSamples(n: nat)
    requires n < 256
    ensures F.Dots(ROOT, ROOT) + F.Samples(n + 1) == F.Dots(ROOT, ROOT) + F.Samples(n) + [F.Sample(n)]
    ensures |F.Samples(n)| == n
  {
  }

  /** Where the next directory goes, and which inode it gets. */
  lemma NextPlace(n: nat, depth: map<nat, nat>)
    requires n <= 251 && DiskOk(Grown(n), depth)
    ensures Place(Grown(n), PathOf(n)) == Some(ROOT) && Lowest(Grown(n).used, 0) == Some(n + 1)
    ensures IsDir(Grown(n), ROOT) && DirAt(Grown(n), ROOT) == F.Packed(Entries(n)) && |F.Packed(Entries(n)).blocks| == BLOCKS
    ensures CanInsert(F.Packed(Entries(n))) <==> n <= 250
  {
    hide F.Packed, ListingOf, TreeOk, Components, F.Samples, NewDir, F.Sample, Stored, DirsOk, Entries, Search, PathOf, CanInsert, C.CanCreate;
    var k := Grown(n);
    var t := TreeOf(k);
    PathParsed(n);
    NotListed(n);
    F.PackedShape(Entries(n));
    RootOf(n);
    assert Front(t, ROOT, Components(PathOf(n))) == Some(ROOT);
    C.CanCreateMeans(t, depth, PathOf(n));
    NextRoom(n);
  }

  lemma RootOf(n: nat)
    requires n <= 251
    ensures var k := Grown(n);
            && IsDir(k, ROOT) && DirAt(k, ROOT) == F.Packed(Entries(n)) && Lowest(k.used, 0) == Some(n + 1)
            && ROOT in TreeOf(k).dirs && TreeOf(k).dirs[ROOT] == ListingOf(F.Packed(Entries(n)))
  {
    hide F.Packed, NewDir, ListingOf, Entries;
    var r := Lowest(UpTo(n), 0);
    assert n + 1 !in UpTo(n) && r.Some? && r.value > n;
  }

  lemma NextRoom(n: nat)
    requires n <= 251
    ensures |F.Packed(Entries(n)).blocks| == BLOCKS && (CanInsert(F.Packed(Entries(n))) <==> n <= 250)
  {
    hide F.Packed, CanInsert, F.Samples, F.Sample;
    F.PackedShape(Entries(n));
    MoreSamples(n);
    if n <= 250 {
      F.PackedInsert(Entries(n), F.Sample(n));
    } else {
      F.SamplesDistinct(ROOT, ROOT, n);
      F.LastAlone(Entries(n));
    }
  }

  lemma GrowStep(n: nat, depth: map<nat, nat>)
    requires n <= 250 && DiskOk(Grown(n), depth)
    ensures Mkdir(Grown(n), PathOf(n)) == Done(Grown(n + 1))
  {
    hide F.Packed, ListingOf, TreeOk, Components, F.Samples, Place, NewDir, CanInsert, Grown, Linked, Stored, DirsOk, TreeOf;
    NextPlace(n, depth);
    PathParsed(n);
    LinkedIsGrown(n);
  }

  lemma LinkedIsGrown(n: nat)
    requires n <= 250 && IsDir(Grown(n), ROOT) && DirAt(Grown(n), ROOT) == F.Packed(Entries(n)) && |F.Packed(Entries(n)).blocks| == BLOCKS
    ensures Linked(Grown(n), ROOT, F.Sample(n), Folder(NewDir(n + 1, ROOT))) == Grown(n + 1)
  {
    hide F.Packed, F.Samples, NewDir, Insert, CanInsert;
    MoreSamples(n);
    F.PackedInsert(Entries(n), F.Sample(n));
    var k' := Linked(Grown(n), ROOT, F.Sample(n), Folder(NewDir(n + 1, ROOT)));
    forall i: nat | i < INODES ensures k'.table[i] == SlotAt(n + 1, i) {
    }
    assert k'.table == Grown(n + 1).table;
    assert k'.used == Grown(n + 1).used;
  }

  function Ops(i: nat, n: nat): seq<InodeTrees.Op>
    requires i <= n <= 251
    decreases n - i
  {
    if i == n then [] else [InodeTrees.OpMkdir(PathOf(i))] + Ops(i + 1, n)
  }

  lemma {:induction false} GrowRun(i: nat, n: nat, depth: map<nat, nat>) returns (depth': map<nat, nat>)
    requires i <= n <= 251 && DiskOk(Grown(i), depth)
    ensures InodeTrees.Legal(Grown(i), Ops(i, n)) && InodeTrees.Exec(Grown(i), Ops(i, n)) == Grown(n) && DiskOk(Grown(n), depth')
    decreases n - i
  {
    hide Grown, PathOf, TreeOk, CanInsert, Place, Mkdir, F.Packed;
    depth' := depth;
    if i < n {
      var op := InodeTrees.OpMkdir(PathOf(i));
      GrowStep(i, depth);
      NextPlace(i, depth);
      assert Defined(Grown(i), op) && Perform(Grown(i), op) == Done(Grown(i + 1)) && InodeTrees.Apply(Grown(i), op) == Grown(i + 1);
      assert Sane(Grown(i), op);
      StepKeeps(Grown(i), depth, op);
      depth' :| DiskOk(Grown(i + 1), depth');
      assert Ops(i, n)[0] == op && Ops(i, n)[1..] == Ops(i + 1, n);
      depth' := GrowRun(i + 1, n, depth');
    }
  }

  lemma FormattedIsGrown()
    ensures Formatted() == Grown(0)
  {
    F.NewIsPacked(ROOT, ROOT);
    assert Entries(0) == F.Dots(ROOT, ROOT);
    assert Formatted().table == Grown(0).table;
    assert Formatted().used == Grown(0).used;
  }

  /** After 251 directories were made in the root the partition is good. The next sys_mkdir
  succeeds, and then some directory, whose .. names the root, is in no listing, and the
  partition is not good. */
  lemma RootOverflows() returns (run: seq<InodeTrees.Op>, path: string, x: nat)
    ensures |run| == 251 && InodeTrees.Legal(Formatted(), run)
    ensures var k := InodeTrees.Exec(Formatted(), run);
            && (exists depth :: DiskOk(k, depth)) && Stored(k) && DirsOk(k) && Mkdir(k, path).Done?
            && var k' := Mkdir(k, path).k; var t' := TreeOf(k');
               && (forall depth' :: !DiskOk(k', depth'))
               && x in t'.dirs && x != ROOT && Parent(t', x) == ROOT && forall d, m, y :: Holds(t', d, m, y) ==> y.ino != x
  {
    hide Grown, TreeOk, CanInsert, Place, F.Packed, PathOf, InodeTrees.Legal, InodeTrees.Exec, Linked, ListingOf;
    run, path := Ops(0, 251), PathOf(251);
    FormattedOk();
    FormattedIsGrown();
    var depth := GrowRun(0, 251, map[ROOT := 0]);
    OpsLength(0, 251);
    var k := Grown(251);
    NextPlace(251, depth);
    PathParsed(251);
    MkdirKeeps(k, depth, path);
    x := LostOne(depth);
  }

  lemma {:induction false} OpsLength(i: nat, n: nat)
    requires i <= n <= 251
    ensures |Ops(i, n)| == n - i
    decreases n - i
  {
    if i < n {
      OpsLength(i + 1, n);
    }
  }

  lemma LostOne(depth: map<nat, nat>) returns (x: nat)
    requires DiskOk(Grown(251), depth)
    ensures Mkdir(Grown(251), PathOf(251)).Done?
    ensures var t' := TreeOf(Mkdir(Grown(251), PathOf(251)).k);
            x in t'.dirs && x != ROOT && Parent(t', x) == ROOT && forall d, m, y :: Holds(t', d, m, y) ==> y.ino != x
  {
    hide TreeOk, CanInsert, Place, F.Packed, ListingOf, NewDir, Insert, DirOk, Components, Stored, DirsOk,
      F.Sample, Grown, TreeOf, Linked, PathOf, Entries, Holds, Parent;
    var k := Grown(251);
    NextPlace(251, depth);
    PathParsed(251);
    NotListed(251);
    OkParts(k, depth);
    DirIs(k, depth, ROOT);
    var e := Entry(F.Sample(251).name, 252, Directory);
    var body := Folder(NewDir(252, ROOT));
    assert Mkdir(k, PathOf(251)) == Done(Linked(k, ROOT, e, body));
    var l := Overfull(k, depth, ROOT, e, body);
    TreeLinked(k, ROOT, e, body);
    NoFiles();
    x := l.ino;
    UpIsRoot(x, e, depth);
  }

  lemma NoFiles()
    ensures TreeOf(Grown(251)).files == {}
  {
    hide F.Packed, NewDir;
  }

  lemma UpIsRoot(x: nat, e: Entry, depth: map<nat, nat>)
    requires DiskOk(Grown(251), depth) && e.ino == 252 && IsDir(Grown(251), ROOT) && |DirAt(Grown(251), ROOT).blocks| == BLOCKS
    requires x in TreeOf(Linked(Grown(251), ROOT, e, Folder(NewDir(252, ROOT)))).dirs && x != ROOT
    ensures Parent(TreeOf(Linked(Grown(251), ROOT, e, Folder(NewDir(252, ROOT)))), x) == ROOT
  {
    hide F.Packed, NewDir, Insert, ListingOf, TreeOk, Grown, TreeOf, Linked, DirsOk;
    GrownUsed(251);
    TreeLinked(Grown(251), ROOT, e, Folder(NewDir(252, ROOT)));
    ListingNew(x, ROOT);
    if x != 252 {
      GrownListing(251, x);
    }
  }

  lemma GrownUsed(n: nat)
    requires n <= 251
    ensures forall i: nat :: i in Grown(n).used <==> i <= n
  {
  }

  lemma GrownListing(n: nat, x: nat)
    requires n <= 251 && x in TreeOf(Grown(n)).dirs && x != ROOT
    ensures TreeOf(Grown(n)).dirs[x] == ListingOf(NewDir(x, ROOT))
  {
    hide F.Packed, NewDir, ListingOf;
  }
}
