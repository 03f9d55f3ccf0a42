/** sys_mkdir, sys_open with O_CREAT, sys_unlink and sys_rmdir (fs/fs.c) on what the partition
holds: the inode table, the inode bitmap, and directories made of blocks. */
module InodeTrees {
  import opened Basics
  import opened Directories
  import opened Paths
  import opened Trees
  import opened Listings
  import C = TreeChanges

  const INODES: nat := 4096

  /** What the sectors of an inode lead to. */
  datatype Body = Zero | File | Folder(d: Dir)

  /** An inode in the table, which carries its own number. */
  datatype Record = Record(no: nat, body: Body)

  /** The inode table and the inode bitmap. */
  datatype Disk = Disk(table: seq<Record>, used: set<nat>)

  /** A slot that was cleared or never written. */
  const BLANK: Record := Record(0, Zero)

  /** A failing ASSERT; -1; a loop that does not end; or the new state. */
  datatype Outcome = Stops | Fails | Loops | Done(k: Disk)

  /** inode_sync keeps the low eight bits of the inode number. */
  function Sync(k: Disk, no: nat, body: Body): Disk
    requires |k.table| == INODES
  {
    k.(table := k.table[no % 256 := Record(no, body)])
  }

  predicate IsDir(k: Disk, n: nat) {
    n in k.used && n < |k.table| && k.table[n].no == n && k.table[n].body.Folder?
  }

  function DirAt(k: Disk, n: nat): Dir
    requires IsDir(k, n)
  {
    k.table[n].body.d
  }

  /** The tree that a search sees. */
  ghost function TreeOf(k: Disk): Tree {
    Tree(map n | n in k.used && IsDir(k, n) :: ListingOf(DirAt(k, n)),
         set n | n in k.used && n < |k.table| && k.table[n].no == n && k.table[n].body.File?)
  }

  // ---------------------------------------------------------------------------
  // Good states
  // ---------------------------------------------------------------------------

  /** Every inode in use is in its own slot of the table, and the other slots are blank. */
  ghost predicate Stored(k: Disk) {
    && |k.table| == INODES && (forall n :: n in k.used ==> n < INODES)
    && (forall n: nat :: n < INODES ==> if n in k.used then k.table[n].no == n && k.table[n].body != Zero else k.table[n] == BLANK)
    && (forall n :: 256 <= n < INODES ==> k.table[n] == BLANK)
  }

  ghost predicate DirsOk(k: Disk) {
    forall n :: IsDir(k, n) ==> DirOk(DirAt(k, n))
  }

  ghost predicate DiskOk(k: Disk, depth: map<nat, nat>) {
    Stored(k) && DirsOk(k) && TreeOk(TreeOf(k), depth)
  }

  // ---------------------------------------------------------------------------
  // Creating
  // ---------------------------------------------------------------------------

  /** inode_bitmap_alloc: the lowest free inode; bitmap_scan's ASSERT fails without one. */
  function Lowest(used: set<nat>, n: nat): (r: Option<nat>)
    requires n <= INODES
    ensures r.Some? ==> n <= r.value < INODES && r.value !in used && forall i :: n <= i < r.value ==> i in used
    ensures r == None ==> forall i :: n <= i < INODES ==> i in used
    decreases INODES - n
  {
    if n == INODES then None else if n !in used then Some(n) else Lowest(used, n + 1)
  }

  /** The entry goes to the parent, whose inode is synced; then the new inode is. */
  function Linked(k: Disk, p: nat, e: Entry, body: Body): Disk
    requires |k.table| == INODES && IsDir(k, p) && |DirAt(k, p).blocks| == BLOCKS
  {
    var k1 := Sync(k, p, Folder(Insert(DirAt(k, p), e)));
    Sync(k1, e.ino, body).(used := k.used + {e.ino})
  }

  /** The directory a new name goes to, if it can be created. */
  ghost function Place(k: Disk, path: string): Option<nat> {
    var t := TreeOf(k);
    if C.CanCreate(t, path) && Components(path) != [] && Search(t, path).parent in t.dirs then Some(Search(t, path).parent)
    else None
  }

  ghost function Made(k: Disk, path: string, dir: bool): Outcome
    requires Stored(k) && DirsOk(k)
  {
    match Place(k, path)
    case None => Fails
    case Some(p) =>
      assert IsDir(k, p) && DirOk(DirAt(k, p));
      match Lowest(k.used, 0)
      case None => Stops
      case Some(ino) =>
        Done(if dir then Linked(k, p, Entry(C.Last(path), ino, Directory), Folder(NewDir(ino, p)))
             else Linked(k, p, Entry(C.Last(path), ino, Regular), File))
  }

  /** sys_mkdir */
  ghost function Mkdir(k: Disk, path: string): Outcome
    requires Stored(k) && DirsOk(k)
  {
    Made(k, path, true)
  }

  /** sys_open with O_CREAT, and file_create */
  ghost function Create(k: Disk, path: string): Outcome
    requires Stored(k) && DirsOk(k)
  {
    if C.EndsInSlash(path) then Fails else Made(k, path, false)
  }

  /** What is added: an entry for the lowest free inode, and a new directory or file. */
  function NewEntry(path: string, ino: nat, dir: bool): Entry
    requires Components(path) != []
  {
    Entry(C.Last(path), ino, if dir then Directory else Regular)
  }

  function NewBody(ino: nat, p: nat, dir: bool): Body {
    if dir then Folder(NewDir(ino, p)) else File
  }

  lemma OkParts(k: Disk, depth: map<nat, nat>)
    requires DiskOk(k, depth)
    ensures |k.table| == INODES && ROOT in TreeOf(k).dirs
  {
  }

  lemma PlaceIs(k: Disk, depth: map<nat, nat>, path: string)
    requires DiskOk(k, depth)
    ensures Place(k, path).Some? <==> C.CanCreate(TreeOf(k), path)
    ensures Place(k, path).Some? ==>
              var t, p := TreeOf(k), Place(k, path).value;
              && IsDir(k, p) && DirOk(DirAt(k, p)) && Components(path) != [] && p in t.dirs && t.dirs[p] == ListingOf(DirAt(k, p))
              && C.Last(path) !in t.dirs[p] && Proper(C.Last(path)) && !IsDot(C.Last(path))
              && p == Search(t, path).parent
  {
    hide TreeOk, Search, Components, ListingOf, DirOk;
    if C.CanCreate(TreeOf(k), path) {
      C.CreatePlace(TreeOf(k), depth, path);
    }
  }

  /** The tree after linking a new inode into a directory. */
  lemma TreeLinked(k: Disk, p: nat, e: Entry, body: Body)
    requires Stored(k) && IsDir(k, p) && |DirAt(k, p).blocks| == BLOCKS && e.ino < 256 && e.ino !in k.used && body != Zero
    ensures var t, t', l := TreeOf(k), TreeOf(Linked(k, p, e, body)), ListingOf(Insert(DirAt(k, p), e));
            && t'.dirs == (if body.Folder? then t.dirs[p := l][e.ino := ListingOf(body.d)] else t.dirs[p := l])
            && t'.files == if body.File? then t.files + {e.ino} else t.files
  {
    hide ListingOf, Insert;
    var k' := Linked(k, p, e, body);
    assert p < 256 && p != e.ino;
    forall n: nat | n < INODES && n != p && n != e.ino ensures k'.table[n] == k.table[n] {
    }
  }

  lemma FreshEntry(k: Disk, depth: map<nat, nat>, p: nat, e: Entry)
    requires DiskOk(k, depth) && IsDir(k, p) && e.name !in ListingOf(DirAt(k, p)) && Proper(e.name) && !IsDot(e.name) && e.ino !in k.used
    ensures DirOk(DirAt(k, p)) && Fresh(Flat(DirAt(k, p).blocks), e)
  {
    hide Flat, Live, EntriesOf, Rooted, FilesPlaced, OnePlace;
    var d, t := DirAt(k, p), TreeOf(k);
    DirMaps(d);
    var flat := Flat(d.blocks);
    forall x | 0 <= x < |flat| && flat[x].Some?
      ensures flat[x].value.name != e.name && (IsFile(flat[x]) ==> flat[x].value.ino != e.ino)
    {
      var y := flat[x].value;
      assert y.name in EntriesOf(flat) && EntriesOf(flat)[y.name] == y;
      assert y.name in t.dirs[p] && t.dirs[p][y.name] == LinkOf(y);
      if !IsDot(y.name) {
        assert Holds(t, p, y.name, LinkOf(y));
      }
    }
  }

  /** Below inode 256 and in a directory with room, the tree changes as it should. */
  lemma LinkedIs(k: Disk, depth: map<nat, nat>, path: string, ino: nat, dir: bool)
    requires DiskOk(k, depth) && Place(k, path).Some? && ino !in k.used && ino < 256 && Components(path) != []
    requires IsDir(k, Place(k, path).value) && |DirAt(k, Place(k, path).value).blocks| == BLOCKS
    requires CanInsert(DirAt(k, Place(k, path).value))
    ensures var p := Place(k, path).value; var k' := Linked(k, p, NewEntry(path, ino, dir), NewBody(ino, p, dir));
            && p in TreeOf(k).dirs && Stored(k') && DirsOk(k')
            && TreeOf(k') == if dir then C.WithDir(TreeOf(k), p, C.Last(path), ino) else C.WithFile(TreeOf(k), p, C.Last(path), ino)
  {
    hide ListingOf, Insert, TreeOk, Search, Components, CanInsert, DirOk, Flat, NewDir, Place;
    PlaceIs(k, depth, path);
    var p := Place(k, path).value;
    var e := NewEntry(path, ino, dir);
    var d := DirAt(k, p);
    TreeLinked(k, p, e, NewBody(ino, p, dir));
    ListingInsert(d, e);
    ListingNew(ino, p);
    FreshEntry(k, depth, p, e);
    InsertKeeps(d, e);
    NewDirOk(ino, p);
    LinkedStored(k, p, e, NewBody(ino, p, dir));
  }

  lemma LinkedStored(k: Disk, p: nat, e: Entry, body: Body)
    requires Stored(k) && DirsOk(k) && IsDir(k, p) && |DirAt(k, p).blocks| == BLOCKS && e.ino < 256 && e.ino !in k.used && body != Zero
    requires DirOk(Insert(DirAt(k, p), e)) && (body.Folder? ==> DirOk(body.d))
    ensures var k' := Linked(k, p, e, body); Stored(k') && DirsOk(k')
  {
    hide Insert, DirOk;
    var k' := Linked(k, p, e, body);
    assert p < 256 && p != e.ino;
    forall n: nat | n < INODES && n != p && n != e.ino ensures k'.table[n] == k.table[n] {
    }
    forall n | IsDir(k', n) ensures DirOk(DirAt(k', n)) {
      assert n != p && n != e.ino ==> IsDir(k, n) && DirAt(k', n) == DirAt(k, n);
    }
  }

  /** From inode 256 on, the new inode is not where it is looked for. */
  lemma TooHigh(k: Disk, p: nat, e: Entry, body: Body)
    requires Stored(k) && IsDir(k, p) && |DirAt(k, p).blocks| == BLOCKS && 256 <= e.ino < INODES
    ensures !Stored(Linked(k, p, e, body))
  {
    hide Insert;
    var k' := Linked(k, p, e, body);
    assert p < 256;
    assert k'.table[e.ino] == BLANK && e.ino in k'.used;
  }

  /** In a full directory with an indirect table, an inode that was listed no longer is. */
  lemma Overfull(k: Disk, depth: map<nat, nat>, p: nat, e: Entry, body: Body) returns (x: Link)
    requires DiskOk(k, depth) && IsDir(k, p) && DirOk(DirAt(k, p)) && !CanInsert(DirAt(k, p))
    requires e.name !in ListingOf(DirAt(k, p)) && e.ino !in k.used && e.ino < 256
    requires body == NewBody(e.ino, p, e.kind == Directory)
    ensures var t' := TreeOf(Linked(k, p, e, body));
            && (if x.dir then x.ino in t'.dirs && x.ino != ROOT else x.ino in t'.files)
            && forall d, m, y :: Holds(t', d, m, y) ==> y.ino != x.ino
  {
    hide ListingOf, Insert, NewDir, FilesPlaced, Dots, DirOk, CanInsert;
    DirMaps(DirAt(k, p));
    var t, t' := TreeOf(k), TreeOf(Linked(k, p, e, body));
    var n := ListingLoses(DirAt(k, p), e);
    TreeLinked(k, p, e, body);
    ListingNew(e.ino, p);
    assert t.dirs[p] == ListingOf(DirAt(k, p));
    x := t.dirs[p][n];
    assert Holds(t, p, n, x);
    assert x.ino in k.used && x.ino != e.ino;
    forall d, m, y | Holds(t', d, m, y) ensures y.ino != x.ino {
      if d == p && m != e.name {
        assert Holds(t, p, m, y);
      } else if d != p {
        assert d != e.ino ==> Holds(t, d, m, y);
      }
    }
  }

  lemma NoTree(t: Tree, x: Link, depth: map<nat, nat>)
    requires if x.dir then x.ino in t.dirs && x.ino != ROOT else x.ino in t.files
    requires forall d, m, y :: Holds(t, d, m, y) ==> y.ino != x.ino
    ensures !TreeOk(t, depth)
  {
  }

  lemma MadeKeeps(k: Disk, depth: map<nat, nat>, path: string, dir: bool)
    requires DiskOk(k, depth)
    ensures Made(k, path, dir) == Fails <==> !C.CanCreate(TreeOf(k), path)
    ensures Made(k, path, dir) == Stops <==> C.CanCreate(TreeOf(k), path) && Lowest(k.used, 0) == None
    ensures Made(k, path, dir) != Loops
    ensures Made(k, path, dir).Done? ==> Kept(k, depth, path, dir, Made(k, path, dir).k)
  {
    hide TreeOk, Stored, DirsOk, Place, Linked, DirOk, Lowest;
    PlaceIs(k, depth, path);
    if Made(k, path, dir).Done? {
      DoneKept(k, depth, path, dir);
    }
  }

  /** The condition under which creating keeps the tree, and what the new tree is. */
  ghost predicate Kept(k: Disk, depth: map<nat, nat>, path: string, dir: bool, k': Disk) {
    var t := TreeOf(k);
    && Place(k, path).Some? && Lowest(k.used, 0).Some? && Components(path) != []
    && var p, ino := Place(k, path).value, Lowest(k.used, 0).value;
       && IsDir(k, p) && |DirAt(k, p).blocks| == BLOCKS && p in t.dirs
       && ((exists depth' :: DiskOk(k', depth')) <==> CanInsert(DirAt(k, p)) && ino < 256)
       && (CanInsert(DirAt(k, p)) && ino < 256 ==>
             TreeOf(k') == if dir then C.WithDir(t, p, C.Last(path), ino) else C.WithFile(t, p, C.Last(path), ino))
  }

  lemma DoneKept(k: Disk, depth: map<nat, nat>, path: string, dir: bool)
    requires DiskOk(k, depth) && Made(k, path, dir).Done?
    ensures Kept(k, depth, path, dir, Made(k, path, dir).k)
  {
    hide Place, Linked, DirOk, TreeOk, ListingOf, CanInsert, Components, Search, Stored, DirsOk, NewDir;
    PlaceIs(k, depth, path);
    OkParts(k, depth);
    var p, ino := Place(k, path).value, Lowest(k.used, 0).value;
    var e, body := NewEntry(path, ino, dir), NewBody(ino, p, dir);
    DirMaps(DirAt(k, p));
    var k' := Linked(k, p, e, body);
    if ino >= 256 {
      TooHigh(k, p, e, body);
    } else if CanInsert(DirAt(k, p)) {
      LinkedIs(k, depth, path, ino, dir);
      UnusedInode(k, ino);
      if dir {
        C.WithDirOk(TreeOf(k), depth, p, C.Last(path), ino);
        assert DiskOk(k', depth[ino := depth[p] + 1]);
      } else {
        C.WithFileOk(TreeOf(k), depth, p, C.Last(path), ino);
        assert DiskOk(k', depth);
      }
    } else {
      var x := Overfull(k, depth, p, e, body);
      forall depth' ensures !DiskOk(k', depth') {
        NoTree(TreeOf(k'), x, depth');
      }
    }
  }

  lemma UnusedInode(k: Disk, ino: nat)
    requires Stored(k) && ino !in k.used && ROOT in TreeOf(k).dirs
    ensures C.Unused(TreeOf(k), ino)
  {
  }

  /** sys_mkdir finds its place exactly when the parent exists and lacks the name. It then
  leaves a good partition, with the new directory as the only change to the tree, if and
  only if the parent can take one more entry and the lowest free inode is below 256. */
  lemma MkdirKeeps(k: Disk, depth: map<nat, nat>, path: string)
    requires DiskOk(k, depth)
    ensures Mkdir(k, path) == Fails <==> !C.CanCreate(TreeOf(k), path)
    ensures Mkdir(k, path) == Stops <==> C.CanCreate(TreeOf(k), path) && Lowest(k.used, 0) == None
    ensures Mkdir(k, path).Done? ==>
              var t, k' := TreeOf(k), Mkdir(k, path).k;
              && Place(k, path).Some? && Lowest(k.used, 0).Some? && Components(path) != []
              && var p, ino := Place(k, path).value, Lowest(k.used, 0).value;
                 && IsDir(k, p) && |DirAt(k, p).blocks| == BLOCKS && p in t.dirs
                 && ((exists depth' :: DiskOk(k', depth')) <==> CanInsert(DirAt(k, p)) && ino < 256)
                 && (CanInsert(DirAt(k, p)) && ino < 256 ==> TreeOf(k') == C.WithDir(t, p, C.Last(path), ino))
  {
    hide DiskOk, Place, Made, CanInsert;
    MadeKeeps(k, depth, path, true);
  }

  /** sys_open with O_CREAT likewise, for paths that do not end in a slash. */
  lemma CreateKeeps(k: Disk, depth: map<nat, nat>, path: string)
    requires DiskOk(k, depth)
    ensures Create(k, path) == Fails <==> !C.CanCreate(TreeOf(k), path) || C.EndsInSlash(path)
    ensures Create(k, path) == Stops <==> C.CanCreate(TreeOf(k), path) && !C.EndsInSlash(path) && Lowest(k.used, 0) == None
    ensures Create(k, path).Done? ==>
              var t, k' := TreeOf(k), Create(k, path).k;
              && Place(k, path).Some? && Lowest(k.used, 0).Some? && Components(path) != []
              && var p, ino := Place(k, path).value, Lowest(k.used, 0).value;
                 && IsDir(k, p) && |DirAt(k, p).blocks| == BLOCKS && p in t.dirs
                 && ((exists depth' :: DiskOk(k', depth')) <==> CanInsert(DirAt(k, p)) && ino < 256)
                 && (CanInsert(DirAt(k, p)) && ino < 256 ==> TreeOf(k') == C.WithFile(t, p, C.Last(path), ino))
  {
    hide DiskOk, Place, Made, CanInsert;
    MadeKeeps(k, depth, path, false);
  }

  // ---------------------------------------------------------------------------
  // Removing
  // ---------------------------------------------------------------------------

  /** inode_release: an ASSERT that the inode is in its slot; then the slot and the bit of
  the inode are cleared. */
  function Released(k: Disk, ino: nat): Outcome
    requires ino < |k.table|
  {
    if k.table[ino].no != ino then Stops else Done(Disk(k.table[ino := BLANK], k.used - {ino}))
  }

  /** delete_dir_entry in directory `p`, which syncs its inode, and inode_release. */
  ghost function Removed(k: Disk, p: nat, ino: nat): Outcome
    requires |k.table| == INODES && ino < INODES && IsDir(k, p) && DirOk(DirAt(k, p))
  {
    NotEmpty(DirAt(k, p));
    match Delete(DirAt(k, p), ino)
    case Hangs => Loops
    case NotFound => Released(k, ino)
    case Gone(d) => Released(Sync(k, p, Folder(d)), ino)
  }

  /** sys_unlink; `open_` are the inodes of open files. */
  ghost function Unlink(k: Disk, path: string, open_: set<nat>): Outcome
    requires Stored(k) && DirsOk(k) && Search(TreeOf(k), path) != Unset
  {
    var t := TreeOf(k);
    match Search(t, path)
    case Missing(_, _) => Fails
    case At(x, p) =>
      if x.ino == ROOT then Stops
      else if x.dir || x.ino in open_ || p !in t.dirs || x.ino >= INODES then Fails
      else Removed(k, p, x.ino)
  }

  /** dir_remove's ASSERTs on the sectors of an empty directory. */
  predicate OneBlock(d: Dir) {
    |d.blocks| == BLOCKS && !d.table && forall i :: 1 <= i < DIRECT ==> d.blocks[i].None?
  }

  /** sys_rmdir and dir_remove */
  ghost function Rmdir(k: Disk, path: string): Outcome
    requires Stored(k) && DirsOk(k) && Search(TreeOf(k), path) != Unset
  {
    var t := TreeOf(k);
    match Search(t, path)
    case Missing(_, _) => Fails
    case At(x, p) =>
      if x.ino == ROOT then Stops
      else if !x.dir || !IsDir(k, x.ino) || p !in t.dirs || !IsEmptyDir(DirAt(k, x.ino)) then Fails
      else if !OneBlock(DirAt(k, x.ino)) then Stops
      else Removed(k, p, x.ino)
  }

  lemma DirIs(k: Disk, depth: map<nat, nat>, p: nat)
    requires DiskOk(k, depth) && p in TreeOf(k).dirs
    ensures |k.table| == INODES && IsDir(k, p) && p < 256 && DirOk(DirAt(k, p)) && |DirAt(k, p).blocks| == BLOCKS
    ensures TreeOf(k).dirs[p] == ListingOf(DirAt(k, p))
  {
    hide TreeOk, ListingOf;
  }

  /** The tree after an entry and its inode are gone. */
  lemma TreeRemoved(k: Disk, p: nat, d: Dir, ino: nat)
    requires Stored(k) && IsDir(k, p) && p < 256 && ino in k.used
    ensures ino < INODES && Released(Sync(k, p, Folder(d)), ino).Done?
    ensures p != ino ==>
              var t, t' := TreeOf(k), TreeOf(Released(Sync(k, p, Folder(d)), ino).k);
              t'.dirs == t.dirs[p := ListingOf(d)] - {ino} && t'.files == t.files - {ino}
  {
    hide ListingOf;
    var k1 := Sync(k, p, Folder(d));
    forall n: nat | n < INODES && n != p ensures k1.table[n] == k.table[n] {
    }
  }

  lemma RemovedStored(k: Disk, p: nat, d: Dir, ino: nat)
    requires Stored(k) && DirsOk(k) && IsDir(k, p) && p < 256 && ino in k.used && DirOk(d) && p != ino
    ensures ino < INODES && Released(Sync(k, p, Folder(d)), ino).Done?
    ensures var k' := Released(Sync(k, p, Folder(d)), ino).k; Stored(k') && DirsOk(k')
  {
    hide DirOk;
    TreeRemoved(k, p, d, ino);
    var k' := Released(Sync(k, p, Folder(d)), ino).k;
    forall n: nat | n < INODES && n != p && n != ino ensures k'.table[n] == k.table[n] {
    }
    forall n | IsDir(k', n) ensures DirOk(DirAt(k', n)) {
      assert n != p && n != ino ==> IsDir(k, n) && DirAt(k', n) == DirAt(k, n);
    }
  }

  /** Removing an entry that is there: it never ends exactly if the entry is alone in an
  indirect block; else one link goes, and its inode. */
  lemma RemovedIs(k: Disk, depth: map<nat, nat>, p: nat, n: string, x: Link)
    requires DiskOk(k, depth) && Holds(TreeOf(k), p, n, x)
    ensures |k.table| == INODES && x.ino < INODES && IsDir(k, p) && DirOk(DirAt(k, p)) && |DirAt(k, p).blocks| == BLOCKS
    ensures Removed(k, p, x.ino) == Loops <==> AloneBehind(DirAt(k, p), x.ino)
    ensures !AloneBehind(DirAt(k, p), x.ino) ==>
              && Removed(k, p, x.ino).Done?
              && var t, k' := TreeOf(k), Removed(k, p, x.ino).k;
                 && p in t.dirs && Stored(k') && DirsOk(k')
                 && TreeOf(k').dirs == C.DropLink(t, p, x.ino).dirs - {x.ino} && TreeOf(k').files == t.files - {x.ino}
  {
    hide ListingOf, Delete, DirOk, Flat, Maps, OnePlace, FilesPlaced, DirsOk, EntriesOf;
    var t := TreeOf(k);
    DirIs(k, depth, p);
    var d := DirAt(k, p);
    ListingDelete(d, x.ino);
    DirMaps(d);
    DeleteIsMapRemoval(d, x.ino, EntriesOf(Flat(d.blocks)));
    assert n in ListingOf(d) && n !in Dropped(ListingOf(d), x.ino);
    assert x.ino in k.used && x.ino != p by {
      NotItself(t, depth, p, n, x);
    }
    DeleteKeeps(d, x.ino);
    if Delete(d, x.ino).Gone? {
      TreeRemoved(k, p, Delete(d, x.ino).d, x.ino);
      RemovedStored(k, p, Delete(d, x.ino).d, x.ino);
    }
  }

  lemma NotItself(t: Tree, depth: map<nat, nat>, p: nat, n: string, x: Link)
    requires TreeOk(t, depth) && Holds(t, p, n, x)
    ensures x.ino != p && (x.ino in t.dirs || x.ino in t.files)
  {
  }

  /** sys_unlink removes the file the search ended at, its entry and its inode, and nothing
  else; it never ends if and only if that file is alone in an indirect block. */
  lemma UnlinkKeeps(k: Disk, depth: map<nat, nat>, path: string, open_: set<nat>)
    requires DiskOk(k, depth) && Search(TreeOf(k), path) != Unset
    ensures Unlink(k, path, open_) == Stops <==> Search(TreeOf(k), path).At? && Search(TreeOf(k), path).link.ino == ROOT
    ensures Unlink(k, path, open_).Done? || Unlink(k, path, open_) == Loops <==>
              && Search(TreeOf(k), path).At? && !Search(TreeOf(k), path).link.dir && Search(TreeOf(k), path).link.ino !in open_
    ensures Unlink(k, path, open_).Done? || Unlink(k, path, open_) == Loops ==>
              var At(x, p) := Search(TreeOf(k), path);
              && IsDir(k, p) && |DirAt(k, p).blocks| == BLOCKS
              && (Unlink(k, path, open_) == Loops <==> AloneBehind(DirAt(k, p), x.ino))
    ensures Unlink(k, path, open_).Done? ==>
              && DiskOk(Unlink(k, path, open_).k, depth)
              && C.Unlink(TreeOf(k), path, open_) == C.Done(TreeOf(Unlink(k, path, open_).k))
  {
    hide TreeOk, Stored, DirsOk, Removed, DirOk, AloneBehind, C.DropLink;
    var t := TreeOf(k);
    C.UnlinkKeeps(t, depth, path, open_);
    if Search(t, path).At? {
      var At(x, p) := Search(t, path);
      C.UnlinkFound(t, depth, path);
      if !x.dir && x.ino !in open_ {
        var n :| Holds(t, p, n, x);
        RemovedIs(k, depth, p, n, x);
        NotItself(t, depth, p, n, x);
        FileStays(t, depth, p, n, x);
      }
    }
  }

  lemma FileStays(t: Tree, depth: map<nat, nat>, p: nat, n: string, x: Link)
    requires TreeOk(t, depth) && Holds(t, p, n, x) && !x.dir
    ensures C.DropLink(t, p, x.ino).dirs - {x.ino} == C.DropLink(t, p, x.ino).dirs && C.DropLink(t, p, x.ino).files == t.files
  {
    assert x.ino !in t.dirs;
  }

  /** sys_rmdir removes exactly empty directories, and dir_remove's ASSERTs hold. It never
  ends if and only if the entry is alone in an indirect block; otherwise it leaves a good
  partition with one link less if and only if the path does not end in a dot. */
  lemma RmdirKeeps(k: Disk, depth: map<nat, nat>, path: string)
    requires DiskOk(k, depth) && Search(TreeOf(k), path) != Unset
    ensures Rmdir(k, path) == Stops <==> Search(TreeOf(k), path).At? && Search(TreeOf(k), path).link.ino == ROOT
    ensures Rmdir(k, path).Done? || Rmdir(k, path) == Loops <==>
              && Search(TreeOf(k), path).At? && Search(TreeOf(k), path).link.dir && Search(TreeOf(k), path).link.ino != ROOT
              && Search(TreeOf(k), path).link.ino in TreeOf(k).dirs && C.IsEmpty(TreeOf(k).dirs[Search(TreeOf(k), path).link.ino])
    ensures Rmdir(k, path).Done? || Rmdir(k, path) == Loops ==>
              var At(x, p) := Search(TreeOf(k), path);
              && Components(path) != [] && IsDir(k, p) && |DirAt(k, p).blocks| == BLOCKS
              && (Rmdir(k, path) == Loops <==> C.Last(path) != "." && AloneBehind(DirAt(k, p), x.ino))
    ensures Rmdir(k, path).Done? ==>
              var t, k', x := TreeOf(k), Rmdir(k, path).k, Search(TreeOf(k), path).link;
              && ((exists depth' :: DiskOk(k', depth')) <==> C.Last(path) != ".")
              && (C.Last(path) != "." ==> C.Rmdir(t, path) == C.Done(TreeOf(k')) && DiskOk(k', depth - {x.ino}))
  {
    hide TreeOk, Stored, DirsOk, Removed, DirOk, AloneBehind, C.DropLink, ListingOf, Search, C.Rmdir, C.IsEmpty, Components;
    var t := TreeOf(k);
    C.RmdirKeeps(t, depth, path);
    if Search(t, path).At? {
      var At(x, p) := Search(t, path);
      C.UnlinkFound(t, depth, path);
      if x.dir && x.ino != ROOT && x.ino in t.dirs {
        DirIs(k, depth, x.ino);
        ListingEmpty(DirAt(k, x.ino));
        if C.IsEmpty(t.dirs[x.ino]) {
          EmptyHasOneBlock(DirAt(k, x.ino));
          EmptyRemoved(k, depth, path);
        }
      } else if x.dir && x.ino != ROOT {
        C.RmdirFound(t, depth, path);
      }
    }
  }

  /** What dir_remove does to an empty directory that was found. */
  lemma EmptyRemoved(k: Disk, depth: map<nat, nat>, path: string)
    requires DiskOk(k, depth) && Search(TreeOf(k), path).At? && Search(TreeOf(k), path).link.dir
    requires Search(TreeOf(k), path).link.ino != ROOT && Search(TreeOf(k), path).link.ino in TreeOf(k).dirs
    requires C.IsEmpty(TreeOf(k).dirs[Search(TreeOf(k), path).link.ino])
    ensures var At(x, p) := Search(TreeOf(k), path);
            && Components(path) != [] && |k.table| == INODES && x.ino < INODES && p in TreeOf(k).dirs
            && IsDir(k, p) && DirOk(DirAt(k, p)) && |DirAt(k, p).blocks| == BLOCKS
            && (Removed(k, p, x.ino) == Loops <==> C.Last(path) != "." && AloneBehind(DirAt(k, p), x.ino))
            && (Removed(k, p, x.ino) != Loops ==> Removed(k, p, x.ino).Done?)
            && (Removed(k, p, x.ino).Done? ==>
                  var t, k' := TreeOf(k), Removed(k, p, x.ino).k;
                  && ((exists depth' :: DiskOk(k', depth')) <==> C.Last(path) != ".")
                  && (C.Last(path) != "." ==> C.Rmdir(t, path) == C.Done(TreeOf(k')) && DiskOk(k', depth - {x.ino})))
  {
    hide TreeOk, Stored, DirsOk, Removed, DirOk, AloneBehind, C.DropLink, ListingOf, Search, C.IsEmpty, Components;
    var t := TreeOf(k);
    var At(x, p) := Search(t, path);
    C.RmdirFound(t, depth, path);
    C.RmdirKeeps(t, depth, path);
    DirIs(k, depth, p);
    DirIs(k, depth, x.ino);
    if C.Last(path) == "." {
      DotRemoved(k, depth, x.ino);
      forall depth' ensures !DiskOk(Removed(k, p, x.ino).k, depth') {
        C.RmdirDotDangles(t, depth, x.ino, depth');
      }
    } else {
      C.NotUpward(t, depth, path);
      RemovedIs(k, depth, p, C.Last(path), x);
      if Removed(k, p, x.ino).Done? {
        assert C.Rmdir(t, path) == C.Done(TreeOf(Removed(k, p, x.ino).k)) by {
          SameFiles(t, depth, p, C.Last(path), x);
        }
        assert DiskOk(Removed(k, p, x.ino).k, depth - {x.ino});
      }
    }
  }

  lemma SameFiles(t: Tree, depth: map<nat, nat>, p: nat, n: string, x: Link)
    requires TreeOk(t, depth) && Holds(t, p, n, x) && x.dir
    ensures t.files - {x.ino} == t.files && C.DropLink(t, p, x.ino).files == t.files
  {
    assert x.ino in t.dirs;
  }

  /** A path that ends in a dot makes dir_remove look for the directory in itself: nothing
  is found there, and the inode is released all the same. */
  lemma DotRemoved(k: Disk, depth: map<nat, nat>, d: nat)
    requires DiskOk(k, depth) && d in TreeOf(k).dirs && d != ROOT && C.IsEmpty(TreeOf(k).dirs[d])
    ensures |k.table| == INODES && d < INODES && IsDir(k, d) && DirOk(DirAt(k, d))
    ensures Removed(k, d, d).Done?
    ensures var t1 := C.DropLink(TreeOf(k), d, d); TreeOf(Removed(k, d, d).k) == t1.(dirs := t1.dirs - {d})
  {
    hide TreeOk, DirOk, ListingOf, Delete;
    var t := TreeOf(k);
    DirIs(k, depth, d);
    ListingDelete(DirAt(k, d), d);
    assert Dropped(t.dirs[d], d) == t.dirs[d];
    assert C.DropLink(t, d, d) == t;
    assert TreeOf(Removed(k, d, d).k).dirs == t.dirs - {d};
  }

  // ---------------------------------------------------------------------------
  // sys_rmdir undoes sys_mkdir
  // ---------------------------------------------------------------------------

  lemma FindNew(t: Tree, depth: map<nat, nat>, path: string, ino: nat)
    requires TreeOk(t, depth) && C.Unused(t, ino) && C.CanCreate(t, path)
    ensures Components(path) != [] && Search(t, path).parent in t.dirs
    ensures var p := Search(t, path).parent;
            Search(C.WithDir(t, p, C.Last(path), ino), path) == At(Link(ino, true), p)
  {
    hide TreeOk, Lookup, Components;
    C.CreatePlace(t, depth, path);
    C.LookupNew(t, Search(t, path).parent, ino, ROOT, Components(path), 0);
  }

  /** Taking back what was linked: the same table and the same bitmap. */
  lemma UnlinkedAgain(k: Disk, p: nat, e: Entry, body: Body)
    requires Stored(k) && IsDir(k, p) && |DirAt(k, p).blocks| == BLOCKS && e.ino < 256 && e.ino !in k.used
    ensures var k' := Linked(k, p, e, body);
            && IsDir(k', p) && DirAt(k', p) == Insert(DirAt(k, p), e)
            && Released(Sync(k', p, Folder(DirAt(k, p))), e.ino) == Done(k)
  {
    hide Insert;
    var k' := Linked(k, p, e, body);
    assert p < 256 && p != e.ino;
    assert e.ino % 256 == e.ino && p % 256 == p;
    var k1 := Released(Sync(k', p, Folder(DirAt(k, p))), e.ino).k;
    assert k1.table == k.table;
    assert k1.used == k.used;
  }

  /** Removing a directory that was just made gives back the partition as it was if and only
  if its entry is in a direct block of the parent; if not, it never ends. */
  lemma RmdirUndoesMkdir(k: Disk, depth: map<nat, nat>, path: string)
    requires DiskOk(k, depth) && Mkdir(k, path).Done? && exists depth' :: DiskOk(Mkdir(k, path).k, depth')
    ensures var k' := Mkdir(k, path).k;
            && Stored(k') && DirsOk(k') && Search(TreeOf(k'), path) != Unset
            && Place(k, path).Some? && IsDir(k, Place(k, path).value) && |DirAt(k, Place(k, path).value).blocks| == BLOCKS
            && Rmdir(k', path) == if Room(DirAt(k, Place(k, path).value).blocks, 0) < DIRECT then Done(k) else Loops
  {
    hide TreeOk, DirOk, ListingOf, CanInsert, Components, Search, DirsOk, NewDir, Room, Flat, Delete, Insert, Place, Linked, C.CanCreate, Stored;
    var t := TreeOf(k);
    MkdirKeeps(k, depth, path);
    PlaceIs(k, depth, path);
    OkParts(k, depth);
    var p, ino := Place(k, path).value, Lowest(k.used, 0).value;
    var e, body := NewEntry(path, ino, true), NewBody(ino, p, true);
    var k' := Linked(k, p, e, body);
    UnusedInode(k, ino);
    FindNew(t, depth, path, ino);
    FreshEntry(k, depth, p, e);
    DeleteUndoesInsert(DirAt(k, p), e);
    UnlinkedAgain(k, p, e, body);
    NewMade(k, p, e, ino);
  }

  lemma NewMade(k: Disk, p: nat, e: Entry, ino: nat)
    requires Stored(k) && IsDir(k, p) && |DirAt(k, p).blocks| == BLOCKS && e.ino == ino < 256 && ino !in k.used
    ensures var k' := Linked(k, p, e, NewBody(ino, p, true));
            && IsDir(k', ino) && DirAt(k', ino) == NewDir(ino, p) && IsEmptyDir(NewDir(ino, p)) && OneBlock(NewDir(ino, p))
  {
    hide Insert;
  }

  // ---------------------------------------------------------------------------
  // Runs
  // ---------------------------------------------------------------------------

  datatype Op =
    | OpMkdir(path: string)
    | OpCreate(path: string)
    | OpUnlink(path: string, open_: set<nat>)
    | OpRmdir(path: string)

  ghost predicate Defined(k: Disk, op: Op) {
    && Stored(k) && DirsOk(k)
    && (op.OpUnlink? || op.OpRmdir? ==> Search(TreeOf(k), op.path) != Unset)
  }

  ghost function Perform(k: Disk, op: Op): Outcome
    requires Defined(k, op)
  {
    match op
    case OpMkdir(path) => Mkdir(k, path)
    case OpCreate(path) => Create(k, path)
    case OpUnlink(path, open_) => Unlink(k, path, open_)
    case OpRmdir(path) => Rmdir(k, path)
  }

  ghost function Apply(k: Disk, op: Op): Disk
    requires Defined(k, op)
  {
    if Perform(k, op).Done? then Perform(k, op).k else k
  }

  /** What has to hold before an operation for it to leave a good partition: room in the
  parent and a low inode to create, no dot at the end to remove a directory. */
  ghost predicate Sane(k: Disk, op: Op)
    requires Defined(k, op)
  {
    match op
    case OpMkdir(path) => Roomy(k, path)
    case OpCreate(path) => Roomy(k, path)
    case OpUnlink(_, _) => true
    case OpRmdir(path) => Components(path) != [] ==> C.Last(path) != "."
  }

  ghost predicate Roomy(k: Disk, path: string)
    requires DirsOk(k)
  {
    Place(k, path).Some? && Lowest(k.used, 0).Some? ==>
      assert IsDir(k, Place(k, path).value);
      CanInsert(DirAt(k, Place(k, path).value)) && Lowest(k.used, 0).value < 256
  }

  /** An operation that changes a good partition leaves a good one if and only if the
  condition held before. */
  lemma StepKeeps(k: Disk, depth: map<nat, nat>, op: Op)
    requires DiskOk(k, depth) && Defined(k, op) && Perform(k, op).Done?
    ensures (exists depth' :: DiskOk(Apply(k, op), depth')) <==> Sane(k, op)
  {
    hide DiskOk, Mkdir, Create, Unlink, Rmdir, CanInsert, Place, Components;
    var k' := Apply(k, op);
    match op
    case OpMkdir(path) =>
      MkdirKeeps(k, depth, path);
      assert Mkdir(k, path).k == k';
    case OpCreate(path) =>
      CreateKeeps(k, depth, path);
      assert Create(k, path).k == k';
    case OpUnlink(path, open_) =>
      UnlinkKeeps(k, depth, path, open_);
      assert DiskOk(k', depth);
    case OpRmdir(path) =>
      RmdirKeeps(k, depth, path);
      assert Rmdir(k, path).k == k';
  }

  /** `run` can be executed: every operation returns, and meets its condition. */
  ghost predicate Legal(k: Disk, run: seq<Op>)
    decreases |run|
  {
    run == [] || (&& Defined(k, run[0]) && Perform(k, run[0]) != Stops && Perform(k, run[0]) != Loops
                  && Sane(k, run[0]) && Legal(Apply(k, run[0]), run[1..]))
  }

  ghost function Exec(k: Disk, run: seq<Op>): Disk
    requires Legal(k, run)
    decreases |run|
  {
    if run == [] then k else Exec(Apply(k, run[0]), run[1..])
  }

  /** After every run of creating and removing that meets the conditions, every inode in use
  is in its slot, every directory is well formed, and the directories form a tree. */
  lemma {:induction false} EveryRunKeepsTree(k: Disk, depth: map<nat, nat>, run: seq<Op>) returns (depth': map<nat, nat>)
    requires DiskOk(k, depth) && Legal(k, run)
    ensures DiskOk(Exec(k, run), depth')
    decreases |run|
  {
    hide DiskOk, Defined, Perform, Sane;
    if run == [] {
      depth' := depth;
    } else {
      var depth1 := depth;
      if Perform(k, run[0]).Done? {
        StepKeeps(k, depth, run[0]);
        depth1 :| DiskOk(Apply(k, run[0]), depth1);
      }
      depth' := EveryRunKeepsTree(Apply(k, run[0]), depth1, run[1..]);
    }
  }

  /** partition_format */
  function Formatted(): Disk {
    Disk([Record(ROOT, Folder(NewDir(ROOT, ROOT)))] + seq(INODES - 1, _ => BLANK), {ROOT})
  }

  lemma FormattedOk()
    ensures DiskOk(Formatted(), map[ROOT := 0])
  {
    hide NewDir, ListingOf, DirOk;
    var k := Formatted();
    NewDirOk(ROOT, ROOT);
    ListingNew(ROOT, ROOT);
    assert TreeOf(k).dirs == C.Formatted().dirs;
    assert TreeOf(k) == C.Formatted();
    C.FormattedOk();
  }
}
