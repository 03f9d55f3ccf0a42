/** A partition as the system calls use it: file_write, file_read, sync_dir_entry,
delete_dir_entry and inode_release on many files and directories. Each call is one event of
Volumes. */
module FileSystems {
  import opened Basics
  import opened Bitmaps
  import opened FileBlocks
  import opened FileStores
  import opened Files
  import opened FolderBlocks
  import opened Folders
  import opened FolderStores
  import opened Volumes
  import D = Directories

  class FileSystem {
    const store: FileStore
    const folders: FolderStore
    ghost var files: map<nat, File>     // the inodes with the blocks they lead to
    ghost var dirs: map<nat, Folder>

    ghost function Now(): World
      reads this, store, folders
    {
      World(System(store.Vol(), files), dirs)
    }

    ghost predicate Valid()
      reads this, store, folders
    {
      && folders.store == store && files.Keys == store.nodes.Keys && dirs.Keys == folders.nodes.Keys
      && (forall f :: f in files ==> files[f].node == store.nodes[f]) && (forall d :: d in dirs ==> dirs[d].node == folders.nodes[d])
      && WorldOk(Now())
    }

    /** What directory `d` holds. */
    ghost function Dir(d: nat): D.Dir
      requires Valid() && d in folders.nodes
      reads this, store, folders
    {
      DirOf(store.disk, dirs[d])
    }

    /** partition_format: the bitmap marks the first data block, which holds the dots of the
    root. */
    constructor (store: FileStore)
      requires store.nodes == map[] && Ours(store.Vol(), [], {store.start}) && |store.bits| > 0
      requires store.start < |store.disk| && store.disk[store.start] == DotSector(0, 0)
      ensures this.store == store && fresh(folders) && Valid()
      ensures folders.nodes.Keys == {0} && Dir(0) == D.NewDir(0, 0)
    {
      this.store := store;
      folders := new FolderStore(store, Node(48, OneSector(store.start)));
      files := map[];
      dirs := map[0 := Folder(Node(48, OneSector(store.start)), FolderStores.OneBlock(store.start))];
      new;
      FreshWorld(Now());
    }

    /** inode_init: a new file is empty. */
    method Create(f: nat)
      requires Valid() && f !in store.nodes
      modifies this, store
      ensures Valid() && Happens(old(Now()), Now(), OnFile(Op.Create(f)))
    {
      hide Ours, SystemOk, FolderOk, Base, WorldOk;
      ghost var w := Now();
      WorldParts(w);
      var sectors: seq<nat> := [];
      while |sectors| < 13
        invariant |sectors| <= 13 && forall i :: 0 <= i < |sectors| ==> sectors[i] == 0
      {
        sectors := sectors + [0];
      }
      assert sectors == NewFile().node.sectors;
      store.nodes := store.nodes[f := Node(0, sectors)];
      files := files[f := NewFile()];
      CreateKeeps(w.s, Base(w.dirs), f);
      FileStepWorld(w, Now(), Op.Create(f));
    }

    /** file_write */
    method Append(f: nat, data: seq<Byte>) returns (r: Result, pos: nat)
      requires Valid() && f in store.nodes && |data| < WORD
      modifies this, store
      ensures r == Failed <==> Plus(old(store.nodes[f].size), |data|) > 71680
      ensures r == Runaway <==> old(store.nodes[f].size) + |data| >= WORD && Plus(old(store.nodes[f].size), |data|) <= 71680
      ensures r.Done? <==>
                && old(store.nodes[f].size) + |data| < 71680
                && FreeCount(old(store.bits)) >= Needed(old(files[f].list), old(store.nodes[f].size), |data|)
      ensures r == Failed ==> Valid() && Now() == old(Now())
      ensures r.Done? ==> Valid() && Happens(old(Now()), Now(), OnFile(Op.Append(f, data)))
    {
      hide Ours, Names, SystemOk, FreeCount, Content, FolderOk, Base, WorldOk, Needed;
      ghost var w := Now();
      WorldParts(w);
      FilePart(w.s, Base(w.dirs), f);
      ghost var list;
      r, pos, list := store.FileWrite(f, data, files[f].list, Rest(w.s.files, Base(w.dirs), f));
      if r.Done? {
        files := files[f := File(store.nodes[f], list)];
        TouchKeeps(w.s, Now().s, Base(w.dirs), f);
        FileStepWorld(w, Now(), Op.Append(f, data));
      }
    }

    /** file_read */
    method Read(f: nat, pos: nat, count: nat) returns (r: Result, data: seq<Byte>, pos': nat)
      requires Valid() && f in store.nodes && pos < WORD && count < WORD
      ensures HasBytes(Now().s, f)
      ensures pos <= |Bytes(Now().s, f)| && pos + count < WORD ==>
                r != Runaway && (r == Failed <==> pos == |Bytes(Now().s, f)| && count > 0)
      ensures r.Done? ==> pos <= pos' <= |Bytes(Now().s, f)| && data == Bytes(Now().s, f)[pos..pos']
      ensures r.Done? && pos + count < WORD ==> pos' == if pos + count > store.nodes[f].size then store.nodes[f].size else pos + count
    {
      hide Ours, Names, SystemOk, Content, FolderOk, Base, WorldOk, Plus, ToRead;
      ghost var w := Now();
      WorldParts(w);
      FilePart(w.s, Base(w.dirs), f);
      ghost var rest := Rest(w.s.files, Base(w.dirs), f);
      if pos <= store.nodes[f].size && pos + count < WORD {
        ReadEnds(store.nodes[f].size, pos, count);
      }
      OwnInDisk(store.Vol(), store.nodes[f].sectors, files[f].list, rest);
      r, data, pos' := store.FileRead(f, pos, count, files[f].list, rest);
    }

    /** inode_release of a file */
    method Delete(f: nat)
      requires Valid() && f in store.nodes
      modifies this, store
      ensures Valid() && Happens(old(Now()), Now(), OnFile(Op.Delete(f)))
    {
      hide Ours, Names, SystemOk, FreeCount, FolderOk, Base, WorldOk;
      ghost var w := Now();
      WorldParts(w);
      FilePart(w.s, Base(w.dirs), f);
      store.Release(f, files[f].list, Rest(w.s.files, Base(w.dirs), f));
      files := files - {f};
      DeleteKeeps(w.s, Now().s, Base(w.dirs), f);
      FileStepWorld(w, Now(), Op.Delete(f));
    }

    /** sync_dir_entry: every sector still has one owner, and the bitmap is exact, if and only
    if the directory had room in a direct block or no indirect table. */
    method AddEntry(d: nat, e: D.Entry) returns (ok: bool)
      requires Valid() && d in folders.nodes && Storable(e)
      modifies this, store, folders
      ensures |old(Dir(d)).blocks| == D.BLOCKS
      ensures ok <==> FreeCount(old(store.bits)) >= Wants(old(Dir(d)))
      ensures ok ==> (Valid() <==> D.CanInsert(old(Dir(d))))
      ensures ok && D.CanInsert(old(Dir(d))) ==> Happens(old(Now()), Now(), Add(d, e))
    {
      hide Ours, SystemOk, FolderOk, Base, WorldOk, FreeCount, DirOf, Taken, Wants, D.CanInsert, D.Insert, WroteIn, Lost;
      ghost var w := Now();
      WorldParts(w);
      FolderPart(w, d);
      DirLength(store.disk, w.dirs[d]);
      ghost var list;
      ok, list := folders.AddEntry(d, e, dirs[d].list, Others(w, d));
      if ok {
        dirs := dirs[d := Folder(folders.nodes[d], list)];
        WroteSame(w.s.v, store.Vol(), Taken(dirs[d]));
        if FolderOk(store.Vol(), dirs[d], Others(w, d)) {
          ChangeKeeps(w, Now(), d);
        } else {
          NotGood(w, Now(), d);
        }
      }
    }

    /** delete_dir_entry: it does not end if and only if the entry is alone in an indirect
    block; otherwise every sector still has one owner and the bitmap is exact. */
    method DeleteEntry(d: nat, ino: nat) returns (r: End)
      requires Valid() && d in folders.nodes && D.DirOk(Dir(d))
      modifies this, store, folders
      ensures old(Dir(d)).size >= D.ENTRY_SIZE && |old(Dir(d)).blocks| == D.BLOCKS
      ensures r == Endless <==> D.AloneBehind(old(Dir(d)), ino)
      ensures r == Absent <==> D.Delete(old(Dir(d)), ino) == D.NotFound
      ensures r == Absent ==> Valid() && Now() == old(Now())
      ensures r == Finished ==> Valid() && Happens(old(Now()), Now(), Remove(d, ino))
    {
      hide Ours, SystemOk, FolderOk, Base, WorldOk, DirOf, Taken, D.DirOk, D.Delete, WroteIn, D.AloneBehind;
      ghost var w := Now();
      WorldParts(w);
      FolderPart(w, d);
      DirLength(store.disk, w.dirs[d]);
      D.NotEmpty(Dir(d));
      D.HangsWhen(Dir(d), ino);
      ghost var list;
      r, list := folders.DeleteEntry(d, ino, dirs[d].list, Others(w, d));
      if r == Finished {
        dirs := dirs[d := Folder(folders.nodes[d], list)];
        WroteSame(w.s.v, store.Vol(), Taken(dirs[d]));
        ChangeKeeps(w, Now(), d);
      }
    }

    /** The block of a new directory in sys_mkdir. */
    method MakeDir(d: nat, up: nat) returns (ok: bool)
      requires Valid() && d !in folders.nodes && d < WORD && up < WORD
      modifies this, store, folders
      ensures ok <==> FreeCount(old(store.bits)) >= 1
      ensures ok ==> Valid() && Happens(old(Now()), Now(), Volumes.Make(d, up))
    {
      hide Ours, SystemOk, FolderOk, Base, WorldOk, FreeCount, DirOf, Taken, WroteIn, D.NewDir;
      ghost var w := Now();
      WorldParts(w);
      AllOfIt(w, d);
      ghost var list;
      ok, list := folders.Make(d, up, Others(w, d));
      if ok {
        dirs := dirs[d := Folder(folders.nodes[d], list)];
        assert forall g :: g in w.dirs ==> folders.nodes[g] == (folders.nodes - {d})[g];
        WroteSame(w.s.v, store.Vol(), Taken(dirs[d]));
        ChangeKeeps(w, Now(), d);
      }
    }

    /** inode_release of a directory other than the root. */
    method RemoveDir(d: nat)
      requires Valid() && d in folders.nodes && store.start !in Taken(dirs[d])
      modifies this, store, folders
      ensures Valid() && Happens(old(Now()), Now(), Volumes.Drop(d))
    {
      hide Ours, SystemOk, FolderOk, Base, WorldOk, DirOf, Taken;
      ghost var w := Now();
      WorldParts(w);
      FolderPart(w, d);
      StartIn(store.Vol(), w.dirs[d], Others(w, d));
      folders.Release(d, dirs[d].list, Others(w, d));
      dirs := dirs - {d};
      VanishKeeps(w, Now(), d);
    }
  }

  lemma FilePart(s: System, base: set<nat>, f: nat)
    requires SystemOk(s, base) && f in s.files
    ensures Shaped(s.files) && FileOk(s.v, s.files[f].node, s.files[f].list, Rest(s.files, base, f))
  {
    hide FileOk, Ours;
  }

  lemma FolderPart(w: World, d: nat)
    requires WorldOk(w) && d in w.dirs
    ensures Shaped(w.s.files) && DirsShaped(w.dirs) && FolderOk(w.s.v, w.dirs[d], Others(w, d)) && Shape(w.dirs[d])
  {
    hide FolderOk, SystemOk;
    WorldParts(w);
  }

  /** A world in which directory `d` does not own its sectors alone is not good. */
  lemma NotGood(w: World, w': World, d: nat)
    requires WorldOk(w) && d in w.dirs && d in w'.dirs && w'.dirs == w.dirs[d := w'.dirs[d]] && w'.s.files == w.s.files
    requires Shaped(w.s.files) && DirsShaped(w.dirs) && !FolderOk(w'.s.v, w'.dirs[d], Others(w, d))
    ensures !WorldOk(w')
  {
    hide FolderOk, SystemOk, Base;
    assert w'.dirs - {d} == w.dirs - {d};
    if WorldOk(w') {
      SameOthers(w, w', d);
    }
  }

  lemma WroteSame(v: Volume, v': Volume, xs: set<nat>)
    requires WroteIn(v.disk, v'.disk, xs) && v'.start == v.start && |v'.bits| == |v.bits|
    ensures WroteOnly(v, v', xs)
  {
  }

  /** Without directory `d` the others are everything. */
  lemma AllOfIt(w: World, d: nat)
    requires WorldOk(w) && d !in w.dirs && Shaped(w.s.files) && DirsShaped(w.dirs)
    ensures Ours(w.s.v, [], Others(w, d))
  {
    hide Ours, FileOk, FolderOk;
    assert w.dirs - {d} == w.dirs;
  }

  /** A partition after partition_format: no files, and the root with one block. */
  ghost predicate Formatted(w: World) {
    && w.s.files.Keys == {} && w.dirs.Keys == {0}
    && w.dirs[0] == Folder(Node(48, OneSector(w.s.v.start)), FolderStores.OneBlock(w.s.v.start))
  }

  lemma FreshWorld(w: World)
    requires Formatted(w) && |w.s.v.bits| > 0 && Ours(w.s.v, [], {w.s.v.start})
    requires w.s.v.start < |w.s.v.disk| && w.s.v.disk[w.s.v.start] == DotSector(0, 0)
    ensures WorldOk(w) && DirOf(w.s.v.disk, w.dirs[0]) == D.NewDir(0, 0)
  {
    hide BlockOf, D.DotBlock, DotSector, Ours;
    var v, f := w.s.v, w.dirs[0];
    OursPlace(v, {v.start});
    OneBlockLeads(v.start);
    assert f.list[0] == v.start;
    assert Taken(f) == {v.start};
    assert Base(w.dirs) == {v.start};
    assert Base(w.dirs - {0}) == {};
    assert Others(w, 0) == {};
    assert Taken(f) + Others(w, 0) == {v.start};
    assert InUse(w.s.files, Base(w.dirs)) == {v.start};
    DotSectorBlock(0, 0);
    assert DirOf(v.disk, f).blocks == D.NewDir(0, 0).blocks;
  }
}
