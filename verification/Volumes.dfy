/** All files and directories of a partition: every sector in use has one owner and one
position there, whatever is written, created, linked or removed. */
module Volumes {
  import opened Basics
  import opened FileBlocks
  import opened Files
  import opened Folders
  import D = Directories

  /** The files, and the directories by inode number. */
  datatype World = World(s: System, dirs: map<nat, Folder>)

  predicate DirsShaped(dirs: map<nat, Folder>) {
    forall d :: d in dirs ==> Shape(dirs[d])
  }

  /** The sectors of all directories. */
  ghost function Base(dirs: map<nat, Folder>): set<nat>
    requires DirsShaped(dirs)
  {
    set d, x | d in dirs && x in Taken(dirs[d]) :: x
  }

  /** The sectors of the files and of the directories other than `d`. */
  ghost function Others(w: World, d: nat): set<nat>
    requires Shaped(w.s.files) && DirsShaped(w.dirs)
  {
    InUse(w.s.files, Base(w.dirs - {d}))
  }

  /** Files and directories are well formed, no two of them share a sector, and the bitmap's
  bits are exactly the sectors they have. */
  ghost predicate WorldOk(w: World) {
    && DirsShaped(w.dirs) && SystemOk(w.s, Base(w.dirs)) && w.s.v.start in Base(w.dirs)
    && forall d :: d in w.dirs ==> FolderOk(w.s.v, w.dirs[d], Others(w, d))
  }

  lemma BaseSplit(dirs: map<nat, Folder>, d: nat)
    requires DirsShaped(dirs) && d in dirs
    ensures Base(dirs) == Base(dirs - {d}) + Taken(dirs[d])
  {
    hide Taken;
    forall x | x in Base(dirs) ensures x in Base(dirs - {d}) + Taken(dirs[d]) {
      var e :| e in dirs && x in Taken(dirs[e]);
      assert e != d ==> e in dirs - {d} && (dirs - {d})[e] == dirs[e];
    }
    forall x | x in Base(dirs - {d}) ensures x in Base(dirs) {
      var e :| e in dirs - {d} && x in Taken((dirs - {d})[e]);
      assert dirs[e] == (dirs - {d})[e];
    }
  }

  lemma TotalSplit(w: World, d: nat)
    requires Shaped(w.s.files) && DirsShaped(w.dirs) && d in w.dirs
    ensures InUse(w.s.files, Base(w.dirs)) == Taken(w.dirs[d]) + Others(w, d)
  {
    hide Taken, Base;
    BaseSplit(w.dirs, d);
  }

  /** Another directory's sectors are among the others. */
  lemma OtherTaken(w: World, d: nat, g: nat)
    requires Shaped(w.s.files) && DirsShaped(w.dirs) && g in w.dirs && g != d
    ensures Taken(w.dirs[g]) <= Base(w.dirs - {d}) && Base(w.dirs - {d}) <= Others(w, d)
  {
    hide Taken;
    assert (w.dirs - {d})[g] == w.dirs[g];
  }

  // ---------------------------------------------------------------------------
  // One directory changes
  // ---------------------------------------------------------------------------

  /** Directory `d` changes or appears; it writes its own sectors only and owns them. */
  ghost predicate Changes(w: World, w': World, d: nat) {
    && Shaped(w.s.files) && DirsShaped(w.dirs) && d in w'.dirs && w'.dirs == w.dirs[d := w'.dirs[d]] && w'.s.files == w.s.files
    && FolderOk(w'.s.v, w'.dirs[d], Others(w, d)) && WroteOnly(w.s.v, w'.s.v, Taken(w'.dirs[d]))
  }

  /** Directory `d`, which is not the root, goes, and with it its sectors. */
  ghost predicate Vanishes(w: World, w': World, d: nat) {
    && Shaped(w.s.files) && DirsShaped(w.dirs) && d in w.dirs && w'.dirs == w.dirs - {d} && w'.s.files == w.s.files
    && SameSpace(w.s.v, w'.s.v) && w'.s.v.disk == w.s.v.disk
    && Ours(w'.s.v, [], Others(w, d)) && w.s.v.start !in Taken(w.dirs[d])
  }

  lemma SameOthers(w: World, w': World, d: nat)
    requires Shaped(w.s.files) && DirsShaped(w.dirs) && DirsShaped(w'.dirs) && w'.s.files == w.s.files
    requires w'.dirs - {d} == w.dirs - {d}
    ensures Others(w', d) == Others(w, d)
  {
  }

  /** A directory that was not written, beside others that may have changed. */
  lemma FolderStands(v: Volume, v': Volume, f: Folder, rest: set<nat>, rest': set<nat>)
    requires FolderOk(v, f, rest) && SameSpace(v, v') && (forall x: nat :: x in Taken(f) ==> x < |v.disk| && v'.disk[x] == v.disk[x])
    requires Ours(v', [], Taken(f) + rest') && Taken(f) !! rest'
    ensures FolderOk(v', f, rest') && DirOf(v'.disk, f) == DirOf(v.disk, f)
  {
    hide Ours, Decode;
    assert f.node.sectors[12] != 0 ==> f.node.sectors[12] in Taken(f);
    forall i: nat | i < MAX_BLOCKS && f.list[i] != 0 ensures f.list[i] in Taken(f) {
      assert f.list[i] in Blocks(f.list, 0);
    }
    assert DirOf(v'.disk, f).blocks == DirOf(v.disk, f).blocks;
  }

  lemma TakenPlace(v: Volume, f: Folder, rest: set<nat>, x: nat)
    requires FolderOk(v, f, rest) && x in Taken(f)
    ensures x < |v.disk| && x !in rest
  {
  }

  /** The files, and the sectors of the directories, after directory `d` changed. */
  lemma ChangedFiles(w: World, w': World, d: nat)
    requires WorldOk(w) && Changes(w, w', d)
    ensures DirsShaped(w'.dirs) && SystemOk(w'.s, Base(w'.dirs)) && w'.s.v.start in Base(w'.dirs)
    ensures forall f :: f in w.s.files ==> Taken(w'.dirs[d]) !! Occupied(w.s.files[f])
  {
    hide SystemOk, Ours, Leads, OnePosition, Base, FileOk;
    var f' := w'.dirs[d];
    ShapedNow(w.s, Base(w.dirs));
    ChangedShape(w, w', d);
    assert w'.dirs - {d} == w.dirs - {d};
    SameOthers(w, w', d);
    TotalSplit(w', d);
    BaseSplit(w'.dirs, d);
    forall f | f in w.s.files ensures Taken(f') !! Occupied(w.s.files[f]) {
      assert Occupied(w.s.files[f]) <= Others(w, d);
    }
    StartStays(w, w', d);
    BaseGrows(w, w', d);
    FilesStand(w.s, w'.s, Base(w.dirs), Base(w'.dirs), Taken(f'));
  }

  lemma ChangedShape(w: World, w': World, d: nat)
    requires Changes(w, w', d)
    ensures DirsShaped(w'.dirs)
  {
    hide Ours, OnePosition, Taken;
  }

  lemma BaseGrows(w: World, w': World, d: nat)
    requires DirsShaped(w.dirs) && DirsShaped(w'.dirs) && d in w'.dirs && w'.dirs == w.dirs[d := w'.dirs[d]]
    ensures Base(w'.dirs) <= Base(w.dirs) + Taken(w'.dirs[d])
  {
    hide Taken;
    forall x | x in Base(w'.dirs) ensures x in Base(w.dirs) + Taken(w'.dirs[d]) {
      var e :| e in w'.dirs && x in Taken(w'.dirs[e]);
      assert e != d ==> e in w.dirs && w.dirs[e] == w'.dirs[e];
    }
  }

  lemma StartStays(w: World, w': World, d: nat)
    requires WorldOk(w) && Changes(w, w', d) && DirsShaped(w'.dirs)
    ensures w'.s.v.start in Base(w'.dirs)
  {
    hide SystemOk, FolderOk, Taken, Base;
    assert w'.dirs - {d} == w.dirs - {d};
    BaseSplit(w'.dirs, d);
    StartIn(w'.s.v, w'.dirs[d], Others(w, d));
    var x := w.s.v.start;
    forall f | f in w.s.files ensures x !in Occupied(w.s.files[f]) {
      FilesApart(w.s, Base(w.dirs), f);
    }
  }

  lemma StartIn(v: Volume, f: Folder, rest: set<nat>)
    requires FolderOk(v, f, rest)
    ensures v.start in Taken(f) + rest
  {
    hide Taken;
  }

  lemma ChangedOther(w: World, w': World, d: nat, g: nat)
    requires WorldOk(w) && Changes(w, w', d) && g in w.dirs && g != d
    requires DirsShaped(w'.dirs) && SystemOk(w'.s, Base(w'.dirs))
    ensures FolderOk(w'.s.v, w'.dirs[g], Others(w', g)) && DirOf(w'.s.v.disk, w'.dirs[g]) == DirOf(w.s.v.disk, w.dirs[g])
  {
    hide FolderOk, Ours, Base, Taken, FileOk, DirOf, InUse;
    var f, f' := w.dirs[g], w'.dirs[d];
    ChangedParts(w, w', d);
    TotalSplit(w', g);
    OtherTaken(w, d, g);
    forall x: nat | x in Taken(f) ensures x < |w.s.v.disk| && w'.s.v.disk[x] == w.s.v.disk[x] && x !in Others(w', g) {
      TakenPlace(w.s.v, f, Others(w, g), x);
      StillMine(w, w', d, g, x);
    }
    FolderStands(w.s.v, w'.s.v, f, Others(w, g), Others(w', g));
  }

  lemma ChangedParts(w: World, w': World, d: nat)
    requires Changes(w, w', d)
    ensures Taken(w'.dirs[d]) !! Others(w, d) && WroteOnly(w.s.v, w'.s.v, Taken(w'.dirs[d]))
  {
  }

  lemma StillMine(w: World, w': World, d: nat, g: nat, x: nat)
    requires Shaped(w.s.files) && DirsShaped(w.dirs) && DirsShaped(w'.dirs) && d in w'.dirs
    requires w'.dirs == w.dirs[d := w'.dirs[d]] && w'.s.files == w.s.files && Taken(w'.dirs[d]) !! Others(w, d)
    requires g in w.dirs && g != d && x in Taken(w.dirs[g]) && x !in Others(w, g)
    ensures x !in Taken(w'.dirs[d]) && x !in Others(w', g)
  {
    hide SystemOk, FolderOk, Taken, Base;
    OtherTaken(w, d, g);
    BaseMember(w.dirs, w'.dirs, d, g, x);
  }

  lemma BaseMember(dirs: map<nat, Folder>, dirs': map<nat, Folder>, d: nat, g: nat, x: nat)
    requires DirsShaped(dirs) && DirsShaped(dirs') && d in dirs' && dirs' == dirs[d := dirs'[d]] && g != d
    ensures x in Base(dirs' - {g}) ==> x in Taken(dirs'[d]) || x in Base(dirs - {g})
  {
    hide Taken;
    if x in Base(dirs' - {g}) {
      var e :| e in dirs' - {g} && x in Taken((dirs' - {g})[e]);
      assert e == d || (e in dirs - {g} && (dirs - {g})[e] == (dirs' - {g})[e]);
    }
  }

  lemma ChangeKeeps(w: World, w': World, d: nat)
    requires WorldOk(w) && Changes(w, w', d)
    ensures WorldOk(w')
    ensures forall g :: g in w.dirs && g != d ==> DirOf(w'.s.v.disk, w'.dirs[g]) == DirOf(w.s.v.disk, w.dirs[g])
  {
    hide SystemOk, Ours, FolderOk, Base, Taken, DirOf;
    ChangedFiles(w, w', d);
    assert w'.dirs - {d} == w.dirs - {d};
    SameOthers(w, w', d);
    forall g | g in w'.dirs && g != d
      ensures FolderOk(w'.s.v, w'.dirs[g], Others(w', g)) && DirOf(w'.s.v.disk, w'.dirs[g]) == DirOf(w.s.v.disk, w.dirs[g])
    {
      ChangedOther(w, w', d, g);
    }
  }

  // ---------------------------------------------------------------------------
  // A directory goes
  // ---------------------------------------------------------------------------

  lemma VanishedFiles(w: World, w': World, d: nat)
    requires WorldOk(w) && Vanishes(w, w', d)
    ensures DirsShaped(w'.dirs) && SystemOk(w'.s, Base(w'.dirs)) && w'.s.v.start in Base(w'.dirs)
  {
    hide SystemOk, Ours, FolderOk, Taken, Base;
    BaseSplit(w.dirs, d);
    assert Base(w'.dirs) <= Base(w.dirs) + {};
    FilesStand(w.s, w'.s, Base(w.dirs), Base(w'.dirs), {});
  }

  lemma VanishedOther(w: World, w': World, d: nat, g: nat)
    requires WorldOk(w) && Vanishes(w, w', d) && g in w'.dirs
    requires DirsShaped(w'.dirs) && SystemOk(w'.s, Base(w'.dirs))
    ensures FolderOk(w'.s.v, w'.dirs[g], Others(w', g)) && DirOf(w'.s.v.disk, w'.dirs[g]) == DirOf(w.s.v.disk, w.dirs[g])
  {
    hide FolderOk, Ours, Base, Taken, FileOk, DirOf, InUse;
    TotalSplit(w', g);
    forall x: nat | x in Taken(w.dirs[g]) ensures x < |w.s.v.disk| && x !in Others(w', g) {
      TakenPlace(w.s.v, w.dirs[g], Others(w, g), x);
      FewerOthers(w, w', d, g);
    }
    FolderStands(w.s.v, w'.s.v, w.dirs[g], Others(w, g), Others(w', g));
  }

  lemma FewerOthers(w: World, w': World, d: nat, g: nat)
    requires Shaped(w.s.files) && DirsShaped(w.dirs) && w'.dirs == w.dirs - {d} && w'.s.files == w.s.files
    ensures DirsShaped(w'.dirs) && Others(w', g) <= Others(w, g)
  {
    hide Taken;
    forall x | x in Base(w'.dirs - {g}) ensures x in Base(w.dirs - {g}) {
      var e :| e in w'.dirs - {g} && x in Taken((w'.dirs - {g})[e]);
      assert e in w.dirs - {g} && (w.dirs - {g})[e] == (w'.dirs - {g})[e];
    }
  }

  lemma VanishKeeps(w: World, w': World, d: nat)
    requires WorldOk(w) && Vanishes(w, w', d)
    ensures WorldOk(w')
    ensures forall g :: g in w'.dirs ==> DirOf(w'.s.v.disk, w'.dirs[g]) == DirOf(w.s.v.disk, w.dirs[g])
  {
    hide SystemOk, Ours, FolderOk, Base, Taken, DirOf;
    VanishedFiles(w, w', d);
    forall g | g in w'.dirs
      ensures FolderOk(w'.s.v, w'.dirs[g], Others(w', g)) && DirOf(w'.s.v.disk, w'.dirs[g]) == DirOf(w.s.v.disk, w.dirs[g])
    {
      VanishedOther(w, w', d, g);
    }
  }

  // ---------------------------------------------------------------------------
  // A file changes
  // ---------------------------------------------------------------------------

  /** Sectors of directories are not written by operations on files. */
  lemma FileStepDisk(s: System, s': System, base: set<nat>, op: Op, x: nat)
    requires SystemOk(s', base) && Step(s, s', base, op) && x in base && x < |s.v.disk|
    ensures SameSpace(s.v, s'.v) && s'.v.disk[x] == s.v.disk[x]
  {
    hide Ours, FileOk, SystemOk;
    if op.Append? {
      FilesApart(s', base, op.f);
    }
  }

  lemma FileStepOther(w: World, w': World, op: Op, g: nat)
    requires WorldOk(w) && w'.dirs == w.dirs && Step(w.s, w'.s, Base(w.dirs), op) && SystemOk(w'.s, Base(w.dirs)) && g in w.dirs
    ensures FolderOk(w'.s.v, w.dirs[g], Others(w', g)) && DirOf(w'.s.v.disk, w.dirs[g]) == DirOf(w.s.v.disk, w.dirs[g])
  {
    hide FolderOk, Ours, Base, Taken, FileOk, DirOf, Step;
    var base := Base(w.dirs);
    BaseSplit(w.dirs, g);
    TotalSplit(w', g);
    assert SameSpace(w.s.v, w'.s.v) by {
      SpaceKept(w.s, w'.s, base, op);
    }
    forall x: nat | x in Taken(w.dirs[g]) ensures x < |w.s.v.disk| && w'.s.v.disk[x] == w.s.v.disk[x] && x !in Others(w', g) {
      TakenPlace(w.s.v, w.dirs[g], Others(w, g), x);
      FileStepDisk(w.s, w'.s, base, op, x);
      forall f | f in w'.s.files ensures x !in Occupied(w'.s.files[f]) {
        FilesApart(w'.s, base, f);
      }
    }
    FolderStands(w.s.v, w'.s.v, w.dirs[g], Others(w, g), Others(w', g));
  }

  lemma SpaceKept(s: System, s': System, base: set<nat>, op: Op)
    requires Step(s, s', base, op)
    ensures SameSpace(s.v, s'.v)
  {
    hide Ours, FileOk;
  }

  lemma FileStepKeeps(w: World, w': World, op: Op, want: map<nat, seq<Byte>>)
    requires WorldOk(w) && w'.dirs == w.dirs && Step(w.s, w'.s, Base(w.dirs), op) && Matches(w.s, want)
    ensures WorldOk(w') && Matches(w'.s, Expected(want, op))
    ensures forall g :: g in w.dirs ==> DirOf(w'.s.v.disk, w.dirs[g]) == DirOf(w.s.v.disk, w.dirs[g])
  {
    hide SystemOk, WorldOk, Base, DirOf, Step, Matches, Expected;
    WorldParts(w);
    StepOk(w.s, w'.s, Base(w.dirs), op, want);
    FileStepWorld(w, w', op);
  }

  lemma WorldParts(w: World)
    requires WorldOk(w)
    ensures Shaped(w.s.files) && DirsShaped(w.dirs) && SystemOk(w.s, Base(w.dirs)) && w.s.v.start in Base(w.dirs)
  {
    hide Base, FolderOk, FileOk, Ours;
  }

  lemma FileStepWorld(w: World, w': World, op: Op)
    requires WorldOk(w) && w'.dirs == w.dirs && Step(w.s, w'.s, Base(w.dirs), op) && SystemOk(w'.s, Base(w.dirs))
    ensures WorldOk(w')
    ensures forall g :: g in w.dirs ==> DirOf(w'.s.v.disk, w.dirs[g]) == DirOf(w.s.v.disk, w.dirs[g])
  {
    hide SystemOk, Ours, FolderOk, Base, Taken, DirOf, Step;
    ShapedNow(w'.s, Base(w.dirs));
    SpaceKept(w.s, w'.s, Base(w.dirs), op);
    forall g | g in w.dirs
      ensures FolderOk(w'.s.v, w.dirs[g], Others(w', g)) && DirOf(w'.s.v.disk, w.dirs[g]) == DirOf(w.s.v.disk, w.dirs[g])
    {
      FileStepOther(w, w', op, g);
    }
  }

  // ---------------------------------------------------------------------------
  // Runs
  // ---------------------------------------------------------------------------

  /** Operations on files; sync_dir_entry; delete_dir_entry that finds the entry; making a
  directory; inode_release of one. */
  datatype Event =
    | OnFile(op: Op)
    | Add(d: nat, e: D.Entry)
    | Remove(d: nat, ino: nat)
    | Make(d: nat, up: nat)
    | Drop(d: nat)

  ghost predicate Happens(w: World, w': World, e: Event) {
    && DirsShaped(w.dirs)
    && match e
       case OnFile(op) => w'.dirs == w.dirs && Step(w.s, w'.s, Base(w.dirs), op)
       case Add(d, entry) =>
         && d in w.dirs && Changes(w, w', d) && Shape(w'.dirs[d])
         && DirOf(w'.s.v.disk, w'.dirs[d]) == D.Insert(DirOf(w.s.v.disk, w.dirs[d]), entry)
       case Remove(d, ino) =>
         && d in w.dirs && Changes(w, w', d) && Shape(w'.dirs[d]) && DirOf(w.s.v.disk, w.dirs[d]).size >= D.ENTRY_SIZE
         && D.Delete(DirOf(w.s.v.disk, w.dirs[d]), ino) == D.Gone(DirOf(w'.s.v.disk, w'.dirs[d]))
       case Make(d, up) =>
         d !in w.dirs && Changes(w, w', d) && Shape(w'.dirs[d]) && DirOf(w'.s.v.disk, w'.dirs[d]) == D.NewDir(d, up)
       case Drop(d) => Vanishes(w, w', d)
  }

  ghost predicate Run(worlds: seq<World>, events: seq<Event>) {
    && |worlds| == |events| + 1
    && forall i :: 0 <= i < |events| ==> Happens(worlds[i], worlds[i + 1], events[i])
  }

  /** What the files and directories should hold. */
  datatype Want = Want(files: map<nat, seq<Byte>>, dirs: map<nat, D.Dir>)

  function ExpectedNext(was: Want, e: Event): Want {
    match e
    case OnFile(op) => was.(files := Expected(was.files, op))
    case Add(d, entry) =>
      if d in was.dirs && |was.dirs[d].blocks| == D.BLOCKS then was.(dirs := was.dirs[d := D.Insert(was.dirs[d], entry)]) else was
    case Remove(d, ino) =>
      if d in was.dirs && |was.dirs[d].blocks| == D.BLOCKS && was.dirs[d].size >= D.ENTRY_SIZE && D.Delete(was.dirs[d], ino).Gone?
      then was.(dirs := was.dirs[d := D.Delete(was.dirs[d], ino).d]) else was
    case Make(d, up) => was.(dirs := was.dirs[d := D.NewDir(d, up)])
    case Drop(d) => was.(dirs := was.dirs - {d})
  }

  function ExpectedAll(was: Want, events: seq<Event>): Want {
    if events == [] then was else ExpectedNext(ExpectedAll(was, events[..|events| - 1]), events[|events| - 1])
  }

  ghost predicate Holds(w: World, want: Want) {
    && DirsShaped(w.dirs) && Matches(w.s, want.files) && want.dirs.Keys == w.dirs.Keys
    && forall d :: d in w.dirs ==> DirOf(w.s.v.disk, w.dirs[d]) == want.dirs[d]
  }

  lemma ChangeHolds(w: World, w': World, d: nat, want: Want, dir: D.Dir)
    requires WorldOk(w) && Holds(w, want) && Changes(w, w', d) && Shape(w'.dirs[d]) && DirOf(w'.s.v.disk, w'.dirs[d]) == dir
    ensures WorldOk(w') && Holds(w', want.(dirs := want.dirs[d := dir]))
  {
    hide SystemOk, Ours, FolderOk, Base, Taken, DirOf, Matches, WorldOk;
    ChangeKeeps(w, w', d);
    ChangeMatches(w, w', d, want.files);
    ChangedShape(w, w', d);
  }

  lemma DropHolds(w: World, w': World, d: nat, want: Want)
    requires WorldOk(w) && Holds(w, want) && Vanishes(w, w', d)
    ensures WorldOk(w') && Holds(w', want.(dirs := want.dirs - {d}))
  {
    hide SystemOk, Ours, FolderOk, Base, Taken, DirOf, Matches;
    VanishKeeps(w, w', d);
    SameMatches(w.s, w'.s, Base(w.dirs), {}, want.files);
  }

  lemma FileHolds(w: World, w': World, op: Op, want: Want)
    requires WorldOk(w) && Holds(w, want) && w'.dirs == w.dirs && Step(w.s, w'.s, Base(w.dirs), op)
    ensures WorldOk(w') && Holds(w', want.(files := Expected(want.files, op)))
  {
    hide SystemOk, Ours, FolderOk, Base, Taken, DirOf, Matches, Step, Expected, WorldOk;
    FileStepKeeps(w, w', op, want.files);
  }

  lemma EventOk(w: World, w': World, e: Event, want: Want)
    requires WorldOk(w) && Holds(w, want) && Happens(w, w', e)
    ensures WorldOk(w') && Holds(w', ExpectedNext(want, e))
  {
    hide WorldOk, Base, DirOf, Matches, Expected, Step, D.Insert, D.Delete, D.NewDir, FolderOk, WroteOnly, Vanishes, Taken;
    match e
    case OnFile(op) => FileHolds(w, w', op, want);
    case Add(d, _) =>
      DirLength(w.s.v.disk, w.dirs[d]);
      ChangeHolds(w, w', d, want, DirOf(w'.s.v.disk, w'.dirs[d]));
    case Remove(d, _) =>
      DirLength(w.s.v.disk, w.dirs[d]);
      ChangeHolds(w, w', d, want, DirOf(w'.s.v.disk, w'.dirs[d]));
    case Make(d, _) => ChangeHolds(w, w', d, want, DirOf(w'.s.v.disk, w'.dirs[d]));
    case Drop(d) => DropHolds(w, w', d, want);
  }

  lemma DirLength(disk: seq<Sector>, f: Folder)
    requires Shape(f)
    ensures |DirOf(disk, f).blocks| == D.BLOCKS
  {
  }

  lemma ChangeMatches(w: World, w': World, d: nat, want: map<nat, seq<Byte>>)
    requires WorldOk(w) && Changes(w, w', d) && Matches(w.s, want)
    ensures Matches(w'.s, want)
  {
    hide SystemOk, Ours, Leads, OnePosition, Base, Matches;
    ShapedNow(w.s, Base(w.dirs));
    ChangedFiles(w, w', d);
    SameMatches(w.s, w'.s, Base(w.dirs), Taken(w'.dirs[d]), want);
  }

  /** After every run of operations on files and directories, each file contains exactly what
  was appended to it since it was created, each directory exactly what was inserted and not
  deleted, no sector has two owners or two positions, and the block bitmap says exactly
  which sectors are in use. */
  lemma {:induction false} EveryRunKeepsVolume(worlds: seq<World>, events: seq<Event>, want: Want)
    requires Run(worlds, events) && WorldOk(worlds[0]) && Holds(worlds[0], want)
    ensures WorldOk(worlds[|events|]) && Holds(worlds[|events|], ExpectedAll(want, events))
    decreases |events|
  {
    hide WorldOk, Holds, Happens, ExpectedNext;
    if events != [] {
      var n := |events| - 1;
      EveryRunKeepsVolume(worlds[..n + 1], events[..n], want);
      EventOk(worlds[n], worlds[n + 1], events[n], ExpectedAll(want, events[..n]));
    }
  }
}
