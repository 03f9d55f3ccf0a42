/** What creating and removing files and directories is to do to the tree of names. When
sys_mkdir, sys_open, sys_unlink and sys_rmdir do it is the subject of InodeTrees. */
module TreeChanges {
  import opened Basics
  import opened Paths
  import opened Trees

  /** A failing ASSERT; -1; or the new tree. */
  datatype Outcome = Stops | Fails | Done(t: Tree)

  function Last(path: string): string
    requires Components(path) != []
  {
    var names := Components(path);
    names[|names| - 1]
  }

  /** The search found every directory on the way, but not the last name. */
  predicate CanCreate(t: Tree, path: string) {
    Search(t, path).Missing? && Search(t, path).depth == |Components(path)|
  }

  function AddLink(t: Tree, p: nat, n: string, x: Link): Tree
    requires p in t.dirs
  {
    t.(dirs := t.dirs[p := t.dirs[p][n := x]])
  }

  /** A directory `ino` with its dots, and its entry in `p`. */
  function WithDir(t: Tree, p: nat, n: string, ino: nat): Tree
    requires p in t.dirs
  {
    var t1 := AddLink(t, p, n, Link(ino, true));
    t1.(dirs := t1.dirs[ino := map["." := Link(ino, true), ".." := Link(p, true)]])
  }

  function WithFile(t: Tree, p: nat, n: string, ino: nat): Tree
    requires p in t.dirs
  {
    AddLink(t, p, n, Link(ino, false)).(files := t.files + {ino})
  }

  predicate EndsInSlash(path: string) {
    path != "" && path[|path| - 1] == '/'
  }

  /** delete_dir_entry: the entries of `p` for inode `ino`, dots excepted, go. */
  function DropLink(t: Tree, p: nat, ino: nat): Tree
    requires p in t.dirs
  {
    t.(dirs := t.dirs[p := map n | n in t.dirs[p] && (IsDot(n) || t.dirs[p][n].ino != ino) :: t.dirs[p][n]])
  }

  /** sys_unlink; `open_` are the inodes of open files. */
  function Unlink(t: Tree, path: string, open_: set<nat>): Outcome
    requires Search(t, path) != Unset
  {
    match Search(t, path)
    case Missing(_, _) => Fails
    case At(x, p) =>
      if x.ino == ROOT then Stops
      else if x.dir || x.ino in open_ || p !in t.dirs then Fails
      else Done(DropLink(t, p, x.ino).(files := t.files - {x.ino}))
  }

  predicate IsEmpty(l: Listing) {
    forall n :: n in l ==> IsDot(n)
  }

  /** sys_rmdir and dir_remove */
  function Rmdir(t: Tree, path: string): Outcome
    requires Search(t, path) != Unset
  {
    match Search(t, path)
    case Missing(_, _) => Fails
    case At(x, p) =>
      if x.ino == ROOT then Stops
      else if !x.dir || x.ino !in t.dirs || !IsEmpty(t.dirs[x.ino]) || p !in t.dirs then Fails
      else
        var t1 := DropLink(t, p, x.ino);
        Done(t1.(dirs := t1.dirs - {x.ino}))
  }

  // ---------------------------------------------------------------------------
  // A new entry
  // ---------------------------------------------------------------------------

  ghost predicate Unused(t: Tree, ino: nat) {
    ino != ROOT && ino !in t.dirs && ino !in t.files
  }

  lemma CreatePlace(t: Tree, depth: map<nat, nat>, path: string)
    requires TreeOk(t, depth) && CanCreate(t, path)
    ensures Components(path) != []
    ensures var p := Search(t, path).parent; p in t.dirs && Last(path) !in t.dirs[p] && Proper(Last(path)) && !IsDot(Last(path))
  {
    hide OnePlace, FilesPlaced;
    ParentsIn(t, depth);
    var names := Components(path);
    LookupDir(t, ROOT, names, 0);
    assert DotsOk(t, Search(t, path).parent);
    assert Proper(names[|names| - 1]);
  }

  /** A name can be created exactly if the names before it lead to a directory that lacks
  it. */
  lemma CanCreateMeans(t: Tree, depth: map<nat, nat>, path: string)
    requires TreeOk(t, depth)
    ensures CanCreate(t, path) <==>
              && Absolute(path) && Components(path) != []
              && match Front(t, ROOT, Components(path))
                 case Some(q) => q in t.dirs && Last(path) !in t.dirs[q]
                 case None => false
    ensures CanCreate(t, path) ==> Front(t, ROOT, Components(path)) == Some(Search(t, path).parent)
  {
    hide OnePlace, FilesPlaced, Rooted, Sound, Components, Lookup, Resolve, CutShort;
    if path == "/." || path == "/.." {
      DotOnly(path);
      assert DotsOk(t, ROOT);
    } else if Absolute(path) && Components(path) != [] {
      ParentsIn(t, depth);
      LookupExact(t, ROOT, Components(path), 0);
    }
  }

  /** `t'` is `t` with one more entry, for a new inode. */
  ghost predicate OneMore(t: Tree, t': Tree, p: nat, n: string, x: Link) {
    && p in t.dirs && n !in t.dirs[p] && Proper(n) && !IsDot(n) && Unused(t, x.ino)
    && forall d, m, y :: Holds(t', d, m, y) <==> Holds(t, d, m, y) || (d == p && m == n && y == x)
  }

  lemma MkdirIs(t: Tree, p: nat, n: string, ino: nat)
    requires Dots(t) && p in t.dirs && n !in t.dirs[p] && Proper(n) && !IsDot(n) && Unused(t, ino)
    ensures var t' := WithDir(t, p, n, ino);
            && OneMore(t, t', p, n, Link(ino, true)) && Dots(t') && t'.dirs.Keys == t.dirs.Keys + {ino} && t'.files == t.files
            && Parent(t', ino) == p && forall d :: d in t.dirs ==> Parent(t', d) == Parent(t, d)
  {
    var t' := WithDir(t, p, n, ino);
    forall d | d in t'.dirs ensures DotsOk(t', d) {
      assert d != ino ==> DotsOk(t, d);
    }
    assert t'.dirs[p] == t.dirs[p][n := Link(ino, true)];
  }

  lemma SoundMore(t: Tree, t': Tree, p: nat, n: string, x: Link)
    requires Sound(t) && OnePlace(t) && OneMore(t, t', p, n, x)
    requires t.dirs.Keys <= t'.dirs.Keys && t.files <= t'.files
    requires forall d :: d in t.dirs ==> Parent(t', d) == Parent(t, d)
    requires if x.dir then x.ino in t'.dirs && Parent(t', x.ino) == p else x.ino in t'.files
    ensures Sound(t') && OnePlace(t')
  {
    forall d, m, y | Holds(t, d, m, y) ensures y.ino != x.ino {
    }
  }

  lemma RootedMore(t: Tree, t': Tree, depth: map<nat, nat>, p: nat, n: string, ino: nat)
    requires Rooted(t, depth) && OneMore(t, t', p, n, Link(ino, true))
    requires t'.dirs.Keys == t.dirs.Keys + {ino} && Parent(t', ino) == p
    requires forall d :: d in t.dirs ==> Parent(t', d) == Parent(t, d)
    ensures Rooted(t', depth[ino := depth[p] + 1])
  {
    forall d | d in t'.dirs && d != ROOT ensures exists m :: Holds(t', Parent(t', d), m, Link(d, true)) {
      if d == ino {
        assert Holds(t', p, n, Link(ino, true));
      } else {
        var m :| Holds(t, Parent(t, d), m, Link(d, true));
        assert Holds(t', Parent(t', d), m, Link(d, true));
      }
    }
  }

  lemma PlacedMore(t: Tree, t': Tree, p: nat, n: string, x: Link)
    requires FilesPlaced(t) && OneMore(t, t', p, n, x) && t'.files == (if x.dir then t.files else t.files + {x.ino})
    requires t'.dirs.Keys == if x.dir then t.dirs.Keys + {x.ino} else t.dirs.Keys
    ensures FilesPlaced(t')
  {
    forall f | f in t'.files ensures exists d, m :: Holds(t', d, m, Link(f, false)) {
      if f in t.files {
        var d, m :| Holds(t, d, m, Link(f, false));
        assert Holds(t', d, m, Link(f, false));
      } else {
        assert Holds(t', p, n, x);
      }
    }
  }

  lemma WithDirOk(t: Tree, depth: map<nat, nat>, p: nat, n: string, ino: nat)
    requires TreeOk(t, depth) && p in t.dirs && n !in t.dirs[p] && Proper(n) && !IsDot(n) && Unused(t, ino)
    ensures p in depth && TreeOk(WithDir(t, p, n, ino), depth[ino := depth[p] + 1])
    ensures OneMore(t, WithDir(t, p, n, ino), p, n, Link(ino, true)) && WithDir(t, p, n, ino).files == t.files
  {
    var t' := WithDir(t, p, n, ino);
    MkdirIs(t, p, n, ino);
    hide Sound, OnePlace, FilesPlaced, OneMore, Dots, Unused;
    SoundMore(t, t', p, n, Link(ino, true));
    RootedMore(t, t', depth, p, n, ino);
    PlacedMore(t, t', p, n, Link(ino, true));
  }

  lemma CreateIs(t: Tree, p: nat, n: string, ino: nat)
    requires Dots(t) && p in t.dirs && n !in t.dirs[p] && Proper(n) && !IsDot(n) && Unused(t, ino)
    ensures var t' := WithFile(t, p, n, ino);
            && OneMore(t, t', p, n, Link(ino, false)) && Dots(t') && t'.dirs.Keys == t.dirs.Keys
            && forall d :: d in t.dirs ==> Parent(t', d) == Parent(t, d)
  {
    var t' := WithFile(t, p, n, ino);
    forall d | d in t'.dirs ensures DotsOk(t', d) {
      assert DotsOk(t, d);
    }
  }

  lemma SameRooted(t: Tree, t': Tree, depth: map<nat, nat>)
    requires Rooted(t, depth) && t'.dirs.Keys == t.dirs.Keys
    requires forall d :: d in t.dirs ==> Parent(t', d) == Parent(t, d)
    requires forall d, n, x: Link :: x.dir && Holds(t, d, n, x) ==> Holds(t', d, n, x)
    ensures Rooted(t', depth)
  {
    forall d | d in t'.dirs && d != ROOT ensures exists m :: Holds(t', Parent(t', d), m, Link(d, true)) {
      var m :| Holds(t, Parent(t, d), m, Link(d, true));
      assert Holds(t', Parent(t', d), m, Link(d, true));
    }
  }

  lemma WithFileOk(t: Tree, depth: map<nat, nat>, p: nat, n: string, ino: nat)
    requires TreeOk(t, depth) && p in t.dirs && n !in t.dirs[p] && Proper(n) && !IsDot(n) && Unused(t, ino)
    ensures TreeOk(WithFile(t, p, n, ino), depth)
    ensures OneMore(t, WithFile(t, p, n, ino), p, n, Link(ino, false)) && WithFile(t, p, n, ino).files == t.files + {ino}
  {
    var t' := WithFile(t, p, n, ino);
    CreateIs(t, p, n, ino);
    hide Sound, OnePlace, FilesPlaced, Dots, Unused, Rooted;
    SoundMore(t, t', p, n, Link(ino, false));
    SameRooted(t, t', depth);
    PlacedMore(t, t', p, n, Link(ino, false));
  }

  // ---------------------------------------------------------------------------
  // One entry less
  // ---------------------------------------------------------------------------

  ghost predicate OneLess(t: Tree, t': Tree, ino: nat) {
    forall d, m, y :: Holds(t', d, m, y) <==> Holds(t, d, m, y) && y.ino != ino
  }

  lemma DropIs(t: Tree, p: nat, n: string, x: Link)
    requires Dots(t) && OnePlace(t) && Holds(t, p, n, x)
    ensures var t' := DropLink(t, p, x.ino);
            && OneLess(t, t', x.ino) && Dots(t') && t'.dirs.Keys == t.dirs.Keys && t'.files == t.files
            && (forall d :: d in t.dirs ==> Parent(t', d) == Parent(t, d))
  {
    var t' := DropLink(t, p, x.ino);
    forall d, m, y ensures Holds(t', d, m, y) <==> Holds(t, d, m, y) && y.ino != x.ino {
      if Holds(t, d, m, y) && y.ino == x.ino {
        assert d == p && m == n;
      }
    }
    forall d | d in t'.dirs ensures DotsOk(t', d) {
      assert DotsOk(t, d);
    }
  }

  lemma UnlinkFound(t: Tree, depth: map<nat, nat>, path: string)
    requires TreeOk(t, depth) && Search(t, path).At?
    ensures var At(x, p) := Search(t, path);
            p in t.dirs && (!x.dir ==> x.ino != ROOT && x.ino in t.files && exists n :: Holds(t, p, n, x))
  {
    hide OnePlace, FilesPlaced;
    ParentsIn(t, depth);
    if Components(path) != [] {
      LookupDir(t, ROOT, Components(path), 0);
    }
  }

  /** On listings, sys_unlink removes the file that the search ended at and its one entry, and
  nothing else; it stops at an ASSERT exactly for the root. */
  lemma UnlinkKeeps(t: Tree, depth: map<nat, nat>, path: string, open_: set<nat>)
    requires TreeOk(t, depth) && Search(t, path) != Unset
    ensures Unlink(t, path, open_) == Stops <==> Search(t, path).At? && Search(t, path).link.ino == ROOT
    ensures Unlink(t, path, open_).Done? <==>
              Search(t, path).At? && !Search(t, path).link.dir && Search(t, path).link.ino !in open_
    ensures Unlink(t, path, open_).Done? ==>
              var f := Search(t, path).link.ino; var t' := Unlink(t, path, open_).t;
              TreeOk(t', depth) && OneLess(t, t', f) && t'.files == t.files - {f} && t'.dirs.Keys == t.dirs.Keys
  {
    if Search(t, path).At? {
      var At(x, p) := Search(t, path);
      UnlinkFound(t, depth, path);
      if !x.dir && x.ino !in open_ {
        var n :| Holds(t, p, n, x);
        DropFile(t, depth, p, n, x);
      }
    }
  }

  lemma DropFile(t: Tree, depth: map<nat, nat>, p: nat, n: string, x: Link)
    requires TreeOk(t, depth) && Holds(t, p, n, x) && !x.dir
    ensures var t' := DropLink(t, p, x.ino).(files := t.files - {x.ino});
            TreeOk(t', depth) && OneLess(t, t', x.ino) && t'.dirs.Keys == t.dirs.Keys
  {
    hide DropLink, Dots, Rooted;
    DropIs(t, p, n, x);
    var t1 := DropLink(t, p, x.ino);
    var t' := t1.(files := t.files - {x.ino});
    SameHolds(t1, t');
    LessSound(t, t', x);
    forall d, m, y: Link | y.dir && Holds(t, d, m, y) ensures Holds(t', d, m, y) {
      assert y.ino != x.ino;
    }
    SameRooted(t, t', depth);
    LessPlaced(t, t', x.ino);
  }

  lemma LessSound(t: Tree, t': Tree, x: Link)
    requires Sound(t) && OnePlace(t) && OneLess(t, t', x.ino) && t'.dirs.Keys == t.dirs.Keys && t'.files == t.files - {x.ino}
    requires forall d :: d in t.dirs ==> Parent(t', d) == Parent(t, d)
    ensures Sound(t') && OnePlace(t')
  {
  }

  lemma LessPlaced(t: Tree, t': Tree, f: nat)
    requires FilesPlaced(t) && OneLess(t, t', f) && t'.dirs.Keys == t.dirs.Keys && t'.files == t.files - {f}
    ensures FilesPlaced(t')
  {
    forall g | g in t'.files ensures exists d, m :: Holds(t', d, m, Link(g, false)) {
      var d, m :| Holds(t, d, m, Link(g, false));
      assert Holds(t', d, m, Link(g, false));
    }
  }

  lemma SameHolds(t: Tree, t': Tree)
    requires t'.dirs == t.dirs
    ensures forall d, m, y :: Holds(t', d, m, y) <==> Holds(t, d, m, y)
    ensures (Dots(t) ==> Dots(t')) && forall d :: Parent(t', d) == Parent(t, d)
  {
    assert forall d :: d in t.dirs && DotsOk(t, d) ==> DotsOk(t', d);
  }

  /** What unlink removes is the file the whole path names only if the search used up the
  path: behind a regular file the rest of the path is not looked at. */
  lemma UnlinkIgnoresRest(t: Tree, f: string, x: string)
    requires ROOT in t.dirs && Proper(f) && Proper(x) && f in t.dirs[ROOT] && !t.dirs[ROOT][f].dir
    requires |f| + |x| + 2 < MAX_PATH_LEN
    ensures Search(t, "/" + f + "/" + x) == At(t.dirs[ROOT][f], ROOT)
  {
    var path := "/" + f + "/" + x;
    assert path == "/" + f + ("/" + x);
    ParseSlashed(f, "/" + x);
    assert Components(path)[0] == f;
    assert |path| >= 4;
  }

  /** unlink removes the file that the path names if and only if all the names before the
  last are directories; else it removes a file on the way. */
  lemma UnlinkNamed(t: Tree, depth: map<nat, nat>, path: string, open_: set<nat>)
    requires TreeOk(t, depth) && Search(t, path) != Unset && Unlink(t, path, open_).Done?
    ensures Components(path) != []
    ensures var At(x, p) := Search(t, path); var names := Components(path);
            && (Front(t, ROOT, names).Some? <==>
                  Front(t, ROOT, names) == Some(p) && p in t.dirs && Last(path) in t.dirs[p] && t.dirs[p][Last(path)] == x)
            && (Front(t, ROOT, names) == None <==> CutShort(t, ROOT, names, x, p))
  {
    hide OnePlace, FilesPlaced, Sound, Components, Lookup, Resolve, CutShort, DotsOk, Rooted;
    ParentsIn(t, depth);
    var names := Components(path);
    LookupExact(t, ROOT, names, 0);
    var At(x, p) := Search(t, path);
    CutShortNoFront(t, ROOT, names, x, p);
  }

  lemma CutShortNoFront(t: Tree, d: nat, names: seq<string>, x: Link, p: nat)
    requires names != []
    ensures CutShort(t, d, names, x, p) ==> Front(t, d, names) == None
  {
    if CutShort(t, d, names, x, p) {
      var k: nat :| && k < |names| - 1 && Resolve(t, d, names[..k]) == Some(p)
                    && p in t.dirs && names[k] in t.dirs[p] && t.dirs[p][names[k]] == x && !x.dir;
      assert names[..|names| - 1][..k] == names[..k];
      FileEnds(t, d, names[..|names| - 1], k, p);
    }
  }

  /** A path with a file in it leads to no directory. */
  lemma {:induction false} FileEnds(t: Tree, d: nat, names: seq<string>, k: nat, p: nat)
    requires k < |names| && Resolve(t, d, names[..k]) == Some(p)
    requires p in t.dirs && names[k] in t.dirs[p] && !t.dirs[p][names[k]].dir
    ensures Resolve(t, d, names) == None
    decreases k
  {
    if k > 0 {
      assert names[..k][0] == names[0] && names[..k][1..] == names[1..][..k - 1];
      FileEnds(t, t.dirs[d][names[0]].ino, names[1..], k - 1, p);
    }
  }

  // ---------------------------------------------------------------------------
  // sys_rmdir
  // ---------------------------------------------------------------------------

  lemma RmdirFound(t: Tree, depth: map<nat, nat>, path: string)
    requires TreeOk(t, depth) && Search(t, path).At? && Search(t, path).link.dir && Search(t, path).link.ino != ROOT
    ensures Components(path) != []
    ensures var At(x, p) := Search(t, path);
            && p in t.dirs && x.ino in t.dirs && Last(path) in t.dirs[p] && t.dirs[p][Last(path)] == x
            && (Last(path) == "." ==> p == x.ino)
            && (Last(path) == ".." && p != ROOT ==> Parent(t, p) == x.ino)
            && (!IsDot(Last(path)) ==> Holds(t, p, Last(path), x))
  {
    hide OnePlace, FilesPlaced;
    ParentsIn(t, depth);
    LookupDir(t, ROOT, Components(path), 0);
    var At(x, p) := Search(t, path);
    assert DotsOk(t, p);
    LinkTarget(t, p, Last(path));
  }

  lemma RemoveDir(t: Tree, depth: map<nat, nat>, p: nat, n: string, d: nat)
    requires TreeOk(t, depth) && Holds(t, p, n, Link(d, true)) && IsEmpty(t.dirs[d])
    ensures var t1 := DropLink(t, p, d); var t' := t1.(dirs := t1.dirs - {d});
            TreeOk(t', depth - {d}) && OneLess(t, t', d)
  {
    hide DropLink, Rooted, Sound, OnePlace, FilesPlaced, OneLess, IsEmpty;
    RemoveIs(t, p, n, d);
    var t1 := DropLink(t, p, d);
    var t' := t1.(dirs := t1.dirs - {d});
    RemoveRooted(t, t', depth, d);
    RemoveRest(t, t', d);
  }

  lemma RemoveIs(t: Tree, p: nat, n: string, d: nat)
    requires Dots(t) && Sound(t) && OnePlace(t) && Holds(t, p, n, Link(d, true)) && IsEmpty(t.dirs[d])
    ensures var t1 := DropLink(t, p, d); var t' := t1.(dirs := t1.dirs - {d});
            && d in t.dirs && d != ROOT && OneLess(t, t', d)
            && t'.dirs.Keys == t.dirs.Keys - {d} && t'.files == t.files
            && (forall e :: e in t'.dirs ==> Parent(t', e) == Parent(t, e) && DotsOk(t', e))
            && (forall e, m, y :: Holds(t, e, m, y) ==> e != d)
  {
    hide DropLink;
    DropIs(t, p, n, Link(d, true));
    var t1 := DropLink(t, p, d);
    var t' := t1.(dirs := t1.dirs - {d});
    forall e, m, y ensures Holds(t', e, m, y) <==> Holds(t1, e, m, y) && e != d {
    }
    forall e, m, y | Holds(t, e, m, y) ensures e != d {
    }
    forall e | e in t'.dirs ensures DotsOk(t', e) {
      assert DotsOk(t1, e);
    }
  }

  lemma RemoveRooted(t: Tree, t': Tree, depth: map<nat, nat>, d: nat)
    requires Dots(t) && Rooted(t, depth) && d in t.dirs && d != ROOT && OneLess(t, t', d)
    requires t'.dirs.Keys == t.dirs.Keys - {d}
    requires forall e :: e in t'.dirs ==> Parent(t', e) == Parent(t, e) && DotsOk(t', e)
    requires forall e, m, y :: Holds(t, e, m, y) ==> e != d
    ensures Dots(t') && Rooted(t', depth - {d})
  {
    forall e | e in t'.dirs && e != ROOT
      ensures Parent(t', e) in t'.dirs && exists m :: Holds(t', Parent(t', e), m, Link(e, true))
    {
      var m :| Holds(t, Parent(t, e), m, Link(e, true));
      assert Holds(t', Parent(t', e), m, Link(e, true));
    }
  }

  lemma RemoveRest(t: Tree, t': Tree, d: nat)
    requires Sound(t) && OnePlace(t) && FilesPlaced(t) && OneLess(t, t', d) && d in t.dirs
    requires t'.dirs.Keys == t.dirs.Keys - {d} && t'.files == t.files
    requires forall e :: e in t'.dirs ==> Parent(t', e) == Parent(t, e)
    ensures Sound(t') && OnePlace(t') && FilesPlaced(t')
  {
    forall f | f in t'.files ensures exists e, m :: Holds(t', e, m, Link(f, false)) {
      var e, m :| Holds(t, e, m, Link(f, false));
      assert Holds(t', e, m, Link(f, false));
    }
  }

  /** A path that ends in . names the directory as its own parent: the inode goes but the
  real parent keeps an entry for it, so the result is no tree. */
  lemma RmdirDotDangles(t: Tree, depth: map<nat, nat>, d: nat, depth': map<nat, nat>)
    requires TreeOk(t, depth) && d in t.dirs && d != ROOT
    ensures var t1 := DropLink(t, d, d); !TreeOk(t1.(dirs := t1.dirs - {d}), depth')
  {
    var t1 := DropLink(t, d, d);
    var t' := t1.(dirs := t1.dirs - {d});
    var p := Parent(t, d);
    var n :| Holds(t, p, n, Link(d, true));
    assert p != d;
    assert Holds(t', p, n, Link(d, true));
  }

  /** On listings, sys_rmdir removes exactly empty directories, and leaves a tree with exactly that
  entry gone if and only if the path does not end in a dot. */
  lemma RmdirKeeps(t: Tree, depth: map<nat, nat>, path: string)
    requires TreeOk(t, depth) && Search(t, path) != Unset
    ensures Rmdir(t, path) == Stops <==> Search(t, path).At? && Search(t, path).link.ino == ROOT
    ensures Rmdir(t, path).Done? <==>
              && Search(t, path).At? && Search(t, path).link.dir && Search(t, path).link.ino != ROOT
              && Search(t, path).link.ino in t.dirs && IsEmpty(t.dirs[Search(t, path).link.ino])
    ensures Rmdir(t, path).Done? ==>
              var d := Search(t, path).link.ino; var t' := Rmdir(t, path).t;
              && Components(path) != []
              && (Last(path) != "." ==> TreeOk(t', depth - {d}) && OneLess(t, t', d))
              && (Last(path) == "." ==> forall depth' :: !TreeOk(t', depth'))
  {
    hide Search, TreeOk, IsEmpty;
    if Search(t, path).At? {
      var At(x, p) := Search(t, path);
      UnlinkFound(t, depth, path);
      if x.dir && x.ino != ROOT {
        RmdirFound(t, depth, path);
        if IsEmpty(t.dirs[x.ino]) {
          if Last(path) == "." {
            forall depth' ensures !TreeOk(Rmdir(t, path).t, depth') {
              RmdirDotDangles(t, depth, x.ino, depth');
            }
          } else {
            NotUpward(t, depth, path);
            RemoveDir(t, depth, p, Last(path), x.ino);
          }
        }
      }
    }
  }

  /** An empty directory is not reached through .. */
  lemma NotUpward(t: Tree, depth: map<nat, nat>, path: string)
    requires TreeOk(t, depth) && Search(t, path).At? && Search(t, path).link.dir && Search(t, path).link.ino != ROOT
    requires Components(path) != [] && Last(path) != "." && Search(t, path).link.ino in t.dirs
    requires IsEmpty(t.dirs[Search(t, path).link.ino])
    ensures var At(x, p) := Search(t, path); Holds(t, p, Last(path), Link(x.ino, true))
  {
    hide Search;
    RmdirFound(t, depth, path);
    var At(x, p) := Search(t, path);
    assert DotsOk(t, p);
    if p != ROOT {
      HasChild(t, depth, p);
    }
  }

  lemma HasChild(t: Tree, depth: map<nat, nat>, d: nat)
    requires TreeOk(t, depth) && d in t.dirs && d != ROOT
    ensures Parent(t, d) in t.dirs && !IsEmpty(t.dirs[Parent(t, d)])
  {
    var n :| Holds(t, Parent(t, d), n, Link(d, true));
    assert n in t.dirs[Parent(t, d)] && !IsDot(n);
  }

  /** A new name is found. */
  lemma {:induction false} LookupNew(t: Tree, p: nat, ino: nat, d: nat, names: seq<string>, done: nat)
    requires names != [] && p in t.dirs && ino !in t.dirs && Lookup(t, d, names, done) == Missing(p, done + |names|)
    requires names[|names| - 1] !in t.dirs[p]
    ensures Lookup(WithDir(t, p, names[|names| - 1], ino), d, names, done) == At(Link(ino, true), p)
    decreases |names|
  {
    if d in t.dirs && names[0] in t.dirs[d] {
      LookupNew(t, p, ino, t.dirs[d][names[0]].ino, names[1..], done + 1);
    }
  }

  /** The tree on a partition that was just formatted. */
  function Formatted(): Tree {
    Tree(map[ROOT := map["." := Link(ROOT, true), ".." := Link(ROOT, true)]], {})
  }

  lemma FormattedOk()
    ensures TreeOk(Formatted(), map[ROOT := 0])
  {
    assert DotsOk(Formatted(), ROOT);
  }
}
