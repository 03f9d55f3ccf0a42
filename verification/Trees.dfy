/** The directory tree (fs/fs.c): looking up paths, the current directory, creating and
removing files and directories. */
module Trees {
  import opened Basics
  import opened Paths

  /** An entry: inode number, and whether it is a directory. */
  datatype Link = Link(ino: nat, dir: bool)

  type Listing = map<string, Link>

  /** `dirs` are the directories by inode number, 0 the root; `files` the regular files. */
  datatype Tree = Tree(dirs: map<nat, Listing>, files: set<nat>)

  const ROOT: nat := 0
  const MAX_PATH_LEN: nat := 512

  /** get_parent_dir_inode_nr */
  function Parent(t: Tree, d: nat): nat {
    if d in t.dirs && ".." in t.dirs[d] then t.dirs[d][".."].ino else ROOT
  }

  // ---------------------------------------------------------------------------
  // A tree
  // ---------------------------------------------------------------------------

  predicate DotsOk(t: Tree, d: nat)
    requires d in t.dirs
  {
    && "." in t.dirs[d] && t.dirs[d]["."] == Link(d, true)
    && ".." in t.dirs[d] && t.dirs[d][".."].dir
  }

  ghost predicate Dots(t: Tree) {
    (forall d :: d in t.dirs ==> DotsOk(t, d)) && ROOT in t.dirs && Parent(t, ROOT) == ROOT
  }

  predicate Holds(t: Tree, d: nat, n: string, x: Link) {
    d in t.dirs && n in t.dirs[d] && !IsDot(n) && t.dirs[d][n] == x
  }

  /** Entries lead to directories that lead back, or to files; names are proper. */
  ghost predicate Sound(t: Tree) {
    forall d, n, x :: Holds(t, d, n, x) ==>
      && Proper(n) && x.ino != ROOT
      && (if x.dir then x.ino in t.dirs && Parent(t, x.ino) == d else x.ino in t.files)
  }

  /** Every inode has one place in the tree. */
  ghost predicate OnePlace(t: Tree) {
    forall d, n, x, e, m, y :: Holds(t, d, n, x) && Holds(t, e, m, y) && x.ino == y.ino ==> d == e && n == m
  }

  /** Every directory but the root is an entry of its parent, one level up. */
  ghost predicate Rooted(t: Tree, depth: map<nat, nat>) {
    && depth.Keys == t.dirs.Keys
    && forall d :: d in t.dirs && d != ROOT ==>
         && Parent(t, d) in t.dirs && depth[d] == depth[Parent(t, d)] + 1
         && exists n :: Holds(t, Parent(t, d), n, Link(d, true))
  }

  ghost predicate FilesPlaced(t: Tree) {
    && t.files !! t.dirs.Keys
    && forall f :: f in t.files ==> exists d, n :: Holds(t, d, n, Link(f, false))
  }

  ghost predicate TreeOk(t: Tree, depth: map<nat, nat>) {
    Dots(t) && Sound(t) && OnePlace(t) && Rooted(t, depth) && FilesPlaced(t)
  }

  // ---------------------------------------------------------------------------
  // search_file
  // ---------------------------------------------------------------------------

  /** Where the search ends: at an inode, with the directory it was found in; without the
  last of `depth` names, in directory `parent`; or, for a path that is not absolute, too
  long, or nothing but slashes, at an ASSERT or with a value that was never set. */
  datatype Found = At(link: Link, parent: nat) | Missing(parent: nat, depth: nat) | Unset

  /** The loop of search_file from directory `d`, in which the next name is looked up;
  a regular file ends the search, whatever follows it. */
  function Lookup(t: Tree, d: nat, names: seq<string>, done: nat): Found
    requires names != []
    decreases |names|
  {
    if d !in t.dirs || names[0] !in t.dirs[d] then Missing(d, done + 1)
    else
      var x := t.dirs[d][names[0]];
      if !x.dir || |names| == 1 then At(x, d)
      else Lookup(t, x.ino, names[1..], done + 1)
  }

  predicate Absolute(path: string) {
    1 < |path| < MAX_PATH_LEN && path[0] == '/'
  }

  function Search(t: Tree, path: string): Found {
    if path == "/" || path == "/." || path == "/.." then At(Link(ROOT, true), ROOT)
    else if !Absolute(path) || Components(path) == [] then Unset
    else Lookup(t, ROOT, Components(path), 0)
  }

  /** The directory a path leads to, if all its names are directories. */
  function Resolve(t: Tree, d: nat, names: seq<string>): Option<nat>
    decreases |names|
  {
    if d !in t.dirs then None
    else if names == [] then Some(d)
    else if names[0] in t.dirs[d] && t.dirs[d][names[0]].dir then Resolve(t, t.dirs[d][names[0]].ino, names[1..])
    else None
  }

  // ---------------------------------------------------------------------------
  // The place of a directory
  // ---------------------------------------------------------------------------

  /** The names from the root down to directory `d`. */
  ghost function PathTo(t: Tree, depth: map<nat, nat>, d: nat): (r: seq<string>)
    requires TreeOk(t, depth) && d in t.dirs
    ensures AllProper(r)
    decreases depth[d]
  {
    if d == ROOT then []
    else
      var n :| Holds(t, Parent(t, d), n, Link(d, true));
      PathTo(t, depth, Parent(t, d)) + [n]
  }

  lemma PathToChild(t: Tree, depth: map<nat, nat>, p: nat, n: string, d: nat)
    requires TreeOk(t, depth) && Holds(t, p, n, Link(d, true))
    ensures d in t.dirs && d != ROOT && Parent(t, d) == p && PathTo(t, depth, d) == PathTo(t, depth, p) + [n]
  {
    hide FilesPlaced;
    assert forall m :: Holds(t, p, m, Link(d, true)) ==> m == n;
  }

  /** Every directory is found under its own path. */
  lemma {:induction false} PathLeadsBack(t: Tree, depth: map<nat, nat>, d: nat)
    requires TreeOk(t, depth) && d in t.dirs
    ensures Resolve(t, ROOT, PathTo(t, depth, d)) == Some(d)
    decreases depth[d]
  {
    hide FilesPlaced;
    if d != ROOT {
      var p := Parent(t, d);
      var n :| Holds(t, p, n, Link(d, true));
      PathToChild(t, depth, p, n, d);
      PathLeadsBack(t, depth, p);
      ResolveOneMore(t, ROOT, PathTo(t, depth, p), n);
    }
  }

  lemma {:induction false} ResolveOneMore(t: Tree, d: nat, names: seq<string>, n: string)
    requires Resolve(t, d, names).Some?
    ensures var p := Resolve(t, d, names).value;
            && p in t.dirs
            && Resolve(t, d, names + [n]) ==
               if n in t.dirs[p] && t.dirs[p][n].dir && t.dirs[p][n].ino in t.dirs then Some(t.dirs[p][n].ino) else None
    decreases |names|
  {
    if names == [] {
      assert names + [n] == [n];
      assert [n][1..] == [];
    } else {
      assert (names + [n])[1..] == names[1..] + [n];
      ResolveOneMore(t, t.dirs[d][names[0]].ino, names[1..], n);
    }
  }

  /** Following any path that leads to a directory, with . and .. anywhere in it, ends in
  the directory that its cleaned form names: washing a path preserves its meaning. */
  lemma {:induction false} WalkIsPath(t: Tree, depth: map<nat, nat>, d: nat, names: seq<string>)
    requires TreeOk(t, depth) && d in t.dirs && Resolve(t, d, names).Some?
    ensures var e := Resolve(t, d, names).value;
            e in t.dirs && PathTo(t, depth, e) == Walked(PathTo(t, depth, d), names)
    decreases |names|
  {
    hide FilesPlaced;
    if names != [] {
      var n := names[0];
      var x := t.dirs[d][n].ino;
      if n == ".." {
        UpOne(t, depth, d);
      } else if n != "." {
        PathToChild(t, depth, d, n, x);
      }
      WalkIsPath(t, depth, x, names[1..]);
    }
  }

  lemma UpOne(t: Tree, depth: map<nat, nat>, d: nat)
    requires TreeOk(t, depth) && d in t.dirs
    ensures Parent(t, d) in t.dirs
    ensures var s := PathTo(t, depth, d);
            PathTo(t, depth, Parent(t, d)) == if s == [] then [] else s[..|s| - 1]
  {
    hide FilesPlaced;
    if d != ROOT {
      var n :| Holds(t, Parent(t, d), n, Link(d, true));
      PathToChild(t, depth, Parent(t, d), n, d);
    }
  }

  // ---------------------------------------------------------------------------
  // Searching and resolving
  // ---------------------------------------------------------------------------

  /** A search that ends at a directory resolves the whole path; one that ends at a file
  may have ignored what follows it. */
  lemma {:induction false} LookupDir(t: Tree, d: nat, names: seq<string>, done: nat)
    requires Dots(t) && Sound(t) && (forall c :: c in t.dirs ==> Parent(t, c) in t.dirs) && d in t.dirs && names != []
    ensures match Lookup(t, d, names, done)
            case At(x, p) =>
              && p in t.dirs
              && (x.dir <==> Resolve(t, d, names).Some?)
              && (x.dir ==>
                    && Resolve(t, d, names) == Some(x.ino)
                    && names[|names| - 1] in t.dirs[p] && t.dirs[p][names[|names| - 1]] == x)
              && (!x.dir ==> exists n :: Holds(t, p, n, x))
            case Missing(p, k) =>
              && p in t.dirs && Resolve(t, d, names) == None && done < k <= done + |names|
              && (k == done + |names| ==> names[|names| - 1] !in t.dirs[p])
            case Unset => false
    decreases |names|
  {
    if names[0] in t.dirs[d] {
      var x := t.dirs[d][names[0]];
      LinkTarget(t, d, names[0]);
      if x.dir && |names| > 1 {
        LookupDir(t, x.ino, names[1..], done + 1);
      } else if !x.dir {
        assert Holds(t, d, names[0], x);
      } else {
        assert names[1..] == [];
      }
    }
  }

  /** What a path names, in directory `d`: the entry for its last name in the directory
  that the others lead to, if they do. */
  function Front(t: Tree, d: nat, names: seq<string>): Option<nat>
    requires names != []
  {
    Resolve(t, d, names[..|names| - 1])
  }

  /** The search ended too early, at a file in the middle of the path. */
  ghost predicate CutShort(t: Tree, d: nat, names: seq<string>, x: Link, p: nat) {
    exists k: nat :: && k < |names| - 1 && Resolve(t, d, names[..k]) == Some(p)
                     && p in t.dirs && names[k] in t.dirs[p] && t.dirs[p][names[k]] == x && !x.dir
  }

  /** The search finds what the path names, or its absence, exactly if all but the last
  name are directories; else it reports a file on the way, or a missing name before the
  last. */
  lemma {:induction false} LookupExact(t: Tree, d: nat, names: seq<string>, done: nat)
    requires Dots(t) && Sound(t) && (forall c :: c in t.dirs ==> Parent(t, c) in t.dirs) && d in t.dirs && names != []
    ensures match Front(t, d, names)
            case Some(q) =>
              var n := names[|names| - 1];
              q in t.dirs && Lookup(t, d, names, done) == if n in t.dirs[q] then At(t.dirs[q][n], q) else Missing(q, done + |names|)
            case None =>
              match Lookup(t, d, names, done)
              case At(x, p) => CutShort(t, d, names, x, p)
              case Missing(_, k) => done < k < done + |names|
              case Unset => false
    decreases |names|
  {
    if |names| > 1 {
      var front := names[..|names| - 1];
      assert front[0] == names[0] && front[1..] == names[1..][..|names| - 2];
      if names[0] in t.dirs[d] {
        var x := t.dirs[d][names[0]];
        LinkTarget(t, d, names[0]);
        if x.dir {
          LookupExact(t, x.ino, names[1..], done + 1);
          CutShortBehind(t, d, names);
        } else {
          assert names[..0] == [];
        }
      }
    }
  }

  /** What search_file reports for every path: the entry the path names, or its absence and
  how deep, exactly if the names before the last lead to a directory; a file on the way or a
  name missing earlier if they do not; the root for the path of the root; and nothing for a
  path that is not absolute, too long or without names. */
  lemma SearchExact(t: Tree, depth: map<nat, nat>, path: string)
    requires TreeOk(t, depth)
    ensures path == "/" ==> Search(t, path) == At(Link(ROOT, true), ROOT)
    ensures Search(t, path) == Unset <==> path != "/" && (!Absolute(path) || Components(path) == [])
    ensures Absolute(path) && Components(path) != [] ==>
              var names := Components(path);
              match Front(t, ROOT, names)
              case Some(q) =>
                var n := names[|names| - 1];
                q in t.dirs && Search(t, path) == if n in t.dirs[q] then At(t.dirs[q][n], q) else Missing(q, |names|)
              case None =>
                match Search(t, path)
                case At(x, p) => CutShort(t, ROOT, names, x, p)
                case Missing(_, k) => 0 < k < |names|
                case Unset => false
  {
    hide OnePlace, FilesPlaced, Rooted, Sound, Components, Lookup, CutShort;
    if path == "/." || path == "/.." {
      DotOnly(path);
      assert DotsOk(t, ROOT);
      assert [path[1..]][..0] == [];
    } else if Absolute(path) && Components(path) != [] {
      ParentsIn(t, depth);
      LookupExact(t, ROOT, Components(path), 0);
    }
  }

  lemma DotOnly(path: string)
    requires path == "/." || path == "/.."
    ensures Components(path) == [path[1..]] && IsDot(path[1..])
  {
    ParseSlashed(path[1..], "");
    assert path == "/" + path[1..] + "";
  }

  lemma CutShortBehind(t: Tree, d: nat, names: seq<string>)
    requires d in t.dirs && |names| > 1 && names[0] in t.dirs[d] && t.dirs[d][names[0]].dir
    ensures forall x, p :: CutShort(t, t.dirs[d][names[0]].ino, names[1..], x, p) ==> CutShort(t, d, names, x, p)
  {
    forall k: nat | k < |names| - 2
      ensures Resolve(t, d, names[..k + 1]) == Resolve(t, t.dirs[d][names[0]].ino, names[1..][..k])
    {
      assert names[..k + 1][0] == names[0] && names[..k + 1][1..] == names[1..][..k];
    }
    forall x, p | CutShort(t, t.dirs[d][names[0]].ino, names[1..], x, p) ensures CutShort(t, d, names, x, p) {
      var k: nat :| && k < |names| - 2 && Resolve(t, t.dirs[d][names[0]].ino, names[1..][..k]) == Some(p)
                    && p in t.dirs && names[1..][k] in t.dirs[p] && t.dirs[p][names[1..][k]] == x && !x.dir;
      assert names[k + 1] == names[1..][k];
    }
  }

  lemma LinkTarget(t: Tree, d: nat, n: string)
    requires Dots(t) && Sound(t) && (forall c :: c in t.dirs ==> Parent(t, c) in t.dirs) && d in t.dirs && n in t.dirs[d]
    ensures t.dirs[d][n].dir ==> t.dirs[d][n].ino in t.dirs
    ensures !t.dirs[d][n].dir ==> !IsDot(n)
  {
    assert DotsOk(t, d) && Parent(t, d) in t.dirs;
    if !IsDot(n) {
      assert Holds(t, d, n, t.dirs[d][n]);
    }
  }

  lemma ParentsIn(t: Tree, depth: map<nat, nat>)
    requires TreeOk(t, depth)
    ensures forall c :: c in t.dirs ==> Parent(t, c) in t.dirs
  {
  }

  /** chdir then getcwd: an absolute path that leads to a directory leads to the one whose
  path from the root is the washed path, and the washed path leads there too. */
  lemma CwdIsWashedPath(t: Tree, depth: map<nat, nat>, path: string)
    requires TreeOk(t, depth) && Search(t, path).At? && Search(t, path).link.dir
    ensures var d := Search(t, path).link.ino;
            && d in t.dirs && Render(PathTo(t, depth, d)) == Washed(path)
            && Search(t, Washed(path)).At? && Search(t, Washed(path)).link == Link(d, true)
  {
    hide Sound, OnePlace, Rooted, FilesPlaced, PathTo;
    var names := Components(path);
    var d := Search(t, path).link.ino;
    ParentsIn(t, depth);
    SpecialPaths();
    if path == "/" || path == "/." || path == "/.." {
      RootFacts(t, depth);
    } else {
      LookupDir(t, ROOT, names, 0);
    }
    RootFacts(t, depth);
    WalkIsPath(t, depth, ROOT, names);
    PathLeadsBack(t, depth, d);
    WashedNoLonger(path);
    SearchRendered(t, depth, d);
  }

  lemma SpecialPaths()
    ensures Components("/") == [] && Components("/.") == ["."] && Components("/..") == [".."]
  {
    assert Parse("/") == ("", None) by {
      assert "/"[1..] == "";
    }
    ParseSlashed(".", "");
    assert "/" + "." + "" == "/.";
    ParseSlashed("..", "");
    assert "/" + ".." + "" == "/..";
  }

  lemma RootFacts(t: Tree, depth: map<nat, nat>)
    requires TreeOk(t, depth)
    ensures ROOT in t.dirs && PathTo(t, depth, ROOT) == []
    ensures Resolve(t, ROOT, []) == Resolve(t, ROOT, ["."]) == Resolve(t, ROOT, [".."]) == Some(ROOT)
  {
    assert DotsOk(t, ROOT);
    assert ["."][1..] == [] && [".."][1..] == [];
  }

  lemma SearchRendered(t: Tree, depth: map<nat, nat>, d: nat)
    requires TreeOk(t, depth) && d in t.dirs && Resolve(t, ROOT, PathTo(t, depth, d)) == Some(d)
    requires |Render(PathTo(t, depth, d))| < MAX_PATH_LEN
    ensures var f := Search(t, Render(PathTo(t, depth, d))); f.At? && f.link == Link(d, true)
  {
    hide Sound, OnePlace, Rooted, FilesPlaced;
    var names := PathTo(t, depth, d);
    ComponentsOfRender(names);
    ParentsIn(t, depth);
    SpecialPaths();
    RootFacts(t, depth);
    RenderedRoot(names);
    if names != [] {
      assert Render(names)[0] == '/' && |Render(names)| > 1;
      LookupDir(t, ROOT, names, 0);
    }
  }

  // ---------------------------------------------------------------------------
  // sys_getcwd
  // ---------------------------------------------------------------------------

  function Reversed(names: seq<string>): (r: seq<string>)
    ensures |r| == |names| && forall i :: 0 <= i < |names| ==> r[i] == names[|names| - 1 - i]
  {
    seq(|names|, i requires 0 <= i < |names| => names[|names| - 1 - i])
  }

  /** In its parent, a directory is listed under one name; no dot entry has its number. */
  lemma OnlyName(t: Tree, depth: map<nat, nat>, d: nat, n: string)
    requires TreeOk(t, depth) && d in t.dirs && d != ROOT
    requires n in t.dirs[Parent(t, d)] && t.dirs[Parent(t, d)][n].ino == d
    ensures PathTo(t, depth, d) == PathTo(t, depth, Parent(t, d)) + [n]
  {
    hide FilesPlaced;
    var p := Parent(t, d);
    assert DotsOk(t, p);
    assert p != d && Parent(t, p) != d;
    var m :| Holds(t, p, m, Link(d, true));
    assert Holds(t, p, n, t.dirs[p][n]);
    PathToChild(t, depth, p, m, d);
  }

  /** sys_getcwd: up from `cwd` along .., collecting names in reverse, then turned round at
  every slash. */
  method GetCwd(t: Tree, cwd: nat, ghost depth: map<nat, nat>) returns (buf: string)
    requires TreeOk(t, depth) && cwd in t.dirs
    ensures buf == Render(PathTo(t, depth, cwd))
  {
    hide Sound, OnePlace, FilesPlaced, PathTo, Slashed, Reversed, Render;
    RootFacts(t, depth);
    Empty();
    if cwd == ROOT {
      return "/";
    }
    var reverse := "";
    var child := cwd;
    ghost var names: seq<string> := [];
    while child != ROOT
      invariant child in t.dirs && AllProper(names) && reverse == Slashed(Reversed(names))
      invariant PathTo(t, depth, cwd) == PathTo(t, depth, child) + names
      decreases depth[child]
    {
      var parent := Parent(t, child);
      assert exists n :: Holds(t, Parent(t, child), n, Link(child, true));
      var n :| n in t.dirs[parent] && t.dirs[parent][n].ino == child;
      OnlyName(t, depth, child, n);
      Collected(names, n);
      ProperLast(t, depth, child, parent, n);
      assert PathTo(t, depth, parent) + [n] + names == PathTo(t, depth, parent) + ([n] + names);
      reverse := reverse + "/" + n;
      names := [n] + names;
      child := parent;
    }
    assert [] + names == names;
    buf := Turn(reverse, names);
    NotRoot(t, depth, cwd);
    RenderNames(names);
  }

  lemma Empty()
    ensures Render([]) == "/" && Slashed(Reversed([])) == ""
  {
  }

  lemma RenderNames(names: seq<string>)
    requires names != []
    ensures Render(names) == Slashed(names)
  {
  }

  lemma Collected(names: seq<string>, n: string)
    ensures Slashed(Reversed([n] + names)) == Slashed(Reversed(names)) + "/" + n
  {
    SlashedConcat(Reversed(names), [n]);
    SlashedOne(n);
    assert Reversed([n] + names) == Reversed(names) + [n];
  }

  lemma ProperLast(t: Tree, depth: map<nat, nat>, d: nat, p: nat, n: string)
    requires TreeOk(t, depth) && d in t.dirs && p in t.dirs && PathTo(t, depth, d) == PathTo(t, depth, p) + [n]
    ensures Proper(n)
  {
    var s := PathTo(t, depth, d);
    assert s[|s| - 1] == n;
  }

  lemma NotRoot(t: Tree, depth: map<nat, nat>, d: nat)
    requires TreeOk(t, depth) && d in t.dirs && d != ROOT
    ensures PathTo(t, depth, d) != []
  {
  }

  /** The second loop of sys_getcwd: from the last slash on, piece by piece. */
  method Turn(reverse: string, ghost names: seq<string>) returns (buf: string)
    requires AllProper(names) && reverse == Slashed(Reversed(names))
    ensures buf == Slashed(names)
  {
    buf := "";
    var rev := reverse;
    ghost var all := Reversed(names);
    ghost var k := |names|;
    assert all[..k] == all && names[..0] == [];
    while true
      invariant 0 <= k <= |names| && rev == Slashed(all[..k]) && buf == Slashed(names[..|names| - k])
      decreases k
    {
      assert rev[|rev|..] == "";
      HasSlash(all[..k]);
      var slash := LastSlash(rev, |rev|);
      if slash == |rev| {
        assert names[..|names| - k] == names;
        break;
      }
      assert k > 0;
      LastPiece(all[..k]);
      assert all[..k][..k - 1] == all[..k - 1];
      assert names[..|names| - k + 1] == names[..|names| - k] + [all[k - 1]];
      SlashedConcat(names[..|names| - k], [all[k - 1]]);
      buf := buf + rev[slash..];
      rev := rev[..slash];
      k := k - 1;
    }
  }

  lemma HasSlash(names: seq<string>)
    ensures '/' in Slashed(names) <==> names != []
  {
    if names != [] {
      assert Slashed(names)[0] == '/';
    }
  }

  lemma LastPiece(names: seq<string>)
    requires AllProper(names) && names != []
    ensures var s := Slashed(names); var n := |names| - 1;
            && s[|s|..] == "" && LastSlash(s, |s|) < |s|
            && s[..LastSlash(s, |s|)] == Slashed(names[..n]) && s[LastSlash(s, |s|)..] == Slashed([names[n]])
  {
    hide Slashed, LastSlash;
    var n := |names| - 1;
    LastSlashOf(names);
    SlashedLast(names);
    SlashedOne(names[n]);
    CutAt(Slashed(names[..n]), "/" + names[n]);
  }

  lemma CutAt(a: string, b: string)
    ensures (a + b)[..|a|] == a && (a + b)[|a|..] == b && (a + b)[|a + b|..] == ""
  {
  }
}
