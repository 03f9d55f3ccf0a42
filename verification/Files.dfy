/** All files of a partition together: what file_write and inode_release on one file mean
for the others and for whatever else has sectors. */
module Files {
  import opened Basics
  import opened FileBlocks

  /** A file's inode and its blocks. */
  datatype File = File(node: Node, list: seq<nat>)

  datatype System = System(v: Volume, files: map<nat, File>)

  predicate Shaped(files: map<nat, File>) {
    forall g :: g in files ==> |files[g].node.sectors| == 13
  }

  function Occupied(file: File): set<nat>
    requires |file.node.sectors| == 13
  {
    set x | x in Own(file.node.sectors, file.list)
  }

  /** The sectors in use by anything but file `f`; `base` are those of directories. */
  function Rest(files: map<nat, File>, base: set<nat>, f: nat): set<nat>
    requires Shaped(files)
  {
    base + set g, x | g in files && g != f && x in Occupied(files[g]) :: x
  }

  function InUse(files: map<nat, File>, base: set<nat>): set<nat>
    requires Shaped(files)
  {
    base + set g, x | g in files && x in Occupied(files[g]) :: x
  }

  /** Every file is well formed, no sector belongs to two files or to a file and a
  directory, and the bitmap's bits are exactly the sectors in use. */
  ghost predicate SystemOk(s: System, base: set<nat>) {
    && Shaped(s.files) && Ours(s.v, [], InUse(s.files, base))
    && forall f :: f in s.files ==> FileOk(s.v, s.files[f].node, s.files[f].list, Rest(s.files, base, f))
  }

  ghost predicate HasBytes(s: System, f: nat) {
    f in s.files && InDisk(s.v.disk, s.files[f].list) && s.files[f].node.size <= 512 * |s.files[f].list|
  }

  ghost function Bytes(s: System, f: nat): seq<Byte>
    requires HasBytes(s, f)
  {
    Content(s.v.disk, s.files[f].list, s.files[f].node.size)
  }

  // ---------------------------------------------------------------------------
  // Steps
  // ---------------------------------------------------------------------------

  datatype Op = Create(f: nat) | Append(f: nat, data: seq<Byte>) | Delete(f: nat)

  /** inode_init */
  function NewFile(): File {
    File(Node(0, [0, 0, 0, 0, 0, 0, 0, 0, 0, 0, 0, 0, 0]), [])
  }

  ghost predicate SameSpace(v: Volume, v': Volume) {
    v'.start == v.start && |v'.bits| == |v.bits| && |v'.disk| == |v.disk|
  }

  /** An operation that changes file `f` and writes no sector of the rest. */
  ghost predicate Touches(s: System, s': System, base: set<nat>, f: nat) {
    && f in s.files && f in s'.files && s'.files == s.files[f := s'.files[f]]
    && Shaped(s.files) && FileOk(s'.v, s'.files[f].node, s'.files[f].list, Rest(s.files, base, f))
    && SameSpace(s.v, s'.v)
    && forall x: nat :: x < |s.v.disk| && x !in Occupied(s'.files[f]) ==> s'.v.disk[x] == s.v.disk[x]
  }

  ghost predicate Step(s: System, s': System, base: set<nat>, op: Op) {
    match op
    case Create(f) => f !in s.files && s' == s.(files := s.files[f := NewFile()])
    case Append(f, data) =>
      Touches(s, s', base, f) && HasBytes(s, f) && HasBytes(s', f) && Bytes(s', f) == Bytes(s, f) + data
    case Delete(f) =>
      && f in s.files && s'.files == s.files - {f} && Shaped(s.files)
      && SameSpace(s.v, s'.v) && s'.v.disk == s.v.disk && Ours(s'.v, [], Rest(s.files, base, f))
  }

  lemma RestSplit(files: map<nat, File>, base: set<nat>, f: nat)
    requires Shaped(files) && f in files
    ensures Rest(files, base, f) + Occupied(files[f]) == InUse(files, base)
  {
    forall x | x in InUse(files, base) ensures x in Rest(files, base, f) + Occupied(files[f]) {
      if x !in base {
        var g :| g in files && x in Occupied(files[g]);
        assert g != f ==> x in Rest(files, base, f);
      }
    }
  }

  /** After touching `f`, the rest of another file `g` has the new sectors of `f`. */
  lemma RestMember(files: map<nat, File>, files': map<nat, File>, base: set<nat>, f: nat, g: nat, x: nat)
    requires Shaped(files) && Shaped(files') && f in files && g in files && f != g
    requires f in files' && files' == files[f := files'[f]]
    ensures x in Rest(files', base, g) ==> x in Occupied(files'[f]) || x in Rest(files, base, g)
    ensures x in Occupied(files'[f]) ==> x in Rest(files', base, g)
    ensures x in Occupied(files[g]) ==> x in Rest(files, base, f)
  {
    if x in Rest(files', base, g) && x !in base {
      var h :| h in files' && h != g && x in Occupied(files'[h]);
      assert h == f || x in Rest(files, base, g);
    }
  }

  lemma SameInUse(files: map<nat, File>, files': map<nat, File>, base: set<nat>, f: nat)
    requires Shaped(files) && Shaped(files') && f in files && f in files' && files' == files[f := files'[f]]
    ensures Rest(files', base, f) == Rest(files, base, f)
  {
    forall x ensures x in Rest(files', base, f) <==> x in Rest(files, base, f) {
      if x in Rest(files', base, f) && x !in base {
        var h :| h in files' && h != f && x in Occupied(files'[h]);
        assert files'[h] == files[h];
      }
      if x in Rest(files, base, f) && x !in base {
        var h :| h in files && h != f && x in Occupied(files[h]);
        assert files'[h] == files[h];
      }
    }
  }

  /** Ownership of another file is not disturbed. */
  lemma OtherOurs(v: Volume, own: seq<nat>, rest: set<nat>, v': Volume, rest': set<nat>, mine': set<nat>, all': set<nat>)
    requires Ours(v, own, rest) && SameSpace(v, v')
    requires Ours(v', [], all') && (set x | x in own) + rest' == all' && v'.start in rest'
    requires (set x | x in own) !! mine' && forall x :: x in rest' ==> x in mine' || x in rest
    ensures Ours(v', own, rest')
  {
    var mine := set x | x in own;
    forall x | x in own ensures x !in rest' && v'.start <= x < v'.start + |v'.bits| {
      assert x in mine;
    }
    forall b: nat | b < |v'.bits| ensures v'.bits[b] <==> v'.start + b in rest' || v'.start + b in own {
      assert v'.start + b in own <==> v'.start + b in mine;
    }
  }

  /** Blocks and table of a file whose sectors were not written. */
  lemma OtherNames(v: Volume, v': Volume, file: File)
    requires |file.node.sectors| == 13 && Names(file.node.sectors, file.list, v.disk) && |v'.disk| == |v.disk|
    requires forall x: nat :: x in Occupied(file) ==> x < |v.disk| && v'.disk[x] == v.disk[x]
    ensures Names(file.node.sectors, file.list, v'.disk)
  {
    if file.node.sectors[12] != 0 {
      assert Own(file.node.sectors, file.list)[0] == file.node.sectors[12];
      assert file.node.sectors[12] in Occupied(file);
    }
  }

  lemma InOwn(file: File, i: nat)
    requires |file.node.sectors| == 13 && i < |file.list|
    ensures file.list[i] in Occupied(file)
  {
    assert Own(file.node.sectors, file.list)[|TableOf(file.node.sectors)| + i] == file.list[i];
  }

  /** Every sector of a well-formed file lies in the data area and nowhere in the rest. */
  lemma OccupiedPlace(v: Volume, file: File, rest: set<nat>, x: nat)
    requires |file.node.sectors| == 13 && Ours(v, Own(file.node.sectors, file.list), rest) && x in Occupied(file)
    ensures x !in rest && x < |v.disk|
  {
  }

  lemma TouchedDisk(s: System, s': System, base: set<nat>, f: nat, g: nat)
    requires SystemOk(s, base) && Touches(s, s', base, f) && g in s.files && g != f
    ensures forall x: nat :: x in Occupied(s.files[g]) ==> x < |s.v.disk| && x !in Occupied(s'.files[f]) && s'.v.disk[x] == s.v.disk[x]
  {
    forall x: nat | x in Occupied(s.files[g])
      ensures x < |s.v.disk| && x !in Occupied(s'.files[f]) && s'.v.disk[x] == s.v.disk[x]
    {
      RestMember(s.files, s'.files, base, f, g, x);
      OccupiedPlace(s.v, s.files[g], Rest(s.files, base, g), x);
      if x in Occupied(s'.files[f]) {
        OccupiedPlace(s'.v, s'.files[f], Rest(s.files, base, f), x);
      }
    }
  }

  lemma TouchedUse(s: System, s': System, base: set<nat>, f: nat)
    requires Shaped(s.files) && Touches(s, s', base, f)
    ensures Shaped(s'.files) && Ours(s'.v, [], InUse(s'.files, base))
  {
    RestSplit(s'.files, base, f);
    SameInUse(s.files, s'.files, base, f);
    var rest, own := Rest(s.files, base, f), Own(s'.files[f].node.sectors, s'.files[f].list);
    forall x ensures x in InUse(s'.files, base) <==> x in rest || x in own {
    }
  }

  lemma TouchedOther(s: System, s': System, base: set<nat>, f: nat, g: nat)
    requires SystemOk(s, base) && Touches(s, s', base, f) && g in s.files && g != f && s.v.start in base
    requires Shaped(s'.files) && Ours(s'.v, [], InUse(s'.files, base))
    ensures FileOk(s'.v, s'.files[g].node, s'.files[g].list, Rest(s'.files, base, g))
  {
    hide Ours, Names, NoDup, InUse;
    var file := s.files[g];
    TouchedDisk(s, s', base, f, g);
    OtherNames(s.v, s'.v, file);
    RestSplit(s'.files, base, g);
    forall x: nat | x in Rest(s'.files, base, g) ensures x in Occupied(s'.files[f]) || x in Rest(s.files, base, g) {
      RestMember(s.files, s'.files, base, f, g, x);
    }
    OtherOurs(s.v, Own(file.node.sectors, file.list), Rest(s.files, base, g), s'.v, Rest(s'.files, base, g),
              Occupied(s'.files[f]), InUse(s'.files, base));
  }

  lemma TouchKeeps(s: System, s': System, base: set<nat>, f: nat)
    requires SystemOk(s, base) && Touches(s, s', base, f) && s.v.start in base
    ensures SystemOk(s', base)
  {
    hide Ours, FileOk, Touches;
    TouchedUse(s, s', base, f);
    TouchedParts(s, s', base, f);
    SameInUse(s.files, s'.files, base, f);
    forall g | g in s'.files ensures FileOk(s'.v, s'.files[g].node, s'.files[g].list, Rest(s'.files, base, g)) {
      if g != f {
        TouchedOther(s, s', base, f, g);
      }
    }
  }

  lemma TouchedParts(s: System, s': System, base: set<nat>, f: nat)
    requires Touches(s, s', base, f)
    ensures f in s.files && f in s'.files && s'.files == s.files[f := s'.files[f]] && Shaped(s.files)
    ensures FileOk(s'.v, s'.files[f].node, s'.files[f].list, Rest(s.files, base, f))
  {
  }

  /** Operations on one file leave the bytes of every other file alone. */
  lemma OtherBytes(s: System, s': System, base: set<nat>, f: nat, g: nat)
    requires SystemOk(s, base) && Touches(s, s', base, f) && g in s.files && g != f && HasBytes(s, g)
    ensures HasBytes(s', g) && Bytes(s', g) == Bytes(s, g)
  {
    hide Ours, FileOk;
    TouchedDisk(s, s', base, f, g);
    var list := s.files[g].list;
    forall i | 0 <= i < |list| ensures s'.v.disk[list[i]] == s.v.disk[list[i]] {
      InOwn(s.files[g], i);
    }
    ContentFrame(s.v.disk, s'.v.disk, list, s.files[g].node.size);
  }

  lemma CreateKeeps(s: System, base: set<nat>, f: nat)
    requires SystemOk(s, base) && f !in s.files
    ensures SystemOk(s.(files := s.files[f := NewFile()]), base)
  {
    var files' := s.files[f := NewFile()];
    assert NewFile().node.sectors[12] == 0;
    assert Own(NewFile().node.sectors, []) == [];
    forall g | g in files' ensures Rest(files', base, g) == if g == f then InUse(s.files, base) else Rest(s.files, base, g) {
      SameMembers(s.files, files', base, f, g);
    }
    SameUse(s.files, files', base, f);
    forall g | g in files' ensures FileOk(s.v, files'[g].node, files'[g].list, Rest(files', base, g)) {
    }
  }

  lemma SameMembers(files: map<nat, File>, files': map<nat, File>, base: set<nat>, f: nat, g: nat)
    requires Shaped(files) && Shaped(files') && f !in files && f in files' && files' == files[f := files'[f]] && g in files'
    requires Occupied(files'[f]) == {}
    ensures Rest(files', base, g) == if g == f then InUse(files, base) else Rest(files, base, g)
  {
    var want := if g == f then InUse(files, base) else Rest(files, base, g);
    forall x ensures x in Rest(files', base, g) <==> x in want {
      if x in Rest(files', base, g) && x !in base {
        var h :| h in files' && h != g && x in Occupied(files'[h]);
        assert h != f && files'[h] == files[h];
      }
      if x in want && x !in base {
        var h :| h in files && h != g && x in Occupied(files[h]);
        assert files'[h] == files[h];
      }
    }
  }

  lemma SameUse(files: map<nat, File>, files': map<nat, File>, base: set<nat>, f: nat)
    requires Shaped(files) && Shaped(files') && f !in files && f in files' && files' == files[f := files'[f]]
    requires Occupied(files'[f]) == {}
    ensures InUse(files', base) == InUse(files, base)
  {
    SameMembers(files, files', base, f, f);
    RestSplit(files', base, f);
  }

  lemma LessMembers(files: map<nat, File>, base: set<nat>, f: nat, g: nat)
    requires Shaped(files) && f in files && g in files && g != f
    ensures Shaped(files - {f})
    ensures Rest(files - {f}, base, g) + Occupied(files[g]) == Rest(files, base, f)
    ensures Rest(files - {f}, base, g) <= Rest(files, base, g)
  {
    var files' := files - {f};
    forall x | x in Rest(files, base, f) ensures x in Rest(files', base, g) + Occupied(files[g]) {
      if x !in base {
        var h :| h in files && h != f && x in Occupied(files[h]);
        assert h == g || (h in files' && files'[h] == files[h]);
      }
    }
    forall x | x in Rest(files', base, g) ensures x in Rest(files, base, f) && x in Rest(files, base, g) {
      if x !in base {
        var h :| h in files' && h != g && x in Occupied(files'[h]);
        assert h in files && files[h] == files'[h];
      }
    }
  }

  lemma DeletedOurs(v: Volume, own: seq<nat>, rest: set<nat>, v': Volume, rest': set<nat>, all': set<nat>)
    requires Ours(v, own, rest) && SameSpace(v, v') && Ours(v', [], all')
    requires (set x | x in own) + rest' == all' && v'.start in rest' && rest' <= rest
    ensures Ours(v', own, rest')
  {
    OtherOurs(v, own, rest, v', rest', {}, all');
  }

  lemma DeleteKeeps(s: System, s': System, base: set<nat>, f: nat)
    requires SystemOk(s, base) && Step(s, s', base, Delete(f)) && s.v.start in base
    ensures SystemOk(s', base)
  {
    hide Ours, Names, NoDup;
    forall g | g in s'.files ensures FileOk(s'.v, s'.files[g].node, s'.files[g].list, Rest(s'.files, base, g)) {
      LessMembers(s.files, base, f, g);
      DeletedOurs(s.v, Own(s.files[g].node.sectors, s.files[g].list), Rest(s.files, base, g), s'.v,
                  Rest(s'.files, base, g), Rest(s.files, base, f));
    }
    LessUse(s.files, base, f);
  }

  lemma LessUse(files: map<nat, File>, base: set<nat>, f: nat)
    requires Shaped(files) && f in files
    ensures Shaped(files - {f}) && InUse(files - {f}, base) == Rest(files, base, f)
  {
    var files' := files - {f};
    forall x ensures x in InUse(files', base) <==> x in Rest(files, base, f) {
      if x in Rest(files, base, f) && x !in base {
        var h :| h in files && h != f && x in Occupied(files[h]);
        assert h in files' && files'[h] == files[h];
      }
      if x in InUse(files', base) && x !in base {
        var h :| h in files' && x in Occupied(files'[h]);
        assert h in files && h != f && files[h] == files'[h];
      }
    }
  }

  // ---------------------------------------------------------------------------
  // Something else changes beside the files
  // ---------------------------------------------------------------------------

  /** Only sectors of `w` were written. */
  ghost predicate WroteOnly(v: Volume, v': Volume, w: set<nat>) {
    SameSpace(v, v') && forall y: nat :: y < |v.disk| && y !in w ==> v'.disk[y] == v.disk[y]
  }

  /** Files that were not written stay well formed beside a changed rest. */
  lemma FilesStand(s: System, s': System, base: set<nat>, base': set<nat>, w: set<nat>)
    requires SystemOk(s, base) && s'.files == s.files && WroteOnly(s.v, s'.v, w) && s'.v.start in base'
    requires forall f :: f in s.files ==> w !! Occupied(s.files[f])
    requires Ours(s'.v, [], InUse(s.files, base')) && base' <= base + w
    ensures SystemOk(s', base')
  {
    hide Ours, Names, NoDup, InUse, Rest;
    forall f | f in s.files ensures FileOk(s'.v, s.files[f].node, s.files[f].list, Rest(s.files, base', f)) {
      FileStands(s, s', base, base', w, f);
    }
  }

  lemma FileStands(s: System, s': System, base: set<nat>, base': set<nat>, w: set<nat>, f: nat)
    requires SystemOk(s, base) && s'.files == s.files && WroteOnly(s.v, s'.v, w) && s'.v.start in base'
    requires f in s.files && w !! Occupied(s.files[f])
    requires Ours(s'.v, [], InUse(s.files, base')) && base' <= base + w
    ensures FileOk(s'.v, s.files[f].node, s.files[f].list, Rest(s.files, base', f))
  {
    hide Ours, Names, NoDup, InUse;
    var file := s.files[f];
    forall y: nat | y in Occupied(file) ensures y < |s.v.disk| && s'.v.disk[y] == s.v.disk[y] {
      OccupiedPlace(s.v, file, Rest(s.files, base, f), y);
    }
    OtherNames(s.v, s'.v, file);
    RestSplit(s.files, base', f);
    OtherOurs(s.v, Own(file.node.sectors, file.list), Rest(s.files, base, f), s'.v, Rest(s.files, base', f), w,
              InUse(s.files, base'));
  }

  /** No sector belongs to a file and to something else. */
  lemma FilesApart(s: System, base: set<nat>, f: nat)
    requires SystemOk(s, base) && f in s.files
    ensures Occupied(s.files[f]) !! base
  {
    forall y: nat | y in Occupied(s.files[f]) ensures y !in base {
      OccupiedPlace(s.v, s.files[f], Rest(s.files, base, f), y);
    }
  }

  // ---------------------------------------------------------------------------
  // Contents
  // ---------------------------------------------------------------------------

  /** What each file should contain: everything appended since it was created. */
  function Expected(was: map<nat, seq<Byte>>, op: Op): map<nat, seq<Byte>> {
    match op
    case Create(f) => was[f := []]
    case Append(f, data) => if f in was then was[f := was[f] + data] else was
    case Delete(f) => was - {f}
  }

  ghost predicate Matches(s: System, want: map<nat, seq<Byte>>) {
    && want.Keys == s.files.Keys
    && forall f :: f in s.files ==> HasBytes(s, f) && Bytes(s, f) == want[f]
  }

  lemma CreateMatches(s: System, want: map<nat, seq<Byte>>, f: nat)
    requires Matches(s, want) && f !in s.files
    ensures Matches(s.(files := s.files[f := NewFile()]), want[f := []])
  {
    var s' := s.(files := s.files[f := NewFile()]);
    forall g | g in s'.files ensures HasBytes(s', g) && Bytes(s', g) == want[f := []][g] {
      if g != f {
        assert s'.files[g] == s.files[g] && HasBytes(s, g);
      }
    }
  }

  lemma DeleteMatches(s: System, s': System, base: set<nat>, want: map<nat, seq<Byte>>, f: nat)
    requires Matches(s, want) && Step(s, s', base, Delete(f))
    ensures Matches(s', want - {f})
  {
    hide Ours;
    forall g | g in s'.files ensures HasBytes(s', g) && Bytes(s', g) == (want - {f})[g] {
      assert s'.files[g] == s.files[g] && HasBytes(s, g);
    }
  }

  lemma AppendMatches(s: System, s': System, base: set<nat>, want: map<nat, seq<Byte>>, f: nat, data: seq<Byte>)
    requires SystemOk(s, base) && Matches(s, want) && Step(s, s', base, Append(f, data))
    ensures Matches(s', Expected(want, Append(f, data)))
  {
    hide SystemOk, FileOk, Bytes;
    var want' := Expected(want, Append(f, data));
    forall g | g in s'.files ensures HasBytes(s', g) && Bytes(s', g) == want'[g] {
      assert HasBytes(s, g) && Bytes(s, g) == want[g];
      if g != f {
        OtherBytes(s, s', base, f, g);
      }
    }
  }

  lemma StepOk(s: System, s': System, base: set<nat>, op: Op, want: map<nat, seq<Byte>>)
    requires SystemOk(s, base) && Matches(s, want) && Step(s, s', base, op) && s.v.start in base
    ensures SystemOk(s', base) && Matches(s', Expected(want, op)) && s'.v.start == s.v.start
  {
    hide SystemOk, Matches, Bytes, FileOk, Ours;
    match op
    case Create(f) =>
      CreateKeeps(s, base, f);
      CreateMatches(s, want, f);
    case Append(f, data) =>
      TouchKeeps(s, s', base, f);
      AppendMatches(s, s', base, want, f, data);
    case Delete(f) =>
      DeleteKeeps(s, s', base, f);
      DeleteMatches(s, s', base, want, f);
  }

  lemma SameMatches(s: System, s': System, base: set<nat>, w: set<nat>, want: map<nat, seq<Byte>>)
    requires SystemOk(s, base) && Matches(s, want) && s'.files == s.files && WroteOnly(s.v, s'.v, w)
    requires forall f :: f in s.files ==> w !! Occupied(s.files[f])
    ensures Matches(s', want)
  {
    hide SystemOk, Ours;
    forall f | f in s'.files ensures HasBytes(s', f) && Bytes(s', f) == want[f] {
      assert HasBytes(s, f) && Bytes(s, f) == want[f];
      ShapedNow(s, base);
      var list := s.files[f].list;
      forall i | 0 <= i < |list| ensures s'.v.disk[list[i]] == s.v.disk[list[i]] {
        InOwn(s.files[f], i);
      }
      ContentFrame(s.v.disk, s'.v.disk, list, s.files[f].node.size);
    }
  }

  lemma ShapedNow(s: System, base: set<nat>)
    requires SystemOk(s, base)
    ensures Shaped(s.files)
  {
  }
}
