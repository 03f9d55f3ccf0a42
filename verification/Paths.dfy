/** Path strings: path_parse (fs/fs.c) and wash_path (shell/buildin_cmd.c). */
module Paths {
  import opened Basics

  /** A name as it can stand between slashes. */
  predicate Proper(name: string) {
    name != "" && '/' !in name
  }

  predicate AllProper(names: seq<string>) {
    forall i :: 0 <= i < |names| ==> Proper(names[i])
  }

  function SkipSlashes(p: string): (r: string)
    ensures |r| <= |p| && (r == "" || r[0] != '/')
  {
    if p != "" && p[0] == '/' then SkipSlashes(p[1..]) else p
  }

  /** The characters before the first slash. */
  function Leading(p: string): (r: string)
    ensures |r| <= |p| && r == p[..|r|] && '/' !in r && (|r| == |p| || p[|r|] == '/')
  {
    if p == "" || p[0] == '/' then "" else [p[0]] + Leading(p[1..])
  }

  /** path_parse: the first name, and what follows it. */
  function Parse(p: string): (r: (string, Option<string>))
    ensures r.1.Some? ==> |r.1.value| <= |p| && (r.0 != "" ==> |r.1.value| < |p|)
    ensures r.0 == "" || Proper(r.0)
  {
    var q := SkipSlashes(p);
    var name := Leading(q);
    (name, if |name| == |q| then None else Some(q[|name|..]))
  }

  /** The names of a path: what repeated path_parse yields until the first empty name. */
  function Components(p: string): (r: seq<string>)
    ensures AllProper(r)
    decreases |p|
  {
    var (name, rest) := Parse(p);
    if name == "" then [] else [name] + (if rest.Some? then Components(rest.value) else [])
  }

  /** An absolute path from its names. */
  function Render(names: seq<string>): string {
    if names == [] then "/" else Slashed(names)
  }

  function Slashed(names: seq<string>): string {
    if names == [] then "" else "/" + names[0] + Slashed(names[1..])
  }

  // ---------------------------------------------------------------------------
  // Parsing what was rendered
  // ---------------------------------------------------------------------------

  lemma {:induction false} LeadingOf(name: string, tail: string)
    requires '/' !in name && (tail == "" || tail[0] == '/')
    ensures Leading(name + tail) == name
    decreases |name|
  {
    if name == "" {
      assert name + tail == tail;
    } else {
      assert name[0] in name && '/' !in name[1..];
      LeadingOf(name[1..], tail);
      assert (name + tail)[1..] == name[1..] + tail;
    }
  }

  lemma ParseSlashed(name: string, tail: string)
    requires Proper(name) && (tail == "" || tail[0] == '/')
    ensures Parse("/" + name + tail) == (name, if tail == "" then None else Some(tail))
  {
    var p := "/" + name + tail;
    assert p[1..] == name + tail;
    assert name[0] in name;
    assert SkipSlashes(p) == SkipSlashes(name + tail) == name + tail;
    LeadingOf(name, tail);
    assert (name + tail)[|name|..] == tail;
  }

  lemma {:induction false} ComponentsOfSlashed(names: seq<string>)
    requires AllProper(names)
    ensures Components(Slashed(names)) == names
    decreases |names|
  {
    if names != [] {
      var tail := Slashed(names[1..]);
      assert tail == "" || tail[0] == '/';
      ParseSlashed(names[0], tail);
      ComponentsOfSlashed(names[1..]);
      assert names == [names[0]] + names[1..];
    }
  }

  /** Names survive being rendered and parsed again. */
  lemma ComponentsOfRender(names: seq<string>)
    requires AllProper(names)
    ensures Components(Render(names)) == names
  {
    if names == [] {
      assert "/"[1..] == "";
      assert Components("/") == [];
    } else {
      ComponentsOfSlashed(names);
    }
  }

  lemma LeadingSlash(p: string)
    requires p != "" && p[0] == '/'
    ensures Components(p) == Components(p[1..])
  {
    assert SkipSlashes(p) == SkipSlashes(p[1..]);
  }

  /** A first name that ends the string or is followed by a slash. */
  lemma FirstComponent(name: string, tail: string)
    requires Proper(name) && (tail == "" || tail[0] == '/')
    ensures Components(name + tail) == [name] + Components(tail)
  {
    var p := name + tail;
    assert p[0] == name[0] && name[0] in name;
    assert SkipSlashes(p) == p;
    LeadingOf(name, tail);
    assert p[|name|..] == tail;
    if tail == "" {
      assert Components(tail) == [];
    }
  }

  /** A name alone is its own only component. Together with ComponentsConcat this determines
  the names of every path. */
  lemma ComponentsOfName(name: string)
    requires '/' !in name
    ensures Components(name) == if name == "" then [] else [name]
  {
    if name != "" {
      FirstComponent(name, "");
      assert name + "" == name;
    }
  }

  /** The names of two paths joined by a slash are the names of the one and then those of the
  other, however many slashes there are. */
  lemma {:induction false} ComponentsConcat(a: string, b: string)
    ensures Components(a + "/" + b) == Components(a) + Components(b)
    decreases |a|
  {
    hide Components;
    var p := a + "/" + b;
    if a == "" {
      assert p[1..] == b;
      LeadingSlash(p);
      ComponentsOfName("");
      assert Components(a) + Components(b) == Components(b);
    } else if a[0] == '/' {
      assert p[1..] == a[1..] + "/" + b;
      LeadingSlash(p);
      LeadingSlash(a);
      ComponentsConcat(a[1..], b);
    } else {
      var name := Leading(a);
      var tail := a[|name|..];
      assert a == name + tail;
      assert p == name + (tail + "/" + b);
      FirstComponent(name, tail);
      FirstComponent(name, tail + "/" + b);
      ComponentsConcat(tail, b);
      assert [name] + Components(tail) + Components(b) == [name] + (Components(tail) + Components(b));
    }
  }

  lemma {:induction false} SlashedConcat(a: seq<string>, b: seq<string>)
    ensures Slashed(a + b) == Slashed(a) + Slashed(b)
    decreases |a|
  {
    if a == [] {
      assert a + b == b;
    } else {
      SlashedConcat(a[1..], b);
      assert (a + b)[1..] == a[1..] + b;
    }
  }

  lemma SlashedOne(name: string)
    ensures Slashed([name]) == "/" + name
  {
    assert [name][1..] == [];
  }

  lemma SlashedLast(names: seq<string>)
    requires names != []
    ensures var n := |names| - 1; Slashed(names) == Slashed(names[..n]) + ("/" + names[n])
  {
    hide Slashed;
    var n := |names| - 1;
    var head, last := names[..n], [names[n]];
    assert head + last == names;
    SlashedConcat(head, last);
    SlashedOne(names[n]);
  }

  // ---------------------------------------------------------------------------
  // wash_path
  // ---------------------------------------------------------------------------

  /** One name after another: .. goes up, . stays. */
  function Walked(stack: seq<string>, names: seq<string>): (r: seq<string>)
    ensures AllProper(stack) && AllProper(names) ==> AllProper(r)
    decreases |names|
  {
    if names == [] then stack
    else
      var n := names[0];
      var next := if n == ".." then (if stack == [] then [] else stack[..|stack| - 1])
                  else if n == "." then stack
                  else stack + [n];
      Walked(next, names[1..])
  }

  predicate NoDots(names: seq<string>) {
    forall i :: 0 <= i < |names| ==> names[i] != "." && names[i] != ".."
  }

  lemma {:induction false} WalkedNoDots(stack: seq<string>, names: seq<string>)
    requires NoDots(stack)
    ensures NoDots(Walked(stack, names))
    decreases |names|
  {
    if names != [] {
      var n := names[0];
      var next := if n == ".." then (if stack == [] then [] else stack[..|stack| - 1])
                  else if n == "." then stack
                  else stack + [n];
      WalkedNoDots(next, names[1..]);
    }
  }

  lemma {:induction false} WalkedPlain(stack: seq<string>, names: seq<string>)
    requires NoDots(names)
    ensures Walked(stack, names) == stack + names
    decreases |names|
  {
    if names == [] {
      assert stack + names == stack;
    } else {
      WalkedPlain(stack + [names[0]], names[1..]);
      assert stack + names == stack + [names[0]] + names[1..];
    }
  }

  /** strrchr(s, '/'): the last slash, or the length if there is none. */
  function LastSlash(s: string, i: nat): (r: nat)
    requires i <= |s| && '/' !in s[i..]
    ensures r <= |s| && (r < |s| ==> s[r] == '/' && '/' !in s[r + 1..]) && (r == |s| ==> '/' !in s)
    decreases i
  {
    if i == 0 then (assert s[0..] == s; |s|)
    else if s[i - 1] == '/' then i - 1
    else
      assert s[i - 1..] == [s[i - 1]] + s[i..];
      LastSlash(s, i - 1)
  }

  /** The last slash of a rendered path starts its last name. */
  lemma LastSlashOf(names: seq<string>)
    requires AllProper(names) && names != []
    ensures var s := Slashed(names); var n := |names| - 1;
            '/' !in s[|s|..] && LastSlash(s, |s|) == |Slashed(names[..n])| && s[..LastSlash(s, |s|)] == Slashed(names[..n])
  {
    var n := |names| - 1;
    var s, head := Slashed(names), Slashed(names[..n]);
    SlashedLast(names);
    assert s[|s|..] == "";
    assert s[|head|] == '/';
    assert s[|head| + 1..] == names[n];
    LastSlashIs(s, |s|, |head|);
  }

  lemma {:induction false} LastSlashIs(s: string, k: nat, i: nat)
    requires i < k <= |s| && s[i] == '/' && '/' !in s[i + 1..] && '/' !in s[k..]
    ensures LastSlash(s, k) == i
    decreases k
  {
    if k - 1 > i {
      assert s[k - 1] in s[i + 1..];
      assert s[k - 1..] == [s[k - 1]] + s[k..];
      LastSlashIs(s, k - 1, i);
    }
  }

  /** wash_path, on the string it builds: the result is the path without . and .. */
  method WashPath(path: string) returns (r: string)
    requires path != "" && path[0] == '/'
    ensures r == Render(Walked([], Components(path)))
  {
    var (name, rest) := Parse(path);
    if name == "" {
      return "/";
    }
    r := "/";
    ghost var stack: seq<string> := [];
    ghost var left := Components(path);
    while name != ""
      invariant AllProper(stack) && r == Render(stack)
      invariant left == if name == "" then [] else [name] + (if rest.Some? then Components(rest.value) else [])
      invariant Walked([], Components(path)) == Walked(stack, left)
      invariant name == "" || Proper(name)
      decreases |left|
    {
      assert left[1..] == if rest.Some? then Components(rest.value) else [];
      if name == ".." {
        r := Up(r, stack);
        stack := if stack == [] then [] else stack[..|stack| - 1];
      } else if name != "." {
        Deeper(stack, name);
        if r != "/" {
          r := r + "/";
        }
        r := r + name;
        stack := stack + [name];
      }
      left := left[1..];
      name := "";
      if rest.Some? {
        var (n, more) := Parse(rest.value);
        name, rest := n, more;
      }
    }
  }

  /** The .. case of wash_path: cut at the last slash, or keep only the first one. */
  method Up(path: string, ghost stack: seq<string>) returns (r: string)
    requires AllProper(stack) && path == Render(stack)
    ensures r == Render(if stack == [] then [] else stack[..|stack| - 1])
  {
    assert path[|path|..] == "";
    var slash := LastSlash(path, |path|);
    if stack != [] {
      LastSlashOf(stack);
    } else {
      assert path[0] == '/' && path[0] in path;
    }
    if slash != 0 {
      r := path[..slash];
    } else {
      r := path[..1];
      if stack != [] {
        OneName(stack);
      }
    }
  }

  lemma OnlyRoot(stack: seq<string>)
    requires AllProper(stack) && Render(stack) == "/"
    ensures stack == []
  {
    RenderedRoot(stack);
  }

  lemma RenderedRoot(stack: seq<string>)
    requires AllProper(stack)
    ensures Render(stack) == "/" <==> stack == []
  {
    if stack != [] {
      assert |Slashed(stack)| >= 1 + |stack[0]|;
    }
  }

  lemma OneName(stack: seq<string>)
    requires AllProper(stack) && stack != [] && Slashed(stack[..|stack| - 1]) == ""
    ensures stack[..|stack| - 1] == [] && Slashed(stack)[..1] == "/"
  {
  }

  lemma Deeper(stack: seq<string>, name: string)
    requires AllProper(stack) && Proper(name)
    ensures Render(stack + [name]) == (if Render(stack) == "/" then "/" else Render(stack) + "/") + name
  {
    SlashedConcat(stack, [name]);
    SlashedOne(name);
    if stack != [] && Render(stack) == "/" {
      OnlyRoot(stack);
    }
  }

  /** The path shell commands hand to the kernel. */
  function Washed(path: string): string {
    Render(Walked([], Components(path)))
  }

  /** A washed path has no . or .., and washing it again changes nothing. */
  lemma WashedIsClean(path: string)
    ensures NoDots(Components(Washed(path))) && Washed(Washed(path)) == Washed(path)
    ensures Washed(path)[0] == '/' && !DoubleSlash(Washed(path))
  {
    var names := Walked([], Components(path));
    WalkedNoDots([], Components(path));
    ComponentsOfRender(names);
    WalkedPlain([], names);
    assert [] + names == names;
    NoDoubleSlash(names);
  }

  lemma {:induction false} ComponentsNoLonger(p: string)
    ensures |Slashed(Components(p))| <= |p| + (if p == "" || p[0] == '/' then 0 else 1)
    decreases |p|
  {
    var (name, rest) := Parse(p);
    if name != "" {
      ParseLength(p);
      if rest.Some? {
        ComponentsNoLonger(rest.value);
        assert Components(p)[1..] == Components(rest.value);
      } else {
        assert Components(p) == [name];
        SlashedOne(name);
      }
    }
  }

  lemma {:induction false} SkipLength(p: string)
    ensures p != "" && p[0] == '/' ==> |SkipSlashes(p)| < |p|
    decreases |p|
  {
    if p != "" && p[0] == '/' {
      SkipLength(p[1..]);
    }
  }

  lemma ParseLength(p: string)
    requires Parse(p).0 != ""
    ensures var (name, rest) := Parse(p);
            var slash := if p[0] == '/' then 1 else 0;
            && p != "" && slash + |name| + (if rest.Some? then |rest.value| else 0) <= |p|
            && (rest.Some? ==> rest.value != "" && rest.value[0] == '/')
  {
    SkipLength(p);
  }

  lemma {:induction false} WalkedNoLonger(stack: seq<string>, names: seq<string>)
    ensures |Slashed(Walked(stack, names))| <= |Slashed(stack)| + |Slashed(names)|
    decreases |names|
  {
    if names != [] {
      var n := names[0];
      if n == ".." {
        if stack != [] {
          SlashedLast(stack);
        }
        WalkedNoLonger(if stack == [] then [] else stack[..|stack| - 1], names[1..]);
      } else if n == "." {
        WalkedNoLonger(stack, names[1..]);
      } else {
        SlashedConcat(stack, [n]);
        SlashedOne(n);
        WalkedNoLonger(stack + [n], names[1..]);
      }
    }
  }

  /** Washing never makes a path longer, so it fits where the path did. */
  lemma WashedNoLonger(path: string)
    requires path != "" && path[0] == '/'
    ensures |Washed(path)| <= |path|
  {
    ComponentsNoLonger(path);
    WalkedNoLonger([], Components(path));
  }

  predicate DoubleSlash(s: string) {
    exists i :: 0 <= i < |s| - 1 && s[i] == '/' && s[i + 1] == '/'
  }

  lemma {:induction false} NoDoubleSlash(names: seq<string>)
    requires AllProper(names)
    ensures !DoubleSlash(Slashed(names)) && (names == [] || Slashed(names)[0] == '/')
    decreases |names|
  {
    if names != [] {
      NoDoubleSlash(names[1..]);
      var s, name, tail := Slashed(names), names[0], Slashed(names[1..]);
      assert s == "/" + name + tail;
      forall i | 0 <= i < |s| - 1 ensures s[i] != '/' || s[i + 1] != '/' {
        if i < |name| {
          assert s[i + 1] == name[i] && name[i] in name;
        } else if i == |name| {
          assert s[i] == name[i - 1] && name[i - 1] in name;
        } else {
          assert s[i] == tail[i - 1 - |name|] && s[i + 1] == tail[i - |name|];
        }
      }
    }
  }
}
