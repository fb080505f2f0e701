/** The `path/filepath` operations the agent applies to file names, on a '/'-separated
    file system. Paths are compared as plain strings: no lexical cleaning is performed. */
module Paths {
  import opened Common

  /** `os.PathSeparator` of the modelled platform. */
  const Sep: char := '/'

  predicate HasSep(s: string) {
    Sep in s
  }

  /** The path without its trailing separators. */
  function StripTrailingSeps(p: string): (r: string)
    ensures |r| <= |p| && r == p[..|r|]
    ensures forall k :: |r| <= k < |p| ==> p[k] == Sep
    ensures r != [] ==> r[|r| - 1] != Sep
  {
    if p != [] && p[|p| - 1] == Sep then StripTrailingSeps(p[..|p| - 1]) else p
  }

  /** The final element: everything after the last separator. */
  function LastElement(p: string): (r: string)
    ensures |r| <= |p| && r == p[|p| - |r|..]
    ensures !HasSep(r)
    ensures |r| < |p| ==> p[|p| - |r| - 1] == Sep
  {
    if p == [] || p[|p| - 1] == Sep then []
    else
      var init := p[..|p| - 1];
      var e := LastElement(init);
      var r := e + [p[|p| - 1]];
      assert p[|p| - |r|..] == init[|init| - |e|..] + [p[|p| - 1]];
      assert Sep !in r by {
        assert Sep !in e && p[|p| - 1] != Sep;
      }
      assert |r| < |p| ==> p[|p| - |r| - 1] == init[|init| - |e| - 1];
      r
  }

  /** `filepath.Base`: the last element of the path after trailing separators are removed;
      "." for the empty path and "/" for a path made only of separators. */
  function Base(path: string): (r: string)
    ensures r != []
    ensures r == [Sep] || !HasSep(r)
    ensures path == [] ==> r == "."
    ensures path != [] && !HasSep(path) ==> r == path
  {
    if path == [] then "."
    else
      var p := StripTrailingSeps(path);
      if p == [] then [Sep]
      else
        var e := LastElement(p);
        assert e != [] by { assert p[|p| - 1] != Sep; }
        e
  }

  /** `filepath.Join` of a directory and one element, without the final `Clean`. */
  function Join(dir: string, elem: string): (r: string)
    ensures dir != [] ==> |r| == |dir| + 1 + |elem| && r[..|dir|] == dir && r[|dir|] == Sep
  {
    if dir == [] then elem else dir + [Sep] + elem
  }

  /** The last element of a path ending in a separator followed by a separator-free tail
      is that tail. */
  lemma {:induction false} LastElementAfterSep(prefix: string, tail: string)
    requires prefix != [] && prefix[|prefix| - 1] == Sep
    requires !HasSep(tail)
    ensures LastElement(prefix + tail) == tail
  {
    if tail != [] {
      var p := prefix + tail;
      assert p[..|p| - 1] == prefix + tail[..|tail| - 1];
      var init := tail[..|tail| - 1];
      assert !HasSep(init);
      LastElementAfterSep(prefix, init);
      assert p[|p| - 1] == tail[|tail| - 1];
      assert tail[|tail| - 1] != Sep;
      assert tail[..|tail| - 1] + [tail[|tail| - 1]] == tail;
    }
  }

  /** The directory part of a path: everything before its last separator. */
  function Parent(path: string): (r: Option<string>)
    ensures r.Some? ==> |r.value| < |path| && path[..|r.value|] == r.value && path[|r.value|] == Sep
    ensures r.Some? ==> !HasSep(path[|r.value| + 1..])
    ensures r.None? <==> !HasSep(path)
  {
    if path == [] then None
    else if path[|path| - 1] == Sep then Some(path[..|path| - 1])
    else
      var p := Parent(path[..|path| - 1]);
      assert p.Some? ==> path[|p.value| + 1..] == path[..|path| - 1][|p.value| + 1..] + [path[|path| - 1]];
      assert HasSep(path[..|path| - 1]) ==> HasSep(path);
      assert HasSep(path) && path[|path| - 1] != Sep ==> HasSep(path[..|path| - 1]) by {
        if HasSep(path) && path[|path| - 1] != Sep {
          var k :| 0 <= k < |path| && path[k] == Sep;
          assert path[..|path| - 1][k] == Sep;
        }
      }
      p
  }

  /** `filepath.Dir` without the final cleaning: "." for a path with no separator, "/"
      when the only separator leads the path, otherwise the part before the last
      separator. */
  function Dir(path: string): (r: string)
    ensures r != []
    ensures !HasSep(path) ==> r == "."
    ensures HasSep(path) ==> r == (if Parent(path).value == [] then [Sep] else Parent(path).value)
  {
    match Parent(path)
    case None => "."
    case Some(d) => if d == [] then [Sep] else d
  }

  /** The directory of `Join(dir, name)` is `dir` when `name` is a single element. */
  lemma {:induction false} ParentOfJoin(dir: string, name: string)
    requires dir != [] && !HasSep(name)
    ensures Parent(Join(dir, name)) == Some(dir)
    decreases |name|
  {
    var j := Join(dir, name);
    if name == [] {
      assert j == dir + [Sep];
      assert j[..|j| - 1] == dir;
    } else {
      var init := name[..|name| - 1];
      assert !HasSep(init) by {
        forall k | 0 <= k < |init| ensures init[k] != Sep {
          assert init[k] == name[k];
        }
      }
      ParentOfJoin(dir, init);
      assert j[..|j| - 1] == Join(dir, init);
      assert j[|j| - 1] == name[|name| - 1];
    }
  }

  /** A file name joined under any directory has that name as its base: this is what puts
      an archived file at `<dest>/<base name>`. */
  lemma BaseOfJoin(dir: string, name: string)
    requires name != [] && !HasSep(name)
    ensures Base(Join(dir, name)) == name
  {
    if dir != [] {
      var j := Join(dir, name);
      assert j[|j| - 1] == name[|name| - 1];
      assert name[|name| - 1] != Sep;
      assert StripTrailingSeps(j) == j;
      assert j == (dir + [Sep]) + name;
      LastElementAfterSep(dir + [Sep], name);
    }
  }

  /** The base name of a base name is itself. */
  lemma BaseIdempotent(path: string)
    ensures Base(Base(path)) == Base(path)
  {
  }
}
