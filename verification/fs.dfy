/** The slice of the operating system's file system that the post-transfer actions touch:
    `os.MkdirAll`, `os.Rename` and `os.Remove` over a set of directories and a set of
    regular files named by '/'-separated paths. `locked` holds the paths where creating a
    directory is refused (permissions, read-only mounts): the reason the archive step has
    a fallback directory. */
module FileSystem {
  import opened Common
  import Paths

  datatype FS = FS(dirs: set<string>, files: set<string>, locked: set<string>)

  /** No path is both a directory and a regular file. */
  predicate WellFormed(fs: FS) {
    fs.dirs !! fs.files
  }

  /** The file system after an operation, and the operation's error result. */
  datatype Step = Step(fs: FS, out: Outcome)

  /** The directories `MkdirAll(path)` needs: every non-empty prefix that ends just before
      a separator, and the path itself. */
  function Components(path: string): (r: set<string>)
    ensures path != [] ==> path in r
    ensures forall c :: c in r ==> c != [] && c <= path
  {
    (set i | 0 < i < |path| && path[i] == Paths.Sep :: path[..i]) + (if path == [] then {} else {path})
  }

  /** `os.MkdirAll`: nothing to do when the path is already a directory; an error for the
      empty path, when some component is a regular file, or when a missing component
      cannot be created; otherwise every missing component is created. */
  function MkdirAll(path: string, fs: FS): (r: Step)
    ensures r.out.Pass? <==>
      (|| path in fs.dirs
       || (&& path != []
           && Components(path) !! fs.files
           && (Components(path) - fs.dirs) !! fs.locked))
    ensures r.out.Pass? ==> path in r.fs.dirs && fs.dirs <= r.fs.dirs
    ensures r.out.Pass? ==> r.fs == fs.(dirs := r.fs.dirs) && r.fs.dirs - fs.dirs <= Components(path)
    ensures r.out.Fail? ==> r.fs == fs
  {
    if path in fs.dirs then Step(fs, Pass)
    else if path == [] then Step(fs, Fail("mkdir : no such file or directory"))
    else if !(Components(path) !! fs.files) then Step(fs, Fail("mkdir " + path + ": not a directory"))
    else if !((Components(path) - fs.dirs) !! fs.locked) then Step(fs, Fail("mkdir " + path + ": permission denied"))
    else Step(fs.(dirs := fs.dirs + Components(path)), Pass)
  }

  /** `os.Rename` of a regular file: an error when the source is not a regular file, the
      target is a directory, or the target's directory does not exist; otherwise the
      source name disappears and the target names the file, replacing any file there. */
  function Rename(src: string, dst: string, fs: FS): (r: Step)
    ensures r.out.Pass? <==>
      && src in fs.files
      && dst !in fs.dirs
      && (Paths.Parent(dst).Some? && Paths.Parent(dst).value != [] ==> Paths.Parent(dst).value in fs.dirs)
    ensures r.out.Pass? ==> r.fs == fs.(files := fs.files - {src} + {dst})
    ensures r.out.Fail? ==> r.fs == fs
  {
    if src !in fs.files then Step(fs, Fail("rename " + src + " " + dst + ": no such file or directory"))
    else if dst in fs.dirs then Step(fs, Fail("rename " + src + " " + dst + ": file exists"))
    else if Paths.Parent(dst).Some? && Paths.Parent(dst).value != [] && Paths.Parent(dst).value !in fs.dirs then
      Step(fs, Fail("rename " + src + " " + dst + ": no such file or directory"))
    else Step(fs.(files := fs.files - {src} + {dst}), Pass)
  }

  /** `os.Remove` of a regular file: an error when there is no such file. */
  function Remove(path: string, fs: FS): (r: Step)
    ensures r.out.Pass? <==> path in fs.files
    ensures r.out.Pass? ==> r.fs == fs.(files := fs.files - {path})
    ensures r.out.Fail? ==> r.fs == fs
  {
    if path in fs.files then Step(fs.(files := fs.files - {path}), Pass)
    else Step(fs, Fail("remove " + path + ": no such file or directory"))
  }

  /** After a successful `MkdirAll` the path is a directory, and a second call succeeds
      without changing anything. */
  lemma MkdirAllIdempotent(path: string, fs: FS)
    requires MkdirAll(path, fs).out.Pass?
    ensures MkdirAll(path, MkdirAll(path, fs).fs) == Step(MkdirAll(path, fs).fs, Pass)
  {
  }

  /** None of the three operations makes a path both a directory and a file. */
  lemma OperationsPreserveWellFormed(fs: FS, a: string, b: string)
    requires WellFormed(fs)
    ensures WellFormed(MkdirAll(a, fs).fs)
    ensures WellFormed(Rename(a, b, fs).fs)
    ensures WellFormed(Remove(a, fs).fs)
  {
  }

  /** The directories `MkdirAll` needs for `Join(dir, name)` are those of `dir` and the
      joined path itself. */
  lemma ComponentsOfJoin(dir: string, name: string)
    requires dir != [] && !Paths.HasSep(name)
    ensures Components(Paths.Join(dir, name)) == Components(dir) + {Paths.Join(dir, name)}
  {
    var j := Paths.Join(dir, name);
    forall c | c in Components(j) ensures c in Components(dir) + {j} {
      if c != j {
        var i :| 0 < i < |j| && j[i] == Paths.Sep && c == j[..i];
        if i < |dir| {
          assert dir[i] == Paths.Sep && c == dir[..i];
        } else if i > |dir| {
          assert false;
        } else {
          assert c == dir;
        }
      }
    }
    forall c | c in Components(dir) ensures c in Components(j) {
      if c == dir {
        assert j[|dir|] == Paths.Sep && j[..|dir|] == dir;
      } else {
        var i :| 0 < i < |dir| && dir[i] == Paths.Sep && c == dir[..i];
        assert j[i] == Paths.Sep && j[..i] == c;
      }
    }
  }
}
