/** The job step of processor/processor.go: the transfer chosen for a dequeued file, the
    transfer itself, and the post-transfer action (`ActionOnSuccess` / `ActionOnFail`) over
    the modelled file system. The SFTP upload is `UploadSFTP` of static/static.go. */
module Processor {
  import opened Common
  import opened GoStrings
  import opened Config
  import Paths
  import FileSystem
  import InFlight
  import Resolve
  import Upload

  /** The directory a post-action files a document into: the configured destination when
      it is not blank, otherwise `<source directory>/<sub>`. */
  function PrimaryDest(configuredDest: string, sourceDir: string, sub: string): string {
    if TrimSpace(configuredDest) == "" then Paths.Join(sourceDir, sub) else TrimSpace(configuredDest)
  }

  predicate Creatable(dir: string, fs: FileSystem.FS) {
    FileSystem.MkdirAll(dir, fs).out.Pass?
  }

  /** The directory the archive branch moves the file into: the primary destination if it
      can be created, else the `<source directory>/<sub>` fallback if that can. */
  function ArchiveDir(configuredDest: string, sourceDir: string, sub: string, fs: FileSystem.FS): (r: Option<string>)
    ensures r.Some? ==> Creatable(r.value, fs)
    ensures r.Some? ==> r.value == PrimaryDest(configuredDest, sourceDir, sub) || r.value == Paths.Join(sourceDir, sub)
    ensures r.None? <==> !Creatable(PrimaryDest(configuredDest, sourceDir, sub), fs) && !Creatable(Paths.Join(sourceDir, sub), fs)
    ensures Creatable(PrimaryDest(configuredDest, sourceDir, sub), fs) ==> r == Some(PrimaryDest(configuredDest, sourceDir, sub))
  {
    var primary := PrimaryDest(configuredDest, sourceDir, sub);
    var fallback := Paths.Join(sourceDir, sub);
    if Creatable(primary, fs) then Some(primary)
    else if Creatable(fallback, fs) then Some(fallback)
    else None
  }

  /** What a post-action promises: "", "none" and unknown actions do nothing and succeed;
      "delete" succeeds exactly when the file exists, and removes only it; "archive" fails
      with "unable to create <sub> directory" when no destination can be created, and
      otherwise, on success, has moved the file under its base name into a destination
      directory it created if needed; a failure leaves the files as they were. */
  predicate PostActionMeets(action: string, configuredDest: string, sub: string, sourceDir: string,
                            file: string, fs: FileSystem.FS, r: FileSystem.Step) {
    && (Keyword(action) != "archive" && Keyword(action) != "delete" ==>
          r == FileSystem.Step(fs, Pass))
    && (Keyword(action) == "delete" ==>
          && (r.out.Pass? <==> file in fs.files)
          && (r.out.Pass? ==> r.fs == fs.(files := fs.files - {file})))
    && (Keyword(action) == "archive" && ArchiveDir(configuredDest, sourceDir, sub, fs).None? ==>
          r == FileSystem.Step(fs, Fail("unable to create " + sub + " directory")))
    && (Keyword(action) == "archive" && r.out.Pass? ==>
          && ArchiveDir(configuredDest, sourceDir, sub, fs).Some?
          && var dir := ArchiveDir(configuredDest, sourceDir, sub, fs).value;
          && dir in r.fs.dirs
          && fs.dirs <= r.fs.dirs
          && r.fs.files == fs.files - {file} + {Paths.Join(dir, Paths.Base(file))})
    && (Keyword(action) == "archive" && file !in fs.files ==> r.out.Fail?)
    && (r.out.Fail? ==> r.fs.files == fs.files)
    && r.fs.locked == fs.locked
  }

  /** The body shared by `ActionOnSuccess` (`sub` = "archive") and `ActionOnFail`
      (`sub` = "fail"). "archive" creates the destination directory, falling back to
      `<source directory>/<sub>`, and moves the file there under its base name; "delete"
      removes the file; anything else, including "" and "none", does nothing and succeeds. */
  function PostAction(action: string, configuredDest: string, sub: string, sourceDir: string,
                      file: string, fs: FileSystem.FS): (r: FileSystem.Step)
    ensures PostActionMeets(action, configuredDest, sub, sourceDir, file, fs, r)
  {
    match Keyword(action)
    case "archive" =>
      (match ArchiveDir(configuredDest, sourceDir, sub, fs)
       case None => FileSystem.Step(fs, Fail("unable to create " + sub + " directory"))
       case Some(dir) =>
         var made := FileSystem.MkdirAll(dir, fs);
         FileSystem.Rename(file, Paths.Join(dir, Paths.Base(file)), made.fs))
    case "delete" => FileSystem.Remove(file, fs)
    case _ => FileSystem.Step(fs, Pass)
  }

  /** `ActionOnSuccess`: the success action, archiving under `ArchiveDest` or
      `<source directory>/archive`. */
  function ActionOnSuccess(transfer: ConfigEntry, file: string, fs: FileSystem.FS): (r: FileSystem.Step)
    ensures PostActionMeets(transfer.actionOnSuccess, transfer.archiveDest, "archive", transfer.sourceDirectory, file, fs, r)
  {
    PostAction(transfer.actionOnSuccess, transfer.archiveDest, "archive", transfer.sourceDirectory, file, fs)
  }

  /** `ActionOnFail`: the failure action, archiving under `FailDest` or
      `<source directory>/fail`. */
  function ActionOnFail(transfer: ConfigEntry, file: string, fs: FileSystem.FS): (r: FileSystem.Step)
    ensures PostActionMeets(transfer.actionOnFail, transfer.failDest, "fail", transfer.sourceDirectory, file, fs, r)
  {
    PostAction(transfer.actionOnFail, transfer.failDest, "fail", transfer.sourceDirectory, file, fs)
  }

  /** What became of a dequeued file. `Transferred` carries the transfer's result (an
      empty result for the types whose transfer is not implemented) and the post-action's
      error result, which is logged and otherwise dropped. */
  datatype JobOutcome =
    | Unmatched
    | Transferred(entry: nat, result: Result<string>, post: Outcome)

  datatype JobResult = JobResult(processing: InFlight.FileSelector, fs: FileSystem.FS, outcome: JobOutcome)

  /** The transfer of a file by one entry: only "sftp" does anything, and only it can fail;
      "local", "scp" and unknown types are logged and count as a success. */
  function Transfer(entry: ConfigEntry, env: Upload.SftpEnv): (r: Result<string>)
    ensures r.Err? <==> entry.transferType == "sftp" && Upload.UploadOutcome(env).result.Err?
    ensures entry.transferType != "sftp" ==> r == Ok("")
  {
    match entry.transferType
    case "sftp" => Upload.UploadOutcome(env).result
    case _ => Ok("")
  }

  /** One iteration of `StartProcessor`'s loop. The first entry, in configuration order,
      whose `SourceDirectory` is a raw prefix of the file handles it: its transfer runs,
      the failure or success action follows, and the file leaves the processing set.
      A file no entry matches is only logged: it stays in the processing set. */
  function ProcessJob(file: string, transfers: seq<ConfigEntry>, processing: InFlight.FileSelector,
                      fs: FileSystem.FS, env: Upload.SftpEnv): (r: JobResult)
    ensures Resolve.MatchIndex(file, transfers).None? <==> r.outcome.Unmatched?
    ensures r.outcome.Unmatched? ==> r.processing == processing && r.fs == fs
    ensures r.outcome.Transferred? ==>
      && r.outcome.entry < |transfers|
      && Resolve.FindMatchingTransfer(file, transfers) == Ok(transfers[r.outcome.entry])
      && !InFlight.AlreadyExists(r.processing, file)
      && r.processing.selectedFiles.Keys == processing.selectedFiles.Keys - {file}
    ensures forall k :: k in r.processing.selectedFiles ==> r.processing.selectedFiles[k] == processing.selectedFiles[k]
    ensures r.outcome.Transferred? ==>
      var entry := transfers[r.outcome.entry];
      && (r.outcome.result.Err? <==> entry.transferType == "sftp" && Upload.UploadOutcome(env).result.Err?)
      && (r.outcome.result.Err? ==> FileSystem.Step(r.fs, r.outcome.post) == ActionOnFail(entry, file, fs))
      && (r.outcome.result.Ok? ==> FileSystem.Step(r.fs, r.outcome.post) == ActionOnSuccess(entry, file, fs))
  {
    match Resolve.MatchIndex(file, transfers)
    case None => JobResult(processing, fs, Unmatched)
    case Some(i) =>
      var entry := transfers[i];
      var result := Transfer(entry, env);
      var post := if result.Err? then ActionOnFail(entry, file, fs) else ActionOnSuccess(entry, file, fs);
      JobResult(InFlight.Delete(processing, file), post.fs, Transferred(i, result, post.out))
  }

  /** `StartProcessor` over a finite queue: the jobs in queue order, threading the
      processing set and the file system. `env(k)` is the world the k-th job's upload
      meets. */
  function ProcessQueue(queue: seq<string>, transfers: seq<ConfigEntry>, processing: InFlight.FileSelector,
                        fs: FileSystem.FS, env: nat -> Upload.SftpEnv): (r: (InFlight.FileSelector, FileSystem.FS))
    decreases |queue|
  {
    if queue == [] then (processing, fs)
    else
      var job := ProcessJob(queue[0], transfers, processing, fs, env(0));
      ProcessQueue(queue[1..], transfers, job.processing, job.fs, (k: nat) => env(k + 1))
  }

  /** Draining a queue releases exactly its matched files from the processing set; an
      unmatched file keeps its entry. */
  lemma {:induction false} ProcessQueueReleasesMatched(queue: seq<string>, transfers: seq<ConfigEntry>,
                                                       processing: InFlight.FileSelector, fs: FileSystem.FS,
                                                       env: nat -> Upload.SftpEnv)
    ensures var p := ProcessQueue(queue, transfers, processing, fs, env).0;
      p.selectedFiles.Keys ==
        processing.selectedFiles.Keys - Matched(queue, transfers)
    decreases |queue|
  {
    if queue != [] {
      var job := ProcessJob(queue[0], transfers, processing, fs, env(0));
      ProcessQueueReleasesMatched(queue[1..], transfers, job.processing, job.fs, (k: nat) => env(k + 1));
      JobReleasesMatched(queue[0], transfers, processing, fs, env(0));
      MatchedSplit(queue, transfers);
    }
  }

  /** The files of a queue that some entry matches. */
  function Matched(queue: seq<string>, transfers: seq<ConfigEntry>): set<string> {
    set f | f in queue && Resolve.MatchIndex(f, transfers).Some?
  }

  /** One job releases its file exactly when some entry matches it. */
  lemma JobReleasesMatched(file: string, transfers: seq<ConfigEntry>, processing: InFlight.FileSelector,
                           fs: FileSystem.FS, env: Upload.SftpEnv)
    ensures ProcessJob(file, transfers, processing, fs, env).processing.selectedFiles.Keys ==
      processing.selectedFiles.Keys - Matched([file], transfers)
  {
    assert forall f :: f in [file] <==> f == file;
  }

  /** The matched files of a queue are those of its head and those of its tail. */
  lemma MatchedSplit(queue: seq<string>, transfers: seq<ConfigEntry>)
    requires queue != []
    ensures Matched(queue, transfers) == Matched([queue[0]], transfers) + Matched(queue[1..], transfers)
  {
    assert forall f :: f in queue <==> f == queue[0] || f in queue[1..];
  }

  /** The archive branch succeeds exactly when the file exists, some destination directory
      can be created, and the target path is not a directory; the file then lies in that
      directory under its base name. */
  lemma ArchiveSucceedsIff(action: string, configuredDest: string, sub: string, sourceDir: string,
                           file: string, fs: FileSystem.FS)
    requires Keyword(action) == "archive"
    requires !Paths.HasSep(Paths.Base(file))
    ensures var r := PostAction(action, configuredDest, sub, sourceDir, file, fs);
      var dir := ArchiveDir(configuredDest, sourceDir, sub, fs);
      r.out.Pass? <==> (&& file in fs.files
                        && dir.Some?
                        && Paths.Join(dir.value, Paths.Base(file)) !in fs.dirs)
  {
    var dir := ArchiveDir(configuredDest, sourceDir, sub, fs);
    if dir.Some? {
      var d := dir.value;
      var made := FileSystem.MkdirAll(d, fs);
      var target := Paths.Join(d, Paths.Base(file));
      assert Paths.Base(file) != [];
      if d != [] {
        Paths.ParentOfJoin(d, Paths.Base(file));
        assert |target| > |d|;
        assert target !in made.fs.dirs - fs.dirs by {
          forall c | c in FileSystem.Components(d) ensures |c| <= |d| { }
        }
      } else {
        assert target == Paths.Base(file);
        assert Paths.Parent(target).None?;
        assert made.fs.dirs - fs.dirs <= FileSystem.Components(d);
        assert FileSystem.Components(d) == {};
      }
    }
  }

  /** With no `ArchiveDest`, a successful transfer of `<dir>/<name>` from an existing source
      directory moves the file to `<dir>/archive/<name>`. */
  lemma DefaultArchiveDestination(transfer: ConfigEntry, name: string, fs: FileSystem.FS)
    requires FileSystem.WellFormed(fs)
    requires Keyword(transfer.actionOnSuccess) == "archive"
    requires TrimSpace(transfer.archiveDest) == ""
    requires transfer.sourceDirectory != [] && FileSystem.Components(transfer.sourceDirectory) <= fs.dirs
    requires name != [] && !Paths.HasSep(name)
    requires Paths.Join(transfer.sourceDirectory, "archive") !in fs.files + fs.locked
    requires Paths.Join(Paths.Join(transfer.sourceDirectory, "archive"), name) !in fs.dirs
    requires Paths.Join(transfer.sourceDirectory, name) in fs.files
    ensures var r := ActionOnSuccess(transfer, Paths.Join(transfer.sourceDirectory, name), fs);
      && r.out.Pass?
      && Paths.Join(Paths.Join(transfer.sourceDirectory, "archive"), name) in r.fs.files
  {
    var src := transfer.sourceDirectory;
    var file := Paths.Join(src, name);
    var dest := Paths.Join(src, "archive");
    SubdirCreatable(src, "archive", fs);
    assert ArchiveDir(transfer.archiveDest, src, "archive", fs) == Some(dest);
    Paths.BaseOfJoin(src, name);
    ArchiveSucceedsIff(transfer.actionOnSuccess, transfer.archiveDest, "archive", src, file, fs);
  }

  /** A new single-element subdirectory of an existing directory can be created when
      nothing occupies its name and creation there is allowed. */
  lemma SubdirCreatable(dir: string, sub: string, fs: FileSystem.FS)
    requires FileSystem.WellFormed(fs)
    requires dir != [] && FileSystem.Components(dir) <= fs.dirs
    requires sub == "archive" || sub == "fail"
    requires Paths.Join(dir, sub) !in fs.files + fs.locked
    ensures Creatable(Paths.Join(dir, sub), fs)
  {
    assert !Paths.HasSep(sub) by {
      forall k | 0 <= k < |sub| ensures sub[k] != Paths.Sep { }
    }
    FileSystem.ComponentsOfJoin(dir, sub);
  }
}
