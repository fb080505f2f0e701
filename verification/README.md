# tfagent — a Dafny model of the settle-and-dispatch pipeline

tfagent watches source directories and waits until a new or rewritten file has been quiet
for a configured delay. It then queues the file and hands it to a transfer: SFTP with up to
three attempts, or the unimplemented `local` and `scp` types. After the transfer it archives,
deletes or leaves the file in place, depending on the transfer entry's
`action_on_success` / `action_on_fail`. A validator checks the YAML configuration before any of
this runs.

This project models that pipeline with the concurrency taken out. Every component is a pure
step over immutable values. The outside world comes in as parameters and oracles:

- the clock (`Time`, integer nanoseconds);
- `filepath.Rel` and `filepath.Abs`;
- the regex engine;
- the readiness probe;
- the file-system probes used by the validator;
- the SSH transport.

The modules follow the repository's packages:

| module | file | what it models |
|---|---|---|
| `Common` | common.dfy | `Option`, `Result`, `Outcome`, time, the regex oracle, first-match search |
| `GoStrings` | strings.dfy | `strings.TrimSpace`, `strings.ToLower`, `strings.HasPrefix`, `strings.Join`, `strconv.Atoi`, `%d` |
| `Paths` | paths.dfy | `filepath.Base`, `filepath.Join`, `filepath.Dir` for '/'-separated paths |
| `Config` | config.dfy | `ConfigEntry`/`ConfigData`, `LoadConfig`'s defaulting, `SetupLogger` |
| `Tracker` | tracker.dfy | `EventTracker` of tracker/tracker_helper.go |
| `WatcherTracker` | watcher_tracker.dfy | the older `EventTracker` of watcher/event_tracker.go |
| `InFlight` | inflight.dfy | the in-flight set `FileSelector` of selector/selector_helper.go |
| `Intake` | intake.dfy | `FilterMatcher` and `StartTracker`'s per-event branch |
| `Settle` | settle.dfy | the settle fold shared by both polling loops |
| `Selector` | selector.dfy | `hasDelayElapsed` and one `ProcessSnapshot` tick |
| `Resolve` | resolve.dfy | `GetDelayForFile`, `FindMatchingTransfer`, the processor's inline match |
| `Upload` | upload.dfy | `UploadSFTP`'s key checks and bounded retry loop |
| `FileSystem` | fs.dfy | `os.MkdirAll`, `os.Rename`, `os.Remove` over an abstract file system |
| `Processor` | processor.dfy | `StartProcessor`'s per-file step, `ActionOnSuccess`, `ActionOnFail` |
| `Agent` | agent.dfy | main's flag overrides, event handler, polling tick and dispatcher |
| `Validate` | validate.dfy | `ValidateConfig`, `multiErr` and the `isValid…` helpers |

Go map iteration order is unspecified. A tick therefore walks its snapshot in an arbitrary
sequence `order` that lists exactly the keys, and its properties are proved for every such
order. `Settle.Sweep` is one fold that both settle loops share:
`selector.ProcessSnapshot` uses it with one global delay and a readiness probe, and main's
polling tick uses it with a per-file delay from `GetDelayForFile`. A delay has elapsed only
when strictly more than `delay × 10⁹` nanoseconds have passed.

The files come from different revisions of the repository, and each function is modelled as
written:

- `ConfigEntry` is the union of every field the code reads: `Delay` as `Option<int>`,
  `ActionOnFail` and `FailDest`, beside the fields of config/config.go.
- main calls `config.SetupLogger` with a three-argument signature. The model follows the
  two-argument version in config/config.go.
- processor/processor.go calls `sendfile.UploadSFTP`, which is not part of this model. The model
  gives it the behaviour of `static.UploadSFTP`.

Where the code's behaviour differs from what one might expect, the model follows the code:

- **First match, not longest.** Every lookup takes the first entry in configuration order.
  `GetDelayForFile`'s match respects the separator. `FindMatchingTransfer` and the
  processor's inline match are raw string prefix tests, so `/d/in` claims `/d/inbox/f`
  (`Resolve.RawPrefixOverclaims`, `Resolve.FirstMatchNotLongest`).
- **Key errors are not retried.** An unreadable or unparsable private key returns at once,
  with no attempt made.
- **Unmatched files in the processor.** An unmatched file stays in the in-flight set in
  processor/processor.go. main's dispatcher releases every file.
- **Which types can fail.** In the processor only `sftp` can fail, so `local`, `scp` and unknown
  types take the success path and run `action_on_success`. main's dispatcher reports an error
  for those same types.
- **Case of the transfer type.** The validator reads the transfer type trimmed and
  case-insensitively, so `SFTP` passes. The dispatcher compares exactly, so `SFTP` is then not
  dispatched as SFTP (`Validate.ValidatedTypeNotDispatchedAsSftp`).
- **Padding in levels and ports.**
  - `isValidLogLevel` trims, but `SetupLogger` only lowers. So `" debug "` is accepted and then
    logs at Info (`Validate.LevelReadings`).
  - `isValidPort` does not trim, so `" 22"` is rejected (`Validate.PaddedPortRejected`).
- **SetupLogger and the console setting.** With the configuration's `LogToConsole` set and the
  console flag unset, `SetupLogger` opens the log file and logs into it. It still returns no
  file handle, so the caller never closes that file.

## Model

| member | source | states |
|---|---|---|
| Tracker.NewEventTracker | tracker/tracker_helper.go:15-20 | a fresh tracker holds no name |
| Tracker.RecordEvent | tracker/tracker_helper.go:22-27 | the name maps to the clock reading; the key set grows by that name only; every other entry keeps its time |
| Tracker.GetSnapshot | tracker/tracker_helper.go:29-37 | the snapshot has exactly the tracker's keys and times |
| Tracker.Delete | tracker/tracker_helper.go:39-44 | exactly the name is removed, the others keep their times, and deleting an absent name changes nothing |
| Tracker.AlreadyExists | tracker/tracker_helper.go:46-52 | a predicate; its definition is the contract: the name is a key of the tracker |
| Tracker.ExistsAfterRecordNotAfterDelete | tracker/tracker_helper.go:46-52 | `AlreadyExists` is true after recording and false after deleting that name, and unchanged for every other name |
| Tracker.ReRecordOverwrites | tracker/tracker_helper.go:25 | re-recording a tracked name does not grow the key set, and only the latest time survives |
| Tracker.DeleteUndoesRecord | tracker/tracker_helper.go:22-44 | deleting a freshly recorded name restores the tracker exactly |
| Tracker.RecordTwoDistinct | tracker/tracker_helper_test.go:8-27 | recording two distinct names in a fresh tracker yields a snapshot of exactly those two |
| WatcherTracker.NewLegacyTracker | watcher/event_tracker.go:14-18 | a fresh tracker is empty |
| WatcherTracker.RecordEvent | watcher/event_tracker.go:20-24 | the name maps to the clock; membership and times of other names are unchanged |
| WatcherTracker.GetSnapshot | watcher/event_tracker.go:26-33 | the snapshot equals the contents |
| WatcherTracker.Delete | watcher/event_tracker.go:35-39 | only that name is removed; other entries keep membership and time |
| WatcherTracker.AgreesWithTracker | watcher/event_tracker.go:14-39 | the older tracker behaves operation for operation like the tracker of tracker/tracker_helper.go |
| InFlight.NewFileSelector | selector/selector_helper.go:14-18 | a fresh in-flight set has no member |
| InFlight.AddFile | selector/selector_helper.go:20-24 | the name becomes a member stamped with the clock; other members and stamps are unchanged |
| InFlight.GetSnapshot | selector/selector_helper.go:26-34 | the snapshot equals the membership map |
| InFlight.Delete | selector/selector_helper.go:36-40 | exactly that name stops being a member; an absent name is a no-op |
| InFlight.AlreadyExists | selector/selector_helper.go:42-47 | a predicate; its definition is the contract: the name is a member of the in-flight set |
| InFlight.AddThenDelete | selector/selector_helper.go:20-47 | adding a member again keeps the key set; adding then deleting a non-member restores the set |
| Intake.FilterMatcher | tracker/tracker.go:100-121 | an error exactly when `Rel` fails or a contained path has an uncompilable non-empty filter; a match exactly when the path is contained and the filter is empty or matches the base name |
| Intake.EmptyFilterAcceptsContainedPaths | tracker/tracker.go:109-111 | with an empty filter every path under the source directory matches |
| Intake.ScanEntries | tracker/tracker.go:70-89 | an already tracked path is never re-recorded; otherwise the path is recorded exactly when some entry yields a match, and nothing changes when none does |
| Intake.TrackEvent | tracker/tracker.go:59-89 | Remove deletes the path; an event without Write or Create never records; only the event's path can change |
| Intake.LaterWriteKeepsFirstTime | tracker/tracker.go:77-80 | a later Write does not refresh the time a Create recorded |
| Resolve.DelayOwner | tfagent.go:175-185 | the chosen entry is the first in configuration order whose absolute directory equals the file or is a prefix followed by '/'; none exactly when no entry claims it or the file has no absolute form |
| Resolve.GetDelayForFile | tfagent.go:168-189 | the first claiming entry's delay, else the default, also when the file cannot be made absolute |
| Resolve.ClaimImpliesRawPrefix | tfagent.go:182 | a separator-aware claim implies a raw prefix |
| Resolve.RawPrefixOverclaims | tfagent.go:182-193 | `/d/in` is a raw prefix of `/d/inbox/f` but does not claim it |
| Resolve.MatchIndex | processor/processor.go:26-31 | the index of the first entry whose source directory is a raw prefix of the file; none exactly when no entry is |
| Resolve.FindMatchingTransfer | tfagent.go:191-198 | the first raw-prefix entry, or the fixed "no matching config entry" error exactly when none matches |
| Resolve.FirstMatchNotLongest | tfagent.go:191-198 | a general entry listed first wins over a more specific later one |
| Settle.Visit | selector/selector.go:44-53 | an ineligible file changes nothing; an eligible one leaves the tracker and joins the in-flight set; the queue grows by the file exactly when it is eligible and was not already in flight |
| Settle.Sweep | selector/selector.go:32-54 | a tick only appends to the queue |
| Settle.SweepTracked | selector/selector.go:32-54 | exactly the eligible files leave the tracker; the rest keep their times |
| Settle.SweepProcessing | selector/selector.go:32-54 | the in-flight set grows by exactly the eligible files |
| Settle.SweepEnqueued | selector/selector.go:44-52 | the newly queued files are exactly the eligible files not already in flight |
| Settle.SweepNoDuplicates | selector/selector.go:44-52 | no file is queued twice and every queued file is in flight |
| Settle.SweepPerFile | selector/selector.go:33-53 | per file: eligible means removed and in flight; otherwise kept with its time; queued iff eligible and not in flight before |
| Settle.SweepOrderIndependent | selector/selector.go:32 | tracker, in-flight set and queued files do not depend on the map iteration order |
| Selector.HasDelayElapsed | selector/selector.go:57-60 | a predicate; its definition is the contract: strictly more than the delay, in nanoseconds, has passed since the event |
| Selector.DelayIsStrict | selector/selector.go:58-60 | exactly the delay is not enough; one nanosecond more is |
| Selector.ProcessSnapshot | selector/selector.go:18-55 | nothing in flight is queued; queued files are in flight and untracked, each once; an ineligible file stays with its time; the tick adds no tracker entry and removes no in-flight entry |
| Selector.ProcessSnapshotOrderIndependent | selector/selector.go:32-54 | the tick's effect is the same for every iteration order |
| Selector.NoRedispatchWhileInFlight | selector/selector.go:44-48 | a file queued by one tick is not queued by the next while it stays in flight |
| Selector.NeverReadyNeverDispatched | selector/selector.go:40-42 | a file the readiness probe rejects stays tracked and is not queued |
| Agent.ApplyFlagOverrides | tfagent.go:35-43 | flags override log file and level only when they differ from their defaults; the console flag can only switch console on |
| Agent.FlagOverridesNeutralAndIdempotent | tfagent.go:35-43 | default flags change nothing, and applying the overrides twice equals once |
| Agent.RecordWrite | tfagent.go:86-88 | a Write or Create sets the path's time to now, any other event changes nothing, other paths keep their times |
| Agent.LastWriteRestartsWindow | tfagent.go:86-88 | a second write overwrites the first time |
| Agent.PollTick | tfagent.go:101-121 | per file: past its own delay means removed from `lastEvent`, and queued only when not already in flight; otherwise kept |
| Agent.PollTickAgreesWithSelector | tfagent.go:104-118 | with one common delay and every file ready, main's polling tick equals the selector tick |
| Agent.DispatchTransfer | tfagent.go:136-147 | only `sftp` can succeed; `local`, `scp` and other types yield their fixed errors |
| Agent.DispatchStep | tfagent.go:124-156 | the file leaves the in-flight set whether or not it matched; no match exactly when `FindMatchingTransfer` fails |
| Agent.DispatchAll | tfagent.go:123-157 | the dispatcher draining its queue; its contract is stated by `Agent.DispatchAllReleasesQueue` |
| Agent.DispatchAllReleasesQueue | tfagent.go:123-157 | draining the queue removes exactly the queued files from the in-flight set |
| Agent.SettledFileIsReleasedByDispatch | tfagent.go:109-155 | a file the polling tick queues is in flight and untracked, and the dispatcher then releases it |
| Upload.AttemptsFrom | static/static.go:37-52 | from attempt n: stops at the first success, else runs to attempt 3 and returns the last error; sleeps between attempts only |
| Upload.UploadOutcome | static/static.go:18-56 | key read or parse failures return their errors with no attempt; otherwise 1 to 3 attempts, success iff some attempt succeeds, and sleeps = attempts − 1 |
| Upload.UploadSFTP | static/static.go:18-56 | the counted loop computes exactly the reference outcome |
| Upload.AllFailSleepsTwice | static/static.go:48-55 | a transport that always fails costs three attempts and two sleeps and returns the third error |
| Upload.KeyErrorsAreNotRetried | static/static.go:25-33 | an unusable key makes no attempt and no sleep and returns an error |
| FileSystem.MkdirAll | processor/processor.go:93-97 | succeeds iff the path is a directory, or is non-empty with no component a file and no missing component locked; creates only the path's components; a failure changes nothing |
| FileSystem.Rename | processor/processor.go:103-107 | succeeds iff the source is a file, the target is not a directory and its parent exists; the file moves; a failure changes nothing |
| FileSystem.Remove | processor/processor.go:112-118 | succeeds iff the file exists, removing only it; a failure changes nothing |
| FileSystem.MkdirAllIdempotent | processor/processor.go:93-97 | a second `MkdirAll` of a created directory succeeds and changes nothing |
| FileSystem.OperationsPreserveWellFormed | processor/processor.go:93-118 | no operation makes a path both a directory and a file |
| Processor.ArchiveDir | processor/processor.go:86-101 | the configured destination if creatable, else `<source>/<sub>` if creatable, else none |
| Processor.PostAction | processor/processor.go:84-130 | unknown and blank actions do nothing; delete removes the file or fails; archive moves the file to `dir/Base(file)` or fails without moving it |
| Processor.ActionOnSuccess | processor/processor.go:77-131 | the success action with `archive_dest` and the `archive` fallback; blank and "none" are no-ops |
| Processor.ActionOnFail | processor/processor.go:133-187 | the failure action with `fail_dest` and the `fail` fallback; blank and "none" are no-ops |
| Processor.Transfer | processor/processor.go:38-50 | an error only for `sftp` when the upload fails; every other type succeeds with an empty result |
| Processor.ProcessJob | processor/processor.go:20-73 | unmatched iff no entry is a raw prefix, and then nothing changes; a matched file uses the first entry, runs the failure or success action by the transfer result, and leaves the in-flight set |
| Processor.ProcessQueue | processor/processor.go:20-74 | the processor draining its queue one job at a time; its contract is stated by `Processor.ProcessQueueReleasesMatched` |
| Processor.JobReleasesMatched | processor/processor.go:66-73 | one job releases the file exactly when it matched |
| Processor.ProcessQueueReleasesMatched | processor/processor.go:20-74 | draining the queue releases exactly the matched files; unmatched ones stay in flight |
| Processor.ArchiveSucceedsIff | processor/processor.go:86-110 | archive succeeds iff the file exists, a destination directory is available and the target is not a directory |
| Processor.DefaultArchiveDestination | processor/processor.go:86-110 | with a blank `archive_dest` and a creatable `<source>/archive`, the file ends up there |
| Paths.Base | processor/processor.go:103 | the last path element, "." for the empty path, and the path itself when it has no separator |
| Paths.BaseOfJoin | processor/processor.go:103 | the base of `Join(dir, name)` is `name` |
| Paths.BaseIdempotent | processor/processor.go:103 | taking the base twice equals once |
| Paths.Parent | config/validate_config.go:195 | the prefix that ends just before the last separator (no separator follows it), none exactly for separator-free paths |
| Paths.Dir | config/validate_config.go:195 | "." for a path without a separator, "/" when the last separator leads the path, otherwise the part before the last separator |
| Paths.ParentOfJoin | config/validate_config.go:195 | the parent of `Join(dir, name)` is `dir` |
| Config.DefaultStreaming | config/config.go:80-83 | afterwards `streaming` is set; a set value is kept and an unset one becomes false |
| Config.LoadConfig | config/config.go:62-88 | read and parse failures give the zero configuration with their error; otherwise every transfer's `streaming` is set, nothing else changes, and count and order are kept |
| Config.LoadConfigIdempotent | config/config.go:78-85 | defaulting an already defaulted configuration changes nothing |
| Config.KeywordEmptyIffBlank | processor/processor.go:120 | a trimmed and lowered keyword is empty iff the text is blank |
| Config.KeywordIgnoresCaseAndPadding | processor/processor.go:84 | a keyword reads the same after lowering or trimming its text |
| Config.ParseLevel | config/config.go:114-126 | the level switch; its contract is stated by `Config.ParseLevelCaseInsensitive` |
| Config.ParseLevelCaseInsensitive | config/config.go:114-126 | the level depends only on the lowered text: debug, warn or warning, error; everything else is Info |
| Config.SetupLogger | config/config.go:90-142 | the console flag selects stdout and returns no file; otherwise the log file, config first and flag when empty, is opened and a failure is the error; the level flag overrides unless it is "info" |
| GoStrings.BlankIffTrimsToEmpty | config/validate_config.go:33 | `TrimSpace(s) == ""` holds exactly for blank strings |
| GoStrings.TrimSpaceIdempotent | config/validate_config.go:56 | trimming twice equals once |
| GoStrings.TrimSpaceToLower | config/validate_config.go:56 | trimming and lowering commute |
| GoStrings.JoinSnoc | config/validate_config.go:128-131 | appending a message extends the joined error text by "; " and that message |
| GoStrings.AtoiNatToString | config/validate_config.go:161 | `Atoi` reads back every decimal rendering in the int64 range |
| Validate.ReadTransferTypeSpec | config/validate_config.go:56-102 | the type switch picks sftp, local or scp exactly for those keywords, and a blank type falls to the default case |
| Validate.Render | config/validate_config.go:31-32 | every entry message starts with `transfer[i]: ` |
| Validate.IsValidLogLevel | config/validate_config.go:148-155 | a predicate; its definition is the contract: the trimmed, lowered level is a known name or empty |
| Validate.IsValidPort | config/validate_config.go:157-166 | a predicate; its definition is the contract: not blank, and the untrimmed text parses as an integer from 1 to 65535 |
| Validate.IsValidAction | config/validate_config.go:168-175 | a predicate; its definition is the contract: the trimmed, lowered action is "", "none", "archive" or "delete" |
| Validate.IsArchive | config/validate_config.go:176-178 | a predicate; its definition is the contract: the trimmed, lowered action is "archive" |
| Validate.IsDirOrCreatable | config/validate_config.go:191-207 | a predicate; its definition is the contract: a directory, or `Dir` of the path is a directory in which a file can be created |
| Validate.TopIssues | config/validate_config.go:21-26 | "no transfers defined" iff the list is empty; an invalid level is reported iff the level check fails |
| Validate.EntryProblems | config/validate_config.go:31-125 | one entry's problems in check order; its contract is stated by `Validate.ReportIff` and the per-check lemmas below |
| Validate.KeptIff | config/validate_config.go:140-142 | a problem is reported iff it is a candidate whose check fires |
| Validate.ReportIff | config/validate_config.go:33-125 | an entry's report holds a problem iff its check fires |
| Validate.IdentityChecks | config/validate_config.go:33-53 | name required iff blank; duplicate iff non-blank and seen before; source directory required iff blank; missing iff non-blank and not a directory |
| Validate.RemoteChecks | config/validate_config.go:56-94 | username, server and port are each required for exactly sftp and scp |
| Validate.SftpChecks | config/validate_config.go:56-77 | remote path, some credential and a readable key file are required for sftp only |
| Validate.LocalTypeChecks | config/validate_config.go:79-82 | a local entry has no type-specific problem |
| Validate.TypeNameChecks | config/validate_config.go:96-101 | "transfertype is required" iff blank; unsupported iff non-blank and not one of the three |
| Validate.ActionChecks | config/validate_config.go:112-117 | an action is reported iff it fails `isValidAction` |
| Validate.DestinationChecks | config/validate_config.go:120-125 | a destination is probed and reported only for the archive action with a non-blank destination that is not usable |
| Validate.FilterCheck | config/validate_config.go:105-109 | a filter is reported iff it is non-empty and does not compile, with the compiler's reason |
| Validate.LevelAndActionInsensitive | config/validate_config.go:148-175 | the level and action checks ignore case and padding, and accept blank values |
| Validate.EntryIssuesSpec | config/validate_config.go:29-126 | every entry issue comes from its entry's checks, every fired check is reported, and issues come in entry order |
| Validate.EntryIssuesStep | config/validate_config.go:29-31 | one more entry appends that entry's tagged problems |
| Validate.SeenNamesStep | config/validate_config.go:36-39 | the seen-name set grows by non-blank names only |
| Validate.NormalizeSourceDir | config/validate_config.go:49-52 | only `source_directory` changes, to its absolute form, and only when it is non-blank and resolvable |
| Validate.CheckEntries | config/validate_config.go:29-126 | the loop collects exactly the entry issues |
| Validate.NormalizeEntries | config/validate_config.go:49-52 | every entry is normalised in place, and count and order are kept |
| Validate.ValidateConfig | config/validate_config.go:14-132 | a nil configuration gives "config is nil"; otherwise no error iff no check fires, else every message joined by "; ", and the entries come back normalised |
| Validate.Issues | config/validate_config.go:17-126 | every problem of the configuration, top-level first, then entry by entry; its contract is stated by `Validate.TopIssues`, `Validate.EntryIssuesSpec` and `Validate.IssuesEntryIff` |
| Validate.IssuesEntryIff | config/validate_config.go:29-126 | entry i's issue is reported iff entry i's checks fire given the names before it |
| Validate.DuplicateIff | config/validate_config.go:33-40 | a duplicate is reported iff the name is non-blank and an earlier entry has it |
| Validate.NoTransfersIff | config/validate_config.go:24-26 | "no transfers defined" iff there are no entries, and then only top-level issues exist |
| Validate.PortIff | config/validate_config.go:157-166 | a decimal port is valid iff it lies in 1 to 65535 |
| Validate.PaddedPortRejected | config/validate_config.go:157-166 | an untrimmed port such as " 22" is rejected |
| Validate.LevelReadings | config/validate_config.go:148-155 | trimmed valid levels read the same in validator and logger; `" debug "` passes validation but logs at Info |
| Validate.ValidatedTypeNotDispatchedAsSftp | config/validate_config.go:56-57 | `SFTP` passes validation but is not the exact `sftp` the dispatchers compare with |

## Left out

- Goroutines, channels, `sync.Map` and mutexes. Each component is one atomic sequential step, and
  the queue is a sequence with no capacity, so channel backpressure is not modelled.
- main's goroutine setup, fsnotify watcher creation and signal handling (tfagent.go:20-99,
  159-165), and `StartTracker`'s watcher loop outside the per-event branch. An event is a set
  of operation flags plus a path.
- watcher/fswatch.go is not part of this model. Its Write/Create rule is the one
  `Agent.RecordWrite` models.
- The clock. `time.Now` is a parameter and `time.Sleep` is counted. Go's `time.Duration`
  overflow for huge delays is not modelled, because delays are unbounded integers.
- The operating-system oracles, which are uninterpreted function parameters:
  - `filepath.Rel` and `filepath.Abs`, which depend on the working directory;
  - Go's regexp engine;
  - the Windows readiness probe;
  - the validator's `isDir` and `isFile` probes, and whether a file can be created in a
    directory, which is the one oracle inside `isDirOrCreatable` (`Validate.IsDirOrCreatable`
    itself is defined from `isDir`, `Paths.Dir` and that oracle).
- Paths use '/' only. `filepath.Join` is `dir + "/" + name` with no `Clean` step.
- Paths.Dir: `filepath.Dir` cleans its result and the model does not, so "a//b" gives "a/"
  instead of "a" and "a/./b" gives "a/." instead of "a".
- Tracker.GetSnapshot: Go's snapshot is a copy so that writes to it cannot reach the tracker's
  map (tracker/tracker_helper_test.go:46-58). Dafny maps are values, so that aliasing cannot
  arise and there is nothing further to state.
- `strings.ToLower` covers ASCII capitals, U+0130 and U+212A, which are the characters whose
  lowering can produce an ASCII keyword. Other letters are left unchanged.
- `%q` renders a string between double quotes without Go's escaping.
- `uploadOnce`'s SSH/SFTP transport, and the `sendfile` package, are left out. Each attempt's
  outcome is an oracle.
- YAML decoding and command-line flag parsing. Only the decoded result and the post-parse
  defaulting are modelled.
- service/service.go, logdata/logdata.go and every logging call.
- FileSystem.MkdirAll: a failed `os.MkdirAll` may leave some components created; the model
  creates all or nothing.
- FileSystem.Remove: modelled for regular files only, which are the only paths the agent
  removes; removing an empty directory is not modelled. Permission errors (EACCES on a
  directory that is not writable) are not modelled either: `locked` is consulted only by
  `MkdirAll`, and a remove of an existing file always succeeds.
- FileSystem.Rename: fails only for a missing source, a directory target or a missing target
  parent. Permission errors (EACCES) and moves across mounts (EXDEV, e.g. an `archive_dest`
  on another file system) are not modelled, so the model moves the file in those cases.
  `Processor.ArchiveSucceedsIff`'s "iff" is relative to this file system.
- Validate.EntryProblems evaluates every probe of an entry up front. The source probes only on
  the branches that need a probe's answer. The model's probes are pure oracles, so the
  reported problems are the same. The source's `isDirOrCreatable` creates and removes a
  temporary file in the parent directory; that short-lived effect is not modelled.
- Validate.ValidateConfig splits the source's single loop into `CheckEntries` and
  `NormalizeEntries`. The checks never read the normalised directory, so the result is the
  same.
- Resolve.GetDelayForFile requires the claiming entry's `Delay` to be set. The source
  dereferences the pointer and panics when it is nil.
- Agent.PollTick requires `Resolve.GetDelayForFile`'s precondition for every tracked file, for
  the same reason.
- Settle.Sweep states only that the queue grows by appending. Its per-file effect is stated by
  `Settle.SweepTracked`, `Settle.SweepProcessing` and `Settle.SweepEnqueued`.
