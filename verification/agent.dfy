/** The pipeline `main` in tfagent.go wires up on its own: the command-line overrides of
    the configuration, the event handler that timestamps every Write or Create event, the
    polling tick that settles files with the per-entry delays of `GetDelayForFile`, and the
    dispatcher that uploads a dequeued file with `static.UploadSFTP`. The goroutines are
    modelled as steps over explicit state; the clock, `filepath.Abs` and each upload's
    outside world are arguments. */
module Agent {
  import opened Common
  import opened Config
  import Intake
  import Resolve
  import Settle
  import Selector
  import Tracker
  import Upload

  /** The flag defaults `main` compares against. */
  const DefaultLogFile := "logs/app.log"
  const DefaultLogLevel := "info"

  /** The per-file fallback delay, in seconds, of the polling tick. */
  const DefaultDelay := 2

  /** `main`'s overrides: a flag replaces the configured value only when it differs from
      the flag's default; the console flag can only switch console logging on. */
  function ApplyFlagOverrides(cfg: ConfigData, flags: FlagOptions): (r: ConfigData)
    ensures r.logFile == (if flags.logFile != DefaultLogFile then flags.logFile else cfg.logFile)
    ensures r.logLevel == (if flags.logLevel != DefaultLogLevel then flags.logLevel else cfg.logLevel)
    ensures r.logToConsole <==> cfg.logToConsole || flags.logToConsole
    ensures r.delay == cfg.delay && r.transfers == cfg.transfers
  {
    cfg.(logFile := if flags.logFile != DefaultLogFile then flags.logFile else cfg.logFile,
         logLevel := if flags.logLevel != DefaultLogLevel then flags.logLevel else cfg.logLevel,
         logToConsole := cfg.logToConsole || flags.logToConsole)
  }

  /** Flags left at their defaults change nothing, and applying the same flags twice is
      the same as applying them once. */
  lemma FlagOverridesNeutralAndIdempotent(cfg: ConfigData, flags: FlagOptions)
    ensures flags.logFile == DefaultLogFile && flags.logLevel == DefaultLogLevel && !flags.logToConsole ==>
      ApplyFlagOverrides(cfg, flags) == cfg
    ensures ApplyFlagOverrides(ApplyFlagOverrides(cfg, flags), flags) == ApplyFlagOverrides(cfg, flags)
  {
  }

  /** The event goroutine of `main`: a Write or Create event (re)stamps its path with the
      current time, whatever the path and whether or not it was already stamped; any other
      event changes nothing. There is no filter and no Remove handling here. */
  function RecordWrite(lastEvent: map<string, Time>, ev: Intake.FsEvent, now: Time): (r: map<string, Time>)
    ensures (Intake.Write in ev.ops || Intake.Create in ev.ops) ==>
      r.Keys == lastEvent.Keys + {ev.name} && r[ev.name] == now
    ensures !(Intake.Write in ev.ops || Intake.Create in ev.ops) ==> r == lastEvent
    ensures forall k :: k in lastEvent && k != ev.name ==> k in r && r[k] == lastEvent[k]
  {
    if Intake.Write in ev.ops || Intake.Create in ev.ops then lastEvent[ev.name := now] else lastEvent
  }

  /** Unlike the tracker, `main` refreshes the time on every write: a file written again
      keeps being postponed, its settle window restarting at the last write. */
  lemma LastWriteRestartsWindow(lastEvent: map<string, Time>, name: string, t1: Time, t2: Time)
    ensures RecordWrite(RecordWrite(lastEvent, Intake.FsEvent({Intake.Write}, name), t1),
                        Intake.FsEvent({Intake.Write}, name), t2)[name] == t2
  {
  }

  /** Every stamped file has a usable delay: `GetDelayForFile` would dereference a nil
      `Delay` of the owning entry. */
  predicate DelaysDefined(lastEvent: map<string, Time>, transfers: seq<ConfigEntry>, abs: string -> Option<string>) {
    forall f :: f in lastEvent ==> Resolve.DelayDefined(f, transfers, abs)
  }

  /** A stamped file whose own delay has strictly elapsed. */
  predicate PollEligible(lastEvent: map<string, Time>, f: string, now: Time, transfers: seq<ConfigEntry>,
                         abs: string -> Option<string>) {
    && f in lastEvent
    && Resolve.DelayDefined(f, transfers, abs)
    && Selector.HasDelayElapsed(lastEvent[f], now, Resolve.GetDelayForFile(f, transfers, DefaultDelay, abs))
  }

  /** One pass of `main`'s polling loop, with the clock read once at its start. A file
      whose own delay has elapsed always leaves the map; it is marked and enqueued exactly
      when it was not already being processed. Other files keep their stamps. There is no
      readiness check. */
  function PollTick(lastEvent: map<string, Time>, processing: set<string>, transfers: seq<ConfigEntry>,
                    now: Time, abs: string -> Option<string>, order: seq<string>): (r: Settle.SweepState)
    requires Selector.Enumerates(order, lastEvent.Keys)
    requires DelaysDefined(lastEvent, transfers, abs)
    ensures r.tracked.Keys <= lastEvent.Keys && processing <= r.processing
    ensures Settle.NoDuplicates(r.enqueued)
    ensures forall f :: f in lastEvent ==>
      && (PollEligible(lastEvent, f, now, transfers, abs) ==> f !in r.tracked && f in r.processing)
      && (!PollEligible(lastEvent, f, now, transfers, abs) ==> f in r.tracked && r.tracked[f] == lastEvent[f])
      && (f in r.enqueued <==> PollEligible(lastEvent, f, now, transfers, abs) && f !in processing)
    ensures forall f :: f in r.enqueued ==> f in lastEvent && f !in processing
    ensures forall f :: f in r.processing ==> f in processing || f in r.enqueued
  {
    var eligible := (f: string) => PollEligible(lastEvent, f, now, transfers, abs);
    var s0 := Settle.SweepState(lastEvent, processing, []);
    var s := Settle.Sweep(order, eligible, s0);
    Settle.SweepTracked(order, eligible, s0);
    Settle.SweepProcessing(order, eligible, s0);
    Settle.SweepEnqueued(order, eligible, s0);
    Settle.SweepNoDuplicates(order, eligible, s0);
    assert s.enqueued[|s0.enqueued|..] == s.enqueued;
    s
  }

  /** The polling tick is the selector's tick with every file ready, whenever every stamped
      file resolves to the same delay as the selector's global one. */
  lemma PollTickAgreesWithSelector(lastEvent: map<string, Time>, processing: set<string>,
                                   transfers: seq<ConfigEntry>, now: Time, abs: string -> Option<string>,
                                   order: seq<string>, delaySec: int)
    requires Selector.Enumerates(order, lastEvent.Keys)
    requires DelaysDefined(lastEvent, transfers, abs)
    requires forall f :: f in lastEvent ==> Resolve.GetDelayForFile(f, transfers, DefaultDelay, abs) == delaySec
    ensures var p := PollTick(lastEvent, processing, transfers, now, abs, order);
      var t := Selector.ProcessSnapshot(delaySec, Tracker.EventTracker(lastEvent), processing, now, _ => true, order);
      && p.tracked == t.tracker.lastEvents
      && p.processing == t.processing
      && p.enqueued == t.enqueued
  {
    var snap := Tracker.GetSnapshot(Tracker.EventTracker(lastEvent));
    assert snap == lastEvent;
    var e1 := (f: string) => PollEligible(lastEvent, f, now, transfers, abs);
    var e2 := (f: string) => Selector.Eligible(snap, f, now, delaySec, _ => true);
    forall f | f in order ensures e1(f) == e2(f) {
      assert f in lastEvent;
    }
    Settle.SweepCongruent(order, e1, e2, Settle.SweepState(lastEvent, processing, []));
  }

  /** The result of dispatching one dequeued file. */
  datatype Dispatch =
    | NoMatch(error: string)
    | Dispatched(result: Result<string>)

  /** The transfer `main`'s dispatcher runs for an entry: only "sftp" transfers; "local",
      "scp" and any other type are errors. */
  function DispatchTransfer(entry: ConfigEntry, env: Upload.SftpEnv): (r: Result<string>)
    ensures r.Ok? ==> entry.transferType == "sftp"
    ensures entry.transferType == "sftp" ==> r == Upload.UploadOutcome(env).result
    ensures entry.transferType == "local" ==> r == Err("local transfer not implemented")
    ensures entry.transferType == "scp" ==> r == Err("SCP transfer not implemented")
    ensures entry.transferType !in {"sftp", "local", "scp"} ==>
      r == Err("unsupported transfer type: " + entry.transferType)
  {
    match entry.transferType
    case "sftp" => Upload.UploadOutcome(env).result
    case "local" => Err("local transfer not implemented")
    case "scp" => Err("SCP transfer not implemented")
    case _ => Err("unsupported transfer type: " + entry.transferType)
  }

  /** One iteration of `main`'s dispatcher. The file always leaves the processing set,
      matched or not; a matched file is handed to its first raw-prefix entry. */
  function DispatchStep(file: string, transfers: seq<ConfigEntry>, processing: set<string>,
                        env: Upload.SftpEnv): (r: (set<string>, Dispatch))
    ensures r.0 == processing - {file}
    ensures r.1.NoMatch? <==> Resolve.FindMatchingTransfer(file, transfers).Err?
    ensures r.1.NoMatch? ==> r.1.error == "no matching config entry found for file: " + file
    ensures r.1.Dispatched? ==>
      r.1.result == DispatchTransfer(Resolve.FindMatchingTransfer(file, transfers).value, env)
    ensures r.1.Dispatched? && r.1.result.Ok? ==>
      Resolve.FindMatchingTransfer(file, transfers).value.transferType == "sftp"
  {
    match Resolve.FindMatchingTransfer(file, transfers)
    case Err(e) => (processing - {file}, NoMatch(e))
    case Ok(entry) => (processing - {file}, Dispatched(DispatchTransfer(entry, env)))
  }

  /** The dispatcher over a finite queue, in queue order. */
  function DispatchAll(queue: seq<string>, transfers: seq<ConfigEntry>, processing: set<string>,
                       env: nat -> Upload.SftpEnv): (r: set<string>)
    decreases |queue|
  {
    if queue == [] then processing
    else DispatchAll(queue[1..], transfers, DispatchStep(queue[0], transfers, processing, env(0)).0,
                     (k: nat) => env(k + 1))
  }

  /** Draining the queue releases every file it held, matched or not: afterwards none of
      them is in flight, and nothing else was released. */
  lemma {:induction false} DispatchAllReleasesQueue(queue: seq<string>, transfers: seq<ConfigEntry>,
                                                    processing: set<string>, env: nat -> Upload.SftpEnv)
    ensures DispatchAll(queue, transfers, processing, env) == processing - (set f | f in queue)
    decreases |queue|
  {
    if queue != [] {
      var next := DispatchStep(queue[0], transfers, processing, env(0)).0;
      DispatchAllReleasesQueue(queue[1..], transfers, next, (k: nat) => env(k + 1));
      assert (set f | f in queue) == {queue[0]} + (set f | f in queue[1..]) by {
        forall f | f in queue ensures f == queue[0] || f in queue[1..] {
          var i :| 0 <= i < |queue| && queue[i] == f;
          if i > 0 { assert queue[1..][i - 1] == f; }
        }
      }
    }
  }

  /** A file the polling tick enqueues is dispatched exactly once per stamp: once its job
      has run, the next tick can enqueue it again only after a new write. */
  lemma SettledFileIsReleasedByDispatch(lastEvent: map<string, Time>, processing: set<string>,
                                        transfers: seq<ConfigEntry>, now: Time, abs: string -> Option<string>,
                                        order: seq<string>, f: string, env: Upload.SftpEnv)
    requires Selector.Enumerates(order, lastEvent.Keys)
    requires DelaysDefined(lastEvent, transfers, abs)
    requires f in PollTick(lastEvent, processing, transfers, now, abs, order).enqueued
    ensures var tick := PollTick(lastEvent, processing, transfers, now, abs, order);
      && f in tick.processing && f !in tick.tracked
      && f !in DispatchStep(f, transfers, tick.processing, env).0
  {
  }
}
