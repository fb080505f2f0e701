/** Event intake of tracker/tracker.go: how one file-system notification changes the event
    tracker. The watcher and its goroutine are outside the model; an event is the set of
    operation flags it carries and the path it names. `filepath.Rel` and the regular
    expression engine are oracles. */
module Intake {
  import opened Common
  import opened GoStrings
  import opened Config
  import Paths
  import Tracker

  /** The fsnotify operation flags. */
  datatype Op = Create | Write | Remove | Rename | Chmod

  datatype FsEvent = FsEvent(ops: set<Op>, name: string)

  /** `filepath.Rel(base, target)`: `None` is its error. */
  type RelFn = (string, string) -> Option<string>

  /** `FilterMatcher`: `Ok(true)` when the event lies under the entry's directory and the
      entry's filter is empty or matches the base name; `Ok(false)` when `Rel` succeeds
      but the relative path starts with ".." or the filter does not match; `Err` when
      `Rel` fails or the filter does not compile. */
  function FilterMatcher(eventName: string, entry: ConfigEntry, rel: RelFn, re: RegexEngine): (r: Result<bool>)
    ensures r.Err? <==> (|| rel(entry.sourceDirectory, eventName).None?
                         || (&& !HasPrefix(rel(entry.sourceDirectory, eventName).value, "..")
                             && entry.filter != ""
                             && re.compileError(entry.filter).Some?))
    ensures r == Ok(true) <==>
      && rel(entry.sourceDirectory, eventName).Some?
      && !HasPrefix(rel(entry.sourceDirectory, eventName).value, "..")
      && (entry.filter == "" ||
          (re.compileError(entry.filter).None? && re.matches(entry.filter, Paths.Base(eventName))))
    ensures rel(entry.sourceDirectory, eventName).Some? && entry.filter == "" ==>
      (r == Ok(true) <==> !HasPrefix(rel(entry.sourceDirectory, eventName).value, ".."))
  {
    match rel(entry.sourceDirectory, eventName)
    case None => Err("Rel: can't make " + eventName + " relative to " + entry.sourceDirectory)
    case Some(relPath) =>
      if HasPrefix(relPath, "..") then Ok(false)
      else if entry.filter == "" then Ok(true)
      else match re.compileError(entry.filter)
        case Some(e) => Err(e)
        case None => Ok(re.matches(entry.filter, Paths.Base(eventName)))
  }

  /** Some configured entry accepts the file (its `FilterMatcher` yields `(true, nil)`). */
  predicate Accepted(name: string, transfers: seq<ConfigEntry>, rel: RelFn, re: RegexEngine) {
    exists i :: 0 <= i < |transfers| && FilterMatcher(name, transfers[i], rel, re) == Ok(true)
  }

  /** The scan over the configured entries for a Write or Create event, in configuration
      order: an entry whose matcher errs is skipped; a tracked path is never re-recorded;
      the first accepting entry records the path and ends the scan. */
  function ScanEntries(transfers: seq<ConfigEntry>, name: string, et: Tracker.EventTracker, now: Time,
                       rel: RelFn, re: RegexEngine): (r: Tracker.EventTracker)
    ensures Tracker.AlreadyExists(et, name) ==> r == et
    ensures !Tracker.AlreadyExists(et, name) && Accepted(name, transfers, rel, re) ==>
      r == Tracker.RecordEvent(et, name, now)
    ensures !Accepted(name, transfers, rel, re) ==> r == et
    decreases |transfers|
  {
    if transfers == [] then et
    else
      var rest := ScanEntries(transfers[1..], name, et, now, rel, re);
      assert Accepted(name, transfers[1..], rel, re) ==> Accepted(name, transfers, rel, re) by {
        if Accepted(name, transfers[1..], rel, re) {
          var i :| 0 <= i < |transfers[1..]| && FilterMatcher(name, transfers[1..][i], rel, re) == Ok(true);
          assert transfers[i + 1] == transfers[1..][i];
        }
      }
      match FilterMatcher(name, transfers[0], rel, re)
      case Err(_) => rest
      case Ok(m) =>
        if Tracker.AlreadyExists(et, name) then rest
        else if m then Tracker.RecordEvent(et, name, now)
        else rest
  }

  /** One iteration of `StartTracker`'s event loop. A Remove event clears the path if it
      is tracked; an event with neither Write nor Create stops there; otherwise the
      entries are scanned. */
  function TrackEvent(transfers: seq<ConfigEntry>, et: Tracker.EventTracker, ev: FsEvent, now: Time,
                      rel: RelFn, re: RegexEngine): (r: Tracker.EventTracker)
    ensures Remove in ev.ops && Write !in ev.ops && Create !in ev.ops ==> r == Tracker.Delete(et, ev.name)
    ensures Write !in ev.ops && Create !in ev.ops ==> r.lastEvents.Keys <= et.lastEvents.Keys
    ensures Remove !in ev.ops && Write !in ev.ops && Create !in ev.ops ==> r == et
    ensures forall k :: k != ev.name ==> (k in r.lastEvents <==> k in et.lastEvents)
    ensures forall k :: k != ev.name && k in r.lastEvents ==> r.lastEvents[k] == et.lastEvents[k]
    ensures (Write in ev.ops || Create in ev.ops) && Remove !in ev.ops ==>
      r == (if !Tracker.AlreadyExists(et, ev.name) && Accepted(ev.name, transfers, rel, re)
            then Tracker.RecordEvent(et, ev.name, now) else et)
    ensures (Write in ev.ops || Create in ev.ops) && Remove in ev.ops ==>
      r == (if Accepted(ev.name, transfers, rel, re)
            then Tracker.RecordEvent(et, ev.name, now) else Tracker.Delete(et, ev.name))
  {
    var cleared := if Remove in ev.ops && Tracker.AlreadyExists(et, ev.name) then Tracker.Delete(et, ev.name) else et;
    if Write !in ev.ops && Create !in ev.ops then cleared
    else ScanEntries(transfers, ev.name, cleared, now, rel, re)
  }

  /** Later writes to a tracked path do not refresh its time: only the first accepted
      event of a settle window is remembered. */
  lemma LaterWriteKeepsFirstTime(transfers: seq<ConfigEntry>, et: Tracker.EventTracker, name: string,
                                 t1: Time, t2: Time, rel: RelFn, re: RegexEngine)
    requires !Tracker.AlreadyExists(et, name) && Accepted(name, transfers, rel, re)
    ensures var first := TrackEvent(transfers, et, FsEvent({Create}, name), t1, rel, re);
      && first.lastEvents[name] == t1
      && TrackEvent(transfers, first, FsEvent({Write}, name), t2, rel, re) == first
  {
  }

  /** An empty filter accepts any path the directory contains. */
  lemma EmptyFilterAcceptsContainedPaths(eventName: string, entry: ConfigEntry, rel: RelFn, re: RegexEngine)
    requires entry.filter == ""
    requires rel(entry.sourceDirectory, eventName).Some?
    requires !HasPrefix(rel(entry.sourceDirectory, eventName).value, "..")
    ensures FilterMatcher(eventName, entry, rel, re) == Ok(true)
  {
  }
}
