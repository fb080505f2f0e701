/** The event tracker of tracker/tracker_helper.go: a map from file path to the time of the
    last qualifying file-system event. The mutex only serialises the operations, so each
    operation is one atomic step from the old map to the new one; the clock reading is an
    argument. */
module Tracker {
  import opened Common

  datatype EventTracker = EventTracker(lastEvents: map<string, Time>)

  /** `NewEventTracker`: nothing is tracked. */
  function NewEventTracker(): (et: EventTracker)
    ensures forall name :: !AlreadyExists(et, name)
  {
    EventTracker(map[])
  }

  /** `RecordEvent`: `name` now maps to `now`, every other entry is untouched. */
  function RecordEvent(et: EventTracker, name: string, now: Time): (r: EventTracker)
    ensures r.lastEvents.Keys == et.lastEvents.Keys + {name}
    ensures r.lastEvents[name] == now
    ensures forall k :: k in et.lastEvents && k != name ==> r.lastEvents[k] == et.lastEvents[k]
  {
    EventTracker(et.lastEvents[name := now])
  }

  /** `GetSnapshot`: a copy with exactly the tracker's entries. */
  function GetSnapshot(et: EventTracker): (snap: map<string, Time>)
    ensures snap.Keys == et.lastEvents.Keys
    ensures forall k :: k in snap ==> snap[k] == et.lastEvents[k]
  {
    map k | k in et.lastEvents :: et.lastEvents[k]
  }

  /** `Delete`: removes exactly `name`; an absent name is a silent no-op. */
  function Delete(et: EventTracker, name: string): (r: EventTracker)
    ensures r.lastEvents.Keys == et.lastEvents.Keys - {name}
    ensures forall k :: k in r.lastEvents ==> r.lastEvents[k] == et.lastEvents[k]
    ensures name !in et.lastEvents ==> r == et
  {
    EventTracker(et.lastEvents - {name})
  }

  /** `AlreadyExists`: membership of the name as a key. */
  predicate AlreadyExists(et: EventTracker, name: string) {
    name in et.lastEvents
  }

  /** Recording makes a name exist and deleting makes it absent. */
  lemma ExistsAfterRecordNotAfterDelete(et: EventTracker, name: string, now: Time)
    ensures AlreadyExists(RecordEvent(et, name, now), name)
    ensures !AlreadyExists(Delete(et, name), name)
    ensures forall other :: other != name ==>
      (AlreadyExists(RecordEvent(et, name, now), other) <==> AlreadyExists(et, other)) &&
      (AlreadyExists(Delete(et, name), other) <==> AlreadyExists(et, other))
  {
  }

  /** Re-recording a tracked name only refreshes its time: the key set does not grow, and
      only the latest time survives. */
  lemma ReRecordOverwrites(et: EventTracker, name: string, t1: Time, t2: Time)
    requires AlreadyExists(et, name)
    ensures RecordEvent(et, name, t1).lastEvents.Keys == et.lastEvents.Keys
    ensures RecordEvent(RecordEvent(et, name, t1), name, t2) == RecordEvent(et, name, t2)
  {
  }

  /** Delete undoes a record of a name that was not tracked. */
  lemma DeleteUndoesRecord(et: EventTracker, name: string, now: Time)
    requires !AlreadyExists(et, name)
    ensures Delete(RecordEvent(et, name, now), name) == et
  {
    assert Delete(RecordEvent(et, name, now), name).lastEvents == et.lastEvents;
  }

  /** Recording two distinct names into a fresh tracker gives a snapshot holding exactly
      those two. */
  lemma RecordTwoDistinct(a: string, b: string, t1: Time, t2: Time)
    requires a != b
    ensures GetSnapshot(RecordEvent(RecordEvent(NewEventTracker(), a, t1), b, t2)) == map[a := t1, b := t2]
  {
  }
}
