/** The older event tracker of watcher/event_tracker.go. It keeps the same map as the
    tracker package but has no membership query; its operations are defined here on their
    own and then shown to coincide with the tracker package's. */
module WatcherTracker {
  import opened Common
  import Tracker

  datatype LegacyTracker = LegacyTracker(lastEvents: map<string, Time>)

  /** `NewEventTracker`: an empty map. */
  function NewLegacyTracker(): (et: LegacyTracker)
    ensures |et.lastEvents| == 0
  {
    LegacyTracker(map[])
  }

  /** `RecordEvent`: the name maps to the current clock, other entries unchanged. */
  function RecordEvent(et: LegacyTracker, name: string, now: Time): (r: LegacyTracker)
    ensures name in r.lastEvents && r.lastEvents[name] == now
    ensures forall k :: k != name ==> (k in r.lastEvents <==> k in et.lastEvents)
    ensures forall k :: k in et.lastEvents && k != name ==> r.lastEvents[k] == et.lastEvents[k]
  {
    LegacyTracker(et.lastEvents[name := now])
  }

  /** `GetSnapshot`: an independent copy equal to the contents. */
  function GetSnapshot(et: LegacyTracker): (snap: map<string, Time>)
    ensures snap.Keys == et.lastEvents.Keys
    ensures forall k :: k in snap ==> snap[k] == et.lastEvents[k]
  {
    map k | k in et.lastEvents :: et.lastEvents[k]
  }

  /** `Delete`: removes only that key; an absent key is a no-op. */
  function Delete(et: LegacyTracker, name: string): (r: LegacyTracker)
    ensures name !in r.lastEvents
    ensures forall k :: k != name ==> (k in r.lastEvents <==> k in et.lastEvents)
    ensures forall k :: k in r.lastEvents ==> r.lastEvents[k] == et.lastEvents[k]
  {
    LegacyTracker(map k | k in et.lastEvents && k != name :: et.lastEvents[k])
  }

  function Lift(et: LegacyTracker): Tracker.EventTracker {
    Tracker.EventTracker(et.lastEvents)
  }

  /** The legacy tracker is the same abstract map as the tracker package's: every
      operation commutes with the embedding. */
  lemma AgreesWithTracker(et: LegacyTracker, name: string, now: Time)
    ensures Lift(NewLegacyTracker()) == Tracker.NewEventTracker()
    ensures Lift(RecordEvent(et, name, now)) == Tracker.RecordEvent(Lift(et), name, now)
    ensures Lift(Delete(et, name)) == Tracker.Delete(Lift(et), name)
    ensures GetSnapshot(et) == Tracker.GetSnapshot(Lift(et))
  {
    assert Delete(et, name).lastEvents == Tracker.Delete(Lift(et), name).lastEvents;
  }
}
