/** One tick of the selector in selector/selector.go. The tick reads the clock once, takes
    a snapshot of the event tracker and sweeps it with the single global `cfg.Delay`;
    `ready` stands for the operating-system readiness probe and `order` for Go's map
    iteration order. The processing set is the `sync.Map` the tick writes `true` into, so
    only its membership matters. The enqueued files are what the tick sends on the file
    queue, in sending order. */
module Selector {
  import opened Common
  import Tracker
  import Settle

  /** `hasDelayElapsed`: strictly more than `delaySec` seconds separate `t` and `now`. */
  predicate HasDelayElapsed(t: Time, now: Time, delaySec: int) {
    now - t > delaySec * NanosPerSecond
  }

  /** Elapsed time exactly equal to the delay does not count. */
  lemma DelayIsStrict(t: Time, delaySec: int)
    ensures !HasDelayElapsed(t, t + delaySec * NanosPerSecond, delaySec)
    ensures HasDelayElapsed(t, t + delaySec * NanosPerSecond + 1, delaySec)
  {
  }

  datatype Tick = Tick(tracker: Tracker.EventTracker, processing: set<string>, enqueued: seq<string>)

  /** The order lists exactly the tracked files: a run of Go's `range` over the snapshot. */
  predicate Enumerates(order: seq<string>, keys: set<string>) {
    (set f | f in order) == keys
  }

  /** A tracked file the tick claims: settled at `now` under `delaySec`, and ready. */
  predicate Eligible(snap: map<string, Time>, f: string, now: Time, delaySec: int, ready: string -> bool) {
    f in snap && HasDelayElapsed(snap[f], now, delaySec) && ready(f)
  }

  /** `ProcessSnapshot`. For every file of the snapshot, whatever the walk order: a file not
      settled or not ready keeps its tracker entry; a settled, ready file leaves the tracker,
      and it is marked and enqueued exactly when it was not already being processed. */
  function ProcessSnapshot(delaySec: int, tracker: Tracker.EventTracker, processing: set<string>,
                           now: Time, ready: string -> bool, order: seq<string>): (r: Tick)
    requires Enumerates(order, tracker.lastEvents.Keys)
    ensures forall f :: f in r.enqueued ==> f !in processing
    ensures forall f :: f in r.enqueued ==> f in r.processing && !Tracker.AlreadyExists(r.tracker, f)
    ensures Settle.NoDuplicates(r.enqueued)
    ensures r.tracker.lastEvents.Keys <= tracker.lastEvents.Keys
    ensures processing <= r.processing
    ensures forall f :: f in tracker.lastEvents ==>
      && (Eligible(tracker.lastEvents, f, now, delaySec, ready) ==> f !in r.tracker.lastEvents && f in r.processing)
      && (!Eligible(tracker.lastEvents, f, now, delaySec, ready) ==>
            f in r.tracker.lastEvents && r.tracker.lastEvents[f] == tracker.lastEvents[f])
      && (f in r.enqueued <==> Eligible(tracker.lastEvents, f, now, delaySec, ready) && f !in processing)
    ensures forall f :: f in r.processing && f !in processing ==> f in r.enqueued
    ensures forall f :: f in r.processing ==> f in processing || Eligible(tracker.lastEvents, f, now, delaySec, ready)
  {
    var snap := Tracker.GetSnapshot(tracker);
    var eligible := (f: string) => Eligible(snap, f, now, delaySec, ready);
    var s0 := Settle.SweepState(snap, processing, []);
    var s := Settle.Sweep(order, eligible, s0);
    Settle.SweepTracked(order, eligible, s0);
    Settle.SweepProcessing(order, eligible, s0);
    Settle.SweepEnqueued(order, eligible, s0);
    Settle.SweepNoDuplicates(order, eligible, s0);
    assert s.enqueued[|s0.enqueued|..] == s.enqueued;
    Tick(Tracker.EventTracker(s.tracked), s.processing, s.enqueued)
  }

  /** The tick's outcome is the same for every iteration order. */
  lemma ProcessSnapshotOrderIndependent(delaySec: int, tracker: Tracker.EventTracker, processing: set<string>,
                                        now: Time, ready: string -> bool, o1: seq<string>, o2: seq<string>)
    requires Enumerates(o1, tracker.lastEvents.Keys) && Enumerates(o2, tracker.lastEvents.Keys)
    ensures ProcessSnapshot(delaySec, tracker, processing, now, ready, o1).tracker ==
            ProcessSnapshot(delaySec, tracker, processing, now, ready, o2).tracker
    ensures ProcessSnapshot(delaySec, tracker, processing, now, ready, o1).processing ==
            ProcessSnapshot(delaySec, tracker, processing, now, ready, o2).processing
    ensures forall f :: f in ProcessSnapshot(delaySec, tracker, processing, now, ready, o1).enqueued <==>
                        f in ProcessSnapshot(delaySec, tracker, processing, now, ready, o2).enqueued
  {
    var r1 := ProcessSnapshot(delaySec, tracker, processing, now, ready, o1);
    var r2 := ProcessSnapshot(delaySec, tracker, processing, now, ready, o2);
    assert r1.tracker.lastEvents == r2.tracker.lastEvents;
  }

  /** No double dispatch: a file a tick enqueued is not enqueued by a later tick while it is
      still being processed, whatever the tracker has recorded in between. */
  lemma NoRedispatchWhileInFlight(delaySec: int, t1: Tracker.EventTracker, processing: set<string>,
                                  now1: Time, now2: Time, ready: string -> bool, o1: seq<string>,
                                  t2: Tracker.EventTracker, o2: seq<string>, f: string)
    requires Enumerates(o1, t1.lastEvents.Keys) && Enumerates(o2, t2.lastEvents.Keys)
    requires f in ProcessSnapshot(delaySec, t1, processing, now1, ready, o1).enqueued
    ensures f !in ProcessSnapshot(delaySec, t2, ProcessSnapshot(delaySec, t1, processing, now1, ready, o1).processing,
                                  now2, ready, o2).enqueued
  {
  }

  /** A file that never becomes ready is never enqueued and never leaves the tracker. */
  lemma NeverReadyNeverDispatched(delaySec: int, tracker: Tracker.EventTracker, processing: set<string>,
                                  now: Time, ready: string -> bool, order: seq<string>, f: string)
    requires Enumerates(order, tracker.lastEvents.Keys)
    requires Tracker.AlreadyExists(tracker, f) && !ready(f)
    ensures var r := ProcessSnapshot(delaySec, tracker, processing, now, ready, order);
      f !in r.enqueued && Tracker.AlreadyExists(r.tracker, f)
  {
  }
}
