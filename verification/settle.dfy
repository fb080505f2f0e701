/** The settle sweep shared by both debounce loops of the agent (`ProcessSnapshot` in
    selector/selector.go and the polling loop of tfagent.go). A sweep walks the tracked
    files in some order; a file that is eligible (settled, and ready where readiness is
    checked) is always dropped from the tracker, and it is marked in flight and enqueued
    unless it was already in flight. Go leaves the map iteration order unspecified, so the
    walk takes the order as an argument and every property below holds for all orders. */
module Settle {
  import opened Common

  datatype SweepState = SweepState(tracked: map<string, Time>, processing: set<string>, enqueued: seq<string>)

  /** The handling of one file. */
  function Visit(file: string, eligible: string -> bool, s: SweepState): (r: SweepState)
    ensures !eligible(file) ==> r == s
    ensures eligible(file) ==> r.tracked == s.tracked - {file} && r.processing == s.processing + {file}
    ensures r.enqueued == s.enqueued + (if eligible(file) && file !in s.processing then [file] else [])
  {
    if !eligible(file) then s
    else if file in s.processing then s.(tracked := s.tracked - {file})
    else SweepState(s.tracked - {file}, s.processing + {file}, s.enqueued + [file])
  }

  /** The eligible files of the walk. */
  function Settled(order: seq<string>, eligible: string -> bool): set<string> {
    set f | f in order && eligible(f)
  }

  predicate NoDuplicates(q: seq<string>) {
    forall i, j :: 0 <= i < j < |q| ==> q[i] != q[j]
  }

  /** The walk, as a left fold over the order. */
  function Sweep(order: seq<string>, eligible: string -> bool, s: SweepState): (r: SweepState)
    ensures |s.enqueued| <= |r.enqueued| && r.enqueued[..|s.enqueued|] == s.enqueued
    decreases |order|
  {
    if order == [] then s
    else Sweep(order[1..], eligible, Visit(order[0], eligible, s))
  }

  lemma SettledCons(order: seq<string>, eligible: string -> bool)
    requires order != []
    ensures Settled(order, eligible) == Settled([order[0]], eligible) + Settled(order[1..], eligible)
  {
    forall f | f in order ensures f == order[0] || f in order[1..] {
      var i :| 0 <= i < |order| && order[i] == f;
      if i > 0 { assert order[1..][i - 1] == f; }
    }
  }

  /** The sweep removes exactly the eligible files from the tracker and keeps the times
      of the others. */
  lemma {:induction false} SweepTracked(order: seq<string>, eligible: string -> bool, s: SweepState)
    ensures Sweep(order, eligible, s).tracked.Keys == s.tracked.Keys - Settled(order, eligible)
    ensures forall f :: f in Sweep(order, eligible, s).tracked ==> Sweep(order, eligible, s).tracked[f] == s.tracked[f]
    decreases |order|
  {
    if order != [] {
      SettledCons(order, eligible);
      SweepTracked(order[1..], eligible, Visit(order[0], eligible, s));
    }
  }

  /** The sweep marks exactly the eligible files in flight and never unmarks one. */
  lemma {:induction false} SweepProcessing(order: seq<string>, eligible: string -> bool, s: SweepState)
    ensures Sweep(order, eligible, s).processing == s.processing + Settled(order, eligible)
    decreases |order|
  {
    if order != [] {
      SettledCons(order, eligible);
      SweepProcessing(order[1..], eligible, Visit(order[0], eligible, s));
    }
  }

  /** The sweep enqueues exactly the eligible files that were not already in flight. */
  lemma {:induction false} SweepEnqueued(order: seq<string>, eligible: string -> bool, s: SweepState)
    ensures var r := Sweep(order, eligible, s);
      forall f :: f in r.enqueued[|s.enqueued|..] <==> f in Settled(order, eligible) && f !in s.processing
    decreases |order|
  {
    if order != [] {
      var s1 := Visit(order[0], eligible, s);
      var r := Sweep(order, eligible, s);
      SettledCons(order, eligible);
      SweepEnqueued(order[1..], eligible, s1);
      assert r.enqueued[|s.enqueued|..] == s1.enqueued[|s.enqueued|..] + r.enqueued[|s1.enqueued|..] by {
        assert r.enqueued[..|s1.enqueued|] == s1.enqueued;
      }
    }
  }

  /** Once every queued file is in flight, the sweep keeps it so and never queues a file
      twice. */
  lemma {:induction false} SweepNoDuplicates(order: seq<string>, eligible: string -> bool, s: SweepState)
    requires NoDuplicates(s.enqueued)
    requires forall f :: f in s.enqueued ==> f in s.processing
    ensures NoDuplicates(Sweep(order, eligible, s).enqueued)
    ensures forall f :: f in Sweep(order, eligible, s).enqueued ==> f in Sweep(order, eligible, s).processing
    decreases |order|
  {
    if order != [] {
      SweepNoDuplicates(order[1..], eligible, Visit(order[0], eligible, s));
    }
  }

  /** Each eligible file ends up outside the tracker and in flight; each ineligible one
      keeps its tracker entry with its time. */
  lemma SweepPerFile(order: seq<string>, eligible: string -> bool, s: SweepState, f: string)
    requires f in order
    ensures var r := Sweep(order, eligible, s);
      && (eligible(f) ==> f !in r.tracked && f in r.processing)
      && (!eligible(f) && f in s.tracked ==> f in r.tracked && r.tracked[f] == s.tracked[f])
      && (f in r.enqueued[|s.enqueued|..] <==> eligible(f) && f !in s.processing)
  {
    SweepTracked(order, eligible, s);
    SweepProcessing(order, eligible, s);
    SweepEnqueued(order, eligible, s);
  }

  /** The outcome does not depend on the walk order: two orders listing the same files
      leave the same tracker and the same in-flight set, and enqueue the same files. */
  lemma SweepOrderIndependent(o1: seq<string>, o2: seq<string>, eligible: string -> bool, s: SweepState)
    requires forall f :: f in o1 <==> f in o2
    ensures Sweep(o1, eligible, s).tracked == Sweep(o2, eligible, s).tracked
    ensures Sweep(o1, eligible, s).processing == Sweep(o2, eligible, s).processing
    ensures forall f :: f in Sweep(o1, eligible, s).enqueued <==> f in Sweep(o2, eligible, s).enqueued
  {
    var r1 := Sweep(o1, eligible, s);
    var r2 := Sweep(o2, eligible, s);
    SweepTracked(o1, eligible, s);
    SweepTracked(o2, eligible, s);
    SweepProcessing(o1, eligible, s);
    SweepProcessing(o2, eligible, s);
    SweepEnqueued(o1, eligible, s);
    SweepEnqueued(o2, eligible, s);
    assert Settled(o1, eligible) == Settled(o2, eligible);
    assert r1.tracked.Keys == r2.tracked.Keys;
    assert r1.enqueued == s.enqueued + r1.enqueued[|s.enqueued|..];
    assert r2.enqueued == s.enqueued + r2.enqueued[|s.enqueued|..];
  }

  /** Only the verdicts on the walked files matter: two eligibility tests that agree on
      them produce the same sweep. */
  lemma {:induction false} SweepCongruent(order: seq<string>, e1: string -> bool, e2: string -> bool, s: SweepState)
    requires forall f :: f in order ==> e1(f) == e2(f)
    ensures Sweep(order, e1, s) == Sweep(order, e2, s)
    decreases |order|
  {
    if order != [] {
      assert Visit(order[0], e1, s) == Visit(order[0], e2, s);
      SweepCongruent(order[1..], e1, e2, Visit(order[0], e1, s));
    }
  }
}
