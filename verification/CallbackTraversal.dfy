/**
 Which callbacks a traversal of the callback list calls. `trips` is history: for every thread the
 entries its last traversal came to, those it called, and whether a call failed. Cookies grow in
 the order of registration, so the list is always in ascending order.
 */
module CallbackTraversal {
  import opened Sequences
  import opened CallbackRundown

  datatype Trip = Trip(passed: seq<nat>, called: seq<nat>, failed: bool)

  datatype Traced = Traced(s: State, trips: seq<Trip>)

  function Init(threads: nat): Traced {
    Traced(CallbackRundown.Init(threads), seq(threads, i => Trip([], [], false)))
  }

  /** What the thread of a step did to its traversal: it began one, came to an entry and perhaps
      called it, or had a call fail. */
  ghost function Noted(s: State, step: Step, trip: Trip): Trip
    requires Enabled(s, step)
  {
    var p, q := s.threads[step.t], Next(s, step).threads[step.t];
    match step
    case BeginCalls(_) => Trip([], [], false)
    case Visit(_) =>
      trip.(passed := trip.passed + [p.at], called := if q == Calling(p.at) then trip.called + [p.at] else trip.called)
    case Return(_, success) => trip.(failed := trip.failed || !success)
    case _ => trip
  }

  ghost function TracedNext(x: Traced, step: Step): Traced
    requires Enabled(x.s, step) && |x.trips| == |x.s.threads|
  {
    Traced(Next(x.s, step), x.trips[step.t := Noted(x.s, step, x.trips[step.t])])
  }

  // ------------------------------------------------------------ the invariant

  ghost predicate Ascending(q: seq<nat>) {
    forall i, j :: 0 <= i < j < |q| ==> q[i] < q[j]
  }

  /** The thread has come to the entry in hand. */
  predicate Came(p: Place) { p.Calling? || p.Returned? || p.Leaving? }

  /** The entries passed are in list order; nothing on the list before the entry in hand was left
      out; what was passed without a call is pending deletion; and no call has failed, unless the
      thread is just back from it. */
  ghost predicate OnTheWay(s: State, p: Place, trip: Trip) {
    && Ascending(trip.passed) && Ascending(trip.called)
    && (forall e :: e in trip.called ==> e in trip.passed)
    && (forall e :: e in trip.passed ==> e < |s.callbacks| && (e in trip.called || s.callbacks[e].pendingDelete))
    && (Traverses(p) ==>
          && (forall e :: e in trip.passed ==> if Came(p) then e <= p.at else e < p.at)
          && (Came(p) ==> p.at in trip.passed)
          && (p.Calling? || p.Returned? ==> trip.called != [] && trip.called[|trip.called| - 1] == p.at)
          && (forall e :: e in s.list && e < p.at ==> e in trip.passed)
          && (trip.failed <==> p.Returned? && !p.success))
  }

  ghost predicate Sorted(s: State) {
    && Ascending(s.list) && (forall k :: 0 <= k < |s.list| ==> s.list[k] < |s.callbacks|)
    && forall e :: 0 <= e < |s.callbacks| && s.callbacks[e].rundown ==> s.callbacks[e].pendingDelete
  }

  ghost predicate TracedInv(x: Traced) {
    && Inv(x.s) && Sorted(x.s) && |x.trips| == |x.s.threads|
    && forall t :: 0 <= t < |x.trips| ==> OnTheWay(x.s, x.s.threads[t], x.trips[t])
  }

  // ------------------------------------------------------------- preservation

  lemma AscendingWithout(q: seq<nat>, e: nat)
    requires Ascending(q)
    ensures Ascending(Without(q, e)) && forall x :: x in Without(q, e) ==> x in q
  {
    hide Without;
    forall x | x in Without(q, e) ensures x in q { WithoutMembers(q, e, x); }
    if k :| 0 <= k < |q| && q[k] == e {
      assert q[k] !in q[..k];
      WithoutAt(q, k);
    } else {
      WithoutNothing(q, e);
    }
  }

  lemma {:induction false} WithoutNothing(q: seq<nat>, e: nat)
    requires e !in q
    ensures Without(q, e) == q
  {
    if q != [] { WithoutNothing(q[1..], e); }
  }

  /** What a step does to the list and the marks. */
  ghost predicate Ages(s: State, u: State) {
    && |s.callbacks| <= |u.callbacks|
    && (forall e :: 0 <= e < |s.callbacks| && s.callbacks[e].pendingDelete ==> u.callbacks[e].pendingDelete)
    && (forall e :: e in u.list ==> e in s.list || e >= |s.callbacks|)
  }

  lemma StepAges(s: State, step: Step)
    requires Inv(s) && Enabled(s, step)
    ensures step.t < |s.threads| && Ages(s, Next(s, step)) && |Next(s, step).threads| == |s.threads|
    ensures forall v :: 0 <= v < |s.threads| && v != step.t ==> Next(s, step).threads[v] == s.threads[v]
  {
    hide Locked, Counted, Exclusive, Without;
    if step.Unlink? {
      var e := InHand(s, step.t);
      forall x | x in Without(s.list, e) ensures x in s.list { WithoutMembers(s.list, e, x); }
    }
  }

  lemma StepSorted(s: State, step: Step)
    requires Inv(s) && Sorted(s) && Enabled(s, step)
    ensures Sorted(Next(s, step))
  {
    hide Locked, Counted, Exclusive, Without, Ascending;
    if step.Register? {
      AscendingMore(s.list, |s.callbacks|);
    } else if !s.threads[step.t].Idle? {
      var e := InHand(s, step.t);
      if step.Unlink? {
        AscendingWithout(s.list, e);
        var u := Next(s, step);
        forall k | 0 <= k < |u.list| ensures u.list[k] < |u.callbacks| { assert u.list[k] in u.list; }
      }
    }
  }

  lemma OtherOnTheWay(s: State, u: State, p: Place, trip: Trip)
    requires OnTheWay(s, p, trip) && Ages(s, u) && (Traverses(p) ==> p.at < |s.callbacks|)
    ensures OnTheWay(u, p, trip)
  {
  }

  lemma AscendingMore(q: seq<nat>, e: nat)
    requires Ascending(q) && forall x :: x in q ==> x < e
    ensures Ascending(q + [e])
  {
    forall i | 0 <= i < |q| ensures q[i] < e { assert q[i] in q; }
  }

  /** The next entry of an ascending list is the least one above. */
  lemma {:induction false} AfterNext(q: seq<nat>, e: nat)
    requires Ascending(q) && e in q
    ensures match After(q, e)
            case None => forall x :: x in q ==> x <= e
            case Some(f) => f in q && e < f && forall x :: x in q && x < f ==> x <= e
  {
    if |q| >= 2 {
      if q[0] != e {
        assert q[1..][0] == q[1];
        AfterNext(q[1..], e);
        assert forall x :: x in q ==> x == q[0] || x in q[1..];
      } else {
        forall x | x in q && x < q[1] ensures x <= e { }
      }
    }
  }

  lemma VisitEffect(s: State, t: nat)
    requires Inv(s) && Sorted(s) && Enabled(s, Visit(t))
    ensures var u, e := Next(s, Visit(t)), s.threads[t].at;
            && e < |s.callbacks| == |u.callbacks| && u.list == s.list
            && u.threads[t] == (if s.callbacks[e].pendingDelete then Leaving(e) else Calling(e))
            && forall x :: 0 <= x < |s.callbacks| ==> u.callbacks[x].pendingDelete == s.callbacks[x].pendingDelete
  {
    var e := InHand(s, t);
    hide Locked, Counted, Exclusive, Listed;
  }

  lemma CameTo(s: State, u: State, e: nat, trip: Trip)
    requires OnTheWay(s, Walking(e), trip) && e < |s.callbacks| == |u.callbacks| && u.list == s.list
    requires forall x :: 0 <= x < |s.callbacks| ==> u.callbacks[x].pendingDelete == s.callbacks[x].pendingDelete
    ensures if s.callbacks[e].pendingDelete then OnTheWay(u, Leaving(e), trip.(passed := trip.passed + [e]))
            else OnTheWay(u, Calling(e), trip.(passed := trip.passed + [e], called := trip.called + [e]))
  {
    hide Ascending;
    AscendingMore(trip.passed, e);
    AscendingMore(trip.called, e);
  }

  lemma VisitOnTheWay(s: State, t: nat, trip: Trip)
    requires Inv(s) && Sorted(s) && Enabled(s, Visit(t)) && OnTheWay(s, s.threads[t], trip)
    ensures OnTheWay(Next(s, Visit(t)), Next(s, Visit(t)).threads[t], Noted(s, Visit(t), trip))
    ensures s.threads[t].at < |s.callbacks|
    ensures Next(s, Visit(t)).threads[t] == Calling(s.threads[t].at) <==>
            !s.callbacks[s.threads[t].at].pendingDelete
  {
    hide OnTheWay, Inv, Sorted, Next;
    VisitEffect(s, t);
    CameTo(s, Next(s, Visit(t)), s.threads[t].at, trip);
  }

  lemma FollowOnTheWay(s: State, t: nat, trip: Trip)
    requires Inv(s) && Sorted(s) && Enabled(s, Follow(t)) && OnTheWay(s, s.threads[t], trip)
    ensures OnTheWay(Next(s, Follow(t)), Next(s, Follow(t)).threads[t], trip)
    ensures s.threads[t].at in s.list
  {
    var e := InHand(s, t);
    hide Locked, Counted, Exclusive, Listed, After;
    AfterNext(s.list, e);
  }

  lemma OwnOnTheWay(s: State, step: Step, trip: Trip)
    requires Inv(s) && Sorted(s) && Enabled(s, step) && OnTheWay(s, s.threads[step.t], trip)
    ensures OnTheWay(Next(s, step), Next(s, step).threads[step.t], Noted(s, step, trip))
  {
    StepAges(s, step);
    if step.Visit? {
      VisitOnTheWay(s, step.t, trip);
    } else if step.Follow? {
      FollowOnTheWay(s, step.t, trip);
    } else if s.threads[step.t].Idle? {
      hide Locked, Counted, Exclusive, Listed;
    } else {
      var e := InHand(s, step.t);
      if s.threads[step.t].Returned? { HasCallersIf(s, step.t); }
      hide Locked, Counted, Exclusive, Listed, Without;
    }
  }

  lemma HasCallersIf(s: State, t: nat)
    requires Inv(s) && t < |s.threads| && s.threads[t].Returned?
    ensures s.threads[t].at < |s.callbacks| && s.callbacks[s.threads[t].at].refs >= 1
  {
    var e := InHand(s, t);
    HasCallers(s, e, t);
  }

  /** Every step of every interleaving keeps the history right. */
  lemma TracedStep(x: Traced, step: Step)
    requires TracedInv(x) && Enabled(x.s, step)
    ensures TracedInv(TracedNext(x, step))
  {
    hide Inv, Sorted, Ages, Enabled, Next, Noted;
    StepAges(x.s, step);
    StepKeepsInv(x.s, step);
    StepSorted(x.s, step);
    var y := TracedNext(x, step);
    forall t | 0 <= t < |y.trips| ensures OnTheWay(y.s, y.s.threads[t], y.trips[t]) {
      if t == step.t {
        OwnOnTheWay(x.s, step, x.trips[t]);
      } else {
        AtKnown(x.s, t);
        OtherOnTheWay(x.s, y.s, x.s.threads[t], x.trips[t]);
      }
    }
  }

  lemma AtKnown(s: State, t: nat)
    requires Inv(s) && t < |s.threads|
    ensures Traverses(s.threads[t]) ==> s.threads[t].at < |s.callbacks|
  {
    if Traverses(s.threads[t]) { var e := InHand(s, t); }
  }

  ghost predicate TracedRun(states: seq<Traced>, steps: seq<Step>) {
    && |states| == |steps| + 1
    && forall k :: 0 <= k < |steps| ==>
         && Enabled(states[k].s, steps[k]) && |states[k].trips| == |states[k].s.threads|
         && states[k + 1] == TracedNext(states[k], steps[k])
  }

  lemma InitTraced(threads: nat)
    ensures TracedInv(Init(threads))
  {
    InitInv(threads);
  }

  lemma {:induction false} TracedRunKeeps(states: seq<Traced>, steps: seq<Step>, threads: nat, k: nat)
    requires TracedRun(states, steps) && states[0] == Init(threads) && k < |states|
    ensures TracedInv(states[k])
  {
    hide TracedInv, TracedNext, Enabled;
    if k == 0 {
      InitTraced(threads);
    } else {
      TracedRunKeeps(states, steps, threads, k - 1);
      TracedStep(states[k - 1], steps[k - 1]);
    }
  }

  // ---------------------------------------------------------- the main results

  /** In every run a traversal calls an entry it comes to if and only if that is not pending deletion. */
  lemma CalledUnlessDeleted(states: seq<Traced>, steps: seq<Step>, threads: nat, k: nat)
    requires TracedRun(states, steps) && states[0] == Init(threads) && k < |steps| && steps[k].Visit?
    ensures var s, t := states[k].s, steps[k].t;
            && s.threads[t].at < |s.callbacks|
            && (states[k + 1].s.threads[t] == Calling(s.threads[t].at) <==>
                  !s.callbacks[s.threads[t].at].pendingDelete)
  {
    TracedRunKeeps(states, steps, threads, k);
    var s, t := states[k].s, steps[k].t;
    var e := InHand(s, t);
    VisitOnTheWay(s, t, states[k].trips[t]);
  }

  /** In every run a traversal ends early if and only if a call failed, and that was its last call. One
      that ends otherwise has come to every entry that is then on the list and has called all of them
      that are not pending deletion. Either way it called in list order, each entry once. */
  lemma TraversalEnds(states: seq<Traced>, steps: seq<Step>, threads: nat, k: nat)
    requires TracedRun(states, steps) && states[0] == Init(threads) && k < |steps|
    requires var t := steps[k].t; Traverses(states[k].s.threads[t]) && states[k + 1].s.threads[t].Idle?
    ensures var s, t := states[k].s, steps[k].t;
            var p, trip := s.threads[t], states[k + 1].trips[t];
            && Ascending(trip.called) && (trip.failed <==> p == Returned(p.at, false))
            && (trip.failed ==> trip.called != [] && trip.called[|trip.called| - 1] == p.at)
            && (!trip.failed ==>
                  && steps[k].Follow?
                  && forall e :: e in s.list ==>
                       e in trip.passed && e < |s.callbacks| && (e in trip.called || s.callbacks[e].pendingDelete))
  {
    TracedRunKeeps(states, steps, threads, k);
    EndsIf(states[k].s, steps[k], states[k].trips[steps[k].t]);
  }

  lemma EndsIf(s: State, step: Step, trip: Trip)
    requires Inv(s) && Sorted(s) && Enabled(s, step) && OnTheWay(s, s.threads[step.t], trip)
    requires Traverses(s.threads[step.t]) && Next(s, step).threads[step.t].Idle?
    ensures var p, after := s.threads[step.t], Noted(s, step, trip);
            && after == trip && (trip.failed <==> p == Returned(p.at, false))
            && (trip.failed ==> trip.called != [] && trip.called[|trip.called| - 1] == p.at)
            && (!trip.failed ==>
                  step.Follow? && forall e :: e in s.list ==> e in trip.passed && e < |s.callbacks|)
  {
    var e := InHand(s, step.t);
    if s.threads[step.t].Returned? { HasCallersIf(s, step.t); }
    AfterNext(s.list, e);
    hide Locked, Counted, Exclusive, Listed, After;
  }

  /** After a failed call the thread's only step is to end the traversal; after a successful one it
      goes on to the least entry above that is then on the list, if there is one. */
  lemma GoesOn(s: State, step: Step)
    requires Inv(s) && Sorted(s) && Enabled(s, step) && (step.Release? || step.Follow?)
    ensures var p, q := s.threads[step.t], Next(s, step).threads[step.t];
            && (step.Release? ==> q == if p == Returned(p.at, false) then Idle else Leaving(p.at))
            && (step.Follow? ==>
                  if q.Idle? then forall e :: e in s.list ==> e <= p.at
                  else q == Walking(q.at) && q.at in s.list && p.at < q.at
                       && forall e :: e in s.list && e < q.at ==> e <= p.at)
  {
    var e := InHand(s, step.t);
    if s.threads[step.t].Returned? { HasCallersIf(s, step.t); }
    AfterNext(s.list, e);
    hide Locked, Counted, Exclusive, Listed, After;
  }

  /** A traversal begins at the head of the list, if there is one. */
  lemma BeginsAtHead(s: State, t: nat)
    requires Enabled(s, BeginCalls(t))
    ensures Next(s, BeginCalls(t)).threads[t] == if s.list == [] then Idle else Walking(s.list[0])
  {
  }
}
