/**
 What becomes of an IRP: with which status it is completed, and in which order IRPs leave the queue.
 The status follows from who took the cancel routine, and from nothing else.
 */
module IrpOutcome {
  import opened Sequences
  import opened IrpCancel
  import opened ListOrder

  /** In this step a dequeue gets the cancel routine of IRP i. */
  ghost predicate DequeueTakes(s: State, step: Step, i: nat) {
    && step.Advance? && step.t < |s.threads| && s.threads[step.t] == DequeueTake(i)
    && i < |s.irps| && s.irps[i].routine
  }

  /** In this step a canceller gets it, or the queueing thread that saw the cancel flag. */
  ghost predicate CancelTakes(s: State, step: Step, i: nat) {
    && step.Advance? && step.t < |s.threads| && i < |s.irps| && s.irps[i].routine
    && (s.threads[step.t] == CancelTake(i) || s.threads[step.t] == QueueTake(i))
  }

  /** The status with which IRP i has been or is going to be completed, once that is settled. */
  ghost function Fate(s: State, i: nat): Option<Status>
    requires i < |s.irps|
  {
    var r := s.irps[i];
    match r.charge
    case Finisher(t) =>
      if t < |s.threads| && s.threads[t].Completing? then Some(s.threads[t].status) else Some(Cancelled)
    case Done => if r.completions == [] then None else Some(r.completions[0])
    case _ => None
  }

  lemma FateOther(s: State, step: Step, i: nat, j: nat)
    requires Inv(s) && Touches(s, step, j) && Local(s, Next(s, step), step.t, j) && i < |s.irps| && i != j
    ensures i < |Next(s, step).irps| && Fate(Next(s, step), i) == Fate(s, i)
    ensures !DequeueTakes(s, step, i) && !CancelTakes(s, step, i)
  {
    hide Locked, Queued, Honest, Pending, Next;
    assert Charged(s, i);
    ChargedAt(s, step.t, i);
  }

  lemma FateHere(s: State, step: Step, i: nat)
    requires Inv(s) && Touches(s, step, i) && Local(s, Next(s, step), step.t, i)
    ensures DequeueTakes(s, step, i) || CancelTakes(s, step, i) ==> Fate(s, i).None?
    ensures !(DequeueTakes(s, step, i) && CancelTakes(s, step, i))
    ensures i < |Next(s, step).irps|
    ensures Fate(Next(s, step), i) ==
            if DequeueTakes(s, step, i) then Some(Success)
            else if CancelTakes(s, step, i) then Some(Cancelled)
            else Fate(s, i)
  {
    assert Charged(s, i);
    ChargedAt(s, step.t, i);
    hide Locked, Queued, Honest, Pending, Charged, Local, Without, InRange;
  }

  /** Each step: whoever takes the cancel routine settles the status, and nothing else changes it. */
  lemma FateStep(s: State, step: Step, i: nat)
    requires Inv(s) && Enabled(s, step) && i < |s.irps|
    ensures InRange(s) && i < |Next(s, step).irps|
    ensures DequeueTakes(s, step, i) || CancelTakes(s, step, i) ==> Fate(s, i).None?
    ensures !(DequeueTakes(s, step, i) && CancelTakes(s, step, i))
    ensures Fate(Next(s, step), i) ==
            if DequeueTakes(s, step, i) then Some(Success)
            else if CancelTakes(s, step, i) then Some(Cancelled)
            else Fate(s, i)
  {
    hide Locked, Queued, Honest, Pending, Charged, Local, Next, Fate, DequeueTakes, CancelTakes;
    var j := StepLocal(s, step);
    if i == j { FateHere(s, step, i); } else { FateOther(s, step, i, j); }
  }

  ghost predicate TakenByDequeue(states: seq<State>, steps: seq<Step>, k: nat, i: nat) {
    exists l :: 0 <= l < k && l < |steps| && l < |states| && DequeueTakes(states[l], steps[l], i)
  }

  ghost predicate TakenByCancel(states: seq<State>, steps: seq<Step>, k: nat, i: nat) {
    exists l :: 0 <= l < k && l < |steps| && l < |states| && CancelTakes(states[l], steps[l], i)
  }

  lemma {:induction false} FateTold(states: seq<State>, steps: seq<Step>, irps: nat, threads: nat, k: nat, i: nat)
    requires IsRun(states, steps) && states[0] == Init(irps, threads) && k < |states| && i < irps
    ensures i < |states[k].irps|
    ensures Fate(states[k], i) == Some(Success) <==> TakenByDequeue(states, steps, k, i)
    ensures Fate(states[k], i) == Some(Cancelled) <==> TakenByCancel(states, steps, k, i)
  {
    hide Inv, Next, Enabled, InRange, DequeueTakes, CancelTakes;
    if k > 0 {
      FateTold(states, steps, irps, threads, k - 1, i);
      InitInv(irps, threads);
      RunKeepsInv(states, steps, k - 1);
      FateStep(states[k - 1], steps[k - 1], i);
      OneMore(states, steps, k - 1, i);
    }
  }

  lemma OneMore(states: seq<State>, steps: seq<Step>, k: nat, i: nat)
    requires k < |steps| && k < |states|
    ensures TakenByDequeue(states, steps, k + 1, i) <==>
            TakenByDequeue(states, steps, k, i) || DequeueTakes(states[k], steps[k], i)
    ensures TakenByCancel(states, steps, k + 1, i) <==>
            TakenByCancel(states, steps, k, i) || CancelTakes(states[k], steps[k], i)
  {
    hide DequeueTakes, CancelTakes;
    if l :| 0 <= l < k + 1 && l < |steps| && l < |states| && DequeueTakes(states[l], steps[l], i) && l != k {
      assert TakenByDequeue(states, steps, k, i);
    }
    if l :| 0 <= l < k + 1 && l < |steps| && l < |states| && CancelTakes(states[l], steps[l], i) && l != k {
      assert TakenByCancel(states, steps, k, i);
    }
  }

  /** In every run a completed IRP was completed as a success if and only if a dequeue took its cancel
      routine, and as cancelled if and only if a canceller, or the queueing thread that saw the
      cancel flag, took it. */
  lemma StatusTold(states: seq<State>, steps: seq<Step>, irps: nat, threads: nat, k: nat, i: nat)
    requires IsRun(states, steps) && states[0] == Init(irps, threads) && k < |states| && i < irps
    ensures i < |states[k].irps|
    ensures states[k].irps[i].completions != [] ==>
            && (states[k].irps[i].completions == [Success] <==> TakenByDequeue(states, steps, k, i))
            && (states[k].irps[i].completions == [Cancelled] <==> TakenByCancel(states, steps, k, i))
  {
    FateTold(states, steps, irps, threads, k, i);
    InitInv(irps, threads);
    RunKeepsInv(states, steps, k);
    assert Charged(states[k], i);
    hide TakenByDequeue, TakenByCancel;
  }

  // ------------------------------------------------------- the order of the queue

  lemma QueueGrows(s: State, step: Step)
    requires Inv(s) && Enabled(s, step)
    ensures InRange(s) && Grows(s.queue, Next(s, step).queue)
    ensures step.BeginDequeue? ==> s.queue != [] && Next(s, step).queue == s.queue[1..]
  {
    hide Grows, Without, Honest, Locked;
    var i := StepLocal(s, step);
    assert Pending(s, i);
    StaleInHand(s, step.t, i);
    if step.Advance? { AdvanceEffect(s, step, i); } else { BeginEffect(s, step, i); }
    GrowsSame(s.queue);
    GrowsWithout(s.queue, i);
    if !s.irps[i].link.Linked? { GrowsAppend(s.queue, i); }
  }

  ghost function Queues(states: seq<State>, k: nat): seq<seq<nat>>
    requires k < |states|
  {
    seq(k + 1, l requires 0 <= l < |states| => states[l].queue)
  }

  /** In every run IRPs are dequeued in the order in which they were queued: a dequeue takes the head,
      and an IRP that has stayed on the queue is ahead of all that came later. */
  lemma FirstQueuedFirst(states: seq<State>, steps: seq<Step>, irps: nat, threads: nat, k: nat, m: nat, i: nat, j: nat)
    requires IsRun(states, steps) && states[0] == Init(irps, threads) && k <= m < |states| && i != j
    requires (forall l :: k <= l <= m ==> i in states[l].queue) && j !in states[k].queue && j in states[m].queue
    ensures Before(states[m].queue, i, j)
    ensures m < |steps| && steps[m].BeginDequeue? ==> states[m].queue[0] != j && j in states[m + 1].queue
  {
    hide Inv, Next, Enabled, InRange, Before, Grows;
    InitInv(irps, threads);
    var lists := Queues(states, m);
    forall l | 0 <= l < |lists| - 1 ensures Grows(lists[l], lists[l + 1]) {
      RunKeepsInv(states, steps, l);
      QueueGrows(states[l], steps[l]);
    }
    OlderInFront(lists, k, i, j);
    if m < |steps| && steps[m].BeginDequeue? {
      RunKeepsInv(states, steps, m);
      QueueGrows(states[m], steps[m]);
      assert NoDup(states[m].queue) by { RunQueued(states[m]); }
      NotFirst(states[m].queue, i, j);
    }
  }

  lemma RunQueued(s: State)
    requires Inv(s)
    ensures NoDup(s.queue)
  {
  }

  lemma NotFirst(q: seq<nat>, i: nat, j: nat)
    requires NoDup(q) && Before(q, i, j)
    ensures q[0] != j && j in q[1..]
  {
  }

  // ------------------------------------------------- no cancelled IRP is left behind

  /** The thread is going to try for the cancel routine of IRP i, or to look at its cancel flag. */
  predicate WillLook(p: Place, i: nat) {
    p == CancelTake(i) || p == QueueTest(i) || p == QueueTake(i)
  }

  ghost predicate Noticed(s: State, i: nat)
    requires i < |s.irps|
  {
    s.irps[i].routine && s.irps[i].cancel ==> exists t :: 0 <= t < |s.threads| && WillLook(s.threads[t], i)
  }

  lemma NoticedOther(s: State, step: Step, i: nat, j: nat)
    requires Touches(s, step, j) && Local(s, Next(s, step), step.t, j) && InRange(s)
    requires i < |s.irps| && i != j && Noticed(s, i)
    ensures i < |Next(s, step).irps| && Noticed(Next(s, step), i)
  {
    hide Next;
    if t :| 0 <= t < |s.threads| && WillLook(s.threads[t], i) {
      assert WillLook(Next(s, step).threads[t], i);
    }
  }

  /** A thread that stops looking leaves no cancel routine behind on a cancelled IRP. */
  ghost predicate Looked(s: State, u: State, t: nat, i: nat) {
    && t < |s.threads| == |u.threads| && i < |s.irps| == |u.irps|
    && (u.irps[i].routine && u.irps[i].cancel && !WillLook(u.threads[t], i) ==>
          s.irps[i].routine && s.irps[i].cancel && !WillLook(s.threads[t], i))
  }

  lemma LookBegin(s: State, step: Step, i: nat)
    requires Touches(s, step, i) && !step.Advance?
    ensures Looked(s, Next(s, step), step.t, i)
  {
  }

  lemma LookQueue(s: State, t: nat, i: nat)
    requires Touches(s, Advance(t), i)
    requires s.threads[t].QueueSet? || s.threads[t].QueueTest? || s.threads[t].QueueTake? || s.threads[t].QueueInsert?
    ensures Looked(s, Next(s, Advance(t)), t, i)
  {
  }

  lemma LookElse(s: State, t: nat, i: nat)
    requires Touches(s, Advance(t), i) && !s.threads[t].Idle?
    requires !s.threads[t].QueueSet? && !s.threads[t].QueueTest? && !s.threads[t].QueueTake?
    requires !s.threads[t].QueueInsert?
    ensures Looked(s, Next(s, Advance(t)), t, i)
  {
    hide Without;
  }

  lemma LookEffect(s: State, step: Step, i: nat)
    requires Touches(s, step, i) && InRange(s)
    ensures Looked(s, Next(s, step), step.t, i)
  {
    hide Next, Looked, InRange;
    if !step.Advance? {
      LookBegin(s, step, i);
    } else {
      var p := s.threads[step.t];
      if p.QueueSet? || p.QueueTest? || p.QueueTake? || p.QueueInsert? { LookQueue(s, step.t, i); }
      else { LookElse(s, step.t, i); }
    }
  }

  lemma NoticedHere(s: State, step: Step, i: nat)
    requires Touches(s, step, i) && Local(s, Next(s, step), step.t, i) && InRange(s) && Noticed(s, i)
    ensures i < |Next(s, step).irps| && Noticed(Next(s, step), i)
  {
    LookEffect(s, step, i);
    hide Next, InRange, WillLook;
    var u := Next(s, step);
    if u.irps[i].routine && u.irps[i].cancel && !WillLook(u.threads[step.t], i) {
      var t :| 0 <= t < |s.threads| && WillLook(s.threads[t], i);
      assert WillLook(u.threads[t], i);
    }
  }

  lemma NoticedStep(s: State, step: Step, i: nat)
    requires Inv(s) && Enabled(s, step) && i < |s.irps| && Noticed(s, i)
    ensures InRange(s) && i < |Next(s, step).irps| && Noticed(Next(s, step), i)
  {
    hide Locked, Queued, Honest, Pending, Charged, Local, Next, Noticed;
    var j := StepLocal(s, step);
    if i == j { NoticedHere(s, step, i); } else { NoticedOther(s, step, i, j); }
  }

  lemma {:induction false} RunNoticed(states: seq<State>, steps: seq<Step>, irps: nat, threads: nat, k: nat, i: nat)
    requires IsRun(states, steps) && states[0] == Init(irps, threads) && k < |states| && i < irps
    ensures i < |states[k].irps| && Noticed(states[k], i)
  {
    hide Inv, Next, Enabled, InRange, Noticed;
    if k == 0 {
      StartNoticed(irps, threads, i);
    } else {
      RunNoticed(states, steps, irps, threads, k - 1, i);
      InitInv(irps, threads);
      RunKeepsInv(states, steps, k - 1);
      NoticedStep(states[k - 1], steps[k - 1], i);
    }
  }

  lemma StartNoticed(irps: nat, threads: nat, i: nat)
    requires i < irps
    ensures Noticed(Init(irps, threads), i)
  {
  }

  /** In every run an IRP that is cancelled while it is queued, or was before, has a canceller on its
      way: it is never left on the queue for good. */
  lemma CancelledIsNoticed(states: seq<State>, steps: seq<Step>, irps: nat, threads: nat, k: nat, i: nat)
    requires IsRun(states, steps) && states[0] == Init(irps, threads) && k < |states| && i < irps
    requires i < |states[k].irps| && i in states[k].queue && states[k].irps[i].cancel
    ensures exists t :: 0 <= t < |states[k].threads| && OnItsWay(states[k].threads[t], i)
  {
    RunNoticed(states, steps, irps, threads, k, i);
    InitInv(irps, threads);
    RunKeepsInv(states, steps, k);
    QueuedNoticed(states[k], i);
  }

  predicate OnItsWay(p: Place, i: nat) {
    p == CancelTake(i) || p == CancelLock(i) || p == CancelRemove(i)
  }

  lemma QueuedNoticed(s: State, i: nat)
    requires Inv(s) && i < |s.irps| && i in s.queue && s.irps[i].cancel && Noticed(s, i)
    ensures exists t :: 0 <= t < |s.threads| && OnItsWay(s.threads[t], i)
  {
    assert Pending(s, i) && s.irps[i].link.Linked?;
    hide Locked, Honest, Queued;
    if s.irps[i].routine {
      var t :| 0 <= t < |s.threads| && WillLook(s.threads[t], i);
      assert !InHand(s.threads[t], i);
      assert OnItsWay(s.threads[t], i);
    } else {
      assert CancellerWaits(s, i);
      assert OnItsWay(s.threads[s.irps[i].charge.who], i);
    }
  }
}
