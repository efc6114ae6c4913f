/**
 Queueing, dequeueing and cancelling IRPs with a driver-managed queue. The cancel routine is
 swapped atomically outside the queue lock, so a step is one interlocked operation, one test,
 or one list operation under the lock; any number of threads and IRPs interleave freely.
 */
module IrpCancel {
  import opened Sequences

  /** The list entry of an IRP: linked into the queue, pointing to itself, or with links that
      must not be followed. */
  datatype Link = Stale | Linked | SelfLinked

  datatype Status = Cancelled | Success

  /** `charge` is history: who is charged with completing the IRP. */
  datatype Charge = Fresh | Setting(thread: nat) | Routine | Finisher(who: nat) | Done

  datatype Irp = Irp(routine: bool, cancel: bool, link: Link, completions: seq<Status>, charge: Charge)

  /** Where a thread stands. The lock is held from QueueSet to QueueInsert, in the Dequeue
      places and in CancelRemove. */
  datatype Place =
    | Idle
    | QueueSet(irp: nat)
    | QueueTest(irp: nat)
    | QueueTake(irp: nat)
    | QueueInsert(irp: nat)
    | DequeueTake(irp: nat)
    | DequeueInit(irp: nat)
    | CancelTake(irp: nat)
    | CancelLock(irp: nat)
    | CancelRemove(irp: nat)
    | Completing(irp: nat, status: Status)

  /** `corrupt` records that a list removal followed stale links. */
  datatype State = State(irps: seq<Irp>, queue: seq<nat>, lock: Lock, threads: seq<Place>, corrupt: bool)

  datatype Lock = Free | HeldBy(thread: nat)

  datatype Step =
    | BeginQueue(t: nat, i: nat)
    | BeginDequeue(t: nat)
    | BeginCancel(t: nat, i: nat)
    | Advance(t: nat)

  predicate Holds(p: Place) {
    p.QueueSet? || p.QueueTest? || p.QueueTake? || p.QueueInsert? || p.DequeueTake? || p.DequeueInit? || p.CancelRemove?
  }

  // ---------------------------------------------------------------- the steps

  function Move(s: State, t: nat, p: Place): State
    requires t < |s.threads|
  {
    s.(threads := s.threads[t := p])
  }

  function Put(s: State, i: nat, irp: Irp): State
    requires i < |s.irps|
  {
    s.(irps := s.irps[i := irp])
  }

  function Init(irps: nat, threads: nat): State {
    State(seq(irps, i => Irp(false, false, Stale, [], Fresh)), [], Free, seq(threads, i => Idle), false)
  }

  ghost predicate Enabled(s: State, step: Step) {
    && step.t < |s.threads|
    && match step
       case BeginQueue(t, i) => s.threads[t].Idle? && s.lock.Free? && i < |s.irps| && s.irps[i].charge.Fresh?
       case BeginDequeue(t) => s.threads[t].Idle? && s.lock.Free? && s.queue != []
       case BeginCancel(t, i) => s.threads[t].Idle? && i < |s.irps|
       case Advance(t) => !s.threads[t].Idle? && (s.threads[t].CancelLock? ==> s.lock.Free?)
  }

  /** IoSetCancelRoutine(Irp, NULL) by thread t: whoever gets the routine is charged. */
  function Take(s: State, t: nat, i: nat): State
    requires i < |s.irps|
  {
    Put(s, i, s.irps[i].(routine := false, charge := if s.irps[i].routine then Finisher(t) else s.irps[i].charge))
  }

  function Next(s: State, step: Step): State
    requires step.t < |s.threads|
    requires step.BeginQueue? || step.BeginCancel? ==> step.i < |s.irps|
    requires step.BeginDequeue? ==> s.queue != [] && s.queue[0] < |s.irps|
    requires step.Advance? && !s.threads[step.t].Idle? ==> s.threads[step.t].irp < |s.irps|
  {
    match step
    case BeginQueue(t, i) =>
      Move(Put(s, i, s.irps[i].(charge := Setting(t))), t, QueueSet(i)).(lock := HeldBy(t))
    case BeginDequeue(t) =>
      var i := s.queue[0];
      Move(Put(s, i, s.irps[i].(link := Stale)), t, DequeueTake(i)).(lock := HeldBy(t), queue := s.queue[1..])
    case BeginCancel(t, i) =>
      Move(Put(s, i, s.irps[i].(cancel := true)), t, CancelTake(i))
    case Advance(t) =>
      match s.threads[t]
      case Idle => s
      case QueueSet(i) => Move(Put(s, i, s.irps[i].(routine := true, charge := Routine)), t, QueueTest(i))
      case QueueTest(i) => Move(s, t, if s.irps[i].cancel then QueueTake(i) else QueueInsert(i))
      case QueueTake(i) =>
        if s.irps[i].routine then Move(Take(s, t, i), t, Completing(i, Cancelled)).(lock := Free)
        else Move(s, t, QueueInsert(i))
      case QueueInsert(i) =>
        Move(Put(s, i, s.irps[i].(link := Linked)), t, Idle).(lock := Free, queue := s.queue + [i])
      case DequeueTake(i) =>
        if s.irps[i].routine then Move(Take(s, t, i), t, Completing(i, Success)).(lock := Free)
        else Move(s, t, DequeueInit(i))
      case DequeueInit(i) =>
        Move(Put(s, i, s.irps[i].(link := SelfLinked)), t, Idle).(lock := Free)
      case CancelTake(i) =>
        if s.irps[i].routine then Move(Take(s, t, i), t, CancelLock(i)) else Move(s, t, Idle)
      case CancelLock(i) => Move(s, t, CancelRemove(i)).(lock := HeldBy(t))
      case CancelRemove(i) => Move(Removed(s, i), t, Completing(i, Cancelled)).(lock := Free)
      case Completing(i, status) =>
        Move(Put(s, i, s.irps[i].(completions := s.irps[i].completions + [status], charge := Done)), t, Idle)
  }

  /** RemoveEntryList on the entry of IRP i: takes it out of the queue when it is linked, does
      nothing when it points to itself, and corrupts memory otherwise. */
  function Removed(s: State, i: nat): State
    requires i < |s.irps|
  {
    match s.irps[i].link
    case Linked => Put(s, i, s.irps[i].(link := Stale)).(queue := Without(s.queue, i))
    case SelfLinked => s
    case Stale => s.(corrupt := true)
  }

  // ------------------------------------------------------------ the invariant

  ghost predicate InRange(s: State) {
    && (forall k :: 0 <= k < |s.queue| ==> s.queue[k] < |s.irps|)
    && (forall t :: 0 <= t < |s.threads| && !s.threads[t].Idle? ==> s.threads[t].irp < |s.irps|)
  }

  /** The lock is held by exactly the thread inside a critical section. */
  ghost predicate Locked(s: State) {
    forall t :: 0 <= t < |s.threads| ==> (Holds(s.threads[t]) <==> s.lock == HeldBy(t))
  }

  /** Thread t is on its way to complete IRP i. */
  predicate Finishes(p: Place, i: nat) {
    p == CancelLock(i) || p == CancelRemove(i) || (p.Completing? && p.irp == i)
  }

  /** A critical section that has IRP i in hand, between its start and its end. */
  predicate InHand(p: Place, i: nat) {
    p == QueueTest(i) || p == QueueTake(i) || p == QueueInsert(i) || p == DequeueTake(i) || p == DequeueInit(i)
  }

  /** The charge of IRP i agrees with its cancel routine, its completions and the threads. */
  ghost predicate Charged(s: State, i: nat)
    requires i < |s.irps|
  {
    var r := s.irps[i];
    && (r.routine <==> r.charge.Routine?)
    && (r.completions == [] <==> !r.charge.Done?) && |r.completions| <= 1
    && (forall t :: 0 <= t < |s.threads| ==> (s.threads[t] == QueueSet(i) <==> r.charge == Setting(t)))
    && (forall t :: 0 <= t < |s.threads| ==> (Finishes(s.threads[t], i) <==> r.charge == Finisher(t)))
    && (r.charge.Setting? ==> r.charge.thread < |s.threads|)
    && (r.charge.Finisher? ==> r.charge.who < |s.threads|)
  }

  ghost predicate CancellerWaits(s: State, i: nat)
    requires i < |s.irps|
  {
    var c := s.irps[i].charge;
    c.Finisher? && c.who < |s.threads| && (s.threads[c.who] == CancelLock(i) || s.threads[c.who] == CancelRemove(i))
  }

  ghost predicate SomeoneHas(s: State, i: nat) {
    exists t :: 0 <= t < |s.threads| && InHand(s.threads[t], i)
  }

  /** While the IRP is queued or in hand, its completion is still ahead: with the routine or with
      a canceller that waits for the lock. */
  ghost predicate Pending(s: State, i: nat)
    requires i < |s.irps|
  {
    var r := s.irps[i];
    && (r.link.Linked? || SomeoneHas(s, i) ==> r.routine || CancellerWaits(s, i))
    && (r.routine ==> r.link.Linked? || SomeoneHas(s, i))
    && (CancellerWaits(s, i) ==> !r.link.Stale? || SomeoneHas(s, i))
    && (forall t :: 0 <= t < |s.threads| && s.threads[t] == DequeueInit(i) ==> !r.routine)
    && (forall t :: 0 <= t < |s.threads| && InHand(s.threads[t], i) ==> r.link.Stale?)
    && (r.charge.Fresh? || r.charge.Setting? ==> r.link.Stale?)
  }

  ghost predicate Queued(s: State) {
    && NoDup(s.queue)
    && (forall i :: 0 <= i < |s.irps| ==> (i in s.queue <==> s.irps[i].link.Linked?))
  }

  /** A thread that is about to complete an IRP as cancelled, and one that will, was asked to. */
  ghost predicate Asked(irps: seq<Irp>, p: Place) {
    match p
    case QueueTake(i) => i < |irps| && irps[i].cancel
    case CancelTake(i) => i < |irps| && irps[i].cancel
    case CancelLock(i) => i < |irps| && irps[i].cancel
    case CancelRemove(i) => i < |irps| && irps[i].cancel
    case Completing(i, status) => i < |irps| && (status == Cancelled ==> irps[i].cancel)
    case _ => true
  }

  /** Only an IRP somebody asked to cancel completes as cancelled. */
  ghost predicate Honest(s: State) {
    && (forall i :: 0 <= i < |s.irps| && Cancelled in s.irps[i].completions ==> s.irps[i].cancel)
    && (forall t :: 0 <= t < |s.threads| ==> Asked(s.irps, s.threads[t]))
  }

  ghost predicate Inv(s: State) {
    && InRange(s) && Locked(s) && Queued(s) && Honest(s) && !s.corrupt
    && (forall i :: 0 <= i < |s.irps| ==> Charged(s, i))
    && (forall i :: 0 <= i < |s.irps| ==> Pending(s, i))
  }

  // ------------------------------------------------------------- preservation

  predicate Concerns(p: Place, i: nat) {
    p.Idle? || p.irp == i
  }

  /** u differs from s in thread t, in IRP i, and in the queue and the lock. */
  ghost predicate Local(s: State, u: State, t: nat, i: nat) {
    && t < |s.threads| && i < |s.irps| && |u.threads| == |s.threads| && |u.irps| == |s.irps|
    && (forall v :: 0 <= v < |s.threads| && v != t ==> u.threads[v] == s.threads[v])
    && (forall j :: 0 <= j < |s.irps| && j != i ==> u.irps[j] == s.irps[j])
    && Concerns(s.threads[t], i) && Concerns(u.threads[t], i)
  }

  lemma OthersKept(s: State, u: State, t: nat, i: nat, j: nat)
    requires Local(s, u, t, i) && j < |s.irps| && j != i && Charged(s, j) && Pending(s, j)
    ensures Charged(u, j) && Pending(u, j)
  {
    assert forall v :: 0 <= v < |s.threads| ==> (InHand(u.threads[v], j) <==> InHand(s.threads[v], j));
    assert CancellerWaits(u, j) <==> CancellerWaits(s, j);
  }

  lemma StepLocal(s: State, step: Step) returns (i: nat)
    requires Inv(s) && Enabled(s, step)
    ensures Touches(s, step, i) && Local(s, Next(s, step), step.t, i)
  {
    hide Locked, Queued, Honest, Charged, Pending;
    match step
    case BeginQueue(_, j) => i := j;
    case BeginDequeue(_) => i := s.queue[0];
    case BeginCancel(_, j) => i := j;
    case Advance(t) => i := s.threads[t].irp;
  }

  lemma LockedIf(s: State, u: State, t: nat, i: nat)
    requires Local(s, u, t, i) && Locked(s)
    requires Holds(u.threads[t]) <==> u.lock == HeldBy(t)
    requires u.lock == s.lock || (s.lock in {Free, HeldBy(t)} && u.lock in {Free, HeldBy(t)})
    ensures Locked(u)
  {
  }

  lemma StepLocked(s: State, step: Step, i: nat)
    requires Touches(s, step, i) && Locked(s) && Local(s, Next(s, step), step.t, i)
    ensures Locked(Next(s, step))
  {
    hide Locked, Local, Without;
    LocalAt(s, Next(s, step), step.t, i);
    LockedAt(s, step.t);
    LockedIf(s, Next(s, step), step.t, i);
  }

  lemma LockedAt(s: State, t: nat)
    requires Locked(s) && t < |s.threads|
    ensures Holds(s.threads[t]) <==> s.lock == HeldBy(t)
  {
  }

  lemma InRangeIf(s: State, u: State, t: nat, i: nat)
    requires Local(s, u, t, i) && InRange(s) && NoDup(s.queue) && QueueEffect(s, u, i)
    ensures InRange(u)
  {
    hide Without;
    forall k | 0 <= k < |u.queue| ensures u.queue[k] < |s.irps| {
      WithoutMembers(s.queue, i, u.queue[k]);
    }
  }

  lemma StepInRange(s: State, step: Step, i: nat)
    requires Touches(s, step, i) && InRange(s) && NoDup(s.queue) && Pending(s, i) && Local(s, Next(s, step), step.t, i)
    ensures InRange(Next(s, step))
  {
    hide InRange, Local, Pending, Next;
    StaleInHand(s, step.t, i);
    if step.Advance? { AdvanceEffect(s, step, i); } else { BeginEffect(s, step, i); }
    InRangeIf(s, Next(s, step), step.t, i);
  }

  lemma QueuedIf(s: State, u: State, t: nat, i: nat)
    requires Local(s, u, t, i) && Queued(s) && QueueEffect(s, u, i)
    ensures Queued(u)
  {
    hide Without;
    if u.queue == Without(s.queue, i) && !u.irps[i].link.Linked? {
      WithoutNoDup(s.queue, i);
      forall j: nat ensures j in u.queue <==> j in s.queue && j != i { WithoutMembers(s.queue, i, j); }
    } else if u.queue == s.queue + [i] {
      assert i !in s.queue;
    }
  }

  /** A step leaves the queue alone, appends IRP i that was not linked, or takes it out. */
  ghost predicate QueueEffect(s: State, u: State, i: nat) {
    && i < |s.irps| && i < |u.irps|
    && (|| (u.queue == s.queue && u.irps[i].link.Linked? == s.irps[i].link.Linked?)
        || (u.queue == s.queue + [i] && !s.irps[i].link.Linked? && u.irps[i].link.Linked?)
        || (u.queue == Without(s.queue, i) && !u.irps[i].link.Linked?))
  }

  lemma BeginEffect(s: State, step: Step, i: nat)
    requires Touches(s, step, i) && !step.Advance?
    ensures QueueEffect(s, Next(s, step), i)
  {
    hide Without;
    if step.BeginDequeue? { HeadWithout(s.queue); }
  }

  lemma AdvanceEffect(s: State, step: Step, i: nat)
    requires Touches(s, step, i) && step.Advance? && (InHand(s.threads[step.t], i) ==> s.irps[i].link.Stale?)
    ensures QueueEffect(s, Next(s, step), i)
  {
    hide Without;
  }

  lemma StepQueued(s: State, step: Step, i: nat)
    requires Touches(s, step, i) && Queued(s) && Pending(s, i) && Local(s, Next(s, step), step.t, i)
    ensures Queued(Next(s, step))
  {
    hide Queued, Local, Pending, Next;
    StaleInHand(s, step.t, i);
    if step.Advance? { AdvanceEffect(s, step, i); } else { BeginEffect(s, step, i); }
    QueuedIf(s, Next(s, step), step.t, i);
  }

  lemma HeadWithout(q: seq<nat>)
    requires q != []
    ensures Without(q, q[0]) == q[1..]
  {
  }

  lemma StaleInHand(s: State, t: nat, i: nat)
    requires t < |s.threads| && i < |s.irps| && Pending(s, i)
    ensures InHand(s.threads[t], i) ==> s.irps[i].link.Stale?
  {
    hide CancellerWaits, SomeoneHas;
  }

  lemma HonestIf(s: State, u: State, t: nat, i: nat)
    requires Local(s, u, t, i) && Honest(s) && Asked(u.irps, u.threads[t])
    requires s.irps[i].cancel ==> u.irps[i].cancel
    requires Cancelled in u.irps[i].completions ==> u.irps[i].cancel
    ensures Honest(u)
  {
    forall v | 0 <= v < |u.threads| ensures Asked(u.irps, u.threads[v]) {
      if v != t { assert Asked(s.irps, s.threads[v]); }
    }
  }

  lemma StepHonest(s: State, step: Step, i: nat)
    requires InRange(s) && Honest(s) && Enabled(s, step) && Local(s, Next(s, step), step.t, i)
    ensures Honest(Next(s, step))
  {
    hide Honest, Local;
    LocalAt(s, Next(s, step), step.t, i);
    HonestAt(s, step.t, i);
    HonestIf(s, Next(s, step), step.t, i);
  }

  lemma HonestAt(s: State, t: nat, i: nat)
    requires Honest(s) && t < |s.threads| && i < |s.irps|
    ensures Asked(s.irps, s.threads[t])
    ensures Cancelled in s.irps[i].completions ==> s.irps[i].cancel
  {
  }

  lemma LocalAt(s: State, u: State, t: nat, i: nat)
    requires Local(s, u, t, i)
    ensures t < |s.threads| == |u.threads| && i < |s.irps| == |u.irps| && Concerns(s.threads[t], i)
    ensures Concerns(u.threads[t], i)
  {
  }

  /** A charge that names no thread but t. */
  predicate Mine(c: Charge, t: nat) {
    (c.Setting? ==> c.thread == t) && (c.Finisher? ==> c.who == t)
  }

  lemma ChargedIf(s: State, u: State, t: nat, i: nat)
    requires Local(s, u, t, i) && Charged(s, i)
    requires var r, r' := s.irps[i], u.irps[i];
             && (r'.charge == r.charge || (Mine(r.charge, t) && Mine(r'.charge, t)))
             && (r'.routine <==> r'.charge.Routine?)
             && (r'.completions == [] <==> !r'.charge.Done?) && |r'.completions| <= 1
             && (u.threads[t] == QueueSet(i) <==> r'.charge == Setting(t))
             && (Finishes(u.threads[t], i) <==> r'.charge == Finisher(t))
    ensures Charged(u, i)
  {
  }

  lemma ChargedAt(s: State, t: nat, i: nat)
    requires i < |s.irps| && Charged(s, i) && t < |s.threads|
    ensures s.threads[t] == QueueSet(i) <==> s.irps[i].charge == Setting(t)
    ensures Finishes(s.threads[t], i) <==> s.irps[i].charge == Finisher(t)
    ensures s.irps[i].routine <==> s.irps[i].charge.Routine?
    ensures (s.irps[i].completions == [] <==> !s.irps[i].charge.Done?) && |s.irps[i].completions| <= 1
  {
  }

  ghost predicate Touches(s: State, step: Step, i: nat) {
    && Enabled(s, step) && i < |s.irps|
    && (step.BeginQueue? || step.BeginCancel? ==> i == step.i)
    && (step.BeginDequeue? ==> s.queue[0] == i)
    && (step.Advance? ==> i == s.threads[step.t].irp)
  }

  lemma StepCharged(s: State, step: Step, i: nat)
    requires Touches(s, step, i) && Charged(s, i) && Local(s, Next(s, step), step.t, i)
    ensures Charged(Next(s, step), i)
  {
    hide Charged, Local, Without;
    ChargedAt(s, step.t, i);
    LocalAt(s, Next(s, step), step.t, i);
    ChargedIf(s, Next(s, step), step.t, i);
  }

  /** Inside a critical section the thread is the only one with an IRP in hand. */
  lemma AloneInside(s: State, t: nat, i: nat)
    requires Locked(s) && t < |s.threads| && (Holds(s.threads[t]) || s.lock.Free?)
    ensures SomeoneHas(s, i) <==> InHand(s.threads[t], i)
  {
  }

  lemma HandAfter(s: State, u: State, t: nat, i: nat)
    requires Local(s, u, t, i)
    ensures InHand(u.threads[t], i) ==> SomeoneHas(u, i)
    ensures !InHand(s.threads[t], i) ==> (SomeoneHas(u, i) <==> SomeoneHas(s, i) || InHand(u.threads[t], i))
    ensures InHand(s.threads[t], i) && Locked(s) ==> (SomeoneHas(u, i) <==> InHand(u.threads[t], i))
  {
    if v :| 0 <= v < |s.threads| && InHand(s.threads[v], i) && v != t { assert InHand(u.threads[v], i); }
    if v :| 0 <= v < |u.threads| && InHand(u.threads[v], i) && v != t { assert InHand(s.threads[v], i); }
  }

  lemma WaitAfter(s: State, u: State, t: nat, i: nat)
    requires Local(s, u, t, i) && Charged(s, i)
    ensures u.irps[i].charge == s.irps[i].charge && !Finishes(s.threads[t], i) ==>
            (CancellerWaits(u, i) <==> CancellerWaits(s, i))
    ensures u.irps[i].charge == Finisher(t) ==>
            (CancellerWaits(u, i) <==> u.threads[t] == CancelLock(i) || u.threads[t] == CancelRemove(i))
  {
  }

  lemma PendingBegin(s: State, step: Step, i: nat)
    requires !step.Advance? && Touches(s, step, i) && Local(s, Next(s, step), step.t, i)
    requires Locked(s) && Charged(s, i) && Pending(s, i) && (step.BeginDequeue? ==> s.irps[i].link.Linked?)
    ensures Pending(Next(s, step), i)
  {
    var u, t := Next(s, step), step.t;
    HandAfter(s, u, t, i);
    WaitAfter(s, u, t, i);
    if !step.BeginCancel? { AloneInside(s, t, i); }
  }

  lemma PendingQueue(s: State, t: nat, i: nat)
    requires Touches(s, Advance(t), i) && Local(s, Next(s, Advance(t)), t, i)
    requires s.threads[t].QueueSet? || s.threads[t].QueueTest? || s.threads[t].QueueTake? || s.threads[t].QueueInsert?
    requires Locked(s) && Charged(s, i) && Pending(s, i)
    ensures Pending(Next(s, Advance(t)), i)
  {
    var u := Next(s, Advance(t));
    HandAfter(s, u, t, i);
    WaitAfter(s, u, t, i);
    AloneInside(s, t, i);
  }

  lemma PendingDequeue(s: State, t: nat, i: nat)
    requires Touches(s, Advance(t), i) && Local(s, Next(s, Advance(t)), t, i)
    requires s.threads[t].DequeueTake? || s.threads[t].DequeueInit?
    requires Locked(s) && Charged(s, i) && Pending(s, i)
    ensures Pending(Next(s, Advance(t)), i)
  {
    var u := Next(s, Advance(t));
    HandAfter(s, u, t, i);
    WaitAfter(s, u, t, i);
    AloneInside(s, t, i);
  }

  lemma PendingCancel(s: State, t: nat, i: nat)
    requires Touches(s, Advance(t), i) && Local(s, Next(s, Advance(t)), t, i)
    requires s.threads[t].CancelTake? || s.threads[t].CancelLock? || s.threads[t].CancelRemove?
             || s.threads[t].Completing?
    requires Locked(s) && Charged(s, i) && Pending(s, i)
    ensures Pending(Next(s, Advance(t)), i)
    ensures s.threads[t].CancelRemove? ==> !s.irps[i].link.Stale?
  {
    hide Without;
    var u := Next(s, Advance(t));
    HandAfter(s, u, t, i);
    WaitAfter(s, u, t, i);
    ChargedAt(s, t, i);
    if s.threads[t].CancelRemove? { AloneInside(s, t, i); }
  }

  lemma StepPending(s: State, step: Step, i: nat)
    requires Inv(s) && Touches(s, step, i) && Local(s, Next(s, step), step.t, i)
    ensures Pending(Next(s, step), i)
    ensures !Next(s, step).corrupt
  {
    hide Local, Locked, Charged, Pending, Honest, Without;
    assert Charged(s, i) && Pending(s, i);
    LocalAt(s, Next(s, step), step.t, i);
    match step
    case BeginQueue(_, _) => PendingBegin(s, step, i);
    case BeginDequeue(_) => assert s.queue[0] in s.queue; PendingBegin(s, step, i);
    case BeginCancel(_, _) => PendingBegin(s, step, i);
    case Advance(t) =>
      var p := s.threads[t];
      if p.QueueSet? || p.QueueTest? || p.QueueTake? || p.QueueInsert? { PendingQueue(s, t, i); }
      else if p.DequeueTake? || p.DequeueInit? { PendingDequeue(s, t, i); }
      else { PendingCancel(s, t, i); }
  }

  lemma QueuedNoDup(s: State)
    requires Queued(s)
    ensures NoDup(s.queue)
  {
  }

  /** Every step of every interleaving keeps the invariant. */
  lemma StepKeepsInv(s: State, step: Step)
    requires Inv(s) && Enabled(s, step)
    ensures InRange(s) && Inv(Next(s, step))
  {
    hide Local, Locked, Charged, Pending, Honest, Queued, Next, Touches;
    var i := StepLocal(s, step);
    var u := Next(s, step);
    StepLocked(s, step, i);
    assert NoDup(s.queue) by { QueuedNoDup(s); }
    assert Charged(s, i) && Pending(s, i) by { LocalAt(s, u, step.t, i); }
    StepInRange(s, step, i);
    StepQueued(s, step, i);
    StepHonest(s, step, i);
    StepPending(s, step, i);
    assert |u.irps| == |s.irps| by { LocalAt(s, u, step.t, i); }
    forall j | 0 <= j < |u.irps| ensures Charged(u, j) && Pending(u, j) {
      if j == i { StepCharged(s, step, i); } else { OthersKept(s, u, step.t, i, j); }
    }
  }

  /** InRange only makes the steps meaningful: StepKeepsInv shows that it is never lost. */
  ghost predicate IsRun(states: seq<State>, steps: seq<Step>) {
    && |states| == |steps| + 1 && InRange(states[0])
    && forall k :: 0 <= k < |steps| ==>
       InRange(states[k]) && Enabled(states[k], steps[k]) && states[k + 1] == Next(states[k], steps[k])
  }

  lemma InitInv(irps: nat, threads: nat)
    ensures Inv(Init(irps, threads))
  {
    var s := Init(irps, threads);
    forall i | 0 <= i < |s.irps| ensures Charged(s, i) && Pending(s, i) {}
  }

  lemma {:induction false} RunKeepsInv(states: seq<State>, steps: seq<Step>, k: nat)
    requires IsRun(states, steps) && Inv(states[0]) && k < |states|
    ensures Inv(states[k])
  {
    hide Inv, Next, Enabled, InRange;
    if k > 0 {
      RunKeepsInv(states, steps, k - 1);
      StepKeepsInv(states[k - 1], steps[k - 1]);
    }
  }

  // ---------------------------------------------------------- the main results

  /** Nobody is working on IRP i any more: it is not queued, its cancel routine is gone and no
      thread that could touch its completion has it. */
  ghost predicate AtRest(s: State, i: nat) {
    && i < |s.irps| && !s.irps[i].charge.Fresh? && i !in s.queue
    && forall t :: 0 <= t < |s.threads| ==> s.threads[t].Idle? || s.threads[t].CancelTake? || s.threads[t].irp != i
  }

  /** In every run an IRP is completed at most once, exactly once when it is at rest, never while
      on the queue, and as cancelled only if someone cancelled it. */
  lemma CompletedOnce(states: seq<State>, steps: seq<Step>, irps: nat, threads: nat, k: nat, i: nat)
    requires IsRun(states, steps) && states[0] == Init(irps, threads) && k < |states| && i < |states[k].irps|
    ensures var s := states[k];
            && |s.irps[i].completions| <= 1
            && (AtRest(s, i) ==> |s.irps[i].completions| == 1)
            && (i in s.queue ==> s.irps[i].completions == [])
            && (s.irps[i].completions == [Cancelled] ==> s.irps[i].cancel)
            && !s.corrupt
  {
    InitInv(irps, threads);
    RunKeepsInv(states, steps, k);
    var s := states[k];
    assert Charged(s, i) && Pending(s, i);
    if AtRest(s, i) {
      assert !SomeoneHas(s, i);
      var c := s.irps[i].charge;
      assert !c.Setting? && !c.Finisher?;
    }
  }

  /** The removal by a cancel routine that comes late, after a dequeue, never changes the queue;
      a timely one takes out exactly its own IRP. */
  lemma LateRemovalHarmless(states: seq<State>, steps: seq<Step>, irps: nat, threads: nat, k: nat, t: nat)
    requires IsRun(states, steps) && states[0] == Init(irps, threads) && k < |steps|
    requires steps[k] == Advance(t) && t < |states[k].threads| && states[k].threads[t].CancelRemove?
    ensures var s, u, i := states[k], states[k + 1], states[k].threads[t].irp;
            && i < |s.irps| && !s.irps[i].link.Stale?
            && (i !in s.queue ==> u.queue == s.queue)
            && (forall j: nat :: j in u.queue <==> j in s.queue && j != i)
  {
    InitInv(irps, threads);
    RunKeepsInv(states, steps, k);
    var s, i := states[k], states[k].threads[t].irp;
    assert Charged(s, i) && Pending(s, i);
    AloneInside(s, t, i);
    ChargedAt(s, t, i);
    forall j: nat ensures j in Without(s.queue, i) <==> j in s.queue && j != i { WithoutMembers(s.queue, i, j); }
  }
}
