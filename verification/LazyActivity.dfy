/**
 The lazy writer as a whole: the scans of LazyScan run beside the workers of LazyWriter and post
 their work to them. A scan that the timer started is the item of a worker, which is done with it
 when the scan is over. Between its collection and its waiters a scan posts a write-behind if there
 are enough dirty pages. A waiter's event is set by a worker that handles its item.
 */
module LazyActivity {
  import opened Sequences
  import W = LazyWriter
  import L = LazyScan

  /** Whether a scan is past the test of the dirty pages, and the write-behind it posted there. */
  datatype Progress = Progress(decided: bool, behind: Option<nat>)

  /** The item that sets the event of a waiter, and the scan that posted it. */
  datatype Signal = Signal(ticket: nat, waiter: nat, scan: nat)

  /** `pending` are the scan items nobody has begun, `begun` the scans begun, by item. `progress`,
      `signals`, `pending` and `begun` tie the two halves together. */
  datatype State = State(
    scan: L.State,
    pool: W.Pool,
    progress: seq<Progress>,
    signals: seq<Signal>,
    begun: map<nat, nat>,
    pending: set<nat>)

  /** Ask is a call that waits for or schedules a scan, Behind the test of the dirty pages,
      Tell the post of a waiter's item, End the end of a scan. */
  datatype Step =
    | Ask(ask: L.Step)
    | Fire
    | Start(w: nat)
    | RunOwn
    | Collect(i: nat)
    | Behind(i: nat, dirty: bool)
    | Tell(i: nat)
    | End(i: nat, deferred: bool)
    | ReadAhead
    | Pass(w: nat)
    | Finish(w: nat)

  function Init(threads: nat): State
    requires threads >= 1
  {
    State(L.INIT, W.Init(threads), [], [], map[], {})
  }

  /** What a step is to the scans, and to the workers. */
  function ScanPart(step: Step): Option<L.Step> {
    match step
    case Ask(ask) => Some(ask)
    case Fire => Some(L.Fire)
    case Start(_) => Some(L.Start)
    case RunOwn => Some(L.RunOwn)
    case Collect(i) => Some(L.Collect(i))
    case Tell(i) => Some(L.Post(i))
    case End(i, deferred) => Some(L.Finish(i, deferred))
    case _ => None
  }

  function PoolPart(step: Step): Option<W.Step> {
    match step
    case Fire => Some(W.Post(W.LazyScan, false))
    case Behind(_, dirty) => if dirty then Some(W.Post(W.WriteBehind, false)) else None
    case Tell(_) => Some(W.Post(W.SetDone, false))
    case ReadAhead => Some(W.Post(W.ReadAhead, true))
    case Pass(w) => Some(W.Pass(w))
    case Finish(w) => Some(W.Finish(w))
    case _ => None
  }

  predicate Handles(p: W.Pool, w: nat) { w < |p.workers| && p.workers[w].Busy? }

  /** A worker starts the scan of its item, and is done with it when the scan is over. */
  predicate Guard(s: State, step: Step) {
    match step
    case Ask(ask) => ask.Wait? || ask.Schedule? || ask.Force?
    case Start(w) => Handles(s.pool, w) && s.pool.workers[w].item.ticket in s.pending
    case Behind(i, _) => i < |s.progress| && i < |s.scan.scans| && s.scan.scans[i].After? && !s.progress[i].decided
    case Tell(i) => i < |s.progress| && s.progress[i].decided
    case End(i, _) => i < |s.progress| && s.progress[i].decided
    case Finish(w) =>
      Handles(s.pool, w) &&
      var u := s.pool.workers[w].item.ticket;
      u !in s.pending && (u in s.begun ==> s.begun[u] < |s.scan.scans| && s.scan.scans[s.begun[u]].Over?)
    case _ => true
  }

  ghost predicate Enabled(s: State, step: Step) {
    && Guard(s, step)
    && (ScanPart(step).Some? ==> L.Enabled(s.scan, ScanPart(step).value))
    && (PoolPart(step).Some? ==> W.Enabled(s.pool, PoolPart(step).value))
  }

  function Moved(p: W.Pool, step: W.Step): W.Pool {
    match step
    case Post(work, toExpress) => if W.IdleInRange(p) then W.AfterPost(p, work, toExpress) else p
    case Pass(w) => if w < |p.workers| && p.workers[w].Ready? && p.active >= 1 then W.AfterPass(p, w) else p
    case Finish(w) => if Handles(p, w) then W.AfterFinish(p, w) else p
  }

  ghost function NextScan(s: State, step: Step): L.State
    requires Enabled(s, step)
  {
    match ScanPart(step) case None => s.scan case Some(part) => L.Next(s.scan, part)
  }

  function NextPool(s: State, step: Step): W.Pool {
    match PoolPart(step) case None => s.pool case Some(part) => Moved(s.pool, part)
  }

  function NextProgress(s: State, step: Step): seq<Progress>
    requires Guard(s, step)
  {
    match step
    case Start(_) => s.progress + [Progress(false, None)]
    case RunOwn => s.progress + [Progress(false, None)]
    case Behind(i, dirty) => s.progress[i := Progress(true, if dirty then Some(s.pool.posted) else None)]
    case _ => s.progress
  }

  ghost function NextSignals(s: State, step: Step): seq<Signal>
    requires Enabled(s, step)
  {
    if step.Tell? then s.signals + [Signal(s.pool.posted, s.scan.scans[step.i].toPost[0], step.i)] else s.signals
  }

  ghost function Next(s: State, step: Step): State
    requires Enabled(s, step)
  {
    var u := if step.Start? then s.pool.workers[step.w].item.ticket else 0;
    State(NextScan(s, step), NextPool(s, step), NextProgress(s, step), NextSignals(s, step),
          if step.Start? then s.begun[u := |s.scan.scans|] else s.begun,
          if step.Start? then s.pending - {u} else if step.Fire? then s.pending + {s.pool.posted} else s.pending)
  }

  // ------------------------------------------------------------ the invariant

  ghost predicate InPool(p: W.Pool, item: W.WorkItem) {
    item in p.express || item in p.regular || exists w :: 0 <= w < |p.workers| && p.workers[w] == W.Busy(item)
  }

  ghost predicate Decided(s: State) {
    && |s.progress| == |s.scan.scans|
    && forall i :: 0 <= i < |s.progress| ==>
         && (s.progress[i].decided ==> !s.scan.scans[i].Before?)
         && (s.progress[i].behind.Some? ==> s.progress[i].decided && s.progress[i].behind.value < s.pool.posted)
  }

  /** Signal n comes behind the write-behind of its scan, and behind the item of its scan if any. */
  ghost predicate Ordered(s: State, n: nat)
    requires n < |s.signals|
  {
    var x := s.signals[n];
    && x.ticket < s.pool.posted && x.scan < |s.progress| && s.progress[x.scan].decided
    && (s.progress[x.scan].behind.Some? ==> s.progress[x.scan].behind.value < x.ticket)
    && forall u :: u in s.begun && s.begun[u] == x.scan ==> u < x.ticket
  }

  /** Every waiter posted has an item of its own. */
  ghost predicate Signalled(s: State) {
    && |s.signals| == |s.scan.posted|
    && (forall n :: 0 <= n < |s.signals| ==> Ordered(s, n) && s.signals[n].waiter == s.scan.posted[n])
    && (forall m, n :: 0 <= m < n < |s.signals| ==> s.signals[m].ticket < s.signals[n].ticket)
  }

  ghost predicate BegunAt(s: State, u: nat) {
    && u in s.begun && u < s.pool.posted && s.begun[u] < |s.scan.scans| && u !in s.pending
    && (u in s.pool.done ==> s.scan.scans[s.begun[u]].Over?)
  }

  ghost predicate Begun(s: State) {
    && (forall u :: u in s.begun ==> BegunAt(s, u))
    && |s.pending| == s.scan.queued && forall u :: u in s.pending ==> u < s.pool.posted && u !in s.pool.done
  }

  ghost predicate Has(s: State, ticket: nat) {
    exists n :: 0 <= n < |s.signals| && s.signals[n].ticket == ticket
  }

  ghost predicate Items(s: State) {
    forall item :: InPool(s.pool, item) ==>
      (item.work.SetDone? ==> Has(s, item.ticket)) && (item.ticket in s.pending ==> item.work.LazyScan?)
  }

  ghost predicate Linked(s: State) {
    Decided(s) && Signalled(s) && Begun(s) && Items(s)
  }

  ghost predicate Inv(s: State) {
    L.Inv(s.scan) && W.Inv(s.pool) && Linked(s)
  }

  // ------------------------------------------------------------- preservation

  lemma PostedItems(p: W.Pool, work: W.WorkFunction, toExpress: bool, item: W.WorkItem)
    requires W.IdleInRange(p) && InPool(W.AfterPost(p, work, toExpress), item)
    ensures InPool(p, item) || item == W.WorkItem(p.posted, work)
  {
    var q := W.AfterPost(p, work, toExpress);
    if w :| 0 <= w < |q.workers| && q.workers[w] == W.Busy(item) { assert p.workers[w] == W.Busy(item); }
  }

  lemma WorkedItems(p: W.Pool, step: W.Step, item: W.WorkItem)
    requires !step.Post? && InPool(Moved(p, step), item)
    ensures InPool(p, item)
  {
    var q := Moved(p, step);
    if w :| 0 <= w < |q.workers| && q.workers[w] == W.Busy(item) {
      if p.workers[w] == W.Busy(item) {} else { assert item in p.express || item in p.regular; }
    }
  }

  lemma ItemPosted(p: W.Pool, item: W.WorkItem)
    requires W.Inv(p) && InPool(p, item)
    ensures item.ticket < p.posted
  {
    hide W.Counted, W.Attended;
    if item in p.express { assert item.ticket in W.Tickets(p.express); }
    if item in p.regular { assert item.ticket in W.Tickets(p.regular); }
    if w :| 0 <= w < |p.workers| && p.workers[w] == W.Busy(item) { assert item.ticket in W.BusyTickets(p); }
    assert item.ticket in W.Everywhere(p);
  }

  lemma DonePosted(p: W.Pool, u: nat)
    requires W.Inv(p) && u in p.done
    ensures u < p.posted
  {
    assert u in W.Everywhere(p);
  }

  /** The workers move as they do by themselves. */
  lemma PoolMoves(p: W.Pool, step: W.Step)
    requires W.Inv(p) && W.Enabled(p, step)
    ensures W.Next(p, step, Moved(p, step)) && W.Inv(Moved(p, step))
    ensures Moved(p, step).posted == p.posted + One(step.Post?)
    ensures Moved(p, step).done == if step.Finish? then p.done + {p.workers[step.worker].item.ticket} else p.done
  {
    hide W.Attended, W.Conserved;
    W.IdleFits(p);
    if step.Pass? { W.ActiveAtLeast(p, step.worker); }
    W.StepKeepsInv(p, step, Moved(p, step));
  }

  /** What a step does to the tickets. */
  lemma PoolEffect(s: State, step: Step)
    requires W.Inv(s.pool) && Enabled(s, step)
    ensures var q := NextPool(s, step);
            && W.Inv(q) && q.posted == s.pool.posted + One(PoolPart(step).Some? && PoolPart(step).value.Post?)
            && q.done == if step.Finish? then s.pool.done + {s.pool.workers[step.w].item.ticket} else s.pool.done
  {
    hide W.Inv, Moved;
    if PoolPart(step).Some? { PoolMoves(s.pool, PoolPart(step).value); }
  }

  /** What a step does to the scans. */
  lemma ScanEffect(s: State, step: Step)
    requires L.Inv(s.scan) && Enabled(s, step)
    ensures var t := NextScan(s, step);
            && L.Inv(t) && |t.scans| == |s.scan.scans| + One(step.Start? || step.RunOwn?)
            && (forall j :: 0 <= j < |s.scan.scans| ==>
                  && (s.scan.scans[j].Over? ==> t.scans[j].Over?)
                  && (!s.scan.scans[j].Before? ==> !t.scans[j].Before?))
            && t.queued + One(step.Start?) == s.scan.queued + One(step.Fire?)
            && t.posted == if step.Tell? then s.scan.posted + [s.scan.scans[step.i].toPost[0]] else s.scan.posted
    ensures step.Collect? ==> s.scan.scans[step.i].Before?
  {
    if ScanPart(step).Some? { L.StepKeepsInv(s.scan, ScanPart(step).value); }
  }

  lemma StepDecided(s: State, step: Step)
    requires L.Inv(s.scan) && W.Inv(s.pool) && Decided(s) && Enabled(s, step)
    ensures Decided(Next(s, step))
  {
    PoolEffect(s, step);
    ScanEffect(s, step);
    hide L.Inv, W.Inv, NextScan, NextPool, Enabled;
  }

  lemma OrderedStays(s: State, step: Step, n: nat)
    requires W.Inv(s.pool) && |s.progress| == |s.scan.scans| && n < |s.signals| && Ordered(s, n) && Enabled(s, step)
    ensures n < |Next(s, step).signals| && Ordered(Next(s, step), n)
  {
    PoolEffect(s, step);
    hide W.Inv, NextScan, NextPool;
  }

  lemma OrderedNew(s: State, step: Step)
    requires W.Inv(s.pool) && Decided(s) && Begun(s) && Enabled(s, step) && step.Tell?
    ensures |s.signals| < |Next(s, step).signals| && Ordered(Next(s, step), |s.signals|)
  {
    PoolEffect(s, step);
    hide W.Inv, NextScan, NextPool;
  }

  lemma StepSignalled(s: State, step: Step)
    requires L.Inv(s.scan) && W.Inv(s.pool) && Decided(s) && Signalled(s) && Begun(s) && Enabled(s, step)
    ensures Signalled(Next(s, step))
  {
    ScanEffect(s, step);
    forall n | 0 <= n < |s.signals| ensures Ordered(Next(s, step), n) { OrderedStays(s, step, n); }
    if step.Tell? { OrderedNew(s, step); }
    assert forall n :: 0 <= n < |s.signals| ==> s.signals[n].ticket < s.pool.posted by {
      assert forall n :: 0 <= n < |s.signals| ==> Ordered(s, n);
    }
    hide L.Inv, W.Inv, NextScan, NextPool, Ordered, Decided, Begun;
  }

  lemma StepBegun(s: State, step: Step)
    requires L.Inv(s.scan) && W.Inv(s.pool) && Begun(s) && Enabled(s, step)
    ensures Begun(Next(s, step))
  {
    hide L.Inv, W.Inv, NextScan, NextPool;
    forall u | u in Next(s, step).begun ensures BegunAt(Next(s, step), u) { StepBegunAt(s, step, u); }
    StepPending(s, step);
  }

  lemma StepBegunAt(s: State, step: Step, u: nat)
    requires L.Inv(s.scan) && W.Inv(s.pool) && Begun(s) && Enabled(s, step) && u in Next(s, step).begun
    ensures BegunAt(Next(s, step), u)
  {
    PoolEffect(s, step);
    ScanEffect(s, step);
    assert u in s.begun ==> BegunAt(s, u);
    hide L.Inv, W.Inv, NextScan, NextPool, BegunAt;
  }

  lemma StepPending(s: State, step: Step)
    requires L.Inv(s.scan) && W.Inv(s.pool) && Begun(s) && Enabled(s, step)
    ensures |Next(s, step).pending| == Next(s, step).scan.queued
    ensures forall u :: u in Next(s, step).pending ==> u < Next(s, step).pool.posted && u !in Next(s, step).pool.done
  {
    PoolEffect(s, step);
    ScanEffect(s, step);
    if step.Fire? && s.pool.posted in s.pool.done { DonePosted(s.pool, s.pool.posted); }
    hide L.Inv, W.Inv, NextScan, NextPool, BegunAt;
  }

  lemma ItemsMove(s: State, step: Step, item: W.WorkItem)
    requires W.Inv(s.pool) && Enabled(s, step) && InPool(NextPool(s, step), item)
    ensures InPool(s.pool, item) || (PoolPart(step).Some? && PoolPart(step).value.Post?
                                     && item == W.WorkItem(s.pool.posted, PoolPart(step).value.work))
  {
    hide InPool;
    W.IdleFits(s.pool);
    if PoolPart(step).Some? {
      var part := PoolPart(step).value;
      if part.Post? { PostedItems(s.pool, part.work, part.toExpress, item); } else { WorkedItems(s.pool, part, item); }
    }
  }

  lemma StepItems(s: State, step: Step)
    requires L.Inv(s.scan) && W.Inv(s.pool) && Begun(s) && Items(s) && Enabled(s, step)
    ensures Items(Next(s, step))
  {
    var t := Next(s, step);
    forall item | InPool(t.pool, item)
      ensures (item.work.SetDone? ==> Has(t, item.ticket)) && (item.ticket in t.pending ==> item.work.LazyScan?)
    {
      ItemsMove(s, step, item);
      ItemKnown(s, step, item);
    }
  }

  lemma ItemKnown(s: State, step: Step, item: W.WorkItem)
    requires W.Inv(s.pool) && Begun(s) && Items(s) && Enabled(s, step)
    requires InPool(s.pool, item) || (PoolPart(step).Some? && PoolPart(step).value.Post?
                                      && item == W.WorkItem(s.pool.posted, PoolPart(step).value.work))
    ensures item.work.SetDone? ==> Has(Next(s, step), item.ticket)
    ensures item.ticket in Next(s, step).pending ==> item.work.LazyScan?
  {
    if InPool(s.pool, item) { ItemPosted(s.pool, item); }
    hide W.Inv, InPool, NextScan, NextPool;
    var t := Next(s, step);
    if InPool(s.pool, item) && item.work.SetDone? {
      var n :| 0 <= n < |s.signals| && s.signals[n].ticket == item.ticket;
      assert t.signals[n].ticket == item.ticket;
    } else if item.work.SetDone? {
      assert t.signals[|s.signals|].ticket == item.ticket;
    }
  }

  /** Every step of the whole keeps the invariant. */
  lemma StepKeepsInv(s: State, step: Step)
    requires Inv(s) && Enabled(s, step)
    ensures Inv(Next(s, step))
  {
    hide L.Inv, W.Inv, Decided, Signalled, Begun, Items, Enabled;
    PoolEffect(s, step);
    ScanEffect(s, step);
    StepDecided(s, step);
    StepSignalled(s, step);
    StepBegun(s, step);
    StepItems(s, step);
  }

  // ------------------------------------------------------ runs and main results

  ghost predicate Run(s: State, steps: seq<Step>, t: State)
    decreases |steps|
  {
    if steps == [] then s == t else Enabled(s, steps[0]) && Run(Next(s, steps[0]), steps[1..], t)
  }

  lemma InitInv(threads: nat)
    requires threads >= 1
    ensures Inv(Init(threads))
  {
    L.InitInv();
    W.InitEstablishesInv(threads);
  }

  lemma {:induction false} RunKeepsInv(s: State, steps: seq<Step>, t: State)
    requires Inv(s) && Run(s, steps, t)
    ensures Inv(t)
    decreases |steps|
  {
    hide Inv, Next, Enabled;
    if steps != [] {
      StepKeepsInv(s, steps[0]);
      RunKeepsInv(Next(s, steps[0]), steps[1..], t);
    }
  }

  /** The write-behind that the scan of signal n posted is done, and that scan is over if it was the
      item of a worker. */
  ghost predicate Written(s: State, n: nat) {
    && n < |s.signals| && s.signals[n].scan < |s.progress| && s.signals[n].scan < |s.scan.scans|
    && var i := s.signals[n].scan;
       && (s.progress[i].behind.Some? ==> s.progress[i].behind.value in s.pool.done)
       && ((exists u :: u in s.begun && s.begun[u] == i) ==> s.scan.scans[i].Over?)
  }

  lemma WrittenIf(s: State, n: nat)
    requires Inv(s) && n < |s.signals| && forall u: nat :: u < s.signals[n].ticket ==> u in s.pool.done
    ensures Written(s, n)
  {
    assert Ordered(s, n);
  }

  /** In every run from the start: when a worker comes to set an event, the item is that of a waiter
      whom a scan collected, and the write-behind that scan posted has been done. */
  lemma EventMeansWritten(threads: nat, steps: seq<Step>, s: State, w: nat) returns (n: nat)
    requires threads >= 1 && Run(Init(threads), steps, s) && Enabled(s, Pass(w))
    requires var p := Next(s, Pass(w)).pool; Handles(p, w) && p.workers[w].item.work.SetDone?
    ensures var t := Next(s, Pass(w));
            && n < |t.signals| == |t.scan.posted| && t.signals[n].waiter == t.scan.posted[n]
            && t.signals[n].ticket == t.pool.workers[w].item.ticket && Written(t, n)
  {
    hide Inv, Run, Enabled, Next, W.Quiet, Written;
    InitInv(threads);
    RunKeepsInv(Init(threads), steps, s);
    StepKeepsInv(s, Pass(w));
    TakenWhenQuiet(s, w);
    n := SignalOf(Next(s, Pass(w)), w);
  }

  lemma TakenWhenQuiet(s: State, w: nat)
    requires Inv(s) && Enabled(s, Pass(w))
    requires var p := Next(s, Pass(w)).pool; Handles(p, w) && p.workers[w].item.work.SetDone?
    ensures W.Quiet(Next(s, Pass(w)).pool, w)
  {
    hide L.Inv, Linked, W.Attended, W.Conserved, W.Quiet;
    W.ActiveAtLeast(s.pool, w);
    W.SetDoneTakenWhenQuiet(s.pool, w);
  }

  lemma SignalOf(t: State, w: nat) returns (n: nat)
    requires Inv(t) && W.Quiet(t.pool, w)
    ensures n < |t.signals| == |t.scan.posted| && t.signals[n].waiter == t.scan.posted[n]
    ensures t.signals[n].ticket == t.pool.workers[w].item.ticket && Written(t, n)
  {
    hide L.Inv, W.Inv, Ordered, Written;
    var item := t.pool.workers[w].item;
    assert InPool(t.pool, item);
    assert Has(t, item.ticket);
    n :| 0 <= n < |t.signals| && t.signals[n].ticket == item.ticket;
    WrittenIf(t, n);
  }

  // ------------------------------------------------- waiting ends with the event

  /** The lazy writer goes on by itself. */
  predicate Own(step: Step) {
    !step.Ask? && !step.RunOwn? && !step.ReadAhead? && (step.End? ==> !step.deferred)
  }

  ghost predicate AllOwn(steps: seq<Step>) {
    forall k :: 0 <= k < |steps| ==> Own(steps[k])
  }

  ghost predicate Stopped(s: State) {
    forall step: Step :: Own(step) ==> !Enabled(s, step)
  }

  function Undecided(progress: seq<Progress>): nat {
    if progress == [] then 0
    else Undecided(progress[..|progress| - 1]) + One(!progress[|progress| - 1].decided)
  }

  lemma {:induction false} UndecidedUpdate(progress: seq<Progress>, i: nat, x: Progress)
    requires i < |progress| && !progress[i].decided && x.decided
    ensures Undecided(progress[i := x]) == Undecided(progress) - 1
  {
    var n := |progress| - 1;
    if i == n {
      assert progress[i := x][..n] == progress[..n];
    } else {
      assert progress[i := x][..n] == progress[..n][i := x];
      UndecidedUpdate(progress[..n], i, x);
    }
  }

  lemma UndecidedMore(progress: seq<Progress>, x: Progress)
    ensures Undecided(progress + [x]) == Undecided(progress) + One(!x.decided)
  {
    assert (progress + [x])[..|progress|] == progress;
  }

  /** What is left to do, weighed so that a post costs less than the step that makes it. */
  ghost function Left(s: State): nat {
    8 * L.Left(s.scan) + 4 * Undecided(s.progress) + W.Remaining(s.pool)
  }

  lemma PoolLeft(p: W.Pool, step: W.Step)
    requires W.Inv(p) && W.Enabled(p, step)
    ensures if step.Post? then W.Remaining(Moved(p, step)) <= W.Remaining(p) + 3
            else W.Remaining(Moved(p, step)) == W.Remaining(p) - 1
  {
    PoolMoves(p, step);
    hide W.Load;
    if step.Post? {
      W.IdleFits(p);
      if !p.throttle && p.idle != [] { W.LoadUpdate(p.workers, p.idle[0], W.Ready(false)); }
    } else {
      W.WorkerStepDecreases(p, step, Moved(p, step));
    }
  }

  lemma ScanLeft(s: State, step: Step)
    requires L.Inv(s.scan) && Enabled(s, step) && Own(step)
    ensures L.Left(NextScan(s, step)) == L.Left(s.scan) - One(ScanPart(step).Some?)
  {
    if ScanPart(step).Some? { L.OwnStepShrinks(s.scan, ScanPart(step).value); }
  }

  lemma ProgressLeft(s: State, step: Step)
    requires Guard(s, step) && Own(step)
    ensures Undecided(NextProgress(s, step)) == Undecided(s.progress) + One(step.Start?) - One(step.Behind?)
  {
    hide Undecided;
    match step
    case Start(_) => UndecidedMore(s.progress, Progress(false, None));
    case Behind(i, _) => UndecidedUpdate(s.progress, i, NextProgress(s, step)[i]);
    case _ =>
  }

  lemma OwnStepShrinks(s: State, step: Step)
    requires Inv(s) && Enabled(s, step) && Own(step)
    ensures Left(Next(s, step)) < Left(s)
  {
    ScanLeft(s, step);
    ProgressLeft(s, step);
    if PoolPart(step).Some? { PoolLeft(s.pool, PoolPart(step).value); }
    hide L.Left, Undecided, W.Remaining, Inv, L.Enabled, W.Enabled, L.Next, Moved;
  }

  /** Left to itself the lazy writer comes to rest. */
  lemma {:induction false} ComesToRest(s: State, steps: seq<Step>, t: State)
    requires Inv(s) && Run(s, steps, t) && AllOwn(steps)
    ensures |steps| + Left(t) <= Left(s)
    decreases |steps|
  {
    hide Inv, Enabled, Next, Left;
    if steps != [] {
      assert Own(steps[0]) && AllOwn(steps[1..]);
      StepKeepsInv(s, steps[0]);
      OwnStepShrinks(s, steps[0]);
      ComesToRest(Next(s, steps[0]), steps[1..], t);
    }
  }

  /** A scan that is not over can go on. */
  lemma ScanGoesOn(s: State, i: nat) returns (step: Step)
    requires Decided(s) && i < |s.scan.scans| && !s.scan.scans[i].Over?
    ensures Own(step) && Enabled(s, step)
  {
    if s.scan.scans[i].Before? { step := Collect(i); }
    else if !s.progress[i].decided { step := Behind(i, false); }
    else if s.scan.scans[i].toPost != [] { step := Tell(i); }
    else { step := End(i, false); }
  }

  /** A worker that handles an item can finish it, or start its scan, or its scan can go on. */
  lemma WorkerGoesOn(s: State, w: nat) returns (step: Step)
    requires Inv(s) && Handles(s.pool, w)
    ensures Own(step) && Enabled(s, step)
  {
    hide W.Inv, L.Inv, Signalled, Items;
    var u := s.pool.workers[w].item.ticket;
    if u in s.pending {
      step := Start(w);
    } else if u in s.begun && !s.scan.scans[s.begun[u]].Over? {
      step := ScanGoesOn(s, s.begun[u]);
    } else {
      step := Finish(w);
    }
  }

  /** At rest nothing is under way: everything posted is done and every scan is over. */
  lemma RestIsQuiet(s: State)
    requires Inv(s) && Stopped(s)
    ensures L.Quiet(s.scan) && forall u: nat :: u < s.pool.posted ==> u in s.pool.done
  {
    forall w: nat ensures !W.Enabled(s.pool, W.Pass(w)) && !W.Enabled(s.pool, W.Finish(w)) {
      assert !Enabled(s, Pass(w));
      if Handles(s.pool, w) { var step := WorkerGoesOn(s, w); }
    }
    W.StoppedMeansDone(s.pool);
    assert !Enabled(s, Fire);
    forall i | 0 <= i < |s.scan.scans| ensures s.scan.scans[i].Over? {
      if !s.scan.scans[i].Over? { var step := ScanGoesOn(s, i); }
    }
    assert s.pending == {};
  }

  lemma {:induction false} ScanRun(s: State, steps: seq<Step>, t: State) returns (parts: seq<L.Step>)
    requires Run(s, steps, t) && AllOwn(steps)
    ensures L.Run(s.scan, parts, t.scan) && L.AllOwn(parts)
    decreases |steps|
  {
    if steps == [] {
      parts := [];
    } else {
      assert Own(steps[0]) && AllOwn(steps[1..]);
      parts := ScanRun(Next(s, steps[0]), steps[1..], t);
      var part := ScanPart(steps[0]);
      if part.Some? {
        assert ([part.value] + parts)[1..] == parts;
        parts := [part.value] + parts;
      }
    }
  }

  /** Everybody who came has had its event set, each after the write-behind of its scan. */
  ghost predicate EverybodyTold(s: State) {
    && L.EverybodyPosted(s.scan) && |s.signals| == |s.scan.posted|
    && forall n :: 0 <= n < |s.signals| ==>
         s.signals[n].waiter == s.scan.posted[n] && s.signals[n].ticket in s.pool.done && Written(s, n)
  }

  /** A call of CcWaitForCurrentLazyWriterActivity returns, once the lazy writer has come to rest by
      itself, if and only if a scan was before its collection or ScanActive was clear. */
  lemma WaiterToldIff(s: State, w: nat, steps: seq<Step>, t: State)
    requires Inv(s) && Run(Next(s, Ask(L.Wait(w))), steps, t) && AllOwn(steps) && Stopped(t)
    ensures t.scan.waited == s.scan.waited + [w]
    ensures if L.Coming(s.scan) || !s.scan.scanActive then t.scan.postTick == [] && EverybodyTold(t)
            else t.scan.postTick == s.scan.postTick + [w]
  {
    var n := Next(s, Ask(L.Wait(w)));
    StepKeepsInv(s, Ask(L.Wait(w)));
    RunKeepsInv(n, steps, t);
    RestIsQuiet(t);
    var parts := ScanRun(n, steps, t);
    L.WaiterServedIff(s.scan, w, parts, t.scan);
    AllTold(t);
  }

  lemma AllTold(t: State)
    requires Inv(t) && forall u: nat :: u < t.pool.posted ==> u in t.pool.done
    ensures |t.signals| == |t.scan.posted|
    ensures forall n :: 0 <= n < |t.signals| ==>
              t.signals[n].waiter == t.scan.posted[n] && t.signals[n].ticket in t.pool.done && Written(t, n)
  {
    hide L.Inv, W.Inv;
    forall n | 0 <= n < |t.signals| ensures t.signals[n].ticket in t.pool.done && Written(t, n) {
      assert Ordered(t, n);
      WrittenIf(t, n);
    }
  }

  // ------------------------------------------------------------ the express queue

  ghost predicate OnlyReadAhead(p: W.Pool) {
    forall i :: 0 <= i < |p.express| ==> p.express[i].work.ReadAhead?
  }

  /** In every run nothing but read-ahead is on the express queue. */
  lemma {:induction false} ExpressIsReadAhead(s: State, steps: seq<Step>, t: State)
    requires Inv(s) && OnlyReadAhead(s.pool) && Run(s, steps, t)
    ensures OnlyReadAhead(t.pool)
    decreases |steps|
  {
    if steps != [] {
      StepKeepsInv(s, steps[0]);
      StepReadAhead(s, steps[0]);
      hide Inv, OnlyReadAhead, Enabled, Next;
      ExpressIsReadAhead(Next(s, steps[0]), steps[1..], t);
    }
  }

  lemma StepReadAhead(s: State, step: Step)
    requires Inv(s) && OnlyReadAhead(s.pool) && Enabled(s, step)
    ensures OnlyReadAhead(NextPool(s, step))
  {
    hide L.Inv, Linked, W.Attended, W.Conserved;
    W.IdleFits(s.pool);
  }
}
