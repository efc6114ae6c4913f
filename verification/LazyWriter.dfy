/**
 The lazy-writer worker pool of the cache manager: two work queues, an idle list,
 an active counter and a throttle flag, all changed under one spin lock.

 Every critical section is one atomic step and handling a dequeued item is a separate
 step, so a run is any interleaving of any number of posters and workers. Each posted
 item carries a ticket, the number of items posted before it.
 */
module LazyWriter {
  import S = Sequences

  datatype WorkFunction = ReadAhead | WriteBehind | LazyScan | SetDone

  datatype WorkItem = WorkItem(ticket: nat, work: WorkFunction)

  /** What one worker is doing: on the idle list, about to take the lock
      (perhaps with the throttle still to drop), or handling an item. */
  datatype Phase = Idle | Ready(dropThrottle: bool) | Busy(item: WorkItem)

  /** `posted` and `done` are history: the number of items posted so far, and the
      tickets of those completely handled. */
  datatype Pool = Pool(
    express: seq<WorkItem>,
    regular: seq<WorkItem>,
    throttle: bool,
    active: nat,
    idle: seq<nat>,
    workers: seq<Phase>,
    posted: nat,
    done: set<nat>)

  datatype Step =
    | Post(work: WorkFunction, toExpress: bool)
    | Pass(worker: nat)
    | Finish(worker: nat)

  // ---------------------------------------------------------------- the steps

  function Init(threads: nat): Pool
    requires threads >= 1
  {
    Pool([], [], false, 0, seq(threads, i => i), seq(threads, i => Idle), 0, {})
  }

  function Spawn(s: Pool): Pool
    requires s.idle != [] && s.idle[0] < |s.workers|
  {
    s.(idle := s.idle[1..], active := s.active + 1,
       workers := s.workers[s.idle[0] := Ready(false)])
  }

  predicate IdleInRange(s: Pool) {
    forall i :: 0 <= i < |s.idle| ==> s.idle[i] < |s.workers|
  }

  function Enqueue(s: Pool, work: WorkFunction, toExpress: bool): Pool {
    var item := WorkItem(s.posted, work);
    if toExpress then s.(express := s.express + [item], posted := s.posted + 1)
    else s.(regular := s.regular + [item], posted := s.posted + 1)
  }

  /** CcPostWorkQueue. */
  function AfterPost(s: Pool, work: WorkFunction, toExpress: bool): Pool
    requires IdleInRange(s)
  {
    var q := Enqueue(s, work, toExpress);
    if !q.throttle && q.idle != [] then Spawn(q) else q
  }

  /** The worker leaves its loop: back on the idle list, one active worker fewer. */
  function Retire(s: Pool, w: nat): Pool
    requires w < |s.workers| && s.active >= 1
  {
    s.(idle := s.idle + [w], active := s.active - 1, workers := s.workers[w := Idle])
  }

  /** The worker takes the first express item or, when there is none, the first regular one. */
  function Take(s: Pool, w: nat): Pool
    requires w < |s.workers| && (s.express != [] || s.regular != [])
  {
    if s.express == [] then
      s.(regular := s.regular[1..], workers := s.workers[w := Busy(s.regular[0])])
    else
      s.(express := s.express[1..], workers := s.workers[w := Busy(s.express[0])])
  }

  /** One locked pass of the CcWorkerThread loop. */
  function AfterPass(s: Pool, w: nat): Pool
    requires w < |s.workers| && s.workers[w].Ready? && s.active >= 1
  {
    var t := if s.workers[w].dropThrottle then s.(throttle := false) else s;
    if t.express == [] && t.regular == [] then
      Retire(t, w)
    else
      var item := if t.express == [] then t.regular[0] else t.express[0];
      if item.work == SetDone && t.active > 1 then
        Retire(t.(throttle := true), w)
      else
        Take(t, w)
  }

  /** The worker is done with its item and heads for the lock again. */
  function AfterFinish(s: Pool, w: nat): Pool
    requires w < |s.workers| && s.workers[w].Busy?
  {
    var item := s.workers[w].item;
    s.(workers := s.workers[w := Ready(item.work == SetDone)], done := s.done + {item.ticket})
  }

  // ------------------------------------------------------------ the invariant

  ghost function Active(s: Pool): set<nat> {
    set w | 0 <= w < |s.workers| && !s.workers[w].Idle?
  }

  ghost predicate Increasing(q: seq<WorkItem>) {
    forall i, j :: 0 <= i < j < |q| ==> q[i].ticket < q[j].ticket
  }

  ghost function Tickets(q: seq<WorkItem>): set<nat> {
    set i | 0 <= i < |q| :: q[i].ticket
  }

  ghost function BusyTickets(s: Pool): set<nat> {
    set w | 0 <= w < |s.workers| && s.workers[w].Busy? :: s.workers[w].item.ticket
  }

  ghost function Everywhere(s: Pool): set<nat> {
    s.done + Tickets(s.express) + Tickets(s.regular) + BusyTickets(s)
  }

  /** A worker that has the throttle flag still to drop. */
  predicate WillDrop(p: Phase) {
    match p
    case Idle => false
    case Ready(drop) => drop
    case Busy(item) => item.work == SetDone
  }

  /** Workers are accounted for: idle ones are on the list once, the counter is exact. */
  ghost predicate Counted(s: Pool) {
    && |s.workers| >= 1
    && (forall i :: 0 <= i < |s.idle| ==> s.idle[i] < |s.workers| && s.workers[s.idle[i]].Idle?)
    && (forall i, j :: 0 <= i < j < |s.idle| ==> s.idle[i] != s.idle[j])
    && |Active(s)| == s.active
    && s.active + |s.idle| == |s.workers|
  }

  /** No work can be stranded. */
  ghost predicate Attended(s: Pool) {
    && (s.express != [] || s.regular != [] ==> s.active >= 1)
    && (s.throttle ==>
        || (exists i :: 0 <= i < |s.regular| && s.regular[i].work == SetDone)
        || (exists w :: 0 <= w < |s.workers| && WillDrop(s.workers[w])))
  }

  /** The throttle flag is justified without counting on worker w. */
  ghost predicate Excused(s: Pool, w: nat) {
    s.throttle ==>
      || (exists i :: 0 <= i < |s.regular| && s.regular[i].work == SetDone)
      || (exists v :: 0 <= v < |s.workers| && v != w && WillDrop(s.workers[v]))
  }

  /** Items are in exactly one place and each queue is in posting order. */
  ghost predicate Conserved(s: Pool) {
    && Increasing(s.express) && Increasing(s.regular)
    && (forall i :: 0 <= i < |s.express| ==> s.express[i].work != SetDone)
    && (forall u: nat :: u < s.posted <==> u in Everywhere(s))
    && s.done !! Tickets(s.express) !! Tickets(s.regular) !! BusyTickets(s)
    && (forall v, w :: 0 <= v < w < |s.workers| && s.workers[v].Busy? && s.workers[w].Busy?
                       ==> s.workers[v].item.ticket != s.workers[w].item.ticket)
  }

  ghost predicate Inv(s: Pool) {
    Counted(s) && Attended(s) && Conserved(s)
  }

  // ------------------------------------------------------------------- runs

  /** Only read-ahead items go to the express queue, so never a SetDone. */
  ghost predicate Enabled(s: Pool, step: Step) {
    match step
    case Post(work, toExpress) => toExpress ==> work != SetDone
    case Pass(w) => w < |s.workers| && s.workers[w].Ready?
    case Finish(w) => w < |s.workers| && s.workers[w].Busy?
  }

  ghost predicate Next(s: Pool, step: Step, t: Pool) {
    && Enabled(s, step)
    && match step
       case Post(work, toExpress) => IdleInRange(s) && t == AfterPost(s, work, toExpress)
       case Pass(w) => s.active >= 1 && t == AfterPass(s, w)
       case Finish(w) => t == AfterFinish(s, w)
  }

  /** `states` is a run that takes `steps`. */
  ghost predicate IsRun(states: seq<Pool>, steps: seq<Step>) {
    && |states| == |steps| + 1
    && forall i :: 0 <= i < |steps| ==> Next(states[i], steps[i], states[i + 1])
  }

  // ------------------------------------------------- preservation, step by step

  lemma InitEstablishesInv(threads: nat)
    requires threads >= 1
    ensures Inv(Init(threads))
  {
    assert Active(Init(threads)) == {};
  }

  lemma TicketsAppend(q: seq<WorkItem>, item: WorkItem)
    ensures Tickets(q + [item]) == Tickets(q) + {item.ticket}
  {
    var r := q + [item];
    assert r[|q|] == item;
    forall u | u in Tickets(q) ensures u in Tickets(r) {
      var i :| 0 <= i < |q| && q[i].ticket == u;
      assert r[i].ticket == u;
    }
  }

  lemma TicketsTail(q: seq<WorkItem>)
    requires q != [] && Increasing(q)
    ensures Tickets(q[1..]) == Tickets(q) - {q[0].ticket}
    ensures q[0].ticket in Tickets(q)
    ensures Increasing(q[1..])
  {
    var r := q[1..];
    forall u | u in Tickets(q) - {q[0].ticket} ensures u in Tickets(r) {
      var i :| 0 <= i < |q| && q[i].ticket == u;
      assert r[i - 1].ticket == u;
    }
  }

  /** Changing the phase of one worker changes its own ticket and no other. */
  lemma PhaseChange(s: Pool, w: nat, p: Phase)
    requires w < |s.workers|
    ensures var t := s.(workers := s.workers[w := p]);
            && (s.workers[w].Busy? && !p.Busy?
                && (forall v :: 0 <= v < |s.workers| && v != w && s.workers[v].Busy? ==>
                   s.workers[v].item.ticket != s.workers[w].item.ticket)
                ==> BusyTickets(t) == BusyTickets(s) - {s.workers[w].item.ticket})
            && (!s.workers[w].Busy? && !p.Busy? ==> BusyTickets(t) == BusyTickets(s))
            && (!s.workers[w].Busy? && p.Busy? ==> BusyTickets(t) == BusyTickets(s) + {p.item.ticket})
  {
    var t := s.(workers := s.workers[w := p]);
    assert t.workers[w] == p;
    assert forall v :: 0 <= v < |s.workers| && v != w ==> t.workers[v] == s.workers[v];
    forall u | u in BusyTickets(s)
      ensures u in BusyTickets(t) || (s.workers[w].Busy? && u == s.workers[w].item.ticket)
    {
      var v :| 0 <= v < |s.workers| && s.workers[v].Busy? && s.workers[v].item.ticket == u;
      if v != w { assert t.workers[v].item.ticket == u; }
    }
  }

  lemma ActiveChange(s: Pool, t: Pool, w: nat)
    requires w < |s.workers| == |t.workers| && t.workers == s.workers[w := t.workers[w]]
    ensures Active(t) == if t.workers[w].Idle? then Active(s) - {w}
                         else if s.workers[w].Idle? then Active(s) + {w} else Active(s)
  {
  }

  lemma IdleFits(s: Pool)
    requires Counted(s)
    ensures IdleInRange(s)
  {
  }

  lemma SpawnKeepsInv(s: Pool)
    requires Counted(s) && Conserved(s) && s.idle != [] && !s.throttle
    ensures Inv(Spawn(s))
  {
    hide Conserved;
    ActiveChange(s, Spawn(s), s.idle[0]);
    ConservedAcross(s, Spawn(s));
  }

  lemma ActiveAtLeast(s: Pool, w: nat)
    requires Counted(s) && w < |s.workers| && !s.workers[w].Idle?
    ensures s.active >= 1
  {
    assert w in Active(s);
  }

  lemma ThrottledMeansActive(s: Pool)
    requires Inv(s) && s.throttle
    ensures s.active >= 1
  {
    if w :| 0 <= w < |s.workers| && WillDrop(s.workers[w]) { ActiveAtLeast(s, w); }
  }

  lemma EnqueueConserved(s: Pool, work: WorkFunction, toExpress: bool)
    requires Conserved(s) && (toExpress ==> work != SetDone)
    ensures Conserved(Enqueue(s, work, toExpress))
  {
    var item, q := WorkItem(s.posted, work), Enqueue(s, work, toExpress);
    if toExpress { TicketsAppend(s.express, item); } else { TicketsAppend(s.regular, item); }
    assert BusyTickets(q) == BusyTickets(s);
    assert s.posted !in Everywhere(s);
    assert Everywhere(q) == Everywhere(s) + {s.posted};
    forall i | 0 <= i < |s.express| ensures s.express[i].ticket < s.posted {
      assert s.express[i].ticket in Tickets(s.express);
    }
    forall i | 0 <= i < |s.regular| ensures s.regular[i].ticket < s.posted {
      assert s.regular[i].ticket in Tickets(s.regular);
    }
  }

  lemma PostKeepsInv(s: Pool, work: WorkFunction, toExpress: bool)
    requires Inv(s) && (toExpress ==> work != SetDone)
    ensures Inv(AfterPost(s, work, toExpress))
  {
    hide Conserved;
    var q := Enqueue(s, work, toExpress);
    EnqueueConserved(s, work, toExpress);
    assert Active(q) == Active(s);
    if !q.throttle && q.idle != [] {
      SpawnKeepsInv(q);
    } else if s.throttle {
      ThrottledMeansActive(s);
      if i :| 0 <= i < |s.regular| && s.regular[i].work == SetDone { assert q.regular[i].work == SetDone; }
    }
  }

  lemma RetireCounted(s: Pool, w: nat)
    requires Counted(s) && w < |s.workers| && s.workers[w].Ready? && s.active >= 1
    ensures Counted(Retire(s, w))
  {
    var t := Retire(s, w);
    ActiveChange(s, t, w);
    assert w in Active(s);
    forall i | 0 <= i < |t.idle| ensures t.idle[i] < |t.workers| && t.workers[t.idle[i]].Idle? {
      if i < |s.idle| { assert t.idle[i] == s.idle[i]; }
    }
  }

  /** Steps that move no item keep the item bookkeeping. */
  lemma ConservedAcross(s: Pool, t: Pool)
    requires Conserved(s) && |t.workers| == |s.workers|
    requires t.express == s.express && t.regular == s.regular && t.posted == s.posted && t.done == s.done
    requires forall w :: 0 <= w < |s.workers| ==>
             t.workers[w] == s.workers[w] || (!t.workers[w].Busy? && !s.workers[w].Busy?)
    ensures Conserved(t)
  {
    forall u | u in BusyTickets(s) ensures u in BusyTickets(t) {
      var w :| 0 <= w < |s.workers| && s.workers[w].Busy? && s.workers[w].item.ticket == u;
      assert t.workers[w] == s.workers[w];
    }
    forall u | u in BusyTickets(t) ensures u in BusyTickets(s) {
      var w :| 0 <= w < |t.workers| && t.workers[w].Busy? && t.workers[w].item.ticket == u;
      assert t.workers[w] == s.workers[w];
    }
    assert BusyTickets(t) == BusyTickets(s);
    assert Everywhere(t) == Everywhere(s);
  }

  /** Retiring is safe when nobody needs this worker: some other worker stays active
      whenever there is work or a throttle left. */
  lemma RetireKeepsInv(s: Pool, w: nat)
    requires Counted(s) && Conserved(s) && w < |s.workers| && s.workers[w].Ready?
    requires (s.express == [] && s.regular == []) || s.active > 1
    requires Excused(s, w)
    ensures s.active >= 1 && Inv(Retire(s, w))
  {
    hide Conserved;
    ActiveAtLeast(s, w);
    var t := Retire(s, w);
    RetireCounted(s, w);
    ConservedAcross(s, t);
    if v :| 0 <= v < |s.workers| && v != w && WillDrop(s.workers[v]) {
      assert WillDrop(t.workers[v]);
    }
  }

  lemma TakeConserved(s: Pool, w: nat)
    requires Conserved(s) && w < |s.workers| && s.workers[w].Ready?
    requires s.express != [] || s.regular != []
    ensures Conserved(Take(s, w))
  {
    var item := if s.express == [] then s.regular[0] else s.express[0];
    var t := Take(s, w);
    if s.express == [] { TicketsTail(s.regular); } else { TicketsTail(s.express); }
    PhaseChange(s, w, Busy(item));
    assert BusyTickets(t) == BusyTickets(s.(workers := t.workers));
    assert Everywhere(t) == Everywhere(s);
    forall v | 0 <= v < |s.workers| && s.workers[v].Busy? ensures s.workers[v].item.ticket != item.ticket {
      assert s.workers[v].item.ticket in BusyTickets(s);
    }
  }

  lemma TakeKeepsInv(s: Pool, w: nat)
    requires Counted(s) && Conserved(s) && w < |s.workers| && s.workers[w].Ready?
    requires s.express != [] || s.regular != []
    requires Excused(s, w)
    ensures Inv(Take(s, w))
  {
    hide Conserved;
    var t := Take(s, w);
    ActiveAtLeast(s, w);
    TakeConserved(s, w);
    ActiveChange(s, t, w);
    if v :| 0 <= v < |s.workers| && v != w && WillDrop(s.workers[v]) {
      assert WillDrop(t.workers[v]);
    } else if i :| 0 <= i < |s.regular| && s.regular[i].work == SetDone {
      if s.express != [] { assert t.regular[i].work == SetDone; }
      else if i > 0 { assert t.regular[i - 1].work == SetDone; }
      else { assert WillDrop(t.workers[w]); }
    }
  }

  lemma ThrottleChange(s: Pool, throttle: bool)
    requires Counted(s) && Conserved(s)
    ensures Counted(s.(throttle := throttle)) && Conserved(s.(throttle := throttle))
  {
    var t := s.(throttle := throttle);
    assert Active(t) == Active(s) && BusyTickets(t) == BusyTickets(s) && Everywhere(t) == Everywhere(s);
  }

  lemma PassKeepsInv(s: Pool, w: nat)
    requires Inv(s) && w < |s.workers| && s.workers[w].Ready?
    ensures s.active >= 1 && Inv(AfterPass(s, w))
  {
    ActiveAtLeast(s, w);
    var t := if s.workers[w].dropThrottle then s.(throttle := false) else s;
    ThrottleChange(s, t.throttle);
    assert Excused(t, w);
    if t.express == [] && t.regular == [] {
      RetireKeepsInv(t, w);
    } else {
      var item := if t.express == [] then t.regular[0] else t.express[0];
      if item.work == SetDone && t.active > 1 {
        ThrottleChange(t, true);
        RetireKeepsInv(t.(throttle := true), w);
      } else {
        TakeKeepsInv(t, w);
      }
    }
  }

  lemma FinishConserved(s: Pool, w: nat)
    requires Conserved(s) && w < |s.workers| && s.workers[w].Busy?
    ensures Conserved(AfterFinish(s, w))
  {
    var item, t := s.workers[w].item, AfterFinish(s, w);
    PhaseChange(s, w, Ready(item.work == SetDone));
    assert BusyTickets(t) == BusyTickets(s.(workers := t.workers));
    assert item.ticket in BusyTickets(s);
    assert Everywhere(t) == Everywhere(s);
  }

  lemma FinishKeepsInv(s: Pool, w: nat)
    requires Inv(s) && w < |s.workers| && s.workers[w].Busy?
    ensures Inv(AfterFinish(s, w))
  {
    hide Conserved;
    var t := AfterFinish(s, w);
    FinishConserved(s, w);
    ActiveChange(s, t, w);
    assert w in Active(s);
    if v :| 0 <= v < |s.workers| && WillDrop(s.workers[v]) { assert WillDrop(t.workers[v]); }
  }

  /** Every step of every interleaving keeps the invariant. */
  lemma StepKeepsInv(s: Pool, step: Step, t: Pool)
    requires Inv(s) && Next(s, step, t)
    ensures Inv(t)
  {
    match step
    case Post(work, toExpress) => PostKeepsInv(s, work, toExpress);
    case Pass(w) => PassKeepsInv(s, w);
    case Finish(w) => FinishKeepsInv(s, w);
  }

  /** No enabled step is blocked by the bookkeeping of the model. */
  lemma EnabledStepExists(s: Pool, step: Step)
    requires Inv(s) && Enabled(s, step)
    ensures exists t :: Next(s, step, t)
  {
    match step
    case Post(work, toExpress) => assert Next(s, step, AfterPost(s, work, toExpress));
    case Pass(w) => ActiveAtLeast(s, w); assert Next(s, step, AfterPass(s, w));
    case Finish(w) => assert Next(s, step, AfterFinish(s, w));
  }

  lemma {:induction false} RunKeepsInv(states: seq<Pool>, steps: seq<Step>)
    requires IsRun(states, steps) && Inv(states[0])
    ensures forall i :: 0 <= i < |states| ==> Inv(states[i])
  {
    if steps != [] {
      var n := |steps| - 1;
      assert forall i :: 0 <= i < n ==> Next(states[i], steps[i], states[i + 1]);
      RunKeepsInv(states[..n + 1], steps[..n]);
      assert Inv(states[n]) by { assert states[..n + 1][n] == states[n]; }
      assert Next(states[n], steps[n], states[n + 1]);
      StepKeepsInv(states[n], steps[n], states[n + 1]);
      forall i | 0 <= i < |states| ensures Inv(states[i]) {
        if i <= n { assert states[..n + 1][i] == states[i]; }
      }
    }
  }

  // ---------------------------------------------------------- the main results

  lemma TwoActive(s: Pool, w: nat, v: nat)
    requires Counted(s) && w < |s.workers| && v < |s.workers| && v != w
    requires !s.workers[w].Idle? && !s.workers[v].Idle?
    ensures s.active >= 2
  {
    S.SubsetCardinality({w, v}, Active(s));
  }

  /** Everything but worker w's SetDone item is handled or still queued behind it. */
  ghost predicate Quiet(t: Pool, w: nat) {
    && w < |t.workers| && t.workers[w].Busy? && t.workers[w].item.work == SetDone
    && t.express == []
    && (forall u: nat :: u < t.workers[w].item.ticket ==> u in t.done)
    && (forall u: nat :: u < t.posted && u != t.workers[w].item.ticket && u !in Tickets(t.regular) ==> u in t.done)
    && (forall v: nat :: v < |t.workers| && v != w ==> t.workers[v].Idle?)
  }

  lemma SetDoneTakenWhenQuiet(s: Pool, w: nat)
    requires Inv(s) && w < |s.workers| && s.workers[w].Ready? && s.active >= 1
    requires AfterPass(s, w).workers[w].Busy? && AfterPass(s, w).workers[w].item.work == SetDone
    ensures Quiet(AfterPass(s, w), w)
  {
    var t := AfterPass(s, w);
    var item := t.workers[w].item;
    PassKeepsInv(s, w);
    assert s.express == [] && s.regular[0] == item && t.regular == s.regular[1..] && s.active == 1;
    forall v: nat | v < |t.workers| && v != w ensures t.workers[v].Idle? {
      if !s.workers[v].Idle? { TwoActive(s, w, v); }
    }
    assert BusyTickets(t) == {item.ticket};
    forall u: nat | u < t.posted && u != item.ticket && u !in Tickets(t.regular) ensures u in t.done {
      assert u in Everywhere(t);
    }
    assert item.ticket in Everywhere(t);
    forall u: nat | u < item.ticket ensures u in t.done {
      assert forall i :: 0 <= i < |t.regular| ==> t.regular[i] == s.regular[i + 1];
    }
  }

  /** The barrier: in every run, a worker that dequeues a SetDone item finds every item ever
      posted handled to completion, save those queued behind the SetDone; in particular
      everything posted before it, on either queue, is done. */
  lemma SetDoneIsBarrier(states: seq<Pool>, steps: seq<Step>, threads: nat, k: nat, w: nat)
    requires threads >= 1 && IsRun(states, steps) && states[0] == Init(threads)
    requires k < |steps| && steps[k] == Pass(w) && w < |states[k + 1].workers|
    requires states[k + 1].workers[w].Busy? && states[k + 1].workers[w].item.work == SetDone
    ensures Quiet(states[k + 1], w)
  {
    InitEstablishesInv(threads);
    RunKeepsInv(states, steps);
    assert Next(states[k], steps[k], states[k + 1]);
    SetDoneTakenWhenQuiet(states[k], w);
  }

  /** No stranded work: in every reachable state the counters are exact, queued work has an
      active worker, and an active worker always has an enabled step. */
  lemma NothingStranded(states: seq<Pool>, steps: seq<Step>, threads: nat, k: nat)
    requires threads >= 1 && IsRun(states, steps) && states[0] == Init(threads) && k < |states|
    ensures var s := states[k];
            && s.active + |s.idle| == |s.workers| == threads
            && (s.express != [] || s.regular != [] || s.throttle ==>
                  exists w :: 0 <= w < |s.workers| && (Enabled(s, Pass(w)) || Enabled(s, Finish(w))))
  {
    InitEstablishesInv(threads);
    RunKeepsInv(states, steps);
    WorkersFixed(states, steps, k);
    var s := states[k];
    if s.express != [] || s.regular != [] || s.throttle {
      if s.throttle { ThrottledMeansActive(s); }
      var w :| w in Active(s);
      assert Enabled(s, Pass(w)) || Enabled(s, Finish(w));
    }
  }

  lemma {:induction false} WorkersFixed(states: seq<Pool>, steps: seq<Step>, k: nat)
    requires IsRun(states, steps) && k < |states|
    ensures |states[k].workers| == |states[0].workers|
  {
    if k > 0 {
      assert Next(states[k - 1], steps[k - 1], states[k]);
      WorkersFixed(states, steps, k - 1);
    }
  }

  function Weight(p: Phase): nat {
    match p case Idle => 0 case Ready(_) => 1 case Busy(_) => 2
  }

  ghost function Load(ps: seq<Phase>): nat {
    if ps == [] then 0 else Load(ps[..|ps| - 1]) + Weight(ps[|ps| - 1])
  }

  /** What is left to do: two units per queued or handled item, one per worker in its loop. */
  ghost function Remaining(s: Pool): nat {
    2 * (|s.express| + |s.regular|) + Load(s.workers)
  }

  lemma {:induction false} LoadUpdate(ps: seq<Phase>, w: nat, p: Phase)
    requires w < |ps|
    ensures Load(ps[w := p]) == Load(ps) - Weight(ps[w]) + Weight(p)
  {
    var n := |ps| - 1;
    if w < n {
      LoadUpdate(ps[..n], w, p);
      assert ps[w := p][..n] == ps[..n][w := p];
    } else {
      assert ps[w := p][..n] == ps[..n];
    }
  }

  lemma WorkerStepDecreases(s: Pool, step: Step, t: Pool)
    requires Next(s, step, t) && !step.Post?
    ensures Remaining(t) == Remaining(s) - 1
  {
    LoadUpdate(s.workers, step.worker, t.workers[step.worker]);
  }

  /** Left to themselves the workers take at most Remaining(s) steps. */
  lemma {:induction false} WorkersTerminate(states: seq<Pool>, steps: seq<Step>)
    requires IsRun(states, steps) && forall i :: 0 <= i < |steps| ==> !steps[i].Post?
    ensures |steps| + Remaining(states[|steps|]) == Remaining(states[0])
  {
    if steps != [] {
      var n := |steps| - 1;
      assert Next(states[n], steps[n], states[n + 1]);
      WorkerStepDecreases(states[n], steps[n], states[n + 1]);
      assert forall i :: 0 <= i < n ==> Next(states[..n + 1][i], steps[..n][i], states[..n + 1][i + 1]);
      WorkersTerminate(states[..n + 1], steps[..n]);
    }
  }

  /** ... and when no worker can step any more, everything posted has been handled and the
      throttle is off. Together: once posting stops, no schedule strands an item. */
  lemma StoppedMeansDone(s: Pool)
    requires Inv(s) && forall w: nat :: !Enabled(s, Pass(w)) && !Enabled(s, Finish(w))
    ensures s.express == [] && s.regular == [] && !s.throttle && s.active == 0
    ensures forall u: nat :: u < s.posted <==> u in s.done
  {
    forall w | 0 <= w < |s.workers| ensures s.workers[w].Idle? {
      assert !Enabled(s, Pass(w)) && !Enabled(s, Finish(w));
    }
    assert Active(s) == {};
    assert BusyTickets(s) == {};
    assert Everywhere(s) == s.done;
  }

  // ------------------------------------------------------ what each section does

  /** The next item is a SetDone, and others are still active. */
  ghost predicate Held(s: Pool) {
    s.express == [] && s.regular != [] && s.regular[0].work == SetDone && s.active > 1
  }

  /** A post puts the item behind all others of the queue asked for and wakes the first idle worker,
      if there is one and no throttle. */
  ghost predicate Posts(s: Pool, work: WorkFunction, toExpress: bool, t: Pool) {
    && t.posted == s.posted + 1 && t.done == s.done && t.throttle == s.throttle
    && t.express == s.express + (if toExpress then [WorkItem(s.posted, work)] else [])
    && t.regular == s.regular + (if toExpress then [] else [WorkItem(s.posted, work)])
    && if s.throttle || s.idle == [] then t.workers == s.workers && t.idle == s.idle && t.active == s.active
       else && s.idle[0] < |s.workers| && t.workers == s.workers[s.idle[0] := Ready(false)]
            && t.idle == s.idle[1..] && t.active == s.active + 1
  }

  /** A pass leaves the worker idle if and only if there is no work or the next item is a SetDone and
      others are active, and then the throttle is on; otherwise the worker has the oldest express
      item, or the oldest regular one if there is none. */
  ghost predicate Passes(s: Pool, w: nat, t: Pool)
    requires w < |s.workers| && s.workers[w].Ready?
  {
    && t.posted == s.posted && t.done == s.done && |t.workers| == |s.workers|
    && (forall v :: 0 <= v < |s.workers| && v != w ==> t.workers[v] == s.workers[v])
    && (t.throttle <==> Held(s) || (s.throttle && !s.workers[w].dropThrottle))
    && (t.workers[w].Idle? <==> Held(s) || (s.express == [] && s.regular == []))
    && if t.workers[w].Idle? then
         t.express == s.express && t.regular == s.regular && t.idle == s.idle + [w] && t.active == s.active - 1
       else
         && t.workers[w].Busy? && t.idle == s.idle && t.active == s.active
         && s.express + s.regular == [t.workers[w].item] + t.express + t.regular
         && (if s.express == [] then t.express == [] else t.regular == s.regular)
  }

  lemma PostExact(s: Pool, work: WorkFunction, toExpress: bool)
    requires IdleInRange(s)
    ensures Posts(s, work, toExpress, AfterPost(s, work, toExpress))
  {
  }

  lemma PassExact(s: Pool, w: nat)
    requires w < |s.workers| && s.workers[w].Ready? && s.active >= 1
    requires forall i :: 0 <= i < |s.express| ==> s.express[i].work != SetDone
    ensures Passes(s, w, AfterPass(s, w))
  {
    var t := AfterPass(s, w);
    if t.workers[w].Busy? {
      if s.express == [] {
        assert s.regular == [s.regular[0]] + s.regular[1..];
      } else {
        assert s.express == [s.express[0]] + s.express[1..];
      }
    }
  }

  /** The throttle goes up before a SetDone that has to wait, and comes down only where a worker has
      handled a SetDone; while it is on no post wakes a worker, and no step makes one more active. */
  lemma ThrottleExact(s: Pool, step: Step, t: Pool)
    requires Inv(s) && Next(s, step, t)
    ensures t.throttle <==>
            (step.Pass? && Held(s)) || (s.throttle && !(step.Pass? && s.workers[step.worker] == Ready(true)))
    ensures s.throttle ==> t.active <= s.active
    ensures s.throttle && step.Post? ==> t.workers == s.workers && t.idle == s.idle
  {
    hide Counted, Attended;
    if step.Pass? { PassExact(s, step.worker); }
  }

  ghost predicate Drops(s: Pool, step: Step) {
    step.Pass? && step.worker < |s.workers| && s.workers[step.worker] == Ready(true)
  }

  /** In every run: from the pass that leaves a SetDone waiting until a worker that has handled one
      takes the lock, the throttle is on and the number of active workers does not grow. */
  lemma {:induction false} ThrottledUntilDone(states: seq<Pool>, steps: seq<Step>, threads: nat, k: nat, m: nat)
    requires threads >= 1 && IsRun(states, steps) && states[0] == Init(threads) && k < m < |states|
    requires steps[k].Pass? && Held(states[k])
    requires forall j :: k < j < m ==> !Drops(states[j], steps[j])
    ensures states[m].throttle && states[m].active <= states[k + 1].active < states[k].active
    decreases m
  {
    hide Counted, Attended, Conserved;
    InitEstablishesInv(threads);
    RunKeepsInv(states, steps);
    assert Next(states[m - 1], steps[m - 1], states[m]);
    ThrottleExact(states[m - 1], steps[m - 1], states[m]);
    if m == k + 1 {
      ExpressPlain(states[k]);
      PassExact(states[k], steps[k].worker);
    } else {
      ThrottledUntilDone(states, steps, threads, k, m - 1);
      assert !Drops(states[m - 1], steps[m - 1]);
    }
  }

  lemma ExpressPlain(s: Pool)
    requires Inv(s)
    ensures forall i :: 0 <= i < |s.express| ==> s.express[i].work != SetDone
  {
  }

  /** ... and such a worker has indeed handled a SetDone. */
  lemma {:induction false} DropsAfterSetDone(states: seq<Pool>, steps: seq<Step>, threads: nat, k: nat, w: nat)
    returns (j: nat)
    requires threads >= 1 && IsRun(states, steps) && states[0] == Init(threads) && k < |states|
    requires w < |states[k].workers| && states[k].workers[w] == Ready(true)
    ensures j < k && steps[j] == Finish(w) && w < |states[j].workers|
    ensures states[j].workers[w].Busy? && states[j].workers[w].item.work == SetDone
    decreases k
  {
    assert k > 0 ==> Next(states[k - 1], steps[k - 1], states[k]);
    if steps[k - 1] == Finish(w) {
      j := k - 1;
    } else {
      j := DropsAfterSetDone(states, steps, threads, k - 1, w);
    }
  }

  // ------------------------------------------- the critical sections, in place

  /** The globals of the worker pool, changed only inside the work-queue lock. Each method is
      the body of one critical section and is exactly one step of the protocol above. */
  class WorkerPool {
    var express: seq<WorkItem>
    var regular: seq<WorkItem>
    var throttle: bool
    var active: nat
    var idle: seq<nat>
    var workers: seq<Phase>
    var posted: nat
    var done: set<nat>

    ghost function State(): Pool
      reads this
    {
      Pool(express, regular, throttle, active, idle, workers, posted, done)
    }

    constructor (threads: nat)
      requires threads >= 1
      ensures State() == Init(threads) && Inv(State())
    {
      express, regular, throttle, active := [], [], false, 0;
      idle, workers := seq(threads, i => i), seq(threads, i => Idle);
      posted, done := 0, {};
      new;
      InitEstablishesInv(threads);
    }

    /** Returns the thread to start, if any. */
    method PostWorkQueue(work: WorkFunction, toExpress: bool) returns (spawned: seq<nat>)
      requires Inv(State()) && (toExpress ==> work != SetDone)
      modifies this
      ensures Next(old(State()), Post(work, toExpress), State()) && Inv(State())
      ensures Posts(old(State()), work, toExpress, State())
      ensures spawned == if !old(throttle) && old(idle) != [] then [old(idle)[0]] else []
      ensures forall i :: 0 <= i < |spawned| ==> spawned[i] < |workers| && Enabled(State(), Pass(spawned[i]))
    {
      hide Counted, Attended, Conserved;
      PostKeepsInv(State(), work, toExpress);
      IdleFits(State());
      PostExact(State(), work, toExpress);
      var item := WorkItem(posted, work);
      if toExpress { express := express + [item]; } else { regular := regular + [item]; }
      posted := posted + 1;
      spawned := [];
      if !throttle && idle != [] {
        spawned := [idle[0]];
        idle := idle[1..];
        active := active + 1;
        workers := workers[spawned[0] := Ready(false)];
      }
    }

    /** Returns whether the worker got an item; if not, it is back on the idle list. */
    method WorkerPass(w: nat) returns (got: bool)
      requires Inv(State()) && Enabled(State(), Pass(w))
      modifies this
      ensures Next(old(State()), Pass(w), State()) && Inv(State()) && Passes(old(State()), w, State())
      ensures got == workers[w].Busy?
      ensures !got ==> w in idle
    {
      hide Counted, Attended, Conserved;
      ghost var s := State();
      assert active >= 1 by { ActiveAtLeast(s, w); }
      if workers[w].dropThrottle { throttle := false; }
      if express == [] && regular == [] {
        got := false;
      } else {
        var item := if express == [] then regular[0] else express[0];
        if item.work == SetDone && active > 1 {
          throttle := true;
          got := false;
        } else {
          if express == [] { regular := regular[1..]; } else { express := express[1..]; }
          workers := workers[w := Busy(item)];
          got := true;
        }
      }
      if !got {
        idle := idle + [w];
        active := active - 1;
        workers := workers[w := Idle];
      }
      assert State() == AfterPass(s, w);
      assert Inv(AfterPass(s, w)) by { PassKeepsInv(s, w); }
      ExpressPlain(s);
      PassExact(s, w);
    }
  }
}
