/**
 Any number of threads that take bucket locks through the routines of KcbLocks: ascending lists,
 released in reverse. A lock is shared or exclusive, and waiters are served in arrival order.
 */
module LockOrder {
  import KcbLocks
  import S = Sequences

  datatype Phase = Going | Waiting(ticket: nat)

  /** A thread holds the first `held` locks of its plan. While `releasing` it gives them back. */
  datatype Thread = Thread(plan: seq<nat>, exclusive: bool, held: nat, phase: Phase, releasing: bool)

  datatype State = State(threads: map<nat, Thread>, clock: nat)

  datatype Step =
    | Begin(t: nat, plan: seq<nat>, exclusive: bool)
    | Ask(t: nat)
    | Grant(t: nat)
    | Finish(t: nat)
    | Release(t: nat)

  predicate Wants(th: Thread, lock: nat) {
    th.phase.Waiting? && th.held < |th.plan| && th.plan[th.held] == lock
  }

  predicate Holds(th: Thread, lock: nat) {
    th.held <= |th.plan| && lock in th.plan[..th.held]
  }

  /** t cannot go on before u does: u holds the lock in a mode that excludes t, or it came first. */
  ghost predicate WaitsFor(s: State, t: nat, u: nat) {
    && t in s.threads && u in s.threads && t != u
    && exists lock :: Wants(s.threads[t], lock) && BlockedBy(s.threads[t], s.threads[u], lock)
  }

  predicate BlockedBy(t: Thread, u: Thread, lock: nat) {
    || (Holds(u, lock) && (t.exclusive || u.exclusive))
    || (Wants(u, lock) && t.phase.Waiting? && u.phase.Waiting? && u.phase.ticket < t.phase.ticket)
  }

  ghost predicate Enabled(s: State, step: Step) {
    match step
    case Begin(t, plan, _) => KcbLocks.Ascending(plan)
      && (t in s.threads ==> s.threads[t].held == 0 && s.threads[t].releasing)
    case Ask(t) => t in s.threads && s.threads[t].phase.Going? && !s.threads[t].releasing
      && s.threads[t].held < |s.threads[t].plan|
    case Grant(t) => t in s.threads && s.threads[t].phase.Waiting? && forall u :: !WaitsFor(s, t, u)
    case Finish(t) => t in s.threads && s.threads[t].phase.Going? && !s.threads[t].releasing
      && s.threads[t].held == |s.threads[t].plan|
    case Release(t) => t in s.threads && s.threads[t].releasing && s.threads[t].held > 0
  }

  function Next(s: State, step: Step): State
    requires step.Begin? || step.t in s.threads
    requires step.Release? ==> s.threads[step.t].held > 0
  {
    match step
    case Begin(t, plan, exclusive) => s.(threads := s.threads[t := Thread(plan, exclusive, 0, Going, false)])
    case Ask(t) => State(s.threads[t := s.threads[t].(phase := Waiting(s.clock))], s.clock + 1)
    case Grant(t) => s.(threads := s.threads[t := s.threads[t].(held := s.threads[t].held + 1, phase := Going)])
    case Finish(t) => s.(threads := s.threads[t := s.threads[t].(releasing := true)])
    case Release(t) => s.(threads := s.threads[t := s.threads[t].(held := s.threads[t].held - 1)])
  }

  // ------------------------------------------------------------ the invariant

  /** A thread alone: an ascending plan, within bounds, waiting only for its next lock. */
  ghost predicate Formed(th: Thread) {
    && KcbLocks.Ascending(th.plan) && th.held <= |th.plan|
    && (th.phase.Waiting? ==> th.held < |th.plan| && !th.releasing)
  }

  /** Two threads: an exclusive lock is held once, and no two waiters came at the same time. */
  ghost predicate Compatible(a: Thread, b: Thread) {
    && (forall lock :: Holds(a, lock) && Holds(b, lock) ==> !a.exclusive && !b.exclusive)
    && (a.phase.Waiting? && b.phase.Waiting? ==> a.phase.ticket != b.phase.ticket)
  }

  ghost predicate Inv(s: State) {
    && (forall t :: t in s.threads ==>
       Formed(s.threads[t]) && (s.threads[t].phase.Waiting? ==> s.threads[t].phase.ticket < s.clock))
    && (forall t, u :: t in s.threads && u in s.threads && t != u ==> Compatible(s.threads[t], s.threads[u]))
  }

  /** Changing one thread keeps the invariant when the thread is formed and fits the others. */
  lemma OneThread(s: State, t: nat, th: Thread, clock: nat)
    requires Inv(s) && Formed(th) && clock >= s.clock && (th.phase.Waiting? ==> th.phase.ticket < clock)
    requires forall u :: u in s.threads && u != t ==> Compatible(th, s.threads[u])
    ensures Inv(State(s.threads[t := th], clock))
  {
    hide Formed, Compatible;
    forall u | u in s.threads && u != t ensures Compatible(s.threads[u], th) { Symmetric(th, s.threads[u]); }
  }

  lemma Symmetric(a: Thread, b: Thread)
    requires Compatible(a, b)
    ensures Compatible(b, a)
  {
  }

  lemma GrantFits(s: State, t: nat, u: nat)
    requires Inv(s) && t in s.threads && u in s.threads && u != t && s.threads[t].phase.Waiting? && !WaitsFor(s, t, u)
    ensures Compatible(s.threads[t].(held := s.threads[t].held + 1, phase := Going), s.threads[u])
  {
    var a, b := s.threads[t], s.threads[u];
    var c := a.(held := a.held + 1, phase := Going);
    assert Formed(a) && Compatible(a, b);
    var next := a.plan[a.held];
    assert Wants(a, next);
    assert c.plan[..c.held] == a.plan[..a.held] + [next];
    forall lock | Holds(c, lock) && Holds(b, lock) ensures !c.exclusive && !b.exclusive {
      if lock == next { assert !BlockedBy(a, b, next); } else { assert Holds(a, lock); }
    }
  }

  lemma StepKeepsInv(s: State, step: Step)
    requires Inv(s) && Enabled(s, step)
    ensures Inv(Next(s, step))
  {
    hide WaitsFor;
    var t := step.t;
    var s' := Next(s, step);
    var th := s'.threads[t];
    if step.Begin? {
    } else {
      assert Formed(s.threads[t]);
    }
    forall u | u in s.threads && u != t ensures Compatible(th, s.threads[u]) {
      if !step.Begin? { assert Compatible(s.threads[t], s.threads[u]); }
      if step.Grant? { GrantFits(s, t, u); }
      if step.Release? { assert forall lock :: Holds(th, lock) ==> Holds(s.threads[t], lock); }
      if step.Ask? && s.threads[u].phase.Waiting? { assert s.threads[u].phase.ticket < s.clock; }
    }
    OneThread(s, t, th, s'.clock);
    assert s' == State(s.threads[t := th], s'.clock);
  }

  ghost predicate Run(s: State, steps: seq<Step>, s': State)
    decreases |steps|
  {
    if steps == [] then s == s' else Enabled(s, steps[0]) && Run(Next(s, steps[0]), steps[1..], s')
  }

  /** From no thread at all, whatever the threads do: locks exclude as they should. */
  lemma {:induction false} RunKeepsInv(s: State, steps: seq<Step>, s': State)
    requires Inv(s) && Run(s, steps, s')
    ensures Inv(s')
    decreases |steps|
  {
    if steps != [] {
      StepKeepsInv(s, steps[0]);
      RunKeepsInv(Next(s, steps[0]), steps[1..], s');
    }
  }

  // ------------------------------------------------------------------ deadlock

  /** x wants a higher lock than t, or the same one and came first. */
  ghost predicate Ahead(s: State, x: nat, t: nat) {
    && x in s.threads && t in s.threads && s.threads[x].phase.Waiting? && s.threads[t].phase.Waiting?
    && s.threads[x].held < |s.threads[x].plan| && s.threads[t].held < |s.threads[t].plan|
    && var a, b := s.threads[x].plan[s.threads[x].held], s.threads[t].plan[s.threads[t].held];
       a > b || (a == b && s.threads[x].phase.ticket < s.threads[t].phase.ticket)
  }

  /** Locks are taken in ascending order, so who blocks a waiter either goes on or is ahead. */
  lemma BlockerAhead(s: State, t: nat, u: nat)
    requires Inv(s) && WaitsFor(s, t, u)
    ensures s.threads[u].phase.Waiting? ==> Ahead(s, u, t)
    ensures s.threads[u].held > 0 || s.threads[u].phase.Waiting?
  {
    var a, b := s.threads[t], s.threads[u];
    assert Formed(a) && Formed(b);
    var lock :| Wants(a, lock) && BlockedBy(a, b, lock);
    if Holds(b, lock) {
      var k :| 0 <= k < b.held && b.plan[k] == lock;
      assert b.phase.Waiting? ==> b.plan[k] < b.plan[b.held];
    }
  }

  /** The threads never form a wait-for cycle. */
  lemma NoCycle(s: State, chain: seq<nat>)
    requires Inv(s) && |chain| >= 2 && forall i :: 0 <= i < |chain| - 1 ==> WaitsFor(s, chain[i], chain[i + 1])
    ensures chain[0] != chain[|chain| - 1]
  {
    var n := |chain| - 1;
    assert WaitsFor(s, chain[0], chain[1]);
    if chain[0] == chain[n] {
      ChainAhead(s, chain, n);
      assert false;
    }
  }

  /** Before anybody has asked for a lock. */
  const START := State(map[], 0)

  lemma StartInv()
    ensures Inv(START)
  {
  }

  /** In every run from the start, with any number of threads and requests, no wait-for cycle forms
      and an exclusive lock is held by one thread at most. */
  lemma RunHasNoCycle(steps: seq<Step>, s: State, chain: seq<nat>, t: nat, u: nat, lock: nat)
    requires Run(START, steps, s)
    requires |chain| >= 2 && forall i :: 0 <= i < |chain| - 1 ==> WaitsFor(s, chain[i], chain[i + 1])
    ensures chain[0] != chain[|chain| - 1]
    ensures t in s.threads && u in s.threads && t != u && Holds(s.threads[t], lock) && Holds(s.threads[u], lock)
            ==> !s.threads[t].exclusive && !s.threads[u].exclusive
  {
    hide WaitsFor, Holds;
    StartInv();
    RunKeepsInv(START, steps, s);
    NoCycle(s, chain);
    assert t in s.threads && u in s.threads && t != u ==> Compatible(s.threads[t], s.threads[u]);
  }

  lemma {:induction false} ChainAhead(s: State, chain: seq<nat>, n: nat)
    requires Inv(s) && 1 <= n < |chain| && forall i :: 0 <= i < |chain| - 1 ==> WaitsFor(s, chain[i], chain[i + 1])
    requires chain[n] in s.threads && s.threads[chain[n]].phase.Waiting?
    ensures Ahead(s, chain[n], chain[0])
  {
    assert WaitsFor(s, chain[n - 1], chain[n - 1 + 1]);
    BlockerAhead(s, chain[n - 1], chain[n]);
    if n > 1 { ChainAhead(s, chain, n - 1); }
  }

  /** Steps a thread has left before it holds nothing again. */
  function Left(th: Thread): nat {
    if th.releasing then th.held
    else if th.held > |th.plan| then 0
    else 2 * (|th.plan| - th.held) + (if th.phase.Waiting? then 0 else 1) + |th.plan|
  }

  ghost function Candidates(s: State, t: nat): set<nat> {
    set x | x in s.threads && Ahead(s, x, t)
  }

  /** Some thread can always go on: follow the waiters ahead. */
  lemma {:induction false} SomebodyGoes(s: State, t: nat) returns (step: Step)
    requires Inv(s) && t in s.threads && Left(s.threads[t]) > 0
    ensures !step.Begin? && Enabled(s, step)
    decreases |Candidates(s, t)|
  {
    var th := s.threads[t];
    assert Formed(th);
    if th.phase.Going? {
      step := if th.releasing then Release(t) else if th.held < |th.plan| then Ask(t) else Finish(t);
    } else if forall u :: !WaitsFor(s, t, u) {
      step := Grant(t);
    } else {
      var u :| WaitsFor(s, t, u);
      BlockerAhead(s, t, u);
      assert Formed(s.threads[u]);
      if s.threads[u].phase.Going? {
        var b := s.threads[u];
        step := if b.releasing then Release(u) else if b.held < |b.plan| then Ask(u) else Finish(u);
      } else {
        FewerAhead(s, u, t);
        step := SomebodyGoes(s, u);
      }
    }
  }

  lemma FewerAhead(s: State, u: nat, t: nat)
    requires Ahead(s, u, t)
    ensures |Candidates(s, u)| < |Candidates(s, t)|
  {
    assert Candidates(s, u) <= Candidates(s, t) - {u};
    S.SubsetCardinality(Candidates(s, u), Candidates(s, t) - {u});
  }

  // ------------------------------------------------- everybody gets its locks

  ghost function Work(s: State, ids: seq<nat>): nat
    requires forall t :: t in ids ==> t in s.threads
  {
    if ids == [] then 0 else Left(s.threads[ids[0]]) + Work(s, ids[1..])
  }

  lemma {:induction false} WorkChanges(s: State, t: nat, th: Thread, clock: nat, ids: seq<nat>)
    requires S.NoDup(ids) && (forall x :: x in ids ==> x in s.threads) && t in s.threads
    ensures Work(State(s.threads[t := th], clock), ids) + (if t in ids then Left(s.threads[t]) else 0)
         == Work(s, ids) + if t in ids then Left(th) else 0
  {
    if ids != [] {
      assert forall x :: x in ids[1..] ==> x in ids;
      WorkChanges(s, t, th, clock, ids[1..]);
      if ids[0] == t { assert t !in ids[1..]; }
    }
  }

  lemma StepShrinks(s: State, step: Step, ids: seq<nat>)
    requires Inv(s) && Enabled(s, step) && !step.Begin? && S.NoDup(ids) && forall t :: t in ids <==> t in s.threads
    ensures (forall t :: t in ids <==> t in Next(s, step).threads) && Work(Next(s, step), ids) == Work(s, ids) - 1
  {
    hide WaitsFor;
    var s' := Next(s, step);
    assert Formed(s.threads[step.t]);
    WorkChanges(s, step.t, s'.threads[step.t], s'.clock, ids);
  }

  lemma {:induction false} WorkOf(s: State, ids: seq<nat>, t: nat)
    requires (forall x :: x in ids ==> x in s.threads) && t in ids
    ensures Work(s, ids) >= Left(s.threads[t])
  {
    if ids[0] != t { WorkOf(s, ids[1..], t); }
  }

  /** With no new requests every run is bounded, and where it cannot go on every thread has had
      all its locks and holds none: nobody waits forever. */
  lemma {:induction false} EverybodyServed(s: State, steps: seq<Step>, s': State, ids: seq<nat>)
    requires Inv(s) && Run(s, steps, s') && (forall k :: 0 <= k < |steps| ==> !steps[k].Begin?)
    requires S.NoDup(ids) && forall t :: t in ids <==> t in s.threads
    ensures |steps| <= Work(s, ids)
    ensures (forall step: Step :: Enabled(s', step) ==> step.Begin?) ==>
              forall t :: t in s'.threads ==> s'.threads[t].releasing && s'.threads[t].held == 0
    decreases |steps|
  {
    if steps == [] {
      forall t | t in s.threads && (forall step: Step :: Enabled(s, step) ==> step.Begin?)
        ensures s.threads[t].releasing && s.threads[t].held == 0
      {
        Stuck(s, t);
      }
    } else {
      StepKeepsInv(s, steps[0]);
      StepShrinks(s, steps[0], ids);
      EverybodyServed(Next(s, steps[0]), steps[1..], s', ids);
    }
  }

  lemma Stuck(s: State, t: nat)
    requires Inv(s) && t in s.threads && forall step: Step :: Enabled(s, step) ==> step.Begin?
    ensures s.threads[t].releasing && s.threads[t].held == 0
  {
    hide Enabled;
    assert Formed(s.threads[t]);
    if Left(s.threads[t]) > 0 { var step := SomebodyGoes(s, t); assert false; }
  }

  // ----------------------------------------------------------- what locks allow

  /** A waiter is granted its lock exactly when no holder excludes it and nobody came before it. */
  lemma GrantIff(s: State, t: nat, lock: nat)
    requires Inv(s) && t in s.threads && Wants(s.threads[t], lock)
    ensures Enabled(s, Grant(t)) <==>
            forall u :: u in s.threads && u != t ==>
              && (Holds(s.threads[u], lock) ==> !s.threads[t].exclusive && !s.threads[u].exclusive)
              && (Wants(s.threads[u], lock) ==> s.threads[u].phase.ticket > s.threads[t].phase.ticket)
  {
    forall u | u in s.threads && u != t
      ensures !WaitsFor(s, t, u) <==>
                && (Holds(s.threads[u], lock) ==> !s.threads[t].exclusive && !s.threads[u].exclusive)
                && (Wants(s.threads[u], lock) ==> s.threads[u].phase.ticket > s.threads[t].phase.ticket)
    {
      assert Compatible(s.threads[t], s.threads[u]);
      assert WaitsFor(s, t, u) <==> BlockedBy(s.threads[t], s.threads[u], lock);
    }
  }

  /** A thread takes its locks from the lowest up and gives them back from the highest down. */
  lemma UpThenDown(s: State, step: Step, lock: nat)
    requires Inv(s) && Enabled(s, step) && (step.Grant? || step.Release?)
    ensures var a, b := s.threads[step.t], Next(s, step).threads[step.t];
            && b.plan == a.plan && b.exclusive == a.exclusive
            && (step.Grant? && Holds(b, lock) && !Holds(a, lock) ==> forall x: nat :: Holds(a, x) ==> x < lock)
            && (step.Release? && Holds(a, lock) && !Holds(b, lock) ==> forall x: nat :: Holds(a, x) ==> x <= lock)
            && (if step.Grant? then b.held == a.held + 1 else b.held == a.held - 1)
  {
    var a, b := s.threads[step.t], Next(s, step).threads[step.t];
    assert Formed(a);
    if step.Grant? {
      assert b.plan[..b.held] == a.plan[..a.held] + [a.plan[a.held]];
    } else {
      assert a.plan[..a.held] == b.plan[..b.held] + [a.plan[b.held]];
    }
  }

  /** A request is kept as it was made. */
  lemma BeginExact(s: State, t: nat, plan: seq<nat>, exclusive: bool)
    ensures var u := Next(s, Begin(t, plan, exclusive));
            && t in u.threads && u.threads[t].plan == plan && u.threads[t].exclusive == exclusive
            && u.threads[t].held == 0 && u.threads[t].phase.Going? && !u.threads[t].releasing
            && forall v :: v != t ==> (v in u.threads <==> v in s.threads)
                                       && (v in s.threads ==> u.threads[v] == s.threads[v])
  {
  }
}
