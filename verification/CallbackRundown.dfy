/**
 Registry callbacks: traversal of the callback list with the lock dropped around every call,
 against unregistration under rundown protection. A step is one lock-protected list access, one
 rundown operation or one call boundary; any number of threads interleave freely.
 */
module CallbackRundown {
  import opened Sequences

  /** `refs` and `rundown` are the rundown reference: its count and whether rundown has begun. */
  datatype Callback = Callback(pendingDelete: bool, refs: nat, rundown: bool, freed: bool)

  /** Where a thread stands. Walking, Returned and Leaving hold the callback lock. */
  datatype Place =
    | Idle
    | Walking(at: nat)
    | Calling(at: nat)
    | Returned(at: nat, success: bool)
    | Leaving(at: nat)
    | Marked(at: nat)
    | Waiting(at: nat)
    | Unlinking(at: nat)
    | Freeing(at: nat)

  datatype Lock = Free | HeldBy(thread: nat)

  /** `callbacks` are all ever registered, by cookie; `list` is the callback list. `bad` records
      that a freed or unlinked callback was touched. */
  datatype State = State(callbacks: seq<Callback>, list: seq<nat>, lock: Lock, threads: seq<Place>, bad: bool)

  datatype Step =
    | Register(t: nat)
    | BeginCalls(t: nat)
    | Visit(t: nat)
    | Return(t: nat, success: bool)
    | Release(t: nat)
    | Follow(t: nat)
    | Unregister(t: nat, cookie: nat)
    | BeginWait(t: nat)
    | EndWait(t: nat)
    | Unlink(t: nat)
    | FreeIt(t: nat)

  predicate Holds(p: Place) {
    p.Walking? || p.Returned? || p.Leaving?
  }

  /** The thread is in the traversal and has callback p.at in hand. */
  predicate Traverses(p: Place) {
    p.Walking? || p.Calling? || p.Returned? || p.Leaving?
  }

  predicate Unregisters(p: Place) {
    p.Marked? || p.Waiting? || p.Unlinking? || p.Freeing?
  }

  /** The thread owns a rundown reference on e. */
  predicate Protects(p: Place, e: nat) {
    p == Calling(e) || p == Returned(e, true) || p == Returned(e, false)
  }

  // ---------------------------------------------------------------- the steps

  function Init(threads: nat): State {
    State([], [], Free, seq(threads, i => Idle), false)
  }

  function Move(s: State, t: nat, p: Place): State
    requires t < |s.threads|
  {
    s.(threads := s.threads[t := p],
       lock := if Holds(p) then HeldBy(t) else if Holds(s.threads[t]) then Free else s.lock)
  }

  function Put(s: State, e: nat, c: Callback): State
    requires e < |s.callbacks|
  {
    s.(callbacks := s.callbacks[e := c])
  }

  /** Whether touching callback e follows a dangling pointer. */
  predicate Dangling(s: State, e: nat) {
    e >= |s.callbacks| || s.callbacks[e].freed
  }

  /** The entry behind e on the list; nothing behind the last one. */
  function After(list: seq<nat>, e: nat): Option<nat> {
    if |list| < 2 then None else if list[0] == e then Some(list[1]) else After(list[1..], e)
  }

  ghost predicate Enabled(s: State, step: Step) {
    && step.t < |s.threads|
    && var p := s.threads[step.t];
       match step
       case Register(_) => p.Idle? && s.lock.Free?
       case BeginCalls(_) => p.Idle? && s.lock.Free?
       case Visit(_) => p.Walking?
       case Return(_, _) => p.Calling? && s.lock.Free?
       case Release(_) => p.Returned?
       case Follow(_) => p.Leaving?
       case Unregister(_, _) => p.Idle? && s.lock.Free?
       case BeginWait(_) => p.Marked?
       case EndWait(_) => p.Waiting? && p.at < |s.callbacks| && s.callbacks[p.at].refs == 0
       case Unlink(_) => p.Unlinking? && s.lock.Free?
       case FreeIt(_) => p.Freeing?
  }

  /** A step of thread t on the callback e it has in hand. */
  function OnCallback(s: State, step: Step, e: nat): State
    requires step.t < |s.threads| && e < |s.callbacks|
  {
    var t, c := step.t, s.callbacks[e];
    match step
    case Visit(_) =>
      if !c.pendingDelete && !c.rundown then Move(Put(s, e, c.(refs := c.refs + 1)), t, Calling(e))
      else Move(s, t, Leaving(e))
    case Return(_, success) => Move(s, t, Returned(e, success))
    case Release(_) =>
      if c.refs == 0 then s.(bad := true)
      else Move(Put(s, e, c.(refs := c.refs - 1)), t, if s.threads[t] == Returned(e, true) then Leaving(e) else Idle)
    case Follow(_) =>
      if e !in s.list then s.(bad := true)
      else
        var f := After(s.list, e);
        Move(s, t, if f.None? then Idle else Walking(f.value))
    case BeginWait(_) => Move(Put(s, e, c.(rundown := true)), t, Waiting(e))
    case EndWait(_) => Move(s, t, Unlinking(e))
    case Unlink(_) => Move(s, t, Freeing(e)).(list := Without(s.list, e))
    case FreeIt(_) => Move(Put(s, e, c.(freed := true)), t, Idle)
    case _ => s
  }

  function Next(s: State, step: Step): State
    requires step.t < |s.threads|
  {
    var t, p := step.t, s.threads[step.t];
    match step
    case Register(_) =>
      s.(callbacks := s.callbacks + [Callback(false, 0, false, false)], list := s.list + [|s.callbacks|])
    case BeginCalls(_) =>
      if s.list == [] then s else Move(s, t, Walking(s.list[0]))
    case Unregister(_, cookie) =>
      if cookie in s.list && cookie < |s.callbacks| && !s.callbacks[cookie].pendingDelete then
        Move(Put(s, cookie, s.callbacks[cookie].(pendingDelete := true)), t, Marked(cookie))
      else s
    case _ =>
      if p.Idle? then s
      else if Dangling(s, p.at) then s.(bad := true)
      else OnCallback(s, step, p.at)
  }

  // ------------------------------------------------------------ the invariant

  ghost function Callers(s: State, e: nat): set<nat> {
    set t | 0 <= t < |s.threads| && Protects(s.threads[t], e)
  }

  ghost predicate Locked(s: State) {
    forall t :: 0 <= t < |s.threads| ==> (Holds(s.threads[t]) <==> s.lock == HeldBy(t))
  }

  ghost predicate Counted(s: State) {
    forall e :: 0 <= e < |s.callbacks| ==> s.callbacks[e].refs == |Callers(s, e)|
  }

  ghost predicate Listed(s: State) {
    && NoDup(s.list)
    && (forall k :: 0 <= k < |s.list| ==> s.list[k] < |s.callbacks| && !s.callbacks[s.list[k]].freed)
    && (forall e :: 0 <= e < |s.callbacks| && s.callbacks[e].freed ==> s.callbacks[e].pendingDelete)
  }

  /** A traverser's callback is on the list; an unregistering thread's is in the right stage. */
  ghost predicate Sound(s: State, p: Place) {
    && (Traverses(p) ==> p.at in s.list)
    && (Unregisters(p) ==>
          && p.at < |s.callbacks|
          && var c := s.callbacks[p.at];
             && c.pendingDelete && !c.freed
             && (!p.Marked? ==> c.rundown)
             && (p.Unlinking? || p.Freeing? ==> c.refs == 0)
             && (p.at in s.list <==> !p.Freeing?))
  }

  ghost predicate Exclusive(s: State) {
    forall t, v :: 0 <= t < v < |s.threads| && Unregisters(s.threads[t]) && Unregisters(s.threads[v]) ==>
      s.threads[t].at != s.threads[v].at
  }

  ghost predicate Inv(s: State) {
    && Locked(s) && Counted(s) && Listed(s) && Exclusive(s) && !s.bad
    && forall t :: 0 <= t < |s.threads| ==> Sound(s, s.threads[t])
  }

  // ------------------------------------------------------------- preservation

  /** u differs from s in thread t, in callback e, and in the list and the lock. */
  ghost predicate Local(s: State, u: State, t: nat, e: nat) {
    && t < |s.threads| == |u.threads| && e < |s.callbacks| == |u.callbacks|
    && (forall v :: 0 <= v < |s.threads| && v != t ==> u.threads[v] == s.threads[v])
    && (forall j :: 0 <= j < |s.callbacks| && j != e ==> u.callbacks[j] == s.callbacks[j])
  }

  lemma LockedIf(s: State, u: State, t: nat, e: nat)
    requires Local(s, u, t, e) && Locked(s) && (Holds(u.threads[t]) ==> s.lock.Free? || Holds(s.threads[t]))
    requires u.lock == if Holds(u.threads[t]) then HeldBy(t) else if Holds(s.threads[t]) then Free else s.lock
    ensures Locked(u)
  {
  }

  lemma CountedIf(s: State, u: State, t: nat, e: nat)
    requires Local(s, u, t, e) && Counted(s)
    requires forall j: nat :: j != e ==> !Protects(s.threads[t], j) && !Protects(u.threads[t], j)
    requires u.callbacks[e].refs + One(Protects(s.threads[t], e)) ==
             s.callbacks[e].refs + One(Protects(u.threads[t], e))
    ensures Counted(u)
  {
    hide Callers;
    forall j | 0 <= j < |u.callbacks| ensures u.callbacks[j].refs == |Callers(u, j)| {
      CallersMove(s, u, t, e, j);
    }
  }

  lemma CallersMove(s: State, u: State, t: nat, e: nat, j: nat)
    requires Local(s, u, t, e)
    ensures |Callers(u, j)| + One(Protects(s.threads[t], j)) == |Callers(s, j)| + One(Protects(u.threads[t], j))
  {
    var base := Callers(s, j) - {t};
    assert Callers(s, j) == if Protects(s.threads[t], j) then base + {t} else base;
    assert Callers(u, j) == if Protects(u.threads[t], j) then base + {t} else base;
  }

  lemma ExclusiveIf(s: State, u: State, t: nat, e: nat)
    requires Local(s, u, t, e) && Exclusive(s)
    requires Unregisters(u.threads[t]) ==> (Unregisters(s.threads[t]) && u.threads[t].at == s.threads[t].at)
                                           || forall v :: 0 <= v < |s.threads| && Unregisters(s.threads[v]) ==>
                                              s.threads[v].at != u.threads[t].at
    ensures Exclusive(u)
  {
  }

  lemma SoundOthers(s: State, u: State, t: nat, e: nat, v: nat)
    requires Local(s, u, t, e) && v < |s.threads| && v != t && Sound(s, s.threads[v])
    requires Traverses(s.threads[v]) ==> s.threads[v].at in u.list
    requires Unregisters(s.threads[v]) ==>
               || (s.threads[v].at != e && (e in s.list || u.list == s.list)
                  && (u.list == s.list || u.list == Without(s.list, e)) && NoDup(s.list))
               || (s.threads[v].at == e && u.list == s.list && !u.callbacks[e].freed && u.callbacks[e].pendingDelete
                   && (s.callbacks[e].rundown ==> u.callbacks[e].rundown && u.callbacks[e].refs <= s.callbacks[e].refs))
    ensures Sound(u, u.threads[v])
  {
    if Unregisters(s.threads[v]) && u.list != s.list { WithoutMembers(s.list, e, s.threads[v].at); }
  }

  lemma InHand(s: State, t: nat) returns (e: nat)
    requires Inv(s) && t < |s.threads| && !s.threads[t].Idle?
    ensures e == s.threads[t].at && e < |s.callbacks| && !s.callbacks[e].freed && Sound(s, s.threads[t])
  {
    e := s.threads[t].at;
    assert Sound(s, s.threads[t]);
  }

  /** Nobody but t holds a rundown reference on a callback whose count is zero. */
  lemma NoCallers(s: State, e: nat, v: nat)
    requires Counted(s) && e < |s.callbacks| && s.callbacks[e].refs == 0 && v < |s.threads|
    ensures !Protects(s.threads[v], e)
  {
    assert v in Callers(s, e) <==> Protects(s.threads[v], e);
  }

  lemma HasCallers(s: State, e: nat, v: nat)
    requires Counted(s) && e < |s.callbacks| && v < |s.threads| && Protects(s.threads[v], e)
    ensures s.callbacks[e].refs >= 1
  {
    assert v in Callers(s, e);
  }

  lemma RegisterKeeps(s: State, t: nat)
    requires Inv(s) && Enabled(s, Register(t))
    ensures Inv(Next(s, Register(t)))
  {
    var u := Next(s, Register(t));
    var n := |s.callbacks|;
    assert forall e: nat :: Callers(u, e) == Callers(s, e);
    forall v | 0 <= v < |s.threads| ensures Sound(u, u.threads[v]) && !Protects(s.threads[v], n) {
      assert Sound(s, s.threads[v]);
    }
    assert Callers(u, n) == {};
  }

  lemma SameSound(s: State, u: State, t: nat, e: nat)
    requires Inv(s) && Local(s, u, t, e) && u.callbacks == s.callbacks && u.list == s.list
    ensures forall v :: 0 <= v < |s.threads| && v != t ==> Sound(u, u.threads[v])
  {
    forall v | 0 <= v < |s.threads| && v != t ensures Sound(u, u.threads[v]) { assert Sound(s, s.threads[v]); }
  }

  lemma BeginCallsKeeps(s: State, t: nat)
    requires Inv(s) && Enabled(s, BeginCalls(t))
    ensures Inv(Next(s, BeginCalls(t)))
  {
    hide Locked, Counted, Exclusive;
    if s.list != [] {
      var u, e := Next(s, BeginCalls(t)), s.list[0];
      LockedIf(s, u, t, e);
      CountedIf(s, u, t, e);
      ExclusiveIf(s, u, t, e);
      SameSound(s, u, t, e);
    }
  }

  lemma VisitKeeps(s: State, t: nat)
    requires Inv(s) && Enabled(s, Visit(t))
    ensures Inv(Next(s, Visit(t)))
  {
    hide Locked, Counted, Exclusive;
    var e := InHand(s, t);
    var u := Next(s, Visit(t));
    LockedIf(s, u, t, e);
    CountedIf(s, u, t, e);
    ExclusiveIf(s, u, t, e);
    forall v | 0 <= v < |s.threads| && v != t ensures Sound(u, u.threads[v]) {
      assert Sound(s, s.threads[v]);
      SoundOthers(s, u, t, e, v);
    }
  }

  lemma ReturnKeeps(s: State, t: nat, success: bool)
    requires Inv(s) && Enabled(s, Return(t, success))
    ensures Inv(Next(s, Return(t, success)))
  {
    hide Locked, Counted, Exclusive;
    var e := InHand(s, t);
    var u := Next(s, Return(t, success));
    LockedIf(s, u, t, e);
    CountedIf(s, u, t, e);
    ExclusiveIf(s, u, t, e);
    SameSound(s, u, t, e);
  }

  lemma ReleaseKeeps(s: State, t: nat)
    requires Inv(s) && Enabled(s, Release(t))
    ensures Inv(Next(s, Release(t)))
  {
    hide Locked, Counted, Exclusive;
    var e := InHand(s, t);
    HasCallers(s, e, t);
    var u := Next(s, Release(t));
    LockedIf(s, u, t, e);
    CountedIf(s, u, t, e);
    ExclusiveIf(s, u, t, e);
    forall v | 0 <= v < |s.threads| && v != t ensures Sound(u, u.threads[v]) {
      assert Sound(s, s.threads[v]);
      SoundOthers(s, u, t, e, v);
    }
  }

  lemma {:induction false} AfterListed(list: seq<nat>, e: nat)
    ensures After(list, e).Some? ==> After(list, e).value in list
  {
    if |list| >= 2 && list[0] != e { AfterListed(list[1..], e); }
  }

  lemma FollowKeeps(s: State, t: nat)
    requires Inv(s) && Enabled(s, Follow(t))
    ensures Inv(Next(s, Follow(t)))
  {
    hide Locked, Counted, Exclusive, After;
    var e := InHand(s, t);
    AfterListed(s.list, e);
    var u := Next(s, Follow(t));
    LockedIf(s, u, t, e);
    CountedIf(s, u, t, e);
    ExclusiveIf(s, u, t, e);
    SameSound(s, u, t, e);
  }

  lemma UnregisterKeeps(s: State, t: nat, cookie: nat)
    requires Inv(s) && Enabled(s, Unregister(t, cookie))
    ensures Inv(Next(s, Unregister(t, cookie)))
  {
    hide Locked, Counted, Exclusive;
    var u := Next(s, Unregister(t, cookie));
    if cookie in s.list && cookie < |s.callbacks| && !s.callbacks[cookie].pendingDelete {
      LockedIf(s, u, t, cookie);
      CountedIf(s, u, t, cookie);
      forall v | 0 <= v < |s.threads| && Unregisters(s.threads[v]) ensures s.threads[v].at != cookie {
        assert Sound(s, s.threads[v]);
      }
      ExclusiveIf(s, u, t, cookie);
      forall v | 0 <= v < |s.threads| && v != t ensures Sound(u, u.threads[v]) {
        assert Sound(s, s.threads[v]);
        SoundOthers(s, u, t, cookie, v);
      }
    }
  }

  lemma WaitKeeps(s: State, step: Step)
    requires Inv(s) && Enabled(s, step) && (step.BeginWait? || step.EndWait?)
    ensures Inv(Next(s, step))
  {
    hide Locked, Counted, Exclusive;
    var t := step.t;
    var e := InHand(s, t);
    var u := Next(s, step);
    LockedIf(s, u, t, e);
    CountedIf(s, u, t, e);
    ExclusiveIf(s, u, t, e);
    forall v | 0 <= v < |s.threads| && v != t ensures Sound(u, u.threads[v]) {
      assert Sound(s, s.threads[v]);
      SoundOthers(s, u, t, e, v);
    }
  }

  lemma ExclusiveAt(s: State, t: nat, v: nat)
    requires Exclusive(s) && t < |s.threads| && v < |s.threads| && t != v && Unregisters(s.threads[t])
    requires Unregisters(s.threads[v])
    ensures s.threads[t].at != s.threads[v].at
  {
  }

  lemma LockedAt(s: State, v: nat)
    requires Locked(s) && v < |s.threads|
    ensures Holds(s.threads[v]) <==> s.lock == HeldBy(v)
  {
  }

  lemma UnlinkKeeps(s: State, t: nat)
    requires Inv(s) && Enabled(s, Unlink(t))
    ensures Inv(Next(s, Unlink(t)))
  {
    hide Locked, Counted, Exclusive, Without;
    var e := InHand(s, t);
    var u := Next(s, Unlink(t));
    LockedIf(s, u, t, e);
    CountedIf(s, u, t, e);
    ExclusiveIf(s, u, t, e);
    WithoutNoDup(s.list, e);
    forall j: nat ensures j in u.list <==> j in s.list && j != e { WithoutMembers(s.list, e, j); }
    forall k | 0 <= k < |u.list| ensures u.list[k] < |u.callbacks| && !u.callbacks[u.list[k]].freed {
      assert u.list[k] in s.list;
    }
    forall v | 0 <= v < |s.threads| && v != t ensures Sound(u, u.threads[v]) {
      assert Sound(s, s.threads[v]);
      LockedAt(s, v);
      NoCallers(s, e, v);
      if Unregisters(s.threads[v]) { ExclusiveAt(s, t, v); }
      SoundOthers(s, u, t, e, v);
    }
  }

  lemma FreeKeeps(s: State, t: nat)
    requires Inv(s) && Enabled(s, FreeIt(t))
    ensures Inv(Next(s, FreeIt(t)))
  {
    hide Locked, Counted, Exclusive;
    var e := InHand(s, t);
    var u := Next(s, FreeIt(t));
    LockedIf(s, u, t, e);
    CountedIf(s, u, t, e);
    ExclusiveIf(s, u, t, e);
    forall k | 0 <= k < |u.list| ensures !u.callbacks[u.list[k]].freed { assert u.list[k] in s.list; }
    forall v | 0 <= v < |s.threads| && v != t ensures Sound(u, u.threads[v]) {
      assert Sound(s, s.threads[v]);
      if Unregisters(s.threads[v]) { ExclusiveAt(s, t, v); }
      SoundOthers(s, u, t, e, v);
    }
  }

  /** Every step of every interleaving keeps the invariant. */
  lemma StepKeepsInv(s: State, step: Step)
    requires Inv(s) && Enabled(s, step)
    ensures Inv(Next(s, step))
  {
    hide Inv, Next;
    match step
    case Register(t) => RegisterKeeps(s, t);
    case BeginCalls(t) => BeginCallsKeeps(s, t);
    case Visit(t) => VisitKeeps(s, t);
    case Return(t, success) => ReturnKeeps(s, t, success);
    case Release(t) => ReleaseKeeps(s, t);
    case Follow(t) => FollowKeeps(s, t);
    case Unregister(t, cookie) => UnregisterKeeps(s, t, cookie);
    case BeginWait(_) => WaitKeeps(s, step);
    case EndWait(_) => WaitKeeps(s, step);
    case Unlink(t) => UnlinkKeeps(s, t);
    case FreeIt(t) => FreeKeeps(s, t);
  }

  // ------------------------------------------------------ runs and main results

  ghost predicate IsRun(states: seq<State>, steps: seq<Step>) {
    && |states| == |steps| + 1
    && forall k :: 0 <= k < |steps| ==> Enabled(states[k], steps[k]) && states[k + 1] == Next(states[k], steps[k])
  }

  lemma InitInv(threads: nat)
    ensures Inv(Init(threads))
  {
  }

  lemma {:induction false} RunKeepsInv(states: seq<State>, steps: seq<Step>, k: nat)
    requires IsRun(states, steps) && Inv(states[0]) && k < |states|
    ensures Inv(states[k])
  {
    hide Inv, Next, Enabled;
    if k > 0 {
      RunKeepsInv(states, steps, k - 1);
      StepKeepsInv(states[k - 1], steps[k - 1]);
    }
  }

  /** In every run no freed or unlinked callback is ever touched, and whatever callback a
      traverser has in hand is on the list, so its next link leads to a live entry. */
  lemma NothingDangles(states: seq<State>, steps: seq<Step>, threads: nat, k: nat, t: nat)
    requires IsRun(states, steps) && states[0] == Init(threads) && k < |states| && t < |states[k].threads|
    ensures var s, p := states[k], states[k].threads[t];
            && !s.bad
            && (!p.Idle? ==> p.at < |s.callbacks| && !s.callbacks[p.at].freed)
            && (Traverses(p) ==> p.at in s.list)
            && (Traverses(p) && After(s.list, p.at).Some? ==>
                  After(s.list, p.at).value in s.list && !Dangling(s, After(s.list, p.at).value))
  {
    hide Next, After;
    InitInv(threads);
    RunKeepsInv(states, steps, k);
    var s, p := states[k], states[k].threads[t];
    assert Sound(s, p);
    if !p.Idle? {
      var e := InHand(s, t);
      AfterListed(s.list, e);
    }
  }

  lemma {:induction false} GoneStaysGone(states: seq<State>, steps: seq<Step>, k: nat, m: nat, e: nat)
    requires IsRun(states, steps) && k <= m < |states|
    requires e < |states[k].callbacks| && states[k].callbacks[e].freed
    ensures e < |states[m].callbacks| && states[m].callbacks[e].freed
    decreases m - k
  {
    if k < m {
      assert Enabled(states[m - 1], steps[m - 1]) && states[m] == Next(states[m - 1], steps[m - 1]);
      GoneStaysGone(states, steps, k, m - 1, e);
    }
  }

  /** Once CmUnRegisterCallback has freed a callback, in every later state of the run nobody is
      calling it: it is not running and never runs again. */
  lemma NeverRunsAgain(states: seq<State>, steps: seq<Step>, threads: nat, k: nat, m: nat, t: nat, e: nat)
    requires IsRun(states, steps) && states[0] == Init(threads) && k < m < |states|
    requires steps[k] == FreeIt(t) && t < |states[k].threads| && states[k].threads[t] == Freeing(e)
    ensures forall v :: 0 <= v < |states[m].threads| ==> states[m].threads[v].Idle? || states[m].threads[v].at != e
  {
    hide Inv;
    InitInv(threads);
    RunKeepsInv(states, steps, k);
    var x := InHand(states[k], t);
    assert states[k + 1] == Next(states[k], steps[k]);
    GoneStaysGone(states, steps, k + 1, m, e);
    forall v | 0 <= v < |states[m].threads| && !states[m].threads[v].Idle? ensures states[m].threads[v].at != e {
      RunKeepsInv(states, steps, m);
      var y := InHand(states[m], v);
    }
  }

  // -------------------------------------------- unregistering from a callback
  //
  // A callback may call back into the registry. Such a call is a frame of its own, one more thread
  // of the model, and the frame that runs the callback takes no step until it has returned.

  /** A waiting unregistration can go on if and only if no thread is inside its callback. */
  lemma WaitEndsIff(s: State, t: nat)
    requires Inv(s) && t < |s.threads| && s.threads[t].Waiting?
    ensures Enabled(s, EndWait(t)) <==> forall v :: 0 <= v < |s.threads| ==> !Protects(s.threads[v], s.threads[t].at)
  {
    var e := InHand(s, t);
    assert s.callbacks[e].refs == |Callers(s, e)|;
    if s.callbacks[e].refs == 0 {
      forall v | 0 <= v < |s.threads| ensures !Protects(s.threads[v], e) { NoCallers(s, e, v); }
    } else {
      var v :| v in Callers(s, e);
    }
  }

  /** The frame `inner[t]` that t has called is at work. */
  predicate Suspended(s: State, inner: map<nat, nat>, t: nat) {
    t in inner && inner[t] < |s.threads| && !s.threads[inner[t]].Idle?
  }

  ghost predicate Nests(states: seq<State>, steps: seq<Step>, inner: map<nat, nat>) {
    IsRun(states, steps) && forall k :: 0 <= k < |steps| ==> !Suspended(states[k], inner, steps[k].t)
  }

  /** A frame inside callback e has called one of the group. */
  ghost predicate CalledIn(s: State, inner: map<nat, nat>, group: set<nat>, e: nat) {
    exists t :: 0 <= t < |s.threads| && s.threads[t] == Calling(e) && t in inner && inner[t] in group
  }

  predicate Unregistering(p: Place) { p.Marked? || p.Waiting? }

  /** Each of the group unregisters a callback that itself waits for one of the group. */
  ghost predicate Stuck(s: State, inner: map<nat, nat>, group: set<nat>) {
    forall v :: v in group ==>
      v < |s.threads| && Unregistering(s.threads[v]) && CalledIn(s, inner, group, s.threads[v].at)
  }

  /** A callback that unregisters itself is a group of one. */
  lemma SelfStuck(s: State, inner: map<nat, nat>, t: nat, v: nat)
    requires t < |s.threads| && v < |s.threads| && t in inner && inner[t] == v
    requires Unregistering(s.threads[v]) && s.threads[t] == Calling(s.threads[v].at)
    ensures Stuck(s, inner, {v})
  {
    assert CalledIn(s, inner, {v}, s.threads[v].at);
  }

  /** The group is where it was, or has only begun to wait. */
  ghost predicate SameGroup(s: State, u: State, group: set<nat>) {
    forall v :: v in group ==>
      && v < |s.threads| && v < |u.threads| && Unregistering(s.threads[v]) && Unregistering(u.threads[v])
      && u.threads[v].at == s.threads[v].at
  }

  lemma StuckStays(s: State, step: Step, inner: map<nat, nat>, group: set<nat>)
    requires Inv(s) && Enabled(s, step) && !Suspended(s, inner, step.t) && Stuck(s, inner, group)
    ensures Stuck(Next(s, step), inner, group) && SameGroup(s, Next(s, step), group)
  {
    hide Inv, Enabled, Next, Suspended, CalledIn;
    OthersStay(s, step);
    var u := Next(s, step);
    forall v | v in group
      ensures Unregistering(u.threads[v]) && u.threads[v].at == s.threads[v].at
      ensures CalledIn(u, inner, group, s.threads[v].at)
    {
      var t := CallerStays(s, step, inner, group, s.threads[v].at);
      if v == step.t { StillWaits(s, step, t); }
    }
  }

  lemma StuckBusy(s: State, inner: map<nat, nat>, group: set<nat>, v: nat)
    requires Stuck(s, inner, group) && v in group
    ensures v < |s.threads| && !s.threads[v].Idle?
  {
    hide CalledIn;
  }

  /** The frame inside the callback is suspended, so it stays there. */
  lemma CallerStays(s: State, step: Step, inner: map<nat, nat>, group: set<nat>, e: nat) returns (t: nat)
    requires Enabled(s, step) && !Suspended(s, inner, step.t) && Stuck(s, inner, group) && CalledIn(s, inner, group, e)
    ensures t < |s.threads| && s.threads[t] == Calling(e) && CalledIn(Next(s, step), inner, group, e)
  {
    hide Next, Enabled;
    t :| 0 <= t < |s.threads| && s.threads[t] == Calling(e) && t in inner && inner[t] in group;
    assert Suspended(s, inner, t) by { StuckBusy(s, inner, group, inner[t]); }
    hide Stuck;
    OthersStay(s, step);
    assert Next(s, step).threads[t] == Calling(e);
  }

  lemma OthersStay(s: State, step: Step)
    requires Enabled(s, step)
    ensures step.t < |s.threads| && |Next(s, step).threads| == |s.threads|
    ensures forall v :: 0 <= v < |s.threads| && v != step.t ==> Next(s, step).threads[v] == s.threads[v]
  {
  }

  lemma StillWaits(s: State, step: Step, t: nat)
    requires Inv(s) && Enabled(s, step) && Unregistering(s.threads[step.t])
    requires t < |s.threads| && s.threads[t] == Calling(s.threads[step.t].at)
    ensures Unregistering(Next(s, step).threads[step.t])
    ensures Next(s, step).threads[step.t].at == s.threads[step.t].at
  {
    hide Locked, Counted, Exclusive, Listed;
    var e := InHand(s, step.t);
    HasCallers(s, e, t);
  }

  /** Such a group never goes on: in particular a callback that unregisters itself never returns,
      and neither do two callbacks that unregister each other. */
  lemma {:induction false} StuckForever(states: seq<State>, steps: seq<Step>, inner: map<nat, nat>, group: set<nat>,
                                        k: nat, m: nat)
    requires Nests(states, steps, inner) && Inv(states[0]) && k <= m < |states| && Stuck(states[k], inner, group)
    ensures Stuck(states[m], inner, group) && SameGroup(states[k], states[m], group)
    decreases m - k
  {
    hide Inv, Next, Enabled, Suspended, CalledIn;
    if k < m {
      StuckForever(states, steps, inner, group, k, m - 1);
      RunKeepsInv(states, steps, m - 1);
      StuckStays(states[m - 1], steps[m - 1], inner, group);
    }
  }

  function ExampleStep(k: nat): Step {
    if k == 0 then Register(0) else if k == 1 then BeginCalls(0) else if k == 2 then Visit(0)
    else if k == 3 then Unregister(1, 0) else BeginWait(1)
  }

  function ExampleState(k: nat): State {
    if k == 0 then State([], [], Free, [Idle, Idle], false)
    else if k == 1 then State([Callback(false, 0, false, false)], [0], Free, [Idle, Idle], false)
    else if k == 2 then State([Callback(false, 0, false, false)], [0], HeldBy(0), [Walking(0), Idle], false)
    else if k == 3 then State([Callback(false, 1, false, false)], [0], Free, [Calling(0), Idle], false)
    else if k == 4 then State([Callback(true, 1, false, false)], [0], Free, [Calling(0), Marked(0)], false)
    else State([Callback(true, 1, true, false)], [0], Free, [Calling(0), Waiting(0)], false)
  }

  lemma ExampleGoes(k: nat)
    requires k < 5
    ensures var s, step := ExampleState(k), ExampleStep(k);
            Enabled(s, step) && !Suspended(s, map[0 := 1], step.t) && ExampleState(k + 1) == Next(s, step)
  {
  }

  /** A run from the start in which the callback called by frame 0 unregisters itself in frame 1. */
  lemma SelfUnregisters() returns (states: seq<State>, steps: seq<Step>)
    ensures Nests(states, steps, map[0 := 1]) && states[0] == Init(2)
    ensures Stuck(states[|steps|], map[0 := 1], {1})
  {
    hide Next, Enabled, Suspended, Stuck;
    steps, states := seq(5, k requires k >= 0 => ExampleStep(k)), seq(6, k requires k >= 0 => ExampleState(k));
    forall k | 0 <= k < 5
      ensures Enabled(states[k], steps[k]) && states[k + 1] == Next(states[k], steps[k])
      ensures !Suspended(states[k], map[0 := 1], steps[k].t)
    {
      ExampleGoes(k);
    }
    SelfStuck(states[5], map[0 := 1], 0, 1);
  }

  // ------------------------------------------------- registering and unregistering

  /** A registration puts a new callback at the end of the list. */
  lemma RegisterExact(s: State, t: nat)
    requires Enabled(s, Register(t))
    ensures var u, n := Next(s, Register(t)), |s.callbacks|;
            && u.list == s.list + [n] && |u.callbacks| == n + 1 && u.threads == s.threads
            && u.callbacks[n] == Callback(false, 0, false, false) && u.callbacks[..n] == s.callbacks
  {
  }

  /** An unregistration of a callback that is on the list and not pending deletion marks it, and any
      other does nothing. */
  lemma UnregisterExact(s: State, t: nat, cookie: nat)
    requires Inv(s) && Enabled(s, Unregister(t, cookie))
    ensures var u := Next(s, Unregister(t, cookie));
            if cookie in s.list && !s.callbacks[cookie].pendingDelete then
              && u.threads == s.threads[t := Marked(cookie)] && u.list == s.list
              && u.callbacks == s.callbacks[cookie := s.callbacks[cookie].(pendingDelete := true)]
            else u == s
  {
    hide Locked, Counted, Exclusive;
  }

  /** From there the thread goes on step by step, waiting only for callers and for the lock, until
      the callback is off the list and freed. */
  lemma UnregisterGoesOn(s: State, t: nat) returns (step: Step)
    requires Inv(s) && t < |s.threads| && Unregisters(s.threads[t])
    requires s.threads[t].Waiting? ==> forall v :: 0 <= v < |s.threads| ==> !Protects(s.threads[v], s.threads[t].at)
    requires s.threads[t].Unlinking? ==> s.lock.Free?
    ensures step.t == t && Enabled(s, step)
    ensures var e, q := s.threads[t].at, Next(s, step).threads[t];
            && e < |s.callbacks| == |Next(s, step).callbacks|
            && (s.threads[t].Marked? ==> q == Waiting(e)) && (s.threads[t].Waiting? ==> q == Unlinking(e))
            && (s.threads[t].Unlinking? ==> q == Freeing(e) && e !in Next(s, step).list)
            && (s.threads[t].Freeing? ==> q == Idle && Next(s, step).callbacks[e].freed && e !in Next(s, step).list)
  {
    var e := InHand(s, t);
    var p := s.threads[t];
    if p.Waiting? { WaitEndsIff(s, t); }
    WithoutMembers(s.list, e, e);
    hide Locked, Counted, Exclusive, Without;
    step := if p.Marked? then BeginWait(t) else if p.Waiting? then EndWait(t)
            else if p.Unlinking? then Unlink(t) else FreeIt(t);
  }
}
