/**
 The lazy writer's scans and the waiters for them: CcWaitForCurrentLazyWriterActivity puts a waiter
 on the post-tick queue, and a scan moves it to the regular work queue, where a worker signals it.
 Any number of scans may overlap: the timer can be set again while one is under way, and a worker
 that has written runs one of its own. Each step is one critical section.
 */
module LazyScan {
  import opened Sequences

  /** A scan has started, is past its collection of the post-tick queue with waiters left to post,
      or is over. */
  datatype Scan = Before | After(toPost: seq<nat>) | Over

  /** `timer` is whether the scan timer is set, `queued` the number of scan items on the regular
      queue. `waited` and `posted` are history: who came, and who was handed to a worker. */
  datatype State = State(
    timer: bool,
    queued: nat,
    scans: seq<Scan>,
    scanActive: bool,
    otherWork: bool,
    postTick: seq<nat>,
    waited: seq<nat>,
    posted: seq<nat>)

  datatype Step =
    | Wait(w: nat)
    | Schedule
    | Force
    | Fire
    | Start
    | RunOwn
    | Collect(i: nat)
    | Post(i: nat)
    | Finish(i: nat, deferred: bool)

  const INIT := State(false, 0, [], false, false, [], [], [])

  /** CcScheduleLazyWriteScan sets the timer and the flag whatever the delay. */
  function Scheduled(s: State): State { s.(timer := true, scanActive := true) }

  predicate Enabled(s: State, step: Step) {
    match step
    case Wait(_) => true
    case Schedule => true
    case Force => true
    case Fire => s.timer
    case Start => s.queued > 0
    case RunOwn => true
    case Collect(i) => i < |s.scans| && s.scans[i].Before?
    case Post(i) => i < |s.scans| && s.scans[i].After? && s.scans[i].toPost != []
    case Finish(i, _) => i < |s.scans| && s.scans[i] == After([])
  }

  /** Schedule is a dirty mark or a deferred write, Force a write that has to wait, RunOwn the scan
      of a worker that has written. */
  function Next(s: State, step: Step): State
    requires Enabled(s, step)
  {
    match step
    case Wait(w) =>
      var t := s.(postTick := s.postTick + [w], otherWork := true, waited := s.waited + [w]);
      if !s.scanActive then Scheduled(t) else t
    case Schedule => if !s.scanActive then Scheduled(s) else s
    case Force => Scheduled(s)
    case Fire => s.(timer := false, queued := s.queued + 1)
    case Start => s.(queued := s.queued - 1, scans := s.scans + [Before])
    case RunOwn => s.(scans := s.scans + [Before])
    case Collect(i) =>
      if s.otherWork then s.(scans := s.scans[i := After(s.postTick)], postTick := [], otherWork := false)
      else s.(scans := s.scans[i := After([])])
    case Post(i) =>
      var toPost := s.scans[i].toPost;
      s.(scans := s.scans[i := After(toPost[1..])], posted := s.posted + [toPost[0]])
    case Finish(i, deferred) =>
      var t := s.(scans := s.scans[i := Over]);
      if deferred then Scheduled(t) else t.(scanActive := false)
  }

  // ------------------------------------------------------------ the invariant

  /** A collection is still to come. */
  ghost predicate Coming(s: State) {
    s.timer || s.queued > 0 || exists i :: 0 <= i < |s.scans| && s.scans[i].Before?
  }

  ghost predicate Quiet(s: State) {
    !s.timer && s.queued == 0 && forall i :: 0 <= i < |s.scans| ==> s.scans[i].Over?
  }

  /** How many of those who came a collection has taken. */
  function Collected(s: State): int { |s.waited| - |s.postTick| }

  /** How often waiter x is in a scan, taken by its collection and not posted yet. */
  function Taken(scans: seq<Scan>, x: nat): nat {
    if scans == [] then 0 else Taken(scans[..|scans| - 1], x) + Load(scans[|scans| - 1], x)
  }

  function Load(scan: Scan, x: nat): nat { if scan.After? then Occurrences(scan.toPost, x) else 0 }

  lemma {:induction false} TakenUpdate(scans: seq<Scan>, i: nat, new_: Scan, x: nat)
    requires i < |scans|
    ensures Taken(scans[i := new_], x) + Load(scans[i], x) == Taken(scans, x) + Load(new_, x)
  {
    hide Load;
    var n := |scans| - 1;
    if i == n {
      assert scans[i := new_][..n] == scans[..n];
    } else {
      assert scans[i := new_][..n] == scans[..n][i := new_];
      TakenUpdate(scans[..n], i, new_, x);
    }
  }

  lemma TakenMore(scans: seq<Scan>, new_: Scan, x: nat)
    ensures Taken(scans + [new_], x) == Taken(scans, x) + Load(new_, x)
  {
    assert (scans + [new_])[..|scans|] == scans;
  }

  /** The first k who came are posted or in a scan, each as often as it came. */
  ghost predicate Conserved(waited: seq<nat>, k: int, posted: seq<nat>, scans: seq<Scan>) {
    0 <= k <= |waited| && forall x :: Occurrences(waited[..k], x) == Occurrences(posted, x) + Taken(scans, x)
  }

  /** The flag is up only while a scan is under way or to come. OtherWork says whether somebody
      waits, and the queue is the last who came. */
  ghost predicate Flagged(s: State) {
    && (s.scanActive ==> !Quiet(s)) && (s.otherWork <==> s.postTick != [])
    && |s.postTick| <= |s.waited| && s.postTick == s.waited[Collected(s)..]
  }

  ghost predicate Inv(s: State) {
    Flagged(s) && Conserved(s.waited, Collected(s), s.posted, s.scans)
  }

  lemma CollectConserves(waited: seq<nat>, k: int, posted: seq<nat>, scans: seq<Scan>, i: nat)
    requires Conserved(waited, k, posted, scans) && i < |scans| && scans[i].Before?
    ensures Conserved(waited, |waited|, posted, scans[i := After(waited[k..])])
  {
    hide Taken, Occurrences;
    forall x ensures Occurrences(waited, x) == Occurrences(posted, x) + Taken(scans[i := After(waited[k..])], x) {
      TakenUpdate(scans, i, After(waited[k..]), x);
      OccurrencesConcat(waited[..k], waited[k..], x);
      assert waited == waited[..k] + waited[k..];
    }
    assert waited[..|waited|] == waited;
  }

  lemma PostConserves(waited: seq<nat>, k: int, posted: seq<nat>, scans: seq<Scan>, i: nat)
    requires Conserved(waited, k, posted, scans) && i < |scans| && scans[i].After? && scans[i].toPost != []
    ensures Conserved(waited, k, posted + [scans[i].toPost[0]], scans[i := After(scans[i].toPost[1..])])
  {
    hide Taken, Occurrences;
    var toPost := scans[i].toPost;
    forall x
      ensures Occurrences(waited[..k], x) ==
              Occurrences(posted + [toPost[0]], x) + Taken(scans[i := After(toPost[1..])], x)
    {
      TakenUpdate(scans, i, After(toPost[1..]), x);
      OccurrencesAppend(posted, toPost[0], x);
      HeadOccurs(toPost, x);
    }
  }

  lemma HeadOccurs(s: seq<nat>, x: nat)
    requires s != []
    ensures Occurrences(s, x) == Occurrences(s[1..], x) + if x == s[0] then 1 else 0
  {
  }

  lemma EmptyConserves(waited: seq<nat>, k: int, posted: seq<nat>, scans: seq<Scan>, i: nat, new_: Scan)
    requires Conserved(waited, k, posted, scans) && i < |scans| && !(scans[i].After? && scans[i].toPost != [])
    requires !(new_.After? && new_.toPost != [])
    ensures Conserved(waited, k, posted, scans[i := new_])
  {
    hide Taken;
    forall x ensures Taken(scans[i := new_], x) == Taken(scans, x) { TakenUpdate(scans, i, new_, x); }
  }

  lemma StartConserves(waited: seq<nat>, k: int, posted: seq<nat>, scans: seq<Scan>)
    requires Conserved(waited, k, posted, scans)
    ensures Conserved(waited, k, posted, scans + [Before])
  {
    hide Taken;
    forall x ensures Taken(scans + [Before], x) == Taken(scans, x) { TakenMore(scans, Before, x); }
  }

  lemma WaitConserves(waited: seq<nat>, w: nat, k: int, posted: seq<nat>, scans: seq<Scan>)
    requires Conserved(waited, k, posted, scans)
    ensures Conserved(waited + [w], k, posted, scans)
  {
    assert (waited + [w])[..k] == waited[..k];
  }

  lemma StepFlagged(s: State, step: Step)
    requires Flagged(s) && Enabled(s, step)
    ensures Flagged(Next(s, step))
  {
    var t := Next(s, step);
    if step.Wait? {
      assert t.postTick == t.waited[Collected(t)..];
      assert t.timer || Quiet(t) == Quiet(s);
    } else if step.Start? || step.RunOwn? {
      assert t.scans[|s.scans|].Before?;
    } else if step.Collect? || step.Post? {
      assert t.scans[step.i].After?;
    }
  }

  lemma StepConserves(s: State, step: Step)
    requires Inv(s) && Enabled(s, step)
    ensures Conserved(Next(s, step).waited, Collected(Next(s, step)), Next(s, step).posted, Next(s, step).scans)
  {
    hide Conserved;
    var k := Collected(s);
    match step
    case Wait(w) => WaitConserves(s.waited, w, k, s.posted, s.scans);
    case Collect(i) =>
      if s.otherWork { CollectConserves(s.waited, k, s.posted, s.scans, i); }
      else { EmptyConserves(s.waited, k, s.posted, s.scans, i, After([])); }
    case Post(i) => PostConserves(s.waited, k, s.posted, s.scans, i);
    case Start => StartConserves(s.waited, k, s.posted, s.scans);
    case RunOwn => StartConserves(s.waited, k, s.posted, s.scans);
    case Finish(i, _) => EmptyConserves(s.waited, k, s.posted, s.scans, i, Over);
    case _ =>
  }

  /** Every step keeps the invariant, however scans overlap. */
  lemma StepKeepsInv(s: State, step: Step)
    requires Inv(s) && Enabled(s, step)
    ensures Inv(Next(s, step))
  {
    hide Flagged, Conserved;
    StepFlagged(s, step);
    StepConserves(s, step);
  }

  ghost predicate Run(s: State, steps: seq<Step>, t: State)
    decreases |steps|
  {
    if steps == [] then s == t else Enabled(s, steps[0]) && Run(Next(s, steps[0]), steps[1..], t)
  }

  /** In every run from the start, however scans overlap, no waiter is lost or posted twice. */
  lemma {:induction false} RunKeepsInv(s: State, steps: seq<Step>, t: State)
    requires Inv(s) && Run(s, steps, t)
    ensures Inv(t)
    decreases |steps|
  {
    hide Inv, Next, Enabled;
    if steps != [] {
      StepKeepsInv(s, steps[0]);
      RunKeepsInv(Next(s, steps[0]), steps[1..], t);
    }
  }

  lemma InitInv()
    ensures Inv(INIT)
  {
  }

  // ----------------------------------------------------- which waiters are taken

  /** In every run, whatever else happens: everybody who waits is taken by the first collection of
      any scan, and nobody is taken without one. */
  lemma {:induction false} CollectionTakesAll(s: State, steps: seq<Step>, t: State)
    requires Inv(s) && Run(s, steps, t)
    ensures if exists k :: 0 <= k < |steps| && steps[k].Collect? then Collected(t) >= |s.waited|
            else Collected(t) == Collected(s)
    ensures |t.waited| >= |s.waited| && Collected(t) >= Collected(s)
    decreases |steps|
  {
    if steps != [] {
      StepKeepsInv(s, steps[0]);
      StepTakes(s, steps[0]);
      hide Next, Inv, Enabled, Collected;
      CollectionTakesAll(Next(s, steps[0]), steps[1..], t);
      FirstOrLater(steps);
    }
  }

  lemma StepTakes(s: State, step: Step)
    requires Inv(s) && Enabled(s, step)
    ensures Collected(Next(s, step)) == if step.Collect? then |s.waited| else Collected(s)
    ensures |Next(s, step).waited| >= |s.waited| >= Collected(s)
  {
  }

  lemma FirstOrLater(steps: seq<Step>)
    requires steps != []
    ensures (exists k :: 0 <= k < |steps| && steps[k].Collect?)
       <==> steps[0].Collect? || exists k :: 0 <= k < |steps[1..]| && steps[1..][k].Collect?
  {
    if exists k :: 0 <= k < |steps| && steps[k].Collect? {
      var k :| 0 <= k < |steps| && steps[k].Collect?;
      if k > 0 { assert steps[1..][k - 1].Collect?; }
    }
    if exists k :: 0 <= k < |steps[1..]| && steps[1..][k].Collect? {
      var k :| 0 <= k < |steps[1..]| && steps[1..][k].Collect?;
      assert steps[k + 1].Collect?;
    }
  }

  // ----------------------------------------- what the scans under way come to

  /** The scans go on by themselves: nobody comes, and no deferred write brings a scan back. */
  predicate Own(step: Step) {
    step.Fire? || step.Start? || step.Collect? || step.Post? || (step.Finish? && !step.deferred)
  }

  ghost predicate AllOwn(steps: seq<Step>) {
    forall k :: 0 <= k < |steps| ==> Own(steps[k])
  }

  /** Without a collection to come none comes; with one to come one stays to come until it is made. */
  lemma OwnStep(s: State, step: Step)
    requires Enabled(s, step) && Own(step)
    ensures !Coming(s) ==> !step.Collect? && !Coming(Next(s, step))
    ensures Coming(s) && !step.Collect? ==> Coming(Next(s, step))
  {
    var t := Next(s, step);
    if step.Start? { assert t.scans[|s.scans|].Before?; }
    if Coming(s) && !s.timer && s.queued == 0 && !step.Collect? {
      var i :| 0 <= i < |s.scans| && s.scans[i].Before?;
      assert t.scans[i].Before?;
    }
    if !Coming(s) {
      forall i | 0 <= i < |t.scans| ensures !t.scans[i].Before? { assert !s.scans[i].Before?; }
    }
  }

  /** When the scans have gone quiet by themselves, there was a collection exactly if one was to come. */
  lemma {:induction false} QuietAfter(s: State, steps: seq<Step>, t: State)
    requires Run(s, steps, t) && AllOwn(steps) && Quiet(t)
    ensures Coming(s) <==> exists k :: 0 <= k < |steps| && steps[k].Collect?
    decreases |steps|
  {
    if steps != [] {
      assert Own(steps[0]);
      OwnStep(s, steps[0]);
      assert AllOwn(steps[1..]);
      FirstOrLater(steps);
      QuietAfter(Next(s, steps[0]), steps[1..], t);
    }
  }

  lemma {:induction false} NobodyComes(s: State, steps: seq<Step>, t: State)
    requires Run(s, steps, t) && AllOwn(steps)
    ensures t.waited == s.waited
    decreases |steps|
  {
    if steps != [] {
      assert Own(steps[0]) && AllOwn(steps[1..]);
      NobodyComes(Next(s, steps[0]), steps[1..], t);
    }
  }

  lemma {:induction false} NothingTaken(scans: seq<Scan>, x: nat)
    requires forall i :: 0 <= i < |scans| ==> scans[i].Over?
    ensures Taken(scans, x) == 0
  {
    if scans != [] { NothingTaken(scans[..|scans| - 1], x); }
  }

  /** Everybody who came has been handed to a worker, as often as it came. */
  ghost predicate EverybodyPosted(s: State) {
    forall x :: Occurrences(s.posted, x) == Occurrences(s.waited, x)
  }

  /** Who calls CcWaitForCurrentLazyWriterActivity is posted to a worker, once the scans under way
      have gone quiet, if and only if a scan was before its collection or the flag was down, so that
      the call itself set the timer. Otherwise the call leaves everybody who waits behind. */
  lemma WaiterServedIff(s: State, w: nat, steps: seq<Step>, t: State)
    requires Inv(s) && Run(Next(s, Wait(w)), steps, t) && AllOwn(steps) && Quiet(t)
    ensures t.waited == s.waited + [w]
    ensures if Coming(s) || !s.scanActive then t.postTick == [] && EverybodyPosted(t)
            else t.postTick == s.postTick + [w]
  {
    var n := Next(s, Wait(w));
    StepKeepsInv(s, Wait(w));
    WaitComing(s, w);
    hide Next, Inv, Coming, Collected;
    RunKeepsInv(n, steps, t);
    CollectionTakesAll(n, steps, t);
    QuietAfter(n, steps, t);
    NobodyComes(n, steps, t);
    if Coming(n) { AllPosted(t); } else { Behind(s, w, t); }
  }

  lemma WaitComing(s: State, w: nat)
    ensures var n := Next(s, Wait(w));
            (Coming(n) <==> Coming(s) || !s.scanActive) && n.waited == s.waited + [w] && Collected(n) == Collected(s)
  {
  }

  lemma Behind(s: State, w: nat, t: State)
    requires Inv(s) && Inv(t) && t.waited == s.waited + [w] && Collected(t) == Collected(s)
    ensures t.postTick == s.postTick + [w]
  {
    hide Conserved;
  }

  lemma AllPosted(t: State)
    requires Inv(t) && Quiet(t) && Collected(t) >= |t.waited|
    ensures t.postTick == [] && EverybodyPosted(t)
  {
    forall x ensures Taken(t.scans, x) == 0 { NothingTaken(t.scans, x); }
    assert t.waited[..|t.waited|] == t.waited;
  }

  /** Somebody is left behind only by a scan that was past its collection. */
  lemma LeftBehindBy(s: State)
    requires Inv(s) && !(Coming(s) || !s.scanActive)
    ensures exists i :: 0 <= i < |s.scans| && s.scans[i].After?
  {
    assert !Quiet(s);
    var i :| 0 <= i < |s.scans| && !s.scans[i].Over?;
    assert s.scans[i].After?;
  }

  // --------------------------------------------------------------- termination

  function Weight(scan: Scan): nat {
    match scan
    case Before => 2
    case After(toPost) => 1 + |toPost|
    case Over => 0
  }

  function Weights(scans: seq<Scan>): nat {
    if scans == [] then 0 else Weights(scans[..|scans| - 1]) + Weight(scans[|scans| - 1])
  }

  /** Steps the scans have left before they are quiet, and who waits. */
  function Left(s: State): nat {
    (if s.timer then 4 else 0) + 3 * s.queued + Weights(s.scans) + |s.postTick|
  }

  lemma {:induction false} WeightsUpdate(scans: seq<Scan>, i: nat, x: Scan)
    requires i < |scans|
    ensures Weights(scans[i := x]) + Weight(scans[i]) == Weights(scans) + Weight(x)
  {
    var n := |scans| - 1;
    if i == n {
      assert scans[i := x][..n] == scans[..n];
    } else {
      assert scans[i := x][..n] == scans[..n][i := x];
      WeightsUpdate(scans[..n], i, x);
    }
  }

  lemma OwnStepShrinks(s: State, step: Step)
    requires Enabled(s, step) && Own(step) && (s.otherWork <==> s.postTick != [])
    ensures Left(Next(s, step)) == Left(s) - 1
  {
    hide Weights;
    var t := Next(s, step);
    if step.Start? {
      assert t.scans[..|s.scans|] == s.scans;
      WeightsMore(s.scans, Before);
    } else if !step.Fire? {
      WeightsUpdate(s.scans, step.i, t.scans[step.i]);
    }
  }

  lemma WeightsMore(scans: seq<Scan>, x: Scan)
    ensures Weights(scans + [x]) == Weights(scans) + Weight(x)
  {
    assert (scans + [x])[..|scans|] == scans;
  }

  /** Left to themselves the scans take at most Left(s) steps. */
  lemma {:induction false} ScansEnd(s: State, steps: seq<Step>, t: State)
    requires Inv(s) && Run(s, steps, t) && AllOwn(steps)
    ensures |steps| + Left(t) == Left(s)
    decreases |steps|
  {
    if steps != [] {
      assert Own(steps[0]) && AllOwn(steps[1..]);
      StepKeepsInv(s, steps[0]);
      OwnStepShrinks(s, steps[0]);
      ScansEnd(Next(s, steps[0]), steps[1..], t);
    }
  }

  /** While the scans are not quiet one of them can step. */
  lemma OwnStepExists(s: State) returns (step: Step)
    requires !Quiet(s)
    ensures Own(step) && Enabled(s, step)
  {
    if s.timer { return Fire; }
    if s.queued > 0 { return Start; }
    var i: nat :| i < |s.scans| && !s.scans[i].Over?;
    step := if s.scans[i].Before? then Collect(i) else if s.scans[i].toPost != [] then Post(i) else Finish(i, false);
  }

  // ------------------------------------------------------------------- examples

  ghost predicate LeavesBehind(steps: seq<Step>, t: State) {
    Run(INIT, steps, t) && Quiet(t) && !t.scanActive && t.postTick == [1] && t.posted == []
  }

  lemma OneStep(s: State, step: Step, n: State, steps: seq<Step>, t: State)
    requires Enabled(s, step) && n == Next(s, step) && Run(n, steps, t)
    ensures Run(s, [step] + steps, t)
  {
    assert ([step] + steps)[1..] == steps;
  }

  /** One scan has started and nobody waits. */
  const STARTED := State(false, 0, [Before], true, false, [], [], [])

  lemma StartedFromInit(steps: seq<Step>, t: State)
    requires Run(STARTED, steps, t)
    ensures Run(INIT, [Schedule] + ([Fire] + ([Start] + steps)), t)
  {
    hide Run;
    var a, b := State(true, 0, [], true, false, [], [], []), State(false, 1, [], true, false, [], [], []);
    OneStep(b, Start, STARTED, steps, t);
    OneStep(a, Fire, b, [Start] + steps, t);
    OneStep(INIT, Schedule, a, [Fire] + ([Start] + steps), t);
  }

  /** A run that leaves its waiter on the queue with no scan to come. */
  lemma WaiterLeftBehind()
    ensures exists steps, t :: LeavesBehind(steps, t)
  {
    hide Run;
    var d := State(false, 0, [After([])], true, false, [], [], []);
    var e := State(false, 0, [After([])], true, true, [1], [1], []);
    var t := State(false, 0, [Over], false, true, [1], [1], []);
    RunNone(t);
    OneStep(e, Finish(0, false), t, [], t);
    OneStep(d, Wait(1), e, [Finish(0, false)] + [], t);
    var steps := [Wait(1)] + ([Finish(0, false)] + []);
    OneStep(STARTED, Collect(0), d, steps, t);
    StartedFromInit([Collect(0)] + steps, t);
    assert LeavesBehind([Schedule] + ([Fire] + ([Start] + ([Collect(0)] + steps))), t);
  }

  lemma RunNone(t: State)
    ensures Run(t, [], t)
  {
  }

  ghost predicate FlagDown(steps: seq<Step>, t: State) {
    Run(INIT, steps, t) && !t.scanActive && |t.scans| == 2 && t.scans[0].Over? && t.scans[1].Before?
  }

  /** Scans overlap, and the first to end takes the flag down under the other. */
  lemma OverlapDropsFlag()
    ensures exists steps, t :: FlagDown(steps, t)
  {
    hide Run;
    var d := State(false, 0, [Before, Before], true, false, [], [], []);
    var e := State(false, 0, [After([]), Before], true, false, [], [], []);
    var t := State(false, 0, [Over, Before], false, false, [], [], []);
    RunNone(t);
    OneStep(e, Finish(0, false), t, [], t);
    OneStep(d, Collect(0), e, [Finish(0, false)] + [], t);
    var steps := [Collect(0)] + ([Finish(0, false)] + []);
    OneStep(STARTED, RunOwn, d, steps, t);
    StartedFromInit([RunOwn] + steps, t);
    assert FlagDown([Schedule] + ([Fire] + ([Start] + ([RunOwn] + steps))), t);
  }

  /** The next call that finds the flag down brings everybody back in. */
  lemma NextCallServesAll(s: State, step: Step, steps: seq<Step>, t: State)
    requires Inv(s) && !s.scanActive && (step.Wait? || step.Schedule?) && Run(Next(s, step), steps, t) && AllOwn(steps)
    requires Quiet(t)
    ensures t.postTick == [] && EverybodyPosted(t)
  {
    var n := Next(s, step);
    StepKeepsInv(s, step);
    assert Coming(n);
    hide Next, Inv, Coming, Collected;
    RunKeepsInv(n, steps, t);
    CollectionTakesAll(n, steps, t);
    QuietAfter(n, steps, t);
    NobodyComes(n, steps, t);
    AllPosted(t);
  }

  // ----------------------------------------------------- what brings a scan about

  /** A forced call always brings a scan, an ordinary one if ScanActive was clear, and a scan that ends
      with deferred writes left brings the next. */
  lemma BringsScan(s: State, step: Step)
    requires Enabled(s, step)
    ensures step.Force? || (step.Finish? && step.deferred) ==> Coming(Next(s, step)) && Next(s, step).scanActive
    ensures step.Schedule? || step.Wait? ==> (Coming(Next(s, step)) <==> Coming(s) || !s.scanActive)
    ensures step.Finish? && !step.deferred ==> !Next(s, step).scanActive
  {
    var t := Next(s, step);
    if (step.Schedule? || step.Wait?) && s.scanActive { assert Coming(t) <==> Coming(s); }
  }

  /** The waiters that scan i posts in a run. */
  ghost function PostedBy(s: State, steps: seq<Step>, i: nat): seq<nat>
    decreases |steps|
  {
    if steps == [] || !Enabled(s, steps[0]) then []
    else
      var n := Next(s, steps[0]);
      (if steps[0] == Post(i) && |n.posted| >= |s.posted| then n.posted[|s.posted|..] else [])
      + PostedBy(n, steps[1..], i)
  }

  lemma PostEffect(s: State, step: Step, i: nat)
    requires Enabled(s, step) && i < |s.scans| && s.scans[i].After?
    ensures var n := Next(s, step);
            && i < |n.scans| && !n.scans[i].Before? && (n.scans[i].Over? ==> s.scans[i].toPost == [])
            && (step != Post(i) && n.scans[i].After? ==> n.scans[i] == s.scans[i])
            && (step == Post(i) ==>
                  && n.scans[i].After? && |n.posted| == |s.posted| + 1
                  && s.scans[i].toPost == n.posted[|s.posted|..] + n.scans[i].toPost)
  {
    if step == Post(i) { assert Next(s, step).posted[|s.posted|..] == [s.scans[i].toPost[0]]; }
  }

  /** In every run a scan posts the waiters it collected in the order in which they came. */
  lemma {:induction false} PostsInOrder(s: State, steps: seq<Step>, t: State, i: nat)
    requires Run(s, steps, t) && i < |s.scans| && s.scans[i].After?
    ensures i < |t.scans| && !t.scans[i].Before?
    ensures s.scans[i].toPost == PostedBy(s, steps, i) + if t.scans[i].After? then t.scans[i].toPost else []
    decreases |steps|
  {
    hide Next, Enabled;
    if steps != [] {
      var n := Next(s, steps[0]);
      PostEffect(s, steps[0], i);
      if n.scans[i].After? { PostsInOrder(n, steps[1..], t, i); } else { OverStaysOver(n, steps[1..], t, i); }
    }
  }

  lemma {:induction false} OverStaysOver(s: State, steps: seq<Step>, t: State, i: nat)
    requires Run(s, steps, t) && i < |s.scans| && s.scans[i].Over?
    ensures i < |t.scans| && t.scans[i].Over? && PostedBy(s, steps, i) == []
    decreases |steps|
  {
    if steps != [] { OverStaysOver(Next(s, steps[0]), steps[1..], t, i); }
  }

  /** A collection takes the queue as it stands. */
  lemma CollectsQueue(s: State, i: nat)
    requires Inv(s) && Enabled(s, Collect(i))
    ensures Next(s, Collect(i)).scans[i] == After(s.postTick) && Next(s, Collect(i)).postTick == []
  {
  }
}
