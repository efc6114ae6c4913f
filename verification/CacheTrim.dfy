/**
 Writing dirty views back and trimming the view cache. What the file systems answer comes in as
 one answer per attempt; a call that runs out of answers is still under way.
 */
module CacheTrim {
  import opened Sequences
  import opened VacbCache
  import opened CacheManager

  // ---------------------------------------------------------------- evicting

  /** Views of s that are gone from t had a single reference; the others are as they were. */
  ghost predicate Evicted(s: Cache, t: Cache) {
    && t.vacbs.Keys <= s.vacbs.Keys && t.views.Keys == s.views.Keys && t.section == s.section && t.disk == s.disk
    && t.dirtyList == s.dirtyList
    && (forall v :: v in t.vacbs ==>
       t.vacbs[v] == s.vacbs[v] && v in t.holders && v in s.holders && t.holders[v] == s.holders[v])
    && (forall v :: v in s.vacbs && v !in t.vacbs ==> s.vacbs[v].refs == 1)
  }

  lemma EvictedOneMore(s: Cache, t: Cache, v: nat)
    requires Inv(t) && Evicted(s, t) && v in t.vacbs && t.vacbs[v].refs == 1 && t.vacbs[v].file in t.views
    ensures Evicted(s, Evict(t, v)) && |Evict(t, v).vacbs| == |t.vacbs| - 1
  {
    hide Inv, Without;
    var u := Evict(t, v);
    assert u.vacbs.Keys == t.vacbs.Keys - {v};
    assert |u.vacbs| == |u.vacbs.Keys| && |t.vacbs| == |t.vacbs.Keys|;
  }

  lemma EvictedNone(s: Cache)
    requires Inv(s)
    ensures Evicted(s, s)
  {
    hide Linked, Viewed, Totalled;
  }

  /** A clean view that is mapped has no place in the cache: the trim asserts that there is none. */
  predicate Sound(b: Vacb) { b.mapped == 0 || b.dirty }

  ghost predicate AllSound(s: Cache) {
    forall v :: v in s.vacbs ==> Sound(s.vacbs[v])
  }

  lemma LruEntry(t: Cache, i: nat)
    requires Inv(t) && i < |t.lru|
    ensures t.lru[i] in t.vacbs && Without(t.lru, t.lru[i]) == t.lru[..i] + t.lru[i + 1..]
    ensures forall j :: 0 <= j < i ==> t.lru[j] != t.lru[i]
  {
    assert t.lru[i] in t.lru;
    WithoutAt(t.lru, i);
  }

  /** The walk is at position i: all entries before are in use, and `asserted` tells whether they
      are sound. */
  ghost predicate Seen(t: Cache, i: nat, asserted: bool) {
    && i <= |t.lru| && (forall j :: 0 <= j < i ==> t.lru[j] in t.vacbs && t.vacbs[t.lru[j]].refs >= 2)
    && (asserted <==> forall j :: 0 <= j < i ==> t.lru[j] in t.vacbs && Sound(t.vacbs[t.lru[j]]))
  }

  lemma SeenNext(t: Cache, i: nat, asserted: bool)
    requires Seen(t, i, asserted) && i < |t.lru| && t.lru[i] in t.vacbs && t.vacbs[t.lru[i]].refs >= 2
    ensures Seen(t, i + 1, asserted && Sound(t.vacbs[t.lru[i]]))
  {
  }

  lemma SeenEvicted(t: Cache, i: nat, asserted: bool)
    requires Inv(t) && Seen(t, i, asserted) && i < |t.lru| && t.lru[i] in t.vacbs && t.vacbs[t.lru[i]].file in t.views
    ensures Seen(Evict(t, t.lru[i]), i, asserted) && |Evict(t, t.lru[i]).lru| == |t.lru| - 1
  {
    hide Inv, Without;
    LruEntry(t, i);
    var u := Evict(t, t.lru[i]);
    assert forall j :: 0 <= j < i ==> u.lru[j] == t.lru[j];
  }

  /** What one look at every entry of the LRU list tells of all views. */
  lemma Walked(s: Cache, t: Cache, asserted: bool)
    requires Inv(s) && Inv(t) && Evicted(s, t) && Seen(t, |t.lru|, asserted)
    ensures (forall v :: v in t.vacbs ==> t.vacbs[v].refs >= 2) && (asserted <==> AllSound(s))
  {
    hide Viewed, Totalled;
    forall v | v in t.vacbs ensures t.vacbs[v].refs >= 2 && (asserted ==> Sound(t.vacbs[v])) {
      assert v in t.lru;
      var j :| 0 <= j < |t.lru| && t.lru[j] == v;
    }
    forall v | v in s.vacbs && v !in t.vacbs ensures Sound(s.vacbs[v]) { ReferencedAt(s, v); }
    if AllSound(s) {
      forall j | 0 <= j < |t.lru| ensures t.lru[j] in t.vacbs && Sound(t.vacbs[t.lru[j]]) {
        assert t.lru[j] in s.vacbs;
      }
    }
  }

  /** The LRU walk of CcRosTrimCache: it evicts every view that nobody uses, whatever the target,
      and reports at most the target. `asserted` is whether its assertion held throughout. */
  method TrimPass(m: Manager, target: nat) returns (left: nat, freed: nat, asserted: bool)
    requires Inv(m.State())
    modifies m
    ensures Inv(m.State()) && (old(Covered(m.State())) ==> Covered(m.State()))
    ensures Evicted(old(m.State()), m.State()) && forall v :: v in m.vacbs ==> m.vacbs[v].refs >= 2
    ensures |m.vacbs| <= |old(m.vacbs)| && freed == Min(target, Pages(|old(m.vacbs)| - |m.vacbs|))
    ensures left == target - freed
    ensures asserted <==> old(AllSound(m.State()))
  {
    hide Inv, Covered, Evicted, Without, Evict, Pages, AllSound, Seen;
    ghost var s := m.State();
    EvictedNone(s);
    PagesSum(0, 0);
    left, freed, asserted := target, 0, true;
    var i := 0;
    assert Seen(s, 0, true) by { SeenNone(s); }
    while i < |m.lru|
      invariant Inv(m.State()) && (Covered(s) ==> Covered(m.State())) && Evicted(s, m.State())
      invariant 0 <= i <= |m.lru| && |m.vacbs| <= |s.vacbs| && Seen(m.State(), i, asserted)
      invariant freed == Min(target, Pages(|s.vacbs| - |m.vacbs|)) && left == target - freed
      decreases |m.lru| - i
    {
      ghost var t, before := m.State(), asserted;
      LruEntry(t, i);
      var v := m.lru[i];
      if m.vacbs[v].mapped > 0 && !m.vacbs[v].dirty { asserted := false; }
      if m.vacbs[v].refs < 2 {
        EvictKeeps(t, v);
        EvictedOneMore(s, t, v);
        assert !m.vacbs[v].dirty && m.vacbs[v].mapped == 0 && m.vacbs[v].refs == 1;
        SeenEvicted(t, i, before);
        EvictView(m, v);
        PagesSum(|s.vacbs| - |t.vacbs|, 1);
        var pages := Min(PAGES, left);
        left := left - pages;
        freed := freed + pages;
      } else {
        SeenNext(t, i, before);
        i := i + 1;
      }
    }
    Walked(s, m.State(), asserted);
  }

  lemma SeenNone(t: Cache)
    ensures Seen(t, 0, true)
  {
  }

  method EvictView(m: Manager, v: nat)
    requires v in m.vacbs && m.vacbs[v].file in m.views
    modifies m
    ensures m.State() == Evict(old(m.State()), v)
  {
    var f := m.vacbs[v].file;
    m.views := m.views[f := Without(m.views[f], v)];
    m.lru := Without(m.lru, v);
    m.vacbs := m.vacbs - {v};
    m.holders := m.holders - {v};
  }

  // ------------------------------------------------------------ writing back

  /** What became of one attempt on a dirty view: the file was passed over or could not be locked,
      the write failed, or it went through. `pages` is what the attempt counts for. */
  datatype Answer = Skipped | Failed(pages: nat) | Wrote(pages: nat)

  function Counts(a: Answer): nat { if a.Skipped? then 0 else a.pages }

  function Reported(answers: seq<Answer>): nat {
    if answers == [] then 0 else Reported(answers[..|answers| - 1]) + Counts(answers[|answers| - 1])
  }

  function Writes(answers: seq<Answer>): nat {
    if answers == [] then 0 else Writes(answers[..|answers| - 1]) + One(answers[|answers| - 1].Wrote?)
  }

  lemma OneMoreAnswer(answers: seq<Answer>, n: nat)
    requires n < |answers|
    ensures Reported(answers[..n + 1]) == Reported(answers[..n]) + Counts(answers[n])
    ensures Writes(answers[..n + 1]) == Writes(answers[..n]) + One(answers[n].Wrote?)
  {
    assert answers[..n + 1][..n] == answers[..n];
  }

  /** The most attempts a list of n dirty views can take when no write fails. */
  function Attempts(n: nat): nat { if n == 0 then 0 else n + Attempts(n - 1) }

  /** t is s with some dirty views written back. */
  ghost predicate WrittenBack(s: Cache, t: Cache) {
    && t.vacbs.Keys == s.vacbs.Keys && t.views == s.views && t.holders == s.holders && CaughtUp(s, t)
    && forall v :: v in s.vacbs ==>
         || t.vacbs[v] == s.vacbs[v]
         || (s.vacbs[v].dirty && s.vacbs[v].refs >= 1
            && t.vacbs[v] == s.vacbs[v].(dirty := false, refs := s.vacbs[v].refs - 1))
  }

  lemma WrittenBackNone(s: Cache)
    requires Inv(s)
    ensures WrittenBack(s, s)
  {
    hide Inv;
    CaughtUpSame(s, s);
  }

  lemma FlushLength(t: Cache, v: nat, ok: bool)
    requires FlushReady(t, v) && v in t.dirtyList
    ensures |FlushView(t, v, ok).dirtyList| == |t.dirtyList| - One(ok)
  {
  }

  lemma WrittenBackMore(s: Cache, t: Cache, v: nat, ok: bool)
    requires Inv(t) && WrittenBack(s, t) && v in t.vacbs && t.vacbs[v].dirty
    ensures FlushReady(t, v) && WrittenBack(s, FlushView(t, v, ok)) && (!ok ==> FlushView(t, v, ok).vacbs == t.vacbs)
    ensures |FlushView(t, v, ok).dirtyList| == |t.dirtyList| - One(ok)
  {
    hide Inv, Without, FlushView, CaughtUp;
    FlushViewKeeps(t, v, ok);
    DirtyFacts(t, v);
    FlushLength(t, v, ok);
    FlushCatchesUp(t, v, ok);
    CaughtUpThrough(s, t, FlushView(t, v, ok));
  }

  lemma DirtyEntry(t: Cache, i: nat)
    requires Inv(t) && i < |t.dirtyList|
    ensures t.dirtyList[i] in t.vacbs && t.vacbs[t.dirtyList[i]].dirty
  {
    assert t.dirtyList[i] in t.dirtyList;
  }

  /** The last n of the used answers passed a view over. */
  ghost predicate PassedOver(answers: seq<Answer>, used: nat, n: nat) {
    n <= used <= |answers| && forall j :: used - n <= j < used ==> answers[j].Skipped?
  }

  const MAX_ULONG: nat := 0xFFFF_FFFF

  /** This target asks for everything. */
  predicate FlushesAll(target: nat) { target == MAX_ULONG }

  /** The loop of CcRosFlushDirtyPages ends after u answers, on a list that had n dirty views: a
      call that flushes all has nothing left, another has reached its target or passed over every
      view that is still dirty since the last write. */
  ghost predicate Stops(answers: seq<Answer>, u: nat, n: nat, target: nat, wait: bool) {
    && u <= |answers| && Writes(answers[..u]) <= n
    && if FlushesAll(target) then Writes(answers[..u]) == n
       else target == 0 || (!wait && Reported(answers[..u]) >= target)
            || PassedOver(answers, u, n - Writes(answers[..u]))
  }

  ghost predicate Ends(answers: seq<Answer>, n: nat, target: nat, wait: bool) {
    exists u: nat :: Stops(answers, u, n, target, wait)
  }

  /** Bookkeeping of the walk: what the used answers come to. */
  ghost predicate Tally(s: Cache, t: Cache, answers: seq<Answer>, used: nat, count: nat, i: nat, flushAll: bool) {
    && used <= |answers| && count == Reported(answers[..used])
    && |t.dirtyList| + Writes(answers[..used]) == |s.dirtyList|
    && PassedOver(answers, used, i) && i <= |t.dirtyList|
    && (!flushAll && i < used ==> !answers[used - i - 1].Skipped?)
    && (!flushAll && (forall k :: 0 <= k < used ==> !answers[k].Failed?) ==>
          used + Attempts(|t.dirtyList|) <= Attempts(|s.dirtyList|) + i)
    && ((forall k :: 0 <= k < used ==> !answers[k].Wrote?) ==> t.vacbs == s.vacbs)
  }

  lemma TallyStart(s: Cache, answers: seq<Answer>, flushAll: bool)
    ensures Tally(s, s, answers, 0, 0, 0, flushAll)
  {
  }

  /** Starting over from the head of the list. */
  lemma TallyRestart(s: Cache, t: Cache, answers: seq<Answer>, used: nat, count: nat, i: nat)
    requires Tally(s, t, answers, used, count, i, true)
    ensures Tally(s, t, answers, used, count, 0, true)
  {
  }

  lemma TallySkip(s: Cache, t: Cache, answers: seq<Answer>, used: nat, count: nat, i: nat, flushAll: bool)
    requires Tally(s, t, answers, used, count, i, flushAll) && used < |answers| && answers[used].Skipped?
    requires i < |t.dirtyList|
    ensures Tally(s, t, answers, used + 1, count, i + 1, flushAll)
  {
    hide Reported, Writes, Attempts;
    OneMoreAnswer(answers, used);
  }

  lemma TallyFlush(s: Cache, t: Cache, u: Cache, answers: seq<Answer>, used: nat, count: nat, i: nat, flushAll: bool)
    requires Tally(s, t, answers, used, count, i, flushAll) && used < |answers| && !answers[used].Skipped?
    requires i < |t.dirtyList|
    requires |u.dirtyList| == |t.dirtyList| - One(answers[used].Wrote?)
    requires !answers[used].Wrote? ==> u.vacbs == t.vacbs
    ensures Tally(s, u, answers, used + 1, count + answers[used].pages, 0, flushAll)
  {
    hide Reported, Writes;
    OneMoreAnswer(answers, used);
  }

  /** CcRosFlushDirtyPages. It writes back only what the views show, and its count is the sum of the
      answers. It ends at the first number of answers after which it `Stops`, and it does not end if
      there is none. Unless told to flush all, it ends within `Attempts` answers when no write
      fails. */
  method FlushDirtyPages(m: Manager, target: nat, wait: bool, answers: seq<Answer>)
    returns (count: nat, used: nat, finished: bool)
    requires Inv(m.State()) && forall k :: 0 <= k < |answers| ==> Counts(answers[k]) <= PAGES
    modifies m
    ensures Inv(m.State()) && (old(Covered(m.State())) ==> Covered(m.State())) && WrittenBack(old(m.State()), m.State())
    ensures used <= |answers| && count == Reported(answers[..used])
    ensures |m.dirtyList| + Writes(answers[..used]) == |old(m.dirtyList)|
    ensures (forall k :: 0 <= k < used ==> !answers[k].Wrote?) ==> m.vacbs == old(m.vacbs)
    ensures finished <==> Ends(answers, |old(m.dirtyList)|, target, wait)
    ensures finished <==> Stops(answers, used, |old(m.dirtyList)|, target, wait)
    ensures forall u: nat :: u < used ==> !Stops(answers, u, |old(m.dirtyList)|, target, wait)
    ensures !finished ==> used == |answers|
    ensures FlushesAll(target) ==> (finished <==> m.dirtyList == [])
    ensures !wait && !FlushesAll(target) ==> count < target + PAGES
    ensures !FlushesAll(target) && |answers| > Attempts(|old(m.dirtyList)|) ==>
            (forall k :: 0 <= k < |answers| ==> !answers[k].Failed?) ==> finished
  {
    hide Inv, Covered, WrittenBack, FlushView, Reported, Writes, Attempts, Tally, Stops;
    var flushAll := FlushesAll(target);
    ghost var s := m.State();
    WrittenBackNone(s);
    TallyStart(s, answers, flushAll);
    count, used := 0, 0;
    var left, i := target, 0;
    while (i < |m.dirtyList| && left > 0) || flushAll
      invariant Inv(m.State()) && (Covered(s) ==> Covered(m.State())) && WrittenBack(s, m.State())
      invariant Tally(s, m.State(), answers, used, count, i, flushAll) && i <= |m.dirtyList| && used <= |answers|
      invariant left == if wait then target else if count < target then target - count else 0
      invariant !wait && !flushAll ==> count < target + PAGES
      invariant forall u: nat :: u < used ==> !Stops(answers, u, |s.dirtyList|, target, wait)
      decreases |answers| - used
    {
      ghost var t := m.State();
      if i == |m.dirtyList| {
        if |m.dirtyList| == 0 { break; }
        TallyRestart(s, t, answers, used, count, i);
        i := 0;
      }
      TallyGoes(s, t, answers, used, count, i, target, wait);
      if used == |answers| {
        TallyEnd(s, t, answers, used, count, i, flushAll);
        StopsWithin(answers, |s.dirtyList|, target, wait);
        return count, used, false;
      }
      DirtyEntry(t, i);
      var v, a := m.dirtyList[i], answers[used];
      if a.Skipped? {
        TallySkip(s, t, answers, used, count, i, flushAll);
        i := i + 1;
      } else {
        WrittenBackMore(s, t, v, a.Wrote?);
        m.FlushVacb(v, a.Wrote?);
        TallyFlush(s, t, m.State(), answers, used, count, i, flushAll);
        assert Counts(a) <= PAGES;
        count := count + a.pages;
        if !wait { left := if left < a.pages then 0 else left - a.pages; }
        i := 0;
      }
      used := used + 1;
    }
    TallyEnd(s, m.State(), answers, used, count, i, flushAll);
    TallyStops(s, m.State(), answers, used, count, i, target, wait);
    finished := true;
  }

  lemma StopsWithin(answers: seq<Answer>, n: nat, target: nat, wait: bool)
    ensures forall u: nat :: Stops(answers, u, n, target, wait) ==> u <= |answers|
  {
  }

  lemma {:induction false} WritesReach(answers: seq<Answer>, n: nat) returns (u: nat)
    requires Writes(answers) >= n
    ensures u <= |answers| && Writes(answers[..u]) == n
  {
    if Writes(answers) == n {
      u := |answers|;
      assert answers[..u] == answers;
    } else {
      var rest := answers[..|answers| - 1];
      u := WritesReach(rest, n);
      assert rest[..u] == answers[..u];
    }
  }

  lemma {:induction false} WritesGrow(answers: seq<Answer>, u: nat)
    requires u <= |answers|
    ensures Writes(answers[..u]) <= Writes(answers)
  {
    if u == |answers| {
      assert answers[..u] == answers;
    } else {
      assert answers[..|answers| - 1][..u] == answers[..u];
      WritesGrow(answers[..|answers| - 1], u);
    }
  }

  /** A call that flushes all ends if and only if as many writes go through as views are dirty. */
  lemma FlushAllEndsIff(answers: seq<Answer>, n: nat, wait: bool)
    ensures Ends(answers, n, MAX_ULONG, wait) <==> Writes(answers) >= n
  {
    if u: nat :| Stops(answers, u, n, MAX_ULONG, wait) { WritesGrow(answers, u); }
    if Writes(answers) >= n {
      var u := WritesReach(answers, n);
      assert Stops(answers, u, n, MAX_ULONG, wait);
    }
  }

  lemma {:induction false} NoWrites(answers: seq<Answer>)
    requires forall k :: 0 <= k < |answers| ==> !answers[k].Wrote?
    ensures Writes(answers) == 0
  {
    if answers != [] { NoWrites(answers[..|answers| - 1]); }
  }

  /** A call that flushes all goes on for ever over views that are only passed over. */
  lemma SkippedFlushAll(answers: seq<Answer>, n: nat, wait: bool)
    requires n > 0 && forall k :: 0 <= k < |answers| ==> answers[k].Skipped?
    ensures !Ends(answers, n, MAX_ULONG, wait)
  {
    NoWrites(answers);
    FlushAllEndsIff(answers, n, wait);
  }

  lemma {:induction false} NoneReported(answers: seq<Answer>)
    requires forall k :: 0 <= k < |answers| ==> Counts(answers[k]) == 0
    ensures Reported(answers) == 0
  {
    if answers != [] { NoneReported(answers[..|answers| - 1]); }
  }

  /** No call with something to do ends while every write fails without writing a page. */
  lemma FailingNeverEnds(answers: seq<Answer>, n: nat, target: nat, wait: bool)
    requires n > 0 && target > 0 && forall k :: 0 <= k < |answers| ==> answers[k] == Failed(0)
    ensures !Ends(answers, n, target, wait)
  {
    forall u: nat ensures !Stops(answers, u, n, target, wait) {
      if u <= |answers| {
        NoWrites(answers[..u]);
        NoneReported(answers[..u]);
      }
    }
  }

  lemma TallyStops(s: Cache, t: Cache, answers: seq<Answer>, used: nat, count: nat, i: nat, target: nat,
                   wait: bool)
    requires Tally(s, t, answers, used, count, i, FlushesAll(target))
    requires if FlushesAll(target) then t.dirtyList == []
             else i == |t.dirtyList| || target == 0 || (!wait && count >= target)
    ensures Stops(answers, used, |s.dirtyList|, target, wait)
    ensures FlushesAll(target) ==> t.dirtyList == []
  {
    hide Reported, Writes, Attempts;
  }

  lemma TallyGoes(s: Cache, t: Cache, answers: seq<Answer>, used: nat, count: nat, i: nat, target: nat,
                  wait: bool)
    requires Tally(s, t, answers, used, count, i, FlushesAll(target)) && i < |t.dirtyList|
    requires FlushesAll(target) || (target > 0 && (wait || count < target))
    ensures !Stops(answers, used, |s.dirtyList|, target, wait)
  {
    hide Reported, Writes, Attempts;
    if !FlushesAll(target) && i < used && |t.dirtyList| <= used { assert used - |t.dirtyList| <= used - i - 1 < used; }
  }

  lemma TallyEnd(s: Cache, t: Cache, answers: seq<Answer>, used: nat, count: nat, i: nat, flushAll: bool)
    requires Tally(s, t, answers, used, count, i, flushAll)
    ensures used <= |answers| && count == Reported(answers[..used])
    ensures |t.dirtyList| + Writes(answers[..used]) == |s.dirtyList|
    ensures (forall k :: 0 <= k < used ==> !answers[k].Wrote?) ==> t.vacbs == s.vacbs
    ensures i == |t.dirtyList| ==> PassedOver(answers, used, |t.dirtyList|)
    ensures !flushAll && (forall k :: 0 <= k < used ==> !answers[k].Failed?) ==> used <= Attempts(|s.dirtyList|)
  {
    AttemptsAtLeast(|t.dirtyList|);
  }

  lemma {:induction false} AttemptsAtLeast(n: nat)
    ensures Attempts(n) >= n
  {
    if n > 0 { AttemptsAtLeast(n - 1); }
  }

  // ---------------------------------------------------------------- trimming

  lemma {:induction false} ReportedZero(answers: seq<Answer>, k: nat)
    requires Reported(answers) == 0 && k < |answers|
    requires forall j :: 0 <= j < |answers| && answers[j].Wrote? ==> answers[j].pages > 0
    ensures !answers[k].Wrote?
  {
    if k < |answers| - 1 { ReportedZero(answers[..|answers| - 1], k); }
  }

  /** Nothing counted means nothing written, when every write counts. */
  lemma NothingWritten(answers: seq<Answer>, used: nat)
    requires used <= |answers| && Reported(answers[..used]) == 0
    requires forall j :: 0 <= j < |answers| && answers[j].Wrote? ==> answers[j].pages > 0
    ensures forall k :: 0 <= k < used ==> !answers[k].Wrote?
  {
    forall k | 0 <= k < used ensures !answers[k].Wrote? { ReportedZero(answers[..used], k); }
  }

  /** What a trim may have done so far, from s to t. */
  ghost predicate Trimmed(s: Cache, t: Cache) {
    && HeldStays(s, t) && CaughtUp(s, t) && t.vacbs.Keys <= s.vacbs.Keys && |t.vacbs| <= |s.vacbs|
    && (Unmapped(s) ==> Unmapped(t))
  }

  lemma EvictedTrimmed(s: Cache, t: Cache)
    requires Inv(s) && Inv(t) && Evicted(s, t)
    ensures Trimmed(s, t) && (AllSound(s) <==> AllSound(t))
    ensures (forall v :: v in t.vacbs ==> t.vacbs[v].refs >= 2) ==>
            forall v :: v in s.vacbs && s.vacbs[v].refs == 1 ==> v !in t.vacbs
  {
    hide Viewed, Totalled, Linked;
    CaughtUpSame(s, t);
    forall v | v in s.vacbs && v !in t.vacbs ensures s.holders[v] == 0 && Sound(s.vacbs[v]) { ReferencedAt(s, v); }
    FewerViews(s, t);
  }

  lemma FewerViews(s: Cache, t: Cache)
    requires t.vacbs.Keys <= s.vacbs.Keys
    ensures |t.vacbs| <= |s.vacbs|
  {
    SubsetCardinality(t.vacbs.Keys, s.vacbs.Keys);
    assert |t.vacbs| == |t.vacbs.Keys| && |s.vacbs| == |s.vacbs.Keys|;
  }

  lemma WrittenTrimmed(s: Cache, t: Cache)
    requires Inv(s) && Inv(t) && WrittenBack(s, t)
    ensures Trimmed(s, t) && |t.vacbs| == |s.vacbs| && t.vacbs.Keys == s.vacbs.Keys
  {
    hide Viewed, Totalled, Linked, CaughtUp;
    FewerViews(s, t);
    FewerViews(t, s);
  }

  lemma TrimmedThrough(s: Cache, t: Cache, u: Cache)
    requires Trimmed(s, t) && Trimmed(t, u)
    ensures Trimmed(s, u)
  {
    hide HeldStays, CaughtUp, Unmapped;
    HeldStaysThrough(s, t, u);
    CaughtUpThrough(s, t, u);
  }

  ghost function Unused(s: Cache): set<nat> {
    set v | v in s.vacbs && s.vacbs[v].refs == 1
  }

  lemma UnusedGone(s: Cache, t: Cache)
    requires Evicted(s, t) && forall v :: v in t.vacbs ==> t.vacbs[v].refs >= 2
    ensures |Unused(s)| == |s.vacbs| - |t.vacbs| && t.dirtyList == s.dirtyList
  {
    assert s.vacbs.Keys == t.vacbs.Keys + Unused(s);
    assert |t.vacbs| == |t.vacbs.Keys| && |s.vacbs| == |s.vacbs.Keys|;
  }

  /** The unused views reach the target, or the write-back for the rest ends. */
  ghost predicate TrimEnds(s: Cache, target: nat, answers: seq<Answer>) {
    var left := target - Min(target, Pages(|Unused(s)|));
    left == 0 || Ends(answers, |s.dirtyList|, left, false)
  }

  /** CcRosTrimCache: frees every view that nobody used and none that somebody held, reports no
      more than the target and than it freed, and loses no unwritten byte. Its assertion fails when
      a view was mapped and clean at the start, or when writing back cleaned a mapped view. */
  method TrimCache(m: Manager, target: nat, answers: seq<Answer>) returns (freed: nat, finished: bool, asserted: bool)
    requires Inv(m.State()) && forall k :: 0 <= k < |answers| ==> Counts(answers[k]) <= PAGES
    modifies m
    ensures Inv(m.State()) && (old(Covered(m.State())) ==> Covered(m.State())) && Trimmed(old(m.State()), m.State())
    ensures freed <= target && |m.vacbs| <= |old(m.vacbs)| && freed <= Pages(|old(m.vacbs)| - |m.vacbs|)
    ensures forall v :: v in old(m.vacbs) && old(m.vacbs)[v].refs == 1 ==> v !in m.vacbs
    ensures finished <==> TrimEnds(old(m.State()), target, answers)
    ensures asserted ==> old(AllSound(m.State()))
    ensures old(AllSound(m.State())) && AllSound(m.State()) ==> asserted
    ensures finished && asserted && (forall j :: 0 <= j < |answers| && answers[j].Wrote? ==> answers[j].pages > 0) ==>
            AllSound(m.State())
  {
    hide Inv, Covered, Evicted, Trimmed, AllSound, Pages, Ends, Unused, Sound;
    ghost var s := m.State();
    var left;
    left, freed, asserted := TrimPass(m, target);
    ghost var t := m.State();
    EvictedTrimmed(s, t);
    UnusedGone(s, t);
    TrimmedKeys(s, t);
    finished := true;
    if left > 0 {
      var more, sound;
      more, finished, sound := TrimRest(m, left, answers);
      TrimmedThrough(s, t, m.State());
      PagesSum(|s.vacbs| - |t.vacbs|, |t.vacbs| - |m.vacbs|);
      freed := freed + more;
      asserted := asserted && sound;
    }
  }

  /** The second half of CcRosTrimCache: a write-back, and if it counted anything another walk. */
  method TrimRest(m: Manager, target: nat, answers: seq<Answer>) returns (freed: nat, finished: bool, asserted: bool)
    requires Inv(m.State()) && forall k :: 0 <= k < |answers| ==> Counts(answers[k]) <= PAGES
    modifies m
    ensures Inv(m.State()) && (old(Covered(m.State())) ==> Covered(m.State())) && Trimmed(old(m.State()), m.State())
    ensures freed <= target && |m.vacbs| <= |old(m.vacbs)| && freed <= Pages(|old(m.vacbs)| - |m.vacbs|)
    ensures m.vacbs.Keys <= old(m.vacbs).Keys
    ensures finished <==> Ends(answers, |old(m.dirtyList)|, target, false)
    ensures AllSound(m.State()) ==> asserted
    ensures finished && asserted && (forall j :: 0 <= j < |answers| && answers[j].Wrote? ==> answers[j].pages > 0) ==>
            old(AllSound(m.State())) ==> AllSound(m.State())
  {
    hide Inv, Covered, WrittenBack, Evicted, Trimmed, AllSound, Pages, Reported, Stops, Ends, Sound;
    ghost var t := m.State();
    var written, used, left;
    written, used, finished := FlushDirtyPages(m, target, false, answers);
    ghost var u := m.State();
    WrittenTrimmed(t, u);
    freed, asserted := 0, true;
    if finished {
      if written != 0 {
        left, freed, asserted := TrimPass(m, Min(target, written));
        EvictedTrimmed(u, m.State());
        TrimmedThrough(t, u, m.State());
        TrimmedKeys(u, m.State());
      } else {
        StillSound(t, u, answers, used);
      }
    }
  }

  lemma TrimmedKeys(s: Cache, t: Cache)
    requires Trimmed(s, t)
    ensures t.vacbs.Keys <= s.vacbs.Keys && |t.vacbs| <= |s.vacbs|
  {
  }

  lemma StillSound(t: Cache, u: Cache, answers: seq<Answer>, used: nat)
    requires used <= |answers| && Reported(answers[..used]) == 0
    requires (forall k :: 0 <= k < used ==> !answers[k].Wrote?) ==> u.vacbs == t.vacbs
    ensures (forall j :: 0 <= j < |answers| && answers[j].Wrote? ==> answers[j].pages > 0) ==>
            (AllSound(t) <==> AllSound(u))
  {
    hide Reported;
    if forall j :: 0 <= j < |answers| && answers[j].Wrote? ==> answers[j].pages > 0 { NothingWritten(answers, used); }
  }

  /** While nobody maps views, the assertion of the trim never fails. */
  lemma UnmappedSound(s: Cache)
    requires Unmapped(s)
    ensures AllSound(s)
  {
  }
}
