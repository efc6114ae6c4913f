/**
 CcFlushCache: the walk over a byte range, one view-sized chunk at a time, with its 64-bit
 arithmetic. `viewOk` and `segmentOk` are whether the write of a dirty view, or of a range
 without one, succeeds.
 */
module CacheFlush {
  import opened Sequences
  import opened VacbCache
  import opened CacheManager

  /** First offset behind the view-sized chunk of an offset. */
  function NextChunk(offset: nat): (r: nat)
    ensures r % GRANULARITY == 0 && offset < r <= offset + GRANULARITY
  {
    RoundDown(offset) + GRANULARITY
  }

  /** How the walk goes on: a chunk further, rounded down. */
  function Advance(at: nat): nat { at + GRANULARITY - (at + GRANULARITY) % GRANULARITY }

  lemma AdvanceIs(at: nat)
    ensures Advance(at) == NextChunk(at) == RoundDown(NextChunk(at)) && NextChunk(at) > at
    ensures forall start :: OnWalk(start, NextChunk(at))
  {
  }

  predicate OnWalk(start: nat, at: nat) { at == start || at % GRANULARITY == 0 }

  /** Adding a chunk to an offset leaves 64 bits only in the very last chunk, so giving up there
      skips nothing. */
  lemma LastChunk(at: nat, end: nat)
    requires at + GRANULARITY > MAX_LONGLONG && end <= MAX_LONGLONG
    ensures end <= NextChunk(at)
  {
  }

  /** In lo..hi the disk shows what the views show, and no view that overlaps it is dirty. */
  ghost predicate Clean(s: Cache, f: nat, lo: nat, hi: nat)
    requires f in s.section && f in s.disk
  {
    && (forall i :: lo <= i < hi && i < |s.section[f]| && i < |s.disk[f]| ==> s.disk[f][i] == s.section[f][i])
    && (lo < hi ==> forall v :: v in s.vacbs && s.vacbs[v].file == f && s.vacbs[v].dirty ==> Misses(s.vacbs[v], lo, hi))
  }

  /** The view has no byte in lo..hi. */
  predicate Misses(v: Vacb, lo: nat, hi: nat) {
    v.offset + GRANULARITY <= lo || hi <= v.offset
  }

  /** What a chunk of the walk leaves alone: everything outside the chunk. */
  ghost predicate OnlyChunk(s: Cache, t: Cache, f: nat, lo: nat, hi: nat) {
    && t.views == s.views && t.vacbs.Keys == s.vacbs.Keys && CaughtUp(s, t) && DiskOnly(s, t, f, lo, hi)
    && (forall v :: v in s.vacbs ==> t.vacbs[v] == s.vacbs[v].(dirty := t.vacbs[v].dirty, refs := t.vacbs[v].refs))
    && (forall v :: v in s.vacbs && t.vacbs[v].dirty ==> s.vacbs[v].dirty)
    && (forall v :: v in s.vacbs && (s.vacbs[v].file != f || Misses(s.vacbs[v], lo, hi)) ==>
       t.vacbs[v].dirty == s.vacbs[v].dirty)
  }

  /** Only bytes of file f in lo..hi may have changed on the disk. */
  ghost predicate DiskOnly(s: Cache, t: Cache, f: nat, lo: nat, hi: nat) {
    && t.disk.Keys == s.disk.Keys && (forall g :: g in s.disk ==> |t.disk[g]| == |s.disk[g]|)
    && (forall g :: g in s.disk && g != f ==> t.disk[g] == s.disk[g])
    && (forall i :: f in s.disk && 0 <= i < |s.disk[f]| && !(lo <= i < hi) ==> t.disk[f][i] == s.disk[f][i])
  }

  lemma DiskThrough(s: Cache, t: Cache, u: Cache, f: nat, lo: nat, hi: nat, c0: nat, c1: nat)
    requires DiskOnly(s, t, f, lo, hi) && DiskOnly(t, u, f, c0, c1) && lo <= c0 && c1 <= hi
    ensures DiskOnly(s, u, f, lo, hi)
  {
  }

  /** Every chunk of the walk lies in the rounded range. */
  lemma ChunkWithin(start: nat, at: nat, end: nat)
    requires start <= at < end
    ensures RoundDown(start) <= RoundDown(at) && NextChunk(at) <= NextChunk(end - 1)
  {
  }

  lemma CleanJoins(t: Cache, u: Cache, f: nat, lo: nat, mid: nat, hi: nat, c0: nat, c1: nat)
    requires f in t.section && f in t.disk && f in u.section && f in u.disk
    requires OnlyChunk(t, u, f, c0, c1) && lo <= mid <= hi && (c0 == mid || lo == mid)
    requires Clean(t, f, lo, mid) && Clean(u, f, mid, hi)
    ensures Clean(u, f, lo, hi)
  {
    forall v | v in u.vacbs && u.vacbs[v].file == f && u.vacbs[v].dirty && lo < hi ensures Misses(u.vacbs[v], lo, hi) {
      assert t.vacbs[v].dirty;
    }
  }

  lemma CleanNone(s: Cache, f: nat, lo: nat)
    requires f in s.section && f in s.disk
    ensures Clean(s, f, lo, lo)
  {
  }

  /** Another view of the file lies wholly before or wholly behind the chunk of view v. */
  lemma Apart(s: Cache, v: nat, w: nat, f: nat, at: nat)
    requires Inv(s) && Covers(s, v, f, at) && w in s.vacbs && s.vacbs[w].file == f && w != v
    ensures Misses(s.vacbs[w], RoundDown(at), NextChunk(at))
  {
    hide Totalled, Linked, Referenced;
    Aligned(s, v);
    Aligned(s, w);
    if InView(s.vacbs[w], RoundDown(at)) {
      AlignedSame(s.vacbs[v].offset, RoundDown(at), at);
      ViewsDisjoint(s, v, w, RoundDown(at));
    }
  }

  lemma FlushDisk(s: Cache, v: nat)
    requires FlushReady(s, v)
    ensures FlushView(s, v, true).disk == s.disk[s.vacbs[v].file :=
              Spliced(s.disk[s.vacbs[v].file], s.section[s.vacbs[v].file], s.vacbs[v].offset,
                s.vacbs[v].offset + GRANULARITY)]
  {
    hide Without;
  }

  /** What holding, flushing and releasing dirty view v does to s. */
  ghost predicate ViewFlushed(s: Cache, u: Cache, v: nat) {
    && v in s.vacbs && s.vacbs[v].file in s.disk && s.vacbs[v].file in s.section
       && |s.disk[s.vacbs[v].file]| == |s.section[s.vacbs[v].file]|
    && u.vacbs.Keys == s.vacbs.Keys && u.views == s.views && u.section == s.section && u.holders == s.holders
    && (forall w :: w in s.vacbs && w != v ==> u.vacbs[w] == s.vacbs[w])
    && u.vacbs[v] == s.vacbs[v].(dirty := false, refs := u.vacbs[v].refs)
    && u.disk == s.disk[s.vacbs[v].file :=
         Spliced(s.disk[s.vacbs[v].file], s.section[s.vacbs[v].file], s.vacbs[v].offset,
           s.vacbs[v].offset + GRANULARITY)]
  }

  lemma DirtyRound(s: Cache, t: Cache, u: Cache, v: nat)
    requires Inv(s) && v in s.vacbs && s.vacbs[v].dirty && v in s.holders
    requires FlushReady(Hold(s, v), v) && t == FlushView(Hold(s, v), v, true) && Gave(t, u, v, false, false)
    ensures ViewFlushed(s, u, v)
  {
    hide Inv, FlushView;
    HoldKeeps(s, v);
    FlushDisk(Hold(s, v), v);
    FlushViewKeeps(Hold(s, v), v, true);
  }

  lemma DirtyDisk(s: Cache, u: Cache, v: nat)
    requires Inv(s) && ViewFlushed(s, u, v)
    ensures CaughtUp(s, u) && DiskOnly(s, u, s.vacbs[v].file, s.vacbs[v].offset, s.vacbs[v].offset + GRANULARITY)
  {
    hide Viewed, Totalled, Linked, Referenced;
  }

  lemma DirtyChunk(s: Cache, u: Cache, v: nat, f: nat, at: nat)
    requires Inv(s) && Covers(s, v, f, at) && s.vacbs[v].dirty && ViewFlushed(s, u, v)
    ensures f in u.section && f in u.disk && Clean(u, f, at, NextChunk(at))
    ensures OnlyChunk(s, u, f, RoundDown(at), NextChunk(at))
  {
    hide Viewed, Totalled, Linked, Referenced, CaughtUp, DiskOnly;
    DirtyDisk(s, u, v);
    Aligned(s, v);
    AlignedSame(s.vacbs[v].offset, RoundDown(at), at);
    forall w | w in u.vacbs && u.vacbs[w].file == f && u.vacbs[w].dirty ensures Misses(u.vacbs[w], at, NextChunk(at)) {
      Apart(s, v, w, f, at);
    }
  }

  lemma SegmentDisk(s: Cache, f: nat, at: nat, hi: nat)
    requires Inv(s) && f in s.section && f in s.disk && |s.section[f]| == |s.disk[f]| && at <= hi <= NextChunk(at)
    ensures CaughtUp(s, Flushed(s, f, at, hi)) && DiskOnly(s, Flushed(s, f, at, hi), f, RoundDown(at), NextChunk(at))
  {
    hide Viewed, Totalled, Linked, Referenced;
  }

  /** A view whose write fails is dirty as before, with one hold more. */
  lemma FailedChunk(s: Cache, u: Cache, v: nat, f: nat, lo: nat, hi: nat)
    requires Inv(s) && v in s.vacbs && v in s.holders && s.vacbs[v].dirty
    requires FlushReady(Hold(s, v), v) && u == FlushView(Hold(s, v), v, false)
    ensures OnlyChunk(s, u, f, lo, hi) && u.holders == s.holders[v := s.holders[v] + 1] && u.vacbs[v].dirty
  {
    hide Inv, Without;
    HoldKeeps(s, v);
    FlushViewKeeps(Hold(s, v), v, false);
    CaughtUpSame(s, u);
  }

  /** Nothing written, nothing changed but the LRU order. */
  lemma QuietChunk(s: Cache, u: Cache, f: nat, lo: nat, hi: nat)
    requires Inv(s) && u.vacbs == s.vacbs && u.section == s.section && u.disk == s.disk && u.views == s.views
    ensures OnlyChunk(s, u, f, lo, hi)
  {
    hide Inv;
    CaughtUpSame(s, u);
  }

  /** No dirty view covers the chunk: Mm writes the part of it that lies in the range. */
  lemma CleanChunk(s: Cache, f: nat, at: nat, hi: nat)
    requires Inv(s) && f in s.section && f in s.disk && |s.section[f]| == |s.disk[f]| && at <= hi <= NextChunk(at)
    requires forall v :: Covers(s, v, f, at) ==> !s.vacbs[v].dirty
    ensures var u := Flushed(s, f, at, hi); Clean(u, f, at, hi) && OnlyChunk(s, u, f, RoundDown(at), NextChunk(at))
  {
    hide Totalled, Linked, Referenced, Viewed, CaughtUp, DiskOnly;
    var u := Flushed(s, f, at, hi);
    SegmentDisk(s, f, at, hi);
    forall w | w in u.vacbs && u.vacbs[w].file == f && u.vacbs[w].dirty ensures Misses(u.vacbs[w], at, hi) {
      Aligned(s, w);
      assert !Covers(s, w, f, at);
    }
  }

  lemma HeldAndReleased(s: Cache, u: Cache, v: nat)
    requires Inv(s) && v in s.vacbs && v in s.holders && Gave(Hold(s, v), u, v, false, false) && Inv(u)
    ensures u.vacbs == s.vacbs && u.holders == s.holders && u.section == s.section && u.disk == s.disk
    ensures u.views == s.views
  {
    hide Viewed, Totalled, Linked;
    ReferencedAt(s, v);
    ReferencedAt(u, v);
    assert u.vacbs[v] == s.vacbs[v];
  }

  lemma SameChunk(s: Cache, t: Cache, u: Cache, f: nat, lo: nat, hi: nat)
    requires t.vacbs == s.vacbs && t.section == s.section && t.disk == s.disk && t.views == s.views
    requires OnlyChunk(t, u, f, lo, hi)
    ensures OnlyChunk(s, u, f, lo, hi)
  {
  }

  /** The flush of one round of the loop: the part of the chunk of `at` before `end`. When the
      write of a dirty view fails, the hold on that view is not given back. */
  method FlushChunk(m: Manager, f: nat, at: nat, end: nat, viewOk: nat -> bool, segmentOk: nat -> bool)
    returns (ok: bool, leaked: Option<nat>)
    requires Inv(m.State()) && f in m.views && f in m.section && f in m.disk && at < end
    modifies m
    ensures Inv(m.State()) && (old(Covered(m.State())) ==> Covered(m.State())) && f in m.views && f in m.section
    ensures f in m.disk
    ensures OnlyChunk(old(m.State()), m.State(), f, RoundDown(at), NextChunk(at))
    ensures ok ==> leaked.None? && Clean(m.State(), f, at, Min(NextChunk(at), end))
    ensures match leaked
            case None => m.holders == old(m.holders) && (ok <==> DirtyCover(old(m.State()), f, at) || segmentOk(at))
            case Some(v) =>
              && !ok && v in old(m.holders) && m.holders == old(m.holders)[v := old(m.holders)[v] + 1]
              && Covers(m.State(), v, f, at) && m.vacbs[v].dirty && !viewOk(v)
    ensures leaked.Some? <==> exists v :: Covers(old(m.State()), v, f, at) && old(m.vacbs)[v].dirty && !viewOk(v)
  {
    hide Inv, Covered, Gave, FlushView, OnlyChunk, Clean;
    ghost var s := m.State();
    DataKnown(s, f);
    leaked := None;
    var r := m.LookupVacb(f, at);
    if r.Some? {
      var v := r.value;
      forall w | Covers(s, w, f, at) ensures w == v { OneCover(s, v, w, f, at); }
      if m.vacbs[v].dirty {
        m.FlushVacb(v, viewOk(v));
        ghost var t := m.State();
        FlushViewKeeps(Hold(s, v), v, viewOk(v));
        DataKnown(t, f);
        if !viewOk(v) {
          FailedChunk(s, t, v, f, RoundDown(at), NextChunk(at));
          return false, Some(v);
        }
        m.ReleaseVacb(v, false, false);
        DirtyRound(s, t, m.State(), v);
        DirtyChunk(s, m.State(), v, f, at);
        CleanPart(m.State(), f, at, NextChunk(at), Min(NextChunk(at), end));
        return true, None;
      }
      m.ReleaseVacb(v, false, false);
      HeldAndReleased(s, m.State(), v);
      assert !s.vacbs[v].dirty;
    }
    ghost var t := m.State();
    assert t.vacbs == s.vacbs;
    forall w | Covers(t, w, f, at) ensures !t.vacbs[w].dirty { assert Covers(s, w, f, at); }
    var hi := if end - end % GRANULARITY <= at then end else at + (GRANULARITY - at % GRANULARITY);
    ok := segmentOk(at);
    if ok { WriteSegment(m, f, at, end, hi); } else { QuietChunk(t, t, f, RoundDown(at), NextChunk(at)); }
    SameChunk(s, t, m.State(), f, RoundDown(at), NextChunk(at));
  }

  ghost predicate DirtyCover(s: Cache, f: nat, at: nat) {
    exists v :: Covers(s, v, f, at) && s.vacbs[v].dirty
  }

  /** Mm writes the part of the chunk before `end`, which the code computes in two ways. */
  method WriteSegment(m: Manager, f: nat, at: nat, end: nat, hi: nat)
    requires Inv(m.State()) && f in m.views && f in m.section && f in m.disk && at < end
    requires hi == if end - end % GRANULARITY <= at then end else at + (GRANULARITY - at % GRANULARITY)
    requires forall v :: Covers(m.State(), v, f, at) ==> !m.vacbs[v].dirty
    modifies m
    ensures Inv(m.State()) && (old(Covered(m.State())) ==> Covered(m.State())) && m.holders == old(m.holders)
    ensures m.views == old(m.views)
    ensures f in m.section && f in m.disk && Clean(m.State(), f, at, Min(NextChunk(at), end))
    ensures OnlyChunk(old(m.State()), m.State(), f, RoundDown(at), NextChunk(at))
  {
    hide Inv, Covered, OnlyChunk, Clean, NextChunk;
    ghost var t := m.State();
    ChunkEnd(at, end);
    FlushedKeeps(t, f, at, hi);
    DataKnown(t, f);
    CleanChunk(t, f, at, hi);
    m.disk := m.disk[f := Spliced(m.disk[f], m.section[f], at, hi)];
    assert m.State() == Flushed(t, f, at, hi);
  }

  lemma OneCover(s: Cache, v: nat, w: nat, f: nat, at: nat)
    requires Inv(s) && Covers(s, v, f, at) && Covers(s, w, f, at)
    ensures v == w
  {
    ViewsDisjoint(s, v, w, at);
  }

  lemma Quotient(n: nat)
    ensures n == n / GRANULARITY * GRANULARITY + n % GRANULARITY
  {
  }

  /** The two lengths CcFlushCache hands to Mm end at the chunk or at the range, whichever is first. */
  lemma ChunkEnd(at: nat, end: nat)
    requires at < end
    ensures (if end - end % GRANULARITY <= at then end else at + (GRANULARITY - at % GRANULARITY))
            == Min(NextChunk(at), end)
  {
    var a, e := at / GRANULARITY, end / GRANULARITY;
    Quotient(at);
    Quotient(end);
    if a < e { assert (a + 1) * GRANULARITY <= e * GRANULARITY; }
  }

  lemma CleanPart(s: Cache, f: nat, lo: nat, hi: nat, hi': nat)
    requires f in s.section && f in s.disk && Clean(s, f, lo, hi) && hi' <= hi
    ensures Clean(s, f, lo, hi')
  {
  }

  datatype FlushStatus = Done | Overflow | Failed

  /** The offsets at which the walk over start..end looks. */
  predicate ChunkAt(start: nat, end: nat, at: nat) {
    start <= at < end && OnWalk(start, at)
  }

  /** The write that the walk makes at `at` fails: that of the dirty view there, else that of Mm. */
  ghost predicate ChunkFails(s: Cache, f: nat, at: nat, viewOk: nat -> bool, segmentOk: nat -> bool) {
    (exists v :: Covers(s, v, f, at) && s.vacbs[v].dirty && !viewOk(v)) || (!DirtyCover(s, f, at) && !segmentOk(at))
  }

  ghost predicate AllPass(s: Cache, f: nat, start: nat, end: nat, viewOk: nat -> bool, segmentOk: nat -> bool) {
    forall c: nat :: ChunkAt(start, end, c) ==> !ChunkFails(s, f, c, viewOk, segmentOk)
  }

  /** The walk has not changed the views from `done` on. */
  ghost predicate Untouched(s: Cache, t: Cache, f: nat, done: nat) {
    && t.vacbs.Keys == s.vacbs.Keys
    && (forall v :: v in s.vacbs ==> t.vacbs[v].file == s.vacbs[v].file && t.vacbs[v].offset == s.vacbs[v].offset)
    && (forall v :: v in s.vacbs && s.vacbs[v].file == f && s.vacbs[v].offset >= done ==>
       t.vacbs[v].dirty == s.vacbs[v].dirty)
  }

  lemma UntouchedOn(s: Cache, t: Cache, u: Cache, f: nat, at: nat)
    requires Untouched(s, t, f, RoundDown(at)) && OnlyChunk(t, u, f, RoundDown(at), NextChunk(at))
    ensures Untouched(s, u, f, NextChunk(at))
  {
    hide CaughtUp, DiskOnly;
  }

  /** What the walk finds at its offset is what was there at the start. */
  lemma SameFailure(s: Cache, t: Cache, f: nat, at: nat, viewOk: nat -> bool, segmentOk: nat -> bool)
    requires Inv(s) && Untouched(s, t, f, RoundDown(at))
    ensures ChunkFails(t, f, at, viewOk, segmentOk) <==> ChunkFails(s, f, at, viewOk, segmentOk)
  {
    hide Inv;
    forall v | v in s.vacbs ensures Covers(t, v, f, at) <==> Covers(s, v, f, at) { }
    forall v | Covers(s, v, f, at) ensures t.vacbs[v].dirty == s.vacbs[v].dirty {
      Aligned(s, v);
      AlignedSame(s.vacbs[v].offset, RoundDown(at), at);
    }
  }

  /** After the chunk of `at` the next offset of the walk is the next chunk. */
  lemma PassedOn(s: Cache, f: nat, start: nat, at: nat, end: nat, viewOk: nat -> bool, segmentOk: nat -> bool)
    requires ChunkAt(start, end, at) && AllPass(s, f, start, at, viewOk, segmentOk)
    requires !ChunkFails(s, f, at, viewOk, segmentOk)
    ensures AllPass(s, f, start, Min(NextChunk(at), end), viewOk, segmentOk)
  {
    hide ChunkFails;
    forall c: nat | ChunkAt(start, Min(NextChunk(at), end), c) ensures !ChunkFails(s, f, c, viewOk, segmentOk) {
      if c > at { NoChunkBetween(at, c); } else if c < at { assert ChunkAt(start, at, c); }
    }
  }

  lemma PassStart(s: Cache, f: nat, start: nat, viewOk: nat -> bool, segmentOk: nat -> bool)
    ensures AllPass(s, f, start, start, viewOk, segmentOk) && Untouched(s, s, f, RoundDown(start))
  {
  }

  lemma NoChunkBetween(at: nat, c: nat)
    requires at < c < NextChunk(at)
    ensures c % GRANULARITY != 0
  {
  }

  /** What a flush that failed at offset `at` leaves: everything before is clean, and one view more
      is held exactly when the chunk has a dirty view, which is the one whose write failed. */
  ghost predicate FailedAt(s: Cache, f: nat, start: nat, at: nat, leaked: Option<nat>, viewOk: nat -> bool,
                           segmentOk: nat -> bool)
    requires f in s.section && f in s.disk
  {
    && Clean(s, f, start, at)
    && (leaked.Some? ==> Covers(s, leaked.value, f, at) && s.vacbs[leaked.value].dirty && !viewOk(leaked.value))
    && (leaked.None? ==> !DirtyCover(s, f, at) && !segmentOk(at))
  }

  /** Holds after a flush: as before, or one more on the view that leaked. */
  ghost predicate Leaked(s: Cache, t: Cache, leaked: Option<nat>) {
    match leaked
    case None => t.holders == s.holders
    case Some(v) => v in s.holders && t.holders == s.holders[v := s.holders[v] + 1]
  }

  /** CcFlushCache. It terminates for every start and length, up to the 64-bit limit. When all
      writes succeed the disk holds everything in the range and no view that overlaps it is dirty.
      When one fails, what came before is clean, and a hold leaks exactly when it was a view. */
  method FlushCache(m: Manager, f: nat, start: nat, length: nat, viewOk: nat -> bool, segmentOk: nat -> bool)
    returns (status: FlushStatus, leaked: Option<nat>, ghost at: nat)
    requires Inv(m.State()) && f in m.views && f in m.section && f in m.disk
    modifies m
    ensures Inv(m.State()) && (old(Covered(m.State())) ==> Covered(m.State())) && f in m.section && f in m.disk
    ensures FlushKept(old(m.State()), m.State(), f, start, length, leaked)
    ensures FlushOutcome(old(m.State()), m.State(), f, start, length, status, leaked, at, viewOk, segmentOk)
  {
    hide Inv, Covered, Clean, NextChunk, RoundDown, Walk, Progress, FlushKept, FlushOutcome, OnlyChunk, FailedAt,
         Leaked, ChunkFails;
    hide OnWalk, Advance, RangeEnd;
    ghost var s, lo, hi := m.State(), RoundDown(start), RangeEnd(start, length);
    leaked, at := None, start;
    ProgressStart(s, f, start, start + length, lo, hi, viewOk, segmentOk);
    WalkStarts(start);
    OutcomeNone(s, f, start, length, viewOk, segmentOk);
    if start + length > MAX_LONGLONG { return Overflow, None, start; }
    var current, end := start, start + length;
    ghost var done: nat := start;
    while current < end
      invariant Inv(m.State()) && (Covered(s) ==> Covered(m.State())) && f in m.views && f in m.section && f in m.disk
      invariant Progress(s, m.State(), f, start, done, end, lo, hi, viewOk, segmentOk)
      invariant start <= done <= end && done == Min(current, end) && leaked.None?
      invariant OnWalk(start, current) && (length == 0 ==> current == start)
      invariant current == start ==> m.State() == s
      decreases end - current
    {
      ghost var t := m.State();
      ChunkWithin(start, current, end);
      RangeEndIs(start, length);
      ProgressParts(s, t, f, start, done, end, lo, hi, viewOk, segmentOk);
      var ok;
      ok, leaked := FlushNext(m, f, start, current, end, viewOk, segmentOk);
      if !ok {
        OutcomeFailed(s, t, m.State(), f, start, current, length, leaked, viewOk, segmentOk);
        return Failed, leaked, current;
      }
      ProgressOn(s, t, m.State(), f, start, current, end, lo, hi, viewOk, segmentOk);
      done := Min(NextChunk(current), end);
      AdvanceIs(current);
      if current + GRANULARITY > MAX_LONGLONG {
        LastChunk(current, end);
        break;
      }
      current := Advance(current);
    }
    OutcomeDone(s, m.State(), f, start, length, viewOk, segmentOk);
    status := Done;
  }

  /** First offset behind the chunks of a range. */
  ghost function RangeEnd(start: nat, length: nat): nat { if length > 0 then NextChunk(start + length - 1) else 0 }

  /** What every flush keeps, whatever comes of it. */
  ghost predicate FlushKept(s: Cache, t: Cache, f: nat, start: nat, length: nat, leaked: Option<nat>) {
    && t.section == s.section && CaughtUp(s, t) && HeldStays(s, t) && (Unmapped(s) ==> Unmapped(t))
    && DiskOnly(s, t, f, RoundDown(start), RangeEnd(start, length)) && Leaked(s, t, leaked)
  }

  /** What each status means. */
  ghost predicate FlushOutcome(s: Cache, t: Cache, f: nat, start: nat, length: nat, status: FlushStatus,
                               leaked: Option<nat>, at: nat, viewOk: nat -> bool, segmentOk: nat -> bool)
    requires f in t.section && f in t.disk
  {
    && (status == Overflow <==> start + length > MAX_LONGLONG)
    && (status == Overflow || length == 0 ==> t == s) && (leaked.Some? ==> status == Failed)
    && (status == Done ==>
       Clean(t, f, start, start + length) && AllPass(s, f, start, start + length, viewOk, segmentOk))
    && (status == Failed ==>
          && ChunkAt(start, start + length, at) && ChunkFails(s, f, at, viewOk, segmentOk)
          && AllPass(s, f, start, at, viewOk, segmentOk) && FailedAt(t, f, start, at, leaked, viewOk, segmentOk))
  }

  lemma RangeEndIs(start: nat, length: nat)
    requires length > 0
    ensures RangeEnd(start, length) == NextChunk(start + length - 1)
  {
  }

  lemma WalkStarts(start: nat)
    ensures OnWalk(start, start)
  {
  }

  lemma OutcomeNone(s: Cache, f: nat, start: nat, length: nat, viewOk: nat -> bool, segmentOk: nat -> bool)
    requires Inv(s) && f in s.section && f in s.disk
    ensures FlushKept(s, s, f, start, length, None)
    ensures start + length > MAX_LONGLONG ==>
            FlushOutcome(s, s, f, start, length, Overflow, None, start, viewOk, segmentOk)
  {
    hide Inv;
    CaughtUpSame(s, s);
    HeldStaysHere(s);
  }

  lemma OutcomeDone(s: Cache, t: Cache, f: nat, start: nat, length: nat, viewOk: nat -> bool, segmentOk: nat -> bool)
    requires f in t.section && f in t.disk && start + length <= MAX_LONGLONG && (length == 0 ==> t == s)
    requires Progress(s, t, f, start, start + length, start + length, RoundDown(start), RangeEnd(start, length),
                      viewOk, segmentOk)
    ensures FlushKept(s, t, f, start, length, None)
    ensures FlushOutcome(s, t, f, start, length, Done, None, start, viewOk, segmentOk)
  {
    hide Clean, AllPass, HeldStays, DiskOnly, Untouched;
  }

  lemma OutcomeFailed(s: Cache, t: Cache, u: Cache, f: nat, start: nat, at: nat, length: nat, leaked: Option<nat>,
                      viewOk: nat -> bool, segmentOk: nat -> bool)
    requires Inv(s) && f in t.section && f in t.disk && f in u.section && f in u.disk && start + length <= MAX_LONGLONG
    requires Progress(s, t, f, start, at, start + length, RoundDown(start), RangeEnd(start, length), viewOk, segmentOk)
    requires ChunkAt(start, start + length, at) && Walk(t, u, f, RoundDown(at), NextChunk(at)) && Leaked(t, u, leaked)
    requires ChunkFails(t, f, at, viewOk, segmentOk) && FailedAt(u, f, start, at, leaked, viewOk, segmentOk)
    ensures FlushKept(s, u, f, start, length, leaked)
    ensures FlushOutcome(s, u, f, start, length, Failed, leaked, at, viewOk, segmentOk)
  {
    hide Inv, Clean, AllPass, ChunkFails, Untouched, RoundDown, NextChunk, HeldStays, DiskOnly, FailedAt;
    ChunkWithin(start, at, start + length);
    SameFailure(s, t, f, at, viewOk, segmentOk);
    WalkOn(s, t, u, f, RoundDown(start), RangeEnd(start, length), RoundDown(at), NextChunk(at));
    LeakedOn(s, t, u, leaked);
  }

  /** The walk over start..end is clean up to `done`. */
  ghost predicate Progress(s: Cache, t: Cache, f: nat, start: nat, done: nat, end: nat, lo: nat, hi: nat,
                           viewOk: nat -> bool, segmentOk: nat -> bool)
    requires f in t.section && f in t.disk
  {
    && Walk(s, t, f, lo, hi) && Leaked(s, t, None) && Clean(t, f, start, done)
    && AllPass(s, f, start, done, viewOk, segmentOk) && (done < end ==> Untouched(s, t, f, RoundDown(done)))
  }

  lemma ProgressStart(s: Cache, f: nat, start: nat, end: nat, lo: nat, hi: nat, viewOk: nat -> bool,
                      segmentOk: nat -> bool)
    requires Inv(s) && f in s.section && f in s.disk
    ensures Progress(s, s, f, start, start, end, lo, hi, viewOk, segmentOk)
  {
    hide Inv;
    CaughtUpSame(s, s);
    HeldStaysHere(s);
    CleanNone(s, f, start);
    PassStart(s, f, start, viewOk, segmentOk);
  }

  lemma ProgressParts(s: Cache, t: Cache, f: nat, start: nat, done: nat, end: nat, lo: nat, hi: nat,
                      viewOk: nat -> bool, segmentOk: nat -> bool)
    requires f in t.section && f in t.disk && Progress(s, t, f, start, done, end, lo, hi, viewOk, segmentOk)
    ensures Clean(t, f, start, done)
  {
  }

  lemma ProgressOn(s: Cache, t: Cache, u: Cache, f: nat, start: nat, at: nat, end: nat, lo: nat, hi: nat,
                   viewOk: nat -> bool, segmentOk: nat -> bool)
    requires Inv(s) && f in t.section && f in t.disk && Progress(s, t, f, start, at, end, lo, hi, viewOk, segmentOk)
    requires ChunkAt(start, end, at)
    requires OnlyChunk(t, u, f, RoundDown(at), NextChunk(at)) && Walk(t, u, f, RoundDown(at), NextChunk(at))
    requires Leaked(t, u, None)
    requires f in u.section && f in u.disk && Clean(u, f, start, Min(NextChunk(at), end))
    requires !ChunkFails(t, f, at, viewOk, segmentOk)
    requires lo <= RoundDown(at) && NextChunk(at) <= hi
    ensures Progress(s, u, f, start, Min(NextChunk(at), end), end, lo, hi, viewOk, segmentOk)
  {
    hide Inv, Clean, OnlyChunk, Walk, AllPass, ChunkFails, Untouched, RoundDown, NextChunk;
    SameFailure(s, t, f, at, viewOk, segmentOk);
    PassedOn(s, f, start, at, end, viewOk, segmentOk);
    WalkOn(s, t, u, f, lo, hi, RoundDown(at), NextChunk(at));
    LeakedOn(s, t, u, None);
    UntouchedOn(s, t, u, f, at);
    AdvanceIs(at);
  }

  /** What the walk has changed so far. */
  ghost predicate Walk(s: Cache, t: Cache, f: nat, lo: nat, hi: nat) {
    && CaughtUp(s, t) && HeldStays(s, t) && DiskOnly(s, t, f, lo, hi) && (Unmapped(s) ==> Unmapped(t))
  }

  lemma WalkOn(s: Cache, t: Cache, u: Cache, f: nat, lo: nat, hi: nat, c0: nat, c1: nat)
    requires Walk(s, t, f, lo, hi) && Walk(t, u, f, c0, c1) && lo <= c0 && c1 <= hi
    ensures Walk(s, u, f, lo, hi)
  {
    hide HeldStays, CaughtUp, DiskOnly;
    HeldStaysThrough(s, t, u);
    CaughtUpThrough(s, t, u);
    DiskThrough(s, t, u, f, lo, hi, c0, c1);
  }

  lemma LeakedOn(s: Cache, t: Cache, u: Cache, leaked: Option<nat>)
    requires Leaked(s, t, None) && Leaked(t, u, leaked)
    ensures Leaked(s, u, leaked)
  {
  }

  /** The chunk at `at` joins what is clean from `start` on, or the walk fails there. */
  method FlushNext(m: Manager, f: nat, start: nat, at: nat, end: nat, viewOk: nat -> bool, segmentOk: nat -> bool)
    returns (ok: bool, leaked: Option<nat>)
    requires Inv(m.State()) && f in m.views && f in m.section && f in m.disk && ChunkAt(start, end, at)
    requires Clean(m.State(), f, start, at)
    modifies m
    ensures Inv(m.State()) && (old(Covered(m.State())) ==> Covered(m.State())) && f in m.views && f in m.section
    ensures f in m.disk
    ensures Walk(old(m.State()), m.State(), f, RoundDown(at), NextChunk(at))
    ensures Leaked(old(m.State()), m.State(), leaked)
    ensures OnlyChunk(old(m.State()), m.State(), f, RoundDown(at), NextChunk(at))
    ensures ok ==> leaked.None? && Clean(m.State(), f, start, Min(NextChunk(at), end))
    ensures !ok ==> FailedAt(m.State(), f, start, at, leaked, viewOk, segmentOk)
    ensures ok <==> !ChunkFails(old(m.State()), f, at, viewOk, segmentOk)
  {
    hide Inv, Covered, OnlyChunk, Clean;
    ghost var t := m.State();
    ok, leaked := FlushChunk(m, f, at, end, viewOk, segmentOk);
    ghost var u, hi := m.State(), Min(NextChunk(at), end);
    ChunkWalk(t, u, f, RoundDown(at), NextChunk(at), leaked);
    if ok {
      CleanJoins(t, u, f, start, at, hi, RoundDown(at), NextChunk(at));
    } else {
      CleanNone(u, f, at);
      CleanJoins(t, u, f, start, at, at, RoundDown(at), NextChunk(at));
      NoCover(t, u, f, at);
    }
  }

  /** A chunk makes no view dirty. */
  lemma NoCover(s: Cache, t: Cache, f: nat, at: nat)
    requires OnlyChunk(s, t, f, RoundDown(at), NextChunk(at))
    ensures DirtyCover(t, f, at) ==> DirtyCover(s, f, at)
  {
    if DirtyCover(t, f, at) {
      var v :| Covers(t, v, f, at) && t.vacbs[v].dirty;
      assert Covers(s, v, f, at) && s.vacbs[v].dirty;
    }
  }

  lemma ChunkWalk(s: Cache, t: Cache, f: nat, lo: nat, hi: nat, leaked: Option<nat>)
    requires Inv(s) && Inv(t) && OnlyChunk(s, t, f, lo, hi) && Leaked(s, t, leaked)
    ensures Walk(s, t, f, lo, hi)
  {
    hide Linked, Viewed, Totalled, CaughtUp, DiskOnly;
  }
}
