/**
 Whole runs of the cache: any sequence of reads, writes, write-backs, trims, flushes, evictions and
 purges shows clients the same bytes as a flat file system without views, and a flush then puts
 exactly these on the disk.
 */
module CacheRun {
  import opened Sequences
  import opened VacbCache
  import opened CacheManager
  import opened CacheCopy
  import opened CacheTrim
  import opened CacheFlush
  import opened CachePurge
  import CachePin

  /** What clients, the lazy writer and memory pressure ask for. */
  datatype Request =
    | Write(f: nat, offset: nat, data: seq<byte>, resident: (nat, nat) -> bool)
    | Read(f: nat, offset: nat, length: nat, resident: (nat, nat) -> bool)
    | WriteBack(target: nat, wait: bool, answers: seq<Answer>)
    | Trim(target: nat, answers: seq<Answer>)
    | FreeOne
    | Flush(f: nat, offset: nat, length: nat, viewOk: nat -> bool, segmentOk: nat -> bool)
    | Purge(f: nat, offset: nat, length: nat, mm: bool)

  type Files = map<nat, seq<byte>>

  /** A flat file system: what its files show, and what of it is stored. */
  datatype Flat = Flat(shown: Files, stored: Files)

  ghost predicate Fits(answers: seq<Answer>) {
    forall k :: 0 <= k < |answers| ==> Counts(answers[k]) <= PAGES
  }

  /** The request names an open file and a range inside it. */
  ghost predicate Valid(files: Files, r: Request) {
    match r
    case Write(f, offset, data, _) => f in files && offset + |data| <= |files[f]|
    case Read(f, offset, length, _) => f in files && offset + length <= |files[f]|
    case WriteBack(_, _, answers) => Fits(answers)
    case Trim(_, answers) => Fits(answers)
    case FreeOne => true
    case Flush(f, _, _, _, _) => f in files
    case Purge(f, _, _, _) => f in files
  }

  ghost predicate SameSizes(a: Files, b: Files) {
    a.Keys == b.Keys && forall f :: f in a ==> |a[f]| == |b[f]|
  }

  /** What a request did: how many bytes it wrote, the bytes it answered, whether it succeeded, and
      for a trim whether its assertion held. */
  datatype Reply = Reply(count: nat, answer: seq<byte>, ok: bool, asserted: bool)

  /** From a to b some stored bytes were brought up to what is shown. */
  ghost predicate Stores(a: Flat, b: Flat) {
    && b.shown == a.shown && SameSizes(a.shown, a.stored) && SameSizes(a.stored, b.stored)
    && forall f, i :: f in a.stored && 0 <= i < |a.stored[f]| ==>
         b.stored[f][i] == a.stored[f][i] || b.stored[f][i] == a.shown[f][i]
  }

  /** A flat file system, without views, takes `a` to `b` on the request with this reply. */
  ghost predicate Served(a: Flat, r: Request, reply: Reply, b: Flat) {
    Valid(a.shown, r) && reply.asserted && match r
    case Write(f, offset, data, resident) =>
      && reply.count <= |data| && b.stored == a.stored
      && b.shown == a.shown[f := Overwrite(a.shown[f], offset, data[..reply.count])]
      && ((forall v, o :: resident(v, o)) ==> reply.count == |data|)
    case Read(f, offset, length, resident) =>
      && b == a && |reply.answer| <= length && reply.answer == a.shown[f][offset..offset + |reply.answer|]
      && ((forall v, o :: resident(v, o)) ==> |reply.answer| == length)
    case WriteBack(_, _, _) => Stores(a, b)
    case Trim(_, _) => Stores(a, b)
    case FreeOne => b == a
    case Flush(f, offset, length, _, _) =>
      && Stores(a, b)
      && (reply.ok ==> forall i :: offset <= i < offset + length && i < |a.shown[f]| ==>
         b.stored[f][i] == a.shown[f][i])
    case Purge(f, offset, length, _) =>
      && b.stored == a.stored && f in a.stored && |a.stored[f]| == |a.shown[f]|
      && b.shown == if reply.ok then a.shown[f := Spliced(a.shown[f], a.stored[f], offset, PurgeEnd(offset, length))]
         else a.shown
  }

  /** The flat file system goes through `states` on the requests. */
  ghost predicate Runs(states: seq<Flat>, requests: seq<Request>, replies: seq<Reply>) {
    && |states| == |requests| + 1 && |replies| == |requests|
    && forall k :: 0 <= k < |requests| ==> Served(states[k], requests[k], replies[k], states[k + 1])
  }

  lemma RunsMore(states: seq<Flat>, requests: seq<Request>, replies: seq<Reply>, n: nat, b: Flat, reply: Reply)
    requires n < |requests| && Runs(states, requests[..n], replies) && Served(states[n], requests[n], reply, b)
    ensures Runs(states + [b], requests[..n + 1], replies + [reply])
  {
    hide Served;
    var more, rs := states + [b], replies + [reply];
    forall k | 0 <= k < n + 1 ensures Served(more[k], requests[..n + 1][k], rs[k], more[k + 1]) {
      if k < n {
        assert requests[..n][k] == requests[k] && Served(states[k], requests[..n][k], replies[k], states[k + 1]);
      }
    }
  }

  lemma RunsNone(states: seq<Flat>, requests: seq<Request>)
    requires |states| == 1 && requests == []
    ensures Runs(states, requests, [])
  {
  }

  lemma ValidKept(a: Files, b: Files, r: Request)
    requires Valid(a, r) && SameSizes(a, b)
    ensures Valid(b, r)
  {
  }

  lemma ServedSizes(a: Flat, r: Request, reply: Reply, b: Flat)
    requires Served(a, r, reply, b)
    ensures SameSizes(a.shown, b.shown)
  {
  }

  ghost function Shows(m: Manager): Flat
    reads m
  {
    Flat(m.section, m.disk)
  }

  lemma CaughtUpStores(s: Cache, t: Cache)
    requires CaughtUp(s, t)
    ensures Stores(Flat(s.section, s.disk), Flat(t.section, t.disk))
  {
  }

  // ----------------------------------------------------------------- requests

  method ServeCopy(m: Manager, r: Request) returns (reply: Reply)
    requires Inv(m.State()) && Unmapped(m.State()) && Valid(m.section, r) && (r.Write? || r.Read?)
    modifies m
    ensures Inv(m.State()) && Unmapped(m.State()) && HeldStays(old(m.State()), m.State())
    ensures old(Covered(m.State())) ==> Covered(m.State())
    ensures Served(old(Shows(m)), r, reply, Shows(m))
  {
    hide Covered, Unmapped, Overwrite, SameHolds, HeldStays;
    hide Referenced, Linked, Viewed, Totalled;
    ghost var s := m.State();
    if r.Write? {
      var ok, written := CopyWrite(m, r.f, r.offset, r.data, r.resident);
      reply := Reply(written, [], ok, true);
    } else {
      var buffer := new byte[r.length](_ => 0);
      var ok, copied := CopyRead(m, r.f, r.offset, r.length, buffer, r.resident);
      reply := Reply(0, buffer[..copied], ok, true);
    }
    SameHoldsStays(s, m.State());
  }

  method ServeWrites(m: Manager, r: Request) returns (reply: Reply)
    requires Inv(m.State()) && Unmapped(m.State()) && Valid(m.section, r) && (r.WriteBack? || r.Trim?)
    modifies m
    ensures Inv(m.State()) && Unmapped(m.State()) && HeldStays(old(m.State()), m.State())
    ensures old(Covered(m.State())) ==> Covered(m.State())
    ensures Served(old(Shows(m)), r, reply, Shows(m))
  {
    hide Inv, Covered, Unmapped, WrittenBack, HeldStays, CaughtUp, AllSound, Stores;
    ghost var s := m.State();
    if r.WriteBack? {
      var count, used, finished := FlushDirtyPages(m, r.target, r.wait, r.answers);
      reply := Reply(count, [], finished, true);
      WrittenTrimmed(s, m.State());
    } else {
      var freed, finished, asserted := TrimCache(m, r.target, r.answers);
      reply := Reply(freed, [], finished, asserted);
      UnmappedSound(s);
      UnmappedSound(m.State());
    }
    CaughtUpStores(s, m.State());
  }

  method ServeFlush(m: Manager, r: Request) returns (reply: Reply)
    requires Inv(m.State()) && Unmapped(m.State()) && Valid(m.section, r) && r.Flush?
    modifies m
    ensures Inv(m.State()) && Unmapped(m.State()) && HeldStays(old(m.State()), m.State())
    ensures old(Covered(m.State())) ==> Covered(m.State())
    ensures Served(old(Shows(m)), r, reply, Shows(m))
  {
    hide Covered, Unmapped, HeldStays, CaughtUp, Stores, DiskOnly, FailedAt, Leaked, AllPass, ChunkFails;
    hide Referenced, Linked, Viewed, Totalled;
    ghost var s := m.State();
    var status, leaked;
    ghost var at;
    status, leaked, at := FlushCache(m, r.f, r.offset, r.length, r.viewOk, r.segmentOk);
    reply := Reply(0, [], status == Done, true);
    CaughtUpStores(s, m.State());
  }

  method ServePurge(m: Manager, r: Request) returns (reply: Reply)
    requires Inv(m.State()) && Unmapped(m.State()) && Valid(m.section, r) && r.Purge?
    modifies m
    ensures Inv(m.State()) && Unmapped(m.State()) && HeldStays(old(m.State()), m.State())
    ensures reply.ok && old(Covered(m.State())) ==> Covered(m.State())
    ensures Served(old(Shows(m)), r, reply, Shows(m))
  {
    hide Covered, Unmapped, HeldStays, Purged, Free, Dropped, Synced;
    hide Referenced, Linked, Viewed, Totalled;
    var ok := PurgeCacheSection(m, r.f, r.offset, r.length, r.mm);
    reply := Reply(0, [], ok, true);
  }

  method ServeFree(m: Manager) returns (reply: Reply)
    requires Inv(m.State()) && Unmapped(m.State())
    modifies m
    ensures Inv(m.State()) && Unmapped(m.State()) && HeldStays(old(m.State()), m.State())
    ensures old(Covered(m.State())) ==> Covered(m.State())
    ensures Served(old(Shows(m)), FreeOne, reply, Shows(m))
  {
    hide Inv, Covered, Unmapped, HeldStays, Evict;
    ghost var s := m.State();
    var freed := m.FreeOneUnusedVacb();
    if freed {
      ghost var k :| 0 <= k < |s.lru| && FirstUnused(s, k) && m.State() == Evict(s, s.lru[k]);
      EvictStays(s, s.lru[k]);
    } else {
      HeldStaysHere(s);
    }
    reply := Reply(0, [], freed, true);
  }

  lemma EvictStays(s: Cache, v: nat)
    requires Inv(s) && v in s.vacbs && s.vacbs[v].refs == 1 && s.vacbs[v].file in s.views
    ensures HeldStays(s, Evict(s, v)) && (Unmapped(s) ==> Unmapped(Evict(s, v)))
    ensures Evict(s, v).section == s.section && Evict(s, v).disk == s.disk
  {
    hide Linked, Viewed, Totalled, Without;
    ReferencedAt(s, v);
  }

  /** One request. */
  method ServeOne(m: Manager, r: Request) returns (reply: Reply)
    requires Inv(m.State()) && Unmapped(m.State()) && Valid(m.section, r)
    modifies m
    ensures Inv(m.State()) && Unmapped(m.State()) && HeldStays(old(m.State()), m.State())
    ensures (r.Purge? ==> reply.ok) && old(Covered(m.State())) ==> Covered(m.State())
    ensures Served(old(Shows(m)), r, reply, Shows(m))
  {
    hide *;
    if r.Write? || r.Read? { reply := ServeCopy(m, r); }
    else if r.WriteBack? || r.Trim? { reply := ServeWrites(m, r); }
    else if r.Flush? { reply := ServeFlush(m, r); }
    else if r.Purge? { reply := ServePurge(m, r); }
    else { reply := ServeFree(m); }
  }

  /** Every run refines the flat file system, whatever is evicted, written back or dropped on the
      way. The assertion of the trim holds, held views stay, and as long as no purge failed every
      unwritten byte is in a dirty view. */
  method Serve(m: Manager, requests: seq<Request>) returns (replies: seq<Reply>, ghost states: seq<Flat>)
    requires Inv(m.State()) && Covered(m.State()) && Unmapped(m.State())
    requires forall k :: 0 <= k < |requests| ==> Valid(m.section, requests[k])
    modifies m
    ensures Inv(m.State()) && Unmapped(m.State()) && HeldStays(old(m.State()), m.State())
    ensures Runs(states, requests, replies) && states[0] == old(Shows(m)) && states[|requests|] == Shows(m)
    ensures SameSizes(old(m.section), m.section)
    ensures (forall k :: 0 <= k < |requests| && requests[k].Purge? ==> replies[k].ok) ==> Covered(m.State())
  {
    hide Inv, Covered, Unmapped, Runs, Served, Valid, HeldStays;
    HeldStaysHere(m.State());
    replies, states := [], [Shows(m)];
    assert Runs(states, requests[..0], replies) by { RunsNone(states, requests[..0]); }
    var n := 0;
    while n < |requests|
      invariant 0 <= n <= |requests| && Inv(m.State()) && Unmapped(m.State()) && HeldStays(old(m.State()), m.State())
      invariant |states| == n + 1 && |replies| == n && Runs(states, requests[..n], replies)
      invariant states[0] == old(Shows(m)) && states[n] == Shows(m) && SameSizes(old(m.section), m.section)
      invariant (forall k :: 0 <= k < n && requests[k].Purge? ==> replies[k].ok) ==> Covered(m.State())
    {
      ValidKept(old(m.section), m.section, requests[n]);
      ghost var a, s := Shows(m), m.State();
      var reply := ServeOne(m, requests[n]);
      RunsMore(states, requests, replies, n, Shows(m), reply);
      ServedSizes(a, requests[n], reply, Shows(m));
      HeldStaysThrough(old(m.State()), s, m.State());
      replies, states := replies + [reply], states + [Shows(m)];
      n := n + 1;
    }
    assert requests[..n] == requests;
  }

  /** After any run, a flush of a whole file that reports success leaves on the disk exactly what
      the flat file system shows. */
  method ServeAndFlush(m: Manager, requests: seq<Request>, f: nat, viewOk: nat -> bool, segmentOk: nat -> bool)
    returns (replies: seq<Reply>, ghost states: seq<Flat>, status: FlushStatus)
    requires Inv(m.State()) && Covered(m.State()) && Unmapped(m.State()) && f in m.section
    requires forall k :: 0 <= k < |requests| ==> Valid(m.section, requests[k])
    modifies m
    ensures Runs(states, requests, replies) && states[0] == old(Shows(m))
    ensures status == Done ==> f in states[|requests|].shown && f in m.disk && m.disk[f] == states[|requests|].shown[f]
    ensures |old(m.section)[f]| <= MAX_LONGLONG && (forall v :: viewOk(v)) && (forall i :: segmentOk(i)) ==>
            status == Done
  {
    hide Covered, Unmapped, Runs, Served, Valid, HeldStays, CaughtUp, DiskOnly, FailedAt, Leaked, AllPass;
    hide Referenced, Linked, Viewed, Totalled;
    replies, states := Serve(m, requests);
    var leaked;
    ghost var at;
    status, leaked, at := FlushCache(m, f, 0, |m.section[f]|, viewOk, segmentOk);
    if status == Done { assert m.disk[f] == m.section[f]; }
  }

  /** The same while ranges are mapped and pinned: no run takes a view from under a BCB, so every
      buffer handed out stays a place in the same part of the file. */
  method ServePinned(pm: CachePin.PinManager, requests: seq<Request>)
    returns (replies: seq<Reply>, ghost states: seq<Flat>)
    requires CachePin.PinInv(pm.State()) && Covered(pm.m.State()) && Unmapped(pm.m.State())
    requires forall k :: 0 <= k < |requests| ==> Valid(pm.m.section, requests[k])
    modifies pm.m
    ensures CachePin.PinInv(pm.State()) && Unmapped(pm.m.State())
    ensures Runs(states, requests, replies) && states[0] == old(Shows(pm.m)) && states[|requests|] == Shows(pm.m)
    ensures forall b :: b in pm.bcbs ==>
              var v := pm.bcbs[b].vacb;
              v in old(pm.m.vacbs) && v in pm.m.vacbs && pm.m.vacbs[v].file == old(pm.m.vacbs)[v].file
              && pm.m.vacbs[v].offset == old(pm.m.vacbs)[v].offset
  {
    hide Inv, Covered, Unmapped, Runs, Valid;
    hide CachePin.Counted, CachePin.Listed, CachePin.Owned, CachePin.Anchored;
    ghost var p := pm.State();
    replies, states := Serve(pm.m, requests);
    CachePin.CacheKeeps(p, pm.m.State());
    forall b | b in pm.bcbs
      ensures var v := p.bcbs[b].vacb; v in p.cache.vacbs && v in p.cache.holders && p.cache.holders[v] > 0
    {
      CachePin.OwnsHold(p, b);
    }
  }

  // ------------------------------------------------------------------ the leak

  lemma UnwrittenCover(s: Cache, f: nat, i: nat)
    requires Covered(s) && f in s.section && f in s.disk && i < |s.section[f]| && i < |s.disk[f]|
    requires s.section[f][i] != s.disk[f][i]
    ensures DirtyCover(s, f, i)
  {
    assert InDirtyView(s, f, i);
    var v :| v in s.vacbs && s.vacbs[v].dirty && s.vacbs[v].file == f && InView(s.vacbs[v], i);
    assert Covers(s, v, f, i);
  }

  lemma FailsFirst(s: Cache, f: nat, viewOk: nat -> bool, segmentOk: nat -> bool)
    requires DirtyCover(s, f, 0) && forall v :: !viewOk(v)
    ensures !AllPass(s, f, 0, 1, viewOk, segmentOk)
  {
    assert ChunkAt(0, 1, 0) && ChunkFails(s, f, 0, viewOk, segmentOk);
  }

  lemma NobodyHolds(s: Cache, t: Cache, v: nat)
    requires SameHolds(s, t) && s.vacbs == map[] && v in t.holders
    ensures t.holders[v] == 0
  {
  }

  /** A byte written to a new file and a flush whose write fails: nobody holds the view any more,
      and yet its reference stays. */
  method LeakingFlush() returns (m: Manager, v: nat, status: FlushStatus)
    ensures fresh(m) && Inv(m.State()) && status == FlushStatus.Failed
    ensures v in m.holders && m.holders[v] == 1 && v in m.vacbs && m.vacbs[v].dirty
  {
    hide Covered, Unmapped, SameHolds, HeldStays, CaughtUp, DiskOnly, Clean, AllPass;
    hide Referenced, Linked, Viewed, Totalled;
    var file: seq<byte> := seq(2 * GRANULARITY, i => 0);
    m := new Manager(map[7 := file]);
    ghost var s := m.State();
    var ok, written := CopyWrite(m, 7, 0, [1], (_, _) => true);
    ghost var t := m.State();
    assert m.section[7][0] == 1 && m.disk[7][0] == 0;
    UnwrittenCover(t, 7, 0);
    var no, yes := (x: nat) => false, (x: nat) => true;
    FailsFirst(t, 7, no, yes);
    var leaked;
    ghost var at;
    status, leaked, at := FlushCache(m, 7, 0, 1, no, yes);
    assert at == 0;
    v := leaked.value;
    NobodyHolds(s, t, v);
  }

  // --------------------------------------------------------- the flush of everything

  lemma SomethingDirty(s: Cache, f: nat, i: nat)
    requires Inv(s) && DirtyCover(s, f, i)
    ensures s.dirtyList != []
  {
    hide Viewed, Totalled, Referenced;
  }

  /** A byte written to a new file that others keep in lazy write: the flush of everything that a
      shutdown asks for has not ended after any number of attempts. */
  method StuckFlushAll(attempts: nat) returns (m: Manager, finished: bool)
    ensures fresh(m) && Inv(m.State()) && m.dirtyList != [] && !finished
  {
    hide Covered, Unmapped, SameHolds, HeldStays, Ends, Stops;
    hide Referenced, Linked, Viewed, Totalled;
    var file: seq<byte> := seq(2 * GRANULARITY, i => 0);
    m := new Manager(map[7 := file]);
    var ok, written := CopyWrite(m, 7, 0, [1], (_, _) => true);
    assert m.section[7][0] == 1 && m.disk[7][0] == 0;
    UnwrittenCover(m.State(), 7, 0);
    SomethingDirty(m.State(), 7, 0);
    var answers := seq(attempts, _ => Skipped);
    SkippedFlushAll(answers, |m.dirtyList|, true);
    var count, used;
    count, used, finished := FlushDirtyPages(m, MAX_ULONG, true, answers);
  }
}
