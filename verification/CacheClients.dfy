/**
 Whole runs with mapped and pinned buffers: the calls of CacheRun interleaved in any order with
 calls that map, pin, repin and unpin ranges and that read and write through the buffers. What a
 client got from such a call it names by a handle; a call on a handle that is not there, is closed
 or is of another kind is refused.
 */
module CacheClients {
  import opened Sequences
  import opened VacbCache
  import opened CacheManager
  import opened CacheCopy
  import opened CacheFlush
  import opened CachePin
  import opened CacheRun

  datatype Call =
    | Plain(request: Request)
    | MapRange(f: nat, offset: nat, length: nat, resident: bool)
    | PinRange(f: nat, offset: nat, length: nat, ifBcb: bool, granted: bool, resident: bool)
    | PinMapped(h: nat, f: nat, offset: nat, length: nat, pinAccess: bool, ifBcb: bool, granted: bool, resident: bool)
    | Release(h: nat)
    | Again(h: nat)
    | ReleaseAgain(h: nat, writeThrough: bool, viewOk: nat -> bool, segmentOk: nat -> bool)
    | WriteBuffer(h: nat, f: nat, at: nat, data: seq<byte>)
    | ReadBuffer(h: nat, f: nat, at: nat, length: nat)

  datatype Handle = Closed | Handle(bcb: nat, kind: Kind)

  ghost predicate ValidCall(files: Files, c: Call) {
    match c
    case Plain(r) => Valid(files, r)
    case MapRange(f, _, _, _) => f in files
    case PinRange(f, _, _, _, _, _) => f in files
    case PinMapped(_, f, _, _, _, _, _, _) => f in files
    case _ => true
  }

  /** What a flat file system does on the call. Mapping and pinning show nothing. */
  ghost predicate Acts(a: Flat, c: Call, reply: Reply, b: Flat) {
    ValidCall(a.shown, c) && match c
    case Plain(r) => Served(a, r, reply, b)
    case ReleaseAgain(_, _, _, _) => Stores(a, b)
    case WriteBuffer(_, f, at, data) =>
      if reply.ok then
        && f in a.shown && at + |data| <= |a.shown[f]| && b.stored == a.stored
        && b.shown == a.shown[f := Overwrite(a.shown[f], at, data)]
      else b == a
    case ReadBuffer(_, f, at, length) =>
      && b == a
      && (reply.ok ==>
            f in a.shown && at + length <= |a.shown[f]| && reply.answer == a.shown[f][at..at + length])
    case _ => b == a
  }

  lemma ActsSizes(a: Flat, c: Call, reply: Reply, b: Flat)
    requires Acts(a, c, reply, b)
    ensures SameSizes(a.shown, b.shown)
  {
    if c.Plain? { ServedSizes(a, c.request, reply, b); }
    hide Served, Valid;
  }

  lemma ValidCallKept(a: Files, b: Files, c: Call)
    requires ValidCall(a, c) && SameSizes(a, b)
    ensures ValidCall(b, c)
  {
    if c.Plain? { ValidKept(a, b, c.request); }
  }

  // ------------------------------------------------------------------ handles

  function IsHandle(x: Handle, b: nat, kind: Kind): nat { One(x == Handle(b, kind)) }

  /** How many open handles of a kind there are on a BCB. */
  function Open(handles: seq<Handle>, b: nat, kind: Kind): nat {
    if handles == [] then 0
    else Open(handles[..|handles| - 1], b, kind) + IsHandle(handles[|handles| - 1], b, kind)
  }

  lemma OpenMore(handles: seq<Handle>, x: Handle, b: nat, kind: Kind)
    ensures Open(handles + [x], b, kind) == Open(handles, b, kind) + IsHandle(x, b, kind)
  {
    assert (handles + [x])[..|handles|] == handles;
  }

  lemma {:induction false} OpenClose(handles: seq<Handle>, h: nat, b: nat, kind: Kind)
    requires h < |handles|
    ensures Open(handles[h := Closed], b, kind) + IsHandle(handles[h], b, kind) == Open(handles, b, kind)
  {
    var n := |handles| - 1;
    if h == n {
      assert handles[h := Closed][..n] == handles[..n];
    } else {
      assert handles[h := Closed][..n] == handles[..n][h := Closed];
      OpenClose(handles[..n], h, b, kind);
    }
  }

  function Uses(users: map<nat, Users>, b: nat, kind: Kind): nat { if b in users then Has(users[b], kind) else 0 }

  /** Every open handle stands for a user of its BCB. */
  ghost predicate Backed(users: map<nat, Users>, handles: seq<Handle>) {
    forall b, kind :: Open(handles, b, kind) <= Uses(users, b, kind)
  }

  lemma HandleBacked(users: map<nat, Users>, handles: seq<Handle>, h: nat)
    requires Backed(users, handles) && h < |handles| && handles[h].Handle?
    ensures handles[h].bcb in users && Has(users[handles[h].bcb], handles[h].kind) > 0
  {
    OpenClose(handles, h, handles[h].bcb, handles[h].kind);
    assert Open(handles, handles[h].bcb, handles[h].kind) <= Uses(users, handles[h].bcb, handles[h].kind);
  }

  lemma BackedGot(p: Pins, q: Pins, handles: seq<Handle>, b: nat, kind: Kind)
    requires Backed(p.users, handles) && GotUser(p, q, b, kind)
    ensures Backed(q.users, handles + [Handle(b, kind)])
  {
    hide Open;
    forall x, k ensures Open(handles + [Handle(b, kind)], x, k) <= Uses(q.users, x, k) {
      OpenMore(handles, Handle(b, kind), x, k);
      assert Open(handles, x, k) <= Uses(p.users, x, k);
    }
  }

  lemma BackedLost(p: Pins, q: Pins, handles: seq<Handle>, h: nat)
    requires Backed(p.users, handles) && h < |handles| && handles[h].Handle?
    requires BcbLost(p, q, handles[h].bcb, handles[h].kind)
    ensures Backed(q.users, handles[h := Closed])
  {
    hide Open;
    forall x, k ensures Open(handles[h := Closed], x, k) <= Uses(q.users, x, k) {
      OpenClose(handles, h, x, k);
      assert Open(handles, x, k) <= Uses(p.users, x, k);
    }
  }

  lemma BackedExchanged(p: Pins, q: Pins, handles: seq<Handle>, h: nat, b: nat)
    requires Backed(p.users, handles) && h < |handles| && handles[h].Handle? && handles[h].kind == Map
    requires Exchanged(p, q, handles[h].bcb, b)
    ensures Backed(q.users, handles[h := Closed] + [Handle(b, Pin)])
  {
    hide Open;
    forall x, k ensures Open(handles[h := Closed] + [Handle(b, Pin)], x, k) <= Uses(q.users, x, k) {
      OpenMore(handles[h := Closed], Handle(b, Pin), x, k);
      OpenClose(handles, h, x, k);
      assert Open(handles, x, k) <= Uses(p.users, x, k);
    }
  }

  // -------------------------------------------------------------------- calls

  ghost predicate Good(p: Pins, handles: seq<Handle>) {
    PinInv(p) && Unmapped(p.cache) && Backed(p.users, handles)
  }

  ghost function ShowsOf(p: Pins): Flat { Flat(p.cache.section, p.cache.disk) }

  lemma FileListed(p: Pins, f: nat)
    requires PinInv(p) && f in p.cache.section
    ensures f in p.lists
  {
    hide Counted, Anchored, Owned;
  }

  /** What the calls on BCBs leave: nothing shows. */
  lemma OthersAct(p: Pins, q: Pins)
    requires OthersSame(p, q)
    ensures ShowsOf(q) == ShowsOf(p) && (Covered(p.cache) ==> Covered(q.cache))
    ensures Unmapped(p.cache) ==> Unmapped(q.cache)
  {
    hide OthersHeld, Covered;
    if Covered(p.cache) { OthersCovered(p, q); }
  }

  const REFUSED := Reply(0, [], false, true)
  const DONE := Reply(0, [], true, true)

  method ServeRange(pm: PinManager, handles: seq<Handle>, c: Call) returns (reply: Reply, after: seq<Handle>)
    requires Good(pm.State(), handles) && ValidCall(pm.m.section, c) && (c.MapRange? || c.PinRange?)
    modifies pm, pm.m
    ensures Good(pm.State(), after) && Acts(old(ShowsOf(pm.State())), c, reply, ShowsOf(pm.State()))
    ensures old(Covered(pm.m.State())) ==> Covered(pm.m.State())
  {
    hide PinInv, Unmapped, Covered, Backed, OthersSame, GotUser, Serves, CachePin.Shows, Misplaced, NoFit, SameBcbs;
    ghost var p := pm.State();
    FileListed(p, c.f);
    var r;
    if c.MapRange? {
      r := pm.MapData(c.f, c.offset, c.length, c.resident, Fresh(pm.m.vacbs), Fresh(pm.bcbs));
    } else {
      r := pm.PinData(c.f, c.offset, c.length, c.ifBcb, c.granted, c.resident, Fresh(pm.m.vacbs), Fresh(pm.bcbs));
    }
    OthersAct(p, pm.State());
    if r.Some? {
      var kind := if c.MapRange? then Map else Pin;
      BackedGot(p, pm.State(), handles, r.value.bcb, kind);
      reply, after := DONE, handles + [Handle(r.value.bcb, kind)];
    } else {
      SameUsers(p, pm.State());
      reply, after := REFUSED, handles;
    }
  }

  lemma SameUsers(p: Pins, q: Pins)
    requires SameBcbs(p, q)
    ensures q.users == p.users
  {
  }

  method ServePinMapped(pm: PinManager, handles: seq<Handle>, c: Call) returns (reply: Reply, after: seq<Handle>)
    requires Good(pm.State(), handles) && ValidCall(pm.m.section, c) && c.PinMapped?
    modifies pm, pm.m
    ensures Good(pm.State(), after) && Acts(old(ShowsOf(pm.State())), c, reply, ShowsOf(pm.State()))
    ensures old(Covered(pm.m.State())) ==> Covered(pm.m.State())
  {
    hide Unmapped, Covered, Backed, OthersSame, Exchanged, NoFit, SameBcbs, Anchored, Owned, Listed, Inv;
    reply, after := REFUSED, handles;
    if c.h >= |handles| || handles[c.h].Closed? || handles[c.h].kind != Map { return; }
    ghost var p := pm.State();
    FileListed(p, c.f);
    HandleBacked(p.users, handles, c.h);
    var mapped := handles[c.h].bcb;
    var r := pm.PinMappedData(mapped, c.f, c.offset, c.length, c.pinAccess, c.ifBcb, c.granted, c.resident,
                              Fresh(pm.m.vacbs), Fresh(pm.bcbs));
    OthersAct(p, pm.State());
    if r.Some? {
      BackedExchanged(p, pm.State(), handles, c.h, r.value);
      reply, after := DONE, handles[c.h := Closed] + [Handle(r.value, Pin)];
    } else {
      SameUsers(p, pm.State());
    }
  }

  method ServeRelease(pm: PinManager, handles: seq<Handle>, c: Call) returns (reply: Reply, after: seq<Handle>)
    requires Good(pm.State(), handles) && (c.Release? || c.Again?)
    modifies pm, pm.m
    ensures Good(pm.State(), after) && Acts(old(ShowsOf(pm.State())), c, reply, ShowsOf(pm.State()))
    ensures old(Covered(pm.m.State())) ==> Covered(pm.m.State())
  {
    hide Unmapped, Covered, Backed, OthersSame, LostUser, GotUser, Anchored, Owned, Listed, Inv;
    reply, after := REFUSED, handles;
    if c.h >= |handles| || handles[c.h].Closed? { return; }
    ghost var p := pm.State();
    HandleBacked(p.users, handles, c.h);
    var b, kind := handles[c.h].bcb, handles[c.h].kind;
    if c.Again? {
      pm.RepinBcb(b);
      BackedGot(p, pm.State(), handles, b, Repin);
      reply, after := DONE, handles + [Handle(b, Repin)];
    } else {
      if kind == Repin { return; }
      pm.Unpin(b, kind);
      LostParts(p, pm.State(), b, kind);
      BackedLost(p, pm.State(), handles, c.h);
      reply, after := DONE, handles[c.h := Closed];
    }
    OthersAct(p, pm.State());
  }

  method ServeReleaseAgain(pm: PinManager, handles: seq<Handle>, c: Call) returns (reply: Reply, after: seq<Handle>)
    requires Good(pm.State(), handles) && c.ReleaseAgain?
    modifies pm, pm.m
    ensures Good(pm.State(), after) && Acts(old(ShowsOf(pm.State())), c, reply, ShowsOf(pm.State()))
    ensures old(Covered(pm.m.State())) ==> Covered(pm.m.State())
  {
    hide Unmapped, Covered, Backed, OthersSame, OthersHeld, LostUser, BcbLost, Clean, Anchored, Owned, Listed, Inv;
    hide Stores, CaughtUp;
    ghost var p := pm.State();
    reply, after := REFUSED, handles;
    CaughtUpSame(p.cache, p.cache);
    if c.h < |handles| && handles[c.h].Handle? && handles[c.h].kind == Repin {
      HandleBacked(p.users, handles, c.h);
      var status := pm.UnpinRepinned(handles[c.h].bcb, c.writeThrough, c.viewOk, c.segmentOk);
      BackedLost(p, pm.State(), handles, c.h);
      reply, after := Reply(0, [], status == Done, true), handles[c.h := Closed];
    }
    CaughtUpStores(p.cache, pm.m.State());
  }

  method ServeBuffer(pm: PinManager, handles: seq<Handle>, c: Call) returns (reply: Reply)
    requires Good(pm.State(), handles) && (c.WriteBuffer? || c.ReadBuffer?)
    modifies pm.m
    ensures Good(pm.State(), handles) && Acts(old(ShowsOf(pm.State())), c, reply, ShowsOf(pm.State()))
    ensures old(Covered(pm.m.State())) ==> Covered(pm.m.State())
    ensures var length := if c.WriteBuffer? then |c.data| else c.length;
            reply.ok <==>
              && c.h < |handles| && handles[c.h].Handle? && (c.WriteBuffer? ==> handles[c.h].kind == Pin) && length > 0
              && handles[c.h].bcb in pm.bcbs && Contains(pm.bcbs[handles[c.h].bcb], c.f, c.at, length)
              && c.f in pm.m.section && c.at + length <= |pm.m.section[c.f]|
  {
    hide Unmapped, Covered, Backed, Anchored, Owned, Listed, Inv, Overwrite, Contains;
    reply := REFUSED;
    var length := if c.WriteBuffer? then |c.data| else c.length;
    if c.h >= |handles| || handles[c.h].Closed? || length == 0 { return; }
    if c.WriteBuffer? && handles[c.h].kind != Pin { return; }
    HandleBacked(pm.users, handles, c.h);
    var b := handles[c.h].bcb;
    if !Contains(pm.bcbs[b], c.f, c.at, length) { return; }
    assert pm.bcbs[b].file == c.f by { ContainsFile(pm.bcbs[b], c.f, c.at, length); }
    if c.f !in pm.m.section || c.at + length > |pm.m.section[c.f]| { return; }
    if c.WriteBuffer? {
      pm.WritePinned(b, c.at, c.data);
      reply := DONE;
    } else {
      var answer := pm.ReadBuffer(b, c.at, length);
      reply := Reply(0, answer, true, true);
    }
  }

  lemma ContainsFile(bcb: Bcb, f: nat, at: nat, length: nat)
    requires Contains(bcb, f, at, length)
    ensures bcb.file == f
  {
  }

  method ServePlain(pm: PinManager, handles: seq<Handle>, c: Call) returns (reply: Reply)
    requires Good(pm.State(), handles) && ValidCall(pm.m.section, c) && c.Plain?
    modifies pm.m
    ensures Good(pm.State(), handles) && Acts(old(ShowsOf(pm.State())), c, reply, ShowsOf(pm.State()))
    ensures (c.request.Purge? ==> reply.ok) && old(Covered(pm.m.State())) ==> Covered(pm.m.State())
  {
    hide Unmapped, Covered, Backed, Counted, Anchored, Owned, Listed, Inv, Valid, Served, HeldStays;
    ghost var p := pm.State();
    reply := ServeOne(pm.m, c.request);
    CacheKeeps(p, pm.m.State());
  }

  ghost predicate FailedPurge(c: Call, reply: Reply) { c.Plain? && c.request.Purge? && !reply.ok }

  /** One call. */
  method ServeCall(pm: PinManager, handles: seq<Handle>, c: Call) returns (reply: Reply, after: seq<Handle>)
    requires Good(pm.State(), handles) && ValidCall(pm.m.section, c)
    modifies pm, pm.m
    ensures Good(pm.State(), after) && Acts(old(ShowsOf(pm.State())), c, reply, ShowsOf(pm.State()))
    ensures !FailedPurge(c, reply) && old(Covered(pm.m.State())) ==> Covered(pm.m.State())
  {
    hide Good, ValidCall, Acts, ShowsOf, Covered;
    after := handles;
    if c.Plain? { reply := ServePlain(pm, handles, c); }
    else if c.MapRange? || c.PinRange? { reply, after := ServeRange(pm, handles, c); }
    else if c.PinMapped? { reply, after := ServePinMapped(pm, handles, c); }
    else if c.ReleaseAgain? { reply, after := ServeReleaseAgain(pm, handles, c); }
    else if c.WriteBuffer? || c.ReadBuffer? { reply := ServeBuffer(pm, handles, c); }
    else { reply, after := ServeRelease(pm, handles, c); }
  }

  ghost predicate ActRuns(states: seq<Flat>, calls: seq<Call>, replies: seq<Reply>) {
    && |states| == |calls| + 1 && |replies| == |calls|
    && forall k :: 0 <= k < |calls| ==> Acts(states[k], calls[k], replies[k], states[k + 1])
  }

  lemma ActRunsMore(states: seq<Flat>, calls: seq<Call>, replies: seq<Reply>, n: nat, b: Flat, reply: Reply)
    requires n < |calls| && ActRuns(states, calls[..n], replies) && Acts(states[n], calls[n], reply, b)
    ensures ActRuns(states + [b], calls[..n + 1], replies + [reply])
  {
    hide Acts;
    var more, rs := states + [b], replies + [reply];
    forall k | 0 <= k < n + 1 ensures Acts(more[k], calls[..n + 1][k], rs[k], more[k + 1]) {
      if k < n { assert calls[..n][k] == calls[k] && Acts(states[k], calls[..n][k], replies[k], states[k + 1]); }
    }
  }

  lemma ActRunsNone(states: seq<Flat>, calls: seq<Call>)
    requires |states| == 1 && calls == []
    ensures ActRuns(states, calls, [])
  {
  }

  /** Every run of calls, in any order, refines the flat file system: through buffers too. The BCBs
      stay right, every open handle has its user, and as long as no purge failed every unwritten
      byte is in a dirty view. */
  method ServeCalls(pm: PinManager, calls: seq<Call>)
    returns (replies: seq<Reply>, handles: seq<Handle>, ghost states: seq<Flat>)
    requires PinInv(pm.State()) && Unmapped(pm.m.State()) && Covered(pm.m.State())
    requires forall k :: 0 <= k < |calls| ==> ValidCall(pm.m.section, calls[k])
    modifies pm, pm.m
    ensures PinInv(pm.State()) && Unmapped(pm.m.State()) && Backed(pm.users, handles)
    ensures ActRuns(states, calls, replies)
    ensures states[0] == old(ShowsOf(pm.State())) && states[|calls|] == ShowsOf(pm.State())
    ensures SameSizes(old(pm.m.section), pm.m.section)
    ensures (forall k :: 0 <= k < |calls| ==> !FailedPurge(calls[k], replies[k])) ==> Covered(pm.m.State())
  {
    hide PinInv, Unmapped, Covered, ActRuns, Acts, ValidCall, Backed, FailedPurge;
    replies, handles, states := [], [], [ShowsOf(pm.State())];
    NothingOpen(pm.users);
    assert ActRuns(states, calls[..0], replies) by { ActRunsNone(states, calls[..0]); }
    var n := 0;
    while n < |calls|
      invariant 0 <= n <= |calls| && Good(pm.State(), handles)
      invariant |states| == n + 1 && |replies| == n && ActRuns(states, calls[..n], replies)
      invariant states[0] == old(ShowsOf(pm.State())) && states[n] == ShowsOf(pm.State())
      invariant SameSizes(old(pm.m.section), pm.m.section)
      invariant (forall k :: 0 <= k < n ==> !FailedPurge(calls[k], replies[k])) ==> Covered(pm.m.State())
    {
      ValidCallKept(old(pm.m.section), pm.m.section, calls[n]);
      ghost var a := ShowsOf(pm.State());
      var reply;
      reply, handles := ServeCall(pm, handles, calls[n]);
      ActRunsMore(states, calls, replies, n, ShowsOf(pm.State()), reply);
      ActsSizes(a, calls[n], reply, ShowsOf(pm.State()));
      replies, states := replies + [reply], states + [ShowsOf(pm.State())];
      n := n + 1;
    }
    assert calls[..n] == calls;
  }

  /** After any run a flush of a whole file that reports success leaves on the disk exactly what the
      flat file system shows, bytes written through buffers included. */
  method ServeCallsAndFlush(pm: PinManager, calls: seq<Call>, f: nat, viewOk: nat -> bool, segmentOk: nat -> bool)
    returns (replies: seq<Reply>, ghost states: seq<Flat>, status: FlushStatus)
    requires PinInv(pm.State()) && Unmapped(pm.m.State()) && Covered(pm.m.State()) && f in pm.m.section
    requires forall k :: 0 <= k < |calls| ==> ValidCall(pm.m.section, calls[k])
    modifies pm, pm.m
    ensures ActRuns(states, calls, replies) && states[0] == old(ShowsOf(pm.State()))
    ensures f in states[|calls|].shown
    ensures status == Done ==> f in pm.m.disk && pm.m.disk[f] == states[|calls|].shown[f]
  {
    hide Covered, Unmapped, ActRuns, ValidCall, CaughtUp, HeldStays, DiskOnly, FailedAt, Leaked, AllPass, Backed;
    hide Referenced, Linked, Viewed, Totalled, Counted, Listed, Anchored, Owned;
    var handles;
    replies, handles, states := ServeCalls(pm, calls);
    var leaked;
    ghost var at;
    status, leaked, at := FlushCache(pm.m, f, 0, |pm.m.section[f]|, viewOk, segmentOk);
    if status == Done { assert pm.m.disk[f] == pm.m.section[f]; }
  }

  lemma NothingOpen(users: map<nat, Users>)
    ensures Backed(users, [])
  {
  }
}
