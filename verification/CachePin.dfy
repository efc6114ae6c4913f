/**
 BCBs: mapped and pinned ranges of a cached file, on top of the view cache. Calls are atomic;
 whether a lock is granted and whether the pages are resident are parameters, and so are the
 identities of new views and BCBs. `users` is history: who holds each BCB, and how.
 */
module CachePin {
  import opened Sequences
  import opened VacbCache
  import opened CacheManager
  import opened CacheCopy
  import opened CacheFlush
  import opened CacheExample

  datatype Bcb = Bcb(file: nat, offset: nat, length: nat, vacb: nat, pinCount: nat, refCount: nat)

  datatype Users = Users(maps: nat, pins: nat, repins: nat)

  datatype Kind = Map | Pin | Repin

  datatype Pins = Pins(cache: Cache, bcbs: map<nat, Bcb>, lists: map<nat, seq<nat>>, users: map<nat, Users>)

  function Has(u: Users, kind: Kind): nat {
    match kind case Map => u.maps case Pin => u.pins case Repin => u.repins
  }

  function Total(u: Users): nat { u.maps + u.pins + u.repins }

  function Plus(u: Users, kind: Kind): Users {
    match kind
    case Map => u.(maps := u.maps + 1)
    case Pin => u.(pins := u.pins + 1)
    case Repin => u.(repins := u.repins + 1)
  }

  function Minus(u: Users, kind: Kind): Users
    requires Has(u, kind) > 0
  {
    match kind
    case Map => u.(maps := u.maps - 1)
    case Pin => u.(pins := u.pins - 1)
    case Repin => u.(repins := u.repins - 1)
  }

  // ------------------------------------------------------------ the invariant

  /** The counters count the users, and nobody maps a BCB while somebody pins it. */
  ghost predicate Counted(p: Pins) {
    && p.users.Keys == p.bcbs.Keys
    && forall b :: b in p.bcbs ==>
         && p.bcbs[b].refCount == Total(p.users[b]) > 0 && p.bcbs[b].pinCount == p.users[b].pins
         && (p.users[b].maps > 0 ==> p.users[b].pins == 0)
  }

  /** The BCB list of file f. */
  ghost predicate BcbsOf(bcbs: map<nat, Bcb>, list: seq<nat>, f: nat) {
    NoDup(list) && forall b :: b in list <==> b in bcbs && bcbs[b].file == f
  }

  ghost predicate Listed(p: Pins) {
    && p.lists.Keys == p.cache.views.Keys
    && (forall b :: b in p.bcbs ==> p.bcbs[b].file in p.lists)
    && (forall f :: f in p.lists ==> BcbsOf(p.bcbs, p.lists[f], f))
  }

  /** The view of a BCB holds the whole range of the BCB. */
  ghost predicate AnchoredAt(c: Cache, bcb: Bcb) {
    && bcb.vacb in c.vacbs && c.vacbs[bcb.vacb].file == bcb.file && InView(c.vacbs[bcb.vacb], bcb.offset)
    && bcb.offset + bcb.length <= c.vacbs[bcb.vacb].offset + GRANULARITY
  }

  ghost predicate Anchored(p: Pins) {
    forall b :: b in p.bcbs ==> AnchoredAt(p.cache, p.bcbs[b])
  }

  ghost function Owners(bcbs: map<nat, Bcb>, v: nat): set<nat> {
    set b | b in bcbs && bcbs[b].vacb == v
  }

  /** Every BCB owns one reference of its view. */
  ghost predicate Owned(p: Pins) {
    p.cache.holders.Keys == p.cache.vacbs.Keys
    && forall v :: v in p.cache.vacbs ==> p.cache.holders[v] >= |Owners(p.bcbs, v)|
  }

  ghost predicate PinInv(p: Pins) {
    Inv(p.cache) && Counted(p) && Listed(p) && Anchored(p) && Owned(p)
  }

  /** The references on a view that no BCB owns. */
  ghost function Others(p: Pins, v: nat): int {
    if v in p.cache.holders then p.cache.holders[v] - |Owners(p.bcbs, v)| else 0
  }

  /** From p to q only BCBs took or gave back references on views. */
  ghost predicate OthersHeld(p: Pins, q: Pins) {
    && p.cache.vacbs.Keys <= q.cache.vacbs.Keys
    && forall v :: v in q.cache.vacbs ==> Others(q, v) == if v in p.cache.vacbs then Others(p, v) else 0
  }

  /** ... and neither data nor dirty marks changed, and no view was mapped. */
  ghost predicate OthersSame(p: Pins, q: Pins) {
    && OthersHeld(p, q) && q.cache.section == p.cache.section && q.cache.disk == p.cache.disk
    && (Unmapped(p.cache) ==> Unmapped(q.cache))
    && forall v :: v in p.cache.vacbs ==> q.cache.vacbs[v] == p.cache.vacbs[v].(refs := q.cache.vacbs[v].refs)
  }

  /** Mapping, pinning and unpinning keep every unwritten byte in a dirty view. */
  lemma OthersCovered(p: Pins, q: Pins)
    requires OthersSame(p, q) && Covered(p.cache)
    ensures Covered(q.cache)
  {
    hide OthersHeld;
    assert p.cache.vacbs.Keys <= q.cache.vacbs.Keys by { OthersKeys(p, q); }
    var s, t := p.cache, q.cache;
    forall f, i | f in t.section && f in t.disk && 0 <= i < |t.section[f]| && i < |t.disk[f]|
      && t.section[f][i] != t.disk[f][i]
      ensures InDirtyView(t, f, i)
    {
      assert InDirtyView(s, f, i);
      var w :| w in s.vacbs && s.vacbs[w].dirty && s.vacbs[w].file == f && InView(s.vacbs[w], i);
      assert w in t.vacbs && t.vacbs[w].dirty && InView(t.vacbs[w], i);
    }
  }

  lemma OthersKeys(p: Pins, q: Pins)
    requires OthersHeld(p, q)
    ensures p.cache.vacbs.Keys <= q.cache.vacbs.Keys
  {
  }

  // --------------------------------------------------------- what happens to a BCB

  /** One more user of BCB b. */
  ghost function Joined(p: Pins, b: nat, kind: Kind): Pins
    requires b in p.bcbs && b in p.users
  {
    p.(bcbs := p.bcbs[b := p.bcbs[b].(refCount := p.bcbs[b].refCount + 1,
                                      pinCount := p.bcbs[b].pinCount + One(kind.Pin?))],
       users := p.users[b := Plus(p.users[b], kind)])
  }

  /** A new BCB for its first user. */
  ghost function Created(p: Pins, c: Cache, b: nat, f: nat, offset: nat, length: nat, v: nat, kind: Kind): Pins
    requires f in p.lists
  {
    Pins(c, p.bcbs[b := Bcb(f, offset, length, v, One(kind.Pin?), 1)], p.lists[f := p.lists[f] + [b]],
         p.users[b := Plus(Users(0, 0, 0), kind)])
  }

  /** One user less, others remain. */
  ghost function Parted(p: Pins, b: nat, kind: Kind): Pins
    requires b in p.bcbs && b in p.users && Has(p.users[b], kind) > 0
    requires p.bcbs[b].refCount > 0 && (kind.Pin? ==> p.bcbs[b].pinCount > 0)
  {
    p.(bcbs := p.bcbs[b := p.bcbs[b].(refCount := p.bcbs[b].refCount - 1,
                                      pinCount := p.bcbs[b].pinCount - One(kind.Pin?))],
       users := p.users[b := Minus(p.users[b], kind)])
  }

  /** The last user left. */
  ghost function Deleted(p: Pins, c: Cache, b: nat): Pins
    requires b in p.bcbs && p.bcbs[b].file in p.lists
  {
    var f := p.bcbs[b].file;
    Pins(c, p.bcbs - {b}, p.lists[f := Without(p.lists[f], b)], p.users - {b})
  }

  lemma OwnersRecounted(p: Pins, q: Pins, b: nat)
    requires b in p.bcbs && q.bcbs.Keys == p.bcbs.Keys && q.bcbs[b].vacb == p.bcbs[b].vacb
    requires forall x :: x in p.bcbs && x != b ==> q.bcbs[x] == p.bcbs[x]
    ensures forall v :: Owners(q.bcbs, v) == Owners(p.bcbs, v)
  {
    forall v ensures Owners(q.bcbs, v) == Owners(p.bcbs, v) {
      assert forall x :: x in Owners(q.bcbs, v) <==> x in Owners(p.bcbs, v);
    }
  }

  /** Only counters of BCB b differ. */
  ghost predicate Recounted(p: Pins, q: Pins, b: nat) {
    && b in p.bcbs && q.cache == p.cache && q.lists == p.lists && q.bcbs.Keys == p.bcbs.Keys
    && (forall x :: x in p.bcbs && x != b ==> q.bcbs[x] == p.bcbs[x])
    && q.bcbs[b] == p.bcbs[b].(refCount := q.bcbs[b].refCount, pinCount := q.bcbs[b].pinCount)
  }

  lemma RecountedListed(p: Pins, q: Pins, b: nat)
    requires Recounted(p, q, b) && Listed(p)
    ensures Listed(q)
  {
    hide NoDup;
    forall f | f in q.lists ensures BcbsOf(q.bcbs, q.lists[f], f) { assert BcbsOf(p.bcbs, p.lists[f], f); }
  }

  lemma RecountedAnchored(p: Pins, q: Pins, b: nat)
    requires Recounted(p, q, b) && Anchored(p)
    ensures Anchored(q)
  {
    forall x | x in q.bcbs ensures AnchoredAt(q.cache, q.bcbs[x]) { assert AnchoredAt(p.cache, p.bcbs[x]); }
  }

  lemma RecountedOwned(p: Pins, q: Pins, b: nat)
    requires Recounted(p, q, b) && Owned(p)
    ensures Owned(q) && OthersSame(p, q)
  {
    hide Owners;
    OwnersRecounted(p, q, b);
  }

  /** A change of the counters of one BCB. */
  lemma RecountKeeps(p: Pins, q: Pins, b: nat)
    requires PinInv(p) && b in p.bcbs && q.cache == p.cache && q.lists == p.lists && q.bcbs.Keys == p.bcbs.Keys
    requires q.users.Keys == p.bcbs.Keys
    requires forall x :: x in p.bcbs && x != b ==> q.bcbs[x] == p.bcbs[x] && q.users[x] == p.users[x]
    requires q.bcbs[b] == p.bcbs[b].(refCount := Total(q.users[b]), pinCount := q.users[b].pins)
    requires Total(q.users[b]) > 0
    requires q.users[b].maps > 0 ==> q.users[b].pins == 0
    ensures PinInv(q) && OthersSame(p, q)
  {
    hide Inv, Owners, Listed, Anchored, Owned, OthersSame;
    RecountedListed(p, q, b);
    RecountedAnchored(p, q, b);
    RecountedOwned(p, q, b);
  }

  lemma JoinKeeps(p: Pins, b: nat, kind: Kind)
    requires PinInv(p) && b in p.bcbs && (kind.Map? ==> p.bcbs[b].pinCount == 0)
    requires kind.Pin? ==> p.bcbs[b].pinCount > 0
    ensures PinInv(Joined(p, b, kind)) && OthersSame(p, Joined(p, b, kind))
  {
    hide Inv, Anchored, Owned, OthersSame, Listed;
    RecountKeeps(p, Joined(p, b, kind), b);
  }

  lemma PartKeeps(p: Pins, b: nat, kind: Kind)
    requires PinInv(p) && b in p.bcbs && b in p.users && Has(p.users[b], kind) > 0 && p.bcbs[b].refCount > 1
    ensures kind.Pin? ==> p.bcbs[b].pinCount > 0
    ensures PinInv(Parted(p, b, kind)) && OthersSame(p, Parted(p, b, kind))
  {
    hide Inv, Anchored, Owned, OthersSame, Listed;
    RecountKeeps(p, Parted(p, b, kind), b);
  }

  lemma OwnersCreated(bcbs: map<nat, Bcb>, b: nat, bcb: Bcb, v: nat)
    requires b !in bcbs
    ensures Owners(bcbs[b := bcb], v) == if bcb.vacb == v then Owners(bcbs, v) + {b} else Owners(bcbs, v)
    ensures b !in Owners(bcbs, v)
  {
  }

  lemma OwnersDeleted(bcbs: map<nat, Bcb>, b: nat, v: nat)
    requires b in bcbs
    ensures Owners(bcbs - {b}, v) == Owners(bcbs, v) - {b} && (b in Owners(bcbs, v) <==> bcbs[b].vacb == v)
  {
  }

  lemma CreatedList(bcbs: map<nat, Bcb>, list: seq<nat>, f: nat, b: nat, bcb: Bcb)
    requires BcbsOf(bcbs, list, f) && b !in bcbs
    ensures BcbsOf(bcbs[b := bcb], if bcb.file == f then list + [b] else list, f)
  {
    assert b !in list;
  }

  lemma CreatedListed(p: Pins, q: Pins, b: nat, f: nat)
    requires Listed(p) && f in p.lists && b !in p.bcbs && q.cache.views.Keys == p.cache.views.Keys
    requires b in q.bcbs && q.bcbs == p.bcbs[b := q.bcbs[b]] && q.bcbs[b].file == f
    requires q.lists == p.lists[f := p.lists[f] + [b]]
    ensures Listed(q)
  {
    hide BcbsOf;
    forall g | g in q.lists ensures BcbsOf(q.bcbs, q.lists[g], g) { CreatedList(p.bcbs, p.lists[g], g, b, q.bcbs[b]); }
  }

  lemma AnchoredGot(p: Pins, c: Cache, v: nat, f: nat, offset: nat)
    requires Anchored(p) && Got(p.cache, c, v, f, offset)
    ensures forall x :: x in p.bcbs ==> AnchoredAt(c, p.bcbs[x])
  {
    forall x | x in p.bcbs ensures AnchoredAt(c, p.bcbs[x]) { assert AnchoredAt(p.cache, p.bcbs[x]); }
  }

  lemma CreatedOwned(p: Pins, q: Pins, b: nat, v: nat, f: nat, offset: nat)
    requires Owned(p) && Anchored(p) && b !in p.bcbs && Got(p.cache, q.cache, v, f, offset)
    requires b in q.bcbs && q.bcbs == p.bcbs[b := q.bcbs[b]] && q.bcbs[b].vacb == v
    ensures Owned(q) && OthersSame(p, q)
  {
    hide Owners;
    forall w | w in q.cache.vacbs
      ensures q.cache.holders[w] >= |Owners(q.bcbs, w)|
      ensures Others(q, w) == if w in p.cache.vacbs then Others(p, w) else 0
    {
      OwnersCreated(p.bcbs, b, q.bcbs[b], w);
      if w !in p.cache.vacbs { NoOwners(p, w); }
    }
  }

  lemma NoOwners(p: Pins, v: nat)
    requires Anchored(p) && v !in p.cache.vacbs
    ensures |Owners(p.bcbs, v)| == 0
  {
    forall b | b in p.bcbs ensures p.bcbs[b].vacb != v { assert AnchoredAt(p.cache, p.bcbs[b]); }
    assert Owners(p.bcbs, v) == {};
  }

  lemma CreateKeeps(p: Pins, c: Cache, b: nat, f: nat, offset: nat, length: nat, v: nat, kind: Kind)
    requires PinInv(p) && f in p.lists && b !in p.bcbs && Inv(c) && Got(p.cache, c, v, f, offset)
    requires offset % GRANULARITY + length <= GRANULARITY
    ensures PinInv(Created(p, c, b, f, offset, length, v, kind))
    ensures OthersSame(p, Created(p, c, b, f, offset, length, v, kind))
  {
    hide Owners, Owned, Listed, OthersSame, Inv, Got;
    var q := Created(p, c, b, f, offset, length, v, kind);
    GotFacts(p.cache, c, v, f, offset);
    CreatedListed(p, q, b, f);
    CreatedOwned(p, q, b, v, f, offset);
    AnchoredGot(p, c, v, f, offset);
    Aligned(c, v);
    RoundedEnd(c.vacbs[v].offset, offset, length);
  }

  lemma DeletedList(bcbs: map<nat, Bcb>, list: seq<nat>, f: nat, b: nat)
    requires BcbsOf(bcbs, list, f) && b in bcbs
    ensures BcbsOf(bcbs - {b}, if bcbs[b].file == f then Without(list, b) else list, f)
  {
    hide Without;
    WithoutNoDup(list, b);
    forall x ensures x in Without(list, b) <==> x in list && x != b { WithoutMembers(list, b, x); }
  }

  lemma DeletedListed(p: Pins, q: Pins, b: nat)
    requires Listed(p) && b in p.bcbs && q.cache.views.Keys == p.cache.views.Keys && q.bcbs == p.bcbs - {b}
    requires p.bcbs[b].file in p.lists && q.lists == p.lists[p.bcbs[b].file := Without(p.lists[p.bcbs[b].file], b)]
    ensures Listed(q)
  {
    hide BcbsOf, Without;
    forall g | g in q.lists ensures BcbsOf(q.bcbs, q.lists[g], g) { DeletedList(p.bcbs, p.lists[g], g, b); }
  }

  lemma DeletedOwned(p: Pins, q: Pins, b: nat)
    requires Owned(p) && b in p.bcbs && q.bcbs == p.bcbs - {b} && Gave(p.cache, q.cache, p.bcbs[b].vacb, false, false)
    ensures Owned(q) && OthersSame(p, q)
  {
    hide Owners;
    forall w | w in q.cache.vacbs ensures q.cache.holders[w] >= |Owners(q.bcbs, w)| && Others(q, w) == Others(p, w) {
      OwnersDeleted(p.bcbs, b, w);
      if w != p.bcbs[b].vacb { assert Owners(p.bcbs, w) - {b} == Owners(p.bcbs, w); }
    }
  }

  lemma DeletedAnchored(p: Pins, c: Cache, b: nat)
    requires Anchored(p) && b in p.bcbs && Gave(p.cache, c, p.bcbs[b].vacb, false, false)
    ensures c.views == p.cache.views && forall x :: x in p.bcbs - {b} ==> AnchoredAt(c, p.bcbs[x])
  {
    forall x | x in p.bcbs ensures AnchoredAt(c, p.bcbs[x]) { assert AnchoredAt(p.cache, p.bcbs[x]); }
  }

  lemma DeletedCounted(p: Pins, q: Pins, b: nat)
    requires Counted(p) && q.bcbs == p.bcbs - {b} && q.users == p.users - {b}
    ensures Counted(q)
  {
  }

  lemma DeleteKeeps(p: Pins, c: Cache, b: nat)
    requires PinInv(p) && b in p.bcbs && Inv(c) && Gave(p.cache, c, p.bcbs[b].vacb, false, false)
    ensures p.bcbs[b].file in p.lists && PinInv(Deleted(p, c, b)) && OthersSame(p, Deleted(p, c, b))
  {
    hide Owners, Owned, OthersSame, Inv, Without, Counted, Gave, Listed, AnchoredAt;
    FileListed(p, b);
    var q := Deleted(p, c, b);
    DeletedAnchored(p, c, b);
    DeletedCounted(p, q, b);
    DeletedListed(p, q, b);
    DeletedOwned(p, q, b);
  }

  lemma ListedFiles(p: Pins)
    requires Listed(p)
    ensures p.lists.Keys == p.cache.views.Keys
  {
  }

  lemma FileListed(p: Pins, b: nat)
    requires Listed(p) && b in p.bcbs
    ensures p.bcbs[b].file in p.lists
  {
  }

  /** A listed BCB has a reference of its view to give back. */
  lemma OwnsHold(p: Pins, b: nat)
    requires PinInv(p) && b in p.bcbs
    ensures var v := p.bcbs[b].vacb; v in p.cache.vacbs && v in p.cache.holders && p.cache.holders[v] >= 1
  {
    hide Inv, Counted, Listed;
    assert AnchoredAt(p.cache, p.bcbs[b]);
    assert b in Owners(p.bcbs, p.bcbs[b].vacb);
  }

  // ------------------------------------------------------------------ lookups

  /** The test of CcpFindBcb: the range of the BCB contains the asked range, and it is pinned or
      unpinned as asked. */
  predicate Fits(bcb: Bcb, offset: nat, length: nat, pinned: bool) {
    bcb.offset <= offset && bcb.offset + bcb.length >= offset + length && (pinned <==> bcb.pinCount > 0)
  }

  /** Position k of the BCB list of file f holds the first BCB that fits. */
  ghost predicate FirstFit(p: Pins, f: nat, offset: nat, length: nat, pinned: bool, k: nat) {
    && f in p.lists && k < |p.lists[f]| && p.lists[f][k] in p.bcbs
       && Fits(p.bcbs[p.lists[f][k]], offset, length, pinned)
    && forall j :: 0 <= j < k ==> p.lists[f][j] in p.bcbs && !Fits(p.bcbs[p.lists[f][j]], offset, length, pinned)
  }

  ghost predicate NoFit(p: Pins, f: nat, offset: nat, length: nat, pinned: bool) {
    forall b :: b in p.bcbs && p.bcbs[b].file == f ==> !Fits(p.bcbs[b], offset, length, pinned)
  }

  /** What one view can serve of a request. */
  function Truncated(offset: nat, length: nat): (r: nat)
    ensures r <= length && offset % GRANULARITY + r <= GRANULARITY && (r == 0 <==> length == 0)
    ensures r == length || offset % GRANULARITY + r == GRANULARITY
  {
    Min(length, GRANULARITY - offset % GRANULARITY)
  }

  /** The request is empty and the BCB found starts before an aligned offset: its view ends there. */
  ghost predicate Misplaced(p: Pins, f: nat, offset: nat, length: nat, pinned: bool) {
    length == 0 && offset % GRANULARITY == 0
    && exists k: nat :: FirstFit(p, f, offset, length, pinned, k) && p.bcbs[p.lists[f][k]].offset < offset
  }

  /** The buffer handed out: a place in a view, through a BCB. */
  datatype Buffer = Buffer(bcb: nat, vacb: nat, within: nat)

  /** The buffer shows the byte of the file that was asked for. */
  ghost predicate Shows(c: Cache, buffer: Buffer, offset: nat) {
    buffer.vacb in c.vacbs && c.vacbs[buffer.vacb].offset + buffer.within == offset
  }

  lemma FoundShows(c: Cache, bcb: Bcb, offset: nat, length: nat, b: nat, pinned: bool)
    requires AnchoredAt(c, bcb) && c.vacbs[bcb.vacb].offset % GRANULARITY == 0 && Fits(bcb, offset, length, pinned)
    ensures Shows(c, Buffer(b, bcb.vacb, offset % GRANULARITY), offset) <==>
            length > 0 || offset % GRANULARITY != 0 || bcb.offset >= offset
  {
    var base := c.vacbs[bcb.vacb].offset;
    if offset < base + GRANULARITY {
      RoundedEnd(base, offset, 0);
      if offset % GRANULARITY == 0 { EndNotAligned(base, bcb.offset, offset); }
    } else {
      assert offset == base + GRANULARITY && length == 0;
      assert offset % GRANULARITY == 0;
    }
  }

  lemma EndNotAligned(base: nat, start: nat, offset: nat)
    requires base % GRANULARITY == 0 && base <= start <= offset < base + GRANULARITY && offset % GRANULARITY == 0
    ensures start == offset
  {
  }

  lemma FirstFitUnique(p: Pins, f: nat, offset: nat, length: nat, pinned: bool, j: nat, k: nat)
    requires FirstFit(p, f, offset, length, pinned, j) && FirstFit(p, f, offset, length, pinned, k)
    ensures j == k
  {
  }

  // ---------------------------------------------------------------- the calls

  /** From p to q BCB b, new or not, got one more user of a kind; no other BCB changed. */
  ghost predicate GotUser(p: Pins, q: Pins, b: nat, kind: Kind) {
    && b in q.bcbs && q.users == p.users[b := Plus(if b in p.users then p.users[b] else Users(0, 0, 0), kind)]
    && q.bcbs == p.bcbs[b := q.bcbs[b]]
    && (b in p.bcbs ==> q.bcbs[b] == p.bcbs[b].(refCount := q.bcbs[b].refCount, pinCount := q.bcbs[b].pinCount))
  }

  /** From p to q BCB b lost one user of a kind; without users it is gone. */
  ghost predicate BcbLost(p: Pins, q: Pins, b: nat, kind: Kind) {
    && b in p.bcbs && b in p.users && Has(p.users[b], kind) > 0
    && (Total(p.users[b]) > 1 ==>
          && b in q.bcbs && q.users == p.users[b := Minus(p.users[b], kind)] && q.bcbs == p.bcbs[b := q.bcbs[b]]
          && q.bcbs[b] == p.bcbs[b].(refCount := q.bcbs[b].refCount, pinCount := q.bcbs[b].pinCount))
    && (Total(p.users[b]) == 1 ==> q.users == p.users - {b} && q.bcbs == p.bcbs - {b})
  }

  /** ... and it gave its view back just then. */
  ghost predicate LostUser(p: Pins, q: Pins, b: nat, kind: Kind) {
    && BcbLost(p, q, b, kind)
    && (Total(p.users[b]) > 1 ==> q.cache == p.cache)
    && (Total(p.users[b]) == 1 ==> Gave(p.cache, q.cache, p.bcbs[b].vacb, false, false))
  }

  ghost predicate SameBcbs(p: Pins, q: Pins) {
    q.bcbs == p.bcbs && q.users == p.users
  }

  class PinManager {
    const m: Manager
    var bcbs: map<nat, Bcb>
    var lists: map<nat, seq<nat>>
    ghost var users: map<nat, Users>

    ghost function State(): Pins
      reads this, m
    {
      Pins(m.State(), bcbs, lists, users)
    }

    /** Every file starts without BCBs. */
    constructor (manager: Manager)
      requires Inv(manager.State())
      ensures m == manager && PinInv(State()) && bcbs == map[]
    {
      m := manager;
      bcbs := map[];
      lists := map f | f in manager.views :: [];
      users := map[];
      new;
      assert forall v :: Owners(bcbs, v) == {};
    }

    /** CcpFindBcb. */
    method FindBcb(f: nat, offset: nat, length: nat, pinned: bool) returns (r: Option<nat>)
      requires PinInv(State()) && f in lists
      ensures match r
              case None => NoFit(State(), f, offset, length, pinned)
              case Some(b) => exists k: nat :: FirstFit(State(), f, offset, length, pinned, k) && lists[f][k] == b
    {
      hide Inv, Counted, Anchored, Owned;
      ghost var p := State();
      var i := 0;
      while i < |lists[f]|
        invariant 0 <= i <= |lists[f]|
        invariant forall j :: 0 <= j < i ==> lists[f][j] in bcbs && !Fits(bcbs[lists[f][j]], offset, length, pinned)
      {
        var b := lists[f][i];
        assert b in p.lists[f];
        if Fits(bcbs[b], offset, length, pinned) {
          assert FirstFit(p, f, offset, length, pinned, i);
          return Some(b);
        }
        i := i + 1;
      }
      forall b | b in p.bcbs && p.bcbs[b].file == f ensures !Fits(p.bcbs[b], offset, length, pinned) {
        assert b in p.lists[f];
      }
      r := None;
    }

    /** One more user of a BCB that suits the kind. */
    method Join(b: nat, kind: Kind)
      requires PinInv(State()) && b in bcbs && (kind.Map? ==> bcbs[b].pinCount == 0)
      requires kind.Pin? ==> bcbs[b].pinCount > 0
      modifies this
      ensures PinInv(State()) && OthersSame(old(State()), State()) && GotUser(old(State()), State(), b, kind)
      ensures m.State() == old(m.State()) && lists == old(lists)
    {
      hide Inv, Anchored, Owned, OthersSame, Listed, Counted, Plus;
      CountedAt(State(), b);
      JoinKeeps(State(), b, kind);
      bcbs := bcbs[b := bcbs[b].(refCount := bcbs[b].refCount + 1, pinCount := bcbs[b].pinCount + One(kind.Pin?))];
      users := users[b := Plus(users[b], kind)];
    }

    /** CcpDereferenceBcb, for a user that is not pinning any more. */
    method Dereference(b: nat, ghost kind: Kind)
      requires PinInv(State()) && b in bcbs && b in users && kind != Pin && Has(users[b], kind) > 0
      modifies this, m
      ensures PinInv(State()) && OthersSame(old(State()), State()) && LostUser(old(State()), State(), b, kind)
    {
      hide Inv, Anchored, Owned, OthersSame, Listed, Without, Counted, Gave;
      ghost var p := State();
      CountedAt(p, b);
      if bcbs[b].refCount == 1 {
        assert bcbs[b].pinCount == 0;
        OwnsHold(p, b);
        m.ReleaseVacb(bcbs[b].vacb, false, false);
        DeleteKeeps(p, m.State(), b);
        lists := lists[bcbs[b].file := Without(lists[bcbs[b].file], b)];
        bcbs := bcbs - {b};
        users := users - {b};
      } else {
        PartKeeps(p, b, kind);
        bcbs := bcbs[b := bcbs[b].(refCount := bcbs[b].refCount - 1)];
        users := users[b := Minus(users[b], kind)];
      }
    }

    /** CcUnpinData: whether the caller mapped or pinned, the test on PinCount tells. */
    method Unpin(b: nat, ghost kind: Kind)
      requires PinInv(State()) && b in bcbs && b in users && kind != Repin && Has(users[b], kind) > 0
      modifies this, m
      ensures PinInv(State()) && OthersSame(old(State()), State()) && LostUser(old(State()), State(), b, kind)
    {
      hide Inv, Anchored, Owned, OthersSame, Listed, Counted, LostUser;
      ghost var p := State();
      ghost var rest := kind;
      CountedAt(p, b);
      KindIs(p, b, kind);
      if bcbs[b].pinCount != 0 {
        bcbs := bcbs[b := bcbs[b].(pinCount := bcbs[b].pinCount - 1)];
        users := users[b := Plus(Minus(users[b], Pin), Repin)];
        rest := Repin;
        RecountKeeps(p, State(), b);
      }
      ghost var q := State();
      Dereference(b, rest);
      if rest == Repin {
        UnpinJoins(p, q, State(), b);
        OthersThrough(p, q, State());
      }
    }

    /** CcRepinBcb. */
    method RepinBcb(b: nat)
      requires PinInv(State()) && b in bcbs
      modifies this
      ensures PinInv(State()) && OthersSame(old(State()), State()) && GotUser(old(State()), State(), b, Repin)
      ensures m.State() == old(m.State())
    {
      Join(b, Repin);
    }

    /** CcUnpinRepinnedBcb: the last repin finds no pin left to release. With write-through the
        range of the BCB is flushed first, and the repin is given up whatever comes of it. */
    method UnpinRepinned(b: nat, writeThrough: bool, viewOk: nat -> bool, segmentOk: nat -> bool)
      returns (status: FlushStatus)
      requires PinInv(State()) && b in bcbs && b in users && users[b].repins > 0
      modifies this, m
      ensures PinInv(State()) && BcbLost(old(State()), State(), b, Repin)
      ensures old(Covered(m.State())) ==> Covered(m.State())
      ensures CaughtUp(old(m.State()), m.State()) && (old(Unmapped(m.State())) ==> Unmapped(m.State()))
      ensures !writeThrough ==>
              status == Done && OthersSame(old(State()), State()) && LostUser(old(State()), State(), b, Repin)
      ensures status != Failed ==> OthersHeld(old(State()), State())
      ensures writeThrough && status == Done ==>
                var r := old(bcbs[b]);
                r.file in m.section && r.file in m.disk && Clean(m.State(), r.file, r.offset, r.offset + r.length)
    {
      hide Inv, Counted, Anchored, Owned, OthersSame, OthersHeld, Listed, Covered, Clean, LostUser, BcbLost, CaughtUp;
      hide Unmapped;
      ghost var p := State();
      CaughtUpSame(p.cache, p.cache);
      status := Done;
      if writeThrough {
        var r := bcbs[b];
        FileOpen(p, b);
        var leaked;
        ghost var at;
        status, leaked, at := FlushCache(m, r.file, r.offset, r.length, viewOk, segmentOk);
        CacheKeeps(p, m.State());
      }
      ghost var q := State();
      Dereference(b, Repin);
      LostParts(q, State(), b, Repin);
      LostData(p, q, State());
      if Covered(q.cache) { OthersCovered(q, State()); }
      if writeThrough {
        FlushedOthers(p, q, State(), status);
        if status == Done {
          CleanKept(q, State(), b, p.bcbs[b].file, p.bcbs[b].offset, p.bcbs[b].offset + p.bcbs[b].length);
        }
        SameBcbLost(p, q, State(), b, Repin);
      } else {
        assert OthersHeld(p, State()) by { SameHeld(p, State()); }
      }
    }

    /** A view for a BCB and the BCB itself, for its first user. */
    method CreateBcb(f: nat, offset: nat, length: nat, at: nat, newVacb: nat, b: nat, kind: Kind)
      requires PinInv(State()) && f in lists && newVacb !in m.vacbs && b !in bcbs
      requires offset % GRANULARITY + length <= GRANULARITY && RoundDown(at) == RoundDown(offset)
      modifies this, m
      ensures PinInv(State()) && OthersSame(old(State()), State()) && GotUser(old(State()), State(), b, kind)
      ensures b in bcbs && bcbs[b].file == f && bcbs[b].offset == offset && bcbs[b].length == length
      ensures f in old(lists) && lists == old(lists)[f := old(lists)[f] + [b]]
    {
      hide Inv, Anchored, Owned, OthersSame, Got, Counted, Listed;
      ghost var p := State();
      CountedKeys(p);
      ListedFiles(p);
      var v := m.GetVacb(f, at, newVacb);
      GotMoved(p.cache, m.State(), v, f, at, offset);
      CreateKeeps(p, m.State(), b, f, offset, length, v, kind);
      bcbs := bcbs[b := Bcb(f, offset, length, v, One(kind.Pin?), 1)];
      lists := lists[f := lists[f] + [b]];
      users := users[b := Plus(Users(0, 0, 0), kind)];
    }

    /** CcMapData. */
    method MapData(f: nat, offset: nat, length: nat, resident: bool, newVacb: nat, newBcb: nat)
      returns (r: Option<Buffer>)
      requires PinInv(State()) && f in lists && newVacb !in m.vacbs && newBcb !in bcbs
      modifies this, m
      ensures PinInv(State()) && OthersSame(old(State()), State())
      ensures r.Some? <==> resident
      ensures r.None? ==> SameBcbs(old(State()), State())
      ensures r.Some? ==>
              GotUser(old(State()), State(), r.value.bcb, Map)
              && Serves(State(), r.value, f, offset, Truncated(offset, length))
      ensures r.Some? ==> (Shows(m.State(), r.value, offset) <==>
              !old(Misplaced(State(), f, offset, Truncated(offset, length), false)))
    {
      hide Inv, Counted, Anchored, Owned, OthersSame, Listed, Without, GotUser, Got, Misplaced, FirstFit, NoFit,
           LostUser;
      ghost var p := State();
      var within, length := offset % GRANULARITY, Truncated(offset, length);
      var found := FindBcb(f, offset, length, false);
      var b;
      if found.None? {
        b := newBcb;
        CreateBcb(f, offset, length, offset, newVacb, newBcb, Map);
      } else {
        b := found.value;
        FoundFits(p, f, offset, length, false, b);
        Join(b, Map);
      }
      ghost var q := State();
      GotUserHas(p, q, b, Map);
      if found.Some? {
        FoundServes(p, q, f, offset, length, b, Map);
      } else {
        NewServes(p, q, f, offset, length, b, false);
      }
      if !resident {
        Dereference(b, Map);
        UndoneSame(p, q, State(), b, Map);
        OthersThrough(p, q, State());
        r := None;
      } else {
        r := Some(Buffer(b, bcbs[b].vacb, within));
      }
    }

    /** CcpPinData; `granted` is whether the lock of a BCB that is there already is granted. */
    method PinData(f: nat, offset: nat, length: nat, ifBcb: bool, granted: bool, resident: bool, newVacb: nat,
                   newBcb: nat)
      returns (r: Option<Buffer>)
      requires PinInv(State()) && f in lists && newVacb !in m.vacbs && newBcb !in bcbs
      modifies this, m
      ensures PinInv(State()) && OthersSame(old(State()), State())
      ensures r.Some? <==>
              resident && if old(NoFit(State(), f, offset, Truncated(offset, length), true)) then !ifBcb else granted
      ensures r.None? ==> SameBcbs(old(State()), State())
      ensures r.Some? ==>
              GotUser(old(State()), State(), r.value.bcb, Pin)
              && Serves(State(), r.value, f, offset, Truncated(offset, length))
      ensures r.Some? ==> (Shows(m.State(), r.value, offset) <==>
              !old(Misplaced(State(), f, offset, Truncated(offset, length), true)))
    {
      hide Inv, Counted, Anchored, Owned, OthersSame, Listed, Without, GotUser, Got, Misplaced, FirstFit, NoFit,
           LostUser;
      ghost var p := State();
      var within, length := offset % GRANULARITY, Truncated(offset, length);
      var found := FindBcb(f, offset, length, true);
      var b;
      if found.Some? {
        b := found.value;
        FoundFits(p, f, offset, length, true, b);
        FitSome(p, f, offset, length, true, b);
        if !granted {
          Join(b, Repin);
          ghost var q := State();
          GotUserHas(p, q, b, Repin);
          Dereference(b, Repin);
          UndoneSame(p, q, State(), b, Repin);
          OthersThrough(p, q, State());
          return None;
        }
        Join(b, Pin);
      } else {
        if ifBcb {
          NothingHappened(p);
          return None;
        }
        b := newBcb;
        CreateBcb(f, offset, length, RoundDown(offset), newVacb, newBcb, Pin);
      }
      ghost var q := State();
      GotUserHas(p, q, b, Pin);
      if found.Some? {
        FoundServes(p, q, f, offset, length, b, Pin);
      } else {
        NewServes(p, q, f, offset, length, b, true);
      }
      if !resident {
        Unpin(b, Pin);
        UndoneSame(p, q, State(), b, Pin);
        OthersThrough(p, q, State());
        r := None;
      } else {
        r := Some(Buffer(b, bcbs[b].vacb, within));
      }
    }

    /** CcPinMappedData on a mapped BCB: the mapping turns into a pin of the BCB returned, which
        holds the range, or nothing changes. `pinAccess` is what the file was opened with. */
    method PinMappedData(mapped: nat, f: nat, offset: nat, length: nat, pinAccess: bool, ifBcb: bool, granted: bool,
                         resident: bool, newVacb: nat, newBcb: nat)
      returns (r: Option<nat>)
      requires PinInv(State()) && f in lists && newVacb !in m.vacbs && newBcb !in bcbs
      requires mapped in bcbs && mapped in users && users[mapped].maps > 0
      modifies this, m
      ensures PinInv(State()) && OthersSame(old(State()), State())
      ensures r.Some? <==>
                pinAccess && resident &&
                if old(NoFit(State(), f, offset, Truncated(offset, length), true)) then !ifBcb else granted
      ensures r.None? ==> SameBcbs(old(State()), State())
      ensures r.Some? ==> Exchanged(old(State()), State(), mapped, r.value)
      ensures r.Some? ==> r.value in bcbs && Contains(bcbs[r.value], f, offset, Truncated(offset, length))
    {
      hide Inv, Counted, Anchored, Owned, OthersSame, Listed, GotUser, Misplaced, NoFit, LostUser, Shows, Contains;
      ghost var p := State();
      if !pinAccess {
        NothingHappened(p);
        return None;
      }
      var pinned := PinData(f, offset, length, ifBcb, granted, resident, newVacb, newBcb);
      if pinned.None? { return None; }
      ghost var q, b := State(), pinned.value.bcb;
      StillMapped(p, q, b, mapped);
      Unpin(mapped, Map);
      OthersThrough(p, q, State());
      ExchangedBoth(p, q, State(), mapped, b);
      LostParts(q, State(), mapped, Map);
      r := Some(pinned.value.bcb);
    }

    /** CcSetDirtyPinnedData: the view of the BCB is dirty from now on. */
    method SetDirtyPinnedData(b: nat)
      requires PinInv(State()) && b in bcbs
      modifies m
      ensures PinInv(State()) && bcbs[b].vacb in m.vacbs && m.vacbs[bcbs[b].vacb].dirty
      ensures m.vacbs.Keys == old(m.vacbs).Keys
      ensures forall v :: v in m.vacbs ==>
                && m.vacbs[v].file == old(m.vacbs)[v].file && m.vacbs[v].offset == old(m.vacbs)[v].offset
                && (old(m.vacbs)[v].dirty ==> m.vacbs[v].dirty) && m.vacbs[v].mapped == old(m.vacbs)[v].mapped
      ensures m.holders == old(m.holders) && m.section == old(m.section) && m.disk == old(m.disk)
      ensures old(Covered(m.State())) ==> Covered(m.State())
    {
      hide Inv, Counted, Owned, Owners, Covered, Without;
      ghost var p := State();
      assert AnchoredAt(p.cache, p.bcbs[b]);
      if !m.vacbs[bcbs[b].vacb].dirty {
        m.MarkDirtyVacb(bcbs[b].vacb);
        MarkedOwned(p, State(), bcbs[b].vacb);
        forall x | x in bcbs ensures AnchoredAt(m.State(), bcbs[x]) { assert AnchoredAt(p.cache, p.bcbs[x]); }
        CountedSame(p, State());
      }
    }

    /** What the owner of a pinned buffer does: it writes into the buffer and then calls
        CcSetDirtyPinnedData. The byte `at` of the file is at its place in the view. */
    method WritePinned(b: nat, at: nat, data: seq<byte>)
      requires b in bcbs && bcbs[b].file in m.section && at + |data| <= |m.section[bcbs[b].file]| && data != []
      requires b in users && users[b].pins > 0 && Contains(bcbs[b], bcbs[b].file, at, |data|)
      requires PinInv(State())
      modifies m
      ensures m.section == old(m.section)[bcbs[b].file := Overwrite(old(m.section)[bcbs[b].file], at, data)]
      ensures m.disk == old(m.disk) && m.holders == old(m.holders)
      ensures PinInv(State()) && (old(Covered(m.State())) ==> Covered(m.State()))
      ensures old(Unmapped(m.State())) ==> Unmapped(m.State())
    {
      hide Inv, Counted, Owned, Listed, Covered, Overwrite, Contains;
      ghost var p := State();
      var bcb := bcbs[b];
      PinnedPlace(p, b, at, |data|);
      var view := m.vacbs[bcb.vacb];
      m.section := m.section[view.file := Overwrite(m.section[view.file], InFile(view, at % GRANULARITY, 0), data)];
      ghost var c := m.State();
      assert c == Written(p.cache, bcb.file, at, data);
      WrittenKeeps(p.cache, bcb.file, at, data);
      WrittenPins(p, c);
      SetDirtyPinnedData(b);
      if Covered(p.cache) { PinnedCovered(p.cache, m.State(), bcb.vacb, bcb.file, at, data); }
    }

    /** What a user of a buffer reads in it, at the place of byte `at` in the view. */
    method ReadBuffer(b: nat, at: nat, length: nat) returns (answer: seq<byte>)
      requires b in bcbs && bcbs[b].file in m.section && at + length <= |m.section[bcbs[b].file]| && length > 0
      requires PinInv(State()) && Contains(bcbs[b], bcbs[b].file, at, length)
      ensures answer == m.section[bcbs[b].file][at..at + length]
    {
      hide Inv, Counted, Owned, Listed, Contains;
      PinnedPlace(State(), b, at, length);
      var view := m.vacbs[bcbs[b].vacb];
      var from := InFile(view, at % GRANULARITY, 0);
      answer := m.section[view.file][from..from + length];
    }
  }

  /** The BCB holds the range that was asked for. */
  predicate Contains(bcb: Bcb, f: nat, offset: nat, length: nat) {
    bcb.file == f && bcb.offset <= offset && offset + length <= bcb.offset + bcb.length
  }

  /** The buffer is a place in the view of a BCB that holds the range. */
  ghost predicate Serves(p: Pins, buffer: Buffer, f: nat, offset: nat, length: nat) {
    && buffer.bcb in p.bcbs && Contains(p.bcbs[buffer.bcb], f, offset, length)
    && buffer.vacb == p.bcbs[buffer.bcb].vacb && buffer.within == offset % GRANULARITY
  }

  lemma SameRounding(base: nat, at: nat, offset: nat)
    requires base % GRANULARITY == 0 && base <= at < base + GRANULARITY && RoundDown(at) == RoundDown(offset)
    ensures base <= offset < base + GRANULARITY
  {
  }

  lemma GotMoved(s: Cache, t: Cache, v: nat, f: nat, at: nat, offset: nat)
    requires Inv(t) && Got(s, t, v, f, at) && RoundDown(at) == RoundDown(offset)
    ensures Got(s, t, v, f, offset)
  {
    hide Linked, Referenced, Totalled;
    Aligned(t, v);
    SameRounding(t.vacbs[v].offset, at, offset);
  }

  lemma FoundFits(p: Pins, f: nat, offset: nat, length: nat, pinned: bool, b: nat)
    requires PinInv(p) && exists k: nat :: FirstFit(p, f, offset, length, pinned, k) && p.lists[f][k] == b
    ensures b in p.bcbs && p.bcbs[b].file == f && Fits(p.bcbs[b], offset, length, pinned)
  {
    hide Inv, Counted, Anchored, Owned;
    var k: nat :| FirstFit(p, f, offset, length, pinned, k) && p.lists[f][k] == b;
    assert b in p.lists[f];
  }

  lemma FoundServes(p: Pins, q: Pins, f: nat, offset: nat, length: nat, b: nat, kind: Kind)
    requires PinInv(p) && q.cache == p.cache && GotUser(p, q, b, kind) && b in p.bcbs
    requires exists k: nat :: FirstFit(p, f, offset, length, kind.Pin?, k) && p.lists[f][k] == b
    ensures var buffer := Buffer(b, q.bcbs[b].vacb, offset % GRANULARITY);
            Serves(q, buffer, f, offset, length)
              && (Shows(q.cache, buffer, offset) <==> !Misplaced(p, f, offset, length, kind.Pin?))
  {
    hide Inv, Counted, Owned, Listed;
    FoundFits(p, f, offset, length, kind.Pin?, b);
    assert AnchoredAt(p.cache, p.bcbs[b]);
    Aligned(p.cache, p.bcbs[b].vacb);
    FoundShows(p.cache, p.bcbs[b], offset, length, b, kind.Pin?);
    var k: nat :| FirstFit(p, f, offset, length, kind.Pin?, k) && p.lists[f][k] == b;
    forall j: nat | FirstFit(p, f, offset, length, kind.Pin?, j) ensures j == k {
      FirstFitUnique(p, f, offset, length, kind.Pin?, j, k);
    }
  }

  lemma NoFitNone(p: Pins, f: nat, offset: nat, length: nat, pinned: bool)
    requires PinInv(p) && NoFit(p, f, offset, length, pinned)
    ensures !Misplaced(p, f, offset, length, pinned)
  {
    hide Inv, Counted, Owned, Anchored;
    forall k: nat ensures !FirstFit(p, f, offset, length, pinned, k) {
      if f in p.lists && k < |p.lists[f]| { assert p.lists[f][k] in p.lists[f]; }
    }
  }

  lemma NewServes(p: Pins, q: Pins, f: nat, offset: nat, length: nat, b: nat, pinned: bool)
    requires PinInv(p) && PinInv(q) && NoFit(p, f, offset, length, pinned)
    requires b in q.bcbs && q.bcbs[b].file == f && q.bcbs[b].offset == offset && q.bcbs[b].length == length
    ensures var buffer := Buffer(b, q.bcbs[b].vacb, offset % GRANULARITY);
            Serves(q, buffer, f, offset, length) && Shows(q.cache, buffer, offset)
              && !Misplaced(p, f, offset, length, pinned)
  {
    hide Inv, Counted, Owned, Listed, NoFit, Misplaced;
    NoFitNone(p, f, offset, length, pinned);
    assert AnchoredAt(q.cache, q.bcbs[b]);
    Aligned(q.cache, q.bcbs[b].vacb);
    RoundedEnd(q.cache.vacbs[q.bcbs[b].vacb].offset, offset, 0);
  }

  lemma OthersThrough(p: Pins, q: Pins, r: Pins)
    requires OthersSame(p, q) && OthersSame(q, r)
    ensures OthersSame(p, r)
  {
    hide Others;
  }

  lemma GotUserHas(p: Pins, q: Pins, b: nat, kind: Kind)
    requires GotUser(p, q, b, kind)
    ensures b in q.bcbs && b in q.users && Has(q.users[b], kind) > 0
  {
  }

  lemma PlusMinus(u: Users, kind: Kind)
    ensures Has(Plus(u, kind), kind) > 0 && Minus(Plus(u, kind), kind) == u && Total(Plus(u, kind)) == Total(u) + 1
  {
  }

  /** One user more, one of the same kind less: the BCBs are as before. */
  lemma UndoneSame(p: Pins, q: Pins, r: Pins, b: nat, kind: Kind)
    requires Counted(p) && Counted(r) && GotUser(p, q, b, kind) && LostUser(q, r, b, kind)
    ensures SameBcbs(p, r)
  {
    hide Plus, Minus, Has, Total, Gave, Counted;
    PlusMinus(if b in p.users then p.users[b] else Users(0, 0, 0), kind);
    assert p.users.Keys == p.bcbs.Keys && r.users.Keys == r.bcbs.Keys by { CountedKeys(p); CountedKeys(r); }
    if b in p.bcbs {
      CountedAt(p, b);
      assert r.users == p.users;
      CountedAt(r, b);
      assert r.bcbs[b] == p.bcbs[b];
    } else {
      assert Total(Users(0, 0, 0)) == 0 by { ZeroUsers(); }
    }
  }

  lemma ZeroUsers()
    ensures Total(Users(0, 0, 0)) == 0
  {
  }

  lemma CountedKeys(p: Pins)
    requires Counted(p)
    ensures p.users.Keys == p.bcbs.Keys
  {
  }

  lemma CountedAt(p: Pins, b: nat)
    requires Counted(p) && b in p.bcbs
    ensures b in p.users && p.bcbs[b].refCount == Total(p.users[b]) > 0 && p.bcbs[b].pinCount == p.users[b].pins
  {
  }

  /** PinCount tells which kind of hold a caller of CcUnpinData has. */
  lemma KindIs(p: Pins, b: nat, kind: Kind)
    requires Counted(p) && b in p.bcbs && kind != Repin && Has(p.users[b], kind) > 0
    ensures (kind == Pin <==> p.bcbs[b].pinCount != 0) && p.users.Keys == p.bcbs.Keys
    ensures kind == Pin ==> p.users[b].maps == 0
  {
  }

  /** Turning a pin into a plain reference and dropping that is dropping the pin. */
  lemma UnpinJoins(p: Pins, q: Pins, r: Pins, b: nat)
    requires Counted(p) && b in p.bcbs && p.users[b].pins > 0 && LostUser(q, r, b, Repin) && q.cache == p.cache
    requires q.users == p.users[b := Plus(Minus(p.users[b], Pin), Repin)]
    requires q.bcbs == p.bcbs[b := p.bcbs[b].(pinCount := p.bcbs[b].pinCount - 1)]
    ensures LostUser(p, r, b, Pin)
  {
    hide Gave;
    assert Total(q.users[b]) == Total(p.users[b]);
    assert q.users - {b} == p.users - {b} && q.bcbs - {b} == p.bcbs - {b};
  }

  lemma FitSome(p: Pins, f: nat, offset: nat, length: nat, pinned: bool, b: nat)
    requires b in p.bcbs && p.bcbs[b].file == f && Fits(p.bcbs[b], offset, length, pinned)
    ensures !NoFit(p, f, offset, length, pinned)
  {
  }

  lemma NothingHappened(p: Pins)
    ensures OthersSame(p, p)
  {
  }

  lemma CountedSame(p: Pins, q: Pins)
    requires Counted(p) && q.bcbs == p.bcbs && q.users == p.users
    ensures Counted(q)
  {
  }

  lemma MarkedOwned(p: Pins, q: Pins, v: nat)
    requires Owned(p) && q.bcbs == p.bcbs && q.cache.holders == p.cache.holders
    requires q.cache.vacbs.Keys == p.cache.vacbs.Keys
    ensures Owned(q)
  {
    hide Owners;
  }

  /** A user of BCB a gave up its mapping for a pin of BCB b. */
  ghost predicate Exchanged(p: Pins, q: Pins, a: nat, b: nat) {
    && a != b && a in p.users && p.users[a].maps > 0 && b in q.users
    && q.users[b] == Plus(if b in p.users then p.users[b] else Users(0, 0, 0), Pin)
    && (if Total(p.users[a]) == 1 then a !in q.users else a in q.users && q.users[a] == Minus(p.users[a], Map))
    && forall x :: x != a && x != b ==> (x in q.users <==> x in p.users) && (x in p.users ==> q.users[x] == p.users[x])
  }

  /** The BCB that was pinned is not the mapped one, which still has its user. */
  lemma StillMapped(p: Pins, q: Pins, b: nat, mapped: nat)
    requires Counted(p) && Counted(q) && GotUser(p, q, b, Pin) && mapped in p.users && p.users[mapped].maps > 0
    ensures b != mapped && mapped in q.bcbs && mapped in q.users && q.users[mapped] == p.users[mapped]
  {
    assert q.users[b].pins > 0;
    assert q.users[b].maps == 0;
  }

  lemma ExchangedBoth(p: Pins, q: Pins, r: Pins, a: nat, b: nat)
    requires a != b && a in p.users && a in q.users && q.users[a] == p.users[a] && p.users[a].maps > 0
    requires GotUser(p, q, b, Pin) && LostUser(q, r, a, Map) && Counted(q)
    ensures Exchanged(p, r, a, b)
  {
    hide Gave;
    assert Total(q.users[a]) >= 1;
  }

  // The case the Length argument has to exclude: an empty request at the end of a mapped view.

  ghost function OneMapping(): Pins {
    Pins(OneView(1), map[5 := Bcb(FILE, GRANULARITY - 8, 8, 0, 0, 1)], map[FILE := [5]], map[5 := Users(1, 0, 0)])
  }

  lemma OneMappingFields()
    ensures var p := OneMapping();
            && p.cache == OneView(1) && (forall b :: b in p.bcbs <==> b == 5)
               && p.bcbs[5] == Bcb(FILE, GRANULARITY - 8, 8, 0, 0, 1)
            && (forall f :: f in p.lists <==> f == FILE) && p.lists[FILE] == [5]
            && (forall b :: b in p.users <==> b == 5) && p.users[5] == Users(1, 0, 0)
  {
  }

  /** In a file of two views whose first view is mapped to its end, an empty mapping at the start
      of the second gets the buffer of the first. */
  lemma EmptyRequestMisplaced()
    ensures PinInv(OneMapping()) && Misplaced(OneMapping(), FILE, GRANULARITY, 0, false)
    ensures FILE in OneMapping().cache.section && GRANULARITY < |OneMapping().cache.section[FILE]|
  {
    OneViewInv(1);
    assert OneMapping().cache.section[FILE] == TwoViewsLong();
    hide OneMapping, OneView, Inv, TwoViewsLong;
    OneMappingFields();
    OneViewFields(1);
    var p := OneMapping();
    assert Owners(p.bcbs, 0) == {5};
    assert Listed(p);
    assert Counted(p);
    assert Anchored(p);
    assert Owned(p);
    assert FirstFit(p, FILE, GRANULARITY, 0, false, 0);
  }

  // ---------------------------------------- what the rest of the cache manager keeps

  /** Trims, purges, flushes and copies leave every held view in place, so they keep the BCBs. */
  lemma CacheKeeps(p: Pins, c: Cache)
    requires PinInv(p) && Inv(c) && HeldStays(p.cache, c)
    ensures PinInv(p.(cache := c))
  {
    hide Inv, Owners, Owned, Anchored, Listed, HeldStays;
    var q := p.(cache := c);
    forall b | b in p.bcbs ensures AnchoredAt(c, p.bcbs[b]) { StillAnchored(p, c, b); }
    assert Anchored(q) by { AllAnchored(q); }
    StillOwned(p, c);
    StillListed(p, c);
  }

  lemma AllAnchored(q: Pins)
    requires forall b :: b in q.bcbs ==> AnchoredAt(q.cache, q.bcbs[b])
    ensures Anchored(q)
  {
  }

  lemma StillAnchored(p: Pins, c: Cache, b: nat)
    requires PinInv(p) && HeldStays(p.cache, c) && b in p.bcbs
    ensures AnchoredAt(c, p.bcbs[b])
  {
    hide Inv, Counted, Listed, Owned;
    OwnsHold(p, b);
    assert AnchoredAt(p.cache, p.bcbs[b]);
  }

  lemma StillOwned(p: Pins, c: Cache)
    requires Owned(p) && Anchored(p) && HeldStays(p.cache, c)
    ensures Owned(p.(cache := c))
  {
    hide Owners;
    forall v | v in c.vacbs ensures c.holders[v] >= |Owners(p.bcbs, v)| {
      if v !in p.cache.vacbs { NoOwners(p, v); }
    }
  }

  lemma StillListed(p: Pins, c: Cache)
    requires Listed(p) && HeldStays(p.cache, c)
    ensures Listed(p.(cache := c))
  {
    hide BcbsOf;
  }

  lemma FileOpen(p: Pins, b: nat)
    requires PinInv(p) && b in p.bcbs
    ensures p.bcbs[b].file in p.cache.views && p.bcbs[b].file in p.cache.section && p.bcbs[b].file in p.cache.disk
  {
    hide Counted, Owned, Anchored;
    DataKnown(p.cache, p.bcbs[b].file);
  }

  lemma LostParts(p: Pins, q: Pins, b: nat, kind: Kind)
    requires LostUser(p, q, b, kind)
    ensures BcbLost(p, q, b, kind) && q.cache.section == p.cache.section && q.cache.disk == p.cache.disk
    ensures forall x :: x in p.bcbs && x != b ==> x in q.bcbs && q.bcbs[x] == p.bcbs[x]
  {
  }

  lemma LostData(p: Pins, q: Pins, r: Pins)
    requires CaughtUp(p.cache, q.cache) && OthersSame(q, r)
    ensures CaughtUp(p.cache, r.cache) && (Unmapped(q.cache) ==> Unmapped(r.cache))
  {
  }

  lemma SameBcbLost(p: Pins, q: Pins, r: Pins, b: nat, kind: Kind)
    requires q.bcbs == p.bcbs && q.users == p.users && BcbLost(q, r, b, kind)
    ensures BcbLost(p, r, b, kind)
  {
  }

  lemma SameHeld(p: Pins, q: Pins)
    requires OthersSame(p, q)
    ensures OthersHeld(p, q)
  {
  }

  /** A flush that leaks no hold changes no reference. */
  lemma FlushedOthers(p: Pins, q: Pins, r: Pins, status: FlushStatus)
    requires q == p.(cache := q.cache) && OthersSame(q, r) && Owned(p) && Owned(q)
    requires status != Failed ==> q.cache.holders == p.cache.holders
    ensures status != Failed ==> OthersHeld(p, r)
  {
    hide Owners;
  }

  lemma CleanKept(q: Pins, r: Pins, b: nat, f: nat, lo: nat, hi: nat)
    requires Counted(q) && LostUser(q, r, b, Repin) && f in q.cache.section && f in q.cache.disk
    requires Clean(q.cache, f, lo, hi)
    ensures f in r.cache.section && f in r.cache.disk && Clean(r.cache, f, lo, hi)
  {
  }

  /** Where the bytes of a pinned range are in the view. */
  lemma PinnedPlace(p: Pins, b: nat, at: nat, length: nat)
    requires PinInv(p) && b in p.bcbs && Contains(p.bcbs[b], p.bcbs[b].file, at, length) && length > 0
    ensures var v := p.bcbs[b].vacb;
            && v in p.cache.vacbs && p.cache.vacbs[v].file == p.bcbs[b].file
               && p.cache.vacbs[v].offset + at % GRANULARITY == at
            && p.cache.vacbs[v].offset <= at && at + length <= p.cache.vacbs[v].offset + GRANULARITY
  {
    hide Counted, Listed, Owned;
    assert AnchoredAt(p.cache, p.bcbs[b]);
    Aligned(p.cache, p.bcbs[b].vacb);
    RoundedEnd(p.cache.vacbs[p.bcbs[b].vacb].offset, at, 0);
  }

  lemma WrittenPins(p: Pins, c: Cache)
    requires PinInv(p) && Inv(c) && c == p.cache.(section := c.section)
    ensures PinInv(p.(cache := c))
  {
    hide Inv;
    HeldStaysHere(p.cache);
    CacheKeeps(p, c);
  }

  lemma PinnedCovered(u: Cache, x: Cache, v: nat, f: nat, pos: nat, data: seq<byte>)
    requires Covered(u) && f in u.section && pos + |data| <= |u.section[f]|
    requires x.section == Written(u, f, pos, data).section && x.disk == u.disk
    requires v in u.vacbs && u.vacbs[v].file == f && u.vacbs[v].offset <= pos
    requires pos + |data| <= u.vacbs[v].offset + GRANULARITY
    requires x.vacbs.Keys == u.vacbs.Keys && x.vacbs[v].dirty
    requires forall w :: w in u.vacbs ==>
               && x.vacbs[w].file == u.vacbs[w].file && x.vacbs[w].offset == u.vacbs[w].offset
                  && (u.vacbs[w].dirty ==> x.vacbs[w].dirty)
    ensures Covered(x)
  {
    forall g, i | g in x.section && g in x.disk && 0 <= i < |x.section[g]| && i < |x.disk[g]|
      && x.section[g][i] != x.disk[g][i]
      ensures InDirtyView(x, g, i)
    {
      if g == f && pos <= i < pos + |data| {
        assert x.vacbs[v].dirty && InView(x.vacbs[v], i);
      } else {
        assert u.section[g][i] != u.disk[g][i];
        assert InDirtyView(u, g, i);
        var w :| w in u.vacbs && u.vacbs[w].dirty && u.vacbs[w].file == g && InView(u.vacbs[w], i);
        assert w in x.vacbs && x.vacbs[w].dirty && InView(x.vacbs[w], i);
      }
    }
  }
}
