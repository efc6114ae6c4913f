/**
 CcPurgeCacheSection: dropping the views of a byte range without writing them back.
 */
module CachePurge {
  import opened Sequences
  import opened VacbCache
  import opened CacheManager
  import opened CacheExample

  /** End of the range a purge works on: no length means to the end of everything. */
  function PurgeEnd(start: nat, length: nat): nat {
    if length == 0 then MAX_LONGLONG else start + length
  }

  /** What a purge of file f is asked for. */
  datatype Range = Range(f: nat, start: nat, end: nat, size: nat)

  /** One past the last byte a view shows of the section. */
  function ViewEnd(b: Vacb, r: Range): nat {
    Min(b.offset + GRANULARITY, r.size)
  }

  /** Somebody beside the lists and the dirty state refers to the view. */
  predicate InUse(b: Vacb) {
    (b.refs > 1 && !b.dirty) || (b.refs > 2 && b.dirty)
  }

  /** The views the purge is after; the end is exclusive, see BoundaryViewStays. */
  predicate InRange(b: Vacb, r: Range) {
    b.file == r.f && r.start <= b.offset && ViewEnd(b, r) < r.end
  }

  /** A view in range that no view in use at or before it protects. */
  ghost predicate Dropped(s: Cache, r: Range, v: nat) {
    && v in s.vacbs && InRange(s.vacbs[v], r)
    && forall w :: w in s.vacbs && InRange(s.vacbs[w], r) && s.vacbs[w].offset <= s.vacbs[v].offset ==>
       !InUse(s.vacbs[w])
  }

  /** Unlink a view nobody uses and free it, giving up its dirty state unwritten. */
  ghost function Discard(s: Cache, v: nat): (t: Cache)
    requires Inv(s) && v in s.vacbs && !InUse(s.vacbs[v])
    ensures Inv(t)
  {
    hide Inv;
    DiscardKeeps(s, v);
    Evict(if s.vacbs[v].dirty then Unmark(s, v) else s, v)
  }

  lemma DiscardKeeps(s: Cache, v: nat)
    requires Inv(s) && v in s.vacbs && !InUse(s.vacbs[v])
    ensures s.vacbs[v].dirty ==>
            s.vacbs[v].file in s.dirtyPages && s.totalDirty >= PAGES && s.dirtyPages[s.vacbs[v].file] >= PAGES
    ensures s.vacbs[v].file in s.views && s.vacbs[v].refs >= 1
    ensures Inv(Evict(if s.vacbs[v].dirty then Unmark(s, v) else s, v))
    ensures v in s.holders && s.holders[v] == 0 && s.vacbs[v].mapped == 0
  {
    hide Inv, Evict, Unmark;
    ReferencedHere(s, v);
    if s.vacbs[v].dirty {
      DirtyFacts(s, v);
      UnmarkKeeps(s, v);
      UnmarkFields(s, v);
      EvictKeeps(Unmark(s, v), v);
    } else {
      EvictKeeps(s, v);
    }
  }

  lemma UnmarkFields(s: Cache, v: nat)
    requires v in s.vacbs && s.vacbs[v].file in s.dirtyPages && s.vacbs[v].refs >= 1
    requires s.totalDirty >= PAGES && s.dirtyPages[s.vacbs[v].file] >= PAGES
    ensures Unmark(s, v).vacbs == s.vacbs[v := s.vacbs[v].(dirty := false, refs := s.vacbs[v].refs - 1)]
    ensures var t := Unmark(s, v);
            t.views == s.views && t.holders == s.holders && t.section == s.section && t.disk == s.disk
  {
    hide Without;
  }

  lemma DiscardFields(s: Cache, v: nat)
    requires Inv(s) && v in s.vacbs && !InUse(s.vacbs[v])
    ensures var t, f := Discard(s, v), s.vacbs[v].file;
            && t.vacbs == s.vacbs - {v} && t.section == s.section && t.disk == s.disk && t.holders == s.holders - {v}
            && f in s.views && t.views == s.views[f := Without(s.views[f], v)]
  {
    hide Inv, Without;
    DiscardKeeps(s, v);
    if s.vacbs[v].dirty { UnmarkFields(s, v); }
  }

  lemma RestOfList(s: Cache, f: nat, i: nat)
    requires Inv(s) && f in s.views && i < |s.views[f]|
    ensures var v := s.views[f][i];
            v in s.vacbs && s.vacbs[v].file == f && Without(s.views[f], v) == s.views[f][..i] + s.views[f][i + 1..]
    ensures forall j :: 0 <= j < i ==> s.views[f][j] != s.views[f][i]
  {
    hide Linked, Totalled, Referenced, Without;
    ListEntry(s, f, i);
    assert Ascending(s, s.views[f]);
    AscendingNoDup(s, s.views[f]);
    WithoutAt(s.views[f], i);
  }

  /** The list walk from position i. */
  ghost function PurgeFrom(s: Cache, r: Range, i: nat): (p: (Cache, bool))
    requires Inv(s) && r.f in s.views && i <= |s.views[r.f]|
    ensures Inv(p.0) && p.0.section == s.section && p.0.disk == s.disk && p.0.views.Keys == s.views.Keys
    decreases |s.views[r.f]| - i
  {
    hide Inv, Discard, Without;
    if i == |s.views[r.f]| then (s, true)
    else
      RestOfList(s, r.f, i);
      var v := s.views[r.f][i];
      if s.vacbs[v].offset < r.start then PurgeFrom(s, r, i + 1)
      else if ViewEnd(s.vacbs[v], r) >= r.end then (s, true)
      else if InUse(s.vacbs[v]) then (s, false)
      else
        DiscardFields(s, v);
        PurgeFrom(Discard(s, v), r, i)
  }

  /** Nothing before position i of the list is in range. */
  ghost predicate Passed(s: Cache, r: Range, i: nat)
    requires r.f in s.views && i <= |s.views[r.f]|
  {
    forall j :: 0 <= j < i ==> s.views[r.f][j] in s.vacbs && !InRange(s.vacbs[s.views[r.f][j]], r)
  }

  /** What is in range is at position i or starts behind it. */
  lemma Ahead(s: Cache, r: Range, i: nat, v: nat)
    requires Inv(s) && r.f in s.views && i <= |s.views[r.f]| && Passed(s, r, i) && v in s.vacbs
    requires InRange(s.vacbs[v], r)
    ensures i < |s.views[r.f]|
    ensures var w := s.views[r.f][i]; w in s.vacbs && (v == w || s.vacbs[w].offset < s.vacbs[v].offset)
  {
    hide Linked, Totalled, Referenced;
    assert v in s.views[r.f] && Ascending(s, s.views[r.f]);
    var j :| 0 <= j < |s.views[r.f]| && s.views[r.f][j] == v;
    assert j >= i;
  }

  /** What the walk leaves: everything but the dropped views, each as it was. */
  ghost predicate Purged(s: Cache, t: Cache, r: Range) {
    && t.vacbs.Keys <= s.vacbs.Keys
    && (forall v :: v in s.vacbs ==> (v in t.vacbs <==> !Dropped(s, r, v)))
    && (forall v :: v in t.vacbs ==> t.vacbs[v] == s.vacbs[v])
  }

  ghost predicate Free(s: Cache, r: Range) {
    forall v :: v in s.vacbs && InRange(s.vacbs[v], r) ==> !InUse(s.vacbs[v])
  }

  lemma DiscardStep(s: Cache, r: Range, i: nat, t: Cache)
    requires Inv(s) && r.f in s.views && i < |s.views[r.f]| && Passed(s, r, i)
    requires var v := s.views[r.f][i];
             v in s.vacbs && InRange(s.vacbs[v], r) && !InUse(s.vacbs[v]) && t.vacbs == s.vacbs - {v}
    requires r.f in t.views && t.views[r.f] == Without(s.views[r.f], s.views[r.f][i])
    ensures Dropped(s, r, s.views[r.f][i]) && Free(s, r) == Free(t, r) && i <= |t.views[r.f]| && Passed(t, r, i)
    ensures forall w :: w in t.vacbs ==> (Dropped(t, r, w) <==> Dropped(s, r, w))
  {
    hide Inv, InUse, InRange, Without;
    var v := s.views[r.f][i];
    RestOfList(s, r.f, i);
    forall w | w in s.vacbs && InRange(s.vacbs[w], r) ensures w == v || s.vacbs[v].offset < s.vacbs[w].offset {
      Ahead(s, r, i, w);
    }
    forall w | w in s.vacbs && InRange(s.vacbs[w], r) && Free(t, r) ensures !InUse(s.vacbs[w]) {
      if w != v { assert t.vacbs[w] == s.vacbs[w]; }
    }
    forall w | w in t.vacbs ensures Dropped(t, r, w) <==> Dropped(s, r, w) {
      assert t.vacbs[w] == s.vacbs[w];
      forall x | x in s.vacbs && InRange(s.vacbs[x], r) && s.vacbs[x].offset <= s.vacbs[w].offset && Dropped(t, r, w)
        ensures !InUse(s.vacbs[x])
      {
        if x != v { assert t.vacbs[x] == s.vacbs[x]; }
      }
    }
  }

  /** The walk stops early, yet it succeeds exactly when no view in range is in use, and drops
      exactly the views in range that have none in use at or before them. */
  lemma {:induction false} PurgeExact(s: Cache, r: Range, i: nat)
    requires Inv(s) && r.f in s.views && i <= |s.views[r.f]| && Passed(s, r, i)
    ensures var p := PurgeFrom(s, r, i); Purged(s, p.0, r) && (p.1 <==> Free(s, r))
    decreases |s.views[r.f]| - i
  {
    hide Inv, Discard, Without, InUse;
    if i == |s.views[r.f]| {
      forall v | v in s.vacbs ensures !InRange(s.vacbs[v], r) { NoneAhead(s, r, i, v); }
    } else {
      RestOfList(s, r.f, i);
      var v := s.views[r.f][i];
      if s.vacbs[v].offset < r.start {
        PurgeExact(s, r, i + 1);
      } else if ViewEnd(s.vacbs[v], r) >= r.end {
        forall w | w in s.vacbs ensures !InRange(s.vacbs[w], r) { NoneAhead(s, r, i, w); }
      } else if InUse(s.vacbs[v]) {
        UsedStops(s, r, i);
      } else {
        DiscardFields(s, v);
        var t := Discard(s, v);
        DiscardStep(s, r, i, t);
        PurgeExact(t, r, i);
        PurgedOneMore(s, t, PurgeFrom(t, r, i).0, r, v);
      }
    }
  }

  lemma UsedStops(s: Cache, r: Range, i: nat)
    requires Inv(s) && r.f in s.views && i < |s.views[r.f]| && Passed(s, r, i)
    requires var v := s.views[r.f][i]; v in s.vacbs && InRange(s.vacbs[v], r) && InUse(s.vacbs[v])
    ensures !Free(s, r) && Purged(s, s, r)
  {
    hide Inv, InUse, InRange;
    forall w | w in s.vacbs ensures !Dropped(s, r, w) {
      if InRange(s.vacbs[w], r) { Ahead(s, r, i, w); }
    }
  }

  lemma PurgedOneMore(s: Cache, t: Cache, u: Cache, r: Range, v: nat)
    requires Purged(t, u, r) && v in s.vacbs && t.vacbs == s.vacbs - {v} && Dropped(s, r, v)
    requires forall w :: w in t.vacbs ==> (Dropped(t, r, w) <==> Dropped(s, r, w))
    ensures Purged(s, u, r)
  {
    hide Dropped;
  }

  lemma NoneAhead(s: Cache, r: Range, i: nat, v: nat)
    requires Inv(s) && r.f in s.views && i <= |s.views[r.f]| && Passed(s, r, i) && v in s.vacbs
    requires i < |s.views[r.f]| ==> s.views[r.f][i] in s.vacbs && ViewEnd(s.vacbs[s.views[r.f][i]], r) >= r.end
    ensures !InRange(s.vacbs[v], r)
  {
    if InRange(s.vacbs[v], r) { Ahead(s, r, i, v); }
  }

  /** A view that lies wholly in the range is purged, when nothing is in use, unless it ends
      exactly where the range ends. */
  lemma BoundaryViewStays(s: Cache, r: Range, v: nat)
    requires Inv(s) && r.f in s.views && Free(s, r) && v in s.vacbs && s.vacbs[v].file == r.f
    requires r.start <= s.vacbs[v].offset && ViewEnd(s.vacbs[v], r) <= r.end
    ensures v in PurgeFrom(s, r, 0).0.vacbs <==> ViewEnd(s.vacbs[v], r) == r.end
  {
    hide Inv, PurgeFrom;
    PurgeExact(s, r, 0);
  }

  /** Purging exactly the bytes of one unused view leaves that view in the cache. */
  lemma BoundaryExample()
    ensures var s, r := OneView(0), Range(FILE, 0, PurgeEnd(0, GRANULARITY), 2 * GRANULARITY);
            Inv(s) && r.f in s.views && Free(s, r) && PurgeFrom(s, r, 0).1 && 0 in PurgeFrom(s, r, 0).0.vacbs
  {
    hide Inv, PurgeFrom, OneView;
    OneViewInv(0);
    OneViewFields(0);
    var s, r := OneView(0), Range(FILE, 0, PurgeEnd(0, GRANULARITY), 2 * GRANULARITY);
    PurgeExact(s, r, 0);
    BoundaryViewStays(s, r, 0);
  }

  /** The bytes a view shows are the bytes on disk. */
  ghost predicate Synced(s: Cache, v: nat) {
    v in s.vacbs && s.vacbs[v].file in s.section && s.vacbs[v].file in s.disk
    && forall i :: 0 <= i < |s.section[s.vacbs[v].file]| && i < |s.disk[s.vacbs[v].file]| && InView(s.vacbs[v], i)
                   ==> s.section[s.vacbs[v].file][i] == s.disk[s.vacbs[v].file][i]
  }

  /** The walk on its own leaves every unwritten byte in a dirty view exactly when no dropped view
      had one. */
  lemma PurgeCoveredIff(s: Cache, t: Cache, r: Range)
    requires Inv(s) && Covered(s) && Purged(s, t, r) && t.section == s.section && t.disk == s.disk
    ensures Covered(t) <==> forall v :: Dropped(s, r, v) ==> Synced(s, v)
  {
    hide Totalled, Linked, Referenced, Dropped;
    forall v | Dropped(s, r, v) && Covered(t) ensures Synced(s, v) { DroppedSynced(s, t, r, v); }
    if forall v :: Dropped(s, r, v) ==> Synced(s, v) {
      forall f, i | f in t.section && f in t.disk && 0 <= i < |t.section[f]| && i < |t.disk[f]|
        && t.section[f][i] != t.disk[f][i]
        ensures InDirtyView(t, f, i)
      {
        assert InDirtyView(s, f, i);
        var w :| w in s.vacbs && s.vacbs[w].dirty && s.vacbs[w].file == f && InView(s.vacbs[w], i);
        assert !Synced(s, w);
        assert w in t.vacbs && t.vacbs[w] == s.vacbs[w];
      }
    }
  }

  lemma DroppedIsView(s: Cache, r: Range, v: nat)
    requires Dropped(s, r, v)
    ensures v in s.vacbs && InRange(s.vacbs[v], r)
  {
  }

  lemma DroppedSynced(s: Cache, t: Cache, r: Range, v: nat)
    requires Inv(s) && Purged(s, t, r) && t.section == s.section && t.disk == s.disk && Covered(t) && Dropped(s, r, v)
    ensures Synced(s, v)
  {
    hide Totalled, Linked, Referenced, Dropped;
    DroppedIsView(s, r, v);
    ReferencedHere(s, v);
    var f := s.vacbs[v].file;
    forall i | 0 <= i < |s.section[f]| && i < |s.disk[f]| && InView(s.vacbs[v], i)
      ensures s.section[f][i] == s.disk[f][i]
    {
      if s.section[f][i] != s.disk[f][i] {
        assert InDirtyView(t, f, i);
        var w :| w in t.vacbs && t.vacbs[w].dirty && t.vacbs[w].file == f && InView(t.vacbs[w], i);
        ViewsDisjoint(s, v, w, i);
        assert false;
      }
    }
  }

  /** t is s after Mm dropped its pages of the range: reads see the disk again there. */
  ghost predicate Reverted(s: Cache, t: Cache, r: Range) {
    && r.f in s.section && r.f in s.disk && |s.section[r.f]| == |s.disk[r.f]|
    && t == s.(section := s.section[r.f := Spliced(s.section[r.f], s.disk[r.f], r.start, r.end)])
  }

  /** Dropping views and pages together strands no unwritten byte: what is left unwritten in the
      range is given up, what is unwritten outside is still in a dirty view. */
  lemma RevertedCovered(s: Cache, t: Cache, u: Cache, r: Range)
    requires Inv(s) && Covered(s) && Purged(s, t, r) && t.section == s.section && t.disk == s.disk && Reverted(t, u, r)
    requires r.f in s.section && r.size == |s.section[r.f]|
    ensures Covered(u)
  {
    hide Totalled, Linked, Referenced, Viewed, Dropped;
    forall f, i | f in u.section && f in u.disk && 0 <= i < |u.section[f]| && i < |u.disk[f]|
      && u.section[f][i] != u.disk[f][i]
      ensures InDirtyView(u, f, i)
    {
      assert s.section[f][i] != s.disk[f][i];
      assert InDirtyView(s, f, i);
      var w :| w in s.vacbs && s.vacbs[w].dirty && s.vacbs[w].file == f && InView(s.vacbs[w], i);
      if Dropped(s, r, w) { DroppedIsView(s, r, w); }
      assert w in t.vacbs && t.vacbs[w] == s.vacbs[w];
    }
  }

  /** CcPurgeCacheSection on an open file; `mm` is whether Mm could drop its pages. */
  method PurgeCacheSection(m: Manager, f: nat, start: nat, length: nat, mm: bool) returns (ok: bool)
    requires Inv(m.State()) && f in m.views && f in m.section
    modifies m
    ensures Inv(m.State()) && m.disk == old(m.disk) && f in old(m.section)
    ensures HeldStays(old(m.State()), m.State()) && (old(Unmapped(m.State())) ==> Unmapped(m.State()))
    ensures var r := Range(f, start, PurgeEnd(start, length), |old(m.section)[f]|);
            && Purged(old(m.State()), m.State(), r)
            && ok == (old(Free(m.State(), r)) && mm)
            && (!ok ==> m.section == old(m.section))
            && (ok ==>
               |old(m.disk)[f]| == r.size
               && m.section == old(m.section)[f := Spliced(old(m.section)[f], m.disk[f], start, r.end)])
            && (ok && old(Covered(m.State())) ==> Covered(m.State()))
            && (!ok && old(Covered(m.State())) ==>
               (Covered(m.State()) <==> forall v :: old(Dropped(m.State(), r, v)) ==> old(Synced(m.State(), v))))
  {
    hide Inv, Covered, Purged, Free, Dropped, Synced, Without, Discard, InUse, HeldStays, Unmapped;
    ghost var s := m.State();
    var r := Range(f, start, PurgeEnd(start, length), |m.section[f]|);
    ok := true;
    var i := 0;
    while i < |m.views[f]|
      invariant Inv(m.State()) && f in m.views && 0 <= i <= |m.views[f]| && ok
      invariant m.section == s.section && m.disk == s.disk
      invariant PurgeFrom(m.State(), r, i) == PurgeFrom(s, r, 0)
      decreases |m.views[f]| - i
    {
      ghost var t := m.State();
      RestOfList(t, f, i);
      var v := m.views[f][i];
      if m.vacbs[v].offset < start {
        i := i + 1;
      } else if ViewEnd(m.vacbs[v], r) >= r.end {
        break;
      } else if InUse(m.vacbs[v]) {
        ok := false;
        break;
      } else {
        DiscardFields(t, v);
        DiscardView(m, v);
      }
    }
    ghost var t := m.State();
    PurgeExact(s, r, 0);
    PurgedStays(s, t, r);
    DataKnown(t, f);
    if ok && mm {
      m.section := m.section[f := Spliced(m.section[f], m.disk[f], start, r.end)];
      DataOnly(t, m.State());
      if Covered(s) { RevertedCovered(s, t, m.State(), r); }
      PurgedData(s, t, m.State(), r);
      StaysData(s, t, m.State());
    } else {
      ok := false;
      if Covered(s) { PurgeCoveredIff(s, t, r); }
    }
  }

  /** The purge drops only views that nobody holds. */
  lemma PurgedStays(s: Cache, t: Cache, r: Range)
    requires Inv(s) && Inv(t) && Purged(s, t, r) && t.views.Keys == s.views.Keys
    ensures HeldStays(s, t) && (Unmapped(s) ==> Unmapped(t))
  {
    hide Linked, Viewed, Totalled;
    forall v | v in s.vacbs && s.holders[v] > 0 ensures v in t.vacbs {
      ReferencedAt(s, v);
      assert InUse(s.vacbs[v]);
    }
  }

  lemma StaysData(s: Cache, t: Cache, u: Cache)
    requires HeldStays(s, t) && (Unmapped(s) ==> Unmapped(t)) && u == t.(section := u.section)
    ensures HeldStays(s, u) && (Unmapped(s) ==> Unmapped(u))
  {
  }

  lemma PurgedData(s: Cache, t: Cache, u: Cache, r: Range)
    requires Purged(s, t, r) && u == t.(section := u.section)
    ensures Purged(s, u, r)
  {
  }

  method DiscardView(m: Manager, v: nat)
    requires Inv(m.State()) && v in m.vacbs && !InUse(m.vacbs[v])
    modifies m
    ensures Inv(m.State()) && m.State() == Discard(old(m.State()), v)
  {
    hide Inv, Without;
    ghost var s := m.State();
    DiscardKeeps(s, v);
    DiscardFields(s, v);
    var f := m.vacbs[v].file;
    m.lru := Without(m.lru, v);
    if m.vacbs[v].dirty {
      m.dirtyList := Without(m.dirtyList, v);
      m.totalDirty := m.totalDirty - PAGES;
      m.dirtyPages := m.dirtyPages[f := m.dirtyPages[f] - PAGES];
    }
    m.views := m.views[f := Without(m.views[f], v)];
    m.vacbs := m.vacbs - {v};
    m.holders := m.holders - {v};
  }

  // A purge that fails can give up unwritten bytes: two views, the first dirty, the second held.

  ghost function TwoViews(shown: seq<byte>, written: seq<byte>): Cache {
    Cache(map[0 := Vacb(7, 0, 2, true, 0), 1 := Vacb(7, GRANULARITY, 2, false, 0)], map[7 := [0, 1]],
          [0, 1], [0], PAGES, map[7 := PAGES],
          map[0 := 0, 1 := 1], map[7 := shown], map[7 := written])
  }

  lemma TwoViewsFields(shown: seq<byte>, written: seq<byte>)
    ensures var s := TwoViews(shown, written);
            && (forall v :: v in s.vacbs <==> v == 0 || v == 1)
            && s.vacbs[0] == Vacb(7, 0, 2, true, 0) && s.vacbs[1] == Vacb(7, GRANULARITY, 2, false, 0)
            && (forall f :: f in s.views <==> f == 7) && s.views[7] == [0, 1]
  {
  }

  lemma TwoViewsViewed(shown: seq<byte>, written: seq<byte>)
    ensures Viewed(TwoViews(shown, written))
  {
    hide TwoViews;
    TwoViewsFields(shown, written);
    var s := TwoViews(shown, written);
    assert ListOf(s, s.views[7], 7) by { assert forall v :: v in [0, 1] <==> v == 0 || v == 1; }
    assert GRANULARITY % GRANULARITY == 0 && 0 % GRANULARITY == 0;
  }

  lemma TwoViewsInv(shown: seq<byte>, written: seq<byte>)
    requires |shown| == |written|
    ensures Inv(TwoViews(shown, written))
  {
    hide Viewed, Pages;
    var s := TwoViews(shown, written);
    TwoViewsViewed(shown, written);
    TwoViewsFields(shown, written);
    PagesSum(0, 1);
    assert DirtyOf(s, 7) == {0};
    assert |DirtyOf(s, 7)| == 1;
    assert Linked(s);
    assert Totalled(s);
    assert Referenced(s);
  }

  lemma TwoViewsCovered(shown: seq<byte>, written: seq<byte>)
    requires |shown| == |written| && forall i :: 0 < i < |shown| ==> shown[i] == written[i]
    ensures Covered(TwoViews(shown, written))
  {
    var s := TwoViews(shown, written);
    assert s.vacbs[0].dirty && s.vacbs[0].file == 7 && InView(s.vacbs[0], 0);
  }

  lemma FailedPurge(shown: seq<byte>, written: seq<byte>)
    requires |shown| == |written| > 0 && shown[0] != written[0]
    requires forall i :: 0 < i < |shown| ==> shown[i] == written[i]
    requires |shown| < MAX_LONGLONG
    ensures var s, r := TwoViews(shown, written), Range(7, 0, MAX_LONGLONG, |shown|);
            Inv(s) && Covered(s) && !PurgeFrom(s, r, 0).1 && !Covered(PurgeFrom(s, r, 0).0)
  {
    hide PurgeFrom, Inv, Covered, TwoViews;
    TwoViewsFields(shown, written);
    var s, r := TwoViews(shown, written), Range(7, 0, MAX_LONGLONG, |shown|);
    TwoViewsInv(shown, written);
    TwoViewsCovered(shown, written);
    PurgeExact(s, r, 0);
    assert InRange(s.vacbs[1], r) && InUse(s.vacbs[1]);
    assert Dropped(s, r, 0);
    Unsynced(shown, written);
    PurgeCoveredIff(s, PurgeFrom(s, r, 0).0, r);
  }

  lemma Unsynced(shown: seq<byte>, written: seq<byte>)
    requires |shown| == |written| > 0 && shown[0] != written[0]
    ensures !Synced(TwoViews(shown, written), 0)
  {
    var s := TwoViews(shown, written);
    assert InView(s.vacbs[0], 0) && s.section[7][0] != s.disk[7][0];
  }

  lemma FailedPurgeForgets()
    ensures exists s: Cache, r: Range ::
              Inv(s) && Covered(s) && r.f in s.views && !PurgeFrom(s, r, 0).1 && !Covered(PurgeFrom(s, r, 0).0)
  {
    hide Inv, Covered, PurgeFrom;
    FailedPurge(seq(2 * GRANULARITY, i => if i == 0 then 1 else 0), seq(2 * GRANULARITY, i => 0));
  }

  /** A view counts as in use exactly when somebody holds it or it is mapped. */
  lemma InUseIff(s: Cache, v: nat)
    requires Inv(s) && v in s.vacbs
    ensures v in s.holders && (InUse(s.vacbs[v]) <==> s.holders[v] > 0 || s.vacbs[v].mapped > 0)
  {
    hide Linked, Viewed, Totalled;
    ReferencedAt(s, v);
  }
}
