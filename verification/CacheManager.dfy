/**
 The cache manager's calls on single views, working in place on the view lists: lookup and
 creation, release, marking, flushing one view and evicting one.
 */
module CacheManager {
  import opened Sequences
  import opened VacbCache
  import opened ListOrder

  function RoundDown(offset: nat): (r: nat)
    ensures r % GRANULARITY == 0 && r <= offset < r + GRANULARITY
  {
    offset - offset % GRANULARITY
  }

  /** The view of file f that covers the offset, if there is one. */
  ghost predicate Covers(s: Cache, v: nat, f: nat, offset: nat) {
    v in s.vacbs && s.vacbs[v].file == f && InView(s.vacbs[v], offset)
  }

  /** t is s after a caller took a hold on view v of file f, perhaps creating it: nothing else
      changed but the LRU order. */
  ghost predicate Got(s: Cache, t: Cache, v: nat, f: nat, offset: nat) {
    && Covers(t, v, f, offset)
    && t.vacbs.Keys == s.vacbs.Keys + {v} && t.holders.Keys == t.vacbs.Keys && s.holders.Keys == s.vacbs.Keys
    && (forall w :: w in s.vacbs && w != v ==> t.vacbs[w] == s.vacbs[w] && t.holders[w] == s.holders[w])
    && t.holders[v] == (if v in s.vacbs then s.holders[v] else 0) + 1
    && t.vacbs[v].dirty == (v in s.vacbs && s.vacbs[v].dirty) && t.vacbs[v].refs >= 2
    && (if v in s.vacbs then t.vacbs[v] == s.vacbs[v].(refs := t.vacbs[v].refs) else t.vacbs[v].mapped == 0)
    && t.section == s.section && t.disk == s.disk && t.dirtyList == s.dirtyList && t.views.Keys == s.views.Keys
  }

  /** No view is mapped, as the only callers of CcRosReleaseVacb leave it. */
  ghost predicate Unmapped(s: Cache) {
    forall v :: v in s.vacbs ==> s.vacbs[v].mapped == 0
  }

  /** Callers hold in t what they held in s; views may have been added. */
  ghost predicate SameHolds(s: Cache, t: Cache) {
    && s.vacbs.Keys <= t.vacbs.Keys && t.holders.Keys == t.vacbs.Keys && s.holders.Keys == s.vacbs.Keys
    && t.views.Keys == s.views.Keys
    && (forall v :: v in t.vacbs ==> t.holders[v] == if v in s.vacbs then s.holders[v] else 0)
    && (forall v :: v in s.vacbs ==> t.vacbs[v].file == s.vacbs[v].file && t.vacbs[v].offset == s.vacbs[v].offset)
  }

  /** Whoever holds a view in s still holds it in t, and it is still the same part of the file. */
  ghost predicate HeldStays(s: Cache, t: Cache) {
    && t.views.Keys == s.views.Keys && t.holders.Keys == t.vacbs.Keys
    && forall v :: v in s.vacbs && v in s.holders && s.holders[v] > 0 ==>
         && v in t.vacbs && t.holders[v] >= s.holders[v]
         && t.vacbs[v].file == s.vacbs[v].file && t.vacbs[v].offset == s.vacbs[v].offset
  }

  lemma HeldStaysThrough(s: Cache, t: Cache, u: Cache)
    requires HeldStays(s, t) && HeldStays(t, u)
    ensures HeldStays(s, u)
  {
  }

  lemma HeldStaysHere(s: Cache)
    requires Inv(s)
    ensures HeldStays(s, s)
  {
    hide Linked, Viewed, Totalled;
  }

  lemma SameHoldsStays(s: Cache, t: Cache)
    requires SameHolds(s, t)
    ensures HeldStays(s, t)
  {
  }

  /** From s to t the disk took over bytes that the views show, and no other. */
  ghost predicate CaughtUp(s: Cache, t: Cache) {
    && t.section == s.section && t.disk.Keys == s.disk.Keys && s.section.Keys == s.disk.Keys
    && (forall f :: f in s.disk ==> |t.disk[f]| == |s.disk[f]| == |s.section[f]|)
    && forall f, i :: f in s.disk && 0 <= i < |s.disk[f]| ==>
       t.disk[f][i] == s.disk[f][i] || t.disk[f][i] == s.section[f][i]
  }

  lemma CaughtUpThrough(s: Cache, t: Cache, u: Cache)
    requires CaughtUp(s, t) && CaughtUp(t, u)
    ensures CaughtUp(s, u)
  {
  }

  lemma CaughtUpSame(s: Cache, t: Cache)
    requires Inv(s) && t.section == s.section && t.disk == s.disk
    ensures CaughtUp(s, t)
  {
    hide Linked, Viewed, Totalled, Referenced;
  }

  lemma FlushCatchesUp(s: Cache, v: nat, ok: bool)
    requires Inv(s) && FlushReady(s, v)
    ensures CaughtUp(s, FlushView(s, v, ok))
  {
    hide Linked, Viewed, Totalled, Referenced, Without;
  }

  lemma HoldGot(s: Cache, v: nat, f: nat, offset: nat)
    requires Inv(s) && Covers(s, v, f, offset)
    ensures v in s.holders && Got(s, Hold(s, v), v, f, offset) && Got(s, Touch(Hold(s, v), v), v, f, offset)
  {
    hide Linked, Viewed, Totalled, Without;
  }

  lemma InsertGot(s: Cache, id: nat, f: nat, offset: nat, k: nat)
    requires Inv(s) && id !in s.vacbs && f in s.views && k <= |s.views[f]|
    ensures var t := Insert(s, id, f, RoundDown(offset), k);
            Got(s, t, id, f, offset) && Got(s, Touch(t, id), id, f, offset)
  {
    hide Linked, Viewed, Totalled, Without;
  }

  /** The early exit of the list walks is sound: behind a view that starts later, nothing covers. */
  lemma BehindNothing(s: Cache, f: nat, offset: nat, k: nat, v: nat)
    requires Viewed(s) && f in s.views && k < |s.views[f]| && s.views[f][k] in s.vacbs
    requires s.vacbs[s.views[f][k]].offset > offset
    requires forall j :: 0 <= j < k ==> s.views[f][j] in s.vacbs && !InView(s.vacbs[s.views[f][j]], offset)
    requires v in s.vacbs && s.vacbs[v].file == f
    ensures !InView(s.vacbs[v], offset)
  {
    assert v in s.views[f] && Ascending(s, s.views[f]);
    var j :| 0 <= j < |s.views[f]| && s.views[f][j] == v;
    if j > k { assert s.vacbs[s.views[f][k]].offset < s.vacbs[v].offset; }
  }

  lemma ScannedAll(s: Cache, f: nat, offset: nat, v: nat)
    requires Viewed(s) && f in s.views
    requires forall j :: 0 <= j < |s.views[f]| ==> s.views[f][j] in s.vacbs && !InView(s.vacbs[s.views[f][j]], offset)
    requires v in s.vacbs && s.vacbs[v].file == f
    ensures !InView(s.vacbs[v], offset)
  {
    assert v in s.views[f];
  }

  lemma ListEntry(s: Cache, f: nat, k: nat)
    requires Viewed(s) && f in s.views && k < |s.views[f]|
    ensures s.views[f][k] in s.vacbs && s.vacbs[s.views[f][k]].file == f
    ensures s.vacbs[s.views[f][k]].offset % GRANULARITY == 0
  {
    assert Ascending(s, s.views[f]);
    assert s.views[f][k] in s.views[f];
  }

  /** The insertion point CcRosCreateVacb finds for an offset, aligned or not, is the right one
      for the rounded offset. */
  lemma GapFound(s: Cache, f: nat, offset: nat, k: nat)
    requires Viewed(s) && f in s.views && k <= |s.views[f]|
    requires forall j :: 0 <= j < k ==>
             s.views[f][j] in s.vacbs && s.vacbs[s.views[f][j]].offset < offset
             && !InView(s.vacbs[s.views[f][j]], offset)
    requires k < |s.views[f]| ==> s.views[f][k] in s.vacbs && s.vacbs[s.views[f][k]].offset > offset
    ensures Gap(s, s.views[f], RoundDown(offset), k)
  {
    var list := s.views[f];
    assert Ascending(s, list);
    forall j | 0 <= j < k ensures list[j] in s.vacbs && s.vacbs[list[j]].offset < RoundDown(offset) {
      ListEntry(s, f, j);
    }
    forall j | k <= j < |list| ensures list[j] in s.vacbs && s.vacbs[list[j]].offset > RoundDown(offset) {
      ListEntry(s, f, j);
      if j > k { assert s.vacbs[list[k]].offset < s.vacbs[list[j]].offset; }
    }
  }

  class Manager {
    var vacbs: map<nat, Vacb>
    var views: map<nat, seq<nat>>
    var lru: seq<nat>
    var dirtyList: seq<nat>
    var totalDirty: nat
    var dirtyPages: map<nat, nat>
    ghost var holders: map<nat, nat>
    var section: map<nat, seq<byte>>
    var disk: map<nat, seq<byte>>

    ghost function State(): Cache
      reads this
    {
      Cache(vacbs, views, lru, dirtyList, totalDirty, dirtyPages, holders, section, disk)
    }

    /** No views yet: what is on the disk is what the files show. */
    constructor (files: map<nat, seq<byte>>)
      ensures Inv(State()) && Covered(State()) && Unmapped(State()) && section == disk == files && vacbs == map[]
    {
      vacbs, views, lru, dirtyList, totalDirty := map[], map f | f in files :: [], [], [], 0;
      dirtyPages := map f | f in files :: 0;
      holders, section, disk := map[], files, files;
      new;
      assert forall f :: DirtyOf(State(), f) == {};
    }

    /** CcRosLookupVacb: finds the covering view exactly when there is one, and holds it. */
    method LookupVacb(f: nat, offset: nat) returns (r: Option<nat>)
      requires Inv(State()) && f in views
      modifies this`vacbs, this`holders
      ensures match r
              case None => State() == old(State()) && forall v :: !Covers(State(), v, f, offset)
              case Some(v) =>
                v in old(holders) && Covers(old(State()), v, f, offset) && State() == Hold(old(State()), v)
      ensures Inv(State()) && (old(Covered(State())) ==> Covered(State()))
    {
      hide Linked, Totalled, Referenced, Viewed, Covered;
      ghost var s := State();
      var i := 0;
      while i < |views[f]|
        invariant 0 <= i <= |views[f]| && State() == s
        invariant forall j :: 0 <= j < i ==> views[f][j] in vacbs && !InView(vacbs[views[f][j]], offset)
      {
        ListEntry(s, f, i);
        var v := views[f][i];
        if InView(vacbs[v], offset) {
          HoldKeeps(s, v);
          vacbs := vacbs[v := vacbs[v].(refs := vacbs[v].refs + 1)];
          holders := holders[v := holders[v] + 1];
          return Some(v);
        }
        if vacbs[v].offset > offset {
          forall w ensures !Covers(s, w, f, offset) {
            if w in s.vacbs && s.vacbs[w].file == f { BehindNothing(s, f, offset, i, w); }
          }
          return None;
        }
        i := i + 1;
      }
      forall w ensures !Covers(s, w, f, offset) {
        if w in s.vacbs && s.vacbs[w].file == f { ScannedAll(s, f, offset, w); }
      }
      r := None;
    }

    /** The list part of CcRosCreateVacb: the covering view if one turned up meanwhile, and
        otherwise the new view `id`, linked in order even for an unaligned offset. */
    method CreateVacb(f: nat, offset: nat, id: nat) returns (v: nat)
      requires Inv(State()) && f in views && id !in vacbs
      modifies this
      ensures Inv(State()) && (old(Covered(State())) ==> Covered(State()))
      ensures Got(old(State()), State(), v, f, offset)
      ensures v != id ==> Covers(old(State()), v, f, offset)
      ensures v == id <==> forall w :: !Covers(old(State()), w, f, offset)
      ensures lru == if v == id then old(lru) + [id] else old(lru)
    {
      hide Linked, Totalled, Referenced, Viewed, Covered, Got;
      ghost var s := State();
      var i, previous := 0, 0;
      while i < |views[f]|
        invariant State() == s && f in views && 0 <= i <= |views[f]| && previous == i
        invariant forall j :: 0 <= j < i ==>
                  views[f][j] in vacbs && vacbs[views[f][j]].offset < offset && !InView(vacbs[views[f][j]], offset)
      {
        ListEntry(s, f, i);
        v := views[f][i];
        if InView(vacbs[v], offset) {
          HoldKeeps(s, v);
          HoldGot(s, v, f, offset);
          assert Covers(s, v, f, offset);
          vacbs := vacbs[v := vacbs[v].(refs := vacbs[v].refs + 1)];
          holders := holders[v := holders[v] + 1];
          return;
        }
        if vacbs[v].offset < offset { previous := i + 1; }
        if vacbs[v].offset > offset {
          forall w ensures !Covers(s, w, f, offset) {
            if w in s.vacbs && s.vacbs[w].file == f { BehindNothing(s, f, offset, i, w); }
          }
          break;
        }
        i := i + 1;
      }
      forall w ensures !Covers(s, w, f, offset) {
        if i == |views[f]| && w in s.vacbs && s.vacbs[w].file == f { ScannedAll(s, f, offset, w); }
      }
      GapFound(s, f, offset, i);
      LinkVacb(f, offset, id, previous);
      v := id;
    }

    /** The end of CcRosCreateVacb: the new view behind `previous` others of its file. */
    method LinkVacb(f: nat, offset: nat, id: nat, previous: nat)
      requires Inv(State()) && f in views && id !in vacbs && Gap(State(), views[f], RoundDown(offset), previous)
      modifies this
      ensures Inv(State()) && (old(Covered(State())) ==> Covered(State())) && Got(old(State()), State(), id, f, offset)
      ensures lru == old(lru) + [id]
    {
      hide Inv, Covered, Got, Gap;
      ghost var s := State();
      GapBound(s, views[f], RoundDown(offset), previous);
      InsertKeeps(s, id, f, RoundDown(offset), previous);
      InsertGot(s, id, f, offset, previous);
      vacbs := vacbs[id := Vacb(f, RoundDown(offset), 2, false, 0)];
      holders := holders[id := 1];
      views := views[f := views[f][..previous] + [id] + views[f][previous..]];
      lru := lru + [id];
    }

    /** CcRosGetVacb: the covering view, looked up or created, held and most recently used. */
    method GetVacb(f: nat, offset: nat, id: nat) returns (v: nat)
      requires Inv(State()) && f in views && id !in vacbs
      modifies this
      ensures Inv(State()) && (old(Covered(State())) ==> Covered(State()))
      ensures Got(old(State()), State(), v, f, offset)
      ensures v == id || Covers(old(State()), v, f, offset)
      ensures Recent(old(lru), lru, v)
    {
      hide Linked, Totalled, Referenced, Viewed, Covered, Got, Recent;
      ghost var s := State();
      var r := LookupVacb(f, offset);
      if r.None? {
        v := CreateVacb(f, offset, id);
      } else {
        v := r.value;
        HoldGot(s, v, f, offset);
      }
      ghost var t := State();
      assert v in t.vacbs by { GotFacts(s, t, v, f, offset); }
      TouchKeeps(t, v);
      TouchRecent(s, t, v, id);
      lru := Without(lru, v) + [v];
      assert State() == Touch(t, v);
      TouchGot(s, t, v, f, offset);
    }

    /** CcRosMarkDirtyVacb. */
    method MarkDirtyVacb(v: nat)
      requires Inv(State()) && v in vacbs && !vacbs[v].dirty
      modifies this
      ensures vacbs.Keys == old(vacbs).Keys && old(vacbs)[v].file in old(dirtyPages) && State() == Mark(old(State()), v)
      ensures Inv(State()) && (old(Covered(State())) ==> Covered(State()))
      ensures Recent(old(lru), lru, v) && dirtyList == old(dirtyList) + [v]
    {
      hide Linked, Totalled, Referenced, Viewed, Covered, Without, Recent;
      MarkKeeps(State(), v);
      MarkRecent(State(), v);
      var b := vacbs[v];
      dirtyList := dirtyList + [v];
      totalDirty := totalDirty + PAGES;
      dirtyPages := dirtyPages[b.file := dirtyPages[b.file] + PAGES];
      lru := Without(lru, v) + [v];
      vacbs := vacbs[v := b.(dirty := true, refs := b.refs + 1)];
    }

    /** CcRosFlushVacb; `ok` is whether the file could be locked and written. */
    method FlushVacb(v: nat, ok: bool)
      requires Inv(State()) && v in vacbs && vacbs[v].dirty
      modifies this
      ensures FlushReady(old(State()), v) && State() == FlushView(old(State()), v, ok)
      ensures Inv(State()) && (old(Covered(State())) ==> Covered(State()))
    {
      hide Linked, Totalled, Referenced, Viewed, Covered, Without, Inv;
      ghost var s := State();
      FlushViewKeeps(s, v, ok);
      UnmarkKeeps(s, v);
      var b := vacbs[v];
      vacbs := vacbs[v := b.(dirty := false, refs := b.refs - 1)];
      dirtyList := Without(dirtyList, v);
      totalDirty := totalDirty - PAGES;
      dirtyPages := dirtyPages[b.file := dirtyPages[b.file] - PAGES];
      assert State() == Unmark(s, v);
      if ok {
        disk := disk[b.file := Spliced(disk[b.file], section[b.file], b.offset, b.offset + GRANULARITY)];
      } else {
        MarkDirtyVacb(v);
      }
    }

    /** CcRosReleaseVacb. */
    method ReleaseVacb(v: nat, dirty: bool, mapped: bool)
      requires Inv(State()) && v in vacbs && v in holders && holders[v] >= 1
      modifies this
      ensures Inv(State()) && (old(Covered(State())) ==> Covered(State()))
      ensures Gave(old(State()), State(), v, dirty, mapped)
    {
      hide Inv, Covered, Mark, Mapped, Unhold, Gave, Marked;
      ghost var s := State();
      if dirty && !vacbs[v].dirty { MarkDirtyVacb(v); }
      ghost var t := State();
      MarkedParts(s, t, v, dirty);
      MarkedHeld(s, t, v, dirty);
      if mapped { AddMapping(v); }
      ghost var u := State();
      MappedHeld(t, u, v, mapped);
      Unreference(v);
      GaveBack(s, t, u, v, dirty, mapped);
    }

    /** The first mapping of a view takes a reference of its own. */
    method AddMapping(v: nat)
      requires Inv(State()) && v in vacbs
      modifies this
      ensures v in old(vacbs) && State() == Mapped(old(State()), v)
      ensures Inv(State()) && (old(Covered(State())) ==> Covered(State()))
    {
      hide Inv, Covered;
      MappedKeeps(State(), v);
      vacbs := vacbs[v := vacbs[v].(mapped := vacbs[v].mapped + 1, refs := vacbs[v].refs + One(vacbs[v].mapped == 0))];
    }

    /** CcRosVacbDecRefCount by a holder: never the last reference. */
    method Unreference(v: nat)
      requires Inv(State()) && v in vacbs && v in holders && holders[v] >= 1
      modifies this
      ensures old(vacbs)[v].refs >= 2 && State() == Unhold(old(State()), v)
      ensures Inv(State()) && (old(Covered(State())) ==> Covered(State()))
    {
      hide Inv, Covered;
      UnholdKeeps(State(), v);
      vacbs := vacbs[v := vacbs[v].(refs := vacbs[v].refs - 1)];
      holders := holders[v := holders[v] - 1];
    }

    /** CcRosFreeOneUnusedVacb: evicts the least recently used view without users, if any. */
    method FreeOneUnusedVacb() returns (freed: bool)
      requires Inv(State())
      modifies this
      ensures Inv(State()) && (old(Covered(State())) ==> Covered(State()))
      ensures !freed ==> State() == old(State()) && forall v :: v in vacbs ==> vacbs[v].refs >= 2
      ensures freed ==> exists k ::
                0 <= k < |old(lru)| && FirstUnused(old(State()), k) && State() == Evict(old(State()), old(lru)[k])
    {
      hide Totalled, Referenced, Viewed, Covered, Without;
      ghost var s := State();
      var i := 0;
      while i < |lru|
        invariant 0 <= i <= |lru| && State() == s
        invariant forall j :: 0 <= j < i ==> lru[j] in vacbs && vacbs[lru[j]].refs >= 2
      {
        var v := lru[i];
        assert v in s.lru;
        if vacbs[v].refs < 2 {
          EvictKeeps(s, v);
          assert !vacbs[v].dirty && vacbs[v].mapped == 0 && vacbs[v].refs == 1;
          var f := vacbs[v].file;
          views := views[f := Without(views[f], v)];
          lru := Without(lru, v);
          vacbs := vacbs - {v};
          holders := holders - {v};
          assert FirstUnused(s, i) && State() == Evict(s, s.lru[i]);
          return true;
        }
        i := i + 1;
      }
      forall v | v in vacbs ensures vacbs[v].refs >= 2 { assert v in s.lru; }
      freed := false;
    }
  }

  /** The facts that make flushing view v well defined. */
  ghost predicate FlushReady(s: Cache, v: nat) {
    && v in s.vacbs && s.vacbs[v].file in s.dirtyPages && s.vacbs[v].refs >= 1
    && s.totalDirty >= PAGES && s.dirtyPages[s.vacbs[v].file] >= PAGES
    && s.vacbs[v].file in s.section && s.vacbs[v].file in s.disk
       && |s.section[s.vacbs[v].file]| == |s.disk[s.vacbs[v].file]|
  }

  /** t is s after the caller gave its hold on v back, marking the view dirty or mapped as told. */
  ghost predicate Gave(s: Cache, t: Cache, v: nat, dirty: bool, mapped: bool) {
    && v in s.vacbs && v in s.holders && v in t.vacbs && s.holders[v] >= 1
    && t.vacbs.Keys == s.vacbs.Keys && t.holders == s.holders[v := s.holders[v] - 1]
    && (forall w :: w in s.vacbs && w != v ==> t.vacbs[w] == s.vacbs[w])
    && t.vacbs[v].dirty == (s.vacbs[v].dirty || dirty) && t.vacbs[v].refs >= 1
    && t.vacbs[v].file == s.vacbs[v].file && t.vacbs[v].offset == s.vacbs[v].offset
    && t.vacbs[v].mapped == s.vacbs[v].mapped + One(mapped)
    && t.views == s.views && t.section == s.section && t.disk == s.disk
    && t.dirtyList == if dirty && !s.vacbs[v].dirty then s.dirtyList + [v] else s.dirtyList
  }

  /** t is s with view v marked dirty if need be. */
  ghost predicate Marked(s: Cache, t: Cache, v: nat, dirty: bool) {
    && v in s.vacbs && t.holders == s.holders && t.views == s.views && t.section == s.section && t.disk == s.disk
    && t.vacbs.Keys == s.vacbs.Keys && (forall w :: w in s.vacbs && w != v ==> t.vacbs[w] == s.vacbs[w])
    && t.vacbs[v] == s.vacbs[v].(dirty := s.vacbs[v].dirty || dirty, refs := t.vacbs[v].refs)
    && t.dirtyList == if dirty && !s.vacbs[v].dirty then s.dirtyList + [v] else s.dirtyList
  }

  lemma MarkedParts(s: Cache, t: Cache, v: nat, dirty: bool)
    requires v in s.vacbs && (dirty && !s.vacbs[v].dirty ==> s.vacbs[v].file in s.dirtyPages && t == Mark(s, v))
    requires !(dirty && !s.vacbs[v].dirty) ==> t == s
    ensures Marked(s, t, v, dirty)
  {
    hide Without;
  }

  lemma MarkedHeld(s: Cache, t: Cache, v: nat, dirty: bool)
    requires Marked(s, t, v, dirty)
    ensures t.holders == s.holders && v in t.vacbs
  {
  }

  lemma MappedHeld(t: Cache, u: Cache, v: nat, mapped: bool)
    requires v in t.vacbs && u == if mapped then Mapped(t, v) else t
    ensures u.holders == t.holders && v in u.vacbs
  {
  }

  lemma GaveBack(s: Cache, t: Cache, u: Cache, v: nat, dirty: bool, mapped: bool)
    requires Marked(s, t, v, dirty) && v in s.holders && s.holders[v] >= 1 && u == if mapped then Mapped(t, v) else t
    requires u.vacbs[v].refs >= 2
    ensures Gave(s, Unhold(u, v), v, dirty, mapped)
  {
  }

  lemma TouchRecent(s: Cache, t: Cache, v: nat, id: nat)
    requires Linked(s) && id !in s.vacbs && t.lru == if v == id then s.lru + [id] else s.lru
    ensures Recent(s.lru, Without(t.lru, v) + [v], v)
  {
    hide Recent, Without;
    if v == id { AppendRecent(s.lru, v); } else { WithoutRecent(s.lru, v); }
  }

  lemma MarkRecent(s: Cache, v: nat)
    requires Linked(s)
    ensures Recent(s.lru, Without(s.lru, v) + [v], v)
  {
    hide Recent, Without;
    WithoutRecent(s.lru, v);
  }

  /** A view whose write fails is behind all others of the dirty list and of the LRU list. */
  lemma FailedFlushLast(s: Cache, v: nat)
    requires Inv(s) && v in s.vacbs && s.vacbs[v].dirty
    ensures FlushReady(s, v)
    ensures Recent(s.dirtyList, FlushView(s, v, false).dirtyList, v) && Recent(s.lru, FlushView(s, v, false).lru, v)
    ensures FlushView(s, v, true).lru == s.lru
  {
    hide Viewed, Totalled, Referenced, Recent, Without;
    FlushViewKeeps(s, v, false);
    WithoutRecent(s.dirtyList, v);
    WithoutRecent(s.lru, v);
  }

  lemma ReferencedHere(s: Cache, v: nat)
    requires Inv(s) && v in s.vacbs
    ensures v in s.holders && s.vacbs[v].refs == 1 + One(s.vacbs[v].dirty) + One(s.vacbs[v].mapped > 0) + s.holders[v]
    ensures s.vacbs[v].file in s.views && s.vacbs[v].file in s.section && s.vacbs[v].file in s.disk
  {
    ReferencedAt(s, v);
    FileKnown(s, v);
  }

  /** Position k of the LRU list holds the first view nobody uses. */
  ghost predicate FirstUnused(s: Cache, k: nat) {
    && k < |s.lru| && s.lru[k] in s.vacbs && s.vacbs[s.lru[k]].refs == 1 && s.vacbs[s.lru[k]].file in s.views
    && forall j :: 0 <= j < k ==> s.lru[j] in s.vacbs && s.vacbs[s.lru[j]].refs >= 2
  }

  lemma GotFacts(s: Cache, t: Cache, v: nat, f: nat, offset: nat)
    requires Got(s, t, v, f, offset)
    ensures v in t.vacbs && v in t.holders && t.holders[v] >= 1 && t.section == s.section && t.disk == s.disk
    ensures t.views.Keys == s.views.Keys
    ensures t.vacbs[v].file == f && InView(t.vacbs[v], offset) && t.dirtyList == s.dirtyList
    ensures Unmapped(s) ==> Unmapped(t)
    ensures forall w :: w in s.vacbs ==>
            w in t.vacbs && t.vacbs[w].file == s.vacbs[w].file && t.vacbs[w].offset == s.vacbs[w].offset
  {
  }

  lemma GaveFacts(s: Cache, t: Cache, v: nat, dirty: bool, mapped: bool)
    requires Gave(s, t, v, dirty, mapped)
    ensures t.vacbs.Keys == s.vacbs.Keys && t.views == s.views && t.section == s.section && t.disk == s.disk
    ensures v in s.holders && s.holders[v] >= 1 && t.holders == s.holders[v := s.holders[v] - 1]
    ensures Unmapped(s) && !mapped ==> Unmapped(t)
    ensures forall w :: w in s.vacbs ==> t.vacbs[w].file == s.vacbs[w].file && t.vacbs[w].offset == s.vacbs[w].offset
  {
  }

  lemma TouchGot(s: Cache, t: Cache, v: nat, f: nat, offset: nat)
    requires Got(s, t, v, f, offset)
    ensures Got(s, Touch(t, v), v, f, offset)
  {
    hide Without;
  }
}
