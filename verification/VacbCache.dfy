/**
 The view cache: fixed-size views (VACBs) of cached files, kept in a sorted list per file, a
 global LRU list and a global dirty list, with reference counts and dirty-page totals.
 Every call is atomic. `holders` is history: the references callers hold on a VACB.

 `section` is the data as the cached views show it, `disk` the data on the medium.
 */
module VacbCache {
  import opened Sequences

  const GRANULARITY: nat := 0x40000
  const PAGE_SIZE: nat := 0x1000
  const PAGES: nat := GRANULARITY / PAGE_SIZE
  const MAX_LONGLONG: nat := 0x7FFF_FFFF_FFFF_FFFF

  type byte = x: int | 0 <= x < 256

  datatype Vacb = Vacb(file: nat, offset: nat, refs: nat, dirty: bool, mapped: nat)

  /** `views` holds the view list of every open file, `dirtyPages` its share of the dirty total. */
  datatype Cache = Cache(
    vacbs: map<nat, Vacb>,
    views: map<nat, seq<nat>>,
    lru: seq<nat>,
    dirtyList: seq<nat>,
    totalDirty: nat,
    dirtyPages: map<nat, nat>,
    holders: map<nat, nat>,
    section: map<nat, seq<byte>>,
    disk: map<nat, seq<byte>>)

  /** The pages of n views. */
  function Pages(n: nat): nat { n * PAGES }

  lemma PagesSum(a: nat, b: nat)
    ensures Pages(a + b) == Pages(a) + Pages(b) && Pages(1) == PAGES && Pages(0) == 0
  {
  }

  // ------------------------------------------------------------ the invariant

  /** ReferenceCount is one for the lists, one while dirty, one while mapped, and the holders. */
  ghost predicate Referenced(s: Cache) {
    && s.holders.Keys == s.vacbs.Keys
    && forall v :: v in s.vacbs ==>
         s.vacbs[v].refs == 1 + One(s.vacbs[v].dirty) + One(s.vacbs[v].mapped > 0) + s.holders[v]
  }

  /** The LRU list is exactly the live views, the dirty list exactly the dirty ones. */
  ghost predicate Linked(s: Cache) {
    && NoDup(s.lru) && NoDup(s.dirtyList)
    && (forall v :: v in s.lru <==> v in s.vacbs)
    && (forall v :: v in s.dirtyList <==> v in s.vacbs && s.vacbs[v].dirty)
  }

  /** A view list is strictly ascending in aligned offsets. */
  ghost predicate Ascending(s: Cache, list: seq<nat>) {
    && (forall k :: 0 <= k < |list| ==> list[k] in s.vacbs)
    && forall j, k :: 0 <= j < k < |list| ==> s.vacbs[list[j]].offset < s.vacbs[list[k]].offset
  }

  /** The list of file f holds exactly the views of f. */
  ghost predicate ListOf(s: Cache, list: seq<nat>, f: nat) {
    Ascending(s, list) && forall v :: v in list <==> v in s.vacbs && s.vacbs[v].file == f
  }

  ghost predicate Viewed(s: Cache) {
    && (forall v :: v in s.vacbs ==> s.vacbs[v].offset % GRANULARITY == 0 && s.vacbs[v].file in s.views)
    && (forall f :: f in s.views ==> ListOf(s, s.views[f], f))
  }

  ghost function DirtyOf(s: Cache, f: nat): set<nat> {
    set v | v in s.vacbs && s.vacbs[v].dirty && s.vacbs[v].file == f
  }

  /** The dirty totals count the pages of the dirty views, all together and per file. */
  ghost predicate Totalled(s: Cache) {
    && s.totalDirty == Pages(|s.dirtyList|)
    && s.dirtyPages.Keys == s.views.Keys
    && forall f :: f in s.views ==> s.dirtyPages[f] == Pages(|DirtyOf(s, f)|)
  }

  ghost predicate Inv(s: Cache) {
    Referenced(s) && Linked(s) && Viewed(s) && Totalled(s) && s.section.Keys == s.disk.Keys == s.views.Keys
    && forall f :: f in s.section ==> |s.section[f]| == |s.disk[f]|
  }

  /** Every byte that differs from the disk lies in a view marked dirty. */
  ghost predicate Covered(s: Cache) {
    forall f, i ::
      && f in s.section && f in s.disk && 0 <= i < |s.section[f]| && i < |s.disk[f]|
      && s.section[f][i] != s.disk[f][i]
      ==> InDirtyView(s, f, i)
  }

  ghost predicate InDirtyView(s: Cache, f: nat, i: int) {
    exists v :: v in s.vacbs && s.vacbs[v].dirty && s.vacbs[v].file == f && InView(s.vacbs[v], i)
  }

  /** IsPointInRange, for the range of a view. */
  predicate InView(v: Vacb, i: int) {
    v.offset <= i < v.offset + GRANULARITY
  }

  lemma Aligned(s: Cache, v: nat)
    requires Inv(s) && v in s.vacbs
    ensures s.vacbs[v].offset % GRANULARITY == 0
  {
  }

  /** A range that fits into a view from its place in it ends inside the view. */
  lemma RoundedEnd(base: nat, offset: nat, length: nat)
    requires base % GRANULARITY == 0 && base <= offset < base + GRANULARITY
    requires offset % GRANULARITY + length <= GRANULARITY
    ensures offset + length <= base + GRANULARITY && offset % GRANULARITY == offset - base
  {
  }

  lemma DataKnown(s: Cache, f: nat)
    requires Inv(s) && f in s.views
    ensures f in s.section && f in s.disk && |s.section[f]| == |s.disk[f]| && s.section.Keys == s.disk.Keys
    ensures forall g :: g in s.section ==> |s.section[g]| == |s.disk[g]|
  {
  }

  // -------------------------------------------------------- elementary changes

  /** CcRosVacbIncRefCount for a caller. */
  function Hold(s: Cache, v: nat): Cache
    requires v in s.vacbs && v in s.holders
  {
    s.(vacbs := s.vacbs[v := s.vacbs[v].(refs := s.vacbs[v].refs + 1)], holders := s.holders[v := s.holders[v] + 1])
  }

  /** CcRosVacbDecRefCount by a caller. */
  function Unhold(s: Cache, v: nat): Cache
    requires v in s.vacbs && v in s.holders && s.vacbs[v].refs >= 1 && s.holders[v] >= 1
  {
    s.(vacbs := s.vacbs[v := s.vacbs[v].(refs := s.vacbs[v].refs - 1)], holders := s.holders[v := s.holders[v] - 1])
  }

  /** Move to the tail of the LRU list. */
  function Touch(s: Cache, v: nat): Cache {
    s.(lru := Without(s.lru, v) + [v])
  }

  /** CcRosMarkDirtyVacb. */
  function Mark(s: Cache, v: nat): Cache
    requires v in s.vacbs && s.vacbs[v].file in s.dirtyPages
  {
    var b := s.vacbs[v];
    Touch(s.(vacbs := s.vacbs[v := b.(dirty := true, refs := b.refs + 1)], dirtyList := s.dirtyList + [v],
             totalDirty := s.totalDirty + PAGES, dirtyPages := s.dirtyPages[b.file := s.dirtyPages[b.file] + PAGES]), v)
  }

  /** CcRosUnmarkDirtyVacb. */
  function Unmark(s: Cache, v: nat): Cache
    requires v in s.vacbs && s.vacbs[v].file in s.dirtyPages && s.vacbs[v].refs >= 1
    requires s.totalDirty >= PAGES && s.dirtyPages[s.vacbs[v].file] >= PAGES
  {
    var b := s.vacbs[v];
    s.(vacbs := s.vacbs[v := b.(dirty := false, refs := b.refs - 1)], dirtyList := Without(s.dirtyList, v),
       totalDirty := s.totalDirty - PAGES, dirtyPages := s.dirtyPages[b.file := s.dirtyPages[b.file] - PAGES])
  }

  /** Unlink a view nobody uses and free it. */
  function Evict(s: Cache, v: nat): Cache
    requires v in s.vacbs && s.vacbs[v].file in s.views
  {
    var f := s.vacbs[v].file;
    s.(vacbs := s.vacbs - {v}, holders := s.holders - {v}, lru := Without(s.lru, v),
       views := s.views[f := Without(s.views[f], v)])
  }

  /** A new view of file f, linked at position k of the view list, held by its creator. */
  function Insert(s: Cache, id: nat, f: nat, offset: nat, k: nat): Cache
    requires f in s.views && k <= |s.views[f]|
  {
    s.(vacbs := s.vacbs[id := Vacb(f, offset, 2, false, 0)], holders := s.holders[id := 1],
       lru := s.lru + [id], views := s.views[f := s.views[f][..k] + [id] + s.views[f][k..]])
  }

  /** The first mapping of a view takes a reference. */
  function Mapped(s: Cache, v: nat): Cache
    requires v in s.vacbs
  {
    var b := s.vacbs[v];
    s.(vacbs := s.vacbs[v := b.(mapped := b.mapped + 1, refs := b.refs + One(b.mapped == 0))])
  }

  /** MmFlushSegment: the data of a range goes to the disk. */
  function Flushed(s: Cache, f: nat, lo: nat, hi: nat): Cache
    requires f in s.section && f in s.disk && |s.section[f]| == |s.disk[f]|
  {
    s.(disk := s.disk[f := Spliced(s.disk[f], s.section[f], lo, hi)])
  }

  /** old with the bytes of new in lo..hi. */
  function Spliced(old_: seq<byte>, new_: seq<byte>, lo: nat, hi: nat): (r: seq<byte>)
    requires |old_| == |new_|
    ensures |r| == |old_|
    ensures forall i :: 0 <= i < |r| ==> r[i] == if lo <= i < hi then new_[i] else old_[i]
  {
    seq(|old_|, i requires 0 <= i < |old_| => if lo <= i < hi then new_[i] else old_[i])
  }

  // ------------------------------------------- what the elementary changes keep

  /** Same views in the same places; only the counters and flags of v may differ. */
  ghost predicate SameViews(s: Cache, t: Cache, v: nat) {
    && v in s.vacbs && t.vacbs.Keys == s.vacbs.Keys && t.views == s.views && t.section == s.section && t.disk == s.disk
    && (forall w :: w in s.vacbs && w != v ==> t.vacbs[w] == s.vacbs[w])
    && t.vacbs[v].file == s.vacbs[v].file && t.vacbs[v].offset == s.vacbs[v].offset
  }

  lemma ViewedKept(s: Cache, t: Cache, v: nat)
    requires SameViews(s, t, v) && Viewed(s)
    ensures Viewed(t)
  {
    hide ListOf;
    forall f | f in t.views ensures ListOf(t, t.views[f], f) { ListKept(s, t, v, s.views[f], f); }
  }

  lemma ListKept(s: Cache, t: Cache, v: nat, list: seq<nat>, f: nat)
    requires SameViews(s, t, v) && ListOf(s, list, f)
    ensures ListOf(t, list, f)
  {
  }

  lemma TotalledKept(s: Cache, t: Cache, v: nat)
    requires SameViews(s, t, v) && Totalled(s) && t.vacbs[v].dirty == s.vacbs[v].dirty
    requires |t.dirtyList| == |s.dirtyList| && t.totalDirty == s.totalDirty && t.dirtyPages == s.dirtyPages
    ensures Totalled(t)
  {
    forall f | f in t.views ensures t.dirtyPages[f] == Pages(|DirtyOf(t, f)|) {
      assert DirtyOf(t, f) == DirtyOf(s, f);
    }
  }

  lemma CoveredKept(s: Cache, t: Cache, v: nat)
    requires SameViews(s, t, v) && Covered(s) && (s.vacbs[v].dirty ==> t.vacbs[v].dirty)
    ensures Covered(t)
  {
    forall f, i | f in t.section && f in t.disk && 0 <= i < |t.section[f]| && i < |t.disk[f]|
      && t.section[f][i] != t.disk[f][i]
      ensures InDirtyView(t, f, i)
    {
      assert InDirtyView(s, f, i);
      var w :| w in s.vacbs && s.vacbs[w].dirty && s.vacbs[w].file == f && InView(s.vacbs[w], i);
      assert w in t.vacbs && t.vacbs[w].dirty && InView(t.vacbs[w], i);
    }
  }

  /** A change of counters only. */
  lemma CountKeeps(s: Cache, t: Cache, v: nat)
    requires Inv(s) && SameViews(s, t, v) && t.lru == s.lru && t.dirtyList == s.dirtyList
    requires t.totalDirty == s.totalDirty && t.dirtyPages == s.dirtyPages && t.vacbs[v].dirty == s.vacbs[v].dirty
    requires t.holders.Keys == s.holders.Keys && (forall w :: w in s.holders && w != v ==> t.holders[w] == s.holders[w])
    requires v in t.holders && t.vacbs[v].refs == 1 + One(t.vacbs[v].dirty) + One(t.vacbs[v].mapped > 0) + t.holders[v]
    ensures Inv(t)
    ensures Covered(s) ==> Covered(t)
  {
    hide Viewed, Totalled, Covered, Referenced, Linked;
    CountReferenced(s, t, v);
    CountLinked(s, t, v);
    ViewedKept(s, t, v);
    TotalledKept(s, t, v);
    if Covered(s) { CoveredKept(s, t, v); }
  }

  lemma CountReferenced(s: Cache, t: Cache, v: nat)
    requires Referenced(s) && SameViews(s, t, v) && t.holders.Keys == s.holders.Keys
    requires forall w :: w in s.holders && w != v ==> t.holders[w] == s.holders[w]
    requires v in t.holders && t.vacbs[v].refs == 1 + One(t.vacbs[v].dirty) + One(t.vacbs[v].mapped > 0) + t.holders[v]
    ensures Referenced(t)
  {
  }

  lemma CountLinked(s: Cache, t: Cache, v: nat)
    requires Linked(s) && SameViews(s, t, v) && t.lru == s.lru && t.dirtyList == s.dirtyList
    requires t.vacbs[v].dirty == s.vacbs[v].dirty
    ensures Linked(t)
  {
    hide NoDup;
  }

  lemma ReferencedAt(s: Cache, v: nat)
    requires Referenced(s) && v in s.vacbs
    ensures v in s.holders && s.vacbs[v].refs == 1 + One(s.vacbs[v].dirty) + One(s.vacbs[v].mapped > 0) + s.holders[v]
  {
  }

  lemma HoldKeeps(s: Cache, v: nat)
    requires Inv(s) && v in s.vacbs
    ensures v in s.holders && Inv(Hold(s, v)) && (Covered(s) ==> Covered(Hold(s, v)))
  {
    hide Linked, Viewed, Totalled, Covered;
    CountKeeps(s, Hold(s, v), v);
  }

  lemma UnholdKeeps(s: Cache, v: nat)
    requires Inv(s) && v in s.vacbs && v in s.holders && s.holders[v] >= 1
    ensures s.vacbs[v].refs >= 2 && Inv(Unhold(s, v)) && (Covered(s) ==> Covered(Unhold(s, v)))
  {
    hide Linked, Viewed, Totalled, Covered;
    ReferencedAt(s, v);
    CountKeeps(s, Unhold(s, v), v);
  }

  lemma MappedKeeps(s: Cache, v: nat)
    requires Inv(s) && v in s.vacbs
    ensures Inv(Mapped(s, v)) && (Covered(s) ==> Covered(Mapped(s, v)))
  {
    hide Linked, Viewed, Totalled, Covered;
    ReferencedAt(s, v);
    CountKeeps(s, Mapped(s, v), v);
  }

  lemma TouchLinked(s: Cache, t: Cache, v: nat)
    requires NoDup(s.lru) && v in s.lru && t.lru == Without(s.lru, v) + [v]
    ensures NoDup(t.lru) && forall w :: w in t.lru <==> w in s.lru
  {
    WithoutNoDup(s.lru, v);
    var r := Without(s.lru, v);
    forall w ensures w in t.lru <==> w in s.lru { WithoutMembers(s.lru, v, w); }
    WithoutMembers(s.lru, v, v);
  }

  lemma TouchKeeps(s: Cache, v: nat)
    requires Inv(s) && v in s.vacbs
    ensures Inv(Touch(s, v)) && (Covered(s) ==> Covered(Touch(s, v)))
  {
    hide Viewed, Totalled, Covered, Without;
    var t := Touch(s, v);
    TouchLinked(s, t, v);
    ViewedKept(s, t, v);
    TotalledKept(s, t, v);
    if Covered(s) { CoveredKept(s, t, v); }
  }

  lemma DirtyChange(s: Cache, t: Cache, v: nat, f: nat)
    requires SameViews(s, t, v)
    ensures DirtyOf(t, f) == if t.vacbs[v].dirty && s.vacbs[v].file == f then DirtyOf(s, f) + {v}
            else DirtyOf(s, f) - {v}
    ensures v in DirtyOf(s, f) <==> s.vacbs[v].dirty && s.vacbs[v].file == f
  {
  }

  lemma FileKnown(s: Cache, v: nat)
    requires Viewed(s) && Totalled(s) && v in s.vacbs
    ensures s.vacbs[v].file in s.views && s.vacbs[v].file in s.dirtyPages
  {
  }

  lemma MarkDirtyOf(s: Cache, t: Cache, v: nat, f: nat)
    requires SameViews(s, t, v) && !s.vacbs[v].dirty && t.vacbs[v].dirty
    ensures Pages(|DirtyOf(t, f)|) == Pages(|DirtyOf(s, f)|) + if s.vacbs[v].file == f then PAGES else 0
  {
    hide DirtyOf, Pages;
    DirtyChange(s, t, v, f);
    PagesSum(|DirtyOf(s, f)|, 1);
    if f != s.vacbs[v].file { assert DirtyOf(s, f) - {v} == DirtyOf(s, f); }
  }

  lemma MarkTotalled(s: Cache, v: nat)
    requires Viewed(s) && Totalled(s) && v in s.vacbs && !s.vacbs[v].dirty && s.vacbs[v].file in s.dirtyPages
    ensures Totalled(Mark(s, v))
  {
    hide Without, Viewed, DirtyOf, Pages;
    var t := Mark(s, v);
    PagesSum(|s.dirtyList|, 1);
    forall f | f in t.views ensures t.dirtyPages[f] == Pages(|DirtyOf(t, f)|) { MarkDirtyOf(s, t, v, f); }
  }

  lemma MarkLinked(s: Cache, v: nat)
    requires Linked(s) && v in s.vacbs && !s.vacbs[v].dirty && s.vacbs[v].file in s.dirtyPages
    ensures Linked(Mark(s, v))
  {
    hide Without;
    var t := Mark(s, v);
    TouchLinked(s, t, v);
    assert v !in s.dirtyList;
    assert forall w :: w in t.dirtyList <==> w in s.dirtyList || w == v;
  }

  lemma MarkKeeps(s: Cache, v: nat)
    requires Inv(s) && v in s.vacbs && !s.vacbs[v].dirty
    ensures s.vacbs[v].file in s.dirtyPages && Inv(Mark(s, v)) && (Covered(s) ==> Covered(Mark(s, v)))
  {
    hide Viewed, Totalled, Covered, Linked, Without;
    FileKnown(s, v);
    var t := Mark(s, v);
    MarkTotalled(s, v);
    MarkLinked(s, v);
    ViewedKept(s, t, v);
    ReferencedAt(s, v);
    if Covered(s) { CoveredKept(s, t, v); }
  }

  lemma DirtyFacts(s: Cache, v: nat)
    requires Inv(s) && v in s.vacbs && s.vacbs[v].dirty
    ensures s.vacbs[v].file in s.dirtyPages && s.vacbs[v].file in s.views && v in s.holders
    ensures s.vacbs[v].refs == 2 + One(s.vacbs[v].mapped > 0) + s.holders[v]
    ensures s.totalDirty >= PAGES && s.dirtyPages[s.vacbs[v].file] >= PAGES && v in s.dirtyList
  {
    hide Viewed, Pages;
    FileKnown(s, v);
    ReferencedAt(s, v);
    assert v in s.dirtyList;
    assert v in DirtyOf(s, s.vacbs[v].file);
    PagesSum(|s.dirtyList| - 1, 1);
    PagesSum(|DirtyOf(s, s.vacbs[v].file)| - 1, 1);
  }

  lemma UnmarkTotalled(s: Cache, v: nat)
    requires Inv(s) && v in s.vacbs && s.vacbs[v].dirty
    requires s.vacbs[v].file in s.dirtyPages && s.vacbs[v].refs >= 1 && s.totalDirty >= PAGES
    requires s.dirtyPages[s.vacbs[v].file] >= PAGES && v in s.dirtyList
    ensures Totalled(Unmark(s, v))
  {
    hide Without, Viewed, DirtyOf, Referenced, Linked, Pages;
    var t := Unmark(s, v);
    PagesSum(|t.dirtyList|, 1);
    forall f | f in t.views ensures t.dirtyPages[f] == Pages(|DirtyOf(t, f)|) { MarkDirtyOf(t, s, v, f); }
  }

  lemma UnmarkLinked(s: Cache, v: nat)
    requires Linked(s) && v in s.vacbs && s.vacbs[v].dirty
    requires s.vacbs[v].file in s.dirtyPages && s.vacbs[v].refs >= 1 && s.totalDirty >= PAGES
    requires s.dirtyPages[s.vacbs[v].file] >= PAGES
    ensures Linked(Unmark(s, v))
  {
    hide Without;
    var t := Unmark(s, v);
    WithoutNoDup(s.dirtyList, v);
    forall w ensures w in t.dirtyList <==> w in s.dirtyList && w != v { WithoutMembers(s.dirtyList, v, w); }
  }

  lemma UnmarkKeeps(s: Cache, v: nat)
    requires Inv(s) && v in s.vacbs && s.vacbs[v].dirty
    requires s.vacbs[v].file in s.dirtyPages && s.vacbs[v].refs >= 1 && s.totalDirty >= PAGES
    requires s.dirtyPages[s.vacbs[v].file] >= PAGES
    ensures Inv(Unmark(s, v))
  {
    hide Viewed, Totalled, Linked, Without;
    DirtyFacts(s, v);
    UnmarkTotalled(s, v);
    UnmarkLinked(s, v);
    ViewedKept(s, Unmark(s, v), v);
  }

  // Views come and go.

  lemma {:induction false} WithoutAscending(s: Cache, list: seq<nat>, v: nat)
    requires Ascending(s, list)
    ensures Ascending(s, Without(list, v))
    ensures forall w :: w in Without(list, v) ==> w in list
  {
    if list != [] && list[0] != v {
      WithoutAscending(s, list[1..], v);
      var r := Without(list[1..], v);
      forall k | 0 <= k < |r| ensures s.vacbs[list[0]].offset < s.vacbs[r[k]].offset {
        assert r[k] in list[1..];
        var j :| 0 <= j < |list[1..]| && list[1..][j] == r[k];
      }
    }
  }

  lemma AscendingNoDup(s: Cache, list: seq<nat>)
    requires Ascending(s, list)
    ensures NoDup(list)
  {
  }

  lemma EvictViewed(s: Cache, v: nat)
    requires Viewed(s) && v in s.vacbs && s.vacbs[v].file in s.views
    ensures Viewed(Evict(s, v))
  {
    hide Without;
    var t, g := Evict(s, v), s.vacbs[v].file;
    AscendingNoDup(s, s.views[g]);
    WithoutAscending(s, s.views[g], v);
    forall w ensures w in t.views[g] <==> w in s.views[g] && w != v { WithoutMembers(s.views[g], v, w); }
    forall f | f in t.views ensures Ascending(t, t.views[f]) {
      assert Ascending(s, s.views[f]);
      forall k | 0 <= k < |t.views[f]| ensures t.views[f][k] in t.vacbs { assert t.views[f][k] in t.views[f]; }
    }
  }

  lemma EvictTotalled(s: Cache, v: nat)
    requires Totalled(s) && v in s.vacbs && s.vacbs[v].file in s.views && !s.vacbs[v].dirty
    ensures Totalled(Evict(s, v))
  {
    hide Without;
    var t := Evict(s, v);
    forall f | f in t.views ensures t.dirtyPages[f] == Pages(|DirtyOf(t, f)|) {
      assert DirtyOf(t, f) == DirtyOf(s, f);
    }
  }

  lemma EvictLinked(s: Cache, v: nat)
    requires Linked(s) && v in s.vacbs && s.vacbs[v].file in s.views && !s.vacbs[v].dirty
    ensures Linked(Evict(s, v))
  {
    hide Without;
    var t := Evict(s, v);
    WithoutNoDup(s.lru, v);
    forall w ensures w in t.lru <==> w in s.lru && w != v { WithoutMembers(s.lru, v, w); }
  }

  lemma EvictCovered(s: Cache, v: nat)
    requires Covered(s) && v in s.vacbs && s.vacbs[v].file in s.views && !s.vacbs[v].dirty
    ensures Covered(Evict(s, v))
  {
    hide Without;
    var t := Evict(s, v);
    forall f, i | f in t.section && f in t.disk && 0 <= i < |t.section[f]| && i < |t.disk[f]|
      && t.section[f][i] != t.disk[f][i]
      ensures InDirtyView(t, f, i)
    {
      assert InDirtyView(s, f, i);
      var w :| w in s.vacbs && s.vacbs[w].dirty && s.vacbs[w].file == f && InView(s.vacbs[w], i);
      assert w in t.vacbs && t.vacbs[w] == s.vacbs[w];
    }
  }

  /** A view with a single reference is clean, unmapped and held by nobody, so freeing it passes
      every assertion of the free routine and loses no unwritten byte. */
  lemma EvictKeeps(s: Cache, v: nat)
    requires Inv(s) && v in s.vacbs && s.vacbs[v].refs < 2
    ensures s.vacbs[v].refs == 1 && !s.vacbs[v].dirty && s.vacbs[v].mapped == 0 && v in s.holders && s.holders[v] == 0
    ensures s.vacbs[v].file in s.views && Inv(Evict(s, v)) && (Covered(s) ==> Covered(Evict(s, v)))
  {
    hide Viewed, Totalled, Linked, Covered, Without;
    ReferencedAt(s, v);
    FileKnown(s, v);
    EvictViewed(s, v);
    EvictTotalled(s, v);
    EvictLinked(s, v);
    if Covered(s) { EvictCovered(s, v); }
  }

  /** Where a view of offset `offset` belongs in a view list. */
  ghost predicate Gap(s: Cache, list: seq<nat>, offset: nat, k: nat) {
    && k <= |list|
    && (forall j :: 0 <= j < k ==> list[j] in s.vacbs && s.vacbs[list[j]].offset < offset)
    && (forall j :: k <= j < |list| ==> list[j] in s.vacbs && s.vacbs[list[j]].offset > offset)
  }

  lemma InsertMembers(list: seq<nat>, id: nat, k: nat, w: nat)
    requires k <= |list|
    ensures w in list[..k] + [id] + list[k..] <==> w in list || w == id
  {
    assert list == list[..k] + list[k..];
  }

  lemma InsertAscending(s: Cache, t: Cache, list: seq<nat>, id: nat, offset: nat, k: nat)
    requires Ascending(s, list) && Gap(s, list, offset, k) && id !in s.vacbs
    requires id in t.vacbs && t.vacbs[id].offset == offset
    requires forall w :: w in s.vacbs ==> w in t.vacbs && t.vacbs[w] == s.vacbs[w]
    ensures Ascending(t, list[..k] + [id] + list[k..])
  {
    var r := list[..k] + [id] + list[k..];
    assert forall j :: 0 <= j < |r| ==> r[j] == if j < k then list[j] else if j == k then id else list[j - 1];
  }

  lemma InsertViewed(s: Cache, id: nat, f: nat, offset: nat, k: nat)
    requires Viewed(s) && id !in s.vacbs && f in s.views && offset % GRANULARITY == 0 && Gap(s, s.views[f], offset, k)
    ensures Viewed(Insert(s, id, f, offset, k))
  {
    hide Gap, ListOf;
    GapBound(s, s.views[f], offset, k);
    var t := Insert(s, id, f, offset, k);
    InsertList(s, t, s.views[f], f, id, offset, k);
    forall g | g in t.views && g != f ensures ListOf(t, t.views[g], g) { InsertOther(s, t, s.views[g], g, id); }
  }

  lemma InsertList(s: Cache, t: Cache, list: seq<nat>, f: nat, id: nat, offset: nat, k: nat)
    requires ListOf(s, list, f) && Gap(s, list, offset, k) && id !in s.vacbs
    requires t.vacbs == s.vacbs[id := Vacb(f, offset, 2, false, 0)]
    ensures k <= |list| && ListOf(t, list[..k] + [id] + list[k..], f)
  {
    InsertAscending(s, t, list, id, offset, k);
    forall w: nat ensures w in list[..k] + [id] + list[k..] <==> w in list || w == id { InsertMembers(list, id, k, w); }
  }

  lemma InsertOther(s: Cache, t: Cache, list: seq<nat>, g: nat, id: nat)
    requires ListOf(s, list, g) && id !in s.vacbs && id in t.vacbs && t.vacbs == s.vacbs[id := t.vacbs[id]]
    requires t.vacbs[id].file != g
    ensures ListOf(t, list, g)
  {
  }

  lemma GapBound(s: Cache, list: seq<nat>, offset: nat, k: nat)
    requires Gap(s, list, offset, k)
    ensures k <= |list|
  {
  }

  lemma InsertReferenced(s: Cache, id: nat, f: nat, offset: nat, k: nat)
    requires Referenced(s) && id !in s.vacbs && f in s.views && k <= |s.views[f]|
    ensures Referenced(Insert(s, id, f, offset, k))
  {
  }

  lemma InsertLinked(s: Cache, id: nat, f: nat, offset: nat, k: nat)
    requires Linked(s) && id !in s.vacbs && f in s.views && k <= |s.views[f]|
    ensures Linked(Insert(s, id, f, offset, k))
  {
    var t := Insert(s, id, f, offset, k);
    assert id !in s.lru && id !in s.dirtyList;
    assert forall w :: w in t.lru <==> w in s.lru || w == id;
  }

  lemma InsertTotalled(s: Cache, id: nat, f: nat, offset: nat, k: nat)
    requires Totalled(s) && id !in s.vacbs && f in s.views && k <= |s.views[f]|
    ensures Totalled(Insert(s, id, f, offset, k))
  {
    var t := Insert(s, id, f, offset, k);
    forall g | g in t.views ensures t.dirtyPages[g] == Pages(|DirtyOf(t, g)|) {
      assert DirtyOf(t, g) == DirtyOf(s, g);
    }
  }

  lemma InsertCovered(s: Cache, id: nat, f: nat, offset: nat, k: nat)
    requires Covered(s) && id !in s.vacbs && f in s.views && k <= |s.views[f]|
    ensures Covered(Insert(s, id, f, offset, k))
  {
    var t := Insert(s, id, f, offset, k);
    forall g, i | g in t.section && g in t.disk && 0 <= i < |t.section[g]| && i < |t.disk[g]|
      && t.section[g][i] != t.disk[g][i]
      ensures InDirtyView(t, g, i)
    {
      assert InDirtyView(s, g, i);
      var w :| w in s.vacbs && s.vacbs[w].dirty && s.vacbs[w].file == g && InView(s.vacbs[w], i);
      assert w in t.vacbs && t.vacbs[w] == s.vacbs[w];
    }
  }

  lemma InsertKeeps(s: Cache, id: nat, f: nat, offset: nat, k: nat)
    requires Inv(s) && id !in s.vacbs && f in s.views && offset % GRANULARITY == 0 && Gap(s, s.views[f], offset, k)
    ensures Inv(Insert(s, id, f, offset, k)) && (Covered(s) ==> Covered(Insert(s, id, f, offset, k)))
  {
    hide Viewed, Totalled, Covered, Linked, Referenced, Gap;
    GapBound(s, s.views[f], offset, k);
    InsertViewed(s, id, f, offset, k);
    InsertLinked(s, id, f, offset, k);
    InsertReferenced(s, id, f, offset, k);
    InsertTotalled(s, id, f, offset, k);
    if Covered(s) { InsertCovered(s, id, f, offset, k); }
  }

  // ------------------------------------------------------------------ flushing

  /** CcRosFlushVacb; `ok` is whether the file could be locked and written. */
  function FlushView(s: Cache, v: nat, ok: bool): Cache
    requires v in s.vacbs && s.vacbs[v].file in s.dirtyPages && s.vacbs[v].refs >= 1
    requires s.totalDirty >= PAGES && s.dirtyPages[s.vacbs[v].file] >= PAGES
    requires var f := s.vacbs[v].file; f in s.section && f in s.disk && |s.section[f]| == |s.disk[f]|
  {
    var t, b := Unmark(s, v), s.vacbs[v];
    if ok then Flushed(t, b.file, b.offset, b.offset + GRANULARITY) else Mark(t, v)
  }

  lemma FlushedCovered(s: Cache, f: nat, lo: nat, hi: nat)
    requires Covered(s) && f in s.section && f in s.disk && |s.section[f]| == |s.disk[f]|
    ensures Covered(Flushed(s, f, lo, hi))
  {
    var t := Flushed(s, f, lo, hi);
    forall g, i | g in t.section && g in t.disk && 0 <= i < |t.section[g]| && i < |t.disk[g]|
      && t.section[g][i] != t.disk[g][i]
      ensures InDirtyView(t, g, i)
    {
      assert s.section[g][i] != s.disk[g][i];
      assert InDirtyView(s, g, i);
      var w :| w in s.vacbs && s.vacbs[w].dirty && s.vacbs[w].file == g && InView(s.vacbs[w], i);
      assert w in t.vacbs && t.vacbs[w] == s.vacbs[w];
    }
  }

  /** t has the views of s and other data. */
  ghost predicate OtherData(s: Cache, t: Cache) {
    t == s.(section := t.section, disk := t.disk)
  }

  lemma DataViewed(s: Cache, t: Cache)
    requires OtherData(s, t) && Viewed(s)
    ensures Viewed(t)
  {
    forall f | f in t.views ensures ListOf(t, t.views[f], f) { assert ListOf(s, s.views[f], f); }
  }

  lemma DataTotalled(s: Cache, t: Cache)
    requires OtherData(s, t) && Totalled(s)
    ensures Totalled(t)
  {
    forall f | f in t.views ensures t.dirtyPages[f] == Pages(|DirtyOf(t, f)|) { assert DirtyOf(t, f) == DirtyOf(s, f); }
  }

  lemma DataLinked(s: Cache, t: Cache)
    requires OtherData(s, t) && Linked(s) && Referenced(s)
    ensures Linked(t) && Referenced(t)
  {
    hide NoDup;
  }

  lemma DataOnly(s: Cache, t: Cache)
    requires Inv(s) && OtherData(s, t) && t.section.Keys == s.section.Keys && t.disk.Keys == s.disk.Keys
    requires forall f :: f in t.section ==> |t.section[f]| == |t.disk[f]|
    ensures Inv(t)
  {
    hide Viewed, Totalled, Linked, Referenced;
    DataViewed(s, t);
    DataTotalled(s, t);
    DataLinked(s, t);
  }

  /** Writing a range to the disk changes no view and leaves no difference in that range. */
  lemma FlushedKeeps(s: Cache, f: nat, lo: nat, hi: nat)
    requires Inv(s) && f in s.section
    ensures f in s.disk && Inv(Flushed(s, f, lo, hi)) && (Covered(s) ==> Covered(Flushed(s, f, lo, hi)))
    ensures forall i :: lo <= i < hi && i < |s.section[f]| ==> Flushed(s, f, lo, hi).disk[f][i] == s.section[f][i]
  {
    hide Viewed, Totalled, Linked, Referenced, Covered;
    DataOnly(s, Flushed(s, f, lo, hi));
    if Covered(s) { FlushedCovered(s, f, lo, hi); }
  }

  lemma AlignedSame(a: nat, b: nat, i: int)
    requires a % GRANULARITY == 0 && b % GRANULARITY == 0 && a <= i < a + GRANULARITY && b <= i < b + GRANULARITY
    ensures a == b
  {
  }

  lemma SameOffsetSameView(s: Cache, list: seq<nat>, v: nat, w: nat)
    requires Ascending(s, list) && v in list && w in list && s.vacbs[v].offset == s.vacbs[w].offset
    ensures v == w
  {
    var j :| 0 <= j < |list| && list[j] == v;
    var k :| 0 <= k < |list| && list[k] == w;
    assert !(j < k) && !(k < j);
  }

  /** Two views of one file that share a byte are the same view. */
  lemma ViewsDisjoint(s: Cache, v: nat, w: nat, i: int)
    requires Viewed(s) && v in s.vacbs && w in s.vacbs && s.vacbs[v].file == s.vacbs[w].file
    requires InView(s.vacbs[v], i) && InView(s.vacbs[w], i)
    ensures v == w
  {
    hide Ascending;
    AlignedSame(s.vacbs[v].offset, s.vacbs[w].offset, i);
    SameOffsetSameView(s, s.views[s.vacbs[v].file], v, w);
  }

  lemma FlushViewCovered(s: Cache, v: nat)
    requires Inv(s) && Covered(s) && v in s.vacbs && s.vacbs[v].dirty
    requires s.vacbs[v].file in s.dirtyPages && s.vacbs[v].refs >= 1 && s.totalDirty >= PAGES
    requires s.dirtyPages[s.vacbs[v].file] >= PAGES
    ensures s.vacbs[v].file in s.section && Covered(FlushView(s, v, true))
  {
    hide Without, Totalled, Linked, Referenced;
    FileKnown(s, v);
    var t, b := FlushView(s, v, true), s.vacbs[v];
    forall g, i | g in t.section && g in t.disk && 0 <= i < |t.section[g]| && i < |t.disk[g]|
      && t.section[g][i] != t.disk[g][i]
      ensures InDirtyView(t, g, i)
    {
      assert s.section[g][i] != s.disk[g][i];
      assert InDirtyView(s, g, i);
      var w :| w in s.vacbs && s.vacbs[w].dirty && s.vacbs[w].file == g && InView(s.vacbs[w], i);
      assert w != v;
      assert t.vacbs[w] == s.vacbs[w];
    }
  }

  /** Flushing a dirty view keeps every invariant; on success it is clean and on disk, on failure
      it is dirty again as before. */
  lemma FlushViewKeeps(s: Cache, v: nat, ok: bool)
    requires Inv(s) && v in s.vacbs && s.vacbs[v].dirty
    ensures s.vacbs[v].file in s.dirtyPages && s.vacbs[v].refs >= 1 && s.totalDirty >= PAGES
    ensures s.dirtyPages[s.vacbs[v].file] >= PAGES
    ensures var f := s.vacbs[v].file; f in s.section && f in s.disk && |s.section[f]| == |s.disk[f]|
    ensures Inv(FlushView(s, v, ok)) && (Covered(s) ==> Covered(FlushView(s, v, ok)))
    ensures FlushView(s, v, ok).vacbs ==
            s.vacbs[v := if ok then s.vacbs[v].(dirty := false, refs := s.vacbs[v].refs - 1) else s.vacbs[v]]
    ensures FlushView(s, v, ok).holders == s.holders && FlushView(s, v, ok).section == s.section
    ensures FlushView(s, v, ok).views == s.views
  {
    hide Viewed, Totalled, Linked, Referenced, Covered, Without;
    DirtyFacts(s, v);
    UnmarkKeeps(s, v);
    var t := Unmark(s, v);
    if ok {
      FlushedKeeps(t, s.vacbs[v].file, s.vacbs[v].offset, s.vacbs[v].offset + GRANULARITY);
      if Covered(s) { FlushViewCovered(s, v); }
    } else {
      MarkKeeps(t, v);
      if Covered(s) { RemarkCovered(s, v); }
    }
  }

  lemma RemarkCovered(s: Cache, v: nat)
    requires Inv(s) && Covered(s) && v in s.vacbs && s.vacbs[v].dirty
    requires s.vacbs[v].file in s.dirtyPages && s.vacbs[v].refs >= 1 && s.totalDirty >= PAGES
    requires s.dirtyPages[s.vacbs[v].file] >= PAGES
    ensures Covered(Mark(Unmark(s, v), v))
  {
    hide Without, Viewed, Totalled, Linked, Referenced, Covered;
    var t := Mark(Unmark(s, v), v);
    assert t.vacbs == s.vacbs;
    CoveredKept(s, t, v);
  }
}
