/**
 The private page allocators of the registry: pages cut into slots, one free list, and a free
 count per page. A page goes back to the pool when its last slot comes back. The allocators for
 key control blocks and for delay items are this one with different slot sizes.
 `handed` is history: the slots callers have.
 */
module SlotAllocator {
  import opened Sequences

  datatype Slot = Slot(page: nat, index: nat)

  /** The slots of page p. */
  ghost function SlotsOf(p: nat, capacity: nat): set<Slot> {
    set i | 0 <= i < capacity :: Slot(p, i)
  }

  /** The slots of page p that are on the list. */
  ghost function FreeOf(free: seq<Slot>, p: nat): set<Slot> {
    set s | s in free && s.page == p
  }

  lemma {:induction false} PageSize(p: nat, capacity: nat)
    ensures |SlotsOf(p, capacity)| == capacity
  {
    if capacity > 0 {
      PageSize(p, capacity - 1);
      assert SlotsOf(p, capacity) == SlotsOf(p, capacity - 1) + {Slot(p, capacity - 1)};
    } else {
      assert SlotsOf(p, capacity) == {};
    }
  }

  /** A slot is free or handed out, not both, exactly when its page is live. */
  ghost predicate Accounted(pages: map<nat, nat>, free: seq<Slot>, handed: set<Slot>, capacity: nat) {
    && NoDup(free) && (forall s :: s in free ==> s !in handed)
    && (forall s :: (s in free || s in handed) <==> s.page in pages && s.index < capacity)
  }

  /** FreeCount counts the free slots of its page. */
  ghost predicate Counted(pages: map<nat, nat>, free: seq<Slot>) {
    forall p :: p in pages ==> pages[p] == |FreeOf(free, p)|
  }

  /** The count is full exactly when every slot of the page is free. */
  lemma FullPage(pages: map<nat, nat>, free: seq<Slot>, handed: set<Slot>, capacity: nat, p: nat)
    requires Accounted(pages, free, handed, capacity) && Counted(pages, free) && p in pages
    ensures pages[p] <= capacity && (pages[p] == capacity <==> forall s :: s in handed ==> s.page != p)
  {
    var here, all := FreeOf(free, p), SlotsOf(p, capacity);
    PageSize(p, capacity);
    assert here <= all;
    SubsetCardinality(here, all);
    forall s | s in handed && s.page == p ensures |here| < capacity {
      assert s in all && s !in here;
      SubsetCardinality(here, all - {s});
    }
    assert (forall s :: s in handed ==> s.page != p) ==> here == all by {
      forall s | s in all ensures s in here || s in handed { assert s in free || s in handed; }
    }
  }

  lemma FreeOfTail(free: seq<Slot>, p: nat)
    requires NoDup(free) && free != []
    ensures FreeOf(free[1..], p) == FreeOf(free, p) - {free[0]} && (free[0] in FreeOf(free, p) <==> free[0].page == p)
  {
    forall s ensures s in free[1..] <==> s in free && s != free[0] {
      if s in free { var i :| 0 <= i < |free| && free[i] == s; }
    }
  }

  lemma FreeOfMore(free: seq<Slot>, s: Slot, p: nat)
    ensures FreeOf(free + [s], p) == if s.page == p then FreeOf(free, p) + {s} else FreeOf(free, p)
    ensures s !in free ==> s !in FreeOf(free, p)
  {
  }

  /** What CmpAllocateKeyControlBlock hands out: a slot of a page, or a block of the pool. */
  datatype Block = Private(slot: Slot) | Pool

  class Allocator {
    const capacity: nat
    var pages: map<nat, nat>
    var free: seq<Slot>
    ghost var handed: set<Slot>

    /** Between calls no live page is wholly free. */
    ghost predicate Valid()
      reads this
    {
      && capacity > 0 && Accounted(pages, free, handed, capacity) && Counted(pages, free)
      && forall p :: p in pages ==> pages[p] < capacity
    }

    constructor (slotsPerPage: nat)
      requires slotsPerPage > 0
      ensures Valid() && capacity == slotsPerPage && handed == {}
    {
      capacity := slotsPerPage;
      pages, free, handed := map[], [], {};
    }

    /** The loop that cuts a new page and links its slots. */
    method CutPage(page: nat)
      requires Valid() && free == [] && page !in pages
      modifies this
      ensures Accounted(pages, free, handed, capacity) && Counted(pages, free) && handed == old(handed)
      ensures pages == old(pages)[page := capacity] && |free| == capacity
      ensures forall i :: 0 <= i < capacity ==> free[i] == Slot(page, i)
    {
      pages := pages[page := capacity];
      var i := 0;
      while i < capacity
        invariant 0 <= i <= capacity && |free| == i && forall k :: 0 <= k < i ==> free[k] == Slot(page, k)
        invariant pages == old(pages)[page := capacity] && handed == old(handed)
      {
        free := free + [Slot(page, i)];
        i := i + 1;
      }
      CutAccounted(old(pages), handed, capacity, page, pages, free);
    }

    /** CmpAllocateKeyControlBlock with private allocation on, and CmpAllocateDelayItem: a slot
        nobody has, from the head of the list or of a new page. `page` is the page the pool
        yields, if it does. */
    method Allocate(page: Option<nat>) returns (r: Option<Slot>)
      requires Valid() && (page.Some? ==> page.value !in pages)
      modifies this
      ensures Valid()
      ensures r.None? <==> old(free) == [] && page.None?
      ensures r.None? ==> handed == old(handed) && pages == old(pages) && free == old(free)
      ensures r.Some? ==> r.value !in old(handed) && handed == old(handed) + {r.value} && r.value.index < capacity
      ensures r.Some? && old(free) != [] ==>
              r.value == old(free)[0] && free == old(free)[1..] && pages.Keys == old(pages).Keys
      ensures r.Some? && old(free) == [] ==>
              r.value == Slot(page.value, 0) && pages.Keys == old(pages).Keys + {page.value}
    {
      if free == [] {
        if page.None? { return None; }
        CutPage(page.value);
      }
      var s := free[0];
      TakeKeeps(pages, free, handed, capacity);
      free := free[1..];
      pages := pages[s.page := pages[s.page] - 1];
      handed := handed + {s};
      r := Some(s);
    }

    /** CmpAllocateKeyControlBlock: a slot, or a single block of the pool when private allocation is
        not set up yet or no page is to be had. `pool` is whether the pool has a block. */
    method AllocateBlock(inited: bool, page: Option<nat>, pool: bool) returns (r: Option<Block>)
      requires Valid() && (page.Some? ==> page.value !in pages)
      modifies this
      ensures Valid()
      ensures var slot := inited && (old(free) != [] || page.Some?);
              && (r.None? <==> !slot && !pool) && (r == Some(Pool) <==> !slot && pool)
              && (!slot ==> handed == old(handed) && pages == old(pages) && free == old(free))
      ensures r.Some? && r.value.Private? ==> r.value.slot !in old(handed) && handed == old(handed) + {r.value.slot}
    {
      if inited {
        var s := Allocate(page);
        if s.Some? { return Some(Private(s.value)); }
      }
      return if pool then Some(Pool) else None;
    }

    /** CmpFreeKeyControlBlock: a block of the pool goes back there. */
    method FreeBlock(b: Block)
      requires Valid() && (b.Private? ==> b.slot in handed)
      modifies this
      ensures Valid() && handed == if b.Private? then old(handed) - {b.slot} else old(handed)
      ensures b.Pool? ==> pages == old(pages) && free == old(free)
    {
      if b.Pool? { return; }
      Free(b.slot);
    }

    /** CmpFreeKeyControlBlock and CmpFreeDelayItem: the page is released exactly when nobody has
        another slot of it, and then none of its slots is left on the list. */
    method Free(s: Slot)
      requires Valid() && s in handed
      modifies this
      ensures Valid() && handed == old(handed) - {s}
      ensures s.page in old(pages)
      ensures pages.Keys == if s.page in Pages(handed) then old(pages).Keys else old(pages).Keys - {s.page}
      ensures forall x :: x in free <==> (x in old(free) || x == s) && x.page in pages
      ensures s.page in pages ==> free == old(free) + [s]
    {
      GiveKeeps(pages, free, handed, capacity, s);
      free := free + [s];
      handed := handed - {s};
      pages := pages[s.page := pages[s.page] + 1];
      FullPage(pages, free, handed, capacity, s.page);
      ghost var counts, list := pages, free;
      if pages[s.page] == capacity {
        var i := 0;
        while i < capacity
          invariant 0 <= i <= capacity && NoDup(free) && pages == counts && handed == old(handed) - {s}
          invariant forall x :: x in free <==> x in list && !(x.page == s.page && x.index < i)
        {
          assert Slot(s.page, i) in list;
          ghost var was := free;
          forall x ensures x in Without(free, Slot(s.page, i)) <==> x in free && x != Slot(s.page, i) {
            WithoutMembers(free, Slot(s.page, i), x);
          }
          WithoutNoDup(free, Slot(s.page, i));
          free := Without(free, Slot(s.page, i));
          i := i + 1;
        }
        DropKeeps(counts, list, handed, capacity, s.page, free);
        pages := pages - {s.page};
      }
    }
  }

  ghost function Pages(slots: set<Slot>): set<nat> {
    set s | s in slots :: s.page
  }

  lemma CutAccounted(before: map<nat, nat>, handed: set<Slot>, capacity: nat, page: nat, pages: map<nat, nat>,
                     free: seq<Slot>)
    requires Accounted(before, [], handed, capacity) && Counted(before, []) && page !in before
    requires pages == before[page := capacity]
    requires |free| == capacity && forall i :: 0 <= i < capacity ==> free[i] == Slot(page, i)
    ensures Accounted(pages, free, handed, capacity) && Counted(pages, free)
  {
    forall s ensures s in free <==> s.page == page && s.index < capacity {
      if s.page == page && s.index < capacity { assert free[s.index] == s; }
    }
    assert FreeOf(free, page) == SlotsOf(page, capacity);
    PageSize(page, capacity);
    forall p | p in before ensures FreeOf(free, p) == {} == FreeOf([], p) { }
  }

  lemma TakeKeeps(pages: map<nat, nat>, free: seq<Slot>, handed: set<Slot>, capacity: nat)
    requires Accounted(pages, free, handed, capacity) && Counted(pages, free) && free != []
    ensures free[0] !in handed && free[0].page in pages && pages[free[0].page] > 0 && free[0].index < capacity
    ensures Accounted(pages[free[0].page := pages[free[0].page] - 1], free[1..], handed + {free[0]}, capacity)
    ensures Counted(pages[free[0].page := pages[free[0].page] - 1], free[1..])
    ensures forall p :: p in pages ==> pages[p] <= capacity
  {
    hide FreeOf;
    var s := free[0];
    assert s in free;
    forall p | p in pages ensures pages[p] <= capacity { FullPage(pages, free, handed, capacity, p); }
    forall p ensures FreeOf(free[1..], p) == FreeOf(free, p) - {s} && (s in FreeOf(free, p) <==> s.page == p) {
      FreeOfTail(free, p);
    }
    forall x ensures x in free[1..] <==> x in free && x != s {
      if x in free { var i :| 0 <= i < |free| && free[i] == x; }
    }
  }

  lemma GiveKeeps(pages: map<nat, nat>, free: seq<Slot>, handed: set<Slot>, capacity: nat, s: Slot)
    requires Accounted(pages, free, handed, capacity) && Counted(pages, free) && s in handed
    ensures s.page in pages && s !in free
    ensures Accounted(pages[s.page := pages[s.page] + 1], free + [s], handed - {s}, capacity)
    ensures Counted(pages[s.page := pages[s.page] + 1], free + [s])
  {
    hide FreeOf, NoDup;
    GiveAccounted(pages, free, handed, capacity, s);
    forall p | p in pages ensures |FreeOf(free + [s], p)| == |FreeOf(free, p)| + if s.page == p then 1 else 0 {
      FreeOfMore(free, s, p);
    }
  }

  lemma GiveAccounted(pages: map<nat, nat>, free: seq<Slot>, handed: set<Slot>, capacity: nat, s: Slot)
    requires Accounted(pages, free, handed, capacity) && s in handed
    ensures s.page in pages && s !in free
    ensures Accounted(pages[s.page := pages[s.page] + 1], free + [s], handed - {s}, capacity)
  {
  }

  lemma DropKeeps(pages: map<nat, nat>, list: seq<Slot>, handed: set<Slot>, capacity: nat, p: nat, free: seq<Slot>)
    requires Accounted(pages, list, handed, capacity) && Counted(pages, list) && NoDup(free)
    requires forall s :: s in handed ==> s.page != p
    requires forall x :: x in free <==> x in list && !(x.page == p && x.index < capacity)
    ensures Accounted(pages - {p}, free, handed, capacity) && Counted(pages - {p}, free)
  {
    forall q | q in pages && q != p ensures FreeOf(free, q) == FreeOf(list, q) { }
  }
}
