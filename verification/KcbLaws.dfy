/**
 What each call on the key cache does, field by field, and what follows for whole runs: which KCBs a
 last close frees and which it lists, what a creation makes and what it leaves alone, and the order
 of the delayed-close list.
 */
module KcbLaws {
  import opened Sequences
  import opened KcbCache
  import opened ListOrder

  // ---------------------------------------------------------------- opening

  /** One more holder of k, which leaves the delayed-close list if it had no references; nothing else
      changes. */
  ghost predicate Opened(s: Cache, t: Cache, k: nat) {
    && k in s.kcbs && k in s.holders
    && t.kcbs == s.kcbs[k := s.kcbs[k].(refs := s.kcbs[k].refs + 1, inDelayedClose := false)]
    && t.holders == s.holders[k := s.holders[k] + 1]
    && t.closing == (if s.kcbs[k].refs == 0 then Without(s.closing, k) else s.closing)
    && t.table == s.table && t.derefs == s.derefs && t.holdLazyFlush == s.holdLazyFlush
  }

  lemma ReferenceExact(s: Cache, k: nat)
    requires Inv(s) && k in s.kcbs && Reference(s, k).Some?
    ensures Opened(s, Reference(s, k).value, k)
  {
    hide Tree, Counted, Hashed, Unique, Without;
    HoldersLive(s);
  }

  // --------------------------------------------------------------- creation

  /** A KCB as it is made for a request. */
  ghost predicate AsAsked(b: Kcb, n: NewKey) {
    && b.key == Key(n.key.convKey, n.key.cell + One(n.fake), n.key.hive)
    && b.parent == n.parent && b.refs == 1 && !b.inDelayedClose && !b.deleted
    && b.symLink == n.symLink && b.fake == n.fake && b.noDelayClose == (n.frozen && !n.symLink)
  }

  /** What a request does to a KCB a that is there already. */
  ghost predicate AsFound(a: Kcb, b: Kcb, n: NewKey) {
    && b.key == a.key == Key(n.key.convKey, n.key.cell + One(n.fake), n.key.hive) && !a.deleted
    && b == a.(refs := a.refs + 1, inDelayedClose := false, fake := b.fake, noDelayClose := b.noDelayClose)
    && (b.fake <==> a.fake && n.fake)
    && (b.noDelayClose <==> (n.frozen && !a.symLink) || (a.noDelayClose && (!a.fake || n.fake)))
  }

  /** A new KCB id for the key asked for, under the parent asked for; the parent has one child and one
      reference more and its holders are as before; every other KCB, holder and queue is as before. */
  ghost predicate Made(s: Cache, t: Cache, id: nat, n: NewKey) {
    && id !in s.kcbs && t.kcbs.Keys == s.kcbs.Keys + {id}
    && AsAsked(t.kcbs[id], n)
    && (forall j :: j in s.kcbs && n.parent != Some(j) ==> t.kcbs[j] == s.kcbs[j])
    && t.holders == s.holders[id := 1] && t.derefs == s.derefs && t.holdLazyFlush == s.holdLazyFlush
    && match n.parent
       case None => t.kcbs[id].levels == 1 && t.closing == s.closing
       case Some(p) =>
         && p in s.kcbs && t.kcbs[id].levels == s.kcbs[p].levels + 1
         && t.kcbs[p] == s.kcbs[p].(refs := s.kcbs[p].refs + 1, inDelayedClose := false)
         && Children(t, p) == Children(s, p) + {id}
         && t.closing == if s.kcbs[p].refs == 0 then Without(s.closing, p) else s.closing
  }

  /** The KCB f that was there: one more holder, off the delayed-close list, perhaps real now instead
      of fake, and marked in a frozen hive; every other KCB, holder and queue is as before. */
  ghost predicate Reused(s: Cache, t: Cache, f: nat, n: NewKey) {
    && f in s.kcbs && f in s.holders && t.kcbs.Keys == s.kcbs.Keys
    && AsFound(s.kcbs[f], t.kcbs[f], n)
    && (forall j :: j in s.kcbs && j != f ==> t.kcbs[j] == s.kcbs[j])
    && t.holders == s.holders[f := s.holders[f] + 1] && t.derefs == s.derefs && t.table == s.table
    && t.closing == (if s.kcbs[f].refs == 0 then Without(s.closing, f) else s.closing)
    && t.holdLazyFlush == s.holdLazyFlush
  }

  lemma InsertMade(s: Cache, t: Cache, id: nat, n: NewKey, p: nat)
    requires Opened(s, t, p) && n.parent == Some(p) && id !in s.kcbs && p in t.holders && t.holders[p] >= 1
    requires s.holders.Keys == s.kcbs.Keys
    ensures Made(s, Insert(t, id, NewKcb(n, t.kcbs[p].levels + 1)), id, n)
  {
    hide Bucket, Without;
    var u := Insert(t, id, NewKcb(n, t.kcbs[p].levels + 1));
    assert u.kcbs == t.kcbs[id := u.kcbs[id]];
    assert Children(u, p) == Children(s, p) + {id};
    assert u.holders == s.holders[id := 1];
  }

  lemma InsertMadeRoot(s: Cache, id: nat, n: NewKey)
    requires n.parent.None? && id !in s.kcbs
    ensures Made(s, Insert(s, id, NewKcb(n, 1)), id, n)
  {
    hide Bucket, Without;
  }

  lemma RefreshReused(s: Cache, t: Cache, f: nat, n: NewKey)
    requires Opened(s, t, f) && s.kcbs[f].key == Entered(n) && !s.kcbs[f].deleted
    ensures Reused(s, Refresh(t, f, n), f, n)
  {
    hide Without;
  }

  /** Which of the two a creation does, and what it then leaves behind. */
  lemma CreateExact(s: Cache, id: nat, n: NewKey)
    requires Inv(s) && id !in s.kcbs && (n.parent.Some? ==> n.parent.value in s.kcbs)
    ensures var k, t := Create(s, id, n).0, Create(s, id, n).1;
            && (k == Some(id) ==> Made(s, t, id, n) && Lookup(s, Entered(n)).None?)
            && (k.Some? && k != Some(id) ==> Reused(s, t, k.value, n))
            && (k.None? ==> t == s)
  {
    hide Tree, Counted, Closed, Hashed, Unique, Lookup, Reference, Insert, Refresh, Made, Reused;
    HoldersLive(s);
    if Lookup(s, Entered(n)).Some? {
      var f := Lookup(s, Entered(n)).value;
      LookupExact(s, Entered(n), f);
      if Reference(s, f).Some? {
        ReferenceExact(s, f);
        RefreshReused(s, Reference(s, f).value, f, n);
      }
    } else if n.parent.None? {
      InsertMadeRoot(s, id, n);
    } else {
      var p := n.parent.value;
      if s.kcbs[p].levels + 1 < LEVEL_LIMIT && Reference(s, p).Some? {
        ReferenceExact(s, p);
        InsertMade(s, Reference(s, p).value, id, n, p);
      }
    }
  }

  // ----------------------------------------------------------------- closing

  /** The last close of a KCB frees it: it is deleted, or marked, or the flush is held back and it is
      no symbolic link. */
  predicate Goes(s: Cache, b: Kcb) {
    b.deleted || b.noDelayClose || (s.holdLazyFlush && !b.symLink)
  }

  /** One reference of k and its holder are given up, and nothing else. */
  ghost predicate Less(s: Cache, t: Cache, k: nat) {
    && k in s.kcbs && k in s.holders && s.holders[k] >= 1 && s.kcbs[k].refs >= 1
    && t == s.(kcbs := s.kcbs[k := s.kcbs[k].(refs := s.kcbs[k].refs - 1)],
               holders := s.holders[k := s.holders[k] - 1])
  }

  /** k lost its last reference and is now the most recent entry of the delayed-close list. */
  ghost predicate Listed(s: Cache, t: Cache, k: nat) {
    && k in s.kcbs && k in s.holders && s.holders[k] >= 1
    && t == s.(kcbs := s.kcbs[k := s.kcbs[k].(refs := 0, inDelayedClose := true)],
               holders := s.holders[k := s.holders[k] - 1],
               closing := [k] + s.closing, elements := s.elements + 1)
  }

  /** A reference that is not the last is given up at once, the last is queued. */
  lemma DelayDerefExact(s: Cache, k: nat)
    requires Inv(s) && k in s.kcbs && s.holders[k] >= 1
    ensures s.kcbs[k].refs > 1 ==> Less(s, DelayDeref(s, k), k)
    ensures s.kcbs[k].refs == 1 ==>
            DelayDeref(s, k) == s.(derefs := s.derefs + [k], holders := s.holders[k := s.holders[k] - 1])
  {
    hide Tree, Closed, Hashed, Unique, Children, Occurrences;
  }

  lemma DereferenceStays(s: Cache, k: nat, exclusive: bool)
    requires Inv(s) && k in s.kcbs && s.holders[k] >= 1
    ensures s.kcbs[k].refs > 1 ==> Less(s, Dereference(s, k, exclusive), k)
    ensures s.kcbs[k].refs == 1 && !Goes(s, s.kcbs[k]) ==> Listed(s, Dereference(s, k, exclusive), k)
    ensures s.kcbs[k].refs >= 1
  {
    hide Tree, Counted, Closed, Hashed, Unique, CleanUp;
    DropKeeps(s, k);
    HoldersLive(s);
  }

  /** The KCBs that go with k when it is freed under the exclusive registry lock: its parent, if k
      was its last reference and that frees it, and so on up. */
  ghost function Doomed(s: Cache, k: nat): set<nat>
    requires Tree(s) && k in s.kcbs
    decreases s.kcbs[k].levels
  {
    assert Placed(s, k);
    match s.kcbs[k].parent
    case None => {k}
    case Some(p) => if s.kcbs[p].refs == 1 && Goes(s, s.kcbs[p]) then {k} + Doomed(s, p) else {k}
  }

  /** The first KCB up the chain that does not go. */
  ghost function Survivor(s: Cache, k: nat): Option<nat>
    requires Tree(s) && k in s.kcbs
    decreases s.kcbs[k].levels
  {
    assert Placed(s, k);
    match s.kcbs[k].parent
    case None => None
    case Some(p) => if s.kcbs[p].refs == 1 && Goes(s, s.kcbs[p]) then Survivor(s, p) else Some(p)
  }

  /** What is left of KCB q when a child of it goes. */
  function Left(b: Kcb): Kcb {
    if b.refs > 1 then b.(refs := b.refs - 1) else b.(refs := 0, inDelayedClose := true)
  }

  /** k is freed. Under the exclusive lock the doomed go with it, and the survivor loses one reference
      and is listed if that was its last. Otherwise only k goes, and the reference on its parent is
      given up at once or, if it is the last, queued. Nothing else changes but the hash chains. */
  ghost predicate Freed(s: Cache, t: Cache, k: nat, exclusive: bool)
    requires Tree(s) && k in s.kcbs && s.holders.Keys == s.kcbs.Keys
  {
    && t.holdLazyFlush == s.holdLazyFlush
    && if exclusive then
         var q := Survivor(s, k);
         && t.kcbs.Keys == s.kcbs.Keys - Doomed(s, k) && t.holders == s.holders - Doomed(s, k) && t.derefs == s.derefs
         && (forall j :: j in t.kcbs ==> t.kcbs[j] == if q == Some(j) then Left(s.kcbs[j]) else s.kcbs[j])
         && (q.Some? ==> q.value in t.kcbs)
         && t.closing == if q.Some? && s.kcbs[q.value].refs == 1 then [q.value] + s.closing else s.closing
       else
         && t.kcbs.Keys == s.kcbs.Keys - {k} && t.holders == s.holders - {k} && t.closing == s.closing
         && match s.kcbs[k].parent
            case None => t.kcbs == s.kcbs - {k} && t.derefs == s.derefs
            case Some(p) =>
              && p in t.kcbs && (forall j :: j in t.kcbs && j != p ==> t.kcbs[j] == s.kcbs[j])
              && (s.kcbs[p].refs > 1 ==> t.kcbs[p] == Left(s.kcbs[p]) && t.derefs == s.derefs)
              && (s.kcbs[p].refs == 1 ==> t.kcbs[p] == s.kcbs[p] && t.derefs == s.derefs + [p])
  }

  lemma {:induction false} DoomedAbove(s: Cache, k: nat)
    requires Tree(s) && k in s.kcbs
    ensures Doomed(s, k) <= s.kcbs.Keys && k in Doomed(s, k)
    ensures forall j :: j in Doomed(s, k) ==> j == k || s.kcbs[j].levels < s.kcbs[k].levels
    ensures Survivor(s, k).Some? ==>
            Survivor(s, k).value in s.kcbs && s.kcbs[Survivor(s, k).value].levels < s.kcbs[k].levels
    ensures Survivor(s, k).Some? ==>
            !(s.kcbs[Survivor(s, k).value].refs == 1 && Goes(s, s.kcbs[Survivor(s, k).value]))
    decreases s.kcbs[k].levels
  {
    assert Placed(s, k);
    if s.kcbs[k].parent.Some? { DoomedAbove(s, s.kcbs[k].parent.value); }
  }

  /** Only what is above counts. */
  lemma {:induction false} DoomedSame(s: Cache, d: Cache, p: nat)
    requires Tree(s) && Tree(d) && p in s.kcbs && p in d.kcbs && d.holdLazyFlush == s.holdLazyFlush
    requires d.kcbs[p].parent == s.kcbs[p].parent && d.kcbs[p].levels == s.kcbs[p].levels
    requires forall j :: j in s.kcbs && s.kcbs[j].levels < s.kcbs[p].levels ==> j in d.kcbs && d.kcbs[j] == s.kcbs[j]
    ensures Doomed(d, p) == Doomed(s, p) && Survivor(d, p) == Survivor(s, p)
    decreases s.kcbs[p].levels
  {
    assert Placed(s, p) && Placed(d, p);
    if s.kcbs[p].parent.Some? { DoomedSame(s, d, s.kcbs[p].parent.value); }
  }

  lemma DiscardExact(s: Cache, k: nat)
    requires InvBut(s, {k}) && k in s.kcbs && s.kcbs[k].refs == 0
    ensures s.holders.Keys == s.kcbs.Keys
    ensures var t := Discard(s, k);
            && t.kcbs == s.kcbs - {k} && t.closing == s.closing && t.elements == s.elements && t.derefs == s.derefs
            && t.holdLazyFlush == s.holdLazyFlush
            && match s.kcbs[k].parent
               case None => t.holders == s.holders - {k}
               case Some(p) => p in s.holders && p != k && t.holders == s.holders[p := s.holders[p] + 1] - {k}
  {
    hide Counted, Closed, Hashed, Unique, Without;
    HoldersLive(s);
    assert Placed(s, k);
  }

  /** t is s without k, whose reference on the parent p is with a holder. */
  ghost predicate Loose(s: Cache, t: Cache, k: nat, p: nat) {
    && k in s.kcbs && s.kcbs[k].parent == Some(p) && p in s.kcbs && p != k && p in s.holders
    && t.kcbs == s.kcbs - {k} && t.holders == s.holders[p := s.holders[p] + 1] - {k}
    && t.closing == s.closing && t.elements == s.elements && t.derefs == s.derefs
    && t.holdLazyFlush == s.holdLazyFlush
  }

  lemma FreedLater(s: Cache, t: Cache, u: Cache, k: nat, p: nat)
    requires Tree(s) && s.holders.Keys == s.kcbs.Keys && Loose(s, t, k, p) && s.kcbs[p].refs >= 1
    requires t.kcbs[p].refs > 1 ==> Less(t, u, p)
    requires t.kcbs[p].refs == 1 ==> u == t.(derefs := t.derefs + [p], holders := t.holders[p := t.holders[p] - 1])
    ensures Freed(s, u, k, false)
  {
    assert u.holders == s.holders - {k};
  }

  lemma FreedHere(s: Cache, t: Cache, u: Cache, k: nat, p: nat)
    requires Tree(s) && s.holders.Keys == s.kcbs.Keys && Loose(s, t, k, p)
    requires if s.kcbs[p].refs > 1 then Less(t, u, p)
             else Listed(t, u, p) && s.kcbs[p].refs == 1 && !Goes(s, s.kcbs[p])
    ensures Freed(s, u, k, true)
  {
    assert u.holders == s.holders - {k};
  }

  lemma FreedUp(s: Cache, d: Cache, u: Cache, k: nat, p: nat)
    requires Tree(s) && Tree(d) && s.holders.Keys == s.kcbs.Keys && d.holders.Keys == d.kcbs.Keys
    requires k in s.kcbs && s.kcbs[k].parent == Some(p) && p in s.kcbs && p != k && p in d.kcbs
    requires s.kcbs[p].refs == 1 && Goes(s, s.kcbs[p]) && s.kcbs[p].levels < s.kcbs[k].levels
    requires d.kcbs == (s.kcbs - {k})[p := s.kcbs[p].(refs := 0)] && d.holders == s.holders - {k}
    requires d.closing == s.closing && d.derefs == s.derefs && d.holdLazyFlush == s.holdLazyFlush
    requires Freed(d, u, p, true)
    ensures Freed(s, u, k, true)
  {
    DoomedSame(s, d, p);
    DoomedAbove(s, p);
    DoomedAbove(d, p);
    assert u.holders == s.holders - Doomed(s, k);
  }

  /** A clean-up frees exactly what is said above. */
  lemma {:induction false} CleanUpExact(s: Cache, k: nat, exclusive: bool)
    requires InvBut(s, {k}) && k in s.kcbs && s.kcbs[k].refs == 0
    ensures s.holders.Keys == s.kcbs.Keys && Freed(s, CleanUp(s, k, exclusive), k, exclusive)
    decreases s.kcbs[k].levels
  {
    hide Tree, Counted, Closed, Hashed, Unique, Freed, Discard, DelayDeref, Less, Listed, Dereference, CleanUp;
    DiscardExact(s, k);
    DiscardKeeps(s, k);
    CleanUpParts(s, k, exclusive);
    var t := Discard(s, k);
    if s.kcbs[k].parent.None? {
      FreedAlone(s, t, k, exclusive);
    } else {
      var p := s.kcbs[k].parent.value;
      if !exclusive {
        DelayDerefExact(t, p);
        RefsOfHeld(t, p);
        FreedLater(s, t, DelayDeref(t, p), k, p);
      } else {
        DereferenceStays(t, p, true);
        if s.kcbs[p].refs == 1 && Goes(s, s.kcbs[p]) {
          DropKeeps(t, p);
          var d := Drop(t, p);
          DereferenceGoes(t, p);
          CleanUpExact(d, p, true);
          assert d.holders == s.holders - {k} && d.kcbs == (s.kcbs - {k})[p := s.kcbs[p].(refs := 0)];
          FreedUp(s, d, CleanUp(d, p, true), k, p);
        } else {
          FreedHere(s, t, Dereference(t, p, true), k, p);
        }
      }
    }
  }

  lemma CleanUpParts(s: Cache, k: nat, exclusive: bool)
    requires InvBut(s, {k}) && k in s.kcbs && s.kcbs[k].refs == 0 && s.holders.Keys == s.kcbs.Keys
    requires Inv(Discard(s, k))
    requires s.kcbs[k].parent.Some? ==>
               s.kcbs[k].parent.value in Discard(s, k).kcbs && Discard(s, k).holders[s.kcbs[k].parent.value] >= 1
    ensures match s.kcbs[k].parent
            case None => CleanUp(s, k, exclusive) == Discard(s, k)
            case Some(p) =>
              CleanUp(s, k, exclusive) ==
              if exclusive then Dereference(Discard(s, k), p, true) else DelayDeref(Discard(s, k), p)
  {
    hide Tree, Counted, Closed, Hashed, Unique, Discard, DelayDeref, Dereference;
  }

  lemma DereferenceGoes(t: Cache, p: nat)
    requires Inv(t) && p in t.kcbs && t.holders[p] >= 1 && t.kcbs[p].refs == 1 && Goes(t, t.kcbs[p])
    requires InvBut(Drop(t, p), {p})
    ensures Dereference(t, p, true) == CleanUp(Drop(t, p), p, true)
  {
    hide Tree, Counted, Closed, Hashed, Unique, CleanUp;
  }

  lemma RefsOfHeld(t: Cache, p: nat)
    requires Counted(t) && p in t.kcbs && t.holders[p] >= 1
    ensures t.kcbs[p].refs >= 1
  {
  }

  lemma FreedAlone(s: Cache, t: Cache, k: nat, exclusive: bool)
    requires Tree(s) && k in s.kcbs && s.kcbs[k].parent.None? && s.holders.Keys == s.kcbs.Keys
    requires t.kcbs == s.kcbs - {k} && t.holders == s.holders - {k} && t.closing == s.closing && t.derefs == s.derefs
    requires t.holdLazyFlush == s.holdLazyFlush
    ensures Freed(s, t, k, exclusive)
  {
  }

  lemma FreedFromDrop(s: Cache, d: Cache, t: Cache, k: nat, exclusive: bool)
    requires Tree(s) && Tree(d) && s.holders.Keys == s.kcbs.Keys && Less(s, d, k) && s.kcbs[k].refs == 1
    requires d.holders.Keys == d.kcbs.Keys && Freed(d, t, k, exclusive)
    ensures Freed(s, t, k, exclusive) && k !in t.kcbs
  {
    if exclusive { FreedAllFromDrop(s, d, t, k); } else { FreedOneFromDrop(s, d, t, k); }
  }

  lemma FreedAllFromDrop(s: Cache, d: Cache, t: Cache, k: nat)
    requires Tree(s) && Tree(d) && s.holders.Keys == s.kcbs.Keys && Less(s, d, k) && s.kcbs[k].refs == 1
    requires d.holders.Keys == d.kcbs.Keys && Freed(d, t, k, true)
    ensures Freed(s, t, k, true) && k !in t.kcbs
  {
    DoomedSame(s, d, k);
    DoomedAbove(s, k);
    hide Tree, Doomed, Survivor, Goes;
    assert t.holders == s.holders - Doomed(s, k);
  }

  lemma FreedOneFromDrop(s: Cache, d: Cache, t: Cache, k: nat)
    requires Tree(s) && Tree(d) && s.holders.Keys == s.kcbs.Keys && Less(s, d, k) && s.kcbs[k].refs == 1
    requires d.holders.Keys == d.kcbs.Keys && Freed(d, t, k, false)
    ensures Freed(s, t, k, false) && k !in t.kcbs
  {
    assert Placed(s, k);
    hide Tree;
    assert t.holders == s.holders - {k};
    if s.kcbs[k].parent.None? { assert t.kcbs == s.kcbs - {k}; }
  }

  lemma DropIsLess(s: Cache, k: nat)
    requires Counted(s) && k in s.kcbs && s.holders[k] >= 1
    ensures Less(s, Drop(s, k), k)
  {
    hide Children, Occurrences;
  }

  /** What a close does: one reference less; or the KCB is freed, if it is deleted, or marked, or the
      flush is held back and it is no symbolic link; or it is listed at the front of the
      delayed-close list. */
  lemma DereferenceExact(s: Cache, k: nat, exclusive: bool)
    requires Inv(s) && k in s.kcbs && s.holders[k] >= 1
    ensures s.holders.Keys == s.kcbs.Keys && s.kcbs[k].refs >= 1
    ensures var t, b := Dereference(s, k, exclusive), s.kcbs[k];
            && (b.refs > 1 ==> Less(s, t, k))
            && (b.refs == 1 ==>
                  && (k !in t.kcbs <==> b.deleted || b.noDelayClose || (s.holdLazyFlush && !b.symLink))
                  && if k in t.kcbs then Listed(s, t, k) else Freed(s, t, k, exclusive))
  {
    hide Tree, Counted, Closed, Hashed, Unique, CleanUp, Freed;
    HoldersLive(s);
    DereferenceStays(s, k, exclusive);
    if s.kcbs[k].refs == 1 && Goes(s, s.kcbs[k]) {
      DropKeeps(s, k);
      DropIsLess(s, k);
      CleanUpExact(Drop(s, k), k, exclusive);
      FreedFromDrop(s, Drop(s, k), Dereference(s, k, exclusive), k, exclusive);
    }
  }

  /** A deleted key is found no more. */
  lemma DeletedUnfound(s: Cache, k: nat)
    requires Inv(s) && k in s.kcbs && !s.kcbs[k].deleted && s.kcbs[k].refs > 0
    ensures Inv(MarkDeleted(s, k)) && Lookup(MarkDeleted(s, k), s.kcbs[k].key).None?
    ensures MarkDeleted(s, k).(table := s.table) == s.(kcbs := s.kcbs[k := s.kcbs[k].(deleted := true)])
  {
    hide Tree, Counted, Closed, Hashed, Bucket, Without, Lookup;
    MarkDeletedKeeps(s, k);
    var t, key := MarkDeleted(s, k), s.kcbs[k].key;
    if Lookup(t, key).Some? { LookupExact(t, key, Lookup(t, key).value); }
  }

  // ------------------------------------------------------------ laws of every run

  /** KCBs on the delayed-close list are neither deleted nor marked against it. */
  ghost predicate Orderly(s: Cache) {
    forall k :: k in s.closing ==> k in s.kcbs && !s.kcbs[k].deleted && !s.kcbs[k].noDelayClose
  }

  /** A KCB keeps its key, its parent, its level and what it links to while it lives, and stays deleted. */
  ghost predicate SameKeys(s: Cache, t: Cache) {
    forall j :: j in s.kcbs && j in t.kcbs ==>
      && t.kcbs[j].key == s.kcbs[j].key && t.kcbs[j].parent == s.kcbs[j].parent
      && t.kcbs[j].levels == s.kcbs[j].levels && t.kcbs[j].symLink == s.kcbs[j].symLink
      && (s.kcbs[j].deleted ==> t.kcbs[j].deleted)
  }

  /** One entry may have left the list and one may have come in at its front. */
  ghost predicate Moves(s: Cache, t: Cache, gone: Option<nat>, come: Option<nat>) {
    && t.closing == (if come.Some? then [come.value] else [])
                    + (if gone.Some? then Without(s.closing, gone.value) else s.closing)
    && (come.Some? ==> come.value !in s.closing && come.value in t.kcbs
                       && !t.kcbs[come.value].deleted && !t.kcbs[come.value].noDelayClose)
    && forall j :: j in s.closing && gone != Some(j) ==> j in s.kcbs && j in t.kcbs && t.kcbs[j] == s.kcbs[j]
  }

  ghost predicate Lawful(s: Cache, t: Cache) {
    (Orderly(s) ==> Orderly(t)) && GrowsInFront(s.closing, t.closing) && SameKeys(s, t)
  }

  lemma MovesGrow(a: seq<nat>, b: seq<nat>, gone: Option<nat>, come: Option<nat>)
    requires NoDup(a) && (come.Some? ==> come.value !in a)
    requires b == (if come.Some? then [come.value] else []) + (if gone.Some? then Without(a, gone.value) else a)
    ensures GrowsInFront(a, b)
    ensures forall j :: j in b ==> come == Some(j) || (j in a && gone != Some(j))
  {
    hide GrowsInFront, Without;
    var m := if gone.Some? then Without(a, gone.value) else a;
    assert b == if come.Some? then [come.value] + m else m;
    GrowsSame(a);
    if gone.Some? {
      GrowsWithout(a, gone.value);
      forall j ensures j in m <==> j in a && j != gone.value { WithoutMembers(a, gone.value, j); }
    }
    if come.Some? {
      GrowsPrepend(m, come.value);
      GrowsThrough(a, m, b);
    }
  }

  lemma GrowsThrough(a: seq<nat>, m: seq<nat>, b: seq<nat>)
    requires GrowsInFront(a, m) && GrowsInFront(m, b) && forall x :: x in b && x in a ==> x in m
    requires forall x :: x in m ==> x in a
    ensures GrowsInFront(a, b)
  {
    forall x, y | x in b && y in b && x != y && x in a && (y !in a || Before(a, y, x)) ensures Before(b, y, x) {
      if y in a { assert Before(m, y, x); }
    }
  }

  lemma LawfulIf(s: Cache, t: Cache, gone: Option<nat>, come: Option<nat>)
    requires NoDup(s.closing) && Moves(s, t, gone, come) && SameKeys(s, t)
    ensures Lawful(s, t)
  {
    hide GrowsInFront, SameKeys, Without;
    MovesGrow(s.closing, t.closing, gone, come);
  }

  /** The delayed-close list is exactly the KCBs without references. */
  ghost predicate RightList(s: Cache) {
    && NoDup(s.closing) && (forall k :: k in s.closing ==> k in s.kcbs)
    && forall k :: k in s.kcbs ==> (k in s.closing <==> s.kcbs[k].refs == 0)
  }

  lemma ListIsRight(s: Cache)
    requires Inv(s)
    ensures RightList(s)
  {
    hide Tree, Counted, Hashed, Unique;
  }

  /** A parent has a reference from each child. */
  ghost predicate Borne(s: Cache) {
    forall c :: c in s.kcbs && s.kcbs[c].parent.Some? ==>
      s.kcbs[c].parent.value in s.kcbs && s.kcbs[s.kcbs[c].parent.value].refs >= 1
  }

  lemma ParentsBorne(s: Cache)
    requires Tree(s) && Counted(s)
    ensures Borne(s)
  {
    forall c | c in s.kcbs && s.kcbs[c].parent.Some?
      ensures s.kcbs[c].parent.value in s.kcbs && s.kcbs[s.kcbs[c].parent.value].refs >= 1
    {
      assert Placed(s, c);
      assert c in Children(s, s.kcbs[c].parent.value);
    }
  }

  lemma {:induction false} SurvivorBorne(s: Cache, k: nat)
    requires Tree(s) && k in s.kcbs && Borne(s)
    ensures Survivor(s, k).Some? ==> Survivor(s, k).value in s.kcbs && s.kcbs[Survivor(s, k).value].refs >= 1
    decreases s.kcbs[k].levels
  {
    assert Placed(s, k);
    if s.kcbs[k].parent.Some? { SurvivorBorne(s, s.kcbs[k].parent.value); }
  }

  lemma LawSame(s: Cache, t: Cache)
    requires RightList(s) && t.closing == s.closing && SameKeys(s, t)
    requires forall j :: j in s.closing ==> j in t.kcbs && t.kcbs[j] == s.kcbs[j]
    ensures Lawful(s, t)
  {
    hide Lawful, SameKeys;
    LawfulIf(s, t, None, None);
  }

  lemma LawOpened(s: Cache, t: Cache, k: nat)
    requires RightList(s) && Opened(s, t, k)
    ensures Lawful(s, t)
  {
    hide Lawful, Without;
    LawfulIf(s, t, if s.kcbs[k].refs == 0 then Some(k) else None, None);
  }

  lemma LawMade(s: Cache, t: Cache, id: nat, n: NewKey)
    requires RightList(s) && Made(s, t, id, n)
    ensures Lawful(s, t)
  {
    hide Lawful, Without, Children;
    LawfulIf(s, t, if n.parent.Some? && s.kcbs[n.parent.value].refs == 0 then n.parent else None, None);
  }

  lemma LawReused(s: Cache, t: Cache, f: nat, n: NewKey)
    requires RightList(s) && Reused(s, t, f, n)
    ensures Lawful(s, t)
  {
    hide Lawful, Without;
    LawfulIf(s, t, if s.kcbs[f].refs == 0 then Some(f) else None, None);
  }

  lemma LawListed(s: Cache, t: Cache, k: nat)
    requires RightList(s) && Listed(s, t, k) && s.kcbs[k].refs == 1 && !Goes(s, s.kcbs[k])
    ensures Lawful(s, t)
  {
    hide Lawful, Without;
    LawfulIf(s, t, None, Some(k));
  }

  /** u is s with k perhaps off the list. */
  lemma LawFreed(s: Cache, u: Cache, t: Cache, k: nat, exclusive: bool, gone: Option<nat>)
    requires RightList(s) && Tree(u) && k in s.kcbs && k in u.kcbs && u.holders.Keys == u.kcbs.Keys
    requires gone == (if s.kcbs[k].refs == 0 then Some(k) else None) && (gone.None? ==> k !in s.closing)
    requires u.closing == (if gone.Some? then Without(s.closing, k) else s.closing)
    requires u.kcbs == s.kcbs[k := s.kcbs[k].(inDelayedClose := u.kcbs[k].inDelayedClose)]
    requires Borne(u) && Freed(u, t, k, exclusive)
    ensures Lawful(s, t)
  {
    hide Lawful, Without, Freed, SameKeys, Borne;
    var come := FreedComes(u, t, k, exclusive);
    FreedList(s, u, t, k, exclusive);
    LawfulIf(s, t, gone, come);
  }

  lemma FreedComes(u: Cache, t: Cache, k: nat, exclusive: bool) returns (come: Option<nat>)
    requires Tree(u) && k in u.kcbs && u.holders.Keys == u.kcbs.Keys && Borne(u) && Freed(u, t, k, exclusive)
    ensures t.closing == (if come.Some? then [come.value] else []) + u.closing
    ensures come.Some? ==>
              && come.value in u.kcbs && come.value != k && u.kcbs[come.value].refs == 1 && come.value in t.kcbs
              && !t.kcbs[come.value].deleted && !t.kcbs[come.value].noDelayClose
  {
    DoomedAbove(u, k);
    SurvivorBorne(u, k);
    var q := Survivor(u, k);
    come := if exclusive && q.Some? && u.kcbs[q.value].refs == 1 then q else None;
  }

  /** A KCB without references is nobody's parent, so it is freed only as the one to be freed. */
  lemma FreedList(s: Cache, u: Cache, t: Cache, k: nat, exclusive: bool)
    requires RightList(s) && Tree(u) && k in s.kcbs && k in u.kcbs && u.holders.Keys == u.kcbs.Keys
    requires u.kcbs == s.kcbs[k := s.kcbs[k].(inDelayedClose := u.kcbs[k].inDelayedClose)]
    requires Borne(u) && Freed(u, t, k, exclusive)
    ensures SameKeys(s, t)
    ensures forall j :: j in s.closing && j != k ==> j in s.kcbs && j in t.kcbs && t.kcbs[j] == s.kcbs[j]
  {
    if exclusive { FreedUnlisted(u, t, k); } else { FreedUnlistedLater(u, t, k); }
    hide Freed, Borne, Tree;
  }

  ghost predicate Unlisted(u: Cache, t: Cache, k: nat) {
    && SameKeys(u, t)
    && forall j :: j in u.kcbs && j != k && u.kcbs[j].refs == 0 ==> j in t.kcbs && t.kcbs[j] == u.kcbs[j]
  }

  lemma FreedUnlisted(u: Cache, t: Cache, k: nat)
    requires Tree(u) && k in u.kcbs && u.holders.Keys == u.kcbs.Keys && Borne(u) && Freed(u, t, k, true)
    ensures Unlisted(u, t, k)
  {
    DoomedReferred(u, k);
    SurvivorBorne(u, k);
    hide Tree, Borne, Goes;
  }

  lemma FreedUnlistedLater(u: Cache, t: Cache, k: nat)
    requires Tree(u) && k in u.kcbs && u.holders.Keys == u.kcbs.Keys && Borne(u) && Freed(u, t, k, false)
    ensures Unlisted(u, t, k)
  {
    assert Placed(u, k);
    hide Tree;
  }

  lemma {:induction false} DoomedReferred(s: Cache, k: nat)
    requires Tree(s) && k in s.kcbs
    ensures forall j :: j in Doomed(s, k) && j != k ==> j in s.kcbs && s.kcbs[j].refs == 1
    decreases s.kcbs[k].levels
  {
    assert Placed(s, k);
    if s.kcbs[k].parent.Some? { DoomedReferred(s, s.kcbs[k].parent.value); }
  }

  lemma LawLess(s: Cache, t: Cache, k: nat)
    requires RightList(s) && Less(s, t, k)
    ensures Lawful(s, t)
  {
    hide Lawful;
    LawSame(s, t);
  }

  lemma UnlistedIf(s: Cache, k: nat)
    requires RightList(s) && k in s.kcbs && s.kcbs[k].refs > 0
    ensures k !in s.closing
  {
  }

  lemma LawClosed(s: Cache, k: nat, exclusive: bool)
    requires Inv(s) && k in s.kcbs && s.holders[k] >= 1
    ensures Lawful(s, Dereference(s, k, exclusive))
  {
    hide Counted, Closed, Hashed, Unique, Dereference, Lawful, Tree, Freed, Less, Listed, RightList, Borne;
    DereferenceExact(s, k, exclusive);
    ListIsRight(s);
    ParentsBorne(s);
    var t := Dereference(s, k, exclusive);
    UnlistedIf(s, k);
    if s.kcbs[k].refs > 1 { LawLess(s, t, k); }
    else if k in t.kcbs { LawListed(s, t, k); }
    else { LawFreed(s, s, t, k, exclusive, None); }
  }

  lemma LawCleaned(s: Cache, k: nat, exclusive: bool)
    requires Inv(s) && k in s.closing
    ensures k in s.kcbs && s.elements >= 1 && s.kcbs[k].refs == 0 && InvBut(Delist(s, k), {k})
    ensures Lawful(s, CleanUp(Delist(s, k), k, exclusive))
  {
    hide Counted, Closed, Hashed, Unique, CleanUp, Lawful, Tree, Freed, Without;
    DelistLeaves(s, k);
    var u := Delist(s, k);
    CleanUpExact(u, k, exclusive);
    ListIsRight(s);
    ParentsBorne(u);
    LawFreed(s, u, CleanUp(u, k, exclusive), k, exclusive, Some(k));
  }

  /** Every call: what is listed is neither deleted nor marked, entries come in at the front of the
      delayed-close list only, and live KCBs keep their identity. */
  lemma StepLawful(s: Cache, step: Step)
    requires Inv(s) && Enabled(s, step)
    ensures Lawful(s, Apply(s, step))
  {
    hide Tree, Counted, Closed, Hashed, Unique, Create, Reference, Dereference, CleanUp, MarkDeleted, Without, Lawful;
    hide Opened, Lookup;
    ListIsRight(s);
    match step
    case CreateKey(id, n) => LawCreated(s, id, n);
    case Open(k) =>
      if Reference(s, k).Some? {
        ReferenceExact(s, k);
        LawOpened(s, Reference(s, k).value, k);
      } else {
        LawSame(s, s);
      }
    case Close(k, exclusive) => LawClosed(s, k, exclusive);
    case CloseLater(k) => LawDelayed(s, k);
    case Delete(k) => LawDeleted(s, k);
    case Expunge(k, exclusive) => LawCleaned(s, k, exclusive);
    case DerefWork => LawUnqueued(s);
    case CloseWork => LawCleaned(s, s.closing[|s.closing| - 1], false);
    case SetHold(hold) => LawSame(s, s.(holdLazyFlush := hold));
  }

  lemma LawCreated(s: Cache, id: nat, n: NewKey)
    requires Inv(s) && id !in s.kcbs && (n.parent.Some? ==> n.parent.value in s.kcbs)
    ensures Lawful(s, Create(s, id, n).1)
  {
    hide Tree, Counted, Closed, Hashed, Unique, Create, Lawful, Made, Reused;
    ListIsRight(s);
    CreateExact(s, id, n);
    var k, t := Create(s, id, n).0, Create(s, id, n).1;
    if k == Some(id) { LawMade(s, t, id, n); }
    else if k.Some? { LawReused(s, t, k.value, n); }
    else { LawSame(s, s); }
  }

  lemma LawDelayed(s: Cache, k: nat)
    requires Inv(s) && k in s.kcbs && s.holders[k] >= 1
    ensures Lawful(s, DelayDeref(s, k))
  {
    hide Tree, Counted, Closed, Hashed, Unique, Lawful, DelayDeref;
    ListIsRight(s);
    DropKeeps(s, k);
    DelayDerefExact(s, k);
    if s.kcbs[k].refs > 1 { LawLess(s, DelayDeref(s, k), k); } else { LawSame(s, DelayDeref(s, k)); }
  }

  lemma LawDeleted(s: Cache, k: nat)
    requires Inv(s) && k in s.kcbs && !s.kcbs[k].deleted && s.kcbs[k].refs > 0
    ensures Lawful(s, MarkDeleted(s, k))
  {
    hide Tree, Counted, Closed, Hashed, Unique, Lawful, Lookup, MarkDeleted;
    ListIsRight(s);
    DeletedUnfound(s, k);
    LawSame(s, MarkDeleted(s, k));
  }

  lemma LawUnqueued(s: Cache)
    requires Inv(s) && s.derefs != []
    ensures s.derefs[0] in s.kcbs && s.derefs[0] in s.holders && Inv(Unqueue(s))
    ensures Lawful(s, Dereference(Unqueue(s), s.derefs[0], false))
  {
    hide Tree, Counted, Closed, Hashed, Unique, Dereference;
    UnqueueKeeps(s);
    LawClosed(Unqueue(s), s.derefs[0], false);
  }

  /** Every call leads to a good cache again, so Inv only makes the calls meaningful. */
  ghost predicate IsRun(states: seq<Cache>, steps: seq<Step>) {
    && |states| == |steps| + 1
    && forall k :: 0 <= k < |steps| ==>
         Inv(states[k]) && Enabled(states[k], steps[k]) && states[k + 1] == Apply(states[k], steps[k])
  }

  /** In every run no KCB that is deleted, or marked against it, is ever on the delayed-close list. */
  lemma {:induction false} RunOrderly(states: seq<Cache>, steps: seq<Step>, hold: bool, k: nat)
    requires IsRun(states, steps) && states[0] == Init(hold) && k < |states|
    ensures Orderly(states[k])
  {
    hide Inv, Apply, Enabled;
    if k > 0 {
      RunOrderly(states, steps, hold, k - 1);
      StepLawful(states[k - 1], steps[k - 1]);
    }
  }

  ghost function Lists(states: seq<Cache>, m: nat): seq<seq<nat>>
    requires m < |states|
  {
    seq(m + 1, l requires 0 <= l < |states| => states[l].closing)
  }

  /** In every run the delayed-close list is in the order of closing: whoever has been on it without
      interruption is behind all that came later, so the worker expels the oldest. */
  lemma OldestLast(states: seq<Cache>, steps: seq<Step>, hold: bool, k: nat, m: nat, x: nat, y: nat)
    requires IsRun(states, steps) && states[0] == Init(hold) && k <= m < |states| && x != y
    requires (forall l :: k <= l <= m ==> x in states[l].closing) && y !in states[k].closing && y in states[m].closing
    ensures Before(states[m].closing, y, x)
  {
    hide Inv, Apply, Enabled, Before, GrowsInFront, Orderly, SameKeys;
    var lists := Lists(states, m);
    forall l | 0 <= l < |lists| - 1 ensures GrowsInFront(lists[l], lists[l + 1]) {
      StepLawful(states[l], steps[l]);
    }
    OlderBehind(lists, k, x, y);
  }

  /** The worker takes the oldest queued dereference and holds its reference. */
  lemma UnqueueExact(s: Cache)
    requires s.derefs != [] && s.derefs[0] in s.holders
    ensures var k := s.derefs[0];
            && s.derefs == [k] + Unqueue(s).derefs && Unqueue(s).holders == s.holders[k := s.holders[k] + 1]
            && Unqueue(s) == s.(derefs := Unqueue(s).derefs, holders := Unqueue(s).holders)
  {
  }

  /** What a close queues goes behind what is queued already. */
  lemma DerefsAfter(u: Cache, k: nat)
    requires Inv(u) && k in u.kcbs && u.holders[k] >= 1
    ensures var t := Dereference(u, k, false); u.derefs <= t.derefs && |t.derefs| <= |u.derefs| + 1
  {
    hide Counted, Closed, Hashed, Unique, Dereference, Tree, Freed;
    DereferenceExact(u, k, false);
    ParentsBorne(u);
    var t := Dereference(u, k, false);
    if u.kcbs[k].refs == 1 && k !in t.kcbs { FreedDerefs(u, t, k); }
  }

  lemma FreedDerefs(u: Cache, t: Cache, k: nat)
    requires Tree(u) && k in u.kcbs && u.holders.Keys == u.kcbs.Keys && Borne(u) && Freed(u, t, k, false)
    ensures u.derefs <= t.derefs && |t.derefs| <= |u.derefs| + 1
  {
    assert Placed(u, k);
    hide Tree;
  }

  /** The worker for delayed closes takes the last entry of the list. */
  lemma ExpelsLast(s: Cache, step: Step)
    requires Inv(s) && Enabled(s, step) && step.CloseWork?
    ensures |s.closing| > 0 && Apply(s, step).closing == s.closing[..|s.closing| - 1]
  {
    hide Tree, Counted, Closed, Hashed, Unique, CleanUp, Without;
    CloseWorkShrinks(s);
  }
}
