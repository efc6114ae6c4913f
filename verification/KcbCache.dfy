/**
 Lifetime of key control blocks (KCBs) in the registry's key cache: parent references,
 delayed dereference, delayed close and the key hash table. Every call is atomic: the
 source runs them under the registry lock and the exclusive lock of the KCB's bucket.

 `holders` is history: the references to a KCB that are held outside the cache's own
 structures, that is, by open key bodies and by calls in progress.
 */
module KcbCache {
  import opened Sequences

  const MAX_REFS: nat := 0xFFFF
  const DELAYED_CLOSE_SIZE: nat := 2048
  const LEVEL_LIMIT: nat := 512

  /** What identifies a key: its path hash, its cell and its hive. */
  datatype Key = Key(convKey: nat, cell: nat, hive: nat)

  datatype Kcb = Kcb(
    key: Key,
    parent: Option<nat>,
    levels: nat,
    refs: nat,
    inDelayedClose: bool,
    deleted: bool,
    noDelayClose: bool,
    symLink: bool,
    fake: bool)

  /** `table` holds the hash chains by bucket, `closing` the delayed-close list with the most
      recent entry first, `derefs` the queue of delayed dereferences. */
  datatype Cache = Cache(
    kcbs: map<nat, Kcb>,
    table: map<nat, seq<nat>>,
    closing: seq<nat>,
    elements: nat,
    derefs: seq<nat>,
    holders: map<nat, nat>,
    holdLazyFlush: bool)

  /** GET_HASH_INDEX, in 32-bit arithmetic. */
  function Bucket(convKey: nat): nat {
    (314159269 * convKey % 0x1_0000_0000) % 1000000007 % 2048
  }

  function Chain(s: Cache, b: nat): seq<nat> {
    if b in s.table then s.table[b] else []
  }

  // ------------------------------------------------------------ the invariant

  ghost function Children(s: Cache, k: nat): set<nat> {
    set c | c in s.kcbs && s.kcbs[c].parent == Some(k)
  }

  ghost predicate Placed(s: Cache, k: nat)
    requires k in s.kcbs
  {
    match s.kcbs[k].parent
    case None => s.kcbs[k].levels == 1
    case Some(p) => p in s.kcbs && s.kcbs[k].levels == s.kcbs[p].levels + 1 && s.kcbs[k].levels < LEVEL_LIMIT
  }

  /** Parents are live and one level up, so parent chains are finite and acyclic. */
  ghost predicate Tree(s: Cache) {
    forall k {:trigger Placed(s, k)} :: k in s.kcbs ==> Placed(s, k)
  }

  /** RefCount is exactly the holders, the child KCBs and the queued dereferences. */
  ghost predicate Counted(s: Cache) {
    && s.holders.Keys == s.kcbs.Keys
    && (forall i :: 0 <= i < |s.derefs| ==> s.derefs[i] in s.kcbs)
    && (forall k :: k in s.kcbs ==>
          && s.kcbs[k].refs == s.holders[k] + |Children(s, k)| + Occurrences(s.derefs, k)
          && s.kcbs[k].refs <= MAX_REFS)
  }

  /** The delayed-close list is exactly the live KCBs without references, save those in `but`. */
  ghost predicate Closed(s: Cache, but: set<nat>) {
    && NoDup(s.closing) && s.elements == |s.closing|
    && (forall i :: 0 <= i < |s.closing| ==> s.closing[i] in s.kcbs)
    && (forall k :: k in s.kcbs ==> (k in s.closing <==> s.kcbs[k].inDelayedClose))
    && (forall k :: k in s.kcbs ==> (s.kcbs[k].inDelayedClose <==> s.kcbs[k].refs == 0 && k !in but))
  }

  /** The hash table holds exactly the KCBs that are not deleted, each once in its bucket. */
  ghost predicate Hashed(s: Cache) {
    && (forall b :: NoDup(Chain(s, b)))
    && (forall b, k :: k in Chain(s, b) ==> k in s.kcbs && !s.kcbs[k].deleted && Bucket(s.kcbs[k].key.convKey) == b)
    && (forall k :: k in s.kcbs && !s.kcbs[k].deleted ==> k in Chain(s, Bucket(s.kcbs[k].key.convKey)))
  }

  /** No two KCBs in the table are for the same key. */
  ghost predicate Unique(s: Cache) {
    forall j, k :: j in s.kcbs && k in s.kcbs && !s.kcbs[j].deleted && !s.kcbs[k].deleted && j != k
                 ==> s.kcbs[j].key != s.kcbs[k].key
  }

  ghost predicate InvBut(s: Cache, but: set<nat>) {
    Tree(s) && Counted(s) && Closed(s, but) && Hashed(s) && Unique(s)
  }

  ghost predicate Inv(s: Cache) {
    InvBut(s, {})
  }

  // --------------------------------------------------------------- operations

  function Init(holdLazyFlush: bool): (s: Cache)
    ensures Inv(s)
  {
    hide Bucket;
    Cache(map[], map[], [], 0, [], map[], holdLazyFlush)
  }

  /** CmpReferenceKeyControlBlock: fails on the 16-bit overflow, and takes a KCB that was on its
      way out off the delayed-close list. */
  function Reference(s: Cache, k: nat): (r: Option<Cache>)
    requires Inv(s) && k in s.kcbs
    ensures r.Some? ==>
            r.value.kcbs.Keys == s.kcbs.Keys && k in s.holders && r.value.holders == s.holders[k := s.holders[k] + 1]
  {
    hide Tree, Hashed, Unique, Children, Occurrences, Without;
    var b := s.kcbs[k];
    if (b.refs + 1) % 0x1_0000 == 0 then None
    else
      var t := s.(kcbs := s.kcbs[k := b.(refs := b.refs + 1, inDelayedClose := false)],
                  holders := s.holders[k := s.holders[k] + 1]);
      if b.inDelayedClose then Some(RemoveFromDelayedClose(s, t, k)) else Some(t)
  }

  /** CmpRemoveFromDelayedClose, in state t whose list is still that of s. */
  function RemoveFromDelayedClose(s: Cache, t: Cache, k: nat): Cache
    requires Inv(s) && k in s.closing
  {
    t.(closing := Without(s.closing, k), elements := s.elements - 1)
  }

  /** CmpRemoveKeyHash. */
  function Unhash(s: Cache, k: nat): Cache
    requires k in s.kcbs
  {
    var b := Bucket(s.kcbs[k].key.convKey);
    s.(table := s.table[b := Without(Chain(s, b), k)])
  }

  /** The KCB is gone and its reference on the parent is now held by the caller. */
  function Discard(s: Cache, k: nat): Cache
    requires k in s.kcbs && Tree(s) && s.holders.Keys == s.kcbs.Keys
  {
    var t := if s.kcbs[k].deleted then s else Unhash(s, k);
    assert Placed(s, k);
    var h := match s.kcbs[k].parent
             case None => s.holders
             case Some(p) => s.holders[p := s.holders[p] + 1];
    t.(kcbs := s.kcbs - {k}, holders := h - {k})
  }

  /** One holder gives its reference up; nothing else happens yet. */
  function Drop(s: Cache, k: nat): Cache
    requires Counted(s) && k in s.kcbs && s.holders[k] >= 1
  {
    s.(kcbs := s.kcbs[k := s.kcbs[k].(refs := s.kcbs[k].refs - 1)],
       holders := s.holders[k := s.holders[k] - 1])
  }

  /** CmpAddToDelayedClose. */
  function AddToDelayedClose(s: Cache, k: nat): Cache
    requires k in s.kcbs
  {
    s.(kcbs := s.kcbs[k := s.kcbs[k].(inDelayedClose := true)],
       closing := [k] + s.closing, elements := s.elements + 1)
  }

  /** Whether the last dereference cleans the KCB up at once instead of delaying the close. */
  predicate Direct(s: Cache, b: Kcb) {
    (s.holdLazyFlush && !b.symLink) || b.noDelayClose || b.deleted
  }

  // ----------------------------------------- what the small changes preserve

  /** t differs from s only in the counters and the close state of k. */
  ghost predicate SameShape(s: Cache, t: Cache, k: nat) {
    && k in s.kcbs && k in s.holders && t.kcbs.Keys == s.kcbs.Keys && t.holders.Keys == s.holders.Keys
       && t.table == s.table
    && (forall j :: j in s.kcbs && j != k ==> t.kcbs[j] == s.kcbs[j])
    && (forall j :: j in s.holders && j != k ==> t.holders[j] == s.holders[j])
    && t.kcbs[k].key == s.kcbs[k].key && t.kcbs[k].parent == s.kcbs[k].parent
    && t.kcbs[k].levels == s.kcbs[k].levels && t.kcbs[k].deleted == s.kcbs[k].deleted
  }

  lemma ShapeChildren(s: Cache, t: Cache, k: nat, j: nat)
    requires SameShape(s, t, k)
    ensures Children(t, j) == Children(s, j)
  {
    assert forall c :: c in s.kcbs ==> t.kcbs[c].parent == s.kcbs[c].parent;
  }

  lemma ShapeTree(s: Cache, t: Cache, k: nat)
    requires SameShape(s, t, k) && Tree(s)
    ensures Tree(t)
  {
    forall j | j in t.kcbs ensures Placed(t, j) { assert Placed(s, j); }
  }

  lemma ShapeHashed(s: Cache, t: Cache, k: nat)
    requires SameShape(s, t, k) && Hashed(s)
    ensures Hashed(t)
  {
    hide Bucket;
    assert forall b :: Chain(t, b) == Chain(s, b);
  }

  lemma ShapeUnique(s: Cache, t: Cache, k: nat)
    requires SameShape(s, t, k) && Unique(s)
    ensures Unique(t)
  {
  }

  lemma ShapeKept(s: Cache, t: Cache, k: nat)
    requires SameShape(s, t, k) && Tree(s) && Hashed(s) && Unique(s)
    ensures Tree(t) && Hashed(t) && Unique(t)
  {
    hide Tree, Hashed, Unique;
    ShapeTree(s, t, k);
    ShapeHashed(s, t, k);
    ShapeUnique(s, t, k);
  }

  /** The counter of k moves together with its holders. */
  lemma CountMoves(s: Cache, t: Cache, k: nat)
    requires Counted(s) && SameShape(s, t, k) && t.derefs == s.derefs
    requires t.kcbs[k].refs + s.holders[k] == s.kcbs[k].refs + t.holders[k] && t.kcbs[k].refs <= MAX_REFS
    ensures Counted(t)
  {
    hide Occurrences, Children;
    forall j | j in t.kcbs
      ensures t.kcbs[j].refs == t.holders[j] + |Children(t, j)| + Occurrences(t.derefs, j) && t.kcbs[j].refs <= MAX_REFS
    {
      ShapeChildren(s, t, k, j);
    }
  }

  lemma DropKeeps(s: Cache, k: nat)
    requires Inv(s) && k in s.kcbs && s.holders[k] >= 1
    ensures s.kcbs[k].refs >= 1
    ensures InvBut(Drop(s, k), if s.kcbs[k].refs == 1 then {k} else {})
  {
    hide Tree, Hashed, Unique, Children, Occurrences;
    var t := Drop(s, k);
    assert Counted(t) by { CountMoves(s, t, k); }
    ShapeKept(s, t, k);
  }

  lemma AddKeeps(s: Cache, k: nat)
    requires InvBut(s, {k}) && k in s.kcbs && s.kcbs[k].refs == 0
    ensures Inv(AddToDelayedClose(s, k))
  {
    hide Tree, Hashed, Unique, Counted;
    var t := AddToDelayedClose(s, k);
    assert s.holders.Keys == s.kcbs.Keys by { HoldersLive(s); }
    CountMoves(s, t, k);
    ShapeKept(s, t, k);
    assert forall i :: 0 < i < |t.closing| ==> t.closing[i] == s.closing[i - 1];
    assert forall j :: j in t.closing <==> j == k || j in s.closing;
  }

  lemma HoldersLive(s: Cache)
    requires Counted(s)
    ensures s.holders.Keys == s.kcbs.Keys
    ensures forall k :: k in s.kcbs ==> s.kcbs[k].refs <= MAX_REFS
    ensures forall i :: 0 <= i < |s.derefs| ==> s.derefs[i] in s.kcbs
  {
  }

  lemma DelistKeeps(s: Cache, t: Cache, k: nat, but: set<nat>)
    requires Closed(s, {}) && SameShape(s, t, k) && k in s.closing
    requires t.closing == Without(s.closing, k) && t.elements == s.elements - 1
    requires !t.kcbs[k].inDelayedClose && (t.kcbs[k].refs > 0 || k in but) && but <= {k}
    ensures Closed(t, but)
  {
    WithoutNoDup(s.closing, k);
    forall j ensures j in t.closing <==> j in s.closing && j != k { WithoutMembers(s.closing, k, j); }
    forall i | 0 <= i < |t.closing| ensures t.closing[i] in t.kcbs { assert t.closing[i] in t.closing; }
  }

  lemma ReferenceClosed(s: Cache, k: nat)
    requires Inv(s) && k in s.kcbs && k in s.holders && Reference(s, k).Some?
    ensures Closed(Reference(s, k).value, {})
  {
    hide Tree, Hashed, Unique, Counted, Without;
    if s.kcbs[k].inDelayedClose { DelistKeeps(s, Reference(s, k).value, k, {}); }
  }

  lemma ReferenceKeeps(s: Cache, k: nat)
    requires Inv(s) && k in s.kcbs
    ensures Reference(s, k).None? <==> s.kcbs[k].refs == MAX_REFS
    ensures Reference(s, k).Some? ==> Inv(Reference(s, k).value)
  {
    hide Tree, Hashed, Unique, Counted, Closed, Without, SameShape;
    HoldersLive(s);
    if Reference(s, k).Some? {
      var t := Reference(s, k).value;
      ReferenceShape(s, k);
      CountMoves(s, t, k);
      ShapeKept(s, t, k);
      ReferenceClosed(s, k);
    }
  }

  lemma ReferenceShape(s: Cache, k: nat)
    requires Inv(s) && k in s.kcbs && Reference(s, k).Some?
    ensures SameShape(s, Reference(s, k).value, k)
  {
    hide Tree, Hashed, Unique, Counted, Closed, Without;
    HoldersLive(s);
  }

  // ------------------------------------------ dereference and clean-up, on values

  /** CmpDelayDerefKeyControlBlock: gives the reference up unless it is the last one, which is
      queued for the worker instead. */
  function DelayDeref(s: Cache, k: nat): Cache
    requires Counted(s) && k in s.kcbs && s.holders[k] >= 1
  {
    if s.kcbs[k].refs > 1 then Drop(s, k)
    else s.(derefs := s.derefs + [k], holders := s.holders[k := s.holders[k] - 1])
  }

  lemma KcbsChildren(s: Cache, t: Cache, j: nat)
    requires t.kcbs == s.kcbs
    ensures Children(t, j) == Children(s, j)
  {
  }

  lemma QueueKeepsCount(s: Cache, k: nat)
    requires Counted(s) && k in s.kcbs && s.holders[k] >= 1
    ensures Counted(s.(derefs := s.derefs + [k], holders := s.holders[k := s.holders[k] - 1]))
  {
    hide Occurrences, Children;
    var t := s.(derefs := s.derefs + [k], holders := s.holders[k := s.holders[k] - 1]);
    forall j | j in t.kcbs
      ensures t.kcbs[j].refs == t.holders[j] + |Children(t, j)| + Occurrences(t.derefs, j)
    {
      OccurrencesAppend(s.derefs, k, j);
      assert Children(t, j) == Children(s, j) by { KcbsChildren(s, t, j); }
    }
  }

  lemma DelayDerefKeeps(s: Cache, k: nat)
    requires Inv(s) && k in s.kcbs && s.holders[k] >= 1
    ensures Inv(DelayDeref(s, k))
  {
    hide Tree, Hashed, Unique, Counted, Closed;
    DropKeeps(s, k);
    if s.kcbs[k].refs == 1 {
      var t := DelayDeref(s, k);
      QueueKeepsCount(s, k);
      HoldersLive(s);
      assert SameShape(s, t, k);
      ShapeKept(s, t, k);
      assert Closed(t, {}) by { SameClosed(s, t); }
    }
  }

  lemma SameClosed(s: Cache, t: Cache)
    requires Closed(s, {}) && t.kcbs == s.kcbs && t.closing == s.closing && t.elements == s.elements
    ensures Closed(t, {})
  {
  }

  // Discarding a KCB nobody refers to any more.

  lemma NoRefsNoUsers(s: Cache, k: nat)
    requires Counted(s) && k in s.kcbs && s.kcbs[k].refs == 0
    ensures s.holders[k] == 0 && k !in s.derefs && forall c :: c in s.kcbs ==> s.kcbs[c].parent != Some(k)
  {
    OccursIff(s.derefs, k);
    assert Children(s, k) == {};
    forall c | c in s.kcbs ensures s.kcbs[c].parent != Some(k) { assert c !in Children(s, k); }
  }

  lemma DiscardTree(s: Cache, k: nat)
    requires Tree(s) && Counted(s) && k in s.kcbs && s.kcbs[k].refs == 0
    ensures Tree(Discard(s, k))
  {
    NoRefsNoUsers(s, k);
    var t := Discard(s, k);
    forall j | j in t.kcbs ensures Placed(t, j) { assert Placed(s, j); }
  }

  lemma DiscardHashed(s: Cache, k: nat)
    requires Tree(s) && Counted(s) && Hashed(s) && k in s.kcbs
    ensures Hashed(Discard(s, k))
  {
    hide Bucket, Without, Tree, Counted;
    HoldersLive(s);
    var t := Discard(s, k);
    var b := Bucket(s.kcbs[k].key.convKey);
    if s.kcbs[k].deleted {
      assert forall c :: Chain(t, c) == Chain(s, c);
    } else {
      WithoutNoDup(Chain(s, b), k);
      assert forall c :: Chain(t, c) == if c == b then Without(Chain(s, b), k) else Chain(s, c);
      forall j ensures j in Chain(t, b) <==> j in Chain(s, b) && j != k { WithoutMembers(Chain(s, b), k, j); }
    }
  }

  lemma DiscardChildren(s: Cache, k: nat, j: nat)
    requires Tree(s) && s.holders.Keys == s.kcbs.Keys && k in s.kcbs
    ensures |Children(Discard(s, k), j)| == |Children(s, j)| - if s.kcbs[k].parent == Some(j) then 1 else 0
  {
    assert Children(Discard(s, k), j) == Children(s, j) - {k};
    assert k in Children(s, j) <==> s.kcbs[k].parent == Some(j);
    if k !in Children(s, j) { assert Children(s, j) - {k} == Children(s, j); }
  }

  lemma DiscardCounted(s: Cache, k: nat)
    requires Tree(s) && Counted(s) && k in s.kcbs && s.kcbs[k].refs == 0
    ensures Counted(Discard(s, k))
    ensures s.kcbs[k].parent.Some? ==>
            s.kcbs[k].parent.value in Discard(s, k).kcbs && Discard(s, k).holders[s.kcbs[k].parent.value] >= 1
  {
    hide Occurrences, Children, Without, Bucket;
    NoRefsNoUsers(s, k);
    assert Placed(s, k);
    var t := Discard(s, k);
    assert t.derefs == s.derefs && t.kcbs == s.kcbs - {k};
    forall j | j in t.kcbs
      ensures t.kcbs[j].refs == t.holders[j] + |Children(t, j)| + Occurrences(t.derefs, j) && t.kcbs[j].refs <= MAX_REFS
    {
      DiscardChildren(s, k, j);
    }
    forall i | 0 <= i < |t.derefs| ensures t.derefs[i] in t.kcbs { assert t.derefs[i] in s.derefs; }
  }

  lemma DiscardClosed(s: Cache, k: nat)
    requires Tree(s) && s.holders.Keys == s.kcbs.Keys && Closed(s, {k}) && k in s.kcbs
    ensures Closed(Discard(s, k), {})
  {
    var t := Discard(s, k);
    forall i | 0 <= i < |t.closing| ensures t.closing[i] in t.kcbs { assert t.closing[i] in s.closing; }
  }

  lemma DiscardKeeps(s: Cache, k: nat)
    requires InvBut(s, {k}) && k in s.kcbs && s.kcbs[k].refs == 0
    ensures Inv(Discard(s, k))
    ensures s.kcbs[k].parent.Some? ==>
              var p, t := s.kcbs[k].parent.value, Discard(s, k);
              p in s.kcbs && p in t.kcbs && t.holders[p] >= 1 && t.kcbs[p] == s.kcbs[p]
                && s.kcbs[p].levels < s.kcbs[k].levels
  {
    hide Tree, Hashed, Counted, Closed;
    HoldersLive(s);
    assert Placed(s, k) by { TreeAt(s, k); }
    DiscardTree(s, k);
    DiscardHashed(s, k);
    DiscardCounted(s, k);
    DiscardClosed(s, k);
  }

  lemma TreeAt(s: Cache, k: nat)
    requires Tree(s) && k in s.kcbs
    ensures Placed(s, k)
  {
  }

  /** CmpDereferenceKeyControlBlockWithLock. */
  function Dereference(s: Cache, k: nat, exclusive: bool): (t: Cache)
    requires Inv(s) && k in s.kcbs && s.holders[k] >= 1
    ensures Inv(t)
    decreases s.kcbs[k].levels, 1
  {
    hide Tree, Counted, Closed, Hashed, Unique;
    DropKeeps(s, k);
    var d := Drop(s, k);
    if d.kcbs[k].refs > 0 then d
    else if Direct(d, d.kcbs[k]) then CleanUp(d, k, exclusive)
    else
      AddKeeps(d, k);
      AddToDelayedClose(d, k)
  }

  /** CmpCleanUpKcbCacheWithLock: frees k and gives up its reference on the parent, at once under
      the exclusive registry lock and delayed otherwise. */
  function CleanUp(s: Cache, k: nat, exclusive: bool): (t: Cache)
    requires InvBut(s, {k}) && k in s.kcbs && s.kcbs[k].refs == 0
    ensures Inv(t)
    decreases s.kcbs[k].levels, 0
  {
    hide Tree, Counted, Closed, Hashed, Unique, Unhash;
    DiscardKeeps(s, k);
    HoldersLive(s);
    var t := Discard(s, k);
    match s.kcbs[k].parent
    case None => t
    case Some(p) =>
      if exclusive then Dereference(t, p, exclusive)
      else
        DelayDerefKeeps(t, p);
        DelayDeref(t, p)
  }

  /** t is s after n references to k (none or one) were given up: no other holder notices, and
      every KCB that is gone had no holder left but the one that gave up. */
  ghost predicate Released(s: Cache, t: Cache, k: nat, n: nat) {
    && t.kcbs.Keys <= s.kcbs.Keys && t.holders.Keys == t.kcbs.Keys && s.holders.Keys == s.kcbs.Keys
    && (forall j :: j in t.kcbs ==> t.holders[j] + (if j == k then n else 0) == s.holders[j])
    && (forall j :: j in s.kcbs && j !in t.kcbs ==> s.holders[j] == if j == k then n else 0)
    && (forall j :: j in t.kcbs ==> t.kcbs[j].parent == s.kcbs[j].parent && t.kcbs[j].key == s.kcbs[j].key
                                    && t.kcbs[j].deleted == s.kcbs[j].deleted)
  }

  lemma DiscardReleases(s: Cache, k: nat)
    requires InvBut(s, {k}) && k in s.kcbs && s.kcbs[k].refs == 0
    ensures var t := Discard(s, k);
            && t.kcbs == s.kcbs - {k} && t.closing == s.closing && s.holders.Keys == s.kcbs.Keys && s.holders[k] == 0
            && t.holders.Keys == t.kcbs.Keys
            && forall j :: j in t.kcbs ==> t.holders[j] == s.holders[j] + if s.kcbs[k].parent == Some(j) then 1 else 0
  {
    hide Closed, Hashed, Unique, Children, Occurrences, Without;
    NoRefsNoUsers(s, k);
    assert Placed(s, k);
  }

  lemma DropReleases(s: Cache, k: nat)
    requires Counted(s) && k in s.kcbs && s.holders[k] >= 1
    ensures Released(s, Drop(s, k), k, 1) && Drop(s, k).kcbs.Keys == s.kcbs.Keys
  {
    hide Children, Occurrences;
  }

  lemma ListedReleases(s: Cache, t: Cache, k: nat)
    requires Released(s, t, k, 1) && k in t.kcbs
    ensures Released(s, AddToDelayedClose(t, k), k, 1) && AddToDelayedClose(t, k).kcbs.Keys == t.kcbs.Keys
  {
  }

  lemma CleanedReleases(s: Cache, t: Cache, u: Cache, k: nat)
    requires Released(s, t, k, 1) && Released(t, u, k, 0) && k !in u.kcbs
    ensures Released(s, u, k, 1)
  {
  }

  lemma {:induction false} DereferenceReleases(s: Cache, k: nat, exclusive: bool)
    requires Inv(s) && k in s.kcbs && s.holders[k] >= 1
    ensures Released(s, Dereference(s, k, exclusive), k, 1)
    ensures !exclusive ==> s.kcbs.Keys - {k} <= Dereference(s, k, exclusive).kcbs.Keys
    decreases s.kcbs[k].levels, 1
  {
    hide Tree, Counted, Closed, Hashed, Unique, CleanUp, Released, AddToDelayedClose;
    DropKeeps(s, k);
    DropReleases(s, k);
    var d := Drop(s, k);
    if d.kcbs[k].refs == 0 {
      if Direct(d, d.kcbs[k]) {
        CleanUpReleases(d, k, exclusive);
        CleanedReleases(s, d, CleanUp(d, k, exclusive), k);
      } else {
        ListedReleases(s, d, k);
      }
    }
  }

  /** k is discarded, then its reference on the parent p is given up. */
  lemma ReleaseChain(s: Cache, t: Cache, u: Cache, k: nat, p: nat)
    requires k in s.kcbs && t.kcbs == s.kcbs - {k} && s.holders.Keys == s.kcbs.Keys && t.holders.Keys == t.kcbs.Keys
    requires s.holders[k] == 0
    requires forall j :: j in t.kcbs ==> t.holders[j] == s.holders[j] + if j == p then 1 else 0
    requires Released(t, u, p, 1)
    ensures Released(s, u, k, 0) && k !in u.kcbs
  {
  }

  lemma DiscardOnly(s: Cache, t: Cache, k: nat)
    requires k in s.kcbs && t.kcbs == s.kcbs - {k} && s.holders.Keys == s.kcbs.Keys && t.holders.Keys == t.kcbs.Keys
    requires s.holders[k] == 0
    requires forall j :: j in t.kcbs ==> t.holders[j] == s.holders[j]
    ensures Released(s, t, k, 0) && k !in t.kcbs
  {
  }

  lemma DelayDerefReleases(s: Cache, k: nat)
    requires Counted(s) && k in s.kcbs && s.holders[k] >= 1
    ensures Released(s, DelayDeref(s, k), k, 1)
    ensures DelayDeref(s, k).kcbs.Keys == s.kcbs.Keys && DelayDeref(s, k).closing == s.closing
  {
    hide Children, Occurrences;
  }

  lemma {:induction false} CleanUpReleases(s: Cache, k: nat, exclusive: bool)
    requires InvBut(s, {k}) && k in s.kcbs && s.kcbs[k].refs == 0
    ensures Released(s, CleanUp(s, k, exclusive), k, 0)
    ensures k !in CleanUp(s, k, exclusive).kcbs
    ensures !exclusive ==>
            s.kcbs.Keys - {k} == CleanUp(s, k, exclusive).kcbs.Keys && CleanUp(s, k, exclusive).closing == s.closing
    decreases s.kcbs[k].levels, 0
  {
    hide Tree, Counted, Closed, Hashed, Unique, Dereference, DelayDeref, Discard, Released;
    DiscardReleases(s, k);
    DiscardKeeps(s, k);
    var t := Discard(s, k);
    if s.kcbs[k].parent.Some? {
      var p := s.kcbs[k].parent.value;
      if exclusive { DereferenceReleases(t, p, exclusive); } else { DelayDerefReleases(t, p); }
      ReleaseChain(s, t, CleanUp(s, k, exclusive), k, p);
    } else {
      DiscardOnly(s, t, k);
    }
  }

  // ------------------------------------------------------ creation and deletion

  /** The search of CmpInsertKeyHash along one chain. */
  function Find(s: Cache, chain: seq<nat>, key: Key): (f: Option<nat>)
    requires forall k :: k in chain ==> k in s.kcbs
    ensures f.Some? ==> f.value in chain && s.kcbs[f.value].key == key
    ensures f.None? ==> forall k :: k in chain ==> s.kcbs[k].key != key
  {
    if chain == [] then None
    else if s.kcbs[chain[0]].key == key then Some(chain[0])
    else Find(s, chain[1..], key)
  }

  function Lookup(s: Cache, key: Key): (f: Option<nat>)
    requires Hashed(s)
  {
    Find(s, Chain(s, Bucket(key.convKey)), key)
  }

  /** The lookup finds exactly the live, undeleted KCB for the key, if there is one. */
  lemma LookupExact(s: Cache, key: Key, k: nat)
    requires Hashed(s) && Unique(s)
    ensures Lookup(s, key) == Some(k) <==> k in s.kcbs && !s.kcbs[k].deleted && s.kcbs[k].key == key
  {
    hide Bucket, Find;
    var f := Lookup(s, key);
    if k in s.kcbs && !s.kcbs[k].deleted && s.kcbs[k].key == key {
      assert k in Chain(s, Bucket(key.convKey));
    }
  }

  /** A new KCB with one reference, at the front of its hash chain; the caller's hold on the
      parent becomes the child's. */
  function Insert(s: Cache, id: nat, b: Kcb): Cache
    requires b.parent.Some? ==> b.parent.value in s.holders && s.holders[b.parent.value] >= 1
  {
    var c := Bucket(b.key.convKey);
    var h := match b.parent
             case None => s.holders
             case Some(p) => s.holders[p := s.holders[p] - 1];
    s.(kcbs := s.kcbs[id := b], holders := h[id := 1], table := s.table[c := [id] + Chain(s, c)])
  }

  /** What a creation is asked for: a fake key stands for one that does not exist, under the cell
      of its parent; `frozen` is the state of the hive. */
  datatype NewKey = NewKey(key: Key, parent: Option<nat>, symLink: bool, fake: bool, frozen: bool)

  /** The key under which a creation is entered in the hash table. */
  function Entered(n: NewKey): Key {
    if n.fake then n.key.(cell := n.key.cell + 1) else n.key
  }

  function NewKcb(n: NewKey, levels: nat): Kcb {
    Kcb(Entered(n), n.parent, levels, 1, false, false, n.frozen && !n.symLink, n.symLink, n.fake)
  }

  /** A KCB that was found: a fake one becomes real and forgets its flags, and in a frozen hive its
      close is not delayed. */
  function Refreshed(b: Kcb, n: NewKey): Kcb {
    var c := if b.fake && !n.fake then b.(fake := false, noDelayClose := false) else b;
    if n.frozen && !c.symLink then c.(noDelayClose := true) else c
  }

  function Refresh(s: Cache, k: nat, n: NewKey): Cache
    requires k in s.kcbs
  {
    s.(kcbs := s.kcbs[k := Refreshed(s.kcbs[k], n)])
  }

  lemma RefreshKeeps(s: Cache, k: nat, n: NewKey)
    requires Inv(s) && k in s.kcbs
    ensures Inv(Refresh(s, k, n))
  {
    hide Tree, Hashed, Unique, Counted;
    HoldersLive(s);
    CountMoves(s, Refresh(s, k, n), k);
    ShapeKept(s, Refresh(s, k, n), k);
  }

  /** CmpCreateKeyControlBlock: the KCB for the key, found or made, with one more reference. */
  function Create(s: Cache, id: nat, n: NewKey): (r: (Option<nat>, Cache))
    requires Inv(s) && id !in s.kcbs && (n.parent.Some? ==> n.parent.value in s.kcbs)
  {
    hide Tree, Counted, Closed, Hashed, Unique, Lookup, Reference;
    match Lookup(s, Entered(n))
    case Some(f) =>
      LookupExact(s, Entered(n), f);
      (match Reference(s, f)
       case None => (None, s)
       case Some(t) => (Some(f), Refresh(t, f, n)))
    case None =>
      match n.parent
      case None => (Some(id), Insert(s, id, NewKcb(n, 1)))
      case Some(p) =>
        if s.kcbs[p].levels + 1 < LEVEL_LIMIT && Reference(s, p).Some? then
          var t := Reference(s, p).value;
          (Some(id), Insert(t, id, NewKcb(n, t.kcbs[p].levels + 1)))
        else (None, s)
  }

  ghost predicate Fits(s: Cache, id: nat, b: Kcb) {
    && id !in s.kcbs && b.refs == 1 && !b.inDelayedClose && !b.deleted
    && (forall k :: k in s.kcbs && !s.kcbs[k].deleted ==> s.kcbs[k].key != b.key)
    && match b.parent
       case None => b.levels == 1
       case Some(p) =>
         && p in s.kcbs && p in s.holders && s.holders[p] >= 1
         && b.levels == s.kcbs[p].levels + 1 && b.levels < LEVEL_LIMIT
  }

  lemma NoOrphans(s: Cache, id: nat)
    requires Tree(s) && Counted(s) && id !in s.kcbs
    ensures Children(s, id) == {} && Occurrences(s.derefs, id) == 0
  {
    forall c | c in s.kcbs ensures s.kcbs[c].parent != Some(id) { assert Placed(s, c); }
    OccursIff(s.derefs, id);
  }

  lemma InsertChildren(s: Cache, id: nat, b: Kcb, j: nat)
    requires s.holders.Keys == s.kcbs.Keys && Fits(s, id, b)
    ensures |Children(Insert(s, id, b), j)| == |Children(s, j)| + if b.parent == Some(j) then 1 else 0
  {
    hide Bucket;
    var t := Insert(s, id, b);
    assert t.kcbs == s.kcbs[id := b];
    assert Children(t, j) == if b.parent == Some(j) then Children(s, j) + {id} else Children(s, j);
  }

  lemma InsertCounted(s: Cache, id: nat, b: Kcb)
    requires Tree(s) && Counted(s) && Fits(s, id, b)
    ensures Counted(Insert(s, id, b))
  {
    hide Tree, Occurrences, Bucket, Children;
    NoOrphans(s, id);
    var t := Insert(s, id, b);
    forall j | j in t.kcbs
      ensures t.kcbs[j].refs == t.holders[j] + |Children(t, j)| + Occurrences(t.derefs, j) && t.kcbs[j].refs <= MAX_REFS
    {
      InsertChildren(s, id, b, j);
    }
  }

  lemma InsertHashed(s: Cache, id: nat, b: Kcb)
    requires Hashed(s) && s.holders.Keys == s.kcbs.Keys && Fits(s, id, b)
    ensures Hashed(Insert(s, id, b))
  {
    hide Bucket;
    var t, c := Insert(s, id, b), Bucket(b.key.convKey);
    assert forall x :: Chain(t, x) == if x == c then [id] + Chain(s, c) else Chain(s, x);
    assert id !in Chain(s, c);
  }

  lemma InsertTree(s: Cache, id: nat, b: Kcb)
    requires Tree(s) && s.holders.Keys == s.kcbs.Keys && Fits(s, id, b)
    ensures Tree(Insert(s, id, b))
  {
    hide Bucket;
    var t := Insert(s, id, b);
    forall j | j in t.kcbs ensures Placed(t, j) {
      if j != id { assert Placed(s, j); }
    }
  }

  lemma InsertClosed(s: Cache, id: nat, b: Kcb)
    requires Closed(s, {}) && s.holders.Keys == s.kcbs.Keys && Fits(s, id, b)
    ensures Closed(Insert(s, id, b), {})
  {
    hide Bucket;
    var t := Insert(s, id, b);
    assert id !in s.closing;
  }

  lemma InsertUnique(s: Cache, id: nat, b: Kcb)
    requires Unique(s) && s.holders.Keys == s.kcbs.Keys && Fits(s, id, b)
    ensures Unique(Insert(s, id, b))
  {
    hide Bucket;
  }

  lemma InsertKeeps(s: Cache, id: nat, b: Kcb)
    requires Inv(s) && Fits(s, id, b)
    ensures Inv(Insert(s, id, b))
  {
    hide Tree, Counted, Closed, Hashed, Unique, Fits, Insert;
    HoldersLive(s);
    assert b.parent.Some? ==> b.parent.value in s.holders && s.holders[b.parent.value] >= 1 by { FitsParent(s, id, b); }
    InsertTree(s, id, b);
    InsertCounted(s, id, b);
    InsertClosed(s, id, b);
    InsertHashed(s, id, b);
    InsertUnique(s, id, b);
  }

  lemma FitsParent(s: Cache, id: nat, b: Kcb)
    requires Fits(s, id, b)
    ensures b.parent.Some? ==> b.parent.value in s.holders && s.holders[b.parent.value] >= 1
  {
  }

  lemma ReferenceAdds(s: Cache, k: nat)
    requires Inv(s) && k in s.kcbs && k in s.holders && Reference(s, k).Some?
    ensures var t := Reference(s, k).value;
            && t.kcbs.Keys == s.kcbs.Keys && t.holders == s.holders[k := s.holders[k] + 1]
            && forall j :: j in s.kcbs ==>
               && t.kcbs[j].key == s.kcbs[j].key && t.kcbs[j].deleted == s.kcbs[j].deleted
               && t.kcbs[j].levels == s.kcbs[j].levels
  {
    hide Tree, Counted, Closed, Hashed, Unique, Without;
    HoldersLive(s);
  }

  /** t is a good cache in which k is the KCB of the new key, held once more than in s. */
  ghost predicate Obtained(s: Cache, t: Cache, k: nat, n: NewKey) {
    && Inv(t) && k in t.kcbs && t.kcbs[k].key == Entered(n) && !t.kcbs[k].deleted
    && k in t.holders && t.holders[k] == (if k in s.holders then s.holders[k] else 0) + 1
    && (n.frozen && !t.kcbs[k].symLink ==> t.kcbs[k].noDelayClose) && (t.kcbs[k].fake ==> n.fake)
  }

  lemma FoundObtained(s: Cache, f: nat, n: NewKey)
    requires Inv(s) && f in s.kcbs && !s.kcbs[f].deleted && s.kcbs[f].key == Entered(n) && Reference(s, f).Some?
    ensures f in Reference(s, f).value.kcbs && Obtained(s, Refresh(Reference(s, f).value, f, n), f, n)
  {
    hide Tree, Counted, Closed, Hashed, Unique, Reference;
    HoldersLive(s);
    ReferenceKeeps(s, f);
    ReferenceAdds(s, f);
    RefreshKeeps(Reference(s, f).value, f, n);
  }

  lemma InsertObtained(s: Cache, t: Cache, id: nat, b: Kcb, n: NewKey)
    requires Inv(t) && Fits(t, id, b) && id !in s.holders && b == NewKcb(n, b.levels)
    ensures Obtained(s, Insert(t, id, b), id, n)
  {
    hide Inv, Insert;
    InsertKeeps(t, id, b);
    Inserted(t, id, b);
  }

  /** The new key fails exactly on a full reference count or the depth limit. */
  ghost predicate Refused(s: Cache, n: NewKey)
    requires Inv(s) && (n.parent.Some? ==> n.parent.value in s.kcbs)
  {
    match Lookup(s, Entered(n))
    case Some(f) => f in s.kcbs && s.kcbs[f].refs == MAX_REFS
    case None =>
      n.parent.Some? && (s.kcbs[n.parent.value].levels + 1 >= LEVEL_LIMIT || s.kcbs[n.parent.value].refs == MAX_REFS)
  }

  /** What a creation with this outcome did. */
  ghost predicate Created(s: Cache, id: nat, n: NewKey, k: Option<nat>, t: Cache)
    requires Inv(s) && (n.parent.Some? ==> n.parent.value in s.kcbs)
  {
    && Inv(t) && (k.None? <==> Refused(s, n)) && (k.None? ==> t == s)
    && (k.Some? ==> Obtained(s, t, k.value, n) && (k.value != id ==> Lookup(s, Entered(n)) == k))
  }

  lemma CreateFound(s: Cache, id: nat, n: NewKey, f: nat)
    requires Inv(s) && id !in s.kcbs && (n.parent.Some? ==> n.parent.value in s.kcbs)
    requires Lookup(s, Entered(n)) == Some(f)
    ensures Created(s, id, n, Create(s, id, n).0, Create(s, id, n).1)
  {
    hide Tree, Counted, Closed, Hashed, Unique, Reference, Lookup, Obtained;
    LookupExact(s, Entered(n), f);
    ReferenceKeeps(s, f);
    if Reference(s, f).Some? {
      FoundObtained(s, f, n);
      ObtainedInv(s, Refresh(Reference(s, f).value, f, n), f, n);
    }
  }

  lemma ObtainedInv(s: Cache, t: Cache, k: nat, n: NewKey)
    requires Obtained(s, t, k, n)
    ensures Inv(t)
  {
  }

  lemma CreateRoot(s: Cache, id: nat, n: NewKey)
    requires Inv(s) && id !in s.kcbs && n.parent.None? && Lookup(s, Entered(n)).None?
    ensures Created(s, id, n, Create(s, id, n).0, Create(s, id, n).1)
  {
    hide Tree, Counted, Closed, Hashed, Unique, Reference, Insert, Bucket, Lookup, Obtained;
    HoldersLive(s);
    NoneFound(s, Entered(n));
    InsertObtained(s, s, id, NewKcb(n, 1), n);
    ObtainedInv(s, Insert(s, id, NewKcb(n, 1)), id, n);
  }

  lemma NoneFound(s: Cache, key: Key)
    requires Hashed(s) && Unique(s) && Lookup(s, key).None?
    ensures forall k :: k in s.kcbs && !s.kcbs[k].deleted ==> s.kcbs[k].key != key
  {
    hide Hashed, Unique, Lookup;
    forall k | k in s.kcbs && !s.kcbs[k].deleted ensures s.kcbs[k].key != key { LookupExact(s, key, k); }
  }

  lemma CreateChild(s: Cache, id: nat, n: NewKey)
    requires Inv(s) && id !in s.kcbs && n.parent.Some? && n.parent.value in s.kcbs && Lookup(s, Entered(n)).None?
    ensures Created(s, id, n, Create(s, id, n).0, Create(s, id, n).1)
  {
    hide Tree, Counted, Closed, Hashed, Unique, Reference, Insert, Bucket, Lookup, Obtained;
    HoldersLive(s);
    NoneFound(s, Entered(n));
    var p := n.parent.value;
    ReferenceKeeps(s, p);
    if s.kcbs[p].levels + 1 < LEVEL_LIMIT && Reference(s, p).Some? {
      ReferenceAdds(s, p);
      var t := Reference(s, p).value;
      InsertObtained(s, t, id, NewKcb(n, t.kcbs[p].levels + 1), n);
      ObtainedInv(s, Insert(t, id, NewKcb(n, t.kcbs[p].levels + 1)), id, n);
    }
  }

  /** Creation keeps the invariant, never makes a second KCB for a key, and fails only on a full
      reference count or the depth limit. */
  lemma CreateKeeps(s: Cache, id: nat, n: NewKey)
    requires Inv(s) && id !in s.kcbs && (n.parent.Some? ==> n.parent.value in s.kcbs)
    ensures Inv(Create(s, id, n).1) && Created(s, id, n, Create(s, id, n).0, Create(s, id, n).1)
  {
    hide Tree, Counted, Closed, Hashed, Unique, Create, Lookup, Obtained, Refused;
    if Lookup(s, Entered(n)).Some? { CreateFound(s, id, n, Lookup(s, Entered(n)).value); }
    else if n.parent.None? { CreateRoot(s, id, n); }
    else { CreateChild(s, id, n); }
  }

  lemma Inserted(s: Cache, id: nat, b: Kcb)
    requires Fits(s, id, b)
    ensures id in Insert(s, id, b).kcbs && Insert(s, id, b).kcbs[id] == b
    ensures id in Insert(s, id, b).holders && Insert(s, id, b).holders[id] == 1
  {
    hide Bucket;
  }

  /** A KCB in use is deleted: out of the hash table at once, freed with its last reference. */
  function MarkDeleted(s: Cache, k: nat): Cache
    requires k in s.kcbs
  {
    Unhash(s, k).(kcbs := s.kcbs[k := s.kcbs[k].(deleted := true)])
  }

  lemma MarkDeletedKeeps(s: Cache, k: nat)
    requires Inv(s) && k in s.kcbs && !s.kcbs[k].deleted && s.kcbs[k].refs > 0
    ensures Inv(MarkDeleted(s, k))
  {
    hide Bucket, Without, Tree, Counted, Closed, Hashed, Unique;
    var t := MarkDeleted(s, k);
    HoldersLive(s);
    assert Tree(t) by { MarkedTree(s, k); }
    assert Counted(t) by { MarkedCounted(s, k); }
    assert Closed(t, {}) by { MarkedClosed(s, k); }
    assert Hashed(t) by { MarkedHashed(s, k); }
    assert Unique(t) by { MarkedUnique(s, k); }
  }

  lemma MarkedTree(s: Cache, k: nat)
    requires Tree(s) && k in s.kcbs
    ensures Tree(MarkDeleted(s, k))
  {
    hide Bucket, Without;
    var t := MarkDeleted(s, k);
    forall j | j in t.kcbs ensures Placed(t, j) { assert Placed(s, j); }
  }

  ghost predicate SameCounts(s: Cache, t: Cache) {
    && t.kcbs.Keys == s.kcbs.Keys && t.holders == s.holders && t.derefs == s.derefs
    && forall c :: c in s.kcbs ==> t.kcbs[c].parent == s.kcbs[c].parent && t.kcbs[c].refs == s.kcbs[c].refs
  }

  lemma CountsKept(s: Cache, t: Cache)
    requires Counted(s) && SameCounts(s, t)
    ensures Counted(t)
  {
    hide Occurrences, Children;
    forall j | j in t.kcbs
      ensures t.kcbs[j].refs == t.holders[j] + |Children(t, j)| + Occurrences(t.derefs, j) && t.kcbs[j].refs <= MAX_REFS
    {
      SameChildren(s, t, j);
    }
  }

  lemma SameChildren(s: Cache, t: Cache, j: nat)
    requires SameCounts(s, t)
    ensures Children(t, j) == Children(s, j)
  {
  }

  lemma MarkedCounted(s: Cache, k: nat)
    requires Counted(s) && k in s.kcbs
    ensures Counted(MarkDeleted(s, k))
  {
    hide Bucket, Without, Counted;
    CountsKept(s, MarkDeleted(s, k));
  }

  lemma MarkedClosed(s: Cache, k: nat)
    requires Closed(s, {}) && k in s.kcbs
    ensures Closed(MarkDeleted(s, k), {})
  {
    hide Bucket, Without;
  }

  lemma MarkedHashed(s: Cache, k: nat)
    requires Hashed(s) && k in s.kcbs && !s.kcbs[k].deleted
    ensures Hashed(MarkDeleted(s, k))
  {
    hide Bucket, Without;
    var t, b := MarkDeleted(s, k), Bucket(s.kcbs[k].key.convKey);
    WithoutNoDup(Chain(s, b), k);
    assert forall c :: Chain(t, c) == if c == b then Without(Chain(s, b), k) else Chain(s, c);
    forall j ensures j in Chain(t, b) <==> j in Chain(s, b) && j != k { WithoutMembers(Chain(s, b), k, j); }
  }

  lemma MarkedUnique(s: Cache, k: nat)
    requires Unique(s) && k in s.kcbs
    ensures Unique(MarkDeleted(s, k))
  {
    hide Bucket, Without;
  }

  /** Off the delayed-close list, on the way to being cleaned up. */
  function Delist(s: Cache, k: nat): Cache
    requires k in s.kcbs && k in s.closing && s.elements >= 1
  {
    s.(kcbs := s.kcbs[k := s.kcbs[k].(inDelayedClose := false)],
       closing := Without(s.closing, k), elements := s.elements - 1)
  }

  lemma DelistLeaves(s: Cache, k: nat)
    requires Inv(s) && k in s.closing
    ensures k in s.kcbs && s.elements >= 1 && s.kcbs[k].refs == 0 && InvBut(Delist(s, k), {k})
  {
    hide Tree, Counted, Hashed, Unique, Without;
    HoldersLive(s);
    var t := Delist(s, k);
    CountMoves(s, t, k);
    ShapeKept(s, t, k);
    DelistKeeps(s, t, k, {k});
  }

  /** The reference of a queued dereference, taken over by the worker. */
  function Unqueue(s: Cache): Cache
    requires s.derefs != [] && s.derefs[0] in s.holders
  {
    s.(derefs := s.derefs[1..], holders := s.holders[s.derefs[0] := s.holders[s.derefs[0]] + 1])
  }

  lemma UnqueueCounted(s: Cache)
    requires Counted(s) && s.derefs != []
    ensures Counted(Unqueue(s))
  {
    hide Children;
    var k, t := s.derefs[0], Unqueue(s);
    forall j | j in t.kcbs ensures t.kcbs[j].refs == t.holders[j] + |Children(t, j)| + Occurrences(t.derefs, j) {
      ShapeChildren(s, t, k, j);
    }
    forall i | 0 <= i < |t.derefs| ensures t.derefs[i] in t.kcbs { assert t.derefs[i] == s.derefs[i + 1]; }
  }

  lemma UnqueueKeeps(s: Cache)
    requires Inv(s) && s.derefs != []
    ensures s.derefs[0] in s.kcbs && s.derefs[0] in s.holders && Inv(Unqueue(s))
  {
    hide Tree, Hashed, Unique, Closed, Counted;
    HoldersLive(s);
    UnqueueCounted(s);
    ShapeKept(s, Unqueue(s), s.derefs[0]);
    SameClosed(s, Unqueue(s));
  }

  // --------------------------------------------------------------------- runs

  datatype Step =
    | CreateKey(id: nat, new_: NewKey)
    | Open(k: nat)
    | Close(k: nat, exclusive: bool)
    | CloseLater(k: nat)
    | Delete(k: nat)
    | Expunge(k: nat, exclusive: bool)
    | DerefWork
    | CloseWork
    | SetHold(hold: bool)

  ghost predicate Enabled(s: Cache, step: Step) {
    match step
    case CreateKey(id, n) => id !in s.kcbs && (n.parent.Some? ==> n.parent.value in s.kcbs)
    case Open(k) => k in s.kcbs
    case Close(k, _) => k in s.kcbs && k in s.holders && s.holders[k] >= 1
    case CloseLater(k) => k in s.kcbs && k in s.holders && s.holders[k] >= 1
    case Delete(k) => k in s.kcbs && !s.kcbs[k].deleted && s.kcbs[k].refs > 0
    case Expunge(k, _) => k in s.closing
    case DerefWork => s.derefs != []
    case CloseWork => s.elements > DELAYED_CLOSE_SIZE && s.closing != []
    case SetHold(_) => true
  }

  /** What each call does; every call keeps the invariant. */
  ghost function Apply(s: Cache, step: Step): (t: Cache)
    requires Inv(s) && Enabled(s, step)
    ensures Inv(t)
  {
    hide Tree, Counted, Closed, Hashed, Unique, Create, Reference, Dereference, CleanUp, DelayDeref, MarkDeleted,
         Without;
    match step
    case CreateKey(id, n) => CreateKeeps(s, id, n); Create(s, id, n).1
    case Open(k) => ReferenceKeeps(s, k); (match Reference(s, k) case None => s case Some(t) => t)
    case Close(k, exclusive) => Dereference(s, k, exclusive)
    case CloseLater(k) => DelayDerefKeeps(s, k); DelayDeref(s, k)
    case Delete(k) => MarkDeletedKeeps(s, k); MarkDeleted(s, k)
    case Expunge(k, exclusive) => DelistLeaves(s, k); CleanUp(Delist(s, k), k, exclusive)
    case DerefWork => UnqueueKeeps(s); Dereference(Unqueue(s), s.derefs[0], false)
    case CloseWork => var k := s.closing[|s.closing| - 1]; DelistLeaves(s, k); CleanUp(Delist(s, k), k, false)
    case SetHold(hold) => HoldKeeps(s, hold); s.(holdLazyFlush := hold)
  }

  /** CmpHoldLazyFlush may flip at any time: no count depends on it. */
  lemma HoldKeeps(s: Cache, hold: bool)
    requires Inv(s)
    ensures Inv(s.(holdLazyFlush := hold))
  {
    hide Tree, Counted, Hashed, Unique;
    HoldTree(s, hold);
    HoldCounted(s, hold);
    HoldHashed(s, hold);
  }

  lemma HoldTree(s: Cache, hold: bool)
    requires Tree(s) && Unique(s)
    ensures Tree(s.(holdLazyFlush := hold)) && Unique(s.(holdLazyFlush := hold))
  {
    var t := s.(holdLazyFlush := hold);
    forall k | k in t.kcbs ensures Placed(t, k) { assert Placed(s, k); }
  }

  lemma HoldCounted(s: Cache, hold: bool)
    requires Counted(s)
    ensures Counted(s.(holdLazyFlush := hold))
  {
    hide Counted;
    CountsKept(s, s.(holdLazyFlush := hold));
  }

  lemma HoldHashed(s: Cache, hold: bool)
    requires Hashed(s)
    ensures Hashed(s.(holdLazyFlush := hold))
  {
    hide Bucket;
    assert forall b :: Chain(s.(holdLazyFlush := hold), b) == Chain(s, b);
  }

  /** A run of calls, each enabled where it happens, leads from s to t. */
  ghost predicate Reaches(s: Cache, steps: seq<Step>, t: Cache)
    requires Inv(s)
    decreases |steps|
  {
    if steps == [] then t == s else Enabled(s, steps[0]) && Reaches(Apply(s, steps[0]), steps[1..], t)
  }

  lemma {:induction false} ReachesInv(s: Cache, steps: seq<Step>, t: Cache)
    requires Inv(s) && Reaches(s, steps, t)
    ensures Inv(t)
    decreases |steps|
  {
    hide Inv, Apply, Enabled;
    if steps != [] { ReachesInv(Apply(s, steps[0]), steps[1..], t); }
  }

  /** After every run from the empty cache: each reference count is exact, a KCB that something
      refers to is live with its parent, the KCBs with count 0 are exactly the delayed-close list,
      and the element counter is its length. */
  lemma RunExact(hold: bool, steps: seq<Step>, s: Cache)
    requires Reaches(Init(hold), steps, s)
    ensures Inv(s) && s.elements == |s.closing|
    ensures forall k :: k in s.kcbs ==>
              && k in s.holders
              && s.kcbs[k].refs == s.holders[k] + |Children(s, k)| + Occurrences(s.derefs, k)
              && (s.kcbs[k].refs == 0 <==> k in s.closing)
              && (s.kcbs[k].parent.Some? ==> s.kcbs[k].parent.value in s.kcbs)
  {
    hide Hashed, Unique, Children, Occurrences;
    ReachesInv(Init(hold), steps, s);
    forall k | k in s.kcbs ensures s.kcbs[k].parent.Some? ==> s.kcbs[k].parent.value in s.kcbs { assert Placed(s, k); }
  }

  /** A step frees a KCB only when nobody but the caller of that very step still held it. */
  lemma FreedOnlyUnused(s: Cache, step: Step, k: nat)
    requires Inv(s) && Enabled(s, step) && k in s.kcbs && k !in Apply(s, step).kcbs
    ensures k in s.holders && s.holders[k] == if step.Close? && step.k == k then 1 else 0
  {
    hide Tree, Counted, Closed, Hashed, Unique, Create, Dereference, CleanUp, Without, Bucket;
    HoldersLive(s);
    match step
    case CreateKey(id, n) => CreateGrows(s, id, n);
    case Open(_) =>
    case Close(j, exclusive) => DereferenceReleases(s, j, exclusive);
    case CloseLater(_) =>
    case Delete(_) =>
    case Expunge(j, exclusive) => DelistLeaves(s, j); CleanUpReleases(Delist(s, j), j, exclusive);
    case DerefWork => UnqueueKeeps(s); DereferenceReleases(Unqueue(s), s.derefs[0], false);
    case CloseWork => var j := s.closing[|s.closing| - 1]; DelistLeaves(s, j); CleanUpReleases(Delist(s, j), j, false);
    case SetHold(_) =>
  }

  lemma CreateGrows(s: Cache, id: nat, n: NewKey)
    requires Inv(s) && id !in s.kcbs && (n.parent.Some? ==> n.parent.value in s.kcbs)
    ensures s.kcbs.Keys <= Create(s, id, n).1.kcbs.Keys
  {
    hide Tree, Counted, Closed, Hashed, Unique, Lookup, Bucket, Without;
    HoldersLive(s);
  }

  /** t is s with some KCBs freed that nobody held; no holder notices. */
  ghost predicate Spared(s: Cache, t: Cache) {
    && t.kcbs.Keys <= s.kcbs.Keys && t.holders.Keys == t.kcbs.Keys && s.holders.Keys == s.kcbs.Keys
    && (forall j :: j in s.kcbs ==> if j in t.kcbs then t.holders[j] == s.holders[j] else s.holders[j] == 0)
    && (forall j :: j in t.kcbs ==> t.kcbs[j].parent == s.kcbs[j].parent && t.kcbs[j].key == s.kcbs[j].key
                                    && t.kcbs[j].deleted == s.kcbs[j].deleted)
  }

  lemma SparedThrough(s: Cache, t: Cache, u: Cache)
    requires Spared(s, t) && Spared(t, u)
    ensures Spared(s, u)
  {
  }

  lemma SparedKeys(s: Cache, t: Cache)
    requires Spared(s, t)
    ensures t.kcbs.Keys <= s.kcbs.Keys
  {
  }

  lemma InvSpares(s: Cache)
    requires Inv(s)
    ensures Spared(s, s)
  {
    HoldersLive(s);
  }

  lemma DerefWorkSpares(s: Cache)
    requires Inv(s) && s.derefs != []
    ensures Spared(s, Apply(s, DerefWork))
  {
    hide Tree, Counted, Closed, Hashed, Unique, Dereference;
    HoldersLive(s);
    UnqueueKeeps(s);
    DereferenceReleases(Unqueue(s), s.derefs[0], false);
  }

  lemma CloseWorkSpares(s: Cache)
    requires Inv(s) && s.closing != []
    ensures var k := s.closing[|s.closing| - 1];
            k in s.kcbs && s.elements >= 1 && InvBut(Delist(s, k), {k}) && s.kcbs[k].refs == 0
              && Spared(s, CleanUp(Delist(s, k), k, false))
            && k !in CleanUp(Delist(s, k), k, false).kcbs
  {
    hide Tree, Counted, Closed, Hashed, Unique, CleanUp, Without;
    HoldersLive(s);
    var k := s.closing[|s.closing| - 1];
    DelistLeaves(s, k);
    CleanUpReleases(Delist(s, k), k, false);
  }

  // --------------------------------------------------------- the calls, in place

  lemma DerefQueue(s: Cache, k: nat)
    requires Inv(s) && k in s.kcbs && s.holders[k] >= 1
    ensures k in Dereference(s, k, false).kcbs ==> Dereference(s, k, false).derefs == s.derefs
  {
    hide Tree, Counted, Closed, Hashed, Unique, CleanUp;
    DropKeeps(s, k);
    var d := Drop(s, k);
    if d.kcbs[k].refs == 0 && Direct(d, d.kcbs[k]) { CleanUpReleases(d, k, false); }
  }

  lemma DerefWorkShrinks(s: Cache)
    requires Inv(s) && s.derefs != []
    ensures var t := Apply(s, DerefWork);
            |t.kcbs| < |s.kcbs| || (|t.kcbs| == |s.kcbs| && t.derefs == s.derefs[1..])
  {
    hide Tree, Counted, Closed, Hashed, Unique, Dereference, Without;
    UnqueueKeeps(s);
    var k, u := s.derefs[0], Unqueue(s);
    var t := Dereference(u, k, false);
    DereferenceReleases(u, k, false);
    DerefQueue(u, k);
    if k in t.kcbs { assert t.kcbs.Keys == s.kcbs.Keys; } else { assert t.kcbs.Keys == s.kcbs.Keys - {k}; }
    assert |t.kcbs| == |t.kcbs.Keys| && |s.kcbs| == |s.kcbs.Keys|;
  }

  lemma CloseWorkShrinks(s: Cache)
    requires Inv(s) && s.closing != []
    ensures var k := s.closing[|s.closing| - 1];
            && k in s.kcbs && s.elements >= 1 && s.elements == |s.closing| && s.kcbs[k].refs == 0
               && s.kcbs[k].inDelayedClose
            && InvBut(Delist(s, k), {k})
            && Delist(s, k).closing == s.closing[..|s.closing| - 1]
            && CleanUp(Delist(s, k), k, false).closing == s.closing[..|s.closing| - 1]
  {
    hide Tree, Counted, Hashed, Unique, CleanUp, Without;
    var k := s.closing[|s.closing| - 1];
    DelistLeaves(s, k);
    WithoutLast(s.closing);
    CleanUpReleases(Delist(s, k), k, false);
  }

  lemma ClosingLength(s: Cache)
    requires Inv(s)
    ensures s.elements == |s.closing|
  {
  }

  lemma InvParts(s: Cache, k: nat)
    requires Inv(s) && k in s.kcbs
    ensures k in s.holders && s.kcbs[k].refs <= MAX_REFS
    ensures s.kcbs[k].inDelayedClose ==> k in s.closing && s.elements >= 1
  {
  }

  /** The globals of the key cache, changed in place; every method is one call of the source. */
  class KeyCache {
    var kcbs: map<nat, Kcb>
    var table: map<nat, seq<nat>>
    var closing: seq<nat>
    var elements: nat
    var derefs: seq<nat>
    ghost var holders: map<nat, nat>
    var holdLazyFlush: bool

    ghost function State(): Cache
      reads this
    {
      Cache(kcbs, table, closing, elements, derefs, holders, holdLazyFlush)
    }

    constructor (hold: bool)
      ensures State() == Init(hold) && Inv(State())
    {
      kcbs, table, closing, elements, derefs, holders, holdLazyFlush := map[], map[], [], 0, [], map[], hold;
    }

    /** CmpHoldLazyFlush is cleared when lazy flushing starts and set from CmSetLazyFlushState. */
    method SetHoldLazyFlush(hold: bool)
      requires Inv(State())
      modifies this`holdLazyFlush
      ensures State() == old(State()).(holdLazyFlush := hold) && Inv(State())
    {
      HoldKeeps(State(), hold);
      holdLazyFlush := hold;
    }

    /** CmpReferenceKeyControlBlock. */
    method Ref(k: nat) returns (ok: bool)
      requires Inv(State()) && k in kcbs
      modifies this
      ensures ok == (old(kcbs[k].refs) != MAX_REFS)
      ensures match Reference(old(State()), k)
              case None => !ok && State() == old(State())
              case Some(t) => ok && State() == t
      ensures Inv(State())
    {
      hide Inv, Without;
      ghost var s := State();
      ReferenceKeeps(s, k);
      InvParts(s, k);
      var b := kcbs[k];
      if (b.refs + 1) % 0x1_0000 == 0 { return false; }
      kcbs := kcbs[k := b.(refs := b.refs + 1, inDelayedClose := false)];
      holders := holders[k := holders[k] + 1];
      if b.inDelayedClose {
        closing := Without(closing, k);
        elements := elements - 1;
      }
      ok := true;
      assert State() == Reference(s, k).value;
    }

    /** CmpDelayDerefKeyControlBlock. */
    method DelayDereference(k: nat)
      requires Inv(State()) && k in kcbs && k in holders && holders[k] >= 1
      modifies this
      ensures State() == DelayDeref(old(State()), k) && Inv(State())
    {
      hide Tree, Counted, Closed, Hashed, Unique;
      DelayDerefKeeps(State(), k);
      DropKeeps(State(), k);
      if kcbs[k].refs > 1 {
        kcbs := kcbs[k := kcbs[k].(refs := kcbs[k].refs - 1)];
      } else {
        derefs := derefs + [k];
      }
      holders := holders[k := holders[k] - 1];
    }

    /** CmpDereferenceKeyControlBlockWithLock, with CmpAddToDelayedClose. */
    method Deref(k: nat, exclusive: bool)
      requires Inv(State()) && k in kcbs && k in holders && holders[k] >= 1
      modifies this
      ensures State() == Dereference(old(State()), k, exclusive) && Inv(State())
      decreases kcbs[k].levels, 1
    {
      hide Tree, Counted, Closed, Hashed, Unique, CleanUp;
      DropKeeps(State(), k);
      kcbs := kcbs[k := kcbs[k].(refs := kcbs[k].refs - 1)];
      holders := holders[k := holders[k] - 1];
      assert State() == Drop(old(State()), k);
      if kcbs[k].refs == 0 {
        var b := kcbs[k];
        if (holdLazyFlush && !b.symLink) || b.noDelayClose || b.deleted {
          CleanUpKcb(k, exclusive);
        } else {
          kcbs := kcbs[k := b.(inDelayedClose := true)];
          elements := elements + 1;
          closing := [k] + closing;
        }
      }
    }

    /** CmpCleanUpKcbCacheWithLock. */
    method CleanUpKcb(k: nat, exclusive: bool)
      requires InvBut(State(), {k}) && k in kcbs && kcbs[k].refs == 0
      modifies this
      ensures State() == CleanUp(old(State()), k, exclusive) && Inv(State())
      decreases kcbs[k].levels, 0
    {
      hide Tree, Counted, Closed, Hashed, Unique, Dereference;
      ghost var s := State();
      HoldersLive(s);
      TreeAt(s, k);
      DiscardKeeps(s, k);
      var b := kcbs[k];
      if !b.deleted { RemoveKeyHash(k); }
      kcbs := kcbs - {k};
      if b.parent.Some? { holders := holders[b.parent.value := holders[b.parent.value] + 1]; }
      holders := holders - {k};
      assert State() == Discard(s, k);
      if b.parent.Some? {
        if exclusive { Deref(b.parent.value, exclusive); } else { DelayDereference(b.parent.value); }
      }
    }

    /** CmpRemoveKeyHash: the walk always finds the entry. */
    method RemoveKeyHash(k: nat)
      requires Hashed(State()) && k in kcbs && !kcbs[k].deleted
      modifies this`table
      ensures State() == Unhash(old(State()), k)
    {
      hide Bucket;
      var b := Bucket(kcbs[k].key.convKey);
      var chain := if b in table then table[b] else [];
      assert chain == Chain(State(), b) && k in chain;
      var i := 0;
      while chain[i] != k
        invariant 0 <= i < |chain| && k !in chain[..i]
        decreases |chain| - i
      {
        assert chain[..i + 1] == chain[..i] + [chain[i]];
        i := i + 1;
      }
      WithoutAt(chain, i);
      table := table[b := chain[..i] + chain[i + 1..]];
    }

    /** The search of CmpInsertKeyHash. */
    method FindKeyHash(key: Key) returns (f: Option<nat>)
      requires Hashed(State())
      ensures f == Lookup(State(), key)
    {
      hide Bucket;
      var b := Bucket(key.convKey);
      var chain := if b in table then table[b] else [];
      var i := 0;
      assert chain[0..] == chain == Chain(State(), b);
      while i < |chain|
        invariant 0 <= i <= |chain|
        invariant forall k :: k in chain[i..] ==> k in kcbs
        invariant Lookup(State(), key) == Find(State(), chain[i..], key)
      {
        assert chain[i] in Chain(State(), b);
        assert chain[i..][1..] == chain[i + 1..];
        if kcbs[chain[i]].key == key { return Some(chain[i]); }
        i := i + 1;
      }
      f := None;
    }

    /** CmpCreateKeyControlBlock; `id` is the block the allocator hands out. */
    method CreateKcb(id: nat, n: NewKey) returns (k: Option<nat>)
      requires Inv(State()) && id !in kcbs && (n.parent.Some? ==> n.parent.value in kcbs)
      modifies this
      ensures (k, State()) == Create(old(State()), id, n) && Inv(State())
    {
      hide Tree, Counted, Closed, Hashed, Unique, Bucket, Lookup, Reference, Insert, Refresh, Obtained, Refused,
           Created, Children;
      ghost var s := State();
      CreateKeeps(s, id, n);
      HoldersLive(s);
      var key := if n.fake then n.key.(cell := n.key.cell + 1) else n.key;
      var f := FindKeyHash(key);
      if f.Some? {
        assert f.value in kcbs by { LookupExact(s, key, f.value); }
        ReferenceKeeps(s, f.value);
        var ok := Ref(f.value);
        if !ok { return None; }
        ReferenceAdds(s, f.value);
        RefreshFound(f.value, n);
        return f;
      }
      var levels := 1;
      if n.parent.Some? {
        var p := n.parent.value;
        ReferenceKeeps(s, p);
        if kcbs[p].levels + 1 >= LEVEL_LIMIT { return None; }
        var ok := Ref(p);
        if !ok { return None; }
        ReferenceAdds(s, p);
        levels := kcbs[p].levels + 1;
      }
      InsertKcb(id, Kcb(key, n.parent, levels, 1, false, false, n.frozen && !n.symLink, n.symLink, n.fake));
      k := Some(id);
    }

    /** A new KCB at the front of its hash chain, with the reference on its parent. */
    method InsertKcb(id: nat, b: Kcb)
      requires b.parent.Some? ==> b.parent.value in holders && holders[b.parent.value] >= 1
      modifies this`kcbs, this`holders, this`table
      ensures State() == Insert(old(State()), id, b)
    {
      hide Bucket;
      var c := Bucket(b.key.convKey);
      if b.parent.Some? { holders := holders[b.parent.value := holders[b.parent.value] - 1]; }
      kcbs := kcbs[id := b];
      holders := holders[id := 1];
      table := table[c := [id] + if c in table then table[c] else []];
    }

    /** The updates of CmpCreateKeyControlBlock on a KCB that was found. */
    method RefreshFound(k: nat, n: NewKey)
      requires k in kcbs
      modifies this`kcbs
      ensures State() == Refresh(old(State()), k, n)
    {
      if kcbs[k].fake && !n.fake { kcbs := kcbs[k := kcbs[k].(fake := false, noDelayClose := false)]; }
      if n.frozen && !kcbs[k].symLink { kcbs := kcbs[k := kcbs[k].(noDelayClose := true)]; }
    }

    /** CmpDelayDerefKCBWorker: terminates with the queue empty, although cleaning up a KCB may
        queue its parent. */
    method DerefWorker()
      requires Inv(State())
      modifies this
      ensures derefs == [] && Inv(State()) && Spared(old(State()), State())
    {
      hide Tree, Counted, Closed, Hashed, Unique, Dereference, Spared;
      InvSpares(State());
      while derefs != []
        invariant Inv(State()) && Spared(old(State()), State())
        decreases |kcbs|, |derefs|
      {
        ghost var s := State();
        UnqueueKeeps(s);
        DerefWorkShrinks(s);
        var k := derefs[0];
        derefs := derefs[1..];
        holders := holders[k := holders[k] + 1];
        assert State() == Unqueue(s);
        Deref(k, false);
        assert State() == Apply(s, DerefWork);
        DerefWorkSpares(s);
        SparedThrough(old(State()), s, State());
      }
    }

    /** CmpDelayCloseWorker: expels the oldest entries, at most a quarter of the table size, until
        the list fits; an entry it takes is always without references. */
    method CloseWorker()
      requires Inv(State())
      modifies this
      ensures Inv(State())
      ensures old(elements) <= DELAYED_CLOSE_SIZE ==> State() == old(State())
      ensures var n := if old(elements) <= DELAYED_CLOSE_SIZE then 0
                       else if old(elements) - DELAYED_CLOSE_SIZE < 512 then old(elements) - DELAYED_CLOSE_SIZE
                       else 512;
              n <= |old(closing)| && closing == old(closing)[..|old(closing)| - n] && elements == |closing|
              && forall j :: |closing| <= j < |old(closing)| ==> old(closing)[j] !in kcbs
      ensures Spared(old(State()), State())
    {
      hide Inv, Spared;
      var i := 0;
      InvSpares(State());
      ClosingLength(State());
      while i < DELAYED_CLOSE_SIZE / 4 && elements > DELAYED_CLOSE_SIZE
        invariant 0 <= i <= 512 && Inv(State()) && i <= |old(closing)| && elements == |closing|
        invariant closing == old(closing)[..|old(closing)| - i]
        invariant i > 0 ==> elements >= DELAYED_CLOSE_SIZE
        invariant i == 0 ==> State() == old(State())
        invariant Spared(old(State()), State())
        invariant forall j :: |closing| <= j < |old(closing)| ==> old(closing)[j] !in kcbs
        decreases 512 - i
      {
        ghost var s := State();
        ExpelOldest();
        SparedThrough(old(State()), s, State());
        SparedKeys(s, State());
        i := i + 1;
      }
    }

    /** One round of CmpDelayCloseWorker. */
    method ExpelOldest()
      requires Inv(State()) && closing != []
      modifies this
      ensures Inv(State()) && Spared(old(State()), State()) && elements == |closing|
      ensures closing == old(closing)[..|old(closing)| - 1] && old(closing)[|old(closing)| - 1] !in kcbs
    {
      hide Inv, InvBut, CleanUp, Without, Spared;
      ghost var s := State();
      CloseWorkShrinks(s);
      CloseWorkSpares(s);
      var k := closing[|closing| - 1];
      assert kcbs[k].refs == 0 && kcbs[k].inDelayedClose;
      closing := closing[..|closing| - 1];
      elements := elements - 1;
      kcbs := kcbs[k := kcbs[k].(inDelayedClose := false)];
      assert State() == Delist(s, k);
      CleanUpKcb(k, false);
      ClosingLength(State());
    }
  }
}
