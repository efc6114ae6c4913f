/**
 The lock arrays of the registry key cache: the bucket indices a path needs, sorted in place and
 stripped of duplicates, so that locks are always taken in ascending order.
 */
module KcbLocks {
  import opened Sequences
  import opened KeyPath

  const ARRAY_LIMIT: nat := DEPTH_LIMIT + 2

  ghost predicate Ascending(s: seq<nat>) {
    forall i, j :: 0 <= i < j < |s| ==> s[i] < s[j]
  }

  ghost predicate Sorted(s: seq<nat>) {
    forall i, j :: 0 <= i < j < |s| ==> s[i] <= s[j]
  }

  ghost predicate SameMembers(s: seq<nat>, t: seq<nat>) {
    forall x :: x in s <==> x in t
  }

  /** Which ascending list has the members of s is determined. */
  lemma {:induction false} AscendingUnique(s: seq<nat>, t: seq<nat>)
    requires Ascending(s) && Ascending(t) && SameMembers(s, t)
    ensures s == t
  {
    assert s != [] ==> s[0] in t;
    assert t != [] ==> t[0] in s;
    if s != [] {
      var a, b := s[|s| - 1], t[|t| - 1];
      assert a in t && b in s;
      assert a == b;
      var u, v := s[..|s| - 1], t[..|t| - 1];
      forall x ensures x in u <==> x in v { ButLast(s, x); ButLast(t, x); }
      AscendingUnique(u, v);
      assert s == u + [a] && t == v + [b];
    }
  }

  lemma ButLast(s: seq<nat>, x: nat)
    requires Ascending(s) && s != []
    ensures x in s[..|s| - 1] <==> x in s && x != s[|s| - 1]
  {
  }

  // ---------------------------------------------------------- the exchange sort

  /** The first i entries are sorted and no entry behind them is smaller. */
  ghost predicate Settled(s: seq<nat>, i: nat) {
    i <= |s| && (forall p, q :: 0 <= p < i && p < q < |s| ==> s[p] <= s[q])
  }

  lemma SwapMembers(s: seq<nat>, i: nat, j: nat)
    requires i < j < |s|
    ensures SameMembers(s[i := s[j]][j := s[i]], s)
  {
    var t := s[i := s[j]][j := s[i]];
    forall x ensures x in t <==> x in s {
      if x in s { var k :| 0 <= k < |s| && s[k] == x; assert t[if k == i then j else if k == j then i else k] == x; }
      if x in t { var k :| 0 <= k < |t| && t[k] == x; assert s[if k == i then j else if k == j then i else k] == x; }
    }
  }

  lemma SwapSettled(s: seq<nat>, i: nat, j: nat)
    requires i < j < |s| && Settled(s, i)
    ensures Settled(s[i := s[j]][j := s[i]], i)
  {
  }

  lemma LeastSettled(s: seq<nat>, i: nat)
    requires i < |s| && Settled(s, i) && forall q :: i <= q < |s| ==> s[i] <= s[q]
    ensures Settled(s, i + 1)
  {
  }

  lemma EntryAt(a: array<nat>, n: nat, k: nat)
    requires 1 <= k <= n < a.Length
    ensures a[1..n + 1][k - 1] == a[k]
  {
  }

  /** The swap of entries i and j. */
  method Exchange(a: array<nat>, n: nat, i: nat, j: nat)
    requires 1 <= i < j <= n < a.Length
    modifies a
    ensures var s := old(a[1..n + 1]); a[1..n + 1] == s[i - 1 := s[j - 1]][j - 1 := s[i - 1]]
    ensures a[i] == old(a[j]) && a[j] == old(a[i])
    ensures forall q :: 0 <= q < a.Length && q != i && q != j ==> a[q] == old(a[q])
  {
    a[i], a[j] := a[j], a[i];
  }

  /** The inner loop: entry i becomes the least of what is left. */
  method Sweep(a: array<nat>, n: nat, i: nat)
    requires 1 <= i <= n < a.Length && Settled(a[1..n + 1], i - 1)
    modifies a
    ensures Settled(a[1..n + 1], i) && SameMembers(a[1..n + 1], old(a[1..n + 1])) && a[0] == old(a[0])
  {
    hide Settled;
    ghost var was := a[1..n + 1];
    var j := i + 1;
    while j <= n
      invariant i < j <= n + 1 && a[0] == old(a[0])
      invariant Settled(a[1..n + 1], i - 1) && SameMembers(a[1..n + 1], was)
      invariant forall q :: i <= q < j ==> a[i] <= a[q]
    {
      if a[i] > a[j] {
        ghost var s := a[1..n + 1];
        SwapMembers(s, i - 1, j - 1);
        SwapSettled(s, i - 1, j - 1);
        Exchange(a, n, i, j);
      }
      j := j + 1;
    }
    ghost var s := a[1..n + 1];
    forall q | i - 1 <= q < |s| ensures s[i - 1] <= s[q] {
      EntryAt(a, n, i);
      EntryAt(a, n, q + 1);
    }
    LeastSettled(s, i - 1);
  }

  // ------------------------------------------------------------ the compaction

  lemma CloseUpMembers(s: seq<nat>, i: nat)
    requires i + 1 < |s| && s[i] == s[i + 1]
    ensures SameMembers(s[..i] + s[i + 1..], s)
  {
    forall x ensures x in s[..i] + s[i + 1..] <==> x in s {
      if x == s[i] { assert (s[..i] + s[i + 1..])[i] == x; }
      assert s == s[..i] + [s[i]] + s[i + 1..];
    }
  }

  /** The shift of the compaction: entries from j on move down by one. */
  method CloseUp(a: array<nat>, n: nat, j: nat)
    requires 2 <= j <= n < a.Length
    modifies a
    ensures a[1..n] == old(a[1..n + 1])[..j - 2] + old(a[1..n + 1])[j - 1..] && a[0] == old(a[0])
  {
    ghost var was := a[..];
    var k := j;
    while k <= n
      invariant j <= k <= n + 1
      invariant forall q :: 0 <= q < j - 1 ==> a[q] == was[q]
      invariant forall q :: j - 1 <= q < k - 1 ==> a[q] == was[q + 1]
      invariant forall q :: k - 1 <= q < a.Length ==> a[q] == was[q]
    {
      a[k - 1] := a[k];
      k := k + 1;
    }
    ghost var down := was[1..n + 1][..j - 2] + was[1..n + 1][j - 1..];
    assert forall q :: 1 <= q < n ==> a[q] == down[q - 1];
  }

  /** The first i entries are each below everything behind them. */
  ghost predicate Distinct(s: seq<nat>, i: nat) {
    i <= |s| && forall p, q :: 0 <= p < i && p < q < |s| ==> s[p] < s[q]
  }

  lemma CloseUpKeeps(s: seq<nat>, i: nat)
    requires i + 1 < |s| && s[i] == s[i + 1] && Sorted(s) && Distinct(s, i)
    ensures Sorted(s[..i] + s[i + 1..]) && Distinct(s[..i] + s[i + 1..], i)
  {
    var t := s[..i] + s[i + 1..];
    assert forall q :: 0 <= q < |t| ==> t[q] == if q < i then s[q] else s[q + 1];
  }

  lemma SortedAt(s: seq<nat>, i: nat, j: nat)
    requires Sorted(s) && i <= j < |s|
    ensures s[i] <= s[j]
  {
  }

  lemma DistinctMore(s: seq<nat>, i: nat)
    requires Distinct(s, i) && i < |s| && Sorted(s) && (i + 1 < |s| ==> s[i] < s[i + 1])
    ensures Distinct(s, i + 1)
  {
    forall q | i < q < |s| ensures s[i] < s[q] { SortedAt(s, i + 1, q); }
  }

  lemma MembersThrough(s: seq<nat>, t: seq<nat>, u: seq<nat>)
    requires SameMembers(s, t) && SameMembers(t, u)
    ensures SameMembers(s, u)
  {
  }

  /** Entry i equals the one behind it, which goes. */
  method DropEqual(a: array<nat>, n: nat, i: nat)
    requires 1 <= i < n < a.Length && Sorted(a[1..n + 1]) && Distinct(a[1..n + 1], i - 1) && a[i] == a[i + 1]
    modifies a
    ensures Sorted(a[1..n]) && Distinct(a[1..n], i - 1) && SameMembers(a[1..n], old(a[1..n + 1])) && a[0] == old(a[0])
  {
    hide Sorted, Distinct, SameMembers;
    ghost var s := a[1..n + 1];
    EntryAt(a, n, i);
    EntryAt(a, n, i + 1);
    CloseUp(a, n, i + 1);
    CloseUpKeeps(s, i - 1);
    CloseUpMembers(s, i - 1);
  }

  /** The body of the compaction loop: afterwards nothing behind entry i equals it. */
  method Compact(a: array<nat>, n: nat, i: nat) returns (m: nat)
    requires 1 <= i <= n < a.Length && Sorted(a[1..n + 1]) && Distinct(a[1..n + 1], i - 1)
    modifies a
    ensures i <= m <= n && Sorted(a[1..m + 1]) && Distinct(a[1..m + 1], i)
    ensures SameMembers(a[1..m + 1], old(a[1..n + 1])) && a[0] == old(a[0])
  {
    ghost var was := a[1..n + 1];
    MembersSame(was);
    hide Sorted, Distinct, SameMembers;
    m := n;
    var j := i + 1;
    while j <= m
      invariant i < j <= m + 1 <= n + 1 && a[0] == old(a[0])
      invariant Sorted(a[1..m + 1]) && Distinct(a[1..m + 1], i - 1) && SameMembers(a[1..m + 1], was)
      invariant i + 1 < j ==> a[i] < a[i + 1]
      decreases m - j
    {
      ghost var s := a[1..m + 1];
      EntryAt(a, m, i);
      EntryAt(a, m, i + 1);
      EntryAt(a, m, j);
      NotEqualLater(s, i - 1, j - 1);
      if a[i] == a[j] {
        DropEqual(a, m, i);
        MembersThrough(a[1..m], s, was);
        m := m - 1;
      } else {
        j := j + 1;
      }
    }
    EntryAt(a, m, i);
    if i < m { EntryAt(a, m, i + 1); }
    DistinctMore(a[1..m + 1], i - 1);
  }

  lemma MembersSame(s: seq<nat>)
    ensures SameMembers(s, s)
  {
  }

  /** In a sorted list an entry that the next one exceeds is equal to none behind it. */
  lemma NotEqualLater(s: seq<nat>, i: nat, j: nat)
    requires Sorted(s) && i < j < |s| && (i + 1 < j ==> s[i] < s[i + 1])
    ensures (s[i] == s[j] ==> j == i + 1) && s[i] <= s[j]
  {
  }

  /** CmpSortKcbArray: entry 0 counts the entries behind it; afterwards these are the same
      indices in strictly ascending order, each once. */
  method SortKcbArray(a: array<nat>)
    requires 0 < a.Length && a[0] < a.Length
    modifies a
    ensures a[0] <= old(a[0]) < a.Length
    ensures Ascending(a[1..a[0] + 1]) && SameMembers(a[1..a[0] + 1], old(a[1..a[0] + 1]))
  {
    var count := a[0];
    ghost var was := a[1..count + 1];
    var i := 1;
    while i <= count
      invariant 1 <= i <= count + 1 && a[0] == count && Settled(a[1..count + 1], i - 1)
      invariant SameMembers(a[1..count + 1], was)
    {
      Sweep(a, count, i);
      i := i + 1;
    }
    i := 1;
    while i <= count
      invariant 1 <= i <= count + 1 <= a.Length && count <= a[0] == old(a[0])
      invariant Sorted(a[1..count + 1]) && Distinct(a[1..count + 1], i - 1) && SameMembers(a[1..count + 1], was)
      decreases count - i
    {
      count := Compact(a, count, i);
      i := i + 1;
    }
    ghost var done := a[1..count + 1];
    a[0] := count;
    assert a[1..count + 1] == done;
  }

  // ------------------------------------------------------- building and locking

  /** The entries CmpBuildAndLockKcbArray collects, in the order it writes them. */
  function Collected(parent: Option<nat>, kcb: nat, stack: seq<nat>, total: nat, matched: nat): (r: seq<nat>)
    requires total <= |stack|
  {
    (if parent.Some? && total == matched then [parent.value] else []) + [kcb] + stack[..total]
  }

  /** Up to the depth limit the entries fit, except when all of a path of full depth is matched; the
      callers match nothing, or pass a path that is not all matched. */
  lemma CollectedFits(parent: Option<nat>, kcb: nat, stack: seq<nat>, total: nat, matched: nat)
    requires total <= |stack| && total <= DEPTH_LIMIT && matched <= total
    ensures |Collected(parent, kcb, stack, total, matched)| < ARRAY_LIMIT <==>
            !(parent.Some? && total == matched == DEPTH_LIMIT)
    ensures matched == 0 || total != matched ==> |Collected(parent, kcb, stack, total, matched)| < ARRAY_LIMIT
  {
  }

  /** CmpBuildAndLockKcbArray: `stack` holds the bucket indices of the hash stack. The locks are
      taken in strictly ascending order, each once, and they are exactly the collected ones.
      `order` is the order of acquisition. */
  method BuildAndLock(a: array<nat>, parent: Option<nat>, kcb: nat, stack: seq<nat>, total: nat, matched: nat)
    returns (order: seq<nat>)
    requires a.Length == ARRAY_LIMIT && total <= |stack| && matched <= total
    requires |Collected(parent, kcb, stack, total, matched)| < ARRAY_LIMIT
    modifies a
    ensures Ascending(order) && SameMembers(order, Collected(parent, kcb, stack, total, matched))
    ensures a[0] < a.Length && order == a[1..a[0] + 1]
  {
    ghost var all := Collected(parent, kcb, stack, total, matched);
    var next := 1;
    if parent.Some? && total == matched {
      a[next] := parent.value;
      next := next + 1;
    }
    a[next] := kcb;
    next := next + 1;
    var i := 0;
    while i < total
      invariant 0 <= i <= total && next == 1 + |all| - total + i <= a.Length
      invariant a[1..next] == all[..next - 1]
    {
      a[next] := stack[i];
      assert a[1..next + 1] == a[1..next] + [stack[i]] && all[..next] == all[..next - 1] + [stack[i]];
      next := next + 1;
      i := i + 1;
    }
    a[0] := next - 1;
    assert a[1..a[0] + 1] == all;
    SortKcbArray(a);
    order := LockKcbArray(a);
  }

  /** CmpLockKcbArray: the order of acquisition. */
  method LockKcbArray(a: array<nat>) returns (order: seq<nat>)
    requires 0 < a.Length && a[0] < a.Length
    ensures order == a[1..a[0] + 1]
  {
    order := [];
    var i := 1;
    while i <= a[0]
      invariant 1 <= i <= a[0] + 1 && order == a[1..i]
    {
      order := order + [a[i]];
      i := i + 1;
    }
  }

  /** CmpUnLockKcbArray: the order of release is the reverse of that of acquisition. */
  method UnLockKcbArray(a: array<nat>) returns (order: seq<nat>)
    requires 0 < a.Length && a[0] < a.Length
    ensures |order| == a[0] && forall k :: 0 <= k < |order| ==> order[k] == a[1..a[0] + 1][a[0] - 1 - k]
  {
    order := [];
    var i := a[0];
    while i > 0
      invariant 0 <= i <= a[0] && |order| == a[0] - i
      invariant forall k :: 0 <= k < |order| ==> order[k] == a[a[0] - k]
    {
      order := order + [a[i]];
      i := i - 1;
    }
  }

  /** CmpAcquireTwoKcbLocksExclusiveByKey and CmpReleaseTwoKcbLockByKey. */
  method TwoKcbLocks(index1: nat, index2: nat) returns (acquired: seq<nat>, released: seq<nat>)
    ensures Ascending(acquired) && SameMembers(acquired, [index1, index2])
    ensures |released| == |acquired| && forall k :: 0 <= k < |released| ==> released[k] == acquired[|acquired| - 1 - k]
  {
    if index1 < index2 {
      acquired, released := [index1, index2], [index2, index1];
    } else {
      acquired, released := [index2], [];
      if index1 != index2 { acquired, released := acquired + [index1], released + [index1]; }
      released := released + [index2];
    }
  }
}
