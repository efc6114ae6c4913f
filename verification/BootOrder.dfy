/**
 Boot driver ordering: the driver list is grouped by the service group order list, then each
 run of equal groups is sorted by tag, all by relinking nodes of one doubly linked list.
 */
module BootOrder {
  import opened IntrusiveList
  import opened Inversions

  /** A driver node. Group names are compared without case, so `group` is the upper-cased name;
      a driver without a group has the empty one. */
  datatype Driver = Driver(name: string, group: string, tag: nat)

  type Node = Entry<Driver>

  function Tags(s: seq<Node>): (t: seq<int>)
    ensures |t| == |s| && forall i :: 0 <= i < |s| ==> t[i] == s[i].value.tag
  {
    seq(|s|, i requires 0 <= i < |s| => s[i].value.tag)
  }

  ghost predicate Permutation<T>(r: seq<T>, s: seq<T>) {
    multiset(r) == multiset(s)
  }

  /** The first n tags ascend. */
  ghost predicate Ascending(t: seq<int>, n: int) {
    forall i, j :: 0 <= i < j < n && j < |t| ==> t[i] <= t[j]
  }

  // ------------------------------------------------------------ the tag sort

  /** Where CmpOrderGroup relinks the node at i: in front of the node at k, found by walking
      back over larger tags until a tag that is not larger or the start of the segment. */
  ghost predicate Relinks(t: seq<int>, i: nat, k: nat) {
    && k < i < |t| && Ascending(t, i) && t[i - 1] > t[i]
    && (forall j :: k < j < i ==> t[j] > t[i])
    && (t[k] <= t[i] || k == 0)
  }

  lemma RelinkInversions(t: seq<int>, i: nat, k: nat)
    requires Relinks(t, i, k)
    ensures Count(Moved(t, i, k)) < Count(t) || (Count(Moved(t, i, k)) == Count(t) && t[k] < t[i])
  {
    hide Count, Moved;
    var m := t[k..i];
    MovedCount(t, i, k);
    if t[k] > t[i] {
      AllAbove(m, t[i]);
    } else {
      AllAboveButFirst(m, t[i]);
    }
  }

  lemma RelinkDescent(t: seq<int>, i: nat, k: nat)
    requires Relinks(t, i, k) && t[k] < t[i]
    ensures FirstDescent(Moved(t, i, k), 1) < FirstDescent(t, 1)
  {
    var r, d := Moved(t, i, k), FirstDescent(t, 1);
    assert d >= i;
    assert r[k] > r[k + 1];
  }

  /** One relinking makes progress: it removes an inversion, or keeps their number and pulls
      the first descent towards the front; and the segment ascends up to the moved node. */
  lemma RelinkProgress(t: seq<int>, i: nat, k: nat)
    requires Relinks(t, i, k)
    ensures Ascending(Moved(t, i, k), k + 1)
    ensures || Count(Moved(t, i, k)) < Count(t)
            || (Count(Moved(t, i, k)) == Count(t) && FirstDescent(Moved(t, i, k), 1) < FirstDescent(t, 1))
  {
    hide Count, FirstDescent;
    RelinkInversions(t, i, k);
    if t[k] < t[i] { RelinkDescent(t, i, k); }
  }

  lemma MovedPermutes<T>(s: seq<T>, lo: nat, hi: nat, i: nat, k: nat)
    requires lo <= k <= i <= hi < |s|
    ensures Permutation(Moved(s, i, k)[lo..hi + 1], s[lo..hi + 1])
  {
    var r := Moved(s, i, k);
    var a, m, x, b := s[lo..k], s[k..i], [s[i]], s[i + 1..hi + 1];
    assert s[lo..hi + 1] == a + m + x + b;
    assert r[lo..hi + 1] == a + x + m + b;
  }

  ghost predicate Within(r: seq<Node>, s: seq<Node>) {
    |r| == |s| && forall i :: 0 <= i < |r| ==> r[i] in s
  }

  /** r is s with only the segment lo..hi permuted. */
  ghost predicate Reordered(r: seq<Node>, s: seq<Node>, lo: nat, hi: nat)
    requires lo <= hi < |s|
  {
    && Within(r, s)
    && r[..lo] == s[..lo] && r[hi + 1..] == s[hi + 1..]
    && Permutation(r[lo..hi + 1], s[lo..hi + 1])
  }

  ghost function SegmentTags(s: seq<Node>, lo: nat, hi: nat): (t: seq<int>)
    requires lo <= hi < |s|
    ensures |t| == hi + 1 - lo
    ensures forall i :: 0 <= i < |t| ==> t[i] == s[lo + i].value.tag
  {
    Tags(s[lo..hi + 1])
  }

  lemma ReorderedWithin(r: seq<Node>, s: seq<Node>, lo: nat, hi: nat)
    requires lo <= hi < |s| && Reordered(r, s, lo, hi)
    ensures Within(r, s)
  {
  }

  lemma RelinkReorders(r: seq<Node>, s: seq<Node>, lo: nat, hi: nat, c: nat, k: nat)
    requires lo <= k < c <= hi < |s| && Reordered(r, s, lo, hi)
    ensures Reordered(Moved(r, c, k), s, lo, hi)
    ensures SegmentTags(Moved(r, c, k), lo, hi) == Moved(SegmentTags(r, lo, hi), c - lo, k - lo)
  {
    MovedPermutes(r, lo, hi, c, k);
    var m := Moved(r, c, k);
    assert m[..lo] == r[..lo] && m[hi + 1..] == r[hi + 1..];
    forall i | 0 <= i < |m| ensures m[i] in s {
      assert m[i] == if i < k || i > c then r[i] else if i == k then r[c] else r[i - 1];
    }
  }

  /** The inner walk of CmpOrderGroup, back from the node in front of the removed one. */
  method FindSpot(from: Node, tag: nat, start: Node, ghost head: Node, ghost q: seq<Node>, ghost lo: nat, ghost c: nat)
    returns (spot: Node, ghost k: nat)
    requires Ring(head, q) && lo < c <= |q| && q[c - 1] == from && q[lo] == start
    ensures lo <= k < c && q[k] == spot
    ensures forall j :: k < j < c ==> q[j].value.tag > tag
    ensures q[k].value.tag <= tag || k == lo
  {
    spot, k := from, c - 1;
    while spot.value.tag > tag && spot != start
      invariant lo <= k < c && q[k] == spot
      invariant forall j :: k < j < c ==> q[j].value.tag > tag
      decreases k
    {
      Neighbours(head, q, k);
      spot := spot.blink;
      k := k - 1;
    }
  }

  lemma Reinserted<T>(r: seq<T>, c: nat, k: nat)
    requires k <= c < |r|
    ensures var q := r[..c] + r[c + 1..]; q[..k] + [r[c]] + q[k..] == Moved(r, c, k)
  {
  }

  /** Unlinks the node at position c and links it in again at the spot the walk finds. */
  method Relink(current: Node, previous: Node, start: Node, ghost head: Node, ghost s: seq<Node>, ghost r: seq<Node>,
                ghost lo: nat, ghost c: nat)
    returns (spot: Node, ghost k: nat)
    requires Ring(head, r) && Within(r, s) && lo < c < |r|
    requires r[c] == current && r[c - 1] == previous && r[lo] == start
    requires previous.value.tag > current.value.tag
    modifies head, s
    ensures lo <= k < c && r[k] == spot
    ensures forall j :: k < j < c ==> r[j].value.tag > current.value.tag
    ensures r[k].value.tag <= current.value.tag || k == lo
    ensures Ring(head, Moved(r, c, k))
  {
    Neighbours(head, r, c);
    RemoveEntry(current, head, r, c);
    ghost var q := r[..c] + r[c + 1..];
    assert forall j :: 0 <= j < c ==> q[j] == r[j];
    spot, k := FindSpot(previous, current.value.tag, start, head, q, lo, c);
    Neighbours(head, q, k);
    InsertBefore(spot, current, head, q, k);
    Reinserted(r, c, k);
  }

  /** Between two rounds of the loop: r is the list now, c the position of the current node. */
  ghost predicate Scanning(head: Node, s: seq<Node>, r: seq<Node>, lo: nat, hi: nat, c: nat, start: Node, end: Node,
                           current: Node)
    reads head, r
  {
    && lo <= c <= hi < |s| == |r| && Reordered(r, s, lo, hi) && Ring(head, r)
    && r[c] == current && r[lo] == start && r[hi] == end
    && Ascending(SegmentTags(r, lo, hi), c + 1 - lo)
  }

  ghost predicate Progress(r': seq<Node>, r: seq<Node>, lo: nat, hi: nat)
    requires lo <= hi < |r| == |r'|
  {
    var t', t := SegmentTags(r', lo, hi), SegmentTags(r, lo, hi);
    Count(t') < Count(t) || (Count(t') == Count(t) && FirstDescent(t', 1) < FirstDescent(t, 1))
  }

  lemma RelinkScanned(r: seq<Node>, s: seq<Node>, lo: nat, hi: nat, c: nat, k: nat)
    requires lo <= k < c <= hi < |s| == |r| && Reordered(r, s, lo, hi)
    requires Ascending(SegmentTags(r, lo, hi), c - lo) && r[c - 1].value.tag > r[c].value.tag
    requires forall j :: k < j < c ==> r[j].value.tag > r[c].value.tag
    requires r[k].value.tag <= r[c].value.tag || k == lo
    ensures Reordered(Moved(r, c, k), s, lo, hi)
    ensures Ascending(SegmentTags(Moved(r, c, k), lo, hi), k + 1 - lo)
    ensures Progress(Moved(r, c, k), r, lo, hi)
  {
    hide Count, FirstDescent, Reordered, SegmentTags;
    RelinkReorders(r, s, lo, hi, c, k);
    var t := SegmentTags(r, lo, hi);
    forall j | k - lo < j < c - lo ensures t[j] > t[c - lo] { assert t[j] == r[lo + j].value.tag; }
    assert t[c - lo - 1] == r[c - 1].value.tag;
    RelinkProgress(t, c - lo, k - lo);
  }

  lemma ScanOn(r: seq<Node>, lo: nat, hi: nat, c: nat)
    requires lo <= c < hi < |r| && Ascending(SegmentTags(r, lo, hi), c + 1 - lo)
    requires r[c].value.tag <= r[c + 1].value.tag
    ensures Ascending(SegmentTags(r, lo, hi), c + 2 - lo)
  {
    var t := SegmentTags(r, lo, hi);
    assert t[c - lo] == r[c].value.tag && t[c + 1 - lo] == r[c + 1].value.tag;
  }

  /** One round of the loop of CmpOrderGroup. */
  method OrderRound(start: Node, end: Node, at: Node, ghost head: Node, ghost s: seq<Node>, ghost r: seq<Node>,
                    ghost lo: nat, ghost hi: nat, ghost c: nat)
    returns (start': Node, end': Node, current: Node, ghost r': seq<Node>, ghost c': nat)
    requires Scanning(head, s, r, lo, hi, c, start, end, at) && c < hi
    modifies head, s
    ensures Scanning(head, s, r', lo, hi, c', start', end', current)
    ensures || (r' == r && c' == c + 1)
            || (c' <= c && Progress(r', r, lo, hi))
  {
    hide Ring, Distinct, Reordered, SegmentTags, Ascending, Progress;
    start', end', r', c' := start, end, r, c + 1;
    RingDistinct(head, r);
    Positions(head, r, c + 1, hi);
    Neighbours(head, r, c);
    Neighbours(head, r, c + 1);
    var previous := at;
    current := at.flink;
    if previous.value.tag > current.value.tag {
      if current == end { end' := current.blink; }
      ghost var k;
      ReorderedWithin(r, s, lo, hi);
      previous, k := Relink(current, previous, start, head, s, r, lo, c + 1);
      if previous == start { start' := current; }
      Positions(head, r, k, lo);
      RelinkScanned(r, s, lo, hi, c + 1, k);
      r', c' := Moved(r, c + 1, k), k;
    } else {
      ScanOn(r, lo, hi, c);
    }
  }

  lemma ScanStart(head: Node, s: seq<Node>, lo: nat, hi: nat)
    requires Ring(head, s) && lo <= hi < |s|
    ensures Scanning(head, s, s, lo, hi, lo, s[lo], s[hi], s[lo])
  {
  }

  lemma ScanEnd(head: Node, s: seq<Node>, r: seq<Node>, lo: nat, hi: nat, c: nat, start: Node, end: Node, current: Node)
    requires Scanning(head, s, r, lo, hi, c, start, end, current)
    ensures current == end <==> c == hi
  {
  }

  /** CmpOrderGroup on the segment lo..hi of the ring `s`: it terminates, sorts the segment by
      tag, permutes only that segment, and leaves every other node where it was. */
  method OrderGroup(start: Node, end: Node, ghost head: Node, ghost s: seq<Node>, ghost lo: nat, ghost hi: nat)
    returns (ghost r: seq<Node>)
    requires Ring(head, s) && lo <= hi < |s| && s[lo] == start && s[hi] == end
    modifies head, s
    ensures Ring(head, r) && Reordered(r, s, lo, hi)
    ensures Ascending(SegmentTags(r, lo, hi), hi + 1 - lo)
  {
    hide Ring, Reordered, Ascending, Count, FirstDescent, SegmentTags;
    r := s;
    var startNode, endNode, current := start, end, start;
    ghost var c: nat := lo;
    ScanStart(head, s, lo, hi);
    ScanEnd(head, s, r, lo, hi, c, start, end, current);
    if start == end { return; }
    while true
      invariant Scanning(head, s, r, lo, hi, c, startNode, endNode, current) && c < hi
      decreases Count(SegmentTags(r, lo, hi)), FirstDescent(SegmentTags(r, lo, hi), 1), hi - c
    {
      startNode, endNode, current, r, c := OrderRound(startNode, endNode, current, head, s, r, lo, hi, c);
      ScanEnd(head, s, r, lo, hi, c, startNode, endNode, current);
      if current == endNode { break; }
    }
  }

  // ------------------------------------------------------- the group sort

  /** Members of group g, last one first, as repeated insertion at the head leaves them. */
  function Picked(s: seq<Node>, g: string): seq<Node> {
    if s == [] then [] else
      var n := |s| - 1;
      (if s[n].value.group == g then [s[n]] else []) + Picked(s[..n], g)
  }

  /** The others, in their old order. */
  function Others(s: seq<Node>, g: string): seq<Node> {
    if s == [] then [] else
      var n := |s| - 1;
      Others(s[..n], g) + (if s[n].value.group == g then [] else [s[n]])
  }

  lemma {:induction false} PickedGroups(s: seq<Node>, g: string)
    ensures |Picked(s, g)| + |Others(s, g)| == |s|
    ensures forall i :: 0 <= i < |Picked(s, g)| ==> Picked(s, g)[i].value.group == g
    ensures forall i :: 0 <= i < |Others(s, g)| ==> Others(s, g)[i].value.group != g
  {
    if s != [] { PickedGroups(s[..|s| - 1], g); }
  }

  lemma PickedStep(s: seq<Node>, g: string, j: nat)
    requires j < |s|
    ensures Picked(s[..j + 1], g) == if s[j].value.group == g then [s[j]] + Picked(s[..j], g) else Picked(s[..j], g)
    ensures Others(s[..j + 1], g) == if s[j].value.group == g then Others(s[..j], g) else Others(s[..j], g) + [s[j]]
  {
    assert s[..j + 1][..j] == s[..j];
  }

  lemma {:induction false} PickedPermutes(s: seq<Node>, g: string)
    ensures Permutation(Picked(s, g) + Others(s, g), s)
  {
    if s != [] {
      var n := |s| - 1;
      PickedPermutes(s[..n], g);
      assert s[..n + 1] == s == s[..n] + [s[n]];
      PickedStep(s, g, n);
    }
  }

  lemma PermutationWithin(r: seq<Node>, s: seq<Node>)
    requires Permutation(r, s)
    ensures Within(r, s)
  {
    assert |r| == |multiset(r)| == |multiset(s)| == |s|;
    forall i | 0 <= i < |r| ensures r[i] in s { assert r[i] in multiset(r); }
  }

  /** The list after the first j nodes have been looked at for group g. */
  ghost function Pulled(s: seq<Node>, g: string, j: nat): seq<Node>
    requires j <= |s|
  {
    Picked(s[..j], g) + Others(s[..j], g) + s[j..]
  }

  lemma PulledAt(s: seq<Node>, g: string, j: nat)
    requires j < |s|
    ensures var r := Pulled(s, g, j);
            |r| == |s| && r[j] == s[j] && (j + 1 < |s| ==> r[j + 1] == s[j + 1]) && Within(r, s)
  {
    hide Picked, Others;
    PickedGroups(s[..j], g);
    PickedPermutes(s[..j], g);
    assert s == s[..j] + s[j..];
    assert Permutation(Pulled(s, g, j), s);
    PermutationWithin(Pulled(s, g, j), s);
  }

  lemma PulledNext(s: seq<Node>, g: string, j: nat)
    requires j < |s|
    ensures var r := Pulled(s, g, j);
            |r| == |s| && Pulled(s, g, j + 1) == if s[j].value.group == g then [s[j]] + (r[..j] + r[j + 1..]) else r
  {
    hide Picked, Others;
    PickedGroups(s[..j], g);
    PickedStep(s, g, j);
    var p, o, r := Picked(s[..j], g), Others(s[..j], g), Pulled(s, g, j);
    if s[j].value.group == g {
      assert r[..j] == p + o && r[j + 1..] == s[j + 1..];
    } else {
      assert s[j..] == [s[j]] + s[j + 1..];
    }
  }

  lemma PulledEnds(s: seq<Node>, g: string)
    ensures Pulled(s, g, 0) == s
    ensures Pulled(s, g, |s|) == Picked(s, g) + Others(s, g)
  {
    assert s[..|s|] == s;
  }

  method MoveToHead(head: Node, e: Node, ghost s: seq<Node>, ghost r: seq<Node>, ghost j: nat)
    requires Ring(head, r) && Within(r, s) && j < |r| && r[j] == e
    modifies head, s
    ensures Ring(head, [e] + (r[..j] + r[j + 1..]))
  {
    Neighbours(head, r, j);
    RemoveEntry(e, head, r, j);
    FirstLink(head, r[..j] + r[j + 1..]);
    InsertHead(head, e, r[..j] + r[j + 1..]);
  }

  /** One pass of CmpDoSort over the list: the drivers of group g go to the front. */
  method PullGroup(head: Node, g: string, ghost s: seq<Node>) returns (ghost r: seq<Node>)
    requires Ring(head, s)
    modifies head, s
    ensures r == Picked(s, g) + Others(s, g) && Ring(head, r)
  {
    hide Pulled, Picked, Others, Ring;
    r := s;
    var next := head.flink;
    ghost var j: nat := 0;
    PulledEnds(s, g);
    FirstLink(head, s);
    RingDistinct(head, s);
    while next != head
      invariant j <= |s| && r == Pulled(s, g, j) && |r| == |s| && Ring(head, r)
      invariant next == if j < |s| then s[j] else head
      decreases |s| - j
    {
      var current := next;
      PulledAt(s, g, j);
      PulledNext(s, g, j);
      Neighbours(head, r, j);
      next := next.flink;
      if current.value.group == g {
        MoveToHead(head, current, s, r, j);
        r := [current] + (r[..j] + r[j + 1..]);
      }
      j := j + 1;
    }
  }

  /** Position of the first occurrence of g in the order list; its length when g is not listed. */
  function Rank(order: seq<string>, g: string): (k: nat)
    ensures k <= |order| && (k < |order| ==> order[k] == g)
    ensures k == |order| <==> g !in order
    ensures forall i :: 0 <= i < k ==> order[i] != g
  {
    if order == [] then 0 else if order[0] == g then 0 else 1 + Rank(order[1..], g)
  }

  ghost predicate Ranked(s: seq<Node>, order: seq<string>) {
    forall i, j :: 0 <= i < j < |s| ==> Rank(order, s[i].value.group) <= Rank(order, s[j].value.group)
  }

  /** The drivers whose group is not in the order list, in list order. */
  function Unlisted(s: seq<Node>, order: seq<string>): seq<Node> {
    if s == [] then [] else
      var n := |s| - 1;
      Unlisted(s[..n], order) + (if s[n].value.group in order then [] else [s[n]])
  }

  /** r is s after the group sort: ranked by the order list, unlisted drivers in place. */
  ghost predicate GroupOrdered(r: seq<Node>, s: seq<Node>, order: seq<string>) {
    Permutation(r, s) && Ranked(r, order) && Unlisted(r, order) == Unlisted(s, order)
  }

  lemma {:induction false} UnlistedConcat(a: seq<Node>, b: seq<Node>, order: seq<string>)
    ensures Unlisted(a + b, order) == Unlisted(a, order) + Unlisted(b, order)
  {
    if b == [] {
      assert a + b == a;
    } else {
      assert (a + b)[..|a + b| - 1] == a + b[..|b| - 1];
      UnlistedConcat(a, b[..|b| - 1], order);
    }
  }

  lemma {:induction false} UnlistedNone(s: seq<Node>, order: seq<string>)
    requires forall i :: 0 <= i < |s| ==> s[i].value.group in order
    ensures Unlisted(s, order) == []
  {
    if s != [] { UnlistedNone(s[..|s| - 1], order); }
  }

  lemma {:induction false} OthersConcat(a: seq<Node>, b: seq<Node>, g: string)
    ensures Others(a + b, g) == Others(a, g) + Others(b, g)
  {
    if b == [] {
      assert a + b == a;
    } else {
      assert (a + b)[..|a + b| - 1] == a + b[..|b| - 1];
      OthersConcat(a, b[..|b| - 1], g);
    }
  }

  lemma {:induction false} UnlistedCons(s: seq<Node>, g: string, order: seq<string>)
    ensures Unlisted(s, [g] + order) == Others(Unlisted(s, order), g)
  {
    if s != [] {
      var n, x := |s| - 1, s[|s| - 1];
      UnlistedCons(s[..n], g, order);
      var u := Unlisted(s[..n], order);
      if x.value.group in order {
        assert Unlisted(s, order) == u;
      } else {
        OthersConcat(u, [x], g);
        assert [x][..0] == [];
      }
    }
  }

  lemma {:induction false} UnlistedOthers(s: seq<Node>, g: string, order: seq<string>)
    requires g in order
    ensures Unlisted(Others(s, g), order) == Unlisted(s, order)
  {
    if s != [] {
      var n, x := |s| - 1, s[|s| - 1];
      UnlistedOthers(s[..n], g, order);
      if x.value.group != g {
        UnlistedConcat(Others(s[..n], g), [x], order);
        assert [x][..0] == [];
      } else {
        assert Others(s, g) == Others(s[..n], g);
      }
    }
  }

  lemma {:induction false} OthersRanked(s: seq<Node>, g: string, order: seq<string>)
    requires Ranked(s, order)
    ensures Ranked(Others(s, g), order)
    ensures forall i :: 0 <= i < |Others(s, g)| ==> Others(s, g)[i] in s
  {
    if s != [] {
      var n := |s| - 1;
      OthersRanked(s[..n], g, order);
    }
  }

  lemma RankCons(order: seq<string>, g: string, h: string)
    ensures Rank([g] + order, h) == if h == g then 0 else 1 + Rank(order, h)
  {
    assert ([g] + order)[1..] == order;
  }

  /** One more pass, for the group in front of the ones already done. */
  lemma PullOrders(r: seq<Node>, s: seq<Node>, g: string, order: seq<string>)
    requires GroupOrdered(r, s, order)
    ensures GroupOrdered(Picked(r, g) + Others(r, g), s, [g] + order)
  {
    var p, o := Picked(r, g), Others(r, g);
    PickedPermutes(r, g);
    PickedGroups(r, g);
    OthersRanked(r, g, order);
    var q: seq<Node> := p + o;
    forall i, j | 0 <= i < j < |q|
      ensures Rank([g] + order, q[i].value.group) <= Rank([g] + order, q[j].value.group)
    {
      RankCons(order, g, q[i].value.group);
      RankCons(order, g, q[j].value.group);
    }
    UnlistedConcat(p, o, [g] + order);
    UnlistedNone(p, [g] + order);
    UnlistedOthers(r, g, [g] + order);
    UnlistedCons(r, g, order);
    UnlistedCons(s, g, order);
  }

  lemma GroupOrderedNone(s: seq<Node>)
    ensures GroupOrdered(s, s, [])
  {
  }

  lemma GroupOrderedWithin(r: seq<Node>, s: seq<Node>, order: seq<string>)
    requires GroupOrdered(r, s, order)
    ensures Within(r, s)
  {
    PermutationWithin(r, s);
  }

  /** CmpDoSort: the order list from its last group to its first. */
  method DoSort(head: Node, order: seq<string>, ghost s: seq<Node>) returns (ghost r: seq<Node>)
    requires Ring(head, s)
    modifies head, s
    ensures Ring(head, r) && GroupOrdered(r, s, order)
  {
    hide Ring, GroupOrdered, Picked, Others;
    r := s;
    var k := |order|;
    assert order[k..] == [];
    GroupOrderedNone(s);
    while k > 0
      invariant 0 <= k <= |order| && Ring(head, r) && GroupOrdered(r, s, order[k..])
    {
      k := k - 1;
      GroupOrderedWithin(r, s, order[k + 1..]);
      PullOrders(r, s, order[k], order[k + 1..]);
      assert [order[k]] + order[k + 1..] == order[k..];
      r := PullGroup(head, order[k], r);
    }
    assert order[0..] == order;
  }

  // ---------------------------------------------------- sorting every run

  /** The drivers from i to j are all of one group. */
  ghost predicate SameGroup(s: seq<Node>, i: nat, j: nat) {
    i <= j < |s| && forall k :: i <= k <= j ==> s[k].value.group == s[i].value.group
  }

  /** a..b is a maximal stretch of drivers of one group. */
  ghost predicate IsRun(s: seq<Node>, a: nat, b: nat) {
    && a < b <= |s| && SameGroup(s, a, b - 1)
    && (a == 0 || s[a - 1].value.group != s[a].value.group)
    && (b == |s| || s[b].value.group != s[a].value.group)
  }

  /** r is s with every run up to position n sorted by tag in place and the rest as it was. */
  ghost predicate RunsSortedTo(r: seq<Node>, s: seq<Node>, n: nat) {
    && |r| == |s| && n <= |s| && r[n..] == s[n..]
    && (forall i :: 0 <= i < |s| ==> r[i].value.group == s[i].value.group)
    && (forall i: nat, j: nat :: i < j < n && SameGroup(s, i, j) ==> r[i].value.tag <= r[j].value.tag)
    && (forall a: nat, b: nat :: IsRun(s, a, b) && b <= n ==> Permutation(r[a..b], s[a..b]))
  }

  ghost predicate RunsSorted(r: seq<Node>, s: seq<Node>) {
    RunsSortedTo(r, s, |s|)
  }

  lemma RunSorted(r': seq<Node>, r: seq<Node>, s: seq<Node>, a: nat, b: nat)
    requires RunsSortedTo(r, s, a) && IsRun(s, a, b)
    requires Reordered(r', r, a, b - 1) && Ascending(SegmentTags(r', a, b - 1), b - a)
    ensures RunsSortedTo(r', s, b)
  {
    hide SegmentTags, Permutation, Ascending;
    assert r'[b..] == r[b..] == s[b..] by { assert r[b..] == r[a..][b - a..]; }
    RunSortedGroups(r', r, s, a, b);
    RunSortedTags(r', r, s, a, b);
    forall x: nat, y: nat | IsRun(s, x, y) && y <= b ensures Permutation(r'[x..y], s[x..y]) {
      RunSortedPermutes(r', r, s, a, b, x, y);
    }
  }

  lemma RunSortedPermutes(r': seq<Node>, r: seq<Node>, s: seq<Node>, a: nat, b: nat, x: nat, y: nat)
    requires RunsSortedTo(r, s, a) && IsRun(s, a, b) && Reordered(r', r, a, b - 1)
    requires IsRun(s, x, y) && y <= b
    ensures Permutation(r'[x..y], s[x..y])
  {
    RunsDisjoint(s, x, y, a, b);
    if y <= a {
      assert r'[x..y] == r'[..a][x..y] && r[x..y] == r[..a][x..y];
    } else {
      assert r[a..b] == r[a..][..b - a] && s[a..b] == s[a..][..b - a];
    }
  }

  /** Two runs are the same run or do not overlap. */
  lemma RunsDisjoint(s: seq<Node>, x: nat, y: nat, a: nat, b: nat)
    requires IsRun(s, x, y) && IsRun(s, a, b) && y <= b
    ensures y <= a || (x == a && y == b)
  {
    if y > a {
      assert x >= a;
      assert x == a;
      assert y >= b;
    }
  }

  lemma RunSortedGroups(r': seq<Node>, r: seq<Node>, s: seq<Node>, a: nat, b: nat)
    requires RunsSortedTo(r, s, a) && IsRun(s, a, b) && Reordered(r', r, a, b - 1)
    ensures forall i :: 0 <= i < |s| ==> r'[i].value.group == s[i].value.group
  {
    forall i | 0 <= i < |s| ensures r'[i].value.group == s[i].value.group {
      if i < a {
        assert r'[i] == r'[..a][i] == r[i];
      } else if i >= b {
        assert r'[i] == r'[b..][i - b] == r[b..][i - b] == r[i];
      } else {
        assert r'[a..b][i - a] in multiset(r'[a..b]);
        assert r'[i] in r[a..b];
        var k :| 0 <= k < b - a && r[a..b][k] == r'[i];
        assert r[a + k].value.group == s[a + k].value.group;
      }
    }
  }

  lemma RunSortedTags(r': seq<Node>, r: seq<Node>, s: seq<Node>, a: nat, b: nat)
    requires RunsSortedTo(r, s, a) && IsRun(s, a, b) && Reordered(r', r, a, b - 1)
    requires Ascending(SegmentTags(r', a, b - 1), b - a)
    ensures forall i: nat, j: nat :: i < j < b && SameGroup(s, i, j) ==> r'[i].value.tag <= r'[j].value.tag
  {
    var t := SegmentTags(r', a, b - 1);
    forall i: nat, j: nat | i < j < b && SameGroup(s, i, j) ensures r'[i].value.tag <= r'[j].value.tag {
      if j < a {
        assert r'[i] == r'[..a][i] == r[i] && r'[j] == r'[..a][j] == r[j];
      } else {
        assert i >= a;
        assert t[i - a] == r'[i].value.tag && t[j - a] == r'[j].value.tag;
      }
    }
  }

  /** The scan of CmpResolveDriverDependencies for the last node of the run that starts at a. */
  method FindRunEnd(head: Node, start: Node, ghost r: seq<Node>, ghost a: nat)
    returns (end: Node, next: Node, ghost b: nat)
    requires Ring(head, r) && a < |r| && r[a] == start
    ensures a < b <= |r| && SameGroup(r, a, b - 1) && end == r[b - 1]
    ensures next == if b < |r| then r[b] else head
    ensures b < |r| ==> r[b].value.group != r[a].value.group
  {
    RingDistinct(head, r);
    next, end, b := start, start, a;
    while true
      invariant a <= b < |r| && SameGroup(r, a, b) && next == r[b]
      decreases |r| - b
    {
      end := next;
      Neighbours(head, r, b);
      next := next.flink;
      b := b + 1;
      if next == head { break; }
      if next.value.group != start.value.group { break; }
    }
  }

  lemma RunStarts(r: seq<Node>, s: seq<Node>, a: nat, b: nat)
    requires RunsSortedTo(r, s, a) && a < b <= |r| && SameGroup(r, a, b - 1)
    requires a == 0 || s[a - 1].value.group != s[a].value.group
    requires b < |r| ==> r[b].value.group != r[a].value.group
    ensures IsRun(s, a, b)
  {
    forall k | a <= k <= b - 1 ensures s[k].value.group == s[a].value.group {
      assert r[k].value.group == r[a].value.group;
    }
  }

  lemma RunsSortedStart(s: seq<Node>)
    ensures RunsSortedTo(s, s, 0)
  {
  }

  lemma ReorderedPermutes(r: seq<Node>, s: seq<Node>, lo: nat, hi: nat)
    requires lo <= hi < |s| && Reordered(r, s, lo, hi)
    ensures Permutation(r, s)
  {
    assert s == s[..lo] + s[lo..hi + 1] + s[hi + 1..];
    assert r == r[..lo] + r[lo..hi + 1] + r[hi + 1..];
  }

  /** CmpResolveDriverDependencies: every run of equal groups is sorted by tag where it stands. */
  method ResolveDependencies(head: Node, ghost s: seq<Node>) returns (ghost r: seq<Node>)
    requires Ring(head, s)
    modifies head, s
    ensures Ring(head, r) && Permutation(r, s) && RunsSorted(r, s)
  {
    hide Ring, RunsSortedTo, Reordered, Ascending, SegmentTags;
    r := s;
    var next := head.flink;
    ghost var a: nat := 0;
    FirstLink(head, s);
    RingDistinct(head, s);
    RunsSortedStart(s);
    while next != head
      invariant a <= |s| == |r| && Ring(head, r) && Permutation(r, s) && RunsSortedTo(r, s, a)
      invariant next == if a < |s| then r[a] else head
      invariant a == 0 || a == |s| || s[a - 1].value.group != s[a].value.group
      decreases |s| - a
    {
      PermutationWithin(r, s);
      RingDistinct(head, r);
      var end;
      ghost var b, t;
      var start := next;
      end, next, b := FindRunEnd(head, start, r, a);
      RunStarts(r, s, a, b);
      t := OrderGroup(start, end, head, r, a, b - 1);
      RunSorted(t, r, s, a, b);
      ReorderedPermutes(t, r, a, b - 1);
      ReorderedTail(t, r, a, b - 1);
      r, a := t, b;
    }
    RingDistinct(head, r);
  }

  lemma ReorderedTail(r: seq<Node>, s: seq<Node>, lo: nat, hi: nat)
    requires lo <= hi < |s| && Reordered(r, s, lo, hi)
    ensures |r| == |s| && (hi + 1 < |s| ==> r[hi + 1] == s[hi + 1])
  {
    if hi + 1 < |s| { assert r[hi + 1..][0] == s[hi + 1..][0]; }
  }

  // ------------------------------------------------------------ both together

  /** The boot order: listed groups first, by the first place of the group in the order list and
      then by tag; behind them the unlisted drivers, every run of them sorted by tag in place. */
  ghost predicate BootOrdered(r: seq<Node>, s: seq<Node>, order: seq<string>) {
    && Permutation(r, s)
    && Ranked(r, order)
    && (forall i: nat, j: nat :: i < j < |r| && r[i].value.group == r[j].value.group && r[i].value.group in order
                               ==> r[i].value.tag <= r[j].value.tag)
    && RunsSorted(Unlisted(r, order), Unlisted(s, order))
  }

  lemma BetweenEqualRanks(g: seq<Node>, order: seq<string>, i: nat, j: nat)
    requires Ranked(g, order) && i < j < |g| && g[i].value.group == g[j].value.group && g[i].value.group in order
    ensures SameGroup(g, i, j)
  {
    forall k | i <= k <= j ensures g[k].value.group == g[i].value.group {
      assert Rank(order, g[i].value.group) <= Rank(order, g[k].value.group) <= Rank(order, g[j].value.group);
    }
  }

  /** In a ranked list the unlisted drivers are the tail. */
  lemma {:induction false} UnlistedTail(g: seq<Node>, order: seq<string>) returns (p: nat)
    requires Ranked(g, order)
    ensures p <= |g| && Unlisted(g, order) == g[p..]
    ensures forall i :: 0 <= i < |g| ==> (g[i].value.group in order <==> i < p)
  {
    hide Rank;
    if g == [] { return 0; }
    var n := |g| - 1;
    if g[n].value.group in order {
      p := |g|;
      forall i | 0 <= i < |g| ensures g[i].value.group in order {
        assert Rank(order, g[i].value.group) <= Rank(order, g[n].value.group);
      }
      UnlistedNone(g, order);
    } else {
      p := UnlistedTail(g[..n], order);
      assert forall i :: 0 <= i < n ==> g[..n][i] == g[i];
      assert g[p..] == g[..n][p..] + [g[n]];
    }
  }

  lemma RunsSortedSuffix(r: seq<Node>, g: seq<Node>, p: nat)
    requires RunsSorted(r, g) && p <= |g|
    requires 0 < p < |g| ==> g[p - 1].value.group != g[p].value.group
    ensures RunsSorted(r[p..], g[p..])
  {
    var x, y := r[p..], g[p..];
    forall i: nat, j: nat | i < j < |y| && SameGroup(y, i, j) ensures x[i].value.tag <= x[j].value.tag {
      forall k | p + i <= k <= p + j ensures g[k].value.group == g[p + i].value.group {
        assert y[k - p].value.group == y[i].value.group;
      }
      assert SameGroup(g, p + i, p + j);
    }
    forall a: nat, b: nat | IsRun(y, a, b) && b <= |y| ensures Permutation(x[a..b], y[a..b]) {
      SuffixRun(g, p, a, b);
      assert x[a..b] == r[p + a..p + b] && y[a..b] == g[p + a..p + b];
    }
  }

  lemma SuffixRun(g: seq<Node>, p: nat, a: nat, b: nat)
    requires p <= |g| && IsRun(g[p..], a, b)
    requires 0 < p < |g| ==> g[p - 1].value.group != g[p].value.group
    ensures IsRun(g, p + a, p + b)
  {
    var y := g[p..];
    forall k | p + a <= k <= p + b - 1 ensures g[k].value.group == g[p + a].value.group {
      assert y[k - p].value.group == y[a].value.group;
    }
    if a > 0 { assert g[p + a - 1] == y[a - 1]; }
    if b < |y| { assert g[p + b] == y[b]; }
  }

  /** The group sort and the run sort together give the boot order. */
  lemma SortsCompose(r: seq<Node>, g: seq<Node>, s: seq<Node>, order: seq<string>)
    requires GroupOrdered(g, s, order) && RunsSorted(r, g) && Permutation(r, g)
    ensures BootOrdered(r, s, order)
  {
    hide Rank;
    assert Ranked(r, order);
    forall i: nat, j: nat | i < j < |r| && r[i].value.group == r[j].value.group && r[i].value.group in order
      ensures r[i].value.tag <= r[j].value.tag
    {
      BetweenEqualRanks(g, order, i, j);
    }
    var p := UnlistedTail(g, order);
    var q := UnlistedTail(r, order);
    assert p < |g| ==> r[p].value.group == g[p].value.group;
    assert q < |g| ==> r[q].value.group == g[q].value.group;
    assert p == q;
    RunsSortedSuffix(r, g, p);
  }

  /** CmpSortDriverList followed by CmpResolveDriverDependencies. */
  method SortDrivers(head: Node, order: seq<string>, ghost s: seq<Node>) returns (ghost r: seq<Node>)
    requires Ring(head, s)
    modifies head, s
    ensures Ring(head, r) && BootOrdered(r, s, order)
  {
    hide Ring, GroupOrdered, RunsSorted, BootOrdered;
    ghost var g := DoSort(head, order, s);
    GroupOrderedWithin(g, s, order);
    r := ResolveDependencies(head, g);
    SortsCompose(r, g, s, order);
  }
}
