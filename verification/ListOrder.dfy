/**
 Lists without repetition whose entries come in at one end only, and leave anywhere: whoever is
 further from that end has been on the list for longer.
 */
module ListOrder {
  import opened Sequences

  /** x comes before y. */
  ghost predicate Before(q: seq<nat>, x: nat, y: nat) {
    exists i, j :: 0 <= i < j < |q| && q[i] == x && q[j] == y
  }

  /** From a to b entries left and others came in at the end: those that stay keep their order and
      are in front of those that came. */
  ghost predicate Grows(a: seq<nat>, b: seq<nat>) {
    forall x, y :: x in b && y in b && x != y && x in a && (y !in a || Before(a, x, y)) ==> Before(b, x, y)
  }

  /** The same with entries that come in at the front. */
  ghost predicate GrowsInFront(a: seq<nat>, b: seq<nat>) {
    forall x, y :: x in b && y in b && x != y && x in a && (y !in a || Before(a, y, x)) ==> Before(b, y, x)
  }

  lemma GrowsSame(a: seq<nat>)
    ensures Grows(a, a) && GrowsInFront(a, a)
  {
  }

  lemma SplicedBefore(a: seq<nat>, k: nat, i: nat, j: nat)
    requires k < |a| && i < j < |a| && i != k && j != k
    ensures Before(a[..k] + a[k + 1..], a[i], a[j])
  {
    var b := a[..k] + a[k + 1..];
    var i', j' := if i < k then i else i - 1, if j < k then j else j - 1;
    assert b[i'] == a[i] && b[j'] == a[j];
  }

  lemma WithoutBeforeAt(a: seq<nat>, k: nat, i: nat, j: nat)
    requires NoDup(a) && k < |a| && i < j < |a| && i != k && j != k
    ensures Before(Without(a, a[k]), a[i], a[j])
  {
    hide Before, Without;
    assert a[k] !in a[..k];
    WithoutAt(a, k);
    SplicedBefore(a, k, i, j);
  }

  lemma WithoutBefore(a: seq<nat>, z: nat, x: nat, y: nat)
    requires NoDup(a) && Before(a, x, y) && x != z && y != z
    ensures Before(Without(a, z), x, y)
  {
    hide Without;
    var i, j :| 0 <= i < j < |a| && a[i] == x && a[j] == y;
    if k :| 0 <= k < |a| && a[k] == z {
      hide Before;
      WithoutBeforeAt(a, k, i, j);
    } else {
      WithoutAbsent(a, z);
    }
  }

  lemma {:induction false} WithoutAbsent(a: seq<nat>, z: nat)
    requires z !in a
    ensures Without(a, z) == a
  {
    if a != [] { WithoutAbsent(a[1..], z); }
  }

  lemma GrowsWithout(a: seq<nat>, z: nat)
    requires NoDup(a)
    ensures Grows(a, Without(a, z)) && GrowsInFront(a, Without(a, z))
  {
    var b := Without(a, z);
    forall x ensures x in b <==> x in a && x != z { WithoutMembers(a, z, x); }
    forall x, y | x in b && y in b && Before(a, x, y) ensures Before(b, x, y) { WithoutBefore(a, z, x, y); }
  }

  lemma GrowsAppend(a: seq<nat>, z: nat)
    requires z !in a
    ensures Grows(a, a + [z])
  {
    var b := a + [z];
    forall x, y | x in b && y in b && x != y && x in a && (y !in a || Before(a, x, y)) ensures Before(b, x, y) {
      if y == z {
        var i :| 0 <= i < |a| && a[i] == x;
        assert b[i] == x && b[|a|] == z;
      } else {
        var i, j :| 0 <= i < j < |a| && a[i] == x && a[j] == y;
        assert b[i] == x && b[j] == y;
      }
    }
  }

  lemma GrowsPrepend(a: seq<nat>, z: nat)
    requires z !in a
    ensures GrowsInFront(a, [z] + a)
  {
    var b := [z] + a;
    forall x, y | x in b && y in b && x != y && x in a && (y !in a || Before(a, y, x)) ensures Before(b, y, x) {
      if y == z {
        var i :| 0 <= i < |a| && a[i] == x;
        assert b[0] == z && b[i + 1] == x;
      } else {
        var i, j :| 0 <= i < j < |a| && a[i] == y && a[j] == x;
        assert b[i + 1] == y && b[j + 1] == x;
      }
    }
  }

  /** x has been on the list since position k of the history. */
  ghost predicate Since(lists: seq<seq<nat>>, k: nat, x: nat) {
    forall l :: k <= l < |lists| ==> x in lists[l]
  }

  /** Who was there without interruption is in front of whoever came later, or was behind it then. */
  lemma {:induction false} OlderInFront(lists: seq<seq<nat>>, k: nat, x: nat, y: nat)
    requires k < |lists| && forall l :: 0 <= l < |lists| - 1 ==> Grows(lists[l], lists[l + 1])
    requires Since(lists, k, x) && x != y && (y !in lists[k] || Before(lists[k], x, y)) && y in lists[|lists| - 1]
    ensures Before(lists[|lists| - 1], x, y)
    decreases |lists|
  {
    hide Grows, Before;
    var n := |lists| - 1;
    if k < n {
      var short := lists[..n];
      assert forall l :: 0 <= l < n ==> short[l] == lists[l];
      assert x in lists[n] && x in lists[n - 1];
      if y in lists[n - 1] { OlderInFront(short, k, x, y); }
      assert Grows(lists[n - 1], lists[n]);
      GrowsAt(lists[n - 1], lists[n], x, y);
    }
  }

  lemma GrowsAt(a: seq<nat>, b: seq<nat>, x: nat, y: nat)
    requires Grows(a, b) && x in b && y in b && x != y && x in a && (y !in a || Before(a, x, y))
    ensures Before(b, x, y)
  {
  }

  lemma {:induction false} OlderBehind(lists: seq<seq<nat>>, k: nat, x: nat, y: nat)
    requires k < |lists| && forall l :: 0 <= l < |lists| - 1 ==> GrowsInFront(lists[l], lists[l + 1])
    requires Since(lists, k, x) && x != y && (y !in lists[k] || Before(lists[k], y, x)) && y in lists[|lists| - 1]
    ensures Before(lists[|lists| - 1], y, x)
    decreases |lists|
  {
    hide GrowsInFront, Before;
    var n := |lists| - 1;
    if k < n {
      var short := lists[..n];
      assert forall l :: 0 <= l < n ==> short[l] == lists[l];
      assert x in lists[n] && x in lists[n - 1];
      if y in lists[n - 1] { OlderBehind(short, k, x, y); }
      assert GrowsInFront(lists[n - 1], lists[n]);
      GrowsInFrontAt(lists[n - 1], lists[n], x, y);
    }
  }

  lemma GrowsInFrontAt(a: seq<nat>, b: seq<nat>, x: nat, y: nat)
    requires GrowsInFront(a, b) && x in b && y in b && x != y && x in a && (y !in a || Before(a, y, x))
    ensures Before(b, y, x)
  {
  }

  /** v is the last entry now, and the others are in the order they had. */
  ghost predicate Recent(a: seq<nat>, b: seq<nat>, v: nat) {
    && b != [] && b[|b| - 1] == v && (forall x :: x in b <==> x in a || x == v)
    && forall x, y :: x != v && y != v && Before(a, x, y) ==> Before(b, x, y)
  }

  lemma WithoutRecent(a: seq<nat>, v: nat)
    requires NoDup(a)
    ensures Recent(a, Without(a, v) + [v], v)
  {
    hide Without;
    var m := Without(a, v);
    forall x ensures x in m <==> x in a && x != v { WithoutMembers(a, v, x); }
    forall x, y | x != v && y != v && Before(a, x, y) ensures Before(m + [v], x, y) {
      WithoutBefore(a, v, x, y);
      var i, j :| 0 <= i < j < |m| && m[i] == x && m[j] == y;
      assert (m + [v])[i] == x && (m + [v])[j] == y;
    }
  }

  lemma AppendRecent(a: seq<nat>, v: nat)
    requires NoDup(a) && v !in a
    ensures Recent(a, Without(a + [v], v) + [v], v)
  {
    WithoutLast(a + [v]);
    assert (a + [v])[..|a|] == a;
    WithoutAbsent(a, v);
    WithoutRecent(a, v);
  }
}
