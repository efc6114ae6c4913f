/** Counting inversions of a sequence of tags, the progress measure of the tag sort. */
module Inversions {

  function Greater(s: seq<int>, x: int): nat {
    if s == [] then 0 else Greater(s[..|s| - 1], x) + (if s[|s| - 1] > x then 1 else 0)
  }

  function Smaller(s: seq<int>, x: int): nat {
    if s == [] then 0 else Smaller(s[..|s| - 1], x) + (if s[|s| - 1] < x then 1 else 0)
  }

  /** Number of pairs that stand in the wrong order. */
  function Count(s: seq<int>): nat {
    if s == [] then 0 else Count(s[..|s| - 1]) + Greater(s[..|s| - 1], s[|s| - 1])
  }

  lemma {:induction false} GreaterConcat(a: seq<int>, b: seq<int>, x: int)
    ensures Greater(a + b, x) == Greater(a, x) + Greater(b, x)
  {
    if b == [] {
      assert a + b == a;
    } else {
      assert (a + b)[..|a + b| - 1] == a + b[..|b| - 1];
      GreaterConcat(a, b[..|b| - 1], x);
    }
  }

  /** Moving x from behind m to in front of m trades the elements of m above x for those below. */
  lemma {:induction false} MoveFront(p: seq<int>, m: seq<int>, x: int)
    ensures Count(p + [x] + m) == Count(p + m + [x]) - Greater(m, x) + Smaller(m, x)
  {
    if m == [] {
      assert p + m == p && p + [x] + m == p + [x];
    } else {
      var n, y := m[..|m| - 1], m[|m| - 1];
      MoveFront(p, n, x);
      assert (p + m + [x])[..|p| + |m|] == p + m;
      assert (p + n + [x])[..|p| + |n|] == p + n;
      assert (p + [x] + m)[..|p| + |m|] == p + [x] + n;
      assert (p + m)[..|p| + |n|] == p + n;
      GreaterConcat(p, m, x);
      GreaterConcat(p, n, x);
      GreaterConcat(p + [x], n, y);
      GreaterConcat(p, [x], y);
      GreaterConcat(p, n, y);
      assert Greater([x], y) == if x > y then 1 else 0;
    }
  }

  /** What follows the moved stretch sees the same elements in front of it. */
  lemma {:induction false} CountSuffix(a: seq<int>, b: seq<int>, q: seq<int>)
    requires forall x :: Greater(a, x) == Greater(b, x)
    ensures Count(a + q) - Count(a) == Count(b + q) - Count(b)
  {
    if q == [] {
      assert a + q == a && b + q == b;
    } else {
      var n, y := q[..|q| - 1], q[|q| - 1];
      CountSuffix(a, b, n);
      assert (a + q)[..|a + q| - 1] == a + n && (b + q)[..|b + q| - 1] == b + n;
      GreaterConcat(a, n, y);
      GreaterConcat(b, n, y);
    }
  }

  /** The element at i moves to position k in front of it. */
  function Moved<T>(s: seq<T>, i: nat, k: nat): (r: seq<T>)
    requires k <= i < |s|
    ensures |r| == |s| && r[k] == s[i]
    ensures forall j :: 0 <= j < k || i < j < |s| ==> r[j] == s[j]
    ensures forall j :: k < j <= i ==> r[j] == s[j - 1]
  {
    s[..k] + [s[i]] + s[k..i] + s[i + 1..]
  }

  lemma RotateGreater(p: seq<int>, m: seq<int>, x: int, y: int)
    ensures Greater(p + [x] + m, y) == Greater(p + m + [x], y)
  {
    GreaterConcat(p + [x], m, y);
    GreaterConcat(p, [x], y);
    GreaterConcat(p + m, [x], y);
    GreaterConcat(p, m, y);
  }

  lemma MoveInside(p: seq<int>, m: seq<int>, x: int, q: seq<int>)
    ensures Count(p + [x] + m + q) == Count(p + m + [x] + q) - Greater(m, x) + Smaller(m, x)
  {
    MoveFront(p, m, x);
    forall y ensures Greater(p + [x] + m, y) == Greater(p + m + [x], y) { RotateGreater(p, m, x, y); }
    CountSuffix(p + [x] + m, p + m + [x], q);
  }

  lemma Pieces<T>(s: seq<T>, i: nat, k: nat)
    requires k <= i < |s|
    ensures s == s[..k] + s[k..i] + [s[i]] + s[i + 1..]
  {
  }

  lemma MovedCount(s: seq<int>, i: nat, k: nat)
    requires k <= i < |s|
    ensures Count(Moved(s, i, k)) == Count(s) - Greater(s[k..i], s[i]) + Smaller(s[k..i], s[i])
  {
    var t := s[..k] + s[k..i] + [s[i]] + s[i + 1..];
    assert t == s by { Pieces(s, i, k); }
    MoveInside(s[..k], s[k..i], s[i], s[i + 1..]);
  }

  lemma {:induction false} AllAbove(m: seq<int>, x: int)
    requires forall j :: 0 <= j < |m| ==> m[j] > x
    ensures Greater(m, x) == |m| && Smaller(m, x) == 0
  {
    if m != [] { AllAbove(m[..|m| - 1], x); }
  }

  lemma {:induction false} AllAboveButFirst(m: seq<int>, x: int)
    requires |m| >= 1 && m[0] <= x && forall j :: 1 <= j < |m| ==> m[j] > x
    ensures Greater(m, x) == |m| - 1 && Smaller(m, x) == if m[0] < x then 1 else 0
  {
    if |m| > 1 {
      AllAboveButFirst(m[..|m| - 1], x);
    } else {
      assert m[..0] == [];
    }
  }

  /** Position of the first element smaller than its predecessor, or |s| when s ascends. */
  function FirstDescent(s: seq<int>, from: nat): (d: nat)
    requires 1 <= from
    ensures d == |s| || from <= d
    ensures from <= d < |s| ==> s[d - 1] > s[d]
    ensures forall j :: from <= j < d && j < |s| ==> s[j - 1] <= s[j]
    decreases |s| - from
  {
    if from >= |s| then |s| else if s[from - 1] > s[from] then from else FirstDescent(s, from + 1)
  }
}
