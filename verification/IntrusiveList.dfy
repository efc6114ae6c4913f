/**
 The kernel's doubly linked lists at the level of their links: every entry has a forward and
 a backward link, an empty or detached entry points to itself, and a list is the ring through
 its head. `Ring(head, s)` says that the ring through `head` visits exactly `s`, in order.
 */
module IntrusiveList {

  class Entry<T> {
    const value: T
    var flink: Entry<T>
    var blink: Entry<T>

    /** InitializeListHead. */
    constructor (v: T)
      ensures value == v && SelfLinked()
    {
      value := v;
      flink := this;
      blink := this;
    }

    ghost predicate SelfLinked()
      reads this
    {
      flink == this && blink == this
    }
  }

  ghost predicate Distinct<T>(head: Entry<T>, s: seq<Entry<T>>) {
    head !in s && forall i, j :: 0 <= i < j < |s| ==> s[i] != s[j]
  }

  /** The way once around the ring. */
  ghost function Around<T>(head: Entry<T>, s: seq<Entry<T>>): (p: seq<Entry<T>>)
    ensures |p| == |s| + 2
  {
    [head] + s + [head]
  }

  ghost predicate Linked<T>(a: Entry<T>, b: Entry<T>)
    reads a, b
  {
    a.flink == b && b.blink == a
  }

  ghost predicate Ring<T>(head: Entry<T>, s: seq<Entry<T>>)
    reads head, s
  {
    var p := Around(head, s);
    Distinct(head, s) && forall i :: 0 <= i <= |s| ==> Linked(p[i], p[i + 1])
  }

  /** Where the links of the i-th entry lead. */
  lemma Neighbours<T>(head: Entry<T>, s: seq<Entry<T>>, i: nat)
    requires Ring(head, s) && i < |s|
    ensures s[i].flink == if i + 1 < |s| then s[i + 1] else head
    ensures s[i].blink == if i > 0 then s[i - 1] else head
  {
    var p := Around(head, s);
    assert Linked(p[i], p[i + 1]) && Linked(p[i + 1], p[i + 2]);
  }

  lemma FirstLink<T>(head: Entry<T>, s: seq<Entry<T>>)
    requires Ring(head, s)
    ensures head.flink == if s == [] then head else s[0]
  {
    var p := Around(head, s);
    assert Linked(p[0], p[1]);
  }

  lemma Positions<T>(head: Entry<T>, s: seq<Entry<T>>, i: nat, j: nat)
    requires Distinct(head, s) && i < |s| && j < |s|
    ensures s[i] == s[j] <==> i == j
  {
  }

  lemma RingDistinct<T>(head: Entry<T>, s: seq<Entry<T>>)
    requires Ring(head, s)
    ensures Distinct(head, s)
  {
  }

  /** RemoveEntryList: two stores, whatever the entry is. */
  method Unlink<T>(e: Entry<T>)
    modifies e.flink`blink, e.blink`flink
    ensures old(e.blink).flink == old(e.flink) && old(e.flink).blink == old(e.blink)
    ensures old(e.SelfLinked()) ==> e.SelfLinked()
  {
    var flink, blink := e.flink, e.blink;
    blink.flink := flink;
    flink.blink := blink;
  }

  /** RemoveEntryList on a linked entry takes exactly that entry out of the ring. */
  method RemoveEntry<T>(e: Entry<T>, ghost head: Entry<T>, ghost s: seq<Entry<T>>, ghost i: nat)
    requires Ring(head, s) && i < |s| && s[i] == e
    modifies e.flink`blink, e.blink`flink
    ensures Ring(head, s[..i] + s[i + 1..])
    ensures e !in s[..i] + s[i + 1..]
  {
    ghost var r := s[..i] + s[i + 1..];
    ghost var p, q := Around(head, s), Around(head, r);
    assert Linked(p[i], p[i + 1]) && Linked(p[i + 1], p[i + 2]);
    assert forall k :: 0 <= k < |r| ==> r[k] == if k < i then s[k] else s[k + 1];
    Unlink(e);
    forall k | 0 <= k <= |r| ensures Linked(q[k], q[k + 1]) {
      if k < i { assert old(Linked(p[k], p[k + 1])); }
      if k > i { assert old(Linked(p[k + 1], p[k + 2])); }
    }
  }

  /** InsertTailList(at, e): links e in front of `at`. */
  method InsertBefore<T>(at: Entry<T>, e: Entry<T>, ghost head: Entry<T>, ghost s: seq<Entry<T>>, ghost i: nat)
    requires Ring(head, s) && i <= |s| && at == Around(head, s)[i + 1]
    requires e != head && e !in s
    modifies e, at`blink, at.blink`flink
    ensures Ring(head, s[..i] + [e] + s[i..])
  {
    ghost var r := s[..i] + [e] + s[i..];
    ghost var p, q := Around(head, s), Around(head, r);
    assert Linked(p[i], p[i + 1]);
    assert forall k :: 0 <= k < |r| ==> r[k] == if k < i then s[k] else if k == i then e else s[k - 1];
    var blink := at.blink;
    e.flink := at;
    e.blink := blink;
    blink.flink := e;
    at.blink := e;
    forall k | 0 <= k <= |r| ensures Linked(q[k], q[k + 1]) {
      if k < i { assert old(Linked(p[k], p[k + 1])); }
      if k > i + 1 { assert old(Linked(p[k - 1], p[k])); }
    }
  }

  /** InsertHeadList(head, e): links e right behind the head. */
  method InsertHead<T>(head: Entry<T>, e: Entry<T>, ghost s: seq<Entry<T>>)
    requires Ring(head, s) && e != head && e !in s
    modifies e, head`flink, head.flink`blink
    ensures Ring(head, [e] + s)
  {
    ghost var r := [e] + s;
    ghost var p, q := Around(head, s), Around(head, r);
    assert Linked(p[0], p[1]);
    var flink := head.flink;
    e.flink := flink;
    e.blink := head;
    flink.blink := e;
    head.flink := e;
    forall k | 0 <= k <= |r| ensures Linked(q[k], q[k + 1]) {
      if k > 1 { assert old(Linked(p[k - 1], p[k])); }
    }
  }
}
