/**
 CmpQueryNameInformation: the full name of a key, counted and then filled in from the leaf back to
 the root. A key is the chain of names from itself up to the root. Lengths are in bytes.
 */
module NameInfo {
  import opened KeyPath

  const NAME_OFFSET: nat := 4

  datatype Status = Success | BufferTooSmall | BufferOverflow

  /** Separator and name of every key from the root down to the leaf, chain[0]. */
  function FullName(chain: seq<string>): string {
    if chain == [] then [] else FullName(chain[1..]) + [SEPARATOR] + chain[0]
  }

  function RootFirst(chain: seq<string>): seq<string> {
    if chain == [] then [] else RootFirst(chain[1..]) + [chain[0]]
  }

  ghost predicate Proper(name: string) {
    name != [] && SEPARATOR !in name
  }

  /** CmpQueryNameInformation. `needed` is ResultLength, `nameLength` what NameLength is set to. */
  method QueryNameInformation(chain: seq<string>, length: nat, name: array<char>)
    returns (status: Status, needed: nat, nameLength: nat)
    requires chain != [] && length <= NAME_OFFSET + 2 * name.Length
    modifies name
    ensures needed == NAME_OFFSET + 2 * |FullName(chain)|
    ensures status == BufferTooSmall <==> length < NAME_OFFSET
    ensures status == Success <==> length >= needed
    ensures status != BufferTooSmall ==> nameLength == 2 * |FullName(chain)|
    ensures status == Success ==> |FullName(chain)| <= name.Length && name[..|FullName(chain)|] == FullName(chain)
    ensures status == Success ==> name[|FullName(chain)|..] == old(name[|FullName(chain)|..]) && name[0] == SEPARATOR
    ensures status != Success ==> name[..] == old(name[..])
  {
    var left := CountName(chain);
    needed, nameLength := NAME_OFFSET + left, 0;
    if length < NAME_OFFSET { return BufferTooSmall, needed, 0; }
    if length < needed { return BufferOverflow, needed, left; }
    nameLength := FillName(chain, left, name);
    StartsWithSeparator(chain);
    assert name[0] == name[..|FullName(chain)|][0];
    status := Success;
  }

  /** The counting loop. */
  method CountName(chain: seq<string>) returns (needed: nat)
    ensures needed == 2 * |FullName(chain)|
  {
    needed := 0;
    var i := 0;
    assert chain[0..] == chain;
    while i < |chain|
      invariant 0 <= i <= |chain| && 2 * |FullName(chain)| == needed + 2 * |FullName(chain[i..])|
    {
      assert chain[i..][1..] == chain[i + 1..];
      needed := needed + 2 * |chain[i]|;
      needed := needed + 2;
      i := i + 1;
    }
    assert chain[i..] == [];
  }

  /** Position `left` bytes into the buffer has everything behind it filled in, and the rest of the
      buffer is untouched. */
  ghost predicate Filled(was: seq<char>, now: seq<char>, full: string, left: nat) {
    && |now| == |was| && left <= |full| <= |now| && now[left..|full|] == full[left..]
    && (forall k :: 0 <= k < left || |full| <= k < |now| ==> now[k] == was[k])
  }

  /** The filling loop, from the leaf back to the root. */
  method FillName(chain: seq<string>, needed: nat, name: array<char>) returns (nameLength: nat)
    requires needed == 2 * |FullName(chain)| <= 2 * name.Length
    modifies name
    ensures nameLength == needed && name[..|FullName(chain)|] == FullName(chain)
    ensures name[|FullName(chain)|..] == old(name[|FullName(chain)|..])
  {
    ghost var full, was := FullName(chain), name[..];
    nameLength := 0;
    var left, i := needed, 0;
    assert chain[0..] == chain;
    while i < |chain|
      invariant 0 <= i <= |chain| && left == 2 * |FullName(chain[i..])| && nameLength + left == needed
      invariant FullName(chain[i..]) <= full && Filled(was, name[..], full, left / 2)
    {
      assert chain[i..][1..] == chain[i + 1..];
      ghost var upper, before := FullName(chain[i + 1..]), name[..];
      assert FullName(chain[i..]) == upper + [SEPARATOR] + chain[i];
      FillOne(chain[i], left, name);
      FilledMore(was, before, name[..], full, upper, chain[i]);
      left := left - 2 * |chain[i]| - 2;
      nameLength := nameLength + 2 * |chain[i]| + 2;
      i := i + 1;
    }
    assert chain[i..] == [];
    FilledAll(was, name[..], full);
  }

  /** One name, in front of what is filled already, and the separator in front of it. */
  method FillOne(part: string, left: nat, name: array<char>)
    requires left % 2 == 0 && 2 * |part| + 2 <= left <= 2 * name.Length
    modifies name
    ensures forall k :: 0 <= k < name.Length ==>
              name[k] == var from := left / 2 - |part|;
                         if from <= k < left / 2 then part[k - from]
                         else if k == from - 1 then SEPARATOR else old(name[k])
  {
    var from := (left - 2 * |part|) / 2;
    forall k | from <= k < from + |part| { name[k] := part[k - from]; }
    name[from - 1] := SEPARATOR;
  }

  lemma FilledAll(was: seq<char>, now: seq<char>, full: string)
    requires Filled(was, now, full, 0)
    ensures now[..|full|] == full && now[|full|..] == was[|full|..]
  {
    assert now[..|full|] == now[0..|full|] == full[0..] == full;
  }

  lemma FilledMore(was: seq<char>, before: seq<char>, now: seq<char>, full: string, upper: string, name: string)
    requires upper + [SEPARATOR] + name <= full && Filled(was, before, full, |upper| + 1 + |name|) && |now| == |before|
    requires forall k :: 0 <= k < |now| ==>
               now[k] == var from := |upper| + 1;
                         if from <= k < from + |name| then name[k - from]
                         else if k == from - 1 then SEPARATOR else before[k]
    ensures Filled(was, now, full, |upper|) && upper <= full
  {
    var part, n := upper + [SEPARATOR] + name, |upper| + 1 + |name|;
    assert full[..n] == part;
    forall k | |upper| <= k < |full| ensures now[k] == full[k] {
      if k < n { assert full[k] == part[k]; } else { assert before[n..|full|][k - n] == full[n..][k - n]; }
    }
  }

  lemma {:induction false} StartsWithSeparator(chain: seq<string>)
    requires chain != []
    ensures FullName(chain) != [] && FullName(chain)[0] == SEPARATOR
  {
    if |chain| > 1 { StartsWithSeparator(chain[1..]); }
  }

  // --------------------------------------------------------------- round trip

  lemma AfterSeparators(p: string, name: string)
    requires Proper(name) && Separators(p) == |p|
    ensures Components(p + ([SEPARATOR] + name)) == [name]
  {
    hide Components, Separators;
    var all, s := p + ([SEPARATOR] + name), |p|;
    forall i | 0 <= i < s ensures p[i] == SEPARATOR { SeparatorAt(p, i); }
    assert all[s + 1..] == name && all[s] == SEPARATOR;
    assert all[s + 1] == name[0] && name[0] in name;
    ComponentsOfName(name);
    SkipSlice(all, 0, s + 1);
    assert all[0..] == all;
  }

  /** A separator and a proper name behind a path add one component. */
  lemma {:induction false} OneMoreComponent(p: string, name: string)
    requires Proper(name)
    ensures Components(p + ([SEPARATOR] + name)) == Components(p) + [name]
    decreases |p|
  {
    hide Separators, NameLength, Components;
    NoComponents(p);
    if Separators(p) == |p| {
      AfterSeparators(p, name);
    } else {
      AfterName(p, [SEPARATOR] + name);
      var q := Skip(p);
      OneMoreComponent(q[NameLength(q)..], name);
    }
  }

  lemma ComponentsOfName(name: string)
    requires Proper(name)
    ensures Components(name) == [name]
  {
    forall i | 0 <= i < |name| ensures name[i] != SEPARATOR { assert name[i] in name; }
    ComponentEnds(name, 0, |name|);
    assert name[0..] == name == name[0..|name|] && name[|name|..] == [];
    NoComponents([]);
  }

  /** Splitting the full name gives the names back, root first, exactly when they all are proper. */
  lemma {:induction false} SplitFullName(chain: seq<string>)
    ensures Components(FullName(chain)) == RootFirst(chain) <==> forall i :: 0 <= i < |chain| ==> Proper(chain[i])
  {
    if forall i :: 0 <= i < |chain| ==> Proper(chain[i]) { SplitProper(chain); }
    else {
      var i :| 0 <= i < |chain| && !Proper(chain[i]);
      RootFirstAt(chain, i);
      if Components(FullName(chain)) == RootFirst(chain) { ComponentsProper(FullName(chain), |chain| - 1 - i); }
    }
  }

  lemma {:induction false} SplitProper(chain: seq<string>)
    requires forall i :: 0 <= i < |chain| ==> Proper(chain[i])
    ensures Components(FullName(chain)) == RootFirst(chain)
  {
    hide Components;
    if chain == [] {
      NoComponents([]);
    } else {
      SplitProper(chain[1..]);
      OneMoreComponent(FullName(chain[1..]), chain[0]);
      assert FullName(chain) == FullName(chain[1..]) + ([SEPARATOR] + chain[0]);
    }
  }

  lemma {:induction false} RootFirstAt(chain: seq<string>, i: nat)
    requires i < |chain|
    ensures |RootFirst(chain)| == |chain| && RootFirst(chain)[|chain| - 1 - i] == chain[i]
  {
    if |chain| > 1 { RootFirstAt(chain[1..], if i == 0 then 0 else i - 1); }
  }

  /** What CmpQueryNameInformation writes, CmpGetNextName reads back: call n yields the name of
      the n-th key from the root. */
  lemma NamesReadBack(chain: seq<string>, n: nat)
    requires n < |chain| && forall i :: 0 <= i < |chain| ==> Proper(chain[i])
    ensures NextName(Remaining(FullName(chain), n)).name == chain[|chain| - 1 - n]
  {
    hide Components, NextName, FullName, RootFirst, Remaining, Proper;
    SplitProper(chain);
    StartsWithSeparator(chain);
    RootFirstAt(chain, |chain| - 1 - n);
    NthName(FullName(chain), n);
  }
}
