/**
 Registry paths: splitting a path into key names, the one-pass hash stack, and taking the matched
 names off the front of a path. Characters are UTF-16 units; `upcase` is RtlUpcaseUnicodeChar.
 */
module KeyPath {

  const SEPARATOR := '\\'
  const NUL := '\0'
  const DEPTH_LIMIT: nat := 32
  const MAX_NAME: nat := 256

  // ------------------------------------------------------------ the reference

  /** How many separators p starts with. */
  function Separators(p: string): (n: nat)
    ensures n <= |p| && (n < |p| ==> p[n] != SEPARATOR)
  {
    if p != [] && p[0] == SEPARATOR then 1 + Separators(p[1..]) else 0
  }

  /** How many characters p starts with before a separator. */
  function NameLength(p: string): (n: nat)
    ensures n <= |p| && (n < |p| ==> p[n] == SEPARATOR) && (n == 0 ==> p == [] || p[0] == SEPARATOR)
  {
    if p != [] && p[0] != SEPARATOR then 1 + NameLength(p[1..]) else 0
  }

  /** p without its leading separators. */
  function Skip(p: string): string { p[Separators(p)..] }

  /** The leading part of p up to a separator. */
  function First(p: string): string { p[..NameLength(p)] }

  /** The names in a path. */
  function Components(p: string): (r: seq<string>)
    decreases |p|
  {
    var q := Skip(p);
    if q == [] then [] else [First(q)] + Components(q[NameLength(q)..])
  }

  lemma {:induction false} SeparatorsIs(p: string, n: nat)
    requires n <= |p| && (forall i :: 0 <= i < n ==> p[i] == SEPARATOR) && (n < |p| ==> p[n] != SEPARATOR)
    ensures Separators(p) == n
    decreases n
  {
    if n > 0 { SeparatorsIs(p[1..], n - 1); }
  }

  lemma {:induction false} NameLengthIs(p: string, n: nat)
    requires n <= |p| && (forall i :: 0 <= i < n ==> p[i] != SEPARATOR) && (n < |p| ==> p[n] == SEPARATOR)
    ensures NameLength(p) == n
    decreases n
  {
    if n > 0 { NameLengthIs(p[1..], n - 1); }
  }

  lemma {:induction false} SeparatorAt(p: string, i: nat)
    requires i < Separators(p)
    ensures p[i] == SEPARATOR
  {
    if i > 0 { SeparatorAt(p[1..], i - 1); }
  }

  lemma {:induction false} NameAt(p: string, i: nat)
    requires i < NameLength(p)
    ensures p[i] != SEPARATOR
  {
    if i > 0 { NameAt(p[1..], i - 1); }
  }

  lemma FirstProper(p: string)
    requires Skip(p) != []
    ensures First(Skip(p)) != [] && SEPARATOR !in First(Skip(p))
  {
    hide Separators, NameLength;
    var q := Skip(p);
    forall j | 0 <= j < NameLength(q) ensures q[j] != SEPARATOR { NameAt(q, j); }
  }

  /** What is behind the first name. */
  function Rest(p: string): string { Skip(p)[NameLength(Skip(p))..] }

  lemma ComponentsUnfold(p: string)
    ensures Components(p) == if Skip(p) == [] then [] else [First(Skip(p))] + Components(Rest(p))
    ensures Skip(p) != [] ==> |Rest(p)| < |p|
  {
    hide Separators, First;
  }

  /** Names are never empty and hold no separator. */
  lemma {:induction false} ComponentsProper(p: string, i: nat)
    requires i < |Components(p)|
    ensures Components(p)[i] != [] && SEPARATOR !in Components(p)[i]
    decreases |p|
  {
    hide Separators, NameLength, First, Skip, Components, Rest;
    ComponentsUnfold(p);
    FirstProper(p);
    if i > 0 { ComponentsProper(Rest(p), i - 1); }
  }

  /** Leading separators do not matter. */
  lemma SkipSlice(p: string, at: nat, to: nat)
    requires at <= to <= |p| && (forall i :: at <= i < to ==> p[i] == SEPARATOR) && (to < |p| ==> p[to] != SEPARATOR)
    ensures Skip(p[at..]) == p[to..] && Components(p[at..]) == Components(p[to..])
  {
    hide Separators, NameLength;
    SeparatorsIs(p[at..], to - at);
    assert p[at..][to - at..] == p[to..];
    SeparatorsIs(p[to..], 0);
    assert Skip(p[to..]) == p[to..];
  }

  /** A component starts at `begin` and ends at `at`. */
  lemma ComponentEnds(p: string, begin: nat, at: nat)
    requires begin < at <= |p| && (forall i :: begin <= i < at ==> p[i] != SEPARATOR)
    requires at < |p| ==> p[at] == SEPARATOR
    ensures Components(p[begin..]) == [p[begin..at]] + Components(p[at..])
  {
    hide Separators, NameLength;
    var q := p[begin..];
    SeparatorsIs(q, 0);
    assert Skip(q) == q;
    NameLengthIs(q, at - begin);
    assert q[..at - begin] == p[begin..at] && q[at - begin..] == p[at..];
  }

  lemma NoComponents(p: string)
    ensures Components(p) == [] <==> Separators(p) == |p|
  {
    hide Separators, NameLength;
  }

  // ---------------------------------------------------------------- the hashes

  /** COMPUTE_HASH_CHAR on 32 bits. */
  function HashChar(key: nat, c: char, upcase: char -> nat): nat {
    (37 * key + upcase(c)) % 0x1_0000_0000
  }

  function HashName(key: nat, name: string, upcase: char -> nat): nat {
    if name == [] then key else HashChar(HashName(key, name[..|name| - 1], upcase), name[|name| - 1], upcase)
  }

  /** The key of the KCB created for a name under a parent with this key. */
  function CreationKey(parent: nat, name: string, upcase: char -> nat): nat {
    if name == [] then parent
    else if name[|name| - 1] == SEPARATOR then CreationKey(parent, name[..|name| - 1], upcase)
    else HashChar(CreationKey(parent, name[..|name| - 1], upcase), name[|name| - 1], upcase)
  }

  /** The key of the last of the KCBs created for the names, one under another. */
  function NestedKey(root: nat, names: seq<string>, upcase: char -> nat): nat {
    if names == [] then root else CreationKey(NestedKey(root, names[..|names| - 1], upcase), names[|names| - 1], upcase)
  }

  lemma {:induction false} CreationIsHash(parent: nat, name: string, upcase: char -> nat)
    requires SEPARATOR !in name
    ensures CreationKey(parent, name, upcase) == HashName(parent, name, upcase)
  {
    if name != [] {
      assert name[|name| - 1] in name;
      CreationIsHash(parent, name[..|name| - 1], upcase);
    }
  }

  function Power(n: nat): nat { if n == 0 then 1 else 37 * Power(n - 1) }

  /** The characters of a name as the digits of a number to the base 37. */
  function Digits(name: string, upcase: char -> nat): nat {
    if name == [] then 0 else upcase(name[0]) * Power(|name| - 1) + Digits(name[1..], upcase)
  }

  lemma {:induction false} DigitsMore(name: string, c: char, upcase: char -> nat)
    ensures Digits(name + [c], upcase) == 37 * Digits(name, upcase) + upcase(c)
  {
    if name == [] {
      assert name + [c] == [c];
    } else {
      assert (name + [c])[1..] == name[1..] + [c];
      DigitsMore(name[1..], c, upcase);
    }
  }

  lemma TimesMore(key: nat, p: nat)
    ensures key * (37 * p) == 37 * (key * p)
  {
  }

  lemma ModStep(a: nat, u: nat)
    ensures (37 * (a % 0x1_0000_0000) + u) % 0x1_0000_0000 == (37 * a + u) % 0x1_0000_0000
  {
    var q := a / 0x1_0000_0000;
    assert a == q * 0x1_0000_0000 + a % 0x1_0000_0000;
    ModShift(37 * (a % 0x1_0000_0000) + u, 37 * q);
  }

  lemma {:induction false} ModShift(x: nat, k: nat)
    ensures (k * 0x1_0000_0000 + x) % 0x1_0000_0000 == x % 0x1_0000_0000
  {
    if k > 0 { ModShift(x, k - 1); }
  }

  lemma NoDigits(key: nat, upcase: char -> nat)
    ensures key * Power(0) + Digits([], upcase) == key
  {
  }

  /** The rolling hash is the name read as a number to the base 37, behind the key it starts from, on
      32 bits. */
  lemma {:induction false} HashIsNumber(key: nat, name: string, upcase: char -> nat)
    requires key < 0x1_0000_0000
    ensures HashName(key, name, upcase) == (key * Power(|name|) + Digits(name, upcase)) % 0x1_0000_0000
  {
    hide Digits;
    if name == [] {
      NoDigits(key, upcase);
    } else {
      var n := |name| - 1;
      var front, c := name[..n], name[n];
      assert name == front + [c];
      HashIsNumber(key, front, upcase);
      DigitsMore(front, c, upcase);
      TimesMore(key, Power(n));
      ModStep(key * Power(n) + Digits(front, upcase), upcase(c));
    }
  }

  /** The name hash of CmpCreateKeyControlBlock. */
  method CreateKey(parent: nat, name: string, upcase: char -> nat) returns (key: nat)
    ensures key == CreationKey(parent, name, upcase)
  {
    var from := 0;
    while from < |name| && name[from] == SEPARATOR
      invariant 0 <= from <= |name| && CreationKey(parent, name[..from], upcase) == parent
    {
      assert name[..from + 1][..from] == name[..from];
      from := from + 1;
    }
    key := parent;
    var at := from;
    while at < |name|
      invariant from <= at <= |name| && key == CreationKey(parent, name[..at], upcase)
    {
      assert name[..at + 1][..at] == name[..at];
      if name[at] != SEPARATOR { key := HashChar(key, name[at], upcase); }
      at := at + 1;
    }
    assert name[..at] == name;
  }

  // ------------------------------------------------------------ CmpGetNextName

  /** What CmpGetNextName yields: the name, the path that remains, last and valid. */
  datatype Next = Next(name: string, rest: string, last: bool, valid: bool)

  predicate Ended(p: string) { p == [] || p[0] == NUL }

  function NextName(p: string): Next {
    if Ended(p) then Next([], p, true, true)
    else
      var q := Skip(p);
      Next(First(q), q[NameLength(q)..], NameLength(q) == |q|, NameLength(q) <= MAX_NAME)
  }

  method GetNextName(p: string) returns (r: Next)
    ensures r == NextName(p)
  {
    hide NextName;
    if p == [] || p[0] == NUL {
      assert Ended(p) && NextName(p) == Next([], p, true, true) by { EndedNext(p); }
      return Next([], p, true, true);
    }
    var at := 0;
    while at < |p| && p[at] == SEPARATOR
      invariant 0 <= at <= |p| && forall i :: 0 <= i < at ==> p[i] == SEPARATOR
    {
      at := at + 1;
    }
    var start := at;
    while at < |p| && p[at] != SEPARATOR
      invariant start <= at <= |p| && forall i :: start <= i < at ==> p[i] != SEPARATOR
    {
      at := at + 1;
    }
    NextAt(p, start, at);
    r := Next(p[start..at], p[at..], at == |p|, 2 * (at - start) <= 512);
  }

  lemma EndedNext(p: string)
    requires Ended(p)
    ensures NextName(p) == Next([], p, true, true)
  {
  }

  lemma NextAt(p: string, start: nat, at: nat)
    requires !Ended(p) && start <= at <= |p| && (forall i :: 0 <= i < start ==> p[i] == SEPARATOR)
    requires forall i :: start <= i < at ==> p[i] != SEPARATOR
    requires (start < |p| ==> p[start] != SEPARATOR) && (at < |p| ==> p[at] == SEPARATOR)
    ensures NextName(p) == Next(p[start..at], p[at..], at == |p|, at - start <= MAX_NAME)
  {
    hide Separators, NameLength;
    SeparatorsIs(p, start);
    var q := p[start..];
    NameLengthIs(q, at - start);
    assert q[..at - start] == p[start..at] && q[at - start..] == p[at..];
  }

  /** The path that remains after n calls. */
  function Remaining(p: string, n: nat): string {
    if n == 0 then p else NextName(Remaining(p, n - 1)).rest
  }

  /** One call of CmpGetNextName takes one component off. */
  lemma TakesOne(p: string)
    requires !Ended(p) && Components(p) != []
    ensures var r := NextName(p); r.name == Components(p)[0] && Components(r.rest) == Components(p)[1..]
    ensures var r := NextName(p).rest; |r| <= |p| && r == p[|p| - |r|..] && (r == [] || r[0] == SEPARATOR)
  {
    hide Separators, NameLength;
    var q := Skip(p);
    NoComponents(p);
    var r := q[NameLength(q)..];
    assert Components(p) == [First(q)] + Components(r);
    assert r == p[|p| - |r|..];
  }

  /** Call by call, CmpGetNextName yields the components in order. */
  lemma {:induction false} NthName(p: string, n: nat)
    requires !Ended(p) && n <= |Components(p)|
    ensures Components(Remaining(p, n)) == Components(p)[n..]
    ensures n > 0 ==> (Remaining(p, n) == [] || Remaining(p, n)[0] == SEPARATOR)
    ensures n < |Components(p)| ==> !Ended(Remaining(p, n)) && NextName(Remaining(p, n)).name == Components(p)[n]
    ensures |Remaining(p, n)| <= |p| && Remaining(p, n) == p[|p| - |Remaining(p, n)|..]
  {
    hide Components, NextName;
    var all := Components(p);
    if n > 0 {
      NthName(p, n - 1);
      var q := Remaining(p, n - 1);
      TakesOne(q);
      assert all[n - 1..][1..] == all[n..];
      var r := Remaining(p, n);
      assert r == q[|q| - |r|..] == p[|p| - |r|..];
    }
    if n < |all| {
      assert Remaining(p, n) != [] by { NoComponents([]); }
      TakesOne(Remaining(p, n));
    }
  }

  /** The flags of call n: valid for names of at most 256 characters, last for the final name
      unless separators trail it. */
  lemma NthFlags(p: string, n: nat)
    requires !Ended(p) && n < |Components(p)|
    ensures var r := NextName(Remaining(p, n));
            && (r.valid <==> |Components(p)[n]| <= MAX_NAME)
            && (r.last <==> n == |Components(p)| - 1 && p[|p| - 1] != SEPARATOR)
  {
    hide Components, NextName;
    NthName(p, n);
    NthName(p, n + 1);
    var q, rest := Remaining(p, n), Remaining(p, n + 1);
    assert q != [];
    FlagsOf(q);
    NoComponents(rest);
    if rest != [] {
      assert rest[|rest| - 1] == p[|p| - 1];
      if n == |Components(p)| - 1 { SeparatorAt(rest, |rest| - 1); }
    } else {
      assert q[|q| - 1] == p[|p| - 1];
    }
  }

  lemma FlagsOf(p: string)
    requires !Ended(p) && Components(p) != []
    ensures var r := NextName(p);
            (r.valid <==> |r.name| <= MAX_NAME) && (r.last <==> r.rest == []) && (r.last ==> p[|p| - 1] != SEPARATOR)
  {
    hide Separators, NameLength;
    NoComponents(p);
    var q := Skip(p);
    if NameLength(q) == |q| { NameAt(q, |q| - 1); }
  }

  // -------------------------------------------------------------- the hash stack

  /** NameOfKey as a place in the path, and ConvKey. */
  datatype Entry = Entry(start: nat, length: nat, key: nat)

  /** Entry i names component i and has the key of the KCBs created for components 0..i. */
  ghost predicate Names(p: string, root: nat, upcase: char -> nat, e: Entry, i: nat) {
    && i < |Components(p)| && e.start + e.length <= |p| && p[e.start..e.start + e.length] == Components(p)[i]
    && e.key == NestedKey(root, Components(p)[..i + 1], upcase)
  }

  /** The component that ends at `at` is number n, and the key after it is the nested key. */
  lemma ComponentDone(p: string, begin: nat, at: nat, n: nat, root: nat, key: nat, upcase: char -> nat)
    requires begin < at <= |p| && (forall i :: begin <= i < at ==> p[i] != SEPARATOR)
    requires at < |p| ==> p[at] == SEPARATOR
    requires n <= |Components(p)| && Components(p[begin..]) == Components(p)[n..]
    requires key == HashName(NestedKey(root, Components(p)[..n], upcase), p[begin..at], upcase)
    ensures n < |Components(p)| && Components(p)[n] == p[begin..at] && Components(p[at..]) == Components(p)[n + 1..]
    ensures key == NestedKey(root, Components(p)[..n + 1], upcase)
    ensures Names(p, root, upcase, Entry(begin, at - begin, key), n)
  {
    hide Components;
    var all := Components(p);
    ComponentEnds(p, begin, at);
    assert all[n..][1..] == all[n + 1..] && all[..n + 1][..n] == all[..n];
    CreationIsHash(NestedKey(root, all[..n], upcase), p[begin..at], upcase);
  }

  lemma HashMore(key: nat, p: string, begin: nat, at: nat, upcase: char -> nat)
    requires begin <= at < |p|
    ensures HashName(key, p[begin..at + 1], upcase) == HashChar(HashName(key, p[begin..at], upcase), p[at], upcase)
  {
    assert p[begin..at + 1][..at - begin] == p[begin..at];
  }

  /** CmpComputeHashValue: in one pass over any path, the stack gets exactly the first 32
      components with their keys, and `total` is the number of components. `asserted` is whether
      its assertion holds: exactly when no separator trails the last name. */
  method ComputeHashValue(p: string, root: nat, upcase: char -> nat)
    returns (stack: seq<Entry>, total: nat, asserted: bool)
    ensures total == |Components(p)| && |stack| == if total < DEPTH_LIMIT then total else DEPTH_LIMIT
    ensures forall i :: 0 <= i < |stack| ==> Names(p, root, upcase, stack[i], i)
    ensures asserted <==> total == 0 || p[|p| - 1] != SEPARATOR
  {
    hide Components, HashName, NestedKey, HashChar, Names, Skip;
    if |p| == 0 {
      NoComponents(p);
      return [], 0, true;
    }
    asserted := true;
    var at := 0;
    while at < |p| && p[at] == SEPARATOR
      invariant 0 <= at <= |p| && forall i :: 0 <= i < at ==> p[i] == SEPARATOR
    {
      at := at + 1;
    }
    SkipSlice(p, 0, at);
    assert p[0..] == p;
    NoneLeft(p, at);
    var start, length, key := at, 0, root;
    ghost var begin := at;
    stack, total := [], 0;
    HashNone(root, p, begin, upcase);
    while at < |p|
      invariant begin <= at <= |p| && (forall i :: begin <= i < at ==> p[i] != SEPARATOR)
      invariant begin == at < |p| ==> p[at] != SEPARATOR
      invariant total <= |Components(p)| && (at == |p| ==> total == |Components(p)|)
      invariant at < |p| ==> Components(p[begin..]) == Components(p)[total..]
      invariant at < |p| ==> key == HashName(NestedKey(root, Components(p)[..total], upcase), p[begin..at], upcase)
      invariant |stack| == if total < DEPTH_LIMIT then total else DEPTH_LIMIT
      invariant |stack| < DEPTH_LIMIT && at < |p| ==> start == begin && length == at - begin
      invariant forall i :: 0 <= i < |stack| ==> Names(p, root, upcase, stack[i], i)
      invariant if at < |p| then asserted else asserted <==> total == 0 || p[|p| - 1] != SEPARATOR
    {
      if p[at] != SEPARATOR {
        HashMore(NestedKey(root, Components(p)[..total], upcase), p, begin, at, upcase);
        key := HashChar(key, p[at], upcase);
        at, length := at + 1, length + 1;
        if at == |p| {
          ComponentDone(p, begin, at, total, root, key, upcase);
          NoneLeft(p, at);
          if |stack| < DEPTH_LIMIT { stack := stack + [Entry(start, length, key)]; }
          total := total + 1;
        }
      } else {
        ComponentDone(p, begin, at, total, root, key, upcase);
        ghost var ended := at;
        while at < |p| && p[at] == SEPARATOR
          invariant ended <= at <= |p| && forall i :: ended <= i < at ==> p[i] == SEPARATOR
        {
          at := at + 1;
        }
        asserted := asserted && at < |p|;
        SkipSlice(p, ended, at);
        NoneLeft(p, at);
        total := total + 1;
        begin := at;
        HashNone(key, p, begin, upcase);
        if |stack| < DEPTH_LIMIT {
          stack := stack + [Entry(start, length, key)];
          length := 0;
          if |stack| < DEPTH_LIMIT { start := at; }
        }
      }
    }
  }

  lemma NoneLeft(p: string, at: nat)
    requires at <= |p|
    ensures at == |p| ==> Components(p[at..]) == []
  {
    if at == |p| { NoComponents(p[at..]); }
  }

  lemma HashNone(root: nat, p: string, at: nat, upcase: char -> nat)
    requires at <= |p|
    ensures HashName(root, p[at..at], upcase) == root && NestedKey(root, [], upcase) == root
  {
  }

  // ------------------------------------------------- taking matched names off

  /** The path behind n components and the separators after them. */
  function Behind(p: string, n: nat): string {
    if n == 0 then Skip(p)
    else
      var q := Behind(p, n - 1);
      Skip(q[NameLength(q)..])
  }

  lemma {:induction false} BehindComponents(p: string, n: nat)
    requires n <= |Components(p)|
    ensures Components(Behind(p, n)) == Components(p)[n..] && (Behind(p, n) == [] || Behind(p, n)[0] != SEPARATOR)
    ensures n < |Components(p)| ==> First(Behind(p, n)) == Components(p)[n]
  {
    hide Separators, NameLength, Components, Skip, First;
    var all := Components(p);
    SkipKeeps(p);
    if n > 0 {
      BehindComponents(p, n - 1);
      var q := Behind(p, n - 1);
      FirstOff(q);
      SkipKeeps(q[NameLength(q)..]);
      assert all[n - 1..][1..] == all[n..];
    }
    if n < |all| { FirstOff(Behind(p, n)); }
  }

  lemma FirstOff(q: string)
    requires (q == [] || q[0] != SEPARATOR) && Components(q) != []
    ensures Components(q)[0] == First(q) && Components(q)[1..] == Components(q[NameLength(q)..])
  {
    hide Separators, NameLength;
    SkipNone(q);
    assert Components(q) == [First(q)] + Components(q[NameLength(q)..]);
  }

  lemma SkipKeeps(p: string)
    ensures Components(Skip(p)) == Components(p) && (Skip(p) == [] || Skip(p)[0] != SEPARATOR)
  {
    forall i | 0 <= i < Separators(p) ensures p[i] == SEPARATOR { SeparatorAt(p, i); }
    SkipSlice(p, 0, Separators(p));
    assert p[0..] == p;
  }

  lemma SkipNone(p: string)
    requires p == [] || p[0] != SEPARATOR
    ensures Skip(p) == p
  {
    SeparatorsIs(p, 0);
  }

  /** The separators in front of p[at..] are skipped. */
  method SkipSeparators(p: string) returns (r: string)
    ensures r == Skip(p)
  {
    r := p;
    while r != [] && r[0] == SEPARATOR
      invariant Skip(r) == Skip(p)
      decreases |r|
    {
      assert Separators(r) == 1 + Separators(r[1..]);
      assert r[Separators(r)..] == r[1..][Separators(r[1..])..];
      r := r[1..];
    }
    SkipNone(r);
  }

  /** CmpRemoveSubkeysInRemainingName with the stack of the path: afterwards the first k + 1
      components and the separators around them are gone. */
  method RemoveSubkeys(p: string, stack: seq<Entry>, k: nat) returns (r: string)
    requires k < |stack| <= |Components(p)| && forall i :: 0 <= i < |stack| ==> stack[i].length == |Components(p)[i]|
    ensures r == Behind(p, k + 1)
  {
    hide Components, Separators, Skip;
    r := SkipSeparators(p);
    var i := 0;
    while i <= k
      invariant 0 <= i <= k + 1 && r == Behind(p, i)
    {
      BehindComponents(p, i);
      r := r[stack[i].length..];
      r := SkipSeparators(r);
      i := i + 1;
    }
  }

  /** k + 1 calls of CmpGetNextName leave the same path, up to leading separators, exactly when
      the path does not start with a NUL. */
  lemma RemoveIsNext(p: string, n: nat)
    requires 0 < n <= |Components(p)|
    ensures Behind(p, n) == Skip(Remaining(p, n)) <==> p[0] != NUL
  {
    assert p != [] by { NoComponents([]); }
    if p[0] == NUL {
      Stays(p, n);
      SkipNone(p);
      BehindComponents(p, n);
    } else {
      SameBehind(p, n);
    }
  }

  /** On a NUL CmpGetNextName does not move. */
  lemma {:induction false} Stays(p: string, n: nat)
    requires Ended(p)
    ensures Remaining(p, n) == p
  {
    if n > 0 { Stays(p, n - 1); }
  }

  lemma {:induction false} SameBehind(p: string, n: nat)
    requires !Ended(p) && n <= |Components(p)|
    ensures Behind(p, n) == Skip(Remaining(p, n))
  {
    hide Separators, NameLength, Components, Skip, First;
    if n > 0 {
      SameBehind(p, n - 1);
      NthName(p, n - 1);
    }
  }

  /** The path "\0" shows the difference. */
  lemma NulExample()
    ensures |Components([NUL])| == 1 && Behind([NUL], 1) != Skip(Remaining([NUL], 1))
  {
    ComponentEnds([NUL], 0, 1);
    assert [NUL][0..] == [NUL];
    NoComponents([]);
    RemoveIsNext([NUL], 1);
  }

  // ---------------------------------------------------------- what the parser does

  /** A separator at the end adds no name. */
  lemma {:induction false} TrailingSeparator(p: string)
    ensures Components(p + [SEPARATOR]) == Components(p)
    decreases |p|
  {
    hide Separators, NameLength, Components;
    var t := [SEPARATOR];
    NoComponents(p);
    if Separators(p) == |p| {
      forall i | 0 <= i < |p + t| ensures (p + t)[i] == SEPARATOR {
        if i < |p| { SeparatorAt(p, i); }
      }
      SeparatorsIs(p + t, |p + t|);
      NoComponents(p + t);
    } else {
      AfterName(p, t);
      TrailingSeparator(Skip(p)[NameLength(Skip(p))..]);
    }
  }

  /** What comes behind a path with a name in it does not change its first name. */
  lemma AfterName(p: string, t: string)
    requires Separators(p) < |p| && t != [] && t[0] == SEPARATOR
    ensures var q := Skip(p);
            NameLength(q) <= |q| && Components(p + t) == [First(q)] + Components(q[NameLength(q)..] + t)
    ensures var q := Skip(p); NameLength(q) > 0 && Components(p) == [First(q)] + Components(q[NameLength(q)..])
  {
    hide Separators, NameLength, Components, First;
    ComponentsStep(p);
    var all, s, q := p + t, Separators(p), Skip(p);
    var n := NameLength(q);
    forall i | 0 <= i < s ensures all[i] == SEPARATOR { SeparatorAt(p, i); }
    assert all[s] == p[s];
    SkipSlice(all, 0, s);
    assert all[0..] == all;
    assert all[s..] == q + t;
    FirstBefore(q, t);
  }

  lemma ComponentsStep(p: string)
    requires Separators(p) < |p|
    ensures Components(p) == [First(Skip(p))] + Components(Skip(p)[NameLength(Skip(p))..])
  {
    hide Separators, NameLength;
  }

  lemma FirstBefore(q: string, t: string)
    requires q != [] && q[0] != SEPARATOR && t != [] && t[0] == SEPARATOR
    ensures Components(q + t) == [First(q)] + Components(q[NameLength(q)..] + t)
  {
    hide NameLength, Components;
    var r, n := q + t, NameLength(q);
    forall i | 0 <= i < n ensures r[i] != SEPARATOR { NameAt(q, i); }
    assert r[n] == SEPARATOR;
    ComponentEnds(r, 0, n);
    assert r[0..] == r && r[0..n] == First(q) && r[n..] == q[n..] + t;
  }

  /** CmpParseKey takes the separators off the end of a path before anything else: the names are
      the same, and so the assertion in CmpComputeHashValue holds for every path it is given. */
  method ParsePath(p: string, root: nat, upcase: char -> nat)
    returns (path: string, stack: seq<Entry>, total: nat, asserted: bool)
    ensures path <= p && (path == [] || path[|path| - 1] != SEPARATOR) && Components(path) == Components(p)
    ensures asserted && total == |Components(p)| && |stack| == if total < DEPTH_LIMIT then total else DEPTH_LIMIT
    ensures forall i :: 0 <= i < |stack| ==> Names(path, root, upcase, stack[i], i)
  {
    hide Components, Names;
    path := p;
    while path != [] && path[|path| - 1] == SEPARATOR
      invariant path <= p && Components(path) == Components(p)
      decreases |path|
    {
      assert path == path[..|path| - 1] + [SEPARATOR];
      TrailingSeparator(path[..|path| - 1]);
      path := path[..|path| - 1];
    }
    stack, total, asserted := ComputeHashValue(path, root, upcase);
    if path == [] { NoComponents(path); }
  }
}
