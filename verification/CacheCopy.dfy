/**
 Chunked copies between a caller's buffer and a cached file, one view at a time. `resident` is
 what Mm answers when a chunk must be in memory and the caller will not wait.
 */
module CacheCopy {
  import opened Sequences
  import opened VacbCache
  import opened CacheManager

  function Fresh<T>(s: map<nat, T>): (id: nat)
    ensures id !in s
  {
    FreshAbove(s.Keys, 0)
  }

  function FreshAbove(used: set<nat>, low: nat): (id: nat)
    ensures id !in used && id >= low
    decreases |set x | x in used && x >= low|
  {
    if low !in used then low else
      var a, b := set x | x in used && x >= low, set x | x in used && x >= low + 1;
      assert b == a - {low};
      FreshAbove(used, low + 1)
  }

  /** Data of the file with `data` written at `pos`. */
  function Overwrite(old_: seq<byte>, pos: nat, data: seq<byte>): (r: seq<byte>)
    requires pos + |data| <= |old_|
    ensures |r| == |old_|
  {
    old_[..pos] + data + old_[pos + |data|..]
  }

  lemma OverwriteMore(old_: seq<byte>, pos: nat, data: seq<byte>, n: nat, k: nat)
    requires n + k <= |data| && pos + |data| <= |old_|
    ensures Overwrite(Overwrite(old_, pos, data[..n]), pos + n, data[n..n + k]) == Overwrite(old_, pos, data[..n + k])
  {
  }

  /** Taking a hold and giving it back leaves the holds as they were. */
  lemma HoldsBack(t: Cache, u: Cache, w: Cache, v: nat, f: nat, offset: nat)
    requires Inv(t) && Got(t, u, v, f, offset)
    requires w.vacbs.Keys == u.vacbs.Keys && w.views.Keys == u.views.Keys
    requires v in u.holders && u.holders[v] >= 1 && w.holders == u.holders[v := u.holders[v] - 1]
    requires forall x :: x in u.vacbs ==> w.vacbs[x].file == u.vacbs[x].file && w.vacbs[x].offset == u.vacbs[x].offset
    ensures SameHolds(t, w)
  {
    hide Linked, Viewed, Totalled;
  }

  lemma SameHoldsThrough(s: Cache, t: Cache, u: Cache)
    requires SameHolds(s, t) && SameHolds(t, u)
    ensures SameHolds(s, u) && u.views.Keys == s.views.Keys
  {
  }

  lemma SameHoldsStart(s: Cache)
    requires Inv(s)
    ensures SameHolds(s, s)
  {
  }

  /** Where byte `k` of the buffer of view v is in the data of its file: the view starts at its
      own offset, and the copy at a place in the view. */
  function InFile(b: Vacb, within: nat, k: nat): nat { b.offset + within + k }

  /** One chunk of CcCopyRead: a hold on the view of the offset, the bytes at that place of the view
      if they are resident, and the release. */
  method ReadChunk(m: Manager, f: nat, current: nat, length: nat, buffer: array<byte>, at: nat,
                   resident: (nat, nat) -> bool)
    returns (here: bool)
    requires Inv(m.State()) && f in m.views && f in m.section && current + length <= |m.section[f]|
    requires at + length <= buffer.Length
    requires current % GRANULARITY + length <= GRANULARITY
    modifies m, buffer
    ensures Inv(m.State()) && (old(Covered(m.State())) ==> Covered(m.State())) && SameHolds(old(m.State()), m.State())
    ensures old(Unmapped(m.State())) ==> Unmapped(m.State())
    ensures m.section == old(m.section) && m.disk == old(m.disk) && m.views.Keys == old(m.views).Keys
    ensures forall k :: 0 <= k < buffer.Length ==>
              buffer[k] == if here && at <= k < at + length then m.section[f][current + (k - at)] else old(buffer[k])
    ensures (forall v, o :: resident(v, o)) ==> here
  {
    hide Inv, Covered, Unmapped, SameHolds, Got, Gave;
    ghost var t := m.State();
    var v := m.GetVacb(f, current, Fresh(m.vacbs));
    ghost var u := m.State();
    GotFacts(t, u, v, f, current);
    Aligned(u, v);
    RoundedEnd(u.vacbs[v].offset, current, length);
    var within := current % GRANULARITY;
    here := resident(v, within);
    if here {
      forall k | at <= k < at + length { buffer[k] := m.section[m.vacbs[v].file][InFile(m.vacbs[v], within, k - at)]; }
    }
    m.ReleaseVacb(v, false, false);
    GaveFacts(u, m.State(), v, false, false);
    HoldsBack(t, u, m.State(), v, f, current);
  }

  /** CcCopyRead refines one flat read: on success the buffer holds exactly the bytes of the file
      at the offset, whatever the views in between; a chunk that is not resident stops it with
      the bytes before it copied. No hold is left behind and no data changes. */
  method CopyRead(m: Manager, f: nat, offset: nat, length: nat, buffer: array<byte>, resident: (nat, nat) -> bool)
    returns (ok: bool, copied: nat)
    requires Inv(m.State()) && f in m.views && f in m.section && offset + length <= |m.section[f]|
    requires length <= buffer.Length
    modifies m, buffer
    ensures Inv(m.State()) && (old(Covered(m.State())) ==> Covered(m.State())) && SameHolds(old(m.State()), m.State())
    ensures old(Unmapped(m.State())) ==> Unmapped(m.State())
    ensures m.section == old(m.section) && m.disk == old(m.disk)
    ensures copied <= length && buffer[..copied] == old(m.section[f])[offset..offset + copied]
    ensures buffer[copied..] == old(buffer[copied..])
    ensures ok <==> copied == length
    ensures (forall v, o :: resident(v, o)) ==> ok
  {
    hide Inv, Covered, Unmapped, SameHolds;
    ghost var s := m.State();
    SameHoldsStart(s);
    var current: nat, left: nat := offset, length;
    copied := 0;
    while left > 0
      invariant Inv(m.State()) && (Covered(s) ==> Covered(m.State())) && (Unmapped(s) ==> Unmapped(m.State()))
      invariant SameHolds(s, m.State())
      invariant m.section == s.section && m.disk == s.disk && f in m.views
      invariant copied == length - left && current == offset + copied && 0 <= left <= length && f in s.section
      invariant forall k :: 0 <= k < copied ==> buffer[k] == s.section[f][offset + k]
      invariant forall k :: copied <= k < buffer.Length ==> buffer[k] == old(buffer[k])
      decreases left
    {
      ghost var t := m.State();
      var vacbLength := Min(left, GRANULARITY - current % GRANULARITY);
      var here := ReadChunk(m, f, current, vacbLength, buffer, copied, resident);
      SameHoldsThrough(s, t, m.State());
      if !here { return false, copied; }
      copied, current, left := copied + vacbLength, current + vacbLength, left - vacbLength;
    }
    ok := true;
  }

  /** u with a chunk of data written into the section of file f. */
  function Written(u: Cache, f: nat, pos: nat, data: seq<byte>): Cache
    requires f in u.section && pos + |data| <= |u.section[f]|
  {
    u.(section := u.section[f := Overwrite(u.section[f], pos, data)])
  }

  lemma WrittenKeeps(u: Cache, f: nat, pos: nat, data: seq<byte>)
    requires Inv(u) && f in u.section && pos + |data| <= |u.section[f]|
    ensures Inv(Written(u, f, pos, data)) && (Unmapped(u) ==> Unmapped(Written(u, f, pos, data)))
  {
    hide Viewed, Totalled, Linked, Referenced, Overwrite;
    DataOnly(u, Written(u, f, pos, data));
  }

  /** A chunk that is written before its view is marked dirty is covered once it is marked. */
  lemma WriteCovered(u: Cache, x: Cache, v: nat, f: nat, pos: nat, data: seq<byte>)
    requires Covered(u) && f in u.section && pos + |data| <= |u.section[f]|
    requires Gave(Written(u, f, pos, data), x, v, true, false)
    requires u.vacbs[v].file == f && u.vacbs[v].offset <= pos && pos + |data| <= u.vacbs[v].offset + GRANULARITY
    ensures Covered(x)
  {
    forall g, i | g in x.section && g in x.disk && 0 <= i < |x.section[g]| && i < |x.disk[g]|
      && x.section[g][i] != x.disk[g][i]
      ensures InDirtyView(x, g, i)
    {
      if g == f && pos <= i < pos + |data| {
        assert x.vacbs[v].dirty && InView(x.vacbs[v], i);
      } else {
        assert u.section[g][i] != u.disk[g][i];
        assert InDirtyView(u, g, i);
        var w :| w in u.vacbs && u.vacbs[w].dirty && u.vacbs[w].file == g && InView(u.vacbs[w], i);
        assert w in x.vacbs && x.vacbs[w].dirty && InView(x.vacbs[w], i);
      }
    }
  }

  /** One chunk of CcCopyWrite: a hold on the view, the write if it is resident, and a release
      that marks the view dirty. */
  method WriteChunk(m: Manager, f: nat, current: nat, chunk: seq<byte>, resident: (nat, nat) -> bool)
    returns (here: bool)
    requires Inv(m.State()) && f in m.views && f in m.section && current + |chunk| <= |m.section[f]|
    requires current % GRANULARITY + |chunk| <= GRANULARITY
    modifies m
    ensures Inv(m.State()) && (old(Covered(m.State())) ==> Covered(m.State())) && SameHolds(old(m.State()), m.State())
    ensures old(Unmapped(m.State())) ==> Unmapped(m.State())
    ensures m.disk == old(m.disk)
    ensures m.section == if here then old(m.section)[f := Overwrite(old(m.section)[f], current, chunk)]
            else old(m.section)
    ensures (forall v, o :: resident(v, o)) ==> here
  {
    hide Inv, Covered, Unmapped, SameHolds, Got, Gave, Overwrite;
    ghost var t := m.State();
    var v := m.GetVacb(f, current, Fresh(m.vacbs));
    ghost var u := m.State();
    GotFacts(t, u, v, f, current);
    Aligned(u, v);
    RoundedEnd(u.vacbs[v].offset, current, |chunk|);
    var within := current % GRANULARITY;
    here := resident(v, within);
    if !here {
      m.ReleaseVacb(v, false, false);
      GaveFacts(u, m.State(), v, false, false);
    } else {
      var g := m.vacbs[v].file;
      m.section := m.section[g := Overwrite(m.section[g], InFile(m.vacbs[v], within, 0), chunk)];
      ghost var w := Written(u, f, current, chunk);
      assert m.State() == w;
      WrittenKeeps(u, f, current, chunk);
      m.ReleaseVacb(v, true, false);
      GaveFacts(w, m.State(), v, true, false);
      if Covered(t) { WriteCovered(u, m.State(), v, f, current, chunk); }
    }
    HoldsBack(t, u, m.State(), v, f, current);
  }

  /** CcCopyWrite refines one flat write: on success the file shows exactly the old data with the
      buffer written at the offset; a chunk that is not resident stops it with the chunks before
      it written. Every byte not yet on disk lies in a dirty view, and no hold is left behind. */
  method CopyWrite(m: Manager, f: nat, offset: nat, data: seq<byte>, resident: (nat, nat) -> bool)
    returns (ok: bool, written: nat)
    requires Inv(m.State()) && f in m.views && f in m.section && offset + |data| <= |m.section[f]|
    modifies m
    ensures Inv(m.State()) && (old(Covered(m.State())) ==> Covered(m.State())) && SameHolds(old(m.State()), m.State())
    ensures old(Unmapped(m.State())) ==> Unmapped(m.State())
    ensures m.disk == old(m.disk) && written <= |data|
    ensures m.section == old(m.section)[f := Overwrite(old(m.section)[f], offset, data[..written])]
    ensures ok <==> written == |data|
    ensures (forall v, o :: resident(v, o)) ==> ok
  {
    hide Inv, Covered, Unmapped, SameHolds, Overwrite;
    ghost var s := m.State();
    SameHoldsStart(s);
    OverwriteNone(s.section[f], offset);
    var current: nat, end: nat := offset, offset + |data|;
    written := 0;
    assert data[..0] == [];
    while current < end
      invariant Inv(m.State()) && (Covered(s) ==> Covered(m.State())) && (Unmapped(s) ==> Unmapped(m.State()))
      invariant SameHolds(s, m.State())
      invariant m.disk == s.disk && f in m.views && f in s.section
      invariant written <= |data| && current == offset + written
      invariant m.section == s.section[f := Overwrite(s.section[f], offset, data[..written])]
      decreases end - current
    {
      ghost var t := m.State();
      var vacbLength := Min(end - current, GRANULARITY - current % GRANULARITY);
      var here := WriteChunk(m, f, current, data[written..written + vacbLength], resident);
      SameHoldsThrough(s, t, m.State());
      if !here { return false, written; }
      OverwriteMore(s.section[f], offset, data, written, vacbLength);
      current, written := current + vacbLength, written + vacbLength;
    }
    ok := true;
  }

  lemma OverwriteNone(old_: seq<byte>, pos: nat)
    requires pos <= |old_|
    ensures Overwrite(old_, pos, []) == old_
  {
  }
}
