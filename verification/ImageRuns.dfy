/** The calls into the library image cache, and what every sequence of them keeps. */
module ImageRuns {
  import opened Lists
  import opened ImageEntries
  import opened ImageOps

  const NO_FLAGS := Flags(false, false, false, false, false, false, false)
  const NO_STAMP := Stamp(0, 0, 0, 0)

  function Blank(key: Option<Key>, tstamp: Stamp, size: nat, pixels: seq<int>): Entry {
    Entry(key, NO_FLAGS, 0, false, tstamp, [], size, pixels)
  }

  /** cache->func.alloc: a new entry, in no list or hash yet. */
  function Alloc(s: Cache, e: Entry): (s': Cache)
    ensures s.next in s'.entries
  {
    s.(entries := s.entries[s.next := e], next := s.next + 1)
  }

  lemma NextIsFree(s: Cache)
    requires Inv(s)
    ensures s.next !in s.entries
  {
    assert At(s, s.next, false);
  }

  /** _evas_cache_image_entry_new with a key, and its first reference. */
  function NewActive(s: Cache, k: Key, tstamp: Stamp, size: nat, pixels: seq<int>): Cache {
    WithReferences(ActivAdd(Alloc(s, Blank(Some(k), tstamp, size, pixels)), s.next), s.next, 1)
  }

  lemma NewActiveInv(s: Cache, k: Key, tstamp: Stamp, size: nat, pixels: seq<int>)
    requires Inv(s) && k !in s.activ && k !in s.inactiv
    ensures Inv(NewActive(s, k, tstamp, size, pixels))
    ensures NewActive(s, k, tstamp, size, pixels) == s.(
              entries := s.entries[s.next := Blank(Some(k), tstamp, size, pixels).(
                                               flags := NO_FLAGS.(activ := true), references := 1)],
              activ := s.activ[k := s.next], next := s.next + 1)
  {
    var s' := NewActive(s, k, tstamp, size, pixels);
    NextIsFree(s);
    forall x ensures At(s', x, false) { assert At(s, x, false); assert At(s, s.next, false); }
    forall q ensures ActivOk(s', q) && InactivOk(s', q) { assert ActivOk(s, q) && InactivOk(s, q); }
    assert s.next !in s.lru by { assert At(s, s.next, false); }
    SumSame(s.entries, s'.entries, s.lru);
  }

  /** _evas_cache_image_entry_new without a key, and its first reference: born dirty. */
  function NewDirty(s: Cache, size: nat, pixels: seq<int>): Cache {
    WithReferences(DirtyAdd(Alloc(s, Blank(None, NO_STAMP, size, pixels)), s.next), s.next, 1)
  }

  lemma NewDirtyInv(s: Cache, size: nat, pixels: seq<int>)
    requires Inv(s)
    ensures Inv(NewDirty(s, size, pixels))
    ensures NewDirty(s, size, pixels) == s.(
              entries := s.entries[s.next := Blank(None, NO_STAMP, size, pixels).(
                                               flags := NO_FLAGS.(dirty := true), references := 1)],
              dirty := [s.next] + s.dirty, next := s.next + 1)
  {
    var s' := NewDirty(s, size, pixels);
    NextIsFree(s);
    assert At(s, s.next, false);
    PrependNoDup(s.dirty, s.next);
    forall x ensures At(s', x, false) { assert At(s, x, false); }
    forall q ensures ActivOk(s', q) && InactivOk(s', q) { assert ActivOk(s, q) && InactivOk(s, q); }
    SumSame(s.entries, s'.entries, s.lru);
  }

  // ----- request --------------------------------------------------------------------

  predicate Fresh(e: Entry, stat: Option<Stamp>) {
    stat == Some(e.tstamp)
  }

  lemma Found(s: Cache, k: Key)
    requires Inv(s)
    ensures k in s.activ ==> s.activ[k] in s.entries && s.entries[s.activ[k]].flags.activ
                             && !s.entries[s.activ[k]].flags.lru && !s.entries[s.activ[k]].flags.dirty
                             && s.entries[s.activ[k]].key == Some(k) && k !in s.inactiv
                             && EntryOk(s, s.activ[k], false)
    ensures k in s.inactiv ==> s.inactiv[k] in s.entries && s.entries[s.inactiv[k]].flags.lru
                               && !s.entries[s.inactiv[k]].flags.activ && !s.entries[s.inactiv[k]].flags.dirty
                               && s.entries[s.inactiv[k]].key == Some(k) && !s.entries[s.inactiv[k]].preload
                               && EntryOk(s, s.inactiv[k], false)
  {
    assert ActivOk(s, k) && InactivOk(s, k);
    if k in s.activ { assert At(s, s.activ[k], false); }
    if k in s.inactiv { assert At(s, s.inactiv[k], false); }
  }

  /** One more reference to an entry that is in the active hash. */
  function Refer(s: Cache, h: Handle): (s': Cache)
    requires Near(s, h) && h in s.entries && s.entries[h].flags.activ
    requires s.entries[h].flags.deleteMe ==> s.entries[h].preload && s.entries[h].flags.pending
    ensures Inv(s')
  {
    assert AtNear(s, h, h);
    WithReferencesNear(s, h, s.entries[h].references + 1);
    NearInv(WithReferences(s, h, s.entries[h].references + 1), h);
    WithReferences(s, h, s.entries[h].references + 1)
  }

  /** A stale entry goes to the dirty list; if it was unused it is deleted. */
  function Outdate(s: Cache, h: Handle): (s': Cache)
    requires Inv(s) && h in s.entries
    ensures Inv(s')
  {
    hide DirtyAdd, Destroy, Near, EntryOk;
    InvNear(s, h);
    DirtyAddNear(s, h);
    OutdatedOk(s, h);
    if s.entries[h].flags.lru then EntryDelete(DirtyAdd(s, h), h) else DirtyAdd(s, h)
  }

  lemma OutdatedOk(s: Cache, h: Handle)
    requires Inv(s) && h in s.entries && Near(DirtyAdd(s, h), h)
    ensures !s.entries[h].flags.lru ==> Inv(DirtyAdd(s, h))
    ensures s.entries[h].flags.lru ==> !DirtyAdd(s, h).entries[h].flags.deleteMe
  {
    assert At(s, h, false);
    if !s.entries[h].flags.dirty {
      DirtyAddForm(s, h);
      hide DirtyAdd;
      assert AtNear(DirtyAdd(s, h), h, h);
    }
    if !s.entries[h].flags.lru { NearInv(DirtyAdd(s, h), h); }
  }

  /**
   evas_cache_image_request: what stat() says of the file, and what the constructor makes of
   it (None if it fails), decide between the entry that is there and a new one.
   */
  function Request(s: Cache, k: Key, stat: Option<Stamp>, made: Option<(nat, seq<int>)>): (r: (Cache, Option<Handle>))
    requires Inv(s)
    ensures Inv(r.0)
  {
    hide Near, Inv, Destroy, DirtyAdd, ActivAdd, LruDel, HashesOk, EntryOk;
    Found(s, k);
    if k in s.activ && Fresh(s.entries[s.activ[k]], stat) then
      var h := s.activ[k];
      ReferOk(s, h);
      (Refer(s, h), Some(h))
    else if k !in s.activ && k in s.inactiv && Fresh(s.entries[s.inactiv[k]], stat) then
      var h := s.inactiv[k];
      InvNear(s, h);
      ReviveNear(s, h);
      EntryFlags(s, h);
      (Refer(ActivAdd(LruDel(s, h), h), h), Some(h))
    else
      var s1 := if k in s.activ then Outdate(s, s.activ[k])
                else if k in s.inactiv then Outdate(s, s.inactiv[k]) else s;
      OutdatedKey(s, k, s1);
      if stat.None? || made.None? then (s1, None)
      else
        NewActiveInv(s1, k, stat.value, made.value.0, made.value.1);
        (NewActive(s1, k, stat.value, made.value.0, made.value.1), Some(s1.next))
  }

  lemma ReferOk(s: Cache, h: Handle)
    requires Inv(s) && h in s.entries
    ensures Near(s, h)
    ensures s.entries[h].flags.deleteMe ==> s.entries[h].preload && s.entries[h].flags.pending
  {
    InvNear(s, h);
    assert At(s, h, false);
  }

  lemma EntryFlags(s: Cache, h: Handle)
    requires Inv(s) && h in s.entries && s.entries[h].flags.lru
    ensures !s.entries[h].flags.deleteMe && !s.entries[h].preload && s.entries[h].references == 0
  {
    assert At(s, h, false);
  }

  /** What Outdate leaves: no entry under the key, and the others untouched. */
  lemma OutdatedKey(s: Cache, k: Key, s1: Cache)
    requires Inv(s)
    requires s1 == if k in s.activ then (Found(s, k); Outdate(s, s.activ[k]))
                   else if k in s.inactiv then (Found(s, k); Outdate(s, s.inactiv[k])) else s
    ensures k !in s1.activ && k !in s1.inactiv
    ensures s1.next == s.next && s1.informed == s.informed && s1.limit == s.limit
    ensures s1.entries.Keys <= s.entries.Keys
    ensures forall x {:trigger s1.entries[x]} :: x in s1.entries ==>
              s1.entries[x] == s.entries[x]
              || (s.entries[x].key == Some(k) && s1.entries[x].flags.dirty && s1.entries[x].key.None?
                  && s1.entries[x].references == s.entries[x].references
                  && s1.entries[x].pixels == s.entries[x].pixels)
    ensures k in s.inactiv ==> s.inactiv[k] !in s1.entries
    ensures k in s.activ ==> s.activ[k] in s1.entries && s1.entries[s.activ[k]].flags.dirty
    ensures k in s.activ ==> s1.entries.Keys == s.entries.Keys
  {
    Found(s, k);
    if k in s.activ || k in s.inactiv {
      var h := if k in s.activ then s.activ[k] else s.inactiv[k];
      InvNear(s, h);
      DirtyAddForm(s, h);
      DirtyAddNear(s, h);
      var t := DirtyAdd(s, h);
      hide DirtyAdd, Inv, Near;
      if k !in s.activ {
        DestroyInv(t, h);
        assert t.entries[h].flags.dirty && !t.entries[h].preload;
        hide Destroy;
      }
    }
  }

  /** A request is answered only by an active entry of that key whose stamp is the file's. */
  lemma RequestIsFresh(s: Cache, k: Key, stat: Option<Stamp>, made: Option<(nat, seq<int>)>)
    requires Inv(s)
    ensures var (s', r) := Request(s, k, stat, made);
            r.Some? ==>
              && var h := r.value;
              && h in s'.entries && s'.entries[h].flags.activ && s'.entries[h].key == Some(k)
              && Fresh(s'.entries[h], stat)
              && k in s'.activ && s'.activ[k] == h
              && s'.entries[h].references == 1 + (if h in s.entries then s.entries[h].references else 0)
  {
    hide Inv, Near, Outdate, EntryOk;
    Found(s, k);
    if k in s.activ && Fresh(s.entries[s.activ[k]], stat) {
    } else if k !in s.activ && k in s.inactiv && Fresh(s.entries[s.inactiv[k]], stat) {
      InvNear(s, s.inactiv[k]);
      ReviveNear(s, s.inactiv[k]);
    } else {
      var s1 := Request(s, k, None, None).0;
      OutdatedKey(s, k, s1);
      NextIsFree(s);
      if stat.Some? && made.Some? {
        NewActiveInv(s1, k, stat.value, made.value.0, made.value.1);
      }
    }
  }

  /** An entry found to be stale is dirtied if it is in use and deleted if it is not. */
  lemma RequestOutdates(s: Cache, k: Key, stat: Option<Stamp>, made: Option<(nat, seq<int>)>)
    requires Inv(s)
    ensures var s' := Request(s, k, stat, made).0;
            && (k in s.activ && s.activ[k] in s.entries && !Fresh(s.entries[s.activ[k]], stat) ==>
                  s.activ[k] in s'.entries && s'.entries[s.activ[k]].flags.dirty
                  && s'.entries[s.activ[k]].references == s.entries[s.activ[k]].references)
            && (k in s.inactiv && s.inactiv[k] in s.entries && !Fresh(s.entries[s.inactiv[k]], stat) ==>
                  s.inactiv[k] !in s'.entries)
  {
    hide Inv, Outdate, EntryOk;
    Found(s, k);
    if (k in s.activ && !Fresh(s.entries[s.activ[k]], stat)) || (k in s.inactiv && !Fresh(s.entries[s.inactiv[k]], stat)) {
      var s1 := if k in s.activ then Outdate(s, s.activ[k]) else Outdate(s, s.inactiv[k]);
      OutdatedKey(s, k, s1);
      NextIsFree(s);
      if stat.Some? && made.Some? {
        NewActiveInv(s1, k, stat.value, made.value.0, made.value.1);
      }
    }
  }

  // ----- copy on write --------------------------------------------------------------

  /** Takes the entry for its only holder: it leaves the hashes. */
  function MakeDirty(s: Cache, h: Handle): (s': Cache)
    requires Inv(s) && h in s.entries && s.entries[h].references > 0
    ensures Inv(s')
  {
    hide DirtyAdd, Near, EntryOk;
    InvNear(s, h);
    DirtyAddNear(s, h);
    Referenced(s, h);
    OutdatedOk(s, h);
    DirtyAdd(s, h)
  }

  lemma Referenced(s: Cache, h: Handle)
    requires Inv(s) && h in s.entries && s.entries[h].references > 0
    ensures !s.entries[h].flags.lru
  {
    assert At(s, h, false);
  }

  /** A copy of h for the caller, who gives up his reference to h itself. */
  function Copy(s: Cache, h: Handle): (s': Cache)
    requires Inv(s) && h in s.entries
    ensures Inv(s')
  {
    hide NewDirty, Inv, Near, EntryOk;
    NewDirtyInv(s, s.entries[h].size, s.entries[h].pixels);
    NextIsFree(s);
    Release(NewDirty(s, s.entries[h].size, s.entries[h].pixels), h)
  }

  /** evas_cache_image_dirty, by a holder; `copied` is whether the copy, if needed, can be made. */
  function Dirty(s: Cache, h: Handle, copied: bool): (r: (Cache, Option<Handle>))
    requires Inv(s) && h in s.entries && s.entries[h].references > 0
    ensures Inv(r.0)
  {
    if s.entries[h].flags.dirty then (s, Some(h))
    else if s.entries[h].references == 1 then (MakeDirty(s, h), Some(h))
    else if !copied then (Release(s, h), None)
    else (Copy(s, h), Some(s.next))
  }

  /** evas_cache_image_alone, by a holder. */
  function Alone(s: Cache, h: Handle, copied: bool): (r: (Cache, Option<Handle>))
    requires Inv(s) && h in s.entries && s.entries[h].references > 0
    ensures Inv(r.0)
  {
    if s.entries[h].references <= 1 then (if s.entries[h].flags.dirty then s else MakeDirty(s, h), Some(h))
    else if !copied then (Release(s, h), None)
    else (Copy(s, h), Some(s.next))
  }

  /** Nobody but the caller can see entry h: one reference, and under no key. */
  ghost predicate Private(s: Cache, h: Handle) {
    && h in s.entries && s.entries[h].references == 1 && s.entries[h].flags.dirty
    && (forall k :: k in s.activ ==> s.activ[k] != h)
    && (forall k :: k in s.inactiv ==> s.inactiv[k] != h)
  }

  lemma DirtyIsUnfindable(s: Cache, h: Handle)
    requires Inv(s) && h in s.entries && s.entries[h].flags.dirty
    ensures forall k :: k in s.activ ==> s.activ[k] != h
    ensures forall k :: k in s.inactiv ==> s.inactiv[k] != h
  {
    assert At(s, h, false);
    forall k ensures k in s.activ ==> s.activ[k] != h { assert ActivOk(s, k); }
    forall k ensures k in s.inactiv ==> s.inactiv[k] != h { assert InactivOk(s, k); }
  }

  /** One reference moves from h to h', which is h or new; all pixels stay as they were. */
  ghost predicate MovedReference(s: Cache, s': Cache, h: Handle, h': Handle)
    requires h in s.entries
  {
    && s'.entries.Keys == s.entries.Keys + {h'}
    && h' in s'.entries && s'.entries[h'].pixels == s.entries[h].pixels
    && (h' != h ==> h' !in s.entries)
    && (forall x {:trigger s'.entries[x]} :: x in s.entries ==>
          && x in s'.entries && s'.entries[x].pixels == s.entries[x].pixels
          && s'.entries[x].references == s.entries[x].references - (if x == h && h' != h then 1 else 0)
          && (x != h' ==> s'.entries[x].flags == s.entries[x].flags && s'.entries[x].key == s.entries[x].key))
  }

  lemma MakeDirtyMoves(s: Cache, h: Handle)
    requires Inv(s) && h in s.entries && s.entries[h].references > 0
    ensures MovedReference(s, MakeDirty(s, h), h, h)
    ensures MakeDirty(s, h).entries[h].flags.dirty
  {
    hide DirtyAdd;
    assert At(s, h, false);
    if s.entries[h].flags.dirty { DirtyAddNothing(s, h); } else { DirtyAddForm(s, h); }
  }

  lemma DirtyAddNothing(s: Cache, h: Handle)
    requires h in s.entries && s.entries[h].flags.dirty
    ensures DirtyAdd(s, h) == s
  {}

  lemma CopyMoves(s: Cache, h: Handle)
    requires Inv(s) && h in s.entries && s.entries[h].references > 1
    ensures MovedReference(s, Copy(s, h), h, s.next)
    ensures Copy(s, h).entries[s.next].flags.dirty && Copy(s, h).entries[s.next].references == 1
  {
    NewDirtyInv(s, s.entries[h].size, s.entries[h].pixels);
    NextIsFree(s);
  }

  /**
   Copy on write: the holder gets an entry with the same pixels that only it references and
   that no lookup can find; everybody else's pixels, flags and references are unchanged.
   */
  lemma DirtyIsolates(s: Cache, h: Handle, copied: bool)
    requires Inv(s) && h in s.entries && s.entries[h].references > 0 && !s.entries[h].flags.dirty
    ensures var (s', r) := Dirty(s, h, copied);
            && (r.None? <==> s.entries[h].references > 1 && !copied)
            && (r.Some? ==> Private(s', r.value) && MovedReference(s, s', h, r.value))
  {
    hide Inv, MakeDirty, Copy, Release, MovedReference;
    if s.entries[h].references == 1 {
      MakeDirtyMoves(s, h);
      OneReference(s, MakeDirty(s, h), h);
      DirtyIsUnfindable(MakeDirty(s, h), h);
    } else if copied {
      CopyMoves(s, h);
      NewOne(s, Copy(s, h), h);
      DirtyIsUnfindable(Copy(s, h), s.next);
    }
  }

  lemma OneReference(s: Cache, s': Cache, h: Handle)
    requires h in s.entries && MovedReference(s, s', h, h)
    ensures h in s'.entries && s'.entries[h].references == s.entries[h].references
  {}

  lemma NewOne(s: Cache, s': Cache, h: Handle)
    requires h in s.entries && MovedReference(s, s', h, s.next)
    ensures s.next in s'.entries
  {}

  /** The same for an entry that may be dirty and shared. */
  lemma AloneIsolates(s: Cache, h: Handle, copied: bool)
    requires Inv(s) && h in s.entries && s.entries[h].references > 0
    ensures var (s', r) := Alone(s, h, copied);
            && (r.None? <==> s.entries[h].references > 1 && !copied)
            && (r.Some? ==> Private(s', r.value) && MovedReference(s, s', h, r.value))
  {
    hide Inv, MakeDirty, Copy, Release;
    if s.entries[h].references == 1 {
      if s.entries[h].flags.dirty {
        DirtyIsUnfindable(s, h);
        assert s.entries.Keys + {h} == s.entries.Keys;
      } else {
        MakeDirtyMoves(s, h);
        DirtyIsUnfindable(MakeDirty(s, h), h);
      }
    } else if copied {
      CopyMoves(s, h);
      DirtyIsUnfindable(Copy(s, h), s.next);
    }
  }

  // ----- preloading -----------------------------------------------------------------

  /** evas_cache_image_preload_data, by a holder. */
  function PreloadData(s: Cache, h: Handle, t: Target): (s': Cache)
    requires Inv(s) && h in s.entries && s.entries[h].references > 0
    ensures Inv(s')
  {
    hide Near, EntryOk;
    var e := s.entries[h];
    PreloadDataOk(s, h, t);
    if e.flags.loaded && e.pixels != [] then s.(informed := s.informed + [(h, t)])
    else if e.flags.preloadDone then
      WithFlags(s, h, e.flags.(loaded := false)).(informed := s.informed + [(h, t)])
    else if e.preload then
      WithTargets(WithFlags(s, h, e.flags.(loaded := false)), h, e.targets + [t])
    else
      StartJob(s, h, t)
  }

  /** evas_preload_thread_run for h, which had no job. */
  function StartJob(s: Cache, h: Handle, t: Target): Cache
    requires h in s.entries
  {
    var e := s.entries[h];
    s.(entries := s.entries[h := e.(flags := e.flags.(loaded := false, pending := false),
                                    targets := e.targets + [t], preload := true)],
       preload := s.preload + [h],
       jobs := s.jobs[h := Queued])
  }

  lemma PreloadDataOk(s: Cache, h: Handle, t: Target)
    requires Inv(s) && h in s.entries && s.entries[h].references > 0
    ensures var e := s.entries[h];
            && Inv(s.(informed := s.informed + [(h, t)]))
            && Inv(WithFlags(s, h, e.flags.(loaded := false)).(informed := s.informed + [(h, t)]))
            && Inv(WithTargets(WithFlags(s, h, e.flags.(loaded := false)), h, e.targets + [t]))
            && (!e.preload ==> Inv(StartJob(s, h, t)))
  {
    var e := s.entries[h];
    assert At(s, h, false);
    InvNear(s, h);
    var a := s.(informed := s.informed + [(h, t)]);
    var b := WithFlags(s, h, e.flags.(loaded := false)).(informed := s.informed + [(h, t)]);
    var c := WithTargets(WithFlags(s, h, e.flags.(loaded := false)), h, e.targets + [t]);
    TouchedNear(s, a, h);
    TouchedNear(s, b, h);
    TouchedNear(s, c, h);
    assert AtNear(a, h, h) && AtNear(b, h, h) && AtNear(c, h, h);
    NearInv(a, h);
    NearInv(b, h);
    NearInv(c, h);
    if !e.preload { StartJobInv(s, h, t); }
  }

  lemma StartJobInv(s: Cache, h: Handle, t: Target)
    requires Inv(s) && h in s.entries && s.entries[h].references > 0 && !s.entries[h].preload
    ensures Inv(StartJob(s, h, t))
  {
    var s' := StartJob(s, h, t);
    assert At(s, h, false);
    AppendNoDup(s.preload, h);
    forall x ensures At(s', x, false) { assert At(s, x, false); }
    forall q ensures ActivOk(s', q) && InactivOk(s', q) { assert ActivOk(s, q) && InactivOk(s, q); }
    SumSame(s.entries, s'.entries, s.lru);
  }

  /** A thread of the pool takes the job of h. */
  function TakeJob(s: Cache, h: Handle): (s': Cache)
    requires Inv(s) && h in s.jobs && s.jobs[h] == Queued
    ensures Inv(s')
  {
    TakeJobInv(s, h);
    s.(jobs := s.jobs[h := Taken])
  }

  lemma TakeJobInv(s: Cache, h: Handle)
    requires Inv(s) && h in s.jobs && s.jobs[h] == Queued
    ensures Inv(s.(jobs := s.jobs[h := Taken]))
  {
    var s' := s.(jobs := s.jobs[h := Taken]);
    forall x ensures At(s', x, false) { assert At(s, x, false); }
    forall q ensures ActivOk(s', q) && InactivOk(s', q) { assert ActivOk(s, q) && InactivOk(s, q); }
  }

  /** _evas_cache_image_async_heavy: the image is decoded, or fails to be. */
  function HeavyDone(s: Cache, h: Handle, decoded: Option<(nat, seq<int>)>): (s': Cache)
    requires Inv(s) && h in s.jobs && s.jobs[h] != Queued
    ensures Inv(s')
  {
    assert At(s, h, false);
    HeavyDoneInv(s, h, decoded);
    if s.entries[h].flags.loaded || decoded.None? then s else Decoded(s, h, decoded.value)
  }

  function Decoded(s: Cache, h: Handle, d: (nat, seq<int>)): Cache
    requires h in s.entries
  {
    var e := s.entries[h];
    s.(entries := s.entries[h := e.(flags := e.flags.(loaded := true), size := d.0, pixels := d.1)])
  }

  lemma HeavyDoneInv(s: Cache, h: Handle, decoded: Option<(nat, seq<int>)>)
    requires Inv(s) && h in s.jobs && h in s.entries
    ensures decoded.Some? ==> Inv(Decoded(s, h, decoded.value))
  {
    if decoded.Some? {
      var s' := Decoded(s, h, decoded.value);
      assert At(s, h, false);
      forall x ensures At(s', x, false) { assert At(s, x, false); }
      forall q ensures ActivOk(s', q) && InactivOk(s', q) { assert ActivOk(s, q) && InactivOk(s, q); }
      SumSame(s.entries, s'.entries, s.lru);
    }
  }

  /** evas_cache_image_set */
  function SetLimit(s: Cache, limit: Option<nat>): (s': Cache)
    requires Inv(s)
    ensures Inv(s')
  {
    if s.limit == limit then s
    else
      LimitInv(s, limit);
      Flush(s.(limit := limit))
  }

  lemma LimitInv(s: Cache, limit: Option<nat>)
    requires Inv(s)
    ensures Inv(s.(limit := limit))
  {
    var s' := s.(limit := limit);
    forall x ensures At(s', x, false) { assert At(s, x, false); }
    forall q ensures ActivOk(s', q) && InactivOk(s', q) { assert ActivOk(s, q) && InactivOk(s, q); }
  }
}
