/**
 The library image cache: entries that move between the dirty list, the active hash and the
 inactive hash with its LRU list, and the preload jobs that are out for them.

 Entries are records behind handles, so that dealloc is the removal of a handle. `jobs` is
 what the preload pool knows of the entries; `informed` is the history of the targets that
 were told that their image is loaded.
 */
module ImageEntries {
  import opened Lists

  type Handle = nat
  type Key = string
  type Target = nat

  /** What stat() tells about a file, as far as _timestamp_compare looks at it. */
  datatype Stamp = Stamp(mtime: int, size: int, ino: int, mtimeNsec: int)

  datatype Flags = Flags(
    dirty: bool, activ: bool, lru: bool, loaded: bool, preloadDone: bool, deleteMe: bool, pending: bool)

  datatype Entry = Entry(
    key: Option<Key>,
    flags: Flags,
    references: nat,
    preload: bool,
    tstamp: Stamp,
    targets: seq<Target>,
    size: nat,
    pixels: seq<int>)

  /** A job in the pool: still queued, taken by a thread, or taken and flagged as cancelled. */
  datatype JobState = Queued | Taken | Flagged

  datatype Cache = Cache(
    entries: map<Handle, Entry>,
    dirty: seq<Handle>,
    activ: map<Key, Handle>,
    inactiv: map<Key, Handle>,
    lru: seq<Handle>,
    usage: int,
    limit: Option<nat>,
    preload: seq<Handle>,
    pending: seq<Handle>,
    jobs: map<Handle, JobState>,
    informed: seq<(Handle, Target)>,
    next: Handle)

  // ----- consistency ----------------------------------------------------------------

  /**
   An entry is in exactly one place, and what it may be while it is there. While an entry is
   in hand it may have lost its last reference or its preload, and not yet be put away.
   */
  ghost predicate EntryOk(s: Cache, h: Handle, inHand: bool)
    requires h in s.entries
  {
    var e := s.entries[h];
    var f := e.flags;
    && h < s.next
    && (if f.dirty then !f.activ && !f.lru && e.key.None?
        else if f.activ then !f.lru && e.key.Some? && e.key.value in s.activ && s.activ[e.key.value] == h
        else f.lru && e.key.Some? && e.key.value in s.inactiv && s.inactiv[e.key.value] == h)
    && (f.lru ==> e.references == 0 && !e.preload && !f.deleteMe)
    && (inHand || (f.deleteMe ==> e.preload && f.pending))
    && (inHand || (e.references == 0 ==> f.lru || (e.preload && f.pending)))
    && (e.preload && h in s.jobs ==> (f.pending <==> s.jobs[h] == Flagged))
  }

  /** Lists, hashes and the pool refer to h exactly as its flags say. */
  ghost predicate At(s: Cache, h: Handle, inHand: bool) {
    && (h in s.dirty <==> h in s.entries && s.entries[h].flags.dirty)
    && (h in s.lru <==> h in s.entries && s.entries[h].flags.lru)
    && (h in s.preload <==> h in s.entries && s.entries[h].preload && !s.entries[h].flags.pending)
    && (h in s.pending <==> h in s.entries && s.entries[h].preload && s.entries[h].flags.pending)
    && (h in s.jobs <==> h in s.entries && s.entries[h].preload)
    && (h in s.entries ==> EntryOk(s, h, inHand))
  }

  /** The entry found under key k is an active entry of that key. */
  ghost predicate ActivOk(s: Cache, k: Key) {
    k in s.activ ==>
      && k !in s.inactiv
      && s.activ[k] in s.entries
      && s.entries[s.activ[k]].flags.activ
      && s.entries[s.activ[k]].key == Some(k)
  }

  ghost predicate InactivOk(s: Cache, k: Key) {
    k in s.inactiv ==>
      && s.inactiv[k] in s.entries
      && s.entries[s.inactiv[k]].flags.lru
      && s.entries[s.inactiv[k]].key == Some(k)
  }

  ghost predicate ListsOk(s: Cache) {
    NoDup(s.dirty) && NoDup(s.lru) && NoDup(s.preload) && NoDup(s.pending)
  }

  function Sum(entries: map<Handle, Entry>, q: seq<Handle>): nat {
    if q == [] then 0
    else (if q[0] in entries then entries[q[0]].size else 0) + Sum(entries, q[1..])
  }

  ghost predicate HashesOk(s: Cache) {
    && (forall k {:trigger ActivOk(s, k)} :: ActivOk(s, k))
    && (forall k {:trigger InactivOk(s, k)} :: InactivOk(s, k))
  }

  ghost predicate Inv(s: Cache) {
    && (forall h {:trigger At(s, h, false)} :: At(s, h, false))
    && HashesOk(s) && ListsOk(s)
    && s.usage == Sum(s.entries, s.lru)
  }

  ghost predicate AtNear(s: Cache, h: Handle, m: Handle) {
    At(s, h, h == m)
  }

  /** The invariant, with entry m in hand. */
  ghost predicate Near(s: Cache, m: Handle) {
    && (forall h {:trigger AtNear(s, h, m)} :: AtNear(s, h, m))
    && HashesOk(s) && ListsOk(s)
    && s.usage == Sum(s.entries, s.lru)
  }

  lemma {:induction false} SumSame(entries: map<Handle, Entry>, entries': map<Handle, Entry>, q: seq<Handle>)
    requires forall h {:trigger h in q} :: h in q ==>
               (h in entries <==> h in entries') && (h in entries ==> entries'[h].size == entries[h].size)
    ensures Sum(entries', q) == Sum(entries, q)
  {
    if q != [] {
      assert q[0] in q && forall h :: h in q[1..] ==> h in q;
      SumSame(entries, entries', q[1..]);
    }
  }

  lemma {:induction false} SumWithout(entries: map<Handle, Entry>, q: seq<Handle>, h: Handle)
    requires NoDup(q) && h in entries
    ensures Sum(entries, Without(q, {h})) == Sum(entries, q) - if h in q then entries[h].size else 0
  {
    if q != [] {
      SumWithout(entries, q[1..], h);
      if q[0] == h {
        WithoutNone(q[1..], {h});
      } else {
        var w := Without(q[1..], {h});
        assert ([q[0]] + w)[1..] == w;
      }
    }
  }

  lemma {:induction false} SumSplit(entries: map<Handle, Entry>, a: seq<Handle>, b: seq<Handle>)
    ensures Sum(entries, a + b) == Sum(entries, a) + Sum(entries, b)
  {
    if a == [] {
      assert a + b == b;
    } else {
      assert (a + b)[1..] == a[1..] + b;
      SumSplit(entries, a[1..], b);
    }
  }

  // ----- moving between the places --------------------------------------------------

  function WithFlags(s: Cache, h: Handle, f: Flags): (s': Cache)
    requires h in s.entries
    ensures s'.entries.Keys == s.entries.Keys
  {
    s.(entries := s.entries[h := s.entries[h].(flags := f)])
  }

  function DirtyDel(s: Cache, h: Handle): (s': Cache)
    requires h in s.entries
    ensures s'.entries.Keys == s.entries.Keys
  {
    var f := s.entries[h].flags;
    if !f.dirty then s
    else WithFlags(s, h, f.(dirty := false)).(dirty := Without(s.dirty, {h}))
  }

  function ActivDel(s: Cache, h: Handle): (s': Cache)
    requires h in s.entries
    ensures s'.entries.Keys == s.entries.Keys
  {
    var e := s.entries[h];
    if !e.flags.activ || e.key.None? then s
    else WithFlags(s, h, e.flags.(activ := false)).(activ := s.activ - {e.key.value})
  }

  function LruDel(s: Cache, h: Handle): (s': Cache)
    requires h in s.entries
    ensures s'.entries.Keys == s.entries.Keys
  {
    var e := s.entries[h];
    if !e.flags.lru || e.key.None? then s
    else WithFlags(s, h, e.flags.(lru := false)).(
         inactiv := s.inactiv - {e.key.value},
         lru := Without(s.lru, {h}),
         usage := s.usage - e.size)
  }

  function DirtyAdd(s: Cache, h: Handle): (s': Cache)
    requires h in s.entries
    ensures s'.entries.Keys == s.entries.Keys
  {
    hide ActivDel, LruDel;
    if s.entries[h].flags.dirty then s
    else
      var t := LruDel(ActivDel(s, h), h);
      t.(entries := t.entries[h := t.entries[h].(flags := t.entries[h].flags.(dirty := true), key := None)],
         dirty := [h] + t.dirty)
  }

  function ActivAdd(s: Cache, h: Handle): (s': Cache)
    requires h in s.entries
    ensures s'.entries.Keys == s.entries.Keys
  {
    hide DirtyDel, LruDel;
    if s.entries[h].flags.activ then s
    else
      var t := LruDel(DirtyDel(s, h), h);
      var e := t.entries[h];
      if e.key.None? then t
      else WithFlags(t, h, e.flags.(activ := true)).(activ := t.activ[e.key.value := h])
  }

  function LruAdd(s: Cache, h: Handle): (s': Cache)
    requires h in s.entries
    ensures s'.entries.Keys == s.entries.Keys
  {
    hide DirtyDel, ActivDel;
    if s.entries[h].flags.lru then s
    else
      var t := ActivDel(DirtyDel(s, h), h);
      var e := t.entries[h];
      if e.key.None? then t
      else WithFlags(t, h, e.flags.(lru := true)).(
           inactiv := t.inactiv[e.key.value := h],
           lru := [h] + t.lru,
           usage := t.usage + e.size)
  }

  lemma PrependNoDup(q: seq<Handle>, h: Handle)
    requires NoDup(q) && h !in q
    ensures NoDup([h] + q)
  {
    assert ([h] + q)[1..] == q;
  }

  /** s' is s without h in the hashes; the other entries are as they were. */
  ghost predicate Unhashed(s: Cache, s': Cache, h: Handle)
    requires h in s.entries
  {
    var gone: set<Key> := if s.entries[h].key.Some? then {s.entries[h].key.value} else {};
    && s'.activ == s.activ - (if s.entries[h].flags.activ then gone else {})
    && s'.inactiv == s.inactiv - (if s.entries[h].flags.lru then gone else {})
    && s'.entries.Keys - {h} == s.entries.Keys - {h} && s'.entries.Keys <= s.entries.Keys
    && (forall x {:trigger s'.entries[x]} :: x in s'.entries && x != h ==> s'.entries[x] == s.entries[x])
  }

  lemma UnhashedOk(s: Cache, s': Cache, h: Handle)
    requires Near(s, h) && h in s.entries && Unhashed(s, s', h)
    ensures HashesOk(s')
  {
    assert AtNear(s, h, h);
    forall k ensures ActivOk(s', k) && InactivOk(s', k) {
      assert ActivOk(s, k) && InactivOk(s, k);
      assert forall x :: x in s.entries && x != h ==> x in s'.entries.Keys - {h};
    }
  }

  lemma InvNear(s: Cache, h: Handle)
    requires Inv(s)
    ensures Near(s, h)
  {
    forall x ensures AtNear(s, x, h) { assert At(s, x, false); }
  }

  lemma NearInv(s: Cache, h: Handle)
    requires Near(s, h) && (h in s.entries ==> EntryOk(s, h, false))
    ensures Inv(s)
  {
    forall x ensures At(s, x, false) { assert AtNear(s, x, h); }
  }

  /** From the hashes to the dirty list: the entry loses its key, and cannot be found again. */
  lemma DirtyAddNear(s: Cache, h: Handle)
    requires Near(s, h) && h in s.entries
    ensures Near(DirtyAdd(s, h), h)
    ensures DirtyAdd(s, h).entries[h].flags.dirty
  {
    assert AtNear(s, h, h);
    if !s.entries[h].flags.dirty {
      DirtyAddForm(s, h);
      hide DirtyAdd;
      DirtyAddPlaces(s, h);
      DirtyAddLists(s, h);
      UnhashedOk(s, DirtyAdd(s, h), h);
    }
  }

  /** What DirtyAdd makes of an entry that is in one of the hashes. */
  ghost predicate DirtyAdded(s: Cache, s': Cache, h: Handle)
    requires h in s.entries
  {
    var e := s.entries[h];
    && s'.entries == s.entries[h := e.(flags := e.flags.(activ := false, lru := false, dirty := true), key := None)]
    && s'.dirty == [h] + s.dirty
    && s'.lru == (if e.flags.lru then Without(s.lru, {h}) else s.lru)
    && s'.usage == (if e.flags.lru then s.usage - e.size else s.usage)
    && s'.limit == s.limit && s'.preload == s.preload && s'.pending == s.pending && s'.jobs == s.jobs
    && s'.informed == s.informed && s'.next == s.next
    && Unhashed(s, s', h)
  }

  lemma DirtyAddForm(s: Cache, h: Handle)
    requires h in s.entries && EntryOk(s, h, true) && !s.entries[h].flags.dirty
    ensures DirtyAdded(s, DirtyAdd(s, h), h)
  {
    var e := s.entries[h];
    if e.flags.activ {
      assert LruDel(ActivDel(s, h), h) == ActivDel(s, h);
    } else {
      assert ActivDel(s, h) == s;
    }
    hide ActivDel, LruDel, EntryOk;
    assert DirtyAdd(s, h).entries == s.entries[h := e.(flags := e.flags.(activ := false, lru := false, dirty := true), key := None)];
  }

  lemma DirtyAddPlaces(s: Cache, h: Handle)
    requires Near(s, h) && h in s.entries && !s.entries[h].flags.dirty
    ensures forall x {:trigger AtNear(DirtyAdd(s, h), x, h)} :: AtNear(DirtyAdd(s, h), x, h)
  {
    hide NoDup, Sum, ListsOk, DirtyAdd;
    var s' := DirtyAdd(s, h);
    assert AtNear(s, h, h);
    DirtyAddForm(s, h);
    forall x ensures AtNear(s', x, h) {
      assert AtNear(s, x, h);
      if x in s.entries && x != h && s.entries[x].key.Some? {
        assert ActivOk(s, s.entries[x].key.value) && InactivOk(s, s.entries[x].key.value);
      }
    }
  }

  lemma DirtyAddLists(s: Cache, h: Handle)
    requires Near(s, h) && h in s.entries && !s.entries[h].flags.dirty
    ensures var s' := DirtyAdd(s, h);
            ListsOk(s') && s'.usage == Sum(s'.entries, s'.lru) && s'.entries[h].flags.dirty
  {
    hide HashesOk, DirtyAdd;
    var s' := DirtyAdd(s, h);
    assert AtNear(s, h, h);
    DirtyAddForm(s, h);
    PrependNoDup(s.dirty, h);
    WithoutNoDup(s.lru, {h});
    SumWithout(s.entries, s.lru, h);
    SumSame(s.entries, s'.entries, s'.lru);
  }

  /** An entry that is neither referenced nor preloading goes from the active hash to the LRU. */
  lemma LruAddInv(s: Cache, h: Handle)
    requires Near(s, h) && h in s.entries && !s.entries[h].preload && s.entries[h].references == 0
    requires !s.entries[h].flags.dirty && !s.entries[h].flags.deleteMe
    ensures Inv(LruAdd(s, h))
  {
    assert AtNear(s, h, h);
    if s.entries[h].flags.lru {
      NearInv(s, h);
    } else {
      LruAddPlaces(s, h);
      LruAddHashes(s, h);
      LruAddLists(s, h);
    }
  }

  /** What LruAdd makes of an active entry. */
  lemma LruAddForm(s: Cache, h: Handle)
    requires h in s.entries && s.entries[h].key.Some?
    requires !s.entries[h].flags.dirty && s.entries[h].flags.activ && !s.entries[h].flags.lru
    ensures var e := s.entries[h];
            LruAdd(s, h) == s.(
              entries := s.entries[h := e.(flags := e.flags.(activ := false, lru := true))],
              activ := s.activ - {e.key.value}, inactiv := s.inactiv[e.key.value := h],
              lru := [h] + s.lru, usage := s.usage + e.size)
  {
    hide DirtyDel, ActivDel;
    ActiveForm(s, h);
    var e := s.entries[h];
    var out, listed := e.(flags := e.flags.(activ := false)), e.(flags := e.flags.(activ := false, lru := true));
    assert s.entries[h := out][h := listed] == s.entries[h := listed];
  }

  lemma ActiveForm(s: Cache, h: Handle)
    requires h in s.entries && s.entries[h].key.Some? && !s.entries[h].flags.dirty && s.entries[h].flags.activ
    ensures DirtyDel(s, h) == s
    ensures var e := s.entries[h];
            ActivDel(s, h) == s.(entries := s.entries[h := e.(flags := e.flags.(activ := false))],
                                 activ := s.activ - {e.key.value})
  {}

  lemma LruAddPlaces(s: Cache, h: Handle)
    requires Near(s, h) && h in s.entries && !s.entries[h].preload && s.entries[h].references == 0
    requires !s.entries[h].flags.dirty && !s.entries[h].flags.deleteMe && !s.entries[h].flags.lru
    ensures forall x {:trigger At(LruAdd(s, h), x, false)} :: At(LruAdd(s, h), x, false)
  {
    hide NoDup, Sum, ListsOk;
    var s' := LruAdd(s, h);
    assert AtNear(s, h, h);
    LruAddForm(s, h);
    hide LruAdd;
    var k0 := s.entries[h].key.value;
    assert ActivOk(s, k0) && InactivOk(s, k0);
    forall x ensures At(s', x, false) { assert AtNear(s, x, h); }
  }

  lemma LruAddHashes(s: Cache, h: Handle)
    requires Near(s, h) && h in s.entries
    requires !s.entries[h].flags.dirty && !s.entries[h].flags.lru
    ensures HashesOk(LruAdd(s, h))
  {
    hide NoDup, Sum, ListsOk;
    var s' := LruAdd(s, h);
    assert AtNear(s, h, h);
    LruAddForm(s, h);
    hide LruAdd;
    forall k ensures ActivOk(s', k) && InactivOk(s', k) {
      assert ActivOk(s, k) && InactivOk(s, k);
    }
  }

  lemma LruAddLists(s: Cache, h: Handle)
    requires Near(s, h) && h in s.entries
    requires !s.entries[h].flags.dirty && !s.entries[h].flags.lru
    ensures var s' := LruAdd(s, h); ListsOk(s') && s'.usage == Sum(s'.entries, s'.lru)
  {
    hide HashesOk;
    var s' := LruAdd(s, h);
    assert AtNear(s, h, h);
    LruAddForm(s, h);
    hide LruAdd;
    PrependNoDup(s.lru, h);
    SumSame(s.entries, s'.entries, s.lru);
    assert s'.lru[1..] == s.lru;
  }

  /** From the LRU back to the active hash, for an entry that is about to be referenced. */
  lemma ReviveNear(s: Cache, h: Handle)
    requires Near(s, h) && h in s.entries && s.entries[h].flags.lru
    ensures Near(ActivAdd(LruDel(s, h), h), h)
    ensures ActivAdd(LruDel(s, h), h).entries
            == s.entries[h := s.entries[h].(flags := s.entries[h].flags.(lru := false, activ := true))]
  {
    var s' := ActivAdd(LruDel(s, h), h);
    assert AtNear(s, h, h);
    var k0 := s.entries[h].key.value;
    assert ActivOk(s, k0) && InactivOk(s, k0);
    WithoutNoDup(s.lru, {h});
    forall k ensures ActivOk(s', k) && InactivOk(s', k) {
      assert ActivOk(s, k) && InactivOk(s, k);
    }
    forall x ensures AtNear(s', x, h) { assert AtNear(s, x, h); }
    SumWithout(s.entries, s.lru, h);
    SumSame(s.entries, s'.entries, s'.lru);
  }

  /** dealloc: the entry leaves the list or hash it is in and is freed. */
  function Destroy(s: Cache, h: Handle): Cache
    requires h in s.entries
  {
    hide DirtyDel, ActivDel, LruDel;
    var t := LruDel(ActivDel(DirtyDel(s, h), h), h);
    t.(entries := t.entries - {h})
  }

  lemma DestroyInv(s: Cache, h: Handle)
    requires Near(s, h) && h in s.entries && !s.entries[h].preload
    ensures Inv(Destroy(s, h))
    ensures Destroyed(s, Destroy(s, h), h)
  {
    assert AtNear(s, h, h);
    DestroyForm(s, h);
    hide Destroy;
    DestroyedPlaces(s, Destroy(s, h), h);
    DestroyedLists(s, Destroy(s, h), h);
    UnhashedOk(s, Destroy(s, h), h);
  }

  /** The entry is gone from everywhere, and nothing else has changed. */
  ghost predicate Destroyed(s: Cache, s': Cache, h: Handle)
    requires h in s.entries
  {
    var e := s.entries[h];
    && s'.entries == s.entries - {h}
    && s'.dirty == (if e.flags.dirty then Without(s.dirty, {h}) else s.dirty)
    && s'.lru == (if e.flags.lru then Without(s.lru, {h}) else s.lru)
    && s'.usage == s.usage - (if e.flags.lru then e.size else 0)
    && s'.preload == s.preload && s'.pending == s.pending && s'.jobs == s.jobs
    && s'.informed == s.informed && s'.limit == s.limit && s'.next == s.next
    && Unhashed(s, s', h)
  }

  lemma DestroyForm(s: Cache, h: Handle)
    requires h in s.entries && EntryOk(s, h, true)
    ensures Destroyed(s, Destroy(s, h), h)
  {
    var f := s.entries[h].flags;
    assert Destroy(s, h).entries == s.entries - {h};
  }

  lemma DestroyedPlaces(s: Cache, s': Cache, h: Handle)
    requires Near(s, h) && h in s.entries && !s.entries[h].preload && Destroyed(s, s', h)
    ensures forall x {:trigger At(s', x, false)} :: At(s', x, false)
  {
    hide NoDup, Sum, ListsOk;
    assert AtNear(s, h, h);
    forall x ensures At(s', x, false) {
      assert AtNear(s, x, h);
      if x in s.entries && x != h && s.entries[x].key.Some? {
        assert ActivOk(s, s.entries[x].key.value) && InactivOk(s, s.entries[x].key.value);
      }
    }
  }

  lemma DestroyedLists(s: Cache, s': Cache, h: Handle)
    requires Near(s, h) && h in s.entries && !s.entries[h].preload && Destroyed(s, s', h)
    ensures ListsOk(s') && s'.usage == Sum(s'.entries, s'.lru)
  {
    hide HashesOk;
    assert AtNear(s, h, h);
    WithoutNoDup(s.dirty, {h});
    WithoutNoDup(s.lru, {h});
    SumWithout(s.entries, s.lru, h);
    if !s.entries[h].flags.lru { WithoutNone(s.lru, {h}); }
    SumSame(s.entries, s'.entries, s'.lru);
  }
}
