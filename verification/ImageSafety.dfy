/** Runs of the image cache: sequences of calls and of pool events, in any order. */
module ImageSafety {
  import opened Lists
  import opened ImageEntries
  import opened ImageOps
  import opened ImageRuns

  datatype Call =
    | Request(key: Key, stat: Option<Stamp>, made: Option<(nat, seq<int>)>)
    | Drop(h: Handle)
    | Dirty(h: Handle, copied: bool)
    | Alone(h: Handle, copied: bool)
    | Image(size: nat, pixels: seq<int>)
    | Preload(h: Handle, target: Target)
    | PreloadCancel(h: Handle, target: Target)
    | Limit(limit: Option<nat>)
    | Take(h: Handle)
    | Heavy(h: Handle, decoded: Option<(nat, seq<int>)>)
    | Done(h: Handle)

  /** evas_cache_image_init */
  const EMPTY := Cache(map[], [], map[], map[], [], 0, Some(0), [], [], map[], [], 0)

  lemma EmptyInv()
    ensures Inv(EMPTY)
  {}

  /** Callers name live entries, and entries they hold where they change them; the pool is as it is. */
  predicate Enabled(s: Cache, c: Call) {
    match c
    case Request(k, stat, made) => true
    case Drop(h) => h in s.entries
    case Dirty(h, copied) => h in s.entries && s.entries[h].references > 0
    case Alone(h, copied) => h in s.entries && s.entries[h].references > 0
    case Image(size, pixels) => true
    case Preload(h, t) => h in s.entries && s.entries[h].references > 0
    case PreloadCancel(h, t) => h in s.entries
    case Limit(l) => true
    case Take(h) => h in s.jobs && s.jobs[h] == Queued
    case Heavy(h, d) => h in s.jobs && s.jobs[h] != Queued
    case Done(h) => h in s.jobs && s.jobs[h] != Queued
  }

  function Step(s: Cache, c: Call): (s': Cache)
    requires Inv(s) && Enabled(s, c)
    ensures Inv(s')
  {
    hide Near, EntryOk;
    match c
    case Request(k, stat, made) => ImageRuns.Request(s, k, stat, made).0
    case Drop(h) => Release(s, h)
    case Dirty(h, copied) => ImageRuns.Dirty(s, h, copied).0
    case Alone(h, copied) => ImageRuns.Alone(s, h, copied).0
    case Image(size, pixels) => NewDirtyInv(s, size, pixels); NewDirty(s, size, pixels)
    case Preload(h, t) => PreloadData(s, h, t)
    case PreloadCancel(h, t) => PreloadRemove(s, h, t)
    case Limit(l) => SetLimit(s, l)
    case Take(h) => TakeJob(s, h)
    case Heavy(h, d) => HeavyDone(s, h, d)
    case Done(h) => JobDone(s, h)
  }

  ghost predicate Legal(s: Cache, calls: seq<Call>)
    requires Inv(s)
    decreases |calls|
  {
    calls == [] || (Enabled(s, calls[0]) && Legal(Step(s, calls[0]), calls[1..]))
  }

  ghost function After(s: Cache, calls: seq<Call>): (s': Cache)
    requires Inv(s) && Legal(s, calls)
    ensures Inv(s')
    decreases |calls|
  {
    if calls == [] then s else After(Step(s, calls[0]), calls[1..])
  }

  function Places(s: Cache, h: Handle): nat {
    (if h in s.dirty then 1 else 0)
    + (if exists k :: k in s.activ && s.activ[k] == h then 1 else 0)
    + (if (exists k :: k in s.inactiv && s.inactiv[k] == h) && h in s.lru then 1 else 0)
  }

  /**
   After every run: an entry a job is out for is live, and knows it; each entry is in exactly
   one of the dirty list, the active hash, and the inactive hash with the LRU; what is on the
   LRU is neither referenced nor preloading; no key is in both hashes; and the usage is the
   sum of the sizes of the LRU entries.
   */
  lemma EveryRunIsConsistent(calls: seq<Call>, h: Handle)
    requires Inv(EMPTY) && Legal(EMPTY, calls)
    ensures var s := After(EMPTY, calls);
            && (h in s.jobs <==> h in s.entries && s.entries[h].preload)
            && (h in s.entries ==> Places(s, h) == 1)
            && (h in s.lru ==> h in s.entries && s.entries[h].references == 0 && !s.entries[h].preload)
            && s.activ.Keys !! s.inactiv.Keys
            && s.usage == Sum(s.entries, s.lru)
  {
    var s := After(EMPTY, calls);
    assert At(s, h, false);
    forall k ensures k !in s.activ || k !in s.inactiv { assert ActivOk(s, k); }
    if h in s.entries {
      forall k | k in s.activ && s.activ[k] == h ensures s.entries[h].flags.activ { assert ActivOk(s, k); }
      forall k | k in s.inactiv && s.inactiv[k] == h ensures s.entries[h].flags.lru { assert InactivOk(s, k); }
    }
  }

  // ----- a dirty entry is never found again -----------------------------------------

  /** Dirty entries stay dirty until they are freed, and handles are not used again. */
  ghost predicate Evolves(s: Cache, s': Cache) {
    && s.next <= s'.next
    && (forall x {:trigger s'.entries[x]} :: x in s'.entries && x < s.next ==>
          x in s.entries && (s.entries[x].flags.dirty ==> s'.entries[x].flags.dirty))
  }

  lemma EvolvesTwice(s: Cache, s1: Cache, s2: Cache)
    requires Evolves(s, s1) && Evolves(s1, s2)
    ensures Evolves(s, s2)
  {
    forall x | x in s2.entries && x < s.next
      ensures x in s.entries && (s.entries[x].flags.dirty ==> s2.entries[x].flags.dirty)
    {
      assert x in s1.entries;
      assert s1.entries[x] == s1.entries[x];
    }
  }

  lemma FlushEvolves(s: Cache)
    requires Inv(s)
    ensures Evolves(s, Flush(s))
  {
    var k := FlushKeepsPrefix(s);
  }

  lemma CancelEvolves(s: Cache, h: Handle)
    requires Near(s, h) && h in s.jobs
    ensures Evolves(s, CancelCallback(s, h))
  {
    hide Near, Inv, Destroy, LruAdd, Flush, Evolves;
    JobOverNear(s, h);
    var t0 := JobOver(s, h);
    var f := t0.entries[h].flags;
    if f.deleteMe || f.dirty {
      CancelledForGood(t0, h);
      DeletedEvolves(s, h);
    } else {
      CancelledButKept(t0, h);
      KeptEvolves(s, h);
      var t := WithFlags(t0, h, f.(pending := true));
      var t2 := if f.loaded then Notify(t, h) else t;
      if t2.entries[h].references == 0 {
        LruAddEvolves(t2, h);
        FlushEvolves(LruAdd(t2, h));
        EvolvesTwice(s, t2, LruAdd(t2, h));
        EvolvesTwice(s, LruAdd(t2, h), Flush(LruAdd(t2, h)));
      }
    }
  }

  lemma DeletedEvolves(s: Cache, h: Handle)
    requires h in s.entries && Near(JobOver(s, h), h)
    ensures var t0 := JobOver(s, h);
            Evolves(s, Destroy(WithFlags(t0, h, t0.entries[h].flags.(pending := true, deleteMe := false)), h))
  {
    var t0 := JobOver(s, h);
    var f := t0.entries[h].flags.(pending := true, deleteMe := false);
    PendingNear(t0, h, f);
    hide Near, Inv, Destroy;
    DestroyInv(WithFlags(t0, h, f), h);
  }

  lemma KeptEvolves(s: Cache, h: Handle)
    requires h in s.entries
    ensures var t0 := JobOver(s, h);
            var t := WithFlags(t0, h, t0.entries[h].flags.(pending := true));
            Evolves(s, if t0.entries[h].flags.loaded then Notify(t, h) else t)
  {}

  lemma CallOffEvolves(s: Cache, h: Handle)
    requires Near(s, h) && h in s.entries && s.entries[h].preload
    ensures Evolves(s, CallOff(s, h))
  {
    HasJob(s, h);
    if !s.entries[h].flags.pending && s.jobs[h] == Queued {
      CancelEvolves(s, h);
    }
    hide Near, CancelCallback;
  }

  lemma RemoveAllEvolves(s: Cache, h: Handle)
    requires Near(s, h) && h in s.entries && s.entries[h].preload
    ensures Evolves(s, PreloadRemoveAll(s, h))
  {
    hide Near, CallOff;
    WithTargetsNear(s, h, []);
    var t := WithTargets(s, h, []);
    CallOffEvolves(t, h);
    EvolvesTwice(s, t, CallOff(t, h));
  }

  lemma ReleaseEvolves(s: Cache, h: Handle)
    requires Inv(s) && h in s.entries
    ensures Evolves(s, Release(s, h))
  {
    hide Near, EntryOk, PreloadRemoveAll, LruAdd, Destroy, Flush, Inv;
    var n := if s.entries[h].references == 0 then 0 else s.entries[h].references - 1;
    var s1 := WithReferences(s, h, n);
    Released(s, h, n);
    assert Evolves(s, s1);
    if n > 0 {
    } else if s.entries[h].preload {
      RemoveAllEvolves(s1, h);
      EvolvesTwice(s, s1, PreloadRemoveAll(s1, h));
    } else if s.entries[h].flags.dirty {
      DestroyInv(s1, h);
    } else {
      LruAddInv(s1, h);
      LruAddEvolves(s1, h);
      FlushEvolves(LruAdd(s1, h));
      EvolvesTwice(s, s1, LruAdd(s1, h));
      EvolvesTwice(s, LruAdd(s1, h), Flush(LruAdd(s1, h)));
    }
  }

  lemma LruAddEvolves(s: Cache, h: Handle)
    requires h in s.entries && !s.entries[h].flags.dirty
    ensures Evolves(s, LruAdd(s, h))
  {}

  lemma MakeDirtyEvolves(s: Cache, h: Handle)
    requires Inv(s) && h in s.entries && s.entries[h].references > 0
    ensures Evolves(s, MakeDirty(s, h))
  {
    MakeDirtyMoves(s, h);
    assert At(s, h, false);
    if !s.entries[h].flags.dirty { DirtyAddForm(s, h); }
    hide DirtyAdd;
  }

  lemma CopyEvolves(s: Cache, h: Handle)
    requires Inv(s) && h in s.entries
    ensures Evolves(s, Copy(s, h))
  {
    NewDirtyInv(s, s.entries[h].size, s.entries[h].pixels);
    var t := NewDirty(s, s.entries[h].size, s.entries[h].pixels);
    NextIsFree(s);
    assert Evolves(s, t);
    hide NewDirty, Inv, Release;
    ReleaseEvolves(t, h);
    EvolvesTwice(s, t, Release(t, h));
  }

  lemma RequestEvolves(s: Cache, k: Key, stat: Option<Stamp>, made: Option<(nat, seq<int>)>)
    requires Inv(s)
    ensures Evolves(s, ImageRuns.Request(s, k, stat, made).0)
  {
    hide Inv, Outdate, Refer, Near, Evolves;
    Found(s, k);
    if k in s.activ && Fresh(s.entries[s.activ[k]], stat) {
      ReferOk(s, s.activ[k]);
      ReferEvolves(s, s.activ[k]);
    } else if k !in s.activ && k in s.inactiv && Fresh(s.entries[s.inactiv[k]], stat) {
      ReviveEvolves(s, s.inactiv[k]);
    } else {
      var s1 := if k in s.activ then Outdate(s, s.activ[k]) else if k in s.inactiv then Outdate(s, s.inactiv[k]) else s;
      OutdatedKey(s, k, s1);
      OutdateEvolves(s, s1, k);
      if stat.Some? && made.Some? {
        NewActiveInv(s1, k, stat.value, made.value.0, made.value.1);
        NewEvolves(s1, NewActive(s1, k, stat.value, made.value.0, made.value.1),
                   NewActive(s1, k, stat.value, made.value.0, made.value.1).entries[s1.next]);
        EvolvesTwice(s, s1, NewActive(s1, k, stat.value, made.value.0, made.value.1));
      }
    }
  }

  lemma ReferEvolves(s: Cache, h: Handle)
    requires Near(s, h) && h in s.entries && s.entries[h].flags.activ
    requires s.entries[h].flags.deleteMe ==> s.entries[h].preload && s.entries[h].flags.pending
    ensures Evolves(s, Refer(s, h))
  {}

  lemma ReviveEvolves(s: Cache, h: Handle)
    requires Inv(s) && h in s.entries && s.entries[h].flags.lru
    ensures Near(ActivAdd(LruDel(s, h), h), h)
    ensures ActivAdd(LruDel(s, h), h).entries[h].flags.activ && !ActivAdd(LruDel(s, h), h).entries[h].flags.deleteMe
    ensures Evolves(s, Refer(ActivAdd(LruDel(s, h), h), h))
  {
    InvNear(s, h);
    ReviveNear(s, h);
    EntryFlags(s, h);
    var t := ActivAdd(LruDel(s, h), h);
    assert At(s, h, false);
    assert t.next == s.next;
    hide Near, Inv, ActivAdd, LruDel;
    ReferEvolves(t, h);
  }

  lemma OutdateEvolves(s: Cache, s1: Cache, k: Key)
    requires s1.next == s.next && s1.entries.Keys <= s.entries.Keys
    requires forall x {:trigger s1.entries[x]} :: x in s1.entries ==>
               s1.entries[x] == s.entries[x] || s1.entries[x].flags.dirty
    ensures Evolves(s, s1)
  {}

  lemma NewEvolves(s: Cache, s': Cache, e: Entry)
    requires s'.next == s.next + 1
    requires s'.entries == s.entries[s.next := e]
    ensures Evolves(s, s')
  {}

  lemma StepEvolves(s: Cache, c: Call)
    requires Inv(s) && Enabled(s, c)
    ensures Evolves(s, Step(s, c))
  {
    hide Near, EntryOk, Inv, ImageRuns.Request, Release, MakeDirty, Copy, NewDirty, PreloadRemove, SetLimit, JobDone,
         PreloadData, TakeJob, HeavyDone, Evolves;
    match c
    case Request(k, stat, made) => RequestEvolves(s, k, stat, made);
    case Drop(h) => ReleaseEvolves(s, h);
    case Dirty(h, copied) => ShareEvolves(s, h);
    case Alone(h, copied) => ShareEvolves(s, h);
    case Image(size, pixels) => NewDirtyInv(s, size, pixels); NewEvolves(s, NewDirty(s, size, pixels), NewDirty(s, size, pixels).entries[s.next]);
    case Preload(h, t) => PreloadEvolves(s, h, t);
    case PreloadCancel(h, t) => RemoveEvolves(s, h, t);
    case Limit(l) => LimitEvolves(s, l);
    case Take(h) => TakeEvolves(s, h);
    case Heavy(h, d) => HeavyEvolves(s, h, d);
    case Done(h) => DoneEvolves(s, h);
  }

  lemma PreloadEvolves(s: Cache, h: Handle, t: Target)
    requires Inv(s) && h in s.entries && s.entries[h].references > 0
    ensures Evolves(s, PreloadData(s, h, t))
  {}

  lemma TakeEvolves(s: Cache, h: Handle)
    requires Inv(s) && h in s.jobs && s.jobs[h] == Queued
    ensures Evolves(s, TakeJob(s, h))
  {}

  lemma HeavyEvolves(s: Cache, h: Handle, d: Option<(nat, seq<int>)>)
    requires Inv(s) && h in s.jobs && s.jobs[h] != Queued
    ensures Evolves(s, HeavyDone(s, h, d))
  {
    assert At(s, h, false);
  }

  lemma ShareEvolves(s: Cache, h: Handle)
    requires Inv(s) && h in s.entries && s.entries[h].references > 0
    ensures Evolves(s, s) && Evolves(s, MakeDirty(s, h)) && Evolves(s, Copy(s, h)) && Evolves(s, Release(s, h))
  {
    MakeDirtyEvolves(s, h);
    CopyEvolves(s, h);
    ReleaseEvolves(s, h);
  }

  lemma RemoveEvolves(s: Cache, h: Handle, t: Target)
    requires Inv(s) && h in s.entries
    ensures Evolves(s, PreloadRemove(s, h, t))
  {
    hide Near, EntryOk, CallOff;
    var s1 := WithTargets(s, h, RemoveTarget(s.entries[h].targets, t));
    InvNear(s, h);
    WithTargetsNear(s, h, RemoveTarget(s.entries[h].targets, t));
    if s1.entries[h].targets == [] && s1.entries[h].preload {
      CallOffEvolves(s1, h);
      EvolvesTwice(s, s1, CallOff(s1, h));
    }
  }

  lemma LimitEvolves(s: Cache, l: Option<nat>)
    requires Inv(s)
    ensures Evolves(s, SetLimit(s, l))
  {
    hide Flush;
    LimitInv(s, l);
    FlushEvolves(s.(limit := l));
  }

  lemma DoneEvolves(s: Cache, h: Handle)
    requires Inv(s) && h in s.jobs && s.jobs[h] != Queued
    ensures Evolves(s, JobDone(s, h))
  {
    hide CancelCallback;
    InvNear(s, h);
    assert At(s, h, false);
    if s.jobs[h] == Flagged { CancelEvolves(s, h); }
  }

  /**
   An entry that has become dirty, be it stale or private to its holder, is never handed out
   by a later request: whatever happens in between, it is freed or still dirty.
   */
  lemma {:induction false} DirtyForever(s: Cache, calls: seq<Call>, h: Handle, k: Key,
                                        stat: Option<Stamp>, made: Option<(nat, seq<int>)>)
    requires Inv(s) && Legal(s, calls) && h < s.next
    requires h in s.entries ==> s.entries[h].flags.dirty
    ensures var s' := After(s, calls);
            && (h in s'.entries ==> s'.entries[h].flags.dirty)
            && ImageRuns.Request(s', k, stat, made).1 != Some(h)
    decreases |calls|
  {
    hide Step, Enabled, ImageRuns.Request;
    if calls == [] {
      RequestIsFresh(s, k, stat, made);
      RequestEvolves(s, k, stat, made);
      var s' := ImageRuns.Request(s, k, stat, made).0;
      if h in s'.entries {
        assert s'.entries[h].flags.dirty;
        assert At(s', h, false);
      }
    } else {
      StepEvolves(s, calls[0]);
      var s1 := Step(s, calls[0]);
      if h in s1.entries { assert s1.entries[h] == s1.entries[h]; }
      DirtyForever(s1, calls[1..], h, k, stat, made);
    }
  }
}
