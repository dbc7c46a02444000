/**
 What a reference is worth: when an entry that somebody holds is freed all the same.
 */
module ImageReferences {
  import opened Lists
  import opened ImageEntries
  import opened ImageOps
  import opened ImageRuns
  import opened ImageSafety

  // ----- flushing -------------------------------------------------------------------

  /** A flush frees nothing that is referenced. */
  lemma FlushKeepsReferenced(s: Cache, x: Handle)
    requires Inv(s) && x in s.entries && s.entries[x].references > 0
    ensures x in Flush(s).entries && Flush(s).entries[x] == s.entries[x]
  {
    assert At(s, x, false);
    hide Inv, Flush;
    var k := FlushKeepsPrefix(s);
  }

  /** Whether an entry just put on the LRU survives the flush that follows. */
  predicate Affordable(s: Cache, size: nat) {
    s.limit.None? || size <= s.limit.value
  }

  /** The entry released last stays exactly when it alone is within the limit. */
  lemma FlushHead(s: Cache, h: Handle, rest: seq<Handle>)
    requires Inv(s) && s.lru == [h] + rest && h in s.entries
    ensures h in Flush(s).entries <==> Affordable(s, s.entries[h].size)
    ensures h in Flush(s).entries ==> Flush(s).entries[h] == s.entries[h]
    ensures Flush(s).informed == s.informed
  {
    NoDupHead(s.lru);
    hide Inv, Flush;
    var k := FlushKeepsPrefix(s);
    if k == 0 {
      assert h in s.lru[0..];
      assert s.limit.Some?;
      assert s.lru[..1] == [h] && Sum(s.entries, s.lru[..1]) == s.entries[h].size + Sum(s.entries, []);
    } else {
      assert s.lru[k..] == s.lru[1..][k - 1..];
      assert h !in s.lru[k..];
      assert s.lru[..k][0] == h;
      assert Sum(s.entries, s.lru[..k]) >= s.entries[h].size;
    }
  }

  lemma NoDupHead(q: seq<Handle>)
    requires q != [] && NoDup(q)
    ensures q[0] !in q[1..]
  {}

  // ----- the end of a cancelled job -------------------------------------------------

  /** Whether the callback of a cancelled job leaves the entry alive. */
  predicate Survives(s: Cache, e: Entry) {
    !e.flags.dirty && !e.flags.deleteMe && (e.references > 0 || Affordable(s, e.size))
  }

  lemma KeptForm(s: Cache, h: Handle)
    requires Near(s, h) && h in s.jobs && h in s.entries && !s.entries[h].flags.dirty
    ensures !s.entries[h].flags.lru && s.entries[h].flags.activ && s.entries[h].key.Some?
  {
    assert AtNear(s, h, h);
  }

  /**
   What the callback of a cancelled job does: the entry is freed exactly when it is dirty, or
   was to be deleted, or nobody references it and it is over the limit; and its targets hear
   about it exactly when it had been loaded and was neither dirty nor to be deleted.
   */
  lemma CancelledOutcome(s: Cache, h: Handle)
    requires Near(s, h) && h in s.jobs && h in s.entries
    ensures var s' := CancelCallback(s, h);
            var e := s.entries[h];
            && (h in s'.entries <==> Survives(s, e))
            && (h in s'.entries ==>
                  && !s'.entries[h].preload && s'.entries[h].references == e.references
                  && (s'.entries[h].flags.lru <==> e.references == 0)
                  && s'.entries[h].targets == if e.flags.loaded then [] else e.targets)
            && s'.informed == s.informed + if !e.flags.dirty && !e.flags.deleteMe && e.flags.loaded
                                           then Informs(h, e.targets) else []
  {
    hide Destroy, Near, Inv, Flush, LruAdd;
    JobOverNear(s, h);
    var t0 := JobOver(s, h);
    var f := t0.entries[h].flags;
    if f.deleteMe || f.dirty {
      PendingNear(t0, h, f.(pending := true, deleteMe := false));
      DestroyInv(WithFlags(t0, h, f.(pending := true, deleteMe := false)), h);
    } else {
      KeptForm(s, h);
      CancelledButKept(t0, h);
      var t := WithFlags(t0, h, f.(pending := true));
      var t2 := if f.loaded then Notify(t, h) else t;
      if t2.entries[h].references == 0 {
        LruAddForm(t2, h);
        FlushHead(LruAdd(t2, h), h, t2.lru);
      }
    }
  }

  lemma CancelledOthers(s: Cache, h: Handle, x: Handle)
    requires Near(s, h) && h in s.jobs && x in s.entries && x != h && s.entries[x].references > 0
    ensures x in CancelCallback(s, h).entries
  {
    hide Destroy, Near, Inv, Flush, LruAdd;
    JobOverNear(s, h);
    var t0 := JobOver(s, h);
    var f := t0.entries[h].flags;
    if f.deleteMe || f.dirty {
      PendingNear(t0, h, f.(pending := true, deleteMe := false));
      DestroyInv(WithFlags(t0, h, f.(pending := true, deleteMe := false)), h);
    } else {
      KeptForm(s, h);
      CancelledButKept(t0, h);
      var t := WithFlags(t0, h, f.(pending := true));
      var t2 := if f.loaded then Notify(t, h) else t;
      if t2.entries[h].references == 0 {
        LruAddForm(t2, h);
        FlushKeepsReferenced(LruAdd(t2, h), x);
      }
    }
  }

  // ----- who frees a referenced entry -----------------------------------------------

  /** Calling off a preload frees its entry exactly when the job was queued and its callback does. */
  lemma CallOffOutcome(s: Cache, h: Handle)
    requires Near(s, h) && h in s.entries && s.entries[h].preload
    ensures h in s.jobs
    ensures h in CallOff(s, h).entries <==> s.jobs[h] != Queued || Survives(s, s.entries[h])
    ensures s.jobs[h] != Queued ==> h in CallOff(s, h).jobs && CallOff(s, h).jobs[h] == Flagged
    ensures forall x {:trigger x in CallOff(s, h).entries} ::
              x in s.entries && x != h && s.entries[x].references > 0 ==> x in CallOff(s, h).entries
  {
    hide Near, Inv, CancelCallback, Survives;
    HasJob(s, h);
    if s.jobs[h] == Queued {
      CancelledOutcome(s, h);
      forall x | x in s.entries && x != h && s.entries[x].references > 0 ensures x in CancelCallback(s, h).entries {
        CancelledOthers(s, h, x);
      }
    }
  }

  /**
   Deleting an entry frees it at once but when a thread has its job: then it is marked, its
   targets are let go, and the job is flagged.
   */
  lemma DeleteOutcome(s: Cache, h: Handle)
    requires Near(s, h) && h in s.entries && !s.entries[h].flags.deleteMe
    ensures s.entries[h].preload ==> h in s.jobs
    ensures var s' := EntryDelete(s, h);
            && (h in s'.entries <==> s.entries[h].preload && s.jobs[h] != Queued)
            && (h in s'.entries ==> s'.entries[h].flags.deleteMe && s'.entries[h].targets == []
                                    && h in s'.jobs && s'.jobs[h] == Flagged)
  {
    hide Near, Inv, Destroy, CancelCallback;
    if s.entries[h].preload {
      HasJob(s, h);
      DeleteLater(s, h);
      var s1 := WithFlags(s, h, s.entries[h].flags.(deleteMe := true));
      WithTargetsNear(s1, h, []);
      CallOffOutcome(WithTargets(s1, h, []), h);
    } else {
      DestroyInv(s, h);
      Destroyed(s, h);
    }
  }

  lemma Destroyed(s: Cache, h: Handle)
    requires h in s.entries && Near(s, h)
    ensures h !in Destroy(s, h).entries
  {}

  /** A job that ends uncancelled tells every target, in order, once, and touches no other entry. */
  lemma EndOutcome(s: Cache, h: Handle)
    requires Inv(s) && h in s.jobs && s.jobs[h] == Taken
    ensures h in s.entries
    ensures var s', e := EndCallback(s, h), s.entries[h];
            && s'.informed == s.informed + Informs(h, e.targets) && s'.jobs == s.jobs - {h}
            && s'.entries == s.entries[h := e.(preload := false, targets := [],
                                               flags := e.flags.(preloadDone := e.flags.loaded))]
            && h !in s'.preload && h !in s'.pending
  {
    hide Near, Inv;
    JobLive(s, h);
  }

  /** The drop of the last reference that frees the entry at once. */
  predicate DropFrees(s: Cache, h: Handle)
    requires h in s.entries
  {
    var e := s.entries[h];
    && e.references <= 1
    && (if e.preload then h in s.jobs && s.jobs[h] == Queued && !Survives(s, e.(references := 0))
        else e.flags.dirty || !Affordable(s, e.size))
  }

  lemma ReleaseOutcome(s: Cache, h: Handle, x: Handle)
    requires Inv(s) && h in s.entries && x in s.entries && s.entries[x].references > 0
    ensures x in Release(s, h).entries <==> !(x == h && DropFrees(s, h))
  {
    hide Near, Inv, Destroy, LruAdd, CallOff, Flush, EntryOk;
    var e := s.entries[h];
    var n := if e.references == 0 then 0 else e.references - 1;
    var s1 := WithReferences(s, h, n);
    InvNear(s, h);
    Released(s, h, n);
    if n == 0 {
      if e.preload {
        WithTargetsNear(s1, h, []);
        CallOffOutcome(WithTargets(s1, h, []), h);
      } else if e.flags.dirty {
        NotAwaited(s, h);
        DestroyInv(s1, h);
      } else {
        NotAwaited(s, h);
        LruAddInv(s1, h);
        ReleasedToLru(s, s1, h, x);
      }
    }
  }

  lemma NotAwaited(s: Cache, h: Handle)
    requires Inv(s) && h in s.entries && !s.entries[h].preload
    ensures !s.entries[h].flags.deleteMe
    ensures s.entries[h].flags.lru ==> s.entries[h].references == 0
  {
    assert At(s, h, false);
  }

  lemma ReleasedToLru(s: Cache, s1: Cache, h: Handle, x: Handle)
    requires Inv(s) && h in s.entries && x in s.entries && s.entries[x].references > 0
    requires !s.entries[h].preload && !s.entries[h].flags.dirty && s.entries[h].references <= 1
    requires s1 == WithReferences(s, h, 0) && Inv(LruAdd(s1, h))
    ensures x in Flush(LruAdd(s1, h)).entries <==> x != h || Affordable(s, s.entries[h].size)
  {
    assert At(s, h, false);
    hide Inv, Flush;
    if s.entries[h].flags.lru {
      assert LruAdd(s1, h) == s1;
      FlushKeepsReferenced(s1, x);
    } else {
      LruAddForm(s1, h);
      hide LruAdd;
      if x == h {
        FlushHead(LruAdd(s1, h), h, s1.lru);
      } else {
        FlushKeepsReferenced(LruAdd(s1, h), x);
      }
    }
  }

  lemma OutdateKeeps(s: Cache, k: Key, x: Handle, stat: Option<Stamp>, made: Option<(nat, seq<int>)>)
    requires Inv(s) && x in s.entries && s.entries[x].references > 0
    ensures x in ImageRuns.Request(s, k, stat, made).0.entries
  {
    hide Inv, Near, EntryOk, Outdate, LruDel, ActivAdd, Fresh;
    Found(s, k);
    if k in s.activ && Fresh(s.entries[s.activ[k]], stat) {
    } else if k !in s.activ && k in s.inactiv && Fresh(s.entries[s.inactiv[k]], stat) {
      InvNear(s, s.inactiv[k]);
      ReviveNear(s, s.inactiv[k]);
    } else {
      var s1 := if k in s.activ then Outdate(s, s.activ[k])
                else if k in s.inactiv then Outdate(s, s.inactiv[k]) else s;
      OutdatedKey(s, k, s1);
      OutdateSpares(s, k, x);
      if stat.Some? && made.Some? {
        NewActiveInv(s1, k, stat.value, made.value.0, made.value.1);
      }
    }
  }

  /** Only an unreferenced entry is deleted for being stale. */
  lemma OutdateSpares(s: Cache, k: Key, x: Handle)
    requires Inv(s) && x in s.entries && s.entries[x].references > 0
    ensures k in s.activ ==> s.activ[k] in s.entries && x in Outdate(s, s.activ[k]).entries
    ensures k !in s.activ && k in s.inactiv ==> s.inactiv[k] in s.entries && x in Outdate(s, s.inactiv[k]).entries
  {
    Found(s, k);
    if k in s.inactiv { EntryFlags(s, s.inactiv[k]); }
    if k in s.activ || k in s.inactiv {
      var h := if k in s.activ then s.activ[k] else s.inactiv[k];
      InvNear(s, h);
      DirtyAddForm(s, h);
      DirtyAddNear(s, h);
      if k !in s.activ { DestroyInv(DirtyAdd(s, h), h); }
    }
    hide Inv, Near, DirtyAdd, Destroy;
  }

  /** The calls and callbacks that free an entry somebody references. */
  predicate FreesReferenced(s: Cache, c: Call, x: Handle)
    requires x in s.entries
  {
    match c
    case Drop(h) => h == x && DropFrees(s, x)
    case PreloadCancel(h, t) =>
      && h == x && s.entries[x].preload && x in s.jobs && s.jobs[x] == Queued
      && RemoveTarget(s.entries[x].targets, t) == [] && (s.entries[x].flags.dirty || s.entries[x].flags.deleteMe)
    case Done(h) =>
      && h == x && x in s.jobs && s.jobs[x] == Flagged && (s.entries[x].flags.dirty || s.entries[x].flags.deleteMe)
    case _ => false
  }

  /**
   References keep an entry alive but for this: besides the drop of the last one, a referenced
   entry is freed exactly when a cancelled job is called back for it while it is dirty or was
   to be deleted, be it at once or when its event arrives.
   */
  lemma ReferencedLeavesIff(s: Cache, c: Call, x: Handle)
    requires Inv(s) && ImageSafety.Enabled(s, c) && x in s.entries && s.entries[x].references > 0
    ensures x !in Step(s, c).entries <==> FreesReferenced(s, c, x)
  {
    hide Inv, Near, EntryOk, Release, MakeDirty, Copy, Flush, CallOff, CancelCallback, EndCallback, DropFrees;
    match c
    case Request(k, stat, made) => OutdateKeeps(s, k, x, stat, made);
    case Drop(h) => ReleaseOutcome(s, h, x);
    case Dirty(h, copied) => HolderKeeps(s, h, x);
    case Alone(h, copied) => HolderKeeps(s, h, x);
    case Image(size, pixels) =>
      NewDirtyInv(s, size, pixels);
    case Preload(h, t) => PreloadDataOk(s, h, t);
    case PreloadCancel(h, t) => TargetLeaves(s, h, t, x);
    case Limit(l) =>
      LimitInv(s, l);
      FlushKeepsReferenced(s.(limit := l), x);
    case Take(h) => TakeJobInv(s, h);
    case Heavy(h, d) =>
      JobLive(s, h);
      HeavyDoneInv(s, h, d);
    case Done(h) => DoneLeaves(s, h, x);
  }

  lemma JobLive(s: Cache, h: Handle)
    requires Inv(s) && h in s.jobs
    ensures h in s.entries && Near(s, h)
  {
    assert At(s, h, false);
    InvNear(s, h);
  }

  lemma HolderKeeps(s: Cache, h: Handle, x: Handle)
    requires Inv(s) && h in s.entries && s.entries[h].references > 0 && x in s.entries && s.entries[x].references > 0
    ensures x in MakeDirty(s, h).entries
    ensures s.entries[h].references > 1 ==> x in Release(s, h).entries && x in Copy(s, h).entries
  {
    hide Inv, Near, EntryOk;
    MakeDirtyMoves(s, h);
    if s.entries[h].references > 1 {
      CopyMoves(s, h);
      ReleaseOutcome(s, h, x);
    }
    hide MakeDirty, Copy, Release;
  }

  lemma TargetLeaves(s: Cache, h: Handle, t: Target, x: Handle)
    requires Inv(s) && h in s.entries && x in s.entries && s.entries[x].references > 0
    ensures x !in PreloadRemove(s, h, t).entries <==> FreesReferenced(s, PreloadCancel(h, t), x)
  {
    hide Near, EntryOk, CallOff;
    var s1 := WithTargets(s, h, RemoveTarget(s.entries[h].targets, t));
    InvNear(s, h);
    assert At(s, h, false);
    WithTargetsNear(s, h, RemoveTarget(s.entries[h].targets, t));
    if s1.entries[h].targets == [] && s1.entries[h].preload {
      CallOffOutcome(s1, h);
    }
  }

  lemma DoneLeaves(s: Cache, h: Handle, x: Handle)
    requires Inv(s) && h in s.jobs && s.jobs[h] != Queued && x in s.entries && s.entries[x].references > 0
    ensures x !in JobDone(s, h).entries <==> FreesReferenced(s, Done(h), x)
  {
    hide Near, Inv, CancelCallback;
    JobLive(s, h);
    if s.jobs[h] == Flagged {
      CancelledOutcome(s, h);
      if x != h { CancelledOthers(s, h, x); }
    } else {
      JobOverNear(s, h);
      EndedOk(s, h);
    }
  }

  /**
   The failing run: the one holder of an entry whose preload was called off dirties it, and
   the event of the job frees it under him.
   */
  lemma DirtiedWhileCancelledIsFreed(s: Cache, h: Handle)
    requires Inv(s) && h in s.entries && s.entries[h].references == 1 && !s.entries[h].flags.dirty
    requires h in s.jobs && s.jobs[h] == Flagged
    ensures var calls := [Dirty(h, true), Done(h)];
            Legal(s, calls) && h !in After(s, calls).entries
  {
    hide Inv, Near, EntryOk, JobDone;
    var s1 := Step(s, Dirty(h, true));
    MakeDirtyMoves(s, h);
    DirtiedJobs(s, h);
    ReferencedLeavesIff(s1, Done(h), h);
    var calls := [Dirty(h, true), Done(h)];
    assert calls[1..] == [Done(h)] && calls[1..][1..] == [];
    assert After(s, calls) == Step(s1, Done(h)) by {
      assert After(s1, [Done(h)]) == After(Step(s1, Done(h)), []);
    }
  }

  lemma DirtiedJobs(s: Cache, h: Handle)
    requires Inv(s) && h in s.entries && s.entries[h].references > 0 && !s.entries[h].flags.dirty
    ensures MakeDirty(s, h).jobs == s.jobs && MakeDirty(s, h).entries[h].references == s.entries[h].references
  {
    assert At(s, h, false);
    DirtyAddForm(s, h);
    hide DirtyAdd;
  }

  lemma Then(s: Cache, c: Call, rest: seq<Call>)
    requires Inv(s) && ImageSafety.Enabled(s, c) && Legal(Step(s, c), rest)
    ensures Legal(s, [c] + rest) && After(s, [c] + rest) == After(Step(s, c), rest)
  {
    hide Inv, Step, ImageSafety.Enabled;
    assert ([c] + rest)[1..] == rest;
  }

  lemma PreloadStarts(s: Cache, h: Handle, t: Target)
    requires Inv(s) && h in s.entries && s.entries[h].references > 0
    requires !s.entries[h].flags.preloadDone && !s.entries[h].preload && s.entries[h].pixels == []
    ensures Step(s, Preload(h, t)) == StartJob(s, h, t)
  {
    hide Inv;
  }

  /** Such a state comes about: request, preload, a thread takes the job, the target leaves. */
  lemma CancelledStateIsReached(k: Key, m: Stamp, d: (nat, seq<int>), target: Target)
    requires d.1 == []
    ensures var calls := [Request(k, Some(m), Some(d))] + ([Preload(0, target)] + ([Take(0)] + ([PreloadCancel(0, target)] + [])));
            Legal(EMPTY, calls)
            && var s := After(EMPTY, calls);
               && 0 in s.entries && s.entries[0].references == 1 && !s.entries[0].flags.dirty
               && 0 in s.jobs && s.jobs[0] == Flagged
  {
    EmptyInv();
    RequestOnEmpty(k, m, d);
    var s1 := Step(EMPTY, Request(k, Some(m), Some(d)));
    PreloadStarts(s1, 0, target);
    var s2 := Step(s1, Preload(0, target));
    TakeStarts(s2);
    var s3 := Step(s2, Take(0));
    CalledOffTaken(s3, 0, target);
    Then(s3, PreloadCancel(0, target), []);
    Then(s2, Take(0), [PreloadCancel(0, target)] + []);
    Then(s1, Preload(0, target), [Take(0)] + ([PreloadCancel(0, target)] + []));
    Then(EMPTY, Request(k, Some(m), Some(d)), [Preload(0, target)] + ([Take(0)] + ([PreloadCancel(0, target)] + [])));
    hide Inv, Near, EntryOk, Step, Legal, After;
  }

  lemma TakeStarts(s: Cache)
    requires Inv(s) && 0 in s.jobs && s.jobs[0] == Queued
    ensures ImageSafety.Enabled(s, Take(0)) && Step(s, Take(0)) == s.(jobs := s.jobs[0 := Taken])
  {
    hide Inv;
  }

  lemma RequestOnEmpty(k: Key, m: Stamp, d: (nat, seq<int>))
    ensures Inv(EMPTY)
    ensures var s1 := Step(EMPTY, Request(k, Some(m), Some(d)));
            && s1.entries == map[0 := Blank(Some(k), m, d.0, d.1).(references := s1.entries[0].references, flags := s1.entries[0].flags)]
            && s1.entries[0].references == 1 && !s1.entries[0].flags.dirty && !s1.entries[0].flags.preloadDone
            && !s1.entries[0].preload && s1.entries[0].targets == []
  {
    EmptyInv();
    hide Inv;
  }

  lemma CalledOffTaken(s: Cache, h: Handle, t: Target)
    requires Inv(s) && h in s.entries && s.entries[h].preload && s.entries[h].targets == [t]
    requires h in s.jobs && s.jobs[h] == Taken
    ensures var s' := PreloadRemove(s, h, t);
            && h in s'.entries && s'.entries[h].references == s.entries[h].references
            && s'.entries[h].flags.dirty == s.entries[h].flags.dirty && h in s'.jobs && s'.jobs[h] == Flagged
  {
    hide Near, EntryOk;
    var s1 := WithTargets(s, h, []);
    InvNear(s, h);
    assert At(s, h, false);
    WithTargetsNear(s, h, []);
    HasJob(s1, h);
    assert RemoveTarget([t], t) == [];
  }
}
