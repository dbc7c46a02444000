/** The image cache as the library runs it: lists, hashes and entries updated in place. */
module ImageCache {
  import opened Lists
  import opened ImageEntries
  import opened ImageOps
  import opened ImageRuns

  class Images {
    var entries: map<Handle, Entry>
    var dirty: seq<Handle>
    var activ: map<Key, Handle>
    var inactiv: map<Key, Handle>
    var lru: seq<Handle>
    var usage: int
    var limit: Option<nat>
    var preload: seq<Handle>
    var pending: seq<Handle>
    var jobs: map<Handle, JobState>
    var informed: seq<(Handle, Target)>
    var next: Handle

    ghost function St(): Cache
      reads this
    {
      Cache(entries, dirty, activ, inactiv, lru, usage, limit, preload, pending, jobs, informed, next)
    }

    /** evas_cache_image_init */
    constructor ()
      ensures Inv(St()) && St() == Cache(map[], [], map[], map[], [], 0, Some(0), [], [], map[], [], 0)
    {
      entries, dirty, activ, inactiv, lru, usage, limit := map[], [], map[], map[], [], 0, Some(0);
      preload, pending, jobs, informed, next := [], [], map[], [], 0;
      new;
    }

    method SetFlags(h: Handle, f: Flags)
      requires h in entries
      modifies this`entries
      ensures St() == WithFlags(old(St()), h, f)
    {
      entries := entries[h := entries[h].(flags := f)];
    }

    method RemoveDirty(h: Handle)
      requires h in entries
      modifies this`entries, this`dirty
      ensures St() == DirtyDel(old(St()), h)
    {
      if !entries[h].flags.dirty { return; }
      SetFlags(h, entries[h].flags.(dirty := false));
      dirty := Without(dirty, {h});
    }

    method RemoveActiv(h: Handle)
      requires h in entries
      modifies this`entries, this`activ
      ensures St() == ActivDel(old(St()), h)
    {
      if !entries[h].flags.activ || entries[h].key.None? { return; }
      SetFlags(h, entries[h].flags.(activ := false));
      activ := activ - {entries[h].key.value};
    }

    method RemoveLru(h: Handle)
      requires h in entries
      modifies this`entries, this`inactiv, this`lru, this`usage
      ensures St() == LruDel(old(St()), h)
    {
      if !entries[h].flags.lru || entries[h].key.None? { return; }
      SetFlags(h, entries[h].flags.(lru := false));
      inactiv := inactiv - {entries[h].key.value};
      lru := Without(lru, {h});
      usage := usage - entries[h].size;
    }

    method AddDirty(h: Handle)
      requires h in entries
      modifies this`entries, this`dirty, this`activ, this`inactiv, this`lru, this`usage
      ensures St() == DirtyAdd(old(St()), h)
    {
      hide ActivDel, LruDel;
      if entries[h].flags.dirty { return; }
      RemoveActiv(h);
      RemoveLru(h);
      SetFlags(h, entries[h].flags.(dirty := true));
      dirty := [h] + dirty;
      entries := entries[h := entries[h].(key := None)];
    }

    method AddActiv(h: Handle)
      requires h in entries
      modifies this`entries, this`dirty, this`activ, this`inactiv, this`lru, this`usage
      ensures St() == ActivAdd(old(St()), h)
    {
      hide DirtyDel, LruDel;
      if entries[h].flags.activ { return; }
      RemoveDirty(h);
      RemoveLru(h);
      if entries[h].key.None? { return; }
      SetFlags(h, entries[h].flags.(activ := true));
      activ := activ[entries[h].key.value := h];
    }

    method AddLru(h: Handle)
      requires h in entries
      modifies this`entries, this`dirty, this`activ, this`inactiv, this`lru, this`usage
      ensures St() == LruAdd(old(St()), h)
    {
      hide DirtyDel, ActivDel;
      if entries[h].flags.lru { return; }
      RemoveDirty(h);
      RemoveActiv(h);
      if entries[h].key.None? { return; }
      SetFlags(h, entries[h].flags.(lru := true));
      inactiv := inactiv[entries[h].key.value := h];
      lru := [h] + lru;
      usage := usage + entries[h].size;
    }

    /** _evas_cache_image_entry_delete */
    method DeleteEntry(h: Handle)
      requires Near(St(), h) && h in entries && (entries[h].flags.deleteMe ==> Inv(St()))
      modifies this
      ensures Inv(St()) && St() == EntryDelete(old(St()), h)
      decreases if entries[h].preload then 1 else 0, 4
    {
      hide Near, Inv, Destroy, DirtyDel, ActivDel, LruDel;
      ghost var s := St();
      if entries[h].flags.deleteMe { return; }
      if entries[h].preload {
        DeleteLater(s, h);
        SetFlags(h, entries[h].flags.(deleteMe := true));
        CancelPreload(h);
        return;
      }
      DestroyInv(s, h);
      Unlink(h);
    }

    /** The entry leaves every list and hash, and is freed. */
    method Unlink(h: Handle)
      requires h in entries
      modifies this
      ensures St() == Destroy(old(St()), h)
    {
      hide DirtyDel, ActivDel, LruDel;
      RemoveDirty(h);
      RemoveActiv(h);
      RemoveLru(h);
      entries := entries - {h};
    }

    /** _evas_cache_image_entry_preload_remove with no target named. */
    method CancelPreload(h: Handle)
      requires Near(St(), h) && h in entries && entries[h].preload
      modifies this
      ensures Inv(St()) && St() == PreloadRemoveAll(old(St()), h)
      decreases 1, 3
    {
      hide Near, Inv, CallOff;
      ghost var s := St();
      while entries[h].targets != []
        invariant h in entries && St() == WithTargets(s, h, entries[h].targets)
        decreases |entries[h].targets|
      {
        entries := entries[h := entries[h].(targets := entries[h].targets[1..])];
      }
      WithTargetsNear(s, h, []);
      CallOffPreload(h);
    }

    /** The preload of an entry without targets is called off, unless it has been already. */
    method CallOffPreload(h: Handle)
      requires Near(St(), h) && h in entries && entries[h].preload
      modifies this
      ensures Inv(St()) && St() == CallOff(old(St()), h)
      decreases 1, 2
    {
      hide Near, Inv, CancelCallback;
      ghost var s := St();
      HasJob(s, h);
      if entries[h].flags.pending {
        CalledOffAlready(s, h);
        return;
      }
      NotPending(s, h);
      preload := Without(preload, {h});
      pending := pending + [h];
      SetFlags(h, entries[h].flags.(pending := true));
      if jobs[h] == Queued {
        jobs := jobs - {h};
        AsyncCancel(h, s);
      } else {
        jobs := jobs[h := Flagged];
        FlagJobKeeps(s, h);
      }
    }

    method ClearPreload(h: Handle, ghost s: Cache)
      requires h in s.entries && Cancelling(s, St(), h)
      modifies this`entries, this`pending
      ensures St() == WithFlags(JobOver(s, h), h, s.entries[h].flags.(pending := true))
    {
      ghost var e := s.entries[h];
      entries := entries[h := entries[h].(preload := false)];
      pending := Without(pending, {h});
      assert entries == s.entries[h := e.(preload := false, flags := e.flags.(pending := true))];
    }

    /** _evas_cache_image_async_cancel, of a job that was out in state s. */
    method AsyncCancel(h: Handle, ghost s: Cache)
      requires Near(s, h) && h in s.jobs && h in s.entries && Cancelling(s, St(), h)
      modifies this
      ensures Inv(St()) && St() == CancelCallback(s, h)
      decreases 1, 1
    {
      hide Near, Inv, Destroy, LruAdd, Flush, Cancelling, Notify;
      JobOverNear(s, h);
      ClearPreload(h, s);
      if entries[h].flags.deleteMe || entries[h].flags.dirty {
        DeleteCancelled(h, JobOver(s, h));
      } else {
        NotListed(s, h);
        KeepEntry(h, JobOver(s, h));
      }
    }

    /** An entry that was only waiting for its preload to end is deleted. */
    method DeleteCancelled(h: Handle, ghost t0: Cache)
      requires Near(t0, h) && h in t0.entries && !t0.entries[h].preload
      requires St() == WithFlags(t0, h, t0.entries[h].flags.(pending := true))
      modifies this
      ensures Inv(St())
      ensures St() == Destroy(WithFlags(t0, h, t0.entries[h].flags.(pending := true, deleteMe := false)), h)
      decreases 1, 0
    {
      hide Near, Inv, Destroy;
      PendingNear(t0, h, t0.entries[h].flags.(pending := true, deleteMe := false));
      SetFlags(h, entries[h].flags.(deleteMe := false));
      assert St() == WithFlags(t0, h, t0.entries[h].flags.(pending := true, deleteMe := false));
      DeleteEntry(h);
    }

    /** An entry whose preload was cancelled but that may stay is put where it belongs. */
    method KeepEntry(h: Handle, ghost t0: Cache)
      requires Near(t0, h) && h in t0.entries && !t0.entries[h].preload
      requires !t0.entries[h].flags.deleteMe && !t0.entries[h].flags.dirty
      requires Without(t0.preload, {h}) == t0.preload && Without(t0.pending, {h}) == t0.pending
      requires St() == WithFlags(t0, h, t0.entries[h].flags.(pending := true))
      modifies this
      ensures Inv(St())
      ensures var t := WithFlags(t0, h, t0.entries[h].flags.(pending := true));
              var t2 := if t0.entries[h].flags.loaded then Notify(t, h) else t;
              if t2.entries[h].references == 0 then Inv(LruAdd(t2, h)) && St() == Flush(LruAdd(t2, h)) else St() == t2
      decreases 1, 0
    {
      hide Near, Inv, LruAdd, Flush;
      ghost var t := WithFlags(t0, h, t0.entries[h].flags.(pending := true));
      CancelledButKept(t0, h);
      if entries[h].flags.loaded {
        AsyncEnd(h);
        assert St() == Notify(t, h);
      }
      if entries[h].references == 0 {
        AddLru(h);
        FlushLru();
      }
    }

    /** _evas_cache_image_async_end */
    method AsyncEnd(h: Handle)
      requires h in entries
      modifies this`entries, this`preload, this`pending, this`informed
      ensures St() == Notify(old(St()).(entries := old(entries)[h := old(entries)[h].(preload := false)],
                                        preload := Without(old(preload), {h}),
                                        pending := Without(old(pending), {h})), h)
    {
      preload := Without(preload, {h});
      pending := Without(pending, {h});
      entries := entries[h := entries[h].(preload := false)];
      SetFlags(h, entries[h].flags.(preloadDone := entries[h].flags.loaded));
      InformTargets(h);
    }

    /** The targets are told, and let go, one after the other. */
    method InformTargets(h: Handle)
      requires h in entries
      modifies this`entries, this`informed
      ensures entries == old(entries)[h := old(entries)[h].(targets := [])]
      ensures informed == old(informed) + Informs(h, old(entries)[h].targets)
    {
      ghost var ts := entries[h].targets;
      ghost var n := 0;
      while entries[h].targets != []
        invariant n <= |ts| && entries == old(entries)[h := old(entries)[h].(targets := ts[n..])]
        invariant informed == old(informed) + Informs(h, ts[..n])
        decreases |entries[h].targets|
      {
        informed := informed + [(h, entries[h].targets[0])];
        entries := entries[h := entries[h].(targets := entries[h].targets[1..])];
        n := n + 1;
      }
      assert ts[..n] == ts;
    }

    /** evas_cache_image_flush */
    method FlushLru()
      requires Inv(St())
      modifies this
      ensures Inv(St()) && St() == Flush(old(St()))
      decreases 0, 5
    {
      hide Near, Inv, Destroy, EntryOk;
      if limit.None? { return; }
      while lru != [] && limit.value < usage
        invariant Inv(St()) && limit.Some? && Flush(St()) == Flush(old(St()))
        decreases |lru|
      {
        ghost var s := St();
        LastOfLru(s);
        var im := lru[|lru| - 1];
        InvNear(s, im);
        DeleteEntry(im);
      }
    }

    /** evas_cache_image_drop */
    method Drop(im: Handle)
      requires Inv(St()) && im in entries
      modifies this
      ensures Inv(St()) && St() == Release(old(St()), im)
    {
      hide Near, EntryOk, Inv, Destroy, LruAdd, PreloadRemoveAll, Flush;
      ghost var s := St();
      var references := if entries[im].references == 0 then 0 else entries[im].references - 1;
      entries := entries[im := entries[im].(references := references)];
      Released(s, im, references);
      if references == 0 {
        if entries[im].preload {
          CancelPreload(im);
        } else if entries[im].flags.dirty {
          DeleteEntry(im);
        } else {
          LruAddInv(St(), im);
          AddLru(im);
          FlushLru();
        }
      }
    }

    /** The event of a finished preload job. */
    method PreloadDone(h: Handle)
      requires Inv(St()) && h in jobs && jobs[h] != Queued
      modifies this
      ensures Inv(St()) && St() == JobDone(old(St()), h)
    {
      hide Near, EntryOk, CancelCallback;
      ghost var s := St();
      InvNear(s, h);
      JobEntry(s, h);
      if jobs[h] == Flagged {
        jobs := jobs - {h};
        AsyncCancel(h, s);
      } else {
        jobs := jobs - {h};
        AsyncEnd(h);
        assert St() == Notify(JobOver(s, h), h);
        assert St() == EndCallback(s, h);
      }
    }

    /** evas_cache_image_request */
    method RequestImage(k: Key, stat: Option<Stamp>, made: Option<(nat, seq<int>)>) returns (im: Option<Handle>)
      requires Inv(St())
      modifies this
      ensures Inv(St()) && (St(), im) == Request(old(St()), k, stat, made)
    {
      hide Near, EntryOk, Inv, Destroy, DirtyAdd, LruDel, ActivAdd, HashesOk, Refer, Outdate, NewActive;
      ghost var s := St();
      Found(s, k);
      if k in activ {
        var h := activ[k];
        if Fresh(entries[h], stat) {
          ReferOk(s, h);
          TakeReference(h);
          return Some(h);
        }
        MarkStale(h);
        OutdatedKey(s, k, St());
      } else if k in inactiv {
        var h := inactiv[k];
        if Fresh(entries[h], stat) {
          InvNear(s, h);
          ReviveNear(s, h);
          EntryFlags(s, h);
          RemoveLru(h);
          AddActiv(h);
          TakeReference(h);
          return Some(h);
        }
        MarkStale(h);
        OutdatedKey(s, k, St());
      } else {
        OutdatedKey(s, k, s);
      }
      if stat.None? || made.None? {
        return None;
      }
      NewActiveInv(St(), k, stat.value, made.value.0, made.value.1);
      var h := BuildEntry(k, stat.value, made.value.0, made.value.1);
      return Some(h);
    }

    method TakeReference(h: Handle)
      requires Near(St(), h) && h in entries && entries[h].flags.activ
      requires entries[h].flags.deleteMe ==> entries[h].preload && entries[h].flags.pending
      modifies this`entries
      ensures Inv(St()) && St() == Refer(old(St()), h)
    {
      hide Near, Inv, EntryOk;
      ghost var s := St();
      entries := entries[h := entries[h].(references := entries[h].references + 1)];
      assert St() == WithReferences(s, h, s.entries[h].references + 1);
      assert St() == Refer(s, h);
    }

    /** A stale entry is dirtied, and deleted if it came from the inactive hash. */
    method MarkStale(h: Handle)
      requires Inv(St()) && h in entries
      modifies this
      ensures Inv(St()) && St() == Outdate(old(St()), h)
    {
      hide Near, EntryOk, Inv, DirtyAdd, Destroy;
      ghost var s := St();
      var unused := entries[h].flags.lru;
      InvNear(s, h);
      DirtyAddNear(s, h);
      OutdatedOk(s, h);
      AddDirty(h);
      if unused {
        DeleteEntry(h);
      }
    }

    method BuildEntry(k: Key, tstamp: Stamp, size: nat, pixels: seq<int>) returns (h: Handle)
      modifies this
      ensures St() == NewActive(old(St()), k, tstamp, size, pixels) && h == old(next)
    {
      hide ActivAdd;
      h := next;
      next := next + 1;
      entries := entries[h := Blank(Some(k), tstamp, size, pixels)];
      AddActiv(h);
      entries := entries[h := entries[h].(references := 1)];
    }

    /** evas_cache_image_copied_data, for the pixels of im. */
    method CopiedData(im: Handle) returns (h: Handle)
      requires Inv(St()) && im in entries
      modifies this
      ensures Inv(St()) && h == old(next)
      ensures St() == NewDirty(old(St()), old(entries[im]).size, old(entries[im]).pixels)
    {
      hide DirtyAdd, Inv, Near;
      NewDirtyInv(St(), entries[im].size, entries[im].pixels);
      var e := entries[im];
      h := next;
      next := next + 1;
      entries := entries[h := Blank(None, NO_STAMP, e.size, e.pixels)];
      AddDirty(h);
      entries := entries[h := entries[h].(references := 1)];
    }

    /** evas_cache_image_dirty */
    method DirtyImage(im: Handle, copied: bool) returns (out: Option<Handle>)
      requires Inv(St()) && im in entries && entries[im].references > 0
      modifies this
      ensures Inv(St()) && (St(), out) == Dirty(old(St()), im, copied)
    {
      hide Near, EntryOk, Inv, DirtyAdd, NewDirty, Release;
      ghost var s := St();
      if entries[im].flags.dirty {
        return Some(im);
      }
      if entries[im].references == 1 {
        assert MakeDirty(s, im) == DirtyAdd(s, im);
        AddDirty(im);
        return Some(im);
      }
      if !copied {
        Drop(im);
        return None;
      }
      NextIsFree(s);
      NewDirtyInv(s, entries[im].size, entries[im].pixels);
      var h := CopiedData(im);
      Drop(im);
      return Some(h);
    }

    /** evas_cache_image_alone */
    method AloneImage(im: Handle, copied: bool) returns (out: Option<Handle>)
      requires Inv(St()) && im in entries && entries[im].references > 0
      modifies this
      ensures Inv(St()) && (St(), out) == Alone(old(St()), im, copied)
    {
      hide Near, EntryOk, Inv, DirtyAdd, NewDirty, Release;
      ghost var s := St();
      if entries[im].references <= 1 {
        if !entries[im].flags.dirty {
          assert MakeDirty(s, im) == DirtyAdd(s, im);
          AddDirty(im);
        }
        return Some(im);
      }
      if !copied {
        Drop(im);
        return None;
      }
      NextIsFree(s);
      NewDirtyInv(s, entries[im].size, entries[im].pixels);
      var h := CopiedData(im);
      Drop(im);
      return Some(h);
    }

    /** evas_cache_image_preload_data */
    method PreloadImage(im: Handle, target: Target)
      requires Inv(St()) && im in entries && entries[im].references > 0
      modifies this
      ensures Inv(St()) && St() == PreloadData(old(St()), im, target)
    {
      hide Near, EntryOk, Inv, StartJob, WithTargets;
      PreloadDataOk(St(), im, target);
      if entries[im].flags.loaded && entries[im].pixels != [] {
        informed := informed + [(im, target)];
        return;
      }
      if entries[im].flags.preloadDone {
        SetFlags(im, entries[im].flags.(loaded := false));
        informed := informed + [(im, target)];
      } else if entries[im].preload {
        SetFlags(im, entries[im].flags.(loaded := false));
        AddTarget(im, target);
      } else {
        RunPreload(im, target);
      }
    }

    /** _evas_cache_image_entry_preload_add: one more target. */
    method AddTarget(im: Handle, target: Target)
      requires im in entries
      modifies this`entries
      ensures St() == WithTargets(old(St()), im, old(entries[im]).targets + [target])
    {
      entries := entries[im := entries[im].(targets := entries[im].targets + [target])];
    }

    /** _evas_cache_image_entry_preload_add, for an entry without a preload. */
    method RunPreload(im: Handle, target: Target)
      requires im in entries
      modifies this`entries, this`preload, this`jobs
      ensures St() == StartJob(old(St()), im, target)
    {
      ghost var e := entries[im];
      AddTarget(im, target);
      preload := preload + [im];
      jobs := jobs[im := Queued];
      entries := entries[im := entries[im].(flags := entries[im].flags.(loaded := false, pending := false),
                                            preload := true)];
      assert entries[im] == e.(flags := e.flags.(loaded := false, pending := false),
                               targets := e.targets + [target], preload := true);
    }

    /** evas_cache_image_preload_cancel */
    method PreloadCancel(im: Handle, target: Target)
      requires Inv(St()) && im in entries
      modifies this
      ensures Inv(St()) && St() == PreloadRemove(old(St()), im, target)
    {
      hide Near, EntryOk, Inv, CallOff, RemoveTarget;
      ghost var s := St();
      var ts := Remaining(entries[im].targets, target);
      InvNear(s, im);
      WithTargetsNear(s, im, ts);
      entries := entries[im := entries[im].(targets := ts)];
      assert St() == WithTargets(s, im, ts);
      if entries[im].targets == [] && entries[im].preload {
        CallOffPreload(im);
      } else {
        assert St() == PreloadRemove(s, im, target);
      }
    }

    /** The targets without the first that is `target`. */
    method Remaining(ts: seq<Target>, target: Target) returns (r: seq<Target>)
      ensures r == RemoveTarget(ts, target)
    {
      var i := 0;
      while i < |ts| && ts[i] != target
        invariant i <= |ts| && RemoveTarget(ts, target) == ts[..i] + RemoveTarget(ts[i..], target)
      {
        assert ts[i..][1..] == ts[i + 1..];
        assert ts[..i] + ([ts[i]] + RemoveTarget(ts[i + 1..], target)) == ts[..i + 1] + RemoveTarget(ts[i + 1..], target);
        i := i + 1;
      }
      if i < |ts| {
        assert ts[i..][1..] == ts[i + 1..];
        return ts[..i] + ts[i + 1..];
      }
      assert ts[i..] == [] && ts[..i] == ts;
      return ts;
    }

    /** evas_cache_image_set */
    method SetLimit(l: Option<nat>)
      requires Inv(St())
      modifies this
      ensures Inv(St()) && St() == ImageRuns.SetLimit(old(St()), l)
    {
      hide Inv, Near;
      if limit == l { return; }
      LimitInv(St(), l);
      limit := l;
      FlushLru();
    }
  }

  /** c is s with h's job taken out of the pool and h among the pending entries. */
  ghost predicate Cancelling(s: Cache, c: Cache, h: Handle)
    requires h in s.entries
  {
    && c == s.(jobs := s.jobs - {h},
               entries := s.entries[h := s.entries[h].(flags := s.entries[h].flags.(pending := true))],
               preload := Without(s.preload, {h}),
               pending := c.pending)
    && Without(c.pending, {h}) == Without(s.pending, {h})
  }

  lemma NotPending(s: Cache, h: Handle)
    requires Near(s, h) && h in s.entries && s.entries[h].preload && !s.entries[h].flags.pending
    ensures Without(s.pending + [h], {h}) == Without(s.pending, {h})
  {
    assert AtNear(s, h, h);
    WithoutNone(s.pending, {h});
    WithoutAppended(s.pending, h);
  }

  lemma {:induction false} WithoutAppended(q: seq<Handle>, h: Handle)
    requires h !in q
    ensures Without(q + [h], {h}) == q
  {
    if q == [] {
      assert [] + [h] == [h] && [h][1..] == [];
    } else {
      assert (q + [h])[1..] == q[1..] + [h];
      WithoutAppended(q[1..], h);
    }
  }

  lemma JobEntry(s: Cache, h: Handle)
    requires Inv(s) && h in s.jobs
    ensures h in s.entries && s.entries[h].preload
    ensures s.jobs[h] == Flagged ==> s.entries[h].flags.pending && Without(s.preload, {h}) == s.preload
  {
    assert At(s, h, false);
    if s.jobs[h] == Flagged { WithoutNone(s.preload, {h}); }
  }

  /** With the job over, h is in neither preload list, so that taking it off again does nothing. */
  lemma NotListed(s: Cache, h: Handle)
    requires h in s.entries
    ensures var t := JobOver(s, h);
            Without(t.preload, {h}) == t.preload && Without(t.pending, {h}) == t.pending
  {
    WithoutTwice(s.preload, {h}, {h});
    WithoutTwice(s.pending, {h}, {h});
    assert {h} + {h} == {h};
  }
}
