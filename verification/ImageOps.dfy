/** The operations of the library image cache, with the callbacks of its preload jobs. */
module ImageOps {
  import opened Lists
  import opened ImageEntries

  // ----- flush ----------------------------------------------------------------------

  /** evas_cache_image_flush: deletes from the end of the LRU while the usage is over the limit. */
  function Flush(s: Cache): (s': Cache)
    requires Inv(s)
    ensures Inv(s')
    decreases |s.lru|
  {
    if s.limit.None? || s.lru == [] || s.usage <= s.limit.value then s
    else
      var h := s.lru[|s.lru| - 1];
      LastOfLru(s);
      Flush(Destroy(s, h))
  }

  /** The last LRU entry can be destroyed on the spot, which shortens the list by just it. */
  lemma LastOfLru(s: Cache)
    requires Inv(s) && s.lru != []
    ensures var h := s.lru[|s.lru| - 1];
            && h in s.entries && s.entries[h].flags.lru && !s.entries[h].preload && !s.entries[h].flags.deleteMe
            && s.entries[h].references == 0 && !s.entries[h].flags.activ
            && Inv(Destroy(s, h)) && Destroyed(s, Destroy(s, h), h)
            && Destroy(s, h).lru == s.lru[..|s.lru| - 1]
            && Destroy(s, h).usage == Sum(s.entries, s.lru[..|s.lru| - 1])
  {
    var h := s.lru[|s.lru| - 1];
    assert h in s.lru && At(s, h, false);
    InvNear(s, h);
    DestroyInv(s, h);
    WithoutOne(s.lru, |s.lru| - 1);
    assert s.lru[|s.lru|..] == [] && s.lru[..|s.lru| - 1] + [] == s.lru[..|s.lru| - 1];
    var q := s.lru[..|s.lru| - 1];
    assert h !in q;
    assert forall x :: x in q ==> x in s.lru;
    SumSame(s.entries, Destroy(s, h).entries, q);
  }

  /** The entries of the LRU from position k on are gone, and nothing else has changed. */
  ghost predicate FlushedTo(s: Cache, s': Cache, k: nat) {
    && k <= |s.lru|
    && s'.lru == s.lru[..k]
    && s'.entries.Keys == s.entries.Keys - (set h | h in s.lru[k..])
    && (forall x {:trigger s'.entries[x]} :: x in s'.entries ==> s'.entries[x] == s.entries[x])
    && s'.jobs == s.jobs && s'.informed == s.informed && s'.limit == s.limit && s'.next == s.next
    && s'.activ == s.activ
  }

  /**
   A flush keeps exactly the longest prefix of the LRU, that is of the entries released most
   recently, whose total size is within the limit.
   */
  lemma {:induction false} FlushKeepsPrefix(s: Cache) returns (k: nat)
    requires Inv(s)
    ensures FlushedTo(s, Flush(s), k)
    ensures s.limit.None? ==> k == |s.lru|
    ensures s.limit.Some? ==>
              && Sum(s.entries, s.lru[..k]) <= s.limit.value
              && forall j :: k < j <= |s.lru| ==> s.limit.value < Sum(s.entries, s.lru[..j])
    decreases |s.lru|
  {
    hide Inv, Sum, Destroy;
    UsageIsSum(s);
    var n := |s.lru|;
    assert s.lru[..n] == s.lru && s.lru[n..] == [];
    if s.limit.None? || s.lru == [] || s.usage <= s.limit.value {
      k := n;
    } else {
      var h := s.lru[n - 1];
      LastOfLru(s);
      var t := Destroy(s, h);
      k := FlushKeepsPrefix(t);
      FlushOneMore(s, t, Flush(s), h, k);
    }
  }

  lemma UsageIsSum(s: Cache)
    requires Inv(s)
    ensures s.usage == Sum(s.entries, s.lru) && (s.lru == [] ==> s.usage == 0)
    ensures forall h :: h in s.lru ==> h in s.entries
  {
    forall h | h in s.lru ensures h in s.entries { assert At(s, h, false); }
  }

  lemma FlushOneMore(s: Cache, t: Cache, s': Cache, h: Handle, k: nat)
    requires s.lru != [] && h == s.lru[|s.lru| - 1] && h in s.entries && s.entries[h].flags.lru
    requires !s.entries[h].flags.activ && Destroyed(s, t, h) && t.lru == s.lru[..|s.lru| - 1] && FlushedTo(t, s', k)
    requires forall x :: x in s.lru ==> x in s.entries
    requires forall j :: k < j <= |t.lru| ==> s.limit.Some? && s.limit.value < Sum(t.entries, t.lru[..j])
    requires s.limit.Some? && Sum(t.entries, t.lru[..k]) <= s.limit.value
    requires s.limit.value < Sum(s.entries, s.lru) && h !in t.lru
    ensures FlushedTo(s, s', k)
    ensures Sum(s.entries, s.lru[..k]) <= s.limit.value
    ensures forall j :: k < j <= |s.lru| ==> s.limit.value < Sum(s.entries, s.lru[..j])
  {
    hide Sum, Destroyed, FlushedTo;
    FlushedMore(s, t, s', h, k);
    PrefixSums(s, t, h);
    assert s.lru[..|s.lru|] == s.lru;
    forall j | k < j < |s.lru| ensures s.limit.value < Sum(s.entries, s.lru[..j]) {
      assert t.lru[..j] == s.lru[..j];
    }
    assert t.lru[..k] == s.lru[..k];
  }

  lemma FlushedMore(s: Cache, t: Cache, s': Cache, h: Handle, k: nat)
    requires s.lru != [] && h == s.lru[|s.lru| - 1] && h in s.entries && !s.entries[h].flags.activ
    requires Destroyed(s, t, h) && t.lru == s.lru[..|s.lru| - 1] && FlushedTo(t, s', k)
    ensures FlushedTo(s, s', k) && k < |s.lru|
  {
    assert s.lru[k..] == t.lru[k..] + [h];
    assert t.lru[..k] == s.lru[..k];
    assert s.activ - {} == s.activ;
    assert (set x | x in s.lru[k..]) == (set x | x in t.lru[k..]) + {h};
  }

  lemma PrefixSums(s: Cache, t: Cache, h: Handle)
    requires h in s.entries && Destroyed(s, t, h) && s.lru != [] && t.lru == s.lru[..|s.lru| - 1] && h !in t.lru
    requires forall x :: x in s.lru ==> x in s.entries
    ensures forall j {:trigger s.lru[..j]} :: 0 <= j < |s.lru| ==> Sum(s.entries, s.lru[..j]) == Sum(t.entries, t.lru[..j])
  {
    hide Sum;
    forall j | 0 <= j < |s.lru| ensures Sum(s.entries, s.lru[..j]) == Sum(t.entries, t.lru[..j]) {
      assert s.lru[..j] == t.lru[..j];
      assert forall x :: x in t.lru[..j] ==> x in t.lru && x in s.lru;
      SumSame(s.entries, t.entries, t.lru[..j]);
    }
  }

  // ----- the end of a preload job ---------------------------------------------------

  /** No job is out for h any more: ie->preload is NULL and h is in neither list. */
  function JobOver(s: Cache, h: Handle): (s': Cache)
    requires h in s.entries
    ensures s'.entries.Keys == s.entries.Keys
  {
    s.(jobs := s.jobs - {h},
       entries := s.entries[h := s.entries[h].(preload := false)],
       preload := Without(s.preload, {h}),
       pending := Without(s.pending, {h}))
  }

  lemma JobOverNear(s: Cache, h: Handle)
    requires Near(s, h) && h in s.jobs
    ensures h in s.entries && Near(JobOver(s, h), h)
  {
    assert AtNear(s, h, h);
    var s' := JobOver(s, h);
    WithoutNoDup(s.preload, {h});
    WithoutNoDup(s.pending, {h});
    forall x ensures AtNear(s', x, h) { assert AtNear(s, x, h); }
    forall k ensures ActivOk(s', k) && InactivOk(s', k) { assert ActivOk(s, k) && InactivOk(s, k); }
    SumSame(s.entries, s'.entries, s.lru);
  }

  function Informs(h: Handle, targets: seq<Target>): (r: seq<(Handle, Target)>)
    ensures |r| == |targets| && forall i :: 0 <= i < |r| ==> r[i] == (h, targets[i])
  {
    seq(|targets|, i requires 0 <= i < |targets| => (h, targets[i]))
  }

  /** The targets of h are told that it is loaded, and let go. */
  function Notify(s: Cache, h: Handle): (s': Cache)
    requires h in s.entries
    ensures s'.entries.Keys == s.entries.Keys
  {
    var e := s.entries[h];
    s.(entries := s.entries[h := e.(flags := e.flags.(preloadDone := e.flags.loaded), targets := [])],
       informed := s.informed + Informs(h, e.targets))
  }

  /** An entry changes in something that neither lists nor hashes depend on. */
  ghost predicate Touched(s: Cache, s': Cache, h: Handle)
    requires h in s.entries
  {
    && s'.entries.Keys == s.entries.Keys
    && (forall x {:trigger s'.entries[x]} :: x in s'.entries && x != h ==> s'.entries[x] == s.entries[x])
    && (var e, e' := s.entries[h], s'.entries[h];
        && e'.key == e.key && e'.preload == e.preload && e'.size == e.size
        && e'.flags.dirty == e.flags.dirty && e'.flags.activ == e.flags.activ && e'.flags.lru == e.flags.lru
        && e'.flags.pending == e.flags.pending
        && (e.flags.lru ==> (e'.references == 0 || e'.references == e.references)
                            && (e'.flags.deleteMe ==> e.flags.deleteMe)))
    && s'.dirty == s.dirty && s'.activ == s.activ && s'.inactiv == s.inactiv && s'.lru == s.lru
    && s'.usage == s.usage && s'.preload == s.preload && s'.pending == s.pending && s'.jobs == s.jobs
    && s'.next == s.next
  }

  lemma TouchedNear(s: Cache, s': Cache, h: Handle)
    requires Near(s, h) && h in s.entries && Touched(s, s', h)
    ensures Near(s', h)
  {
    forall x ensures AtNear(s', x, h) { assert AtNear(s, x, h); }
    forall k ensures ActivOk(s', k) && InactivOk(s', k) { assert ActivOk(s, k) && InactivOk(s, k); }
    SumSame(s.entries, s'.entries, s.lru);
  }

  /** _evas_cache_image_async_end, for a job that was not cancelled. */
  function EndCallback(s: Cache, h: Handle): (s': Cache)
    requires Inv(s) && h in s.jobs && s.jobs[h] == Taken
    ensures Inv(s')
  {
    hide Near, Inv;
    InvNear(s, h);
    JobOverNear(s, h);
    EndedOk(s, h);
    Notify(JobOver(s, h), h)
  }

  lemma EndedOk(s: Cache, h: Handle)
    requires Inv(s) && h in s.jobs && s.jobs[h] == Taken
    requires h in s.entries && Near(JobOver(s, h), h)
    ensures Inv(Notify(JobOver(s, h), h))
  {
    assert At(s, h, false);
    var t := JobOver(s, h);
    TouchedNear(t, Notify(t, h), h);
    assert AtNear(Notify(t, h), h, h);
    NearInv(Notify(t, h), h);
  }

  /** _evas_cache_image_async_cancel: the entry is deleted, or loaded after all, or put away. */
  function CancelCallback(s: Cache, h: Handle): (s': Cache)
    requires Near(s, h) && h in s.jobs
    ensures Inv(s')
  {
    hide Near, Inv, Destroy;
    JobOverNear(s, h);
    var t0 := JobOver(s, h);
    var f := t0.entries[h].flags;
    if f.deleteMe || f.dirty then
      var t := WithFlags(t0, h, f.(pending := true, deleteMe := false));
      CancelledForGood(t0, h);
      Destroy(t, h)
    else
      var t := WithFlags(t0, h, f.(pending := true));
      var t2 := if f.loaded then Notify(t, h) else t;
      CancelledButKept(t0, h);
      if t2.entries[h].references == 0 then Flush(LruAdd(t2, h)) else t2
  }

  lemma PendingNear(s: Cache, h: Handle, f: Flags)
    requires Near(s, h) && h in s.entries && !s.entries[h].preload
    requires f == s.entries[h].flags.(pending := f.pending, deleteMe := f.deleteMe)
    requires f.deleteMe ==> s.entries[h].flags.deleteMe
    ensures Near(WithFlags(s, h, f), h)
  {
    var s' := WithFlags(s, h, f);
    forall x ensures AtNear(s', x, h) { assert AtNear(s, x, h); }
    forall k ensures ActivOk(s', k) && InactivOk(s', k) { assert ActivOk(s, k) && InactivOk(s, k); }
    SumSame(s.entries, s'.entries, s.lru);
  }

  lemma CancelledForGood(s: Cache, h: Handle)
    requires Near(s, h) && h in s.entries && !s.entries[h].preload
    ensures Inv(Destroy(WithFlags(s, h, s.entries[h].flags.(pending := true, deleteMe := false)), h))
  {
    hide Near, Inv, Destroy;
    var f := s.entries[h].flags.(pending := true, deleteMe := false);
    PendingNear(s, h, f);
    DestroyInv(WithFlags(s, h, f), h);
  }

  lemma CancelledButKept(s: Cache, h: Handle)
    requires Near(s, h) && h in s.entries && !s.entries[h].preload
    requires !s.entries[h].flags.deleteMe && !s.entries[h].flags.dirty
    ensures var t := WithFlags(s, h, s.entries[h].flags.(pending := true));
            var t2 := if s.entries[h].flags.loaded then Notify(t, h) else t;
            if s.entries[h].references == 0 then Inv(LruAdd(t2, h)) else Inv(t2)
  {
    hide LruAdd;
    var f := s.entries[h].flags.(pending := true);
    PendingNear(s, h, f);
    var t := WithFlags(s, h, f);
    var t2 := if s.entries[h].flags.loaded then Notify(t, h) else t;
    TouchedNear(t, t2, h);
    if s.entries[h].references == 0 {
      LruAddInv(t2, h);
    } else {
      assert AtNear(t2, h, h);
      NearInv(t2, h);
    }
  }

  /** The event of a finished job: _evas_preload_thread_done with the two callbacks. */
  function JobDone(s: Cache, h: Handle): (s': Cache)
    requires Inv(s) && h in s.jobs && s.jobs[h] != Queued
    ensures Inv(s')
  {
    hide Near, Inv;
    InvNear(s, h);
    if s.jobs[h] == Flagged then CancelCallback(s, h) else EndCallback(s, h)
  }

  // ----- calling a preload off ------------------------------------------------------

  /** A preload without targets is cancelled: at once if it is still queued, else it is flagged. */
  function CallOff(s: Cache, h: Handle): (s': Cache)
    requires Near(s, h) && h in s.entries && s.entries[h].preload
    ensures Inv(s')
  {
    hide Near, Inv;
    HasJob(s, h);
    if s.entries[h].flags.pending then
      CalledOffAlready(s, h);
      s
    else if s.jobs[h] == Queued then CancelCallback(s, h)
    else
      FlagJobKeeps(s, h);
      FlagJob(s, h)
  }

  function FlagJob(s: Cache, h: Handle): Cache
    requires h in s.entries
  {
    WithFlags(s, h, s.entries[h].flags.(pending := true)).(
      preload := Without(s.preload, {h}),
      pending := s.pending + [h],
      jobs := s.jobs[h := Flagged])
  }

  lemma HasJob(s: Cache, h: Handle)
    requires Near(s, h) && h in s.entries && s.entries[h].preload
    ensures h in s.jobs
    ensures s.entries[h].flags.pending <==> s.jobs[h] == Flagged
  {
    assert AtNear(s, h, h);
  }

  lemma CalledOffAlready(s: Cache, h: Handle)
    requires Near(s, h) && h in s.entries && s.entries[h].preload && s.entries[h].flags.pending
    ensures Inv(s)
  {
    assert AtNear(s, h, h);
    NearInv(s, h);
  }

  lemma FlagJobKeeps(s: Cache, h: Handle)
    requires Near(s, h) && h in s.entries && s.entries[h].preload && !s.entries[h].flags.pending
    ensures Inv(FlagJob(s, h))
  {
    var s' := FlagJob(s, h);
    assert AtNear(s, h, h);
    WithoutNoDup(s.preload, {h});
    AppendNoDup(s.pending, h);
    forall x ensures At(s', x, false) { assert AtNear(s, x, h); }
    forall k ensures ActivOk(s', k) && InactivOk(s', k) { assert ActivOk(s, k) && InactivOk(s, k); }
    SumSame(s.entries, s'.entries, s.lru);
  }

  function RemoveTarget(targets: seq<Target>, t: Target): seq<Target> {
    if targets == [] then []
    else if targets[0] == t then targets[1..]
    else [targets[0]] + RemoveTarget(targets[1..], t)
  }

  function WithTargets(s: Cache, h: Handle, ts: seq<Target>): Cache
    requires h in s.entries
  {
    s.(entries := s.entries[h := s.entries[h].(targets := ts)])
  }

  lemma WithTargetsNear(s: Cache, h: Handle, ts: seq<Target>)
    requires Near(s, h) && h in s.entries
    ensures Near(WithTargets(s, h, ts), h)
    ensures EntryOk(s, h, false) ==> EntryOk(WithTargets(s, h, ts), h, false)
  {
    assert AtNear(s, h, h);
    TouchedNear(s, WithTargets(s, h, ts), h);
  }

  /** _evas_cache_image_entry_preload_remove for one target. */
  function PreloadRemove(s: Cache, h: Handle, t: Target): (s': Cache)
    requires Inv(s) && h in s.entries
    ensures Inv(s')
  {
    hide Near, EntryOk;
    var s1 := WithTargets(s, h, RemoveTarget(s.entries[h].targets, t));
    InvNear(s, h);
    assert At(s, h, false);
    WithTargetsNear(s, h, RemoveTarget(s.entries[h].targets, t));
    NearInv(s1, h);
    if s1.entries[h].targets == [] && s1.entries[h].preload then CallOff(s1, h) else s1
  }

  /** _evas_cache_image_entry_preload_remove for all targets, of an entry with a preload. */
  function PreloadRemoveAll(s: Cache, h: Handle): (s': Cache)
    requires Near(s, h) && h in s.entries && s.entries[h].preload
    ensures Inv(s')
  {
    hide Near, Inv;
    WithTargetsNear(s, h, []);
    CallOff(WithTargets(s, h, []), h)
  }

  // ----- deletion and release -------------------------------------------------------

  /** _evas_cache_image_entry_delete: put off until the end of the preload, if there is one. */
  function EntryDelete(s: Cache, h: Handle): (s': Cache)
    requires Near(s, h) && h in s.entries && (s.entries[h].flags.deleteMe ==> Inv(s))
    ensures Inv(s')
  {
    hide Near, Inv, Destroy;
    if s.entries[h].flags.deleteMe then s
    else if s.entries[h].preload then
      DeleteLater(s, h);
      PreloadRemoveAll(WithFlags(s, h, s.entries[h].flags.(deleteMe := true)), h)
    else
      DestroyInv(s, h);
      Destroy(s, h)
  }

  lemma DeleteLater(s: Cache, h: Handle)
    requires Near(s, h) && h in s.entries && s.entries[h].preload
    ensures Near(WithFlags(s, h, s.entries[h].flags.(deleteMe := true)), h)
  {
    var s' := WithFlags(s, h, s.entries[h].flags.(deleteMe := true));
    assert AtNear(s, h, h);
    TouchedNear(s, s', h);
  }

  function WithReferences(s: Cache, h: Handle, n: nat): Cache
    requires h in s.entries
  {
    s.(entries := s.entries[h := s.entries[h].(references := n)])
  }

  lemma WithReferencesNear(s: Cache, h: Handle, n: nat)
    requires Near(s, h) && h in s.entries && (s.entries[h].flags.lru ==> n == 0)
    ensures Near(WithReferences(s, h, n), h)
    ensures n > 0 && EntryOk(s, h, true) && (s.entries[h].flags.deleteMe ==> s.entries[h].preload && s.entries[h].flags.pending)
            ==> EntryOk(WithReferences(s, h, n), h, false)
  {
    TouchedNear(s, WithReferences(s, h, n), h);
  }

  /** evas_cache_image_drop */
  function Release(s: Cache, h: Handle): (s': Cache)
    requires Inv(s) && h in s.entries
    ensures Inv(s')
  {
    hide Near, EntryOk, Destroy, LruAdd;
    var n := if s.entries[h].references == 0 then 0 else s.entries[h].references - 1;
    var s1 := WithReferences(s, h, n);
    InvNear(s, h);
    Released(s, h, n);
    if n > 0 then s1
    else if s.entries[h].preload then PreloadRemoveAll(s1, h)
    else if s.entries[h].flags.dirty then EntryDelete(s1, h)
    else
      LruAddInv(s1, h);
      Flush(LruAdd(s1, h))
  }

  lemma Released(s: Cache, h: Handle, n: nat)
    requires Inv(s) && h in s.entries && n <= s.entries[h].references
    ensures Near(WithReferences(s, h, n), h)
    ensures n > 0 ==> Inv(WithReferences(s, h, n))
    ensures s.entries[h].flags.deleteMe ==> s.entries[h].preload
  {
    InvNear(s, h);
    assert At(s, h, false);
    WithReferencesNear(s, h, n);
    if n > 0 { NearInv(WithReferences(s, h, n), h); }
  }
}
