/**
 Whether those who wait for an image have a job to wait for.
 */
module ImageTargets {
  import opened Lists
  import opened ImageEntries
  import opened ImageOps
  import opened ImageRuns
  import opened ImageSafety
  import opened ImageReferences

  /** Whoever waits for the image of an entry waits for a preload of it. */
  ghost predicate Attended(s: Cache) {
    forall x {:trigger s.entries[x]} :: x in s.entries ==> s.entries[x].preload || s.entries[x].targets == []
  }

  lemma AttendedHasJob(s: Cache, h: Handle, t: Target)
    requires Inv(s) && Attended(s) && h in s.entries && t in s.entries[h].targets
    ensures h in s.jobs
  {
    assert At(s, h, false);
  }

  /** Nobody is left waiting who was not left before. */
  ghost predicate LeavesNone(s: Cache, s': Cache) {
    forall x {:trigger s'.entries[x]} :: x in s'.entries ==>
      s'.entries[x].preload || s'.entries[x].targets == []
      || (x in s.entries && !s.entries[x].preload && s.entries[x].targets == s'.entries[x].targets)
  }

  lemma LeavesTwice(s: Cache, s1: Cache, s2: Cache)
    requires LeavesNone(s, s1) && LeavesNone(s1, s2)
    ensures LeavesNone(s, s2)
  {
    forall x | x in s2.entries && !s2.entries[x].preload && s2.entries[x].targets != []
      ensures x in s.entries && !s.entries[x].preload && s.entries[x].targets == s2.entries[x].targets
    {
      assert x in s1.entries && s1.entries[x].targets == s2.entries[x].targets;
    }
  }

  lemma LeavesAttended(s: Cache, s': Cache)
    requires LeavesNone(s, s') && Attended(s)
    ensures Attended(s')
  {
    forall x | x in s'.entries ensures s'.entries[x].preload || s'.entries[x].targets == [] {
      if x in s.entries { assert s.entries[x].preload || s.entries[x].targets == []; }
    }
  }

  // ----- the parts of the calls -----------------------------------------------------

  lemma FlushLeaves(s: Cache)
    requires Inv(s)
    ensures LeavesNone(s, Flush(s))
  {
    var k := FlushKeepsPrefix(s);
  }

  lemma DirtyDelLeaves(s: Cache, h: Handle)
    requires h in s.entries
    ensures LeavesNone(s, DirtyDel(s, h))
  {}

  lemma ActivDelLeaves(s: Cache, h: Handle)
    requires h in s.entries
    ensures LeavesNone(s, ActivDel(s, h))
  {}

  lemma LruAddLeaves(s: Cache, h: Handle)
    requires h in s.entries
    ensures LeavesNone(s, LruAdd(s, h))
  {
    hide DirtyDel, ActivDel;
    var d := DirtyDel(s, h);
    DirtyDelLeaves(s, h);
    ActivDelLeaves(d, h);
    LeavesTwice(s, d, ActivDel(d, h));
  }

  /** The callback of a cancelled job leaves its targets waiting exactly if it is neither loaded nor freed. */
  lemma CancelLeaves(s: Cache, h: Handle)
    requires Near(s, h) && h in s.jobs && h in s.entries
    ensures s.entries[h].targets == [] || s.entries[h].flags.loaded || s.entries[h].flags.dirty || s.entries[h].flags.deleteMe
            ==> LeavesNone(s, CancelCallback(s, h))
  {
    hide Near, Inv, Destroy, LruAdd, Flush, LeavesNone;
    JobOverNear(s, h);
    var t0 := JobOver(s, h);
    var f := t0.entries[h].flags;
    if f.deleteMe || f.dirty {
      CancelledForGood(t0, h);
      DeletedLeaves(s, h);
    } else {
      CancelledButKept(t0, h);
      KeptLeaves(s, h);
      var t := WithFlags(t0, h, f.(pending := true));
      var t2 := if f.loaded then Notify(t, h) else t;
      if t2.entries[h].references == 0 {
        LruAddLeaves(t2, h);
        FlushLeaves(LruAdd(t2, h));
        if LeavesNone(s, t2) {
          LeavesTwice(s, t2, LruAdd(t2, h));
          LeavesTwice(s, LruAdd(t2, h), Flush(LruAdd(t2, h)));
        }
      }
    }
  }

  lemma DeletedLeaves(s: Cache, h: Handle)
    requires h in s.entries && Near(JobOver(s, h), h)
    ensures var t0 := JobOver(s, h);
            LeavesNone(s, Destroy(WithFlags(t0, h, t0.entries[h].flags.(pending := true, deleteMe := false)), h))
  {
    var t0 := JobOver(s, h);
    var f := t0.entries[h].flags.(pending := true, deleteMe := false);
    PendingNear(t0, h, f);
    hide Near, Inv, Destroy;
    DestroyInv(WithFlags(t0, h, f), h);
  }

  lemma KeptLeaves(s: Cache, h: Handle)
    requires h in s.entries
    ensures var t0 := JobOver(s, h);
            var t := WithFlags(t0, h, t0.entries[h].flags.(pending := true));
            s.entries[h].targets == [] || s.entries[h].flags.loaded
            ==> LeavesNone(s, if t0.entries[h].flags.loaded then Notify(t, h) else t)
  {}

  lemma CallOffLeaves(s: Cache, h: Handle)
    requires Near(s, h) && h in s.entries && s.entries[h].preload && s.entries[h].targets == []
    ensures LeavesNone(s, CallOff(s, h))
  {
    HasJob(s, h);
    if !s.entries[h].flags.pending && s.jobs[h] == Queued {
      CancelLeaves(s, h);
    }
    hide Near, CancelCallback;
  }

  lemma RemoveAllLeaves(s: Cache, h: Handle)
    requires Near(s, h) && h in s.entries && s.entries[h].preload
    ensures LeavesNone(s, PreloadRemoveAll(s, h))
  {
    hide Near, CallOff;
    WithTargetsNear(s, h, []);
    var t := WithTargets(s, h, []);
    CallOffLeaves(t, h);
    LeavesTwice(s, t, CallOff(t, h));
  }

  lemma ReleaseLeaves(s: Cache, h: Handle)
    requires Inv(s) && h in s.entries
    ensures LeavesNone(s, Release(s, h))
  {
    hide Near, EntryOk, PreloadRemoveAll, LruAdd, Destroy, Flush, Inv;
    var n := if s.entries[h].references == 0 then 0 else s.entries[h].references - 1;
    var s1 := WithReferences(s, h, n);
    Released(s, h, n);
    assert LeavesNone(s, s1);
    if n > 0 {
    } else if s.entries[h].preload {
      RemoveAllLeaves(s1, h);
      LeavesTwice(s, s1, PreloadRemoveAll(s1, h));
    } else if s.entries[h].flags.dirty {
      DestroyInv(s1, h);
    } else {
      LruAddInv(s1, h);
      LruAddLeaves(s1, h);
      FlushLeaves(LruAdd(s1, h));
      LeavesTwice(s, s1, LruAdd(s1, h));
      LeavesTwice(s, LruAdd(s1, h), Flush(LruAdd(s1, h)));
    }
  }

  lemma ShareLeaves(s: Cache, h: Handle)
    requires Inv(s) && h in s.entries && s.entries[h].references > 0
    ensures LeavesNone(s, s) && LeavesNone(s, MakeDirty(s, h)) && LeavesNone(s, Copy(s, h)) && LeavesNone(s, Release(s, h))
  {
    MakeDirtyLeaves(s, h);
    CopyLeaves(s, h);
    ReleaseLeaves(s, h);
  }

  lemma MakeDirtyLeaves(s: Cache, h: Handle)
    requires Inv(s) && h in s.entries && s.entries[h].references > 0
    ensures LeavesNone(s, MakeDirty(s, h))
  {
    MakeDirtyMoves(s, h);
    assert At(s, h, false);
    if !s.entries[h].flags.dirty { DirtyAddForm(s, h); }
    hide DirtyAdd;
  }

  lemma CopyLeaves(s: Cache, h: Handle)
    requires Inv(s) && h in s.entries
    ensures LeavesNone(s, Copy(s, h))
  {
    NewDirtyInv(s, s.entries[h].size, s.entries[h].pixels);
    var t := NewDirty(s, s.entries[h].size, s.entries[h].pixels);
    NextIsFree(s);
    assert LeavesNone(s, t);
    hide NewDirty, Inv, Release;
    ReleaseLeaves(t, h);
    LeavesTwice(s, t, Release(t, h));
  }

  lemma RequestLeaves(s: Cache, k: Key, stat: Option<Stamp>, made: Option<(nat, seq<int>)>)
    requires Inv(s)
    ensures LeavesNone(s, ImageRuns.Request(s, k, stat, made).0)
  {
    hide Inv, Outdate, Refer, Near, LeavesNone;
    Found(s, k);
    if k in s.activ && Fresh(s.entries[s.activ[k]], stat) {
      ReferOk(s, s.activ[k]);
      ReferLeaves(s, s.activ[k]);
    } else if k !in s.activ && k in s.inactiv && Fresh(s.entries[s.inactiv[k]], stat) {
      ReviveLeaves(s, s.inactiv[k]);
    } else {
      var s1 := if k in s.activ then Outdate(s, s.activ[k]) else if k in s.inactiv then Outdate(s, s.inactiv[k]) else s;
      OutdatedKey(s, k, s1);
      OutdateLeaves(s, k);
      SameLeaves(s);
      if stat.Some? && made.Some? {
        NewActiveInv(s1, k, stat.value, made.value.0, made.value.1);
        NewLeaves(s1, NewActive(s1, k, stat.value, made.value.0, made.value.1));
        LeavesTwice(s, s1, NewActive(s1, k, stat.value, made.value.0, made.value.1));
      }
    }
  }

  lemma SameLeaves(s: Cache)
    ensures LeavesNone(s, s)
  {}

  lemma ReferLeaves(s: Cache, h: Handle)
    requires Near(s, h) && h in s.entries && s.entries[h].flags.activ
    requires s.entries[h].flags.deleteMe ==> s.entries[h].preload && s.entries[h].flags.pending
    ensures LeavesNone(s, Refer(s, h))
  {}

  lemma ReviveLeaves(s: Cache, h: Handle)
    requires Inv(s) && h in s.entries && s.entries[h].flags.lru
    ensures Near(ActivAdd(LruDel(s, h), h), h)
    ensures ActivAdd(LruDel(s, h), h).entries[h].flags.activ && !ActivAdd(LruDel(s, h), h).entries[h].flags.deleteMe
    ensures LeavesNone(s, Refer(ActivAdd(LruDel(s, h), h), h))
  {
    InvNear(s, h);
    ReviveNear(s, h);
    EntryFlags(s, h);
    var t := ActivAdd(LruDel(s, h), h);
    assert At(s, h, false);
    assert LeavesNone(s, t);
    hide Near, Inv, ActivAdd, LruDel;
    ReferLeaves(t, h);
    LeavesTwice(s, t, Refer(t, h));
  }

  /** A stale entry is dirtied or freed. */
  lemma OutdateLeaves(s: Cache, k: Key)
    requires Inv(s)
    ensures k in s.activ ==> s.activ[k] in s.entries && LeavesNone(s, Outdate(s, s.activ[k]))
    ensures k !in s.activ && k in s.inactiv ==> s.inactiv[k] in s.entries && LeavesNone(s, Outdate(s, s.inactiv[k]))
  {
    Found(s, k);
    if k in s.inactiv { EntryFlags(s, s.inactiv[k]); }
    if k in s.activ || k in s.inactiv {
      var h := if k in s.activ then s.activ[k] else s.inactiv[k];
      InvNear(s, h);
      DirtyAddForm(s, h);
      DirtyAddNear(s, h);
      if k !in s.activ { DestroyInv(DirtyAdd(s, h), h); }
    }
    hide Inv, Near, DirtyAdd, Destroy;
  }

  lemma NewLeaves(s: Cache, s': Cache)
    requires forall x {:trigger s'.entries[x]} :: x in s'.entries ==>
               s'.entries[x].targets == [] || (x in s.entries && s'.entries[x] == s.entries[x])
    ensures LeavesNone(s, s')
  {}

  lemma RemoveLeaves(s: Cache, h: Handle, t: Target)
    requires Inv(s) && h in s.entries
    ensures s.entries[h].preload || s.entries[h].targets == [] ==> LeavesNone(s, PreloadRemove(s, h, t))
  {
    hide Near, EntryOk, CallOff;
    var s1 := WithTargets(s, h, RemoveTarget(s.entries[h].targets, t));
    InvNear(s, h);
    assert At(s, h, false);
    WithTargetsNear(s, h, RemoveTarget(s.entries[h].targets, t));
    if s1.entries[h].targets == [] && s1.entries[h].preload {
      CallOffLeaves(s1, h);
      LeavesTwice(s, s1, CallOff(s1, h));
    }
  }

  lemma LimitLeaves(s: Cache, l: Option<nat>)
    requires Inv(s)
    ensures LeavesNone(s, SetLimit(s, l))
  {
    hide Flush;
    LimitInv(s, l);
    FlushLeaves(s.(limit := l));
  }

  // ----- steps and runs -------------------------------------------------------------

  /** The job called back was cancelled, somebody has joined since, and the image is neither loaded nor freed. */
  predicate Strands(s: Cache, c: Call) {
    c.Done? && c.h in s.jobs && c.h in s.entries && s.jobs[c.h] == Flagged
    && s.entries[c.h].targets != [] && !s.entries[c.h].flags.loaded && Survives(s, s.entries[c.h])
  }

  lemma DoneLeavesIff(s: Cache, h: Handle)
    requires Inv(s) && h in s.jobs && s.jobs[h] != Queued && Attended(s)
    ensures Attended(JobDone(s, h)) <==> !Strands(s, Done(h))
  {
    hide Near, Inv, CancelCallback, Survives;
    JobLive(s, h);
    if s.jobs[h] == Flagged {
      CancelledOutcome(s, h);
      CancelLeaves(s, h);
      if Strands(s, Done(h)) {
        assert !CancelCallback(s, h).entries[h].preload;
      } else {
        LeavesButOne(s, h);
      }
    } else {
      JobOverNear(s, h);
      EndedOk(s, h);
      EndLeaves(s, h);
    }
  }

  lemma EndLeaves(s: Cache, h: Handle)
    requires h in s.entries && Attended(s)
    ensures Attended(Notify(JobOver(s, h), h))
  {}

  /** When the entry is freed, or has nobody waiting, everybody else is as before. */
  lemma LeavesButOne(s: Cache, h: Handle)
    requires Near(s, h) && h in s.jobs && h in s.entries && Attended(s)
    requires s.entries[h].targets == [] || s.entries[h].flags.loaded || !Survives(s, s.entries[h])
    ensures Attended(CancelCallback(s, h))
  {
    hide Near, Inv, Destroy, LruAdd, Flush;
    CancelledOutcome(s, h);
    var e := s.entries[h];
    if e.targets == [] || e.flags.loaded || e.flags.dirty || e.flags.deleteMe {
      CancelLeaves(s, h);
      LeavesAttended(s, CancelCallback(s, h));
    } else {
      JobOverNear(s, h);
      var t0 := JobOver(s, h);
      CancelledButKept(t0, h);
      var t := WithFlags(t0, h, t0.entries[h].flags.(pending := true));
      LruAddLeaves(t, h);
      FlushLeaves(LruAdd(t, h));
      LeavesTwice(t, LruAdd(t, h), Flush(LruAdd(t, h)));
      var s' := CancelCallback(s, h);
      forall x | x in s'.entries ensures s'.entries[x].preload || s'.entries[x].targets == [] {
        assert x != h;
      }
    }
  }

  /** From a state in which everybody has a job, a call or callback leaves one without if and only if it strands them. */
  lemma StepAttendedIff(s: Cache, c: Call)
    requires Inv(s) && ImageSafety.Enabled(s, c) && Attended(s)
    ensures Attended(Step(s, c)) <==> !Strands(s, c)
  {
    hide Near, EntryOk, Inv, ImageRuns.Request, Release, MakeDirty, Copy, NewDirty, PreloadRemove, SetLimit, JobDone,
         PreloadData, TakeJob, HeavyDone, Attended, LeavesNone;
    match c
    case Request(k, stat, made) => RequestLeaves(s, k, stat, made); LeavesAttended(s, Step(s, c));
    case Drop(h) => ReleaseLeaves(s, h); LeavesAttended(s, Step(s, c));
    case Dirty(h, copied) => ShareLeaves(s, h); LeavesAttended(s, Step(s, c));
    case Alone(h, copied) => ShareLeaves(s, h); LeavesAttended(s, Step(s, c));
    case Image(size, pixels) => ImageLeaves(s, size, pixels); LeavesAttended(s, Step(s, c));
    case Preload(h, t) => PreloadLeaves(s, h, t);
    case PreloadCancel(h, t) => HasWaiters(s, h); RemoveLeaves(s, h, t); LeavesAttended(s, Step(s, c));
    case Limit(l) => LimitLeaves(s, l); LeavesAttended(s, Step(s, c));
    case Take(h) => TakeLeaves(s, h); LeavesAttended(s, Step(s, c));
    case Heavy(h, d) => HeavyLeaves(s, h, d); LeavesAttended(s, Step(s, c));
    case Done(h) => DoneLeavesIff(s, h);
  }

  lemma HasWaiters(s: Cache, h: Handle)
    requires Attended(s) && h in s.entries
    ensures s.entries[h].preload || s.entries[h].targets == []
  {}

  lemma ImageLeaves(s: Cache, size: nat, pixels: seq<int>)
    requires Inv(s)
    ensures LeavesNone(s, NewDirty(s, size, pixels))
  {
    NewDirtyInv(s, size, pixels);
  }

  lemma PreloadLeaves(s: Cache, h: Handle, t: Target)
    requires Inv(s) && h in s.entries && s.entries[h].references > 0 && Attended(s)
    ensures Attended(PreloadData(s, h, t))
  {
    hide Inv;
  }

  lemma TakeLeaves(s: Cache, h: Handle)
    requires Inv(s) && h in s.jobs && s.jobs[h] == Queued
    ensures LeavesNone(s, TakeJob(s, h))
  {}

  lemma HeavyLeaves(s: Cache, h: Handle, d: Option<(nat, seq<int>)>)
    requires Inv(s) && h in s.jobs && s.jobs[h] != Queued
    ensures LeavesNone(s, HeavyDone(s, h, d))
  {
    assert At(s, h, false);
  }

  ghost predicate StrandsIn(s: Cache, calls: seq<Call>)
    requires Inv(s) && Legal(s, calls)
    decreases |calls|
  {
    calls != [] && (Strands(s, calls[0]) || StrandsIn(Step(s, calls[0]), calls[1..]))
  }

  lemma {:induction false} RunAttended(s: Cache, calls: seq<Call>)
    requires Inv(s) && Legal(s, calls) && Attended(s) && !StrandsIn(s, calls)
    ensures Attended(After(s, calls))
    decreases |calls|
  {
    hide Inv, Step, ImageSafety.Enabled, Attended, Strands;
    if calls != [] {
      StepAttendedIff(s, calls[0]);
      RunAttended(Step(s, calls[0]), calls[1..]);
    }
  }

  /** After every run without such a callback, whoever waits for an image has a job that will call back. */
  lemma EveryWaiterHasAJob(calls: seq<Call>, h: Handle, t: Target)
    requires Legal(EMPTY, calls) && !StrandsIn(EMPTY, calls)
    requires h in After(EMPTY, calls).entries && t in After(EMPTY, calls).entries[h].targets
    ensures h in After(EMPTY, calls).jobs
  {
    EmptyInv();
    RunAttended(EMPTY, calls);
    AttendedHasJob(After(EMPTY, calls), h, t);
    hide Inv, Legal, After;
  }
}
