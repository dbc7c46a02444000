/**
 Exactly when entries stay safe: no continuation that brings no index twice frees one that a
 list has, if and only if there is no stray in a cache that may be freed.
 */
module GlyphStrays {
  import opened GlyphCache
  import opened GlyphPacking
  import opened GlyphRequests
  import opened GlyphRuns
  import opened GlyphPins
  import opened GlyphHeap
  import opened GlyphDoubles
  import opened GlyphSound
  import opened GlyphHome
  import opened GlyphHarm
  import opened Lists

  // ----- events that keep a stray ---------------------------------------------------

  /** The event takes no pin that it does not give back. */
  ghost predicate Gentle(s: State, e: Event)
    requires Inv(s) && GlyphRuns.Enabled(s, e)
  {
    match e
    case GlyphsUsed(f, glyphs) => false
    case QueuedFails(i) => false
    case SlaveFails => s.work.value.req.answer == []
    case _ => true
  }

  lemma GentleSlack(s: State, e: Event, c: Shm)
    requires Inv(s) && GlyphRuns.Enabled(s, e) && Gentle(s, e) && !e.SlaveDone? && c in s.caches
    ensures c in Step(s, e).caches
    ensures Step(s, e).caches[c].inuse - Pinned(Step(s, e), c) == s.caches[c].inuse - Pinned(s, c)
  {
    hide Inv, Deliver, Respond, Dispatch, Ask, FoundPrefix;
    match e
    case GlyphsLoad(f, glyphs) =>
      AskSlack(s, f, glyphs, c);
      AskCaches(s, f, glyphs);
    case SlaveStarts(i) =>
      DispatchKeeps(s, i);
      DispatchCaches(s, i);
      DispatchSlack(s, i, c);
    case _ =>
  }

  lemma QuietStray(s: State, e: Event, a: Answer)
    requires Inv(s) && GlyphRuns.Enabled(s, e) && Gentle(s, e) && !e.SlaveDone? && Stray(s, a)
    ensures Stray(Step(s, e), a) && Step(s, e).caches[a.shm].font == s.caches[a.shm].font
    ensures s.caches[a.shm].font in s.fonts && s.caches[a.shm].font in Step(s, e).fonts
    ensures Step(s, e).fonts[s.caches[a.shm].font].table == s.fonts[s.caches[a.shm].font].table
    ensures Step(s, e).harmed == s.harmed
  {
    hide Inv, Step, GlyphRuns.Enabled, Pinned;
    GentleSlack(s, e, a.shm);
    CachesStay(s, e);
    TablesStay(s, e, a.shm);
  }

  // ----- a response -----------------------------------------------------------------

  lemma AbsorbFlags(s: State, seg: Segment, reuse: bool)
    requires Inv(s) && s.work.Some? && s.work.value.req.font in s.fonts && Fits(s, seg, reuse)
    ensures var t := Absorb(s, seg, reuse);
            && (forall x {:trigger s.fonts[x]} {:trigger x in s.fonts} :: x in s.fonts ==> x in t.fonts && t.fonts[x].unused == s.fonts[x].unused)
  {}

  lemma {:induction false} AbsorbAllStrays(s: State, segs: seq<Segment>, reuse: bool, a: Answer)
    requires Inv(s) && Landed(s) && s.work.Some? && s.work.value.req.font in s.fonts && AllFit(s, segs, reuse)
    requires Stray(s, a)
    ensures var t := AbsorbAll(s, segs, reuse);
            && Stray(t, a) && t.caches[a.shm].font == s.caches[a.shm].font
            && (forall x {:trigger s.fonts[x]} {:trigger x in s.fonts} :: x in s.fonts ==> x in t.fonts && t.fonts[x].unused == s.fonts[x].unused)
            && t.pending == s.pending
    decreases segs
  {
    hide Inv, Fits, AllFit, Absorb, Landed, Overpinned, Named;
    if segs != [] {
      NextFit(s, segs, reuse);
      FitsFirst(s, segs, reuse);
      AbsorbKeeps(s, segs[0], reuse);
      AbsorbStray(s, segs[0], reuse, a);
      AbsorbFontsStay(s, segs[0], reuse);
      AbsorbFlags(s, segs[0], reuse);
      AbsorbParts(s, segs[0], reuse);
      var s1 := Absorb(s, segs[0], reuse);
      AbsorbAllStrays(s1, segs[1..], false, a);
      forall x | x in s.fonts
        ensures x in AbsorbAll(s, segs, reuse).fonts && AbsorbAll(s, segs, reuse).fonts[x].unused == s.fonts[x].unused
      {
        assert s1.fonts[x].unused == s.fonts[x].unused;
      }
    }
  }

  /** The stray's font is in use, so that no flush takes its caches. */
  predicate InUse(s: State, a: Answer) {
    && a.shm in s.caches && s.caches[a.shm].font in s.fonts && !s.fonts[s.caches[a.shm].font].unused
  }

  lemma FlushUsed(s: State, a: Answer)
    requires Inv(s) && Landed(s) && Stray(s, a) && InUse(s, a)
    ensures NoDup(s.lru)
    ensures var t := Flush(s, s.lru);
            Stray(t, a) && InUse(t, a) && t.caches[a.shm].font == s.caches[a.shm].font && t.pending == s.pending && t.work == s.work
  {
    hide Inv, Flush, Overpinned, Named;
    LruNoDup(s);
    FlushOutcome(s, s.lru);
    FlushStray(s, s.lru, a);
    var t := Flush(s, s.lru);
    assert a.shm in t.caches;
    FontOfCache(t, a.shm);
  }

  lemma CompleteUsed(s: State, a: Answer)
    requires s.work.Some? && Stray(s, a) && InUse(s, a)
    ensures var t := Complete(s);
            Stray(t, a) && InUse(t, a) && t.caches[a.shm].font == s.caches[a.shm].font && t.pending == s.pending && t.work.None?
  {
    hide Complete;
    CompleteDone(s);
    CompleteStray(s, a);
  }

  lemma RespondUsed(s: State, v: Slave, a: Answer)
    requires Inv(s) && GlyphRuns.Enabled(s, SlaveDone(v)) && Stray(s, a) && InUse(s, a)
    ensures var t := Step(s, SlaveDone(v));
            && Stray(t, a) && InUse(t, a) && t.caches[a.shm].font == s.caches[a.shm].font
            && t.pending == s.pending && t.work.None?
  {
    hide Inv, AllFit, Result, Flush, AbsorbAll, Complete, Step, Overpinned, Reuses, Named;
    AllFitMarked(s, v);
    MarkedStray(s, a);
    var segs := Result(s, v).segs;
    AbsorbAllStrays(MarkLanded(s), segs, Reuses(s, segs), a);
    var s1 := AbsorbAll(MarkLanded(s), segs, Reuses(s, segs));
    assert s1.fonts[s.caches[a.shm].font].unused == s.fonts[s.caches[a.shm].font].unused;
    FlushUsed(s1, a);
    CompleteUsed(Flush(s1, s1.lru), a);
  }

  lemma MarkedStray(s: State, a: Answer)
    requires s.work.Some? && Stray(s, a)
    ensures Stray(MarkLanded(s), a) && MarkLanded(s).caches == s.caches && MarkLanded(s).fonts == s.fonts
  {
    assert Pinned(MarkLanded(s), a.shm) == Pinned(s, a.shm);
  }

  // ----- a slave that finds nothing, or one glyph -----------------------------------

  function Bare(nextShm: nat, shmSize: nat, sizes: map<nat, nat>): Slave {
    Slave(sizes, shmSize, nextShm, 1)
  }

  lemma NormalizeOne(size: nat)
    ensures Normalize(size, 1) == size
  {}

  /** Glyphs without bytes always find room. */
  lemma {:induction false} EmptyLoads(segs: seq<Segment>, open: bool, todo: seq<nat>, total: nat, shmSize: nat, nextShm: nat,
                                      sizes: map<nat, nat>)
    requires open ==> segs != [] && segs[|segs| - 1].usage <= segs[|segs| - 1].cap
    requires forall x {:trigger sizes[x]} :: x in sizes ==> sizes[x] == 0
    ensures Load(segs, open, todo, total, shmSize, nextShm, sizes, 1).Done?
    decreases |todo|, if open then 0 else 1
  {
    hide Normalize, PrevCalculate;
    if todo == [] {
    } else if !open {
      EmptyLoads(segs + [Segment(nextShm, Normalize(shmSize, 1), 0, [])], true, todo, 0, shmSize, nextShm + 1, sizes);
    } else if todo[0] !in sizes {
      EmptyLoads(segs, true, todo[1..], total + 1, shmSize, nextShm, sizes);
    } else {
      var c := segs[|segs| - 1];
      EmptyLoads(segs[..|segs| - 1] + [Rendered(c, todo[0], 0)], true, todo[1..], total + 1, shmSize, nextShm, sizes);
    }
  }

  lemma {:induction false} NoneDoubled(segs: seq<Segment>, exempt: set<Shm>)
    requires forall n {:trigger segs[n].glyphs} :: 0 <= n < |segs| ==> segs[n].glyphs == []
    ensures !Doubled(segs, exempt)
  {
    if segs != [] {
      forall n | 0 <= n < |segs[1..]| ensures segs[1..][n].glyphs == [] { assert segs[n + 1].glyphs == []; }
      NoneDoubled(segs[1..], exempt);
    }
  }

  lemma BareEnabled(s: State, v: Slave)
    requires Inv(s) && RenderOk(s) && s.work.Some? && s.work.value.req.font in s.fonts
    requires v.page == 1 && (forall c {:trigger c in s.caches} :: c in s.caches ==> c < v.nextShm)
    requires forall x {:trigger v.sizes[x]} :: x in v.sizes ==> v.sizes[x] == 0
    ensures GlyphRuns.Enabled(s, SlaveDone(v))
  {
    StartIsThere(s);
    var start := StartOf(s);
    if start != [] { assert s.caches[start[0].shm].usage <= s.caches[start[0].shm].cap; }
    hide Inv;
    EmptyLoads(start, start != [], s.work.value.req.render,
               if start != [] then s.caches[start[0].shm].nglyphs else 0, v.shmSize, v.nextShm, v.sizes);
  }

  /** A load in which no glyph is found. */
  lemma NothingFound(s: State, shmSize: nat) returns (v: Slave)
    requires Inv(s) && RenderOk(s) && s.work.Some? && s.work.value.req.font in s.fonts
    ensures v.shmSize == shmSize && v.page == 1 && v.sizes == map[]
    ensures GlyphRuns.Enabled(s, SlaveDone(v)) && !Doubles(s, SlaveDone(v))
  {
    var n := Beyond(s.caches.Keys);
    v := Bare(n, shmSize, map[]);
    BareEnabled(s, v);
    hide Inv, Result, Load, Doubled, AllFit;
    SlaveResultFits(s, v);
    var segs := Result(s, v).segs;
    NoneLoadable(s.work.value.req.render);
    forall m | 0 <= m < |segs| ensures segs[m].glyphs == [] {
      if segs[m].glyphs != [] { BroughtIsDrawn(segs, m, 0); }
    }
    NoneDoubled(segs, Surplus(s));
  }

  lemma {:induction false} NoneLoadable(todo: seq<nat>)
    ensures Loadable(todo, map[]) == []
  {
    if todo != [] { NoneLoadable(todo[1..]); }
  }
}
