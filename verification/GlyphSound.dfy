/**
 Runs in which no index is rendered twice: every entry that a list, a table or an answer has
 is allocated.
 */
module GlyphSound {
  import opened GlyphCache
  import opened GlyphPacking
  import opened GlyphRequests
  import opened GlyphRuns
  import opened GlyphPins
  import opened GlyphLeaks
  import opened GlyphHeap
  import opened GlyphDoubles
  import opened Lists

  /** The slave brings an index twice, the first time into a cache that may still be freed. */
  ghost predicate Doubles(s: State, e: Event)
    requires Inv(s) && GlyphRuns.Enabled(s, e)
  {
    e.SlaveDone? && (SlaveResultFits(s, e.e); Doubled(Result(s, e.e).segs, Surplus(s)))
  }

  // ----- what the slave brings was asked for ----------------------------------------

  lemma {:induction false} InDrawn(gs: seq<Glyph>, j: nat)
    requires j < |gs|
    ensures (gs[j].index, gs[j].size) in DrawnIn(gs)
  {
    if j < |gs| - 1 { InDrawn(gs[..|gs| - 1], j); }
  }

  lemma {:induction false} BroughtIsDrawn(segs: seq<Segment>, n: nat, j: nat)
    requires n < |segs| && j < |segs[n].glyphs|
    ensures (segs[n].glyphs[j].index, segs[n].glyphs[j].size) in Drawn(segs)
  {
    if n == |segs| - 1 {
      InDrawn(segs[n].glyphs, j);
    } else {
      BroughtIsDrawn(segs[..|segs| - 1], n, j);
    }
  }

  lemma {:induction false} LoadableAsked(todo: seq<nat>, sizes: map<nat, nat>)
    ensures forall p {:trigger p in Loadable(todo, sizes)} :: p in Loadable(todo, sizes) ==> p.0 in todo
  {
    if todo != [] { LoadableAsked(todo[1..], sizes); }
  }

  lemma BringsAsked(s: State, v: Slave, x: nat)
    requires Inv(s) && GlyphRuns.Enabled(s, SlaveDone(v))
    ensures s.work.value.start.Some? ==> s.work.value.start.value in s.caches
    ensures Brings(Result(s, v).segs, x) ==> x in s.work.value.req.render
  {
    hide Inv, AllFit, Load;
    SlaveResultFits(s, v);
    var segs := Result(s, v).segs;
    if Brings(segs, x) {
      var n, j :| 0 <= n < |segs| && 0 <= j < |segs[n].glyphs| && segs[n].glyphs[j].index == x;
      BroughtIsDrawn(segs, n, j);
      LoadableAsked(s.work.value.req.render, v.sizes);
    }
  }

  lemma RespondFresh(s: State, v: Slave)
    requires Inv(s) && GlyphRuns.Enabled(s, SlaveDone(v)) && Clean(s) && RenderOk(s)
    ensures s.work.value.start.Some? ==> s.work.value.start.value in s.caches
    ensures Fresh(s, s.work.value.req.font, Result(s, v).segs)
  {
    hide Inv, Overpinned, Brings, Result;
    StartIsThere(s);
    var f, segs := s.work.value.req.font, Result(s, v).segs;
    forall a | Linked(s, a) && a.shm !in Surplus(s) && s.caches[a.shm].font == f ensures !Brings(segs, a.glyph.index) {
      assert Named(s, a);
      BringsAsked(s, v, a.glyph.index);
    }
  }

  lemma StartIsThere(s: State)
    requires Inv(s) && s.work.Some? && !s.work.value.landed
    ensures s.work.value.start.Some? ==> s.work.value.start.value in s.caches
  {}

  // ----- the response ---------------------------------------------------------------

  lemma MarkedQuiet(s: State)
    requires s.work.Some?
    ensures Quiet(s, MarkLanded(s)) && Surplus(MarkLanded(s)) == Surplus(s)
    ensures forall f, segs {:trigger Fresh(s, f, segs)} :: Fresh(s, f, segs) ==> Fresh(MarkLanded(s), f, segs)
    ensures MarkLanded(s).work.value.req == s.work.value.req
  {
    forall c: Shm ensures Pinned(MarkLanded(s), c) == Pinned(s, c) {}
    forall a ensures Linked(MarkLanded(s), a) <==> Linked(s, a) {}
    assert forall c :: Overpinned(s, c) <==> Overpinned(MarkLanded(s), c);
    hide Overpinned, Brings;
    assert Surplus(MarkLanded(s)) == Surplus(s);
  }

  /** The answer sent takes back as many pins as entries it had. */
  lemma CompletePins(s: State, c: Shm)
    requires s.work.Some? && c in s.caches
    ensures c in Complete(s).caches
    ensures Complete(s).caches[c].inuse - Pinned(Complete(s), c) == s.caches[c].inuse - Pinned(s, c)
  {
    hide Deliver;
    var r := s.work.value.req;
    var t := s.(work := None, pending := s.pending + [r]);
    PinsOfJoin(s.pending, [r], c);
    assert PinsOf([r], c) == PinsOf([], c) + Pins(r.answer, c);
    DeliverPins(t);
  }

  lemma CompleteQuiet(s: State)
    requires s.work.Some?
    ensures Quiet(s, Complete(s))
    ensures forall c {:trigger Overpinned(s, c)} :: Overpinned(s, c) <==> Overpinned(Complete(s), c)
  {
    hide Complete, Pinned;
    CompleteDone(s);
    forall c ensures Overpinned(s, c) <==> Overpinned(Complete(s), c) {
      if c in s.caches { CompletePins(s, c); }
    }
  }

  lemma AllFitMarked(s: State, v: Slave)
    requires Inv(s) && GlyphRuns.Enabled(s, SlaveDone(v))
    ensures s.work.value.start.Some? ==> s.work.value.start.value in s.caches
    ensures var segs, t := Result(s, v).segs, MarkLanded(s);
            && Inv(t) && Landed(t) && t.work.Some? && t.work.value.req.font in t.fonts && AllFit(t, segs, Reuses(s, segs))
            && (segs != [] && Reuses(s, segs) ==> segs[0].shm in t.caches)
            && var s1 := AbsorbAll(t, segs, Reuses(s, segs));
               && Inv(s1) && Landed(s1) && NoDup(s1.lru) && s1.work.Some?
               && Flush(s1, s1.lru).work == s1.work
               && Step(s, SlaveDone(v)) == Complete(Flush(s1, s1.lru))
  {
    hide Inv, AllFit, Result, Flush, AbsorbAll, Complete;
    SlaveResultFits(s, v);
    var segs := Result(s, v).segs;
    LandedKeeps(s, segs, Reuses(s, segs));
    AbsorbAllKeeps(MarkLanded(s), segs, Reuses(s, segs));
    var s1 := AbsorbAll(MarkLanded(s), segs, Reuses(s, segs));
    LruNoDup(s1);
    FlushOutcome(s1, s1.lru);
  }

  lemma RespondSound(s: State, v: Slave)
    requires Inv(s) && GlyphRuns.Enabled(s, SlaveDone(v)) && Sound(s) && !Doubles(s, SlaveDone(v))
    ensures Sound(Step(s, SlaveDone(v)))
  {
    hide Inv, AllFit, Result, Flush, AbsorbAll, Complete, Step, HeapOk, Clean, RenderOk, Fresh, Doubled, Surplus, Quiet, Reuses, MarkLanded;
    AllFitMarked(s, v);
    StepRenders(s, SlaveDone(v));
    MarkedQuiet(s);
    QuietKeeps(s, MarkLanded(s));
    RespondFresh(s, v);
    var segs := Result(s, v).segs;
    AbsorbAllClean(MarkLanded(s), segs, Reuses(s, segs));
    var s1 := AbsorbAll(MarkLanded(s), segs, Reuses(s, segs));
    MarkedHarmed(s);
    FlushSound(s1, s1.lru);
    CompleteQuiet(Flush(s1, s1.lru));
    QuietKeeps(Flush(s1, s1.lru), Complete(Flush(s1, s1.lru)));
    CompleteDone(Flush(s1, s1.lru));
  }

  lemma MarkedHarmed(s: State)
    requires s.work.Some?
    ensures MarkLanded(s).harmed == s.harmed
  {}

  // ----- strays ---------------------------------------------------------------------

  lemma NotPinnedStays(s: State, a: Answer)
    requires Inv(s) && InHand(s, a) && a.shm in s.caches
    ensures s.caches[a.shm].inuse > 0 && s.caches[a.shm].font in s.fonts
  {
    hide LruOk, AnswersOk, FontsOk, WorkOk, Packed;
    HasPin(s.work.value.req.answer, a);
    FontOfCache(s, a.shm);
  }

  lemma FreeStray(s: State, c: Shm, a: Answer)
    requires c in s.caches && s.caches[c].font in s.fonts && a.shm != c && Stray(s, a)
    ensures Stray(Free(s, c), a)
  {
    hide Overpinned, Deleted, Wronged;
    OverpinnedAside(s, c, a.shm);
  }

  lemma {:induction false} FlushStray(s: State, rest: seq<Shm>, a: Answer)
    requires Inv(s) && Landed(s) && NoDup(rest) && forall c {:trigger c in rest} :: c in rest ==> c in s.lru
    requires Stray(s, a) && a.shm in s.caches && s.caches[a.shm].font in s.fonts && !Evictable(s, a.shm)
    ensures Stray(Flush(s, rest), a)
    decreases rest
  {
    hide Inv, Free, Landed, Evictable, Stray;
    if rest != [] && s.mem > MAX_FONT_USAGE {
      assert rest[0] in rest && forall c {:trigger c in rest[1..]} :: c in rest[1..] ==> c in rest;
      LruCache(s, rest[0]);
      if Evictable(s, rest[0]) {
        FreeKeeps(s, rest[0]);
        FreeKept(s, rest[0]);
        FreeStray(s, rest[0], a);
        StrayStays(s, rest[0], a);
        FlushStray(Free(s, rest[0]), rest[1..], a);
      } else {
        FlushStray(s, rest[1..], a);
      }
    }
  }

  lemma StrayStays(s: State, c: Shm, a: Answer)
    requires c in s.caches && s.caches[c].font in s.fonts && Inv(s) && Inv(Free(s, c)) && a.shm != c
    requires a.shm in s.caches && s.caches[a.shm].font in s.fonts && !Evictable(s, a.shm)
    ensures a.shm in Free(s, c).caches && Free(s, c).caches[a.shm] == s.caches[a.shm]
    ensures s.caches[a.shm].font in Free(s, c).fonts && !Evictable(Free(s, c), a.shm)
  {
    FontOfCache(Free(s, c), a.shm);
    hide Inv, Unlisted, Deleted, Wronged;
  }

  lemma StrayIsThere(s: State, a: Answer)
    requires Stray(s, a)
    ensures a.shm in s.caches
  {}

  lemma CompleteStray(s: State, a: Answer)
    requires s.work.Some? && Stray(s, a)
    ensures Stray(Complete(s), a)
  {
    hide Complete, Overpinned;
    CompleteDone(s);
    CompleteQuiet(s);
  }

  lemma RespondStray(s: State, v: Slave) returns (a: Answer)
    requires Inv(s) && GlyphRuns.Enabled(s, SlaveDone(v)) && Doubles(s, SlaveDone(v))
    ensures Stray(Step(s, SlaveDone(v)), a)
  {
    hide Inv, AllFit, Result, Flush, AbsorbAll, Complete, Step, Stray, Doubled, Surplus, InHand, Quiet;
    AllFitMarked(s, v);
    MarkedQuiet(s);
    var segs := Result(s, v).segs;
    a := AbsorbAllDoubled(MarkLanded(s), segs, Reuses(s, segs));
    var s1 := AbsorbAll(MarkLanded(s), segs, Reuses(s, segs));
    StrayIsThere(s1, a);
    NotPinnedStays(s1, a);
    FlushStray(s1, s1.lru, a);
    CompleteStray(Flush(s1, s1.lru), a);
  }

  // ----- steps and runs -------------------------------------------------------------

  /** From a sound state, a step leads to a sound state if and only if it brings no index twice. */
  lemma StepSoundIff(s: State, e: Event)
    requires Inv(s) && GlyphRuns.Enabled(s, e) && Sound(s)
    ensures Sound(Step(s, e)) <==> !Doubles(s, e)
  {
    if e.SlaveDone? {
      if Doubles(s, e) {
        var a := RespondStray(s, e.e);
      } else {
        RespondSound(s, e.e);
      }
    } else {
      StepIsQuiet(s, e);
      QuietKeeps(s, Step(s, e));
      StepRenders(s, e);
    }
    hide Inv, Step, Overpinned, GlyphRuns.Enabled;
  }

  ghost predicate DoublesIn(s: State, es: seq<Event>)
    requires Inv(s) && Legal(s, es)
    decreases |es|
  {
    es != [] && (Doubles(s, es[0]) || DoublesIn(Step(s, es[0]), es[1..]))
  }

  lemma {:induction false} RunIsSound(s: State, es: seq<Event>)
    requires Inv(s) && Legal(s, es) && Sound(s) && !DoublesIn(s, es)
    ensures Sound(Final(s, es))
    decreases |es|
  {
    hide Inv, GlyphRuns.Enabled, Step, Sound, Doubles;
    if es != [] {
      StepSoundIff(s, es[0]);
      RunIsSound(Step(s, es[0]), es[1..]);
    }
  }

  lemma EmptyIsSound()
    ensures Inv(EMPTY) && Sound(EMPTY)
  {
    EmptyIsOk();
  }

  /** The entry is in its list and allocated. */
  predicate Live(s: State, a: Answer) {
    Linked(s, a) && a in s.heap
  }

  /** While no cache that may be freed has a stray, what a pending answer has stays allocated in a flush. */
  lemma PinnedIsLive(s: State, a: Answer, r: Req)
    requires Inv(s) && Landed(s) && HeapOk(s) && Clean(s) && s.harmed == {} && r in s.pending && a in r.answer
    ensures NoDup(s.lru) && Live(Flush(s, s.lru), a)
  {
    hide Inv, Flush, Clean;
    PinnedSurvives(s, a, r);
    FlushSound(s, s.lru);
  }

  /**
   In every run in which no index is brought twice: what lists, tables and answers have is
   allocated, and nothing was ever freed while a list had it.
   */
  lemma EverythingIsLive(es: seq<Event>)
    requires Legal(EMPTY, es) && !DoublesIn(EMPTY, es)
    ensures var s := Final(EMPTY, es);
            && s.harmed == {}
            && (forall a {:trigger Linked(s, a)} :: Linked(s, a) ==> Live(s, a))
            && (forall f, g :: f in s.fonts && g in s.fonts[f].table ==> Live(s, s.fonts[f].table[g]))
            && (forall r, a :: r in s.pending && a in r.answer ==> Live(s, a))
            && (s.work.Some? ==> forall a :: a in s.work.value.req.answer ==> Live(s, a))
  {
    EmptyIsSound();
    RunIsSound(EMPTY, es);
    var s := Final(EMPTY, es);
    hide Legal, Final, DoublesIn, CachesOk, LruOk, WorkOk, RenderOk, Clean;
    forall f, g | f in s.fonts && g in s.fonts[f].table ensures Live(s, s.fonts[f].table[g]) {
      assert FontOk(s, f);
    }
    forall r, a | r in s.pending && a in r.answer ensures Live(s, a) {
      assert AllLinked(s, r.answer);
    }
  }
}
