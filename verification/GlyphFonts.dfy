/**
 Whether a request finds its font entry still there: what frees an entry, exactly, and runs
 that end with a request for one that is gone.
 */
module GlyphFonts {
  import opened GlyphCache
  import opened GlyphPacking
  import opened GlyphRequests
  import opened GlyphRuns
  import opened GlyphFlush
  import opened GlyphHeap
  import opened GlyphDoubles
  import opened GlyphSound
  import opened Lists
  import GlyphWaiting

  /** The caches when the slave's result has come in, and before the flush. */
  ghost function CameIn(s: State, v: Slave): (t: State)
    requires Inv(s) && GlyphRuns.Enabled(s, SlaveDone(v))
    ensures Inv(t) && Landed(t)
  {
    AllFitMarked(s, v);
    AbsorbAll(MarkLanded(s), Result(s, v).segs, Reuses(s, Result(s, v).segs))
  }

  /**
   The events that free a font's entry: its last reference goes while it has no caches, or a
   load comes in and its flush takes every cache the font has.
   */
  ghost predicate TakesFont(s: State, e: Event, f: FontId)
    requires Inv(s) && GlyphRuns.Enabled(s, e)
  {
    f in s.fonts &&
    match e
    case FontReferenced(x, unused) => x == f && unused && s.fonts[f].caches == []
    case SlaveDone(v) =>
      var t := CameIn(s, v);
      f in t.fonts && t.fonts[f].caches != []
      && forall c {:trigger c in t.fonts[f].caches} :: c in t.fonts[f].caches ==> c in t.caches && Goes(t, c)
    case _ => false
  }

  lemma {:induction false} AbsorbAllFonts(s: State, segs: seq<Segment>, reuse: bool)
    requires Inv(s) && Landed(s) && s.work.Some? && s.work.value.req.font in s.fonts && AllFit(s, segs, reuse)
    ensures AbsorbAll(s, segs, reuse).fonts.Keys == s.fonts.Keys
    decreases segs
  {
    hide Inv, Fits, AllFit, Absorb, Landed;
    if segs != [] {
      NextFit(s, segs, reuse);
      FitsFirst(s, segs, reuse);
      AbsorbKeeps(s, segs[0], reuse);
      AbsorbTables(s, segs[0], reuse);
      AbsorbAllFonts(Absorb(s, segs[0], reuse), segs[1..], false);
    }
  }

  lemma DoneTakes(s: State, v: Slave, f: FontId)
    requires Inv(s) && GlyphRuns.Enabled(s, SlaveDone(v)) && f in s.fonts
    ensures f !in Step(s, SlaveDone(v)).fonts <==> TakesFont(s, SlaveDone(v), f)
    ensures f in CameIn(s, v).fonts
  {
    hide Inv, AllFit, Result, Flush, AbsorbAll, Complete, Step, Reuses, Goes;
    AllFitMarked(s, v);
    var segs := Result(s, v).segs;
    MarkedKeys(s);
    AbsorbAllFonts(MarkLanded(s), segs, Reuses(s, segs));
    var t := CameIn(s, v);
    FontGoesIff(t, f);
    CompleteDone(Flush(t, t.lru));
  }

  lemma MarkedKeys(s: State)
    requires s.work.Some?
    ensures MarkLanded(s).fonts == s.fonts
  {}

  /** A font's entry is freed by exactly these events, and none comes about but by being loaded. */
  lemma StepFontIff(s: State, e: Event, f: FontId)
    requires Inv(s) && GlyphRuns.Enabled(s, e)
    ensures f in s.fonts ==> (f !in Step(s, e).fonts <==> TakesFont(s, e, f))
    ensures f !in s.fonts ==> (f in Step(s, e).fonts <==> e == FontLoaded(f))
  {
    hide Inv, CameIn, Goes, Respond, Deliver, Groups, FoundPrefix, Found, NotFound;
    match e
    case SlaveStarts(i) => DispatchKeeps(s, i);
    case GlyphsLoad(x, glyphs) =>
      var found := FoundPrefix(s.fonts[x].table, glyphs);
      FontsAside(s, Req(x, glyphs, |found|, [], found));
    case SlaveDone(v) =>
      if f in s.fonts { DoneTakes(s, v, f); } else { DoneMakesNone(s, v, f); }
    case _ =>
  }

  lemma DoneMakesNone(s: State, v: Slave, f: FontId)
    requires Inv(s) && GlyphRuns.Enabled(s, SlaveDone(v)) && f !in s.fonts
    ensures f !in Step(s, SlaveDone(v)).fonts
  {
    hide Inv, AllFit, Result, Flush, AbsorbAll, Complete, Step, Reuses;
    AllFitMarked(s, v);
    var segs := Result(s, v).segs;
    MarkedKeys(s);
    AbsorbAllFonts(MarkLanded(s), segs, Reuses(s, segs));
    var t := AbsorbAll(MarkLanded(s), segs, Reuses(s, segs));
    FlushOutcome(t, t.lru);
    CompleteDone(Flush(t, t.lru));
  }

  // ----- runs -----------------------------------------------------------------------

  ghost predicate Taken(s: State, es: seq<Event>, f: FontId)
    requires Inv(s) && Legal(s, es)
    decreases |es|
  {
    es != [] && (TakesFont(s, es[0], f) || Taken(Step(s, es[0]), es[1..], f))
  }

  /** All along the run some request, queued or in the slave's hands, points to the font entry. */
  ghost predicate Waits(s: State, es: seq<Event>, f: FontId)
    requires Inv(s) && Legal(s, es)
    decreases |es|
  {
    Awaited(s, f) && (es == [] || Waits(Step(s, es[0]), es[1..], f))
  }

  lemma {:induction false} GoneStays(s: State, es: seq<Event>, f: FontId)
    requires Inv(s) && Legal(s, es) && Waits(s, es, f) && f !in s.fonts
    ensures f !in Final(s, es).fonts && !Taken(s, es, f)
    decreases |es|
  {
    hide Inv, Step, Awaited;
    if es != [] {
      StepFontIff(s, es[0], f);
      assert es[0] != FontLoaded(f);
      GoneStays(Step(s, es[0]), es[1..], f);
    }
  }

  /**
   The exact condition over every run: a request finds its font's entry gone if and only if,
   since it came, the last reference went while the font had no caches, or a flush took all
   its caches.
   */
  lemma {:induction false} RequestFindsFontIff(s: State, es: seq<Event>, f: FontId)
    requires Inv(s) && Legal(s, es) && Waits(s, es, f) && f in s.fonts
    ensures f in Final(s, es).fonts <==> !Taken(s, es, f)
    decreases |es|
  {
    hide Inv, Step, Awaited, TakesFont, GlyphRuns.Enabled;
    if es != [] {
      StepFontIff(s, es[0], f);
      if f in Step(s, es[0]).fonts {
        RequestFindsFontIff(Step(s, es[0]), es[1..], f);
      } else {
        GoneStays(Step(s, es[0]), es[1..], f);
      }
    }
  }

  // ----- a font that goes while its glyphs are rendered -----------------------------

  /** Loaded, asked for one glyph, handed to the slave; then the last reference goes. */
  lemma GoneInTheSlave(g: nat) returns (es: seq<Event>)
    ensures es == [FontLoaded(0)] + ([GlyphsLoad(0, [g])] + ([SlaveStarts(0)] + ([FontReferenced(0, true)] + [])))
    ensures Legal(EMPTY, es)
    ensures var s := Final(EMPTY, es); s.work.Some? && s.work.value.req.font == 0 && 0 !in s.fonts
  {
    hide Inv, Ask, Dispatch, Respond, Legal, Final;
    EmptyIsOk();
    var r := Req(0, [g], 0, [], []);
    var s1 := Step(EMPTY, FontLoaded(0));
    GlyphWaiting.AskWaits(s1, 0, g);
    var s2 := Step(s1, GlyphsLoad(0, [g]));
    assert s2.pending == [r];
    GlyphWaiting.StartsLoad(s2, r);
    var s3 := Step(s2, SlaveStarts(0));
    var s4 := Step(s3, FontReferenced(0, true));
    es := [FontLoaded(0)] + ([GlyphsLoad(0, [g])] + ([SlaveStarts(0)] + ([FontReferenced(0, true)] + [])));
    GlyphWaiting.Stop(s4);
    GlyphWaiting.Then(s3, FontReferenced(0, true), []);
    GlyphWaiting.Then(s2, SlaveStarts(0), [FontReferenced(0, true)] + []);
    GlyphWaiting.Then(s1, GlyphsLoad(0, [g]), [SlaveStarts(0)] + ([FontReferenced(0, true)] + []));
    GlyphWaiting.Then(EMPTY, FontLoaded(0), [GlyphsLoad(0, [g])] + ([SlaveStarts(0)] + ([FontReferenced(0, true)] + [])));
  }

  /** The load in hand of such a font can only fail: its result would be written into the freed entry. */
  lemma OnlyFails(s: State, e: Event)
    requires Inv(s) && s.work.Some? && s.work.value.req.font !in s.fonts && GlyphRuns.Enabled(s, e)
    ensures Step(s, e).work.None? <==> e == SlaveFails
    ensures Step(s, e).work.Some? ==> Step(s, e).work == s.work && s.work.value.req.font !in Step(s, e).fonts
  {
    hide Inv, Respond, Groups, FoundPrefix, Found, NotFound;
    StepFontIff(s, e, s.work.value.req.font);
  }
}
