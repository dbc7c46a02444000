/**
 Where entries belong: answers have entries of their own font, and of the entries of one index
 in one list the table has none but the last.
 */
module GlyphHome {
  import opened GlyphCache
  import opened GlyphPacking
  import opened GlyphRequests
  import opened GlyphRuns
  import opened GlyphPins
  import opened GlyphHeap
  import opened GlyphDoubles
  import opened GlyphSound
  import opened Lists

  ghost predicate Home(s: State, f: FontId, answer: seq<Answer>) {
    forall a {:trigger a in answer} :: a in answer ==> a.shm in s.caches && s.caches[a.shm].font == f
  }

  ghost predicate HomeOk(s: State) {
    && (forall r {:trigger r in s.pending} :: r in s.pending ==> Home(s, r.font, r.answer))
    && (s.work.Some? ==> Home(s, s.work.value.req.font, s.work.value.req.answer))
  }

  /** No entry of an index comes after the one the table has, in the same list. */
  ghost predicate NewestOk(s: State) {
    forall a {:trigger Linked(s, a)} :: Linked(s, a) && s.caches[a.shm].font in s.fonts ==>
      var table := s.fonts[s.caches[a.shm].font].table;
      a.glyph.index in table && table[a.glyph.index].shm == a.shm ==> a.pos <= table[a.glyph.index].pos
  }

  ghost predicate HeapInv(s: State) {
    HeapOk(s) && RenderOk(s) && HomeOk(s) && NewestOk(s)
  }

  // ----- answers --------------------------------------------------------------------

  lemma {:induction false} FoundPrefixHome(s: State, f: FontId, glyphs: seq<nat>)
    requires FontsOk(s) && f in s.fonts
    ensures Home(s, f, FoundPrefix(s.fonts[f].table, glyphs))
  {
    if glyphs != [] && glyphs[0] in s.fonts[f].table {
      assert FontOk(s, f) && s.fonts[f].table[glyphs[0]].shm in s.fonts[f].caches;
      FoundPrefixHome(s, f, glyphs[1..]);
    }
  }

  lemma {:induction false} FoundHome(s: State, f: FontId, glyphs: seq<nat>)
    requires FontsOk(s) && f in s.fonts
    ensures Home(s, f, Found(s.fonts[f].table, glyphs))
  {
    if glyphs != [] {
      assert FontOk(s, f);
      if glyphs[0] in s.fonts[f].table { assert s.fonts[f].table[glyphs[0]].shm in s.fonts[f].caches; }
      FoundHome(s, f, glyphs[1..]);
    }
  }

  lemma SameHome(s: State, t: State, f: FontId, answer: seq<Answer>)
    requires SameButPins(s.caches, t.caches) && Home(s, f, answer)
    ensures Home(t, f, answer)
  {
    forall a | a in answer ensures a.shm in t.caches && t.caches[a.shm].font == f {}
  }

  /** Requests of the second state are of the first, or have entries of their font. */
  lemma QuietHome(s: State, t: State)
    requires SameButPins(s.caches, t.caches) && HomeOk(s)
    requires forall r {:trigger r in t.pending} :: r in t.pending ==> r in s.pending || Home(s, r.font, r.answer)
                                                                      || (s.work.Some? && r == s.work.value.req)
    requires t.work.Some? && t.work != s.work ==> Home(s, t.work.value.req.font, t.work.value.req.answer)
    ensures HomeOk(t)
  {
    hide SameButPins;
    forall r | r in t.pending ensures Home(t, r.font, r.answer) { SameHome(s, t, r.font, r.answer); }
    if t.work.Some? { SameHome(s, t, t.work.value.req.font, t.work.value.req.answer); }
  }

  lemma StepHome(s: State, e: Event)
    requires Inv(s) && GlyphRuns.Enabled(s, e) && !e.SlaveDone? && HomeOk(s)
    ensures HomeOk(Step(s, e))
  {
    hide CachesOk, LruOk, AnswersOk, WorkOk, Groups, Promote, Shms, Unpin, PinAll, FoundPrefix, Found, NotFound,
         Respond, SameButPins, Home;
    var t := Step(s, e);
    match e
    case GlyphsLoad(f, glyphs) =>
      CachesStay(s, e);
      FoundPrefixHome(s, f, glyphs);
      QuietHome(s, t);
    case SlaveStarts(i) =>
      CachesStay(s, e);
      DispatchKeeps(s, i);
      FoundHome(s, s.pending[i].font, s.pending[i].glyphs[s.pending[i].current..]);
      assert s.pending[i] in s.pending;
      HomeJoin(s, s.pending[i].font, s.pending[i].answer,
               Found(s.fonts[s.pending[i].font].table, s.pending[i].glyphs[s.pending[i].current..]));
      QuietHome(s, t);
    case _ =>
      CachesStay(s, e);
      QuietHome(s, t);
  }

  lemma HomeJoin(s: State, f: FontId, a: seq<Answer>, b: seq<Answer>)
    requires Home(s, f, a) && Home(s, f, b)
    ensures Home(s, f, a + b)
  {}

  lemma AbsorbHome(s: State, seg: Segment, reuse: bool)
    requires Inv(s) && s.work.Some? && s.work.value.req.font in s.fonts && Fits(s, seg, reuse) && HomeOk(s)
    ensures HomeOk(Absorb(s, seg, reuse))
  {
    var t, made := Absorb(s, seg, reuse), Answers(seg.shm, PlaceOf(s, seg, reuse), seg.glyphs);
    AbsorbParts(s, seg, reuse);
    AbsorbFontsStay(s, seg, reuse);
    hide Inv, Absorb, SegmentOk;
  }

  lemma AbsorbFontsStay(s: State, seg: Segment, reuse: bool)
    requires Inv(s) && s.work.Some? && s.work.value.req.font in s.fonts && Fits(s, seg, reuse)
    ensures var t := Absorb(s, seg, reuse);
            && (forall c {:trigger t.caches[c]} :: c in s.caches ==> c in t.caches && t.caches[c].font == s.caches[c].font)
            && seg.shm in t.caches && t.caches[seg.shm].font == s.work.value.req.font
            && t.work.value.req.font == s.work.value.req.font
  {
    assert FontOk(s, s.work.value.req.font);
  }

  lemma {:induction false} AbsorbAllHome(s: State, segs: seq<Segment>, reuse: bool)
    requires Inv(s) && Landed(s) && s.work.Some? && s.work.value.req.font in s.fonts && AllFit(s, segs, reuse)
    requires HeapOk(s) && HomeOk(s) && NewestOk(s)
    ensures var t := AbsorbAll(s, segs, reuse); HeapOk(t) && HomeOk(t) && NewestOk(t)
    decreases segs
  {
    hide Inv, Fits, AllFit, Absorb, HomeOk, NewestOk, HeapOk, Landed;
    if segs != [] {
      NextFit(s, segs, reuse);
      FitsFirst(s, segs, reuse);
      AbsorbKeeps(s, segs[0], reuse);
      AbsorbHeap(s, segs[0], reuse);
      AbsorbHome(s, segs[0], reuse);
      AbsorbNewest(s, segs[0], reuse);
      AbsorbAllHome(Absorb(s, segs[0], reuse), segs[1..], false);
    }
  }

  lemma AbsorbNewest(s: State, seg: Segment, reuse: bool)
    requires Inv(s) && s.work.Some? && s.work.value.req.font in s.fonts && Fits(s, seg, reuse) && NewestOk(s)
    ensures NewestOk(Absorb(s, seg, reuse))
  {
    hide Inv, Absorb, SegmentOk;
    var t, f, pos, gs := Absorb(s, seg, reuse), s.work.value.req.font, PlaceOf(s, seg, reuse), seg.glyphs;
    AbsorbTables(s, seg, reuse);
    var made := Answers(seg.shm, pos, gs);
    forall a | Linked(t, a) && t.caches[a.shm].font in t.fonts
      ensures var table := t.fonts[t.caches[a.shm].font].table;
              a.glyph.index in table && table[a.glyph.index].shm == a.shm ==> a.pos <= table[a.glyph.index].pos
    {
      AbsorbLists(s, seg, reuse, a);
      if Linked(s, a) {
        if s.caches[a.shm].font == f && a.glyph.index in t.fonts[f].table {
          ListedIs(s.fonts[f].table, seg.shm, pos, gs, a.glyph.index);
        }
      } else {
        ListedLater(s.fonts[f].table, seg.shm, pos, gs, a.pos - pos);
      }
    }
  }

  // ----- the flush ------------------------------------------------------------------

  lemma FreeNewest(s: State, c: Shm)
    requires c in s.caches && s.caches[c].font in s.fonts && NewestOk(s)
    ensures NewestOk(Free(s, c))
  {
    hide Deleted, Wronged, Unlisted;
    var t := Free(s, c);
    forall a | Linked(t, a) && t.caches[a.shm].font in t.fonts
      ensures var table := t.fonts[t.caches[a.shm].font].table;
              a.glyph.index in table && table[a.glyph.index].shm == a.shm ==> a.pos <= table[a.glyph.index].pos
    {
      assert Linked(s, a);
    }
  }

  /** The request in hand and the queue are not touched, and what they have is not freed with its cache. */
  lemma FlushHome(s: State, t: State)
    requires Inv(t) && Kept(s, t) && HomeOk(s)
    ensures HomeOk(t)
  {
    hide CachesOk, LruOk, FontsOk, WorkOk;
    forall r | r in t.pending ensures Home(t, r.font, r.answer) {
      assert AllLinked(t, r.answer);
      KeptHome(s, t, r.font, r.answer);
    }
    if t.work.Some? { KeptHome(s, t, t.work.value.req.font, t.work.value.req.answer); }
  }

  lemma KeptHome(s: State, t: State, f: FontId, answer: seq<Answer>)
    requires Kept(s, t) && AllLinked(t, answer) && Home(s, f, answer)
    ensures Home(t, f, answer)
  {
    forall a | a in answer ensures a.shm in t.caches && t.caches[a.shm].font == f { assert Linked(t, a); }
  }

  lemma {:induction false} FlushHeapInv(s: State, rest: seq<Shm>)
    requires Inv(s) && Landed(s) && NoDup(rest) && forall c {:trigger c in rest} :: c in rest ==> c in s.lru
    requires HeapOk(s) && NewestOk(s)
    ensures HeapOk(Flush(s, rest)) && NewestOk(Flush(s, rest))
    decreases rest
  {
    hide Inv, Free, Landed, Evictable, HeapOk, NewestOk;
    if rest != [] && s.mem > MAX_FONT_USAGE {
      assert rest[0] in rest && forall c {:trigger c in rest[1..]} :: c in rest[1..] ==> c in rest;
      LruCache(s, rest[0]);
      if Evictable(s, rest[0]) {
        FreeKeeps(s, rest[0]);
        FreeHeap(s, rest[0]);
        FreeNewest(s, rest[0]);
        FlushHeapInv(Free(s, rest[0]), rest[1..]);
      } else {
        FlushHeapInv(s, rest[1..]);
      }
    }
  }

  // ----- steps ----------------------------------------------------------------------

  lemma QuietNewest(s: State, t: State)
    requires Quiet(s, t) && NewestOk(s) && FontsOk(s)
    ensures NewestOk(t)
  {
    hide Overpinned;
    forall a | Linked(t, a) && t.caches[a.shm].font in t.fonts
      ensures var table := t.fonts[t.caches[a.shm].font].table;
              a.glyph.index in table && table[a.glyph.index].shm == a.shm ==> a.pos <= table[a.glyph.index].pos
    {
      QuietLinked(s, t, a);
      assert s.caches[a.shm].font in s.fonts;
    }
  }

  lemma MarkedHome(s: State)
    requires s.work.Some? && HomeOk(s)
    ensures HomeOk(MarkLanded(s))
  {}

  lemma MarkedFonts(s: State)
    requires Inv(s)
    ensures FontsOk(s)
  {}

  lemma CompleteHome(s: State)
    requires s.work.Some? && HomeOk(s)
    ensures HomeOk(Complete(s))
  {
    hide Complete, SameButPins;
    CompleteDone(s);
    QuietHome(s, Complete(s));
  }

  lemma RespondHeapInv(s: State, v: Slave)
    requires Inv(s) && GlyphRuns.Enabled(s, SlaveDone(v)) && HeapInv(s)
    ensures var t := Step(s, SlaveDone(v)); HeapOk(t) && HomeOk(t) && NewestOk(t)
  {
    hide Inv, AllFit, Result, Flush, AbsorbAll, Complete, Step, HeapOk, HomeOk, NewestOk, Clean, Quiet, Reuses, MarkLanded, FontsOk, Kept, Landed;
    AllFitMarked(s, v);
    MarkedQuiet(s);
    MarkedFonts(s);
    QuietKeeps(s, MarkLanded(s));
    QuietNewest(s, MarkLanded(s));
    MarkedHome(s);
    var segs := Result(s, v).segs;
    AbsorbAllHome(MarkLanded(s), segs, Reuses(s, segs));
    var s1 := AbsorbAll(MarkLanded(s), segs, Reuses(s, segs));
    FlushHeapInv(s1, s1.lru);
    FlushOutcome(s1, s1.lru);
    var s2 := Flush(s1, s1.lru);
    FlushHome(s1, s2);
    CompleteQuiet(s2);
    MarkedFonts(s2);
    QuietKeeps(s2, Complete(s2));
    QuietNewest(s2, Complete(s2));
    CompleteHome(s2);
  }

  /** Every event keeps these. */
  lemma StepHeapInv(s: State, e: Event)
    requires Inv(s) && GlyphRuns.Enabled(s, e) && HeapInv(s)
    ensures HeapInv(Step(s, e))
  {
    hide Inv, Step, HeapOk, HomeOk, NewestOk, RenderOk, Quiet, FontsOk, GlyphRuns.Enabled;
    StepRenders(s, e);
    if e.SlaveDone? {
      RespondHeapInv(s, e.e);
    } else {
      StepHome(s, e);
      StepIsQuiet(s, e);
      MarkedFonts(s);
      QuietKeeps(s, Step(s, e));
      QuietNewest(s, Step(s, e));
    }
  }
}
