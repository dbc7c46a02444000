/**
 What pins do to eviction: what a flush leaves, and pins that are never taken back.
 */
module GlyphPins {
  import opened GlyphCache
  import opened GlyphPacking
  import opened GlyphRequests
  import opened GlyphRuns
  import opened Lists

  /** After a flush the usage is within its limit, or every cache left is pinned or of a used font. */
  lemma FlushBudget(s: State)
    requires Inv(s) && Landed(s)
    ensures NoDup(s.lru)
    ensures var t := Flush(s, s.lru);
            && Inv(t)
            && (t.mem <= MAX_FONT_USAGE
                || forall c {:trigger t.caches[c]} :: c in t.caches ==>
                     t.caches[c].inuse != 0 || (t.caches[c].font in t.fonts && !t.fonts[t.caches[c].font].unused))
  {
    LruNoDup(s);
    FlushOutcome(s, s.lru);
    var t := Flush(s, s.lru);
    if t.mem > MAX_FONT_USAGE {
      forall c | c in t.caches
        ensures t.caches[c].inuse != 0 || (t.caches[c].font in t.fonts && !t.fonts[t.caches[c].font].unused)
      {
        assert c in s.caches && c in s.lru && t.caches[c].font in t.fonts;
        assert !Evictable(t, c);
      }
    }
  }

  /** A cache a pending answer points into survives every flush, with its list. */
  lemma PinnedSurvives(s: State, a: Answer, r: Req)
    requires Inv(s) && Landed(s) && r in s.pending && a in r.answer
    ensures NoDup(s.lru) && Linked(Flush(s, s.lru), a)
  {
    LruNoDup(s);
    FlushOutcome(s, s.lru);
    assert r in Flush(s, s.lru).pending;
    assert AllLinked(Flush(s, s.lru), r.answer);
  }

  /** A font's entry is freed with a cache exactly when that is its only one. */
  lemma FontGoesWithLastCache(s: State, c: Shm)
    requires Inv(s) && c in s.caches && s.caches[c].font in s.fonts
    ensures s.caches[c].font !in Free(s, c).fonts <==> s.fonts[s.caches[c].font].caches == [c]
  {
    var q := s.fonts[s.caches[c].font].caches;
    assert c in q && FontOk(s, s.caches[c].font);
    hide Inv;
    assert |q| == 1 ==> q == [q[0]];
    if q == [c] {
      assert Without(q, {c}) == [];
    } else {
      if |q| > 1 {
        assert q[0] in q && q[1] in q && q[1] in q[1..];
        assert q[0] != q[1];
        assert (if q[0] == c then q[1] else q[0]) in Without(q, {c});
      }
    }
  }

  // ----- pins that stay -------------------------------------------------------------

  /** The cache has more pins than answers point into it. */
  ghost predicate Overpinned(s: State, c: Shm) {
    c in s.caches && Pinned(s, c) < s.caches[c].inuse
  }

  lemma EnqueueSlack(s: State, r: Req, c: Shm)
    requires c in s.caches
    ensures Enqueue(s, r).caches[c].inuse - Pinned(Enqueue(s, r), c) == s.caches[c].inuse - Pinned(s, c)
  {
    PinsOfJoin(s.pending, [r], c);
    assert PinsOf([r], c) == PinsOf([], c) + Pins(r.answer, c);
  }

  lemma AskSlack(s: State, f: FontId, glyphs: seq<nat>, c: Shm)
    requires f in s.fonts && c in s.caches
    ensures Ask(s, f, glyphs).caches[c].inuse - Pinned(Ask(s, f, glyphs), c) == s.caches[c].inuse - Pinned(s, c)
  {
    hide Deliver, Enqueue, Pinned, FoundPrefix;
    var found := FoundPrefix(s.fonts[f].table, glyphs);
    var r := Req(f, glyphs, |found|, [], found);
    EnqueueSlack(s, r, c);
    EnqueueParts(s, r);
    if |found| == |glyphs| { DeliverPins(Enqueue(s, r)); }
  }

  lemma EnqueueParts(s: State, r: Req)
    ensures Enqueue(s, r).pending != [] && Enqueue(s, r).caches.Keys == s.caches.Keys
  {}

  lemma DispatchSlack(s: State, i: nat, c: Shm)
    requires Inv(s) && s.work.None? && i < |s.pending| && s.pending[i].font in s.fonts && c in s.caches
    requires s.pending[i].current <= |s.pending[i].glyphs|
    requires s.fonts[s.pending[i].font].last.Some? ==> s.fonts[s.pending[i].font].last.value in s.caches
    ensures Dispatch(s, i).caches[c].inuse - Pinned(Dispatch(s, i), c) == s.caches[c].inuse - Pinned(s, c)
  {
    hide Inv, Found, NotFound;
    var r := s.pending[i];
    TakePins(s.pending, i, c);
    PinsJoin(r.answer, Found(s.fonts[r.font].table, r.glyphs[r.current..]), c);
  }

  lemma AbsorbSlack(s: State, seg: Segment, reuse: bool, c: Shm)
    requires s.work.Some? && s.work.value.req.font in s.fonts && Fits(s, seg, reuse) && c in s.caches
    ensures var t := Absorb(s, seg, reuse);
            c in t.caches && t.caches[c].inuse - Pinned(t, c) == s.caches[c].inuse - Pinned(s, c)
  {
    hide Listed, SegmentOk;
    PinsJoin(s.work.value.req.answer, Answers(seg.shm, PlaceOf(s, seg, reuse), seg.glyphs), c);
    NewPins(seg.shm, PlaceOf(s, seg, reuse), seg.glyphs, c);
  }

  lemma {:induction false} AbsorbAllSlack(s: State, segs: seq<Segment>, reuse: bool, c: Shm)
    requires Inv(s) && Landed(s) && s.work.Some? && s.work.value.req.font in s.fonts && AllFit(s, segs, reuse)
    requires c in s.caches
    ensures var t := AbsorbAll(s, segs, reuse);
            c in t.caches && t.caches[c].inuse - Pinned(t, c) == s.caches[c].inuse - Pinned(s, c)
    decreases segs
  {
    hide Inv, Fits, Absorb;
    if segs != [] {
      NextFit(s, segs, reuse);
      FitsFirst(s, segs, reuse);
      AbsorbKeeps(s, segs[0], reuse);
      AbsorbSlack(s, segs[0], reuse, c);
      AbsorbAllSlack(Absorb(s, segs[0], reuse), segs[1..], false, c);
    }
  }

  lemma FlushSlack(s: State, c: Shm)
    requires Inv(s) && Landed(s) && Overpinned(s, c)
    ensures NoDup(s.lru) && Overpinned(Flush(s, s.lru), c)
  {
    hide Inv;
    LruNoDup(s);
    FlushOutcome(s, s.lru);
  }

  lemma CompleteSlack(s: State, c: Shm)
    requires s.work.Some? && Overpinned(s, c)
    ensures Overpinned(Complete(s), c)
  {
    hide Deliver;
    var r := s.work.value.req;
    var t := s.(work := None, pending := s.pending + [r]);
    PinsOfJoin(s.pending, [r], c);
    assert PinsOf([r], c) == PinsOf([], c) + Pins(r.answer, c);
    DeliverPins(t);
  }

  lemma RespondSlack(s: State, e: Slave, c: Shm)
    requires Inv(s) && Enabled(s, SlaveDone(e)) && Overpinned(s, c)
    ensures Overpinned(Step(s, SlaveDone(e)), c)
  {
    hide Inv, AllFit, Result, Flush, AbsorbAll, Complete, Pinned;
    SlaveResultFits(s, e);
    var segs := Result(s, e).segs;
    LandedKeeps(s, segs, Reuses(s, segs));
    LandedSlack(s, c);
    AbsorbAllKeeps(MarkLanded(s), segs, Reuses(s, segs));
    AbsorbAllSlack(MarkLanded(s), segs, Reuses(s, segs), c);
    var s1 := AbsorbAll(MarkLanded(s), segs, Reuses(s, segs));
    FlushSlack(s1, c);
    FlushOutcome(s1, s1.lru);
    CompleteSlack(Flush(s1, s1.lru), c);
  }

  lemma LandedSlack(s: State, c: Shm)
    requires s.work.Some?
    ensures MarkLanded(s).caches == s.caches && Pinned(MarkLanded(s), c) == Pinned(s, c)
  {}

  lemma StepSlack(s: State, e: Event, c: Shm)
    requires Inv(s) && Enabled(s, e) && Overpinned(s, c)
    ensures Overpinned(Step(s, e), c)
  {
    hide Inv, Deliver, Respond, Dispatch, Ask, FoundPrefix;
    match e
    case FontLoaded(f) =>
    case FontReferenced(f, unused) =>
    case GlyphsLoad(f, glyphs) => AskSlack(s, f, glyphs, c);
      AskCaches(s, f, glyphs);
    case GlyphsUsed(f, glyphs) =>
    case SlaveStarts(i) => DispatchKeeps(s, i);
      DispatchCaches(s, i);
      DispatchSlack(s, i, c);
    case SlaveDone(v) => RespondSlack(s, v, c);
    case SlaveFails =>
    case QueuedFails(i) => TakePins(s.pending, i, c);
  }

  lemma AskCaches(s: State, f: FontId, glyphs: seq<nat>)
    requires f in s.fonts
    ensures Ask(s, f, glyphs).caches.Keys == s.caches.Keys
  {}

  lemma DispatchCaches(s: State, i: nat)
    requires i < |s.pending| && s.pending[i].font in s.fonts && s.pending[i].current <= |s.pending[i].glyphs|
    requires s.fonts[s.pending[i].font].last.Some? ==> s.fonts[s.pending[i].font].last.value in s.caches
    ensures Dispatch(s, i).caches.Keys == s.caches.Keys
  {}

  /** A cache pinned once too often is never evicted, whatever happens. */
  lemma {:induction false} OverpinnedForever(s: State, es: seq<Event>, c: Shm)
    requires Inv(s) && Legal(s, es) && Overpinned(s, c)
    ensures Overpinned(Final(s, es), c)
    decreases |es|
  {
    hide Inv, Enabled, Step, Overpinned;
    if es != [] {
      StepSlack(s, es[0], c);
      OverpinnedForever(Step(s, es[0]), es[1..], c);
    }
  }

  /**
   A client reporting a cached glyph as used pins its cache for good: the pin taken while
   looking it up is never taken back, so no run evicts the cache any more.
   */
  lemma UsedIsNeverEvicted(s: State, f: FontId, glyphs: seq<nat>, es: seq<Event>)
    requires Inv(s) && f in s.fonts && glyphs != [] && glyphs[0] in s.fonts[f].table
    requires Enabled(s, GlyphsUsed(f, glyphs)) && Legal(Step(s, GlyphsUsed(f, glyphs)), es)
    ensures s.fonts[f].table[glyphs[0]].shm in Final(Step(s, GlyphsUsed(f, glyphs)), es).caches
  {
    var t := Step(s, GlyphsUsed(f, glyphs));
    var a := s.fonts[f].table[glyphs[0]];
    UsedOverpins(s, f, glyphs);
    hide Inv, Legal, Final, Used;
    OverpinnedForever(t, es, a.shm);
  }

  lemma UsedOverpins(s: State, f: FontId, glyphs: seq<nat>)
    requires Inv(s) && f in s.fonts && glyphs != [] && glyphs[0] in s.fonts[f].table
    ensures Overpinned(Used(s, f, glyphs), s.fonts[f].table[glyphs[0]].shm)
  {
    var a := s.fonts[f].table[glyphs[0]];
    var found := FoundPrefix(s.fonts[f].table, glyphs);
    assert FontOk(s, f) && Linked(s, a);
    assert found[0] == a && Pins(found, a.shm) >= 1;
    hide Packed;
  }

  // ----- why one slave --------------------------------------------------------------

  /** Two loads given the same usage put glyphs in the same place: a second slave would overlap. */
  lemma TwoSlavesOverlap(gs: seq<Glyph>, usage: nat, one: seq<Glyph>, two: seq<Glyph>, to1: nat, to2: nat)
    requires Packed(0, gs, usage) && Packed(usage, one, to1) && Packed(usage, two, to2)
    requires one != [] && two != [] && 0 < one[0].size
    ensures one[0].offset == two[0].offset
    ensures !Packed(0, gs + one + two, to2)
  {
    PackedJoin(0, gs, usage, one, to1);
    PackedTotal(usage, one, to1);
    if Packed(0, gs + one + two, to2) {
      PackedAt(0, gs + one, to1, two, to2);
    }
  }

  /** Where the second part of a packed list starts. */
  lemma {:induction false} PackedAt(a: nat, xs: seq<Glyph>, b: nat, ys: seq<Glyph>, c: nat)
    requires Packed(a, xs, b) && Packed(a, xs + ys, c) && ys != []
    ensures ys[0].offset == b
    decreases xs
  {
    if xs == [] {
      assert xs + ys == ys;
    } else {
      assert (xs + ys)[1..] == xs[1..] + ys;
      PackedAt(a + xs[0].size, xs[1..], b, ys, c);
    }
  }
}
