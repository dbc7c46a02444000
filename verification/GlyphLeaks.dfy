/**
 When pins are exact: the two events that leave one behind, and what follows for a run.
 */
module GlyphLeaks {
  import opened GlyphCache
  import opened GlyphPacking
  import opened GlyphRequests
  import opened GlyphRuns
  import opened GlyphPins
  import opened Lists

  /** Every cache has as many pins as answers in preparation point into it. */
  ghost predicate Exact(s: State) {
    forall c {:trigger s.caches[c]} :: c in s.caches ==> s.caches[c].inuse == Pinned(s, c)
  }

  /**
   The events that leave pins behind: a client reports glyphs as used of which the first is
   cached, or a request fails that had already found glyphs, in the slave's hands or queued.
   */
  ghost predicate Leaks(s: State, e: Event)
    requires Inv(s) && GlyphRuns.Enabled(s, e)
  {
    match e
    case GlyphsUsed(f, glyphs) => FoundPrefix(s.fonts[f].table, glyphs) != []
    case SlaveFails => s.work.value.req.answer != []
    case QueuedFails(i) => s.pending[i].answer != []
    case _ => false
  }

  lemma NotExact(s: State, c: Shm)
    requires Overpinned(s, c)
    ensures !Exact(s)
  {}

  lemma Inexact(s: State) returns (c: Shm)
    requires Inv(s) && !Exact(s)
    ensures Overpinned(s, c)
  {
    c :| c in s.caches && s.caches[c].inuse != Pinned(s, c);
  }

  lemma AskExact(s: State, f: FontId, glyphs: seq<nat>)
    requires Exact(s) && f in s.fonts
    ensures Exact(Ask(s, f, glyphs))
  {
    hide Ask, Pinned, FoundPrefix;
    AskCaches(s, f, glyphs);
    var t := Ask(s, f, glyphs);
    forall c | c in t.caches ensures t.caches[c].inuse == Pinned(t, c) {
      AskSlack(s, f, glyphs, c);
    }
  }

  lemma DispatchExact(s: State, i: nat)
    requires Inv(s) && GlyphRuns.Enabled(s, SlaveStarts(i)) && Exact(s)
    ensures Exact(Step(s, SlaveStarts(i)))
  {
    hide Inv, Dispatch, Pinned;
    DispatchKeeps(s, i);
    DispatchCaches(s, i);
    var t := Dispatch(s, i);
    forall c | c in t.caches ensures t.caches[c].inuse == Pinned(t, c) {
      DispatchSlack(s, i, c);
    }
  }

  /** The glyphs of a new cache are all in the answer in hand. */
  lemma AbsorbExact(s: State, seg: Segment, reuse: bool)
    requires Inv(s) && Exact(s) && s.work.Some? && s.work.value.req.font in s.fonts && Fits(s, seg, reuse)
    ensures Exact(Absorb(s, seg, reuse))
  {
    hide Listed, SegmentOk, CachesOk, LruOk, FontsOk, AnswersOk, WorkOk;
    var t := Absorb(s, seg, reuse);
    forall c | c in t.caches ensures t.caches[c].inuse == Pinned(t, c) {
      if c in s.caches {
        AbsorbSlack(s, seg, reuse, c);
      } else {
        AbsentUnpinned(s, c);
        PinsJoin(s.work.value.req.answer, Answers(seg.shm, PlaceOf(s, seg, reuse), seg.glyphs), c);
        NewPins(seg.shm, PlaceOf(s, seg, reuse), seg.glyphs, c);
      }
    }
  }

  lemma {:induction false} AbsorbAllExact(s: State, segs: seq<Segment>, reuse: bool)
    requires Inv(s) && Landed(s) && Exact(s) && s.work.Some? && s.work.value.req.font in s.fonts && AllFit(s, segs, reuse)
    ensures Exact(AbsorbAll(s, segs, reuse))
    decreases segs
  {
    hide Inv, Fits, Absorb, Exact;
    if segs != [] {
      NextFit(s, segs, reuse);
      FitsFirst(s, segs, reuse);
      AbsorbKeeps(s, segs[0], reuse);
      AbsorbExact(s, segs[0], reuse);
      AbsorbAllExact(Absorb(s, segs[0], reuse), segs[1..], false);
    }
  }

  lemma FlushExact(s: State)
    requires Inv(s) && Landed(s) && Exact(s)
    ensures NoDup(s.lru) && Exact(Flush(s, s.lru))
  {
    hide Inv, Flush;
    LruNoDup(s);
    FlushOutcome(s, s.lru);
  }

  lemma CompleteExact(s: State)
    requires s.work.Some? && Exact(s)
    ensures Exact(Complete(s))
  {
    hide Deliver;
    var r := s.work.value.req;
    var t := s.(work := None, pending := s.pending + [r]);
    forall c | c in s.caches ensures t.caches[c].inuse == Pinned(t, c) {
      PinsOfJoin(s.pending, [r], c);
      assert PinsOf([r], c) == PinsOf([], c) + Pins(r.answer, c);
    }
    DeliverPins(t);
  }

  lemma LandedExact(s: State)
    requires s.work.Some? && Exact(s)
    ensures Exact(MarkLanded(s))
  {
    forall c | c in s.caches ensures MarkLanded(s).caches[c].inuse == Pinned(MarkLanded(s), c) {
      LandedSlack(s, c);
    }
  }

  lemma RespondExact(s: State, e: Slave)
    requires Inv(s) && GlyphRuns.Enabled(s, SlaveDone(e)) && Exact(s)
    ensures Exact(Step(s, SlaveDone(e)))
  {
    hide Inv, AllFit, Result, Flush, AbsorbAll, Complete, Exact;
    SlaveResultFits(s, e);
    var segs := Result(s, e).segs;
    LandedKeeps(s, segs, Reuses(s, segs));
    LandedExact(s);
    AbsorbAllKeeps(MarkLanded(s), segs, Reuses(s, segs));
    AbsorbAllExact(MarkLanded(s), segs, Reuses(s, segs));
    var s1 := AbsorbAll(MarkLanded(s), segs, Reuses(s, segs));
    FlushExact(s1);
    FlushOutcome(s1, s1.lru);
    CompleteExact(Flush(s1, s1.lru));
  }

  lemma UsedExactIff(s: State, f: FontId, glyphs: seq<nat>)
    requires Inv(s) && f in s.fonts && Exact(s)
    ensures Exact(Used(s, f, glyphs)) <==> FoundPrefix(s.fonts[f].table, glyphs) == []
  {
    hide CachesOk, LruOk, AnswersOk, WorkOk;
    var found := FoundPrefix(s.fonts[f].table, glyphs);
    if found == [] {
      assert forall c :: Pins(found, c) == 0;
    } else {
      UsedOverpins(s, f, glyphs);
      NotExact(Used(s, f, glyphs), s.fonts[f].table[glyphs[0]].shm);
    }
  }

  lemma FailExactIff(s: State)
    requires Inv(s) && s.work.Some? && Exact(s)
    ensures Exact(Fail(s)) <==> s.work.value.req.answer == []
  {
    hide CachesOk, LruOk, FontsOk, AnswersOk, WorkOk;
    var answer := s.work.value.req.answer;
    if answer == [] {
      assert forall c :: Pins(answer, c) == 0;
    } else {
      FailOverpins(s, answer[0]);
      NotExact(Fail(s), answer[0].shm);
    }
  }

  lemma DropExactIff(s: State, i: nat)
    requires Inv(s) && i < |s.pending| && Exact(s)
    ensures Exact(DropQueued(s, i)) <==> s.pending[i].answer == []
  {
    hide CachesOk, LruOk, FontsOk, WorkOk;
    var t := DropQueued(s, i);
    var answer := s.pending[i].answer;
    forall c: Shm ensures PinsOf(s.pending, c) == PinsOf(t.pending, c) + Pins(answer, c) { TakePins(s.pending, i, c); }
    if answer == [] {
      assert forall c :: Pins(answer, c) == 0;
    } else {
      assert s.pending[i] in s.pending && AllLinked(s, answer);
      assert answer[0] in answer && Linked(s, answer[0]);
      HasPin(answer, answer[0]);
      NotExact(t, answer[0].shm);
    }
  }

  /** From exact pins, a step leads to exact pins if and only if it is not one of the two. */
  lemma StepExactIff(s: State, e: Event)
    requires Inv(s) && GlyphRuns.Enabled(s, e) && Exact(s)
    ensures Exact(Step(s, e)) <==> !Leaks(s, e)
  {
    hide Inv, Respond, Dispatch, Ask, Used, Fail, DropQueued, FoundPrefix;
    match e
    case FontLoaded(f) => assert forall c :: Pinned(Step(s, e), c) == Pinned(s, c);
    case FontReferenced(f, unused) => assert forall c :: Pinned(Step(s, e), c) == Pinned(s, c);
    case GlyphsLoad(f, glyphs) => AskExact(s, f, glyphs);
    case GlyphsUsed(f, glyphs) => UsedExactIff(s, f, glyphs);
    case SlaveStarts(i) => DispatchExact(s, i);
    case SlaveDone(v) => RespondExact(s, v);
    case SlaveFails => FailExactIff(s);
    case QueuedFails(i) => DropExactIff(s, i);
  }

  /** Some event of the run leaves pins behind. */
  ghost predicate LeaksIn(s: State, es: seq<Event>)
    requires Inv(s) && Legal(s, es)
    decreases |es|
  {
    es != [] && (Leaks(s, es[0]) || LeaksIn(Step(s, es[0]), es[1..]))
  }

  /** After a run pins are exact if and only if they were and no event of the run was one of the two. */
  lemma {:induction false} RunExactIff(s: State, es: seq<Event>)
    requires Inv(s) && Legal(s, es)
    ensures Exact(Final(s, es)) <==> Exact(s) && !LeaksIn(s, es)
    decreases |es|
  {
    hide Inv, GlyphRuns.Enabled, Step, Exact, Leaks, Overpinned;
    if !Exact(s) {
      var c := Inexact(s);
      OverpinnedForever(s, es, c);
      NotExact(Final(s, es), c);
    } else if es != [] {
      StepExactIff(s, es[0]);
      RunExactIff(Step(s, es[0]), es[1..]);
    }
  }

  /** From nothing, the pins of a run are exact if and only if nothing leaked in it. */
  lemma PinsAreExactIff(es: seq<Event>)
    requires Legal(EMPTY, es)
    ensures Exact(Final(EMPTY, es)) <==> !LeaksIn(EMPTY, es)
  {
    EmptyIsOk();
    RunExactIff(EMPTY, es);
    hide Inv, Legal, Final, LeaksIn;
  }

  /** A load that fails after it found a glyph keeps that glyph's cache for good. */
  lemma FailedIsNeverEvicted(s: State, a: Answer, es: seq<Event>)
    requires Inv(s) && s.work.Some? && a in s.work.value.req.answer
    requires GlyphRuns.Enabled(s, SlaveFails) && Legal(Step(s, SlaveFails), es)
    ensures a.shm in Final(Step(s, SlaveFails), es).caches
  {
    var t := Step(s, SlaveFails);
    FailOverpins(s, a);
    hide Inv, Legal, Final, Fail;
    OverpinnedForever(t, es, a.shm);
  }

  lemma FailOverpins(s: State, a: Answer)
    requires Inv(s) && s.work.Some? && a in s.work.value.req.answer
    ensures Overpinned(Fail(s), a.shm)
  {
    hide LruOk, FontsOk, WorkOk, ReqsLinked, Packed;
    assert Linked(s, a);
    HasPin(s.work.value.req.answer, a);
    assert s.caches[a.shm].inuse >= Pinned(s, a.shm);
  }

  lemma {:induction false} HasPin(answer: seq<Answer>, a: Answer)
    requires a in answer
    ensures Pins(answer, a.shm) >= 1
  {
    if a != answer[0] { HasPin(answer[1..], a); }
  }
}
