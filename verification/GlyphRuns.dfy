/**
 The font slave's result enters the caches, and whole runs of the glyph cache: packing,
 pins, usage and answers stay right whatever is asked for, loaded, used or given up.
 */
module GlyphRuns {
  import opened GlyphCache
  import opened GlyphPacking
  import opened GlyphRequests
  import opened Lists

  /** The entries made for glyphs that are appended from place `pos`. */
  function Answers(shm: Shm, pos: nat, gs: seq<Glyph>): (r: seq<Answer>)
    ensures |r| == |gs| && forall i {:trigger r[i]} :: 0 <= i < |gs| ==> r[i] == Answer(shm, pos + i, gs[i])
    decreases gs
  {
    if gs == [] then [] else [Answer(shm, pos, gs[0])] + Answers(shm, pos + 1, gs[1..])
  }

  /** fash_gl_add for each glyph */
  function Listed(table: map<nat, Answer>, shm: Shm, pos: nat, gs: seq<Glyph>): map<nat, Answer>
    decreases gs
  {
    if gs == [] then table else Listed(table[gs[0].index := Answer(shm, pos, gs[0])], shm, pos + 1, gs[1..])
  }

  function AsSet(answer: seq<Answer>): set<Answer> {
    set a | a in answer
  }

  /** One segment of the response, into the font's last cache or a new one. */
  function Absorb(s: State, seg: Segment, reuse: bool): State
    requires s.work.Some? && s.work.value.req.font in s.fonts && (reuse ==> seg.shm in s.caches)
  {
    var w := s.work.value;
    var f := w.req.font;
    var fe := s.fonts[f];
    var fc := if reuse then s.caches[seg.shm] else Cache(f, seg.cap, 0, 0, 0, []);
    var fc' := fc.(usage := seg.usage, inuse := fc.inuse + |seg.glyphs|,
                   nglyphs := fc.nglyphs + |seg.glyphs|, glyphs := fc.glyphs + seg.glyphs);
    var fe' := fe.(caches := if reuse then fe.caches else fe.caches + [seg.shm],
                   last := if reuse then fe.last else Some(seg.shm),
                   table := Listed(fe.table, seg.shm, |fc.glyphs|, seg.glyphs));
    var made := Answers(seg.shm, |fc.glyphs|, seg.glyphs);
    s.(caches := s.caches[seg.shm := fc'], lru := if reuse then s.lru else s.lru + [seg.shm],
       mem := s.mem + (if reuse then 0 else CACHE_SIZE + seg.cap) + |seg.glyphs| * GLYPH_SIZE,
       fonts := s.fonts[f := fe'],
       work := Some(w.(req := w.req.(answer := w.req.answer + made), landed := true)),
       heap := s.heap + AsSet(made))
  }

  /** The segment starts where the cache ends, or is new. */
  predicate Fits(s: State, seg: Segment, reuse: bool)
    requires s.work.Some? && s.work.value.req.font in s.fonts
  {
    if reuse then
      && seg.shm in s.caches && s.caches[seg.shm].cap == seg.cap
      && s.fonts[s.work.value.req.font].last == Some(seg.shm)
      && SegmentOk(seg, s.caches[seg.shm].usage)
    else seg.shm !in s.caches && SegmentOk(seg, 0)
  }

  // ----- a segment enters -----------------------------------------------------------

  lemma {:induction false} NewPins(shm: Shm, pos: nat, gs: seq<Glyph>, c: Shm)
    ensures Pins(Answers(shm, pos, gs), c) == if c == shm then |gs| else 0
    decreases gs
  {
    if gs != [] {
      NewPins(shm, pos + 1, gs[1..], c);
      assert Answers(shm, pos, gs)[1..] == Answers(shm, pos + 1, gs[1..]);
    }
  }

  /** Where the glyphs of a segment go in the list of its cache. */
  function PlaceOf(s: State, seg: Segment, reuse: bool): nat
    requires reuse ==> seg.shm in s.caches
  {
    if reuse then |s.caches[seg.shm].glyphs| else 0
  }

  lemma {:induction false} NoPinsHere(answer: seq<Answer>, c: Shm)
    requires forall a {:trigger a in answer} :: a in answer ==> a.shm != c
    ensures Pins(answer, c) == 0
  {
    if answer != [] {
      assert answer[0] in answer && forall a {:trigger a in answer[1..]} :: a in answer[1..] ==> a in answer;
      NoPinsHere(answer[1..], c);
    }
  }

  lemma {:induction false} NoPinsAnywhere(s: State, reqs: seq<Req>, c: Shm)
    requires ReqsLinked(s, reqs) && c !in s.caches
    ensures PinsOf(reqs, c) == 0
  {
    if reqs != [] {
      assert reqs[0] in reqs && forall r {:trigger r in reqs[1..]} :: r in reqs[1..] ==> r in reqs;
      assert forall a :: a in reqs[0].answer ==> Linked(s, a);
      NoPinsHere(reqs[0].answer, c);
      NoPinsAnywhere(s, reqs[1..], c);
    }
  }

  /** Nothing points into a cache that is not there. */
  lemma AbsentUnpinned(s: State, c: Shm)
    requires AnswersOk(s) && c !in s.caches
    ensures Pinned(s, c) == 0
  {
    NoPinsAnywhere(s, s.pending, c);
    if s.work.Some? {
      assert forall a :: a in s.work.value.req.answer ==> Linked(s, a);
      NoPinsHere(s.work.value.req.answer, c);
    }
  }

  lemma AbsorbCaches(s: State, seg: Segment, reuse: bool)
    requires Inv(s) && s.work.Some? && s.work.value.req.font in s.fonts && Fits(s, seg, reuse)
    ensures CachesOk(Absorb(s, seg, reuse))
  {
    hide AnswersOk, LruOk, FontsOk, WorkOk, Listed, Packed;
    var t := Absorb(s, seg, reuse);
    var answer := s.work.value.req.answer;
    forall c: Shm ensures Pinned(t, c) == Pinned(s, c) + if c == seg.shm then |seg.glyphs| else 0 {
      PinsJoin(answer, Answers(seg.shm, PlaceOf(s, seg, reuse), seg.glyphs), c);
      NewPins(seg.shm, PlaceOf(s, seg, reuse), seg.glyphs, c);
    }
    if reuse {
      var fc := s.caches[seg.shm];
      PackedJoin(0, fc.glyphs, fc.usage, seg.glyphs, seg.usage);
    } else {
      AbsentUnpinned(s, seg.shm);
      assert [] + seg.glyphs == seg.glyphs;
    }
  }

  lemma AbsorbLru(s: State, seg: Segment, reuse: bool)
    requires LruOk(s) && s.work.Some? && s.work.value.req.font in s.fonts && Fits(s, seg, reuse)
    ensures LruOk(Absorb(s, seg, reuse))
  {
    hide Listed, SegmentOk;
    var t := Absorb(s, seg, reuse);
    if reuse {
      MemGrows(s.lru, seg.shm, s.caches, t.caches[seg.shm]);
    } else {
      assert seg.shm !in s.lru;
      AppendNoDup(s.lru, seg.shm);
      MemAppend(s.lru, seg.shm, t.caches);
      MemElsewhere(s.lru, seg.shm, s.caches, t.caches[seg.shm]);
    }
  }

  /** Every live answer stays live; caches only gain glyphs. */
  lemma AbsorbLinked(s: State, seg: Segment, reuse: bool, a: Answer)
    requires s.work.Some? && s.work.value.req.font in s.fonts && Fits(s, seg, reuse) && Linked(s, a)
    ensures Linked(Absorb(s, seg, reuse), a)
  {}

  lemma AbsorbAnswers(s: State, seg: Segment, reuse: bool)
    requires AnswersOk(s) && s.work.Some? && s.work.value.req.font in s.fonts && Fits(s, seg, reuse)
    ensures AnswersOk(Absorb(s, seg, reuse))
  {
    hide Absorb, Linked, SegmentOk;
    var t := Absorb(s, seg, reuse);
    AbsorbParts(s, seg, reuse);
    forall r | r in t.pending ensures AllLinked(t, r.answer) && r.current <= |r.glyphs| {
      forall a | a in r.answer ensures Linked(t, a) { AbsorbLinked(s, seg, reuse, a); }
    }
    forall a | a in t.work.value.req.answer ensures Linked(t, a) {
      if a in s.work.value.req.answer {
        AbsorbLinked(s, seg, reuse, a);
      } else {
        assert a in Answers(seg.shm, PlaceOf(s, seg, reuse), seg.glyphs);
      }
    }
  }

  lemma AbsorbParts(s: State, seg: Segment, reuse: bool)
    requires s.work.Some? && s.work.value.req.font in s.fonts && Fits(s, seg, reuse)
    ensures var t := Absorb(s, seg, reuse);
            && t.pending == s.pending && t.work.Some?
            && t.work.value.req.answer == s.work.value.req.answer + Answers(seg.shm, PlaceOf(s, seg, reuse), seg.glyphs)
            && (forall a {:trigger a in Answers(seg.shm, PlaceOf(s, seg, reuse), seg.glyphs)} :: a in Answers(seg.shm, PlaceOf(s, seg, reuse), seg.glyphs) ==> Linked(t, a))
  {}

  lemma {:induction false} ListedIs(table: map<nat, Answer>, shm: Shm, pos: nat, gs: seq<Glyph>, g: nat)
    requires g in Listed(table, shm, pos, gs)
    ensures var t := Listed(table, shm, pos, gs);
            (g in table && t[g] == table[g]) || (t[g] in Answers(shm, pos, gs) && t[g].glyph.index == g)
    decreases gs
  {
    if gs != [] {
      ListedIs(table[gs[0].index := Answer(shm, pos, gs[0])], shm, pos + 1, gs[1..], g);
      assert Answers(shm, pos, gs)[1..] == Answers(shm, pos + 1, gs[1..]);
    }
  }

  lemma AbsorbTable(s: State, seg: Segment, reuse: bool, x: FontId, g: nat)
    requires FontsOk(s) && s.work.Some? && s.work.value.req.font in s.fonts && Fits(s, seg, reuse)
    requires x in s.fonts && g in Absorb(s, seg, reuse).fonts[x].table
    ensures var t := Absorb(s, seg, reuse);
            var a := t.fonts[x].table[g];
            Linked(t, a) && a.glyph.index == g && a.shm in t.fonts[x].caches
  {
    hide Listed, SegmentOk;
    assert FontOk(s, x);
    if x == s.work.value.req.font {
      ListedIs(s.fonts[x].table, seg.shm, PlaceOf(s, seg, reuse), seg.glyphs, g);
      AbsorbParts(s, seg, reuse);
    }
    assert g in s.fonts[x].table ==> Linked(s, s.fonts[x].table[g]);
  }

  lemma AbsorbFont(s: State, seg: Segment, reuse: bool, x: FontId)
    requires FontsOk(s) && s.work.Some? && s.work.value.req.font in s.fonts && Fits(s, seg, reuse) && x in s.fonts
    ensures FontOk(Absorb(s, seg, reuse), x)
  {
    hide Listed, SegmentOk, Linked;
    var t := Absorb(s, seg, reuse);
    assert FontOk(s, x);
    if x == s.work.value.req.font && !reuse {
      assert seg.shm !in s.fonts[x].caches;
      AppendNoDup(s.fonts[x].caches, seg.shm);
    }
    forall g | g in t.fonts[x].table
      ensures Linked(t, t.fonts[x].table[g]) && t.fonts[x].table[g].glyph.index == g
              && t.fonts[x].table[g].shm in t.fonts[x].caches
    {
      AbsorbTable(s, seg, reuse, x, g);
    }
  }

  lemma AbsorbFonts(s: State, seg: Segment, reuse: bool)
    requires FontsOk(s) && s.work.Some? && s.work.value.req.font in s.fonts && Fits(s, seg, reuse)
    ensures FontsOk(Absorb(s, seg, reuse))
  {
    hide Listed, SegmentOk, FontOk;
    var t := Absorb(s, seg, reuse);
    forall x | x in t.fonts ensures FontOk(t, x) {
      AbsorbFont(s, seg, reuse, x);
    }
    forall d | d in t.caches ensures t.caches[d].font in t.fonts && d in t.fonts[t.caches[d].font].caches {
      assert d in s.caches ==> d in s.fonts[s.caches[d].font].caches;
    }
  }

  lemma AbsorbKeeps(s: State, seg: Segment, reuse: bool)
    requires Inv(s) && s.work.Some? && s.work.value.req.font in s.fonts && Fits(s, seg, reuse)
    ensures Inv(Absorb(s, seg, reuse)) && Landed(Absorb(s, seg, reuse))
  {
    AbsorbCaches(s, seg, reuse);
    AbsorbLru(s, seg, reuse);
    AbsorbAnswers(s, seg, reuse);
    AbsorbFonts(s, seg, reuse);
    hide CachesOk, LruOk, AnswersOk, FontsOk, Listed;
  }

  // ----- the response ---------------------------------------------------------------

  function AbsorbAll(s: State, segs: seq<Segment>, reuse: bool): State
    requires s.work.Some? && s.work.value.req.font in s.fonts
    requires segs != [] && reuse ==> segs[0].shm in s.caches
    decreases segs
  {
    if segs == [] then s else AbsorbAll(Absorb(s, segs[0], reuse), segs[1..], false)
  }

  /** The segments fit one after the other: the first where it was left, the others new. */
  ghost predicate AllFit(s: State, segs: seq<Segment>, reuse: bool)
    requires s.work.Some? && s.work.value.req.font in s.fonts
  {
    segs != [] ==>
    && Fits(s, segs[0], reuse)
    && SegmentsOk(segs[1..], 0)
    && (forall i {:trigger segs[i].shm} :: 0 < i < |segs| ==> segs[i].shm !in s.caches)
    && (forall i, j {:trigger segs[i].shm, segs[j].shm} :: 0 <= i < j < |segs| ==> segs[i].shm < segs[j].shm)
  }

  lemma NextFit(s: State, segs: seq<Segment>, reuse: bool)
    requires s.work.Some? && s.work.value.req.font in s.fonts && segs != [] && AllFit(s, segs, reuse)
    ensures var t := Absorb(s, segs[0], reuse);
            t.work.Some? && t.work.value.req.font in t.fonts && AllFit(t, segs[1..], false)
  {
    hide Listed, SegmentOk, Answers;
    var t := Absorb(s, segs[0], reuse);
    var rest := segs[1..];
    forall i | 0 <= i < |rest| ensures rest[i].shm !in t.caches {
      assert rest[i] == segs[i + 1] && segs[0].shm < segs[i + 1].shm;
    }
    forall i, j | 0 <= i < j < |rest| ensures rest[i].shm < rest[j].shm {
      assert segs[i + 1].shm < segs[j + 1].shm;
    }
  }

  lemma {:induction false} AbsorbAllKeeps(s: State, segs: seq<Segment>, reuse: bool)
    requires Inv(s) && Landed(s) && s.work.Some? && s.work.value.req.font in s.fonts && AllFit(s, segs, reuse)
    ensures var t := AbsorbAll(s, segs, reuse);
            Inv(t) && Landed(t) && t.work.Some?
            && forall c {:trigger c in t.caches} :: c in s.caches ==> c in t.caches
    decreases segs
  {
    hide Inv, Fits;
    if segs != [] {
      NextFit(s, segs, reuse);
      FitsFirst(s, segs, reuse);
      AbsorbKeeps(s, segs[0], reuse);
      AbsorbAllKeeps(Absorb(s, segs[0], reuse), segs[1..], false);
    }
  }

  lemma FitsFirst(s: State, segs: seq<Segment>, reuse: bool)
    requires s.work.Some? && s.work.value.req.font in s.fonts && segs != [] && AllFit(s, segs, reuse)
    ensures Fits(s, segs[0], reuse) && (reuse ==> segs[0].shm in s.caches)
  {}

  /** What the font slave is given to start with: its segment as the server knows it. */
  function StartOf(s: State): (r: seq<Segment>)
    requires s.work.Some? && (s.work.value.start.Some? ==> s.work.value.start.value in s.caches)
    ensures |r| <= 1
  {
    var w := s.work.value;
    if w.start.None? then [] else [Segment(w.start.value, s.caches[w.start.value].cap, w.usage, [])]
  }

  /** How the slave finds the fonts and the memory when it works. */
  datatype Slave = Slave(sizes: map<nat, nat>, shmSize: nat, nextShm: nat, page: nat)

  function Result(s: State, e: Slave): Outcome
    requires s.work.Some? && (s.work.value.start.Some? ==> s.work.value.start.value in s.caches) && 0 < e.page
  {
    var start := StartOf(s);
    Load(start, start != [], s.work.value.req.render,
         if start != [] then s.caches[start[0].shm].nglyphs else 0, e.shmSize, e.nextShm, e.sizes, e.page)
  }

  function MarkLanded(s: State): State
    requires s.work.Some?
  {
    s.(work := Some(s.work.value.(landed := true)))
  }

  /** The request in hand is complete: it is answered like one that needed no loading. */
  function Complete(s: State): State
    requires s.work.Some?
  {
    Deliver(s.(work := None, pending := s.pending + [s.work.value.req]))
  }

  /** _glyphs_load_request_response's test for the cache it goes on filling */
  predicate Reuses(s: State, segs: seq<Segment>)
    requires s.work.Some? && s.work.value.req.font in s.fonts
  {
    segs != [] && s.fonts[s.work.value.req.font].last == Some(segs[0].shm)
  }

  /** What the slave packed fits: it started where the cache still ends. */
  lemma SlaveResultFits(s: State, e: Slave)
    requires Inv(s) && s.work.Some? && !s.work.value.landed && 0 < e.page && s.work.value.req.font in s.fonts
    requires forall c {:trigger c in s.caches} :: c in s.caches ==> c < e.nextShm
    ensures s.work.value.start.Some? ==> s.work.value.start.value in s.caches
    ensures Result(s, e).Done? ==>
              Reuses(s, Result(s, e).segs) == s.work.value.start.Some?
              && AllFit(s, Result(s, e).segs, Reuses(s, Result(s, e).segs))
              && Drawn(Result(s, e).segs) == Loadable(s.work.value.req.render, e.sizes)
  {
    hide AnswersOk, Packed, Drawn;
    var start := StartOf(s);
    var w := s.work.value;
    var from := if start == [] then 0 else start[0].usage;
    if start != [] { assert FontOk(s, w.req.font); }
    StartOk(s, start, from, e.nextShm);
    var total := if start != [] then s.caches[start[0].shm].nglyphs else 0;
    LoadPacks(start, start != [], w.req.render, total, e.shmSize, e.nextShm, e.sizes, e.page, from);
    LoadAllocates(start, start != [], w.req.render, total, e.shmSize, e.nextShm, e.sizes, e.page);
    NothingDrawn(start);
    assert [] + Loadable(w.req.render, e.sizes) == Loadable(w.req.render, e.sizes);
    var r := Result(s, e);
    if r.Done? && start == [] && r.segs != [] {
      assert r.segs[0].shm >= e.nextShm;
      assert w.start.None?;
    }
  }

  lemma StartOk(s: State, start: seq<Segment>, from: nat, nextShm: nat)
    requires Inv(s) && s.work.Some? && !s.work.value.landed
    requires forall c {:trigger c in s.caches} :: c in s.caches ==> c < nextShm
    requires s.work.value.start.Some? ==> s.work.value.start.value in s.caches
    requires start == StartOf(s) && from == if start == [] then 0 else start[0].usage
    ensures SegmentsOk(start, from) && Rising(start, nextShm)
  {
    if start != [] { assert start[1..] == []; }
  }

  /** _glyphs_load_request_response: into the caches, a flush, then the answer. */
  function Respond(s: State, e: Slave): (t: State)
    requires Inv(s) && s.work.Some? && !s.work.value.landed && 0 < e.page && s.work.value.req.font in s.fonts
    requires forall c {:trigger c in s.caches} :: c in s.caches ==> c < e.nextShm
    requires s.work.value.start.Some? ==> s.work.value.start.value in s.caches
    requires Result(s, e).Done?
    ensures Inv(t)
  {
    hide Inv, AllFit, Result, Flush, AbsorbAll, Deliver;
    SlaveResultFits(s, e);
    var segs := Result(s, e).segs;
    LandedKeeps(s, segs, Reuses(s, segs));
    AbsorbAllKeeps(MarkLanded(s), segs, Reuses(s, segs));
    var s1 := AbsorbAll(MarkLanded(s), segs, Reuses(s, segs));
    LruNoDup(s1);
    FlushOutcome(s1, s1.lru);
    var s2 := Flush(s1, s1.lru);
    CompleteKeeps(s2);
    Complete(s2)
  }

  lemma LruNoDup(s: State)
    requires Inv(s)
    ensures NoDup(s.lru)
  {}

  lemma LandedKeeps(s: State, segs: seq<Segment>, reuse: bool)
    requires Inv(s) && s.work.Some? && s.work.value.req.font in s.fonts && AllFit(s, segs, reuse)
    ensures var t := MarkLanded(s);
            Inv(t) && Landed(t) && AllFit(t, segs, reuse) && (segs != [] && reuse ==> segs[0].shm in t.caches)
  {
    hide Packed, SegmentsOk, SegmentOk;
    PinsAside(s, MarkLanded(s));
    StillAllLinked(s, MarkLanded(s), s.pending);
    StillLinked(s, MarkLanded(s), s.work.value.req.answer);
  }

  lemma CompleteKeeps(s: State)
    requires Inv(s) && s.work.Some?
    ensures Inv(Complete(s))
  {
    hide Packed, ReqsLinked, AllLinked, Deliver;
    var r := s.work.value.req;
    var t := s.(work := None, pending := s.pending + [r.(current := 0)]);
    PinsAside(s, t);
    StillAllLinked(s, t, s.pending);
    StillLinked(s, t, r.answer);
    LinkedAppend(t, s.pending, r.(current := 0));
    forall c: Shm ensures PinsOf(t.pending, c) == PinsOf(s.pending, c) + Pins(r.answer, c) {
      PinsOfJoin(s.pending, [r.(current := 0)], c);
      assert PinsOf([r.(current := 0)], c) == PinsOf([], c) + Pins(r.answer, c);
    }
    DeliverKeeps(t);
    SameDelivery(s.(work := None), r);
  }

  /** What is delivered depends only on the answer. */
  lemma SameDelivery(s: State, r: Req)
    ensures Deliver(s.(pending := s.pending + [r])) == Deliver(s.(pending := s.pending + [r.(current := 0)]))
  {}

  // ----- runs -----------------------------------------------------------------------

  datatype Event =
    | FontLoaded(font: FontId)
    | FontReferenced(font: FontId, unused: bool)
    | GlyphsLoad(font: FontId, glyphs: seq<nat>)
    | GlyphsUsed(font: FontId, glyphs: seq<nat>)
    | SlaveStarts(i: nat)
    | SlaveDone(e: Slave)
    | SlaveFails
    | QueuedFails(i: nat)

  const EMPTY := State(map[], [], map[], 0, [], None, {}, {})

  /** Somebody's request points to the font entry. */
  predicate Awaited(s: State, f: FontId) {
    (exists r :: r in s.pending && r.font == f) || (s.work.Some? && s.work.value.req.font == f)
  }

  /**
   When an event can happen and does not touch a freed font entry: there is one font slave,
   segments it allocates are new, and it only starts on requests, and its result is only taken
   in, while the font is still there. A new font entry is nobody's.
   */
  ghost predicate Enabled(s: State, e: Event)
    requires Inv(s)
  {
    match e
    case FontLoaded(f) => f !in s.fonts && !Awaited(s, f)
    case FontReferenced(f, _) => f in s.fonts
    case GlyphsLoad(f, _) => f in s.fonts
    case GlyphsUsed(f, _) => f in s.fonts
    case SlaveStarts(i) => s.work.None? && i < |s.pending| && s.pending[i].font in s.fonts
    case SlaveDone(v) =>
      && s.work.Some? && !s.work.value.landed && 0 < v.page && s.work.value.req.font in s.fonts
      && (forall c {:trigger c in s.caches} :: c in s.caches ==> c < v.nextShm)
      && (SlaveResultFits(s, v); Result(s, v).Done?)
    case SlaveFails => s.work.Some?
    case QueuedFails(i) => i < |s.pending|
  }

  ghost function Step(s: State, e: Event): (t: State)
    requires Inv(s) && Enabled(s, e)
    ensures Inv(t)
  {
    hide Inv, Respond, Deliver;
    match e
    case FontLoaded(f) => FontKeeps(s, f, Font(false, [], None, map[])); s.(fonts := s.fonts[f := Font(false, [], None, map[])])
    case FontReferenced(f, unused) => ReferKeeps(s, f, unused); Refer(s, f, unused)
    case GlyphsLoad(f, glyphs) => AskKeeps(s, f, glyphs); Ask(s, f, glyphs)
    case GlyphsUsed(f, glyphs) => UsedKeeps(s, f, glyphs); Used(s, f, glyphs)
    case SlaveStarts(i) => DispatchKeeps(s, i); Dispatch(s, i)
    case SlaveDone(v) => SlaveResultFits(s, v); Respond(s, v)
    case SlaveFails => FailKeeps(s); Fail(s)
    case QueuedFails(i) => DropKeeps(s, i); DropQueued(s, i)
  }

  lemma FontKeeps(s: State, f: FontId, fe: Font)
    requires Inv(s)
    requires if f in s.fonts then fe == s.fonts[f].(unused := fe.unused) else fe == Font(fe.unused, [], None, map[])
    ensures Inv(s.(fonts := s.fonts[f := fe]))
  {
    hide Packed;
    var t := s.(fonts := s.fonts[f := fe]);
    assert SameButPins(s.caches, t.caches);
    StillAllLinked(s, t, s.pending);
    if s.work.Some? { StillLinked(s, t, s.work.value.req.answer); }
    forall x | x in t.fonts ensures FontOk(t, x) {
      if x in s.fonts {
        assert FontOk(s, x);
        forall g | g in t.fonts[x].table ensures Linked(t, t.fonts[x].table[g]) {
          assert Linked(s, s.fonts[x].table[g]);
        }
      }
    }
  }

  /** The last reference goes, with the entry if it has no caches, or the font is loaded again. */
  function Refer(s: State, f: FontId, unused: bool): State
    requires f in s.fonts
  {
    if unused && s.fonts[f].caches == [] then s.(fonts := s.fonts - {f})
    else s.(fonts := s.fonts[f := s.fonts[f].(unused := unused)])
  }

  lemma ReferKeeps(s: State, f: FontId, unused: bool)
    requires Inv(s) && f in s.fonts
    ensures Inv(Refer(s, f, unused))
  {
    if unused && s.fonts[f].caches == [] {
      ForgetKeeps(s, f);
    } else {
      FontKeeps(s, f, s.fonts[f].(unused := unused));
    }
  }

  /** A font without caches has nothing in its table either, and no cache is its. */
  lemma ForgetKeeps(s: State, f: FontId)
    requires Inv(s) && f in s.fonts && s.fonts[f].caches == []
    ensures Inv(s.(fonts := s.fonts - {f})) && s.fonts[f].table == map[]
  {
    hide Packed;
    var t := s.(fonts := s.fonts - {f});
    assert FontOk(s, f);
    assert forall g :: g !in s.fonts[f].table;
    StillAllLinked(s, t, s.pending);
    if s.work.Some? { StillLinked(s, t, s.work.value.req.answer); }
    forall x | x in t.fonts ensures FontOk(t, x) {
      assert FontOk(s, x);
      forall g | g in t.fonts[x].table ensures Linked(t, t.fonts[x].table[g]) {
        assert Linked(s, s.fonts[x].table[g]);
      }
    }
  }

  /** A queued request fails before its message is built; its pins stay too. */
  function DropQueued(s: State, i: nat): State
    requires i < |s.pending|
  {
    s.(pending := s.pending[..i] + s.pending[i + 1..])
  }

  lemma DropKeeps(s: State, i: nat)
    requires Inv(s) && i < |s.pending|
    ensures Inv(DropQueued(s, i))
  {
    hide Packed;
    var t := DropQueued(s, i);
    PinsAside(s, t);
    LinkedSplit(s, i);
    StillAllLinked(s, t, t.pending);
    if s.work.Some? { StillLinked(s, t, s.work.value.req.answer); }
    forall c: Shm ensures PinsOf(s.pending, c) == PinsOf(t.pending, c) + Pins(s.pending[i].answer, c) {
      TakePins(s.pending, i, c);
    }
  }

  lemma FailKeeps(s: State)
    requires Inv(s)
    ensures Inv(Fail(s))
  {
    hide Packed;
    PinsAside(s, Fail(s));
    StillAllLinked(s, Fail(s), s.pending);
  }

  ghost predicate Legal(s: State, es: seq<Event>)
    requires Inv(s)
    decreases |es|
  {
    es == [] || (Enabled(s, es[0]) && Legal(Step(s, es[0]), es[1..]))
  }

  ghost function Final(s: State, es: seq<Event>): (t: State)
    requires Inv(s) && Legal(s, es)
    ensures Inv(t)
    decreases |es|
  {
    if es == [] then s else Final(Step(s, es[0]), es[1..])
  }

  lemma EmptyIsOk()
    ensures Inv(EMPTY)
  {}

  /**
   In every run: glyphs recorded for a segment are in order, apart and within it; the usage
   is the sum over the list; the counter beside a list of glyphs is its length; a cache that an
   answer points into, pending or in the slave's hands, is there, and has the entry in its list.
   */
  lemma EveryRun(es: seq<Event>, c: Shm, i: nat, j: nat)
    requires Legal(EMPTY, es)
    ensures var s := Final(EMPTY, es);
            && s.mem == Mem(s.lru, s.caches)
            && (forall r, a :: r in s.pending && a in r.answer ==> Linked(s, a))
            && (s.work.Some? ==> forall a :: a in s.work.value.req.answer ==> Linked(s, a))
            && (c in s.caches ==>
                  var gs := s.caches[c].glyphs;
                  && s.caches[c].usage == Total(gs) <= s.caches[c].cap && s.caches[c].nglyphs == |gs| && Pinned(s, c) <= s.caches[c].inuse
                  && (i < j < |gs| ==> gs[i].offset + gs[i].size <= gs[j].offset)
                  && (j < |gs| ==> gs[j].offset + gs[j].size <= s.caches[c].cap))
  {
    var s := Final(EMPTY, es);
    hide Legal, Final, FontsOk, WorkOk;
    if c in s.caches {
      var gs := s.caches[c].glyphs;
      PackedTotal(0, gs, s.caches[c].usage);
      if j < |gs| {
        PackedApart(0, gs, s.caches[c].usage, if i < j then i else j, j);
      }
    }
    forall r, a | r in s.pending && a in r.answer ensures Linked(s, a) {
      assert AllLinked(s, r.answer);
    }
  }
}
