/**
 A request may wait for a font whose entry a flush frees: when it does, and a run that ends so.
 */
module GlyphWaiting {
  import opened GlyphCache
  import opened GlyphPacking
  import opened GlyphRequests
  import opened GlyphRuns
  import opened GlyphFlush
  import opened Lists

  /** A request that waits through a flush finds its font gone exactly when the flush takes all its caches. */
  lemma WaitingFontGoesIff(s: State, r: Req)
    requires Inv(s) && Landed(s) && r in s.pending && r.font in s.fonts
    ensures NoDup(s.lru) && r in Flush(s, s.lru).pending
    ensures forall c {:trigger c in s.fonts[r.font].caches} :: c in s.fonts[r.font].caches ==> c in s.caches
    ensures r.font !in Flush(s, s.lru).fonts
            <==> s.fonts[r.font].caches != []
                 && forall c {:trigger c in s.fonts[r.font].caches} :: c in s.fonts[r.font].caches ==> Goes(s, c)
  {
    LruNoDup(s);
    FlushOutcome(s, s.lru);
    FontGoesIff(s, r.font);
    hide Inv, Flush, Goes;
  }

  // ----- a run ----------------------------------------------------------------------

  lemma Then(s: State, e: Event, rest: seq<Event>)
    requires Inv(s) && GlyphRuns.Enabled(s, e) && Legal(Step(s, e), rest)
    ensures Legal(s, [e] + rest) && Final(s, [e] + rest) == Final(Step(s, e), rest)
  {
    hide Inv, Step, GlyphRuns.Enabled;
    assert ([e] + rest)[1..] == rest;
  }

  lemma Stop(s: State)
    requires Inv(s)
    ensures Legal(s, []) && Final(s, []) == s
  {}

  const NEW_FONT := Font(false, [], None, map[])
  const CAP := 53248
  const GLYPH := Glyph(5, 0, 10)
  const FIRST := Req(0, [5], 0, [], [])
  const OTHER := Req(1, [5], 0, [], [])
  const WAITING := Req(0, [7], 0, [], [])

  function Slot(nextShm: nat): Slave {
    Slave(map[5 := 10], 50000, nextShm, 4096)
  }

  /** The first font has one cache, of more than the maximum, with one glyph in it. */
  function Loaded(unused: bool, pending: seq<Req>, work: Option<Work>): State {
    State(map[0 := Cache(0, CAP, 10, 0, 1, [GLYPH])], [0],
          map[0 := Font(unused, [0], Some(0), map[5 := Answer(0, 0, GLYPH)]), 1 := NEW_FONT],
          CACHE_SIZE + CAP + GLYPH_SIZE, pending, work, {Answer(0, 0, GLYPH)}, {})
  }

  lemma LoadOne(nextShm: nat)
    ensures Load([], false, [5], 0, 50000, nextShm, map[5 := 10], 4096)
            == Done([Segment(nextShm, CAP, 10, [GLYPH])], 50000, nextShm + 1)
  {
    var c := Segment(nextShm, CAP, 0, []);
    assert Normalize(50000, 4096) == CAP;
    assert [] + [c] == [c] && [c][..0] == [] && [5][1..] == [];
    var c' := Rendered(c, 5, 10);
    assert c' == Segment(nextShm, CAP, 10, [GLYPH]);
    assert Load([c'], true, [], 1, 50000, nextShm + 1, map[5 := 10], 4096) == Done([c'], 50000, nextShm + 1);
    assert [c][..0] + [c'] == [c'];
    assert Load([c], true, [5], 0, 50000, nextShm + 1, map[5 := 10], 4096) == Done([c'], 50000, nextShm + 1);
  }

  /** Nothing cached yet: a request for one glyph waits, and is handed to the slave. */
  lemma AskWaits(s: State, f: FontId, g: nat)
    requires Inv(s) && f in s.fonts && g !in s.fonts[f].table
    ensures Step(s, GlyphsLoad(f, [g])) == s.(pending := s.pending + [Req(f, [g], 0, [], [])])
  {
    hide Inv;
    assert PinAll(s.caches, []) == s.caches;
  }

  lemma NothingCached(table: map<nat, Answer>, g: nat)
    requires g !in table
    ensures Found(table, [g]) == [] && NotFound(table, [g]) == [g]
  {
    assert [g][1..] == [];
    assert NotFound(table, [g]) == [g] + NotFound(table, []);
  }

  /** The last request of the queue, for one glyph of a font without any. */
  lemma StartsLoad(s: State, r: Req)
    requires Inv(s) && s.work.None? && s.pending != [] && s.pending[|s.pending| - 1] == r
    requires r.font in s.fonts && s.fonts[r.font] == NEW_FONT && r.current == 0 && |r.glyphs| == 1 && r.answer == []
    ensures var i := |s.pending| - 1;
            && GlyphRuns.Enabled(s, SlaveStarts(i))
            && Step(s, SlaveStarts(i))
               == s.(pending := s.pending[..i], work := Some(Work(r.(render := r.glyphs), None, 0, false)))
  {
    hide Inv;
    var i := |s.pending| - 1;
    assert s.pending[..i] + s.pending[i + 1..] == s.pending[..i];
    assert r.glyphs[0..] == r.glyphs && r.glyphs == [r.glyphs[0]];
    NothingCached(s.fonts[r.font].table, r.glyphs[0]);
    assert PinAll(s.caches, []) == s.caches;
    assert r.answer + [] == r.answer;
    DispatchKeeps(s, i);
  }

  const START := State(map[], [], map[0 := NEW_FONT, 1 := NEW_FONT], 0, [], None, {}, {})

  lemma Begins() returns (es: seq<Event>)
    ensures es == [FontLoaded(0)] + ([FontLoaded(1)] + [])
    ensures Inv(EMPTY) && Legal(EMPTY, es) && Final(EMPTY, es) == START
  {
    EmptyIsOk();
    var s1 := Step(EMPTY, FontLoaded(0));
    assert s1.fonts == map[0 := NEW_FONT];
    var s2 := Step(s1, FontLoaded(1));
    assert s2.fonts == map[0 := NEW_FONT, 1 := NEW_FONT];
    es := [FontLoaded(0)] + ([FontLoaded(1)] + []);
    Then(s1, FontLoaded(1), []);
    Then(EMPTY, FontLoaded(0), [FontLoaded(1)] + []);
    hide Inv;
  }

  /** What a response of one glyph in a new segment puts into the caches. */
  function Added(s: State, shm: Shm): State
    requires s.work.Some? && s.work.value.req.font in s.fonts
  {
    Absorb(MarkLanded(s), Segment(shm, CAP, 10, [GLYPH]), false)
  }

  lemma Responds(s: State, shm: Shm)
    requires Inv(s) && s.work.Some? && !s.work.value.landed && s.work.value.start.None? && s.work.value.req.render == [5]
    requires forall c {:trigger c in s.caches} :: c in s.caches ==> c < shm
    requires s.work.value.req.font in s.fonts
    ensures GlyphRuns.Enabled(s, SlaveDone(Slot(shm)))
    ensures var t := Added(s, shm);
            && Inv(t) && Landed(t) && NoDup(t.lru) && t.work.Some?
            && Flush(t, t.lru).work == t.work
            && Step(s, SlaveDone(Slot(shm))) == Complete(Flush(t, t.lru))
  {
    hide Inv, AllFit, Flush, Deliver, Absorb, Complete, Load;
    LoadOne(shm);
    var e := Slot(shm);
    SlaveResultFits(s, e);
    var segs := [Segment(shm, CAP, 10, [GLYPH])];
    assert Result(s, e).segs == segs;
    LandedKeeps(s, segs, Reuses(s, segs));
    AbsorbAllKeeps(MarkLanded(s), segs, false);
    assert segs[1..] == [];
    assert AbsorbAll(MarkLanded(s), segs, false) == Added(s, shm);
    LruNoDup(Added(s, shm));
    FlushOutcome(Added(s, shm), Added(s, shm).lru);
  }

  lemma AnswersOne(s: State, t: State)
    requires s.caches.Keys == {0} && s.lru == [0] && s.work.Some? && s.work.value.req.answer == [Answer(0, 0, GLYPH)]
    requires t == s.(caches := map[0 := s.caches[0].(inuse := s.caches[0].inuse - 1)], work := None)
    ensures Complete(s) == t
  {
    var a := Answer(0, 0, GLYPH);
    assert [a][..0] == [];
    assert Groups([a]) == AddTo(Groups([]), a) == [Group(0, [a])];
    var gs := [Group(0, [a])];
    assert gs[1..] == [];
    assert Shms(gs) == [0] + Shms([]) == [0];
    assert [0][1..] == [] && Promote([0], [0]) == [0];
    var r := s.work.value.req;
    assert (s.pending + [r])[..|s.pending|] == s.pending;
    assert Unpin(s.caches, gs) == Unpin(t.caches, []) == t.caches;
  }

  /** The first font's glyph has been loaded and answered. */
  lemma LoadsFirst() returns (es: seq<Event>)
    ensures es == [GlyphsLoad(0, [5])] + ([SlaveStarts(0)] + ([SlaveDone(Slot(0))] + []))
    ensures Inv(START) && Legal(START, es) && Final(START, es) == Loaded(false, [], None)
  {
    var _ := Begins();
    AskWaits(START, 0, 5);
    var s1 := Step(START, GlyphsLoad(0, [5]));
    assert s1.pending == [FIRST];
    StartsLoad(s1, FIRST);
    var s2 := Step(s1, SlaveStarts(0));
    Responds(s2, 0);
    FirstAdded(s2);
    var s3 := Step(s2, SlaveDone(Slot(0)));
    es := [GlyphsLoad(0, [5])] + ([SlaveStarts(0)] + ([SlaveDone(Slot(0))] + []));
    Then(s2, SlaveDone(Slot(0)), []);
    Then(s1, SlaveStarts(0), [SlaveDone(Slot(0))] + []);
    Then(START, GlyphsLoad(0, [5]), [SlaveStarts(0)] + ([SlaveDone(Slot(0))] + []));
    hide Inv, Step, Added, Flush, Complete, Legal, Final;
  }

  lemma FirstAdded(s: State)
    requires s == START.(work := Some(Work(FIRST.(render := [5]), None, 0, false)))
    requires Inv(Added(s, 0)) && Landed(Added(s, 0)) && NoDup(Added(s, 0).lru)
    ensures var t := Added(s, 0);
            Flush(t, t.lru) == t && t.work.Some? && Complete(t) == Loaded(false, [], None)
  {
    hide Inv;
    var t := Added(s, 0);
    assert [GLYPH][1..] == [] && Listed(map[], 0, 0, [GLYPH]) == Listed(map[5 := Answer(0, 0, GLYPH)], 0, 1, []);
    assert Answers(0, 0, [GLYPH]) == [Answer(0, 0, GLYPH)];
    assert t.lru == [0] && [0][1..] == [] && [] + [GLYPH] == [GLYPH];
    assert t.caches == map[0 := Cache(0, CAP, 10, 1, 1, [GLYPH])];
    assert t.fonts == Loaded(false, [], None).fonts;
    AnswersOne(t, Loaded(false, [], None));
    hide Complete, Absorb, Free;
    assert Flush(t, t.lru) == Flush(t, []);
  }

  const OTHER_WORK := Work(OTHER.(render := [5]), None, 0, false)

  /** The slave loads for the second font, a request waits for the first, which loses its references. */
  lemma LoadsOther() returns (es: seq<Event>)
    ensures es == [GlyphsLoad(1, [5])] + ([SlaveStarts(0)] + ([GlyphsLoad(0, [7])] + ([FontReferenced(0, true)] + [])))
    ensures Inv(Loaded(false, [], None)) && Legal(Loaded(false, [], None), es)
    ensures Final(Loaded(false, [], None), es) == Loaded(true, [WAITING], Some(OTHER_WORK))
  {
    hide Inv, Ask, Dispatch, Respond, Fail, Used, Legal, Final;
    var _ := LoadsFirst();
    var s := Loaded(false, [], None);
    AskWaits(s, 1, 5);
    var s1 := Step(s, GlyphsLoad(1, [5]));
    assert s1 == Loaded(false, [OTHER], None);
    StartsLoad(s1, OTHER);
    var s2 := Step(s1, SlaveStarts(0));
    assert s2 == Loaded(false, [], Some(OTHER_WORK));
    AskWaits(s2, 0, 7);
    var s3 := Step(s2, GlyphsLoad(0, [7]));
    assert s3 == Loaded(false, [WAITING], Some(OTHER_WORK));
    var s4 := Step(s3, FontReferenced(0, true));
    assert s4 == Loaded(true, [WAITING], Some(OTHER_WORK));
    es := [GlyphsLoad(1, [5])] + ([SlaveStarts(0)] + ([GlyphsLoad(0, [7])] + ([FontReferenced(0, true)] + [])));
    Stop(s4);
    Then(s3, FontReferenced(0, true), []);
    Then(s2, GlyphsLoad(0, [7]), [FontReferenced(0, true)] + []);
    Then(s1, SlaveStarts(0), [GlyphsLoad(0, [7])] + ([FontReferenced(0, true)] + []));
    Then(s, GlyphsLoad(1, [5]), [SlaveStarts(0)] + ([GlyphsLoad(0, [7])] + ([FontReferenced(0, true)] + [])));
  }

  /** The slave's result comes in, and the flush takes the first font. */
  lemma OtherDone()
    ensures Inv(Loaded(true, [WAITING], Some(OTHER_WORK)))
    ensures Legal(Loaded(true, [WAITING], Some(OTHER_WORK)), [SlaveDone(Slot(1))])
    ensures var t := Final(Loaded(true, [WAITING], Some(OTHER_WORK)), [SlaveDone(Slot(1))]);
            t.pending == [WAITING] && 0 !in t.fonts
  {
    var _ := LoadsOther();
    var s := Loaded(true, [WAITING], Some(OTHER_WORK));
    Responds(s, 1);
    OtherAdded(s);
    Then(s, SlaveDone(Slot(1)), []);
    assert [SlaveDone(Slot(1))] + [] == [SlaveDone(Slot(1))];
    hide Inv, Step, Added, Flush, Complete;
  }

  lemma OtherAdded(s: State)
    requires s == Loaded(true, [WAITING], Some(OTHER_WORK))
    requires Inv(Added(s, 1)) && Landed(Added(s, 1)) && NoDup(Added(s, 1).lru)
    ensures var t := Added(s, 1);
            && Flush(t, t.lru).work.Some?
            && 0 !in Complete(Flush(t, t.lru)).fonts && Complete(Flush(t, t.lru)).pending == [WAITING]
  {
    hide Inv, Flush, Listed, EvictableSize;
    var t := Added(s, 1);
    assert t.lru == [0, 1] && t.lru[0] == 0;
    FontGoesIff(t, 0);
    FlushOutcome(t, t.lru);
    FirstGoes(t);
    var r := t.work.value.req;
    assert ([WAITING] + [r])[..1] == [WAITING];
  }

  lemma FirstGoes(t: State)
    requires Inv(t) && 0 in t.caches && t.caches[0].font in t.fonts && Evictable(t, 0) && t.lru != [] && t.lru[0] == 0
    requires t.mem > MAX_FONT_USAGE
    ensures Goes(t, 0)
  {
    hide Inv, Evictable;
    assert Before(t.lru, 0) == [];
  }

  /**
   A legal run from nothing after which a request waits for a font that is no longer there:
   the font's only cache went with the flush of another font's load.
   */
  lemma WaitingFontGoes() returns (es: seq<Event>)
    ensures Legal(EMPTY, es)
    ensures var t := Final(EMPTY, es); WAITING in t.pending && WAITING.font !in t.fonts
  {
    var es1 := Begins();
    var es2 := LoadsFirst();
    var es3 := LoadsOther();
    var es4 := [SlaveDone(Slot(1))];
    OtherDone();
    Joined(Loaded(false, [], None), es3, es4);
    Joined(START, es2, es3 + es4);
    Joined(EMPTY, es1, es2 + (es3 + es4));
    es := es1 + (es2 + (es3 + es4));
    hide Inv, Legal, Final, Step;
  }

  lemma {:induction false} Joined(s: State, a: seq<Event>, b: seq<Event>)
    requires Inv(s) && Legal(s, a) && Legal(Final(s, a), b)
    ensures Legal(s, a + b) && Final(s, a + b) == Final(Final(s, a), b)
    decreases |a|
  {
    hide Inv, Step, GlyphRuns.Enabled;
    if a == [] {
      assert a + b == b;
    } else {
      assert (a + b)[1..] == a[1..] + b;
      Joined(Step(s, a[0]), a[1..], b);
    }
  }
}
