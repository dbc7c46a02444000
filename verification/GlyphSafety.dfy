/**
 Entries are safe in every continuation that brings no index twice if and only if no cache
 that may be freed has a stray: the runs that show it.
 */
module GlyphSafety {
  import opened GlyphCache
  import opened GlyphPacking
  import opened GlyphRequests
  import opened GlyphRuns
  import opened GlyphPins
  import opened GlyphHeap
  import opened GlyphDoubles
  import opened GlyphSound
  import opened GlyphHome
  import opened GlyphHarm
  import opened GlyphStrays
  import opened Lists
  import GlyphWaiting

  // ----- the flush that does it -----------------------------------------------------

  const OVER := MAX_FONT_USAGE + 1

  /** A new segment above the maximum, in which no glyph is found. */
  function BigSegment(n: Shm): Segment {
    Segment(n, OVER, 0, [])
  }

  lemma LoadsNothing(n: Shm)
    ensures Load([], false, [0], 0, OVER, n, map[], 1) == Done([BigSegment(n)], OVER, n + 1)
  {
    NormalizeOne(OVER);
    assert [] + [BigSegment(n)] == [BigSegment(n)] && [0][1..] == [];
    assert Load([BigSegment(n)], true, [], 1, OVER, n + 1, map[], 1) == Done([BigSegment(n)], OVER, n + 1);
    assert Load([BigSegment(n)], true, [0], 0, OVER, n + 1, map[], 1) == Done([BigSegment(n)], OVER, n + 1);
  }

  /** The prey when the big segment has come in, and before the flush. */
  lemma PreyComesIn(s: State, a: Answer, n: Shm)
    requires Inv(s) && NewestOk(s) && Prey(s, a) && s.work.Some? && s.work.value.req.font in s.fonts
    requires n !in s.caches && s.work.value.req.font != s.caches[a.shm].font
    requires Fits(s, BigSegment(n), false)
    ensures var t := Absorb(s, BigSegment(n), false);
            Prey(t, a) && NewestOk(t) && n in t.caches && t.caches[n] == Cache(s.work.value.req.font, OVER, 0, 0, 0, [])
            && s.work.value.req.font in t.fonts && t.fonts[s.work.value.req.font].unused == s.fonts[s.work.value.req.font].unused
            && a.shm in t.caches && t.caches[a.shm] == s.caches[a.shm] && s.caches[a.shm].font in t.fonts
            && t.fonts[s.caches[a.shm].font] == s.fonts[s.caches[a.shm].font]
  {
    AbsorbStray(s, BigSegment(n), false, a);
    AbsorbNewest(s, BigSegment(n), false);
    hide Inv, Stray, NewestOk, AsSet, SegmentOk;
  }

  lemma NotSurplus(s: State, a: Answer)
    requires Inv(s) && Stray(s, a) && Pinned(s, a.shm) == 0
    ensures s.caches[a.shm].inuse == 0 && a.shm in s.lru
  {}

  lemma MarkedPrey(s: State, a: Answer)
    requires s.work.Some? && Prey(s, a)
    ensures Prey(MarkLanded(s), a)
  {
    MarkedStray(s, a);
    hide Stray;
  }

  /** The load of another font comes in, and the flush frees the stray's cache under its namesake. */
  lemma FlushComes(s: State, a: Answer, n: Shm)
    requires Inv(s) && HeapInv(s) && Prey(s, a) && s.work.Some?
    requires var w := s.work.value;
             && w.start.None? && w.req.render == [0] && w.req.answer == [] && w.req.font in s.fonts
             && w.req.font != s.caches[a.shm].font && !s.fonts[w.req.font].unused && s.fonts[w.req.font].last.None?
    requires Pinned(s, a.shm) == 0 && s.fonts[s.caches[a.shm].font].unused
    requires forall c {:trigger c in s.caches} :: c in s.caches ==> c < n
    ensures GlyphRuns.Enabled(s, SlaveDone(Bare(n, OVER, map[])))
    ensures !Doubles(s, SlaveDone(Bare(n, OVER, map[])))
    ensures Step(s, SlaveDone(Bare(n, OVER, map[]))).harmed != {}
  {
    hide Inv, AllFit, Flush, Complete, Step, HeapOk, HomeOk, NewestOk, Prey, Surplus, Absorb, Quiet, Load, Pinned;
    var v := Bare(n, OVER, map[]);
    LoadsNothing(n);
    BareEnabled(s, v);
    AllFitMarked(s, v);
    var segs := [BigSegment(n)];
    assert Result(s, v).segs == segs && !Reuses(s, segs);
    NoneDoubled(segs, Surplus(s));
    var m := MarkLanded(s);
    MarkedQuiet(s);
    MarkedFonts(s);
    QuietNewest(s, m);
    MarkedPrey(s, a);
    assert segs[1..] == [];
    FitsFirst(m, segs, false);
    PreyThere(s, a);
    PreyComesIn(m, a, n);
    var t := Absorb(m, BigSegment(n), false);
    assert AbsorbAll(m, segs, false) == t;
    PreyUnpinned(s, a, t);
    FlushHarms(t, t.lru, a, n);
    CompleteDone(Flush(t, t.lru));
  }

  lemma PreyThere(s: State, a: Answer)
    requires Prey(s, a)
    ensures Stray(s, a) && a.shm in s.caches && s.caches[a.shm].font in s.fonts
  {}

  lemma PreyUnpinned(s: State, a: Answer, t: State)
    requires Inv(s) && Inv(t) && Stray(s, a) && Pinned(s, a.shm) == 0
    requires a.shm in t.caches && t.caches[a.shm] == s.caches[a.shm] && s.caches[a.shm].font in s.fonts
    requires s.caches[a.shm].font in t.fonts && t.fonts[s.caches[a.shm].font] == s.fonts[s.caches[a.shm].font]
    requires s.fonts[s.caches[a.shm].font].unused
    ensures Evictable(t, a.shm) && a.shm in t.lru
  {
    NotSurplus(s, a);
    HasFontOf(t, a.shm);
    hide Inv;
  }

  lemma HasFontOf(s: State, c: Shm)
    requires Inv(s) && c in s.caches
    ensures c in s.lru
  {}

  // ----- how to get there -----------------------------------------------------------

  /** A state with a stray that a run may reach. */
  ghost predicate At(s: State, a: Answer) {
    Inv(s) && HeapInv(s) && Stray(s, a)
  }

  lemma StepsOn(s: State, e: Event, a: Answer)
    requires At(s, a) && GlyphRuns.Enabled(s, e) && Gentle(s, e) && !e.SlaveDone?
    ensures At(Step(s, e), a) && a.shm in s.caches && a.shm in Step(s, e).caches
    ensures s.caches[a.shm].font in s.fonts && s.caches[a.shm].font in Step(s, e).fonts
    ensures Step(s, e).caches[a.shm].font == s.caches[a.shm].font
    ensures Step(s, e).fonts[s.caches[a.shm].font].table == s.fonts[s.caches[a.shm].font].table
    ensures !Doubles(s, e)
  {
    hide Inv, HeapInv, Step, GlyphRuns.Enabled, Gentle;
    StepHeapInv(s, e);
    QuietStray(s, e, a);
  }

  lemma DoneOn(s: State, v: Slave, a: Answer)
    requires At(s, a) && GlyphRuns.Enabled(s, SlaveDone(v)) && InUse(s, a)
    ensures var t := Step(s, SlaveDone(v));
            At(t, a) && InUse(t, a) && t.caches[a.shm].font == s.caches[a.shm].font && t.pending == s.pending && t.work.None?
  {
    hide Inv, HeapInv, Step, GlyphRuns.Enabled, Stray;
    StepHeapInv(s, SlaveDone(v));
    RespondUsed(s, v, a);
  }

  /** What fonts and requests are called. */
  ghost function Names(s: State): set<nat> {
    s.fonts.Keys + (set r | r in s.pending :: r.font)
  }

  /** The font of the stray is not used and nothing pins its cache: load for another font. */
  lemma Evicts(s: State, a: Answer)
    requires At(s, a) && Prey(s, a) && s.work.None? && Pinned(s, a.shm) == 0
    requires s.fonts[s.caches[a.shm].font].unused
    ensures CanHarm(s)
  {
    hide Inv, HeapInv, Stray, Flush, Deliver, Ask, Dispatch, Respond, Fail, Used, Refer;
    var x := Beyond(Names(s));
    var n := Beyond(s.caches.Keys);
    var r := Req(x, [0], 0, [], []);
    var s1 := Step(s, FontLoaded(x));
    PreyThere(s, a);
    StepsOn(s, FontLoaded(x), a);
    GlyphWaiting.AskWaits(s1, x, 0);
    var s2 := Step(s1, GlyphsLoad(x, [0]));
    StepsOn(s1, GlyphsLoad(x, [0]), a);
    GlyphWaiting.StartsLoad(s2, r);
    var i := |s.pending|;
    var s3 := Step(s2, SlaveStarts(i));
    StepsOn(s2, SlaveStarts(i), a);
    assert s3 == s.(fonts := s.fonts[x := GlyphWaiting.NEW_FONT], work := Some(Work(r.(render := [0]), None, 0, false)));
    PreyAside(s, s3, a);
    FlushComes(s3, a, n);
    HarmNow(Step(s3, SlaveDone(Bare(n, OVER, map[]))));
    HarmLater(s3, SlaveDone(Bare(n, OVER, map[])));
    HarmLater(s2, SlaveStarts(i));
    HarmLater(s1, GlyphsLoad(x, [0]));
    HarmLater(s, FontLoaded(x));
  }

  lemma PreyAside(s: State, s3: State, a: Answer)
    requires Prey(s, a) && s.work.None? && s3.work.Some? && s3.work.value.req.answer == []
    requires s3.caches == s.caches && s3.pending == s.pending && s.caches[a.shm].font in s3.fonts
    requires s3.fonts[s.caches[a.shm].font] == s.fonts[s.caches[a.shm].font]
    ensures Prey(s3, a) && Pinned(s3, a.shm) == Pinned(s, a.shm)
  {}

  /** The last reference of the stray's font goes. */
  lemma Unreferenced(s: State, a: Answer)
    requires At(s, a) && Prey(s, a) && s.work.None? && Pinned(s, a.shm) == 0
    ensures CanHarm(s)
  {
    hide Inv, HeapInv, Stray, Ask, Dispatch, Respond, Fail, Used;
    PreyThere(s, a);
    var f := s.caches[a.shm].font;
    var e := FontReferenced(f, true);
    HasCache(s, a.shm);
    StepsOn(s, e, a);
    var t := Step(s, e);
    assert t == s.(fonts := s.fonts[f := s.fonts[f].(unused := true)]);
    PreyFlag(s, t, a);
    Evicts(t, a);
    HarmLater(s, e);
  }

  lemma PreyFlag(s: State, t: State, a: Answer)
    requires Prey(s, a) && t == s.(fonts := s.fonts[s.caches[a.shm].font := s.fonts[s.caches[a.shm].font].(unused := true)])
    ensures Prey(t, a) && Pinned(t, a.shm) == Pinned(s, a.shm)
  {}

  /** The table has another entry for the stray's index: a waiting request pins that one's cache. */
  lemma Namesake(s: State, a: Answer)
    requires At(s, a) && s.work.None? && Pinned(s, a.shm) == 0
    requires a.shm in s.caches && s.caches[a.shm].font in s.fonts
    requires a.glyph.index in s.fonts[s.caches[a.shm].font].table
    ensures CanHarm(s)
  {
    hide Inv, HeapInv, Stray, Dispatch, Respond, Fail, Used, PinAll, Deliver;
    var f, g := s.caches[a.shm].font, a.glyph.index;
    var table := s.fonts[f].table;
    TableHas(s, f, g);
    var d := table[g].shm;
    if d == a.shm {
      Unreferenced(s, a);
    } else {
      var h := Beyond(table.Keys);
      var e := GlyphsLoad(f, [g, h]);
      StepsOn(s, e, a);
      var t := Step(s, e);
      var r := Req(f, [g, h], 1, [], [table[g]]);
      assert [g, h][1..] == [h] && FoundPrefix(table, [h]) == [];
      assert FoundPrefix(table, [g, h]) == [table[g]];
      assert t == Enqueue(s, r);
      WaitsPinned(s, r, a.shm);
      Unreferenced(t, a);
      HarmLater(s, e);
    }
  }

  lemma TableHas(s: State, f: FontId, g: nat)
    requires Inv(s) && f in s.fonts && g in s.fonts[f].table
    ensures s.fonts[f].table[g].shm in s.caches
  {
    assert FontOk(s, f) && Linked(s, s.fonts[f].table[g]);
  }

  lemma WaitsPinned(s: State, r: Req, c: Shm)
    requires Inv(Enqueue(s, r)) && s.work.None? && |r.answer| == 1 && r.answer[0].shm in s.caches && r.answer[0].shm != c
    ensures Pinned(Enqueue(s, r), c) == Pinned(s, c)
    ensures Enqueue(s, r).caches[r.answer[0].shm].inuse != 0
  {
    hide LruOk, FontsOk, AnswersOk, WorkOk, Packed;
    var t, d := Enqueue(s, r), r.answer[0].shm;
    assert r.answer[1..] == [];
    assert Pins(r.answer, c) == 0 && Pins(r.answer, d) == 1;
    PinsOfJoin(s.pending, [r], c);
    PinsOfJoin(s.pending, [r], d);
    assert PinsOf([r], c) == PinsOf([], c) + Pins(r.answer, c);
    assert PinsOf([r], d) == PinsOf([], d) + Pins(r.answer, d);
    assert Pinned(t, d) <= t.caches[d].inuse;
  }

  // ----- one glyph again ------------------------------------------------------------

  lemma {:induction false} AbsorbAllHas(s: State, segs: seq<Segment>, reuse: bool, g: nat)
    requires Inv(s) && Landed(s) && s.work.Some? && s.work.value.req.font in s.fonts && AllFit(s, segs, reuse)
    requires g in s.fonts[s.work.value.req.font].table || Brings(segs, g)
    ensures var t := AbsorbAll(s, segs, reuse); s.work.value.req.font in t.fonts && g in t.fonts[s.work.value.req.font].table
    decreases segs
  {
    hide Inv, Fits, AllFit, Absorb, Landed;
    if segs != [] {
      var f, gs := s.work.value.req.font, segs[0].glyphs;
      NextFit(s, segs, reuse);
      FitsFirst(s, segs, reuse);
      AbsorbKeeps(s, segs[0], reuse);
      AbsorbTables(s, segs[0], reuse);
      if g in s.fonts[f].table { ListedHas(s.fonts[f].table, segs[0].shm, PlaceOf(s, segs[0], reuse), gs, g); }
      if Brings(segs, g) {
        var n, j :| 0 <= n < |segs| && 0 <= j < |segs[n].glyphs| && segs[n].glyphs[j].index == g;
        if n == 0 {
          ListedLater(s.fonts[f].table, segs[0].shm, PlaceOf(s, segs[0], reuse), gs, j);
        } else {
          assert segs[1..][n - 1].glyphs[j] == segs[n].glyphs[j];
        }
      }
      AbsorbAllHas(Absorb(s, segs[0], reuse), segs[1..], false, g);
    }
  }

  lemma {:induction false} ListedHas(table: map<nat, Answer>, shm: Shm, pos: nat, gs: seq<Glyph>, g: nat)
    requires g in table
    ensures g in Listed(table, shm, pos, gs)
    decreases gs
  {
    if gs != [] { ListedHas(table[gs[0].index := Answer(shm, pos, gs[0])], shm, pos + 1, gs[1..], g); }
  }

  /** A flush does not touch a font in use. */
  lemma {:induction false} FlushFont(s: State, rest: seq<Shm>, f: FontId)
    requires Inv(s) && Landed(s) && NoDup(rest) && forall c {:trigger c in rest} :: c in rest ==> c in s.lru
    requires f in s.fonts && !s.fonts[f].unused
    ensures f in Flush(s, rest).fonts && Flush(s, rest).fonts[f] == s.fonts[f]
    decreases rest
  {
    hide Inv, Landed, Unlisted, Deleted, Wronged;
    if rest != [] && s.mem > MAX_FONT_USAGE {
      assert rest[0] in rest && forall c {:trigger c in rest[1..]} :: c in rest[1..] ==> c in rest;
      LruCache(s, rest[0]);
      if Evictable(s, rest[0]) {
        FreeKeeps(s, rest[0]);
        FlushFont(Free(s, rest[0]), rest[1..], f);
      } else {
        FlushFont(s, rest[1..], f);
      }
    }
  }

  lemma RespondHas(s: State, v: Slave, g: nat, a: Answer)
    requires Inv(s) && GlyphRuns.Enabled(s, SlaveDone(v)) && Stray(s, a) && InUse(s, a)
    requires s.work.value.req.font == s.caches[a.shm].font
    requires s.work.value.start.Some? ==> s.work.value.start.value in s.caches
    requires Brings(Result(s, v).segs, g)
    ensures var t, f := Step(s, SlaveDone(v)), s.work.value.req.font; f in t.fonts && g in t.fonts[f].table
  {
    hide Inv, AllFit, Result, Flush, AbsorbAll, Complete, Step, Overpinned, Named, Brings, Reuses;
    AllFitMarked(s, v);
    MarkedStray(s, a);
    MarkedQuiet(s);
    var segs := Result(s, v).segs;
    AbsorbAllStrays(MarkLanded(s), segs, Reuses(s, segs), a);
    AbsorbAllHas(MarkLanded(s), segs, Reuses(s, segs), g);
    var s1 := AbsorbAll(MarkLanded(s), segs, Reuses(s, segs));
    FlushFont(s1, s1.lru, s.work.value.req.font);
    CompleteDone(Flush(s1, s1.lru));
  }

  /** The glyph asked for is found, with a bitmap of no bytes. */
  lemma FoundAgain(s: State, g: nat, a: Answer) returns (v: Slave)
    requires Inv(s) && RenderOk(s) && s.work.Some? && s.work.value.req.render == [g] && Stray(s, a) && InUse(s, a)
    requires s.work.value.req.font == s.caches[a.shm].font
    ensures GlyphRuns.Enabled(s, SlaveDone(v)) && !Doubles(s, SlaveDone(v))
    ensures var t, f := Step(s, SlaveDone(v)), s.work.value.req.font; f in t.fonts && g in t.fonts[f].table
  {
    hide Inv, Result, Load, Doubled, AllFit, Step, Stray, Brings, Surplus;
    var n := Beyond(s.caches.Keys);
    v := Bare(n, 0, map[g := 0]);
    BareEnabled(s, v);
    StartIsThere(s);
    SlaveResultFits(s, v);
    var segs := Result(s, v).segs;
    OneLoadable(g);
    assert Drawn(segs) == [(g, 0)];
    assert Drawn(segs)[0].0 == g;
    BringsIs(segs, g);
    DoubledIs(segs, Surplus(s));
    RespondHas(s, v, g, a);
  }

  lemma OneLoadable(g: nat)
    ensures Loadable([g], map[g := 0]) == [(g, 0)]
  {
    assert [g][1..] == [];
  }

  /** The table has no entry for the stray's index: the glyph is loaded again. */
  lemma Reloads(s: State, a: Answer)
    requires At(s, a) && InUse(s, a) && s.work.None? && Pinned(s, a.shm) == 0
    ensures CanHarm(s)
  {
    hide Inv, HeapInv, Stray, Respond, Fail, Used, PinAll, Deliver;
    var f, g := s.caches[a.shm].font, a.glyph.index;
    if g in s.fonts[f].table {
      Namesake(s, a);
    } else {
      var r := Req(f, [g], 0, [], []);
      var e1, e2 := GlyphsLoad(f, [g]), SlaveStarts(|s.pending|);
      GlyphWaiting.AskWaits(s, f, g);
      StepsOn(s, e1, a);
      var t1 := Step(s, e1);
      assert t1.pending[|s.pending|] == r;
      StepsOn(t1, e2, a);
      var t2 := Step(t1, e2);
      AgainStarts(t1, r, t2);
      var v := FoundAgain(t2, g, a);
      var t3 := Step(t2, SlaveDone(v));
      DoneOn(t2, v, a);
      PinsAlike(s, t3, a.shm);
      Namesake(t3, a);
      HarmLater(t2, SlaveDone(v));
      HarmLater(t1, e2);
      HarmLater(s, e1);
    }
  }

  lemma PinsAlike(s: State, t: State, c: Shm)
    requires s.work.None? && t.work.None? && t.pending == s.pending
    ensures Pinned(t, c) == Pinned(s, c)
  {}

  lemma AgainStarts(s: State, r: Req, t: State)
    requires Inv(s) && s.work.None? && s.pending != [] && s.pending[|s.pending| - 1] == r
    requires r.font in s.fonts && r.current == 0 && |r.glyphs| == 1 && r.glyphs[0] !in s.fonts[r.font].table
    requires GlyphRuns.Enabled(s, SlaveStarts(|s.pending| - 1)) && t == Step(s, SlaveStarts(|s.pending| - 1))
    ensures t.pending == s.pending[..|s.pending| - 1] && t.work.Some?
    ensures t.work.value.req.font == r.font && t.work.value.req.render == r.glyphs && t.fonts == s.fonts
  {
    hide Inv;
    var i := |s.pending| - 1;
    DispatchKeeps(s, i);
    assert s.pending[..i] + s.pending[i + 1..] == s.pending[..i];
    assert r.glyphs[0..] == r.glyphs && r.glyphs == [r.glyphs[0]];
    GlyphWaiting.NothingCached(s.fonts[r.font].table, r.glyphs[0]);
  }

  // ----- what one glyph brings ------------------------------------------------------

  /** A pair whose first part occurs at two places. */
  predicate Twice(ps: seq<(nat, nat)>) {
    exists i, j {:trigger ps[i], ps[j]} :: 0 <= i < j < |ps| && ps[i].0 == ps[j].0
  }

  lemma {:induction false} DrawnInIs(gs: seq<Glyph>)
    ensures |DrawnIn(gs)| == |gs| && forall i {:trigger gs[i]} {:trigger DrawnIn(gs)[i]} :: 0 <= i < |gs| ==>
              DrawnIn(gs)[i] == (gs[i].index, gs[i].size)
  {
    if gs != [] { DrawnInIs(gs[..|gs| - 1]); }
  }

  lemma {:induction false} DrawnFirst(segs: seq<Segment>)
    requires segs != []
    ensures Drawn(segs) == DrawnIn(segs[0].glyphs) + Drawn(segs[1..])
  {
    var n := |segs| - 1;
    if n == 0 {
      assert segs[..0] == [] && segs[1..] == [];
      assert [] + DrawnIn(segs[0].glyphs) == DrawnIn(segs[0].glyphs) + [];
    } else {
      DrawnFirst(segs[..n]);
      assert segs[..n][1..] == segs[1..][..n - 1];
      var d := DrawnIn(segs[n].glyphs);
      assert DrawnIn(segs[0].glyphs) + Drawn(segs[1..][..n - 1]) + d == DrawnIn(segs[0].glyphs) + (Drawn(segs[1..][..n - 1]) + d);
    }
  }

  lemma {:induction false} BringsIs(segs: seq<Segment>, x: nat)
    ensures Brings(segs, x) <==> exists k {:trigger Drawn(segs)[k]} :: 0 <= k < |Drawn(segs)| && Drawn(segs)[k].0 == x
  {
    if segs != [] {
      DrawnFirst(segs);
      DrawnInIs(segs[0].glyphs);
      BringsIs(segs[1..], x);
      var ds, rest := DrawnIn(segs[0].glyphs), Drawn(segs[1..]);
      if Brings(segs, x) {
        var n, j :| 0 <= n < |segs| && 0 <= j < |segs[n].glyphs| && segs[n].glyphs[j].index == x;
        if n == 0 {
          assert Drawn(segs)[j] == ds[j];
        } else {
          assert segs[1..][n - 1].glyphs[j] == segs[n].glyphs[j];
          var k :| 0 <= k < |rest| && rest[k].0 == x;
          assert Drawn(segs)[|ds| + k] == rest[k];
        }
      }
      if k: nat :| k < |Drawn(segs)| && Drawn(segs)[k].0 == x {
        if k < |ds| {
          assert ds[k] == Drawn(segs)[k] && segs[0].glyphs[k].index == x;
        } else {
          assert rest[k - |ds|] == Drawn(segs)[k];
          var n, j :| 0 <= n < |segs[1..]| && 0 <= j < |segs[1..][n].glyphs| && segs[1..][n].glyphs[j].index == x;
          assert segs[n + 1].glyphs[j].index == x;
        }
      }
    }
  }

  /** Segments bring an index twice exactly when what is drawn has it twice, when no cache is exempt. */
  lemma {:induction false} DoubledIs(segs: seq<Segment>, exempt: set<Shm>)
    ensures Doubled(segs, exempt) ==> Twice(Drawn(segs))
    ensures exempt == {} && Twice(Drawn(segs)) ==> Doubled(segs, exempt)
  {
    hide Brings, TwiceIn;
    if segs != [] {
      DrawnFirst(segs);
      DrawnInIs(segs[0].glyphs);
      DoubledIs(segs[1..], exempt);
      HeadDoubled(segs);
      var ds, rest := DrawnIn(segs[0].glyphs), Drawn(segs[1..]);
      if Twice(rest) {
        var i, j :| 0 <= i < j < |rest| && rest[i].0 == rest[j].0;
        assert Drawn(segs)[|ds| + i] == rest[i] && Drawn(segs)[|ds| + j] == rest[j];
      }
      if Twice(Drawn(segs)) && !Twice(rest) {
        var i, j :| 0 <= i < j < |Drawn(segs)| && Drawn(segs)[i].0 == Drawn(segs)[j].0;
        NotBehind(ds, rest, i, j);
        HeadTwiceIs(segs, i, j);
      }
    }
  }

  lemma {:induction false} NotBehind(ds: seq<(nat, nat)>, rest: seq<(nat, nat)>, i: int, j: int)
    requires 0 <= i < j < |ds + rest| && (ds + rest)[i].0 == (ds + rest)[j].0 && !Twice(rest)
    ensures i < |ds|
  {}

  lemma {:induction false} HeadTwiceIs(segs: seq<Segment>, i: nat, j: nat)
    requires segs != [] && i < |segs[0].glyphs| && i < j < |Drawn(segs)| && Drawn(segs)[i].0 == Drawn(segs)[j].0
    ensures TwiceIn(segs[0].glyphs)
            || exists i {:trigger segs[0].glyphs[i]} :: 0 <= i < |segs[0].glyphs| && Brings(segs[1..], segs[0].glyphs[i].index)
  {
    var gs := segs[0].glyphs;
    DrawnFirst(segs);
    DrawnInIs(gs);
    var ds, rest := DrawnIn(gs), Drawn(segs[1..]);
    assert Drawn(segs)[i] == ds[i];
    if j < |gs| {
      assert Drawn(segs)[j] == ds[j];
      assert gs[i].index == gs[j].index;
    } else {
      BringsIs(segs[1..], gs[i].index);
      assert rest[j - |ds|] == Drawn(segs)[j];
    }
  }

  lemma {:induction false} HeadDoubled(segs: seq<Segment>)
    requires segs != []
    ensures TwiceIn(segs[0].glyphs) ==> Twice(Drawn(segs))
    ensures (exists i {:trigger segs[0].glyphs[i]} :: 0 <= i < |segs[0].glyphs| && Brings(segs[1..], segs[0].glyphs[i].index))
            ==> Twice(Drawn(segs))
  {
    var gs := segs[0].glyphs;
    DrawnFirst(segs);
    DrawnInIs(gs);
    var ds, rest := DrawnIn(gs), Drawn(segs[1..]);
    if TwiceIn(gs) {
      var i, j :| 0 <= i < j < |gs| && gs[i].index == gs[j].index;
      assert Drawn(segs)[i] == ds[i] && Drawn(segs)[j] == ds[j];
    }
    if i: nat :| i < |gs| && Brings(segs[1..], gs[i].index) {
      BringsIs(segs[1..], gs[i].index);
      var k :| 0 <= k < |rest| && rest[k].0 == gs[i].index;
      assert Drawn(segs)[i] == ds[i] && Drawn(segs)[|ds| + k] == rest[k];
    }
  }

  // ----- from any state with a stray ------------------------------------------------

  lemma {:induction false} SomePin(answer: seq<Answer>, c: Shm) returns (a: Answer)
    requires Pins(answer, c) > 0
    ensures a in answer && a.shm == c
  {
    if answer[0].shm == c { a := answer[0]; } else { a := SomePin(answer[1..], c); }
  }

  lemma {:induction false} SomePinOf(reqs: seq<Req>, c: Shm) returns (i: nat)
    requires PinsOf(reqs, c) > 0
    ensures i < |reqs| && Pins(reqs[i].answer, c) > 0
  {
    if Pins(reqs[0].answer, c) > 0 {
      i := 0;
    } else {
      var k := SomePinOf(reqs[1..], c);
      i := k + 1;
    }
  }

  /** A request whose answer pins the stray's cache is for its font. */
  lemma PinnedByOwn(s: State, i: nat, c: Shm)
    requires HomeOk(s) && i < |s.pending| && Pins(s.pending[i].answer, c) > 0
    ensures c in s.caches && s.pending[i].font == s.caches[c].font
  {
    var a := SomePin(s.pending[i].answer, c);
    assert s.pending[i] in s.pending;
    assert Home(s, s.pending[i].font, s.pending[i].answer);
  }

  /** One request after another is loaded, without finding anything, until none pins the stray's cache. */
  lemma {:induction false} Drains(s: State, a: Answer)
    requires At(s, a) && InUse(s, a) && s.work.None?
    ensures CanHarm(s)
    decreases |s.pending|
  {
    hide Inv, HeapInv, HomeOk, RenderOk, Stray, Respond, Found, NotFound, PinAll, Flush;
    if Pinned(s, a.shm) == 0 {
      Reloads(s, a);
    } else {
      var i := SomePinOf(s.pending, a.shm);
      HomeThere(s);
      PinnedByOwn(s, i, a.shm);
      var e := SlaveStarts(i);
      StepsOn(s, e, a);
      var t := Step(s, e);
      Started(s, i, t);
      HomeThere(t);
      var v := NothingFound(t, 0);
      DoneOn(t, v, a);
      Drains(Step(t, SlaveDone(v)), a);
      HarmLater(t, SlaveDone(v));
      HarmLater(s, e);
    }
  }

  lemma HomeThere(s: State)
    requires HeapInv(s)
    ensures HomeOk(s) && RenderOk(s)
  {}

  lemma Started(s: State, i: nat, t: State)
    requires Inv(s) && GlyphRuns.Enabled(s, SlaveStarts(i)) && t == Step(s, SlaveStarts(i))
    ensures |t.pending| == |s.pending| - 1 && t.work.Some? && t.work.value.req.font == s.pending[i].font
    ensures t.fonts == s.fonts
  {
    hide Inv, Found, NotFound, PinAll;
    DispatchKeeps(s, i);
  }

  /** Wherever there is a stray in a cache that may be freed, some run harms. */
  lemma StrayHarms(s: State, a: Answer)
    requires At(s, a)
    ensures CanHarm(s)
  {
    hide Inv, HeapInv, HomeOk, RenderOk, Stray, Respond, Flush, Deliver, PinAll;
    StrayIsThere(s, a);
    HasCache(s, a.shm);
    var e := FontReferenced(s.caches[a.shm].font, false);
    StepsOn(s, e, a);
    var t := Step(s, e);
    assert InUse(t, a);
    HomeThere(t);
    if t.work.None? {
      Drains(t, a);
    } else if t.work.value.req.font in t.fonts {
      var v := NothingFound(t, 0);
      DoneOn(t, v, a);
      Drains(Step(t, SlaveDone(v)), a);
      HarmLater(t, SlaveDone(v));
    } else {
      NothingInHand(t);
      StepsOn(t, SlaveFails, a);
      assert Step(t, SlaveFails) == Fail(t);
      Drains(Step(t, SlaveFails), a);
      HarmLater(t, SlaveFails);
    }
    HarmLater(s, e);
  }

  /** A load whose font is gone has found nothing. */
  lemma NothingInHand(s: State)
    requires Inv(s) && HomeOk(s) && s.work.Some? && s.work.value.req.font !in s.fonts
    ensures s.work.value.req.answer == []
  {
    var answer := s.work.value.req.answer;
    if answer != [] {
      assert answer[0] in answer;
      HasCache(s, answer[0].shm);
    }
    hide Inv;
  }

  // ----- exactly when ---------------------------------------------------------------

  /** No continuation that brings no index twice frees an entry while a list has it. */
  ghost predicate Safe(s: State)
    requires Inv(s)
  {
    forall es :: Legal(s, es) && !DoublesIn(s, es) ==> Final(s, es).harmed == {}
  }

  /** A state is safe if and only if nothing was harmed and no cache that may be freed has a stray. */
  lemma SafeIff(s: State)
    requires Inv(s) && HeapInv(s)
    ensures Safe(s) <==> Sound(s)
  {
    hide Inv;
    if Sound(s) {
      forall es | Legal(s, es) && !DoublesIn(s, es) ensures Final(s, es).harmed == {} { RunIsSound(s, es); }
    } else if s.harmed != {} {
      HarmNow(s);
    } else {
      var a :| Linked(s, a) && !Overpinned(s, a.shm) && !Named(s, a);
      StrayHarms(s, a);
    }
  }

  /** The state is safe, and so is every one after it in the run. */
  ghost predicate AlwaysSafe(s: State, es: seq<Event>)
    requires Inv(s) && Legal(s, es)
    decreases |es|
  {
    Safe(s) && (es == [] || AlwaysSafe(Step(s, es[0]), es[1..]))
  }

  lemma {:induction false} RunIsSafeIff(s: State, es: seq<Event>)
    requires Inv(s) && HeapInv(s) && Sound(s) && Legal(s, es)
    ensures AlwaysSafe(s, es) <==> !DoublesIn(s, es)
    decreases |es|
  {
    hide Inv, HeapInv, Sound, Safe, Step, Doubles, GlyphRuns.Enabled;
    SafeIff(s);
    if es != [] {
      StepHeapInv(s, es[0]);
      StepSoundIff(s, es[0]);
      if !Doubles(s, es[0]) {
        RunIsSafeIff(Step(s, es[0]), es[1..]);
      } else {
        SafeIff(Step(s, es[0]));
      }
    }
  }

  /**
   The exact condition over every run of the glyph cache: at every moment all entries are safe,
   in every continuation that brings no index twice, if and only if no slave in the run brought
   an index twice, the first time into a cache that may be freed.
   */
  lemma EntriesAreSafeIff(es: seq<Event>)
    requires Legal(EMPTY, es)
    ensures AlwaysSafe(EMPTY, es) <==> !DoublesIn(EMPTY, es)
  {
    EmptyIsSound();
    EmptyHeapInv();
    RunIsSafeIff(EMPTY, es);
    hide Inv, Legal;
  }

  lemma EmptyHeapInv()
    ensures HeapInv(EMPTY)
  {}

  /** When pins are exact, an index is brought twice exactly when a request has it twice among what can be loaded. */
  lemma DoublesIff(s: State, v: Slave)
    requires Inv(s) && GlyphRuns.Enabled(s, SlaveDone(v)) && Surplus(s) == {}
    ensures Doubles(s, SlaveDone(v)) <==> Twice(Loadable(s.work.value.req.render, v.sizes))
  {
    hide Inv, Result, Load, Doubled, AllFit, Twice;
    SlaveResultFits(s, v);
    DoubledIs(Result(s, v).segs, {});
  }

  // ----- a request that lists a glyph twice -----------------------------------------

  lemma AskTwiceWaits(s: State, f: FontId, g: nat)
    requires Inv(s) && f in s.fonts && g !in s.fonts[f].table
    ensures Step(s, GlyphsLoad(f, [g, g])) == s.(pending := s.pending + [Req(f, [g, g], 0, [], [])])
  {
    hide Inv;
    assert PinAll(s.caches, []) == s.caches;
  }

  lemma StartsTwice(s: State, f: FontId, g: nat)
    requires Inv(s) && s.work.None? && s.pending == [Req(f, [g, g], 0, [], [])]
    requires f in s.fonts && s.fonts[f] == GlyphWaiting.NEW_FONT
    ensures GlyphRuns.Enabled(s, SlaveStarts(0))
    ensures Step(s, SlaveStarts(0)).work == Some(Work(Req(f, [g, g], 0, [g, g], []), None, 0, false))
    ensures Step(s, SlaveStarts(0)).fonts == s.fonts && Step(s, SlaveStarts(0)).caches.Keys == s.caches.Keys
  {
    hide Inv;
    DispatchKeeps(s, 0);
    var todo := [g, g];
    assert todo[0..] == todo;
    NothingCachedTwice(s.fonts[f].table, g);
    assert s.pending[0].answer + Found(s.fonts[f].table, todo) == [];
  }

  lemma NothingCachedTwice(table: map<nat, Answer>, g: nat)
    requires g !in table
    ensures Found(table, [g, g]) == [] && NotFound(table, [g, g]) == [g, g]
  {
    assert [g, g][1..] == [g];
    GlyphWaiting.NothingCached(table, g);
    assert NotFound(table, [g, g]) == [g] + NotFound(table, [g]);
  }

  lemma LoadableTwice(g: nat)
    ensures Twice(Loadable([g, g], map[g := 0]))
  {
    assert [g, g][1..] == [g] && [g][1..] == [];
    assert Loadable([g], map[g := 0]) == [(g, 0)];
    var ps := Loadable([g, g], map[g := 0]);
    assert ps[0] == (g, 0) && ps[1] == (g, 0);
  }

  /**
   A run from nothing: a font, one request that lists a glyph twice, its load. From then on a
   run in which no index is brought twice frees an entry that a list still has.
   */
  lemma AskedTwiceIsHarmed(g: nat) returns (es: seq<Event>, more: seq<Event>)
    ensures es == [FontLoaded(0)] + ([GlyphsLoad(0, [g, g])] + ([SlaveStarts(0)] + ([SlaveDone(Bare(0, 0, map[g := 0]))] + [])))
    ensures Legal(EMPTY, es) && Final(EMPTY, es).harmed == {}
    ensures Legal(Final(EMPTY, es), more) && !DoublesIn(Final(EMPTY, es), more)
    ensures Final(Final(EMPTY, es), more).harmed != {}
  {
    hide Inv, Ask, Dispatch, Respond, Legal, Final, Doubles, HeapInv, Sound, Safe, Twice, Refer, Used, Fail;
    EmptyIsSound();
    EmptyHeapInv();
    var v := Bare(0, 0, map[g := 0]);
    var s1 := Step(EMPTY, FontLoaded(0));
    Goes(EMPTY, FontLoaded(0));
    AskTwiceWaits(s1, 0, g);
    var s2 := Step(s1, GlyphsLoad(0, [g, g]));
    Goes(s1, GlyphsLoad(0, [g, g]));
    StartsTwice(s2, 0, g);
    var s3 := Step(s2, SlaveStarts(0));
    Goes(s2, SlaveStarts(0));
    Renders(s3);
    BareEnabled(s3, v);
    LoadableTwice(g);
    assert Surplus(s3) == {};
    DoublesIff(s3, v);
    var s4 := Step(s3, SlaveDone(v));
    StepSoundIff(s3, SlaveDone(v));
    StepHeapInv(s3, SlaveDone(v));
    more := Unsafe(s4);
    GlyphWaiting.Stop(s4);
    GlyphWaiting.Then(s3, SlaveDone(v), []);
    GlyphWaiting.Then(s2, SlaveStarts(0), [SlaveDone(v)] + []);
    GlyphWaiting.Then(s1, GlyphsLoad(0, [g, g]), [SlaveStarts(0)] + ([SlaveDone(v)] + []));
    GlyphWaiting.Then(EMPTY, FontLoaded(0), [GlyphsLoad(0, [g, g])] + ([SlaveStarts(0)] + ([SlaveDone(v)] + [])));
    es := [FontLoaded(0)] + ([GlyphsLoad(0, [g, g])] + ([SlaveStarts(0)] + ([SlaveDone(v)] + [])));
    FirstUnharmed(s3, v);
  }

  lemma Goes(s: State, e: Event)
    requires Inv(s) && HeapInv(s) && Sound(s) && GlyphRuns.Enabled(s, e) && !e.SlaveDone?
    ensures HeapInv(Step(s, e)) && Sound(Step(s, e)) && Step(s, e).harmed == {}
  {
    hide Inv, Step, HeapInv, GlyphRuns.Enabled;
    StepHeapInv(s, e);
    StepSoundIff(s, e);
  }

  lemma Renders(s: State)
    requires HeapInv(s)
    ensures RenderOk(s)
  {}

  lemma Unsafe(s: State) returns (more: seq<Event>)
    requires Inv(s) && HeapInv(s) && !Sound(s)
    ensures Legal(s, more) && !DoublesIn(s, more) && Final(s, more).harmed != {}
  {
    hide Inv, HeapInv, Sound;
    SafeIff(s);
    more :| Legal(s, more) && !DoublesIn(s, more) && Final(s, more).harmed != {};
  }

  lemma {:induction false} AbsorbAllFlags(s: State, segs: seq<Segment>, reuse: bool)
    requires Inv(s) && Landed(s) && s.work.Some? && s.work.value.req.font in s.fonts && AllFit(s, segs, reuse)
    requires forall x {:trigger s.fonts[x]} :: x in s.fonts ==> !s.fonts[x].unused
    ensures var t := AbsorbAll(s, segs, reuse);
            t.harmed == s.harmed && forall x {:trigger t.fonts[x]} :: x in t.fonts ==> !t.fonts[x].unused
    decreases segs
  {
    hide Inv, Fits, AllFit, Absorb, Landed;
    if segs != [] {
      NextFit(s, segs, reuse);
      FitsFirst(s, segs, reuse);
      AbsorbKeeps(s, segs[0], reuse);
      AbsorbTables(s, segs[0], reuse);
      AbsorbFlags(s, segs[0], reuse);
      AbsorbAllFlags(Absorb(s, segs[0], reuse), segs[1..], false);
    }
  }

  lemma {:induction false} FlushNothing(s: State, rest: seq<Shm>)
    requires Inv(s) && Landed(s) && NoDup(rest) && forall c {:trigger c in rest} :: c in rest ==> c in s.lru
    requires forall x {:trigger s.fonts[x]} :: x in s.fonts ==> !s.fonts[x].unused
    ensures Flush(s, rest) == s
    decreases rest
  {
    hide Inv, Landed, Free;
    if rest != [] && s.mem > MAX_FONT_USAGE {
      assert rest[0] in rest && forall c {:trigger c in rest[1..]} :: c in rest[1..] ==> c in rest;
      LruCache(s, rest[0]);
      FlushNothing(s, rest[1..]);
    }
  }

  /** While all fonts are in use, a response frees nothing. */
  lemma FirstUnharmed(s: State, v: Slave)
    requires Inv(s) && GlyphRuns.Enabled(s, SlaveDone(v)) && s.harmed == {}
    requires forall x {:trigger s.fonts[x]} :: x in s.fonts ==> !s.fonts[x].unused
    ensures Step(s, SlaveDone(v)).harmed == {}
  {
    hide Inv, AllFit, Result, Flush, AbsorbAll, Complete, Step, Reuses;
    AllFitMarked(s, v);
    var segs := Result(s, v).segs;
    AbsorbAllFlags(MarkLanded(s), segs, Reuses(s, segs));
    var s1 := AbsorbAll(MarkLanded(s), segs, Reuses(s, segs));
    FlushNothing(s1, s1.lru);
    CompleteDone(s1);
  }
}
