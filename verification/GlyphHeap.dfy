/**
 The glyph entries on the heap: which of them lists and answers may follow, and what can free
 one that is still in a list.
 */
module GlyphHeap {
  import opened GlyphCache
  import opened GlyphPacking
  import opened GlyphRequests
  import opened GlyphRuns
  import opened GlyphPins
  import opened Lists

  /** What is in a list is allocated, unless it has been freed there. */
  ghost predicate HeapOk(s: State) {
    forall a {:trigger Linked(s, a)} :: Linked(s, a) ==> a in s.heap || a in s.harmed
  }

  /** The font's table has the entry under its index. */
  predicate Named(s: State, a: Answer) {
    && a.shm in s.caches && s.caches[a.shm].font in s.fonts
    && a.glyph.index in s.fonts[s.caches[a.shm].font].table
    && s.fonts[s.caches[a.shm].font].table[a.glyph.index] == a
  }

  /** Every entry of a cache that may still be freed is the one its font's table has. */
  ghost predicate Clean(s: State) {
    forall a {:trigger Linked(s, a)} {:trigger Named(s, a)} :: Linked(s, a) && !Overpinned(s, a.shm) ==> Named(s, a)
  }

  /** What the slave is rendering has not come in, and is not in the font's table. */
  ghost predicate RenderOk(s: State) {
    s.work.Some? ==>
      && !s.work.value.landed
      && (s.work.value.req.font in s.fonts ==>
            forall g {:trigger g in s.work.value.req.render} :: g in s.work.value.req.render ==>
              g !in s.fonts[s.work.value.req.font].table)
  }

  /** No entry was ever freed while a list had it, and none of those in lists will be by a flush. */
  ghost predicate Sound(s: State) {
    HeapOk(s) && RenderOk(s) && Clean(s) && s.harmed == {}
  }

  // ----- events that load nothing ---------------------------------------------------

  /** Lists, tables and heap stay, and no surplus pin is taken back. */
  ghost predicate Quiet(s: State, t: State) {
    && SameButPins(s.caches, t.caches) && t.heap == s.heap && t.harmed == s.harmed
    && (forall c {:trigger s.caches[c]} :: c in s.caches && s.caches[c].font in s.fonts ==>
          s.caches[c].font in t.fonts && t.fonts[s.caches[c].font].table == s.fonts[s.caches[c].font].table)
    && (forall c {:trigger Overpinned(s, c)} :: Overpinned(s, c) ==> Overpinned(t, c))
  }

  lemma QuietLinked(s: State, t: State, a: Answer)
    requires SameButPins(s.caches, t.caches)
    ensures Linked(t, a) <==> Linked(s, a)
  {}

  lemma QuietKeeps(s: State, t: State)
    requires Quiet(s, t)
    ensures HeapOk(s) ==> HeapOk(t)
    ensures Clean(s) ==> Clean(t)
  {
    hide Overpinned;
    forall a | Linked(t, a) ensures Linked(s, a) { QuietLinked(s, t, a); }
    if Clean(s) {
      forall a | Linked(t, a) && !Overpinned(t, a.shm) ensures Named(t, a) {
        assert Linked(s, a) && Named(s, a);
      }
    }
  }

  lemma SurplusStays(s: State, e: Event)
    requires Inv(s) && GlyphRuns.Enabled(s, e)
    ensures forall c {:trigger Overpinned(s, c)} :: Overpinned(s, c) ==> Overpinned(Step(s, e), c)
  {
    hide Inv, GlyphRuns.Enabled, Step, Overpinned;
    forall c | Overpinned(s, c) ensures Overpinned(Step(s, e), c) { StepSlack(s, e, c); }
  }

  lemma CachesStay(s: State, e: Event)
    requires Inv(s) && GlyphRuns.Enabled(s, e) && !e.SlaveDone?
    ensures SameButPins(s.caches, Step(s, e).caches)
    ensures Step(s, e).heap == s.heap && Step(s, e).harmed == s.harmed
  {
    hide Inv, Groups, FoundPrefix, Found, Promote, Shms, Unpin;
    match e
    case GlyphsLoad(f, glyphs) =>
      var found := FoundPrefix(s.fonts[f].table, glyphs);
      var s1 := Enqueue(s, Req(f, glyphs, |found|, [], found));
      DeliverPins(s1);
    case SlaveStarts(i) => DispatchKeeps(s, i);
    case _ =>
  }

  lemma TablesStay(s: State, e: Event, c: Shm)
    requires Inv(s) && GlyphRuns.Enabled(s, e) && !e.SlaveDone? && c in s.caches
    ensures var f := s.caches[c].font;
            f in s.fonts && f in Step(s, e).fonts && Step(s, e).fonts[f].table == s.fonts[f].table
            && Step(s, e).fonts[f].caches == s.fonts[f].caches
  {
    hide Inv, Enqueue, Deliver, PinAll, FoundPrefix, Found, NotFound, Groups, Promote, Shms;
    HasCache(s, c);
    match e
    case SlaveStarts(i) => DispatchKeeps(s, i);
    case GlyphsLoad(f, glyphs) =>
      var found := FoundPrefix(s.fonts[f].table, glyphs);
      FontsAside(s, Req(f, glyphs, |found|, [], found));
    case _ =>
  }

  lemma HasCache(s: State, c: Shm)
    requires Inv(s) && c in s.caches
    ensures s.caches[c].font in s.fonts && c in s.fonts[s.caches[c].font].caches
  {
    assert s.caches[c].font in s.fonts;
  }

  lemma FontsAside(s: State, r: Req)
    ensures Enqueue(s, r).fonts == s.fonts && Enqueue(s, r).pending != []
    ensures Deliver(Enqueue(s, r)).fonts == s.fonts
  {}

  lemma StepIsQuiet(s: State, e: Event)
    requires Inv(s) && GlyphRuns.Enabled(s, e) && !e.SlaveDone?
    ensures Quiet(s, Step(s, e))
  {
    hide Inv, GlyphRuns.Enabled, Step, Overpinned, SameButPins;
    SurplusStays(s, e);
    CachesStay(s, e);
    forall c | c in s.caches && s.caches[c].font in s.fonts
      ensures s.caches[c].font in Step(s, e).fonts
      ensures Step(s, e).fonts[s.caches[c].font].table == s.fonts[s.caches[c].font].table
    {
      TablesStay(s, e, c);
    }
  }

  lemma {:induction false} NotFoundIs(table: map<nat, Answer>, glyphs: seq<nat>)
    ensures forall g {:trigger g in NotFound(table, glyphs)} :: g in NotFound(table, glyphs) ==> g !in table
  {
    if glyphs != [] { NotFoundIs(table, glyphs[1..]); }
  }

  lemma StepRenders(s: State, e: Event)
    requires Inv(s) && GlyphRuns.Enabled(s, e) && RenderOk(s)
    ensures RenderOk(Step(s, e))
  {
    hide Inv, Groups, FoundPrefix, Found, NotFound, Promote, Shms, Unpin, Respond;
    match e
    case SlaveStarts(i) =>
      DispatchKeeps(s, i);
      NotFoundIs(s.fonts[s.pending[i].font].table, s.pending[i].glyphs[s.pending[i].current..]);
    case SlaveDone(v) => RespondDone(s, v);
    case _ =>
  }

  /** After a response the slave is free. */
  lemma RespondDone(s: State, v: Slave)
    requires Inv(s) && GlyphRuns.Enabled(s, SlaveDone(v))
    ensures Step(s, SlaveDone(v)).work.None?
  {
    hide Inv, AllFit, Result, Flush, AbsorbAll, Deliver;
    SlaveResultFits(s, v);
    var segs := Result(s, v).segs;
    LandedKeeps(s, segs, Reuses(s, segs));
    AbsorbAllKeeps(MarkLanded(s), segs, Reuses(s, segs));
    var s1 := AbsorbAll(MarkLanded(s), segs, Reuses(s, segs));
    LruNoDup(s1);
    FlushOutcome(s1, s1.lru);
    CompleteDone(Flush(s1, s1.lru));
  }

  lemma CompleteDone(s: State)
    requires s.work.Some?
    ensures Complete(s).work.None? && Complete(s).fonts == s.fonts && Complete(s).pending == s.pending
    ensures Complete(s).heap == s.heap && Complete(s).harmed == s.harmed && SameButPins(s.caches, Complete(s).caches)
  {
    hide Groups, Promote, Shms, Unpin;
    var t := s.(work := None, pending := s.pending + [s.work.value.req]);
    DeliverPins(t);
    assert (s.pending + [s.work.value.req])[..|s.pending|] == s.pending;
  }

  // ----- the flush ------------------------------------------------------------------

  lemma {:induction false} DeletedIs(table: map<nat, Answer>, c: Shm, pos: nat, gs: seq<Glyph>, a: Answer)
    requires a in Deleted(table, gs)
    ensures a in Wronged(table, c, pos, gs) || (a.shm == c && pos <= a.pos < pos + |gs|)
    decreases gs
  {
    if !(gs[0].index in table && a == table[gs[0].index]) {
      DeletedIs(table - {gs[0].index}, c, pos + 1, gs[1..], a);
    }
  }

  lemma FreeHeap(s: State, c: Shm)
    requires HeapOk(s) && c in s.caches && s.caches[c].font in s.fonts
    ensures HeapOk(Free(s, c))
  {
    hide Deleted, Wronged, Unlisted;
    var fe, gs := s.fonts[s.caches[c].font], s.caches[c].glyphs;
    forall a | Linked(Free(s, c), a) ensures a in Free(s, c).heap || a in Free(s, c).harmed {
      assert Linked(s, a) && a.shm != c;
      if a in Deleted(fe.table, gs) { DeletedIs(fe.table, c, 0, gs, a); }
    }
  }

  lemma {:induction false} NoneWronged(table: map<nat, Answer>, c: Shm, pos: nat, gs: seq<Glyph>)
    requires forall i {:trigger gs[i]} :: 0 <= i < |gs| && gs[i].index in table ==> table[gs[i].index] == Answer(c, pos + i, gs[i])
    ensures Wronged(table, c, pos, gs) == {}
    decreases gs
  {
    if gs != [] {
      forall i | 0 <= i < |gs[1..]| && gs[1..][i].index in table - {gs[0].index}
        ensures table[gs[1..][i].index] == Answer(c, pos + 1 + i, gs[1..][i])
      {
        assert gs[1..][i] == gs[i + 1];
      }
      NoneWronged(table - {gs[0].index}, c, pos + 1, gs[1..]);
    }
  }

  /** An index stays in the table when the list of the freed cache does not have it. */
  lemma {:induction false} UnlistedKeeps(table: map<nat, Answer>, gs: seq<Glyph>, x: nat)
    requires x in table && forall i {:trigger gs[i]} :: 0 <= i < |gs| ==> gs[i].index != x
    ensures x in Unlisted(table, gs) && Unlisted(table, gs)[x] == table[x]
    decreases gs
  {
    if gs != [] {
      forall i | 0 <= i < |gs[1..]| ensures gs[1..][i].index != x { assert gs[1..][i] == gs[i + 1]; }
      UnlistedKeeps(table - {gs[0].index}, gs[1..], x);
    }
  }

  /** Where all entries are the table's own, freeing their cache frees them and nothing else. */
  lemma FreeClean(s: State, c: Shm)
    requires Inv(s) && Landed(s) && c in s.lru && c in s.caches && s.caches[c].font in s.fonts && Evictable(s, c)
    requires Clean(s)
    ensures Free(s, c).harmed == s.harmed && Clean(Free(s, c))
  {
    Unpinned(s, c);
    FreeKeeps(s, c);
    FreeOnly(s, c);
    FreeKept(s, c);
    hide Inv, Overpinned, Deleted, Wronged, Unlisted, Landed;
    var f := s.caches[c].font;
    var table, gs := s.fonts[f].table, s.caches[c].glyphs;
    var t := Free(s, c);
    forall i | 0 <= i < |gs| && gs[i].index in table ensures table[gs[i].index] == Answer(c, i, gs[i]) {
      assert Linked(s, Answer(c, i, gs[i]));
    }
    NoneWronged(table, c, 0, gs);
    forall a | Linked(t, a) && !Overpinned(t, a.shm) ensures Named(t, a) {
      assert Linked(s, a) && a.shm != c;
      OverpinnedAside(s, c, a.shm);
      assert Named(s, a);
      if s.caches[a.shm].font == f {
        forall i | 0 <= i < |gs| ensures gs[i].index != a.glyph.index {
          assert Linked(s, Answer(c, i, gs[i]));
        }
        UnlistedKeeps(table, gs, a.glyph.index);
      }
      FontOfCache(t, a.shm);
    }
  }

  lemma FontOfCache(s: State, c: Shm)
    requires Inv(s) && c in s.caches
    ensures s.caches[c].font in s.fonts
  {
    HasCache(s, c);
  }

  lemma Unpinned(s: State, c: Shm)
    requires Inv(s) && c in s.caches && s.caches[c].inuse == 0
    ensures !Overpinned(s, c) && Pinned(s, c) == 0
  {}

  lemma OverpinnedAside(s: State, c: Shm, d: Shm)
    requires c in s.caches && s.caches[c].font in s.fonts && d != c
    ensures Overpinned(Free(s, c), d) <==> Overpinned(s, d)
  {
    assert Pinned(Free(s, c), d) == Pinned(s, d);
  }

  lemma {:induction false} FlushSound(s: State, rest: seq<Shm>)
    requires Inv(s) && Landed(s) && NoDup(rest) && forall c {:trigger c in rest} :: c in rest ==> c in s.lru
    requires HeapOk(s) && Clean(s)
    ensures HeapOk(Flush(s, rest)) && Clean(Flush(s, rest)) && Flush(s, rest).harmed == s.harmed
    decreases rest
  {
    hide Inv, Free, Landed, Evictable, HeapOk, Clean;
    if rest != [] && s.mem > MAX_FONT_USAGE {
      assert rest[0] in rest && forall c {:trigger c in rest[1..]} :: c in rest[1..] ==> c in rest;
      LruCache(s, rest[0]);
      if Evictable(s, rest[0]) {
        FreeKeeps(s, rest[0]);
        FreeHeap(s, rest[0]);
        FreeClean(s, rest[0]);
        FlushSound(Free(s, rest[0]), rest[1..]);
      } else {
        FlushSound(s, rest[1..]);
      }
    }
  }
}
