/**
 An index rendered twice: a font's table then has only the second entry, and the first is a
 stray in its list. Without that no run frees an entry that a list or an answer has.
 */
module GlyphDoubles {
  import opened GlyphCache
  import opened GlyphPacking
  import opened GlyphRequests
  import opened GlyphRuns
  import opened GlyphPins
  import opened GlyphHeap
  import opened Lists

  // ----- what the slave brings ------------------------------------------------------

  predicate TwiceIn(gs: seq<Glyph>) {
    exists i, j {:trigger gs[i], gs[j]} :: 0 <= i < j < |gs| && gs[i].index == gs[j].index
  }

  predicate Brings(segs: seq<Segment>, x: nat) {
    exists n, j {:trigger segs[n].glyphs[j]} :: 0 <= n < |segs| && 0 <= j < |segs[n].glyphs| && segs[n].glyphs[j].index == x
  }

  /** An index occurs twice, the first time in a segment that is not exempt. */
  predicate Doubled(segs: seq<Segment>, exempt: set<Shm>) {
    segs != [] && (
      (segs[0].shm !in exempt
       && (TwiceIn(segs[0].glyphs)
           || exists i {:trigger segs[0].glyphs[i]} :: 0 <= i < |segs[0].glyphs| && Brings(segs[1..], segs[0].glyphs[i].index)))
      || Doubled(segs[1..], exempt))
  }

  /** The caches that have more pins than answers, and so are never freed. */
  ghost function Surplus(s: State): set<Shm> {
    set c | c in s.caches && Overpinned(s, c)
  }

  /** No entry of the font outside those caches has an index that is brought. */
  ghost predicate Fresh(s: State, f: FontId, segs: seq<Segment>) {
    forall a {:trigger Linked(s, a)} :: Linked(s, a) && a.shm !in Surplus(s) && s.caches[a.shm].font == f ==>
      !Brings(segs, a.glyph.index)
  }

  /** An entry in a list that the font's table does not have, in a cache that may be freed. */
  ghost predicate Stray(s: State, a: Answer) {
    Linked(s, a) && !Overpinned(s, a.shm) && !Named(s, a)
  }

  // ----- tables ---------------------------------------------------------------------

  lemma {:induction false} ListedElsewhere(table: map<nat, Answer>, shm: Shm, pos: nat, gs: seq<Glyph>, x: nat)
    requires forall i {:trigger gs[i]} :: 0 <= i < |gs| ==> gs[i].index != x
    ensures x in Listed(table, shm, pos, gs) <==> x in table
    ensures x in table ==> Listed(table, shm, pos, gs)[x] == table[x]
    decreases gs
  {
    if gs != [] {
      forall i | 0 <= i < |gs[1..]| ensures gs[1..][i].index != x { assert gs[1..][i] == gs[i + 1]; }
      ListedElsewhere(table[gs[0].index := Answer(shm, pos, gs[0])], shm, pos + 1, gs[1..], x);
    }
  }

  /** The last entry of an index wins. */
  lemma {:induction false} ListedAt(table: map<nat, Answer>, shm: Shm, pos: nat, gs: seq<Glyph>, i: nat)
    requires i < |gs| && forall j {:trigger gs[j]} :: i < j < |gs| ==> gs[j].index != gs[i].index
    ensures var t := Listed(table, shm, pos, gs);
            gs[i].index in t && t[gs[i].index] == Answer(shm, pos + i, gs[i])
    decreases gs
  {
    var t1 := table[gs[0].index := Answer(shm, pos, gs[0])];
    if i == 0 {
      forall j | 0 <= j < |gs[1..]| ensures gs[1..][j].index != gs[0].index { assert gs[1..][j] == gs[j + 1]; }
      ListedElsewhere(t1, shm, pos + 1, gs[1..], gs[0].index);
    } else {
      forall j | i - 1 < j < |gs[1..]| ensures gs[1..][j].index != gs[i].index { assert gs[1..][j] == gs[j + 1]; }
      ListedAt(t1, shm, pos + 1, gs[1..], i - 1);
    }
  }

  /** After one of two entries of an index comes the other, the table does not have the first. */
  lemma {:induction false} ListedLater(table: map<nat, Answer>, shm: Shm, pos: nat, gs: seq<Glyph>, i: nat)
    requires i < |gs|
    ensures var t := Listed(table, shm, pos, gs);
            gs[i].index in t && t[gs[i].index].shm == shm && t[gs[i].index].pos >= pos + i
    decreases gs
  {
    if forall j {:trigger gs[j]} :: i < j < |gs| ==> gs[j].index != gs[i].index {
      ListedAt(table, shm, pos, gs, i);
    } else {
      var j :| i < j < |gs| && gs[j].index == gs[i].index;
      assert gs[1..][j - 1] == gs[j];
      ListedLater(table[gs[0].index := Answer(shm, pos, gs[0])], shm, pos + 1, gs[1..], j - 1);
    }
  }

  // ----- one segment ----------------------------------------------------------------

  /** What a segment does to the lists: entries stay in theirs, and new ones come at the end of its cache. */
  lemma AbsorbLists(s: State, seg: Segment, reuse: bool, a: Answer)
    requires Inv(s) && s.work.Some? && s.work.value.req.font in s.fonts && Fits(s, seg, reuse)
    ensures var t, pos := Absorb(s, seg, reuse), PlaceOf(s, seg, reuse);
            && (Linked(s, a) ==> Linked(t, a) && t.caches[a.shm].font == s.caches[a.shm].font
                                 && (a.shm == seg.shm ==> a.pos < pos))
            && (Linked(t, a) && !Linked(s, a) ==>
                  a.shm == seg.shm && pos <= a.pos < pos + |seg.glyphs| && a.glyph == seg.glyphs[a.pos - pos])
  {
    hide Listed, AsSet, Answers, SegmentOk, CachesOk, LruOk, AnswersOk, FontsOk, WorkOk;
  }

  lemma AbsorbTables(s: State, seg: Segment, reuse: bool)
    requires Inv(s) && s.work.Some? && s.work.value.req.font in s.fonts && Fits(s, seg, reuse)
    ensures var t, f, pos := Absorb(s, seg, reuse), s.work.value.req.font, PlaceOf(s, seg, reuse);
            && t.work.Some? && t.work.value.req.font == f && t.fonts.Keys == s.fonts.Keys
            && t.fonts[f].table == Listed(s.fonts[f].table, seg.shm, pos, seg.glyphs)
            && (forall x {:trigger t.fonts[x]} :: x in s.fonts && x != f ==> t.fonts[x] == s.fonts[x])
            && seg.shm in t.caches && t.caches[seg.shm].font == f
            && t.heap == s.heap + AsSet(Answers(seg.shm, pos, seg.glyphs)) && t.harmed == s.harmed
  {
    assert FontOk(s, s.work.value.req.font);
  }

  lemma AbsorbHeap(s: State, seg: Segment, reuse: bool)
    requires Inv(s) && s.work.Some? && s.work.value.req.font in s.fonts && Fits(s, seg, reuse) && HeapOk(s)
    ensures HeapOk(Absorb(s, seg, reuse))
  {
    hide Inv, Absorb, SegmentOk;
    var t, pos := Absorb(s, seg, reuse), PlaceOf(s, seg, reuse);
    AbsorbTables(s, seg, reuse);
    forall a | Linked(t, a) ensures a in t.heap || a in t.harmed {
      AbsorbLists(s, seg, reuse, a);
      if !Linked(s, a) { assert a == Answers(seg.shm, pos, seg.glyphs)[a.pos - pos]; }
    }
  }

  lemma AbsorbSurplus(s: State, seg: Segment, reuse: bool)
    requires Inv(s) && s.work.Some? && s.work.value.req.font in s.fonts && Fits(s, seg, reuse)
    ensures Surplus(Absorb(s, seg, reuse)) == Surplus(s)
    ensures forall c {:trigger c in Absorb(s, seg, reuse).caches} :: c in Absorb(s, seg, reuse).caches <==> c in s.caches || c == seg.shm
  {
    hide Listed, SegmentOk, CachesOk, LruOk, FontsOk, AnswersOk, WorkOk;
    var t := Absorb(s, seg, reuse);
    forall c | c in t.caches ensures Overpinned(t, c) <==> Overpinned(s, c) {
      if c in s.caches {
        AbsorbSlack(s, seg, reuse, c);
      } else {
        AbsentUnpinned(s, c);
        PinsJoin(s.work.value.req.answer, Answers(seg.shm, PlaceOf(s, seg, reuse), seg.glyphs), c);
        NewPins(seg.shm, PlaceOf(s, seg, reuse), seg.glyphs, c);
      }
    }
  }

  lemma AbsorbClean(s: State, seg: Segment, reuse: bool)
    requires Inv(s) && s.work.Some? && s.work.value.req.font in s.fonts && Fits(s, seg, reuse) && Clean(s)
    requires Fresh(s, s.work.value.req.font, [seg]) && (seg.shm !in Surplus(s) ==> !TwiceIn(seg.glyphs))
    ensures Clean(Absorb(s, seg, reuse))
  {
    hide Inv, Absorb, SegmentOk, Overpinned;
    var t, f, pos, gs := Absorb(s, seg, reuse), s.work.value.req.font, PlaceOf(s, seg, reuse), seg.glyphs;
    AbsorbTables(s, seg, reuse);
    AbsorbSurplus(s, seg, reuse);
    forall a | Linked(t, a) && !Overpinned(t, a.shm) ensures Named(t, a) {
      AbsorbLists(s, seg, reuse, a);
      assert a.shm !in Surplus(s);
      if Linked(s, a) {
        assert Named(s, a);
        if s.caches[a.shm].font == f {
          forall i | 0 <= i < |gs| ensures gs[i].index != a.glyph.index { assert [seg][0].glyphs[i] == gs[i]; }
          ListedElsewhere(s.fonts[f].table, seg.shm, pos, gs, a.glyph.index);
        }
      } else {
        ListedAt(s.fonts[f].table, seg.shm, pos, gs, a.pos - pos);
      }
    }
  }

  lemma AbsorbFresh(s: State, segs: seq<Segment>, reuse: bool)
    requires Inv(s) && s.work.Some? && s.work.value.req.font in s.fonts && segs != [] && Fits(s, segs[0], reuse)
    requires Fresh(s, s.work.value.req.font, segs)
    requires segs[0].shm !in Surplus(s) ==>
               forall i {:trigger segs[0].glyphs[i]} :: 0 <= i < |segs[0].glyphs| ==> !Brings(segs[1..], segs[0].glyphs[i].index)
    ensures Fresh(Absorb(s, segs[0], reuse), s.work.value.req.font, segs[1..])
    ensures Fresh(s, s.work.value.req.font, [segs[0]])
  {
    hide Inv, Absorb, SegmentOk, Overpinned;
    var t := Absorb(s, segs[0], reuse);
    AbsorbSurplus(s, segs[0], reuse);
    forall x: nat | !Brings(segs, x) ensures !Brings(segs[1..], x) && !Brings([segs[0]], x) {
      forall n, j | 0 <= n < |segs[1..]| && 0 <= j < |segs[1..][n].glyphs| ensures segs[1..][n].glyphs[j].index != x {
        assert segs[n + 1].glyphs[j].index != x;
      }
      forall j | 0 <= j < |segs[0].glyphs| ensures segs[0].glyphs[j].index != x {}
    }
    forall a | Linked(t, a) && a.shm !in Surplus(t) && t.caches[a.shm].font == s.work.value.req.font
      ensures !Brings(segs[1..], a.glyph.index)
    {
      AbsorbLists(s, segs[0], reuse, a);
    }
  }

  /** A stray stays one. */
  lemma AbsorbStray(s: State, seg: Segment, reuse: bool, a: Answer)
    requires Inv(s) && s.work.Some? && s.work.value.req.font in s.fonts && Fits(s, seg, reuse) && Stray(s, a)
    ensures Stray(Absorb(s, seg, reuse), a)
  {
    hide Inv, Absorb, SegmentOk, Overpinned;
    var t, f, pos := Absorb(s, seg, reuse), s.work.value.req.font, PlaceOf(s, seg, reuse);
    AbsorbTables(s, seg, reuse);
    AbsorbSurplus(s, seg, reuse);
    AbsorbLists(s, seg, reuse, a);
    assert Overpinned(t, a.shm) ==> a.shm in Surplus(t);
    assert a !in Answers(seg.shm, pos, seg.glyphs);
    if Named(t, a) && s.caches[a.shm].font == f {
      ListedIs(s.fonts[f].table, seg.shm, pos, seg.glyphs, a.glyph.index);
    }
  }

  /** Two entries of one index: the first is a stray once both are in. */
  lemma AbsorbTwice(s: State, seg: Segment, reuse: bool, i: nat, j: nat)
    requires Inv(s) && s.work.Some? && s.work.value.req.font in s.fonts && Fits(s, seg, reuse)
    requires i < j < |seg.glyphs| && seg.glyphs[i].index == seg.glyphs[j].index && seg.shm !in Surplus(s)
    ensures Stray(Absorb(s, seg, reuse), Answer(seg.shm, PlaceOf(s, seg, reuse) + i, seg.glyphs[i]))
  {
    var t, f, pos := Absorb(s, seg, reuse), s.work.value.req.font, PlaceOf(s, seg, reuse);
    var a := Answer(seg.shm, pos + i, seg.glyphs[i]);
    assert Linked(t, a);
    hide Inv, Absorb, SegmentOk, Overpinned;
    AbsorbTables(s, seg, reuse);
    AbsorbSurplus(s, seg, reuse);
    assert Overpinned(t, a.shm) ==> a.shm in Surplus(t);
    ListedLater(s.fonts[f].table, seg.shm, pos, seg.glyphs, j);
  }

  /** A new entry of an index takes the place of the old one, which is then a stray. */
  lemma AbsorbReplaces(s: State, seg: Segment, reuse: bool, a: Answer, j: nat)
    requires Inv(s) && s.work.Some? && s.work.value.req.font in s.fonts && Fits(s, seg, reuse)
    requires Linked(s, a) && s.caches[a.shm].font == s.work.value.req.font && a.shm !in Surplus(s)
    requires j < |seg.glyphs| && seg.glyphs[j].index == a.glyph.index
    ensures Stray(Absorb(s, seg, reuse), a)
  {
    hide Inv, Absorb, SegmentOk, Overpinned;
    var t, f, pos := Absorb(s, seg, reuse), s.work.value.req.font, PlaceOf(s, seg, reuse);
    AbsorbTables(s, seg, reuse);
    AbsorbSurplus(s, seg, reuse);
    AbsorbLists(s, seg, reuse, a);
    assert Overpinned(t, a.shm) ==> a.shm in Surplus(t);
    ListedLater(s.fonts[f].table, seg.shm, pos, seg.glyphs, j);
  }

  // ----- a whole response -----------------------------------------------------------

  lemma {:induction false} AbsorbAllClean(s: State, segs: seq<Segment>, reuse: bool)
    requires Inv(s) && Landed(s) && s.work.Some? && s.work.value.req.font in s.fonts && AllFit(s, segs, reuse)
    requires HeapOk(s) && Clean(s) && Fresh(s, s.work.value.req.font, segs) && !Doubled(segs, Surplus(s))
    ensures var t := AbsorbAll(s, segs, reuse);
            HeapOk(t) && Clean(t) && t.harmed == s.harmed
    decreases segs
  {
    hide Inv, Fits, AllFit, Absorb, HeapOk, Clean, Fresh, Landed;
    if segs != [] {
      NextFit(s, segs, reuse);
      FitsFirst(s, segs, reuse);
      var t := Absorb(s, segs[0], reuse);
      AbsorbKeeps(s, segs[0], reuse);
      AbsorbHeap(s, segs[0], reuse);
      AbsorbTables(s, segs[0], reuse);
      AbsorbFresh(s, segs, reuse);
      AbsorbClean(s, segs[0], reuse);
      AbsorbSurplus(s, segs[0], reuse);
      AbsorbAllClean(t, segs[1..], false);
    }
  }

  /** What the answer in hand points to, in its list. */
  ghost predicate InHand(s: State, a: Answer) {
    s.work.Some? && a in s.work.value.req.answer
  }

  lemma {:induction false} AbsorbAllStray(s: State, segs: seq<Segment>, reuse: bool, a: Answer)
    requires Inv(s) && Landed(s) && s.work.Some? && s.work.value.req.font in s.fonts && AllFit(s, segs, reuse)
    requires Stray(s, a) && InHand(s, a)
    ensures Stray(AbsorbAll(s, segs, reuse), a) && InHand(AbsorbAll(s, segs, reuse), a)
    decreases segs
  {
    hide Inv, Fits, AllFit, Absorb, Stray, Landed;
    if segs != [] {
      NextFit(s, segs, reuse);
      FitsFirst(s, segs, reuse);
      AbsorbKeeps(s, segs[0], reuse);
      AbsorbStray(s, segs[0], reuse, a);
      AbsorbHands(s, segs[0], reuse, a);
      AbsorbAllStray(Absorb(s, segs[0], reuse), segs[1..], false, a);
    }
  }

  lemma AbsorbHands(s: State, seg: Segment, reuse: bool, a: Answer)
    requires s.work.Some? && s.work.value.req.font in s.fonts && Fits(s, seg, reuse)
    ensures InHand(s, a) ==> InHand(Absorb(s, seg, reuse), a)
    ensures forall i {:trigger seg.glyphs[i]} :: 0 <= i < |seg.glyphs| ==>
              InHand(Absorb(s, seg, reuse), Answer(seg.shm, PlaceOf(s, seg, reuse) + i, seg.glyphs[i]))
  {
    hide SegmentOk, Listed, AsSet;
    var made := Answers(seg.shm, PlaceOf(s, seg, reuse), seg.glyphs);
    forall i | 0 <= i < |seg.glyphs| ensures InHand(Absorb(s, seg, reuse), Answer(seg.shm, PlaceOf(s, seg, reuse) + i, seg.glyphs[i])) {
      assert made[i] in made;
    }
  }

  /** An entry in hand whose index comes again becomes a stray. */
  lemma {:induction false} AbsorbAllReplaces(s: State, segs: seq<Segment>, reuse: bool, a: Answer)
    requires Inv(s) && Landed(s) && s.work.Some? && s.work.value.req.font in s.fonts && AllFit(s, segs, reuse)
    requires Linked(s, a) && InHand(s, a) && s.caches[a.shm].font == s.work.value.req.font && a.shm !in Surplus(s)
    requires Brings(segs, a.glyph.index)
    ensures Stray(AbsorbAll(s, segs, reuse), a) && InHand(AbsorbAll(s, segs, reuse), a)
    decreases segs
  {
    hide Inv, Fits, AllFit, Absorb, Stray, Landed, Overpinned;
    var n, j :| 0 <= n < |segs| && 0 <= j < |segs[n].glyphs| && segs[n].glyphs[j].index == a.glyph.index;
    NextFit(s, segs, reuse);
    FitsFirst(s, segs, reuse);
    AbsorbKeeps(s, segs[0], reuse);
    AbsorbTables(s, segs[0], reuse);
    AbsorbHands(s, segs[0], reuse, a);
    var t := Absorb(s, segs[0], reuse);
    if n == 0 {
      AbsorbReplaces(s, segs[0], reuse, a, j);
      AbsorbAllStray(t, segs[1..], false, a);
    } else {
      AbsorbLists(s, segs[0], reuse, a);
      AbsorbSurplus(s, segs[0], reuse);
      assert segs[1..][n - 1].glyphs[j] == segs[n].glyphs[j];
      AbsorbAllReplaces(t, segs[1..], false, a);
    }
  }

  /** A doubled index leaves a stray, which the answer in hand has. */
  lemma {:induction false} AbsorbAllDoubled(s: State, segs: seq<Segment>, reuse: bool) returns (a: Answer)
    requires Inv(s) && Landed(s) && s.work.Some? && s.work.value.req.font in s.fonts && AllFit(s, segs, reuse)
    requires Doubled(segs, Surplus(s))
    ensures Stray(AbsorbAll(s, segs, reuse), a) && InHand(AbsorbAll(s, segs, reuse), a)
    decreases segs
  {
    hide Inv, Fits, AllFit, Absorb, Stray, InHand, Landed, Overpinned, Surplus, TwiceIn, Brings;
    NextFit(s, segs, reuse);
    FitsFirst(s, segs, reuse);
    AbsorbKeeps(s, segs[0], reuse);
    AbsorbTables(s, segs[0], reuse);
    AbsorbSurplus(s, segs[0], reuse);
    if Doubled(segs[1..], Surplus(s)) {
      a := AbsorbAllDoubled(Absorb(s, segs[0], reuse), segs[1..], false);
    } else if TwiceIn(segs[0].glyphs) {
      a := HeadTwice(s, segs, reuse);
    } else {
      a := HeadAgain(s, segs, reuse);
    }
  }

  lemma HeadTwice(s: State, segs: seq<Segment>, reuse: bool) returns (a: Answer)
    requires Inv(s) && Landed(s) && s.work.Some? && s.work.value.req.font in s.fonts && AllFit(s, segs, reuse)
    requires segs != [] && segs[0].shm !in Surplus(s) && TwiceIn(segs[0].glyphs)
    ensures Stray(AbsorbAll(s, segs, reuse), a) && InHand(AbsorbAll(s, segs, reuse), a)
  {
    hide Inv, Fits, AllFit, Absorb, Stray, InHand, Landed, Overpinned, Surplus;
    NextFit(s, segs, reuse);
    FitsFirst(s, segs, reuse);
    AbsorbKeeps(s, segs[0], reuse);
    var gs := segs[0].glyphs;
    var i, j :| 0 <= i < j < |gs| && gs[i].index == gs[j].index;
    a := Answer(segs[0].shm, PlaceOf(s, segs[0], reuse) + i, gs[i]);
    AbsorbTwice(s, segs[0], reuse, i, j);
    AbsorbHands(s, segs[0], reuse, a);
    AbsorbAllStray(Absorb(s, segs[0], reuse), segs[1..], false, a);
  }

  lemma HeadAgain(s: State, segs: seq<Segment>, reuse: bool) returns (a: Answer)
    requires Inv(s) && Landed(s) && s.work.Some? && s.work.value.req.font in s.fonts && AllFit(s, segs, reuse)
    requires segs != [] && segs[0].shm !in Surplus(s)
    requires exists i {:trigger segs[0].glyphs[i]} :: 0 <= i < |segs[0].glyphs| && Brings(segs[1..], segs[0].glyphs[i].index)
    ensures Stray(AbsorbAll(s, segs, reuse), a) && InHand(AbsorbAll(s, segs, reuse), a)
  {
    hide Inv, Fits, AllFit, Absorb, Stray, InHand, Landed, Overpinned, Surplus, Brings;
    NextFit(s, segs, reuse);
    FitsFirst(s, segs, reuse);
    AbsorbKeeps(s, segs[0], reuse);
    AbsorbTables(s, segs[0], reuse);
    AbsorbSurplus(s, segs[0], reuse);
    var gs := segs[0].glyphs;
    var i: nat :| i < |gs| && Brings(segs[1..], gs[i].index);
    a := Answer(segs[0].shm, PlaceOf(s, segs[0], reuse) + i, gs[i]);
    AbsorbHands(s, segs[0], reuse, a);
    NewLinked(s, segs[0], reuse, i);
    AbsorbAllReplaces(Absorb(s, segs[0], reuse), segs[1..], false, a);
  }

  lemma NewLinked(s: State, seg: Segment, reuse: bool, i: nat)
    requires s.work.Some? && s.work.value.req.font in s.fonts && Fits(s, seg, reuse) && i < |seg.glyphs|
    ensures Linked(Absorb(s, seg, reuse), Answer(seg.shm, PlaceOf(s, seg, reuse) + i, seg.glyphs[i]))
  {
    hide SegmentOk, Listed, Answers, AsSet;
  }
}
