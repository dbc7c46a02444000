/**
 What a stray leads to: as long as its cache may be freed, some run of loads that bring no
 index twice frees an entry that a list still has.
 */
module GlyphHarm {
  import opened GlyphCache
  import opened GlyphPacking
  import opened GlyphRequests
  import opened GlyphRuns
  import opened GlyphPins
  import opened GlyphHeap
  import opened GlyphDoubles
  import opened GlyphSound
  import opened GlyphHome
  import opened Lists

  // ----- one flush ------------------------------------------------------------------

  /** The entry the table has for the index of a glyph in the list is freed, unless the two are one. */
  lemma {:induction false} WrongedBy(table: map<nat, Answer>, c: Shm, pos: nat, gs: seq<Glyph>, k: nat)
    requires k < |gs| && gs[k].index in table
    requires table[gs[k].index].shm != c || table[gs[k].index].pos > pos + k
    ensures table[gs[k].index] in Wronged(table, c, pos, gs)
    decreases gs
  {
    if gs[0].index != gs[k].index {
      WrongedBy(table - {gs[0].index}, c, pos + 1, gs[1..], k - 1);
    }
  }

  /**
   A stray whose index the table has for another entry: one of the same list, or one of a cache
   that is pinned.
   */
  ghost predicate Prey(s: State, a: Answer) {
    && Stray(s, a) && s.caches[a.shm].font in s.fonts
    && var table := s.fonts[s.caches[a.shm].font].table;
       && a.glyph.index in table && table[a.glyph.index].shm in s.caches
       && (table[a.glyph.index].shm == a.shm || s.caches[table[a.glyph.index].shm].inuse != 0)
  }

  lemma FreeHarms(s: State, a: Answer)
    requires Inv(s) && NewestOk(s) && Prey(s, a)
    ensures Free(s, a.shm).harmed != {}
  {
    hide CachesOk, LruOk, AnswersOk, WorkOk, Deleted, Wronged, Unlisted, Overpinned;
    var f := s.caches[a.shm].font;
    var table, gs := s.fonts[f].table, s.caches[a.shm].glyphs;
    assert FontOk(s, f);
    var e := table[a.glyph.index];
    assert Linked(s, e) && e.glyph.index == a.glyph.index;
    assert e != a;
    WrongedBy(table, a.shm, 0, gs, a.pos);
    assert e in Free(s, a.shm).harmed;
  }

  /** The table has no other entry for an index of the list of c. */
  predicate OwnIndices(s: State, c: Shm)
    requires c in s.caches && s.caches[c].font in s.fonts
  {
    var table, gs := s.fonts[s.caches[c].font].table, s.caches[c].glyphs;
    forall k {:trigger gs[k]} :: 0 <= k < |gs| && gs[k].index in table ==> table[gs[k].index] == Answer(c, k, gs[k])
  }

  /** Freeing a cache frees an entry that is in a list if and only if the table has another entry for one of its indices. */
  lemma FreeHarmsIff(s: State, c: Shm)
    requires Inv(s) && NewestOk(s) && s.harmed == {} && c in s.caches && s.caches[c].font in s.fonts
    ensures Free(s, c).harmed == {} <==> OwnIndices(s, c)
  {
    var table, gs := s.fonts[s.caches[c].font].table, s.caches[c].glyphs;
    if OwnIndices(s, c) {
      NoneWronged(table, c, 0, gs);
    } else {
      var k: nat :| k < |gs| && gs[k].index in table && table[gs[k].index] != Answer(c, k, gs[k]);
      assert Linked(s, Answer(c, k, gs[k]));
      assert FontOk(s, s.caches[c].font) && Linked(s, table[gs[k].index]);
      WrongedBy(table, c, 0, gs, k);
      assert table[gs[k].index] in Free(s, c).harmed;
    }
    hide Inv, Deleted, Wronged, Unlisted;
  }

  lemma FreePrey(s: State, r: Shm, a: Answer)
    requires r in s.caches && s.caches[r].font in s.fonts && Inv(s) && Inv(Free(s, r))
    requires Prey(s, a) && r != a.shm && s.caches[r].inuse == 0
    ensures Free(s, r).harmed != {} || Prey(Free(s, r), a)
  {
    var f := s.caches[a.shm].font;
    var table, gs, t := s.fonts[f].table, s.caches[r].glyphs, Free(s, r);
    var x := a.glyph.index;
    FreeStray(s, r, a);
    FontOfCache(t, a.shm);
    hide Inv, Deleted, Wronged, Unlisted, Overpinned;
    if s.caches[r].font == f {
      if i: nat :| i < |gs| && gs[i].index == x {
        WrongedBy(table, r, 0, gs, i);
        assert table[x] in t.harmed;
      } else {
        UnlistedKeeps(table, gs, x);
      }
    }
  }

  lemma {:induction false} MemAtLeast(lru: seq<Shm>, caches: map<Shm, Cache>, b: Shm)
    requires b in lru && b in caches
    ensures Mem(lru, caches) >= SizeOf(caches[b])
  {
    if lru[0] != b { MemAtLeast(lru[1..], caches, b); }
  }

  lemma MemOver(s: State, b: Shm)
    requires Inv(s) && b in s.caches && SizeOf(s.caches[b]) > MAX_FONT_USAGE
    ensures s.mem > MAX_FONT_USAGE
  {
    assert b in s.lru;
    MemAtLeast(s.lru, s.caches, b);
  }

  lemma {:induction false} FlushGrows(s: State, rest: seq<Shm>)
    requires Inv(s) && Landed(s) && NoDup(rest) && forall c {:trigger c in rest} :: c in rest ==> c in s.lru
    ensures s.harmed <= Flush(s, rest).harmed
    decreases rest
  {
    hide Inv, Landed, Evictable, Deleted, Wronged, Unlisted;
    if rest != [] && s.mem > MAX_FONT_USAGE {
      assert rest[0] in rest && forall c {:trigger c in rest[1..]} :: c in rest[1..] ==> c in rest;
      LruCache(s, rest[0]);
      if Evictable(s, rest[0]) {
        FreeKeeps(s, rest[0]);
        FlushGrows(Free(s, rest[0]), rest[1..]);
      } else {
        FlushGrows(s, rest[1..]);
      }
    }
  }

  /** A flush that cannot come within the maximum reaches the cache of the prey. */
  lemma {:induction false} FlushHarms(s: State, rest: seq<Shm>, a: Answer, b: Shm)
    requires Inv(s) && Landed(s) && NoDup(rest) && forall c {:trigger c in rest} :: c in rest ==> c in s.lru
    requires NewestOk(s) && Prey(s, a) && a.shm in rest
    requires a.shm in s.caches && s.caches[a.shm].font in s.fonts && Evictable(s, a.shm)
    requires b in s.caches && s.caches[b].font in s.fonts && !Evictable(s, b) && SizeOf(s.caches[b]) > MAX_FONT_USAGE
    ensures Flush(s, rest).harmed != {}
    decreases rest
  {
    hide Inv, Free, Landed, NewestOk, Prey, SizeOf;
    MemOver(s, b);
    var r := rest[0];
    assert r in rest && forall c {:trigger c in rest[1..]} :: c in rest[1..] ==> c in rest;
    LruCache(s, r);
    if Evictable(s, r) {
      FreeKeeps(s, r);
      FlushGrows(Free(s, r), rest[1..]);
      if r == a.shm {
        FreeHarms(s, a);
      } else {
        FreePrey(s, r, a);
        if Free(s, r).harmed == {} {
          FreeNewest(s, r);
          OtherStays(s, r, b);
          OtherStays(s, r, a.shm);
          FlushHarms(Free(s, r), rest[1..], a, b);
        }
      }
    } else {
      FlushHarms(s, rest[1..], a, b);
    }
  }

  lemma OtherStays(s: State, r: Shm, b: Shm)
    requires r in s.caches && s.caches[r].font in s.fonts && Inv(s) && Inv(Free(s, r)) && r != b
    requires b in s.caches && s.caches[b].font in s.fonts
    ensures b in Free(s, r).caches && Free(s, r).caches[b] == s.caches[b] && s.caches[b].font in Free(s, r).fonts
    ensures Evictable(Free(s, r), b) <==> Evictable(s, b)
  {
    FontOfCache(Free(s, r), b);
    hide Inv, Unlisted, Deleted, Wronged;
  }

  // ----- runs that harm -------------------------------------------------------------

  /** Some continuation that brings no index twice frees an entry that a list has. */
  ghost predicate CanHarm(s: State)
    requires Inv(s)
  {
    exists es :: Legal(s, es) && !DoublesIn(s, es) && Final(s, es).harmed != {}
  }

  lemma HarmLater(s: State, e: Event)
    requires Inv(s) && GlyphRuns.Enabled(s, e) && !Doubles(s, e) && CanHarm(Step(s, e))
    ensures CanHarm(s)
  {
    hide Inv, Step, GlyphRuns.Enabled, Doubles;
    var rest :| Legal(Step(s, e), rest) && !DoublesIn(Step(s, e), rest) && Final(Step(s, e), rest).harmed != {};
    var es := [e] + rest;
    assert es[1..] == rest;
    assert Legal(s, es) && !DoublesIn(s, es) && Final(s, es).harmed != {};
  }

  lemma HarmNow(s: State)
    requires Inv(s) && s.harmed != {}
    ensures CanHarm(s)
  {
    assert Legal(s, []) && !DoublesIn(s, []) && Final(s, []).harmed != {};
  }

  lemma {:induction false} Beyond(names: set<nat>) returns (n: nat)
    ensures forall x {:trigger x in names} :: x in names ==> x < n
  {
    if names == {} {
      n := 0;
    } else {
      var x :| x in names;
      var m := Beyond(names - {x});
      n := if m <= x then x + 1 else m;
      assert forall y :: y in names ==> y == x || y in names - {x};
    }
  }
}
