/**
 The glyphs the server keeps: fonts, their shared memory caches in order of use, and the
 answers being prepared, which pin the caches they point into.
 */
module GlyphCache {
  import opened GlyphPacking
  import opened Lists

  /** sizeof(Font_Cache) and sizeof(Glyph_Entry) with 64-bit pointers. */
  const CACHE_SIZE := 64
  const GLYPH_SIZE := 72

  const MAX_FONT_USAGE := 10 * 4 * 1024

  type Shm = nat
  type FontId = nat

  /** A Font_Cache; it is named by its segment, and counts its glyphs beside their list. */
  datatype Cache = Cache(font: FontId, cap: nat, usage: nat, inuse: int, nglyphs: nat, glyphs: seq<Glyph>)

  /**
   A Glyph_Entry, as lists, tables and answers point to it. Its name is the cache it was made
   for and its place in that cache's list, which only grows until the cache is freed; what it
   holds never changes.
   */
  datatype Answer = Answer(shm: Shm, pos: nat, glyph: Glyph)

  datatype Font = Font(unused: bool, caches: seq<Shm>, last: Option<Shm>, table: map<nat, Answer>)

  datatype Req = Req(font: FontId, glyphs: seq<nat>, current: nat, render: seq<nat>, answer: seq<Answer>)

  /**
   The load in the hands of the one font slave, with the cache it goes on in, until its
   result has `landed` in the caches.
   */
  datatype Work = Work(req: Req, start: Option<Shm>, usage: nat, landed: bool)

  /**
   `heap` has the glyph entries that are allocated, and `harmed` is the history of those that
   were freed while a list still had them: whoever follows it there reads freed memory. Fonts
   are named by their entries, so a name is used again only when nobody points to it.
   */
  datatype State = State(
    caches: map<Shm, Cache>, lru: seq<Shm>, fonts: map<FontId, Font>, mem: int,
    pending: seq<Req>, work: Option<Work>, heap: set<Answer>, harmed: set<Answer>)

  // ----- sizes ----------------------------------------------------------------------

  /** What a cache adds to font_mem_usage. */
  function SizeOf(c: Cache): nat {
    CACHE_SIZE + c.cap + c.nglyphs * GLYPH_SIZE
  }

  function Mem(lru: seq<Shm>, caches: map<Shm, Cache>): nat {
    if lru == [] then 0
    else (if lru[0] in caches then SizeOf(caches[lru[0]]) else 0) + Mem(lru[1..], caches)
  }

  lemma {:induction false} MemSame(lru: seq<Shm>, a: map<Shm, Cache>, b: map<Shm, Cache>)
    requires forall x {:trigger x in lru} :: x in lru ==> x in a && x in b && SizeOf(a[x]) == SizeOf(b[x])
    ensures Mem(lru, a) == Mem(lru, b)
  {
    if lru != [] {
      assert lru[0] in lru;
      assert forall x {:trigger x in lru[1..]} :: x in lru[1..] ==> x in lru;
      MemSame(lru[1..], a, b);
    }
  }

  lemma {:induction false} MemAppend(lru: seq<Shm>, x: Shm, caches: map<Shm, Cache>)
    requires x in caches
    ensures Mem(lru + [x], caches) == Mem(lru, caches) + SizeOf(caches[x])
  {
    if lru == [] {
      assert (lru + [x])[1..] == [];
    } else {
      assert (lru + [x])[1..] == lru[1..] + [x];
      MemAppend(lru[1..], x, caches);
    }
  }

  lemma {:induction false} MemWithout(lru: seq<Shm>, x: Shm, caches: map<Shm, Cache>)
    requires NoDup(lru) && x in lru && x in caches
    ensures Mem(Without(lru, {x}), caches) == Mem(lru, caches) - SizeOf(caches[x])
  {
    if lru[0] == x {
      WithoutNone(lru[1..], {x});
    } else {
      MemWithout(lru[1..], x, caches);
      var w := Without(lru[1..], {x});
      assert ([lru[0]] + w)[1..] == w;
    }
  }

  /** One cache of the list grows. */
  lemma {:induction false} MemGrows(lru: seq<Shm>, x: Shm, caches: map<Shm, Cache>, c: Cache)
    requires NoDup(lru) && x in lru && x in caches
    ensures Mem(lru, caches[x := c]) == Mem(lru, caches) - SizeOf(caches[x]) + SizeOf(c)
  {
    if lru[0] == x {
      MemElsewhere(lru[1..], x, caches, c);
    } else {
      MemGrows(lru[1..], x, caches, c);
    }
  }

  lemma {:induction false} MemElsewhere(lru: seq<Shm>, x: Shm, caches: map<Shm, Cache>, c: Cache)
    requires x !in lru
    ensures Mem(lru, caches[x := c]) == Mem(lru, caches)
  {
    if lru != [] { MemElsewhere(lru[1..], x, caches, c); }
  }

  // ----- pins -----------------------------------------------------------------------

  function Pins(answer: seq<Answer>, c: Shm): nat {
    if answer == [] then 0 else Pins(answer[1..], c) + if answer[0].shm == c then 1 else 0
  }

  function PinsOf(reqs: seq<Req>, c: Shm): nat {
    if reqs == [] then 0 else PinsOf(reqs[1..], c) + Pins(reqs[0].answer, c)
  }

  /** How many answers being prepared point into the cache. */
  function Pinned(s: State, c: Shm): nat {
    PinsOf(s.pending, c) + if s.work.Some? then Pins(s.work.value.req.answer, c) else 0
  }

  lemma {:induction false} PinsJoin(a: seq<Answer>, b: seq<Answer>, c: Shm)
    ensures Pins(a + b, c) == Pins(a, c) + Pins(b, c)
  {
    if a == [] {
      assert a + b == b;
    } else {
      assert (a + b)[1..] == a[1..] + b;
      PinsJoin(a[1..], b, c);
    }
  }

  lemma {:induction false} PinsOfJoin(a: seq<Req>, b: seq<Req>, c: Shm)
    ensures PinsOf(a + b, c) == PinsOf(a, c) + PinsOf(b, c)
  {
    if a == [] {
      assert a + b == b;
    } else {
      assert (a + b)[1..] == a[1..] + b;
      PinsOfJoin(a[1..], b, c);
    }
  }

  // ----- invariant ------------------------------------------------------------------

  /** Every cache is packed from its start, within its segment, counted, and pinned often enough. */
  ghost predicate CachesOk(s: State) {
    forall c {:trigger s.caches[c]} :: c in s.caches ==>
      && Packed(0, s.caches[c].glyphs, s.caches[c].usage)
      && s.caches[c].usage <= s.caches[c].cap && s.caches[c].nglyphs == |s.caches[c].glyphs|
      && Pinned(s, c) <= s.caches[c].inuse
  }

  ghost predicate LruOk(s: State) {
    && NoDup(s.lru)
    && (forall c {:trigger c in s.lru} {:trigger c in s.caches} :: c in s.lru <==> c in s.caches)
    && s.mem == Mem(s.lru, s.caches)
  }

  /** The entry is in the list of its cache. */
  predicate Linked(s: State, a: Answer) {
    a.shm in s.caches && a.pos < |s.caches[a.shm].glyphs| && s.caches[a.shm].glyphs[a.pos] == a.glyph
  }

  ghost predicate AllLinked(s: State, answer: seq<Answer>) {
    forall a {:trigger a in answer} :: a in answer ==> Linked(s, a)
  }

  ghost predicate ReqsLinked(s: State, reqs: seq<Req>) {
    forall r {:trigger r in reqs} :: r in reqs ==> AllLinked(s, r.answer) && r.current <= |r.glyphs|
  }

  ghost predicate AnswersOk(s: State) {
    ReqsLinked(s, s.pending) && (s.work.Some? ==> AllLinked(s, s.work.value.req.answer))
  }

  /** A font's list has its caches, its table only glyphs of theirs. */
  ghost predicate FontOk(s: State, f: FontId)
    requires f in s.fonts
  {
    && NoDup(s.fonts[f].caches)
    && (forall c {:trigger c in s.fonts[f].caches} :: c in s.fonts[f].caches ==> c in s.caches && s.caches[c].font == f)
    && (s.fonts[f].last.Some? ==> s.fonts[f].last.value in s.fonts[f].caches)
    && (forall g {:trigger s.fonts[f].table[g]} :: g in s.fonts[f].table ==>
          Linked(s, s.fonts[f].table[g]) && s.fonts[f].table[g].glyph.index == g
          && s.fonts[f].table[g].shm in s.fonts[f].caches)
  }

  ghost predicate FontsOk(s: State) {
    && (forall f {:trigger FontOk(s, f)} :: f in s.fonts ==> FontOk(s, f))
    && (forall c {:trigger s.caches[c]} :: c in s.caches ==>
          s.caches[c].font in s.fonts && c in s.fonts[s.caches[c].font].caches)
  }

  /** While the font is there, the cache the slave goes on in is still its last, as full as the slave was told. */
  ghost predicate WorkOk(s: State) {
    s.work.Some? && !s.work.value.landed ==>
      var w := s.work.value;
      && (w.req.font in s.fonts ==> s.fonts[w.req.font].last == w.start)
      && (w.start.Some? ==> w.req.font in s.fonts && w.start.value in s.caches && s.caches[w.start.value].usage == w.usage)
  }

  ghost predicate Inv(s: State) {
    CachesOk(s) && LruOk(s) && AnswersOk(s) && FontsOk(s) && WorkOk(s)
  }

  /** No slave is relying on what a cache looks like. */
  predicate Landed(s: State) {
    s.work.Some? ==> s.work.value.landed
  }

  // ----- eviction -------------------------------------------------------------------

  /** Whether _font_shm_lru_flush may free the cache. */
  predicate Evictable(s: State, c: Shm)
    requires c in s.caches && s.caches[c].font in s.fonts
  {
    s.fonts[s.caches[c].font].unused && s.caches[c].inuse == 0
  }

  /** _font_shm_free: with its last cache the font itself goes. */
  function Free(s: State, c: Shm): State
    requires c in s.caches && s.caches[c].font in s.fonts
  {
    var f := s.caches[c].font;
    var fe := s.fonts[f];
    var left := Without(fe.caches, {c});
    var fe' := fe.(caches := left, last := if fe.last == Some(c) then None else fe.last,
                   table := Unlisted(fe.table, s.caches[c].glyphs));
    s.(caches := s.caches - {c}, lru := Without(s.lru, {c}), mem := s.mem - SizeOf(s.caches[c]),
       fonts := if left == [] then s.fonts - {f} else s.fonts[f := fe'],
       heap := s.heap - Deleted(fe.table, s.caches[c].glyphs),
       harmed := s.harmed + Wronged(fe.table, c, 0, s.caches[c].glyphs))
  }

  /** What fash_gl_del frees for each glyph of a list: the entry the table has for its index. */
  function Deleted(table: map<nat, Answer>, gs: seq<Glyph>): set<Answer> {
    if gs == [] then {}
    else (if gs[0].index in table then {table[gs[0].index]} else {}) + Deleted(table - {gs[0].index}, gs[1..])
  }

  /** Those of them that are not the entry just taken off the list of c, but still in some list. */
  function Wronged(table: map<nat, Answer>, c: Shm, pos: nat, gs: seq<Glyph>): set<Answer>
    decreases gs
  {
    if gs == [] then {}
    else (if gs[0].index in table && table[gs[0].index] != Answer(c, pos, gs[0]) then {table[gs[0].index]} else {})
         + Wronged(table - {gs[0].index}, c, pos + 1, gs[1..])
  }

  /** The table after fash_gl_del for each glyph. */
  function Unlisted(table: map<nat, Answer>, gs: seq<Glyph>): (t: map<nat, Answer>)
    ensures forall g {:trigger g in t} :: g in t ==> g in table && t[g] == table[g]
    ensures forall g {:trigger g in gs} :: g in gs ==> g.index !in t
  {
    if gs == [] then table
    else
      var t := Unlisted(table - {gs[0].index}, gs[1..]);
      assert forall g :: g in gs ==> g == gs[0] || g in gs[1..];
      t
  }

  /** _font_shm_lru_flush, with `rest` of the list to go. */
  function Flush(s: State, rest: seq<Shm>): State
    requires Inv(s) && Landed(s) && NoDup(rest) && forall c {:trigger c in rest} :: c in rest ==> c in s.lru
    decreases rest
  {
    if rest == [] || s.mem <= MAX_FONT_USAGE then s
    else
      assert rest[0] in rest && forall c {:trigger c in rest[1..]} :: c in rest[1..] ==> c in rest;
      LruCache(s, rest[0]);
      if Evictable(s, rest[0]) then
        FreeKeeps(s, rest[0]);
        Flush(Free(s, rest[0]), rest[1..])
      else Flush(s, rest[1..])
  }

  lemma LruCache(s: State, c: Shm)
    requires Inv(s) && c in s.lru
    ensures c in s.caches && s.caches[c].font in s.fonts
  {
    assert c in s.caches;
    assert s.caches[c].font in s.fonts;
  }

  lemma {:induction false} NoPins(answer: seq<Answer>, c: Shm, a: Answer)
    requires Pins(answer, c) == 0 && a in answer
    ensures a.shm != c
  {
    if a != answer[0] { NoPins(answer[1..], c, a); }
  }

  lemma {:induction false} NoPinsOf(reqs: seq<Req>, c: Shm, r: Req)
    requires PinsOf(reqs, c) == 0 && r in reqs
    ensures Pins(r.answer, c) == 0
  {
    if r != reqs[0] { NoPinsOf(reqs[1..], c, r); }
  }

  lemma FreeAnswers(s: State, c: Shm)
    requires AnswersOk(s) && c in s.caches && s.caches[c].font in s.fonts && Pinned(s, c) == 0
    ensures AnswersOk(Free(s, c))
  {
    var s' := Free(s, c);
    forall r, a | r in s.pending && a in r.answer ensures Linked(s', a) {
      NoPinsOf(s.pending, c, r);
      NoPins(r.answer, c, a);
      assert Linked(s, a);
    }
    if s.work.Some? {
      forall a | a in s.work.value.req.answer ensures Linked(s', a) {
        NoPins(s.work.value.req.answer, c, a);
        assert Linked(s, a);
      }
    }
  }

  lemma FreeLru(s: State, c: Shm)
    requires LruOk(s) && c in s.caches && s.caches[c].font in s.fonts
    ensures LruOk(Free(s, c))
  {
    var s' := Free(s, c);
    WithoutNoDup(s.lru, {c});
    assert c in s.lru;
    MemWithout(s.lru, c, s.caches);
    MemSame(s'.lru, s.caches, s'.caches);
  }

  lemma FreeFont(s: State, c: Shm, x: FontId)
    requires FontsOk(s) && c in s.caches && s.caches[c].font in s.fonts && x in Free(s, c).fonts
    ensures x in s.fonts && FontOk(Free(s, c), x)
  {
    hide Unlisted, Deleted, Wronged;
    var s' := Free(s, c);
    var f := s.caches[c].font;
    assert FontOk(s, x);
    if x == f {
      WithoutNoDup(s.fonts[f].caches, {c});
      forall g | g in s'.fonts[f].table
        ensures Linked(s', s'.fonts[f].table[g]) && s'.fonts[f].table[g].glyph.index == g
                && s'.fonts[f].table[g].shm in s'.fonts[f].caches
      {
        var a := s.fonts[f].table[g];
        assert Linked(s, a);
        assert a.shm != c by { assert a.glyph in s.caches[a.shm].glyphs && a.glyph.index == g; }
      }
    } else {
      forall g | g in s'.fonts[x].table ensures Linked(s', s'.fonts[x].table[g]) {
        var a := s.fonts[x].table[g];
        assert Linked(s, a) && a.shm in s.fonts[x].caches && s.caches[a.shm].font == x;
      }
    }
  }

  lemma FreeFonts(s: State, c: Shm)
    requires FontsOk(s) && c in s.caches && s.caches[c].font in s.fonts
    ensures FontsOk(Free(s, c))
  {
    hide Unlisted, Deleted, Wronged, FontOk;
    var s' := Free(s, c);
    var f := s.caches[c].font;
    forall x | x in s'.fonts ensures FontOk(s', x) { FreeFont(s, c, x); }
    forall d | d in s'.caches ensures s'.caches[d].font in s'.fonts && d in s'.fonts[s'.caches[d].font].caches {
      assert s.caches[d] == s'.caches[d];
      assert d in s.fonts[s.caches[d].font].caches;
      assert s.caches[d].font == f ==> d in Without(s.fonts[f].caches, {c});
    }
  }

  /** Freeing an unpinned cache leaves every answer, table and list in order. */
  lemma FreeKeeps(s: State, c: Shm)
    requires Inv(s) && Landed(s) && c in s.lru && c in s.caches && s.caches[c].font in s.fonts && Evictable(s, c)
    ensures Inv(Free(s, c)) && Landed(Free(s, c)) && Free(s, c).lru == Without(s.lru, {c})
  {
    hide AnswersOk, LruOk, FontsOk, Packed;
    var s' := Free(s, c);
    assert Pinned(s, c) == 0;
    FreeAnswers(s, c);
    FreeLru(s, c);
    FreeFonts(s, c);
    forall d | d in s'.caches ensures s'.caches[d] == s.caches[d] && Pinned(s', d) == Pinned(s, d) {}
  }

  /** What a flush leaves as it was, and which caches it may take. */
  ghost predicate Kept(s: State, t: State) {
    && t.pending == s.pending && t.work == s.work
    && (forall c {:trigger t.caches[c]} {:trigger c in t.caches} :: c in t.caches ==> c in s.caches && t.caches[c] == s.caches[c])
    && (forall f {:trigger t.fonts[f]} {:trigger f in t.fonts} :: f in t.fonts ==>
          f in s.fonts && t.fonts[f].unused == s.fonts[f].unused)
    && (forall c {:trigger s.caches[c]} :: c in s.caches && c !in t.caches ==>
          s.caches[c].font in s.fonts && Evictable(s, c))
  }

  lemma FreeKept(s: State, c: Shm)
    requires Inv(s) && c in s.caches && s.caches[c].font in s.fonts && Evictable(s, c)
    ensures Kept(s, Free(s, c))
  {}

  lemma KeptTwice(s: State, t: State, u: State)
    requires Inv(s) && Inv(t) && Kept(s, t) && Kept(t, u)
    ensures Kept(s, u)
  {
    hide Inv;
    forall c | c in s.caches && c !in u.caches ensures s.caches[c].font in s.fonts && Evictable(s, c) {
      if c in t.caches { assert t.caches[c].font in s.fonts; }
    }
  }

  /**
   A flush frees only caches of unused fonts that no answer pins; afterwards the usage is
   within its limit, or no such cache is left among those it looked at.
   */
  lemma {:induction false} FlushOutcome(s: State, rest: seq<Shm>)
    requires Inv(s) && Landed(s) && NoDup(rest) && forall c {:trigger c in rest} :: c in rest ==> c in s.lru
    ensures var t := Flush(s, rest);
            && Inv(t) && Landed(t) && Kept(s, t)
            && (t.mem <= MAX_FONT_USAGE
                || forall c {:trigger c in rest} :: c in rest && c in t.caches && t.caches[c].font in t.fonts ==> !Evictable(t, c))
            && (forall c {:trigger c in t.caches} :: c in s.caches && c !in rest ==> c in t.caches)
    decreases rest
  {
    hide Inv, Free;
    if rest != [] && s.mem > MAX_FONT_USAGE {
      assert rest[0] in rest && forall c {:trigger c in rest[1..]} :: c in rest[1..] ==> c in rest;
      LruCache(s, rest[0]);
      var s1 := if Evictable(s, rest[0]) then Free(s, rest[0]) else s;
      if Evictable(s, rest[0]) {
        FreeKeeps(s, rest[0]);
        FreeKept(s, rest[0]);
        FreeOnly(s, rest[0]);
      }
      FlushOutcome(s1, rest[1..]);
      var t := Flush(s1, rest[1..]);
      KeptTwice(s, s1, t);
      if t.mem > MAX_FONT_USAGE {
        forall c | c in rest && c in t.caches && t.caches[c].font in t.fonts ensures !Evictable(t, c) {
          if c !in rest[1..] { assert c == rest[0] && c in s1.caches; }
        }
      }
    }
  }

  lemma FreeOnly(s: State, c: Shm)
    requires c in s.caches && s.caches[c].font in s.fonts
    ensures forall d {:trigger d in Free(s, c).caches} :: d in Free(s, c).caches <==> d in s.caches && d != c
  {}

  /** Of the caches that may go, those used longest ago go first. */
  lemma {:induction false} FlushOldestFirst(s: State, rest: seq<Shm>, i: nat, j: nat)
    requires Inv(s) && Landed(s) && NoDup(rest) && forall c {:trigger c in rest} :: c in rest ==> c in s.lru
    requires i <= j < |rest| && rest[i] in s.caches && s.caches[rest[i]].font in s.fonts && Evictable(s, rest[i])
    requires rest[j] !in Flush(s, rest).caches && rest[j] in s.caches
    ensures rest[i] !in Flush(s, rest).caches
    decreases rest
  {
    hide Inv, Free;
    assert s.mem > MAX_FONT_USAGE;
    assert rest[0] in rest && forall c {:trigger c in rest[1..]} :: c in rest[1..] ==> c in rest;
    LruCache(s, rest[0]);
    var s1 := if Evictable(s, rest[0]) then Free(s, rest[0]) else s;
    if Evictable(s, rest[0]) {
      FreeKeeps(s, rest[0]);
      FreeKept(s, rest[0]);
      FreeOnly(s, rest[0]);
    }
    FlushOutcome(s1, rest[1..]);
    if i > 0 {
      assert rest[i] == rest[1..][i - 1] && rest[j] == rest[1..][j - 1];
      assert rest[i] in rest[1..] && rest[j] in rest[1..];
      StillEvictable(s, s1, rest[i]);
      FlushOldestFirst(s1, rest[1..], i - 1, j - 1);
    } else if Evictable(s, rest[0]) {
      assert rest[0] !in s1.caches;
    }
  }

  lemma StillEvictable(s: State, t: State, c: Shm)
    requires Inv(t) && Kept(s, t) && c in s.caches && s.caches[c].font in s.fonts && Evictable(s, c) && c in t.caches
    ensures t.caches[c].font in t.fonts && Evictable(t, c)
  {}
}
