/**
 Exactly what a flush takes: which caches, and with them which fonts.
 */
module GlyphFlush {
  import opened GlyphCache
  import opened GlyphPacking
  import opened GlyphRequests
  import opened GlyphRuns
  import opened Lists

  /** The memory the caches of the list that may go give back. */
  function EvictableSize(s: State, q: seq<Shm>): nat
    requires forall c {:trigger c in q} :: c in q ==> c in s.caches && s.caches[c].font in s.fonts
  {
    if q == [] then 0
    else (assert q[0] in q; assert forall c :: c in q[1..] ==> c in q;
          (if Evictable(s, q[0]) then SizeOf(s.caches[q[0]]) else 0) + EvictableSize(s, q[1..]))
  }

  /** The part of a list before x. */
  function Before(q: seq<Shm>, x: Shm): (r: seq<Shm>)
    ensures forall c {:trigger c in r} :: c in r ==> c in q
  {
    if q == [] || q[0] == x then [] else [q[0]] + Before(q[1..], x)
  }

  /** What freeing c does not change for the others. */
  lemma {:induction false} OthersAlike(s: State, c: Shm, q: seq<Shm>)
    requires Inv(s) && Landed(s) && c in s.lru && c in s.caches && s.caches[c].font in s.fonts && Evictable(s, c)
    requires c !in q && forall x {:trigger x in q} :: x in q ==> x in s.caches
    ensures forall x {:trigger x in q} :: x in q ==>
              && x in Free(s, c).caches && s.caches[x].font in s.fonts && s.caches[x].font in Free(s, c).fonts
              && Free(s, c).caches[x] == s.caches[x] && (Evictable(Free(s, c), x) <==> Evictable(s, x))
    ensures EvictableSize(Free(s, c), q) == EvictableSize(s, q)
  {
    FreeKeeps(s, c);
    FreeKept(s, c);
    FreeOnly(s, c);
    forall x | x in q
      ensures x in Free(s, c).caches && s.caches[x].font in s.fonts && s.caches[x].font in Free(s, c).fonts
      ensures Free(s, c).caches[x] == s.caches[x] && (Evictable(Free(s, c), x) <==> Evictable(s, x))
    {
      HasFont(s, x);
      HasFont(Free(s, c), x);
    }
    hide Inv, Free, Landed, Evictable, SizeOf;
    if q != [] {
      assert q[0] in q && forall x :: x in q[1..] ==> x in q;
      OthersAlike(s, c, q[1..]);
    }
  }

  lemma HasFont(s: State, c: Shm)
    requires Inv(s) && c in s.caches
    ensures s.caches[c].font in s.fonts && c in s.lru
  {
    assert s.caches[c].font in s.fonts;
  }

  /**
   A cache stays if and only if it may not go, or the memory was within its limit already
   without the caches before it that may.
   */
  lemma {:induction false} FlushIs(s: State, rest: seq<Shm>, x: Shm)
    requires Inv(s) && Landed(s) && NoDup(rest) && forall c {:trigger c in rest} :: c in rest ==> c in s.lru
    requires x in rest
    ensures forall c {:trigger c in rest} :: c in rest ==> c in s.caches && s.caches[c].font in s.fonts
    ensures x in Flush(s, rest).caches
            <==> !Evictable(s, x) || s.mem - EvictableSize(s, Before(rest, x)) <= MAX_FONT_USAGE
    decreases rest
  {
    forall c | c in rest ensures c in s.caches && s.caches[c].font in s.fonts { LruCache(s, c); }
    hide Inv, Free, Landed, Evictable, SizeOf;
    if s.mem > MAX_FONT_USAGE {
      var r := rest[0];
      assert r in rest && forall c {:trigger c in rest[1..]} :: c in rest[1..] ==> c in rest;
      var s1 := if Evictable(s, r) then Free(s, r) else s;
      if Evictable(s, r) {
        FreeKeeps(s, r);
        FreeGone(s, r);
        forall c | c in rest[1..] ensures c in s1.lru { StaysListed(s, r, c); }
      }
      if x == r {
        FlushOutcome(s1, rest[1..]);
        assert x !in s1.caches ==> x !in Flush(s1, rest[1..]).caches;
      } else {
        FlushIs(s1, rest[1..], x);
        if Evictable(s, r) {
          OthersAlike(s, r, rest[1..]);
          OthersAlike(s, r, Before(rest[1..], x));
        }
        assert Before(rest, x)[1..] == Before(rest[1..], x);
      }
    }
  }

  lemma FreeGone(s: State, c: Shm)
    requires c in s.caches && s.caches[c].font in s.fonts
    ensures c !in Free(s, c).caches && Free(s, c).mem == s.mem - SizeOf(s.caches[c])
    ensures Free(s, c).lru == Without(s.lru, {c})
  {}

  lemma StaysListed(s: State, c: Shm, x: Shm)
    requires c in s.caches && s.caches[c].font in s.fonts && x in s.lru && x != c
    ensures x in Free(s, c).lru
  {}

  // ----- fonts ----------------------------------------------------------------------

  /** Fonts without caches stay so, fonts with caches go with the last. */
  ghost predicate FontsFollow(s: State, t: State) {
    && (forall f {:trigger t.fonts[f]} {:trigger f in t.fonts} :: f in t.fonts ==>
          f in s.fonts && (t.fonts[f].caches == [] <==> s.fonts[f].caches == []))
    && (forall f {:trigger s.fonts[f]} :: f in s.fonts && f !in t.fonts ==> s.fonts[f].caches != [])
  }

  lemma FreeFollows(s: State, c: Shm)
    requires Inv(s) && c in s.caches && s.caches[c].font in s.fonts
    ensures FontsFollow(s, Free(s, c))
  {
    hide CachesOk, LruOk, AnswersOk, WorkOk, Unlisted, Without;
    assert c in s.fonts[s.caches[c].font].caches;
  }

  lemma {:induction false} FlushFollows(s: State, rest: seq<Shm>)
    requires Inv(s) && Landed(s) && NoDup(rest) && forall c {:trigger c in rest} :: c in rest ==> c in s.lru
    ensures FontsFollow(s, Flush(s, rest))
    decreases rest
  {
    hide Inv, Free, Landed, Evictable;
    if rest != [] && s.mem > MAX_FONT_USAGE {
      assert rest[0] in rest && forall c {:trigger c in rest[1..]} :: c in rest[1..] ==> c in rest;
      LruCache(s, rest[0]);
      if Evictable(s, rest[0]) {
        FreeKeeps(s, rest[0]);
        FreeGone(s, rest[0]);
        FreeFollows(s, rest[0]);
        FlushFollows(Free(s, rest[0]), rest[1..]);
      } else {
        FlushFollows(s, rest[1..]);
      }
    }
  }

  /** Whether a flush takes the cache, as can be told before it. */
  ghost predicate Goes(s: State, c: Shm)
    requires Inv(s) && c in s.caches
  {
    HasFont(s, c);
    forall x | x in s.lru ensures x in s.caches && s.caches[x].font in s.fonts { LruCache(s, x); }
    Evictable(s, c) && s.mem - EvictableSize(s, Before(s.lru, c)) > MAX_FONT_USAGE
  }

  /** A flush of the whole list takes exactly the caches that can be told before it. */
  lemma FlushTakes(s: State, c: Shm)
    requires Inv(s) && Landed(s) && c in s.caches
    ensures NoDup(s.lru) && (c !in Flush(s, s.lru).caches <==> Goes(s, c))
  {
    HasFont(s, c);
    FlushIs(s, s.lru, c);
    hide Inv, Flush, Evictable;
  }

  lemma CachesOfFont(s: State, f: FontId)
    requires Inv(s) && f in s.fonts
    ensures forall c {:trigger c in s.fonts[f].caches} :: c in s.fonts[f].caches <==> c in s.caches && s.caches[c].font == f
  {
    assert FontOk(s, f);
  }

  /** A flush frees a font's entry if and only if the font has caches and it takes every one of them. */
  lemma FontGoesIff(s: State, f: FontId)
    requires Inv(s) && Landed(s) && f in s.fonts
    ensures NoDup(s.lru)
    ensures forall c {:trigger c in s.fonts[f].caches} :: c in s.fonts[f].caches ==> c in s.caches
    ensures f !in Flush(s, s.lru).fonts
            <==> s.fonts[f].caches != [] && forall c {:trigger c in s.fonts[f].caches} :: c in s.fonts[f].caches ==> Goes(s, c)
  {
    CachesOfFont(s, f);
    LruNoDup(s);
    FlushOutcome(s, s.lru);
    FlushFollows(s, s.lru);
    hide Flush, Goes;
    var t := Flush(s, s.lru);
    forall c | c in s.fonts[f].caches ensures c !in t.caches <==> Goes(s, c) { FlushTakes(s, c); }
    if f in t.fonts {
      CachesOfFont(t, f);
      if t.fonts[f].caches != [] { assert t.fonts[f].caches[0] in t.fonts[f].caches; }
    } else {
      forall c | c in s.fonts[f].caches ensures c !in t.caches {
        if c in t.caches { HasFont(t, c); }
      }
    }
  }
}
