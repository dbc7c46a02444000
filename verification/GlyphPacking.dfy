/**
 How a font slave packs rendered glyphs into shared memory segments. What the font library
 does with a glyph is given: `sizes` has the bitmap size of every glyph that can be loaded.
 */
module GlyphPacking {

  const MIN_GLYPHS := 50
  const MAX_CACHE_SIZE := 1 * 1024 * 1024

  datatype Glyph = Glyph(index: nat, offset: nat, size: nat)

  /** Slave_Msg_Font_Cache: a segment and the glyphs put into it by one load. */
  datatype Segment = Segment(shm: nat, cap: nat, usage: nat, glyphs: seq<Glyph>)

  datatype Outcome = Done(segs: seq<Segment>, shmSize: nat, nextShm: nat) | DividedByZero

  /** cserve2_shm_size_normalize */
  function Normalize(size: nat, page: nat): nat
    requires 0 < page
  {
    (size + page - 1) / page * page
  }

  /** _font_slave_int_shm_prev_calculate */
  function PrevCalculate(size: nat, nglyphs: nat, page: nat): nat
    requires 0 < page && 0 < nglyphs
  {
    var newSize := Normalize(MIN_GLYPHS * (size / nglyphs), page);
    if newSize > MAX_CACHE_SIZE then MAX_CACHE_SIZE else newSize
  }

  /** The glyphs lie one after the other from offset `from` up to `to`. */
  predicate Packed(from: nat, gs: seq<Glyph>, to: nat)
    decreases gs
  {
    if gs == [] then from == to else gs[0].offset == from && Packed(from + gs[0].size, gs[1..], to)
  }

  lemma {:induction false} PackedJoin(a: nat, xs: seq<Glyph>, b: nat, ys: seq<Glyph>, c: nat)
    requires Packed(a, xs, b) && Packed(b, ys, c)
    ensures Packed(a, xs + ys, c)
    decreases xs
  {
    if xs == [] {
      assert xs + ys == ys;
    } else {
      assert (xs + ys)[1..] == xs[1..] + ys;
      PackedJoin(a + xs[0].size, xs[1..], b, ys, c);
    }
  }

  /** Packed glyphs are inside their bounds, in order, and do not overlap. */
  lemma {:induction false} PackedApart(from: nat, gs: seq<Glyph>, to: nat, i: nat, j: nat)
    requires Packed(from, gs, to) && i <= j < |gs|
    ensures from <= gs[i].offset && gs[j].offset + gs[j].size <= to
    ensures i < j ==> gs[i].offset + gs[i].size <= gs[j].offset
    decreases gs
  {
    if |gs| > 1 {
      PackedApart(from + gs[0].size, gs[1..], to, if i == 0 then 0 else i - 1, if j == 0 then 0 else j - 1);
    }
  }

  function Total(gs: seq<Glyph>): nat {
    if gs == [] then 0 else gs[0].size + Total(gs[1..])
  }

  lemma {:induction false} PackedTotal(from: nat, gs: seq<Glyph>, to: nat)
    requires Packed(from, gs, to)
    ensures to == from + Total(gs)
    decreases gs
  {
    if gs != [] { PackedTotal(from + gs[0].size, gs[1..], to); }
  }

  // ----- the loop of _font_slave_glyphs_load ----------------------------------------

  /**
   `segs` ends with the segment being filled when `open`; `total` is the number of glyphs
   the slave believes that segment has.
   */
  function Load(segs: seq<Segment>, open: bool, todo: seq<nat>, total: nat, shmSize: nat, nextShm: nat,
                sizes: map<nat, nat>, page: nat): Outcome
    requires 0 < page && (open ==> segs != [])
    decreases |todo|, if !open then 1 else if total == 0 then 0 else 2
  {
    if todo == [] then Done(segs, shmSize, nextShm)
    else if !open then
      Load(segs + [Segment(nextShm, Normalize(shmSize, page), 0, [])], true, todo, 0, shmSize, nextShm + 1, sizes, page)
    else if todo[0] !in sizes then
      Load(segs, true, todo[1..], total + 1, shmSize, nextShm, sizes, page)
    else
      var c := segs[|segs| - 1];
      if c.usage + sizes[todo[0]] > c.cap then
        if total == 0 then DividedByZero
        else Load(segs, false, todo, total, PrevCalculate(c.usage, total, page), nextShm, sizes, page)
      else
        Load(segs[..|segs| - 1] + [Rendered(c, todo[0], sizes[todo[0]])], true, todo[1..], total + 1,
             shmSize, nextShm, sizes, page)
  }

  /** _font_slave_glyph_render, when there is room. */
  function Rendered(c: Segment, index: nat, size: nat): Segment {
    c.(usage := c.usage + size, glyphs := c.glyphs + [Glyph(index, c.usage, size)])
  }

  /** The glyphs of all segments in order, with their sizes. */
  function Drawn(segs: seq<Segment>): seq<(nat, nat)> {
    if segs == [] then [] else Drawn(segs[..|segs| - 1]) + DrawnIn(segs[|segs| - 1].glyphs)
  }

  function DrawnIn(gs: seq<Glyph>): seq<(nat, nat)> {
    if gs == [] then [] else DrawnIn(gs[..|gs| - 1]) + [(gs[|gs| - 1].index, gs[|gs| - 1].size)]
  }

  /** The glyphs asked for that can be loaded, with their sizes. */
  function Loadable(todo: seq<nat>, sizes: map<nat, nat>): seq<(nat, nat)> {
    if todo == [] then []
    else (if todo[0] in sizes then [(todo[0], sizes[todo[0]])] else []) + Loadable(todo[1..], sizes)
  }

  /** Segment k was filled from `from` (the first one) or from its start, and is not overfull. */
  predicate SegmentOk(c: Segment, from: nat) {
    Packed(from, c.glyphs, c.usage) && c.usage <= c.cap
  }

  ghost predicate SegmentsOk(segs: seq<Segment>, from: nat) {
    segs == [] || (SegmentOk(segs[0], from) && SegmentsOk(segs[1..], 0))
  }

  lemma {:induction false} SegmentsAppend(segs: seq<Segment>, from: nat, c: Segment)
    requires SegmentsOk(segs, from) && SegmentOk(c, if segs == [] then from else 0)
    ensures SegmentsOk(segs + [c], from)
  {
    if segs == [] {
      assert (segs + [c])[1..] == [];
    } else {
      assert (segs + [c])[1..] == segs[1..] + [c];
      SegmentsAppend(segs[1..], 0, c);
    }
  }

  lemma {:induction false} SegmentsLast(segs: seq<Segment>, from: nat)
    requires SegmentsOk(segs, from) && segs != []
    ensures SegmentsOk(segs[..|segs| - 1], from)
    ensures SegmentOk(segs[|segs| - 1], if |segs| == 1 then from else 0)
  {
    if |segs| > 1 {
      SegmentsLast(segs[1..], 0);
      assert segs[..|segs| - 1][1..] == segs[1..][..|segs| - 2];
    }
  }

  lemma RenderedOk(c: Segment, from: nat, index: nat, size: nat)
    requires SegmentOk(c, from) && c.usage + size <= c.cap
    ensures SegmentOk(Rendered(c, index, size), from)
    ensures DrawnIn(Rendered(c, index, size).glyphs) == DrawnIn(c.glyphs) + [(index, size)]
  {
    PackedJoin(from, c.glyphs, c.usage, [Glyph(index, c.usage, size)], c.usage + size);
    assert (c.glyphs + [Glyph(index, c.usage, size)])[..|c.glyphs|] == c.glyphs;
  }

  /**
   A load that ends has put every glyph that can be loaded, in the order asked for, into
   its segments, each packed without gap or overlap and within its size.
   */
  lemma {:induction false} LoadPacks(segs: seq<Segment>, open: bool, todo: seq<nat>, total: nat, shmSize: nat,
                                     nextShm: nat, sizes: map<nat, nat>, page: nat, from: nat)
    requires 0 < page && (open ==> segs != []) && SegmentsOk(segs, from) && (segs == [] ==> from == 0)
    ensures var r := Load(segs, open, todo, total, shmSize, nextShm, sizes, page);
            r.Done? ==>
              && SegmentsOk(r.segs, from) && |segs| <= |r.segs| && nextShm <= r.nextShm
              && Drawn(r.segs) == Drawn(segs) + Loadable(todo, sizes)
              && (segs != [] ==> r.segs[0].shm == segs[0].shm && r.segs[0].cap == segs[0].cap)
    decreases |todo|, if !open then 1 else if total == 0 then 0 else 2
  {
    hide SegmentsOk, Rendered, Drawn, Normalize, PrevCalculate;
    if todo == [] {
      assert Drawn(segs) + [] == Drawn(segs);
    } else if !open {
      var c := Segment(nextShm, Normalize(shmSize, page), 0, []);
      OpenStep(segs, from, c);
      LoadPacks(segs + [c], true, todo, 0, shmSize, nextShm + 1, sizes, page, from);
    } else if todo[0] !in sizes {
      assert [] + Loadable(todo[1..], sizes) == Loadable(todo[1..], sizes);
      LoadPacks(segs, true, todo[1..], total + 1, shmSize, nextShm, sizes, page, from);
    } else {
      var n := |segs| - 1;
      var c := segs[n];
      var g := (todo[0], sizes[todo[0]]);
      if c.usage + g.1 > c.cap {
        if total != 0 {
          LoadPacks(segs, false, todo, total, PrevCalculate(c.usage, total, page), nextShm, sizes, page, from);
        }
      } else {
        RenderStep(segs, from, g.0, g.1);
        LoadPacks(segs[..n] + [Rendered(c, g.0, g.1)], true, todo[1..], total + 1, shmSize, nextShm, sizes, page, from);
        assert Drawn(segs) + [g] + Loadable(todo[1..], sizes) == Drawn(segs) + ([g] + Loadable(todo[1..], sizes));
      }
    }
  }

  /** A new segment, with nothing in it yet. */
  lemma OpenStep(segs: seq<Segment>, from: nat, c: Segment)
    requires SegmentsOk(segs, from) && (segs == [] ==> from == 0) && c.usage == 0 && c.glyphs == []
    ensures SegmentsOk(segs + [c], from) && Drawn(segs + [c]) == Drawn(segs)
  {
    EmptySegment(c);
    hide SegmentOk, DrawnIn;
    SegmentsAppend(segs, from, c);
    assert (segs + [c])[..|segs|] == segs && Drawn(segs) + [] == Drawn(segs);
  }

  /** One more glyph in the last segment. */
  lemma RenderStep(segs: seq<Segment>, from: nat, index: nat, size: nat)
    requires SegmentsOk(segs, from) && segs != [] && segs[|segs| - 1].usage + size <= segs[|segs| - 1].cap
    ensures var n := |segs| - 1;
            var segs' := segs[..n] + [Rendered(segs[n], index, size)];
            && SegmentsOk(segs', from) && Drawn(segs') == Drawn(segs) + [(index, size)]
            && segs'[0].shm == segs[0].shm && segs'[0].cap == segs[0].cap
  {
    hide SegmentOk, Rendered, DrawnIn;
    var n := |segs| - 1;
    var c := segs[n];
    SegmentsLast(segs, from);
    RenderedOk(c, if n == 0 then from else 0, index, size);
    RenderedKeeps(c, index, size);
    SegmentsAppend(segs[..n], from, Rendered(c, index, size));
    var segs' := segs[..n] + [Rendered(c, index, size)];
    assert segs'[..n] == segs[..n];
    assert Drawn(segs[..n]) + (DrawnIn(c.glyphs) + [(index, size)])
        == Drawn(segs[..n]) + DrawnIn(c.glyphs) + [(index, size)];
  }

  lemma EmptySegment(c: Segment)
    requires c.usage == 0 && c.glyphs == []
    ensures SegmentOk(c, 0) && DrawnIn(c.glyphs) == []
  {}

  lemma RenderedKeeps(c: Segment, index: nat, size: nat)
    ensures Rendered(c, index, size).shm == c.shm && Rendered(c, index, size).cap == c.cap
  {}

  /** The segments are different ones. */
  ghost predicate Rising(segs: seq<Segment>, hi: nat) {
    && (forall i, j {:trigger segs[i].shm, segs[j].shm} :: 0 <= i < j < |segs| ==> segs[i].shm < segs[j].shm)
    && (forall i {:trigger segs[i].shm} :: 0 <= i < |segs| ==> segs[i].shm < hi)
  }

  /** New segments are newly allocated ones, each used once. */
  lemma {:induction false} LoadAllocates(segs: seq<Segment>, open: bool, todo: seq<nat>, total: nat, shmSize: nat,
                                         nextShm: nat, sizes: map<nat, nat>, page: nat)
    requires 0 < page && (open ==> segs != []) && Rising(segs, nextShm)
    ensures var r := Load(segs, open, todo, total, shmSize, nextShm, sizes, page);
            r.Done? ==>
              && Rising(r.segs, r.nextShm) && |segs| <= |r.segs|
              && (forall i {:trigger r.segs[i].shm} :: 0 <= i < |segs| ==> r.segs[i].shm == segs[i].shm)
              && (forall i {:trigger r.segs[i].shm} :: |segs| <= i < |r.segs| ==> nextShm <= r.segs[i].shm)
    decreases |todo|, if !open then 1 else if total == 0 then 0 else 2
  {
    hide Normalize, PrevCalculate;
    if todo == [] {
    } else if !open {
      var c := Segment(nextShm, Normalize(shmSize, page), 0, []);
      RisingAppend(segs, c, nextShm);
      LoadAllocates(segs + [c], true, todo, 0, shmSize, nextShm + 1, sizes, page);
    } else if todo[0] !in sizes {
      LoadAllocates(segs, true, todo[1..], total + 1, shmSize, nextShm, sizes, page);
    } else {
      var n := |segs| - 1;
      var c := segs[n];
      if c.usage + sizes[todo[0]] > c.cap {
        if total != 0 {
          LoadAllocates(segs, false, todo, total, PrevCalculate(c.usage, total, page), nextShm, sizes, page);
        }
      } else {
        var c' := Rendered(c, todo[0], sizes[todo[0]]);
        RisingReplace(segs, c', nextShm);
        LoadAllocates(segs[..n] + [c'], true, todo[1..], total + 1, shmSize, nextShm, sizes, page);
      }
    }
  }

  lemma RisingAppend(segs: seq<Segment>, c: Segment, hi: nat)
    requires Rising(segs, hi) && c.shm == hi
    ensures Rising(segs + [c], hi + 1)
  {}

  lemma RisingReplace(segs: seq<Segment>, c: Segment, hi: nat)
    requires Rising(segs, hi) && segs != [] && c.shm == segs[|segs| - 1].shm
    ensures Rising(segs[..|segs| - 1] + [c], hi)
  {}

  // ----- when it does not end -------------------------------------------------------

  /** Whether the next glyph finds no room, not even in the segment that would be made for it. */
  predicate HeadFails(segs: seq<Segment>, open: bool, g: nat, total: nat, shmSize: nat, sizes: map<nat, nat>, page: nat)
    requires 0 < page && (open ==> segs != [])
  {
    g in sizes &&
    if !open then Normalize(shmSize, page) < sizes[g]
    else
      var c := segs[|segs| - 1];
      c.usage + sizes[g] > c.cap
      && (total == 0 || Normalize(PrevCalculate(c.usage, total, page), page) < sizes[g])
  }

  /**
   Exactly when a load fails at its next glyph: into a new segment, when the glyph is bigger
   than that; into a full one, when nothing was counted for it or the glyph is bigger than the
   segment its average makes. A load whose last glyph this is fails only then.
   */
  lemma LoadFailsAtHead(segs: seq<Segment>, open: bool, todo: seq<nat>, total: nat, shmSize: nat, nextShm: nat,
                        sizes: map<nat, nat>, page: nat)
    requires 0 < page && (open ==> segs != []) && todo != []
    ensures HeadFails(segs, open, todo[0], total, shmSize, sizes, page) ==>
              Load(segs, open, todo, total, shmSize, nextShm, sizes, page).DividedByZero?
    ensures |todo| == 1 ==>
              (Load(segs, open, todo, total, shmSize, nextShm, sizes, page).DividedByZero?
               <==> HeadFails(segs, open, todo[0], total, shmSize, sizes, page))
  {
    hide Normalize, PrevCalculate, Rendered;
    if !open {
      NewSegmentFails(segs, todo, total, shmSize, nextShm, sizes, page);
    } else {
      var c := segs[|segs| - 1];
      if todo[0] in sizes && c.usage + sizes[todo[0]] > c.cap && total != 0 {
        NewSegmentFails(segs, todo, total, PrevCalculate(c.usage, total, page), nextShm, sizes, page);
      }
    }
  }

  /** A new segment for the next glyph: the average is divided by zero when the glyph is too big. */
  lemma NewSegmentFails(segs: seq<Segment>, todo: seq<nat>, total: nat, shmSize: nat, nextShm: nat,
                        sizes: map<nat, nat>, page: nat)
    requires 0 < page && todo != []
    ensures var big := todo[0] in sizes && Normalize(shmSize, page) < sizes[todo[0]];
            var r := Load(segs, false, todo, total, shmSize, nextShm, sizes, page);
            (big ==> r.DividedByZero?) && (|todo| == 1 ==> (r.DividedByZero? <==> big))
  {
    hide Normalize, PrevCalculate, Rendered;
    var c := Segment(nextShm, Normalize(shmSize, page), 0, []);
    var filling := segs + [c];
    assert filling[|segs|] == c;
    assert Load(segs, false, todo, total, shmSize, nextShm, sizes, page)
        == Load(filling, true, todo, 0, shmSize, nextShm + 1, sizes, page);
    if |todo| == 1 && (todo[0] !in sizes || sizes[todo[0]] <= c.cap) {
      assert todo[1..] == [];
      var after := if todo[0] in sizes then filling[..|segs|] + [Rendered(c, todo[0], sizes[todo[0]])] else filling;
      assert Load(after, true, [], 1, shmSize, nextShm + 1, sizes, page).Done?;
    }
  }

  /**
   A full segment whose glyphs are smaller than a byte on average, because glyphs that
   could not be loaded are counted, makes the next segment empty and the load fail.
   */
  lemma LowAverageFails(segs: seq<Segment>, todo: seq<nat>, total: nat, shmSize: nat, nextShm: nat,
                        sizes: map<nat, nat>, page: nat)
    requires 0 < page && segs != [] && todo != [] && todo[0] in sizes && 0 < sizes[todo[0]]
    requires var c := segs[|segs| - 1]; c.usage + sizes[todo[0]] > c.cap && c.usage < total
    ensures Load(segs, true, todo, total, shmSize, nextShm, sizes, page).DividedByZero?
  {
    var c := segs[|segs| - 1];
    assert c.usage / total == 0;
    NormalizeZero(page);
    assert PrevCalculate(c.usage, total, page) == 0;
    LoadFailsAtHead(segs, true, todo, total, shmSize, nextShm, sizes, page);
  }

  lemma NormalizeZero(page: nat)
    requires 0 < page
    ensures Normalize(0, page) == 0
  {
    assert (page - 1) / page == 0;
  }

  lemma NormalizeUp(size: nat, page: nat)
    requires 0 < page && 0 < size
    ensures Normalize(size, page) >= page
  {
    QuotientUp(size + page - 1, page);
    var k := (size + page - 1) / page;
    assert k * page >= page;
  }

  lemma NormalizeAbove(size: nat, page: nat)
    requires 0 < page
    ensures Normalize(size, page) >= size
  {
    var n := size + page - 1;
    assert n == n / page * page + n % page;
  }

  lemma QuotientUp(a: nat, b: nat)
    requires 0 < b <= a
    ensures a / b >= 1
  {}

  lemma QuotientAbove(a: nat, b: nat, k: nat)
    requires 0 < b && k * b <= a
    ensures a / b >= k
  {
    var short := k - a / b;
    assert a == a / b * b + a % b;
    assert short * b <= a % b;
    assert short >= 1 ==> short * b >= b;
  }

  /** The segment made after a full one has room for any glyph of the usual size. */
  lemma PrevFits(usage: nat, total: nat, page: nat, a: nat, b: nat)
    requires 0 < page <= MAX_CACHE_SIZE && 0 < total && 0 < a && total * a <= usage
    requires b <= MAX_CACHE_SIZE && (b <= MIN_GLYPHS * a || b <= page)
    ensures PrevCalculate(usage, total, page) >= b
  {
    QuotientAbove(usage, total, a);
    var size := MIN_GLYPHS * (usage / total);
    NormalizeAbove(size, page);
    NormalizeUp(size, page);
  }

  /**
   With glyphs that load and whose sizes lie between a and b bytes, b at most what fifty of
   the smallest take, or a page, and at most the largest segment, every load ends.
   */
  lemma {:induction false} UsualGlyphsLoad(segs: seq<Segment>, open: bool, todo: seq<nat>, total: nat, shmSize: nat,
                                           nextShm: nat, sizes: map<nat, nat>, page: nat, a: nat, b: nat)
    requires 0 < page <= MAX_CACHE_SIZE && (open ==> segs != []) && 0 < a
    requires b <= Normalize(shmSize, page) && b <= MAX_CACHE_SIZE && (b <= MIN_GLYPHS * a || b <= page)
    requires forall g {:trigger g in todo} :: g in todo ==> g in sizes && a <= sizes[g] <= b
    requires open ==> var c := segs[|segs| - 1]; total * a <= c.usage && (total == 0 ==> c.usage + b <= c.cap)
    ensures Load(segs, open, todo, total, shmSize, nextShm, sizes, page).Done?
    decreases |todo|, if !open then 1 else if total == 0 then 0 else 2
  {
    hide Normalize, PrevCalculate;
    if todo == [] {
    } else if !open {
      UsualGlyphsLoad(segs + [Segment(nextShm, Normalize(shmSize, page), 0, [])], true, todo, 0, shmSize,
                      nextShm + 1, sizes, page, a, b);
    } else {
      var c := segs[|segs| - 1];
      assert todo[0] in todo;
      if c.usage + sizes[todo[0]] > c.cap {
        PrevFits(c.usage, total, page, a, b);
        NormalizeAbove(PrevCalculate(c.usage, total, page), page);
        UsualGlyphsLoad(segs, false, todo, total, PrevCalculate(c.usage, total, page), nextShm, sizes, page, a, b);
      } else {
        assert (total + 1) * a == total * a + a;
        assert forall g {:trigger g in todo[1..]} :: g in todo[1..] ==> g in todo;
        UsualGlyphsLoad(segs[..|segs| - 1] + [Rendered(c, todo[0], sizes[todo[0]])], true, todo[1..], total + 1,
                        shmSize, nextShm, sizes, page, a, b);
      }
    }
  }

  /**
   Glyphs without bytes and glyphs that cannot be loaded are harmless as long as a page has room
   for the biggest glyph and one byte more for each glyph asked for: every load ends.
   */
  lemma {:induction false} RoomyGlyphsLoad(segs: seq<Segment>, open: bool, todo: seq<nat>, total: nat, shmSize: nat,
                                           nextShm: nat, sizes: map<nat, nat>, page: nat, b: nat)
    requires 0 < page && (open ==> segs != [])
    requires |todo| + b <= page <= Normalize(shmSize, page)
    requires forall g {:trigger g in todo} :: g in todo && g in sizes ==> sizes[g] <= b
    requires open ==> var c := segs[|segs| - 1]; total + |todo| + b <= c.cap && (total == 0 ==> c.usage + b <= c.cap)
    ensures Load(segs, open, todo, total, shmSize, nextShm, sizes, page).Done?
    decreases |todo|, if !open then 1 else if total == 0 then 0 else 2
  {
    hide Normalize, PrevCalculate;
    if todo == [] {
    } else if !open {
      RoomyGlyphsLoad(segs + [Segment(nextShm, Normalize(shmSize, page), 0, [])], true, todo, 0, shmSize,
                      nextShm + 1, sizes, page, b);
    } else {
      var c := segs[|segs| - 1];
      assert todo[0] in todo && forall g {:trigger g in todo[1..]} :: g in todo[1..] ==> g in todo;
      if todo[0] !in sizes {
        RoomyGlyphsLoad(segs, true, todo[1..], total + 1, shmSize, nextShm, sizes, page, b);
      } else if c.usage + sizes[todo[0]] > c.cap {
        PrevPage(c.usage, total, page);
        RoomyGlyphsLoad(segs, false, todo, total, PrevCalculate(c.usage, total, page), nextShm, sizes, page, b);
      } else {
        RoomyGlyphsLoad(segs[..|segs| - 1] + [Rendered(c, todo[0], sizes[todo[0]])], true, todo[1..], total + 1,
                        shmSize, nextShm, sizes, page, b);
      }
    }
  }

  /** An average of a byte or more makes a segment of a page or more. */
  lemma PrevPage(usage: nat, total: nat, page: nat)
    requires 0 < page && 0 < total <= usage
    ensures Normalize(PrevCalculate(usage, total, page), page) >= page
  {
    QuotientUp(usage, total);
    NormalizeUp(MIN_GLYPHS * (usage / total), page);
    NormalizeUp(PrevCalculate(usage, total, page), page);
  }

  // ----- exactly when a load fails --------------------------------------------------

  /** The variables of the loop between two glyphs. */
  datatype Progress = Progress(segs: seq<Segment>, open: bool, total: nat, shmSize: nat, nextShm: nat)

  predicate Going(p: Progress) {
    p.open ==> p.segs != []
  }

  function Opened(p: Progress, page: nat): Progress
    requires 0 < page
  {
    Progress(p.segs + [Segment(p.nextShm, Normalize(p.shmSize, page), 0, [])], true, 0, p.shmSize, p.nextShm + 1)
  }

  predicate Full(p: Progress, g: nat, sizes: map<nat, nat>)
    requires p.open && p.segs != []
  {
    g in sizes && p.segs[|p.segs| - 1].usage + sizes[g] > p.segs[|p.segs| - 1].cap
  }

  predicate NoRoom(p: Progress, g: nat, sizes: map<nat, nat>, page: nat)
    requires 0 < page && Going(p)
  {
    HeadFails(p.segs, p.open, g, p.total, p.shmSize, sizes, page)
  }

  /** The next glyph, in the segment that is open or in a new one. */
  function One(p: Progress, g: nat, sizes: map<nat, nat>, page: nat): (r: Progress)
    requires 0 < page && Going(p) && !NoRoom(p, g, sizes, page)
    ensures Going(r)
  {
    var q :=
      if !p.open then Opened(p, page)
      else if Full(p, g, sizes) then
        Opened(p.(shmSize := PrevCalculate(p.segs[|p.segs| - 1].usage, p.total, page)), page)
      else p;
    var n := |q.segs| - 1;
    q.(segs := if g in sizes then q.segs[..n] + [Rendered(q.segs[n], g, sizes[g])] else q.segs, total := q.total + 1)
  }

  function LoadFrom(p: Progress, todo: seq<nat>, sizes: map<nat, nat>, page: nat): Outcome
    requires 0 < page && Going(p)
  {
    Load(p.segs, p.open, todo, p.total, p.shmSize, p.nextShm, sizes, page)
  }

  lemma LoadOpens(p: Progress, todo: seq<nat>, sizes: map<nat, nat>, page: nat)
    requires 0 < page && Going(p) && !p.open
    ensures todo != [] ==> LoadFrom(p, todo, sizes, page) == LoadFrom(Opened(p, page), todo, sizes, page)
  {}

  lemma LoadOne(p: Progress, todo: seq<nat>, sizes: map<nat, nat>, page: nat)
    requires 0 < page && Going(p) && todo != [] && !NoRoom(p, todo[0], sizes, page)
    ensures LoadFrom(p, todo, sizes, page) == LoadFrom(One(p, todo[0], sizes, page), todo[1..], sizes, page)
  {
    hide Normalize, PrevCalculate, Rendered;
    if !p.open {
      LoadOpens(p, todo, sizes, page);
    } else if Full(p, todo[0], sizes) {
      var q := p.(open := false, shmSize := PrevCalculate(p.segs[|p.segs| - 1].usage, p.total, page));
      assert LoadFrom(p, todo, sizes, page) == LoadFrom(q, todo, sizes, page);
      LoadOpens(q, todo, sizes, page);
    }
  }

  /** The glyphs before the k-th find room, and that one does not. */
  predicate StopsAt(p: Progress, todo: seq<nat>, k: nat, sizes: map<nat, nat>, page: nat)
    requires 0 < page && Going(p) && k < |todo|
    decreases k
  {
    if k == 0 then NoRoom(p, todo[0], sizes, page)
    else !NoRoom(p, todo[0], sizes, page) && StopsAt(One(p, todo[0], sizes, page), todo[1..], k - 1, sizes, page)
  }

  /** Some glyph finds no room after those before it. */
  predicate SomeStops(p: Progress, todo: seq<nat>, sizes: map<nat, nat>, page: nat)
    requires 0 < page && Going(p)
  {
    exists k :: 0 <= k < |todo| && StopsAt(p, todo, k, sizes, page)
  }

  lemma StopsNow(p: Progress, todo: seq<nat>, sizes: map<nat, nat>, page: nat)
    requires 0 < page && Going(p) && todo != [] && NoRoom(p, todo[0], sizes, page)
    ensures SomeStops(p, todo, sizes, page)
  {
    assert StopsAt(p, todo, 0, sizes, page);
  }

  lemma StopsLater(p: Progress, todo: seq<nat>, sizes: map<nat, nat>, page: nat)
    requires 0 < page && Going(p) && todo != [] && !NoRoom(p, todo[0], sizes, page)
    ensures SomeStops(p, todo, sizes, page) <==> SomeStops(One(p, todo[0], sizes, page), todo[1..], sizes, page)
  {
    hide One, NoRoom;
    var q := One(p, todo[0], sizes, page);
    forall k | 0 <= k < |todo[1..]| ensures StopsAt(q, todo[1..], k, sizes, page) <==> StopsAt(p, todo, k + 1, sizes, page) {}
    if SomeStops(p, todo, sizes, page) {
      var k :| 0 <= k < |todo| && StopsAt(p, todo, k, sizes, page);
      assert StopsAt(q, todo[1..], k - 1, sizes, page);
    }
    if SomeStops(q, todo[1..], sizes, page) {
      var k :| 0 <= k < |todo[1..]| && StopsAt(q, todo[1..], k, sizes, page);
      assert StopsAt(p, todo, k + 1, sizes, page);
    }
  }

  /** A load fails if and only if one of its glyphs finds no room after those before it. */
  lemma {:induction false} LoadFailsIff(p: Progress, todo: seq<nat>, sizes: map<nat, nat>, page: nat)
    requires 0 < page && Going(p)
    ensures LoadFrom(p, todo, sizes, page).DividedByZero? <==> SomeStops(p, todo, sizes, page)
    decreases |todo|
  {
    hide One, NoRoom, LoadFrom, StopsAt;
    if todo == [] {
      LoadsNone(p, sizes, page);
    } else if NoRoom(p, todo[0], sizes, page) {
      NoRoomFails(p, todo, sizes, page);
      StopsNow(p, todo, sizes, page);
    } else {
      LoadOne(p, todo, sizes, page);
      LoadFailsIff(One(p, todo[0], sizes, page), todo[1..], sizes, page);
      StopsLater(p, todo, sizes, page);
    }
  }

  lemma LoadsNone(p: Progress, sizes: map<nat, nat>, page: nat)
    requires 0 < page && Going(p)
    ensures LoadFrom(p, [], sizes, page).Done?
  {}

  lemma NoRoomFails(p: Progress, todo: seq<nat>, sizes: map<nat, nat>, page: nat)
    requires 0 < page && Going(p) && todo != [] && NoRoom(p, todo[0], sizes, page)
    ensures LoadFrom(p, todo, sizes, page).DividedByZero?
  {
    LoadFailsAtHead(p.segs, p.open, todo, p.total, p.shmSize, p.nextShm, sizes, page);
  }

  // ----- the slave ------------------------------------------------------------------

  /**
   _font_slave_glyphs_load: goes on in the segment `start` of the last load, if there is
   one, which the server says has `startGlyphs` glyphs.
   */
  method FontSlaveGlyphsLoad(start: seq<Segment>, startGlyphs: nat, glyphs: seq<nat>, shmSize: nat, nextShm: nat,
                             sizes: map<nat, nat>, page: nat) returns (r: Outcome)
    requires 0 < page && |start| <= 1 && forall c :: c in start ==> c.glyphs == []
    ensures r == Load(start, start != [], glyphs, if start != [] then startGlyphs else 0, shmSize, nextShm, sizes, page)
    ensures r.Done? && SegmentsOk(start, if start == [] then 0 else start[0].usage) ==>
              Drawn(r.segs) == Loadable(glyphs, sizes)
              && SegmentsOk(r.segs, if start == [] then 0 else start[0].usage)
  {
    hide Normalize, PrevCalculate, SegmentsOk, Rendered, Drawn, Loadable;
    var caches, open := start, start != [];
    var size: nat, next: nat := shmSize, nextShm;
    var total: nat := if open then startGlyphs else 0;
    LoadGives(start, total, glyphs, shmSize, nextShm, sizes, page);
    ghost var whole := Load(start, open, glyphs, total, shmSize, nextShm, sizes, page);
    var i := 0;
    while i < |glyphs|
      invariant i <= |glyphs| && (open ==> caches != [])
      invariant Load(caches, open, glyphs[i..], total, size, next, sizes, page) == whole
      decreases |glyphs| - i, if !open then 1 else if total == 0 then 0 else 2
    {
      assert glyphs[i..][1..] == glyphs[i + 1..];
      if !open {
        caches, open, total, next := caches + [Segment(next, Normalize(size, page), 0, [])], true, 0, next + 1;
      }
      var full := false;
      if glyphs[i] in sizes {
        var c := caches[|caches| - 1];
        if c.usage + sizes[glyphs[i]] > c.cap {
          full := true;
        } else {
          caches := caches[..|caches| - 1] + [Rendered(c, glyphs[i], sizes[glyphs[i]])];
        }
      }
      if full {
        if total == 0 {
          return DividedByZero;
        }
        size, open := PrevCalculate(caches[|caches| - 1].usage, total, page), false;
      } else {
        i, total := i + 1, total + 1;
      }
    }
    r := Done(caches, size, next);
  }

  lemma LoadGives(start: seq<Segment>, total: nat, glyphs: seq<nat>, shmSize: nat, nextShm: nat,
                  sizes: map<nat, nat>, page: nat)
    requires 0 < page && |start| <= 1 && forall c :: c in start ==> c.glyphs == []
    ensures var from, r := if start == [] then 0 else start[0].usage,
                           Load(start, start != [], glyphs, total, shmSize, nextShm, sizes, page);
            r.Done? && SegmentsOk(start, from) ==> Drawn(r.segs) == Loadable(glyphs, sizes) && SegmentsOk(r.segs, from)
  {
    hide Load, SegmentsOk;
    var from := if start == [] then 0 else start[0].usage;
    if SegmentsOk(start, from) {
      LoadPacks(start, start != [], glyphs, total, shmSize, nextShm, sizes, page, from);
      NothingDrawn(start);
      assert [] + Loadable(glyphs, sizes) == Loadable(glyphs, sizes);
    }
  }

  lemma NothingDrawn(start: seq<Segment>)
    requires |start| <= 1 && forall c :: c in start ==> c.glyphs == []
    ensures Drawn(start) == []
  {
    if start != [] { assert start[0] in start && start[..0] == []; }
  }
}
