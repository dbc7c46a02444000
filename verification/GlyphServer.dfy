/**
 The font side of the server's cache as code that updates its tables in place. Every method
 is proved to be the step of the same name in GlyphRequests and GlyphRuns.
 */
module GlyphServer {
  import opened GlyphCache
  import opened GlyphPacking
  import opened GlyphRequests
  import opened GlyphRuns
  import opened GlyphPins
  import opened Lists

  class Server {
    var caches: map<Shm, Cache>
    var shmLru: seq<Shm>
    var fonts: map<FontId, Font>
    var memUsage: int
    var pending: seq<Req>
    var work: Option<Work>
    var heap: set<Answer>
    var harmed: set<Answer>

    function Value(): State
      reads this
    {
      State(caches, shmLru, fonts, memUsage, pending, work, heap, harmed)
    }

    constructor ()
      ensures Value() == EMPTY
    {
      caches, shmLru, fonts, memUsage, pending, work, heap, harmed := map[], [], map[], 0, [], None, {}, {};
    }

    /** The font part of _entry_reference_del, when the last reference has gone. */
    method FontUnreferenced(f: FontId)
      requires Inv(Value()) && f in fonts
      modifies this`fonts
      ensures Inv(Value()) && Value() == Refer(old(Value()), f, true)
    {
      hide Inv;
      ReferKeeps(Value(), f, true);
      fonts := fonts[f := fonts[f].(unused := true)];
      if fonts[f].caches == [] {
        fonts := fonts - {f};
        assert fonts == old(fonts) - {f};
      }
    }

    /** _glyphs_request_check: the glyphs found up to the first that is not, each pinned. */
    method RequestCheck(f: FontId, glyphs: seq<nat>) returns (answer: seq<Answer>)
      requires Inv(Value()) && f in fonts
      modifies this`caches
      ensures answer == FoundPrefix(fonts[f].table, glyphs) && caches == PinAll(old(caches), answer)
    {
      hide Inv, PinAll;
      answer := [];
      var table := fonts[f].table;
      var i := 0;
      TableLinked(Value(), f);
      PinNone(caches);
      while i < |glyphs| && glyphs[i] in table
        invariant i <= |glyphs| && answer + FoundPrefix(table, glyphs[i..]) == FoundPrefix(table, glyphs)
        invariant caches == PinAll(old(caches), answer) && caches.Keys == old(caches.Keys)
      {
        var ge := table[glyphs[i]];
        assert glyphs[i..][1..] == glyphs[i + 1..];
        PinOne(old(caches), answer, ge);
        caches := caches[ge.shm := caches[ge.shm].(inuse := caches[ge.shm].inuse + 1)];
        answer := answer + [ge];
        i := i + 1;
      }
      assert answer + [] == answer;
    }

    /** _glyphs_group_create */
    method GroupCreate(answer: seq<Answer>) returns (groups: seq<Group>)
      ensures groups == Groups(answer)
    {
      groups := [];
      var i := 0;
      assert answer[..0] == [];
      while i < |answer|
        invariant i <= |answer| && groups == Groups(answer[..i])
      {
        assert answer[..i + 1][..i] == answer[..i];
        groups := GroupAdd(groups, answer[i]);
        i := i + 1;
      }
      assert answer[..i] == answer;
    }

    /** The search for the group of one answer. */
    method GroupAdd(groups: seq<Group>, a: Answer) returns (r: seq<Group>)
      ensures r == AddTo(groups, a)
    {
      hide AddTo;
      var l := 0;
      assert groups[..0] + AddTo(groups[0..], a) == AddTo(groups, a) && groups[0..] == groups;
      while l < |groups| && groups[l].shm != a.shm
        invariant l <= |groups| && groups[..l] + AddTo(groups[l..], a) == AddTo(groups, a)
      {
        AddSkips(groups, l, a);
        l := l + 1;
      }
      AddStops(groups, l, a);
      if l < |groups| {
        r := groups[..l] + ([groups[l].(answers := groups[l].answers + [a])] + groups[l + 1..]);
      } else {
        r := groups[..l] + [Group(a.shm, [a])];
      }
    }

    /** _font_shm_promote */
    method ShmPromote(c: Shm)
      modifies this`shmLru
      ensures shmLru == Without(old(shmLru), {c}) + [c]
    {
      shmLru := Without(shmLru, {c}) + [c];
    }

    /** _glyphs_loaded_msg_create: what the answer pinned is unpinned and moved up, group by group. */
    method LoadedMsgCreate(answer: seq<Answer>)
      modifies this`caches, this`shmLru
      ensures caches == Unpin(old(caches), Groups(answer))
      ensures shmLru == Promote(old(shmLru), Shms(Groups(answer)))
    {
      hide Groups, Without;
      var groups := GroupCreate(answer);
      var l := 0;
      assert groups[0..] == groups;
      while l < |groups|
        invariant l <= |groups|
        invariant Unpin(caches, groups[l..]) == Unpin(old(caches), groups)
        invariant Promote(shmLru, Shms(groups[l..])) == Promote(old(shmLru), Shms(groups))
      {
        var iter := groups[l];
        assert groups[l..][1..] == groups[l + 1..];
        assert Shms(groups[l..]) == [iter.shm] + Shms(groups[l + 1..]);
        assert Shms(groups[l..])[1..] == Shms(groups[l + 1..]);
        if iter.shm in caches {
          caches := caches[iter.shm := caches[iter.shm].(inuse := caches[iter.shm].inuse - |iter.answers|)];
        }
        ShmPromote(iter.shm);
        l := l + 1;
      }
    }

    /** cserve2_cache_font_glyphs_load */
    method FontGlyphsLoad(f: FontId, glyphs: seq<nat>)
      requires Inv(Value()) && f in fonts
      modifies this
      ensures Inv(Value()) && Value() == Ask(old(Value()), f, glyphs)
    {
      hide Inv, PinAll, Groups, Unpin, Promote, FoundPrefix;
      AskKeeps(Value(), f, glyphs);
      var answer := RequestCheck(f, glyphs);
      var req := Req(f, glyphs, |answer|, [], answer);
      if |answer| == |glyphs| {
        LoadedMsgCreate(answer);
        assert (pending + [req])[..|pending|] == pending;
      } else {
        pending := pending + [req];
      }
    }

    /** cserve2_cache_font_glyphs_used */
    method FontGlyphsUsed(f: FontId, glyphs: seq<nat>)
      requires Inv(Value()) && f in fonts
      modifies this
      ensures Inv(Value()) && Value() == Used(old(Value()), f, glyphs)
    {
      hide Inv, PinAll, Groups, FoundPrefix, Promote, Shms;
      UsedKeeps(Value(), f, glyphs);
      var answer := RequestCheck(f, glyphs);
      var groups := GroupCreate(answer);
      GroupsPromote(groups);
    }

    /** Its loop: the caches of the groups move up one by one. */
    method GroupsPromote(groups: seq<Group>)
      modifies this`shmLru
      ensures shmLru == Promote(old(shmLru), Shms(groups))
    {
      hide Without;
      var l := 0;
      assert groups[0..] == groups;
      while l < |groups|
        invariant l <= |groups|
        invariant Promote(shmLru, Shms(groups[l..])) == Promote(old(shmLru), Shms(groups))
      {
        assert groups[l..][1..] == groups[l + 1..];
        assert Shms(groups[l..])[1..] == Shms(groups[l + 1..]);
        ShmPromote(groups[l].shm);
        l := l + 1;
      }
    }

    /** _font_shm_free */
    method ShmFree(c: Shm)
      requires c in caches && caches[c].font in fonts
      modifies this`caches, this`shmLru, this`fonts, this`memUsage, this`heap, this`harmed
      ensures Value() == Free(old(Value()), c)
    {
      var fc := caches[c];
      var fe := fonts[fc.font];
      shmLru := Without(shmLru, {c});
      fe := fe.(caches := Without(fe.caches, {c}));
      if fe.last == Some(c) {
        fe := fe.(last := None);
      }
      var table := GlyphsDelete(c, fc.glyphs, fe.table);
      fe := fe.(table := table);
      caches := caches - {c};
      fonts := if fe.caches == [] then fonts - {fc.font} else fonts[fc.font := fe];
      memUsage := memUsage - SizeOf(fc);
    }

    /** The loop that empties the list of a cache. */
    method GlyphsDelete(c: Shm, glyphs: seq<Glyph>, table: map<nat, Answer>) returns (r: map<nat, Answer>)
      modifies this`heap, this`harmed
      ensures r == Unlisted(table, glyphs)
      ensures heap == old(heap) - Deleted(table, glyphs)
      ensures harmed == old(harmed) + Wronged(table, c, 0, glyphs)
    {
      r := table;
      var i := 0;
      assert glyphs[0..] == glyphs;
      while i < |glyphs|
        invariant i <= |glyphs|
        invariant Unlisted(r, glyphs[i..]) == Unlisted(table, glyphs)
        invariant heap - Deleted(r, glyphs[i..]) == old(heap) - Deleted(table, glyphs)
        invariant harmed + Wronged(r, c, i, glyphs[i..]) == old(harmed) + Wronged(table, c, 0, glyphs)
      {
        assert glyphs[i..][1..] == glyphs[i + 1..];
        r := GlyphDelete(r, Answer(c, i, glyphs[i]));
        i := i + 1;
      }
      assert glyphs[i..] == [] && heap - {} == heap && harmed + {} == harmed;
    }

    /** fash_gl_del, for an entry just taken off its list: what the table names is freed. */
    method GlyphDelete(table: map<nat, Answer>, gl: Answer) returns (r: map<nat, Answer>)
      modifies this`heap, this`harmed
      ensures r == table - {gl.glyph.index}
      ensures heap == old(heap) - if gl.glyph.index in table then {table[gl.glyph.index]} else {}
      ensures harmed == old(harmed) + if gl.glyph.index in table && table[gl.glyph.index] != gl
                                      then {table[gl.glyph.index]} else {}
    {
      r := table;
      if gl.glyph.index in table {
        var data := table[gl.glyph.index];
        heap := heap - {data};
        if data != gl {
          harmed := harmed + {data};
        }
        r := table - {gl.glyph.index};
      }
    }

    /** _font_shm_lru_flush */
    method ShmLruFlush()
      requires Inv(Value()) && Landed(Value())
      modifies this`caches, this`shmLru, this`fonts, this`memUsage, this`heap, this`harmed
      ensures NoDup(old(shmLru)) && Value() == Flush(old(Value()), old(shmLru))
      ensures Inv(Value()) && Kept(old(Value()), Value())
      ensures memUsage <= MAX_FONT_USAGE
              || forall c {:trigger caches[c]} :: c in caches ==>
                   caches[c].inuse != 0 || (caches[c].font in fonts && !fonts[caches[c].font].unused)
    {
      hide Inv, Free, Without, Evictable;
      ghost var s0 := Value();
      LruNoDup(s0);
      FlushOutcome(s0, shmLru);
      FlushBudget(s0);
      var order := shmLru;
      var l := 0;
      assert order[0..] == order;
      ghost var whole := Flush(s0, order);
      while l < |order| && memUsage > MAX_FONT_USAGE
        invariant l <= |order| && Inv(Value()) && Landed(Value()) && NoDup(order[l..])
        invariant forall c {:trigger c in order[l..]} :: c in order[l..] ==> c in shmLru
        invariant Flush(Value(), order[l..]) == whole
      {
        var fc := order[l];
        assert fc in order[l..] && order[l..][1..] == order[l + 1..];
        assert forall c {:trigger c in order[l + 1..]} :: c in order[l + 1..] ==> c in order[l..];
        LruCache(Value(), fc);
        if Evictable(Value(), fc) {
          FreeKeeps(Value(), fc);
          WithoutIs(shmLru, fc);
          ShmFree(fc);
        }
        l := l + 1;
      }
    }

    /** _glyphs_load_request_prepare: what is there by now is answered and pinned, the rest rendered. */
    method RequestPrepare(f: FontId, todo: seq<nat>) returns (render: seq<nat>, found: seq<Answer>)
      requires Inv(Value()) && f in fonts
      modifies this`caches
      ensures found == Found(fonts[f].table, todo) && render == NotFound(fonts[f].table, todo)
      ensures caches == PinAll(old(caches), found)
    {
      hide Inv, PinAll;
      var table := fonts[f].table;
      render, found := [], [];
      var k := 0;
      TableLinked(Value(), f);
      PinNone(caches);
      assert todo[0..] == todo;
      while k < |todo|
        invariant k <= |todo| && caches == PinAll(old(caches), found) && caches.Keys == old(caches.Keys)
        invariant found + Found(table, todo[k..]) == Found(table, todo)
        invariant render + NotFound(table, todo[k..]) == NotFound(table, todo)
      {
        assert todo[k..][1..] == todo[k + 1..];
        if todo[k] in table {
          var ge := table[todo[k]];
          PinOne(old(caches), found, ge);
          caches := caches[ge.shm := caches[ge.shm].(inuse := caches[ge.shm].inuse + 1)];
          found := found + [ge];
        } else {
          render := render + [todo[k]];
        }
        k := k + 1;
      }
      assert found + [] == found && render + [] == render;
    }

    /** _glyphs_load_request_build */
    method RequestBuild(i: nat)
      requires Inv(Value()) && work.None? && i < |pending| && pending[i].font in fonts
      requires pending[i].current <= |pending[i].glyphs|
      requires fonts[pending[i].font].last.Some? ==> fonts[pending[i].font].last.value in caches
      modifies this`caches, this`pending, this`work
      ensures Inv(Value()) && Value() == Dispatch(old(Value()), i)
    {
      hide Inv, PinAll, Found, NotFound;
      DispatchKeeps(Value(), i);
      var req := pending[i];
      var fe := fonts[req.font];
      var render, found := RequestPrepare(req.font, req.glyphs[req.current..]);
      UsageKept(old(caches), found);
      var usage := if fe.last.Some? then caches[fe.last.value].usage else 0;
      pending := pending[..i] + pending[i + 1..];
      work := Some(Work(req.(render := render, answer := req.answer + found), fe.last, usage, false));
    }

    /** The cache a part of the response goes to: the one handed out, or a new one. */
    method CacheOpen(c: Segment, reuse: bool)
      requires work.Some? && work.value.req.font in fonts && (reuse ==> c.shm in caches)
      modifies this
      ensures Value() == Absorb(old(Value()), c.(glyphs := []), reuse)
    {
      var f := work.value.req.font;
      if !reuse {
        caches := caches[c.shm := Cache(f, c.cap, 0, 0, 0, [])];
        fonts := fonts[f := fonts[f].(caches := fonts[f].caches + [c.shm], last := Some(c.shm))];
        shmLru := shmLru + [c.shm];
        memUsage := memUsage + SizeOf(caches[c.shm]);
      }
      assert caches[c.shm].glyphs + [] == caches[c.shm].glyphs;
      assert work.value.req.answer + [] == work.value.req.answer;
      caches := caches[c.shm := caches[c.shm].(usage := c.usage)];
      work := Some(work.value.(landed := true));
      assert fonts == old(fonts)[f := fonts[f]];
    }

    /** One cache of the slave's response: its glyphs are added and pinned one by one. */
    method CacheAbsorb(c: Segment, reuse: bool)
      requires work.Some? && work.value.req.font in fonts && (reuse ==> c.shm in caches)
      modifies this
      ensures Value() == Absorb(old(Value()), c, reuse)
    {
      hide Absorb;
      ghost var s0 := Value();
      var f := work.value.req.font;
      CacheOpen(c, reuse);
      assert c.(glyphs := c.glyphs[..0]) == c.(glyphs := []);
      var j := 0;
      while j < |c.glyphs|
        invariant j <= |c.glyphs| && Value() == Absorb(s0, c.(glyphs := c.glyphs[..j]), reuse)
      {
        AbsorbOneMore(s0, c, j, reuse);
        var gl := c.glyphs[j];
        var fc := caches[c.shm];
        var entry := Answer(c.shm, |fc.glyphs|, gl);
        memUsage := memUsage + GLYPH_SIZE;
        caches := caches[c.shm := fc.(glyphs := fc.glyphs + [gl], nglyphs := fc.nglyphs + 1, inuse := fc.inuse + 1)];
        fonts := fonts[f := fonts[f].(table := fonts[f].table[gl.index := entry])];
        heap := heap + {entry};
        var w := work.value;
        work := Some(w.(req := w.req.(answer := w.req.answer + [entry])));
        j := j + 1;
      }
      assert c.(glyphs := c.glyphs[..j]) == c;
    }

    /** _glyphs_load_request_response */
    method RequestResponse(msg: seq<Segment>, ghost e: Slave)
      requires Inv(Value()) && work.Some? && !work.value.landed && 0 < e.page && work.value.req.font in fonts
      requires forall c {:trigger c in caches} :: c in caches ==> c < e.nextShm
      requires work.value.start.Some? ==> work.value.start.value in caches
      requires Result(Value(), e).Done? && Result(Value(), e).segs == msg
      modifies this
      ensures Inv(Value()) && Value() == Respond(old(Value()), e)
    {
      hide Inv, AllFit, Flush, Result, Absorb, Deliver, FontOk;
      ghost var s0 := Value();
      SlaveResultFits(s0, e);
      var reuse := msg != [] && fonts[work.value.req.font].last == Some(msg[0].shm);
      LandedKeeps(s0, msg, reuse);
      AbsorbAllKeeps(MarkLanded(s0), msg, reuse);
      work := Some(work.value.(landed := true));
      CachesAbsorb(msg, reuse);
      LruNoDup(Value());
      FlushOutcome(Value(), shmLru);
      ShmLruFlush();
      CompleteKeeps(Value());
      RespondIs(s0, e);
      RequestAnswered();
    }

    /** The loop over the caches of the response. */
    method CachesAbsorb(msg: seq<Segment>, reuse: bool)
      requires Inv(Value()) && Landed(Value()) && work.Some? && work.value.req.font in fonts
      requires AllFit(Value(), msg, reuse) && (msg != [] && reuse ==> msg[0].shm in caches)
      modifies this
      ensures Value() == AbsorbAll(old(Value()), msg, reuse)
      ensures Inv(Value()) && Landed(Value()) && work.Some?
    {
      hide Inv, AllFit, Absorb;
      ghost var s0 := Value();
      AbsorbAllKeeps(s0, msg, reuse);
      var i, fc := 0, reuse;
      assert msg[0..] == msg;
      while i < |msg|
        invariant i <= |msg| && Inv(Value()) && Landed(Value()) && work.Some? && work.value.req.font in fonts
        invariant AllFit(Value(), msg[i..], fc) && (msg[i..] != [] && fc ==> msg[i].shm in caches)
        invariant AbsorbAll(Value(), msg[i..], fc) == AbsorbAll(s0, msg, reuse)
      {
        assert msg[i..][1..] == msg[i + 1..] && msg[i..][0] == msg[i];
        NextFit(Value(), msg[i..], fc);
        FitsFirst(Value(), msg[i..], fc);
        AbsorbKeeps(Value(), msg[i], fc);
        CacheAbsorb(msg[i], fc);
        fc := false;
        i := i + 1;
      }
    }

    /** The end of the response: the answer is sent and the request is done. */
    method RequestAnswered()
      requires work.Some?
      modifies this
      ensures Value() == Complete(old(Value()))
    {
      hide Groups, Unpin, Promote;
      var req := work.value.req;
      LoadedMsgCreate(req.answer);
      work := None;
      assert (pending + [req])[..|pending|] == pending;
    }
  }

  lemma UsageKept(caches: map<Shm, Cache>, answer: seq<Answer>)
    ensures forall c {:trigger PinAll(caches, answer)[c]} :: c in caches ==> PinAll(caches, answer)[c].usage == caches[c].usage
  {}

  lemma {:induction false} ListedOneMore(table: map<nat, Answer>, shm: Shm, pos: nat, gs: seq<Glyph>, g: Glyph)
    ensures Listed(table, shm, pos, gs + [g]) == Listed(table, shm, pos, gs)[g.index := Answer(shm, pos + |gs|, g)]
    ensures Answers(shm, pos, gs + [g]) == Answers(shm, pos, gs) + [Answer(shm, pos + |gs|, g)]
    decreases gs
  {
    if gs == [] {
      assert (gs + [g])[1..] == [];
    } else {
      assert (gs + [g])[1..] == gs[1..] + [g];
      ListedOneMore(table[gs[0].index := Answer(shm, pos, gs[0])], shm, pos + 1, gs[1..], g);
    }
  }

  /** One more glyph at the end of a cache of the request in hand. */
  function OneMore(a: State, c: Shm, gl: Glyph): State
    requires a.work.Some? && a.work.value.req.font in a.fonts && c in a.caches
  {
    var f := a.work.value.req.font;
    var entry := Answer(c, |a.caches[c].glyphs|, gl);
    var fc := a.caches[c];
    var w := a.work.value;
    a.(caches := a.caches[c := fc.(glyphs := fc.glyphs + [gl], nglyphs := fc.nglyphs + 1, inuse := fc.inuse + 1)],
       mem := a.mem + GLYPH_SIZE,
       fonts := a.fonts[f := a.fonts[f].(table := a.fonts[f].table[gl.index := entry])],
       heap := a.heap + {entry},
       work := Some(w.(req := w.req.(answer := w.req.answer + [entry]))))
  }

  /** What the next glyph of a segment changes. */
  lemma AbsorbOneMore(s: State, c: Segment, j: nat, reuse: bool)
    requires s.work.Some? && s.work.value.req.font in s.fonts && (reuse ==> c.shm in s.caches) && j < |c.glyphs|
    ensures var a := Absorb(s, c.(glyphs := c.glyphs[..j]), reuse);
            && a.work.Some? && a.work.value.req.font == s.work.value.req.font
            && a.work.value.req.font in a.fonts && c.shm in a.caches
            && Absorb(s, c.(glyphs := c.glyphs[..j + 1]), reuse) == OneMore(a, c.shm, c.glyphs[j])
  {
    assert c.glyphs[..j + 1] == c.glyphs[..j] + [c.glyphs[j]];
    AbsorbExtends(s, c, c.glyphs[..j], c.glyphs[j], reuse);
    hide Absorb, OneMore;
  }

  lemma AbsorbExtends(s: State, c: Segment, gs: seq<Glyph>, gl: Glyph, reuse: bool)
    requires s.work.Some? && s.work.value.req.font in s.fonts && (reuse ==> c.shm in s.caches)
    ensures var a := Absorb(s, c.(glyphs := gs), reuse);
            && a.work.Some? && a.work.value.req.font == s.work.value.req.font
            && a.work.value.req.font in a.fonts && c.shm in a.caches
            && Absorb(s, c.(glyphs := gs + [gl]), reuse) == OneMore(a, c.shm, gl)
  {
    hide Listed, Answers, AsSet;
    var f, pos := s.work.value.req.font, PlaceOf(s, c, reuse);
    var made, entry := Answers(c.shm, pos, gs), Answer(c.shm, pos + |gs|, gl);
    ListedOneMore(s.fonts[f].table, c.shm, pos, gs, gl);
    OneMoreEntry(s.heap, made, entry);
    var old0 := if reuse then s.caches[c.shm].glyphs else [];
    assert old0 + (gs + [gl]) == old0 + gs + [gl] && |old0 + gs| == pos + |gs|;
    var ans := s.work.value.req.answer;
    assert ans + (made + [entry]) == ans + made + [entry];
  }

  lemma OneMoreEntry(heap: set<Answer>, made: seq<Answer>, entry: Answer)
    ensures heap + AsSet(made + [entry]) == heap + AsSet(made) + {entry}
  {}

  lemma RespondIs(s: State, e: Slave)
    requires Inv(s) && s.work.Some? && !s.work.value.landed && 0 < e.page && s.work.value.req.font in s.fonts
    requires forall c {:trigger c in s.caches} :: c in s.caches ==> c < e.nextShm
    requires s.work.value.start.Some? ==> s.work.value.start.value in s.caches
    requires Result(s, e).Done?
    ensures var segs := Result(s, e).segs;
            (segs != [] && Reuses(s, segs) ==> segs[0].shm in s.caches)
            && var s1 := AbsorbAll(MarkLanded(s), segs, Reuses(s, segs));
               Inv(s1) && Landed(s1) && s1.work.Some? && NoDup(s1.lru)
               && (FlushOutcome(s1, s1.lru); Respond(s, e) == Complete(Flush(s1, s1.lru)))
  {
    hide Inv, AllFit, Flush, Result, AbsorbAll, Complete, FontOk;
    SlaveResultFits(s, e);
    var segs := Result(s, e).segs;
    LandedKeeps(s, segs, Reuses(s, segs));
    AbsorbAllKeeps(MarkLanded(s), segs, Reuses(s, segs));
    LruNoDup(AbsorbAll(MarkLanded(s), segs, Reuses(s, segs)));
  }

  lemma AddSkips(groups: seq<Group>, l: nat, a: Answer)
    requires l < |groups| && groups[l].shm != a.shm
    ensures groups[..l] + AddTo(groups[l..], a) == groups[..l + 1] + AddTo(groups[l + 1..], a)
  {
    assert groups[l..][1..] == groups[l + 1..];
    assert groups[..l] + ([groups[l]] + AddTo(groups[l + 1..], a)) == groups[..l + 1] + AddTo(groups[l + 1..], a);
  }

  lemma AddStops(groups: seq<Group>, l: nat, a: Answer)
    requires l <= |groups| && (l < |groups| ==> groups[l].shm == a.shm)
    ensures AddTo(groups[l..], a)
            == if l < |groups| then [groups[l].(answers := groups[l].answers + [a])] + groups[l + 1..]
               else [Group(a.shm, [a])]
  {
    if l < |groups| { assert groups[l..][1..] == groups[l + 1..]; }
  }

  lemma WithoutIs(q: seq<Shm>, c: Shm)
    ensures forall x {:trigger x in Without(q, {c})} :: x in Without(q, {c}) <==> x in q && x != c
  {}

  lemma TableLinked(s: State, f: FontId)
    requires Inv(s) && f in s.fonts
    ensures forall g {:trigger s.fonts[f].table[g]} :: g in s.fonts[f].table ==> s.fonts[f].table[g].shm in s.caches
  {
    assert FontOk(s, f);
  }

  lemma PinNone(caches: map<Shm, Cache>)
    ensures PinAll(caches, []) == caches
  {}

  lemma PinOne(caches: map<Shm, Cache>, answer: seq<Answer>, a: Answer)
    requires a.shm in caches
    ensures var m := PinAll(caches, answer);
            PinAll(caches, answer + [a]) == m[a.shm := m[a.shm].(inuse := m[a.shm].inuse + 1)]
  {
    forall c: Shm ensures Pins(answer + [a], c) == Pins(answer, c) + if a.shm == c then 1 else 0 {
      PinsJoin(answer, [a], c);
      assert [a][1..] == [];
    }
  }
}
