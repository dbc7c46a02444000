/**
 The life of a glyph request: looked up and pinned, queued, prepared for the font slave,
 completed with the glyphs the slave packed, answered cache by cache.
 */
module GlyphRequests {
  import opened GlyphCache
  import opened GlyphPacking
  import opened Lists

  // ----- pinning --------------------------------------------------------------------

  /** Each cache pinned once for every one of the answers in it. */
  function PinAll(caches: map<Shm, Cache>, answer: seq<Answer>): (m: map<Shm, Cache>)
    ensures m.Keys == caches.Keys
  {
    map c | c in caches :: caches[c].(inuse := caches[c].inuse + Pins(answer, c))
  }

  // ----- groups ---------------------------------------------------------------------

  datatype Group = Group(shm: Shm, answers: seq<Answer>)

  function AddTo(gs: seq<Group>, a: Answer): seq<Group> {
    if gs == [] then [Group(a.shm, [a])]
    else if gs[0].shm == a.shm then [gs[0].(answers := gs[0].answers + [a])] + gs[1..]
    else [gs[0]] + AddTo(gs[1..], a)
  }

  /** _glyphs_group_create */
  function Groups(answer: seq<Answer>): seq<Group> {
    if answer == [] then [] else AddTo(Groups(answer[..|answer| - 1]), answer[|answer| - 1])
  }

  /** The answers in one cache, in their order. */
  function In(answer: seq<Answer>, c: Shm): seq<Answer> {
    if answer == [] then []
    else In(answer[..|answer| - 1], c) + if answer[|answer| - 1].shm == c then [answer[|answer| - 1]] else []
  }

  function Shms(gs: seq<Group>): seq<Shm> {
    if gs == [] then [] else [gs[0].shm] + Shms(gs[1..])
  }

  function GroupOf(gs: seq<Group>, c: Shm): seq<Answer> {
    if gs == [] then [] else if gs[0].shm == c then gs[0].answers else GroupOf(gs[1..], c)
  }

  lemma {:induction false} AddToIs(gs: seq<Group>, a: Answer)
    requires NoDup(Shms(gs))
    ensures NoDup(Shms(AddTo(gs, a)))
    ensures forall c {:trigger c in Shms(AddTo(gs, a))} :: c in Shms(AddTo(gs, a)) <==> c in Shms(gs) || c == a.shm
    ensures forall c: Shm {:trigger GroupOf(AddTo(gs, a), c)} ::
              GroupOf(AddTo(gs, a), c) == GroupOf(gs, c) + if c == a.shm then [a] else []
  {
    if gs == [] {
      assert Shms([Group(a.shm, [a])]) == [a.shm];
      assert forall c: Shm :: GroupOf([Group(a.shm, [a])], c) == if c == a.shm then [a] else [];
    } else if gs[0].shm == a.shm {
      var r := AddTo(gs, a);
      assert r[1..] == gs[1..] && Shms(r) == Shms(gs);
      forall c: Shm ensures GroupOf(r, c) == GroupOf(gs, c) + if c == a.shm then [a] else [] {}
    } else {
      AddToIs(gs[1..], a);
      var r := AddTo(gs, a);
      assert r[1..] == AddTo(gs[1..], a);
      assert Shms(r)[1..] == Shms(r[1..]) && Shms(gs)[1..] == Shms(gs[1..]);
      forall c: Shm ensures GroupOf(r, c) == GroupOf(gs, c) + if c == a.shm then [a] else [] {}
    }
  }

  /** One group for each cache, with exactly the answers in that cache, in their order. */
  lemma {:induction false} GroupsPartition(answer: seq<Answer>)
    ensures NoDup(Shms(Groups(answer)))
    ensures forall c: Shm {:trigger GroupOf(Groups(answer), c)} :: GroupOf(Groups(answer), c) == In(answer, c)
    ensures forall a {:trigger a in answer} :: a in answer ==> a.shm in Shms(Groups(answer))
    ensures forall c {:trigger c in Shms(Groups(answer))} :: c in Shms(Groups(answer)) ==>
              exists a :: a in answer && a.shm == c
  {
    if answer != [] {
      var n := |answer| - 1;
      GroupsPartition(answer[..n]);
      AddToIs(Groups(answer[..n]), answer[n]);
      assert forall a :: a in answer ==> a in answer[..n] || a == answer[n];
    }
  }

  lemma {:induction false} InPins(answer: seq<Answer>, c: Shm)
    ensures |In(answer, c)| == Pins(answer, c)
  {
    if answer != [] {
      var n := |answer| - 1;
      InPins(answer[..n], c);
      PinsJoin(answer[..n], [answer[n]], c);
      assert answer == answer[..n] + [answer[n]];
    }
  }

  // ----- answering ------------------------------------------------------------------

  /** inuse goes down by the size of each group. */
  function Unpin(caches: map<Shm, Cache>, gs: seq<Group>): (m: map<Shm, Cache>)
    ensures m.Keys == caches.Keys
  {
    if gs == [] then caches
    else
      var c := gs[0].shm;
      Unpin(if c in caches then caches[c := caches[c].(inuse := caches[c].inuse - |gs[0].answers|)] else caches, gs[1..])
  }

  /** _font_shm_promote for each group: the list is freed from its front, so that is the last place. */
  function Promote(lru: seq<Shm>, shms: seq<Shm>): seq<Shm>
    decreases shms
  {
    if shms == [] then lru else Promote(Without(lru, {shms[0]}) + [shms[0]], shms[1..])
  }

  lemma {:induction false} UnpinIs(caches: map<Shm, Cache>, gs: seq<Group>)
    requires NoDup(Shms(gs))
    ensures forall c {:trigger Unpin(caches, gs)[c]} :: c in caches ==>
              Unpin(caches, gs)[c] == caches[c].(inuse := caches[c].inuse - |GroupOf(gs, c)|)
  {
    if gs != [] {
      var c := gs[0].shm;
      var m := if c in caches then caches[c := caches[c].(inuse := caches[c].inuse - |gs[0].answers|)] else caches;
      assert Shms(gs)[1..] == Shms(gs[1..]);
      UnpinIs(m, gs[1..]);
      NoGroup(gs[1..], c);
    }
  }

  lemma {:induction false} NoGroup(gs: seq<Group>, c: Shm)
    requires c !in Shms(gs)
    ensures GroupOf(gs, c) == []
  {
    if gs != [] {
      assert Shms(gs)[1..] == Shms(gs[1..]);
      NoGroup(gs[1..], c);
    }
  }

  /** Answering takes back exactly the pins of the answer. */
  lemma UnpinUndoesPin(caches: map<Shm, Cache>, answer: seq<Answer>)
    ensures Unpin(PinAll(caches, answer), Groups(answer)) == caches
  {
    hide Groups, Unpin;
    GroupsPartition(answer);
    UnpinIs(PinAll(caches, answer), Groups(answer));
    forall c | c in caches ensures Unpin(PinAll(caches, answer), Groups(answer))[c] == caches[c] {
      InPins(answer, c);
    }
  }

  lemma {:induction false} PromoteKeeps(lru: seq<Shm>, shms: seq<Shm>)
    requires NoDup(lru) && forall c {:trigger c in shms} :: c in shms ==> c in lru
    ensures NoDup(Promote(lru, shms))
    ensures forall c {:trigger c in Promote(lru, shms)} :: c in Promote(lru, shms) <==> c in lru
    decreases shms
  {
    if shms != [] {
      assert shms[0] in shms && forall c {:trigger c in shms[1..]} :: c in shms[1..] ==> c in shms;
      WithoutNoDup(lru, {shms[0]});
      AppendNoDup(Without(lru, {shms[0]}), shms[0]);
      PromoteKeeps(Without(lru, {shms[0]}) + [shms[0]], shms[1..]);
    }
  }

  /** The sum over the list does not depend on its order. */
  lemma {:induction false} PromoteMem(lru: seq<Shm>, shms: seq<Shm>, caches: map<Shm, Cache>)
    requires NoDup(lru) && (forall c {:trigger c in shms} :: c in shms ==> c in lru)
    requires forall c {:trigger c in lru} :: c in lru ==> c in caches
    ensures Mem(Promote(lru, shms), caches) == Mem(lru, caches)
    decreases shms
  {
    if shms != [] {
      assert shms[0] in shms && forall c {:trigger c in shms[1..]} :: c in shms[1..] ==> c in shms;
      WithoutNoDup(lru, {shms[0]});
      AppendNoDup(Without(lru, {shms[0]}), shms[0]);
      MemWithout(lru, shms[0], caches);
      MemAppend(Without(lru, {shms[0]}), shms[0], caches);
      PromoteMem(Without(lru, {shms[0]}) + [shms[0]], shms[1..], caches);
    }
  }

  function Members(shms: seq<Shm>): set<Shm> {
    set c | c in shms
  }

  /** The caches answered from are afterwards the last of the list, in the order of the groups. */
  lemma {:induction false} PromoteIs(lru: seq<Shm>, shms: seq<Shm>)
    requires NoDup(shms)
    ensures Promote(lru, shms) == Without(lru, Members(shms)) + shms
    decreases shms
  {
    hide Without;
    if shms == [] {
      WithoutNone(lru, Members(shms));
      assert lru + [] == lru;
    } else {
      var x, rest := shms[0], shms[1..];
      var w := Without(lru, {x});
      PromoteIs(w + [x], rest);
      WithoutAppend(w, x, Members(rest));
      WithoutTwice(lru, {x}, Members(rest));
      assert {x} + Members(rest) == Members(shms);
      var kept := Without(lru, Members(shms));
      assert Promote(lru, shms) == kept + [x] + rest;
      assert shms == [x] + rest && kept + [x] + rest == kept + ([x] + rest);
    }
  }

  lemma {:induction false} WithoutAppend(q: seq<Shm>, x: Shm, gone: set<Shm>)
    requires x !in gone
    ensures Without(q + [x], gone) == Without(q, gone) + [x]
  {
    if q == [] {
      assert q + [x] == [x] && [x][1..] == [];
    } else {
      assert (q + [x])[1..] == q[1..] + [x];
      WithoutAppend(q[1..], x, gone);
    }
  }

  // ----- the steps of a request -----------------------------------------------------

  /** The glyphs found in the table up to the first that is not. */
  function FoundPrefix(table: map<nat, Answer>, glyphs: seq<nat>): seq<Answer> {
    if glyphs == [] || glyphs[0] !in table then [] else [table[glyphs[0]]] + FoundPrefix(table, glyphs[1..])
  }

  function Found(table: map<nat, Answer>, glyphs: seq<nat>): seq<Answer> {
    if glyphs == [] then []
    else (if glyphs[0] in table then [table[glyphs[0]]] else []) + Found(table, glyphs[1..])
  }

  function NotFound(table: map<nat, Answer>, glyphs: seq<nat>): seq<nat> {
    if glyphs == [] then []
    else (if glyphs[0] in table then [] else [glyphs[0]]) + NotFound(table, glyphs[1..])
  }

  function Enqueue(s: State, r: Req): State {
    s.(caches := PinAll(s.caches, r.answer), pending := s.pending + [r])
  }

  /** _glyphs_loaded_msg_create for the last request of the queue, which is then done. */
  function Deliver(s: State): State
    requires s.pending != []
  {
    var answer := s.pending[|s.pending| - 1].answer;
    var gs := Groups(answer);
    s.(caches := Unpin(s.caches, gs), lru := Promote(s.lru, Shms(gs)), pending := s.pending[..|s.pending| - 1])
  }

  /** cserve2_cache_font_glyphs_load: answered at once when everything is there. */
  function Ask(s: State, f: FontId, glyphs: seq<nat>): State
    requires f in s.fonts
  {
    var found := FoundPrefix(s.fonts[f].table, glyphs);
    var s1 := Enqueue(s, Req(f, glyphs, |found|, [], found));
    if |found| == |glyphs| then Deliver(s1) else s1
  }

  /** cserve2_cache_font_glyphs_used: the caches are promoted, and stay pinned. */
  function Used(s: State, f: FontId, glyphs: seq<nat>): State
    requires f in s.fonts
  {
    var found := FoundPrefix(s.fonts[f].table, glyphs);
    s.(caches := PinAll(s.caches, found), lru := Promote(s.lru, Shms(Groups(found))))
  }

  /** _glyphs_load_request_build, with its preparation, when the font slave is free. */
  function Dispatch(s: State, i: nat): State
    requires i < |s.pending| && s.pending[i].font in s.fonts && s.pending[i].current <= |s.pending[i].glyphs|
    requires s.fonts[s.pending[i].font].last.Some? ==> s.fonts[s.pending[i].font].last.value in s.caches
  {
    var r := s.pending[i];
    var fe := s.fonts[r.font];
    var todo := r.glyphs[r.current..];
    var found := Found(fe.table, todo);
    s.(caches := PinAll(s.caches, found), pending := s.pending[..i] + s.pending[i + 1..],
       work := Some(Work(r.(render := NotFound(fe.table, todo), answer := r.answer + found), fe.last,
                         if fe.last.Some? then s.caches[fe.last.value].usage else 0, false)))
  }

  /** The request is given up: _glyphs_load_request_failed does nothing, so its pins stay. */
  function Fail(s: State): State {
    s.(work := None)
  }

  // ----- they keep the invariant ----------------------------------------------------

  lemma {:induction false} FoundPrefixLinked(s: State, f: FontId, glyphs: seq<nat>)
    requires FontsOk(s) && f in s.fonts
    ensures AllLinked(s, FoundPrefix(s.fonts[f].table, glyphs)) && |FoundPrefix(s.fonts[f].table, glyphs)| <= |glyphs|
  {
    if glyphs != [] && glyphs[0] in s.fonts[f].table {
      assert FontOk(s, f) && Linked(s, s.fonts[f].table[glyphs[0]]);
      FoundPrefixLinked(s, f, glyphs[1..]);
    }
  }

  lemma {:induction false} FoundLinked(s: State, f: FontId, glyphs: seq<nat>)
    requires FontsOk(s) && f in s.fonts
    ensures AllLinked(s, Found(s.fonts[f].table, glyphs))
  {
    if glyphs != [] {
      assert FontOk(s, f);
      if glyphs[0] in s.fonts[f].table { assert Linked(s, s.fonts[f].table[glyphs[0]]); }
      FoundLinked(s, f, glyphs[1..]);
    }
  }

  /** The caches differ in their pins alone. */
  ghost predicate SameButPins(a: map<Shm, Cache>, b: map<Shm, Cache>) {
    a.Keys == b.Keys && forall c {:trigger a[c]} {:trigger b[c]} :: c in a ==> b[c] == a[c].(inuse := b[c].inuse)
  }

  /** Lists, tables and sizes do not look at the pins. */
  lemma PinsAside(s: State, t: State)
    requires FontsOk(s) && LruOk(s) && t.fonts == s.fonts && t.mem == s.mem && SameButPins(s.caches, t.caches)
    requires NoDup(t.lru) && (forall c {:trigger c in t.lru} :: c in t.lru <==> c in s.lru)
    requires Mem(t.lru, s.caches) == Mem(s.lru, s.caches)
    ensures FontsOk(t) && LruOk(t)
  {
    assert forall c :: c in t.lru ==> c in s.caches;
    MemSame(t.lru, s.caches, t.caches);
    forall f | f in t.fonts ensures FontOk(t, f) {
      assert FontOk(s, f);
      forall g | g in t.fonts[f].table ensures Linked(t, t.fonts[f].table[g]) {
        assert Linked(s, s.fonts[f].table[g]);
      }
    }
  }

  lemma StillLinked(s: State, t: State, answer: seq<Answer>)
    requires AllLinked(s, answer) && SameButPins(s.caches, t.caches)
    ensures AllLinked(t, answer)
  {
    forall a | a in answer ensures Linked(t, a) { assert Linked(s, a); }
  }

  lemma StillAllLinked(s: State, t: State, reqs: seq<Req>)
    requires ReqsLinked(s, reqs) && SameButPins(s.caches, t.caches)
    ensures ReqsLinked(t, reqs)
  {
    forall r | r in reqs ensures AllLinked(t, r.answer) && r.current <= |r.glyphs| { StillLinked(s, t, r.answer); }
  }

  lemma EnqueueKeeps(s: State, r: Req)
    requires Inv(s) && AllLinked(s, r.answer) && r.current <= |r.glyphs|
    ensures Inv(Enqueue(s, r))
  {
    hide Packed, ReqsLinked, AllLinked;
    var t := Enqueue(s, r);
    PinsAside(s, t);
    StillAllLinked(s, t, s.pending);
    StillLinked(s, t, r.answer);
    LinkedAppend(t, s.pending, r);
    if s.work.Some? { StillLinked(s, t, s.work.value.req.answer); }
    forall c: Shm ensures PinsOf(t.pending, c) == PinsOf(s.pending, c) + Pins(r.answer, c) {
      PinsOfJoin(s.pending, [r], c);
      assert PinsOf([r], c) == PinsOf([], c) + Pins(r.answer, c);
    }
  }

  lemma LinkedAppend(s: State, reqs: seq<Req>, r: Req)
    requires ReqsLinked(s, reqs) && AllLinked(s, r.answer) && r.current <= |r.glyphs|
    ensures ReqsLinked(s, reqs + [r])
  {}

  lemma DeliverPins(s: State)
    requires s.pending != []
    ensures SameButPins(s.caches, Deliver(s).caches)
    ensures forall c {:trigger Deliver(s).caches[c]} :: c in s.caches ==>
              Deliver(s).caches[c].inuse - Pinned(Deliver(s), c) == s.caches[c].inuse - Pinned(s, c)
  {
    hide Groups, Promote, Unpin, Shms;
    var t := Deliver(s);
    var n := |s.pending| - 1;
    var answer := s.pending[n].answer;
    GroupsPartition(answer);
    UnpinIs(s.caches, Groups(answer));
    forall c | c in s.caches ensures t.caches[c].inuse - Pinned(t, c) == s.caches[c].inuse - Pinned(s, c) {
      InPins(answer, c);
      PinsOfJoin(s.pending[..n], [s.pending[n]], c);
      assert s.pending == s.pending[..n] + [s.pending[n]];
      assert PinsOf([s.pending[n]], c) == PinsOf([], c) + Pins(answer, c);
    }
  }

  lemma DeliverKeeps(s: State)
    requires Inv(s) && s.pending != []
    ensures Inv(Deliver(s))
  {
    hide Packed, ReqsLinked, AllLinked, Groups, Promote, Unpin, Shms, Pinned;
    var t := Deliver(s);
    var n := |s.pending| - 1;
    var answer := s.pending[n].answer;
    var gs := Groups(answer);
    LinkedInit(s, s.pending);
    AnsweredAreListed(s, answer);
    PromoteKeeps(s.lru, Shms(gs));
    PromoteMem(s.lru, Shms(gs), s.caches);
    DeliverPins(s);
    PinsAside(s, t);
    StillAllLinked(s, t, s.pending[..n]);
    if s.work.Some? { StillLinked(s, t, s.work.value.req.answer); }
  }

  lemma LinkedInit(s: State, reqs: seq<Req>)
    requires ReqsLinked(s, reqs) && reqs != []
    ensures ReqsLinked(s, reqs[..|reqs| - 1]) && AllLinked(s, reqs[|reqs| - 1].answer)
  {
    forall r | r in reqs[..|reqs| - 1] ensures AllLinked(s, r.answer) && r.current <= |r.glyphs| { assert r in reqs; }
    assert reqs[|reqs| - 1] in reqs;
  }

  lemma AnsweredAreListed(s: State, answer: seq<Answer>)
    requires LruOk(s) && AllLinked(s, answer)
    ensures forall c {:trigger c in Shms(Groups(answer))} :: c in Shms(Groups(answer)) ==> c in s.lru
  {
    GroupsPartition(answer);
    forall c | c in Shms(Groups(answer)) ensures c in s.lru {
      var a :| a in answer && a.shm == c;
      assert Linked(s, a);
    }
  }

  lemma AskKeeps(s: State, f: FontId, glyphs: seq<nat>)
    requires Inv(s) && f in s.fonts
    ensures Inv(Ask(s, f, glyphs))
  {
    hide CachesOk, LruOk, AnswersOk, WorkOk;
    var found := FoundPrefix(s.fonts[f].table, glyphs);
    FoundPrefixLinked(s, f, glyphs);
    var r := Req(f, glyphs, |found|, [], found);
    EnqueueKeeps(s, r);
    if |found| == |glyphs| { DeliverKeeps(Enqueue(s, r)); }
  }

  lemma UsedKeeps(s: State, f: FontId, glyphs: seq<nat>)
    requires Inv(s) && f in s.fonts
    ensures Inv(Used(s, f, glyphs))
  {
    hide Packed, ReqsLinked, AllLinked, Groups, Promote, Shms;
    var t := Used(s, f, glyphs);
    var found := FoundPrefix(s.fonts[f].table, glyphs);
    FoundPrefixLinked(s, f, glyphs);
    AnsweredAreListed(s, found);
    PromoteKeeps(s.lru, Shms(Groups(found)));
    PromoteMem(s.lru, Shms(Groups(found)), s.caches);
    PinsAside(s, t);
    StillAllLinked(s, t, s.pending);
    if s.work.Some? { StillLinked(s, t, s.work.value.req.answer); }
  }

  lemma DispatchKeeps(s: State, i: nat)
    requires Inv(s) && s.work.None? && i < |s.pending| && s.pending[i].font in s.fonts
    ensures s.pending[i].current <= |s.pending[i].glyphs|
    ensures s.fonts[s.pending[i].font].last.Some? ==> s.fonts[s.pending[i].font].last.value in s.caches
    ensures Inv(Dispatch(s, i))
  {
    hide Packed, Found, NotFound;
    var r := s.pending[i];
    assert r in s.pending && AllLinked(s, r.answer);
    assert FontOk(s, r.font);
    hide ReqsLinked, AllLinked;
    var t := Dispatch(s, i);
    var found := Found(s.fonts[r.font].table, r.glyphs[r.current..]);
    FoundLinked(s, r.font, r.glyphs[r.current..]);
    PinsAside(s, t);
    LinkedSplit(s, i);
    StillAllLinked(s, t, t.pending);
    LinkedJoin(s, r.answer, found);
    StillLinked(s, t, r.answer + found);
    forall c: Shm ensures PinsOf(s.pending, c) == PinsOf(t.pending, c) + Pins(r.answer, c)
                          && Pins(r.answer + found, c) == Pins(r.answer, c) + Pins(found, c) {
      TakePins(s.pending, i, c);
      PinsJoin(r.answer, found, c);
    }
  }

  lemma TakePins(reqs: seq<Req>, i: nat, c: Shm)
    requires i < |reqs|
    ensures PinsOf(reqs, c) == PinsOf(reqs[..i] + reqs[i + 1..], c) + Pins(reqs[i].answer, c)
  {
    PinsOfJoin(reqs[..i], reqs[i..], c);
    PinsOfJoin(reqs[..i], reqs[i + 1..], c);
    assert reqs == reqs[..i] + reqs[i..] && reqs[i..][1..] == reqs[i + 1..];
  }

  lemma LinkedSplit(s: State, i: nat)
    requires ReqsLinked(s, s.pending) && i < |s.pending|
    ensures ReqsLinked(s, s.pending[..i] + s.pending[i + 1..])
  {
    forall r | r in s.pending[..i] + s.pending[i + 1..] ensures AllLinked(s, r.answer) && r.current <= |r.glyphs| {
      assert r in s.pending;
    }
  }

  lemma LinkedJoin(s: State, a: seq<Answer>, b: seq<Answer>)
    requires AllLinked(s, a) && AllLinked(s, b)
    ensures AllLinked(s, a + b)
  {}

  /** Whatever is asked for is either answered from the caches or handed to the slave. */
  lemma {:induction false} NothingForgotten(table: map<nat, Answer>, glyphs: seq<nat>, g: nat)
    requires g in glyphs
    ensures if g in table then table[g] in Found(table, glyphs) else g in NotFound(table, glyphs)
  {
    if g != glyphs[0] { NothingForgotten(table, glyphs[1..], g); }
  }
}
