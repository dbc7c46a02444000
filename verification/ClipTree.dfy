/**
 The cached clips of the objects of a canvas: dirty flags below every stale object, caches
 of clean objects equal to a computation from scratch, links between clipper and clipees.
 A clipper chain has no cycle: `rank` rises from a clipper to its clipees.
 */
module ClipTree {
  import opened Lists
  import opened ClipGeometry
  import opened ClipDirty

  type Rank = map<EvasObject, nat>

  ghost predicate Ranked(objs: set<EvasObject>, rank: Rank)
    reads objs`clipper
  {
    && rank.Keys == objs
    && (forall o {:trigger o.clipper} :: o in objs && o.clipper != null ==>
          o.clipper in objs && rank[o.clipper] < rank[o])
  }

  /** o is among the clipees of its clipper, once, and of no other. */
  ghost predicate Linked(objs: set<EvasObject>)
    reads objs`clipper, objs`clipees
  {
    && (forall o {:trigger o.clipees} :: o in objs ==> NoDup(o.clipees))
    && (forall o, c {:trigger c in o.clipees} :: o in objs && c in o.clipees ==> c in objs && c.clipper == o)
    && (forall c {:trigger c.clipper} :: c in objs && c.clipper != null ==>
          c.clipper in objs && c in c.clipper.clipees)
  }

  /** Below a dirty object everything is dirty. */
  ghost predicate Closed(objs: set<EvasObject>)
    reads objs`clipper, objs`dirty
  {
    forall c {:trigger c.clipper} :: c in objs && c.clipper != null && c.clipper in objs && c.clipper.dirty ==> c.dirty
  }

  function Above(o: EvasObject): Option<(int, Cache)>
    reads o, o.clipper
  {
    if o.clipper == null then None else Some((o.clipper.own.mapParent, o.clipper.cache))
  }

  /** The cache of a clean object follows from its own fields and its clipper's cache. */
  ghost predicate FreshAt(o: EvasObject)
    reads o, o.clipper
  {
    o.dirty || o.cache == Compose(o.own, Above(o))
  }

  ghost predicate Fresh(objs: set<EvasObject>)
    reads objs, set o | o in objs :: o.clipper
  {
    forall o {:trigger FreshAt(o)} :: o in objs ==> FreshAt(o)
  }

  ghost predicate Valid(objs: set<EvasObject>, rank: Rank)
    reads objs, set o | o in objs :: o.clipper
  {
    Ranked(objs, rank) && Linked(objs) && Closed(objs) && Fresh(objs)
  }

  // ----- the chain of clippers ------------------------------------------------------

  /** o, its clipper, the clipper's clipper and so on. */
  ghost function Up(o: EvasObject, objs: set<EvasObject>, rank: Rank): (s: set<EvasObject>)
    requires o in objs && Ranked(objs, rank)
    reads objs`clipper
    ensures o in s && s <= objs
    decreases rank[o]
  {
    {o} + if o.clipper == null then {} else Up(o.clipper, objs, rank)
  }

  /** The clip of o computed from scratch, all the way up. */
  ghost function Full(o: EvasObject, objs: set<EvasObject>, rank: Rank): Cache
    requires o in objs && Ranked(objs, rank)
    reads objs
    decreases rank[o]
  {
    Compose(o.own, if o.clipper == null then None
                   else Some((o.clipper.own.mapParent, Full(o.clipper, objs, rank))))
  }

  /** Every clean object has exactly the clip a computation from scratch would give it. */
  lemma {:induction false} CleanIsExact(o: EvasObject, objs: set<EvasObject>, rank: Rank)
    requires o in objs && Valid(objs, rank) && !o.dirty
    ensures o.cache == Full(o, objs, rank)
    decreases rank[o]
  {
    assert FreshAt(o);
    if o.clipper != null {
      CleanIsExact(o.clipper, objs, rank);
    }
  }

  /** The clipped area: where o and all its clippers are, when no map lies between. */
  lemma {:induction false} ClipIsCommonArea(o: EvasObject, objs: set<EvasObject>, rank: Rank, px: int, py: int)
    requires o in objs && Ranked(objs, rank)
    requires forall c {:trigger c.own} :: c in Up(o, objs, rank) ==> c.own.mapParent == o.own.mapParent && c.own.mapped.None?
    ensures Covers(Full(o, objs, rank).box, px, py) <==>
            forall c {:trigger c.own} :: c in Up(o, objs, rank) ==> Covers(c.own.geometry, px, py)
    decreases rank[o]
  {
    if o.clipper != null {
      ClipIsCommonArea(o.clipper, objs, rank, px, py);
      ClipToIsIntersection(o.own.geometry, Full(o.clipper, objs, rank).box, px, py);
      assert forall c :: c in Up(o.clipper, objs, rank) ==> c in Up(o, objs, rank);
      assert o in Up(o, objs, rank);
    }
  }

  lemma {:induction false} DirtyBelow(o: EvasObject, y: EvasObject, objs: set<EvasObject>, rank: Rank)
    requires o in objs && Ranked(objs, rank) && Closed(objs) && y in Up(o, objs, rank) && y.dirty
    ensures o.dirty
    decreases rank[o]
  {
    if y != o { DirtyBelow(o.clipper, y, objs, rank); }
  }

  lemma {:induction false} UpRank(o: EvasObject, y: EvasObject, objs: set<EvasObject>, rank: Rank)
    requires o in objs && Ranked(objs, rank) && y in Up(o, objs, rank)
    ensures y == o || rank[y] < rank[o]
    decreases rank[o]
  {
    if y != o { UpRank(o.clipper, y, objs, rank); }
  }

  // ----- evas_object_clip_recalc ----------------------------------------------------

  /** With events frozen nothing happens; otherwise o and its clippers are clean after. */
  method ClipRecalc(o: EvasObject, frozen: bool, ghost objs: set<EvasObject>, ghost rank: Rank)
    requires o in objs && Valid(objs, rank)
    modifies objs`dirty, objs`cache
    ensures Valid(objs, rank)
    ensures frozen ==> Dirty(objs) == old(Dirty(objs))
    ensures !frozen ==> Dirty(objs) == old(Dirty(objs)) - Up(o, objs, rank)
    decreases rank[o]
  {
    if !o.dirty && o.clipper != null && !o.clipper.dirty {
      CleanUp(o, objs, rank);
      return;
    }
    if frozen {
      return;
    }
    if o.clipper != null {
      if o.clipper.dirty {
        ClipRecalc(o.clipper, frozen, objs, rank);
      }
      CleanUp(o.clipper, objs, rank);
    }
    Recompute(o, objs, rank);
  }

  /** The end of evas_object_clip_recalc, when the clipper's cache is right. */
  method Recompute(o: EvasObject, ghost objs: set<EvasObject>, ghost rank: Rank)
    requires o in objs && Valid(objs, rank) && (o.clipper == null || !o.clipper.dirty)
    modifies o`dirty, o`cache
    ensures Valid(objs, rank) && Dirty(objs) == old(Dirty(objs)) - {o}
  {
    assert FreshAt(o);
    o.cache := Compose(o.own, Above(o));
    o.dirty := false;
    forall x | x in objs ensures FreshAt(x) {
      assert old(FreshAt(x));
      assert x.clipper == o && old(o.dirty) ==> x.dirty;
    }
  }

  /** A clean object has no dirty object above it. */
  lemma CleanUp(o: EvasObject, objs: set<EvasObject>, rank: Rank)
    requires o in objs && Ranked(objs, rank) && Closed(objs) && !o.dirty
    ensures Up(o, objs, rank) !! Dirty(objs)
  {
    forall y | y in Up(o, objs, rank) ensures y !in Dirty(objs) {
      if y.dirty { DirtyBelow(o, y, objs, rank); }
    }
  }

  // ----- evas_object_recalc_clippees ------------------------------------------------

  /** Everything that has one of cs in its chain of clippers. */
  ghost function BelowAny(cs: seq<EvasObject>, objs: set<EvasObject>, rank: Rank): set<EvasObject>
    requires Ranked(objs, rank)
    reads objs`clipper
  {
    set x | x in objs && exists c :: c in cs && c in Up(x, objs, rank)
  }

  ghost function Below(o: EvasObject, objs: set<EvasObject>, rank: Rank): set<EvasObject>
    requires Ranked(objs, rank)
    reads objs`clipper
  {
    set x | x in objs && o in Up(x, objs, rank)
  }

  lemma {:induction false} BelowThroughClipee(o: EvasObject, x: EvasObject, objs: set<EvasObject>, rank: Rank)
    requires x in objs && o in objs && Ranked(objs, rank) && Linked(objs) && o in Up(x, objs, rank) && x != o
    ensures exists c :: c in o.clipees && c in Up(x, objs, rank)
    decreases rank[x]
  {
    if x.clipper == o {
      assert x in o.clipees && x in Up(x, objs, rank);
    } else {
      BelowThroughClipee(o, x.clipper, objs, rank);
    }
  }

  lemma BelowIsSelfAndClipees(o: EvasObject, objs: set<EvasObject>, rank: Rank)
    requires o in objs && Ranked(objs, rank) && Linked(objs)
    ensures Below(o, objs, rank) == {o} + BelowAny(o.clipees, objs, rank)
  {
    forall x | x in Below(o, objs, rank) && x != o ensures x in BelowAny(o.clipees, objs, rank) {
      BelowThroughClipee(o, x, objs, rank);
    }
    forall x, c | x in objs && c in o.clipees && c in Up(x, objs, rank) ensures o in Up(x, objs, rank) {
      UpTrans(x, c, objs, rank);
      assert o in Up(c, objs, rank);
    }
  }

  lemma {:induction false} UpTrans(x: EvasObject, c: EvasObject, objs: set<EvasObject>, rank: Rank)
    requires x in objs && Ranked(objs, rank) && c in Up(x, objs, rank)
    ensures Up(c, objs, rank) <= Up(x, objs, rank)
    decreases rank[x]
  {
    if c != x { UpTrans(x.clipper, c, objs, rank); }
  }

  /** A clipee of o is under no other clipee of o. */
  lemma SiblingsApart(o: EvasObject, l: nat, objs: set<EvasObject>, rank: Rank)
    requires o in objs && Ranked(objs, rank) && Linked(objs) && l < |o.clipees|
    ensures o.clipees[l] in objs && o.clipees[l].clipper == o
    ensures o.clipees[l] !in Up(o, objs, rank) && o.clipees[l] !in BelowAny(o.clipees[..l], objs, rank)
  {
    var c := o.clipees[l];
    assert c in o.clipees;
    if c in Up(o, objs, rank) { UpRank(o, c, objs, rank); }
    forall b | b in o.clipees[..l] ensures b !in Up(c, objs, rank) {
      assert b in o.clipees && b.clipper == o;
      DistinctIn(o.clipees, l, b);
      if b in Up(o, objs, rank) { UpRank(o, b, objs, rank); }
    }
  }

  lemma {:induction false} DistinctIn(q: seq<EvasObject>, l: nat, b: EvasObject)
    requires NoDup(q) && l < |q| && b in q[..l]
    ensures b != q[l]
  {
    if q[0] == b {
      assert q[l] in q[1..];
    } else {
      assert q[..l][1..] == q[1..][..l - 1];
      DistinctIn(q[1..], l - 1, b);
    }
  }

  lemma OneMoreClipee(o: EvasObject, l: nat, objs: set<EvasObject>, rank: Rank)
    requires o in objs && Ranked(objs, rank) && Linked(objs) && l < |o.clipees|
    ensures BelowAny(o.clipees[..l + 1], objs, rank)
            == BelowAny(o.clipees[..l], objs, rank) + Below(o.clipees[l], objs, rank)
    ensures o.clipees[l] in objs && o.clipees[l].clipper == o
    ensures Up(o.clipees[l], objs, rank) == {o.clipees[l]} + Up(o, objs, rank)
    ensures o.clipees[l] in Below(o.clipees[l], objs, rank)
  {
    assert o.clipees[..l + 1] == o.clipees[..l] + [o.clipees[l]];
    assert o.clipees[l] in o.clipees;
  }

  /** A dirty object and everything under it become clean; the rest stays as it is. */
  method RecalcClippees(o: EvasObject, frozen: bool, ghost objs: set<EvasObject>, ghost rank: Rank, ghost top: nat)
    requires o in objs && Valid(objs, rank) && forall x {:trigger rank[x]} :: x in objs ==> rank[x] <= top
    modifies objs`dirty, objs`cache
    ensures Valid(objs, rank)
    ensures frozen || !old(o.dirty) ==> Dirty(objs) == old(Dirty(objs))
    ensures !frozen && old(o.dirty) ==>
              Dirty(objs) == old(Dirty(objs)) - Up(o, objs, rank) - Below(o, objs, rank)
    decreases top - rank[o]
  {
    if o.dirty {
      ghost var d := Dirty(objs);
      ClipRecalc(o, frozen, objs, rank);
      ghost var d1 := Dirty(objs);
      var l := 0;
      while l < |o.clipees|
        invariant l <= |o.clipees| && Valid(objs, rank)
        invariant frozen ==> Dirty(objs) == d
        invariant !frozen ==> Dirty(objs) == d1 - BelowAny(o.clipees[..l], objs, rank)
      {
        SiblingsApart(o, l, objs, rank);
        var data := o.clipees[l];
        OneMoreClipee(o, l, objs, rank);
        assert data in d;
        assert !frozen ==> data in Dirty(objs) && Up(o, objs, rank) !! Dirty(objs);
        RecalcClippees(data, frozen, objs, rank, top);
        l := l + 1;
      }
      assert o.clipees[..l] == o.clipees;
      BelowIsSelfAndClipees(o, objs, rank);
    }
  }

  // ----- changes --------------------------------------------------------------------

  lemma {:induction false} WithinIsBelow(o: EvasObject, objs: set<EvasObject>, rank: Rank, n: nat)
    requires o in objs && Ranked(objs, rank) && Linked(objs)
    ensures Within(GraphOf(objs), o, {}, n) <= Below(o, objs, rank)
  {
    if n != 0 {
      WithinIsBelow(o, objs, rank, n - 1);
      var g := GraphOf(objs);
      forall y, z | y in Within(g, o, {}, n - 1) && y in g && z in g[y] ensures z in Below(o, objs, rank) {
        assert z in y.clipees && z.clipper == y;
      }
    }
  }

  lemma {:induction false} BelowIsReached(o: EvasObject, x: EvasObject, objs: set<EvasObject>, rank: Rank)
    requires o in objs && x in objs && Ranked(objs, rank) && Linked(objs) && o in Up(x, objs, rank)
    ensures Reaches(GraphOf(objs), o, {}, x)
    decreases rank[x]
  {
    var g := GraphOf(objs);
    if x == o {
      ReachesSelf(g, o, {});
    } else {
      BelowIsReached(o, x.clipper, objs, rank);
      assert x in g[x.clipper];
      ReachesOn(g, o, {}, x.clipper, x);
    }
  }

  ghost predicate ClosedBut(objs: set<EvasObject>, o: EvasObject)
    reads objs`clipper, objs`dirty
  {
    forall c {:trigger c.clipper} ::
      c in objs && c != o && c.clipper != null && c.clipper in objs && c.clipper.dirty ==> c.dirty
  }

  ghost predicate FreshBut(objs: set<EvasObject>, o: EvasObject)
    reads objs, set o | o in objs :: o.clipper
  {
    forall x {:trigger FreshAt(x)} :: x in objs && x != o && x.clipper != o ==> FreshAt(x)
  }

  /** After a change to o alone, marking o is enough: every stale cache is marked dirty. */
  method DirtyAfterChange(o: EvasObject, ghost objs: set<EvasObject>, ghost rank: Rank)
    requires o in objs && Ranked(objs, rank) && Linked(objs) && ClosedBut(objs, o) && FreshBut(objs, o)
    modifies objs`dirty
    ensures Valid(objs, rank) && Dirty(objs) == old(Dirty(objs)) + Below(o, objs, rank)
  {
    ghost var g, d := GraphOf(objs), Dirty(objs);
    ObjectClipDirty(o, objs);
    EarlyReturnIsSafe(g, o, d, Dirty(objs));
    forall x | x in objs ensures Reaches(g, o, {}, x) <==> x in Below(o, objs, rank) {
      if o in Up(x, objs, rank) { BelowIsReached(o, x, objs, rank); }
      forall n: nat ensures x in Within(g, o, {}, n) ==> x in Below(o, objs, rank) {
        WithinIsBelow(o, objs, rank, n);
      }
    }
    forall c | c in objs && c.clipper != null && c.clipper.dirty ensures c.dirty {
      assert c in g[c.clipper];
    }
    forall x | x in objs ensures FreshAt(x) {
      if x != o && x.clipper != o {
        assert old(FreshAt(x));
        assert x in d ==> x in Dirty(objs);
      } else {
        assert x.dirty;
      }
    }
  }

  /**
   A setter such as evas_object_move or evas_object_show: one object's own fields change,
   it is marked, and unless events are frozen everything under it is computed again.
   */
  method Change(o: EvasObject, own: Own, frozen: bool, ghost objs: set<EvasObject>, ghost rank: Rank, ghost top: nat)
    requires o in objs && Valid(objs, rank) && forall x {:trigger rank[x]} :: x in objs ==> rank[x] <= top
    modifies objs`dirty, objs`cache, o`own
    ensures Valid(objs, rank) && o.own == own
    ensures frozen ==> Dirty(objs) == old(Dirty(objs)) + Below(o, objs, rank)
    ensures !frozen ==> Dirty(objs) == old(Dirty(objs)) - Up(o, objs, rank) - Below(o, objs, rank)
  {
    o.own := own;
    ghost var d := Dirty(objs);
    forall x | x in objs && x != o && x.clipper != o ensures FreshAt(x) {
      assert old(FreshAt(x));
    }
    DirtyAfterChange(o, objs, rank);
    assert o in Below(o, objs, rank);
    if !frozen {
      RecalcClippees(o, frozen, objs, rank, top);
    }
  }

  /** eina_list_remove */
  function Removed(q: seq<EvasObject>, o: EvasObject): seq<EvasObject> {
    if q == [] then [] else if q[0] == o then q[1..] else [q[0]] + Removed(q[1..], o)
  }

  lemma {:induction false} RemovedKeeps(q: seq<EvasObject>, o: EvasObject)
    requires NoDup(q)
    ensures NoDup(Removed(q, o))
    ensures forall x {:trigger x in Removed(q, o)} :: x in Removed(q, o) <==> x in q && x != o
  {
    if q != [] && q[0] != o {
      RemovedKeeps(q[1..], o);
      assert ([q[0]] + Removed(q[1..], o))[1..] == Removed(q[1..], o);
    }
  }

  /** Takes o out of the clipees of its clipper. */
  method Unlink(o: EvasObject, ghost objs: set<EvasObject>, ghost rank: Rank)
    requires o in objs && Valid(objs, rank) && o.clipper != null
    modifies o`clipper, o.clipper`clipees
    ensures o.clipper == null
    ensures old(o.clipper).clipees == Removed(old(o.clipper.clipees), o)
    ensures Ranked(objs, rank) && Linked(objs) && ClosedBut(objs, o) && FreshBut(objs, o)
  {
    RemovedKeeps(o.clipper.clipees, o);
    o.clipper.clipees := Removed(o.clipper.clipees, o);
    o.clipper := null;
    forall x | x in objs && x != o && x.clipper != o ensures FreshAt(x) {
      assert old(FreshAt(x));
    }
  }

  /** evas_object_clip_unset */
  method ClipUnset(o: EvasObject, frozen: bool, ghost objs: set<EvasObject>, ghost rank: Rank, ghost top: nat)
    requires o in objs && Valid(objs, rank) && forall x {:trigger rank[x]} :: x in objs ==> rank[x] <= top
    modifies objs`dirty, objs`cache, objs`clipper, objs`clipees
    ensures Valid(objs, rank) && o.clipper == null
    ensures forall x :: x in objs && x != o ==> x.clipper == old(x.clipper)
    ensures forall x :: x in objs ==>
              x.clipees == if old(o.clipper) == x then Removed(old(x.clipees), o) else old(x.clipees)
    ensures old(o.clipper) == null ==> Dirty(objs) == old(Dirty(objs))
    ensures frozen && old(o.clipper) != null ==>
              Dirty(objs) == old(Dirty(objs)) + Below(o, objs, rank)
    ensures !frozen && old(o.clipper) != null ==>
              Dirty(objs) == old(Dirty(objs)) - Below(o, objs, rank)
  {
    if o.clipper == null {
      return;
    }
    Unlink(o, objs, rank);
    DirtyAfterChange(o, objs, rank);
    assert o in Below(o, objs, rank);
    RecalcClippees(o, frozen, objs, rank, top);
  }

  /** evas_object_clip_set: the rank of the clipper is lower, so no cycle comes about. */
  method ClipSet(o: EvasObject, clip: EvasObject, frozen: bool,
                 ghost objs: set<EvasObject>, ghost rank: Rank, ghost top: nat)
    requires o in objs && clip in objs && Valid(objs, rank)
    requires o != clip ==> rank[clip] < rank[o]
    requires forall x {:trigger rank[x]} :: x in objs ==> rank[x] <= top
    modifies objs`dirty, objs`cache, objs`clipper, objs`clipees
    ensures Valid(objs, rank) && (o != clip ==> o.clipper == clip)
    ensures forall x :: x in objs && (x != o || o == clip) ==> x.clipper == old(x.clipper)
    ensures o != clip && old(o.clipper) != clip ==>
              && clip.clipees == old(clip.clipees) + [o]
              && forall x :: x in objs && x != clip ==>
                   x.clipees == if old(o.clipper) == x then Removed(old(x.clipees), o) else old(x.clipees)
    ensures o == clip || old(o.clipper) == clip ==>
              && Dirty(objs) == old(Dirty(objs)) && o.clipper == old(o.clipper)
              && forall x :: x in objs ==> x.clipees == old(x.clipees)
    ensures frozen && o != clip && old(o.clipper) != clip ==>
              Dirty(objs) == old(Dirty(objs)) + Below(o, objs, rank)
    ensures !frozen && o != clip && old(o.clipper) != clip ==>
              Dirty(objs) == old(Dirty(objs)) - Up(o, objs, rank) - Below(o, objs, rank)
  {
    if o.clipper == clip || o == clip {
      return;
    }
    if o.clipper != null {
      Unlink(o, objs, rank);
    }
    Link(o, clip, objs, rank);
    DirtyAfterChange(o, objs, rank);
    assert o in Below(o, objs, rank);
    RecalcClippees(o, frozen, objs, rank, top);
  }

  /** Makes clip the clipper of o. */
  method Link(o: EvasObject, clip: EvasObject, ghost objs: set<EvasObject>, ghost rank: Rank)
    requires o in objs && clip in objs && o.clipper == null
    requires Ranked(objs, rank) && Linked(objs) && ClosedBut(objs, o) && FreshBut(objs, o)
    requires rank[clip] < rank[o]
    modifies o`clipper, clip`clipees
    ensures o.clipper == clip && clip.clipees == old(clip.clipees) + [o]
    ensures Ranked(objs, rank) && Linked(objs) && ClosedBut(objs, o) && FreshBut(objs, o)
  {
    assert o !in clip.clipees;
    AppendNoDup(clip.clipees, o);
    o.clipper := clip;
    clip.clipees := clip.clipees + [o];
    forall x | x in objs && x != o && x.clipper != o ensures FreshAt(x) {
      assert old(FreshAt(x));
    }
  }
}
