/**
 Marking the clipees of an object dirty, with the walk that stops at objects dirty already.
 The graph may be any graph, with cycles.
 */
module ClipDirty {
  import opened Lists
  import opened ClipGeometry

  class EvasObject {
    var own: Own
    var clipper: EvasObject?
    var clipees: seq<EvasObject>
    var dirty: bool
    var cache: Cache

    constructor (own: Own, cache: Cache)
      ensures this.own == own && clipper == null && clipees == [] && dirty && this.cache == cache
    {
      this.own, clipper, clipees, dirty, this.cache := own, null, [], true, cache;
    }
  }

  type Graph = map<EvasObject, seq<EvasObject>>

  ghost function GraphOf(objs: set<EvasObject>): Graph
    reads objs`clipees
  {
    map o | o in objs :: o.clipees
  }

  ghost function Dirty(objs: set<EvasObject>): set<EvasObject>
    reads objs`dirty
  {
    set o | o in objs && o.dirty
  }

  ghost predicate ClosedGraph(g: Graph) {
    forall o, c {:trigger c in g[o]} :: o in g && c in g[o] ==> c in g
  }

  // ----- reaching objects -----------------------------------------------------------

  /** What can be reached from x in at most n links without touching d. */
  ghost function Within(g: Graph, x: EvasObject, d: set<EvasObject>, n: nat): (s: set<EvasObject>)
    ensures s !! d
  {
    if n == 0 then {x} - d
    else
      var s := Within(g, x, d, n - 1);
      s + (set y, z | y in s && y in g && z in g[y] && z !in d :: z)
  }

  ghost predicate Reaches(g: Graph, x: EvasObject, d: set<EvasObject>, y: EvasObject) {
    exists n: nat :: y in Within(g, x, d, n)
  }

  lemma ReachesSelf(g: Graph, x: EvasObject, d: set<EvasObject>)
    requires x !in d
    ensures Reaches(g, x, d, x)
  {
    assert x in Within(g, x, d, 0);
  }

  lemma ReachesOn(g: Graph, x: EvasObject, d: set<EvasObject>, y: EvasObject, z: EvasObject)
    requires Reaches(g, x, d, y) && y in g && z in g[y] && z !in d
    ensures Reaches(g, x, d, z)
  {
    var n: nat :| y in Within(g, x, d, n);
    assert z in Within(g, x, d, n + 1);
  }

  /** Reaching from a neighbour, and around more, is reaching from the object itself. */
  lemma {:induction false} WithinFrom(g: Graph, x: EvasObject, d: set<EvasObject>, c: EvasObject, e: set<EvasObject>, n: nat)
    requires x in g && c in g[x] && x !in d && d <= e
    ensures Within(g, c, e, n) <= Within(g, x, d, n + 1)
  {
    if n == 0 {
      assert x in Within(g, x, d, 0);
    } else {
      WithinFrom(g, x, d, c, e, n - 1);
    }
  }

  /** A set that has x, and with each new member its clipees, has all that x reaches. */
  lemma {:induction false} ClosedHasAll(g: Graph, x: EvasObject, d: set<EvasObject>, t: set<EvasObject>, n: nat)
    requires x in t && d <= t
    requires forall y, z {:trigger z in g[y]} :: y in t && y !in d && y in g && z in g[y] ==> z in t
    ensures Within(g, x, d, n) <= t
  {
    if n != 0 { ClosedHasAll(g, x, d, t, n - 1); }
  }

  lemma {:induction false} WithinInside(g: Graph, x: EvasObject, d: set<EvasObject>, n: nat)
    requires ClosedGraph(g) && x in g
    ensures Within(g, x, d, n) <= g.Keys
  {
    if n != 0 { WithinInside(g, x, d, n - 1); }
  }

  // ----- evas_object_clip_dirty -----------------------------------------------------

  /** What one walk adds to the dirty objects d. */
  ghost predicate Marked(g: Graph, x: EvasObject, d: set<EvasObject>, t: set<EvasObject>) {
    forall y: EvasObject {:trigger y in t} :: y in g ==> (y in t <==> y in d || Reaches(g, x, d, y))
  }

  /** The walk so far: only what x reaches was added, and new members are done but for x itself. */
  ghost predicate Walked(g: Graph, x: EvasObject, d: set<EvasObject>, t: set<EvasObject>) {
    && x in t && d <= t
    && (forall y {:trigger y in t} :: y in t && y !in d ==> Reaches(g, x, d, y))
    && (forall y, z {:trigger z in g[y]} :: y in t && y !in d && y != x && y in g && z in g[y] ==> z in t)
  }

  lemma WalkOn(g: Graph, x: EvasObject, d: set<EvasObject>, t: set<EvasObject>, c: EvasObject, t': set<EvasObject>)
    requires x in g && c in g[x] && x !in d && ClosedGraph(g) && t <= t' <= g.Keys
    requires Walked(g, x, d, t) && Marked(g, c, t, t')
    ensures Walked(g, x, d, t') && c in t'
  {
    if c !in t { ReachesSelf(g, c, t); }
    forall y | y in t' && y !in d ensures Reaches(g, x, d, y) {
      if y !in t {
        var n: nat :| y in Within(g, c, t, n);
        WithinFrom(g, x, d, c, t, n);
      }
    }
    forall y, z | y in t' && y !in d && y != x && y in g && z in g[y] ensures z in t' {
      if y !in t && z !in t {
        ReachesOn(g, c, t, y, z);
      }
    }
  }

  lemma WalkEnds(g: Graph, x: EvasObject, d: set<EvasObject>, t: set<EvasObject>)
    requires x in g && x !in d && Walked(g, x, d, t)
    requires forall z :: z in g[x] ==> z in t
    ensures Marked(g, x, d, t)
  {
    forall y: EvasObject | Reaches(g, x, d, y) ensures y in t {
      var n: nat :| y in Within(g, x, d, n);
      ClosedHasAll(g, x, d, t, n);
    }
  }

  /**
   evas_object_clip_dirty: exactly the objects dirty before, and those reached from obj
   through clean ones, are dirty after.
   */
  method ObjectClipDirty(obj: EvasObject, ghost objs: set<EvasObject>)
    requires obj in objs && ClosedGraph(GraphOf(objs))
    modifies objs`dirty
    ensures Marked(GraphOf(objs), obj, old(Dirty(objs)), Dirty(objs))
    ensures old(Dirty(objs)) <= Dirty(objs) && obj.dirty
    decreases objs - Dirty(objs)
  {
    ghost var g, d := GraphOf(objs), Dirty(objs);
    if obj.dirty {
      NothingReached(g, obj, d);
      return;
    }
    obj.dirty := true;
    ReachesSelf(g, obj, d);
    var l := 0;
    while l < |obj.clipees|
      invariant l <= |obj.clipees|
      invariant Walked(g, obj, d, Dirty(objs)) && obj.dirty
      invariant forall z :: z in obj.clipees[..l] ==> z in Dirty(objs)
    {
      var data := obj.clipees[l];
      ghost var t := Dirty(objs);
      assert g[obj] == obj.clipees && data in g[obj];
      ObjectClipDirty(data, objs);
      WalkOn(g, obj, d, t, data, Dirty(objs));
      l := l + 1;
    }
    WalkEnds(g, obj, d, Dirty(objs));
  }

  lemma {:induction false} NothingWithin(g: Graph, x: EvasObject, d: set<EvasObject>, n: nat)
    requires x in d
    ensures Within(g, x, d, n) == {}
  {
    if n != 0 { NothingWithin(g, x, d, n - 1); }
  }

  lemma NothingReached(g: Graph, x: EvasObject, d: set<EvasObject>)
    requires x in d
    ensures Marked(g, x, d, d)
  {
    forall y: EvasObject, n: nat ensures y !in Within(g, x, d, n) {
      NothingWithin(g, x, d, n);
    }
  }

  // ----- closed sets ----------------------------------------------------------------

  /** With each dirty object its clipees are dirty, but perhaps x. */
  ghost predicate DownClosed(g: Graph, d: set<EvasObject>, x: EvasObject) {
    forall y, z {:trigger z in g[y]} :: y in d && y in g && z in g[y] ==> z in d || z == x
  }

  /**
   When the dirty set was closed but perhaps for x itself, stopping early misses nothing:
   everything reachable is dirty afterwards, and the set is closed.
   */
  lemma EarlyReturnIsSafe(g: Graph, x: EvasObject, d: set<EvasObject>, t: set<EvasObject>)
    requires ClosedGraph(g) && x in g && d <= g.Keys && t <= g.Keys
    requires DownClosed(g, d, x) && Marked(g, x, d, t)
    ensures x in t && DownClosed(g, t, x)
    ensures forall y: EvasObject {:trigger y in t} :: y in g ==> (y in t <==> y in d || Reaches(g, x, {}, y))
  {
    if x !in d { ReachesSelf(g, x, d); }
    forall y, z | y in t && y in g && z in g[y] ensures z in t {
      if y !in d && z !in d { ReachesOn(g, x, d, y, z); }
    }
    forall y: EvasObject | y in g && Reaches(g, x, {}, y) ensures y in t {
      var n: nat :| y in Within(g, x, {}, n);
      ClosedHasAll(g, x, {}, t, n);
    }
    forall y: EvasObject | Reaches(g, x, d, y) ensures Reaches(g, x, {}, y) {
      var n: nat :| y in Within(g, x, d, n);
      WithinFewer(g, x, d, n);
    }
  }

  lemma {:induction false} WithinFewer(g: Graph, x: EvasObject, d: set<EvasObject>, n: nat)
    ensures Within(g, x, d, n) <= Within(g, x, {}, n)
  {
    if n != 0 { WithinFewer(g, x, d, n - 1); }
  }

  /**
   Exactly when one walk marks everything it could reach, on any graph and any dirty set:
   when what lies next to a dirty object that can be reached is dirty, or can be reached
   through clean ones.
   */
  lemma WalkReachesAllIff(g: Graph, x: EvasObject, d: set<EvasObject>, t: set<EvasObject>)
    requires ClosedGraph(g) && x in g && d <= g.Keys && t <= g.Keys && Marked(g, x, d, t)
    ensures (forall y: EvasObject :: Reaches(g, x, {}, y) ==> y in t)
            <==> (forall y, z {:trigger z in g[y]} ::
                    y in d && y in g && Reaches(g, x, {}, y) && z in g[y] ==> z in d || Reaches(g, x, d, z))
  {
    if forall y, z {:trigger z in g[y]} ::
         y in d && y in g && Reaches(g, x, {}, y) && z in g[y] ==> z in d || Reaches(g, x, d, z)
    {
      if x !in d { ReachesSelf(g, x, d); }
      forall n: nat, y: EvasObject | y in Within(g, x, {}, n) ensures y in t {
        ReachedMarked(g, x, d, t, n);
      }
    } else {
      var y, z :| y in d && y in g && Reaches(g, x, {}, y) && z in g[y] && !(z in d || Reaches(g, x, d, z));
      ReachesOn(g, x, {}, y, z);
      assert z in g && z !in t;
    }
  }

  lemma {:induction false} ReachedMarked(g: Graph, x: EvasObject, d: set<EvasObject>, t: set<EvasObject>, n: nat)
    requires ClosedGraph(g) && x in g && d <= g.Keys && t <= g.Keys && Marked(g, x, d, t) && x in t
    requires forall y, z {:trigger z in g[y]} ::
               y in d && y in g && Reaches(g, x, {}, y) && z in g[y] ==> z in d || Reaches(g, x, d, z)
    ensures Within(g, x, {}, n) <= t
  {
    if n != 0 {
      ReachedMarked(g, x, d, t, n - 1);
      forall y, z | y in Within(g, x, {}, n - 1) && y in g && z in g[y] ensures z in t {
        assert Reaches(g, x, {}, y);
        if y !in d { if z !in d { ReachesOn(g, x, d, y, z); } }
      }
    }
  }

  /** When it was not closed, what lies behind a dirty object is missed. */
  lemma OpenSetMisses(g: Graph, x: EvasObject, y: EvasObject, z: EvasObject, t: set<EvasObject>)
    requires x != y && y != z && x != z && g == map[x := [y], y := [z], z := []]
    requires Marked(g, x, {y}, t)
    ensures z !in t && Reaches(g, x, {}, z) && y in t
  {
    assert y in g[x] && z in g[y];
    ReachesSelf(g, x, {});
    ReachesOn(g, x, {}, x, y);
    ReachesOn(g, x, {}, y, z);
    forall n: nat ensures Within(g, x, {y}, n) <= {x} {
      StaysAt(g, x, y, n);
    }
  }

  lemma {:induction false} StaysAt(g: Graph, x: EvasObject, y: EvasObject, n: nat)
    requires x in g && g[x] == [y]
    ensures Within(g, x, {y}, n) <= {x}
  {
    if n != 0 { StaysAt(g, x, y, n - 1); }
  }
}
