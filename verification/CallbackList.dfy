/**
 The callback list of a canvas: nodes sorted by priority, walked by possibly nested calls
 whose callbacks may add, delete and call in turn. What a callback does is an arbitrary
 script; the scripts of a call are given to the callbacks it invokes in order.
 */
module CallbackList {
  import opened Lists

  type NodeId = nat

  const NO_FUNC := 0

  datatype Node = Node(id: NodeId, kind: int, func: int, data: int, priority: int, deleteMe: bool)

  /** The Evas_Callbacks structure, allocated with the first node and freed with the last. */
  datatype Callbacks = Callbacks(nodes: seq<Node>, walking: nat, deletionsWaiting: bool)

  /** `log` is the history of invocations: which walk, and which node. */
  datatype State = State(
    cb: Option<Callbacks>, deleted: bool, log: seq<(nat, NodeId)>, nextId: NodeId, nextWalk: nat)

  datatype Action =
    | Add(kind: int, func: int, data: int, priority: int, slot: nat)
    | Del(kind: int, func: int)
    | DelFull(kind: int, func: int, data: int)
    | Call(kind: int, scripts: Scripts)
    | DeleteCanvas

  datatype Script = Done | Then(head: Action, tail: Script)
  datatype Scripts = NoScripts | Scripts(first: Script, rest: Scripts)

  // ----- positions ------------------------------------------------------------------

  function Pos(nodes: seq<Node>, x: NodeId): (p: nat)
    ensures p <= |nodes|
    ensures p < |nodes| ==> nodes[p].id == x
    ensures forall i :: 0 <= i < p ==> nodes[i].id != x
  {
    if nodes == [] then 0 else if nodes[0].id == x then 0 else 1 + Pos(nodes[1..], x)
  }

  predicate Has(nodes: seq<Node>, x: NodeId) {
    Pos(nodes, x) < |nodes|
  }

  function At(nodes: seq<Node>, x: NodeId): Node
    requires Has(nodes, x)
  {
    nodes[Pos(nodes, x)]
  }

  ghost predicate Unique(nodes: seq<Node>) {
    forall i, j {:trigger nodes[i].id, nodes[j].id} ::
      0 <= i < j < |nodes| ==> nodes[i].id != nodes[j].id
  }

  ghost predicate Sorted(nodes: seq<Node>) {
    forall i, j {:trigger nodes[i].priority, nodes[j].priority} ::
      0 <= i < j < |nodes| ==> nodes[i].priority <= nodes[j].priority
  }

  lemma PosOf(nodes: seq<Node>, i: nat)
    requires i < |nodes| && Unique(nodes)
    ensures Pos(nodes, nodes[i].id) == i
  {
    var p := Pos(nodes, nodes[i].id);
    assert p <= i;
  }

  /** Every node of a is still in b, in the same order, with nothing but its mark changed. */
  ghost predicate Extends(a: seq<Node>, b: seq<Node>) {
    && (forall x {:trigger Has(b, x)} :: Has(a, x) ==>
          Has(b, x) && At(b, x) == At(a, x).(deleteMe := At(b, x).deleteMe)
          && (At(a, x).deleteMe ==> At(b, x).deleteMe))
    && (forall x, y {:trigger Pos(b, x), Pos(b, y)} ::
          Has(a, x) && Has(a, y) && Pos(a, x) < Pos(a, y) ==> Pos(b, x) < Pos(b, y))
  }

  lemma ExtendsTwice(a: seq<Node>, b: seq<Node>, c: seq<Node>)
    requires Extends(a, b) && Extends(b, c)
    ensures Extends(a, c)
  {
    forall x | Has(a, x)
      ensures Has(c, x) && At(c, x) == At(a, x).(deleteMe := At(c, x).deleteMe)
              && (At(a, x).deleteMe ==> At(c, x).deleteMe)
    {
      assert Has(b, x);
    }
    forall x, y | Has(a, x) && Has(a, y) && Pos(a, x) < Pos(a, y) ensures Pos(c, x) < Pos(c, y) {
      assert Has(b, x) && Has(b, y) && Pos(b, x) < Pos(b, y);
    }
  }

  lemma ExtendsSelf(a: seq<Node>)
    ensures Extends(a, a)
  {}

  // ----- the list operations --------------------------------------------------------

  /** How many nodes at the front have a lower priority. */
  function Below(nodes: seq<Node>, p: int): (n: nat)
    ensures n <= |nodes|
    ensures forall i :: 0 <= i < n ==> nodes[i].priority < p
    ensures n < |nodes| ==> p <= nodes[n].priority
  {
    if nodes == [] || p <= nodes[0].priority then 0 else 1 + Below(nodes[1..], p)
  }

  /** How many nodes at the front do not have a higher one. */
  function UpTo(nodes: seq<Node>, p: int): (n: nat)
    ensures n <= |nodes|
    ensures forall i :: 0 <= i < n ==> nodes[i].priority <= p
    ensures n < |nodes| ==> p < nodes[n].priority
  {
    if nodes == [] || p < nodes[0].priority then 0 else 1 + UpTo(nodes[1..], p)
  }

  /** Among nodes of equal priority the new one may go anywhere: `slot` says where. */
  function Place(nodes: seq<Node>, p: int, slot: nat): (i: nat)
    ensures i <= |nodes|
  {
    if slot <= Below(nodes, p) then Below(nodes, p)
    else if slot <= UpTo(nodes, p) then slot else UpTo(nodes, p)
  }

  function Insert(nodes: seq<Node>, n: Node, slot: nat): (b: seq<Node>)
    ensures |b| == |nodes| + 1 && b[Place(nodes, n.priority, slot)] == n
    ensures forall k {:trigger b[k]} :: 0 <= k < |b| && k != Place(nodes, n.priority, slot) ==>
              b[k] == nodes[if k < Place(nodes, n.priority, slot) then k else k - 1]
  {
    var i := Place(nodes, n.priority, slot);
    nodes[..i] + [n] + nodes[i..]
  }

  lemma PlaceSorts(nodes: seq<Node>, n: Node, slot: nat)
    requires Sorted(nodes)
    ensures Sorted(Insert(nodes, n, slot))
  {
    var i := Place(nodes, n.priority, slot);
    var b := Insert(nodes, n, slot);
    assert Below(nodes, n.priority) <= UpTo(nodes, n.priority);
    forall j | 0 <= j < i ensures nodes[j].priority <= n.priority {}
    forall j | i <= j < |nodes| ensures n.priority <= nodes[j].priority {
      assert Below(nodes, n.priority) < |nodes|;
      assert nodes[Below(nodes, n.priority)].priority <= nodes[j].priority || j == Below(nodes, n.priority);
    }
  }

  lemma InsertUnique(nodes: seq<Node>, n: Node, slot: nat)
    requires Unique(nodes) && !Has(nodes, n.id)
    ensures Unique(Insert(nodes, n, slot))
  {
    hide Insert, Place;
    var b := Insert(nodes, n, slot);
    var i := Place(nodes, n.priority, slot);
    forall j | 0 <= j < |nodes| ensures nodes[j].id != n.id {
      assert j < Pos(nodes, n.id);
    }
    forall j, k | 0 <= j < k < |b| ensures b[j].id != b[k].id {
      var j', k' := if j < i then j else j - 1, if k < i then k else k - 1;
      if j == i {
        assert b[k] == nodes[k'];
      } else if k == i {
        assert b[j] == nodes[j'];
      } else {
        assert b[j] == nodes[j'] && b[k] == nodes[k'];
        assert nodes[j'].id != nodes[k'].id;
      }
    }
  }

  lemma InsertPositions(nodes: seq<Node>, n: Node, slot: nat, x: NodeId)
    requires Unique(nodes) && !Has(nodes, n.id)
    ensures var b := Insert(nodes, n, slot);
            var i := Place(nodes, n.priority, slot);
            && (Has(nodes, x) ==> Pos(b, x) == Pos(nodes, x) + if i <= Pos(nodes, x) then 1 else 0)
            && (Has(b, x) ==> x == n.id || Has(nodes, x))
  {
    InsertUnique(nodes, n, slot);
    hide Insert, Place, Unique;
    var b := Insert(nodes, n, slot);
    var i := Place(nodes, n.priority, slot);
    if Has(b, x) && x != n.id {
      var p := Pos(b, x);
      PosOf(nodes, if p < i then p else p - 1);
    }
    if Has(nodes, x) {
      var p := Pos(nodes, x);
      PosOf(b, if i <= p then p + 1 else p);
    }
  }

  lemma InsertExtends(nodes: seq<Node>, n: Node, slot: nat)
    requires Unique(nodes) && !Has(nodes, n.id)
    ensures Unique(Insert(nodes, n, slot)) && Extends(nodes, Insert(nodes, n, slot))
    ensures forall x {:trigger Has(Insert(nodes, n, slot), x)} ::
              Has(Insert(nodes, n, slot), x) ==> x == n.id || Has(nodes, x)
  {
    hide Insert, Place, Unique;
    var b := Insert(nodes, n, slot);
    forall x
      ensures Has(nodes, x) ==> Has(b, x) && At(b, x) == At(nodes, x)
      ensures Has(nodes, x) ==> Pos(b, x) == Pos(nodes, x) + if Place(nodes, n.priority, slot) <= Pos(nodes, x) then 1 else 0
      ensures Has(b, x) ==> x == n.id || Has(nodes, x)
    {
      InsertPositions(nodes, n, slot, x);
    }
    InsertUnique(nodes, n, slot);
  }

  /** The first unmarked node with this type and function, and, if it is given, this data. */
  function Match(nodes: seq<Node>, kind: int, func: int, data: Option<int>): (i: nat)
    ensures i <= |nodes|
    ensures i < |nodes| ==> Matches(nodes[i], kind, func, data)
    ensures forall j :: 0 <= j < i ==> !Matches(nodes[j], kind, func, data)
  {
    if nodes == [] then 0
    else if Matches(nodes[0], kind, func, data) then 0
    else 1 + Match(nodes[1..], kind, func, data)
  }

  predicate Matches(n: Node, kind: int, func: int, data: Option<int>) {
    n.func == func && n.kind == kind && (data.Some? ==> n.data == data.value) && !n.deleteMe
  }

  function Mark(nodes: seq<Node>, i: nat): seq<Node>
    requires i < |nodes|
  {
    nodes[i := nodes[i].(deleteMe := true)]
  }

  lemma MarkExtends(nodes: seq<Node>, i: nat)
    requires i < |nodes| && Unique(nodes)
    ensures Unique(Mark(nodes, i)) && Extends(nodes, Mark(nodes, i))
    ensures forall x: NodeId {:trigger Pos(Mark(nodes, i), x)} :: Pos(Mark(nodes, i), x) == Pos(nodes, x)
    ensures Sorted(nodes) ==> Sorted(Mark(nodes, i))
  {
    var b := Mark(nodes, i);
    forall j | 0 <= j < |nodes| ensures b[j].id == nodes[j].id && b[j].priority == nodes[j].priority {}
    forall x: NodeId ensures Pos(b, x) == Pos(nodes, x) {
      var p, q := Pos(b, x), Pos(nodes, x);
      assert p < |b| ==> b[p].id == nodes[p].id;
      assert q < |b| ==> b[q].id == nodes[q].id;
    }
    forall x: NodeId | Has(nodes, x)
      ensures Has(b, x) && At(b, x) == At(nodes, x).(deleteMe := At(b, x).deleteMe)
              && (At(nodes, x).deleteMe ==> At(b, x).deleteMe)
    {
      assert Pos(b, x) == Pos(nodes, x);
    }
  }

  /** evas_event_callback_list_post_free */
  function Purge(nodes: seq<Node>): seq<Node> {
    if nodes == [] then []
    else (if nodes[0].deleteMe then [] else [nodes[0]]) + Purge(nodes[1..])
  }

  lemma PurgeNone()
    ensures Purge([]) == []
  {}

  lemma PurgeAt(nodes: seq<Node>, i: nat)
    requires i < |nodes|
    ensures Purge(nodes[i..]) == (if nodes[i].deleteMe then [] else [nodes[i]]) + Purge(nodes[i + 1..])
  {
    assert nodes[i..][1..] == nodes[i + 1..];
  }

  lemma {:induction false} PurgeIn(nodes: seq<Node>)
    ensures forall n {:trigger n in Purge(nodes)} :: n in Purge(nodes) <==> n in nodes && !n.deleteMe
  {
    if nodes != [] { PurgeIn(nodes[1..]); }
  }

  lemma TailKeeps(nodes: seq<Node>)
    requires Unique(nodes) && Sorted(nodes) && nodes != []
    ensures Unique(nodes[1..]) && Sorted(nodes[1..])
    ensures forall n {:trigger n in nodes[1..]} :: n in nodes[1..] ==>
              nodes[0].id != n.id && nodes[0].priority <= n.priority
  {
    var r := nodes[1..];
    forall j, k | 0 <= j < k < |r| ensures r[j].id != r[k].id && r[j].priority <= r[k].priority {
      assert nodes[j + 1].id != nodes[k + 1].id && nodes[j + 1].priority <= nodes[k + 1].priority;
    }
    forall k | 0 <= k < |r| ensures nodes[0].id != r[k].id && nodes[0].priority <= r[k].priority {
      assert nodes[0].id != nodes[k + 1].id && nodes[0].priority <= nodes[k + 1].priority;
    }
  }

  lemma ConsKeeps(n: Node, r: seq<Node>)
    requires Unique(r) && Sorted(r)
    requires forall m {:trigger m in r} :: m in r ==> n.id != m.id && n.priority <= m.priority
    ensures Unique([n] + r) && Sorted([n] + r)
  {
    var b := [n] + r;
    forall j, k | 0 <= j < k < |b| ensures b[j].id != b[k].id && b[j].priority <= b[k].priority {
      assert b[k] == r[k - 1];
      if j == 0 {
        assert r[k - 1] in r;
      } else {
        assert b[j] == r[j - 1];
        assert r[j - 1].id != r[k - 1].id && r[j - 1].priority <= r[k - 1].priority;
      }
    }
  }

  lemma {:induction false} PurgeKeeps(nodes: seq<Node>)
    requires Unique(nodes) && Sorted(nodes)
    ensures Unique(Purge(nodes)) && Sorted(Purge(nodes))
  {
    if nodes != [] {
      TailKeeps(nodes);
      PurgeKeeps(nodes[1..]);
      PurgeIn(nodes[1..]);
      hide Unique, Sorted;
      assert [] + Purge(nodes[1..]) == Purge(nodes[1..]);
      ConsKeeps(nodes[0], Purge(nodes[1..]));
    }
  }

  // ----- states ---------------------------------------------------------------------

  function Nodes(s: State): seq<Node> {
    if s.cb.None? then [] else s.cb.value.nodes
  }

  function Walking(s: State): nat {
    if s.cb.None? then 0 else s.cb.value.walking
  }

  ghost predicate Shape(s: State) {
    && Unique(Nodes(s)) && Sorted(Nodes(s))
    && (forall i {:trigger Nodes(s)[i].id} :: 0 <= i < |Nodes(s)| ==>
          Nodes(s)[i].id < s.nextId && Nodes(s)[i].func != NO_FUNC)
    && (s.cb.Some? ==>
          && s.cb.value.nodes != []
          && ((exists i :: 0 <= i < |s.cb.value.nodes| && s.cb.value.nodes[i].deleteMe) ==>
                s.cb.value.deletionsWaiting))
  }

  /** With no walk active no node is marked, and a list that is allocated is not empty. */
  ghost predicate Inv(s: State) {
    Shape(s) && (s.cb.Some? && s.cb.value.walking == 0 ==> !s.cb.value.deletionsWaiting)
  }

  /** The node is in the list and unmarked, or yet to come. */
  ghost predicate Callable(s: State, x: NodeId) {
    s.nextId <= x || (Has(Nodes(s), x) && !At(Nodes(s), x).deleteMe)
  }

  /**
   What holds between the states before and after any script, however deep its calls nest:
   with a walk active no node is freed or moved, marks stay, and only nodes that were
   callable or new are invoked, by walks from `lo` on.
   */
  ghost predicate Later(s: State, s': State, lo: nat) {
    && s.nextId <= s'.nextId && s.nextWalk <= s'.nextWalk
    && Walking(s') == Walking(s)
    && (s.deleted ==> s'.deleted)
    && (0 < Walking(s) ==> Extends(Nodes(s), Nodes(s')))
    && (forall x: NodeId {:trigger Has(Nodes(s'), x)} :: Has(Nodes(s'), x) && x < s.nextId ==>
          Has(Nodes(s), x) && (At(Nodes(s), x).deleteMe ==> At(Nodes(s'), x).deleteMe))
    && s.log <= s'.log
    && (forall i {:trigger s'.log[i]} :: |s.log| <= i < |s'.log| ==>
          lo <= s'.log[i].0 && Callable(s, s'.log[i].1))
  }

  lemma LaterSelf(s: State)
    ensures Later(s, s, s.nextWalk)
  {
    ExtendsSelf(Nodes(s));
  }

  lemma LaterTwice(s: State, s1: State, s2: State, lo: nat, mid: nat)
    requires Later(s, s1, lo) && Later(s1, s2, mid) && lo <= mid
    ensures Later(s, s2, lo)
  {
    if 0 < Walking(s) { ExtendsTwice(Nodes(s), Nodes(s1), Nodes(s2)); }
    forall i | |s.log| <= i < |s2.log| ensures lo <= s2.log[i].0 && Callable(s, s2.log[i].1) {
      if i < |s1.log| {
        assert s2.log[i] == s1.log[i];
      } else {
        assert Callable(s1, s2.log[i].1);
        var x := s2.log[i].1;
        if x < s.nextId { assert Has(Nodes(s1), x); }
      }
    }
    forall x: NodeId | Has(Nodes(s2), x) && x < s.nextId
      ensures Has(Nodes(s), x) && (At(Nodes(s), x).deleteMe ==> At(Nodes(s2), x).deleteMe)
    {
      assert Has(Nodes(s1), x);
    }
  }

  /** evas_event_callback_priority_add */
  function DoAdd(s: State, kind: int, func: int, data: int, priority: int, slot: nat): State
    requires func != NO_FUNC
  {
    var c := if s.cb.None? then Callbacks([], 0, false) else s.cb.value;
    s.(cb := Some(c.(nodes := Insert(c.nodes, Node(s.nextId, kind, func, data, priority, false), slot))),
       nextId := s.nextId + 1)
  }

  /** evas_event_callback_clear */
  function Clear(s: State): State {
    if s.cb.None? || !s.cb.value.deletionsWaiting then s
    else
      var nodes := Purge(s.cb.value.nodes);
      s.(cb := if nodes == [] then None else Some(s.cb.value.(nodes := nodes, deletionsWaiting := false)))
  }

  /** evas_event_callback_del and evas_event_callback_del_full */
  function DoDel(s: State, kind: int, func: int, data: Option<int>): State {
    if func == NO_FUNC || s.cb.None? then s
    else
      var c := s.cb.value;
      var i := Match(c.nodes, kind, func, data);
      if i == |c.nodes| then s
      else
        var t := s.(cb := Some(c.(nodes := Mark(c.nodes, i), deletionsWaiting := true)));
        if c.walking == 0 then Clear(t) else t
  }

  lemma AddShape(s: State, n: Node, slot: nat)
    requires Shape(s) && n.func != NO_FUNC && n.id == s.nextId && !n.deleteMe
    ensures var s' := DoAdd(s, n.kind, n.func, n.data, n.priority, slot);
            n == Node(s.nextId, n.kind, n.func, n.data, n.priority, false) && !Has(Nodes(s), s.nextId)
            && Nodes(s') == Insert(Nodes(s), n, slot) && Shape(s')
  {
    hide Place, Insert;
    assert !Has(Nodes(s), s.nextId);
    InsertUnique(Nodes(s), n, slot);
    PlaceSorts(Nodes(s), n, slot);
    hide Unique, Sorted;
    var b := Insert(Nodes(s), n, slot);
    var i := Place(Nodes(s), n.priority, slot);
    forall j | 0 <= j < |b|
      ensures b[j].id < s.nextId + 1 && b[j].func != NO_FUNC
      ensures b[j].deleteMe ==> exists k :: 0 <= k < |Nodes(s)| && Nodes(s)[k].deleteMe
    {
      assert j != i ==> b[j] == Nodes(s)[if j < i then j else j - 1];
    }
  }

  lemma AddLater(s: State, kind: int, func: int, data: int, priority: int, slot: nat)
    requires Inv(s) && func != NO_FUNC
    ensures var s' := DoAdd(s, kind, func, data, priority, slot);
            Inv(s') && Later(s, s', s.nextWalk) && Extends(Nodes(s), Nodes(s'))
  {
    hide Shape, Extends, Unique, Insert, Place;
    var n := Node(s.nextId, kind, func, data, priority, false);
    AddShape(s, n, slot);
    ShapeUnique(s);
    InsertExtends(Nodes(s), n, slot);
    InsertSame(Nodes(s), n, slot);
  }

  lemma ShapeUnique(s: State)
    requires Shape(s)
    ensures Unique(Nodes(s))
  {}

  /** What was there is there unchanged. */
  lemma InsertSame(nodes: seq<Node>, n: Node, slot: nat)
    requires Unique(nodes) && !Has(nodes, n.id)
    ensures forall x {:trigger Has(Insert(nodes, n, slot), x)} :: Has(nodes, x) ==>
              Has(Insert(nodes, n, slot), x) && At(Insert(nodes, n, slot), x) == At(nodes, x)
  {
    hide Unique, Insert, Place;
    forall x | Has(nodes, x) ensures Has(Insert(nodes, n, slot), x) && At(Insert(nodes, n, slot), x) == At(nodes, x) {
      InsertPositions(nodes, n, slot, x);
    }
  }

  /** With no walk active, clearing removes the marked nodes, and with the last node the list. */
  lemma ClearLater(s: State)
    requires Shape(s) && s.cb.Some? && s.cb.value.walking == 0
    ensures Inv(Clear(s)) && Walking(Clear(s)) == 0
    ensures Clear(s) == s.(cb := Clear(s).cb)
    ensures forall x {:trigger Has(Nodes(Clear(s)), x)} :: Has(Nodes(Clear(s)), x) ==>
              Has(Nodes(s), x) && At(Nodes(Clear(s)), x) == At(Nodes(s), x)
  {
    var s' := Clear(s);
    if s.cb.value.deletionsWaiting {
      PurgeIn(Nodes(s));
      PurgeKeeps(Nodes(s));
      forall j | 0 <= j < |Nodes(s')|
        ensures !Nodes(s')[j].deleteMe && exists k :: 0 <= k < |Nodes(s)| && Nodes(s)[k] == Nodes(s')[j]
      {
        assert Nodes(s')[j] in Purge(Nodes(s));
      }
      forall x | Has(Nodes(s'), x) ensures Has(Nodes(s), x) && At(Nodes(s'), x) == At(Nodes(s), x) {
        var k :| 0 <= k < |Nodes(s)| && Nodes(s)[k] == At(Nodes(s'), x);
        PosOf(Nodes(s), k);
      }
    }
  }

  lemma MarkLater(s: State, i: nat)
    requires Shape(s) && s.cb.Some? && i < |s.cb.value.nodes|
    ensures var c := s.cb.value;
            var t := s.(cb := Some(c.(nodes := Mark(c.nodes, i), deletionsWaiting := true)));
            Shape(t) && Later(s, t, s.nextWalk)
  {
    hide Unique, Sorted;
    var c := s.cb.value;
    MarkExtends(c.nodes, i);
    assert forall j :: 0 <= j < |c.nodes| ==>
        Mark(c.nodes, i)[j].id == c.nodes[j].id && Mark(c.nodes, i)[j].func == c.nodes[j].func;
  }

  lemma DelLater(s: State, kind: int, func: int, data: Option<int>)
    requires Inv(s)
    ensures var s' := DoDel(s, kind, func, data); Inv(s') && Later(s, s', s.nextWalk)
  {
    hide Shape, Mark, Extends;
    LaterSelf(s);
    if func != NO_FUNC && s.cb.Some? && Match(s.cb.value.nodes, kind, func, data) < |s.cb.value.nodes| {
      var c := s.cb.value;
      var i := Match(c.nodes, kind, func, data);
      MarkLater(s, i);
      var t := s.(cb := Some(c.(nodes := Mark(c.nodes, i), deletionsWaiting := true)));
      if c.walking == 0 { ClearLater(t); }
    }
  }

  /** Clearing leaves exactly the unmarked nodes, and no list when there is none. */
  lemma ClearOutcome(s: State)
    requires Shape(s) && s.cb.Some?
    ensures forall n {:trigger n in Nodes(Clear(s))} :: n in Nodes(Clear(s)) <==> n in Nodes(s) && !n.deleteMe
    ensures Clear(s).cb.None? <==> forall n {:trigger n in Nodes(s)} :: n in Nodes(s) ==> n.deleteMe
  {
    PurgeIn(Nodes(s));
    hide Unique, Sorted, Purge;
    var nodes := Nodes(s);
    assert nodes[0] in nodes;
    forall n | n in Nodes(s) && n.deleteMe ensures s.cb.value.deletionsWaiting {
      var k :| 0 <= k < |nodes| && nodes[k] == n;
    }
    if s.cb.value.deletionsWaiting {
      if Purge(nodes) != [] {
        assert Purge(nodes)[0] in Purge(nodes);
      } else {
        forall n | n in nodes ensures n.deleteMe { assert n !in Purge(nodes); }
      }
    }
  }

  lemma {:induction false} PurgeUnmarked(nodes: seq<Node>)
    requires forall n {:trigger n in nodes} :: n in nodes ==> !n.deleteMe
    ensures Purge(nodes) == nodes
  {
    if nodes != [] {
      assert nodes[0] in nodes && forall n :: n in nodes[1..] ==> n in nodes;
      PurgeUnmarked(nodes[1..]);
    }
  }

  lemma {:induction false} PurgeOne(nodes: seq<Node>, i: nat)
    requires i < |nodes| && forall n {:trigger n in nodes} :: n in nodes ==> !n.deleteMe
    ensures Purge(Mark(nodes, i)) == nodes[..i] + nodes[i + 1..]
  {
    assert nodes[0] in nodes && forall n :: n in nodes[1..] ==> n in nodes;
    if i == 0 {
      assert Mark(nodes, i)[1..] == nodes[1..];
      PurgeUnmarked(nodes[1..]);
    } else {
      assert Mark(nodes, i)[1..] == Mark(nodes[1..], i - 1);
      PurgeOne(nodes[1..], i - 1);
      assert [nodes[0]] + (nodes[1..][..i - 1] + nodes[1..][i..]) == nodes[..i] + nodes[i + 1..];
    }
  }

  /**
   Deleting takes the first unmarked node with the type, function and data asked for, and no
   other: while a walk is active it is marked in its place, otherwise it is gone, and with the
   last node the list.
   */
  lemma DelOutcome(s: State, kind: int, func: int, data: Option<int>)
    requires Inv(s) && func != NO_FUNC
    ensures var nodes := Nodes(s);
            var s' := DoDel(s, kind, func, data);
            var i := Match(nodes, kind, func, data);
            if i == |nodes| then s' == s
            else && (forall j :: 0 <= j < i ==> !Matches(nodes[j], kind, func, data))
                 && Matches(nodes[i], kind, func, data)
                 && Nodes(s') == (if 0 < Walking(s) then nodes[i := nodes[i].(deleteMe := true)]
                                  else nodes[..i] + nodes[i + 1..])
                 && (s'.cb.None? <==> Nodes(s') == [])
  {
    hide Unique, Sorted, Purge;
    var nodes := Nodes(s);
    var i := Match(nodes, kind, func, data);
    if i < |nodes| && Walking(s) == 0 {
      forall n | n in nodes ensures !n.deleteMe {
        var k :| 0 <= k < |nodes| && nodes[k] == n;
      }
      PurgeOne(nodes, i);
    }
  }

  // ----- nested calls ---------------------------------------------------------------

  /** A callback does a sequence of things. */
  function Run(s: State, script: Script): (s': State)
    requires Inv(s)
    ensures Inv(s') && Later(s, s', s.nextWalk)
    decreases script
  {
    hide Inv, Extends, Callable;
    match script
    case Done => LaterSelf(s); s
    case Then(a, rest) =>
      var s1 := Do(s, a);
      var s2 := Run(s1, rest);
      LaterTwice(s, s1, s2, s.nextWalk, s1.nextWalk);
      s2
  }

  function Do(s: State, a: Action): (s': State)
    requires Inv(s)
    ensures Inv(s') && Later(s, s', s.nextWalk)
    decreases a
  {
    LaterSelf(s);
    match a
    case Add(kind, func, data, priority, slot) =>
      if func == NO_FUNC then s else
      AddLater(s, kind, func, data, priority, slot);
      DoAdd(s, kind, func, data, priority, slot)
    case Del(kind, func) =>
      DelLater(s, kind, func, None);
      DoDel(s, kind, func, None)
    case DelFull(kind, func, data) =>
      DelLater(s, kind, func, Some(data));
      DoDel(s, kind, func, Some(data))
    case DeleteCanvas =>
      s.(deleted := true)
    case Call(kind, scripts) => CallEvent(s, kind, scripts)
  }

  /** evas_event_callback_call */
  function CallEvent(s: State, kind: int, scripts: Scripts): (s': State)
    requires Inv(s)
    ensures Inv(s') && Later(s, s', s.nextWalk)
    decreases scripts, 2
  {
    LaterSelf(s);
    if s.cb.None? then s else
    Begins(s);
    var s1 := Walk(Begin(s), kind, s.nextWalk, Nodes(s)[0].id, scripts);
    Ends(s, s1);
    End(s1)
  }

  function Begin(s: State): State
    requires s.cb.Some?
  {
    s.(cb := Some(s.cb.value.(walking := s.cb.value.walking + 1)), nextWalk := s.nextWalk + 1)
  }

  function End(s: State): State
    requires 0 < Walking(s)
  {
    var t := s.(cb := Some(s.cb.value.(walking := s.cb.value.walking - 1)));
    if Walking(t) == 0 then Clear(t) else t
  }

  /** One node of a walk: its callback, if it is of the walk's type and unmarked. */
  function Visit(s: State, kind: int, w: nat, cur: NodeId, scripts: Scripts): (s': State)
    requires Inv(s) && 0 < Walking(s) && Has(Nodes(s), cur) && w < s.nextWalk
    ensures Inv(s') && Later(s, s', w)
    ensures Rest(s, kind, cur, scripts) == scripts ==> Nodes(s') == Nodes(s)
    decreases scripts, 0
  {
    LaterSelf(s);
    if !Due(s, kind, cur) then s
    else
      var s1 := s.(log := s.log + [(w, cur)]);
      LogLater(s, w, cur);
      if scripts.NoScripts? then s1
      else
        var s2 := Run(s1, scripts.first);
        LaterTwice(s, s1, s2, w, s1.nextWalk);
        s2
  }

  predicate Due(s: State, kind: int, cur: NodeId)
    requires Has(Nodes(s), cur)
  {
    At(Nodes(s), cur).kind == kind && !At(Nodes(s), cur).deleteMe
  }

  function Rest(s: State, kind: int, cur: NodeId, scripts: Scripts): Scripts
    requires Has(Nodes(s), cur)
  {
    if Due(s, kind, cur) && scripts.Scripts? then scripts.rest else scripts
  }

  predicate Last(s: State, cur: NodeId)
    requires Has(Nodes(s), cur)
  {
    Pos(Nodes(s), cur) + 1 == |Nodes(s)|
  }

  function Next(s: State, cur: NodeId): (x: NodeId)
    requires Has(Nodes(s), cur) && Unique(Nodes(s)) && !Last(s, cur)
    ensures Has(Nodes(s), x) && Pos(Nodes(s), x) == Pos(Nodes(s), cur) + 1
  {
    PosOf(Nodes(s), Pos(Nodes(s), cur) + 1);
    Nodes(s)[Pos(Nodes(s), cur) + 1].id
  }

  /** The rest of a walk, from a node on. */
  function Walk(s: State, kind: int, w: nat, cur: NodeId, scripts: Scripts): (s': State)
    requires Inv(s) && 0 < Walking(s) && Has(Nodes(s), cur) && w < s.nextWalk
    ensures Inv(s') && Later(s, s', w)
    decreases scripts, 1, |Nodes(s)| - Pos(Nodes(s), cur)
  {
    var t := Visit(s, kind, w, cur, scripts);
    assert Has(Nodes(t), cur);
    if t.deleted || Last(t, cur) then t
    else
      var s' := Walk(t, kind, w, Next(t, cur), Rest(s, kind, cur, scripts));
      LaterTwice(s, t, s', w, w);
      s'
  }

  lemma SameShape(s: State, t: State)
    requires Shape(s) && s.cb.Some? && t.cb.Some? && t.nextId == s.nextId
    requires t.cb.value.nodes == s.cb.value.nodes && t.cb.value.deletionsWaiting == s.cb.value.deletionsWaiting
    ensures Shape(t)
  {}

  lemma Begins(s: State)
    requires Inv(s) && s.cb.Some?
    ensures Inv(Begin(s)) && Has(Nodes(s), Nodes(s)[0].id)
  {}

  lemma Ends(s: State, s1: State)
    requires Inv(s) && s.cb.Some? && Inv(s1) && Later(Begin(s), s1, s.nextWalk)
    ensures Inv(End(s1)) && Later(s, End(s1), s.nextWalk)
  {
    hide Shape, Extends;
    var t := s1.(cb := Some(s1.cb.value.(walking := s1.cb.value.walking - 1)));
    SameShape(s1, t);
    if Walking(t) == 0 { ClearLater(t); }
    assert Nodes(Begin(s)) == Nodes(s);
    forall i | |s.log| <= i < |s1.log| ensures Callable(s, s1.log[i].1) {
      assert Callable(Begin(s), s1.log[i].1);
    }
  }

  lemma LogLater(s: State, w: nat, cur: NodeId)
    requires Inv(s) && Has(Nodes(s), cur) && !At(Nodes(s), cur).deleteMe && w < s.nextWalk
    ensures var s' := s.(log := s.log + [(w, cur)]); Inv(s') && Later(s, s', w)
  {
    ExtendsSelf(Nodes(s));
  }

  // ----- what a walk invokes --------------------------------------------------------

  function Count(log: seq<(nat, NodeId)>, e: (nat, NodeId)): nat {
    if log == [] then 0 else Count(log[..|log| - 1], e) + if log[|log| - 1] == e then 1 else 0
  }

  lemma {:induction false} CountNew(log: seq<(nat, NodeId)>, log': seq<(nat, NodeId)>, e: (nat, NodeId))
    requires log <= log'
    requires forall i {:trigger log'[i]} :: |log| <= i < |log'| ==> log'[i] != e
    ensures Count(log', e) == Count(log, e)
    decreases |log'|
  {
    if |log| == |log'| {
      assert log == log';
    } else {
      CountNew(log, log'[..|log'| - 1], e);
    }
  }

  lemma VisitInvokes(s: State, kind: int, w: nat, cur: NodeId, scripts: Scripts, x: NodeId)
    requires Inv(s) && 0 < Walking(s) && Has(Nodes(s), cur) && w < s.nextWalk
    ensures Count(Visit(s, kind, w, cur, scripts).log, (w, x))
            == Count(s.log, (w, x)) + if x == cur && Due(s, kind, cur) then 1 else 0
  {
    hide Inv, Extends, Callable;
    if Due(s, kind, cur) {
      LogLater(s, w, cur);
      var s1 := s.(log := s.log + [(w, cur)]);
      assert s1.log[..|s1.log| - 1] == s.log;
      if scripts.Scripts? {
        CountNew(s1.log, Run(s1, scripts.first).log, (w, x));
      }
    }
  }

  /** Every node ahead that stays unmarked is invoked once; no node is invoked twice, none behind. */
  lemma {:induction false} WalkInvokes(s: State, kind: int, w: nat, cur: NodeId, scripts: Scripts, x: NodeId)
    requires Inv(s) && 0 < Walking(s) && Has(Nodes(s), cur) && w < s.nextWalk
    ensures var s' := Walk(s, kind, w, cur, scripts);
            var d := Count(s'.log, (w, x)) - Count(s.log, (w, x));
            && 0 <= d <= 1
            && (Has(Nodes(s), x) && Pos(Nodes(s), x) < Pos(Nodes(s), cur) ==> d == 0)
            && (d == 1 ==> Has(Nodes(s'), x) && At(Nodes(s'), x).kind == kind)
            && (Has(Nodes(s), x) && Pos(Nodes(s), cur) <= Pos(Nodes(s), x) && At(Nodes(s), x).kind == kind ==>
                  At(Nodes(s'), x).deleteMe || s'.deleted || d == 1)
    decreases scripts, 1, |Nodes(s)| - Pos(Nodes(s), cur)
  {
    hide Callable, Inv;
    var s' := Walk(s, kind, w, cur, scripts);
    var t := Visit(s, kind, w, cur, scripts);
    VisitInvokes(s, kind, w, cur, scripts, x);
    assert Has(Nodes(t), cur) && Has(Nodes(s'), cur);
    if Has(Nodes(s), x) {
      assert Has(Nodes(t), x) && Has(Nodes(s'), x);
    }
    if !t.deleted && !Last(t, cur) {
      UniqueOf(t);
      WalkInvokes(t, kind, w, Next(t, cur), Rest(s, kind, cur, scripts), x);
    }
  }

  lemma VisitStands(s: State, kind: int, w: nat, cur: NodeId, scripts: Scripts)
    requires Inv(s) && 0 < Walking(s) && Has(Nodes(s), cur) && w < s.nextWalk
    ensures var t := Visit(s, kind, w, cur, scripts);
            Inv(t) && Has(Nodes(t), cur) && Walking(t) == Walking(s) && s.nextWalk <= t.nextWalk
    ensures Rest(s, kind, cur, scripts) == scripts || Rest(s, kind, cur, scripts) < scripts
    ensures Rest(s, kind, cur, scripts) == scripts ==>
              Nodes(Visit(s, kind, w, cur, scripts)) == Nodes(s)
  {}

  lemma UniqueOf(s: State)
    requires Inv(s)
    ensures Unique(Nodes(s))
  {}

  /**
   One call, whatever its callbacks do: a node there at the start, of the type called, and
   still there unmarked at the end is invoked exactly once by it, unless the canvas was
   deleted meanwhile; no node is invoked twice by it.
   */
  lemma CallInvokes(s: State, kind: int, scripts: Scripts, x: NodeId)
    requires Inv(s)
    ensures var s' := CallEvent(s, kind, scripts);
            var d := Count(s'.log, (s.nextWalk, x)) - Count(s.log, (s.nextWalk, x));
            && 0 <= d <= 1
            && (Has(Nodes(s), x) && At(Nodes(s), x).kind == kind && Has(Nodes(s'), x) ==>
                  At(Nodes(s'), x).deleteMe || s'.deleted || d == 1)
            && (Has(Nodes(s), x) && (At(Nodes(s), x).kind != kind || At(Nodes(s), x).deleteMe) ==> d == 0)
  {
    if s.cb.Some? {
      Begins(s);
      Head(s, x);
      CallIsWalk(s, kind, scripts);
      hide *;
      var b := Begin(s);
      var head := Nodes(s)[0].id;
      var s1 := Walk(b, kind, s.nextWalk, head, scripts);
      WalkInvokes(b, kind, s.nextWalk, head, scripts, x);
      EndKeeps(s1, x);
      if Has(Nodes(s), x) && At(Nodes(s), x).deleteMe {
        MarkedUncalled(b, s1, s.nextWalk, (s.nextWalk, x));
      }
      if Has(Nodes(s), x) && At(Nodes(s), x).kind != kind {
        KindStays(b, s1, s.nextWalk, x);
      }
    }
  }

  lemma Head(s: State, x: NodeId)
    requires s.cb.Some? && Inv(s)
    ensures Nodes(s) != [] && Pos(Nodes(s), Nodes(s)[0].id) == 0
    ensures Nodes(Begin(s)) == Nodes(s) && Walking(Begin(s)) == Walking(s) + 1
    ensures Begin(s).log == s.log && Begin(s).nextWalk == s.nextWalk + 1
    ensures Has(Nodes(s), x) ==> 0 <= Pos(Nodes(s), x)
  {}

  lemma CallIsWalk(s: State, kind: int, scripts: Scripts)
    requires Inv(s) && s.cb.Some?
    ensures Inv(Begin(s)) && Has(Nodes(s), Nodes(s)[0].id)
    ensures var s1 := Walk(Begin(s), kind, s.nextWalk, Nodes(s)[0].id, scripts);
            CallEvent(s, kind, scripts) == End(s1)
  {
    Begins(s);
  }

  lemma CallNothing(s: State, kind: int, scripts: Scripts)
    requires Inv(s) && s.cb.None?
    ensures CallEvent(s, kind, scripts) == s
  {}

  lemma MarkedUncalled(s: State, s': State, lo: nat, e: (nat, NodeId))
    requires Inv(s) && Later(s, s', lo) && Has(Nodes(s), e.1) && At(Nodes(s), e.1).deleteMe
    ensures Count(s'.log, e) == Count(s.log, e)
  {
    assert Nodes(s)[Pos(Nodes(s), e.1)].id < s.nextId;
    assert !Callable(s, e.1);
    CountNew(s.log, s'.log, e);
  }

  lemma KindStays(s: State, s': State, lo: nat, x: NodeId)
    requires Later(s, s', lo) && 0 < Walking(s) && Has(Nodes(s), x)
    ensures Has(Nodes(s'), x) && At(Nodes(s'), x).kind == At(Nodes(s), x).kind
  {
    assert Extends(Nodes(s), Nodes(s'));
  }

  lemma EndKeeps(s1: State, x: NodeId)
    requires Inv(s1) && 0 < Walking(s1)
    ensures End(s1).log == s1.log && End(s1).deleted == s1.deleted
    ensures var s' := End(s1); Has(Nodes(s'), x) ==> Has(Nodes(s1), x) && At(Nodes(s'), x) == At(Nodes(s1), x)
  {
    var t := s1.(cb := Some(s1.cb.value.(walking := s1.cb.value.walking - 1)));
    SameShape(s1, t);
    if Walking(t) == 0 { ClearLater(t); }
  }

  lemma VisitEntries(s: State, kind: int, w: nat, cur: NodeId, scripts: Scripts, i: nat)
    requires Inv(s) && 0 < Walking(s) && Has(Nodes(s), cur) && w < s.nextWalk
    requires var log := Visit(s, kind, w, cur, scripts).log; |s.log| <= i < |log| && log[i].0 == w
    ensures i == |s.log| && Visit(s, kind, w, cur, scripts).log[i].1 == cur
  {
    hide Inv, Extends, Callable;
    LogLater(s, w, cur);
  }

  lemma {:induction false} WalkAhead(s: State, kind: int, w: nat, cur: NodeId, scripts: Scripts, i: nat)
    requires Inv(s) && 0 < Walking(s) && Has(Nodes(s), cur) && w < s.nextWalk
    requires var log := Walk(s, kind, w, cur, scripts).log; |s.log| <= i < |log| && log[i].0 == w
    ensures var s' := Walk(s, kind, w, cur, scripts);
            var x := s'.log[i].1;
            Has(Nodes(s'), cur) && Has(Nodes(s'), x) && Pos(Nodes(s'), cur) <= Pos(Nodes(s'), x)
    decreases scripts, 1, |Nodes(s)| - Pos(Nodes(s), cur)
  {
    hide Callable, Inv, Sorted;
    var t := Visit(s, kind, w, cur, scripts);
    var s' := Walk(s, kind, w, cur, scripts);
    assert Has(Nodes(t), cur) && Has(Nodes(s'), cur);
    if i < |t.log| {
      VisitEntries(s, kind, w, cur, scripts, i);
    } else {
      UniqueOf(t);
      WalkAhead(t, kind, w, Next(t, cur), Rest(s, kind, cur, scripts), i);
    }
  }

  /** The calls a walk makes go forward through the list, so by rising priority. */
  lemma {:induction false} WalkOrder(s: State, kind: int, w: nat, cur: NodeId, scripts: Scripts, i: nat, j: nat)
    requires Inv(s) && 0 < Walking(s) && Has(Nodes(s), cur) && w < s.nextWalk
    requires var log := Walk(s, kind, w, cur, scripts).log;
             |s.log| <= i < j < |log| && log[i].0 == w && log[j].0 == w
    ensures var s' := Walk(s, kind, w, cur, scripts);
            var x, y := s'.log[i].1, s'.log[j].1;
            && Has(Nodes(s'), x) && Has(Nodes(s'), y)
            && Pos(Nodes(s'), x) < Pos(Nodes(s'), y)
            && At(Nodes(s'), x).priority <= At(Nodes(s'), y).priority
    decreases scripts, 1, |Nodes(s)| - Pos(Nodes(s), cur)
  {
    hide Callable, Sorted, Inv;
    var t := Visit(s, kind, w, cur, scripts);
    var s' := Walk(s, kind, w, cur, scripts);
    assert Has(Nodes(t), cur) && Has(Nodes(s'), cur);
    if j < |t.log| {
      VisitEntries(s, kind, w, cur, scripts, i);
      VisitEntries(s, kind, w, cur, scripts, j);
    } else {
      UniqueOf(t);
      if i < |t.log| {
        VisitEntries(s, kind, w, cur, scripts, i);
        WalkAhead(t, kind, w, Next(t, cur), Rest(s, kind, cur, scripts), j);
        assert Has(Nodes(s'), Next(t, cur));
        SortedAt(s', cur, s'.log[j].1);
      } else {
        WalkOrder(t, kind, w, Next(t, cur), Rest(s, kind, cur, scripts), i, j);
      }
    }
  }

  lemma SortedAt(s: State, x: NodeId, y: NodeId)
    requires Inv(s) && Has(Nodes(s), x) && Has(Nodes(s), y) && Pos(Nodes(s), x) < Pos(Nodes(s), y)
    ensures At(Nodes(s), x).priority <= At(Nodes(s), y).priority
  {}
}
