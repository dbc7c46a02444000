/**
 The request structures of the cserve2 server: the live requests, the waiting and
 processing queue of each request type, and the dependency links between requests.

 The heap of the C program is the map `reqs` from handles to records, so that free()
 is the removal of a handle and every dereference `reqs[h]` carries the obligation
 that h is still live.
 */
module RequestTable {
  import opened Lists

  /** The request types, in the order in which a scheduling pass looks at them. */
  const IMAGE_OPEN := 0
  const IMAGE_LOAD := 1
  const IMAGE_SPEC_LOAD := 2
  const FONT_LOAD := 3
  const FONT_GLYPHS_LOAD := 4
  const REQ_LAST := 5

  type RequestType = t: nat | t < REQ_LAST

  type Handle = nat
  type Client = nat

  /** Error_Type; the members the scheduler uses itself. */
  type ErrorType = int
  const GENERIC: ErrorType := 1
  const LOADER_DIED: ErrorType := 8

  datatype Waiter = Waiter(client: Client, rid: nat)
  datatype Outcome = Loaded(data: nat) | Failed(err: ErrorType)
  datatype Reply = Reply(waiter: Waiter, outcome: Outcome)

  datatype Request = Request(
    rtype: RequestType,
    data: nat,
    waiters: seq<Waiter>,
    processing: bool,
    dependency: Option<Handle>,
    dependents: seq<Handle>,
    locked: bool,
    cancelled: bool)

  type Heap = map<Handle, Request>

  /** One list of requests for each request type. */
  type Queues = q: seq<seq<Handle>> | |q| == REQ_LAST witness [[], [], [], [], []]

  /** `sent` is the history of the replies written to clients. */
  datatype Table = Table(reqs: Heap, waiting: Queues, running: Queues, sent: seq<Reply>, next: Handle)

  // ----- consistency ----------------------------------------------------------------

  /** q holds, once, each live request of the given processing state that is not in hand. */
  ghost predicate QueuesOk(reqs: Heap, q: Queues, out: set<Handle>, flag: bool) {
    && (forall t: RequestType {:trigger NoDup(q[t])} :: NoDup(q[t]))
    && (forall t: RequestType, h {:trigger h in q[t]} ::
          h in q[t] <==> h in reqs && h !in out && reqs[h].rtype == t && reqs[h].processing == flag)
  }

  /** A request is locked exactly when it has a dependency; it then waits, and ranks below it. */
  ghost predicate LockOk(reqs: Heap, x: Handle)
    requires x in reqs
  {
    var r := reqs[x];
    && (r.locked <==> r.dependency.Some?)
    && (r.locked ==> !r.processing)
    && (r.dependency.Some? ==>
          r.dependency.value in reqs && reqs[r.dependency.value].rtype < r.rtype)
  }

  /** The two pointer structures, dependency and dependents, are inverse to each other. */
  ghost predicate LinksOk(reqs: Heap) {
    && (forall x {:trigger LockOk(reqs, x)} :: x in reqs ==> LockOk(reqs, x))
    && (forall h {:trigger NoDup(reqs[h].dependents)} :: h in reqs ==> NoDup(reqs[h].dependents))
    && (forall h, x {:trigger x in reqs[h].dependents} :: h in reqs ==>
          (x in reqs[h].dependents <==> x in reqs && reqs[x].dependency == Some(h)))
  }

  /** The table is consistent, except that the requests in `out` are unlinked from the queues. */
  ghost predicate Core(tab: Table, out: set<Handle>) {
    && QueuesOk(tab.reqs, tab.waiting, out, false)
    && QueuesOk(tab.reqs, tab.running, out, true)
    && LinksOk(tab.reqs)
    && (forall h :: h in tab.reqs ==> h < tab.next)
    && (forall h :: h in out && h in tab.reqs ==> tab.reqs[h].dependency.None?)
  }

  /** x is r, or following dependency pointers from x arrives at r. */
  ghost predicate Under(reqs: Heap, x: Handle, r: Handle)
    requires LinksOk(reqs)
    decreases if x in reqs then reqs[x].rtype else 0
  {
    x in reqs &&
    (x == r || (reqs[x].dependency.Some? &&
                (assert LockOk(reqs, x);
                 Under(reqs, reqs[x].dependency.value, r))))
  }

  ghost function Below(reqs: Heap, r: Handle): (u: set<Handle>)
    requires LinksOk(reqs)
  {
    set x | x in reqs && Under(reqs, x, r)
  }

  lemma {:induction false} UnderRank(reqs: Heap, x: Handle, r: Handle)
    requires LinksOk(reqs) && Under(reqs, x, r) && x != r
    ensures r in reqs && reqs[r].rtype < reqs[x].rtype
    ensures reqs[x].locked
    decreases reqs[x].rtype
  {
    var d := reqs[x].dependency.value;
    assert LockOk(reqs, x);
    if d != r {
      UnderRank(reqs, d, r);
    }
  }

  lemma {:induction false} UnderTransitive(reqs: Heap, x: Handle, y: Handle, z: Handle)
    requires LinksOk(reqs) && Under(reqs, x, y) && Under(reqs, y, z)
    ensures Under(reqs, x, z)
    decreases reqs[x].rtype
  {
    if x != y {
      assert LockOk(reqs, x);
      UnderTransitive(reqs, reqs[x].dependency.value, y, z);
    }
  }

  /** Whatever is strictly below r is below one of r's dependents. */
  lemma {:induction false} UnderDependent(reqs: Heap, x: Handle, r: Handle) returns (d: Handle)
    requires LinksOk(reqs) && Under(reqs, x, r) && x != r
    ensures r in reqs && d in reqs[r].dependents && Under(reqs, x, d)
    decreases reqs[x].rtype
  {
    var y := reqs[x].dependency.value;
    assert LockOk(reqs, x);
    if y == r {
      d := x;
      assert d in reqs[r].dependents;
    } else {
      d := UnderDependent(reqs, y, r);
    }
  }

  /** Under only follows dependency pointers, so it survives in a heap that keeps them. */
  lemma {:induction false} UnderSame(reqs: Heap, reqs': Heap, x: Handle, r: Handle)
    requires LinksOk(reqs) && LinksOk(reqs') && reqs'.Keys <= reqs.Keys
    requires forall y :: y in reqs' && y != r ==> reqs'[y].dependency == reqs[y].dependency
    requires x in reqs'
    ensures Under(reqs', x, r) == Under(reqs, x, r)
    decreases reqs'[x].rtype
  {
    if x != r && reqs'[x].dependency.Some? {
      assert LockOk(reqs', x);
      UnderSame(reqs, reqs', reqs'[x].dependency.value, r);
    }
  }

  // ----- single updates -------------------------------------------------------------

  function Replies(ws: seq<Waiter>, o: Outcome): (rs: seq<Reply>)
    ensures |rs| == |ws|
    ensures forall i :: 0 <= i < |ws| ==> rs[i] == Reply(ws[i], o)
  {
    seq(|ws|, i requires 0 <= i < |ws| => Reply(ws[i], o))
  }

  /** Every waiter of h is sent outcome o and taken off the request. */
  function AnswerAll(tab: Table, h: Handle, o: Outcome): Table
    requires h in tab.reqs
  {
    tab.(reqs := tab.reqs[h := tab.reqs[h].(waiters := [])],
         sent := tab.sent + Replies(tab.reqs[h].waiters, o))
  }

  /** The heaps agree on everything but the waiters and the cancelled flags. */
  ghost predicate SameShape(reqs: Heap, reqs': Heap) {
    && reqs'.Keys == reqs.Keys
    && forall x {:trigger reqs'[x]} :: x in reqs ==>
         && reqs'[x].rtype == reqs[x].rtype
         && reqs'[x].data == reqs[x].data
         && reqs'[x].processing == reqs[x].processing
         && reqs'[x].dependency == reqs[x].dependency
         && reqs'[x].dependents == reqs[x].dependents
         && reqs'[x].locked == reqs[x].locked
  }

  lemma SameShapeLinks(reqs: Heap, reqs': Heap)
    requires LinksOk(reqs) && SameShape(reqs, reqs')
    ensures LinksOk(reqs')
  {
    forall x | x in reqs' ensures LockOk(reqs', x) {
      assert LockOk(reqs, x);
    }
    forall x | x in reqs' ensures NoDup(reqs'[x].dependents) {
      assert NoDup(reqs[x].dependents);
    }
    forall h, x | h in reqs'
      ensures x in reqs'[h].dependents <==> x in reqs' && reqs'[x].dependency == Some(h)
    {
      assert x in reqs[h].dependents <==> x in reqs && reqs[x].dependency == Some(h);
    }
  }

  /** Queues are consistent with every heap that has the same requests in the same states. */
  lemma SameQueues(reqs: Heap, reqs': Heap, q: Queues, out: set<Handle>, flag: bool)
    requires QueuesOk(reqs, q, out, flag) && reqs'.Keys == reqs.Keys
    requires forall x :: x in reqs ==>
               reqs'[x].rtype == reqs[x].rtype && reqs'[x].processing == reqs[x].processing
    ensures QueuesOk(reqs', q, out, flag)
  {}

  lemma SameShapeCore(tab: Table, reqs': Heap, sent': seq<Reply>, out: set<Handle>)
    requires Core(tab, out) && SameShape(tab.reqs, reqs')
    ensures Core(tab.(reqs := reqs', sent := sent'), out)
  {
    SameShapeLinks(tab.reqs, reqs');
    SameQueues(tab.reqs, reqs', tab.waiting, out, false);
    SameQueues(tab.reqs, reqs', tab.running, out, true);
  }

  /** The first dependent of h is unlinked from h and no longer locked. */
  function Orphan(reqs: Heap, h: Handle): (reqs': Heap)
    requires h in reqs && reqs[h].dependents != [] && reqs[h].dependents[0] in reqs
    ensures reqs'.Keys == reqs.Keys
    ensures forall x :: x in reqs ==>
              reqs'[x].rtype == reqs[x].rtype && reqs'[x].processing == reqs[x].processing
  {
    var d := reqs[h].dependents[0];
    var popped := reqs[h := reqs[h].(dependents := reqs[h].dependents[1..])];
    popped[d := popped[d].(locked := false, dependency := None)]
  }

  lemma FirstDependent(reqs: Heap, h: Handle)
    requires LinksOk(reqs) && h in reqs && reqs[h].dependents != []
    ensures var d := reqs[h].dependents[0];
            && d in reqs && d != h && reqs[d].dependency == Some(h) && !reqs[d].processing
            && reqs[h].rtype < reqs[d].rtype
  {
    var d := reqs[h].dependents[0];
    assert d in reqs[h].dependents;
    assert LockOk(reqs, d);
  }

  lemma OrphanLinks(reqs: Heap, h: Handle)
    requires LinksOk(reqs) && h in reqs && reqs[h].dependents != []
    requires reqs[h].dependents[0] in reqs
    ensures LinksOk(Orphan(reqs, h))
  {
    FirstDependent(reqs, h);
    var ds := reqs[h].dependents;
    var d := ds[0];
    var reqs' := Orphan(reqs, h);
    assert NoDup(ds);
    forall x | x in reqs' ensures LockOk(reqs', x) && NoDup(reqs'[x].dependents) {
      assert LockOk(reqs, x) && NoDup(reqs[x].dependents);
    }
    forall y, x | y in reqs'
      ensures x in reqs'[y].dependents <==> x in reqs' && reqs'[x].dependency == Some(y)
    {
      assert x in reqs[y].dependents <==> x in reqs && reqs[x].dependency == Some(y);
    }
  }

  lemma OrphanCore(tab: Table, h: Handle, out: set<Handle>)
    requires Core(tab, out) && h in tab.reqs && tab.reqs[h].dependents != []
    requires tab.reqs[h].dependents[0] in tab.reqs
    ensures Core(tab.(reqs := Orphan(tab.reqs, h)), out)
  {
    OrphanLinks(tab.reqs, h);
    var reqs' := Orphan(tab.reqs, h);
    SameQueues(tab.reqs, reqs', tab.waiting, out, false);
    SameQueues(tab.reqs, reqs', tab.running, out, true);
  }

  /** h is taken off the dependents of its dependency. */
  function Unlink(reqs: Heap, h: Handle): (reqs': Heap)
    requires h in reqs
    requires reqs[h].dependency.Some? ==> reqs[h].dependency.value in reqs
    ensures reqs'.Keys == reqs.Keys
    ensures forall x :: x in reqs ==>
              reqs'[x].rtype == reqs[x].rtype && reqs'[x].processing == reqs[x].processing
  {
    var reqs1 := match reqs[h].dependency
      case None => reqs
      case Some(d) => reqs[d := reqs[d].(dependents := Without(reqs[d].dependents, {h}))];
    reqs1[h := reqs1[h].(dependency := None, locked := false)]
  }

  lemma DependencyLive(reqs: Heap, h: Handle)
    requires LinksOk(reqs) && h in reqs
    ensures reqs[h].dependency.Some? ==>
              reqs[h].dependency.value in reqs && reqs[h].dependency.value != h
  {
    assert LockOk(reqs, h);
  }

  lemma UnlinkLinks(reqs: Heap, h: Handle)
    requires LinksOk(reqs) && h in reqs
    requires reqs[h].dependency.Some? ==> reqs[h].dependency.value in reqs
    ensures LinksOk(Unlink(reqs, h))
  {
    DependencyLive(reqs, h);
    var reqs' := Unlink(reqs, h);
    if reqs[h].dependency.Some? {
      assert NoDup(reqs[reqs[h].dependency.value].dependents);
      WithoutNoDup(reqs[reqs[h].dependency.value].dependents, {h});
    }
    forall x | x in reqs' ensures LockOk(reqs', x) && NoDup(reqs'[x].dependents) {
      assert LockOk(reqs, x) && NoDup(reqs[x].dependents);
    }
    forall y, x | y in reqs'
      ensures x in reqs'[y].dependents <==> x in reqs' && reqs'[x].dependency == Some(y)
    {
      assert x in reqs[y].dependents <==> x in reqs && reqs[x].dependency == Some(y);
    }
  }

  /** h is unlinked from its queue and from the dependents of its dependency. */
  function Dequeue(tab: Table, h: Handle): Table
    requires h in tab.reqs
    requires tab.reqs[h].dependency.Some? ==> tab.reqs[h].dependency.value in tab.reqs
  {
    var t := tab.reqs[h].rtype;
    tab.(reqs := Unlink(tab.reqs, h),
         waiting := tab.waiting[t := Without(tab.waiting[t], {h})],
         running := tab.running[t := Without(tab.running[t], {h})])
  }

  lemma DequeueQueue(reqs: Heap, reqs': Heap, q: Queues, h: Handle, out: set<Handle>, flag: bool)
    requires QueuesOk(reqs, q, out, flag) && h in reqs && reqs'.Keys == reqs.Keys
    requires forall x :: x in reqs ==>
               reqs'[x].rtype == reqs[x].rtype && reqs'[x].processing == reqs[x].processing
    ensures QueuesOk(reqs', q[reqs[h].rtype := Without(q[reqs[h].rtype], {h})], out + {h}, flag)
  {
    forall t: RequestType ensures NoDup(Without(q[t], {h})) && (t != reqs[h].rtype ==> h !in q[t]) {
      assert NoDup(q[t]);
      WithoutNoDup(q[t], {h});
    }
    var q' := q[reqs[h].rtype := Without(q[reqs[h].rtype], {h})];
    forall t: RequestType, x
      ensures x in q'[t] <==> x in reqs' && x !in out + {h} && reqs'[x].rtype == t && reqs'[x].processing == flag
    {
      assert x in q[t] <==> x in reqs && x !in out && reqs[x].rtype == t && reqs[x].processing == flag;
    }
  }

  /** Only the queue of h's own type and state changes. */
  lemma DequeueOthers(reqs: Heap, q: Queues, h: Handle, out: set<Handle>, flag: bool)
    requires QueuesOk(reqs, q, out, flag) && h in reqs
    ensures var q' := q[reqs[h].rtype := Without(q[reqs[h].rtype], {h})];
            && (forall t: RequestType :: q'[t] == Without(q[t], {h}))
            && (reqs[h].processing != flag ==> q' == q)
  {
    forall t: RequestType ensures t != reqs[h].rtype || reqs[h].processing != flag ==> Without(q[t], {h}) == q[t] {
      if t != reqs[h].rtype || reqs[h].processing != flag {
        assert h !in q[t];
        WithoutNone(q[t], {h});
      }
    }
  }

  lemma DequeueCore(tab: Table, h: Handle, out: set<Handle>)
    requires Core(tab, out) && h in tab.reqs
    requires tab.reqs[h].dependency.Some? ==> tab.reqs[h].dependency.value in tab.reqs
    ensures Core(Dequeue(tab, h), out + {h})
  {
    var reqs' := Unlink(tab.reqs, h);
    UnlinkLinks(tab.reqs, h);
    DequeueQueue(tab.reqs, reqs', tab.waiting, h, out, false);
    DequeueQueue(tab.reqs, reqs', tab.running, h, out, true);
  }

  /** free(): h is in no queue, depends on nothing and nothing depends on it. */
  function Drop(tab: Table, h: Handle): Table {
    tab.(reqs := tab.reqs - {h})
  }

  lemma DropCore(tab: Table, h: Handle, out: set<Handle>)
    requires Core(tab, out + {h}) && h !in out && h in tab.reqs
    requires tab.reqs[h].dependents == [] && tab.reqs[h].dependency.None?
    ensures Core(Drop(tab, h), out)
  {
    DropLinks(tab.reqs, h);
    DropQueue(tab.reqs, tab.waiting, h, out, false);
    DropQueue(tab.reqs, tab.running, h, out, true);
  }

  lemma DropQueue(reqs: Heap, q: Queues, h: Handle, out: set<Handle>, flag: bool)
    requires QueuesOk(reqs, q, out + {h}, flag) && h !in out
    ensures QueuesOk(reqs - {h}, q, out, flag)
  {}

  lemma DropLinks(reqs: Heap, h: Handle)
    requires LinksOk(reqs) && h in reqs && reqs[h].dependents == [] && reqs[h].dependency.None?
    ensures LinksOk(reqs - {h})
  {
    var reqs' := reqs - {h};
    forall x | x in reqs' ensures LockOk(reqs', x) && NoDup(reqs'[x].dependents) {
      assert LockOk(reqs, x) && NoDup(reqs[x].dependents);
      assert x !in reqs[h].dependents;
    }
    forall y, x | y in reqs'
      ensures x in reqs'[y].dependents <==> x in reqs' && reqs'[x].dependency == Some(y)
    {
      assert x in reqs[y].dependents <==> x in reqs && reqs[x].dependency == Some(y);
    }
  }

  // ----- cancellation ---------------------------------------------------------------

  /** The requests in `gone` are unlinked from the waiting queues; replies are only added. */
  ghost predicate Unqueued(tab: Table, tab': Table, gone: set<Handle>) {
    && (forall t: RequestType :: tab'.waiting[t] == Without(tab.waiting[t], gone))
    && tab'.running == tab.running
    && tab'.next == tab.next
    && tab.sent <= tab'.sent
  }

  /** Cancelling the dependents of h removes exactly what is strictly below h. */
  ghost predicate DependentsCancelled(reqs: Heap, reqs': Heap, h: Handle)
    requires LinksOk(reqs) && h in reqs
  {
    && reqs'.Keys == reqs.Keys - (Below(reqs, h) - {h})
    && h in reqs'
    && reqs'[h] == reqs[h].(dependents := [])
    && (forall x {:trigger reqs'[x]} :: x in reqs' && x != h ==> reqs'[x] == reqs[x])
  }

  /** What goes when h is cancelled: h and what is below it; but h stays while it is processed. */
  ghost function Cancelled(reqs: Heap, h: Handle): set<Handle>
    requires LinksOk(reqs) && h in reqs
  {
    if reqs[h].processing then Below(reqs, h) - {h} else Below(reqs, h)
  }

  /** Every other request is as it was, but for h leaving the dependents of its dependency. */
  ghost predicate AllCancelled(reqs: Heap, reqs': Heap, h: Handle)
    requires LinksOk(reqs) && h in reqs
  {
    && reqs'.Keys == reqs.Keys - Cancelled(reqs, h)
    && (reqs[h].processing ==>
          h in reqs' && reqs'[h] == reqs[h].(waiters := [], dependents := [], cancelled := true))
    && (reqs[h].dependency.Some? ==>
          var d := reqs[h].dependency.value;
          d in reqs && d in reqs' && reqs'[d] == reqs[d].(dependents := Without(reqs[d].dependents, {h})))
    && (forall x {:trigger reqs'[x]} :: x in reqs' && x != h && reqs[h].dependency != Some(x) ==>
          reqs'[x] == reqs[x])
  }

  /** cserve2_request_cancel_all, for a request that is not in hand. */
  function CancelAll(tab: Table, h: Handle, err: ErrorType, ghost out: set<Handle>): (tab': Table)
    requires Core(tab, out) && h in tab.reqs && h !in out
    ensures Core(tab', out)
    ensures AllCancelled(tab.reqs, tab'.reqs, h) && Unqueued(tab, tab', Cancelled(tab.reqs, h))
    decreases REQ_LAST - tab.reqs[h].rtype
  {
    var t1 := AnswerAll(tab, h, Failed(err));
    SameShapeCore(tab, t1.reqs, t1.sent, out);
    var t2 := CancelDependents(t1, h, err, out);
    ReshapedBelow(tab.reqs, t1.reqs, h);
    if t2.reqs[h].processing then
      Marked(tab, t1, t2, h, out);
      t2.(reqs := t2.reqs[h := t2.reqs[h].(cancelled := true)])
    else
      DependencyLive(t2.reqs, h);
      Freed(tab, t1, t2, h, out);
      Drop(Dequeue(t2, h), h)
  }

  /** _request_dependents_cancel: pops the dependents of h and cancels each. */
  function CancelDependents(tab: Table, h: Handle, err: ErrorType, ghost out: set<Handle>): (tab': Table)
    requires Core(tab, out) && h in tab.reqs
    ensures Core(tab', out)
    ensures DependentsCancelled(tab.reqs, tab'.reqs, h)
    ensures Unqueued(tab, tab', Below(tab.reqs, h) - {h})
    decreases REQ_LAST - tab.reqs[h].rtype, |tab.reqs[h].dependents|
  {
    hide QueuesOk, LinksOk;
    if tab.reqs[h].dependents == [] then
      NothingBelow(tab, h);
      tab
    else
      FirstDependent(tab.reqs, h);
      var d := tab.reqs[h].dependents[0];
      OrphanCore(tab, h, out);
      var t1 := tab.(reqs := Orphan(tab.reqs, h));
      var t2 := CancelAll(t1, d, err, out);
      OrphanStays(tab.reqs, h, t2.reqs);
      var t3 := CancelDependents(t2, h, err, out);
      PoppedBelow(tab.reqs, h, t2.reqs);
      PoppedHeap(tab.reqs, h, t2.reqs, t3.reqs);
      PoppedQueues(tab, t2, t3, Below(t1.reqs, d), Below(t2.reqs, h) - {h});
      t3
  }

  lemma ReshapedBelow(reqs: Heap, reqs': Heap, h: Handle)
    requires LinksOk(reqs) && LinksOk(reqs') && SameShape(reqs, reqs')
    ensures Below(reqs', h) == Below(reqs, h)
  {
    forall x | x in reqs ensures Under(reqs', x, h) == Under(reqs, x, h) {
      UnderSame(reqs, reqs', x, h);
    }
  }

  lemma FreedHeap(reqs: Heap, reqs1: Heap, reqs2: Heap, h: Handle)
    requires LinksOk(reqs) && h in reqs && !reqs[h].processing
    requires reqs1 == reqs[h := reqs[h].(waiters := [])] && LinksOk(reqs1)
    requires Below(reqs1, h) == Below(reqs, h)
    requires DependentsCancelled(reqs1, reqs2, h)
    requires reqs2[h].dependency.Some? ==> reqs2[h].dependency.value in reqs2 && reqs2[h].dependency.value != h
    ensures AllCancelled(reqs, Unlink(reqs2, h) - {h}, h)
  {
    assert h in Below(reqs, h);
  }

  lemma Marked(tab: Table, t1: Table, t2: Table, h: Handle, out: set<Handle>)
    requires LinksOk(tab.reqs) && h in tab.reqs && tab.reqs[h].processing
    requires t1.reqs == tab.reqs[h := tab.reqs[h].(waiters := [])] && LinksOk(t1.reqs)
    requires Below(t1.reqs, h) == Below(tab.reqs, h)
    requires DependentsCancelled(t1.reqs, t2.reqs, h)
    requires Unqueued(tab, t2, Below(tab.reqs, h) - {h})
    requires Core(t2, out) && h in t2.reqs
    ensures var t3 := t2.(reqs := t2.reqs[h := t2.reqs[h].(cancelled := true)]);
            Core(t3, out) && AllCancelled(tab.reqs, t3.reqs, h) && Unqueued(tab, t3, Cancelled(tab.reqs, h))
  {
    assert LockOk(tab.reqs, h);
    var reqs' := t2.reqs[h := t2.reqs[h].(cancelled := true)];
    SameShapeCore(t2, reqs', t2.sent, out);
  }

  lemma Freed(tab: Table, t1: Table, t2: Table, h: Handle, out: set<Handle>)
    requires LinksOk(tab.reqs) && h in Below(tab.reqs, h) && h !in out && !tab.reqs[h].processing
    requires t1.reqs == tab.reqs[h := tab.reqs[h].(waiters := [])] && LinksOk(t1.reqs)
    requires Below(t1.reqs, h) == Below(tab.reqs, h)
    requires DependentsCancelled(t1.reqs, t2.reqs, h)
    requires Unqueued(tab, t2, Below(tab.reqs, h) - {h})
    requires Core(t2, out) && h in t2.reqs
    requires t2.reqs[h].dependency.Some? ==>
               t2.reqs[h].dependency.value in t2.reqs && t2.reqs[h].dependency.value != h
    ensures var t3 := Drop(Dequeue(t2, h), h);
            Core(t3, out) && AllCancelled(tab.reqs, t3.reqs, h) && Unqueued(tab, t3, Cancelled(tab.reqs, h))
  {
    FreedCore(t2, h, out);
    FreedHeap(tab.reqs, t1.reqs, t2.reqs, h);
    FreedQueues(tab, t2, h, Below(tab.reqs, h), out);
  }

  lemma FreedCore(tab: Table, h: Handle, out: set<Handle>)
    requires Core(tab, out) && h in tab.reqs && h !in out && tab.reqs[h].dependents == []
    requires tab.reqs[h].dependency.Some? ==>
               tab.reqs[h].dependency.value in tab.reqs && tab.reqs[h].dependency.value != h
    ensures Core(Drop(Dequeue(tab, h), h), out)
  {
    DequeueCore(tab, h, out);
    DropCore(Dequeue(tab, h), h, out);
  }

  lemma FreedQueues(tab: Table, t2: Table, h: Handle, gone: set<Handle>, out: set<Handle>)
    requires h in gone && Unqueued(tab, t2, gone - {h})
    requires QueuesOk(t2.reqs, t2.waiting, out, false) && QueuesOk(t2.reqs, t2.running, out, true)
    requires h in t2.reqs && !t2.reqs[h].processing
    requires t2.reqs[h].dependency.Some? ==> t2.reqs[h].dependency.value in t2.reqs
    ensures Unqueued(tab, Drop(Dequeue(t2, h), h), gone)
  {
    DequeueOthers(t2.reqs, t2.waiting, h, out, false);
    DequeueOthers(t2.reqs, t2.running, h, out, true);
    assert (gone - {h}) + {h} == gone;
    forall t: RequestType ensures Dequeue(t2, h).waiting[t] == Without(tab.waiting[t], gone) {
      WithoutTwice(tab.waiting[t], gone - {h}, {h});
    }
  }

  lemma NothingBelow(tab: Table, h: Handle)
    requires LinksOk(tab.reqs) && h in tab.reqs && tab.reqs[h].dependents == []
    ensures DependentsCancelled(tab.reqs, tab.reqs, h)
    ensures Unqueued(tab, tab, Below(tab.reqs, h) - {h})
  {
    forall x | x in Below(tab.reqs, h) ensures x == h {
      if x != h {
        var d := UnderDependent(tab.reqs, x, h);
      }
    }
    assert Below(tab.reqs, h) - {h} == {};
    forall t: RequestType ensures Without(tab.waiting[t], {}) == tab.waiting[t] {
      WithoutNone(tab.waiting[t], {});
    }
  }

  /** Cancelling a dependent of h leaves h alone, for h ranks below it. */
  lemma OrphanStays(reqs: Heap, h: Handle, reqs2: Heap)
    requires LinksOk(reqs) && h in reqs && reqs[h].dependents != []
    requires reqs[h].dependents[0] in reqs && LinksOk(Orphan(reqs, h))
    requires AllCancelled(Orphan(reqs, h), reqs2, reqs[h].dependents[0])
    ensures h in reqs2 && reqs2[h] == Orphan(reqs, h)[h]
  {
    FirstDependent(reqs, h);
    var d := reqs[h].dependents[0];
    if Under(Orphan(reqs, h), h, d) {
      UnderRank(Orphan(reqs, h), h, d);
    }
  }

  /** Below h lies what is below its first dependent and what is below the others. */
  lemma {:induction false} OrphanUnder(reqs: Heap, h: Handle, x: Handle)
    requires LinksOk(reqs) && h in reqs && reqs[h].dependents != []
    requires reqs[h].dependents[0] in reqs && LinksOk(Orphan(reqs, h))
    requires x in reqs
    ensures var d := reqs[h].dependents[0];
            && Under(Orphan(reqs, h), x, d) == Under(reqs, x, d)
            && Under(Orphan(reqs, h), x, h) == (Under(reqs, x, h) && !Under(reqs, x, d))
    decreases reqs[x].rtype
  {
    FirstDependent(reqs, h);
    var d := reqs[h].dependents[0];
    UnderSame(reqs, Orphan(reqs, h), x, d);
    if x == h {
      if Under(reqs, h, d) {
        UnderRank(reqs, h, d);
      }
    } else if x != d && reqs[x].dependency.Some? {
      assert LockOk(reqs, x);
      OrphanUnder(reqs, h, reqs[x].dependency.value);
    }
  }

  lemma PoppedBelow(reqs: Heap, h: Handle, reqs2: Heap)
    requires LinksOk(reqs) && h in reqs && reqs[h].dependents != []
    requires reqs[h].dependents[0] in reqs && LinksOk(Orphan(reqs, h))
    requires AllCancelled(Orphan(reqs, h), reqs2, reqs[h].dependents[0])
    requires LinksOk(reqs2) && h in reqs2
    ensures var d := reqs[h].dependents[0];
            Below(reqs, h) - {h} == Below(Orphan(reqs, h), d) + (Below(reqs2, h) - {h})
  {
    FirstDependent(reqs, h);
    var d := reqs[h].dependents[0];
    var reqs1 := Orphan(reqs, h);
    assert reqs1[d].dependency.None? && !reqs1[d].processing;
    forall x | x in reqs
      ensures x in Below(reqs, h) - {h} <==> x in Below(reqs1, d) + (Below(reqs2, h) - {h})
    {
      OrphanUnder(reqs, h, x);
      if x in reqs2 {
        UnderSame(reqs1, reqs2, x, h);
      } else {
        assert Under(reqs, d, h);
        UnderTransitive(reqs, x, d, h);
      }
    }
  }

  lemma PoppedHeap(reqs: Heap, h: Handle, reqs2: Heap, reqs3: Heap)
    requires LinksOk(reqs) && h in reqs && reqs[h].dependents != []
    requires reqs[h].dependents[0] in reqs && LinksOk(Orphan(reqs, h))
    requires AllCancelled(Orphan(reqs, h), reqs2, reqs[h].dependents[0])
    requires LinksOk(reqs2) && h in reqs2 && reqs2[h] == Orphan(reqs, h)[h]
    requires var d := reqs[h].dependents[0];
             Below(reqs, h) - {h} == Below(Orphan(reqs, h), d) + (Below(reqs2, h) - {h})
    requires DependentsCancelled(reqs2, reqs3, h)
    ensures DependentsCancelled(reqs, reqs3, h)
  {
    FirstDependent(reqs, h);
    var d := reqs[h].dependents[0];
    var reqs1 := Orphan(reqs, h);
    assert reqs1[d].dependency.None? && !reqs1[d].processing;
    assert d in Below(reqs1, d);
  }

  lemma PoppedQueues(tab: Table, t2: Table, t3: Table, a: set<Handle>, b: set<Handle>)
    requires Unqueued(tab, t2, a) && Unqueued(t2, t3, b)
    ensures Unqueued(tab, t3, a + b)
  {
    forall t: RequestType ensures t3.waiting[t] == Without(tab.waiting[t], a + b) {
      WithoutTwice(tab.waiting[t], a, b);
    }
  }

  // ----- accounting -----------------------------------------------------------------

  function Count(ws: seq<Waiter>, w: Waiter): nat {
    if ws == [] then 0 else Count(ws[..|ws| - 1], w) + if ws[|ws| - 1] == w then 1 else 0
  }

  /** How many times waiter w is attached to the live requests. */
  ghost function Attached(reqs: Heap, w: Waiter): nat
    decreases |reqs.Keys|
  {
    if reqs.Keys == {} then 0
    else
      var h :| h in reqs.Keys;
      assert (reqs - {h}).Keys == reqs.Keys - {h};
      Count(reqs[h].waiters, w) + Attached(reqs - {h}, w)
  }

  lemma {:induction false} AttachedSplit(reqs: Heap, h: Handle, w: Waiter)
    requires h in reqs
    ensures Attached(reqs, w) == Count(reqs[h].waiters, w) + Attached(reqs - {h}, w)
    decreases |reqs.Keys|
  {
    var k :| k in reqs.Keys && Attached(reqs, w) == Count(reqs[k].waiters, w) + Attached(reqs - {k}, w);
    if k != h {
      assert (reqs - {h}).Keys == reqs.Keys - {h} && (reqs - {k}).Keys == reqs.Keys - {k};
      AttachedSplit(reqs - {k}, h, w);
      AttachedSplit(reqs - {h}, k, w);
      assert (reqs - {k}) - {h} == (reqs - {h}) - {k};
    }
  }

  lemma AttachedUpdate(reqs: Heap, h: Handle, r: Request, w: Waiter)
    requires h in reqs
    ensures Attached(reqs[h := r], w) + Count(reqs[h].waiters, w)
            == Attached(reqs, w) + Count(r.waiters, w)
  {
    AttachedSplit(reqs, h, w);
    AttachedSplit(reqs[h := r], h, w);
    assert reqs[h := r] - {h} == reqs - {h};
  }

  lemma {:induction false} AttachedSame(reqs: Heap, reqs': Heap, w: Waiter)
    requires reqs'.Keys == reqs.Keys
    requires forall x :: x in reqs ==> reqs'[x].waiters == reqs[x].waiters
    ensures Attached(reqs', w) == Attached(reqs, w)
    decreases |reqs.Keys|
  {
    if reqs.Keys != {} {
      var h :| h in reqs.Keys;
      AttachedSplit(reqs, h, w);
      AttachedSplit(reqs', h, w);
      assert (reqs - {h}).Keys == reqs.Keys - {h};
      AttachedSame(reqs - {h}, reqs' - {h}, w);
    }
  }

  /** How many replies waiter w has got. */
  ghost function Answered(sent: seq<Reply>, w: Waiter): nat {
    if sent == [] then 0
    else Answered(sent[..|sent| - 1], w) + if sent[|sent| - 1].waiter == w then 1 else 0
  }

  lemma AnsweredOne(sent: seq<Reply>, r: Reply, w: Waiter)
    ensures Answered(sent + [r], w) == Answered(sent, w) + if r.waiter == w then 1 else 0
  {
    assert (sent + [r])[..|sent|] == sent;
  }

  lemma {:induction false} AnsweredReplies(sent: seq<Reply>, ws: seq<Waiter>, o: Outcome, w: Waiter)
    ensures Answered(sent + Replies(ws, o), w) == Answered(sent, w) + Count(ws, w)
  {
    hide Answered;
    if ws == [] {
      assert sent + Replies(ws, o) == sent;
    } else {
      var n := |ws| - 1;
      AnsweredReplies(sent, ws[..n], o, w);
      assert Replies(ws, o) == Replies(ws[..n], o) + [Reply(ws[n], o)];
      var all := sent + Replies(ws[..n], o);
      assert sent + Replies(ws, o) == all + [Reply(ws[n], o)];
      AnsweredOne(all, Reply(ws[n], o), w);
    }
  }

  /** Every time the table knows of w: answered, or still attached to a live request. */
  ghost function Ledger(tab: Table, w: Waiter): nat {
    Answered(tab.sent, w) + Attached(tab.reqs, w)
  }

  /** All replies sent between the two tables have outcome o. */
  ghost predicate OnlySent(tab: Table, tab': Table, o: Outcome) {
    tab.sent <= tab'.sent && forall i :: |tab.sent| <= i < |tab'.sent| ==> tab'.sent[i].outcome == o
  }

  lemma AnswerAllLedger(tab: Table, h: Handle, o: Outcome, w: Waiter)
    requires h in tab.reqs
    ensures Ledger(AnswerAll(tab, h, o), w) == Ledger(tab, w)
    ensures OnlySent(tab, AnswerAll(tab, h, o), o)
  {
    AnsweredReplies(tab.sent, tab.reqs[h].waiters, o, w);
    AttachedUpdate(tab.reqs, h, tab.reqs[h].(waiters := []), w);
  }

  lemma DropLedger(tab: Table, reqs': Heap, h: Handle, w: Waiter)
    requires h in tab.reqs && tab.reqs[h].waiters == [] && reqs'.Keys == tab.reqs.Keys
    requires forall x :: x in tab.reqs ==> reqs'[x].waiters == tab.reqs[x].waiters
    ensures Attached(reqs' - {h}, w) == Attached(tab.reqs, w)
  {
    AttachedSame(tab.reqs, reqs', w);
    AttachedSplit(reqs', h, w);
  }

  lemma FreedLedger(tab: Table, h: Handle, w: Waiter)
    requires LinksOk(tab.reqs) && h in tab.reqs && tab.reqs[h].waiters == []
    ensures tab.reqs[h].dependency.Some? ==>
              tab.reqs[h].dependency.value in tab.reqs && tab.reqs[h].dependency.value != h
    ensures Ledger(Drop(Dequeue(tab, h), h), w) == Ledger(tab, w)
  {
    DependencyLive(tab.reqs, h);
    DropLedger(tab, Unlink(tab.reqs, h), h, w);
  }

  /** Cancelling answers, with the error, every waiter of every request it removes. */
  lemma {:induction false} CancelAllLedger(tab: Table, h: Handle, err: ErrorType, out: set<Handle>, w: Waiter)
    requires Core(tab, out) && h in tab.reqs && h !in out
    ensures Ledger(CancelAll(tab, h, err, out), w) == Ledger(tab, w)
    ensures OnlySent(tab, CancelAll(tab, h, err, out), Failed(err))
    decreases REQ_LAST - tab.reqs[h].rtype
  {
    hide QueuesOk, LinksOk, Count, Unqueued, Below, Cancelled, AllCancelled, Under, Ledger;
    var t1 := AnswerAll(tab, h, Failed(err));
    AnswerAllLedger(tab, h, Failed(err), w);
    SameShapeCore(tab, t1.reqs, t1.sent, out);
    CancelDependentsLedger(t1, h, err, out, w);
    var t2 := CancelDependents(t1, h, err, out);
    if t2.reqs[h].processing {
      CancelledLedger(t2, h, w);
    } else {
      FreedLedger(t2, h, w);
    }
  }

  lemma CancelledLedger(tab: Table, h: Handle, w: Waiter)
    requires h in tab.reqs
    ensures Ledger(tab.(reqs := tab.reqs[h := tab.reqs[h].(cancelled := true)]), w) == Ledger(tab, w)
  {
    AttachedSame(tab.reqs, tab.reqs[h := tab.reqs[h].(cancelled := true)], w);
  }

  lemma {:induction false} CancelDependentsLedger(tab: Table, h: Handle, err: ErrorType, out: set<Handle>, w: Waiter)
    requires Core(tab, out) && h in tab.reqs
    ensures Ledger(CancelDependents(tab, h, err, out), w) == Ledger(tab, w)
    ensures OnlySent(tab, CancelDependents(tab, h, err, out), Failed(err))
    decreases REQ_LAST - tab.reqs[h].rtype, |tab.reqs[h].dependents|
  {
    hide QueuesOk, LinksOk, Count, Ledger, Unqueued, Below, Cancelled, AllCancelled, Under;
    if tab.reqs[h].dependents != [] {
      FirstDependent(tab.reqs, h);
      var d := tab.reqs[h].dependents[0];
      OrphanCore(tab, h, out);
      var t1 := tab.(reqs := Orphan(tab.reqs, h));
      OrphanLedger(tab, h, w);
      CancelAllLedger(t1, d, err, out, w);
      var t2 := CancelAll(t1, d, err, out);
      OrphanStays(tab.reqs, h, t2.reqs);
      CancelDependentsLedger(t2, h, err, out, w);
    }
  }

  lemma OrphanLedger(tab: Table, h: Handle, w: Waiter)
    requires h in tab.reqs && tab.reqs[h].dependents != [] && tab.reqs[h].dependents[0] in tab.reqs
    ensures Ledger(tab.(reqs := Orphan(tab.reqs, h)), w) == Ledger(tab, w)
  {
    AttachedSame(tab.reqs, Orphan(tab.reqs, h), w);
  }

  // ----- the end of a request -------------------------------------------------------

  /** The end of a request in hand without waiters: its dependents are cancelled, it is freed. */
  function GiveUp(tab: Table, h: Handle, err: ErrorType): (tab': Table)
    requires Core(tab, {h}) && h in tab.reqs
    ensures Core(tab', {})
    ensures tab'.reqs.Keys == tab.reqs.Keys - Below(tab.reqs, h)
    ensures forall x {:trigger tab'.reqs[x]} :: x in tab'.reqs ==> tab'.reqs[x] == tab.reqs[x]
    ensures Unqueued(tab, tab', Below(tab.reqs, h) - {h})
  {
    var t2 := CancelDependents(tab, h, err, {h});
    assert {} + {h} == {h};
    DropCore(t2, h, {});
    assert h in Below(tab.reqs, h);
    Drop(t2, h)
  }

  lemma GiveUpLedger(tab: Table, h: Handle, err: ErrorType, w: Waiter)
    requires Core(tab, {h}) && h in tab.reqs && tab.reqs[h].waiters == []
    ensures Ledger(GiveUp(tab, h, err), w) == Ledger(tab, w)
    ensures OnlySent(tab, GiveUp(tab, h, err), Failed(err))
  {
    hide QueuesOk, LinksOk, Count, Unqueued, Below, Under;
    CancelDependentsLedger(tab, h, err, {h}, w);
    var t2 := CancelDependents(tab, h, err, {h});
    DropLedger(t2, t2.reqs, h, w);
  }

  /** _cserve2_request_failed, once the request has been taken off its queue. */
  function FailInHand(tab: Table, h: Handle, err: ErrorType): (tab': Table)
    requires Core(tab, {h}) && h in tab.reqs
    ensures Core(tab', {})
    ensures tab'.reqs.Keys == tab.reqs.Keys - Below(tab.reqs, h)
    ensures forall x {:trigger tab'.reqs[x]} :: x in tab'.reqs ==> tab'.reqs[x] == tab.reqs[x]
    ensures Unqueued(tab, tab', Below(tab.reqs, h) - {h})
  {
    var t1 := AnswerAll(tab, h, Failed(err));
    SameShapeCore(tab, t1.reqs, t1.sent, {h});
    ReshapedBelow(tab.reqs, t1.reqs, h);
    GiveUp(t1, h, err)
  }

  lemma FailInHandLedger(tab: Table, h: Handle, err: ErrorType, w: Waiter)
    requires Core(tab, {h}) && h in tab.reqs
    ensures Ledger(FailInHand(tab, h, err), w) == Ledger(tab, w)
    ensures OnlySent(tab, FailInHand(tab, h, err), Failed(err))
  {
    hide QueuesOk, LinksOk, Count, Unqueued, Below, Under;
    var t1 := AnswerAll(tab, h, Failed(err));
    AnswerAllLedger(tab, h, Failed(err), w);
    SameShapeCore(tab, t1.reqs, t1.sent, {h});
    GiveUpLedger(t1, h, err, w);
  }

  lemma TakeOff(tab: Table, h: Handle)
    requires Core(tab, {}) && h in tab.reqs
    ensures tab.reqs[h].dependency.Some? ==> tab.reqs[h].dependency.value in tab.reqs
    ensures Core(Dequeue(tab, h), {h})
  {
    DependencyLive(tab.reqs, h);
    DequeueCore(tab, h, {});
    assert {} + {h} == {h};
  }

  /** The requests that depended on h are unlocked, the others are unchanged. */
  ghost predicate Unlocked(reqs: Heap, reqs': Heap, h: Handle) {
    && reqs'.Keys <= reqs.Keys
    && (forall x {:trigger reqs'[x]} :: x in reqs' && x != h ==>
          if reqs[x].dependency == Some(h)
          then reqs'[x] == reqs[x].(dependency := None, locked := false)
          else reqs'[x] == reqs[x])
  }

  /** Pops the dependents of h, which is in hand, and unlocks each. */
  function Release(tab: Table, h: Handle): (tab': Table)
    requires Core(tab, {h}) && h in tab.reqs
    ensures Core(tab', {h})
    ensures tab' == tab.(reqs := tab'.reqs) && tab'.reqs.Keys == tab.reqs.Keys
    ensures tab'.reqs[h] == tab.reqs[h].(dependents := [])
    ensures Unlocked(tab.reqs, tab'.reqs, h)
    decreases |tab.reqs[h].dependents|
  {
    if tab.reqs[h].dependents == [] then
      assert forall x :: x in tab.reqs && tab.reqs[x].dependency == Some(h) ==> x in tab.reqs[h].dependents;
      tab
    else
      FirstDependent(tab.reqs, h);
      OrphanCore(tab, h, {h});
      Release(tab.(reqs := Orphan(tab.reqs, h)), h)
  }

  /** h leaves its queue, its dependents are unlocked, and it is freed. */
  function Retire(tab: Table, h: Handle): (tab': Table)
    requires Core(tab, {}) && h in tab.reqs
    ensures Core(tab', {})
    ensures tab'.reqs.Keys == tab.reqs.Keys - {h}
    ensures tab.reqs[h].dependency.None? ==> Unlocked(tab.reqs, tab'.reqs, h)
    ensures var t := tab.reqs[h].rtype;
            tab' == Table(tab'.reqs,
                          tab.waiting[t := Without(tab.waiting[t], {h})],
                          tab.running[t := Without(tab.running[t], {h})], tab.sent, tab.next)
  {
    TakeOff(tab, h);
    var t2 := Release(Dequeue(tab, h), h);
    assert {} + {h} == {h};
    DropCore(t2, h, {});
    Drop(t2, h)
  }

  lemma RetireLedger(tab: Table, h: Handle, w: Waiter)
    requires Core(tab, {}) && h in tab.reqs
    ensures Ledger(Retire(tab, h), w) + Count(tab.reqs[h].waiters, w) == Ledger(tab, w)
  {
    hide QueuesOk, LinksOk, Count, Unlocked;
    TakeOff(tab, h);
    AttachedSame(tab.reqs, Unlink(tab.reqs, h), w);
    var t1 := Dequeue(tab, h);
    var t2 := Release(t1, h);
    UnlockedWaiters(t1.reqs, t2.reqs, h);
    AttachedSame(t1.reqs, t2.reqs, w);
    AttachedSplit(t2.reqs, h, w);
  }

  lemma UnlockedWaiters(reqs: Heap, reqs': Heap, h: Handle)
    requires Unlocked(reqs, reqs', h) && h in reqs && h in reqs' && reqs'[h].waiters == reqs[h].waiters
    ensures forall x :: x in reqs' ==> reqs'[x].waiters == reqs[x].waiters
  {}

  /** _slave_read_cb, up to the worker: h has been answered, by o, unless it was cancelled. */
  function Finish(tab: Table, h: Handle, o: Outcome): (tab': Table)
    requires Core(tab, {}) && h in tab.reqs
    ensures Core(tab', {})
    ensures tab'.reqs.Keys == tab.reqs.Keys - {h}
    ensures tab.reqs[h].dependency.None? ==> Unlocked(tab.reqs, tab'.reqs, h)
    ensures var t := tab.reqs[h].rtype;
            && tab'.waiting == tab.waiting[t := Without(tab.waiting[t], {h})]
            && tab'.running == tab.running[t := Without(tab.running[t], {h})]
            && tab'.next == tab.next
  {
    if tab.reqs[h].cancelled then
      Retire(tab, h)
    else
      var t1 := AnswerAll(tab, h, o);
      SameShapeCore(tab, t1.reqs, t1.sent, {});
      Retire(t1, h)
  }

  /** The response answers all waiters; those of a cancelled request, if any, are lost. */
  lemma FinishLedger(tab: Table, h: Handle, o: Outcome, w: Waiter)
    requires Core(tab, {}) && h in tab.reqs
    ensures OnlySent(tab, Finish(tab, h, o), o)
    ensures Ledger(Finish(tab, h, o), w) + (if tab.reqs[h].cancelled then Count(tab.reqs[h].waiters, w) else 0)
            == Ledger(tab, w)
  {
    hide QueuesOk, LinksOk, Unlocked;
    if tab.reqs[h].cancelled {
      RetireLedger(tab, h, w);
    } else {
      var t1 := AnswerAll(tab, h, o);
      AnswerAllLedger(tab, h, o, w);
      SameShapeCore(tab, t1.reqs, t1.sent, {});
      RetireLedger(t1, h, w);
    }
  }
}
