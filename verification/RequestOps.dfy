/** The operations of the cserve2 server on its request table that do not involve slaves. */
module RequestOps {
  import opened Lists
  import opened RequestTable

  // ----- adding ---------------------------------------------------------------------

  /** The first request of the list that is about `data`. */
  function FindIn(reqs: Heap, q: seq<Handle>, data: nat): (r: Option<Handle>)
    requires forall h :: h in q ==> h in reqs
    ensures r.Some? ==> r.value in q && reqs[r.value].data == data
    ensures r.None? ==> forall h {:trigger h in q} :: h in q ==> reqs[h].data != data
  {
    assert q != [] ==> forall h :: h in q ==> h == q[0] || h in q[1..];
    if q == [] then None
    else if reqs[q[0]].data == data then Some(q[0])
    else FindIn(reqs, q[1..], data)
  }

  /** A request of type t about `data`: one being processed, or else one that waits. */
  function Find(tab: Table, t: RequestType, data: nat): (r: Option<Handle>)
    requires Core(tab, {})
    ensures r.Some? ==> r.value in tab.reqs && tab.reqs[r.value].rtype == t && tab.reqs[r.value].data == data
    ensures r.None? ==> forall h :: h in tab.reqs && tab.reqs[h].rtype == t ==> tab.reqs[h].data != data
  {
    var p := FindIn(tab.reqs, tab.running[t], data);
    var r := if p.Some? then p else FindIn(tab.reqs, tab.waiting[t], data);
    assert r.None? ==> forall h :: h in tab.reqs && tab.reqs[h].rtype == t ==>
                         h in tab.running[t] || h in tab.waiting[t];
    r
  }

  function NewRequest(tab: Table, t: RequestType, data: nat): Table {
    tab.(reqs := tab.reqs[tab.next := Request(t, data, [], false, None, [], false, false)],
         waiting := tab.waiting[t := tab.waiting[t] + [tab.next]],
         next := tab.next + 1)
  }

  lemma NewRequestCore(tab: Table, t: RequestType, data: nat)
    requires Core(tab, {})
    ensures Core(NewRequest(tab, t, data), {})
  {
    var h := tab.next;
    var tab' := NewRequest(tab, t, data);
    NewRequestLinks(tab.reqs, h, t, data);
    assert forall u: RequestType :: h !in tab.waiting[u] && h !in tab.running[u];
    assert NoDup(tab.waiting[t]);
    AppendNoDup(tab.waiting[t], h);
    forall u: RequestType ensures NoDup(tab'.waiting[u]) && NoDup(tab'.running[u]) {
      assert NoDup(tab.waiting[u]) && NoDup(tab.running[u]);
    }
    forall u: RequestType, x
      ensures x in tab'.waiting[u] <==> x in tab'.reqs && tab'.reqs[x].rtype == u && !tab'.reqs[x].processing
    {
      assert x in tab.waiting[u] <==> x in tab.reqs && tab.reqs[x].rtype == u && !tab.reqs[x].processing;
    }
  }

  lemma NewRequestLinks(reqs: Heap, h: Handle, t: RequestType, data: nat)
    requires LinksOk(reqs) && h !in reqs
    ensures LinksOk(reqs[h := Request(t, data, [], false, None, [], false, false)])
  {
    var reqs' := reqs[h := Request(t, data, [], false, None, [], false, false)];
    forall x | x in reqs' ensures LockOk(reqs', x) && NoDup(reqs'[x].dependents) {
      if x != h { assert LockOk(reqs, x) && NoDup(reqs[x].dependents); }
    }
    forall y, x | y in reqs'
      ensures x in reqs'[y].dependents <==> x in reqs' && reqs'[x].dependency == Some(y)
    {
      if y != h {
        assert x in reqs[y].dependents <==> x in reqs && reqs[x].dependency == Some(y);
      } else if x in reqs {
        assert LockOk(reqs, x);
      }
    }
  }

  /** h is locked until d finishes. */
  function Depend(reqs: Heap, h: Handle, d: Handle): Heap
    requires h in reqs && d in reqs && h != d
  {
    reqs[h := reqs[h].(locked := true, dependency := Some(d))]
        [d := reqs[d].(dependents := reqs[d].dependents + [h])]
  }

  lemma DependLinks(reqs: Heap, h: Handle, d: Handle)
    requires LinksOk(reqs) && h in reqs && d in reqs
    requires reqs[h].dependency.None? && !reqs[h].processing && reqs[d].rtype < reqs[h].rtype
    ensures LinksOk(Depend(reqs, h, d))
  {
    var reqs' := Depend(reqs, h, d);
    assert h !in reqs[d].dependents && NoDup(reqs[d].dependents);
    AppendNoDup(reqs[d].dependents, h);
    forall x | x in reqs' ensures LockOk(reqs', x) && NoDup(reqs'[x].dependents) {
      assert LockOk(reqs, x) && NoDup(reqs[x].dependents);
    }
    forall y, x | y in reqs'
      ensures x in reqs'[y].dependents <==> x in reqs' && reqs'[x].dependency == Some(y)
    {
      assert x in reqs[y].dependents <==> x in reqs && reqs[x].dependency == Some(y);
    }
  }

  lemma DependCore(tab: Table, h: Handle, d: Handle)
    requires Core(tab, {}) && h in tab.reqs && d in tab.reqs
    requires tab.reqs[h].dependency.None? && !tab.reqs[h].processing && tab.reqs[d].rtype < tab.reqs[h].rtype
    ensures Core(tab.(reqs := Depend(tab.reqs, h, d)), {})
  {
    hide QueuesOk, LinksOk;
    DependLinks(tab.reqs, h, d);
    SameQueues(tab.reqs, Depend(tab.reqs, h, d), tab.waiting, {}, false);
    SameQueues(tab.reqs, Depend(tab.reqs, h, d), tab.running, {}, true);
  }

  /** _request_waiter_add */
  function Attach(tab: Table, h: Handle, w: Waiter): Table
    requires h in tab.reqs
  {
    tab.(reqs := tab.reqs[h := tab.reqs[h].(waiters := tab.reqs[h].waiters + [w])])
  }

  lemma AttachCore(tab: Table, h: Handle, w: Waiter)
    requires Core(tab, {}) && h in tab.reqs
    ensures Core(Attach(tab, h, w), {})
  {
    hide QueuesOk, LinksOk;
    SameShapeCore(tab, Attach(tab, h, w).reqs, tab.sent, {});
  }

  lemma AttachLedger(tab: Table, h: Handle, v: Waiter, w: Waiter)
    requires h in tab.reqs
    ensures Ledger(Attach(tab, h, v), w) == Ledger(tab, w) + if v == w then 1 else 0
  {
    var ws := tab.reqs[h].waiters;
    assert (ws + [v])[..|ws|] == ws;
    AttachedUpdate(tab.reqs, h, tab.reqs[h].(waiters := ws + [v]), w);
  }

  /** What the callers arrange: a live dependency of an earlier type, for a request not yet dispatched. */
  ghost predicate AddOk(tab: Table, t: RequestType, dep: Option<Handle>, data: nat)
    requires Core(tab, {})
  {
    dep.Some? ==>
      && dep.value in tab.reqs && tab.reqs[dep.value].rtype < t
      && var f := Find(tab, t, data);
         f.Some? ==> tab.reqs[f.value].dependency.Some? || !tab.reqs[f.value].processing
  }

  /** cserve2_request_add, up to the waiter: the request for `data`, old or new, and the table. */
  function Obtain(tab: Table, t: RequestType, dep: Option<Handle>, data: nat): (r: (Table, Handle))
    requires Core(tab, {}) && AddOk(tab, t, dep, data)
    ensures Core(r.0, {}) && r.1 in r.0.reqs
    ensures r.0.reqs[r.1].rtype == t && r.0.reqs[r.1].data == data
    ensures dep.Some? ==> r.0.reqs[r.1].locked
    ensures r.0.running == tab.running && r.0.sent == tab.sent
  {
    hide QueuesOk, LinksOk;
    var f := Find(tab, t, data);
    NewRequestCore(tab, t, data);
    var t1 := if f.Some? then tab else NewRequest(tab, t, data);
    var h := if f.Some? then f.value else tab.next;
    LockedIffDependent(t1, h);
    if dep.Some? && t1.reqs[h].dependency.None? then
      DependCore(t1, h, dep.value);
      (t1.(reqs := Depend(t1.reqs, h, dep.value)), h)
    else (t1, h)
  }

  /** One request for one piece of data: a second is made only when no live one has it. */
  lemma ObtainOnce(tab: Table, t: RequestType, dep: Option<Handle>, data: nat)
    requires Core(tab, {}) && AddOk(tab, t, dep, data)
    ensures var (tab', h) := Obtain(tab, t, dep, data);
            var there := exists x :: x in tab.reqs && tab.reqs[x].rtype == t && tab.reqs[x].data == data;
            && (there ==>
                  && h in tab.reqs && tab'.reqs.Keys == tab.reqs.Keys && tab'.waiting == tab.waiting
                  && tab'.reqs[h].waiters == tab.reqs[h].waiters)
            && (!there ==>
                  && h !in tab.reqs && tab'.reqs.Keys == tab.reqs.Keys + {h}
                  && tab'.waiting == tab.waiting[t := tab.waiting[t] + [h]] && tab'.reqs[h].waiters == [])
            && (forall x {:trigger tab'.reqs[x]} :: x in tab.reqs && x != h && Some(x) != dep ==> tab'.reqs[x] == tab.reqs[x])
  {
    hide QueuesOk, LinksOk;
    var f := Find(tab, t, data);
    NewRequestCore(tab, t, data);
    var t1 := if f.Some? then tab else NewRequest(tab, t, data);
    LockedIffDependent(t1, if f.Some? then f.value else tab.next);
    assert f.Some? ==> f.value in tab.reqs;
    assert tab.next !in tab.reqs;
  }

  lemma LockedIffDependent(tab: Table, h: Handle)
    requires Core(tab, {}) && h in tab.reqs
    ensures tab.reqs[h].locked <==> tab.reqs[h].dependency.Some?
    ensures tab.reqs[h].locked ==> !tab.reqs[h].processing
  {
    assert LockOk(tab.reqs, h);
  }

  lemma ObtainLedger(tab: Table, t: RequestType, dep: Option<Handle>, data: nat, w: Waiter)
    requires Core(tab, {}) && AddOk(tab, t, dep, data)
    ensures Ledger(Obtain(tab, t, dep, data).0, w) == Ledger(tab, w)
  {
    hide QueuesOk, LinksOk;
    var f := Find(tab, t, data);
    if f.None? {
      var reqs' := NewRequest(tab, t, data).reqs;
      assert tab.next !in tab.reqs;
      AttachedSplit(reqs', tab.next, w);
      assert reqs' - {tab.next} == tab.reqs;
      NewRequestCore(tab, t, data);
    }
    var t1 := if f.Some? then tab else NewRequest(tab, t, data);
    var h := if f.Some? then f.value else tab.next;
    if dep.Some? && t1.reqs[h].dependency.None? {
      AttachedSame(t1.reqs, Depend(t1.reqs, h, dep.value), w);
    }
  }

  // ----- changing the type ----------------------------------------------------------

  /** The new type keeps h after its dependency and before its dependents. */
  ghost predicate TypeSetOk(tab: Table, h: Handle, t: RequestType)
    requires h in tab.reqs
  {
    var r := tab.reqs[h];
    r.processing || t == r.rtype ||
    ( && (r.dependency.Some? ==> r.dependency.value in tab.reqs && tab.reqs[r.dependency.value].rtype < t)
      && (forall x :: x in tab.reqs && tab.reqs[x].dependency == Some(h) ==> t < tab.reqs[x].rtype))
  }

  /** cserve2_request_type_set: a waiting request moves to the end of another queue. */
  function TypeSet(tab: Table, h: Handle, t: RequestType): (tab': Table)
    requires h in tab.reqs
  {
    var r := tab.reqs[h];
    if r.processing || t == r.rtype then tab
    else
      var w := tab.waiting[r.rtype := Without(tab.waiting[r.rtype], {h})];
      tab.(reqs := tab.reqs[h := r.(rtype := t)], waiting := w[t := w[t] + [h]])
  }

  lemma TypeSetLinks(reqs: Heap, h: Handle, t: RequestType)
    requires LinksOk(reqs) && h in reqs
    requires reqs[h].dependency.Some? ==>
               reqs[h].dependency.value in reqs && reqs[reqs[h].dependency.value].rtype < t
    requires forall x :: x in reqs && reqs[x].dependency == Some(h) ==> t < reqs[x].rtype
    ensures LinksOk(reqs[h := reqs[h].(rtype := t)])
  {
    var reqs' := reqs[h := reqs[h].(rtype := t)];
    forall x | x in reqs' ensures LockOk(reqs', x) && NoDup(reqs'[x].dependents) {
      assert LockOk(reqs, x) && NoDup(reqs[x].dependents);
    }
    forall y, x | y in reqs'
      ensures x in reqs'[y].dependents <==> x in reqs' && reqs'[x].dependency == Some(y)
    {
      assert x in reqs[y].dependents <==> x in reqs && reqs[x].dependency == Some(y);
    }
  }

  lemma TypeSetCore(tab: Table, h: Handle, t: RequestType)
    requires Core(tab, {}) && h in tab.reqs && TypeSetOk(tab, h, t)
    ensures Core(TypeSet(tab, h, t), {})
  {
    var r := tab.reqs[h];
    if !(r.processing || t == r.rtype) {
      assert LockOk(tab.reqs, h);
      TypeSetLinks(tab.reqs, h, t);
      var tab' := TypeSet(tab, h, t);
      TypeSetWaiting(tab.reqs, tab.waiting, h, t);
      forall u: RequestType, x
        ensures x in tab'.running[u] <==> x in tab'.reqs && tab'.reqs[x].rtype == u && tab'.reqs[x].processing
      {
        assert x in tab.running[u] <==> x in tab.reqs && tab.reqs[x].rtype == u && tab.reqs[x].processing;
      }
      assert QueuesOk(tab'.reqs, tab'.running, {}, true);
    }
  }

  lemma TypeSetWaiting(reqs: Heap, q: Queues, h: Handle, t: RequestType)
    requires QueuesOk(reqs, q, {}, false) && h in reqs && !reqs[h].processing && t != reqs[h].rtype
    ensures var w := q[reqs[h].rtype := Without(q[reqs[h].rtype], {h})];
            QueuesOk(reqs[h := reqs[h].(rtype := t)], w[t := w[t] + [h]], {}, false)
  {
    var r := reqs[h];
    var w := q[r.rtype := Without(q[r.rtype], {h})];
    var q' := w[t := w[t] + [h]];
    assert NoDup(q[r.rtype]) && NoDup(q[t]) && h !in q[t];
    WithoutNoDup(q[r.rtype], {h});
    AppendNoDup(q[t], h);
    forall u: RequestType ensures NoDup(q'[u]) {
      assert NoDup(q[u]);
    }
    var reqs' := reqs[h := r.(rtype := t)];
    forall u: RequestType, x
      ensures x in q'[u] <==> x in reqs' && reqs'[x].rtype == u && !reqs'[x].processing
    {
      assert x in q[u] <==> x in reqs && reqs[x].rtype == u && !reqs[x].processing;
    }
  }

  lemma TypeSetLedger(tab: Table, h: Handle, t: RequestType, w: Waiter)
    requires h in tab.reqs
    ensures Ledger(TypeSet(tab, h, t), w) == Ledger(tab, w)
  {
    AttachedSame(tab.reqs, TypeSet(tab, h, t).reqs, w);
  }

  // ----- cancelling for one client --------------------------------------------------

  function Of(ws: seq<Waiter>, client: Client): seq<Waiter> {
    if ws == [] then []
    else Of(ws[..|ws| - 1], client) + if ws[|ws| - 1].client == client then [ws[|ws| - 1]] else []
  }

  function NotOf(ws: seq<Waiter>, client: Client): seq<Waiter> {
    if ws == [] then []
    else NotOf(ws[..|ws| - 1], client) + if ws[|ws| - 1].client == client then [] else [ws[|ws| - 1]]
  }

  lemma {:induction false} OfCount(ws: seq<Waiter>, client: Client, w: Waiter)
    ensures Count(Of(ws, client), w) == if w.client == client then Count(ws, w) else 0
    ensures Count(NotOf(ws, client), w) == if w.client == client then 0 else Count(ws, w)
  {
    if ws != [] {
      var a, b := Of(ws[..|ws| - 1], client), NotOf(ws[..|ws| - 1], client);
      var x := ws[|ws| - 1];
      OfCount(ws[..|ws| - 1], client, w);
      assert (a + [x])[..|a|] == a && (b + [x])[..|b|] == b && a + [] == a && b + [] == b;
    }
  }

  /** The waiters of one client are sent outcome o and taken off the request. */
  function AnswerClient(tab: Table, h: Handle, client: Client, o: Outcome): Table
    requires h in tab.reqs
  {
    var ws := tab.reqs[h].waiters;
    tab.(reqs := tab.reqs[h := tab.reqs[h].(waiters := NotOf(ws, client))],
         sent := tab.sent + Replies(Of(ws, client), o))
  }

  lemma AnswerClientLedger(tab: Table, h: Handle, client: Client, o: Outcome, w: Waiter)
    requires h in tab.reqs
    ensures Ledger(AnswerClient(tab, h, client, o), w) == Ledger(tab, w)
    ensures OnlySent(tab, AnswerClient(tab, h, client, o), o)
  {
    var ws := tab.reqs[h].waiters;
    OfCount(ws, client, w);
    AnsweredReplies(tab.sent, Of(ws, client), o, w);
    AttachedUpdate(tab.reqs, h, tab.reqs[h].(waiters := NotOf(ws, client)), w);
  }

  /** cserve2_request_cancel */
  function CancelFor(tab: Table, h: Handle, client: Client, err: ErrorType): (tab': Table)
    requires Core(tab, {}) && h in tab.reqs
    ensures Core(tab', {})
    ensures tab'.running == tab.running && tab'.next == tab.next
  {
    hide QueuesOk, LinksOk;
    var t1 := AnswerClient(tab, h, client, Failed(err));
    SameShapeCore(tab, t1.reqs, t1.sent, {});
    if t1.reqs[h].waiters != [] then t1
    else if t1.reqs[h].processing then
      var reqs' := t1.reqs[h := t1.reqs[h].(cancelled := true)];
      SameShapeCore(t1, reqs', t1.sent, {});
      t1.(reqs := reqs')
    else
      TakeOff(t1, h);
      NotRunning(t1, h);
      assert Dequeue(t1, h).running == t1.running;
      GiveUp(Dequeue(t1, h), h, err)
  }

  lemma NotRunning(tab: Table, h: Handle)
    requires Core(tab, {}) && h in tab.reqs && !tab.reqs[h].processing
    ensures Without(tab.running[tab.reqs[h].rtype], {h}) == tab.running[tab.reqs[h].rtype]
  {
    assert h !in tab.running[tab.reqs[h].rtype];
    WithoutNone(tab.running[tab.reqs[h].rtype], {h});
  }

  lemma GivenUpLedger(tab: Table, h: Handle, err: ErrorType, w: Waiter)
    requires Core(tab, {}) && h in tab.reqs && tab.reqs[h].waiters == []
    ensures tab.reqs[h].dependency.Some? ==> tab.reqs[h].dependency.value in tab.reqs
    ensures Core(Dequeue(tab, h), {h})
    ensures Ledger(GiveUp(Dequeue(tab, h), h, err), w) == Ledger(tab, w)
    ensures OnlySent(tab, GiveUp(Dequeue(tab, h), h, err), Failed(err))
  {
    hide QueuesOk, LinksOk, Count;
    TakeOff(tab, h);
    AttachedSame(tab.reqs, Unlink(tab.reqs, h), w);
    GiveUpLedger(Dequeue(tab, h), h, err, w);
  }

  /** Only that client's waiters, and those of dependents that are given up, are answered. */
  lemma CancelForLedger(tab: Table, h: Handle, client: Client, err: ErrorType, w: Waiter)
    requires Core(tab, {}) && h in tab.reqs
    ensures Ledger(CancelFor(tab, h, client, err), w) == Ledger(tab, w)
    ensures OnlySent(tab, CancelFor(tab, h, client, err), Failed(err))
  {
    hide QueuesOk, LinksOk, Count, Of, NotOf, Ledger, GiveUp;
    var t1 := AnswerClient(tab, h, client, Failed(err));
    AnswerClientLedger(tab, h, client, Failed(err), w);
    SameShapeCore(tab, t1.reqs, t1.sent, {});
    if t1.reqs[h].waiters != [] {
    } else if t1.reqs[h].processing {
      CancelledLedger(t1, h, w);
    } else {
      GivenUpLedger(t1, h, err, w);
    }
  }

  /** The answers not to this client stay in their order. */
  lemma {:induction false} OfAll(ws: seq<Waiter>, client: Client)
    ensures forall w {:trigger w in Of(ws, client)} :: w in Of(ws, client) <==> w in ws && w.client == client
    ensures forall w {:trigger w in NotOf(ws, client)} :: w in NotOf(ws, client) <==> w in ws && w.client != client
  {
    if ws != [] {
      var n := |ws| - 1;
      OfAll(ws[..n], client);
      assert forall w :: w in ws <==> w in ws[..n] || w == ws[n];
    }
  }

  /**
   Cancelling for one client: while others wait nothing but that client's waiters changes;
   when none is left a request in hand is marked cancelled, and a waiting one goes, with all
   that depends on it.
   */
  lemma CancelForOutcome(tab: Table, h: Handle, client: Client, err: ErrorType)
    requires Core(tab, {}) && h in tab.reqs
    ensures var tab' := CancelFor(tab, h, client, err);
            var r := tab.reqs[h];
            var left := NotOf(r.waiters, client);
            && (left != [] || r.processing ==>
                  tab' == tab.(reqs := tab.reqs[h := r.(waiters := left, cancelled := r.cancelled || left == [])],
                               sent := tab.sent + Replies(Of(r.waiters, client), Failed(err))))
            && (left == [] && !r.processing ==> tab'.reqs.Keys == tab.reqs.Keys - Below(tab.reqs, h))
            && tab.sent + Replies(Of(r.waiters, client), Failed(err)) <= tab'.sent
  {
    hide QueuesOk, LinksOk, Of, NotOf, Replies, Below, Unqueued, GiveUp, Dequeue, SameShape;
    var t1 := AnswerClient(tab, h, client, Failed(err));
    AnswerShape(tab, h, client, Failed(err));
    SameShapeCore(tab, t1.reqs, t1.sent, {});
    if t1.reqs[h].waiters == [] && !t1.reqs[h].processing {
      TakeOff(t1, h);
      var t2 := Dequeue(t1, h);
      CoreLinks(tab, {});
      CoreLinks(t2, {h});
      DequeueShape(tab, t1, h);
      ReachSame(tab, t2, h);
      GiveUpSends(t2, h, err);
    }
  }

  lemma AnswerShape(tab: Table, h: Handle, client: Client, o: Outcome)
    requires h in tab.reqs
    ensures SameShape(tab.reqs, AnswerClient(tab, h, client, o).reqs)
  {
    hide NotOf, Of, Replies;
  }

  lemma DequeueShape(tab: Table, t1: Table, h: Handle)
    requires SameShape(tab.reqs, t1.reqs) && h in t1.reqs
    requires t1.reqs[h].dependency.Some? ==> t1.reqs[h].dependency.value in t1.reqs
    ensures Dequeue(t1, h).sent == t1.sent && Dequeue(t1, h).reqs.Keys == tab.reqs.Keys
    ensures forall y :: y in tab.reqs && y != h ==> Dequeue(t1, h).reqs[y].dependency == tab.reqs[y].dependency
  {}

  lemma CoreLinks(tab: Table, out: set<Handle>)
    requires Core(tab, out)
    ensures LinksOk(tab.reqs)
  {}

  lemma ReachSame(tab: Table, t2: Table, h: Handle)
    requires LinksOk(tab.reqs) && LinksOk(t2.reqs) && t2.reqs.Keys == tab.reqs.Keys && h in tab.reqs
    requires forall y :: y in t2.reqs && y != h ==> t2.reqs[y].dependency == tab.reqs[y].dependency
    ensures Below(t2.reqs, h) == Below(tab.reqs, h)
  {
    forall x | x in t2.reqs ensures Under(t2.reqs, x, h) == Under(tab.reqs, x, h) {
      UnderSame(tab.reqs, t2.reqs, x, h);
    }
  }

  lemma GiveUpSends(tab: Table, h: Handle, err: ErrorType)
    requires Core(tab, {h}) && h in tab.reqs
    ensures tab.sent <= GiveUp(tab, h, err).sent
  {
    hide QueuesOk, LinksOk;
    CancelDependentsLedger(tab, h, err, {h}, Waiter(0, 0));
  }
}
