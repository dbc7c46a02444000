/** The events of the cserve2 scheduler, and what every run of them keeps. */
module Runs {
  import opened Lists
  import opened RequestTable
  import opened RequestOps
  import opened Scheduler

  // ----- slaves coming back ---------------------------------------------------------

  /** Worker w of pool k no longer works, and holds no request. */
  function Unstaff(p: Pools, k: SlaveType, w: Worker): Pools {
    p.(working := p.working[k := Without(p.working[k], {w})], job := p.job - {w})
  }

  /** Exactly the processing request h is gone. */
  ghost predicate OneLess(reqs: Heap, reqs': Heap, h: Handle) {
    && (forall x :: x in reqs' && reqs'[x].processing ==> x in reqs && reqs[x].processing && x != h)
    && (forall x :: x in reqs && reqs[x].processing && x != h ==>
          x in reqs' && reqs'[x].processing && reqs'[x].rtype == reqs[x].rtype)
  }

  lemma UnstaffOk(reqs: Heap, reqs': Heap, p: Pools, w: Worker)
    requires PoolsOk(reqs, p) && w in p.job && Serves(reqs, p, w) && OneLess(reqs, reqs', p.job[w])
    ensures PoolsOk(reqs', Unstaff(p, PoolOf(reqs[p.job[w]].rtype), w))
  {
    var k := PoolOf(reqs[p.job[w]].rtype);
    var p' := Unstaff(p, k, w);
    forall j: SlaveType ensures NoDup(p'.idle[j]) && NoDup(p'.working[j]) {
      assert NoDup(p.idle[j]) && NoDup(p.working[j]);
      WithoutNoDup(p.working[j], {w});
    }
    assert forall j: SlaveType :: |p.idle[j]| + |p.working[j]| <= MaxWorkers(j);
    forall j: SlaveType, v | v in p'.idle[j]
      ensures v !in p'.job && v < p'.next && forall j': SlaveType :: j' != j ==> v !in p'.idle[j']
    {
      assert v in p.idle[j];
    }
    assert PoolLists(p');
    UnstaffJobs(reqs, reqs', p, w);
  }

  lemma UnstaffJobs(reqs: Heap, reqs': Heap, p: Pools, w: Worker)
    requires PoolJobs(reqs, p) && w in p.job && Serves(reqs, p, w) && OneLess(reqs, reqs', p.job[w])
    ensures PoolJobs(reqs', Unstaff(p, PoolOf(reqs[p.job[w]].rtype), w))
  {
    var k := PoolOf(reqs[p.job[w]].rtype);
    var p' := Unstaff(p, k, w);
    forall v | v in p'.job ensures Serves(reqs', p', v) {
      assert Serves(reqs, p, v);
      assert p.job[v] != p.job[w];
    }
    forall j: SlaveType, v | v in p'.working[j]
      ensures v in p'.job && p'.job[v] in reqs' && PoolOf(reqs'[p'.job[v]].rtype) == j
    {
      assert v in p.working[j] && Serves(reqs, p, v);
      assert v != w && p.job[v] != p.job[w];
    }
    forall x | x in reqs' && reqs'[x].processing ensures Served(p', x) {
      assert Served(p, x);
      var v :| v in p.job && p.job[v] == x;
      assert v in p'.job && p'.job[v] == x;
    }
  }

  /** Worker w, which holds no request, is put at the end of the idle list of pool k. */
  function Rest(p: Pools, k: SlaveType, w: Worker): Pools {
    p.(idle := p.idle[k := p.idle[k] + [w]])
  }

  lemma RestOk(reqs: Heap, p: Pools, k: SlaveType, w: Worker)
    requires PoolsOk(reqs, p) && w !in p.job && w < p.next
    requires (forall j: SlaveType :: w !in p.idle[j]) && |p.idle[k]| + |p.working[k]| < MaxWorkers(k)
    ensures PoolsOk(reqs, Rest(p, k, w))
  {
    var p' := Rest(p, k, w);
    assert NoDup(p.idle[k]);
    AppendNoDup(p.idle[k], w);
    forall j: SlaveType ensures NoDup(p'.idle[j]) && NoDup(p'.working[j]) && |p'.idle[j]| + |p'.working[j]| <= MaxWorkers(j) {
      assert NoDup(p.idle[j]) && NoDup(p.working[j]) && |p.idle[j]| + |p.working[j]| <= MaxWorkers(j);
    }
    forall j: SlaveType, v | v in p'.idle[j]
      ensures v !in p'.job && v < p'.next && forall j': SlaveType :: j' != j ==> v !in p'.idle[j']
    {
      if v != w { assert v in p.idle[j]; }
    }
    assert PoolLists(p');
    forall v | v in p'.job ensures Serves(reqs, p', v) {
      assert Serves(reqs, p, v);
    }
    forall j: SlaveType, v | v in p'.working[j]
      ensures v in p'.job && p'.job[v] in reqs && PoolOf(reqs[p'.job[v]].rtype) == j
    {
      assert v in p.working[j];
    }
    forall x | x in reqs && reqs[x].processing ensures Served(p', x) {
      assert Served(p, x);
    }
    assert PoolJobs(reqs, p');
  }

  /** Both ways for a slave to be done with a request leave this pool behind. */
  lemma WorkerDone(s: State, w: Worker)
    requires Inv(s) && w in s.pools.job
    ensures var h := s.pools.job[w];
            && Serves(s.tab.reqs, s.pools, w)
            && h in s.tab.reqs && s.tab.reqs[h].processing && !s.tab.reqs[h].locked
            && s.tab.reqs[h].dependency.None?
            && w < s.pools.next && (forall j: SlaveType :: w !in s.pools.idle[j])
            && var k := PoolOf(s.tab.reqs[h].rtype);
               && w in s.pools.working[k] && NoDup(s.pools.working[k])
               && |s.pools.idle[k]| + |s.pools.working[k]| <= MaxWorkers(k)
  {
    assert Serves(s.tab.reqs, s.pools, w);
    assert LockOk(s.tab.reqs, s.pools.job[w]);
    var k := PoolOf(s.tab.reqs[s.pools.job[w]].rtype);
    assert NoDup(s.pools.working[k]) && |s.pools.idle[k]| + |s.pools.working[k]| <= MaxWorkers(k);
  }

  lemma {:induction false} WithoutShrinks<T(!new)>(q: seq<T>, x: T)
    requires x in q
    ensures |Without(q, {x})| < |q|
  {
    if q[0] != x {
      WithoutShrinks(q[1..], x);
    }
  }

  /** _slave_read_cb: request and worker part, before the next scheduling pass. */
  function Returned(s: State, w: Worker, o: Outcome): (s': State)
    requires Inv(s) && w in s.pools.job
    ensures Inv(s')
  {
    hide QueuesOk, LinksOk, PoolsOk, Serves;
    WorkerDone(s, w);
    var h := s.pools.job[w];
    var k := PoolOf(s.tab.reqs[h].rtype);
    var tab' := Finish(s.tab, h, o);
    FinishedOneLess(s.tab, tab', h);
    UnstaffOk(s.tab.reqs, tab'.reqs, s.pools, w);
    WithoutShrinks(s.pools.working[k], w);
    RestOk(tab'.reqs, Unstaff(s.pools, k, w), k, w);
    State(tab', Rest(Unstaff(s.pools, k, w), k, w))
  }

  lemma FinishedOneLess(tab: Table, tab': Table, h: Handle)
    requires Core(tab, {}) && h in tab.reqs
    requires tab'.reqs.Keys == tab.reqs.Keys - {h} && Unlocked(tab.reqs, tab'.reqs, h)
    ensures OneLess(tab.reqs, tab'.reqs, h)
  {}

  /** _slave_dead_cb, for a slave that was working. */
  function Died(s: State, w: Worker): (s': State)
    requires Inv(s) && w in s.pools.job
    ensures Inv(s')
  {
    hide QueuesOk, LinksOk, PoolsOk, Serves;
    WorkerDone(s, w);
    var h := s.pools.job[w];
    var tab' := Fail(s.tab, h, LOADER_DIED);
    FailedOneLess(s.tab, tab', h);
    UnstaffOk(s.tab.reqs, tab'.reqs, s.pools, w);
    State(tab', Unstaff(s.pools, PoolOf(s.tab.reqs[h].rtype), w))
  }

  lemma FailedOneLess(tab: Table, tab': Table, h: Handle)
    requires Core(tab, {}) && h in tab.reqs
    requires tab'.reqs.Keys == tab.reqs.Keys - Below(tab.reqs, h)
    requires forall x {:trigger tab'.reqs[x]} :: x in tab'.reqs ==> tab'.reqs[x] == tab.reqs[x]
    ensures OneLess(tab.reqs, tab'.reqs, h)
  {
    assert h in Below(tab.reqs, h);
    forall x | x in tab.reqs && tab.reqs[x].processing && x != h ensures x in tab'.reqs {
      if x in Below(tab.reqs, h) { BelowIsLater(tab, h, x); }
    }
  }

  /** A slave that answers has no request any more and is idle again; its request is gone. */
  lemma ReturnedOutcome(s: State, w: Worker, o: Outcome)
    requires Inv(s) && w in s.pools.job
    ensures var h := s.pools.job[w];
            h in s.tab.reqs
            && var k := PoolOf(s.tab.reqs[h].rtype);
               var s' := Returned(s, w, o);
               && s'.tab.reqs.Keys == s.tab.reqs.Keys - {h}
               && s'.pools.job == s.pools.job - {w}
               && w in s'.pools.idle[k] && (forall j: SlaveType :: w !in s'.pools.working[j])
               && (forall j: SlaveType :: j != k ==> s'.pools.idle[j] == s.pools.idle[j])
  {
    hide QueuesOk, LinksOk, Serves;
    WorkerDone(s, w);
    OnlyWorks(s, w);
  }

  /** A slave that dies is in no list any more, and its request goes with all that depends on it. */
  lemma DiedOutcome(s: State, w: Worker)
    requires Inv(s) && w in s.pools.job
    ensures var h := s.pools.job[w];
            h in s.tab.reqs
            && var s' := Died(s, w);
               && s'.tab.reqs.Keys == s.tab.reqs.Keys - Below(s.tab.reqs, h) && h !in s'.tab.reqs
               && s'.pools.job == s.pools.job - {w}
               && (forall j: SlaveType :: w !in s'.pools.working[j] && w !in s'.pools.idle[j])
               && s'.pools.idle == s.pools.idle
  {
    hide QueuesOk, LinksOk, Serves;
    WorkerDone(s, w);
    OnlyWorks(s, w);
    assert s.pools.job[w] in Below(s.tab.reqs, s.pools.job[w]);
  }

  /** _slave_dead_cb, for any slave of pool k: its record is freed once it has left the working list. */
  function DiedAnyhow(s: State, k: SlaveType, w: Worker): State
    requires Inv(s)
  {
    if w in s.pools.job then Died(s, w)
    else s.(pools := s.pools.(working := s.pools.working[k := Without(s.pools.working[k], {w})]))
  }

  /** The freed record is in no list any more if and only if the slave was busy: an idle one stays listed. */
  lemma FreedIsUnlistedIff(s: State, k: SlaveType, w: Worker)
    requires Inv(s) && (w in s.pools.job || w in s.pools.idle[k])
    ensures var p := DiedAnyhow(s, k, w).pools;
            (forall j: SlaveType {:trigger p.idle[j]} {:trigger p.working[j]} :: w !in p.idle[j] && w !in p.working[j])
            <==> w in s.pools.job
  {
    hide QueuesOk, LinksOk;
    if w in s.pools.job {
      DiedOutcome(s, w);
    } else {
      assert w in DiedAnyhow(s, k, w).pools.idle[k];
    }
  }

  /** A busy slave is in the working list of its request's pool only. */
  lemma OnlyWorks(s: State, w: Worker)
    requires Inv(s) && w in s.pools.job && s.pools.job[w] in s.tab.reqs
    ensures forall j: SlaveType {:trigger s.pools.working[j]} ::
              j != PoolOf(s.tab.reqs[s.pools.job[w]].rtype) ==> w !in s.pools.working[j]
  {
    hide Core;
    forall j: SlaveType | w in s.pools.working[j] ensures PoolOf(s.tab.reqs[s.pools.job[w]].rtype) == j {}
  }

  // ----- events ---------------------------------------------------------------------

  datatype Event =
    | Add(rtype: RequestType, rid: nat, client: Option<Client>, dep: Option<Handle>, data: nat, env: Env)
    | AddWaiter(h: Handle, rid: nat, waiting: Client)
    | SetType(h: Handle, rtype: RequestType)
    | Cancel(h: Handle, whose: Client, err: ErrorType)
    | CancelEvery(h: Handle, err: ErrorType)
    | Answer(w: Worker, outcome: Outcome, env: Env)
    | Death(w: Worker)

  /** What the rest of the server arranges for each call: live handles, and dependencies of earlier types. */
  ghost predicate Enabled(s: State, e: Event)
    requires Inv(s)
  {
    match e
    case Add(t, rid, client, dep, data, env) => AddOk(s.tab, t, dep, data)
    case AddWaiter(h, rid, client) => h in s.tab.reqs
    case SetType(h, t) => h in s.tab.reqs && TypeSetOk(s.tab, h, t)
    case Cancel(h, client, err) => h in s.tab.reqs
    case CancelEvery(h, err) => h in s.tab.reqs
    case Answer(w, o, env) => w in s.pools.job
    case Death(w) => w in s.pools.job
  }

  /** The table a new request is put in, with its waiter if a client asked for it. */
  function Added(tab: Table, e: Event): (tab': Table)
    requires Core(tab, {}) && e.Add? && AddOk(tab, e.rtype, e.dep, e.data)
    ensures Core(tab', {}) && tab'.running == tab.running
  {
    var (t1, h) := Obtain(tab, e.rtype, e.dep, e.data);
    if e.client.Some? && e.rid != 0 then
      AttachCore(t1, h, Waiter(e.client.value, e.rid));
      Attach(t1, h, Waiter(e.client.value, e.rid))
    else t1
  }

  function Step(s: State, e: Event): (s': State)
    requires Inv(s) && Enabled(s, e)
    ensures Inv(s')
  {
    hide QueuesOk, LinksOk, PoolsOk;
    match e
    case Add(t, rid, client, dep, data, env) =>
      var tab' := Added(s.tab, e);
      SameRunningQueues(s.tab, tab', s.pools);
      Process(State(tab', s.pools), env)
    case AddWaiter(h, rid, client) =>
      AttachCore(s.tab, h, Waiter(client, rid));
      var tab' := Attach(s.tab, h, Waiter(client, rid));
      SameRunningQueues(s.tab, tab', s.pools);
      State(tab', s.pools)
    case SetType(h, t) =>
      TypeSetCore(s.tab, h, t);
      var tab' := TypeSet(s.tab, h, t);
      SameRunningQueues(s.tab, tab', s.pools);
      State(tab', s.pools)
    case Cancel(h, client, err) =>
      var tab' := CancelFor(s.tab, h, client, err);
      SameRunningQueues(s.tab, tab', s.pools);
      State(tab', s.pools)
    case CancelEvery(h, err) =>
      var tab' := CancelAll(s.tab, h, err, {});
      SameRunningQueues(s.tab, tab', s.pools);
      State(tab', s.pools)
    case Answer(w, o, env) => Process(Returned(s, w, o), env)
    case Death(w) => Died(s, w)
  }

  // ----- one reply for each waiter --------------------------------------------------

  /** How many times the event attaches waiter w to a request. */
  function Attaches(e: Event, w: Waiter): nat {
    match e
    case Add(t, rid, client, dep, data, env) =>
      if client.Some? && rid != 0 && w == Waiter(client.value, rid) then 1 else 0
    case AddWaiter(h, rid, client) => if w == Waiter(client, rid) then 1 else 0
    case _ => 0
  }

  /** How many times waiter w is on a cancelled request that the event ends. */
  function Loses(s: State, e: Event, w: Waiter): nat
    requires Inv(s) && Enabled(s, e)
  {
    if !e.Answer? then 0
    else
      WorkerDone(s, e.w);
      var r := s.tab.reqs[s.pools.job[e.w]];
      if r.cancelled then Count(r.waiters, w) else 0
  }

  lemma AddedLedger(tab: Table, e: Event, w: Waiter)
    requires Core(tab, {}) && e.Add? && AddOk(tab, e.rtype, e.dep, e.data)
    ensures Ledger(Added(tab, e), w) == Ledger(tab, w) + Attaches(e, w)
    ensures Added(tab, e).sent == tab.sent
  {
    hide QueuesOk, LinksOk, Ledger;
    ObtainLedger(tab, e.rtype, e.dep, e.data, w);
    var (t1, h) := Obtain(tab, e.rtype, e.dep, e.data);
    if e.client.Some? && e.rid != 0 {
      AttachLedger(t1, h, Waiter(e.client.value, e.rid), w);
    }
  }

  /** No waiter is dropped or answered twice, but for those on a cancelled request that ends. */
  lemma StepLedger(s: State, e: Event, w: Waiter)
    requires Inv(s) && Enabled(s, e)
    ensures Ledger(Step(s, e).tab, w) + Loses(s, e, w) == Ledger(s.tab, w) + Attaches(e, w)
    ensures s.tab.sent <= Step(s, e).tab.sent
  {
    hide QueuesOk, LinksOk, PoolsOk, Ledger, Process, Finish, Fail;
    match e
    case Add(t, rid, client, dep, data, env) =>
      var tab' := Added(s.tab, e);
      AddedLedger(s.tab, e, w);
      SameRunningQueues(s.tab, tab', s.pools);
      ProcessLedger(State(tab', s.pools), env, w);
    case AddWaiter(h, rid, client) =>
      AttachLedger(s.tab, h, Waiter(client, rid), w);
    case SetType(h, t) =>
      TypeSetLedger(s.tab, h, t, w);
    case Cancel(h, client, err) =>
      CancelForLedger(s.tab, h, client, err, w);
    case CancelEvery(h, err) =>
      CancelAllLedger(s.tab, h, err, {}, w);
    case Answer(v, o, env) =>
      WorkerDone(s, v);
      FinishLedger(s.tab, s.pools.job[v], o, w);
      ProcessLedger(Returned(s, v, o), env, w);
    case Death(v) =>
      WorkerDone(s, v);
      FailLedger(s.tab, s.pools.job[v], LOADER_DIED, w);
  }

  lemma ProcessLedger(s: State, env: Env, w: Waiter)
    requires Inv(s)
    ensures Ledger(Process(s, env).tab, w) == Ledger(s.tab, w)
    ensures s.tab.sent <= Process(s, env).tab.sent
  {
    hide Inv, Ledger;
    ProcessFromLedger(s, env, 0, w);
  }

  // ----- runs -----------------------------------------------------------------------

  ghost predicate Legal(s: State, es: seq<Event>)
    requires Inv(s)
    decreases |es|
  {
    es == [] || (Enabled(s, es[0]) && Legal(Step(s, es[0]), es[1..]))
  }

  /** The state after a run; that every run keeps the invariant is its contract. */
  ghost function Final(s: State, es: seq<Event>): (s': State)
    requires Inv(s) && Legal(s, es)
    ensures Inv(s')
    decreases |es|
  {
    if es == [] then s else Final(Step(s, es[0]), es[1..])
  }

  ghost function AttachedBy(es: seq<Event>, w: Waiter): nat {
    if es == [] then 0 else Attaches(es[0], w) + AttachedBy(es[1..], w)
  }

  ghost function LostBy(s: State, es: seq<Event>, w: Waiter): nat
    requires Inv(s) && Legal(s, es)
    decreases |es|
  {
    if es == [] then 0 else Loses(s, es[0], w) + LostBy(Step(s, es[0]), es[1..], w)
  }

  lemma {:induction false} RunLedger(s: State, es: seq<Event>, w: Waiter)
    requires Inv(s) && Legal(s, es)
    ensures Ledger(Final(s, es).tab, w) + LostBy(s, es, w) == Ledger(s.tab, w) + AttachedBy(es, w)
    ensures s.tab.sent <= Final(s, es).tab.sent
    decreases |es|
  {
    hide Inv, Ledger, Enabled, Step, Loses, Attaches;
    if es != [] {
      StepLedger(s, es[0], w);
      RunLedger(Step(s, es[0]), es[1..], w);
    }
  }

  lemma StartInv()
    ensures Inv(START)
  {
    assert Core(START.tab, {});
    assert PoolLists(START.pools);
  }

  /** The event attaches no waiter to a request that has been cancelled. */
  ghost predicate Heeds(s: State, e: Event)
    requires Inv(s) && Enabled(s, e)
  {
    match e
    case Add(t, rid, client, dep, data, env) =>
      client.Some? && rid != 0 ==>
        var f := Find(s.tab, t, data); f.Some? ==> !s.tab.reqs[f.value].cancelled
    case AddWaiter(h, rid, client) => !s.tab.reqs[h].cancelled
    case _ => true
  }

  ghost predicate AllHeed(s: State, es: seq<Event>)
    requires Inv(s) && Legal(s, es)
    decreases |es|
  {
    es == [] || (Heeds(s, es[0]) && AllHeed(Step(s, es[0]), es[1..]))
  }

  /** A cancelled request has nobody waiting for it. */
  ghost predicate Sound(reqs: Heap) {
    forall h {:trigger reqs[h].cancelled} :: h in reqs && reqs[h].cancelled ==> reqs[h].waiters == []
  }

  /** The second heap has no requests the first has not, with the same waiters and marks. */
  ghost predicate SameWaiters(reqs: Heap, reqs': Heap) {
    forall x {:trigger reqs'[x]} :: x in reqs' ==>
      x in reqs && reqs'[x].waiters == reqs[x].waiters && reqs'[x].cancelled == reqs[x].cancelled
  }

  lemma SameWaitersSound(reqs: Heap, reqs': Heap)
    requires Sound(reqs) && SameWaiters(reqs, reqs')
    ensures Sound(reqs')
  {
    forall h | h in reqs' && reqs'[h].cancelled ensures reqs'[h].waiters == [] {
      assert reqs[h].cancelled;
    }
  }

  lemma {:induction false} SweepWaiters(s: State, t: RequestType, env: Env, i: nat)
    requires Inv(s) && i <= |s.tab.waiting[t]|
    ensures SameWaiters(s.tab.reqs, Sweep(s, t, env, i).tab.reqs)
    decreases |s.tab.waiting[t]| - i
  {
    hide LinksOk, PoolsOk, QueuesOk;
    if i == |s.tab.waiting[t]| || Limit(t) <= |s.pools.working[PoolOf(t)]| {
    } else {
      var h := s.tab.waiting[t][i];
      WaitingAt(s.tab, t, i);
      if s.tab.reqs[h].locked {
        SweepWaiters(s, t, env, i + 1);
      } else {
        DispatchCuts(s, t, i, env);
        DispatchWaiters(s, h, env);
        SweepWaiters(Dispatch(s, h, env), t, env, i);
      }
    }
  }

  lemma DispatchWaiters(s: State, h: Handle, env: Env)
    requires Inv(s) && Ready(s, h)
    ensures SameWaiters(s.tab.reqs, Dispatch(s, h, env).tab.reqs)
  {
    hide LinksOk, PoolsOk, QueuesOk, Unqueued;
    LockedIffDependent(s.tab, h);
  }

  lemma {:induction false} ProcessFromWaiters(s: State, env: Env, t: nat)
    requires Inv(s) && t <= REQ_LAST
    ensures SameWaiters(s.tab.reqs, ProcessFrom(s, env, t).tab.reqs)
    decreases REQ_LAST - t
  {
    hide Inv;
    if t < REQ_LAST {
      SweepWaiters(s, t, env, 0);
      ProcessFromWaiters(Sweep(s, t, env, 0), env, t + 1);
    }
  }

  lemma AddedSound(tab: Table, e: Event)
    requires Core(tab, {}) && e.Add? && AddOk(tab, e.rtype, e.dep, e.data) && Sound(tab.reqs)
    requires e.client.Some? && e.rid != 0 ==>
               var f := Find(tab, e.rtype, e.data); f.Some? ==> !tab.reqs[f.value].cancelled
    ensures Sound(Added(tab, e).reqs)
  {
    hide QueuesOk, LinksOk;
    var f := Find(tab, e.rtype, e.data);
    var (t1, h) := Obtain(tab, e.rtype, e.dep, e.data);
    var t' := Added(tab, e);
    forall x | x in t'.reqs && t'.reqs[x].cancelled ensures t'.reqs[x].waiters == [] {
      if x in tab.reqs { assert tab.reqs[x].cancelled ==> tab.reqs[x].waiters == []; }
    }
  }

  lemma CancelSound(tab: Table, h: Handle, client: Client, err: ErrorType)
    requires Core(tab, {}) && h in tab.reqs && Sound(tab.reqs)
    ensures Sound(CancelFor(tab, h, client, err).reqs)
  {
    hide QueuesOk, LinksOk, Unqueued;
    var t1 := AnswerClient(tab, h, client, Failed(err));
    SameShapeCore(tab, t1.reqs, t1.sent, {});
    forall x | x in t1.reqs && t1.reqs[x].cancelled ensures t1.reqs[x].waiters == [] {
      assert tab.reqs[x].cancelled;
    }
    if t1.reqs[h].waiters == [] && !t1.reqs[h].processing {
      TakeOff(t1, h);
      SameWaitersSound(t1.reqs, GiveUp(Dequeue(t1, h), h, err).reqs);
    }
  }

  lemma CancelAllSound(reqs: Heap, reqs': Heap, h: Handle)
    requires LinksOk(reqs) && h in reqs && AllCancelled(reqs, reqs', h) && Sound(reqs)
    ensures Sound(reqs')
  {
    forall x | x in reqs' && reqs'[x].cancelled ensures reqs'[x].waiters == [] {
      assert x in reqs;
      if !reqs[h].processing { assert h in Below(reqs, h); }
      assert x == h || reqs'[x].cancelled == reqs[x].cancelled;
    }
  }

  lemma StepSound(s: State, e: Event)
    requires Inv(s) && Enabled(s, e) && Heeds(s, e) && Sound(s.tab.reqs)
    ensures Sound(Step(s, e).tab.reqs)
  {
    hide QueuesOk, LinksOk, PoolsOk, Process, Unqueued, Below, AllCancelled, Sound;
    match e
    case Add(t, rid, client, dep, data, env) =>
      var tab' := Added(s.tab, e);
      AddedSound(s.tab, e);
      SameRunningQueues(s.tab, tab', s.pools);
      ProcessSound(State(tab', s.pools), env);
    case AddWaiter(h, rid, client) =>
      AttachSound(s.tab, h, Waiter(client, rid));
    case SetType(h, t) =>
      SameWaitersSound(s.tab.reqs, TypeSet(s.tab, h, t).reqs);
    case Cancel(h, client, err) =>
      CancelSound(s.tab, h, client, err);
    case CancelEvery(h, err) =>
      CancelAllSound(s.tab.reqs, CancelAll(s.tab, h, err, {}).reqs, h);
    case Answer(v, o, env) =>
      WorkerDone(s, v);
      SameWaitersSound(s.tab.reqs, Finish(s.tab, s.pools.job[v], o).reqs) by {
        FinishWaiters(s.tab.reqs, Finish(s.tab, s.pools.job[v], o).reqs, s.pools.job[v]);
      }
      ProcessSound(Returned(s, v, o), env);
    case Death(v) =>
      WorkerDone(s, v);
      SameWaitersSound(s.tab.reqs, Fail(s.tab, s.pools.job[v], LOADER_DIED).reqs);
  }

  lemma FinishWaiters(reqs: Heap, reqs': Heap, h: Handle)
    requires h in reqs && reqs'.Keys == reqs.Keys - {h} && Unlocked(reqs, reqs', h)
    ensures SameWaiters(reqs, reqs')
  {}

  lemma AttachSound(tab: Table, h: Handle, w: Waiter)
    requires h in tab.reqs && !tab.reqs[h].cancelled && Sound(tab.reqs)
    ensures Sound(Attach(tab, h, w).reqs)
  {
    forall x | x in Attach(tab, h, w).reqs && Attach(tab, h, w).reqs[x].cancelled
      ensures Attach(tab, h, w).reqs[x].waiters == []
    {
      assert tab.reqs[x].cancelled;
    }
  }

  lemma ProcessSound(s: State, env: Env)
    requires Inv(s) && Sound(s.tab.reqs)
    ensures Sound(Process(s, env).tab.reqs)
  {
    hide Inv, Sound;
    ProcessFromWaiters(s, env, 0);
    SameWaitersSound(s.tab.reqs, ProcessFrom(s, env, 0).tab.reqs);
  }

  /** A run that attaches waiters to requests that are not cancelled loses none. */
  lemma {:induction false} RunLosesNone(s: State, es: seq<Event>, w: Waiter)
    requires Inv(s) && Legal(s, es) && AllHeed(s, es) && Sound(s.tab.reqs)
    ensures LostBy(s, es, w) == 0 && Sound(Final(s, es).tab.reqs)
    decreases |es|
  {
    hide Inv, Enabled, Step, Heeds;
    if es != [] {
      StepSound(s, es[0]);
      LosesNone(s, es[0], w);
      RunLosesNone(Step(s, es[0]), es[1..], w);
    }
  }

  lemma LosesNone(s: State, e: Event, w: Waiter)
    requires Inv(s) && Enabled(s, e) && Sound(s.tab.reqs)
    ensures Loses(s, e, w) == 0
  {
    if e.Answer? {
      WorkerDone(s, e.w);
      assert s.tab.reqs[s.pools.job[e.w]].cancelled ==> s.tab.reqs[s.pools.job[e.w]].waiters == [];
    }
  }

  /**
   Over every run of the server that heeds cancelled requests: each time a waiter was
   attached it has since been answered exactly once or is still attached to a live request;
   and when no request is left, it has been answered.
   */
  lemma ExactlyOneReply(es: seq<Event>, w: Waiter)
    requires Inv(START) && Legal(START, es) && AllHeed(START, es)
    ensures var tab := Final(START, es).tab;
            && Answered(tab.sent, w) + Attached(tab.reqs, w) == AttachedBy(es, w)
            && (tab.reqs == map[] ==> Answered(tab.sent, w) == AttachedBy(es, w))
  {
    RunLedger(START, es, w);
    RunLosesNone(START, es, w);
  }

  /**
   The end of a request leaves waiters without a reply exactly when the request has been
   cancelled and a waiter was attached to it nevertheless.
   */
  lemma AnswerLosesIff(s: State, e: Event)
    requires Inv(s) && Enabled(s, e) && e.Answer?
    ensures var h := s.pools.job[e.w];
            && h in s.tab.reqs
            && ((forall w :: Loses(s, e, w) == 0) <==> !s.tab.reqs[h].cancelled || s.tab.reqs[h].waiters == [])
  {
    WorkerDone(s, e.w);
    var r := s.tab.reqs[s.pools.job[e.w]];
    if r.waiters != [] {
      assert Count(r.waiters, r.waiters[|r.waiters| - 1]) >= 1;
      assert r.cancelled ==> Loses(s, e, r.waiters[|r.waiters| - 1]) >= 1;
    }
  }

  /** The slave's answer ends a cancelled request that somebody waits for. */
  ghost predicate EndsCancelled(s: State, e: Event)
    requires Inv(s) && Enabled(s, e)
  {
    e.Answer? && s.pools.job[e.w] in s.tab.reqs
    && s.tab.reqs[s.pools.job[e.w]].cancelled && s.tab.reqs[s.pools.job[e.w]].waiters != []
  }

  ghost predicate SomeEndCancelled(s: State, es: seq<Event>)
    requires Inv(s) && Legal(s, es)
    decreases |es|
  {
    es != [] && (EndsCancelled(s, es[0]) || SomeEndCancelled(Step(s, es[0]), es[1..]))
  }

  lemma StepLosesIff(s: State, e: Event) returns (w: Waiter)
    requires Inv(s) && Enabled(s, e)
    ensures EndsCancelled(s, e) ==> Loses(s, e, w) > 0
    ensures !EndsCancelled(s, e) ==> forall v :: Loses(s, e, v) == 0
  {
    w := Waiter(0, 0);
    if EndsCancelled(s, e) {
      AnswerLosesIff(s, e);
      w :| Loses(s, e, w) != 0;
    } else if e.Answer? {
      WorkerDone(s, e.w);
      AnswerLosesIff(s, e);
    }
  }

  /** A run leaves somebody without a reply if and only if an answer in it ends such a request. */
  lemma {:induction false} RunLosesIff(s: State, es: seq<Event>) returns (w: Waiter)
    requires Inv(s) && Legal(s, es)
    ensures SomeEndCancelled(s, es) ==> LostBy(s, es, w) > 0
    ensures !SomeEndCancelled(s, es) ==> forall v :: LostBy(s, es, v) == 0
    decreases |es|
  {
    hide Inv, Enabled, Step, Loses, EndsCancelled;
    w := Waiter(0, 0);
    if es != [] {
      var first := StepLosesIff(s, es[0]);
      var later := RunLosesIff(Step(s, es[0]), es[1..]);
      w := if EndsCancelled(s, es[0]) then first else later;
    }
  }

  /**
   The exact condition over every run of the server: every waiter's replies and live
   attachments add up to the times it was attached, if and only if no answer of a slave in the
   run ends a cancelled request that somebody waits for.
   */
  lemma RepliesAddUpIff(es: seq<Event>)
    requires Inv(START) && Legal(START, es)
    ensures var tab := Final(START, es).tab;
            (forall w :: Answered(tab.sent, w) + Attached(tab.reqs, w) == AttachedBy(es, w))
            <==> !SomeEndCancelled(START, es)
  {
    hide Inv, Legal, Final;
    var tab := Final(START, es).tab;
    forall w ensures Answered(tab.sent, w) + Attached(tab.reqs, w) + LostBy(START, es, w) == AttachedBy(es, w) {
      RunLedger(START, es, w);
    }
    var w := RunLosesIff(START, es);
    assert SomeEndCancelled(START, es) ==> Answered(tab.sent, w) + Attached(tab.reqs, w) < AttachedBy(es, w);
  }

  /**
   Wherever a slave is busy with a request only client c waits for: if c gives up, and
   another client is then attached to the cancelled request, that client never hears.
   */
  lemma LateWaiterIsLost(s: State, w: Worker, c: Client, late: Waiter, err: ErrorType, o: Outcome, env: Env)
    requires Inv(s) && w in s.pools.job
    requires var h := s.pools.job[w]; h in s.tab.reqs && NotOf(s.tab.reqs[h].waiters, c) == []
    ensures var h := s.pools.job[w];
            var es := [Cancel(h, c, err), AddWaiter(h, late.rid, late.client), Answer(w, o, env)];
            && Legal(s, es)
            && LostBy(s, es, late) == 1
            && !AllHeed(s, es)
  {
    hide QueuesOk, LinksOk, PoolsOk, Process, NotOf, Of;
    var h := s.pools.job[w];
    WorkerDone(s, w);
    var e1, e2, e3 := Cancel(h, c, err), AddWaiter(h, late.rid, late.client), Answer(w, o, env);
    var es := [e1, e2, e3];
    var s1 := Step(s, e1);
    assert s1.pools == s.pools && h in s1.tab.reqs && s1.tab.reqs[h].cancelled && s1.tab.reqs[h].waiters == [];
    var s2 := Step(s1, e2);
    assert [] + [late] == [late];
    assert s2.pools == s.pools && s2.tab.reqs[h].cancelled && s2.tab.reqs[h].waiters == [late];
    assert Count([late], late) == 1;
    assert es[1..] == [e2, e3] && [e2, e3][1..] == [e3] && [e3][1..] == [];
    RunOfThree(s, s1, s2, es, late);
  }

  lemma RunOfThree(s: State, s1: State, s2: State, es: seq<Event>, w: Waiter)
    requires Inv(s) && Inv(s1) && Inv(s2) && |es| == 3
    requires Enabled(s, es[0]) && Step(s, es[0]) == s1
    requires Enabled(s1, es[1]) && Step(s1, es[1]) == s2
    requires Enabled(s2, es[2])
    ensures Legal(s, es)
    ensures LostBy(s, es, w) == Loses(s, es[0], w) + Loses(s1, es[1], w) + Loses(s2, es[2], w)
    ensures AllHeed(s, es) ==> Heeds(s1, es[1])
  {
    hide Inv, Enabled, Step, Loses, Heeds;
    var s3 := Step(s2, es[2]);
    assert es[1..][0] == es[1] && es[1..][1..] == es[2..] && es[2..][0] == es[2] && es[2..][1..] == [];
    assert Legal(s3, []);
    assert Legal(s2, es[2..]);
    assert Legal(s1, es[1..]);
    assert LostBy(s3, [], w) == 0;
    assert LostBy(s2, es[2..], w) == Loses(s2, es[2], w);
    assert LostBy(s1, es[1..], w) == Loses(s1, es[1], w) + LostBy(s2, es[2..], w);
    assert AllHeed(s, es) ==> AllHeed(s1, es[1..]);
  }
}
