/**
 The cserve2 scheduler: the request table together with the bounded pools of slaves,
 the scheduling pass, and the runs of the whole.
 */
module Scheduler {
  import opened Lists
  import opened RequestTable
  import opened RequestOps

  type SlaveType = k: nat | k < SLAVE_NONE
  const SLAVE_IMAGE := 0
  const SLAVE_FONT := 1
  const SLAVE_NONE := 2

  type Worker = nat

  /** One list of workers for each slave type. */
  type Pool = q: seq<seq<Worker>> | |q| == SLAVE_NONE witness [[], []]

  /** The columns of the _request_match and _workers tables. */
  function PoolOf(t: RequestType): SlaveType {
    if t < FONT_LOAD then SLAVE_IMAGE else SLAVE_FONT
  }

  function Spares(t: RequestType): nat {
    if t == IMAGE_SPEC_LOAD then 1 else 0
  }

  function MaxWorkers(k: SlaveType): nat {
    if k == SLAVE_IMAGE then 3 else 1
  }

  /** A request of type t starts only while fewer than this many slaves are working. */
  function Limit(t: RequestType): (n: nat)
    ensures 0 < n == MaxWorkers(PoolOf(t)) - Spares(t)
  {
    MaxWorkers(PoolOf(t)) - Spares(t)
  }

  /** `job[w]` is the request in sw->data of a worker that has one. */
  datatype Pools = Pools(idle: Pool, working: Pool, job: map<Worker, Handle>, next: Worker)

  datatype State = State(tab: Table, pools: Pools)

  const START := State(Table(map[], [[], [], [], [], []], [[], [], [], [], []], [], 0),
                       Pools([[], []], [[], []], map[], 0))

  ghost predicate Serves(reqs: Heap, p: Pools, w: Worker)
    requires w in p.job
  {
    var h := p.job[w];
    && w < p.next
    && h in reqs && reqs[h].processing
    && w in p.working[PoolOf(reqs[h].rtype)]
  }

  ghost predicate Served(p: Pools, h: Handle) {
    exists w :: w in p.job && p.job[w] == h
  }

  /** Each pool is within its bound; an idle slave is in one list only and holds no request. */
  ghost predicate PoolLists(p: Pools) {
    && (forall k: SlaveType {:trigger NoDup(p.idle[k])} :: NoDup(p.idle[k]))
    && (forall k: SlaveType {:trigger NoDup(p.working[k])} :: NoDup(p.working[k]))
    && (forall k: SlaveType {:trigger p.idle[k]} :: |p.idle[k]| + |p.working[k]| <= MaxWorkers(k))
    && (forall k: SlaveType, w {:trigger w in p.idle[k]} :: w in p.idle[k] ==>
          w !in p.job && w < p.next && (forall k': SlaveType :: k' != k ==> w !in p.idle[k']))
  }

  /** Working slaves and processing requests are in bijection, each in the pool of its type. */
  ghost predicate PoolJobs(reqs: Heap, p: Pools) {
    && (forall w {:trigger Serves(reqs, p, w)} :: w in p.job ==> Serves(reqs, p, w))
    && (forall k: SlaveType, w {:trigger w in p.working[k]} :: w in p.working[k] ==>
          w in p.job && p.job[w] in reqs && PoolOf(reqs[p.job[w]].rtype) == k)
    && (forall w, w' {:trigger p.job[w], p.job[w']} ::
          w in p.job && w' in p.job && p.job[w] == p.job[w'] ==> w == w')
    && (forall h {:trigger Served(p, h)} :: h in reqs && reqs[h].processing ==> Served(p, h))
  }

  ghost predicate PoolsOk(reqs: Heap, p: Pools) {
    PoolLists(p) && PoolJobs(reqs, p)
  }

  ghost predicate Inv(s: State) {
    Core(s.tab, {}) && PoolsOk(s.tab.reqs, s.pools)
  }

  /** The pools only see which requests are processing, and of which type they are. */
  lemma SameRunning(reqs: Heap, reqs': Heap, p: Pools)
    requires PoolsOk(reqs, p)
    requires forall h :: h in reqs && reqs[h].processing ==>
               h in reqs' && reqs'[h].processing && reqs'[h].rtype == reqs[h].rtype
    requires forall h :: h in reqs' && reqs'[h].processing ==> h in reqs && reqs[h].processing
    ensures PoolsOk(reqs', p)
  {
    forall w | w in p.job ensures Serves(reqs', p, w) {
      assert Serves(reqs, p, w);
    }
    forall k: SlaveType, w | w in p.working[k]
      ensures w in p.job && p.job[w] in reqs' && PoolOf(reqs'[p.job[w]].rtype) == k
    {
      assert Serves(reqs, p, w);
    }
  }

  lemma SameRunningQueues(tab: Table, tab': Table, p: Pools)
    requires Core(tab, {}) && Core(tab', {}) && tab'.running == tab.running && PoolsOk(tab.reqs, p)
    ensures PoolsOk(tab'.reqs, p)
  {
    hide LinksOk, PoolsOk;
    forall h | h in tab.reqs && tab.reqs[h].processing
      ensures h in tab'.reqs && tab'.reqs[h].processing && tab'.reqs[h].rtype == tab.reqs[h].rtype
    {
      assert h in tab.running[tab.reqs[h].rtype];
      assert h in tab'.running[tab.reqs[h].rtype];
    }
    forall h | h in tab'.reqs && tab'.reqs[h].processing ensures h in tab.reqs && tab.reqs[h].processing {
      assert h in tab'.running[tab'.reqs[h].rtype];
      assert h in tab.running[tab'.reqs[h].rtype];
    }
    SameRunning(tab.reqs, tab'.reqs, p);
  }

  // ----- failing and starting one request -------------------------------------------

  /** A request that is queued and depends on nothing fails: it goes with all below it. */
  function Fail(tab: Table, h: Handle, err: ErrorType): (tab': Table)
    requires Core(tab, {}) && h in tab.reqs && tab.reqs[h].dependency.None?
    ensures Core(tab', {})
    ensures tab'.reqs.Keys == tab.reqs.Keys - Below(tab.reqs, h)
    ensures forall x {:trigger tab'.reqs[x]} :: x in tab'.reqs ==> tab'.reqs[x] == tab.reqs[x]
    ensures forall t: RequestType :: tab'.waiting[t] == Without(tab.waiting[t], Below(tab.reqs, h))
    ensures forall t: RequestType :: tab'.running[t] == Without(tab.running[t], {h})
    ensures tab'.next == tab.next
  {
    hide QueuesOk, LinksOk;
    TakeOff(tab, h);
    FailQueues(tab, h, FailInHand(Dequeue(tab, h), h, err));
    FailInHand(Dequeue(tab, h), h, err)
  }

  lemma FailQueues(tab: Table, h: Handle, tab': Table)
    requires Core(tab, {}) && h in tab.reqs && tab.reqs[h].dependency.None?
    requires LinksOk(Dequeue(tab, h).reqs)
    requires tab'.reqs.Keys == Dequeue(tab, h).reqs.Keys - Below(Dequeue(tab, h).reqs, h)
    requires forall x {:trigger tab'.reqs[x]} :: x in tab'.reqs ==> tab'.reqs[x] == Dequeue(tab, h).reqs[x]
    requires Unqueued(Dequeue(tab, h), tab', Below(Dequeue(tab, h).reqs, h) - {h})
    ensures tab'.reqs.Keys == tab.reqs.Keys - Below(tab.reqs, h)
    ensures forall x {:trigger tab'.reqs[x]} :: x in tab'.reqs ==> tab'.reqs[x] == tab.reqs[x]
    ensures forall t: RequestType :: tab'.waiting[t] == Without(tab.waiting[t], Below(tab.reqs, h))
    ensures forall t: RequestType :: tab'.running[t] == Without(tab.running[t], {h})
  {
    hide QueuesOk, LinksOk;
    LockedIffDependent(tab, h);
    assert Unlink(tab.reqs, h) == tab.reqs;
    var u := Below(tab.reqs, h);
    assert h in u;
    assert {h} + (u - {h}) == u;
    DequeueOthers(tab.reqs, tab.waiting, h, {}, false);
    DequeueOthers(tab.reqs, tab.running, h, {}, true);
    forall t: RequestType ensures tab'.waiting[t] == Without(tab.waiting[t], u) {
      WithoutTwice(tab.waiting[t], {h}, u - {h});
    }
  }

  lemma FailLedger(tab: Table, h: Handle, err: ErrorType, w: Waiter)
    requires Core(tab, {}) && h in tab.reqs && tab.reqs[h].dependency.None?
    ensures Ledger(Fail(tab, h, err), w) == Ledger(tab, w)
    ensures OnlySent(tab, Fail(tab, h, err), Failed(err))
  {
    hide QueuesOk, LinksOk;
    TakeOff(tab, h);
    AttachedSame(tab.reqs, Unlink(tab.reqs, h), w);
    FailInHandLedger(Dequeue(tab, h), h, err, w);
  }

  /** What lies below a request is locked and of later types. */
  lemma BelowIsLater(tab: Table, h: Handle, x: Handle)
    requires LinksOk(tab.reqs) && h in tab.reqs && x in Below(tab.reqs, h) && x != h
    ensures tab.reqs[h].rtype < tab.reqs[x].rtype && tab.reqs[x].locked && !tab.reqs[x].processing
  {
    UnderRank(tab.reqs, x, h);
    assert LockOk(tab.reqs, x);
  }

  /** Nothing below h is in the queue of h, so a pass may go on with h's successor. */
  lemma FailKeepsQueue(tab: Table, h: Handle)
    requires Core(tab, {}) && h in tab.reqs
    ensures var q := tab.waiting[tab.reqs[h].rtype]; Without(q, Below(tab.reqs, h)) == Without(q, {h})
  {
    var q := tab.waiting[tab.reqs[h].rtype];
    var u := Below(tab.reqs, h);
    assert h in u;
    assert {h} + (u - {h}) == u;
    forall x | x in u - {h} ensures x !in Without(q, {h}) {
      BelowIsLater(tab, h, x);
    }
    WithoutNone(Without(q, {h}), u - {h});
    WithoutTwice(q, {h}, u - {h});
  }

  /** A waiting request is handed to a slave. */
  function StartTable(tab: Table, h: Handle): Table
    requires h in tab.reqs
  {
    var t := tab.reqs[h].rtype;
    tab.(reqs := tab.reqs[h := tab.reqs[h].(processing := true)],
         waiting := tab.waiting[t := Without(tab.waiting[t], {h})],
         running := tab.running[t := tab.running[t] + [h]])
  }

  lemma StartCore(tab: Table, h: Handle)
    requires Core(tab, {}) && h in tab.reqs && !tab.reqs[h].processing && !tab.reqs[h].locked
    ensures Core(StartTable(tab, h), {})
  {
    var t := tab.reqs[h].rtype;
    var tab' := StartTable(tab, h);
    StartLinks(tab.reqs, h);
    assert NoDup(tab.waiting[t]) && NoDup(tab.running[t]) && h !in tab.running[t];
    WithoutNoDup(tab.waiting[t], {h});
    AppendNoDup(tab.running[t], h);
    forall u: RequestType ensures NoDup(tab'.waiting[u]) && NoDup(tab'.running[u]) {
      assert NoDup(tab.waiting[u]) && NoDup(tab.running[u]);
    }
    forall u: RequestType, x
      ensures x in tab'.waiting[u] <==> x in tab'.reqs && tab'.reqs[x].rtype == u && !tab'.reqs[x].processing
      ensures x in tab'.running[u] <==> x in tab'.reqs && tab'.reqs[x].rtype == u && tab'.reqs[x].processing
    {
      assert x in tab.waiting[u] <==> x in tab.reqs && tab.reqs[x].rtype == u && !tab.reqs[x].processing;
      assert x in tab.running[u] <==> x in tab.reqs && tab.reqs[x].rtype == u && tab.reqs[x].processing;
    }
  }

  lemma StartLinks(reqs: Heap, h: Handle)
    requires LinksOk(reqs) && h in reqs && !reqs[h].locked
    ensures LinksOk(reqs[h := reqs[h].(processing := true)])
  {
    var reqs' := reqs[h := reqs[h].(processing := true)];
    forall x | x in reqs' ensures LockOk(reqs', x) && NoDup(reqs'[x].dependents) {
      assert LockOk(reqs, x) && NoDup(reqs[x].dependents);
    }
    forall y, x | y in reqs'
      ensures x in reqs'[y].dependents <==> x in reqs' && reqs'[x].dependency == Some(y)
    {
      assert x in reqs[y].dependents <==> x in reqs && reqs[x].dependency == Some(y);
    }
  }

  /** The first idle worker of pool k takes request h. */
  function StartPool(p: Pools, k: SlaveType, h: Handle): Pools
    requires p.idle[k] != []
  {
    var w := p.idle[k][0];
    p.(idle := p.idle[k := p.idle[k][1..]],
       working := p.working[k := p.working[k] + [w]],
       job := p.job[w := h])
  }

  lemma StartPoolOk(reqs: Heap, p: Pools, h: Handle)
    requires PoolsOk(reqs, p) && h in reqs && !reqs[h].processing
    requires p.idle[PoolOf(reqs[h].rtype)] != []
    ensures PoolsOk(reqs[h := reqs[h].(processing := true)], StartPool(p, PoolOf(reqs[h].rtype), h))
  {
    hide PoolLists, PoolJobs;
    StartPoolLists(reqs, p, PoolOf(reqs[h].rtype), h);
    StartPoolJobs(reqs, p, h);
  }

  lemma StartPoolLists(reqs: Heap, p: Pools, k: SlaveType, h: Handle)
    requires PoolsOk(reqs, p) && p.idle[k] != []
    ensures PoolLists(StartPool(p, k, h))
  {
    var w := p.idle[k][0];
    assert w in p.idle[k];
    var p' := StartPool(p, k, h);
    assert NoDup(p.idle[k]) && NoDup(p.working[k]) && w !in p.working[k];
    AppendNoDup(p.working[k], w);
    forall j: SlaveType ensures NoDup(p'.idle[j]) && NoDup(p'.working[j]) {
      assert NoDup(p.idle[j]) && NoDup(p.working[j]);
    }
    forall j: SlaveType, v | v in p'.idle[j]
      ensures v !in p'.job && v < p'.next && forall j': SlaveType :: j' != j ==> v !in p'.idle[j']
    {
      assert v in p.idle[j];
    }
  }

  lemma StartPoolJobs(reqs: Heap, p: Pools, h: Handle)
    requires PoolsOk(reqs, p) && h in reqs && !reqs[h].processing
    requires p.idle[PoolOf(reqs[h].rtype)] != []
    ensures PoolJobs(reqs[h := reqs[h].(processing := true)], StartPool(p, PoolOf(reqs[h].rtype), h))
  {
    var k := PoolOf(reqs[h].rtype);
    var w := p.idle[k][0];
    assert w in p.idle[k];
    var reqs' := reqs[h := reqs[h].(processing := true)];
    var p' := StartPool(p, k, h);
    forall v | v in p'.job ensures Serves(reqs', p', v) {
      if v != w { assert Serves(reqs, p, v); }
    }
    forall j: SlaveType, v | v in p'.working[j]
      ensures v in p'.job && p'.job[v] in reqs' && PoolOf(reqs'[p'.job[v]].rtype) == j
    {
      if v != w { assert v in p.working[j]; }
    }
    forall v, v' | v in p'.job && v' in p'.job && p'.job[v] == p'.job[v'] ensures v == v' {
      if v != w { assert Serves(reqs, p, v); }
      if v' != w { assert Serves(reqs, p, v'); }
    }
    forall x | x in reqs' && reqs'[x].processing ensures Served(p', x) {
      if x == h {
        assert w in p'.job && p'.job[w] == h;
      } else {
        assert Served(p, x);
        var v :| v in p.job && p.job[v] == x;
        assert v in p'.job && p'.job[v] == x;
      }
    }
  }

  /** _slave_for_request_create */
  function Spawn(p: Pools, k: SlaveType): Pools {
    p.(idle := p.idle[k := p.idle[k] + [p.next]], next := p.next + 1)
  }

  lemma SpawnOk(reqs: Heap, p: Pools, k: SlaveType)
    requires PoolsOk(reqs, p) && p.idle[k] == [] && |p.working[k]| < MaxWorkers(k)
    ensures PoolsOk(reqs, Spawn(p, k))
  {
    var p' := Spawn(p, k);
    forall w | w in p'.job ensures Serves(reqs, p', w) && w != p.next {
      assert Serves(reqs, p, w);
    }
    forall j: SlaveType ensures NoDup(p'.idle[j]) && NoDup(p'.working[j]) && |p'.idle[j]| + |p'.working[j]| <= MaxWorkers(j) {
      assert NoDup(p.idle[j]) && NoDup(p.working[j]) && |p.idle[j]| + |p.working[j]| <= MaxWorkers(j);
    }
    forall j: SlaveType, w | w in p'.idle[j]
      ensures w !in p'.job && w < p'.next && forall j': SlaveType :: j' != j ==> w !in p'.idle[j']
    {
      if w == p.next {
        assert forall j': SlaveType :: w !in p.idle[j'];
      } else {
        assert w in p.idle[j];
      }
    }
    forall j: SlaveType, w | w in p'.working[j]
      ensures w in p'.job && p'.job[w] in reqs && PoolOf(reqs[p'.job[w]].rtype) == j
    {
      assert w in p.working[j];
    }
    forall h | h in reqs && reqs[h].processing ensures Served(p', h) {
      assert Served(p, h);
    }
  }

  /**
   What the system does for one request of a pass: whether a slave can be created, and
   whether the message for the slave can be built.
   */
  datatype Env = Env(spawns: set<Handle>, builds: set<Handle>)

  /** The worker pool as the request h finds it: with an idle slave, unless none can be had. */
  function Staffed(p: Pools, k: SlaveType, h: Handle, env: Env): Pools {
    if p.idle[k] == [] && h in env.spawns then Spawn(p, k) else p
  }

  /** Whether h is handed to a slave when its turn comes. */
  predicate Starts(p: Pools, k: SlaveType, h: Handle, env: Env) {
    (p.idle[k] != [] || h in env.spawns) && h in env.builds
  }

  /** One unlocked waiting request in a pass: it starts, or it fails. */
  function Dispatch(s: State, h: Handle, env: Env): (s': State)
    requires Inv(s) && Ready(s, h)
    ensures Inv(s')
    ensures var t := s.tab.reqs[h].rtype; s'.tab.waiting[t] == Without(s.tab.waiting[t], {h})
  {
    hide QueuesOk, LinksOk, PoolsOk;
    var k := PoolOf(s.tab.reqs[h].rtype);
    var p := Staffed(s.pools, k, h, env);
    StaffedOk(s, h, env);
    if Starts(s.pools, k, h, env) then
      StartCore(s.tab, h);
      StartPoolOk(s.tab.reqs, p, h);
      State(StartTable(s.tab, h), StartPool(p, k, h))
    else
      LockedIffDependent(s.tab, h);
      var tab' := Fail(s.tab, h, GENERIC);
      FailKeepsQueue(s.tab, h);
      FailKeepsRunning(s.tab, h, tab');
      SameRunningQueues(s.tab, tab', p);
      State(tab', p)
  }

  /** h may be dispatched now. */
  ghost predicate Ready(s: State, h: Handle) {
    && h in s.tab.reqs && !s.tab.reqs[h].processing && !s.tab.reqs[h].locked
    && |s.pools.working[PoolOf(s.tab.reqs[h].rtype)]| < Limit(s.tab.reqs[h].rtype)
  }

  lemma StaffedOk(s: State, h: Handle, env: Env)
    requires PoolsOk(s.tab.reqs, s.pools) && Ready(s, h)
    ensures var k := PoolOf(s.tab.reqs[h].rtype);
            var p := Staffed(s.pools, k, h, env);
            PoolsOk(s.tab.reqs, p) && (Starts(s.pools, k, h, env) ==> p.idle[k] != [])
  {
    hide PoolsOk;
    var k := PoolOf(s.tab.reqs[h].rtype);
    if s.pools.idle[k] == [] && h in env.spawns {
      SpawnOk(s.tab.reqs, s.pools, k);
    }
  }

  lemma FailKeepsRunning(tab: Table, h: Handle, tab': Table)
    requires Core(tab, {}) && h in tab.reqs && !tab.reqs[h].processing
    requires forall t: RequestType :: tab'.running[t] == Without(tab.running[t], {h})
    ensures tab'.running == tab.running
  {
    forall t: RequestType ensures tab'.running[t] == tab.running[t] {
      assert h !in tab.running[t];
      WithoutNone(tab.running[t], {h});
    }
  }

  lemma DispatchLedger(s: State, h: Handle, env: Env, w: Waiter)
    requires Inv(s) && Ready(s, h)
    ensures Ledger(Dispatch(s, h, env).tab, w) == Ledger(s.tab, w)
    ensures OnlySent(s.tab, Dispatch(s, h, env).tab, Failed(GENERIC))
  {
    hide QueuesOk, LinksOk, PoolsOk, Unqueued;
    if Starts(s.pools, PoolOf(s.tab.reqs[h].rtype), h, env) {
      AttachedSame(s.tab.reqs, StartTable(s.tab, h).reqs, w);
    } else {
      LockedIffDependent(s.tab, h);
      FailLedger(s.tab, h, GENERIC, w);
    }
  }

  // ----- one scheduling pass --------------------------------------------------------

  /** From s to s' requests only left the waiting queues, and no slave stopped working. */
  ghost predicate Progress(s: State, s': State) {
    && (forall t: RequestType, x {:trigger x in s'.tab.waiting[t]} :: x in s'.tab.waiting[t] ==>
          x in s.tab.waiting[t] && x in s.tab.reqs && x in s'.tab.reqs
          && s'.tab.reqs[x].locked == s.tab.reqs[x].locked)
    && (forall k: SlaveType :: |s.pools.working[k]| <= |s'.pools.working[k]|)
  }

  lemma DispatchProgress(s: State, h: Handle, env: Env)
    requires Inv(s) && Ready(s, h)
    ensures Progress(s, Dispatch(s, h, env))
  {
    hide LinksOk, PoolsOk, Unqueued, Below, FailInHand;
    LockedIffDependent(s.tab, h);
    var s' := Dispatch(s, h, env);
    forall t: RequestType, x | x in s'.tab.waiting[t]
      ensures x in s.tab.waiting[t] && x in s.tab.reqs && x in s'.tab.reqs
              && s'.tab.reqs[x].locked == s.tab.reqs[x].locked
    {}
  }

  /** No unlocked request of type t waits for a slave that it could have. */
  ghost predicate Settled(s: State, t: RequestType) {
    forall h {:trigger h in s.tab.waiting[t]} :: h in s.tab.waiting[t] ==>
      h in s.tab.reqs && (s.tab.reqs[h].locked || Limit(t) <= |s.pools.working[PoolOf(t)]|)
  }

  /** The waiting requests from position i on, each dispatched in turn while slaves may work. */
  function Sweep(s: State, t: RequestType, env: Env, i: nat): (s': State)
    requires Inv(s) && i <= |s.tab.waiting[t]|
    ensures Inv(s')
    decreases |s.tab.waiting[t]| - i
  {
    if i == |s.tab.waiting[t]| || Limit(t) <= |s.pools.working[PoolOf(t)]| then s
    else
      var h := s.tab.waiting[t][i];
      WaitingAt(s.tab, t, i);
      if s.tab.reqs[h].locked then Sweep(s, t, env, i + 1)
      else
        DispatchCuts(s, t, i, env);
        Sweep(Dispatch(s, h, env), t, env, i)
  }

  lemma WaitingAt(tab: Table, t: RequestType, i: nat)
    requires Core(tab, {}) && i < |tab.waiting[t]|
    ensures var h := tab.waiting[t][i];
            h in tab.reqs && tab.reqs[h].rtype == t && !tab.reqs[h].processing && NoDup(tab.waiting[t])
  {
    assert tab.waiting[t][i] in tab.waiting[t];
  }

  /** After the dispatch the next request of the queue is at the same position. */
  lemma DispatchCuts(s: State, t: RequestType, i: nat, env: Env)
    requires Inv(s) && i < |s.tab.waiting[t]| && Ready(s, s.tab.waiting[t][i])
    requires s.tab.reqs[s.tab.waiting[t][i]].rtype == t && NoDup(s.tab.waiting[t])
    ensures Dispatch(s, s.tab.waiting[t][i], env).tab.waiting[t]
            == s.tab.waiting[t][..i] + s.tab.waiting[t][i + 1..]
  {
    hide QueuesOk, LinksOk, PoolsOk, NoDup;
    WithoutOne(s.tab.waiting[t], i);
  }

  ghost predicate LockedBefore(s: State, t: RequestType, i: nat) {
    i <= |s.tab.waiting[t]| &&
    forall j :: 0 <= j < i ==> s.tab.waiting[t][j] in s.tab.reqs && s.tab.reqs[s.tab.waiting[t][j]].locked
  }

  lemma {:induction false} SweepSettles(s: State, t: RequestType, env: Env, i: nat)
    requires Inv(s) && LockedBefore(s, t, i)
    ensures Settled(Sweep(s, t, env, i), t)
    ensures Progress(s, Sweep(s, t, env, i))
    decreases |s.tab.waiting[t]| - i
  {
    hide LinksOk, PoolsOk;
    if i == |s.tab.waiting[t]| || Limit(t) <= |s.pools.working[PoolOf(t)]| {
    } else {
      var h := s.tab.waiting[t][i];
      WaitingAt(s.tab, t, i);
      if s.tab.reqs[h].locked {
        SweepSettles(s, t, env, i + 1);
      } else {
        DispatchCuts(s, t, i, env);
        DispatchProgress(s, h, env);
        DispatchKeepsLocked(s, t, i, env);
        SweepSettles(Dispatch(s, h, env), t, env, i);
        ProgressTransitive(s, Dispatch(s, h, env), Sweep(s, t, env, i));
      }
    }
  }

  lemma DispatchKeepsLocked(s: State, t: RequestType, i: nat, env: Env)
    requires Inv(s) && LockedBefore(s, t, i) && i < |s.tab.waiting[t]| && Ready(s, s.tab.waiting[t][i])
    requires var s' := Dispatch(s, s.tab.waiting[t][i], env);
             Progress(s, s') && s'.tab.waiting[t] == s.tab.waiting[t][..i] + s.tab.waiting[t][i + 1..]
    ensures LockedBefore(Dispatch(s, s.tab.waiting[t][i], env), t, i)
  {
    hide Inv, Dispatch;
    var s' := Dispatch(s, s.tab.waiting[t][i], env);
    forall j | 0 <= j < i
      ensures s'.tab.waiting[t][j] in s'.tab.reqs && s'.tab.reqs[s'.tab.waiting[t][j]].locked
    {
      assert s'.tab.waiting[t][j] == s.tab.waiting[t][j];
      assert s'.tab.waiting[t][j] in s'.tab.waiting[t];
    }
  }

  lemma ProgressTransitive(s: State, s1: State, s2: State)
    requires Progress(s, s1) && Progress(s1, s2)
    ensures Progress(s, s2)
  {
    forall t: RequestType, x | x in s2.tab.waiting[t]
      ensures x in s.tab.waiting[t] && x in s.tab.reqs && x in s2.tab.reqs
              && s2.tab.reqs[x].locked == s.tab.reqs[x].locked
    {
      assert x in s1.tab.waiting[t];
    }
  }

  lemma ProgressKeepsSettled(s: State, s': State, t: RequestType)
    requires Settled(s, t) && Progress(s, s')
    ensures Settled(s', t)
  {
    forall h | h in s'.tab.waiting[t]
      ensures h in s'.tab.reqs && (s'.tab.reqs[h].locked || Limit(t) <= |s'.pools.working[PoolOf(t)]|)
    {
      assert h in s.tab.waiting[t];
    }
  }

  /** The pass over the request types from t on. */
  function ProcessFrom(s: State, env: Env, t: nat): (s': State)
    requires Inv(s) && t <= REQ_LAST
    ensures Inv(s')
    decreases REQ_LAST - t
  {
    if t == REQ_LAST then s else ProcessFrom(Sweep(s, t, env, 0), env, t + 1)
  }

  /** _cserve2_requests_process */
  function Process(s: State, env: Env): (s': State)
    requires Inv(s)
    ensures Inv(s')
  {
    ProcessFrom(s, env, 0)
  }

  lemma {:induction false} ProcessFromSettles(s: State, env: Env, t: nat)
    requires Inv(s) && t <= REQ_LAST
    requires forall u: RequestType :: u < t ==> Settled(s, u)
    ensures forall u: RequestType :: Settled(ProcessFrom(s, env, t), u)
    ensures Progress(s, ProcessFrom(s, env, t))
    decreases REQ_LAST - t
  {
    hide LinksOk, PoolsOk, Settled;
    if t < REQ_LAST {
      SweepSettles(s, t, env, 0);
      var s1 := Sweep(s, t, env, 0);
      forall u: RequestType | u < t ensures Settled(s1, u) {
        ProgressKeepsSettled(s, s1, u);
      }
      ProcessFromSettles(s1, env, t + 1);
      ProgressTransitive(s, s1, ProcessFrom(s1, env, t + 1));
    }
  }

  /** A pass is work conserving: whatever unlocked request still waits has its pool at the limit. */
  lemma ProcessSettles(s: State, env: Env)
    requires Inv(s)
    ensures forall t: RequestType :: Settled(Process(s, env), t)
    ensures Progress(s, Process(s, env))
  {
    ProcessFromSettles(s, env, 0);
  }

  // ----- order and priority ---------------------------------------------------------

  /** The unlocked requests of a list, in order. */
  function Runnable(reqs: Heap, q: seq<Handle>): seq<Handle> {
    if q == [] then []
    else (if q[0] in reqs && !reqs[q[0]].locked then [q[0]] else []) + Runnable(reqs, q[1..])
  }

  /** The members of a list that are still live, in order. */
  function Live(reqs: Heap, q: seq<Handle>): seq<Handle> {
    if q == [] then [] else (if q[0] in reqs then [q[0]] else []) + Live(reqs, q[1..])
  }

  lemma {:induction false} RunnableSplit(reqs: Heap, a: seq<Handle>, b: seq<Handle>)
    ensures Runnable(reqs, a + b) == Runnable(reqs, a) + Runnable(reqs, b)
  {
    if a == [] {
      assert a + b == b;
    } else {
      assert (a + b)[1..] == a[1..] + b;
      RunnableSplit(reqs, a[1..], b);
    }
  }

  lemma {:induction false} RunnableSame(reqs: Heap, reqs': Heap, q: seq<Handle>)
    requires forall x {:trigger x in q} :: x in q ==> x in reqs && x in reqs' && reqs'[x].locked == reqs[x].locked
    ensures Runnable(reqs', q) == Runnable(reqs, q)
  {
    if q != [] {
      assert q[0] in q && forall x :: x in q[1..] ==> x in q;
      RunnableSame(reqs, reqs', q[1..]);
    }
  }

  /** A dispatch takes the first runnable request of the queue. */
  lemma DispatchFirst(s: State, t: RequestType, i: nat, env: Env)
    requires Inv(s) && LockedBefore(s, t, i) && i < |s.tab.waiting[t]| && Ready(s, s.tab.waiting[t][i])
    requires s.tab.reqs[s.tab.waiting[t][i]].rtype == t && NoDup(s.tab.waiting[t])
    ensures var h := s.tab.waiting[t][i];
            var s' := Dispatch(s, h, env);
            Runnable(s.tab.reqs, s.tab.waiting[t]) == [h] + Runnable(s'.tab.reqs, s'.tab.waiting[t])
  {
    var q := s.tab.waiting[t];
    var h := q[i];
    DispatchCuts(s, t, i, env);
    DispatchProgress(s, h, env);
    var s' := Dispatch(s, h, env);
    hide Inv, Dispatch, NoDup, Ready;
    LockedNotRunnable(s.tab.reqs, q[..i]);
    assert q == q[..i] + ([h] + q[i + 1..]);
    RunnableSplit(s.tab.reqs, q[..i], [h] + q[i + 1..]);
    RunnableSplit(s.tab.reqs, [h], q[i + 1..]);
    RunnableSplit(s.tab.reqs, q[..i], q[i + 1..]);
    RunnableSame(s.tab.reqs, s'.tab.reqs, q[..i] + q[i + 1..]);
    assert Runnable(s.tab.reqs, [h]) == [h];
  }

  lemma {:induction false} LockedNotRunnable(reqs: Heap, q: seq<Handle>)
    requires forall j :: 0 <= j < |q| ==> q[j] in reqs && reqs[q[j]].locked
    ensures Runnable(reqs, q) == []
  {
    if q != [] {
      LockedNotRunnable(reqs, q[1..]);
    }
  }

  /** What a dispatch of h does to the other requests' lives and to the running queues. */
  ghost predicate Dispatched(s: State, s': State, h: Handle, started: bool)
    requires h in s.tab.reqs
  {
    var t := s.tab.reqs[h].rtype;
    && s'.tab.reqs.Keys <= s.tab.reqs.Keys
    && (forall x {:trigger s'.tab.reqs[x]} {:trigger x in s'.tab.reqs} :: x in s.tab.reqs && s.tab.reqs[x].processing ==>
          x in s'.tab.reqs && s'.tab.reqs[x].processing)
    && (started <==> h in s'.tab.reqs)
    && (started ==> s'.tab.reqs[h].processing)
    && s'.tab.running == (if started then s.tab.running[t := s.tab.running[t] + [h]] else s.tab.running)
    && |s'.pools.working[PoolOf(t)]| == |s.pools.working[PoolOf(t)]| + (if started then 1 else 0)
    && (forall k: SlaveType :: k != PoolOf(t) ==> s'.pools.working[k] == s.pools.working[k])
  }

  lemma DispatchEffect(s: State, h: Handle, env: Env)
    requires Inv(s) && Ready(s, h)
    ensures Dispatched(s, Dispatch(s, h, env), h, Starts(s.pools, PoolOf(s.tab.reqs[h].rtype), h, env))
  {
    hide QueuesOk, PoolsOk, Unqueued;
    StaffedOk(s, h, env);
    if !Starts(s.pools, PoolOf(s.tab.reqs[h].rtype), h, env) {
      LockedIffDependent(s.tab, h);
      var tab' := Fail(s.tab, h, GENERIC);
      FailKeepsRunning(s.tab, h, tab');
      forall x | x in s.tab.reqs && s.tab.reqs[x].processing ensures x !in Below(s.tab.reqs, h) {
        if x in Below(s.tab.reqs, h) {
          BelowIsLater(s.tab, h, x);
        }
      }
      assert h in Below(s.tab.reqs, h);
    }
  }

  /** One dispatch within a sweep: the state in which the sweep goes on. */
  lemma SweepStep(s: State, t: RequestType, env: Env, i: nat)
    requires Inv(s) && LockedBefore(s, t, i) && i < |s.tab.waiting[t]|
    requires var h := s.tab.waiting[t][i];
             h in s.tab.reqs && s.tab.reqs[h].rtype == t && Ready(s, h) && NoDup(s.tab.waiting[t])
    ensures var h := s.tab.waiting[t][i];
            var s1 := Dispatch(s, h, env);
            && LockedBefore(s1, t, i) && |s1.tab.waiting[t]| == |s.tab.waiting[t]| - 1
            && Runnable(s.tab.reqs, s.tab.waiting[t]) == [h] + Runnable(s1.tab.reqs, s1.tab.waiting[t])
            && Dispatched(s, s1, h, h in s1.tab.reqs)
  {
    hide Inv, Dispatched, Progress;
    DispatchCuts(s, t, i, env);
    DispatchProgress(s, s.tab.waiting[t][i], env);
    DispatchKeepsLocked(s, t, i, env);
    DispatchFirst(s, t, i, env);
    DispatchEffect(s, s.tab.waiting[t][i], env);
    DispatchedStarted(s, Dispatch(s, s.tab.waiting[t][i], env), s.tab.waiting[t][i],
                      Starts(s.pools, PoolOf(t), s.tab.waiting[t][i], env));
  }

  lemma DispatchedStarted(s: State, s': State, h: Handle, started: bool)
    requires h in s.tab.reqs && Dispatched(s, s', h, started)
    ensures started == (h in s'.tab.reqs)
  {}

  /**
   A sweep takes the first n runnable requests of its type, in order; those that did not
   fail are, in that order, the new tail of the processing queue.
   */
  ghost predicate TookFirst(s: State, s': State, t: RequestType, n: nat) {
    var r := Runnable(s.tab.reqs, s.tab.waiting[t]);
    && n <= |r|
    && Runnable(s'.tab.reqs, s'.tab.waiting[t]) == r[n..]
    && s'.tab.running == s.tab.running[t := s.tab.running[t] + Live(s'.tab.reqs, r[..n])]
    && s'.tab.reqs.Keys <= s.tab.reqs.Keys
    && (forall x :: x in s.tab.reqs && s.tab.reqs[x].processing ==> x in s'.tab.reqs)
  }

  lemma {:induction false} SweepFifo(s: State, t: RequestType, env: Env, i: nat) returns (n: nat)
    requires Inv(s) && LockedBefore(s, t, i)
    ensures TookFirst(s, Sweep(s, t, env, i), t, n)
    decreases |s.tab.waiting[t]| - i
  {
    hide LinksOk, PoolsOk, QueuesOk, Dispatch, Dispatched, TookFirst, Runnable;
    if i == |s.tab.waiting[t]| || Limit(t) <= |s.pools.working[PoolOf(t)]| {
      n := 0;
      TookNone(s, t);
    } else {
      var h := s.tab.waiting[t][i];
      WaitingAt(s.tab, t, i);
      if s.tab.reqs[h].locked {
        n := SweepFifo(s, t, env, i + 1);
      } else {
        SweepStep(s, t, env, i);
        DispatchCuts(s, t, i, env);
        var s1 := Dispatch(s, h, env);
        var n1 := SweepFifo(s1, t, env, i);
        n := n1 + 1;
        TookOneMore(s, s1, Sweep(s1, t, env, i), t, h, n1);
      }
    }
  }

  lemma TookNone(s: State, t: RequestType)
    ensures TookFirst(s, s, t, 0)
  {
    var r := Runnable(s.tab.reqs, s.tab.waiting[t]);
    assert r[..0] == [] && s.tab.running[t] + [] == s.tab.running[t];
  }

  lemma TookOneMore(s: State, s1: State, s': State, t: RequestType, h: Handle, n1: nat)
    requires h in s.tab.reqs && s.tab.reqs[h].rtype == t
    requires Runnable(s.tab.reqs, s.tab.waiting[t]) == [h] + Runnable(s1.tab.reqs, s1.tab.waiting[t])
    requires Dispatched(s, s1, h, h in s1.tab.reqs) && TookFirst(s1, s', t, n1)
    ensures TookFirst(s, s', t, n1 + 1)
  {
    hide Runnable;
    var r := Runnable(s.tab.reqs, s.tab.waiting[t]);
    var r1 := Runnable(s1.tab.reqs, s1.tab.waiting[t]);
    assert r[n1 + 1..] == r1[n1..];
    assert r[..n1 + 1] == [h] + r1[..n1] && ([h] + r1[..n1])[1..] == r1[..n1];
    assert h in s'.tab.reqs <==> h in s1.tab.reqs;
    forall x | x in s.tab.reqs && s.tab.reqs[x].processing ensures x in s'.tab.reqs {
      assert x in s1.tab.reqs && s1.tab.reqs[x].processing;
    }
    TakenRunning(s.tab.running, s1.tab.running, t, h, h in s1.tab.reqs, Live(s'.tab.reqs, r1[..n1]));
  }

  lemma TakenRunning(q: Queues, q1: Queues, t: RequestType, h: Handle, started: bool, tail: seq<Handle>)
    requires q1 == if started then q[t := q[t] + [h]] else q
    ensures q1[t := q1[t] + tail] == q[t := q[t] + ((if started then [h] else []) + tail)]
  {
    assert q[t] + [h] + tail == q[t] + ([h] + tail);
    assert [] + tail == tail;
  }

  /** A sweep starts requests only below the limit, never exceeds it, and keeps to its pool. */
  lemma {:induction false} SweepBound(s: State, t: RequestType, env: Env, i: nat)
    requires Inv(s) && i <= |s.tab.waiting[t]|
    ensures var s' := Sweep(s, t, env, i);
            && (forall u: RequestType :: u != t ==> s'.tab.running[u] == s.tab.running[u])
            && (s'.tab.running[t] != s.tab.running[t] ==>
                  |s.pools.working[PoolOf(t)]| < Limit(t) && |s'.pools.working[PoolOf(t)]| <= Limit(t))
            && (forall k: SlaveType :: k != PoolOf(t) ==> s'.pools.working[k] == s.pools.working[k])
            && (|s.pools.working[PoolOf(t)]| <= Limit(t) ==> |s'.pools.working[PoolOf(t)]| <= Limit(t))
            && |s.pools.working[PoolOf(t)]| <= |s'.pools.working[PoolOf(t)]|
    decreases |s.tab.waiting[t]| - i
  {
    hide LinksOk, PoolsOk, QueuesOk;
    if i == |s.tab.waiting[t]| || Limit(t) <= |s.pools.working[PoolOf(t)]| {
    } else {
      var h := s.tab.waiting[t][i];
      WaitingAt(s.tab, t, i);
      if s.tab.reqs[h].locked {
        SweepBound(s, t, env, i + 1);
      } else {
        DispatchCuts(s, t, i, env);
        DispatchEffect(s, h, env);
        SweepBound(Dispatch(s, h, env), t, env, i);
      }
    }
  }

  /**
   Speculative loads never overtake: if a pass starts one, no unlocked image open or load
   is left waiting, and one image slave is still free.
   */
  lemma NoPriorityInversion(s: State, env: Env)
    requires Inv(s)
    ensures var s' := Process(s, env);
            s'.tab.running[IMAGE_SPEC_LOAD] != s.tab.running[IMAGE_SPEC_LOAD] ==>
              && (forall t: RequestType, h {:trigger h in s'.tab.waiting[t]} ::
                    t < IMAGE_SPEC_LOAD && h in s'.tab.waiting[t] ==> h in s'.tab.reqs && s'.tab.reqs[h].locked)
              && |s'.pools.working[SLAVE_IMAGE]| < MaxWorkers(SLAVE_IMAGE)
  {
    hide Inv, Sweep, Process, ProcessFrom, Settled;
    var s1 := Sweep(s, IMAGE_OPEN, env, 0);
    var s2 := Sweep(s1, IMAGE_LOAD, env, 0);
    var s3 := Sweep(s2, IMAGE_SPEC_LOAD, env, 0);
    var s4 := Sweep(s3, FONT_LOAD, env, 0);
    var s5 := Sweep(s4, FONT_GLYPHS_LOAD, env, 0);
    ProcessUnrolled(s, env);
    ProcessTail(s2, env);
    SweepBound(s, IMAGE_OPEN, env, 0);
    SweepBound(s1, IMAGE_LOAD, env, 0);
    SweepBound(s2, IMAGE_SPEC_LOAD, env, 0);
    SweepBound(s3, FONT_LOAD, env, 0);
    SweepBound(s4, FONT_GLYPHS_LOAD, env, 0);
    if s5.tab.running[IMAGE_SPEC_LOAD] != s.tab.running[IMAGE_SPEC_LOAD] {
      SweepSettles(s, IMAGE_OPEN, env, 0);
      SweepSettles(s1, IMAGE_LOAD, env, 0);
      ProgressKeepsSettled(s1, s2, IMAGE_OPEN);
      TailProgress(s2, s3, s4, s5, env);
      NoneRunnable(s2, s5, IMAGE_OPEN);
      NoneRunnable(s2, s5, IMAGE_LOAD);
    }
  }

  lemma TailProgress(s2: State, s3: State, s4: State, s5: State, env: Env)
    requires Inv(s2) && s3 == Sweep(s2, IMAGE_SPEC_LOAD, env, 0)
    requires s4 == Sweep(s3, FONT_LOAD, env, 0) && s5 == Sweep(s4, FONT_GLYPHS_LOAD, env, 0)
    ensures Progress(s2, s5)
  {
    hide Inv, Sweep, Settled, Progress;
    SweepSettles(s2, IMAGE_SPEC_LOAD, env, 0);
    SweepSettles(s3, FONT_LOAD, env, 0);
    SweepSettles(s4, FONT_GLYPHS_LOAD, env, 0);
    ProgressTransitive(s2, s3, s4);
    ProgressTransitive(s2, s4, s5);
  }

  lemma NoneRunnable(s: State, s': State, t: RequestType)
    requires Settled(s, t) && |s.pools.working[PoolOf(t)]| < Limit(t) && Progress(s, s')
    ensures forall h {:trigger h in s'.tab.waiting[t]} :: h in s'.tab.waiting[t] ==>
              h in s'.tab.reqs && s'.tab.reqs[h].locked
  {
    forall h | h in s'.tab.waiting[t] ensures h in s'.tab.reqs && s'.tab.reqs[h].locked {
      assert h in s.tab.waiting[t];
    }
  }

  lemma ProcessTail(s: State, env: Env)
    requires Inv(s)
    ensures ProcessFrom(s, env, IMAGE_SPEC_LOAD) ==
            Sweep(Sweep(Sweep(s, IMAGE_SPEC_LOAD, env, 0), FONT_LOAD, env, 0), FONT_GLYPHS_LOAD, env, 0)
  {
    hide Inv;
    var s3 := Sweep(s, IMAGE_SPEC_LOAD, env, 0);
    var s4 := Sweep(s3, FONT_LOAD, env, 0);
    var s5 := Sweep(s4, FONT_GLYPHS_LOAD, env, 0);
    assert ProcessFrom(s5, env, 5) == s5;
    assert ProcessFrom(s4, env, 4) == s5;
    assert ProcessFrom(s3, env, 3) == s5;
  }

  lemma ProcessUnrolled(s: State, env: Env)
    requires Inv(s)
    ensures Process(s, env) ==
            ProcessFrom(Sweep(Sweep(s, IMAGE_OPEN, env, 0), IMAGE_LOAD, env, 0), env, IMAGE_SPEC_LOAD)
  {
    hide Inv;
    var s1 := Sweep(s, IMAGE_OPEN, env, 0);
    assert ProcessFrom(s, env, 0) == ProcessFrom(s1, env, 1);
  }

  lemma {:induction false} SweepLedger(s: State, t: RequestType, env: Env, i: nat, w: Waiter)
    requires Inv(s) && i <= |s.tab.waiting[t]|
    ensures Ledger(Sweep(s, t, env, i).tab, w) == Ledger(s.tab, w)
    ensures OnlySent(s.tab, Sweep(s, t, env, i).tab, Failed(GENERIC))
    decreases |s.tab.waiting[t]| - i
  {
    hide LinksOk, PoolsOk, QueuesOk, Ledger;
    if i == |s.tab.waiting[t]| || Limit(t) <= |s.pools.working[PoolOf(t)]| {
    } else {
      var h := s.tab.waiting[t][i];
      WaitingAt(s.tab, t, i);
      if s.tab.reqs[h].locked {
        SweepLedger(s, t, env, i + 1, w);
      } else {
        DispatchCuts(s, t, i, env);
        DispatchLedger(s, h, env, w);
        SweepLedger(Dispatch(s, h, env), t, env, i, w);
      }
    }
  }

  lemma {:induction false} ProcessFromLedger(s: State, env: Env, t: nat, w: Waiter)
    requires Inv(s) && t <= REQ_LAST
    ensures Ledger(ProcessFrom(s, env, t).tab, w) == Ledger(s.tab, w)
    ensures OnlySent(s.tab, ProcessFrom(s, env, t).tab, Failed(GENERIC))
    decreases REQ_LAST - t
  {
    hide Inv, Ledger;
    if t < REQ_LAST {
      SweepLedger(s, t, env, 0, w);
      ProcessFromLedger(Sweep(s, t, env, 0), env, t + 1, w);
    }
  }
}
