/** The request scheduler as the server runs it: global lists updated in place, call by call. */
module RequestServer {
  import opened Lists
  import opened RequestTable
  import opened RequestOps
  import opened Scheduler
  import opened Runs

  datatype RequestMatch = RequestMatch(rtype: RequestType, stype: SlaveType, requireSpares: nat)

  const REQUEST_MATCH := [
    RequestMatch(IMAGE_OPEN, SLAVE_IMAGE, 0),
    RequestMatch(IMAGE_LOAD, SLAVE_IMAGE, 0),
    RequestMatch(IMAGE_SPEC_LOAD, SLAVE_IMAGE, 1),
    RequestMatch(FONT_LOAD, SLAVE_FONT, 0),
    RequestMatch(FONT_GLYPHS_LOAD, SLAVE_FONT, 0)
  ]

  /** Handles index `reqs`; `sent` is everything the clients have been sent. */
  class Server {
    var reqs: Heap
    var waiting: Queues
    var running: Queues
    var sent: seq<Reply>
    var next: Handle
    var idle: Pool
    var working: Pool
    var job: map<Worker, Handle>
    var nextWorker: Worker

    ghost function Tab(): Table
      reads this
    {
      Table(reqs, waiting, running, sent, next)
    }

    ghost function Slaves(): Pools
      reads this
    {
      Pools(idle, working, job, nextWorker)
    }

    ghost function St(): State
      reads this
    {
      State(Tab(), Slaves())
    }

    /** cserve2_requests_init, with the empty worker lists the program starts with. */
    constructor ()
      ensures St() == START && Inv(St())
    {
      reqs, waiting, running, sent, next := map[], [[], [], [], [], []], [[], [], [], [], []], [], 0;
      idle, working, job, nextWorker := [[], []], [[], []], map[], 0;
      new;
      StartInv();
    }

    method AnswerWaiters(h: Handle, o: Outcome)
      requires h in reqs
      modifies this`reqs, this`sent
      ensures Tab() == AnswerAll(old(Tab()), h, o)
    {
      ghost var ws := reqs[h].waiters;
      ghost var n := 0;
      while reqs[h].waiters != []
        invariant n <= |ws| && reqs == old(reqs)[h := old(reqs)[h].(waiters := ws[n..])]
        invariant sent == old(sent) + Replies(ws[..n], o)
        decreases |reqs[h].waiters|
      {
        var w := reqs[h].waiters[0];
        reqs := reqs[h := reqs[h].(waiters := reqs[h].waiters[1..])];
        sent := sent + [Reply(w, o)];
        n := n + 1;
      }
      assert ws[..n] == ws;
    }

    method DependentsCancel(h: Handle, err: ErrorType, ghost out: set<Handle>)
      requires Core(Tab(), out) && h in reqs
      modifies this`reqs, this`waiting, this`running, this`sent, this`next
      ensures Core(Tab(), out) && Tab() == CancelDependents(old(Tab()), h, err, out)
      decreases REQ_LAST - reqs[h].rtype, 0
    {
      hide QueuesOk, LinksOk, CancelDependents, CancelAll;
      CancelNone(Tab(), h, err, out);
      while reqs[h].dependents != []
        invariant Core(Tab(), out) && h in reqs && reqs[h].rtype == old(reqs)[h].rtype
        invariant CancelDependents(Tab(), h, err, out) == CancelDependents(old(Tab()), h, err, out)
        decreases |reqs[h].dependents|
      {
        ghost var t := Tab();
        CancelNext(t, h, err, out);
        var d := reqs[h].dependents[0];
        reqs := reqs[h := reqs[h].(dependents := reqs[h].dependents[1..])];
        reqs := reqs[d := reqs[d].(locked := false, dependency := None)];
        assert Tab() == t.(reqs := Orphan(t.reqs, h));
        CancelEvery(d, err, out);
      }
      CancelNone(Tab(), h, err, out);
    }

    method CancelEvery(h: Handle, err: ErrorType, ghost out: set<Handle>)
      requires Core(Tab(), out) && h in reqs && h !in out
      modifies this`reqs, this`waiting, this`running, this`sent, this`next
      ensures Core(Tab(), out) && Tab() == CancelAll(old(Tab()), h, err, out)
      decreases REQ_LAST - reqs[h].rtype
    {
      hide QueuesOk, LinksOk, Unqueued, Below;
      ghost var t0 := Tab();
      AnswerWaiters(h, Failed(err));
      SameShapeCore(t0, reqs, sent, out);
      DependentsCancel(h, err, out);
      ghost var t2 := CancelDependents(AnswerAll(t0, h, Failed(err)), h, err, out);
      assert Tab() == t2;
      if reqs[h].processing {
        reqs := reqs[h := reqs[h].(cancelled := true)];
        assert Tab() == t2.(reqs := t2.reqs[h := t2.reqs[h].(cancelled := true)]);
      } else {
        DependencyLive(reqs, h);
        DequeueOthers(reqs, running, h, out, true);
        UnlinkAndFree(h);
        assert Tab() == Drop(Dequeue(t2, h), h);
      }
      assert Tab() == CancelAll(t0, h, err, out);
    }

    /** A waiting request leaves the dependents of its dependency and its queue, and is freed. */
    method UnlinkAndFree(h: Handle)
      requires h in reqs
      requires reqs[h].dependency.Some? ==> reqs[h].dependency.value in reqs && reqs[h].dependency.value != h
      requires running[reqs[h].rtype := Without(running[reqs[h].rtype], {h})] == running
      modifies this`reqs, this`waiting
      ensures Tab() == Drop(Dequeue(old(Tab()), h), h)
    {
      var r := reqs[h];
      if r.dependency.Some? {
        var d := r.dependency.value;
        reqs := reqs[d := reqs[d].(dependents := Without(reqs[d].dependents, {h}))];
      }
      waiting := waiting[r.rtype := Without(waiting[r.rtype], {h})];
      reqs := reqs - {h};
      assert reqs == Unlink(old(reqs), h) - {h};
    }

    /** The table as it is once h has been taken off the processing queue. */
    ghost function TabWithout(h: Handle): Table
      requires h in reqs
      reads this
    {
      Tab().(running := running[reqs[h].rtype := Without(running[reqs[h].rtype], {h})])
    }

    method RequestFailed(h: Handle, err: ErrorType)
      requires h in reqs && Core(TabWithout(h), {h})
      modifies this`reqs, this`waiting, this`running, this`sent, this`next
      ensures Core(Tab(), {}) && Tab() == FailInHand(old(TabWithout(h)), h, err)
    {
      hide QueuesOk, LinksOk, Unqueued, Below;
      ghost var t0 := TabWithout(h);
      AnswerWaiters(h, Failed(err));
      running := running[reqs[h].rtype := Without(running[reqs[h].rtype], {h})];
      ghost var t1 := AnswerAll(t0, h, Failed(err));
      assert Tab() == t1;
      SameShapeCore(t0, t1.reqs, t1.sent, {h});
      DependentsCancel(h, err, {h});
      reqs := reqs - {h};
      assert Tab() == Drop(CancelDependents(t1, h, err, {h}), h);
      assert Tab() == GiveUp(t1, h, err);
      assert Tab() == FailInHand(t0, h, err);
    }

    method WaiterAdd(h: Handle, client: Client, rid: nat)
      requires Inv(St()) && h in reqs
      modifies this`reqs
      ensures Inv(St()) && Tab() == Attach(old(Tab()), h, Waiter(client, rid))
    {
      AttachCore(Tab(), h, Waiter(client, rid));
      SameRunningQueues(Tab(), Attach(Tab(), h, Waiter(client, rid)), Slaves());
      reqs := reqs[h := reqs[h].(waiters := reqs[h].waiters + [Waiter(client, rid)])];
    }

    /** The first request of the list that is about `data`. */
    method Search(q: seq<Handle>, data: nat) returns (r: Option<Handle>)
      requires forall h :: h in q ==> h in reqs
      ensures r == FindIn(reqs, q, data)
    {
      var i := 0;
      while i < |q|
        invariant i <= |q| && FindIn(reqs, q[i..], data) == FindIn(reqs, q, data)
      {
        if reqs[q[i]].data == data {
          return Some(q[i]);
        }
        assert q[i..][1..] == q[i + 1..];
        i := i + 1;
      }
      return None;
    }

    /** The request for `data`, found or created, and locked if it depends on another. */
    method Obtained(t: RequestType, dep: Option<Handle>, data: nat) returns (h: Handle)
      requires Core(Tab(), {}) && AddOk(Tab(), t, dep, data)
      modifies this`reqs, this`waiting, this`next
      ensures (Tab(), h) == Obtain(old(Tab()), t, dep, data)
    {
      hide QueuesOk, LinksOk;
      ghost var t0 := Tab();
      Members(t0, t);
      var req := Search(running[t], data);
      if req == None {
        req := Search(waiting[t], data);
      }
      assert req == Find(t0, t, data);
      NewRequestCore(t0, t, data);
      if req == None {
        h := next;
        reqs := reqs[h := Request(t, data, [], false, None, [], false, false)];
        waiting := waiting[t := waiting[t] + [h]];
        next := next + 1;
      } else {
        h := req.value;
      }
      if dep.Some? && reqs[h].dependency.None? {
        LockedIffDependent(Tab(), h);
        var d := dep.value;
        reqs := reqs[h := reqs[h].(locked := true, dependency := Some(d))];
        reqs := reqs[d := reqs[d].(dependents := reqs[d].dependents + [h])];
      }
    }

    /** cserve2_request_add, with what the system does during the pass it triggers. */
    method RequestAdd(t: RequestType, rid: nat, client: Option<Client>, dep: Option<Handle>, data: nat, env: Env)
      returns (h: Handle)
      requires Inv(St()) && AddOk(Tab(), t, dep, data)
      modifies this
      ensures Inv(St()) && St() == Step(old(St()), Add(t, rid, client, dep, data, env))
      ensures h == Obtain(old(Tab()), t, dep, data).1
    {
      hide QueuesOk, LinksOk, PoolsOk, Obtain, Find, Process;
      ghost var s0 := St();
      ghost var e := Add(t, rid, client, dep, data, env);
      h := Obtained(t, dep, data);
      if client.Some? && rid != 0 {
        reqs := reqs[h := reqs[h].(waiters := reqs[h].waiters + [Waiter(client.value, rid)])];
      }
      assert Tab() == Added(s0.tab, e);
      SameRunningQueues(s0.tab, Tab(), Slaves());
      RequestsProcess(env);
    }

    method TypeChange(h: Handle, t: RequestType)
      requires Inv(St()) && h in reqs && TypeSetOk(Tab(), h, t)
      modifies this`reqs, this`waiting
      ensures Inv(St()) && St() == Step(old(St()), SetType(h, t))
    {
      hide QueuesOk, LinksOk, PoolsOk;
      TypeSetCore(Tab(), h, t);
      SameRunningQueues(Tab(), TypeSet(Tab(), h, t), Slaves());
      if reqs[h].processing || t == reqs[h].rtype {
        return;
      }
      var from := reqs[h].rtype;
      reqs := reqs[h := reqs[h].(rtype := t)];
      waiting := waiting[from := Without(waiting[from], {h})];
      waiting := waiting[t := waiting[t] + [h]];
    }

    /** Walks the waiters of h; those of one client are answered and unlinked. */
    method AnswerWaitersOf(h: Handle, client: Client, o: Outcome)
      requires h in reqs
      modifies this`reqs, this`sent
      ensures Tab() == AnswerClient(old(Tab()), h, client, o)
    {
      hide Of, NotOf, Replies;
      var r := reqs[h];
      var ws := r.waiters;
      var kept: seq<Waiter> := [];
      var i := 0;
      WalkStart(ws, client);
      NoReplies(o);
      assert reqs == reqs[h := r.(waiters := ws)] && sent + [] == sent;
      while i < |ws|
        invariant i <= |ws| && kept == NotOf(ws[..i], client)
        invariant reqs == old(reqs)[h := r.(waiters := kept + ws[i..])]
        invariant sent == old(sent) + Replies(Of(ws[..i], client), o)
      {
        WalkStep(ws, i, client, o);
        if ws[i].client == client {
          ReplyNext(old(sent), Replies(Of(ws[..i], client), o), Reply(ws[i], o));
          sent := sent + [Reply(ws[i], o)];
          UpdateTwice(old(reqs), h, r.(waiters := kept + ws[i..]), r.(waiters := kept + ws[i + 1..]));
          reqs := reqs[h := r.(waiters := kept + ws[i + 1..])];
        } else {
          KeepNext(kept, ws, i);
          kept := kept + [ws[i]];
        }
        i := i + 1;
      }
      assert ws[..i] == ws && kept + ws[i..] == kept;
    }

    /** A waiting request leaves its queue and the dependents of its dependency. */
    method UnlinkForGood(h: Handle)
      requires h in reqs
      requires reqs[h].dependency.Some? ==> reqs[h].dependency.value in reqs
      requires Without(running[reqs[h].rtype], {h}) == running[reqs[h].rtype]
      modifies this`reqs, this`waiting
      ensures Tab() == Dequeue(old(Tab()), h)
    {
      var r := reqs[h];
      waiting := waiting[r.rtype := Without(waiting[r.rtype], {h})];
      if r.dependency.Some? {
        var d := r.dependency.value;
        reqs := reqs[d := reqs[d].(dependents := Without(reqs[d].dependents, {h}))];
      }
      reqs := reqs[h := reqs[h].(dependency := None, locked := false)];
    }

    /** cserve2_request_cancel */
    method RequestCancel(h: Handle, client: Client, err: ErrorType)
      requires Inv(St()) && h in reqs
      modifies this
      ensures Inv(St()) && St() == Step(old(St()), Cancel(h, client, err))
    {
      hide QueuesOk, LinksOk, PoolsOk, Unqueued, Below, Of, NotOf;
      ghost var s0 := St();
      AnswerWaitersOf(h, client, Failed(err));
      SameShapeCore(s0.tab, reqs, sent, {});
      AfterAnswer(h, client, err, s0.tab);
      assert Tab() == CancelFor(s0.tab, h, client, err);
      SameRunningQueues(s0.tab, Tab(), Slaves());
    }

    /** What becomes of a request that has lost the waiters of one client. */
    method AfterAnswer(h: Handle, ghost client: Client, err: ErrorType, ghost t0: Table)
      requires Core(t0, {}) && h in t0.reqs
      requires Core(Tab(), {}) && h in reqs && Tab() == AnswerClient(t0, h, client, Failed(err))
      modifies this`reqs, this`waiting, this`running, this`sent, this`next
      ensures Tab() == CancelFor(t0, h, client, err)
    {
      hide QueuesOk, LinksOk, Unqueued, Below, Of, NotOf;
      ghost var t1 := Tab();
      if reqs[h].waiters == [] && !reqs[h].processing {
        TakeOff(t1, h);
        NotRunning(t1, h);
        UnlinkForGood(h);
        DependentsCancel(h, err, {h});
        reqs := reqs - {h};
        assert Tab() == GiveUp(Dequeue(t1, h), h, err);
      } else if reqs[h].waiters == [] {
        reqs := reqs[h := reqs[h].(cancelled := true)];
        assert Tab() == t1.(reqs := t1.reqs[h := t1.reqs[h].(cancelled := true)]);
      }
    }

    /** cserve2_request_cancel_all */
    method RequestCancelAll(h: Handle, err: ErrorType)
      requires Inv(St()) && h in reqs
      modifies this`reqs, this`waiting, this`running, this`sent, this`next
      ensures Inv(St()) && St() == Step(old(St()), Event.CancelEvery(h, err))
    {
      hide QueuesOk, LinksOk, PoolsOk;
      ghost var t0 := Tab();
      CancelEvery(h, err, {});
      SameRunningQueues(t0, Tab(), Slaves());
    }

    /** A processing request leaves its queue, unlocks its dependents and is freed. */
    method RetireRequest(h: Handle)
      requires Core(Tab(), {}) && h in reqs && reqs[h].processing
      modifies this`reqs, this`running
      ensures Tab() == Retire(old(Tab()), h)
    {
      hide QueuesOk, LinksOk, Unlocked;
      ghost var t1 := Tab();
      TakeOff(t1, h);
      NotWaiting(t1, h);
      running := running[reqs[h].rtype := Without(running[reqs[h].rtype], {h})];
      assert reqs == Unlink(reqs, h);
      assert Tab() == Dequeue(t1, h);
      while reqs[h].dependents != []
        invariant Core(Tab(), {h}) && h in reqs
        invariant Release(Tab(), h) == Release(Dequeue(t1, h), h)
        decreases |reqs[h].dependents|
      {
        FirstDependent(reqs, h);
        OrphanCore(Tab(), h, {h});
        ghost var was := reqs;
        var d := reqs[h].dependents[0];
        reqs := reqs[h := reqs[h].(dependents := reqs[h].dependents[1..])];
        reqs := reqs[d := reqs[d].(locked := false, dependency := None)];
        assert reqs == Orphan(was, h);
      }
      reqs := reqs - {h};
    }

    /** A processing request ends: its waiters, unless it was cancelled, get outcome o. */
    method Complete(h: Handle, o: Outcome)
      requires Core(Tab(), {}) && h in reqs && reqs[h].processing
      modifies this`reqs, this`running, this`sent
      ensures Tab() == Finish(old(Tab()), h, o)
    {
      hide QueuesOk, LinksOk, Unlocked;
      ghost var t0 := Tab();
      if !reqs[h].cancelled {
        AnswerWaiters(h, o);
        SameShapeCore(t0, reqs, sent, {});
      }
      RetireRequest(h);
    }

    /** _slave_read_cb */
    method SlaveRead(w: Worker, o: Outcome, env: Env)
      requires Inv(St()) && w in job
      modifies this
      ensures Inv(St()) && St() == Step(old(St()), Answer(w, o, env))
    {
      hide QueuesOk, LinksOk, PoolsOk, Unlocked, Process, Serves, Finish;
      ghost var s0 := St();
      WorkerDone(s0, w);
      var h := job[w];
      var k := PoolOf(reqs[h].rtype);
      Complete(h, o);
      job := job - {w};
      working := working[k := Without(working[k], {w})];
      idle := idle[k := idle[k] + [w]];
      assert St() == Returned(s0, w, o);
      RequestsProcess(env);
    }

    /** _slave_dead_cb, for a slave that was working on a request. */
    method SlaveDead(w: Worker)
      requires Inv(St()) && w in job
      modifies this
      ensures Inv(St()) && St() == Step(old(St()), Death(w))
    {
      hide QueuesOk, LinksOk, PoolsOk, Unqueued, Below, Serves, Fail, FailInHand;
      ghost var s0 := St();
      WorkerDone(s0, w);
      var h := job[w];
      var k := PoolOf(reqs[h].rtype);
      TakeOff(s0.tab, h);
      NotWaiting(s0.tab, h);
      assert Unlink(reqs, h) == reqs;
      assert TabWithout(h) == Dequeue(s0.tab, h);
      FailIs(s0.tab, h, LOADER_DIED);
      RequestFailed(h, LOADER_DIED);
      working := working[k := Without(working[k], {w})];
      job := job - {w};
      assert St() == Died(s0, w);
    }

    /** The row of the table for a request type. */
    method MatchFor(t: RequestType) returns (j: nat)
      ensures j < |REQUEST_MATCH| && REQUEST_MATCH[j].rtype == t
      ensures REQUEST_MATCH[j].stype == PoolOf(t) && REQUEST_MATCH[j].requireSpares == Spares(t)
    {
      j := 0;
      MatchRow(0);
      while REQUEST_MATCH[j].rtype != t
        invariant j <= t && REQUEST_MATCH[j].rtype == j
        invariant REQUEST_MATCH[j].stype == PoolOf(j) && REQUEST_MATCH[j].requireSpares == Spares(j)
        decreases t - j
      {
        j := j + 1;
        MatchRow(j);
      }
    }

    /** _cserve2_requests_process */
    method RequestsProcess(env: Env)
      requires Inv(St())
      modifies this
      ensures Inv(St()) && St() == Process(old(St()), env)
    {
      hide Inv, Sweep;
      for t := 0 to REQ_LAST
        invariant Inv(St()) && ProcessFrom(St(), env, t) == ProcessFrom(old(St()), env, 0)
      {
        var j := MatchFor(t);
        SweepQueue(t, REQUEST_MATCH[j].stype, REQUEST_MATCH[j].requireSpares, env);
      }
    }

    /** The walk over one waiting queue; the successor saved before each step is still linked after it. */
    method SweepQueue(t: RequestType, k: SlaveType, spares: nat, env: Env)
      requires Inv(St()) && k == PoolOf(t) && spares == Spares(t)
      modifies this
      ensures Inv(St()) && St() == Sweep(old(St()), t, env, 0)
    {
      hide QueuesOk, LinksOk, PoolsOk, Dispatch;
      var i := 0;
      while i < |waiting[t]|
        invariant Inv(St()) && i <= |waiting[t]|
        invariant Sweep(St(), t, env, i) == Sweep(old(St()), t, env, 0)
        decreases |waiting[t]| - i
      {
        if MaxWorkers(k) - spares <= |working[k]| {
          return;
        }
        var req := waiting[t][i];
        WaitingAt(Tab(), t, i);
        var successor := if i + 1 < |waiting[t]| then Some(waiting[t][i + 1]) else None;
        if reqs[req].locked {
          i := i + 1;
        } else {
          ghost var s0 := St();
          DispatchCuts(s0, t, i, env);
          HandOver(req, env);
          assert successor == if i < |waiting[t]| then Some(waiting[t][i]) else None;
        }
      }
    }

    /** One request of a pass: moved to the processing queue, then sent to a slave or failed. */
    method HandOver(h: Handle, env: Env)
      requires Inv(St()) && Ready(St(), h)
      modifies this
      ensures Inv(St()) && St() == Dispatch(old(St()), h, env)
    {
      hide QueuesOk, LinksOk, PoolsOk, Unqueued, Below, Fail, FailInHand, Dispatch;
      ghost var s0 := St();
      DispatchIs(s0, h, env);
      var t := reqs[h].rtype;
      var k := PoolOf(t);
      waiting := waiting[t := Without(waiting[t], {h})];
      running := running[t := running[t] + [h]];
      if idle[k] == [] && h in env.spawns {
        idle := idle[k := idle[k] + [nextWorker]];
        nextWorker := nextWorker + 1;
      }
      assert Slaves() == Staffed(s0.pools, k, h, env);
      if idle[k] == [] || h !in env.builds {
        HandOverFails(s0.tab, h);
        assert TabWithout(h) == Dequeue(s0.tab, h);
        FailIs(s0.tab, h, GENERIC);
        RequestFailed(h, GENERIC);
      } else {
        var sw := idle[k][0];
        job := job[sw := h];
        reqs := reqs[h := reqs[h].(processing := true)];
        idle := idle[k := idle[k][1..]];
        working := working[k := working[k] + [sw]];
        assert Tab() == StartTable(s0.tab, h);
        assert Slaves() == StartPool(Staffed(s0.pools, k, h, env), k, h);
      }
      assert St() == Dispatch(s0, h, env);
    }
  }

  lemma CancelNone(tab: Table, h: Handle, err: ErrorType, out: set<Handle>)
    requires Core(tab, out) && h in tab.reqs
    ensures tab.reqs[h].dependents == [] ==> CancelDependents(tab, h, err, out) == tab
  {}

  /** One round of the loop over the dependents. */
  lemma CancelNext(tab: Table, h: Handle, err: ErrorType, out: set<Handle>)
    requires Core(tab, out) && h in tab.reqs && tab.reqs[h].dependents != []
    ensures var d := tab.reqs[h].dependents[0];
            && d in tab.reqs && d != h && d !in out && tab.reqs[h].rtype < tab.reqs[d].rtype
            && var t1 := tab.(reqs := Orphan(tab.reqs, h));
               && Core(t1, out) && d in t1.reqs && t1.reqs[d].rtype == tab.reqs[d].rtype
               && var t2 := CancelAll(t1, d, err, out);
                  && h in t2.reqs && t2.reqs[h].rtype == tab.reqs[h].rtype
                  && |t2.reqs[h].dependents| < |tab.reqs[h].dependents|
                  && CancelDependents(tab, h, err, out) == CancelDependents(t2, h, err, out)
  {
    hide QueuesOk, LinksOk;
    FirstDependent(tab.reqs, h);
    OrphanCore(tab, h, out);
    var t2 := CancelAll(tab.(reqs := Orphan(tab.reqs, h)), tab.reqs[h].dependents[0], err, out);
    OrphanStays(tab.reqs, h, t2.reqs);
  }

  lemma DispatchIs(s: State, h: Handle, env: Env)
    requires Inv(s) && Ready(s, h)
    ensures var k := PoolOf(s.tab.reqs[h].rtype);
            var p := Staffed(s.pools, k, h, env);
            && s.tab.reqs[h].dependency.None?
            && (Starts(s.pools, k, h, env) <==> p.idle[k] != [] && h in env.builds)
            && Dispatch(s, h, env) == if Starts(s.pools, k, h, env) then State(StartTable(s.tab, h), StartPool(p, k, h))
                                      else State(Fail(s.tab, h, GENERIC), p)
  {
    hide QueuesOk, LinksOk, PoolsOk, Fail;
    LockedIffDependent(s.tab, h);
  }

  lemma FailIs(tab: Table, h: Handle, err: ErrorType)
    requires Core(tab, {}) && h in tab.reqs && tab.reqs[h].dependency.None?
    ensures Core(Dequeue(tab, h), {h}) && Fail(tab, h, err) == FailInHand(Dequeue(tab, h), h, err)
  {
    hide QueuesOk, LinksOk;
    TakeOff(tab, h);
  }

  lemma NoReplies(o: Outcome)
    ensures Replies([], o) == []
  {}

  lemma ReplyNext(sent: seq<Reply>, rs: seq<Reply>, r: Reply)
    ensures sent + (rs + [r]) == sent + rs + [r]
  {}

  lemma KeepNext(kept: seq<Waiter>, ws: seq<Waiter>, i: nat)
    requires i < |ws|
    ensures kept + ws[i..] == kept + [ws[i]] + ws[i + 1..]
  {}

  lemma UpdateTwice(reqs: Heap, h: Handle, a: Request, b: Request)
    ensures reqs[h := a][h := b] == reqs[h := b]
  {}

  lemma WalkStart(ws: seq<Waiter>, client: Client)
    ensures NotOf(ws[..0], client) == [] && Of(ws[..0], client) == [] && [] + ws[0..] == ws
  {}

  lemma WalkStep(ws: seq<Waiter>, i: nat, client: Client, o: Outcome)
    requires i < |ws|
    ensures ws[i].client == client ==>
              && NotOf(ws[..i + 1], client) == NotOf(ws[..i], client)
              && Replies(Of(ws[..i + 1], client), o) == Replies(Of(ws[..i], client), o) + [Reply(ws[i], o)]
    ensures ws[i].client != client ==>
              && NotOf(ws[..i + 1], client) == NotOf(ws[..i], client) + [ws[i]]
              && Of(ws[..i + 1], client) == Of(ws[..i], client)
  {
    assert ws[..i + 1][..i] == ws[..i];
  }

  /** Row t of the table is about request type t. */
  lemma MatchRow(t: RequestType)
    ensures REQUEST_MATCH[t] == RequestMatch(t, PoolOf(t), Spares(t))
  {
    if t == IMAGE_OPEN {
    } else if t == IMAGE_LOAD {
    } else if t == IMAGE_SPEC_LOAD {
    } else if t == FONT_LOAD {
    } else {
    }
  }

  /** The lists of one type hold live requests. */
  lemma Members(tab: Table, t: RequestType)
    requires Core(tab, {})
    ensures forall x :: x in tab.running[t] || x in tab.waiting[t] ==> x in tab.reqs
  {}

  lemma NotWaiting(tab: Table, h: Handle)
    requires Core(tab, {}) && h in tab.reqs && tab.reqs[h].processing
    ensures Without(tab.waiting[tab.reqs[h].rtype], {h}) == tab.waiting[tab.reqs[h].rtype]
    ensures tab.reqs[h].dependency.None? && !tab.reqs[h].locked
  {
    assert h !in tab.waiting[tab.reqs[h].rtype];
    WithoutNone(tab.waiting[tab.reqs[h].rtype], {h});
    LockedIffDependent(tab, h);
  }

  /** Appending an unlocked request to the processing queue and unlinking it again leaves it in hand. */
  lemma HandOverFails(tab: Table, h: Handle)
    requires Core(tab, {}) && h in tab.reqs && !tab.reqs[h].processing && !tab.reqs[h].locked
    ensures tab.reqs[h].dependency.None? && Unlink(tab.reqs, h) == tab.reqs
    ensures Core(Dequeue(tab, h), {h})
    ensures var q := tab.running[tab.reqs[h].rtype];
            Without(q + [h], {h}) == q && Without(q, {h}) == q
  {
    var q := tab.running[tab.reqs[h].rtype];
    LockedIffDependent(tab, h);
    TakeOff(tab, h);
    NotRunning(tab, h);
    assert h !in q;
    WithoutLast(q, h);
  }

  lemma {:induction false} WithoutLast(q: seq<Handle>, h: Handle)
    requires h !in q
    ensures Without(q + [h], {h}) == q
  {
    if q == [] {
      assert [] + [h] == [h] && [h][1..] == [];
    } else {
      assert (q + [h])[1..] == q[1..] + [h];
      WithoutLast(q[1..], h);
    }
  }
}
