/**
 Work conservation over runs of the cserve2 scheduler: when a request that could be worked on
 waits although a slave may take it.
 */
module Settling {
  import opened Lists
  import opened RequestTable
  import opened RequestOps
  import opened Scheduler
  import opened Runs

  /** Every unlocked request that waits has its pool at the limit of its type. */
  ghost predicate AllSettled(s: State) {
    forall t: RequestType :: Settled(s, t)
  }

  /** Nothing new waits, and what waits is as locked as before. */
  ghost predicate NoneUnlocked(tab: Table, tab': Table) {
    forall t: RequestType, h {:trigger h in tab'.waiting[t]} :: h in tab'.waiting[t] ==>
      && h in tab.waiting[t] && h in tab'.reqs
      && (h in tab.reqs && tab.reqs[h].locked ==> tab'.reqs[h].locked)
  }

  lemma StaysSettled(s: State, tab': Table)
    requires AllSettled(s) && NoneUnlocked(s.tab, tab')
    ensures AllSettled(State(tab', s.pools))
  {
    forall t: RequestType ensures Settled(State(tab', s.pools), t) {
      assert Settled(s, t);
      forall h | h in tab'.waiting[t]
        ensures h in tab'.reqs && (tab'.reqs[h].locked || Limit(t) <= |s.pools.working[PoolOf(t)]|)
      {
        assert h in s.tab.waiting[t];
      }
    }
  }

  lemma WaitingAreLive(tab: Table, out: set<Handle>)
    requires Core(tab, out)
    ensures forall t: RequestType, h {:trigger h in tab.waiting[t]} :: h in tab.waiting[t] ==> h in tab.reqs
  {}

  lemma AttachQuiet(tab: Table, h: Handle, w: Waiter)
    requires Core(tab, {}) && h in tab.reqs
    ensures NoneUnlocked(tab, Attach(tab, h, w))
  {
    WaitingAreLive(tab, {});
    hide Core;
  }

  lemma CancelForQuiet(tab: Table, h: Handle, client: Client, err: ErrorType)
    requires Core(tab, {}) && h in tab.reqs
    ensures NoneUnlocked(tab, CancelFor(tab, h, client, err))
  {
    hide QueuesOk, LinksOk, Below;
    WaitingAreLive(tab, {});
    var t1 := AnswerClient(tab, h, client, Failed(err));
    SameShapeCore(tab, t1.reqs, t1.sent, {});
    var t' := CancelFor(tab, h, client, err);
    WaitingAreLive(t', {});
    if t1.reqs[h].waiters == [] && !t1.reqs[h].processing {
      TakeOff(t1, h);
      UnqueuedShrinks(Dequeue(t1, h), t', Below(Dequeue(t1, h).reqs, h) - {h});
      DequeueShrinks(t1, h);
    }
  }

  lemma UnqueuedShrinks(tab: Table, tab': Table, gone: set<Handle>)
    requires Unqueued(tab, tab', gone)
    ensures forall t: RequestType, h {:trigger h in tab'.waiting[t]} :: h in tab'.waiting[t] ==> h in tab.waiting[t]
  {}

  lemma DequeueShrinks(tab: Table, h: Handle)
    requires h in tab.reqs && (tab.reqs[h].dependency.Some? ==> tab.reqs[h].dependency.value in tab.reqs)
    ensures var t1 := Dequeue(tab, h);
            && (forall t: RequestType, x {:trigger x in t1.waiting[t]} :: x in t1.waiting[t] ==> x in tab.waiting[t])
            && (forall x {:trigger t1.reqs[x]} :: x in t1.reqs && x != h ==> x in tab.reqs && t1.reqs[x].locked == tab.reqs[x].locked)
  {}

  lemma CancelAllQuiet(tab: Table, h: Handle, err: ErrorType)
    requires Core(tab, {}) && h in tab.reqs
    ensures NoneUnlocked(tab, CancelAll(tab, h, err, {}))
  {
    hide QueuesOk, Cancelled;
    WaitingAreLive(tab, {});
    var t' := CancelAll(tab, h, err, {});
    WaitingAreLive(t', {});
    UnqueuedShrinks(tab, t', Cancelled(tab.reqs, h));
    forall t: RequestType, x | x in t'.waiting[t] && tab.reqs[x].locked ensures t'.reqs[x].locked {
      assert LockOk(tab.reqs, x);
    }
  }

  // ----- events ---------------------------------------------------------------------

  /** The events that end in a scheduling pass. */
  predicate Passes(e: Event) {
    e.Add? || e.Answer?
  }

  /** A slave gone is a free place, and a request may come to a type that has one. */
  predicate Unsettles(e: Event) {
    e.Death? || e.SetType?
  }

  lemma StepSettles(s: State, e: Event)
    requires Inv(s) && Enabled(s, e)
    ensures Passes(e) || (AllSettled(s) && !Unsettles(e)) ==> AllSettled(Step(s, e))
  {
    hide QueuesOk, LinksOk, PoolsOk, Settled, Process;
    match e
    case Add(t, rid, client, dep, data, env) =>
      var tab' := Added(s.tab, e);
      SameRunningQueues(s.tab, tab', s.pools);
      ProcessSettles(State(tab', s.pools), env);
    case AddWaiter(h, rid, client) =>
      AttachQuiet(s.tab, h, Waiter(client, rid));
      if AllSettled(s) { StaysSettled(s, Attach(s.tab, h, Waiter(client, rid))); }
    case SetType(h, t) =>
    case Cancel(h, client, err) =>
      CancelForQuiet(s.tab, h, client, err);
      if AllSettled(s) { StaysSettled(s, CancelFor(s.tab, h, client, err)); }
    case CancelEvery(h, err) =>
      CancelAllQuiet(s.tab, h, err);
      if AllSettled(s) { StaysSettled(s, CancelAll(s.tab, h, err, {})); }
    case Answer(w, o, env) => ProcessSettles(Returned(s, w, o), env);
    case Death(w) =>
  }

  // ----- runs -----------------------------------------------------------------------

  /** Whether, at the end, no event has unsettled the queues since the last pass. */
  predicate Calm(es: seq<Event>, calm: bool) {
    if es == [] then calm else Calm(es[1..], Passes(es[0]) || (calm && !Unsettles(es[0])))
  }

  lemma {:induction false} RunSettles(s: State, es: seq<Event>, calm: bool)
    requires Inv(s) && Legal(s, es) && (calm ==> AllSettled(s)) && Calm(es, calm)
    ensures AllSettled(Final(s, es))
    decreases |es|
  {
    hide Inv, Enabled, Step, AllSettled, Passes, Unsettles;
    if es != [] {
      StepSettles(s, es[0]);
      RunSettles(Step(s, es[0]), es[1..], Passes(es[0]) || (calm && !Unsettles(es[0])));
    }
  }

  /**
   Over every run of the server: unless a slave has died or a request has changed its type since
   the last scheduling pass, every unlocked request that waits has its pool at the limit.
   */
  lemma WorkConserving(es: seq<Event>)
    requires Inv(START) && Legal(START, es) && Calm(es, true)
    ensures AllSettled(Final(START, es))
  {
    assert AllSettled(START);
    RunSettles(START, es, true);
  }
}
