/**
 The pool of preload threads: the queue of jobs and the thread count behind one mutex, the
 pipe of finished events, and all interleavings of the worker threads with the main thread.
 Every action is one critical section, one callback or one write to the pipe.
 */
module PreloadPool {
  import opened Lists

  type JobId = nat
  type ThreadId = nat

  /** Where a job is: in the queue, with a thread, heavy part done, in the pipe, or freed. */
  datatype Stage = Queued | Taken(taker: ThreadId) | Heavied(taker: ThreadId) | Posted | Freed

  /** The work item with its cancel flag, and how often each of its callbacks has been called. */
  datatype Job = Job(stage: Stage, cancel: bool, heavies: nat, ends: nat, cancels: nat)

  /** A worker at the top of its loop, with a job, on its way out, or past the count. */
  datatype Thread = AtTop | Working(job: JobId) | Posting(job: JobId) | Leaving | Left | Gone

  /** The main thread, or the part of evas_preload_thread_run it is in. */
  datatype Main = Idle | Spawning | Counting

  datatype Message = JobDone(job: JobId) | ThreadEnd(thread: ThreadId)

  datatype State = State(
    workers: seq<JobId>,
    count: int,
    max: nat,
    jobs: map<JobId, Job>,
    threads: map<ThreadId, Thread>,
    main: Main,
    pipe: seq<Message>,
    nextJob: JobId,
    nextThread: ThreadId)

  datatype Action =
    | Run                       // evas_preload_thread_run: the job is queued
    | Spawn                     // pthread_create
    | CountUp                   // the new thread is counted
    | Cancel(job: JobId)        // evas_preload_thread_cancel
    | Process                   // one event of evas_async_events_process
    | Take(thread: ThreadId)    // lock; pop a job or leave the loop
    | Heavy(thread: ThreadId)   // func_heavy
    | Post(thread: ThreadId)    // evas_async_events_put of the job
    | Exit(thread: ThreadId)    // lock; start over or uncount
    | PostEnd(thread: ThreadId) // evas_async_events_put of the thread's own end

  function Start(max: nat): State {
    State([], 0, max, map[], map[], Idle, [], 0, 0)
  }

  predicate Alive(x: Thread) {
    x != Left && x != Gone
  }

  function AliveSet(threads: map<ThreadId, Thread>): set<ThreadId> {
    set t | t in threads && Alive(threads[t])
  }

  predicate Unfinished(j: Job) {
    j.stage != Freed
  }

  predicate Enabled(s: State, a: Action) {
    match a
    case Run => s.main == Idle
    case Spawn => s.main == Spawning
    case CountUp => s.main == Counting
    case Cancel(j) => s.main == Idle && j in s.jobs && Unfinished(s.jobs[j])
    case Process => s.main == Idle && s.pipe != []
    case Take(t) => t in s.threads && s.threads[t] == AtTop
    case Heavy(t) => t in s.threads && s.threads[t].Working?
    case Post(t) => t in s.threads && s.threads[t].Posting?
    case Exit(t) => t in s.threads && s.threads[t] == Leaving
    case PostEnd(t) => t in s.threads && s.threads[t] == Left
  }

  /** The jobs and their places agree, and the callback counts fit the place. */
  ghost predicate JobOk(s: State, j: JobId)
    requires j in s.jobs
  {
    var b := s.jobs[j];
    && j < s.nextJob
    && (match b.stage
        case Queued => !b.cancel && b.heavies == 0 && b.ends == 0 && b.cancels == 0
        case Taken(t) => t in s.threads && s.threads[t] == Working(j) && b.heavies == 0 && b.ends == 0 && b.cancels == 0
        case Heavied(t) => t in s.threads && s.threads[t] == Posting(j) && b.heavies == 1 && b.ends == 0 && b.cancels == 0
        case Posted => JobDone(j) in s.pipe && b.heavies == 1 && b.ends == 0 && b.cancels == 0
        case Freed => b.heavies <= 1 && b.ends + b.cancels == 1 && (b.ends == 1 ==> b.heavies == 1 && !b.cancel))
  }

  ghost predicate ThreadOk(s: State, t: ThreadId)
    requires t in s.threads
  {
    && t < s.nextThread
    && (match s.threads[t]
        case Working(j) => j in s.jobs && s.jobs[j].stage == Taken(t)
        case Posting(j) => j in s.jobs && s.jobs[j].stage == Heavied(t)
        case _ => true)
  }

  ghost predicate PlacesOk(s: State) {
    && NoDup(s.workers) && NoDup(s.pipe)
    && (forall j {:trigger j in s.workers} :: j in s.workers <==> j in s.jobs && s.jobs[j].stage == Queued)
    && (forall j {:trigger JobDone(j) in s.pipe} :: JobDone(j) in s.pipe ==> j in s.jobs && s.jobs[j].stage == Posted)
    && (forall t {:trigger ThreadEnd(t) in s.pipe} :: ThreadEnd(t) in s.pipe ==> t in s.threads && s.threads[t] == Gone)
    && (forall j {:trigger JobOk(s, j)} :: j in s.jobs ==> JobOk(s, j))
    && (forall t {:trigger ThreadOk(s, t)} :: t in s.threads ==> ThreadOk(s, t))
  }

  /** The live threads are the counted ones and the one about to be counted, and never too many. */
  ghost predicate CountOk(s: State) {
    var alive := |AliveSet(s.threads)|;
    && 1 <= s.max
    && s.count == alive - (if s.main == Counting then 1 else 0)
    && alive <= s.max
    && (s.main == Spawning ==> alive < s.max)
    && (s.workers != [] ==> 0 < alive || s.main == Spawning)
  }

  ghost predicate Inv(s: State) {
    PlacesOk(s) && CountOk(s)
  }

  function Next(s: State, a: Action): State
    requires Enabled(s, a)
    requires a.Take? && s.workers != [] ==> s.workers[0] in s.jobs
    requires a.Heavy? ==> s.threads[a.thread].job in s.jobs
    requires a.Post? ==> s.threads[a.thread].job in s.jobs
    requires a.Process? && s.pipe[0].JobDone? ==> s.pipe[0].job in s.jobs
  {
    match a
    case Run =>
      s.(workers := s.workers + [s.nextJob],
         jobs := s.jobs[s.nextJob := Job(Queued, false, 0, 0, 0)],
         nextJob := s.nextJob + 1,
         main := if s.count == s.max then Idle else Spawning)
    case Spawn =>
      s.(threads := s.threads[s.nextThread := AtTop], nextThread := s.nextThread + 1, main := Counting)
    case CountUp =>
      s.(count := s.count + 1, main := Idle)
    case Cancel(j) =>
      if j in s.workers then
        s.(workers := Without(s.workers, {j}),
           jobs := s.jobs[j := s.jobs[j].(stage := Freed, cancels := s.jobs[j].cancels + 1)])
      else
        s.(jobs := s.jobs[j := s.jobs[j].(cancel := true)])
    case Process =>
      (match s.pipe[0]
       case ThreadEnd(t) => s.(pipe := s.pipe[1..])
       case JobDone(j) =>
         var b := s.jobs[j];
         var b' := if b.cancel then b.(stage := Freed, cancels := b.cancels + 1)
                   else b.(stage := Freed, ends := b.ends + 1);
         s.(pipe := s.pipe[1..], jobs := s.jobs[j := b']))
    case Take(t) =>
      if s.workers == [] then s.(threads := s.threads[t := Leaving])
      else
        var j := s.workers[0];
        s.(workers := s.workers[1..],
           jobs := s.jobs[j := s.jobs[j].(stage := Taken(t))],
           threads := s.threads[t := Working(j)])
    case Heavy(t) =>
      var j := s.threads[t].job;
      s.(jobs := s.jobs[j := s.jobs[j].(stage := Heavied(t), heavies := s.jobs[j].heavies + 1)],
         threads := s.threads[t := Posting(j)])
    case Post(t) =>
      var j := s.threads[t].job;
      s.(jobs := s.jobs[j := s.jobs[j].(stage := Posted)],
         threads := s.threads[t := AtTop],
         pipe := s.pipe + [JobDone(j)])
    case Exit(t) =>
      if s.workers != [] then s.(threads := s.threads[t := AtTop])
      else s.(threads := s.threads[t := Left], count := s.count - 1)
    case PostEnd(t) =>
      s.(threads := s.threads[t := Gone], pipe := s.pipe + [ThreadEnd(t)])
  }

  /** The memory each action touches is live. */
  lemma Safe(s: State, a: Action)
    requires PlacesOk(s) && Enabled(s, a)
    ensures a.Take? && s.workers != [] ==> s.workers[0] in s.jobs
    ensures a.Heavy? ==> s.threads[a.thread].job in s.jobs
    ensures a.Post? ==> s.threads[a.thread].job in s.jobs
    ensures a.Process? && s.pipe[0].JobDone? ==> s.pipe[0].job in s.jobs
  {
    if a.Heavy? || a.Post? { assert ThreadOk(s, a.thread); }
    if s.workers != [] { assert s.workers[0] in s.workers; }
    if a.Process? && s.pipe[0].JobDone? { assert JobDone(s.pipe[0].job) in s.pipe; }
  }

  function Step(s: State, a: Action): (s': State)
    requires Inv(s) && Enabled(s, a)
    ensures Inv(s')
  {
    Safe(s, a);
    StepKeepsPlaces(s, a);
    StepKeepsCount(s, a);
    Next(s, a)
  }

  lemma StepKeepsPlaces(s: State, a: Action)
    requires PlacesOk(s) && Enabled(s, a)
    ensures (Safe(s, a); PlacesOk(Next(s, a)))
  {
    Safe(s, a);
    match a
    case Run => RunKeepsPlaces(s);
    case Spawn => FreshThread(s); Unmoved(s, Next(s, a));
    case CountUp => Unmoved(s, Next(s, a));
    case Cancel(j) => CancelKeepsPlaces(s, j);
    case Process => ProcessKeepsPlaces(s);
    case Take(t) => TakeKeepsPlaces(s, t);
    case Heavy(t) => HeavyKeepsPlaces(s, t);
    case Post(t) => PostKeepsPlaces(s, t);
    case Exit(t) => Unmoved(s, Next(s, a));
    case PostEnd(t) => PostEndKeepsPlaces(s, t);
  }

  /** Threads without a job may move among their states, and new ones may appear. */
  lemma Unmoved(s: State, s': State)
    requires PlacesOk(s)
    requires s'.workers == s.workers && s'.pipe == s.pipe && s'.jobs == s.jobs && s'.nextJob == s.nextJob
    requires s.threads.Keys <= s'.threads.Keys && s.nextThread <= s'.nextThread
    requires forall t :: t in s'.threads ==>
               if t in s.threads
               then s'.threads[t] == s.threads[t] ||
                    (!s.threads[t].Working? && !s.threads[t].Posting? && s.threads[t] != Gone
                     && !s'.threads[t].Working? && !s'.threads[t].Posting?)
               else s'.threads[t] == AtTop && t < s'.nextThread
    ensures PlacesOk(s')
  {
    forall j | j in s'.jobs ensures JobOk(s', j) { assert JobOk(s, j); }
    forall t | t in s'.threads ensures ThreadOk(s', t) {
      if t in s.threads { assert ThreadOk(s, t); }
    }
  }

  lemma RunKeepsPlaces(s: State)
    requires PlacesOk(s) && Enabled(s, Run)
    ensures PlacesOk(Next(s, Run))
  {
    var s' := Next(s, Run);
    forall j | j in s.jobs ensures j != s.nextJob { assert JobOk(s, j); }
    assert s.nextJob !in s.workers;
    AppendNoDup(s.workers, s.nextJob);
    forall j | j in s'.jobs ensures JobOk(s', j) {
      if j != s.nextJob { assert JobOk(s, j); }
    }
    forall t | t in s'.threads ensures ThreadOk(s', t) { assert ThreadOk(s, t); }
  }

  lemma CancelKeepsPlaces(s: State, c: JobId)
    requires PlacesOk(s) && Enabled(s, Cancel(c))
    ensures PlacesOk(Next(s, Cancel(c)))
  {
    var s' := Next(s, Cancel(c));
    WithoutNoDup(s.workers, {c});
    assert JobOk(s, c);
    forall j | j in s'.jobs ensures JobOk(s', j) { assert JobOk(s, j); }
    forall t | t in s'.threads ensures ThreadOk(s', t) { assert ThreadOk(s, t); }
  }

  lemma ProcessKeepsPlaces(s: State)
    requires PlacesOk(s) && Enabled(s, Process)
    requires s.pipe[0].JobDone? ==> s.pipe[0].job in s.jobs
    ensures PlacesOk(Next(s, Process))
  {
    var s' := Next(s, Process);
    assert s.pipe[0] in s.pipe;
    assert forall m :: m in s.pipe[1..] ==> m in s.pipe && m != s.pipe[0];
    assert forall m :: m in s.pipe && m != s.pipe[0] ==> m in s.pipe[1..];
    forall j | j in s'.jobs ensures JobOk(s', j) { assert JobOk(s, j); }
    forall t | t in s'.threads ensures ThreadOk(s', t) { assert ThreadOk(s, t); }
  }

  lemma TakeKeepsPlaces(s: State, t: ThreadId)
    requires PlacesOk(s) && Enabled(s, Take(t))
    requires s.workers != [] ==> s.workers[0] in s.jobs
    ensures PlacesOk(Next(s, Take(t)))
  {
    var s' := Next(s, Take(t));
    assert ThreadOk(s, t);
    if s.workers != [] {
      assert s.workers[0] in s.workers;
      assert JobOk(s, s.workers[0]);
      assert forall j :: j in s.workers <==> j == s.workers[0] || j in s.workers[1..];
    }
    forall j | j in s'.jobs ensures JobOk(s', j) { assert JobOk(s, j); }
    forall u | u in s'.threads ensures ThreadOk(s', u) { assert ThreadOk(s, u); }
  }

  lemma HeavyKeepsPlaces(s: State, t: ThreadId)
    requires PlacesOk(s) && Enabled(s, Heavy(t)) && s.threads[t].job in s.jobs
    ensures PlacesOk(Next(s, Heavy(t)))
  {
    var s' := Next(s, Heavy(t));
    assert ThreadOk(s, t) && JobOk(s, s.threads[t].job);
    forall j | j in s'.jobs ensures JobOk(s', j) { assert JobOk(s, j); }
    forall u | u in s'.threads ensures ThreadOk(s', u) { assert ThreadOk(s, u); }
  }

  lemma PostKeepsPlaces(s: State, t: ThreadId)
    requires PlacesOk(s) && Enabled(s, Post(t)) && s.threads[t].job in s.jobs
    ensures PlacesOk(Next(s, Post(t)))
  {
    var s' := Next(s, Post(t));
    var b := s.threads[t].job;
    assert ThreadOk(s, t) && JobOk(s, b);
    assert JobDone(b) !in s.pipe;
    AppendNoDup(s.pipe, JobDone(b));
    forall j | j in s'.jobs ensures JobOk(s', j) { assert JobOk(s, j); }
    forall u | u in s'.threads ensures ThreadOk(s', u) { assert ThreadOk(s, u); }
  }

  lemma PostEndKeepsPlaces(s: State, t: ThreadId)
    requires PlacesOk(s) && Enabled(s, PostEnd(t))
    ensures PlacesOk(Next(s, PostEnd(t)))
  {
    var s' := Next(s, PostEnd(t));
    assert ThreadEnd(t) !in s.pipe;
    AppendNoDup(s.pipe, ThreadEnd(t));
    forall j | j in s'.jobs ensures JobOk(s', j) { assert JobOk(s, j); }
    forall u | u in s'.threads ensures ThreadOk(s', u) { assert ThreadOk(s, u); }
  }

  lemma StepKeepsCount(s: State, a: Action)
    requires Inv(s) && Enabled(s, a)
    ensures (Safe(s, a); CountOk(Next(s, a)))
  {
    hide PlacesOk, AliveSet;
    Safe(s, a);
    match a
    case Run =>
    case Spawn => FreshThread(s); AliveAfter(s.threads, s.nextThread, AtTop);
    case CountUp =>
    case Cancel(j) =>
    case Process =>
    case Take(t) => AliveAfter(s.threads, t, if s.workers == [] then Leaving else Working(s.workers[0]));
    case Heavy(t) => AliveAfter(s.threads, t, Posting(s.threads[t].job));
    case Post(t) => AliveAfter(s.threads, t, AtTop);
    case Exit(t) => AliveAfter(s.threads, t, if s.workers != [] then AtTop else Left);
    case PostEnd(t) => AliveAfter(s.threads, t, Gone);
  }

  /** What a step of one thread does to the live ones. */
  lemma AliveAfter(threads: map<ThreadId, Thread>, t: ThreadId, x: Thread)
    ensures var was := t in threads && Alive(threads[t]);
            |AliveSet(threads[t := x])| == |AliveSet(threads)| - (if was then 1 else 0) + (if Alive(x) then 1 else 0)
  {
    var a, b := AliveSet(threads), AliveSet(threads[t := x]);
    if t in a {
      assert |a - {t}| == |a| - 1;
    } else {
      assert a - {t} == a;
    }
    if Alive(x) {
      assert b == (a - {t}) + {t};
    } else {
      assert b == a - {t};
    }
  }

  lemma FreshThread(s: State)
    requires PlacesOk(s)
    ensures s.nextThread !in s.threads
  {
    forall t | t in s.threads ensures t != s.nextThread { assert ThreadOk(s, t); }
  }

  // ----- runs -----------------------------------------------------------------------

  ghost predicate Legal(s: State, acts: seq<Action>)
    requires Inv(s)
    decreases |acts|
  {
    acts == [] || (Enabled(s, acts[0]) && Legal(Step(s, acts[0]), acts[1..]))
  }

  ghost function After(s: State, acts: seq<Action>): (s': State)
    requires Inv(s) && Legal(s, acts)
    ensures Inv(s')
    decreases |acts|
  {
    if acts == [] then s else After(Step(s, acts[0]), acts[1..])
  }

  lemma StartInv(max: nat)
    requires 1 <= max
    ensures Inv(Start(max))
  {
    assert AliveSet(Start(max).threads) == {};
  }

  /**
   In every interleaving: no more threads than the maximum, no queued job without a thread
   that will look at the queue again, and each job is called back once at most: func_end
   only after its single func_heavy and if it was not cancelled, and always one of func_end
   and func_cancel by the time it is freed.
   */
  lemma EveryInterleaving(max: nat, acts: seq<Action>, j: JobId)
    requires 1 <= max && Inv(Start(max)) && Legal(Start(max), acts)
    requires j in After(Start(max), acts).jobs
    ensures var s := After(Start(max), acts);
            var b := s.jobs[j];
            && |AliveSet(s.threads)| <= s.max
            && (s.workers != [] ==> s.main == Spawning || exists t :: t in s.threads && Alive(s.threads[t]))
            && b.heavies <= 1 && b.ends + b.cancels == (if b.stage == Freed then 1 else 0)
            && (b.ends == 1 ==> b.heavies == 1 && !b.cancel)
            && (b.cancels == 1 && b.heavies == 0 ==> !b.cancel)
  {
    var s := After(Start(max), acts);
    assert JobOk(s, j);
    if s.workers != [] && s.main != Spawning {
      var t :| t in AliveSet(s.threads);
    }
    CancelledUnrun(Start(max), acts, j);
  }

  /** A job that was called off before it ran was taken out of the queue, not flagged. */
  lemma {:induction false} CancelledUnrun(s: State, acts: seq<Action>, j: JobId)
    requires Inv(s) && Legal(s, acts)
    requires j in s.jobs ==> (s.jobs[j].cancels == 1 && s.jobs[j].heavies == 0 ==> !s.jobs[j].cancel)
    requires j in After(s, acts).jobs
    ensures var b := After(s, acts).jobs[j]; b.cancels == 1 && b.heavies == 0 ==> !b.cancel
    decreases |acts|
  {
    if acts != [] {
      StepCancelledUnrun(s, acts[0], j);
      CancelledUnrun(Step(s, acts[0]), acts[1..], j);
    }
  }

  lemma StepCancelledUnrun(s: State, a: Action, j: JobId)
    requires Inv(s) && Enabled(s, a)
    requires j in s.jobs ==> (s.jobs[j].cancels == 1 && s.jobs[j].heavies == 0 ==> !s.jobs[j].cancel)
    ensures var s' := Step(s, a);
            j in s'.jobs ==> (s'.jobs[j].cancels == 1 && s'.jobs[j].heavies == 0 ==> !s'.jobs[j].cancel)
  {
    Safe(s, a);
    if j in s.jobs { assert JobOk(s, j); }
    if a.Process? && s.pipe[0].JobDone? {
      assert s.pipe[0] in s.pipe && JobDone(s.pipe[0].job) in s.pipe;
      assert JobOk(s, s.pipe[0].job);
    }
  }

  /** A job cancelled while it waits in the queue is freed at once and never runs. */
  lemma CancelQueued(s: State, j: JobId, acts: seq<Action>)
    requires Inv(s) && Enabled(s, Cancel(j)) && s.jobs[j].stage == Queued
    requires Legal(Step(s, Cancel(j)), acts)
    ensures var s' := After(Step(s, Cancel(j)), acts);
            j in s'.jobs && s'.jobs[j] == Job(Freed, false, 0, 0, 1)
  {
    assert JobOk(s, j) && j in s.workers;
    FreedStays(Step(s, Cancel(j)), j, acts);
  }

  lemma {:induction false} FreedStays(s: State, j: JobId, acts: seq<Action>)
    requires Inv(s) && j in s.jobs && s.jobs[j].stage == Freed && Legal(s, acts)
    ensures j in After(s, acts).jobs && After(s, acts).jobs[j] == s.jobs[j]
    decreases |acts|
  {
    if acts != [] {
      FreedStaysStep(s, j, acts[0]);
      FreedStays(Step(s, acts[0]), j, acts[1..]);
    }
  }

  lemma FreedStaysStep(s: State, j: JobId, a: Action)
    requires Inv(s) && j in s.jobs && s.jobs[j].stage == Freed && Enabled(s, a)
    ensures j in Step(s, a).jobs && Step(s, a).jobs[j] == s.jobs[j]
  {
    Safe(s, a);
    assert JobOk(s, j);
    if s.workers != [] { assert s.workers[0] in s.workers; }
    if a.Heavy? || a.Post? { assert ThreadOk(s, a.thread); }
    if a.Process? { assert s.pipe[0] in s.pipe; }
  }

  // ----- no job is forgotten --------------------------------------------------------

  /** The actions that go on by themselves once the application makes no more calls. */
  predicate Internal(a: Action) {
    !a.Run? && !a.Cancel?
  }

  /** How many more actions a thread may take; a leaving thread may be drawn back while jobs wait. */
  function Work(x: Thread, waiting: bool): nat {
    match x
    case Working(_) => 7
    case Posting(_) => 6
    case AtTop => 4
    case Leaving => if waiting then 5 else 3
    case Left => 2
    case Gone => 0
  }

  ghost function AllWork(threads: map<ThreadId, Thread>, waiting: bool): nat
    decreases |threads.Keys|
  {
    if threads.Keys == {} then 0
    else
      var t :| t in threads.Keys;
      assert (threads - {t}).Keys == threads.Keys - {t};
      Work(threads[t], waiting) + AllWork(threads - {t}, waiting)
  }

  lemma {:induction false} WorkSplit(threads: map<ThreadId, Thread>, waiting: bool, t: ThreadId)
    requires t in threads
    ensures AllWork(threads, waiting) == Work(threads[t], waiting) + AllWork(threads - {t}, waiting)
    decreases |threads.Keys|
  {
    var k :| k in threads.Keys
             && AllWork(threads, waiting) == Work(threads[k], waiting) + AllWork(threads - {k}, waiting);
    if k != t {
      assert (threads - {t}).Keys == threads.Keys - {t} && (threads - {k}).Keys == threads.Keys - {k};
      WorkSplit(threads - {k}, waiting, t);
      WorkSplit(threads - {t}, waiting, k);
      assert (threads - {k}) - {t} == (threads - {t}) - {k};
    }
  }

  lemma WorkUpdate(threads: map<ThreadId, Thread>, waiting: bool, t: ThreadId, x: Thread)
    ensures AllWork(threads[t := x], waiting)
            == Work(x, waiting) + AllWork(threads, waiting) - (if t in threads then Work(threads[t], waiting) else 0)
  {
    WorkSplit(threads[t := x], waiting, t);
    if t in threads {
      WorkSplit(threads, waiting, t);
      assert threads[t := x] - {t} == threads - {t};
    } else {
      assert threads[t := x] - {t} == threads;
    }
  }

  lemma {:induction false} WorkDrops(threads: map<ThreadId, Thread>)
    ensures AllWork(threads, false) <= AllWork(threads, true)
    decreases |threads.Keys|
  {
    if threads.Keys != {} {
      var t :| t in threads.Keys;
      WorkSplit(threads, false, t);
      WorkSplit(threads, true, t);
      assert (threads - {t}).Keys == threads.Keys - {t};
      WorkDrops(threads - {t});
    }
  }

  ghost function Remaining(s: State): nat {
    4 * |s.workers| + AllWork(s.threads, s.workers != []) + |s.pipe|
    + (match s.main case Spawning => 6 case Counting => 1 case Idle => 0)
  }

  /** Left to itself the pool always gets closer to its end. */
  lemma InternalProgress(s: State, a: Action)
    requires Inv(s) && Enabled(s, a) && Internal(a)
    ensures Remaining(Step(s, a)) < Remaining(s)
  {
    hide PlacesOk, CountOk, AllWork;
    Safe(s, a);
    var waiting := s.workers != [];
    match a
    case Spawn => FreshThread(s); WorkUpdate(s.threads, waiting, s.nextThread, AtTop);
    case CountUp =>
    case Process =>
    case Take(t) =>
      if waiting {
        WorkUpdate(s.threads, true, t, Working(s.workers[0]));
        WorkDrops(s.threads[t := Working(s.workers[0])]);
      } else {
        WorkUpdate(s.threads, false, t, Leaving);
      }
    case Heavy(t) => WorkUpdate(s.threads, waiting, t, Posting(s.threads[t].job));
    case Post(t) => WorkUpdate(s.threads, waiting, t, AtTop);
    case Exit(t) => WorkUpdate(s.threads, waiting, t, if waiting then AtTop else Left);
    case PostEnd(t) => WorkUpdate(s.threads, waiting, t, Gone);
  }

  /** When nothing can go on by itself any more, every job has been called back. */
  lemma QuietMeansFinished(s: State, j: JobId)
    requires Inv(s) && j in s.jobs && forall a :: Internal(a) ==> !Enabled(s, a)
    ensures s.jobs[j].stage == Freed && s.jobs[j].ends + s.jobs[j].cancels == 1
  {
    assert !Enabled(s, Spawn) && !Enabled(s, CountUp) && !Enabled(s, Process);
    assert JobOk(s, j);
    assert j in s.workers <==> s.jobs[j].stage == Queued;
    forall t | t in s.threads ensures s.threads[t] == Gone {
      assert !Enabled(s, Take(t)) && !Enabled(s, Heavy(t)) && !Enabled(s, Post(t));
      assert !Enabled(s, Exit(t)) && !Enabled(s, PostEnd(t));
    }
    assert AliveSet(s.threads) == {};
  }

  /**
   Whatever the scheduler does: a run without further calls is no longer than Remaining(s),
   and one that cannot be continued has finished every job, each by exactly one callback.
   */
  lemma {:induction false} EveryScheduleFinishes(s: State, acts: seq<Action>)
    requires Inv(s) && Legal(s, acts) && forall i :: 0 <= i < |acts| ==> Internal(acts[i])
    ensures |acts| + Remaining(After(s, acts)) <= Remaining(s)
    ensures (forall a :: Internal(a) ==> !Enabled(After(s, acts), a)) ==>
              forall j :: j in After(s, acts).jobs ==>
                After(s, acts).jobs[j].stage == Freed
                && After(s, acts).jobs[j].ends + After(s, acts).jobs[j].cancels == 1
    decreases |acts|
  {
    hide Inv, Enabled, Step;
    if acts == [] {
      if forall a :: Internal(a) ==> !Enabled(s, a) {
        forall j | j in s.jobs ensures s.jobs[j].stage == Freed && s.jobs[j].ends + s.jobs[j].cancels == 1 {
          QuietMeansFinished(s, j);
        }
      }
    } else {
      InternalProgress(s, acts[0]);
      EveryScheduleFinishes(Step(s, acts[0]), acts[1..]);
    }
  }
}
