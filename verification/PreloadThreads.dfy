/** The preload pool as the program runs it: each method is one step of one thread. */
module PreloadThreads {
  import opened Lists
  import opened PreloadPool

  class Preloader {
    var workers: seq<JobId>
    var threadsCount: int
    const threadsMax: nat
    var jobs: map<JobId, Job>
    var threads: map<ThreadId, Thread>
    var main: Main
    var pipe: seq<Message>
    var nextJob: JobId
    var nextThread: ThreadId

    ghost function St(): State
      reads this
    {
      State(workers, threadsCount, threadsMax, jobs, threads, main, pipe, nextJob, nextThread)
    }

    /** _evas_preload_thread_init, on a machine that reports `cpus` processors. */
    constructor (cpus: int)
      ensures Inv(St()) && St() == Start(if cpus < 1 then 1 else cpus)
    {
      threadsMax := if cpus < 1 then 1 else cpus;
      workers, threadsCount, jobs, threads, main, pipe := [], 0, map[], map[], Idle, [];
      nextJob, nextThread := 0, 0;
      new;
      StartInv(threadsMax);
    }

    /** evas_preload_thread_run: the first critical section. */
    method ThreadRun() returns (work: JobId)
      requires Inv(St()) && main == Idle
      modifies this
      ensures Inv(St()) && St() == Step(old(St()), Run) && work == old(nextJob)
    {
      ghost var s := St();
      work := nextJob;
      jobs := jobs[work := Job(Queued, false, 0, 0, 0)];
      nextJob := nextJob + 1;
      workers := workers + [work];
      if threadsCount != threadsMax {
        main := Spawning;
      }
      assert St() == Step(s, Run);
    }

    /** evas_preload_thread_run: the thread exists from here on, uncounted. */
    method ThreadCreate()
      requires Inv(St()) && main == Spawning
      modifies this
      ensures Inv(St()) && St() == Step(old(St()), Spawn)
    {
      ghost var s := St();
      threads := threads[nextThread := AtTop];
      nextThread := nextThread + 1;
      main := Counting;
      assert St() == Step(s, Spawn);
    }

    /** evas_preload_thread_run: the second critical section. */
    method ThreadCounted()
      requires Inv(St()) && main == Counting
      modifies this
      ensures Inv(St()) && St() == Step(old(St()), CountUp)
    {
      ghost var s := St();
      threadsCount := threadsCount + 1;
      main := Idle;
      assert St() == Step(s, CountUp);
    }

    /** evas_preload_thread_cancel: true means that the job was still queued and has been freed. */
    method ThreadCancel(thread: JobId) returns (gone: bool)
      requires Inv(St()) && Enabled(St(), Cancel(thread))
      modifies this
      ensures Inv(St()) && St() == Step(old(St()), Cancel(thread))
      ensures gone <==> old(jobs[thread].stage) == Queued
    {
      ghost var s := St();
      assert thread in workers <==> jobs[thread].stage == Queued;
      var i := 0;
      while i < |workers|
        invariant i <= |workers| && thread !in workers[..i] && St() == s
      {
        if workers[i] == thread {
          WithoutOne(workers, i);
          workers := workers[..i] + workers[i + 1..];
          jobs := jobs[thread := jobs[thread].(stage := Freed, cancels := jobs[thread].cancels + 1)];
          assert St() == Step(s, Cancel(thread));
          return true;
        }
        i := i + 1;
      }
      jobs := jobs[thread := jobs[thread].(cancel := true)];
      assert St() == Step(s, Cancel(thread));
      return false;
    }

    /** One turn of evas_async_events_process, with _evas_preload_thread_done. */
    method ProcessEvent()
      requires Inv(St()) && main == Idle && pipe != []
      modifies this
      ensures Inv(St()) && St() == Step(old(St()), Process)
    {
      ghost var s := St();
      Safe(s, Process);
      var ev := pipe[0];
      pipe := pipe[1..];
      if ev.JobDone? {
        var work := ev.job;
        if jobs[work].cancel {
          jobs := jobs[work := jobs[work].(cancels := jobs[work].cancels + 1)];
        } else {
          jobs := jobs[work := jobs[work].(ends := jobs[work].ends + 1)];
        }
        jobs := jobs[work := jobs[work].(stage := Freed)];
      }
      assert St() == Step(s, Process);
    }

    /** The top of the loop of _evas_preload_thread_worker. */
    method WorkerTake(t: ThreadId)
      requires Inv(St()) && Enabled(St(), Take(t))
      modifies this
      ensures Inv(St()) && St() == Step(old(St()), Take(t))
    {
      ghost var s := St();
      Safe(s, Take(t));
      if workers == [] {
        threads := threads[t := Leaving];
      } else {
        var work := workers[0];
        workers := workers[1..];
        jobs := jobs[work := jobs[work].(stage := Taken(t))];
        threads := threads[t := Working(work)];
      }
      assert St() == Step(s, Take(t));
    }

    method WorkerHeavy(t: ThreadId)
      requires Inv(St()) && Enabled(St(), Heavy(t))
      modifies this
      ensures Inv(St()) && St() == Step(old(St()), Heavy(t))
    {
      ghost var s := St();
      Safe(s, Heavy(t));
      var work := threads[t].job;
      jobs := jobs[work := jobs[work].(stage := Heavied(t), heavies := jobs[work].heavies + 1)];
      threads := threads[t := Posting(work)];
      assert St() == Step(s, Heavy(t));
    }

    method WorkerPost(t: ThreadId)
      requires Inv(St()) && Enabled(St(), Post(t))
      modifies this
      ensures Inv(St()) && St() == Step(old(St()), Post(t))
    {
      ghost var s := St();
      Safe(s, Post(t));
      var work := threads[t].job;
      jobs := jobs[work := jobs[work].(stage := Posted)];
      pipe := pipe + [JobDone(work)];
      threads := threads[t := AtTop];
      assert St() == Step(s, Post(t));
    }

    /** After the loop: back to the top if a job has come in, else the thread is uncounted. */
    method WorkerExit(t: ThreadId)
      requires Inv(St()) && Enabled(St(), Exit(t))
      modifies this
      ensures Inv(St()) && St() == Step(old(St()), Exit(t))
    {
      ghost var s := St();
      if workers != [] {
        threads := threads[t := AtTop];
      } else {
        threadsCount := threadsCount - 1;
        threads := threads[t := Left];
      }
      assert St() == Step(s, Exit(t));
    }

    method WorkerPostEnd(t: ThreadId)
      requires Inv(St()) && Enabled(St(), PostEnd(t))
      modifies this
      ensures Inv(St()) && St() == Step(old(St()), PostEnd(t))
    {
      ghost var s := St();
      pipe := pipe + [ThreadEnd(t)];
      threads := threads[t := Gone];
      assert St() == Step(s, PostEnd(t));
    }
  }
}
