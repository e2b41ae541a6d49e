/**
 The thread pool of misaka/lib/thpool.c as a transition system over any number of pool
 threads and clients.

 A step is one region under one mutex.  Mutexes held from one step to the next show in the
 program counters: the job list is locked by a thread that is about to post the semaphore,
 and the thread counters are locked by a waiter that has read the list length and is about
 to read the working count.  Condition variables may wake a sleeper at any time; a signal
 wakes one if there is one.  A job that adds jobs itself does so as one more client, which
 is a thread of its own here.  The pool is alive: destroying it is not part of this model.
 */
module ThreadPool {
  import opened Options
  import JobQueue

  type Job = int
  type Tid = int

  datatype Pc =
    // a pool thread
    | AtSemaphore
    | Asleep
    | Woken
    | HasToken
    | Counted
    | Reposting(job: nat)
    | Running(work: Option<nat>)
    | Finishing
    // a client
    | Client
    | Posting
    | Checking(goal: nat)
    | SawEmpty(goal: nat)
    | AwaitIdle(goal: nat)

  /**
   `jobs` is the job list, `v` the binary semaphore and `working` the count of working
   threads.  The rest is history: jobs in the order added and in the order pulled, and the
   positions of those that have finished.
   */
  datatype State = State(
    jobs: seq<Job>,
    v: bool,
    working: int,
    threads: map<Tid, Pc>,
    added: seq<Job>,
    pulled: seq<Job>,
    finished: set<nat>)

  /** Where a step posts, `u` is the sleeper that the signal wakes. */
  datatype Step =
    | Try(t: Tid)
    | Wake(t: Tid)
    | Count(t: Tid)
    | Pull(t: Tid)
    | Repost(t: Tid, u: Option<Tid>)
    | Finish(t: Tid)
    | Uncount(t: Tid, u: Option<Tid>)
    | Add(t: Tid, job: Job)
    | Post(t: Tid, u: Option<Tid>)
    | WaitCall(t: Tid)
    | ReadLength(t: Tid)
    | ReadWorking(t: Tid)
    | WakeWaiter(t: Tid)

  predicate HoldsList(pc: Pc) { pc.Reposting? || pc.Posting? }

  ghost predicate ListFree(s: State) { forall t :: t in s.threads ==> !HoldsList(s.threads[t]) }

  ghost predicate CountersFree(s: State) { forall t :: t in s.threads ==> !s.threads[t].SawEmpty? }

  /** The signal on the semaphore wakes a sleeper if there is one. */
  ghost predicate SignalsSleeper(s: State, u: Option<Tid>)
  {
    match u
    case Some(t) => t in s.threads && s.threads[t].Asleep?
    case None => forall t :: t in s.threads ==> !s.threads[t].Asleep?
  }

  /** The signal on the idle condition wakes a waiter if there is one, and is sent when the count reaches zero. */
  ghost predicate SignalsWaiter(s: State, u: Option<Tid>)
  {
    if s.working != 1 then u.None?
    else
      match u
      case Some(t) => t in s.threads && s.threads[t].AwaitIdle?
      case None => forall t :: t in s.threads ==> !s.threads[t].AwaitIdle?
  }

  ghost predicate Enabled(s: State, step: Step)
  {
    && step.t in s.threads
    && var pc := s.threads[step.t];
    match step
    case Try(_) => pc.AtSemaphore? || pc.Woken?
    case Wake(_) => pc.Asleep?
    case Count(_) => pc.HasToken? && CountersFree(s)
    case Pull(_) => pc.Counted? && ListFree(s)
    case Repost(_, u) => pc.Reposting? && SignalsSleeper(s, u)
    case Finish(_) => pc.Running?
    case Uncount(_, u) => pc.Finishing? && CountersFree(s) && SignalsWaiter(s, u)
    case Add(_, _) => pc.Client? && ListFree(s)
    case Post(_, u) => pc.Posting? && SignalsSleeper(s, u)
    case WaitCall(_) => pc.Client?
    case ReadLength(_) => pc.Checking? && CountersFree(s)
    case ReadWorking(_) => pc.SawEmpty?
    case WakeWaiter(_) => pc.AwaitIdle?
  }

  function SetPc(s: State, t: Tid, pc: Pc): State
  {
    s.(threads := s.threads[t := pc])
  }

  /** `bsem_post` */
  function PostSemaphore(s: State, u: Option<Tid>): State
  {
    var s' := s.(v := true);
    if u.Some? then SetPc(s', u.value, Woken) else s'
  }

  function Apply(s: State, step: Step): State
    requires Enabled(s, step)
  {
    var pc := s.threads[step.t];
    match step
    case Try(t) => if s.v then SetPc(s.(v := false), t, HasToken) else SetPc(s, t, Asleep)
    case Wake(t) => SetPc(s, t, Woken)
    case Count(t) => SetPc(s.(working := s.working + 1), t, Counted)
    case Pull(t) =>
      if s.jobs == [] then SetPc(s, t, Running(None))
      else
        var i := |s.pulled|;
        var s' := s.(jobs := s.jobs[1..], pulled := s.pulled + [s.jobs[0]]);
        SetPc(s', t, if |s.jobs| == 1 then Running(Some(i)) else Reposting(i))
    case Repost(t, u) => SetPc(PostSemaphore(s, u), t, Running(Some(pc.job)))
    case Finish(t) =>
      SetPc(if pc.work.Some? then s.(finished := s.finished + {pc.work.value}) else s, t, Finishing)
    case Uncount(t, u) =>
      var s' := SetPc(s.(working := s.working - 1), t, AtSemaphore);
      if u.Some? && u.value in s.threads && s.threads[u.value].AwaitIdle? then
        SetPc(s', u.value, Checking(s.threads[u.value].goal))
      else s'
    case Add(t, job) => SetPc(s.(jobs := s.jobs + [job], added := s.added + [job]), t, Posting)
    case Post(t, u) => SetPc(PostSemaphore(s, u), t, Client)
    case WaitCall(t) => SetPc(s, t, Checking(|s.added|))
    case ReadLength(t) => SetPc(s, t, if s.jobs != [] then AwaitIdle(pc.goal) else SawEmpty(pc.goal))
    case ReadWorking(t) => SetPc(s, t, if s.working != 0 then AwaitIdle(pc.goal) else Client)
    case WakeWaiter(t) => SetPc(s, t, Checking(pc.goal))
  }

  /**
   A step on the linked job list: what it does to the jobs of the state is what `jobqueue_push`
   and `jobqueue_pull` do to the list, with the same job pulled and the same decision to post.
   */
  method StepOnList(q: JobQueue.JobQueue, step: Step, ghost s: State) returns (job: Option<Job>, post: bool)
    requires Enabled(s, step) && q.Valid() && JobQueue.Works(q.list) == s.jobs
    modifies q, q.list
    ensures q.Valid() && JobQueue.Works(q.list) == Apply(s, step).jobs
    ensures Apply(s, step).pulled == s.pulled + if job.Some? then [job.value] else []
    ensures step.Pull? ==>
              Apply(s, step).threads[step.t] ==
              if post then Reposting(|s.pulled|) else Running(if job.Some? then Some(|s.pulled|) else None)
    ensures !step.Pull? ==> job == None && !post
    ensures fresh((set j | j in q.list) - old(set j | j in q.list))
  {
    job, post := None, false;
    if step.Add? {
      var node := new JobQueue.Job(step.job);
      q.Push(node);
    } else if step.Pull? {
      var node;
      node, post := q.Pull();
      job := if node == null then None else Some(node.work);
    }
  }

  // ----- the invariant -----

  ghost predicate Books(s: State)
  {
    s.pulled + s.jobs == s.added
  }

  /** At most one thread holds each mutex from step to step. */
  ghost predicate Mutexes(s: State)
  {
    && (forall t, u :: t in s.threads && u in s.threads && HoldsList(s.threads[t]) && HoldsList(s.threads[u]) ==> t == u)
    && (forall t, u :: t in s.threads && u in s.threads && s.threads[t].SawEmpty? && s.threads[u].SawEmpty? ==> t == u)
  }

  predicate Busy(pc: Pc)
  {
    pc.Counted? || pc.Reposting? || pc.Running? || pc.Finishing?
  }

  ghost function BusyThreads(s: State): set<Tid>
  {
    set t | t in s.threads && Busy(s.threads[t])
  }

  /** A thread that will pull, or post, before it sleeps. */
  predicate WillServe(pc: Pc)
  {
    pc.HasToken? || pc.Counted? || HoldsList(pc)
  }

  /** Jobs in the list: the semaphore is up, or some thread will pull or post. */
  ghost predicate Served(s: State)
  {
    s.jobs != [] ==> s.v || exists t :: t in s.threads && WillServe(s.threads[t])
  }

  /** The semaphore is up and threads sleep: one of them has been woken. */
  ghost predicate Signalled(s: State)
  {
    s.v && (exists t :: t in s.threads && s.threads[t].Asleep?) ==> exists t :: t in s.threads && s.threads[t].Woken?
  }

  /** Thread `t` has pulled the job at position `i` and not finished it. */
  predicate Runs(s: State, t: Tid, i: nat)
  {
    t in s.threads && (s.threads[t] == Reposting(i) || s.threads[t] == Running(Some(i)))
  }

  ghost predicate Progress(s: State)
  {
    && (forall i :: i in s.finished ==> i < |s.pulled|)
    && (forall t, i: nat :: Runs(s, t, i) ==> i < |s.pulled| && i !in s.finished)
    && (forall t, u, i: nat :: Runs(s, t, i) && Runs(s, u, i) ==> t == u)
    && (forall i: nat :: i < |s.pulled| && i !in s.finished ==> exists t :: Runs(s, t, i))
  }

  ghost predicate Goals(s: State)
  {
    forall t :: t in s.threads ==>
      match s.threads[t]
      case Checking(g) => g <= |s.added|
      case AwaitIdle(g) => g <= |s.added|
      case SawEmpty(g) => g <= |s.pulled|
      case _ => true
  }

  ghost predicate Inv(s: State)
  {
    && Books(s) && Mutexes(s) && s.working == |BusyThreads(s)|
    && Served(s) && Signalled(s) && Progress(s) && Goals(s)
  }

  // ----- every step keeps it -----

  lemma BooksStep(s: State, step: Step)
    requires Inv(s) && Enabled(s, step)
    ensures Books(Apply(s, step))
  {
    if step.Pull? && s.jobs != [] {
      assert s.jobs == [s.jobs[0]] + s.jobs[1..];
    }
  }

  lemma MutexStep(s: State, step: Step)
    requires Mutexes(s) && Enabled(s, step)
    ensures Mutexes(Apply(s, step))
  {
  }

  lemma GoalsStep(s: State, step: Step)
    requires Books(s) && Goals(s) && Enabled(s, step)
    ensures Goals(Apply(s, step))
  {
  }

  lemma ServedStep(s: State, step: Step)
    requires Served(s) && Enabled(s, step)
    ensures Served(Apply(s, step))
  {
    var s', t := Apply(s, step), step.t;
    assert t in s'.threads;
    if s'.jobs != [] && !s'.v && !WillServe(s'.threads[t]) {
      assert !WillServe(s.threads[t]) && s.jobs != [] && !s.v;
      var w :| w in s.threads && WillServe(s.threads[w]);
      assert s'.threads[w] == s.threads[w];
    }
  }

  lemma SignalledStep(s: State, step: Step)
    requires Signalled(s) && Enabled(s, step)
    ensures Signalled(Apply(s, step))
  {
    var s', t := Apply(s, step), step.t;
    if s'.v && exists a :: a in s'.threads && s'.threads[a].Asleep? {
      var a :| a in s'.threads && s'.threads[a].Asleep?;
      if step.Wake? {
        assert s'.threads[t].Woken?;
      } else if step.Repost? || step.Post? {
        assert s.threads[a].Asleep?;
        assert s'.threads[step.u.value].Woken?;
      } else {
        assert s.v && s.threads[a].Asleep?;
        var w :| w in s.threads && s.threads[w].Woken?;
        assert s'.threads[w].Woken?;
      }
    }
  }

  /** Running jobs stay with their threads when no thread starts or ends one. */
  lemma SameRuns(s: State, s': State)
    requires Progress(s) && s'.pulled == s.pulled && s'.finished == s.finished
    requires forall t, i: nat :: Runs(s', t, i) <==> Runs(s, t, i)
    ensures Progress(s')
  {
    forall i: nat | i < |s'.pulled| && i !in s'.finished ensures exists t :: Runs(s', t, i) {
      var t :| Runs(s, t, i);
      assert Runs(s', t, i);
    }
  }

  lemma PullProgress(s: State, t: Tid)
    requires Progress(s) && Enabled(s, Pull(t)) && s.jobs != []
    ensures Progress(Apply(s, Pull(t)))
  {
    var s', n := Apply(s, Pull(t)), |s.pulled|;
    assert forall u, i: nat :: Runs(s', u, i) <==> Runs(s, u, i) || (u == t && i == n);
    assert Runs(s', t, n);
    forall i: nat | i < |s'.pulled| && i !in s'.finished ensures exists u :: Runs(s', u, i) {
      if i != n {
        var u :| Runs(s, u, i);
        assert Runs(s', u, i);
      }
    }
  }

  lemma FinishProgress(s: State, t: Tid, j: nat)
    requires Progress(s) && Enabled(s, Finish(t)) && s.threads[t] == Running(Some(j))
    ensures Progress(Apply(s, Finish(t)))
  {
    var s' := Apply(s, Finish(t));
    assert Runs(s, t, j);
    forall u, i: nat ensures Runs(s', u, i) <==> Runs(s, u, i) && i != j {
      if i == j && Runs(s, u, i) {
        assert u == t;
      }
    }
    forall i: nat | i < |s'.pulled| && i !in s'.finished ensures exists u :: Runs(s', u, i) {
      var u :| Runs(s, u, i);
      assert Runs(s', u, i);
    }
  }

  lemma ProgressStep(s: State, step: Step)
    requires Progress(s) && Enabled(s, step)
    ensures Progress(Apply(s, step))
  {
    if step.Pull? && s.jobs != [] {
      PullProgress(s, step.t);
    } else if step.Finish? && s.threads[step.t].work.Some? {
      FinishProgress(s, step.t, s.threads[step.t].work.value);
    } else {
      assert forall t, i: nat :: Runs(Apply(s, step), t, i) <==> Runs(s, t, i);
      SameRuns(s, Apply(s, step));
    }
  }

  /** How one thread's move changes the number of busy threads. */
  lemma BusyMove(s: State, s': State, t: Tid)
    requires t in s.threads && t in s'.threads && s'.threads.Keys == s.threads.Keys
    requires forall u :: u in s.threads && u != t ==> (Busy(s'.threads[u]) <==> Busy(s.threads[u]))
    ensures |BusyThreads(s')| == |BusyThreads(s)|
      + (if Busy(s'.threads[t]) then 1 else 0) - (if Busy(s.threads[t]) then 1 else 0)
  {
    var a, b := BusyThreads(s), BusyThreads(s');
    assert forall u :: u in s.threads && u != t ==> (u in b <==> u in a);
    assert a - {t} == b - {t};
    assert |a| == |a - {t}| + if t in a then 1 else 0;
    assert |b| == |b - {t}| + if t in b then 1 else 0;
  }

  lemma BusyStep(s: State, step: Step)
    requires s.working == |BusyThreads(s)| && Enabled(s, step)
    ensures Apply(s, step).working == |BusyThreads(Apply(s, step))|
  {
    BusyMove(s, Apply(s, step), step.t);
  }

  lemma StepInv(s: State, step: Step)
    requires Inv(s) && Enabled(s, step)
    ensures Inv(Apply(s, step))
  {
    BooksStep(s, step);
    MutexStep(s, step);
    BusyStep(s, step);
    ServedStep(s, step);
    SignalledStep(s, step);
    ProgressStep(s, step);
    GoalsStep(s, step);
  }

  // ----- whole runs -----

  ghost predicate Init(s: State)
  {
    && s.jobs == [] && !s.v && s.working == 0 && s.added == [] && s.pulled == [] && s.finished == {}
    && forall t :: t in s.threads ==> s.threads[t].AtSemaphore? || s.threads[t].Client?
  }

  ghost predicate Legal(s: State, steps: seq<Step>)
    decreases |steps|, 0
  {
    steps == [] ||
    (Legal(s, steps[..|steps| - 1]) && Enabled(After(s, steps[..|steps| - 1]), steps[|steps| - 1]))
  }

  ghost function After(s: State, steps: seq<Step>): State
    requires Legal(s, steps)
    decreases |steps|, 1
  {
    if steps == [] then s else Apply(After(s, steps[..|steps| - 1]), steps[|steps| - 1])
  }

  lemma {:induction false} RunInv(s: State, steps: seq<Step>)
    requires Init(s) && Legal(s, steps)
    ensures Inv(After(s, steps))
  {
    if steps == [] {
      assert forall t :: t in s.threads ==> !Busy(s.threads[t]);
      assert BusyThreads(s) == {};
    } else {
      RunInv(s, steps[..|steps| - 1]);
      StepInv(After(s, steps[..|steps| - 1]), steps[|steps| - 1]);
    }
  }

  predicate PoolThread(pc: Pc)
  {
    pc.AtSemaphore? || pc.Asleep? || pc.Woken? || pc.HasToken? || Busy(pc)
  }

  /** A pool thread that is not asleep, or a client about to post. */
  predicate Active(pc: Pc)
  {
    (PoolThread(pc) && !pc.Asleep?) || pc.Posting?
  }

  lemma PoolStep(s: State, step: Step, t: Tid)
    requires Enabled(s, step) && t in s.threads && PoolThread(s.threads[t])
    ensures t in Apply(s, step).threads && PoolThread(Apply(s, step).threads[t])
  {
  }

  lemma {:induction false} PoolStaysPool(s: State, steps: seq<Step>, t: Tid)
    requires Legal(s, steps) && t in s.threads && PoolThread(s.threads[t])
    ensures t in After(s, steps).threads && PoolThread(After(s, steps).threads[t])
  {
    if steps != [] {
      PoolStaysPool(s, steps[..|steps| - 1], t);
      PoolStep(After(s, steps[..|steps| - 1]), steps[|steps| - 1], t);
    }
  }

  /**
   No lost wake-up: as long as jobs are in the list and the pool has a thread, not all pool
   threads sleep, unless a client is just about to post.
   */
  lemma JobsKeepThreadsActive(s: State, steps: seq<Step>, t: Tid)
    requires Init(s) && Legal(s, steps) && t in s.threads && s.threads[t].AtSemaphore?
    requires After(s, steps).jobs != []
    ensures var s' := After(s, steps);
      exists u :: u in s'.threads && Active(s'.threads[u])
  {
    RunInv(s, steps);
    var s' := After(s, steps);
    PoolStaysPool(s, steps, t);
    if s'.v {
      if s'.threads[t].Asleep? {
        var u :| u in s'.threads && s'.threads[u].Woken?;
        assert Active(s'.threads[u]);
      } else {
        assert Active(s'.threads[t]);
      }
    } else {
      var u :| u in s'.threads && WillServe(s'.threads[u]);
      assert Active(s'.threads[u]);
    }
  }

  /** Jobs are pulled once each, in the order they were added. */
  lemma {:induction false} PulledInOrder(s: State, steps: seq<Step>)
    requires Init(s) && Legal(s, steps)
    ensures After(s, steps).pulled + After(s, steps).jobs == After(s, steps).added
  {
    RunInv(s, steps);
  }

  // ----- thpool_wait -----

  predicate Waits(pc: Pc)
  {
    pc.Checking? || pc.SawEmpty? || pc.AwaitIdle?
  }

  /** Client `t` waits before the step and does not wait any more after it. */
  ghost predicate ReturnsOn(s: State, step: Step, t: Tid)
  {
    Enabled(s, step) && t in s.threads && Waits(s.threads[t]) && !Waits(Apply(s, step).threads[t])
  }

  /** While client `t` waits, it waits for `goal` jobs. */
  ghost predicate WaitsFor(s: State, t: Tid, goal: nat)
  {
    t in s.threads && (Waits(s.threads[t]) ==> s.threads[t].goal == goal)
  }

  lemma GoalStays(s: State, t: Tid, goal: nat, step: Step)
    requires WaitsFor(s, t, goal) && Enabled(s, step) && step != WaitCall(t)
    ensures WaitsFor(Apply(s, step), t, goal)
  {
  }

  lemma {:induction false} GoalIsCall(s: State, before: seq<Step>, t: Tid, after: seq<Step>)
    requires Legal(s, before + [WaitCall(t)] + after)
    requires forall k :: 0 <= k < |after| ==> after[k] != WaitCall(t)
    ensures Legal(s, before)
    ensures WaitsFor(After(s, before + [WaitCall(t)] + after), t, |After(s, before).added|)
  {
    var run := before + [WaitCall(t)] + after;
    if after == [] {
      assert run == before + [WaitCall(t)] && run[..|run| - 1] == before;
    } else {
      var front := after[..|after| - 1];
      assert run[..|run| - 1] == before + [WaitCall(t)] + front;
      assert run[|run| - 1] == after[|after| - 1];
      GoalIsCall(s, before, t, front);
      GoalStays(After(s, run[..|run| - 1]), t, |After(s, before).added|, after[|after| - 1]);
    }
  }

  lemma IdleMeansFinished(s: State, i: nat)
    requires Inv(s) && s.working == 0 && i < |s.pulled|
    ensures i in s.finished
  {
    assert forall t :: Runs(s, t, i) ==> t in BusyThreads(s);
  }

  lemma ReturnMeansFinished(s: State, step: Step, t: Tid, i: nat)
    requires Inv(s) && ReturnsOn(s, step, t) && i < s.threads[t].goal
    ensures i in s.finished
  {
    assert s.threads[t].goal <= |s.pulled|;
    IdleMeansFinished(s, i);
  }

  /** Whichever step ends the waiting of `thpool_wait`, every job added before the call has finished by then. */
  lemma WaitIsSound(s: State, before: seq<Step>, t: Tid, after: seq<Step>, step: Step, i: nat)
    requires Init(s) && Legal(s, before + [WaitCall(t)] + after) && Legal(s, before)
    requires forall k :: 0 <= k < |after| ==> after[k] != WaitCall(t)
    requires ReturnsOn(After(s, before + [WaitCall(t)] + after), step, t)
    requires i < |After(s, before).added|
    ensures i in After(s, before + [WaitCall(t)] + after).finished
  {
    RunInv(s, before + [WaitCall(t)] + after);
    GoalIsCall(s, before, t, after);
    ReturnMeansFinished(After(s, before + [WaitCall(t)] + after), step, t, i);
  }

  /**
   A waiter that checks while it has the counters: with jobs in the list it goes to sleep, and
   otherwise its second read ends the waiting if and only if no pool thread is at work.
   */
  lemma CheckReturnsIff(s: State, steps: seq<Step>, t: Tid)
    requires Init(s) && Legal(s, steps) && Enabled(After(s, steps), ReadLength(t))
    ensures var s1 := After(s, steps); var s2 := Apply(s1, ReadLength(t));
      if s1.jobs != [] then s2.threads[t].AwaitIdle?
      else
        && Enabled(s2, ReadWorking(t))
        && (Apply(s2, ReadWorking(t)).threads[t].Client? <==> forall u :: u in s1.threads ==> !Busy(s1.threads[u]))
        && Waits(Apply(s2, ReadWorking(t)).threads[t]) == !Apply(s2, ReadWorking(t)).threads[t].Client?
  {
    RunInv(s, steps);
    BusyTell(After(s, steps));
  }

  lemma BusyTell(s: State)
    requires s.working == |BusyThreads(s)|
    ensures s.working == 0 <==> forall u :: u in s.threads ==> !Busy(s.threads[u])
  {
    if forall u :: u in s.threads ==> !Busy(s.threads[u]) {
      assert BusyThreads(s) == {};
    } else {
      var u :| u in s.threads && Busy(s.threads[u]);
      assert u in BusyThreads(s);
    }
  }

  // ----- waking the waiters -----

  /** Only client `c` waits, and it sleeps only while there is something to wait for. */
  ghost predicate OnlyWaiter(s: State, c: Tid)
  {
    && (forall t :: t in s.threads && Waits(s.threads[t]) ==> t == c)
    && (c in s.threads && s.threads[c].AwaitIdle? ==> s.jobs != [] || s.working > 0)
  }

  lemma OnlyWaiterStep(s: State, c: Tid, step: Step)
    requires Inv(s) && OnlyWaiter(s, c) && Enabled(s, step) && (step.WaitCall? ==> step.t == c)
    ensures OnlyWaiter(Apply(s, step), c)
  {
    if step.Pull? {
      assert step.t in BusyThreads(s);
    } else if step.Uncount? && c in s.threads && s.threads[c].AwaitIdle? {
      assert step.t in BusyThreads(s);
    }
  }

  /** With a single waiting client the idle signal is never lost. */
  lemma {:induction false} SingleWaiterNotLost(s: State, steps: seq<Step>, c: Tid)
    requires Init(s) && Legal(s, steps)
    requires forall k :: 0 <= k < |steps| && steps[k].WaitCall? ==> steps[k].t == c
    ensures OnlyWaiter(After(s, steps), c)
  {
    if steps != [] {
      var front := steps[..|steps| - 1];
      SingleWaiterNotLost(s, front, c);
      RunInv(s, front);
      OnlyWaiterStep(After(s, front), c, steps[|steps| - 1]);
    }
  }

  // ----- two waiters: the signal wakes only one -----

  /** A waiter sleeps although nothing is queued or running, and no thread is on its way to wake it. */
  ghost predicate Stranded(s: State)
  {
    && s.jobs == [] && s.working == 0 && !s.v
    && (exists t :: t in s.threads && s.threads[t].AwaitIdle?)
    && forall t :: t in s.threads ==> s.threads[t].Asleep? || s.threads[t].AwaitIdle? || s.threads[t].Client?
  }

  ghost predicate Reaches(s0: State, s: State)
  {
    exists steps :: Legal(s0, steps) && After(s0, steps) == s
  }

  lemma Hop(s0: State, s: State, step: Step) returns (s': State)
    requires Reaches(s0, s) && Enabled(s, step)
    ensures s' == Apply(s, step) && Reaches(s0, s')
  {
    s' := Apply(s, step);
    var steps :| Legal(s0, steps) && After(s0, steps) == s;
    assert (steps + [step])[..|steps|] == steps;
    assert Legal(s0, steps + [step]) && After(s0, steps + [step]) == s';
  }

  /** A pool thread and two clients at the given places; all others sleep or are outside the pool. */
  ghost predicate Trio(s: State, p: Tid, c: Tid, d: Tid, pc0: Pc, pc1: Pc, pc2: Pc)
  {
    && p != c && p != d && c != d && {p, c, d} <= s.threads.Keys
    && s.threads[p] == pc0 && s.threads[c] == pc1 && s.threads[d] == pc2
    && forall t :: t in s.threads && t !in {p, c, d} ==> s.threads[t].Asleep? || s.threads[t].Client?
  }

  ghost predicate AllQuiet(s: State)
  {
    s.jobs == [] && !s.v && s.working == 0 && s.added == []
  }

  /** Before there is any job, all pool threads go to sleep. */
  lemma {:induction false} ToSleep(s0: State, s: State, awake: set<Tid>) returns (s': State)
    requires Reaches(s0, s) && AllQuiet(s) && awake <= s.threads.Keys
    requires forall t :: t in awake ==> s.threads[t].AtSemaphore?
    requires forall t :: t in s.threads && t !in awake ==> s.threads[t].Asleep? || s.threads[t].Client?
    ensures Reaches(s0, s') && AllQuiet(s') && s'.threads.Keys == s.threads.Keys
    ensures forall t :: t in s.threads ==> s'.threads[t] == if t in awake then Asleep else s.threads[t]
    decreases awake
  {
    s' := s;
    if t :| t in awake {
      s' := Hop(s0, s, Try(t));
      s' := ToSleep(s0, s', awake - {t});
    }
  }

  /** Client `c` adds a job, and the pool thread takes the semaphore and counts itself. */
  lemma ToCounted(s0: State, s: State, p: Tid, c: Tid, d: Tid) returns (s': State)
    requires Reaches(s0, s) && AllQuiet(s) && Trio(s, p, c, d, Asleep, Client, Client)
    ensures Reaches(s0, s') && Trio(s', p, c, d, Counted, Client, Client)
    ensures |s'.jobs| == |s'.added| == 1 && !s'.v && s'.working == 1
  {
    s' := Hop(s0, s, Add(c, 7));
    assert Trio(s', p, c, d, Asleep, Posting, Client);
    s' := Hop(s0, s', Post(c, Some(p)));
    assert Trio(s', p, c, d, Woken, Client, Client);
    s' := Hop(s0, s', Try(p));
    assert Trio(s', p, c, d, HasToken, Client, Client);
    s' := Hop(s0, s', Count(p));
  }

  /** Both clients call `thpool_wait`, see the job in the list and go to sleep. */
  lemma ToBothAsleep(s0: State, s: State, p: Tid, c: Tid, d: Tid) returns (s': State)
    requires Reaches(s0, s) && Trio(s, p, c, d, Counted, Client, Client)
    requires |s.jobs| == |s.added| == 1 && !s.v && s.working == 1
    ensures Reaches(s0, s') && Trio(s', p, c, d, Counted, AwaitIdle(1), AwaitIdle(1))
    ensures |s'.jobs| == 1 && !s'.v && s'.working == 1
  {
    s' := Hop(s0, s, WaitCall(c));
    assert Trio(s', p, c, d, Counted, Checking(1), Client);
    s' := Hop(s0, s', ReadLength(c));
    assert Trio(s', p, c, d, Counted, AwaitIdle(1), Client);
    s' := Hop(s0, s', WaitCall(d));
    assert Trio(s', p, c, d, Counted, AwaitIdle(1), Checking(1));
    s' := Hop(s0, s', ReadLength(d));
  }

  /** The pool thread pulls the job and runs it. */
  lemma ToFinishing(s0: State, s: State, p: Tid, c: Tid, d: Tid) returns (s': State)
    requires Reaches(s0, s) && Trio(s, p, c, d, Counted, AwaitIdle(1), AwaitIdle(1))
    requires |s.jobs| == 1 && !s.v && s.working == 1
    ensures Reaches(s0, s') && Trio(s', p, c, d, Finishing, AwaitIdle(1), AwaitIdle(1))
    ensures s'.jobs == [] && !s'.v && s'.working == 1
  {
    s' := Hop(s0, s, Pull(p));
    assert Trio(s', p, c, d, Running(Some(|s.pulled|)), AwaitIdle(1), AwaitIdle(1));
    s' := Hop(s0, s', Finish(p));
  }

  /** The count reaches zero and the signal wakes client `c`. */
  lemma ToSignal(s0: State, s: State, p: Tid, c: Tid, d: Tid) returns (s': State)
    requires Reaches(s0, s) && Trio(s, p, c, d, Finishing, AwaitIdle(1), AwaitIdle(1))
    requires s.jobs == [] && !s.v && s.working == 1
    ensures Reaches(s0, s') && Trio(s', p, c, d, AtSemaphore, Checking(1), AwaitIdle(1))
    ensures s'.jobs == [] && !s'.v && s'.working == 0
  {
    s' := Hop(s0, s, Uncount(p, Some(c)));
  }

  /** The pool thread and client `c` see nothing left to do; client `d` stays asleep. */
  lemma ToStranded(s0: State, s: State, p: Tid, c: Tid, d: Tid) returns (s': State)
    requires Reaches(s0, s) && Trio(s, p, c, d, AtSemaphore, Checking(1), AwaitIdle(1))
    requires s.jobs == [] && !s.v && s.working == 0
    ensures Reaches(s0, s') && Trio(s', p, c, d, Asleep, Client, AwaitIdle(1))
    ensures s'.jobs == [] && !s'.v && s'.working == 0
  {
    s' := Hop(s0, s, Try(p));
    assert Trio(s', p, c, d, Asleep, Checking(1), AwaitIdle(1));
    s' := Hop(s0, s', ReadLength(c));
    assert Trio(s', p, c, d, Asleep, SawEmpty(1), AwaitIdle(1));
    s' := Hop(s0, s', ReadWorking(c));
  }

  lemma TrioIsStranded(s: State, p: Tid, c: Tid, d: Tid)
    requires Trio(s, p, c, d, Asleep, Client, AwaitIdle(1)) && s.jobs == [] && !s.v && s.working == 0
    ensures Stranded(s)
  {
    assert s.threads[d].AwaitIdle?;
  }

  lemma ToRest(s0: State, p: Tid, c: Tid, d: Tid) returns (s: State)
    requires Init(s0) && {p, c, d} <= s0.threads.Keys && c != d
    requires s0.threads[p].AtSemaphore? && s0.threads[c].Client? && s0.threads[d].Client?
    ensures Reaches(s0, s) && AllQuiet(s) && Trio(s, p, c, d, Asleep, Client, Client)
  {
    assert Legal(s0, []) && After(s0, []) == s0;
    s := ToSleep(s0, s0, set t | t in s0.threads && s0.threads[t].AtSemaphore?);
  }

  /** With two clients one of them can be left asleep. */
  lemma TwoWaitersCanBeStranded(s0: State, p: Tid, c: Tid, d: Tid) returns (s: State)
    requires Init(s0) && {p, c, d} <= s0.threads.Keys && c != d
    requires s0.threads[p].AtSemaphore? && s0.threads[c].Client? && s0.threads[d].Client?
    ensures Reaches(s0, s) && Stranded(s)
  {
    s := ToRest(s0, p, c, d);
    s := ToCounted(s0, s, p, c, d);
    s := ToBothAsleep(s0, s, p, c, d);
    s := ToFinishing(s0, s, p, c, d);
    s := ToSignal(s0, s, p, c, d);
    s := ToStranded(s0, s, p, c, d);
    TrioIsStranded(s, p, c, d);
  }

  /** Only a client of the start ever calls `thpool_wait`. */
  lemma CallerIsClient(s: State, steps: seq<Step>, t: Tid)
    requires Init(s) && Legal(s, steps) && Enabled(After(s, steps), WaitCall(t))
    ensures t in s.threads && s.threads[t].Client?
  {
    SameThreads(s, steps);
    if s.threads[t].AtSemaphore? {
      PoolStaysPool(s, steps, t);
    }
  }

  lemma {:induction false} SameThreads(s: State, steps: seq<Step>)
    requires Legal(s, steps)
    ensures After(s, steps).threads.Keys == s.threads.Keys
  {
    if steps != [] {
      SameThreads(s, steps[..|steps| - 1]);
      StepKeepsThreads(After(s, steps[..|steps| - 1]), steps[|steps| - 1]);
    }
  }

  lemma StepKeepsThreads(s: State, step: Step)
    requires Enabled(s, step)
    ensures Apply(s, step).threads.Keys == s.threads.Keys
  {
  }

  lemma {:induction false} PrefixLegal(s: State, steps: seq<Step>, k: nat)
    requires Legal(s, steps) && k < |steps|
    ensures Legal(s, steps[..k]) && Enabled(After(s, steps[..k]), steps[k])
    decreases |steps|
  {
    var front := steps[..|steps| - 1];
    if k < |front| {
      PrefixLegal(s, front, k);
      assert front[..k] == steps[..k];
    } else {
      assert steps[..k] == front;
    }
  }

  lemma OneClientNotStranded(s0: State, c: Tid, s: State)
    requires Init(s0) && Reaches(s0, s)
    requires forall t :: t in s0.threads && s0.threads[t].Client? ==> t == c
    ensures !Stranded(s)
  {
    var steps: seq<Step> :| Legal(s0, steps) && After(s0, steps) == s;
    forall k | 0 <= k < |steps| && steps[k].WaitCall? ensures steps[k].t == c {
      PrefixLegal(s0, steps, k);
      CallerIsClient(s0, steps[..k], steps[k].t);
    }
    SingleWaiterNotLost(s0, steps, c);
  }

  ghost predicate TwoClients(s: State)
  {
    exists c, d :: c in s.threads && d in s.threads && c != d && s.threads[c].Client? && s.threads[d].Client?
  }

  /** In a pool with a thread a waiter can be left asleep if and only if there are two clients that may wait. */
  lemma StrandedIffTwoClients(s0: State, p: Tid)
    requires Init(s0) && p in s0.threads && s0.threads[p].AtSemaphore?
    ensures (exists s :: Reaches(s0, s) && Stranded(s)) <==> TwoClients(s0)
  {
    if TwoClients(s0) {
      var c, d :| c in s0.threads && d in s0.threads && c != d && s0.threads[c].Client? && s0.threads[d].Client?;
      var s := TwoWaitersCanBeStranded(s0, p, c, d);
    } else {
      var c := p;
      if t :| t in s0.threads && s0.threads[t].Client? {
        c := t;
      }
      forall s | Reaches(s0, s) ensures !Stranded(s) {
        OneClientNotStranded(s0, c, s);
      }
    }
  }
}
