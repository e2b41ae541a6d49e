/**
 Nothing in the thread pool of misaka/lib/thpool.c gets stuck: from every reachable state
 of a pool with a thread, the threads can go on so that every job is finished and every
 waiting client returns.
 */
module PoolProgress {
  import opened Options
  import opened ThreadPool

  /** Thread `t` has moved; of the others some have been woken. */
  ghost predicate Nudged(s: State, s': State, t: Tid)
  {
    && s'.threads.Keys == s.threads.Keys && s'.added == s.added
    && forall u :: u in s.threads && u != t ==>
         || s'.threads[u] == s.threads[u]
         || (s.threads[u].Asleep? && s'.threads[u].Woken?)
         || (s.threads[u].AwaitIdle? && s'.threads[u].Checking?)
  }

  /** No mutex is held. */
  ghost predicate Free(s: State)
  {
    ListFree(s) && CountersFree(s)
  }

  /** The states that can be reached from `s0`, all of them sound. */
  ghost function Sound(s0: State): iset<State>
  {
    iset s: State | Reaches(s0, s) && Inv(s)
  }

  lemma Go(s0: State, s: State, step: Step) returns (s': State)
    requires s in Sound(s0) && Enabled(s, step)
    ensures s' == Apply(s, step) && s' in Sound(s0)
  {
    s' := Hop(s0, s, step);
    StepInv(s, step);
  }

  /** The sleeper that a post wakes, if there is one. */
  lemma Sleeper(s: State) returns (u: Option<Tid>)
    ensures SignalsSleeper(s, u)
  {
    u := None;
    if t :| t in s.threads && s.threads[t].Asleep? {
      u := Some(t);
    }
  }

  lemma Waiter(s: State) returns (u: Option<Tid>)
    ensures SignalsWaiter(s, u)
  {
    u := None;
    if s.working == 1 {
      if t :| t in s.threads && s.threads[t].AwaitIdle? {
        u := Some(t);
      }
    }
  }

  // ----- the steps of one pool thread -----

  lemma Reposts(s0: State, s: State, t: Tid) returns (s': State)
    requires s in Sound(s0) && t in s.threads && s.threads[t].Reposting?
    ensures s' in Sound(s0) && Nudged(s, s', t) && s'.jobs == s.jobs
    ensures s'.threads[t] == Running(Some(s.threads[t].job))
  {
    var u := Sleeper(s);
    s' := Go(s0, s, Repost(t, u));
  }

  lemma Posts(s0: State, s: State, t: Tid) returns (s': State)
    requires s in Sound(s0) && t in s.threads && s.threads[t].Posting?
    ensures s' in Sound(s0) && Nudged(s, s', t) && s'.jobs == s.jobs && s'.threads[t] == Client
  {
    var u := Sleeper(s);
    s' := Go(s0, s, Post(t, u));
  }

  lemma Uncounts(s0: State, s: State, t: Tid) returns (s': State)
    requires s in Sound(s0) && CountersFree(s) && t in s.threads && s.threads[t].Finishing?
    ensures s' in Sound(s0) && Nudged(s, s', t) && s'.jobs == s.jobs && s'.threads[t] == AtSemaphore
  {
    var u := Waiter(s);
    s' := Go(s0, s, Uncount(t, u));
  }

  lemma NudgedTrans(s: State, s': State, s'': State, t: Tid)
    requires Nudged(s, s', t) && Nudged(s', s'', t)
    ensures Nudged(s, s'', t)
  {
  }

  lemma NudgedFree(s: State, s': State, t: Tid)
    requires Free(s) && Nudged(s, s', t) && t in s.threads && !HoldsList(s'.threads[t]) && !s'.threads[t].SawEmpty?
    ensures Free(s')
  {
  }

  /** A thread that has pulled runs its job and goes back to the semaphore. */
  lemma Finishes(s0: State, s: State, t: Tid) returns (s': State)
    requires s in Sound(s0) && Free(s) && t in s.threads && (s.threads[t].Running? || s.threads[t].Finishing?)
    ensures s' in Sound(s0) && Free(s') && Nudged(s, s', t) && s'.jobs == s.jobs && s'.threads[t] == AtSemaphore
  {
    var s1 := s;
    if s.threads[t].Running? {
      s1 := Go(s0, s, Finish(t));
    }
    s' := Uncounts(s0, s1, t);
    NudgedTrans(s, s1, s', t);
    NudgedFree(s, s', t);
  }

  /** A thread that has counted itself pulls a job if there is one, runs it and goes back. */
  lemma Pulls(s0: State, s: State, t: Tid) returns (s': State)
    requires s in Sound(s0) && Free(s) && t in s.threads && s.threads[t].Counted?
    ensures s' in Sound(s0) && Free(s') && Nudged(s, s', t) && s'.threads[t] == AtSemaphore
    ensures s'.jobs == if s.jobs == [] then [] else s.jobs[1..]
  {
    var s1 := Go(s0, s, Pull(t));
    var s2 := s1;
    if s1.threads[t].Reposting? {
      s2 := Reposts(s0, s1, t);
    }
    NudgedTrans(s, s1, s2, t);
    NudgedFree(s, s2, t);
    s' := Finishes(s0, s2, t);
    NudgedTrans(s, s2, s', t);
  }

  lemma Counts(s0: State, s: State, t: Tid) returns (s': State)
    requires s in Sound(s0) && Free(s) && t in s.threads && s.threads[t].HasToken?
    ensures s' in Sound(s0) && Free(s') && Nudged(s, s', t) && s'.threads[t] == AtSemaphore
    ensures s'.jobs == if s.jobs == [] then [] else s.jobs[1..]
  {
    var s1 := Go(s0, s, Count(t));
    NudgedFree(s, s1, t);
    s' := Pulls(s0, s1, t);
    NudgedTrans(s, s1, s', t);
  }

  // ----- all pool threads back at the semaphore -----

  predicate AtWork(pc: Pc)
  {
    pc.HasToken? || Busy(pc)
  }

  ghost function Workers(s: State): set<Tid>
  {
    set t | t in s.threads && AtWork(s.threads[t])
  }

  lemma FewerWorkers(s: State, s': State, t: Tid)
    requires t in Workers(s) && Nudged(s, s', t) && s'.threads[t].AtSemaphore?
    ensures Workers(s') < Workers(s)
  {
    assert forall u :: u in Workers(s') ==> u in Workers(s);
    assert t !in Workers(s');
  }

  lemma OneSettles(s0: State, s: State, t: Tid) returns (s': State)
    requires s in Sound(s0) && Free(s) && t in Workers(s)
    ensures s' in Sound(s0) && Free(s') && Nudged(s, s', t) && s'.threads[t] == AtSemaphore
  {
    if s.threads[t].HasToken? {
      s' := Counts(s0, s, t);
    } else if s.threads[t].Counted? {
      s' := Pulls(s0, s, t);
    } else {
      s' := Finishes(s0, s, t);
    }
  }

  /** The same threads, with the same jobs added. */
  ghost predicate SamePool(s: State, s': State)
  {
    && s'.threads.Keys == s.threads.Keys && s'.added == s.added
    && forall t :: t in s.threads && PoolThread(s.threads[t]) ==> PoolThread(s'.threads[t])
  }

  lemma {:induction false} AllSettle(s0: State, s: State) returns (s': State)
    requires s in Sound(s0) && Free(s)
    ensures s' in Sound(s0) && Free(s') && SamePool(s, s') && Workers(s') == {}
    decreases Workers(s)
  {
    s' := s;
    if t :| t in s.threads && AtWork(s.threads[t]) {
      s' := OneSettles(s0, s, t);
      FewerWorkers(s, s', t);
      s' := AllSettle(s0, s');
    } else {
      assert forall t :: t in s.threads ==> t !in Workers(s);
    }
  }

  // ----- all jobs -----

  lemma NobodyServes(s: State)
    requires Inv(s) && Free(s) && Workers(s) == {} && s.jobs != []
    ensures s.v
  {
    forall u | u in s.threads ensures !WillServe(s.threads[u]) {
      assert u !in Workers(s);
    }
  }

  /** With everybody back, a job in the list means the semaphore is up, so a thread can take it. */
  lemma OneJob(s0: State, s: State, p: Tid) returns (s': State)
    requires s in Sound(s0) && Free(s) && Workers(s) == {} && s.jobs != []
    requires p in s.threads && PoolThread(s.threads[p])
    ensures s' in Sound(s0) && Free(s') && Nudged(s, s', p) && s'.threads[p] == AtSemaphore
    ensures s'.jobs == s.jobs[1..]
  {
    NobodyServes(s);
    assert p !in Workers(s);
    var s1 := s;
    if s.threads[p].Asleep? {
      s1 := Go(s0, s, Wake(p));
    }
    var s2 := Go(s0, s1, Try(p));
    NudgedFree(s, s2, p);
    s' := Counts(s0, s2, p);
    NudgedTrans(s, s2, s', p);
  }

  lemma NobodyCounts(s: State)
    requires Inv(s) && Workers(s) == {}
    ensures s.working == 0
  {
    forall u | u in s.threads ensures !Busy(s.threads[u]) {
      assert u !in Workers(s);
    }
    BusyTell(s);
  }

  lemma StillNoWorkers(s: State, s': State, p: Tid)
    requires Workers(s) == {} && Nudged(s, s', p) && p in s.threads && s'.threads[p].AtSemaphore?
    ensures Workers(s') == {}
  {
    assert forall u :: u in Workers(s') ==> u in Workers(s);
  }

  lemma {:induction false} AllJobs(s0: State, s: State, p: Tid) returns (s': State)
    requires s in Sound(s0) && Free(s) && Workers(s) == {} && p in s.threads && PoolThread(s.threads[p])
    ensures s' in Sound(s0) && Free(s') && SamePool(s, s') && Workers(s') == {} && s'.jobs == []
    decreases |s.jobs|
  {
    s' := s;
    if s.jobs != [] {
      s' := OneJob(s0, s, p);
      StillNoWorkers(s, s', p);
      s' := AllJobs(s0, s', p);
    }
  }

  // ----- all waiters -----

  ghost function Waiters(s: State): set<Tid>
  {
    set t | t in s.threads && Waits(s.threads[t])
  }

  /** Only the place of thread `t` has changed. */
  ghost predicate Moved(s: State, s': State, t: Tid, pc: Pc)
  {
    s' == s.(threads := s.threads[t := pc])
  }

  lemma MovedFree(s: State, s': State, t: Tid, pc: Pc)
    requires Free(s) && Moved(s, s', t, pc) && !HoldsList(pc) && !pc.SawEmpty?
    ensures Free(s')
  {
  }

  lemma Wakes(s0: State, s: State, t: Tid) returns (s': State)
    requires s in Sound(s0) && Free(s) && t in s.threads && s.threads[t].AwaitIdle?
    ensures s' in Sound(s0) && Free(s') && Moved(s, s', t, Checking(s.threads[t].goal))
  {
    s' := Go(s0, s, WakeWaiter(t));
    MovedFree(s, s', t, Checking(s.threads[t].goal));
  }

  lemma Returns(s0: State, s: State, t: Tid) returns (s': State)
    requires s in Sound(s0) && Free(s) && s.jobs == [] && s.working == 0 && t in s.threads && s.threads[t].Checking?
    ensures s' in Sound(s0) && Free(s') && Moved(s, s', t, Client)
  {
    var s1 := Go(s0, s, ReadLength(t));
    s' := Go(s0, s1, ReadWorking(t));
    assert s'.threads == s.threads[t := Client];
    MovedFree(s, s', t, Client);
  }

  /** In an idle pool a waiter, woken for whatever reason, returns. */
  lemma OneReturns(s0: State, s: State, t: Tid) returns (s': State)
    requires s in Sound(s0) && Free(s) && Workers(s) == {} && s.jobs == [] && t in Waiters(s)
    ensures s' in Sound(s0) && Free(s') && Moved(s, s', t, Client)
  {
    NobodyCounts(s);
    if s.threads[t].AwaitIdle? {
      var s1 := Wakes(s0, s, t);
      s' := Returns(s0, s1, t);
      assert s'.threads == s.threads[t := Client];
    } else {
      s' := Returns(s0, s, t);
    }
  }

  lemma {:induction false} AllReturn(s0: State, s: State) returns (s': State)
    requires s in Sound(s0) && Free(s) && Workers(s) == {} && s.jobs == []
    ensures s' in Sound(s0) && SamePool(s, s') && Workers(s') == {} && s'.jobs == [] && Waiters(s') == {}
    decreases Waiters(s)
  {
    s' := s;
    if t :| t in s.threads && Waits(s.threads[t]) {
      s' := OneReturns(s0, s, t);
      assert Waiters(s') == Waiters(s) - {t};
      assert forall u :: u in Workers(s') ==> u in Workers(s);
      s' := AllReturn(s0, s');
    } else {
      assert forall t :: t in s.threads ==> t !in Waiters(s);
    }
  }

  // ----- the mutexes -----

  lemma LetGoOfCounters(s0: State, s: State) returns (s': State)
    requires s in Sound(s0)
    ensures s' in Sound(s0) && CountersFree(s') && SamePool(s, s')
  {
    s' := s;
    if t :| t in s.threads && s.threads[t].SawEmpty? {
      s' := Go(s0, s, ReadWorking(t));
    }
  }

  /** At most one thread holds the list. */
  lemma LastHolder(s: State, s': State, t: Tid)
    requires Mutexes(s) && CountersFree(s) && t in s.threads && HoldsList(s.threads[t]) && Nudged(s, s', t)
    requires !HoldsList(s'.threads[t]) && !s'.threads[t].SawEmpty?
    requires PoolThread(s.threads[t]) ==> PoolThread(s'.threads[t])
    ensures Free(s') && SamePool(s, s')
  {
  }

  lemma LetGoOfList(s0: State, s: State) returns (s': State)
    requires s in Sound(s0) && CountersFree(s)
    ensures s' in Sound(s0) && Free(s') && SamePool(s, s')
  {
    s' := s;
    if t :| t in s.threads && HoldsList(s.threads[t]) {
      if s.threads[t].Reposting? {
        s' := Reposts(s0, s, t);
      } else {
        s' := Posts(s0, s, t);
      }
      LastHolder(s, s', t);
    }
  }

  lemma IdleIsDone(s: State)
    requires Inv(s) && Workers(s) == {} && s.jobs == []
    ensures forall i: nat :: i < |s.added| ==> i in s.finished
  {
    NobodyCounts(s);
    forall i: nat | i < |s.added| ensures i in s.finished {
      IdleMeansFinished(s, i);
    }
  }

  lemma SamePoolTrans(s: State, s': State, s'': State)
    requires SamePool(s, s') && SamePool(s', s'')
    ensures SamePool(s, s'')
  {
  }

  lemma LetGo(s0: State, s: State) returns (s': State)
    requires s in Sound(s0)
    ensures s' in Sound(s0) && Free(s') && SamePool(s, s')
  {
    var s1 := LetGoOfCounters(s0, s);
    s' := LetGoOfList(s0, s1);
    SamePoolTrans(s, s1, s');
  }

  lemma RunsDry(s0: State, s: State, p: Tid) returns (s': State)
    requires s in Sound(s0) && Free(s) && p in s.threads && PoolThread(s.threads[p])
    ensures s' in Sound(s0) && SamePool(s, s') && s'.jobs == [] && Workers(s') == {} && Waiters(s') == {}
  {
    var s1 := AllSettle(s0, s);
    var s2 := AllJobs(s0, s1, p);
    SamePoolTrans(s, s1, s2);
    s' := AllReturn(s0, s2);
    SamePoolTrans(s, s2, s');
  }

  lemma Begin(s0: State, steps: seq<Step>) returns (s: State)
    requires Init(s0) && Legal(s0, steps)
    ensures s == After(s0, steps) && s in Sound(s)
  {
    s := After(s0, steps);
    RunInv(s0, steps);
    assert Legal(s, []) && After(s, []) == s;
  }

  /**
   From every reachable state of a pool with a thread there is a way on to one in which every
   job added so far has finished, no thread is at work and no client waits.
   */
  lemma AllCanFinish(s0: State, steps: seq<Step>, p: Tid) returns (s: State)
    requires Init(s0) && Legal(s0, steps) && p in s0.threads && s0.threads[p].AtSemaphore?
    ensures Reaches(After(s0, steps), s) && SamePool(After(s0, steps), s)
    ensures s.jobs == [] && forall i: nat :: i < |s.added| ==> i in s.finished
    ensures Workers(s) == {} && Waiters(s) == {}
  {
    var s1 := Begin(s0, steps);
    PoolStaysPool(s0, steps, p);
    var s2 := LetGo(s1, s1);
    s := RunsDry(s1, s2, p);
    SamePoolTrans(s1, s2, s);
    IdleIsDone(s);
  }
}
