/**
 Nothing in the scheduling of misaka/lib/skynet_mq.c and `worker` gets stuck: from every
 reachable state the threads can go on so that every message pushed is handed to its handler.
 */
module SchedulerProgress {
  import opened Options
  import opened MessageQueue
  import opened Scheduler

  /** A state with the global list that its `next` fields spell out. */
  datatype Spot = Spot(s: State, l: seq<Qid>)

  ghost predicate Reaches(s0: State, s: State)
  {
    exists steps :: Legal(s0, steps) && After(s0, steps) == s
  }

  /** What can be reached from `s0`, all of it sound. */
  ghost function Sound(s0: State): iset<Spot>
  {
    iset x: Spot | Reaches(s0, x.s) && Inv(x.s, x.l)
  }

  lemma Go(s0: State, x: Spot, step: Step) returns (y: Spot)
    requires x in Sound(s0) && Enabled(x.s, step)
    ensures y == Spot(Apply(x.s, step), NextList(x.s, step, x.l)) && y in Sound(s0)
  {
    y := Spot(Apply(x.s, step), NextList(x.s, step, x.l));
    StepInv(x.s, x.l, step);
    var steps :| Legal(s0, steps) && After(s0, steps) == x.s;
    assert (steps + [step])[..|steps|] == steps;
    assert Legal(s0, steps + [step]) && After(s0, steps + [step]) == y.s;
  }

  // ----- how much is waiting -----

  /** Nothing was pushed, and no queue has more messages waiting. */
  ghost predicate NoMore(s: State, s': State)
  {
    && s'.queues.Keys == s.queues.Keys && s'.threads.Keys == s.threads.Keys
    && forall q :: q in s.queues ==>
         s'.queues[q].pushed == s.queues[q].pushed && |s'.queues[q].contents| <= |s.queues[q].contents|
  }

  ghost predicate Fewer(s: State, s': State)
  {
    exists q :: q in s.queues && q in s'.queues && |s'.queues[q].contents| < |s.queues[q].contents|
  }

  ghost function Load(s: State, ids: seq<Qid>): nat
  {
    if ids == [] then 0
    else (if ids[0] in s.queues then |s.queues[ids[0]].contents| else 0) + Load(s, ids[1..])
  }

  lemma {:induction false} LoadShrinks(s: State, s': State, ids: seq<Qid>)
    requires NoMore(s, s') && forall q :: q in ids ==> q in s.queues
    ensures Load(s', ids) <= Load(s, ids)
    ensures (exists q :: q in ids && |s'.queues[q].contents| < |s.queues[q].contents|) ==> Load(s', ids) < Load(s, ids)
  {
    if ids != [] {
      LoadShrinks(s, s', ids[1..]);
      assert forall q :: q in ids <==> q == ids[0] || q in ids[1..];
    }
  }

  lemma {:induction false} Listing(keys: set<Qid>) returns (ids: seq<Qid>)
    ensures forall q :: q in ids <==> q in keys
  {
    ids := [];
    if q :| q in keys {
      ids := Listing(keys - {q});
      ids := ids + [q];
    }
  }

  lemma NoMoreTrans(s: State, s': State, s'': State)
    requires NoMore(s, s') && NoMore(s', s'')
    ensures NoMore(s, s'') && (Fewer(s, s') || Fewer(s', s'') ==> Fewer(s, s''))
  {
    if Fewer(s, s') {
      var q :| q in s.queues && q in s'.queues && |s'.queues[q].contents| < |s.queues[q].contents|;
      assert |s''.queues[q].contents| < |s.queues[q].contents|;
    } else if Fewer(s', s'') {
      var q :| q in s'.queues && q in s''.queues && |s''.queues[q].contents| < |s'.queues[q].contents|;
      assert |s''.queues[q].contents| < |s.queues[q].contents|;
    }
  }

  // ----- all insertions made -----

  ghost predicate NoInsertion(s: State)
  {
    forall t :: t in s.threads ==> !s.threads[t].Inserting?
  }

  ghost function Inserters(s: State): set<Tid>
  {
    set t | t in s.threads && s.threads[t].Inserting?
  }

  lemma Inserted(s0: State, x: Spot, t: Tid) returns (y: Spot)
    requires x in Sound(s0) && t in x.s.threads && x.s.threads[t].Inserting?
    ensures y in Sound(s0) && NoMore(x.s, y.s) && y.s.threads == x.s.threads[t := Idle]
  {
    assert Owns(x.s, t, x.s.threads[t].q);
    y := Go(s0, x, Insert(t));
  }

  lemma {:induction false} AllInserted(s0: State, x: Spot) returns (y: Spot)
    requires x in Sound(s0)
    ensures y in Sound(s0) && NoMore(x.s, y.s) && NoInsertion(y.s)
    decreases Inserters(x.s)
  {
    y := x;
    if t :| t in x.s.threads && x.s.threads[t].Inserting? {
      var z := Inserted(s0, x, t);
      assert t in Inserters(x.s) && Inserters(z.s) == Inserters(x.s) - {t};
      y := AllInserted(s0, z);
      NoMoreTrans(x.s, z.s, y.s);
    }
  }

  // ----- one worker to its end -----

  /** Thread `t` has moved on, to `pc`. */
  ghost predicate Moved(x: Spot, y: Spot, t: Tid, pc: Pc)
  {
    t in x.s.threads && y.s.threads == x.s.threads[t := pc] && NoMore(x.s, y.s)
  }

  lemma MovedQuiet(x: Spot, y: Spot, t: Tid, pc: Pc)
    requires NoInsertion(x.s) && Moved(x, y, t, pc) && !pc.Inserting?
    ensures NoInsertion(y.s)
  {
  }

  lemma MovedTwice(x: Spot, y: Spot, z: Spot, t: Tid, pc: Pc, pc': Pc)
    requires Moved(x, y, t, pc) && Moved(y, z, t, pc')
    ensures Moved(x, z, t, pc') && (Fewer(x.s, y.s) || Fewer(y.s, z.s) ==> Fewer(x.s, z.s))
  {
    NoMoreTrans(x.s, y.s, z.s);
  }

  lemma Looks(s0: State, x: Spot, t: Tid) returns (y: Spot)
    requires x in Sound(s0) && t in x.s.threads && x.s.threads[t].Looking?
    ensures y in Sound(s0)
    ensures if x.l == [] then y.l == [] && Moved(x, y, t, Idle)
            else y.l == x.l[1..] && Moved(x, y, t, Draining(x.l[0], x.s.threads[t].sands))
  {
    if x.l != [] {
      assert x.l[0] in x.l;
    }
    y := Go(s0, x, TakeQueue(t));
  }

  lemma Drains(s0: State, x: Spot, t: Tid) returns (y: Spot, pc: Pc)
    requires x in Sound(s0) && NoInsertion(x.s)
    requires t in x.s.threads && x.s.threads[t].Draining? && x.s.threads[t].sands > 0
    ensures y in Sound(s0) && y.l == x.l && Moved(x, y, t, pc)
    ensures pc == Looking(x.s.threads[t].sands) ||
            (pc.Handling? && pc.sands == x.s.threads[t].sands && Fewer(x.s, y.s))
  {
    var q := x.s.threads[t].q;
    assert Owns(x.s, t, q);
    y := Go(s0, x, TakeMessage(t));
    pc := y.s.threads[t];
    if x.s.queues[q].contents != [] {
      assert |y.s.queues[q].contents| < |x.s.queues[q].contents|;
    }
  }

  lemma Handled(s0: State, x: Spot, t: Tid) returns (y: Spot)
    requires x in Sound(s0) && t in x.s.threads && x.s.threads[t].Handling?
    ensures y in Sound(s0) && y.l == x.l && x.s.threads[t].sands > 0
    ensures Moved(x, y, t, Draining(x.s.threads[t].q, x.s.threads[t].sands - 1))
  {
    y := Go(s0, x, Done(t));
  }

  lemma Rescheduled(s0: State, x: Spot, t: Tid) returns (y: Spot)
    requires x in Sound(s0) && NoInsertion(x.s)
    requires t in x.s.threads && x.s.threads[t].Draining? && x.s.threads[t].sands == 0
    ensures y in Sound(s0) && NoInsertion(y.s) && Moved(x, y, t, Idle)
  {
    assert Owns(x.s, t, x.s.threads[t].q);
    y := Go(s0, x, Reschedule(t));
    MovedQuiet(x, y, t, Idle);
  }

  function Sands(pc: Pc): nat
  {
    match pc
    case Looking(n) => n
    case Draining(_, n) => n
    case Handling(_, _, n) => n
    case _ => 0
  }

  /** A worker goes on until it is idle: the list is then empty, or it has handled something. */
  lemma {:induction false} ToIdle(s0: State, x: Spot, t: Tid) returns (y: Spot)
    requires x in Sound(s0) && NoInsertion(x.s) && t in x.s.threads
    ensures y in Sound(s0) && NoInsertion(y.s) && Moved(x, y, t, Idle)
    ensures x.s.threads[t].Looking? || (x.s.threads[t].Draining? && x.s.threads[t].sands > 0) ==>
              y.l == [] || Fewer(x.s, y.s)
    decreases Sands(x.s.threads[t]), |x.l|, x.s.threads[t].Draining?
  {
    y := x;
    var pc := x.s.threads[t];
    if pc.Looking? {
      y := FromLooking(s0, x, t);
    } else if pc.Handling? {
      y := FromHandling(s0, x, t);
    } else if pc.Draining? {
      if pc.sands == 0 {
        y := Rescheduled(s0, x, t);
      } else {
        y := FromDraining(s0, x, t);
      }
    } else {
      assert x.s.threads == x.s.threads[t := Idle];
    }
  }

  lemma {:induction false} FromHandling(s0: State, x: Spot, t: Tid) returns (y: Spot)
    requires x in Sound(s0) && NoInsertion(x.s) && t in x.s.threads && x.s.threads[t].Handling?
    ensures y in Sound(s0) && NoInsertion(y.s) && Moved(x, y, t, Idle)
    decreases Sands(x.s.threads[t]), |x.l|, false, 0
  {
    var z := Handled(s0, x, t);
    var pc := Draining(x.s.threads[t].q, x.s.threads[t].sands - 1);
    MovedQuiet(x, z, t, pc);
    y := ToIdle(s0, z, t);
    MovedTwice(x, z, y, t, pc, Idle);
  }

  lemma {:induction false} FromLooking(s0: State, x: Spot, t: Tid) returns (y: Spot)
    requires x in Sound(s0) && NoInsertion(x.s) && t in x.s.threads && x.s.threads[t].Looking?
    ensures y in Sound(s0) && NoInsertion(y.s) && Moved(x, y, t, Idle)
    ensures y.l == [] || Fewer(x.s, y.s)
    decreases Sands(x.s.threads[t]), |x.l|, false, 0
  {
    var n := Sands(x.s.threads[t]);
    y := Looks(s0, x, t);
    if x.l == [] {
      MovedQuiet(x, y, t, Idle);
    } else {
      var z := y;
      MovedQuiet(x, z, t, Draining(x.l[0], n));
      y := ToIdle(s0, z, t);
      MovedTwice(x, z, y, t, Draining(x.l[0], n), Idle);
    }
  }

  lemma {:induction false} FromDraining(s0: State, x: Spot, t: Tid) returns (y: Spot)
    requires x in Sound(s0) && NoInsertion(x.s)
    requires t in x.s.threads && x.s.threads[t].Draining? && x.s.threads[t].sands > 0
    ensures y in Sound(s0) && NoInsertion(y.s) && Moved(x, y, t, Idle)
    ensures y.l == [] || Fewer(x.s, y.s)
    decreases Sands(x.s.threads[t]), |x.l|, true, 0
  {
    var z, pc := Drains(s0, x, t);
    MovedQuiet(x, z, t, pc);
    y := ToIdle(s0, z, t);
    MovedTwice(x, z, y, t, pc, Idle);
  }

  // ----- everybody idle -----

  ghost function Busy(s: State): set<Tid>
  {
    set t | t in s.threads && !s.threads[t].Idle?
  }

  ghost predicate AllIdle(s: State)
  {
    forall t :: t in s.threads ==> s.threads[t].Idle?
  }

  lemma {:induction false} AllToIdle(s0: State, x: Spot) returns (y: Spot)
    requires x in Sound(s0) && NoInsertion(x.s)
    ensures y in Sound(s0) && NoMore(x.s, y.s) && AllIdle(y.s)
    decreases Busy(x.s)
  {
    y := x;
    if t :| t in x.s.threads && !x.s.threads[t].Idle? {
      var z := ToIdle(s0, x, t);
      assert t in Busy(x.s) && Busy(z.s) == Busy(x.s) - {t};
      y := AllToIdle(s0, z);
      NoMoreTrans(x.s, z.s, y.s);
    }
  }

  // ----- everything handed over -----

  ghost predicate AllHanded(s: State)
  {
    forall q :: q in s.queues ==> s.queues[q].contents == [] && s.queues[q].handed == s.queues[q].pushed
  }

  /** With everybody idle and the list empty, nothing is waiting. */
  lemma NothingWaits(x: Spot)
    requires Inv(x.s, x.l) && AllIdle(x.s) && x.l == []
    ensures AllHanded(x.s)
  {
    forall q | q in x.s.queues ensures x.s.queues[q].contents == [] {
      assert forall t :: !Owns(x.s, t, q);
    }
  }

  lemma OneRound(s0: State, x: Spot, w: Tid) returns (y: Spot)
    requires x in Sound(s0) && AllIdle(x.s) && w in x.s.threads
    ensures y in Sound(s0) && NoMore(x.s, y.s) && AllIdle(y.s) && (y.l == [] || Fewer(x.s, y.s))
  {
    var z := Go(s0, x, Start(w));
    assert Moved(x, z, w, Looking(SANDS));
    MovedQuiet(x, z, w, Looking(SANDS));
    y := ToIdle(s0, z, w);
    MovedTwice(x, z, y, w, Looking(SANDS), Idle);
  }

  lemma {:induction false} RunsDry(s0: State, x: Spot, w: Tid, ids: seq<Qid>) returns (y: Spot)
    requires x in Sound(s0) && AllIdle(x.s) && w in x.s.threads && forall q :: q in ids <==> q in x.s.queues
    ensures y in Sound(s0) && NoMore(x.s, y.s) && AllIdle(y.s) && y.l == []
    decreases Load(x.s, ids)
  {
    y := OneRound(s0, x, w);
    if y.l != [] {
      var z := y;
      LoadShrinks(x.s, z.s, ids);
      assert Load(z.s, ids) < Load(x.s, ids);
      y := RunsDry(s0, z, w, ids);
      NoMoreTrans(x.s, z.s, y.s);
    }
  }

  lemma Begin(s0: State, steps: seq<Step>) returns (x: Spot)
    requires Init(s0) && Legal(s0, steps)
    ensures x.s == After(s0, steps) && x in Sound(x.s)
  {
    x := Spot(After(s0, steps), ListAfter(s0, [], steps));
    InitInv(s0);
    RunInv(s0, [], steps);
    assert Legal(x.s, []) && After(x.s, []) == x.s;
  }

  /**
   From every reachable state with a thread there is a way on to one in which every message
   pushed so far has been handed to its handler and every thread is idle.
   */
  lemma AllCanBeHanded(s0: State, steps: seq<Step>, w: Tid) returns (s: State)
    requires Init(s0) && Legal(s0, steps) && w in After(s0, steps).threads
    ensures Reaches(After(s0, steps), s) && NoMore(After(s0, steps), s)
    ensures AllHanded(s) && AllIdle(s)
  {
    var x := Begin(s0, steps);
    var x1 := AllInserted(x.s, x);
    var x2 := AllToIdle(x.s, x1);
    NoMoreTrans(x.s, x1.s, x2.s);
    var ids := Listing(x2.s.queues.Keys);
    var x3 := RunsDry(x.s, x2, w, ids);
    NoMoreTrans(x.s, x2.s, x3.s);
    NothingWaits(x3);
    s := x3.s;
  }
}
