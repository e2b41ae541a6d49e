/**
 The scheduling protocol around the message queues: any number of threads push messages
 and any number of workers take queues from the global list and drain them
 (misaka/lib/skynet_mq.c, and `worker` and `misaka_packet_task_route` in misaka/lib/core.c).

 A step is one locked region.  The only lock held from one step to the next is that of a
 queue whose pusher is about to insert it into the global list, so a queue is locked when
 some thread is `Inserting` it.  A handler's pushes are those of a thread of their own,
 which allows more interleavings than the program has.
 */
module Scheduler {
  import opened Options
  import opened MessageQueue

  type Qid = int
  type Tid = int

  const SANDS: nat := 100

  datatype Slot = Slot(
    contents: seq<Message>,
    inGlobal: bool,
    next: Option<Qid>,
    /** history: everything pushed to the queue, and everything handed to its handler */
    pushed: seq<Message>,
    handed: seq<Message>)

  datatype Pc =
    | Idle
    | Inserting(q: Qid)
    | Looking(sands: nat)
    | Draining(q: Qid, sands: nat)
    | Handling(q: Qid, m: Message, sands: nat)

  datatype State = State(queues: map<Qid, Slot>, head: Option<Qid>, tail: Option<Qid>, threads: map<Tid, Pc>)

  datatype Step =
    | Send(t: Tid, q: Qid, m: Message)
    | Insert(t: Tid)
    | Start(t: Tid)
    | TakeQueue(t: Tid)
    | TakeMessage(t: Tid)
    | Done(t: Tid)
    | Reschedule(t: Tid)

  ghost predicate Unlocked(s: State, q: Qid)
  {
    forall t :: t in s.threads ==> s.threads[t] != Inserting(q)
  }

  ghost predicate Enabled(s: State, step: Step)
  {
    && step.t in s.threads
    && var pc := s.threads[step.t];
    match step
    case Send(t, q, m) => pc.Idle? && q in s.queues && Unlocked(s, q)
    case Insert(t) => pc.Inserting? && pc.q in s.queues
    case Start(t) => pc.Idle?
    case TakeQueue(t) => pc.Looking? && (s.head.Some? ==> s.head.value in s.queues)
    case TakeMessage(t) => pc.Draining? && pc.sands > 0 && pc.q in s.queues && Unlocked(s, pc.q)
    case Done(t) => pc.Handling? && pc.sands > 0
    case Reschedule(t) => pc.Draining? && pc.sands == 0 && pc.q in s.queues
  }

  // ----- the locked regions -----

  /** `skynet_globalmq_push` */
  function GlobalPush(s: State, q: Qid): State
  {
    if s.tail.Some? then
      if s.tail.value in s.queues then
        var last := s.tail.value;
        s.(queues := s.queues[last := s.queues[last].(next := Some(q))], tail := Some(q))
      else s
    else s.(head := Some(q), tail := Some(q))
  }

  /** `skynet_globalmq_pop`, for a list that starts with `q` */
  function GlobalPop(s: State, q: Qid): State
    requires q in s.queues
  {
    var rest := s.queues[q].next;
    s.(queues := s.queues[q := s.queues[q].(next := None)],
    head := rest,
    tail := if rest.None? then None else s.tail)
  }

  function SetPc(s: State, t: Tid, pc: Pc): State
  {
    s.(threads := s.threads[t := pc])
  }

  function SetSlot(s: State, q: Qid, slot: Slot): State
  {
    s.(queues := s.queues[q := slot])
  }

  function Apply(s: State, step: Step): State
    requires Enabled(s, step)
  {
    var pc := s.threads[step.t];
    match step
    case Send(t, q, m) =>
      var slot := s.queues[q];
      var slot' := slot.(contents := slot.contents + [m], pushed := slot.pushed + [m], inGlobal := true);
      var s' := SetSlot(s, q, slot');
      if slot.inGlobal then s' else SetPc(s', t, Inserting(q))
    case Insert(t) => SetPc(GlobalPush(s, pc.q), t, Idle)
    case Start(t) => SetPc(s, t, Looking(SANDS))
    case TakeQueue(t) =>
      if s.head.None? then SetPc(s, t, Idle)
      else SetPc(GlobalPop(s, s.head.value), t, Draining(s.head.value, pc.sands))
    case TakeMessage(t) =>
      var slot := s.queues[pc.q];
      if slot.contents == [] then
        SetPc(SetSlot(s, pc.q, slot.(inGlobal := false)), t, Looking(pc.sands))
      else
        var m := slot.contents[0];
        SetPc(SetSlot(s, pc.q, slot.(contents := slot.contents[1..], handed := slot.handed + [m])),
              t, Handling(pc.q, m, pc.sands))
    case Done(t) => SetPc(s, t, Draining(pc.q, pc.sands - 1))
    case Reschedule(t) => SetPc(GlobalPush(s, pc.q), t, Idle)
  }

  predicate Stands(slot: Slot, q: Queue)
  {
    slot.contents == q.contents && slot.inGlobal == q.inGlobal
  }

  /** What a step does to a queue is what the operation on the ring buffer does, with the same outcome. */
  lemma StepsAreOperations(s: State, step: Step, q: Queue)
    requires Enabled(s, step) && (step.Send? || step.TakeMessage?)
    requires var id := if step.Send? then step.q else s.threads[step.t].q; Stands(s.queues[id], q)
    ensures step.Send? ==>
      && Stands(Apply(s, step).queues[step.q], Pushed(q, step.m))
      && (Apply(s, step).threads[step.t] == Inserting(step.q) <==> !q.inGlobal)
    ensures step.TakeMessage? ==>
      && Stands(Apply(s, step).queues[s.threads[step.t].q], Popped(q).1)
      && (Popped(q).0.None? <==> Apply(s, step).threads[step.t].Looking?)
      && (Popped(q).0.Some? ==>
           Apply(s, step).threads[step.t] == Handling(s.threads[step.t].q, Popped(q).0.value, s.threads[step.t].sands))
  {
  }

  // ----- the invariant, for the list `l` that the `next` fields spell out -----

  function Successor(l: seq<Qid>, i: int): Option<Qid>
    requires 0 <= i < |l|
  {
    if i + 1 < |l| then Some(l[i + 1]) else None
  }

  ghost predicate ListShape(s: State, l: seq<Qid>)
  {
    && (forall i, j :: 0 <= i < j < |l| ==> l[i] != l[j])
    && (forall q :: q in l ==> q in s.queues)
    && s.head == (if l == [] then None else Some(l[0]))
    && s.tail == (if l == [] then None else Some(l[|l| - 1]))
    && (forall i :: 0 <= i < |l| ==> s.queues[l[i]].next == Successor(l, i))
    && (forall q :: q in s.queues && q !in l ==> s.queues[q].next == None)
  }

  /** Thread `t` has queue `q` in its hands: it is inserting it, or works on it. */
  predicate Owns(s: State, t: Tid, q: Qid)
  {
    && t in s.threads
    && match s.threads[t]
       case Idle => false
       case Looking(_) => false
       case Inserting(p) => p == q
       case Draining(p, _) => p == q
       case Handling(p, _, _) => p == q
  }

  ghost predicate Ownership(s: State, l: seq<Qid>)
  {
    && (forall t, q :: Owns(s, t, q) ==> q in s.queues && s.queues[q].inGlobal && q !in l)
    && (forall t, u, q :: Owns(s, t, q) && Owns(s, u, q) ==> t == u)
    && (forall q :: q in l && q in s.queues ==> s.queues[q].inGlobal)
    && AllHeld(s, l)
  }

  ghost predicate Conservation(s: State)
  {
    forall q :: q in s.queues ==>
      && s.queues[q].pushed == s.queues[q].handed + s.queues[q].contents
      && (s.queues[q].contents != [] ==> s.queues[q].inGlobal)
  }

  ghost predicate SandsOk(s: State)
  {
    forall t :: t in s.threads ==>
      match s.threads[t]
      case Looking(n) => 0 < n <= SANDS
      case Draining(_, n) => n <= SANDS
      case Handling(_, _, n) => 0 < n <= SANDS
      case _ => true
  }

  ghost predicate Inv(s: State, l: seq<Qid>)
  {
    ListShape(s, l) && Ownership(s, l) && Conservation(s) && SandsOk(s)
  }

  /** The global list after a step: it grows at the end and shrinks at the front. */
  function NextList(s: State, step: Step, l: seq<Qid>): seq<Qid>
  {
    if step.t !in s.threads then l
    else
      var pc := s.threads[step.t];
      if step.Insert? && pc.Inserting? then l + [pc.q]
      else if step.Reschedule? && pc.Draining? then l + [pc.q]
      else if step.TakeQueue? && l != [] then l[1..]
      else l
  }

  lemma GlobalPushShape(s: State, l: seq<Qid>, q: Qid)
    requires ListShape(s, l) && q in s.queues && q !in l
    ensures ListShape(GlobalPush(s, q), l + [q])
  {
    var s', l' := GlobalPush(s, q), l + [q];
    if l != [] {
      assert l[|l| - 1] in l;
    }
    forall i | 0 <= i < |l'| ensures s'.queues[l'[i]].next == Successor(l', i) {
      if i < |l| {
        assert l[i] in l && s.queues[l[i]].next == Successor(l, i);
      }
    }
  }

  lemma GlobalPopShape(s: State, l: seq<Qid>)
    requires ListShape(s, l) && l != []
    ensures l[0] in s.queues && ListShape(GlobalPop(s, l[0]), l[1..])
  {
    assert l[0] in l;
    var s', l' := GlobalPop(s, l[0]), l[1..];
    assert s.queues[l[0]].next == Successor(l, 0);
    forall i | 0 <= i < |l'| ensures s'.queues[l'[i]].next == Successor(l', i) {
      assert s.queues[l[i + 1]].next == Successor(l, i + 1);
    }
    assert forall q :: q in l <==> q == l[0] || q in l';
  }

  // ----- every step keeps the invariant -----

  lemma StartStep(s: State, l: seq<Qid>, t: Tid)
    requires Inv(s, l) && Enabled(s, Start(t))
    ensures Inv(Apply(s, Start(t)), l)
  {
    var s' := Apply(s, Start(t));
    assert forall u, q :: Owns(s', u, q) <==> Owns(s, u, q);
  }

  lemma DoneStep(s: State, l: seq<Qid>, t: Tid)
    requires Inv(s, l) && Enabled(s, Done(t))
    ensures Inv(Apply(s, Done(t)), l)
  {
    var s' := Apply(s, Done(t));
    assert forall u, q :: Owns(s', u, q) <==> Owns(s, u, q);
  }

  /** Replacing one queue's slot keeps the books if the new slot's books balance. */
  lemma SlotConserves(s: State, q: Qid, slot: Slot, s': State)
    requires Conservation(s) && s'.queues == s.queues[q := slot]
    requires slot.pushed == slot.handed + slot.contents && (slot.contents != [] ==> slot.inGlobal)
    ensures Conservation(s')
  {
  }

  /** Replacing one queue's slot keeps the list if its link stays. */
  lemma SlotKeepsShape(s: State, l: seq<Qid>, q: Qid, slot: Slot, s': State)
    requires ListShape(s, l) && q in s.queues && slot.next == s.queues[q].next
    requires s'.queues == s.queues[q := slot] && s'.head == s.head && s'.tail == s.tail
    ensures ListShape(s', l)
  {
  }

  /** The part of ownership that names a holder for every scheduled queue off the list. */
  ghost predicate AllHeld(s: State, l: seq<Qid>)
  {
    forall q :: q in s.queues && s.queues[q].inGlobal && q !in l ==> exists t :: Owns(s, t, q)
  }

  lemma StillHeld(s: State, l: seq<Qid>, s': State, l': seq<Qid>)
    requires AllHeld(s, l)
    requires forall q :: q in s'.queues && s'.queues[q].inGlobal && q !in l' ==>
      (exists t :: Owns(s', t, q)) ||
      (q in s.queues && s.queues[q].inGlobal && q !in l && forall t :: Owns(s, t, q) ==> Owns(s', t, q))
    ensures AllHeld(s', l')
  {
  }

  lemma SendStep(s: State, l: seq<Qid>, t: Tid, q: Qid, m: Message)
    requires Inv(s, l) && Enabled(s, Send(t, q, m))
    ensures Inv(Apply(s, Send(t, q, m)), l)
  {
    var s', slot := Apply(s, Send(t, q, m)), s.queues[q];
    SlotKeepsShape(s, l, q, s'.queues[q], s');
    assert slot.pushed + [m] == slot.handed + (slot.contents + [m]);
    SlotConserves(s, q, s'.queues[q], s');
    if s.queues[q].inGlobal {
      assert forall u, p :: Owns(s', u, p) <==> Owns(s, u, p);
    } else {
      assert forall u, p :: Owns(s', u, p) <==> Owns(s, u, p) || (u == t && p == q);
      assert Owns(s', t, q);
    }
    StillHeld(s, l, s', l);
  }

  /** What insertion at the end does to everything but the list. */
  lemma GlobalPushFrame(s: State, q: Qid)
    requires s.tail.Some? ==> s.tail.value in s.queues
    ensures GlobalPush(s, q).queues.Keys == s.queues.Keys && GlobalPush(s, q).threads == s.threads
    ensures forall p :: p in s.queues ==>
      GlobalPush(s, q).queues[p] == s.queues[p].(next := GlobalPush(s, q).queues[p].next)
  {
  }

  /** A thread that has `q` in its hands inserts it and lets go of it. */
  lemma HandOver(s: State, l: seq<Qid>, t: Tid, q: Qid)
    requires Inv(s, l) && Owns(s, t, q)
    ensures Inv(SetPc(GlobalPush(s, q), t, Idle), l + [q])
    ensures s.queues[q].next == None
  {
    GlobalPushShape(s, l, q);
    if l != [] {
      assert l[|l| - 1] in l;
    }
    GlobalPushFrame(s, q);
    var s' := SetPc(GlobalPush(s, q), t, Idle);
    assert ListShape(s', l + [q]);
    forall u, p ensures Owns(s', u, p) <==> Owns(s, u, p) && p != q {
      if Owns(s, u, p) && p == q {
        assert u == t;
      }
    }
    StillHeld(s, l, s', l + [q]);
  }

  lemma TakeQueueStep(s: State, l: seq<Qid>, t: Tid)
    requires Inv(s, l) && Enabled(s, TakeQueue(t))
    ensures Inv(Apply(s, TakeQueue(t)), NextList(s, TakeQueue(t), l))
  {
    if l == [] {
      var s' := Apply(s, TakeQueue(t));
      assert forall u, p :: Owns(s', u, p) <==> Owns(s, u, p);
    } else {
      TakeFirst(s, l, t);
    }
  }

  lemma TakeFirst(s: State, l: seq<Qid>, t: Tid)
    requires Inv(s, l) && Enabled(s, TakeQueue(t)) && l != []
    ensures Inv(Apply(s, TakeQueue(t)), l[1..])
  {
    var s', l' := Apply(s, TakeQueue(t)), l[1..];
    GlobalPopShape(s, l);
    assert ListShape(s', l');
    assert s'.queues.Keys == s.queues.Keys;
    assert forall p :: p in s.queues ==> s'.queues[p] == s.queues[p].(next := s'.queues[p].next);
    assert forall p :: p in l <==> p == l[0] || p in l';
    assert forall u, p :: Owns(s', u, p) <==> Owns(s, u, p) || (u == t && p == l[0]);
    assert Owns(s', t, l[0]);
    assert l[0] !in l';
    StillHeld(s, l, s', l');
  }

  /** A worker finds the queue in its hands empty and lets go of it. */
  lemma TakeNothing(s: State, l: seq<Qid>, t: Tid)
    requires Inv(s, l) && Enabled(s, TakeMessage(t)) && s.queues[s.threads[t].q].contents == []
    ensures Inv(Apply(s, TakeMessage(t)), l)
  {
    var s', q := Apply(s, TakeMessage(t)), s.threads[t].q;
    assert Owns(s, t, q);
    SlotKeepsShape(s, l, q, s'.queues[q], s');
    SlotConserves(s, q, s'.queues[q], s');
    forall u, p ensures Owns(s', u, p) <==> Owns(s, u, p) && p != q {
      if Owns(s, u, p) && p == q {
        assert u == t;
      }
    }
    StillHeld(s, l, s', l);
  }

  lemma HandOne(pushed: seq<Message>, handed: seq<Message>, contents: seq<Message>)
    requires contents != [] && pushed == handed + contents
    ensures pushed == (handed + [contents[0]]) + contents[1..]
  {
  }

  lemma TakeOne(s: State, l: seq<Qid>, t: Tid)
    requires Inv(s, l) && Enabled(s, TakeMessage(t)) && s.queues[s.threads[t].q].contents != []
    ensures Inv(Apply(s, TakeMessage(t)), l)
  {
    var s', q := Apply(s, TakeMessage(t)), s.threads[t].q;
    var slot := s.queues[q];
    assert Owns(s, t, q);
    SlotKeepsShape(s, l, q, s'.queues[q], s');
    HandOne(slot.pushed, slot.handed, slot.contents);
    SlotConserves(s, q, s'.queues[q], s');
    SameHands(s, l, s', t);
  }

  /** A step that leaves the flags, and every queue in the hands it was in. */
  lemma SameHands(s: State, l: seq<Qid>, s': State, t: Tid)
    requires Ownership(s, l) && t in s.threads && t in s'.threads && s'.threads == s.threads[t := s'.threads[t]]
    requires s'.queues.Keys == s.queues.Keys
    requires forall p :: p in s.queues ==> s'.queues[p].inGlobal == s.queues[p].inGlobal
    requires forall p :: Owns(s', t, p) <==> Owns(s, t, p)
    ensures Ownership(s', l)
  {
    assert forall u, p :: Owns(s', u, p) <==> Owns(s, u, p);
    StillHeld(s, l, s', l);
  }

  lemma StepInv(s: State, l: seq<Qid>, step: Step)
    requires Inv(s, l) && Enabled(s, step)
    ensures Inv(Apply(s, step), NextList(s, step, l))
  {
    match step
    case Send(t, q, m) => SendStep(s, l, t, q, m);
    case Insert(t) => HandOver(s, l, t, s.threads[t].q);
    case Start(t) => StartStep(s, l, t);
    case TakeQueue(t) => TakeQueueStep(s, l, t);
    case TakeMessage(t) =>
      if s.queues[s.threads[t].q].contents == [] {
        TakeNothing(s, l, t);
      } else {
        TakeOne(s, l, t);
      }
    case Done(t) => DoneStep(s, l, t);
    case Reschedule(t) => HandOver(s, l, t, s.threads[t].q);
  }

  // ----- whole runs -----

  ghost predicate Init(s: State)
  {
    && s.head == None && s.tail == None
    && (forall q :: q in s.queues ==> s.queues[q] == Slot([], false, None, [], []))
    && (forall t :: t in s.threads ==> s.threads[t].Idle?)
  }

  /** The states of a run, one per step taken from `s`. */
  ghost predicate Legal(s: State, steps: seq<Step>)
    decreases |steps|, 0
  {
    steps == [] ||
    (Legal(s, steps[..|steps| - 1]) && Enabled(After(s, steps[..|steps| - 1]), steps[|steps| - 1]))
  }

  ghost function After(s: State, steps: seq<Step>): State
    requires Legal(s, steps)
    decreases |steps|, 1
  {
    if steps == [] then s else Apply(After(s, steps[..|steps| - 1]), steps[|steps| - 1])
  }

  /** The global list in the course of a run. */
  ghost function ListAfter(s: State, l: seq<Qid>, steps: seq<Step>): seq<Qid>
    requires Legal(s, steps)
  {
    if steps == [] then l
    else
      var front := steps[..|steps| - 1];
      NextList(After(s, front), steps[|steps| - 1], ListAfter(s, l, front))
  }

  lemma {:induction false} RunInv(s: State, l: seq<Qid>, steps: seq<Step>)
    requires Inv(s, l) && Legal(s, steps)
    ensures Inv(After(s, steps), ListAfter(s, l, steps))
  {
    if steps != [] {
      var front := steps[..|steps| - 1];
      RunInv(s, l, front);
      StepInv(After(s, front), ListAfter(s, l, front), steps[|steps| - 1]);
    }
  }

  lemma InitInv(s: State)
    requires Init(s)
    ensures Inv(s, [])
  {
  }

  /**
   A queue is flagged exactly when it is in the global list once or in the hands of exactly
   one thread, and never both.
   */
  lemma FlagMeansScheduled(s: State, steps: seq<Step>, q: Qid)
    requires Init(s) && Legal(s, steps) && q in After(s, steps).queues
    ensures var s', l := After(s, steps), ListAfter(s, [], steps);
      && ListShape(s', l)
      && (s'.queues[q].inGlobal <==> q in l || exists t :: Owns(s', t, q))
      && (q in l ==> forall t :: !Owns(s', t, q))
      && (forall t, u :: Owns(s', t, q) && Owns(s', u, q) ==> t == u)
  {
    InitInv(s);
    RunInv(s, [], steps);
  }

  /** Two workers never handle messages of one queue together. */
  lemma OneHandlerAtATime(s: State, steps: seq<Step>, t: Tid, u: Tid)
    requires Init(s) && Legal(s, steps)
    requires var s' := After(s, steps);
      t in s'.threads && u in s'.threads && s'.threads[t].Handling? && s'.threads[u].Handling?
      && s'.threads[t].q == s'.threads[u].q
    ensures t == u
  {
    InitInv(s);
    RunInv(s, [], steps);
    var s' := After(s, steps);
    assert Owns(s', t, s'.threads[t].q) && Owns(s', u, s'.threads[t].q);
  }

  /** Handed over so far, then still queued: everything pushed, in order; and waiting messages are always scheduled. */
  lemma NothingLost(s: State, steps: seq<Step>, q: Qid)
    requires Init(s) && Legal(s, steps) && q in After(s, steps).queues
    ensures var s', l := After(s, steps), ListAfter(s, [], steps);
      && s'.queues[q].pushed == s'.queues[q].handed + s'.queues[q].contents
      && (s'.queues[q].contents != [] ==> q in l || exists t :: Owns(s', t, q))
  {
    InitInv(s);
    RunInv(s, [], steps);
  }

  /** The disabled assertion of `skynet_globalmq_push` and the live one of `skynet_globalmq_pop` hold. */
  lemma AssertionsHold(s: State, steps: seq<Step>, step: Step)
    requires Init(s) && Legal(s, steps) && Enabled(After(s, steps), step)
    ensures var s' := After(s, steps);
      && (step.Insert? || step.Reschedule? ==> s'.queues[s'.threads[step.t].q].next == None)
      && (step.TakeQueue? && s'.head.Some? && s'.queues[s'.head.value].next == None ==> s'.tail == s'.head)
  {
    InitInv(s);
    RunInv(s, [], steps);
    var s', l := After(s, steps), ListAfter(s, [], steps);
    if step.Insert? || step.Reschedule? {
      assert Owns(s', step.t, s'.threads[step.t].q);
    } else if step.TakeQueue? && l != [] {
      assert s'.queues[l[0]].next == Successor(l, 0);
    }
  }
}
