/**
 `worker` of misaka/lib/core.c as one thread of the scheduling protocol, run without
 interference: every thing it does is a step of the protocol, and it stops after at most
 100 messages although handlers may push and reschedule.
 */
module Worker {
  import opened Options
  import opened MessageQueue
  import opened Scheduler

  /**
   What the handlers do: the messages that the handling of the `k`-th message pushes in turn.
   They may do something else each time, as they keep state of their own.
   */
  type Handler = (nat, Message) -> seq<(Qid, Message)>

  ghost predicate Quiet(threads: map<Tid, Pc>)
  {
    forall t :: t in threads ==> !threads[t].Inserting?
  }

  lemma LegalSnoc(s: State, steps: seq<Step>, step: Step)
    requires Legal(s, steps) && Enabled(After(s, steps), step)
    ensures Legal(s, steps + [step]) && After(s, steps + [step]) == Apply(After(s, steps), step)
  {
    assert (steps + [step])[..|steps|] == steps;
  }

  /** The message that a step takes out of a queue, if any. */
  ghost function TakenBy(s: State, step: Step): seq<Message>
    requires Enabled(s, step)
  {
    if step.TakeMessage? && s.queues[s.threads[step.t].q].contents != [] then
      [s.queues[s.threads[step.t].q].contents[0]]
    else []
  }

  /** The messages taken out of the queues in a run, in order. */
  ghost function Taken(s0: State, steps: seq<Step>): seq<Message>
    requires Legal(s0, steps)
  {
    if steps == [] then []
    else
      var front := steps[..|steps| - 1];
      Taken(s0, front) + TakenBy(After(s0, front), steps[|steps| - 1])
  }

  ghost function SentBy(step: Step): seq<(Qid, Message)>
  {
    if step.Send? then [(step.q, step.m)] else []
  }

  /** The messages pushed in a run, in order. */
  ghost function Sent(steps: seq<Step>): seq<(Qid, Message)>
  {
    if steps == [] then [] else Sent(steps[..|steps| - 1]) + SentBy(steps[|steps| - 1])
  }

  /** What the handling of `ms`, after `done` messages, pushes. */
  function Pushes(handler: Handler, done: nat, ms: seq<Message>): seq<(Qid, Message)>
  {
    if ms == [] then []
    else
      var k := |ms| - 1;
      Pushes(handler, done, ms[..k]) + handler(done + k, ms[k])
  }

  lemma PushesSnoc(handler: Handler, done: nat, ms: seq<Message>, m: Message)
    ensures Pushes(handler, done, ms + [m]) == Pushes(handler, done, ms) + handler(done + |ms|, m)
  {
    assert (ms + [m])[..|ms|] == ms;
  }

  lemma Associates<T>(a: seq<T>, b: seq<T>, c: seq<T>)
    ensures (a + b) + c == a + (b + c)
  {
  }

  lemma {:induction false} PushesConcat(handler: Handler, done: nat, a: seq<Message>, b: seq<Message>)
    ensures Pushes(handler, done, a + b) == Pushes(handler, done, a) + Pushes(handler, done + |a|, b)
  {
    if b == [] {
      assert a + b == a;
    } else {
      var front, last := b[..|b| - 1], b[|b| - 1];
      PushesConcat(handler, done, a, front);
      PushesSnoc(handler, done, a + front, last);
      assert a + b == (a + front) + [last];
      Associates(Pushes(handler, done, a), Pushes(handler, done + |a|, front), handler(done + |a| + |front|, last));
    }
  }

  /** A run in progress: its steps, the state and global list it has reached, the messages taken and pushed. */
  datatype Progress = Progress(
    steps: seq<Step>, state: State, list: seq<Qid>, taken: seq<Message>, sent: seq<(Qid, Message)>)

  ghost function Next(r: Progress, step: Step): Progress
    requires Enabled(r.state, step)
  {
    Progress(r.steps + [step], Apply(r.state, step), NextList(r.state, step, r.list),
             r.taken + TakenBy(r.state, step), r.sent + SentBy(step))
  }

  /** What the worker needs of the global list. */
  ghost predicate Linked(s: State, l: seq<Qid>)
  {
    && (s.head.Some? <==> l != [])
    && (s.head.Some? ==> s.head.value in s.queues)
    && (s.tail.Some? ==> s.tail.value in s.queues)
  }

  /** A set of runs closed under steps, in which the list is well linked. */
  ghost predicate Runs(ok: Progress -> bool)
  {
    && (forall r, step :: ok(r) && Enabled(r.state, step) ==> ok(Next(r, step)))
    && (forall r :: ok(r) ==> Linked(r.state, r.list))
  }

  /** The runs from `s0`. */
  ghost predicate IsRun(s0: State, l0: seq<Qid>, r: Progress)
  {
    && Legal(s0, r.steps) && After(s0, r.steps) == r.state
    && ListAfter(s0, l0, r.steps) == r.list && Taken(s0, r.steps) == r.taken
    && Sent(r.steps) == r.sent
  }

  ghost function RunsFrom(s0: State, l0: seq<Qid>): Progress -> bool
  {
    (r: Progress) => IsRun(s0, l0, r)
  }

  lemma RunsFromClosed(s0: State, l0: seq<Qid>)
    requires Inv(s0, l0)
    ensures Runs(RunsFrom(s0, l0))
  {
    var ok := RunsFrom(s0, l0);
    forall r, step | ok(r) && Enabled(r.state, step) ensures ok(Next(r, step)) {
      LegalSnoc(s0, r.steps, step);
      assert (r.steps + [step])[..|r.steps|] == r.steps;
    }
    forall r | ok(r) ensures Linked(r.state, r.list) {
      RunInv(s0, l0, r.steps);
      if r.list != [] {
        assert r.list[0] in r.list && r.list[|r.list| - 1] in r.list;
      }
    }
  }

  lemma RunsFromStart(s0: State, l0: seq<Qid>) returns (ok: Progress -> bool, r: Progress)
    ensures ok == RunsFrom(s0, l0) && ok(r)
    ensures r == Progress([], s0, l0, [], [])
  {
    ok, r := RunsFrom(s0, l0), Progress([], s0, l0, [], []);
  }

  lemma RunsFromEnd(s0: State, l0: seq<Qid>, r: Progress)
    requires RunsFrom(s0, l0)(r)
    ensures Legal(s0, r.steps) && After(s0, r.steps) == r.state
    ensures Taken(s0, r.steps) == r.taken && Sent(r.steps) == r.sent
  {
  }

  /** Pushing one message leaves every thread where it was and every queue in place. */
  lemma RouteFrame(s: State, l: seq<Qid>, p: Tid, q: Qid, m: Message)
    requires Linked(s, l) && Enabled(s, Send(p, q, m))
    ensures var s1 := Apply(s, Send(p, q, m));
      && s1.queues.Keys == s.queues.Keys && s1.head == s.head && s1.tail == s.tail
      && if s1.threads[p].Inserting? then
           Enabled(s1, Insert(p)) && Apply(s1, Insert(p)).threads == s.threads
           && Apply(s1, Insert(p)).queues.Keys == s.queues.Keys
         else s1.threads == s.threads
  {
  }

  /** `misaka_packet_task_route` for one message: push it, and insert its queue if it was not scheduled. */
  method Route(s: State, p: Tid, q: Qid, m: Message, ghost ok: Progress -> bool, ghost r: Progress)
    returns (s': State, ghost r': Progress)
    requires Runs(ok) && ok(r) && r.state == s
    requires q in s.queues && p in s.threads && s.threads[p].Idle? && Quiet(s.threads)
    ensures ok(r') && r'.state == s' && r'.taken == r.taken && r'.sent == r.sent + [(q, m)]
    ensures s'.threads == s.threads && s'.queues.Keys == s.queues.Keys
  {
    RouteFrame(s, r.list, p, q, m);
    s', r' := Apply(s, Send(p, q, m)), Next(r, Send(p, q, m));
    if s'.threads[p].Inserting? {
      s', r' := Apply(s', Insert(p)), Next(r', Insert(p));
    }
  }

  /** The pushes of a handler. */
  method Handle(s: State, p: Tid, pushes: seq<(Qid, Message)>, ghost ok: Progress -> bool, ghost r: Progress)
    returns (s': State, ghost r': Progress)
    requires Runs(ok) && ok(r) && r.state == s
    requires p in s.threads && s.threads[p].Idle? && Quiet(s.threads)
    requires forall k :: 0 <= k < |pushes| ==> pushes[k].0 in s.queues
    ensures ok(r') && r'.state == s' && r'.taken == r.taken && r'.sent == r.sent + pushes
    ensures s'.threads == s.threads && s'.queues.Keys == s.queues.Keys
  {
    s', r' := s, r;
    var k := 0;
    while k < |pushes|
      invariant 0 <= k <= |pushes| && ok(r') && r'.state == s' && r'.taken == r.taken
      invariant s'.threads == s.threads && s'.queues.Keys == s.queues.Keys
      invariant r'.sent == r.sent + pushes[..k]
    {
      s', r' := Route(s', p, pushes[k].0, pushes[k].1, ok, r');
      k := k + 1;
    }
  }

  /** Worker `w` is at `pc`, and every other thread as in `threads`. */
  ghost predicate At(s: State, threads: map<Tid, Pc>, w: Tid, pc: Pc)
  {
    s.threads == threads[w := pc]
  }

  ghost predicate Targets(handler: Handler, queues: set<Qid>)
  {
    forall n, m, k :: 0 <= k < |handler(n, m)| ==> handler(n, m)[k].0 in queues
  }

  /** The worker runs undisturbed, and handlers push to existing queues on behalf of thread `p`. */
  ghost predicate Undisturbed(threads: map<Tid, Pc>, w: Tid, p: Tid)
  {
    w != p && p in threads && threads[p].Idle? && Quiet(threads)
  }

  lemma TakeEffect(s: State, l: seq<Qid>, threads: map<Tid, Pc>, w: Tid, q: Qid, left: nat)
    requires At(s, threads, w, Draining(q, left)) && left > 0 && q in s.queues && Quiet(threads)
    ensures Enabled(s, TakeMessage(w)) && NextList(s, TakeMessage(w), l) == l
    ensures var s', cs := Apply(s, TakeMessage(w)), s.queues[q].contents;
      && s'.queues.Keys == s.queues.Keys
      && At(s', threads, w, if cs == [] then Looking(left) else Handling(q, cs[0], left))
  {
  }

  lemma DoneEffect(s: State, l: seq<Qid>, threads: map<Tid, Pc>, w: Tid, q: Qid, m: Message, left: nat)
    requires At(s, threads, w, Handling(q, m, left)) && left > 0
    ensures Enabled(s, Done(w)) && NextList(s, Done(w), l) == l
    ensures At(Apply(s, Done(w)), threads, w, Draining(q, left - 1))
    ensures Apply(s, Done(w)).queues == s.queues
  {
  }

  lemma QueueEffect(s: State, l: seq<Qid>, threads: map<Tid, Pc>, w: Tid, left: nat)
    requires At(s, threads, w, Looking(left)) && Linked(s, l)
    ensures Enabled(s, TakeQueue(w))
    ensures var s', l' := Apply(s, TakeQueue(w)), NextList(s, TakeQueue(w), l);
      if s.head.None? then At(s', threads, w, Idle) && s'.head == None
      else At(s', threads, w, Draining(s.head.value, left)) && |l'| < |l| && s'.queues.Keys == s.queues.Keys
  {
  }

  lemma RescheduleEffect(s: State, l: seq<Qid>, threads: map<Tid, Pc>, w: Tid, q: Qid)
    requires At(s, threads, w, Draining(q, 0)) && q in s.queues
    ensures Enabled(s, Reschedule(w)) && At(Apply(s, Reschedule(w)), threads, w, Idle)
  {
  }

  /** One round of the inner loop: pop a message and handle it, or find the queue empty. */
  method One(s: State, w: Tid, p: Tid, q: Qid, left: nat, handler: Handler, done: nat,
             ghost threads: map<Tid, Pc>, ghost ok: Progress -> bool, ghost r: Progress)
    returns (s': State, message: Option<Message>, ghost r': Progress)
    requires Runs(ok) && ok(r) && r.state == s && Undisturbed(threads, w, p)
    requires At(s, threads, w, Draining(q, left)) && left > 0 && q in s.queues && Targets(handler, s.queues.Keys)
    ensures ok(r') && r'.state == s' && s'.queues.Keys == s.queues.Keys
    ensures At(s', threads, w, if message.None? then Looking(left) else Draining(q, left - 1))
    ensures r'.taken == r.taken + if message.None? then [] else [message.value]
    ensures r'.sent == r.sent + if message.None? then [] else handler(done, message.value)
    ensures message.None? ==> r'.list == r.list
  {
    TakeEffect(s, r.list, threads, w, q, left);
    s', r', message := Apply(s, TakeMessage(w)), Next(r, TakeMessage(w)), None;
    if s.queues[q].contents != [] {
      var m := s.queues[q].contents[0];
      message := Some(m);
      s', r' := Handle(s', p, handler(done, m), ok, r');
      DoneEffect(s', r'.list, threads, w, q, m, left);
      s', r' := Apply(s', Done(w)), Next(r', Done(w));
    }
  }

  /** The inner loop of `worker`: drain `q` while there are sands. */
  method Drain(s: State, w: Tid, p: Tid, q: Qid, n: nat, handler: Handler, done: nat,
               ghost threads: map<Tid, Pc>, ghost ok: Progress -> bool, ghost r: Progress)
    returns (s': State, left: nat, handled: seq<Message>, ghost r': Progress)
    requires Runs(ok) && ok(r) && r.state == s && Undisturbed(threads, w, p)
    requires At(s, threads, w, Draining(q, n)) && n > 0 && q in s.queues && Targets(handler, s.queues.Keys)
    ensures ok(r') && r'.state == s' && s'.queues.Keys == s.queues.Keys
    ensures At(s', threads, w, if left == 0 then Draining(q, 0) else Looking(left))
    ensures left + |handled| == n && r'.taken == r.taken + handled
    ensures r'.sent == r.sent + Pushes(handler, done, handled)
    ensures handled == [] ==> r'.list == r.list
  {
    s', left, handled, r' := s, n, [], r;
    while left > 0
      invariant ok(r') && r'.state == s' && s'.queues.Keys == s.queues.Keys
      invariant At(s', threads, w, Draining(q, left))
      invariant left + |handled| == n && r'.taken == r.taken + handled
      invariant r'.sent == r.sent + Pushes(handler, done, handled)
      invariant handled == [] ==> r'.list == r.list
      decreases left
    {
      var message;
      s', message, r' := One(s', w, p, q, left, handler, done + |handled|, threads, ok, r');
      if message.None? {
        break;
      }
      PushesSnoc(handler, done, handled, message.value);
      handled, left := handled + [message.value], left - 1;
    }
  }

  /** The next queue of the global list, if there is one. */
  method NextQueue(s: State, w: Tid, n: nat, ghost threads: map<Tid, Pc>, ghost ok: Progress -> bool, ghost r: Progress)
    returns (s': State, taken: bool, q: Qid, ghost r': Progress)
    requires Runs(ok) && ok(r) && r.state == s && At(s, threads, w, Looking(n))
    ensures ok(r') && r'.state == s' && r'.taken == r.taken && r'.sent == r.sent
    ensures taken ==>
              && At(s', threads, w, Draining(q, n)) && q in s'.queues
              && s'.queues.Keys == s.queues.Keys && |r'.list| < |r.list|
    ensures !taken ==> At(s', threads, w, Idle) && s'.head == None
  {
    QueueEffect(s, r.list, threads, w, n);
    s', r' := Apply(s, TakeQueue(w)), Next(r, TakeQueue(w));
    taken, q := s.head.Some?, if s.head.Some? then s.head.value else 0;
  }

  /** A queue that used up the sands goes back into the list. */
  method GiveBack(s: State, w: Tid, q: Qid, ghost threads: map<Tid, Pc>, ghost ok: Progress -> bool, ghost r: Progress)
    returns (s': State, ghost r': Progress)
    requires Runs(ok) && ok(r) && r.state == s && At(s, threads, w, Draining(q, 0)) && q in s.queues
    ensures ok(r') && r'.state == s' && At(s', threads, w, Idle) && r'.taken == r.taken && r'.sent == r.sent
  {
    RescheduleEffect(s, r.list, threads, w, q);
    s', r' := Apply(s, Reschedule(w)), Next(r, Reschedule(w));
  }

  /** One round of the outer loop; `stop` when the list is empty or the sands have run out. */
  method Round(s: State, w: Tid, p: Tid, n: nat, handler: Handler, done: nat,
               ghost threads: map<Tid, Pc>, ghost ok: Progress -> bool, ghost r: Progress)
    returns (s': State, left: nat, stop: bool, handled: seq<Message>, ghost r': Progress)
    requires Runs(ok) && ok(r) && r.state == s && Undisturbed(threads, w, p)
    requires At(s, threads, w, Looking(n)) && n > 0 && Targets(handler, s.queues.Keys)
    ensures ok(r') && r'.state == s' && At(s', threads, w, if stop then Idle else Looking(left))
    ensures left + |handled| == n && r'.taken == r.taken + handled
    ensures r'.sent == r.sent + Pushes(handler, done, handled)
    ensures stop ==> left == 0 || s'.head == None
    ensures !stop ==> left > 0 && s'.queues.Keys == s.queues.Keys && (left < n || |r'.list| < |r.list|)
  {
    var taken, q;
    s', taken, q, r' := NextQueue(s, w, n, threads, ok, r);
    if !taken {
      return s', n, true, [], r';
    }
    s', left, handled, r' := Drain(s', w, p, q, n, handler, done, threads, ok, r');
    stop := left == 0;
    if stop {
      s', r' := GiveBack(s', w, q, threads, ok, r');
    }
  }

  /** The outer loop of `worker`. */
  method Loop(start: State, w: Tid, p: Tid, handler: Handler,
              ghost threads: map<Tid, Pc>, ghost ok: Progress -> bool, ghost r: Progress)
    returns (s: State, handled: seq<Message>, ghost r': Progress)
    requires Runs(ok) && ok(r) && r.state == start && Undisturbed(threads, w, p)
    requires At(start, threads, w, Looking(SANDS)) && Targets(handler, start.queues.Keys)
    ensures ok(r') && r'.state == s && At(s, threads, w, Idle)
    ensures r'.taken == r.taken + handled && |handled| <= SANDS
    ensures r'.sent == r.sent + Pushes(handler, 0, handled)
    ensures |handled| == SANDS || s.head == None
  {
    s, handled, r' := start, [], r;
    var left: nat, stop := SANDS, false;
    while !stop
      invariant ok(r') && r'.state == s && At(s, threads, w, if stop then Idle else Looking(left))
      invariant left + |handled| == SANDS && r'.taken == r.taken + handled
      invariant r'.sent == r.sent + Pushes(handler, 0, handled)
      invariant stop ==> left == 0 || s.head == None
      invariant !stop ==> left > 0 && s.queues.Keys == start.queues.Keys
      decreases !stop, left, |r'.list|
    {
      var more;
      s, left, stop, more, r' := Round(s, w, p, left, handler, |handled|, threads, ok, r');
      PushesConcat(handler, 0, handled, more);
      handled := handled + more;
    }
  }

  /**
   `worker`: takes queues from the global list and drains them, until the list is empty or
   100 messages have been handled.
   */
  method Work(s0: State, w: Tid, p: Tid, handler: Handler, ghost l0: seq<Qid>)
    returns (s: State, handled: seq<Message>, ghost steps: seq<Step>)
    requires Inv(s0, l0) && Undisturbed(s0.threads, w, p) && w in s0.threads && s0.threads[w].Idle?
    requires Targets(handler, s0.queues.Keys)
    ensures Legal(s0, steps) && s == After(s0, steps)
    ensures s.threads == s0.threads
    ensures handled == Taken(s0, steps) && |handled| <= 100
    ensures Sent(steps) == Pushes(handler, 0, handled)
    ensures |handled| == 100 || s.head == None
  {
    RunsFromClosed(s0, l0);
    ghost var ok, r := RunsFromStart(s0, l0);
    s, r := Apply(s0, Start(w)), Next(r, Start(w));
    s, handled, r := Loop(s, w, p, handler, s0.threads, ok, r);
    steps := r.steps;
    RunsFromEnd(s0, l0, r);
  }
}
