/**
 The plain timer list that the timing wheel refines: every pending timer with its
 absolute due tick, in the order of the calls that added them.
 */
module TimerList {
  import opened Selection
  import opened TimerSlots

  type Handle = int

  datatype Timer = Timer(id: nat, handle: Handle, due: int)
  datatype Fired = Fired(id: nat, handle: Handle, tick: int)

  /** One locked region of the timer: a call that adds, one that empties the current near slot, one that advances. */
  datatype Event = Timeout(time: int, handle: Handle) | Execute | Shift

  /** `drained` records that the slot of tick `now` has been emptied since the last shift. */
  datatype Plain = Plain(now: nat, drained: bool, pending: seq<Timer>, added: seq<Timer>, log: seq<Fired>)

  const INIT := Plain(0, true, [], [], [])

  /** The delay in ticks that a C `int` argument amounts to after conversion to `uint32_t`. */
  function Delay(time: int): int { time % WRAP }

  /** What the callers of the timer keep to: `int` arguments the wheel can hold, and a drained slot before each shift. */
  predicate Legal(p: Plain, e: Event)
  {
    match e
    case Timeout(time, _) =>
      && -0x8000_0000 <= time < 0x8000_0000
      && (time != 0 ==> Holdable(p.now + Delay(time), p.now))
    case Execute => true
    case Shift => p.drained
  }

  function Add(p: Plain, time: int, handle: Handle): Plain
  {
    if time == 0 then p
    else
      var t := Timer(|p.added|, handle, p.now + Delay(time));
      p.(pending := p.pending + [t], added := p.added + [t])
  }

  function Drain(p: Plain): Plain
  {
    p.(drained := true,
    pending := NotDueAt(p.pending, p.now),
    log := p.log + Firings(DueAt(p.pending, p.now), p.now))
  }

  function Advance(p: Plain): Plain
  {
    p.(now := p.now + 1, drained := false)
  }

  function Step(p: Plain, e: Event): Plain
  {
    match e
    case Timeout(time, handle) => Add(p, time, handle)
    case Execute => Drain(p)
    case Shift => Advance(p)
  }

  function Run(events: seq<Event>): Plain
  {
    if events == [] then INIT
    else Step(Run(events[..|events| - 1]), events[|events| - 1])
  }

  predicate LegalRun(events: seq<Event>)
  {
    events == [] ||
    (LegalRun(events[..|events| - 1]) && Legal(Run(events[..|events| - 1]), events[|events| - 1]))
  }

  // ----- timers due at one tick -----

  function IsDue(tick: int): Timer -> bool
  {
    (t: Timer) => t.due == tick
  }

  function DueAt(ts: seq<Timer>, tick: int): seq<Timer>
  {
    Select(ts, IsDue(tick), true)
  }

  function NotDueAt(ts: seq<Timer>, tick: int): seq<Timer>
  {
    Select(ts, IsDue(tick), false)
  }

  function Firings(ts: seq<Timer>, tick: int): (fs: seq<Fired>)
    ensures |fs| == |ts|
    ensures forall k :: 0 <= k < |fs| ==> fs[k] == Fired(ts[k].id, ts[k].handle, tick)
  {
    seq(|ts|, k requires 0 <= k < |ts| => Fired(ts[k].id, ts[k].handle, tick))
  }

  /** Timers in the order in which they were added. */
  ghost predicate InAddOrder(ts: seq<Timer>)
  {
    forall i, j :: 0 <= i < j < |ts| ==> ts[i].id < ts[j].id
  }

  lemma {:induction false} SelectInOrder(ts: seq<Timer>, at: Timer -> bool, b: bool)
    requires InAddOrder(ts)
    ensures InAddOrder(Select(ts, at, b))
  {
    if ts != [] {
      var rest, last := ts[..|ts| - 1], ts[|ts| - 1];
      SelectInOrder(rest, at, b);
      SelectMembers(rest, at, b);
      forall i | 0 <= i < |Select(rest, at, b)| ensures Select(rest, at, b)[i].id < last.id {
        assert Select(rest, at, b)[i] in rest;
      }
    }
  }

  lemma DueAtIsSelection(ts: seq<Timer>, tick: int)
    requires InAddOrder(ts)
    ensures InAddOrder(DueAt(ts, tick)) && InAddOrder(NotDueAt(ts, tick))
    ensures forall t :: t in DueAt(ts, tick) <==> t in ts && t.due == tick
    ensures forall t :: t in NotDueAt(ts, tick) <==> t in ts && t.due != tick
  {
    SelectInOrder(ts, IsDue(tick), true);
    SelectInOrder(ts, IsDue(tick), false);
    SelectMembers(ts, IsDue(tick), true);
    SelectMembers(ts, IsDue(tick), false);
  }

  // ----- the run invariant -----

  /** The timer's moment has come and its slot has been emptied. */
  predicate Passed(p: Plain, t: Timer)
  {
    t.due < p.now || (t.due == p.now && p.drained)
  }

  predicate Before(a: Fired, b: Fired)
  {
    a.tick < b.tick || (a.tick == b.tick && a.id < b.id)
  }

  ghost predicate Logged(p: Plain, t: Timer)
  {
    Fired(t.id, t.handle, t.due) in p.log
  }

  /** What is pending is what was added and has not come up, in the order it was added. */
  ghost predicate PendingExact(p: Plain)
  {
    && InAddOrder(p.pending)
    && (forall t :: t in p.pending <==> t in p.added && !Passed(p, t))
    && (forall t :: t in p.pending ==> Holdable(t.due, p.now))
  }

  ghost predicate LogSorted(log: seq<Fired>)
  {
    forall i, j :: 0 <= i < j < |log| ==> Before(log[i], log[j])
  }

  /** Every dispatch is of an added timer at its due tick. */
  ghost predicate LogSound(p: Plain)
  {
    && (forall f :: f in p.log ==> f.tick <= p.now && (f.tick == p.now ==> p.drained))
    && (forall f :: f in p.log ==> f.id < |p.added| && p.added[f.id] == Timer(f.id, f.handle, f.tick))
  }

  ghost predicate LogComplete(p: Plain)
  {
    forall t :: t in p.added && Passed(p, t) ==> Logged(p, t)
  }

  ghost predicate Inv(p: Plain)
  {
    && (forall i :: 0 <= i < |p.added| ==> p.added[i].id == i)
    && PendingExact(p)
    && LogSorted(p.log)
    && LogSound(p)
    && LogComplete(p)
  }

  /** The lists that account for every timer ever added. */
  ghost function Accounted(): iset<Plain>
  {
    iset p: Plain | Inv(p)
  }

  lemma AddInv(p: Plain, time: int, handle: Handle)
    requires Inv(p) && Legal(p, Timeout(time, handle))
    ensures Inv(Add(p, time, handle))
  {
    AddPending(p, time, handle);
    assert forall t :: Logged(Add(p, time, handle), t) <==> Logged(p, t);
  }

  lemma AddPending(p: Plain, time: int, handle: Handle)
    requires Inv(p) && Legal(p, Timeout(time, handle))
    ensures PendingExact(Add(p, time, handle)) && LogSound(Add(p, time, handle))
    ensures forall t :: t in Add(p, time, handle).added && Passed(p, t) ==> t in p.added
  {
    assert forall t :: t in p.added ==> t.id < |p.added|;
    assert forall i :: 0 <= i < |p.pending| ==> p.pending[i] in p.added;
  }

  lemma AdvanceInv(p: Plain)
    requires Inv(p) && p.drained
    ensures Inv(Advance(p))
  {
    var q := Advance(p);
    assert forall t :: Passed(q, t) <==> Passed(p, t);
    forall t | t in p.pending ensures Holdable(t.due, q.now) {
      Monotone(p.now, q.now);
    }
    assert forall t :: Logged(q, t) <==> Logged(p, t);
  }

  lemma DrainPending(p: Plain)
    requires Inv(p)
    ensures PendingExact(Drain(p))
  {
    DueAtIsSelection(p.pending, p.now);
    assert forall t :: Passed(Drain(p), t) <==> Passed(p, t) || t.due == p.now;
  }

  /** The dispatches of one drain: all of the current tick, none before. */
  lemma DrainFirings(p: Plain, k: nat)
    requires Inv(p) && k < |DueAt(p.pending, p.now)|
    ensures var t := DueAt(p.pending, p.now)[k];
      t in p.added && t.id < |p.added| && p.added[t.id] == t && t.due == p.now
    ensures !p.drained
  {
    DueAtIsSelection(p.pending, p.now);
    var t := DueAt(p.pending, p.now)[k];
    assert t in DueAt(p.pending, p.now);
    var i :| 0 <= i < |p.added| && p.added[i] == t;
  }

  lemma DrainLog(p: Plain)
    requires Inv(p)
    ensures LogSorted(Drain(p).log) && LogSound(Drain(p))
  {
    var q, due := Drain(p), DueAt(p.pending, p.now);
    DueAtIsSelection(p.pending, p.now);
    forall j | |p.log| <= j < |q.log|
      ensures q.log[j] == Fired(due[j - |p.log|].id, due[j - |p.log|].handle, p.now)
      ensures q.log[j].id < |p.added| && p.added[q.log[j].id] == Timer(q.log[j].id, q.log[j].handle, p.now)
      ensures !p.drained
    {
      DrainFirings(p, j - |p.log|);
    }
    forall i, j | 0 <= i < j < |q.log| ensures Before(q.log[i], q.log[j]) {
      if i < |p.log| <= j {
        assert q.log[i] in p.log;
      }
    }
    forall f | f in q.log && f !in p.log
      ensures f.tick == p.now && f.id < |p.added| && p.added[f.id] == Timer(f.id, f.handle, f.tick)
    {
      var j :| 0 <= j < |q.log| && f == q.log[j];
      assert |p.log| <= j;
    }
  }

  lemma DrainComplete(p: Plain)
    requires Inv(p)
    ensures LogComplete(Drain(p))
  {
    var q, due := Drain(p), DueAt(p.pending, p.now);
    DueAtIsSelection(p.pending, p.now);
    forall t | t in q.added && Passed(q, t) ensures Logged(q, t) {
      if Passed(p, t) {
        assert Logged(p, t);
      } else {
        assert t in due;
        var k :| 0 <= k < |due| && due[k] == t;
        assert q.log[|p.log| + k] == Fired(t.id, t.handle, t.due);
      }
    }
  }

  lemma DrainInv(p: Plain)
    requires Inv(p)
    ensures Inv(Drain(p))
  {
    DrainPending(p);
    DrainLog(p);
    DrainComplete(p);
  }

  lemma StepInv(p: Plain, e: Event)
    requires Inv(p) && Legal(p, e)
    ensures Inv(Step(p, e))
  {
    match e
    case Timeout(time, handle) => AddInv(p, time, handle);
    case Execute => DrainInv(p);
    case Shift => AdvanceInv(p);
  }

  lemma {:induction false} RunInv(events: seq<Event>)
    requires LegalRun(events)
    ensures Inv(Run(events))
  {
    if events != [] {
      RunInv(events[..|events| - 1]);
      StepInv(Run(events[..|events| - 1]), events[|events| - 1]);
    }
  }

  lemma {:induction false} AddedPrefix(before: seq<Event>, after: seq<Event>)
    ensures Run(before).added <= Run(before + after).added
  {
    if after == [] {
      assert before + after == before;
    } else {
      var front := after[..|after| - 1];
      assert (before + after)[..|before + after| - 1] == before + front;
      AddedPrefix(before, front);
    }
  }

  ghost predicate FiredOnceAt(p: Plain, f: Fired)
  {
    exists k :: 0 <= k < |p.log| && p.log[k] == f && forall j :: 0 <= j < |p.log| && j != k ==> p.log[j].id != f.id
  }

  /**
   In every legal run the timer of every call is dispatched exactly once, at the tick that
   lies its delay after the call, provided the run gets that far; until then it is pending
   and not dispatched at all.
   */
  lemma ExactFiring(before: seq<Event>, time: int, handle: Handle, after: seq<Event>)
    requires time != 0 && LegalRun(before + [Timeout(time, handle)] + after)
    ensures
      var p, q := Run(before), Run(before + [Timeout(time, handle)] + after);
      var t := Timer(|p.added|, handle, p.now + Delay(time));
      if Passed(q, t) then FiredOnceAt(q, Fired(t.id, handle, t.due)) && t !in q.pending
      else t in q.pending && forall j :: 0 <= j < |q.log| ==> q.log[j].id != t.id
  {
    var mid := before + [Timeout(time, handle)];
    var p, q := Run(before), Run(mid + after);
    var t := Timer(|p.added|, handle, p.now + Delay(time));
    RunInv(mid + after);
    assert mid[..|mid| - 1] == before;
    AddedPrefix(mid, after);
    assert Run(mid).added[t.id] == t;
    assert t in q.added;
    if Passed(q, t) {
      assert Logged(q, t);
      var k :| 0 <= k < |q.log| && q.log[k] == Fired(t.id, t.handle, t.due);
      LoggedOnce(q, k);
    } else {
      forall j | 0 <= j < |q.log| ensures q.log[j].id != t.id {
        assert q.log[j] in q.log;
      }
    }
  }

  lemma LoggedOnce(p: Plain, k: nat)
    requires Inv(p) && k < |p.log|
    ensures forall j :: 0 <= j < |p.log| && j != k ==> p.log[j].id != p.log[k].id
  {
    forall j | 0 <= j < |p.log| && j != k ensures p.log[j].id != p.log[k].id {
      assert p.log[j] in p.log && p.log[k] in p.log;
      assert if j < k then Before(p.log[j], p.log[k]) else Before(p.log[k], p.log[j]);
    }
  }

  /** Dispatches go by firing tick, and within one tick by the order of the calls. */
  lemma StableOrder(events: seq<Event>, i: nat, j: nat)
    requires LegalRun(events) && i < j < |Run(events).log|
    ensures Before(Run(events).log[i], Run(events).log[j])
  {
    RunInv(events);
  }

  // ----- whole ticks -----

  function Tick(p: Plain): Plain
  {
    Drain(Advance(Drain(p)))
  }

  function Ticks(p: Plain, n: nat): Plain
  {
    if n == 0 then p else Tick(Ticks(p, n - 1))
  }

  lemma TickInv(p: Plain)
    requires Inv(p)
    ensures Inv(Tick(p))
  {
    DrainInv(p);
    AdvanceInv(Drain(p));
    DrainInv(Advance(Drain(p)));
  }

  lemma {:induction false} TicksInv(p: Plain, n: nat)
    requires Inv(p)
    ensures Inv(Ticks(p, n))
  {
    if n > 0 {
      TicksInv(p, n - 1);
      TickInv(Ticks(p, n - 1));
    }
  }

  lemma {:induction false} TicksKeep(p: Plain, n: nat)
    ensures var q := Ticks(p, n);
      q.now == p.now + n && q.added == p.added && p.log <= q.log && (n > 0 ==> q.drained)
  {
    if n > 0 {
      TicksKeep(p, n - 1);
    }
  }

  /**
   From `p` to `q` precisely the timers whose remaining delay is at most `n` are dispatched,
   each when it is due and in order, and the others still wait.
   */
  ghost predicate Elapsed(p: Plain, q: Plain, n: nat)
  {
    && q.now == p.now + n && q.added == p.added && p.log <= q.log
    && (forall t :: t in q.pending <==> t in p.pending && t.due - p.now > n)
    && (forall f :: f in q.log[|p.log|..] <==>
         Timer(f.id, f.handle, f.tick) in p.pending && f.tick - p.now <= n)
    && LogSorted(q.log[|p.log|..])
  }

  /** What can become of `p` in `n` ticks. */
  ghost function After(p: Plain, n: nat): iset<Plain>
  {
    iset q: Plain | Elapsed(p, q, n)
  }

  lemma TicksExact(p: Plain, n: nat)
    requires p in Accounted() && n > 0
    ensures Ticks(p, n) in After(p, n)
  {
    TicksElapsed(p, n);
  }

  lemma TicksElapsed(p: Plain, n: nat)
    requires Inv(p) && n > 0
    ensures Elapsed(p, Ticks(p, n), n)
  {
    var q := Ticks(p, n);
    TicksInv(p, n);
    TicksKeep(p, n);
    var news := q.log[|p.log|..];
    assert q.log == p.log + news;
    forall i, j | 0 <= i < j < |news| ensures Before(news[i], news[j]) {
      assert news[i] == q.log[|p.log| + i] && news[j] == q.log[|p.log| + j];
    }
    forall f | f in news
      ensures Timer(f.id, f.handle, f.tick) in p.pending && f.tick - p.now <= n
    {
      NewsWerePending(p, q, f);
    }
    forall f: Fired | Timer(f.id, f.handle, f.tick) in p.pending && f.tick - p.now <= n
      ensures f in news
    {
      PendingIsNews(p, q, f);
    }
  }

  lemma PendingIsNews(p: Plain, q: Plain, f: Fired)
    requires Inv(p) && Inv(q) && q.added == p.added && p.log <= q.log && q.drained
    requires Timer(f.id, f.handle, f.tick) in p.pending && f.tick <= q.now
    ensures f in q.log[|p.log|..]
  {
    var t := Timer(f.id, f.handle, f.tick);
    assert t in q.added && Passed(q, t);
    assert Logged(q, t);
    assert f !in p.log;
    assert q.log == p.log + q.log[|p.log|..];
  }

  lemma NewsWerePending(p: Plain, q: Plain, f: Fired)
    requires Inv(p) && Inv(q) && q.added == p.added && p.log <= q.log
    requires f in q.log[|p.log|..]
    ensures Timer(f.id, f.handle, f.tick) in p.pending && f.tick <= q.now
  {
    var t := Timer(f.id, f.handle, f.tick);
    var k :| 0 <= k < |q.log[|p.log|..]| && q.log[|p.log|..][k] == f;
    assert q.log[|p.log| + k] == f;
    assert f in q.log;
    assert t in p.added;
    LoggedOnce(q, |p.log| + k);
    assert forall i :: 0 <= i < |p.log| ==> p.log[i] == q.log[i];
    assert !Logged(p, t);
  }
}
