/**
 One timer of any delay in a wheel with any other timers.

 The timer is told apart by its handle.  Whatever else is added, and whether the wheel can
 hold it or not, the timer goes along the path that TimerStray describes, and is dispatched
 where that path first meets the tick count.
 */
module TimerAmong {
  import opened Selection
  import opened TimerSlots
  import opened TimerList
  import opened TimerStray
  import opened TimerWheel

  // ----- where a timer is in a wheel -----

  datatype Spot = Nowhere | At(pos: Pos)

  function Mine(h: Handle): Node -> bool
  {
    (n: Node) => n.handle == h
  }

  function Trace(spot: Spot, p: Pos, node: Node): seq<Node>
  {
    if spot == At(p) then [node] else []
  }

  /** Of the nodes with this handle there is one, at the spot, or none. */
  ghost predicate Marked(slots: imap<Pos, seq<Node>>, node: Node, spot: Spot)
  {
    && (forall p: Pos :: p.InRange() <==> p in slots)
    && (spot.At? ==> spot.pos.InRange())
    && forall p: Pos :: p in slots ==> Select(slots[p], Mine(node.handle), true) == Trace(spot, p, node)
  }

  lemma MarkedOther(slots: imap<Pos, seq<Node>>, node: Node, spot: Spot, pos: Pos, other: Node)
    requires Marked(slots, node, spot) && other.handle != node.handle
    ensures Marked(Linked(slots, pos, other), node, spot)
  {
    forall p: Pos | p in slots ensures Select(Linked(slots, pos, other)[p], Mine(node.handle), true) == Trace(spot, p, node) {
      SelectSnoc(slots[p], other, Mine(node.handle), true);
      assert slots[p] + [] == slots[p];
    }
  }

  lemma MarkedAdded(slots: imap<Pos, seq<Node>>, node: Node, pos: Pos)
    requires Marked(slots, node, Nowhere) && pos.InRange()
    ensures Marked(Linked(slots, pos, node), node, At(pos))
  {
    forall p: Pos | p in slots ensures Select(Linked(slots, pos, node)[p], Mine(node.handle), true) == Trace(At(pos), p, node) {
      SelectSnoc(slots[p], node, Mine(node.handle), true);
      assert slots[p] + [] == slots[p];
    }
  }

  function Emptied(spot: Spot, q: Pos): Spot
  {
    if spot == At(q) then Nowhere else spot
  }

  lemma MarkedEmptied(slots: imap<Pos, seq<Node>>, node: Node, spot: Spot, q: Pos)
    requires Marked(slots, node, spot) && q in slots
    ensures Marked(slots[q := []], node, Emptied(spot, q))
  {
  }

  /** Where a node is after the tick count has become `m`. */
  function Moved(spot: Spot, e: int, m: nat): Spot
  {
    if spot.Nowhere? then Nowhere else At(Move(e, spot.pos, m))
  }

  lemma MarkedTurned(slots: imap<Pos, seq<Node>>, node: Node, spot: Spot, m: nat)
    requires Marked(slots, node, spot)
    ensures Marked(Turned(slots, m % WRAP), node, Moved(spot, node.expire, m))
  {
    CascadeWraps(m);
    var t := m % WRAP;
    if t % NEAR == 0 {
      forall p: Pos | p in slots
        ensures Select(Turned(slots, t)[p], Mine(node.handle), true) == Trace(Moved(spot, node.expire, m), p, node)
      {
        TurnedTrace(slots, node, spot, t, p);
      }
    }
  }

  lemma TurnedTrace(slots: imap<Pos, seq<Node>>, node: Node, spot: Spot, t: nat, p: Pos)
    requires Marked(slots, node, spot) && p in slots && t % NEAR == 0
    ensures Select(Turned(slots, t)[p], Mine(node.handle), true) ==
      if spot == At(Cascade(t)) then Trace(At(Place(node.expire, t)), p, node) else Trace(spot, p, node)
  {
    var c, mine := Cascade(t), Mine(node.handle);
    var was := slots[c := []];
    SelectConcat(was[p], Select(slots[c], LinkAt(t), p), mine, true);
    SelectSwap(slots[c], LinkAt(t), p, mine, true);
    MarkedEmptied(slots, node, spot, c);
    assert Select(slots[c], mine, true) == Trace(spot, c, node);
    SelectSnoc([], node, LinkAt(t), p);
    assert [] + [node] == [node];
  }

  // ----- one event -----

  /** The slots in which the timer is at the spot. */
  ghost function Marks(node: Node, spot: Spot): iset<imap<Pos, seq<Node>>>
  {
    iset slots: imap<Pos, seq<Node>> | Marked(slots, node, spot)
  }

  /** A wheel at tick `now` in which the timer is at the spot. */
  ghost predicate Has(wheel: Wheel, now: nat, node: Node, spot: Spot)
    reads wheel, wheel.near, wheel.levels
  {
    wheel.Shape() && wheel.time == now % WRAP && wheel.Slots() in Marks(node, spot)
  }

  datatype Watch = Watch(now: nat, node: Node, spot: Spot)

  /** What can be said of the timer in a wheel. */
  ghost function Watches(wheel: Wheel): iset<Watch>
    reads wheel, wheel.near, wheel.levels
  {
    iset w: Watch | Has(wheel, w.now, w.node, w.spot)
  }

  function Same(h: Handle): Handle -> bool
  {
    (g: Handle) => g == h
  }

  /** How often a handle was dispatched is how many of its nodes there were. */
  lemma HandleCount(nodes: seq<Node>, h: Handle)
    ensures |Select(Map(nodes, HandleOf()), Same(h), true)| == |Select(nodes, Mine(h), true)|
  {
    SelectMap(nodes, HandleOf(), Mine(h), Same(h), true);
  }

  lemma MarksFresh(slots: imap<Pos, seq<Node>>, node: Node)
    requires slots in Canonical([], 0)
    requires forall p: Pos :: p.InRange() <==> p in slots
    ensures slots in Marks(node, Nowhere)
  {
    forall p: Pos | p in slots ensures slots[p] == [] {
      assert slots[p] == NodesAt([], 0, p);
    }
  }

  lemma MarksOther(slots: imap<Pos, seq<Node>>, delay: int, handle: Handle, time: nat, node: Node, spot: Spot)
    requires slots in Marks(node, spot) && handle != node.handle
    ensures Timed(slots, delay, handle, time) in Marks(node, spot)
  {
    var other := Node((delay + time) % WRAP, handle);
    MarkedOther(slots, node, spot, LinkAt(time)(other), other);
  }

  method AddOther(wheel: Wheel, delay: int, handle: Handle, ghost now: nat, ghost node: Node, ghost spot: Spot)
    requires Has(wheel, now, node, spot) && handle != node.handle
    modifies wheel.near, wheel.levels
    ensures Has(wheel, now, node, spot)
  {
    MarksOther(wheel.Slots(), delay, handle, wheel.time, node, spot);
    wheel.TimeoutSlots(delay, handle);
  }

  /** Empties the current slot, and reports how often the timer was dispatched. */
  method Empty(wheel: Wheel, handle: Handle, ghost now: nat, ghost node: Node, ghost spot: Spot) returns (fired: nat)
    requires Has(wheel, now, node, spot) && handle == node.handle
    modifies wheel.near
    ensures Has(wheel, now, node, Emptied(spot, Near(now % NEAR)))
    ensures fired == if spot == At(Near(now % NEAR)) then 1 else 0
  {
    TickWraps(now);
    ghost var slots, q := wheel.Slots(), Near(wheel.time % NEAR);
    var handles := wheel.ExecuteSlots();
    MarkedEmptied(slots, node, spot, q);
    fired := |Select(handles, Same(handle), true)|;
    HandleCount(slots[q], handle);
    assert Select(slots[q], Mine(handle), true) == Trace(spot, q, node);
  }

  lemma MarksTurned(slots: imap<Pos, seq<Node>>, node: Node, spot: Spot, m: nat, t: nat)
    requires slots in Marks(node, spot) && t == m % WRAP
    requires forall p: Pos :: p.InRange() <==> p in slots
    ensures Turned(slots, t) in Marks(node, Moved(spot, node.expire, m))
  {
    MarkedTurned(slots, node, spot, m);
  }

  lemma TurnedMarks(slots: imap<Pos, seq<Node>>, node: Node, spot: Spot, now: nat, time: nat, to: Spot)
    requires slots in Marks(node, spot) && time == now % WRAP && to == Moved(spot, node.expire, now + 1)
    requires forall p: Pos :: p.InRange() <==> p in slots
    ensures time < WRAP && (time + 1) % WRAP == (now + 1) % WRAP
    ensures Turned(slots, (time + 1) % WRAP) in Marks(node, to)
  {
    TickWraps(now);
    MarksTurned(slots, node, spot, now + 1, (time + 1) % WRAP);
  }

  method TurnTo(wheel: Wheel, ghost now: nat, ghost node: Node, ghost to: Spot)
    requires wheel.Shape() && wheel.time < WRAP && (wheel.time + 1) % WRAP == (now + 1) % WRAP
    requires Turned(wheel.Slots(), (wheel.time + 1) % WRAP) in Marks(node, to)
    modifies wheel`time, wheel.near, wheel.levels
    ensures Has(wheel, now + 1, node, to)
  {
    wheel.ShiftSlots();
  }

  method Turn(wheel: Wheel, ghost now: nat, ghost node: Node, ghost spot: Spot)
    requires Has(wheel, now, node, spot)
    modifies wheel`time, wheel.near, wheel.levels
    ensures Has(wheel, now + 1, node, Moved(spot, node.expire, now + 1))
  {
    ghost var to := Moved(spot, node.expire, now + 1);
    TurnedMarks(wheel.Slots(), node, spot, now, wheel.time, to);
    TurnTo(wheel, now, node, to);
  }

  // ----- runs -----

  /** A tick, and whether its slot has been emptied since the last shift. */
  datatype Time = Time(now: nat, drained: bool)

  const START := Time(0, true)

  function Next(t: Time, e: Event): Time
  {
    match e
    case Timeout(_, _) => t
    case Execute => t.(drained := true)
    case Shift => Time(t.now + 1, false)
  }

  function Later(t: Time, events: seq<Event>): Time
  {
    if events == [] then t else Next(Later(t, events[..|events| - 1]), events[|events| - 1])
  }

  lemma LaterNext(t: Time, events: seq<Event>, k: nat)
    requires k < |events|
    ensures Later(t, events[..k + 1]) == Next(Later(t, events[..k]), events[k])
  {
    assert events[..k + 1][..k] == events[..k];
  }

  /** What is asked of the callers: a shift only after the current slot has been emptied. */
  ghost predicate Driven(t: Time, events: seq<Event>)
  {
    forall k :: 0 <= k < |events| && events[k].Shift? ==> Later(t, events[..k]).drained
  }

  ghost predicate Others(events: seq<Event>, h: Handle)
  {
    forall i :: 0 <= i < |events| && events[i].Timeout? ==> events[i].handle != h
  }

  /** What may follow at time `t`, apart from the timers of handle `h`. */
  ghost function Runs(t: Time, h: Handle): iset<seq<Event>>
  {
    iset events: seq<Event> | Others(events, h) && Driven(t, events)
  }

  /** Where an event leaves the timer. */
  function Left(spot: Spot, now: nat, expire: int, e: Event): Spot
  {
    match e
    case Timeout(_, _) => spot
    case Execute => Emptied(spot, Near(now % NEAR))
    case Shift => Moved(spot, expire, now + 1)
  }

  /** One event of the run other than the timer's own addition. */
  method Perform(wheel: Wheel, e: Event, handle: Handle, ghost now: nat, ghost node: Node, ghost spot: Spot)
    returns (fired: nat)
    requires Watch(now, node, spot) in Watches(wheel) && handle == node.handle
    requires e.Timeout? ==> e.handle != handle
    modifies wheel`time, wheel.near, wheel.levels
    ensures Watch(if e.Shift? then now + 1 else now, node, Left(spot, now, node.expire, e)) in Watches(wheel)
    ensures fired == if e.Execute? && spot == At(Near(now % NEAR)) then 1 else 0
  {
    fired := 0;
    match e {
      case Timeout(delay, other) => AddOther(wheel, delay, other, now, node, spot);
      case Execute => fired := Empty(wheel, handle, now, node, spot);
      case Shift => Turn(wheel, now, node, spot);
    }
  }

  /** No dispatch on the first ticks. */
  ghost predicate NotBefore(e: int, born: nat, n: nat)
  {
    forall k :: 0 <= k < n ==> !DispatchedAt(e, born, k)
  }

  lemma NotAtOnce(now: nat, delay: int)
    requires delay % WRAP != 0
    ensures !DispatchedAt((now + delay) % WRAP, now, 0)
  {
    var e, t := (now + delay) % WRAP, now % WRAP;
    TickWraps(now);
    assert e != t;
    assert e == NEAR * Q0(e) + e % NEAR && t == NEAR * Q0(t) + t % NEAR;
  }

  /** The slot of the `n`-th tick after `born` has been emptied. */
  predicate Reached(born: nat, t: Time, n: nat)
  {
    born + n < t.now || (born + n == t.now && t.drained)
  }

  /** Where the timer is, and the ticks at which it has been dispatched. */
  datatype Course = Course(spot: Spot, ticks: seq<nat>)

  /** Not dispatched yet, and on its path; or dispatched once, on the first tick where path and count met. */
  ghost predicate OnPath(e: int, born: nat, t: Time, c: Course)
  {
    var Course(spot, ticks) := c;
    && born <= t.now
    && if ticks == []
       then spot == At(Path(e, born, t.now - born)) && NotBefore(e, born, t.now - born + if t.drained then 1 else 0)
       else
         && spot == Nowhere && |ticks| == 1 && born <= ticks[0]
         && FirstDispatchedAt(e, born, ticks[0] - born) && Reached(born, t, ticks[0] - born)
  }

  ghost function Courses(e: int, born: nat, t: Time): iset<Course>
  {
    iset c: Course | OnPath(e, born, t, c)
  }

  /** The nodes that a nonzero delay amounts to at tick `now`. */
  ghost function Asked(now: nat, delay: int): iset<Node>
  {
    iset node: Node | delay % WRAP != 0 && node.expire == (now + delay) % WRAP
  }

  lemma PathStart(born: Time, delay: int, node: Node)
    requires node in Asked(born.now, delay)
    ensures Course(At(Path(node.expire, born.now, 0)), []) in Courses(node.expire, born.now, born)
  {
    NotAtOnce(born.now, delay);
  }

  lemma SameExpiry32(now: nat, delay: int)
    ensures (delay + now % WRAP) % WRAP == (now + delay) % WRAP
  {
  }

  lemma MarksLinked(slots: imap<Pos, seq<Node>>, node: Node, pos: Pos)
    requires slots in Marks(node, Nowhere) && pos.InRange()
    ensures Linked(slots, pos, node) in Marks(node, At(pos))
  {
    MarkedAdded(slots, node, pos);
  }

  lemma TimedLinked(slots: imap<Pos, seq<Node>>, delay: int, now: nat, node: Node)
    requires node in Asked(now, delay)
    ensures Timed(slots, delay, node.handle, now % WRAP) == Linked(slots, Path(node.expire, now, 0), node)
  {
    SameExpiry32(now, delay);
    assert node == Node((delay + now % WRAP) % WRAP, node.handle);
  }

  /** The timer is added. */
  lemma MarksAdded(slots: imap<Pos, seq<Node>>, delay: int, now: nat, node: Node)
    requires slots in Marks(node, Nowhere) && node in Asked(now, delay)
    ensures Timed(slots, delay, node.handle, now % WRAP) in Marks(node, At(Path(node.expire, now, 0)))
  {
    TimedLinked(slots, delay, now, node);
    MarksLinked(slots, node, Path(node.expire, now, 0));
  }

  method AddWatched(wheel: Wheel, delay: int, handle: Handle, ghost born: Time, ghost node: Node)
    returns (ghost spot: Spot)
    requires Watch(born.now, node, Nowhere) in Watches(wheel)
    requires node in Asked(born.now, delay) && node.handle == handle
    modifies wheel.near, wheel.levels
    ensures Watch(born.now, node, spot) in Watches(wheel)
    ensures Course(spot, []) in Courses(node.expire, born.now, born)
  {
    spot := At(Path(node.expire, born.now, 0));
    PathStart(born, delay, node);
    MarksAdded(wheel.Slots(), delay, born.now, node);
    wheel.TimeoutSlots(delay, handle);
  }

  /** The dispatch that an event brings, if any. */
  function News(spot: Spot, now: nat, e: Event): seq<nat>
  {
    if e.Execute? && spot == At(Near(now % NEAR)) then [now] else []
  }

  function Further(c: Course, now: nat, expire: int, e: Event): Course
  {
    Course(Left(c.spot, now, expire, e), c.ticks + News(c.spot, now, e))
  }

  lemma PathStep(e: int, born: nat, t: Time, c: Course, event: Event)
    requires c in Courses(e, born, t) && (event.Shift? ==> t.drained)
    ensures Further(c, t.now, e, event) in Courses(e, born, Next(t, event))
  {
    assert c.ticks + [] == c.ticks;
  }

  /** The dispatches of one timer, in a run that has got to time `t`. */
  ghost predicate Fate(e: int, born: nat, t: Time, ticks: seq<nat>)
  {
    && (forall n: nat :: FirstDispatchedAt(e, born, n) && Reached(born, t, n) ==> ticks == [born + n])
    && ((forall n: nat :: FirstDispatchedAt(e, born, n) ==> !Reached(born, t, n)) ==> ticks == [])
  }

  ghost function Fates(e: int, born: nat, t: Time): iset<seq<nat>>
  {
    iset ticks: seq<nat> | Fate(e, born, t, ticks)
  }

  lemma PathFate(e: int, born: nat, t: Time, c: Course)
    requires c in Courses(e, born, t)
    ensures c.ticks in Fates(e, born, t)
  {
    forall n: nat | FirstDispatchedAt(e, born, n) && Reached(born, t, n) ensures c.ticks == [born + n] {
      if c.ticks != [] {
        FirstIsUnique(e, born, n, c.ticks[0] - born);
      }
    }
  }

  lemma FirstIsUnique(e: int, born: nat, m: nat, n: nat)
    requires FirstDispatchedAt(e, born, m) && FirstDispatchedAt(e, born, n)
    ensures m == n
  {
  }

  /** The one dispatch is on a tick if and only if that is where the path first meets the tick count. */
  lemma FateAt(e: int, born: nat, t: Time, ticks: seq<nat>, d: nat)
    requires ticks in Fates(e, born, t) && Reached(born, t, d)
    ensures ticks == [born + d] <==> FirstDispatchedAt(e, born, d)
  {
  }

  /** The timer is dispatched on the tick it asked for if and only if the check on its expiry holds. */
  lemma PunctualFate(born: nat, delay: int, t: Time, ticks: seq<nat>)
    requires delay % WRAP != 0 && Reached(born, t, delay % WRAP)
    requires ticks in Fates((born + delay) % WRAP, born, t)
    ensures ticks == [born + delay % WRAP] <==> Punctual((born + delay) % WRAP, born % WRAP)
  {
    var d := delay % WRAP;
    FateAt((born + delay) % WRAP, born, t, ticks, d);
    SameDelay(born, delay);
    ExactlyPunctual(born, d);
  }

  lemma SameDelay(born: nat, delay: int)
    ensures (born + delay % WRAP) % WRAP == (born + delay) % WRAP
  {
  }

  /** The events before the timer is added. */
  method RunBefore(events: seq<Event>, handle: Handle, ghost node: Node) returns (wheel: Wheel, now: nat)
    requires Others(events, handle) && handle == node.handle
    ensures fresh(wheel) && fresh(wheel.near) && fresh(wheel.levels)
    ensures now == Later(START, events).now && Watch(now, node, Nowhere) in Watches(wheel)
  {
    wheel := new Wheel(0, 0, 0);
    MarksFresh(wheel.Slots(), node);
    now := 0;
    for k := 0 to |events|
      invariant fresh(wheel) && fresh(wheel.near) && fresh(wheel.levels)
      invariant now == Later(START, events[..k]).now && Watch(now, node, Nowhere) in Watches(wheel)
    {
      LaterNext(START, events, k);
      var fired := Perform(wheel, events[k], handle, now, node, Nowhere);
      now := if events[k].Shift? then now + 1 else now;
    }
    assert events[..|events|] == events;
  }

  function Times(n: nat, tick: nat): (ticks: seq<nat>)
    ensures n == 0 ==> ticks == []
    ensures n == 1 ==> ticks == [tick]
  {
    seq(n, _ => tick)
  }

  /** The next event after the timer was added. */
  method Follow(wheel: Wheel, e: Event, handle: Handle, now: nat, ghost node: Node, ghost c: Course)
    returns (news: seq<nat>)
    requires Watch(now, node, c.spot) in Watches(wheel) && handle == node.handle
    requires e.Timeout? ==> e.handle != handle
    modifies wheel`time, wheel.near, wheel.levels
    ensures news == News(c.spot, now, e)
    ensures Watch(if e.Shift? then now + 1 else now, node, Further(c, now, node.expire, e).spot) in Watches(wheel)
  {
    var fired := Perform(wheel, e, handle, now, node, c.spot);
    news := Times(fired, now);
  }

  /** The dispatches of a timer added at time `born`, in a run that goes on with `after`. */
  ghost function Outcomes(born: Time, delay: int, after: seq<Event>): iset<seq<nat>>
  {
    Fates((born.now + delay) % WRAP, born.now, Later(born, after))
  }

  lemma PathOutcome(born: Time, delay: int, events: seq<Event>, node: Node, t: Time, c: Course)
    requires node in Asked(born.now, delay) && t == Later(born, events) && c in Courses(node.expire, born.now, t)
    ensures c.ticks in Outcomes(born, delay, events)
  {
    PathFate(node.expire, born.now, t, c);
  }

  /** The timer is added, and the events after that. */
  method RunWatched(wheel: Wheel, delay: int, handle: Handle, events: seq<Event>, tick: nat,
                    ghost born: Time, ghost node: Node)
    returns (ticks: seq<nat>)
    requires Watch(tick, node, Nowhere) in Watches(wheel) && tick == born.now
    requires node in Asked(born.now, delay) && node.handle == handle
    requires events in Runs(born, handle)
    modifies wheel`time, wheel.near, wheel.levels
    ensures ticks in Outcomes(born, delay, events)
  {
    ghost var spot := AddWatched(wheel, delay, handle, born, node);
    ticks := RunAfter(wheel, delay, handle, events, tick, born, node, spot);
  }

  method RunAfter(wheel: Wheel, delay: int, handle: Handle, events: seq<Event>, tick: nat,
                  ghost born: Time, ghost node: Node, ghost spot: Spot)
    returns (ticks: seq<nat>)
    requires Watch(tick, node, spot) in Watches(wheel) && tick == born.now
    requires Course(spot, []) in Courses(node.expire, tick, born)
    requires node in Asked(born.now, delay) && node.handle == handle
    requires events in Runs(born, handle)
    modifies wheel`time, wheel.near, wheel.levels
    ensures ticks in Outcomes(born, delay, events)
  {
    ghost var c, t := Course(spot, []), born;
    ticks := [];
    var now := tick;
    for k := 0 to |events|
      invariant t == Later(born, events[..k]) && now == t.now && Watch(now, node, c.spot) in Watches(wheel)
      invariant c in Courses(node.expire, tick, t) && c.ticks == ticks
    {
      var event := events[k];
      LaterNext(born, events, k);
      PathStep(node.expire, tick, t, c, event);
      var news := Follow(wheel, event, handle, now, node, c);
      c, t := Further(c, now, node.expire, event), Next(t, event);
      ticks, now := ticks + news, if event.Shift? then now + 1 else now;
    }
    assert events[..|events|] == events;
    PathOutcome(born, delay, events, node, t, c);
  }

  /**
   A timer of any nonzero delay, added anywhere in a run with any other timers, is dispatched
   once, on the first tick at which its path meets the tick count, if the run gets that far.
   */
  method RunAmong(before: seq<Event>, delay: int, handle: Handle, after: seq<Event>) returns (ticks: seq<nat>)
    requires Others(before, handle) && after in Runs(Later(START, before), handle) && delay % WRAP != 0
    ensures ticks in Outcomes(Later(START, before), delay, after)
  {
    ghost var born := Later(START, before);
    ghost var node := Node((born.now + delay) % WRAP, handle);
    var wheel, now := RunBefore(before, handle, node);
    ticks := RunWatched(wheel, delay, handle, after, now, born, node);
  }
}
