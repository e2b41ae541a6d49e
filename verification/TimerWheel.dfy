/**
 The hierarchical timing wheel of misaka/lib/timer.c, updated in place, and its proof
 against the plain timer list: every slot is, at all times, the list of pending timers
 that belong there, in the order they were added.
 */
module TimerWheel {
  import opened Bits
  import opened Selection
  import opened TimerSlots
  import opened TimerClock
  import opened TimerList

  const NEAR_SHIFT := 8
  const LEVEL_SHIFT := 6
  const NEAR_MASK: nat := NEAR - 1
  const LEVEL_MASK: nat := LEVEL - 1

  datatype Node = Node(expire: nat, handle: Handle)

  // ----- slots as a function of the pending timers -----

  function NodeOf(): Timer -> Node
  {
    (t: Timer) => Node(t.due % WRAP, t.handle)
  }

  function PlaceAt(now: int): Timer -> Pos
  {
    (t: Timer) => Place(t.due, now)
  }

  function LinkAt(time: int): Node -> Pos
  {
    (n: Node) => Place(n.expire, time)
  }

  function HandleOf(): Node -> Handle
  {
    (n: Node) => n.handle
  }

  /** The pending timers whose place at tick `now` is `pos`, as nodes, in order. */
  function NodesAt(ts: seq<Timer>, now: int, pos: Pos): seq<Node>
  {
    Map(Select(ts, PlaceAt(now), pos), NodeOf())
  }

  /** All timers are held and lie strictly ahead. */
  ghost predicate Ahead(ts: seq<Timer>, now: int)
  {
    forall t :: t in ts ==> now < t.due && Holdable(t.due, now)
  }

  /** Pending timers are held, and lie ahead once the tick is drained. */
  lemma Held(p: Plain)
    requires p in Accounted()
    ensures forall t :: t in p.pending ==> Holdable(t.due, p.now)
    ensures p.drained ==> Ahead(p.pending, p.now)
  {
  }

  lemma InitAccounted()
    ensures INIT in Accounted()
  {
  }

  lemma StepAccounted(p: Plain, e: Event)
    requires p in Accounted() && Legal(p, e)
    ensures Step(p, e) in Accounted()
  {
    StepInv(p, e);
  }

  lemma QuietSlot(ts: seq<Timer>, now: nat, pos: Pos)
    requires Ahead(ts, now) && (now + 1) % NEAR != 0
    ensures NodesAt(ts, now + 1, pos) == NodesAt(ts, now, pos)
  {
    var f, g := PlaceAt(now), PlaceAt(now + 1);
    forall t | t in ts ensures g(t) == f(t) {
      QuietTick(t.due, now);
    }
    SelectAgrees(ts, f, pos, g, pos);
  }

  lemma CarryOne(due: int, now: nat)
    requires now < due && Holdable(due, now) && (now + 1) % NEAR == 0
    ensures Place(due, now).Height() >= Cascade(now + 1).Height()
    ensures if Place(due, now) == Cascade(now + 1)
      then Place(due, now + 1).Height() < Cascade(now + 1).Height()
      else Place(due, now + 1) == Place(due, now)
    ensures Place(due % WRAP, (now + 1) % WRAP) == Place(due, now + 1)
  {
    BelowCarryEmpty(due, now);
    if Place(due, now) == Cascade(now + 1) {
      CarryLowers(due, now);
    } else {
      CarryKeepsOthers(due, now);
    }
    Monotone(now, now + 1);
    PlaceWraps(due, now + 1);
  }

  /**
   One cascaded slot per carry is enough: relinking its nodes in order, behind whatever the
   other slots hold, puts every pending timer in its place and keeps every slot in order.
   */
  lemma CarrySlot(ts: seq<Timer>, now: nat, pos: Pos)
    requires Ahead(ts, now) && (now + 1) % NEAR == 0
    ensures NodesAt(ts, now + 1, pos) ==
      (if pos == Cascade(now + 1) then [] else NodesAt(ts, now, pos)) +
      Select(NodesAt(ts, now, Cascade(now + 1)), LinkAt((now + 1) % WRAP), pos)
  {
    var f, g, h, c := PlaceAt(now), PlaceAt(now + 1), LinkAt((now + 1) % WRAP), Cascade(now + 1);
    forall t | t in ts
      ensures f(t).Height() >= c.Height() && h(NodeOf()(t)) == g(t)
      ensures if f(t) == c then g(t).Height() < c.Height() else g(t) == f(t)
    {
      CarryOne(t.due, now);
    }
    Resend(ts, f, g, c, pos);
    SelectMembers(ts, f, c);
    SelectMap(Select(ts, f, c), NodeOf(), g, h, pos);
    MapConcat(if pos == c then [] else Select(ts, f, pos), Select(Select(ts, f, c), g, pos));
  }

  lemma MapConcat(a: seq<Timer>, b: seq<Timer>)
    ensures Map(a + b, NodeOf()) == Map(a, NodeOf()) + Map(b, NodeOf())
  {
  }

  /** Emptying the near slot of the current tick removes and yields exactly the timers due now. */
  lemma DrainSlot(ts: seq<Timer>, now: nat, pos: Pos)
    requires forall t :: t in ts ==> Holdable(t.due, now)
    ensures NodesAt(NotDueAt(ts, now), now, pos) == if pos == Near(now % NEAR) then [] else NodesAt(ts, now, pos)
    ensures NodesAt(ts, now, Near(now % NEAR)) == Map(DueAt(ts, now), NodeOf())
  {
    var f, near := PlaceAt(now), Near(now % NEAR);
    forall t | t in ts ensures f(t) == near <==> IsDue(now)(t) {
      DueSlot(t.due, now);
    }
    SelectAgrees(ts, f, near, IsDue(now), true);
    if pos == near {
      SelectMembers(ts, IsDue(now), false);
      SelectNone(NotDueAt(ts, now), f, pos);
    } else {
      SelectTwice(ts, IsDue(now), false, f, pos);
    }
  }

  // ----- the masks of the code -----

  /** One page of the near slots, or one turn of level `i - 1`. */
  function Turn(i: nat): (n: nat)
    requires i <= 3
    ensures n >= 1
  {
    match i
    case 0 => 0x100
    case 1 => 0x4000
    case 2 => 0x10_0000
    case 3 => 0x400_0000
  }

  lemma TurnIsPow2(i: nat)
    requires i <= 3
    ensures Turn(i) == Pow2(NEAR_SHIFT + i * LEVEL_SHIFT)
  {
    assert Pow2(8) == 0x100;
    SixMore(8);
    SixMore(14);
    SixMore(20);
  }

  lemma SixMore(k: nat)
    ensures Pow2(k + 6) == 64 * Pow2(k)
  {
    assert Pow2(k + 6) == 4 * Pow2(k + 4);
    assert Pow2(k + 4) == 4 * Pow2(k + 2);
  }

  /** The quotient that a shift by the bits of level `i` leaves. */
  function Quotient(x: nat, i: nat): (q: nat)
    requires i <= 3
  {
    match i
    case 0 => Q0(x)
    case 1 => Q1(x)
    case 2 => Q2(x)
    case 3 => Q3(x)
  }

  lemma ShiftIsQuotient(x: nat, i: nat)
    requires i <= 3
    ensures Shr(x, NEAR_SHIFT + i * LEVEL_SHIFT) == x / Turn(i) == Quotient(x, i)
  {
    TurnIsPow2(i);
    ShrIsDiv(x, NEAR_SHIFT + i * LEVEL_SHIFT);
  }

  lemma SamePage(x: nat, y: nat, i: nat)
    requires i <= 3
    ensures Or(x, Turn(i) - 1) == Or(y, Turn(i) - 1) <==> Quotient(x, i) == Quotient(y, i)
  {
    TurnIsPow2(i);
    OrMaskSameQuotient(x, y, NEAR_SHIFT + i * LEVEL_SHIFT);
    ShiftIsQuotient(x, i);
    ShiftIsQuotient(y, i);
  }

  lemma NearMask(x: nat)
    ensures And(x, NEAR_MASK) == x % NEAR
  {
    AndLowMask(x, 8);
  }

  lemma LevelMask(x: nat)
    ensures And(x, LEVEL_MASK) == x % LEVEL
  {
    assert Pow2(6) == 64;
    AndLowMask(x, 6);
  }

  lemma TurnMask(x: nat, i: nat)
    requires i <= 3
    ensures And(x, Turn(i) - 1) == x % Turn(i)
  {
    TurnIsPow2(i);
    AndLowMask(x, NEAR_SHIFT + i * LEVEL_SHIFT);
  }

  /** The carry has reached level `i`. */
  predicate CarriedTo(x: nat, i: nat)
    requires i <= 3
  {
    && x % NEAR == 0
    && (i > 0 ==> Q0(x) % LEVEL == 0)
    && (i > 1 ==> Q1(x) % LEVEL == 0)
    && (i > 2 ==> Q2(x) % LEVEL == 0)
  }

  lemma CarryTest(x: nat, i: nat)
    requires i <= 3
    ensures And(x, Turn(i) - 1) == 0 <==> CarriedTo(x, i)
  {
    TurnMask(x, i);
    TurnDigits(x);
  }

  lemma TurnDigits(x: nat)
    ensures x % 0x4000 == (Q0(x) % LEVEL) * 0x100 + x % 0x100
    ensures x % 0x10_0000 == (Q1(x) % LEVEL) * 0x4000 + x % 0x4000
    ensures x % 0x400_0000 == (Q2(x) % LEVEL) * 0x10_0000 + x % 0x10_0000
  {
    assert x / 0x4000 == Q1(x) && x / 0x10_0000 == Q2(x) && x / 0x400_0000 == Q3(x);
  }

  /** The cascading slot from the 32-bit count is the one from the absolute count. */
  lemma CascadeWraps(m: nat)
    ensures Cascade(m % WRAP) == Cascade(m)
    ensures (m % WRAP) % NEAR == m % NEAR
  {
    Wraps(m);
  }

  /** While the digits below are zero, a zero digit of a nonzero count is not the top one. */
  lemma TopDigit(ct: nat, level: nat)
    requires 0 < ct < WRAP && level <= 3 && CarriedTo(ct, level) && Quotient(ct, level) % LEVEL == 0
    ensures level < 3
    ensures Shr(Quotient(ct, level), LEVEL_SHIFT) == Quotient(ct, level + 1)
    ensures Turn(level) * LEVEL == Turn(level + 1)
    ensures CarriedTo(ct, level + 1)
  {
    ShrIsDiv(Quotient(ct, level), LEVEL_SHIFT);
    assert Pow2(6) == 64;
  }

  lemma TickWraps(now: nat)
    ensures (now % WRAP + 1) % WRAP == (now + 1) % WRAP
    ensures (now % WRAP) % NEAR == now % NEAR
  {
    var q, r := now / WRAP, now % WRAP;
    DivUnique(r, NEAR, r / NEAR, r % NEAR);
    DivUnique(now, NEAR, q * 0x100_0000 + r / NEAR, r % NEAR);
  }

  /** The 32-bit expiry is the absolute due tick, wrapped. */
  lemma SameExpiry(delay: int, now: nat)
    ensures (delay + now % WRAP) % WRAP == (now + Delay(delay)) % WRAP
  {
  }

  lemma AddStep(p: Plain, delay: int, handle: Handle, time: nat) returns (t: Timer, next: Plain)
    requires p in Accounted() && Legal(p, Event.Timeout(delay, handle)) && delay != 0 && time == p.now % WRAP
    ensures next == Add(p, delay, handle) && next in Accounted()
    ensures next.pending == p.pending + [t] && next.now == p.now && next.log == p.log
    ensures Node((delay + time) % WRAP, handle) == NodeOf()(t) && Holdable(t.due, p.now)
  {
    t := Timer(|p.added|, handle, p.now + Delay(delay));
    next := Add(p, delay, handle);
    SameExpiry(delay, p.now);
    StepAccounted(p, Event.Timeout(delay, handle));
  }

  lemma AddSlot(ts: seq<Timer>, t: Timer, now: nat, pos: Pos)
    ensures NodesAt(ts + [t], now, pos) ==
      NodesAt(ts, now, pos) + if pos == Place(t.due, now) then [NodeOf()(t)] else []
  {
    SelectSnoc(ts, t, PlaceAt(now), pos);
  }

  function FiredHandle(): Fired -> Handle
  {
    (f: Fired) => f.handle
  }

  lemma DrainStep(p: Plain) returns (next: Plain)
    requires p in Accounted()
    ensures next == Drain(p) && next in Accounted()
    ensures forall t :: t in p.pending ==> Holdable(t.due, p.now)
    ensures next.pending == NotDueAt(p.pending, p.now) && next.now == p.now
    ensures Map(next.log, FiredHandle()) ==
      Map(p.log, FiredHandle()) + Map(Map(DueAt(p.pending, p.now), NodeOf()), HandleOf())
  {
    next := Drain(p);
    Held(p);
    StepAccounted(p, Event.Execute);
  }

  /** `node` appended to the list of slot `pos`. */
  ghost function Linked(slots: imap<Pos, seq<Node>>, pos: Pos, node: Node): imap<Pos, seq<Node>>
  {
    imap p | p in slots :: slots[p] + if p == pos then [node] else []
  }

  /** The slots after a timer has been added at the 32-bit tick count `time`; a zero delay is ignored. */
  ghost function Timed(slots: imap<Pos, seq<Node>>, delay: int, handle: Handle, time: nat): imap<Pos, seq<Node>>
  {
    var node := Node((delay + time) % WRAP, handle);
    if delay == 0 then slots else Linked(slots, LinkAt(time)(node), node)
  }

  /** The nodes of `list` appended in turn, each to its own slot. */
  ghost function LinkedAll(slots: imap<Pos, seq<Node>>, list: seq<Node>, at: Node -> Pos): imap<Pos, seq<Node>>
  {
    imap p | p in slots :: slots[p] + Select(list, at, p)
  }

  lemma LinkedNone(slots: imap<Pos, seq<Node>>, at: Node -> Pos)
    ensures LinkedAll(slots, [], at) == slots
  {
    assert forall p | p in slots :: slots[p] + Select([], at, p) == slots[p];
  }

  lemma LinkedAllSnoc(slots: imap<Pos, seq<Node>>, list: seq<Node>, node: Node, at: Node -> Pos)
    ensures LinkedAll(slots, list + [node], at) == Linked(LinkedAll(slots, list, at), at(node), node)
  {
    forall p | p in slots
      ensures slots[p] + Select(list + [node], at, p) == slots[p] + Select(list, at, p) + if p == at(node) then [node] else []
    {
      SelectSnoc(list, node, at, p);
    }
  }

  /** The slots after the tick count has become `time`. */
  ghost function Turned(was: imap<Pos, seq<Node>>, time: nat): imap<Pos, seq<Node>>
    requires forall p: Pos :: p.InRange() <==> p in was
  {
    if time % NEAR != 0 then was
    else LinkedAll(was[Cascade(time) := []], was[Cascade(time)], LinkAt(time))
  }

  /** What a shift makes of canonical slots is canonical again. */
  lemma TurnedSlot(was: imap<Pos, seq<Node>>, ts: seq<Timer>, now: nat, p: Pos)
    requires p.InRange() && Ahead(ts, now)
    requires forall q: Pos :: q.InRange() <==> q in was
    requires forall q: Pos :: q.InRange() ==> was[q] == NodesAt(ts, now, q)
    ensures Turned(was, (now + 1) % WRAP)[p] == NodesAt(ts, now + 1, p)
  {
    CascadeWraps(now + 1);
    if (now + 1) % NEAR != 0 {
      QuietSlot(ts, now, p);
    } else {
      CarrySlot(ts, now, p);
    }
  }

  /** Canonical placement: every slot lists the pending timers whose place it is, as added. */
  ghost predicate Lists(slots: imap<Pos, seq<Node>>, ts: seq<Timer>, now: nat)
  {
    forall p: Pos | p.InRange() :: p in slots && slots[p] == NodesAt(ts, now, p)
  }

  ghost function Canonical(ts: seq<Timer>, now: nat): iset<imap<Pos, seq<Node>>>
  {
    iset slots: imap<Pos, seq<Node>> | Lists(slots, ts, now)
  }

  lemma TurnedCanonical(was: imap<Pos, seq<Node>>, ts: seq<Timer>, now: nat, time: nat)
    requires Ahead(ts, now) && was in Canonical(ts, now) && time == (now + 1) % WRAP
    requires forall q: Pos :: q.InRange() <==> q in was
    ensures Turned(was, time) in Canonical(ts, now + 1)
  {
    forall p: Pos | p.InRange() ensures p in Turned(was, time) && Turned(was, time)[p] == NodesAt(ts, now + 1, p) {
      TurnedSlot(was, ts, now, p);
    }
  }

  class Wheel {
    const near: array<seq<Node>>
    const levels: array2<seq<Node>>
    /** 32-bit tick count */
    var time: nat
    /** Hundredths of a second since the start, 32-bit; start in seconds, 32-bit; last clock reading, 64-bit. */
    var current: nat
    var startTime: nat
    var currentPoint: nat
    /** `current` when the timer was created. */
    const base: nat
    /** Handles passed on to `misaka_packet_task_route`, in order. */
    var routed: seq<Handle>
    ghost var model: Plain

    ghost predicate Shape()
    {
      near.Length == NEAR && levels.Length0 == 4 && levels.Length1 == LEVEL
    }

    ghost function Slot(pos: Pos): seq<Node>
      requires Shape() && pos.InRange()
      reads near, levels
    {
      if pos.Near? then near[pos.idx] else levels[pos.level, pos.idx]
    }

    /** All slots at once. */
    ghost function Slots(): imap<Pos, seq<Node>>
      requires Shape()
      reads near, levels
    {
      imap p: Pos | p.InRange() :: Slot(p)
    }

    ghost predicate Placed(ts: seq<Timer>, now: nat)
      requires Shape()
      reads near, levels
    {
      Slots() in Canonical(ts, now)
    }

    ghost predicate Valid()
      reads this, near, levels
    {
      && Shape()
      && model in Accounted()
      && time == model.now % WRAP
      && Placed(model.pending, model.now)
      && routed == Map(model.log, FiredHandle())
    }

    /** `current` runs in step with the tick count. */
    ghost predicate OnTime()
      reads this
    {
      current in Readings(base, model.now) && startTime < WRAP
    }

    function Reading(): Clock
      reads this`current, this`startTime
    {
      Clock(current, startTime)
    }

    constructor (seconds: nat, centis: nat, point: nat)
      requires seconds < WRAP && centis < WRAP
      ensures Valid() && OnTime() && model == INIT
      ensures current == centis && startTime == seconds && currentPoint == point
      ensures fresh(near) && fresh(levels)
    {
      current, startTime, currentPoint, base := centis, seconds, point, centis;
      near := new seq<Node>[NEAR](_ => []);
      levels := new seq<Node>[4, LEVEL]((_, _) => []);
      time, routed := 0, [];
      model := INIT;
      InitAccounted();
      FirstReading(centis);
    }

    /** The choice of `add_node`, by masks and shifts. */
    static method Locate(e: nat, now: nat) returns (pos: Pos)
      ensures pos == Place(e, now)
    {
      SamePage(e, now, 0);
      if Or(e, NEAR_MASK) == Or(now, NEAR_MASK) {
        NearMask(e);
        return Near(And(e, NEAR_MASK));
      }
      var i: nat := 0;
      var mask: nat := NEAR * LEVEL;
      while i < 3
        invariant i <= 3
        invariant i < 3 ==> mask == Turn(i + 1)
        invariant i >= 1 ==> Q1(e) != Q1(now)
        invariant i >= 2 ==> Q2(e) != Q2(now)
        invariant i >= 3 ==> Q3(e) != Q3(now)
      {
        SamePage(e, now, i + 1);
        if Or(e, mask - 1) == Or(now, mask - 1) {
          break;
        }
        mask := (mask * LEVEL) % WRAP;
        i := i + 1;
      }
      ShiftIsQuotient(e, i);
      LevelMask(Quotient(e, i));
      pos := Far(i, And(Shr(e, NEAR_SHIFT + i * LEVEL_SHIFT), LEVEL_MASK));
    }

    method Link(pos: Pos, node: Node)
      requires Shape() && pos.InRange()
      modifies near, levels
      ensures Slots() == Linked(old(Slots()), pos, node)
    {
      match pos {
        case Near(i) => near[i] := near[i] + [node];
        case Far(l, i) => levels[l, i] := levels[l, i] + [node];
      }
      assert forall p: Pos | p.InRange() :: Slot(p) == old(Slot(p)) + if p == pos then [node] else [];
    }

    method AddNode(node: Node)
      requires Shape()
      modifies near, levels
      ensures Slots() == Linked(old(Slots()), LinkAt(time)(node), node)
    {
      var pos := Locate(node.expire, time);
      Link(pos, node);
    }

    /** The loop of `move_list` over the detached nodes. */
    method AddAll(list: seq<Node>)
      requires Shape()
      modifies near, levels
      ensures Slots() == LinkedAll(old(Slots()), list, LinkAt(time))
    {
      ghost var was, at := Slots(), LinkAt(time);
      LinkedNone(was, at);
      var k := 0;
      while k < |list|
        invariant 0 <= k <= |list|
        invariant Slots() == LinkedAll(was, list[..k], at)
      {
        AddNode(list[k]);
        LinkedAllSnoc(was, list[..k], list[k], at);
        assert list[..k + 1] == list[..k] + [list[k]];
        k := k + 1;
      }
      assert list[..k] == list;
    }

    method MoveList(level: nat, idx: nat)
      requires Shape() && level < 4 && idx < LEVEL
      modifies near, levels
      ensures Slots() == LinkedAll(old(Slots())[Far(level, idx) := []], old(levels[level, idx]), LinkAt(time))
    {
      var list := levels[level, idx];
      levels[level, idx] := [];
      assert Slots() == old(Slots())[Far(level, idx) := []];
      AddAll(list);
    }

    /** `timer_add`, for the timers `ts` in the wheel at tick `now`. */
    method AddTimer(node: Node, ghost t: Timer, ghost ts: seq<Timer>, ghost now: nat)
      requires Shape() && time == now % WRAP && Placed(ts, now)
      requires node == NodeOf()(t) && Holdable(t.due, now)
      modifies near, levels
      ensures Placed(ts + [t], now)
    {
      PlaceWraps(t.due, now);
      AddNode(node);
      forall p: Pos | p.InRange() ensures Slots()[p] == NodesAt(ts + [t], now, p) {
        AddSlot(ts, t, now, p);
      }
    }

    /** `server_timer_timeout` on any wheel, with any delay. */
    method TimeoutSlots(delay: int, handle: Handle)
      requires Shape()
      modifies near, levels
      ensures Slots() == Timed(old(Slots()), delay, handle, time)
    {
      if delay != 0 {
        AddNode(Node((delay + time) % WRAP, handle));
      }
    }

    /** `server_timer_timeout`: a zero delay is ignored, any other is added. */
    method Timeout(delay: int, handle: Handle)
      requires Valid() && Legal(model, Event.Timeout(delay, handle))
      modifies this`model, near, levels
      ensures Valid() && model == Add(old(model), delay, handle)
    {
      if delay != 0 {
        var node := Node((delay + time) % WRAP, handle);
        ghost var t, next := AddStep(model, delay, handle, time);
        AddTimer(node, t, model.pending, model.now);
        model := next;
      }
    }

    static method DispatchList(list: seq<Node>) returns (fired: seq<Handle>)
      ensures fired == Map(list, HandleOf())
    {
      fired := [];
      var current := list;
      while current != []
        invariant |fired| + |current| == |list| && current == list[|fired|..]
        invariant fired == Map(list[..|fired|], HandleOf())
      {
        fired := fired + [current[0].handle];
        current := current[1..];
      }
      assert list[..|fired|] == list;
    }

    /** The loop of `timer_execute` on the near slot of the current tick. */
    method EmptyNear(idx: nat) returns (fired: seq<Handle>)
      requires Shape() && idx < NEAR
      modifies near
      ensures fired == Map(old(near[idx]), HandleOf())
      ensures Slots() == old(Slots())[Near(idx) := []]
    {
      fired := [];
      while near[idx] != []
        invariant fired + Map(near[idx], HandleOf()) == Map(old(near[idx]), HandleOf())
        invariant forall i :: 0 <= i < NEAR && i != idx ==> near[i] == old(near[i])
        decreases |near[idx]|
      {
        var current := near[idx];
        near[idx] := [];
        var more := DispatchList(current);
        fired := fired + more;
      }
    }

    /** `timer_execute` on any wheel. */
    method ExecuteSlots() returns (fired: seq<Handle>)
      requires Shape()
      modifies near
      ensures Slots() == old(Slots())[Near(time % NEAR) := []]
      ensures fired == Map(old(Slots())[Near(time % NEAR)], HandleOf())
    {
      NearMask(time);
      fired := EmptyNear(And(time, NEAR_MASK));
    }

    /** `timer_execute`, for the timers `ts` in the wheel at tick `now`. */
    method FireDue(ghost ts: seq<Timer>, ghost now: nat) returns (fired: seq<Handle>)
      requires Shape() && time == now % WRAP && Placed(ts, now)
      requires forall t :: t in ts ==> Holdable(t.due, now)
      modifies near
      ensures Placed(NotDueAt(ts, now), now)
      ensures fired == Map(Map(DueAt(ts, now), NodeOf()), HandleOf())
    {
      TickWraps(now);
      fired := ExecuteSlots();
      forall p: Pos | p.InRange() ensures Slots()[p] == NodesAt(NotDueAt(ts, now), now, p) {
        DrainSlot(ts, now, p);
      }
      DrainSlot(ts, now, Near(now % NEAR));
    }

    method Execute()
      requires Valid()
      modifies this`routed, this`model, near
      ensures Valid() && model == Drain(old(model))
    {
      ghost var next := DrainStep(model);
      var fired := FireDue(model.pending, model.now);
      routed := routed + fired;
      model := next;
    }

    /** `timer_update` */
    method Update()
      requires Valid()
      modifies this`time, this`routed, this`model, near, levels
      ensures Valid() && model == Tick(old(model))
    {
      Execute();
      Shift();
      Execute();
    }

    /** The carry loop of `timer_shift`: the slot to take apart, if any. */
    static method FindCascade(ct: nat) returns (found: bool, level: nat, idx: nat)
      requires ct < WRAP
      ensures found <==> ct % NEAR == 0
      ensures found ==> Cascade(ct) == Far(level, idx)
    {
      if ct == 0 {
        return true, 3, 0;
      }
      var mask: nat := NEAR;
      var rest := Shr(ct, NEAR_SHIFT);
      ShiftIsQuotient(ct, 0);
      CarryTest(ct, 0);
      level := 0;
      while And(ct, mask - 1) == 0
        invariant level <= 3 && mask == Turn(level) && rest == Quotient(ct, level)
        invariant And(ct, mask - 1) == 0 <==> CarriedTo(ct, level)
        invariant level > 0 ==> CarriedTo(ct, level)
        decreases 3 - level
      {
        LevelMask(rest);
        idx := And(rest, LEVEL_MASK);
        if idx != 0 {
          return true, level, idx;
        }
        TopDigit(ct, level);
        mask := mask * LEVEL;
        rest := Shr(rest, LEVEL_SHIFT);
        level := level + 1;
        CarryTest(ct, level);
      }
      return false, 0, 0;
    }

    /** `timer_shift` on any wheel. */
    method ShiftSlots()
      requires Shape() && time < WRAP
      modifies this`time, near, levels
      ensures time == (old(time) + 1) % WRAP
      ensures Slots() == Turned(old(Slots()), time)
    {
      time := (time + 1) % WRAP;
      var found, level, idx := FindCascade(time);
      if found {
        MoveList(level, idx);
      }
    }

    /** `timer_shift`, for the timers `ts` in the wheel at tick `now`. */
    method TurnOnce(ghost ts: seq<Timer>, ghost now: nat)
      requires Shape() && time == now % WRAP && Placed(ts, now) && Ahead(ts, now)
      modifies this`time, near, levels
      ensures time == (now + 1) % WRAP && Placed(ts, now + 1)
    {
      TickWraps(now);
      TurnedCanonical(Slots(), ts, now, (time + 1) % WRAP);
      ShiftSlots();
    }

    method Shift()
      requires Valid() && model.drained
      modifies this`time, this`model, near, levels
      ensures Valid() && model == Advance(old(model))
    {
      Held(model);
      TurnOnce(model.pending, model.now);
      StepAccounted(model, Event.Shift);
      model := Advance(model);
    }

    /** The loop of `server_timer_updatetime`. */
    method Updates(n: nat)
      requires Valid()
      modifies this`time, this`routed, this`model, near, levels
      ensures Valid() && model == Ticks(old(model), n)
      ensures n > 0 ==> model in After(old(model), n)
      ensures model.now == old(model).now + n
    {
      var i := 0;
      while i < n
        invariant 0 <= i <= n
        invariant Valid() && model == Ticks(old(model), i)
      {
        Update();
        i := i + 1;
      }
      TicksKeep(old(model), n);
      if n > 0 {
        TicksExact(old(model), n);
      }
    }

    method MoveClock(diff: nat)
      requires current < WRAP && diff < WRAP
      modifies this`current, this`startTime
      ensures Reading() == Moved(old(Reading()), diff)
      ensures old(startTime) < WRAP ==> Reading() in Later(old(Reading()), diff)
    {
      if startTime < WRAP {
        MovedKeepsTime(Reading(), diff);
      }
      var oc := current;
      current := (current + diff) % WRAP;
      if current < oc {
        startTime := (startTime + 0xffff_ffff / 100) % WRAP;
      }
    }

    method Elapse(diff: nat)
      requires Valid() && OnTime() && diff < WRAP
      modifies this`current, this`startTime, this`time, this`routed, this`model, near, levels
      ensures Valid() && OnTime() && model == Ticks(old(model), diff)
      ensures diff > 0 ==> model in After(old(model), diff)
      ensures Reading() == Moved(old(Reading()), diff) && Reading() in Later(old(Reading()), diff)
    {
      NextReading(current, base, model.now, diff);
      MoveClock(diff);
      Updates(diff);
    }

    /** `server_timer_updatetime`, with the clock reading as a parameter. */
    method UpdateTime(cp: nat)
      requires Valid() && OnTime()
      // the loop counter is a C int
      requires cp > currentPoint ==> (cp - currentPoint) % WRAP < 0x8000_0000
      modifies this, near, levels
      ensures Valid() && OnTime() && currentPoint == cp
      ensures cp <= old(currentPoint) ==>
                model == old(model) && routed == old(routed) && Reading() == old(Reading())
      ensures cp > old(currentPoint) ==>
                var diff := (cp - old(currentPoint)) % WRAP;
                && model == Ticks(old(model), diff)
                && (diff > 0 ==> model in After(old(model), diff))
                && routed == old(routed) + Map(model.log[|old(model).log|..], FiredHandle())
                && Reading() == Moved(old(Reading()), diff) && Reading() in Later(old(Reading()), diff)
    {
      if cp < currentPoint {
        currentPoint := cp;
      } else if cp != currentPoint {
        var diff := (cp - currentPoint) % WRAP;
        currentPoint := cp;
        Elapse(diff);
        TicksKeep(old(model), diff);
      }
    }

    /** The same, as far as the clock is concerned. */
    method Follow(cp: nat)
      requires Valid() && OnTime() && StepTo(currentPoint, cp) < 0x8000_0000
      modifies this, near, levels
      ensures Valid() && OnTime() && currentPoint == cp
      ensures Reading() == Moved(old(Reading()), StepTo(old(currentPoint), cp))
    {
      NoStep(Reading());
      UpdateTime(cp);
    }
  }

  // ----- whole runs -----

  /** The clock after any readings of the system clock; what it shows is settled by `ClockIsElapsed`. */
  method RunClock(seconds: nat, centis: nat, point: nat, cps: seq<nat>) returns (clock: Clock)
    requires seconds < WRAP && centis < WRAP && Frequent(point, cps)
    ensures clock == MovedAll(Clock(centis, seconds), Steps(point, cps))
  {
    var wheel := new Wheel(seconds, centis, point);
    ghost var first := Clock(centis, seconds);
    for k := 0 to |cps|
      invariant fresh(wheel) && fresh(wheel.near) && fresh(wheel.levels) && wheel.Valid() && wheel.OnTime()
      invariant wheel.currentPoint == LastOf(point, cps[..k])
      invariant wheel.Reading() == MovedAll(first, Steps(point, cps[..k]))
    {
      StepsNext(first, point, cps, k);
      wheel.Follow(cps[k]);
    }
    assert cps[..|cps|] == cps;
    clock := wheel.Reading();
  }

  lemma {:induction false} LegalPrefix(events: seq<Event>, k: nat)
    requires LegalRun(events) && k <= |events|
    ensures LegalRun(events[..k])
    ensures k < |events| ==> Legal(Run(events[..k]), events[k])
    ensures k < |events| ==> Run(events[..k + 1]) == Step(Run(events[..k]), events[k])
  {
    if k < |events| {
      assert events[..k + 1][..k] == events[..k];
    }
    if k == |events| {
      assert events[..k] == events;
    } else {
      LegalFront(events, k + 1);
    }
  }

  lemma {:induction false} LegalFront(events: seq<Event>, k: nat)
    requires LegalRun(events) && 0 < k <= |events|
    ensures LegalRun(events[..k])
    decreases |events| - k
  {
    if k == |events| {
      assert events[..k] == events;
    } else {
      LegalFront(events, k + 1);
      assert events[..k + 1][..k] == events[..k];
    }
  }

  function Observed(): Fired -> (Handle, nat)
  {
    (f: Fired) => (f.handle, if f.tick < 0 then 0 else f.tick)
  }

  function Stamp(handles: seq<Handle>, tick: nat): (stamped: seq<(Handle, nat)>)
  {
    seq(|handles|, i requires 0 <= i < |handles| => (handles[i], tick))
  }

  lemma StampFirings(p: Plain)
    ensures Map(Drain(p).log, Observed()) ==
      Map(p.log, Observed()) + Stamp(Map(Drain(p).log, FiredHandle())[|p.log|..], p.now)
  {
  }

  /**
   The wheel refines the plain list over every run: what it dispatches, at which tick and
   in which order, is what the plain list dispatches.
   */
  method RunWheel(events: seq<Event>) returns (log: seq<(Handle, nat)>)
    requires LegalRun(events)
    ensures log == Map(Run(events).log, Observed())
  {
    var wheel := new Wheel(0, 0, 0);
    var ticks: nat := 0;
    log := [];
    var k := 0;
    while k < |events|
      invariant 0 <= k <= |events| && fresh(wheel) && fresh(wheel.near) && fresh(wheel.levels)
      invariant wheel.Valid() && wheel.model == Run(events[..k]) && ticks == wheel.model.now
      invariant log == Map(wheel.model.log, Observed())
    {
      LegalPrefix(events, k);
      match events[k] {
        case Timeout(delay, handle) =>
          wheel.Timeout(delay, handle);
        case Execute =>
          var before := |wheel.routed|;
          ghost var was := wheel.model;
          wheel.Execute();
          log := log + Stamp(wheel.routed[before..], ticks);
          StampFirings(was);
        case Shift =>
          wheel.Shift();
          ticks := ticks + 1;
      }
      k := k + 1;
    }
    assert events[..k] == events;
  }
}
