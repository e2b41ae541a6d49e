/**
 Where the timing wheel keeps a timer, as arithmetic.

 The wheel of misaka/lib/timer.c counts ticks in 32 bits and has one near page of 256
 slots and four levels of 64 slots.  `Place` is the slot its code picks for an expiry
 at a tick count.  `PlaceWraps` shows that the choice is the same for 32-bit ticks and
 for ticks counted without wrapping, so the rest of the reasoning uses the latter.
 */
module TimerSlots {

  const WRAP: int := 0x1_0000_0000
  const NEAR: int := 256
  const LEVEL: int := 64

  /** The number of whole near pages, and of whole turns of each level below the top, in `x` ticks. */
  function Q0(x: int): int { x / NEAR }
  function Q1(x: int): int { Q0(x) / LEVEL }
  function Q2(x: int): int { Q1(x) / LEVEL }
  function Q3(x: int): int { Q2(x) / LEVEL }

  datatype Pos = Near(idx: int) | Far(level: int, idx: int) {
    /** 0 for the near page, 1 to 4 for the levels. */
    function Height(): int {
      if Near? then 0 else level + 1
    }

    predicate InRange() {
      match this
      case Near(i) => 0 <= i < NEAR
      case Far(l, i) => 0 <= l < 4 && 0 <= i < LEVEL
    }
  }

  /** The slot for expiry `e` when the tick count is `t`. */
  function Place(e: int, t: int): (p: Pos)
    ensures p.InRange()
  {
    if Q0(e) == Q0(t) then Near(e % NEAR)
    else if Q1(e) == Q1(t) then Far(0, Q0(e) % LEVEL)
    else if Q2(e) == Q2(t) then Far(1, Q1(e) % LEVEL)
    else if Q3(e) == Q3(t) then Far(2, Q2(e) % LEVEL)
    else Far(3, Q3(e) % LEVEL)
  }

  /** A due tick the wheel can hold at tick `now`: not past, and less than a full turn of the top level away. */
  predicate Holdable(due: int, now: int)
  {
    now <= due && Q3(due) - Q3(now) < LEVEL
  }

  lemma Monotone(x: int, y: int)
    requires x <= y
    ensures Q0(x) <= Q0(y) && Q1(x) <= Q1(y) && Q2(x) <= Q2(y) && Q3(x) <= Q3(y)
  {
  }

  /** The quotients of a tick count split at the 32-bit wrap. */
  lemma Wraps(x: int)
    ensures Q0(x) == 0x100_0000 * (x / WRAP) + Q0(x % WRAP)
    ensures Q1(x) == 0x4_0000 * (x / WRAP) + Q1(x % WRAP)
    ensures Q2(x) == 0x1000 * (x / WRAP) + Q2(x % WRAP)
    ensures Q3(x) == 64 * (x / WRAP) + Q3(x % WRAP)
    ensures 0 <= Q3(x % WRAP) < 64
  {
  }

  /** The choice from 32-bit ticks is the choice from ticks that never wrap. */
  lemma PlaceWraps(due: int, now: int)
    requires 0 <= now && Holdable(due, now)
    ensures Place(due % WRAP, now % WRAP) == Place(due, now)
  {
    Wraps(due);
    Wraps(now);
    var d, n := due % WRAP, now % WRAP;
    if due / WRAP != now / WRAP {
      assert due / WRAP == now / WRAP + 1;
      assert Q3(d) < Q3(n);
    }
  }

  /** The slot that is taken apart when the tick count becomes `m`, a multiple of the near page. */
  function Cascade(m: int): (c: Pos)
    ensures c.Far? && c.InRange()
  {
    if Q0(m) % LEVEL != 0 then Far(0, Q0(m) % LEVEL)
    else if Q1(m) % LEVEL != 0 then Far(1, Q1(m) % LEVEL)
    else if Q2(m) % LEVEL != 0 then Far(2, Q2(m) % LEVEL)
    else Far(3, Q3(m) % LEVEL)
  }

  lemma Carry(now: int)
    ensures (now + 1) % NEAR != 0 ==> Q0(now + 1) == Q0(now)
    ensures (now + 1) % NEAR == 0 ==> Q0(now + 1) == Q0(now) + 1
    ensures var m := now + 1;
      m % NEAR == 0 ==>
        && Q1(m) == Q1(now) + (if Q0(m) % LEVEL == 0 then 1 else 0)
        && Q2(m) == Q2(now) + (if Q0(m) % LEVEL == 0 && Q1(m) % LEVEL == 0 then 1 else 0)
        && Q3(m) == Q3(now) + (if Q0(m) % LEVEL == 0 && Q1(m) % LEVEL == 0 && Q2(m) % LEVEL == 0 then 1 else 0)
  {
  }

  /** Between carries no timer changes slot. */
  lemma QuietTick(due: int, now: int)
    requires 0 <= now < due && (now + 1) % NEAR != 0
    ensures Place(due, now + 1) == Place(due, now)
  {
    Carry(now);
  }

  /** On a carry a timer keeps its slot unless it sits in the cascading slot. */
  lemma CarryKeepsOthers(due: int, now: int)
    requires 0 <= now < due && Holdable(due, now) && (now + 1) % NEAR == 0
    requires Place(due, now) != Cascade(now + 1)
    ensures Place(due, now + 1) == Place(due, now)
  {
    Carry(now);
    Monotone(now + 1, due);
  }

  /** On a carry a timer in the cascading slot goes to a strictly lower one. */
  lemma CarryLowers(due: int, now: int)
    requires 0 <= now < due && Holdable(due, now) && (now + 1) % NEAR == 0
    requires Place(due, now) == Cascade(now + 1)
    ensures Place(due, now + 1).Height() < Place(due, now).Height()
  {
    Carry(now);
    Monotone(now + 1, due);
  }

  /** On a carry everything below the cascading level is empty. */
  lemma BelowCarryEmpty(due: int, now: int)
    requires 0 <= now < due && Holdable(due, now) && (now + 1) % NEAR == 0
    ensures Place(due, now).Height() >= Cascade(now + 1).Height()
  {
    Carry(now);
    Monotone(now + 1, due);
  }

  /** The near slot of the current tick holds exactly what is due now. */
  lemma DueSlot(due: int, now: int)
    requires 0 <= now && Holdable(due, now)
    ensures Place(due, now) == Near(now % NEAR) <==> due == now
  {
  }

  /** Every positive C `int` delay, and indeed any up to one top-level slot short of the wrap, can be held. */
  lemma PositiveDelayHolds(now: nat, delay: int)
    requires 0 < delay <= WRAP - 0x400_0000
    ensures Holdable(now + delay, now)
  {
  }

  /** Slot 0 is empty on the three lower levels, and on the top level holds only timers past the 32-bit wrap. */
  lemma SlotZero(due: int, now: nat)
    requires Holdable(due, now)
    ensures forall l :: 0 <= l < 3 ==> Place(due, now) != Far(l, 0)
    ensures Place(due, now) == Far(3, 0) ==> due / WRAP > now / WRAP
  {
    Monotone(now, due);
    Wraps(due);
    Wraps(now);
  }

  /** The timer sits in the slot that is taken apart when the tick count passes from `m` to `m + 1`. */
  predicate Relinked(due: int, m: nat)
  {
    (m + 1) % NEAR == 0 && Place(due, m) == Cascade(m + 1)
  }

  function Count(r: nat -> bool, from: nat, n: nat): nat
  {
    if n == 0 then 0 else Count(r, from, n - 1) + if r(from + n - 1) then 1 else 0
  }

  /** How often a timer due at `due` is relinked by cascades in the `n` ticks after `now`. */
  function Relinks(due: int, now: nat, n: nat): nat
  {
    Count(RelinkedAt(due), now, n)
  }

  function RelinkedAt(due: int): nat -> bool
  {
    (m: nat) => Relinked(due, m)
  }

  function HeightAt(due: int): nat -> int
  {
    (m: nat) => Height(due, m)
  }

  function Height(due: int, m: nat): (h: nat)
    ensures h <= 4
  {
    Place(due, m).Height()
  }

  lemma RelinkStep(due: int, m: nat)
    requires m < due && Holdable(due, m)
    ensures Height(due, m + 1) <= Height(due, m)
    ensures Relinked(due, m) ==> Height(due, m + 1) < Height(due, m)
  {
    if (m + 1) % NEAR != 0 {
      QuietTick(due, m);
    } else if Place(due, m) == Cascade(m + 1) {
      CarryLowers(due, m);
    } else {
      CarryKeepsOthers(due, m);
    }
  }

  lemma {:induction false} CountBound(r: nat -> bool, h: nat -> int, from: nat, n: nat)
    requires forall m: nat :: from <= m < from + n ==> h(m + 1) <= h(m) - if r(m) then 1 else 0
    ensures Count(r, from, n) <= h(from) - h(from + n)
  {
    if n > 0 {
      CountBound(r, h, from, n - 1);
      assert h(from + n - 1 + 1) <= h(from + n - 1) - if r(from + n - 1) then 1 else 0;
    }
  }

  /** Each relinking lowers the timer, so there are at most four in its life. */
  lemma RelinkBound(due: int, now: nat, n: nat)
    requires Holdable(due, now) && now + n <= due
    ensures Relinks(due, now, n) <= HeightAt(due)(now) - HeightAt(due)(now + n) <= 4
  {
    forall m: nat | now <= m < now + n
      ensures HeightAt(due)(m + 1) <= HeightAt(due)(m) - if RelinkedAt(due)(m) then 1 else 0
    {
      StillHoldable(due, now, m);
      RelinkStep(due, m);
    }
    CountBound(RelinkedAt(due), HeightAt(due), now, n);
  }

  lemma StillHoldable(due: int, now: nat, later: nat)
    requires Holdable(due, now) && now <= later <= due
    ensures Holdable(due, later)
  {
    Monotone(now, later);
  }
}
