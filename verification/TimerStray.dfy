/**
 Delays that the wheel cannot hold.

 `server_timer_timeout` takes any nonzero C `int`; a negative one becomes a delay close to
 2^32 and can leave the expiry just behind the tick count, in the same slot of the top
 level.  This module follows a single timer through the wheel for every 32-bit delay and
 shows exactly when it is still dispatched on the tick it asked for.
 */
module TimerStray {
  import opened TimerSlots

  /** Where a node with expiry `e` at `pos` is after the tick count has become `m`. */
  function Move(e: int, pos: Pos, m: nat): Pos
  {
    if m % NEAR == 0 && pos == Cascade(m) then Place(e, m % WRAP) else pos
  }

  /** Its place `n` ticks after it was added at tick `now`. */
  function Path(e: int, now: nat, n: nat): Pos
  {
    if n == 0 then Place(e, now % WRAP) else Move(e, Path(e, now, n - 1), now + n)
  }

  predicate DispatchedAt(e: int, now: nat, n: nat)
  {
    Path(e, now, n) == Near((now + n) % NEAR)
  }

  ghost predicate FirstDispatchedAt(e: int, now: nat, n: nat)
  {
    DispatchedAt(e, now, n) && forall k :: 0 <= k < n ==> !DispatchedAt(e, now, k)
  }

  /** No digit of `e` from level `l` up to level 2 is zero. */
  predicate DigitsFrom(e: int, l: int)
  {
    && (l <= 0 ==> Q0(e) % LEVEL != 0)
    && (l <= 1 ==> Q1(e) % LEVEL != 0)
    && (l <= 2 ==> Q2(e) % LEVEL != 0)
  }

  /** What a caller can check: the expiry is ahead within its top-level slot, or behind it but never in a slot 0. */
  predicate Punctual(e: int, t: int)
  {
    || Q3(e) != Q3(t)
    || e > t
    || (Q0(e) != Q0(t) && DigitsFrom(e, Place(e, t).Height() - 1))
  }

  // ----- timers that the wheel holds -----

  lemma HoldableIsAhead(now: nat, d: nat)
    requires 0 < d < WRAP
    ensures var e, t := (now + d) % WRAP, now % WRAP;
      Holdable(now + d, now) <==> Q3(e) != Q3(t) || e > t
  {
    var e, t := (now + d) % WRAP, now % WRAP;
    Wraps(now);
    Wraps(now + d);
    WrapOnce(now, d);
    if e > t {
      Monotone(t, e);
    } else {
      Monotone(e, t);
    }
  }

  lemma WrapOnce(now: nat, d: nat)
    requires 0 < d < WRAP
    ensures var e, t := (now + d) % WRAP, now % WRAP;
      if e > t then (now + d) / WRAP == now / WRAP else (now + d) / WRAP == now / WRAP + 1 && e < t
  {
  }

  /** A node in its canonical place stays in it. */
  lemma MoveCanonical(due: int, now: nat)
    requires now < due && Holdable(due, now)
    ensures Move(due % WRAP, Place(due, now), now + 1) == Place(due, now + 1) && Holdable(due, now + 1)
  {
    Monotone(now, now + 1);
    PlaceWraps(due, now + 1);
    if (now + 1) % NEAR != 0 {
      QuietTick(due, now);
    } else if Place(due, now) != Cascade(now + 1) {
      CarryKeepsOthers(due, now);
    }
  }

  // ----- timers behind the tick count -----

  /** The quotient whose last digit indexes level `l`. */
  function QuotientAt(x: int, l: nat): int
    requires l <= 3
  {
    match l
    case 0 => Q0(x)
    case 1 => Q1(x)
    case 2 => Q2(x)
    case 3 => Q3(x)
  }

  /**
   At tick `n` a node whose expiry last came up at tick `b` waits on its level for the
   counter to come round to its slot.
   */
  predicate Waiting(b: int, n: int, pos: Pos)
  {
    && pos.Far? && 0 <= pos.level <= 2
    && var l := pos.level;
    && b < n
    && pos.idx == QuotientAt(b, l) % LEVEL
    && pos.idx != 0
    && QuotientAt(b, l) < QuotientAt(n, l)
    && (|| QuotientAt(n, l + 1) == QuotientAt(b, l + 1)
        || (QuotientAt(n, l + 1) == QuotientAt(b, l + 1) + 1 && QuotientAt(n, l) % LEVEL < pos.idx))
  }

  lemma PlaceBehind(b: nat, n: nat)
    requires b <= n && Q3(n) - Q3(b) < LEVEL
    ensures Place(b % WRAP, n % WRAP) == Place(b, n)
  {
    Wraps(b);
    Wraps(n);
    if b / WRAP != n / WRAP {
      assert n / WRAP == b / WRAP + 1;
      assert Q3(n % WRAP) < Q3(b % WRAP);
    }
  }

  /** The waiting slot is cascaded only after the level above has moved on by one. */
  lemma WaitingCascade(b: nat, n: nat, pos: Pos)
    requires Waiting(b, n, pos) && (n + 1) % NEAR == 0 && pos == Cascade(n + 1)
    ensures QuotientAt(n + 1, pos.level + 1) == QuotientAt(b, pos.level + 1) + 1
  {
    Carry(n);
    Monotone(b, n);
  }

  lemma WaitingStays(b: nat, n: nat, pos: Pos)
    requires Waiting(b, n, pos) && !((n + 1) % NEAR == 0 && pos == Cascade(n + 1))
    ensures Waiting(b, n + 1, pos)
  {
    Carry(n);
    Monotone(n, n + 1);
  }

  /** Behind by at most one turn of level `l`, the node has moved to a higher level. */
  lemma PlaceAfterTurn(b: nat, m: nat, l: nat)
    requires l <= 2 && b < m && QuotientAt(m, l + 1) == QuotientAt(b, l + 1) + 1
    ensures var p := Place(b, m);
      && p.Far? && p.level > l && p.idx == QuotientAt(b, p.level) % LEVEL
      && QuotientAt(b, p.level) < QuotientAt(m, p.level)
      && (p.level <= 2 ==> QuotientAt(b, p.level + 1) == QuotientAt(m, p.level + 1))
    ensures Q3(m) - Q3(b) <= 1
  {
    Monotone(b, m);
  }

  /** The node is on course for tick `b + WRAP`: it waits behind the counter, or is held in its place. */
  predicate OnCourse(b: nat, n: nat, pos: Pos)
  {
    || (Waiting(b, n, pos) && DigitsFrom(b, pos.level))
    || (Holdable(b + WRAP, n) && pos == Place(b + WRAP, n))
  }

  function OnCourseBy(b: nat): (nat, Pos) -> bool
  {
    (m: nat, p: Pos) => OnCourse(b, m, p)
  }

  lemma WaitingStep(b: nat, n: nat, pos: Pos)
    requires Waiting(b, n, pos) && DigitsFrom(b, pos.level) && n < b + WRAP
    ensures OnCourse(b, n + 1, Move(b % WRAP, pos, n + 1))
  {
    if (n + 1) % NEAR == 0 && pos == Cascade(n + 1) {
      WaitingCascade(b, n, pos);
      OnCourseTurn(b, n + 1, pos.level);
    } else {
      WaitingStays(b, n, pos);
    }
  }

  lemma OnCourseStep(b: nat, n: nat, pos: Pos)
    requires OnCourse(b, n, pos) && n < b + WRAP
    ensures OnCourse(b, n + 1, Move(b % WRAP, pos, n + 1))
  {
    if Waiting(b, n, pos) && DigitsFrom(b, pos.level) {
      WaitingStep(b, n, pos);
    } else {
      SameExpiry(b);
      MoveCanonical(b + WRAP, n);
    }
  }

  lemma SameExpiry(b: nat)
    ensures (b + WRAP) % WRAP == b % WRAP
  {
  }

  lemma OnCourseTurn(b: nat, m: nat, l: nat)
    requires l <= 2 && b < m <= b + WRAP && QuotientAt(m, l + 1) == QuotientAt(b, l + 1) + 1 && DigitsFrom(b, l)
    ensures OnCourse(b, m, Place(b % WRAP, m % WRAP))
  {
    PlaceAfterTurn(b, m, l);
    PlaceBehind(b, m);
    if Place(b, m).level <= 2 {
      assert Waiting(b, m, Place(b, m));
    } else {
      HeldAgain(b, m);
    }
  }

  /** Once the top level has moved on, the next coming up of the expiry can be held. */
  lemma HeldAgain(b: nat, m: nat)
    requires b < m <= b + WRAP && Q3(b) < Q3(m)
    ensures Holdable(b + WRAP, m) && Place(b % WRAP, m % WRAP) == Place(b + WRAP, m)
  {
    TurnLater(b);
    SameExpiry(b);
    PlaceWraps(b + WRAP, m);
  }

  lemma TurnLater(b: nat)
    ensures Q3(b + WRAP) == Q3(b) + 64 && Q2(b + WRAP) == Q2(b) + 0x1000
    ensures Q1(b + WRAP) == Q1(b) + 0x4_0000
  {
  }

  lemma OnCourseFires(b: nat, n: nat, pos: Pos)
    requires OnCourseBy(b)(n, pos) && n <= b + WRAP
    ensures pos == Near(n % NEAR) <==> n == b + WRAP
  {
    if Holdable(b + WRAP, n) && pos == Place(b + WRAP, n) {
      DueSlot(b + WRAP, n);
    } else {
      TurnLater(b);
    }
  }

  /** What every tick keeps holds along the whole path. */
  lemma {:induction false} PathKeeps(e: int, now: nat, n: nat, inv: (nat, Pos) -> bool)
    requires inv(now, Path(e, now, 0))
    requires forall m: nat, p :: now <= m < now + n && inv(m, p) ==> inv(m + 1, Move(e, p, m + 1))
    ensures inv(now + n, Path(e, now, n))
  {
    if n > 0 {
      PathKeeps(e, now, n - 1, inv);
      assert inv(now + n - 1, Path(e, now, n - 1));
    }
  }

  lemma OnCourseStepBy(b: nat, e: int, m: nat, p: Pos)
    requires e == b % WRAP && m < b + WRAP && OnCourseBy(b)(m, p)
    ensures OnCourseBy(b)(m + 1, Move(e, p, m + 1))
  {
    OnCourseStep(b, m, p);
  }

  /** A path that meets the tick count at `at` and not before. */
  lemma FirstBy(e: int, now: nat, at: nat, inv: (nat, Pos) -> bool)
    requires now <= at && inv(now, Path(e, now, 0))
    requires forall m: nat, p :: now <= m < at && inv(m, p) ==> inv(m + 1, Move(e, p, m + 1))
    requires forall m: nat, p :: now <= m <= at && inv(m, p) ==> (p == Near(m % NEAR) <==> m == at)
    ensures FirstDispatchedAt(e, now, at - now)
  {
    forall k: nat | now + k <= at ensures DispatchedAt(e, now, k) <==> now + k == at {
      PathKeeps(e, now, k, inv);
      assert inv(now + k, Path(e, now, k));
    }
  }

  // ----- timers that miss their tick -----

  /** A near slot is never cascaded. */
  lemma {:induction false} NearStays(e: int, now: nat, n: nat)
    requires Place(e, now % WRAP).Near?
    ensures Path(e, now, n) == Place(e, now % WRAP)
  {
    if n > 0 {
      NearStays(e, now, n - 1);
    }
  }

  /** No digit of `b` from level `lo` up to below level `j` is zero. */
  predicate DigitsBetween(b: int, lo: int, j: int)
  {
    && (lo <= 0 < j ==> Q0(b) % LEVEL != 0)
    && (lo <= 1 < j ==> Q1(b) % LEVEL != 0)
  }

  /** The node is bound for slot 0 of level `j`, which is never cascaded, or is in it. */
  predicate Doomed(b: nat, n: nat, lo: nat, j: nat, pos: Pos)
  {
    && j <= 2 && QuotientAt(b, j) % LEVEL == 0 && DigitsBetween(b, lo, j)
    && (pos == Far(j, 0) || (Waiting(b, n, pos) && lo <= pos.level < j))
  }

  lemma DoomedStep(b: nat, n: nat, lo: nat, j: nat, pos: Pos)
    requires Doomed(b, n, lo, j, pos)
    ensures Doomed(b, n + 1, lo, j, Move(b % WRAP, pos, n + 1))
  {
    if pos != Far(j, 0) {
      if (n + 1) % NEAR == 0 && pos == Cascade(n + 1) {
        WaitingCascade(b, n, pos);
        DoomedTurn(b, n + 1, lo, pos.level, j);
      } else {
        WaitingStays(b, n, pos);
      }
    }
  }

  lemma DoomedTurn(b: nat, m: nat, lo: nat, l: nat, j: nat)
    requires lo <= l < j <= 2 && b < m && QuotientAt(m, l + 1) == QuotientAt(b, l + 1) + 1
    requires QuotientAt(b, j) % LEVEL == 0 && DigitsBetween(b, lo, j)
    ensures Doomed(b, m, lo, j, Place(b % WRAP, m % WRAP))
  {
    PlaceAfterTurn(b, m, l);
    PlaceBehind(b, m);
    CarryStops(b, m, l, j);
  }

  /** A zero digit on level `j` stops the carry, so the node goes no higher. */
  lemma CarryStops(b: nat, m: nat, l: nat, j: nat)
    requires l < j <= 2 && b < m && QuotientAt(m, l + 1) == QuotientAt(b, l + 1) + 1
    requires QuotientAt(b, j) % LEVEL == 0
    ensures QuotientAt(m, j + 1) == QuotientAt(b, j + 1)
  {
    Monotone(b, m);
  }

  function DoomedBy(b: nat, lo: nat, j: nat): (nat, Pos) -> bool
  {
    (m: nat, p: Pos) => Doomed(b, m, lo, j, p)
  }

  lemma DoomedStepBy(b: nat, e: int, lo: nat, j: nat, m: nat, p: Pos)
    requires e == b % WRAP && DoomedBy(b, lo, j)(m, p)
    ensures DoomedBy(b, lo, j)(m + 1, Move(e, p, m + 1))
  {
    DoomedStep(b, m, lo, j, p);
  }

  lemma DoomedPath(b: nat, e: int, now: nat, lo: nat, j: nat, n: nat)
    requires e == b % WRAP && DoomedBy(b, lo, j)(now, Path(e, now, 0))
    ensures DoomedBy(b, lo, j)(now + n, Path(e, now, n))
  {
    var inv := DoomedBy(b, lo, j);
    forall m: nat, p | now <= m < now + n && inv(m, p) ensures inv(m + 1, Move(e, p, m + 1)) {
      DoomedStepBy(b, e, lo, j, m, p);
    }
    PathKeeps(e, now, n, inv);
  }

  // ----- the exact condition -----

  ghost function HeldBy(due: int): (nat, Pos) -> bool
  {
    (m: nat, p: Pos) => Holdable(due, m) && p == Place(due, m)
  }

  lemma HeldStepBy(due: int, e: int, m: nat, p: Pos)
    requires e == due % WRAP && m < due && HeldBy(due)(m, p)
    ensures HeldBy(due)(m + 1, Move(e, p, m + 1))
  {
    MoveCanonical(due, m);
  }

  lemma HeldFires(due: int, m: nat, p: Pos)
    requires HeldBy(due)(m, p)
    ensures p == Near(m % NEAR) <==> m == due
  {
    DueSlot(due, m);
  }

  lemma HeldIsFirst(now: nat, d: nat)
    requires 0 < d < WRAP && Holdable(now + d, now)
    ensures FirstDispatchedAt((now + d) % WRAP, now, d)
  {
    var due, e := now + d, (now + d) % WRAP;
    var inv := HeldBy(due);
    PlaceWraps(due, now);
    forall m: nat, p | now <= m < due && inv(m, p) ensures inv(m + 1, Move(e, p, m + 1)) {
      HeldStepBy(due, e, m, p);
    }
    forall m: nat, p | now <= m <= due && inv(m, p) ensures p == Near(m % NEAR) <==> m == due {
      HeldFires(due, m, p);
    }
    FirstBy(e, now, due, inv);
  }

  lemma OnCourseIsFirst(b: nat, e: int, now: nat)
    requires e == b % WRAP && b < now < b + WRAP && OnCourseBy(b)(now, Path(e, now, 0))
    ensures FirstDispatchedAt(e, now, b + WRAP - now)
  {
    var inv := OnCourseBy(b);
    forall m: nat, p | now <= m < b + WRAP && inv(m, p) ensures inv(m + 1, Move(e, p, m + 1)) {
      OnCourseStepBy(b, e, m, p);
    }
    forall m: nat, p | now <= m <= b + WRAP && inv(m, p) ensures p == Near(m % NEAR) <==> m == b + WRAP {
      OnCourseFires(b, m, p);
    }
    FirstBy(e, now, b + WRAP, inv);
  }

  lemma NearIsEarly(b: nat, now: nat)
    requires b < now && Q0(b) == Q0(now)
    ensures DispatchedAt(b % WRAP, now, b + NEAR - now) && 0 < b + NEAR - now < b + WRAP - now
  {
    PlaceBehind(b, now);
    NearStays(b % WRAP, now, b + NEAR - now);
    SamePageIndex(b);
  }

  lemma SamePageIndex(b: nat)
    ensures (b + NEAR) % NEAR == b % NEAR
  {
  }

  /** The zero digit of the lowest level from `lo` up. */
  function ZeroLevel(b: int, lo: nat): (j: nat)
    requires lo <= 2 && !DigitsFrom(b, lo)
    ensures lo <= j <= 2 && QuotientAt(b, j) % LEVEL == 0 && DigitsBetween(b, lo, j)
  {
    if lo <= 0 && Q0(b) % LEVEL == 0 then 0
    else if lo <= 1 && Q1(b) % LEVEL == 0 then 1
    else 2
  }

  /** The place of an expiry just behind the counter, in the same slot of the top level. */
  lemma PlaceJustBehind(b: nat, now: nat)
    requires b < now && Q3(b) == Q3(now) && Q0(b) != Q0(now)
    ensures var p := Place(b, now);
      && p.Far? && p.level <= 2 && p.idx == QuotientAt(b, p.level) % LEVEL
      && (p.idx != 0 ==> Waiting(b, now, p))
  {
    Monotone(b, now);
  }

  lemma BehindExact(b: nat, now: nat)
    requires b < now && Q3(b) == Q3(now) && Q0(b) != Q0(now)
    ensures FirstDispatchedAt(b % WRAP, now, b + WRAP - now) <==> DigitsFrom(b, Place(b, now).Height() - 1)
  {
    PlaceBehind(b, now);
    PlaceJustBehind(b, now);
    TurnLater(b);
    Monotone(now, b + WRAP);
    var p := Place(b, now);
    if DigitsFrom(b, p.level) {
      assert Waiting(b, now, p);
      OnCourseIsFirst(b, b % WRAP, now);
    } else {
      var j := ZeroLevel(b, p.level);
      assert Doomed(b, now, p.level, j, p);
      DoomedPath(b, b % WRAP, now, p.level, j, b + WRAP - now);
    }
  }

  /** A caller's check on expiry and tick count is the one on their absolute positions. */
  lemma BehindWraps(now: nat, d: nat)
    requires 0 < d < WRAP && !Holdable(now + d, now)
    ensures var b, e, t := now + d - WRAP, (now + d) % WRAP, now % WRAP;
      && 0 <= b < now && b % WRAP == e && Q3(b) == Q3(now)
      && Place(e, t) == Place(b, now)
      && (Q0(e) == Q0(t) <==> Q0(b) == Q0(now))
      && (forall l :: DigitsFrom(e, l) <==> DigitsFrom(b, l))
  {
    var b, e, t := now + d - WRAP, (now + d) % WRAP, now % WRAP;
    HoldableIsAhead(now, d);
    WrapOnce(now, d);
    assert b / WRAP == now / WRAP && b % WRAP == e;
    Wraps(b);
    Wraps(now);
    DigitsWrap(b);
    PlaceBehind(b, now);
  }

  lemma DigitsWrap(b: nat)
    ensures Q0(b % WRAP) % LEVEL == Q0(b) % LEVEL
    ensures Q1(b % WRAP) % LEVEL == Q1(b) % LEVEL
    ensures Q2(b % WRAP) % LEVEL == Q2(b) % LEVEL
  {
    Wraps(b);
  }

  /**
   For every tick count and every nonzero 32-bit delay: the timer is dispatched for the
   first time on the very tick it asked for if and only if the check on its expiry holds.
   */
  lemma ExactlyPunctual(now: nat, d: nat)
    requires 0 < d < WRAP
    ensures FirstDispatchedAt((now + d) % WRAP, now, d) <==> Punctual((now + d) % WRAP, now % WRAP)
  {
    HoldableIsAhead(now, d);
    if Holdable(now + d, now) {
      HeldIsFirst(now, d);
    } else {
      BehindWraps(now, d);
      var b := now + d - WRAP;
      if Q0(b) == Q0(now) {
        NearIsEarly(b, now);
      } else {
        BehindExact(b, now);
      }
    }
  }

  /** A delay of -1 at tick 1 comes up after 255 ticks instead. */
  lemma MinusOneIsEarly()
    ensures !FirstDispatchedAt((1 - 1) % WRAP, 1, -1 % WRAP)
    ensures DispatchedAt((1 - 1) % WRAP, 1, 255)
  {
    NearIsEarly(0, 1);
  }

  /** A delay of -256 at tick 256 is put into slot 0 of level 0 and is never dispatched. */
  lemma MinusPageIsLost(n: nat)
    ensures !DispatchedAt((256 - 256) % WRAP, 256, n)
  {
    assert Doomed(0, 256, 0, 0, Place(0, 256));
    DoomedPath(0, 0, 256, 0, 0, n);
  }
}
