/**
 The time of day that misaka/lib/timer.c keeps: a count of hundredths of a second that wraps
 at 2^32, and a start in seconds that is moved on when it does.
 */
module TimerClock {
  import opened Bits
  import opened TimerSlots

  /** The hundredths counter and the start in seconds, both of 32 bits. */
  datatype Clock = Clock(current: nat, start: nat)

  /** The clock `diff` hundredths later: when the counter wraps, the start moves on by as many whole seconds. */
  function Moved(c: Clock, diff: nat): Clock
  {
    Clock((c.current + diff) % WRAP,
          if c.current + diff >= WRAP then (c.start + 0xffff_ffff / 100) % WRAP else c.start)
  }

  /** The readings of a hundredths counter that started at `base`, at tick `now`. */
  ghost function Readings(base: nat, now: nat): iset<nat>
  {
    iset c: nat | c < WRAP && InStep(c, base, now)
  }

  predicate InStep(c: nat, base: nat, now: nat)
  {
    (c - base) % WRAP == now % WRAP
  }

  lemma FirstReading(base: nat)
    requires base < WRAP
    ensures base in Readings(base, 0)
  {
  }

  lemma NextReading(current: nat, base: nat, now: nat, diff: nat)
    requires current in Readings(base, now)
    ensures (current + diff) % WRAP in Readings(base, now + diff)
  {
    var turns := (current - base) / WRAP - now / WRAP - (current + diff) / WRAP + (now + diff) / WRAP;
    DivUnique((current + diff) % WRAP - base, WRAP, turns, (now + diff) % WRAP);
  }

  // ----- the time shown -----

  /** The time of day in hundredths of a second. */
  function Shown(c: Clock): nat
  {
    100 * c.start + c.current
  }

  ghost predicate Sane(c: Clock)
  {
    c.current < 0x1_0000_0000 && c.start < 0x1_0000_0000
  }

  /** The clock shows `diff` hundredths more, less at most a second, while the start stays below 2^32. */
  ghost predicate KeepsTime(c: Clock, c': Clock, diff: nat)
  {
    Sane(c') && (c.start + 42949672 < 0x1_0000_0000 ==> 0 <= diff - (Shown(c') - Shown(c)) < 100)
  }

  ghost function Later(c: Clock, diff: nat): iset<Clock>
  {
    iset c': Clock | KeepsTime(c, c', diff)
  }

  /** One step of the clock loses nothing, or 96 hundredths exactly if the counter wraps. */
  lemma MovedKeepsTime(c: Clock, diff: nat)
    requires Sane(c) && diff < 0x1_0000_0000
    ensures Moved(c, diff) in Later(c, diff)
    ensures c.start + 42949672 < 0x1_0000_0000 ==>
      Shown(Moved(c, diff)) == Shown(c) + diff - if c.current + diff < 0x1_0000_0000 then 0 else 96
  {
  }

  /** The clock after many steps. */
  function MovedAll(c: Clock, diffs: seq<nat>): Clock
  {
    if diffs == [] then c else Moved(MovedAll(c, diffs[..|diffs| - 1]), diffs[|diffs| - 1])
  }

  function Total(diffs: seq<nat>): nat
  {
    if diffs == [] then 0 else Total(diffs[..|diffs| - 1]) + diffs[|diffs| - 1]
  }

  /** How often the counter has wrapped. */
  function Turns(c: Clock, elapsed: nat): nat
  {
    (c.current + elapsed) / 0x1_0000_0000
  }

  lemma TurnsMore(c: Clock, elapsed: nat, diff: nat)
    requires diff < 0x1_0000_0000
    ensures var r := (c.current + elapsed) % 0x1_0000_0000;
      && Turns(c, elapsed + diff) == Turns(c, elapsed) + (if r + diff < 0x1_0000_0000 then 0 else 1)
      && (c.current + elapsed + diff) % 0x1_0000_0000 == (r + diff) % 0x1_0000_0000
  {
  }

  /**
   After any steps the clock depends only on their sum: it shows the time that has passed, less
   96 hundredths of a second for every time the counter has wrapped.
   */
  lemma {:induction false} ClockIsElapsed(c: Clock, diffs: seq<nat>)
    requires Sane(c) && forall k :: 0 <= k < |diffs| ==> diffs[k] < 0x1_0000_0000
    requires c.start + 42949672 * Turns(c, Total(diffs)) < 0x1_0000_0000
    ensures Sane(MovedAll(c, diffs)) && MovedAll(c, diffs).current == (c.current + Total(diffs)) % 0x1_0000_0000
    ensures MovedAll(c, diffs).start == c.start + 42949672 * Turns(c, Total(diffs))
    ensures Shown(MovedAll(c, diffs)) == Shown(c) + Total(diffs) - 96 * Turns(c, Total(diffs))
  {
    if diffs != [] {
      var front, last := diffs[..|diffs| - 1], diffs[|diffs| - 1];
      TurnsMore(c, Total(front), last);
      ClockIsElapsed(c, front);
      ClockStep(c, Total(front), last, MovedAll(c, front));
    }
  }

  lemma ClockStep(c: Clock, elapsed: nat, diff: nat, m: Clock)
    requires Sane(c) && Sane(m) && diff < 0x1_0000_0000
    requires m.current == (c.current + elapsed) % 0x1_0000_0000 && m.start == c.start + 42949672 * Turns(c, elapsed)
    requires Shown(m) == Shown(c) + elapsed - 96 * Turns(c, elapsed)
    requires c.start + 42949672 * Turns(c, elapsed + diff) < 0x1_0000_0000
    ensures var m' := Moved(m, diff);
      && Sane(m') && m'.current == (c.current + elapsed + diff) % 0x1_0000_0000
      && m'.start == c.start + 42949672 * Turns(c, elapsed + diff)
      && Shown(m') == Shown(c) + elapsed + diff - 96 * Turns(c, elapsed + diff)
  {
    TurnsMore(c, elapsed, diff);
  }

  // ----- readings of the system clock -----

  /** The step from one reading to the next: a reading that goes back counts as none. */
  function StepTo(was: nat, now: nat): nat
  {
    if now <= was then 0 else (now - was) % 0x1_0000_0000
  }

  /** The steps that readings amount to. */
  function Steps(point: nat, cps: seq<nat>): seq<nat>
  {
    if cps == [] then []
    else
      var front, last := cps[..|cps| - 1], cps[|cps| - 1];
      Steps(point, front) + [StepTo(LastOf(point, front), last)]
  }

  function LastOf(point: nat, cps: seq<nat>): nat
  {
    if cps == [] then point else cps[|cps| - 1]
  }

  /** What an `int` loop counter can take from one reading to the next. */
  ghost predicate Frequent(point: nat, cps: seq<nat>)
  {
    forall k :: 0 <= k < |cps| ==> StepTo(LastOf(point, cps[..k]), cps[k]) < 0x8000_0000
  }

  /** Readings that never go back, and lie less than 2^32 hundredths apart, add up to the last less the first. */
  lemma {:induction false} StepsAddUp(point: nat, cps: seq<nat>)
    requires forall k :: 0 <= k < |cps| ==> LastOf(point, cps[..k]) <= cps[k] < LastOf(point, cps[..k]) + 0x1_0000_0000
    ensures |Steps(point, cps)| == |cps| && Total(Steps(point, cps)) == LastOf(point, cps) - point
    ensures forall k :: 0 <= k < |cps| ==> Steps(point, cps)[k] < 0x1_0000_0000
  {
    if cps != [] {
      var front, n := cps[..|cps| - 1], |cps| - 1;
      forall k | 0 <= k < n ensures LastOf(point, front[..k]) <= front[k] < LastOf(point, front[..k]) + 0x1_0000_0000 {
        assert front[..k] == cps[..k];
      }
      StepsAddUp(point, front);
      assert cps[..n] == front;
      assert Steps(point, cps)[..n] == Steps(point, front);
    }
  }

  lemma StepsNext(c: Clock, point: nat, cps: seq<nat>, k: nat)
    requires k < |cps|
    ensures LastOf(point, cps[..k + 1]) == cps[k]
    ensures MovedAll(c, Steps(point, cps[..k + 1])) ==
      Moved(MovedAll(c, Steps(point, cps[..k])), StepTo(LastOf(point, cps[..k]), cps[k]))
  {
    assert cps[..k + 1][..k] == cps[..k];
    var was, now := Steps(point, cps[..k]), Steps(point, cps[..k + 1]);
    assert now[..|now| - 1] == was;
  }

  lemma NoStep(c: Clock)
    requires c.current < 0x1_0000_0000
    ensures Moved(c, 0) == c
  {
  }
}
