/**
 The spinning reader-writer lock of misaka/include/rwlock.h, as a transition system over
 any number of threads whose steps are the single reads and atomic updates of the code.
 */
module RwLock {

  type Tid = int

  datatype Pc =
    | Idle
    // rwlock_rlock
    | ReadSpin
    | ReadEnter
    | ReadCheck
    | ReadBackOff
    | Reading
    // rwlock_wlock
    | WriteTake
    | WriteWait
    | Writing

  datatype State = State(write: int, read: int, threads: map<Tid, Pc>)

  datatype Step =
    | StartRead(t: Tid)
    | SpinRead(t: Tid)
    | EnterRead(t: Tid)
    | CheckRead(t: Tid)
    | BackOff(t: Tid)
    | UnlockRead(t: Tid)
    | StartWrite(t: Tid)
    | TakeWrite(t: Tid)
    | WaitReaders(t: Tid)
    | UnlockWrite(t: Tid)

  predicate Enabled(s: State, step: Step)
  {
    && step.t in s.threads
    && var pc := s.threads[step.t];
    match step
    case StartRead(_) => pc.Idle?
    case SpinRead(_) => pc.ReadSpin?
    case EnterRead(_) => pc.ReadEnter?
    case CheckRead(_) => pc.ReadCheck?
    case BackOff(_) => pc.ReadBackOff?
    case UnlockRead(_) => pc.Reading?
    case StartWrite(_) => pc.Idle?
    case TakeWrite(_) => pc.WriteTake?
    case WaitReaders(_) => pc.WriteWait?
    case UnlockWrite(_) => pc.Writing?
  }

  function At(s: State, t: Tid, pc: Pc): State
  {
    s.(threads := s.threads[t := pc])
  }

  function Apply(s: State, step: Step): State
    requires Enabled(s, step)
  {
    match step
    case StartRead(_) => At(s, step.t, ReadSpin)
    // looks at the write flag, and again while it is up
    case SpinRead(_) => At(s, step.t, if s.write != 0 then ReadSpin else ReadEnter)
    // counts itself among the readers, atomically
    case EnterRead(_) => At(s, step.t, ReadCheck).(read := s.read + 1)
    // looks at the write flag a second time
    case CheckRead(_) => At(s, step.t, if s.write != 0 then ReadBackOff else Reading)
    // takes itself out of the count, atomically
    case BackOff(_) => At(s, step.t, ReadSpin).(read := s.read - 1)
    case UnlockRead(_) => At(s, step.t, Idle).(read := s.read - 1)
    case StartWrite(_) => At(s, step.t, WriteTake)
    // raises the write flag and learns what it was, in one atomic step
    case TakeWrite(_) => At(s, step.t, if s.write != 0 then WriteTake else WriteWait).(write := 1)
    // looks at the reader count, and again while it is not zero
    case WaitReaders(_) => At(s, step.t, if s.read != 0 then WriteWait else Writing)
    case UnlockWrite(_) => At(s, step.t, Idle).(write := 0)
  }

  /** A reader that has counted itself. */
  predicate Registered(pc: Pc)
  {
    pc.ReadCheck? || pc.ReadBackOff? || pc.Reading?
  }

  /** A writer that has taken the write flag. */
  predicate HasFlag(pc: Pc)
  {
    pc.WriteWait? || pc.Writing?
  }

  ghost function Where(threads: map<Tid, Pc>, p: Pc -> bool): set<Tid>
  {
    set t | t in threads && p(threads[t])
  }

  ghost function Readers(s: State): set<Tid>
  {
    Where(s.threads, pc => Registered(pc))
  }

  ghost function Writers(s: State): set<Tid>
  {
    Where(s.threads, pc => HasFlag(pc))
  }

  /** How one thread's move changes the number of threads with a property. */
  lemma WhereMoves(threads: map<Tid, Pc>, t: Tid, pc: Pc, p: Pc -> bool)
    requires t in threads
    ensures |Where(threads[t := pc], p)| ==
      |Where(threads, p)| + (if p(pc) then 1 else 0) - (if p(threads[t]) then 1 else 0)
  {
    var a, b := Where(threads, p), Where(threads[t := pc], p);
    assert a - {t} == b - {t};
    assert |a| == |a - {t}| + if t in a then 1 else 0;
    assert |b| == |b - {t}| + if t in b then 1 else 0;
  }

  lemma WhereNone(threads: map<Tid, Pc>, p: Pc -> bool)
    requires forall t :: t in threads ==> !p(threads[t])
    ensures Where(threads, p) == {}
  {
    assert forall t :: t in threads ==> t !in Where(threads, p);
  }

  ghost predicate Excluded(s: State)
  {
    forall t, u :: t in s.threads && u in s.threads && s.threads[t].Writing? ==> !s.threads[u].Reading?
  }

  ghost predicate Inv(s: State)
  {
    && s.read == |Readers(s)|
    && s.write == |Writers(s)| && s.write <= 1
    && Excluded(s)
  }

  lemma ReadersStep(s: State, step: Step)
    requires s.read == |Readers(s)| && Enabled(s, step)
    ensures Apply(s, step).read == |Readers(Apply(s, step))|
  {
    WhereMoves(s.threads, step.t, Apply(s, step).threads[step.t], pc => Registered(pc));
  }

  lemma WritersStep(s: State, step: Step)
    requires s.write == |Writers(s)| <= 1 && Enabled(s, step)
    ensures Apply(s, step).write == |Writers(Apply(s, step))| <= 1
  {
    WhereMoves(s.threads, step.t, Apply(s, step).threads[step.t], pc => HasFlag(pc));
  }

  lemma ExcludedStep(s: State, step: Step)
    requires Inv(s) && Enabled(s, step)
    ensures Excluded(Apply(s, step))
  {
    var s', t := Apply(s, step), step.t;
    if step.CheckRead? {
      forall w | w in s.threads && s.threads[w].Writing? ensures s.write != 0 {
        assert w in Writers(s);
      }
    } else if step.WaitReaders? {
      forall r | r in s.threads && s.threads[r].Reading? ensures s.read != 0 {
        assert r in Readers(s);
      }
    }
  }

  ghost predicate Init(s: State)
  {
    s.read == 0 && s.write == 0 && forall t :: t in s.threads ==> s.threads[t].Idle?
  }

  ghost predicate Legal(s: State, steps: seq<Step>)
    decreases |steps|, 0
  {
    steps == [] ||
    (Legal(s, steps[..|steps| - 1]) && Enabled(After(s, steps[..|steps| - 1]), steps[|steps| - 1]))
  }

  ghost function After(s: State, steps: seq<Step>): State
    requires Legal(s, steps)
    decreases |steps|, 1
  {
    if steps == [] then s else Apply(After(s, steps[..|steps| - 1]), steps[|steps| - 1])
  }

  lemma StepInv(s: State, step: Step)
    requires Inv(s) && Enabled(s, step)
    ensures Inv(Apply(s, step))
  {
    ReadersStep(s, step);
    WritersStep(s, step);
    ExcludedStep(s, step);
  }

  lemma {:induction false} RunInv(s: State, steps: seq<Step>)
    requires Init(s) && Legal(s, steps)
    ensures Inv(After(s, steps))
  {
    if steps == [] {
      WhereNone(s.threads, pc => Registered(pc));
      WhereNone(s.threads, pc => HasFlag(pc));
    } else {
      var front := steps[..|steps| - 1];
      RunInv(s, front);
      StepInv(After(s, front), steps[|steps| - 1]);
    }
  }

  /** A writer inside excludes every reader and every other writer inside. */
  lemma WriterIsAlone(s: State, steps: seq<Step>, t: Tid, u: Tid)
    requires Init(s) && Legal(s, steps)
    requires var s' := After(s, steps); t in s'.threads && u in s'.threads && s'.threads[t].Writing? && t != u
    ensures var pc := After(s, steps).threads[u]; !pc.Reading? && !pc.Writing?
  {
    RunInv(s, steps);
    var s' := After(s, steps);
    assert t in Writers(s');
    assert |Writers(s') - {t}| == |Writers(s')| - 1;
    assert u !in Writers(s') - {t};
  }

  /** Both fields are back at 0 whenever every thread is idle. */
  lemma IdleIsFree(s: State, steps: seq<Step>)
    requires Init(s) && Legal(s, steps)
    requires forall t :: t in After(s, steps).threads ==> After(s, steps).threads[t].Idle?
    ensures After(s, steps).read == 0 && After(s, steps).write == 0
  {
    RunInv(s, steps);
    var s' := After(s, steps);
    WhereNone(s'.threads, pc => Registered(pc));
    WhereNone(s'.threads, pc => HasFlag(pc));
  }

  // ----- what the steps grant -----

  /** No thread but `t` has the flag; no thread but `t` is registered. */
  ghost predicate NoWriterBut(s: State, t: Tid)
  {
    forall u :: u in s.threads && u != t ==> !HasFlag(s.threads[u])
  }

  ghost predicate NoReaderBut(s: State, t: Tid)
  {
    forall u :: u in s.threads && u != t ==> !Registered(s.threads[u])
  }

  /** What a thread sees in the fields is who else is in the lock. */
  lemma FieldsTell(s: State, t: Tid)
    requires Inv(s) && t in s.threads
    ensures !HasFlag(s.threads[t]) ==> (s.write == 0 <==> NoWriterBut(s, t))
    ensures !Registered(s.threads[t]) ==> (s.read == 0 <==> NoReaderBut(s, t))
  {
    if s.write == 0 {
      assert forall u :: u in s.threads ==> u !in Writers(s);
    }
    if s.read == 0 {
      assert forall u :: u in s.threads ==> u !in Readers(s);
    }
    if !HasFlag(s.threads[t]) && NoWriterBut(s, t) {
      WhereNone(s.threads, pc => HasFlag(pc));
    }
    if !Registered(s.threads[t]) && NoReaderBut(s, t) {
      WhereNone(s.threads, pc => Registered(pc));
    }
  }

  /**
   In every reachable state: a reader goes on, and is inside after its check, if and only if
   nobody has the flag; a writer gets the flag if and only if nobody else has it, and is
   inside after looking at the count if and only if no reader is registered.
   */
  lemma GrantedIff(s: State, steps: seq<Step>, step: Step)
    requires Init(s) && Legal(s, steps) && Enabled(After(s, steps), step)
    ensures var s', t := After(s, steps), step.t; var pc := Apply(s', step).threads[t];
      && (step.SpinRead? ==> (Enabled(Apply(s', step), EnterRead(t)) <==> NoWriterBut(s', t)))
      && (step.CheckRead? ==> (pc.Reading? <==> NoWriterBut(s', t)))
      && (step.TakeWrite? ==> (HasFlag(pc) <==> NoWriterBut(s', t)))
      && (step.WaitReaders? ==> (pc.Writing? <==> NoReaderBut(s', t)))
  {
    RunInv(s, steps);
    FieldsTell(After(s, steps), step.t);
  }

  /** Nobody comes back from the lock without having been inside: only an unlock makes a thread idle. */
  lemma IdleOnlyByUnlock(s: State, step: Step, t: Tid)
    requires Enabled(s, step) && t in s.threads && !s.threads[t].Idle? && Apply(s, step).threads[t].Idle?
    ensures step == (if s.threads[t].Reading? then UnlockRead(t) else UnlockWrite(t))
    ensures s.threads[t].Reading? || s.threads[t].Writing?
  {
  }

  /** At step `k` of the run, the last one of thread `t`, it looked at the flag and nobody had it. */
  ghost predicate LookedAt(s: State, steps: seq<Step>, t: Tid, k: nat)
    requires Legal(s, steps)
  {
    && k < |steps| && steps[k] == SpinRead(t)
    && (forall j :: k < j < |steps| ==> steps[j].t != t)
    && Legal(s, steps[..k]) && NoWriterBut(After(s, steps[..k]), t)
  }

  /** A reader counts itself only right after it has seen that nobody has the flag. */
  lemma {:induction false} CountsAfterLook(s: State, steps: seq<Step>, t: Tid) returns (k: nat)
    requires Init(s) && Legal(s, steps) && Enabled(After(s, steps), EnterRead(t))
    ensures LookedAt(s, steps, t, k)
  {
    var front, last := steps[..|steps| - 1], steps[|steps| - 1];
    if last.t == t {
      k := |front|;
      GrantedIff(s, front, last);
    } else {
      k := CountsAfterLook(s, front, t);
      assert steps[..k] == front[..k];
    }
  }

  // ----- nobody waits for ever: from anywhere the lock can be emptied -----

  ghost predicate Reaches(s0: State, s: State)
  {
    exists steps :: Legal(s0, steps) && After(s0, steps) == s
  }

  /** What can be reached from `s0`, all of it sound. */
  ghost function Sound(s0: State): iset<State>
  {
    iset s: State | Reaches(s0, s) && Inv(s)
  }

  lemma Hop(s0: State, s: State, step: Step) returns (s': State)
    requires s in Sound(s0) && Enabled(s, step)
    ensures s' == Apply(s, step) && s' in Sound(s0)
  {
    s' := Apply(s, step);
    var steps :| Legal(s0, steps) && After(s0, steps) == s;
    assert (steps + [step])[..|steps|] == steps;
    assert Legal(s0, steps + [step]) && After(s0, steps + [step]) == s';
    StepInv(s, step);
  }

  /** Only thread `t` has moved, to `pc`. */
  ghost predicate Moved(s: State, s': State, t: Tid, pc: Pc)
  {
    t in s.threads && s'.threads == s.threads[t := pc]
  }

  /** With nobody else in the lock four steps of a reader end inside, and one more leaves. */
  lemma ReaderGetsIn(s0: State, s: State, t: Tid) returns (inside: State, left: State)
    requires s in Sound(s0) && NoWriterBut(s, t)
    requires t in s.threads && s.threads[t].Idle?
    ensures inside in Sound(s0) && Moved(s, inside, t, Reading)
    ensures left in Sound(s0) && Moved(s, left, t, Idle)
  {
    var s1 := Hop(s0, s, StartRead(t));
    inside, left := SpinnerGetsIn(s0, s1, t);
  }

  lemma SpinnerGetsIn(s0: State, s: State, t: Tid) returns (inside: State, left: State)
    requires s in Sound(s0) && NoWriterBut(s, t)
    requires t in s.threads && (s.threads[t].ReadSpin? || s.threads[t].ReadEnter?)
    ensures inside in Sound(s0) && Moved(s, inside, t, Reading)
    ensures left in Sound(s0) && Moved(s, left, t, Idle)
  {
    var s1 := s;
    FieldsTell(s, t);
    if s.threads[t].ReadSpin? {
      s1 := Hop(s0, s, SpinRead(t));
    }
    inside := EntererGetsIn(s0, s1, t);
    left := Hop(s0, inside, UnlockRead(t));
  }

  lemma EntererGetsIn(s0: State, s: State, t: Tid) returns (inside: State)
    requires s in Sound(s0) && s.write == 0 && t in s.threads && s.threads[t].ReadEnter?
    ensures inside in Sound(s0) && Moved(s, inside, t, Reading)
  {
    var s1 := Hop(s0, s, EnterRead(t));
    inside := Hop(s0, s1, CheckRead(t));
  }

  /** With nobody else in the lock three steps of a writer end inside, and one more leaves. */
  lemma WriterGetsIn(s0: State, s: State, t: Tid) returns (inside: State, left: State)
    requires s in Sound(s0) && NoWriterBut(s, t) && NoReaderBut(s, t)
    requires t in s.threads && s.threads[t].Idle?
    ensures inside in Sound(s0) && Moved(s, inside, t, Writing)
    ensures left in Sound(s0) && Moved(s, left, t, Idle)
  {
    var s1 := Hop(s0, s, StartWrite(t));
    inside, left := TakerGetsIn(s0, s1, t);
  }

  lemma TakerGetsIn(s0: State, s: State, t: Tid) returns (inside: State, left: State)
    requires s in Sound(s0) && NoWriterBut(s, t) && NoReaderBut(s, t)
    requires t in s.threads && s.threads[t].WriteTake?
    ensures inside in Sound(s0) && Moved(s, inside, t, Writing)
    ensures left in Sound(s0) && Moved(s, left, t, Idle)
  {
    FieldsTell(s, t);
    var s1 := Hop(s0, s, TakeWrite(t));
    inside, left := HolderGetsIn(s0, s1, t);
  }

  /** A writer that has the flag, with no reader registered. */
  lemma HolderGetsIn(s0: State, s: State, t: Tid) returns (inside: State, left: State)
    requires s in Sound(s0) && NoReaderBut(s, t)
    requires t in s.threads && HasFlag(s.threads[t])
    ensures inside in Sound(s0) && Moved(s, inside, t, Writing)
    ensures left in Sound(s0) && Moved(s, left, t, Idle)
  {
    FieldsTell(s, t);
    inside := s;
    if s.threads[t].WriteWait? {
      inside := Hop(s0, s, WaitReaders(t));
    }
    left := Hop(s0, inside, UnlockWrite(t));
  }

  /** A registered reader can always leave the count. */
  lemma RegisteredLeaves(s0: State, s: State, t: Tid) returns (s': State)
    requires s in Sound(s0) && t in s.threads && Registered(s.threads[t])
    ensures s' in Sound(s0)
    ensures Moved(s, s', t, Idle) || Moved(s, s', t, ReadSpin)
  {
    s' := s;
    if s.threads[t].ReadCheck? {
      s' := Hop(s0, s, CheckRead(t));
    }
    if s'.threads[t].Reading? {
      s' := Hop(s0, s', UnlockRead(t));
    } else {
      s' := Hop(s0, s', BackOff(t));
    }
  }

  lemma {:induction false} ReadersLeave(s0: State, s: State) returns (s': State)
    requires s in Sound(s0)
    ensures s' in Sound(s0) && s'.threads.Keys == s.threads.Keys
    ensures forall t :: t in s'.threads ==> !Registered(s'.threads[t])
    decreases Readers(s)
  {
    s' := s;
    if t :| t in s.threads && Registered(s.threads[t]) {
      s' := RegisteredLeaves(s0, s, t);
      assert t in Readers(s) && t !in Readers(s') && Readers(s') <= Readers(s);
      s' := ReadersLeave(s0, s');
    }
  }

  ghost function Busy(s: State): set<Tid>
  {
    set t | t in s.threads && !s.threads[t].Idle?
  }

  /** With no reader registered: one thread after the other gets what it asked for and leaves. */
  lemma {:induction false} AllServed(s0: State, s: State) returns (s': State)
    requires s in Sound(s0) && forall t :: t in s.threads ==> !Registered(s.threads[t])
    ensures s' in Sound(s0) && s'.threads.Keys == s.threads.Keys
    ensures forall t :: t in s'.threads ==> s'.threads[t].Idle?
    decreases Busy(s)
  {
    s' := s;
    if t :| t in s.threads && HasFlag(s.threads[t]) {
      var inside;
      inside, s' := HolderGetsIn(s0, s, t);
      assert t in Busy(s) && t !in Busy(s') && Busy(s') <= Busy(s);
      s' := AllServed(s0, s');
    } else if t :| t in s.threads && !s.threads[t].Idle? {
      var inside;
      if s.threads[t].WriteTake? {
        inside, s' := TakerGetsIn(s0, s, t);
      } else {
        inside, s' := SpinnerGetsIn(s0, s, t);
      }
      assert t in Busy(s) && t !in Busy(s') && Busy(s') <= Busy(s);
      s' := AllServed(s0, s');
    }
  }

  /** No deadlock: from every reachable state all threads can get through the lock and leave it. */
  lemma NoDeadlock(s0: State, steps: seq<Step>) returns (s: State)
    requires Init(s0) && Legal(s0, steps)
    ensures Reaches(After(s0, steps), s) && s.threads.Keys == After(s0, steps).threads.Keys
    ensures forall t :: t in s.threads ==> s.threads[t].Idle?
  {
    s := After(s0, steps);
    RunInv(s0, steps);
    assert Legal(s, []) && After(s, []) == s;
    s := ReadersLeave(After(s0, steps), s);
    s := AllServed(After(s0, steps), s);
  }
}
