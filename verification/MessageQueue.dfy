/**
 The message queues of misaka/lib/skynet_mq.c: a growing ring buffer per event type, and
 the global list that links, through their own `next` fields, the queues that have work.
 */
module MessageQueue {
  import opened Options

  type Message = int

  const DEFAULT_QUEUE_SIZE: nat := 64
  const MQ_OVERLOAD: nat := 1024

  // ----- what a queue is for its users -----

  datatype Queue = Queue(contents: seq<Message>, inGlobal: bool, threshold: nat, overload: nat)

  const EMPTY := Queue([], false, MQ_OVERLOAD, 0)

  function Pushed(q: Queue, m: Message): Queue
  {
    q.(contents := q.contents + [m], inGlobal := true)
  }

  function Popped(q: Queue): (Option<Message>, Queue)
  {
    if q.contents == [] then (None, q.(inGlobal := false, threshold := MQ_OVERLOAD))
    else
      var rest := q.contents[1..];
      (Some(q.contents[0]),
       q.(contents := rest,
       threshold := Raised(q.threshold, |rest|),
       overload := if |rest| > q.threshold then |rest| else q.overload))
  }

  /** The threshold, doubled until it covers `length`. */
  function Raised(threshold: nat, length: nat): nat
    decreases length - threshold
  {
    if 0 < threshold < length then Raised(2 * threshold, length) else threshold
  }

  /** The overload is reported once. */
  function Reported(q: Queue): (nat, Queue)
  {
    (q.overload, q.(overload := 0))
  }

  datatype Op = Push(m: Message) | Pop | Report

  datatype Answer = Got(message: Option<Message>) | Load(n: nat)

  function Step(q: Queue, op: Op): (seq<Answer>, Queue)
  {
    match op
    case Push(m) => ([], Pushed(q, m))
    case Pop => ([Got(Popped(q).0)], Popped(q).1)
    case Report => ([Load(Reported(q).0)], Reported(q).1)
  }

  /** The answers and the final state of a run from a new queue. */
  function Run(ops: seq<Op>): (seq<Answer>, Queue)
  {
    if ops == [] then ([], EMPTY)
    else
      var (answers, q) := Run(ops[..|ops| - 1]);
      var (more, q') := Step(q, ops[|ops| - 1]);
      (answers + more, q')
  }

  // ----- first in, first out -----

  /** The messages that were put in, in order; and those that came out. */
  function Sent(ops: seq<Op>): seq<Message>
  {
    if ops == [] then []
    else
      var last := ops[|ops| - 1];
      Sent(ops[..|ops| - 1]) + if last.Push? then [last.m] else []
  }

  function Received(answers: seq<Answer>): seq<Message>
  {
    if answers == [] then []
    else
      var last := answers[|answers| - 1];
      Received(answers[..|answers| - 1]) + if last.Got? && last.message.Some? then [last.message.value] else []
  }

  lemma StepIsFifo(answers: seq<Answer>, q: Queue, op: Op)
    ensures Received(answers + Step(q, op).0) + Step(q, op).1.contents ==
      Received(answers) + q.contents + if op.Push? then [op.m] else []
  {
    if op.Push? {
      assert answers + [] == answers;
    } else {
      assert (answers + Step(q, op).0)[..|answers|] == answers;
    }
  }

  /** First in, first out, and nothing lost: what came out and what is left is what was put in. */
  lemma {:induction false} RunIsFifo(ops: seq<Op>)
    ensures Received(Run(ops).0) + Run(ops).1.contents == Sent(ops)
  {
    if ops != [] {
      var front := ops[..|ops| - 1];
      RunIsFifo(front);
      StepIsFifo(Run(front).0, Run(front).1, ops[|ops| - 1]);
    }
  }

  /** How many messages are waiting after a run. */
  function Waiting(ops: seq<Op>): nat
  {
    if ops == [] then 0
    else
      var n := Waiting(ops[..|ops| - 1]);
      match ops[|ops| - 1]
      case Push(_) => n + 1
      case Pop => if n == 0 then 0 else n - 1
      case Report => n
  }

  lemma {:induction false} RunLength(ops: seq<Op>)
    ensures |Run(ops).1.contents| == Waiting(ops)
  {
    if ops != [] {
      RunLength(ops[..|ops| - 1]);
    }
  }

  /** A pop answers with nothing if and only if nothing is waiting; a report with the overload of the moment. */
  lemma LastAnswer(ops: seq<Op>, op: Op)
    requires !op.Push?
    ensures var answers := Run(ops + [op]).0;
      && |answers| == |Run(ops).0| + 1 && answers[..|Run(ops).0|] == Run(ops).0
      && (op.Pop? ==> answers[|Run(ops).0|].Got? && (answers[|Run(ops).0|].message.None? <==> Waiting(ops) == 0))
      && (op.Report? ==> answers[|Run(ops).0|] == Load(Run(ops).1.overload))
  {
    assert (ops + [op])[..|ops|] == ops;
    RunLength(ops);
  }

  /** The operation at `k` is a pop that finds nothing. */
  predicate EmptyPop(ops: seq<Op>, k: nat)
  {
    k < |ops| && ops[k].Pop? && Waiting(ops[..k]) == 0
  }

  // ----- the flag -----

  ghost predicate PushedSinceEmpty(ops: seq<Op>, k: nat)
  {
    k < |ops| && ops[k].Push? && forall j :: k < j < |ops| ==> !EmptyPop(ops, j)
  }

  lemma EmptyPopFront(ops: seq<Op>, k: nat)
    requires k < |ops| - 1
    ensures EmptyPop(ops, k) <==> EmptyPop(ops[..|ops| - 1], k)
  {
    assert ops[..|ops| - 1][..k] == ops[..k];
  }

  lemma PushedFront(ops: seq<Op>, k: nat)
    requires k < |ops| - 1
    ensures PushedSinceEmpty(ops, k) <==> PushedSinceEmpty(ops[..|ops| - 1], k) && !EmptyPop(ops, |ops| - 1)
  {
    var front, n := ops[..|ops| - 1], |ops| - 1;
    forall j: nat | j < n ensures EmptyPop(ops, j) <==> EmptyPop(front, j) {
      EmptyPopFront(ops, j);
    }
    if PushedSinceEmpty(front, k) && !EmptyPop(ops, n) {
      forall j | k < j < |ops| ensures !EmptyPop(ops, j) {
        assert j < n ==> !EmptyPop(front, j);
      }
    }
    if PushedSinceEmpty(ops, k) {
      assert forall j :: k < j < |front| ==> !EmptyPop(front, j);
    }
  }

  /** A queue is flagged if and only if something was pushed since a pop last found nothing. */
  lemma {:induction false} RunFlag(ops: seq<Op>)
    ensures Run(ops).1.inGlobal <==> exists k :: PushedSinceEmpty(ops, k)
    ensures Run(ops).1.contents != [] ==> Run(ops).1.inGlobal
  {
    if ops != [] {
      var front, n := ops[..|ops| - 1], |ops| - 1;
      RunFlag(front);
      RunLength(front);
      if ops[n].Push? {
        assert PushedSinceEmpty(ops, n);
      } else {
        assert ops[..n] == front;
        forall k: nat ensures PushedSinceEmpty(ops, k) <==> PushedSinceEmpty(front, k) && !EmptyPop(ops, n) {
          if k < n {
            PushedFront(ops, k);
          }
        }
      }
    }
  }

  // ----- the threshold -----

  ghost predicate IsThreshold(t: nat)
  {
    t == 1024 || (t > 1024 && t % 2 == 0 && IsThreshold(t / 2))
  }

  /** The least of 1024 and its doublings that is not below `n`. */
  ghost predicate LeastAbove(t: nat, n: nat)
  {
    IsThreshold(t) && n <= t && forall u :: IsThreshold(u) && n <= u ==> t <= u
  }

  lemma {:induction false} ThresholdGap(u: nat, t: nat)
    requires IsThreshold(u) && IsThreshold(t) && u < t
    ensures 2 * u <= t
  {
    if u != 1024 {
      ThresholdGap(u / 2, t / 2);
    } else {
      ThresholdAtLeast(t / 2);
    }
  }

  lemma ThresholdAtLeast(t: nat)
    requires IsThreshold(t)
    ensures t >= 1024
  {
  }

  lemma {:induction false} RaisedLeast(t: nat, n: nat, length: nat)
    requires LeastAbove(t, n)
    ensures LeastAbove(Raised(t, length), if n <= length then length else n)
    decreases length - t
  {
    ThresholdAtLeast(t);
    if t < length {
      assert (2 * t) / 2 == t;
      forall u | IsThreshold(u) && t + 1 <= u ensures 2 * t <= u {
        ThresholdGap(t, u);
      }
      assert LeastAbove(2 * t, t + 1);
      RaisedLeast(2 * t, t + 1, length);
    }
  }

  /** The greatest length that a pop has left since one last found nothing. */
  function Peak(ops: seq<Op>): nat
  {
    if ops == [] then 0
    else
      var front := ops[..|ops| - 1];
      if !ops[|ops| - 1].Pop? then Peak(front)
      else if Waiting(front) == 0 then 0
      else if Peak(front) <= Waiting(front) - 1 then Waiting(front) - 1
      else Peak(front)
  }

  /** The threshold is always the least doubling of 1024 that covers what pops have left since the queue was empty. */
  lemma {:induction false} RunThreshold(ops: seq<Op>)
    ensures LeastAbove(Run(ops).1.threshold, Peak(ops))
    ensures ops != [] && EmptyPop(ops, |ops| - 1) ==> Run(ops).1.threshold == 1024
    ensures ops != [] && ops[|ops| - 1].Pop? ==> |Run(ops).1.contents| <= Run(ops).1.threshold
  {
    if ops == [] {
      LeastOfNone();
    } else {
      var front, n := ops[..|ops| - 1], |ops| - 1;
      assert ops[..n] == front;
      RunThreshold(front);
      RunLength(front);
      if ops[n].Pop? {
        if Waiting(front) == 0 {
          LeastOfNone();
        } else {
          RaisedLeast(Run(front).1.threshold, Peak(front), Waiting(front) - 1);
        }
      }
    }
  }

  lemma LeastOfNone()
    ensures LeastAbove(1024, 0)
  {
    forall u | IsThreshold(u) ensures 1024 <= u {
      ThresholdAtLeast(u);
    }
  }

  // ----- the overload -----

  /** The operation at `k` is a pop that leaves more than the threshold was before it. */
  predicate Exceeds(ops: seq<Op>, k: nat)
  {
    k < |ops| && ops[k].Pop? && Waiting(ops[..k]) > Run(ops[..k]).1.threshold + 1
  }

  /** Since operation `k` no pop has left too much, and no overload was reported. */
  ghost predicate QuietSince(ops: seq<Op>, k: nat)
  {
    forall j: nat :: k <= j < |ops| ==> !Exceeds(ops, j) && !ops[j].Report?
  }

  lemma ExceedsFront(ops: seq<Op>, k: nat)
    requires k < |ops| - 1
    ensures Exceeds(ops, k) <==> Exceeds(ops[..|ops| - 1], k)
  {
    assert ops[..|ops| - 1][..k] == ops[..k];
  }

  lemma QuietFront(ops: seq<Op>, k: nat)
    requires QuietSince(ops, k) && k < |ops|
    ensures QuietSince(ops[..|ops| - 1], k)
  {
    var front := ops[..|ops| - 1];
    forall j: nat | k <= j < |front| ensures !Exceeds(front, j) && !front[j].Report? {
      ExceedsFront(ops, j);
    }
  }

  lemma QuietStep(ops: seq<Op>)
    requires ops != [] && !Exceeds(ops, |ops| - 1) && !ops[|ops| - 1].Report?
    ensures Run(ops).1.overload == Run(ops[..|ops| - 1]).1.overload
  {
    var front, n := ops[..|ops| - 1], |ops| - 1;
    assert ops[..n] == front;
    RunLength(front);
  }

  /** The overload is what the last pop left that left more than the threshold. */
  lemma {:induction false} OverloadIsLast(ops: seq<Op>, k: nat)
    requires Exceeds(ops, k) && QuietSince(ops, k + 1)
    ensures Run(ops).1.overload == Waiting(ops[..k + 1])
  {
    var front, n := ops[..|ops| - 1], |ops| - 1;
    if k == n {
      assert ops[..n] == front && ops[..k + 1] == ops;
      RunLength(front);
    } else {
      QuietFront(ops, k + 1);
      ExceedsFront(ops, k);
      OverloadIsLast(front, k);
      QuietStep(ops);
      assert front[..k + 1] == ops[..k + 1];
    }
  }

  /** Without such a pop since the start, or since the last report, there is none. */
  lemma {:induction false} NoOverload(ops: seq<Op>, k: nat)
    requires k <= |ops| && (k == 0 || ops[k - 1].Report?) && QuietSince(ops, k)
    ensures Run(ops).1.overload == 0
  {
    if k < |ops| {
      QuietFront(ops, k);
      NoOverload(ops[..|ops| - 1], k);
      QuietStep(ops);
    }
  }

  // ----- the ring buffer -----

  /** The `n` elements from position `head` on, going round at the end. */
  function Window(data: seq<Message>, head: nat, n: nat): (w: seq<Message>)
    requires head < |data| && n <= |data|
    ensures |w| == n
  {
    seq(n, i requires 0 <= i < n => if head + i < |data| then data[head + i] else data[head + i - |data|])
  }

  function Distance(head: nat, tail: nat, cap: nat): nat
    requires head < cap && tail < cap
  {
    if head <= tail then tail - head else tail + cap - head
  }

  class MessageQueue {
    var cap: nat
    var head: nat
    var tail: nat
    var inGlobal: bool
    var overload: nat
    var threshold: nat
    var queue: array<Message>
    var next: MessageQueue?

    ghost predicate Valid()
      reads this, queue
    {
      && cap == queue.Length && cap >= 2
      && head < cap && tail < cap
      && threshold > 0
    }

    ghost function View(): Queue
      requires Valid()
      reads this, queue
    {
      Queue(Window(queue[..], head, Distance(head, tail, cap)), inGlobal, threshold, overload)
    }

    constructor ()
      ensures Valid() && View() == EMPTY && cap == 64 && next == null && fresh(queue)
    {
      cap, head, tail := DEFAULT_QUEUE_SIZE, 0, 0;
      inGlobal, overload, threshold := false, 0, MQ_OVERLOAD;
      queue := new Message[DEFAULT_QUEUE_SIZE];
      next := null;
    }

    method Length() returns (n: nat)
      requires Valid()
      ensures n == |View().contents|
    {
      if head <= tail {
        return tail - head;
      }
      return tail + cap - head;
    }

    /** The loop of `skynet_mq_pop` over the overload threshold. */
    method Raise(length: nat)
      requires threshold > 0
      modifies this`threshold, this`overload
      ensures threshold == Raised(old(threshold), length) && threshold > 0
      ensures overload == if length > old(threshold) then length else old(overload)
    {
      while length > threshold
        invariant threshold >= old(threshold) > 0
        invariant Raised(threshold, length) == Raised(old(threshold), length)
        invariant overload == if threshold == old(threshold) then old(overload) else length
        invariant threshold > old(threshold) ==> length > old(threshold)
        decreases length - threshold
      {
        overload := length;
        threshold := threshold * 2;
      }
    }

    /** `skynet_mq_pop` */
    method Pop() returns (message: Option<Message>)
      requires Valid()
      modifies this`head, this`threshold, this`overload, this`inGlobal
      ensures Valid()
      ensures (message, View()) == Popped(old(View()))
    {
      message := None;
      if head != tail {
        message := Some(queue[head]);
        head := head + 1;
        if head >= cap {
          head := 0;
        }
        var length := tail - head;
        if length < 0 {
          length := length + cap;
        }
        Raise(length);
        assert View().contents == old(View()).contents[1..];
      } else {
        threshold := MQ_OVERLOAD;
      }
      if message.None? {
        inGlobal := false;
      }
    }

    /** `skynet_mq_overload` */
    method Report() returns (n: nat)
      requires Valid()
      modifies this`overload
      ensures Valid() && (n, View()) == Reported(old(View()))
    {
      if overload != 0 {
        n := overload;
        overload := 0;
        return;
      }
      return 0;
    }

    /** `expand_queue`, on a ring whose head has met its tail because it is full. */
    method Expand()
      requires Valid() && head == tail
      modifies this`queue, this`head, this`tail, this`cap
      ensures Valid() && fresh(queue) && cap == 2 * old(cap)
      ensures View() == old(View()).(contents := Window(old(queue[..]), old(head), old(cap)))
    {
      var newQueue := new Message[cap * 2];
      var i := 0;
      while i < cap
        invariant 0 <= i <= cap
        invariant newQueue[..i] == Window(queue[..], head, i)
        modifies newQueue
      {
        Around(head, i, cap);
        newQueue[i] := queue[(head + i) % cap];
        i := i + 1;
      }
      head := 0;
      tail := cap;
      cap := cap * 2;
      queue := newQueue;
      assert View().contents == newQueue[..i];
    }

    /** The part of `skynet_mq_push` that stores the message. */
    method Store(message: Message)
      requires Valid()
      modifies this`queue, this`head, this`tail, this`cap, queue
      ensures Valid() && (queue == old(queue) || fresh(queue))
      ensures View() == old(View()).(contents := old(View()).contents + [message])
    {
      ghost var was, n := old(View()).contents, |old(View()).contents|;
      queue[tail] := message;
      tail := tail + 1;
      if tail >= cap {
        tail := 0;
      }
      if head == tail {
        assert Window(queue[..], head, cap) == was + [message];
        Expand();
      } else {
        assert View().contents == was + [message];
      }
    }

    /** The locked region of `skynet_mq_push`, without the insertion it may call for. */
    method Enqueue(message: Message) returns (schedule: bool)
      requires Valid()
      modifies this`queue, this`head, this`tail, this`cap, this`inGlobal, queue
      ensures Valid() && (queue == old(queue) || fresh(queue))
      ensures View() == Pushed(old(View()), message) && schedule == !old(inGlobal)
    {
      Store(message);
      schedule := !inGlobal;
      inGlobal := true;
    }

    /** `skynet_mq_push` */
    method Push(message: Message, global: GlobalQueue)
      requires Valid() && global.Valid()
      requires !inGlobal ==> this !in global.list && next == null
      modifies this`queue, this`head, this`tail, this`cap, this`inGlobal, queue
      modifies global, (if global.tail == null then {} else {global.tail})`next
      ensures Valid() && (queue == old(queue) || fresh(queue)) && global.Valid()
      ensures View() == Pushed(old(View()), message)
      ensures global.list == if old(inGlobal) then old(global.list) else old(global.list) + [this]
    {
      var schedule := Enqueue(message);
      if schedule {
        global.Push(this);
      }
    }
  }

  lemma Around(head: nat, i: nat, cap: nat)
    requires head < cap && i < cap
    ensures (head + i) % cap == if head + i < cap then head + i else head + i - cap
  {
    if head + i >= cap {
      assert (head + i - cap) % cap == head + i - cap;
      assert (head + i) % cap == (head + i - cap) % cap;
    }
  }

  // ----- the global list -----

  ghost function Successor(list: seq<MessageQueue>, i: nat): MessageQueue?
  {
    if i + 1 < |list| then list[i + 1] else null
  }

  class GlobalQueue {
    var head: MessageQueue?
    var tail: MessageQueue?
    ghost var list: seq<MessageQueue>

    /** The `next` fields spell out `list`: no cycle, no repetition, and the ends are right. */
    ghost predicate Valid()
      reads this, (set q | q in list)`next
    {
      && (forall i, j :: 0 <= i < j < |list| ==> list[i] != list[j])
      && head == (if list == [] then null else list[0])
      && tail == (if list == [] then null else list[|list| - 1])
      && (forall i :: 0 <= i < |list| ==> list[i].next == Successor(list, i))
    }

    constructor ()
      ensures Valid() && list == []
    {
      head, tail, list := null, null, [];
    }

    /** `skynet_globalmq_push`; its caller keeps the queue off the list with a null `next`. */
    method Push(queue: MessageQueue)
      requires Valid() && queue !in list && queue.next == null
      modifies this, (if tail == null then {} else {tail})`next
      ensures Valid() && list == old(list) + [queue] && queue.next == null
    {
      if tail != null {
        assert tail in list;
        tail.next := queue;
        tail := queue;
      } else {
        head, tail := queue, queue;
      }
      list := list + [queue];
    }

    /** `skynet_globalmq_pop`, with its assertion. */
    method Pop() returns (mq: MessageQueue?)
      requires Valid()
      modifies this, (if head == null then {} else {head})`next
      ensures Valid()
      ensures if old(list) == [] then mq == null && list == []
              else mq == old(list)[0] && list == old(list)[1..] && mq !in list && mq.next == null
    {
      mq := head;
      if mq != null {
        assert list[0].next == Successor(list, 0);
        assert forall i :: 0 <= i < |list| - 1 ==> Successor(list[1..], i) == Successor(list, i + 1);
        head := mq.next;
        if head == null {
          assert mq == tail;
          tail := null;
        }
        mq.next := null;
        list := list[1..];
      }
    }
  }

  // ----- whole runs of one ring -----

  /** The ring answers every sequence of pushes, pops and reports as the plain queue does. */
  method RunRing(ops: seq<Op>) returns (answers: seq<Answer>, length: nat)
    ensures answers == Run(ops).0 && length == |Run(ops).1.contents|
  {
    var q := new MessageQueue();
    answers := [];
    var k := 0;
    while k < |ops|
      invariant 0 <= k <= |ops| && fresh(q) && fresh(q.queue) && q.Valid()
      invariant answers == Run(ops[..k]).0 && q.View() == Run(ops[..k]).1
    {
      assert ops[..k + 1][..k] == ops[..k];
      assert Run(ops[..k + 1]).1 == Step(Run(ops[..k]).1, ops[k]).1;
      match ops[k] {
        case Push(m) =>
          var _ := q.Enqueue(m);
        case Pop =>
          var answer := q.Pop();
          answers := answers + [Got(answer)];
        case Report =>
          var n := q.Report();
          answers := answers + [Load(n)];
      }
      k := k + 1;
    }
    assert ops[..k] == ops;
    length := q.Length();
  }
}
