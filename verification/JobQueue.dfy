/**
 The job list of misaka/lib/thpool.c: jobs linked from front to rear through `prev`, with
 a length that its two operations branch on.
 */
module JobQueue {

  class Job {
    var prev: Job?
    const work: int

    constructor (work: int)
      ensures this.work == work
    {
      this.work := work;
      prev := null;
    }
  }

  ghost function Behind(list: seq<Job>, i: nat): Job?
  {
    if i + 1 < |list| then list[i + 1] else null
  }

  /** The work of the jobs of a list, in order. */
  function Works(list: seq<Job>): (works: seq<int>)
    ensures |works| == |list| && forall i :: 0 <= i < |list| ==> works[i] == list[i].work
  {
    seq(|list|, i requires 0 <= i < |list| => list[i].work)
  }

  class JobQueue {
    var front: Job?
    var rear: Job?
    var len: nat
    ghost var list: seq<Job>

    ghost predicate Valid()
      reads this, (set j | j in list)`prev
    {
      && len == |list|
      && (forall i, j :: 0 <= i < j < |list| ==> list[i] != list[j])
      && front == (if list == [] then null else list[0])
      && rear == (if list == [] then null else list[|list| - 1])
      && (forall i :: 0 <= i < |list| ==> list[i].prev == Behind(list, i))
    }

    constructor ()
      ensures Valid() && list == []
    {
      front, rear, len, list := null, null, 0, [];
    }

    /** `jobqueue_push`, up to the post of the semaphore. */
    method Push(job: Job)
      requires Valid() && job !in list
      modifies this, job`prev, (if rear == null then {} else {rear})`prev
      ensures Valid() && list == old(list) + [job]
    {
      job.prev := null;
      if len == 0 {
        front, rear := job, job;
      } else {
        assert rear in list;
        rear.prev := job;
        rear := job;
      }
      len := len + 1;
      list := list + [job];
    }

    /** `jobqueue_pull`; `post` says that it posts the semaphore because jobs are left. */
    method Pull() returns (job: Job?, post: bool)
      requires Valid()
      modifies this
      ensures Valid() && post == (|old(list)| > 1)
      ensures if old(list) == [] then job == null && list == []
              else job == old(list)[0] && list == old(list)[1..]
    {
      job, post := front, false;
      if len == 0 {
      } else if len == 1 {
        front, rear, len := null, null, 0;
        list := [];
      } else {
        assert list[0].prev == Behind(list, 0);
        assert forall i :: 0 <= i < |list| - 1 ==> Behind(list[1..], i) == Behind(list, i + 1);
        front, len, post := job.prev, len - 1, true;
        list := list[1..];
      }
    }
  }
}
