/** Shortest job first waits least: among all orders in which the same jobs can be run one after the
    other, the one the SJF scheduler picks has the least total waiting time. */
module ShortestJobFirst {
  import opened Basics
  import opened SchedulerQueue
  import opened SchedulerModel

  datatype Load = Load(arrival: real, running: real)

  /** Time from arrival to finish less running time, summed over jobs run back to back from `t`. */
  function Waiting(order: seq<Load>, t: real): real {
    if order == [] then 0.0
    else (t + order[0].running - order[0].arrival - order[0].running) + Waiting(order[1..], t + order[0].running)
  }

  ghost predicate ShortestFirst(order: seq<Load>) {
    forall i: nat, j: nat :: i < j < |order| ==> order[i].running <= order[j].running
  }

  function Drop(order: seq<Load>, k: nat): seq<Load>
    requires k < |order|
  {
    order[..k] + order[k + 1..]
  }

  /** Moving a shortest job to the front does not make the jobs wait longer. */
  lemma {:induction false} FrontIsNoWorse(order: seq<Load>, k: nat, t: real)
    requires k < |order| && forall i: nat :: i < k ==> order[k].running <= order[i].running
    ensures Waiting([order[k]] + Drop(order, k), t) <= Waiting(order, t)
  {
    var s := order[k];
    if k == 0 {
      assert [s] + Drop(order, 0) == order;
    } else {
      var x, rest := order[0], order[1..];
      FrontIsNoWorse(rest, k - 1, t + x.running);
      var others := Drop(rest, k - 1);
      assert Drop(order, k) == [x] + others;
      assert ([s] + ([x] + others))[1..] == [x] + others;
      assert ([x] + others)[1..] == others && ([s] + others)[1..] == others;
      assert t + x.running + s.running == t + s.running + x.running;
    }
  }

  lemma DropOne(order: seq<Load>, k: nat)
    requires k < |order|
    ensures multiset(Drop(order, k)) == multiset(order) - multiset{order[k]}
  {
    assert order == order[..k] + [order[k]] + order[k + 1..];
  }

  /** Some job of `other` is the first of `best`, and none of `other` is shorter. */
  lemma FindFirst(best: seq<Load>, other: seq<Load>) returns (k: nat)
    requires ShortestFirst(best) && multiset(best) == multiset(other) && best != []
    ensures k < |other| && other[k] == best[0]
    ensures forall i: nat :: i < |other| ==> best[0].running <= other[i].running
  {
    assert best[0] in multiset(other);
    k :| k < |other| && other[k] == best[0];
    forall i: nat | i < |other| ensures best[0].running <= other[i].running {
      assert other[i] in multiset(best);
    }
  }

  lemma DropFirst(order: seq<Load>)
    requires order != []
    ensures Drop(order, 0) == order[1..]
  {
  }

  /** Running jobs shortest first waits least over all orders of the same jobs. */
  lemma {:induction false} ShortestFirstIsBest(best: seq<Load>, other: seq<Load>, t: real)
    requires ShortestFirst(best) && multiset(best) == multiset(other)
    ensures Waiting(best, t) <= Waiting(other, t)
    decreases |best|
  {
    hide Drop;
    if best == [] {
      assert |multiset(other)| == 0;
    } else {
      var s := best[0];
      var k := FindFirst(best, other);
      FrontIsNoWorse(other, k, t);
      DropOne(other, k);
      DropOne(best, 0);
      DropFirst(best);
      assert ([s] + Drop(other, k))[1..] == Drop(other, k);
      ShortestFirstIsBest(best[1..], Drop(other, k), t + s.running);
    }
  }

  /** The loads behind a queue of jobs. */
  function Loads(jobs: Jobs, queue: seq<Job>): (r: seq<Load>)
    requires Known(jobs, queue)
    ensures |r| == |queue|
  {
    seq(|queue|, i requires 0 <= i < |queue| => Load(jobs[queue[i]].firstArrival, jobs[queue[i]].running))
  }

  lemma QueueShortestFirst(jobs: Jobs, queue: seq<Job>)
    requires Known(jobs, queue) && Sorted(SJF, jobs, queue)
    ensures ShortestFirst(Loads(jobs, queue))
  {
    forall i: nat, j: nat | i < j < |queue|
      ensures jobs[queue[i]].running <= jobs[queue[j]].running
    {
      assert Before(SJF, jobs, queue[i], queue[j]);
    }
  }

  lemma FinishNow(b: Books, t: real, j: Job, running: real)
    requires var c := Tick(b, t); j in c.cpu && j in c.waited && j in c.untilRun
    ensures var done := Finish(Tick(b, t), j, running); done.on.None? && done.now == t
  {
  }

  /** The first job waits until `t`, the others as if they started after it. */
  lemma NextWaits(jobs: Jobs, queue: seq<Job>, t: real)
    requires Known(jobs, queue) && queue != [] && Distinct(queue)
    ensures var j := queue[0]; var left := jobs[j := Started(jobs[j], t)] - {j};
      && Known(left, queue[1..])
      && Waiting(Loads(jobs, queue), t)
         == (t - jobs[j].firstArrival) + Waiting(Loads(left, queue[1..]), t + jobs[j].running)
  {
    var j := queue[0];
    var left := jobs[j := Started(jobs[j], t)] - {j};
    assert forall i: nat :: i < |queue[1..]| ==> queue[1..][i] == queue[i + 1];
    assert Loads(left, queue[1..]) == Loads(jobs, queue)[1..];
  }

  /** A job that has been on the processor since `b.now` and finishes at `t` has had `t - b.now` more. */
  lemma Ran(jobs: Jobs, queue: seq<Job>, b: Books, j: Job, t: real)
    requires Places(jobs, queue, b) && Entries(jobs, b) && b.on == Some(j) && j in jobs
    ensures var c := Tick(b, t);
      j in c.cpu && j in c.waited && c.waited[j] + c.cpu[j] == t - jobs[j].firstArrival
  {
    assert Entry(jobs[j], b, j);
  }

  lemma PlacesKnown(jobs: Jobs, queue: seq<Job>, b: Books)
    requires Places(jobs, queue, b)
    ensures Known(jobs, queue) && Distinct(queue)
  {
  }

  /** The first job of the queue runs for exactly its running time. */
  method RunNext(s: Scheduler, t: real) returns (after: real)
    requires s.Valid() && s.scheme == SJF && s.books.on.None? && s.books.now <= t && s.queue != []
    requires forall j: Job :: j in s.jobs ==> 0.0 <= s.jobs[j].running
    modifies s
    ensures s.Valid() && s.books.on.None? && s.books.now <= after
    ensures forall j: Job :: j in s.jobs ==> 0.0 <= s.jobs[j].running
    ensures Known(old(s.jobs), old(s.queue)) && Known(s.jobs, s.queue) && s.queue == old(s.queue)[1..]
    ensures s.totalWaiting + Waiting(Loads(s.jobs, s.queue), after)
         == old(s.totalWaiting) + Waiting(Loads(old(s.jobs), old(s.queue)), t)
  {
    hide Entries, Entry, Compare, Sorted, Places, Distinct, Loads, Waiting, Finish;
    ghost var jobs, queue := s.jobs, s.queue;
    PlacesKnown(jobs, queue, s.books);
    var next := s.QuantumExpired(None, t);
    ghost var j := next.value;
    var running := s.jobs[next.value].running;
    ghost var b := s.books;
    Ran(s.jobs, s.queue, s.books, j, t + running);
    NextWaits(jobs, queue, t);
    s.JobFinished(next.value, t + running);
    PlacesKnown(s.jobs, s.queue, s.books);
    after := t + running;
    FinishNow(b, after, j, running);
  }

  lemma PlacesNone(jobs: Jobs, queue: seq<Job>, b: Books)
    requires Places(jobs, queue, b) && queue == [] && b.on.None?
    ensures jobs == map[]
  {
    assert forall j: Job :: j !in jobs;
  }

  /** With all jobs offered and the processor free at `t`, running SJF until nothing is queued adds the
      waiting time of the queue's order, which no other order of those jobs beats. */
  method RunToCompletion(s: Scheduler, t: real)
    requires s.Valid() && s.scheme == SJF && s.books.on.None? && s.books.now <= t
    requires forall j: Job :: j in s.jobs ==> 0.0 <= s.jobs[j].running
    modifies s
    ensures s.Valid() && s.queue == [] && s.jobs == map[]
    ensures Known(old(s.jobs), old(s.queue))
    ensures s.totalWaiting == old(s.totalWaiting) + Waiting(Loads(old(s.jobs), old(s.queue)), t)
    ensures forall order: seq<Load> :: multiset(order) == multiset(Loads(old(s.jobs), old(s.queue))) ==>
      s.totalWaiting <= old(s.totalWaiting) + Waiting(order, t)
  {
    hide Entries, Entry, Compare, ShortestFirst;
    ghost var jobs0, queue0 := s.jobs, s.queue;
    QueueShortestFirst(jobs0, queue0);
    forall order: seq<Load> | multiset(order) == multiset(Loads(jobs0, queue0))
      ensures Waiting(Loads(jobs0, queue0), t) <= Waiting(order, t)
    {
      ShortestFirstIsBest(Loads(jobs0, queue0), order, t);
    }
    hide Sorted, Places;
    var clock := t;
    PlacesKnown(s.jobs, s.queue, s.books);
    while s.queue != []
      invariant s.Valid() && s.books.on.None? && s.books.now <= clock && Known(s.jobs, s.queue)
      invariant forall j: Job :: j in s.jobs ==> 0.0 <= s.jobs[j].running
      invariant s.totalWaiting + Waiting(Loads(s.jobs, s.queue), clock)
             == old(s.totalWaiting) + Waiting(Loads(jobs0, queue0), t)
      decreases |s.queue|
    {
      clock := RunNext(s, clock);
    }
    PlacesNone(s.jobs, s.queue, s.books);
  }
}
