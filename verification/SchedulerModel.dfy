/** The scheduler against a clock that keeps the books independently: who has the processor, how much
    each job has had of it, and how long each has waited. */
module SchedulerModel {
  import opened Basics
  import opened SchedulerQueue

  // ---- the books --------------------------------------------------------------------------------

  /** `cpu` and `waited` cover the unfinished jobs: how long each had the processor and was queued;
      `untilRun` says how long those that have run were queued before that.  The rest are sums over the
      finished jobs: time in the queue, time in the queue or on the processor, time in the queue before
      the first run, and processor time beyond the declared running time.  `exact`: every finished job
      had exactly its running time. */
  datatype Books = Books(
    now: real,
    on: Option<Job>,
    cpu: map<Job, real>,
    waited: map<Job, real>,
    untilRun: map<Job, real>,
    doneWaited: real,
    doneTurnaround: real,
    doneResponse: real,
    doneExcess: real,
    exact: bool)

  /** Time passes: the job on the processor runs, every other job waits. */
  function Tick(b: Books, t: real): Books {
    var dt := t - b.now;
    b.(now := t,
       cpu := map j | j in b.cpu :: if b.on == Some(j) then b.cpu[j] + dt else b.cpu[j],
       waited := map j | j in b.waited :: if b.on == Some(j) then b.waited[j] else b.waited[j] + dt)
  }

  function Arrive(b: Books, j: Job): Books {
    b.(cpu := b.cpu[j := 0.0], waited := b.waited[j := 0.0])
  }

  function Dispatch(b: Books, j: Job): Books {
    b.(on := Some(j),
       untilRun := if j in b.untilRun || j !in b.waited then b.untilRun else b.untilRun[j := b.waited[j]])
  }

  function Finish(b: Books, j: Job, running: real): Books
    requires j in b.cpu && j in b.waited && j in b.untilRun
  {
    b.(on := None, cpu := b.cpu - {j}, waited := b.waited - {j}, untilRun := b.untilRun - {j},
       doneWaited := b.doneWaited + b.waited[j],
       doneTurnaround := b.doneTurnaround + (b.waited[j] + b.cpu[j]),
       doneResponse := b.doneResponse + b.untilRun[j],
       doneExcess := b.doneExcess + (b.cpu[j] - running),
       exact := b.exact && b.cpu[j] == running)
  }

  // ---- what the scheduler's records mean ---------------------------------------------------------

  /** One job's record against the books.  The remaining time of the job on the processor is the one
      it was dispatched with. */
  predicate Entry(i: Info, b: Books, j: Job) {
    && j in b.cpu && j in b.waited && 0.0 <= i.firstArrival <= i.arrival <= b.now
    && b.waited[j] + b.cpu[j] == b.now - i.firstArrival
    && i.remaining == i.running - (if b.on == Some(j) then b.cpu[j] - (b.now - i.start) else b.cpu[j])
    && (if j in b.untilRun then i.firstStart == i.firstArrival + b.untilRun[j] && 0.0 <= b.untilRun[j]
        else i.firstStart == -1.0 && b.cpu[j] == 0.0)
    && (b.on == Some(j) ==> j in b.untilRun)
  }

  ghost predicate Entries(jobs: Jobs, b: Books) {
    forall j: Job :: j in jobs ==> Entry(jobs[j], b, j)
  }

  /** Every unfinished job is queued, once, or on the processor. */
  ghost predicate Places(jobs: Jobs, queue: seq<Job>, b: Books) {
    && b.cpu.Keys == jobs.Keys && b.waited.Keys == jobs.Keys && b.untilRun.Keys <= jobs.Keys
    && Distinct(queue) && Known(jobs, queue)
    && (forall j: Job :: j in queue <==> j in jobs && b.on != Some(j))
    && (b.on.Some? ==> b.on.value in jobs)
  }

  /** What the job on the processor still needs, or a waiting job needs. */
  function Needs(jobs: Jobs, b: Books, j: Job): real
    requires j in jobs && j in b.cpu
  {
    jobs[j].running - b.cpu[j]
  }

  lemma TickKeeps(jobs: Jobs, queue: seq<Job>, b: Books, t: real)
    requires Entries(jobs, b) && Places(jobs, queue, b) && b.now <= t
    ensures Entries(jobs, Tick(b, t)) && Places(jobs, queue, Tick(b, t))
  {
    var c := Tick(b, t);
    forall j: Job | j in jobs
      ensures Entry(jobs[j], c, j)
    {
      assert Entry(jobs[j], b, j);
    }
    hide Entry;
    assert c.cpu.Keys == b.cpu.Keys && c.waited.Keys == b.waited.Keys;
  }

  function NewInfo(t: real, running: real, priority: int): Info {
    Info(t, t, running, -1.0, -1.0, running, priority)
  }

  lemma ArriveEntries(jobs: Jobs, b: Books, j: Job, running: real, priority: int)
    requires Entries(jobs, b) && j !in jobs && j !in b.untilRun && b.on != Some(j) && 0.0 <= b.now
    ensures Entries(jobs[j := NewInfo(b.now, running, priority)], Arrive(b, j))
  {
    var more := jobs[j := NewInfo(b.now, running, priority)];
    forall x: Job | x in more ensures Entry(more[x], Arrive(b, j), x) {
      assert x in jobs ==> Entry(jobs[x], b, x);
    }
  }

  lemma QueueMore(jobs: Jobs, more: Jobs, queue: seq<Job>, q: seq<Job>, b: Books, c: Books, j: Job)
    requires Places(jobs, queue, b) && more.Keys == jobs.Keys + {j}
    requires c.cpu.Keys == more.Keys && c.waited.Keys == more.Keys && c.untilRun == b.untilRun
    requires Distinct(q) && Known(more, q) && (forall x: Job :: x in q <==> x == j || x in queue)
    requires if j in jobs then b.on == Some(j) && c.on.None? else c.on == b.on
    ensures Places(more, q, c)
  {
    hide Distinct, Known;
  }

  lemma NotQueued(jobs: Jobs, queue: seq<Job>, b: Books, j: Job)
    requires Places(jobs, queue, b) && (j !in jobs || b.on == Some(j))
    ensures j !in queue && Distinct(queue) && Known(jobs, queue)
    ensures j !in jobs ==> j !in b.untilRun && b.on != Some(j)
    ensures b.cpu.Keys == jobs.Keys && b.waited.Keys == jobs.Keys
    ensures forall i: nat :: i < |queue| ==> queue[i] in jobs && queue[i] != j
  {
    hide Distinct;
  }

  /** Writing the record of a job that is not queued, and queueing it. */
  lemma Requeue(s: Scheme, jobs: Jobs, queue: seq<Job>, b: Books, c: Books, j: Job, i: Info)
    requires Places(jobs, queue, b) && Sorted(s, jobs, queue) && (j !in jobs || b.on == Some(j))
    requires c.cpu.Keys == jobs.Keys + {j} && c.waited.Keys == jobs.Keys + {j} && c.untilRun == b.untilRun
    requires if j in jobs then c.on.None? else c.on == b.on
    ensures Known(jobs[j := i], queue)
    ensures Places(jobs[j := i], Offer(s, jobs[j := i], queue, j), c)
    ensures Sorted(s, jobs[j := i], Offer(s, jobs[j := i], queue, j))
  {
    hide Offer, Sorted, Compare, Distinct, Places, Known;
    var after := jobs[j := i];
    NotQueued(jobs, queue, b, j);
    SameKeys(s, jobs, after, queue);
    OfferSorts(s, after, queue, j);
    OfferAdds(s, after, queue, j);
    QueueMore(jobs, after, queue, Offer(s, after, queue, j), b, c, j);
  }

  lemma ArriveKeeps(s: Scheme, jobs: Jobs, queue: seq<Job>, b: Books, j: Job, running: real, priority: int)
    requires Entries(jobs, b) && Places(jobs, queue, b) && Sorted(s, jobs, queue) && j !in jobs && 0.0 <= b.now
    ensures var more := jobs[j := NewInfo(b.now, running, priority)];
      && Known(more, queue)
      && Entries(more, Arrive(b, j)) && Places(more, Offer(s, more, queue, j), Arrive(b, j))
      && Sorted(s, more, Offer(s, more, queue, j))
  {
    hide Offer, Sorted, Compare, Distinct, Places, Known, Entries, Entry;
    NotQueued(jobs, queue, b, j);
    ArriveEntries(jobs, b, j, running, priority);
    Requeue(s, jobs, queue, b, Arrive(b, j), j, NewInfo(b.now, running, priority));
  }

  /** The record of a job that is put on the processor. */
  function Started(i: Info, t: real): Info {
    i.(start := t, firstStart := if i.firstStart == -1.0 then t else i.firstStart)
  }

  lemma DispatchEntries(jobs: Jobs, b: Books, j: Job)
    requires Entries(jobs, b) && j in jobs && b.on.None? && 0.0 <= b.now
    ensures Entries(jobs[j := Started(jobs[j], b.now)], Dispatch(b, j))
  {
    var after := jobs[j := Started(jobs[j], b.now)];
    forall x: Job | x in after ensures Entry(after[x], Dispatch(b, j), x) {
      assert Entry(jobs[x], b, x);
    }
  }

  lemma DispatchPlaces(jobs: Jobs, after: Jobs, queue: seq<Job>, b: Books)
    requires Places(jobs, queue, b) && b.on.None? && queue != [] && after.Keys == jobs.Keys
    ensures Places(after, queue[1..], Dispatch(b, queue[0]))
  {
    var rest := queue[1..];
    assert forall i: nat :: i < |rest| ==> rest[i] == queue[i + 1];
    assert forall x: Job :: x in queue <==> x == queue[0] || x in rest;
    assert queue[0] in jobs;
  }

  lemma DispatchKeeps(s: Scheme, jobs: Jobs, queue: seq<Job>, b: Books)
    requires Entries(jobs, b) && Places(jobs, queue, b) && Sorted(s, jobs, queue)
    requires b.on.None? && queue != [] && 0.0 <= b.now
    ensures queue[0] in jobs
    ensures var j := queue[0]; var after := jobs[j := Started(jobs[j], b.now)];
      && Entries(after, Dispatch(b, j)) && Places(after, queue[1..], Dispatch(b, j)) && Sorted(s, after, queue[1..])
      && j !in queue[1..]
      && (forall x: Job :: x in queue[1..] ==> x in jobs && Compare(s, jobs[j], jobs[x]) <= 0)
  {
    hide Sorted, Compare, Entries, Entry;
    var j := queue[0];
    assert Known(jobs, queue) && Distinct(queue);
    hide Places;
    PollKeeps(s, jobs, queue);
    var after := jobs[j := Started(jobs[j], b.now)];
    DispatchEntries(jobs, b, j);
    DispatchPlaces(jobs, after, queue, b);
    SameKeys(s, jobs, after, queue[1..]);
    forall x: Job | x in queue[1..] ensures x in jobs && Compare(s, jobs[j], jobs[x]) <= 0 {
      assert Before(s, jobs, j, x);
    }
  }

  /** The record of a job that is taken off the processor: what it ran is charged to it. */
  function Charged(i: Info, t: real): Info {
    i.(remaining := i.remaining - (t - i.start), arrival := t)
  }

  lemma EvictEntries(jobs: Jobs, b: Books, j: Job)
    requires Entries(jobs, b) && j in jobs && b.on == Some(j)
    ensures Entries(jobs[j := Charged(jobs[j], b.now)], b.(on := None))
  {
    var after := jobs[j := Charged(jobs[j], b.now)];
    forall x: Job | x in after ensures Entry(after[x], b.(on := None), x) {
      assert Entry(jobs[x], b, x);
    }
  }

  lemma EvictKeeps(s: Scheme, jobs: Jobs, queue: seq<Job>, b: Books, j: Job)
    requires Entries(jobs, b) && Places(jobs, queue, b) && Sorted(s, jobs, queue) && b.on == Some(j) && j in jobs
    ensures var after := jobs[j := Charged(jobs[j], b.now)];
      && Known(after, queue)
      && Entries(after, b.(on := None)) && Places(after, Offer(s, after, queue, j), b.(on := None))
      && Sorted(s, after, Offer(s, after, queue, j))
  {
    hide Offer, Sorted, Compare, Distinct, Places, Known, Entries, Entry;
    NotQueued(jobs, queue, b, j);
    EvictEntries(jobs, b, j);
    assert jobs.Keys + {j} == jobs.Keys;
    Requeue(s, jobs, queue, b, b.(on := None), j, Charged(jobs[j], b.now));
  }

  lemma FinishEntries(jobs: Jobs, b: Books, j: Job)
    requires Entries(jobs, b) && j in jobs && b.on == Some(j)
    ensures j in b.cpu && j in b.waited && j in b.untilRun
    ensures Entries(jobs - {j}, Finish(b, j, jobs[j].running))
  {
    assert Entry(jobs[j], b, j);
    var done := Finish(b, j, jobs[j].running);
    forall x: Job | x in jobs - {j} ensures Entry((jobs - {j})[x], done, x) {
      assert Entry(jobs[x], b, x);
    }
  }

  lemma FinishKeeps(s: Scheme, jobs: Jobs, queue: seq<Job>, b: Books, j: Job)
    requires Entries(jobs, b) && Places(jobs, queue, b) && Sorted(s, jobs, queue) && b.on == Some(j) && j in jobs
    ensures j in b.cpu && j in b.waited && j in b.untilRun
    ensures var after := jobs - {j}; var done := Finish(b, j, jobs[j].running);
      Entries(after, done) && Places(after, queue, done) && Sorted(s, after, queue)
  {
    hide Sorted, Entries, Entry;
    FinishEntries(jobs, b, j);
    SameKeys(s, jobs, jobs - {j}, queue);
  }

  /** A job that arrives now is last under the two orders by arrival. */
  lemma ArrivesLast(s: Scheme, jobs: Jobs, queue: seq<Job>, b: Books, j: Job, i: Info)
    requires Places(jobs, queue, b) && Entries(jobs, b) && (j !in jobs || b.on == Some(j))
    requires i.arrival == b.now && (s == FCFS ==> i.firstArrival == b.now)
    ensures Known(jobs[j := i], queue)
    ensures s == FCFS || s == RR ==> Offer(s, jobs[j := i], queue, j) == queue + [j]
  {
    NotQueued(jobs, queue, b, j);
    hide Places, Distinct, Offer;
    var after := jobs[j := i];
    forall k: nat | k < |queue|
      ensures queue[k] in after
      ensures s == FCFS || s == RR ==> Compare(s, after[queue[k]], after[j]) <= 0
    {
      assert Entry(jobs[queue[k]], b, queue[k]);
    }
    if s == FCFS || s == RR {
      OfferLast(s, after, queue, j);
    }
  }

  /** `a` still needs less than `b`, or no more and came no later. */
  predicate NeedsLess(jobs: Jobs, b: Books, a: Job, x: Job)
    requires a in jobs && a in b.cpu && x in jobs && x in b.cpu
  {
    || Needs(jobs, b, a) < Needs(jobs, b, x)
    || (Needs(jobs, b, a) == Needs(jobs, b, x) && jobs[a].firstArrival <= jobs[x].firstArrival)
  }

  /** By the fields of the records nobody queued should run before `j`; under PSRTF nobody needs less. */
  ghost predicate Rightful(s: Scheme, jobs: Jobs, b: Books, queue: seq<Job>, j: Job) {
    && j in jobs && j in b.cpu
    && forall x: Job :: x in queue ==>
      x in jobs && x in b.cpu && GoesFirst(s, jobs[j], jobs[x]) && (s == PSRTF ==> NeedsLess(jobs, b, j, x))
  }

  /** The job just dispatched goes first; under PSRTF it is one that needs least. */
  lemma LeastNeed(s: Scheme, jobs: Jobs, queue: seq<Job>, b: Books, j: Job)
    requires Places(jobs, queue, b) && Entries(jobs, b) && b.on == Some(j) && j in jobs && jobs[j].start == b.now
    requires forall x: Job :: x in queue ==> x in jobs && Compare(s, jobs[j], jobs[x]) <= 0
    ensures Rightful(s, jobs, b, queue, j)
  {
    assert Entry(jobs[j], b, j);
    hide Distinct, Known;
    forall x: Job | x in queue
      ensures x in b.cpu && GoesFirst(s, jobs[j], jobs[x]) && (s == PSRTF ==> NeedsLess(jobs, b, j, x))
    {
      assert Entry(jobs[x], b, x);
      ComparersMean(s, jobs[j], jobs[x]);
    }
  }

  /** `j` was charged and queued, and the first of the queue was started in its place. */
  ghost predicate ReplacedBy(s: Scheme, jobs: Jobs, queue: seq<Job>, j: Job, t: real, after: Jobs, left: seq<Job>,
          next: Job)
    requires j in jobs
  {
    var charged := jobs[j := Charged(jobs[j], t)];
    && Known(charged, queue) && Offer(s, charged, queue, j) == [next] + left
    && next in charged && after == charged[next := Started(charged[next], t)]
  }

  lemma ReplacedSame(s: Scheme, jobs: Jobs, queue: seq<Job>, j: Job, t: real, after: Jobs, left: seq<Job>, next: Job)
    requires j in jobs && j !in queue && Distinct(queue)
    requires ReplacedBy(s, jobs, queue, j, t, after, left, next)
    ensures forall x: Job :: x == next || x in left <==> x == j || x in queue
  {
    OfferAdds(s, jobs[j := Charged(jobs[j], t)], queue, j);
    hide Offer, Distinct, Known;
    assert forall x: Job :: x in [next] + left <==> x == next || x in left;
  }

  lemma OnKnown(jobs: Jobs, queue: seq<Job>, b: Books, j: Job)
    requires Places(jobs, queue, b) && Entries(jobs, b) && b.on == Some(j)
    ensures j in jobs && Entry(jobs[j], b, j)
    ensures b.now - jobs[j].firstArrival - jobs[j].running == b.waited[j] + b.cpu[j] - jobs[j].running
    ensures j in b.untilRun && jobs[j].firstStart - jobs[j].firstArrival == b.untilRun[j]
  {
  }

  lemma OfferedSome(jobs: Jobs, queue: seq<Job>, b: Books, j: Job)
    requires Places(jobs, queue, b) && b.on.None? && j in jobs
    ensures queue != []
  {
    assert j in queue;
  }

  /** Starting a job does not change its place in any order. */
  lemma StartedSameKey(s: Scheme, jobs: Jobs, j: Job, t: real, queue: seq<Job>)
    requires j in jobs && j !in queue
    requires forall x: Job :: x in queue ==> x in jobs && Compare(s, jobs[j], jobs[x]) <= 0
    ensures var after := jobs[j := Started(jobs[j], t)];
      forall x: Job :: x in queue ==> x in after && Compare(s, after[j], after[x]) <= 0
  {
  }

  class Scheduler {
    const scheme: Scheme
    var queue: seq<Job>
    var jobs: Jobs
    var totalWaiting: real
    var totalTurnaround: real
    var totalResponse: real
    var numberOfJobs: nat
    ghost var books: Books

    ghost predicate Valid()
      reads this
    {
      && Entries(jobs, books) && Places(jobs, queue, books) && Sorted(scheme, jobs, queue) && 0.0 <= books.now
      && totalWaiting == books.doneWaited + books.doneExcess
      && (books.exact ==> totalWaiting == books.doneWaited)
      && totalTurnaround == books.doneTurnaround
      && totalResponse == books.doneResponse
    }

    constructor (s: Scheme)
      ensures Valid() && scheme == s && queue == [] && jobs == map[] && numberOfJobs == 0
      ensures totalWaiting == totalTurnaround == totalResponse == 0.0
      ensures books == Books(0.0, None, map[], map[], map[], 0.0, 0.0, 0.0, 0.0, true)
    {
      scheme, queue, jobs, numberOfJobs := s, [], map[], 0;
      totalWaiting, totalTurnaround, totalResponse := 0.0, 0.0, 0.0;
      books := Books(0.0, None, map[], map[], map[], 0.0, 0.0, 0.0, 0.0, true);
    }

    /** A job arrives and is queued behind everything that is not greater. */
    method NewJob(j: Job, time: real, running: real, priority: int)
      requires Valid() && j !in jobs && books.now <= time
      modifies this
      ensures Valid() && books == Arrive(Tick(old(books), time), j)
      ensures jobs == old(jobs)[j := NewInfo(time, running, priority)]
      ensures Known(jobs, old(queue)) && queue == Offer(scheme, jobs, old(queue), j)
      ensures scheme == FCFS || scheme == RR ==> queue == old(queue) + [j]
      ensures numberOfJobs == old(numberOfJobs) + 1
      ensures totalWaiting == old(totalWaiting)
    {
      hide Entries, Places, Sorted, Offer, Entry;
      TickKeeps(jobs, queue, books, time);
      books := Tick(books, time);
      ArrivesLast(scheme, jobs, queue, books, j, NewInfo(time, running, priority));
      ArriveKeeps(scheme, jobs, queue, books, j, running, priority);
      books := Arrive(books, j);
      jobs := jobs[j := NewInfo(time, running, priority)];
      numberOfJobs := numberOfJobs + 1;
      queue := Offer(scheme, jobs, queue, j);
    }

    predicate Stays(evicted: Option<Job>, queue: seq<Job>) {
      queue == [] || (evicted.Some? && (scheme == FCFS || scheme == PRI || scheme == SJF))
    }

    /** The first job of the queue gets the processor. */
    method DispatchFirst(time: real) returns (next: Option<Job>)
      requires Valid() && books.on.None? && queue != [] && books.now == time
      modifies this`queue, this`jobs, this`books
      ensures Valid() && next == Some(old(queue)[0]) && queue == old(queue)[1..]
      ensures old(queue)[0] in old(jobs)
      ensures jobs == old(jobs)[old(queue)[0] := Started(old(jobs)[old(queue)[0]], time)]
      ensures books == Dispatch(old(books), old(queue)[0]) && jobs.Keys == old(jobs).Keys
      ensures Rightful(scheme, jobs, books, queue, next.value) && jobs[next.value].start == time
    {
      hide Entries, Places, Sorted, Entry, Compare, Rightful;
      DispatchKeeps(scheme, jobs, queue, books);
      var j := queue[0];
      queue := queue[1..];
      StartedSameKey(scheme, jobs, j, time, queue);
      books := Dispatch(books, j);
      jobs := jobs[j := Started(jobs[j], time)];
      next := Some(j);
      LeastNeed(scheme, jobs, queue, books, j);
    }

    /** The running job joins the queue, and the first of it gets the processor. */
    method Preempt(j: Job, time: real) returns (next: Option<Job>)
      requires Valid() && books.on == Some(j) && books.now == time && queue != []
      requires scheme == RR || scheme == PSRTF || scheme == PPRI
      modifies this`queue, this`jobs, this`books
      ensures Valid() && next.Some? && next.value in jobs && jobs.Keys == old(jobs).Keys && j in old(jobs)
      ensures books == Dispatch(old(books), next.value)
      ensures Rightful(scheme, jobs, books, queue, next.value) && jobs[next.value].start == time
      ensures ReplacedBy(scheme, old(jobs), old(queue), j, time, jobs, queue, next.value)
      ensures forall x: Job :: x == next.value || x in queue <==> x == j || x in old(queue)
      ensures scheme == RR ==> next == Some(old(queue)[0]) && queue == old(queue)[1..] + [j]
    {
      hide Entries, Places, Sorted, Offer, Entry, Compare, Rightful;
      NotQueued(jobs, queue, books, j);
      EvictKeeps(scheme, jobs, queue, books, j);
      ArrivesLast(scheme, jobs, queue, books, j, Charged(jobs[j], time));
      jobs := jobs[j := Charged(jobs[j], time)];
      queue := Offer(scheme, jobs, queue, j);
      books := books.(on := None);
      OfferedSome(jobs, queue, books, j);
      next := DispatchFirst(time);
      ReplacedSame(scheme, old(jobs), old(queue), j, time, jobs, queue, next.value);
    }

    /** Who runs next.  With nothing queued, or under a scheme that does not preempt, the running job
        goes on; otherwise a first job of the queue runs, the evicted one having joined it. */
    method QuantumExpired(evicted: Option<Job>, time: real) returns (next: Option<Job>)
      requires Valid() && evicted == books.on && books.now <= time
      modifies this
      ensures Valid() && numberOfJobs == old(numberOfJobs)
      ensures totalWaiting == old(totalWaiting)
      ensures books == if next.Some? && !Stays(evicted, old(queue)) then Dispatch(Tick(old(books), time), next.value)
                       else Tick(old(books), time)
      ensures Stays(evicted, old(queue)) ==> next == evicted && queue == old(queue) && jobs == old(jobs)
      ensures !Stays(evicted, old(queue)) ==> next.Some? && next.value in jobs && jobs.Keys == old(jobs).Keys
      ensures !Stays(evicted, old(queue)) ==>
        && jobs[next.value].start == time
        && Rightful(scheme, jobs, books, queue, next.value)
      ensures (scheme == PRI || scheme == PPRI) && !Stays(evicted, old(queue)) ==>
        forall x: Job :: x in queue ==>
          && jobs[next.value].priority <= jobs[x].priority
          && (jobs[next.value].priority == jobs[x].priority ==>
                jobs[next.value].firstArrival <= jobs[x].firstArrival)
      ensures (scheme == FCFS || scheme == PRI || scheme == SJF) && evicted.Some? ==>
        next == evicted && queue == old(queue) && jobs == old(jobs)
      ensures (scheme == RR || scheme == PSRTF || scheme == PPRI) && evicted.Some? && old(queue) != [] ==>
        && next.Some? && next.value in jobs && jobs[next.value].start == time
        && (forall x: Job :: x == next.value || x in queue <==> x == evicted.value || x in old(queue))
      ensures evicted.Some? && !Stays(evicted, old(queue)) ==>
        evicted.value in old(jobs)
        && ReplacedBy(scheme, old(jobs), old(queue), evicted.value, time, jobs, queue, next.value)
      ensures scheme == RR && evicted.Some? && !Stays(evicted, old(queue)) ==>
        next == Some(old(queue)[0]) && queue == old(queue)[1..] + [evicted.value]
      ensures scheme == PSRTF && !Stays(evicted, old(queue)) ==>
        forall x: Job :: x in queue ==> NeedsLess(jobs, books, next.value, x)
      ensures !Stays(evicted, old(queue)) && evicted.None? ==>
        next == Some(old(queue)[0]) && queue == old(queue)[1..]
        && jobs == old(jobs)[old(queue)[0] := Started(old(jobs)[old(queue)[0]], time)]
    {
      hide Entries, Places, Sorted, Offer, Entry, Compare, NeedsLess, ReplacedBy;
      TickKeeps(jobs, queue, books, time);
      books := Tick(books, time);
      if |queue| == 0 {
        return evicted;
      }
      if evicted.None? {
        next := DispatchFirst(time);
        return;
      }
      if scheme == FCFS || scheme == PRI || scheme == SJF {
        return evicted;
      }
      next := Preempt(evicted.value, time);
    }

    /** The running job is done: its time in the queue goes to the totals, if it ran exactly as long
        as it said. */
    method JobFinished(j: Job, time: real)
      requires Valid() && books.on == Some(j) && books.now <= time
      modifies this
      ensures Valid() && j in old(jobs) && jobs == old(jobs) - {j} && queue == old(queue)
      ensures var b := Tick(old(books), time);
        && j in b.cpu && j in b.waited && j in b.untilRun
        && books == Finish(b, j, old(jobs)[j].running)
        && totalWaiting == old(totalWaiting) + b.waited[j] + (b.cpu[j] - old(jobs)[j].running)
        && totalTurnaround == old(totalTurnaround) + b.waited[j] + b.cpu[j]
        && totalResponse == old(totalResponse) + b.untilRun[j]
      ensures numberOfJobs == old(numberOfJobs)
    {
      hide Entries, Places, Sorted, Entry;
      TickKeeps(jobs, queue, books, time);
      books := Tick(books, time);
      OnKnown(jobs, queue, books, j);
      FinishKeeps(scheme, jobs, queue, books, j);
      var i := jobs[j];
      totalWaiting := totalWaiting + (time - i.firstArrival - i.running);
      totalTurnaround := totalTurnaround + (time - i.firstArrival);
      totalResponse := totalResponse + (i.firstStart - i.firstArrival);
      books := Finish(books, j, i.running);
      jobs := jobs - {j};
    }
  }
}
