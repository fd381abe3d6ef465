/** The six orders of the scheduler and the stable sorted queue they drive. */
module SchedulerQueue {
  import opened Basics

  datatype Scheme = FCFS | PRI | PPRI | PSRTF | RR | SJF

  type Job = nat

  /** What the scheduler remembers of a job. */
  datatype Info = Info(
    arrival: real,
    firstArrival: real,
    remaining: real,
    start: real,
    firstStart: real,
    running: real,
    priority: int)

  type Jobs = map<Job, Info>

  function Sign(a: real, b: real): int {
    if a < b then -1 else if a > b then 1 else 0
  }

  function CompareFcfs(a: Info, b: Info): int {
    Sign(a.firstArrival, b.firstArrival)
  }

  function BreakTie(a: Info, b: Info): int {
    CompareFcfs(a, b)
  }

  function ComparePri(a: Info, b: Info): int {
    if a.priority < b.priority then -1 else if a.priority > b.priority then 1 else BreakTie(a, b)
  }

  function ComparePsrtf(a: Info, b: Info): int {
    if a.remaining < b.remaining then -1 else if a.remaining > b.remaining then 1 else BreakTie(a, b)
  }

  function CompareRr(a: Info, b: Info): int {
    Sign(a.arrival, b.arrival)
  }

  function CompareSjf(a: Info, b: Info): int {
    if a.running < b.running then -1 else if a.running > b.running then 1 else BreakTie(a, b)
  }

  function Compare(s: Scheme, a: Info, b: Info): int {
    match s
    case FCFS => CompareFcfs(a, b)
    case PRI => ComparePri(a, b)
    case PPRI => ComparePri(a, b)
    case PSRTF => ComparePsrtf(a, b)
    case RR => CompareRr(a, b)
    case SJF => CompareSjf(a, b)
  }

  /** What a scheme means by one job not having to wait for another: smaller numbers go first, whether
      priorities, times needed or times of arrival, and between equals whoever came first. */
  predicate GoesFirst(s: Scheme, a: Info, b: Info) {
    match s
    case FCFS => a.firstArrival <= b.firstArrival
    case PRI => a.priority < b.priority || (a.priority == b.priority && a.firstArrival <= b.firstArrival)
    case PPRI => a.priority < b.priority || (a.priority == b.priority && a.firstArrival <= b.firstArrival)
    case PSRTF => a.remaining < b.remaining || (a.remaining == b.remaining && a.firstArrival <= b.firstArrival)
    case RR => a.arrival <= b.arrival
    case SJF => a.running < b.running || (a.running == b.running && a.firstArrival <= b.firstArrival)
  }

  /** The comparers say just that. */
  lemma ComparersMean(s: Scheme, a: Info, b: Info)
    ensures Compare(s, a, b) <= 0 <==> GoesFirst(s, a, b)
    ensures Compare(s, a, b) == 0 <==> GoesFirst(s, a, b) && GoesFirst(s, b, a)
  {
  }

  /** Every comparer is a total preorder, given as a sign. */
  lemma ComparersOrder(s: Scheme, a: Info, b: Info, c: Info)
    ensures Compare(s, a, b) == -Compare(s, b, a)
    ensures Compare(s, a, b) <= 0 && Compare(s, b, c) <= 0 ==> Compare(s, a, c) <= 0
    ensures Compare(s, a, b) < 0 && Compare(s, b, c) <= 0 ==> Compare(s, a, c) < 0
  {
  }

  /** `a` may stand anywhere before `b`. */
  predicate Before(s: Scheme, jobs: Jobs, a: Job, b: Job) {
    a in jobs && b in jobs && Compare(s, jobs[a], jobs[b]) <= 0
  }

  ghost predicate Sorted(s: Scheme, jobs: Jobs, queue: seq<Job>) {
    forall i: nat, j: nat :: i < j < |queue| ==> Before(s, jobs, queue[i], queue[j])
  }

  predicate Known(jobs: Jobs, queue: seq<Job>) {
    forall i: nat :: i < |queue| ==> queue[i] in jobs
  }

  /** Where a stable sorted queue puts `j`: after everything that is not greater. */
  function Place(s: Scheme, jobs: Jobs, queue: seq<Job>, j: Job): (k: nat)
    requires j in jobs && Known(jobs, queue)
    ensures k <= |queue|
    ensures forall i: nat :: i < k ==> Compare(s, jobs[queue[i]], jobs[j]) <= 0
    ensures k < |queue| ==> Compare(s, jobs[queue[k]], jobs[j]) > 0
  {
    if queue == [] || Compare(s, jobs[queue[0]], jobs[j]) > 0 then 0
    else
      assert forall i: nat :: 0 < i < |queue| ==> queue[i] == queue[1..][i - 1];
      1 + Place(s, jobs, queue[1..], j)
  }

  function Offer(s: Scheme, jobs: Jobs, queue: seq<Job>, j: Job): seq<Job>
    requires j in jobs && Known(jobs, queue)
  {
    var k := Place(s, jobs, queue, j);
    queue[..k] + [j] + queue[k..]
  }

  lemma OfferSorts(s: Scheme, jobs: Jobs, queue: seq<Job>, j: Job)
    requires j in jobs && Known(jobs, queue) && Sorted(s, jobs, queue)
    ensures Sorted(s, jobs, Offer(s, jobs, queue, j))
  {
    var k := Place(s, jobs, queue, j);
    var q := Offer(s, jobs, queue, j);
    hide Compare;
    forall a: nat, b: nat | a < b < |q|
      ensures Before(s, jobs, q[a], q[b])
    {
      assert q[a] == if a < k then queue[a] else if a == k then j else queue[a - 1];
      assert q[b] == if b < k then queue[b] else if b == k then j else queue[b - 1];
      if a == k {
        assert k == b - 1 || Before(s, jobs, queue[k], queue[b - 1]);
        ComparersOrder(s, jobs[j], jobs[queue[k]], jobs[queue[b - 1]]);
      } else if b == k {
        ComparersOrder(s, jobs[queue[a]], jobs[j], jobs[j]);
      } else {
        assert Before(s, jobs, if a < k then queue[a] else queue[a - 1], if b < k then queue[b] else queue[b - 1]);
      }
    }
  }

  lemma OfferAdds(s: Scheme, jobs: Jobs, queue: seq<Job>, j: Job)
    requires j in jobs && Known(jobs, queue) && j !in queue && Distinct(queue)
    ensures var q := Offer(s, jobs, queue, j);
      |q| == |queue| + 1 && Known(jobs, q) && Distinct(q) && (forall x: Job :: x in q <==> x == j || x in queue)
  {
    var k := Place(s, jobs, queue, j);
    var q := Offer(s, jobs, queue, j);
    hide Compare, Place;
    assert forall i: nat :: i < |queue| ==> queue[i] == q[if i < k then i else i + 1];
    assert forall i: nat :: i < |q| ==> q[i] == if i < k then queue[i] else if i == k then j else queue[i - 1];
  }

  /** A job that is not before anything queued goes to the end. */
  lemma OfferLast(s: Scheme, jobs: Jobs, queue: seq<Job>, j: Job)
    requires j in jobs && Known(jobs, queue)
    requires forall i: nat :: i < |queue| ==> Compare(s, jobs[queue[i]], jobs[j]) <= 0
    ensures Offer(s, jobs, queue, j) == queue + [j]
  {
    hide Compare;
    var k := Place(s, jobs, queue, j);
    assert k == |queue|;
  }

  /** Keys of queued jobs did not change, so the order did not. */
  lemma SameKeys(s: Scheme, jobs: Jobs, after: Jobs, queue: seq<Job>)
    requires Sorted(s, jobs, queue) && Known(jobs, queue)
    requires forall i: nat :: i < |queue| ==> queue[i] in after && after[queue[i]] == jobs[queue[i]]
    ensures Sorted(s, after, queue) && Known(after, queue)
  {
    hide Compare;
    forall a: nat, b: nat | a < b < |queue|
      ensures Before(s, after, queue[a], queue[b])
    {
      assert Before(s, jobs, queue[a], queue[b]);
    }
  }

  lemma PollKeeps(s: Scheme, jobs: Jobs, queue: seq<Job>)
    requires queue != [] && Sorted(s, jobs, queue) && Distinct(queue) && Known(jobs, queue)
    ensures Sorted(s, jobs, queue[1..]) && Distinct(queue[1..]) && Known(jobs, queue[1..])
    ensures forall x: Job :: x in queue[1..] <==> x in queue && x != queue[0]
    ensures forall x: Job :: x in queue[1..] ==> Before(s, jobs, queue[0], x)
  {
    hide Compare;
    var rest := queue[1..];
    assert forall i: nat :: i < |rest| ==> rest[i] == queue[i + 1];
    forall a: nat, b: nat | a < b < |rest|
      ensures Before(s, jobs, rest[a], rest[b])
    {
      assert Before(s, jobs, queue[a + 1], queue[b + 1]);
    }
    forall x: Job | x in rest ensures Before(s, jobs, queue[0], x) {
      var i: nat :| i < |rest| && rest[i] == x;
      assert Before(s, jobs, queue[0], queue[i + 1]);
    }
  }
}
