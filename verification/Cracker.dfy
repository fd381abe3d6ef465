/** The round-based password search: the work list, and the threads as a state machine.  Each step is
    one thread's move between two points where the source takes the lock, the queue or the barrier. */
module Cracker {
  import opened Basics

  /** A thread's share of the candidates, by position. */
  datatype Range = Range(start: nat, count: nat)

  /** A line of the input: how many candidates there are, how they are shared out, and which of them
      hash to the target. */
  datatype User = User(space: nat, parts: seq<Range>, hits: set<nat>)

  datatype Task = Task(users: seq<User>, threads: nat)

  /** Ranges stay within the space, one for each thread. */
  predicate Legal(c: Task) {
    && c.threads > 0
    && (forall u: nat :: u < |c.users| ==> |c.users[u].parts| == c.threads)
    && (forall u: nat, k: nat :: u < |c.users| && k < c.threads ==>
          c.users[u].parts[k].start + c.users[u].parts[k].count <= c.users[u].space)
  }

  datatype Work = Work(user: nat, part: nat)

  function Entry(c: Task, i: nat): Option<Work>
    requires c.threads > 0
  {
    if i < |c.users| * c.threads then Some(Work(i / c.threads, i % c.threads)) else None
  }

  /** Every thread's share of every user, in input order, then one end mark for each thread. */
  function Items(c: Task): (items: seq<Option<Work>>)
    requires c.threads > 0
    ensures |items| == |c.users| * c.threads + c.threads
  {
    seq(|c.users| * c.threads + c.threads, i requires 0 <= i => Entry(c, i))
  }

  lemma Multiples(a: nat, b: nat, n: nat)
    ensures a <= b ==> a * n <= b * n
  {
  }

  lemma DivMod(u: nat, k: nat, n: nat)
    requires k < n
    ensures (u * n + k) / n == u && (u * n + k) % n == k
  {
    var i := u * n + k;
    var q, m := i / n, i % n;
    assert i == q * n + m;
    Multiples(q + 1, u, n);
    Multiples(u + 1, q, n);
  }

  lemma RoundEntry(c: Task, u: nat, k: nat)
    requires c.threads > 0 && k < c.threads
    ensures Entry(c, u * c.threads + k) == if u < |c.users| then Some(Work(u, k)) else None
  {
    DivMod(u, k, c.threads);
    if u < |c.users| {
      Multiples(u + 1, |c.users|, c.threads);
    } else {
      Multiples(|c.users|, u, c.threads);
    }
  }

  /** The work list as it is built before any thread starts. */
  method FillQueue(c: Task) returns (queue: seq<Option<Work>>)
    requires c.threads > 0
    ensures queue == Items(c)
  {
    var n := c.threads;
    queue := [];
    var u := 0;
    while u < |c.users|
      invariant 0 <= u <= |c.users| && |queue| == u * n
      invariant forall i: nat :: i < |queue| ==> queue[i] == Entry(c, i)
    {
      var i := 0;
      while i < n
        invariant 0 <= i <= n && |queue| == u * n + i
        invariant forall i: nat :: i < |queue| ==> queue[i] == Entry(c, i)
      {
        RoundEntry(c, u, i);
        queue := queue + [Some(Work(u, i))];
        i := i + 1;
      }
      u := u + 1;
    }
    var i := 0;
    while i < n
      invariant 0 <= i <= n && |queue| == |c.users| * n + i
      invariant forall i: nat :: i < |queue| ==> queue[i] == Entry(c, i)
    {
      queue := queue + [None];
      i := i + 1;
    }
  }

  // ---- the threads ------------------------------------------------------------------------------

  /** Where a thread is in its loop, and what it holds. */
  datatype Thread =
    | Pulling                                              // about to pull
    | Announcing(work: Work)                               // about to take the lock and read complete
    | Looking(work: Work, pos: nat, left: nat, hashes: nat) // about to look whether anyone has found it
    | Trying(work: Work, pos: nat, left: nat, hashes: nat)  // about to hash it, `left` more after it
    | Adding(work: Work, hashes: nat)                      // about to add its count
    | FirstBarrier(work: Work)
    | Summing(work: Work)                                  // about to take the lock for the summary
    | SecondBarrier(work: Work)
    | Exited

  datatype Event =
    | StartUser(user: nat)
    | Hashed(work: Work, pos: nat)
    | Summary(user: nat, answer: nat, hashes: nat, found: bool)

  datatype State = State(
    threads: seq<Thread>,
    queue: seq<Option<Work>>,
    found: bool,
    complete: bool,
    hashCount: nat,
    answer: nat,
    log: seq<Event>)

  function Start(c: Task): State
    requires c.threads > 0
  {
    State(seq(c.threads, _ => Pulling), Items(c), false, true, 0, 0, [])
  }

  predicate AtBarrier(t: Thread) {
    t.FirstBarrier? || t.SecondBarrier?
  }

  predicate InTask(c: Task, w: Work) {
    w.user < |c.users| && w.part < |c.users[w.user].parts|
  }

  function Share(c: Task, w: Work): Range
    requires InTask(c, w)
  {
    c.users[w.user].parts[w.part]
  }

  predicate Holds(t: Thread) {
    !t.Pulling? && !t.Exited?
  }

  /** A thread moves unless it has exited, waits at a barrier, or has nothing to pull. */
  predicate Enabled(c: Task, s: State, k: nat) {
    && k < |s.threads| && !s.threads[k].Exited? && !AtBarrier(s.threads[k])
    && (s.threads[k].Pulling? ==> s.queue != [])
    && (Holds(s.threads[k]) ==> InTask(c, s.threads[k].work))
  }

  function Next(c: Task, s: State, k: nat): State
    requires Enabled(c, s, k)
  {
    match s.threads[k]
    case Pulling =>
      s.(queue := s.queue[1..],
         threads := s.threads[k := if s.queue[0].Some? then Announcing(s.queue[0].value) else Exited])
    case Announcing(w) =>
      s.(threads := s.threads[k := Looking(w, Share(c, w).start, Share(c, w).count, 0)],
         complete := false,
         log := s.log + if s.complete then [StartUser(w.user)] else [])
    case Looking(w, pos, left, hashes) =>
      var t := if left == 0 || s.found then Adding(w, hashes) else Trying(w, pos, left - 1, hashes);
      s.(threads := s.threads[k := t])
    case Trying(w, pos, left, hashes) =>
      var tried := s.(log := s.log + [Hashed(w, pos)]);
      if pos in c.users[w.user].hits then
        tried.(threads := s.threads[k := Adding(w, hashes + 1)], found := true, answer := pos)
      else if pos + 1 == c.users[w.user].space then
        tried.(threads := s.threads[k := Adding(w, hashes + 1)])
      else
        tried.(threads := s.threads[k := Looking(w, pos + 1, left, hashes + 1)])
    case Adding(w, hashes) =>
      s.(threads := s.threads[k := FirstBarrier(w)], hashCount := s.hashCount + hashes)
    case Summing(w) =>
      var passed := s.(threads := s.threads[k := SecondBarrier(w)]);
      if s.complete then passed
      else passed.(log := s.log + [Summary(w.user, s.answer, s.hashCount, s.found)],
                   complete := true, hashCount := 0, found := false)
  }

  /** The barrier lets everyone go once every thread waits at it. */
  predicate CanTrip(s: State) {
    forall k: nat :: k < |s.threads| ==> AtBarrier(s.threads[k])
  }

  function Freed(t: Thread): Thread {
    match t
    case FirstBarrier(w) => Summing(w)
    case SecondBarrier(_) => Pulling
    case _ => t
  }

  function Trip(s: State): State {
    s.(threads := seq(|s.threads|, k requires 0 <= k < |s.threads| => Freed(s.threads[k])))
  }

  ghost predicate Step(c: Task, s: State, t: State) {
    || (exists k: nat :: Enabled(c, s, k) && t == Next(c, s, k))
    || (CanTrip(s) && t == Trip(s))
  }

  /** Any schedule of the threads. */
  ghost predicate Run(c: Task, ss: seq<State>) {
    && Legal(c) && |ss| > 0 && ss[0] == Start(c)
    && forall i: nat :: i + 1 < |ss| ==> Step(c, ss[i], ss[i + 1])
  }
}
