/** The workers as a state machine.  Each step is one worker's move between two points where the
    source releases the lock or the queue; any worker that is not blocked may move next. */
module MakeSteps {
  import opened Basics
  import opened Digraph
  import opened CycleCheck
  import opened TopoSort
  import opened MakePool

  /** Where a worker is in its loop; `target` is the rule it pulled. */
  datatype Worker =
    | Idle                                   // about to pull
    | Checking(target: Vertex, at: nat)      // reading the states of the dependencies
    | Deciding(target: Vertex, flag: int)    // about to read the rule's own state
    | Running(target: Vertex, at: nat)       // about to run command `at`, or done with all
    | Reporting(target: Vertex, result: int) // about to take the lock and publish
    | Reposting                              // pulled the sentinel, about to push it back
    | Exited

  predicate Holds(w: Worker) {
    w.Checking? || w.Deciding? || w.Running? || w.Reporting?
  }

  /** `started` and `pushed` record the commands run and the rules queued, oldest first; `seen`
      records the files that were openable when the build looked. */
  datatype State = State(rules: Rules, queue: seq<Vertex>, workers: seq<Worker>,
                         started: seq<(Vertex, nat)>, pushed: seq<Vertex>, seen: set<Vertex>)

  ghost predicate Typed(job: Job, s: State) {
    && s.rules.Keys == (set v | v in job.sorted)
    && (forall v :: v in s.queue ==> v == ROOT || v in job.sorted)
    && (forall k :: 0 <= k < |s.workers| && Holds(s.workers[k]) ==> s.workers[k].target in job.sorted)
  }

  function Start(job: Job, files: set<Vertex>, threads: nat): (s: State)
    requires Planned(job)
  {
    var (rules, q) := Seeded(job, files);
    State(rules, q, seq(threads, _ => Idle), [], if job.sorted == [] then [] else q, files)
  }

  /** A worker is blocked only on an empty queue, and an exited one never moves. */
  predicate Enabled(s: State, k: nat) {
    k < |s.workers| && !s.workers[k].Exited? && (s.workers[k].Idle? ==> s.queue != [])
  }

  function Next(job: Job, s: State, k: nat, files: set<Vertex>): (t: State)
    requires Planned(job) && Typed(job, s) && Enabled(s, k)
  {
    match s.workers[k]
    case Idle =>
      var v := s.queue[0];
      s.(queue := s.queue[1..], workers := s.workers[k := if v == ROOT then Reposting else Checking(v, 0)])
    case Reposting =>
      s.(queue := s.queue + [ROOT], workers := s.workers[k := Exited])
    case Checking(v, i) =>
      DependenciesListed(job, v);
      s.(workers := s.workers[k :=
        if i >= |job.deps[v]| then Deciding(v, 0)
        else if s.rules[job.deps[v][i]] == FAILED then Deciding(v, -1)
        else Checking(v, i + 1)])
    case Deciding(v, flag) =>
      s.(workers := s.workers[k :=
        if s.rules[v] == BUILT then Idle
        else if flag == 0 then Running(v, 0)
        else Reporting(v, FAILED)])
    case Running(v, i) =>
      if i >= |job.commands[v]| then
        s.(workers := s.workers[k := Reporting(v, BUILT)])
      else
        s.(workers := s.workers[k := if job.commands[v][i] then Running(v, i + 1) else Reporting(v, FAILED)],
           started := s.started + [(v, i)])
    case Reporting(v, result) =>
      var (rules, pushed) := Pass(job, files, s.rules[v := result]);
      State(rules, s.queue + pushed + (if NoGoalPending(job, rules) then [ROOT] else []),
            s.workers[k := Idle], s.started, s.pushed + pushed, s.seen + files)
  }

  /** One move of some worker; `files` is what its pass, if it makes one, finds openable. */
  ghost predicate Step(job: Job, s: State, t: State, files: set<Vertex>) {
    exists k: nat :: Planned(job) && Typed(job, s) && Enabled(s, k) && t == Next(job, s, k, files)
  }

  /** Any schedule, and any files appearing and disappearing while it runs. */
  ghost predicate Run(job: Job, threads: nat, ss: seq<State>, files: seq<set<Vertex>>) {
    && Planned(job) && |ss| == |files| > 0
    && ss[0] == Start(job, files[0], threads)
    && forall i :: 0 <= i < |ss| - 1 ==> Step(job, ss[i], ss[i + 1], files[i + 1])
  }

  /** A run during which no target opens as a file. */
  ghost predicate QuietRun(job: Job, threads: nat, ss: seq<State>) {
    Run(job, threads, ss, seq(|ss|, _ => {}))
  }

  /** One rule's turn, seen from outside: it is left alone, overridden by a file, queued or failed. */
  lemma PassShape(job: Job, files: set<Vertex>, rules: Rules, n: nat)
    requires Planned(job) && Covers(job, rules) && n <= |job.sorted|
    ensures n == 0 ==> PassUpTo(job, files, rules, n) == (rules, [])
    ensures n > 0 ==>
      var (before, pushed) := PassUpTo(job, files, rules, n - 1);
      var (after, all) := PassUpTo(job, files, rules, n);
      var v := job.sorted[n - 1];
      || (all == pushed && after == before)
      || (all == pushed && after == before[v := BUILT] && v in files)
      || (all == pushed && after == before[v := FAILED] && before[v] == PENDING)
      || (all == pushed + [v] && after == before[v := QUEUED] && before[v] == PENDING)
  {
    hide TopologicalOrder, Scan;
  }

  lemma {:induction false} PassPushesListed(job: Job, files: set<Vertex>, rules: Rules, n: nat)
    requires Planned(job) && Covers(job, rules) && n <= |job.sorted|
    ensures forall v :: v in PassUpTo(job, files, rules, n).1 ==> v in job.sorted[..n] && rules[v] == PENDING
    ensures forall v :: v in PassUpTo(job, files, rules, n).1 ==> PassUpTo(job, files, rules, n).0[v] != PENDING
    ensures forall v :: v in rules && rules[v] != PENDING ==> PassUpTo(job, files, rules, n).0[v] != PENDING
    ensures forall v :: v in rules && v !in job.sorted[..n] ==> PassUpTo(job, files, rules, n).0[v] == rules[v]
    ensures Distinct(PassUpTo(job, files, rules, n).1)
  {
    hide TopologicalOrder, PassUpTo, Scan;
    PassShape(job, files, rules, n);
    if n > 0 {
      PassPushesListed(job, files, rules, n - 1);
      NotBefore(job, n - 1);
      assert job.sorted[..n] == job.sorted[..n - 1] + [job.sorted[n - 1]];
    }
  }

  /** One rule's turn while seeding. */
  lemma SeedShape(job: Job, rules: Rules, n: nat)
    requires Planned(job) && Covers(job, rules) && n <= |job.sorted|
    ensures n == 0 ==> SeedUpTo(job, rules, n) == (rules, [])
    ensures n > 0 ==>
      var (before, pushed) := SeedUpTo(job, rules, n - 1);
      var v := job.sorted[n - 1];
      || SeedUpTo(job, rules, n) == (before, pushed)
      || SeedUpTo(job, rules, n) == (before[v := QUEUED], pushed + [v])
  {
    hide TopologicalOrder;
  }

  lemma {:induction false} SeedPushesListed(job: Job, rules: Rules, n: nat)
    requires Planned(job) && Covers(job, rules) && n <= |job.sorted|
    ensures forall v :: v in SeedUpTo(job, rules, n).1 ==> v in job.sorted[..n]
    ensures forall v :: v in SeedUpTo(job, rules, n).1 ==> SeedUpTo(job, rules, n).0[v] == QUEUED
    ensures forall v :: v in rules ==>
      SeedUpTo(job, rules, n).0[v] == if v in SeedUpTo(job, rules, n).1 then QUEUED else rules[v]
    ensures Distinct(SeedUpTo(job, rules, n).1)
  {
    hide TopologicalOrder, SeedUpTo;
    SeedShape(job, rules, n);
    if n > 0 {
      SeedPushesListed(job, rules, n - 1);
      NotBefore(job, n - 1);
      assert job.sorted[..n] == job.sorted[..n - 1] + [job.sorted[n - 1]];
    }
  }

  lemma StartTyped(job: Job, files: set<Vertex>, threads: nat)
    requires Planned(job)
    ensures Typed(job, Start(job, files, threads))
  {
    SeedPushesListed(job, FileRules(job, files), |job.sorted|);
  }

  lemma NextTyped(job: Job, s: State, k: nat, files: set<Vertex>)
    requires Planned(job) && Typed(job, s) && Enabled(s, k)
    ensures Typed(job, Next(job, s, k, files))
  {
    if s.workers[k].Reporting? {
      PassPushesListed(job, files, s.rules[s.workers[k].target := s.workers[k].result], |job.sorted|);
    }
  }

  // ---- at most once, whatever files appear ------------------------------------------------------

  /** No rule is queued twice, because a queued rule is never pending again. */
  ghost predicate QueuedOnce(job: Job, s: State) {
    && Typed(job, s)
    && Distinct(s.pushed)
    && (forall v :: v in s.pushed ==> v in job.sorted && s.rules[v] != PENDING)
    && (forall k :: 0 <= k < |s.workers| && s.workers[k].Reporting? ==> s.workers[k].result != PENDING)
  }

  lemma DistinctAppend(a: seq<Vertex>, b: seq<Vertex>)
    requires Distinct(a) && Distinct(b) && forall v :: v in a ==> v !in b
    ensures Distinct(a + b)
  {
    forall i, j | 0 <= i < j < |a + b|
      ensures (a + b)[i] != (a + b)[j]
    {
      if i < |a| <= j {
        assert a[i] in a && b[j - |a|] in b;
      }
    }
  }

  lemma QueuedOnceStep(job: Job, s: State, k: nat, files: set<Vertex>)
    requires Planned(job) && QueuedOnce(job, s) && Enabled(s, k)
    ensures QueuedOnce(job, Next(job, s, k, files))
  {
    NextTyped(job, s, k, files);
    if s.workers[k].Reporting? {
      var rules := s.rules[s.workers[k].target := s.workers[k].result];
      PassPushesListed(job, files, rules, |job.sorted|);
      DistinctAppend(s.pushed, Pass(job, files, rules).1);
    }
  }

  lemma RunLastStep(job: Job, threads: nat, ss: seq<State>, files: seq<set<Vertex>>) returns (k: nat)
    requires Run(job, threads, ss, files) && |ss| > 1
    ensures Run(job, threads, ss[..|ss| - 1], files[..|ss| - 1])
    ensures Typed(job, ss[|ss| - 2]) && Enabled(ss[|ss| - 2], k)
    ensures ss[|ss| - 1] == Next(job, ss[|ss| - 2], k, files[|ss| - 1])
    ensures ss[..|ss| - 1][|ss| - 2] == ss[|ss| - 2]
  {
    var n := |ss| - 1;
    assert Step(job, ss[n - 1], ss[n - 1 + 1], files[n - 1 + 1]);
    k :| Typed(job, ss[n - 1]) && Enabled(ss[n - 1], k) && ss[n] == Next(job, ss[n - 1], k, files[n]);
  }

  lemma RunPrefix(job: Job, threads: nat, ss: seq<State>, files: seq<set<Vertex>>, n: nat)
    requires Run(job, threads, ss, files) && 0 < n <= |ss|
    ensures Run(job, threads, ss[..n], files[..n])
  {
    hide Planned, Step, Start;
    forall i | 0 <= i < |ss[..n]| - 1
      ensures Step(job, ss[..n][i], ss[..n][i + 1], files[..n][i + 1])
    {
      assert Step(job, ss[i], ss[i + 1], files[i + 1]);
    }
  }

  /** Each target is queued at most once, for every thread count, interleaving, command outcome and
      appearance of files. */
  lemma {:induction false} EachTargetQueuedOnce(job: Job, threads: nat, ss: seq<State>, files: seq<set<Vertex>>)
    requires Run(job, threads, ss, files)
    ensures QueuedOnce(job, ss[|ss| - 1])
    decreases |ss|
  {
    if |ss| == 1 {
      StartTyped(job, files[0], threads);
      SeedPushesListed(job, FileRules(job, files[0]), |job.sorted|);
    } else {
      var n := |ss| - 1;
      var k := RunLastStep(job, threads, ss, files);
      EachTargetQueuedOnce(job, threads, ss[..n], files[..n]);
      assert ss[..n][n - 1] == ss[n - 1];
      QueuedOnceStep(job, ss[n - 1], k, files[n]);
    }
  }

  // ---- first queued, first taken ----------------------------------------------------------------

  lemma Associates<T>(a: seq<T>, b: seq<T>, c: seq<T>)
    ensures a + (b + c) == a + b + c && [] + a == a
  {
  }

  lemma Removes(q: seq<Vertex>, v: Vertex)
    ensures Without(q, v) == if q == [] then [] else (if q[0] == v then [] else [q[0]]) + Without(q[1..], v)
  {
  }

  lemma {:induction false} WithoutConcat(a: seq<Vertex>, b: seq<Vertex>, v: Vertex)
    ensures Without(a + b, v) == Without(a, v) + Without(b, v)
  {
    hide Without;
    Removes(a, v);
    if a == [] {
      assert a + b == b;
      Associates(Without(b, v), [], []);
    } else {
      WithoutConcat(a[1..], b, v);
      assert (a + b)[0] == a[0] && (a + b)[1..] == a[1..] + b;
      Removes(a + b, v);
      Associates(if a[0] == v then [] else [a[0]], Without(a[1..], v), Without(b, v));
    }
  }

  lemma {:induction false} WithoutNothing(q: seq<Vertex>, v: Vertex)
    requires v !in q
    ensures Without(q, v) == q
  {
    if q != [] {
      WithoutNothing(q[1..], v);
    }
  }

  /** The rules in the queue are the last that were queued, in the order of queueing. */
  ghost predicate LastOf(pushed: seq<Vertex>, q: seq<Vertex>) {
    exists taken: nat :: taken <= |pushed| && pushed[taken..] == Without(q, ROOT)
  }

  lemma TakenInOrder(pushed: seq<Vertex>, q: seq<Vertex>)
    requires LastOf(pushed, q) && q != []
    ensures LastOf(pushed, q[1..])
  {
    var taken: nat :| taken <= |pushed| && pushed[taken..] == Without(q, ROOT);
    assert pushed[if q[0] == ROOT then taken else taken + 1..] == Without(q[1..], ROOT);
  }

  lemma SentinelLast(q: seq<Vertex>)
    ensures Without(q + [ROOT], ROOT) == Without(q, ROOT)
  {
    WithoutConcat(q, [ROOT], ROOT);
  }

  lemma QueuedInOrder(pushed: seq<Vertex>, q: seq<Vertex>, more: seq<Vertex>, last: seq<Vertex>)
    requires LastOf(pushed, q) && ROOT !in more && (last == [] || last == [ROOT])
    ensures LastOf(pushed + more, q + more + last)
  {
    hide Without;
    var taken: nat :| taken <= |pushed| && pushed[taken..] == Without(q, ROOT);
    WithoutNothing(more, ROOT);
    WithoutConcat(q, more, ROOT);
    SentinelLast(q + more);
    assert q + more + [] == q + more;
    assert (pushed + more)[taken..] == pushed[taken..] + more;
  }

  lemma LastOfStep(job: Job, s: State, k: nat, files: set<Vertex>)
    requires Planned(job) && Typed(job, s) && Enabled(s, k) && LastOf(s.pushed, s.queue)
    ensures var t := Next(job, s, k, files); LastOf(t.pushed, t.queue)
  {
    hide LastOf, TopologicalOrder, PassUpTo, NoGoalPending;
    match s.workers[k]
    case Idle =>
      TakenInOrder(s.pushed, s.queue);
    case Reposting =>
      QueuedInOrder(s.pushed, s.queue, [], [ROOT]);
      assert s.pushed + [] == s.pushed && s.queue + [] + [ROOT] == s.queue + [ROOT];
    case Reporting(v, result) =>
      var (rules, pushed) := Pass(job, files, s.rules[v := result]);
      PassPushesListed(job, files, s.rules[v := result], |job.sorted|);
      QueuedInOrder(s.pushed, s.queue, pushed, if NoGoalPending(job, rules) then [ROOT] else []);
    case _ =>
  }

  /** On every schedule the workers take the rules in the order in which they were queued. */
  lemma {:induction false} RulesTakenInOrder(job: Job, threads: nat, ss: seq<State>, files: seq<set<Vertex>>)
    requires Run(job, threads, ss, files)
    ensures LastOf(ss[|ss| - 1].pushed, ss[|ss| - 1].queue)
    decreases |ss|
  {
    hide TopologicalOrder, Next, SeedUpTo, Typed;
    if |ss| == 1 {
      var s := ss[0];
      SeedPushesListed(job, FileRules(job, files[0]), |job.sorted|);
      if job.sorted != [] {
        WithoutNothing(s.queue, ROOT);
      }
      assert s.pushed[0..] == Without(s.queue, ROOT);
    } else {
      var n := |ss| - 1;
      var k := RunLastStep(job, threads, ss, files);
      RulesTakenInOrder(job, threads, ss[..n], files[..n]);
      LastOfStep(job, ss[n - 1], k, files[n]);
    }
  }
}
