/** How a build ends: the sentinel protocol lets every worker exit, no schedule gets stuck or runs
    forever, and the goals end as a sequential build would leave them. */
module MakeOutcome {
  import opened Basics
  import opened Digraph
  import opened CycleCheck
  import opened TopoSort
  import opened MakePool
  import opened MakeSteps
  import opened MakeSafety

  // ---- the sentinel -----------------------------------------------------------------------------

  ghost predicate SomeReposting(s: State) {
    exists k :: 0 <= k < |s.workers| && s.workers[k].Reposting?
  }

  ghost predicate SomeExited(s: State) {
    exists k :: 0 <= k < |s.workers| && s.workers[k].Exited?
  }

  ghost predicate SentinelOut(s: State) {
    ROOT in s.queue || SomeReposting(s) || SomeExited(s)
  }

  ghost predicate SomeQueued(job: Job, rules: Rules)
    requires Covers(job, rules)
  {
    exists v :: v in job.sorted && rules[v] == QUEUED
  }

  /** No goal sits behind a sentinel. */
  ghost predicate GoalsAhead(job: Job, q: seq<Vertex>) {
    forall i, j :: 0 <= i < j < |q| && q[i] == ROOT ==> q[j] !in job.goals
  }

  /** The sentinel is out only when no goal is pending; goals queued before it are ahead of it; once
      a worker has taken it, no goal is left in the queue and it is on its way back. */
  ghost predicate SentinelRules(job: Job, s: State)
    requires Planned(job) && Typed(job, s)
  {
    && GoalsAhead(job, s.queue)
    && (SomeReposting(s) || SomeExited(s) ==> forall g :: g in job.goals ==> g !in s.queue)
    && (SentinelOut(s) ==> NoGoalPending(job, s.rules))
    && (SomeExited(s) ==> ROOT in s.queue || SomeReposting(s))
    && (!SentinelOut(s) ==> !NoGoalPending(job, s.rules) || SomeQueued(job, s.rules))
  }

  lemma {:induction false} FirstIsSeeded(job: Job, files: set<Vertex>, n: nat)
    requires Planned(job) && 0 < n <= |job.sorted|
    ensures job.sorted[0] in SeedUpTo(job, FileRules(job, files), n).1
  {
    if n == 1 {
      assert forall d :: d in job.deps[job.sorted[0]] ==> d in job.sorted[..0];
    } else {
      FirstIsSeeded(job, files, n - 1);
    }
  }

  lemma StartSentinel(job: Job, files: set<Vertex>, threads: nat)
    requires Planned(job)
    ensures Typed(job, Start(job, files, threads)) && SentinelRules(job, Start(job, files, threads))
  {
    hide TopologicalOrder, SeedUpTo;
    var s := Start(job, files, threads);
    StartTyped(job, files, threads);
    SeedPushesListed(job, FileRules(job, files), |job.sorted|);
    if job.sorted != [] {
      FirstIsSeeded(job, files, |job.sorted|);
      assert s.rules[job.sorted[0]] == QUEUED;
      assert SomeQueued(job, s.rules);
      assert ROOT !in s.queue;
    }
  }

  /** Apart from worker `k`, the same workers are reposting or exited. */
  lemma KindsPersist(s: State, t: State, k: nat)
    requires k < |s.workers| == |t.workers| && t.workers == s.workers[k := t.workers[k]]
    ensures !s.workers[k].Reposting? && SomeReposting(s) ==> SomeReposting(t)
    ensures !s.workers[k].Exited? && SomeExited(s) ==> SomeExited(t)
  {
    forall i | 0 <= i < |s.workers| && i != k
      ensures t.workers[i] == s.workers[i]
    {
    }
    if SomeReposting(s) && !s.workers[k].Reposting? {
      var i :| 0 <= i < |s.workers| && s.workers[i].Reposting?;
      assert t.workers[i].Reposting?;
    }
    if SomeExited(s) && !s.workers[k].Exited? {
      var i :| 0 <= i < |s.workers| && s.workers[i].Exited?;
      assert t.workers[i].Exited?;
    }
  }

  lemma PullSentinel(job: Job, s: State, k: nat, files: set<Vertex>)
    requires Planned(job) && Typed(job, s) && SentinelRules(job, s)
    requires Enabled(s, k) && s.workers[k].Idle?
    ensures Typed(job, Next(job, s, k, files)) && SentinelRules(job, Next(job, s, k, files))
  {
    hide TopologicalOrder, SomeQueued, NoGoalPending;
    var t := Next(job, s, k, files);
    NextTyped(job, s, k, files);
    assert s.queue == [s.queue[0]] + t.queue;
    assert s.queue[0] == ROOT ==> t.workers[k].Reposting?;
    KindsPersist(s, t, k);
    KindsPersist(t, s, k);
  }

  lemma RepostSentinel(job: Job, s: State, k: nat, files: set<Vertex>)
    requires Planned(job) && Typed(job, s) && SentinelRules(job, s)
    requires Enabled(s, k) && s.workers[k].Reposting?
    ensures Typed(job, Next(job, s, k, files)) && SentinelRules(job, Next(job, s, k, files))
  {
    hide TopologicalOrder, SomeQueued, NoGoalPending;
    var t := Next(job, s, k, files);
    NextTyped(job, s, k, files);
    assert SomeReposting(s);
    assert t.queue[|t.queue| - 1] == ROOT;
  }

  lemma HoldSentinel(job: Job, s: State, k: nat, files: set<Vertex>)
    requires Planned(job) && Typed(job, s) && SentinelRules(job, s)
    requires Enabled(s, k) && Holds(s.workers[k]) && !s.workers[k].Reporting?
    ensures Typed(job, Next(job, s, k, files)) && SentinelRules(job, Next(job, s, k, files))
  {
    hide TopologicalOrder, SomeQueued, NoGoalPending, GoalsAhead;
    var t := Next(job, s, k, files);
    NextTyped(job, s, k, files);
    KindsPersist(s, t, k);
    KindsPersist(t, s, k);
  }

  lemma GoalsStayAhead(job: Job, q: seq<Vertex>, pushed: seq<Vertex>, sentinel: seq<Vertex>)
    requires GoalsAhead(job, q) && ROOT !in pushed && ROOT !in job.goals
    requires ROOT in q ==> forall v :: v in pushed ==> v !in job.goals
    requires sentinel == [] || sentinel == [ROOT]
    ensures GoalsAhead(job, q + pushed + sentinel)
  {
    var all := q + pushed + sentinel;
    assert forall x :: 0 <= x < |pushed| ==> pushed[x] != ROOT;
    forall i, j | 0 <= i < j < |all| && all[i] == ROOT
      ensures all[j] !in job.goals
    {
      if i < |q| <= j < |q| + |pushed| {
        assert q[i] == ROOT && pushed[j - |q|] in pushed;
      }
    }
  }

  lemma ReportSentinel(job: Job, s: State, k: nat, files: set<Vertex>)
    requires Sound(job, s) && SentinelRules(job, s)
    requires Enabled(s, k) && s.workers[k].Reporting?
    ensures Typed(job, Next(job, s, k, files)) && SentinelRules(job, Next(job, s, k, files))
  {
    hide TopologicalOrder, SomeQueued, Waiting, Verdicts, OnePlace, PassUpTo;
    var t := Next(job, s, k, files);
    NextTyped(job, s, k, files);
    assert WorkerKnows(job, s.seen, s.workers[k]);
    var rules := s.rules[s.workers[k].target := s.workers[k].result];
    var pushed := Pass(job, files, rules).1;
    PassPushesListed(job, files, rules, |job.sorted|);
    KindsPersist(s, t, k);
    KindsPersist(t, s, k);
    var sentinel := if NoGoalPending(job, t.rules) then [ROOT] else [];
    if SentinelOut(s) {
      assert NoGoalPending(job, rules);
      assert forall v :: v in pushed ==> v !in job.goals;
    }
    GoalsStayAhead(job, s.queue, pushed, sentinel);
    assert NoGoalPending(job, t.rules) ==> t.queue[|t.queue| - 1] == ROOT;
  }

  lemma SentinelStep(job: Job, s: State, k: nat, files: set<Vertex>)
    requires Sound(job, s) && SentinelRules(job, s) && Enabled(s, k)
    ensures Typed(job, Next(job, s, k, files)) && SentinelRules(job, Next(job, s, k, files))
  {
    hide SentinelRules, Next, Verdicts, Waiting, OnePlace;
    match s.workers[k] {
      case Idle => PullSentinel(job, s, k, files);
      case Reposting => RepostSentinel(job, s, k, files);
      case Reporting(_, _) => ReportSentinel(job, s, k, files);
      case _ => HoldSentinel(job, s, k, files);
    }
  }

  /** On every schedule and whatever files open, the sentinel is out only when no goal is pending, and
      goals queued before it are pulled before it. */
  lemma {:induction false} RunsKeepSentinelRules(job: Job, threads: nat, ss: seq<State>, files: seq<set<Vertex>>)
    requires Run(job, threads, ss, files)
    ensures Typed(job, ss[|ss| - 1]) && SentinelRules(job, ss[|ss| - 1])
    decreases |ss|
  {
    hide Sound, Next, Start, SentinelRules, Planned, Typed;
    var n := |ss| - 1;
    if n == 0 {
      StartSentinel(job, files[0], threads);
    } else {
      var k := RunLastStep(job, threads, ss, files);
      RunsKeepSentinelRules(job, threads, ss[..n], files[..n]);
      RunsAreSound(job, threads, ss[..n], files[..n]);
      SentinelStep(job, ss[n - 1], k, files[n]);
    }
  }

  lemma SentinelStaysStep(job: Job, s: State, k: nat, files: set<Vertex>)
    requires Planned(job) && Typed(job, s) && Enabled(s, k) && SentinelOut(s)
    ensures SentinelOut(Next(job, s, k, files))
  {
    hide TopologicalOrder, PassUpTo, NoGoalPending;
    var t := Next(job, s, k, files);
    assert |t.workers| == |s.workers|;
    KindsPersist(s, t, k);
    if s.workers[k].Idle? {
      assert s.queue == [s.queue[0]] + t.queue;
      assert s.queue[0] == ROOT ==> t.workers[k].Reposting?;
    } else if s.workers[k].Reposting? {
      assert t.workers[k].Exited?;
    } else if ROOT in s.queue {
      assert s.queue <= t.queue && forall v :: v in s.queue ==> v in t.queue[..|s.queue|];
    }
  }

  /** Once pushed, the sentinel is never lost: in every later state it is queued, on its way back, or has
      let a worker exit. */
  lemma {:induction false} SentinelStays(job: Job, threads: nat, ss: seq<State>, files: seq<set<Vertex>>,
          i: nat, j: nat)
    requires Run(job, threads, ss, files) && i <= j < |ss| && SentinelOut(ss[i])
    ensures SentinelOut(ss[j])
    decreases j
  {
    hide Typed, Planned, Next, SentinelOut;
    if i < j {
      SentinelStays(job, threads, ss, files, i, j - 1);
      assert Step(job, ss[j - 1], ss[j - 1 + 1], files[j - 1 + 1]);
      var k: nat :| Planned(job) && Typed(job, ss[j - 1]) && Enabled(ss[j - 1], k)
                    && ss[j] == Next(job, ss[j - 1], k, files[j]);
      SentinelStaysStep(job, ss[j - 1], k, files[j]);
    }
  }

  // ---- never stuck ------------------------------------------------------------------------------

  ghost predicate AllExited(s: State) {
    forall k :: 0 <= k < |s.workers| ==> s.workers[k].Exited?
  }

  /** With nothing queued, nothing can be pending: following unfinished dependencies downwards would
      never end. */
  lemma {:induction false} NothingPending(job: Job, rules: Rules, n: nat)
    requires Planned(job) && Covers(job, rules) && Waiting(job, rules, |job.sorted|)
    requires !SomeQueued(job, rules) && n <= |job.sorted|
    ensures forall i :: 0 <= i < n ==> rules[job.sorted[i]] != PENDING
  {
    if n > 0 {
      NothingPending(job, rules, n - 1);
    }
  }

  ghost predicate CanMove(s: State) {
    exists k: nat :: Enabled(s, k)
  }

  lemma SomebodyCanMove(job: Job, s: State)
    requires Sound(job, s) && SentinelRules(job, s)
    requires !AllExited(s)
    ensures CanMove(s)
  {
    hide TopologicalOrder, Waiting, Verdicts;
    if !CanMove(s) {
      var k: nat :| k < |s.workers| && !s.workers[k].Exited?;
      assert !Enabled(s, k);
      assert s.queue == [];
      forall i: nat | i < |s.workers|
        ensures s.workers[i].Idle? || s.workers[i].Exited?
      {
        assert !Enabled(s, i);
      }
      assert !SomeReposting(s) && !SomeExited(s);
      assert !SomeQueued(job, s.rules);
      NothingPending(job, s.rules, |job.sorted|);
    }
  }

  /** In every reachable state, whatever files open, either all workers have exited or one of them can
      move. */
  lemma NeverStuck(job: Job, threads: nat, ss: seq<State>, files: seq<set<Vertex>>)
    requires Run(job, threads, ss, files)
    ensures AllExited(ss[|ss| - 1]) || CanMove(ss[|ss| - 1])
  {
    hide Sound, SentinelRules, Planned, Step;
    RunsAreSound(job, threads, ss, files);
    RunsKeepSentinelRules(job, threads, ss, files);
    if !AllExited(ss[|ss| - 1]) {
      SomebodyCanMove(job, ss[|ss| - 1]);
    }
  }

  // ---- every run ends ---------------------------------------------------------------------------

  function RuleWork(job: Job, v: Vertex): (w: nat)
    ensures w >= 6
  {
    (if v in job.deps then |job.deps[v]| else 0) + (if v in job.commands then |job.commands[v]| else 0) + 6
  }

  function WorkerWork(job: Job, w: Worker): nat {
    match w
    case Idle => 2
    case Reposting => 1
    case Exited => 0
    case Checking(v, i) => if v in job.deps && i <= |job.deps[v]| then RuleWork(job, v) - i else RuleWork(job, v)
    case Deciding(v, _) => (if v in job.commands then |job.commands[v]| else 0) + 5
    case Running(v, i) => (if v in job.commands && i <= |job.commands[v]| then |job.commands[v]| - i else 0) + 4
    case Reporting(_, _) => 3
  }

  function WorkersWork(job: Job, ws: seq<Worker>): nat {
    if ws == [] then 0 else WorkerWork(job, ws[0]) + WorkersWork(job, ws[1..])
  }

  function QueueWork(job: Job, q: seq<Vertex>): nat {
    if q == [] then 0 else (if q[0] == ROOT then 0 else RuleWork(job, q[0])) + QueueWork(job, q[1..])
  }

  function PendingWork(job: Job, rules: Rules, n: nat): nat
    requires n <= |job.sorted|
  {
    if n == 0 then 0 else
      var v := job.sorted[n - 1];
      PendingWork(job, rules, n - 1) + if v in rules && rules[v] == PENDING then RuleWork(job, v) else 0
  }

  /** An upper bound on the steps left. */
  function WorkLeft(job: Job, s: State): nat {
    PendingWork(job, s.rules, |job.sorted|) + QueueWork(job, s.queue) + WorkersWork(job, s.workers)
  }

  lemma {:induction false} WorkersWorkUpdate(job: Job, ws: seq<Worker>, k: nat, w: Worker)
    requires k < |ws|
    ensures WorkersWork(job, ws[k := w]) == WorkersWork(job, ws) - WorkerWork(job, ws[k]) + WorkerWork(job, w)
  {
    if k > 0 {
      assert ws[k := w][1..] == ws[1..][k - 1 := w];
      WorkersWorkUpdate(job, ws[1..], k - 1, w);
    }
  }

  lemma {:induction false} QueueWorkAppend(job: Job, a: seq<Vertex>, b: seq<Vertex>)
    ensures QueueWork(job, a + b) == QueueWork(job, a) + QueueWork(job, b)
  {
    if a == [] {
      assert a + b == b;
    } else {
      assert (a + b)[1..] == a[1..] + b;
      QueueWorkAppend(job, a[1..], b);
    }
  }

  /** Settling a pending rule takes its work out of the pending sum, once. */
  lemma {:induction false} PendingWorkUpdate(job: Job, rules: Rules, n: nat, i: nat, state: int)
    requires Distinct(job.sorted) && n <= |job.sorted| && i < |job.sorted|
    requires job.sorted[i] in rules && rules[job.sorted[i]] == PENDING && state != PENDING
    ensures PendingWork(job, rules[job.sorted[i] := state], n) ==
      PendingWork(job, rules, n) - if i < n then RuleWork(job, job.sorted[i]) else 0
  {
    if n > 0 {
      PendingWorkUpdate(job, rules, n - 1, i, state);
    }
  }

  lemma {:induction false} PendingWorkSettled(job: Job, rules: Rules, n: nat, v: Vertex, state: int)
    requires n <= |job.sorted| && v in rules && rules[v] != PENDING && state != PENDING
    ensures PendingWork(job, rules[v := state], n) == PendingWork(job, rules, n)
  {
    if n > 0 {
      PendingWorkSettled(job, rules, n - 1, v, state);
    }
  }

  /** A pass pays for what it queues out of the pending work. */
  lemma {:induction false} PassWork(job: Job, files: set<Vertex>, rules: Rules, n: nat)
    requires Planned(job) && Covers(job, rules) && n <= |job.sorted|
    ensures PendingWork(job, PassUpTo(job, files, rules, n).0, |job.sorted|)
            + QueueWork(job, PassUpTo(job, files, rules, n).1)
         <= PendingWork(job, rules, |job.sorted|)
  {
    hide DependenciesFirst, PassUpTo, Scan;
    PassShape(job, files, rules, n);
    if n > 0 {
      PassWork(job, files, rules, n - 1);
      var (before, pushed) := PassUpTo(job, files, rules, n - 1);
      var v := job.sorted[n - 1];
      if before[v] == PENDING {
        PendingWorkUpdate(job, before, |job.sorted|, n - 1, QUEUED);
        PendingWorkUpdate(job, before, |job.sorted|, n - 1, FAILED);
        PendingWorkUpdate(job, before, |job.sorted|, n - 1, BUILT);
        QueueWorkAppend(job, pushed, [v]);
        assert QueueWork(job, [v]) == RuleWork(job, v);
      } else {
        PendingWorkSettled(job, before, |job.sorted|, v, BUILT);
      }
    }
  }

  lemma HeldNotPending(job: Job, s: State, k: nat)
    requires Sound(job, s) && k < |s.workers| && Holds(s.workers[k])
    ensures s.rules[s.workers[k].target] != PENDING
  {
    assert Held(s, s.workers[k].target);
  }

  lemma StepWorks(job: Job, s: State, k: nat, files: set<Vertex>)
    requires Sound(job, s) && Enabled(s, k)
    ensures WorkLeft(job, Next(job, s, k, files)) < WorkLeft(job, s)
  {
    hide TopologicalOrder, Verdicts, Waiting, OnePlace, PassUpTo;
    var t := Next(job, s, k, files);
    WorkersWorkUpdate(job, s.workers, k, t.workers[k]);
    assert WorkerKnows(job, s.seen, s.workers[k]);
    match s.workers[k] {
      case Idle =>
      case Reposting =>
        QueueWorkAppend(job, s.queue, [ROOT]);
      case Reporting(v, result) =>
        HeldNotPending(job, s, k);
        var rules := s.rules[v := result];
        PendingWorkSettled(job, s.rules, |job.sorted|, v, result);
        PassWork(job, files, rules, |job.sorted|);
        var pushed := Pass(job, files, rules).1;
        var sentinel := if NoGoalPending(job, t.rules) then [ROOT] else [];
        QueueWorkAppend(job, s.queue, pushed);
        QueueWorkAppend(job, s.queue + pushed, sentinel);
        assert QueueWork(job, sentinel) == 0;
        assert t.workers == s.workers[k := Idle];
      case Checking(v, _) =>
        DependenciesListed(job, v);
      case Deciding(_, _) =>
      case Running(_, _) =>
    }
  }

  /** No schedule runs forever, whatever files open: a run has at most as many steps as there was work at
      the start. */
  lemma {:induction false} RunsAreBounded(job: Job, threads: nat, ss: seq<State>, files: seq<set<Vertex>>)
    requires Run(job, threads, ss, files)
    ensures |ss| - 1 + WorkLeft(job, ss[|ss| - 1]) <= WorkLeft(job, Start(job, files[0], threads))
    decreases |ss|
  {
    hide Sound, Next, Start, Typed, Planned, WorkLeft;
    var n := |ss| - 1;
    if n > 0 {
      var k := RunLastStep(job, threads, ss, files);
      RunsAreBounded(job, threads, ss[..n], files[..n]);
      RunsAreSound(job, threads, ss[..n], files[..n]);
      StepWorks(job, ss[n - 1], k, files[n]);
    }
  }

  // ---- the result -------------------------------------------------------------------------------

  lemma {:induction false} WorkersStay(job: Job, threads: nat, ss: seq<State>, files: seq<set<Vertex>>)
    requires Run(job, threads, ss, files)
    ensures |ss[|ss| - 1].workers| == threads
    decreases |ss|
  {
    hide TopologicalOrder, Typed;
    var n := |ss| - 1;
    if n > 0 {
      var k := RunLastStep(job, threads, ss, files);
      WorkersStay(job, threads, ss[..n], files[..n]);
    }
  }

  /** Once every worker has exited, each kept goal is built or failed, whatever files opened: it is built
      if a sequential build of it succeeds without any file, and only if one succeeds with the files
      that were seen. */
  lemma GoalsEndAsSequential(job: Job, threads: nat, ss: seq<State>, files: seq<set<Vertex>>, g: Vertex)
    requires Run(job, threads, ss, files) && threads >= 1 && g in job.goals
    requires AllExited(ss[|ss| - 1])
    ensures g in job.sorted && g in ss[|ss| - 1].rules
    ensures ss[|ss| - 1].rules[g] == BUILT || ss[|ss| - 1].rules[g] == FAILED
    ensures SequentialBuild(job, {}, g) ==> ss[|ss| - 1].rules[g] == BUILT
    ensures ss[|ss| - 1].rules[g] == BUILT ==> SequentialBuild(job, ss[|ss| - 1].seen, g)
  {
    var s := ss[|ss| - 1];
    RunsAreSound(job, threads, ss, files);
    RunsKeepSentinelRules(job, threads, ss, files);
    WorkersStay(job, threads, ss, files);
    hide TopologicalOrder, Waiting, SequentialBuild, AllReady;
    assert s.workers[0].Exited?;
    assert SomeExited(s);
    assert !Held(s, g);
    assert Verdict(job, s.seen, s.rules, g);
  }

  /** When no target opens as a file, each goal is built exactly when a sequential build of it succeeds,
      that is, when every command of every rule in its dependency closure does. */
  lemma QuietGoalsEndAsSequential(job: Job, threads: nat, ss: seq<State>, g: Vertex)
    requires QuietRun(job, threads, ss) && threads >= 1 && g in job.goals
    requires AllExited(ss[|ss| - 1])
    ensures g in job.sorted && g in ss[|ss| - 1].rules
    ensures ss[|ss| - 1].rules[g] == if ClosureSucceeds(job, g) then BUILT else FAILED
  {
    hide Start, Typed, Step, AllExited, ClosureSucceeds, SequentialBuild;
    GoalsEndAsSequential(job, threads, ss, seq(|ss|, _ => {}), g);
    QuietSeesNothing(job, threads, ss);
    SequentialBuildIsClosure(job, g);
  }
}
