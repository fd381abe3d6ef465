/** When commands run: each at most once, in order, and only after every rule the target depends on
    was built, its commands all having succeeded or its file having been found; and none while a rule
    the target depends on has failed. */
module MakeOrder {
  import opened Basics
  import opened Digraph
  import opened CycleCheck
  import opened TopoSort
  import opened MakePool
  import opened MakeSteps
  import opened MakeSafety

  type Log = seq<(Vertex, nat)>

  /** The first `n` commands of `v` were run and succeeded. */
  ghost predicate RanFirst(job: Job, log: Log, v: Vertex, n: nat) {
    v in job.commands && n <= |job.commands[v]| && forall j :: 0 <= j < n ==> (v, j) in log && job.commands[v][j]
  }

  ghost predicate RanBefore(job: Job, files: set<Vertex>, log: Log, v: Vertex)
    requires Planned(job) && v in job.sorted
    decreases Position(job.sorted, v), 0
  {
    DependenciesListed(job, v);
    forall d :: d in job.deps[v] ==> (DependencyEarlier(job, v, d); Ran(job, files, log, d))
  }

  /** The file of `v` was found, or all its commands ran and succeeded, after those of its
      dependencies. */
  ghost predicate Ran(job: Job, files: set<Vertex>, log: Log, v: Vertex)
    requires Planned(job) && v in job.sorted
    decreases Position(job.sorted, v)
  {
    v in files || (RanFirst(job, log, v, |job.commands[v]|) && RanBefore(job, files, log, v))
  }

  /** Every command of every rule `v` depends on, and of `v` itself, was run and succeeded. */
  ghost predicate ClosureRan(job: Job, log: Log, v: Vertex) {
    forall w :: Reaches(job.deps, v, w) ==> w in job.commands && RanFirst(job, log, w, |job.commands[w]|)
  }

  lemma {:induction false} RanIsClosureRan(job: Job, log: Log, v: Vertex)
    requires Planned(job) && v in job.sorted
    ensures Ran(job, {}, log, v) <==> ClosureRan(job, log, v)
    decreases Position(job.sorted, v)
  {
    DependenciesListed(job, v);
    forall d | d in job.deps[v]
      ensures Ran(job, {}, log, d) <==> ClosureRan(job, log, d)
    {
      DependencyEarlier(job, v, d);
      RanIsClosureRan(job, log, d);
    }
    forall w
      ensures Reaches(job.deps, v, w) <==> w == v || exists d :: d in job.deps[v] && Reaches(job.deps, d, w)
    {
      ReachesUnfolds(job.deps, v, w);
    }
    hide RanFirst, TopologicalOrder, Reaches;
    if ClosureRan(job, log, v) {
      forall d | d in job.deps[v]
        ensures ClosureRan(job, log, d)
      {
        forall w | Reaches(job.deps, d, w) ensures Reaches(job.deps, v, w) {}
      }
    }
  }

  /** Entry `x` of the log was started neither early nor twice. */
  ghost predicate WellStarted(job: Job, files: set<Vertex>, log: Log, x: nat)
    requires Planned(job) && x < |log|
  {
    var (v, i) := log[x];
    && v in job.sorted && v in job.commands && i < |job.commands[v]|
    && log[x] !in log[..x]
    && RanFirst(job, log[..x], v, i)
    && RanBefore(job, files, log[..x], v)
  }

  ghost predicate InOrder(job: Job, files: set<Vertex>, log: Log)
    requires Planned(job)
  {
    forall x :: 0 <= x < |log| ==> WellStarted(job, files, log, x)
  }

  /** The worker, holding the rule of `e`, is past that command. */
  predicate PastCommand(w: Worker, e: (Vertex, nat)) {
    match w
    case Running(v, i) => v == e.0 && e.1 < i
    case Reporting(v, _) => v == e.0
    case _ => false
  }

  ghost predicate WorkerRan(job: Job, log: Log, w: Worker) {
    match w
    case Running(v, i) => RanFirst(job, log, v, i)
    case Reporting(v, result) => result == BUILT ==> v in job.commands && RanFirst(job, log, v, |job.commands[v]|)
    case _ => true
  }

  /** What was started will not be started again. */
  ghost predicate Spent(s: State, e: (Vertex, nat)) {
    && e.0 in s.rules && s.rules[e.0] != PENDING && e.0 !in s.queue
    && forall k :: 0 <= k < |s.workers| && Holds(s.workers[k]) && s.workers[k].target == e.0 ==>
      PastCommand(s.workers[k], e)
  }

  /** Built rules were run or found; queued and held ones may run. */
  ghost predicate MayRun(job: Job, files: set<Vertex>, log: Log, rules: Rules, q: seq<Vertex>)
    requires Planned(job) && Covers(job, rules)
  {
    && (forall v :: v in job.sorted && rules[v] == BUILT ==> Ran(job, files, log, v))
    && (forall v :: v in q && v != ROOT ==> v in job.sorted && RanBefore(job, files, log, v))
  }

  ghost predicate WorkersRan(job: Job, files: set<Vertex>, log: Log, ws: seq<Worker>)
    requires Planned(job)
  {
    forall k :: 0 <= k < |ws| ==>
      && WorkerRan(job, log, ws[k])
      && (Holds(ws[k]) ==> ws[k].target in job.sorted && RanBefore(job, files, log, ws[k].target))
  }

  ghost predicate Logged(job: Job, s: State)
    requires Planned(job) && Typed(job, s)
  {
    && InOrder(job, s.seen, s.started)
    && (forall e :: e in s.started ==> Spent(s, e))
    && WorkersRan(job, s.seen, s.started, s.workers)
    && MayRun(job, s.seen, s.started, s.rules, s.queue)
  }

  /** A longer log and more files only help. */
  lemma {:induction false} RanMore(job: Job, files: set<Vertex>, more: set<Vertex>, log: Log, longer: Log, v: Vertex)
    requires Planned(job) && v in job.sorted && files <= more && forall e :: e in log ==> e in longer
    ensures Ran(job, files, log, v) ==> Ran(job, more, longer, v)
    ensures RanBefore(job, files, log, v) ==> RanBefore(job, more, longer, v)
    decreases Position(job.sorted, v)
  {
    DependenciesListed(job, v);
    forall d | d in job.deps[v]
      ensures Ran(job, files, log, d) ==> Ran(job, more, longer, d)
    {
      DependencyEarlier(job, v, d);
      RanMore(job, files, more, log, longer, d);
    }
    hide TopologicalOrder;
    assert RanBefore(job, files, log, v) ==> RanBefore(job, more, longer, v);
    assert Ran(job, files, log, v)
      <==> v in files || (RanFirst(job, log, v, |job.commands[v]|) && RanBefore(job, files, log, v));
  }

  lemma RanMoreOrder(job: Job, files: set<Vertex>, more: set<Vertex>, log: Log)
    requires Planned(job) && InOrder(job, files, log) && files <= more
    ensures InOrder(job, more, log)
  {
    hide TopologicalOrder, RanBefore, RanFirst;
    forall x | 0 <= x < |log| ensures WellStarted(job, more, log, x) {
      assert WellStarted(job, files, log, x);
      RanMore(job, files, more, log[..x], log[..x], log[x].0);
    }
  }

  lemma RanMoreRules(job: Job, files: set<Vertex>, more: set<Vertex>, log: Log, longer: Log, rules: Rules,
          q: seq<Vertex>)
    requires Planned(job) && Covers(job, rules) && files <= more && forall e :: e in log ==> e in longer
    requires MayRun(job, files, log, rules, q)
    ensures MayRun(job, more, longer, rules, q)
  {
    hide TopologicalOrder, Ran, RanBefore;
    forall v | v in job.sorted
      ensures Ran(job, files, log, v) ==> Ran(job, more, longer, v)
      ensures RanBefore(job, files, log, v) ==> RanBefore(job, more, longer, v)
    {
      RanMore(job, files, more, log, longer, v);
    }
  }

  lemma RanMoreWorkers(job: Job, files: set<Vertex>, more: set<Vertex>, log: Log, longer: Log, ws: seq<Worker>)
    requires Planned(job) && files <= more && forall e :: e in log ==> e in longer
    requires WorkersRan(job, files, log, ws)
    ensures WorkersRan(job, more, longer, ws)
  {
    hide TopologicalOrder, Ran, RanBefore;
    forall k | 0 <= k < |ws|
      ensures WorkerRan(job, longer, ws[k])
      ensures Holds(ws[k]) ==> ws[k].target in job.sorted && RanBefore(job, more, longer, ws[k].target)
    {
      assert WorkerRan(job, log, ws[k]);
      if Holds(ws[k]) {
        RanMore(job, files, more, log, longer, ws[k].target);
      }
    }
  }

  lemma AppendInOrder(job: Job, files: set<Vertex>, log: Log, e: (Vertex, nat))
    requires Planned(job) && InOrder(job, files, log)
    requires e.0 in job.sorted && e.0 in job.commands && e.1 < |job.commands[e.0]|
    requires e !in log && RanFirst(job, log, e.0, e.1) && RanBefore(job, files, log, e.0)
    ensures InOrder(job, files, log + [e])
  {
    hide TopologicalOrder, RanBefore, RanFirst;
    forall x | 0 <= x < |log + [e]|
      ensures WellStarted(job, files, log + [e], x)
    {
      if x < |log| {
        assert (log + [e])[..x] == log[..x];
        assert WellStarted(job, files, log, x);
      } else {
        assert (log + [e])[..x] == log;
      }
    }
  }

  lemma MoveWorkers(job: Job, s: State, k: nat, files: set<Vertex>)
    requires Sound(job, s) && Logged(job, s) && Enabled(s, k) && !s.workers[k].Reporting?
    requires s.workers[k].Running? ==> s.workers[k].at == |job.commands[s.workers[k].target]|
    ensures WorkersRan(job, s.seen, s.started, Next(job, s, k, files).workers)
  {
    hide TopologicalOrder, Waiting, Verdicts, AllReady, RanBefore, Ran, InOrder, OnePlace, SequentialBuild, Spent;
    var t := Next(job, s, k, files);
    assert WorkerKnows(job, s.seen, s.workers[k]);
    assert WorkerRan(job, s.started, s.workers[k]);
    var w := t.workers[k];
    assert WorkerRan(job, s.started, w);
    assert Holds(w) ==> w.target in job.sorted && RanBefore(job, s.seen, s.started, w.target);
    assert t.workers == s.workers[k := w];
    hide Next, WorkerRan, WorkerKnows;
  }

  lemma MoveSpent(job: Job, s: State, k: nat, files: set<Vertex>)
    requires Sound(job, s) && Logged(job, s) && Enabled(s, k) && !s.workers[k].Reporting?
    requires s.workers[k].Running? ==> s.workers[k].at == |job.commands[s.workers[k].target]|
    ensures forall e :: e in s.started ==> Spent(Next(job, s, k, files), e)
  {
    hide TopologicalOrder, Waiting, Verdicts, AllReady, RanBefore, Ran, InOrder, WorkersRan, SequentialBuild, OnePlace;
    var t := Next(job, s, k, files);
    assert WorkerKnows(job, s.seen, s.workers[k]);
    assert t.rules == s.rules;
    forall e | e in s.started ensures Spent(t, e) {
      assert Spent(s, e);
      assert s.workers[k].Idle? ==> s.queue[0] in s.queue;
      forall i | 0 <= i < |t.workers| && Holds(t.workers[i]) && t.workers[i].target == e.0
        ensures PastCommand(t.workers[i], e)
      {
        assert i != k ==> t.workers[i] == s.workers[i];
      }
    }
  }

  /** A worker that moves on without running anything or publishing. */
  lemma MoveLogged(job: Job, s: State, k: nat, files: set<Vertex>)
    requires Sound(job, s) && Logged(job, s) && Enabled(s, k)
    requires !s.workers[k].Reporting?
    requires s.workers[k].Running? ==> s.workers[k].at == |job.commands[s.workers[k].target]|
    ensures Typed(job, Next(job, s, k, files)) && Logged(job, Next(job, s, k, files))
  {
    hide TopologicalOrder, Waiting, Verdicts, AllReady, RanBefore, Ran, InOrder, SequentialBuild;
    var t := Next(job, s, k, files);
    NextTyped(job, s, k, files);
    MoveWorkers(job, s, k, files);
    MoveSpent(job, s, k, files);
    hide OnePlace, WorkersRan, Spent, WorkersKnow;
    assert forall v :: v in t.queue ==> v in s.queue || v == ROOT;
  }

  lemma CommandSpent(job: Job, s: State, k: nat, files: set<Vertex>)
    requires Sound(job, s) && Logged(job, s) && Enabled(s, k)
    requires s.workers[k].Running? && s.workers[k].at < |job.commands[s.workers[k].target]|
    ensures forall e :: e in Next(job, s, k, files).started ==> Spent(Next(job, s, k, files), e)
  {
    hide TopologicalOrder, Waiting, Verdicts, AllReady, RanBefore, Ran, InOrder, WorkersRan, SequentialBuild;
    var t := Next(job, s, k, files);
    var last := (s.workers[k].target, s.workers[k].at);
    assert Held(s, last.0);
    forall e | e in t.started ensures Spent(t, e) {
      assert e != last ==> e in s.started && Spent(s, e);
      forall i | 0 <= i < |t.workers| && Holds(t.workers[i]) && t.workers[i].target == e.0
        ensures PastCommand(t.workers[i], e)
      {
        assert i != k ==> t.workers[i] == s.workers[i];
      }
    }
  }

  lemma CommandLogged(job: Job, s: State, k: nat, files: set<Vertex>)
    requires Sound(job, s) && Logged(job, s) && Enabled(s, k)
    requires s.workers[k].Running? && s.workers[k].at < |job.commands[s.workers[k].target]|
    ensures Typed(job, Next(job, s, k, files)) && Logged(job, Next(job, s, k, files))
  {
    hide TopologicalOrder, Waiting, Verdicts, AllReady, RanBefore, Ran, InOrder, SequentialBuild;
    var t := Next(job, s, k, files);
    var v, i := s.workers[k].target, s.workers[k].at;
    var e := (v, i);
    NextTyped(job, s, k, files);
    assert WorkerRan(job, s.started, s.workers[k]);
    assert e in s.started ==> Spent(s, e);
    AppendInOrder(job, s.seen, s.started, e);
    RanMoreRules(job, s.seen, s.seen, s.started, t.started, s.rules, s.queue);
    RanMoreWorkers(job, s.seen, s.seen, s.started, t.started, s.workers);
    CommandSpent(job, s, k, files);
    hide OnePlace, Spent, MayRun;
    assert WorkerRan(job, t.started, t.workers[k]) by {
      assert e in t.started;
    }
  }

  lemma BuiltBefore(job: Job, files: set<Vertex>, log: Log, rules: Rules, v: Vertex)
    requires Planned(job) && Covers(job, rules) && v in job.sorted && v in job.deps
    requires MayRun(job, files, log, rules, [])
    requires forall d :: d in job.deps[v] ==> d in rules && rules[d] == BUILT
    ensures RanBefore(job, files, log, v)
  {
    hide TopologicalOrder, RanFirst;
    DependenciesListed(job, v);
    assert forall d :: d in job.deps[v] ==> Ran(job, files, log, d);
  }

  lemma TurnMayRun(job: Job, files: set<Vertex>, seen: set<Vertex>, log: Log, rules: Rules, n: nat)
    requires Planned(job) && Covers(job, rules) && n < |job.sorted| && files <= seen
    requires var (before, pushed) := PassUpTo(job, files, rules, n); MayRun(job, seen, log, before, pushed)
    ensures var (after, all) := PassUpTo(job, files, rules, n + 1); MayRun(job, seen, log, after, all)
  {
    hide TopologicalOrder, RanFirst, RanBefore;
    var (before, pushed) := PassUpTo(job, files, rules, n);
    var v := job.sorted[n];
    DependenciesListed(job, v);
    var now := if v in files then before[v := BUILT] else before;
    assert MayRun(job, seen, log, now, []);
    if Scan(job.deps[v], now) == BUILT {
      BuiltBefore(job, seen, log, now, v);
    }
  }

  /** What a pass builds was found, and what it queues may run. */
  lemma {:induction false} PassMayRun(job: Job, files: set<Vertex>, seen: set<Vertex>, log: Log, rules: Rules, n: nat)
    requires Planned(job) && Covers(job, rules) && n <= |job.sorted| && files <= seen
    requires MayRun(job, seen, log, rules, [])
    ensures var (after, pushed) := PassUpTo(job, files, rules, n); MayRun(job, seen, log, after, pushed)
  {
    hide TopologicalOrder, RanBefore, Ran, Scan;
    if n > 0 {
      PassMayRun(job, files, seen, log, rules, n - 1);
      DependenciesListed(job, job.sorted[n - 1]);
      TurnMayRun(job, files, seen, log, rules, n - 1);
    }
  }

  lemma ReportWorkers(job: Job, s: State, k: nat, files: set<Vertex>)
    requires Sound(job, s) && Logged(job, s) && Enabled(s, k) && s.workers[k].Reporting?
    ensures WorkersRan(job, s.seen + files, s.started, s.workers[k := Idle])
  {
    hide TopologicalOrder, RanBefore, InOrder, OnePlace, Spent, MayRun, Waiting, Verdicts, AllReady;
    RanMoreWorkers(job, s.seen, s.seen + files, s.started, s.started, s.workers);
  }

  lemma ReportSpent(job: Job, s: State, k: nat, files: set<Vertex>)
    requires Sound(job, s) && Logged(job, s) && Enabled(s, k) && s.workers[k].Reporting?
    ensures forall e :: e in s.started ==> Spent(Next(job, s, k, files), e)
  {
    hide TopologicalOrder, Waiting, Verdicts, AllReady, RanBefore, Ran, InOrder, WorkersRan, SequentialBuild,
      OnePlace, NoGoalPending, PassUpTo;
    var t := Next(job, s, k, files);
    var rules := s.rules[s.workers[k].target := s.workers[k].result];
    NextTyped(job, s, k, files);
    assert WorkerKnows(job, s.seen, s.workers[k]);
    PassPushesListed(job, files, rules, |job.sorted|);
    forall e | e in s.started ensures Spent(t, e) {
      assert Spent(s, e);
      assert rules[e.0] != PENDING;
      assert e.0 in job.sorted;
      forall i | 0 <= i < |t.workers| && Holds(t.workers[i]) && t.workers[i].target == e.0
        ensures PastCommand(t.workers[i], e)
      {
        assert t.workers[i] == s.workers[i];
      }
    }
  }

  lemma ReportLogged(job: Job, s: State, k: nat, files: set<Vertex>)
    requires Sound(job, s) && Logged(job, s) && Enabled(s, k) && s.workers[k].Reporting?
    ensures Typed(job, Next(job, s, k, files)) && Logged(job, Next(job, s, k, files))
  {
    hide TopologicalOrder, Waiting, Verdicts, AllReady, RanBefore, InOrder, SequentialBuild, OnePlace, Spent,
      NoGoalPending, PassUpTo;
    var t := Next(job, s, k, files);
    var v, result := s.workers[k].target, s.workers[k].result;
    var rules := s.rules[v := result];
    NextTyped(job, s, k, files);
    assert WorkerRan(job, s.started, s.workers[k]);
    assert MayRun(job, s.seen, s.started, rules, s.queue);
    RanMoreRules(job, s.seen, t.seen, s.started, s.started, rules, s.queue);
    assert MayRun(job, t.seen, s.started, rules, []);
    PassMayRun(job, files, t.seen, s.started, rules, |job.sorted|);
    RanMoreOrder(job, s.seen, t.seen, s.started);
    ReportSpent(job, s, k, files);
    ReportWorkers(job, s, k, files);
    hide Ran, WorkersRan, WorkersKnow;
  }

  lemma LoggedStep(job: Job, s: State, k: nat, files: set<Vertex>)
    requires Sound(job, s) && Logged(job, s) && Enabled(s, k)
    ensures Typed(job, Next(job, s, k, files)) && Logged(job, Next(job, s, k, files))
  {
    hide Logged, Next;
    assert WorkerKnows(job, s.seen, s.workers[k]);
    if s.workers[k].Reporting? {
      ReportLogged(job, s, k, files);
    } else if s.workers[k].Running? && s.workers[k].at < |job.commands[s.workers[k].target]| {
      CommandLogged(job, s, k, files);
    } else {
      MoveLogged(job, s, k, files);
    }
  }

  /** What seeding builds was found, and what it queues may run. */
  lemma {:induction false} SeedMayRun(job: Job, files: set<Vertex>, n: nat)
    requires Planned(job) && n <= |job.sorted|
    ensures var (rules, q) := SeedUpTo(job, FileRules(job, files), n); MayRun(job, files, [], rules, q)
  {
    hide TopologicalOrder, RanBefore;
    if n > 0 {
      SeedMayRun(job, files, n - 1);
      var (before, q) := SeedUpTo(job, FileRules(job, files), n - 1);
      var v := job.sorted[n - 1];
      DependenciesListed(job, v);
      hide Ran;
      if forall d :: d in job.deps[v] ==> before[d] == BUILT {
        BuiltBefore(job, files, [], before, v);
      }
    }
  }

  lemma StartLogged(job: Job, files: set<Vertex>, threads: nat)
    requires Planned(job)
    ensures Typed(job, Start(job, files, threads)) && Logged(job, Start(job, files, threads))
  {
    hide TopologicalOrder, Ran, RanBefore, SeedUpTo;
    StartTyped(job, files, threads);
    SeedMayRun(job, files, |job.sorted|);
  }

  /** On every schedule, for every number of workers and whatever files open: no command is run twice, a
      rule's commands run in order after their predecessors succeeded, and only once every dependency
      was found as a file or had all its commands succeed, after its own dependencies. */
  lemma {:induction false} CommandsRunInOrder(job: Job, threads: nat, ss: seq<State>, files: seq<set<Vertex>>)
    requires Run(job, threads, ss, files)
    ensures Typed(job, ss[|ss| - 1]) && Logged(job, ss[|ss| - 1])
    ensures InOrder(job, ss[|ss| - 1].seen, ss[|ss| - 1].started)
    decreases |ss|
  {
    hide Sound, Next, Start, Planned, InOrder, Typed;
    var n := |ss| - 1;
    if n == 0 {
      StartLogged(job, files[0], threads);
    } else {
      var k := RunLastStep(job, threads, ss, files);
      CommandsRunInOrder(job, threads, ss[..n], files[..n]);
      RunsAreSound(job, threads, ss[..n], files[..n]);
      LoggedStep(job, ss[n - 1], k, files[n]);
    }
  }

  /** When nothing opens as a file, that is every command of every rule in the dependencies' closures. */
  lemma QuietCommandsWait(job: Job, threads: nat, ss: seq<State>, x: nat)
    requires QuietRun(job, threads, ss) && x < |ss[|ss| - 1].started|
    ensures var log := ss[|ss| - 1].started; var v := log[x].0;
      v in job.deps && forall d :: d in job.deps[v] ==> ClosureRan(job, log[..x], d)
  {
    hide TopologicalOrder, Typed, Start, Step, ClosureRan, RanFirst, Logged;
    var log := ss[|ss| - 1].started;
    CommandsRunInOrder(job, threads, ss, seq(|ss|, _ => {}));
    QuietSeesNothing(job, threads, ss);
    assert WellStarted(job, {}, log, x);
    var v := log[x].0;
    DependenciesListed(job, v);
    forall d | d in job.deps[v] ensures ClosureRan(job, log[..x], d) {
      RanIsClosureRan(job, log[..x], d);
    }
  }

  // ---- failed dependencies ----------------------------------------------------------------------

  /** Worker `k` has pulled `v` and will not run it: it has yet to see that `d` failed, or has seen some
      dependency fail; no command of `v` was started. */
  ghost predicate Refuses(job: Job, s: State, k: nat, v: Vertex, d: Vertex) {
    && k < |s.workers| && v in job.deps
    && (match s.workers[k]
        case Checking(u, i) => u == v && d !in job.deps[v][..Min(i, |job.deps[v]|)]
        case Deciding(u, flag) => u == v && flag == -1
        case Reporting(u, result) => u == v && result == FAILED
        case _ => false)
    && forall c: nat :: (v, c) !in s.started
  }

  lemma PulledRefuses(job: Job, s: State, k: nat, v: Vertex, d: Vertex)
    requires Sound(job, s) && Logged(job, s) && k < |s.workers| && s.workers[k] == Checking(v, 0)
    ensures Refuses(job, s, k, v, d) && forall c: nat :: (v, c) !in s.started
  {
    hide TopologicalOrder, InOrder, WorkersRan, MayRun, Waiting, Verdicts, AllReady, WorkersKnow;
    DependenciesListed(job, v);
    forall c: nat ensures (v, c) !in s.started {
      assert (v, c) in s.started ==> Spent(s, (v, c));
    }
  }

  lemma RefusesStep(job: Job, s: State, m: nat, files: set<Vertex>, k: nat, v: Vertex, d: Vertex)
    requires Sound(job, s) && Enabled(s, m) && Refuses(job, s, k, v, d) && d in job.deps[v]
    requires d in s.rules && s.rules[d] == FAILED
    ensures var t := Next(job, s, m, files);
      && k < |t.workers| && (Holds(t.workers[k]) ==> Refuses(job, t, k, v, d))
      && forall c: nat :: (v, c) !in t.started
  {
    hide TopologicalOrder, Pass, NoGoalPending, Verdicts, Waiting, AllReady, WorkersKnow;
    assert m != k && Holds(s.workers[m]) ==> s.workers[m].target != v;
    if m == k && s.workers[k].Checking? {
      var i := s.workers[k].at;
      if i < |job.deps[v]| {
        assert job.deps[v][..i + 1] == job.deps[v][..i] + [job.deps[v][i]];
      }
    }
  }

  /** In every run: a worker that has pulled `v` runs no command of it while some dependency of `v`
      stays failed; it gives the rule up as failed, or finds it built. */
  lemma {:induction false} FailedDependencyStops(job: Job, threads: nat, ss: seq<State>, files: seq<set<Vertex>>,
          a: nat, b: nat, k: nat, v: Vertex, d: Vertex)
    requires Run(job, threads, ss, files) && a <= b < |ss|
    requires k < |ss[a].workers| && ss[a].workers[k] == Checking(v, 0) && v in job.deps && d in job.deps[v]
    requires forall j: nat :: a <= j < b ==>
      k < |ss[j].workers| && Holds(ss[j].workers[k]) && d in ss[j].rules && ss[j].rules[d] == FAILED
    ensures k < |ss[b].workers| && (Holds(ss[b].workers[k]) ==> Refuses(job, ss[b], k, v, d))
    ensures forall c: nat :: (v, c) !in ss[b].started
    decreases b
  {
    hide Sound, Logged, Refuses, Next, Start, Typed, Planned;
    if a == b {
      RunPrefix(job, threads, ss, files, a + 1);
      RunsAreSound(job, threads, ss[..a + 1], files[..a + 1]);
      CommandsRunInOrder(job, threads, ss[..a + 1], files[..a + 1]);
      assert ss[..a + 1][a] == ss[a];
      PulledRefuses(job, ss[a], k, v, d);
    } else {
      FailedDependencyStops(job, threads, ss, files, a, b - 1, k, v, d);
      RunPrefix(job, threads, ss, files, b);
      RunsAreSound(job, threads, ss[..b], files[..b]);
      assert ss[..b][b - 1] == ss[b - 1];
      assert Step(job, ss[b - 1], ss[b - 1 + 1], files[b - 1 + 1]);
      var m: nat :| Typed(job, ss[b - 1]) && Enabled(ss[b - 1], m) && ss[b] == Next(job, ss[b - 1], m, files[b]);
      RefusesStep(job, ss[b - 1], m, files[b], k, v, d);
    }
  }
}
