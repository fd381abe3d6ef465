/** What files that appear do: a target whose file is there when the build looks counts as built, and
    if nobody had begun with its rule, no command of it is ever run. */
module MakeFiles {
  import opened CycleCheck
  import opened Digraph
  import opened TopoSort
  import opened MakePool
  import opened MakeSteps
  import opened MakeSafety
  import opened MakeOrder

  /** After a pass each rule it looked at is built if its target opens, and what was built still is. */
  lemma {:induction false} PassFindsFiles(job: Job, files: set<Vertex>, rules: Rules, n: nat)
    requires Planned(job) && Covers(job, rules) && n <= |job.sorted|
    ensures forall v :: v in job.sorted[..n] && v in files ==> PassUpTo(job, files, rules, n).0[v] == BUILT
    ensures forall v :: v in job.sorted && rules[v] == BUILT ==> PassUpTo(job, files, rules, n).0[v] == BUILT
  {
    hide Planned, Scan;
    if n > 0 {
      PassFindsFiles(job, files, rules, n - 1);
      DependenciesListed(job, job.sorted[n - 1]);
      assert job.sorted[..n] == job.sorted[..n - 1] + [job.sorted[n - 1]];
    }
  }

  /** Somebody runs the rule's commands or is about to publish its result, or has started one of them. */
  ghost predicate Begun(s: State, v: Vertex) {
    || (exists k: nat :: k < |s.workers| && (s.workers[k].Running? || s.workers[k].Reporting?)
                         && s.workers[k].target == v)
    || exists i: nat :: (v, i) in s.started
  }

  /** Built without its commands: nobody has begun with the rule, and it counts as built. */
  ghost predicate Untouched(s: State, v: Vertex) {
    v in s.rules && s.rules[v] == BUILT && !Begun(s, v)
  }

  lemma ReportUntouched(job: Job, s: State, k: nat, files: set<Vertex>, v: Vertex)
    requires Planned(job) && Typed(job, s) && Enabled(s, k) && s.workers[k].Reporting?
    requires v in job.sorted && !Begun(s, v) && (s.rules[v] == BUILT || v in files)
    ensures Untouched(Next(job, s, k, files), v)
  {
    hide Planned, PassUpTo, NoGoalPending;
    assert v != s.workers[k].target;
    PassFindsFiles(job, files, s.rules[s.workers[k].target := s.workers[k].result], |job.sorted|);
    assert job.sorted[..|job.sorted|] == job.sorted;
  }

  lemma StaysUntouched(job: Job, s: State, k: nat, files: set<Vertex>, v: Vertex)
    requires Planned(job) && Typed(job, s) && Enabled(s, k) && v in job.sorted && Untouched(s, v)
    ensures Untouched(Next(job, s, k, files), v)
  {
    hide Pass, NoGoalPending;
    if s.workers[k].Reporting? {
      ReportUntouched(job, s, k, files, v);
    } else {
      hide Planned;
    }
  }

  lemma {:induction false} UntouchedStays(job: Job, threads: nat, ss: seq<State>, files: seq<set<Vertex>>,
          i: nat, j: nat, v: Vertex)
    requires Run(job, threads, ss, files) && i <= j < |ss| && v in job.sorted && Untouched(ss[i], v)
    ensures Untouched(ss[j], v)
    decreases j
  {
    hide Untouched, Next, Typed, Start, TopologicalOrder;
    if i < j {
      UntouchedStays(job, threads, ss, files, i, j - 1, v);
      assert Step(job, ss[j - 1], ss[j - 1 + 1], files[j - 1 + 1]);
      var k: nat :| Typed(job, ss[j - 1]) && Enabled(ss[j - 1], k) && ss[j] == Next(job, ss[j - 1], k, files[j]);
      StaysUntouched(job, ss[j - 1], k, files[j], v);
    }
  }

  /** Some worker publishes its result, and then looks for files. */
  ghost predicate Publishes(s: State, t: State) {
    exists k: nat :: k < |s.workers| == |t.workers| && s.workers[k].Reporting? && !t.workers[k].Reporting?
  }

  lemma PublisherMoves(job: Job, s: State, k: nat, files: set<Vertex>)
    requires Planned(job) && Typed(job, s) && Enabled(s, k) && Publishes(s, Next(job, s, k, files))
    ensures s.workers[k].Reporting?
  {
    hide Pass, NoGoalPending, Planned, Typed;
  }

  lemma PublishFinds(job: Job, s: State, k: nat, files: set<Vertex>, v: Vertex)
    requires Planned(job) && Typed(job, s) && Enabled(s, k) && s.workers[k].Reporting?
    requires v in job.sorted && v in files
    ensures var t := Next(job, s, k, files); v in s.rules && v in t.rules && t.rules[v] == BUILT
  {
    hide TopologicalOrder, PassUpTo, NoGoalPending;
    PassFindsFiles(job, files, s.rules[s.workers[k].target := s.workers[k].result], |job.sorted|);
    assert job.sorted[..|job.sorted|] == job.sorted;
  }

  /** Nobody has begun with a rule that is still pending. */
  lemma PendingNotBegun(job: Job, s: State, v: Vertex)
    requires Sound(job, s) && Logged(job, s) && v in job.sorted && v in s.rules && s.rules[v] == PENDING
    ensures !Begun(s, v)
  {
    hide TopologicalOrder, InOrder, WorkersRan, MayRun, Waiting, Verdicts, AllReady, WorkersKnow;
    assert !Held(s, v);
    forall c: nat ensures (v, c) !in s.started {
      assert (v, c) in s.started ==> Spent(s, (v, c));
    }
  }

  /** On every schedule: when a worker publishes, each target whose file opens then is built, whatever
      its state was; if nobody had begun with its rule, queued or not, it is built in every later state
      and none of its commands is ever run. */
  lemma FilesCount(job: Job, threads: nat, ss: seq<State>, files: seq<set<Vertex>>, i: nat, v: Vertex)
    requires Run(job, threads, ss, files) && i + 1 < |ss| && Publishes(ss[i], ss[i + 1])
    requires v in job.sorted && v in files[i + 1]
    ensures v in ss[i].rules && v in ss[i + 1].rules && ss[i + 1].rules[v] == BUILT
    ensures ss[i].rules[v] == PENDING ==> !Begun(ss[i], v)
    ensures !Begun(ss[i], v) ==> forall j: nat :: i + 1 <= j < |ss| ==> Untouched(ss[j], v)
  {
    hide TopologicalOrder, Logged, Sound, Start, Next, Publishes, Begun, Typed;
    RunPrefix(job, threads, ss, files, i + 1);
    RunsAreSound(job, threads, ss[..i + 1], files[..i + 1]);
    CommandsRunInOrder(job, threads, ss[..i + 1], files[..i + 1]);
    assert ss[..i + 1][i] == ss[i];
    assert Step(job, ss[i], ss[i + 1], files[i + 1]);
    var k: nat :| Typed(job, ss[i]) && Enabled(ss[i], k) && ss[i + 1] == Next(job, ss[i], k, files[i + 1]);
    PublisherMoves(job, ss[i], k, files[i + 1]);
    PublishFinds(job, ss[i], k, files[i + 1], v);
    if ss[i].rules[v] == PENDING {
      PendingNotBegun(job, ss[i], v);
    }
    if !Begun(ss[i], v) {
      ReportUntouched(job, ss[i], k, files[i + 1], v);
      forall j: nat | i + 1 <= j < |ss| ensures Untouched(ss[j], v) {
        UntouchedStays(job, threads, ss, files, i + 1, j, v);
      }
    }
  }

  // ---- what the build saw -----------------------------------------------------------------------

  /** `v` opened before the workers started, or when some worker published. */
  ghost predicate Opened(ss: seq<State>, files: seq<set<Vertex>>, v: Vertex)
    requires |ss| == |files| > 0
  {
    || v in files[0]
    || exists i: nat :: i + 1 < |ss| && Publishes(ss[i], ss[i + 1]) && v in files[i + 1]
  }

  lemma NextSees(job: Job, s: State, k: nat, files: set<Vertex>)
    requires Planned(job) && Typed(job, s) && Enabled(s, k)
    ensures var t := Next(job, s, k, files);
      t.seen == if Publishes(s, t) then s.seen + files else s.seen
  {
    hide Pass, NoGoalPending, Planned, Typed;
    var t := Next(job, s, k, files);
    assert s.workers[k].Reporting? ==> !t.workers[k].Reporting?;
  }

  lemma OpenedMore(ss: seq<State>, files: seq<set<Vertex>>, v: Vertex)
    requires |ss| == |files| > 1
    ensures var n := |ss| - 1;
      Opened(ss, files, v) <==> Opened(ss[..n], files[..n], v) || (Publishes(ss[n - 1], ss[n]) && v in files[n])
  {
    hide Publishes;
    var n := |ss| - 1;
    if Opened(ss, files, v) && v !in files[0] {
      var i: nat :| i + 1 < |ss| && Publishes(ss[i], ss[i + 1]) && v in files[i + 1];
      assert i + 1 < n ==> Publishes(ss[..n][i], ss[..n][i + 1]) && v in files[..n][i + 1];
    }
    if Publishes(ss[n - 1], ss[n]) && v in files[n] {
      assert Publishes(ss[n - 1], ss[n - 1 + 1]);
    }
    if Opened(ss[..n], files[..n], v) && v !in files[0] {
      var i: nat :| i + 1 < n && Publishes(ss[..n][i], ss[..n][i + 1]) && v in files[..n][i + 1];
      assert Publishes(ss[i], ss[i + 1]);
    }
  }

  /** The files the soundness of runs speaks of are exactly those that opened when the build looked. */
  lemma {:induction false} SeenExactly(job: Job, threads: nat, ss: seq<State>, files: seq<set<Vertex>>, v: Vertex)
    requires Run(job, threads, ss, files)
    ensures v in ss[|ss| - 1].seen <==> Opened(ss, files, v)
    decreases |ss|
  {
    hide Planned, Next, Typed, Publishes;
    if |ss| > 1 {
      var n := |ss| - 1;
      var k := RunLastStep(job, threads, ss, files);
      SeenExactly(job, threads, ss[..n], files[..n], v);
      NextSees(job, ss[n - 1], k, files[n]);
      OpenedMore(ss, files, v);
    }
  }

  // ---- before the workers start -----------------------------------------------------------------

  /** What seeding does with a rule is settled in the rule's turn. */
  lemma {:induction false} SeedSettles(job: Job, rules: Rules, m: nat, n: nat)
    requires Planned(job) && Covers(job, rules) && m <= n <= |job.sorted|
    ensures forall u :: u in job.sorted[..m] ==> (u in SeedUpTo(job, rules, n).1 <==> u in SeedUpTo(job, rules, m).1)
  {
    hide TopologicalOrder;
    if m < n {
      SeedSettles(job, rules, m, n - 1);
      DependenciesListed(job, job.sorted[n - 1]);
      NotBefore(job, n - 1);
      assert job.sorted[..m] <= job.sorted[..n - 1];
    }
  }

  lemma SeedTurn(job: Job, files: set<Vertex>, n: nat)
    requires Planned(job) && n < |job.sorted|
    ensures var v := job.sorted[n];
      var q := SeedUpTo(job, FileRules(job, files), n).1;
      && v in job.deps
      && (v in SeedUpTo(job, FileRules(job, files), n + 1).1 <==>
            forall d :: d in job.deps[v] ==> d in files && d !in q)
  {
    var v := job.sorted[n];
    var (before, q) := SeedUpTo(job, FileRules(job, files), n);
    DependenciesListed(job, v);
    SeedPushesListed(job, FileRules(job, files), n);
    NotBefore(job, n);
    hide TopologicalOrder;
    forall d | d in job.deps[v]
      ensures before[d] == BUILT <==> d in files && d !in q
    {
      assert before[d] == if d in q then QUEUED else FileRules(job, files)[d];
    }
  }

  /** Exactly the rules all of whose dependencies opened as files, and were not queued themselves, are
      queued at the start. */
  lemma SeededExactly(job: Job, files: set<Vertex>, threads: nat, v: Vertex)
    requires Planned(job) && v in job.sorted
    ensures v in job.deps
    ensures var q := Start(job, files, threads).queue;
      v in q <==> forall d :: d in job.deps[v] ==> d in files && d !in q
  {
    var i := Position(job.sorted, v);
    var rules := FileRules(job, files);
    SeedTurn(job, files, i);
    SeedSettles(job, rules, i, |job.sorted|);
    SeedSettles(job, rules, i + 1, |job.sorted|);
    assert job.sorted[..i + 1][i] == v;
    forall d | d in job.deps[v] ensures d in job.sorted[..i] {
      DependencyEarlier(job, v, d);
      assert job.sorted[..i][Position(job.sorted, d)] == d;
    }
    hide Planned, SeedUpTo;
  }

  /** A target that opens as a file before the workers start, and is not queued then, is built in every
      state and none of its commands is ever run. */
  lemma FilesAtStart(job: Job, threads: nat, ss: seq<State>, files: seq<set<Vertex>>, v: Vertex, j: nat)
    requires Run(job, threads, ss, files) && j < |ss|
    requires v in job.sorted && v in files[0] && v !in ss[0].queue
    ensures Untouched(ss[j], v)
  {
    hide TopologicalOrder, Step, SeedUpTo;
    SeedPushesListed(job, FileRules(job, files[0]), |job.sorted|);
    assert Untouched(ss[0], v);
    UntouchedStays(job, threads, ss, files, 0, j, v);
  }
}
