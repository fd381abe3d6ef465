/** What the worker pool builds: on every schedule, and whatever targets open as files meanwhile, each
    rule's state agrees with a sequential recursive build. */
module MakeSafety {
  import opened Basics
  import opened Digraph
  import opened CycleCheck
  import opened TopoSort
  import opened MakePool
  import opened MakeSteps

  function Position(s: seq<Vertex>, v: Vertex): (i: nat)
    requires v in s
    ensures i < |s| && s[i] == v && forall j :: 0 <= j < i ==> s[j] != v
  {
    if s[0] == v then 0 else 1 + Position(s[1..], v)
  }

  lemma DependencyEarlier(job: Job, v: Vertex, d: Vertex)
    requires Planned(job) && v in job.sorted && v in job.deps && d in job.deps[v]
    ensures d in job.sorted && Position(job.sorted, d) < Position(job.sorted, v)
  {
    var i := Position(job.sorted, v);
    assert d in job.sorted[..i];
    var j :| 0 <= j < i && job.sorted[j] == d;
  }

  predicate CommandsSucceed(job: Job, v: Vertex)
    requires v in job.commands
  {
    forall i :: 0 <= i < |job.commands[v]| ==> job.commands[v][i]
  }

  /** Every dependency builds. */
  ghost predicate Ready(job: Job, files: set<Vertex>, v: Vertex)
    requires Planned(job) && v in job.sorted
    decreases Position(job.sorted, v), 0
  {
    DependenciesListed(job, v);
    forall d :: d in job.deps[v] ==> (DependencyEarlier(job, v, d); SequentialBuild(job, files, d))
  }

  /** The sequential build of one rule when `files` exist: a target that exists is left alone;
      otherwise its dependencies are built recursively, then its own commands run. */
  ghost predicate SequentialBuild(job: Job, files: set<Vertex>, v: Vertex)
    requires Planned(job) && v in job.sorted
    decreases Position(job.sorted, v)
  {
    v in files || (CommandsSucceed(job, v) && Ready(job, files, v))
  }

  /** The whole dependency closure of a rule succeeds. */
  ghost predicate ClosureSucceeds(job: Job, v: Vertex) {
    forall w :: Reaches(job.deps, v, w) ==> w in job.commands && CommandsSucceed(job, w)
  }

  lemma {:induction false} SequentialBuildIsClosure(job: Job, v: Vertex)
    requires Planned(job) && v in job.sorted
    ensures SequentialBuild(job, {}, v) <==> ClosureSucceeds(job, v)
    decreases Position(job.sorted, v)
  {
    DependenciesListed(job, v);
    forall d | d in job.deps[v]
      ensures SequentialBuild(job, {}, d) <==> ClosureSucceeds(job, d)
    {
      DependencyEarlier(job, v, d);
      SequentialBuildIsClosure(job, d);
    }
    forall w
      ensures Reaches(job.deps, v, w) <==> w == v || exists d :: d in job.deps[v] && Reaches(job.deps, d, w)
    {
      ReachesUnfolds(job.deps, v, w);
    }
    if ClosureSucceeds(job, v) {
      forall d | d in job.deps[v]
        ensures ClosureSucceeds(job, d)
      {
        forall w | Reaches(job.deps, d, w) ensures Reaches(job.deps, v, w) {}
      }
    }
  }

  /** More files never hurt. */
  lemma {:induction false} MoreFiles(job: Job, files: set<Vertex>, more: set<Vertex>, v: Vertex)
    requires Planned(job) && v in job.sorted && files <= more
    ensures SequentialBuild(job, files, v) ==> SequentialBuild(job, more, v)
    ensures Ready(job, files, v) ==> Ready(job, more, v)
    decreases Position(job.sorted, v)
  {
    hide TopologicalOrder;
    DependenciesListed(job, v);
    forall d | d in job.deps[v]
      ensures SequentialBuild(job, files, d) ==> SequentialBuild(job, more, d)
    {
      DependencyEarlier(job, v, d);
      MoreFiles(job, files, more, d);
    }
    assert Ready(job, files, v) ==> Ready(job, more, v);
    assert SequentialBuild(job, files, v) <==> v in files || (CommandsSucceed(job, v) && Ready(job, files, v));
  }

  // ---- what the states mean ---------------------------------------------------------------------

  /** A built rule builds with the files seen; a failed one does not without them. */
  ghost predicate Verdict(job: Job, seen: set<Vertex>, rules: Rules, v: Vertex)
    requires Planned(job) && Covers(job, rules) && v in job.sorted
  {
    && FAILED <= rules[v] <= QUEUED
    && (rules[v] == BUILT ==> SequentialBuild(job, seen, v))
    && (rules[v] == FAILED ==> !SequentialBuild(job, {}, v))
  }

  ghost predicate Verdicts(job: Job, seen: set<Vertex>, rules: Rules)
    requires Planned(job) && Covers(job, rules)
  {
    forall v :: v in job.sorted ==> Verdict(job, seen, rules, v)
  }

  /** The rule still waits for a dependency that is unfinished. */
  ghost predicate Waits(job: Job, rules: Rules, v: Vertex)
    requires Planned(job) && Covers(job, rules) && v in job.sorted
  {
    DependenciesListed(job, v);
    exists d :: d in job.deps[v] && (rules[d] == PENDING || rules[d] == QUEUED)
  }

  /** Among the first `n` rules, each pending one waits. */
  ghost predicate Waiting(job: Job, rules: Rules, n: nat)
    requires Planned(job) && Covers(job, rules) && n <= |job.sorted|
  {
    forall i :: 0 <= i < n && rules[job.sorted[i]] == PENDING ==> Waits(job, rules, job.sorted[i])
  }

  /** Every rule of a queue has its dependencies built. */
  ghost predicate AllReady(job: Job, seen: set<Vertex>, q: seq<Vertex>)
    requires Planned(job)
  {
    forall v :: v in q && v != ROOT ==> v in job.sorted && Ready(job, seen, v)
  }

  lemma MoreFilesVerdicts(job: Job, seen: set<Vertex>, more: set<Vertex>, rules: Rules)
    requires Planned(job) && Covers(job, rules) && Verdicts(job, seen, rules) && seen <= more
    ensures Verdicts(job, more, rules)
  {
    hide TopologicalOrder, SequentialBuild;
    forall v | v in job.sorted ensures Verdict(job, more, rules, v) {
      MoreFiles(job, seen, more, v);
      assert Verdict(job, seen, rules, v);
    }
  }

  lemma MoreFilesReady(job: Job, seen: set<Vertex>, more: set<Vertex>, q: seq<Vertex>)
    requires Planned(job) && AllReady(job, seen, q) && seen <= more
    ensures AllReady(job, more, q)
  {
    hide TopologicalOrder, SequentialBuild, Ready;
    forall v | v in q && v != ROOT ensures v in job.sorted && Ready(job, more, v) {
      MoreFiles(job, seen, more, v);
    }
  }

  /** Finishing rule `n`'s turn disturbs no earlier rule. */
  lemma SettleWaiting(job: Job, rules: Rules, n: nat, state: int)
    requires Planned(job) && Covers(job, rules) && n < |job.sorted| && Waiting(job, rules, n)
    ensures Waiting(job, rules[job.sorted[n] := state], n)
    ensures state != PENDING || Waits(job, rules[job.sorted[n] := state], job.sorted[n]) ==>
      Waiting(job, rules[job.sorted[n] := state], n + 1)
  {
    var v := job.sorted[n];
    var after := rules[v := state];
    forall i | 0 <= i < n && after[job.sorted[i]] == PENDING
      ensures Waits(job, after, job.sorted[i])
    {
      DependenciesListed(job, job.sorted[i]);
      assert Waits(job, rules, job.sorted[i]);
      var d :| d in job.deps[job.sorted[i]] && (rules[d] == PENDING || rules[d] == QUEUED);
      assert d in job.sorted[..i];
      assert d != v;
    }
  }

  lemma SettleVerdicts(job: Job, seen: set<Vertex>, rules: Rules, v: Vertex, state: int)
    requires Planned(job) && Covers(job, rules) && Verdicts(job, seen, rules) && v in job.sorted
    requires FAILED <= state <= QUEUED
    requires state == BUILT ==> SequentialBuild(job, seen, v)
    requires state == FAILED ==> !SequentialBuild(job, {}, v)
    ensures Verdicts(job, seen, rules[v := state])
  {
    hide TopologicalOrder, SequentialBuild;
    forall u | u in job.sorted ensures Verdict(job, seen, rules[v := state], u) {
      assert Verdict(job, seen, rules, u);
    }
  }

  lemma FailedDependency(job: Job, v: Vertex, d: Vertex)
    requires Planned(job) && v in job.sorted && v in job.deps && d in job.deps[v] && d in job.sorted
    requires !SequentialBuild(job, {}, d)
    ensures !SequentialBuild(job, {}, v)
  {
    hide TopologicalOrder;
    DependencyEarlier(job, v, d);
  }

  /** What scanning the dependencies of a rule tells. */
  lemma ScanMeaning(job: Job, seen: set<Vertex>, rules: Rules, v: Vertex)
    requires Planned(job) && Covers(job, rules) && Verdicts(job, seen, rules) && v in job.sorted
    requires v in job.deps && forall d :: d in job.deps[v] ==> d in rules
    ensures Scan(job.deps[v], rules) == BUILT ==> Ready(job, seen, v)
    ensures Scan(job.deps[v], rules) == FAILED ==> !SequentialBuild(job, {}, v)
    ensures Scan(job.deps[v], rules) == PENDING ==> Waits(job, rules, v)
  {
    hide TopologicalOrder, Scan;
    DependenciesListed(job, v);
    var verdict := Scan(job.deps[v], rules);
    if verdict == FAILED {
      var d :| d in job.deps[v] && rules[d] == FAILED;
      assert Verdict(job, seen, rules, d);
      FailedDependency(job, v, d);
    } else if verdict == PENDING {
      var d :| d in job.deps[v] && rules[d] != BUILT && rules[d] != FAILED;
      assert Verdict(job, seen, rules, d);
    } else {
      forall d | d in job.deps[v] ensures SequentialBuild(job, seen, d) {
        assert Verdict(job, seen, rules, d);
      }
    }
  }

  lemma FileBuilds(job: Job, seen: set<Vertex>, v: Vertex)
    requires Planned(job) && v in job.sorted && v in seen
    ensures SequentialBuild(job, seen, v)
  {
  }

  /** One rule's turn in a pass. */
  lemma TurnMeaning(job: Job, files: set<Vertex>, seen: set<Vertex>, rules: Rules, n: nat)
    requires Planned(job) && Covers(job, rules) && n < |job.sorted| && files <= seen
    requires var (before, pushed) := PassUpTo(job, files, rules, n);
      Verdicts(job, seen, before) && Waiting(job, before, n) && AllReady(job, seen, pushed)
    ensures var (after, all) := PassUpTo(job, files, rules, n + 1);
      Verdicts(job, seen, after) && Waiting(job, after, n + 1) && AllReady(job, seen, all)
  {
    hide TopologicalOrder, Verdicts, Waiting, Scan, SequentialBuild, Ready, Waits;
    var (before, pushed) := PassUpTo(job, files, rules, n);
    var v := job.sorted[n];
    DependenciesListed(job, v);
    var now := if v in files then before[v := BUILT] else before;
    if v in files {
      FileBuilds(job, seen, v);
      SettleVerdicts(job, seen, before, v, BUILT);
      SettleWaiting(job, before, n, BUILT);
    }
    if now[v] != PENDING {
      assert now[v := now[v]] == now;
      SettleWaiting(job, now, n, now[v]);
    } else {
      ScanMeaning(job, seen, now, v);
      assert now[v := PENDING] == now;
      SettleWaiting(job, now, n, PENDING);
      SettleWaiting(job, now, n, QUEUED);
      SettleVerdicts(job, seen, now, v, QUEUED);
      if Scan(job.deps[v], now) == FAILED {
        SettleWaiting(job, now, n, FAILED);
        SettleVerdicts(job, seen, now, v, FAILED);
      }
    }
  }

  /** After a pass every state is right, every pending rule waits for an unfinished dependency, and
      what was queued is ready. */
  lemma {:induction false} PassMeaning(job: Job, files: set<Vertex>, seen: set<Vertex>, rules: Rules, n: nat)
    requires Planned(job) && Covers(job, rules) && Verdicts(job, seen, rules) && n <= |job.sorted| && files <= seen
    ensures var (after, pushed) := PassUpTo(job, files, rules, n);
      Verdicts(job, seen, after) && Waiting(job, after, n) && AllReady(job, seen, pushed)
  {
    hide Verdicts, TopologicalOrder, Scan;
    if n > 0 {
      PassMeaning(job, files, seen, rules, n - 1);
      TurnMeaning(job, files, seen, rules, n - 1);
    }
  }

  /** A rule that is queued after a pass was queued before or has just been pushed. */
  lemma {:induction false} PassQueues(job: Job, files: set<Vertex>, rules: Rules, n: nat)
    requires Planned(job) && Covers(job, rules) && n <= |job.sorted|
    ensures forall v :: v in job.sorted && PassUpTo(job, files, rules, n).0[v] == QUEUED ==>
      rules[v] == QUEUED || v in PassUpTo(job, files, rules, n).1
  {
    hide TopologicalOrder, PassUpTo, Scan;
    PassShape(job, files, rules, n);
    if n > 0 {
      PassQueues(job, files, rules, n - 1);
    }
  }

  /** The files found before the build make their rules built. */
  lemma FreshVerdicts(job: Job, files: set<Vertex>)
    requires Planned(job)
    ensures Verdicts(job, files, FileRules(job, files))
  {
  }

  lemma NobodyWaits(job: Job, rules: Rules)
    requires Planned(job) && Covers(job, rules)
    ensures Waiting(job, rules, 0)
  {
  }

  /** Seeding leaves no failed rule, and what it queues is ready. */
  lemma {:induction false} SeedMeaning(job: Job, files: set<Vertex>, n: nat)
    requires Planned(job) && n <= |job.sorted|
    ensures var (rules, q) := SeedUpTo(job, FileRules(job, files), n);
      && Verdicts(job, files, rules) && Waiting(job, rules, n) && AllReady(job, files, q)
      && (forall v :: v in job.sorted ==> rules[v] != FAILED)
  {
    hide Verdicts, TopologicalOrder, Waiting, SequentialBuild, Ready, Waits;
    if n == 0 {
      FreshVerdicts(job, files);
      NobodyWaits(job, FileRules(job, files));
    } else {
      SeedMeaning(job, files, n - 1);
      var (before, q) := SeedUpTo(job, FileRules(job, files), n - 1);
      var v := job.sorted[n - 1];
      DependenciesListed(job, v);
      ScanMeaning(job, files, before, v);
      SettleVerdicts(job, files, before, v, QUEUED);
      SettleWaiting(job, before, n - 1, QUEUED);
      assert before[v := before[v]] == before;
      SettleWaiting(job, before, n - 1, before[v]);
    }
  }

  // ---- who has which rule -----------------------------------------------------------------------

  /** What a worker knows at its point of the loop. */
  ghost predicate WorkerKnows(job: Job, seen: set<Vertex>, w: Worker)
    requires Planned(job) && (Holds(w) ==> w.target in job.sorted)
  {
    && (Holds(w) ==> Ready(job, seen, w.target))
    && match w
       case Deciding(v, flag) => flag != 0 ==> !SequentialBuild(job, {}, v)
       case Running(v, i) => i <= |job.commands[v]| && forall j :: 0 <= j < i ==> job.commands[v][j]
       case Reporting(v, result) =>
         && (result == BUILT || result == FAILED)
         && (if result == BUILT then CommandsSucceed(job, v) else !SequentialBuild(job, {}, v))
       case _ => true
  }

  ghost predicate Held(s: State, v: Vertex) {
    exists i :: 0 <= i < |s.workers| && Holds(s.workers[i]) && s.workers[i].target == v
  }

  /** A rule is at most once in the queue or with one worker, and then it is not pending; a queued rule
      is in one of these places. */
  ghost predicate OnePlace(job: Job, s: State)
    requires Typed(job, s)
  {
    && (forall i, j :: 0 <= i < j < |s.queue| && s.queue[i] != ROOT ==> s.queue[i] != s.queue[j])
    && (forall i, j :: 0 <= i < j < |s.workers| && Holds(s.workers[i]) && Holds(s.workers[j]) ==>
          s.workers[i].target != s.workers[j].target)
    && (forall i :: 0 <= i < |s.workers| && Holds(s.workers[i]) ==> s.workers[i].target !in s.queue)
    && (forall v :: v in job.sorted && v != ROOT && (v in s.queue || Held(s, v)) ==> s.rules[v] != PENDING)
    && (forall v :: v in job.sorted && s.rules[v] == QUEUED ==> v in s.queue || Held(s, v))
  }

  ghost predicate WorkersKnow(job: Job, s: State)
    requires Planned(job) && Typed(job, s)
  {
    forall k :: 0 <= k < |s.workers| ==> WorkerKnows(job, s.seen, s.workers[k])
  }

  ghost predicate Sound(job: Job, s: State) {
    && Planned(job) && Typed(job, s)
    && Verdicts(job, s.seen, s.rules) && Waiting(job, s.rules, |job.sorted|)
    && WorkersKnow(job, s) && AllReady(job, s.seen, s.queue)
    && OnePlace(job, s)
  }

  lemma StartSound(job: Job, files: set<Vertex>, threads: nat)
    requires Planned(job)
    ensures Sound(job, Start(job, files, threads))
  {
    hide TopologicalOrder, Verdicts, Waiting, SequentialBuild, Ready, SeedUpTo;
    var s := Start(job, files, threads);
    StartTyped(job, files, threads);
    SeedMeaning(job, files, |job.sorted|);
    SeedPushesListed(job, FileRules(job, files), |job.sorted|);
    assert forall v :: v in job.sorted ==> FileRules(job, files)[v] != QUEUED;
  }

  /** Moving worker `k` among rules it holds or lets go changes nobody else's hold. */
  lemma HeldAfter(s: State, t: State, k: nat)
    requires k < |s.workers| == |t.workers| && t.workers == s.workers[k := t.workers[k]]
    ensures forall u :: Held(t, u) ==> Held(s, u) || (Holds(t.workers[k]) && t.workers[k].target == u)
    ensures forall u :: Held(s, u) ==> Held(t, u) || (Holds(s.workers[k]) && s.workers[k].target == u)
    ensures Holds(t.workers[k]) ==> Held(t, t.workers[k].target)
    ensures Holds(s.workers[k]) ==> Held(s, s.workers[k].target)
  {
    forall u | Held(t, u) && !(Holds(t.workers[k]) && t.workers[k].target == u)
      ensures Held(s, u)
    {
      var i :| 0 <= i < |t.workers| && Holds(t.workers[i]) && t.workers[i].target == u;
      assert s.workers[i] == t.workers[i];
    }
    forall u | Held(s, u) && !(Holds(s.workers[k]) && s.workers[k].target == u)
      ensures Held(t, u)
    {
      var i :| 0 <= i < |s.workers| && Holds(s.workers[i]) && s.workers[i].target == u;
      assert t.workers[i] == s.workers[i];
    }
  }

  lemma PullPlaces(job: Job, s: State, t: State, k: nat)
    requires Planned(job) && Typed(job, s) && Typed(job, t) && OnePlace(job, s) && k < |s.workers| == |t.workers|
    requires t.rules == s.rules && t.workers == s.workers[k := t.workers[k]] && !Holds(s.workers[k])
    requires s.queue != [] && t.queue == s.queue[1..]
    requires if s.queue[0] == ROOT then !Holds(t.workers[k])
             else Holds(t.workers[k]) && t.workers[k].target == s.queue[0]
    ensures OnePlace(job, t)
  {
    HeldAfter(s, t, k);
    assert s.queue == [s.queue[0]] + t.queue;
    assert forall i :: 0 <= i < |t.queue| ==> t.queue[i] == s.queue[i + 1];
    hide Held, TopologicalOrder;
    forall i, j | 0 <= i < j < |t.workers| && Holds(t.workers[i]) && Holds(t.workers[j])
      ensures t.workers[i].target != t.workers[j].target
    {
      assert i != k ==> t.workers[i] == s.workers[i];
      assert j != k ==> t.workers[j] == s.workers[j];
    }
  }

  lemma PullSound(job: Job, s: State, k: nat, files: set<Vertex>)
    requires Sound(job, s) && Enabled(s, k) && s.workers[k].Idle?
    ensures Sound(job, Next(job, s, k, files))
  {
    hide TopologicalOrder, Waiting, Verdicts, SequentialBuild, Ready, OnePlace;
    var t := Next(job, s, k, files);
    NextTyped(job, s, k, files);
    PullPlaces(job, s, t, k);
    assert s.queue == [s.queue[0]] + t.queue;
  }

  lemma SamePlaces(job: Job, s: State, t: State, k: nat)
    requires Typed(job, s) && Typed(job, t) && OnePlace(job, s) && k < |s.workers| == |t.workers|
    requires t.rules == s.rules && t.queue == s.queue && t.workers == s.workers[k := t.workers[k]]
    requires Holds(s.workers[k])
    requires if Holds(t.workers[k]) then t.workers[k].target == s.workers[k].target
             else s.rules[s.workers[k].target] != QUEUED
    ensures OnePlace(job, t)
  {
    HeldAfter(s, t, k);
    hide Held;
  }

  lemma KnowsMore(job: Job, s: State, k: nat, files: set<Vertex>)
    requires Sound(job, s) && Enabled(s, k) && Holds(s.workers[k]) && !s.workers[k].Reporting?
    ensures k < |Next(job, s, k, files).workers|
    ensures var w := Next(job, s, k, files).workers[k];
      (Holds(w) ==> w.target == s.workers[k].target) && (Holds(w) ==> WorkerKnows(job, s.seen, w))
  {
    hide TopologicalOrder, Waiting, OnePlace, AllReady, Ready;
    var v := s.workers[k].target;
    assert WorkerKnows(job, s.seen, s.workers[k]);
    DependenciesListed(job, v);
    match s.workers[k]
    case Checking(_, i) =>
      if i < |job.deps[v]| && s.rules[job.deps[v][i]] == FAILED {
        assert Verdict(job, s.seen, s.rules, job.deps[v][i]);
        FailedDependency(job, v, job.deps[v][i]);
      }
    case Running(_, i) =>
      if i < |job.commands[v]| && !job.commands[v][i] {
        assert !CommandsSucceed(job, v);
      }
    case _ =>
  }

  /** A worker that moves on within its rule, or drops it because it is built already. */
  lemma HoldSound(job: Job, s: State, k: nat, files: set<Vertex>)
    requires Sound(job, s) && Enabled(s, k)
    requires Holds(s.workers[k]) && !s.workers[k].Reporting?
    ensures Sound(job, Next(job, s, k, files))
  {
    hide TopologicalOrder, Waiting, Verdicts, OnePlace, AllReady, Ready;
    var t := Next(job, s, k, files);
    NextTyped(job, s, k, files);
    KnowsMore(job, s, k, files);
    hide WorkerKnows, SequentialBuild;
    SamePlaces(job, s, t, k);
  }

  lemma RepostSound(job: Job, s: State, k: nat, files: set<Vertex>)
    requires Sound(job, s) && Enabled(s, k) && s.workers[k].Reposting?
    ensures Sound(job, Next(job, s, k, files))
  {
    hide TopologicalOrder, Waiting, Verdicts, SequentialBuild, Ready;
    var t := Next(job, s, k, files);
    NextTyped(job, s, k, files);
    HeldAfter(s, t, k);
    hide Held;
    forall i, j | 0 <= i < j < |t.queue| && t.queue[i] != ROOT
      ensures t.queue[i] != t.queue[j]
    {
      assert t.queue[i] == s.queue[i];
    }
  }

  lemma Gone(job: Job, s: State, t: State, k: nat)
    requires Typed(job, s) && OnePlace(job, s) && k < |s.workers| && Holds(s.workers[k])
    requires t.workers == s.workers[k := Idle]
    ensures !Held(t, s.workers[k].target)
  {
  }

  lemma QueuesJoin(job: Job, a: seq<Vertex>, b: seq<Vertex>, c: seq<Vertex>)
    requires forall i, j :: 0 <= i < j < |a| && a[i] != ROOT ==> a[i] != a[j]
    requires Distinct(b) && ROOT !in b && (forall v :: v in b ==> v !in a)
    requires forall v :: v in c ==> v == ROOT
    ensures forall i, j :: 0 <= i < j < |a + b + c| && (a + b + c)[i] != ROOT ==> (a + b + c)[i] != (a + b + c)[j]
    ensures forall v :: v in a + b + c <==> v in a || v in b || v in c
  {
    forall i, j | 0 <= i < j < |a + b + c| && (a + b + c)[i] != ROOT
      ensures (a + b + c)[i] != (a + b + c)[j]
    {
      if i < |a| <= j < |a| + |b| {
        assert a[i] in a && b[j - |a|] in b;
      } else if |a| <= i && j < |a| + |b| {
        assert b[i - |a|] != b[j - |a|];
      } else if |a| + |b| <= j {
        assert c[j - |a| - |b|] in c;
      }
    }
  }

  lemma ReportPlaces(job: Job, s: State, t: State, k: nat, files: set<Vertex>, result: int, sentinel: seq<Vertex>)
    requires Planned(job) && Typed(job, s) && Typed(job, t) && OnePlace(job, s)
    requires k < |s.workers| && Holds(s.workers[k]) && t.workers == s.workers[k := Idle]
    requires result == BUILT || result == FAILED
    requires forall v :: v in sentinel ==> v == ROOT
    requires t.rules == Pass(job, files, s.rules[s.workers[k].target := result]).0
    requires t.queue == s.queue + Pass(job, files, s.rules[s.workers[k].target := result]).1 + sentinel
    ensures OnePlace(job, t)
  {
    hide TopologicalOrder, PassUpTo;
    var v := s.workers[k].target;
    var rules := s.rules[v := result];
    var pushed := Pass(job, files, rules).1;
    HeldAfter(s, t, k);
    assert forall i :: 0 <= i < |t.workers| && Holds(t.workers[i]) ==>
      t.workers[i] == s.workers[i] && Held(s, t.workers[i].target);
    hide Held;
    PassQueues(job, files, rules, |job.sorted|);
    PassPushesListed(job, files, rules, |job.sorted|);
    assert !Held(t, v) by { Gone(job, s, t, k); }
    forall u | u in pushed
      ensures u !in s.queue && !Held(s, u)
    {
      assert rules[u] == PENDING && u in job.sorted && u != ROOT;
    }
    QueuesJoin(job, s.queue, pushed, sentinel);
  }

  lemma ReadyJoin(job: Job, seen: set<Vertex>, a: seq<Vertex>, b: seq<Vertex>, c: seq<Vertex>)
    requires Planned(job) && AllReady(job, seen, a) && AllReady(job, seen, b) && forall v :: v in c ==> v == ROOT
    ensures AllReady(job, seen, a + b + c)
  {
    hide Ready;
  }

  lemma ReportKnows(job: Job, s: State, t: State, k: nat, seen: set<Vertex>)
    requires Planned(job) && Typed(job, s) && Typed(job, t) && WorkersKnow(job, s) && s.seen <= seen == t.seen
    requires k < |s.workers| && t.workers == s.workers[k := Idle]
    ensures WorkersKnow(job, t)
  {
    hide TopologicalOrder, SequentialBuild, Ready;
    forall i | 0 <= i < |t.workers| ensures WorkerKnows(job, seen, t.workers[i]) {
      assert WorkerKnows(job, s.seen, s.workers[i]);
      if Holds(t.workers[i]) {
        MoreFiles(job, s.seen, seen, t.workers[i].target);
      }
    }
  }

  lemma ReportSound(job: Job, s: State, k: nat, files: set<Vertex>)
    requires Sound(job, s) && Enabled(s, k) && s.workers[k].Reporting?
    ensures Sound(job, Next(job, s, k, files))
  {
    hide TopologicalOrder, Waiting, Verdicts, PassUpTo, OnePlace, AllReady, Ready, NoGoalPending;
    var t := Next(job, s, k, files);
    NextTyped(job, s, k, files);
    var v := s.workers[k].target;
    var result := s.workers[k].result;
    assert WorkerKnows(job, s.seen, s.workers[k]);
    var seen := s.seen + files;
    hide WorkerKnows;
    SettleVerdicts(job, s.seen, s.rules, v, result);
    MoreFilesVerdicts(job, s.seen, seen, s.rules[v := result]);
    hide SequentialBuild;
    PassMeaning(job, files, seen, s.rules[v := result], |job.sorted|);
    var sentinel := if NoGoalPending(job, t.rules) then [ROOT] else [];
    var pushed := Pass(job, files, s.rules[v := result]).1;
    MoreFilesReady(job, s.seen, seen, s.queue);
    ReadyJoin(job, seen, s.queue, pushed, sentinel);
    ReportPlaces(job, s, t, k, files, result, sentinel);
    ReportKnows(job, s, t, k, seen);
  }

  lemma SoundStep(job: Job, s: State, k: nat, files: set<Vertex>)
    requires Sound(job, s) && Enabled(s, k)
    ensures Sound(job, Next(job, s, k, files))
  {
    hide Verdicts, Waiting, OnePlace, WorkersKnow, AllReady, Next;
    match s.workers[k] {
      case Idle => PullSound(job, s, k, files);
      case Reposting => RepostSound(job, s, k, files);
      case Reporting(_, _) => ReportSound(job, s, k, files);
      case _ => HoldSound(job, s, k, files);
    }
  }

  /** The invariant holds after every run, for every number of workers and any files that open. */
  lemma {:induction false} RunsAreSound(job: Job, threads: nat, ss: seq<State>, files: seq<set<Vertex>>)
    requires Run(job, threads, ss, files)
    ensures Sound(job, ss[|ss| - 1])
    decreases |ss|
  {
    hide Sound, Next, Typed, Start, Planned;
    var n := |ss| - 1;
    if n == 0 {
      StartSound(job, files[0], threads);
    } else {
      var k := RunLastStep(job, threads, ss, files);
      RunsAreSound(job, threads, ss[..n], files[..n]);
      SoundStep(job, ss[n - 1], k, files[n]);
    }
  }

  lemma StartSees(job: Job, threads: nat)
    requires Planned(job)
    ensures Start(job, {}, threads).seen == {}
  {
  }

  /** When nothing opens as a file, nothing has been seen to. */
  lemma {:induction false} QuietSeesNothing(job: Job, threads: nat, ss: seq<State>)
    requires QuietRun(job, threads, ss)
    ensures ss[|ss| - 1].seen == {}
    decreases |ss|
  {
    hide Typed, Planned, Start;
    var n := |ss| - 1;
    var files: seq<set<Vertex>> := seq(|ss|, _ => {});
    if n == 0 {
      StartSees(job, threads);
    } else {
      var k := RunLastStep(job, threads, ss, files);
      assert files[..n] == seq(|ss[..n]|, _ => {});
      QuietSeesNothing(job, threads, ss[..n]);
    }
  }
}
