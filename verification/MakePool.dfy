/** The worker pool of parallel make: rule states, the job queue, and the region each worker runs
    under the lock once a rule is done. */
module MakePool {
  import opened Digraph
  import opened CycleCheck
  import opened TopoSort

  /** Rule states. */
  const FAILED := -1
  const PENDING := 0
  const BUILT := 1
  const QUEUED := 2

  /** What is fixed during a build.  `commands[v][i]` says whether the i-th command of rule `v`
      exits with status 0. */
  datatype Job = Job(deps: Graph, commands: map<Vertex, seq<bool>>, sorted: seq<Vertex>, goals: seq<Vertex>)

  /** What the cycle check and the sort establish. */
  ghost predicate Planned(job: Job) {
    && TopologicalOrder(job.deps, job.sorted)
    && ROOT !in job.sorted
    && (forall g :: g in job.goals ==> g in job.sorted)
    && (forall v :: v in job.sorted ==> v in job.commands)
  }

  /** From a parsed makefile to the plan of a build: the cycle check and the sort, in turn. */
  method PrepareBuild(dep: DependencyGraph, commands: map<Vertex, seq<bool>>) returns (job: Job)
    requires Rooted(dep.adj) && dep.adj.Keys <= commands.Keys
    modifies dep
    ensures job.commands == commands && job.deps.Keys == old(dep.adj).Keys
    ensures forall v :: v in job.deps && v != ROOT ==> job.deps[v] == old(dep.adj)[v]
    ensures forall g :: g in job.goals <==> g in old(dep.adj)[ROOT] && !ReachesCycle(old(dep.adj), g)
    ensures forall v :: v in job.sorted <==> Needed(old(dep.adj), v)
    ensures Planned(job)
  {
    hide TopologicalOrder, Rooted, Needed, ReachesCycle;
    var sorted := PlanBuild(dep);
    job := Job(dep.adj, commands, sorted.items, dep.adj[ROOT]);
  }

  type Rules = map<Vertex, int>

  /** Every rule of the plan has a state. */
  ghost predicate Covers(job: Job, rules: Rules) {
    forall v :: v in job.sorted ==> v in rules
  }

  /** The verdict on a dependency list: BUILT if all are built, FAILED if a failed one comes before
      any unfinished one, PENDING otherwise. */
  function Scan(deps: seq<Vertex>, rules: Rules): (r: int)
    requires forall d :: d in deps ==> d in rules
    ensures r == BUILT <==> forall d :: d in deps ==> rules[d] == BUILT
    ensures r == FAILED ==> exists d :: d in deps && rules[d] == FAILED
    ensures r == PENDING ==> exists d :: d in deps && rules[d] != BUILT && rules[d] != FAILED
    ensures r == BUILT || r == FAILED || r == PENDING
  {
    if deps == [] then BUILT
    else if rules[deps[0]] == FAILED then FAILED
    else if rules[deps[0]] != BUILT then PENDING
    else Scan(deps[1..], rules)
  }

  lemma DependenciesListed(job: Job, v: Vertex)
    requires Planned(job) && v in job.sorted
    ensures v in job.deps && forall d :: d in job.deps[v] ==> d in job.sorted
  {
    var i :| 0 <= i < |job.sorted| && job.sorted[i] == v;
    forall d | d in job.deps[v]
      ensures d in job.sorted
    {
      assert d in job.sorted[..i];
    }
  }

  lemma NotBefore(job: Job, n: nat)
    requires Planned(job) && n < |job.sorted|
    ensures job.sorted[n] !in job.sorted[..n]
  {
  }

  /** Rule states and queue entries after the pass has considered the first `n` rules; `files` are
      the targets that open as files during this pass. */
  function PassUpTo(job: Job, files: set<Vertex>, rules: Rules, n: nat): (r: (Rules, seq<Vertex>))
    requires Planned(job) && Covers(job, rules) && n <= |job.sorted|
    ensures Covers(job, r.0) && r.0.Keys == rules.Keys
  {
    if n == 0 then (rules, []) else
      var (before, pushed) := PassUpTo(job, files, rules, n - 1);
      var v := job.sorted[n - 1];
      DependenciesListed(job, v);
      var seen := if v in files then before[v := BUILT] else before;
      if seen[v] != PENDING then (seen, pushed) else
        match Scan(job.deps[v], seen)
        case 1 => (seen[v := QUEUED], pushed + [v])
        case -1 => (seen[v := FAILED], pushed)
        case _ => (seen, pushed)
  }

  function Pass(job: Job, files: set<Vertex>, rules: Rules): (r: (Rules, seq<Vertex>))
    requires Planned(job) && Covers(job, rules)
    ensures Covers(job, r.0)
  {
    PassUpTo(job, files, rules, |job.sorted|)
  }

  predicate NoGoalPending(job: Job, rules: Rules)
    requires Planned(job) && Covers(job, rules)
  {
    forall g :: g in job.goals ==> rules[g] != PENDING
  }

  /** Rule states and queue after seeding has considered the first `n` rules. */
  function SeedUpTo(job: Job, rules: Rules, n: nat): (r: (Rules, seq<Vertex>))
    requires Planned(job) && Covers(job, rules) && n <= |job.sorted|
    ensures Covers(job, r.0) && r.0.Keys == rules.Keys
  {
    if n == 0 then (rules, []) else
      var (before, pushed) := SeedUpTo(job, rules, n - 1);
      var v := job.sorted[n - 1];
      DependenciesListed(job, v);
      if forall d :: d in job.deps[v] ==> before[d] == BUILT
      then (before[v := QUEUED], pushed + [v])
      else (before, pushed)
  }

  function FileRules(job: Job, files: set<Vertex>): (r: Rules)
    ensures Covers(job, r)
  {
    map v | v in job.sorted :: if v in files then BUILT else PENDING
  }

  function Seeded(job: Job, files: set<Vertex>): (r: (Rules, seq<Vertex>))
    requires Planned(job)
    ensures Covers(job, r.0)
  {
    var (rules, q) := SeedUpTo(job, FileRules(job, files), |job.sorted|);
    (rules, if job.sorted == [] then [ROOT] else q)
  }

  /** The shared state: the rules' states, and the job queue under its first-in first-out
      contract. */
  class SharedBuild {
    var rules: Rules
    var queue: seq<Vertex>

    /** The part of parmake that runs before the workers exist. */
    constructor (job: Job, files: set<Vertex>)
      requires Planned(job)
      ensures (rules, queue) == Seeded(job, files)
    {
      rules := map v | v in job.sorted :: PENDING;
      queue := [];
      new;
      MarkFiles(job, files);
      SeedQueue(job);
      if |job.sorted| == 0 {
        queue := queue + [ROOT];
        assert queue == [ROOT];
      }
    }

    method MarkFiles(job: Job, files: set<Vertex>)
      requires rules.Keys == FileRules(job, files).Keys
      requires forall v :: v in job.sorted ==> rules[v] == PENDING
      modifies `rules
      ensures rules == FileRules(job, files)
    {
      for i := 0 to |job.sorted|
        invariant rules.Keys == FileRules(job, files).Keys
        invariant forall v :: v in job.sorted ==>
          rules[v] == if v in files && v in job.sorted[..i] then BUILT else PENDING
      {
        assert job.sorted[..i + 1] == job.sorted[..i] + [job.sorted[i]];
        if job.sorted[i] in files {
          rules := rules[job.sorted[i] := BUILT];
        }
      }
      assert job.sorted[..|job.sorted|] == job.sorted;
    }

    method SeedQueue(job: Job)
      requires Planned(job) && Covers(job, rules) && queue == []
      modifies this
      ensures (rules, queue) == SeedUpTo(job, old(rules), |job.sorted|)
    {
      hide TopologicalOrder;
      for i := 0 to |job.sorted|
        invariant (rules, queue) == SeedUpTo(job, old(rules), i)
      {
        var v := job.sorted[i];
        DependenciesListed(job, v);
        var neighbors := job.deps[v];
        var flag := true;
        for j := 0 to |neighbors|
          invariant flag <==> forall k :: 0 <= k < j ==> rules[neighbors[k]] == BUILT
        {
          if rules[neighbors[j]] != BUILT {
            flag := false;
            break;
          }
        }
        if flag {
          rules := rules[v := QUEUED];
          queue := queue + [v];
        }
      }
    }

    /** The region a worker runs under the lock when `target` is done. */
    method FinishRule(job: Job, files: set<Vertex>, target: Vertex, result: int)
      requires Planned(job) && Covers(job, rules) && target in job.sorted
      modifies this
      ensures Covers(job, rules)
      ensures rules == Pass(job, files, old(rules)[target := result]).0
      ensures queue == old(queue) + Pass(job, files, old(rules)[target := result]).1
                       + if NoGoalPending(job, rules) then [ROOT] else []
    {
      hide TopologicalOrder;
      rules := rules[target := result];
      ghost var start := rules;
      for i := 0 to |job.sorted|
        invariant rules == PassUpTo(job, files, start, i).0
        invariant queue == old(queue) + PassUpTo(job, files, start, i).1
      {
        var v := job.sorted[i];
        DependenciesListed(job, v);
        if v in files {
          rules := rules[v := BUILT];
        }
        if rules[v] != PENDING {
          continue;
        }
        ghost var seen := rules;
        var dependencies := job.deps[v];
        var flag := true;
        for j := 0 to |dependencies|
          invariant rules == seen && flag
          invariant Scan(dependencies, seen) == Scan(dependencies[j..], seen)
        {
          if rules[dependencies[j]] == FAILED {
            flag := false;
            rules := rules[v := FAILED];
            break;
          }
          if rules[dependencies[j]] != BUILT {
            flag := false;
            break;
          }
        }
        if flag {
          rules := rules[v := QUEUED];
          queue := queue + [v];
        }
      }
      var none := true;
      for i := 0 to |job.goals|
        invariant none <==> forall j :: 0 <= j < i ==> rules[job.goals[j]] != PENDING
      {
        if rules[job.goals[i]] == PENDING {
          none := false;
          break;
        }
      }
      if none {
        queue := queue + [ROOT];
      }
    }
  }
}
