/** What every run of the password search prints, and that every run ends. */
module CrackerOutcome {
  import opened Basics
  import opened Cracker
  import opened CrackerRounds

  // ---- the barrier ------------------------------------------------------------------------------

  lemma ShareSearched(c: Task, s: State, r: nat, holders: seq<nat>, k: nat, i: nat)
    requires Legal(c) && SearchPhase(c, s, r, holders) && !s.found && r < |c.users| && |holders| == c.threads
    requires forall k: nat :: k < |s.threads| ==> s.threads[k].FirstBarrier?
    ensures !IsHit(c, Work(r, k), i)
  {
    if k < c.threads {
      assert HasPart(s.threads, holders[k], k);
      ThreadSearching(c, s, r, holders, holders[k]);
      assert s.threads[holders[k]].work == Work(r, k);
    }
  }

  /** With everyone at the first barrier, every share has been searched unless the answer was found. */
  lemma AllSearched(c: Task, s: State, r: nat, holders: seq<nat>)
    requires Legal(c) && SearchPhase(c, s, r, holders) && CanTrip(s)
    ensures r < |c.users| && |holders| == c.threads
    ensures forall k: nat :: k < |s.threads| ==> s.threads[k].FirstBarrier?
    ensures !s.complete && PendingSum(s.threads) == 0
    ensures s.found <==> Findable(c, r)
  {
    forall k: nat | k < |s.threads| ensures s.threads[k].FirstBarrier? {
      ThreadSearching(c, s, r, holders, k);
    }
    HoldersCount(s.threads, holders);
    NothingPending(s.threads);
    ThreadSearching(c, s, r, holders, 0);
    assert Announced(s.threads[0]);
    hide AllSearching, AllTruthful, NotYet, Shape, Hashes, Rounds, PendingSum, QueueAt, Searching, NobodyAnnounced;
    if s.found {
      var k: nat :| IsHit(c, Work(r, k), s.answer);
    } else if Findable(c, r) {
      var k: nat, i: nat :| IsHit(c, Work(r, k), i);
      ShareSearched(c, s, r, holders, k, i);
      assert false;
    }
  }

  lemma TripCloses(c: Task, s: State, r: nat, holders: seq<nat>)
    requires Legal(c) && SearchPhase(c, s, r, holders) && CanTrip(s)
    ensures ClosePhase(c, Trip(s), r)
  {
    AllSearched(c, s, r, holders);
    forall k: nat | k < |s.threads|
      ensures ClosingThread(c, r, Trip(s).threads[k]) && !Trip(s).threads[k].SecondBarrier?
    {
      ThreadSearching(c, s, r, holders, k);
    }
    hide AllSearching, AllTruthful, NotYet, Shape, Hashes, Rounds, PendingSum, QueueAt, Searching, NobodyAnnounced,
      Findable, Holders;
  }

  lemma NextRound(c: Task, queue: seq<Option<Work>>, r: nat)
    requires c.threads > 0 && QueueAt(c, queue, r, c.threads)
    ensures QueueAt(c, queue, r + 1, 0)
  {
    assert (r + 1) * c.threads == r * c.threads + c.threads;
  }

  lemma TripOpens(c: Task, s: State, r: nat)
    requires Legal(c) && ClosePhase(c, s, r) && CanTrip(s)
    ensures SearchPhase(c, Trip(s), r + 1, [])
  {
    var n := Trip(s);
    forall k: nat | k < |s.threads| ensures n.threads[k] == Pulling && s.threads[k].SecondBarrier? {
      assert ClosingThread(c, r, s.threads[k]);
    }
    assert s.threads[0].SecondBarrier?;
    assert s.complete;
    NothingPending(n.threads);
    NextRound(c, s.queue, r);
    hide AllTruthful, Shape, Hashes, PendingSum, QueueAt, AllClosing;
    assert NobodyAnnounced(n.threads) && AllSearching(c, r + 1, n.threads) && AllUnlucky(c, n.threads);
    assert Rounds(r + 1) == Rounds(r) + [(true, r)] + [(false, r)];
    assert Rounds(r + 1) + [] == Rounds(r + 1);
    assert Holders(n.threads, []);
    assert Hashes(s.log, r + 1) == 0;
  }

  // ---- the summary ------------------------------------------------------------------------------

  lemma SomebodySummed(ts: seq<Thread>, k: nat)
    requires k < |ts| && ts[k].SecondBarrier?
    ensures !NobodySummed(ts)
  {
  }

  lemma NotYetMore(log: seq<Event>, e: Event, r: nat)
    requires NotYet(log, r) && !e.Hashed?
    ensures NotYet(log + [e], r)
  {
    LogMore(log, e);
    hide Hashes;
  }

  lemma SummaryTruthful(c: Task, s: State, r: nat)
    requires ClosePhase(c, s, r) && !s.complete
    ensures Truthful(c, s.log, Summary(r, s.answer, s.hashCount, s.found))
  {
    hide Findable;
  }

  lemma CloseKeeps(c: Task, s: State, r: nat, k: nat)
    requires Legal(c) && ClosePhase(c, s, r) && Enabled(c, s, k)
    ensures ClosePhase(c, Next(c, s, k), r)
  {
    hide AllTruthful, Shape, Hashes, QueueAt, Rounds, Findable, NotYet;
    var n := Next(c, s, k);
    assert ClosingThread(c, r, s.threads[k]);
    assert ClosingThread(c, r, n.threads[k]) && n.threads[k].SecondBarrier?;
    assert AllClosing(c, r, n.threads);
    hide AllClosing, ClosingThread, NobodySummed;
    if !s.complete {
      var e := Summary(r, s.answer, s.hashCount, s.found);
      LogMore(s.log, e);
      SummaryTruthful(c, s, r);
      TruthfulMore(c, s.log, e);
      NotYetMore(s.log, e, r);
    }
    SomebodySummed(n.threads, k);
  }

  // ---- every run --------------------------------------------------------------------------------

  lemma SearchStepKeeps(c: Task, s: State, r: nat, holders: seq<nat>, k: nat) returns (more: seq<nat>)
    requires Legal(c) && SearchPhase(c, s, r, holders) && Enabled(c, s, k)
    ensures SearchPhase(c, Next(c, s, k), r, more)
    ensures more == if s.threads[k].Pulling? then holders + [k] else holders
  {
    more := holders;
    ThreadSearching(c, s, r, holders, k);
    hide SearchPhase, Next;
    match s.threads[k]
    case Pulling =>
      PullKeeps(c, s, r, holders, k);
      more := holders + [k];
    case Announcing(_) => AnnounceKeeps(c, s, r, holders, k);
    case Looking(_, _, _, _) => LookKeeps(c, s, r, holders, k);
    case Trying(_, _, _, _) => TryKeeps(c, s, r, holders, k);
    case Adding(_, _) => LookKeeps(c, s, r, holders, k);
  }

  lemma StepAligns(c: Task, s: State, t: State)
    requires Legal(c) && Aligned(c, s) && Step(c, s, t)
    ensures Aligned(c, t)
  {
    hide SearchPhase, ClosePhase, Next, CanTrip, Enabled;
    if exists r: nat, holders: seq<nat> :: SearchPhase(c, s, r, holders) {
      var r: nat, holders: seq<nat> :| SearchPhase(c, s, r, holders);
      if k: nat :| Enabled(c, s, k) && t == Next(c, s, k) {
        var more := SearchStepKeeps(c, s, r, holders, k);
      } else {
        TripCloses(c, s, r, holders);
      }
    } else {
      var r: nat :| ClosePhase(c, s, r);
      if k: nat :| Enabled(c, s, k) && t == Next(c, s, k) {
        CloseKeeps(c, s, r, k);
      } else {
        TripOpens(c, s, r);
      }
    }
  }

  lemma StartAligned(c: Task)
    requires Legal(c)
    ensures Aligned(c, Start(c))
  {
    var s := Start(c);
    NothingPending(s.threads);
    assert Items(c)[0..] == Items(c);
    assert Shape([]) == Rounds(0) + [];
    assert SearchPhase(c, s, 0, []);
  }

  /** In every interleaving the rounds line up with the users. */
  lemma {:induction false} RunsAlign(c: Task, ss: seq<State>)
    requires Run(c, ss)
    ensures Aligned(c, ss[|ss| - 1])
    decreases |ss|
  {
    hide Aligned, Step, Start;
    var n := |ss| - 1;
    if n == 0 {
      StartAligned(c);
    } else {
      RunsAlign(c, ss[..n]);
      assert Step(c, ss[n - 1], ss[n]);
      StepAligns(c, ss[n - 1], ss[n]);
    }
  }

  // ---- what is printed --------------------------------------------------------------------------

  lemma PartsDiffer(ts: seq<Thread>, holders: seq<nat>, i: nat, j: nat)
    requires Holders(ts, holders) && i < |ts| && j < |ts| && i != j && Holds(ts[i]) && Holds(ts[j])
    ensures ts[i].work.part != ts[j].work.part
  {
    var a: nat :| a < |holders| && holders[a] == i;
    var b: nat :| b < |holders| && holders[b] == j;
    assert HasPart(ts, holders[a], a) && HasPart(ts, holders[b], b);
  }

  /** Threads that hold work at the same time hold shares of the same user, and different shares until
      the first barrier opens. */
  lemma SameUser(c: Task, ss: seq<State>, i: nat, j: nat)
    requires Run(c, ss) && i < |ss[|ss| - 1].threads| && j < |ss[|ss| - 1].threads|
    requires var ts := ss[|ss| - 1].threads; Holds(ts[i]) && Holds(ts[j])
    ensures var ts := ss[|ss| - 1].threads;
      && ts[i].work.user == ts[j].work.user
      && (i != j && !ts[i].Summing? && !ts[i].SecondBarrier? ==> ts[i].work.part != ts[j].work.part)
  {
    RunsAlign(c, ss);
    var s := ss[|ss| - 1];
    if exists r: nat, holders: seq<nat> :: SearchPhase(c, s, r, holders) {
      var r: nat, holders: seq<nat> :| SearchPhase(c, s, r, holders);
      ThreadSearching(c, s, r, holders, i);
      ThreadSearching(c, s, r, holders, j);
      if i != j {
        PartsDiffer(s.threads, holders, i, j);
      }
    } else {
      var r: nat :| ClosePhase(c, s, r);
      assert ClosingThread(c, r, s.threads[i]) && ClosingThread(c, r, s.threads[j]);
    }
  }

  predicate AllExited(s: State) {
    forall k: nat :: k < |s.threads| ==> s.threads[k].Exited?
  }

  lemma ClosingHolds(c: Task, s: State, r: nat)
    requires ClosePhase(c, s, r)
    ensures !AllExited(s) && !s.threads[0].FirstBarrier?
  {
    assert ClosingThread(c, r, s.threads[0]);
  }

  /** When the first barrier opens, each thread holds its own share of one user, and all shares are
      held. */
  lemma SharesHandedOut(c: Task, ss: seq<State>) returns (r: nat, holders: seq<nat>)
    requires Run(c, ss) && CanTrip(ss[|ss| - 1])
    requires ss[|ss| - 1].threads != [] && ss[|ss| - 1].threads[0].FirstBarrier?
    ensures r < |c.users| && |holders| == c.threads && Distinct(holders)
    ensures var ts := ss[|ss| - 1].threads;
      |ts| == c.threads && forall k: nat :: k < |holders| ==>
        holders[k] < |ts| && ts[holders[k]] == FirstBarrier(Work(r, k))
  {
    RunsAlign(c, ss);
    var s := ss[|ss| - 1];
    forall q: nat ensures !ClosePhase(c, s, q) {
      if ClosePhase(c, s, q) {
        ClosingHolds(c, s, q);
      }
    }
    r, holders :| SearchPhase(c, s, r, holders);
    AllSearched(c, s, r, holders);
    forall k: nat | k < |holders|
      ensures holders[k] < |s.threads| && s.threads[holders[k]] == FirstBarrier(Work(r, k))
    {
      assert HasPart(s.threads, holders[k], k);
      ThreadSearching(c, s, r, holders, holders[k]);
    }
  }

  lemma {:induction false} RoundsGrow(a: nat, b: nat)
    requires a <= b
    ensures Rounds(a) <= Rounds(b)
    ensures a < b ==> Rounds(a) + [(true, a), (false, a)] <= Rounds(b)
  {
    if a < b {
      RoundsGrow(a, b - 1);
    }
  }

  lemma SearchUser(c: Task, s: State, r: nat, holders: seq<nat>)
    requires SearchPhase(c, s, r, holders) && !s.complete
    ensures r < |c.users|
  {
    var k: nat :| k < |s.threads| && Announced(s.threads[k]);
    ThreadSearching(c, s, r, holders, k);
  }

  /** Starts and summaries alternate, one of each for each user, in input order. */
  lemma PrintedInOrder(c: Task, ss: seq<State>)
    requires Run(c, ss)
    ensures Shape(ss[|ss| - 1].log) <= Rounds(|c.users|)
  {
    RunsAlign(c, ss);
    var s := ss[|ss| - 1];
    hide Rounds, Shape;
    if exists r: nat, holders: seq<nat> :: SearchPhase(c, s, r, holders) {
      var r: nat, holders: seq<nat> :| SearchPhase(c, s, r, holders);
      if !s.complete {
        SearchUser(c, s, r, holders);
      }
      RoundsGrow(r, |c.users|);
    } else {
      var r: nat :| ClosePhase(c, s, r);
      RoundsGrow(r, |c.users|);
    }
  }

  /** Every summary counts the candidates hashed for its user, says found exactly when some candidate
      in the threads' ranges hits, and then names such a candidate. */
  lemma SummariesTruthful(c: Task, ss: seq<State>, i: nat)
    requires Run(c, ss) && i < |ss[|ss| - 1].log|
    ensures var log := ss[|ss| - 1].log; Truthful(c, log[..i], log[i])
  {
    RunsAlign(c, ss);
    hide Truthful;
  }

  predicate InShare(c: Task, w: Work, i: nat) {
    InTask(c, w) && Share(c, w).start <= i < Share(c, w).start + Share(c, w).count
  }

  /** Position `i` is in some thread's range. */
  ghost predicate Shared(c: Task, u: nat, i: nat) {
    exists k: nat :: InShare(c, Work(u, k), i)
  }

  /** When the ranges cover the space, that is a search of the whole space. */
  lemma RangesCover(c: Task, u: nat)
    requires Legal(c) && u < |c.users|
    requires forall i: nat :: i < c.users[u].space ==> Shared(c, u, i)
    ensures Findable(c, u) <==> exists i: nat :: i < c.users[u].space && i in c.users[u].hits
  {
    if i: nat :| i < c.users[u].space && i in c.users[u].hits {
      assert Shared(c, u, i);
      var k: nat :| InShare(c, Work(u, k), i);
      assert IsHit(c, Work(u, k), i);
    }
    if Findable(c, u) {
      var k: nat, i: nat :| IsHit(c, Work(u, k), i);
      assert c.users[u].parts[k].start + c.users[u].parts[k].count <= c.users[u].space;
      assert i < c.users[u].space && i in c.users[u].hits;
    }
  }

  /** Once every thread has exited, every user had its start and its summary. */
  lemma AllUsersPrinted(c: Task, ss: seq<State>)
    requires Run(c, ss) && AllExited(ss[|ss| - 1])
    ensures Shape(ss[|ss| - 1].log) == Rounds(|c.users|)
  {
    RunsAlign(c, ss);
    var s := ss[|ss| - 1];
    hide Rounds, Shape;
    forall r: nat ensures !ClosePhase(c, s, r) {
      if ClosePhase(c, s, r) {
        ClosingHolds(c, s, r);
      }
    }
    var r: nat, holders: seq<nat> :| SearchPhase(c, s, r, holders);
    ThreadSearching(c, s, r, holders, 0);
    assert NobodyAnnounced(s.threads);
    assert Rounds(r) + [] == Rounds(r);
  }

  // ---- the end ----------------------------------------------------------------------------------

  ghost predicate CanMove(c: Task, s: State) {
    (exists k: nat :: Enabled(c, s, k)) || CanTrip(s)
  }

  lemma SearchNotStuck(c: Task, s: State, r: nat, holders: seq<nat>)
    requires Legal(c) && SearchPhase(c, s, r, holders) && !AllExited(s)
    ensures CanMove(c, s)
  {
    var k: nat :| k < |s.threads| && !s.threads[k].Exited?;
    forall j: nat | j < |s.threads|
      ensures Searching(c, r, s.threads[j])
    {
    }
    HoldersCount(s.threads, holders);
    if j: nat :| j < |s.threads| && s.threads[j].Pulling? {
      PulledItem(c, s.queue, r, |holders|);
      assert Enabled(c, s, j);
    } else if j: nat :| j < |s.threads| && !s.threads[j].Exited? && !s.threads[j].FirstBarrier? {
      hide SearchPhase;
      assert Enabled(c, s, j);
    } else {
      hide SearchPhase;
      assert CanTrip(s);
    }
  }

  /** No thread waits forever: until all have exited, some thread can move or the barrier opens. */
  lemma NeverStuck(c: Task, ss: seq<State>)
    requires Run(c, ss) && !AllExited(ss[|ss| - 1])
    ensures CanMove(c, ss[|ss| - 1])
  {
    RunsAlign(c, ss);
    var s := ss[|ss| - 1];
    if exists r: nat, holders: seq<nat> :: SearchPhase(c, s, r, holders) {
      var r: nat, holders: seq<nat> :| SearchPhase(c, s, r, holders);
      SearchNotStuck(c, s, r, holders);
    } else {
      var r: nat :| ClosePhase(c, s, r);
      forall j: nat | j < |s.threads| ensures ClosingThread(c, r, s.threads[j]) {
      }
      hide ClosePhase;
      if j: nat :| j < |s.threads| && s.threads[j].Summing? {
        assert Enabled(c, s, j);
      }
    }
  }

  /** Steps a thread has left before it pulls again. */
  function Left(c: Task, t: Thread): nat {
    match t
    case Announcing(w) => 6 + if InTask(c, w) then 2 * Share(c, w).count else 0
    case Looking(_, _, left, _) => 5 + 2 * left
    case Trying(_, _, left, _) => 6 + 2 * left
    case Adding(_, _) => 4
    case FirstBarrier(_) => 3
    case Summing(_) => 2
    case SecondBarrier(_) => 1
    case Pulling => 0
    case Exited => 0
  }

  function LeftSum(c: Task, ts: seq<Thread>): nat {
    if ts == [] then 0 else LeftSum(c, ts[..|ts| - 1]) + Left(c, ts[|ts| - 1])
  }

  function QueueLeft(c: Task, queue: seq<Option<Work>>): nat {
    if queue == [] then 0
    else 1 + (if queue[0].Some? then Left(c, Announcing(queue[0].value)) else 0) + QueueLeft(c, queue[1..])
  }

  function WorkLeft(c: Task, s: State): nat {
    LeftSum(c, s.threads) + QueueLeft(c, s.queue)
  }

  lemma {:induction false} LeftUpdate(c: Task, ts: seq<Thread>, k: nat, t: Thread)
    requires k < |ts|
    ensures LeftSum(c, ts[k := t]) == LeftSum(c, ts) - Left(c, ts[k]) + Left(c, t)
  {
    var n := |ts| - 1;
    if k == n {
      assert ts[k := t][..n] == ts[..n];
    } else {
      LeftUpdate(c, ts[..n], k, t);
      assert ts[k := t][..n] == ts[..n][k := t];
    }
  }

  lemma {:induction false} LeftLess(c: Task, ts: seq<Thread>, freed: seq<Thread>)
    requires |ts| == |freed| > 0 && forall k: nat :: k < |ts| ==> Left(c, freed[k]) + 1 <= Left(c, ts[k])
    ensures LeftSum(c, freed) < LeftSum(c, ts)
  {
    hide Left;
    var n := |ts| - 1;
    if n > 0 {
      LeftLess(c, ts[..n], freed[..n]);
    }
  }

  lemma PullWorks(c: Task, queue: seq<Option<Work>>)
    requires queue != []
    ensures QueueLeft(c, queue)
         == 1 + QueueLeft(c, queue[1..]) + if queue[0].Some? then Left(c, Announcing(queue[0].value)) else 0
  {
  }

  lemma NextWorks(c: Task, s: State, k: nat)
    requires Enabled(c, s, k)
    ensures WorkLeft(c, Next(c, s, k)) < WorkLeft(c, s)
  {
    hide LeftSum, QueueLeft;
    LeftUpdate(c, s.threads, k, Next(c, s, k).threads[k]);
    if s.threads[k].Pulling? {
      PullWorks(c, s.queue);
    }
  }

  lemma TripWorks(c: Task, s: State)
    requires CanTrip(s) && s.threads != []
    ensures WorkLeft(c, Trip(s)) < WorkLeft(c, s)
  {
    LeftLess(c, s.threads, Trip(s).threads);
  }

  lemma StartsWithThreads(c: Task)
    requires Legal(c)
    ensures Start(c).threads != []
  {
  }

  lemma SameThreads(c: Task, s: State, k: nat)
    requires Enabled(c, s, k)
    ensures |Next(c, s, k).threads| == |s.threads|
  {
  }

  /** Every run ends: it has at most as many steps as the work there was at the start. */
  lemma {:induction false} RunsAreBounded(c: Task, ss: seq<State>)
    requires Run(c, ss)
    ensures |ss| - 1 + WorkLeft(c, ss[|ss| - 1]) <= WorkLeft(c, Start(c)) && ss[|ss| - 1].threads != []
    decreases |ss|
  {
    hide Start, WorkLeft, Next, Enabled, CanTrip;
    var n := |ss| - 1;
    if n == 0 {
      StartsWithThreads(c);
    } else {
      RunsAreBounded(c, ss[..n]);
      var s, t := ss[n - 1], ss[n];
      assert Step(c, s, t);
      if k: nat :| Enabled(c, s, k) && t == Next(c, s, k) {
        NextWorks(c, s, k);
        SameThreads(c, s, k);
      } else {
        TripWorks(c, s);
      }
    }
  }
}
