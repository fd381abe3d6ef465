/** Rounds of the password search line up with users, in every interleaving, and every summary tells
    the truth about its own user. */
module CrackerRounds {
  import opened Basics
  import opened Cracker

  // ---- what the log says ------------------------------------------------------------------------

  /** How many candidates of user `u` have been hashed. */
  function Hashes(log: seq<Event>, u: nat): nat {
    if log == [] then 0
    else Hashes(log[..|log| - 1], u) + if log[|log| - 1].Hashed? && log[|log| - 1].work.user == u then 1 else 0
  }

  function Mark(e: Event): seq<(bool, nat)> {
    match e
    case StartUser(u) => [(true, u)]
    case Summary(u, _, _, _) => [(false, u)]
    case Hashed(_, _) => []
  }

  /** The starts (true) and summaries (false), in order. */
  function Shape(log: seq<Event>): seq<(bool, nat)> {
    if log == [] then []
    else Shape(log[..|log| - 1]) + Mark(log[|log| - 1])
  }

  /** One start and one summary for each of the first `r` users, in input order. */
  function Rounds(r: nat): seq<(bool, nat)> {
    if r == 0 then [] else Rounds(r - 1) + [(true, r - 1), (false, r - 1)]
  }

  predicate IsHit(c: Task, w: Work, i: nat) {
    InTask(c, w) && Share(c, w).start <= i < Share(c, w).start + Share(c, w).count && i in c.users[w.user].hits
  }

  /** Some candidate in some thread's range hits. */
  ghost predicate Findable(c: Task, u: nat) {
    exists k: nat, i: nat :: IsHit(c, Work(u, k), i)
  }

  /** The summary reports a hit when there is one, and reports that none was found when there is none;
      its count is the number of candidates hashed for the user. */
  ghost predicate Truthful(c: Task, before: seq<Event>, e: Event) {
    e.Summary? ==>
      && e.hashes == Hashes(before, e.user)
      && (e.found <==> Findable(c, e.user))
      && (e.found ==> exists k: nat :: IsHit(c, Work(e.user, k), e.answer))
  }

  ghost predicate AllTruthful(c: Task, log: seq<Event>) {
    forall i: nat :: i < |log| ==> Truthful(c, log[..i], log[i])
  }

  lemma TruthfulMore(c: Task, log: seq<Event>, e: Event)
    requires AllTruthful(c, log) && Truthful(c, log, e)
    ensures AllTruthful(c, log + [e])
  {
    hide Truthful;
    forall i: nat | i < |log + [e]|
      ensures Truthful(c, (log + [e])[..i], (log + [e])[i])
    {
      assert (log + [e])[..i] == if i < |log| then log[..i] else log;
    }
  }

  lemma LogMore(log: seq<Event>, e: Event)
    ensures forall u: nat :: Hashes(log + [e], u) == Hashes(log, u) + if e.Hashed? && e.work.user == u then 1 else 0
    ensures Shape(log + [e]) == Shape(log) + Mark(e)
  {
    assert (log + [e])[..|log|] == log;
  }

  /** No candidate of a later user has been hashed. */
  ghost predicate NotYet(log: seq<Event>, r: nat) {
    forall u: nat :: u > r ==> Hashes(log, u) == 0
  }

  // ---- what a thread has seen -------------------------------------------------------------------

  /** Candidates hashed but not yet added. */
  function Pending(t: Thread): nat {
    match t
    case Looking(_, _, _, h) => h
    case Trying(_, _, _, h) => h
    case Adding(_, h) => h
    case _ => 0
  }

  function PendingSum(ts: seq<Thread>): nat {
    if ts == [] then 0 else PendingSum(ts[..|ts| - 1]) + Pending(ts[|ts| - 1])
  }

  lemma {:induction false} PendingUpdate(ts: seq<Thread>, k: nat, t: Thread)
    requires k < |ts|
    ensures PendingSum(ts[k := t]) == PendingSum(ts) - Pending(ts[k]) + Pending(t)
  {
    var n := |ts| - 1;
    if k == n {
      assert ts[k := t][..n] == ts[..n];
    } else {
      PendingUpdate(ts[..n], k, t);
      assert ts[k := t][..n] == ts[..n][k := t];
    }
  }

  lemma {:induction false} NothingPending(ts: seq<Thread>)
    requires forall k: nat :: k < |ts| ==> Pending(ts[k]) == 0
    ensures PendingSum(ts) == 0
  {
    if ts != [] {
      NothingPending(ts[..|ts| - 1]);
    }
  }

  predicate NoHit(c: Task, w: Work, from: nat, to: nat)
    requires InTask(c, w)
  {
    forall i: nat :: from <= i < to ==> i !in c.users[w.user].hits
  }

  /** The thread is searching for user `r`, and its position fits its range. */
  predicate Searching(c: Task, r: nat, t: Thread) {
    match t
    case Pulling => true
    case Announcing(w) => InTask(c, w) && w.user == r
    case Looking(w, pos, left, _) =>
      InTask(c, w) && w.user == r && Share(c, w).start <= pos && pos + left == Share(c, w).start + Share(c, w).count
    case Trying(w, pos, left, _) =>
      InTask(c, w) && w.user == r && Share(c, w).start <= pos && pos + 1 + left == Share(c, w).start + Share(c, w).count
    case Adding(w, _) => InTask(c, w) && w.user == r
    case FirstBarrier(w) => InTask(c, w) && w.user == r
    case Summing(_) => false
    case SecondBarrier(_) => false
    case Exited => r == |c.users|
  }

  /** What the thread has tried so far did not hit. */
  predicate Unlucky(c: Task, t: Thread) {
    match t
    case Looking(w, pos, _, _) => InTask(c, w) ==> NoHit(c, w, Share(c, w).start, pos)
    case Trying(w, pos, _, _) => InTask(c, w) ==> NoHit(c, w, Share(c, w).start, pos)
    case Adding(w, _) => InTask(c, w) ==> NoHit(c, w, Share(c, w).start, Share(c, w).start + Share(c, w).count)
    case FirstBarrier(w) => InTask(c, w) ==> NoHit(c, w, Share(c, w).start, Share(c, w).start + Share(c, w).count)
    case _ => true
  }

  predicate Announced(t: Thread) {
    !t.Pulling? && !t.Announcing? && !t.Exited?
  }

  // ---- who holds which share --------------------------------------------------------------------

  predicate HasPart(ts: seq<Thread>, k: nat, part: nat) {
    k < |ts| && !ts[k].Pulling? && (Holds(ts[k]) ==> ts[k].work.part == part)
  }

  /** `holders[i]` pulled the `i`-th item of the round, and nobody else has pulled in it. */
  ghost predicate Holders(ts: seq<Thread>, holders: seq<nat>) {
    && Distinct(holders)
    && (forall i: nat :: i < |holders| ==> HasPart(ts, holders[i], i))
    && (forall k: nat :: k < |ts| && !ts[k].Pulling? ==> k in holders)
  }

  function Below(n: nat): (r: set<nat>)
    ensures |r| == n && forall k: nat :: k in r <==> k < n
  {
    if n == 0 then {} else Below(n - 1) + {n - 1}
  }

  function Members(holders: seq<nat>): (r: set<nat>)
    ensures |r| <= |holders| && forall k: nat :: k in r <==> k in holders
    ensures Distinct(holders) ==> |r| == |holders|
  {
    if holders == [] then {}
    else
      var n := |holders| - 1;
      assert holders == holders[..n] + [holders[n]];
      assert Distinct(holders) ==> holders[n] !in holders[..n];
      Members(holders[..n]) + {holders[n]}
  }

  lemma Subsets(a: set<nat>, b: set<nat>)
    requires a <= b
    ensures |a| <= |b|
    ensures |a| == |b| ==> a == b
  {
    assert b == a + (b - a);
  }

  /** As many items have been pulled in the round as threads hold one. */
  lemma HoldersCount(ts: seq<Thread>, holders: seq<nat>)
    requires Holders(ts, holders)
    ensures |holders| <= |ts|
    ensures |holders| == |ts| <==> forall k: nat :: k < |ts| ==> !ts[k].Pulling?
  {
    Subsets(Members(holders), Below(|ts|));
    if forall k: nat :: k < |ts| ==> !ts[k].Pulling? {
      assert Members(holders) == Below(|ts|);
    } else {
      var k: nat :| k < |ts| && ts[k].Pulling?;
      assert k in Below(|ts|) && k !in holders;
    }
  }

  lemma HoldersSame(ts: seq<Thread>, holders: seq<nat>, k: nat, t: Thread)
    requires Holders(ts, holders) && k < |ts| && !ts[k].Pulling? && !t.Pulling?
    requires Holds(t) ==> Holds(ts[k]) && t.work == ts[k].work
    ensures Holders(ts[k := t], holders)
  {
    hide Distinct;
    forall i: nat | i < |holders| ensures HasPart(ts[k := t], holders[i], i) {
      assert HasPart(ts, holders[i], i);
    }
  }

  lemma HoldersMore(ts: seq<Thread>, holders: seq<nat>, k: nat, t: Thread)
    requires Holders(ts, holders) && k < |ts| && ts[k].Pulling? && !t.Pulling?
    requires Holds(t) ==> t.work.part == |holders|
    ensures Holders(ts[k := t], holders + [k])
  {
    var after, more := ts[k := t], holders + [k];
    forall i: nat | i < |more| ensures HasPart(after, more[i], i) {
      assert i < |holders| ==> HasPart(ts, holders[i], i);
    }
    forall j: nat | j < |after| && !after[j].Pulling? ensures j in more {
      assert more[|holders|] == k;
      assert j != k ==> j in holders;
    }
  }

  // ---- the two phases of a round ----------------------------------------------------------------

  ghost predicate AllSearching(c: Task, r: nat, ts: seq<Thread>) {
    forall k: nat :: k < |ts| ==> Searching(c, r, ts[k])
  }

  ghost predicate NobodyAnnounced(ts: seq<Thread>) {
    forall k: nat :: k < |ts| ==> !Announced(ts[k])
  }

  ghost predicate AllUnlucky(c: Task, ts: seq<Thread>) {
    forall k: nat :: k < |ts| ==> Unlucky(c, ts[k])
  }

  ghost predicate AnswerHits(c: Task, r: nat, answer: nat) {
    exists k: nat :: IsHit(c, Work(r, k), answer)
  }

  /** If it is found, the answer hits; if not, nobody has seen a hit. */
  ghost predicate Luck(c: Task, r: nat, found: bool, answer: nat, ts: seq<Thread>) {
    if found then AnswerHits(c, r, answer) else AllUnlucky(c, ts)
  }

  /** Where the queue stands when `taken` items of round `r` have been pulled. */
  ghost predicate QueueAt(c: Task, queue: seq<Option<Work>>, r: nat, taken: nat)
    requires c.threads > 0
  {
    r * c.threads + taken <= |Items(c)| && queue == Items(c)[r * c.threads + taken..]
  }

  /** Everyone is pulling, searching or waiting in round `r`. */
  ghost predicate SearchPhase(c: Task, s: State, r: nat, holders: seq<nat>) {
    && c.threads > 0 && |s.threads| == c.threads && r <= |c.users|
    && QueueAt(c, s.queue, r, |holders|) && Holders(s.threads, holders) && AllSearching(c, r, s.threads)
    && (s.complete <==> NobodyAnnounced(s.threads))
    && Shape(s.log) == Rounds(r) + (if s.complete then [] else [(true, r)])
    && s.hashCount + PendingSum(s.threads) == Hashes(s.log, r) && NotYet(s.log, r)
    && Luck(c, r, s.found, s.answer, s.threads)
    && AllTruthful(c, s.log)
  }

  predicate ClosingThread(c: Task, r: nat, t: Thread) {
    (t.Summing? || t.SecondBarrier?) && InTask(c, t.work) && t.work.user == r
  }

  ghost predicate AllClosing(c: Task, r: nat, ts: seq<Thread>) {
    forall k: nat :: k < |ts| ==> ClosingThread(c, r, ts[k])
  }

  ghost predicate NobodySummed(ts: seq<Thread>) {
    forall k: nat :: k < |ts| ==> !ts[k].SecondBarrier?
  }

  /** Everyone has searched; the first to take the lock prints the summary and clears the result. */
  ghost predicate ClosePhase(c: Task, s: State, r: nat) {
    && c.threads > 0 && |s.threads| == c.threads && r < |c.users|
    && QueueAt(c, s.queue, r, c.threads) && AllClosing(c, r, s.threads)
    && (s.complete <==> !NobodySummed(s.threads))
    && Shape(s.log) == Rounds(r) + [(true, r)] + (if s.complete then [(false, r)] else [])
    && NotYet(s.log, r) && AllTruthful(c, s.log)
    && (if s.complete then s.hashCount == 0 && !s.found
        else s.hashCount == Hashes(s.log, r) && (s.found <==> Findable(c, r))
             && (s.found ==> AnswerHits(c, r, s.answer)))
  }

  ghost predicate Aligned(c: Task, s: State) {
    || (exists r: nat, holders: seq<nat> :: SearchPhase(c, s, r, holders))
    || (exists r: nat :: ClosePhase(c, s, r))
  }

  // ---- one thread's step ------------------------------------------------------------------------

  lemma OthersSearching(c: Task, r: nat, ts: seq<Thread>, k: nat, t: Thread)
    requires AllSearching(c, r, ts) && k < |ts| && Searching(c, r, t)
    ensures AllSearching(c, r, ts[k := t])
  {
    hide Searching;
  }

  lemma OthersUnlucky(c: Task, r: nat, found: bool, answer: nat, ts: seq<Thread>, k: nat, t: Thread)
    requires Luck(c, r, found, answer, ts) && k < |ts|
    requires !found ==> Unlucky(c, t)
    ensures Luck(c, r, found, answer, ts[k := t])
  {
    hide Unlucky, AnswerHits;
  }

  lemma PulledItem(c: Task, queue: seq<Option<Work>>, r: nat, taken: nat)
    requires c.threads > 0 && QueueAt(c, queue, r, taken) && taken < c.threads && r <= |c.users|
    ensures queue != [] && QueueAt(c, queue[1..], r, taken + 1)
    ensures queue[0] == if r < |c.users| then Some(Work(r, taken)) else None
  {
    RoundEntry(c, r, taken);
    Multiples(r, |c.users|, c.threads);
    var n := c.threads;
    assert Items(c)[r * n + taken] == Entry(c, r * n + taken);
  }

  lemma AnnouncedSame(ts: seq<Thread>, k: nat, t: Thread)
    requires k < |ts| && Announced(ts[k]) == Announced(t)
    ensures NobodyAnnounced(ts[k := t]) <==> NobodyAnnounced(ts)
  {
    hide Announced;
    if NobodyAnnounced(ts[k := t]) {
      forall j: nat | j < |ts| ensures !Announced(ts[j]) {
        assert !Announced(ts[k := t][j]);
      }
    }
  }

  lemma PullKeeps(c: Task, s: State, r: nat, holders: seq<nat>, k: nat)
    requires Legal(c) && SearchPhase(c, s, r, holders) && Enabled(c, s, k) && s.threads[k].Pulling?
    ensures SearchPhase(c, Next(c, s, k), r, holders + [k])
  {
    hide AllSearching, Luck, AllTruthful, Truthful, NotYet, Shape, Hashes, Rounds, PendingSum, Holders, QueueAt;
    HoldersCount(s.threads, holders);
    PulledItem(c, s.queue, r, |holders|);
    var t := Next(c, s, k).threads[k];
    OthersSearching(c, r, s.threads, k, t);
    OthersUnlucky(c, r, s.found, s.answer, s.threads, k, t);
    AnnouncedSame(s.threads, k, t);
    hide NobodyAnnounced;
    HoldersMore(s.threads, holders, k, t);
    PendingUpdate(s.threads, k, t);
  }

  /** A step that only moves thread `k`, within its item. */
  lemma MoveKeeps(c: Task, s: State, r: nat, holders: seq<nat>, k: nat, t: Thread)
    requires SearchPhase(c, s, r, holders) && k < |s.threads| && Holds(s.threads[k]) && Holds(t)
    requires t.work == s.threads[k].work && Searching(c, r, t) && Announced(t) && Announced(s.threads[k])
    requires !s.found ==> Unlucky(c, t)
    ensures var n := s.threads[k := t];
      && Holders(n, holders) && AllSearching(c, r, n) && !NobodyAnnounced(n) && !s.complete
      && Luck(c, r, s.found, s.answer, n) && PendingSum(n) == PendingSum(s.threads) - Pending(s.threads[k]) + Pending(t)
  {
    hide AllSearching, Luck, AllTruthful, Truthful, NotYet, Shape, Hashes, Rounds, PendingSum, Holders, QueueAt,
      Searching, Unlucky;
    OthersSearching(c, r, s.threads, k, t);
    OthersUnlucky(c, r, s.found, s.answer, s.threads, k, t);
    HoldersSame(s.threads, holders, k, t);
    PendingUpdate(s.threads, k, t);
    assert Announced(s.threads[k := t][k]);
  }

  lemma ThreadSearching(c: Task, s: State, r: nat, holders: seq<nat>, k: nat)
    requires SearchPhase(c, s, r, holders) && k < |s.threads|
    ensures Searching(c, r, s.threads[k]) && (!s.found ==> Unlucky(c, s.threads[k]))
  {
  }

  lemma AnnounceKeeps(c: Task, s: State, r: nat, holders: seq<nat>, k: nat)
    requires Legal(c) && SearchPhase(c, s, r, holders) && Enabled(c, s, k) && s.threads[k].Announcing?
    ensures SearchPhase(c, Next(c, s, k), r, holders)
  {
    hide AllSearching, Luck, AllTruthful, Shape, Hashes, Rounds, PendingSum, Holders, QueueAt;
    ThreadSearching(c, s, r, holders, k);
    var t := Next(c, s, k).threads[k];
    OthersSearching(c, r, s.threads, k, t);
    OthersUnlucky(c, r, s.found, s.answer, s.threads, k, t);
    HoldersSame(s.threads, holders, k, t);
    PendingUpdate(s.threads, k, t);
    assert Announced(s.threads[k := t][k]);
    if s.complete {
      LogMore(s.log, StartUser(r));
      TruthfulMore(c, s.log, StartUser(r));
    } else {
      assert s.log + [] == s.log;
    }
    hide NobodyAnnounced;
  }

  lemma LookKeeps(c: Task, s: State, r: nat, holders: seq<nat>, k: nat)
    requires Legal(c) && SearchPhase(c, s, r, holders) && Enabled(c, s, k)
    requires s.threads[k].Looking? || s.threads[k].Adding?
    ensures SearchPhase(c, Next(c, s, k), r, holders)
  {
    hide AllSearching, Luck, AllTruthful, Shape, Hashes, Rounds, PendingSum, Holders, QueueAt, NobodyAnnounced, NotYet;
    ThreadSearching(c, s, r, holders, k);
    MoveKeeps(c, s, r, holders, k, Next(c, s, k).threads[k]);
  }

  lemma HitFound(c: Task, s: State, r: nat, holders: seq<nat>, k: nat)
    requires SearchPhase(c, s, r, holders) && Enabled(c, s, k) && s.threads[k].Trying?
    requires s.threads[k].pos in c.users[s.threads[k].work.user].hits
    ensures AnswerHits(c, r, s.threads[k].pos)
  {
    ThreadSearching(c, s, r, holders, k);
    hide SearchPhase;
    assert IsHit(c, Work(r, s.threads[k].work.part), s.threads[k].pos);
  }

  /** A thread that finds the answer moves on, and the result is the hit it found. */
  lemma FoundMove(c: Task, s: State, r: nat, holders: seq<nat>, k: nat, t: Thread, pos: nat)
    requires SearchPhase(c, s, r, holders) && k < |s.threads| && Holds(s.threads[k]) && Holds(t)
    requires t.work == s.threads[k].work && Searching(c, r, t) && Announced(t) && Announced(s.threads[k])
    requires AnswerHits(c, r, pos)
    ensures var n := s.threads[k := t];
      && Holders(n, holders) && AllSearching(c, r, n) && !NobodyAnnounced(n) && !s.complete
      && Luck(c, r, true, pos, n) && PendingSum(n) == PendingSum(s.threads) - Pending(s.threads[k]) + Pending(t)
  {
    hide AllSearching, AllTruthful, NotYet, Shape, Hashes, Rounds, PendingSum, Holders, QueueAt, Searching, Unlucky;
    OthersSearching(c, r, s.threads, k, t);
    HoldersSame(s.threads, holders, k, t);
    PendingUpdate(s.threads, k, t);
    assert Announced(s.threads[k := t][k]);
  }

  lemma TryKeeps(c: Task, s: State, r: nat, holders: seq<nat>, k: nat)
    requires Legal(c) && SearchPhase(c, s, r, holders) && Enabled(c, s, k) && s.threads[k].Trying?
    ensures SearchPhase(c, Next(c, s, k), r, holders)
  {
    hide AllSearching, Luck, AllTruthful, Shape, Hashes, Rounds, PendingSum, Holders, QueueAt, NobodyAnnounced,
      AnswerHits;
    ThreadSearching(c, s, r, holders, k);
    var w, pos := s.threads[k].work, s.threads[k].pos;
    var t := Next(c, s, k).threads[k];
    LogMore(s.log, Hashed(w, pos));
    TruthfulMore(c, s.log, Hashed(w, pos));
    if pos in c.users[r].hits {
      HitFound(c, s, r, holders, k);
      FoundMove(c, s, r, holders, k, t, pos);
    } else {
      MoveKeeps(c, s, r, holders, k, t);
    }
  }
}
