/** Which candidates are hashed, and how often: every share is tried from its start, each candidate once;
    all of it unless something is found, and at most one candidate a thread after a hit. */
module CrackerTrials {
  import opened Basics
  import opened Cracker
  import opened CrackerRounds
  import opened CrackerOutcome

  // ---- what was tried ---------------------------------------------------------------------------

  /** The candidates hashed for a share, in order. */
  function Tried(log: seq<Event>, w: Work): seq<nat> {
    if log == [] then []
    else
      var e := log[|log| - 1];
      Tried(log[..|log| - 1], w) + if e.Hashed? && e.work == w then [e.pos] else []
  }

  function UpTo(start: nat, n: nat): (r: seq<nat>)
    ensures |r| == n
  {
    seq(n, i requires 0 <= i => start + i)
  }

  /** The share was tried from its start, one candidate after the other. */
  predicate InTurn(c: Task, log: seq<Event>, w: Work)
    requires InTask(c, w)
  {
    Tried(log, w) == UpTo(Share(c, w).start, |Tried(log, w)|) && |Tried(log, w)| <= Share(c, w).count
  }

  ghost predicate AllInTurn(c: Task, log: seq<Event>) {
    forall w: Work :: InTask(c, w) ==> InTurn(c, log, w)
  }

  /** Only shares of the input are tried. */
  ghost predicate KnownShares(c: Task, log: seq<Event>) {
    forall i: nat :: i < |log| && log[i].Hashed? ==> InTask(c, log[i].work)
  }

  /** Nothing has been tried of shares that nobody has pulled in round `r`. */
  ghost predicate NotPulled(c: Task, log: seq<Event>, r: nat, taken: nat) {
    forall w: Work :: w.user > r || (w.user == r && w.part >= taken) ==> Tried(log, w) == []
  }

  lemma TriedMore(log: seq<Event>, e: Event, w: Work)
    ensures Tried(log + [e], w) == Tried(log, w) + if e.Hashed? && e.work == w then [e.pos] else []
  {
    assert (log + [e])[..|log|] == log;
  }

  // ---- what a thread has tried ------------------------------------------------------------------

  /** What the log says of the share a thread holds. */
  predicate Counts(c: Task, log: seq<Event>, found: bool, t: Thread) {
    Holds(t) && InTask(c, t.work) ==>
      var n, share := |Tried(log, t.work)|, Share(c, t.work);
      match t
      case Announcing(_) => n == 0
      case Looking(_, pos, _, h) => n == h && pos == share.start + n
      case Trying(_, pos, _, h) => n == h && pos == share.start + n
      case Adding(_, h) => n == h && (found || n == share.count)
      case _ => found || n == share.count
  }

  ghost predicate AllCount(c: Task, log: seq<Event>, found: bool, ts: seq<Thread>) {
    forall k: nat :: k < |ts| ==> Counts(c, log, found, ts[k])
  }

  // ---- after a hit ------------------------------------------------------------------------------

  predicate Hits(c: Task, e: Event) {
    e.Hashed? && InTask(c, e.work) && e.pos in c.users[e.work.user].hits
  }

  /** How many candidates of a share were tried after event `h`. */
  function Later(log: seq<Event>, h: nat, w: Work): int
    requires h < |log|
  {
    |Tried(log, w)| - |Tried(log[..h + 1], w)|
  }

  /** The thread that hit stops; another may be about to hash the one it has looked at. */
  function Allowed(e: Event, w: Work): nat {
    if e.Hashed? && e.work == w then 0 else 1
  }

  ghost predicate HitsStop(c: Task, log: seq<Event>) {
    forall h: nat, w: Work :: h < |log| && Hits(c, log[h]) && w.user == log[h].work.user ==>
      Later(log, h, w) <= Allowed(log[h], w)
  }

  ghost predicate HitsFound(c: Task, log: seq<Event>, r: nat, found: bool) {
    forall h: nat :: h < |log| && Hits(c, log[h]) && log[h].work.user == r ==> found
  }

  /** A thread about to hash has not used up what it is allowed. */
  ghost predicate MayTry(c: Task, log: seq<Event>, t: Thread) {
    t.Trying? ==> forall h: nat :: h < |log| && Hits(c, log[h]) && t.work.user == log[h].work.user ==>
      Later(log, h, t.work) < Allowed(log[h], t.work)
  }

  ghost predicate AllMayTry(c: Task, log: seq<Event>, ts: seq<Thread>) {
    forall k: nat :: k < |ts| ==> MayTry(c, log, ts[k])
  }

  // ---- at a summary -----------------------------------------------------------------------------

  /** Some share of the user was tried at the answer, and hit. */
  ghost predicate AnswerTried(c: Task, log: seq<Event>, u: nat, answer: nat) {
    exists k: nat :: answer in Tried(log, Work(u, k)) && InTask(c, Work(u, k)) && answer in c.users[u].hits
  }

  /** When nothing was found all shares of the user were tried to their ends, otherwise the answer was
      tried; and nothing of the user is tried after its summary. */
  ghost predicate Complete(c: Task, log: seq<Event>, i: nat)
    requires i < |log|
  {
    var e := log[i];
    e.Summary? ==>
      && e.user < |c.users|
      && (forall w: Work :: w.user == e.user ==> Tried(log, w) == Tried(log[..i], w))
      && (!e.found ==> forall w: Work :: w.user == e.user && InTask(c, w) ==>
            |Tried(log[..i], w)| == Share(c, w).count)
      && (e.found ==> AnswerTried(c, log[..i], e.user, e.answer))
  }

  ghost predicate AllComplete(c: Task, log: seq<Event>, n: nat) {
    forall i: nat :: i < |log| && log[i].Summary? ==> log[i].user < n && Complete(c, log, i)
  }

  // ---- the two phases ---------------------------------------------------------------------------

  ghost predicate LogGood(c: Task, log: seq<Event>, n: nat) {
    AllInTurn(c, log) && KnownShares(c, log) && HitsStop(c, log) && AllComplete(c, log, n)
  }

  ghost predicate SearchTrials(c: Task, s: State, r: nat, taken: nat) {
    && LogGood(c, s.log, r) && NotPulled(c, s.log, r, taken) && HitsFound(c, s.log, r, s.found)
    && AllCount(c, s.log, s.found, s.threads) && AllMayTry(c, s.log, s.threads)
    && (s.found ==> AnswerTried(c, s.log, r, s.answer))
  }

  ghost predicate CloseTrials(c: Task, s: State, r: nat) {
    && LogGood(c, s.log, r + 1) && NotPulled(c, s.log, r + 1, 0)
    && (!s.complete ==> AllComplete(c, s.log, r))
    && (!s.complete && !s.found ==> forall w: Work :: w.user == r && InTask(c, w) ==>
          |Tried(s.log, w)| == Share(c, w).count)
    && (!s.complete && s.found ==> AnswerTried(c, s.log, r, s.answer))
  }

  // ---- an event that tries nothing --------------------------------------------------------------

  lemma QuietTried(log: seq<Event>, e: Event)
    requires !e.Hashed?
    ensures forall w: Work :: Tried(log + [e], w) == Tried(log, w)
  {
    forall w: Work ensures Tried(log + [e], w) == Tried(log, w) {
      TriedMore(log, e, w);
      assert Tried(log, w) + [] == Tried(log, w);
    }
  }

  lemma LaterMore(log: seq<Event>, e: Event, h: nat, w: Work)
    requires h <= |log|
    ensures Later(log + [e], h, w)
         == if h == |log| then 0 else Later(log, h, w) + if e.Hashed? && e.work == w then 1 else 0
  {
    TriedMore(log, e, w);
    hide Tried;
    assert (log + [e])[..h + 1] == if h == |log| then log + [e] else log[..h + 1];
  }

  lemma QuietHits(c: Task, log: seq<Event>, e: Event)
    requires !e.Hashed? && HitsStop(c, log)
    ensures HitsStop(c, log + [e])
    ensures forall r: nat, found: bool :: HitsFound(c, log, r, found) ==> HitsFound(c, log + [e], r, found)
  {
    hide Later;
    forall h: nat, w: Work | h < |log + [e]| && Hits(c, (log + [e])[h]) && w.user == (log + [e])[h].work.user
      ensures Later(log + [e], h, w) <= Allowed((log + [e])[h], w)
    {
      LaterMore(log, e, h, w);
    }
  }

  lemma QuietComplete(c: Task, log: seq<Event>, e: Event, n: nat)
    requires !e.Hashed? && AllComplete(c, log, n)
    requires e.Summary? ==> e.user < n && Complete(c, log + [e], |log|)
    ensures AllComplete(c, log + [e], n)
  {
    QuietTried(log, e);
    hide Tried, AnswerTried;
    forall i: nat | i < |log + [e]| && (log + [e])[i].Summary?
      ensures (log + [e])[i].user < n && Complete(c, log + [e], i)
    {
      if i < |log| {
        assert (log + [e])[..i] == log[..i];
        assert Complete(c, log, i);
      }
    }
  }

  lemma QuietGood(c: Task, log: seq<Event>, e: Event, n: nat)
    requires !e.Hashed? && LogGood(c, log, n)
    requires e.Summary? ==> e.user < n && Complete(c, log + [e], |log|)
    ensures LogGood(c, log + [e], n)
  {
    QuietTried(log, e);
    QuietHits(c, log, e);
    QuietComplete(c, log, e, n);
    hide Tried, HitsStop, AllComplete;
  }

  // ---- an event that tries one candidate --------------------------------------------------------

  lemma TryInTurn(c: Task, log: seq<Event>, w: Work, pos: nat)
    requires AllInTurn(c, log) && KnownShares(c, log) && InTask(c, w)
    requires pos == Share(c, w).start + |Tried(log, w)| && |Tried(log, w)| < Share(c, w).count
    ensures AllInTurn(c, log + [Hashed(w, pos)]) && KnownShares(c, log + [Hashed(w, pos)])
  {
    hide Tried;
    var e := Hashed(w, pos);
    forall v: Work | InTask(c, v) ensures InTurn(c, log + [e], v) {
      TriedMore(log, e, v);
      assert InTurn(c, log, v);
      assert v != w ==> Tried(log, v) + [] == Tried(log, v);
    }
  }

  lemma TryComplete(c: Task, log: seq<Event>, w: Work, pos: nat)
    requires AllComplete(c, log, w.user)
    ensures AllComplete(c, log + [Hashed(w, pos)], w.user)
  {
    hide Tried, AnswerTried;
    var e := Hashed(w, pos);
    forall i: nat | i < |log + [e]| && (log + [e])[i].Summary?
      ensures (log + [e])[i].user < w.user && Complete(c, log + [e], i)
    {
      assert (log + [e])[..i] == log[..i];
      assert Complete(c, log, i);
      forall v: Work | v.user == log[i].user ensures Tried(log + [e], v) == Tried(log[..i], v) {
        TriedMore(log, e, v);
        assert Tried(log, v) + [] == Tried(log, v);
      }
    }
  }

  /** The one candidate was allowed. */
  lemma TryStops(c: Task, log: seq<Event>, t: Thread)
    requires HitsStop(c, log) && t.Trying? && MayTry(c, log, t)
    ensures HitsStop(c, log + [Hashed(t.work, t.pos)])
  {
    hide Later;
    var e := Hashed(t.work, t.pos);
    forall h: nat, w: Work | h < |log + [e]| && Hits(c, (log + [e])[h]) && w.user == (log + [e])[h].work.user
      ensures Later(log + [e], h, w) <= Allowed((log + [e])[h], w)
    {
      LaterMore(log, e, h, w);
    }
  }

  /** An event that tries nothing of the thread's share does not stop it. */
  lemma OthersMayTry(c: Task, log: seq<Event>, e: Event, t: Thread)
    requires MayTry(c, log, t) && (t.Trying? && e.Hashed? ==> t.work != e.work)
    ensures MayTry(c, log + [e], t)
  {
    hide Later;
    if t.Trying? {
      forall h: nat | h < |log + [e]| && Hits(c, (log + [e])[h]) && t.work.user == (log + [e])[h].work.user
        ensures Later(log + [e], h, t.work) < Allowed((log + [e])[h], t.work)
      {
        LaterMore(log, e, h, t.work);
      }
    }
  }

  lemma OthersCount(c: Task, log: seq<Event>, e: Event, found: bool, t: Thread)
    requires Counts(c, log, found, t) && (e.Hashed? && Holds(t) ==> t.work != e.work)
    ensures Counts(c, log + [e], found, t) && Counts(c, log + [e], true, t)
  {
    if Holds(t) {
      TriedMore(log, e, t.work);
    }
    hide Tried;
  }

  /** A thread looks only while nothing is found, so no hit of its user is logged yet. */
  lemma LookMayTry(c: Task, log: seq<Event>, r: nat, t: Thread)
    requires HitsFound(c, log, r, false) && Holds(t) && t.work.user == r
    ensures MayTry(c, log, t)
  {
  }

  lemma AnswerStays(c: Task, log: seq<Event>, e: Event, u: nat, answer: nat)
    requires AnswerTried(c, log, u, answer)
    ensures AnswerTried(c, log + [e], u, answer)
  {
    var k: nat :| answer in Tried(log, Work(u, k)) && InTask(c, Work(u, k)) && answer in c.users[u].hits;
    TriedMore(log, e, Work(u, k));
    assert answer in Tried(log + [e], Work(u, k));
  }

  // ---- the steps of a round ---------------------------------------------------------------------

  /** Different holders of work in a round hold different shares. */
  lemma OwnShare(ts: seq<Thread>, holders: seq<nat>, k: nat, j: nat)
    requires Holders(ts, holders) && k < |ts| && j < |ts| && k != j && Holds(ts[k]) && Holds(ts[j])
    ensures ts[k].work != ts[j].work
  {
    PartsDiffer(ts, holders, k, j);
  }

  lemma PulledNew(c: Task, s: State, r: nat, holders: seq<nat>, k: nat)
    requires Legal(c) && SearchPhase(c, s, r, holders) && Enabled(c, s, k) && s.threads[k].Pulling?
    requires NotPulled(c, s.log, r, |holders|)
    ensures Counts(c, s.log, s.found, Next(c, s, k).threads[k]) && !Next(c, s, k).threads[k].Trying?
  {
    hide Luck, AllTruthful, Shape, Hashes, Rounds, PendingSum, NobodyAnnounced, Tried, QueueAt, AllSearching, NotYet;
    HoldersCount(s.threads, holders);
    hide Holders;
    PulledItem(c, s.queue, r, |holders|);
  }

  /** What a thread has tried stays right over a step that logs no candidate. */
  lemma QuietThread(c: Task, s: State, r: nat, holders: seq<nat>, k: nat)
    requires Legal(c) && SearchPhase(c, s, r, holders) && SearchTrials(c, s, r, |holders|) && Enabled(c, s, k)
    requires !s.threads[k].Trying?
    ensures Counts(c, s.log, s.found, Next(c, s, k).threads[k]) && MayTry(c, s.log, Next(c, s, k).threads[k])
  {
    ThreadSearching(c, s, r, holders, k);
    assert Counts(c, s.log, s.found, s.threads[k]);
    if s.threads[k].Pulling? {
      PulledNew(c, s, r, holders, k);
    } else {
      var t := Next(c, s, k).threads[k];
      hide SearchPhase, LogGood, AnswerTried, Tried, MayTry;
      if t.Trying? {
        LookMayTry(c, s.log, r, t);
      }
    }
  }

  lemma QuietFound(c: Task, log: seq<Event>, e: Event, r: nat, found: bool)
    requires !e.Hashed? && HitsFound(c, log, r, found)
    ensures HitsFound(c, log + [e], r, found)
  {
  }

  lemma QuietAll(c: Task, log: seq<Event>, e: Event, r: nat, taken: nat, found: bool, answer: nat, ts: seq<Thread>)
    requires !e.Hashed? && !e.Summary?
    requires LogGood(c, log, r) && NotPulled(c, log, r, taken) && HitsFound(c, log, r, found)
    requires AllCount(c, log, found, ts) && AllMayTry(c, log, ts)
    requires found ==> AnswerTried(c, log, r, answer)
    ensures LogGood(c, log + [e], r) && NotPulled(c, log + [e], r, taken) && HitsFound(c, log + [e], r, found)
    ensures AllCount(c, log + [e], found, ts) && AllMayTry(c, log + [e], ts)
    ensures found ==> AnswerTried(c, log + [e], r, answer)
  {
    QuietTried(log, e);
    QuietGood(c, log, e, r);
    forall k: nat | k < |ts| ensures Counts(c, log + [e], found, ts[k]) && MayTry(c, log + [e], ts[k]) {
      OthersCount(c, log, e, found, ts[k]);
      OthersMayTry(c, log, e, ts[k]);
    }
    if found {
      AnswerStays(c, log, e, r, answer);
    }
    QuietFound(c, log, e, r, found);
    hide LogGood, AnswerTried, Tried, HitsFound, MayTry, Counts;
  }

  /** A step that logs no candidate. */
  lemma QuietStep(c: Task, s: State, r: nat, holders: seq<nat>, k: nat)
    requires Legal(c) && SearchPhase(c, s, r, holders) && SearchTrials(c, s, r, |holders|) && Enabled(c, s, k)
    requires !s.threads[k].Trying? && !s.threads[k].Summing?
    ensures SearchTrials(c, Next(c, s, k), r, |holders| + if s.threads[k].Pulling? then 1 else 0)
  {
    hide SearchPhase, LogGood, AnswerTried, Tried, HitsFound, MayTry, Counts;
    QuietThread(c, s, r, holders, k);
    var n := Next(c, s, k);
    assert n.threads == s.threads[k := n.threads[k]];
    assert n.found == s.found && n.answer == s.answer;
    assert AllCount(c, s.log, s.found, n.threads) && AllMayTry(c, s.log, n.threads);
    if n.log != s.log {
      QuietAll(c, s.log, StartUser(s.threads[k].work.user), r, |holders|, s.found, s.answer, n.threads);
    }
  }

  /** Where a thread is after it hashed its candidate. */
  function AfterTry(c: Task, t: Thread): Thread
    requires t.Trying? && InTask(c, t.work)
  {
    if t.pos in c.users[t.work.user].hits || t.pos + 1 == c.users[t.work.user].space then Adding(t.work, t.hashes + 1)
    else Looking(t.work, t.pos + 1, t.left, t.hashes + 1)
  }

  /** It has counted that candidate, and goes on only inside its share. */
  lemma TryOwn(c: Task, log: seq<Event>, r: nat, found: bool, t: Thread)
    requires Legal(c) && t.Trying? && Searching(c, r, t) && Counts(c, log, found, t)
    ensures Counts(c, log + [Hashed(t.work, t.pos)], found || t.pos in c.users[t.work.user].hits, AfterTry(c, t))
  {
    TriedMore(log, Hashed(t.work, t.pos), t.work);
    hide Tried;
    assert Share(c, t.work).start + Share(c, t.work).count <= c.users[t.work.user].space;
  }

  lemma TryNext(c: Task, s: State, k: nat)
    requires Enabled(c, s, k) && s.threads[k].Trying?
    ensures var t := s.threads[k];
      var n := Next(c, s, k);
      var hit := t.pos in c.users[t.work.user].hits;
      && n.threads == s.threads[k := AfterTry(c, t)] && n.log == s.log + [Hashed(t.work, t.pos)]
      && n.found == (s.found || hit) && n.answer == if hit then t.pos else s.answer
  {
  }

  lemma TryOthers(c: Task, s: State, r: nat, holders: seq<nat>, k: nat, found: bool)
    requires SearchPhase(c, s, r, holders) && SearchTrials(c, s, r, |holders|) && k < |s.threads|
    requires s.threads[k].Trying? && (s.found ==> found)
    ensures var log := s.log + [Hashed(s.threads[k].work, s.threads[k].pos)];
      forall j: nat :: j < |s.threads| && j != k ==> Counts(c, log, found, s.threads[j]) && MayTry(c, log, s.threads[j])
  {
    var e := Hashed(s.threads[k].work, s.threads[k].pos);
    forall j: nat | j < |s.threads| && j != k
      ensures Counts(c, s.log + [e], found, s.threads[j]) && MayTry(c, s.log + [e], s.threads[j])
    {
      if Holds(s.threads[j]) {
        OwnShare(s.threads, holders, k, j);
      }
      hide SearchPhase, LogGood, NotPulled, HitsFound, AnswerTried;
      OthersCount(c, s.log, e, s.found, s.threads[j]);
      OthersMayTry(c, s.log, e, s.threads[j]);
    }
  }

  lemma NotTrying(c: Task, log: seq<Event>, t: Thread)
    requires !t.Trying?
    ensures MayTry(c, log, t)
  {
  }

  lemma PartPulled(ts: seq<Thread>, holders: seq<nat>, k: nat)
    requires Holders(ts, holders) && k < |ts| && Holds(ts[k])
    ensures ts[k].work.part < |holders|
  {
    var i: nat :| i < |holders| && holders[i] == k;
    assert HasPart(ts, holders[i], i);
  }

  lemma TryGood(c: Task, log: seq<Event>, r: nat, found: bool, t: Thread)
    requires LogGood(c, log, r) && t.Trying? && Searching(c, r, t) && Counts(c, log, found, t) && MayTry(c, log, t)
    ensures LogGood(c, log + [Hashed(t.work, t.pos)], r)
  {
    TryInTurn(c, log, t.work, t.pos);
    TryComplete(c, log, t.work, t.pos);
    TryStops(c, log, t);
    hide Tried, HitsStop, AllComplete;
  }

  lemma TryFound(c: Task, log: seq<Event>, r: nat, taken: nat, found: bool, answer: nat, t: Thread)
    requires NotPulled(c, log, r, taken) && HitsFound(c, log, r, found)
    requires t.Trying? && InTask(c, t.work) && t.work.user == r && t.work.part < taken
    requires found ==> AnswerTried(c, log, r, answer)
    ensures var e := Hashed(t.work, t.pos);
      var hit := t.pos in c.users[r].hits;
      && NotPulled(c, log + [e], r, taken) && HitsFound(c, log + [e], r, found || hit)
      && (found || hit ==> AnswerTried(c, log + [e], r, if hit then t.pos else answer))
  {
    var e := Hashed(t.work, t.pos);
    forall w: Work ensures w != t.work ==> Tried(log + [e], w) == Tried(log, w) {
      TriedMore(log, e, w);
      assert Tried(log, w) + [] == Tried(log, w);
    }
    TriedMore(log, e, t.work);
    if t.pos in c.users[r].hits {
      assert t.pos in Tried(log + [e], Work(r, t.work.part));
    } else if found {
      AnswerStays(c, log, e, r, answer);
    }
    hide Tried;
  }

  /** A step that hashes a candidate. */
  lemma TryStep(c: Task, s: State, r: nat, holders: seq<nat>, k: nat)
    requires Legal(c) && SearchPhase(c, s, r, holders) && SearchTrials(c, s, r, |holders|) && Enabled(c, s, k)
    requires s.threads[k].Trying?
    ensures SearchTrials(c, Next(c, s, k), r, |holders|)
  {
    hide LogGood, NotPulled, AnswerTried, Tried, HitsFound, MayTry, Counts, Next, Holders, AllSearching,
      Luck, AllTruthful, Shape, Hashes, Rounds, PendingSum, QueueAt, NobodyAnnounced;
    var t := s.threads[k];
    var n := Next(c, s, k);
    TryNext(c, s, k);
    ThreadSearching(c, s, r, holders, k);
    TryOthers(c, s, r, holders, k, n.found);
    PartPulled(s.threads, holders, k);
    TryOwn(c, s.log, r, s.found, t);
    TryGood(c, s.log, r, s.found, t);
    TryFound(c, s.log, r, |holders|, s.found, s.answer, t);
    hide SearchPhase;
    assert MayTry(c, n.log, AfterTry(c, t)) by {
      NotTrying(c, n.log, AfterTry(c, t));
    }
  }

  // ---- the barriers -----------------------------------------------------------------------------

  lemma LaterUsers(c: Task, log: seq<Event>, r: nat)
    requires AllComplete(c, log, r)
    ensures AllComplete(c, log, r + 1)
  {
    hide Complete;
  }

  lemma TripTrials(c: Task, s: State, r: nat, holders: seq<nat>)
    requires Legal(c) && SearchPhase(c, s, r, holders) && SearchTrials(c, s, r, |holders|) && CanTrip(s)
    ensures CloseTrials(c, Trip(s), r)
  {
    AllSearched(c, s, r, holders);
    if !s.found {
      forall w: Work | w.user == r && InTask(c, w)
        ensures |Tried(s.log, w)| == Share(c, w).count
      {
        var k := holders[w.part];
        assert HasPart(s.threads, k, w.part);
        ThreadSearching(c, s, r, holders, k);
        assert Counts(c, s.log, s.found, s.threads[k]);
      }
    }
    hide SearchPhase, AllInTurn, KnownShares, HitsStop, Tried, AnswerTried, HitsFound, AllCount, AllMayTry;
    LaterUsers(c, s.log, r);
  }

  lemma SummaryComplete(c: Task, log: seq<Event>, e: Event)
    requires e.Summary? && e.user < |c.users|
    requires !e.found ==> forall w: Work :: w.user == e.user && InTask(c, w) ==> |Tried(log, w)| == Share(c, w).count
    requires e.found ==> AnswerTried(c, log, e.user, e.answer)
    ensures Complete(c, log + [e], |log|)
  {
    QuietTried(log, e);
    assert (log + [e])[..|log|] == log;
    hide Tried, AnswerTried;
  }

  /** The first thread to take the lock prints the summary. */
  lemma CloseTrialsKeep(c: Task, s: State, r: nat, k: nat)
    requires Legal(c) && ClosePhase(c, s, r) && CloseTrials(c, s, r) && Enabled(c, s, k)
    ensures CloseTrials(c, Next(c, s, k), r)
  {
    hide AllInTurn, KnownShares, HitsStop, Tried, AnswerTried, AllComplete, Complete, AllTruthful, Shape, Hashes,
      Rounds, QueueAt, NotYet, Findable, NobodySummed;
    assert ClosingThread(c, r, s.threads[k]);
    hide ClosePhase, LogGood;
    if !s.complete {
      var e := Summary(r, s.answer, s.hashCount, s.found);
      SummaryComplete(c, s.log, e);
      QuietTried(s.log, e);
      QuietGood(c, s.log, e, r + 1);
    }
  }

  lemma {:induction false} LoggedTried(log: seq<Event>, h: nat)
    requires h < |log| && log[h].Hashed?
    ensures Tried(log, log[h].work) != []
  {
    if h < |log| - 1 {
      LoggedTried(log[..|log| - 1], h);
    }
  }

  lemma NoneTried(c: Task, log: seq<Event>, r: nat)
    requires NotPulled(c, log, r, 0)
    ensures HitsFound(c, log, r, false)
  {
    forall h: nat | h < |log| && log[h].Hashed?
      ensures log[h].work.user != r
    {
      LoggedTried(log, h);
    }
    hide Tried;
  }

  lemma OpenTrials(c: Task, s: State, r: nat)
    requires Legal(c) && ClosePhase(c, s, r) && CloseTrials(c, s, r) && CanTrip(s)
    ensures SearchTrials(c, Trip(s), r + 1, 0)
  {
    var n := Trip(s);
    forall k: nat | k < |s.threads| ensures n.threads[k] == Pulling && s.threads[k].SecondBarrier? {
      assert ClosingThread(c, r, s.threads[k]);
    }
    assert s.threads[0].SecondBarrier?;
    assert s.complete && !n.found;
    hide ClosePhase, LogGood, AnswerTried, AllClosing;
    NoneTried(c, s.log, r + 1);
  }

  // ---- every run --------------------------------------------------------------------------------

  ghost predicate InRound(c: Task, s: State) {
    || (exists r: nat, holders: seq<nat> :: SearchPhase(c, s, r, holders) && SearchTrials(c, s, r, |holders|))
    || (exists r: nat :: ClosePhase(c, s, r) && CloseTrials(c, s, r))
  }

  lemma SearchThread(c: Task, s: State, r: nat, holders: seq<nat>, k: nat)
    requires SearchPhase(c, s, r, holders) && Enabled(c, s, k)
    ensures k < |s.threads| && !s.threads[k].Summing?
  {
    ThreadSearching(c, s, r, holders, k);
  }

  lemma StepTrials(c: Task, s: State, t: State)
    requires Legal(c) && InRound(c, s) && Step(c, s, t)
    ensures InRound(c, t)
  {
    hide SearchPhase, ClosePhase, Next, CanTrip, Enabled, SearchTrials, CloseTrials;
    if r: nat, holders: seq<nat> :| SearchPhase(c, s, r, holders) && SearchTrials(c, s, r, |holders|) {
      if k: nat :| Enabled(c, s, k) && t == Next(c, s, k) {
        var more := SearchStepKeeps(c, s, r, holders, k);
        SearchThread(c, s, r, holders, k);
        if s.threads[k].Trying? {
          TryStep(c, s, r, holders, k);
        } else {
          QuietStep(c, s, r, holders, k);
        }
      } else {
        TripCloses(c, s, r, holders);
        TripTrials(c, s, r, holders);
      }
    } else {
      var r: nat :| ClosePhase(c, s, r) && CloseTrials(c, s, r);
      if k: nat :| Enabled(c, s, k) && t == Next(c, s, k) {
        CloseKeeps(c, s, r, k);
        CloseTrialsKeep(c, s, r, k);
      } else {
        TripOpens(c, s, r);
        OpenTrials(c, s, r);
      }
    }
  }

  lemma StartTrials(c: Task)
    requires Legal(c)
    ensures InRound(c, Start(c))
  {
    StartAligned(c);
    var s := Start(c);
    assert Items(c)[0..] == Items(c);
    NothingPending(s.threads);
    assert Shape([]) == Rounds(0) + [];
    assert SearchPhase(c, s, 0, []);
    hide SearchPhase;
    assert SearchTrials(c, s, 0, 0);
  }

  /** The log is in order after every run. */
  lemma {:induction false} RunsTry(c: Task, ss: seq<State>)
    requires Run(c, ss)
    ensures InRound(c, ss[|ss| - 1])
    decreases |ss|
  {
    hide InRound, Step, Start;
    var n := |ss| - 1;
    if n == 0 {
      StartTrials(c);
    } else {
      RunsTry(c, ss[..n]);
      assert Step(c, ss[n - 1], ss[n]);
      StepTrials(c, ss[n - 1], ss[n]);
    }
  }

  lemma RunLogGood(c: Task, ss: seq<State>)
    requires Run(c, ss)
    ensures LogGood(c, ss[|ss| - 1].log, |c.users|)
  {
    RunsTry(c, ss);
    var s := ss[|ss| - 1];
    if r: nat, holders: seq<nat> :| SearchPhase(c, s, r, holders) && SearchTrials(c, s, r, |holders|) {
      hide AllInTurn, KnownShares, HitsStop, Complete;
    } else {
      var r: nat :| ClosePhase(c, s, r) && CloseTrials(c, s, r);
      hide AllInTurn, KnownShares, HitsStop, Complete;
    }
  }

  /** On every schedule: the candidates of each share are hashed from its start on, in turn and each
      once, and no other candidate is. */
  lemma SharesTriedInTurn(c: Task, ss: seq<State>)
    requires Run(c, ss)
    ensures AllInTurn(c, ss[|ss| - 1].log) && KnownShares(c, ss[|ss| - 1].log)
  {
    RunLogGood(c, ss);
    hide Tried, InTurn;
  }

  /** After a hit is logged its thread hashes nothing more for that user, and each other thread at most
      one candidate more. */
  lemma HitsEndTheSearch(c: Task, ss: seq<State>, h: nat, w: Work)
    requires Run(c, ss) && h < |ss[|ss| - 1].log|
    requires var e := ss[|ss| - 1].log[h]; Hits(c, e) && w.user == e.work.user
    ensures Later(ss[|ss| - 1].log, h, w) <= Allowed(ss[|ss| - 1].log[h], w)
  {
    RunLogGood(c, ss);
    hide Later, Complete, InTurn;
  }

  // ---- the counts -------------------------------------------------------------------------------

  /** Candidates hashed in the first `n` shares of a user. */
  function TriedSum(log: seq<Event>, u: nat, n: nat): nat {
    if n == 0 then 0 else TriedSum(log, u, n - 1) + |Tried(log, Work(u, n - 1))|
  }

  /** Candidates in the first `n` shares of a user. */
  function CountSum(c: Task, u: nat, n: nat): nat
    requires u < |c.users| && n <= |c.users[u].parts|
  {
    if n == 0 then 0 else CountSum(c, u, n - 1) + Share(c, Work(u, n - 1)).count
  }

  lemma {:induction false} TriedSumMore(log: seq<Event>, e: Event, u: nat, n: nat)
    ensures TriedSum(log + [e], u, n)
         == TriedSum(log, u, n) + if e.Hashed? && e.work.user == u && e.work.part < n then 1 else 0
  {
    hide Tried;
    if n > 0 {
      TriedSumMore(log, e, u, n - 1);
      TriedMore(log, e, Work(u, n - 1));
    }
  }

  lemma {:induction false} NothingTried(u: nat, n: nat)
    ensures TriedSum([], u, n) == 0
  {
    if n > 0 {
      NothingTried(u, n - 1);
    }
  }

  lemma {:induction false} HashesAreTried(c: Task, log: seq<Event>, u: nat)
    requires Legal(c) && KnownShares(c, log) && u < |c.users|
    ensures Hashes(log, u) == TriedSum(log, u, c.threads)
  {
    if log == [] {
      NothingTried(u, c.threads);
    } else {
      var n := |log| - 1;
      HashesAreTried(c, log[..n], u);
      TriedSumMore(log[..n], log[n], u, c.threads);
      assert log == log[..n] + [log[n]];
      assert log[n].Hashed? ==> InTask(c, log[n].work);
    }
  }

  lemma {:induction false} AllTried(c: Task, log: seq<Event>, u: nat, n: nat)
    requires u < |c.users| && n <= |c.users[u].parts|
    requires forall w: Work :: w.user == u && InTask(c, w) ==> |Tried(log, w)| == Share(c, w).count
    ensures TriedSum(log, u, n) == CountSum(c, u, n)
  {
    hide Tried;
    if n > 0 {
      AllTried(c, log, u, n - 1);
      assert InTask(c, Work(u, n - 1));
    }
  }

  /** Every summary counts the candidates hashed in all shares of its user.  When it reports that nothing
      was found all of every share was hashed, so the count is that of the shares; when it reports a find
      the answer was hashed.  Nothing of the user is hashed afterwards. */
  lemma SummariesCount(c: Task, ss: seq<State>, i: nat)
    requires Run(c, ss) && i < |ss[|ss| - 1].log| && ss[|ss| - 1].log[i].Summary?
    ensures var log := ss[|ss| - 1].log;
      var e := log[i];
      && Complete(c, log, i) && e.user < |c.users| && |c.users[e.user].parts| == c.threads
      && e.hashes == TriedSum(log[..i], e.user, c.threads)
      && (!e.found ==> e.hashes == CountSum(c, e.user, c.threads))
  {
    var log := ss[|ss| - 1].log;
    var e := log[i];
    RunLogGood(c, ss);
    SummariesTruthful(c, ss, i);
    assert Complete(c, log, i);
    hide AllInTurn, HitsStop, Tried, Findable, AllComplete, TriedSum, Hashes, Step;
    assert KnownShares(c, log[..i]);
    HashesAreTried(c, log[..i], e.user);
    if !e.found {
      AllTried(c, log[..i], e.user, c.threads);
    }
  }
}
