/** The reusable barrier as a monitor: exactly `n` threads call it again and again, in any
    interleaving, and any sleeping thread may wake without being told to. */
module Barrier {
  import opened Basics

  const WRAP: nat := 0x1_0000_0000

  type Word = w: nat | w < WRAP

  /** `calls` is how often the thread has called; it has returned from all of them when outside, and
      from all but the last otherwise.  `saved` is the use count it saw when it arrived. */
  datatype Caller =
    | Outside(calls: nat)
    | Asleep(calls: nat, saved: Word)
    | Awake(calls: nat, saved: Word)

  /** `count` and `timesUsed` are the barrier's fields; `releases` is how often it has opened. */
  datatype State = State(count: Word, timesUsed: Word, callers: seq<Caller>, releases: nat)

  // ---- the invariant ----------------------------------------------------------------------------

  /** Has the thread's current round not opened yet? */
  predicate Pending(t: Caller, releases: nat) {
    t.calls == releases + 1
  }

  /** A thread outside is up to date; one inside waits for the next opening, or has missed none but the
      one that frees it.  Only threads still waiting sleep. */
  predicate Fits(t: Caller, releases: nat) {
    match t
    case Outside(calls) => calls == releases
    case Asleep(calls, saved) => calls == releases + 1 && saved == releases % WRAP
    case Awake(calls, saved) =>
      || (calls == releases + 1 && saved == releases % WRAP)
      || (calls == releases > 0 && saved == (releases - 1) % WRAP)
  }

  function Waiting(ts: seq<Caller>, releases: nat): (w: nat)
    ensures w <= |ts|
  {
    if ts == [] then 0
    else Waiting(ts[..|ts| - 1], releases) + if Pending(ts[|ts| - 1], releases) then 1 else 0
  }

  ghost predicate AllFit(ts: seq<Caller>, releases: nat) {
    forall k: nat :: k < |ts| ==> Fits(ts[k], releases)
  }

  ghost predicate Good(s: State) {
    && 0 < |s.callers| < WRAP
    && s.timesUsed == s.releases % WRAP
    && AllFit(s.callers, s.releases)
    && s.count == Waiting(s.callers, s.releases) < |s.callers|
  }

  /** Everyone waits exactly when the count says so. */
  lemma {:induction false} AllWaiting(ts: seq<Caller>, releases: nat)
    ensures Waiting(ts, releases) == |ts| <==> forall k: nat :: k < |ts| ==> Pending(ts[k], releases)
    ensures Waiting(ts, releases) == 0 <==> forall k: nat :: k < |ts| ==> !Pending(ts[k], releases)
  {
    if ts != [] {
      var n := |ts| - 1;
      AllWaiting(ts[..n], releases);
      assert forall k: nat :: k < n ==> ts[..n][k] == ts[k];
    }
  }

  /** A barrier for no threads is refused; any other starts with nobody waiting, good for its first
      round. */
  function Init(n: Word): (r: Option<State>)
    ensures r.None? <==> n == 0
    ensures r.Some? ==> Good(r.value) && |r.value.callers| == n && r.value.releases == 0
  {
    if n == 0 then None
    else
      var s := State(0, 0, seq(n, _ => Outside(0)), 0);
      AllWaiting(s.callers, 0);
      Some(s)
  }

  // ---- the steps --------------------------------------------------------------------------------

  function Wake(t: Caller): Caller {
    if t.Asleep? then Awake(t.calls, t.saved) else t
  }

  function WakeAll(ts: seq<Caller>): seq<Caller> {
    seq(|ts|, k requires 0 <= k < |ts| => Wake(ts[k]))
  }

  datatype Move = Arrive(k: nat) | Spurious(k: nat) | Recheck(k: nat)

  predicate Enabled(s: State, m: Move) {
    && m.k < |s.callers| < WRAP
    && match m
       case Arrive(k) => s.callers[k].Outside?
       case Spurious(k) => s.callers[k].Asleep?
       case Recheck(k) => s.callers[k].Awake?
  }

  /** What one thread does while it holds the mutex: it arrives, and opens the barrier or goes to
      sleep; or it wakes, looks at the use count, and leaves or goes back to sleep. */
  function Next(s: State, m: Move): State
    requires Enabled(s, m)
  {
    var t := s.callers[m.k];
    match m
    case Arrive(k) =>
      var count := (s.count + 1) % WRAP;
      if count == |s.callers| then
        State(0, (s.timesUsed + 1) % WRAP, WakeAll(s.callers)[k := Outside(t.calls + 1)], s.releases + 1)
      else
        s.(count := count, callers := s.callers[k := Asleep(t.calls + 1, s.timesUsed)])
    case Spurious(k) =>
      s.(callers := s.callers[k := Wake(t)])
    case Recheck(k) =>
      if t.saved == s.timesUsed then s.(callers := s.callers[k := Asleep(t.calls, t.saved)])
      else s.(callers := s.callers[k := Outside(t.calls)])
  }

  ghost predicate Run(n: Word, ss: seq<State>, ms: seq<Move>) {
    && |ss| == |ms| + 1 && Init(n) == Some(ss[0])
    && forall i: nat :: i < |ms| ==> Enabled(ss[i], ms[i]) && ss[i + 1] == Next(ss[i], ms[i])
  }

  lemma {:induction false} WaitingUpdate(ts: seq<Caller>, releases: nat, k: nat, t: Caller)
    requires k < |ts|
    ensures Waiting(ts[k := t], releases) == Waiting(ts, releases)
      - (if Pending(ts[k], releases) then 1 else 0) + (if Pending(t, releases) then 1 else 0)
  {
    var n := |ts| - 1;
    if k == n {
      assert ts[k := t][..n] == ts[..n];
    } else {
      WaitingUpdate(ts[..n], releases, k, t);
      assert ts[k := t][..n] == ts[..n][k := t];
    }
  }

  /** A use count that wrapped any number of times still tells a round from the next. */
  lemma NextDiffers(releases: nat)
    ensures (releases + 1) % WRAP != releases % WRAP
    ensures (releases % WRAP + 1) % WRAP == (releases + 1) % WRAP
  {
  }

  lemma OpensGood(s: State, k: nat)
    requires Good(s) && Enabled(s, Arrive(k)) && s.count + 1 == |s.callers|
    ensures Good(Next(s, Arrive(k)))
  {
    var n := Next(s, Arrive(k));
    NextDiffers(s.releases);
    var t := Outside(s.callers[k].calls + 1);
    WaitingUpdate(s.callers, s.releases, k, t);
    AllWaiting(s.callers[k := t], s.releases);
    forall j: nat | j < |n.callers|
      ensures Fits(n.callers[j], n.releases) && !Pending(n.callers[j], n.releases)
    {
      assert Fits(s.callers[j], s.releases);
      assert Pending(s.callers[k := t][j], s.releases);
    }
    AllWaiting(n.callers, n.releases);
  }

  /** Any other move changes one thread only. */
  lemma OtherMoves(s: State, m: Move)
    requires Good(s) && Enabled(s, m) && !(m.Arrive? && s.count + 1 == |s.callers|)
    ensures var n := Next(s, m); var t := n.callers[m.k];
      && n.callers == s.callers[m.k := t] && n.timesUsed == s.timesUsed && n.releases == s.releases
      && Fits(t, s.releases)
      && n.count == s.count - (if Pending(s.callers[m.k], s.releases) then 1 else 0)
                            + (if Pending(t, s.releases) then 1 else 0)
  {
    hide Waiting;
    NextDiffers(if s.releases > 0 then s.releases - 1 else 0);
    assert Fits(s.callers[m.k], s.releases);
    hide AllFit;
  }

  lemma NextGood(s: State, m: Move)
    requires Good(s) && Enabled(s, m)
    ensures Good(Next(s, m)) && |Next(s, m).callers| == |s.callers|
  {
    if m.Arrive? && s.count + 1 == |s.callers| {
      OpensGood(s, m.k);
    } else {
      OtherMoves(s, m);
      var n := Next(s, m);
      hide Next, Fits, Waiting, Pending;
      WaitingUpdate(s.callers, s.releases, m.k, n.callers[m.k]);
      assert AllFit(n.callers, n.releases);
    }
  }

  lemma {:induction false} RunsGood(n: Word, ss: seq<State>, ms: seq<Move>, i: nat)
    requires Run(n, ss, ms) && i < |ss|
    ensures Good(ss[i]) && |ss[i].callers| == n
  {
    hide Good, Next;
    if i > 0 {
      RunsGood(n, ss, ms, i - 1);
      NextGood(ss[i - 1], ms[i - 1]);
    }
  }

  // ---- what the barrier promises -----------------------------------------------------------------

  function Returned(t: Caller): int {
    if t.Outside? then t.calls else t.calls - 1
  }

  /** Nobody has returned from its `j`-th wait before everybody made its `j`-th call, and no two
      threads are more than one round apart. */
  lemma NobodyEarly(n: Word, ss: seq<State>, ms: seq<Move>, i: nat, j: nat, k: nat)
    requires Run(n, ss, ms) && i < |ss| && j < |ss[i].callers| && k < |ss[i].callers|
    ensures Returned(ss[i].callers[j]) <= ss[i].callers[k].calls
    ensures ss[i].callers[j].calls <= ss[i].callers[k].calls + 1
    ensures Returned(ss[i].callers[j]) <= Returned(ss[i].callers[k]) + 1
  {
    RunsGood(n, ss, ms, i);
    assert Fits(ss[i].callers[j], ss[i].releases) && Fits(ss[i].callers[k], ss[i].releases);
  }

  /** The 32-bit use count decides rightly, however often it has wrapped: a thread that looks at it
      leaves exactly when its round has opened, and sleeps again otherwise. */
  lemma WrapNeverMisleads(n: Word, ss: seq<State>, ms: seq<Move>, i: nat, k: nat)
    requires Run(n, ss, ms) && i < |ss| && k < |ss[i].callers| && !ss[i].callers[k].Outside?
    ensures ss[i].callers[k].saved != ss[i].timesUsed <==> ss[i].callers[k].calls <= ss[i].releases
    ensures ss[i].callers[k].Awake? ==>
      && Enabled(ss[i], Recheck(k))
      && (Next(ss[i], Recheck(k)).callers[k].Outside? <==> ss[i].callers[k].calls <= ss[i].releases)
      && (Next(ss[i], Recheck(k)).callers[k].Asleep? <==> ss[i].callers[k].calls > ss[i].releases)
  {
    RunsGood(n, ss, ms, i);
    assert Fits(ss[i].callers[k], ss[i].releases);
    NextDiffers(if ss[i].releases > 0 then ss[i].releases - 1 else 0);
  }

  /** A thread whose round has opened is awake, so it will leave: no wakeup is lost. */
  lemma OpenedIsAwake(n: Word, ss: seq<State>, ms: seq<Move>, i: nat, k: nat)
    requires Run(n, ss, ms) && i < |ss| && k < |ss[i].callers|
    requires !ss[i].callers[k].Outside? && ss[i].callers[k].calls <= ss[i].releases
    ensures Enabled(ss[i], Recheck(k)) && Next(ss[i], Recheck(k)).callers[k] == Outside(ss[i].callers[k].calls)
  {
    RunsGood(n, ss, ms, i);
    WrapNeverMisleads(n, ss, ms, i, k);
    assert Fits(ss[i].callers[k], ss[i].releases);
  }

  /** The threads are never all stuck inside: if nobody is outside, somebody is about to leave. */
  lemma NeverAllInside(n: Word, ss: seq<State>, ms: seq<Move>, i: nat) returns (k: nat)
    requires Run(n, ss, ms) && i < |ss|
    ensures k < |ss[i].callers|
    ensures ss[i].callers[k].Outside? || (Enabled(ss[i], Recheck(k)) && Next(ss[i], Recheck(k)).callers[k].Outside?)
  {
    RunsGood(n, ss, ms, i);
    AllWaiting(ss[i].callers, ss[i].releases);
    k :| k < |ss[i].callers| && !Pending(ss[i].callers[k], ss[i].releases);
    assert Fits(ss[i].callers[k], ss[i].releases);
    if !ss[i].callers[k].Outside? {
      OpenedIsAwake(n, ss, ms, i, k);
    }
  }
}
