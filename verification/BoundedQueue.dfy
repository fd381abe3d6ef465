/** The blocking queue with a bound: producers and consumers share one condition variable, and a signal
    can go to the wrong kind.  No consumer's wakeup is lost, and no producer left behind, exactly without a
    bound. */
module BoundedQueue {
  import opened BlockingQueue

  ghost predicate Reachable(maxSize: int, threads: nat, s: State) {
    exists ss: seq<State>, ms: seq<Move> :: Run(maxSize, threads, ss, ms) && s == ss[|ss| - 1]
  }

  lemma ReachCreate(maxSize: int, threads: nat)
    ensures Reachable(maxSize, threads, Create(maxSize, threads))
  {
    assert Run(maxSize, threads, [Create(maxSize, threads)], []);
  }

  lemma ReachNext(maxSize: int, threads: nat, s: State, m: Move)
    requires Reachable(maxSize, threads, s) && Enabled(s, m)
    ensures Reachable(maxSize, threads, Next(s, m))
  {
    hide Next, Create, LegalSignal;
    var ss: seq<State>, ms: seq<Move> :| Run(maxSize, threads, ss, ms) && s == ss[|ss| - 1];
    var tt, ns := ss + [Next(s, m)], ms + [m];
    forall i: nat | i < |ns| ensures Enabled(tt[i], ns[i]) && tt[i + 1] == Next(tt[i], ns[i]) {
      assert i < |ms| ==> Enabled(ss[i], ms[i]) && ss[i + 1] == Next(ss[i], ms[i]);
    }
    assert Run(maxSize, threads, tt, ns);
  }

  /** Whenever a consumer sleeps, at least as many consumers are awake as elements are queued. */
  ghost predicate WakeupsCover(s: State) {
    SomeoneSleeps(s.threads) ==> AwakePulls(s.threads) >= s.size
  }

  // ---- for every bound, a run that breaks it -----------------------------------------------------

  function Fill(n: nat): seq<Pointer> {
    seq(n, _ => 0)
  }

  /** `bound + 1` consumers, of which `woken` are awake and the rest of the first `asleep` sleep, and two
      producers. */
  function Cast(bound: nat, asleep: nat, woken: nat, p: Thread, q: Thread): (ts: seq<Thread>)
    ensures |ts| == bound + 3
  {
    seq(bound + 1, k requires 0 <= k => if k < woken then PullAwake else if k < asleep then PullAsleep else Idle)
    + [p, q]
  }

  function Scene(bound: nat, asleep: nat, woken: nat, p: Thread, q: Thread): State {
    State(Fill(woken), woken, bound, Cast(bound, asleep, woken, p, q), Fill(woken), [])
  }

  lemma ConsumerSleeps(bound: nat, i: nat)
    requires i <= bound && Reachable(bound, bound + 3, Scene(bound, i, 0, Idle, Idle))
    ensures Reachable(bound, bound + 3, Scene(bound, i + 1, 0, Idle, Idle))
  {
    var s := Scene(bound, i, 0, Idle, Idle);
    var m := EnterPull(i, {0});
    if i > 0 {
      assert Sleeps(s.threads[i := Idle][0]);
    }
    assert Cast(bound, i + 1, 0, Idle, Idle) == s.threads[i := PullAsleep];
    ReachNext(bound, bound + 3, s, m);
  }

  lemma PushWakes(bound: nat, i: nat)
    requires i < bound && Reachable(bound, bound + 3, Scene(bound, bound + 1, i, Idle, Idle))
    ensures Reachable(bound, bound + 3, Scene(bound, bound + 1, i + 1, Idle, Idle))
  {
    var s := Scene(bound, bound + 1, i, Idle, Idle);
    var m := EnterPush(bound + 1, 0, {i});
    assert Sleeps(s.threads[bound + 1 := Idle][i]);
    assert Cast(bound, bound + 1, i + 1, Idle, Idle) == Signal(s.threads[bound + 1 := Idle], {i});
    assert Fill(i + 1) == Fill(i) + [0];
    ReachNext(bound, bound + 3, s, m);
  }

  lemma {:induction false} AllSleep(bound: nat, i: nat)
    requires i <= bound + 1
    ensures Reachable(bound, bound + 3, Scene(bound, i, 0, Idle, Idle))
  {
    if i == 0 {
      ReachCreate(bound, bound + 3);
      assert Cast(bound, 0, 0, Idle, Idle) == seq(bound + 3, _ => Idle);
      assert Fill(0) == [];
    } else {
      AllSleep(bound, i - 1);
      ConsumerSleeps(bound, i - 1);
    }
  }

  lemma {:induction false} QueueFills(bound: nat, i: nat)
    requires i <= bound
    ensures Reachable(bound, bound + 3, Scene(bound, bound + 1, i, Idle, Idle))
  {
    if i == 0 {
      AllSleep(bound, bound + 1);
    } else {
      QueueFills(bound, i - 1);
      PushWakes(bound, i - 1);
    }
  }

  /** Both producers find the queue full and sleep beside the last consumer. */
  lemma ProducersSleep(bound: nat)
    requires bound > 0
    ensures Reachable(bound, bound + 3, Scene(bound, bound + 1, bound, PushAsleep(0), PushAsleep(0)))
  {
    QueueFills(bound, bound);
    var s := Scene(bound, bound + 1, bound, Idle, Idle);
    var t := Scene(bound, bound + 1, bound, PushAsleep(0), Idle);
    var u := Scene(bound, bound + 1, bound, PushAsleep(0), PushAsleep(0));
    assert Sleeps(s.threads[bound + 1 := Idle][bound]) && Sleeps(t.threads[bound + 2 := Idle][bound]);
    assert t.threads == s.threads[bound + 1 := PushAsleep(0)];
    assert u.threads == t.threads[bound + 2 := PushAsleep(0)];
    ReachNext(bound, bound + 3, s, EnterPush(bound + 1, 0, {bound}));
    ReachNext(bound, bound + 3, t, EnterPush(bound + 2, 0, {bound}));
  }

  /** After the first consumer pulled: its signal woke the first producer. */
  function Pulled(bound: nat): State
    requires bound > 0
  {
    State(Fill(bound - 1), bound - 1, bound,
          Cast(bound, bound + 1, bound, PushAwake(0), PushAsleep(0))[0 := Idle], Fill(bound), [0])
  }

  /** After that producer pushed: its signal woke the second producer. */
  function Refilled(bound: nat): State
    requires bound > 0
  {
    State(Fill(bound), bound, bound,
          Cast(bound, bound + 1, bound, Idle, PushAwake(0))[0 := Idle], Fill(bound + 1), [0])
  }

  /** The first consumer's signal goes to the first producer. */
  lemma FirstGoesAstray(bound: nat)
    requires bound > 0
    ensures Reachable(bound, bound + 3, Pulled(bound))
  {
    ProducersSleep(bound);
    var s := Scene(bound, bound + 1, bound, PushAsleep(0), PushAsleep(0));
    assert Sleeps(s.threads[0 := Idle][bound + 1]);
    assert Pulled(bound).threads == Signal(s.threads[0 := Idle], {bound + 1});
    assert Fill(bound)[1..] == Fill(bound - 1) && [] + [Fill(bound)[0]] == [0];
    ReachNext(bound, bound + 3, s, Recheck(0, {bound + 1}));
  }

  lemma SignalsGoAstray(bound: nat)
    requires bound > 0
    ensures Reachable(bound, bound + 3, Refilled(bound))
  {
    FirstGoesAstray(bound);
    var t := Pulled(bound);
    assert Sleeps(t.threads[bound + 1 := Idle][bound + 2]);
    assert Refilled(bound).threads == Signal(t.threads[bound + 1 := Idle], {bound + 2});
    assert Fill(bound - 1) + [0] == Fill(bound) && Fill(bound) + [0] == Fill(bound + 1);
    ReachNext(bound, bound + 3, t, Recheck(bound + 1, {bound + 2}));
  }

  /** Exactly the threads of a stretch are awake consumers. */
  lemma {:induction false} AwakeStretch(ts: seq<Thread>, low: nat, high: nat)
    requires low <= high <= |ts| && forall k: nat :: k < |ts| ==> (ts[k].PullAwake? <==> low <= k < high)
    ensures AwakePulls(ts) == high - low
  {
    if ts != [] {
      var n := |ts| - 1;
      assert forall k: nat :: k < n ==> ts[..n][k] == ts[k];
      AwakeStretch(ts[..n], if low < |ts| then low else n, if high < |ts| then high else n);
    }
  }

  /** For every bound, a reachable state where a consumer sleeps with more elements queued than consumers
      awake. */
  lemma BoundLosesWakeups(bound: nat)
    requires bound > 0
    ensures Reachable(bound, bound + 3, Refilled(bound)) && !WakeupsCover(Refilled(bound))
  {
    SignalsGoAstray(bound);
    var s := Refilled(bound);
    AwakeStretch(s.threads, 1, bound);
    assert s.threads[bound].PullAsleep?;
  }

  /** No wakeup is ever lost, for any number of threads, exactly when the queue has no bound. */
  lemma UnboundedExactly(maxSize: int)
    ensures maxSize <= 0 <==> forall threads: nat, s: State :: Reachable(maxSize, threads, s) ==> WakeupsCover(s)
  {
    hide AwakePulls, SomeoneSleeps;
    if maxSize <= 0 {
      forall threads: nat, s: State | Reachable(maxSize, threads, s) ensures WakeupsCover(s) {
        var ss: seq<State>, ms: seq<Move> :| Run(maxSize, threads, ss, ms) && s == ss[|ss| - 1];
        NoLostWakeup(maxSize, threads, ss, ms, |ss| - 1);
      }
    } else {
      BoundLosesWakeups(maxSize);
    }
  }

  // ---- a producer left behind --------------------------------------------------------------------

  /** A producer sleeps although there is room, and nobody is awake to wake it. */
  ghost predicate Stalled(s: State) {
    && !Full(s)
    && (exists k: nat :: k < |s.threads| && s.threads[k].PushAsleep?)
    && forall k: nat :: k < |s.threads| ==> s.threads[k].Idle? || Sleeps(s.threads[k])
  }

  /** `2 * bound` consumers and a producer.  Consumers from `idle` on are asleep, from `again` on awake,
      from `awake` on asleep, and from `asleep` on idle; those before `idle` are done. */
  function Crowd(bound: nat, idle: nat, again: nat, awake: nat, asleep: nat, p: Thread): (ts: seq<Thread>)
    ensures |ts| == 2 * bound + 1
  {
    seq(2 * bound, k requires 0 <= k =>
      if k < idle then Idle else if k < again then PullAsleep else if k < awake then PullAwake
      else if k < asleep then PullAsleep else Idle)
    + [p]
  }

  /** All consumers sleep once `i` is twice the bound. */
  function Arrived(bound: nat, i: nat): State {
    State([], 0, bound, Crowd(bound, 0, 0, 0, i, Idle), [], [])
  }

  /** `j` elements are in the queue, and as many consumers awake. */
  function Filling(bound: nat, j: nat, p: Thread): State {
    State(Fill(j), j, bound, Crowd(bound, 0, 0, j, 2 * bound, p), Fill(j), [])
  }

  /** `j` consumers have taken an element; each woke another consumer instead of the producer. */
  function Draining(bound: nat, j: nat): State
    requires j <= bound
  {
    State(Fill(bound - j), bound - j, bound, Crowd(bound, j, j, bound + j, 2 * bound, PushAsleep(0)),
          Fill(bound), Fill(j))
  }

  /** The queue is empty, and `j` of the consumers woken for nothing sleep again. */
  function Resting(bound: nat, j: nat): State {
    State([], 0, bound, Crowd(bound, bound, bound + j, 2 * bound, 2 * bound, PushAsleep(0)), Fill(bound), Fill(bound))
  }

  lemma {:induction false} ConsumersArrive(bound: nat, i: nat)
    requires i <= 2 * bound
    ensures Reachable(bound, 2 * bound + 1, Arrived(bound, i))
  {
    if i == 0 {
      ReachCreate(bound, 2 * bound + 1);
      assert Crowd(bound, 0, 0, 0, 0, Idle) == seq(2 * bound + 1, _ => Idle);
    } else {
      ConsumersArrive(bound, i - 1);
      var s := Arrived(bound, i - 1);
      if i > 1 {
        assert Sleeps(s.threads[i - 1 := Idle][0]);
      }
      assert Crowd(bound, 0, 0, 0, i, Idle) == s.threads[i - 1 := PullAsleep];
      ReachNext(bound, 2 * bound + 1, s, EnterPull(i - 1, {0}));
    }
  }

  lemma {:induction false} ProducerFills(bound: nat, j: nat)
    requires j <= bound
    ensures Reachable(bound, 2 * bound + 1, Filling(bound, j, Idle))
  {
    if j == 0 {
      ConsumersArrive(bound, 2 * bound);
      assert Fill(0) == [];
    } else {
      ProducerFills(bound, j - 1);
      var s := Filling(bound, j - 1, Idle);
      assert Sleeps(s.threads[2 * bound := Idle][j - 1]);
      assert Crowd(bound, 0, 0, j, 2 * bound, Idle) == Signal(s.threads[2 * bound := Idle], {j - 1});
      assert Fill(j) == Fill(j - 1) + [0];
      ReachNext(bound, 2 * bound + 1, s, EnterPush(2 * bound, 0, {j - 1}));
    }
  }

  lemma ProducerWaits(bound: nat)
    requires 0 < bound
    ensures Reachable(bound, 2 * bound + 1, Draining(bound, 0))
  {
    ProducerFills(bound, bound);
    var s := Filling(bound, bound, Idle);
    assert Sleeps(s.threads[2 * bound := Idle][bound]);
    assert Crowd(bound, 0, 0, bound, 2 * bound, PushAsleep(0)) == s.threads[2 * bound := PushAsleep(0)];
    assert Fill(0) == [];
    ReachNext(bound, 2 * bound + 1, s, EnterPush(2 * bound, 0, {bound}));
  }

  lemma DrainSignal(bound: nat, j: nat)
    requires j < bound
    ensures var ts := Crowd(bound, j, j, bound + j, 2 * bound, PushAsleep(0));
      && ts[j].PullAwake? && LegalSignal(ts[j := Idle], {bound + j})
      && Signal(ts[j := Idle], {bound + j}) == Crowd(bound, j + 1, j + 1, bound + j + 1, 2 * bound, PushAsleep(0))
  {
    var ts := Crowd(bound, j, j, bound + j, 2 * bound, PushAsleep(0));
    assert Sleeps(ts[j := Idle][bound + j]);
  }

  lemma DrainStep(bound: nat, j: nat)
    requires j < bound && Reachable(bound, 2 * bound + 1, Draining(bound, j))
    ensures Reachable(bound, 2 * bound + 1, Draining(bound, j + 1))
  {
    hide Reachable, Crowd, Signal, LegalSignal;
    var s := Draining(bound, j);
    DrainSignal(bound, j);
    assert s.list[1..] == Fill(bound - j - 1) && s.pulled + [s.list[0]] == Fill(j + 1);
    ReachNext(bound, 2 * bound + 1, s, Recheck(j, {bound + j}));
  }

  lemma {:induction false} ConsumersDrain(bound: nat, j: nat)
    requires 0 < bound && j <= bound
    ensures Reachable(bound, 2 * bound + 1, Draining(bound, j))
  {
    if j == 0 {
      ProducerWaits(bound);
    } else {
      ConsumersDrain(bound, j - 1);
      DrainStep(bound, j - 1);
    }
  }

  lemma {:induction false} ConsumersRest(bound: nat, j: nat)
    requires 0 < bound && j <= bound
    ensures Reachable(bound, 2 * bound + 1, Resting(bound, j))
  {
    if j == 0 {
      ConsumersDrain(bound, bound);
      assert Fill(0) == [];
    } else {
      ConsumersRest(bound, j - 1);
      var s := Resting(bound, j - 1);
      var k := bound + j - 1;
      assert Sleeps(s.threads[k := Idle][2 * bound]);
      assert Crowd(bound, bound, bound + j, 2 * bound, 2 * bound, PushAsleep(0)) == s.threads[k := PullAsleep];
      ReachNext(bound, 2 * bound + 1, s, Recheck(k, {2 * bound}));
    }
  }

  /** The harm on the other side, for every bound: signals meant for the producer go to consumers, until
      it sleeps beside an empty queue and nobody is awake. */
  lemma BoundedCanStall(bound: nat)
    requires bound > 0
    ensures Reachable(bound, 2 * bound + 1, Resting(bound, bound)) && Stalled(Resting(bound, bound))
  {
    ConsumersRest(bound, bound);
    assert Resting(bound, bound).threads[2 * bound].PushAsleep?;
  }

  /** A producer can be left behind exactly when the queue has a bound. */
  lemma StallsExactly(maxSize: int)
    ensures maxSize > 0 <==> exists threads: nat, s: State :: Reachable(maxSize, threads, s) && Stalled(s)
  {
    if maxSize > 0 {
      BoundedCanStall(maxSize);
    } else {
      forall threads: nat, s: State | Reachable(maxSize, threads, s)
        ensures !Stalled(s)
      {
        var ss: seq<State>, ms: seq<Move> :| Run(maxSize, threads, ss, ms) && s == ss[|ss| - 1];
        NoLostWakeup(maxSize, threads, ss, ms, |ss| - 1);
      }
    }
  }
}
