/** The blocking queue as a monitor: any number of producers and consumers, any interleaving, wakeups
    out of nowhere, and signals that wake at least one sleeper, the environment choosing whom. */
module BlockingQueue {

  type Pointer = nat

  /** What a thread is doing: nothing, or waiting inside push or pull, asleep on the condition variable
      or awake and about to look again. */
  datatype Thread = Idle | PushAsleep(data: Pointer) | PushAwake(data: Pointer) | PullAsleep | PullAwake

  predicate Sleeps(t: Thread) {
    t.PushAsleep? || t.PullAsleep?
  }

  /** `pushed` and `pulled` record what went in and came out, oldest first. */
  datatype State = State(
    list: seq<Pointer>,
    size: int,
    maxSize: int,
    threads: seq<Thread>,
    pushed: seq<Pointer>,
    pulled: seq<Pointer>)

  function Create(maxSize: int, threads: nat): State {
    State([], 0, maxSize, seq(threads, _ => Idle), [], [])
  }

  function Woken(t: Thread): Thread {
    match t
    case PushAsleep(x) => PushAwake(x)
    case PullAsleep => PullAwake
    case _ => t
  }

  function Signal(ts: seq<Thread>, woken: set<nat>): seq<Thread> {
    seq(|ts|, k requires 0 <= k < |ts| => if k in woken then Woken(ts[k]) else ts[k])
  }

  /** A signal wakes at least one sleeper if there is one. */
  ghost predicate LegalSignal(ts: seq<Thread>, woken: set<nat>) {
    (exists k: nat :: k < |ts| && Sleeps(ts[k])) ==> exists k: nat :: k < |ts| && Sleeps(ts[k]) && k in woken
  }

  /** `Enter*` calls push or pull; `Recheck` is a thread that woke and holds the lock again. */
  datatype Move =
    | EnterPush(k: nat, data: Pointer, woken: set<nat>)
    | EnterPull(k: nat, woken: set<nat>)
    | Recheck(k: nat, woken: set<nat>)
    | Spurious(k: nat)

  predicate Full(s: State) {
    s.maxSize > 0 && s.size >= s.maxSize
  }

  /** The thread that pushes or pulls is done, and signals. */
  function Done(s: State, k: nat, woken: set<nat>): seq<Thread>
    requires k < |s.threads|
  {
    Signal(s.threads[k := Idle], woken)
  }

  function Push(s: State, k: nat, x: Pointer, woken: set<nat>): State
    requires k < |s.threads|
  {
    if Full(s) then s.(threads := s.threads[k := PushAsleep(x)])
    else s.(size := s.size + 1, list := s.list + [x], threads := Done(s, k, woken), pushed := s.pushed + [x])
  }

  /** The size says truly whether there is a first node to take; where it did not, the source would
      follow a null pointer, and there is no next state. */
  predicate SizeTrue(s: State) {
    s.size != 0 ==> s.list != []
  }

  function Pull(s: State, k: nat, woken: set<nat>): State
    requires k < |s.threads| && SizeTrue(s)
  {
    if s.size == 0 then s.(threads := s.threads[k := PullAsleep])
    else s.(size := s.size - 1, list := s.list[1..], threads := Done(s, k, woken), pulled := s.pulled + [s.list[0]])
  }

  ghost predicate Enabled(s: State, m: Move) {
    && m.k < |s.threads| && SizeTrue(s)
    && (m.EnterPush? || m.EnterPull? ==> s.threads[m.k].Idle?)
    && (m.Recheck? ==> s.threads[m.k].PushAwake? || s.threads[m.k].PullAwake?)
    && (m.Spurious? ==> Sleeps(s.threads[m.k]))
    && (!m.Spurious? ==> LegalSignal(s.threads[m.k := Idle], m.woken))
  }

  function Next(s: State, m: Move): State
    requires m.k < |s.threads| && SizeTrue(s)
  {
    match m
    case EnterPush(k, x, woken) => Push(s, k, x, woken)
    case EnterPull(k, woken) => Pull(s, k, woken)
    case Recheck(k, woken) =>
      if s.threads[k].PushAwake? then Push(s, k, s.threads[k].data, woken) else Pull(s, k, woken)
    case Spurious(k) => s.(threads := s.threads[k := Woken(s.threads[k])])
  }

  ghost predicate Run(maxSize: int, threads: nat, ss: seq<State>, ms: seq<Move>) {
    && |ss| == |ms| + 1 && ss[0] == Create(maxSize, threads)
    && forall i: nat :: i < |ms| ==> Enabled(ss[i], ms[i]) && ss[i + 1] == Next(ss[i], ms[i])
  }

  // ---- first in, first out ----------------------------------------------------------------------

  ghost predicate Sound(s: State, maxSize: int) {
    && s.maxSize == maxSize && s.size == |s.list| && s.pushed == s.pulled + s.list
    && (s.maxSize > 0 ==> s.size <= s.maxSize)
  }

  lemma NextSound(s: State, m: Move, maxSize: int)
    requires Sound(s, maxSize) && Enabled(s, m)
    ensures Sound(Next(s, m), maxSize) && |Next(s, m).threads| == |s.threads|
  {
    assert m.k < |s.threads| && SizeTrue(s);
    hide Enabled;
    if s.list != [] {
      assert s.list == [s.list[0]] + s.list[1..];
      assert s.pulled + [s.list[0]] + s.list[1..] == s.pulled + ([s.list[0]] + s.list[1..]);
    }
    forall x: Pointer
      ensures s.pushed + [x] == s.pulled + (s.list + [x])
    {
      assert s.pulled + s.list + [x] == s.pulled + (s.list + [x]);
    }
  }

  /** In every interleaving, bounded or not: what has been pulled is a prefix of what has been pushed,
      in order; the size is the number of elements in between, and never exceeds the bound. */
  lemma {:induction false} FirstInFirstOut(maxSize: int, threads: nat, ss: seq<State>, ms: seq<Move>, i: nat)
    requires Run(maxSize, threads, ss, ms) && i < |ss|
    ensures ss[i].pulled <= ss[i].pushed && ss[i].pushed == ss[i].pulled + ss[i].list
    ensures ss[i].size == |ss[i].pushed| - |ss[i].pulled|
    ensures maxSize > 0 ==> ss[i].size <= maxSize
    ensures Sound(ss[i], maxSize)
  {
    hide Enabled, Next;
    if i > 0 {
      FirstInFirstOut(maxSize, threads, ss, ms, i - 1);
      NextSound(ss[i - 1], ms[i - 1], maxSize);
    }
  }

  // ---- every call is served ----------------------------------------------------------------------

  /** A kind of call: a push of `x`, or a pull. */
  datatype Call = OfPush(x: Pointer) | OfPull

  /** Is the thread inside such a call? */
  predicate In(t: Thread, c: Call) {
    match c
    case OfPush(x) => (t.PushAsleep? || t.PushAwake?) && t.data == x
    case OfPull => t.PullAsleep? || t.PullAwake?
  }

  function Inside(ts: seq<Thread>, c: Call): nat {
    if ts == [] then 0 else Inside(ts[..|ts| - 1], c) + if In(ts[|ts| - 1], c) then 1 else 0
  }

  /** Does the move begin such a call? */
  predicate Begins(m: Move, c: Call) {
    match c
    case OfPush(x) => m.EnterPush? && m.data == x
    case OfPull => m.EnterPull?
  }

  function Begun(ms: seq<Move>, c: Call): nat {
    if ms == [] then 0 else Begun(ms[..|ms| - 1], c) + if Begins(ms[|ms| - 1], c) then 1 else 0
  }

  /** How often the element was put into the list, or how many were taken out. */
  function Served(s: State, c: Call): nat {
    match c
    case OfPush(x) => multiset(s.pushed)[x]
    case OfPull => |s.pulled|
  }

  lemma {:induction false} InsideUpdate(ts: seq<Thread>, k: nat, t: Thread, c: Call)
    requires k < |ts|
    ensures Inside(ts[k := t], c) == Inside(ts, c) - (if In(ts[k], c) then 1 else 0) + (if In(t, c) then 1 else 0)
  {
    hide In;
    var n := |ts| - 1;
    if k == n {
      assert ts[k := t][..n] == ts[..n];
    } else {
      InsideUpdate(ts[..n], k, t, c);
      assert ts[k := t][..n] == ts[..n][k := t];
    }
  }

  lemma {:induction false} SignalInside(ts: seq<Thread>, woken: set<nat>, c: Call)
    ensures Inside(Signal(ts, woken), c) == Inside(ts, c)
  {
    if ts != [] {
      var n := |ts| - 1;
      SignalInside(ts[..n], woken, c);
      assert Signal(ts, woken)[..n] == Signal(ts[..n], woken);
    }
  }

  lemma {:induction false} NobodyInside(n: nat, c: Call)
    ensures Inside(seq(n, _ => Idle), c) == 0
  {
    if n > 0 {
      NobodyInside(n - 1, c);
      assert seq(n, _ => Idle)[..n - 1] == seq(n - 1, _ => Idle);
    }
  }

  lemma PushServes(s: State, k: nat, x: Pointer, woken: set<nat>, c: Call)
    requires k < |s.threads|
    ensures var t := Push(s, k, x, woken);
      Served(t, c) + Inside(t.threads, c)
        == Served(s, c) + Inside(s.threads[k := Idle], c) + if c == OfPush(x) then 1 else 0
  {
    hide Inside, Signal;
    InsideUpdate(s.threads[k := Idle], k, PushAsleep(x), c);
    assert s.threads[k := Idle][k := PushAsleep(x)] == s.threads[k := PushAsleep(x)];
    SignalInside(s.threads[k := Idle], woken, c);
  }

  lemma PullServes(s: State, k: nat, woken: set<nat>, c: Call)
    requires k < |s.threads| && SizeTrue(s)
    ensures var t := Pull(s, k, woken);
      Served(t, c) + Inside(t.threads, c)
        == Served(s, c) + Inside(s.threads[k := Idle], c) + if c == OfPull then 1 else 0
  {
    hide Inside, Signal;
    InsideUpdate(s.threads[k := Idle], k, PullAsleep, c);
    assert s.threads[k := Idle][k := PullAsleep] == s.threads[k := PullAsleep];
    SignalInside(s.threads[k := Idle], woken, c);
  }

  /** A move that begins a call leaves one more served or inside; any other leaves as many. */
  lemma NextServes(s: State, m: Move, c: Call)
    requires Enabled(s, m)
    ensures Served(Next(s, m), c) + Inside(Next(s, m).threads, c)
         == Served(s, c) + Inside(s.threads, c) + if Begins(m, c) then 1 else 0
  {
    InsideUpdate(s.threads, m.k, Idle, c);
    hide Inside, Push, Pull, LegalSignal;
    match m
    case EnterPush(k, x, woken) => PushServes(s, k, x, woken, c);
    case EnterPull(k, woken) => PullServes(s, k, woken, c);
    case Recheck(k, woken) =>
      if s.threads[k].PushAwake? {
        PushServes(s, k, s.threads[k].data, woken, c);
      } else {
        PullServes(s, k, woken, c);
      }
    case Spurious(k) => InsideUpdate(s.threads, k, Woken(s.threads[k]), c);
  }

  /** In every interleaving each call is served once or still inside: as many calls of push were given
      an element as have put it into the list or wait to, and as many calls of pull were made as have
      taken an element out or wait for one. */
  lemma {:induction false} CallsAreServed(maxSize: int, threads: nat, ss: seq<State>, ms: seq<Move>, i: nat, c: Call)
    requires Run(maxSize, threads, ss, ms) && i < |ss|
    ensures Begun(ms[..i], c) == Served(ss[i], c) + Inside(ss[i].threads, c)
  {
    hide Enabled, Next, Inside, Begins;
    if i == 0 {
      NobodyInside(threads, c);
    } else {
      CallsAreServed(maxSize, threads, ss, ms, i - 1, c);
      NextServes(ss[i - 1], ms[i - 1], c);
      assert ms[..i][..i - 1] == ms[..i - 1];
    }
  }

  // ---- no lost wakeup without a bound -------------------------------------------------------------

  /** Consumers that have been woken and have not looked yet. */
  function AwakePulls(ts: seq<Thread>): nat {
    if ts == [] then 0 else AwakePulls(ts[..|ts| - 1]) + if ts[|ts| - 1].PullAwake? then 1 else 0
  }

  ghost predicate SomeoneSleeps(ts: seq<Thread>) {
    exists k: nat :: k < |ts| && ts[k].PullAsleep?
  }

  /** Producers never wait, and if a consumer sleeps, enough others are awake for what is queued. */
  ghost predicate Covered(s: State) {
    && (forall k: nat :: k < |s.threads| ==> !s.threads[k].PushAsleep? && !s.threads[k].PushAwake?)
    && (SomeoneSleeps(s.threads) ==> AwakePulls(s.threads) >= |s.list|)
  }

  lemma {:induction false} AwakeUpdate(ts: seq<Thread>, k: nat, t: Thread)
    requires k < |ts|
    ensures AwakePulls(ts[k := t]) == AwakePulls(ts)
      - (if ts[k].PullAwake? then 1 else 0) + (if t.PullAwake? then 1 else 0)
  {
    var n := |ts| - 1;
    if k == n {
      assert ts[k := t][..n] == ts[..n];
    } else {
      AwakeUpdate(ts[..n], k, t);
      assert ts[k := t][..n] == ts[..n][k := t];
    }
  }

  lemma {:induction false} SignalWakes(ts: seq<Thread>, woken: set<nat>)
    ensures AwakePulls(Signal(ts, woken)) >= AwakePulls(ts)
    ensures (exists k: nat :: k < |ts| && ts[k].PullAsleep? && k in woken) ==>
      AwakePulls(Signal(ts, woken)) >= AwakePulls(ts) + 1
  {
    if ts != [] {
      var n := |ts| - 1;
      SignalWakes(ts[..n], woken);
      assert Signal(ts, woken)[..n] == Signal(ts[..n], woken);
      assert forall k: nat :: k < n ==> ts[..n][k] == ts[k];
    }
  }

  /** After a signal at least one more consumer is awake, if one slept; nobody new sleeps. */
  lemma DoneCovers(s: State, k: nat, woken: set<nat>)
    requires Covered(s) && k < |s.threads| && LegalSignal(s.threads[k := Idle], woken)
    ensures var ts := Done(s, k, woken);
      && (forall j: nat :: j < |ts| ==> !ts[j].PushAsleep? && !ts[j].PushAwake?)
      && AwakePulls(ts) >= AwakePulls(s.threads) - (if s.threads[k].PullAwake? then 1 else 0)
      && (SomeoneSleeps(ts) ==>
            (SomeoneSleeps(s.threads)
             && AwakePulls(ts) >= AwakePulls(s.threads) + 1 - (if s.threads[k].PullAwake? then 1 else 0)))
  {
    var idle := s.threads[k := Idle];
    var ts := Done(s, k, woken);
    AwakeUpdate(s.threads, k, Idle);
    SignalWakes(idle, woken);
    hide AwakePulls;
    if SomeoneSleeps(ts) {
      var j: nat :| j < |ts| && ts[j].PullAsleep?;
      assert idle[j].PullAsleep? && s.threads[j].PullAsleep?;
      assert Sleeps(idle[j]);
    }
  }

  lemma NextCovers(s: State, m: Move)
    requires Sound(s, s.maxSize) && s.maxSize <= 0 && Covered(s) && Enabled(s, m)
    ensures Covered(Next(s, m))
  {
    if m.Spurious? {
      AwakeUpdate(s.threads, m.k, Woken(s.threads[m.k]));
    } else {
      DoneCovers(s, m.k, m.woken);
      AwakeUpdate(s.threads, m.k, PullAsleep);
    }
    hide AwakePulls, LegalSignal, Signal;
  }

  /** Without a bound no wakeup is lost: whenever a consumer sleeps, at least as many consumers are
      awake and about to look as there are elements queued. */
  lemma {:induction false} NoLostWakeup(maxSize: int, threads: nat, ss: seq<State>, ms: seq<Move>, i: nat)
    requires maxSize <= 0 && Run(maxSize, threads, ss, ms) && i < |ss|
    ensures SomeoneSleeps(ss[i].threads) ==> AwakePulls(ss[i].threads) >= ss[i].size
    ensures Covered(ss[i])
  {
    hide Enabled, Next;
    FirstInFirstOut(maxSize, threads, ss, ms, i);
    if i > 0 {
      NoLostWakeup(maxSize, threads, ss, ms, i - 1);
      FirstInFirstOut(maxSize, threads, ss, ms, i - 1);
      NextCovers(ss[i - 1], ms[i - 1]);
    }
  }

  lemma {:induction false} SomeoneAwake(ts: seq<Thread>) returns (k: nat)
    requires AwakePulls(ts) > 0
    ensures k < |ts| && ts[k].PullAwake?
  {
    var n := |ts| - 1;
    if ts[n].PullAwake? {
      k := n;
    } else {
      k := SomeoneAwake(ts[..n]);
    }
  }

  /** So while something is queued and a consumer waits, some waiting consumer is awake and its next
      look takes the first element. */
  lemma QueuedIsTaken(maxSize: int, threads: nat, ss: seq<State>, ms: seq<Move>, i: nat, w: nat) returns (k: nat)
    requires maxSize <= 0 && Run(maxSize, threads, ss, ms) && i < |ss| && ss[i].list != []
    requires w < |ss[i].threads| && !ss[i].threads[w].Idle?
    ensures k < |ss[i].threads| && ss[i].threads[k].PullAwake? && SizeTrue(ss[i])
    ensures forall woken: set<nat> :: Next(ss[i], Recheck(k, woken)).pulled == ss[i].pulled + [ss[i].list[0]]
  {
    NoLostWakeup(maxSize, threads, ss, ms, i);
    FirstInFirstOut(maxSize, threads, ss, ms, i);
    if ss[i].threads[w].PullAwake? {
      k := w;
    } else {
      k := SomeoneAwake(ss[i].threads);
    }
  }
}
