/** The device-wide semaphore: a shared counter where each waiter spins until the counter is back
    at the value its own fetch-and-decrement saw. Any number of threads acquire and release. */
module DeviceSemaphore {

  datatype Phase = Outside | Waiting(threshold: int) | Holding

  datatype State = State(value: int, threads: seq<Phase>)

  datatype Event = Decrement(t: nat) | Observe(t: nat) | Release(t: nat)

  ghost predicate Initial(s: State, v: nat) {
    s.value == v && forall t :: 0 <= t < |s.threads| ==> s.threads[t] == Outside
  }

  /** `Observe` is a spin load that ends the wait; loads that do not end it change nothing. */
  ghost predicate Enabled(s: State, e: Event) {
    match e
    case Decrement(t) => t < |s.threads| && s.threads[t].Outside?
    case Observe(t) => t < |s.threads| && s.threads[t].Waiting? && s.value >= s.threads[t].threshold
    case Release(t) => t < |s.threads| && s.threads[t].Holding?
  }

  function Apply(s: State, e: Event): State
    requires Enabled(s, e)
  {
    match e
    case Decrement(t) =>
      State(s.value - 1, s.threads[t := if s.value <= 0 then Waiting(s.value) else Holding])
    case Observe(t) => s.(threads := s.threads[t := Holding])
    case Release(t) => State(s.value + 1, s.threads[t := Outside])
  }

  ghost predicate Step(s: State, s': State) {
    exists e :: Enabled(s, e) && s' == Apply(s, e)
  }

  ghost predicate Run(v: nat, run: seq<State>) {
    && run != [] && Initial(run[0], v)
    && forall i :: 0 <= i < |run| - 1 ==> Step(run[i], run[i + 1])
  }

  function Holders(threads: seq<Phase>): nat {
    if threads == [] then 0 else Holders(threads[1..]) + if threads[0].Holding? then 1 else 0
  }

  function Waiters(threads: seq<Phase>): nat {
    if threads == [] then 0 else Waiters(threads[1..]) + if threads[0].Waiting? then 1 else 0
  }

  lemma {:induction false} CountUpdate(threads: seq<Phase>, t: nat, p: Phase)
    requires t < |threads|
    ensures Holders(threads[t := p]) == Holders(threads)
              - (if threads[t].Holding? then 1 else 0) + (if p.Holding? then 1 else 0)
    ensures Waiters(threads[t := p]) == Waiters(threads)
              - (if threads[t].Waiting? then 1 else 0) + (if p.Waiting? then 1 else 0)
  {
    if t == 0 {
      assert threads[t := p][1..] == threads[1..];
    } else {
      CountUpdate(threads[1..], t - 1, p);
      assert threads[t := p][1..] == threads[1..][t - 1 := p];
    }
  }

  // ---- invariant ----

  /** Some thread still waits for the value `x`. */
  ghost predicate Awaited(threads: seq<Phase>, x: int) {
    exists t :: 0 <= t < |threads| && threads[t] == Waiting(x)
  }

  /** Every value above the counter and up to zero is still awaited: a thread that left its wait
      at threshold `x` did so when the counter was at least `x`. */
  ghost predicate Inv(s: State, v: nat) {
    && s.value == v - Holders(s.threads) - Waiters(s.threads)
    && forall x :: s.value < x <= 0 ==> Awaited(s.threads, x)
  }

  lemma {:induction false} NoneInside(threads: seq<Phase>)
    requires forall t :: 0 <= t < |threads| ==> threads[t] == Outside
    ensures Holders(threads) == 0 && Waiters(threads) == 0
  {
    if threads != [] { NoneInside(threads[1..]); }
  }

  lemma AwaitedStays(threads: seq<Phase>, t: nat, p: Phase, x: int)
    requires t < |threads| && Awaited(threads, x) && threads[t] != Waiting(x)
    ensures Awaited(threads[t := p], x)
  {
    var u :| 0 <= u < |threads| && threads[u] == Waiting(x);
    assert threads[t := p][u] == Waiting(x);
  }

  lemma StepInv(s: State, v: nat, e: Event)
    requires Inv(s, v) && Enabled(s, e)
    ensures Inv(Apply(s, e), v)
  {
    var s', t := Apply(s, e), e.t;
    CountUpdate(s.threads, t, s'.threads[t]);
    forall x | s'.value < x <= 0
      ensures Awaited(s'.threads, x)
    {
      if e.Decrement? && x == s.value {
        assert s'.threads[t] == Waiting(x);
      } else {
        AwaitedStays(s.threads, t, s'.threads[t], x);
      }
    }
  }

  lemma {:induction false} RunInv(v: nat, run: seq<State>)
    requires Run(v, run)
    ensures Inv(run[|run| - 1], v)
    decreases |run|
  {
    if |run| == 1 {
      NoneInside(run[0].threads);
    } else {
      RunInv(v, run[..|run| - 1]);
      var s, s' := run[|run| - 2], run[|run| - 2 + 1];
      assert Step(s, s');
      var e :| Enabled(s, e) && s' == Apply(s, e);
      StepInv(s, v, e);
    }
  }

  // ---- counting waiters ----

  /** `k` distinct awaited values need `k` waiters. */
  lemma {:induction false} EnoughWaiters(threads: seq<Phase>, low: int, k: nat)
    requires forall x :: low < x <= low + k ==> Awaited(threads, x)
    ensures Waiters(threads) >= k
    decreases k
  {
    if k > 0 {
      var x := low + k;
      assert Awaited(threads, x);
      var t :| 0 <= t < |threads| && threads[t] == Waiting(x);
      var rest := threads[t := Outside];
      forall y | low < y <= low + k - 1
        ensures Awaited(rest, y)
      {
        AwaitedStays(threads, t, Outside, y);
      }
      EnoughWaiters(rest, low, k - 1);
      CountUpdate(threads, t, Outside);
    }
  }

  lemma {:induction false} CountBound(threads: seq<Phase>)
    ensures Holders(threads) + Waiters(threads) <= |threads|
  {
    if threads != [] { CountBound(threads[1..]); }
  }

  /** In every interleaving of acquires and matching releases at most `v` threads hold the
      semaphore, and the counter stays within `v` and `v` minus the number of threads. */
  lemma AtMostInitialHolders(v: nat, run: seq<State>)
    requires v > 0 && Run(v, run)
    ensures Holders(run[|run| - 1].threads) <= v
    ensures v - |run[|run| - 1].threads| <= run[|run| - 1].value <= v
  {
    RunInv(v, run);
    var s := run[|run| - 1];
    if s.value <= 0 {
      EnoughWaiters(s.threads, s.value, -s.value);
    }
    CountBound(s.threads);
  }

  // ---- when a wait ends ----

  ghost predicate StepBy(s: State, e: Event, s': State) { Enabled(s, e) && s' == Apply(s, e) }

  /** A run together with the event of each of its steps. */
  ghost predicate Trace(v: nat, run: seq<State>, events: seq<Event>) {
    && |run| == |events| + 1 && Initial(run[0], v)
    && forall i :: 0 <= i < |events| ==> StepBy(run[i], events[i], run[i + 1])
  }

  /** Releases less acquires among the given events. */
  function Balance(events: seq<Event>): int {
    if events == [] then 0
    else
      var e := events[|events| - 1];
      Balance(events[..|events| - 1]) + if e.Release? then 1 else if e.Decrement? then -1 else 0
  }

  lemma StepWaits(s: State, e: Event, t: nat)
    requires Enabled(s, e) && t < |s.threads|
    ensures |Apply(s, e).threads| == |s.threads|
    ensures s.threads[t].Waiting? && e != Observe(t) ==> Apply(s, e).threads[t] == s.threads[t]
    ensures Apply(s, e).value == s.value + Balance([e])
  {
    assert [e][..0] == [];
  }

  lemma {:induction false} WaitGoesOn(v: nat, run: seq<State>, events: seq<Event>, k: nat, j: nat, t: nat)
    requires Trace(v, run, events) && k <= j <= |events| && t < |run[k].threads| && run[k].threads[t].Waiting?
    requires Observe(t) !in events[k..j]
    ensures t < |run[j].threads| && run[j].threads[t] == run[k].threads[t]
    ensures run[j].value == run[k].value + Balance(events[k..j])
    decreases j
  {
    if k < j {
      var i := j - 1;
      assert events[k..j] == events[k..i] + [events[i]];
      WaitGoesOn(v, run, events, k, i, t);
      assert StepBy(run[i], events[i], run[i + 1]);
      StepWaits(run[i], events[i], t);
      assert Balance(events[k..j]) == Balance(events[k..i]) + Balance([events[i]]) by { assert [events[i]][..0] == []; }
    }
  }

  /** An acquire that finds a unit holds at once. One that finds none may go on exactly when, since its
      own decrement, the releases outnumber the later acquires. */
  lemma WaitEndsIff(v: nat, run: seq<State>, events: seq<Event>, k: nat, j: nat, t: nat)
    requires Trace(v, run, events) && k < j <= |events| && events[k] == Decrement(t)
    requires Observe(t) !in events[k + 1..j]
    ensures t < |run[k + 1].threads|
    ensures run[k].value > 0 ==> run[k + 1].threads[t] == Holding
    ensures run[k].value <= 0 ==> (Enabled(run[j], Observe(t)) <==> Balance(events[k + 1..j]) >= 1)
  {
    assert StepBy(run[k], events[k], run[k + 1]);
    if run[k].value <= 0 { WaitGoesOn(v, run, events, k + 1, j, t); }
  }

  // ---- progress is not guaranteed ----

  /** Somebody waits and nobody can move. */
  ghost predicate Stuck(s: State) {
    && (exists t :: 0 <= t < |s.threads| && s.threads[t].Waiting?)
    && forall e :: !Enabled(s, e)
  }

  ghost predicate Reaches(v: nat, s: State) {
    exists run :: Run(v, run) && run[|run| - 1] == s
  }

  lemma ReachStart(v: nat, s: State)
    requires Initial(s, v)
    ensures Reaches(v, s)
  {
    assert Run(v, [s]) && [s][|[s]| - 1] == s;
  }

  lemma ReachStep(v: nat, s: State, e: Event)
    requires Reaches(v, s) && Enabled(s, e)
    ensures Reaches(v, Apply(s, e))
  {
    var run :| Run(v, run) && run[|run| - 1] == s;
    var run' := run + [Apply(s, e)];
    forall i | 0 <= i < |run'| - 1
      ensures Step(run'[i], run'[i + 1])
    {
      if i < |run| - 1 { assert Step(run[i], run[i + 1]); }
    }
    assert Run(v, run') && run'[|run'| - 1] == Apply(s, e);
  }

  /** The first `i` threads hold. */
  function Acquired(v: nat, n: nat, i: nat): State
    requires i <= v
  {
    State(v - i, seq(n, t => if t < i then Holding else Outside))
  }

  /** Thread `v` waits, and the first `i` holders have released and come back as waiters. */
  function Returned(v: nat, n: nat, i: nat): State {
    State(-1, seq(n, t => if t < i || t == v then Waiting(0) else if t < v then Holding else Outside))
  }

  /** All threads below `i` wait, each at the value it found. */
  function Queued(v: nat, n: nat, i: nat): State {
    State(v - i, seq(n, t => if t <= v then Waiting(0) else if t < i then Waiting(v - t) else Outside))
  }

  lemma {:induction false} ReachAcquired(v: nat, n: nat, i: nat)
    requires i <= v < n
    ensures Reaches(v, Acquired(v, n, i))
  {
    if i == 0 {
      ReachStart(v, Acquired(v, n, 0));
    } else {
      ReachAcquired(v, n, i - 1);
      ReachStep(v, Acquired(v, n, i - 1), Decrement(i - 1));
      assert Apply(Acquired(v, n, i - 1), Decrement(i - 1)) == Acquired(v, n, i);
    }
  }

  lemma {:induction false} ReachReturned(v: nat, n: nat, i: nat)
    requires i <= v < n
    ensures Reaches(v, Returned(v, n, i))
  {
    if i == 0 {
      ReachAcquired(v, n, v);
      ReachStep(v, Acquired(v, n, v), Decrement(v));
      assert Apply(Acquired(v, n, v), Decrement(v)) == Returned(v, n, 0);
    } else {
      ReachReturned(v, n, i - 1);
      var s := Returned(v, n, i - 1);
      ReachStep(v, s, Release(i - 1));
      var s1 := Apply(s, Release(i - 1));
      ReachStep(v, s1, Decrement(i - 1));
      assert Apply(s1, Decrement(i - 1)) == Returned(v, n, i);
    }
  }

  lemma {:induction false} ReachQueued(v: nat, n: nat, i: nat)
    requires v < i <= n
    ensures Reaches(v, Queued(v, n, i))
  {
    if i == v + 1 {
      ReachReturned(v, n, v);
      assert Returned(v, n, v) == Queued(v, n, v + 1);
    } else {
      ReachQueued(v, n, i - 1);
      ReachStep(v, Queued(v, n, i - 1), Decrement(i - 1));
      assert Apply(Queued(v, n, i - 1), Decrement(i - 1)) == Queued(v, n, i);
    }
  }

  /** A released unit can be taken by a new acquirer before a waiter sees it, and then the new
      acquirer and the waiter share a threshold that the counter never reaches again. Threads can
      get stuck in this way exactly when there are more of them than units. */
  lemma StuckIffMoreThreadsThanUnits(v: nat, n: nat)
    requires v > 0
    ensures (exists s: State :: |s.threads| == n && Reaches(v, s) && Stuck(s)) <==> n > v
  {
    if n > v {
      ReachQueued(v, n, n);
      var s := Queued(v, n, n);
      assert s.threads[v].Waiting?;
      assert Stuck(s);
    } else {
      forall s: State | |s.threads| == n && Reaches(v, s)
        ensures !Stuck(s)
      {
        FewThreadsNeverWait(v, s);
      }
    }
  }

  ghost predicate NobodyWaits(s: State) {
    forall t :: 0 <= t < |s.threads| ==> !s.threads[t].Waiting?
  }

  lemma FewThreadsNeverWait(v: nat, s: State)
    requires Reaches(v, s) && |s.threads| <= v
    ensures NobodyWaits(s)
  {
    var run :| Run(v, run) && run[|run| - 1] == s;
    RunNobodyWaits(v, run);
  }

  lemma {:induction false} SomeoneOutside(threads: seq<Phase>, t: nat)
    requires t < |threads| && threads[t].Outside?
    ensures Holders(threads) + Waiters(threads) < |threads|
  {
    if t == 0 { CountBound(threads[1..]); } else { SomeoneOutside(threads[1..], t - 1); }
  }

  lemma {:induction false} RunNobodyWaits(v: nat, run: seq<State>)
    requires Run(v, run) && |run[|run| - 1].threads| <= v
    ensures NobodyWaits(run[|run| - 1])
    decreases |run|
  {
    if |run| > 1 {
      var s, s' := run[|run| - 2], run[|run| - 2 + 1];
      assert Step(s, s');
      var e :| Enabled(s, e) && s' == Apply(s, e);
      RunInv(v, run[..|run| - 1]);
      RunNobodyWaits(v, run[..|run| - 1]);
      if e.Decrement? { SomeoneOutside(s.threads, e.t); }
    }
  }
}
