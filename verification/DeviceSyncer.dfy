/** The device-wide barrier: three rotating counters and one shared index, used by `n` blocks for
    any number of rounds. Each load, store and fetch-add is one step. */
module DeviceSyncer {

  import opened Arith

  /** Where a block is inside `sync`; `ci` is the counter it chose. */
  datatype Phase =
    | Outside
    | Chosen(ci: nat)     // has read the shared index
    | Ready(ci: nat)      // has reset the next counter, about to add
    | Spinning(ci: nat)   // has added, waiting for the counter to reach the target
    | Leaving(ci: nat)    // saw the target, about to publish the index

  /** `done` counts the rounds a block has completed. */
  datatype Block = Block(done: nat, phase: Phase)

  datatype State = State(count: seq<nat>, idx: nat, blocks: seq<Block>)

  ghost predicate Shape(s: State) { |s.count| == 3 && s.idx < 3 }

  /** The next counter in the rotation. */
  function Next(ci: nat): (r: nat)
    requires ci < 3
    ensures r == (ci + 1) % 3
  {
    if ci == 2 then 0 else ci + 1
  }

  /** Zeroed counters; the index may be left over from earlier use. */
  ghost predicate Initial(s: State, start: nat) {
    && s.count == [0, 0, 0] && s.idx == start < 3
    && |s.blocks| >= 2
    && forall b :: 0 <= b < |s.blocks| ==> s.blocks[b] == Block(0, Outside)
  }

  ghost predicate Enabled(s: State, b: nat) {
    && Shape(s) && b < |s.blocks|
    && match s.blocks[b].phase
       case Outside => true
       case Chosen(ci) => ci < 3
       case Ready(ci) => ci < 3
       case Spinning(ci) => ci < 3 && s.count[ci] == |s.blocks|
       case Leaving(ci) => ci < 3
  }

  function SetBlock(s: State, b: nat, blk: Block): State
    requires b < |s.blocks|
  {
    s.(blocks := s.blocks[b := blk])
  }

  /** The next step of block `b`. A spinning block moves only when it sees the target. */
  function Apply(s: State, b: nat): State
    requires Enabled(s, b)
  {
    var blk := s.blocks[b];
    match blk.phase
    case Outside => SetBlock(s, b, blk.(phase := Chosen(Next(s.idx))))
    case Chosen(ci) => SetBlock(s, b, blk.(phase := Ready(ci))).(count := s.count[Next(ci) := 0])
    case Ready(ci) => SetBlock(s, b, blk.(phase := Spinning(ci))).(count := s.count[ci := s.count[ci] + 1])
    case Spinning(ci) => SetBlock(s, b, blk.(phase := Leaving(ci)))
    case Leaving(ci) => SetBlock(s, b, Block(blk.done + 1, Outside)).(idx := ci)
  }

  ghost predicate Step(s: State, s': State) {
    exists b :: Enabled(s, b) && s' == Apply(s, b)
  }

  ghost predicate Run(start: nat, run: seq<State>) {
    && run != [] && Initial(run[0], start)
    && forall i :: 0 <= i < |run| - 1 ==> Step(run[i], run[i + 1])
  }

  /** How many rounds a block has arrived at. */
  function Arrivals(blk: Block): nat {
    blk.done + if blk.phase.Spinning? || blk.phase.Leaving? then 1 else 0
  }

  // ---- invariant ----

  /** The counter of round `k`, when the index started at `start`. */
  function Counter(start: nat, k: nat): (r: nat)
    requires start < 3
    ensures r < 3
  {
    if k == 0 then start else Next(Counter(start, k - 1))
  }

  /** The block has not left round `a`. */
  ghost predicate Behind(blk: Block, a: nat) { a >= 1 && blk.done == a - 1 }

  /** When every block has arrived at round `a` and not all at round `a + 1`, a block is either
      still in round `a`, or done with it and possibly waiting in round `a + 1`. */
  ghost predicate BlockOk(blk: Block, start: nat, a: nat)
    requires start < 3
  {
    if Behind(blk, a) then
      blk.phase == Spinning(Counter(start, a)) || blk.phase == Leaving(Counter(start, a))
    else
      && blk.done == a
      && !blk.phase.Leaving?
      && (!blk.phase.Outside? ==> blk.phase.ci == Counter(start, a + 1))
  }

  ghost predicate AllBehind(s: State, a: nat) {
    forall b :: 0 <= b < |s.blocks| ==> Behind(s.blocks[b], a)
  }

  /** The blocks that have added to the counter of round `a + 1`. */
  ghost function Waiting(s: State, a: nat): set<nat> {
    set b: nat | b < |s.blocks| && s.blocks[b].done == a && s.blocks[b].phase.Spinning?
  }

  ghost predicate InvAt(s: State, start: nat, a: nat) {
    && Shape(s) && start < 3 && |s.blocks| >= 2
    && (forall b :: 0 <= b < |s.blocks| ==> BlockOk(s.blocks[b], start, a))
    && s.count[Counter(start, a + 1)] == |Waiting(s, a)| < |s.blocks|
    && (a >= 1 ==> s.count[Counter(start, a)] == |s.blocks|)
    && (forall b :: 0 <= b < |s.blocks| && !Behind(s.blocks[b], a) &&
                    (s.blocks[b].phase.Ready? || s.blocks[b].phase.Spinning?) ==>
          s.count[Counter(start, a + 2)] == 0)
    && s.idx == if AllBehind(s, a) then Counter(start, a + 2) else Counter(start, a)
  }

  lemma InitialInv(s: State, start: nat)
    requires Initial(s, start)
    ensures InvAt(s, start, 0)
  {
    assert Waiting(s, 0) == {};
    assert !Behind(s.blocks[0], 0);
  }

  /** Three rounds in a row use the three counters. */
  lemma Counters(start: nat, a: nat)
    requires start < 3
    ensures Counter(start, a + 1) == Next(Counter(start, a))
    ensures Counter(start, a + 2) == Next(Counter(start, a + 1))
    ensures Counter(start, a + 3) == Counter(start, a)
    ensures Counter(start, a) != Counter(start, a + 1) && Counter(start, a + 1) != Counter(start, a + 2)
    ensures Counter(start, a + 2) != Counter(start, a)
  {
  }

  lemma EnterInv(s: State, start: nat, a: nat, b: nat)
    requires InvAt(s, start, a) && Enabled(s, b) && s.blocks[b].phase.Outside?
    ensures InvAt(Apply(s, b), start, a)
  {
    var s' := Apply(s, b);
    Counters(start, a);
    assert !Behind(s'.blocks[b], a);
    assert Waiting(s', a) == Waiting(s, a);
  }

  lemma ResetInv(s: State, start: nat, a: nat, b: nat)
    requires InvAt(s, start, a) && Enabled(s, b) && s.blocks[b].phase.Chosen?
    ensures InvAt(Apply(s, b), start, a)
  {
    var s' := Apply(s, b);
    Counters(start, a);
    assert !Behind(s'.blocks[b], a);
    assert Waiting(s', a) == Waiting(s, a);
  }

  lemma ObserveInv(s: State, start: nat, a: nat, b: nat)
    requires InvAt(s, start, a) && Enabled(s, b) && s.blocks[b].phase.Spinning?
    ensures InvAt(Apply(s, b), start, a)
  {
    var s' := Apply(s, b);
    Counters(start, a);
    assert Behind(s.blocks[b], a);
    assert Waiting(s', a) == Waiting(s, a);
    if AllBehind(s', a) {
      forall c | 0 <= c < |s.blocks| ensures Behind(s.blocks[c], a) { assert Behind(s'.blocks[c], a); }
    }
  }

  lemma PublishInv(s: State, start: nat, a: nat, b: nat)
    requires InvAt(s, start, a) && Enabled(s, b) && s.blocks[b].phase.Leaving?
    ensures InvAt(Apply(s, b), start, a)
  {
    var s' := Apply(s, b);
    Counters(start, a);
    assert !Behind(s'.blocks[b], a);
    assert Waiting(s', a) == Waiting(s, a);
  }

  lemma AddWaits(s: State, start: nat, a: nat, b: nat)
    requires InvAt(s, start, a) && Enabled(s, b) && s.blocks[b].phase.Ready?
    ensures Waiting(Apply(s, b), a) == Waiting(s, a) + {b} && b !in Waiting(s, a)
  {
    assert BlockOk(s.blocks[b], start, a);
  }

  /** Not the last arrival of the round. */
  lemma AddInv(s: State, start: nat, a: nat, b: nat)
    requires InvAt(s, start, a) && Enabled(s, b) && s.blocks[b].phase.Ready?
    requires |Waiting(Apply(s, b), a)| < |s.blocks|
    ensures InvAt(Apply(s, b), start, a)
  {
    Counters(start, a);
    AddWaits(s, start, a, b);
    assert !Behind(Apply(s, b).blocks[b], a);
  }

  /** The last arrival: everybody is now waiting in round `a + 1`. */
  lemma LastAddInv(s: State, start: nat, a: nat, b: nat)
    requires InvAt(s, start, a) && Enabled(s, b) && s.blocks[b].phase.Ready?
    requires |Waiting(Apply(s, b), a)| == |s.blocks|
    ensures InvAt(Apply(s, b), start, a + 1)
  {
    var s' := Apply(s, b);
    Counters(start, a);
    Counters(start, a + 1);
    AddWaits(s, start, a, b);
    SubsetSize(Waiting(s', a), |s'.blocks|);
    forall c: nat | c < |s'.blocks|
      ensures Behind(s'.blocks[c], a + 1) && BlockOk(s'.blocks[c], start, a + 1)
    {
      assert c in Waiting(s', a);
    }
    assert Waiting(s', a + 1) == {};
    assert !Behind(s.blocks[b], a);
  }

  lemma StepInv(s: State, start: nat, a: nat, b: nat) returns (a': nat)
    requires InvAt(s, start, a) && Enabled(s, b)
    ensures InvAt(Apply(s, b), start, a') && a <= a' <= a + 1
  {
    a' := a;
    match s.blocks[b].phase
    case Outside => EnterInv(s, start, a, b);
    case Chosen(_) => ResetInv(s, start, a, b);
    case Spinning(_) => ObserveInv(s, start, a, b);
    case Leaving(_) => PublishInv(s, start, a, b);
    case Ready(_) =>
      SubsetSize(Waiting(Apply(s, b), a), |s.blocks|);
      if |Waiting(Apply(s, b), a)| < |s.blocks| {
        AddInv(s, start, a, b);
      } else {
        LastAddInv(s, start, a, b);
        a' := a + 1;
      }
  }

  lemma {:induction false} RunInv(start: nat, run: seq<State>) returns (a: nat)
    requires Run(start, run)
    ensures InvAt(run[|run| - 1], start, a)
    decreases |run|
  {
    if |run| == 1 {
      InitialInv(run[0], start);
      a := 0;
    } else {
      a := RunInv(start, run[..|run| - 1]);
      var s, s' := run[|run| - 2], run[|run| - 2 + 1];
      assert Step(s, s');
      var b :| Enabled(s, b) && s' == Apply(s, b);
      a := StepInv(s, start, a, b);
    }
  }

  // ---- theorems ----

  /** The round a block is in. */
  function Round(blk: Block): nat { blk.done + if blk.phase.Outside? then 0 else 1 }

  /** No block leaves round `k` before all blocks have arrived at it. */
  lemma NoEarlyLeave(start: nat, run: seq<State>, b: nat, c: nat, k: nat)
    requires Run(start, run) && b < |run[|run| - 1].blocks| && c < |run[|run| - 1].blocks|
    requires var blk := run[|run| - 1].blocks[b]; blk.done >= k || (blk.phase.Leaving? && Round(blk) >= k)
    ensures Arrivals(run[|run| - 1].blocks[c]) >= k
  {
    var a := RunInv(start, run);
    var s := run[|run| - 1];
    assert BlockOk(s.blocks[b], start, a) && BlockOk(s.blocks[c], start, a);
  }

  /** A block inside a round uses the counter of that round, so blocks in one round agree. */
  lemma SameCounter(start: nat, run: seq<State>, b: nat)
    requires Run(start, run) && b < |run[|run| - 1].blocks|
    ensures var blk := run[|run| - 1].blocks[b];
            start < 3 && (!blk.phase.Outside? ==> blk.phase.ci == Counter(start, Round(blk)))
  {
    var a := RunInv(start, run);
    assert BlockOk(run[|run| - 1].blocks[b], start, a);
  }

  /** The reset by block `b` hits a counter that no other block is adding to or spinning on. */
  lemma ResetIsSafe(start: nat, run: seq<State>, b: nat, c: nat)
    requires Run(start, run)
    requires var s := run[|run| - 1];
             b < |s.blocks| && c < |s.blocks| && s.blocks[b].phase.Chosen? && !s.blocks[c].phase.Outside?
    ensures run[|run| - 1].blocks[b].phase.ci < 3
    ensures var s := run[|run| - 1]; s.blocks[c].phase.ci != Next(s.blocks[b].phase.ci)
  {
    var a := RunInv(start, run);
    Counters(start, a);
    var s := run[|run| - 1];
    assert BlockOk(s.blocks[b], start, a) && BlockOk(s.blocks[c], start, a);
  }

  /** Blocks that are all inside `sync` never wait for each other forever: one can move. */
  lemma NeverDeadlocked(start: nat, run: seq<State>) returns (b: nat)
    requires Run(start, run)
    ensures Enabled(run[|run| - 1], b)
  {
    var a := RunInv(start, run);
    var s := run[|run| - 1];
    Counters(start, a);
    var waiting, all := Waiting(s, a), Below(|s.blocks|);
    assert all == waiting + (all - waiting);
    b :| b in all - waiting;
    assert BlockOk(s.blocks[b], start, a);
  }

  // ---- rounds can be finished ----

  function Last(run: seq<State>): State
    requires run != []
  {
    run[|run| - 1]
  }

  lemma Extend(start: nat, run: seq<State>, b: nat) returns (run': seq<State>)
    requires Run(start, run) && Enabled(Last(run), b)
    ensures Run(start, run') && run <= run' && Last(run') == Apply(Last(run), b)
  {
    run' := run + [Apply(Last(run), b)];
    forall i | 0 <= i < |run'| - 1
      ensures Step(run'[i], run'[i + 1])
    {
      if i < |run| - 1 {
        assert run'[i] == run[i] && run'[i + 1] == run[i + 1];
      } else {
        assert Enabled(run'[i], b) && run'[i + 1] == Apply(run'[i], b);
      }
    }
  }

  /** All blocks have arrived at round `k`. */
  ghost predicate AllArrived(s: State, k: nat) {
    forall c :: 0 <= c < |s.blocks| ==> Arrivals(s.blocks[c]) >= k
  }

  /** Some block has not arrived at the round after the current one. */
  lemma ArrivedRounds(s: State, start: nat, a: nat, k: nat)
    requires InvAt(s, start, a) && AllArrived(s, k)
    ensures k <= a
  {
    SubsetSize(Waiting(s, a), |s.blocks|);
    var c: nat :| c < |s.blocks| && c !in Waiting(s, a);
    assert BlockOk(s.blocks[c], start, a);
    assert Arrivals(s.blocks[c]) <= a;
  }

  /** Once all have arrived, a block that is still in the round sees the target. */
  lemma TargetReached(start: nat, run: seq<State>, k: nat, b: nat)
    requires Run(start, run) && AllArrived(Last(run), k) && b < |Last(run).blocks| && Last(run).blocks[b].done < k
    ensures Last(run).blocks[b].done == k - 1 && Enabled(Last(run), b)
    ensures Last(run).blocks[b].phase.Spinning? || Last(run).blocks[b].phase.Leaving?
  {
    var a := RunInv(start, run);
    assert BlockOk(Last(run).blocks[b], start, a);
    ArrivedRounds(Last(run), start, a, k);
  }

  /** A block that has left round `k`; one that was already further is untouched. */
  function After(blk: Block, k: nat): Block { if blk.done < k then Block(k, Outside) else blk }

  lemma LeaveOne(start: nat, run: seq<State>, k: nat, b: nat) returns (run': seq<State>)
    requires Run(start, run) && AllArrived(Last(run), k) && b < |Last(run).blocks|
    ensures Run(start, run') && run <= run' && AllArrived(Last(run'), k)
    ensures Last(run').blocks == Last(run).blocks[b := After(Last(run).blocks[b], k)]
  {
    run' := run;
    if Last(run).blocks[b].done < k {
      TargetReached(start, run, k, b);
      if Last(run).blocks[b].phase.Spinning? {
        run' := Extend(start, run', b);
        TargetReached(start, run', k, b);
      }
      run' := Extend(start, run', b);
    }
  }

  lemma {:induction false} LeaveFrom(start: nat, run: seq<State>, k: nat, b: nat) returns (run': seq<State>)
    requires Run(start, run) && AllArrived(Last(run), k) && b <= |Last(run).blocks|
    ensures Run(start, run') && run <= run' && |Last(run').blocks| == |Last(run).blocks|
    ensures forall c: nat :: c < |Last(run).blocks| ==>
              Last(run').blocks[c] == if c < b then Last(run).blocks[c] else After(Last(run).blocks[c], k)
    decreases |Last(run).blocks| - b
  {
    if b == |Last(run).blocks| {
      run' := run;
    } else {
      var run1 := LeaveOne(start, run, k, b);
      run' := LeaveFrom(start, run1, k, b + 1);
    }
  }

  /** From every reachable state: once all blocks have arrived at a round, those still in it can all
      leave it, without a step of any other block. */
  lemma RoundCanEnd(start: nat, run: seq<State>, k: nat) returns (run': seq<State>)
    requires Run(start, run) && AllArrived(Last(run), k)
    ensures Run(start, run') && run <= run' && |Last(run').blocks| == |Last(run).blocks|
    ensures forall c: nat :: c < |Last(run).blocks| ==> Last(run').blocks[c] == After(Last(run).blocks[c], k)
  {
    run' := LeaveFrom(start, run, k, 0);
  }

  /** A block that is not waiting can be brought to arrive at its next round. */
  lemma ArriveOne(start: nat, run: seq<State>, b: nat) returns (run': seq<State>)
    requires Run(start, run) && b < |Last(run).blocks| && !Last(run).blocks[b].phase.Leaving?
    requires Last(run).blocks[b].phase.Spinning? || Enabled(Last(run), b)
    ensures Run(start, run') && run <= run' && |Last(run').blocks| == |Last(run).blocks|
    ensures Last(run').blocks[b].done == Last(run).blocks[b].done && Last(run').blocks[b].phase.Spinning?
    ensures forall c: nat :: c < |Last(run).blocks| && c != b ==> Last(run').blocks[c] == Last(run).blocks[c]
  {
    run' := run;
    if Last(run').blocks[b].phase.Outside? { run' := Extend(start, run', b); }
    if Last(run').blocks[b].phase.Chosen? { run' := Extend(start, run', b); }
    if Last(run').blocks[b].phase.Ready? { run' := Extend(start, run', b); }
  }

  /** All blocks have completed exactly `k` rounds, and the first `b` wait in the next. */
  ghost predicate Gathered(s: State, k: nat, b: nat) {
    forall c: nat :: c < |s.blocks| ==>
      s.blocks[c].done == k && !s.blocks[c].phase.Leaving? && (c < b ==> s.blocks[c].phase.Spinning?)
  }

  lemma GatheredMoves(start: nat, run: seq<State>, k: nat, b: nat)
    requires Run(start, run) && Gathered(Last(run), k, b) && b < |Last(run).blocks|
    ensures Last(run).blocks[b].phase.Spinning? || Enabled(Last(run), b)
  {
    var a := RunInv(start, run);
    Counters(start, a);
    assert BlockOk(Last(run).blocks[b], start, a);
  }

  lemma {:induction false} Gather(start: nat, run: seq<State>, k: nat, b: nat) returns (run': seq<State>)
    requires Run(start, run) && Gathered(Last(run), k, b) && b <= |Last(run).blocks|
    ensures Run(start, run') && run <= run' && Gathered(Last(run'), k, |Last(run').blocks|)
    decreases |Last(run).blocks| - b
  {
    if b == |Last(run).blocks| {
      run' := run;
    } else {
      GatheredMoves(start, run, k, b);
      var run1 := ArriveOne(start, run, b);
      run' := Gather(start, run1, k, b + 1);
    }
  }

  ghost predicate AllDone(s: State, k: nat) {
    forall c: nat :: c < |s.blocks| ==> s.blocks[c].done == k && !s.blocks[c].phase.Leaving?
  }

  lemma {:induction false} CompleteFrom(start: nat, run: seq<State>, k: nat, n: nat) returns (run': seq<State>)
    requires Run(start, run) && AllDone(Last(run), k) && k <= n
    ensures Run(start, run') && run <= run' && AllDone(Last(run'), n)
    decreases n - k
  {
    if k == n {
      run' := run;
    } else {
      var run1 := Gather(start, run, k, 0);
      var run2 := RoundCanEnd(start, run1, k + 1);
      run' := CompleteFrom(start, run2, k + 1, n);
    }
  }

  /** From every reachable state the blocks can complete any number of further rounds together. */
  lemma RoundsCanComplete(start: nat, run: seq<State>, n: nat) returns (run': seq<State>)
    requires Run(start, run)
    ensures Run(start, run') && run <= run'
    ensures forall c: nat :: c < |Last(run').blocks| ==> Last(run').blocks[c].done >= n
  {
    var a := RunInv(start, run);
    assert forall c: nat :: c < |Last(run).blocks| ==> BlockOk(Last(run).blocks[c], start, a);
    var run1 := RoundCanEnd(start, run, a);
    run' := CompleteFrom(start, run1, a, if n > a then n else a);
  }
}
