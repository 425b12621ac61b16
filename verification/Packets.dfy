/** Low-latency packets: each 8-byte half carries its own flag, so a reader that finds the expected
    flag in every half has the data written with that flag. Threads of a writer and of a reader kernel
    run concurrently, and halves are stored and loaded one at a time in any order. */
module Packets {

  import opened Arith

  datatype Cell = Cell(data: bv32, flag: bv32)

  /** One transfer: packets of `halves` cells (two for LL16, one for LL8), the thread counts of both
      sides, the flag of this transfer and the words to send. */
  datatype Job = Job(halves: nat, writers: nat, readers: nat, flag: bv32, src: seq<seq<bv32>>)

  ghost predicate ValidJob(job: Job) {
    && job.halves > 0 && job.writers > 0 && job.readers > 0
    && forall i :: 0 <= i < |job.src| ==> |job.src[i]| == job.halves
  }

  /** A writer thread: its packet, and the halves of it already stored. */
  datatype Writer = Writer(pos: nat, stored: set<nat>)

  /** A reader thread: its packet, and the halves loaded in the current attempt. */
  datatype Reader = Reader(pos: nat, loaded: map<nat, Cell>)

  datatype State = State(mem: seq<seq<Cell>>, writers: seq<Writer>, readers: seq<Reader>, dst: seq<seq<bv32>>)

  /** `Other` is a store of some other transfer to the same buffer: any cell, any other flag. */
  datatype Event =
    | Store(thread: nat, half: nat)
    | NextPacket(thread: nat)
    | Load(thread: nat, half: nat)
    | Accept(thread: nat)
    | Retry(thread: nat)
    | Other(packet: nat, half: nat, cell: Cell)

  ghost predicate Shaped(job: Job, s: State) {
    && |s.mem| == |s.dst| == |job.src| && |s.writers| == job.writers && |s.readers| == job.readers
    && forall i :: 0 <= i < |s.mem| ==> |s.mem[i]| == job.halves
  }

  /** Every flag in the buffer differs from the one to come. */
  ghost predicate Init(job: Job, s: State) {
    && Shaped(job, s)
    && (forall i, h :: 0 <= i < |s.mem| && 0 <= h < job.halves ==> s.mem[i][h].flag != job.flag)
    && (forall t :: 0 <= t < job.writers ==> s.writers[t] == Writer(t, {}))
    && forall u :: 0 <= u < job.readers ==> s.readers[u] == Reader(u, map[])
  }

  predicate Matches(job: Job, loaded: map<nat, Cell>) {
    forall h :: h in loaded ==> loaded[h].flag == job.flag
  }

  ghost predicate Enabled(job: Job, s: State, e: Event) {
    match e
    case Store(t, h) => t < |s.writers| && s.writers[t].pos < |s.mem| && h < job.halves && h !in s.writers[t].stored
    case NextPacket(t) => t < |s.writers| && s.writers[t].pos < |s.mem| && s.writers[t].stored == Below(job.halves)
    case Load(u, h) => u < |s.readers| && s.readers[u].pos < |s.mem| && h < job.halves && h !in s.readers[u].loaded
    case Accept(u) =>
      && u < |s.readers| && s.readers[u].pos < |s.mem|
      && s.readers[u].loaded.Keys == Below(job.halves) && Matches(job, s.readers[u].loaded)
    case Retry(u) =>
      && u < |s.readers| && s.readers[u].pos < |s.mem|
      && s.readers[u].loaded.Keys == Below(job.halves) && !Matches(job, s.readers[u].loaded)
    case Other(i, h, cell) => i < |s.mem| && h < job.halves && cell.flag != job.flag
  }

  function SetCell(mem: seq<seq<Cell>>, i: nat, h: nat, cell: Cell): seq<seq<Cell>>
    requires i < |mem| && h < |mem[i]|
  {
    mem[i := mem[i][h := cell]]
  }

  /** The words of a completely loaded packet. */
  function Payload(loaded: map<nat, Cell>, n: nat): (r: seq<bv32>)
    requires forall h: nat :: h < n ==> h in loaded
    ensures |r| == n && forall h: nat :: h < n ==> r[h] == loaded[h].data
  {
    if n == 0 then [] else Payload(loaded, n - 1) + [loaded[n - 1].data]
  }

  ghost function Apply(job: Job, s: State, e: Event): State
    requires ValidJob(job) && Shaped(job, s) && Enabled(job, s, e)
  {
    match e
    case Store(t, h) =>
      var w := s.writers[t];
      s.(mem := SetCell(s.mem, w.pos, h, Cell(job.src[w.pos][h], job.flag)),
         writers := s.writers[t := w.(stored := w.stored + {h})])
    case NextPacket(t) => s.(writers := s.writers[t := Writer(s.writers[t].pos + job.writers, {})])
    case Load(u, h) =>
      var r := s.readers[u];
      s.(readers := s.readers[u := r.(loaded := r.loaded[h := s.mem[r.pos][h]])])
    case Accept(u) =>
      var r := s.readers[u];
      s.(dst := s.dst[r.pos := Payload(r.loaded, job.halves)],
         readers := s.readers[u := Reader(r.pos + job.readers, map[])])
    case Retry(u) => s.(readers := s.readers[u := s.readers[u].(loaded := map[])])
    case Other(i, h, cell) => s.(mem := SetCell(s.mem, i, h, cell))
  }

  ghost predicate Run(job: Job, run: seq<State>, events: seq<Event>) {
    && ValidJob(job) && |run| == |events| + 1 && Init(job, run[0])
    && forall k :: 0 <= k < |events| ==>
         Shaped(job, run[k]) && Enabled(job, run[k], events[k]) && run[k + 1] == Apply(job, run[k], events[k])
  }

  ghost predicate ReadersDone(s: State) {
    forall u :: 0 <= u < |s.readers| ==> s.readers[u].pos >= |s.mem|
  }

  ghost predicate WritersDone(s: State) {
    forall t :: 0 <= t < |s.writers| ==> s.writers[t].pos >= |s.mem|
  }

  // ---- what is read is what was sent ----

  /** A cell that carries the flag of this transfer carries its word. */
  ghost predicate CellOk(job: Job, i: nat, h: nat, cell: Cell)
    requires ValidJob(job) && i < |job.src| && h < job.halves
  {
    cell.flag == job.flag ==> cell.data == job.src[i][h]
  }

  ghost predicate MemOk(job: Job, s: State)
    requires ValidJob(job) && Shaped(job, s)
  {
    forall i: nat, h: nat :: i < |s.mem| && h < job.halves ==> CellOk(job, i, h, s.mem[i][h])
  }

  /** A reader is at one of its packets, has recovered those before, and holds only words of the
      current one wherever the flag matches. */
  ghost predicate ReaderOk(job: Job, s: State, u: nat)
    requires ValidJob(job) && Shaped(job, s) && u < |s.readers|
  {
    var r := s.readers[u];
    && r.pos % job.readers == u
    && (forall i: nat :: i < |s.dst| && i < r.pos && i % job.readers == u ==> s.dst[i] == job.src[i])
    && (forall h :: h in r.loaded ==> h < job.halves && r.pos < |job.src| && CellOk(job, r.pos, h, r.loaded[h]))
  }

  ghost predicate Inv(job: Job, s: State) {
    && ValidJob(job) && Shaped(job, s) && MemOk(job, s)
    && forall u: nat :: u < |s.readers| ==> ReaderOk(job, s, u)
  }

  /** Between one packet of a thread and the next there is no other packet of that thread. */
  lemma NextInStride(i: nat, pos: nat, threads: nat)
    requires threads > 0 && i % threads == pos % threads && i < pos + threads
    ensures i <= pos
    ensures (pos + threads) % threads == pos % threads
  {
    QuotientTimesDivisor(pos, threads);
    DivModUnique(threads, pos / threads + 1, pos % threads);
    assert (pos / threads + 1) * threads + pos % threads == pos + threads;
    if i > pos { SameResidue(threads, i, pos); }
  }

  lemma AcceptReader(job: Job, s: State, u: nat)
    requires Inv(job, s) && Enabled(job, s, Accept(u))
    ensures ReaderOk(job, Apply(job, s, Accept(u)), u)
  {
    var s', r := Apply(job, s, Accept(u)), s.readers[u];
    assert ReaderOk(job, s, u);
    assert s'.dst[r.pos] == job.src[r.pos];
    forall i: nat | i < |s'.dst| && i < r.pos + job.readers && i % job.readers == u
      ensures s'.dst[i] == job.src[i]
    {
      NextInStride(i, r.pos, job.readers);
    }
    NextInStride(r.pos, r.pos, job.readers);
  }

  lemma StepReader(job: Job, s: State, e: Event, u: nat)
    requires Inv(job, s) && Enabled(job, s, e) && u < |s.readers|
    ensures ReaderOk(job, Apply(job, s, e), u)
  {
    assert ReaderOk(job, s, u);
    match e
    case Accept(v) =>
      assert ReaderOk(job, s, v);
      if u == v { AcceptReader(job, s, u); }
    case Load(v, h) => assert CellOk(job, s.readers[v].pos, h, s.mem[s.readers[v].pos][h]);
    case _ =>
  }

  lemma StepInv(job: Job, s: State, e: Event)
    requires Inv(job, s) && Enabled(job, s, e)
    ensures Inv(job, Apply(job, s, e))
  {
    var s' := Apply(job, s, e);
    forall i: nat, h: nat | i < |s'.mem| && h < job.halves
      ensures CellOk(job, i, h, s'.mem[i][h])
    {
      assert CellOk(job, i, h, s.mem[i][h]);
    }
    forall u: nat | u < |s'.readers|
      ensures ReaderOk(job, s', u)
    {
      StepReader(job, s, e, u);
    }
  }

  lemma {:induction false} RunInv(job: Job, run: seq<State>, events: seq<Event>, k: nat)
    requires Run(job, run, events) && k < |run|
    ensures Inv(job, run[k])
  {
    if k == 0 {
      forall u: nat | u < job.readers
        ensures ReaderOk(job, run[0], u)
      {
        DivModUnique(job.readers, 0, u);
        forall i: nat | i < u && i % job.readers == u ensures false { DivModUnique(job.readers, 0, i); }
      }
    } else {
      RunInv(job, run, events, k - 1);
      assert run[k - 1 + 1] == Apply(job, run[k - 1], events[k - 1]);
      StepInv(job, run[k - 1], events[k - 1]);
    }
  }

  /** In every run, with any other stores to the buffer that use other flags: a read that matches the
      flag returns exactly the words written with that flag. */
  lemma ReadReturnsWhatWasWritten(job: Job, run: seq<State>, events: seq<Event>, k: nat)
    requires Run(job, run, events) && k < |events| && events[k].Accept?
    ensures var u := events[k].thread;
            u < |run[k].readers| && run[k].readers[u].pos < |job.src| && |run[k].dst| == |job.src| &&
            run[k + 1].dst == run[k].dst[run[k].readers[u].pos := job.src[run[k].readers[u].pos]]
  {
    RunInv(job, run, events, k);
    var s, r := run[k], run[k].readers[events[k].thread];
    assert Enabled(job, s, events[k]) && run[k + 1] == Apply(job, s, events[k]);
    assert ReaderOk(job, s, events[k].thread);
    assert Payload(r.loaded, job.halves) == job.src[r.pos];
  }

  /** Once the reader threads have finished, the destination equals the source, for any numbers of
      writer and reader threads. */
  lemma CopyRecovers(job: Job, run: seq<State>, events: seq<Event>)
    requires Run(job, run, events) && ReadersDone(run[|events|])
    ensures run[|events|].dst == job.src
  {
    RunInv(job, run, events, |events|);
    var s := run[|events|];
    forall i | 0 <= i < |s.dst|
      ensures s.dst[i] == job.src[i]
    {
      assert ReaderOk(job, s, i % job.readers);
    }
  }

  // ---- without other stores the transfer finishes ----

  ghost predicate Quiet(events: seq<Event>) {
    forall k :: 0 <= k < |events| ==> !events[k].Other?
  }

  ghost predicate Flagged(job: Job, s: State, i: nat, h: nat)
    requires Shaped(job, s)
  {
    i < |s.mem| && h < job.halves ==> s.mem[i][h].flag == job.flag
  }

  /** A writer is at one of its packets; its earlier packets and the stored halves carry the flag. */
  ghost predicate WriterOk(job: Job, s: State, t: nat)
    requires ValidJob(job) && Shaped(job, s) && t < |s.writers|
  {
    var w := s.writers[t];
    && w.pos % job.writers == t && w.stored <= Below(job.halves) && (w.stored != {} ==> w.pos < |s.mem|)
    && (forall i: nat, h: nat :: i < w.pos && i % job.writers == t ==> Flagged(job, s, i, h))
    && forall h :: h in w.stored ==> Flagged(job, s, w.pos, h)
  }

  ghost predicate QuietInv(job: Job, s: State) {
    && Inv(job, s)
    && forall t: nat :: t < |s.writers| ==> WriterOk(job, s, t)
  }

  lemma StaysFlagged(job: Job, s: State, e: Event, i: nat, h: nat)
    requires Inv(job, s) && Enabled(job, s, e) && !e.Other? && Flagged(job, s, i, h)
    ensures Flagged(job, Apply(job, s, e), i, h)
  {
  }

  lemma NextPacketOk(job: Job, s: State, t: nat, i: nat, h: nat)
    requires QuietInv(job, s) && Enabled(job, s, NextPacket(t))
    requires i < s.writers[t].pos + job.writers && i % job.writers == t
    ensures Flagged(job, s, i, h)
  {
    assert WriterOk(job, s, t);
    NextInStride(i, s.writers[t].pos, job.writers);
    assert h < job.halves ==> h in s.writers[t].stored;
  }

  lemma EarlierFlagged(job: Job, s: State, e: Event, t: nat, i: nat, h: nat)
    requires QuietInv(job, s) && Enabled(job, s, e) && !e.Other? && t < |s.writers|
    requires i < Apply(job, s, e).writers[t].pos && i % job.writers == t
    ensures Flagged(job, Apply(job, s, e), i, h)
  {
    assert WriterOk(job, s, t);
    if e == NextPacket(t) { NextPacketOk(job, s, t, i, h); }
    StaysFlagged(job, s, e, i, h);
  }

  lemma StoredFlagged(job: Job, s: State, e: Event, t: nat, h: nat)
    requires QuietInv(job, s) && Enabled(job, s, e) && !e.Other? && t < |s.writers|
    requires h in Apply(job, s, e).writers[t].stored
    ensures Flagged(job, Apply(job, s, e), Apply(job, s, e).writers[t].pos, h)
  {
    assert WriterOk(job, s, t);
    if h in s.writers[t].stored { StaysFlagged(job, s, e, s.writers[t].pos, h); }
  }

  lemma StepWriter(job: Job, s: State, e: Event, t: nat)
    requires QuietInv(job, s) && Enabled(job, s, e) && !e.Other? && t < |s.writers|
    ensures WriterOk(job, Apply(job, s, e), t)
  {
    assert WriterOk(job, s, t);
    var s' := Apply(job, s, e);
    var w, w' := s.writers[t], s'.writers[t];
    forall i: nat, h: nat | i < w'.pos && i % job.writers == t
      ensures Flagged(job, s', i, h)
    {
      EarlierFlagged(job, s, e, t, i, h);
    }
    forall h | h in w'.stored
      ensures Flagged(job, s', w'.pos, h)
    {
      StoredFlagged(job, s, e, t, h);
    }
    if e == NextPacket(t) { NextInStride(w.pos, w.pos, job.writers); }
  }

  lemma {:induction false} RunQuietInv(job: Job, run: seq<State>, events: seq<Event>, k: nat)
    requires Run(job, run, events) && Quiet(events) && k < |run|
    ensures QuietInv(job, run[k])
  {
    RunInv(job, run, events, k);
    if k == 0 {
      forall t: nat | t < job.writers
        ensures WriterOk(job, run[0], t)
      {
        DivModUnique(job.writers, 0, t);
        forall i: nat | i < t && i % job.writers == t ensures false { DivModUnique(job.writers, 0, i); }
      }
    } else {
      RunQuietInv(job, run, events, k - 1);
      assert run[k - 1 + 1] == Apply(job, run[k - 1], events[k - 1]);
      forall t: nat | t < job.writers
        ensures WriterOk(job, run[k], t)
      {
        StepWriter(job, run[k - 1], events[k - 1], t);
      }
    }
  }

  /** After the writers every cell carries the flag. */
  lemma AllFlagged(job: Job, s: State, i: nat, h: nat)
    requires QuietInv(job, s) && WritersDone(s) && i < |s.mem| && h < job.halves
    ensures s.mem[i][h].flag == job.flag
  {
    assert WriterOk(job, s, i % job.writers);
    assert Flagged(job, s, i, h);
  }

  /** Loads and acceptances for the packets from `pos` on. */
  function Left(pos: nat, n: nat, threads: nat, halves: nat): nat
    requires threads > 0
    decreases if pos < n then n - pos else 0
  {
    if pos >= n then 0 else halves + 1 + Left(pos + threads, n, threads, halves)
  }

  /** Steps a reader still needs once every cell carries the flag: an attempt that has already loaded
      a cell without it fails and costs one more attempt. */
  function Steps(job: Job, r: Reader, n: nat): int
    requires job.readers > 0
  {
    Left(r.pos, n, job.readers, job.halves) - |r.loaded|
    + if Matches(job, r.loaded) then 0 else job.halves + 1
  }

  function TotalSteps(job: Job, readers: seq<Reader>, n: nat): int
    requires job.readers > 0
  {
    if readers == [] then 0 else Steps(job, readers[0], n) + TotalSteps(job, readers[1..], n)
  }

  lemma {:induction false} TotalUpdate(job: Job, readers: seq<Reader>, n: nat, u: nat, r: Reader)
    requires job.readers > 0 && u < |readers|
    ensures TotalSteps(job, readers[u := r], n) ==
            TotalSteps(job, readers, n) - Steps(job, readers[u], n) + Steps(job, r, n)
  {
    if u == 0 {
      assert readers[u := r][1..] == readers[1..];
    } else {
      TotalUpdate(job, readers[1..], n, u - 1, r);
      assert readers[u := r][1..] == readers[1..][u - 1 := r];
    }
  }

  lemma LoadCounts(job: Job, r: Reader, n: nat, h: nat, cell: Cell)
    requires job.readers > 0 && h !in r.loaded && cell.flag == job.flag
    ensures Steps(job, r.(loaded := r.loaded[h := cell]), n) == Steps(job, r, n) - 1
  {
    var loaded' := r.loaded[h := cell];
    forall g | g in r.loaded ensures loaded'[g] == r.loaded[g] {}
    assert Matches(job, loaded') <==> Matches(job, r.loaded);
  }

  lemma AttemptCounts(job: Job, r: Reader, n: nat)
    requires job.readers > 0 && r.pos < n && |r.loaded| == job.halves
    ensures Matches(job, r.loaded) ==> Steps(job, Reader(r.pos + job.readers, map[]), n) == Steps(job, r, n) - 1
    ensures !Matches(job, r.loaded) ==> Steps(job, Reader(r.pos, map[]), n) == Steps(job, r, n) - 1
  {
  }

  /** What is left is never negative, and is nothing exactly at the end. */
  lemma StepsLeft(job: Job, s: State, u: nat)
    requires Inv(job, s) && u < |s.readers|
    ensures Steps(job, s.readers[u], |s.mem|) >= 0
    ensures Steps(job, s.readers[u], |s.mem|) == 0 <==> s.readers[u].pos >= |s.mem|
  {
    assert ReaderOk(job, s, u);
    var r := s.readers[u];
    SubsetSize(r.loaded.Keys, job.halves);
    assert r.pos >= |s.mem| ==> r.loaded == map[];
  }

  lemma {:induction false} TotalLeft(job: Job, readers: seq<Reader>, n: nat)
    requires job.readers > 0
    requires forall u :: 0 <= u < |readers| ==>
               Steps(job, readers[u], n) >= 0 && (Steps(job, readers[u], n) == 0 <==> readers[u].pos >= n)
    ensures TotalSteps(job, readers, n) >= 0
    ensures TotalSteps(job, readers, n) == 0 <==> forall u :: 0 <= u < |readers| ==> readers[u].pos >= n
  {
    if readers != [] { TotalLeft(job, readers[1..], n); }
  }

  lemma FullyLoaded(loaded: map<nat, Cell>, halves: nat)
    requires loaded.Keys == Below(halves)
    ensures |loaded| == halves
  {
    assert |loaded| == |loaded.Keys|;
  }

  /** What a reader becomes by loading a flagged cell, or by ending an attempt. */
  lemma OneStepLess(job: Job, r: Reader, r': Reader, n: nat)
    requires job.readers > 0 && r.pos < n
    requires
      || (exists h: nat, cell: Cell ::
            h !in r.loaded && cell.flag == job.flag && r' == Reader(r.pos, r.loaded[h := cell]))
      || (&& r.loaded.Keys == Below(job.halves)
          && r' == if Matches(job, r.loaded) then Reader(r.pos + job.readers, map[]) else Reader(r.pos, map[]))
    ensures Steps(job, r', n) == Steps(job, r, n) - 1
  {
    if h: nat, cell: Cell :| h !in r.loaded && cell.flag == job.flag && r' == Reader(r.pos, r.loaded[h := cell]) {
      LoadCounts(job, r, n, h, cell);
    } else {
      FullyLoaded(r.loaded, job.halves);
      AttemptCounts(job, r, n);
    }
  }

  /** Once the writers have finished, each step of a reader brings the end one step closer, whichever
      reader takes it: no retry is ever repeated. */
  lemma EveryStepCounts(job: Job, run: seq<State>, events: seq<Event>, k: nat)
    requires Run(job, run, events) && Quiet(events) && k < |events| && WritersDone(run[k])
    ensures WritersDone(run[k + 1])
    ensures TotalSteps(job, run[k + 1].readers, |run[k].mem|) == TotalSteps(job, run[k].readers, |run[k].mem|) - 1
  {
    RunQuietInv(job, run, events, k);
    var s, e := run[k], events[k];
    assert Enabled(job, s, e) && run[k + 1] == Apply(job, s, e);
    assert !e.Store? && !e.NextPacket? && !e.Other?;
    var r, r' := s.readers[e.thread], run[k + 1].readers[e.thread];
    if e.Load? { AllFlagged(job, s, r.pos, e.half); }
    OneStepLess(job, r, r', |s.mem|);
    TotalUpdate(job, s.readers, |s.mem|, e.thread, r');
  }

  /** The count of remaining steps is never negative and reaches zero exactly when all have finished;
      so an undisturbed transfer ends after exactly that many further steps. */
  lemma EndsAtZero(job: Job, run: seq<State>, events: seq<Event>, k: nat)
    requires Run(job, run, events) && k < |run|
    ensures TotalSteps(job, run[k].readers, |run[k].mem|) >= 0
    ensures TotalSteps(job, run[k].readers, |run[k].mem|) == 0 <==> ReadersDone(run[k])
  {
    RunInv(job, run, events, k);
    var s := run[k];
    forall u: nat | u < |s.readers|
      ensures Steps(job, s.readers[u], |s.mem|) >= 0
      ensures Steps(job, s.readers[u], |s.mem|) == 0 <==> s.readers[u].pos >= |s.mem|
    {
      StepsLeft(job, s, u);
    }
    TotalLeft(job, s.readers, |s.mem|);
  }

  lemma ReaderCanStep(job: Job, s: State, u: nat)
    requires Inv(job, s) && u < |s.readers| && s.readers[u].pos < |s.mem|
    ensures exists e: Event | (e.Load? || e.Accept? || e.Retry?) && e.thread == u :: Enabled(job, s, e)
  {
    assert ReaderOk(job, s, u);
    var loaded := s.readers[u].loaded;
    if h: nat :| h < job.halves && h !in loaded {
      assert Enabled(job, s, Load(u, h));
    } else {
      assert loaded.Keys == Below(job.halves);
      assert Enabled(job, s, if Matches(job, loaded) then Accept(u) else Retry(u));
    }
  }

  lemma WriterCanStep(job: Job, s: State, t: nat) returns (e: Event)
    requires QuietInv(job, s) && t < |s.writers| && s.writers[t].pos < |s.mem|
    ensures (e.Store? || e.NextPacket?) && e.thread == t && Enabled(job, s, e)
  {
    assert WriterOk(job, s, t);
    if h: nat :| h < job.halves && h !in s.writers[t].stored {
      e := Store(t, h);
    } else {
      assert s.writers[t].stored == Below(job.halves);
      e := NextPacket(t);
    }
  }

  // ---- driving a transfer to its end ----

  lemma Extend(job: Job, run: seq<State>, events: seq<Event>, e: Event)
    returns (run': seq<State>, events': seq<Event>)
    requires Run(job, run, events) && Quiet(events) && !e.Other?
    requires Shaped(job, run[|events|]) && Enabled(job, run[|events|], e)
    ensures Run(job, run', events') && Quiet(events') && run <= run' && events' == events + [e]
    ensures run'[|events'|] == Apply(job, run[|events|], e)
  {
    events' := events + [e];
    run' := run + [Apply(job, run[|events|], e)];
    forall k | 0 <= k < |events'|
      ensures Shaped(job, run'[k]) && Enabled(job, run'[k], events'[k])
      ensures run'[k + 1] == Apply(job, run'[k], events'[k])
    {
      if k < |events| {
        assert run'[k] == run[k] && run'[k + 1] == run[k + 1] && events'[k] == events[k];
      }
    }
  }

  /** Stores and moves a writer still has to make. */
  function WriterSteps(job: Job, w: Writer, n: nat): int
    requires job.writers > 0
  {
    Left(w.pos, n, job.writers, job.halves) - |w.stored|
  }

  function WritersSteps(job: Job, writers: seq<Writer>, n: nat): int
    requires job.writers > 0
  {
    if writers == [] then 0 else WriterSteps(job, writers[0], n) + WritersSteps(job, writers[1..], n)
  }

  lemma {:induction false} WritersUpdate(job: Job, writers: seq<Writer>, n: nat, t: nat, w: Writer)
    requires job.writers > 0 && t < |writers|
    ensures WritersSteps(job, writers[t := w], n) ==
            WritersSteps(job, writers, n) - WriterSteps(job, writers[t], n) + WriterSteps(job, w, n)
  {
    if t == 0 {
      assert writers[t := w][1..] == writers[1..];
    } else {
      WritersUpdate(job, writers[1..], n, t - 1, w);
      assert writers[t := w][1..] == writers[1..][t - 1 := w];
    }
  }

  lemma {:induction false} WritersLeft(job: Job, writers: seq<Writer>, n: nat)
    requires job.writers > 0 && forall t :: 0 <= t < |writers| ==> WriterSteps(job, writers[t], n) >= 0
    ensures WritersSteps(job, writers, n) >= 0
  {
    if writers != [] { WritersLeft(job, writers[1..], n); }
  }

  lemma WriterStepsLeft(job: Job, s: State, t: nat)
    requires QuietInv(job, s) && t < |s.writers|
    ensures WriterSteps(job, s.writers[t], |s.mem|) >= 0
  {
    assert WriterOk(job, s, t);
    SubsetSize(s.writers[t].stored, job.halves);
    assert s.writers[t].pos >= |s.mem| ==> s.writers[t].stored == {};
  }

  lemma WriterStepCounts(job: Job, w: Writer, w': Writer, n: nat)
    requires job.writers > 0 && w.pos < n
    requires
      || (exists h: nat :: h !in w.stored && w' == Writer(w.pos, w.stored + {h}))
      || (w.stored == Below(job.halves) && w' == Writer(w.pos + job.writers, {}))
    ensures WriterSteps(job, w', n) == WriterSteps(job, w, n) - 1
  {
  }

  lemma {:induction false} FinishWriters(job: Job, run: seq<State>, events: seq<Event>)
    returns (run': seq<State>, events': seq<Event>)
    requires Run(job, run, events) && Quiet(events) && QuietInv(job, run[|events|])
    ensures Run(job, run', events') && Quiet(events') && run <= run' && events <= events'
    ensures WritersDone(run'[|events'|])
    decreases WritersSteps(job, run[|events|].writers, |run[|events|].mem|)
  {
    var s := run[|events|];
    if WritersDone(s) {
      run', events' := run, events;
    } else {
      var t: nat :| t < |s.writers| && s.writers[t].pos < |s.mem|;
      var e := WriterCanStep(job, s, t);
      var run1, events1 := Extend(job, run, events, e);
      RunQuietInv(job, run1, events1, |events1|);
      WriterStepCounts(job, s.writers[t], run1[|events1|].writers[t], |s.mem|);
      WritersUpdate(job, s.writers, |s.mem|, t, run1[|events1|].writers[t]);
      WritersNonNegative(job, run1[|events1|]);
      run', events' := FinishWriters(job, run1, events1);
    }
  }

  lemma WritersNonNegative(job: Job, s: State)
    requires QuietInv(job, s)
    ensures WritersSteps(job, s.writers, |s.mem|) >= 0
  {
    forall t: nat | t < |s.writers|
      ensures WriterSteps(job, s.writers[t], |s.mem|) >= 0
    {
      WriterStepsLeft(job, s, t);
    }
    WritersLeft(job, s.writers, |s.mem|);
  }

  lemma {:induction false} FinishReaders(job: Job, run: seq<State>, events: seq<Event>)
    returns (run': seq<State>, events': seq<Event>)
    requires Run(job, run, events) && Quiet(events) && WritersDone(run[|events|])
    requires Inv(job, run[|events|])
    ensures Run(job, run', events') && Quiet(events') && run <= run' && events <= events'
    ensures WritersDone(run'[|events'|]) && ReadersDone(run'[|events'|])
    decreases TotalSteps(job, run[|events|].readers, |run[|events|].mem|)
  {
    var s := run[|events|];
    if ReadersDone(s) {
      run', events' := run, events;
    } else {
      var u: nat :| u < |s.readers| && s.readers[u].pos < |s.mem|;
      ReaderCanStep(job, s, u);
      var e: Event :| (e.Load? || e.Accept? || e.Retry?) && e.thread == u && Enabled(job, s, e);
      var run1, events1 := Extend(job, run, events, e);
      RunInv(job, run1, events1, |events1|);
      assert run1[|events|] == s;
      EveryStepCounts(job, run1, events1, |events|);
      EndsAtZero(job, run1, events1, |events1|);
      run', events' := FinishReaders(job, run1, events1);
    }
  }

  /** From every reachable state of an undisturbed transfer the steps of its own threads lead to the
      end, where the destination equals the source. */
  lemma CanFinish(job: Job, run: seq<State>, events: seq<Event>)
    returns (run': seq<State>, events': seq<Event>)
    requires Run(job, run, events) && Quiet(events)
    ensures Run(job, run', events') && Quiet(events') && run <= run' && events <= events'
    ensures var s := run'[|events'|]; WritersDone(s) && ReadersDone(s) && s.dst == job.src
  {
    RunQuietInv(job, run, events, |events|);
    var run1, events1 := FinishWriters(job, run, events);
    RunInv(job, run1, events1, |events1|);
    run', events' := FinishReaders(job, run1, events1);
    CopyRecovers(job, run', events');
  }
}
