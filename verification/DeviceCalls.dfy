/** What callers of a port channel get: the pipeline's guarantees for the calls that device threads
    make, stated over traces and without the trigger's type bits. */
module DeviceCalls {
  import opened Trigger
  import opened PortChannel
  import opened PortChannelSafety
  import opened PortChannelProgress
  import Fifo

  // ---- the calls ----

  datatype Move = Move(dstId: nat, dstOffset: nat, srcId: nat, srcOffset: nat, bytes: nat)

  datatype Call =
    | Put(move: Move)
    | SendSignal
    | PutWithSignal(move: Move)
    | PutWithSignalAndFlush(move: Move)
    | Flush

  /** A call on the channel of a semaphore. */
  datatype Issue = Issue(call: Call, sem: nat)

  const DATA: nat := 1
  const FLAG: nat := 2
  const SYNC: nat := 4

  function MoveFields(kind: nat, m: Move, sem: nat): Fields {
    Fields(kind, m.dstId, m.dstOffset, m.srcId, m.srcOffset, m.bytes, sem)
  }

  /** The trigger that a call pushes. */
  function FieldsOf(i: Issue): Fields {
    match i.call
    case Put(m) => MoveFields(DATA, m, i.sem)
    case SendSignal => Fields(FLAG, 0, 0, 0, 0, 1, i.sem)
    case PutWithSignal(m) => MoveFields(DATA + FLAG, m, i.sem)
    case PutWithSignalAndFlush(m) => MoveFields(DATA + FLAG + SYNC, m, i.sem)
    case Flush => Fields(SYNC, 0, 0, 0, 0, 1, i.sem)
  }

  /** The pushes of the trace are these calls, whose arguments pass the constructor's assertions. */
  ghost predicate MadeBy(events: seq<Event>, issues: seq<Issue>) {
    && |Taken(events)| == |issues|
    && forall t :: 0 <= t < |issues| ==> InRange(FieldsOf(issues[t])) && Taken(events)[t] == Encode(FieldsOf(issues[t]))
  }

  // ---- reference: what the calls ask for ----

  predicate Moves(call: Call) { call.Put? || call.PutWithSignal? || call.PutWithSignalAndFlush? }

  predicate Notifies(call: Call) { call.SendSignal? || call.PutWithSignal? || call.PutWithSignalAndFlush? }

  predicate Flushes(call: Call) { call.Flush? || call.PutWithSignalAndFlush? }

  /** The work carries out the move. */
  predicate CarriesOut(w: Work, pos: nat, m: Move) {
    && w.Write? && w.pos == pos && w.fields.dstId == m.dstId && w.fields.dstOffset == m.dstOffset
    && w.fields.srcId == m.srcId && w.fields.srcOffset == m.srcOffset && w.fields.bytes == m.bytes
  }

  /** The work is what the call at position `pos` asks for: its write if it moves data, then its signal
      with `token` if it notifies. */
  predicate IsDemand(work: seq<Work>, pos: nat, i: Issue, token: nat) {
    match i.call
    case Put(m) => |work| == 1 && CarriesOut(work[0], pos, m)
    case SendSignal => work == [Signal(pos, i.sem, token)]
    case PutWithSignal(m) => |work| == 2 && CarriesOut(work[0], pos, m) && work[1] == Signal(pos, i.sem, token)
    case PutWithSignalAndFlush(m) =>
      |work| == 2 && CarriesOut(work[0], pos, m) && work[1] == Signal(pos, i.sem, token)
    case Flush => work == []
  }

  /** How many of the calls notify semaphore `sem`. */
  function Notices(issues: seq<Issue>, sem: nat): nat {
    if issues == [] then 0
    else
      var last := issues[|issues| - 1];
      Notices(issues[..|issues| - 1], sem) + if Notifies(last.call) && last.sem == sem then 1 else 0
  }

  /** The work is what the calls ask for on connection `c`, in the order of their positions. */
  ghost predicate IsDemanded(work: seq<Work>, issues: seq<Issue>, semConn: seq<nat>, c: nat)
    decreases issues
  {
    if issues == [] then work == []
    else
      var before, last := issues[..|issues| - 1], issues[|issues| - 1];
      if last.sem < |semConn| && semConn[last.sem] == c
      then exists n: nat :: n <= |work| && IsDemanded(work[..n], before, semConn, c)
                            && IsDemand(work[n..], |before|, last, Notices(before, last.sem) + 1)
      else IsDemanded(work, before, semConn, c)
  }

  // ---- one call ----

  /** What a call's trigger type asks for. */
  lemma CallBits(i: Issue)
    ensures HasData(FieldsOf(i).kind) <==> Moves(i.call)
    ensures HasFlag(FieldsOf(i).kind) <==> Notifies(i.call)
    ensures HasSync(FieldsOf(i).kind) <==> Flushes(i.call)
  {
  }

  lemma WorkIsDemand(pos: nat, i: Issue, token: nat)
    ensures IsDemand(WorkOf(pos, FieldsOf(i), token), pos, i, token)
  {
    CallBits(i);
  }

  /** Handling a call posts exactly its work on its own connection, records its position exactly if it
      flushes, and touches no other connection. */
  lemma HandlesCall(px: Proxy, pos: nat, i: Issue, d: nat) returns (work: seq<Work>)
    requires WellFormed(px) && i.sem < |px.semConn| && d < |px.conns|
    ensures var c, f := px.semConn[i.sem], FieldsOf(i);
            var px' := SyncPart(FlagPart(DataPart(px, pos, f), pos, f), pos, f);
            && IsDemand(work, pos, i, px.outbound[i.sem] + 1)
            && px'.conns[c].posted == px.conns[c].posted + work
            && (d != c ==> px'.conns[d] == px.conns[d])
            && px'.pending == (if Flushes(i.call) then px.pending[c := pos] else px.pending)
            && px'.outbound == (if Notifies(i.call) then px.outbound[i.sem := px.outbound[i.sem] + 1] else px.outbound)
  {
    CallBits(i);
    work := WorkOf(pos, FieldsOf(i), px.outbound[i.sem] + 1);
    WorkIsDemand(pos, i, px.outbound[i.sem] + 1);
  }

  // ---- all calls of a trace ----

  /** The requests that the pipeline sees are the calls. */
  ghost predicate AreCalls(fs: seq<Fields>, issues: seq<Issue>) {
    |fs| <= |issues| && forall t :: 0 <= t < |fs| ==> fs[t] == FieldsOf(issues[t])
  }

  lemma {:induction false} SignalsAreNotices(fs: seq<Fields>, issues: seq<Issue>, t: nat, sem: nat)
    requires AreCalls(fs, issues) && t <= |fs|
    ensures Signals(fs[..t], sem) == Notices(issues[..t], sem)
  {
    if t > 0 {
      var k := t - 1;
      SignalsAreNotices(fs, issues, k, sem);
      SignalsNext(fs, sem, k);
      CallBits(issues[k]);
      assert k + 1 == t && issues[..t][..k] == issues[..k];
    }
  }

  lemma DemandNext(work: seq<Work>, added: seq<Work>, issues: seq<Issue>, t: nat, semConn: seq<nat>, c: nat)
    requires t < |issues| && IsDemanded(work, issues[..t], semConn, c)
    requires var i := issues[t];
             if i.sem < |semConn| && semConn[i.sem] == c then IsDemand(added, t, i, Notices(issues[..t], i.sem) + 1)
             else added == []
    ensures IsDemanded(work + added, issues[..t + 1], semConn, c)
  {
    assert issues[..t + 1][..t] == issues[..t];
    assert (work + added)[..|work|] == work && (work + added)[|work|..] == added;
    assert work + [] == work;
  }

  lemma {:induction false} IssuedIsDemanded(fs: seq<Fields>, issues: seq<Issue>, t: nat, semConn: seq<nat>, c: nat)
    requires AreCalls(fs, issues) && t <= |fs|
    ensures IsDemanded(Issued(fs[..t], semConn, c), issues[..t], semConn, c)
  {
    if t > 0 {
      var k := t - 1;
      IssuedIsDemanded(fs, issues, k, semConn, c);
      IssuedNext(fs, semConn, c, k);
      SignalsAreNotices(fs, issues, k, fs[k].semaphoreId);
      var token := Signals(fs[..k], fs[k].semaphoreId) + 1;
      WorkIsDemand(k, issues[k], token);
      assert k + 1 == t;
      DemandNext(Issued(fs[..k], semConn, c), Adds(k, fs[k], token, semConn, c), issues, k, semConn, c);
    }
  }

  lemma StepTakes(s: Sys, e: Event)
    requires Enabled(s, e)
    ensures Fifo.Pushed(Apply(s, e).fifo) == Fifo.Pushed(s.fifo) + if e.Device? && e.e.Take? then [e.e.trigger] else []
  {
    if e.Device? {
      Fifo.StepPushes(s.fifo, e.e);
    } else if e.Poll? {
      Fifo.StepPushes(s.fifo, e.e);
    }
  }

  lemma {:induction false} PushedIsTaken(run: seq<Sys>, events: seq<Event>, k: nat)
    requires Trace(run, events) && k <= |events|
    ensures Fifo.Pushed(run[k].fifo) == Taken(events[..k])
  {
    if k > 0 {
      var i := k - 1;
      PushedIsTaken(run, events, i);
      assert StepBy(run[i], events[i], run[i + 1]);
      StepTakes(run[i], events[i]);
      assert i + 1 == k && events[..k][..i] == events[..i];
    }
  }

  lemma {:induction false} TakenPrefix(events: seq<Event>, k: nat)
    requires k <= |events|
    ensures Taken(events[..k]) <= Taken(events)
    decreases |events|
  {
    if k == |events| {
      assert events[..k] == events;
    } else {
      TakenPrefix(events[..|events| - 1], k);
      assert events[..|events| - 1][..k] == events[..k];
    }
  }

  /** At every point of a trace the requests so far are the first of the calls. */
  lemma RequestsAreCalls(run: seq<Sys>, events: seq<Event>, issues: seq<Issue>, k: nat)
    requires Trace(run, events) && MadeBy(events, issues) && k <= |events|
    ensures AreCalls(Requests(run[k].fifo), issues)
  {
    PushedIsTaken(run, events, k);
    TakenPrefix(events, k);
    var fs := Requests(run[k].fifo);
    assert |fs| == |Fifo.Pushed(run[k].fifo)| == |Taken(events[..k])|;
    forall t | 0 <= t < |fs|
      ensures fs[t] == FieldsOf(issues[t])
    {
      assert Fifo.Pushed(run[k].fifo)[t] == Taken(events)[t];
      InRangeDecode(FieldsOf(issues[t]));
    }
  }

  lemma TraceIsRun(run: seq<Sys>, events: seq<Event>, k: nat)
    requires Trace(run, events) && k <= |events|
    ensures Run(run[..k + 1]) && Last(run[..k + 1]) == run[k]
  {
    var prefix := run[..k + 1];
    forall i | 0 <= i < |prefix| - 1
      ensures Step(prefix[i], prefix[i + 1])
    {
      assert StepBy(run[i], events[i], run[i + 1]);
    }
  }

  lemma TraceInv(run: seq<Sys>, events: seq<Event>, k: nat)
    requires Trace(run, events) && k <= |events|
    ensures Inv(run[k])
  {
    TraceIsRun(run, events, k);
    RunInv(run[..k + 1]);
  }

  // ---- what the state records of the trace ----

  lemma StepReturns(s: Sys, e: Event, p: nat, w: (nat, nat))
    requires Enabled(s, e)
    ensures p in Apply(s, e).waits.flushed <==> p in s.waits.flushed || e == FlushReturn(p)
    ensures w in Apply(s, e).waits.waited <==> w in s.waits.waited || e == WaitReturn(w.0, w.1)
  {
  }

  /** The recorded returns are those of the trace. */
  lemma {:induction false} ReturnsAreEvents(run: seq<Sys>, events: seq<Event>, k: nat, p: nat, w: (nat, nat))
    requires Trace(run, events) && k <= |events|
    ensures p in run[k].waits.flushed <==> FlushReturn(p) in events[..k]
    ensures w in run[k].waits.waited <==> WaitReturn(w.0, w.1) in events[..k]
  {
    if k > 0 {
      var i := k - 1;
      ReturnsAreEvents(run, events, i, p, w);
      assert StepBy(run[i], events[i], run[i + 1]);
      StepReturns(run[i], events[i], p, w);
      assert i + 1 == k && events[..k] == events[..i] + [events[i]];
    }
  }

  function ModeAfter(events: seq<Event>): Mode {
    if Sentinel in events then Stopped else if Stop in events then Draining else Running
  }

  lemma StepMode(s: Sys, e: Event)
    requires Enabled(s, e)
    ensures Apply(s, e).mode == if e == Sentinel then Stopped else if e == Stop then Draining else s.mode
    ensures (e == Stop ==> s.mode == Running) && (e == Sentinel ==> s.mode == Draining)
  {
  }

  /** The proxy runs until it is stopped, and has stopped once the sentinel has been written. */
  lemma {:induction false} ModeIsAfter(run: seq<Sys>, events: seq<Event>, k: nat)
    requires Trace(run, events) && k <= |events|
    ensures run[k].mode == ModeAfter(events[..k])
  {
    if k > 0 {
      var i := k - 1;
      ModeIsAfter(run, events, i);
      assert StepBy(run[i], events[i], run[i + 1]);
      StepMode(run[i], events[i]);
      assert i + 1 == k && events[..k] == events[..i] + [events[i]];
    }
  }

  ghost predicate SameWork(s: Sys, s': Sys) {
    && s'.fifo.handled == s.fifo.handled && s'.fifo.tail == s.fifo.tail && |s'.px.conns| == |s.px.conns|
    && forall c :: 0 <= c < |s.px.conns| ==> s'.px.conns[c].posted == s.px.conns[c].posted
  }

  lemma StepAfterStop(s: Sys, e: Event)
    requires Enabled(s, e) && s.mode != Running && s.fifo.consumer == Fifo.Idle
    ensures SameWork(s, Apply(s, e))
  {
  }

  /** A stopped proxy handles no further trigger and posts no further work. */
  lemma {:induction false} StopIsFinal(run: seq<Sys>, events: seq<Event>, i: nat, k: nat)
    requires Trace(run, events) && i < k <= |events| && events[i] == Stop
    ensures SameWork(run[i], run[k])
    decreases k
  {
    var j := k - 1;
    assert StepBy(run[j], events[j], run[j + 1]);
    if j > i {
      StopIsFinal(run, events, i, j);
      ModeIsAfter(run, events, j);
      TraceInv(run, events, j);
      assert events[..j][i] == Stop;
      StepAfterStop(run[j], events[j]);
    }
  }

  // ---- what returns mean ----

  /** What the calls up to position `q` ask for on connection `c` has been applied. */
  ghost predicate Done(s: Sys, issues: seq<Issue>, q: nat, c: nat) {
    && q <= |issues| && c < |s.px.conns| && s.px.conns[c].applied <= |s.px.conns[c].posted|
    && exists work :: work <= s.px.conns[c].posted[..s.px.conns[c].applied] &&
                      IsDemanded(work, issues[..q], s.px.semConn, c)
  }

  lemma CompletedIsDone(s: Sys, issues: seq<Issue>, q: nat, c: nat)
    requires AreCalls(Requests(s.fifo), issues) && CompletedBelow(s.px, Requests(s.fifo), c, q)
    ensures Done(s, issues, q, c)
  {
    var fs := Requests(s.fifo);
    IssuedIsDemanded(fs, issues, q, s.px.semConn, c);
    assert Issued(fs[..q], s.px.semConn, c) <= s.px.conns[c].posted[..s.px.conns[c].applied];
  }

  /** When a flush returns, it is the return of a flushing call, and until the sentinel is written all that
      the calls up to it ask for on its connection has been applied. */
  lemma FlushIsSafe(run: seq<Sys>, events: seq<Event>, issues: seq<Issue>, i: nat, p: nat)
    requires Trace(run, events) && MadeBy(events, issues) && i < |events| && events[i] == FlushReturn(p)
    ensures p < |issues| && Flushes(issues[p].call) && issues[p].sem < |run[i].px.semConn|
    ensures Sentinel !in events[..i] ==> Done(run[i], issues, p + 1, run[i].px.semConn[issues[p].sem])
  {
    var s := run[i];
    assert StepBy(s, events[i], run[i + 1]);
    TraceInv(run, events, i);
    RequestsAreCalls(run, events, issues, i);
    CallBits(issues[p]);
    FlushReturnsCovered(s, p);
    ModeIsAfter(run, events, i);
    if s.mode != Stopped { CompletedIsDone(s, issues, p + 1, s.px.semConn[issues[p].sem]); }
  }

  /** `pos` is the position of the `k`-th call that notifies `sem`. */
  ghost predicate IsKthNotice(issues: seq<Issue>, sem: nat, k: nat, pos: nat) {
    && pos < |issues| && Notifies(issues[pos].call) && issues[pos].sem == sem
    && Notices(issues[..pos + 1], sem) == k
  }

  lemma StepTickets(s: Sys, e: Event, sem: nat)
    requires Enabled(s, e) && sem < |s.waits.tickets|
    ensures |Apply(s, e).waits.tickets| == |s.waits.tickets|
    ensures Apply(s, e).waits.tickets[sem] == s.waits.tickets[sem] + if e == WaitStart(sem) then 1 else 0
  {
  }

  lemma {:induction false} TicketsAreWaits(run: seq<Sys>, events: seq<Event>, k: nat, sem: nat)
    requires Trace(run, events) && k <= |events| && sem < |run[0].waits.tickets|
    ensures |run[k].waits.tickets| == |run[0].waits.tickets|
    ensures run[k].waits.tickets[sem] == WaitsStarted(events[..k], sem)
  {
    if k > 0 {
      var i := k - 1;
      TicketsAreWaits(run, events, i, sem);
      assert StepBy(run[i], events[i], run[i + 1]);
      StepTickets(run[i], events[i], sem);
      assert i + 1 == k && events[..k][..i] == events[..i];
    }
  }

  lemma {:induction false} TicketCount(run: seq<Sys>, events: seq<Event>, k: nat)
    requires Trace(run, events) && k <= |events|
    ensures |run[k].waits.tickets| == |run[0].waits.tickets|
  {
    if k > 0 {
      TicketCount(run, events, k - 1);
      assert StepBy(run[k - 1], events[k - 1], run[k - 1 + 1]);
    }
  }

  /** When the wait with ticket `k` returns, `k` waits have been started, a `k`-th notifying call has
      been made, and all that the calls up to it ask for on the connection has been applied. */
  lemma WaitIsSafe(run: seq<Sys>, events: seq<Event>, issues: seq<Issue>, i: nat, sem: nat, k: nat)
    returns (pos: nat)
    requires Trace(run, events) && MadeBy(events, issues) && i < |events| && events[i] == WaitReturn(sem, k)
    ensures 1 <= k <= WaitsStarted(events[..i], sem) && IsKthNotice(issues, sem, k, pos)
    ensures sem < |run[i].px.semConn| && Done(run[i], issues, pos + 1, run[i].px.semConn[sem])
  {
    var s := run[i];
    assert StepBy(s, events[i], run[i + 1]);
    TraceInv(run, events, i);
    TicketCount(run, events, i);
    TicketsAreWaits(run, events, i, sem);
    RequestsAreCalls(run, events, issues, i);
    pos := WaitReturnsCovered(s.px, ViewOf(s), sem, k);
    SignalsAreNotices(Requests(s.fifo), issues, pos + 1, sem);
    CallBits(issues[pos]);
    CompletedIsDone(s, issues, pos + 1, s.px.semConn[sem]);
  }

  /** No flushing call is forgotten: once popped it has been released or is covered by a pending
      position, and once the sentinel has been written it has been released. */
  lemma NoLostWakeup(run: seq<Sys>, events: seq<Event>, issues: seq<Issue>, k: nat, p: nat)
    requires Trace(run, events) && MadeBy(events, issues) && k <= |events| && p < SENTINEL
    requires p < run[k].fifo.tail && p < |issues| && Flushes(issues[p].call)
    ensures var s := run[k];
            && WellFormed(s.px) && issues[p].sem < |s.px.semConn|
            && var c := s.px.semConn[issues[p].sem];
               && (s.px.conns[c].flushDone > p || (c in s.px.pending && s.px.pending[c] >= p))
               && (Sentinel in events[..k] ==> s.px.conns[c].flushDone > p)
  {
    TraceInv(run, events, k);
    TraceIsRun(run, events, k);
    ModeIsAfter(run, events, k);
    RequestsAreCalls(run, events, issues, k);
    CallBits(issues[p]);
    PortChannelSafety.NoLostWakeup(run[..k + 1], p);
  }

  // ---- headway ----

  lemma LastEvent(run: seq<Sys>) returns (e: Event)
    requires Run(run) && |run| > 1
    ensures Run(run[..|run| - 1]) && StepBy(run[|run| - 2], e, run[|run| - 1])
  {
    e := LastStep(run);
  }

  lemma TraceNext(run: seq<Sys>, events: seq<Event>, e: Event, s': Sys)
    requires Trace(run, events) && StepBy(run[|events|], e, s')
    ensures Trace(run + [s'], events + [e])
  {
    var run', events' := run + [s'], events + [e];
    forall i | 0 <= i < |events'|
      ensures StepBy(run'[i], events'[i], run'[i + 1])
    {
      if i < |events| { assert StepBy(run[i], events[i], run[i + 1]); }
    }
  }

  lemma TraceSnoc(run: seq<Sys>, events: seq<Event>, e: Event)
    requires |run| > 1 && Trace(run[..|run| - 1], events) && StepBy(run[|run| - 2], e, run[|run| - 1])
    ensures Trace(run, events + [e])
  {
    TraceNext(run[..|run| - 1], events, e, run[|run| - 1]);
    assert run[..|run| - 1] + [run[|run| - 1]] == run;
  }

  /** Any longer run has a longer trace. */
  lemma {:induction false} TraceOf(run: seq<Sys>, events: seq<Event>, run': seq<Sys>) returns (events': seq<Event>)
    requires Trace(run, events) && Run(run') && run <= run'
    ensures Trace(run', events') && events <= events'
    decreases |run'|
  {
    if |run'| == |run| {
      events' := events;
      assert run' == run;
    } else {
      var before := run'[..|run'| - 1];
      var e := LastEvent(run');
      events' := TraceOf(run, events, before);
      TraceSnoc(run', events', e);
      events' := events' + [e];
    }
  }

  lemma TraceEnd(run: seq<Sys>, events: seq<Event>)
    requires Trace(run, events)
    ensures Run(run) && Last(run) == run[|events|]
  {
    TraceIsRun(run, events, |events|);
    assert run[..|events| + 1] == run;
  }

  /** The trace of a run that leads to a state in which the event can happen, with the event. */
  lemma TraceTo(run: seq<Sys>, events: seq<Event>, run1: seq<Sys>, e: Event)
    returns (run': seq<Sys>, events': seq<Event>)
    requires Trace(run, events) && Run(run1) && run <= run1 && Enabled(Last(run1), e)
    ensures Trace(run', events') && run <= run' && events < events' && events'[|events'| - 1] == e
  {
    var events1 := TraceOf(run, events, run1);
    assert run1[|events1|] == Last(run1);
    TraceNext(run1, events1, e, Apply(Last(run1), e));
    run', events' := run1 + [Apply(Last(run1), e)], events1 + [e];
  }

  lemma AllCallsRequested(run: seq<Sys>, events: seq<Event>, issues: seq<Issue>)
    requires Trace(run, events) && MadeBy(events, issues)
    ensures |Requests(run[|events|].fifo)| == |issues|
  {
    PushedIsTaken(run, events, |events|);
    assert events[..|events|] == events;
    assert |Fifo.Pushed(run[|events|].fifo)| == |Taken(events)|;
  }

  lemma FlushRun(run: seq<Sys>, events: seq<Event>, issues: seq<Issue>, p: nat) returns (run': seq<Sys>)
    requires Trace(run, events) && MadeBy(events, issues) && run[|events|].mode == Running
    requires p < |issues| && p < SENTINEL && Flushes(issues[p].call)
    ensures Run(run') && run <= run' && Enabled(Last(run'), FlushReturn(p))
  {
    TraceEnd(run, events);
    RequestsAreCalls(run, events, issues, |events|);
    AllCallsRequested(run, events, issues);
    CallBits(issues[p]);
    run' := PortChannelProgress.FlushCanReturn(run, p);
  }

  /** From every point at which the proxy runs, the trace can go on so that a flushing call made
      before returns. */
  lemma FlushCanReturn(run: seq<Sys>, events: seq<Event>, issues: seq<Issue>, p: nat)
    returns (run': seq<Sys>, events': seq<Event>)
    requires Trace(run, events) && MadeBy(events, issues) && run[|events|].mode == Running
    requires p < |issues| && p < SENTINEL && Flushes(issues[p].call)
    ensures Trace(run', events') && run <= run' && events < events' && events'[|events'| - 1] == FlushReturn(p)
  {
    var run1 := FlushRun(run, events, issues, p);
    run', events' := TraceTo(run, events, run1, FlushReturn(p));
  }

  lemma AllNotices(run: seq<Sys>, events: seq<Event>, issues: seq<Issue>, sem: nat)
    requires Trace(run, events) && MadeBy(events, issues)
    ensures Signals(Requests(run[|events|].fifo), sem) == Notices(issues, sem)
  {
    RequestsAreCalls(run, events, issues, |events|);
    AllCallsRequested(run, events, issues);
    var fs := Requests(run[|events|].fifo);
    SignalsAreNotices(fs, issues, |fs|, sem);
    assert fs[..|fs|] == fs && issues[..|fs|] == issues;
  }

  lemma WaitRun(run: seq<Sys>, events: seq<Event>, issues: seq<Issue>, sem: nat, k: nat) returns (run': seq<Sys>)
    requires Trace(run, events) && MadeBy(events, issues) && run[|events|].mode == Running
    requires sem < |run[|events|].px.semConn| && sem < |run[0].waits.tickets|
    requires 1 <= k <= WaitsStarted(events, sem) && k <= Notices(issues, sem)
    ensures Run(run') && run <= run' && Enabled(Last(run'), WaitReturn(sem, k))
  {
    TraceEnd(run, events);
    TicketsAreWaits(run, events, |events|, sem);
    assert events[..|events|] == events;
    AllNotices(run, events, issues, sem);
    run' := PortChannelProgress.WaitCanReturn(run, sem, k);
  }

  /** Likewise a wait that has been started, once its notifying call has been made. */
  lemma WaitCanReturn(run: seq<Sys>, events: seq<Event>, issues: seq<Issue>, sem: nat, k: nat)
    returns (run': seq<Sys>, events': seq<Event>)
    requires Trace(run, events) && MadeBy(events, issues) && run[|events|].mode == Running
    requires sem < |run[|events|].px.semConn| && sem < |run[0].waits.tickets|
    requires 1 <= k <= WaitsStarted(events, sem) && k <= Notices(issues, sem)
    ensures Trace(run', events') && run <= run' && events < events' && events'[|events'| - 1] == WaitReturn(sem, k)
  {
    var run1 := WaitRun(run, events, issues, sem, k);
    run', events' := TraceTo(run, events, run1, WaitReturn(sem, k));
  }
}
