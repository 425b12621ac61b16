/** Headway of the port-channel pipeline: the proxy's guards never disable it, and from every
    reachable state the steps of the proxy and the network lead a handled flush to its return. */
module PortChannelProgress {
  import opened Trigger
  import opened PortChannel
  import opened PortChannelSafety
  import Fifo

  function Last(run: seq<Sys>): Sys
    requires run != []
  {
    run[|run| - 1]
  }

  lemma Extend(run: seq<Sys>, e: Event) returns (run': seq<Sys>)
    requires Run(run) && Enabled(Last(run), e)
    ensures Run(run') && run <= run' && Last(run') == Apply(Last(run), e) && |run'| == |run| + 1
  {
    run' := run + [Apply(Last(run), e)];
    forall i | 0 <= i < |run'| - 1
      ensures Step(run'[i], run'[i + 1])
    {
      if i < |run| - 1 {
        assert run'[i] == run[i] && run'[i + 1] == run[i + 1];
      } else {
        assert Enabled(run'[i], e) && run'[i + 1] == Apply(run'[i], e);
      }
    }
  }

  // ---- the guards ----

  /** The trigger in hand always names an existing semaphore of a well-formed service. */
  lemma HandlerGuards(s: Sys)
    requires Inv(s) && s.fifo.consumer.Handling?
    ensures WellFormed(s.px) && Known(s.px, Current(s))
  {
    PositionIsTicket(s);
  }

  /** The step that the proxy thread or, while it blocks, the network takes next. */
  ghost function NextStep(s: Sys): Event
    requires s.fifo.consumer != Fifo.Idle
    requires s.fifo.consumer.Handling? ==> WellFormed(s.px) && Known(s.px, Current(s))
  {
    match s.fifo.consumer
    case GotFst(_) => Poll(Fifo.LoadSnd)
    case Clear => Poll(Fifo.ClearFst)
    case Advance => Poll(Fifo.AdvanceTail)
    case Handling(_) =>
      match s.phase
      case AtData => HandleData
      case AtFlag => HandleFlag
      case Handled => Poll(Fifo.EndHandler)
      case AtSync =>
        var c := ConnOf(s.px, Current(s));
        if Blocks(s.px, Current(s)) && s.px.conns[c].applied != |s.px.conns[c].posted| then Complete(c)
        else HandleSync
  }

  /** A busy proxy is never stuck: it can step, or it waits for work that the network can complete. */
  lemma BusyProxyMoves(s: Sys)
    requires Inv(s) && s.fifo.consumer != Fifo.Idle
    ensures s.fifo.consumer.Handling? ==> WellFormed(s.px) && Known(s.px, Current(s))
    ensures Enabled(s, NextStep(s))
  {
    if s.fifo.consumer.Handling? {
      HandlerGuards(s);
      assert ViewConnOk(s.px, ViewOf(s), ConnOf(s.px, Current(s)));
    }
  }

  lemma NeverStuck(run: seq<Sys>)
    requires Run(run) && Last(run).fifo.consumer != Fifo.Idle
    ensures exists e: Event | e.Poll? || e.HandleData? || e.HandleFlag? || e.HandleSync? || e.Complete? ::
              Enabled(Last(run), e)
  {
    RunInv(run);
    BusyProxyMoves(Last(run));
    assert Enabled(Last(run), NextStep(Last(run)));
  }

  // ---- driving a flush to its return ----

  ghost function Stage(s: Sys): nat {
    match s.fifo.consumer
    case Idle => 0
    case Advance => 1
    case Clear => 2
    case Handling(_) => (match s.phase case Handled => 3 case AtSync => 4 case AtFlag => 5 case AtData => 6)
    case GotFst(_) => 7
  }

  /** What the blocked proxy still waits for. */
  ghost function Waiting(s: Sys): int {
    if s.fifo.consumer.Handling? && WellFormed(s.px) && Known(s.px, Current(s)) then
      var conn := s.px.conns[ConnOf(s.px, Current(s))];
      |conn.posted| - conn.applied
    else 0
  }

  /** What driving never undoes: the requests stay, and handled ones stay handled. */
  ghost predicate Onward(s: Sys, s': Sys) {
    && Requests(s'.fifo) == Requests(s.fifo) && s.fifo.tail <= s'.fifo.tail
    && ViewOf(s).handled <= ViewOf(s').handled && s'.mode == s.mode && s'.waits == s.waits
    && s'.px.semConn == s.px.semConn
  }

  lemma StepOnward(s: Sys)
    requires Inv(s) && s.fifo.consumer != Fifo.Idle
    requires s.fifo.consumer.Handling? ==> WellFormed(s.px) && Known(s.px, Current(s))
    requires Enabled(s, NextStep(s))
    ensures Onward(s, Apply(s, NextStep(s)))
  {
    assert Requests(Apply(s, NextStep(s)).fifo) == Requests(s.fifo);
  }

  lemma StepCloser(s: Sys)
    requires Inv(s) && s.fifo.consumer != Fifo.Idle
    requires s.fifo.consumer.Handling? ==> WellFormed(s.px) && Known(s.px, Current(s))
    requires Enabled(s, NextStep(s))
    ensures var s' := Apply(s, NextStep(s));
            Stage(s') < Stage(s) || (Stage(s') == Stage(s) && 0 <= Waiting(s') < Waiting(s))
  {
    if s.fifo.consumer.Handling? {
      assert ViewConnOk(s.px, ViewOf(s), ConnOf(s.px, Current(s)));
    }
  }

  /** The proxy thread can always finish the trigger in hand. */
  lemma {:induction false} ToIdle(run: seq<Sys>) returns (run': seq<Sys>)
    requires Run(run)
    ensures Run(run') && run <= run' && Last(run').fifo.consumer == Fifo.Idle && Onward(Last(run), Last(run'))
    decreases Stage(Last(run)), Waiting(Last(run))
  {
    if Last(run).fifo.consumer == Fifo.Idle {
      run' := run;
    } else {
      RunInv(run);
      BusyProxyMoves(Last(run));
      StepOnward(Last(run));
      StepCloser(Last(run));
      var run1 := Extend(run, NextStep(Last(run)));
      run' := ToIdle(run1);
    }
  }

  /** The network can always complete what is posted on a connection. */
  lemma {:induction false} ToDrained(run: seq<Sys>, c: nat) returns (run': seq<Sys>)
    requires Run(run) && c < |Last(run).px.conns| && Last(run).fifo.consumer == Fifo.Idle
    requires Last(run).px.conns[c].applied <= |Last(run).px.conns[c].posted|
    ensures Run(run') && run <= run' && Last(run') == Last(run).(px := Last(run').px)
    ensures var conn := Last(run).px.conns[c];
            Last(run').px == SetConn(Last(run).px, c, conn.(applied := |conn.posted|))
    decreases |Last(run).px.conns[c].posted| - Last(run).px.conns[c].applied
  {
    var px := Last(run).px;
    if px.conns[c].applied == |px.conns[c].posted| {
      run' := run;
      assert px.conns[c := px.conns[c]] == px.conns;
    } else {
      var run1 := Extend(run, Complete(c));
      run' := ToDrained(run1, c);
      assert px.conns[c := Last(run1).px.conns[c]] == Last(run1).px.conns;
    }
  }

  /** Polling everything that has completed publishes the pending flush. */
  lemma Publishes(px: Proxy, c: nat)
    requires c < |px.conns| && c in px.pending && px.conns[c].polled <= |px.conns[c].posted|
    ensures ProgressPart(px, c, |px.conns[c].posted| - px.conns[c].polled).conns[c].flushDone == px.pending[c] + 1
  {
  }

  /** A handled push has stored its trigger. */
  lemma HandledIsDone(s: Sys, p: nat)
    requires Inv(s) && p < ViewOf(s).handled
    ensures p < |s.fifo.pushes| && Fifo.AtStage(s.fifo, p, Fifo.Done)
  {
    assert p < |s.fifo.pushes|;
    assert Fifo.PushOk(s.fifo, p);
  }

  /** A flush that the proxy has handled can be brought to return, even while the proxy is stopping. */
  lemma HandledFlushReturns(run: seq<Sys>, p: nat) returns (run': seq<Sys>)
    requires Run(run) && p < SENTINEL
    requires p < ViewOf(Last(run)).handled && p < |Last(run).fifo.pushes|
    requires HasSync(Requests(Last(run).fifo)[p].kind)
    ensures Run(run') && run <= run' && FlushMayReturn(Last(run'), p)
  {
    var run1 := ToIdle(run);
    RunInv(run1);
    NoLostWakeup(run1, p);
    var s := Last(run1);
    HandledIsDone(s, p);
    var c := ConnOf(s.px, Requests(s.fifo)[p]);
    assert ViewConnOk(s.px, ViewOf(s), c);
    if s.px.conns[c].flushDone > p {
      run' := run1;
    } else {
      var run2 := ToDrained(run1, c);
      var s2 := Last(run2);
      var w := |s2.px.conns[c].posted| - s2.px.conns[c].polled;
      Publishes(s2.px, c);
      run' := Extend(run2, Progress(c, w));
    }
  }

  // ---- draining the FIFO while the proxy runs ----

  ghost predicate Deliverables(fifo: Fifo.State) {
    forall t :: 0 <= t < |fifo.pushes| ==> Deliverable(fifo.pushes[t].trigger)
  }

  /** What the device's constructor accepts can always be told from an empty slot. */
  lemma {:induction false} RunDeliverables(run: seq<Sys>)
    requires Run(run)
    ensures Deliverables(Last(run).fifo)
    decreases |run|
  {
    if |run| > 1 {
      var e := LastStep(run);
      RunDeliverables(run[..|run| - 1]);
      StepDeliverables(run[|run| - 2], e);
    }
  }

  lemma StepDeliverables(s: Sys, e: Event)
    requires Deliverables(s.fifo) && Enabled(s, e)
    ensures Deliverables(Apply(s, e).fifo)
  {
    if e.Device? && e.e.Take? {
      var f :| InRange(f) && Known(s.px, f) && e.e.trigger == Encode(f);
      InRangeDecode(f);
    }
  }

  /** The device thread of the push at the tail can always finish its stores. */
  lemma {:induction false} ToStored(run: seq<Sys>) returns (run': seq<Sys>)
    requires Run(run) && Last(run).fifo.tail < |Last(run).fifo.pushes|
    ensures Run(run') && run <= run' && Onward(Last(run), Last(run'))
    ensures Last(run').fifo.tail == Last(run).fifo.tail && Last(run').fifo.consumer == Last(run).fifo.consumer
    ensures Fifo.AtStage(Last(run').fifo, Last(run').fifo.tail, Fifo.Done)
    decreases Fifo.StageRank(Last(run).fifo.pushes[Last(run).fifo.tail].stage)
  {
    var fifo := Last(run).fifo;
    if fifo.pushes[fifo.tail].stage == Fifo.Done {
      run' := run;
    } else {
      RunInv(run);
      Fifo.ProducerGetsOn(fifo);
      var run1 := Extend(run, Device(Fifo.ProducerStep(fifo, fifo.tail)));
      SameRequests(fifo, Last(run1).fifo);
      run' := ToStored(run1);
    }
  }

  lemma SameRequests(fifo: Fifo.State, fifo': Fifo.State)
    requires Fifo.Pushed(fifo') == Fifo.Pushed(fifo)
    ensures Requests(fifo') == Requests(fifo)
  {
    assert |Fifo.Pushed(fifo')| == |Fifo.Pushed(fifo)|;
    forall t | 0 <= t < |fifo.pushes|
      ensures Requests(fifo')[t] == Requests(fifo)[t]
    {
      assert Fifo.Pushed(fifo')[t] == Fifo.Pushed(fifo)[t];
    }
  }

  /** The consumer has committed to the trigger at the tail. */
  ghost predicate Committed(fifo: Fifo.State) {
    Fifo.Accepted(fifo) || (fifo.consumer.GotFst? && fifo.consumer.fst != 0)
  }

  lemma CommittedStep(s: Sys)
    requires Inv(s) && Deliverables(s.fifo) && Committed(s.fifo)
    requires s.fifo.consumer.Handling? ==> WellFormed(s.px) && Known(s.px, Current(s))
    requires Enabled(s, NextStep(s))
    ensures var fifo' := Apply(s, NextStep(s)).fifo;
            if s.fifo.consumer == Fifo.Advance then fifo'.tail == s.fifo.tail + 1
            else fifo'.tail == s.fifo.tail && Committed(fifo')
  {
    assert Fifo.SlotOk(s.fifo, s.fifo.tail);
  }

  /** A trigger that the consumer has committed to can be brought to be popped. */
  lemma {:induction false} ToPopped(run: seq<Sys>) returns (run': seq<Sys>)
    requires Run(run) && Committed(Last(run).fifo)
    ensures Run(run') && run <= run' && Onward(Last(run), Last(run'))
    ensures Last(run').fifo.tail == Last(run).fifo.tail + 1
    decreases Stage(Last(run)), Waiting(Last(run))
  {
    var s := Last(run);
    RunInv(run);
    RunDeliverables(run);
    BusyProxyMoves(s);
    StepOnward(s);
    StepCloser(s);
    CommittedStep(s);
    run' := Extend(run, NextStep(s));
    if s.fifo.consumer != Fifo.Advance { run' := ToPopped(run'); }
  }

  /** Polling finds a trigger that is in its slot. */
  lemma ToCommitted(run: seq<Sys>) returns (run': seq<Sys>)
    requires Run(run) && Last(run).mode == Running
    requires Fifo.AtStage(Last(run).fifo, Last(run).fifo.tail, Fifo.Done)
    ensures Run(run') && run <= run' && Onward(Last(run), Last(run'))
    ensures Last(run').fifo.tail == Last(run).fifo.tail && Committed(Last(run').fifo)
  {
    run' := run;
    if !Committed(Last(run).fifo) {
      RunInv(run);
      RunDeliverables(run);
      assert Fifo.SlotOk(Last(run).fifo, Last(run).fifo.tail);
      if Last(run).fifo.consumer.GotFst? { run' := Extend(run', Poll(Fifo.LoadSnd)); }
      PollKeepsRequests(Last(run), Last(run'));
      var run1 := run';
      run' := Extend(run1, Poll(Fifo.LoadFst));
      PollKeepsRequests(Last(run1), Last(run'));
    }
  }

  lemma PollKeepsRequests(s: Sys, s': Sys)
    requires s'.fifo.pushes == s.fifo.pushes && s'.fifo.tail == s.fifo.tail
    requires s' == s.(fifo := s'.fifo, phase := s'.phase)
    requires !Fifo.Accepted(s.fifo) && !Fifo.Accepted(s'.fifo)
    ensures Onward(s, s')
  {
    assert Requests(s'.fifo) == Requests(s.fifo);
  }

  /** While the proxy runs, everything pushed can be brought to be handled and popped. */
  lemma {:induction false} ToTail(run: seq<Sys>, n: nat) returns (run': seq<Sys>)
    requires Run(run) && Last(run).mode == Running && n <= |Last(run).fifo.pushes|
    ensures Run(run') && run <= run' && Onward(Last(run), Last(run')) && Last(run').fifo.tail >= n
    decreases n - Last(run).fifo.tail
  {
    if Last(run).fifo.tail >= n {
      run' := run;
    } else {
      var run1 := ToStored(run);
      var run2 := ToCommitted(run1);
      var run3 := ToPopped(run2);
      assert |Requests(Last(run3).fifo)| == |Requests(Last(run).fifo)|;
      run' := ToTail(run3, n);
    }
  }

  /** From every reachable state in which the proxy runs, every pushed flush can be brought to return:
      no matter how far its own push, the pushes before it and the network are. */
  lemma FlushCanReturn(run: seq<Sys>, p: nat) returns (run': seq<Sys>)
    requires Run(run) && Last(run).mode == Running && p < |Last(run).fifo.pushes| && p < SENTINEL
    requires HasSync(Requests(Last(run).fifo)[p].kind)
    ensures Run(run') && run <= run' && FlushMayReturn(Last(run'), p)
  {
    var run1 := ToTail(run, p + 1);
    assert |Requests(Last(run1).fifo)| == |Requests(Last(run).fifo)|;
    run' := HandledFlushReturns(run1, p);
  }

  // ---- driving a wait to its return ----

  /** What has been applied can always become visible to the receiver. */
  lemma {:induction false} ToSeen(run: seq<Sys>, c: nat) returns (run': seq<Sys>)
    requires Run(run) && c < |Last(run).px.conns| && Last(run).px.conns[c].seen <= Last(run).px.conns[c].applied
    ensures Run(run') && run <= run' && Last(run') == Last(run).(px := Last(run').px)
    ensures var conn := Last(run).px.conns[c];
            Last(run').px == SetConn(Last(run).px, c, conn.(seen := conn.applied))
    decreases Last(run).px.conns[c].applied - Last(run).px.conns[c].seen
  {
    var px := Last(run).px;
    if px.conns[c].seen == px.conns[c].applied {
      run' := run;
      assert px.conns[c := px.conns[c]] == px.conns;
    } else {
      var run1 := Extend(run, Arrive(c));
      run' := ToSeen(run1, c);
      assert px.conns[c := Last(run1).px.conns[c]] == Last(run1).px.conns;
    }
  }

  /** The network can always complete and show everything posted on a connection. */
  lemma ToVisible(run: seq<Sys>, c: nat) returns (run': seq<Sys>)
    requires Run(run) && c < |Last(run).px.conns| && Last(run).fifo.consumer == Fifo.Idle
    ensures Run(run') && run <= run' && Last(run') == Last(run).(px := Last(run').px)
    ensures Last(run').px.semConn == Last(run).px.semConn && c < |Last(run').px.conns|
    ensures Last(run').px.conns[c].seen == |Last(run').px.conns[c].posted|
  {
    RunInv(run);
    assert ViewConnOk(Last(run).px, ViewOf(Last(run)), c);
    var run1 := ToDrained(run, c);
    run' := ToSeen(run1, c);
  }

  /** From every reachable state in which the proxy runs, a started wait whose signal has been
      requested can be brought to return. */
  lemma WaitCanReturn(run: seq<Sys>, sem: nat, k: nat) returns (run': seq<Sys>)
    requires Run(run) && Last(run).mode == Running
    requires sem < |Last(run).px.semConn| && sem < |Last(run).waits.tickets|
    requires 1 <= k <= Last(run).waits.tickets[sem] && k <= Signals(Requests(Last(run).fifo), sem)
    ensures Run(run') && run <= run' && Enabled(Last(run'), WaitReturn(sem, k))
  {
    var run1 := ToTail(run, |Last(run).fifo.pushes|);
    var run2 := ToIdle(run1);
    RunInv(run2);
    run' := ToVisible(run2, Last(run2).px.semConn[sem]);
    RunInv(run');
    var s, fs := Last(run'), Requests(Last(run).fifo);
    assert Requests(s.fifo) == fs && |fs| == |s.fifo.pushes|;
    assert ViewOf(s).posted == |fs| && fs[..|fs|] == fs;
    SignalsPosted(s.px, ViewOf(s), sem);
  }
}
