/** The ring FIFO between device threads and the proxy, as a state machine over atomic loads and
    stores. Any number of pushes may be in flight; a push is named by the ticket its fetch-add
    on the head returned, and `pushes[t]` records what ticket `t` carries and how far it is. */
module Fifo {
  import opened Arith
  import opened Trigger

  datatype Stage =
    | Check               // about to compare with the cached tail
    | Sync                // spinning on the tail
    | Cache(val: nat)     // left the spin with this tail, about to store it in the cache
    | StoreSnd
    | StoreFst
    | Done

  datatype Push = Push(trigger: Raw, stage: Stage)

  /** The proxy thread: polling, handling the polled trigger, or popping it. */
  datatype Consumer = Idle | GotFst(fst: nat) | Handling(trigger: Raw) | Clear | Advance

  /** `loaded` are tail values that other callers of poll or sync have read and not yet stored;
      `handled` lists what the handler was called with. The head is `|pushes|`. */
  datatype State = State(slots: seq<Raw>, pushes: seq<Push>, tail: nat, tailCache: nat,
                         loaded: multiset<nat>, consumer: Consumer, handled: seq<Raw>)

  datatype Event =
    | Take(trigger: Raw)
    | CheckCache(t: nat)
    | SyncLoad(t: nat)
    | SyncStore(t: nat)
    | WriteSnd(t: nat)
    | WriteFst(t: nat)
    | OtherLoad
    | OtherStore(val: nat)
    | LoadFst
    | LoadSnd
    | EndHandler
    | ClearFst
    | AdvanceTail

  function Initial(size: nat): State {
    State(seq(size, _ => Raw(0, 0)), [], 0, 0, multiset{}, Idle, [])
  }

  ghost predicate AtStage(s: State, t: nat, stage: Stage) {
    t < |s.pushes| && s.pushes[t].stage == stage
  }

  ghost predicate Enabled(s: State, e: Event) {
    && |s.slots| > 0
    && match e
       case Take(trigger) => Words(trigger)
       case CheckCache(t) => AtStage(s, t, Check)
       case SyncLoad(t) => AtStage(s, t, Sync)
       case SyncStore(t) => t < |s.pushes| && s.pushes[t].stage.Cache?
       case WriteSnd(t) => AtStage(s, t, StoreSnd)
       case WriteFst(t) => AtStage(s, t, StoreFst)
       case OtherLoad => true
       case OtherStore(val) => val in s.loaded
       case LoadFst => s.consumer == Idle
       case LoadSnd => s.consumer.GotFst?
       case EndHandler => s.consumer.Handling?
       case ClearFst => s.consumer == Clear
       case AdvanceTail => s.consumer == Advance
  }

  function SetStage(s: State, t: nat, stage: Stage): State
    requires t < |s.pushes|
  {
    s.(pushes := s.pushes[t := s.pushes[t].(stage := stage)])
  }

  function Apply(s: State, e: Event): State
    requires Enabled(s, e)
  {
    var size := |s.slots|;
    match e
    case Take(trigger) => s.(pushes := s.pushes + [Push(trigger, Check)])
    case CheckCache(t) => SetStage(s, t, if t >= size + s.tailCache then Sync else StoreSnd)
    case SyncLoad(t) => if t >= size + s.tail then s else SetStage(s, t, Cache(s.tail))
    case SyncStore(t) => SetStage(s, t, StoreSnd).(tailCache := s.pushes[t].stage.val)
    case WriteSnd(t) =>
      SetStage(s, t, StoreFst).(slots := s.slots[t % size := s.slots[t % size].(snd := Flip(s.pushes[t].trigger.snd))])
    case WriteFst(t) =>
      SetStage(s, t, Done).(slots := s.slots[t % size := s.slots[t % size].(fst := s.pushes[t].trigger.fst)])
    case OtherLoad => s.(loaded := s.loaded + multiset{s.tail})
    case OtherStore(val) => s.(tailCache := val, loaded := s.loaded - multiset{val})
    case LoadFst => s.(consumer := GotFst(s.slots[s.tail % size].fst))
    case LoadSnd =>
      var fst, snd := s.consumer.fst, s.slots[s.tail % size].snd;
      if fst == 0 || snd == 0 then s.(consumer := Idle)
      else s.(consumer := Handling(Raw(fst, Flip(snd))), handled := s.handled + [Raw(fst, Flip(snd))])
    case EndHandler => s.(consumer := Clear)
    case ClearFst => s.(consumer := Advance, slots := s.slots[s.tail % size := s.slots[s.tail % size].(fst := 0)])
    case AdvanceTail => s.(consumer := Idle, tail := s.tail + 1)
  }

  ghost predicate Step(s: State, s': State) {
    exists e :: Enabled(s, e) && s' == Apply(s, e)
  }

  ghost predicate Run(size: nat, run: seq<State>) {
    && run != [] && run[0] == Initial(size)
    && forall i :: 0 <= i < |run| - 1 ==> Step(run[i], run[i + 1])
  }

  // ---- invariant ----

  /** The push holds a slot of the current window. */
  ghost predicate Owns(stage: Stage) { stage.StoreSnd? || stage.StoreFst? || stage.Done? }

  ghost predicate PushOk(s: State, t: nat)
    requires t < |s.pushes|
  {
    var p := s.pushes[t];
    && Words(p.trigger)
    && (t < s.tail ==> p.stage == Done)
    && (p.stage.Cache? ==> p.stage.val <= s.tail && t < |s.slots| + p.stage.val)
    && (Owns(p.stage) ==> t < s.tail + |s.slots|)
  }

  /** What the slot of ticket `t` of the current window holds. */
  ghost predicate SlotOk(s: State, t: nat)
    requires |s.slots| > 0
  {
    var slot := s.slots[t % |s.slots|];
    && slot.fst == (if t < |s.pushes| && s.pushes[t].stage == Done && !(t == s.tail && s.consumer == Advance)
                    then s.pushes[t].trigger.fst else 0)
    && (t < |s.pushes| && (s.pushes[t].stage.StoreFst? || s.pushes[t].stage.Done?) ==>
          slot.snd == Flip(s.pushes[t].trigger.snd))
  }

  /** The consumer is past the poll: the trigger at the tail has been given to the handler. */
  ghost predicate Accepted(s: State) { s.consumer.Handling? || s.consumer.Clear? || s.consumer.Advance? }

  ghost predicate ConsumerOk(s: State) {
    && (s.consumer.GotFst? && s.consumer.fst != 0 ==>
          AtStage(s, s.tail, Done) && s.consumer.fst == s.pushes[s.tail].trigger.fst)
    && (Accepted(s) ==> AtStage(s, s.tail, Done))
    && (s.consumer.Handling? ==> s.consumer.trigger == s.pushes[s.tail].trigger)
  }

  ghost predicate HandledOk(s: State) {
    && |s.handled| == (if Accepted(s) then s.tail + 1 else s.tail)
    && |s.handled| <= |s.pushes|
    && forall t :: 0 <= t < |s.handled| ==> s.handled[t] == s.pushes[t].trigger && Deliverable(s.handled[t])
  }

  ghost predicate Inv(s: State) {
    && |s.slots| > 0
    && s.tailCache <= s.tail
    && (forall v :: v in s.loaded ==> v <= s.tail)
    && (forall t: nat :: t < |s.pushes| ==> PushOk(s, t))
    && (forall t: nat :: s.tail <= t < s.tail + |s.slots| ==> SlotOk(s, t))
    && ConsumerOk(s)
    && HandledOk(s)
  }

  lemma InitialInv(size: nat)
    requires size > 0
    ensures Inv(Initial(size))
  {
  }

  /** Two tickets of the current window use different slots. */
  lemma SlotsDiffer(s: State, t: nat, u: nat)
    requires |s.slots| > 0 && t != u
    requires s.tail <= t < s.tail + |s.slots| && s.tail <= u < s.tail + |s.slots|
    ensures t % |s.slots| != u % |s.slots|
  {
    if t % |s.slots| == u % |s.slots| {
      SameResidue(|s.slots|, t, u);
    }
  }

  /** A store into the slot of ticket `t` leaves the slots of other tickets as they must be. */
  lemma WriteKeepsSlots(s: State, e: Event, t: nat)
    requires Inv(s) && Enabled(s, e) && (e == WriteSnd(t) || e == WriteFst(t))
    ensures forall u: nat :: s.tail <= u < s.tail + |s.slots| ==> SlotOk(Apply(s, e), u)
  {
    assert PushOk(s, t);
    assert s.tail <= t;
    forall u: nat | s.tail <= u < s.tail + |s.slots|
      ensures SlotOk(Apply(s, e), u)
    {
      assert SlotOk(s, u);
      if u != t { SlotsDiffer(s, t, u); }
    }
  }

  lemma WriteInv(s: State, e: Event, t: nat)
    requires Inv(s) && Enabled(s, e) && (e == WriteSnd(t) || e == WriteFst(t))
    ensures Inv(Apply(s, e))
  {
    WriteKeepsSlots(s, e, t);
    assert PushOk(s, t);
    forall u: nat | u < |s.pushes|
      ensures PushOk(Apply(s, e), u)
    {
      assert PushOk(s, u);
    }
  }

  lemma TakeInv(s: State, trigger: Raw)
    requires Inv(s) && Enabled(s, Take(trigger))
    ensures Inv(Apply(s, Take(trigger)))
  {
    var s' := Apply(s, Take(trigger));
    forall u: nat | u < |s'.pushes|
      ensures PushOk(s', u)
    {
      if u < |s.pushes| { assert PushOk(s, u); }
    }
    forall u: nat | s'.tail <= u < s'.tail + |s'.slots|
      ensures SlotOk(s', u)
    {
      assert SlotOk(s, u);
    }
  }

  /** A stage change before the first store keeps the invariant; the cached tail may go backwards. */
  lemma StageInv(s: State, e: Event, t: nat)
    requires Inv(s) && Enabled(s, e)
    requires e == CheckCache(t) || e == SyncLoad(t) || e == SyncStore(t)
    ensures Inv(Apply(s, e))
  {
    var s' := Apply(s, e);
    assert PushOk(s, t);
    forall u: nat | u < |s'.pushes|
      ensures PushOk(s', u)
    {
      assert PushOk(s, u);
    }
    forall u: nat | s'.tail <= u < s'.tail + |s'.slots|
      ensures SlotOk(s', u)
    {
      assert SlotOk(s, u);
    }
  }

  lemma OtherInv(s: State, e: Event)
    requires Inv(s) && Enabled(s, e) && (e.OtherLoad? || e.OtherStore?)
    ensures Inv(Apply(s, e))
  {
    var s' := Apply(s, e);
    forall u: nat | u < |s'.pushes|
      ensures PushOk(s', u)
    {
      assert PushOk(s, u);
    }
    forall u: nat | s'.tail <= u < s'.tail + |s'.slots|
      ensures SlotOk(s', u)
    {
      assert SlotOk(s, u);
    }
  }

  /** Polling: what the two loads return is what the ticket at the tail pushed. */
  lemma PollInv(s: State, e: Event)
    requires Inv(s) && Enabled(s, e) && (e.LoadFst? || e.LoadSnd? || e.EndHandler?)
    ensures Inv(Apply(s, e))
  {
    var s' := Apply(s, e);
    assert SlotOk(s, s.tail);
    if s.tail < |s.pushes| {
      assert PushOk(s, s.tail);
      FlipTwice(s.pushes[s.tail].trigger.snd);
    }
    forall u: nat | u < |s'.pushes|
      ensures PushOk(s', u)
    {
      assert PushOk(s, u);
    }
    forall u: nat | s'.tail <= u < s'.tail + |s'.slots|
      ensures SlotOk(s', u)
    {
      assert SlotOk(s, u);
    }
  }

  lemma ClearInv(s: State)
    requires Inv(s) && Enabled(s, ClearFst)
    ensures Inv(Apply(s, ClearFst))
  {
    var s' := Apply(s, ClearFst);
    forall u: nat | u < |s'.pushes|
      ensures PushOk(s', u)
    {
      assert PushOk(s, u);
    }
    forall u: nat | s'.tail <= u < s'.tail + |s'.slots|
      ensures SlotOk(s', u)
    {
      assert SlotOk(s, u);
      if u != s.tail { SlotsDiffer(s, s.tail, u); }
    }
  }

  /** Advancing the tail moves the window: the popped slot becomes that of a later ticket. */
  lemma AdvanceInv(s: State)
    requires Inv(s) && Enabled(s, AdvanceTail)
    ensures Inv(Apply(s, AdvanceTail))
  {
    var s' := Apply(s, AdvanceTail);
    var size := |s.slots|;
    forall u: nat | u < |s'.pushes|
      ensures PushOk(s', u)
    {
      assert PushOk(s, u);
    }
    forall u: nat | s'.tail <= u < s'.tail + size
      ensures SlotOk(s', u)
    {
      if u < s.tail + size {
        assert SlotOk(s, u);
      } else {
        assert SlotOk(s, s.tail);
        assert u == s.tail + size;
        AddSize(s.tail, size);
        if u < |s.pushes| { assert PushOk(s, u); }
      }
    }
  }

  lemma AddSize(t: nat, size: nat)
    requires size > 0
    ensures (t + size) % size == t % size
  {
    var q := t / size;
    assert t + size == (q + 1) * size + t % size;
    DivModUnique(size, q + 1, t % size);
  }

  lemma StepInv(s: State, e: Event)
    requires Inv(s) && Enabled(s, e)
    ensures Inv(Apply(s, e))
  {
    match e
    case WriteSnd(t) => WriteInv(s, e, t);
    case WriteFst(t) => WriteInv(s, e, t);
    case LoadFst => PollInv(s, e);
    case LoadSnd => PollInv(s, e);
    case EndHandler => PollInv(s, e);
    case ClearFst => ClearInv(s);
    case AdvanceTail => AdvanceInv(s);
    case Take(trigger) => TakeInv(s, trigger);
    case CheckCache(t) => StageInv(s, e, t);
    case SyncLoad(t) => StageInv(s, e, t);
    case SyncStore(t) => StageInv(s, e, t);
    case OtherLoad => OtherInv(s, e);
    case OtherStore(_) => OtherInv(s, e);
  }

  lemma {:induction false} RunInv(size: nat, run: seq<State>)
    requires size > 0 && Run(size, run)
    ensures Inv(run[|run| - 1])
    decreases |run|
  {
    if |run| == 1 {
      InitialInv(size);
    } else {
      RunInv(size, run[..|run| - 1]);
      var e :| Enabled(run[|run| - 2], e) && run[|run| - 1] == Apply(run[|run| - 2], e);
      StepInv(run[|run| - 2], e);
    }
  }

  // ---- theorems ----

  /** What was pushed, in ticket order. */
  ghost function Pushed(s: State): (r: seq<Raw>)
    ensures |r| == |s.pushes|
  {
    seq(|s.pushes|, t requires 0 <= t < |s.pushes| => s.pushes[t].trigger)
  }

  /** The handler has received the pushed triggers of the first tickets. */
  lemma HandledArePushed(size: nat, run: seq<State>)
    requires size > 0 && Run(size, run)
    ensures var s := run[|run| - 1];
            && s.handled <= Pushed(s)
            && s.tail <= |s.handled| <= s.tail + 1
            && (s.consumer.Handling? ==> |s.handled| == s.tail + 1 && s.consumer.trigger == s.handled[s.tail])
            && (forall t :: 0 <= t < |s.handled| ==> Deliverable(s.handled[t]))
  {
    RunInv(size, run);
  }

  // ---- traces ----

  ghost predicate StepBy(s: State, e: Event, s': State) { Enabled(s, e) && s' == Apply(s, e) }

  /** A run together with the event of each of its steps. */
  ghost predicate Trace(size: nat, run: seq<State>, events: seq<Event>) {
    && |run| == |events| + 1 && run[0] == Initial(size)
    && forall i :: 0 <= i < |events| ==> StepBy(run[i], events[i], run[i + 1])
  }

  /** The arguments of the pushes, in the order of their tickets. */
  function Taken(events: seq<Event>): seq<Raw> {
    if events == [] then []
    else
      var last := events[|events| - 1];
      Taken(events[..|events| - 1]) + if last.Take? then [last.trigger] else []
  }

  lemma TraceIsRun(size: nat, run: seq<State>, events: seq<Event>)
    requires Trace(size, run, events)
    ensures Run(size, run)
  {
    forall i | 0 <= i < |run| - 1
      ensures Step(run[i], run[i + 1])
    {
      assert StepBy(run[i], events[i], run[i + 1]);
    }
  }

  lemma StepEvent(s: State, s': State) returns (e: Event)
    requires Step(s, s')
    ensures StepBy(s, e, s')
  {
    e :| Enabled(s, e) && s' == Apply(s, e);
  }

  lemma TraceNext(size: nat, run: seq<State>, events: seq<Event>, e: Event, s': State)
    requires Trace(size, run, events) && StepBy(run[|events|], e, s')
    ensures Trace(size, run + [s'], events + [e])
  {
    var run', events' := run + [s'], events + [e];
    forall i | 0 <= i < |events'|
      ensures StepBy(run'[i], events'[i], run'[i + 1])
    {
      if i < |events| { assert StepBy(run[i], events[i], run[i + 1]); }
    }
  }

  /** Any longer run has a longer trace. */
  lemma {:induction false} TraceOf(size: nat, run: seq<State>, events: seq<Event>, run': seq<State>)
    returns (events': seq<Event>)
    requires Trace(size, run, events) && Run(size, run') && run <= run'
    ensures Trace(size, run', events') && events <= events'
    decreases |run'|
  {
    if |run'| == |run| {
      events' := events;
      assert run' == run;
    } else {
      var n := |run'| - 1;
      events' := TraceOf(size, run, events, run'[..n]);
      var e := StepEvent(run'[n - 1], run'[n - 1 + 1]);
      TraceNext(size, run'[..n], events', e, run'[n]);
      assert run'[..n] + [run'[n]] == run';
      events' := events' + [e];
    }
  }

  lemma StepPushes(s: State, e: Event)
    requires Enabled(s, e)
    ensures Pushed(Apply(s, e)) == Pushed(s) + if e.Take? then [e.trigger] else []
  {
  }

  /** What the ring records as pushed is what the pushes were called with. */
  lemma {:induction false} PushedIsTaken(size: nat, run: seq<State>, events: seq<Event>, k: nat)
    requires Trace(size, run, events) && k <= |events|
    ensures Pushed(run[k]) == Taken(events[..k])
  {
    if k > 0 {
      var i := k - 1;
      PushedIsTaken(size, run, events, i);
      assert StepBy(run[i], events[i], run[i + 1]);
      StepPushes(run[i], events[i]);
      assert i + 1 == k && events[..k][..i] == events[..i];
    }
  }

  /** The ring refines an unbounded queue: in every trace the handler has received exactly the first of
      the triggers that the pushes were called with, each once, whole and in ticket order. */
  lemma HandlesInTicketOrder(size: nat, run: seq<State>, events: seq<Event>)
    requires size > 0 && Trace(size, run, events)
    ensures var s := run[|events|];
            && s.handled <= Taken(events)
            && s.tail <= |s.handled| <= s.tail + 1
            && (s.consumer.Handling? ==> |s.handled| == s.tail + 1 && s.consumer.trigger == s.handled[s.tail])
            && (forall t :: 0 <= t < |s.handled| ==> Deliverable(s.handled[t]))
  {
    TraceIsRun(size, run, events);
    HandledArePushed(size, run);
    LastTaken(size, run, events);
  }

  /** An undeliverable trigger is never handled and nothing behind it is ever popped. */
  lemma UndeliverableBlocks(size: nat, run: seq<State>, events: seq<Event>, t: nat)
    requires size > 0 && Trace(size, run, events)
    requires t < |Taken(events)| && !Deliverable(Taken(events)[t])
    ensures run[|events|].tail <= t && |run[|events|].handled| <= t
  {
    HandlesInTicketOrder(size, run, events);
  }

  /** When a push stores into its slot, the slot's previous ticket has been popped and no other
      unpopped ticket has written there. */
  lemma NoOverwrite(size: nat, run: seq<State>, t: nat, u: nat)
    requires size > 0 && Run(size, run)
    requires var s := run[|run| - 1];
             && (AtStage(s, t, StoreSnd) || AtStage(s, t, StoreFst))
             && s.tail <= u < |s.pushes| && u != t && (s.pushes[u].stage.StoreFst? || s.pushes[u].stage.Done?)
    ensures run[|run| - 1].tail <= t < run[|run| - 1].tail + |run[|run| - 1].slots|
    ensures t % |run[|run| - 1].slots| != u % |run[|run| - 1].slots|
  {
    RunInv(size, run);
    var s := run[|run| - 1];
    assert PushOk(s, t) && PushOk(s, u);
    SlotsDiffer(s, t, u);
  }

  // ---- no deadlock ----

  /** Ticket `t`'s producer has a step that changes its stage: it is not left spinning. */
  ghost predicate ProducerMoves(s: State, t: nat) {
    exists e :: && Enabled(s, e)
                && (e == CheckCache(t) || e == SyncLoad(t) || e == SyncStore(t) || e == WriteSnd(t) || e == WriteFst(t))
                && t < |s.pushes| && t < |Apply(s, e).pushes| && Apply(s, e).pushes[t].stage != s.pushes[t].stage
  }

  /** The consumer is working on a trigger, or its next poll will find one. */
  ghost predicate ConsumerMoves(s: State) {
    || Accepted(s)
    || (&& |s.slots| > 0
        && s.slots[s.tail % |s.slots|].fst != 0 && s.slots[s.tail % |s.slots|].snd != 0)
  }

  lemma {:induction false} FirstUnfinished(s: State, n: nat) returns (t: nat)
    requires n <= |s.pushes|
    ensures t <= n
    ensures forall u: nat :: u < t ==> AtStage(s, u, Done)
    ensures t < n ==> !AtStage(s, t, Done)
  {
    t := 0;
    while t < n && s.pushes[t].stage == Done
      invariant t <= n && forall u: nat :: u < t ==> AtStage(s, u, Done)
    {
      t := t + 1;
    }
  }

  lemma InWindowMoves(s: State, t: nat)
    requires Inv(s) && t < |s.pushes| && !AtStage(s, t, Done) && t < s.tail + |s.slots|
    ensures ProducerMoves(s, t)
  {
    assert Enabled(s, ProducerStep(s, t));
  }

  /** Work left means a step that makes headway: the producer of the lowest unfinished ticket, or
      the consumer, however far the head has run ahead of the tail. */
  lemma NeverDeadlocked(size: nat, run: seq<State>) returns (t: nat)
    requires size > 0 && Run(size, run)
    requires run[|run| - 1].tail < |run[|run| - 1].pushes|
    requires Deliverable(run[|run| - 1].pushes[run[|run| - 1].tail].trigger)
    ensures var s := run[|run| - 1];
            && (forall u: nat :: u < t ==> AtStage(s, u, Done))
            && (ConsumerMoves(s) || (t < |s.pushes| && !AtStage(s, t, Done) && ProducerMoves(s, t)))
  {
    RunInv(size, run);
    var s := run[|run| - 1];
    t := FirstUnfinished(s, |s.pushes|);
    if t < |s.pushes| && t < s.tail + |s.slots| {
      InWindowMoves(s, t);
    } else {
      assert AtStage(s, s.tail, Done);
      assert SlotOk(s, s.tail);
    }
  }

  // ---- draining ----

  function Last(run: seq<State>): State
    requires run != []
  {
    run[|run| - 1]
  }

  lemma Extend(size: nat, run: seq<State>, e: Event) returns (run': seq<State>)
    requires Run(size, run) && Enabled(Last(run), e)
    ensures Run(size, run') && run <= run' && Last(run') == Apply(Last(run), e)
  {
    run' := run + [Apply(Last(run), e)];
    forall i | 0 <= i < |run'| - 1
      ensures Step(run'[i], run'[i + 1])
    {
      if i < |run| - 1 {
        assert run'[i] == run[i] && run'[i + 1] == run[i + 1];
      } else {
        assert Enabled(run'[i], e) && run'[i + 1] == Apply(run'[i], e);
      }
    }
  }

  /** How far a push is from having stored its trigger. */
  function StageRank(stage: Stage): nat {
    match stage
    case Check => 5
    case Sync => 4
    case Cache(_) => 3
    case StoreSnd => 2
    case StoreFst => 1
    case Done => 0
  }

  /** How far the consumer is from having popped a trigger that is in its slot. A poll that looked
      before the store comes to nothing. */
  function ConsumerRank(consumer: Consumer): nat {
    match consumer
    case GotFst(fst) => if fst == 0 then 6 else 4
    case Idle => 5
    case Handling(_) => 3
    case Clear => 2
    case Advance => 1
  }

  /** The producer's next step for a ticket. */
  function ProducerStep(s: State, t: nat): Event
    requires t < |s.pushes| && s.pushes[t].stage != Done
  {
    match s.pushes[t].stage
    case Check => CheckCache(t)
    case Sync => SyncLoad(t)
    case Cache(_) => SyncStore(t)
    case StoreSnd => WriteSnd(t)
    case StoreFst => WriteFst(t)
  }

  function ConsumerStep(s: State): Event {
    match s.consumer
    case Idle => LoadFst
    case GotFst(_) => LoadSnd
    case Handling(_) => EndHandler
    case Clear => ClearFst
    case Advance => AdvanceTail
  }

  /** The push at the tail gets on with its stores. */
  lemma ProducerGetsOn(s: State)
    requires Inv(s) && s.tail < |s.pushes| && s.pushes[s.tail].stage != Done
    ensures Enabled(s, ProducerStep(s, s.tail))
    ensures var s' := Apply(s, ProducerStep(s, s.tail));
            && Pushed(s') == Pushed(s) && s'.tail == s.tail && s'.consumer == s.consumer
            && StageRank(s'.pushes[s.tail].stage) < StageRank(s.pushes[s.tail].stage)
  {
  }

  /** The consumer gets on with a trigger that is in its slot and can be told from an empty one. */
  lemma ConsumerGetsOn(s: State)
    requires Inv(s) && s.tail < |s.pushes| && s.pushes[s.tail].stage == Done
    requires Deliverable(s.pushes[s.tail].trigger)
    ensures Enabled(s, ConsumerStep(s))
    ensures var s' := Apply(s, ConsumerStep(s));
            && s'.pushes == s.pushes
            && (s'.tail == s.tail + 1 || (s'.tail == s.tail && ConsumerRank(s'.consumer) < ConsumerRank(s.consumer)))
  {
    assert SlotOk(s, s.tail);
  }

  ghost predicate AllDeliverable(triggers: seq<Raw>) {
    forall t :: 0 <= t < |triggers| ==> Deliverable(triggers[t])
  }

  /** Without further pushes, every trigger can be brought to be handled and popped. */
  lemma {:induction false} Drain(size: nat, run: seq<State>) returns (run': seq<State>)
    requires size > 0 && Run(size, run) && Inv(Last(run)) && AllDeliverable(Pushed(Last(run)))
    ensures Run(size, run') && run <= run'
    ensures Last(run').handled == Pushed(Last(run')) == Pushed(Last(run))
    decreases |Last(run).pushes| - Last(run).tail,
              if Last(run).tail < |Last(run).pushes| then StageRank(Last(run).pushes[Last(run).tail].stage) else 0,
              ConsumerRank(Last(run).consumer)
  {
    var s := Last(run);
    if s.tail == |s.pushes| {
      run' := run;
    } else {
      assert Deliverable(Pushed(s)[s.tail]);
      var e;
      if s.pushes[s.tail].stage != Done {
        ProducerGetsOn(s);
        e := ProducerStep(s, s.tail);
      } else {
        ConsumerGetsOn(s);
        e := ConsumerStep(s);
      }
      var run1 := Extend(size, run, e);
      StepInv(s, e);
      assert Pushed(Last(run1)) == Pushed(s);
      run' := Drain(size, run1);
    }
  }

  /** The trace can go on so that the handler has received everything pushed so far. */
  ghost predicate CanHandleAll(size: nat, run: seq<State>, events: seq<Event>) {
    exists run': seq<State>, events': seq<Event> ::
      && run <= run' && events <= events' && Trace(size, run', events')
      && Taken(events) <= run'[|events'|].handled
  }

  lemma DrainRun(size: nat, run: seq<State>) returns (run': seq<State>)
    requires size > 0 && Run(size, run) && AllDeliverable(Pushed(Last(run)))
    ensures Run(size, run') && run <= run' && Last(run').handled == Pushed(Last(run))
  {
    RunInv(size, run);
    run' := Drain(size, run);
  }

  lemma LastTaken(size: nat, run: seq<State>, events: seq<Event>)
    requires Trace(size, run, events)
    ensures Pushed(run[|events|]) == Taken(events)
  {
    PushedIsTaken(size, run, events, |events|);
    assert events[..|events|] == events;
  }

  lemma DrainTrace(size: nat, run: seq<State>, events: seq<Event>) returns (run': seq<State>)
    requires size > 0 && Trace(size, run, events) && AllDeliverable(Taken(events))
    ensures Run(size, run') && run <= run' && Last(run').handled == Taken(events)
  {
    TraceIsRun(size, run, events);
    LastTaken(size, run, events);
    run' := DrainRun(size, run);
  }

  lemma DeliverableAreHandled(size: nat, run: seq<State>, events: seq<Event>)
    returns (run': seq<State>, events': seq<Event>)
    requires size > 0 && Trace(size, run, events) && AllDeliverable(Taken(events))
    ensures run <= run' && events <= events' && Trace(size, run', events')
    ensures Taken(events) == run'[|events'|].handled
  {
    run' := DrainTrace(size, run, events);
    events' := TraceOf(size, run, events, run');
  }

  lemma HandledAreDeliverable(size: nat, run: seq<State>, events: seq<Event>, triggers: seq<Raw>)
    requires size > 0 && Trace(size, run, events) && triggers <= run[|events|].handled
    ensures AllDeliverable(triggers)
  {
    HandlesInTicketOrder(size, run, events);
    assert forall t :: 0 <= t < |triggers| ==> triggers[t] == run[|events|].handled[t];
  }

  /** From every reachable state, all that has been pushed can still be handled if and only if each
      pushed trigger can be told from an empty slot. */
  lemma HandlesAllIff(size: nat, run: seq<State>, events: seq<Event>)
    requires size > 0 && Trace(size, run, events)
    ensures CanHandleAll(size, run, events) <==> AllDeliverable(Taken(events))
  {
    if AllDeliverable(Taken(events)) {
      var run', events' := DeliverableAreHandled(size, run, events);
    }
    if CanHandleAll(size, run, events) {
      var run': seq<State>, events': seq<Event> :|
        && run <= run' && events <= events' && Trace(size, run', events')
        && Taken(events) <= run'[|events'|].handled;
      HandledAreDeliverable(size, run', events', Taken(events));
    }
  }

  /** The put of zero bytes from offset zero, which only a device assertion stops. */
  lemma ZeroBytePutExample(f: Fields, run: seq<State>, events: seq<Event>)
    requires f == Fields(1, 0, 0, 0, 0, 0, 0) && events == [Take(Encode(f))]
    requires run == [Initial(1), Apply(Initial(1), Take(Encode(f)))]
    ensures Trace(1, run, events) && !CanHandleAll(1, run, events)
  {
    EncodeDecode(f);
    UndeliverableIff(f);
    assert events[..0] == [] && Taken(events)[0] == Encode(f);
    assert StepBy(run[0], events[0], run[1]);
    HandlesAllIff(1, run, events);
  }

  /** Another caller's poll or sync brings the cached tail up to date. */
  lemma PollRefreshes(s: State)
    requires |s.slots| > 0
    ensures Enabled(s, OtherLoad) && Enabled(Apply(s, OtherLoad), OtherStore(s.tail))
    ensures var s' := Apply(Apply(s, OtherLoad), OtherStore(s.tail));
            s'.tailCache == s.tail && s'.tail == s.tail && s'.loaded == s.loaded
  {
    assert s.loaded + multiset{s.tail} - multiset{s.tail} == s.loaded;
  }

  /** A push that had to wait stores the tail that let it go on, and a later push within a ring size of
      that tail then starts to write without reading the tail itself. */
  lemma SyncRefreshes(s: State, t: nat, u: nat)
    requires Enabled(s, SyncLoad(t)) && t < |s.slots| + s.tail
    requires u != t && AtStage(s, u, Check)
    ensures var s1 := Apply(s, SyncLoad(t));
            && Enabled(s1, SyncStore(t)) && Enabled(Apply(s1, SyncStore(t)), CheckCache(u))
            && var s2 := Apply(s1, SyncStore(t));
               && AtStage(s2, t, StoreSnd) && s2.tailCache == s.tail
               && (AtStage(Apply(s2, CheckCache(u)), u, StoreSnd) <==> u < |s.slots| + s.tail)
  {
  }
}
