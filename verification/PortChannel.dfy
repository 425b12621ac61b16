/** The port-channel pipeline: device threads push triggers, the proxy thread turns them into
    writes and signals on connections and publishes completed flushes, the network completes
    the posted work in order, and receivers wait on semaphore tokens. */
module PortChannel {
  import opened Trigger
  import Fifo

  const SENTINEL: nat := 0xFFFF_FFFF_FFFF_FFFF

  /** Work posted on a connection by the trigger at FIFO position `pos`. */
  datatype Work = Write(pos: nat, fields: Fields) | Signal(pos: nat, sem: nat, token: nat)

  /** A connection: an in-order queue of posted work. `applied` of it has taken effect at the
      remote side, `seen` of that is visible to the receiver, `polled` completions have been
      taken from the completion queue. `async` connections drain flushes in the background. */
  datatype Conn = Conn(async: bool, maxQueue: int, posted: seq<Work>, applied: nat, seen: nat,
                       polled: nat, inflight: nat, flushDone: nat)

  /** The proxy service. `semConn` maps semaphores to connections, `outbound` counts each
      semaphore's signals, `pending` holds the latest flush position per connection, and
      `forced` the connections whose waiters were released by the stop sentinel. */
  datatype Proxy = Proxy(conns: seq<Conn>, semConn: seq<nat>, outbound: seq<nat>,
                         pending: map<nat, nat>, forced: set<nat>)

  ghost predicate WellFormed(px: Proxy) {
    && |px.outbound| == |px.semConn|
    && forall sem :: 0 <= sem < |px.semConn| ==> px.semConn[sem] < |px.conns|
  }

  /** A trigger whose semaphore exists. */
  ghost predicate Known(px: Proxy, f: Fields) { f.semaphoreId < |px.semConn| }

  function ConnOf(px: Proxy, f: Fields): nat
    requires Known(px, f)
  {
    px.semConn[f.semaphoreId]
  }

  function SetConn(px: Proxy, c: nat, conn: Conn): Proxy
    requires c < |px.conns|
  {
    px.(conns := px.conns[c := conn])
  }

  // ---- handling one trigger ----

  /** The data part: post a write. */
  function DataPart(px: Proxy, pos: nat, f: Fields): Proxy
    requires WellFormed(px) && Known(px, f)
  {
    var c := ConnOf(px, f);
    var conn := px.conns[c];
    if HasData(f.kind) then
      SetConn(px, c, conn.(posted := conn.posted + [Write(pos, f)], inflight := conn.inflight + 1))
    else px
  }

  /** The flag part: advance the outbound token and post the signal that carries it. */
  function FlagPart(px: Proxy, pos: nat, f: Fields): Proxy
    requires WellFormed(px) && Known(px, f)
  {
    var c, sem := ConnOf(px, f), f.semaphoreId;
    var conn, token := px.conns[c], px.outbound[sem] + 1;
    if HasFlag(f.kind) then
      SetConn(px.(outbound := px.outbound[sem := token]), c,
              conn.(posted := conn.posted + [Signal(pos, sem, token)], inflight := conn.inflight + 1))
    else px
  }

  /** The sync part waits for the connection to drain: a flush on a connection without
      background progress, or flow control on a full queue. */
  predicate Blocks(px: Proxy, f: Fields)
    requires WellFormed(px) && Known(px, f)
  {
    var conn := px.conns[ConnOf(px, f)];
    if HasSync(f.kind) then !conn.async else conn.maxQueue != -1 && conn.inflight >= conn.maxQueue
  }

  function Drained(conn: Conn): Conn { conn.(polled := |conn.posted|) }

  /** The sync part: record the flush position, or drain a full queue. */
  function SyncPart(px: Proxy, pos: nat, f: Fields): Proxy
    requires WellFormed(px) && Known(px, f)
  {
    var c := ConnOf(px, f);
    var conn := if Blocks(px, f) then Drained(px.conns[c]) else px.conns[c];
    if HasSync(f.kind) then SetConn(px, c, conn.(inflight := 0)).(pending := px.pending[c := pos])
    else if Blocks(px, f) then SetConn(px, c, conn.(inflight := 0))
    else px
  }

  /** One connection's turn in the progress loop, when the poll returns `w` completions. */
  function ProgressPart(px: Proxy, c: nat, w: nat): Proxy
    requires c < |px.conns| && c in px.pending
  {
    var conn := px.conns[c];
    var conn' := if conn.async then conn.(polled := conn.polled + w) else conn;
    if conn.async && conn'.polled != |conn'.posted| then SetConn(px, c, conn')
    else SetConn(px, c, conn'.(flushDone := px.pending[c] + 1)).(pending := px.pending - {c})
  }

  /** The last act of stopping: release the waiters of all connections still pending. */
  function SentinelPart(px: Proxy): Proxy {
    px.(conns := seq(|px.conns|, c requires 0 <= c < |px.conns| =>
                   if c in px.pending then px.conns[c].(flushDone := SENTINEL) else px.conns[c]),
        forced := px.forced + px.pending.Keys,
        pending := map[])
  }

  // ---- the system ----

  datatype Phase = AtData | AtFlag | AtSync | Handled

  datatype Mode = Running | Draining | Stopped

  /** Device threads waiting: `tickets[sem]` waits have been started on semaphore `sem`, `waited`
      are the (semaphore, ticket) pairs that returned, `flushed` the flush positions that returned. */
  datatype Waits = Waits(tickets: seq<nat>, waited: set<(nat, nat)>, flushed: set<nat>)

  datatype Sys = Sys(fifo: Fifo.State, px: Proxy, phase: Phase, mode: Mode, waits: Waits)

  datatype Event =
    | Device(e: Fifo.Event)      // a step of a device thread on the FIFO
    | Poll(e: Fifo.Event)        // a step of the proxy thread's loop on the FIFO
    | HandleData
    | HandleFlag
    | HandleSync
    | Progress(c: nat, w: nat)
    | Complete(c: nat)           // the network applies the next posted work
    | Arrive(c: nat)             // its effect becomes visible to the receiver
    | Stop
    | Sentinel
    | FlushReturn(p: nat)
    | WaitStart(sem: nat)
    | WaitReturn(sem: nat, ticket: nat)

  ghost predicate IsPushOf(px: Proxy, trigger: Raw) {
    exists f :: InRange(f) && Known(px, f) && trigger == Encode(f)
  }

  ghost predicate IsDeviceEvent(px: Proxy, e: Fifo.Event) {
    match e
    case Take(trigger) => IsPushOf(px, trigger)
    case LoadFst | LoadSnd | EndHandler | ClearFst | AdvanceTail => false
    case _ => true
  }

  ghost predicate IsPollEvent(s: Sys, e: Fifo.Event) {
    match e
    case LoadFst => s.mode == Running
    case LoadSnd | ClearFst | AdvanceTail => true
    case EndHandler => s.phase == Handled
    case _ => false
  }

  ghost predicate HandlingAt(s: Sys, phase: Phase) {
    s.fifo.consumer.Handling? && s.phase == phase && WellFormed(s.px) && Known(s.px, Current(s))
  }

  /** The fields of the trigger being handled. */
  function Current(s: Sys): Fields
    requires s.fifo.consumer.Handling?
  {
    Decode(s.fifo.consumer.trigger)
  }

  /** How many signals of `sem` are among the first `n` of the given work. */
  function SignalsIn(work: seq<Work>, n: nat, sem: nat): nat
    requires n <= |work|
  {
    if n == 0 then 0
    else SignalsIn(work, n - 1, sem) + if work[n - 1].Signal? && work[n - 1].sem == sem then 1 else 0
  }

  /** The semaphore's token at the receiver: every visible signal has added one. */
  function Inbound(px: Proxy, sem: nat): nat
    requires WellFormed(px) && sem < |px.semConn|
  {
    var conn := px.conns[px.semConn[sem]];
    if conn.seen <= |conn.posted| then SignalsIn(conn.posted, conn.seen, sem) else 0
  }

  /** A flush pushed at `p` leaves its spin: the published position has passed `p`. */
  ghost predicate FlushMayReturn(s: Sys, p: nat) {
    && Fifo.AtStage(s.fifo, p, Fifo.Done)
    && var f := Decode(s.fifo.pushes[p].trigger);
       && HasSync(f.kind) && WellFormed(s.px) && Known(s.px, f)
       && s.px.conns[ConnOf(s.px, f)].flushDone > p
  }

  ghost predicate Enabled(s: Sys, e: Event) {
    match e
    case Device(e) => IsDeviceEvent(s.px, e) && Fifo.Enabled(s.fifo, e)
    case Poll(e) => IsPollEvent(s, e) && Fifo.Enabled(s.fifo, e)
    case HandleData => HandlingAt(s, AtData)
    case HandleFlag => HandlingAt(s, AtFlag)
    case HandleSync =>
      && HandlingAt(s, AtSync)
      && var conn := s.px.conns[ConnOf(s.px, Current(s))];
         (Blocks(s.px, Current(s)) ==> conn.applied == |conn.posted|)
    case Progress(c, w) =>
      && s.fifo.consumer == Fifo.Idle && s.mode != Stopped
      && c < |s.px.conns| && c in s.px.pending
      && s.px.conns[c].polled + w <= s.px.conns[c].applied
    case Complete(c) => c < |s.px.conns| && s.px.conns[c].applied < |s.px.conns[c].posted|
    case Arrive(c) => c < |s.px.conns| && s.px.conns[c].seen < s.px.conns[c].applied
    case Stop => s.mode == Running && s.fifo.consumer == Fifo.Idle
    case Sentinel => s.mode == Draining
    case FlushReturn(p) => FlushMayReturn(s, p)
    case WaitStart(sem) => sem < |s.waits.tickets|
    case WaitReturn(sem, ticket) =>
      && WellFormed(s.px) && sem < |s.px.semConn| && sem < |s.waits.tickets|
      && 1 <= ticket <= s.waits.tickets[sem] && Inbound(s.px, sem) >= ticket
  }

  ghost function Apply(s: Sys, e: Event): Sys
    requires Enabled(s, e)
  {
    var px := s.px;
    match e
    case Device(e) => s.(fifo := Fifo.Apply(s.fifo, e))
    case Poll(e) =>
      var fifo := Fifo.Apply(s.fifo, e);
      s.(fifo := fifo, phase := if e.LoadSnd? then AtData else s.phase)
    // The position is the tail, read while the trigger is being handled.
    case HandleData => s.(px := DataPart(px, s.fifo.tail, Current(s)), phase := AtFlag)
    case HandleFlag => s.(px := FlagPart(px, s.fifo.tail, Current(s)), phase := AtSync)
    case HandleSync => s.(px := SyncPart(px, s.fifo.tail, Current(s)), phase := Handled)
    case Progress(c, w) => s.(px := ProgressPart(px, c, w))
    case Complete(c) => s.(px := SetConn(px, c, px.conns[c].(applied := px.conns[c].applied + 1)))
    case Arrive(c) => s.(px := SetConn(px, c, px.conns[c].(seen := px.conns[c].seen + 1)))
    case Stop => s.(mode := Draining)
    case Sentinel => s.(px := SentinelPart(px), mode := Stopped)
    case FlushReturn(p) => s.(waits := s.waits.(flushed := s.waits.flushed + {p}))
    case WaitStart(sem) => s.(waits := s.waits.(tickets := s.waits.tickets[sem := s.waits.tickets[sem] + 1]))
    case WaitReturn(sem, ticket) => s.(waits := s.waits.(waited := s.waits.waited + {(sem, ticket)}))
  }

  /** A new connection with nothing posted. */
  ghost predicate Fresh(conn: Conn) {
    conn.posted == [] && conn.applied == conn.seen == conn.polled == conn.inflight == conn.flushDone == 0
  }

  ghost predicate Initial(s: Sys) {
    && (exists size: nat :: size > 0 && s.fifo == Fifo.Initial(size))
    && WellFormed(s.px)
    && (forall c :: 0 <= c < |s.px.conns| ==> Fresh(s.px.conns[c]))
    && (forall sem :: 0 <= sem < |s.px.outbound| ==> s.px.outbound[sem] == 0)
    && s.px.pending == map[] && s.px.forced == {}
    && s.mode == Running
    && s.waits.waited == {} && s.waits.flushed == {}
    && (forall sem :: 0 <= sem < |s.waits.tickets| ==> s.waits.tickets[sem] == 0)
  }

  ghost predicate Step(s: Sys, s': Sys) {
    exists e :: Enabled(s, e) && s' == Apply(s, e)
  }

  ghost predicate Run(run: seq<Sys>) {
    && run != [] && Initial(run[0])
    && forall i :: 0 <= i < |run| - 1 ==> Step(run[i], run[i + 1])
  }

  // ---- traces ----

  ghost predicate StepBy(s: Sys, e: Event, s': Sys) { Enabled(s, e) && s' == Apply(s, e) }

  /** A run together with the event of each of its steps. */
  ghost predicate Trace(run: seq<Sys>, events: seq<Event>) {
    && |run| == |events| + 1 && Initial(run[0])
    && forall i :: 0 <= i < |events| ==> StepBy(run[i], events[i], run[i + 1])
  }

  /** The arguments of the device's pushes, in the order of their tickets. */
  function Taken(events: seq<Event>): seq<Raw> {
    if events == [] then []
    else
      var last := events[|events| - 1];
      Taken(events[..|events| - 1]) + if last.Device? && last.e.Take? then [last.e.trigger] else []
  }

  /** How many waits on `sem` have been started. */
  function WaitsStarted(events: seq<Event>, sem: nat): nat {
    if events == [] then 0
    else WaitsStarted(events[..|events| - 1], sem) + if events[|events| - 1] == WaitStart(sem) then 1 else 0
  }
}
