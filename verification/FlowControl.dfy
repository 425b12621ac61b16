/** Flow control on a connection with a bounded queue: between two triggers, fewer requests than the
    bound are left over that no drain and no flush accounts for, and the proxy thread waits for a drain
    only when the queue is full. */
module FlowControl {
  import opened Trigger
  import opened PortChannel

  /** The step handles a flush on connection `c`. */
  ghost predicate FlushesAt(s: Sys, e: Event, c: nat) {
    e.HandleSync? && HandlingAt(s, AtSync) && ConnOf(s.px, Current(s)) == c && HasSync(Current(s).kind)
  }

  /** What was posted on `c` when the last flush on it was handled, up to state `k` of the run. */
  ghost function SyncedAt(run: seq<Sys>, events: seq<Event>, k: nat, c: nat): nat
    requires k <= |events| < |run|
  {
    if k == 0 then 0
    else if FlushesAt(run[k - 1], events[k - 1], c) && c < |run[k - 1].px.conns|
    then |run[k - 1].px.conns[c].posted|
    else SyncedAt(run, events, k - 1, c)
  }

  function Max(a: int, b: int): int { if a < b then b else a }

  /** The trigger in hand may have posted this many requests on `c` that have not been checked yet. */
  ghost function Unchecked(s: Sys, c: nat): nat {
    if !(s.fifo.consumer.Handling? && Known(s.px, Current(s)) && ConnOf(s.px, Current(s)) == c) then 0
    else if s.phase.AtFlag? then 1 else if s.phase.AtSync? then 2 else 0
  }

  /** The in-flight counter counts what was posted since the last drain or flush, within the bound. */
  ghost predicate CountOk(conn: Conn, synced: nat, unchecked: nat) {
    && synced <= |conn.posted| - conn.inflight <= Max(conn.applied, synced)
    && (conn.maxQueue != -1 ==> conn.inflight <= Max(conn.maxQueue - 1, 0) + unchecked)
  }

  ghost predicate FlowOk(s: Sys, c: nat, synced: nat) {
    c < |s.px.conns| && CountOk(s.px.conns[c], synced, Unchecked(s, c))
  }

  lemma DataFlow(s: Sys, c: nat, synced: nat)
    requires Enabled(s, HandleData) && FlowOk(s, c, synced)
    ensures FlowOk(Apply(s, HandleData), c, synced)
  {
  }

  lemma FlagFlow(s: Sys, c: nat, synced: nat)
    requires Enabled(s, HandleFlag) && FlowOk(s, c, synced)
    ensures FlowOk(Apply(s, HandleFlag), c, synced)
  {
  }

  ghost function SyncedAfter(s: Sys, e: Event, c: nat, synced: nat): nat
    requires c < |s.px.conns|
  {
    if FlushesAt(s, e, c) then |s.px.conns[c].posted| else synced
  }

  lemma SyncFlow(s: Sys, c: nat, synced: nat)
    requires Enabled(s, HandleSync) && FlowOk(s, c, synced)
    ensures FlowOk(Apply(s, HandleSync), c, SyncedAfter(s, HandleSync, c, synced))
  {
  }

  /** Between triggers the thread has nothing unchecked. */
  lemma PollFlow(s: Sys, e: Event, c: nat, synced: nat)
    requires Enabled(s, e) && (e.Device? || e.Poll?) && FlowOk(s, c, synced)
    ensures FlowOk(Apply(s, e), c, synced)
  {
  }

  lemma OtherFlow(s: Sys, e: Event, c: nat, synced: nat)
    requires Enabled(s, e) && FlowOk(s, c, synced)
    requires !e.Device? && !e.Poll? && !e.HandleData? && !e.HandleFlag? && !e.HandleSync?
    ensures FlowOk(Apply(s, e), c, synced)
  {
  }

  lemma StepFlow(s: Sys, e: Event, s': Sys, c: nat, synced: nat)
    requires StepBy(s, e, s') && FlowOk(s, c, synced)
    ensures FlowOk(s', c, SyncedAfter(s, e, c, synced))
  {
    match e
    case HandleData => DataFlow(s, c, synced);
    case HandleFlag => FlagFlow(s, c, synced);
    case HandleSync => SyncFlow(s, c, synced);
    case Device(_) | Poll(_) => PollFlow(s, e, c, synced);
    case _ => OtherFlow(s, e, c, synced);
  }

  lemma FirstFlow(s: Sys, c: nat)
    requires Initial(s) && c < |s.px.conns|
    ensures FlowOk(s, c, 0)
  {
    assert Fresh(s.px.conns[c]);
  }

  lemma {:induction false} RunFlow(run: seq<Sys>, events: seq<Event>, k: nat, c: nat)
    requires Trace(run, events) && k <= |events| && c < |run[0].px.conns|
    ensures FlowOk(run[k], c, SyncedAt(run, events, k, c))
  {
    if k == 0 {
      FirstFlow(run[0], c);
    } else {
      RunFlow(run, events, k - 1, c);
      NextFlow(run, events, k - 1, c, SyncedAt(run, events, k - 1, c));
    }
  }

  lemma NextFlow(run: seq<Sys>, events: seq<Event>, j: nat, c: nat, synced: nat)
    requires Trace(run, events) && j < |events| && FlowOk(run[j], c, synced)
    ensures FlowOk(run[j + 1], c, SyncedAfter(run[j], events[j], c, synced))
  {
    StepFlow(run[j], events[j], run[j + 1], c, synced);
  }

  /** On a connection with a bounded queue, whenever the proxy thread is not inside a trigger, fewer
      requests than the bound are posted beyond both what has been applied and what the last flush
      covers. */
  lemma QueueIsBounded(run: seq<Sys>, events: seq<Event>, k: nat, c: nat)
    requires Trace(run, events) && k <= |events| && c < |run[0].px.conns|
    requires run[k].fifo.consumer.Handling? ==> run[k].phase.AtData? || run[k].phase.Handled?
    ensures c < |run[k].px.conns|
    ensures var conn := run[k].px.conns[c];
            conn.maxQueue >= 1 ==> |conn.posted| < Max(conn.applied, SyncedAt(run, events, k, c)) + conn.maxQueue
  {
    RunFlow(run, events, k, c);
  }

  /** A trigger that is no flush waits for a drain only when at least the bound has been posted since
      the last flush. */
  lemma DrainsOnlyWhenFull(run: seq<Sys>, events: seq<Event>, k: nat)
    requires Trace(run, events) && k < |events| && events[k] == HandleSync
    ensures HandlingAt(run[k], AtSync)
    ensures var f := Current(run[k]);
            var c := ConnOf(run[k].px, f);
            !HasSync(f.kind) && Blocks(run[k].px, f) ==>
              |run[k].px.conns[c].posted| >= SyncedAt(run, events, k, c) + run[k].px.conns[c].maxQueue
  {
    assert StepBy(run[k], events[k], run[k + 1]);
    SameConns(run, events, k);
    RunFlow(run, events, k, ConnOf(run[k].px, Current(run[k])));
  }

  lemma {:induction false} SameConns(run: seq<Sys>, events: seq<Event>, k: nat)
    requires Trace(run, events) && k <= |events|
    ensures |run[k].px.conns| == |run[0].px.conns|
  {
    if k > 0 {
      SameConns(run, events, k - 1);
      assert StepBy(run[k - 1], events[k - 1], run[k - 1 + 1]);
    }
  }
}
