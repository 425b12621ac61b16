/** The proxy service object, as the code updates it in place; its methods are tied to the steps of
    the pipeline model. */
module ProxyService {
  import opened Trigger
  import opened PortChannel

  // ---- one pass over the pending flushes ----

  /** A connection after its poll returned `w` completions. */
  function Polled(conn: Conn, w: nat): Conn {
    if conn.async then conn.(polled := conn.polled + w) else conn
  }

  /** The flush is complete: nothing posted is unpolled, or the connection flushed when asked to. */
  predicate Finished(conn: Conn) {
    !conn.async || conn.polled == |conn.posted|
  }

  /** What a pass does to one connection that has a flush pending at `pos`. */
  function AfterPass(conn: Conn, pos: nat, w: nat): Conn {
    var polled := Polled(conn, w);
    if Finished(polled) then polled.(flushDone := pos + 1) else polled
  }

  /** The whole pass: each pending connection is polled once, and exactly the finished ones are
      published and leave the pending map. */
  function Pass(px: Proxy, polls: nat -> nat): Proxy {
    px.(conns := seq(|px.conns|, c requires 0 <= c < |px.conns| =>
                   if c in px.pending then AfterPass(px.conns[c], px.pending[c], polls(c)) else px.conns[c]),
        pending := map c | c in px.pending && !(c < |px.conns| && Finished(Polled(px.conns[c], polls(c))))
                     :: px.pending[c])
  }

  /** The pass so far, with the connections of `todo` still to come. */
  ghost predicate PassedBut(px: Proxy, px': Proxy, polls: nat -> nat, todo: set<nat>) {
    && px' == px.(conns := px'.conns, pending := px'.pending) && |px'.conns| == |px.conns|
    && (forall c: nat :: c < |px.conns| ==>
          px'.conns[c] == if c in todo then px.conns[c] else Pass(px, polls).conns[c])
    && (forall c: nat :: c in px'.pending <==> (c in todo || c in Pass(px, polls).pending))
    && forall c: nat :: c in px'.pending ==> c in px.pending && px'.pending[c] == px.pending[c]
  }

  lemma PassStart(px: Proxy, polls: nat -> nat)
    requires forall c :: c in px.pending ==> c < |px.conns|
    ensures PassedBut(px, px, polls, px.pending.Keys)
  {
  }

  lemma PassEnd(px: Proxy, px': Proxy, polls: nat -> nat)
    requires PassedBut(px, px', polls, {})
    ensures px' == Pass(px, polls)
  {
    assert px'.conns == Pass(px, polls).conns;
    assert px'.pending == Pass(px, polls).pending;
  }

  /** One turn of the loop is one `Progress` step of the pipeline. */
  lemma TurnOfPass(px: Proxy, px': Proxy, polls: nat -> nat, todo: set<nat>, c: nat)
    requires PassedBut(px, px', polls, todo) && c in todo && c < |px.conns| && c in px.pending
    ensures PassedBut(px, ProgressPart(px', c, polls(c)), polls, todo - {c})
  {
    assert px'.conns[c] == px.conns[c] && px'.pending[c] == px.pending[c];
  }

  /** The turns of the loop one after the other, each a progress step of the pipeline. */
  function ProgressAll(px: Proxy, order: seq<nat>, polls: nat -> nat): Proxy
    requires forall i :: 0 <= i < |order| ==> order[i] < |px.conns|
    decreases order
  {
    if order == [] then px
    else if order[0] in px.pending then ProgressAll(ProgressPart(px, order[0], polls(order[0])), order[1..], polls)
    else ProgressAll(px, order[1..], polls)
  }

  lemma {:induction false} PassRest(px: Proxy, px': Proxy, order: seq<nat>, polls: nat -> nat, todo: set<nat>)
    requires PassedBut(px, px', polls, todo) && todo <= px.pending.Keys
    requires forall i :: 0 <= i < |order| ==> order[i] < |px.conns|
    requires forall c :: c in todo <==> c in order
    requires forall i, j :: 0 <= i < j < |order| ==> order[i] != order[j]
    ensures ProgressAll(px', order, polls) == Pass(px, polls)
    decreases order
  {
    if order == [] {
      assert todo == {};
      PassEnd(px, px', polls);
    } else {
      var c := order[0];
      TurnOfPass(px, px', polls, todo, c);
      PassRest(px, ProgressPart(px', c, polls(c)), order[1..], polls, todo - {c});
    }
  }

  /** A pass is one progress step per pending connection, in whatever order. */
  lemma PassIsProgress(px: Proxy, order: seq<nat>, polls: nat -> nat)
    requires forall c :: c in px.pending <==> c in order
    requires forall i :: 0 <= i < |order| ==> order[i] < |px.conns|
    requires forall i, j :: 0 <= i < j < |order| ==> order[i] != order[j]
    ensures ProgressAll(px, order, polls) == Pass(px, polls)
  {
    PassStart(px, polls);
    PassRest(px, px, order, polls, px.pending.Keys);
  }

  /** What the polls of pass `i` find. */
  function PollsOf(polls: (nat, nat) -> nat, i: nat): nat -> nat { c => polls(i, c) }

  /** The first `n` passes of stopping. */
  function Passes(px: Proxy, polls: (nat, nat) -> nat, n: nat): Proxy {
    if n == 0 then px else Pass(Passes(px, polls, n - 1), PollsOf(polls, n - 1))
  }

  /** What passes do to the flushes that were pending: each is still pending or has been released;
      other connections are untouched. */
  ghost predicate Releases(px: Proxy, px': Proxy) {
    && |px'.conns| == |px.conns| && px'.pending.Keys <= px.pending.Keys
    && (forall c: nat :: c < |px.conns| && c !in px.pending ==> px'.conns[c] == px.conns[c])
    && (forall c: nat :: c < |px.conns| && c in px.pending && c !in px'.pending ==>
          px'.conns[c].flushDone > px.pending[c])
    && forall c: nat :: c in px'.pending ==> px'.pending[c] == px.pending[c]
  }

  lemma PassReleases(px: Proxy, polls: nat -> nat)
    ensures Releases(px, Pass(px, polls))
  {
  }

  lemma {:induction false} PassesRelease(px: Proxy, polls: (nat, nat) -> nat, n: nat)
    ensures Releases(px, Passes(px, polls, n))
  {
    if n > 0 {
      PassesRelease(px, polls, n - 1);
      PassReleases(Passes(px, polls, n - 1), PollsOf(polls, n - 1));
    }
  }

  /** The sentinel releases what is left. */
  lemma SentinelReleases(px: Proxy, px': Proxy)
    requires Releases(px, px') && forall c :: c in px.pending ==> px.pending[c] < SENTINEL
    ensures Releases(px, SentinelPart(px')) && SentinelPart(px').pending == map[]
  {
  }

  lemma SentinelIdle(px: Proxy)
    requires px.pending == map[]
    ensures SentinelPart(px) == px
  {
    assert SentinelPart(px).conns == px.conns;
    assert px.forced + px.pending.Keys == px.forced;
  }

  /** The sync part has to wait: it drains a connection with posted work not yet completed. */
  predicate MustWait(px: Proxy, f: Fields)
    requires WellFormed(px) && Known(px, f)
  {
    var conn := px.conns[ConnOf(px, f)];
    Blocks(px, f) && conn.applied != |conn.posted|
  }

  class ProxyService {
    var conns: seq<Conn>
    const semaphores: seq<nat>
    var outbound: seq<nat>
    var pendingFlushPos: map<nat, nat>
    ghost var forced: set<nat>

    ghost function Contents(): Proxy
      reads this
    {
      Proxy(conns, semaphores, outbound, pendingFlushPos, forced)
    }

    ghost predicate Valid()
      reads this
    {
      WellFormed(Contents()) && forall c :: c in pendingFlushPos ==> c < |conns|
    }

    constructor (connections: seq<Conn>, semConn: seq<nat>)
      requires forall sem :: 0 <= sem < |semConn| ==> semConn[sem] < |connections|
      ensures Valid() && conns == connections && semaphores == semConn && pendingFlushPos == map[]
    {
      conns, semaphores, outbound, pendingFlushPos := connections, semConn, seq(|semConn|, _ => 0), map[];
      forced := {};
    }

    /** Handling the trigger at FIFO position `pos` performs the three steps of the pipeline in order,
        up to a blocking flush whose posted work the network has not completed yet. There it waits;
        `Sync` is how it goes on. */
    method HandleTrigger(pos: nat, f: Fields) returns (blocked: bool)
      requires Valid() && f.semaphoreId < |semaphores|
      modifies this
      ensures Valid()
      ensures var px := FlagPart(DataPart(old(Contents()), pos, f), pos, f);
              && blocked == MustWait(px, f)
              && Contents() == if blocked then px else SyncPart(px, pos, f)
    {
      var c := semaphores[f.semaphoreId];
      if HasData(f.kind) {
        var conn := conns[c];
        conns := conns[c := conn.(posted := conn.posted + [Write(pos, f)], inflight := conn.inflight + 1)];
      }
      assert Contents() == DataPart(old(Contents()), pos, f);
      if HasFlag(f.kind) {
        var conn, token := conns[c], outbound[f.semaphoreId] + 1;
        outbound := outbound[f.semaphoreId := token];
        conns := conns[c := conn.(posted := conn.posted + [Signal(pos, f.semaphoreId, token)],
                                  inflight := conn.inflight + 1)];
      }
      assert Contents() == FlagPart(DataPart(old(Contents()), pos, f), pos, f);
      var conn := conns[c];
      var drains := if HasSync(f.kind) then !conn.async else conn.maxQueue != -1 && conn.inflight >= conn.maxQueue;
      blocked := drains && conn.applied != |conn.posted|;
      if !blocked {
        Sync(pos, f);
      }
    }

    /** The last branch: remember a flush, or drain a full queue. */
    method Sync(pos: nat, f: Fields)
      requires Valid() && f.semaphoreId < |semaphores|
      modifies this
      ensures Valid() && Contents() == SyncPart(old(Contents()), pos, f)
    {
      var c := semaphores[f.semaphoreId];
      var conn := conns[c];
      if HasSync(f.kind) {
        if !conn.async {
          conn := conn.(polled := |conn.posted|);
        }
        pendingFlushPos := pendingFlushPos[c := pos];
        conns := conns[c := conn.(inflight := 0)];
      } else if conn.maxQueue != -1 && conn.inflight >= conn.maxQueue {
        conns := conns[c := conn.(polled := |conn.posted|, inflight := 0)];
      }
    }

    /** One pass over the pending flushes, in whatever order the map yields them. */
    method ProgressFlushes(polls: nat -> nat)
      requires Valid()
      modifies this
      ensures Valid() && Contents() == Pass(old(Contents()), polls)
    {
      var todo := pendingFlushPos.Keys;
      PassStart(Contents(), polls);
      while todo != {}
        invariant Valid() && todo <= old(pendingFlushPos).Keys && todo <= pendingFlushPos.Keys
        invariant PassedBut(old(Contents()), Contents(), polls, todo)
        decreases todo
      {
        var c :| c in todo;
        TurnOfPass(old(Contents()), Contents(), polls, todo, c);
        ProgressFlush(c, polls(c));
        todo := todo - {c};
      }
      PassEnd(old(Contents()), Contents(), polls);
    }

    /** One turn: poll, and publish the position if the connection has drained. */
    method ProgressFlush(c: nat, w: nat)
      requires Valid() && c in pendingFlushPos
      modifies this
      ensures Valid() && Contents() == ProgressPart(old(Contents()), c, w)
    {
      var conn := conns[c];
      if conn.async {
        conn := conn.(polled := conn.polled + w);
      }
      if !conn.async || conn.polled == |conn.posted| {
        conn := conn.(flushDone := pendingFlushPos[c] + 1);
        pendingFlushPos := pendingFlushPos - {c};
      }
      conns := conns[c := conn];
    }

    /** Stopping: passes until nothing is pending, at most 1000, then the sentinel for what is left.
        When it returns nothing is pending and every flush that was pending has been released. */
    method StopProxy(polls: (nat, nat) -> nat) returns (passes: nat)
      requires Valid() && forall c :: c in pendingFlushPos ==> pendingFlushPos[c] < SENTINEL
      modifies this
      ensures Valid() && pendingFlushPos == map[] && passes <= 1000
      ensures Contents() == SentinelPart(Passes(old(Contents()), polls, passes))
      ensures passes < 1000 ==> Passes(old(Contents()), polls, passes).pending == map[]
      ensures Releases(old(Contents()), Contents())
    {
      passes := 0;
      while passes < 1000 && pendingFlushPos != map[]
        invariant Valid() && passes <= 1000
        invariant Contents() == Passes(old(Contents()), polls, passes)
      {
        ProgressFlushes(PollsOf(polls, passes));
        passes := passes + 1;
      }
      PassesRelease(old(Contents()), polls, passes);
      SentinelReleases(old(Contents()), Contents());
      if pendingFlushPos != map[] {
        WriteSentinel();
      } else {
        SentinelIdle(Contents());
      }
    }

    /** Force-unblocks the waiters of all connections still pending. */
    method WriteSentinel()
      requires Valid()
      modifies this
      ensures Valid() && Contents() == SentinelPart(old(Contents()))
    {
      conns := seq(|conns|, c requires 0 <= c < |conns| reads this =>
                 if c in pendingFlushPos then conns[c].(flushDone := SENTINEL) else conns[c]);
      forced := forced + pendingFlushPos.Keys;
      pendingFlushPos := map[];
      assert conns == SentinelPart(old(Contents())).conns;
    }
  }
}
